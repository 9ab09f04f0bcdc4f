/**
 * Circuit targets: references to single base-field values, and extension
 * elements made of one target per coordinate.
 */
module Targets {

  /** A base-field value of the circuit: a wire of a gate, or a virtual target
      that is not (yet) placed on a gate. Callers treat both as opaque. */
  datatype Target = Wire(gate: nat, input: nat) | VirtualTarget(index: nat)

  /** An element of the degree-D extension field: its D coordinate targets, in
      basis order. Its length is D wherever it is used. */
  type ExtensionTarget = seq<Target>

  /** Every element of `v` is an extension target of degree `d`. */
  predicate AllOfDegree(v: seq<ExtensionTarget>, d: nat)
  {
    forall i :: 0 <= i < |v| ==> |v[i]| == d
  }

  /** The degree-`d` extension target whose every coordinate is `t`. */
  function Uniform(d: nat, t: Target): (x: ExtensionTarget)
    ensures |x| == d
    ensures forall c :: 0 <= c < d ==> x[c] == t
  {
    seq(d, _ => t)
  }
}
