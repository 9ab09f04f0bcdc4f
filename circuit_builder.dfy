/**
 * The part of the circuit builder the random-access gadget uses: an
 * append-only list of gate instances, an append-only list of copy constraints
 * ("connections"), and the cached zero constant.
 */
module Builder {
  import opened Targets
  import opened Gates

  datatype Option<T> = None | Some(value: T)

  /** The kind of a gate instance: a random-access gate, or any other gate
      that other code added to the circuit. */
  datatype GateKind = RandomAccessKind(gate: RandomAccessGate) | OtherKind(name: string)

  /** One gate of the circuit with its constant values. */
  datatype GateInstance = GateInstance(kind: GateKind, constants: seq<int>)

  /** A copy constraint: the two targets must carry the same value. */
  type Connection = (Target, Target)

  /** The connections `connect_extension(x, y)` issues: coordinate `c` of `x`
      with coordinate `c` of `y`, for every coordinate in order. */
  function CoordinatePairs(x: ExtensionTarget, y: ExtensionTarget): (r: seq<Connection>)
    requires |x| == |y|
    ensures |r| == |x|
    ensures forall c :: 0 <= c < |r| ==> r[c].0 == x[c] && r[c].1 == y[c]
  {
    seq(|x|, c requires 0 <= c < |x| => (x[c], y[c]))
  }

  class CircuitBuilder {
    /** The extension degree D of the circuit's extension field. */
    const degree: nat
    /** The gate instances added so far, in order; a gate's index is its position. */
    var gates: seq<GateInstance>
    /** The copy constraints added so far, in order. */
    var connections: seq<Connection>
    /** How many virtual targets have been handed out. */
    var virtualTargets: nat
    /** The target standing for the constant zero, once one exists. */
    var zeroConstant: Option<Target>

    constructor (degree: nat)
      ensures this.degree == degree
      ensures gates == [] && connections == []
      ensures virtualTargets == 0 && zeroConstant == None
    {
      this.degree := degree;
      gates := [];
      connections := [];
      virtualTargets := 0;
      zeroConstant := None;
    }

    /** `add_gate`: appends a gate instance and returns its index. */
    method AddGate(kind: GateKind, constants: seq<int>) returns (index: nat)
      modifies this
      ensures index == |old(gates)|
      ensures gates == old(gates) + [GateInstance(kind, constants)]
      ensures connections == old(connections)
      ensures virtualTargets == old(virtualTargets) && zeroConstant == old(zeroConstant)
    {
      index := |gates|;
      gates := gates + [GateInstance(kind, constants)];
    }

    /** `connect`: records that `x` and `y` must be equal. */
    method Connect(x: Target, y: Target)
      modifies this
      ensures connections == old(connections) + [(x, y)]
      ensures gates == old(gates)
      ensures virtualTargets == old(virtualTargets) && zeroConstant == old(zeroConstant)
    {
      connections := connections + [(x, y)];
    }

    /** `connect_extension`: connects two extension targets coordinate by coordinate. */
    method ConnectExtension(x: ExtensionTarget, y: ExtensionTarget)
      requires |x| == degree && |y| == degree
      modifies this
      ensures connections == old(connections) + CoordinatePairs(x, y)
      ensures gates == old(gates)
      ensures virtualTargets == old(virtualTargets) && zeroConstant == old(zeroConstant)
    {
      for c := 0 to degree
        invariant connections == old(connections) + CoordinatePairs(x[..c], y[..c])
        invariant gates == old(gates)
        invariant virtualTargets == old(virtualTargets) && zeroConstant == old(zeroConstant)
      {
        Connect(x[c], y[c]);
        assert CoordinatePairs(x[..c + 1], y[..c + 1]) == CoordinatePairs(x[..c], y[..c]) + [(x[c], y[c])];
      }
      assert x[..degree] == x && y[..degree] == y;
    }

    /** The target the next request for the constant zero yields. */
    function ZeroTarget(): Target
      reads this
    {
      match zeroConstant
      case Some(t) => t
      case None => VirtualTarget(virtualTargets)
    }

    /** `zero`: the constant zero, allocated as a new virtual target the
        first time and reused afterwards. */
    method Zero() returns (t: Target)
      modifies this
      ensures t == old(ZeroTarget())
      ensures zeroConstant == Some(t)
      ensures virtualTargets == old(virtualTargets) + (if old(zeroConstant).None? then 1 else 0)
      ensures gates == old(gates) && connections == old(connections)
    {
      match zeroConstant
      case Some(z) =>
        t := z;
      case None =>
        t := VirtualTarget(virtualTargets);
        virtualTargets := virtualTargets + 1;
        zeroConstant := Some(t);
    }

    /** `zero_extension`: the extension zero, each of whose coordinates is the
        constant zero. Adds no gate and no connection. */
    method ZeroExtension() returns (z: ExtensionTarget)
      modifies this
      ensures z == Uniform(degree, old(ZeroTarget()))
      ensures degree == 0 ==> zeroConstant == old(zeroConstant) && virtualTargets == old(virtualTargets)
      ensures degree > 0 ==> zeroConstant == Some(old(ZeroTarget()))
      ensures degree > 0 ==>
        virtualTargets == old(virtualTargets) + (if old(zeroConstant).None? then 1 else 0)
      ensures gates == old(gates) && connections == old(connections)
    {
      z := [];
      for c := 0 to degree
        invariant z == Uniform(c, old(ZeroTarget()))
        invariant c == 0 ==> zeroConstant == old(zeroConstant) && virtualTargets == old(virtualTargets)
        invariant c > 0 ==> zeroConstant == Some(old(ZeroTarget()))
        invariant c > 0 ==>
          virtualTargets == old(virtualTargets) + (if old(zeroConstant).None? then 1 else 0)
        invariant gates == old(gates) && connections == old(connections)
      {
        var t := Zero();
        z := z + [t];
      }
    }
  }
}
