/**
 * The random-access gadget: the three entry points of the circuit builder
 * that constrain a claimed element to equal the element of a list at a
 * witness-supplied index, by wiring the list, the index and the claim into
 * one random-access gate. The index is deliberately not range-checked.
 */
module RandomAccessGadget {
  import opened Targets
  import opened Gates
  import opened Builder
  import opened Wiring

  /** The list length `random_access_padded` resizes short lists to. */
  const PaddedLength: nat := 8

  /** The gate instance the gadget adds: a random-access gate with `copies`
      copies over lists of `n` items, and no constants. */
  function AddedGate(copies: nat, n: nat): (r: GateInstance)
    ensures r.kind.RandomAccessKind? && r.kind.gate.numCopies == copies && r.kind.gate.vecSize == n
    ensures r.constants == []
  {
    GateInstance(RandomAccessKind(RandomAccessGate(copies, n)), [])
  }

  /** `Vec::resize(newLen, value)`: truncate to `newLen`, or extend with copies
      of `value` up to `newLen`. */
  function Resize<T>(v: seq<T>, newLen: nat, value: T): (r: seq<T>)
    ensures |r| == newLen
    ensures forall i :: 0 <= i < newLen && i < |v| ==> r[i] == v[i]
    ensures forall i :: |v| <= i < newLen ==> r[i] == value
  {
    if newLen <= |v| then v[..newLen] else v + seq(newLen - |v|, _ => value)
  }

  /** The list `random_access_padded` hands on, as the code computes it: a
      list shorter than `minLength` is resized to 8 entries, whatever
      `minLength` is; any other list is passed on unchanged. */
  function PaddedList(v: seq<ExtensionTarget>, minLength: nat, zero: ExtensionTarget): (r: seq<ExtensionTarget>)
    ensures |v| >= minLength ==> r == v
    ensures |v| < minLength ==> |r| == PaddedLength
    ensures |v| < minLength && |v| <= PaddedLength ==>
      r[..|v|] == v && forall j :: |v| <= j < PaddedLength ==> r[j] == zero
    ensures |v| < minLength && PaddedLength < |v| ==> r == v[..PaddedLength]
  {
    if |v| < minLength then Resize(v, PaddedLength, zero) else v
  }

  /** The padding the documentation describes: a list shorter than
      `minLength` is extended with `zero` to exactly `minLength` entries. */
  function MinLengthPaddedList(v: seq<ExtensionTarget>, minLength: nat, zero: ExtensionTarget)
    : (r: seq<ExtensionTarget>)
    ensures |r| == if |v| < minLength then minLength else |v|
    ensures r[..|v|] == v
    ensures forall j :: |v| <= j < |r| ==> r[j] == zero
  {
    if |v| < minLength then Resize(v, minLength, zero) else v
  }

  /** `random_access`: constrains `claimedElement` to equal `v[accessIndex]`
      over base-field targets. A one-element list is connected directly to
      the claim; otherwise one `RandomAccessGate(1, |v|)` is added and the
      list items, the index and the claim are wired into copy 0. */
  method RandomAccess(b: CircuitBuilder, layout: WireLayout, accessIndex: Target, claimedElement: Target,
                      v: seq<Target>)
    requires |v| > 0
    modifies b
    ensures b.virtualTargets == old(b.virtualTargets) && b.zeroConstant == old(b.zeroConstant)
    ensures |v| == 1 ==>
      b.gates == old(b.gates) && b.connections == old(b.connections) + [(claimedElement, v[0])]
    ensures |v| >= 2 ==>
      b.gates == old(b.gates) + [AddedGate(1, |v|)] &&
      b.connections == old(b.connections)
        + CopyWiring(layout, RandomAccessGate(1, |v|), |old(b.gates)|, accessIndex, claimedElement, v, 0)
  {
    if |v| == 1 {
      b.Connect(claimedElement, v[0]);
      return;
    }
    var gate := RandomAccessGate(1, |v|);
    var gateIndex := b.AddGate(RandomAccessKind(gate), []);
    var copy := 0;
    for i := 0 to |v|
      invariant b.gates == old(b.gates) + [AddedGate(gate.numCopies, gate.vecSize)]
      invariant b.connections == old(b.connections) + ListWiring(layout, gate, gateIndex, v[..i], copy)
      invariant b.virtualTargets == old(b.virtualTargets) && b.zeroConstant == old(b.zeroConstant)
    {
      b.Connect(v[i], Wire(gateIndex, gate.WireListItem(layout, i, copy)));
      assert ListWiring(layout, gate, gateIndex, v[..i + 1], copy)
          == ListWiring(layout, gate, gateIndex, v[..i], copy)
             + [(v[i], Wire(gateIndex, gate.WireListItem(layout, i, copy)))];
    }
    assert v[..|v|] == v;
    b.Connect(accessIndex, Wire(gateIndex, gate.WireAccessIndex(layout, copy)));
    b.Connect(claimedElement, Wire(gateIndex, gate.WireClaimedElement(layout, copy)));
  }

  /** `random_access_extension`: the same over degree-D extension targets.
      A one-element list is connected coordinate by coordinate; otherwise one
      `RandomAccessGate(D, |v|)` is added and, for each copy c, coordinate c
      of every list item, the one shared index and coordinate c of the claim
      are wired into copy c. */
  method RandomAccessExtension(b: CircuitBuilder, layout: WireLayout, accessIndex: Target,
                               claimedElement: ExtensionTarget, v: seq<ExtensionTarget>)
    requires |v| > 0
    requires |claimedElement| == b.degree && AllOfDegree(v, b.degree)
    modifies b
    ensures b.virtualTargets == old(b.virtualTargets) && b.zeroConstant == old(b.zeroConstant)
    ensures |v| == 1 ==>
      b.gates == old(b.gates) && b.connections == old(b.connections) + CoordinatePairs(claimedElement, v[0])
    ensures |v| >= 2 ==>
      b.gates == old(b.gates) + [AddedGate(b.degree, |v|)] &&
      b.connections == old(b.connections)
        + ExtensionWiring(layout, RandomAccessGate(b.degree, |v|), |old(b.gates)|, accessIndex,
                          claimedElement, v, b.degree)
  {
    if |v| == 1 {
      b.ConnectExtension(claimedElement, v[0]);
      return;
    }
    var gate := RandomAccessGate(b.degree, |v|);
    var gateIndex := b.AddGate(RandomAccessKind(gate), []);
    for copy := 0 to b.degree
      invariant b.gates == old(b.gates) + [AddedGate(gate.numCopies, gate.vecSize)]
      invariant b.connections == old(b.connections)
        + ExtensionWiring(layout, gate, gateIndex, accessIndex, claimedElement, v, copy)
      invariant b.virtualTargets == old(b.virtualTargets) && b.zeroConstant == old(b.zeroConstant)
    {
      ghost var before := b.connections;
      ghost var column := Column(v, copy);
      for i := 0 to |v|
        invariant b.gates == old(b.gates) + [AddedGate(gate.numCopies, gate.vecSize)]
        invariant b.connections == before + ListWiring(layout, gate, gateIndex, column[..i], copy)
        invariant b.virtualTargets == old(b.virtualTargets) && b.zeroConstant == old(b.zeroConstant)
      {
        b.Connect(v[i][copy], Wire(gateIndex, gate.WireListItem(layout, i, copy)));
        assert ListWiring(layout, gate, gateIndex, column[..i + 1], copy)
            == ListWiring(layout, gate, gateIndex, column[..i], copy)
               + [(v[i][copy], Wire(gateIndex, gate.WireListItem(layout, i, copy)))];
      }
      assert column[..|v|] == column;
      b.Connect(accessIndex, Wire(gateIndex, gate.WireAccessIndex(layout, copy)));
      b.Connect(claimedElement[copy], Wire(gateIndex, gate.WireClaimedElement(layout, copy)));
    }
  }

  /** `random_access_padded`, as written: a one-element list is connected
      directly and no zero is requested; otherwise the extension zero is
      requested, a list shorter than `minLength` is resized to 8 entries with
      it, and the result goes to `random_access_extension`. */
  method RandomAccessPadded(b: CircuitBuilder, layout: WireLayout, accessIndex: Target,
                            claimedElement: ExtensionTarget, v: seq<ExtensionTarget>, minLength: nat)
    requires |v| > 0
    requires |claimedElement| == b.degree && AllOfDegree(v, b.degree)
    modifies b
    ensures |v| == 1 ==>
      b.gates == old(b.gates) && b.connections == old(b.connections) + CoordinatePairs(claimedElement, v[0]) &&
      b.virtualTargets == old(b.virtualTargets) && b.zeroConstant == old(b.zeroConstant)
    ensures |v| >= 2 ==>
      var padded := PaddedList(v, minLength, Uniform(b.degree, old(b.ZeroTarget())));
      b.gates == old(b.gates) + [AddedGate(b.degree, |padded|)] &&
      b.connections == old(b.connections)
        + ExtensionWiring(layout, RandomAccessGate(b.degree, |padded|), |old(b.gates)|, accessIndex,
                          claimedElement, padded, b.degree)
    ensures |v| >= 2 && b.degree > 0 ==> b.zeroConstant == Some(old(b.ZeroTarget()))
    ensures |v| >= 2 && b.degree == 0 ==> b.zeroConstant == old(b.zeroConstant)
    ensures |v| >= 2 ==>
      b.virtualTargets == old(b.virtualTargets) + (if b.degree > 0 && old(b.zeroConstant).None? then 1 else 0)
  {
    if |v| == 1 {
      b.ConnectExtension(claimedElement, v[0]);
      return;
    }
    var zero := b.ZeroExtension();
    var padded := v;
    if |v| < minLength {
      padded := Resize(v, PaddedLength, zero);
    }
    RandomAccessExtension(b, layout, accessIndex, claimedElement, padded);
  }

  /** The padded entry point with the padding the documentation describes:
      as `RandomAccessPadded`, but a list shorter than `minLength` is
      extended to exactly `minLength` entries. */
  method RandomAccessPaddedToMinLength(b: CircuitBuilder, layout: WireLayout, accessIndex: Target,
                                       claimedElement: ExtensionTarget, v: seq<ExtensionTarget>,
                                       minLength: nat)
    requires |v| > 0
    requires |claimedElement| == b.degree && AllOfDegree(v, b.degree)
    modifies b
    ensures |v| == 1 ==>
      b.gates == old(b.gates) && b.connections == old(b.connections) + CoordinatePairs(claimedElement, v[0]) &&
      b.virtualTargets == old(b.virtualTargets) && b.zeroConstant == old(b.zeroConstant)
    ensures |v| >= 2 ==>
      var padded := MinLengthPaddedList(v, minLength, Uniform(b.degree, old(b.ZeroTarget())));
      b.gates == old(b.gates) + [AddedGate(b.degree, |padded|)] &&
      b.connections == old(b.connections)
        + ExtensionWiring(layout, RandomAccessGate(b.degree, |padded|), |old(b.gates)|, accessIndex,
                          claimedElement, padded, b.degree)
    ensures |v| >= 2 && b.degree > 0 ==> b.zeroConstant == Some(old(b.ZeroTarget()))
    ensures |v| >= 2 && b.degree == 0 ==> b.zeroConstant == old(b.zeroConstant)
    ensures |v| >= 2 ==>
      b.virtualTargets == old(b.virtualTargets) + (if b.degree > 0 && old(b.zeroConstant).None? then 1 else 0)
  {
    if |v| == 1 {
      b.ConnectExtension(claimedElement, v[0]);
      return;
    }
    var zero := b.ZeroExtension();
    var padded := MinLengthPaddedList(v, minLength, zero);
    RandomAccessExtension(b, layout, accessIndex, claimedElement, padded);
  }

  /** Over base-field targets (gate (1, n)): n + 2 connections, list item i
      to slot (i, 0), then the index, then the claim; with an injective
      layout, each slot of the new gate meets exactly the caller target the
      source connects to it. */
  lemma BaseWiring(layout: WireLayout, g: nat, accessIndex: Target, claimedElement: Target, v: seq<Target>)
    ensures var r := CopyWiring(layout, RandomAccessGate(1, |v|), g, accessIndex, claimedElement, v, 0);
      && |r| == |v| + 2
      && (forall i :: 0 <= i < |v| ==> r[i] == (v[i], Wire(g, RandomAccessGate(1, |v|).WireListItem(layout, i, 0))))
      && r[|v|] == (accessIndex, Wire(g, RandomAccessGate(1, |v|).WireAccessIndex(layout, 0)))
      && r[|v| + 1] == (claimedElement, Wire(g, RandomAccessGate(1, |v|).WireClaimedElement(layout, 0)))
    ensures Injective(layout, RandomAccessGate(1, |v|)) ==>
      forall p :: p in CopyWiring(layout, RandomAccessGate(1, |v|), g, accessIndex, claimedElement, v, 0) ==>
        && p.1.Wire? && p.1.gate == g
        && (forall i: nat :: (i < |v| && p.1.input == RandomAccessGate(1, |v|).WireListItem(layout, i, 0)) ==> p.0 == v[i])
        && (p.1.input == RandomAccessGate(1, |v|).WireAccessIndex(layout, 0) ==> p.0 == accessIndex)
        && (p.1.input == RandomAccessGate(1, |v|).WireClaimedElement(layout, 0) ==> p.0 == claimedElement)
  {
    var gate := RandomAccessGate(1, |v|);
    var r := CopyWiring(layout, gate, g, accessIndex, claimedElement, v, 0);
    assert |ListWiring(layout, gate, g, v, 0)| == |v|;
    if Injective(layout, gate) {
      BaseIsDegreeOne(layout, gate, g, accessIndex, claimedElement, v);
      assert |Lift(v)| == |v|;
      assert AllOfDegree(Lift(v), 1);
      forall p | p in r
        ensures && p.1.Wire? && p.1.gate == g
          && (forall i: nat :: (i < |v| && p.1.input == gate.WireListItem(layout, i, 0)) ==> p.0 == v[i])
          && (p.1.input == gate.WireAccessIndex(layout, 0) ==> p.0 == accessIndex)
          && (p.1.input == gate.WireClaimedElement(layout, 0) ==> p.0 == claimedElement)
      {
        SlotPartners(layout, g, accessIndex, [claimedElement], Lift(v), 1, p);
        forall i: nat | i < |v| ensures Lift(v)[i][0] == v[i] { }
      }
    }
  }

  /** All connections the gate path adds join a target the caller supplied (a
      list coordinate, the index or a claimed coordinate) to a wire of the new
      gate `g`: no other gate and no other target is touched. */
  lemma ConnectsCallerTargetsToNewGate(layout: WireLayout, g: nat, accessIndex: Target,
                                        claimedElement: ExtensionTarget, v: seq<ExtensionTarget>, d: nat)
    requires |claimedElement| == d && AllOfDegree(v, d)
    ensures forall p :: p in ExtensionWiring(layout, RandomAccessGate(d, |v|), g, accessIndex, claimedElement, v, d) ==>
      && p.1.Wire? && p.1.gate == g
      && (p.0 == accessIndex || p.0 in claimedElement || exists i :: 0 <= i < |v| && p.0 in v[i])
  {
    var gate := RandomAccessGate(d, |v|);
    forall p | p in ExtensionWiring(layout, gate, g, accessIndex, claimedElement, v, d)
      ensures && p.1.Wire? && p.1.gate == g
        && (p.0 == accessIndex || p.0 in claimedElement || exists i :: 0 <= i < |v| && p.0 in v[i])
    {
      ExtensionWiringOnly(layout, gate, g, accessIndex, claimedElement, v, d, p);
      var c :| 0 <= c < d && FromCopy(layout, gate, g, accessIndex, claimedElement, v, c, p);
      if exists i :: 0 <= i < |v| && c < |v[i]| && p == (v[i][c], Wire(g, gate.WireListItem(layout, i, c))) {
        var i :| 0 <= i < |v| && c < |v[i]| && p == (v[i][c], Wire(g, gate.WireListItem(layout, i, c)));
        assert p.0 in v[i];
      }
    }
  }

  /** On a list of 2 ..= 8 items shorter than `minLength`, the gate that
      `random_access_padded` adds has 8 list items per copy: the first |v|
      carry the original list, the rest the zero target. */
  lemma PaddedGateSeesOriginalList(layout: WireLayout, g: nat, accessIndex: Target, claimedElement: ExtensionTarget,
                                   v: seq<ExtensionTarget>, minLength: nat, zero: Target, d: nat, c: nat, i: nat)
    requires |claimedElement| == d && AllOfDegree(v, d)
    requires 2 <= |v| <= PaddedLength && |v| < minLength
    requires c < d && i < PaddedLength
    ensures var padded := PaddedList(v, minLength, Uniform(d, zero));
      var r := ExtensionWiring(layout, RandomAccessGate(d, PaddedLength), g, accessIndex, claimedElement, padded, d);
      && |padded| == PaddedLength
      && c * (PaddedLength + 2) + i < |r|
      && r[c * (PaddedLength + 2) + i].1 == Wire(g, RandomAccessGate(d, PaddedLength).WireListItem(layout, i, c))
      && r[c * (PaddedLength + 2) + i].0 == if i < |v| then v[i][c] else zero
  {
    var padded := PaddedList(v, minLength, Uniform(d, zero));
    assert AllOfDegree(padded, d);
    ListItemWired(layout, RandomAccessGate(d, PaddedLength), g, accessIndex, claimedElement, padded, d, c, i);
    if i < |v| {
      assert padded[i] == padded[..|v|][i];
    }
  }

  /** The padding as written and the padding to `minLength` agree on every
      list of two or more items exactly when `minLength` is 8 or the list is
      already long enough. */
  lemma PaddingsAgreeIff(v: seq<ExtensionTarget>, minLength: nat, zero: ExtensionTarget)
    requires |v| >= 2
    ensures PaddedList(v, minLength, zero) == MinLengthPaddedList(v, minLength, zero)
        <==> (|v| >= minLength || minLength == PaddedLength)
  {
    if |v| < minLength && minLength == PaddedLength {
      var r, r' := PaddedList(v, minLength, zero), MinLengthPaddedList(v, minLength, zero);
      assert |r| == |r'|;
      forall j | 0 <= j < |r| ensures r[j] == r'[j] {
        if j < |v| {
          assert r'[j] == r'[..|v|][j];
        }
      }
    } else if |v| < minLength {
      assert |PaddedList(v, minLength, zero)| != |MinLengthPaddedList(v, minLength, zero)|;
    }
  }

  /** As written, a list of 9 items with `minLength` 10 is cut to its first 8
      items: its last item never reaches the gate. */
  lemma PaddingDropsNinthItem()
    ensures var v := seq(9, i requires 0 <= i < 9 => [VirtualTarget(i)]);
      var padded := PaddedList(v, 10, [VirtualTarget(9)]);
      |padded| == 8 && v[8] !in padded
  {
    var v := seq(9, i requires 0 <= i < 9 => [VirtualTarget(i)]);
    var padded := PaddedList(v, 10, [VirtualTarget(9)]);
    assert padded == v[..8];
    forall j | 0 <= j < 8 ensures padded[j] != v[8] {
      assert padded[j] == [VirtualTarget(j)];
    }
  }

  /** As written, a list of 2 items with `minLength` 16 is padded to 8 items
      only, short of the requested minimum. */
  lemma PaddingFallsShortOfMinLength()
    ensures var v := [[VirtualTarget(0)], [VirtualTarget(1)]];
      |PaddedList(v, 16, [VirtualTarget(2)])| == 8 < 16
  {
  }
}
