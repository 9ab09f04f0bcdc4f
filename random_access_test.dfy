/**
 * The scenario of the gadget's test: over one list `v` of extension
 * targets, one `random_access_extension` call per position i, with the
 * index target for i and a claim for element i. Every call adds its own gate,
 * and every one of those gates receives the whole list `v`.
 */
module RandomAccessTest {
  import opened Targets
  import opened Gates
  import opened Builder
  import opened Wiring
  import opened RandomAccessGadget

  /** The connections of the first `calls` calls, call k using gate `g0 + k`. */
  function TestWiring(layout: WireLayout, g0: nat, d: nat, indices: seq<Target>, claims: seq<ExtensionTarget>,
                      v: seq<ExtensionTarget>, calls: nat): (r: seq<Connection>)
    requires calls <= |indices| && calls <= |claims|
    requires AllOfDegree(v, d) && AllOfDegree(claims, d)
    ensures |r| == calls * (d * (|v| + 2))
    decreases calls
  {
    if calls == 0 then []
    else
      TestWiring(layout, g0, d, indices, claims, v, calls - 1)
      + ExtensionWiring(layout, RandomAccessGate(d, |v|), g0 + calls - 1, indices[calls - 1], claims[calls - 1], v, d)
  }

  /** `test_random_access_given_len`, circuit construction only: call k
      passes index `indices[k]` and claim `claims[k]` over the list `v`. */
  method TestRandomAccessGivenLen(b: CircuitBuilder, layout: WireLayout, v: seq<ExtensionTarget>,
                                  indices: seq<Target>, claims: seq<ExtensionTarget>)
    requires |v| >= 2 && |indices| == |v| && |claims| == |v|
    requires AllOfDegree(v, b.degree) && AllOfDegree(claims, b.degree)
    modifies b
    ensures b.gates == old(b.gates) + seq(|v|, _ => AddedGate(b.degree, |v|))
    ensures b.connections == old(b.connections) + TestWiring(layout, |old(b.gates)|, b.degree, indices, claims, v, |v|)
    ensures b.virtualTargets == old(b.virtualTargets) && b.zeroConstant == old(b.zeroConstant)
  {
    ghost var g0 := |b.gates|;
    for i := 0 to |v|
      invariant b.gates == old(b.gates) + seq(i, _ => AddedGate(b.degree, |v|))
      invariant b.connections == old(b.connections) + TestWiring(layout, g0, b.degree, indices, claims, v, i)
      invariant b.virtualTargets == old(b.virtualTargets) && b.zeroConstant == old(b.zeroConstant)
    {
      RandomAccessExtension(b, layout, indices[i], claims[i], v);
      assert seq(i + 1, _ => AddedGate(b.degree, |v|)) == seq(i, _ => AddedGate(b.degree, |v|)) + [AddedGate(b.degree, |v|)];
    }
  }

  /** A connection of call k is among the connections of the first `calls`
      calls, for every k < calls. */
  lemma {:induction false} TestWiringContains(layout: WireLayout, g0: nat, d: nat, indices: seq<Target>,
                                              claims: seq<ExtensionTarget>, v: seq<ExtensionTarget>, calls: nat,
                                              k: nat, p: Connection)
    requires calls <= |indices| && calls <= |claims|
    requires AllOfDegree(v, d) && AllOfDegree(claims, d)
    requires k < calls
    requires p in ExtensionWiring(layout, RandomAccessGate(d, |v|), g0 + k, indices[k], claims[k], v, d)
    ensures p in TestWiring(layout, g0, d, indices, claims, v, calls)
    decreases calls
  {
    var prefix := TestWiring(layout, g0, d, indices, claims, v, calls - 1);
    var last := ExtensionWiring(layout, RandomAccessGate(d, |v|), g0 + (calls - 1), indices[calls - 1],
                                claims[calls - 1], v, d);
    assert TestWiring(layout, g0, d, indices, claims, v, calls) == prefix + last;
    if k < calls - 1 {
      TestWiringContains(layout, g0, d, indices, claims, v, calls - 1, k, p);
      assert p in prefix;
    } else {
      assert p in last;
    }
  }

  /** The gate of call k receives the whole list `v`, in order, in every copy:
      list-item slot (i, c) of gate `g0 + k` is connected to coordinate c of
      element i of `v`. */
  lemma EveryCallSeesWholeList(layout: WireLayout, g0: nat, d: nat, indices: seq<Target>,
                               claims: seq<ExtensionTarget>, v: seq<ExtensionTarget>, k: nat, c: nat, i: nat)
    requires |indices| == |v| && |claims| == |v|
    requires AllOfDegree(v, d) && AllOfDegree(claims, d)
    requires k < |v| && c < d && i < |v|
    ensures (v[i][c], Wire(g0 + k, RandomAccessGate(d, |v|).WireListItem(layout, i, c)))
        in TestWiring(layout, g0, d, indices, claims, v, |v|)
  {
    var gate := RandomAccessGate(d, |v|);
    var r := ExtensionWiring(layout, gate, g0 + k, indices[k], claims[k], v, d);
    ListItemWired(layout, gate, g0 + k, indices[k], claims[k], v, d, c, i);
    var p := r[c * (|v| + 2) + i];
    assert p in r;
    TestWiringContains(layout, g0, d, indices, claims, v, |v|, k, p);
  }

  /** The gate of call k gets index k's target in the access-index slot of
      every copy c. */
  lemma EveryCallGetsItsIndex(layout: WireLayout, g0: nat, d: nat, indices: seq<Target>,
                              claims: seq<ExtensionTarget>, v: seq<ExtensionTarget>, k: nat, c: nat)
    requires |indices| == |v| && |claims| == |v|
    requires AllOfDegree(v, d) && AllOfDegree(claims, d)
    requires k < |v| && c < d
    ensures (indices[k], Wire(g0 + k, RandomAccessGate(d, |v|).WireAccessIndex(layout, c)))
        in TestWiring(layout, g0, d, indices, claims, v, |v|)
  {
    var gate := RandomAccessGate(d, |v|);
    var r := ExtensionWiring(layout, gate, g0 + k, indices[k], claims[k], v, d);
    AccessIndexWired(layout, gate, g0 + k, indices[k], claims[k], v, d, c);
    var p := r[c * (|v| + 2) + |v|];
    assert p in r;
    TestWiringContains(layout, g0, d, indices, claims, v, |v|, k, p);
  }

  /** The gate of call k gets coordinate c of claim k in the claimed slot of
      copy c. */
  lemma EveryCallGetsItsClaim(layout: WireLayout, g0: nat, d: nat, indices: seq<Target>,
                              claims: seq<ExtensionTarget>, v: seq<ExtensionTarget>, k: nat, c: nat)
    requires |indices| == |v| && |claims| == |v|
    requires AllOfDegree(v, d) && AllOfDegree(claims, d)
    requires k < |v| && c < d
    ensures (claims[k][c], Wire(g0 + k, RandomAccessGate(d, |v|).WireClaimedElement(layout, c)))
        in TestWiring(layout, g0, d, indices, claims, v, |v|)
  {
    var gate := RandomAccessGate(d, |v|);
    var r := ExtensionWiring(layout, gate, g0 + k, indices[k], claims[k], v, d);
    ClaimedElementWired(layout, gate, g0 + k, indices[k], claims[k], v, d, c);
    var p := r[c * (|v| + 2) + |v| + 1];
    assert p in r;
    TestWiringContains(layout, g0, d, indices, claims, v, |v|, k, p);
  }
}
