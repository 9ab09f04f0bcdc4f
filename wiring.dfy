/**
 * The connections the random-access gadget issues once it has allocated a
 * gate at index `g`, as functions of the caller's targets, and what they
 * amount to: how many there are, where each one sits, that every new
 * connection joins a caller target to a slot of the new gate, and that one
 * shared index feeds every copy.
 */
module Wiring {
  import opened Targets
  import opened Gates
  import opened Builder

  /** Coordinate `c` of every element of `v`, in list order. */
  function Column(v: seq<ExtensionTarget>, c: nat): seq<Target>
    requires forall i :: 0 <= i < |v| ==> c < |v[i]|
  {
    seq(|v|, i requires 0 <= i < |v| => v[i][c])
  }

  /** Each base target of `v` as a degree-1 extension target. */
  function Lift(v: seq<Target>): seq<ExtensionTarget>
  {
    seq(|v|, i requires 0 <= i < |v| => [v[i]])
  }

  /** The connections from the list items `column` to the list-item slots of
      copy `copy` of gate `g`, by position. */
  function ListWiring(layout: WireLayout, gate: RandomAccessGate, g: nat, column: seq<Target>, copy: nat)
    : (r: seq<Connection>)
    ensures |r| == |column|
    ensures forall i :: 0 <= i < |r| ==> r[i].0 == column[i] && r[i].1 == Wire(g, gate.WireListItem(layout, i, copy))
  {
    seq(|column|, i requires 0 <= i < |column| => (column[i], Wire(g, gate.WireListItem(layout, i, copy))))
  }

  /** The connections of one copy: every list item, then the access index,
      then the claimed coordinate. */
  function CopyWiring(layout: WireLayout, gate: RandomAccessGate, g: nat, accessIndex: Target,
                      claimed: Target, column: seq<Target>, copy: nat): (r: seq<Connection>)
    ensures |r| == |column| + 2
    ensures r[|column|] == (accessIndex, Wire(g, gate.WireAccessIndex(layout, copy)))
    ensures r[|column| + 1] == (claimed, Wire(g, gate.WireClaimedElement(layout, copy)))
  {
    ListWiring(layout, gate, g, column, copy)
    + [(accessIndex, Wire(g, gate.WireAccessIndex(layout, copy))),
       (claimed, Wire(g, gate.WireClaimedElement(layout, copy)))]
  }

  /** The connections of copies 0 .. copies-1, in copy order; copy `c` wires
      coordinate `c` of the list and of the claimed element. */
  function ExtensionWiring(layout: WireLayout, gate: RandomAccessGate, g: nat, accessIndex: Target,
                           claimed: ExtensionTarget, v: seq<ExtensionTarget>, copies: nat): (r: seq<Connection>)
    requires copies <= |claimed|
    requires forall i :: 0 <= i < |v| ==> copies <= |v[i]|
    ensures |r| == copies * (|v| + 2)
    decreases copies
  {
    if copies == 0 then []
    else
      ExtensionWiring(layout, gate, g, accessIndex, claimed, v, copies - 1)
      + CopyWiring(layout, gate, g, accessIndex, claimed[copies - 1], Column(v, copies - 1), copies - 1)
  }

  /** `p` is one of the connections copy `c` makes: a list item's coordinate
      `c` to its slot, the access index to the copy's index slot, or the
      claimed coordinate `c` to the copy's claimed slot. */
  ghost predicate FromCopy(layout: WireLayout, gate: RandomAccessGate, g: nat, accessIndex: Target,
                           claimed: ExtensionTarget, v: seq<ExtensionTarget>, c: nat, p: Connection)
  {
    || (exists i :: 0 <= i < |v| && c < |v[i]| && p == (v[i][c], Wire(g, gate.WireListItem(layout, i, c))))
    || p == (accessIndex, Wire(g, gate.WireAccessIndex(layout, c)))
    || (c < |claimed| && p == (claimed[c], Wire(g, gate.WireClaimedElement(layout, c))))
  }

  /** Position `c * w + k` with `k < w` lies inside the first `copies` blocks of width `w`. */
  lemma {:induction false} BlockBound(c: nat, copies: nat, w: nat, k: nat)
    requires c < copies && k < w
    ensures c * w + k < copies * w
    ensures (c + 1) * w <= copies * w
    decreases copies
  {
    if c + 1 < copies {
      BlockBound(c, copies - 1, w, k);
      assert copies * w == (copies - 1) * w + w;
    } else {
      assert (c + 1) * w == c * w + w;
    }
  }

  /** The extension wiring has `copies * (n + 2)` connections, and entry `k`
      of copy `c`'s block sits at position `c * (n + 2) + k`. */
  lemma {:induction false} ExtensionWiringAt(layout: WireLayout, gate: RandomAccessGate, g: nat, accessIndex: Target,
                                             claimed: ExtensionTarget, v: seq<ExtensionTarget>, copies: nat,
                                             c: nat, k: nat)
    requires copies <= |claimed|
    requires forall i :: 0 <= i < |v| ==> copies <= |v[i]|
    requires c < copies && k < |v| + 2
    ensures |ExtensionWiring(layout, gate, g, accessIndex, claimed, v, copies)| == copies * (|v| + 2)
    ensures c * (|v| + 2) + k < copies * (|v| + 2)
    ensures ExtensionWiring(layout, gate, g, accessIndex, claimed, v, copies)[c * (|v| + 2) + k]
         == CopyWiring(layout, gate, g, accessIndex, claimed[c], Column(v, c), c)[k]
    decreases copies
  {
    var w := |v| + 2;
    var prefix := ExtensionWiring(layout, gate, g, accessIndex, claimed, v, copies - 1);
    var block := CopyWiring(layout, gate, g, accessIndex, claimed[copies - 1], Column(v, copies - 1), copies - 1);
    assert |block| == w;
    BlockBound(c, copies, w, k);
    if copies == 1 {
      assert prefix == [];
    } else {
      ExtensionWiringAt(layout, gate, g, accessIndex, claimed, v, copies - 1, 0, 0);
      assert |prefix| == (copies - 1) * w;
      assert copies * w == (copies - 1) * w + w;
      if c < copies - 1 {
        ExtensionWiringAt(layout, gate, g, accessIndex, claimed, v, copies - 1, c, k);
      }
    }
  }

  /** Coordinate `c` of list item `i` is connected to list-item slot (i, c),
      at position `c * (n + 2) + i`. */
  lemma ListItemWired(layout: WireLayout, gate: RandomAccessGate, g: nat, accessIndex: Target,
                      claimed: ExtensionTarget, v: seq<ExtensionTarget>, d: nat, c: nat, i: nat)
    requires |claimed| == d && AllOfDegree(v, d)
    requires c < d && i < |v|
    ensures c * (|v| + 2) + i < |ExtensionWiring(layout, gate, g, accessIndex, claimed, v, d)|
    ensures ExtensionWiring(layout, gate, g, accessIndex, claimed, v, d)[c * (|v| + 2) + i]
         == (v[i][c], Wire(g, gate.WireListItem(layout, i, c)))
  {
    ExtensionWiringAt(layout, gate, g, accessIndex, claimed, v, d, c, i);
    var block := CopyWiring(layout, gate, g, accessIndex, claimed[c], Column(v, c), c);
    assert block[i] == ListWiring(layout, gate, g, Column(v, c), c)[i];
  }

  /** The one access index is connected to the access-index slot of copy `c`,
      at position `c * (n + 2) + n`. */
  lemma AccessIndexWired(layout: WireLayout, gate: RandomAccessGate, g: nat, accessIndex: Target,
                         claimed: ExtensionTarget, v: seq<ExtensionTarget>, d: nat, c: nat)
    requires |claimed| == d && AllOfDegree(v, d)
    requires c < d
    ensures c * (|v| + 2) + |v| < |ExtensionWiring(layout, gate, g, accessIndex, claimed, v, d)|
    ensures ExtensionWiring(layout, gate, g, accessIndex, claimed, v, d)[c * (|v| + 2) + |v|]
         == (accessIndex, Wire(g, gate.WireAccessIndex(layout, c)))
  {
    ExtensionWiringAt(layout, gate, g, accessIndex, claimed, v, d, c, |v|);
  }

  /** Coordinate `c` of the claimed element is connected to the claimed slot
      of copy `c`, at position `c * (n + 2) + n + 1`. */
  lemma ClaimedElementWired(layout: WireLayout, gate: RandomAccessGate, g: nat, accessIndex: Target,
                            claimed: ExtensionTarget, v: seq<ExtensionTarget>, d: nat, c: nat)
    requires |claimed| == d && AllOfDegree(v, d)
    requires c < d
    ensures c * (|v| + 2) + |v| + 1 < |ExtensionWiring(layout, gate, g, accessIndex, claimed, v, d)|
    ensures ExtensionWiring(layout, gate, g, accessIndex, claimed, v, d)[c * (|v| + 2) + |v| + 1]
         == (claimed[c], Wire(g, gate.WireClaimedElement(layout, c)))
  {
    ExtensionWiringAt(layout, gate, g, accessIndex, claimed, v, d, c, |v| + 1);
  }

  /** Every connection of the extension wiring comes from one of its copies:
      it joins a caller target (a list coordinate, the access index or a
      claimed coordinate) to the matching slot of gate `g`. */
  lemma {:induction false} ExtensionWiringOnly(layout: WireLayout, gate: RandomAccessGate, g: nat, accessIndex: Target,
                                               claimed: ExtensionTarget, v: seq<ExtensionTarget>, copies: nat,
                                               p: Connection)
    requires copies <= |claimed|
    requires forall i :: 0 <= i < |v| ==> copies <= |v[i]|
    requires p in ExtensionWiring(layout, gate, g, accessIndex, claimed, v, copies)
    ensures exists c :: 0 <= c < copies && FromCopy(layout, gate, g, accessIndex, claimed, v, c, p)
    decreases copies
  {
    var prefix := ExtensionWiring(layout, gate, g, accessIndex, claimed, v, copies - 1);
    var c := copies - 1;
    var column := Column(v, c);
    var list := ListWiring(layout, gate, g, column, c);
    if p in prefix {
      ExtensionWiringOnly(layout, gate, g, accessIndex, claimed, v, copies - 1, p);
      var c' :| 0 <= c' < copies - 1 && FromCopy(layout, gate, g, accessIndex, claimed, v, c', p);
      assert 0 <= c' < copies;
    } else if p in list {
      var i :| 0 <= i < |list| && list[i] == p;
      assert p == (v[i][c], Wire(g, gate.WireListItem(layout, i, c)));
      assert FromCopy(layout, gate, g, accessIndex, claimed, v, c, p);
    } else {
      assert FromCopy(layout, gate, g, accessIndex, claimed, v, c, p);
    }
  }

  /** With an injective gate layout, the slot a new connection lands on
      determines its caller target: list-item slot (i, c) only ever meets
      coordinate c of v[i], every access-index slot only meets the one shared
      access index, and claimed slot c only meets coordinate c of the claim. */
  lemma SlotPartners(layout: WireLayout, g: nat, accessIndex: Target, claimed: ExtensionTarget,
                     v: seq<ExtensionTarget>, d: nat, p: Connection)
    requires |claimed| == d && AllOfDegree(v, d)
    requires Injective(layout, RandomAccessGate(d, |v|))
    requires p in ExtensionWiring(layout, RandomAccessGate(d, |v|), g, accessIndex, claimed, v, d)
    ensures p.1.Wire? && p.1.gate == g
    ensures forall i: nat, c: nat ::
      (i < |v| && c < d && p.1.input == RandomAccessGate(d, |v|).WireListItem(layout, i, c)) ==> p.0 == v[i][c]
    ensures forall c: nat ::
      (c < d && p.1.input == RandomAccessGate(d, |v|).WireAccessIndex(layout, c)) ==> p.0 == accessIndex
    ensures forall c: nat ::
      (c < d && p.1.input == RandomAccessGate(d, |v|).WireClaimedElement(layout, c)) ==> p.0 == claimed[c]
  {
    var gate := RandomAccessGate(d, |v|);
    ExtensionWiringOnly(layout, gate, g, accessIndex, claimed, v, d, p);
    var c0 :| 0 <= c0 < d && FromCopy(layout, gate, g, accessIndex, claimed, v, c0, p);
    if exists i :: 0 <= i < |v| && c0 < |v[i]| && p == (v[i][c0], Wire(g, gate.WireListItem(layout, i, c0))) {
      var i0 :| 0 <= i0 < |v| && c0 < |v[i0]| && p == (v[i0][c0], Wire(g, gate.WireListItem(layout, i0, c0)));
      assert p.1.input == gate.WireListItem(layout, i0, c0);
    } else if p == (accessIndex, Wire(g, gate.WireAccessIndex(layout, c0))) {
    } else {
      assert p == (claimed[c0], Wire(g, gate.WireClaimedElement(layout, c0)));
    }
  }

  /** The base-field wiring is the extension wiring of degree 1 over the
      list viewed as degree-1 extension targets. */
  lemma BaseIsDegreeOne(layout: WireLayout, gate: RandomAccessGate, g: nat, accessIndex: Target,
                        claimed: Target, v: seq<Target>)
    ensures CopyWiring(layout, gate, g, accessIndex, claimed, v, 0)
         == ExtensionWiring(layout, gate, g, accessIndex, [claimed], Lift(v), 1)
  {
    assert Column(Lift(v), 0) == v;
  }
}
