/**
 * The external wire contract of the random-access gate: its parameters and
 * the three functions that give the local wire offset of each of its slots.
 * The concrete offset arithmetic belongs to the gate's own implementation and
 * is not part of this model: a `WireLayout` stands for it.
 */
module Gates {

  /** A random-access gate with `numCopies` independent lookups over lists of
      `vecSize` items. */
  datatype RandomAccessGate = RandomAccessGate(numCopies: nat, vecSize: nat)
  {
    /** Wire offset of list item `i` of copy `copy`. */
    function WireListItem(layout: WireLayout, i: nat, copy: nat): (offset: nat)
    {
      layout.listItem(this, i, copy)
    }

    /** Wire offset of the access index of copy `copy`. */
    function WireAccessIndex(layout: WireLayout, copy: nat): (offset: nat)
    {
      layout.accessIndex(this, copy)
    }

    /** Wire offset of the claimed element of copy `copy`. */
    function WireClaimedElement(layout: WireLayout, copy: nat): (offset: nat)
    {
      layout.claimedElement(this, copy)
    }
  }

  /** The gate's wire-offset functions, left uninterpreted. */
  datatype WireLayout = WireLayout(
    listItem: (RandomAccessGate, nat, nat) -> nat,
    accessIndex: (RandomAccessGate, nat) -> nat,
    claimedElement: (RandomAccessGate, nat) -> nat)

  /** No two slots of `gate` share a wire: list items, access indices and
      claimed elements of all copies lie on pairwise distinct offsets. */
  ghost predicate Injective(layout: WireLayout, gate: RandomAccessGate)
  {
    var n, d := gate.vecSize, gate.numCopies;
    && (forall i: nat, c: nat, i': nat, c': nat ::
          i < n && c < d && i' < n && c' < d &&
          gate.WireListItem(layout, i, c) == gate.WireListItem(layout, i', c')
          ==> i == i' && c == c')
    && (forall c: nat, c': nat ::
          c < d && c' < d && gate.WireAccessIndex(layout, c) == gate.WireAccessIndex(layout, c')
          ==> c == c')
    && (forall c: nat, c': nat ::
          c < d && c' < d && gate.WireClaimedElement(layout, c) == gate.WireClaimedElement(layout, c')
          ==> c == c')
    && (forall i: nat, c: nat, c': nat :: i < n && c < d && c' < d ==>
          gate.WireListItem(layout, i, c) != gate.WireAccessIndex(layout, c') &&
          gate.WireListItem(layout, i, c) != gate.WireClaimedElement(layout, c'))
    && (forall c: nat, c': nat :: c < d && c' < d ==>
          gate.WireAccessIndex(layout, c) != gate.WireClaimedElement(layout, c'))
  }
}
