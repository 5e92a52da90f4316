/**
 * Groups of stones ("strings") and the liberty sets they carry.
 */
module GoStrings {
  import opened GoTypes

  /** A group of same-colour stones together with its liberties. */
  datatype GoString = GoString(color: Player, stones: set<Point>, liberties: set<Point>) {

    /** Takes one liberty away; the source's set removal fails when the point
      * is not a liberty, so callers must only remove liberties it has. */
    function RemoveLiberty(p: Point): (s: GoString)
      requires p in liberties
      ensures s.color == color && s.stones == stones
      ensures p !in s.liberties && s.liberties + {p} == liberties
      ensures s.NumLiberties() == NumLiberties() - 1
    {
      GoString(color, stones, liberties - {p})
    }

    /** Gives the group one more liberty; adding one it has changes nothing. */
    function AddLiberty(p: Point): (s: GoString)
      ensures s.color == color && s.stones == stones
      ensures p in s.liberties && s.liberties - {p} == liberties - {p}
      ensures p in liberties ==> s == this
    {
      GoString(color, stones, liberties + {p})
    }

    /** The group made of both groups' stones. A liberty of one part may be a
      * stone of the other, so the combined stones are taken out of the
      * combined liberties. */
    function MergedWith(other: GoString): (s: GoString)
      requires other.color == color
      ensures s.color == color
      ensures s.stones == stones + other.stones
      ensures forall p :: p in s.liberties <==>
                (p in liberties || p in other.liberties) && p !in stones && p !in other.stones
    {
      var combined := stones + other.stones;
      GoString(color, combined, (liberties + other.liberties) - combined)
    }

    /** How many liberties the group has; none exactly when it is out of
      * liberties. */
    function NumLiberties(): (n: nat)
      ensures n == 0 <==> liberties == {}
    {
      |liberties|
    }
  }

  /** A group's liberties never overlap its stones once it has been merged. */
  lemma MergedLibertiesAreNotStones(a: GoString, b: GoString)
    requires a.color == b.color
    ensures a.MergedWith(b).liberties !! a.MergedWith(b).stones
  {
  }

  /** Merging is symmetric. */
  lemma MergedWithCommutes(a: GoString, b: GoString)
    requires a.color == b.color
    ensures a.MergedWith(b) == b.MergedWith(a)
  {
    assert a.stones + b.stones == b.stones + a.stones;
    assert a.liberties + b.liberties == b.liberties + a.liberties;
  }

  /** Every point orthogonally adjacent to some point of `stones`. */
  function Around(stones: set<Point>): set<Point>
  {
    set s, n | s in stones && n in Neighbors(s) :: n
  }

  /** A point is around `stones` exactly when it is adjacent to one of them. */
  lemma AroundMeans(stones: set<Point>)
    ensures forall s, n :: s in stones && Adjacent(s, n) ==> n in Around(stones)
    ensures forall n :: n in Around(stones) ==> exists s :: s in stones && Adjacent(s, n)
  {
    assert forall s, n :: s in stones && Adjacent(s, n) ==> n in Neighbors(s);
  }

  /** The liberties a group with `stones` has on a rows x cols board whose
    * occupied points are `occupied`: the on-grid empty points next to a stone. */
  function LibertiesOf(rows: int, cols: int, occupied: set<Point>, stones: set<Point>): set<Point>
  {
    set n | n in Around(stones) && OnGrid(rows, cols, n) && n !in occupied
  }

  lemma AroundUnion(a: set<Point>, b: set<Point>)
    ensures Around(a + b) == Around(a) + Around(b)
  {
  }

  lemma AroundSingle(p: Point)
    ensures Around({p}) == set n | n in Neighbors(p)
  {
  }

  /** Liberties of a union of stone sets are the union of their liberties. */
  lemma LibertiesOfUnion(rows: int, cols: int, occ: set<Point>, a: set<Point>, b: set<Point>)
    ensures LibertiesOf(rows, cols, occ, a + b) == LibertiesOf(rows, cols, occ, a) + LibertiesOf(rows, cols, occ, b)
  {
    AroundUnion(a, b);
  }

  /** Occupying the on-grid points `freed` takes them away from every liberty set
    * (read backwards: emptying them adds exactly the freed points next to the stones). */
  lemma LibertiesOfFreed(rows: int, cols: int, occ: set<Point>, freed: set<Point>, stones: set<Point>)
    requires freed <= occ
    requires forall q :: q in freed ==> OnGrid(rows, cols, q)
    ensures LibertiesOf(rows, cols, occ - freed, stones) == LibertiesOf(rows, cols, occ, stones) + (freed * Around(stones))
  {
  }

  /** Merging keeps the liberty invariant: if each part's liberties are exactly
    * its empty on-grid surroundings (the first part possibly short of its own
    * stones), so are the merged group's, short of its stones. */
  lemma MergedWithKeepsLiberties(rows: int, cols: int, occ: set<Point>, a: GoString, b: GoString)
    requires a.color == b.color
    requires a.liberties == LibertiesOf(rows, cols, occ, a.stones) - a.stones
    requires b.liberties == LibertiesOf(rows, cols, occ, b.stones)
    ensures a.MergedWith(b).liberties == LibertiesOf(rows, cols, occ, a.stones + b.stones) - (a.stones + b.stones)
  {
    LibertiesOfUnion(rows, cols, occ, a.stones, b.stones);
  }
}
