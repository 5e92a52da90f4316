/**
 * The board: which group owns each occupied point, and stone placement with
 * merging and capture. Groups live in an arena keyed by id (`strings`); every
 * point of a group maps to the same id in `grid`, which plays the part of the
 * source's single group object shared by all its points.
 */
module Boards {
  import opened Wrappers
  import opened GoTypes
  import opened GoStrings
  import opened BoardModel
  import opened PlaceModel

  /** What the scan of a new stone's neighbours collects: the distinct
    * same-colour and opposite-colour neighbour groups, and the empty
    * neighbours. */
  datatype PointInfo = PointInfo(sameColor: seq<nat>, oppositeColor: seq<nat>, liberties: seq<Point>)

  function Elems(s: seq<nat>): set<nat>
  {
    set x | x in s
  }

  /** Adds a group to an adjacency list unless it is already listed, so the
    * list never holds a group twice. */
  function AppendNeighbor(id: nat, ids: seq<nat>): (r: seq<nat>)
    ensures forall x :: x in r <==> x in ids || x == id
    ensures NoDuplicates(ids) ==> NoDuplicates(r)
    ensures |r| <= |ids| + 1
  {
    if id in ids then ids else ids + [id]
  }

  class Board {
    const numRows: int
    const numCols: int
    /** Owner id of every occupied point; an empty point has no entry. */
    var grid: Grid
    /** The live groups, by id. */
    var strings: Arena
    /** An id no live group has. */
    var nextId: nat

    ghost predicate Valid()
      reads this
    {
      WellFormed(numRows, numCols, grid, strings, nextId)
    }

    /** An empty board. */
    constructor (numRows: int, numCols: int)
      ensures this.numRows == numRows && this.numCols == numCols
      ensures grid == map[] && strings == map[]
      ensures Valid()
    {
      this.numRows := numRows;
      this.numCols := numCols;
      grid := map[];
      strings := map[];
      nextId := 0;
    }

    /** A deep copy: a fresh board with the same contents. */
    constructor CopyOf(other: Board)
      ensures numRows == other.numRows && numCols == other.numCols
      ensures grid == other.grid && strings == other.strings && nextId == other.nextId
    {
      numRows := other.numRows;
      numCols := other.numCols;
      grid := other.grid;
      strings := other.strings;
      nextId := other.nextId;
    }

    /** Whether `p` lies on the board. */
    predicate IsPointOnGrid(p: Point)
    {
      OnGrid(numRows, numCols, p)
    }

    /** A point is on the board exactly for rows 1 to `numRows` and columns
      * 1 to `numCols`, so a board with no rows or no columns has no points. */
    lemma IsPointOnGridMeans(p: Point)
      ensures IsPointOnGrid(p) <==> 1 <= p.row <= numRows && 1 <= p.col <= numCols
      ensures IsPointOnGrid(p) ==> numRows >= 1 && numCols >= 1
    {
    }

    /** The colour on every occupied point. */
    function Colors(): map<Point, Player>
      reads this
    {
      ColorsOf(grid, strings)
    }

    /** The group on `p`, or none for an empty or off-board point. On a valid
      * board that group lists `p` among its stones and its liberties are the
      * empty on-grid points around it. */
    function GetGoStringOnPoint(p: Point): (r: Option<GoString>)
      reads this
      ensures r.Some? <==> p in Colors()
      ensures r.Some? ==> r.value.color == Colors()[p]
      ensures r.Some? ==> p in grid && r.value == strings[grid[p]]
      ensures Valid() && r.Some? ==>
                p in r.value.stones && r.value.liberties == LibertiesOf(numRows, numCols, grid.Keys, r.value.stones)
      ensures Valid() && r.Some? ==> forall q :: q in r.value.stones <==> q in grid && grid[q] == grid[p]
    {
      if p in grid && grid[p] in strings then Some(strings[grid[p]]) else None
    }

    /** The colour of the stone on `p`, or none for an empty or off-board point. */
    function GetColorOnPoint(p: Point): (r: Option<Player>)
      reads this
      ensures r == if p in Colors() then Some(Colors()[p]) else None
    {
      match GetGoStringOnPoint(p)
      case None => None
      case Some(s) => Some(s.color)
    }

    /** One neighbour's contribution to the scan: an empty point is a
      * liberty, an occupied one files its group as same- or opposite-colour. */
    function UpdatePointInfo(player: Player, neighbor: Point, info: PointInfo): (r: PointInfo)
      reads this
      ensures neighbor !in Colors() ==>
                r.liberties == info.liberties + [neighbor] &&
                r.sameColor == info.sameColor && r.oppositeColor == info.oppositeColor
      ensures neighbor in Colors() && Colors()[neighbor] == player ==>
                r.liberties == info.liberties && r.oppositeColor == info.oppositeColor &&
                Elems(r.sameColor) == Elems(info.sameColor) + {grid[neighbor]}
      ensures neighbor in Colors() && Colors()[neighbor] != player ==>
                r.liberties == info.liberties && r.sameColor == info.sameColor &&
                Elems(r.oppositeColor) == Elems(info.oppositeColor) + {grid[neighbor]}
      ensures NoDuplicates(info.sameColor) ==> NoDuplicates(r.sameColor)
      ensures NoDuplicates(info.oppositeColor) ==> NoDuplicates(r.oppositeColor)
    {
      if neighbor !in grid || grid[neighbor] !in strings then
        info.(liberties := info.liberties + [neighbor])
      else if strings[grid[neighbor]].color == player then
        info.(sameColor := AppendNeighbor(grid[neighbor], info.sameColor))
      else
        info.(oppositeColor := AppendNeighbor(grid[neighbor], info.oppositeColor))
    }

    /** Scans the on-grid neighbours of `point`. */
    method CollectPointInfo(player: Player, point: Point) returns (info: PointInfo)
      requires GridOwned(numRows, numCols, grid, strings)
      ensures (set n | n in info.liberties) == LibertiesOf(numRows, numCols, grid.Keys, {point})
      ensures Elems(info.sameColor) == AdjacentIds(numRows, numCols, grid, strings, player, point, true)
      ensures Elems(info.oppositeColor) == AdjacentIds(numRows, numCols, grid, strings, player, point, false)
      ensures NoDuplicates(info.sameColor) && NoDuplicates(info.oppositeColor)
    {
      info := PointInfo([], [], []);
      var ns := Neighbors(point);
      for i := 0 to 4
        invariant forall n :: n in info.liberties <==> n in ns[..i] && IsPointOnGrid(n) && n !in grid
        invariant Elems(info.sameColor) == IdsAmong(numRows, numCols, grid, strings, player, ns[..i], true)
        invariant Elems(info.oppositeColor) == IdsAmong(numRows, numCols, grid, strings, player, ns[..i], false)
        invariant NoDuplicates(info.sameColor) && NoDuplicates(info.oppositeColor)
      {
        assert ns[..i + 1] == ns[..i] + [ns[i]];
        IdsAmongSnoc(numRows, numCols, grid, strings, player, ns[..i], ns[i], true);
        IdsAmongSnoc(numRows, numCols, grid, strings, player, ns[..i], ns[i], false);
        if IsPointOnGrid(ns[i]) {
          info := UpdatePointInfo(player, ns[i], info);
        }
      }
      assert ns[..4] == ns;
      AroundSingle(point);
    }
 
    /** The first loop of the merge: folds the groups `ids` into `newString`
      * with `MergedWith`. The result owns all their stones and has the
      * empty on-grid points around them as liberties. */
    method FoldSameColor(newString: GoString, ids: seq<nat>) returns (merged: GoString)
      requires forall id :: id in Elems(ids) ==>
                 && id in strings && strings[id].color == newString.color
                 && strings[id].liberties == LibertiesOf(numRows, numCols, grid.Keys, strings[id].stones)
      requires newString.liberties == LibertiesOf(numRows, numCols, grid.Keys, newString.stones) - newString.stones
      ensures merged.color == newString.color
      ensures merged.stones == newString.stones + StonesOf(strings, Elems(ids))
      ensures merged.liberties == LibertiesOf(numRows, numCols, grid.Keys, merged.stones) - merged.stones
    {
      merged := newString;
      for j := 0 to |ids|
        invariant merged.color == newString.color
        invariant merged.stones == newString.stones + StonesOf(strings, Elems(ids[..j]))
        invariant merged.liberties == LibertiesOf(numRows, numCols, grid.Keys, merged.stones) - merged.stones
      {
        var id := ids[j];
        assert ids[..j + 1] == ids[..j] + [id];
        StonesOfAdd(strings, Elems(ids[..j]), id);
        MergedWithKeepsLiberties(numRows, numCols, grid.Keys, merged, strings[id]);
        merged := merged.MergedWith(strings[id]);
      }
      assert ids[..|ids|] == ids;
    }

    /** The second loop of the merge: every stone of `stones` now belongs to
      * the group `id`. */
    method AssignOwner(stones: set<Point>, id: nat)
      modifies this
      ensures grid == Assign(old(grid), stones, id)
      ensures strings == old(strings) && nextId == old(nextId)
    {
      ghost var grid0 := grid;
      var todo := stones;
      AssignNone(grid0, id);
      while todo != {}
        invariant todo <= stones
        invariant strings == old(strings) && nextId == old(nextId)
        invariant grid == Assign(grid0, stones - todo, id)
        decreases todo
      {
        var q :| q in todo;
        AssignOneMore(grid0, stones - todo, q, id);
        assert stones - (todo - {q}) == (stones - todo) + {q};
        grid := grid[q := id];
        todo := todo - {q};
      }
    }

    /** Folds the same-colour neighbour groups into the new one-stone group,
      * then hands every stone of the result to a fresh id. The absorbed
      * groups leave the arena. */
    method MergeWithAdjacentSameString(newString: GoString, info: PointInfo, ghost point: Point)
      // the parts of Valid() this step relies on
      requires forall id :: id in Elems(info.sameColor) ==>
                 id in strings && strings[id].liberties == LibertiesOf(numRows, numCols, grid.Keys, strings[id].stones)
      requires StonesOf(strings, Elems(info.sameColor)) <= grid.Keys
      requires point !in grid
      requires newString.stones == {point}
      requires newString.liberties == LibertiesOf(numRows, numCols, grid.Keys, {point})
      requires Elems(info.sameColor) == AdjacentIds(numRows, numCols, grid, strings, newString.color, point, true)
      modifies this
      ensures nextId == old(nextId) + 1
      ensures grid == MergedGrid(numRows, numCols, old(grid), old(strings), old(nextId), newString.color, point)
      ensures strings == MergedArena(numRows, numCols, old(grid), old(strings), old(nextId), newString.color, point)
    {
      assert newString.liberties == LibertiesOf(numRows, numCols, grid.Keys, newString.stones) - newString.stones;
      var merged := FoldSameColor(newString, info.sameColor);
      assert merged.liberties == LibertiesOf(numRows, numCols, grid.Keys + {point}, merged.stones);
      var id := nextId;
      AssignOwner(merged.stones, id);
      strings := (strings - Elems(info.sameColor))[id := merged];
      nextId := nextId + 1;
    }

    /** Strikes `point` from the liberties of each distinct opposite-colour
      * neighbour group. The source's `set.remove` fails on a missing
      * element, hence the requirement that each of them lists `point`. */
    method RemoveLibertyOfOppositeString(point: Point, info: PointInfo)
      requires NoDuplicates(info.oppositeColor)
      requires forall id :: id in Elems(info.oppositeColor) ==> id in strings && point in strings[id].liberties
      modifies this
      ensures grid == old(grid) && nextId == old(nextId)
      ensures strings == LibertyTaken(old(strings), Elems(info.oppositeColor), point)
    {
      var opp := info.oppositeColor;
      for k := 0 to |opp|
        invariant grid == old(grid) && nextId == old(nextId)
        invariant strings == LibertyTaken(old(strings), Elems(opp[..k]), point)
      {
        var id := opp[k];
        assert opp[..k + 1] == opp[..k] + [id];
        assert id !in Elems(opp[..k]);
        strings := strings[id := strings[id].RemoveLiberty(point)];
      }
      assert opp[..|opp|] == opp;
    }

    /** One round of the source's removal loop: every group other than `id`
      * next to `point` gains it as a liberty, then `point` is emptied. */
    method ReleaseStone(point: Point, id: nat)
      requires id in strings
      requires OwnedApartFrom(grid, strings, id)
      modifies this
      ensures grid == old(grid) - {point} && nextId == old(nextId)
      ensures strings == Freeing(old(strings), id, {point})
    {
      var ns := Neighbors(point);
      TouchingNone(strings, id, point);
      for i := 0 to 4
        invariant grid == old(grid) && nextId == old(nextId)
        invariant strings == Touching(old(strings), id, point, ns[..i])
      {
        var n := ns[i];
        assert ns[..i + 1] == ns[..i] + [n];
        if n in grid && grid[n] != id {
          var j := grid[n];
          TouchingSnoc(old(strings), id, point, ns[..i], n, j);
          strings := strings[j := strings[j].AddLiberty(point)];
        } else {
          TouchingSkip(old(strings), id, point, ns[..i], n);
        }
      }
      assert ns[..4] == ns;
      TouchingAll(old(strings), id, point);
      grid := grid - {point};
    }

    /** Takes group `id` off the board: its points become empty and each
      * becomes a liberty of every other group next to it. */
    method RemoveString(id: nat)
      requires id in strings
      requires GridOwned(numRows, numCols, grid, strings) && ArenaOwned(grid, strings, nextId)
      modifies this
      ensures grid == old(grid) - old(strings[id].stones) && nextId == old(nextId)
      ensures strings == CapturedArena(old(strings), {id})
    {
      ghost var grid0, strings0 := grid, strings;
      var stones := strings[id].stones;
      var todo := stones;
      ghost var done: set<Point> := {};
      FreeingNone(strings0, id);
      while todo != {}
        invariant todo <= stones && done == stones - todo
        invariant grid == grid0 - done && nextId == old(nextId)
        invariant strings == Freeing(strings0, id, done)
        decreases todo
      {
        var q :| q in todo;
        ReleaseNext(numRows, numCols, grid0, strings0, nextId, id, done, q);
        ReleaseStone(q, id);
        assert stones - (todo - {q}) == done + {q};
        done := done + {q};
        todo := todo - {q};
      }
      assert done == stones;
      FreeingAllIsCapture(strings0, id);
      strings := strings - {id};
    }

    /** Takes off, in list order, every listed opposite-colour group left
      * without liberties. */
    method RemoveStringWithZeroLiberty(info: PointInfo)
      requires GridOwned(numRows, numCols, grid, strings) && ArenaOwned(grid, strings, nextId)
      requires NoDuplicates(info.oppositeColor)
      requires forall id :: id in info.oppositeColor ==> id in strings
      modifies this
      ensures nextId == old(nextId)
      ensures grid == CaptureAlong(old(grid), old(strings), info.oppositeColor).0
      ensures strings == CaptureAlong(old(grid), old(strings), info.oppositeColor).1
    {
      ghost var grid0, strings0 := grid, strings;
      var opp := info.oppositeColor;
      assert opp[..0] == [];
      for k := 0 to |opp|
        invariant nextId == old(nextId)
        invariant grid == CaptureAlong(grid0, strings0, opp[..k]).0
        invariant strings == CaptureAlong(grid0, strings0, opp[..k]).1
      {
        var id := opp[k];
        assert opp[..k + 1][..k] == opp[..k];
        assert id !in opp[..k];
        CaptureAlongKeeps(grid0, strings0, opp[..k], id);
        CaptureAlongOwned(numRows, numCols, grid0, strings0, nextId, opp[..k]);
        assert GridOwned(numRows, numCols, grid, strings) && ArenaOwned(grid, strings, nextId);
        RemoveIfDead(id);
      }
      assert opp[..|opp|] == opp;
    }

    /** The body of the capture loop: group `id` is taken off when it has no
      * liberty left. */
    method RemoveIfDead(id: nat)
      requires id in strings
      requires GridOwned(numRows, numCols, grid, strings) && ArenaOwned(grid, strings, nextId)
      modifies this
      ensures nextId == old(nextId)
      ensures grid == CaptureStep(old(grid), old(strings), id).0
      ensures strings == CaptureStep(old(grid), old(strings), id).1
    {
      if strings[id].NumLiberties() == 0 {
        RemoveString(id);
      }
    }

    /** Plays a stone of `player` at `point`, which must be an empty point
      * of the board: merges it with its same-colour neighbours, takes
      * `point` from the opposite-colour neighbours' liberties and removes
      * those left with none. */
    method PlaceStone(player: Player, point: Point)
      requires Valid()
      requires IsPointOnGrid(point) && point !in grid
      modifies this
      ensures Valid()
      ensures nextId == old(nextId) + 1
      ensures grid == PlacedGrid(numRows, numCols, old(grid), old(strings), old(nextId), player, point)
      ensures strings == PlacedArena(numRows, numCols, old(grid), old(strings), old(nextId), player, point)
    {
      ghost var grid0, strings0, nextId0 := grid, strings, nextId;
      var info := MergeAndTakeLiberty(player, point);
      CaptureLoopPlaces(numRows, numCols, grid0, strings0, nextId0, player, point, info.oppositeColor);
      TakenReadyForCapture(numRows, numCols, grid0, strings0, nextId0, player, point, info.oppositeColor);
      PlaceKeepsWellFormed(numRows, numCols, grid0, strings0, nextId0, player, point);
      assert GridOwned(numRows, numCols, grid, strings) && ArenaOwned(grid, strings, nextId);
      RemoveStringWithZeroLiberty(info);
      assert grid == PlacedGrid(numRows, numCols, grid0, strings0, nextId0, player, point);
      assert strings == PlacedArena(numRows, numCols, grid0, strings0, nextId0, player, point);
      assert WellFormed(numRows, numCols, grid, strings, nextId);
    }

    /** The first two steps of a placement: the scan of the neighbours, the
      * merge and the liberty update of the opposite-colour neighbours. */
    method MergeAndTakeLiberty(player: Player, point: Point) returns (info: PointInfo)
      requires Valid()
      requires IsPointOnGrid(point) && point !in grid
      modifies this
      ensures nextId == old(nextId) + 1
      ensures grid == MergedGrid(numRows, numCols, old(grid), old(strings), old(nextId), player, point)
      ensures strings == TakenArena(numRows, numCols, old(grid), old(strings), old(nextId), player, point)
      ensures NoDuplicates(info.oppositeColor)
      ensures forall id :: id in info.oppositeColor <==> id in AdjacentIds(numRows, numCols, old(grid), old(strings), player, point, false)
    {
      ghost var grid0, strings0, nextId0 := grid, strings, nextId;
      info := CollectPointInfo(player, point);
      var newString := GoString(player, {point}, set n | n in info.liberties);
      MergedStonesOwner(numRows, numCols, grid, strings, nextId, player, point);
      OppositeNeighbours(numRows, numCols, grid, strings, nextId, player, point);
      MergeWithAdjacentSameString(newString, info, point);
      RemoveLibertyOfOppositeString(point, info);
    }
  }
}
