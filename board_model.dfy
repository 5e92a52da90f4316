/**
 * The board's state as plain values: `grid` maps each occupied point to the
 * id of the group that owns it and `strings` maps live ids to groups. The
 * source shares one group object between all its points; here the points
 * share an id, and updating `strings` at that id is seen from every point.
 * This module states the board invariant and the facts about how each step
 * of a stone placement changes the two maps.
 */
module BoardModel {
  import opened GoTypes
  import opened GoStrings

  type Grid = map<Point, nat>
  type Arena = map<nat, GoString>

  predicate NoDuplicates(s: seq<nat>)
  {
    forall i, j :: 0 <= i < j < |s| ==> s[i] != s[j]
  }

  /** Every occupied point is on the board and owned by a live group that
    * lists it among its stones. */
  ghost predicate GridOwned(rows: int, cols: int, grid: Grid, strings: Arena)
  {
    forall p :: p in grid ==> OnGrid(rows, cols, p) && grid[p] in strings && p in strings[grid[p]].stones
  }

  /** Every live group has an id below `nextId`, at least one stone, and each
    * of its stones is owned by it. */
  ghost predicate ArenaOwned(grid: Grid, strings: Arena, nextId: nat)
  {
    forall id :: id in strings ==>
      && id < nextId
      && strings[id].stones != {}
      && (forall p :: p in strings[id].stones ==> p in grid && grid[p] == id)
  }

  /** The liberty invariant: a group's liberties are exactly the on-grid empty
    * points next to its stones. */
  ghost predicate LibertiesExact(rows: int, cols: int, grid: Grid, strings: Arena)
  {
    forall id :: id in strings ==> strings[id].liberties == LibertiesOf(rows, cols, grid.Keys, strings[id].stones)
  }

  /** Groups are maximal: no stone of a group is next to a stone of another
    * group of the same colour. */
  ghost predicate Separated(strings: Arena)
  {
    forall x, y ::
      x in strings && y in strings && x != y && strings[x].color == strings[y].color
      ==> strings[x].stones * Around(strings[y].stones) == {}
  }

  ghost predicate WellFormed(rows: int, cols: int, grid: Grid, strings: Arena, nextId: nat)
  {
    && GridOwned(rows, cols, grid, strings)
    && ArenaOwned(grid, strings, nextId)
    && LibertiesExact(rows, cols, grid, strings)
    && Separated(strings)
  }

  /** The colour on every occupied point. */
  function ColorsOf(grid: Grid, strings: Arena): map<Point, Player>
  {
    map p | p in grid && grid[p] in strings :: strings[grid[p]].color
  }

  /** On a consistent board every occupied point has a colour. */
  lemma ColorsOfKeys(rows: int, cols: int, grid: Grid, strings: Arena)
    requires GridOwned(rows, cols, grid, strings)
    ensures ColorsOf(grid, strings).Keys == grid.Keys
  {
  }

  /** Ids of the groups of colour `player` (when `same`) or of the other
    * colour (otherwise) owning an on-grid neighbour of `point`. */
  function AdjacentIds(rows: int, cols: int, grid: Grid, strings: Arena, player: Player, point: Point, same: bool): set<nat>
  {
    IdsAmong(rows, cols, grid, strings, player, Neighbors(point), same)
  }

  /** The same, over any list of candidate neighbours. */
  function IdsAmong(rows: int, cols: int, grid: Grid, strings: Arena, player: Player, ns: seq<Point>, same: bool): set<nat>
  {
    set n | n in ns && OnGrid(rows, cols, n) && n in grid && grid[n] in strings &&
            (strings[grid[n]].color == player) == same :: grid[n]
  }

  /** Scanning one more neighbour adds at most its owner. */
  lemma IdsAmongSnoc(rows: int, cols: int, grid: Grid, strings: Arena, player: Player, ns: seq<Point>, n: Point, same: bool)
    ensures IdsAmong(rows, cols, grid, strings, player, ns + [n], same) ==
              IdsAmong(rows, cols, grid, strings, player, ns, same) +
              (if OnGrid(rows, cols, n) && n in grid && grid[n] in strings && (strings[grid[n]].color == player) == same
               then {grid[n]} else {})
  {
  }

  /** All stones of the live groups among `ids`. */
  function StonesOf(strings: Arena, ids: set<nat>): set<Point>
  {
    set id, p | id in ids && id in strings && p in strings[id].stones :: p
  }

  lemma StonesOfAdd(strings: Arena, ids: set<nat>, id: nat)
    requires id in strings
    ensures StonesOf(strings, ids + {id}) == StonesOf(strings, ids) + strings[id].stones
  {
  }

  /** The opposite-colour neighbour groups whose only liberty is `point`:
    * those a stone of `player` at `point` captures. */
  function CapturedIds(rows: int, cols: int, grid: Grid, strings: Arena, player: Player, point: Point): set<nat>
  {
    set id | id in AdjacentIds(rows, cols, grid, strings, player, point, false) && id in strings &&
             strings[id].liberties == {point}
  }

  /** The stones of the group formed by a stone of `player` at `point`. */
  function MergedStones(rows: int, cols: int, grid: Grid, strings: Arena, player: Player, point: Point): set<Point>
  {
    {point} + StonesOf(strings, AdjacentIds(rows, cols, grid, strings, player, point, true))
  }

  /** The occupied points after `player` plays at `point` and captures. */
  function OccupiedAfter(rows: int, cols: int, grid: Grid, strings: Arena, player: Player, point: Point): set<Point>
  {
    (grid.Keys + {point}) - StonesOf(strings, CapturedIds(rows, cols, grid, strings, player, point))
  }

  /** `grid` with every point of `pts` handed to group `id`. */
  function Assign(grid: Grid, pts: set<Point>, id: nat): (g: Grid)
    ensures g.Keys == grid.Keys + pts
  {
    map q | q in grid.Keys + pts :: if q in pts then id else grid[q]
  }

  lemma AssignNone(grid: Grid, id: nat)
    ensures Assign(grid, {}, id) == grid
  {
  }

  lemma AssignOneMore(grid: Grid, pts: set<Point>, q: Point, id: nat)
    ensures Assign(grid, pts + {q}, id) == Assign(grid, pts, id)[q := id]
  {
  }

  /** The liberty invariant everywhere, except that the groups `ids` still
    * list `point` (just occupied) as a liberty. */
  ghost predicate LibertiesExactBut(rows: int, cols: int, grid: Grid, strings: Arena, point: Point, ids: set<nat>)
  {
    forall id :: id in strings ==>
      strings[id].liberties == LibertiesOf(rows, cols, grid.Keys, strings[id].stones) + (if id in ids then {point} else {})
  }

  /** The live groups among `ids` that have no liberty left. */
  function ZeroLibertyIds(strings: Arena, ids: seq<nat>): set<nat>
  {
    set id | id in ids && id in strings && strings[id].liberties == {}
  }

  /** The arena once `point` is struck from the liberties of the groups `ids`. */
  function LibertyTaken(strings: Arena, ids: set<nat>, point: Point): Arena
  {
    map j | j in strings :: if j in ids then strings[j].(liberties := strings[j].liberties - {point}) else strings[j]
  }

  /** The arena once the groups `ids` are taken off the board: they leave,
    * and every freed point becomes a liberty of each other group next to it.
    * The grid loses `StonesOf(strings, ids)`. */
  function CapturedArena(strings: Arena, ids: set<nat>): Arena
  {
    map j | j in strings && j !in ids ::
      strings[j].(liberties := strings[j].liberties + StonesOf(strings, ids) * Around(strings[j].stones))
  }

  /** Half-way through removing group `id`: the points `pts` are freed and
    * have become liberties of the other groups next to them. */
  function Freeing(strings: Arena, id: nat, pts: set<Point>): Arena
  {
    map j | j in strings ::
      if j == id then strings[j] else strings[j].(liberties := strings[j].liberties + pts * Around(strings[j].stones))
  }

  /** Half-way through freeing `point`: the groups other than `id` owning
    * one of the neighbours `ns` have gained `point` as a liberty. */
  function Touching(strings: Arena, id: nat, point: Point, ns: seq<Point>): Arena
  {
    map j | j in strings ::
      if j == id then strings[j]
      else strings[j].(liberties := strings[j].liberties + (set n | n in ns && n in strings[j].stones :: point))
  }

  /** Every occupied point is owned by a group listing it, and every stone of
    * a group other than `id` is owned by that group. */
  ghost predicate OwnedApartFrom(grid: Grid, strings: Arena, id: nat)
  {
    && (forall n :: n in grid ==> grid[n] in strings && n in strings[grid[n]].stones)
    && (forall k, n :: k in strings && k != id && n in strings[k].stones ==> n in grid && grid[n] == k)
  }

  // ---------------------------------------------------------------------
  // Facts about well-formed boards

  /** On a consistent board a point belongs to the stones of `ids` exactly
    * when its owner is one of `ids`. */
  lemma StonesOfOwner(rows: int, cols: int, grid: Grid, strings: Arena, nextId: nat, ids: set<nat>)
    requires GridOwned(rows, cols, grid, strings) && ArenaOwned(grid, strings, nextId)
    ensures forall p :: p in StonesOf(strings, ids) <==> p in grid && grid[p] in ids
  {
    forall p | p in grid && grid[p] in ids
      ensures p in StonesOf(strings, ids)
    {
      assert grid[p] in strings && p in strings[grid[p]].stones;
    }
  }

  /** On a well-formed board, distinct ids hold distinct groups, so removing
    * duplicates by id and by value agree. */
  lemma DistinctIdsDistinctGroups(rows: int, cols: int, grid: Grid, strings: Arena, nextId: nat, x: nat, y: nat)
    requires WellFormed(rows, cols, grid, strings, nextId)
    requires x in strings && y in strings && x != y
    ensures strings[x] != strings[y]
  {
    var p :| p in strings[x].stones;
    assert grid[p] == x;
  }

  // ---------------------------------------------------------------------
  // Step 1: the new stone absorbs its same-colour neighbours

  /** The grid once every stone of the merged group is handed to the new id. */
  function MergedGrid(rows: int, cols: int, grid: Grid, strings: Arena, nextId: nat, player: Player, point: Point): Grid
  {
    Assign(grid, MergedStones(rows, cols, grid, strings, player, point), nextId)
  }

  /** The arena once the absorbed groups are dropped and the merged one is
    * installed under the new id. */
  function MergedArena(rows: int, cols: int, grid: Grid, strings: Arena, nextId: nat, player: Player, point: Point): Arena
  {
    var stones := MergedStones(rows, cols, grid, strings, player, point);
    (strings - AdjacentIds(rows, cols, grid, strings, player, point, true))
      [nextId := GoString(player, stones, LibertiesOf(rows, cols, grid.Keys + {point}, stones))]
  }

  /** The merged group is `point` plus the stones owned by same-colour
    * neighbours; all of it but `point` was already on the board. */
  lemma MergedStonesOwner(rows: int, cols: int, grid: Grid, strings: Arena, nextId: nat, player: Player, point: Point)
    requires GridOwned(rows, cols, grid, strings) && ArenaOwned(grid, strings, nextId)
    requires OnGrid(rows, cols, point) && point !in grid
    ensures forall p :: p in MergedStones(rows, cols, grid, strings, player, point) <==>
              p == point || (p in grid && grid[p] in AdjacentIds(rows, cols, grid, strings, player, point, true))
    ensures MergedGrid(rows, cols, grid, strings, nextId, player, point).Keys == grid.Keys + {point}
    ensures nextId !in strings
  {
    StonesOfOwner(rows, cols, grid, strings, nextId, AdjacentIds(rows, cols, grid, strings, player, point, true));
  }

  /** After the merge every occupied point is still owned by a live group listing it. */
  lemma MergeGridOwned(rows: int, cols: int, grid: Grid, strings: Arena, nextId: nat, player: Player, point: Point)
    requires WellFormed(rows, cols, grid, strings, nextId)
    requires OnGrid(rows, cols, point) && point !in grid
    ensures GridOwned(rows, cols, MergedGrid(rows, cols, grid, strings, nextId, player, point),
                      MergedArena(rows, cols, grid, strings, nextId, player, point))
  {
    var same := AdjacentIds(rows, cols, grid, strings, player, point, true);
    var stones := MergedStones(rows, cols, grid, strings, player, point);
    var grid2 := MergedGrid(rows, cols, grid, strings, nextId, player, point);
    var strings2 := MergedArena(rows, cols, grid, strings, nextId, player, point);
    MergedStonesOwner(rows, cols, grid, strings, nextId, player, point);
    forall p | p in grid2
      ensures OnGrid(rows, cols, p) && grid2[p] in strings2 && p in strings2[grid2[p]].stones
    {
      if p !in stones {
        assert grid2[p] == grid[p] && grid[p] !in same;
      }
    }
  }

  /** After the merge every live group's stones are still owned by it. */
  lemma MergeArenaOwned(rows: int, cols: int, grid: Grid, strings: Arena, nextId: nat, player: Player, point: Point)
    requires WellFormed(rows, cols, grid, strings, nextId)
    requires OnGrid(rows, cols, point) && point !in grid
    ensures ArenaOwned(MergedGrid(rows, cols, grid, strings, nextId, player, point),
                       MergedArena(rows, cols, grid, strings, nextId, player, point), nextId + 1)
  {
    var stones := MergedStones(rows, cols, grid, strings, player, point);
    var grid2 := MergedGrid(rows, cols, grid, strings, nextId, player, point);
    var strings2 := MergedArena(rows, cols, grid, strings, nextId, player, point);
    MergedStonesOwner(rows, cols, grid, strings, nextId, player, point);
    forall id | id in strings2
      ensures id < nextId + 1 && strings2[id].stones != {}
      ensures forall p :: p in strings2[id].stones ==> p in grid2 && grid2[p] == id
    {
      if id != nextId {
        forall p | p in strings2[id].stones
          ensures p in grid2 && grid2[p] == id
        {
          assert grid[p] == id;
        }
      }
    }
  }

  /** After the merge distinct groups of one colour still never touch. */
  lemma MergeSeparated(rows: int, cols: int, grid: Grid, strings: Arena, nextId: nat, player: Player, point: Point)
    requires WellFormed(rows, cols, grid, strings, nextId)
    requires OnGrid(rows, cols, point) && point !in grid
    ensures Separated(MergedArena(rows, cols, grid, strings, nextId, player, point))
  {
    var strings2 := MergedArena(rows, cols, grid, strings, nextId, player, point);
    var stones := MergedStones(rows, cols, grid, strings, player, point);
    MergedStonesOwner(rows, cols, grid, strings, nextId, player, point);
    forall y | y in strings2 && y != nextId && strings2[y].color == player
      ensures stones * Around(strings2[y].stones) == {}
    {
      MergedApart(rows, cols, grid, strings, nextId, player, point, y);
    }
    forall x, y | x in strings2 && y in strings2 && x != y && strings2[x].color == strings2[y].color
      ensures strings2[x].stones * Around(strings2[y].stones) == {}
    {
      if x == nextId {
      } else if y == nextId {
        AroundApartSymmetric(stones, strings2[x].stones);
      } else {
        assert strings2[x] == strings[x] && strings2[y] == strings[y];
      }
    }
  }

  /** Disjointness from the surroundings is symmetric. */
  lemma AroundApartSymmetric(a: set<Point>, b: set<Point>)
    requires a * Around(b) == {}
    ensures b * Around(a) == {}
  {
    AroundMeans(a);
    AroundMeans(b);
    forall q | q in b
      ensures q !in Around(a)
    {
      forall s | s in a
        ensures !Adjacent(s, q)
      {
        assert s !in a * Around(b);
      }
    }
  }

  /** A group of the new stone's colour that the merge did not absorb never
    * touches the merged group. */
  lemma MergedApart(rows: int, cols: int, grid: Grid, strings: Arena, nextId: nat, player: Player, point: Point, y: nat)
    requires WellFormed(rows, cols, grid, strings, nextId)
    requires OnGrid(rows, cols, point) && point !in grid
    requires y in strings && y !in AdjacentIds(rows, cols, grid, strings, player, point, true)
    requires strings[y].color == player
    ensures MergedStones(rows, cols, grid, strings, player, point) * Around(strings[y].stones) == {}
  {
    forall q | q in MergedStones(rows, cols, grid, strings, player, point)
      ensures q !in Around(strings[y].stones)
    {
      MergedApartAt(rows, cols, grid, strings, nextId, player, point, y, q);
    }
  }

  lemma MergedApartAt(rows: int, cols: int, grid: Grid, strings: Arena, nextId: nat, player: Player, point: Point, y: nat, q: Point)
    requires WellFormed(rows, cols, grid, strings, nextId)
    requires OnGrid(rows, cols, point) && point !in grid
    requires y in strings && y !in AdjacentIds(rows, cols, grid, strings, player, point, true)
    requires strings[y].color == player
    requires q in MergedStones(rows, cols, grid, strings, player, point)
    ensures q !in Around(strings[y].stones)
  {
    if q == point {
      TouchingGroupIsAdjacent(rows, cols, grid, strings, nextId, player, point, y);
    } else {
      MergedStonesOwner(rows, cols, grid, strings, nextId, player, point);
      var x := grid[q];
      assert x in strings && strings[x].color == player && x != y;
      assert strings[x].stones * Around(strings[y].stones) == {};
      assert q in strings[x].stones;
    }
  }


  /** After the merge every liberty set is exact, except that the
    * opposite-colour neighbours still list `point`. */
  lemma MergeLiberties(rows: int, cols: int, grid: Grid, strings: Arena, nextId: nat, player: Player, point: Point)
    requires WellFormed(rows, cols, grid, strings, nextId)
    requires OnGrid(rows, cols, point) && point !in grid
    ensures LibertiesExactBut(rows, cols, MergedGrid(rows, cols, grid, strings, nextId, player, point),
                              MergedArena(rows, cols, grid, strings, nextId, player, point),
                              point, AdjacentIds(rows, cols, grid, strings, player, point, false))
  {
    var same := AdjacentIds(rows, cols, grid, strings, player, point, true);
    var opp := AdjacentIds(rows, cols, grid, strings, player, point, false);
    var stones := MergedStones(rows, cols, grid, strings, player, point);
    var grid2 := MergedGrid(rows, cols, grid, strings, nextId, player, point);
    var strings2 := MergedArena(rows, cols, grid, strings, nextId, player, point);
    MergedStonesOwner(rows, cols, grid, strings, nextId, player, point);
    forall id | id in strings2
      ensures strings2[id].liberties == LibertiesOf(rows, cols, grid2.Keys, strings2[id].stones) + (if id in opp then {point} else {})
    {
      if id != nextId {
        OtherGroupLiberties(rows, cols, grid, strings, nextId, player, point, id);
      }
    }
  }

  /** A group untouched by the merge loses `point` from its liberties exactly
    * when it is an opposite-colour neighbour of `point`. */
  lemma OtherGroupLiberties(rows: int, cols: int, grid: Grid, strings: Arena, nextId: nat, player: Player, point: Point, id: nat)
    requires WellFormed(rows, cols, grid, strings, nextId)
    requires OnGrid(rows, cols, point) && point !in grid
    requires id in strings && id !in AdjacentIds(rows, cols, grid, strings, player, point, true)
    ensures strings[id].liberties ==
              LibertiesOf(rows, cols, grid.Keys + {point}, strings[id].stones) +
              (if id in AdjacentIds(rows, cols, grid, strings, player, point, false) then {point} else {})
  {
    var st := strings[id].stones;
    LibertiesOfOccupy(rows, cols, grid.Keys, point, st);
    TouchingGroupIsAdjacent(rows, cols, grid, strings, nextId, player, point, id);
  }

  lemma LibertiesOfOccupy(rows: int, cols: int, occ: set<Point>, point: Point, stones: set<Point>)
    ensures LibertiesOf(rows, cols, occ + {point}, stones) == LibertiesOf(rows, cols, occ, stones) - {point}
  {
  }

  /** An empty on-grid point lies next to a group exactly when that group owns
    * one of the point's neighbours. */
  lemma TouchingGroupIsAdjacent(rows: int, cols: int, grid: Grid, strings: Arena, nextId: nat, player: Player, point: Point, id: nat)
    requires WellFormed(rows, cols, grid, strings, nextId)
    requires OnGrid(rows, cols, point) && point !in grid
    requires id in strings
    ensures point in Around(strings[id].stones) <==>
              id in AdjacentIds(rows, cols, grid, strings, player, point, true) ||
              id in AdjacentIds(rows, cols, grid, strings, player, point, false)
  {
    var st := strings[id].stones;
    AroundMeans(st);
    if point in Around(st) {
      var s :| s in st && Adjacent(s, point);
      assert s in Neighbors(point);
      assert grid[s] == id;
    }
    if id in AdjacentIds(rows, cols, grid, strings, player, point, true) ||
       id in AdjacentIds(rows, cols, grid, strings, player, point, false) {
      var n :| n in Neighbors(point) && n in grid && grid[n] == id;
      assert point in Neighbors(n);
      assert Adjacent(n, point);
    }
  }

  // ---------------------------------------------------------------------
  // Step 2: the opposite-colour neighbours lose `point`

  /** Striking `point` from the groups that still listed it makes every
    * liberty set exact. */
  lemma TakenLibertiesExact(rows: int, cols: int, grid: Grid, strings: Arena, point: Point, ids: set<nat>)
    requires LibertiesExactBut(rows, cols, grid, strings, point, ids)
    requires point in grid
    ensures LibertiesExact(rows, cols, grid, LibertyTaken(strings, ids, point))
  {
  }

  /** Changing liberties only keeps ownership and separation. */
  lemma TakenKeepsShape(rows: int, cols: int, grid: Grid, strings: Arena, nextId: nat, point: Point, ids: set<nat>)
    requires GridOwned(rows, cols, grid, strings) && ArenaOwned(grid, strings, nextId) && Separated(strings)
    ensures var s2 := LibertyTaken(strings, ids, point);
            GridOwned(rows, cols, grid, s2) && ArenaOwned(grid, s2, nextId) && Separated(s2)
  {
    var s2 := LibertyTaken(strings, ids, point);
    assert s2.Keys == strings.Keys;
    forall j | j in s2
      ensures s2[j].stones == strings[j].stones && s2[j].color == strings[j].color
    {
    }
  }

  // ---------------------------------------------------------------------
  // Step 3: groups are taken off the board

  lemma StonesOfSingle(strings: Arena, id: nat)
    requires id in strings
    ensures StonesOf(strings, {id}) == strings[id].stones
  {
    StonesOfAdd(strings, {}, id);
    assert {} + {id} == {id};
  }

  /** Removing whole groups from a well-formed board leaves it well-formed. */
  lemma CaptureKeepsWellFormed(rows: int, cols: int, grid: Grid, strings: Arena, nextId: nat, ids: set<nat>)
    requires WellFormed(rows, cols, grid, strings, nextId)
    ensures WellFormed(rows, cols, grid - StonesOf(strings, ids), CapturedArena(strings, ids), nextId)
  {
    var grid2 := grid - StonesOf(strings, ids);
    var strings2 := CapturedArena(strings, ids);
    var freed := StonesOf(strings, ids);
    CaptureKeepsOwned(rows, cols, grid, strings, nextId, ids);
    StonesOfOwner(rows, cols, grid, strings, nextId, ids);
    forall j | j in strings2
      ensures strings2[j].liberties == LibertiesOf(rows, cols, grid2.Keys, strings2[j].stones)
    {
      assert grid2.Keys == grid.Keys - freed;
      LibertiesOfFreed(rows, cols, grid.Keys, freed, strings[j].stones);
    }
  }

  /** Removing whole groups keeps every point and every group owned. */
  lemma CaptureKeepsOwned(rows: int, cols: int, grid: Grid, strings: Arena, nextId: nat, ids: set<nat>)
    requires GridOwned(rows, cols, grid, strings) && ArenaOwned(grid, strings, nextId)
    ensures GridOwned(rows, cols, grid - StonesOf(strings, ids), CapturedArena(strings, ids))
    ensures ArenaOwned(grid - StonesOf(strings, ids), CapturedArena(strings, ids), nextId)
  {
    var grid2 := grid - StonesOf(strings, ids);
    var strings2 := CapturedArena(strings, ids);
    StonesOfOwner(rows, cols, grid, strings, nextId, ids);
    forall p | p in grid2
      ensures OnGrid(rows, cols, p) && grid2[p] in strings2 && p in strings2[grid2[p]].stones
    {
      assert grid[p] !in ids;
    }
    forall j | j in strings2
      ensures forall p :: p in strings2[j].stones ==> p in grid2 && grid2[p] == j
    {
      forall p | p in strings2[j].stones
        ensures p in grid2 && grid2[p] == j
      {
        assert grid[p] == j;
      }
    }
  }

  /** Removing one more group after `ids` is removing `ids + {id}` at once. */
  lemma CaptureOneMore(strings: Arena, ids: set<nat>, id: nat)
    requires id in strings && id !in ids
    ensures id in CapturedArena(strings, ids)
    ensures StonesOf(CapturedArena(strings, ids), {id}) == strings[id].stones
    ensures CapturedArena(CapturedArena(strings, ids), {id}) == CapturedArena(strings, ids + {id})
  {
    CapturedOneStones(strings, ids, id);
    var s2 := CapturedArena(CapturedArena(strings, ids), {id});
    var s3 := CapturedArena(strings, ids + {id});
    assert s2.Keys == s3.Keys;
    forall j | j in s2
      ensures s2[j] == s3[j]
    {
      CaptureOneMoreAt(strings, ids, id, j);
    }
  }

  lemma CapturedOneStones(strings: Arena, ids: set<nat>, id: nat)
    requires id in strings && id !in ids
    ensures id in CapturedArena(strings, ids)
    ensures StonesOf(CapturedArena(strings, ids), {id}) == strings[id].stones
  {
    StonesOfSingle(CapturedArena(strings, ids), id);
  }

  lemma CaptureOneMoreAt(strings: Arena, ids: set<nat>, id: nat, j: nat)
    requires id in strings && id !in ids
    requires j in strings && j !in ids && j != id
    ensures CapturedArena(CapturedArena(strings, ids), {id})[j] == CapturedArena(strings, ids + {id})[j]
  {
    CapturedOneStones(strings, ids, id);
    StonesOfAdd(strings, ids, id);
    SpreadUnion(strings[j].liberties, StonesOf(strings, ids), strings[id].stones, Around(strings[j].stones));
  }

  lemma SpreadUnion(l: set<Point>, a: set<Point>, b: set<Point>, x: set<Point>)
    ensures (l + a * x) + b * x == l + (a + b) * x
  {
  }

  /** A group of the captured colour survives every capture of groups of its
    * own colour untouched, since they never touch it. */
  lemma CaptureUntouched(strings: Arena, ids: set<nat>, id: nat)
    requires id in strings && id !in ids
    requires forall k :: k in ids && k in strings ==> strings[k].stones * Around(strings[id].stones) == {}
    ensures id in CapturedArena(strings, ids) && CapturedArena(strings, ids)[id] == strings[id]
  {
    forall p | p in StonesOf(strings, ids)
      ensures p !in Around(strings[id].stones)
    {
      var k :| k in ids && k in strings && p in strings[k].stones;
      assert p !in strings[k].stones * Around(strings[id].stones);
    }
    assert StonesOf(strings, ids) * Around(strings[id].stones) == {};
  }

  /** The groups `ids` pairwise never touch. */
  ghost predicate ApartAmong(strings: Arena, ids: seq<nat>)
  {
    forall a, b :: a in ids && b in ids && a != b && a in strings && b in strings ==>
      strings[a].stones * Around(strings[b].stones) == {}
  }

  /** Groups of one colour on a separated board never touch. */
  lemma SeparatedApart(strings: Arena, ids: seq<nat>, colour: Player)
    requires Separated(strings)
    requires forall a :: a in ids ==> a in strings && strings[a].color == colour
    ensures ApartAmong(strings, ids)
  {
  }

  /** Freeing the stones of `id` one by one and then dropping `id` removes it. */
  lemma FreeingAllIsCapture(strings: Arena, id: nat)
    requires id in strings
    ensures Freeing(strings, id, strings[id].stones) - {id} == CapturedArena(strings, {id})
  {
    StonesOfSingle(strings, id);
  }

  lemma FreeingNone(strings: Arena, id: nat)
    ensures Freeing(strings, id, {}) == strings
  {
    forall j | j in strings
      ensures Freeing(strings, id, {})[j] == strings[j]
    {
      assert Freeing(strings, id, {})[j].liberties == strings[j].liberties;
    }
  }

  lemma FreeingMore(strings: Arena, id: nat, pts: set<Point>, q: Point)
    ensures Freeing(Freeing(strings, id, pts), id, {q}) == Freeing(strings, id, pts + {q})
  {
    forall j | j in strings && j != id
      ensures strings[j].liberties + pts * Around(strings[j].stones) + {q} * Around(strings[j].stones) ==
              strings[j].liberties + (pts + {q}) * Around(strings[j].stones)
    {
    }
  }

  /** While group `id` is half removed, ownership still holds apart from it. */
  lemma FreeingOwned(rows: int, cols: int, grid: Grid, strings: Arena, nextId: nat, id: nat, pts: set<Point>)
    requires GridOwned(rows, cols, grid, strings) && ArenaOwned(grid, strings, nextId)
    requires id in strings && pts <= strings[id].stones
    ensures OwnedApartFrom(grid - pts, Freeing(strings, id, pts), id)
  {
    var s2 := Freeing(strings, id, pts);
    forall k, n | k in s2 && k != id && n in s2[k].stones
      ensures n in grid - pts && (grid - pts)[n] == k
    {
      assert grid[n] == k;
    }
  }

  /** One more stone of group `id` released: ownership still holds apart
    * from `id`, and releasing `q` after `done` frees `done + {q}`. */
  lemma ReleaseNext(rows: int, cols: int, grid: Grid, strings: Arena, nextId: nat, id: nat, done: set<Point>, q: Point)
    requires GridOwned(rows, cols, grid, strings) && ArenaOwned(grid, strings, nextId)
    requires id in strings && done <= strings[id].stones
    ensures id in Freeing(strings, id, done)
    ensures OwnedApartFrom(grid - done, Freeing(strings, id, done), id)
    ensures Freeing(Freeing(strings, id, done), id, {q}) == Freeing(strings, id, done + {q})
    ensures (grid - done) - {q} == grid - (done + {q})
  {
    FreeingOwned(rows, cols, grid, strings, nextId, id, done);
    FreeingMore(strings, id, done, q);
    GridMinusTwice(grid, done, {q});
  }

  /** Looking at no neighbour yet changes nothing. */
  lemma TouchingNone(strings: Arena, id: nat, point: Point)
    ensures Touching(strings, id, point, []) == strings
  {
    forall j | j in strings
      ensures Touching(strings, id, point, [])[j] == strings[j]
    {
      assert Touching(strings, id, point, [])[j].liberties == strings[j].liberties;
    }
  }

  /** Looking at one more neighbour `n` adds `point` to the liberties of its
    * owner `j`, when that is a group other than `id`. */
  lemma TouchingSnoc(strings: Arena, id: nat, point: Point, ns: seq<Point>, n: Point, j: nat)
    requires j in strings && j != id && n in strings[j].stones
    requires forall k :: k in strings && k != id && n in strings[k].stones ==> k == j
    ensures var t := Touching(strings, id, point, ns);
            Touching(strings, id, point, ns + [n]) == t[j := t[j].AddLiberty(point)]
  {
    var t := Touching(strings, id, point, ns);
    var t2 := Touching(strings, id, point, ns + [n]);
    forall k | k in strings && k != id
      ensures t2[k] == (if k == j then t[j].AddLiberty(point) else t[k])
    {
      assert (set m | m in ns + [n] && m in strings[k].stones :: point) ==
             (set m | m in ns && m in strings[k].stones :: point) + (if k == j then {point} else {});
    }
  }

  /** Looking at a neighbour that no group other than `id` owns changes nothing. */
  lemma TouchingSkip(strings: Arena, id: nat, point: Point, ns: seq<Point>, n: Point)
    requires forall k :: k in strings && k != id ==> n !in strings[k].stones
    ensures Touching(strings, id, point, ns + [n]) == Touching(strings, id, point, ns)
  {
    var t := Touching(strings, id, point, ns);
    var t2 := Touching(strings, id, point, ns + [n]);
    forall k | k in strings && k != id
      ensures t2[k] == t[k]
    {
      assert (set m | m in ns + [n] && m in strings[k].stones :: point) ==
             (set m | m in ns && m in strings[k].stones :: point);
    }
  }

  /** Once all four neighbours are seen, `point` is freed. */
  lemma TouchingAll(strings: Arena, id: nat, point: Point)
    ensures Touching(strings, id, point, Neighbors(point)) == Freeing(strings, id, {point})
  {
    forall j | j in strings && j != id
      ensures (set n | n in Neighbors(point) && n in strings[j].stones :: point) == {point} * Around(strings[j].stones)
    {
      GainedAll(strings[j].stones, point);
    }
  }

  /** A stone set gains a freed point exactly when it is next to it. */
  lemma GainedAll(stones: set<Point>, point: Point)
    ensures (set n | n in Neighbors(point) && n in stones :: point) == {point} * Around(stones)
  {
    AroundMeans(stones);
    if point in Around(stones) {
      var s :| s in stones && Adjacent(s, point);
      NeighborsSymmetric(s, point);
      assert s in Neighbors(point);
    }
  }

  lemma CaptureNone(strings: Arena)
    ensures StonesOf(strings, {}) == {}
    ensures CapturedArena(strings, {}) == strings
  {
    forall j | j in strings
      ensures CapturedArena(strings, {})[j] == strings[j]
    {
      assert CapturedArena(strings, {})[j].liberties == strings[j].liberties;
    }
  }

  lemma GridMinusTwice(grid: Grid, a: set<Point>, b: set<Point>)
    ensures grid - (a + b) == (grid - a) - b
  {
  }

  lemma ZeroLibertyIdsSnoc(strings: Arena, ids: seq<nat>, id: nat)
    ensures ZeroLibertyIds(strings, ids + [id]) ==
              ZeroLibertyIds(strings, ids) + (if id in strings && strings[id].liberties == {} then {id} else {})
  {
  }

  /** One round of the capture loop over the opposite-colour neighbours
    * `ids`: after the zero-liberty groups among `ids[..k]` are removed,
    * `ids[k]` is still there as it was, the board is still consistent, and
    * removing `ids[k]` too when it has no liberty is removing the
    * zero-liberty groups of `ids[..k + 1]`. */
  lemma ZeroLibertyStep(rows: int, cols: int, grid: Grid, strings: Arena, nextId: nat, ids: seq<nat>, k: nat)
    requires GridOwned(rows, cols, grid, strings) && ArenaOwned(grid, strings, nextId)
    requires k < |ids| && ids[k] !in ids[..k]
    requires forall a :: a in ids ==> a in strings
    requires ApartAmong(strings, ids)
    ensures var done := ZeroLibertyIds(strings, ids[..k]);
            var s1 := CapturedArena(strings, done);
            && ids[k] in s1 && s1[ids[k]] == strings[ids[k]]
            && GridOwned(rows, cols, grid - StonesOf(strings, done), s1)
            && ArenaOwned(grid - StonesOf(strings, done), s1, nextId)
    ensures var done := ZeroLibertyIds(strings, ids[..k]);
            var id := ids[k];
            && (strings[id].liberties == {} ==>
                  && ZeroLibertyIds(strings, ids[..k + 1]) == done + {id}
                  && CapturedArena(CapturedArena(strings, done), {id}) == CapturedArena(strings, done + {id})
                  && StonesOf(strings, done + {id}) == StonesOf(strings, done) + strings[id].stones)
            && (strings[id].liberties != {} ==> ZeroLibertyIds(strings, ids[..k + 1]) == done)
  {
    var done := ZeroLibertyIds(strings, ids[..k]);
    var id := ids[k];
    forall j | j in done && j in strings
      ensures strings[j].stones * Around(strings[id].stones) == {}
    {
      assert j in ids && j != id;
    }
    CaptureUntouched(strings, done, id);
    CaptureKeepsOwned(rows, cols, grid, strings, nextId, done);
    ZeroLibertyGrow(strings, ids, k);
  }

  lemma ZeroLibertyGrow(strings: Arena, ids: seq<nat>, k: nat)
    requires k < |ids| && ids[k] !in ids[..k] && ids[k] in strings
    ensures var done := ZeroLibertyIds(strings, ids[..k]);
            var id := ids[k];
            && (strings[id].liberties == {} ==>
                  && ZeroLibertyIds(strings, ids[..k + 1]) == done + {id}
                  && CapturedArena(CapturedArena(strings, done), {id}) == CapturedArena(strings, done + {id})
                  && StonesOf(strings, done + {id}) == StonesOf(strings, done) + strings[id].stones)
            && (strings[id].liberties != {} ==> ZeroLibertyIds(strings, ids[..k + 1]) == done)
  {
    var done := ZeroLibertyIds(strings, ids[..k]);
    var id := ids[k];
    assert ids[..k + 1] == ids[..k] + [id];
    ZeroLibertyIdsSnoc(strings, ids[..k], id);
    assert id !in done;
    CaptureOneMore(strings, done, id);
    StonesOfAdd(strings, done, id);
  }

  /** One round of the source's capture loop: group `id`, if it is still on
    * the board and has no liberty left, is taken off. */
  function CaptureStep(grid: Grid, strings: Arena, id: nat): (Grid, Arena)
  {
    if id in strings && strings[id].liberties == {} then (grid - strings[id].stones, CapturedArena(strings, {id}))
    else (grid, strings)
  }

  /** The source's capture loop over `ids`, in list order. */
  function CaptureAlong(grid: Grid, strings: Arena, ids: seq<nat>): (Grid, Arena)
    decreases |ids|
  {
    if ids == [] then (grid, strings)
    else
      var before := CaptureAlong(grid, strings, ids[..|ids| - 1]);
      CaptureStep(before.0, before.1, ids[|ids| - 1])
  }

  /** The capture loop keeps ownership consistent. */
  lemma {:induction false} CaptureAlongOwned(rows: int, cols: int, grid: Grid, strings: Arena, nextId: nat, ids: seq<nat>)
    requires GridOwned(rows, cols, grid, strings) && ArenaOwned(grid, strings, nextId)
    ensures var after := CaptureAlong(grid, strings, ids);
            GridOwned(rows, cols, after.0, after.1) && ArenaOwned(after.0, after.1, nextId)
    decreases |ids|
  {
    if ids != [] {
      var before := CaptureAlong(grid, strings, ids[..|ids| - 1]);
      CaptureAlongOwned(rows, cols, grid, strings, nextId, ids[..|ids| - 1]);
      var id := ids[|ids| - 1];
      if id in before.1 && before.1[id].liberties == {} {
        StonesOfSingle(before.1, id);
        CaptureKeepsOwned(rows, cols, before.0, before.1, nextId, {id});
      }
    }
  }

  /** The capture loop only ever removes listed groups. */
  lemma {:induction false} CaptureAlongKeeps(grid: Grid, strings: Arena, ids: seq<nat>, x: nat)
    requires x in strings && x !in ids
    ensures x in CaptureAlong(grid, strings, ids).1
    decreases |ids|
  {
    if ids != [] {
      assert x in ids[..|ids| - 1] ==> x in ids;
      CaptureAlongKeeps(grid, strings, ids[..|ids| - 1], x);
    }
  }

  /** Run over groups that pairwise never touch, the loop's order does not
    * matter: it takes off exactly the listed groups that had no liberty at
    * the start, all at once. */
  lemma {:induction false} CaptureAlongIsCapture(rows: int, cols: int, grid: Grid, strings: Arena, nextId: nat, ids: seq<nat>)
    requires GridOwned(rows, cols, grid, strings) && ArenaOwned(grid, strings, nextId)
    requires NoDuplicates(ids)
    requires forall a :: a in ids ==> a in strings
    requires ApartAmong(strings, ids)
    ensures CaptureAlong(grid, strings, ids).0 == grid - StonesOf(strings, ZeroLibertyIds(strings, ids))
    ensures CaptureAlong(grid, strings, ids).1 == CapturedArena(strings, ZeroLibertyIds(strings, ids))
    decreases |ids|
  {
    if ids == [] {
      assert ZeroLibertyIds(strings, ids) == {};
      CaptureNone(strings);
      assert grid - {} == grid;
    } else {
      var k := |ids| - 1;
      var front := ids[..k];
      var id := ids[k];
      assert forall a :: a in front ==> a in ids;
      CaptureAlongIsCapture(rows, cols, grid, strings, nextId, front);
      assert id !in front;
      ZeroLibertyStep(rows, cols, grid, strings, nextId, ids, k);
      assert ids[..k + 1] == ids;
      var done := ZeroLibertyIds(strings, front);
      var before := CaptureAlong(grid, strings, front);
      var after := CaptureStep(before.0, before.1, id);
      assert CaptureAlong(grid, strings, ids).0 == after.0;
      assert CaptureAlong(grid, strings, ids).1 == after.1;
      if strings[id].liberties == {} {
        GridMinusTwice(grid, StonesOf(strings, done), strings[id].stones);
        assert after.0 == grid - StonesOf(strings, done + {id});
        assert after.1 == CapturedArena(strings, done + {id});
      } else {
        assert after.0 == before.0 && after.1 == before.1;
      }
    }
  }
}
