/**
 * A whole stone placement on values: the merge, the liberty update of the
 * opposite-colour neighbours and the capture composed, and what the board
 * looks like afterwards.
 */
module PlaceModel {
  import opened GoTypes
  import opened GoStrings
  import opened BoardModel

  /** The grid after `player` plays at `point`: the merged group owns its
    * stones and the captured groups' points are empty. */
  function PlacedGrid(rows: int, cols: int, grid: Grid, strings: Arena, nextId: nat, player: Player, point: Point): Grid
  {
    MergedGrid(rows, cols, grid, strings, nextId, player, point) - StonesOf(strings, CapturedIds(rows, cols, grid, strings, player, point))
  }

  /** The arena after `player` plays at `point`. */
  function PlacedArena(rows: int, cols: int, grid: Grid, strings: Arena, nextId: nat, player: Player, point: Point): Arena
  {
    CapturedArena(TakenArena(rows, cols, grid, strings, nextId, player, point),
                  CapturedIds(rows, cols, grid, strings, player, point))
  }

  /** The arena between the liberty update and the capture. */
  function TakenArena(rows: int, cols: int, grid: Grid, strings: Arena, nextId: nat, player: Player, point: Point): Arena
  {
    LibertyTaken(MergedArena(rows, cols, grid, strings, nextId, player, point),
                 AdjacentIds(rows, cols, grid, strings, player, point, false), point)
  }

  /** The colours after `player` plays at `point`: the old colours with
    * `point` set to `player` and the captured stones gone. */
  function PlacedPosition(rows: int, cols: int, grid: Grid, strings: Arena, player: Player, point: Point): map<Point, Player>
  {
    ColorsOf(grid, strings)[point := player] - StonesOf(strings, CapturedIds(rows, cols, grid, strings, player, point))
  }

  /** The colour that is not `player` is its opponent. */
  lemma OtherColour(c: Player, player: Player)
    requires c != player
    ensures c == player.Other()
  {
  }

  /** Every opposite-colour neighbour survives the merge unchanged, and
    * still lists `point` as a liberty. */
  lemma OppositeNeighbours(rows: int, cols: int, grid: Grid, strings: Arena, nextId: nat, player: Player, point: Point)
    requires WellFormed(rows, cols, grid, strings, nextId)
    requires OnGrid(rows, cols, point) && point !in grid
    ensures forall id :: id in AdjacentIds(rows, cols, grid, strings, player, point, false) ==>
              && id in strings && id in MergedArena(rows, cols, grid, strings, nextId, player, point)
              && MergedArena(rows, cols, grid, strings, nextId, player, point)[id] == strings[id]
              && point in strings[id].liberties
              && strings[id].color == player.Other()
  {
    var opp := AdjacentIds(rows, cols, grid, strings, player, point, false);
    forall id | id in opp
      ensures id in strings && id in MergedArena(rows, cols, grid, strings, nextId, player, point)
      ensures MergedArena(rows, cols, grid, strings, nextId, player, point)[id] == strings[id]
      ensures point in strings[id].liberties && strings[id].color == player.Other()
    {
      var n :| n in Neighbors(point) && OnGrid(rows, cols, n) && n in grid && grid[n] in strings &&
               strings[grid[n]].color != player && grid[n] == id;
      assert id !in AdjacentIds(rows, cols, grid, strings, player, point, true);
      TouchingGroupIsAdjacent(rows, cols, grid, strings, nextId, player, point, id);
      OtherColour(strings[id].color, player);
    }
  }

  /** Between the liberty update and the capture the board is consistent. */
  lemma TakenWellFormed(rows: int, cols: int, grid: Grid, strings: Arena, nextId: nat, player: Player, point: Point)
    requires WellFormed(rows, cols, grid, strings, nextId)
    requires OnGrid(rows, cols, point) && point !in grid
    ensures WellFormed(rows, cols, MergedGrid(rows, cols, grid, strings, nextId, player, point),
                       TakenArena(rows, cols, grid, strings, nextId, player, point), nextId + 1)
  {
    var grid2 := MergedGrid(rows, cols, grid, strings, nextId, player, point);
    var strings2 := MergedArena(rows, cols, grid, strings, nextId, player, point);
    var opp := AdjacentIds(rows, cols, grid, strings, player, point, false);
    MergedStonesOwner(rows, cols, grid, strings, nextId, player, point);
    MergeGridOwned(rows, cols, grid, strings, nextId, player, point);
    MergeArenaOwned(rows, cols, grid, strings, nextId, player, point);
    MergeSeparated(rows, cols, grid, strings, nextId, player, point);
    MergeLiberties(rows, cols, grid, strings, nextId, player, point);
    TakenKeepsShape(rows, cols, grid2, strings2, nextId + 1, point, opp);
    TakenLibertiesExact(rows, cols, grid2, strings2, point, opp);
  }

  /** The groups the capture loop finds without liberties are exactly those
    * whose only liberty was `point`, and their stones are as before. */
  lemma ZeroLibertyAreCaptured(rows: int, cols: int, grid: Grid, strings: Arena, nextId: nat, player: Player, point: Point, opp: seq<nat>)
    requires WellFormed(rows, cols, grid, strings, nextId)
    requires OnGrid(rows, cols, point) && point !in grid
    requires forall id :: id in opp <==> id in AdjacentIds(rows, cols, grid, strings, player, point, false)
    ensures var s3 := TakenArena(rows, cols, grid, strings, nextId, player, point);
            var captured := CapturedIds(rows, cols, grid, strings, player, point);
            ZeroLibertyIds(s3, opp) == captured && StonesOf(s3, captured) == StonesOf(strings, captured)
  {
    OppositeNeighbours(rows, cols, grid, strings, nextId, player, point);
    CapturedStonesUnchanged(rows, cols, grid, strings, nextId, player, point);
    ZeroLibertyIdsAre(strings, MergedArena(rows, cols, grid, strings, nextId, player, point),
                      AdjacentIds(rows, cols, grid, strings, player, point, false), point, opp);
  }

  /** For neighbours that kept their groups through the merge and listed
    * `point`, running out of liberties means `point` was the last one. */
  lemma ZeroLibertyIdsAre(strings: Arena, merged: Arena, opp: set<nat>, point: Point, oppSeq: seq<nat>)
    requires forall id :: id in oppSeq <==> id in opp
    requires forall id :: id in opp ==>
               id in strings && id in merged && merged[id] == strings[id] && point in strings[id].liberties
    ensures ZeroLibertyIds(LibertyTaken(merged, opp, point), oppSeq) ==
              set id | id in opp && id in strings && strings[id].liberties == {point}
  {
    var s3 := LibertyTaken(merged, opp, point);
    forall id | id in opp
      ensures id in s3 && (s3[id].liberties == {} <==> strings[id].liberties == {point})
    {
      assert s3[id].liberties == strings[id].liberties - {point};
    }
  }

  /** Playing keeps the board consistent. */
  lemma PlaceKeepsWellFormed(rows: int, cols: int, grid: Grid, strings: Arena, nextId: nat, player: Player, point: Point)
    requires WellFormed(rows, cols, grid, strings, nextId)
    requires OnGrid(rows, cols, point) && point !in grid
    ensures WellFormed(rows, cols, PlacedGrid(rows, cols, grid, strings, nextId, player, point),
                       PlacedArena(rows, cols, grid, strings, nextId, player, point), nextId + 1)
  {
    var s3 := TakenArena(rows, cols, grid, strings, nextId, player, point);
    var captured := CapturedIds(rows, cols, grid, strings, player, point);
    var grid2 := MergedGrid(rows, cols, grid, strings, nextId, player, point);
    TakenWellFormed(rows, cols, grid, strings, nextId, player, point);
    CapturedStonesUnchanged(rows, cols, grid, strings, nextId, player, point);
    CaptureKeepsWellFormed(rows, cols, grid2, s3, nextId + 1, captured);
  }

  lemma CapturedStonesUnchanged(rows: int, cols: int, grid: Grid, strings: Arena, nextId: nat, player: Player, point: Point)
    requires WellFormed(rows, cols, grid, strings, nextId)
    requires OnGrid(rows, cols, point) && point !in grid
    ensures var captured := CapturedIds(rows, cols, grid, strings, player, point);
            StonesOf(TakenArena(rows, cols, grid, strings, nextId, player, point), captured) == StonesOf(strings, captured)
  {
    var s3 := TakenArena(rows, cols, grid, strings, nextId, player, point);
    OppositeNeighbours(rows, cols, grid, strings, nextId, player, point);
    forall id | id in CapturedIds(rows, cols, grid, strings, player, point)
      ensures id in s3 && s3[id].stones == strings[id].stones
    {
    }
  }

  /** The source's capture loop, run in the order the neighbours were found,
    * ends in the placed board, whatever that order. */
  lemma CaptureLoopPlaces(rows: int, cols: int, grid: Grid, strings: Arena, nextId: nat, player: Player, point: Point, opp: seq<nat>)
    requires WellFormed(rows, cols, grid, strings, nextId)
    requires OnGrid(rows, cols, point) && point !in grid
    requires NoDuplicates(opp)
    requires forall id :: id in opp <==> id in AdjacentIds(rows, cols, grid, strings, player, point, false)
    ensures forall id :: id in opp ==> id in TakenArena(rows, cols, grid, strings, nextId, player, point)
    ensures var after := CaptureAlong(MergedGrid(rows, cols, grid, strings, nextId, player, point),
                                      TakenArena(rows, cols, grid, strings, nextId, player, point), opp);
            && after.0 == PlacedGrid(rows, cols, grid, strings, nextId, player, point)
            && after.1 == PlacedArena(rows, cols, grid, strings, nextId, player, point)
  {
    var grid2 := MergedGrid(rows, cols, grid, strings, nextId, player, point);
    var s3 := TakenArena(rows, cols, grid, strings, nextId, player, point);
    TakenReadyForCapture(rows, cols, grid, strings, nextId, player, point, opp);
    ZeroLibertyAreCaptured(rows, cols, grid, strings, nextId, player, point, opp);
    CaptureAlongIsCapture(rows, cols, grid2, s3, nextId + 1, opp);
  }

  /** What the capture loop needs of the board it starts from: consistent
    * ownership, every listed group live, and no two of them touching. */
  lemma TakenReadyForCapture(rows: int, cols: int, grid: Grid, strings: Arena, nextId: nat, player: Player, point: Point, opp: seq<nat>)
    requires WellFormed(rows, cols, grid, strings, nextId)
    requires OnGrid(rows, cols, point) && point !in grid
    requires forall id :: id in opp <==> id in AdjacentIds(rows, cols, grid, strings, player, point, false)
    ensures var grid2 := MergedGrid(rows, cols, grid, strings, nextId, player, point);
            var s3 := TakenArena(rows, cols, grid, strings, nextId, player, point);
            && GridOwned(rows, cols, grid2, s3) && ArenaOwned(grid2, s3, nextId + 1)
            && (forall id :: id in opp ==> id in s3)
            && ApartAmong(s3, opp)
  {
    var s3 := TakenArena(rows, cols, grid, strings, nextId, player, point);
    TakenWellFormed(rows, cols, grid, strings, nextId, player, point);
    OppositeNeighbours(rows, cols, grid, strings, nextId, player, point);
    forall id | id in opp
      ensures id in s3 && s3[id].color == player.Other()
    {
    }
    SeparatedApart(s3, opp, player.Other());
  }


  // ---------------------------------------------------------------------
  // What a placement promises

  /** Captured stones and the merged group never overlap: the captured
    * groups have the other colour. */
  lemma CapturedApartFromMerged(rows: int, cols: int, grid: Grid, strings: Arena, nextId: nat, player: Player, point: Point)
    requires WellFormed(rows, cols, grid, strings, nextId)
    requires OnGrid(rows, cols, point) && point !in grid
    ensures MergedStones(rows, cols, grid, strings, player, point) *
            StonesOf(strings, CapturedIds(rows, cols, grid, strings, player, point)) == {}
    ensures StonesOf(strings, CapturedIds(rows, cols, grid, strings, player, point)) <= grid.Keys
  {
    var captured := CapturedIds(rows, cols, grid, strings, player, point);
    var same := AdjacentIds(rows, cols, grid, strings, player, point, true);
    MergedStonesOwner(rows, cols, grid, strings, nextId, player, point);
    StonesOfOwner(rows, cols, grid, strings, nextId, captured);
    OppositeNeighbours(rows, cols, grid, strings, nextId, player, point);
    forall q | q in StonesOf(strings, captured)
      ensures q !in MergedStones(rows, cols, grid, strings, player, point)
    {
      assert q in grid && grid[q] in captured;
    }
  }

  /** The occupied points after the move are the old ones plus `point`
    * minus the captured stones. */
  lemma PlacedKeys(rows: int, cols: int, grid: Grid, strings: Arena, nextId: nat, player: Player, point: Point)
    requires GridOwned(rows, cols, grid, strings) && ArenaOwned(grid, strings, nextId)
    requires OnGrid(rows, cols, point) && point !in grid
    ensures PlacedGrid(rows, cols, grid, strings, nextId, player, point).Keys == OccupiedAfter(rows, cols, grid, strings, player, point)
  {
    MergedStonesOwner(rows, cols, grid, strings, nextId, player, point);
  }

  /** Every stone of the merged group, and so every stone of the former
    * same-colour neighbour groups, is owned by the new group. */
  lemma PlacedStonesOwned(rows: int, cols: int, grid: Grid, strings: Arena, nextId: nat, player: Player, point: Point)
    requires WellFormed(rows, cols, grid, strings, nextId)
    requires OnGrid(rows, cols, point) && point !in grid
    ensures var g := PlacedGrid(rows, cols, grid, strings, nextId, player, point);
            var stones := MergedStones(rows, cols, grid, strings, player, point);
            && point in stones
            && (forall id :: id in AdjacentIds(rows, cols, grid, strings, player, point, true) ==>
                  id in strings && strings[id].stones <= stones)
            && (forall p :: p in stones ==> p in g && g[p] == nextId)
  {
    var same := AdjacentIds(rows, cols, grid, strings, player, point, true);
    var stones := MergedStones(rows, cols, grid, strings, player, point);
    CapturedApartFromMerged(rows, cols, grid, strings, nextId, player, point);
    forall id | id in same
      ensures id in strings && strings[id].stones <= stones
    {
      assert strings[id].stones <= StonesOf(strings, same);
    }
  }

  /** The new group after the move: `player`'s colour, the merged stones,
    * and as liberties the empty on-grid points around them. */
  lemma PlacedGroup(rows: int, cols: int, grid: Grid, strings: Arena, nextId: nat, player: Player, point: Point)
    requires WellFormed(rows, cols, grid, strings, nextId)
    requires OnGrid(rows, cols, point) && point !in grid
    ensures var s := PlacedArena(rows, cols, grid, strings, nextId, player, point);
            var stones := MergedStones(rows, cols, grid, strings, player, point);
            && nextId in s
            && s[nextId] == GoString(player, stones, LibertiesOf(rows, cols, OccupiedAfter(rows, cols, grid, strings, player, point), stones))
  {
    var s2 := MergedArena(rows, cols, grid, strings, nextId, player, point);
    var s3 := TakenArena(rows, cols, grid, strings, nextId, player, point);
    var captured := CapturedIds(rows, cols, grid, strings, player, point);
    var stones := MergedStones(rows, cols, grid, strings, player, point);
    var freed := StonesOf(strings, captured);
    assert nextId !in strings;
    assert nextId !in captured;
    assert s3[nextId] == s2[nextId];
    CapturedStonesUnchanged(rows, cols, grid, strings, nextId, player, point);
    CapturedApartFromMerged(rows, cols, grid, strings, nextId, player, point);
    StonesOfOwner(rows, cols, grid, strings, nextId, captured);
    LibertiesOfFreed(rows, cols, grid.Keys + {point}, freed, stones);
  }

  /** After `player` plays at `point`, `point` and every stone of the
    * former same-colour neighbour groups belong to one new group of
    * `player`'s colour; the occupied points are the old ones plus `point`
    * minus the captured stones; the new group's liberties are the empty
    * on-grid points around it. */
  lemma PlacedNewGroup(rows: int, cols: int, grid: Grid, strings: Arena, nextId: nat, player: Player, point: Point)
    requires WellFormed(rows, cols, grid, strings, nextId)
    requires OnGrid(rows, cols, point) && point !in grid
    ensures var g := PlacedGrid(rows, cols, grid, strings, nextId, player, point);
            var s := PlacedArena(rows, cols, grid, strings, nextId, player, point);
            var stones := MergedStones(rows, cols, grid, strings, player, point);
            && g.Keys == OccupiedAfter(rows, cols, grid, strings, player, point)
            && point in stones
            && (forall id :: id in AdjacentIds(rows, cols, grid, strings, player, point, true) ==>
                  id in strings && strings[id].stones <= stones)
            && (forall p :: p in stones ==> p in g && g[p] == nextId)
            && nextId in s
            && s[nextId] == GoString(player, stones, LibertiesOf(rows, cols, g.Keys, stones))
  {
    PlacedKeys(rows, cols, grid, strings, nextId, player, point);
    PlacedStonesOwned(rows, cols, grid, strings, nextId, player, point);
    PlacedGroup(rows, cols, grid, strings, nextId, player, point);
  }

  /** One surviving group `j`, seen through the three steps of the move. */
  lemma PlacedSurvivor(rows: int, cols: int, grid: Grid, strings: Arena, nextId: nat, player: Player, point: Point, j: nat)
    requires WellFormed(rows, cols, grid, strings, nextId)
    requires OnGrid(rows, cols, point) && point !in grid
    requires j in PlacedArena(rows, cols, grid, strings, nextId, player, point) && j != nextId
    ensures var s := PlacedArena(rows, cols, grid, strings, nextId, player, point);
            var captured := CapturedIds(rows, cols, grid, strings, player, point);
            && j in strings && j !in captured
            && j !in AdjacentIds(rows, cols, grid, strings, player, point, true)
            && s[j].color == strings[j].color && s[j].stones == strings[j].stones
            && s[j].liberties == (strings[j].liberties - {point}) + StonesOf(strings, captured) * Around(strings[j].stones)
  {
    var s2 := MergedArena(rows, cols, grid, strings, nextId, player, point);
    var s3 := TakenArena(rows, cols, grid, strings, nextId, player, point);
    assert j in s3 && j in s2;
    assert j in strings && j !in AdjacentIds(rows, cols, grid, strings, player, point, true);
    TakenSurvivor(rows, cols, grid, strings, nextId, player, point, j);
    CapturedStonesUnchanged(rows, cols, grid, strings, nextId, player, point);
  }

  /** A group the merge leaves alone only loses `point` from its liberties
    * in the liberty update. */
  lemma TakenSurvivor(rows: int, cols: int, grid: Grid, strings: Arena, nextId: nat, player: Player, point: Point, j: nat)
    requires WellFormed(rows, cols, grid, strings, nextId)
    requires OnGrid(rows, cols, point) && point !in grid
    requires j in strings && j !in AdjacentIds(rows, cols, grid, strings, player, point, true)
    ensures var s3 := TakenArena(rows, cols, grid, strings, nextId, player, point);
            j in s3 && s3[j] == strings[j].(liberties := strings[j].liberties - {point})
  {
    var s3 := TakenArena(rows, cols, grid, strings, nextId, player, point);
    var opp := AdjacentIds(rows, cols, grid, strings, player, point, false);
    assert j != nextId;
    if j !in opp {
      TouchingGroupIsAdjacent(rows, cols, grid, strings, nextId, player, point, j);
      assert point !in strings[j].liberties;
      assert strings[j].liberties - {point} == strings[j].liberties;
    }
  }


  /** Every other group after the move was on the board before, was not a
    * same-colour neighbour and was not captured; it keeps its colour and
    * stones, loses `point` from its liberties and gains every captured
    * stone next to it. */
  lemma PlacedSurvivors(rows: int, cols: int, grid: Grid, strings: Arena, nextId: nat, player: Player, point: Point)
    requires WellFormed(rows, cols, grid, strings, nextId)
    requires OnGrid(rows, cols, point) && point !in grid
    ensures var s := PlacedArena(rows, cols, grid, strings, nextId, player, point);
            var captured := CapturedIds(rows, cols, grid, strings, player, point);
            forall j :: j in s && j != nextId ==>
              && j in strings && j !in captured
              && j !in AdjacentIds(rows, cols, grid, strings, player, point, true)
              && s[j].color == strings[j].color && s[j].stones == strings[j].stones
              && s[j].liberties == (strings[j].liberties - {point}) + StonesOf(strings, captured) * Around(strings[j].stones)
  {
    var s := PlacedArena(rows, cols, grid, strings, nextId, player, point);
    forall j | j in s && j != nextId
      ensures PlacedSurvivorFacts(rows, cols, grid, strings, nextId, player, point, j)
    {
      PlacedSurvivor(rows, cols, grid, strings, nextId, player, point, j);
    }
  }

  ghost predicate PlacedSurvivorFacts(rows: int, cols: int, grid: Grid, strings: Arena, nextId: nat, player: Player, point: Point, j: nat)
    requires j in PlacedArena(rows, cols, grid, strings, nextId, player, point)
  {
    var s := PlacedArena(rows, cols, grid, strings, nextId, player, point);
    var captured := CapturedIds(rows, cols, grid, strings, player, point);
    && j in strings && j !in captured
    && j !in AdjacentIds(rows, cols, grid, strings, player, point, true)
    && s[j].color == strings[j].color && s[j].stones == strings[j].stones
    && s[j].liberties == (strings[j].liberties - {point}) + StonesOf(strings, captured) * Around(strings[j].stones)
  }

  /** The colour of one point after the move. */
  lemma PlacedColorAt(rows: int, cols: int, grid: Grid, strings: Arena, nextId: nat, player: Player, point: Point, p: Point)
    requires WellFormed(rows, cols, grid, strings, nextId)
    requires OnGrid(rows, cols, point) && point !in grid
    ensures var after := ColorsOf(PlacedGrid(rows, cols, grid, strings, nextId, player, point),
                                  PlacedArena(rows, cols, grid, strings, nextId, player, point));
            var before := PlacedPosition(rows, cols, grid, strings, player, point);
            && (p in after <==> p in before)
            && (p in after ==> after[p] == before[p])
  {
    var g := PlacedGrid(rows, cols, grid, strings, nextId, player, point);
    if p in MergedStones(rows, cols, grid, strings, player, point) {
      ColorAtMerged(rows, cols, grid, strings, nextId, player, point, p);
    } else if p in g {
      ColorAtSurvivor(rows, cols, grid, strings, nextId, player, point, p);
    } else {
      ColorAtEmpty(rows, cols, grid, strings, nextId, player, point, p);
    }
  }

  lemma ColorAtMerged(rows: int, cols: int, grid: Grid, strings: Arena, nextId: nat, player: Player, point: Point, p: Point)
    requires WellFormed(rows, cols, grid, strings, nextId)
    requires OnGrid(rows, cols, point) && point !in grid
    requires p in MergedStones(rows, cols, grid, strings, player, point)
    ensures var after := ColorsOf(PlacedGrid(rows, cols, grid, strings, nextId, player, point),
                                  PlacedArena(rows, cols, grid, strings, nextId, player, point));
            var before := PlacedPosition(rows, cols, grid, strings, player, point);
            p in after && p in before && after[p] == player && before[p] == player
  {
    var g := PlacedGrid(rows, cols, grid, strings, nextId, player, point);
    var s := PlacedArena(rows, cols, grid, strings, nextId, player, point);
    PlacedStonesOwned(rows, cols, grid, strings, nextId, player, point);
    PlacedGroup(rows, cols, grid, strings, nextId, player, point);
    CapturedApartFromMerged(rows, cols, grid, strings, nextId, player, point);
    assert p in g && g[p] == nextId && nextId in s && s[nextId].color == player;
    assert p !in StonesOf(strings, CapturedIds(rows, cols, grid, strings, player, point));
    if p != point {
      MergedStonesOwner(rows, cols, grid, strings, nextId, player, point);
      assert p in grid && grid[p] in AdjacentIds(rows, cols, grid, strings, player, point, true);
      assert ColorsOf(grid, strings)[p] == player;
    }
  }

  lemma ColorAtSurvivor(rows: int, cols: int, grid: Grid, strings: Arena, nextId: nat, player: Player, point: Point, p: Point)
    requires WellFormed(rows, cols, grid, strings, nextId)
    requires OnGrid(rows, cols, point) && point !in grid
    requires p !in MergedStones(rows, cols, grid, strings, player, point)
    requires p in PlacedGrid(rows, cols, grid, strings, nextId, player, point)
    ensures var after := ColorsOf(PlacedGrid(rows, cols, grid, strings, nextId, player, point),
                                  PlacedArena(rows, cols, grid, strings, nextId, player, point));
            var before := PlacedPosition(rows, cols, grid, strings, player, point);
            p in after && p in before && after[p] == before[p]
  {
    var g := PlacedGrid(rows, cols, grid, strings, nextId, player, point);
    var s := PlacedArena(rows, cols, grid, strings, nextId, player, point);
    var captured := CapturedIds(rows, cols, grid, strings, player, point);
    MergedStonesOwner(rows, cols, grid, strings, nextId, player, point);
    assert p in grid && g[p] == grid[p] && p != point;
    var j := grid[p];
    assert j in strings && j < nextId;
    assert j !in AdjacentIds(rows, cols, grid, strings, player, point, true);
    StonesOfOwner(rows, cols, grid, strings, nextId, captured);
    assert p !in StonesOf(strings, captured);
    assert j !in captured;
    assert j in s;
    PlacedSurvivor(rows, cols, grid, strings, nextId, player, point, j);
    assert ColorsOf(grid, strings)[p] == strings[j].color;
  }

  lemma ColorAtEmpty(rows: int, cols: int, grid: Grid, strings: Arena, nextId: nat, player: Player, point: Point, p: Point)
    requires GridOwned(rows, cols, grid, strings) && ArenaOwned(grid, strings, nextId)
    requires OnGrid(rows, cols, point) && point !in grid
    requires p !in PlacedGrid(rows, cols, grid, strings, nextId, player, point)
    ensures p !in ColorsOf(PlacedGrid(rows, cols, grid, strings, nextId, player, point),
                           PlacedArena(rows, cols, grid, strings, nextId, player, point))
    ensures p !in PlacedPosition(rows, cols, grid, strings, player, point)
  {
    PlacedKeys(rows, cols, grid, strings, nextId, player, point);
  }

  /** The colours after the move: `point` holds `player`, the captured
    * stones are gone, every other point keeps its colour. */
  lemma PlacedColors(rows: int, cols: int, grid: Grid, strings: Arena, nextId: nat, player: Player, point: Point)
    requires WellFormed(rows, cols, grid, strings, nextId)
    requires OnGrid(rows, cols, point) && point !in grid
    ensures ColorsOf(PlacedGrid(rows, cols, grid, strings, nextId, player, point),
                     PlacedArena(rows, cols, grid, strings, nextId, player, point)) ==
              PlacedPosition(rows, cols, grid, strings, player, point)
  {
    var after := ColorsOf(PlacedGrid(rows, cols, grid, strings, nextId, player, point),
                          PlacedArena(rows, cols, grid, strings, nextId, player, point));
    var before := PlacedPosition(rows, cols, grid, strings, player, point);
    forall p
      ensures (p in after <==> p in before) && (p in after ==> after[p] == before[p])
    {
      PlacedColorAt(rows, cols, grid, strings, nextId, player, point, p);
    }
    SameEntries(after, before);
  }

  lemma SameEntries(a: map<Point, Player>, b: map<Point, Player>)
    requires forall p :: (p in a <==> p in b) && (p in a ==> a[p] == b[p])
    ensures a == b
  {
    assert a.Keys == b.Keys;
  }

  /** When every group had a liberty before the move, the only group that
    * can be left without one is the new stone's own. */
  lemma OnlyNewGroupMayBeDead(rows: int, cols: int, grid: Grid, strings: Arena, nextId: nat, player: Player, point: Point)
    requires WellFormed(rows, cols, grid, strings, nextId)
    requires OnGrid(rows, cols, point) && point !in grid
    requires forall j :: j in strings ==> strings[j].liberties != {}
    ensures var s := PlacedArena(rows, cols, grid, strings, nextId, player, point);
            forall j :: j in s && s[j].liberties == {} ==> j == nextId
  {
    var s := PlacedArena(rows, cols, grid, strings, nextId, player, point);
    forall j | j in s && j != nextId
      ensures s[j].liberties != {}
    {
      SurvivorKeepsLiberty(rows, cols, grid, strings, nextId, player, point, j);
    }
  }

  lemma SurvivorKeepsLiberty(rows: int, cols: int, grid: Grid, strings: Arena, nextId: nat, player: Player, point: Point, j: nat)
    requires WellFormed(rows, cols, grid, strings, nextId)
    requires OnGrid(rows, cols, point) && point !in grid
    requires j in PlacedArena(rows, cols, grid, strings, nextId, player, point) && j != nextId
    requires j in strings ==> strings[j].liberties != {}
    ensures PlacedArena(rows, cols, grid, strings, nextId, player, point)[j].liberties != {}
  {
    var s := PlacedArena(rows, cols, grid, strings, nextId, player, point);
    var opp := AdjacentIds(rows, cols, grid, strings, player, point, false);
    PlacedSurvivor(rows, cols, grid, strings, nextId, player, point, j);
    var l := strings[j].liberties;
    assert l - {point} <= s[j].liberties;
    TouchingGroupIsAdjacent(rows, cols, grid, strings, nextId, player, point, j);
  }

  /** A stone of `player` at `point` is self-capture when, once the
    * captures are resolved, its group has no empty on-grid neighbour. */
  predicate SelfCapture(rows: int, cols: int, grid: Grid, strings: Arena, player: Player, point: Point)
  {
    LibertiesOf(rows, cols, OccupiedAfter(rows, cols, grid, strings, player, point),
                MergedStones(rows, cols, grid, strings, player, point)) == {}
  }

  /** Self-capture is exactly the new group ending the move with no
    * liberties on the board. */
  lemma SelfCaptureMeans(rows: int, cols: int, grid: Grid, strings: Arena, nextId: nat, player: Player, point: Point)
    requires WellFormed(rows, cols, grid, strings, nextId)
    requires OnGrid(rows, cols, point) && point !in grid
    ensures nextId in PlacedArena(rows, cols, grid, strings, nextId, player, point)
    ensures SelfCapture(rows, cols, grid, strings, player, point) <==>
              PlacedArena(rows, cols, grid, strings, nextId, player, point)[nextId].liberties == {}
  {
    PlacedGroup(rows, cols, grid, strings, nextId, player, point);
  }

  /** A stone with an empty on-grid neighbour keeps that point as a liberty:
    * such a move is never self-capture. */
  lemma EmptyNeighbourNotSelfCapture(rows: int, cols: int, grid: Grid, strings: Arena, player: Player, point: Point, n: Point)
    requires Adjacent(point, n) && OnGrid(rows, cols, n) && n !in grid
    ensures !SelfCapture(rows, cols, grid, strings, player, point)
  {
    var stones := MergedStones(rows, cols, grid, strings, player, point);
    AroundMeans(stones);
    assert n in Around(stones);
    assert n in LibertiesOf(rows, cols, OccupiedAfter(rows, cols, grid, strings, player, point), stones);
  }

  /** A move that captures frees a point next to the new stone, which
    * becomes its liberty: a capturing move is never self-capture. */
  lemma CaptureNotSelfCapture(rows: int, cols: int, grid: Grid, strings: Arena, player: Player, point: Point)
    requires GridOwned(rows, cols, grid, strings)
    requires CapturedIds(rows, cols, grid, strings, player, point) != {}
    ensures !SelfCapture(rows, cols, grid, strings, player, point)
  {
    var captured := CapturedIds(rows, cols, grid, strings, player, point);
    var stones := MergedStones(rows, cols, grid, strings, player, point);
    var id :| id in captured;
    var n :| n in Neighbors(point) && OnGrid(rows, cols, n) && n in grid && grid[n] in strings &&
             strings[grid[n]].color != player && grid[n] == id;
    AroundMeans(stones);
    assert n in Around(stones);
    assert n in strings[id].stones;
    assert n in StonesOf(strings, captured);
    assert n in LibertiesOf(rows, cols, OccupiedAfter(rows, cols, grid, strings, player, point), stones);
  }
}
