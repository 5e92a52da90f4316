# A verified model of a small Go engine

This project models the core of a Python Go engine (`dlgo`) in Dafny and
proves properties of the model. It covers:

- moves (play, pass, resign);
- groups of stones ("strings") and their liberties;
- the board and stone placement, with the merge of friendly groups, the
  liberty update of enemy groups and the capture of groups left without
  liberties;
- the game as a chain of immutable snapshots: applying a move, the end of
  the game, self-capture, situational ko and move legality;
- area scoring: the classification of every point as a stone, territory or
  dame, the tally of that classification and the final result with a komi
  of 7.5;
- the text form of a point ("C4") and the round trip between points and
  text.

## How the model is built

- **Board** (`board.dfy`, `Boards.Board`) is a class, as in the source. The
  source lets every point of a group share one group object, which the
  placement then changes in place. Here `grid` maps each occupied point to a
  group id and `strings` maps ids to `GoString` values. Changing the group
  at an id is then seen from every one of its points.
- **Placement of a stone** (`Boards.Board.PlaceStone`) follows the source
  step by step: scan the four neighbours, fold in the same-colour groups,
  take the point away from the enemy groups' liberties, then remove the
  enemy groups left without liberties. Each step is a method, proved
  against a function on the two maps (`board_model.dfy`).
- **What a placement does** is stated and proved on those functions
  (`place_model.dfy`): the new group, the survivors, the colours after the
  move, self-capture. The board invariant `Valid` says that ownership is
  consistent, every liberty set is exactly the empty on-board points next
  to the group, and no two same-colour groups touch. `PlaceStone` keeps
  that invariant.
- **Game states** (`game.dfy`) are values that hold a reference to a board.
  Like the source, a move builds a fresh copy of the board and plays on the
  copy. The copy (`Boards.Board.CopyOf`) copies the size and the two maps.
  The source's deep copy keeps a group shared between all its points, as
  the shared id does here.
- **Regions** (`regions.dfy`) are defined as the least set that contains a
  start point and is closed under same-colour on-board neighbours. The
  worklist search `Regions.CollectRegion` is proved to find exactly that
  set and its border colours.
- **Scoring** (`scoring.dfy`): the row-by-row scan `EvaluateTerritory` is
  proved to compute the classification that `Scoring.Classify` defines
  point by point. The tally `TallyTerritory` is proved to count it.
- **Text coordinates** (`coords.dfy`) use the nineteen column letters,
  which skip `I`. Python's negative indexing is written out.

## Model

| member | source | states |
|---|---|---|
| Moves.NewMoveAsWritten | dlgo/board_slow.py:5-11 | the move records the point, whether a point was given as `isPlay`, and both flags, under the exclusive-or guard as written |
| Moves.GuardAsWrittenMeans | dlgo/board_slow.py:7 | the three-way exclusive-or holds exactly when one flag is set or when all three are |
| Moves.GuardAcceptsAllThree | dlgo/board_slow.py:7 | a point together with pass and resign passes the guard and yields a move that is not of exactly one kind |
| Moves.NewMove | dlgo/board_slow.py:5-11 | with exactly one of point, pass and resign given, the move is well formed and keeps the point and flags |
| Moves.IntendedGuardIsStricter | dlgo/board_slow.py:7 | exactly one flag set is the written guard minus the all-three case |
| Moves.Play | dlgo/board_slow.py:13-15 | a play move at the point, neither pass nor resign |
| Moves.PassTurn | dlgo/board_slow.py:17-19 | a pass with no point |
| Moves.Resign | dlgo/board_slow.py:21-23 | a resignation with no point |
| Moves.WellFormedMoveIsFactoryMade | dlgo/board_slow.py:5-23 | every well-formed move is one that `Play`, `PassTurn` or `Resign` builds |
| GoStrings.GoString.RemoveLiberty | dlgo/board_slow.py:32-33 | the liberty is gone, nothing else changes and the count drops by one; the point must be a liberty, as the set removal demands |
| GoStrings.GoString.AddLiberty | dlgo/board_slow.py:35-36 | the point becomes a liberty, the others are kept, and adding a liberty the group already has changes nothing |
| GoStrings.GoString.NumLiberties | dlgo/board_slow.py:47-49 | the count is zero exactly when the group has no liberty |
| GoStrings.GoString.MergedWith | dlgo/board_slow.py:38-45 | same colour, the union of the stones, and as liberties every liberty of either part that is not a stone of either part |
| GoStrings.MergedLibertiesAreNotStones | dlgo/board_slow.py:38-45 | a merged group's liberties never overlap its stones |
| GoStrings.MergedWithCommutes | dlgo/board_slow.py:38-45 | merging is symmetric |
| GoStrings.MergedWithKeepsLiberties | dlgo/board_slow.py:38-45 | when each part's liberties are its empty on-board surroundings, so are the merged group's, less its stones |
| Boards.AppendNeighbor | dlgo/board_slow.py:112-115 | the list gains the group unless it holds it already, so it never holds a group twice |
| Boards.Board.constructor | dlgo/board_slow.py:58-62 | an empty board of the given size that satisfies the invariant |
| Boards.Board.CopyOf | dlgo/board_slow.py:192 | a new board with the same size, grid and groups as the original |
| Boards.Board.GetGoStringOnPoint | dlgo/board_slow.py:93-97 | a group exactly for an occupied point, and it is the very group filed under the point: on a valid board its stones are exactly the points owned by the same id, it has the point's colour and exact liberties |
| Boards.Board.IsPointOnGridMeans | dlgo/board_slow.py:83-85 | on the board exactly for rows 1 to the row count and columns 1 to the column count; a board without rows or columns has no points |
| Boards.Board.GetColorOnPoint | dlgo/board_slow.py:87-91 | the colour of the point, or none when it is empty |
| Boards.Board.UpdatePointInfo | dlgo/board_slow.py:103-110 | an empty neighbour is appended to the liberties; an occupied one adds its group to the same-colour or enemy list by its colour, leaving the other lists alone and never listing a group twice |
| Boards.Board.CollectPointInfo | dlgo/board_slow.py:66-76 | the empty on-board neighbours, and the distinct same-colour and enemy groups next to the point, each listed once |
| Boards.Board.FoldSameColor | dlgo/board_slow.py:118-119 | the merged group holds the new stone and every listed group's stones, with exact liberties less its stones |
| Boards.Board.AssignOwner | dlgo/board_slow.py:120-121 | every stone of the merged group now maps to its id, and nothing else changes |
| Boards.Board.MergeWithAdjacentSameString | dlgo/board_slow.py:117-121 | the grid and groups become those of the merge function: the new group under a fresh id, its parts gone |
| Boards.Board.RemoveLibertyOfOppositeString | dlgo/board_slow.py:123-126 | each listed enemy group loses the played point from its liberties, and the grid is unchanged |
| Boards.Board.ReleaseStone | dlgo/board_slow.py:134-141 | the point is emptied and every other group next to it gains it as a liberty |
| Boards.Board.RemoveString | dlgo/board_slow.py:133-141 | the group's stones are emptied and the group is removed; every other group gains exactly the freed points next to it |
| Boards.Board.RemoveIfDead | dlgo/board_slow.py:129-131 | one round of the capture loop: the group is removed when it has no liberty, kept otherwise |
| Boards.Board.RemoveStringWithZeroLiberty | dlgo/board_slow.py:128-131 | the board after the capture loop over the listed enemy groups, in list order |
| Boards.Board.MergeAndTakeLiberty | dlgo/board_slow.py:64-80 | after the scan, the merge and the liberty update, the board matches those functions, and the enemy list is exactly the enemy neighbour groups |
| Boards.Board.PlaceStone | dlgo/board_slow.py:64-81 | the board after the whole placement, with the board invariant kept |
| BoardModel.DistinctIdsDistinctGroups | dlgo/board_slow.py:51-55 | two live groups are never equal as values, so the value comparison behind `not in` tells groups apart as object identity would |
| BoardModel.CaptureKeepsWellFormed | dlgo/board_slow.py:133-141 | taking groups off keeps the board invariant |
| BoardModel.CaptureAlongIsCapture | dlgo/board_slow.py:128-131 | over groups that never touch, the loop's order does not matter: it removes exactly the listed groups that had no liberty |
| BoardModel.FreeingAllIsCapture | dlgo/board_slow.py:133-141 | freeing all of a group's stones and dropping the group is the capture of that group |
| BoardModel.TouchingAll | dlgo/board_slow.py:134-140 | the liberty gains of one released stone are those of freeing that point |
| BoardModel.MergeSeparated | dlgo/board_slow.py:117-121 | after the merge no two same-colour groups touch |
| BoardModel.MergeLiberties | dlgo/board_slow.py:117-121 | after the merge a group's liberties are exact, except that enemy neighbours still list the played point |
| BoardModel.TakenLibertiesExact | dlgo/board_slow.py:123-126 | with the played point taken from the enemy neighbours, all liberties are exact again |
| PlaceModel.OppositeNeighbours | dlgo/board_slow.py:123-126 | every enemy neighbour group survives the merge unchanged and has the played point as a liberty, so removing it never fails |
| PlaceModel.ZeroLibertyAreCaptured | dlgo/board_slow.py:128-131 | the groups the loop finds without liberties are exactly the enemy neighbours whose only liberty was the played point |
| PlaceModel.CapturedStonesUnchanged | dlgo/board_slow.py:123-131 | the captured groups' stones are unchanged by the liberty update |
| PlaceModel.PlaceKeepsWellFormed | dlgo/board_slow.py:64-81 | playing keeps the board invariant |
| PlaceModel.PlacedNewGroup | dlgo/board_slow.py:77-81 | the occupied points are the old ones plus the stone, less the captured ones; the new group has the player's colour, all adjacent friendly stones and exact liberties |
| PlaceModel.PlacedSurvivors | dlgo/board_slow.py:64-81 | every other group keeps its colour and stones, loses the played point and gains the captured stones next to it |
| PlaceModel.PlacedColors | dlgo/board_slow.py:64-81 | the colours after the move are the old ones with the stone added and the captured stones removed |
| PlaceModel.OnlyNewGroupMayBeDead | dlgo/board_slow.py:64-81 | if every group had a liberty before the move, only the new group can be left without one |
| PlaceModel.SelfCaptureMeans | dlgo/board_slow.py:184-189 | self-capture holds exactly when the new group ends the move with no liberty |
| PlaceModel.EmptyNeighbourNotSelfCapture | dlgo/board_slow.py:184-189 | a stone next to an empty on-board point is never self-capture |
| PlaceModel.CaptureNotSelfCapture | dlgo/board_slow.py:184-189 | a move that captures is never self-capture |
| Game.NewGame | dlgo/board_slow.py:163-168 | an empty board of the given square or rectangular size, black to move, no history and no last move |
| Game.GetNextBoard | dlgo/board_slow.py:191-194 | a new board that satisfies the invariant and is the current board after the placement; the current board is unchanged |
| Game.ApplyMove | dlgo/board_slow.py:151-161 | the successor snapshot: the other player to move, this snapshot as history, the move as last move; a play gets a new board after the placement and a pass or resignation keeps the board |
| Game.BothSidesPassed | dlgo/board_slow.py:170-174 | true exactly when the last move and the move before it were both passes; false when there is no move before the last |
| Game.IsOver | dlgo/board_slow.py:176-182 | the game is over only after a resignation or a pass, and always after a resignation |
| Game.NewGameNotOver | dlgo/board_slow.py:176-178 | a new game is not over |
| Game.OverAfterMove | dlgo/board_slow.py:170-182 | after a move the game is over exactly when the move is a resignation or a pass answering a pass |
| Game.EndingMoves | dlgo/board_slow.py:170-182 | two passes end the game, a resignation ends it, and a play after a pass does not |
| Game.IsMoveSelfCapture | dlgo/board_slow.py:184-189 | true exactly for a play that is self-capture |
| Game.SeenBeforeMeans | dlgo/board_slow.py:208-214 | the chain search finds a position exactly when some snapshot of the history records it |
| Game.CheckStateExistEverBefore | dlgo/board_slow.py:208-214 | the loop's answer is that search |
| Game.DoesMoveViolateKo | dlgo/board_slow.py:200-206 | true exactly for a play whose resulting position, with the opponent to move, already occurred in the history |
| Game.NotSeenAsWritten | dlgo/board_slow.py:209-214 | a search by board identity never finds a board that no snapshot holds |
| Game.DoesMoveViolateKoAsWritten | dlgo/board_slow.py:200-214 | as written, comparing states by board identity, the test never reports ko |
| Game.IsValidMove | dlgo/board_slow.py:216-225 | legal exactly when the game is not over and the move is a pass, a resignation, or a play on an empty point that is neither self-capture nor ko |
| Regions.Box | dlgo/board_slow.py:83-85 | the board's points are exactly those on the grid |
| Regions.RegionOfIsLeast | dlgo/scoring.py:74-95 | a region holds its start, is closed under same-colour on-board neighbours and lies inside every such set |
| Regions.RegionIsUniform | dlgo/scoring.py:82-90 | every point of a region other than its start lies on the board and has the start's colour |
| Regions.RegionShared | dlgo/scoring.py:54-69 | each point of a region has that same region, so regions are equivalence classes |
| Regions.EmptyRegionBorders | dlgo/scoring.py:61-62 | the borders of an empty region never include the empty marker |
| Regions.ScanNeighbours | dlgo/scoring.py:83-94 | the region gains exactly the same-colour on-board neighbours, which are queued, and the other neighbours' colours are the point's border colours |
| Regions.CollectRegion | dlgo/scoring.py:74-95 | exactly the start's region and the colours bordering it |
| Regions.CollectRegionAsWritten | dlgo/scoring.py:74-95 | as written, the search fails exactly when the start has an on-board neighbour of its own colour |
| Regions.AsWrittenAgreesWhenItReturns | dlgo/scoring.py:74-95 | when the search as written returns, its answer is the region |
| Regions.AsWrittenFailsOnTwoEmptyPoints | dlgo/scoring.py:91 | on an empty 1x2 board the search as written fails, though the region is both points |
| Scoring.ClassifyMeans | dlgo/scoring.py:56-66 | a stone counts for its colour; an empty point is a colour's territory exactly when that colour alone borders its region, and dame when its region has no border or both colours |
| Scoring.RegionClassifiedAlike | dlgo/scoring.py:68-69 | every point of an empty region gets the status of the point it was found from |
| Scoring.RegionStatus | dlgo/scoring.py:61-66 | a single border colour gives its territory, anything else gives dame |
| Scoring.FillRegion | dlgo/scoring.py:68-69 | every point of the region gets the status, and the other entries are kept |
| Scoring.ScanRegion | dlgo/scoring.py:54-69 | a region met at an unclassified point has no classified point, so the scan never classifies a point twice |
| Scoring.EvaluateTerritory | dlgo/scoring.py:49-71 | the tally of the classification of every point of the board |
| Scoring.TallyTerritory | dlgo/scoring.py:6-25 | each count is the number of points with that status, and the dame list holds each dame point once |
| Scoring.CountsSum | dlgo/scoring.py:14-25 | the five counts over a set of classified points add up to its size |
| Scoring.EvaluatedCountsCoverBoard | dlgo/scoring.py:49-71 | the five counts of an evaluated board add up to rows times columns |
| Scoring.GameResult.Winner | dlgo/scoring.py:29-34 | black wins exactly when its score is strictly above white's plus komi, so a tie goes to white |
| Scoring.GameResult.Describe | dlgo/scoring.py:41-46 | the prefix is "B+" exactly when black wins and "W+" otherwise; the amount is never negative, and positive when black wins |
| Scoring.GameResult.WinningMargin | dlgo/scoring.py:36-39 | the margin is never negative and is the winner's lead: black's score less white's plus komi when black wins, the reverse otherwise |
| Scoring.DescribeAgrees | dlgo/scoring.py:28-46 | the text names the winner and gives the margin, which is the winner's lead over the loser |
| Scoring.TieGoesToWhite | dlgo/scoring.py:29-34 | a tie goes to white at a margin of zero |
| Scoring.NoTieWithHalfKomi | dlgo/scoring.py:98-104 | with whole-point scores and a komi of 7.5 there is no tie, and the margin is at least half a point |
| Scoring.ComputeGameResult | dlgo/scoring.py:98-104 | black's score is its territory plus stones, white's the same, and the komi is 7.5 |
| Coords.ColsShape | dlgo/utils.py:3 | nineteen distinct capitals from A to T, none of them I |
| Coords.IndexOf | dlgo/utils.py:33 | the first position of the letter, or none exactly when it is absent |
| Coords.IntTextRoundTrip | dlgo/utils.py:34 | reading back an integer's decimal text gives that integer |
| Coords.ParseNat | dlgo/utils.py:34 | a value exactly for a non-empty string of digits |
| Coords.ParseInt | dlgo/utils.py:34 | a value exactly for digits, or a `+` or `-` followed by digits; the value is the digits' value, negated after `-` |
| Coords.CoordsFromPoint | dlgo/utils.py:38-42 | text exactly for columns -18 to 19; for columns 1 to 19 it is the column's letter then the row, and for columns -18 to 0 the letter at position `col + 18`, as a negative index counts from the end |
| Coords.PointFromCoords | dlgo/utils.py:32-35 | fails exactly on empty text, an unknown letter or an unreadable row; otherwise it gives the point whose column is the letter's first position plus one and whose row is the rest read as an integer |
| Coords.CoordsRoundTrip | dlgo/utils.py:32-42 | a point in columns 1 to 19 reads back from its text |
| Coords.ColumnZeroWraps | dlgo/utils.py:38-42 | column 0 is written with the last letter, which reads back as column 19 |

## Left out

- The module that defines players and points (`dlgo/types.py`) is not part of this model. `GoTypes` restates what the engine uses: the two colours, `other`, and the four neighbours in the order row - 1, row + 1, column - 1, column + 1.
- `print_move` and `print_board` write to the console and are left out.
- A captured point is left behind in the source's grid with the value `None`. Every read treats that exactly like an absent key, so the model deletes the key.
- Groups are told apart by id, not by object identity. `BoardModel.DistinctIdsDistinctGroups` shows that the source's value comparison of groups agrees with identity.
- Game.IsOver: requires that a snapshot with a last move has a snapshot before it, which every snapshot built by `NewGame` and `ApplyMove` has. On a hand-built snapshot without one, the source answers true for a resignation and otherwise fails reading the missing previous snapshot; the model does not cover that case.
- Game.IsValidMove: requires a play's point to be on the board. In the source an off-board play fails the placement's assertion, which the model does not represent.
- Game.IsMoveSelfCapture and Game.DoesMoveViolateKo: require a play's point to be on the board and empty. In the source they place a stone on a copy, and the placement asserts both.
- Boards.Board.PlaceStone: requires the point to be on the board and empty. These are the source's own assertions (`_check_point_validity`), and an assertion failure is not modelled.
- Moves.NewMove: requires exactly one of point, pass and resign. The guard as written accepts all three at once (see Findings).
- A position in the history is compared by its colours, not by its group objects. Two boards with the same colours on every point are the same position.
- Regions.CollectRegion: models the search as intended, with the union of point sets. `Regions.CollectRegionAsWritten` models the `+=` as written (see Findings).
- Regions.CollectRegion: uses a worklist instead of recursion, so Python's recursion limit on large regions is not modelled. The model also does not fix the order in which points are visited.
- Scoring.TallyTerritory: the dame points are listed in no particular order. The source lists them in dictionary order, that is, in the order the scan first classified them.
- Scoring.GameResult.Describe: returns the prefix and the amount. It does not format the amount with one decimal place (`%.1f`).
- Coords.PointFromCoords: accepts an optional sign followed by ASCII digits. Python's `int()` also accepts surrounding whitespace, underscores between digits and non-ASCII digits, which this model rejects.
- Coords.CoordsFromPoint: writes the row as plain decimal with a minus sign when negative, as `%d` does. Columns outside -18..19 have no letter and give no text, where the source raises an error.
- Scores are modelled as reals to carry the komi of 7.5. No floating-point rounding is modelled.

## Findings

| source | as written | input that shows it | evidently intended | confidence | as-written member | corrected member |
|---|---|---|---|---|---|---|
| dlgo/board_slow.py:7 | `(point is not None) ^ is_pass ^ is_resign` is true when all three are given | `Move(point=p, is_pass=True, is_resign=True)` passes the assertion and is a play, a pass and a resignation at once | exactly one of point, pass and resign | not executed | Moves.GuardAcceptsAllThree | Moves.NewMove |
| dlgo/board_slow.py:200-214 | the ko test compares `(player, board)` tuples, and a board has no equality of its own, so boards are compared by identity; the candidate board is a fresh deep copy and never matches | any ko recapture, e.g. retaking a ko at once: the test returns false | compare positions, i.e. the player to move and the stones on the board | not executed | Game.DoesMoveViolateKoAsWritten | Game.DoesMoveViolateKo |
| dlgo/scoring.py:91 | `all_points += points` applies `+=` to a set, which Python sets do not support, so the recursion fails with a type error whenever a region has a second point | an empty 1x2 board: scoring it raises at the first point | `all_points \|= set(points)`, the union of the regions found | not executed | Regions.AsWrittenFailsOnTwoEmptyPoints | Regions.CollectRegion |
