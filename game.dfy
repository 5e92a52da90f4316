/**
 * The game: an immutable chain of snapshots, each holding a board, the
 * player to move, the snapshot before it and the move that led to it;
 * the end-of-game test, self-capture, situational ko and move legality.
 */
module Game {
  import opened Wrappers
  import opened GoTypes
  import opened GoStrings
  import opened BoardModel
  import opened PlaceModel
  import opened Boards
  import opened Moves

  datatype GameState = GameState(board: Board, nextPlayer: Player, previousState: Option<GameState>, lastMove: Option<Move>)

  /** The board size a new game is asked for: one side, or rows and columns. */
  datatype BoardSize = Square(size: int) | Rect(rows: int, cols: int)

  /** The snapshot that follows `s` once `move` is made and `board` is the
    * resulting board. */
  function Successor(s: GameState, board: Board, move: Move): GameState
  {
    GameState(board, s.nextPlayer.Other(), Some(s), Some(move))
  }

  /** A new game: an empty board of the given size, black to move, nothing
    * before it. */
  method NewGame(boardSize: BoardSize) returns (s: GameState)
    ensures fresh(s.board) && s.board.Valid()
    ensures boardSize.Square? ==> s.board.numRows == boardSize.size && s.board.numCols == boardSize.size
    ensures boardSize.Rect? ==> s.board.numRows == boardSize.rows && s.board.numCols == boardSize.cols
    ensures s.board.grid == map[] && s.board.strings == map[]
    ensures s.nextPlayer == Black && s.previousState.None? && s.lastMove.None?
  {
    var rows, cols := if boardSize.Square? then boardSize.size else boardSize.rows,
                      if boardSize.Square? then boardSize.size else boardSize.cols;
    var board := new Board(rows, cols);
    s := GameState(board, Black, None, None);
  }

  /** A copy of `board` with a stone of `player` at `point`; `board` itself is
    * left as it was. */
  method GetNextBoard(board: Board, player: Player, point: Point) returns (next: Board)
    requires board.Valid()
    requires board.IsPointOnGrid(point) && point !in board.grid
    ensures fresh(next) && next.Valid()
    ensures next.numRows == board.numRows && next.numCols == board.numCols
    ensures next.grid == PlacedGrid(board.numRows, board.numCols, board.grid, board.strings, board.nextId, player, point)
    ensures next.strings == PlacedArena(board.numRows, board.numCols, board.grid, board.strings, board.nextId, player, point)
  {
    next := new Board.CopyOf(board);
    next.PlaceStone(player, point);
  }

  /** Applies `move`: a play places the stone on a copy of the board, a pass
    * or a resignation keeps the board; the turn passes to the opponent and
    * the new snapshot records `s` and `move`. */
  method ApplyMove(s: GameState, move: Move) returns (t: GameState)
    requires move.isPlay ==> move.point.Some? && s.board.Valid()
    requires move.isPlay ==> s.board.IsPointOnGrid(move.point.value) && move.point.value !in s.board.grid
    ensures t == Successor(s, t.board, move)
    ensures !move.isPlay ==> t.board == s.board
    ensures move.isPlay ==> fresh(t.board) && t.board.Valid()
    ensures move.isPlay ==>
              && t.board.numRows == s.board.numRows && t.board.numCols == s.board.numCols
              && t.board.grid == PlacedGrid(s.board.numRows, s.board.numCols, s.board.grid, s.board.strings,
                                            s.board.nextId, s.nextPlayer, move.point.value)
              && t.board.strings == PlacedArena(s.board.numRows, s.board.numCols, s.board.grid, s.board.strings,
                                                s.board.nextId, s.nextPlayer, move.point.value)
  {
    var nextBoard := s.board;
    if move.isPlay {
      nextBoard := GetNextBoard(s.board, s.nextPlayer, move.point.value);
    }
    t := GameState(nextBoard, s.nextPlayer.Other(), Some(s), Some(move));
  }

  // ---------------------------------------------------------------------
  // End of game

  /** Both of the last two moves were passes; reached only once a move has
    * been made, so there is a snapshot before this one. */
  predicate BothSidesPassed(s: GameState)
    requires s.lastMove.Some? && s.previousState.Some?
    ensures BothSidesPassed(s) <==>
              s.lastMove.value.isPass &&
              s.previousState.value.lastMove.Some? && s.previousState.value.lastMove.value.isPass
  {
    var secondLast := s.previousState.value.lastMove;
    if secondLast.None? then false else s.lastMove.value.isPass && secondLast.value.isPass
  }

  /** The game is over after a resignation or two passes in a row. */
  predicate IsOver(s: GameState)
    requires s.lastMove.Some? ==> s.previousState.Some?
    ensures IsOver(s) ==> s.lastMove.Some? && (s.lastMove.value.isResign || s.lastMove.value.isPass)
    ensures s.lastMove.Some? && s.lastMove.value.isResign ==> IsOver(s)
  {
    if s.lastMove.None? then false
    else if s.lastMove.value.isResign then true
    else BothSidesPassed(s)
  }

  /** A new game is not over. */
  lemma NewGameNotOver(board: Board)
    ensures !IsOver(GameState(board, Black, None, None))
  {
  }

  /** After a move, the game is over exactly when the move is a resignation,
    * or a pass answering a pass. */
  lemma OverAfterMove(s: GameState, board: Board, move: Move)
    ensures IsOver(Successor(s, board, move)) <==>
              move.isResign || (move.isPass && s.lastMove.Some? && s.lastMove.value.isPass)
  {
  }

  /** Two passes end the game, a resignation ends it, and a play after a pass
    * does not. */
  lemma EndingMoves(s: GameState, b1: Board, b2: Board, p: Point)
    ensures IsOver(Successor(Successor(s, b1, PassTurn()), b2, PassTurn()))
    ensures IsOver(Successor(s, b1, Resign()))
    ensures !IsOver(Successor(Successor(s, b1, PassTurn()), b2, Play(p)))
  {
    OverAfterMove(Successor(s, b1, PassTurn()), b2, PassTurn());
    OverAfterMove(s, b1, Resign());
    OverAfterMove(Successor(s, b1, PassTurn()), b2, Play(p));
  }

  // ---------------------------------------------------------------------
  // Self-capture

  /** Whether `move` by `player` would leave the stone's own group without
    * liberties once its captures are resolved. The source places the stone
    * on a copy, which must be possible: the point must be on the board and
    * empty. */
  method IsMoveSelfCapture(s: GameState, player: Player, move: Move) returns (r: bool)
    requires s.board.Valid()
    requires move.isPlay ==> move.point.Some? && s.board.IsPointOnGrid(move.point.value) && move.point.value !in s.board.grid
    ensures r <==> move.isPlay && SelfCapture(s.board.numRows, s.board.numCols, s.board.grid, s.board.strings, player, move.point.value)
  {
    if !move.isPlay {
      return false;
    }
    var point := move.point.value;
    var nextBoard := GetNextBoard(s.board, player, point);
    SelfCaptureMeans(s.board.numRows, s.board.numCols, s.board.grid, s.board.strings, s.board.nextId, player, point);
    PlacedNewGroup(s.board.numRows, s.board.numCols, s.board.grid, s.board.strings, s.board.nextId, player, point);
    var newString := nextBoard.GetGoStringOnPoint(point);
    assert newString == Some(nextBoard.strings[s.board.nextId]);
    r := newString.value.NumLiberties() == 0;
  }

  // ---------------------------------------------------------------------
  // Ko

  /** The boards of `past` and of every snapshot before it. */
  function BoardsOf(past: Option<GameState>): set<Board>
    decreases past
  {
    if past.None? then {} else {past.value.board} + BoardsOf(past.value.previousState)
  }

  /** The snapshots from `past` back to the start of the game, newest first. */
  function History(past: Option<GameState>): (h: seq<GameState>)
    ensures past.None? <==> h == []
    decreases past
  {
    if past.None? then [] else [past.value] + History(past.value.previousState)
  }

  /** The position a snapshot records: `player` to move, `colors` on the
    * board. */
  predicate Matches(g: GameState, player: Player, colors: map<Point, Player>)
    reads g.board
  {
    g.nextPlayer == player && g.board.Colors() == colors
  }

  /** Whether some snapshot from `past` back records `player` to move and
    * the colours `colors`. */
  predicate SeenBefore(player: Player, colors: map<Point, Player>, past: Option<GameState>)
    reads BoardsOf(past)
    decreases past
  {
    past.Some? && (Matches(past.value, player, colors) || SeenBefore(player, colors, past.value.previousState))
  }

  /** `SeenBefore` is a search of the history. */
  lemma {:induction false} SeenBeforeMeans(player: Player, colors: map<Point, Player>, past: Option<GameState>)
    ensures SeenBefore(player, colors, past) <==>
              exists i :: 0 <= i < |History(past)| && Matches(History(past)[i], player, colors)
    decreases past
  {
    if past.Some? {
      var h := History(past);
      var rest := past.value.previousState;
      var hr := History(rest);
      SeenBeforeMeans(player, colors, rest);
      assert h == [past.value] + hr;
      if SeenBefore(player, colors, past) {
        if Matches(past.value, player, colors) {
          assert Matches(h[0], player, colors);
        } else {
          var i :| 0 <= i < |hr| && Matches(hr[i], player, colors);
          assert h[i + 1] == hr[i];
        }
      }
      if exists i :: 0 <= i < |h| && Matches(h[i], player, colors) {
        var i :| 0 <= i < |h| && Matches(h[i], player, colors);
        if i > 0 {
          assert h[i] == hr[i - 1];
        }
      }
    }
  }

  /** Walks the chain from `past` back, looking for a snapshot with
    * `player` to move and `colors` on the board. */
  method CheckStateExistEverBefore(player: Player, colors: map<Point, Player>, past: Option<GameState>) returns (found: bool)
    ensures found == SeenBefore(player, colors, past)
  {
    var state := past;
    while state.Some?
      invariant SeenBefore(player, colors, past) == SeenBefore(player, colors, state)
      decreases state
    {
      if state.value.nextPlayer == player && state.value.board.Colors() == colors {
        assert Matches(state.value, player, colors);
        return true;
      }
      state := state.value.previousState;
    }
    return false;
  }

  /** Whether `move` by `player` would recreate an earlier position with the
    * same player to move. */
  method DoesMoveViolateKo(s: GameState, player: Player, move: Move) returns (r: bool)
    requires s.board.Valid()
    requires move.isPlay ==> move.point.Some? && s.board.IsPointOnGrid(move.point.value) && move.point.value !in s.board.grid
    ensures r <==> move.isPlay &&
                   SeenBefore(player.Other(), PlacedPosition(s.board.numRows, s.board.numCols, s.board.grid, s.board.strings,
                                                             player, move.point.value), s.previousState)
  {
    if !move.isPlay {
      return false;
    }
    var point := move.point.value;
    var nextBoard := GetNextBoard(s.board, player, point);
    PlacedColors(s.board.numRows, s.board.numCols, s.board.grid, s.board.strings, s.board.nextId, player, point);
    r := CheckStateExistEverBefore(player.Other(), nextBoard.Colors(), s.previousState);
  }

  /** The chain search as written: a snapshot matches when it holds the very
    * same board object. */
  predicate SeenBeforeAsWritten(player: Player, board: Board, past: Option<GameState>)
    decreases past
  {
    past.Some? &&
    ((past.value.nextPlayer == player && past.value.board == board) ||
     SeenBeforeAsWritten(player, board, past.value.previousState))
  }

  /** A board that no earlier snapshot holds is never found. */
  lemma {:induction false} NotSeenAsWritten(player: Player, board: Board, past: Option<GameState>)
    requires board !in BoardsOf(past)
    ensures !SeenBeforeAsWritten(player, board, past)
    decreases past
  {
    if past.Some? {
      NotSeenAsWritten(player, board, past.value.previousState);
    }
  }

  /** Every board of the history already exists. */
  lemma {:induction false} BoardsAllocated(past: Option<GameState>)
    ensures forall b :: b in BoardsOf(past) ==> allocated(b)
    decreases past
  {
    if past.Some? {
      BoardsAllocated(past.value.previousState);
    }
  }

  /** The ko test as written: the candidate board is a fresh copy, so no
    * earlier snapshot holds it and the test never reports ko. */
  method DoesMoveViolateKoAsWritten(s: GameState, player: Player, move: Move) returns (r: bool)
    requires s.board.Valid()
    requires move.isPlay ==> move.point.Some? && s.board.IsPointOnGrid(move.point.value) && move.point.value !in s.board.grid
    ensures !r
  {
    if !move.isPlay {
      return false;
    }
    ghost var earlier := BoardsOf(s.previousState);
    BoardsAllocated(s.previousState);
    var nextBoard := GetNextBoard(s.board, player, move.point.value);
    assert nextBoard !in earlier;
    NotSeenAsWritten(player.Other(), nextBoard, s.previousState);
    r := SeenBeforeAsWritten(player.Other(), nextBoard, s.previousState);
  }

  // ---------------------------------------------------------------------
  // Legality

  /** Whether `move` is legal for the player to move: never once the game is
    * over; always for a pass or a resignation; for a play, when the point is
    * empty, the move is not self-capture and it does not violate ko. The
    * source places the stone on a copy to decide the last two, so the point
    * of a play must be on the board. */
  method IsValidMove(s: GameState, move: Move) returns (valid: bool)
    requires s.lastMove.Some? ==> s.previousState.Some?
    requires s.board.Valid()
    requires !IsOver(s) && !move.isPass && !move.isResign ==>
               move.isPlay && move.point.Some? && s.board.IsPointOnGrid(move.point.value)
    ensures valid <==>
              && !IsOver(s)
              && (move.isPass || move.isResign ||
                  (var p := move.point.value;
                   var b := s.board;
                   && p !in b.grid
                   && !SelfCapture(b.numRows, b.numCols, b.grid, b.strings, s.nextPlayer, p)
                   && !SeenBefore(s.nextPlayer.Other(), PlacedPosition(b.numRows, b.numCols, b.grid, b.strings, s.nextPlayer, p),
                                  s.previousState)))
  {
    if IsOver(s) {
      return false;
    }
    if move.isPass || move.isResign {
      return true;
    }
    var point := move.point.value;
    var color := s.board.GetColorOnPoint(point);
    ColorsOfKeys(s.board.numRows, s.board.numCols, s.board.grid, s.board.strings);
    if color.Some? {
      return false;
    }
    ColorsOfKeys(s.board.numRows, s.board.numCols, s.board.grid, s.board.strings);
    var selfCapture := IsMoveSelfCapture(s, s.nextPlayer, move);
    if selfCapture {
      return false;
    }
    var ko := DoesMoveViolateKo(s, s.nextPlayer, move);
    valid := !ko;
  }
}
