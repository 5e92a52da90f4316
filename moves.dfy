/**
 * Moves: play a stone at a point, pass, or resign. The source keeps the
 * three possibilities as three flags side by side, with `isPlay` recording
 * whether a point was given, and its constructor guards them with an
 * exclusive-or.
 */
module Moves {
  import opened Wrappers
  import opened GoTypes

  datatype Move = Move(point: Option<Point>, isPlay: bool, isPass: bool, isResign: bool)

  /** Exactly one of three flags is set. */
  predicate ExactlyOne(a: bool, b: bool, c: bool)
  {
    (a && !b && !c) || (!a && b && !c) || (!a && !b && c)
  }

  /** A move of exactly one kind, whose `isPlay` says whether it has a point. */
  predicate WellFormedMove(m: Move)
  {
    ExactlyOne(m.isPlay, m.isPass, m.isResign) && (m.isPlay <==> m.point.Some?)
  }

  /** The constructor's guard as written: the exclusive-or of "a point is
    * given", "pass" and "resign". */
  predicate GuardAsWritten(hasPoint: bool, isPass: bool, isResign: bool)
  {
    (hasPoint != isPass) != isResign
  }

  /** The constructor with the guard as written. */
  function NewMoveAsWritten(point: Option<Point>, isPass: bool, isResign: bool): (m: Move)
    requires GuardAsWritten(point.Some?, isPass, isResign)
    ensures m.isPlay == point.Some? && m.point == point && m.isPass == isPass && m.isResign == isResign
  {
    Move(point, point.Some?, isPass, isResign)
  }

  /** The exclusive-or accepts exactly one flag, and also all three. */
  lemma GuardAsWrittenMeans(a: bool, b: bool, c: bool)
    ensures GuardAsWritten(a, b, c) <==> ExactlyOne(a, b, c) || (a && b && c)
  {
  }

  /** The input that shows the guard's gap: a point together with pass and
    * resign passes the guard and builds a move of all three kinds at once. */
  lemma GuardAcceptsAllThree(p: Point)
    ensures GuardAsWritten(true, true, true)
    ensures !WellFormedMove(NewMoveAsWritten(Some(p), true, true))
  {
  }

  /** The constructor with the intended guard: exactly one kind. */
  function NewMove(point: Option<Point>, isPass: bool, isResign: bool): (m: Move)
    requires ExactlyOne(point.Some?, isPass, isResign)
    ensures WellFormedMove(m)
    ensures m.point == point && m.isPass == isPass && m.isResign == isResign
  {
    Move(point, point.Some?, isPass, isResign)
  }

  /** The intended guard is the written one without the all-three case, so
    * every move it admits the written guard admits too. */
  lemma IntendedGuardIsStricter(a: bool, b: bool, c: bool)
    ensures ExactlyOne(a, b, c) <==> GuardAsWritten(a, b, c) && !(a && b && c)
  {
  }

  /** Play a stone at `p`. */
  function Play(p: Point): (m: Move)
    ensures WellFormedMove(m)
    ensures m.isPlay && m.point == Some(p) && !m.isPass && !m.isResign
  {
    NewMove(Some(p), false, false)
  }

  /** Pass the turn. */
  function PassTurn(): (m: Move)
    ensures WellFormedMove(m)
    ensures m.isPass && !m.isPlay && !m.isResign && m.point.None?
  {
    NewMove(None, true, false)
  }

  /** Resign the game. */
  function Resign(): (m: Move)
    ensures WellFormedMove(m)
    ensures m.isResign && !m.isPlay && !m.isPass && m.point.None?
  {
    NewMove(None, false, true)
  }

  /** Every well-formed move is one the three factories build. */
  lemma WellFormedMoveIsFactoryMade(m: Move)
    requires WellFormedMove(m)
    ensures (m.isPlay && m == Play(m.point.value)) || m == PassTurn() || m == Resign()
  {
  }
}
