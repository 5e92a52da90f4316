/**
 * Board coordinates as text: a column letter followed by the row number,
 * e.g. "C4". The column letters skip "I".
 */
module Coords {
  import opened Wrappers
  import opened GoTypes

  /** The column letters, left to right. */
  const Cols: string := "ABCDEFGHJKLMNOPQRST"

  /** The column letters are nineteen distinct capitals from A to T, none of
    * them I. */
  lemma ColsShape()
    ensures |Cols| == 19
    ensures forall i, j :: 0 <= i < j < |Cols| ==> Cols[i] != Cols[j]
    ensures forall i :: 0 <= i < |Cols| ==> 'A' <= Cols[i] <= 'T' && Cols[i] != 'I'
    ensures 'I' !in Cols
  {
    forall i, j | 0 <= i < j < |Cols| ensures Cols[i] != Cols[j]
    {
      assert forall k :: 0 <= k < |Cols| - 1 ==> Cols[k] < Cols[k + 1];
      StrictlyIncreasing(Cols, i, j);
    }
  }

  /** In a string whose neighbouring letters increase, later letters are larger. */
  lemma {:induction false} StrictlyIncreasing(s: string, i: int, j: int)
    requires forall k :: 0 <= k < |s| - 1 ==> s[k] < s[k + 1]
    requires 0 <= i < j < |s|
    ensures s[i] < s[j]
    decreases j - i
  {
    if j > i + 1 {
      StrictlyIncreasing(s, i + 1, j);
    }
  }

  /** The position of the first occurrence of `ch` in `s`, if any. */
  function IndexOf(s: string, ch: char): (r: Option<nat>)
    ensures r.None? <==> ch !in s
    ensures r.Some? ==> r.value < |s| && s[r.value] == ch && ch !in s[..r.value]
  {
    if |s| == 0 then None
    else if s[0] == ch then Some(0)
    else match IndexOf(s[1..], ch)
      case None => None
      case Some(i) =>
        assert s[..i + 1] == [s[0]] + s[1..][..i];
        Some(i + 1)
  }

  /** The digit character for `d`. */
  function DigitChar(d: nat): char
    requires d < 10
  {
    "0123456789"[d]
  }

  predicate IsDigit(ch: char)
  {
    '0' <= ch <= '9'
  }

  function DigitValue(ch: char): nat
    requires IsDigit(ch)
  {
    (ch as int - '0' as int) as nat
  }

  lemma DigitRoundTrip(d: nat)
    requires d < 10
    ensures IsDigit(DigitChar(d)) && DigitValue(DigitChar(d)) == d
  {
  }

  /** The decimal text of a natural number, without leading zeros. */
  function NatText(n: nat): (s: string)
    ensures |s| >= 1 && forall i :: 0 <= i < |s| ==> IsDigit(s[i])
    decreases n
  {
    if n < 10 then [DigitChar(n)] else NatText(n / 10) + [DigitChar(n % 10)]
  }

  /** The decimal text of an integer, with a minus sign when negative. */
  function IntText(n: int): (s: string)
    ensures |s| >= 1
  {
    if n < 0 then "-" + NatText(-n) else NatText(n)
  }

  /** The value of a string of digits. */
  function DigitsValue(s: string): nat
    requires forall i :: 0 <= i < |s| ==> IsDigit(s[i])
    decreases |s|
  {
    if |s| == 0 then 0 else DigitsValue(s[..|s| - 1]) * 10 + DigitValue(s[|s| - 1])
  }

  /** Reading an integer: an optional sign followed by one or more digits. */
  function ParseInt(s: string): (r: Option<int>)
    ensures r.Some? <==>
              ParseNat(s).Some? || (|s| >= 1 && (s[0] == '-' || s[0] == '+') && ParseNat(s[1..]).Some?)
    ensures ParseNat(s).Some? ==> r == Some(ParseNat(s).value)
    ensures |s| >= 1 && s[0] == '+' && ParseNat(s[1..]).Some? ==> r == Some(ParseNat(s[1..]).value)
    ensures |s| >= 1 && s[0] == '-' && ParseNat(s[1..]).Some? ==> r == Some(-(ParseNat(s[1..]).value as int))
  {
    if |s| >= 1 && (s[0] == '-' || s[0] == '+') then
      match ParseNat(s[1..])
      case None => None
      case Some(n) =>
        var m: int := n;
        Some(if s[0] == '-' then -m else m)
    else
      match ParseNat(s)
      case None => None
      case Some(n) => Some(n)
  }

  /** Reading one or more digits. */
  function ParseNat(s: string): (r: Option<nat>)
    ensures r.Some? <==> |s| >= 1 && forall i :: 0 <= i < |s| ==> IsDigit(s[i])
  {
    if |s| >= 1 && forall i :: 0 <= i < |s| ==> IsDigit(s[i]) then Some(DigitsValue(s)) else None
  }

  /** Reading back the text of a natural number gives that number. */
  lemma {:induction false} NatTextRoundTrip(n: nat)
    ensures DigitsValue(NatText(n)) == n
    decreases n
  {
    if n >= 10 {
      NatTextRoundTrip(n / 10);
      var s := NatText(n);
      assert s[..|s| - 1] == NatText(n / 10);
      DigitRoundTrip(n % 10);
    } else {
      DigitRoundTrip(n);
    }
  }

  /** Reading back the text of an integer gives that integer. */
  lemma IntTextRoundTrip(n: int)
    ensures ParseInt(IntText(n)) == Some(n)
  {
    if n < 0 {
      var t := NatText(-n);
      NatTextRoundTrip(-n);
      assert ParseNat(t) == Some(-n);
      var s := "-" + t;
      assert s[0] == '-' && s[1..] == t;
      assert IntText(n) == s;
    } else {
      var t := NatText(n);
      NatTextRoundTrip(n);
      assert IsDigit(t[0]);
      assert ParseNat(t) == Some(n);
      assert IntText(n) == t;
    }
  }

  /**
   * The text of a point: its column letter and its row number. The letter is
   * looked up at position `col - 1`, and a negative position counts from the
   * end, so columns -18 to 0 get the letters again from the last one back;
   * other columns have no letter.
   */
  function CoordsFromPoint(p: Point): (r: Option<string>)
    ensures r.Some? <==> -18 <= p.col <= 19
    ensures 1 <= p.col <= 19 ==> r == Some([Cols[p.col - 1]] + IntText(p.row))
    ensures -18 <= p.col <= 0 ==> r == Some([Cols[p.col + 18]] + IntText(p.row))
  {
    var i := p.col - 1;
    if -|Cols| <= i < |Cols| then
      Some([Cols[if i < 0 then i + |Cols| else i]] + IntText(p.row))
    else
      None
  }

  /** The point named by a text: the column from the position of its first
    * character among the column letters, the row from the rest. */
  function PointFromCoords(coord: string): (r: Option<Point>)
    ensures |coord| == 0 || coord[0] !in Cols || ParseInt(coord[1..]).None? ==> r.None?
    ensures r.Some? ==> 1 <= r.value.col <= 19 && Cols[r.value.col - 1] == coord[0] &&
                        ParseInt(coord[1..]) == Some(r.value.row)
    ensures |coord| >= 1 && coord[0] in Cols && ParseInt(coord[1..]).Some? ==>
              r == Some(Point(ParseInt(coord[1..]).value, IndexOf(Cols, coord[0]).value + 1))
  {
    if |coord| == 0 then None
    else
      match IndexOf(Cols, coord[0])
      case None => None
      case Some(i) =>
        match ParseInt(coord[1..])
        case None => None
        case Some(row) => Some(Point(row, i + 1))
  }

  /** A point on a board of up to nineteen columns reads back from its text. */
  lemma CoordsRoundTrip(p: Point)
    requires 1 <= p.col <= 19
    ensures PointFromCoords(CoordsFromPoint(p).value) == Some(p)
  {
    var s := CoordsFromPoint(p).value;
    assert s[1..] == IntText(p.row);
    IntTextRoundTrip(p.row);
    ColsShape();
  }

  /** The wrap-around: column zero is written with the last letter, which
    * reads back as column nineteen. */
  lemma ColumnZeroWraps(row: int)
    ensures CoordsFromPoint(Point(row, 0)) == Some("T" + IntText(row))
    ensures PointFromCoords(CoordsFromPoint(Point(row, 0)).value) == Some(Point(row, 19))
  {
    var s := CoordsFromPoint(Point(row, 0)).value;
    assert s[0] == 'T' && s[1..] == IntText(row);
    IntTextRoundTrip(row);
    ColsShape();
    assert IndexOf(Cols, 'T') == Some(18);
  }
}
