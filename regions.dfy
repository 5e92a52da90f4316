/**
 * Regions for scoring: the maximal 4-connected set of points of one colour
 * (or of empty points) around a starting point, and the colours found just
 * outside it.
 */
module Regions {
  import opened Wrappers
  import opened GoTypes
  import Boards

  /** The colour on `p` in a colour map, none for an empty point. */
  function ColorAt(colors: map<Point, Player>, p: Point): Option<Player>
  {
    if p in colors then Some(colors[p]) else None
  }

  /** All points of a `rows` by `cols` board. */
  function Box(rows: int, cols: int): (b: set<Point>)
    ensures forall p :: p in b <==> OnGrid(rows, cols, p)
  {
    set r: int, c: int | 1 <= r <= rows && 1 <= c <= cols :: Point(r, c)
  }

  /** One step of the flood fill never leaves `s`: every on-board neighbour
    * of a point of `s` that has colour `here` is in `s` too. */
  ghost predicate Closed(rows: int, cols: int, colors: map<Point, Player>, here: Option<Player>, s: set<Point>)
  {
    forall p, n :: p in s && n in Neighbors(p) && OnGrid(rows, cols, n) && ColorAt(colors, n) == here ==> n in s
  }

  /** The region of `start`: the points that every closed set containing
    * `start` contains, i.e. the least such set. */
  ghost function RegionOf(rows: int, cols: int, colors: map<Point, Player>, start: Point): set<Point>
  {
    var here := ColorAt(colors, start);
    set q | q in Box(rows, cols) + {start} &&
      forall s :: start in s && Closed(rows, cols, colors, here, s) ==> q in s
  }

  /** The colours, other than `here`, on the board just outside `region`. */
  function BorderColors(rows: int, cols: int, colors: map<Point, Player>, here: Option<Player>, region: set<Point>): set<Option<Player>>
  {
    set p, n | p in region && n in Neighbors(p) && OnGrid(rows, cols, n) && ColorAt(colors, n) != here :: ColorAt(colors, n)
  }

  /** The region is the least closed set containing its start. */
  lemma RegionOfIsLeast(rows: int, cols: int, colors: map<Point, Player>, start: Point)
    ensures start in RegionOf(rows, cols, colors, start)
    ensures Closed(rows, cols, colors, ColorAt(colors, start), RegionOf(rows, cols, colors, start))
    ensures forall s :: start in s && Closed(rows, cols, colors, ColorAt(colors, start), s) ==>
      RegionOf(rows, cols, colors, start) <= s
  {
    var here := ColorAt(colors, start);
    var r := RegionOf(rows, cols, colors, start);
    forall p, n | p in r && n in Neighbors(p) && OnGrid(rows, cols, n) && ColorAt(colors, n) == here
      ensures n in r
    {
      assert n in Box(rows, cols);
    }
  }

  /** A least closed set containing the start is the region. */
  lemma LeastIsRegion(rows: int, cols: int, colors: map<Point, Player>, start: Point, r: set<Point>)
    requires start in r
    requires Closed(rows, cols, colors, ColorAt(colors, start), r)
    requires forall s :: start in s && Closed(rows, cols, colors, ColorAt(colors, start), s) ==> r <= s
    ensures r == RegionOf(rows, cols, colors, start)
  {
    RegionOfIsLeast(rows, cols, colors, start);
  }

  /** Every point of a region other than its start is on the board and has the
    * start's colour. */
  lemma RegionIsUniform(rows: int, cols: int, colors: map<Point, Player>, start: Point)
    ensures forall q :: q in RegionOf(rows, cols, colors, start) && q != start ==>
      OnGrid(rows, cols, q) && ColorAt(colors, q) == ColorAt(colors, start)
  {
    var here := ColorAt(colors, start);
    var u := set q | q in Box(rows, cols) && ColorAt(colors, q) == here;
    RegionOfIsLeast(rows, cols, colors, start);
    assert Closed(rows, cols, colors, here, u + {start});
  }

  /** What is left of a region after removing a closed set of its colour
    * from it is closed again, by symmetry of adjacency. */
  lemma DifferenceClosed(rows: int, cols: int, colors: map<Point, Player>, here: Option<Player>, rs: set<Point>, rq: set<Point>)
    requires Closed(rows, cols, colors, here, rs)
    requires Closed(rows, cols, colors, here, rq)
    requires forall x :: x in rs ==> OnGrid(rows, cols, x) && ColorAt(colors, x) == here
    ensures Closed(rows, cols, colors, here, rs - rq)
  {
    var t := rs - rq;
    forall p, n | p in t && n in Neighbors(p) && OnGrid(rows, cols, n) && ColorAt(colors, n) == here
      ensures n in t
    {
      assert n in rs;
      NeighborsSymmetric(p, n);
      assert n in rq ==> p in rq;
    }
  }

  /** Regions are the classes of an equivalence: every point of an on-board
    * region has that same region. */
  lemma RegionShared(rows: int, cols: int, colors: map<Point, Player>, start: Point, q: Point)
    requires OnGrid(rows, cols, start)
    requires q in RegionOf(rows, cols, colors, start)
    ensures ColorAt(colors, q) == ColorAt(colors, start)
    ensures RegionOf(rows, cols, colors, q) == RegionOf(rows, cols, colors, start)
  {
    var here := ColorAt(colors, start);
    var rs := RegionOf(rows, cols, colors, start);
    var rq := RegionOf(rows, cols, colors, q);
    RegionIsUniform(rows, cols, colors, start);
    RegionOfIsLeast(rows, cols, colors, start);
    RegionOfIsLeast(rows, cols, colors, q);
    assert rq <= rs;
    DifferenceClosed(rows, cols, colors, here, rs, rq);
    assert start in rs - rq ==> rs <= rs - rq;
    assert start in rq;
    assert rs <= rq;
  }

  /** The region of an empty point is bordered by stones only. */
  lemma EmptyRegionBorders(rows: int, cols: int, colors: map<Point, Player>, region: set<Point>)
    ensures None !in BorderColors(rows, cols, colors, None, region)
  {
  }

  /** Adding one point to a set adds that point's own border colours. */
  lemma BorderColorsAdd(rows: int, cols: int, colors: map<Point, Player>, here: Option<Player>, a: set<Point>, p: Point)
    ensures BorderColors(rows, cols, colors, here, a + {p}) ==
      BorderColors(rows, cols, colors, here, a) + BorderColors(rows, cols, colors, here, {p})
  {
  }

  /** The points of `ns` on the board that have colour `here`. */
  function SameAmong(rows: int, cols: int, colors: map<Point, Player>, here: Option<Player>, ns: seq<Point>): set<Point>
  {
    set n | n in ns && OnGrid(rows, cols, n) && ColorAt(colors, n) == here
  }

  /** The colours other than `here` of the points of `ns` on the board. */
  function OtherAmong(rows: int, cols: int, colors: map<Point, Player>, here: Option<Player>, ns: seq<Point>): set<Option<Player>>
  {
    set n | n in ns && OnGrid(rows, cols, n) && ColorAt(colors, n) != here :: ColorAt(colors, n)
  }

  /** Looking at one more point adds it to one of the two collections. */
  lemma AmongSnoc(rows: int, cols: int, colors: map<Point, Player>, here: Option<Player>, ns: seq<Point>, n: Point)
    ensures SameAmong(rows, cols, colors, here, ns + [n]) ==
      SameAmong(rows, cols, colors, here, ns) + (if OnGrid(rows, cols, n) && ColorAt(colors, n) == here then {n} else {})
    ensures OtherAmong(rows, cols, colors, here, ns + [n]) ==
      OtherAmong(rows, cols, colors, here, ns) + (if OnGrid(rows, cols, n) && ColorAt(colors, n) != here then {ColorAt(colors, n)} else {})
  {
    assert forall m :: m in ns + [n] <==> m in ns || m == n;
  }

  /** The border colours of one point are those among its neighbours. */
  lemma BorderColorsOne(rows: int, cols: int, colors: map<Point, Player>, here: Option<Player>, p: Point)
    ensures BorderColors(rows, cols, colors, here, {p}) == OtherAmong(rows, cols, colors, here, Neighbors(p))
  {
  }

  /** Growing a set inside a finite universe shrinks what is left of it. */
  lemma GrowShrinksRest<T>(u: set<T>, a: set<T>, b: set<T>)
    requires a < b <= u
    ensures |u - b| < |u - a|
  {
    assert u - a == (u - b) + (b - a);
    assert (u - b) !! (b - a);
    var x :| x in b - a;
    assert |b - a| >= 1;
  }

  /** The on-board neighbours of `p` that have colour `here`. */
  function SameNeighbours(rows: int, cols: int, colors: map<Point, Player>, here: Option<Player>, p: Point): set<Point>
  {
    SameAmong(rows, cols, colors, here, Neighbors(p))
  }

  /** One step of the flood fill: look at the four neighbours of `p`, add
    * those of colour `here` not yet visited to the region and to the work
    * list, and collect the other colours seen. */
  method ScanNeighbours(board: Boards.Board, here: Option<Player>, p: Point, region: set<Point>, todo: set<Point>)
    returns (region': set<Point>, todo': set<Point>, seen: set<Option<Player>>)
    ensures region' == region + SameNeighbours(board.numRows, board.numCols, board.Colors(), here, p)
    ensures todo' == todo + (region' - region)
    ensures seen == BorderColors(board.numRows, board.numCols, board.Colors(), here, {p})
  {
    ghost var rows, cols, colors := board.numRows, board.numCols, board.Colors();
    var ns := Neighbors(p);
    region', todo', seen := region, todo, {};
    for i := 0 to 4
      invariant region' == region + SameAmong(rows, cols, colors, here, ns[..i])
      invariant todo' == todo + (region' - region)
      invariant seen == OtherAmong(rows, cols, colors, here, ns[..i])
    {
      var n := ns[i];
      assert ns[..i + 1] == ns[..i] + [n];
      AmongSnoc(rows, cols, colors, here, ns[..i], n);
      if board.IsPointOnGrid(n) {
        var c := board.GetColorOnPoint(n);
        if c == here {
          if n !in region' {
            region' := region' + {n};
            todo' := todo' + {n};
          }
        } else {
          seen := seen + {c};
        }
      }
    }
    assert ns[..4] == ns;
    BorderColorsOne(rows, cols, colors, here, p);
  }

  /** The state of the flood fill from `start`: `region` holds `start` and
    * points of its colour on the board, lies inside every closed set holding
    * `start`, every point of it no longer on the work list `todo` has had its
    * same-colour neighbours added, and `borders` holds the other colours
    * around those points. */
  ghost predicate FillState(rows: int, cols: int, colors: map<Point, Player>, start: Point,
                            region: set<Point>, todo: set<Point>, borders: set<Option<Player>>)
  {
    var here := ColorAt(colors, start);
    todo <= region <= Box(rows, cols) + {start} &&
    start in region &&
    (forall q :: q in region && q != start ==> OnGrid(rows, cols, q) && ColorAt(colors, q) == here) &&
    (forall s :: start in s && Closed(rows, cols, colors, here, s) ==> region <= s) &&
    (forall p :: p in region - todo ==> SameNeighbours(rows, cols, colors, here, p) <= region) &&
    borders == BorderColors(rows, cols, colors, here, region - todo)
  }

  /** Scanning the neighbours of a point taken from the work list keeps the
    * fill state, and either grows the region or shortens the work list. */
  lemma FillStep(rows: int, cols: int, colors: map<Point, Player>, start: Point,
                 region0: set<Point>, todo0: set<Point>, borders0: set<Option<Player>>, p: Point,
                 region: set<Point>, todo: set<Point>, seen: set<Option<Player>>)
    requires FillState(rows, cols, colors, start, region0, todo0, borders0)
    requires p in todo0
    requires region == region0 + SameNeighbours(rows, cols, colors, ColorAt(colors, start), p)
    requires todo == (todo0 - {p}) + (region - region0)
    requires seen == BorderColors(rows, cols, colors, ColorAt(colors, start), {p})
    ensures FillState(rows, cols, colors, start, region, todo, borders0 + seen)
    ensures var u := Box(rows, cols) + {start};
      |u - region| < |u - region0| || (region == region0 && |todo| < |todo0|)
  {
    var here := ColorAt(colors, start);
    FillStepLeast(rows, cols, colors, start, region0, p, region);
    FillStepScanned(rows, cols, colors, here, region0, todo0, p, region, todo);
    BorderColorsAdd(rows, cols, colors, here, region0 - todo0, p);
    FillStepMeasure(Box(rows, cols) + {start}, region0, todo0, p, region, todo);
  }

  /** The grown region still lies inside every closed set holding `start`. */
  lemma FillStepLeast(rows: int, cols: int, colors: map<Point, Player>, start: Point,
                      region0: set<Point>, p: Point, region: set<Point>)
    requires forall s :: start in s && Closed(rows, cols, colors, ColorAt(colors, start), s) ==> region0 <= s
    requires p in region0
    requires region == region0 + SameNeighbours(rows, cols, colors, ColorAt(colors, start), p)
    ensures forall s :: start in s && Closed(rows, cols, colors, ColorAt(colors, start), s) ==> region <= s
  {
    var here := ColorAt(colors, start);
    forall s | start in s && Closed(rows, cols, colors, here, s)
      ensures region <= s
    {
      assert region0 <= s;
      assert p in s;
    }
  }

  /** Scanning `p` moves it, and only it, to the finished part. */
  lemma FillStepScanned(rows: int, cols: int, colors: map<Point, Player>, here: Option<Player>,
                        region0: set<Point>, todo0: set<Point>, p: Point, region: set<Point>, todo: set<Point>)
    requires todo0 <= region0
    requires forall x :: x in region0 - todo0 ==> SameNeighbours(rows, cols, colors, here, x) <= region0
    requires p in todo0
    requires region == region0 + SameNeighbours(rows, cols, colors, here, p)
    requires todo == (todo0 - {p}) + (region - region0)
    ensures region - todo == (region0 - todo0) + {p}
    ensures forall x :: x in region - todo ==> SameNeighbours(rows, cols, colors, here, x) <= region
  {
    assert forall x :: x in region - todo <==> x in region0 - todo0 || x == p;
    forall x | x in region - todo
      ensures SameNeighbours(rows, cols, colors, here, x) <= region
    {
      if x != p {
        assert x in region0 - todo0;
      }
    }
  }

  /** Each step either grows the region inside its universe or shortens the
    * work list. */
  lemma FillStepMeasure(u: set<Point>, region0: set<Point>, todo0: set<Point>, p: Point, region: set<Point>, todo: set<Point>)
    requires region0 <= region <= u
    requires p in todo0
    requires todo == (todo0 - {p}) + (region - region0)
    ensures |u - region| < |u - region0| || (region == region0 && |todo| < |todo0|)
  {
    if region != region0 {
      GrowShrinksRest(u, region0, region);
    } else {
      assert todo == todo0 - {p};
    }
  }

  /** A finished fill is the region, with its border colours. */
  lemma FillDone(rows: int, cols: int, colors: map<Point, Player>, start: Point,
                 region: set<Point>, borders: set<Option<Player>>)
    requires FillState(rows, cols, colors, start, region, {}, borders)
    ensures region == RegionOf(rows, cols, colors, start)
    ensures borders == BorderColors(rows, cols, colors, ColorAt(colors, start), region)
  {
    var here := ColorAt(colors, start);
    assert region - {} == region;
    forall p, n | p in region && n in Neighbors(p) && OnGrid(rows, cols, n) && ColorAt(colors, n) == here
      ensures n in region
    {
      assert n in SameNeighbours(rows, cols, colors, here, p);
    }
    LeastIsRegion(rows, cols, colors, start, region);
  }

  /** The fill state at the start: the region is the start point alone, and
    * it is still to be scanned. */
  lemma FillStart(rows: int, cols: int, colors: map<Point, Player>, start: Point)
    ensures FillState(rows, cols, colors, start, {start}, {start}, {})
  {
    assert {start} - {start} == {};
  }

  /**
   * The flood fill from `start`, as a work list over a visited set: the
   * region of `start` and the colours bordering it.
   */
  method CollectRegion(board: Boards.Board, start: Point) returns (region: set<Point>, borders: set<Option<Player>>)
    ensures region == RegionOf(board.numRows, board.numCols, board.Colors(), start)
    ensures borders == BorderColors(board.numRows, board.numCols, board.Colors(), ColorAt(board.Colors(), start), region)
  {
    ghost var rows, cols, colors := board.numRows, board.numCols, board.Colors();
    ghost var u := Box(rows, cols) + {start};
    var here := board.GetColorOnPoint(start);
    region := {start};
    borders := {};
    var todo := {start};
    FillStart(rows, cols, colors, start);
    while todo != {}
      invariant FillState(rows, cols, colors, start, region, todo, borders)
      decreases |u - region|, |todo|
    {
      var p :| p in todo;
      ghost var region0, todo0, borders0 := region, todo, borders;
      var seen;
      region, todo, seen := ScanNeighbours(board, here, p, region, todo - {p});
      FillStep(rows, cols, colors, start, region0, todo0, borders0, p, region, todo, seen);
      borders := borders + seen;
    }
    FillDone(rows, cols, colors, start, region, borders);
  }

  /**
   * The flood fill as written: its `all_points += points` adds a list or a
   * set to a set, which raises a type error. It therefore returns only when
   * no recursive call is made, i.e. when no on-board neighbour of `start`
   * has its colour; then the region is `start` alone.
   */
  function CollectRegionAsWritten(rows: int, cols: int, colors: map<Point, Player>, start: Point):
    (r: Option<(set<Point>, set<Option<Player>>)>)
    ensures r.Some? <==> forall n :: n in Neighbors(start) && OnGrid(rows, cols, n) ==> ColorAt(colors, n) != ColorAt(colors, start)
  {
    var here := ColorAt(colors, start);
    if exists n :: n in Neighbors(start) && OnGrid(rows, cols, n) && ColorAt(colors, n) == here then None
    else Some(({start}, BorderColors(rows, cols, colors, here, {start})))
  }

  /** Where the flood fill as written returns, it agrees with the corrected one. */
  lemma AsWrittenAgreesWhenItReturns(rows: int, cols: int, colors: map<Point, Player>, start: Point)
    requires CollectRegionAsWritten(rows, cols, colors, start).Some?
    ensures CollectRegionAsWritten(rows, cols, colors, start).value.0 == RegionOf(rows, cols, colors, start)
  {
    var here := ColorAt(colors, start);
    RegionOfIsLeast(rows, cols, colors, start);
    assert Closed(rows, cols, colors, here, {start});
    LeastIsRegion(rows, cols, colors, start, {start});
  }

  /** The input that shows the type error: on an empty board one row by two
    * columns, the fill from the first point fails although its region is the
    * whole board. */
  lemma AsWrittenFailsOnTwoEmptyPoints()
    ensures CollectRegionAsWritten(1, 2, map[], Point(1, 1)).None?
    ensures RegionOf(1, 2, map[], Point(1, 1)) == {Point(1, 1), Point(1, 2)}
  {
    var colors: map<Point, Player> := map[];
    assert Point(1, 2) in Neighbors(Point(1, 1));
    RegionOfIsLeast(1, 2, colors, Point(1, 1));
    RegionIsUniform(1, 2, colors, Point(1, 1));
    var r := RegionOf(1, 2, colors, Point(1, 1));
    assert Point(1, 2) in r;
    forall q | q in r ensures q == Point(1, 1) || q == Point(1, 2)
    {
      if q != Point(1, 1) {
        assert OnGrid(1, 2, q);
      }
    }
  }
}
