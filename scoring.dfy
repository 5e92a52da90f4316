/**
 * Scoring by area: every stone counts for its colour, every empty region
 * bordered by one colour only is that colour's territory, any other empty
 * region is dame (neutral). White receives a komi of 7.5 points.
 */
module Scoring {
  import opened Wrappers
  import opened GoTypes
  import opened Regions
  import Boards
  import Game

  /** What a point counts as. */
  datatype Status = Stone(color: Player) | TerritoryOf(owner: Player) | Dame

  /** The status the scan gives `p`: its colour if occupied; for an empty
    * point, the one colour bordering its region if there is exactly one
    * (black if that colour is black, white otherwise), dame if not. */
  ghost function Classify(rows: int, cols: int, colors: map<Point, Player>, p: Point): Status
  {
    match ColorAt(colors, p)
    case Some(c) => Stone(c)
    case None =>
      var b := BorderColors(rows, cols, colors, None, RegionOf(rows, cols, colors, p));
      if |b| == 1 then TerritoryOf(if b == {Some(Black)} then Black else White) else Dame
  }

  /** The status of every point of the board. */
  ghost function Classification(rows: int, cols: int, colors: map<Point, Player>): map<Point, Status>
  {
    map p | p in Box(rows, cols) :: Classify(rows, cols, colors, p)
  }

  /** A stone counts for its colour; an empty point is territory of a colour
    * exactly when that colour alone borders its region, and dame exactly
    * when its region has no border or both colours border it. */
  lemma ClassifyMeans(rows: int, cols: int, colors: map<Point, Player>, p: Point, c: Player)
    ensures Classify(rows, cols, colors, p) == Stone(c) <==> ColorAt(colors, p) == Some(c)
    ensures Classify(rows, cols, colors, p) == TerritoryOf(c) <==>
      ColorAt(colors, p) == None && BorderColors(rows, cols, colors, None, RegionOf(rows, cols, colors, p)) == {Some(c)}
    ensures Classify(rows, cols, colors, p) == Dame <==>
      ColorAt(colors, p) == None &&
      (BorderColors(rows, cols, colors, None, RegionOf(rows, cols, colors, p)) == {} ||
       BorderColors(rows, cols, colors, None, RegionOf(rows, cols, colors, p)) == {Some(Black), Some(White)})
  {
    if ColorAt(colors, p) == None {
      var b := BorderColors(rows, cols, colors, None, RegionOf(rows, cols, colors, p));
      EmptyRegionBorders(rows, cols, colors, RegionOf(rows, cols, colors, p));
      BorderCases(b);
    }
  }

  /** A set of colours without the empty marker is one of four sets. */
  lemma BorderCases(b: set<Option<Player>>)
    requires None !in b
    ensures b == {} || b == {Some(Black)} || b == {Some(White)} || b == {Some(Black), Some(White)}
    ensures |b| == 1 <==> b == {Some(Black)} || b == {Some(White)}
  {
    var bb := if Some(Black) in b then {Some(Black)} else {};
    var ww := if Some(White) in b then {Some(White)} else {};
    forall x | x in b ensures x in bb + ww
    {
      assert x.Some?;
      assert x.value == Black || x.value == White;
    }
    assert b == bb + ww;
    assert |{Some(Black), Some(White)}| == 2;
  }

  /** All points of one empty region get the same status. */
  lemma RegionClassifiedAlike(rows: int, cols: int, colors: map<Point, Player>, p: Point, q: Point)
    requires OnGrid(rows, cols, p) && ColorAt(colors, p) == None
    requires q in RegionOf(rows, cols, colors, p)
    ensures ColorAt(colors, q) == None
    ensures Classify(rows, cols, colors, q) == Classify(rows, cols, colors, p)
  {
    RegionShared(rows, cols, colors, p, q);
  }

  /** The progress of the scan up to row `r`, column `c`: every status given
    * is the point's classification, every point before (`r`, `c`) in row
    * order has one, and an empty point's whole region is classified with it. */
  ghost predicate ScanState(rows: int, cols: int, colors: map<Point, Player>, status: map<Point, Status>, r: int, c: int)
  {
    ScanSound(rows, cols, colors, status) && ScanCovers(rows, cols, status, r, c) && ScanWhole(rows, cols, colors, status)
  }

  ghost predicate ScanSound(rows: int, cols: int, colors: map<Point, Player>, status: map<Point, Status>)
  {
    forall p :: p in status ==> OnGrid(rows, cols, p) && status[p] == Classify(rows, cols, colors, p)
  }

  ghost predicate ScanCovers(rows: int, cols: int, status: map<Point, Status>, r: int, c: int)
  {
    forall p :: OnGrid(rows, cols, p) && (p.row < r || (p.row == r && p.col < c)) ==> p in status
  }

  ghost predicate ScanWhole(rows: int, cols: int, colors: map<Point, Player>, status: map<Point, Status>)
  {
    forall q :: q in status && ColorAt(colors, q) == None ==> RegionOf(rows, cols, colors, q) <= status.Keys
  }

  /** Moving to the next row keeps the scan's progress. */
  lemma ScanNextRow(rows: int, cols: int, colors: map<Point, Player>, status: map<Point, Status>, r: int, c: int)
    requires ScanState(rows, cols, colors, status, r, c)
    requires c > cols
    ensures ScanState(rows, cols, colors, status, r + 1, 1)
  {
  }

  /** Passing over a point already classified keeps the scan's progress. */
  lemma ScanSkip(rows: int, cols: int, colors: map<Point, Player>, status: map<Point, Status>, r: int, c: int)
    requires ScanState(rows, cols, colors, status, r, c)
    requires Point(r, c) in status
    ensures ScanState(rows, cols, colors, status, r, c + 1)
  {
  }

  /** Giving an occupied point its colour keeps the scan's progress. */
  lemma ScanStone(rows: int, cols: int, colors: map<Point, Player>, status: map<Point, Status>, r: int, c: int, stone: Player)
    requires ScanState(rows, cols, colors, status, r, c)
    requires OnGrid(rows, cols, Point(r, c)) && ColorAt(colors, Point(r, c)) == Some(stone)
    ensures ScanState(rows, cols, colors, status[Point(r, c) := Stone(stone)], r, c + 1)
  {
    var status' := status[Point(r, c) := Stone(stone)];
    forall q | q in status' && ColorAt(colors, q) == None
      ensures RegionOf(rows, cols, colors, q) <= status'.Keys
    {
      assert q in status;
    }
  }

  /** An empty point not yet classified shares no point of its region with
    * what is classified, and classifying the region keeps the scan's
    * progress: the scan never gives a point a second status. */
  lemma ScanRegion(rows: int, cols: int, colors: map<Point, Player>, status: map<Point, Status>, r: int, c: int,
                   group: set<Point>, fill: Status)
    requires ScanState(rows, cols, colors, status, r, c)
    requires OnGrid(rows, cols, Point(r, c)) && ColorAt(colors, Point(r, c)) == None && Point(r, c) !in status
    requires group == RegionOf(rows, cols, colors, Point(r, c))
    requires fill == Classify(rows, cols, colors, Point(r, c))
    ensures group !! status.Keys
    ensures ScanState(rows, cols, colors, status + map q | q in group :: fill, r, c + 1)
  {
    var p := Point(r, c);
    RegionOfIsLeast(rows, cols, colors, p);
    RegionIsUniform(rows, cols, colors, p);
    forall q | q in group
      ensures q !in status
      ensures ColorAt(colors, q) == None && Classify(rows, cols, colors, q) == fill
      ensures RegionOf(rows, cols, colors, q) == group
    {
      RegionClassifiedAlike(rows, cols, colors, p, q);
      RegionShared(rows, cols, colors, p, q);
      assert p in RegionOf(rows, cols, colors, q);
    }
    ScanAddGroup(rows, cols, colors, status, r, c, group, fill);
  }

  /** Classifying a whole region, with the point at (`r`, `c`) among it,
    * keeps the scan's progress. */
  lemma ScanAddGroup(rows: int, cols: int, colors: map<Point, Player>, status: map<Point, Status>, r: int, c: int,
                     group: set<Point>, fill: Status)
    requires ScanState(rows, cols, colors, status, r, c)
    requires Point(r, c) in group
    requires forall q :: q in group ==>
      OnGrid(rows, cols, q) && Classify(rows, cols, colors, q) == fill && RegionOf(rows, cols, colors, q) == group
    ensures ScanState(rows, cols, colors, status + map q | q in group :: fill, r, c + 1)
  {
    var status' := status + map q | q in group :: fill;
    AddGroupSound(rows, cols, colors, status, group, fill);
    AddGroupCovers(rows, cols, status, r, c, group, fill);
    AddGroupWhole(rows, cols, colors, status, group, fill);
  }

  lemma AddGroupSound(rows: int, cols: int, colors: map<Point, Player>, status: map<Point, Status>,
                      group: set<Point>, fill: Status)
    requires ScanSound(rows, cols, colors, status)
    requires forall q :: q in group ==> OnGrid(rows, cols, q) && Classify(rows, cols, colors, q) == fill
    ensures ScanSound(rows, cols, colors, status + map q | q in group :: fill)
  {
    var status' := status + map q | q in group :: fill;
    forall x | x in status'
      ensures OnGrid(rows, cols, x) && status'[x] == Classify(rows, cols, colors, x)
    {
      if x in group {
        assert status'[x] == fill;
      } else {
        assert x in status && status'[x] == status[x];
      }
    }
  }

  lemma AddGroupCovers(rows: int, cols: int, status: map<Point, Status>, r: int, c: int,
                       group: set<Point>, fill: Status)
    requires ScanCovers(rows, cols, status, r, c)
    requires Point(r, c) in group
    ensures ScanCovers(rows, cols, status + map q | q in group :: fill, r, c + 1)
  {
    var status' := status + map q | q in group :: fill;
    forall x | OnGrid(rows, cols, x) && (x.row < r || (x.row == r && x.col < c + 1))
      ensures x in status'
    {
      if x != Point(r, c) {
        assert x in status;
      }
    }
  }

  lemma AddGroupWhole(rows: int, cols: int, colors: map<Point, Player>, status: map<Point, Status>,
                      group: set<Point>, fill: Status)
    requires ScanWhole(rows, cols, colors, status)
    requires forall q :: q in group ==> RegionOf(rows, cols, colors, q) == group
    ensures ScanWhole(rows, cols, colors, status + map q | q in group :: fill)
  {
    var status' := status + map q | q in group :: fill;
    forall x | x in status' && ColorAt(colors, x) == None
      ensures RegionOf(rows, cols, colors, x) <= status'.Keys
    {
      if x !in group {
        assert x in status;
      }
    }
  }

  /** Give every point of `group` the status `fill`. */
  method FillRegion(status: map<Point, Status>, group: set<Point>, fill: Status) returns (status': map<Point, Status>)
    ensures status' == status + map q | q in group :: fill
  {
    status' := status;
    var rest := group;
    while rest != {}
      invariant rest <= group
      invariant status' == status + map q | q in group - rest :: fill
      decreases |rest|
    {
      var q :| q in rest;
      status' := status'[q := fill];
      rest := rest - {q};
    }
    assert group - {} == group;
  }

  /** The status of the region of an empty on-board point, from the border
    * colours the flood fill returns. */
  method RegionStatus(borders: set<Option<Player>>) returns (fill: Status)
    requires None !in borders
    ensures |borders| == 1 ==> exists c :: borders == {Some(c)} && fill == TerritoryOf(c)
    ensures |borders| != 1 ==> fill == Dame
  {
    BorderCases(borders);
    if |borders| == 1 {
      var stone :| stone in borders;
      fill := TerritoryOf(if stone == Some(Black) then Black else White);
    } else {
      fill := Dame;
    }
  }

  /**
   * Classify every point of the board, row by row and column by column,
   * skipping points already classified with an earlier point's region, and
   * tally the result.
   */
  method EvaluateTerritory(board: Boards.Board) returns (t: Territory)
    ensures Tallies(t, Classification(board.numRows, board.numCols, board.Colors()))
  {
    ghost var rows, cols, colors := board.numRows, board.numCols, board.Colors();
    var status: map<Point, Status> := map[];
    var r := 1;
    while r <= board.numRows
      invariant ScanState(rows, cols, colors, status, r, 1)
    {
      var c := 1;
      while c <= board.numCols
        invariant ScanState(rows, cols, colors, status, r, c)
      {
        var point := Point(r, c);
        if point in status {
          ScanSkip(rows, cols, colors, status, r, c);
        } else {
          var stone := board.GetColorOnPoint(point);
          if stone.Some? {
            ScanStone(rows, cols, colors, status, r, c, stone.value);
            status := status[point := Stone(stone.value)];
          } else {
            var group, neighbors := CollectRegion(board, point);
            EmptyRegionBorders(rows, cols, colors, group);
            var fill := RegionStatus(neighbors);
            ClassifyMeans(rows, cols, colors, point, Black);
            ClassifyMeans(rows, cols, colors, point, White);
            ScanRegion(rows, cols, colors, status, r, c, group, fill);
            status := FillRegion(status, group, fill);
          }
        }
        c := c + 1;
      }
      ScanNextRow(rows, cols, colors, status, r, c);
      r := r + 1;
    }
    ScanComplete(rows, cols, colors, status, r);
    t := TallyTerritory(status);
  }

  /** A scan past the last row has classified exactly the board. */
  lemma ScanComplete(rows: int, cols: int, colors: map<Point, Player>, status: map<Point, Status>, r: int)
    requires ScanState(rows, cols, colors, status, r, 1)
    requires r > rows
    ensures status == Classification(rows, cols, colors)
  {
    assert status.Keys == Box(rows, cols);
  }

  /** The tally of a status map. Its dame points are kept in the order they
    * are met. */
  datatype Territory = Territory(numBlackTerritory: nat, numWhiteTerritory: nat,
                                 numBlackStones: nat, numWhiteStones: nat,
                                 numDame: nat, damePoints: seq<Point>)

  /** How many of the points in `keys` have status `x`. */
  function CountIn(status: map<Point, Status>, keys: set<Point>, x: Status): nat
  {
    |set p | p in keys && p in status && status[p] == x|
  }

  /** How many points have status `x`. */
  function Count(status: map<Point, Status>, x: Status): nat
  {
    CountIn(status, status.Keys, x)
  }

  /** `t` counts each status of `status`, and lists each dame point once. */
  ghost predicate Tallies(t: Territory, status: map<Point, Status>)
  {
    t.numBlackStones == Count(status, Stone(Black)) &&
    t.numWhiteStones == Count(status, Stone(White)) &&
    t.numBlackTerritory == Count(status, TerritoryOf(Black)) &&
    t.numWhiteTerritory == Count(status, TerritoryOf(White)) &&
    t.numDame == Count(status, Dame) &&
    |t.damePoints| == t.numDame &&
    (forall p :: p in t.damePoints <==> p in status && status[p] == Dame)
  }

  /** One more point adds one to the count of its own status only. */
  lemma CountInAdd(status: map<Point, Status>, keys: set<Point>, p: Point, x: Status)
    requires p !in keys
    ensures CountIn(status, keys + {p}, x) == CountIn(status, keys, x) + (if p in status && status[p] == x then 1 else 0)
  {
    var a := set q | q in keys && q in status && status[q] == x;
    if p in status && status[p] == x {
      assert (set q | q in keys + {p} && q in status && status[q] == x) == a + {p};
    } else {
      assert (set q | q in keys + {p} && q in status && status[q] == x) == a;
    }
  }

  /** Every point has exactly one of the five statuses, so the counts add up
    * to the number of points. */
  lemma {:induction false} CountsSum(status: map<Point, Status>, keys: set<Point>)
    requires keys <= status.Keys
    ensures CountIn(status, keys, Stone(Black)) + CountIn(status, keys, Stone(White)) +
            CountIn(status, keys, TerritoryOf(Black)) + CountIn(status, keys, TerritoryOf(White)) +
            CountIn(status, keys, Dame) == |keys|
    decreases |keys|
  {
    if keys != {} {
      var p :| p in keys;
      var rest := keys - {p};
      assert keys == rest + {p};
      assert |keys| == |rest| + 1;
      CountsSum(status, rest);
      CountInAdd(status, rest, p, Stone(Black));
      CountInAdd(status, rest, p, Stone(White));
      CountInAdd(status, rest, p, TerritoryOf(Black));
      CountInAdd(status, rest, p, TerritoryOf(White));
      CountInAdd(status, rest, p, Dame);
      match status[p] {
        case Stone(c) => assert c == Black || c == White;
        case TerritoryOf(c) => assert c == Black || c == White;
        case Dame =>
      }
    }
  }

  /** The counts and dame list after tallying the points of `done`. */
  ghost predicate TallyState(status: map<Point, Status>, done: set<Point>,
                             nbs: nat, nws: nat, nb: nat, nw: nat, nd: nat, dame: seq<Point>)
  {
    done <= status.Keys &&
    nbs == CountIn(status, done, Stone(Black)) &&
    nws == CountIn(status, done, Stone(White)) &&
    nb == CountIn(status, done, TerritoryOf(Black)) &&
    nw == CountIn(status, done, TerritoryOf(White)) &&
    nd == CountIn(status, done, Dame) &&
    |dame| == nd &&
    (forall p :: p in dame <==> p in done && status[p] == Dame)
  }

  /** Tallying one more point adds one to the counter of its status, and
    * lists it when it is dame. */
  lemma TallyStep(status: map<Point, Status>, done: set<Point>, p: Point,
                  nbs: nat, nws: nat, nb: nat, nw: nat, nd: nat, dame: seq<Point>)
    requires TallyState(status, done, nbs, nws, nb, nw, nd, dame)
    requires p in status && p !in done
    ensures TallyState(status, done + {p},
      nbs + (if status[p] == Stone(Black) then 1 else 0),
      nws + (if status[p] == Stone(White) then 1 else 0),
      nb + (if status[p] == TerritoryOf(Black) then 1 else 0),
      nw + (if status[p] == TerritoryOf(White) then 1 else 0),
      nd + (if status[p] == Dame then 1 else 0),
      dame + (if status[p] == Dame then [p] else []))
  {
    CountInAdd(status, done, p, Stone(Black));
    CountInAdd(status, done, p, Stone(White));
    CountInAdd(status, done, p, TerritoryOf(Black));
    CountInAdd(status, done, p, TerritoryOf(White));
    CountInAdd(status, done, p, Dame);
  }

  /** Tally a status map point by point. */
  method TallyTerritory(status: map<Point, Status>) returns (t: Territory)
    ensures Tallies(t, status)
  {
    var nb, nw, nbs, nws, nd := 0, 0, 0, 0, 0;
    var dame: seq<Point> := [];
    var todo := status.Keys;
    ghost var done: set<Point> := {};
    while todo != {}
      invariant todo <= status.Keys && done == status.Keys - todo
      invariant TallyState(status, done, nbs, nws, nb, nw, nd, dame)
      decreases |todo|
    {
      var point :| point in todo;
      TallyStep(status, done, point, nbs, nws, nb, nw, nd, dame);
      match status[point] {
        case Stone(Black) => nbs := nbs + 1;
        case Stone(White) => nws := nws + 1;
        case TerritoryOf(Black) => nb := nb + 1;
        case TerritoryOf(White) => nw := nw + 1;
        case Dame =>
          nd := nd + 1;
          dame := dame + [point];
      }
      todo := todo - {point};
      done := done + {point};
    }
    assert done == status.Keys;
    t := Territory(nb, nw, nbs, nws, nd, dame);
  }

  /** The points of one row. */
  function RowOf(r: int, cols: int): (row: set<Point>)
    ensures forall p :: p in row <==> p.row == r && 1 <= p.col <= cols
  {
    set c: int | 1 <= c <= cols :: Point(r, c)
  }

  lemma {:induction false} RowSize(r: int, cols: nat)
    ensures |RowOf(r, cols)| == cols
  {
    if cols > 0 {
      RowSize(r, cols - 1);
      var a := RowOf(r, cols - 1);
      assert RowOf(r, cols) == a + {Point(r, cols)};
      assert Point(r, cols) !in a;
      assert |a + {Point(r, cols)}| == |a| + 1;
    } else {
      assert RowOf(r, cols) == {};
    }
  }

  /** A `rows` by `cols` board has `rows * cols` points. */
  lemma {:induction false} BoxSize(rows: nat, cols: nat)
    ensures |Box(rows, cols)| == rows * cols
  {
    if rows > 0 {
      BoxSize(rows - 1, cols);
      RowSize(rows, cols);
      var a, b := Box(rows - 1, cols), RowOf(rows, cols);
      assert Box(rows, cols) == a + b;
      assert a * b == {};
      assert |a + b| == |a| + |b|;
      assert (rows - 1) * cols + cols == rows * cols;
    } else {
      assert Box(rows, cols) == {};
    }
  }

  /** The tally of an evaluated board accounts for each of its points once. */
  lemma EvaluatedCountsCoverBoard(rows: nat, cols: nat, colors: map<Point, Player>, t: Territory)
    requires Tallies(t, Classification(rows, cols, colors))
    ensures t.numBlackStones + t.numWhiteStones + t.numBlackTerritory + t.numWhiteTerritory + t.numDame == rows * cols
  {
    var status := Classification(rows, cols, colors);
    assert status.Keys == Box(rows, cols);
    CountsSum(status, status.Keys);
    BoxSize(rows, cols);
  }

  /** The komi white receives. */
  const Komi: real := 7.5

  /** Black's points, white's points and white's komi. */
  datatype GameResult = GameResult(b: real, w: real, komi: real)
  {
    /** Black wins only with strictly more than white plus komi. */
    function Winner(): (p: Player)
      ensures p == Black <==> b > w + komi
      ensures b == w + komi ==> p == White
    {
      if b > w + komi then Black else White
    }

    /** How far apart the two scores are. */
    function WinningMargin(): (m: real)
      ensures m >= 0.0
      ensures Winner() == Black ==> b == w + komi + m
      ensures Winner() == White ==> w + komi == b + m
    {
      var d := b - (w + komi);
      if d < 0.0 then -d else d
    }

    /** The text of the result: "B+" or "W+" and the winner's lead. */
    function Describe(): (d: (string, real))
      ensures d.0 == "B+" || d.0 == "W+"
      ensures d.0 == "B+" <==> b > w + komi
      ensures d.1 >= 0.0
      ensures d.0 == "B+" ==> d.1 > 0.0
    {
      var whiteTotal := w + komi;
      if b > whiteTotal then ("B+", b - whiteTotal) else ("W+", whiteTotal - b)
    }
  }

  /** The text names the winner and gives the margin; the margin is what the
    * winner's score exceeds the loser's by. */
  lemma DescribeAgrees(r: GameResult)
    ensures r.Describe().0 == "B+" <==> r.Winner() == Black
    ensures r.Describe().0 == "W+" <==> r.Winner() == White
    ensures r.Describe().1 == r.WinningMargin()
    ensures r.Winner() == Black ==> r.b == r.w + r.komi + r.WinningMargin()
    ensures r.Winner() == White ==> r.w + r.komi == r.b + r.WinningMargin()
  {
  }

  /** A tie goes to white, at a margin of zero. */
  lemma TieGoesToWhite(r: GameResult)
    requires r.b == r.w + r.komi
    ensures r.Winner() == White && r.WinningMargin() == 0.0
  {
  }

  /** With whole-point scores and a komi of 7.5 there is no tie: the margin
    * is at least half a point. */
  lemma NoTieWithHalfKomi(b: int, w: int)
    ensures GameResult(b as real, w as real, Komi).b != GameResult(b as real, w as real, Komi).w + Komi
    ensures GameResult(b as real, w as real, Komi).WinningMargin() >= 0.5
  {
    var d := b - w;
    if d >= 8 {
      assert (b as real) - (w as real + Komi) == (d as real) - 7.5;
    } else {
      assert d <= 7;
      assert (b as real) - (w as real + Komi) == (d as real) - 7.5;
    }
  }

  /** The score of a finished game: stones plus territory for each, and the
    * komi for white. */
  method ComputeGameResult(s: Game.GameState) returns (r: GameResult)
    ensures r.komi == Komi
    ensures var status := Classification(s.board.numRows, s.board.numCols, s.board.Colors());
      r.b == (Count(status, TerritoryOf(Black)) + Count(status, Stone(Black))) as real &&
      r.w == (Count(status, TerritoryOf(White)) + Count(status, Stone(White))) as real
  {
    var territory := EvaluateTerritory(s.board);
    r := GameResult((territory.numBlackTerritory + territory.numBlackStones) as real,
                    (territory.numWhiteTerritory + territory.numWhiteStones) as real,
                    Komi);
  }
}
