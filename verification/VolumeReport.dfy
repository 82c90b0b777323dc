/** The rows a volume profile is built from, and what is reported of it (`market_structure.py`). */
module VolumeReport {
  import opened Options
  import opened VolumeProfile

  datatype Candle = Candle(high: real, low: real, close: real, volume: real)
  datatype Source = Intraday | DailyProxy
  datatype Position = UnknownPosition | AboveValueArea | BelowValueArea | NearPoc | InsideValueArea

  // ----- Rows -----

  predicate Usable(r: Row) {
    r.price > 0.0 && r.volume > 0.0
  }

  predicate UsableCandle(c: Candle) {
    c.high > 0.0 && c.low > 0.0 && c.close > 0.0 && c.volume > 0.0
  }

  function ProfileRows(points: seq<Row>): seq<Row> {
    if points == [] then [] else ProfileRows(points[..|points| - 1]) + (if Usable(points[|points| - 1]) then [points[|points| - 1]] else [])
  }

  /** A candle's volume, a quarter at its low, half at its close and a quarter at its high. */
  function CandleRows(c: Candle): seq<Row> {
    if UsableCandle(c) then [Row(c.low, c.volume * 0.25), Row(c.close, c.volume * 0.5), Row(c.high, c.volume * 0.25)] else []
  }

  function DailyRows(candles: seq<Candle>): seq<Row> {
    if candles == [] then [] else DailyRows(candles[..|candles| - 1]) + CandleRows(candles[|candles| - 1])
  }

  function LastSixty(candles: seq<Candle>): seq<Candle> {
    if |candles| <= 60 then candles else candles[|candles| - 60..]
  }

  /** Intraday rows, or daily ones when there are fewer than eight. */
  function SourceOf(points: seq<Row>): Source {
    if |ProfileRows(points)| < 8 then DailyProxy else Intraday
  }

  function RowsOf(points: seq<Row>, candles: seq<Candle>): seq<Row> {
    if SourceOf(points) == Intraday then ProfileRows(points) else DailyRows(LastSixty(candles))
  }

  method CollectRows(points: seq<Row>) returns (rows: seq<Row>)
    ensures rows == ProfileRows(points)
  {
    rows := [];
    for i := 0 to |points|
      invariant rows == ProfileRows(points[..i])
    {
      assert points[..i + 1][..i] == points[..i];
      if points[i].price > 0.0 && points[i].volume > 0.0 {
        rows := rows + [points[i]];
      }
    }
    assert points[..|points|] == points;
  }

  method CollectDailyRows(candles: seq<Candle>) returns (rows: seq<Row>)
    ensures rows == DailyRows(candles)
  {
    rows := [];
    for i := 0 to |candles|
      invariant rows == DailyRows(candles[..i])
    {
      assert candles[..i + 1][..i] == candles[..i];
      var c := candles[i];
      if c.high > 0.0 && c.low > 0.0 && c.close > 0.0 && c.volume > 0.0 {
        rows := rows + [Row(c.low, c.volume * 0.25), Row(c.close, c.volume * 0.5), Row(c.high, c.volume * 0.25)];
      }
    }
    assert candles[..|candles|] == candles;
  }

  predicate AllUsable(rows: seq<Row>) {
    forall i :: 0 <= i < |rows| ==> Usable(rows[i])
  }

  lemma {:induction false} ProfileRowsUsable(points: seq<Row>)
    ensures AllUsable(ProfileRows(points))
  {
    if points != [] {
      ProfileRowsUsable(points[..|points| - 1]);
    }
  }

  lemma {:induction false} DailyRowsUsable(candles: seq<Candle>)
    ensures AllUsable(DailyRows(candles))
  {
    if candles != [] {
      DailyRowsUsable(candles[..|candles| - 1]);
      assert AllUsable(CandleRows(candles[|candles| - 1]));
    }
  }

  lemma {:induction false} UsableRowsTrade(rows: seq<Row>, n: nat)
    requires AllUsable(rows) && 0 < n <= |rows|
    ensures TotalVolume(rows, n) > 0.0
  {
    if n > 1 {
      UsableRowsTrade(rows, n - 1);
    }
  }

  function CandleVolume(candles: seq<Candle>): real {
    if candles == [] then 0.0
    else CandleVolume(candles[..|candles| - 1]) + (if UsableCandle(candles[|candles| - 1]) then candles[|candles| - 1].volume else 0.0)
  }

  lemma {:induction false} TotalOfAppend(a: seq<Row>, b: seq<Row>)
    ensures TotalVolume(a + b, |a + b|) == TotalVolume(a, |a|) + TotalVolume(b, |b|)
  {
    if b == [] {
      assert a + b == a;
    } else {
      var front := b[..|b| - 1];
      TotalOfAppend(a, front);
      assert (a + b)[..|a + b| - 1] == a + front;
      TotalOfPrefix(a + b, |a + b| - 1);
      TotalOfPrefix(b, |b| - 1);
    }
  }

  lemma {:induction false} TotalOfPrefix(rows: seq<Row>, n: nat)
    requires n <= |rows|
    ensures TotalVolume(rows, n) == TotalVolume(rows[..n], n)
    decreases n
  {
    if n > 0 {
      TotalOfPrefix(rows, n - 1);
      TotalOfPrefix(rows[..n], n - 1);
      assert rows[..n][..n - 1] == rows[..n - 1];
    }
  }

  lemma CandleRowsTotal(c: Candle)
    ensures TotalVolume(CandleRows(c), |CandleRows(c)|) == if UsableCandle(c) then c.volume else 0.0
  {
    if UsableCandle(c) {
      var rows := CandleRows(c);
      assert TotalVolume(rows, 1) == c.volume * 0.25;
      assert TotalVolume(rows, 2) == c.volume * 0.75;
    }
  }

  /** Spreading the candles over their prices neither adds nor loses volume. */
  lemma {:induction false} DailyRowsKeepVolume(candles: seq<Candle>)
    ensures TotalVolume(DailyRows(candles), |DailyRows(candles)|) == CandleVolume(candles)
  {
    if candles != [] {
      DailyRowsKeepVolume(candles[..|candles| - 1]);
      TotalOfAppend(DailyRows(candles[..|candles| - 1]), CandleRows(candles[|candles| - 1]));
      CandleRowsTotal(candles[|candles| - 1]);
    }
  }

  /** The rows kept of the intraday feed, in order: those with a price and a volume. */
  lemma {:induction false} ProfileRowsAre(points: seq<Row>, front: seq<Row>, p: Row)
    requires points == front + [p]
    ensures ProfileRows([]) == [] && ProfileRows(points) == ProfileRows(front) + if p.price > 0.0 && p.volume > 0.0 then [p] else []
  {
    assert points[..|points| - 1] == front && points[|points| - 1] == p;
  }

  /** Price times volume over the first `n` rows. */
  function Turnover(rows: seq<Row>, n: nat): real
    requires n <= |rows|
  {
    if n == 0 then 0.0 else Turnover(rows, n - 1) + rows[n - 1].price * rows[n - 1].volume
  }

  lemma {:induction false} TurnoverOfPrefix(rows: seq<Row>, more: seq<Row>, n: nat)
    requires n <= |rows|
    ensures Turnover(rows + more, n) == Turnover(rows, n)
    decreases n
  {
    if n > 0 {
      TurnoverOfPrefix(rows, more, n - 1);
    }
  }

  /** What a candle turns over at the mean of its low, its close taken twice, and its high. */
  function CandleTurnover(candles: seq<Candle>): real {
    if candles == [] then 0.0
    else
      var c := candles[|candles| - 1];
      CandleTurnover(candles[..|candles| - 1]) +
      (if c.low > 0.0 && c.close > 0.0 && c.high > 0.0 && c.volume > 0.0 then (c.low + 2.0 * c.close + c.high) / 4.0 * c.volume else 0.0)
  }

  lemma TurnoverOfThree(rows: seq<Row>, a: Row, b: Row, c: Row)
    ensures Turnover(rows + [a, b, c], |rows| + 3) == Turnover(rows, |rows|) + a.price * a.volume + b.price * b.volume + c.price * c.volume
  {
    var more := rows + [a, b, c];
    TurnoverOfPrefix(rows, [a, b, c], |rows|);
    assert more[|rows|] == a && more[|rows| + 1] == b && more[|rows| + 2] == c;
    assert Turnover(more, |rows| + 1) == Turnover(more, |rows|) + a.price * a.volume;
    assert Turnover(more, |rows| + 2) == Turnover(more, |rows| + 1) + b.price * b.volume;
  }

  lemma Quarters(low: real, close: real, high: real, volume: real)
    ensures low * (volume * 0.25) + close * (volume * 0.5) + high * (volume * 0.25) == (low + 2.0 * close + high) / 4.0 * volume
  {
  }

  /** Spreading the candles turns over the same money at that mean. */
  lemma {:induction false} DailyRowsKeepTurnover(candles: seq<Candle>)
    ensures Turnover(DailyRows(candles), |DailyRows(candles)|) == CandleTurnover(candles)
  {
    if candles != [] {
      var c, before := candles[|candles| - 1], DailyRows(candles[..|candles| - 1]);
      DailyRowsKeepTurnover(candles[..|candles| - 1]);
      if UsableCandle(c) {
        TurnoverOfThree(before, Row(c.low, c.volume * 0.25), Row(c.close, c.volume * 0.5), Row(c.high, c.volume * 0.25));
        Quarters(c.low, c.close, c.high, c.volume);
      } else {
        assert before + [] == before;
      }
    }
  }

  /** Daily candles, the last sixty of them, stand in exactly when the intraday feed has fewer than eight usable rows. */
  lemma SourceIff(points: seq<Row>, candles: seq<Candle>)
    ensures if |ProfileRows(points)| >= 8 then SourceOf(points) == Intraday && RowsOf(points, candles) == ProfileRows(points)
            else SourceOf(points) == DailyProxy &&
                 RowsOf(points, candles) == DailyRows(if |candles| > 60 then candles[|candles| - 60..] else candles)
  {
  }

  // ----- The report -----

  datatype Report = Report(source: Source, poc: real, valueLow: real, valueHigh: real, position: Position, nodes: set<nat>, roomUp: real, roomDown: real)

  /** The middle price of bucket `i`. */
  function Mid(p: Profile, i: nat): real
    requires p.Profile?
  {
    (Edge(p.low, p.step, i) + Edge(p.low, p.step, i + 1)) / 2.0
  }

  function PctDistance(base: real, target: real): real {
    if base > 0.0 && target > 0.0 then (target / base - 1.0) * 100.0 else 0.0
  }

  function Magnitude(x: real): real {
    if x < 0.0 then -x else x
  }

  function PositionOf(spot: real, poc: real, valueLow: real, valueHigh: real): Position {
    if spot <= 0.0 then UnknownPosition
    else if spot > valueHigh then AboveValueArea
    else if spot < valueLow then BelowValueArea
    else if Magnitude(PctDistance(spot, poc)) <= 0.35 then NearPoc
    else InsideValueArea
  }

  /** Buckets with less than 45% of an even share of the volume. */
  predicate IsNode(v: seq<real>, i: nat, total: real)
    requires i < |v| && total > 0.0
  {
    v[i] / total * 100.0 <= 100.0 / |v| as real * 0.45
  }

  function LowVolumeNodes(v: seq<real>, total: real): set<nat>
    requires total > 0.0
  {
    set i: nat | i < |v| && IsNode(v, i, total)
  }

  predicate Ahead(price: real, spot: real, up: bool) {
    if up then price > spot else price < spot
  }

  predicate Nearer(a: real, b: real, up: bool) {
    if up then a <= b else a >= b
  }

  function Room(spot: real, price: real, up: bool): real
    requires spot > 0.0
  {
    if up then (price / spot - 1.0) * 100.0 else (1.0 - price / spot) * 100.0
  }

  /** `room` is the distance to the nearest node on that side of the spot, in percent of it; zero without one. */
  ghost predicate IsRoom(room: real, spot: real, prices: seq<real>, up: bool) {
    if spot <= 0.0 || forall x <- prices :: !Ahead(x, spot, up) then room == 0.0
    else exists x <- prices :: Ahead(x, spot, up) && room == Room(spot, x, up) && forall y <- prices :: Ahead(y, spot, up) ==> Nearer(x, y, up)
  }

  method LowVolumeRoomPct(spot: real, prices: seq<real>, up: bool) returns (room: real)
    ensures IsRoom(room, spot, prices, up)
  {
    if spot <= 0.0 {
      return 0.0;
    }
    var nearest: Option<real> := None;
    for i := 0 to |prices|
      invariant nearest.None? ==> forall k :: 0 <= k < i ==> !Ahead(prices[k], spot, up)
      invariant nearest.Some? ==> nearest.value in prices && Ahead(nearest.value, spot, up) &&
                                  forall k :: 0 <= k < i && Ahead(prices[k], spot, up) ==> Nearer(nearest.value, prices[k], up)
    {
      if Ahead(prices[i], spot, up) && (nearest.None? || Nearer(prices[i], nearest.value, up)) {
        nearest := Some(prices[i]);
      }
    }
    match nearest
    case None => room := 0.0;
    case Some(price) => room := Room(spot, price, up);
  }

  function NodePrices(p: Profile, total: real, n: nat): (prices: seq<real>)
    requires p.Profile? && total > 0.0 && n <= |p.volumes|
    ensures forall x :: x in prices <==> exists i: nat :: i < n && IsNode(p.volumes, i, total) && x == Mid(p, i)
  {
    if n == 0 then [] else NodePrices(p, total, n - 1) + (if IsNode(p.volumes, n - 1, total) then [Mid(p, n - 1)] else [])
  }

  /** What is reported of a profile. */
  ghost predicate IsReport(r: Report, p: Profile, source: Source, total: real, spot: real)
    requires total > 0.0
  {
    p.Profile? && r.source == source && r.poc == Mid(p, p.poc) && r.valueLow == Edge(p.low, p.step, p.left) &&
    r.valueHigh == Edge(p.low, p.step, p.right + 1) && r.position == PositionOf(spot, r.poc, r.valueLow, r.valueHigh) &&
    r.nodes == LowVolumeNodes(p.volumes, total) &&
    IsRoom(r.roomUp, spot, NodePrices(p, total, |p.volumes|), true) && IsRoom(r.roomDown, spot, NodePrices(p, total, |p.volumes|), false)
  }

  method ReportProfile(p: Profile, source: Source, total: real, spot: real) returns (r: Report)
    requires p.Profile? && total > 0.0
    ensures IsReport(r, p, source, total, spot)
  {
    var poc, valueLow, valueHigh := Mid(p, p.poc), Edge(p.low, p.step, p.left), Edge(p.low, p.step, p.right + 1);
    var prices := NodePrices(p, total, |p.volumes|);
    var up := LowVolumeRoomPct(spot, prices, true);
    var down := LowVolumeRoomPct(spot, prices, false);
    r := Report(source, poc, valueLow, valueHigh, PositionOf(spot, poc, valueLow, valueHigh), LowVolumeNodes(p.volumes, total), up, down);
  }

  /** From the feeds to the report. Rows without a price or a volume are left out, so a profile is missing only for too few rows
      or a single price: the guard against missing volume never acts. */
  method BuildReport(points: seq<Row>, candles: seq<Candle>, spot: real, bins: int) returns (r: Option<Report>, ghost p: Profile)
    ensures var rows := RowsOf(points, candles);
            r.None? <==> |rows| < 8 || Flat(rows)
    ensures var rows := RowsOf(points, candles);
            r.Some? ==> TotalVolume(rows, |rows|) > 0.0 && IsProfile(p, rows, BinCount(bins)) &&
                        IsReport(r.value, p, SourceOf(points), TotalVolume(rows, |rows|), spot)
  {
    var rows := CollectRows(points);
    var source := Intraday;
    if |rows| < 8 {
      rows := CollectDailyRows(LastSixty(candles));
      source := DailyProxy;
    }
    var profile := BuildVolumeProfile(rows, bins);
    p := profile;
    ProfileRowsUsable(points);
    DailyRowsUsable(LastSixty(candles));
    if |rows| > 0 {
      UsableRowsTrade(rows, |rows|);
    }
    if profile.Unavailable? {
      return None, p;
    }
    var report := ReportProfile(profile, source, TotalVolume(rows, |rows|), spot);
    r := Some(report);
  }

  // ----- What the reported prices mean -----

  /** The spot lies above or below the value area, or inside it and then within 0.35 percent of the point of control or not. */
  lemma PositionIff(r: Report, p: Profile, source: Source, total: real, spot: real)
    requires total > 0.0 && IsReport(r, p, source, total, spot)
    ensures r.position == UnknownPosition <==> spot <= 0.0
    ensures r.position == AboveValueArea <==> spot > 0.0 && spot > r.valueHigh
    ensures r.position == BelowValueArea <==> 0.0 < spot < r.valueLow && spot <= r.valueHigh
    ensures r.position == NearPoc <==>
            spot > 0.0 && r.valueLow <= spot <= r.valueHigh && (r.poc <= 0.0 || spot * 0.9965 <= r.poc <= spot * 1.0035)
  {
    if spot > 0.0 {
      NearIff(spot, r.poc);
    }
  }

  lemma NearIff(spot: real, poc: real)
    requires spot > 0.0
    ensures Magnitude(PctDistance(spot, poc)) <= 0.35 <==> poc <= 0.0 || spot * 0.9965 <= poc <= spot * 1.0035
  {
    if poc > 0.0 {
      RatioBetween(poc, spot);
      assert PctDistance(spot, poc) == (poc / spot - 1.0) * 100.0;
    }
  }

  lemma RatioBetween(x: real, y: real)
    requires y > 0.0
    ensures 0.9965 <= x / y <= 1.0035 <==> y * 0.9965 <= x <= y * 1.0035
  {
    QuotientTimes(x, y);
    FactorBetween(x / y, x, y);
  }

  lemma FactorBetween(q: real, x: real, y: real)
    requires y > 0.0 && q * y == x
    ensures 0.9965 <= q <= 1.0035 <==> y * 0.9965 <= x <= y * 1.0035
  {
    Scale(0.9965, q, y);
    Scale(q, 1.0035, y);
  }

  lemma Scale(a: real, b: real, z: real)
    requires z > 0.0
    ensures a <= b <==> a * z <= b * z
  {
  }

  /** The nodes of a report are the buckets with at most 45 percent of an even share. */
  lemma NodesIff(r: Report, v: seq<real>, total: real, i: nat)
    requires total > 0.0 && r.nodes == LowVolumeNodes(v, total)
    ensures i in r.nodes <==> i < |v| && v[i] * |v| as real <= 0.45 * total
  {
    NodeIff(v, i, total);
  }

  lemma NodeIff(v: seq<real>, i: nat, total: real)
    requires total > 0.0
    ensures i in LowVolumeNodes(v, total) <==> i < |v| && v[i] * |v| as real <= 0.45 * total
  {
    if i < |v| {
      ShareIff(v[i], total, |v| as real);
    }
  }

  lemma ShareIff(x: real, total: real, n: real)
    requires total > 0.0 && n > 0.0
    ensures x / total * 100.0 <= 100.0 / n * 0.45 <==> x * n <= 0.45 * total
  {
    QuotientTimes(x, total);
    QuotientTimes(1.0, n);
    QuotientTimes(100.0, n);
    assert (100.0 / n - 100.0 * (1.0 / n)) * n == 0.0;
    ShareOf(x / total, 1.0 / n, x, total, n);
  }

  lemma ShareOf(share: real, even: real, x: real, total: real, n: real)
    requires total > 0.0 && n > 0.0 && share * total == x && even * n == 1.0
    ensures share * 100.0 <= 45.0 * even <==> x * n <= 0.45 * total
  {
    Scale(share, 0.45 * even, n);
    Scale(share * n, 0.45, total);
    assert share * n * total == x * n;
  }

  /** The middle of a bucket lies half a step above its lower edge. */
  lemma MidIs(p: Profile, i: nat)
    requires p.Profile?
    ensures Mid(p, i) == p.low + p.step * i as real + p.step / 2.0
  {
  }

  /** The price `room` percent of the spot away from it. */
  function Away(spot: real, room: real, up: bool): real {
    if up then spot + spot * room / 100.0 else spot - spot * room / 100.0
  }

  /** `price` is a node ahead of the spot and none lies between them. */
  ghost predicate IsNearest(price: real, spot: real, prices: seq<real>, up: bool) {
    price in prices && (if up then spot < price else price < spot) && forall x <- prices :: !(spot < x < price) && !(price < x < spot)
  }

  /** The room on a side is a distance in percent of the spot: moving so far from it leads to the nearest node on that side. Without
      a node there it is zero. */
  lemma RoomLeadsToANode(room: real, spot: real, prices: seq<real>, up: bool)
    requires spot > 0.0 && IsRoom(room, spot, prices, up)
    ensures IsNearest(Away(spot, room, up), spot, prices, up) || (room == 0.0 && forall x <- prices :: if up then x <= spot else x >= spot)
  {
    if exists x <- prices :: Ahead(x, spot, up) {
      var x :| x in prices && Ahead(x, spot, up) && room == Room(spot, x, up) && forall y <- prices :: Ahead(y, spot, up) ==> Nearer(x, y, up);
      RoomIs(spot, x, up);
      assert IsNearest(x, spot, prices, up);
    }
  }

  lemma RoomIs(spot: real, x: real, up: bool)
    requires spot > 0.0
    ensures x == Away(spot, Room(spot, x, up), up)
  {
    var q := x / spot;
    assert q * spot == x;
    if up {
      assert spot * ((q - 1.0) * 100.0) / 100.0 == q * spot - spot;
    } else {
      assert spot * ((1.0 - q) * 100.0) / 100.0 == spot - q * spot;
    }
  }

  /** The point of control lies inside the value area, and both inside the range of the rows' buckets. */
  lemma PricesAreOrdered(p: Profile, rows: seq<Row>, bins: nat)
    requires IsProfile(p, rows, bins)
    ensures p.low <= Edge(p.low, p.step, p.left) < Mid(p, p.poc) < Edge(p.low, p.step, p.right + 1) <= Edge(p.low, p.step, bins)
  {
    EdgesGrow(p.low, p.step, 0, p.left);
    EdgesGrow(p.low, p.step, p.left, p.poc);
    EdgesGrow(p.low, p.step, p.poc + 1, p.right + 1);
    EdgesGrow(p.low, p.step, p.right + 1, bins);
    EdgeStep(p.low, p.step, p.poc);
  }

  lemma EdgeStep(low: real, step: real, k: nat)
    requires step > 0.0
    ensures Edge(low, step, k + 1) == Edge(low, step, k) + step
  {
  }

  lemma {:induction false} EdgesGrow(low: real, step: real, i: nat, j: nat)
    requires step > 0.0 && i <= j
    ensures Edge(low, step, i) <= Edge(low, step, j)
    decreases j - i
  {
    if i < j {
      EdgeStep(low, step, j - 1);
      EdgesGrow(low, step, i, j - 1);
    }
  }

  lemma {:induction false} SumAtMost(v: seq<real>, most: real, n: nat)
    requires n <= |v| && forall i :: 0 <= i < |v| ==> v[i] <= most
    ensures Sum(v, 0, n) <= n as real * most
  {
    if n > 0 {
      SumAtMost(v, most, n - 1);
    }
  }

  /** The point of control is never among the low-volume nodes: it holds at least an even share. */
  lemma PocIsNoNode(p: Profile, rows: seq<Row>, bins: nat)
    requires IsProfile(p, rows, bins) && TotalVolume(rows, |rows|) > 0.0
    ensures p.poc !in LowVolumeNodes(p.volumes, TotalVolume(rows, |rows|))
  {
    FullestIsNoNode(p.volumes, p.poc, TotalVolume(rows, |rows|));
  }

  lemma FullestIsNoNode(v: seq<real>, poc: nat, total: real)
    requires poc < |v| && (forall i :: 0 <= i < |v| ==> v[i] <= v[poc]) && total == Sum(v, 0, |v|) && total > 0.0
    ensures poc !in LowVolumeNodes(v, total)
  {
    SumAtMost(v, v[poc], |v|);
    EvenShare(v[poc], total, |v| as real);
  }

  lemma EvenShare(x: real, total: real, n: real)
    requires total > 0.0 && n >= 1.0 && total <= n * x
    ensures x / total * 100.0 > 100.0 / n * 0.45
  {
    var share, even := x / total, 1.0 / n;
    assert share * total == x && even * n == 1.0;
    Regroup(n, share, total);
    if n * share < 1.0 {
      Scaled(n * share, 1.0, total);
    }
    if share < even {
      Scaled(share, even, n);
    }
    assert 100.0 / n * 0.45 == even * 45.0 && even > 0.0;
  }

  lemma Regroup(x: real, y: real, z: real)
    ensures x * (y * z) == (x * y) * z
  {
  }

  lemma Scaled(x: real, y: real, z: real)
    requires x < y && z > 0.0
    ensures x * z < y * z
  {
  }
}
