/** The volume histogram and its value area (`market_structure.py`). */
module VolumeProfile {
  // ----- Sums over an interval -----

  function Sum(v: seq<real>, low: nat, high: nat): real
    requires low <= high <= |v|
    decreases high - low
  {
    if low == high then 0.0 else Sum(v, low, high - 1) + v[high - 1]
  }

  lemma {:induction false} SumSplit(v: seq<real>, low: nat, middle: nat, high: nat)
    requires low <= middle <= high <= |v|
    ensures Sum(v, low, high) == Sum(v, low, middle) + Sum(v, middle, high)
    decreases high - middle
  {
    if middle < high {
      SumSplit(v, low, middle, high - 1);
    }
  }

  ghost predicate NonNegative(v: seq<real>) {
    forall i :: 0 <= i < |v| ==> v[i] >= 0.0
  }

  /** An interval of no more, and no greater, volumes adds up to no more. */
  lemma {:induction false} SumDominated(v: seq<real>, a: nat, b: nat, c: nat, d: nat)
    requires a <= b <= |v| && c <= d <= |v| && b - a <= d - c && NonNegative(v)
    requires forall i, j :: a <= i < b && c <= j < d ==> v[i] <= v[j]
    ensures Sum(v, a, b) <= Sum(v, c, d)
    decreases d - c
  {
    if c < d {
      if a < b {
        SumDominated(v, a, b - 1, c, d - 1);
      } else {
        SumDominated(v, a, b, c, d - 1);
      }
    }
  }

  // ----- The value area -----

  /** Volumes do not rise away from the point of control. */
  ghost predicate Unimodal(v: seq<real>, poc: nat) {
    (forall i, j :: 0 <= i < j <= poc && j < |v| ==> v[i] <= v[j]) &&
    (forall i, j :: poc <= i < j < |v| ==> v[i] >= v[j])
  }

  /** No bucket outside `[left, right]` holds more than one inside. */
  ghost predicate Dominates(v: seq<real>, left: nat, right: nat) {
    forall i, j :: left <= i <= right < |v| && 0 <= j < |v| && (j < left || right < j) ==> v[j] <= v[i]
  }

  /** A dominating interval holds at least as much as any other interval around the same bucket that is not longer. */
  lemma DominatingIsRichest(v: seq<real>, poc: nat, left: nat, right: nat, a: nat, e: nat)
    requires left <= poc <= right < |v| && a <= poc < e <= |v| && e - a <= right + 1 - left
    requires NonNegative(v) && Dominates(v, left, right)
    ensures Sum(v, a, e) <= Sum(v, left, right + 1)
  {
    if a < left {
      SumSplit(v, a, left, e);
      SumSplit(v, left, e, right + 1);
      SumDominated(v, a, left, e, right + 1);
    } else if right + 1 < e {
      SumSplit(v, a, right + 1, e);
      SumSplit(v, left, a, right + 1);
      SumDominated(v, right + 1, e, left, a);
    } else {
      SumSplit(v, left, a, right + 1);
      SumSplit(v, a, e, right + 1);
      SumDominated(v, 0, 0, left, a);
      SumDominated(v, 0, 0, e, right + 1);
    }
  }

  /** `[left, right]` fell short of the target until its last extension. */
  ghost predicate ReachedLast(v: seq<real>, poc: nat, left: nat, right: nat, target: real)
    requires left <= poc <= right < |v|
  {
    left == right ||
    (left < poc && Sum(v, left + 1, right + 1) < target) ||
    (poc < right && Sum(v, left, right) < target)
  }

  /** No shorter interval around the point of control reaches the target. */
  ghost predicate IsShortest(v: seq<real>, poc: nat, left: nat, right: nat, target: real) {
    forall a: nat, e: nat :: a <= poc < e <= |v| && Sum(v, a, e) >= target ==> right + 1 - left <= e - a
  }

  lemma ExtensionDominates(v: seq<real>, poc: nat, left: nat, right: nat, toRight: bool)
    requires left <= poc <= right < |v| && Unimodal(v, poc) && Dominates(v, left, right)
    requires toRight ==> right + 1 < |v| && (left > 0 ==> v[right + 1] >= v[left - 1])
    requires !toRight ==> left > 0 && (right + 1 < |v| ==> v[right + 1] <= v[left - 1])
    ensures if toRight then Dominates(v, left, right + 1) else Dominates(v, left - 1, right)
  {
    var l, r := if toRight then left else left - 1, if toRight then right + 1 else right;
    forall i, j | l <= i <= r < |v| && 0 <= j < |v| && (j < l || r < j)
      ensures v[j] <= v[i]
    {
      if toRight && i == r && j < left && j < left - 1 {
        assert v[j] <= v[left - 1];
      }
      if !toRight && i == l && right < j && right + 1 < j {
        assert v[j] <= v[right + 1];
      }
    }
  }

  lemma ShortestAfterExtension(v: seq<real>, poc: nat, left: nat, right: nat, target: real)
    requires left <= poc <= right < |v| && NonNegative(v) && Dominates(v, left, right) && Sum(v, left, right + 1) < target
    ensures forall a: nat, e: nat :: a <= poc < e <= |v| && Sum(v, a, e) >= target ==> right + 2 - left <= e - a
  {
    forall a: nat, e: nat | a <= poc < e <= |v| && Sum(v, a, e) >= target
      ensures right + 2 - left <= e - a
    {
      if e - a <= right + 1 - left {
        DominatingIsRichest(v, poc, left, right, a, e);
      }
    }
  }

  /** `[left, right]` grew from the point of control step by step, each time short of the target, towards the larger neighbour, and
      upwards between equal ones. */
  ghost predicate Grows(v: seq<real>, poc: nat, left: nat, right: nat, target: real)
    requires left <= poc <= right < |v|
    decreases right - left
  {
    (left == right) ||
    (poc < right && Grows(v, poc, left, right - 1, target) && Sum(v, left, right) < target && (left == 0 || v[right] >= v[left - 1])) ||
    (left < poc && Grows(v, poc, left + 1, right, target) && Sum(v, left + 1, right + 1) < target && (right == |v| - 1 || v[left] > v[right + 1]))
  }

  lemma {:induction false} GrowsOneWay(v: seq<real>, poc: nat, a: nat, b: nat, c: nat, d: nat, target: real)
    requires a <= poc <= b < |v| && c <= poc <= d < |v| && b - a == d - c
    requires Grows(v, poc, a, b, target) && Grows(v, poc, c, d, target)
    ensures a == c && b == d
    decreases b - a
  {
    if a < b {
      var e, f := Before(v, poc, a, b, target);
      var g, h := Before(v, poc, c, d, target);
      GrowsOneWay(v, poc, e, f, g, h, target);
    }
  }

  /** The interval one step before. */
  lemma Before(v: seq<real>, poc: nat, left: nat, right: nat, target: real) returns (l: nat, r: nat)
    requires left <= poc <= right < |v| && left < right && Grows(v, poc, left, right, target)
    ensures l <= poc <= r < |v| && Grows(v, poc, l, r, target) && Sum(v, l, r + 1) < target
    ensures (l == left && r == right - 1 && (left == 0 || v[right] >= v[left - 1])) ||
            (l == left + 1 && r == right && (right == |v| - 1 || v[left] > v[right + 1]))
  {
    if poc < right && Grows(v, poc, left, right - 1, target) && Sum(v, left, right) < target && (left == 0 || v[right] >= v[left - 1]) {
      l, r := left, right - 1;
    } else {
      l, r := left + 1, right;
    }
  }

  /** On the way to a longer interval lies one of every length, and it had not reached the target. */
  lemma {:induction false} Passes(v: seq<real>, poc: nat, left: nat, right: nat, length: nat, target: real) returns (l: nat, r: nat)
    requires left <= poc <= right < |v| && Grows(v, poc, left, right, target) && length < right - left
    ensures l <= poc <= r < |v| && r - l == length && Grows(v, poc, l, r, target) && Sum(v, l, r + 1) < target
    decreases right - left
  {
    l, r := Before(v, poc, left, right, target);
    if r - l > length {
      l, r := Passes(v, poc, l, r, length, target);
    }
  }

  /** An interval at which the growth stops. */
  predicate Stops(v: seq<real>, left: nat, right: nat, target: real)
    requires left <= right < |v|
  {
    Sum(v, left, right + 1) >= target || (left == 0 && right == |v| - 1)
  }

  lemma StopsFirst(v: seq<real>, poc: nat, a: nat, b: nat, c: nat, d: nat, target: real)
    requires a <= poc <= b < |v| && c <= poc <= d < |v| && Grows(v, poc, a, b, target) && Grows(v, poc, c, d, target)
    requires Stops(v, a, b, target)
    ensures d - c <= b - a
  {
    if b - a < d - c {
      var l, r := Passes(v, poc, c, d, b - a, target);
      GrowsOneWay(v, poc, a, b, l, r, target);
    }
  }

  /** The value area is the only interval that grows like this and stops. */
  lemma ValueAreaIsUnique(v: seq<real>, poc: nat, a: nat, b: nat, c: nat, d: nat, target: real)
    requires a <= poc <= b < |v| && c <= poc <= d < |v| && Grows(v, poc, a, b, target) && Grows(v, poc, c, d, target)
    requires Stops(v, a, b, target) && Stops(v, c, d, target)
    ensures a == c && b == d
  {
    StopsFirst(v, poc, a, b, c, d, target);
    StopsFirst(v, poc, c, d, a, b, target);
    GrowsOneWay(v, poc, a, b, c, d, target);
  }

  /** Grows from the point of control towards the larger neighbour. The interval reaches the target unless it is all of
      the histogram, did not reach it one step earlier, and is a shortest one where volumes fall off on both sides. */
  method ValueArea(v: seq<real>, poc: nat, target: real) returns (left: nat, right: nat)
    requires poc < |v| && NonNegative(v)
    ensures left <= poc <= right < |v|
    ensures Sum(v, left, right + 1) >= target || (left == 0 && right == |v| - 1)
    ensures Grows(v, poc, left, right, target) && Stops(v, left, right, target)
    ensures ReachedLast(v, poc, left, right, target)
    ensures Unimodal(v, poc) ==> IsShortest(v, poc, left, right, target)
  {
    left, right := poc, poc;
    var total := v[poc];
    while total < target && (left > 0 || right < |v| - 1)
      invariant left <= poc <= right < |v|
      invariant total == Sum(v, left, right + 1)
      invariant Grows(v, poc, left, right, target)
      invariant ReachedLast(v, poc, left, right, target)
      invariant Unimodal(v, poc) ==> Dominates(v, left, right) && IsShortest(v, poc, left, right, target)
      decreases |v| - (right - left)
    {
      var leftVolume := if left > 0 then v[left - 1] else -1.0;
      var rightVolume := if right < |v| - 1 then v[right + 1] else -1.0;
      if Unimodal(v, poc) {
        ShortestAfterExtension(v, poc, left, right, target);
      }
      if rightVolume >= leftVolume && right < |v| - 1 {
        if Unimodal(v, poc) {
          ExtensionDominates(v, poc, left, right, true);
        }
        right := right + 1;
        total := total + v[right];
      } else if left > 0 {
        if Unimodal(v, poc) {
          ExtensionDominates(v, poc, left, right, false);
        }
        SumSplit(v, left - 1, left, right + 1);
        assert Sum(v, left - 1, left) == v[left - 1];
        left := left - 1;
        total := total + v[left];
      } else {
        // Not reached for non-negative volumes.
        assert false;
        break;
      }
    }
  }

  // ----- The histogram -----

  datatype Row = Row(price: real, volume: real)

  function Positive(x: real): real {
    if x < 0.0 then 0.0 else x
  }

  function BucketOf(price: real, low: real, step: real, bins: nat): (i: nat)
    requires step > 0.0 && bins > 0
    ensures i < bins
  {
    var raw := ((price - low) / step).Floor;
    if raw < 0 then 0 else if raw > bins - 1 then bins - 1 else raw
  }

  lemma QuotientTimes(x: real, step: real)
    requires step > 0.0
    ensures (x / step) * step == x
  {
  }

  lemma ScaleOrder(a: real, b: real, step: real)
    requires step > 0.0
    ensures a <= b ==> a * step <= b * step
    ensures a < b ==> a * step < b * step
  {
  }

  lemma QuotientNonNegative(x: real, step: real)
    requires step > 0.0 && x >= 0.0
    ensures x / step >= 0.0
  {
  }

  /** Where bucket `k` begins. */
  function Edge(low: real, step: real, k: int): real {
    low + k as real * step
  }

  lemma EdgeAtMost(q: real, low: real, step: real, k: int)
    requires step > 0.0 && k as real <= q
    ensures Edge(low, step, k) <= low + q * step
  {
    ScaleOrder(k as real, q, step);
  }

  lemma EdgeAbove(q: real, low: real, step: real, k: int)
    requires step > 0.0 && q < k as real
    ensures low + q * step < Edge(low, step, k)
  {
    ScaleOrder(q, k as real, step);
  }

  /** The bucket's price range contains the price; the last one is closed on top. */
  lemma BucketContains(price: real, low: real, step: real, bins: nat)
    requires bins > 0 && step > 0.0 && low <= price <= Edge(low, step, bins)
    ensures var i := BucketOf(price, low, step, bins);
            Edge(low, step, i) <= price && (price < Edge(low, step, i + 1) || (i == bins - 1 && price == Edge(low, step, bins)))
  {
    var q := (price - low) / step;
    QuotientTimes(price - low, step);
    QuotientNonNegative(price - low, step);
    assert low + q * step == price;
    var raw := q.Floor;
    assert raw as real <= q < (raw + 1) as real && raw >= 0;
    if raw > bins - 1 {
      EdgeAtMost(q, low, step, bins - 1);
      EdgeAtMost(q, low, step, bins);
      assert BucketOf(price, low, step, bins) == bins - 1;
    } else {
      EdgeAtMost(q, low, step, raw);
      EdgeAbove(q, low, step, raw + 1);
      assert BucketOf(price, low, step, bins) == raw;
    }
  }

  /** The volume of the first `n` rows that fall into bucket `i`. */
  function BucketVolume(rows: seq<Row>, n: nat, low: real, step: real, bins: nat, i: nat): real
    requires n <= |rows| && step > 0.0 && bins > 0
  {
    if n == 0 then 0.0
    else BucketVolume(rows, n - 1, low, step, bins, i) + (if BucketOf(rows[n - 1].price, low, step, bins) == i then Positive(rows[n - 1].volume) else 0.0)
  }

  function TotalVolume(rows: seq<Row>, n: nat): real
    requires n <= |rows|
  {
    if n == 0 then 0.0 else TotalVolume(rows, n - 1) + Positive(rows[n - 1].volume)
  }

  lemma {:induction false} SumOfUpdate(v: seq<real>, i: nat, x: real, low: nat, high: nat)
    requires i < |v| && low <= high <= |v|
    ensures Sum(v[i := v[i] + x], low, high) == Sum(v, low, high) + if low <= i < high then x else 0.0
    decreases high - low
  {
    if low < high {
      SumOfUpdate(v, i, x, low, high - 1);
    }
  }

  /** Fills the buckets in place: each holds the volume of the rows priced into it, and no volume is lost. */
  method FillBuckets(rows: seq<Row>, low: real, step: real, buckets: array<real>)
    requires step > 0.0 && buckets.Length > 0
    requires forall i :: 0 <= i < buckets.Length ==> buckets[i] == 0.0
    modifies buckets
    ensures forall i :: 0 <= i < buckets.Length ==> buckets[i] == BucketVolume(rows, |rows|, low, step, buckets.Length, i)
    ensures Sum(buckets[..], 0, buckets.Length) == TotalVolume(rows, |rows|)
    ensures NonNegative(buckets[..])
  {
    ZeroSum(buckets[..], buckets.Length);
    for n := 0 to |rows|
      invariant forall i :: 0 <= i < buckets.Length ==> buckets[i] == BucketVolume(rows, n, low, step, buckets.Length, i)
      invariant Sum(buckets[..], 0, buckets.Length) == TotalVolume(rows, n)
      invariant NonNegative(buckets[..])
    {
      var index := BucketOf(rows[n].price, low, step, buckets.Length);
      ghost var before := buckets[..];
      SumOfUpdate(before, index, Positive(rows[n].volume), 0, buckets.Length);
      buckets[index] := buckets[index] + Positive(rows[n].volume);
      assert buckets[..] == before[index := before[index] + Positive(rows[n].volume)];
    }
  }

  lemma {:induction false} ZeroSum(v: seq<real>, n: nat)
    requires n <= |v| && forall i :: 0 <= i < |v| ==> v[i] == 0.0
    ensures Sum(v, 0, n) == 0.0
  {
    if n > 0 {
      ZeroSum(v, n - 1);
    }
  }

  // ----- The profile -----

  datatype Profile =
    | Unavailable
    | Profile(poc: nat, left: nat, right: nat, volumes: seq<real>, low: real, step: real)

  method PriceRange(rows: seq<Row>) returns (low: real, high: real)
    requires rows != []
    ensures Spans(rows, low, high)
  {
    low, high := rows[0].price, rows[0].price;
    for k := 1 to |rows|
      invariant forall i :: 0 <= i < k ==> low <= rows[i].price <= high
      invariant (exists i :: 0 <= i < k && rows[i].price == low) && (exists i :: 0 <= i < k && rows[i].price == high)
    {
      if rows[k].price < low {
        low := rows[k].price;
      }
      if rows[k].price > high {
        high := rows[k].price;
      }
    }
  }

  /** The first of the fullest buckets. */
  method PointOfControl(v: seq<real>) returns (poc: nat)
    requires v != []
    ensures poc < |v| && (forall i :: 0 <= i < |v| ==> v[i] <= v[poc]) && (forall i :: 0 <= i < poc ==> v[i] < v[poc])
  {
    poc := 0;
    for k := 1 to |v|
      invariant poc < k && (forall i :: 0 <= i < k ==> v[i] <= v[poc]) && (forall i :: 0 <= i < poc ==> v[i] < v[poc])
    {
      if v[k] > v[poc] {
        poc := k;
      }
    }
  }

  predicate Flat(rows: seq<Row>) {
    forall i, j :: 0 <= i < |rows| && 0 <= j < |rows| ==> rows[i].price == rows[j].price
  }

  /** Zero asks for the default of 24. */
  function BinCount(bins: int): nat {
    var asked := if bins == 0 then 24 else bins;
    if asked < 8 then 8 else if asked > 48 then 48 else asked
  }

  /** The buckets span the prices and hold the rows' volumes; the value area holds at least 70% of all volume around the
      fullest bucket, and less before its last extension. */
  ghost predicate IsProfile(p: Profile, rows: seq<Row>, bins: nat) {
    p.Profile? && |p.volumes| == bins && p.left <= p.poc <= p.right < bins && p.step > 0.0 &&
    Spans(rows, p.low, Edge(p.low, p.step, bins)) && (forall i :: 0 <= i < p.poc ==> p.volumes[i] < p.volumes[p.poc]) &&
    (forall i :: 0 <= i < bins ==> p.volumes[i] == BucketVolume(rows, |rows|, p.low, p.step, bins, i) && p.volumes[i] <= p.volumes[p.poc]) &&
    Sum(p.volumes, 0, bins) == TotalVolume(rows, |rows|) && NonNegative(p.volumes) &&
    Sum(p.volumes, p.left, p.right + 1) >= TotalVolume(rows, |rows|) * 0.70 &&
    ReachedLast(p.volumes, p.poc, p.left, p.right, TotalVolume(rows, |rows|) * 0.70) &&
    Grows(p.volumes, p.poc, p.left, p.right, TotalVolume(rows, |rows|) * 0.70)
  }

  /** The least and the greatest price of the rows. */
  ghost predicate Spans(rows: seq<Row>, low: real, high: real) {
    (forall i :: 0 <= i < |rows| ==> low <= rows[i].price <= high) &&
    (exists i :: 0 <= i < |rows| && rows[i].price == low) && (exists i :: 0 <= i < |rows| && rows[i].price == high)
  }

  method ProfileOver(rows: seq<Row>, low: real, step: real, bins: nat) returns (profile: Profile)
    requires bins > 0 && step > 0.0 && Spans(rows, low, Edge(low, step, bins))
    ensures if TotalVolume(rows, |rows|) <= 0.0 then profile == Unavailable else IsProfile(profile, rows, bins)
  {
    var buckets := new real[bins](_ => 0.0);
    FillBuckets(rows, low, step, buckets);
    var v := buckets[..];
    var total := TotalVolume(rows, |rows|);
    if total <= 0.0 {
      return Unavailable;
    }
    var poc := PointOfControl(v);
    var left, right := ValueArea(v, poc, total * 0.70);
    profile := Profile(poc, left, right, v, low, step);
  }

  method BuildVolumeProfile(rows: seq<Row>, bins: int) returns (profile: Profile)
    ensures profile.Unavailable? <==> |rows| < 8 || Flat(rows) || TotalVolume(rows, |rows|) <= 0.0
    ensures profile.Profile? ==> IsProfile(profile, rows, BinCount(bins))
    ensures profile.Profile? ==> |profile.volumes| == if bins == 0 then 24 else if bins < 8 then 8 else if bins > 48 then 48 else bins
  {
    if |rows| < 8 {
      return Unavailable;
    }
    var low, high := PriceRange(rows);
    if high <= low {
      return Unavailable;
    }
    var step := (high - low) / BinCount(bins) as real;
    StepSpans(low, high, BinCount(bins));
    profile := ProfileOver(rows, low, step, BinCount(bins));
  }

  lemma StepSpans(low: real, high: real, bins: nat)
    requires low < high && bins > 0
    ensures var step := (high - low) / bins as real; step > 0.0 && Edge(low, step, bins) == high
  {
    QuotientTimes(high - low, bins as real);
  }
}
