/**
 The sparkline: a ring buffer of samples, resampled to the width it is drawn in. Arithmetic is
 exact here, where the program uses floating point.
 */
module Sparkline {

  // ---- the ring buffer ----

  /** The last `n` values, oldest first. */
  function LastOf(s: seq<real>, n: nat): seq<real> {
    if |s| <= n then s else s[|s| - n..]
  }

  /** What a ring holds, oldest first: it fills from the start, then the oldest is at `idx`. */
  function RingOf(d: seq<real>, idx: nat, len: nat): seq<real>
    requires idx < |d| && len <= |d|
  {
    if len < |d| then d[..len] else d[idx..] + d[..idx]
  }

  function Wrap(i: nat, n: nat): nat
    requires i < n
  {
    if i + 1 < n then i + 1 else 0
  }

  /** Writing at `idx` adds the newest value and, in a full ring, drops the oldest. */
  lemma RingPush(d: seq<real>, idx: nat, len: nat, v: real)
    requires idx < |d| && len <= |d| && (len < |d| ==> idx == len)
    ensures RingOf(d[idx := v], Wrap(idx, |d|), if len < |d| then len + 1 else len)
            == (if len < |d| then RingOf(d, idx, len) + [v] else RingOf(d, idx, len)[1..] + [v])
  {
    var e, front, back := d[idx := v], d[..idx], d[idx + 1..];
    assert e[..idx + 1] == front + [v];
    if idx + 1 < |d| {
      assert e[idx + 1..] == back;
      if len == |d| {
        assert RingOf(d, idx, len)[1..] == back + front;
        assert back + (front + [v]) == (back + front) + [v];
      }
    } else {
      assert e[..idx + 1] == e && d[idx..] == [d[idx]];
      assert len == |d| ==> RingOf(d, idx, len)[1..] == front;
    }
  }

  lemma WrapMod(i: nat, n: nat)
    requires i < n
    ensures (i + 1) % n == Wrap(i, n)
  {
  }

  class Sparkline {
    var data: array<real>
    var idx: nat
    var len: nat
    const min: real
    const max: real
    const auto: bool
    ghost var pushed: seq<real>

    /** The buffer holds the last values pushed, the oldest at `idx` once it is full. */
    ghost predicate Valid()
      reads this, data
    {
      && idx < data.Length && len <= data.Length
      && (len < data.Length ==> idx == len)
      && Contents() == LastOf(pushed, data.Length)
    }

    ghost function Contents(): seq<real>
      requires idx < data.Length && len <= data.Length
      reads this, data
    {
      RingOf(data[..], idx, len)
    }

    /** Without a usable maximum the scale adapts to the peak. */
    constructor (capacity: int, min: real, max: real)
      ensures Valid() && fresh(data) && pushed == []
      ensures data.Length == if capacity < 1 then 60 else capacity
      ensures this.min == min && auto == (max <= 0.0) && this.max == if max <= 0.0 then 1.0 else max
    {
      var n := if capacity < 1 then 60 else capacity;
      data := new real[n](_ => 0.0);
      idx, len := 0, 0;
      this.min := min;
      this.auto := max <= 0.0;
      this.max := if max <= 0.0 then 1.0 else max;
      pushed := [];
    }

    method Push(v: real)
      requires Valid()
      modifies this`idx, this`len, this`pushed, data
      ensures Valid() && pushed == old(pushed) + [v]
    {
      RingPush(data[..], idx, len, v);
      LastOfNext(pushed, v, data.Length);
      WrapMod(idx, data.Length);
      ghost var d := data[..];
      data[idx] := v;
      assert data[..] == d[idx := v];
      idx := (idx + 1) % data.Length;
      if len < data.Length {
        len := len + 1;
      }
      pushed := pushed + [v];
    }

    /** The samples in the order they were pushed. */
    method Ordered() returns (result: array<real>)
      requires Valid()
      ensures fresh(result) && result[..] == LastOf(pushed, data.Length)
    {
      result := new real[len];
      if len < data.Length {
        forall i | 0 <= i < len {
          result[i] := data[i];
        }
      } else {
        forall i | 0 <= i < len - idx {
          result[i] := data[idx + i];
        }
        forall i | 0 <= i < idx {
          result[data.Length - idx + i] := data[i];
        }
      }
      assert result[..] == Contents();
    }

    /** One cell for each column, or none at all. */
    method Render(width: int) returns (out: seq<Cell>)
      requires Valid()
      ensures out == if pushed == [] || width <= 0 then []
          else Drawn(Resampled(LastOf(pushed, data.Length), width), min, max, auto)
    {
      assert |LastOf(pushed, data.Length)| == len;
      if len == 0 || width <= 0 {
        return [];
      }
      var ordered := Ordered();
      var values := Resample(ordered[..], width);
      out := DrawColumns(values, min, max, auto);
    }
  }

  lemma LastOfNext(s: seq<real>, v: real, n: nat)
    requires n >= 1
    ensures LastOf(s + [v], n) == if |LastOf(s, n)| < n then LastOf(s, n) + [v] else LastOf(s, n)[1..] + [v]
  {
  }

  // ---- resampling ----

  /** Where bucket `i` of `width` begins among `n` samples. */
  function Edge(i: nat, n: nat, width: nat): nat
    requires width > 0
  {
    i * n / width
  }

  function SumOf(data: seq<real>, a: nat, b: nat): real
    requires a <= b <= |data|
    decreases b
  {
    if a == b then 0.0 else SumOf(data, a, b - 1) + data[b - 1]
  }

  /** The number of samples from `a` up to `b`. */
  function Gap(a: nat, b: nat): nat
    requires a <= b
  {
    b - a
  }

  function Mean(sum: real, n: nat): real
    requires n > 0
  {
    sum / n as real
  }

  /** The mean of bucket `i`. */
  function Bucket(data: seq<real>, width: nat, i: nat): real
    requires 0 < width < |data| && i < width
  {
    EdgesClimb(i, |data|, width);
    var a, b := Edge(i, |data|, width), Edge(i + 1, |data|, width);
    Mean(SumOf(data, a, b), Gap(a, b))
  }

  /** `data` fitted to `width` columns: bucket means, or padded on the left with -1. */
  function Resampled(data: seq<real>, width: nat): (r: seq<real>)
    requires width > 0
    ensures |r| == width
  {
    if |data| <= width then seq(width - |data|, _ => -1.0) + data
    else seq(width, i requires 0 <= i < width => Bucket(data, width, i))
  }

  lemma MulMono(a: int, b: int, c: nat)
    requires a <= b
    ensures a * c <= b * c
  {
  }

  lemma MulLess(a: real, b: real, c: real)
    requires a < b && c > 0.0
    ensures a * c < b * c
  {
  }

  lemma DivBounds(a: nat, b: nat)
    requires b > 0
    ensures a / b * b <= a < a / b * b + b
  {
  }

  lemma DivUnique(a: nat, b: nat, q: nat)
    requires b > 0 && q * b <= a < q * b + b
    ensures a / b == q
  {
    DivBounds(a, b);
    if q + 1 <= a / b {
      MulMono(q + 1, a / b, b);
    }
    if a / b + 1 <= q {
      MulMono(a / b + 1, q, b);
    }
  }

  lemma EdgeEnds(n: nat, width: nat)
    requires width > 0
    ensures Edge(0, n, width) == 0 && Edge(width, n, width) == n
  {
    DivUnique(0, width, 0);
    assert 0 * n == 0 && width * n == n * width;
    DivUnique(width * n, width, n);
  }

  lemma EdgeNext(i: nat, n: nat, width: nat)
    requires 0 < width < n
    ensures Edge(i, n, width) < Edge(i + 1, n, width)
  {
    var e, f := Edge(i, n, width), Edge(i + 1, n, width);
    DivBounds(i * n, width);
    DivBounds((i + 1) * n, width);
    assert (i + 1) * n == i * n + n;
    if f <= e {
      MulMono(f, e, width);
    }
  }

  lemma EdgeWithin(i: nat, n: nat, width: nat)
    requires 0 < width && i <= width
    ensures Edge(i, n, width) <= n
  {
    var e := Edge(i, n, width);
    DivBounds(i * n, width);
    MulMono(i, width, n);
    assert width * n == n * width;
    if n + 1 <= e {
      MulMono(n + 1, e, width);
    }
  }

  /** With more samples than columns, every bucket holds a sample and lies within the data. */
  lemma EdgesClimb(i: nat, n: nat, width: nat)
    requires 0 < width < n && i < width
    ensures Edge(0, n, width) == 0 && Edge(width, n, width) == n
    ensures Edge(i, n, width) < Edge(i + 1, n, width) <= n
  {
    EdgeEnds(n, width);
    EdgeNext(i, n, width);
    EdgeWithin(i + 1, n, width);
  }

  /** The program finds the edges by truncating multiples of the bucket size. */
  lemma FloorEdge(i: nat, n: nat, width: nat)
    requires width > 0
    ensures (i as real * (n as real / width as real)).Floor == Edge(i, n, width)
  {
    TimesQuotient(i as real, n as real, width as real);
    IntTimes(i, n);
    FloorQuotient(i as real * (n as real / width as real), i * n, width);
  }

  lemma FloorQuotient(x: real, a: nat, b: nat)
    requires b > 0 && x * b as real == a as real
    ensures x.Floor == a / b
  {
    var q := a / b;
    DivBounds(a, b);
    IntTimes(q, b);
    IntTimes(q + 1, b);
    Between(x, q as real, b as real);
    Between((q + 1) as real, x, b as real);
    NotEqual(x, q + 1, a, b);
  }

  lemma NotEqual(x: real, q: nat, a: nat, b: nat)
    requires x * b as real == a as real && a != q * b
    ensures x != q as real
  {
    IntTimes(q, b);
  }

  lemma Between(x: real, y: real, c: real)
    requires c > 0.0 && x * c >= y * c
    ensures x >= y
  {
    if x < y {
      MulLess(x, y, c);
    }
  }

  lemma TimesQuotient(i: real, n: real, w: real)
    requires w > 0.0
    ensures i * (n / w) * w == i * n
  {
    var r := n / w;
    assert r * w == n;
    assert i * r * w == i * (r * w);
  }

  lemma IntTimes(a: nat, b: nat)
    ensures a as real * b as real == (a * b) as real
  {
  }

  /** The inner loop of `resample`. */
  method MeanOf(data: seq<real>, a: nat, b: nat) returns (mean: real)
    requires a < b <= |data|
    ensures mean == Mean(SumOf(data, a, b), Gap(a, b))
  {
    var sum := 0.0;
    for j := a to b
      invariant sum == SumOf(data, a, j)
    {
      sum := sum + data[j];
    }
    var count := b - a;
    mean := sum / count as real;
  }

  method Resample(data: seq<real>, width: nat) returns (result: array<real>)
    requires width > 0
    ensures fresh(result) && result[..] == Resampled(data, width)
  {
    var n := |data|;
    result := new real[width];
    if n <= width {
      var pad := width - n;
      forall i | 0 <= i < pad {
        result[i] := -1.0;
      }
      forall i | 0 <= i < n {
        result[pad + i] := data[i];
      }
      return;
    }
    var bucketSize := n as real / width as real;
    for i := 0 to width
      invariant forall k | 0 <= k < i :: result[k] == Bucket(data, width, k)
    {
      var mean := BucketMean(data, width, bucketSize, i);
      result[i] := mean;
    }
  }

  /** The body of the loop over the buckets. */
  method BucketMean(data: seq<real>, width: nat, bucketSize: real, i: nat) returns (mean: real)
    requires 0 < width < |data| && bucketSize == |data| as real / width as real && i < width
    ensures mean == Bucket(data, width, i)
  {
    var n := |data|;
    EdgesClimb(i, n, width);
    var start := EdgeOf(i, bucketSize, n, width);
    var end := EdgeOf(i + 1, bucketSize, n, width);
    if end > n {
      end := n;
    }
    mean := MeanOf(data, start, end);
  }

  method EdgeOf(i: nat, bucketSize: real, n: nat, width: nat) returns (edge: nat)
    requires width > 0 && bucketSize == n as real / width as real
    ensures edge == Edge(i, n, width)
  {
    FloorEdge(i, n, width);
    edge := (i as real * bucketSize).Floor;
  }

  // ---- what resampling keeps ----

  /** Every sample lies in exactly one bucket. */
  lemma OneBucket(j: nat, n: nat, width: nat) returns (i: nat)
    requires 0 < width < n && j < n
    ensures i < width && Edge(i, n, width) <= j < Edge(i + 1, n, width)
    ensures forall k | 0 <= k < width && Edge(k, n, width) <= j < Edge(k + 1, n, width) :: k == i
  {
    EdgesClimb(0, n, width);
    i := 0;
    while j >= Edge(i + 1, n, width)
      invariant i < width && Edge(i, n, width) <= j
      decreases width - i
    {
      EdgesClimb(i, n, width);
      i := i + 1;
    }
    forall k | 0 <= k < width && Edge(k, n, width) <= j < Edge(k + 1, n, width) ensures k == i {
      if k < i {
        EdgesOrdered(k + 1, i, n, width);
      } else if i < k {
        EdgesOrdered(i + 1, k, n, width);
      }
    }
  }

  lemma {:induction false} EdgesOrdered(i: nat, j: nat, n: nat, width: nat)
    requires 0 < width < n && i <= j <= width
    ensures Edge(i, n, width) <= Edge(j, n, width)
    decreases j
  {
    if i < j {
      EdgesOrdered(i, j - 1, n, width);
      EdgesClimb(j - 1, n, width);
    }
  }

  lemma {:induction false} SumSplit(data: seq<real>, a: nat, b: nat, c: nat)
    requires a <= b <= c <= |data|
    ensures SumOf(data, a, c) == SumOf(data, a, b) + SumOf(data, b, c)
    decreases c
  {
    if b < c {
      SumSplit(data, a, b, c - 1);
    }
  }

  lemma OneMore(x: real, n: nat)
    ensures x * (n + 1) as real == x * n as real + x
  {
  }

  lemma {:induction false} SumBounds(data: seq<real>, a: nat, b: nat, lo: real, hi: real)
    requires a <= b <= |data| && forall i | a <= i < b :: lo <= data[i] <= hi
    ensures lo * Gap(a, b) as real <= SumOf(data, a, b) <= hi * Gap(a, b) as real
    decreases b
  {
    if a < b {
      SumBounds(data, a, b - 1, lo, hi);
      OneMore(lo, Gap(a, b - 1));
      OneMore(hi, Gap(a, b - 1));
    }
  }

  /** From 0 up to `n`, strictly. */
  predicate Climbing(c: seq<nat>, n: nat) {
    |c| > 0 && c[0] == 0 && c[|c| - 1] == n && (forall i | 0 <= i < |c| - 1 :: c[i] < c[i + 1]) && forall i | 0 <= i < |c| :: c[i] <= n
  }

  /** The borders of all buckets. */
  function Cuts(n: nat, width: nat): (c: seq<nat>)
    requires 0 < width < n
    ensures |c| == width + 1 && forall i | 0 <= i <= width :: c[i] == Edge(i, n, width)
  {
    seq(width + 1, i requires 0 <= i <= width => Edge(i, n, width))
  }

  lemma CutsClimb(n: nat, width: nat)
    requires 0 < width < n
    ensures Climbing(Cuts(n, width), n)
  {
    var c := Cuts(n, width);
    EdgeEnds(n, width);
    forall i | 0 <= i < width ensures c[i] < c[i + 1] {
      EdgeNext(i, n, width);
    }
    forall i | 0 <= i <= width ensures c[i] <= n {
      EdgeWithin(i, n, width);
    }
  }

  /** The columns up to `k`, each as often as there are samples in its bucket. */
  function Weighted(r: seq<real>, c: seq<nat>, n: nat, k: nat): real
    requires Climbing(c, n) && |c| == |r| + 1 && k <= |r|
    decreases k
  {
    if k == 0 then 0.0 else Weighted(r, c, n, k - 1) + r[k - 1] * Gap(c[k - 1], c[k]) as real
  }

  lemma BucketAdds(data: seq<real>, a: nat, b: nat)
    requires a < b <= |data|
    ensures SumOf(data, 0, a) + Mean(SumOf(data, a, b), Gap(a, b)) * Gap(a, b) as real == SumOf(data, 0, b)
  {
    SumSplit(data, 0, a, b);
    MeanTimes(SumOf(data, a, b), Gap(a, b));
  }

  lemma {:induction false} WeightedSoFar(data: seq<real>, r: seq<real>, c: seq<nat>, k: nat)
    requires Climbing(c, |data|) && |c| == |r| + 1 && k <= |r|
    requires forall i | 0 <= i < |r| :: r[i] == Mean(SumOf(data, c[i], c[i + 1]), Gap(c[i], c[i + 1]))
    ensures Weighted(r, c, |data|, k) == SumOf(data, 0, c[k])
    decreases k
  {
    if k > 0 {
      WeightedSoFar(data, r, c, k - 1);
      BucketAdds(data, c[k - 1], c[k]);
    }
  }

  lemma MeanTimes(sum: real, n: nat)
    requires n > 0
    ensures Mean(sum, n) * n as real == sum
  {
  }

  /** Downsampling loses nothing: weighted by the size of their buckets the columns add up to the
      data. */
  lemma ResampleConserves(data: seq<real>, width: nat)
    requires 0 < width < |data|
    ensures Climbing(Cuts(|data|, width), |data|)
    ensures Weighted(Resampled(data, width), Cuts(|data|, width), |data|, width) == SumOf(data, 0, |data|)
  {
    CutsClimb(|data|, width);
    WeightedSoFar(data, Resampled(data, width), Cuts(|data|, width), width);
  }

  /** Every column lies between the least and the greatest sample. */
  lemma ResampleWithin(data: seq<real>, width: nat, lo: real, hi: real)
    requires 0 < width < |data| && forall i | 0 <= i < |data| :: lo <= data[i] <= hi
    ensures forall k | 0 <= k < width :: lo <= Resampled(data, width)[k] <= hi
  {
    forall k | 0 <= k < width ensures lo <= Resampled(data, width)[k] <= hi {
      EdgesClimb(k, |data|, width);
      var a, b := Edge(k, |data|, width), Edge(k + 1, |data|, width);
      SumBounds(data, a, b, lo, hi);
      MeanWithin(SumOf(data, a, b), Gap(a, b), lo, hi);
    }
  }

  lemma MeanWithin(sum: real, n: nat, lo: real, hi: real)
    requires n > 0 && lo * n as real <= sum <= hi * n as real
    ensures lo <= Mean(sum, n) <= hi
  {
    MeanTimes(sum, n);
    if Mean(sum, n) < lo {
      MulLess(Mean(sum, n), lo, n as real);
    }
    if hi < Mean(sum, n) {
      MulLess(hi, Mean(sum, n), n as real);
    }
  }

  // ---- drawing ----

  /** A column: without data, or one of the eight blocks. */
  datatype Cell = Dim | Block(height: int)

  function PeakOf(values: seq<real>): real {
    if values == [] then 0.001
    else
      var peak, v := PeakOf(values[..|values| - 1]), values[|values| - 1];
      if v > peak then v else peak
  }

  method Peak(values: array<real>) returns (peak: real)
    ensures peak == PeakOf(values[..])
  {
    peak := 0.001;
    for i := 0 to values.Length
      invariant peak == PeakOf(values[..i])
    {
      assert values[..i + 1][..i] == values[..i];
      if values[i] > peak {
        peak := values[i];
      }
    }
    assert values[..values.Length] == values[..];
  }

  function Clamp01(x: real): real {
    if x < 0.0 then 0.0 else if x > 1.0 then 1.0 else x
  }

  function CellOf(v: real, min: real, span: real): Cell
    requires span > 0.0
  {
    if v < 0.0 then Dim else Block((Clamp01((v - min) / span) * 7.0).Floor)
  }

  /** The body of the drawing loop. */
  method Column(v: real, min: real, span: real) returns (cell: Cell)
    requires span > 0.0
    ensures cell == CellOf(v, min, span)
  {
    if v < 0.0 {
      return Dim;
    }
    var norm := (v - min) / span;
    if norm < 0.0 {
      norm := 0.0;
    }
    if norm > 1.0 {
      norm := 1.0;
    }
    cell := Block((norm * 7.0).Floor);
  }

  function Cells(values: seq<real>, min: real, span: real): seq<Cell>
    requires span > 0.0
  {
    if values == [] then [] else Cells(values[..|values| - 1], min, span) + [CellOf(values[|values| - 1], min, span)]
  }

  /** The drawing loop of `Render`. */
  method DrawColumns(values: array<real>, min: real, max: real, auto: bool) returns (out: seq<Cell>)
    ensures out == Drawn(values[..], min, max, auto)
  {
    var top := max;
    if auto {
      top := Peak(values);
    }
    var span := top - min;
    if span <= 0.0 {
      span := 1.0;
    }
    out := [];
    for i := 0 to values.Length
      invariant out == Cells(values[..i], min, span)
    {
      assert values[..i + 1][..i] == values[..i];
      var cell := Column(values[i], min, span);
      out := out + [cell];
    }
    assert values[..values.Length] == values[..];
  }

  function Span(values: seq<real>, min: real, max: real, auto: bool): (r: real)
    ensures r > 0.0
  {
    var top := if auto then PeakOf(values) else max;
    if top - min <= 0.0 then 1.0 else top - min
  }

  function Drawn(values: seq<real>, min: real, max: real, auto: bool): seq<Cell> {
    Cells(values, min, Span(values, min, max, auto))
  }

  /** Every block is one of the eight; the tallest stands for the values that reach the top of
      the scale, the lowest for those within its first seventh. */
  lemma BlockRange(v: real, min: real, span: real)
    requires span > 0.0 && v >= 0.0
    ensures 0 <= CellOf(v, min, span).height <= 7
    ensures CellOf(v, min, span).height == 7 <==> v - min >= span
    ensures CellOf(v, min, span).height == 0 <==> (v - min) * 7.0 < span
  {
    var x := (v - min) / span;
    assert x * span == v - min;
    assert x * 7.0 * span == (v - min) * 7.0;
    Scaled(x, span, v - min);
    Scaled(x * 7.0, span, (v - min) * 7.0);
    FloorSteps(x);
  }

  lemma Scaled(y: real, span: real, z: real)
    requires span > 0.0 && y * span == z
    ensures y < 1.0 <==> z < span
  {
    if y < 1.0 {
      MulLess(y, 1.0, span);
    } else if y > 1.0 {
      MulLess(1.0, y, span);
    }
  }

  lemma FloorSteps(x: real)
    ensures var f := (Clamp01(x) * 7.0).Floor;
            0 <= f <= 7 && (f == 0 <==> x * 7.0 < 1.0) && (f == 7 <==> x >= 1.0)
  {
  }

  /** A greater value is never drawn lower. */
  lemma BlocksMonotone(v: real, w: real, min: real, span: real)
    requires span > 0.0 && 0.0 <= v <= w
    ensures CellOf(v, min, span).height <= CellOf(w, min, span).height
  {
    var x, y := (v - min) / span, (w - min) / span;
    assert x * span == v - min && y * span == w - min;
    if y < x {
      MulLess(y, x, span);
    }
  }

  lemma {:induction false} CellsAt(values: seq<real>, min: real, span: real, k: nat)
    requires span > 0.0 && k < |values|
    ensures |Cells(values, min, span)| == |values| && Cells(values, min, span)[k] == CellOf(values[k], min, span)
  {
    if k < |values| - 1 {
      CellsAt(values[..|values| - 1], min, span, k);
    } else if k > 0 {
      CellsAt(values[..|values| - 1], min, span, k - 1);
    }
  }

  /** A drawing is as wide as the values, has only proper blocks, and is dim exactly where there
      is no value that is zero or more. */
  lemma DrawnShape(values: seq<real>, min: real, max: real, auto: bool, k: nat)
    requires k < |values|
    ensures |Drawn(values, min, max, auto)| == |values|
    ensures var cell := Drawn(values, min, max, auto)[k];
            (cell == Dim <==> values[k] < 0.0) && (cell.Block? ==> 0 <= cell.height <= 7)
  {
    var span := Span(values, min, max, auto);
    CellsAt(values, min, span, k);
    if values[k] >= 0.0 {
      BlockRange(values[k], min, span);
    }
  }
}
