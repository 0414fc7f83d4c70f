/** Trailing rolling means of closing prices (finance/utils.py, calculate_moving_average).
    The database query and the DataFrame plumbing are replaced by a sequence of
    closing prices that is already in date order. */
module MovingAverage {
  import opened Wrappers

  /** The two window lengths the backtest uses. */
  const ShortWindow: nat := 50
  const LongWindow: nat := 200

  /** One row of the frame: the closing price and its two moving averages. */
  datatype Bar = Bar(close: real, ma50: Option<real>, ma200: Option<real>)

  /** Sum of a sequence, peeled from the right. */
  function Sum(s: seq<real>): real
  {
    if |s| == 0 then 0.0 else Sum(s[..|s| - 1]) + s[|s| - 1]
  }

  /** Arithmetic mean of a non-empty sequence. */
  function Mean(s: seq<real>): real
    requires |s| > 0
  {
    Sum(s) / |s| as real
  }

  /** Peeling the sum from the left gives the same value. */
  lemma {:induction false} SumFront(s: seq<real>)
    requires |s| > 0
    ensures Sum(s) == s[0] + Sum(s[1..])
  {
    if |s| == 1 {
      assert s[1..] == [];
      assert s[..0] == [];
    } else {
      var init := s[..|s| - 1];
      SumFront(init);
      assert init[1..] == s[1..][..|s[1..]| - 1];
      assert s[1..][|s[1..]| - 1] == s[|s| - 1];
    }
  }

  /** A sequence whose every element is c sums to |s| * c. */
  lemma {:induction false} SumConstant(s: seq<real>, c: real)
    requires forall k :: 0 <= k < |s| ==> s[k] == c
    ensures Sum(s) == |s| as real * c
  {
    if |s| > 0 {
      SumConstant(s[..|s| - 1], c);
    }
  }

  /** The mean of a constant sequence is that constant. */
  lemma MeanConstant(s: seq<real>, c: real)
    requires |s| > 0
    requires forall k :: 0 <= k < |s| ==> s[k] == c
    ensures Mean(s) == c
  {
    SumConstant(s, c);
    var n := |s| as real;
    assert Sum(s) / n == (n * c) / n;
  }

  /** The first index of the (possibly still short) window that ends at i. */
  function WindowStart(i: nat, w: nat): (lo: nat)
    requires w > 0
    ensures lo <= i
    ensures i + 1 >= w ==> i + 1 - lo == w
    ensures i + 1 < w ==> lo == 0
  {
    if i + 1 >= w then i + 1 - w else 0
  }

  /** Window sums computed the way a rolling window does: each entry adds the
      price entering the window and subtracts the one leaving it. */
  function WindowSums(prices: seq<real>, w: nat): (r: seq<real>)
    requires w > 0
    ensures |r| == |prices|
  {
    if |prices| == 0 then []
    else
      var n := |prices| - 1;
      var prev := WindowSums(prices[..n], w);
      var carried := if n == 0 then 0.0 else prev[n - 1];
      var leaving := if n >= w then prices[n - w] else 0.0;
      prev + [carried + prices[n] - leaving]
  }

  /** Moving the window from n - 1 to n adds prices[n] and, once the window
      is full, drops prices[n - w]. */
  lemma WindowSlide(prices: seq<real>, w: nat, n: nat)
    requires w > 0 && 0 < n < |prices|
    ensures Sum(prices[WindowStart(n, w)..n + 1])
         == Sum(prices[WindowStart(n - 1, w)..n]) + prices[n] - (if n >= w then prices[n - w] else 0.0)
  {
    var lo := WindowStart(n - 1, w);
    var grown := prices[lo..n + 1];
    assert grown[..|grown| - 1] == prices[lo..n];
    if n >= w {
      SumFront(grown);
      assert grown[1..] == prices[WindowStart(n, w)..n + 1];
    }
  }

  /** A slice that lies inside a prefix is the same slice of the whole. */
  lemma SliceOfPrefix(s: seq<real>, n: nat, lo: nat, hi: nat)
    requires lo <= hi <= n <= |s|
    ensures s[..n][lo..hi] == s[lo..hi]
  {
  }

  /** The incremental sums of a longer series extend those of its prefix. */
  lemma WindowSumsPrefix(prices: seq<real>, w: nat, i: nat)
    requires w > 0 && i + 1 < |prices|
    ensures WindowSums(prices, w)[i] == WindowSums(prices[..|prices| - 1], w)[i]
  {
  }

  /** The last incremental sum carries the previous one, adds the entering
      price and drops the leaving one. */
  lemma WindowSumsLast(prices: seq<real>, w: nat, n: nat)
    requires w > 0 && 0 < n && n + 1 == |prices|
    ensures WindowSums(prices, w)[n]
         == WindowSums(prices[..n], w)[n - 1] + prices[n] - (if n >= w then prices[n - w] else 0.0)
  {
  }

  /** A single price is its own window sum. */
  lemma WindowSumsFirst(prices: seq<real>, w: nat)
    requires w > 0 && |prices| == 1
    ensures WindowSums(prices, w)[0] == Sum(prices[WindowStart(0, w)..1])
  {
    assert prices[WindowStart(0, w)..1] == prices;
    assert prices[..0] == [];
  }

  /** Entry i of the incremental sums is the sum of the window ending at i. */
  lemma {:induction false} WindowSumsAt(prices: seq<real>, w: nat, i: nat)
    requires w > 0 && i < |prices|
    ensures WindowSums(prices, w)[i] == Sum(prices[WindowStart(i, w)..i + 1])
    decreases |prices|, 1
  {
    var n := |prices| - 1;
    if i < n {
      WindowSumsPrefix(prices, w, i);
      WindowSumsAt(prices[..n], w, i);
      SliceOfPrefix(prices, n, WindowStart(i, w), i + 1);
    } else if n == 0 {
      WindowSumsFirst(prices, w);
    } else {
      WindowSumsAtLast(prices, w, n);
    }
  }

  /** The last window sum, from the one before it and the slide of the window. */
  lemma {:induction false} WindowSumsAtLast(prices: seq<real>, w: nat, n: nat)
    requires w > 0 && 0 < n && n + 1 == |prices|
    ensures WindowSums(prices, w)[n] == Sum(prices[WindowStart(n, w)..n + 1])
    decreases |prices|, 0
  {
    WindowSumsLast(prices, w, n);
    WindowSumsAt(prices[..n], w, n - 1);
    SliceOfPrefix(prices, n, WindowStart(n - 1, w), n);
    WindowSlide(prices, w, n);
  }

  /** Trailing mean over windows of w prices (pandas rolling(window=w).mean()),
      one entry per price. */
  function RollingMean(prices: seq<real>, w: nat): (r: seq<Option<real>>)
    requires w > 0
    ensures |r| == |prices|
  {
    var sums := WindowSums(prices, w);
    seq(|prices|, i requires 0 <= i < |prices| => if i < w - 1 then None else Some(sums[i] / w as real))
  }

  /** Entry i of the rolling mean is undefined exactly while fewer than w prices
      have been seen, and is then the mean of the last w prices. */
  lemma RollingMeanAt(prices: seq<real>, w: nat, i: nat)
    requires w > 0 && i < |prices|
    ensures RollingMean(prices, w)[i].None? <==> i < w - 1
    ensures i >= w - 1 ==> RollingMean(prices, w)[i] == Some(Mean(prices[i - w + 1..i + 1]))
  {
    WindowSumsAt(prices, w, i);
  }

  /** calculate_moving_average: the closing prices with their 50- and 200-period
      trailing means attached, one bar per price. */
  function CalculateMovingAverage(closes: seq<real>): (bars: seq<Bar>)
    ensures |bars| == |closes|
  {
    var ma50 := RollingMean(closes, ShortWindow);
    var ma200 := RollingMean(closes, LongWindow);
    seq(|closes|, i requires 0 <= i < |closes| => Bar(closes[i], ma50[i], ma200[i]))
  }

  /** Bar i carries price i; its 50-period mean is undefined exactly for the first
      49 bars and its 200-period mean exactly for the first 199, and each defined
      mean is the mean of the window of prices ending at i. */
  lemma MovingAverageAt(closes: seq<real>, i: nat)
    requires i < |closes|
    ensures CalculateMovingAverage(closes)[i].close == closes[i]
    ensures CalculateMovingAverage(closes)[i].ma50.None? <==> i < ShortWindow - 1
    ensures CalculateMovingAverage(closes)[i].ma200.None? <==> i < LongWindow - 1
    ensures i >= ShortWindow - 1 ==>
              CalculateMovingAverage(closes)[i].ma50 == Some(Mean(closes[i - ShortWindow + 1..i + 1]))
    ensures i >= LongWindow - 1 ==>
              CalculateMovingAverage(closes)[i].ma200 == Some(Mean(closes[i - LongWindow + 1..i + 1]))
  {
    RollingMeanAt(closes, ShortWindow, i);
    RollingMeanAt(closes, LongWindow, i);
  }

  /** In a constant series, bar i's defined means equal the constant. */
  lemma ConstantSeriesMeanAt(closes: seq<real>, c: real, i: nat)
    requires forall k :: 0 <= k < |closes| ==> closes[k] == c
    requires i < |closes|
    ensures CalculateMovingAverage(closes)[i].ma50.Some? ==> CalculateMovingAverage(closes)[i].ma50.value == c
    ensures CalculateMovingAverage(closes)[i].ma200.Some? ==> CalculateMovingAverage(closes)[i].ma200.value == c
  {
    MovingAverageAt(closes, i);
    if i >= ShortWindow - 1 {
      MeanConstant(closes[i - ShortWindow + 1..i + 1], c);
    }
    if i >= LongWindow - 1 {
      MeanConstant(closes[i - LongWindow + 1..i + 1], c);
    }
  }
}
