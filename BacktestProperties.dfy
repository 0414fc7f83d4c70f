/** What the backtest promises: the effect of each trading rule, the invariants
    of the portfolio state, the warm-up and flat-market behaviour, and the
    conditions under which the run raises. */
module BacktestProperties {
  import opened Wrappers
  import opened MovingAverage
  import opened Backtest

  // ---------------------------------------------------------------------------
  // Arithmetic facts about the whole-share purchase and the drawdown

  /** Multiplying both sides of an inequality by a non-negative factor. */
  lemma MulLe(a: real, b: real, c: real)
    requires a <= b && c >= 0.0
    ensures a * c <= b * c
  {
  }

  /** Multiplying both sides of a strict inequality by a positive factor. */
  lemma MulLt(a: real, b: real, c: real)
    requires a < b && c > 0.0
    ensures a * c < b * c
  {
  }

  /** Division undone by multiplication. */
  lemma DivMul(x: real, y: real)
    requires y != 0.0
    ensures (x / y) * y == x
  {
  }

  /** Multiplication distributes over a unit step. */
  lemma MulSucc(a: real, c: real)
    ensures (a + 1.0) * c == a * c + c
  {
  }

  /** A quotient bracketed by f and f + 1 brackets the dividend by f and f + 1
      multiples of the divisor. */
  lemma QuotientBracket(x: real, y: real, f: real)
    requires y > 0.0 && f <= x / y < f + 1.0
    ensures f * y <= x < f * y + y
  {
    calc {
      f * y;
    <= { MulLe(f, x / y, y); }
      (x / y) * y;
    == { DivMul(x, y); }
      x;
    }
    calc {
      x;
    == { DivMul(x, y); }
      (x / y) * y;
    < { MulLt(x / y, f + 1.0, y); }
      (f + 1.0) * y;
    == { MulSucc(f, y); }
      f * y + y;
    }
  }

  /** Buying floor(cash / price) shares leaves 0 <= cash' < price. */
  lemma WholeSharesBounds(cash: real, price: real)
    requires cash >= 0.0 && price > 0.0
    ensures FloorDiv(cash, price) >= 0
    ensures 0.0 <= cash - Worth(FloorDiv(cash, price), price) < price
  {
    QuotientBracket(cash, price, FloorDiv(cash, price) as real);
  }

  /** With at least one price of cash, at least one share is bought. */
  lemma AffordsOneShare(cash: real, price: real)
    requires price > 0.0 && cash >= price
    ensures FloorDiv(cash, price) >= 1
  {
    var q := cash / price;
    DivMul(cash, price);
    if q < 1.0 {
      MulLt(q, 1.0, price);
    }
  }

  /** Less than one price of cash buys no share. */
  lemma AffordsNoShare(cash: real, price: real)
    requires price > 0.0 && 0.0 <= cash < price
    ensures FloorDiv(cash, price) == 0
  {
    var q := cash / price;
    DivMul(cash, price);
    if q < 0.0 {
      MulLt(q, 0.0, price);
    }
    if q >= 1.0 {
      MulLe(1.0, q, price);
    }
  }

  /** A drawdown from a positive peak to a value between 0 and the peak is a fraction. */
  lemma DrawdownBounds(peak: real, value: real)
    requires peak > 0.0 && 0.0 <= value <= peak
    ensures 0.0 <= Drawdown(peak, value) <= 1.0
  {
    var d := (peak - value) / peak;
    DivMul(peak - value, peak);
    if d < 0.0 {
      MulLt(d, 0.0, peak);
    }
    if d > 1.0 {
      MulLt(1.0, d, peak);
    }
  }

  /** A non-negative final value loses at most the whole investment. */
  lemma ReturnAtLeastLoss(last: real, investment: real)
    requires investment > 0.0 && last >= 0.0
    ensures PercentReturn(last, investment) >= -100.0
  {
    var r := (last - investment) / investment;
    DivMul(last - investment, investment);
    if r < -1.0 {
      MulLt(r, -1.0, investment);
    }
  }

  // ---------------------------------------------------------------------------
  // One step

  /** The buy rule: flat and below a defined 50-period mean takes floor(cash / price)
      whole shares, pays for them out of cash and counts one trade; nothing else
      changes. */
  lemma BuyRule(s: State, bar: Bar)
    requires BuyFires(s, bar) && bar.close > 0.0 && s.cash >= 0.0
    ensures Trade(s, bar) == Ok(s.(stockOwned := FloorDiv(s.cash, bar.close),
                                   cash := s.cash - FloorDiv(s.cash, bar.close) as real * bar.close,
                                   trades := s.trades + 1))
    ensures Trade(s, bar).Ok?
    ensures Trade(s, bar).value.stockOwned == FloorDiv(s.cash, bar.close) >= 0
    ensures Trade(s, bar).value.cash == s.cash - Trade(s, bar).value.stockOwned as real * bar.close
    ensures 0.0 <= Trade(s, bar).value.cash < bar.close
    ensures Trade(s, bar).value.trades == s.trades + 1
  {
    WholeSharesBounds(s.cash, bar.close);
  }

  /** When cash is short of one share, the buy rule still counts a trade, buys
      nothing, and leaves the portfolio flat so that it can fire again. */
  lemma ZeroShareBuy(s: State, bar: Bar)
    requires BuyFires(s, bar) && bar.close > 0.0 && 0.0 <= s.cash < bar.close
    ensures Trade(s, bar) == Ok(s.(trades := s.trades + 1))
    ensures forall next: Bar :: Below(next.close, next.ma50) ==> BuyFires(Trade(s, bar).value, next)
  {
    AffordsNoShare(s.cash, bar.close);
  }

  /** The sell rule: holding and above a defined 200-period mean sells the whole
      position at the price and counts one trade. */
  lemma SellRule(s: State, bar: Bar)
    requires SellFires(s, bar)
    ensures Trade(s, bar) == Ok(s.(cash := s.cash + s.stockOwned as real * bar.close,
                                   stockOwned := 0, trades := s.trades + 1))
  {
  }

  /** A trade is counted exactly when one of the two rules fires; otherwise the
      state is left as it was. */
  lemma TradeCounted(s: State, bar: Bar)
    requires Trade(s, bar).Ok?
    ensures Trade(s, bar).value.trades == s.trades + 1 <==> BuyFires(s, bar) || SellFires(s, bar)
    ensures !BuyFires(s, bar) && !SellFires(s, bar) ==> Trade(s, bar).value == s
    ensures Trade(s, bar).value.totalValue == s.totalValue
  {
  }

  /** The only way Trade raises is a buy at price zero. */
  lemma TradeFails(s: State, bar: Bar)
    ensures Trade(s, bar).Err? <==> BuyFires(s, bar) && bar.close == 0.0
    ensures Trade(s, bar).Err? ==> Trade(s, bar).error == ZeroDivision
  {
  }

  /** Trading does not change the value of the portfolio at that step's price. */
  lemma TradeKeepsValue(s: State, bar: Bar)
    requires Trade(s, bar).Ok?
    ensures Value(Trade(s, bar).value, bar.close) == Value(s, bar.close)
  {
  }

  /** The bookkeeping appends the step's value, sets the peak to the larger of
      the old peak and that value, and the maximum drawdown to the larger of the
      old maximum and the drawdown from the new peak; it raises only on a zero
      peak. */
  lemma StepBookkeeping(s: State, bar: Bar)
    requires Step(s, bar).Ok?
    ensures Trade(s, bar).Ok?
    ensures Step(s, bar).value.totalValue == s.totalValue + [Value(s, bar.close)]
    ensures Step(s, bar).value.peakValue == Max(s.peakValue, Value(s, bar.close))
    ensures Step(s, bar).value.maxDrawdown
            == Max(s.maxDrawdown, Drawdown(Step(s, bar).value.peakValue, Value(s, bar.close)))
    ensures Step(s, bar).value.peakValue >= s.peakValue
    ensures Step(s, bar).value.peakValue >= Value(s, bar.close)
    ensures Step(s, bar).value.peakValue != 0.0
    ensures Step(s, bar).value.maxDrawdown >= s.maxDrawdown
    ensures Step(s, bar).value.maxDrawdown >= Drawdown(Step(s, bar).value.peakValue, Value(s, bar.close))
    ensures s.trades <= Step(s, bar).value.trades <= s.trades + 1
    ensures Step(s, bar).value.cash == Trade(s, bar).value.cash
    ensures Step(s, bar).value.stockOwned == Trade(s, bar).value.stockOwned
    ensures Step(s, bar).value.trades == Trade(s, bar).value.trades
  {
    TradeKeepsValue(s, bar);
  }

  /** Every error the loop can raise is a division by zero. */
  lemma StepFailsByZeroDivision(s: State, bar: Bar)
    requires Step(s, bar).Err?
    ensures Step(s, bar).error == ZeroDivision
  {
  }

  // ---------------------------------------------------------------------------
  // The whole run

  /** The portfolio invariant under positive prices and a non-negative
      investment: no negative cash or holding, a peak at least the investment
      and every recorded value, every recorded value non-negative, and a
      maximum drawdown that is a fraction. */
  ghost predicate Sound(s: State, investment: real)
  {
    && s.cash >= 0.0
    && s.stockOwned >= 0
    && s.peakValue >= investment
    && (forall j :: 0 <= j < |s.totalValue| ==> 0.0 <= s.totalValue[j] <= s.peakValue)
    && 0.0 <= s.maxDrawdown <= 1.0
  }

  /** One step at a positive price keeps the invariant and, from a positive
      peak, cannot raise. */
  lemma StepSound(s: State, bar: Bar, investment: real)
    requires Sound(s, investment) && bar.close > 0.0
    ensures s.peakValue > 0.0 ==> Step(s, bar).Ok?
    ensures Step(s, bar).Ok? ==> Sound(Step(s, bar).value, investment)
  {
    if BuyFires(s, bar) {
      BuyRule(s, bar);
    }
    if Trade(s, bar).Ok? {
      var t := Trade(s, bar).value;
      assert t.cash >= 0.0 && t.stockOwned >= 0;
      var v := Value(t, bar.close);
      MulLe(0.0, t.stockOwned as real, bar.close);
      if Step(s, bar).Ok? {
        var u := Step(s, bar).value;
        assert u.peakValue >= v && u.peakValue > 0.0;
        DrawdownBounds(u.peakValue, v);
        assert u.totalValue == s.totalValue + [v];
      }
    }
  }

  /** Under positive prices and a non-negative investment every reachable state
      is Sound, and a positive investment never raises. */
  lemma {:induction false} RunSound(bars: seq<Bar>, investment: real)
    requires investment >= 0.0
    requires forall i :: 0 <= i < |bars| ==> bars[i].close > 0.0
    ensures Run(bars, investment).Ok? ==> Sound(Run(bars, investment).value, investment)
    ensures investment > 0.0 ==> Run(bars, investment).Ok?
  {
    if |bars| > 0 {
      var n := |bars| - 1;
      RunSound(bars[..n], investment);
      if Run(bars[..n], investment).Ok? {
        StepSound(Run(bars[..n], investment).value, bars[n], investment);
      }
    }
  }

  /** The running peak over recorded values, starting from the investment:
      the largest of the investment and the values. */
  function PeakOf(investment: real, values: seq<real>): (p: real)
    ensures p >= investment
    ensures forall j :: 0 <= j < |values| ==> p >= values[j]
    ensures p == investment || exists j :: 0 <= j < |values| && p == values[j]
  {
    if |values| == 0 then investment
    else Max(PeakOf(investment, values[..|values| - 1]), values[|values| - 1])
  }

  /** The drawdown of value j from the running peak up to and including it
      (0 where that peak is 0, which a successful run never records). */
  function DrawdownAt(investment: real, values: seq<real>, j: nat): real
    requires j < |values|
  {
    var peak := PeakOf(investment, values[..j + 1]);
    if peak == 0.0 then 0.0 else Drawdown(peak, values[j])
  }

  /** The largest drawdown from the running peak over the recorded values
      (0 before any value). */
  function MaxDrawdownOf(investment: real, values: seq<real>): (d: real)
    ensures d >= 0.0
    ensures forall j :: 0 <= j < |values| ==> d >= DrawdownAt(investment, values, j)
    ensures d == 0.0 || exists j :: 0 <= j < |values| && d == DrawdownAt(investment, values, j)
  {
    if |values| == 0 then 0.0
    else
      var n := |values| - 1;
      var before := MaxDrawdownOf(investment, values[..n]);
      assert forall j :: 0 <= j < n ==> DrawdownAt(investment, values[..n], j) == DrawdownAt(investment, values, j) by {
        forall j | 0 <= j < n
          ensures DrawdownAt(investment, values[..n], j) == DrawdownAt(investment, values, j)
        {
          assert values[..n][..j + 1] == values[..j + 1];
        }
      }
      Max(before, DrawdownAt(investment, values, n))
  }

  /** A successful run's peak and maximum drawdown are exactly the running peak
      and the largest drawdown from it over the values it recorded. */
  lemma {:induction false} RunPeakAndDrawdown(bars: seq<Bar>, investment: real)
    requires Run(bars, investment).Ok?
    ensures Run(bars, investment).value.peakValue == PeakOf(investment, Run(bars, investment).value.totalValue)
    ensures Run(bars, investment).value.maxDrawdown == MaxDrawdownOf(investment, Run(bars, investment).value.totalValue)
  {
    if |bars| > 0 {
      var n := |bars| - 1;
      var s := Run(bars[..n], investment).value;
      RunPeakAndDrawdown(bars[..n], investment);
      StepBookkeeping(s, bars[n]);
      var u := Step(s, bars[n]).value;
      var v := Value(s, bars[n].close);
      assert u.totalValue[..|u.totalValue| - 1] == s.totalValue;
      assert u.totalValue[..|u.totalValue|] == u.totalValue;
      assert PeakOf(investment, u.totalValue) == u.peakValue;
      assert DrawdownAt(investment, u.totalValue, |u.totalValue| - 1) == Drawdown(u.peakValue, v);
    }
  }

  /** A successful run passes through successful prefixes whose peak and
      maximum drawdown are no larger and whose values are its first values. */
  lemma {:induction false} RunPrefix(bars: seq<Bar>, investment: real, k: nat)
    requires k <= |bars| && Run(bars, investment).Ok?
    ensures Run(bars[..k], investment).Ok?
    ensures Run(bars[..k], investment).value.maxDrawdown <= Run(bars, investment).value.maxDrawdown
    ensures Run(bars[..k], investment).value.peakValue <= Run(bars, investment).value.peakValue
    ensures Run(bars[..k], investment).value.trades <= Run(bars, investment).value.trades
    ensures Run(bars[..k], investment).value.totalValue == Run(bars, investment).value.totalValue[..k]
    decreases |bars|
  {
    if k == |bars| {
      assert bars[..k] == bars;
    } else {
      var n := |bars| - 1;
      StepBookkeeping(Run(bars[..n], investment).value, bars[n]);
      RunPrefix(bars[..n], investment, k);
      assert bars[..n][..k] == bars[..k];
    }
  }

  /** A run counts at most one trade per bar. */
  lemma {:induction false} TradesAtMostBars(bars: seq<Bar>, investment: real)
    requires Run(bars, investment).Ok?
    ensures Run(bars, investment).value.trades <= |bars|
  {
    if |bars| > 0 {
      var n := |bars| - 1;
      StepBookkeeping(Run(bars[..n], investment).value, bars[n]);
      TradesAtMostBars(bars[..n], investment);
    }
  }

  /** Every error of a run is a division by zero. */
  lemma {:induction false} RunFailsByZeroDivision(bars: seq<Bar>, investment: real)
    requires Run(bars, investment).Err?
    ensures Run(bars, investment).error == ZeroDivision
  {
    if |bars| > 0 {
      var n := |bars| - 1;
      if Run(bars[..n], investment).Err? {
        RunFailsByZeroDivision(bars[..n], investment);
      }
    }
  }

  // ---------------------------------------------------------------------------
  // Warm-up and flat markets

  /** While the 50-period mean is undefined no trade of either kind happens:
      a buy needs the mean and a sell needs shares that only a buy provides. */
  lemma {:induction false} NoTradeWhileShortMeanUndefined(bars: seq<Bar>, investment: real)
    requires forall i :: 0 <= i < |bars| ==> bars[i].ma50.None?
    ensures Run(bars, investment).Ok? ==>
              && Run(bars, investment).value.trades == 0
              && Run(bars, investment).value.stockOwned == 0
              && Run(bars, investment).value.cash == investment
  {
    if |bars| > 0 {
      var n := |bars| - 1;
      NoTradeWhileShortMeanUndefined(bars[..n], investment);
    }
  }

  /** The first 49 bars of calculate_moving_average's output never trade. */
  lemma NoTradeInWarmUp(closes: seq<real>, investment: real, k: nat)
    requires k <= |closes| && k <= ShortWindow - 1
    ensures Run(CalculateMovingAverage(closes)[..k], investment).Ok? ==>
              && Run(CalculateMovingAverage(closes)[..k], investment).value.trades == 0
              && Run(CalculateMovingAverage(closes)[..k], investment).value.stockOwned == 0
  {
    var bars := CalculateMovingAverage(closes)[..k];
    forall i | 0 <= i < k
      ensures bars[i].ma50.None?
    {
      MovingAverageAt(closes, i);
    }
    NoTradeWhileShortMeanUndefined(bars, investment);
  }

  /** Where neither rule's price test holds, the portfolio stays all cash at the
      investment: no trades, a peak equal to the investment, no drawdown. */
  lemma {:induction false} FlatRun(bars: seq<Bar>, investment: real)
    requires investment > 0.0
    requires forall i :: 0 <= i < |bars| ==>
               !Below(bars[i].close, bars[i].ma50) && !Above(bars[i].close, bars[i].ma200)
    ensures Run(bars, investment).Ok?
    ensures Run(bars, investment).value.cash == investment
    ensures Run(bars, investment).value.stockOwned == 0
    ensures Run(bars, investment).value.trades == 0
    ensures Run(bars, investment).value.peakValue == investment
    ensures Run(bars, investment).value.maxDrawdown == 0.0
    ensures forall j :: 0 <= j < |bars| ==> Run(bars, investment).value.totalValue[j] == investment
  {
    if |bars| > 0 {
      var n := |bars| - 1;
      FlatRun(bars[..n], investment);
      var s := Run(bars[..n], investment).value;
      assert Trade(s, bars[n]) == Ok(s);
      assert Value(s, bars[n].close) == investment;
    }
  }

  /** A constant price series never trades and returns 0% with no drawdown. */
  lemma ConstantSeriesReport(closes: seq<real>, c: real, investment: real)
    requires |closes| > 0 && investment > 0.0
    requires forall k :: 0 <= k < |closes| ==> closes[k] == c
    ensures Simulate(closes, investment) == Ok(Report(0.0, 0.0, 0))
  {
    var bars := CalculateMovingAverage(closes);
    forall i | 0 <= i < |bars|
      ensures !Below(bars[i].close, bars[i].ma50) && !Above(bars[i].close, bars[i].ma200)
    {
      MovingAverageAt(closes, i);
      ConstantSeriesMeanAt(closes, c, i);
    }
    FlatRun(bars, investment);
  }

  // ---------------------------------------------------------------------------
  // Scenarios and error conditions

  /** A drop below the 50-period mean followed by a rise above the 200-period
      mean buys once and sells once: two trades, flat again, with the profit
      of the shares bought. */
  lemma BuyThenSell(b1: Bar, b2: Bar, investment: real)
    requires 0.0 < b1.close <= investment && b2.close > 0.0
    requires Below(b1.close, b1.ma50) && Above(b2.close, b2.ma200)
    ensures Run([b1, b2], investment).Ok?
    ensures Run([b1, b2], investment).value.trades == 2
    ensures Run([b1, b2], investment).value.stockOwned == 0
    ensures Run([b1, b2], investment).value.cash
            == investment + FloorDiv(investment, b1.close) as real * (b2.close - b1.close)
  {
    var s0 := Initial(investment);
    assert [b1, b2][..1] == [b1];
    assert [b1][..0] == [];
    assert Run([b1], investment) == Step(s0, b1);
    AffordsOneShare(investment, b1.close);
    BuyRule(s0, b1);
    StepSound(s0, b1, investment);
    var s1 := Step(s0, b1).value;
    assert Run([b1, b2], investment) == Step(s1, b2);
    TradeCounted(s0, b1);
    assert s1.stockOwned == FloorDiv(investment, b1.close) >= 1;
    assert s1.trades == 1;
    assert SellFires(s1, b2);
    SellRule(s1, b2);
    StepSound(s1, b2, investment);
  }

  /** The trade count is not "even unless a position is open": an investment
      short of one share buys zero shares on the first signal, counts one
      trade and stays flat. */
  lemma OddTradesWhileFlat(bar: Bar, investment: real)
    requires 0.0 < investment < bar.close && Below(bar.close, bar.ma50)
    ensures Run([bar], investment).Ok?
    ensures Run([bar], investment).value.trades == 1
    ensures Run([bar], investment).value.stockOwned == 0
  {
    var s0 := Initial(investment);
    assert [bar][..0] == [];
    assert Run([bar], investment) == Step(s0, bar);
    ZeroShareBuy(s0, bar);
    StepSound(s0, bar, investment);
    StepBookkeeping(s0, bar);
  }

  /** The same through the whole backtest: 49 warm-up closes at c, then a close
      p below c, so below its 50-period mean, with an investment short of p.
      The report counts one trade and the run ends holding no shares. */
  lemma OddTradesFromHistory(closes: seq<real>, c: real, p: real, investment: real)
    requires |closes| == ShortWindow
    requires forall k :: 0 <= k < ShortWindow - 1 ==> closes[k] == c
    requires closes[ShortWindow - 1] == p
    requires 0.0 < investment < p < c
    ensures Simulate(closes, investment).Ok?
    ensures Simulate(closes, investment).value.trades == 1
    ensures Run(CalculateMovingAverage(closes), investment).value.stockOwned == 0
  {
    var bars := CalculateMovingAverage(closes);
    var n := ShortWindow - 1;
    forall i | 0 <= i < |bars| ensures bars[i].close > 0.0 {
      MovingAverageAt(closes, i);
    }
    RunSound(bars, investment);
    var prefix := bars[..n];
    forall i | 0 <= i < n ensures prefix[i].ma50.None? {
      MovingAverageAt(closes, i);
    }
    RunSound(prefix, investment);
    NoTradeWhileShortMeanUndefined(prefix, investment);
    var s := Run(prefix, investment).value;
    SumConstant(closes[..n], c);
    assert closes[n - ShortWindow + 1..n + 1] == closes;
    assert Sum(closes) == n as real * c + p;
    MovingAverageAt(closes, n);
    assert Below(bars[n].close, bars[n].ma50);
    ZeroShareBuy(s, bars[n]);
    StepBookkeeping(s, bars[n]);
  }

  /** An initial investment of zero always raises: with no closes the last
      value does not exist, otherwise the first drawdown divides by a zero peak. */
  lemma ZeroInvestmentFails(closes: seq<real>)
    ensures |closes| == 0 ==> Simulate(closes, 0.0) == Err(EmptySeries)
    ensures |closes| > 0 ==> Simulate(closes, 0.0) == Err(ZeroDivision)
  {
    var bars := CalculateMovingAverage(closes);
    if |closes| > 0 {
      var s0 := Initial(0.0);
      assert bars[..1][..0] == [];
      MovingAverageAt(closes, 0);
      assert Trade(s0, bars[0]) == Ok(s0);
      assert Step(s0, bars[0]) == Err(ZeroDivision);
      assert Run(bars[..1], 0.0) == Err(ZeroDivision);
      RunErrPersists(bars, 0.0, 1);
    }
  }

  /** The run reports a missing last value exactly when there are no closes. */
  lemma EmptySeriesExactly(closes: seq<real>, investment: real)
    ensures Simulate(closes, investment) == Err(EmptySeries) <==> |closes| == 0
  {
    var bars := CalculateMovingAverage(closes);
    if Run(bars, investment).Err? {
      RunFailsByZeroDivision(bars, investment);
    }
  }

  /** The reported maximum drawdown is the largest drawdown from the running
      peak over the portfolio values the run recorded. */
  lemma SimulateMaxDrawdown(closes: seq<real>, investment: real)
    requires Simulate(closes, investment).Ok?
    ensures Run(CalculateMovingAverage(closes), investment).Ok?
    ensures Simulate(closes, investment).value.maxDrawdown
            == MaxDrawdownOf(investment, Run(CalculateMovingAverage(closes), investment).value.totalValue)
  {
    RunPeakAndDrawdown(CalculateMovingAverage(closes), investment);
  }

  /** The reported total return is the percentage gain of the portfolio's value
      at the last close over the investment. */
  lemma SimulateTotalReturn(closes: seq<real>, investment: real)
    requires Simulate(closes, investment).Ok?
    ensures |closes| > 0 && investment != 0.0
    ensures Run(CalculateMovingAverage(closes), investment).Ok?
    ensures Simulate(closes, investment).value.totalReturn
            == PercentReturn(Value(Run(CalculateMovingAverage(closes), investment).value, closes[|closes| - 1]),
                             investment)
  {
    var bars := CalculateMovingAverage(closes);
    var n := |bars| - 1;
    var s := Run(bars[..n], investment).value;
    StepBookkeeping(s, bars[n]);
    TradeKeepsValue(s, bars[n]);
    MovingAverageAt(closes, n);
  }

  /** With a positive investment and positive prices the backtest succeeds
      exactly when there is a close, and then loses at most everything, reports
      a drawdown fraction and at most one trade per close. */
  lemma SimulateReport(closes: seq<real>, investment: real)
    requires investment > 0.0
    requires forall i :: 0 <= i < |closes| ==> closes[i] > 0.0
    ensures Simulate(closes, investment).Ok? <==> |closes| > 0
    ensures Simulate(closes, investment).Ok? ==>
              && Simulate(closes, investment).value.totalReturn >= -100.0
              && 0.0 <= Simulate(closes, investment).value.maxDrawdown <= 1.0
              && Simulate(closes, investment).value.trades <= |closes|
  {
    var bars := CalculateMovingAverage(closes);
    forall i | 0 <= i < |bars| ensures bars[i].close > 0.0 {
      MovingAverageAt(closes, i);
    }
    RunSound(bars, investment);
    var s := Run(bars, investment).value;
    TradesAtMostBars(bars, investment);
    if |closes| > 0 {
      var last := s.totalValue[|s.totalValue| - 1];
      ReturnAtLeastLoss(last, investment);
    }
  }
}
