/** The moving-average crossover backtest (finance/utils.py, backtest_strategy):
    one pass over the bars, buying with all cash below the 50-period mean when
    flat and selling everything above the 200-period mean when holding. */
module Backtest {
  import opened Wrappers
  import opened MovingAverage

  /** The model's two error cases. Where the source behaves differently (numpy
      division giving inf or NaN, a KeyError on an empty history) is listed in
      the README under "Left out". */
  datatype Error =
    | ZeroDivision  // a buy at price 0, a zero peak value or a zero initial investment
    | EmptySeries   // an empty price history, with no last portfolio value

  /** The loop's variables: cash, stock_owned, trades, peak_value, max_drawdown
      and the total_value list. */
  datatype State = State(cash: real, stockOwned: int, trades: nat,
                         peakValue: real, maxDrawdown: real, totalValue: seq<real>)

  /** What backtest_strategy returns. */
  datatype Report = Report(totalReturn: real, maxDrawdown: real, trades: nat)

  /** The state before the first bar. */
  function Initial(investment: real): State
  {
    State(investment, 0, 0, investment, 0.0, [])
  }

  /** `price < ma` on pandas floats: false when the mean is undefined (NaN). */
  predicate Below(price: real, ma: Option<real>)
  {
    ma.Some? && price < ma.value
  }

  /** `price > ma`, false when the mean is undefined. */
  predicate Above(price: real, ma: Option<real>)
  {
    ma.Some? && price > ma.value
  }

  /** The buy branch's condition. */
  predicate BuyFires(s: State, bar: Bar)
  {
    Below(bar.close, bar.ma50) && s.stockOwned == 0
  }

  /** The sell branch's condition, reached only when the buy branch is not taken. */
  predicate SellFires(s: State, bar: Bar)
  {
    !BuyFires(s, bar) && Above(bar.close, bar.ma200) && s.stockOwned > 0
  }

  /** Python's `//` on floats: the floor of the exact quotient. */
  function FloorDiv(x: real, y: real): (q: int)
    requires y != 0.0
  {
    (x / y).Floor
  }

  /** `shares * price`: what a holding is worth at a price. */
  function Worth(shares: int, price: real): real
  {
    shares as real * price
  }

  /** Fractional decline of a value from a peak. */
  function Drawdown(peak: real, value: real): real
    requires peak != 0.0
  {
    (peak - value) / peak
  }

  /** Return in percent of a final value over an investment. */
  function PercentReturn(last: real, investment: real): real
    requires investment != 0.0
  {
    (last - investment) / investment * 100.0
  }

  /** Portfolio value at a price: cash plus the marked-to-market holding. */
  function Value(s: State, price: real): real
  {
    s.cash + Worth(s.stockOwned, price)
  }

  /** The larger of two reals. */
  function Max(a: real, b: real): (m: real)
    ensures m >= a && m >= b && (m == a || m == b)
  {
    if b > a then b else a
  }

  /** The trading rule of one step. A buy takes floor(cash / price) whole shares
      and counts a trade even when that floor is 0; a sell liquidates. */
  function Trade(s: State, bar: Bar): Result<State, Error>
  {
    if BuyFires(s, bar) then
      if bar.close == 0.0 then Err(ZeroDivision)
      else
        var bought := FloorDiv(s.cash, bar.close);
        Ok(s.(stockOwned := bought, cash := s.cash - Worth(bought, bar.close), trades := s.trades + 1))
    else if SellFires(s, bar) then
      Ok(s.(cash := s.cash + Worth(s.stockOwned, bar.close), stockOwned := 0, trades := s.trades + 1))
    else
      Ok(s)
  }

  /** The bookkeeping of one step: record the value, raise the peak, and keep
      the largest drawdown from the peak seen so far. */
  function Mark(s: State, price: real): Result<State, Error>
  {
    var value := Value(s, price);
    var peak := Max(s.peakValue, value);
    if peak == 0.0 then Err(ZeroDivision)
    else
      var drawdown := Drawdown(peak, value);
      Ok(s.(totalValue := s.totalValue + [value], peakValue := peak,
            maxDrawdown := Max(s.maxDrawdown, drawdown)))
  }

  /** One iteration of the loop. */
  function Step(s: State, bar: Bar): Result<State, Error>
  {
    match Trade(s, bar)
    case Err(e) => Err(e)
    case Ok(t) => Mark(t, bar.close)
  }

  /** The loop run over a sequence of bars; the first exception ends the run. */
  function Run(bars: seq<Bar>, investment: real): (r: Result<State, Error>)
    ensures r.Ok? ==> |r.value.totalValue| == |bars|
  {
    if |bars| == 0 then Ok(Initial(investment))
    else
      match Run(bars[..|bars| - 1], investment)
      case Err(e) => Err(e)
      case Ok(s) => Step(s, bars[|bars| - 1])
  }

  /** The closing lines: total return in percent of the initial investment. */
  function Summarize(s: State, investment: real): Result<Report, Error>
  {
    if |s.totalValue| == 0 then Err(EmptySeries)
    else if investment == 0.0 then Err(ZeroDivision)
    else
      var last := s.totalValue[|s.totalValue| - 1];
      Ok(Report(PercentReturn(last, investment), s.maxDrawdown, s.trades))
  }

  /** backtest_strategy as a function of the closing prices and the investment. */
  function Simulate(closes: seq<real>, investment: real): Result<Report, Error>
  {
    match Run(CalculateMovingAverage(closes), investment)
    case Err(e) => Err(e)
    case Ok(s) => Summarize(s, investment)
  }

  /** states[j + 1] is what Step makes of states[j] and bars[j], for the first n bars. */
  ghost predicate Chain(bars: seq<Bar>, states: seq<State>, n: nat)
  {
    n <= |bars| && |states| == n + 1 &&
    forall j :: 0 <= j < n ==> Step(states[j], bars[j]) == Ok(states[j + 1])
  }

  /** A chain of successful steps from the initial state is the run of that prefix. */
  lemma {:induction false} ChainRun(bars: seq<Bar>, investment: real, states: seq<State>, n: nat)
    requires Chain(bars, states, n) && states[0] == Initial(investment)
    ensures Run(bars[..n], investment) == Ok(states[n])
  {
    if n == 0 {
      assert bars[..0] == [];
    } else {
      ChainRun(bars, investment, states[..n], n - 1);
      assert bars[..n][..n - 1] == bars[..n - 1];
    }
  }

  /** Once a prefix of the bars has raised, so has the whole run, with the same error. */
  lemma {:induction false} RunErrPersists(bars: seq<Bar>, investment: real, k: nat)
    requires k <= |bars| && Run(bars[..k], investment).Err?
    ensures Run(bars, investment) == Run(bars[..k], investment)
    decreases |bars|
  {
    if k < |bars| {
      var n := |bars| - 1;
      assert bars[..n][..k] == bars[..k];
      RunErrPersists(bars[..n], investment, k);
    } else {
      assert bars[..k] == bars;
    }
  }

  /** A chain that ends in a failing step is a failed run. */
  lemma ChainFails(bars: seq<Bar>, investment: real, states: seq<State>, n: nat, e: Error)
    requires Chain(bars, states, n) && states[0] == Initial(investment)
    requires n < |bars| && Step(states[n], bars[n]) == Err(e)
    ensures Run(bars, investment) == Err(e)
  {
    ChainRun(bars, investment, states, n);
    assert bars[..n + 1][..n] == bars[..n];
    RunErrPersists(bars, investment, n + 1);
  }

  /** backtest_strategy: the source's loop, with its local variables, proved to
      compute Simulate. */
  method BacktestStrategy(closes: seq<real>, initialInvestment: real) returns (r: Result<Report, Error>)
    ensures r == Simulate(closes, initialInvestment)
  {
    var data := CalculateMovingAverage(closes);
    var cash := initialInvestment;
    var stockOwned: int := 0;
    var totalValue: seq<real> := [];
    var trades: nat := 0;
    var maxDrawdown := 0.0;
    var peakValue := cash;
    var i := 0;
    ghost var states := [Initial(initialInvestment)];
    while i < |data|
      invariant 0 <= i <= |data|
      invariant Chain(data, states, i) && states[0] == Initial(initialInvestment)
      invariant states[i] == State(cash, stockOwned, trades, peakValue, maxDrawdown, totalValue)
    {
      ghost var before := State(cash, stockOwned, trades, peakValue, maxDrawdown, totalValue);
      var currentPrice := data[i].close;
      var ma50 := data[i].ma50;
      var ma200 := data[i].ma200;
      if Below(currentPrice, ma50) && stockOwned == 0 {
        if currentPrice == 0.0 {
          assert Step(before, data[i]) == Err(ZeroDivision);
          ChainFails(data, initialInvestment, states, i, ZeroDivision);
          return Err(ZeroDivision);
        }
        stockOwned := FloorDiv(cash, currentPrice);
        cash := cash - Worth(stockOwned, currentPrice);
        trades := trades + 1;
      } else if Above(currentPrice, ma200) && stockOwned > 0 {
        cash := cash + Worth(stockOwned, currentPrice);
        stockOwned := 0;
        trades := trades + 1;
      }
      var totalPortfolioValue := cash + Worth(stockOwned, currentPrice);
      totalValue := totalValue + [totalPortfolioValue];
      if totalPortfolioValue > peakValue {
        peakValue := totalPortfolioValue;
      }
      if peakValue == 0.0 {
        assert Step(before, data[i]) == Err(ZeroDivision);
        ChainFails(data, initialInvestment, states, i, ZeroDivision);
        return Err(ZeroDivision);
      }
      var drawdown := Drawdown(peakValue, totalPortfolioValue);
      if drawdown > maxDrawdown {
        maxDrawdown := drawdown;
      }
      assert Step(before, data[i]) == Ok(State(cash, stockOwned, trades, peakValue, maxDrawdown, totalValue));
      states := states + [State(cash, stockOwned, trades, peakValue, maxDrawdown, totalValue)];
      i := i + 1;
    }
    ChainRun(data, initialInvestment, states, i);
    assert data[..i] == data;
    if |totalValue| == 0 {
      return Err(EmptySeries);
    }
    if initialInvestment == 0.0 {
      return Err(ZeroDivision);
    }
    r := Ok(Report(PercentReturn(totalValue[|totalValue| - 1], initialInvestment), maxDrawdown, trades));
  }
}
