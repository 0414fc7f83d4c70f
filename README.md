# Moving-average crossover backtest

This project models the backtest in `finance/utils.py` of the financial backend.
It covers two functions.

- `calculate_moving_average` attaches the 50- and 200-period trailing means to a
  price history. A mean is undefined (pandas NaN) until its window is full.
- `backtest_strategy` walks the history once and updates a small state.
  - Buy: when the price is below a defined 50-period mean and no shares are held,
    it buys `floor(cash / price)` whole shares.
  - Sell: otherwise, when the price is above a defined 200-period mean and shares
    are held, it sells all of them.
  - Each trade adds one to the trade count.
  - After the rules, it records the portfolio value, the running peak and the
    largest drawdown from that peak.
  - At the end it reports the total return in percent of the initial investment.

The model is split into four files.

- `Wrappers.dfy`: `Option`, where `None` stands for a NaN mean, and `Result`,
  where `Err` stands for a Python exception.
- `MovingAverage.dfy`: the rolling means as pure functions over a sequence of
  closing prices.
  - The window sums are computed the way a rolling window works: each entry adds
    the price coming in and subtracts the one going out.
  - Lemmas prove these sums are the means of the trailing windows.
- `Backtest.dfy`: one loop iteration as the pure function `Step`, built from
  `Trade` (the two rules) and `Mark` (the bookkeeping).
  - `Run` folds `Step` over the bars.
  - `Simulate` is the whole function.
  - `BacktestStrategy` is the source's loop, with its own local variables, and is
    proved to compute `Simulate`.
- `BacktestProperties.dfy`: what the rules and the run guarantee.
  - The effect of each rule, and the fact that trading does not change that
    step's value.
  - The portfolio invariant `Sound`, under positive prices and a non-negative
    investment.
  - No trading during the warm-up, and no trading on a flat market.
  - Exactly which inputs raise, and which error they raise.

Prices, cash and means are exact `real` numbers. The `//` operator is the floor
of the exact quotient.

The model has two error cases, `Error`'s two constructors.
- `ZeroDivision`: a buy at price 0, a zero peak value, or a zero initial
  investment.
- `EmptySeries`: an empty price history, where `total_value[-1]` would not
  exist.

A zero initial investment, which the form's `min_value=0` bound allows, raises
`ZeroDivisionError` in the source on plain Python floats, exactly as modelled.
The other cases behave differently in the source; see the "Left out" lines on
empty histories and on numpy division.

The source counts a buy even when cash is below one share's price, so the buy
buys zero shares. The model keeps this.
- `ZeroShareBuy` shows that such a buy leaves the portfolio flat, so the rule can
  fire again on the next bar.
- `OddTradesWhileFlat` and `OddTradesFromHistory` show the consequence: a run
  can end with no open position and an odd trade count. `OddTradesFromHistory`
  does it through the whole backtest, with 49 warm-up closes and then a close
  below its 50-period mean that the investment cannot afford. So "the trade
  count is even unless a position is open" does not hold for this code.

## Model

| member | source | states |
|---|---|---|
| MovingAverage.SumFront | finance/utils.py:23-24 | the window sum can be peeled from either end: Sum(s) == s[0] + Sum(s[1..]) |
| MovingAverage.SumConstant | finance/utils.py:23-24 | a window of equal prices c sums to its length times c |
| MovingAverage.MeanConstant | finance/utils.py:23-24 | the mean of a window of equal prices c is c |
| MovingAverage.WindowSums | finance/utils.py:23-24 | the incremental rolling sums have one entry per price |
| MovingAverage.WindowSlide | finance/utils.py:23-24 | sliding the window one step adds the entering price and, once the window is full, removes the price w steps back |
| MovingAverage.WindowSumsAt | finance/utils.py:23-24 | entry i of the incremental sums equals the sum of the window of at most w prices ending at i |
| MovingAverage.RollingMean | finance/utils.py:23-24 | rolling(window=w).mean() has one entry per price |
| MovingAverage.RollingMeanAt | finance/utils.py:23-24 | entry i is undefined exactly when i < w - 1, and is otherwise Some(mean of prices[i-w+1..i+1]) |
| MovingAverage.CalculateMovingAverage | finance/utils.py:7-26 | the frame has one bar per closing price |
| MovingAverage.MovingAverageAt | finance/utils.py:23-24 | bar i carries price i; its 50-mean is undefined exactly for i < 49 and its 200-mean exactly for i < 199; each defined mean is the mean of the trailing window |
| MovingAverage.ConstantSeriesMeanAt | finance/utils.py:23-24 | on a constant series every defined 50- and 200-period mean equals the constant |
| Backtest.Max | finance/utils.py:59-63 | the running peak and the running maximum drawdown are at least both candidates and equal one of them |
| Backtest.Run | finance/utils.py:37-63 | a run that does not raise records one portfolio value per bar |
| Backtest.ChainRun | finance/utils.py:37-63 | states linked bar by bar by Step, starting from the initial state, end in the run of that prefix |
| Backtest.RunErrPersists | finance/utils.py:37-63 | once a prefix of the loop raises, every longer run raises the same error |
| Backtest.ChainFails | finance/utils.py:37-63 | a Step that raises after a chain of successful steps makes the whole run raise that error |
| Backtest.BacktestStrategy | finance/utils.py:28-71 | the loop over the bars, with its six variables, returns exactly what Simulate computes: the report, or the model's error case for that input |
| BacktestProperties.QuotientBracket | finance/utils.py:44-45 | a quotient between f and f + 1 puts the dividend between f and f + 1 multiples of the divisor |
| BacktestProperties.WholeSharesBounds | finance/utils.py:44-45 | from non-negative cash at a positive price, the floor quotient is non-negative and the cash left over lies in [0, price) |
| BacktestProperties.AffordsOneShare | finance/utils.py:44 | cash of at least one price buys at least one share |
| BacktestProperties.AffordsNoShare | finance/utils.py:44 | cash below one price buys zero shares |
| BacktestProperties.DrawdownBounds | finance/utils.py:61 | a value between 0 and a positive peak gives a drawdown in [0, 1] |
| BacktestProperties.ReturnAtLeastLoss | finance/utils.py:66 | a non-negative final value over a positive investment returns at least -100 percent |
| BacktestProperties.BuyRule | finance/utils.py:43-46 | a buy sets the holding to floor(cash / price), pays exactly holding * price, adds one trade and changes nothing else; the cash left lies in [0, price) |
| BacktestProperties.ZeroShareBuy | finance/utils.py:43-46 | when cash is below the price, a buy only adds one trade, and the buy rule fires again on any later bar below its 50-mean |
| BacktestProperties.SellRule | finance/utils.py:49-52 | a sell adds holding * price to cash, clears the holding and adds one trade, and changes nothing else |
| BacktestProperties.TradeCounted | finance/utils.py:43-52 | the trade count rises by one exactly when a rule fires; otherwise the state is unchanged; the value list is never touched by the rules |
| BacktestProperties.TradeFails | finance/utils.py:43-44 | the rules raise exactly on a buy at price 0, and the error is the division by zero |
| BacktestProperties.TradeKeepsValue | finance/utils.py:44-55 | the portfolio value at the step's price is the same before and after the trade |
| BacktestProperties.StepBookkeeping | finance/utils.py:55-63 | a step appends the post-trade value, sets the peak to exactly max(old peak, value) and the maximum drawdown to exactly max(old maximum, drawdown from the new peak), keeps the peak non-zero, and leaves cash, holding and trades as the rules set them |
| BacktestProperties.StepFailsByZeroDivision | finance/utils.py:44-61 | the only exception a step raises is the division by zero |
| BacktestProperties.StepSound | finance/utils.py:30-63 | at a positive price a step keeps Sound, and it cannot raise while the peak is positive |
| BacktestProperties.RunSound | finance/utils.py:30-63 | with positive prices and investment >= 0, every state the run reaches has cash >= 0, holding >= 0, peak >= investment and >= every recorded value >= 0, and maximum drawdown in [0, 1]; a positive investment never raises |
| BacktestProperties.PeakOf | finance/utils.py:35-60 | the running peak over recorded values is at least the investment and every value, and equals the investment or one of the values |
| BacktestProperties.MaxDrawdownOf | finance/utils.py:34-63 | the largest drawdown from the running peak is non-negative, at least the drawdown at every recorded value, and is 0 or one of those drawdowns |
| BacktestProperties.RunPeakAndDrawdown | finance/utils.py:34-63 | a successful run's peak and maximum drawdown equal PeakOf and MaxDrawdownOf over the values it recorded |
| BacktestProperties.RunPrefix | finance/utils.py:37-63 | every prefix of a successful run succeeds, with no larger peak, maximum drawdown or trade count, and with the first values of the full run |
| BacktestProperties.TradesAtMostBars | finance/utils.py:37-52 | a run counts at most one trade per bar |
| BacktestProperties.RunFailsByZeroDivision | finance/utils.py:37-63 | every exception the loop raises is the division by zero |
| BacktestProperties.NoTradeWhileShortMeanUndefined | finance/utils.py:43-52 | while the 50-period mean is undefined, nothing is traded: no trades, no shares, cash equal to the investment |
| BacktestProperties.NoTradeInWarmUp | finance/utils.py:23-52 | the first 49 bars of the moving-average frame trade nothing |
| BacktestProperties.FlatRun | finance/utils.py:43-63 | where neither price test holds, the run stays all cash: no trades, peak equal to the investment, no drawdown, every value equal to the investment |
| BacktestProperties.ConstantSeriesReport | finance/utils.py:23-71 | a constant price series reports a 0 percent return, no drawdown and no trades |
| BacktestProperties.BuyThenSell | finance/utils.py:43-52 | a buy signal followed by a sell signal makes two trades, ends flat, and leaves the investment plus the shares times the price change |
| BacktestProperties.OddTradesWhileFlat | finance/utils.py:43-46 | an investment below the first signalled price makes one trade and holds no shares |
| BacktestProperties.OddTradesFromHistory | finance/utils.py:23-71 | 49 closes at c, then a close p < c with 0 < investment < p: the backtest succeeds, reports one trade, and ends holding no shares |
| BacktestProperties.ZeroInvestmentFails | finance/utils.py:61-66 | an initial investment of 0, which the form's min_value=0 bound accepts, always raises: an empty history has no last value, and otherwise the first drawdown divides by a zero peak |
| BacktestProperties.EmptySeriesExactly | finance/utils.py:66 | the missing last value is reported exactly when the history is empty |
| BacktestProperties.SimulateMaxDrawdown | finance/utils.py:58-69 | the reported max_drawdown is MaxDrawdownOf over the portfolio values the run recorded |
| BacktestProperties.SimulateTotalReturn | finance/utils.py:66-68 | a successful backtest has closes and a non-zero investment, and reports as total_return the percentage gain of the final portfolio's value at the last close over the investment |
| BacktestProperties.SimulateReport | finance/utils.py:28-71 | with a positive investment and positive prices the backtest succeeds exactly on a non-empty history, and then returns >= -100 percent, a drawdown in [0, 1] and at most one trade per close |

## Left out

- The database query and the DataFrame plumbing (finance/utils.py:9-14): the
  prices are an input sequence already in date order.
- On an empty history the source raises KeyError while building the DataFrame
  (finance/utils.py:13) and never reaches `total_value[-1]`. The model has no
  DataFrame step and reports `EmptySeries` in place of that KeyError.
- `load_model` (finance/utils.py:73-80): it reads a file and unpickles it.
- The views, URL routing, templates and tests of the web application, and the
  form beyond its `min_value=0` bound on the investment.
- IEEE-754 rounding: all arithmetic is exact over the reals. NaN means are `None`,
  and a comparison with `None` is false.
- Division by zero is modelled as the error case throughout. In the source, an
  operand that has become a numpy scalar gives inf or NaN rather than
  raising. That happens to `//` at a zero price (the price comes from the frame)
  and to the drawdown after a trade. With investment >= 0 and positive prices,
  the only zero division is at the first bar of a zero investment. There all
  operands are plain Python floats, which raise.
- Negative investments: the form bounds the investment below by 0, but the PDF
  and JSON routes (financial_backend/urls.py:30-31, finance/views.py:203-204 and
  221-222) pass it unchecked. `Simulate` models any investment, but `RunSound`
  and `SimulateReport` say nothing about a negative one.
- RunSound: the invariant is proved only for positive prices and
  investment >= 0. With other inputs the source makes no such promise.
- Determinism of the backtest is not stated separately. Every operation is a
  function of its inputs.
