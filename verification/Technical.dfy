/** Technical lens: MA20 / MA60 / RSI14 / MACD(12,26,9) over closes in date order,
    and the rubric that turns them into a signal.

    Each loop of the calculators is a method proved against a specification function
    of the same series; TechnicalLaws proves what those functions promise. */
module Technical {
  import opened Prelude
  import opened LensSignal

  const MIN_BARS := 60
  const RSI_PERIOD := 14
  const FAST := 12
  const SLOW := 26
  const SIGNAL_PERIOD := 9

  // --- indicators ---------------------------------------------------------------

  function Sma(values: seq<real>, n: nat): Option<real>
    requires n > 0
  {
    if |values| < n then None else Some(Mean(values[|values| - n..]))
  }

  /** The EMA at index i: seeded with the mean of the first `period` values. */
  function EmaAt(values: seq<real>, period: nat, i: nat): real
    requires period > 0 && period - 1 <= i < |values|
    decreases i
  {
    if i == period - 1 then Mean(values[..period])
    else EmaStep(EmaAt(values, period, i - 1), values[i], 2.0 / (period + 1) as real)
  }

  function EmaStep(ema: real, v: real, k: real): real { ema + (v - ema) * k }

  /** One EMA point per input from index period-1 on; empty for a short series. */
  function EmaLine(values: seq<real>, period: nat): seq<real>
    requires period > 0
  {
    if |values| < period then []
    else seq(|values| - period + 1, j requires 0 <= j <= |values| - period => EmaAt(values, period, period - 1 + j))
  }

  method EmaSeries(values: seq<real>, period: nat) returns (out: seq<real>)
    requires period > 0
    ensures out == EmaLine(values, period)
  {
    if |values| < period { return []; }
    var k := 2.0 / (period + 1) as real;
    var ema := Mean(values[..period]);
    out := [ema];
    for i := period to |values|
      invariant |out| == i - period + 1
      invariant ema == EmaAt(values, period, i - 1)
      invariant forall j :: 0 <= j < |out| ==> out[j] == EmaAt(values, period, period - 1 + j)
    {
      ema := EmaStep(ema, values[i], k);
      out := out + [ema];
    }
  }

  function Changes(closes: seq<real>): seq<real> {
    if closes == [] then []
    else seq(|closes| - 1, i requires 0 <= i < |closes| - 1 => closes[i + 1] - closes[i])
  }

  function Gains(changes: seq<real>): seq<real> {
    seq(|changes|, i requires 0 <= i < |changes| => Max(changes[i], 0.0))
  }

  function Losses(changes: seq<real>): seq<real> {
    seq(|changes|, i requires 0 <= i < |changes| => Max(-changes[i], 0.0))
  }

  /** Wilder's average at index i: a mean first, then a (period-1):1 blend. */
  function WilderAt(xs: seq<real>, period: nat, i: nat): real
    requires period > 0 && period - 1 <= i < |xs|
    decreases i
  {
    if i == period - 1 then Mean(xs[..period])
    else Blend(WilderAt(xs, period, i - 1), xs[i], period)
  }

  function Blend(prev: real, x: real, period: nat): real
    requires period > 0
  {
    (prev * (period - 1) as real + x) / period as real
  }

  function AvgGain(closes: seq<real>, period: nat): real
    requires period > 0 && |closes| > period
  {
    WilderAt(Gains(Changes(closes)), period, |closes| - 2)
  }

  function AvgLoss(closes: seq<real>, period: nat): real
    requires period > 0 && |closes| > period
  {
    WilderAt(Losses(Changes(closes)), period, |closes| - 2)
  }

  function RsiOf(avgGain: real, avgLoss: real): real
    requires avgGain >= 0.0 && avgLoss >= 0.0
  {
    if avgLoss == 0.0 then 100.0 else 100.0 - 100.0 / (1.0 + avgGain / avgLoss)
  }

  /** Of non-negative inputs the average is non-negative, and it vanishes exactly when
      everything averaged so far is zero. */
  lemma {:induction false} WilderNonNegative(xs: seq<real>, period: nat, i: nat)
    requires period > 0 && period - 1 <= i < |xs|
    requires forall j :: 0 <= j < |xs| ==> xs[j] >= 0.0
    ensures WilderAt(xs, period, i) >= 0.0
    ensures period > 1 ==> (WilderAt(xs, period, i) == 0.0 <==> AllZero(xs[..i + 1]))
    decreases i
  {
    if i == period - 1 {
      MeanNonNegative(xs[..period]);
    } else {
      WilderNonNegative(xs, period, i - 1);
      BlendSign(WilderAt(xs, period, i - 1), xs[i], period as real);
      assert xs[..i + 1] == xs[..i] + [xs[i]];
      assert AllZero(xs[..i + 1]) <==> AllZero(xs[..i]) && xs[i] == 0.0 by {
        assert xs[..i + 1][i] == xs[i];
        assert forall j :: 0 <= j < i ==> xs[..i + 1][j] == xs[..i][j];
      }
    }
  }

  predicate AllZero(xs: seq<real>) {
    forall j :: 0 <= j < |xs| ==> xs[j] == 0.0
  }

  lemma BlendSign(prev: real, x: real, p: real)
    requires prev >= 0.0 && x >= 0.0 && p >= 1.0
    ensures (prev * (p - 1.0) + x) / p >= 0.0
    ensures p > 1.0 ==> ((prev * (p - 1.0) + x) / p == 0.0 <==> prev == 0.0 && x == 0.0)
  {
    var q := (prev * (p - 1.0) + x) / p;
    assert q * p == prev * (p - 1.0) + x;
    assert prev * (p - 1.0) >= 0.0;
    Cancel(0.0, q, p);
    Cancel(q, 0.0, p);
    if p > 1.0 {
      Cancel(prev, 0.0, p - 1.0);
    }
  }

  lemma {:induction false} SumNonNegative(xs: seq<real>)
    requires forall j :: 0 <= j < |xs| ==> xs[j] >= 0.0
    ensures Sum(xs) >= 0.0
    ensures Sum(xs) == 0.0 <==> AllZero(xs)
  {
    if xs != [] {
      SumNonNegative(xs[..|xs| - 1]);
      assert forall j :: 0 <= j < |xs| - 1 ==> xs[..|xs| - 1][j] == xs[j];
    }
  }

  lemma MeanNonNegative(xs: seq<real>)
    requires xs != [] && forall j :: 0 <= j < |xs| ==> xs[j] >= 0.0
    ensures Mean(xs) >= 0.0
    ensures Mean(xs) == 0.0 <==> AllZero(xs)
  {
    SumNonNegative(xs);
    var n := |xs| as real;
    assert Mean(xs) * n == Sum(xs);
    Cancel(0.0, Mean(xs), n);
    Cancel(Mean(xs), 0.0, n);
  }

  lemma AveragesNonNegative(closes: seq<real>, period: nat)
    requires period > 0 && |closes| > period
    ensures AvgGain(closes, period) >= 0.0 && AvgLoss(closes, period) >= 0.0
  {
    WilderNonNegative(Gains(Changes(closes)), period, |closes| - 2);
    WilderNonNegative(Losses(Changes(closes)), period, |closes| - 2);
  }

  function Rsi(closes: seq<real>, period: nat): Option<real>
    requires period > 0
  {
    if |closes| < period + 1 then None
    else
      AveragesNonNegative(closes, period);
      Some(RsiOf(AvgGain(closes, period), AvgLoss(closes, period)))
  }

  method Rsi14(closes: seq<real>, period: nat := RSI_PERIOD) returns (rsi: Option<real>)
    requires period > 0
    ensures rsi == Rsi(closes, period)
  {
    if |closes| < period + 1 { return None; }
    var changes := Changes(closes);
    var gains, losses := Gains(changes), Losses(changes);
    var avgGain, avgLoss := Mean(gains[..period]), Mean(losses[..period]);
    for i := period to |changes|
      invariant avgGain == WilderAt(gains, period, i - 1)
      invariant avgLoss == WilderAt(losses, period, i - 1)
    {
      avgGain := Blend(avgGain, gains[i], period);
      avgLoss := Blend(avgLoss, losses[i], period);
    }
    AveragesNonNegative(closes, period);
    return Some(RsiOf(avgGain, avgLoss));
  }

  datatype MacdPoint = MacdPoint(macd: real, signal: real, hist: real)

  /** Fast minus slow EMA, from the first index where both exist. */
  function MacdLine(closes: seq<real>): seq<real>
    requires |closes| >= SLOW
  {
    seq(|closes| - SLOW + 1, j requires 0 <= j <= |closes| - SLOW =>
      EmaAt(closes, FAST, SLOW - 1 + j) - EmaAt(closes, SLOW, SLOW - 1 + j))
  }

  function Macd(closes: seq<real>): Option<MacdPoint> {
    if |closes| < SLOW + SIGNAL_PERIOD - 1 then None
    else
      var line := MacdLine(closes);
      var macd, sig := Last(line), EmaAt(line, SIGNAL_PERIOD, |line| - 1);
      Some(MacdPoint(macd, sig, macd - sig))
  }

  /** Dropping the fast EMA's first 14 points leaves exactly as many as the slow EMA has:
      the strict zip never raises. */
  lemma EmaLinesAlign(closes: seq<real>)
    requires |closes| >= SLOW
    ensures |EmaLine(closes, FAST)| >= SLOW - FAST
    ensures |EmaLine(closes, FAST)[SLOW - FAST..]| == |EmaLine(closes, SLOW)|
  {
  }

  method Macd12269(closes: seq<real>) returns (point: Option<MacdPoint>)
    ensures point == Macd(closes)
  {
    if |closes| < SLOW + SIGNAL_PERIOD - 1 { return None; }
    var emaFast := EmaSeries(closes, FAST);
    var emaSlow := EmaSeries(closes, SLOW);
    var aligned := emaFast[SLOW - FAST..];
    assert |aligned| == |emaSlow|;
    var macdLine := seq(|emaSlow|, j requires 0 <= j < |emaSlow| => aligned[j] - emaSlow[j]);
    assert macdLine == MacdLine(closes);
    var signalLine := EmaSeries(macdLine, SIGNAL_PERIOD);
    var macd, sig := Last(macdLine), Last(signalLine);
    return Some(MacdPoint(macd, sig, macd - sig));
  }

  // --- rubric ---------------------------------------------------------------------

  function TrendVote(close: real, ma20: real, ma60: real): real {
    if close > ma20 && ma20 > ma60 then 1.0
    else if close < ma20 && ma20 < ma60 then -1.0
    else if close > ma20 then 0.5
    else if close < ma20 then -0.5
    else 0.0
  }

  function RsiVote(rsi: real): real {
    if rsi < 30.0 then 0.5 else if rsi > 70.0 then -0.5 else 0.0
  }

  function MacdVote(hist: real): real {
    if hist > 0.0 then 0.5 else if hist < 0.0 then -0.5 else 0.0
  }

  function TechnicalScore(close: real, ma20: real, ma60: real, rsi: real, hist: real): real {
    ClampSignal(TrendVote(close, ma20, ma60) + RsiVote(rsi) + MacdVote(hist))
  }

  datatype Indicators = Indicators(ma20: real, ma60: real, rsi: real, macd: MacdPoint)

  function IndicatorsOf(closes: seq<real>): Indicators
    requires |closes| >= MIN_BARS
  {
    Indicators(Sma(closes, 20).value, Sma(closes, 60).value, Rsi(closes, RSI_PERIOD).value, Macd(closes).value)
  }

  /** The lens over a whole close series. */
  function TechnicalLens(closes: seq<real>): ModuleSignal {
    if |closes| < MIN_BARS then Unavailable
    else
      var ind := IndicatorsOf(closes);
      Ok(TechnicalScore(Last(closes), ind.ma20, ind.ma60, ind.rsi, ind.macd.hist))
  }

  method ComputeTechnical(closes: seq<real>) returns (signal: ModuleSignal, indicators: Option<Indicators>)
    ensures signal == TechnicalLens(closes)
    ensures indicators == if |closes| < MIN_BARS then None else Some(IndicatorsOf(closes))
  {
    if |closes| < MIN_BARS { return Unavailable, None; }
    var ma20, ma60 := Sma(closes, 20), Sma(closes, 60);
    var rsi := Rsi14(closes);
    var macd := Macd12269(closes);
    assert ma20.Some? && ma60.Some? && rsi.Some? && macd.Some?;
    var score := TechnicalScore(Last(closes), ma20.value, ma60.value, rsi.value, macd.value.hist);
    return Ok(score), Some(Indicators(ma20.value, ma60.value, rsi.value, macd.value));
  }
}
