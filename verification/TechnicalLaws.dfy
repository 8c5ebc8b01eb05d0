/** What the technical indicators promise: behaviour under a change of price scale,
    bounds, and exact values on trends. */
module TechnicalLaws {
  import opened Prelude
  import opened Technical

  // --- change of price scale: every close x becomes a*x + b --------------------------

  lemma SmaAffine(a: real, b: real, xs: seq<real>, n: nat)
    requires 0 < n <= |xs|
    ensures Sma(Affine(a, b, xs), n) == Some(Lin(a, b, Sma(xs, n).value))
  {
    hide Lin, Mean;
    AffineSlice(a, b, xs, |xs| - n, |xs|);
    assert Affine(a, b, xs)[|xs| - n..] == Affine(a, b, xs)[|xs| - n..|xs|];
    assert xs[|xs| - n..] == xs[|xs| - n..|xs|];
    MeanAffine(a, b, xs[|xs| - n..]);
  }

  lemma StepAffine(a: real, b: real, e: real, v: real, k: real)
    ensures EmaStep(Lin(a, b, e), Lin(a, b, v), k) == Lin(a, b, EmaStep(e, v, k))
  {
    assert a * (v - e) * k == a * ((v - e) * k);
  }

  lemma {:induction false} EmaAffine(a: real, b: real, xs: seq<real>, period: nat, i: nat)
    requires period > 0 && period - 1 <= i < |xs|
    ensures EmaAt(Affine(a, b, xs), period, i) == Lin(a, b, EmaAt(xs, period, i))
    decreases i
  {
    hide Lin, EmaStep, Mean;
    if i == period - 1 {
      AffineSlice(a, b, xs, 0, period);
      MeanAffine(a, b, xs[..period]);
    } else {
      EmaAffine(a, b, xs, period, i - 1);
      StepAffine(a, b, EmaAt(xs, period, i - 1), xs[i], 2.0 / (period + 1) as real);
    }
  }

  lemma BlendScaled(a: real, e: real, x: real, period: nat)
    requires period > 0
    ensures Blend(Lin(a, 0.0, e), Lin(a, 0.0, x), period) == Lin(a, 0.0, Blend(e, x, period))
  {
    var p, m := period as real, (period - 1) as real;
    assert a * e * m + a * x == a * (e * m + x) + 0.0 * p;
    LinQuotient(a, 0.0, e * m + x, p);
  }

  lemma {:induction false} WilderScaled(a: real, xs: seq<real>, period: nat, i: nat)
    requires period > 0 && period - 1 <= i < |xs|
    ensures WilderAt(Affine(a, 0.0, xs), period, i) == Lin(a, 0.0, WilderAt(xs, period, i))
    decreases i
  {
    hide Lin, Blend, Mean;
    if i == period - 1 {
      AffineSlice(a, 0.0, xs, 0, period);
      MeanAffine(a, 0.0, xs[..period]);
    } else {
      WilderScaled(a, xs, period, i - 1);
      BlendScaled(a, WilderAt(xs, period, i - 1), xs[i], period);
    }
  }

  lemma ChangesAffine(a: real, b: real, xs: seq<real>)
    ensures Changes(Affine(a, b, xs)) == Affine(a, 0.0, Changes(xs))
  {
    hide Lin;
    forall i | 0 <= i < |xs| - 1
      ensures Changes(Affine(a, b, xs))[i] == Affine(a, 0.0, Changes(xs))[i]
    {
      LinDifference(a, b, xs[i + 1], xs[i]);
    }
  }

  /** A rising scale keeps gains and losses apart; an upside-down one swaps them. */
  lemma GainsScaled(a: real, cs: seq<real>)
    requires a > 0.0
    ensures Gains(Affine(a, 0.0, cs)) == Affine(a, 0.0, Gains(cs))
    ensures Losses(Affine(a, 0.0, cs)) == Affine(a, 0.0, Losses(cs))
  {
    hide Lin;
    var up, down := Gains(Affine(a, 0.0, cs)), Losses(Affine(a, 0.0, cs));
    forall i | 0 <= i < |cs|
      ensures up[i] == Affine(a, 0.0, Gains(cs))[i] && down[i] == Affine(a, 0.0, Losses(cs))[i]
    {
      ScaledMax(a, cs[i]);
    }
  }

  lemma ScaledMax(a: real, c: real)
    requires a > 0.0
    ensures Max(Lin(a, 0.0, c), 0.0) == Lin(a, 0.0, Max(c, 0.0))
    ensures Max(-Lin(a, 0.0, c), 0.0) == Lin(a, 0.0, Max(-c, 0.0))
  {
    Cancel(0.0, c, a);
    Cancel(0.0, -c, a);
  }

  lemma GainsMirrored(cs: seq<real>)
    ensures Gains(Affine(-1.0, 0.0, cs)) == Losses(cs)
    ensures Losses(Affine(-1.0, 0.0, cs)) == Gains(cs)
  {
  }

  lemma AveragesScaled(a: real, b: real, xs: seq<real>, period: nat)
    requires a > 0.0 && period > 0 && |xs| > period
    ensures AvgGain(Affine(a, b, xs), period) == Lin(a, 0.0, AvgGain(xs, period))
    ensures AvgLoss(Affine(a, b, xs), period) == Lin(a, 0.0, AvgLoss(xs, period))
  {
    hide Lin, WilderAt;
    ChangesAffine(a, b, xs);
    GainsScaled(a, Changes(xs));
    WilderScaled(a, Gains(Changes(xs)), period, |xs| - 2);
    WilderScaled(a, Losses(Changes(xs)), period, |xs| - 2);
  }

  lemma AveragesMirrored(b: real, xs: seq<real>, period: nat)
    requires period > 0 && |xs| > period
    ensures AvgGain(Affine(-1.0, b, xs), period) == AvgLoss(xs, period)
    ensures AvgLoss(Affine(-1.0, b, xs), period) == AvgGain(xs, period)
  {
    ChangesAffine(-1.0, b, xs);
    GainsMirrored(Changes(xs));
  }

  // --- RSI ----------------------------------------------------------------------------

  /** Some close differs from the one before. */
  predicate Moves(closes: seq<real>) {
    exists i :: 0 < i < |closes| && closes[i] != closes[i - 1]
  }

  predicate NeverFalls(closes: seq<real>) {
    forall i :: 0 < i < |closes| ==> closes[i] >= closes[i - 1]
  }

  predicate NeverRises(closes: seq<real>) {
    forall i :: 0 < i < |closes| ==> closes[i] <= closes[i - 1]
  }

  lemma ChangesSayAll(closes: seq<real>)
    ensures AllZero(Losses(Changes(closes))) <==> NeverFalls(closes)
    ensures AllZero(Gains(Changes(closes))) <==> NeverRises(closes)
  {
    var cs := Changes(closes);
    if AllZero(Losses(cs)) {
      forall i | 0 < i < |closes| ensures closes[i] >= closes[i - 1] {
        assert Losses(cs)[i - 1] == 0.0;
      }
    }
    if AllZero(Gains(cs)) {
      forall i | 0 < i < |closes| ensures closes[i] <= closes[i - 1] {
        assert Gains(cs)[i - 1] == 0.0;
      }
    }
  }

  lemma AveragesVanish(closes: seq<real>, period: nat)
    requires period > 1 && |closes| > period
    ensures AvgLoss(closes, period) == 0.0 <==> NeverFalls(closes)
    ensures AvgGain(closes, period) == 0.0 <==> NeverRises(closes)
  {
    var gains, losses := Gains(Changes(closes)), Losses(Changes(closes));
    ChangesSayAll(closes);
    WilderNonNegative(gains, period, |gains| - 1);
    WilderNonNegative(losses, period, |losses| - 1);
    assert gains[..|gains|] == gains && losses[..|losses|] == losses;
  }

  /** RSI is the gains' share of all movement, as a percentage. */
  lemma RsiOfShare(g: real, l: real)
    requires g >= 0.0 && l >= 0.0 && g + l > 0.0
    ensures RsiOf(g, l) == 100.0 * (g / (g + l))
  {
    if l > 0.0 {
      InverseShare(g, l);
    } else {
      QuotientUnique(1.0, g, g);
    }
  }

  lemma InverseShare(g: real, l: real)
    requires g >= 0.0 && l > 0.0
    ensures 1.0 + g / l != 0.0
    ensures 100.0 / (1.0 + g / l) == 100.0 - 100.0 * (g / (g + l))
  {
    var n := g + l;
    OnePlusQuotient(g, l);
    assert 100.0 / (n / l) == 100.0 * (l / n) by {
      assert n / l * (l / n) == 1.0 by { Reciprocal(n, l); }
      QuotientUnique(100.0 * (l / n), n / l, 100.0);
    }
    SharesAddUp(g, l);
  }

  lemma OnePlusQuotient(g: real, l: real)
    requires g >= 0.0 && l > 0.0
    ensures 1.0 + g / l == (g + l) / l && (g + l) / l > 0.0
  {
    assert (1.0 + g / l) * l == l + g / l * l;
    QuotientUnique(1.0 + g / l, l, g + l);
  }

  lemma Reciprocal(x: real, y: real)
    requires x > 0.0 && y > 0.0
    ensures x / y * (y / x) == 1.0
  {
    assert x / y * y == x;
    assert x / y * (y / x) == x / y * y / x;
  }

  lemma SharesAddUp(g: real, l: real)
    requires g + l > 0.0
    ensures g / (g + l) + l / (g + l) == 1.0
  {
    AddQuotients(g, l, g + l);
    QuotientUnique(1.0, g + l, g + l);
  }

  lemma ShareRange(g: real, l: real)
    requires g >= 0.0 && l >= 0.0 && g + l > 0.0
    ensures 0.0 <= g / (g + l) <= 1.0
    ensures g / (g + l) == 1.0 <==> l == 0.0
    ensures g / (g + l) == 0.0 <==> g == 0.0
  {
    var n := g + l;
    assert g / n * n == g;
    QuotientBounds(g, n, 0.0, 1.0);
  }

  lemma RsiOfRange(g: real, l: real)
    requires g >= 0.0 && l >= 0.0
    ensures 0.0 <= RsiOf(g, l) <= 100.0
    ensures RsiOf(g, l) == 100.0 <==> l == 0.0
    ensures RsiOf(g, l) == 0.0 <==> g == 0.0 && l > 0.0
  {
    if g + l > 0.0 {
      RsiOfShare(g, l);
      ShareRange(g, l);
    }
  }

  /** RSI lies in [0, 100]; 100 exactly when no close ever falls, 0 exactly when some
      close falls and none ever rises. */
  lemma RsiRange(closes: seq<real>)
    requires |closes| > RSI_PERIOD
    ensures 0.0 <= Rsi(closes, RSI_PERIOD).value <= 100.0
    ensures Rsi(closes, RSI_PERIOD).value == 100.0 <==> NeverFalls(closes)
    ensures Rsi(closes, RSI_PERIOD).value == 0.0 <==> NeverRises(closes) && !NeverFalls(closes)
  {
    var g, l := AvgGain(closes, RSI_PERIOD), AvgLoss(closes, RSI_PERIOD);
    AveragesNonNegative(closes, RSI_PERIOD);
    AveragesVanish(closes, RSI_PERIOD);
    RsiOfRange(g, l);
  }

  lemma RsiOfScaled(g: real, l: real, a: real)
    requires g >= 0.0 && l >= 0.0 && a > 0.0
    ensures Lin(a, 0.0, g) >= 0.0 && Lin(a, 0.0, l) >= 0.0
    ensures RsiOf(Lin(a, 0.0, g), Lin(a, 0.0, l)) == RsiOf(g, l)
  {
    Cancel(0.0, g, a);
    Cancel(0.0, l, a);
    if l > 0.0 {
      assert g / l * (a * l) == a * (g / l * l);
      QuotientUnique(g / l, a * l, a * g);
    }
  }

  lemma RsiOfSwapped(g: real, l: real)
    requires g >= 0.0 && l >= 0.0
    ensures RsiOf(l, g) == 100.0 - RsiOf(g, l) <==> g + l > 0.0
  {
    if g + l > 0.0 {
      RsiOfShare(g, l);
      RsiOfShare(l, g);
      SharesAddUp(g, l);
    }
  }

  lemma StillIffNeither(closes: seq<real>)
    ensures Moves(closes) <==> !(NeverFalls(closes) && NeverRises(closes))
  {
    if Moves(closes) {
      var i :| 0 < i < |closes| && closes[i] != closes[i - 1];
      assert closes[i] > closes[i - 1] || closes[i] < closes[i - 1];
    }
  }

  lemma RsiScaled(a: real, b: real, closes: seq<real>)
    requires a > 0.0 && |closes| > RSI_PERIOD
    ensures Rsi(Affine(a, b, closes), RSI_PERIOD) == Rsi(closes, RSI_PERIOD)
  {
    hide AvgGain, AvgLoss, RsiOf, Lin;
    AveragesNonNegative(closes, RSI_PERIOD);
    AveragesScaled(a, b, closes, RSI_PERIOD);
    RsiOfScaled(AvgGain(closes, RSI_PERIOD), AvgLoss(closes, RSI_PERIOD), a);
  }

  /** Turning the prices upside down turns RSI into 100 - RSI, exactly when they move. */
  lemma RsiMirrored(b: real, closes: seq<real>)
    requires |closes| > RSI_PERIOD
    ensures Rsi(Affine(-1.0, b, closes), RSI_PERIOD).value == 100.0 - Rsi(closes, RSI_PERIOD).value
            <==> Moves(closes)
  {
    hide AvgGain, AvgLoss, RsiOf, Lin;
    AveragesNonNegative(closes, RSI_PERIOD);
    AveragesMirrored(b, closes, RSI_PERIOD);
    AveragesVanish(closes, RSI_PERIOD);
    StillIffNeither(closes);
    RsiOfSwapped(AvgGain(closes, RSI_PERIOD), AvgLoss(closes, RSI_PERIOD));
  }

  // --- MACD ---------------------------------------------------------------------------

  lemma MacdLineAffine(a: real, b: real, closes: seq<real>)
    requires |closes| >= SLOW
    ensures MacdLine(Affine(a, b, closes)) == Affine(a, 0.0, MacdLine(closes))
  {
    hide EmaAt, Lin;
    forall j | 0 <= j <= |closes| - SLOW
      ensures MacdLine(Affine(a, b, closes))[j] == Affine(a, 0.0, MacdLine(closes))[j]
    {
      EmaAffine(a, b, closes, FAST, SLOW - 1 + j);
      EmaAffine(a, b, closes, SLOW, SLOW - 1 + j);
      LinDifference(a, b, EmaAt(closes, FAST, SLOW - 1 + j), EmaAt(closes, SLOW, SLOW - 1 + j));
    }
  }

  lemma MacdAffine(a: real, b: real, closes: seq<real>)
    requires |closes| >= SLOW + SIGNAL_PERIOD - 1
    ensures Macd(Affine(a, b, closes)).value.hist == Lin(a, 0.0, Macd(closes).value.hist)
  {
    hide EmaAt, Lin;
    var line := MacdLine(closes);
    MacdLineAffine(a, b, closes);
    EmaAffine(a, 0.0, line, SIGNAL_PERIOD, |line| - 1);
    LinDifference(a, 0.0, Last(line), EmaAt(line, SIGNAL_PERIOD, |line| - 1));
  }

  // --- the whole lens under a change of price scale ------------------------------------

  /** The signal does not depend on the currency unit or the price level. */
  lemma TechnicalLensScaled(a: real, b: real, closes: seq<real>)
    requires a > 0.0 && |closes| >= MIN_BARS
    ensures TechnicalLens(Affine(a, b, closes)) == TechnicalLens(closes)
  {
    hide Sma, Rsi, Macd, TrendVote, MacdVote, Lin;
    var ind := IndicatorsOf(closes);
    SmaAffine(a, b, closes, 20);
    SmaAffine(a, b, closes, 60);
    RsiScaled(a, b, closes);
    MacdAffine(a, b, closes);
    VotesScaled(a, b, Last(closes), ind.ma20, ind.ma60, ind.macd.hist);
  }

  lemma VotesScaled(a: real, b: real, close: real, ma20: real, ma60: real, hist: real)
    requires a > 0.0
    ensures TrendVote(Lin(a, b, close), Lin(a, b, ma20), Lin(a, b, ma60)) == TrendVote(close, ma20, ma60)
    ensures MacdVote(Lin(a, 0.0, hist)) == MacdVote(hist)
  {
    LinOrder(a, b, close, ma20);
    LinOrder(a, b, ma20, ma60);
    LinOrder(a, 0.0, hist, 0.0);
  }

  /** Turning the prices upside down negates the signal, exactly when they move. */
  lemma TechnicalLensMirrored(b: real, closes: seq<real>)
    requires |closes| >= MIN_BARS
    ensures TechnicalLens(Affine(-1.0, b, closes)).signal.value == -TechnicalLens(closes).signal.value
            <==> Moves(closes)
  {
    hide Sma, Rsi, Macd;
    SmaAffine(-1.0, b, closes, 20);
    SmaAffine(-1.0, b, closes, 60);
    RsiMirrored(b, closes);
    MacdAffine(-1.0, b, closes);
    if !Moves(closes) {
      StillLens(closes);
      MovesAffine(-1.0, b, closes);
      StillLens(Affine(-1.0, b, closes));
    }
  }

  lemma MovesAffine(a: real, b: real, closes: seq<real>)
    requires a != 0.0
    ensures Moves(Affine(a, b, closes)) <==> Moves(closes)
  {
    hide Lin;
    var ys := Affine(a, b, closes);
    forall i | 0 < i < |closes| ensures ys[i] != ys[i - 1] <==> closes[i] != closes[i - 1] {
      LinInjective(a, b, closes[i], closes[i - 1]);
    }
  }

  lemma AffineTwice(a: real, b: real, xs: seq<real>)
    ensures Affine(-1.0, b, Affine(-a, 0.0, xs)) == Affine(a, b, xs)
  {
    hide Lin;
    forall i | 0 <= i < |xs| ensures Lin(-1.0, b, Lin(-a, 0.0, xs[i])) == Lin(a, b, xs[i]) {
      LinTwice(a, b, xs[i]);
    }
  }

  lemma LinTwice(a: real, b: real, x: real)
    ensures Lin(-1.0, b, Lin(-a, 0.0, x)) == Lin(a, b, x)
  {
  }

  /** Every close x replaced by a*x + b: the same signal for a > 0, and for a < 0 the
      opposite one exactly when some close differs from its predecessor. */
  lemma TechnicalLensAffine(a: real, b: real, closes: seq<real>)
    requires a != 0.0 && |closes| >= MIN_BARS
    ensures a > 0.0 ==> TechnicalLens(Affine(a, b, closes)) == TechnicalLens(closes)
    ensures a < 0.0 ==> (TechnicalLens(Affine(a, b, closes)).signal.value == -TechnicalLens(closes).signal.value
                         <==> Moves(closes))
  {
    hide TechnicalLens, Moves;
    if a > 0.0 {
      TechnicalLensScaled(a, b, closes);
    } else {
      TechnicalLensScaled(-a, 0.0, closes);
      TechnicalLensMirrored(b, Affine(-a, 0.0, closes));
      MovesAffine(-a, 0.0, closes);
      AffineTwice(a, b, closes);
    }
  }

  // --- bounds and exact values ----------------------------------------------------------

  /** Each EMA point lies between the least and the greatest input seen so far. */
  lemma {:induction false} EmaBounds(xs: seq<real>, period: nat, i: nat, lo: real, hi: real)
    requires period > 0 && period - 1 <= i < |xs|
    requires forall j :: 0 <= j <= i ==> lo <= xs[j] <= hi
    ensures lo <= EmaAt(xs, period, i) <= hi
    decreases i
  {
    hide EmaStep, Mean;
    if i == period - 1 {
      MeanBounds(xs[..period], lo, hi);
    } else {
      EmaBounds(xs, period, i - 1, lo, hi);
      QuotientBounds(2.0, (period + 1) as real, 0.0, 1.0);
      StepBetween(EmaAt(xs, period, i - 1), xs[i], 2.0 / (period + 1) as real);
    }
  }

  lemma StepBetween(e: real, v: real, k: real)
    requires 0.0 <= k <= 1.0
    ensures Min(e, v) <= EmaStep(e, v, k) <= Max(e, v)
  {
    var p := (v - e) * k;
    assert EmaStep(e, v, k) == e + p;
    hide EmaStep;
    if v >= e {
      ProductShrinks(v - e, k);
    } else {
      ProductShrinks(e - v, k);
      assert p == -((e - v) * k);
    }
  }

  lemma ProductShrinks(d: real, k: real)
    requires d >= 0.0 && 0.0 <= k <= 1.0
    ensures 0.0 <= d * k <= d
  {
    assert d - d * k == d * (1.0 - k);
  }

  /** An arithmetic price series: start c, slope s. */
  predicate IsTrend(xs: seq<real>, c: real, s: real) {
    forall i :: 0 <= i < |xs| ==> xs[i] == Lin(s, c, i as real)
  }

  lemma {:induction false} TrendSum(xs: seq<real>, c: real, s: real)
    requires IsTrend(xs, c, s)
    ensures Sum(xs) == TrendTotal(c, s, |xs| as real)
  {
    hide Lin, TrendTotal;
    TrendTotalStep(c, s, (|xs| - 1) as real);
    if xs != [] {
      TrendSum(xs[..|xs| - 1], c, s);
    }
  }

  function TrendTotal(c: real, s: real, n: real): real { n * (c + s * ((n - 1.0) / 2.0)) }

  lemma TrendTotalStep(c: real, s: real, n: real)
    ensures TrendTotal(c, s, 0.0) == 0.0
    ensures TrendTotal(c, s, n + 1.0) == TrendTotal(c, s, n) + Lin(s, c, n)
  {
    var h := s / 2.0;
    assert s * ((n - 1.0) / 2.0) == h * n - h && s * (n / 2.0) == h * n;
    assert (n + 1.0) * (c + h * n) == n * (c + h * n) + c + h * n;
    assert n * (c + h * n) == n * (c + (h * n - h)) + n * h;
  }

  lemma TrendMean(xs: seq<real>, c: real, s: real)
    requires xs != [] && IsTrend(xs, c, s)
    ensures Mean(xs) == Lin(s, c, (|xs| - 1) as real / 2.0)
  {
    hide IsTrend;
    TrendSum(xs, c, s);
    var n := |xs| as real;
    assert (|xs| - 1) as real == n - 1.0;
    QuotientUnique(Lin(s, c, (n - 1.0) / 2.0), n, Sum(xs));
  }

  /** On a trend the EMA lags the price by exactly (period-1)/2 steps. */
  lemma {:induction false} EmaOfTrend(xs: seq<real>, c: real, s: real, period: nat, i: nat)
    requires period > 0 && period - 1 <= i < |xs| && IsTrend(xs, c, s)
    ensures EmaAt(xs, period, i) == Lin(s, c, i as real - (period - 1) as real / 2.0)
    decreases i
  {
    hide Lin, EmaStep, Mean;
    if i == period - 1 {
      TrendMean(xs[..period], c, s);
    } else {
      EmaOfTrend(xs, c, s, period, i - 1);
      LagStep(c, s, i as real, period as real);
    }
  }

  lemma LagStep(c: real, s: real, t: real, p: real)
    requires p >= 1.0
    ensures EmaStep(Lin(s, c, t - 1.0 - (p - 1.0) / 2.0), Lin(s, c, t), 2.0 / (p + 1.0))
         == Lin(s, c, t - (p - 1.0) / 2.0)
  {
    var q, k := (p + 1.0) / 2.0, 2.0 / (p + 1.0);
    Reciprocal(p + 1.0, 2.0);
    assert q * k == 1.0;
    var e := Lin(s, c, t - 1.0 - (p - 1.0) / 2.0);
    assert t - 1.0 - (p - 1.0) / 2.0 == t - q;
    assert Lin(s, c, t) - e == s * q;
    assert s * q * k == s * (q * k);
  }

  /** On a trend of slope s, MACD and its signal are both 7*s and the histogram is 0. */
  lemma MacdOfTrend(closes: seq<real>, c: real, s: real)
    requires |closes| >= SLOW + SIGNAL_PERIOD - 1 && IsTrend(closes, c, s)
    ensures Macd(closes) == Some(MacdPoint(7.0 * s, 7.0 * s, 0.0))
  {
    hide EmaAt, IsTrend, Lin;
    var line := MacdLine(closes);
    forall j | 0 <= j < |line| ensures line[j] == 7.0 * s {
      EmaOfTrend(closes, c, s, FAST, SLOW - 1 + j);
      EmaOfTrend(closes, c, s, SLOW, SLOW - 1 + j);
      SevenSteps(c, s, (SLOW - 1 + j) as real);
    }
    EmaBounds(line, SIGNAL_PERIOD, |line| - 1, 7.0 * s, 7.0 * s);
  }

  lemma SevenSteps(c: real, s: real, t: real)
    ensures Lin(s, c, t - 5.5) - Lin(s, c, t - 12.5) == 7.0 * s
  {
  }

  lemma TrendSma(closes: seq<real>, c: real, s: real, n: nat)
    requires 0 < n <= |closes| && IsTrend(closes, c, s)
    ensures Sma(closes, n) == Some(Lin(s, c, (|closes| - 1) as real - (n - 1) as real / 2.0))
  {
    hide Lin, Mean;
    var off := |closes| - n;
    var tail, c' := closes[off..], Lin(s, c, off as real);
    forall i | 0 <= i < n ensures tail[i] == Lin(s, c', i as real) {
      LinShift(c, s, off as real, i as real);
    }
    TrendMean(tail, c', s);
    LinShift(c, s, off as real, (n - 1) as real / 2.0);
    var h := (n - 1) as real / 2.0;
    assert off as real + h == (|closes| - 1) as real - h;
  }

  lemma LinShift(c: real, s: real, t: real, u: real)
    ensures Lin(s, Lin(s, c, t), u) == Lin(s, c, t + u)
  {
  }

  lemma LinBack(c: real, s: real, t: real, u: real)
    ensures Lin(s, c, t - u) == Lin(s, c, t) - s * u
  {
  }

  lemma TrendRsi(closes: seq<real>, c: real, s: real)
    requires |closes| >= MIN_BARS && IsTrend(closes, c, s)
    ensures RsiVote(Rsi(closes, RSI_PERIOD).value) == if s >= 0.0 then -0.5 else 0.5
  {
    hide Lin, Rsi, IsTrend, NeverFalls, NeverRises;
    TrendDirection(closes, c, s);
    RsiRange(closes);
  }

  lemma TrendOrder(closes: seq<real>, c: real, s: real)
    requires |closes| >= MIN_BARS && IsTrend(closes, c, s)
    ensures TrendVote(Last(closes), Sma(closes, 20).value, Sma(closes, 60).value)
         == if s > 0.0 then 1.0 else if s < 0.0 then -1.0 else 0.0
  {
    assert Last(closes) == Lin(s, c, (|closes| - 1) as real);
    hide Lin, Sma, IsTrend, TrendVote;
    TrendSma(closes, c, s, 20);
    TrendSma(closes, c, s, 60);
    VoteOnTrend(c, s, (|closes| - 1) as real);
  }

  /** A steady trend scores exactly half a point in its own direction: the full trend
      vote less the contrarian RSI vote. A price that never moves scores -0.5, because
      RSI reads 100 when nothing fell. */
  lemma TrendLens(closes: seq<real>, c: real, s: real)
    requires |closes| >= MIN_BARS && IsTrend(closes, c, s)
    ensures TechnicalLens(closes).signal == Some(if s > 0.0 then 0.5 else -0.5)
  {
    hide Lin, Sma, Rsi, Macd, IsTrend, TrendVote, RsiVote;
    MacdOfTrend(closes, c, s);
    TrendOrder(closes, c, s);
    TrendRsi(closes, c, s);
  }

  lemma VoteOnTrend(c: real, s: real, t: real)
    ensures TrendVote(Lin(s, c, t), Lin(s, c, t - 9.5), Lin(s, c, t - 29.5))
         == if s > 0.0 then 1.0 else if s < 0.0 then -1.0 else 0.0
  {
  }

  lemma TrendDirection(closes: seq<real>, c: real, s: real)
    requires |closes| > 1 && IsTrend(closes, c, s)
    ensures NeverFalls(closes) <==> s >= 0.0
    ensures NeverRises(closes) <==> s <= 0.0
  {
    hide Lin;
    forall i | 0 < i < |closes| ensures closes[i] == closes[i - 1] + s {
      LinBack(c, s, i as real, 1.0);
    }
    assert closes[1] == closes[0] + s;
  }

  lemma StillLens(closes: seq<real>)
    requires |closes| >= MIN_BARS && !Moves(closes)
    ensures TechnicalLens(closes).signal == Some(-0.5)
  {
    ConstantFrom(closes, |closes| - 1);
    assert IsTrend(closes, closes[0], 0.0);
    TrendLens(closes, closes[0], 0.0);
  }

  lemma {:induction false} ConstantFrom(closes: seq<real>, n: nat)
    requires n < |closes| && !Moves(closes)
    ensures forall i :: 0 <= i <= n ==> closes[i] == closes[0]
  {
    if n > 0 {
      ConstantFrom(closes, n - 1);
      assert closes[n] == closes[n - 1];
    }
  }

  /** The direction of every vote: a higher close, a lower MA60, a lower RSI or a higher
      histogram never lowers the score. */
  lemma RubricMonotone(close: real, close': real, ma20: real, ma60: real, ma60': real, rsi: real, rsi': real,
                       hist: real, hist': real)
    requires close <= close' && ma60 >= ma60' && rsi >= rsi' && hist <= hist'
    ensures TechnicalScore(close, ma20, ma60, rsi, hist) <= TechnicalScore(close', ma20, ma60', rsi', hist')
  {
    assert TrendVote(close, ma20, ma60) <= TrendVote(close', ma20, ma60');
    assert RsiVote(rsi) <= RsiVote(rsi') && MacdVote(hist) <= MacdVote(hist');
    hide TrendVote, RsiVote, MacdVote;
  }

  /** Full marks need all three votes: price over MA20 over MA60, oversold, momentum up; and the
      reverse for the other end. */
  lemma RubricExtremes(close: real, ma20: real, ma60: real, rsi: real, hist: real)
    ensures TechnicalScore(close, ma20, ma60, rsi, hist) == 2.0
       <==> close > ma20 > ma60 && rsi < 30.0 && hist > 0.0
    ensures TechnicalScore(close, ma20, ma60, rsi, hist) == -2.0
       <==> close < ma20 < ma60 && rsi > 70.0 && hist < 0.0
    // one vote at a time, the other two silent
    ensures 30.0 <= rsi <= 70.0 && hist == 0.0 ==>
      var s := TechnicalScore(close, ma20, ma60, rsi, hist);
      && (s == 1.0 <==> close > ma20 > ma60) && (s == -1.0 <==> close < ma20 < ma60)
      && (s == 0.5 <==> close > ma20 && ma20 <= ma60) && (s == -0.5 <==> close < ma20 && ma20 >= ma60)
      && (s == 0.0 <==> close == ma20)
    ensures close == ma20 && hist == 0.0 ==>
      TechnicalScore(close, ma20, ma60, rsi, hist) == if rsi < 30.0 then 0.5 else if rsi > 70.0 then -0.5 else 0.0
    ensures close == ma20 && 30.0 <= rsi <= 70.0 ==>
      TechnicalScore(close, ma20, ma60, rsi, hist) == if hist > 0.0 then 0.5 else if hist < 0.0 then -0.5 else 0.0
  {
  }

  /** The indicators behind the score: means of the last 20 and the last 60 closes, the 14-period
      RSI and the MACD histogram. The lens is at an end of its range exactly when all say so. */
  lemma LensExtremes(closes: seq<real>)
    requires |closes| >= 60
    ensures
      var n := |closes|;
      var close, ma20, ma60 := closes[n - 1], Mean(closes[n - 20..]), Mean(closes[n - 60..]);
      var rsi, hist := Rsi(closes, 14).value, Macd(closes).value.hist;
      && (TechnicalLens(closes).signal == Some(2.0) <==> close > ma20 > ma60 && rsi < 30.0 && hist > 0.0)
      && (TechnicalLens(closes).signal == Some(-2.0) <==> close < ma20 < ma60 && rsi > 70.0 && hist < 0.0)
      && IndicatorsOf(closes).ma20 == ma20 && IndicatorsOf(closes).ma60 == ma60
  {
    var n := |closes|;
    RubricExtremes(Last(closes), Mean(closes[n - 20..]), Mean(closes[n - 60..]), Rsi(closes, 14).value,
                   Macd(closes).value.hist);
    hide Mean, TechnicalScore, Rsi, Macd;
  }

  /** Wilder's blend moves the average one period-th of the way to the new value. */
  lemma BlendMoves(prev: real, x: real, period: nat)
    requires period > 0
    ensures (Blend(prev, x, period) - prev) * period as real == x - prev
  {
    var p := period as real;
    var b := (prev * (p - 1.0) + x) / p;
    assert b * p == prev * (p - 1.0) + x;
    assert (period - 1) as real == p - 1.0;
  }

  /** MACD is the 12-EMA over the 26-EMA, and the histogram is its lead over its own 9-EMA: it
      cannot be negative while the MACD line never falls, nor positive while it never rises. */
  lemma HistogramSign(closes: seq<real>)
    requires |closes| >= 34
    ensures var line, point := MacdLine(closes), Macd(closes).value;
      && point.macd == EmaAt(closes, 12, |closes| - 1) - EmaAt(closes, 26, |closes| - 1)
      && point.signal == EmaAt(line, 9, |line| - 1)
      && (NeverFalls(line) ==> point.hist >= 0.0)
      && (NeverRises(line) ==> point.hist <= 0.0)
  {
    var line := MacdLine(closes);
    var last := |line| - 1;
    hide EmaAt, MacdLine;
    if NeverFalls(line) {
      forall j | 0 <= j <= last ensures line[0] <= line[j] <= line[last] {
        ClimbsTo(line, 0, j);
        ClimbsTo(line, j, last);
      }
      EmaBounds(line, 9, last, line[0], line[last]);
    }
    if NeverRises(line) {
      forall j | 0 <= j <= last ensures line[0] >= line[j] >= line[last] {
        SlidesTo(line, 0, j);
        SlidesTo(line, j, last);
      }
      EmaBounds(line, 9, last, line[last], line[0]);
    }
  }

  lemma {:induction false} ClimbsTo(xs: seq<real>, i: nat, j: nat)
    requires NeverFalls(xs) && i <= j < |xs|
    ensures xs[i] <= xs[j]
    decreases j
  {
    if i < j { ClimbsTo(xs, i, j - 1); }
  }

  lemma {:induction false} SlidesTo(xs: seq<real>, i: nat, j: nat)
    requires NeverRises(xs) && i <= j < |xs|
    ensures xs[i] >= xs[j]
    decreases j
  {
    if i < j { SlidesTo(xs, i, j - 1); }
  }

  /** The lens stays in the contract range whatever the prices. */
  lemma TechnicalLensInRange(closes: seq<real>)
    ensures TechnicalLens(closes).InRange()
    ensures TechnicalLens(closes).Available() <==> |closes| >= 60
  {
  }
}
