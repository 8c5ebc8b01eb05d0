/** Fundamental lens: three votes against peer medians. */
module Fundamental {
  import opened Prelude
  import opened LensSignal

  const PE_VOTE := 1.0
  const PB_VOTE := 0.5
  const MARGIN_VOTE := 0.5

  // --- medians --------------------------------------------------------------------------

  predicate IsSorted(xs: seq<real>) {
    forall i, j :: 0 <= i < j < |xs| ==> xs[i] <= xs[j]
  }

  function Insert(x: real, xs: seq<real>): seq<real> {
    if xs == [] || x <= xs[0] then [x] + xs else [xs[0]] + Insert(x, xs[1..])
  }

  /** The built-in `sorted`. */
  function Sorted(xs: seq<real>): seq<real> {
    if xs == [] then [] else Insert(xs[0], Sorted(xs[1..]))
  }

  lemma {:induction false} InsertLaws(x: real, xs: seq<real>)
    requires IsSorted(xs)
    ensures IsSorted(Insert(x, xs)) && |Insert(x, xs)| == |xs| + 1
    ensures xs != [] ==> Insert(x, xs)[0] == Min(x, xs[0])
  {
    if xs != [] && x > xs[0] {
      InsertLaws(x, xs[1..]);
    }
  }

  lemma {:induction false} InsertMultiset(x: real, xs: seq<real>)
    ensures multiset(Insert(x, xs)) == multiset(xs) + multiset{x}
  {
    if xs != [] && x > xs[0] {
      InsertMultiset(x, xs[1..]);
      HeadMultiset(xs);
    }
  }

  lemma {:induction false} SortedLaws(xs: seq<real>)
    ensures IsSorted(Sorted(xs)) && |Sorted(xs)| == |xs|
    ensures multiset(Sorted(xs)) == multiset(xs)
  {
    if xs != [] {
      SortedLaws(xs[1..]);
      InsertLaws(xs[0], Sorted(xs[1..]));
      InsertMultiset(xs[0], Sorted(xs[1..]));
      HeadMultiset(xs);
    }
  }

  lemma HeadIsLeast(xs: seq<real>, y: real)
    requires IsSorted(xs) && y in multiset(xs)
    ensures xs != [] && xs[0] <= y
  {
  }

  lemma SortedHeads(xs: seq<real>, ys: seq<real>)
    requires IsSorted(xs) && IsSorted(ys) && multiset(xs) == multiset(ys) && xs != []
    ensures ys != [] && xs[0] == ys[0]
    ensures multiset(xs[1..]) == multiset(ys[1..])
  {
    SameLength(xs, ys);
    assert xs[0] in multiset(ys) && ys[0] in multiset(xs);
    HeadIsLeast(xs, ys[0]);
    HeadIsLeast(ys, xs[0]);
    hide IsSorted;
    HeadMultiset(xs);
    HeadMultiset(ys);
    assert multiset(xs[1..]) == multiset(xs) - multiset{xs[0]};
    assert multiset(ys[1..]) == multiset(ys) - multiset{xs[0]};
  }

  /** A sorted arrangement of given values is unique. */
  lemma {:induction false} SortedUnique(xs: seq<real>, ys: seq<real>)
    requires IsSorted(xs) && IsSorted(ys) && multiset(xs) == multiset(ys)
    ensures xs == ys
  {
    if xs == [] {
      SameLength(xs, ys);
    } else {
      SortedHeads(xs, ys);
      SortedUnique(xs[1..], ys[1..]);
      assert xs == [xs[0]] + xs[1..] && ys == [ys[0]] + ys[1..];
    }
  }

  function Median(values: seq<real>): Option<real> {
    if values == [] then None
    else
      SortedLaws(values);
      var ordered := Sorted(values);
      var mid := |ordered| / 2;
      if |ordered| % 2 == 1 then Some(ordered[mid])
      else Some((ordered[mid - 1] + ordered[mid]) / 2.0)
  }

  /** The median depends on the values, not on the order the peers come in. */
  lemma MedianOrderFree(xs: seq<real>, ys: seq<real>)
    requires multiset(xs) == multiset(ys)
    ensures Median(xs) == Median(ys)
  {
    hide IsSorted, Sorted;
    SortedLaws(xs);
    SortedLaws(ys);
    SortedUnique(Sorted(xs), Sorted(ys));
    SameLength(xs, ys);
  }

  lemma {:induction false} InsertAffine(a: real, b: real, x: real, xs: seq<real>)
    requires a > 0.0
    ensures Insert(Lin(a, b, x), Affine(a, b, xs)) == Affine(a, b, Insert(x, xs))
  {
    hide Lin;
    if xs != [] {
      LinOrder(a, b, x, xs[0]);
      AffineSlice(a, b, xs, 1, |xs|);
      assert Affine(a, b, xs)[1..] == Affine(a, b, xs)[1..|xs|] && xs[1..] == xs[1..|xs|];
      InsertAffine(a, b, x, xs[1..]);
    }
  }

  lemma {:induction false} SortedAffine(a: real, b: real, xs: seq<real>)
    requires a > 0.0
    ensures Sorted(Affine(a, b, xs)) == Affine(a, b, Sorted(xs))
  {
    hide Lin;
    if xs != [] {
      AffineSlice(a, b, xs, 1, |xs|);
      assert Affine(a, b, xs)[1..] == Affine(a, b, xs)[1..|xs|] && xs[1..] == xs[1..|xs|];
      SortedAffine(a, b, xs[1..]);
      InsertAffine(a, b, xs[0], Sorted(xs[1..]));
    }
  }

  lemma MedianAffine(a: real, b: real, xs: seq<real>)
    requires a > 0.0 && xs != []
    ensures Median(Affine(a, b, xs)) == Some(Lin(a, b, Median(xs).value))
  {
    SortedAffine(a, b, xs);
    SortedLaws(xs);
    var ordered, mid := Sorted(xs), |xs| / 2;
    if |xs| % 2 == 0 {
      LinMidpoint(a, b, ordered[mid - 1], ordered[mid]);
    }
  }

  lemma LinMidpoint(a: real, b: real, x: real, y: real)
    ensures (Lin(a, b, x) + Lin(a, b, y)) / 2.0 == Lin(a, b, (x + y) / 2.0)
  {
  }

  // --- what a median is -----------------------------------------------------------------

  function Count(p: real -> bool, xs: seq<real>): nat {
    if xs == [] then 0 else (if p(xs[0]) then 1 else 0) + Count(p, xs[1..])
  }

  function AtMost(m: real): real -> bool { (v: real) => v <= m }

  function AtLeast(m: real): real -> bool { (v: real) => v >= m }

  lemma {:induction false} CountInsert(p: real -> bool, x: real, xs: seq<real>)
    ensures Count(p, Insert(x, xs)) == Count(p, [x] + xs)
  {
    assert ([x] + xs)[1..] == xs;
    if xs != [] && x > xs[0] {
      CountInsert(p, x, xs[1..]);
      assert ([x] + xs[1..])[1..] == xs[1..];
    }
  }

  lemma {:induction false} CountSorted(p: real -> bool, xs: seq<real>)
    ensures Count(p, Sorted(xs)) == Count(p, xs)
  {
    if xs != [] {
      var rest := Sorted(xs[1..]);
      CountSorted(p, xs[1..]);
      CountInsert(p, xs[0], rest);
      assert ([xs[0]] + rest)[1..] == rest;
    }
  }

  /** A run of hits from index lo to hi counts for that many. */
  lemma {:induction false} CountRun(p: real -> bool, xs: seq<real>, lo: nat, hi: nat)
    requires lo <= hi <= |xs| && forall i :: lo <= i < hi ==> p(xs[i])
    ensures Count(p, xs) >= hi - lo
  {
    if xs != [] {
      CountRun(p, xs[1..], if lo == 0 then 0 else lo - 1, if hi == 0 then 0 else hi - 1);
    }
  }

  /** At least half of the values are no greater than the median and at least half no smaller.
      It is the midpoint of the lower and the upper middle value, each of which is pinned by
      how many values lie on either side; for an odd count the two coincide. */
  lemma MedianHalves(xs: seq<real>) returns (lo: real, hi: real)
    requires xs != []
    ensures Median(xs) == Some((lo + hi) / 2.0) && lo <= hi
    ensures lo in xs && 2 * Count(AtMost(lo), xs) >= |xs| && 2 * Count(AtLeast(lo), xs) > |xs|
    ensures hi in xs && 2 * Count(AtLeast(hi), xs) >= |xs| && 2 * Count(AtMost(hi), xs) > |xs|
    ensures |xs| % 2 == 1 ==> lo == hi
    ensures 2 * Count(AtMost(Median(xs).value), xs) >= |xs|
    ensures 2 * Count(AtLeast(Median(xs).value), xs) >= |xs|
  {
    hide Sorted, Count;
    SortedLaws(xs);
    var ys, n := Sorted(xs), |xs|;
    lo, hi := ys[(n - 1) / 2], ys[n / 2];
    var m := (lo + hi) / 2.0;
    assert lo in multiset(xs) && hi in multiset(xs);
    MiddleCounts(xs, (n - 1) / 2, (n - 1) / 2, lo);
    MiddleCounts(xs, n / 2, n / 2, hi);
    MiddleCounts(xs, (n - 1) / 2, n / 2, m);
  }

  /** A value between the i-th and the j-th of the ordered values. */
  lemma MiddleCounts(xs: seq<real>, i: nat, j: nat, x: real)
    requires |Sorted(xs)| == |xs| && i <= j < |xs| && Sorted(xs)[i] <= x <= Sorted(xs)[j]
    ensures Count(AtMost(x), xs) >= i + 1
    ensures Count(AtLeast(x), xs) >= |xs| - j
  {
    hide Sorted, Count;
    SortedLaws(xs);
    CountSorted(AtMost(x), xs);
    CountSorted(AtLeast(x), xs);
    CountRun(AtMost(x), Sorted(xs), 0, i + 1);
    CountRun(AtLeast(x), Sorted(xs), j, |xs|);
  }

  // --- votes ------------------------------------------------------------------------------

  /** One snapshot: a ticker's own metrics, or a peer's. */
  datatype Snapshot = Snapshot(pe: Option<real>, pb: Option<real>, eps: Option<real>, netMargin: Option<real>)

  function ValuationVote(own: Option<real>, peerMedian: Option<real>, vote: real): Option<real> {
    if own.None? || own.value <= 0.0 || peerMedian.None? || peerMedian.value <= 0.0 then None
    else if own.value <= peerMedian.value * 0.8 then Some(vote)
    else if own.value >= peerMedian.value * 1.2 then Some(-vote)
    else Some(0.0)
  }

  function MarginVote(own: Option<real>, peerMedian: Option<real>): Option<real> {
    if own.None? || peerMedian.None? then None
    else if own.value > peerMedian.value then Some(MARGIN_VOTE)
    else if own.value < peerMedian.value then Some(-MARGIN_VOTE)
    else Some(0.0)
  }

  /** One metric of one snapshot, as a list of at most one value. */
  function Kept(v: Option<real>, positiveOnly: bool): seq<real> {
    if v.Some? && (positiveOnly ==> v.value > 0.0) then [v.value] else []
  }

  function Pe(): Snapshot -> seq<real> { (s: Snapshot) => Kept(s.pe, true) }

  function Pb(): Snapshot -> seq<real> { (s: Snapshot) => Kept(s.pb, true) }

  function NetMargin(): Snapshot -> seq<real> { (s: Snapshot) => Kept(s.netMargin, false) }

  /** Medians over the peers that report the metric; P/E and P/B only count when positive. */
  function PeerMedianPe(peers: seq<Snapshot>): Option<real> { Median(FlatMap(Pe(), peers)) }

  function PeerMedianPb(peers: seq<Snapshot>): Option<real> { Median(FlatMap(Pb(), peers)) }

  function PeerMedianMargin(peers: seq<Snapshot>): Option<real> { Median(FlatMap(NetMargin(), peers)) }

  function OrZero(vote: Option<real>): real { if vote.Some? then vote.value else 0.0 }

  predicate NothingScored(row: Snapshot) { row.pe.None? && row.pb.None? && row.netMargin.None? }

  function FundamentalLens(row: Option<Snapshot>, peers: seq<Snapshot>): ModuleSignal {
    if row.None? || NothingScored(row.value) then Unavailable
    else Ok(ClampSignal(OrZero(ValuationVote(row.value.pe, PeerMedianPe(peers), PE_VOTE))
                        + OrZero(ValuationVote(row.value.pb, PeerMedianPb(peers), PB_VOTE))
                        + OrZero(MarginVote(row.value.netMargin, PeerMedianMargin(peers)))))
  }

  datatype Metric = PE | PB | NET_MARGIN

  /** Running total and running list of unscored metrics. */
  method FundamentalScore(row: Option<Snapshot>, peers: seq<Snapshot>)
    returns (signal: ModuleSignal, peerMedianPe: Option<real>, trailingEps: Option<real>, gaps: seq<Metric>)
    ensures signal == FundamentalLens(row, peers)
    ensures peerMedianPe == PeerMedianPe(peers)
    ensures trailingEps == if row.None? then None else row.value.eps
    // every missing comparison is named, none silently
    ensures signal.Available() ==>
      && (PE in gaps <==> ValuationVote(row.value.pe, PeerMedianPe(peers), PE_VOTE).None?)
      && (PB in gaps <==> ValuationVote(row.value.pb, PeerMedianPb(peers), PB_VOTE).None?)
      && (NET_MARGIN in gaps <==> MarginVote(row.value.netMargin, PeerMedianMargin(peers)).None?)
  {
    peerMedianPe := PeerMedianPe(peers);
    gaps := [];
    if row.None? { return Unavailable, peerMedianPe, None, gaps; }
    trailingEps := row.value.eps;
    if NothingScored(row.value) { return Unavailable, peerMedianPe, trailingEps, gaps; }
    var total := 0.0;
    var peVote := ValuationVote(row.value.pe, peerMedianPe, PE_VOTE);
    if peVote.None? { gaps := gaps + [PE]; } else { total := total + peVote.value; }
    var pbVote := ValuationVote(row.value.pb, PeerMedianPb(peers), PB_VOTE);
    if pbVote.None? { gaps := gaps + [PB]; } else { total := total + pbVote.value; }
    var marginMedian := PeerMedianMargin(peers);
    if row.value.netMargin.None? || marginMedian.None? {
      gaps := gaps + [NET_MARGIN];
    } else if row.value.netMargin.value > marginMedian.value {
      total := total + MARGIN_VOTE;
    } else if row.value.netMargin.value < marginMedian.value {
      total := total - MARGIN_VOTE;
    }
    signal := Ok(ClampSignal(total));
  }

  // --- unit freedom -------------------------------------------------------------------------

  function ScaleMetric(a: real, b: real, v: Option<real>): Option<real> {
    if v.None? then None else Some(Lin(a, b, v.value))
  }

  /** The same snapshot with P/E in units of 1/p, P/B in units of 1/q and margins on the scale
      m*x + c (percent instead of fractions, say). */
  function Rescale(p: real, q: real, m: real, c: real, s: Snapshot): Snapshot {
    Snapshot(ScaleMetric(p, 0.0, s.pe), ScaleMetric(q, 0.0, s.pb), s.eps, ScaleMetric(m, c, s.netMargin))
  }

  function RescaleAll(p: real, q: real, m: real, c: real, peers: seq<Snapshot>): seq<Snapshot> {
    seq(|peers|, i requires 0 <= i < |peers| => Rescale(p, q, m, c, peers[i]))
  }

  /** `f` reads a rescaled peer as `g` reads the peer itself, on the scale a*x + b. */
  ghost predicate Rescales(f: Snapshot -> seq<real>, a: real, b: real, p: real, q: real, m: real, c: real) {
    forall s: Snapshot :: f(Rescale(p, q, m, c, s)) == Affine(a, b, f(s))
  }

  lemma {:induction false} ReportedScaled(f: Snapshot -> seq<real>, a: real, b: real,
                                          p: real, q: real, m: real, c: real, peers: seq<Snapshot>)
    requires Rescales(f, a, b, p, q, m, c)
    ensures FlatMap(f, RescaleAll(p, q, m, c, peers)) == Affine(a, b, FlatMap(f, peers))
  {
    hide Lin, Rescale;
    if peers != [] {
      var peers' := RescaleAll(p, q, m, c, peers);
      assert peers'[1..] == RescaleAll(p, q, m, c, peers[1..]);
      ReportedScaled(f, a, b, p, q, m, c, peers[1..]);
      assert peers'[0] == Rescale(p, q, m, c, peers[0]);
      assert f(peers'[0]) == Affine(a, b, f(peers[0]));
    }
  }

  lemma KeptScaled(a: real, b: real, v: Option<real>, positiveOnly: bool)
    requires a > 0.0 && (positiveOnly ==> b == 0.0)
    ensures Kept(ScaleMetric(a, b, v), positiveOnly) == Affine(a, b, Kept(v, positiveOnly))
  {
    if v.Some? && positiveOnly { LinSign(a, v.value); }
  }

  lemma LinSign(a: real, x: real)
    requires a > 0.0
    ensures Lin(a, 0.0, x) > 0.0 <==> x > 0.0
  {
    Cancel(x, 0.0, a);
  }

  lemma ScaledMedian(f: Snapshot -> seq<real>, a: real, b: real,
                     p: real, q: real, m: real, c: real, peers: seq<Snapshot>)
    requires a > 0.0 && Rescales(f, a, b, p, q, m, c)
    ensures Median(FlatMap(f, RescaleAll(p, q, m, c, peers))) == ScaleMetric(a, b, Median(FlatMap(f, peers)))
  {
    ReportedScaled(f, a, b, p, q, m, c, peers);
    if FlatMap(f, peers) != [] { MedianAffine(a, b, FlatMap(f, peers)); }
  }

  lemma MediansScaled(p: real, q: real, m: real, c: real, peers: seq<Snapshot>)
    requires p > 0.0 && q > 0.0 && m > 0.0
    ensures PeerMedianPe(RescaleAll(p, q, m, c, peers)) == ScaleMetric(p, 0.0, PeerMedianPe(peers))
    ensures PeerMedianPb(RescaleAll(p, q, m, c, peers)) == ScaleMetric(q, 0.0, PeerMedianPb(peers))
    ensures PeerMedianMargin(RescaleAll(p, q, m, c, peers)) == ScaleMetric(m, c, PeerMedianMargin(peers))
  {
    hide Median, Lin, FlatMap;
    forall s: Snapshot
      ensures Pe()(Rescale(p, q, m, c, s)) == Affine(p, 0.0, Pe()(s))
      ensures Pb()(Rescale(p, q, m, c, s)) == Affine(q, 0.0, Pb()(s))
      ensures NetMargin()(Rescale(p, q, m, c, s)) == Affine(m, c, NetMargin()(s))
    {
      KeptScaled(p, 0.0, s.pe, true);
      KeptScaled(q, 0.0, s.pb, true);
      KeptScaled(m, c, s.netMargin, false);
    }
    ScaledMedian(Pe(), p, 0.0, p, q, m, c, peers);
    ScaledMedian(Pb(), q, 0.0, p, q, m, c, peers);
    ScaledMedian(NetMargin(), m, c, p, q, m, c, peers);
  }

  lemma ValuationVoteScaled(a: real, own: Option<real>, med: Option<real>, vote: real)
    requires a > 0.0
    ensures ValuationVote(ScaleMetric(a, 0.0, own), ScaleMetric(a, 0.0, med), vote) == ValuationVote(own, med, vote)
  {
    if own.Some? && med.Some? {
      LinSign(a, own.value);
      LinSign(a, med.value);
      ThresholdScaled(a, own.value, med.value, 0.8);
      ThresholdScaled(a, own.value, med.value, 1.2);
    }
  }

  lemma ThresholdScaled(a: real, x: real, y: real, k: real)
    requires a > 0.0
    ensures Lin(a, 0.0, x) <= Lin(a, 0.0, y) * k <==> x <= y * k
    ensures Lin(a, 0.0, x) >= Lin(a, 0.0, y) * k <==> x >= y * k
  {
    assert a * y * k == a * (y * k);
    Cancel(x, y * k, a);
    Cancel(y * k, x, a);
  }

  /** The lens compares like with like: it does not depend on the units in which P/E, P/B or
      net margin are quoted, nor on where the margin scale has its zero. */
  lemma FundamentalUnitFree(p: real, q: real, m: real, c: real, row: Option<Snapshot>, peers: seq<Snapshot>)
    requires p > 0.0 && q > 0.0 && m > 0.0
    ensures FundamentalLens(if row.None? then None else Some(Rescale(p, q, m, c, row.value)),
                            RescaleAll(p, q, m, c, peers))
         == FundamentalLens(row, peers)
  {
    hide Median, ValuationVote, Lin, FlatMap, PeerMedianPe, PeerMedianPb, PeerMedianMargin, ClampSignal, RescaleAll;
    MediansScaled(p, q, m, c, peers);
    if row.Some? {
      ValuationVoteScaled(p, row.value.pe, PeerMedianPe(peers), PE_VOTE);
      ValuationVoteScaled(q, row.value.pb, PeerMedianPb(peers), PB_VOTE);
      if row.value.netMargin.Some? && PeerMedianMargin(peers).Some? {
        LinOrder(m, c, row.value.netMargin.value, PeerMedianMargin(peers).value);
      }
    }
  }

  /** `row'` is at least as cheap and as profitable as `row`, metric by metric. */
  predicate NoWorse(row: Snapshot, row': Snapshot) {
    && (row.pe.Some? <==> row'.pe.Some?) && (row.pe.Some? ==> 0.0 < row'.pe.value <= row.pe.value)
    && (row.pb.Some? <==> row'.pb.Some?) && (row.pb.Some? ==> 0.0 < row'.pb.value <= row.pb.value)
    && (row.netMargin.Some? <==> row'.netMargin.Some?)
      && (row.netMargin.Some? ==> row.netMargin.value <= row'.netMargin.value)
  }

  lemma VoteAntitone(own: Option<real>, own': Option<real>, med: Option<real>, vote: real)
    requires vote > 0.0 && (own.Some? <==> own'.Some?) && (own.Some? ==> 0.0 < own'.value <= own.value)
    ensures OrZero(ValuationVote(own, med, vote)) <= OrZero(ValuationVote(own', med, vote))
  {
  }

  /** Against the same peers a cheaper, more profitable company never scores lower. */
  lemma CheaperNeverScoresLower(row: Snapshot, row': Snapshot, peers: seq<Snapshot>)
    requires NoWorse(row, row')
    ensures FundamentalLens(Some(row), peers).Available() <==> FundamentalLens(Some(row'), peers).Available()
    ensures FundamentalLens(Some(row), peers).Available() ==>
      FundamentalLens(Some(row), peers).signal.value <= FundamentalLens(Some(row'), peers).signal.value
  {
    VoteAntitone(row.pe, row'.pe, PeerMedianPe(peers), PE_VOTE);
    VoteAntitone(row.pb, row'.pb, PeerMedianPb(peers), PB_VOTE);
    hide ValuationVote, PeerMedianPe, PeerMedianPb, PeerMedianMargin;
  }

  /** The lens does not depend on the order in which the peers are listed. */
  lemma PeerOrderFree(row: Option<Snapshot>, ps: seq<Snapshot>, qs: seq<Snapshot>)
    requires multiset(ps) == multiset(qs)
    ensures FundamentalLens(row, ps) == FundamentalLens(row, qs)
  {
    hide Median, FlatMap, ValuationVote, MarginVote;
    FlatMapPermuted(Pe(), ps, qs);
    FlatMapPermuted(Pb(), ps, qs);
    FlatMapPermuted(NetMargin(), ps, qs);
    MedianOrderFree(FlatMap(Pe(), ps), FlatMap(Pe(), qs));
    MedianOrderFree(FlatMap(Pb(), ps), FlatMap(Pb(), qs));
    MedianOrderFree(FlatMap(NetMargin(), ps), FlatMap(NetMargin(), qs));
  }

  /** Who is a comparable: a peer without a positive P/E (or P/B) leaves that median alone and so
      does one without a margin, while a loss-making peer's margin counts. */
  lemma WhoCounts(peers: seq<Snapshot>, p: Snapshot)
    ensures p.pe.None? || p.pe.value <= 0.0 ==> PeerMedianPe(peers + [p]) == PeerMedianPe(peers)
    ensures p.pb.None? || p.pb.value <= 0.0 ==> PeerMedianPb(peers + [p]) == PeerMedianPb(peers)
    ensures p.netMargin.None? ==> PeerMedianMargin(peers + [p]) == PeerMedianMargin(peers)
    ensures PeerMedianPe([p]) == (if p.pe.Some? && p.pe.value > 0.0 then p.pe else None)
    ensures PeerMedianPb([p]) == (if p.pb.Some? && p.pb.value > 0.0 then p.pb else None)
    ensures PeerMedianMargin([p]) == p.netMargin
  {
    OneMore(Pe(), peers, p);
    OneMore(Pb(), peers, p);
    OneMore(NetMargin(), peers, p);
    hide FlatMap, Median;
  }

  lemma OneMore(f: Snapshot -> seq<real>, peers: seq<Snapshot>, p: Snapshot)
    ensures f(p) == [] ==> FlatMap(f, peers + [p]) == FlatMap(f, peers)
    ensures |f(p)| == 1 ==> Median(FlatMap(f, [p])) == Some(f(p)[0])
    ensures f(p) == [] ==> Median(FlatMap(f, [p])) == None
  {
    FlatMapAppend(f, peers, [p]);
    FlatMapOne(f, p);
    if |f(p)| == 1 {
      assert f(p) == [f(p)[0]];
      assert Sorted(f(p)[1..]) == [];
    }
  }

  predicate BothPositive(own: Option<real>, med: Option<real>) {
    own.Some? && own.value > 0.0 && med.Some? && med.value > 0.0
  }

  predicate Cheap(own: Option<real>, med: Option<real>) {
    BothPositive(own, med) && own.value <= 0.8 * med.value
  }

  predicate Rich(own: Option<real>, med: Option<real>) {
    BothPositive(own, med) && own.value >= 1.2 * med.value
  }

  predicate Above(own: Option<real>, med: Option<real>) { own.Some? && med.Some? && own.value > med.value }

  /** The score is full exactly when all three comparisons agree; the P/E comparison weighs as
      much as the other two together, and those two weigh alike. */
  lemma FundamentalExtremes(row: Snapshot, peers: seq<Snapshot>)
    requires row.pe.Some? || row.pb.Some? || row.netMargin.Some?
    ensures
      var pe, pb, margin := PeerMedianPe(peers), PeerMedianPb(peers), PeerMedianMargin(peers);
      var s := FundamentalLens(Some(row), peers).signal;
      var dear, thin := Rich(row.pb, pb), Above(margin, row.netMargin);
      && (s == Some(2.0) <==> Cheap(row.pe, pe) && Cheap(row.pb, pb) && Above(row.netMargin, margin))
      && (s == Some(-2.0) <==> Rich(row.pe, pe) && dear && thin)
      && (Cheap(row.pe, pe) && dear && thin ==> s == Some(0.0))
      && (!Cheap(row.pe, pe) && !Rich(row.pe, pe) && Cheap(row.pb, pb) ==>
            (Above(row.netMargin, margin) ==> s == Some(1.0)) && (thin ==> s == Some(0.0)))
  {
    hide Median, FlatMap;
  }

  lemma FundamentalInRange(row: Option<Snapshot>, peers: seq<Snapshot>)
    ensures FundamentalLens(row, peers).InRange()
  {
  }
}
