/** Chip lens: Taiwan institutional nets, and the quarter-on-quarter flow of US 13F filers. */
module Chip {
  import opened Prelude
  import opened LensSignal

  datatype ChipRow = ChipRow(
    foreignNet: Option<real>, trustNet: Option<real>, dealerNet: Option<real>,
    marginBalance: Option<real>, blockVolume: Option<real>)

  function NetScore(row: ChipRow): real {
    1.0 * SignOf(row.foreignNet) + 0.6 * SignOf(row.trustNet) + 0.4 * SignOf(row.dealerNet)
  }

  predicate NoNets(row: ChipRow) { row.foreignNet.None? && row.trustNet.None? && row.dealerNet.None? }

  predicate Complete(row: ChipRow) {
    row.foreignNet.Some? && row.trustNet.Some? && row.dealerNet.Some? && row.marginBalance.Some?
      && row.blockVolume.Some?
  }

  function ChipScoreTw(row: Option<ChipRow>): ModuleSignal {
    if row.None? || NoNets(row.value) then Unavailable
    else ModuleSignal(Some(ClampSignal(NetScore(row.value))), Complete(row.value))
  }

  /** Totals of the two latest quarters, latest first. */
  function ChipScoreUs(quarterTotals: seq<int>): ModuleSignal {
    if |quarterTotals| <= 1 then Unavailable
    else
      var latest, prior := quarterTotals[0] as real, quarterTotals[1] as real;
      if prior == 0.0 then Ok(2.0 * SignOf(Some(latest)))
      else Ok(ClampSignal((latest - prior) / prior * 100.0 / 5.0))
  }

  /** The clamp never bites on the Taiwan side: the votes already add up to at most 2, and
      the score is 2 (or -2) exactly when all three institutions net buy (sell). */
  lemma TwScoreExact(row: ChipRow)
    ensures !ChipScoreTw(None).Available()
    ensures ChipScoreTw(Some(row)).Available() <==> row.foreignNet.Some? || row.trustNet.Some? || row.dealerNet.Some?
    ensures ChipScoreTw(Some(row)).Available() ==>
      ChipScoreTw(Some(row)).signal
      == Some(1.0 * SignOf(row.foreignNet) + 0.6 * SignOf(row.trustNet) + 0.4 * SignOf(row.dealerNet))
    ensures ChipScoreTw(Some(row)).Available() && ChipScoreTw(Some(row)).subfieldsComplete
       <==> (row.foreignNet.Some? && row.trustNet.Some? && row.dealerNet.Some?
             && row.marginBalance.Some? && row.blockVolume.Some?)
    ensures NetScore(row) == 2.0 <==>
      SignOf(row.foreignNet) == 1.0 && SignOf(row.trustNet) == 1.0 && SignOf(row.dealerNet) == 1.0
    ensures NetScore(row) == -2.0 <==>
      SignOf(row.foreignNet) == -1.0 && SignOf(row.trustNet) == -1.0 && SignOf(row.dealerNet) == -1.0
    ensures SignOf(row.foreignNet) != 0.0 ==> NetScore(row) * SignOf(row.foreignNet) >= 0.0
  {
  }

  /** Missing margin or block data is disclosed, never scored: it changes the completeness
      flag and nothing else. */
  lemma AuxiliaryNeverScores(row: ChipRow, margin: Option<real>, block: Option<real>)
    ensures ChipScoreTw(Some(row)).signal
      == ChipScoreTw(Some(row.(marginBalance := margin, blockVolume := block))).signal
  {
  }

  /** The US score points the way the shares moved exactly when the prior total was not
      negative, or nothing moved. */
  lemma UsScoreDirection(latest: int, prior: int)
    ensures
      var s := ChipScoreUs([latest, prior]).signal.value;
      SignOf(Some(s)) == SignOf(Some((latest - prior) as real)) <==> prior >= 0 || latest == prior
  {
    if prior != 0 {
      var l, p := latest as real, prior as real;
      var q := (l - p) / p;
      assert q * p == l - p;
      if prior > 0 {
        Cancel(q, 0.0, p);
        Cancel(0.0, q, p);
      } else {
        assert q * p == (-q) * (-p);
        Cancel(-q, 0.0, -p);
        Cancel(0.0, -q, -p);
      }
    }
  }

  /** Only the relative change counts: counting in lots of k shares changes nothing. */
  lemma UsScoreUnitFree(latest: int, prior: int, k: int)
    requires k > 0
    ensures ChipScoreUs([k * latest, k * prior]) == ChipScoreUs([latest, prior])
  {
    var l, p, r := latest as real, prior as real, k as real;
    assert (k * latest) as real == r * l && (k * prior) as real == r * p;
    if prior == 0 {
      Cancel(l, 0.0, r);
      Cancel(0.0, l, r);
    } else {
      var q := (l - p) / p;
      assert q * p == l - p;
      assert q * (r * p) == r * (q * p);
      assert r * p != 0.0 by { Cancel(p, 0.0, r); Cancel(0.0, p, r); }
      assert r * l - r * p == r * (l - p);
      QuotientUnique(q, r * p, r * l - r * p);
    }
  }

  lemma ChipInRange(row: Option<ChipRow>, quarterTotals: seq<int>)
    ensures ChipScoreTw(row).InRange() && ChipScoreUs(quarterTotals).InRange()
  {
  }

  /** With shares held before, a tenth more or less saturates the score, and in between it is
      proportional: every five per cent is a point. With none before only the direction counts, and
      a single quarter says nothing. */
  lemma UsScoreExact(latest: int, prior: int, more: seq<int>)
    ensures !ChipScoreUs([]).Available() && !ChipScoreUs([latest]).Available()
    ensures
      var s := ChipScoreUs([latest, prior] + more).signal;
      && s.Some?
      && (prior == 0 ==> s.value == if latest > 0 then 2.0 else if latest < 0 then -2.0 else 0.0)
      && (prior > 0 && 10 * (latest - prior) >= prior ==> s.value == 2.0)
      && (prior > 0 && 10 * (latest - prior) <= -prior ==> s.value == -2.0)
      && (prior > 0 && -prior <= 10 * (latest - prior) <= prior ==>
            s.value * (prior as real) == 20.0 * ((latest - prior) as real))
  {
    assert ([latest, prior] + more)[0] == latest && ([latest, prior] + more)[1] == prior;
    if prior > 0 {
      Saturates((latest - prior) as real, prior as real);
      assert (10 * (latest - prior)) as real == 10.0 * (latest - prior) as real;
    }
  }

  lemma Saturates(d: real, p: real)
    requires p > 0.0
    ensures 10.0 * d >= p ==> ClampSignal(d / p * 100.0 / 5.0) == 2.0
    ensures 10.0 * d <= -p ==> ClampSignal(d / p * 100.0 / 5.0) == -2.0
    ensures -p <= 10.0 * d <= p ==> ClampSignal(d / p * 100.0 / 5.0) * p == 20.0 * d
  {
    var q := d / p;
    assert q * p == d;
    Cancel(0.1, q, p);
    Cancel(q, -0.1, p);
    Cancel(q, 0.1, p);
    Cancel(-0.1, q, p);
    assert 10.0 * d <= -p <==> q <= -0.1;
    assert 20.0 * q * p == 20.0 * d;
  }

  /** The sign a missing or present value votes with. */
  lemma SignMeans(v: Option<real>)
    ensures SignOf(v) == 1.0 <==> v.Some? && v.value > 0.0
    ensures SignOf(v) == -1.0 <==> v.Some? && v.value < 0.0
    ensures SignOf(v) in {-1.0, 0.0, 1.0}
  {
  }
}
