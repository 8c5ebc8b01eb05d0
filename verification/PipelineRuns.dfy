/** The pipeline_run table, the nightly loop over the stages, and the on-demand audit rows. */
module PipelineRuns {
  import opened Prelude
  import opened Calendar

  datatype RunStatus = RunOk | RunUnavailable | RunError | RunRunning

  datatype RunKind = Scheduled | OnDemand

  datatype Source = YFinance | TwseTpex | Edgar13f | GdeltNews | Engine | Backtest

  const KNOWN_SOURCES: seq<Source> := [YFinance, TwseTpex, Edgar13f, GdeltNews]
  const STAGES: seq<Source> := [YFinance, TwseTpex, Edgar13f, GdeltNews, Engine, Backtest]

  datatype RunRow = RunRow(status: RunStatus, message: Option<string>)

  /** UNIQUE (run_date, source_name, run_kind). */
  datatype RunKey = RunKey(date: Date, source: Source, kind: RunKind)

  type RunTable = map<RunKey, RunRow>

  /** How a nightly stage ended: its own (status, message), or an escaped exception. */
  datatype StageOutcome = StageReturned(status: RunStatus, message: string) | StageRaised(text: string)

  function StageRow(o: StageOutcome): RunRow {
    match o
    case StageReturned(status, message) => RunRow(status, Some(message))
    case StageRaised(text) => RunRow(RunError, Some("unexpected: " + text))
  }

  /** One audit row an on-demand job writes. */
  datatype Audit = Audit(date: Date, source: Source, status: RunStatus, message: string)

  function WithAudits(runs: RunTable, audits: seq<Audit>): RunTable {
    if audits == [] then runs
    else
      var a := Last(audits);
      WithAudits(runs, audits[..|audits| - 1])[RunKey(a.date, a.source, OnDemand) := RunRow(a.status, Some(a.message))]
  }

  lemma {:induction false} AuditsKeepScheduled(runs: RunTable, audits: seq<Audit>, key: RunKey)
    requires key.kind == Scheduled
    ensures key in WithAudits(runs, audits) <==> key in runs
    ensures key in runs ==> WithAudits(runs, audits)[key] == runs[key]
  {
    if audits != [] { AuditsKeepScheduled(runs, audits[..|audits| - 1], key); }
  }

  predicate IsFor(a: Audit, date: Date, source: Source) { a.date == date && a.source == source }

  /** The on-demand row of a date and source is the last audit written for them... */
  lemma {:induction false} LastAuditStays(runs: RunTable, audits: seq<Audit>, date: Date, source: Source, i: nat)
    requires i < |audits| && IsFor(audits[i], date, source)
    requires forall j :: i < j < |audits| ==> !IsFor(audits[j], date, source)
    ensures
      var key, after := RunKey(date, source, OnDemand), WithAudits(runs, audits);
      key in after && after[key] == RunRow(audits[i].status, Some(audits[i].message))
  {
    var n := |audits| - 1;
    if i < n { LastAuditStays(runs, audits[..n], date, source, i); }
  }

  /** ... and without one it is as before. */
  lemma {:induction false} NoAuditNoChange(runs: RunTable, audits: seq<Audit>, date: Date, source: Source)
    requires forall i :: 0 <= i < |audits| ==> !IsFor(audits[i], date, source)
    ensures
      var key, after := RunKey(date, source, OnDemand), WithAudits(runs, audits);
      (key in after <==> key in runs) && (key in runs ==> after[key] == runs[key])
  {
    if audits != [] { NoAuditNoChange(runs, audits[..|audits| - 1], date, source); }
  }

  lemma {:induction false} AuditsAppend(runs: RunTable, xs: seq<Audit>, ys: seq<Audit>)
    ensures WithAudits(WithAudits(runs, xs), ys) == WithAudits(runs, xs + ys)
  {
    if ys == [] {
      assert xs + ys == xs;
    } else {
      AuditsAppend(runs, xs, ys[..|ys| - 1]);
      assert (xs + ys)[..|xs + ys| - 1] == xs + ys[..|ys| - 1];
    }
  }

  /** A scheduled write and an on-demand write do not see each other. */
  lemma {:induction false} AuditsCommute(runs: RunTable, audits: seq<Audit>, key: RunKey, row: RunRow)
    requires key.kind == Scheduled
    ensures WithAudits(runs[key := row], audits) == WithAudits(runs, audits)[key := row]
  {
    if audits != [] { AuditsCommute(runs, audits[..|audits| - 1], key, row); }
  }

  function Flat(xss: seq<seq<Audit>>): seq<Audit> {
    if xss == [] then [] else Flat(xss[..|xss| - 1]) + Last(xss)
  }

  /** The scheduled rows of the first n stages of one nightly run. */
  function WithStages(runs: RunTable, date: Date, outcomes: seq<StageOutcome>, n: nat): RunTable
    requires n <= |STAGES| && n <= |outcomes|
  {
    if n == 0 then runs
    else WithStages(runs, date, outcomes, n - 1)[RunKey(date, STAGES[n - 1], Scheduled) := StageRow(outcomes[n - 1])]
  }

  lemma {:induction false} StagesCommute(runs: RunTable, audits: seq<Audit>, date: Date, outcomes: seq<StageOutcome>,
                                         n: nat)
    requires n <= |STAGES| && n <= |outcomes|
    ensures WithStages(WithAudits(runs, audits), date, outcomes, n)
      == WithAudits(WithStages(runs, date, outcomes, n), audits)
  {
    if n > 0 {
      StagesCommute(runs, audits, date, outcomes, n - 1);
      AuditsCommute(WithStages(runs, date, outcomes, n - 1), audits, RunKey(date, STAGES[n - 1], Scheduled),
                    StageRow(outcomes[n - 1]));
    }
  }

  lemma {:induction false} StagesAt(runs: RunTable, date: Date, outcomes: seq<StageOutcome>, n: nat)
    requires n <= |STAGES| && n <= |outcomes|
    ensures forall i :: 0 <= i < n ==>
      && RunKey(date, STAGES[i], Scheduled) in WithStages(runs, date, outcomes, n)
      && WithStages(runs, date, outcomes, n)[RunKey(date, STAGES[i], Scheduled)] == StageRow(outcomes[i])
    ensures forall k: RunKey :: k.kind == OnDemand || k.date != date ==>
      && (k in WithStages(runs, date, outcomes, n) <==> k in runs)
      && (k in runs ==> WithStages(runs, date, outcomes, n)[k] == runs[k])
  {
    if n > 0 {
      StagesAt(runs, date, outcomes, n - 1);
      StagesDistinct();
    }
  }

  lemma StagesDistinct()
    ensures forall i, j :: 0 <= i < j < |STAGES| ==> STAGES[i] != STAGES[j]
    ensures forall s: Source :: s in STAGES
  {
    forall s: Source ensures s in STAGES {
      match s
      case YFinance => assert STAGES[0] == s;
      case TwseTpex => assert STAGES[1] == s;
      case Edgar13f => assert STAGES[2] == s;
      case GdeltNews => assert STAGES[3] == s;
      case Engine => assert STAGES[4] == s;
      case Backtest => assert STAGES[5] == s;
    }
  }

  /** Whatever subset of stages raises and whatever audits land meanwhile: afterwards every
      stage has its own scheduled row for the date, carrying its own outcome; no row is left
      running; scheduled rows of other dates are untouched; and the on-demand rows are those
      the audits alone would have left. */
  lemma StageIsolation(runs: RunTable, date: Date, outcomes: seq<StageOutcome>, audits: seq<Audit>)
    requires |outcomes| == |STAGES|
    requires forall i :: 0 <= i < |outcomes| && outcomes[i].StageReturned? ==>
        outcomes[i].status in {RunOk, RunUnavailable}
    ensures
      var after := WithStages(WithAudits(runs, audits), date, outcomes, |STAGES|);
      && (forall i :: 0 <= i < |STAGES| ==>
            var key := RunKey(date, STAGES[i], Scheduled);
            && key in after && after[key] == StageRow(outcomes[i]) && after[key].status != RunRunning
            // an error exactly when the stage raised, and otherwise its own status and message
            && (after[key].status == RunError <==> outcomes[i].StageRaised?)
            && (outcomes[i].StageRaised? ==> after[key].message == Some("unexpected: " + outcomes[i].text))
            && (outcomes[i].StageReturned? ==> after[key] == RunRow(outcomes[i].status, Some(outcomes[i].message))))
      && (forall k: RunKey :: k.kind == Scheduled && k.date != date ==>
            (k in after <==> k in runs) && (k in runs ==> after[k] == runs[k]))
      && (forall k: RunKey :: k.kind == OnDemand ==>
            && (k in after <==> k in WithAudits(runs, audits))
            && (k in after ==> after[k] == WithAudits(runs, audits)[k]))
  {
    StagesAt(WithAudits(runs, audits), date, outcomes, |STAGES|);
    forall k: RunKey | k.kind == Scheduled ensures (k in WithAudits(runs, audits) <==> k in runs)
                                           && (k in runs ==> WithAudits(runs, audits)[k] == runs[k])
    {
      AuditsKeepScheduled(runs, audits, k);
    }
  }

  class PipelineStore {
    var runs: RunTable

    constructor ()
      ensures runs == map[]
    {
      runs := map[];
    }

    /** INSERT ... 'running' ON CONFLICT DO UPDATE. */
    method Begin(date: Date, source: Source)
      modifies this
      ensures runs == old(runs)[RunKey(date, source, Scheduled) := RunRow(RunRunning, None)]
    {
      runs := runs[RunKey(date, source, Scheduled) := RunRow(RunRunning, None)];
    }

    /** UPDATE ... WHERE: changes the row only if there is one. */
    method Complete(date: Date, source: Source, row: RunRow)
      modifies this
      ensures runs == var key := RunKey(date, source, Scheduled);
                      if key in old(runs) then old(runs)[key := row] else old(runs)
    {
      var key := RunKey(date, source, Scheduled);
      if key in runs { runs := runs[key := row]; }
    }

    /** `write_on_demand_audit`. */
    method WriteAudits(audits: seq<Audit>)
      modifies this
      ensures runs == WithAudits(old(runs), audits)
    {
      for i := 0 to |audits|
        invariant runs == WithAudits(old(runs), audits[..i])
      {
        var a := audits[i];
        assert audits[..i + 1][..i] == audits[..i];
        runs := runs[RunKey(a.date, a.source, OnDemand) := RunRow(a.status, Some(a.message))];
      }
      assert audits[..|audits|] == audits;
    }

    /** One turn of the stage loop, with on-demand audits landing while the stage runs.
        `newsRow` is the scheduled gdelt row the stage would find. */
    method RunStage(date: Date, stage: Source, row: RunRow, audits: seq<Audit>) returns (newsRow: Option<RunRow>)
      modifies this
      ensures runs == WithAudits(old(runs), audits)[RunKey(date, stage, Scheduled) := row]
      ensures stage != GdeltNews ==>
        var key := RunKey(date, GdeltNews, Scheduled);
        newsRow == if key in old(runs) then Some(old(runs)[key]) else None
    {
      var key, newsKey := RunKey(date, stage, Scheduled), RunKey(date, GdeltNews, Scheduled);
      Begin(date, stage);
      WriteAudits(audits);
      AuditsCommute(old(runs), audits, key, RunRow(RunRunning, None));
      AuditsKeepScheduled(old(runs), audits, newsKey);
      newsRow := if newsKey in runs then Some(runs[newsKey]) else None;
      Complete(date, stage, row);
    }

    /** `run_pipeline_once`. `meanwhile[i]` are the on-demand audits that land while stage i
        runs. `newsRow` is the scheduled gdelt row the engine stage finds. */
    method RunPipelineOnce(date: Date, outcomes: seq<StageOutcome>, meanwhile: seq<seq<Audit>>)
      returns (newsRow: Option<RunRow>)
      requires |outcomes| == |STAGES| && |meanwhile| == |STAGES|
      modifies this
      ensures runs == WithStages(WithAudits(old(runs), Flat(meanwhile)), date, outcomes, |STAGES|)
      ensures newsRow == Some(StageRow(outcomes[3]))
      ensures outcomes[3].StageRaised? ==> newsRow.value.status == RunError
      ensures outcomes[3].StageReturned? ==> newsRow.value == RunRow(outcomes[3].status, Some(outcomes[3].message))
    {
      newsRow := None;
      for i := 0 to |STAGES|
        invariant runs == WithStages(WithAudits(old(runs), Flat(meanwhile[..i])), date, outcomes, i)
        invariant i > 4 ==> newsRow == Some(StageRow(outcomes[3]))
      {
        ghost var seen := WithAudits(old(runs), Flat(meanwhile[..i]));
        if STAGES[i] == Engine { StagesAt(seen, date, outcomes, i); }
        var found := RunStage(date, STAGES[i], StageRow(outcomes[i]), meanwhile[i]);
        if STAGES[i] == Engine { newsRow := found; }
        StagesCommute(seen, meanwhile[i], date, outcomes, i);
        AuditsAppend(old(runs), Flat(meanwhile[..i]), meanwhile[i]);
        assert meanwhile[..i + 1][..i] == meanwhile[..i];
      }
      assert meanwhile[..|STAGES|] == meanwhile;
    }
  }

  // --- on-demand fetch ------------------------------------------------------------------------

  /** What one source runner does for a single ticker. */
  datatype RunnerResult =
    | Reports(status: RunStatus, fixture: bool, body: string)
    | TimesOut(text: string)
    | Crashes(text: string)

  function RunnerOutcome(r: RunnerResult): (RunStatus, string) {
    match r
    case Reports(status, fixture, body) => (status, (if fixture then "[fixture] " else "[live] ") + body)
    case TimesOut(text) => (RunError, "timeout: " + text)
    case Crashes(text) => (RunError, "unexpected: " + text)
  }

  /** A runner that raises is recorded as an error, whatever it raised, and never as ok; one that
      reports says whether it read fixtures or the live source. */
  lemma RaisedIsError(r: RunnerResult)
    ensures r.Reports? && r.fixture ==> RunnerOutcome(r).1 == "[fixture] " + r.body
    ensures r.Reports? && !r.fixture ==> RunnerOutcome(r).1 == "[live] " + r.body
    ensures r.Reports? ==> RunnerOutcome(r).0 == r.status
    ensures !r.Reports? ==> RunnerOutcome(r).0 == RunError
  {
  }

  type Outcomes = map<Source, (RunStatus, string)>

  /** `run_on_demand_fetch`: every source gets an outcome whatever the others do. */
  method RunOnDemandFetch(results: seq<RunnerResult>) returns (outcomes: Outcomes)
    requires |results| == |KNOWN_SOURCES|
    ensures outcomes.Keys == set s | s in KNOWN_SOURCES
    ensures forall i :: 0 <= i < |KNOWN_SOURCES| ==> outcomes[KNOWN_SOURCES[i]] == RunnerOutcome(results[i])
  {
    outcomes := map[];
    for i := 0 to |KNOWN_SOURCES|
      invariant outcomes.Keys == set s | s in KNOWN_SOURCES[..i]
      invariant forall j :: 0 <= j < i ==> outcomes[KNOWN_SOURCES[j]] == RunnerOutcome(results[j])
    {
      outcomes := outcomes[KNOWN_SOURCES[i] := RunnerOutcome(results[i])];
    }
  }
}
