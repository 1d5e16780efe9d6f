/**
 Ingestion runs and the projections they publish. Every database transaction is one
 step that commits or rolls back as a whole; a commit may also take effect although
 its caller is told that it failed.
 */
module RunLifecycle {
  import opened Wrappers
  import opened Instants
  import opened Projections
  import Sorting
  import Text

  datatype Status = Queued | Running | Succeeded | Partial | Failed | Cancelled
  {
    predicate Active() { Queued? || Running? }
  }

  datatype RunError = NoError | Canceled(message: string) | Failure(message: string)

  datatype Metrics = Metrics(received: int, written: int, rejected: int, rawPayloads: int, rawBytes: int, manifestHash: string, error: RunError)

  /** One ingestion_runs row. */
  datatype RunRow = RunRow(
    dataSourceId: string, runKey: string, status: Status, startedAt: int, finishedAt: Option<int>,
    counts: seq<int>, manifestHash: Option<string>, errorMessage: Option<string>)

  /** What callers hold of a run. */
  datatype Run = Run(id: string, dataSourceId: string, status: Option<Status>, startedAt: int, skip: bool)

  datatype Database = Database(
    runs: map<string, RunRow>, prices: map<string, map<string, PriceSnapshot>>, macros: map<string, map<string, MacroSnapshot>>)

  /** What goes wrong around a transaction: nothing, a failed statement, or a commit whose acknowledgement is lost. */
  datatype Fault = NoFault | StatementFails | AcknowledgementLost

  datatype Request =
    | Start(source: string, runKey: string, startedAt: int, inputsValid: bool, newId: string)
    | Finalize(run: Run, finished: int, metrics: Metrics, prices: seq<PriceBar>, macros: seq<EconomicObservation>)
    | Cancel(run: Run, finished: int, reason: string)

  /** The state after a step, and what its caller learns. */
  datatype Outcome = Outcome(db: Database, reply: Option<Run>)

  // ---------- shared pieces ----------

  function Table<R>(tables: map<string, map<string, R>>, dataSourceId: string): map<string, R>
  {
    if dataSourceId in tables then tables[dataSourceId] else map[]
  }

  /** The tables of all sources after the upserts of one run's batch, made under its source. */
  function UpsertUnder<C, R>(p: Projection<C, R>, tables: map<string, map<string, R>>, dataSourceId: string, cs: seq<C>): map<string, map<string, R>>
  {
    if cs == [] then tables else tables[dataSourceId := UpsertAll(p, Table(tables, dataSourceId), cs)]
  }

  function Classify(m: Metrics): (r: Status)
    ensures !r.Active()
    ensures r.Succeeded? ==> m.error.NoError? && m.rejected <= 0
    ensures r.Cancelled? <==> m.error.Canceled?
  {
    if m.error.Canceled? then Cancelled
    else if m.error.Failure? then (if m.written > 0 || m.rawPayloads > 0 then Partial else Failed)
    else if m.rejected > 0 then Partial
    else Succeeded
  }

  function ErrorMessage(message: string): Option<string>
  {
    Some(if |message| > 4000 then message[..4000] else message)
  }

  function MetricsMessage(m: Metrics): Option<string>
  {
    if m.error.NoError? then None else ErrorMessage(m.error.message)
  }

  predicate BelongsTo(run: Run, p: Provenance)
  {
    p.dataSourceId == run.dataSourceId && p.ingestionRunId == run.id
  }

  predicate LineageValid(run: Run, prices: seq<PriceBar>, macros: seq<EconomicObservation>)
  {
    && (forall i :: 0 <= i < |prices| ==> BelongsTo(run, prices[i].provenance))
    && (forall i :: 0 <= i < |macros| ==> BelongsTo(run, macros[i].provenance))
  }

  predicate IsActiveRun(db: Database, run: Run)
  {
    run.id in db.runs && db.runs[run.id].dataSourceId == run.dataSourceId && db.runs[run.id].status.Active()
  }

  function Finished(row: RunRow, finished: int, m: Metrics): RunRow
  {
    row.(status := Classify(m), finishedAt := Some(finished),
         counts := [m.received, m.written, m.rejected, m.rawPayloads, m.rawBytes],
         manifestHash := Nullable(m.manifestHash), errorMessage := MetricsMessage(m))
  }

  /** The identifier of the run stored under a unique (data source, key). */
  ghost predicate HasKey(db: Database, id: string, dataSourceId: string, runKey: string)
  {
    id in db.runs && db.runs[id].dataSourceId == dataSourceId && db.runs[id].runKey == runKey
  }

  ghost predicate KeyTaken(db: Database, dataSourceId: string, runKey: string)
  {
    exists id :: HasKey(db, id, dataSourceId, runKey)
  }

  ghost predicate UniqueKeys(db: Database)
  {
    forall x, y :: x in db.runs && y in db.runs && x != y ==>
      db.runs[x].dataSourceId != db.runs[y].dataSourceId || db.runs[x].runKey != db.runs[y].runKey
  }

  // ---------- the steps ----------

  function Handle(id: string, row: RunRow, skip: bool): Run
  {
    Run(id, row.dataSourceId, Some(row.status), row.startedAt, skip)
  }

  ghost function ApplyStart(sources: map<string, string>, db: Database, r: Request, fault: Fault): Outcome
    requires r.Start?
  {
    if !r.inputsValid || r.source !in sources || fault.StatementFails? then Outcome(db, None)
    else if KeyTaken(db, sources[r.source], r.runKey) then
      var id :| HasKey(db, id, sources[r.source], r.runKey);
      Outcome(db, if db.runs[id].status.Succeeded? && fault.NoFault? then Some(Handle(id, db.runs[id], true)) else None)
    else if r.newId in db.runs then Outcome(db, None)
    else
      var row := RunRow(sources[r.source], r.runKey, Running, r.startedAt, None, [], None, None);
      Outcome(db.(runs := db.runs[r.newId := row]), if fault.NoFault? then Some(Handle(r.newId, row, false)) else None)
  }

  function Published(db: Database, r: Request): Database
    requires r.Finalize? && IsActiveRun(db, r.run)
  {
    var ds := r.run.dataSourceId;
    Database(
      db.runs[r.run.id := Finished(db.runs[r.run.id], r.finished, r.metrics)],
      UpsertUnder(Prices(), db.prices, ds, Reduced(Prices(), r.prices)),
      UpsertUnder(Macros(), db.macros, ds, Reduced(Macros(), r.macros)))
  }

  function ApplyFinalize(db: Database, r: Request, fault: Fault): Outcome
    requires r.Finalize?
  {
    if !LineageValid(r.run, r.prices, r.macros) || fault.StatementFails? || !IsActiveRun(db, r.run) then Outcome(db, None)
    else Outcome(Published(db, r), if fault.NoFault? then Some(r.run) else None)
  }

  predicate CancelAllowed(r: Request)
    requires r.Cancel?
  {
    && Text.TrimSpace(r.reason) != ""
    && r.finished != ZERO_TIME
    && (r.run.startedAt == ZERO_TIME || r.run.startedAt <= r.finished)
    && (r.run.status.None? || r.run.status.value.Active())
  }

  function ApplyCancel(db: Database, r: Request, fault: Fault): Outcome
    requires r.Cancel?
  {
    if !CancelAllowed(r) || fault.StatementFails? || !IsActiveRun(db, r.run) then Outcome(db, None)
    else
      var row := db.runs[r.run.id].(status := Cancelled, finishedAt := Some(r.finished), errorMessage := ErrorMessage("operator cancellation: " + Text.TrimSpace(r.reason)));
      Outcome(db.(runs := db.runs[r.run.id := row]), if fault.NoFault? then Some(r.run) else None)
  }

  ghost function Apply(sources: map<string, string>, db: Database, r: Request, fault: Fault): Outcome
  {
    match r
    case Start(_, _, _, _, _) => ApplyStart(sources, db, r, fault)
    case Finalize(_, _, _, _, _) => ApplyFinalize(db, r, fault)
    case Cancel(_, _, _) => ApplyCancel(db, r, fault)
  }

  function Empty(): Database { Database(map[], map[], map[]) }

  // ---------- the repository ----------

  class Repository {
    const sources: map<string, string>
    var runs: map<string, RunRow>
    var prices: map<string, map<string, PriceSnapshot>>
    var macros: map<string, map<string, MacroSnapshot>>

    function Contents(): Database
      reads this
    {
      Database(runs, prices, macros)
    }

    constructor (sources: map<string, string>)
      ensures this.sources == sources && Contents() == Empty()
    {
      this.sources := sources;
      runs, prices, macros := map[], map[], map[];
    }

    /** The UPDATE that both closing statements share: rows affected, and the new rows. */
    method CloseActive(run: Run, row: RunRow) returns (affected: nat)
      modifies this`runs
      ensures affected == if IsActiveRun(old(Contents()), run) then 1 else 0
      ensures runs == if affected == 1 then old(runs)[run.id := row] else old(runs)
    {
      if run.id in runs && runs[run.id].dataSourceId == run.dataSourceId && runs[run.id].status.Active() {
        runs := runs[run.id := row];
        return 1;
      }
      return 0;
    }

    method UpsertPrices(dataSourceId: string, latest: seq<PriceBar>)
      modifies this`prices
      ensures prices == UpsertUnder(Prices(), old(prices), dataSourceId, latest)
    {
      hide Prices, Upsert;
      for i := 0 to |latest|
        invariant prices == UpsertUnder(Prices(), old(prices), dataSourceId, latest[..i])
      {
        assert latest[..i + 1][..i] == latest[..i];
        prices := prices[dataSourceId := Upsert(Prices(), Table(prices, dataSourceId), latest[i])];
      }
      assert latest[..|latest|] == latest;
    }

    method UpsertMacros(dataSourceId: string, latest: seq<EconomicObservation>)
      modifies this`macros
      ensures macros == UpsertUnder(Macros(), old(macros), dataSourceId, latest)
    {
      hide Macros, Upsert;
      for i := 0 to |latest|
        invariant macros == UpsertUnder(Macros(), old(macros), dataSourceId, latest[..i])
      {
        assert latest[..i + 1][..i] == latest[..i];
        macros := macros[dataSourceId := Upsert(Macros(), Table(macros, dataSourceId), latest[i])];
      }
      assert latest[..|latest|] == latest;
    }

    /** The row stored under a unique (data source, key), as the second SELECT finds it. */
    method FindByKey(dataSourceId: string, runKey: string) returns (id: Option<string>)
      ensures id.None? <==> !KeyTaken(Contents(), dataSourceId, runKey)
      ensures id.Some? ==> HasKey(Contents(), id.value, dataSourceId, runKey)
    {
      var todo := runs.Keys;
      while todo != {}
        invariant todo <= runs.Keys
        invariant forall x :: x in runs && x !in todo ==> !HasKey(Contents(), x, dataSourceId, runKey)
        decreases todo
      {
        var x :| x in todo;
        if runs[x].dataSourceId == dataSourceId && runs[x].runKey == runKey {
          assert HasKey(Contents(), x, dataSourceId, runKey);
          return Some(x);
        }
        todo := todo - {x};
      }
      return None;
    }

    method StartRun(r: Request, fault: Fault) returns (reply: Option<Run>)
      requires r.Start? && UniqueKeys(Contents())
      modifies this`runs
      ensures Outcome(Contents(), reply) == ApplyStart(sources, old(Contents()), r, fault)
    {
      if !r.inputsValid || r.source !in sources || fault.StatementFails? {
        return None;
      }
      var dataSourceId := sources[r.source];
      var taken := FindByKey(dataSourceId, r.runKey);
      if taken.Some? {
        var row := runs[taken.value];
        if row.status.Active() || !row.status.Succeeded? || !fault.NoFault? {
          return None;
        }
        return Some(Handle(taken.value, row, true));
      }
      if r.newId in runs {
        return None;
      }
      var row := RunRow(dataSourceId, r.runKey, Running, r.startedAt, None, [], None, None);
      runs := runs[r.newId := row];
      return if fault.NoFault? then Some(Handle(r.newId, row, false)) else None;
    }

    method CancelRun(r: Request, fault: Fault) returns (reply: Option<Run>)
      requires r.Cancel?
      modifies this`runs
      ensures Outcome(Contents(), reply) == ApplyCancel(old(Contents()), r, fault)
    {
      if !CancelAllowed(r) || fault.StatementFails? {
        return None;
      }
      var before := if r.run.id in runs then runs[r.run.id] else RunRow("", "", Failed, 0, None, [], None, None);
      var row := before.(status := Cancelled, finishedAt := Some(r.finished), errorMessage := ErrorMessage("operator cancellation: " + Text.TrimSpace(r.reason)));
      var affected := CloseActive(r.run, row);
      if affected != 1 {
        return None;
      }
      return if fault.NoFault? then Some(r.run) else None;
    }

    method FinalizeRun(r: Request, fault: Fault) returns (reply: Option<Run>)
      requires r.Finalize?
      modifies this`runs, this`prices, this`macros
      ensures Outcome(Contents(), reply) == ApplyFinalize(old(Contents()), r, fault)
    {
      if !LineageValid(r.run, r.prices, r.macros) {
        return None;
      }
      var latestPrices := Collapse(Prices(), r.prices);
      var latestMacros := Collapse(Macros(), r.macros);
      hide Reduced, Finished;
      var before := Contents();
      UpsertPrices(r.run.dataSourceId, latestPrices);
      UpsertMacros(r.run.dataSourceId, latestMacros);
      var row := if r.run.id in runs then Finished(runs[r.run.id], r.finished, r.metrics) else RunRow("", "", Failed, 0, None, [], None, None);
      var affected := CloseActive(r.run, row);
      if affected != 1 || fault.StatementFails? {
        runs, prices, macros := before.runs, before.prices, before.macros;
        return None;
      }
      return if fault.NoFault? then Some(r.run) else None;
    }
  }


  // ---------- one step ----------

  /** What any step leaves of a run: the row stays, and a terminal row stays as it is. */
  ghost predicate RunKept(before: Database, after: Database, id: string)
    requires id in before.runs
  {
    && id in after.runs
    && after.runs[id].dataSourceId == before.runs[id].dataSourceId
    && after.runs[id].runKey == before.runs[id].runKey
    && (before.runs[id].status.Active() || after.runs[id] == before.runs[id])
  }

  lemma StepKeepsRuns(sources: map<string, string>, db: Database, r: Request, fault: Fault, id: string)
    requires id in db.runs
    ensures RunKept(db, Apply(sources, db, r, fault).db, id)
    ensures Apply(sources, db, r, fault).db.runs[id] != db.runs[id] ==>
              && !r.Start? && r.run.id == id && IsActiveRun(db, r.run)
              && !Apply(sources, db, r, fault).db.runs[id].status.Active()
  {
    hide UpsertUnder;
  }

  lemma StepKeepsKeysUnique(sources: map<string, string>, db: Database, r: Request, fault: Fault)
    requires UniqueKeys(db)
    ensures UniqueKeys(Apply(sources, db, r, fault).db)
  {
    hide UpsertUnder;
    if r.Start? && r.source in sources {
      assert forall x :: x in db.runs ==> KeyTaken(db, sources[r.source], r.runKey) || !HasKey(db, x, sources[r.source], r.runKey);
    }
  }

  lemma {:induction false} UpsertedRow<C, R>(p: Projection<C, R>, table: map<string, R>, cs: seq<C>, k: string)
    requires k in UpsertAll(p, table, cs)
    ensures (k in table && UpsertAll(p, table, cs)[k] == table[k]) || exists c :: c in cs && p.row(c) == UpsertAll(p, table, cs)[k]
    decreases |cs|
  {
    if cs != [] {
      var front, last := cs[..|cs| - 1], cs[|cs| - 1];
      assert cs == front + [last];
      if k in UpsertAll(p, table, front) {
        UpsertedRow(p, table, front, k);
      }
      assert last in cs;
    }
  }

  ghost predicate Projected<R>(tables: map<string, map<string, R>>, ds: string, k: string)
  {
    ds in tables && k in tables[ds]
  }

  /** A projected row was there before, or is the stored form of one candidate of the batch. */
  lemma UnderRow<C, R>(p: Projection<C, R>, tables: map<string, map<string, R>>, dataSourceId: string, cs: seq<C>, ds: string, k: string)
    requires var after := UpsertUnder(p, tables, dataSourceId, Reduced(p, cs)); Projected(after, ds, k)
    ensures var after := UpsertUnder(p, tables, dataSourceId, Reduced(p, cs));
            || (Projected(tables, ds, k) && after[ds][k] == tables[ds][k])
            || (ds == dataSourceId && exists c :: c in cs && p.row(c) == after[ds][k])
  {
    var reduced := Reduced(p, cs);
    if ds == dataSourceId && reduced != [] {
      UpsertedRow(p, Table(tables, ds), reduced, k);
      forall c | c in reduced ensures c in cs {
        var i :| 0 <= i < |reduced| && reduced[i] == c;
      }
    }
  }

  /** A row that a step adds or replaces in a projection carries the run that the step finalizes. */
  lemma NewPriceRowsAreTheRuns(sources: map<string, string>, db: Database, r: Request, fault: Fault, ds: string, k: string)
    requires Projected(Apply(sources, db, r, fault).db.prices, ds, k)
    ensures var after := Apply(sources, db, r, fault).db;
            || (Projected(db.prices, ds, k) && after.prices[ds][k] == db.prices[ds][k])
            || (r.Finalize? && r.run.dataSourceId == ds && IsActiveRun(db, r.run) && after == Published(db, r) && after.prices[ds][k].ingestionRunId == r.run.id)
  {
    var after := Apply(sources, db, r, fault).db;
    if after.prices != db.prices {
      hide Reduced, UpsertUnder, UpsertAll, Finished;
      UnderRow(Prices(), db.prices, r.run.dataSourceId, r.prices, ds, k);
    }
  }

  lemma NewMacroRowsAreTheRuns(sources: map<string, string>, db: Database, r: Request, fault: Fault, ds: string, k: string)
    requires Projected(Apply(sources, db, r, fault).db.macros, ds, k)
    ensures var after := Apply(sources, db, r, fault).db;
            || (Projected(db.macros, ds, k) && after.macros[ds][k] == db.macros[ds][k])
            || (r.Finalize? && r.run.dataSourceId == ds && IsActiveRun(db, r.run) && after == Published(db, r) && after.macros[ds][k].ingestionRunId == r.run.id)
  {
    var after := Apply(sources, db, r, fault).db;
    if after.macros != db.macros {
      hide Reduced, UpsertUnder, UpsertAll, Finished;
      UnderRow(Macros(), db.macros, r.run.dataSourceId, r.macros, ds, k);
    }
  }

  /** With whole-microsecond times, a committed finalization leaves what upserting every candidate in turn would. */
  lemma FinalizationUpsertsEverything(db: Database, r: Request)
    requires r.Finalize? && IsActiveRun(db, r.run)
    requires forall i :: 0 <= i < |r.prices| ==> WholeMicros(r.prices[i].temporal)
    requires forall i :: 0 <= i < |r.macros| ==> WholeMicros(r.macros[i].temporal)
    ensures Published(db, r).prices == UpsertUnder(Prices(), db.prices, r.run.dataSourceId, r.prices)
    ensures Published(db, r).macros == UpsertUnder(Macros(), db.macros, r.run.dataSourceId, r.macros)
  {
    PriceCollapseRefines(Table(db.prices, r.run.dataSourceId), r.prices);
    MacroCollapseRefines(Table(db.macros, r.run.dataSourceId), r.macros);
    NonemptyReduced(Prices(), r.prices);
    NonemptyReduced(Macros(), r.macros);
    hide Reduced;
  }

  lemma NonemptyReduced<C, R>(p: Projection<C, R>, cs: seq<C>)
    ensures Reduced(p, cs) == [] <==> cs == []
  {
    if cs != [] {
      assert Winner(p, cs, p.key(cs[|cs| - 1])).Some?;
      assert p.key(cs[|cs| - 1]) in Order(p, cs);
    }
  }

  // ---------- any interleaving ----------

  datatype Step = Step(request: Request, fault: Fault)

  /** The database after the first `n` transactions of a history, in the order they committed or failed. */
  ghost function After(sources: map<string, string>, steps: seq<Step>, n: nat): Database
    requires n <= |steps|
  {
    if n == 0 then Empty()
    else Apply(sources, After(sources, steps, n - 1), steps[n - 1].request, steps[n - 1].fault).db
  }

  ghost function ReplyTo(sources: map<string, string>, steps: seq<Step>, i: nat): Option<Run>
    requires i < |steps|
  {
    Apply(sources, After(sources, steps, i), steps[i].request, steps[i].fault).reply
  }

  lemma {:induction false} KeysStayUnique(sources: map<string, string>, steps: seq<Step>, n: nat)
    requires n <= |steps|
    ensures UniqueKeys(After(sources, steps, n))
  {
    if n > 0 {
      KeysStayUnique(sources, steps, n - 1);
      hide Apply, UniqueKeys;
      StepKeepsKeysUnique(sources, After(sources, steps, n - 1), steps[n - 1].request, steps[n - 1].fault);
    }
  }

  /** Rows never disappear, and a terminal row is never altered again. */
  lemma {:induction false} RunsAreKept(sources: map<string, string>, steps: seq<Step>, i: nat, j: nat, id: string)
    requires i <= j <= |steps| && id in After(sources, steps, i).runs
    ensures RunKept(After(sources, steps, i), After(sources, steps, j), id)
    decreases j
  {
    hide Apply;
    if i < j {
      RunsAreKept(sources, steps, i, j - 1, id);
      StepKeepsRuns(sources, After(sources, steps, j - 1), steps[j - 1].request, steps[j - 1].fault, id);
    }
  }

  /** A caller of this step was told to do the work of a fresh run. */
  ghost predicate StartsWork(sources: map<string, string>, steps: seq<Step>, i: nat, source: string, runKey: string)
  {
    && i < |steps| && steps[i].request.Start? && steps[i].request.source == source && steps[i].request.runKey == runKey
    && ReplyTo(sources, steps, i).Some? && !ReplyTo(sources, steps, i).value.skip
  }

  /** Each (source, key) starts work at most once, whatever happens in between. */
  lemma StartsWorkAtMostOnce(sources: map<string, string>, steps: seq<Step>, i: nat, j: nat, source: string, runKey: string)
    requires StartsWork(sources, steps, i, source, runKey) && StartsWork(sources, steps, j, source, runKey)
    ensures i == j
  {
    if i < j {
      StartTakesKey(sources, steps, i, j, source, runKey);
    } else if j < i {
      StartTakesKey(sources, steps, j, i, source, runKey);
    }
  }

  lemma StartTakesKey(sources: map<string, string>, steps: seq<Step>, i: nat, j: nat, source: string, runKey: string)
    requires StartsWork(sources, steps, i, source, runKey) && i < j < |steps|
    ensures !StartsWork(sources, steps, j, source, runKey)
  {
    var id := steps[i].request.newId;
    var ds := sources[source];
    assert HasKey(After(sources, steps, i + 1), id, ds, runKey);
    RunsAreKept(sources, steps, i + 1, j, id);
    hide After;
    assert HasKey(After(sources, steps, j), id, ds, runKey);
  }

  /** The step that takes a run out of the active states. */
  ghost predicate Closes(sources: map<string, string>, steps: seq<Step>, i: nat, id: string)
  {
    && i < |steps| && id in After(sources, steps, i).runs && After(sources, steps, i).runs[id].status.Active()
    && id in After(sources, steps, i + 1).runs && !After(sources, steps, i + 1).runs[id].status.Active()
  }

  /** A run leaves the active states at most once. */
  lemma ClosesAtMostOnce(sources: map<string, string>, steps: seq<Step>, i: nat, j: nat, id: string)
    requires Closes(sources, steps, i, id) && Closes(sources, steps, j, id)
    ensures i == j
  {
    hide After;
    if i < j {
      RunsAreKept(sources, steps, i + 1, j, id);
    } else if j < i {
      RunsAreKept(sources, steps, j + 1, i, id);
    }
  }

  /** A run found terminal was closed by one earlier step, a finalization or a cancellation of that run. */
  lemma {:induction false} TerminalWasClosed(sources: map<string, string>, steps: seq<Step>, n: nat, id: string) returns (i: nat)
    requires n <= |steps| && id in After(sources, steps, n).runs && !After(sources, steps, n).runs[id].status.Active()
    ensures i < n && Closes(sources, steps, i, id) && !steps[i].request.Start? && steps[i].request.run.id == id
  {
    var db := After(sources, steps, n - 1);
    if id in db.runs {
      StepKeepsRuns(sources, db, steps[n - 1].request, steps[n - 1].fault, id);
      if !db.runs[id].status.Active() {
        i := TerminalWasClosed(sources, steps, n - 1, id);
      } else {
        i := n - 1;
      }
    }
  }

  /** A row of a projection belongs to a run that a finalization of the same source closed, and no cancellation did. */
  ghost predicate FinalizedOnly(sources: map<string, string>, steps: seq<Step>, n: nat, ds: string, id: string)
  {
    && (exists i :: 0 <= i < n && Closes(sources, steps, i, id) && steps[i].request.Finalize? && steps[i].request.run.dataSourceId == ds)
    && (forall j :: 0 <= j < |steps| && Closes(sources, steps, j, id) ==> !steps[j].request.Cancel?)
  }

  lemma FinalizationCloses(sources: map<string, string>, steps: seq<Step>, i: nat, ds: string)
    requires i < |steps| && steps[i].request.Finalize? && steps[i].request.run.dataSourceId == ds
    requires IsActiveRun(After(sources, steps, i), steps[i].request.run)
    requires After(sources, steps, i + 1) == Published(After(sources, steps, i), steps[i].request)
    ensures FinalizedOnly(sources, steps, i + 1, ds, steps[i].request.run.id)
  {
    var id := steps[i].request.run.id;
    assert Closes(sources, steps, i, id) by {
      hide UpsertUnder;
    }
    forall j | 0 <= j < |steps| && Closes(sources, steps, j, id) ensures !steps[j].request.Cancel? {
      ClosesAtMostOnce(sources, steps, i, j, id);
    }
  }

  lemma FinalizedLater(sources: map<string, string>, steps: seq<Step>, n: nat, ds: string, id: string)
    requires FinalizedOnly(sources, steps, n, ds, id)
    ensures FinalizedOnly(sources, steps, n + 1, ds, id)
  {
  }

  lemma {:induction false} ProjectedRowsWereFinalized(sources: map<string, string>, steps: seq<Step>, n: nat, ds: string, k: string)
    requires n <= |steps|
    ensures Projected(After(sources, steps, n).prices, ds, k) ==> FinalizedOnly(sources, steps, n, ds, After(sources, steps, n).prices[ds][k].ingestionRunId)
    ensures Projected(After(sources, steps, n).macros, ds, k) ==> FinalizedOnly(sources, steps, n, ds, After(sources, steps, n).macros[ds][k].ingestionRunId)
  {
    hide Apply, FinalizedOnly, Published;
    if n > 0 {
      ProjectedRowsWereFinalized(sources, steps, n - 1, ds, k);
      var before, after, r := After(sources, steps, n - 1), After(sources, steps, n), steps[n - 1].request;
      if Projected(after.prices, ds, k) {
        NewPriceRowsAreTheRuns(sources, before, r, steps[n - 1].fault, ds, k);
        if Projected(before.prices, ds, k) && after.prices[ds][k] == before.prices[ds][k] {
          FinalizedLater(sources, steps, n - 1, ds, after.prices[ds][k].ingestionRunId);
        } else {
          FinalizationCloses(sources, steps, n - 1, ds);
        }
      }
      if Projected(after.macros, ds, k) {
        NewMacroRowsAreTheRuns(sources, before, r, steps[n - 1].fault, ds, k);
        if Projected(before.macros, ds, k) && after.macros[ds][k] == before.macros[ds][k] {
          FinalizedLater(sources, steps, n - 1, ds, after.macros[ds][k].ingestionRunId);
        } else {
          FinalizationCloses(sources, steps, n - 1, ds);
        }
      }
    }
  }

  // ---------- ranks only rise ----------

  ghost predicate NoLower<C, R>(p: Projection<C, R>, before: map<string, map<string, R>>, after: map<string, map<string, R>>, ds: string, k: string)
    requires Projected(before, ds, k)
  {
    Projected(after, ds, k) && (after[ds][k] == before[ds][k] || p.beats(after[ds][k], before[ds][k]))
  }

  lemma UnderNoLower<C, R(!new)>(p: Projection<C, R>, tables: map<string, map<string, R>>, dataSourceId: string, cs: seq<C>, ds: string, k: string)
    requires Lawful(p) && Projected(tables, ds, k)
    ensures NoLower(p, tables, UpsertUnder(p, tables, dataSourceId, cs), ds, k)
  {
    if ds == dataSourceId {
      RankOnlyRises(p, Table(tables, ds), cs, k);
    }
  }

  lemma BeatsTransitive<C, R(!new)>(p: Projection<C, R>, x: R, y: R, z: R)
    requires Lawful(p) && p.beats(x, y) && p.beats(y, z)
    ensures p.beats(x, z)
  {
    assert Sorting.Compared(x, z, y) && Sorting.Compared(y, x, z) && Sorting.Compared(y, z, x);
  }

  /** Between any two points of a history a projected row is kept or replaced by one of higher rank. */
  lemma {:induction false} ProjectionsOnlyRise(sources: map<string, string>, steps: seq<Step>, i: nat, j: nat, ds: string, k: string)
    requires i <= j <= |steps|
    ensures Projected(After(sources, steps, i).prices, ds, k) ==> NoLower(Prices(), After(sources, steps, i).prices, After(sources, steps, j).prices, ds, k)
    ensures Projected(After(sources, steps, i).macros, ds, k) ==> NoLower(Macros(), After(sources, steps, i).macros, After(sources, steps, j).macros, ds, k)
    decreases j
  {
    if i < j {
      ProjectionsOnlyRise(sources, steps, i, j - 1, ds, k);
      ProjectionsAreLawful();
      var first, before, after := After(sources, steps, i), After(sources, steps, j - 1), After(sources, steps, j);
      var r := steps[j - 1].request;
      StepNoLower(sources, before, r, steps[j - 1].fault, ds, k);
      hide Apply, Prices, Macros, After;
      if Projected(first.prices, ds, k) {
        NoLowerTransitive(Prices(), first.prices, before.prices, after.prices, ds, k);
      }
      if Projected(first.macros, ds, k) {
        NoLowerTransitive(Macros(), first.macros, before.macros, after.macros, ds, k);
      }
    }
  }

  lemma StepNoLower(sources: map<string, string>, db: Database, r: Request, fault: Fault, ds: string, k: string)
    ensures Projected(db.prices, ds, k) ==> NoLower(Prices(), db.prices, Apply(sources, db, r, fault).db.prices, ds, k)
    ensures Projected(db.macros, ds, k) ==> NoLower(Macros(), db.macros, Apply(sources, db, r, fault).db.macros, ds, k)
  {
    hide Prices, Macros, UpsertUnder, Reduced, Finished;
    if r.Finalize? {
      ProjectionsAreLawful();
      if Projected(db.prices, ds, k) {
        UnderNoLower(Prices(), db.prices, r.run.dataSourceId, Reduced(Prices(), r.prices), ds, k);
      }
      if Projected(db.macros, ds, k) {
        UnderNoLower(Macros(), db.macros, r.run.dataSourceId, Reduced(Macros(), r.macros), ds, k);
      }
    }
  }

  lemma NoLowerTransitive<C, R(!new)>(p: Projection<C, R>, x: map<string, map<string, R>>, y: map<string, map<string, R>>, z: map<string, map<string, R>>, ds: string, k: string)
    requires Lawful(p) && Projected(x, ds, k) && NoLower(p, x, y, ds, k) && NoLower(p, y, z, ds, k)
    ensures NoLower(p, x, z, ds, k)
  {
    if p.beats(z[ds][k], y[ds][k]) && p.beats(y[ds][k], x[ds][k]) {
      BeatsTransitive(p, z[ds][k], y[ds][k], x[ds][k]);
    }
  }
}
