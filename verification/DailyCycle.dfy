/**
 The resumable daily cycle: a dependency-ordered plan whose progress is one report
 file, replaced after every change. An invocation may be cut at any of its writes;
 the next one resumes from whatever the file says.
 */
module DailyCycle {
  import opened Wrappers
  import opened Text

  // ---------- the plan ----------

  datatype PaperEntry = PaperEntry(accountId: string, spec: string)

  datatype CycleSpec = CycleSpec(
    source: string, runKey: string, sessionDate: string, decisionAt: string, ledgerRoot: string, backupDir: string, logDir: string,
    universe: string, schedule: string, calendarPin: string, registry: string, taxonomyRegistry: string,
    securityMappings: Option<string>, featureSet: string, featureSetVersion: string, paper: seq<PaperEntry>)

  datatype Stage = Stage(name: string, command: seq<string>, dependencies: seq<string>)

  /** What the spec validation leaves of the accounts: canonical UUID texts, no duplicates. */
  predicate ValidAccounts(spec: CycleSpec)
  {
    && (forall i :: 0 <= i < |spec.paper| ==> |spec.paper[i].accountId| == 36)
    && (forall i, j :: 0 <= i < j < |spec.paper| ==> spec.paper[i].accountId != spec.paper[j].accountId)
  }

  function HeadStages(spec: CycleSpec): (r: seq<Stage>)
    ensures |r| == 4
  {
    [
      Stage("preflight", ["make", "release-validate"], []),
      Stage("collection", ["make", "ingest", "SOURCE=" + spec.source, "RUN_KEY=" + spec.runKey], ["preflight"]),
      Stage("reconcile-before-derived", ["make", "reconcile"], ["collection"]),
      Stage("feature-batch",
            ["make", "feature-batch", "BATCH_UNIVERSE=" + spec.universe, "BATCH_SCHEDULE=" + spec.schedule, "CALENDAR_PIN=" + spec.calendarPin,
             "FEATURE_REGISTRY=" + spec.registry, "TAXONOMY_REGISTRY=" + spec.taxonomyRegistry, "FEATURE_SET=" + spec.featureSet,
             "FEATURE_SET_VERSION=" + spec.featureSetVersion]
            + (if spec.securityMappings.Some? then ["SECURITY_MAPPINGS=" + spec.securityMappings.value] else []),
            ["reconcile-before-derived"])
    ]
  }

  function PaperStages(spec: CycleSpec, entry: PaperEntry): (r: seq<Stage>)
    ensures |r| == 4
  {
    var prefix, ledger := "paper:" + entry.accountId, "/data/" + spec.ledgerRoot;
    [
      Stage(prefix + ":validate-inputs",
            ["make", "paper-validate-inputs", "PAPER_SPEC=" + entry.spec, "PAPER_DATA_ROOT=/data", "PAPER_SESSION_DATE=" + spec.sessionDate, "PAPER_DECISION_AT=" + spec.decisionAt],
            ["feature-batch"]),
      Stage(prefix + ":create", ["make", "paper-create-account", "PAPER_SPEC=" + entry.spec, "PAPER_LEDGER_ROOT=" + ledger], [prefix + ":validate-inputs"]),
      Stage(prefix + ":run",
            ["make", "paper-run", "PAPER_SPEC=" + entry.spec, "PAPER_LEDGER_ROOT=" + ledger, "PAPER_SESSION_DATE=" + spec.sessionDate, "PAPER_DECISION_AT=" + spec.decisionAt],
            [prefix + ":create"]),
      Stage(prefix + ":reconcile", ["make", "paper-reconcile", "PAPER_ACCOUNT_ID=" + entry.accountId, "PAPER_LEDGER_ROOT=" + ledger], [prefix + ":run"])
    ]
  }

  function TailStages(spec: CycleSpec): (r: seq<Stage>)
    ensures |r| == 3
  {
    [
      Stage("backup", ["make", "backup-or-validate", "BACKUP_DIR=" + spec.backupDir], ["preflight"]),
      Stage("reconcile-after-derived", ["make", "reconcile"], ["reconcile-before-derived"]),
      Stage("observe", ["make", "ops-status"], [])
    ]
  }

  function PaperPlan(spec: CycleSpec, n: nat): (r: seq<Stage>)
    requires n <= |spec.paper|
    ensures |r| == 4 * n
  {
    if n == 0 then [] else PaperPlan(spec, n - 1) + PaperStages(spec, spec.paper[n - 1])
  }

  function Plan(spec: CycleSpec): seq<Stage>
  {
    HeadStages(spec) + PaperPlan(spec, |spec.paper|) + TailStages(spec)
  }

  method BuildPlan(spec: CycleSpec) returns (stages: seq<Stage>)
    ensures stages == Plan(spec)
  {
    stages := HeadStages(spec);
    for n := 0 to |spec.paper|
      invariant stages == HeadStages(spec) + PaperPlan(spec, n)
    {
      stages := stages + PaperStages(spec, spec.paper[n]);
    }
    stages := stages + TailStages(spec);
  }

  lemma {:induction false} PaperAt(spec: CycleSpec, n: nat, k: nat, j: nat)
    requires k < n <= |spec.paper| && j < 4
    ensures 4 * k + j < |PaperPlan(spec, n)| && PaperPlan(spec, n)[4 * k + j] == PaperStages(spec, spec.paper[k])[j]
    decreases n
  {
    if k < n - 1 {
      PaperAt(spec, n - 1, k, j);
    }
  }

  predicate UniqueNames(plan: seq<Stage>)
  {
    forall i, j :: 0 <= i < j < |plan| ==> plan[i].name != plan[j].name
  }

  /** Every dependency names an earlier stage. */
  predicate Ordered(plan: seq<Stage>)
  {
    forall i :: 0 <= i < |plan| ==> forall d :: d in plan[i].dependencies ==> exists j :: 0 <= j < i && plan[j].name == d
  }

  /** The lengths of the names tell the kinds of stages apart. */
  lemma NameShape(spec: CycleSpec, i: nat)
    requires ValidAccounts(spec) && i < |Plan(spec)|
    ensures i < 4 || i >= 4 + 4 * |spec.paper| ==> |Plan(spec)[i].name| < 25
    ensures 4 <= i < 4 + 4 * |spec.paper| ==>
              && |Plan(spec)[i].name| == [58, 49, 46, 52][(i - 4) % 4]
              && Plan(spec)[i].name[6..42] == spec.paper[(i - 4) / 4].accountId
  {
    if 4 <= i < 4 + 4 * |spec.paper| {
      var k, j := (i - 4) / 4, (i - 4) % 4;
      PaperAt(spec, |spec.paper|, k, j);
      var prefix := "paper:" + spec.paper[k].accountId;
      assert prefix[6..42] == spec.paper[k].accountId;
      assert Plan(spec)[i].name[..42] == prefix;
      assert Plan(spec)[i].name[6..42] == Plan(spec)[i].name[..42][6..42];
    }
  }

  lemma PlanNamesUnique(spec: CycleSpec)
    requires ValidAccounts(spec)
    ensures UniqueNames(Plan(spec))
  {
    var plan := Plan(spec);
    forall i, j | 0 <= i < j < |plan| ensures plan[i].name != plan[j].name {
      NameShape(spec, i);
      NameShape(spec, j);
      SameKindDiffers(spec, i, j);
      FixedNames(spec);
      hide Plan;
    }
  }

  lemma FixedNames(spec: CycleSpec)
    ensures var n := 4 + 4 * |spec.paper|;
            && (forall i :: 0 <= i < 4 ==> |Plan(spec)[i].name| == [9, 10, 24, 13][i])
            && (forall i :: 0 <= i < 3 ==> |Plan(spec)[n + i].name| == [6, 23, 7][i])
            && |Plan(spec)| == n + 3
  {
  }

  lemma SameKindDiffers(spec: CycleSpec, i: nat, j: nat)
    requires ValidAccounts(spec) && i < j
    ensures 4 <= i && j < 4 + 4 * |spec.paper| && (i - 4) % 4 == (j - 4) % 4 ==>
              spec.paper[(i - 4) / 4].accountId != spec.paper[(j - 4) / 4].accountId
  {
    if 4 <= i && j < 4 + 4 * |spec.paper| && (i - 4) % 4 == (j - 4) % 4 {
      assert 0 <= (i - 4) / 4 < (j - 4) / 4 < |spec.paper|;
    }
  }

  lemma PlanOrdered(spec: CycleSpec)
    ensures Ordered(Plan(spec))
  {
    var plan, n := Plan(spec), 4 + 4 * |spec.paper|;
    assert plan[0].name == "preflight" && plan[1].name == "collection" && plan[2].name == "reconcile-before-derived" && plan[3].name == "feature-batch";
    forall i, d | 0 <= i < |plan| && d in plan[i].dependencies ensures exists j :: 0 <= j < i && plan[j].name == d {
      if 4 <= i < n {
        PaperDependency(spec, i, d);
      } else if i >= n {
        assert plan[i] == TailStages(spec)[i - n];
      }
    }
  }

  lemma PaperDependency(spec: CycleSpec, i: nat, d: string)
    requires 4 <= i < 4 + 4 * |spec.paper| && d in Plan(spec)[i].dependencies
    ensures exists j :: 0 <= j < i && Plan(spec)[j].name == d
  {
    var k, j := (i - 4) / 4, (i - 4) % 4;
    PaperAt(spec, |spec.paper|, k, j);
    if j > 0 {
      PaperAt(spec, |spec.paper|, k, j - 1);
      assert Plan(spec)[i - 1].name == d;
    } else {
      assert Plan(spec)[3].name == d;
    }
  }

  // ---------- the report ----------

  datatype Status = Pending | Running | Passed | Failed | Skipped | Resumed
  {
    predicate Done() { Passed? || Resumed? }
  }

  datatype Entry = Entry(name: string, command: seq<string>, logPath: string, status: Status, exitCode: Option<int>)

  datatype CycleStatus = CycleRunning | CyclePassed | CycleAttention

  /** `identity` is the cycle, session, decision time and specification hash together. */
  datatype Report = Report(identity: string, status: CycleStatus, stages: seq<Entry>)

  /** What a cycle is run from. */
  datatype Cycle = Cycle(identity: string, plan: seq<Stage>, logPaths: seq<string>)
  {
    predicate Valid() { |logPaths| == |plan| && UniqueNames(plan) && Ordered(plan) }
  }

  function Initial(c: Cycle): Report
    requires c.Valid()
  {
    Report(c.identity, CycleRunning, seq(|c.plan|, i requires 0 <= i < |c.plan| => Entry(c.plan[i].name, c.plan[i].command, c.logPaths[i], Pending, None)))
  }

  predicate Matches(c: Cycle, i: nat, e: Entry)
    requires c.Valid() && i < |c.plan|
  {
    e.name == c.plan[i].name && e.command == c.plan[i].command && e.logPath == c.logPaths[i]
  }

  predicate CodeFits(e: Entry)
  {
    && (e.status.Done() ==> e.exitCode == Some(0))
    && (e.status.Failed? ==> e.exitCode.Some? && e.exitCode != Some(0))
    && (e.status.Pending? || e.status.Running? || e.status.Skipped? ==> e.exitCode.None?)
  }

  predicate Describes(c: Cycle, r: Report)
    requires c.Valid()
  {
    && r.identity == c.identity
    && |r.stages| == |c.plan|
    && (forall i :: 0 <= i < |c.plan| ==> Matches(c, i, r.stages[i]))
  }

  /** The loader's verdict on an existing file. */
  predicate Loadable(c: Cycle, r: Report)
    requires c.Valid()
  {
    Describes(c, r) && forall i :: 0 <= i < |r.stages| ==> CodeFits(r.stages[i])
  }

  // ---------- one invocation ----------

  datatype Outcome = Completed | Stopped | Rejected

  /** `cut` is the stage whose command was started but whose result was never written. */
  datatype Progress = Progress(report: Report, disk: Option<Report>, writes: nat, ran: seq<nat>, stopped: bool, cut: Option<nat>)

  datatype Result = Result(disk: Option<Report>, ran: seq<nat>, outcome: Outcome, cut: Option<nat>)

  /** Replaces the report file, unless the process is interrupted before it can. */
  function Write(p: Progress): Progress
  {
    if p.writes == 0 then p.(stopped := true) else p.(disk := Some(p.report), writes := p.writes - 1)
  }

  function SetEntry(p: Progress, i: nat, e: Entry): Progress
    requires i < |p.report.stages|
  {
    p.(report := p.report.(stages := p.report.stages[i := e]))
  }

  predicate DependenciesDone(c: Cycle, stages: seq<Entry>, i: nat)
    requires |stages| == |c.plan| && i < |c.plan|
  {
    forall d :: d in c.plan[i].dependencies ==> exists j :: 0 <= j < |c.plan| && c.plan[j].name == d && stages[j].status.Done()
  }

  function Finished(e: Entry, code: int): Entry
  {
    e.(status := if code == 0 then Passed else Failed, exitCode := Some(code))
  }

  /** One turn of the loop: resume, skip, or run stage `i`. */
  function Process(c: Cycle, p: Progress, i: nat, codes: seq<int>): (r: Progress)
    requires |p.report.stages| == |c.plan| == |codes| && i < |c.plan|
    ensures |r.report.stages| == |c.plan|
  {
    var entry := p.report.stages[i];
    if p.stopped then p
    else if entry.status.Done() then SetEntry(p, i, entry.(status := Resumed))
    else if !DependenciesDone(c, p.report.stages, i) then Write(SetEntry(p, i, entry.(status := Skipped, exitCode := None)))
    else
      var started := Write(SetEntry(p, i, entry.(status := Running)));
      if started.stopped then started
      else
        var ended := Write(SetEntry(started.(ran := started.ran + [i]), i, Finished(entry, codes[i])));
        if ended.stopped then ended.(cut := Some(i)) else ended
  }

  function ProcessAll(c: Cycle, p: Progress, n: nat, codes: seq<int>): (r: Progress)
    requires |p.report.stages| == |c.plan| == |codes| && n <= |c.plan|
    ensures |r.report.stages| == |c.plan|
  {
    if n == 0 then p else Process(c, ProcessAll(c, p, n - 1, codes), n - 1, codes)
  }

  predicate AllDone(stages: seq<Entry>) { forall i :: 0 <= i < |stages| ==> stages[i].status.Done() }

  function Concluded(r: Report): Report
  {
    r.(status := if AllDone(r.stages) then CyclePassed else CycleAttention)
  }

  function Opened(c: Cycle, disk: Option<Report>, writes: nat): (p: Progress)
    requires c.Valid() && (disk.Some? ==> Loadable(c, disk.value))
    ensures |p.report.stages| == |c.plan|
  {
    if disk.Some? then Progress(disk.value, disk, writes, [], false, None)
    else Write(Progress(Initial(c), None, writes, [], false, None))
  }

  /** One invocation that may perform `writes` report writes before it is interrupted. */
  function Invocation(c: Cycle, disk: Option<Report>, codes: seq<int>, writes: nat): Result
    requires c.Valid() && |codes| == |c.plan|
  {
    if disk.Some? && !Loadable(c, disk.value) then Result(disk, [], Rejected, None)
    else
      var p := ProcessAll(c, Opened(c, disk, writes), |c.plan|, codes);
      var last := if p.stopped then p else Write(p.(report := Concluded(p.report)));
      Result(last.disk, last.ran, if last.stopped then Stopped else Completed, last.cut)
  }

  /** The report file and the process that works on it; the lock admits one process at a time. */
  class Runner {
    const cycle: Cycle
    var disk: Option<Report>

    constructor (cycle: Cycle)
      ensures this.cycle == cycle && disk == None
    {
      this.cycle := cycle;
      disk := None;
    }

    method WriteReport(p: Progress) returns (after: Progress)
      requires p.disk == disk
      modifies this
      ensures after == Write(p) && disk == after.disk
    {
      if p.writes == 0 {
        return p.(stopped := true);
      }
      disk := Some(p.report);
      return p.(disk := Some(p.report), writes := p.writes - 1);
    }

    /** Marks the stage running, runs it, and records its exit code. */
    method Execute(p: Progress, i: nat, codes: seq<int>) returns (after: Progress)
      requires |p.report.stages| == |cycle.plan| == |codes| && i < |cycle.plan| && !p.stopped && p.disk == disk
      requires !p.report.stages[i].status.Done() && DependenciesDone(cycle, p.report.stages, i)
      modifies this
      ensures after == Process(cycle, p, i, codes) && disk == after.disk
    {
      hide DependenciesDone;
      var entry := p.report.stages[i];
      after := WriteReport(SetEntry(p, i, entry.(status := Running)));
      if after.stopped {
        return;
      }
      after := WriteReport(SetEntry(after.(ran := after.ran + [i]), i, Finished(entry, codes[i])));
      if after.stopped {
        after := after.(cut := Some(i));
      }
    }

    method RunStage(p: Progress, i: nat, codes: seq<int>, statusByName: map<string, Status>) returns (after: Progress)
      requires cycle.Valid() && |p.report.stages| == |cycle.plan| == |codes| && i < |cycle.plan| && !p.stopped && p.disk == disk
      requires ByName(cycle, p.report.stages, statusByName)
      modifies this
      ensures after == Process(cycle, p, i, codes) && disk == after.disk
    {
      DependenciesByName(cycle, p.report.stages, statusByName, i);
      hide ByName, DependenciesDone;
      var stage, entry := cycle.plan[i], p.report.stages[i];
      if entry.status.Done() {
        return SetEntry(p, i, entry.(status := Resumed));
      }
      if exists d :: d in stage.dependencies && !(d in statusByName && statusByName[d].Done()) {
        after := WriteReport(SetEntry(p, i, entry.(status := Skipped, exitCode := None)));
        return;
      }
      after := Execute(p, i, codes);
    }

    method OpenReport(writes: nat) returns (p: Progress)
      requires cycle.Valid() && (disk.Some? ==> Loadable(cycle, disk.value))
      modifies this
      ensures p == Opened(cycle, old(disk), writes) && disk == p.disk
    {
      if disk.Some? {
        return Progress(disk.value, disk, writes, [], false, None);
      }
      p := WriteReport(Progress(Initial(cycle), None, writes, [], false, None));
    }

    method RunStages(start: Progress, codes: seq<int>) returns (p: Progress)
      requires cycle.Valid() && |start.report.stages| == |cycle.plan| == |codes| && start.disk == disk
      modifies this
      ensures p == ProcessAll(cycle, start, |cycle.plan|, codes) && disk == p.disk
    {
      p := start;
      var statusByName := StatusByName(cycle, p.report.stages);
      hide ByName, Process, StatusByName;
      for n := 0 to |cycle.plan|
        invariant p == ProcessAll(cycle, start, n, codes) && disk == p.disk
        invariant !p.stopped ==> ByName(cycle, p.report.stages, statusByName)
      {
        StoppedStays(cycle, p, n, codes);
        if !p.stopped {
          TurnByName(cycle, p, n, codes, statusByName);
          p := RunStage(p, n, codes, statusByName);
          statusByName := statusByName[cycle.plan[n].name := p.report.stages[n].status];
        }
      }
    }

    method RunCycle(codes: seq<int>, writes: nat) returns (r: Result)
      requires cycle.Valid() && |codes| == |cycle.plan|
      modifies this
      ensures r == Invocation(cycle, old(disk), codes, writes) && disk == r.disk
    {
      if disk.Some? && !Loadable(cycle, disk.value) {
        return Result(disk, [], Rejected, None);
      }
      hide Loadable, Opened, ProcessAll;
      var p := OpenReport(writes);
      p := RunStages(p, codes);
      if !p.stopped {
        p := WriteReport(p.(report := Concluded(p.report)));
      }
      return Result(p.disk, p.ran, if p.stopped then Stopped else Completed, p.cut);
    }
  }

  lemma StoppedStays(c: Cycle, p: Progress, i: nat, codes: seq<int>)
    requires |p.report.stages| == |c.plan| == |codes| && i < |c.plan|
    ensures p.stopped ==> Process(c, p, i, codes) == p
  {
  }

  function StatusByName(c: Cycle, stages: seq<Entry>): (r: map<string, Status>)
    requires c.Valid() && |stages| == |c.plan|
    ensures ByName(c, stages, r)
  {
    map i | 0 <= i < |c.plan| :: c.plan[i].name := stages[i].status
  }

  predicate ByName(c: Cycle, stages: seq<Entry>, statusByName: map<string, Status>)
    requires |stages| == |c.plan|
  {
    && (forall i :: 0 <= i < |c.plan| ==> c.plan[i].name in statusByName && statusByName[c.plan[i].name] == stages[i].status)
    && (forall d :: d in statusByName ==> exists i :: 0 <= i < |c.plan| && c.plan[i].name == d)
  }

  lemma TurnByName(c: Cycle, p: Progress, i: nat, codes: seq<int>, statusByName: map<string, Status>)
    requires c.Valid() && |p.report.stages| == |c.plan| == |codes| && i < |c.plan| && ByName(c, p.report.stages, statusByName)
    ensures var after := Process(c, p, i, codes);
            !after.stopped ==> ByName(c, after.report.stages, statusByName[c.plan[i].name := after.report.stages[i].status])
  {
    if !Process(c, p, i, codes).stopped {
      TurnChangesOneEntry(c, p, i, codes);
    }
  }

  lemma DependenciesByName(c: Cycle, stages: seq<Entry>, statusByName: map<string, Status>, i: nat)
    requires |stages| == |c.plan| && i < |c.plan| && ByName(c, stages, statusByName)
    ensures DependenciesDone(c, stages, i) <==> forall d :: d in c.plan[i].dependencies ==> d in statusByName && statusByName[d].Done()
  {
  }

  // ---------- what one invocation does to every entry ----------

  /** An entry after its turn. */
  predicate Settled(s: Entry, e: Entry, code: int, started: bool)
  {
    if s.status.Done() then !started && e == s.(status := Resumed)
    else if started then e == Finished(s, code)
    else e == s.(status := Skipped, exitCode := None)
  }

  /** An entry on disk: as found, settled, or still marked running because the process was cut. */
  predicate OnDisk(s: Entry, e: Entry, code: int, started: bool, cut: bool)
  {
    || (!started && e == s)
    || Settled(s, e, code, started)
    || (started && cut && !s.status.Done() && e == s.(status := Running))
  }

  predicate DependenciesMet(c: Cycle, start: seq<Entry>, codes: seq<int>, ran: seq<nat>, i: nat)
    requires |start| == |c.plan| == |codes| && i < |c.plan|
  {
    forall d :: d in c.plan[i].dependencies ==>
      exists j :: 0 <= j < i && c.plan[j].name == d && (start[j].status.Done() || (j in ran && codes[j] == 0))
  }

  /** A recorded success rests on recorded successes. */
  predicate DoneClosed(c: Cycle, stages: seq<Entry>)
    requires |stages| == |c.plan|
  {
    forall i :: 0 <= i < |c.plan| && stages[i].status.Done() ==> DependenciesDone(c, stages, i)
  }

  ghost predicate TracksDisk(c: Cycle, start: seq<Entry>, codes: seq<int>, p: Progress)
    requires |start| == |c.plan| == |codes|
  {
    p.disk.Some? ==>
      && p.disk.value.identity == c.identity
      && |p.disk.value.stages| == |c.plan|
      && DoneClosed(c, p.disk.value.stages)
      && (forall j :: 0 <= j < |c.plan| ==> OnDisk(start[j], p.disk.value.stages[j], codes[j], j in p.ran, p.cut == Some(j)))
  }

  ghost predicate TracksReport(c: Cycle, start: seq<Entry>, codes: seq<int>, p: Progress, n: nat)
    requires |start| == |c.plan| == |codes| && |p.report.stages| == |c.plan|
  {
    !p.stopped ==>
      && p.cut.None? && p.disk.Some?
      && p.report.identity == c.identity
      && DoneClosed(c, p.report.stages)
      && (forall j :: 0 <= j < |c.plan| && j < n ==> Settled(start[j], p.report.stages[j], codes[j], j in p.ran))
      && (forall j :: n <= j < |c.plan| ==> p.report.stages[j] == start[j])
  }

  ghost predicate TracksRuns(c: Cycle, start: seq<Entry>, codes: seq<int>, p: Progress, n: nat)
    requires |start| == |c.plan| == |codes|
  {
    && (forall j :: j in p.ran ==> j < n && j < |c.plan| && !start[j].status.Done() && DependenciesMet(c, start, codes, p.ran, j))
    && (p.cut.Some? ==>
          && p.cut.value < |c.plan| && p.cut.value in p.ran && p.disk.Some? && |p.disk.value.stages| == |c.plan|
          && p.disk.value.stages[p.cut.value] == start[p.cut.value].(status := Running))
  }

  ghost predicate Tracks(c: Cycle, start: seq<Entry>, codes: seq<int>, p: Progress, n: nat)
    requires |start| == |c.plan| == |codes| && |p.report.stages| == |c.plan|
  {
    TracksDisk(c, start, codes, p) && TracksReport(c, start, codes, p, n) && TracksRuns(c, start, codes, p, n)
  }

  /** Changing one unfinished entry keeps the closure, also to a success when its dependencies are done. */
  lemma ChangeKeepsClosed(c: Cycle, stages: seq<Entry>, i: nat, e: Entry)
    requires |stages| == |c.plan| && i < |c.plan| && DoneClosed(c, stages)
    requires e.status.Done() ==> stages[i].status.Done() || DependenciesDone(c, stages, i)
    requires stages[i].status.Done() ==> e.status.Done()
    ensures DoneClosed(c, stages[i := e])
  {
    var after := stages[i := e];
    forall k | 0 <= k < |c.plan| && after[k].status.Done() ensures DependenciesDone(c, after, k) {
      assert DependenciesDone(c, stages, k);
      forall d | d in c.plan[k].dependencies ensures exists j :: 0 <= j < |c.plan| && c.plan[j].name == d && after[j].status.Done() {
        var j :| 0 <= j < |c.plan| && c.plan[j].name == d && stages[j].status.Done();
        assert after[j].status.Done();
      }
    }
  }

  /** Dependencies done in the running report were done at the start or succeeded just now. */
  lemma DoneMeansMet(c: Cycle, start: seq<Entry>, codes: seq<int>, p: Progress, i: nat)
    requires c.Valid() && |start| == |c.plan| == |codes| && |p.report.stages| == |c.plan| && i < |c.plan|
    requires !p.stopped && TracksReport(c, start, codes, p, i) && DependenciesDone(c, p.report.stages, i)
    ensures DependenciesMet(c, start, codes, p.ran, i)
  {
    hide DoneClosed;
    forall d | d in c.plan[i].dependencies
      ensures exists j :: 0 <= j < i && c.plan[j].name == d && (start[j].status.Done() || (j in p.ran && codes[j] == 0))
    {
      var k :| 0 <= k < |c.plan| && c.plan[k].name == d && p.report.stages[k].status.Done();
      var j :| 0 <= j < i && c.plan[j].name == d;
      assert j == k;
      assert Settled(start[j], p.report.stages[j], codes[j], j in p.ran);
    }
  }

  lemma MoreRunsStillMet(c: Cycle, start: seq<Entry>, codes: seq<int>, ran: seq<nat>, more: seq<nat>, i: nat)
    requires |start| == |c.plan| == |codes| && i < |c.plan| && DependenciesMet(c, start, codes, ran, i)
    requires forall j :: j in ran ==> j in more
    ensures DependenciesMet(c, start, codes, more, i)
  {
    forall d | d in c.plan[i].dependencies
      ensures exists j :: 0 <= j < i && c.plan[j].name == d && (start[j].status.Done() || (j in more && codes[j] == 0))
    {
      var j :| 0 <= j < i && c.plan[j].name == d && (start[j].status.Done() || (j in ran && codes[j] == 0));
    }
  }

  /** The resumed and skipped turns. */
  lemma QuietTurn(c: Cycle, start: seq<Entry>, codes: seq<int>, p: Progress, i: nat)
    requires c.Valid() && |start| == |c.plan| == |codes| && |p.report.stages| == |c.plan| && i < |c.plan|
    requires Tracks(c, start, codes, p, i) && !p.stopped
    requires p.report.stages[i].status.Done() || !DependenciesDone(c, p.report.stages, i)
    ensures Tracks(c, start, codes, Process(c, p, i, codes), i + 1)
  {
    var entry := p.report.stages[i];
    assert i !in p.ran && entry == start[i];
    var e := if entry.status.Done() then entry.(status := Resumed) else entry.(status := Skipped, exitCode := None);
    ChangeKeepsClosed(c, p.report.stages, i, e);
    hide DoneClosed, DependenciesDone, DependenciesMet;
    assert Settled(start[i], e, codes[i], false);
  }

  /** The turn that runs the command, cut or not. */
  lemma RunningTurn(c: Cycle, start: seq<Entry>, codes: seq<int>, p: Progress, i: nat)
    requires c.Valid() && |start| == |c.plan| == |codes| && |p.report.stages| == |c.plan| && i < |c.plan|
    requires Tracks(c, start, codes, p, i) && !p.stopped
    requires !p.report.stages[i].status.Done() && DependenciesDone(c, p.report.stages, i)
    ensures Tracks(c, start, codes, Process(c, p, i, codes), i + 1)
  {
    var entry, ran := p.report.stages[i], p.ran + [i];
    DoneMeansMet(c, start, codes, p, i);
    forall j | j in ran ensures DependenciesMet(c, start, codes, ran, j) {
      MoreRunsStillMet(c, start, codes, p.ran, ran, j);
    }
    assert i !in p.ran && entry == start[i];
    ChangeKeepsClosed(c, p.report.stages, i, entry.(status := Running));
    ChangeKeepsClosed(c, p.report.stages, i, Finished(entry, codes[i]));
    var marked := p.report.stages[i := entry.(status := Running)];
    assert marked[i := Finished(entry, codes[i])] == p.report.stages[i := Finished(entry, codes[i])];
    hide DoneClosed, DependenciesDone, DependenciesMet;
    assert Settled(start[i], Finished(entry, codes[i]), codes[i], true);
    assert forall j :: 0 <= j < |c.plan| && j != i ==> (j in ran <==> j in p.ran);
    if p.writes > 0 {
      RunningTurnWritten(c, start, codes, p, i, marked);
    }
  }

  lemma RunningTurnWritten(c: Cycle, start: seq<Entry>, codes: seq<int>, p: Progress, i: nat, marked: seq<Entry>)
    requires |start| == |c.plan| == |codes| && |p.report.stages| == |c.plan| && i < |c.plan|
    requires TracksReport(c, start, codes, p, i) && !p.stopped && i !in p.ran && !start[i].status.Done() && p.report.stages[i] == start[i]
    requires marked == p.report.stages[i := start[i].(status := Running)]
    requires forall j :: j in p.ran ==> j < i
    ensures forall j :: 0 <= j < |c.plan| ==> OnDisk(start[j], marked[j], codes[j], j in p.ran + [i], j == i)
    ensures forall j :: 0 <= j < |c.plan| ==> OnDisk(start[j], marked[i := Finished(start[i], codes[i])][j], codes[j], j in p.ran + [i], false)
  {
    hide DoneClosed;
  }

  lemma {:induction false} ProcessingTracks(c: Cycle, start: seq<Entry>, codes: seq<int>, p: Progress, n: nat)
    requires c.Valid() && |start| == |c.plan| == |codes| && |p.report.stages| == |c.plan| && n <= |c.plan|
    requires Tracks(c, start, codes, p, 0)
    ensures Tracks(c, start, codes, ProcessAll(c, p, n, codes), n)
  {
    hide Process, DoneClosed, DependenciesDone, DependenciesMet, Settled, OnDisk;
    if n > 0 {
      ProcessingTracks(c, start, codes, p, n - 1);
      var before := ProcessAll(c, p, n - 1, codes);
      if before.stopped {
        StoppedStays(c, before, n - 1, codes);
      } else if before.report.stages[n - 1].status.Done() || !DependenciesDone(c, before.report.stages, n - 1) {
        QuietTurn(c, start, codes, before, n - 1);
      } else {
        RunningTurn(c, start, codes, before, n - 1);
      }
    }
  }

  /** Where an invocation starts from. */
  function StartOf(c: Cycle, disk: Option<Report>): Report
    requires c.Valid()
  {
    if disk.Some? then disk.value else Initial(c)
  }

  /** A report file some history of invocations may have left, and that the loader takes. */
  ghost predicate Resumable(c: Cycle, disk: Option<Report>)
    requires c.Valid()
  {
    disk.Some? ==> Loadable(c, disk.value) && DoneClosed(c, disk.value.stages)
  }

  ghost predicate Effect(c: Cycle, start: seq<Entry>, codes: seq<int>, r: Result)
    requires |start| == |c.plan| == |codes|
  {
    var p := Progress(Report("", CycleRunning, []), r.disk, 0, r.ran, true, r.cut);
    && TracksDisk(c, start, codes, p)
    && TracksRuns(c, start, codes, p, |c.plan|)
    && (r.outcome.Completed? ==>
          && r.cut.None? && r.disk.Some? && |r.disk.value.stages| == |c.plan|
          && (forall j :: 0 <= j < |c.plan| ==> Settled(start[j], r.disk.value.stages[j], codes[j], j in r.ran))
          && r.disk.value.status == if AllDone(r.disk.value.stages) then CyclePassed else CycleAttention)
  }

  lemma InitialTracks(c: Cycle, disk: Option<Report>, codes: seq<int>, writes: nat)
    requires c.Valid() && |codes| == |c.plan| && Resumable(c, disk)
    ensures |StartOf(c, disk).stages| == |c.plan|
    ensures Tracks(c, StartOf(c, disk).stages, codes, Opened(c, disk, writes), 0)
  {
    hide DependenciesDone;
  }

  lemma InvocationHasEffect(c: Cycle, disk: Option<Report>, codes: seq<int>, writes: nat)
    requires c.Valid() && |codes| == |c.plan| && Resumable(c, disk)
    ensures |StartOf(c, disk).stages| == |c.plan|
    ensures Effect(c, StartOf(c, disk).stages, codes, Invocation(c, disk, codes, writes))
  {
    InitialTracks(c, disk, codes, writes);
    var start, opening := StartOf(c, disk).stages, Opened(c, disk, writes);
    ProcessingTracks(c, start, codes, opening, |c.plan|);
    hide ProcessAll, Opened, StartOf, Loadable, DoneClosed, DependenciesMet, AllDone;
    var p := ProcessAll(c, opening, |c.plan|, codes);
    if !p.stopped {
      assert forall j :: 0 <= j < |c.plan| ==> OnDisk(start[j], p.report.stages[j], codes[j], j in p.ran, false);
    }
  }

  // ---------- any sequence of invocations ----------

  /** One invocation of a history: the exit codes its commands would give, and where it is interrupted. */
  datatype Attempt = Attempt(codes: seq<int>, writes: nat)

  ghost predicate FitsPlan(c: Cycle, history: seq<Attempt>)
  {
    forall i :: 0 <= i < |history| ==> |history[i].codes| == |c.plan|
  }

  ghost function DiskAfter(c: Cycle, history: seq<Attempt>, n: nat): Option<Report>
    requires c.Valid() && FitsPlan(c, history) && n <= |history|
    decreases n, 0
  {
    if n == 0 then None else ResultOf(c, history, n - 1).disk
  }

  ghost function ResultOf(c: Cycle, history: seq<Attempt>, i: nat): Result
    requires c.Valid() && FitsPlan(c, history) && i < |history|
    decreases i, 1
  {
    Invocation(c, DiskAfter(c, history, i), history[i].codes, history[i].writes)
  }

  ghost predicate Recorded(disk: Option<Report>, i: nat)
  {
    disk.Some? && i < |disk.value.stages| && disk.value.stages[i].status.Done()
  }

  /** A rejected file stays as it is; every other history leaves a closed one. */
  lemma {:induction false} HistoryIsTracked(c: Cycle, history: seq<Attempt>, n: nat)
    requires c.Valid() && FitsPlan(c, history) && n <= |history|
    ensures var disk := DiskAfter(c, history, n);
            disk.Some? ==> |disk.value.stages| == |c.plan| && DoneClosed(c, disk.value.stages)
  {
    hide Invocation, DoneClosed, Loadable;
    if n > 0 {
      HistoryIsTracked(c, history, n - 1);
      var disk := DiskAfter(c, history, n - 1);
      if disk.Some? && !Loadable(c, disk.value) {
        RejectedUnchanged(c, disk, history[n - 1].codes, history[n - 1].writes);
      } else {
        InvocationHasEffect(c, disk, history[n - 1].codes, history[n - 1].writes);
        hide OnDisk, TracksRuns, Settled;
      }
    }
  }

  lemma RejectedUnchanged(c: Cycle, disk: Option<Report>, codes: seq<int>, writes: nat)
    requires c.Valid() && |codes| == |c.plan| && disk.Some? && !Loadable(c, disk.value)
    ensures Invocation(c, disk, codes, writes) == Result(disk, [], Rejected, None)
  {
  }

  /** The effect of the `n`-th invocation of any history, when the loader took the file. */
  lemma HistoryStep(c: Cycle, history: seq<Attempt>, n: nat)
    requires c.Valid() && FitsPlan(c, history) && n < |history|
    ensures var disk := DiskAfter(c, history, n);
            if disk.Some? && !Loadable(c, disk.value) then ResultOf(c, history, n) == Result(disk, [], Rejected, None)
            else |StartOf(c, disk).stages| == |c.plan| && Effect(c, StartOf(c, disk).stages, history[n].codes, ResultOf(c, history, n))
  {
    HistoryIsTracked(c, history, n);
    var disk := DiskAfter(c, history, n);
    hide Invocation, DoneClosed, Loadable, Effect, StartOf;
    if disk.Some? && !Loadable(c, disk.value) {
      RejectedUnchanged(c, disk, history[n].codes, history[n].writes);
    } else {
      InvocationHasEffect(c, disk, history[n].codes, history[n].writes);
    }
  }

  /** A command is started only after every dependency succeeded: recorded before this invocation, or just now. */
  lemma RunsOnlyAfterDependencies(c: Cycle, history: seq<Attempt>, n: nat, i: nat, d: string)
    requires c.Valid() && FitsPlan(c, history) && n < |history|
    requires i in ResultOf(c, history, n).ran
    ensures i < |c.plan|
    ensures d in c.plan[i].dependencies ==>
              exists j :: 0 <= j < i && c.plan[j].name == d &&
                          (Recorded(DiskAfter(c, history, n), j) || (j in ResultOf(c, history, n).ran && history[n].codes[j] == 0))
  {
    HistoryStep(c, history, n);
    hide Invocation, Loadable, TracksDisk;
    var start := StartOf(c, DiskAfter(c, history, n)).stages;
    if d in c.plan[i].dependencies {
      var j :| 0 <= j < i && c.plan[j].name == d && (start[j].status.Done() || (j in ResultOf(c, history, n).ran && history[n].codes[j] == 0));
      assert start[j].status.Done() ==> Recorded(DiskAfter(c, history, n), j);
    }
  }

  lemma {:induction false} FileNeverVanishes(c: Cycle, p: Progress, n: nat, codes: seq<int>)
    requires |p.report.stages| == |c.plan| == |codes| && n <= |c.plan| && p.disk.Some?
    ensures ProcessAll(c, p, n, codes).disk.Some?
  {
    hide DependenciesDone;
    if n > 0 {
      FileNeverVanishes(c, p, n - 1, codes);
    }
  }

  lemma RecordedStep(c: Cycle, disk: Option<Report>, codes: seq<int>, writes: nat, i: nat)
    requires c.Valid() && |codes| == |c.plan| && Resumable(c, disk) && Recorded(disk, i)
    ensures Recorded(Invocation(c, disk, codes, writes).disk, i)
    ensures i !in Invocation(c, disk, codes, writes).ran
  {
    InvocationHasEffect(c, disk, codes, writes);
    FileNeverVanishes(c, Opened(c, disk, writes), |c.plan|, codes);
    hide Loadable, DoneClosed, DependenciesMet, ProcessAll;
    var r := Invocation(c, disk, codes, writes);
    assert OnDisk(disk.value.stages[i], r.disk.value.stages[i], codes[i], i in r.ran, r.cut == Some(i));
  }

  /** A stage recorded as passed stays recorded, through every later invocation and interruption, and is never run again. */
  lemma {:induction false} PassedNeverRunsAgain(c: Cycle, history: seq<Attempt>, m: nat, n: nat, i: nat)
    requires c.Valid() && FitsPlan(c, history) && m <= n <= |history|
    requires Recorded(DiskAfter(c, history, m), i)
    ensures Recorded(DiskAfter(c, history, n), i)
    ensures n < |history| ==> i !in ResultOf(c, history, n).ran
    decreases n
  {
    hide Invocation, Loadable, DoneClosed, Recorded;
    if m < n {
      PassedNeverRunsAgain(c, history, m, n - 1, i);
      AttemptKeepsRecord(c, history, n - 1, i);
    }
    if n < |history| {
      AttemptKeepsRecord(c, history, n, i);
    }
  }

  lemma AttemptKeepsRecord(c: Cycle, history: seq<Attempt>, n: nat, i: nat)
    requires c.Valid() && FitsPlan(c, history) && n < |history| && Recorded(DiskAfter(c, history, n), i)
    ensures Recorded(DiskAfter(c, history, n + 1), i) && i !in ResultOf(c, history, n).ran
  {
    HistoryIsTracked(c, history, n);
    var disk := DiskAfter(c, history, n);
    hide Invocation, Loadable, DoneClosed, Recorded;
    if Loadable(c, disk.value) {
      RecordedStep(c, disk, history[n].codes, history[n].writes, i);
    } else {
      RejectedUnchanged(c, disk, history[n].codes, history[n].writes);
    }
  }

  // ---------- what a completed invocation reports ----------

  /** A direct or indirect dependency of stage `i` failed. */
  predicate BehindFailure(c: Cycle, stages: seq<Entry>, i: nat)
    requires |stages| == |c.plan| && i < |c.plan|
    decreases i
  {
    exists j :: 0 <= j < i && c.plan[j].name in c.plan[i].dependencies && (stages[j].status.Failed? || BehindFailure(c, stages, j))
  }

  ghost predicate AllSettled(c: Cycle, start: seq<Entry>, stages: seq<Entry>, codes: seq<int>, ran: seq<nat>)
    requires |start| == |stages| == |c.plan| == |codes|
  {
    && (forall j :: 0 <= j < |c.plan| ==> Settled(start[j], stages[j], codes[j], j in ran))
    && (forall j :: j in ran ==> j < |c.plan| && DependenciesMet(c, start, codes, ran, j))
    && DoneClosed(c, start)
  }

  lemma {:induction false} SkippedIffBehind(c: Cycle, start: seq<Entry>, stages: seq<Entry>, codes: seq<int>, ran: seq<nat>, i: nat)
    requires c.Valid() && |start| == |stages| == |c.plan| == |codes| && i < |c.plan|
    requires AllSettled(c, start, stages, codes, ran) && DoneClosed(c, stages)
    requires forall k :: 0 <= k < |c.plan| && !start[k].status.Done() && k !in ran ==> !DependenciesDone(c, stages, k)
    ensures stages[i].status.Skipped? <==> BehindFailure(c, stages, i)
    decreases i
  {
    forall j | 0 <= j < i ensures stages[j].status.Skipped? <==> BehindFailure(c, stages, j) {
      SkippedIffBehind(c, start, stages, codes, ran, j);
    }
    assert Settled(start[i], stages[i], codes[i], i in ran);
    if stages[i].status.Skipped? {
      assert !DependenciesDone(c, stages, i);
      var d :| d in c.plan[i].dependencies && forall j :: 0 <= j < |c.plan| && c.plan[j].name == d ==> !stages[j].status.Done();
      var j :| 0 <= j < i && c.plan[j].name == d;
      assert Settled(start[j], stages[j], codes[j], j in ran);
    } else if BehindFailure(c, stages, i) {
      var j :| 0 <= j < i && c.plan[j].name in c.plan[i].dependencies && (stages[j].status.Failed? || BehindFailure(c, stages, j));
      NotBehindUndone(c, start, stages, codes, ran, i, j);
    }
  }

  lemma NotBehindUndone(c: Cycle, start: seq<Entry>, stages: seq<Entry>, codes: seq<int>, ran: seq<nat>, i: nat, j: nat)
    requires c.Valid() && |start| == |stages| == |c.plan| == |codes| && j < i < |c.plan|
    requires AllSettled(c, start, stages, codes, ran) && !stages[i].status.Skipped? && c.plan[j].name in c.plan[i].dependencies
    ensures stages[j].status.Done()
  {
    assert Settled(start[i], stages[i], codes[i], i in ran) && Settled(start[j], stages[j], codes[j], j in ran);
    if start[i].status.Done() {
      var k :| 0 <= k < |c.plan| && c.plan[k].name == c.plan[j].name && start[k].status.Done();
      assert k == j;
    } else {
      var k :| 0 <= k < i && c.plan[k].name == c.plan[j].name && (start[k].status.Done() || (k in ran && codes[k] == 0));
      assert k == j;
    }
  }

  /** Entries from stage `k` on do not decide whether the dependencies of `k` are done. */
  lemma LaterEntriesIrrelevant(c: Cycle, stages: seq<Entry>, k: nat, i: nat, e: Entry)
    requires c.Valid() && |stages| == |c.plan| && k <= i < |c.plan|
    ensures DependenciesDone(c, stages[i := e], k) <==> DependenciesDone(c, stages, k)
  {
    forall d | d in c.plan[k].dependencies
      ensures (exists j :: 0 <= j < |c.plan| && c.plan[j].name == d && stages[i := e][j].status.Done()) <==>
              (exists j :: 0 <= j < |c.plan| && c.plan[j].name == d && stages[j].status.Done())
    {
      var j :| 0 <= j < k && c.plan[j].name == d;
      assert stages[i := e][j] == stages[j];
    }
  }

  /** A stage that neither ran nor was recorded was passed over because a dependency was not done. */
  lemma {:induction false} PassedOverForCause(c: Cycle, p: Progress, n: nat, codes: seq<int>, k: nat)
    requires c.Valid() && |p.report.stages| == |c.plan| == |codes| && k < n <= |c.plan|
    requires !ProcessAll(c, p, n, codes).stopped && !ProcessAll(c, p, n, codes).report.stages[k].status.Done() && k !in ProcessAll(c, p, n, codes).ran
    ensures !DependenciesDone(c, ProcessAll(c, p, n, codes).report.stages, k)
    decreases n
  {
    var before, after := ProcessAll(c, p, n - 1, codes), ProcessAll(c, p, n, codes);
    TurnChangesOneEntry(c, before, n - 1, codes);
    hide Process;
    var e := after.report.stages[n - 1];
    if k < n - 1 {
      PassedOverForCause(c, p, n - 1, codes, k);
    }
    LaterEntriesIrrelevant(c, before.report.stages, k, n - 1, e);
  }

  lemma TurnChangesOneEntry(c: Cycle, p: Progress, i: nat, codes: seq<int>)
    requires |p.report.stages| == |c.plan| == |codes| && i < |c.plan| && !Process(c, p, i, codes).stopped
    ensures var after := Process(c, p, i, codes);
            && !p.stopped
            && after.report.stages == p.report.stages[i := after.report.stages[i]]
            && (forall k :: k in p.ran ==> k in after.ran)
            && (!after.report.stages[i].status.Done() && i !in after.ran ==> !DependenciesDone(c, p.report.stages, i))
  {
    hide DependenciesDone;
  }

  /** After an uninterrupted invocation, a stage is reported skipped exactly when something it depends on failed. */
  lemma SkippedIffDependencyFailed(c: Cycle, history: seq<Attempt>, n: nat, i: nat)
    requires c.Valid() && FitsPlan(c, history) && n < |history| && i < |c.plan|
    requires ResultOf(c, history, n).outcome.Completed?
    ensures var disk := DiskAfter(c, history, n + 1);
            && disk.Some? && |disk.value.stages| == |c.plan|
            && (disk.value.stages[i].status.Skipped? <==> BehindFailure(c, disk.value.stages, i))
            && !disk.value.stages[i].status.Pending? && !disk.value.stages[i].status.Running?
  {
    HistoryIsTracked(c, history, n);
    var disk, codes, writes := DiskAfter(c, history, n), history[n].codes, history[n].writes;
    InvocationHasEffect(c, disk, codes, writes);
    var r, start := Invocation(c, disk, codes, writes), StartOf(c, disk).stages;
    CompletedSettles(c, disk, codes, writes);
    hide Invocation, Loadable, Effect, DoneClosed, StartOf, DependenciesMet, DependenciesDone;
    SkippedIffBehind(c, start, r.disk.value.stages, codes, r.ran, i);
    assert Settled(start[i], r.disk.value.stages[i], codes[i], i in r.ran);
  }

  lemma CompletedSettles(c: Cycle, disk: Option<Report>, codes: seq<int>, writes: nat)
    requires c.Valid() && |codes| == |c.plan| && Resumable(c, disk)
    requires Invocation(c, disk, codes, writes).outcome.Completed?
    ensures var r, start := Invocation(c, disk, codes, writes), StartOf(c, disk).stages;
            && |start| == |c.plan| && r.disk.Some? && |r.disk.value.stages| == |c.plan|
            && AllSettled(c, start, r.disk.value.stages, codes, r.ran) && DoneClosed(c, r.disk.value.stages)
            && forall k :: 0 <= k < |c.plan| && !start[k].status.Done() && k !in r.ran ==> !DependenciesDone(c, r.disk.value.stages, k)
  {
    InvocationHasEffect(c, disk, codes, writes);
    StartIsClosed(c, disk);
    var opening := Opened(c, disk, writes);
    var p := ProcessAll(c, opening, |c.plan|, codes);
    assert !p.stopped;
    hide Opened, StartOf, Loadable, DoneClosed, DependenciesMet, DependenciesDone, ProcessAll, AllDone;
    var r, start := Invocation(c, disk, codes, writes), StartOf(c, disk).stages;
    assert r.disk.value.stages == p.report.stages && r.ran == p.ran;
    forall k | 0 <= k < |c.plan| && !start[k].status.Done() && k !in r.ran ensures !DependenciesDone(c, r.disk.value.stages, k) {
      assert Settled(start[k], r.disk.value.stages[k], codes[k], k in r.ran);
      PassedOverForCause(c, opening, |c.plan|, codes, k);
    }
  }

  lemma StartIsClosed(c: Cycle, disk: Option<Report>)
    requires c.Valid() && Resumable(c, disk)
    ensures |StartOf(c, disk).stages| == |c.plan| && DoneClosed(c, StartOf(c, disk).stages)
  {
  }

  // ---------- which interruptions the loader forgives ----------

  /**
   A file that could be loaded can be loaded again after the next invocation exactly
   when that invocation was not cut while running a stage that had failed before.
   */
  lemma ReloadableIff(c: Cycle, history: seq<Attempt>, n: nat)
    requires c.Valid() && FitsPlan(c, history) && n < |history|
    requires var disk := DiskAfter(c, history, n); disk.Some? ==> Loadable(c, disk.value)
    requires ResultOf(c, history, n).disk.Some?
    ensures Loadable(c, ResultOf(c, history, n).disk.value) <==>
              var cut := ResultOf(c, history, n).cut;
              !(cut.Some? && DiskAfter(c, history, n).Some? && cut.value < |c.plan| && DiskAfter(c, history, n).value.stages[cut.value].status.Failed?)
  {
    HistoryIsTracked(c, history, n);
    var disk, codes := DiskAfter(c, history, n), history[n].codes;
    InvocationHasEffect(c, disk, codes, history[n].writes);
    StartFits(c, disk);
    var r, start := ResultOf(c, history, n), StartOf(c, disk).stages;
    hide Invocation, DoneClosed, DependenciesMet, Loadable, CodeFits, Matches;
    assert forall j :: 0 <= j < |c.plan| ==> OnDisk(start[j], r.disk.value.stages[j], codes[j], j in r.ran, r.cut == Some(j));
    forall j | 0 <= j < |c.plan|
      ensures Matches(c, j, r.disk.value.stages[j])
      ensures CodeFits(r.disk.value.stages[j]) <==> !(r.cut == Some(j) && start[j].status.Failed?)
    {
      EntryFits(c, j, start[j], r.disk.value.stages[j], codes[j], j in r.ran, r.cut == Some(j));
    }
    LoadableMeans(c, r.disk.value);
    if disk.None? && r.cut.Some? {
      StartedPending(c, disk, r.cut.value);
    }
  }

  lemma StartFits(c: Cycle, disk: Option<Report>)
    requires c.Valid() && (disk.Some? ==> Loadable(c, disk.value))
    ensures |StartOf(c, disk).stages| == |c.plan|
    ensures forall j :: 0 <= j < |c.plan| ==> Matches(c, j, StartOf(c, disk).stages[j]) && CodeFits(StartOf(c, disk).stages[j])
  {
  }

  lemma StartedPending(c: Cycle, disk: Option<Report>, j: nat)
    requires c.Valid() && j < |c.plan| && disk.None?
    ensures !StartOf(c, disk).stages[j].status.Failed?
  {
  }

  lemma EntryFits(c: Cycle, j: nat, s: Entry, e: Entry, code: int, started: bool, cut: bool)
    requires c.Valid() && j < |c.plan| && Matches(c, j, s) && CodeFits(s) && OnDisk(s, e, code, started, cut)
    requires cut ==> started && e == s.(status := Running) && !s.status.Done()
    ensures Matches(c, j, e)
    ensures CodeFits(e) <==> !(cut && s.status.Failed?)
  {
  }

  lemma LoadableMeans(c: Cycle, r: Report)
    requires c.Valid()
    ensures Loadable(c, r) <==>
              r.identity == c.identity && |r.stages| == |c.plan| && forall j :: 0 <= j < |c.plan| ==> Matches(c, j, r.stages[j]) && CodeFits(r.stages[j])
  {
  }

  function OneStage(): (c: Cycle)
    ensures c.Valid()
  {
    Cycle("cycle", [Stage("stage", ["run"], [])], ["log"])
  }

  /** The only stage fails in a complete first invocation, and the second is cut once its command was started again. */
  function CutRetry(first: int, second: int): seq<Attempt> { [Attempt([first], 4), Attempt([second], 1)] }

  /** Such a retry leaves a file that the loader rejects, whatever its command would have given. */
  lemma CutRetryRejected(first: int, second: int)
    requires first != 0
    ensures var c, history := OneStage(), CutRetry(first, second);
            && FitsPlan(c, history)
            && ResultOf(c, history, 0).outcome.Completed? && Loadable(c, ResultOf(c, history, 0).disk.value)
            && ResultOf(c, history, 1).cut == Some(0) && ResultOf(c, history, 1).disk.Some?
            && !Loadable(c, ResultOf(c, history, 1).disk.value)
  {
    var c, history := OneStage(), CutRetry(first, second);
    var entry := Entry("stage", ["run"], "log", Failed, Some(first));
    var failed := Report("cycle", CycleAttention, [entry]);
    FirstFails(first);
    assert DiskAfter(c, history, 0) == None && ResultOf(c, history, 0).disk == Some(failed) == DiskAfter(c, history, 1);
    RetryCut(failed, entry, second);
  }

  lemma FirstFails(code: int)
    requires code != 0
    ensures var r := Invocation(OneStage(), None, [code], 4);
            && r.outcome.Completed?
            && r.disk == Some(Report("cycle", CycleAttention, [Entry("stage", ["run"], "log", Failed, Some(code))]))
  {
    var c, codes := OneStage(), [code];
    var opening := Opened(c, None, 4);
    assert opening.report.stages == [Entry("stage", ["run"], "log", Pending, None)];
    assert ProcessAll(c, opening, 0, codes) == opening;
    assert DependenciesDone(c, opening.report.stages, 0);
    var p := ProcessAll(c, opening, 1, codes);
    assert p.report.stages == [Entry("stage", ["run"], "log", Failed, Some(code))];
    assert !p.report.stages[0].status.Done();
  }

  lemma RetryCut(failed: Report, entry: Entry, code: int)
    requires entry.name == "stage" && entry.command == ["run"] && entry.logPath == "log" && entry.status.Failed? && entry.exitCode.Some? && entry.exitCode.value != 0
    requires failed.identity == "cycle" && failed.stages == [entry]
    ensures var c := OneStage();
            var r := Invocation(c, Some(failed), [code], 1);
            Loadable(c, failed) && r.cut == Some(0) && r.disk.Some? && !Loadable(c, r.disk.value)
  {
    var c, codes := OneStage(), [code];
    assert Loadable(c, failed);
    var opening := Opened(c, Some(failed), 1);
    assert ProcessAll(c, opening, 0, codes) == opening;
    assert DependenciesDone(c, opening.report.stages, 0);
    var p := ProcessAll(c, opening, 1, codes);
    assert [entry][0 := entry.(status := Running)] == [entry.(status := Running)];
    assert p.stopped && p.disk == Some(failed.(stages := [entry.(status := Running)]));
    assert !CodeFits(p.disk.value.stages[0]);
  }

  /** Once the loader rejects the file, every later invocation is rejected and the file never changes. */
  lemma {:induction false} RejectedForever(c: Cycle, history: seq<Attempt>, m: nat, n: nat)
    requires c.Valid() && FitsPlan(c, history) && m <= n <= |history|
    requires var disk := DiskAfter(c, history, m); disk.Some? && !Loadable(c, disk.value)
    ensures DiskAfter(c, history, n) == DiskAfter(c, history, m)
    ensures n < |history| ==> ResultOf(c, history, n).outcome.Rejected?
    decreases n
  {
    hide Invocation, Loadable;
    if m < n {
      RejectedForever(c, history, m, n - 1);
      RejectedUnchanged(c, DiskAfter(c, history, n - 1), history[n - 1].codes, history[n - 1].writes);
    }
    if n < |history| {
      RejectedUnchanged(c, DiskAfter(c, history, n), history[n].codes, history[n].writes);
    }
  }

  // ---------- finishing ----------

  lemma {:induction false} EnoughWrites(c: Cycle, p: Progress, n: nat, codes: seq<int>)
    requires |p.report.stages| == |c.plan| == |codes| && n <= |c.plan| && !p.stopped && p.writes >= 2 * n
    ensures !ProcessAll(c, p, n, codes).stopped && ProcessAll(c, p, n, codes).writes >= p.writes - 2 * n
  {
    hide DependenciesDone;
    if n > 0 {
      EnoughWrites(c, p, n - 1, codes);
    }
  }

  /** Left alone, with every command succeeding, an invocation passes the cycle from any file that can be resumed. */
  lemma CleanInvocationPasses(c: Cycle, disk: Option<Report>, codes: seq<int>, writes: nat)
    requires c.Valid() && |codes| == |c.plan| && Resumable(c, disk)
    requires writes >= 2 * |c.plan| + 2 && forall i :: 0 <= i < |codes| ==> codes[i] == 0
    ensures var r := Invocation(c, disk, codes, writes);
            r.outcome.Completed? && r.disk.Some? && r.disk.value.status.CyclePassed? && AllDone(r.disk.value.stages)
  {
    EnoughWrites(c, Opened(c, disk, writes), |c.plan|, codes);
    CompletedSettles(c, disk, codes, writes);
    InvocationHasEffect(c, disk, codes, writes);
    hide ProcessAll, Opened, StartOf, Loadable, DoneClosed, DependenciesMet;
    var r, start := Invocation(c, disk, codes, writes), StartOf(c, disk).stages;
    forall i | 0 <= i < |c.plan| ensures r.disk.value.stages[i].status.Done() {
      NothingBehind(c, start, r.disk.value.stages, codes, r.ran, i);
    }
  }

  lemma {:induction false} NothingBehind(c: Cycle, start: seq<Entry>, stages: seq<Entry>, codes: seq<int>, ran: seq<nat>, i: nat)
    requires c.Valid() && |start| == |stages| == |c.plan| == |codes| && i < |c.plan|
    requires forall j :: 0 <= j < |c.plan| ==> Settled(start[j], stages[j], codes[j], j in ran) && codes[j] == 0
    requires forall k :: 0 <= k < |c.plan| && !start[k].status.Done() && k !in ran ==> !DependenciesDone(c, stages, k)
    ensures stages[i].status.Done()
    decreases i
  {
    forall j | 0 <= j < i ensures stages[j].status.Done() {
      NothingBehind(c, start, stages, codes, ran, j);
    }
  }
}
