/**
 Backtest runs and their append-only event streams. A record hash is the identity it
 is computed from; every call is one transaction that commits or rolls back.
 */
module Backtests {
  import opened Wrappers
  import opened Instants
  import opened Patterns
  import opened Text
  import Manifests
  import RunLifecycle

  type Fault = RunLifecycle.Fault

  datatype Event = Event(
    runId: string, sequence: int, status: string, eventAt: int, resultId: string, resultManifestPath: string,
    resultManifestSha256: string, failureCode: string, failureMessage: string)

  datatype Registration = Registration(
    runId: string, experimentId: string, attempt: int, engineVersion: string, environment: string, holdoutAttempted: bool, startedAt: int)

  /** One backtest_runs row: the hashed registration, and the start column in whole microseconds. */
  datatype RunRow = RunRow(recordHash: Registration, startedAt: int)

  datatype Database = Database(runs: map<string, RunRow>, events: map<string, map<int, Event>>)

  datatype BacktestError = Invalid | Conflict | UnknownRun | BeforeStart | WrongSequence(expected: int) | AlreadyTerminal | Failed

  datatype Reply = Reply(sequence: int, alreadyPresent: bool)

  // ---------- normalization ----------

  function NormalizeEvent(e: Event): Event
  {
    e.(runId := TrimSpace(e.runId), status := TrimSpace(e.status), resultId := TrimSpace(e.resultId),
       resultManifestPath := TrimSpace(e.resultManifestPath), resultManifestSha256 := TrimSpace(e.resultManifestSha256),
       failureCode := TrimSpace(e.failureCode), failureMessage := TrimSpace(e.failureMessage))
  }

  predicate Terminal(status: string) { status in {"completed", "failed", "cancelled"} }

  predicate ValidEvent(e: Event)
  {
    && Manifests.IsUuid(e.runId) && (e.resultId != "" ==> Manifests.IsUuid(e.resultId))
    && (e.resultManifestPath != "" ==> IsSafeEitherPath(e.resultManifestPath) && Manifests.IsLowerHex(e.resultManifestSha256, 64))
    && e.sequence >= 0 && (e.status == "running" || Terminal(e.status)) && e.eventAt != ZERO_TIME
    && (e.resultManifestPath == "" <==> e.resultManifestSha256 == "")
    && (e.status == "completed" ==> e.resultId != "" && e.resultManifestPath != "" && e.failureCode == "" && e.failureMessage == "")
    && (e.status == "running" ==> e.resultId == "" && e.resultManifestPath == "" && e.failureCode == "" && e.failureMessage == "")
    && (e.status in {"failed", "cancelled"} ==> e.resultId == "" && e.resultManifestPath == "" && e.failureCode != "" && e.failureMessage != "")
  }

  function NormalizeRun(r: Registration): Registration
  {
    r.(runId := TrimSpace(r.runId), experimentId := TrimSpace(r.experimentId), engineVersion := TrimSpace(r.engineVersion))
  }

  predicate ValidRun(r: Registration)
  {
    Manifests.IsUuid(r.runId) && Manifests.IsUuid(r.experimentId) && r.attempt > 0 && r.engineVersion != "" && r.startedAt != ZERO_TIME
  }

  function StartEvent(r: Registration): Event
  {
    Event(r.runId, 0, "running", r.startedAt, "", "", "", "", "")
  }

  /** What validation leaves to the columns of an event: no two dots in a row in its path. */
  predicate EventFits(e: Event) { e.resultManifestPath == "" || IsColumnPath(e.resultManifestPath) }

  /** A run of the experiment holds this attempt already. */
  predicate AttemptTaken(db: Database, r: Registration)
  {
    exists id | id in db.runs :: db.runs[id].recordHash.experimentId == r.experimentId && db.runs[id].recordHash.attempt == r.attempt
  }

  // ---------- the two transactions ----------

  function ApplyStart(db: Database, experiments: set<string>, registration: Registration, claimed: Option<Registration>, fault: Fault): (Database, Result<Reply, BacktestError>)
  {
    var r := NormalizeRun(registration);
    if !ValidRun(r) || (claimed.Some? && claimed.value != r) then (db, Err(Invalid))
    else if fault.StatementFails? then (db, Err(Failed))
    else if r.runId in db.runs then
      if db.runs[r.runId].recordHash != r then (db, Err(Conflict))
      else if r.runId !in db.events || 0 !in db.events[r.runId] || db.events[r.runId][0] != StartEvent(r) then (db, Err(Conflict))
      else (db, if fault.NoFault? then Ok(Reply(0, true)) else Err(Failed))
    else if r.experimentId !in experiments || AttemptTaken(db, r) then (db, Err(Failed))
    else
      var after := Database(db.runs[r.runId := RunRow(r, CanonicalTime(r.startedAt))], db.events[r.runId := map[0 := StartEvent(r)]]);
      (after, if fault.NoFault? then Ok(Reply(0, false)) else Err(Failed))
  }

  function Stream(db: Database, runId: string): map<int, Event>
  {
    if runId in db.events then db.events[runId] else map[]
  }

  /** coalesce(max(sequence), -1) + 1. */
  ghost predicate IsNext(stream: map<int, Event>, next: int)
  {
    (forall k :: k in stream ==> k < next) && (next == 0 || next - 1 in stream)
  }

  predicate HasTerminal(stream: map<int, Event>)
  {
    exists k :: k in stream && Terminal(stream[k].status)
  }

  /** Appending decides on the replay first, then the number, then the terminal event. */
  ghost predicate Appends(db: Database, event: Event, claimed: Option<Event>, fault: Fault, after: Database, reply: Result<Reply, BacktestError>)
  {
    var e := NormalizeEvent(event);
    var stream := Stream(db, e.runId);
    if !ValidEvent(e) || (claimed.Some? && claimed.value != e) then after == db && reply == Err(Invalid)
    else if fault.StatementFails? then after == db && reply == Err(Failed)
    else if e.runId !in db.runs then after == db && reply == Err(UnknownRun)
    else if e.eventAt < db.runs[e.runId].startedAt then after == db && reply == Err(BeforeStart)
    else if e.sequence in stream then
      && after == db
      && reply == if stream[e.sequence] != e then Err(Conflict) else if fault.NoFault? then Ok(Reply(e.sequence, true)) else Err(Failed)
    else if !IsNext(stream, e.sequence) then after == db && reply.Err? && reply.error.WrongSequence? && IsNext(stream, reply.error.expected)
    else if HasTerminal(stream) then after == db && reply == Err(AlreadyTerminal)
    else if !EventFits(e) then after == db && reply == Err(Failed)
    else
      && after == db.(events := db.events[e.runId := stream[e.sequence := e]])
      && reply == if fault.NoFault? then Ok(Reply(e.sequence, false)) else Err(Failed)
  }

  method AnyOf<T(==)>(s: set<T>) returns (x: T)
    requires s != {}
    ensures x in s
  {
    x :| x in s;
  }

  class Repository {
    var runs: map<string, RunRow>
    var events: map<string, map<int, Event>>

    function Contents(): Database
      reads this
    {
      Database(runs, events)
    }

    constructor ()
      ensures Contents() == Database(map[], map[])
    {
      runs, events := map[], map[];
    }

    method StartBacktestRun(experiments: set<string>, registration: Registration, claimed: Option<Registration>, fault: Fault) returns (reply: Result<Reply, BacktestError>)
      modifies this
      ensures (Contents(), reply) == ApplyStart(old(Contents()), experiments, registration, claimed, fault)
    {
      var r := NormalizeRun(registration);
      if !ValidRun(r) || (claimed.Some? && claimed.value != r) {
        return Err(Invalid);
      }
      if fault.StatementFails? {
        return Err(Failed);
      }
      if r.runId in runs {
        if runs[r.runId].recordHash != r || r.runId !in events || 0 !in events[r.runId] || events[r.runId][0] != StartEvent(r) {
          return Err(Conflict);
        }
        return if fault.NoFault? then Ok(Reply(0, true)) else Err(Failed);
      }
      if r.experimentId !in experiments || AttemptTaken(Contents(), r) {
        return Err(Failed);
      }
      runs := runs[r.runId := RunRow(r, CanonicalTime(r.startedAt))];
      events := events[r.runId := map[0 := StartEvent(r)]];
      return if fault.NoFault? then Ok(Reply(0, false)) else Err(Failed);
    }

    /** The two aggregate queries over one stream. */
    method Survey(stream: map<int, Event>) returns (next: int, terminal: bool)
      requires forall k :: k in stream ==> k >= 0
      ensures IsNext(stream, next)
      ensures terminal <==> HasTerminal(stream)
    {
      next, terminal := 0, false;
      var todo := stream.Keys;
      while todo != {}
        invariant todo <= stream.Keys
        invariant forall k :: k in stream && k !in todo ==> k < next
        invariant next == 0 || (next - 1 in stream && next - 1 !in todo)
        invariant next >= 0
        invariant terminal <==> exists k :: k in stream && k !in todo && Terminal(stream[k].status)
        decreases todo
      {
        var k := AnyOf(todo);
        todo := todo - {k};
        next := if k >= next then k + 1 else next;
        terminal := terminal || Terminal(stream[k].status);
      }
    }

    method AppendBacktestRunEvent(event: Event, claimed: Option<Event>, fault: Fault) returns (reply: Result<Reply, BacktestError>)
      requires forall id, k :: id in events && k in events[id] ==> k >= 0
      modifies this`events
      ensures Appends(old(Contents()), event, claimed, fault, Contents(), reply)
    {
      hide NormalizeEvent, ValidEvent, EventFits, Terminal;
      var e := NormalizeEvent(event);
      if !ValidEvent(e) || (claimed.Some? && claimed.value != e) {
        return Err(Invalid);
      }
      if fault.StatementFails? {
        return Err(Failed);
      }
      if e.runId !in runs {
        return Err(UnknownRun);
      }
      if e.eventAt < runs[e.runId].startedAt {
        return Err(BeforeStart);
      }
      var stream := Stream(Contents(), e.runId);
      if e.sequence in stream {
        if stream[e.sequence] != e {
          return Err(Conflict);
        }
        return if fault.NoFault? then Ok(Reply(e.sequence, true)) else Err(Failed);
      }
      var next, terminal := Survey(stream);
      OneNext(stream, next, e.sequence);
      if e.sequence != next {
        return Err(WrongSequence(next));
      }
      if terminal {
        return Err(AlreadyTerminal);
      }
      if !EventFits(e) {
        return Err(Failed);
      }
      events := events[e.runId := stream[e.sequence := e]];
      return if fault.NoFault? then Ok(Reply(e.sequence, false)) else Err(Failed);
    }
  }

  lemma OneNext(stream: map<int, Event>, a: int, b: int)
    requires IsNext(stream, a) && (forall k :: k in stream ==> k >= 0)
    ensures b >= 0 && IsNext(stream, b) ==> a == b
  {
  }

  // ---------- streams in every reachable state ----------

  /** Numbered from zero without gaps, started by the run, terminal at most in last place. */
  ghost predicate GoodStream(row: RunRow, stream: map<int, Event>, n: nat)
  {
    && n >= 1
    && (forall k :: k in stream <==> 0 <= k < n)
    && stream[0] == StartEvent(row.recordHash)
    && (forall k :: 0 <= k < n ==> stream[k].runId == row.recordHash.runId && stream[k].sequence == k && ValidEvent(stream[k]) && row.startedAt <= stream[k].eventAt)
    && (forall k :: 0 <= k < n ==> NormalizeEvent(stream[k]) == stream[k])
    && (forall k :: 0 <= k < n - 1 ==> !Terminal(stream[k].status))
  }

  ghost predicate GoodRun(db: Database, runId: string)
  {
    && runId in db.runs && runId in db.events && db.runs[runId].recordHash.runId == runId
    && NormalizeRun(db.runs[runId].recordHash) == db.runs[runId].recordHash && ValidRun(db.runs[runId].recordHash)
    && SomeGoodStream(db.runs[runId], db.events[runId])
  }

  ghost predicate SomeGoodStream(row: RunRow, stream: map<int, Event>)
  {
    exists n: nat :: GoodStream(row, stream, n)
  }

  ghost predicate Good(db: Database)
  {
    db.runs.Keys == db.events.Keys && forall id :: id in db.runs ==> GoodRun(db, id)
  }

  lemma NormalizedOnce(e: Event)
    ensures NormalizeEvent(NormalizeEvent(e)) == NormalizeEvent(e)
  {
    TrimSpaceTrims(e.runId);
    TrimSpaceTrims(e.status);
    TrimSpaceTrims(e.resultId);
    TrimSpaceTrims(e.resultManifestPath);
    TrimSpaceTrims(e.resultManifestSha256);
    TrimSpaceTrims(e.failureCode);
    TrimSpaceTrims(e.failureMessage);
    hide TrimSpace;
  }

  lemma StartIsNormal(r: Registration)
    requires NormalizeRun(r) == r && ValidRun(r)
    ensures NormalizeEvent(StartEvent(r)) == StartEvent(r) && ValidEvent(StartEvent(r)) && !Terminal("running")
    ensures CanonicalTime(r.startedAt) <= r.startedAt
  {
    assert !IsSpace('r') && !IsSpace('g');
  }

  lemma RunNormalizedOnce(r: Registration)
    ensures NormalizeRun(NormalizeRun(r)) == NormalizeRun(r)
  {
    TrimSpaceTrims(r.runId);
    TrimSpaceTrims(r.experimentId);
    TrimSpaceTrims(r.engineVersion);
    hide TrimSpace;
  }

  lemma FirstEventGood(r: Registration)
    requires NormalizeRun(r) == r && ValidRun(r)
    ensures GoodStream(RunRow(r, CanonicalTime(r.startedAt)), map[0 := StartEvent(r)], 1)
  {
    StartIsNormal(r);
    hide NormalizeRun, NormalizeEvent, ValidEvent, ValidRun, Terminal;
  }

  lemma NextEventGood(row: RunRow, stream: map<int, Event>, n: nat, e: Event)
    requires GoodStream(row, stream, n) && !HasTerminal(stream)
    requires e.runId == row.recordHash.runId && e.sequence == n && ValidEvent(e) && NormalizeEvent(e) == e && row.startedAt <= e.eventAt
    ensures GoodStream(row, stream[n := e], n + 1)
  {
    hide NormalizeEvent, ValidEvent, Terminal;
  }

  lemma KeysAdded<K, V>(m: map<K, V>, k: K, v: V)
    ensures m[k := v].Keys == m.Keys + {k}
  {
  }

  /** Changing one run leaves every other run good. */
  lemma OthersStayGood(db: Database, after: Database, runId: string)
    requires Good(db) && runId in after.runs && GoodRun(after, runId)
    requires after.runs == db.runs[runId := after.runs[runId]]
    requires runId in after.events && after.events == db.events[runId := after.events[runId]]
    ensures Good(after)
  {
    hide GoodRun;
    forall id | id in after.runs ensures GoodRun(after, id) {
      if id != runId {
        assert id in db.runs.Keys && id in db.events.Keys;
        SameRunGood(db, after, id);
      }
    }
    KeysAdded(db.runs, runId, after.runs[runId]);
    KeysAdded(db.events, runId, after.events[runId]);
  }

  lemma SameRunGood(db: Database, after: Database, id: string)
    requires GoodRun(db, id) && id in after.runs && after.runs[id] == db.runs[id] && id in after.events && after.events[id] == db.events[id]
    ensures GoodRun(after, id)
  {
    hide GoodStream, NormalizeRun, ValidRun;
  }

  lemma RunIsGood(db: Database, id: string, n: nat)
    requires id in db.runs && id in db.events && db.runs[id].recordHash.runId == id
    requires NormalizeRun(db.runs[id].recordHash) == db.runs[id].recordHash && ValidRun(db.runs[id].recordHash)
    requires GoodStream(db.runs[id], db.events[id], n)
    ensures GoodRun(db, id)
  {
    hide GoodStream, NormalizeRun, ValidRun;
    assert SomeGoodStream(db.runs[id], db.events[id]);
  }

  lemma StartKeepsGood(db: Database, experiments: set<string>, registration: Registration, claimed: Option<Registration>, fault: Fault)
    requires Good(db)
    ensures Good(ApplyStart(db, experiments, registration, claimed, fault).0)
  {
    hide NormalizeRun, ValidRun, GoodStream;
    var after := ApplyStart(db, experiments, registration, claimed, fault).0;
    if after != db {
      var r := NormalizeRun(registration);
      RunNormalizedOnce(registration);
      FirstEventGood(r);
      assert after.runs[r.runId] == RunRow(r, CanonicalTime(r.startedAt)) && after.events[r.runId] == map[0 := StartEvent(r)];
      RunIsGood(after, r.runId, 1);
      OthersStayGood(db, after, r.runId);
    }
  }

  /** What is known of a call that changed the tables. */
  lemma AppendChanges(db: Database, event: Event, claimed: Option<Event>, fault: Fault, after: Database, reply: Result<Reply, BacktestError>)
    requires Appends(db, event, claimed, fault, after, reply) && after != db
    ensures var e, stream := NormalizeEvent(event), Stream(db, NormalizeEvent(event).runId);
            && ValidEvent(e) && e.sequence >= 0 && e.runId in db.runs && db.runs[e.runId].startedAt <= e.eventAt
            && IsNext(stream, e.sequence) && !HasTerminal(stream)
            && after.runs == db.runs && after.events == db.events[e.runId := stream[e.sequence := e]]
  {
    hide NormalizeEvent, Terminal, IsNext, HasTerminal;
  }

  lemma AppendKeepsGood(db: Database, event: Event, claimed: Option<Event>, fault: Fault, after: Database, reply: Result<Reply, BacktestError>)
    requires Good(db) && Appends(db, event, claimed, fault, after, reply)
    ensures Good(after)
  {
    hide NormalizeRun, NormalizeEvent, ValidEvent, ValidRun, Terminal, GoodStream, IsNext, HasTerminal, Appends;
    if after != db {
      var e := NormalizeEvent(event);
      NormalizedOnce(event);
      AppendChanges(db, event, claimed, fault, after, reply);
      AppendedRunGood(db, after, e);
      hide GoodRun;
      OthersStayGood(db, after, e.runId);
    }
  }

  lemma LongerStreamGood(row: RunRow, stream: map<int, Event>, e: Event)
    requires SomeGoodStream(row, stream) && IsNext(stream, e.sequence) && !HasTerminal(stream)
    requires e.runId == row.recordHash.runId && e.sequence >= 0 && ValidEvent(e) && NormalizeEvent(e) == e && row.startedAt <= e.eventAt
    ensures SomeGoodStream(row, stream[e.sequence := e])
  {
    hide NormalizeEvent, ValidEvent, Terminal, IsNext, HasTerminal, GoodStream;
    var n: nat :| GoodStream(row, stream, n);
    NextIsLength(row, stream, n, e.sequence);
    NextEventGood(row, stream, n, e);
  }

  lemma AppendedRunGood(db: Database, after: Database, e: Event)
    requires Good(db) && e.runId in db.runs && e.runId in after.runs && after.runs[e.runId] == db.runs[e.runId]
    requires ValidEvent(e) && e.sequence >= 0 && NormalizeEvent(e) == e && db.runs[e.runId].startedAt <= e.eventAt
    requires IsNext(Stream(db, e.runId), e.sequence) && !HasTerminal(Stream(db, e.runId))
    requires e.runId in after.events && after.events[e.runId] == Stream(db, e.runId)[e.sequence := e]
    ensures GoodRun(after, e.runId)
  {
    hide NormalizeRun, NormalizeEvent, ValidEvent, ValidRun, Terminal, SomeGoodStream, IsNext, HasTerminal;
    assert GoodRun(db, e.runId);
    LongerStreamGood(db.runs[e.runId], db.events[e.runId], e);
  }

  lemma NextIsLength(row: RunRow, stream: map<int, Event>, n: nat, next: int)
    requires GoodStream(row, stream, n)
    ensures IsNext(stream, n)
    ensures next >= 0 && IsNext(stream, next) ==> next == n
  {
    hide NormalizeEvent, ValidEvent, Terminal;
  }

  /** Stored rows are still there afterwards, unaltered. */
  ghost predicate Extends(db: Database, after: Database)
  {
    && (forall id :: id in db.runs ==> id in after.runs && after.runs[id] == db.runs[id])
    && (forall id, k :: id in db.events && k in db.events[id] ==> id in after.events && k in after.events[id] && after.events[id][k] == db.events[id][k])
  }

  lemma StartExtends(db: Database, experiments: set<string>, registration: Registration, claimed: Option<Registration>, fault: Fault)
    requires Good(db)
    ensures Extends(db, ApplyStart(db, experiments, registration, claimed, fault).0)
  {
    hide GoodRun, NormalizeRun, ValidRun;
  }

  lemma AppendExtends(db: Database, event: Event, claimed: Option<Event>, fault: Fault, after: Database, reply: Result<Reply, BacktestError>)
    requires Appends(db, event, claimed, fault, after, reply)
    ensures Extends(db, after)
  {
    hide NormalizeEvent, ValidEvent, Terminal, IsNext, HasTerminal;
  }

  /** One transaction, whichever it is. */
  ghost predicate Step(db: Database, after: Database)
  {
    || (exists experiments, registration, claimed, fault :: after == ApplyStart(db, experiments, registration, claimed, fault).0)
    || (exists event, claimed, fault, reply :: Appends(db, event, claimed, fault, after, reply))
  }

  /** The states of a history that begins with empty tables. */
  ghost predicate History(states: seq<Database>)
  {
    && states != [] && states[0] == Database(map[], map[])
    && forall i :: 0 <= i < |states| - 1 ==> Step(states[i], states[i + 1])
  }

  lemma StepKeeps(db: Database, after: Database)
    requires Good(db) && Step(db, after)
    ensures Good(after) && Extends(db, after)
  {
    hide Good, Extends, ApplyStart, Appends;
    if experiments, registration, claimed, fault :| after == ApplyStart(db, experiments, registration, claimed, fault).0 {
      StartKeepsGood(db, experiments, registration, claimed, fault);
      StartExtends(db, experiments, registration, claimed, fault);
    } else {
      var event, claimed, fault, reply :| Appends(db, event, claimed, fault, after, reply);
      AppendKeepsGood(db, event, claimed, fault, after, reply);
      AppendExtends(db, event, claimed, fault, after, reply);
    }
  }

  /** In every reachable state every stream is good. */
  lemma {:induction false} ReachableIsGood(states: seq<Database>, i: nat)
    requires History(states) && i < |states|
    ensures Good(states[i])
  {
    hide GoodRun, Step;
    if i > 0 {
      ReachableIsGood(states, i - 1);
      StepKeeps(states[i - 1], states[i]);
    }
  }

  /** Earlier events are never altered. */
  lemma {:induction false} EventsNeverAltered(states: seq<Database>, i: nat, j: nat)
    requires History(states) && i <= j < |states|
    ensures Extends(states[i], states[j])
    decreases j
  {
    hide Step, Good;
    if i < j {
      EventsNeverAltered(states, i, j - 1);
      ReachableIsGood(states, j - 1);
      StepKeeps(states[j - 1], states[j]);
    }
  }

  // ---------- replays ----------

  /** Sending a stored event again succeeds and changes nothing. */
  lemma ReplayIsNoOp(db: Database, runId: string, k: int, after: Database, reply: Result<Reply, BacktestError>)
    requires Good(db) && runId in db.events && k in db.events[runId]
    requires Appends(db, db.events[runId][k], None, RunLifecycle.NoFault, after, reply)
    ensures after == db && reply == Ok(Reply(k, true))
  {
    assert GoodRun(db, runId);
    hide NormalizeEvent, ValidEvent, Terminal, IsNext, HasTerminal, NormalizeRun, ValidRun;
    var n: nat :| GoodStream(db.runs[runId], db.events[runId], n);
  }

  lemma StreamStarts(row: RunRow, stream: map<int, Event>, n: nat)
    requires GoodStream(row, stream, n)
    ensures 0 in stream && stream[0] == StartEvent(row.recordHash)
  {
    hide NormalizeEvent, ValidEvent, Terminal;
  }

  /** So does starting a started run again. */
  lemma RestartIsNoOp(db: Database, experiments: set<string>, runId: string)
    requires Good(db) && runId in db.runs
    ensures ApplyStart(db, experiments, db.runs[runId].recordHash, None, RunLifecycle.NoFault) == (db, Ok(Reply(0, true)))
  {
    assert GoodRun(db, runId);
    hide NormalizeEvent, ValidEvent, Terminal, NormalizeRun, ValidRun, GoodStream, Good;
    var n: nat :| GoodStream(db.runs[runId], db.events[runId], n);
    StreamStarts(db.runs[runId], db.events[runId], n);
    hide GoodRun;
  }

  /**
   A valid event is newly accepted exactly when it carries the next number of a stream
   that has not ended and its path has no two dots in a row.
   */
  lemma AcceptedIffNextAndOpen(db: Database, event: Event, n: nat, after: Database, reply: Result<Reply, BacktestError>)
    requires Good(db) && Appends(db, event, None, RunLifecycle.NoFault, after, reply)
    requires var e := NormalizeEvent(event); ValidEvent(e) && e.runId in db.runs && db.runs[e.runId].startedAt <= e.eventAt
    requires var id := NormalizeEvent(event).runId; id in db.events && GoodStream(db.runs[id], db.events[id], n)
    ensures var e := NormalizeEvent(event);
            (reply.Ok? && !reply.value.alreadyPresent) <==>
              (e.sequence == n && !Terminal(db.events[e.runId][n - 1].status) && !HasTwoDots(e.resultManifestPath))
  {
    hide NormalizeEvent, ValidEvent, EventFits, HasTwoDots, Terminal, Good, GoodStream, Appends, IsNext, HasTerminal;
    var e := NormalizeEvent(event);
    var row, stream := db.runs[e.runId], db.events[e.runId];
    NormalizedOnce(event);
    EventPathFits(e);
    AcceptedMeans(db, event, after, reply);
    NextIsLength(row, stream, n, e.sequence);
    NonNegative(e);
    OnlyLastEnds(row, stream, n);
  }

  lemma NonNegative(e: Event)
    requires ValidEvent(e)
    ensures e.sequence >= 0
  {
  }

  lemma AcceptedMeans(db: Database, event: Event, after: Database, reply: Result<Reply, BacktestError>)
    requires Appends(db, event, None, RunLifecycle.NoFault, after, reply)
    requires var e := NormalizeEvent(event); ValidEvent(e) && e.runId in db.runs && db.runs[e.runId].startedAt <= e.eventAt
    ensures var e, stream := NormalizeEvent(event), Stream(db, NormalizeEvent(event).runId);
            (reply.Ok? && !reply.value.alreadyPresent) <==> (e.sequence !in stream && IsNext(stream, e.sequence) && !HasTerminal(stream) && EventFits(e))
  {
    hide NormalizeEvent, ValidEvent, EventFits, IsNext, HasTerminal;
  }

  lemma OnlyLastEnds(row: RunRow, stream: map<int, Event>, n: nat)
    requires GoodStream(row, stream, n)
    ensures n >= 1 && n !in stream && n - 1 in stream && (HasTerminal(stream) <==> Terminal(stream[n - 1].status))
  {
    hide NormalizeEvent, ValidEvent, Terminal;
  }

  lemma EventPathFits(e: Event)
    requires ValidEvent(e) && NormalizeEvent(e) == e
    ensures EventFits(e) <==> !HasTwoDots(e.resultManifestPath)
  {
    var path := e.resultManifestPath;
    TrimSpaceTrims(path);
    hide TrimSpace;
    if path != "" {
      assert path[0] != ' ';
    }
  }

  /** A valid run that is not there yet starts exactly when its experiment is known and no other run holds its attempt. */
  lemma StartsIffAttemptFree(db: Database, experiments: set<string>, registration: Registration)
    requires ValidRun(NormalizeRun(registration)) && NormalizeRun(registration).runId !in db.runs
    ensures var r := NormalizeRun(registration);
            ApplyStart(db, experiments, registration, None, RunLifecycle.NoFault).1 == Ok(Reply(0, false)) <==>
              r.experimentId in experiments && forall id :: id in db.runs ==> (db.runs[id].recordHash.experimentId, db.runs[id].recordHash.attempt) != (r.experimentId, r.attempt)
  {
    hide NormalizeRun, ValidRun;
  }

  /** No two runs of one experiment share an attempt. */
  ghost predicate AttemptsDiffer(db: Database)
  {
    forall a, b :: a in db.runs && b in db.runs && a != b ==>
      (db.runs[a].recordHash.experimentId, db.runs[a].recordHash.attempt) != (db.runs[b].recordHash.experimentId, db.runs[b].recordHash.attempt)
  }

  lemma {:induction false} AttemptsStayDifferent(states: seq<Database>, i: nat)
    requires History(states) && i < |states|
    ensures AttemptsDiffer(states[i])
  {
    hide AttemptsDiffer, Step;
    if i == 0 {
      NoAttempts();
    } else {
      AttemptsStayDifferent(states, i - 1);
      StepKeepsAttempts(states[i - 1], states[i]);
    }
  }

  lemma NoAttempts()
    ensures AttemptsDiffer(Database(map[], map[]))
  {
  }

  lemma StepKeepsAttempts(db: Database, after: Database)
    requires AttemptsDiffer(db) && Step(db, after)
    ensures AttemptsDiffer(after)
  {
    hide NormalizeRun, NormalizeEvent, ValidRun, ValidEvent, EventFits, IsNext, HasTerminal, Appends, AttemptsDiffer;
    if experiments, registration, claimed, fault :| after == ApplyStart(db, experiments, registration, claimed, fault).0 {
      StartKeepsAttempts(db, experiments, registration, claimed, fault);
    } else {
      var event, claimed, fault, reply :| Appends(db, event, claimed, fault, after, reply);
      if after != db {
        AppendChanges(db, event, claimed, fault, after, reply);
        SameRunsSameAttempts(db, after);
      }
    }
  }

  lemma SameRunsSameAttempts(db: Database, after: Database)
    requires AttemptsDiffer(db) && after.runs == db.runs
    ensures AttemptsDiffer(after)
  {
  }

  lemma StartKeepsAttempts(db: Database, experiments: set<string>, registration: Registration, claimed: Option<Registration>, fault: Fault)
    requires AttemptsDiffer(db)
    ensures AttemptsDiffer(ApplyStart(db, experiments, registration, claimed, fault).0)
  {
    hide NormalizeRun, ValidRun;
  }
}
