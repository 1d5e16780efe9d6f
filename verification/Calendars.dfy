/**
 Compiling source evidence into an explicit trading calendar: one session for every
 covered date, closed unless a rule opens it, and a manifest that accounts for all of them.
 */
module Calendars {
  import opened Wrappers
  import opened Instants
  import opened Sorting
  import opened Text
  import opened Patterns
  import Manifests

  const MAX_DAYS := 370

  // ---------- clocks and dates ----------

  /** HH:MM on a 24-hour clock. */
  predicate IsClock(s: string)
  {
    && |s| == 5 && s[2] == ':'
    && (('0' <= s[0] <= '1' && '0' <= s[1] <= '9') || (s[0] == '2' && '0' <= s[1] <= '3'))
    && '0' <= s[3] <= '5' && '0' <= s[4] <= '9'
  }

  function Minutes(s: string): int
    requires IsClock(s)
  {
    ((s[0] as int - 48) * 10 + (s[1] as int - 48)) * 60 + (s[3] as int - 48) * 10 + (s[4] as int - 48)
  }

  /** Comparing clock texts compares the times they show. */
  lemma ClockOrder(a: string, b: string)
    requires IsClock(a) && IsClock(b)
    ensures Less(a, b) <==> Minutes(a) < Minutes(b)
  {
    assert Less(a[4..], b[4..]) == (a[4] < b[4]);
    assert a[3..][1..] == a[4..] && b[3..][1..] == b[4..];
    assert a[2..][1..] == a[3..] && b[2..][1..] == b[3..];
    assert a[1..][1..] == a[2..] && b[1..][1..] == b[2..];
    assert Less(a[3..], b[3..]) == if a[3] != b[3] then a[3] < b[3] else a[4] < b[4];
    assert Less(a[2..], b[2..]) == Less(a[3..], b[3..]);
    assert Less(a[1..], b[1..]) == if a[1] != b[1] then a[1] < b[1] else Less(a[2..], b[2..]);
  }

  /** Dates are day ordinals; day zero was a Thursday. */
  predicate IsWeekend(day: int)
  {
    (day + 4) % 7 == 0 || (day + 4) % 7 == 6
  }

  /** An injective text for a date. */
  function DateText(day: int): string { Sprint(day) }

  /** A time zone's rule from (local day, minute of day) to instants. */
  type Location = (int, int) -> int

  method DaysInclusive(start: int, end: int) returns (count: nat)
    ensures count == if start <= end then end - start + 1 else 0
  {
    count := 0;
    var date := start;
    while date <= end
      invariant start <= date && count == date - start
      invariant if start <= end then date <= end + 1 else date == start
      decreases end - date
    {
      count := count + 1;
      date := date + 1;
    }
  }

  // ---------- inputs ----------

  datatype Event = Event(date: int, status: string, openLocal: string, closeLocal: string, sourceReference: string)

  datatype Definition = Definition(
    dataSourceId: string, mic: string, exchangeTimezone: string, calendarVersion: string, coverageStart: int, coverageEnd: int,
    regularOpenLocal: string, regularCloseLocal: string, availableAt: int, recordedAt: int, sourceReference: string,
    rawPayloadHash: string, revision: int, events: seq<Event>)

  datatype TradingSession = TradingSession(
    id: string, calendarVersion: string, mic: string, exchangeTimezone: string, sessionDate: string, sessionStatus: string,
    openAt: Option<int>, closeAt: Option<int>, isEarlyClose: bool, availableAt: int, sourceReference: string, recordedAt: int,
    dataSourceId: string, rawPayloadHash: string, revision: int)

  datatype CalendarManifest = CalendarManifest(
    id: string, calendarVersion: string, mic: string, exchangeTimezone: string, availableAt: int, sourceReference: string, recordedAt: int,
    dataSourceId: string, rawPayloadHash: string, sessionFingerprint: Fingerprint, sessionCount: int)

  datatype CalendarError = BadDefinition | DuplicateEvent(index: nat) | BadEvent(index: nat) | BadHours(day: int) | InvalidBatch

  // ---------- normalization and validation ----------

  function Upper(s: string): string
  {
    seq(|s|, i requires 0 <= i < |s| => if 'a' <= s[i] <= 'z' then (s[i] as int - 32) as char else s[i])
  }

  function Lower(s: string): string
  {
    seq(|s|, i requires 0 <= i < |s| => if 'A' <= s[i] <= 'Z' then (s[i] as int + 32) as char else s[i])
  }

  function Normalize(d: Definition): Definition
  {
    d.(dataSourceId := TrimSpace(d.dataSourceId), mic := Upper(TrimSpace(d.mic)), exchangeTimezone := TrimSpace(d.exchangeTimezone),
       calendarVersion := Lower(TrimSpace(d.calendarVersion)), regularOpenLocal := TrimSpace(d.regularOpenLocal),
       regularCloseLocal := TrimSpace(d.regularCloseLocal), availableAt := CanonicalTime(d.availableAt), recordedAt := CanonicalTime(d.recordedAt),
       sourceReference := TrimSpace(d.sourceReference), rawPayloadHash := TrimSpace(d.rawPayloadHash))
  }

  /** time.LoadLocation also takes the empty name, as UTC. */
  predicate LoadsLocation(zones: set<string>, name: string)
  {
    name == "" || name == "UTC" || name == "Local" || name in zones
  }

  predicate ValidDefinition(zones: set<string>, local: Location, d: Definition)
  {
    && Manifests.IsUuid(d.dataSourceId)
    && Utf8Length(d.mic) == 4
    && LoadsLocation(zones, d.exchangeTimezone)
    && IsName(d.calendarVersion)
    && local(d.coverageStart, 0) != ZERO_TIME && local(d.coverageEnd, 0) != ZERO_TIME && d.coverageStart <= d.coverageEnd
    && d.coverageEnd - d.coverageStart + 1 <= MAX_DAYS
    && IsClock(d.regularOpenLocal) && IsClock(d.regularCloseLocal) && Less(d.regularOpenLocal, d.regularCloseLocal)
    && d.availableAt != ZERO_TIME && d.availableAt <= d.recordedAt
    && d.sourceReference != ""
    && Utf8Length(d.rawPayloadHash) == 64
    && d.revision >= 0
  }

  // ---------- events by date ----------

  function Trimmed(e: Event): Event
  {
    e.(status := TrimSpace(e.status), openLocal := TrimSpace(e.openLocal), closeLocal := TrimSpace(e.closeLocal))
  }

  predicate ValidEvent(e: Event)
  {
    && e.status in {"closed", "open", "notice"}
    && (e.status != "open" ==> e.openLocal == "" && e.closeLocal == "")
    && (e.openLocal != "" ==> IsClock(e.openLocal))
    && (e.closeLocal != "" ==> IsClock(e.closeLocal))
  }

  predicate Covered(d: Definition, day: int) { d.coverageStart <= day <= d.coverageEnd }

  predicate EventsAccepted(d: Definition, n: nat)
    requires n <= |d.events|
  {
    && (forall i :: 0 <= i < n && Covered(d, d.events[i].date) ==> ValidEvent(Trimmed(d.events[i])))
    && (forall i, j :: 0 <= i < j < n && Covered(d, d.events[i].date) ==> d.events[i].date != d.events[j].date)
  }

  /** The event of a date, if any. */
  function EventOn(events: seq<Event>, day: int): (r: Option<Event>)
    ensures r.Some? ==> r.value in events && r.value.date == day
    ensures r.None? ==> forall e :: e in events ==> e.date != day
  {
    if events == [] then None
    else
      var front, last := events[..|events| - 1], events[|events| - 1];
      assert events == front + [last];
      if last.date == day then Some(last) else EventOn(front, day)
  }

  /** What the map of events holds after the first `n`. */
  ghost predicate Indexed(d: Definition, n: nat, events: map<int, Event>)
    requires n <= |d.events|
  {
    && (forall day :: day in events ==> Covered(d, day))
    && (forall day :: Covered(d, day) ==>
          if day in events then EventOn(d.events[..n], day).Some? && events[day] == Trimmed(EventOn(d.events[..n], day).value)
          else EventOn(d.events[..n], day).None?)
  }

  lemma IndexStep(d: Definition, i: nat, events: map<int, Event>)
    requires i < |d.events| && EventsAccepted(d, i) && Indexed(d, i, events)
    ensures var e := d.events[i];
            && (!Covered(d, e.date) ==> EventsAccepted(d, i + 1) && Indexed(d, i + 1, events))
            && (Covered(d, e.date) && e.date in events ==> !EventsAccepted(d, i + 1))
            && (Covered(d, e.date) && !ValidEvent(Trimmed(e)) ==> !EventsAccepted(d, i + 1))
            && (Covered(d, e.date) && e.date !in events && ValidEvent(Trimmed(e)) ==>
                  EventsAccepted(d, i + 1) && Indexed(d, i + 1, events[e.date := Trimmed(e)]))
  {
    var e := d.events[i];
    if Covered(d, e.date) {
      TakenIff(d, i, events, e.date);
    }
    IndexedStep(d, i, events);
    hide Trimmed, ValidEvent, EventOn, Indexed;
    AcceptStep(d, i);
  }

  lemma AcceptStep(d: Definition, i: nat)
    requires i < |d.events| && EventsAccepted(d, i)
    ensures EventsAccepted(d, i + 1) <==>
              (Covered(d, d.events[i].date) ==> ValidEvent(Trimmed(d.events[i])) && !exists k :: 0 <= k < i && d.events[k].date == d.events[i].date)
  {
    hide Trimmed, ValidEvent;
  }

  lemma IndexedStep(d: Definition, i: nat, events: map<int, Event>)
    requires i < |d.events| && Indexed(d, i, events)
    ensures Indexed(d, i + 1, if Covered(d, d.events[i].date) then events[d.events[i].date := Trimmed(d.events[i])] else events)
  {
    hide Trimmed, ValidEvent, EventOn;
    var e := d.events[i];
    forall day ensures EventOn(d.events[..i + 1], day) == if e.date == day then Some(e) else EventOn(d.events[..i], day) {
      EventOnStep(d.events, i, day);
    }
  }

  /** A covered date is in the map exactly when an earlier event has it. */
  lemma TakenIff(d: Definition, i: nat, events: map<int, Event>, day: int)
    requires i < |d.events| && Indexed(d, i, events) && Covered(d, day)
    ensures day in events <==> exists k :: 0 <= k < i && d.events[k].date == day
  {
    hide Trimmed;
    var e := EventOn(d.events[..i], day);
    if day in events {
      var k :| 0 <= k < i && d.events[k] == e.value;
    }
    if k :| 0 <= k < i && d.events[k].date == day {
      assert d.events[k] in d.events[..i];
    }
  }

  lemma EventOnStep(events: seq<Event>, i: nat, day: int)
    requires i < |events|
    ensures EventOn(events[..i + 1], day) == if events[i].date == day then Some(events[i]) else EventOn(events[..i], day)
  {
    assert events[..i + 1][..i] == events[..i] && events[..i + 1][i] == events[i];
  }

  method IndexEvents(d: Definition) returns (r: Result<map<int, Event>, CalendarError>)
    ensures r.Ok? <==> EventsAccepted(d, |d.events|)
    ensures r.Ok? ==> Indexed(d, |d.events|, r.value)
  {
    hide Trimmed, ValidEvent, EventOn;
    var events: map<int, Event> := map[];
    assert Indexed(d, 0, events) by {
      NothingIndexed(d);
    }
    for i := 0 to |d.events|
      invariant EventsAccepted(d, i) && Indexed(d, i, events)
    {
      hide Indexed;
      var event := d.events[i];
      IndexStep(d, i, events);
      if Covered(d, event.date) {
        if event.date in events {
          return Err(DuplicateEvent(i));
        }
        if !ValidEvent(Trimmed(event)) {
          return Err(BadEvent(i));
        }
        events := events[event.date := Trimmed(event)];
      }
    }
    return Ok(events);
  }

  lemma NothingIndexed(d: Definition)
    ensures Indexed(d, 0, map[])
  {
  }

  // ---------- one session ----------

  function DayEvent(d: Definition, day: int): Option<Event>
  {
    var e := EventOn(d.events, day);
    if e.None? then None else Some(Trimmed(e.value))
  }

  /** An open event opens any day and a closed one closes it; otherwise weekdays open and weekends do not. */
  predicate OpenOn(event: Option<Event>, day: int)
  {
    if event.Some? && event.value.status == "open" then true
    else if event.Some? && event.value.status == "closed" then false
    else !IsWeekend(day)
  }

  function OpensAt(d: Definition, event: Option<Event>): string
  {
    if event.Some? && event.value.openLocal != "" then event.value.openLocal else d.regularOpenLocal
  }

  function ClosesAt(d: Definition, event: Option<Event>): string
  {
    if event.Some? && event.value.closeLocal != "" then event.value.closeLocal else d.regularCloseLocal
  }

  function Reason(event: Option<Event>, day: int): string
  {
    var reason := if event.Some? then event.value.sourceReference else if IsWeekend(day) then "weekend_policy" else "regular_session";
    if TrimSpace(reason) == "" then "regular_session" else TrimSpace(reason)
  }

  predicate HoursGood(local: Location, d: Definition, event: Option<Event>, day: int)
  {
    OpenOn(event, day) ==>
      && IsClock(OpensAt(d, event)) && IsClock(ClosesAt(d, event))
      && local(day, Minutes(OpensAt(d, event))) < local(day, Minutes(ClosesAt(d, event)))
  }

  /** The row of one date. */
  function Session(local: Location, d: Definition, event: Option<Event>, day: int): TradingSession
    requires HoursGood(local, d, event, day)
  {
    var isOpen := OpenOn(event, day);
    TradingSession(
      Join(["calendar-session", d.dataSourceId, d.mic, d.calendarVersion, DateText(day), Sprint(d.revision)]),
      d.calendarVersion, d.mic, d.exchangeTimezone, DateText(day), if isOpen then "open" else "closed",
      if isOpen then Some(local(day, Minutes(OpensAt(d, event)))) else None,
      if isOpen then Some(local(day, Minutes(ClosesAt(d, event)))) else None,
      isOpen && Less(ClosesAt(d, event), d.regularCloseLocal),
      d.availableAt, d.sourceReference + "/date=" + DateText(day) + "/rule=" + Reason(event, day), d.recordedAt,
      d.dataSourceId, d.rawPayloadHash, d.revision)
  }

  // ---------- fingerprints ----------

  datatype FingerprintSession = FingerprintSession(
    mic: string, exchangeTimezone: string, sessionDate: string, sessionStatus: string, openAt: Option<int>, closeAt: Option<int>, isEarlyClose: bool)

  /** The SHA-256 of an encoded list, which it determines. */
  datatype Fingerprint = Fingerprint(canonical: seq<FingerprintSession>)

  function Canonical(r: TradingSession): FingerprintSession
  {
    FingerprintSession(r.mic, r.exchangeTimezone, r.sessionDate, r.sessionStatus, r.openAt, r.closeAt, r.isEarlyClose)
  }

  function InstantText(t: Option<int>): string { if t.None? then "<nil>" else Sprint(t.value) }

  /** The sort key; its separator is a byte below every byte of the fields. */
  function SortKey(r: FingerprintSession): string
  {
    Join([r.mic, r.exchangeTimezone, r.sessionDate, r.sessionStatus, InstantText(r.openAt), InstantText(r.closeAt), if r.isEarlyClose then "true" else "false"])
  }

  predicate KeyLess(a: FingerprintSession, b: FingerprintSession) { Less(SortKey(a), SortKey(b)) }

  function Canonicals(records: seq<TradingSession>): seq<FingerprintSession>
  {
    seq(|records|, i requires 0 <= i < |records| => Canonical(records[i]))
  }

  function SessionFingerprint(records: seq<TradingSession>): Fingerprint
  {
    Fingerprint(SortBy(KeyLess, Canonicals(records)))
  }

  predicate PlainSession(r: FingerprintSession)
  {
    Plain(r.mic) && Plain(r.exchangeTimezone) && Plain(r.sessionDate) && Plain(r.sessionStatus)
  }

  lemma InstantTextInjective(a: Option<int>, b: Option<int>)
    ensures Plain(InstantText(a))
    ensures InstantText(a) == InstantText(b) ==> a == b
  {
    if a.Some? {
      SprintPlain(a.value);
      SprintNatDigits(if a.value < 0 then -a.value else a.value);
    }
    if b.Some? {
      SprintNatDigits(if b.value < 0 then -b.value else b.value);
    }
    assert a.Some? ==> Sprint(a.value)[0] != '<';
    assert b.Some? ==> Sprint(b.value)[0] != '<';
    if a.Some? && b.Some? && Sprint(a.value) == Sprint(b.value) {
      SprintInjective(a.value, b.value);
    }
  }

  lemma SortKeyInjective(a: FingerprintSession, b: FingerprintSession)
    requires PlainSession(a) && PlainSession(b) && SortKey(a) == SortKey(b)
    ensures a == b
  {
    var x := [a.mic, a.exchangeTimezone, a.sessionDate, a.sessionStatus, InstantText(a.openAt), InstantText(a.closeAt), if a.isEarlyClose then "true" else "false"];
    var y := [b.mic, b.exchangeTimezone, b.sessionDate, b.sessionStatus, InstantText(b.openAt), InstantText(b.closeAt), if b.isEarlyClose then "true" else "false"];
    InstantTextInjective(a.openAt, b.openAt);
    InstantTextInjective(a.closeAt, b.closeAt);
    InstantTextInjective(b.openAt, a.openAt);
    InstantTextInjective(b.closeAt, a.closeAt);
    hide Join, InstantText;
    JoinInjective(x, y);
    assert x[0] == y[0] && x[1] == y[1] && x[2] == y[2] && x[3] == y[3] && x[4] == y[4] && x[5] == y[5] && x[6] == y[6];
  }

  lemma KeyOrder(records: seq<FingerprintSession>)
    requires forall i :: 0 <= i < |records| ==> PlainSession(records[i])
    ensures StrictTotal(KeyLess, set r | r in records)
  {
    hide SortKey, Less;
    var dom := set r | r in records;
    forall x, y, z | x in dom && y in dom && z in dom && Compared(x, y, z)
      ensures !(KeyLess(x, y) && KeyLess(y, x))
      ensures KeyLess(x, y) && KeyLess(y, z) ==> KeyLess(x, z)
      ensures !KeyLess(x, y) && !KeyLess(y, x) ==> x == y
    {
      LessTrichotomy(SortKey(x), SortKey(y));
      if KeyLess(x, y) && KeyLess(y, z) {
        LessTransitive(SortKey(x), SortKey(y), SortKey(z));
      }
      if SortKey(x) == SortKey(y) {
        SortKeyInjective(x, y);
      }
    }
  }

  /** The fingerprint depends on which sessions there are, not on their order, and on nothing else. */
  lemma FingerprintIffSameSessions(a: seq<TradingSession>, b: seq<TradingSession>)
    requires forall i :: 0 <= i < |a| ==> PlainSession(Canonical(a[i]))
    ensures SessionFingerprint(a) == SessionFingerprint(b) <==> multiset(Canonicals(a)) == multiset(Canonicals(b))
  {
    var x, y := Canonicals(a), Canonicals(b);
    SortByElements(KeyLess, x);
    SortByElements(KeyLess, y);
    if multiset(x) == multiset(y) {
      SameMembers(x, y);
      var dom := set r | r in x;
      KeyOrder(x);
      SortBySorted(KeyLess, x, dom);
      forall i | 0 <= i < |y| ensures y[i] in dom {
        assert y[i] in x;
      }
      SortBySorted(KeyLess, y, dom);
      SameMembers(SortBy(KeyLess, x), x);
      forall i | 0 <= i < |SortBy(KeyLess, x)| ensures SortBy(KeyLess, x)[i] in dom {
        assert SortBy(KeyLess, x)[i] in x;
      }
      SortedUnique(KeyLess, SortBy(KeyLess, x), SortBy(KeyLess, y), dom);
    }
  }

  lemma FingerprintOrderFree(a: seq<TradingSession>, b: seq<TradingSession>)
    requires multiset(a) == multiset(b) && forall i :: 0 <= i < |a| ==> PlainSession(Canonical(a[i]))
    ensures SessionFingerprint(a) == SessionFingerprint(b)
  {
    MapPermutes((r: TradingSession) => Canonical(r), a, b);
    assert Canonicals(a) == Map((r: TradingSession) => Canonical(r), a) && Canonicals(b) == Map((r: TradingSession) => Canonical(r), b);
    FingerprintIffSameSessions(a, b);
  }

  // ---------- the closing batch validation ----------

  predicate ValidCommon(id: string, dataSourceId: string, sourceReference: string, rawHash: string, revision: int, availableAt: int, recordedAt: int)
  {
    && TrimSpace(id) != "" && TrimSpace(dataSourceId) != "" && TrimSpace(sourceReference) != ""
    && Manifests.IsLowerHex(rawHash, 64)
    && revision >= 0
    && availableAt != ZERO_TIME && recordedAt != ZERO_TIME && availableAt <= recordedAt
  }

  predicate ValidCalendar(zones: set<string>, r: CalendarManifest)
  {
    && ValidCommon(r.id, r.dataSourceId, r.sourceReference, r.rawPayloadHash, 0, r.availableAt, r.recordedAt)
    && TrimSpace(r.calendarVersion) != "" && TrimSpace(r.mic) != "" && TrimSpace(r.exchangeTimezone) != ""
    && LoadsLocation(zones, r.exchangeTimezone)
    && r.sessionCount >= 0
  }

  predicate ValidSession(zones: set<string>, r: TradingSession)
  {
    && ValidCommon(r.id, r.dataSourceId, r.sourceReference, r.rawPayloadHash, r.revision, r.availableAt, r.recordedAt)
    && TrimSpace(r.calendarVersion) != "" && TrimSpace(r.mic) != "" && TrimSpace(r.exchangeTimezone) != "" && TrimSpace(r.sessionDate) != ""
    && LoadsLocation(zones, r.exchangeTimezone)
    && ValidStatus(r)
  }

  predicate ValidStatus(r: TradingSession)
  {
    if r.sessionStatus == "open" then r.openAt.Some? && r.closeAt.Some? && r.openAt.value < r.closeAt.value
    else r.sessionStatus == "closed" && r.openAt.None? && r.closeAt.None? && !r.isEarlyClose
  }

  type CalendarKey = (string, string, string)

  function KeyOfCalendar(r: CalendarManifest): CalendarKey { (r.dataSourceId, r.mic, r.calendarVersion) }

  function KeyOfSession(r: TradingSession): CalendarKey { (r.dataSourceId, r.mic, r.calendarVersion) }

  function SessionsOf(sessions: seq<TradingSession>, key: CalendarKey): seq<TradingSession>
  {
    if sessions == [] then []
    else SessionsOf(sessions[..|sessions| - 1], key) + if KeyOfSession(sessions[|sessions| - 1]) == key then [sessions[|sessions| - 1]] else []
  }

  predicate Accounted(calendar: CalendarManifest, sessions: seq<TradingSession>)
  {
    var records := SessionsOf(sessions, KeyOfCalendar(calendar));
    |records| == calendar.sessionCount && SessionFingerprint(records) == calendar.sessionFingerprint
  }

  predicate ValidBatch(zones: set<string>, calendars: seq<CalendarManifest>, sessions: seq<TradingSession>)
  {
    && (forall i :: 0 <= i < |calendars| ==> ValidCalendar(zones, calendars[i]))
    && (forall i, j :: 0 <= i < j < |calendars| ==> KeyOfCalendar(calendars[i]) != KeyOfCalendar(calendars[j]))
    && (forall i :: 0 <= i < |sessions| ==> ValidSession(zones, sessions[i]) && HasCalendar(calendars, sessions[i]))
    && (forall i :: 0 <= i < |calendars| ==> Accounted(calendars[i], sessions))
  }

  predicate HasCalendar(calendars: seq<CalendarManifest>, r: TradingSession)
  {
    exists i :: 0 <= i < |calendars| && KeyOfCalendar(calendars[i]) == KeyOfSession(r) && calendars[i].exchangeTimezone == r.exchangeTimezone
  }

  method IndexCalendars(zones: set<string>, calendars: seq<CalendarManifest>) returns (ok: bool, byKey: map<CalendarKey, CalendarManifest>)
    ensures ok <==> (forall i :: 0 <= i < |calendars| ==> ValidCalendar(zones, calendars[i])) &&
                    (forall i, j :: 0 <= i < j < |calendars| ==> KeyOfCalendar(calendars[i]) != KeyOfCalendar(calendars[j]))
    ensures ok ==> forall i :: 0 <= i < |calendars| ==> KeyOfCalendar(calendars[i]) in byKey && byKey[KeyOfCalendar(calendars[i])] == calendars[i]
    ensures ok ==> forall key :: key in byKey ==> exists i :: 0 <= i < |calendars| && calendars[i] == byKey[key] && KeyOfCalendar(calendars[i]) == key
  {
    hide ValidCalendar;
    byKey := map[];
    for i := 0 to |calendars|
      invariant forall k :: 0 <= k < i ==> ValidCalendar(zones, calendars[k])
      invariant forall k, l :: 0 <= k < l < i ==> KeyOfCalendar(calendars[k]) != KeyOfCalendar(calendars[l])
      invariant forall k :: 0 <= k < i ==> KeyOfCalendar(calendars[k]) in byKey && byKey[KeyOfCalendar(calendars[k])] == calendars[k]
      invariant forall key :: key in byKey ==> exists k :: 0 <= k < i && calendars[k] == byKey[key] && KeyOfCalendar(calendars[k]) == key
    {
      if !ValidCalendar(zones, calendars[i]) || KeyOfCalendar(calendars[i]) in byKey {
        return false, byKey;
      }
      byKey := byKey[KeyOfCalendar(calendars[i]) := calendars[i]];
    }
    return true, byKey;
  }

  method ValidateBatch(zones: set<string>, calendars: seq<CalendarManifest>, sessions: seq<TradingSession>) returns (ok: bool)
    ensures ok <==> ValidBatch(zones, calendars, sessions)
  {
    hide ValidCalendar, ValidSession, Accounted;
    var byKey;
    ok, byKey := IndexCalendars(zones, calendars);
    if !ok {
      return false;
    }
    for i := 0 to |sessions|
      invariant forall k :: 0 <= k < i ==> ValidSession(zones, sessions[k]) && HasCalendar(calendars, sessions[k])
    {
      var key := KeyOfSession(sessions[i]);
      if !ValidSession(zones, sessions[i]) || key !in byKey || byKey[key].exchangeTimezone != sessions[i].exchangeTimezone {
        return false;
      }
      assert HasCalendar(calendars, sessions[i]);
    }
    for i := 0 to |calendars|
      invariant forall k :: 0 <= k < i ==> Accounted(calendars[k], sessions)
    {
      if !Accounted(calendars[i], sessions) {
        return false;
      }
    }
    return true;
  }

  // ---------- the compiled calendar ----------

  predicate AllHoursGood(local: Location, d: Definition)
  {
    forall day :: d.coverageStart <= day <= d.coverageEnd ==> HoursGood(local, d, DayEvent(d, day), day)
  }

  /** The sessions of every covered date, in date order. */
  function Sessions(local: Location, d: Definition, n: nat): (r: seq<TradingSession>)
    requires n <= d.coverageEnd - d.coverageStart + 1 && AllHoursGood(local, d)
    ensures |r| == n
  {
    if n == 0 then []
    else
      var day := d.coverageStart + n - 1;
      Sessions(local, d, n - 1) + [Session(local, d, DayEvent(d, day), day)]
  }

  function ManifestOf(d: Definition, sessions: seq<TradingSession>): CalendarManifest
  {
    CalendarManifest(
      Join(["calendar-manifest", d.dataSourceId, d.mic, d.calendarVersion]), d.calendarVersion, d.mic, d.exchangeTimezone, d.availableAt,
      d.sourceReference, d.recordedAt, d.dataSourceId, d.rawPayloadHash, SessionFingerprint(sessions), |sessions|)
  }

  /** What a definition must satisfy before its sessions are put together. */
  predicate Compilable(zones: set<string>, local: Location, d: Definition)
  {
    ValidDefinition(zones, local, d) && EventsAccepted(d, |d.events|) && AllHoursGood(local, d)
  }

  function AllSessions(local: Location, d: Definition): seq<TradingSession>
    requires d.coverageStart <= d.coverageEnd && AllHoursGood(local, d)
  {
    Sessions(local, d, d.coverageEnd - d.coverageStart + 1)
  }

  method BuildSessions(local: Location, d: Definition, events: map<int, Event>) returns (r: Result<seq<TradingSession>, CalendarError>)
    requires d.coverageStart <= d.coverageEnd && IsClock(d.regularOpenLocal) && IsClock(d.regularCloseLocal)
    requires forall day :: Covered(d, day) ==> DayEvent(d, day) == if day in events then Some(events[day]) else None
    ensures r.Ok? <==> AllHoursGood(local, d)
    ensures r.Ok? ==> r.value == AllSessions(local, d)
  {
    hide Session, DayEvent, HoursGood;
    var sessions: seq<TradingSession> := [];
    var date := d.coverageStart;
    while date <= d.coverageEnd
      invariant d.coverageStart <= date <= d.coverageEnd + 1 && |sessions| == date - d.coverageStart
      invariant forall day :: d.coverageStart <= day < date ==> HoursGood(local, d, DayEvent(d, day), day)
      invariant AllHoursGood(local, d) ==> sessions == Sessions(local, d, date - d.coverageStart)
      decreases d.coverageEnd - date
    {
      var event := if date in events then Some(events[date]) else None;
      if !HoursGood(local, d, event, date) {
        assert !HoursGood(local, d, DayEvent(d, date), date);
        return Err(BadHours(date));
      }
      sessions := sessions + [Session(local, d, event, date)];
      date := date + 1;
    }
    return Ok(sessions);
  }

  lemma IndexedAreDayEvents(d: Definition, events: map<int, Event>)
    requires Indexed(d, |d.events|, events)
    ensures forall day :: Covered(d, day) ==> DayEvent(d, day) == if day in events then Some(events[day]) else None
  {
    assert d.events[..|d.events|] == d.events;
    hide Trimmed;
  }

  method Compile(zones: set<string>, local: Location, definition: Definition) returns (r: Result<(CalendarManifest, seq<TradingSession>), CalendarError>)
    ensures var d := Normalize(definition);
            && (r.Ok? <==> Compilable(zones, local, d) && ValidBatch(zones, [ManifestOf(d, AllSessions(local, d))], AllSessions(local, d)))
            && (r.Ok? ==> r.value == (ManifestOf(d, AllSessions(local, d)), AllSessions(local, d)))
  {
    var d := Normalize(definition);
    if !ValidDefinition(zones, local, d) {
      return Err(BadDefinition);
    }
    var events := IndexEvents(d);
    if events.Err? {
      return Err(events.error);
    }
    assert d.events[..|d.events|] == d.events;
    IndexedAreDayEvents(d, events.value);
    hide Normalize, EventOn, ValidBatch, ManifestOf, AllSessions, AllHoursGood, Trimmed, ValidEvent, DayEvent, Indexed;
    var sessions := BuildSessions(local, d, events.value);
    if sessions.Err? {
      return Err(sessions.error);
    }
    var manifest := ManifestOf(d, sessions.value);
    var ok := ValidateBatch(zones, [manifest], sessions.value);
    return if ok then Ok((manifest, sessions.value)) else Err(InvalidBatch);
  }

  // ---------- what a calendar says ----------

  lemma {:induction false} SessionAt(local: Location, d: Definition, n: nat, k: nat)
    requires n <= d.coverageEnd - d.coverageStart + 1 && AllHoursGood(local, d) && k < n
    ensures HoursGood(local, d, DayEvent(d, d.coverageStart + k), d.coverageStart + k)
    ensures Sessions(local, d, n)[k] == Session(local, d, DayEvent(d, d.coverageStart + k), d.coverageStart + k)
    decreases n
  {
    hide Session, DayEvent, HoursGood;
    if k < n - 1 {
      SessionAt(local, d, n - 1, k);
    }
  }

  /** The status, hours and early close that a row must show. */
  predicate SessionSays(local: Location, d: Definition, event: Option<Event>, day: int, s: TradingSession)
    requires HoursGood(local, d, event, day)
  {
    && s.sessionDate == DateText(day)
    && (s.sessionStatus == "open" <==> if event.Some? && event.value.status != "notice" then event.value.status == "open" else !IsWeekend(day))
    && (s.sessionStatus == "open" <==> OpenOn(event, day))
    && (s.sessionStatus == "open" ==>
          && s.openAt == Some(local(day, Minutes(OpensAt(d, event)))) && s.closeAt == Some(local(day, Minutes(ClosesAt(d, event))))
          && s.openAt.value < s.closeAt.value
          && (s.isEarlyClose <==> IsClock(d.regularCloseLocal) && Minutes(ClosesAt(d, event)) < Minutes(d.regularCloseLocal)))
    && (s.sessionStatus != "open" ==> s.sessionStatus == "closed" && s.openAt.None? && s.closeAt.None? && !s.isEarlyClose)
  }

  lemma SessionIsSo(local: Location, d: Definition, event: Option<Event>, day: int)
    requires HoursGood(local, d, event, day) && IsClock(d.regularCloseLocal) && (event.Some? ==> ValidEvent(event.value))
    ensures SessionSays(local, d, event, day, Session(local, d, event, day))
  {
    hide Join, Sprint, TrimSpace, Reason;
    if OpenOn(event, day) {
      ClockOrder(ClosesAt(d, event), d.regularCloseLocal);
    }
    hide IsClock, Minutes, Less, OpensAt, ClosesAt;
  }

  /** The row at place `k` is the row of the `k`-th covered date. */
  predicate ShowsDate(local: Location, d: Definition, sessions: seq<TradingSession>, k: nat)
  {
    var day := d.coverageStart + k;
    k < |sessions| && HoursGood(local, d, DayEvent(d, day), day) && SessionSays(local, d, DayEvent(d, day), day, sessions[k])
  }

  /** Exactly one session per covered date, ascending, open and closed as the event or the weekday says, closing early by the clock. */
  lemma OneSessionPerDate(zones: set<string>, local: Location, d: Definition)
    requires Compilable(zones, local, d)
    ensures |AllSessions(local, d)| == d.coverageEnd - d.coverageStart + 1
    ensures forall k :: 0 <= k < |AllSessions(local, d)| ==> ShowsDate(local, d, AllSessions(local, d), k)
  {
    var n := d.coverageEnd - d.coverageStart + 1;
    hide DayEvent, EventsAccepted, Session, SessionSays, AllHoursGood, Sessions, HoursGood, ValidEvent, IsName, Less, IsClock, LoadsLocation;
    forall k | 0 <= k < n ensures ShowsDate(local, d, AllSessions(local, d), k) {
      SessionAt(local, d, n, k);
      CoveredEventValid(d, d.coverageStart + k);
      SessionIsSo(local, d, DayEvent(d, d.coverageStart + k), d.coverageStart + k);
    }
  }

  lemma CoveredEventValid(d: Definition, day: int)
    requires EventsAccepted(d, |d.events|) && Covered(d, day)
    ensures DayEvent(d, day).Some? ==> ValidEvent(DayEvent(d, day).value)
  {
    hide Trimmed, ValidEvent;
    var e := EventOn(d.events, day);
    if e.Some? {
      var i :| 0 <= i < |d.events| && d.events[i] == e.value;
    }
  }

  lemma SessionFields(local: Location, d: Definition, event: Option<Event>, day: int)
    requires HoursGood(local, d, event, day)
    ensures var s := Session(local, d, event, day);
            && s.id == Join(["calendar-session", d.dataSourceId, d.mic, d.calendarVersion, DateText(day), Sprint(d.revision)])
            && s.calendarVersion == d.calendarVersion && s.mic == d.mic && s.exchangeTimezone == d.exchangeTimezone
            && s.sessionDate == DateText(day) && s.dataSourceId == d.dataSourceId && s.rawPayloadHash == d.rawPayloadHash
            && s.sourceReference == d.sourceReference + "/date=" + DateText(day) + "/rule=" + Reason(event, day)
            && s.availableAt == d.availableAt && s.recordedAt == d.recordedAt && s.revision == d.revision
            && ValidStatus(s)
  {
    hide Join, Sprint, Reason, Less, OpensAt, ClosesAt, IsClock;
  }

  /** No date is listed twice. */
  lemma SessionsDistinct(zones: set<string>, local: Location, d: Definition, k: nat, l: nat)
    requires Compilable(zones, local, d) && k < l < |AllSessions(local, d)|
    ensures AllSessions(local, d)[k].sessionDate != AllSessions(local, d)[l].sessionDate
  {
    hide DayEvent, ValidDefinition, EventsAccepted, Sessions, Session, HoursGood, AllHoursGood, Sprint;
    SessionAt(local, d, d.coverageEnd - d.coverageStart + 1, k);
    SessionAt(local, d, d.coverageEnd - d.coverageStart + 1, l);
    SessionFields(local, d, DayEvent(d, d.coverageStart + k), d.coverageStart + k);
    SessionFields(local, d, DayEvent(d, d.coverageStart + l), d.coverageStart + l);
    if DateText(d.coverageStart + k) == DateText(d.coverageStart + l) {
      SprintInjective(d.coverageStart + k, d.coverageStart + l);
    }
  }

  // ---------- event order ----------

  predicate OnePerDate(events: seq<Event>, day: int)
  {
    forall i, j :: 0 <= i < j < |events| && events[i].date == day ==> events[j].date != day
  }

  lemma PermutedEventOn(a: seq<Event>, b: seq<Event>, day: int)
    requires multiset(a) == multiset(b) && OnePerDate(a, day)
    ensures EventOn(a, day) == EventOn(b, day)
  {
    SameMembers(a, b);
    if EventOn(a, day).Some? && EventOn(b, day).Some? {
      var x, y := EventOn(a, day).value, EventOn(b, day).value;
      assert y in a;
      var i :| 0 <= i < |a| && a[i] == x;
      var j :| 0 <= j < |a| && a[j] == y;
    }
  }

  lemma OnePerDatePermutes(a: seq<Event>, b: seq<Event>, day: int)
    requires multiset(a) == multiset(b) && OnePerDate(a, day)
    ensures OnePerDate(b, day)
  {
    forall i, j | 0 <= i < j < |b| && b[i].date == day ensures b[j].date != day {
      var k, l := TwoPlaces(a, b, i, j);
    }
  }

  /** Handing over the events in another order changes neither whether a calendar compiles nor what it says. */
  lemma EventOrderIrrelevant(zones: set<string>, local: Location, d: Definition, events: seq<Event>)
    requires multiset(events) == multiset(d.events) && Compilable(zones, local, d)
    ensures Compilable(zones, local, d.(events := events))
    ensures AllSessions(local, d.(events := events)) == AllSessions(local, d)
  {
    hide Session, Sessions, DayEvent, EventsAccepted, AllHoursGood, HoursGood;
    var p := d.(events := events);
    PermutedEventsAccepted(d, events);
    SameDaysSameSessions(local, d, p, d.coverageEnd - d.coverageStart + 1);
  }

  lemma PermutedEventsAccepted(d: Definition, events: seq<Event>)
    requires multiset(events) == multiset(d.events) && EventsAccepted(d, |d.events|)
    ensures |events| == |d.events| && EventsAccepted(d.(events := events), |events|)
    ensures forall day :: Covered(d, day) ==> DayEvent(d.(events := events), day) == DayEvent(d, day)
  {
    hide Trimmed, ValidEvent;
    var p := d.(events := events);
    SameMembers(events, d.events);
    assert |multiset(events)| == |multiset(d.events)|;
    forall i | 0 <= i < |events| && Covered(d, events[i].date) ensures ValidEvent(Trimmed(events[i])) {
      assert events[i] in d.events;
      var k :| 0 <= k < |d.events| && d.events[k] == events[i];
    }
    forall day | Covered(d, day) ensures OnePerDate(events, day) && DayEvent(p, day) == DayEvent(d, day) {
      assert OnePerDate(d.events, day);
      OnePerDatePermutes(d.events, events, day);
      PermutedEventOn(d.events, events, day);
    }
    forall i, j | 0 <= i < j < |events| && Covered(p, events[i].date) ensures events[i].date != events[j].date {
      assert OnePerDate(events, events[i].date);
    }
  }

  /** A row looks at the event list only through the event of its date. */
  lemma RowIgnoresOtherEvents(local: Location, d: Definition, p: Definition, event: Option<Event>, day: int)
    requires p == d.(events := p.events)
    ensures HoursGood(local, p, event, day) <==> HoursGood(local, d, event, day)
    ensures HoursGood(local, d, event, day) ==> Session(local, p, event, day) == Session(local, d, event, day)
  {
    hide Join, Sprint, Reason, OpenOn, IsClock, Less, Minutes;
  }

  lemma {:induction false} SameDaysSameSessions(local: Location, d: Definition, p: Definition, n: nat)
    requires p == d.(events := p.events) && n <= d.coverageEnd - d.coverageStart + 1
    requires forall day :: Covered(d, day) ==> DayEvent(p, day) == DayEvent(d, day)
    requires AllHoursGood(local, d)
    ensures AllHoursGood(local, p)
    ensures Sessions(local, p, n) == Sessions(local, d, n)
  {
    hide DayEvent, Session, HoursGood;
    forall day | Covered(d, day) ensures HoursGood(local, p, DayEvent(p, day), day) {
      RowIgnoresOtherEvents(local, d, p, DayEvent(d, day), day);
    }
    if n > 0 {
      SameDaysSameSessions(local, d, p, n - 1);
      var day := d.coverageStart + n - 1;
      assert Covered(d, day);
      RowIgnoresOtherEvents(local, d, p, DayEvent(d, day), day);
    }
  }

  // ---------- when the closing validation can fail ----------

  lemma NonBlank(s: string, i: nat)
    requires i < |s| && !IsSpace(s[i])
    ensures TrimSpace(s) != ""
  {
    BlankIff(s);
  }

  lemma {:induction false} OwnSessions(sessions: seq<TradingSession>, key: CalendarKey)
    requires forall i :: 0 <= i < |sessions| ==> KeyOfSession(sessions[i]) == key
    ensures SessionsOf(sessions, key) == sessions
    decreases |sessions|
  {
    if sessions != [] {
      OwnSessions(sessions[..|sessions| - 1], key);
    }
  }

  /** What the definition checks settle about the fields that every compiled row copies. */
  lemma CompiledCommon(zones: set<string>, local: Location, d: Definition, definition: Definition)
    requires d == Normalize(definition) && ValidDefinition(zones, local, d)
    ensures TrimSpace(d.dataSourceId) != "" && TrimSpace(d.sourceReference) != "" && TrimSpace(d.calendarVersion) != ""
    ensures TrimSpace(d.mic) != "" && (TrimSpace(d.exchangeTimezone) != "" <==> d.exchangeTimezone != "")
    ensures d.availableAt != ZERO_TIME && d.availableAt <= d.recordedAt && d.revision >= 0 && LoadsLocation(zones, d.exchangeTimezone)
  {
    hide IsName, IsClock, Less, Manifests.IsUuid;
    TrimSpaceTrims(definition.sourceReference);
    TrimSpaceTrims(definition.exchangeTimezone);
    FirstCharacters(d);
    TrimSpaceTrims(definition.mic);
    var m := TrimSpace(definition.mic);
    assert m != "" && !IsSpace(m[0]) by {
      assert Upper("") == "" && Utf8Length("") == 0;
    }
    assert !IsSpace(Upper(m)[0]);
    NonBlank(d.mic, 0);
  }

  lemma FirstCharacters(d: Definition)
    requires Manifests.IsUuid(d.dataSourceId) && IsName(d.calendarVersion)
    ensures TrimSpace(d.dataSourceId) != "" && TrimSpace(d.calendarVersion) != ""
  {
    assert Manifests.IsHex(d.dataSourceId[0]);
    NonBlank(d.dataSourceId, 0);
    NonBlank(d.calendarVersion, 0);
  }

  predicate ClosingCondition(d: Definition)
  {
    Manifests.IsLowerHex(d.rawPayloadHash, 64) && d.exchangeTimezone != "" && d.recordedAt != ZERO_TIME
  }

  lemma CommonIff(id: string, dataSourceId: string, sourceReference: string, rawHash: string, revision: int, availableAt: int, recordedAt: int)
    requires TrimSpace(id) != "" && TrimSpace(dataSourceId) != "" && TrimSpace(sourceReference) != ""
    requires revision >= 0 && availableAt != ZERO_TIME && availableAt <= recordedAt
    ensures ValidCommon(id, dataSourceId, sourceReference, rawHash, revision, availableAt, recordedAt) <==>
              Manifests.IsLowerHex(rawHash, 64) && recordedAt != ZERO_TIME
  {
    hide TrimSpace, Manifests.IsLowerHex;
  }

  lemma CompiledReference(d: Definition, event: Option<Event>, day: int)
    requires TrimSpace(d.sourceReference) != ""
    ensures TrimSpace(d.sourceReference + "/date=" + DateText(day) + "/rule=" + Reason(event, day)) != ""
  {
    hide TrimSpace, Reason, Sprint;
    var rest := "/date=" + DateText(day) + "/rule=" + Reason(event, day);
    SuffixNonBlank(d.sourceReference, rest);
    assert d.sourceReference + "/date=" + DateText(day) + "/rule=" + Reason(event, day) == d.sourceReference + rest;
  }

  lemma CompiledSessionValid(zones: set<string>, local: Location, d: Definition, definition: Definition, event: Option<Event>, day: int)
    requires d == Normalize(definition) && ValidDefinition(zones, local, d) && HoursGood(local, d, event, day)
    ensures ValidSession(zones, Session(local, d, event, day)) <==> ClosingCondition(d)
  {
    CompiledCommon(zones, local, d, definition);
    SessionFields(local, d, event, day);
    CompiledTexts(d, event, day);
    CompiledReference(d, event, day);
    hide TrimSpace, Join, DateText, Sprint, Normalize, Reason, HoursGood, Session, ValidStatus, ValidDefinition, LoadsLocation, ValidCommon, Manifests.IsLowerHex;
    var s := Session(local, d, event, day);
    CommonIff(s.id, s.dataSourceId, s.sourceReference, s.rawPayloadHash, s.revision, s.availableAt, s.recordedAt);
  }

  lemma CompiledTexts(d: Definition, event: Option<Event>, day: int)
    ensures TrimSpace(Join(["calendar-session", d.dataSourceId, d.mic, d.calendarVersion, DateText(day), Sprint(d.revision)])) != ""
    ensures TrimSpace(Join(["calendar-manifest", d.dataSourceId, d.mic, d.calendarVersion])) != ""
    ensures TrimSpace(DateText(day)) != ""
  {
    JoinStarts("calendar-session", [d.dataSourceId, d.mic, d.calendarVersion, DateText(day), Sprint(d.revision)]);
    JoinStarts("calendar-manifest", [d.dataSourceId, d.mic, d.calendarVersion]);
    NonBlank(Join(["calendar-session", d.dataSourceId, d.mic, d.calendarVersion, DateText(day), Sprint(d.revision)]), 0);
    NonBlank(Join(["calendar-manifest", d.dataSourceId, d.mic, d.calendarVersion]), 0);
    SprintNatDigits(if day < 0 then -day else day);
    NonBlank(DateText(day), 0);
  }

  lemma JoinStarts(head: string, rest: seq<string>)
    requires |rest| > 0
    ensures Join([head] + rest) == head + [UNIT_SEPARATOR] + Join(rest)
  {
    assert ([head] + rest)[1..] == rest;
  }

  lemma SuffixNonBlank(s: string, t: string)
    requires TrimSpace(s) != ""
    ensures TrimSpace(s + t) != ""
  {
    BlankIff(s);
    BlankIff(s + t);
    var i :| 0 <= i < |s| && !IsSpace(s[i]);
    assert !IsSpace((s + t)[i]);
  }

  lemma {:induction false} SessionsAreOwn(local: Location, d: Definition, n: nat)
    requires n <= d.coverageEnd - d.coverageStart + 1 && AllHoursGood(local, d)
    ensures forall i :: 0 <= i < n ==> KeyOfSession(Sessions(local, d, n)[i]) == (d.dataSourceId, d.mic, d.calendarVersion) &&
                                       Sessions(local, d, n)[i].exchangeTimezone == d.exchangeTimezone
  {
    hide DayEvent, Session, HoursGood;
    if n > 0 {
      SessionsAreOwn(local, d, n - 1);
      SessionFields(local, d, DayEvent(d, d.coverageStart + n - 1), d.coverageStart + n - 1);
    }
  }

  lemma OneCalendarBatch(zones: set<string>, calendar: CalendarManifest, sessions: seq<TradingSession>, good: bool)
    requires sessions != [] && Accounted(calendar, sessions)
    requires ValidCalendar(zones, calendar) <==> good
    requires forall i :: 0 <= i < |sessions| ==> (ValidSession(zones, sessions[i]) <==> good)
    requires forall i :: 0 <= i < |sessions| ==> KeyOfCalendar(calendar) == KeyOfSession(sessions[i]) && calendar.exchangeTimezone == sessions[i].exchangeTimezone
    ensures ValidBatch(zones, [calendar], sessions) <==> good
  {
    hide Accounted, ValidCalendar, ValidSession;
    forall i | 0 <= i < |sessions| ensures HasCalendar([calendar], sessions[i]) {
      assert [calendar][0] == calendar;
    }
    assert [calendar][0] == calendar;
  }

  lemma ManifestAccounts(d: Definition, sessions: seq<TradingSession>)
    requires forall i :: 0 <= i < |sessions| ==> KeyOfSession(sessions[i]) == (d.dataSourceId, d.mic, d.calendarVersion)
    ensures Accounted(ManifestOf(d, sessions), sessions)
    ensures KeyOfCalendar(ManifestOf(d, sessions)) == (d.dataSourceId, d.mic, d.calendarVersion) && ManifestOf(d, sessions).exchangeTimezone == d.exchangeTimezone
  {
    OwnSessions(sessions, (d.dataSourceId, d.mic, d.calendarVersion));
    hide SessionFingerprint, Join;
  }

  /**
   The validation that closes a compilation accepts its own rows exactly when the
   payload hash is lowercase hexadecimal, the time zone is named and the recording
   time is set; the definition checks let all three slip.
   */
  lemma ClosingValidationIff(zones: set<string>, local: Location, d: Definition, definition: Definition)
    requires d == Normalize(definition) && Compilable(zones, local, d)
    ensures ValidBatch(zones, [ManifestOf(d, AllSessions(local, d))], AllSessions(local, d)) <==> ClosingCondition(d)
  {
    hide DayEvent, Session, HoursGood, Sessions, ValidSession, ValidCalendar, Normalize, EventsAccepted, AllHoursGood, ClosingCondition,
         ManifestOf, Accounted, KeyOfSession, KeyOfCalendar, ValidBatch, IsClock, Less, IsName, LoadsLocation, Manifests.IsUuid;
    var n, sessions := d.coverageEnd - d.coverageStart + 1, AllSessions(local, d);
    SessionsAreOwn(local, d, n);
    ManifestAccounts(d, sessions);
    forall i | 0 <= i < n ensures ValidSession(zones, sessions[i]) <==> ClosingCondition(d) {
      SessionAt(local, d, n, i);
      CompiledSessionValid(zones, local, d, definition, DayEvent(d, d.coverageStart + i), d.coverageStart + i);
    }
    CompiledCalendarValid(zones, local, d, definition, sessions);
    OneCalendarBatch(zones, ManifestOf(d, sessions), sessions, ClosingCondition(d));
  }

  lemma CompiledCalendarValid(zones: set<string>, local: Location, d: Definition, definition: Definition, sessions: seq<TradingSession>)
    requires d == Normalize(definition) && ValidDefinition(zones, local, d)
    ensures ValidCalendar(zones, ManifestOf(d, sessions)) <==> ClosingCondition(d)
  {
    CompiledCommon(zones, local, d, definition);
    CompiledTexts(d, None, 0);
    hide TrimSpace, Join, Sprint, Normalize, SessionFingerprint, ValidDefinition, LoadsLocation, Manifests.IsLowerHex;
  }

  // ---------- a compiled Sunday ----------

  function Repeated(c: char, n: nat): (s: string)
    ensures |s| == n
  {
    seq(n, i => c)
  }

  /** A zone that keeps universal time. */
  function Universal(): Location { (day: int, minute: int) => (day * 1440 + minute) * 60_000_000_000 }

  /** One covered Sunday without events, its payload hash 64 times one character. */
  function Sunday(c: char): Definition
  {
    Definition(Manifests.NilUuid(), "BVMF", "UTC", "v1", 3, 3, "10:00", "17:00", 0, 0, "source", Repeated(c, 64), 0, [])
  }

  lemma SundayIsNormal(c: char)
    requires !IsSpace(c)
    ensures Normalize(Sunday(c)) == Sunday(c)
  {
    var d := Sunday(c);
    TrimmedAlready(d.dataSourceId);
    TrimmedAlready(d.mic);
    TrimmedAlready(d.exchangeTimezone);
    TrimmedAlready(d.calendarVersion);
    TrimmedAlready(d.regularOpenLocal);
    TrimmedAlready(d.regularCloseLocal);
    TrimmedAlready(d.sourceReference);
    TrimmedAlready(d.rawPayloadHash);
    assert Upper("BVMF") == "BVMF" && Lower("v1") == "v1";
  }

  lemma TenBeforeFive()
    ensures IsClock("10:00") && IsClock("17:00") && Less("10:00", "17:00")
  {
    ClockOrder("10:00", "17:00");
  }

  /**
   The Sunday compiles exactly when its hash is of single bytes, but closes only when
   it is hexadecimal in lower case: not with 'A', for one.
   */
  lemma SundayClosesIff(c: char)
    requires !IsSpace(c)
    ensures var d := Normalize(Sunday(c));
            && (Compilable({}, Universal(), d) <==> ByteLength(c) == 1)
            && (Compilable({}, Universal(), d) ==>
                  (ValidBatch({}, [ManifestOf(d, AllSessions(Universal(), d))], AllSessions(Universal(), d)) <==> Manifests.IsHex(c)))
    ensures !IsSpace('A') && ByteLength('A') == 1 && !Manifests.IsHex('A')
  {
    var d := Sunday(c);
    SundayIsNormal(c);
    TenBeforeFive();
    EveryByteLength(d.rawPayloadHash, ByteLength(c));
    EveryByteLength("BVMF", 1);
    assert ValidDefinition({}, Universal(), d) <==> ByteLength(c) == 1 by {
      hide IsClock, Less, Manifests.IsUuid, Utf8Length, ByteLength;
    }
    assert AllHoursGood(Universal(), d);
    hide Normalize, Sunday, ValidBatch, ManifestOf, AllSessions, IsClock, Less, Utf8Length;
    if ByteLength(c) == 1 {
      ClosingValidationIff({}, Universal(), d, Sunday(c));
      assert Manifests.IsHex(c) <==> Manifests.IsLowerHex(d.rawPayloadHash, 64) by {
        assert d.rawPayloadHash[0] == c;
      }
    }
  }
}
