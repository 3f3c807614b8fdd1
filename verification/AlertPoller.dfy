/**
  Admission of alert events: deduplication and the decision journal
  (ai-agents/ops_agent/alert_poller.py).

  Severity and status are taken after lower-casing.  The Prometheus answer is
  an input: None means the server was unreachable.
*/
module AlertPoller {
  import opened Prelude

  datatype Severity = Critical | Warning | OtherSeverity
  datatype AlertStatus = Firing | Resolved | OtherStatus

  datatype AlertEvent = AlertEvent(fp: string, alertname: string, instance: string, severity: Severity, status: AlertStatus)

  type LiveAlerts = Option<set<(string, string)>>

  datatype JournalRow = JournalRow(fp: string, decision: string, ref: string)

  /** `_seen` and `_journal_keys`, and the rows written so far. */
  datatype State = State(seen: map<string, string>, keys: map<string, string>, journal: seq<JournalRow>)

  /** A stored RCA task as seeding sees it; `active` means pending, claimed, running or awaiting approval. */
  datatype StoredTask = StoredTask(fp: string, active: bool)

  const MAX_PER_CYCLE := 2

  function SeenKey(fp: string): string { fp + ":firing" }

  // ---------------------------------------------------------------- the journal

  function JournalKey(decision: string, ref: string): string { decision + ":" + ref }

  function JournalOnce(s: State, row: JournalRow): State {
    var key := JournalKey(row.decision, row.ref);
    if row.fp != "" && row.fp in s.keys && s.keys[row.fp] == key then s
    else s.(keys := if row.fp != "" then s.keys[row.fp := key] else s.keys, journal := s.journal + [row])
  }

  function JournalRun(s: State, requests: seq<JournalRow>): State {
    if requests == [] then s else JournalOnce(JournalRun(s, requests[..|requests| - 1]), requests[|requests| - 1])
  }

  function RowsFor(rows: seq<JournalRow>, fp: string): seq<JournalRow> {
    if rows == [] then [] else
    RowsFor(rows[..|rows| - 1], fp) + if rows[|rows| - 1].fp == fp then [rows[|rows| - 1]] else []
  }

  /** Consecutive repeats removed. */
  function Destutter(rows: seq<JournalRow>): seq<JournalRow> {
    if rows == [] then [] else
    var n := |rows| - 1;
    if n > 0 && rows[n - 1] == rows[n] then Destutter(rows[..n]) else Destutter(rows[..n]) + [rows[n]]
  }

  predicate ColonFree(s: string) {
    ':' !in s
  }

  /** Decision names contain no colon, so the key determines both parts. */
  lemma JournalKeyInjective(d1: string, r1: string, d2: string, r2: string)
    requires ColonFree(d1) && ColonFree(d2)
    ensures JournalKey(d1, r1) == JournalKey(d2, r2) <==> d1 == d2 && r1 == r2
  {
    if JournalKey(d1, r1) == JournalKey(d2, r2) {
      var k := JournalKey(d1, r1);
      assert k[|d1|] == ':' && k[|d2|] == ':';
      assert forall i :: 0 <= i < |d1| ==> k[i] == d1[i];
      assert forall i :: 0 <= i < |d2| ==> k[i] == d2[i];
      assert |d1| == |d2|;
      assert d1 == k[..|d1|] == d2;
      assert r1 == k[|d1| + 1..] == r2;
    }
  }

  lemma RowsForAppend(rows: seq<JournalRow>, row: JournalRow, fp: string)
    ensures RowsFor(rows + [row], fp) == RowsFor(rows, fp) + if row.fp == fp then [row] else []
  {
    assert (rows + [row])[..|rows|] == rows;
  }

  lemma {:induction false} RowsForMembers(rows: seq<JournalRow>, fp: string)
    ensures forall r :: r in RowsFor(rows, fp) ==> r in rows && r.fp == fp
    decreases |rows|
  {
    if rows != [] { RowsForMembers(rows[..|rows| - 1], fp); }
  }

  /** What the journal and its last key show of one fingerprint, given the requests made for it. */
  ghost predicate JournalMatches(s: State, asked: seq<JournalRow>, fp: string) {
    && RowsFor(s.journal, fp) == (if fp != "" then Destutter(asked) else asked)
    && (fp in s.keys <==> fp != "" && asked != [])
    && (fp in s.keys && asked != [] ==> s.keys[fp] == JournalKey(asked[|asked| - 1].decision, asked[|asked| - 1].ref))
  }

  lemma DestutterAppend(asked: seq<JournalRow>, row: JournalRow)
    ensures Destutter(asked + [row]) ==
            if asked != [] && asked[|asked| - 1] == row then Destutter(asked) else Destutter(asked) + [row]
  {
    var more := asked + [row];
    assert more[..|more| - 1] == asked && more[|more| - 1] == row;
    if asked != [] {
      assert more[|more| - 2] == asked[|asked| - 1];
    }
  }

  /** A request with the key of the fingerprint's last one is a repeat of it. */
  lemma RepeatIffSameKey(asked: seq<JournalRow>, row: JournalRow, fp: string)
    requires asked != [] && ColonFree(row.decision) && row.fp == fp
    requires forall r :: r in asked ==> r.fp == fp && ColonFree(r.decision)
    ensures var last := asked[|asked| - 1];
            last == row <==> JournalKey(last.decision, last.ref) == JournalKey(row.decision, row.ref)
  {
    var last := asked[|asked| - 1];
    assert last in asked;
    JournalKeyInjective(last.decision, last.ref, row.decision, row.ref);
  }

  lemma OwnRequestMatches(s: State, asked: seq<JournalRow>, row: JournalRow, fp: string)
    requires JournalMatches(s, asked, fp) && ColonFree(row.decision) && row.fp == fp
    requires forall r :: r in asked ==> r.fp == fp && ColonFree(r.decision)
    ensures JournalMatches(JournalOnce(s, row), asked + [row], fp)
  {
    RowsForAppend(s.journal, row, fp);
    DestutterAppend(asked, row);
    if asked != [] {
      RepeatIffSameKey(asked, row, fp);
    }
    var more := asked + [row];
    assert more[|more| - 1] == row;
  }

  lemma OtherRequestMatches(s: State, asked: seq<JournalRow>, row: JournalRow, fp: string)
    requires JournalMatches(s, asked, fp) && row.fp != fp
    ensures JournalMatches(JournalOnce(s, row), asked, fp)
  {
    RowsForAppend(s.journal, row, fp);
    assert RowsFor(s.journal, fp) + [] == RowsFor(s.journal, fp);
  }

  /** Over any run, the rows written for a fingerprint are the requests for it without consecutive repeats;
      events without a fingerprint are always written. */
  lemma {:induction false} JournalIsDestuttered(requests: seq<JournalRow>, fp: string)
    requires forall i :: 0 <= i < |requests| ==> ColonFree(requests[i].decision)
    ensures var s, asked := JournalRun(State(map[], map[], []), requests), RowsFor(requests, fp);
            && JournalMatches(s, asked, fp)
            && RowsFor(s.journal, fp) == (if fp != "" then Destutter(asked) else asked)
    decreases |requests|
  {
    if requests != [] {
      var n := |requests| - 1;
      var before, asked, row := JournalRun(State(map[], map[], []), requests[..n]), RowsFor(requests[..n], fp), requests[n];
      JournalIsDestuttered(requests[..n], fp);
      RowsForMembers(requests[..n], fp);
      if row.fp == fp {
        OwnRequestMatches(before, asked, row, fp);
      } else {
        OtherRequestMatches(before, asked, row, fp);
        assert asked + [] == asked;
      }
    }
  }

  // ---------------------------------------------------------------- classification

  predicate Investigated(severity: Severity) { severity.Critical? || severity.Warning? }

  predicate StillFiring(e: AlertEvent, live: LiveAlerts) {
    e.alertname != "" &&
    (live.None? || exists a :: a in live.value && a.0 == e.alertname && (e.instance == "" || e.instance == a.1))
  }

  predicate Deduplicated(s: State, fp: string) {
    fp in s.seen && s.seen[fp] == SeenKey(fp)
  }

  /** `_classify_event` returns the event. */
  predicate Accepts(s: State, e: AlertEvent, live: LiveAlerts) {
    e.fp != "" && Investigated(e.severity) && e.status.Firing? && !Deduplicated(s, e.fp) && StillFiring(e, live)
  }

  function Classify(s: State, e: AlertEvent, live: LiveAlerts): State {
    if e.fp == "" then s
    else if !Investigated(e.severity) then JournalOnce(s, JournalRow(e.fp, "severity_filtered", ""))
    else if e.status.Resolved? then JournalOnce(s.(seen := s.seen - {e.fp}), JournalRow(e.fp, "resolved_cleared", ""))
    else if !e.status.Firing? then s
    else if Deduplicated(s, e.fp) then JournalOnce(s, JournalRow(e.fp, "deduplicated", ""))
    else if !StillFiring(e, live) then
      JournalOnce(s.(seen := s.seen[e.fp := SeenKey(e.fp)]), JournalRow(e.fp, "not_firing", ""))
    else s.(seen := s.seen[e.fp := SeenKey(e.fp)])
  }

  /** Prometheus still reports the alert, on its instance if it names one, or cannot be asked; nameless alerts never count. */
  ghost predicate Live(e: AlertEvent, live: LiveAlerts) {
    && e.alertname != ""
    && (live.Some? ==> if e.instance == "" then exists a :: a in live.value && a.0 == e.alertname
                       else (e.alertname, e.instance) in live.value)
  }

  /** The event is journaled under `decision` and not accepted; `seen` is what is marked afterwards. */
  predicate Declined(s: State, e: AlertEvent, live: LiveAlerts, decision: string, seen: map<string, string>) {
    !Accepts(s, e, live) && Classify(s, e, live) == JournalOnce(s.(seen := seen), JournalRow(e.fp, decision, ""))
  }

  /** The verdict on every kind of event with a fingerprint. */
  lemma EventIsDecided(s: State, e: AlertEvent, live: LiveAlerts)
    requires e.fp != ""
    ensures var marked := s.seen[e.fp := e.fp + ":firing"];
            var known := e.fp in s.seen && s.seen[e.fp] == e.fp + ":firing";
            if e.severity.OtherSeverity? then Declined(s, e, live, "severity_filtered", s.seen)
            else match e.status
            case Resolved => Declined(s, e, live, "resolved_cleared", s.seen - {e.fp})
            case OtherStatus => !Accepts(s, e, live) && Classify(s, e, live) == s
            case Firing =>
              && (known ==> Declined(s, e, live, "deduplicated", s.seen))
              && (!known && !Live(e, live) ==> Declined(s, e, live, "not_firing", marked))
              && (!known && Live(e, live) ==> Accepts(s, e, live) && Classify(s, e, live) == s.(seen := marked))
  {
    if e.instance != "" && live.Some? {
      assert (exists a :: a in live.value && a.0 == e.alertname && e.instance == a.1) <==> (e.alertname, e.instance) in live.value by {
        assert (e.alertname, e.instance).0 == e.alertname && (e.alertname, e.instance).1 == e.instance;
      }
    }
  }

  function Seed(seen: map<string, string>, tasks: seq<StoredTask>): map<string, string> {
    if tasks == [] then seen else
    var t := tasks[|tasks| - 1];
    var before := Seed(seen, tasks[..|tasks| - 1]);
    if t.fp != "" && t.active then before[t.fp := SeenKey(t.fp)] else before
  }

  lemma {:induction false} SeedAdds(seen: map<string, string>, tasks: seq<StoredTask>)
    ensures forall fp :: Seeded(tasks, fp) ==> fp in Seed(seen, tasks) && Seed(seen, tasks)[fp] == SeenKey(fp)
    ensures forall fp :: !Seeded(tasks, fp) ==>
              (fp in Seed(seen, tasks) <==> fp in seen) && (fp in seen ==> Seed(seen, tasks)[fp] == seen[fp])
    decreases |tasks|
  {
    if tasks != [] {
      var front, t := tasks[..|tasks| - 1], tasks[|tasks| - 1];
      SeedAdds(seen, front);
      assert forall fp :: Seeded(tasks, fp) <==> Seeded(front, fp) || (t.fp == fp != "" && t.active) by {
        assert tasks == front + [t];
      }
    }
  }

  predicate Seeded(tasks: seq<StoredTask>, fp: string) {
    fp != "" && StoredTask(fp, true) in tasks
  }

  datatype Op =
    | ClassifyEvent(event: AlertEvent, live: LiveAlerts)
    | ResetSeen(tasks: seq<StoredTask>)
    | Correlated(fp: string)

  /** `Correlated` is `_investigate` folding an alert into running work, which marks it seen. */
  function Step(s: State, op: Op): State {
    match op
    case ClassifyEvent(e, live) => Classify(s, e, live)
    case ResetSeen(tasks) => s.(seen := Seed(map[], tasks))
    case Correlated(fp) => s.(seen := s.seen[fp := SeenKey(fp)])
  }

  function Run(s: State, ops: seq<Op>): State {
    if ops == [] then s else Step(Run(s, ops[..|ops| - 1]), ops[|ops| - 1])
  }

  /** The operations that make a fingerprint eligible again. */
  predicate Clears(op: Op, fp: string) {
    match op
    case ClassifyEvent(e, _) => e.fp == fp && Investigated(e.severity) && e.status.Resolved?
    case ResetSeen(tasks) => !Seeded(tasks, fp)
    case Correlated(_) => false
  }

  predicate AcceptsAt(s: State, ops: seq<Op>, i: nat, fp: string)
    requires i < |ops|
  {
    ops[i].ClassifyEvent? && ops[i].event.fp == fp && Accepts(Run(s, ops[..i]), ops[i].event, ops[i].live)
  }

  /** One step forgets a seen fingerprint exactly when it clears it. */
  lemma ForgetsIffClears(s: State, op: Op, fp: string)
    requires Deduplicated(s, fp) && fp != ""
    ensures !Deduplicated(Step(s, op), fp) <==> Clears(op, fp)
  {
    if op.ResetSeen? { SeedAdds(map[], op.tasks); }
  }

  lemma {:induction false} SeenUntilCleared(s: State, ops: seq<Op>, i: nat, j: nat, fp: string)
    requires i < j <= |ops| && fp != ""
    requires Deduplicated(Run(s, ops[..i + 1]), fp)
    requires forall k :: i < k < j ==> !Clears(ops[k], fp)
    ensures Deduplicated(Run(s, ops[..j]), fp)
    decreases j
  {
    if j > i + 1 {
      SeenUntilCleared(s, ops, i, j - 1, fp);
      assert ops[..j][..j - 1] == ops[..j - 1];
      ForgetsIffClears(Run(s, ops[..j - 1]), ops[j - 1], fp);
    }
  }

  /** Between two acceptances of a fingerprint something cleared it: a resolved event of an investigated severity,
      or a reset that did not seed it again. */
  lemma AcceptedAgainOnlyIfCleared(s: State, ops: seq<Op>, i: nat, j: nat, fp: string)
    requires i < j < |ops| && AcceptsAt(s, ops, i, fp) && AcceptsAt(s, ops, j, fp)
    ensures exists k :: i < k < j && Clears(ops[k], fp)
  {
    assert ops[..i + 1][..i] == ops[..i];
    if forall k :: i < k < j ==> !Clears(ops[k], fp) {
      SeenUntilCleared(s, ops, i, j, fp);
    }
  }

  /** The operations that mark a fingerprint as seen. */
  predicate Marks(op: Op, fp: string) {
    match op
    case ClassifyEvent(e, _) => e.fp == fp && Investigated(e.severity) && e.status.Firing?
    case ResetSeen(tasks) => Seeded(tasks, fp)
    case Correlated(f) => f == fp
  }

  lemma UnseenUnlessMarked(s: State, op: Op, fp: string)
    requires !Deduplicated(s, fp) && !Marks(op, fp) && fp != ""
    ensures !Deduplicated(Step(s, op), fp)
  {
    if op.ResetSeen? { SeedAdds(map[], op.tasks); }
  }

  lemma {:induction false} UnseenUntilMarked(s: State, ops: seq<Op>, fp: string)
    requires !Deduplicated(s, fp) && fp != ""
    requires forall i :: 0 <= i < |ops| ==> !Marks(ops[i], fp)
    ensures !Deduplicated(Run(s, ops), fp)
    decreases |ops|
  {
    if ops != [] {
      UnseenUntilMarked(s, ops[..|ops| - 1], fp);
      UnseenUnlessMarked(Run(s, ops[..|ops| - 1]), ops[|ops| - 1], fp);
    }
  }

  /** The first firing event of an unseen fingerprint is accepted, whatever happened to others, if the alert is live and investigated. */
  lemma FirstFiringIsAccepted(s: State, ops: seq<Op>, e: AlertEvent, live: LiveAlerts)
    requires e.fp != "" && !Deduplicated(s, e.fp)
    requires forall i :: 0 <= i < |ops| ==> !Marks(ops[i], e.fp)
    requires !e.severity.OtherSeverity? && e.status.Firing? && Live(e, live)
    ensures Accepts(Run(s, ops), e, live)
  {
    UnseenUntilMarked(s, ops, e.fp);
    EventIsDecided(Run(s, ops), e, live);
  }

  // ---------------------------------------------------------------- one poll cycle

  /** The most recent event of a fingerprint. */
  function Latest(events: seq<AlertEvent>, fp: string): Option<AlertEvent> {
    if events == [] then None
    else if events[|events| - 1].fp == fp then Some(events[|events| - 1])
    else Latest(events[..|events| - 1], fp)
  }

  /** What the dict built by `_poll_once` holds: one entry per non-empty fingerprint, its latest event. */
  ghost predicate IsDeduped(raw: seq<AlertEvent>, order: seq<string>, latest: map<string, AlertEvent>) {
    && NoDuplicates(order)
    && (forall fp :: fp in order <==> fp in latest)
    && HoldsLatest(raw, latest)
    && InOrderOfAppearance(raw, order)
  }

  ghost predicate HoldsLatest(raw: seq<AlertEvent>, latest: map<string, AlertEvent>) {
    && (forall fp :: fp in latest <==> fp != "" && Latest(raw, fp).Some?)
    && (forall fp :: fp in latest ==> Latest(raw, fp) == Some(latest[fp]))
    && (forall fp :: fp in latest ==> latest[fp].fp == fp)
  }

  /** The position of the first event of a fingerprint, the length when there is none. */
  function FirstOf(events: seq<AlertEvent>, fp: string): (i: nat)
    ensures i <= |events|
    ensures forall j | 0 <= j < i :: events[j].fp != fp
    ensures i < |events| ==> events[i].fp == fp
  {
    if events == [] then 0
    else
      var last := |events| - 1;
      var i := FirstOf(events[..last], fp);
      if i < last || events[last].fp == fp then i else last + 1
  }

  ghost predicate InOrderOfAppearance(raw: seq<AlertEvent>, order: seq<string>) {
    && (forall i | 0 <= i < |order| :: FirstOf(raw, order[i]) < |raw|)
    && (forall i, j | 0 <= i < j < |order| :: FirstOf(raw, order[i]) < FirstOf(raw, order[j]))
  }

  lemma FirstOfLonger(raw: seq<AlertEvent>, e: AlertEvent, fp: string)
    ensures FirstOf(raw + [e], fp) == if FirstOf(raw, fp) < |raw| || e.fp == fp then FirstOf(raw, fp) else |raw| + 1
  {
    assert (raw + [e])[..|raw|] == raw;
  }

  lemma NoneBefore(raw: seq<AlertEvent>, fp: string)
    ensures Latest(raw, fp).None? <==> FirstOf(raw, fp) == |raw|
  {
  }

  /** The order after one more event. */
  function Appeared(order: seq<string>, fp: string): seq<string> {
    if fp != "" && fp !in order then order + [fp] else order
  }

  lemma AppearsLast(raw: seq<AlertEvent>, e: AlertEvent, order: seq<string>)
    requires InOrderOfAppearance(raw, order) && (e.fp !in order ==> FirstOf(raw, e.fp) == |raw| || e.fp == "")
    ensures InOrderOfAppearance(raw + [e], Appeared(order, e.fp))
  {
    var more := Appeared(order, e.fp);
    forall i | 0 <= i < |more|
      ensures FirstOf(raw + [e], more[i]) == if i < |order| then FirstOf(raw, order[i]) else |raw|
    {
      FirstOfLonger(raw, e, more[i]);
    }
  }

  lemma DedupedStep(raw: seq<AlertEvent>, e: AlertEvent, order: seq<string>, latest: map<string, AlertEvent>)
    requires IsDeduped(raw, order, latest)
    ensures IsDeduped(raw + [e], Appeared(order, e.fp), if e.fp != "" then latest[e.fp := e] else latest)
  {
    NoneBefore(raw, e.fp);
    AppearsLast(raw, e, order);
    LatestStep(raw, e, latest);
    assert forall fp :: fp in Appeared(order, e.fp) <==> fp in order || (fp == e.fp && fp != "");
  }

  lemma LatestStep(raw: seq<AlertEvent>, e: AlertEvent, latest: map<string, AlertEvent>)
    requires HoldsLatest(raw, latest)
    ensures HoldsLatest(raw + [e], if e.fp != "" then latest[e.fp := e] else latest)
  {
    assert (raw + [e])[..|raw|] == raw;
  }

  predicate Skipped(e: AlertEvent, criticalOnly: bool) {
    criticalOnly && !e.severity.Critical?
  }

  /** Classify in order until `cap` events are accepted: the state, the accepted events, and how many were looked at. */
  function Sweep(s: State, events: seq<AlertEvent>, live: LiveAlerts, criticalOnly: bool,
                 cap: nat): (State, seq<AlertEvent>, nat)
    decreases |events|
  {
    if events == [] || cap == 0 then (s, [], 0)
    else if Skipped(events[0], criticalOnly) then
      var (s', work, n) := Sweep(s, events[1..], live, criticalOnly, cap);
      (s', work, n + 1)
    else
      var accepted := Accepts(s, events[0], live);
      var (s', work, n) := Sweep(Classify(s, events[0], live), events[1..], live, criticalOnly, if accepted then cap - 1 else cap);
      (s', (if accepted then [events[0]] else []) + work, n + 1)
  }

  /** The state belonging to one fingerprint. */
  predicate SameFor(s: State, s': State, fp: string) {
    && (fp in s.seen <==> fp in s'.seen) && (fp in s.seen ==> s.seen[fp] == s'.seen[fp])
    && (fp in s.keys <==> fp in s'.keys) && (fp in s.keys ==> s.keys[fp] == s'.keys[fp])
  }

  ghost predicate NotAmong(events: seq<AlertEvent>, n: nat, fp: string)
    requires n <= |events|
  {
    forall i :: 0 <= i < n ==> events[i].fp != fp
  }

  lemma ClassifyTouchesOwn(s: State, e: AlertEvent, live: LiveAlerts, fp: string)
    requires e.fp != fp
    ensures SameFor(s, Classify(s, e, live), fp)
  {
  }

  /** A sweep accepts at most `cap` events, stops early only at the cap, and touches no fingerprint it did not look at. */
  lemma {:induction false} SweepRespectsCap(s: State, events: seq<AlertEvent>, live: LiveAlerts, criticalOnly: bool,
                                            cap: nat, fp: string)
    ensures var (s', work, n) := Sweep(s, events, live, criticalOnly, cap);
            && |work| <= cap && n <= |events|
            && (n < |events| ==> |work| == cap)
            && (NotAmong(events, n, fp) ==> SameFor(s, s', fp))
    decreases |events|
  {
    if events != [] && cap > 0 {
      var skipped := Skipped(events[0], criticalOnly);
      var s1 := if skipped then s else Classify(s, events[0], live);
      var cap1 := if !skipped && Accepts(s, events[0], live) then cap - 1 else cap;
      SweepRespectsCap(s1, events[1..], live, criticalOnly, cap1, fp);
      var (s', work, n) := Sweep(s1, events[1..], live, criticalOnly, cap1);
      if NotAmong(events, n + 1, fp) {
        assert forall i :: 0 <= i < n ==> events[1..][i] == events[i + 1];
        assert events[0].fp != fp;
        ClassifyTouchesOwn(s, events[0], live, fp);
      }
    }
  }

  /** The events that state `s` would accept, in order. */
  function Acceptable(s: State, events: seq<AlertEvent>, live: LiveAlerts, criticalOnly: bool): seq<AlertEvent> {
    if events == [] then []
    else (if !Skipped(events[0], criticalOnly) && Accepts(s, events[0], live) then [events[0]] else [])
         + Acceptable(s, events[1..], live, criticalOnly)
  }

  lemma {:induction false} AcceptableAlike(s: State, s': State, events: seq<AlertEvent>, live: LiveAlerts, criticalOnly: bool)
    requires forall i :: 0 <= i < |events| ==> SameFor(s, s', events[i].fp)
    ensures Acceptable(s, events, live, criticalOnly) == Acceptable(s', events, live, criticalOnly)
    decreases |events|
  {
    if events != [] {
      assert SameFor(s, s', events[0].fp);
      AcceptableAlike(s, s', events[1..], live, criticalOnly);
    }
  }

  /** A cycle's work is exactly what was acceptable at its start among the events it looked at, in order. */
  lemma {:induction false} SweepAcceptsExactly(s: State, events: seq<AlertEvent>, live: LiveAlerts, criticalOnly: bool, cap: nat)
    requires forall i, j :: 0 <= i < j < |events| ==> events[i].fp != events[j].fp
    ensures var (_, work, n) := Sweep(s, events, live, criticalOnly, cap);
            n <= |events| && work == Acceptable(s, events[..n], live, criticalOnly)
    decreases |events|
  {
    SweepRespectsCap(s, events, live, criticalOnly, cap, "");
    if events != [] && cap > 0 {
      var skipped := Skipped(events[0], criticalOnly);
      var s1 := if skipped then s else Classify(s, events[0], live);
      var cap1 := if !skipped && Accepts(s, events[0], live) then cap - 1 else cap;
      SweepAcceptsExactly(s1, events[1..], live, criticalOnly, cap1);
      var n := Sweep(s1, events[1..], live, criticalOnly, cap1).2;
      assert events[..n + 1][1..] == events[1..][..n];
      forall i | 0 <= i < |events[1..][..n]|
        ensures SameFor(s, s1, events[1..][..n][i].fp)
      {
        assert events[1..][..n][i] == events[i + 1];
        if !skipped { ClassifyTouchesOwn(s, events[0], live, events[i + 1].fp); }
      }
      AcceptableAlike(s, s1, events[1..][..n], live, criticalOnly);
    }
  }

  /** Events past the cap of a cycle stay exactly as eligible as they were. */
  lemma BeyondCapStaysEligible(s: State, events: seq<AlertEvent>, live: LiveAlerts, later: LiveAlerts,
                               criticalOnly: bool, cap: nat, k: nat)
    requires forall i, j :: 0 <= i < j < |events| ==> events[i].fp != events[j].fp
    requires Sweep(s, events, live, criticalOnly, cap).2 <= k < |events|
    ensures var s' := Sweep(s, events, live, criticalOnly, cap).0;
            && SameFor(s, s', events[k].fp)
            && (Accepts(s', events[k], later) <==> Accepts(s, events[k], later))
  {
    SweepRespectsCap(s, events, live, criticalOnly, cap, events[k].fp);
  }

  /** A sweep that has accepted `work` and has the events from `i` on before it ends as the whole sweep does. */
  ghost predicate OnTrack(total: (State, seq<AlertEvent>, nat), s: State, events: seq<AlertEvent>, i: nat, live: LiveAlerts,
                          criticalOnly: bool, work: seq<AlertEvent>, cap: nat)
    requires i <= |events| && |work| <= cap
  {
    var rest := Sweep(s, events[i..], live, criticalOnly, cap - |work|);
    total.0 == rest.0 && total.1 == work + rest.1
  }

  /** One iteration of the classification loop. */
  lemma StaysOnTrack(total: (State, seq<AlertEvent>, nat), s: State, events: seq<AlertEvent>, i: nat, live: LiveAlerts,
                     criticalOnly: bool, work: seq<AlertEvent>, cap: nat)
    requires i < |events| && |work| < cap
    requires OnTrack(total, s, events, i, live, criticalOnly, work, cap)
    ensures var e := events[i];
            if Skipped(e, criticalOnly) then OnTrack(total, s, events, i + 1, live, criticalOnly, work, cap)
            else OnTrack(total, Classify(s, e, live), events, i + 1, live, criticalOnly,
                         if Accepts(s, e, live) then work + [e] else work, cap)
  {
    assert events[i..][1..] == events[i + 1..];
  }

  lemma EndsOnTrack(total: (State, seq<AlertEvent>, nat), s: State, events: seq<AlertEvent>, i: nat, live: LiveAlerts,
                    criticalOnly: bool, work: seq<AlertEvent>, cap: nat)
    requires i <= |events| && |work| <= cap && (i == |events| || |work| == cap)
    requires OnTrack(total, s, events, i, live, criticalOnly, work, cap)
    ensures total.0 == s && total.1 == work
  {
  }

  class AlertPoller {
    var seen: map<string, string>
    var journalKeys: map<string, string>
    var journal: seq<JournalRow>

    function Contents(): State
      reads this
    {
      State(seen, journalKeys, journal)
    }

    constructor (tasks: seq<StoredTask>)
      ensures Contents() == State(Seed(map[], tasks), map[], [])
    {
      seen, journalKeys, journal := map[], map[], [];
      new;
      SeedSeenFromStore(tasks);
    }

    method SeedSeenFromStore(tasks: seq<StoredTask>)
      modifies this`seen
      ensures seen == Seed(old(seen), tasks)
    {
      for i := 0 to |tasks|
        invariant seen == Seed(old(seen), tasks[..i])
      {
        assert tasks[..i + 1][..i] == tasks[..i];
        if tasks[i].fp != "" && tasks[i].active {
          seen := seen[tasks[i].fp := SeenKey(tasks[i].fp)];
        }
      }
      assert tasks[..|tasks|] == tasks;
    }

    method ResetSeen(tasks: seq<StoredTask>) returns (n: nat)
      modifies this`seen
      ensures Contents() == Step(old(Contents()), Op.ResetSeen(tasks)) && n == |seen|
    {
      seen := map[];
      SeedSeenFromStore(tasks);
      n := |seen|;
    }

    method RecordOnce(row: JournalRow)
      modifies this`journalKeys, this`journal
      ensures Contents() == JournalOnce(old(Contents()), row)
    {
      var key := row.decision + ":" + row.ref;
      if row.fp != "" && row.fp in journalKeys && journalKeys[row.fp] == key { return; }
      if row.fp != "" {
        journalKeys := journalKeys[row.fp := key];
      }
      journal := journal + [row];
    }

    method ClassifyEvent(e: AlertEvent, live: LiveAlerts) returns (accepted: bool)
      modifies this
      ensures Contents() == Classify(old(Contents()), e, live)
      ensures accepted == Accepts(old(Contents()), e, live)
    {
      if e.fp == "" { return false; }
      if !Investigated(e.severity) {
        RecordOnce(JournalRow(e.fp, "severity_filtered", ""));
        return false;
      }
      if e.status.Resolved? {
        seen := seen - {e.fp};
        RecordOnce(JournalRow(e.fp, "resolved_cleared", ""));
        return false;
      }
      if !e.status.Firing? { return false; }
      var seenKey := e.fp + ":firing";
      if e.fp in seen && seen[e.fp] == seenKey {
        RecordOnce(JournalRow(e.fp, "deduplicated", ""));
        return false;
      }
      if !StillFiring(e, live) {
        seen := seen[e.fp := seenKey];
        RecordOnce(JournalRow(e.fp, "not_firing", ""));
        return false;
      }
      seen := seen[e.fp := seenKey];
      return true;
    }

    /** The dict built by `_poll_once`: a later event of a fingerprint overwrites the earlier one in its place. */
    static method LatestPerFingerprint(raw: seq<AlertEvent>) returns (order: seq<string>, latest: map<string, AlertEvent>)
      ensures IsDeduped(raw, order, latest)
    {
      order, latest := [], map[];
      for i := 0 to |raw|
        invariant IsDeduped(raw[..i], order, latest)
      {
        assert raw[..i + 1] == raw[..i] + [raw[i]];
        DedupedStep(raw[..i], raw[i], order, latest);
        var fp := raw[i].fp;
        if fp != "" {
          if fp !in latest { order := order + [fp]; }
          latest := latest[fp := raw[i]];
        }
      }
      assert raw[..|raw|] == raw;
    }

    /** The classification loop of `_poll_once`. */
    method ClassifyUntilCap(events: seq<AlertEvent>, live: LiveAlerts,
                            criticalOnly: bool) returns (newWork: seq<AlertEvent>)
      modifies this
      ensures var (s, work, _) := Sweep(old(Contents()), events, live, criticalOnly, MAX_PER_CYCLE);
              Contents() == s && newWork == work
    {
      newWork := [];
      var i := 0;
      ghost var total := Sweep(Contents(), events, live, criticalOnly, MAX_PER_CYCLE);
      assert events[0..] == events;
      while i < |events| && |newWork| < MAX_PER_CYCLE
        invariant 0 <= i <= |events| && |newWork| <= MAX_PER_CYCLE
        invariant OnTrack(total, Contents(), events, i, live, criticalOnly, newWork, MAX_PER_CYCLE)
      {
        StaysOnTrack(total, Contents(), events, i, live, criticalOnly, newWork, MAX_PER_CYCLE);
        var e := events[i];
        i := i + 1;
        if criticalOnly && !e.severity.Critical? { continue; }
        var accepted := ClassifyEvent(e, live);
        if accepted {
          newWork := newWork + [e];
        }
      }
      EndsOnTrack(total, Contents(), events, i, live, criticalOnly, newWork, MAX_PER_CYCLE);
    }

    /** One cycle: keep the latest event per fingerprint, then classify until `MAX_PER_CYCLE` are accepted. */
    method PollOnce(raw: seq<AlertEvent>, live: LiveAlerts, criticalOnly: bool)
      returns (newWork: seq<AlertEvent>, ghost order: seq<string>, ghost latest: map<string, AlertEvent>)
      modifies this
      ensures IsDeduped(raw, order, latest)
      ensures var (s, work, _) := Sweep(old(Contents()), InOrder(order, latest), live, criticalOnly, MAX_PER_CYCLE);
              Contents() == s && newWork == work
      ensures var events := InOrder(order, latest);
              forall i, j :: 0 <= i < j < |events| ==> events[i].fp != events[j].fp
    {
      var fps, deduped := LatestPerFingerprint(raw);
      order, latest := fps, deduped;
      InOrderDistinct(fps, deduped);
      newWork := ClassifyUntilCap(InOrder(fps, deduped), live, criticalOnly);
    }
  }

  function InOrder(order: seq<string>, latest: map<string, AlertEvent>): seq<AlertEvent>
    requires forall fp :: fp in order ==> fp in latest
  {
    if order == [] then [] else [latest[order[0]]] + InOrder(order[1..], latest)
  }

  /** A cycle never classifies one fingerprint twice. */
  lemma {:induction false} InOrderDistinct(order: seq<string>, latest: map<string, AlertEvent>)
    requires NoDuplicates(order) && forall fp :: fp in order ==> fp in latest && latest[fp].fp == fp
    ensures var events := InOrder(order, latest);
            && |events| == |order|
            && (forall i :: 0 <= i < |events| ==> events[i] == latest[order[i]])
            && (forall i, j :: 0 <= i < j < |events| ==> events[i].fp != events[j].fp)
    decreases |order|
  {
    if order != [] {
      InOrderDistinct(order[1..], latest);
      var events, rest := InOrder(order, latest), InOrder(order[1..], latest);
      assert forall i :: 0 <= i < |rest| ==> events[i + 1] == rest[i];
      forall i | 0 <= i < |events|
        ensures events[i] == latest[order[i]]
      {
        if i > 0 { assert events[i] == rest[i - 1] && order[1..][i - 1] == order[i]; }
      }
    }
  }
}
