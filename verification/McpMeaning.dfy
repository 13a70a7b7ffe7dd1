/**
 What the registry of background operations tells a caller, read off the events of a run: what a poll returns, what a
 record says, whose registration is refused, and which finished operations are forgotten.
 */
module McpMeaning {
  import opened Options
  import opened McpRegistry
  import opened McpRuns

  // ---- polls ------------------------------------------------------------------------------------------------------

  /** The completion of `id` with `done`, after `before`, takes effect. */
  ghost predicate Completes(now: int, before: seq<Event>, id: string, done: OpState) {
    id in Run(now, before).used && id !in Run(now, before).ended && done.Done?
  }

  lemma CompletedRecord(s: Sys, id: string, done: OpState)
    requires Inv(s) && id in s.used && id !in s.ended && done.Done?
    ensures var t := Next(s, DoComplete(id, done));
      id in t.ended && (id in t.reg.operations ==>
        t.reg.operations[id].state == done && t.reg.operations[id].completedAt == Some(s.now))
  {
    assert IsRunning(s.reg.operations, id);
    CompleteEvictsOne(s.reg, id, done, s.now);
  }

  /**
   Polling a finished operation that is still in the registry returns the outcome its completion was given, at any later
   time and however often.
   */
  lemma PollReturnsOutcome(now: int, before: seq<Event>, id: string, done: OpState, after: seq<Event>)
    requires Completes(now, before, id, done)
    ensures var t := Run(now, before + [DoComplete(id, done)] + after);
      Poll(t.reg, id, t.now).1 == if id in t.reg.operations then Ready(done) else Unknown
  {
    var at := before + [DoComplete(id, done)];
    RunsAreConsistent(now, before);
    CompletedRecord(Run(now, before), id, done);
    assert at[..|at| - 1] == before;
    DoneIsFinal(now, at, after, id);
  }

  /** What a poll returns of an operation last shown at the given times. */
  ghost predicate PollsAsDue(r: Registry, shown: map<string, seq<int>>, id: string, now: int)
    requires id in r.operations
  {
    && id in shown && shown[id] != []
    && var due := shown[id][|shown[id]| - 1] + 30_000;
       Poll(r, id, now).1 == if now >= due then Ready(r.operations[id].state) else Wait(due - now)
  }

  lemma DueIs(r: Registry, shown: map<string, seq<int>>, id: string, now: int)
    requires PollsSpaced(r.operations, shown) && IsRunning(r.operations, id)
    ensures PollsAsDue(r, shown, id, now)
  {
  }

  lemma SpacedIs(now: int, events: seq<Event>)
    ensures PollsSpaced(Run(now, events).reg.operations, Run(now, events).shown)
  {
    RunsAreConsistent(now, events);
  }

  /** A running operation is shown exactly when 30 s have passed since it last was; before, a poll says how long to wait. */
  lemma PollIsDue(now: int, events: seq<Event>, id: string)
    requires IsRunning(Run(now, events).reg.operations, id)
    ensures PollsAsDue(Run(now, events).reg, Run(now, events).shown, id, Run(now, events).now)
  {
    var s := Run(now, events);
    SpacedIs(now, events);
    DueIs(s.reg, s.shown, id, s.now);
  }

  /** A session is refused exactly while one of its operations is running. */
  lemma RefusedIff(now: int, events: seq<Event>, id: string, session: string, workspace: string, created: bool)
    ensures var s := Run(now, events);
      Register(s.reg, id, session, workspace, created, s.now).None? <==>
        exists x :: IsRunning(s.reg.operations, x) && s.reg.operations[x].sessionId == session
  {
    RunsAreConsistent(now, events);
    var s := Run(now, events);
    if session in s.reg.active {
      assert IsRunning(s.reg.operations, s.reg.active[session]);
    }
  }

  // ---- records ----------------------------------------------------------------------------------------------------

  predicate IsRegistration(e: Event, r: Record) {
    e.DoRegister? && e.id == r.operationId && e.session == r.sessionId && e.workspace == r.workspace && e.created == r.created
  }

  /** Every record is of one registration in the run. */
  ghost predicate AllRegistered(ops: Operations, events: seq<Event>) {
    forall id :: id in ops ==> ops[id].operationId == id && exists e <- events :: IsRegistration(e, ops[id])
  }

  /** What identifies a record never changes. */
  ghost predicate KeepsIdentity(ops: Operations, ops': Operations) {
    forall id :: id in ops' && id in ops ==>
      && ops'[id].operationId == ops[id].operationId && ops'[id].sessionId == ops[id].sessionId
      && ops'[id].workspace == ops[id].workspace && ops'[id].created == ops[id].created
  }

  lemma RegisterKeepsIdentity(s: Sys, e: Event)
    requires Inv(s) && e.DoRegister?
    ensures var ops, ops' := s.reg.operations, Next(s, e).reg.operations;
      KeepsIdentity(ops, ops') && forall id :: id in ops' && id !in ops ==> id == e.id && IsRegistration(e, ops'[id])
  {
  }

  lemma CompleteKeepsIdentity(s: Sys, e: Event)
    requires Inv(s) && e.DoComplete?
    ensures var ops, ops' := s.reg.operations, Next(s, e).reg.operations; KeepsIdentity(ops, ops') && ops'.Keys <= ops.Keys
  {
    if e.id in s.used && e.id !in s.ended && e.done.Done? {
      assert IsRunning(s.reg.operations, e.id);
      CompleteEvictsOne(s.reg, e.id, e.done, s.now);
    }
  }

  lemma OtherKeepsIdentity(s: Sys, e: Event)
    requires !e.DoRegister? && !e.DoComplete?
    ensures var ops, ops' := s.reg.operations, Next(s, e).reg.operations; KeepsIdentity(ops, ops') && ops'.Keys <= ops.Keys
  {
  }

  lemma StepKeepsIdentity(s: Sys, e: Event)
    requires Inv(s)
    ensures KeepsIdentity(s.reg.operations, Next(s, e).reg.operations)
    ensures forall id :: id in Next(s, e).reg.operations && id !in s.reg.operations ==>
      e.DoRegister? && id == e.id && IsRegistration(e, Next(s, e).reg.operations[id])
  {
    match e
    case DoRegister(_, _, _, _) => RegisterKeepsIdentity(s, e);
    case DoComplete(_, _) => CompleteKeepsIdentity(s, e);
    case _ => OtherKeepsIdentity(s, e);
  }

  lemma {:induction false} RecordsAreAsRegistered(now: int, events: seq<Event>)
    ensures AllRegistered(Run(now, events).reg.operations, events)
  {
    if events != [] {
      var n := |events| - 1;
      var before, e := events[..n], events[n];
      RecordsAreAsRegistered(now, before);
      RunsAreConsistent(now, before);
      StepKeepsIdentity(Run(now, before), e);
      RegisteredNext(Run(now, before).reg.operations, Run(now, events).reg.operations, before, e);
      assert before + [e] == events;
    }
  }

  lemma RegisteredNext(ops: Operations, ops': Operations, before: seq<Event>, e: Event)
    requires AllRegistered(ops, before) && KeepsIdentity(ops, ops')
    requires forall id :: id in ops' && id !in ops ==> e.DoRegister? && id == e.id && IsRegistration(e, ops'[id])
    ensures AllRegistered(ops', before + [e])
  {
    forall id | id in ops' ensures ops'[id].operationId == id && exists x <- before + [e] :: IsRegistration(x, ops'[id]) {
      if id in ops {
        var x :| x in before && IsRegistration(x, ops[id]);
        assert x in before + [e] && IsRegistration(x, ops'[id]);
      } else {
        assert e in before + [e];
      }
    }
  }

  // ---- progress ---------------------------------------------------------------------------------------------------

  /** Event `k` of a run reports text for `id` while it is running. */
  ghost predicate ReportsText(now: int, events: seq<Event>, k: nat, id: string) {
    k < |events| && events[k].DoUpdateText? && events[k].id == id && IsRunning(Run(now, events[..k]).reg.operations, id)
  }

  ghost predicate ReportsTurn(now: int, events: seq<Event>, k: nat, id: string) {
    k < |events| && events[k].DoMarkRunning? && events[k].id == id && IsRunning(Run(now, events[..k]).reg.operations, id)
  }

  /** The text shown is the last one reported, if any was. */
  ghost predicate ShowsText(now: int, events: seq<Event>, id: string, text: Option<string>) {
    match text
    case None => forall k: nat :: !ReportsText(now, events, k, id)
    case Some(v) => exists k: nat :: ReportsText(now, events, k, id) && events[k].text == v
                      && forall j: nat :: j > k ==> !ReportsText(now, events, j, id)
  }

  ghost predicate ShowsTurn(now: int, events: seq<Event>, id: string, turn: Option<nat>) {
    match turn
    case None => forall k: nat :: !ReportsTurn(now, events, k, id)
    case Some(v) => exists k: nat :: ReportsTurn(now, events, k, id) && events[k].turn == v
                      && forall j: nat :: j > k ==> !ReportsTurn(now, events, j, id)
  }

  /** A running operation shows the last text and the last turn reported for it, and is active once a turn was. */
  ghost predicate ShowsProgress(now: int, events: seq<Event>, id: string, s: Snapshot) {
    ShowsText(now, events, id, s.lastText) && ShowsTurn(now, events, id, s.currentTurn) && (s.phase.Active? <==> s.currentTurn.Some?)
  }

  lemma ReportsBefore(now: int, before: seq<Event>, e: Event, k: nat, id: string)
    ensures k < |before| ==> (ReportsText(now, before + [e], k, id) <==> ReportsText(now, before, k, id))
    ensures k < |before| ==> (ReportsTurn(now, before + [e], k, id) <==> ReportsTurn(now, before, k, id))
    ensures ReportsText(now, before + [e], |before|, id) <==>
      e.DoUpdateText? && e.id == id && IsRunning(Run(now, before).reg.operations, id)
    ensures ReportsTurn(now, before + [e], |before|, id) <==>
      e.DoMarkRunning? && e.id == id && IsRunning(Run(now, before).reg.operations, id)
  {
    if k < |before| {
      assert (before + [e])[..k] == before[..k];
    }
    assert (before + [e])[..|before|] == before;
  }

  /** What one event does to the snapshot of an operation that stays running. */
  ghost predicate SnapshotMoves(e: Event, id: string, s: Snapshot, s': Snapshot) {
    && s'.lastText == (if e.DoUpdateText? && e.id == id then Some(e.text) else s.lastText)
    && s'.currentTurn == (if e.DoMarkRunning? && e.id == id then Some(e.turn) else s.currentTurn)
    && s'.phase == (if e.DoMarkRunning? && e.id == id then Active else s.phase)
  }

  lemma CompleteMovesSnapshot(s: Sys, e: Event, id: string)
    requires Inv(s) && e.DoComplete? && IsRunning(s.reg.operations, id) && IsRunning(Next(s, e).reg.operations, id)
    ensures Next(s, e).reg.operations[id] == s.reg.operations[id]
  {
    if e.id in s.used && e.id !in s.ended && e.done.Done? {
      assert IsRunning(s.reg.operations, e.id);
      CompleteEvictsOne(s.reg, e.id, e.done, s.now);
    }
  }

  lemma StepMovesSnapshot(s: Sys, e: Event, id: string)
    requires Inv(s) && IsRunning(s.reg.operations, id) && IsRunning(Next(s, e).reg.operations, id)
    ensures SnapshotMoves(e, id, s.reg.operations[id].state.snapshot, Next(s, e).reg.operations[id].state.snapshot)
  {
    match e
    case DoComplete(_, _) => CompleteMovesSnapshot(s, e, id);
    case _ => OtherMovesSnapshot(s, e, id);
  }

  lemma OtherMovesSnapshot(s: Sys, e: Event, id: string)
    requires !e.DoComplete? && id in s.used && IsRunning(s.reg.operations, id) && IsRunning(Next(s, e).reg.operations, id)
    ensures SnapshotMoves(e, id, s.reg.operations[id].state.snapshot, Next(s, e).reg.operations[id].state.snapshot)
  {
  }

  lemma TextNext(now: int, before: seq<Event>, e: Event, id: string, text: Option<string>)
    requires IsRunning(Run(now, before).reg.operations, id) && ShowsText(now, before, id, text)
    ensures ShowsText(now, before + [e], id, if e.DoUpdateText? && e.id == id then Some(e.text) else text)
  {
    var all := before + [e];
    forall k: nat
      ensures ReportsText(now, all, k, id) <==>
        (k < |before| && ReportsText(now, before, k, id)) || (k == |before| && e.DoUpdateText? && e.id == id)
    {
      ReportsBefore(now, before, e, k, id);
    }
    if e.DoUpdateText? && e.id == id {
      assert ReportsText(now, all, |before|, id) && all[|before|] == e;
    } else if text.Some? {
      var k: nat :| ReportsText(now, before, k, id) && before[k].text == text.value
        && forall j: nat :: j > k ==> !ReportsText(now, before, j, id);
      assert ReportsText(now, all, k, id) && all[k] == before[k];
    }
  }

  lemma TurnNext(now: int, before: seq<Event>, e: Event, id: string, turn: Option<nat>)
    requires IsRunning(Run(now, before).reg.operations, id) && ShowsTurn(now, before, id, turn)
    ensures ShowsTurn(now, before + [e], id, if e.DoMarkRunning? && e.id == id then Some(e.turn) else turn)
  {
    var all := before + [e];
    forall k: nat
      ensures ReportsTurn(now, all, k, id) <==>
        (k < |before| && ReportsTurn(now, before, k, id)) || (k == |before| && e.DoMarkRunning? && e.id == id)
    {
      ReportsBefore(now, before, e, k, id);
    }
    if e.DoMarkRunning? && e.id == id {
      assert ReportsTurn(now, all, |before|, id) && all[|before|] == e;
    } else if turn.Some? {
      var k: nat :| ReportsTurn(now, before, k, id) && before[k].turn == turn.value
        && forall j: nat :: j > k ==> !ReportsTurn(now, before, j, id);
      assert ReportsTurn(now, all, k, id) && all[k] == before[k];
    }
  }

  /** An id that was never drawn has not been running, so nothing was reported for it. */
  lemma {:induction false} UsedGrows(now: int, events: seq<Event>, k: nat)
    requires k <= |events|
    ensures Run(now, events[..k]).used <= Run(now, events).used
    decreases |events| - k
  {
    if k == |events| {
      assert events[..k] == events;
    } else {
      UsedGrows(now, events, k + 1);
      assert events[..k + 1][..k] == events[..k];
      UsedNext(Run(now, events[..k]), events[k]);
    }
  }

  lemma UsedNext(s: Sys, e: Event)
    ensures s.used <= Next(s, e).used
  {
  }

  lemma NothingReportedYet(now: int, events: seq<Event>, id: string)
    requires id !in Run(now, events).used
    ensures ShowsText(now, events, id, None) && ShowsTurn(now, events, id, None)
  {
    forall k: nat ensures !ReportsText(now, events, k, id) && !ReportsTurn(now, events, k, id) {
      if k < |events| {
        UsedGrows(now, events, k);
        RunsAreConsistent(now, events[..k]);
      }
    }
  }

  lemma FreshSnapshot(s: Sys, e: Event, id: string)
    requires Inv(s) && !IsRunning(s.reg.operations, id) && IsRunning(Next(s, e).reg.operations, id)
    ensures id !in s.used && e.DoRegister?
    ensures var t := Next(s, e).reg.operations[id].state.snapshot; t.lastText.None? && t.currentTurn.None? && t.phase.Queued?
  {
    NextKeepsInv(s, e);
  }

  lemma StartShows(now: int, before: seq<Event>, e: Event, id: string)
    requires e.DoRegister? && id !in Run(now, before).used
    ensures ShowsText(now, before + [e], id, None) && ShowsTurn(now, before + [e], id, None)
  {
    NothingReportedYet(now, before, id);
    forall k: nat ensures !ReportsText(now, before + [e], k, id) && !ReportsTurn(now, before + [e], k, id) {
      ReportsBefore(now, before, e, k, id);
    }
  }

  /** After every run, a running operation shows the last text and turn reported for it. */
  lemma {:induction false} RunningShowsProgress(now: int, events: seq<Event>, id: string)
    requires IsRunning(Run(now, events).reg.operations, id)
    ensures ShowsProgress(now, events, id, Run(now, events).reg.operations[id].state.snapshot)
  {
    var n := |events| - 1;
    var before, e := events[..n], events[n];
    assert before + [e] == events;
    var s := Run(now, before);
    RunsAreConsistent(now, before);
    if IsRunning(s.reg.operations, id) {
      RunningShowsProgress(now, before, id);
      StepMovesSnapshot(s, e, id);
      TextNext(now, before, e, id, s.reg.operations[id].state.snapshot.lastText);
      TurnNext(now, before, e, id, s.reg.operations[id].state.snapshot.currentTurn);
    } else {
      FreshSnapshot(s, e, id);
      StartShows(now, before, e, id);
    }
  }

  /** Event `k` starts the operation or reports on it while it is running. */
  ghost predicate Touches(now: int, events: seq<Event>, k: nat, id: string) {
    && k < |events|
    && (|| ReportsText(now, events, k, id) || ReportsTurn(now, events, k, id)
        || (events[k].DoRegister? && events[k].id == id && id !in Run(now, events[..k]).used && id in Run(now, events[..k + 1]).used))
  }

  /** The time shown is that of the last such event. */
  ghost predicate ShowsTime(now: int, events: seq<Event>, id: string, time: int) {
    exists k: nat :: Touches(now, events, k, id) && time == Run(now, events[..k]).now
      && forall j: nat :: j > k ==> !Touches(now, events, j, id)
  }

  lemma TouchesBefore(now: int, before: seq<Event>, e: Event, k: nat, id: string)
    requires k < |before|
    ensures Touches(now, before + [e], k, id) <==> Touches(now, before, k, id)
    ensures (before + [e])[..k] == before[..k]
  {
    ReportsBefore(now, before, e, k, id);
    assert (before + [e])[..k] == before[..k] && (before + [e])[..k + 1] == before[..k + 1];
  }

  lemma TouchesLast(now: int, before: seq<Event>, e: Event, id: string)
    ensures Touches(now, before + [e], |before|, id) <==>
      || (IsRunning(Run(now, before).reg.operations, id) && (e.DoUpdateText? || e.DoMarkRunning?) && e.id == id)
      || (e.DoRegister? && e.id == id && id !in Run(now, before).used && id in Run(now, before + [e]).used)
  {
    ReportsBefore(now, before, e, |before|, id);
    var all := before + [e];
    assert all[..|before|] == before && all[..|before| + 1] == all;
  }

  lemma TimeStays(now: int, before: seq<Event>, e: Event, id: string, time: int)
    requires ShowsTime(now, before, id, time) && !Touches(now, before + [e], |before|, id)
    ensures ShowsTime(now, before + [e], id, time)
  {
    var all := before + [e];
    var k: nat :| Touches(now, before, k, id) && time == Run(now, before[..k]).now
      && forall j: nat :: j > k ==> !Touches(now, before, j, id);
    TouchesBefore(now, before, e, k, id);
    forall j: nat | j > k ensures !Touches(now, all, j, id) {
      if j < |before| {
        TouchesBefore(now, before, e, j, id);
      }
    }
  }

  lemma TimeIsNow(now: int, before: seq<Event>, e: Event, id: string)
    requires Touches(now, before + [e], |before|, id)
    ensures ShowsTime(now, before + [e], id, Run(now, before).now)
  {
    assert (before + [e])[..|before|] == before;
  }

  ghost predicate Reports(e: Event, id: string) { (e.DoUpdateText? || e.DoMarkRunning?) && e.id == id }

  lemma StepMovesTime(s: Sys, e: Event, id: string)
    requires Inv(s) && IsRunning(Next(s, e).reg.operations, id)
    ensures var time := Next(s, e).reg.operations[id].state.snapshot.updatedAtMs;
      if IsRunning(s.reg.operations, id)
      then time == (if Reports(e, id) then s.now else s.reg.operations[id].state.snapshot.updatedAtMs)
      else time == s.now && e.DoRegister? && e.id == id && id !in s.used && id in Next(s, e).used
  {
    if IsRunning(s.reg.operations, id) {
      if e.DoComplete? {
        CompleteMovesSnapshot(s, e, id);
      }
    } else {
      FreshSnapshot(s, e, id);
    }
  }

  /** After every run, a running operation shows when it was last reported on, or else registered. */
  lemma {:induction false} RunningShowsTime(now: int, events: seq<Event>, id: string)
    requires IsRunning(Run(now, events).reg.operations, id)
    ensures ShowsTime(now, events, id, Run(now, events).reg.operations[id].state.snapshot.updatedAtMs)
  {
    var n := |events| - 1;
    var before, e := events[..n], events[n];
    assert before + [e] == events;
    RunsAreConsistent(now, before);
    StepMovesTime(Run(now, before), e, id);
    TouchesLast(now, before, e, id);
    if IsRunning(Run(now, before).reg.operations, id) && !Reports(e, id) {
      RunningShowsTime(now, before, id);
      RunningIsUsed(Run(now, before), id);
      TimeStays(now, before, e, id, Run(now, before).reg.operations[id].state.snapshot.updatedAtMs);
    } else {
      TimeIsNow(now, before, e, id);
    }
  }

  lemma RunningIsUsed(s: Sys, id: string)
    requires Inv(s) && IsRunning(s.reg.operations, id)
    ensures id in s.used
  {
  }

  // ---- what is forgotten ------------------------------------------------------------------------------------------

  /**
   Completing an operation pushes it onto its session's queue, from which the oldest goes, with its record, once there are
   more than sixteen; no other record goes, and the session is free again.
   */
  lemma CompletionForgets(now: int, events: seq<Event>, id: string, done: OpState)
    requires IsRunning(Run(now, events).reg.operations, id) && done.Done?
    ensures var s, t := Run(now, events), Run(now, events + [DoComplete(id, done)]);
      var session := s.reg.operations[id].sessionId;
      var queue := if session in s.reg.completed then s.reg.completed[session] else [];
      && session !in t.reg.active && |queue| <= 16
      && t.reg.completed == s.reg.completed[session := (if |queue| == 16 then queue[1..] else queue) + [id]]
      && (forall x :: x in t.reg.operations <==> x in s.reg.operations && !(|queue| == 16 && x == queue[0]))
      && (forall x :: x in t.reg.operations && x != id ==> t.reg.operations[x] == s.reg.operations[x])
  {
    var s, e := Run(now, events), DoComplete(id, done);
    RunsAreConsistent(now, events);
    assert (events + [e])[..|events|] == events;
    CompleteEvictsOne(s.reg, id, done, s.now);
  }

  /** `r'` is `r` without the finished records whose completion is `retention` or longer ago. */
  ghost predicate DropsExpired(r: Registry, r': Registry, retention: int, now: int) {
    && r'.active == r.active
    && (forall x :: x in r'.operations <==>
          x in r.operations
          && !(r.operations[x].state.Done? && r.operations[x].completedAt.Some?
               && now >= r.operations[x].completedAt.value + retention))
    && (forall x :: x in r'.operations ==> r'.operations[x] == r.operations[x])
  }

  lemma ReapDrops(r: Registry, retention: int, now: int)
    requires RecordsAgree(r.operations)
    ensures DropsExpired(r, Reap(r, retention, now), retention, now)
  {
    assert forall x :: x in r.operations ==> (x in ExpiredIds(r, retention, now) <==> Expired(r.operations[x], retention, now));
  }

  lemma RecordsAgreeIn(now: int, events: seq<Event>)
    ensures RecordsAgree(Run(now, events).reg.operations)
  {
    RunsAreConsistent(now, events);
  }

  /** Expiry drops exactly the finished records whose completion is `retention` or longer ago. */
  lemma ReapForgets(now: int, events: seq<Event>, retention: int)
    ensures var s, t := Run(now, events), Run(now, events + [DoReap(retention)]); DropsExpired(s.reg, t.reg, retention, s.now)
  {
    assert (events + [DoReap(retention)])[..|events|] == events;
    RecordsAgreeIn(now, events);
    ReapDrops(Run(now, events).reg, retention, Run(now, events).now);
  }
}
