/**
 The registry over whole runs: any interleaving of registrations, polls, progress, completions
 and expiry, with fresh identifiers and one completion per operation.
 */
module McpRuns {
  import opened McpRegistry

  datatype Event =
    | DoRegister(id: string, session: string, workspace: string, created: bool)
    | DoPoll(id: string)
    | DoMarkRunning(id: string, turn: nat)
    | DoUpdateText(id: string, text: string)
    | DoComplete(id: string, done: OpState)
    | DoReap(retention: int)
    | Elapse(ms: nat)

  /** `used` ids were drawn, `ended` ones completed; `shown` records when running snapshots went out. */
  datatype Sys = Sys(reg: Registry, now: int, used: set<string>, ended: set<string>, shown: map<string, seq<int>>)

  function Show(shown: map<string, seq<int>>, id: string, now: int): map<string, seq<int>> {
    shown[id := (if id in shown then shown[id] else []) + [now]]
  }

  function Next(s: Sys, e: Event): Sys {
    match e
    case DoRegister(id, session, workspace, created) =>
      if id in s.used then s
      else (match Register(s.reg, id, session, workspace, created, s.now)
            case None => s
            case Some(reg) => s.(reg := reg, used := s.used + {id}, shown := Show(s.shown, id, s.now)))
    case DoPoll(id) =>
      var (reg, result) := Poll(s.reg, id, s.now);
      s.(reg := reg, shown := if result.Ready? && result.state.Running? then Show(s.shown, id, s.now) else s.shown)
    case DoMarkRunning(id, turn) => s.(reg := MarkRunning(s.reg, id, turn, s.now))
    case DoUpdateText(id, text) => s.(reg := UpdateLastText(s.reg, id, text, s.now))
    case DoComplete(id, done) =>
      if id !in s.used || id in s.ended || !done.Done? then s
      else s.(reg := Complete(s.reg, id, done, s.now), ended := s.ended + {id})
    case DoReap(retention) => s.(reg := Reap(s.reg, retention, s.now))
    case Elapse(ms) => s.(now := s.now + ms)
  }

  function Run(now: int, events: seq<Event>): Sys {
    if events == [] then Sys(EMPTY, now, {}, {}, map[]) else Next(Run(now, events[..|events| - 1]), events[|events| - 1])
  }

  predicate Spaced(times: seq<int>) {
    forall i, j :: 0 <= i < j < |times| ==> times[i] + AGENT_POLL_AFTER_MS <= times[j]
  }

  /** The next poll time of a running operation is one interval after its last snapshot. */
  ghost predicate PollsSpaced(ops: Operations, shown: map<string, seq<int>>) {
    && (forall id :: id in shown ==> Spaced(shown[id]))
    && (forall id :: IsRunning(ops, id) ==>
          id in shown && shown[id] != [] && shown[id][|shown[id]| - 1] + AGENT_POLL_AFTER_MS == ops[id].nextPollAt)
  }

  /** Nothing unfinished is ever missing: a drawn id is running until it is completed. */
  ghost predicate Tracked(ops: Operations, used: set<string>, ended: set<string>) {
    && (forall id :: id in ops ==> id in used)
    && (forall id :: IsRunning(ops, id) <==> id in used && id !in ended)
    && (forall id :: IsDone(ops, id) ==> id in ended)
    && ended <= used
  }

  ghost predicate Inv(s: Sys) {
    && Consistent(s.reg)
    && Tracked(s.reg.operations, s.used, s.ended)
    && (forall id :: id in s.shown ==> id in s.used)
    && PollsSpaced(s.reg.operations, s.shown)
  }

  lemma ShowKeepsSpaced(shown: map<string, seq<int>>, id: string, now: int)
    requires id in shown ==> Spaced(shown[id]) && (shown[id] != [] ==> shown[id][|shown[id]| - 1] + AGENT_POLL_AFTER_MS <= now)
    ensures var times := Show(shown, id, now)[id]; Spaced(times) && times != [] && times[|times| - 1] == now
  {
    if id in shown && shown[id] != [] {
      var times := shown[id];
      assert forall i :: 0 <= i < |times| ==> times[i] <= times[|times| - 1];
    }
  }

  /** A running record written with its snapshot shown now, or unchanged in its poll time. */
  lemma PollsAfterWrite(ops: Operations, shown: map<string, seq<int>>, id: string, record: Record, show: bool, now: int)
    requires PollsSpaced(ops, shown)
    requires if show then (if IsRunning(ops, id) then ops[id].nextPollAt <= now else id !in shown)
                          && record.nextPollAt == now + AGENT_POLL_AFTER_MS
             else IsRunning(ops, id) && record.nextPollAt == ops[id].nextPollAt
    ensures PollsSpaced(ops[id := record], if show then Show(shown, id, now) else shown)
  {
    if show { ShowKeepsSpaced(shown, id, now); }
    forall x | IsRunning(ops[id := record], x) && x != id ensures IsRunning(ops, x) {}
  }

  lemma RegisterKeepsInv(s: Sys, e: Event)
    requires Inv(s) && e.DoRegister?
    ensures Inv(Next(s, e))
  {
    if Next(s, e) != s {
      var record := NewRecord(e.id, e.session, e.workspace, e.created, s.now);
      RegisterKeeps(s.reg, e.id, e.session, e.workspace, e.created, s.now);
      PollsAfterWrite(s.reg.operations, s.shown, e.id, record, true, s.now);
      RegisterMoves(s.reg.operations, record);
    }
  }

  lemma TrackedAfterWrite(ops: Operations, used: set<string>, ended: set<string>, id: string, record: Record)
    requires Tracked(ops, used, ended) && IsRunning(ops, id) && record.state.Running?
    ensures Tracked(ops[id := record], used, ended)
  {
    assert forall x :: IsRunning(ops[id := record], x) <==> IsRunning(ops, x);
    assert forall x :: IsDone(ops[id := record], x) <==> IsDone(ops, x);
  }

  /** Changing one running record in place, showing it only once its poll time has come. */
  lemma UpdateKeepsInv(s: Sys, id: string, record: Record, show: bool)
    requires Inv(s) && IsRunning(s.reg.operations, id) && record.state.Running?
    requires record == s.reg.operations[id].(state := record.state, nextPollAt := record.nextPollAt)
    requires if show then s.reg.operations[id].nextPollAt <= s.now && record.nextPollAt == s.now + AGENT_POLL_AFTER_MS
             else record.nextPollAt == s.reg.operations[id].nextPollAt
    ensures Inv(s.(reg := s.reg.(operations := s.reg.operations[id := record]),
                   shown := if show then Show(s.shown, id, s.now) else s.shown))
  {
    UpdateKeeps(s.reg, id, record);
    TrackedAfterWrite(s.reg.operations, s.used, s.ended, id, record);
    PollsAfterWrite(s.reg.operations, s.shown, id, record, show, s.now);
  }

  lemma CompleteKeepsInv(s: Sys, id: string, done: OpState)
    requires Inv(s)
    ensures Inv(Next(s, DoComplete(id, done)))
  {
    var s' := Next(s, DoComplete(id, done));
    if s' != s {
      CompleteKeeps(s.reg, id, done, s.now);
      CompleteEvictsOne(s.reg, id, done, s.now);
      var queue := QueueOf(s.reg, s.reg.operations[id].sessionId);
      assert forall x :: x in Evicted(queue) ==> QueuedFor(s.reg.completed, s.reg.operations[id].sessionId, x);
      CompleteMoves(s.reg.operations, id, done, s.now, Evicted(queue));
    }
  }

  lemma ReapKeepsInv(s: Sys, retention: int)
    requires Inv(s)
    ensures Inv(Next(s, DoReap(retention)))
  {
    ReapKeeps(s.reg, retention, s.now);
    ReapMoves(s.reg.operations, ExpiredIds(s.reg, retention, s.now));
  }

  lemma NextKeepsInv(s: Sys, e: Event)
    requires Inv(s)
    ensures Inv(Next(s, e))
  {
    match e
    case DoRegister(_, _, _, _) => RegisterKeepsInv(s, e);
    case DoPoll(id) =>
      if IsRunning(s.reg.operations, id) && Next(s, e) != s {
        UpdateKeepsInv(s, id, Poll(s.reg, id, s.now).0.operations[id], true);
      }
    case DoMarkRunning(id, turn) =>
      if IsRunning(s.reg.operations, id) {
        UpdateKeepsInv(s, id, MarkRunning(s.reg, id, turn, s.now).operations[id], false);
      }
    case DoUpdateText(id, text) =>
      if IsRunning(s.reg.operations, id) {
        UpdateKeepsInv(s, id, UpdateLastText(s.reg, id, text, s.now).operations[id], false);
      }
    case DoComplete(id, done) => CompleteKeepsInv(s, id, done);
    case DoReap(retention) => ReapKeepsInv(s, retention);
    case Elapse(_) =>
  }

  /**
   In every reachable state the three maps agree, every drawn and uncompleted operation is still
   there and running, and the running snapshots of one operation are at least 30 s apart.
   */
  lemma {:induction false} RunsAreConsistent(now: int, events: seq<Event>)
    ensures Inv(Run(now, events))
  {
    if events != [] {
      RunsAreConsistent(now, events[..|events| - 1]);
      NextKeepsInv(Run(now, events[..|events| - 1]), events[|events| - 1]);
    }
  }

  lemma DoneIsKept(s: Sys, e: Event, id: string)
    requires Inv(s) && id in s.ended
    ensures id in Next(s, e).ended
    ensures id in Next(s, e).reg.operations ==>
      IsDone(s.reg.operations, id) && Next(s, e).reg.operations[id].state == s.reg.operations[id].state
  {
    if e.DoComplete? && Next(s, e) != s {
      CompleteEvictsOne(s.reg, e.id, e.done, s.now);
    }
  }

  /**
   Done is final over every run: however it goes on, a finished operation is there with the outcome it
   had, or forgotten, and once forgotten it never comes back.
   */
  lemma {:induction false} DoneIsFinal(now: int, before: seq<Event>, after: seq<Event>, id: string)
    requires id in Run(now, before).ended
    ensures var s, t := Run(now, before), Run(now, before + after);
      && id in t.ended
      && (id in t.reg.operations ==>
            IsDone(s.reg.operations, id) && t.reg.operations[id].state == s.reg.operations[id].state)
  {
    if after == [] {
      assert before + after == before;
      RunsAreConsistent(now, before);
      assert Tracked(Run(now, before).reg.operations, Run(now, before).used, Run(now, before).ended);
    } else {
      var n := |after| - 1;
      DoneIsFinal(now, before, after[..n], id);
      assert (before + after)[..|before + after| - 1] == before + after[..n];
      RunsAreConsistent(now, before + after[..n]);
      DoneIsKept(Run(now, before + after[..n]), after[n], id);
    }
  }
}
