/**
 The registry of background agent operations: three maps that must agree after every register,
 poll, progress update, completion and expiry. Times are milliseconds.
 */
module McpRegistry {
  import opened Options

  const AGENT_POLL_AFTER_MS: int := 30_000
  const COMPLETED_OPERATIONS_PER_SESSION := 16

  datatype Phase = Queued | Active

  datatype Snapshot = Snapshot(phase: Phase, currentTurn: Option<nat>, lastText: Option<string>, updatedAtMs: int)

  datatype OpState =
    | Running(snapshot: Snapshot)
    | Done(reply: string, outcome: string, usage: Option<nat>, error: Option<string>)

  datatype Record = Record(
    operationId: string,
    sessionId: string,
    workspace: string,
    created: bool,
    state: OpState,
    cancellable: bool,
    nextPollAt: int,
    completedAt: Option<int>)

  datatype Registry = Registry(
    operations: map<string, Record>,
    active: map<string, string>,
    completed: map<string, seq<string>>)

  const EMPTY := Registry(map[], map[], map[])

  // ---- the operations on values -----------------------------------------------------------------------------------

  function NewRecord(id: string, session: string, workspace: string, created: bool, now: int): Record {
    Record(id, session, workspace, created, Running(Snapshot(Queued, None, None, now)), true,
           now + AGENT_POLL_AFTER_MS, None)
  }

  /** `None`: the session is busy. `id` is the fresh identifier the program draws. */
  function Register(r: Registry, id: string, session: string, workspace: string, created: bool, now: int): Option<Registry> {
    if session in r.active then None
    else Some(r.(operations := r.operations[id := NewRecord(id, session, workspace, created, now)],
                 active := r.active[session := id]))
  }

  datatype PollResult = Unknown | Ready(state: OpState) | Wait(delay: int)

  function Poll(r: Registry, id: string, now: int): (Registry, PollResult) {
    if id !in r.operations then (r, Unknown)
    else
      var record := r.operations[id];
      if record.state.Done? then (r, Ready(record.state))
      else if now >= record.nextPollAt then
        (r.(operations := r.operations[id := record.(nextPollAt := now + AGENT_POLL_AFTER_MS)]), Ready(record.state))
      else (r, Wait(record.nextPollAt - now))
  }

  function UpdateSnapshot(r: Registry, id: string, snapshot: Snapshot): Registry
    requires id in r.operations
  {
    r.(operations := r.operations[id := r.operations[id].(state := Running(snapshot))])
  }

  function MarkRunning(r: Registry, id: string, turn: nat, now: int): Registry {
    if id !in r.operations || r.operations[id].state.Done? then r
    else UpdateSnapshot(r, id, r.operations[id].state.snapshot.(phase := Active, currentTurn := Some(turn), updatedAtMs := now))
  }

  function UpdateLastText(r: Registry, id: string, text: string, now: int): Registry {
    if id !in r.operations || r.operations[id].state.Done? then r
    else UpdateSnapshot(r, id, r.operations[id].state.snapshot.(lastText := Some(text), updatedAtMs := now))
  }

  /** Drop from the front until at most `COMPLETED_OPERATIONS_PER_SESSION` are left. */
  function Overflow(queue: seq<string>): nat {
    if |queue| > COMPLETED_OPERATIONS_PER_SESSION then |queue| - COMPLETED_OPERATIONS_PER_SESSION else 0
  }

  function Complete(r: Registry, id: string, done: OpState, now: int): Registry {
    if id !in r.operations then r
    else
      var session := r.operations[id].sessionId;
      var record := r.operations[id].(state := done, cancellable := false, completedAt := Some(now));
      var active := if session in r.active && r.active[session] == id then r.active - {session} else r.active;
      var queue := (if session in r.completed then r.completed[session] else []) + [id];
      var n := Overflow(queue);
      var expired := set i | 0 <= i < n :: queue[i];
      Registry(r.operations[id := record] - expired, active, r.completed[session := queue[n..]])
  }

  predicate Expired(record: Record, retention: int, now: int) {
    record.completedAt.Some? && now - record.completedAt.value >= retention
  }

  function ExpiredIds(r: Registry, retention: int, now: int): set<string> {
    set id | id in r.operations && Expired(r.operations[id], retention, now)
  }

  function Without(queue: seq<string>, ids: set<string>): seq<string> {
    if queue == [] then []
    else if queue[0] in ids then Without(queue[1..], ids)
    else [queue[0]] + Without(queue[1..], ids)
  }

  /** Every queue without the expired ids; a queue left empty goes. */
  function Retained(completed: map<string, seq<string>>, ids: set<string>): map<string, seq<string>> {
    map s | s in completed && Without(completed[s], ids) != [] :: Without(completed[s], ids)
  }

  function Reap(r: Registry, retention: int, now: int): Registry {
    var ids := ExpiredIds(r, retention, now);
    if ids == {} then r
    else
      r.(operations := r.operations - ids, completed := Retained(r.completed, ids))
  }

  // ---- the class --------------------------------------------------------------------------------------------------

  class AgentOperationRegistry {
    var operations: map<string, Record>
    var active: map<string, string>
    var completed: map<string, seq<string>>

    ghost function Value(): Registry
      reads this
    {
      Registry(operations, active, completed)
    }

    constructor ()
      ensures Value() == EMPTY
    {
      operations, active, completed := map[], map[], map[];
    }

    method RegisterOperation(id: string, session: string, workspace: string, created: bool, now: int) returns (ok: bool)
      modifies this
      ensures ok == Register(old(Value()), id, session, workspace, created, now).Some?
      ensures Value() == if ok then Register(old(Value()), id, session, workspace, created, now).value else old(Value())
    {
      if session in active {
        return false;
      }
      operations := operations[id := NewRecord(id, session, workspace, created, now)];
      active := active[session := id];
      return true;
    }

    method PollOperation(id: string, now: int) returns (result: PollResult)
      modifies this
      ensures (Value(), result) == Poll(old(Value()), id, now)
    {
      if id !in operations {
        return Unknown;
      }
      var record := operations[id];
      if record.state.Done? {
        return Ready(record.state);
      }
      if now >= record.nextPollAt {
        operations := operations[id := record.(nextPollAt := now + AGENT_POLL_AFTER_MS)];
        return Ready(record.state);
      }
      return Wait(record.nextPollAt - now);
    }

    method MarkOperationRunning(id: string, turn: nat, now: int)
      modifies this
      ensures Value() == MarkRunning(old(Value()), id, turn, now)
    {
      if id in operations && operations[id].state.Running? {
        var snapshot := operations[id].state.snapshot.(phase := Active, currentTurn := Some(turn), updatedAtMs := now);
        operations := operations[id := operations[id].(state := Running(snapshot))];
      }
    }

    method UpdateOperationLastText(id: string, text: string, now: int)
      modifies this
      ensures Value() == UpdateLastText(old(Value()), id, text, now)
    {
      if id in operations && operations[id].state.Running? {
        var snapshot := operations[id].state.snapshot.(lastText := Some(text), updatedAtMs := now);
        operations := operations[id := operations[id].(state := Running(snapshot))];
      }
    }

    method CompleteOperation(id: string, done: OpState, now: int)
      modifies this
      ensures Value() == Complete(old(Value()), id, done, now)
    {
      if id !in operations {
        return;
      }
      var session := operations[id].sessionId;
      operations := operations[id := operations[id].(state := done, cancellable := false, completedAt := Some(now))];
      if session in active && active[session] == id {
        active := active - {session};
      }
      var pushed := (if session in completed then completed[session] else []) + [id];
      var queue, expired := pushed, {};
      ghost var dropped := 0;
      while |queue| > COMPLETED_OPERATIONS_PER_SESSION
        invariant 0 <= dropped <= Overflow(pushed) && queue == pushed[dropped..]
        invariant expired == set i | 0 <= i < dropped :: pushed[i]
      {
        expired := expired + {queue[0]};
        queue := queue[1..];
        dropped := dropped + 1;
      }
      completed := completed[session := queue];
      operations := operations - expired;
    }

    method ReapExpiredCompleted(retention: int, now: int) returns (count: nat)
      modifies this
      ensures Value() == Reap(old(Value()), retention, now)
      ensures count == |ExpiredIds(old(Value()), retention, now)|
    {
      var ids := set id | id in operations && Expired(operations[id], retention, now);
      assert ids == ExpiredIds(old(Value()), retention, now);
      if ids == {} {
        return 0;
      }
      var left, all := ids, operations;
      while left != {}
        invariant left <= ids && operations == all - (ids - left)
        invariant active == old(active) && completed == old(completed)
        decreases left
      {
        var id :| id in left;
        operations := operations - {id};
        left := left - {id};
      }
      assert ids - left == ids && operations == all - ids;
      completed := Retained(completed, ids);
      return |ids|;
    }
  }

  // ---- what the three maps agree on -------------------------------------------------------------------------------

  type Operations = map<string, Record>

  predicate Distinct(q: seq<string>) {
    forall i, j :: 0 <= i < j < |q| ==> q[i] != q[j]
  }

  predicate IsRunning(ops: Operations, id: string) {
    id in ops && ops[id].state.Running?
  }

  predicate IsDone(ops: Operations, id: string) {
    id in ops && ops[id].state.Done?
  }

  /** Running exactly when active for its session. */
  ghost predicate ActiveAgrees(ops: Operations, active: map<string, string>) {
    && (forall s :: s in active ==> IsRunning(ops, active[s]) && ops[active[s]].sessionId == s)
    && (forall id :: IsRunning(ops, id) ==> ops[id].sessionId in active && active[ops[id].sessionId] == id)
  }

  ghost predicate ShortQueues(completed: map<string, seq<string>>) {
    forall s :: s in completed ==> 0 < |completed[s]| <= COMPLETED_OPERATIONS_PER_SESSION && Distinct(completed[s])
  }

  predicate QueuedFor(completed: map<string, seq<string>>, s: string, id: string) {
    s in completed && id in completed[s]
  }

  /** Done exactly when queued for its session. */
  ghost predicate QueuesAgree(ops: Operations, completed: map<string, seq<string>>) {
    && (forall s, id :: QueuedFor(completed, s, id) ==> IsDone(ops, id) && ops[id].sessionId == s)
    && (forall id :: IsDone(ops, id) ==> QueuedFor(completed, ops[id].sessionId, id))
  }

  ghost predicate RecordsAgree(ops: Operations) {
    forall id :: id in ops ==>
      && ops[id].operationId == id
      && (ops[id].cancellable <==> ops[id].state.Running?)
      && (ops[id].completedAt.Some? <==> ops[id].state.Done?)
  }

  /**
   A record is running iff it is its session's active operation; it is done iff it occurs,
   exactly once, in its session's queue; queues hold between one and sixteen ids.
   */
  ghost predicate Consistent(r: Registry) {
    && ActiveAgrees(r.operations, r.active)
    && QueuesAgree(r.operations, r.completed) && ShortQueues(r.completed)
    && RecordsAgree(r.operations)
  }

  /** A step that starts `began`, ends `ended` and forgets `out`, leaving every session as it was. */
  ghost predicate Moves(ops: Operations, ops': Operations, began: set<string>, ended: set<string>, out: set<string>) {
    && (forall x :: IsRunning(ops', x) <==> x in began || (IsRunning(ops, x) && x !in ended))
    && (forall x :: IsDone(ops', x) <==> (x in ended || IsDone(ops, x)) && x !in out)
    && (forall x :: x in ops' && x in ops ==> ops'[x].sessionId == ops[x].sessionId)
    && (forall x :: x in ended ==> IsRunning(ops, x)) && began !! ops.Keys
  }

  lemma QueuesFollow(ops: Operations, ops': Operations, completed: map<string, seq<string>>, completed': map<string, seq<string>>,
                     began: set<string>, ended: set<string>, out: set<string>)
    requires QueuesAgree(ops, completed) && Moves(ops, ops', began, ended, out)
    requires forall s, x :: QueuedFor(completed', s, x) <==>
      ((x in ended && x in ops && ops[x].sessionId == s) || QueuedFor(completed, s, x)) && x !in out
    ensures QueuesAgree(ops', completed')
  {
    forall s, x | QueuedFor(completed', s, x) ensures IsDone(ops', x) && ops'[x].sessionId == s {
      assert x in ended || QueuedFor(completed, s, x);
    }
    forall x | IsDone(ops', x) ensures QueuedFor(completed', ops'[x].sessionId, x) {
      assert x in ended || QueuedFor(completed, ops[x].sessionId, x);
    }
  }

  lemma RegisterKeeps(r: Registry, id: string, session: string, workspace: string, created: bool, now: int)
    requires Consistent(r) && id !in r.operations && Register(r, id, session, workspace, created, now).Some?
    ensures Consistent(Register(r, id, session, workspace, created, now).value)
  {
    var record := NewRecord(id, session, workspace, created, now);
    RegisterMoves(r.operations, record);
    QueuesFollow(r.operations, r.operations[id := record], r.completed, r.completed, {id}, {}, {});
    ActiveAfterRegister(r.operations, r.active, record);
  }

  lemma RegisterMoves(ops: Operations, record: Record)
    requires record.operationId !in ops && record.state.Running?
    ensures Moves(ops, ops[record.operationId := record], {record.operationId}, {}, {})
  {
  }

  lemma ActiveAfterRegister(ops: Operations, active: map<string, string>, record: Record)
    requires ActiveAgrees(ops, active) && record.operationId !in ops && record.sessionId !in active && record.state.Running?
    ensures ActiveAgrees(ops[record.operationId := record], active[record.sessionId := record.operationId])
  {
    var ops', active' := ops[record.operationId := record], active[record.sessionId := record.operationId];
    forall x | IsRunning(ops', x) ensures ops'[x].sessionId in active' && active'[ops'[x].sessionId] == x {
      if x != record.operationId { assert IsRunning(ops, x); }
    }
  }

  /** Changing a running record without ending it keeps all agreements. */
  lemma UpdateKeeps(r: Registry, id: string, record: Record)
    requires Consistent(r) && IsRunning(r.operations, id) && record.state.Running?
    requires record == r.operations[id].(state := record.state, nextPollAt := record.nextPollAt)
    ensures Consistent(r.(operations := r.operations[id := record]))
  {
    var ops' := r.operations[id := record];
    assert forall x :: IsDone(ops', x) <==> IsDone(r.operations, x);
    assert forall x :: IsRunning(ops', x) <==> IsRunning(r.operations, x);
  }

  // ---- completion -------------------------------------------------------------------------------------------------

  function QueueOf(r: Registry, session: string): seq<string> {
    if session in r.completed then r.completed[session] else []
  }

  function DoneRecord(record: Record, done: OpState, now: int): Record {
    record.(state := done, cancellable := false, completedAt := Some(now))
  }

  /** The id a completion pushes out of a full queue. */
  function Evicted(queue: seq<string>): set<string> {
    if |queue| == COMPLETED_OPERATIONS_PER_SESSION then {queue[0]} else {}
  }

  /** With queues of at most sixteen, completing evicts at most the oldest id. */
  lemma CompleteEvictsOne(r: Registry, id: string, done: OpState, now: int)
    requires ShortQueues(r.completed) && id in r.operations
    ensures var session := r.operations[id].sessionId; var queue := QueueOf(r, session); var r' := Complete(r, id, done, now);
      && r'.operations == r.operations[id := DoneRecord(r.operations[id], done, now)] - Evicted(queue)
      && r'.completed == r.completed[session := queue[|Evicted(queue)|..] + [id]]
  {
    var session := r.operations[id].sessionId;
    var queue := QueueOf(r, session);
    var pushed := queue + [id];
    var n := Overflow(pushed);
    var expired := set i | 0 <= i < n :: pushed[i];
    if |queue| == COMPLETED_OPERATIONS_PER_SESSION {
      assert n == 1 && pushed[0] in expired && expired == {queue[0]};
      assert pushed[1..] == queue[1..] + [id];
    } else {
      assert n == 0 && expired == {};
      assert pushed[0..] == queue[0..] + [id];
    }
  }

  lemma CompletedQueue(queue: seq<string>, id: string)
    requires |queue| <= COMPLETED_OPERATIONS_PER_SESSION && Distinct(queue) && id !in queue
    ensures var q := queue[|Evicted(queue)|..] + [id];
      && 0 < |q| <= COMPLETED_OPERATIONS_PER_SESSION && Distinct(q)
      && forall x :: x in q <==> x == id || (x in queue && x !in Evicted(queue))
  {
    if |queue| == COMPLETED_OPERATIONS_PER_SESSION {
      assert queue == [queue[0]] + queue[1..];
    } else {
      assert queue[0..] == queue;
    }
  }

  lemma CompleteMoves(ops: Operations, id: string, done: OpState, now: int, out: set<string>)
    requires done.Done? && IsRunning(ops, id) && forall x :: x in out ==> IsDone(ops, x)
    ensures Moves(ops, ops[id := DoneRecord(ops[id], done, now)] - out, {}, {id}, out)
  {
  }

  lemma CompletedQueues(r: Registry, session: string, id: string)
    requires QueuesAgree(r.operations, r.completed) && ShortQueues(r.completed) && id !in QueueOf(r, session)
    ensures var queue := QueueOf(r, session);
      var completed' := r.completed[session := queue[|Evicted(queue)|..] + [id]];
      && ShortQueues(completed')
      && (forall x :: x in Evicted(queue) ==> QueuedFor(r.completed, session, x))
      && forall s, x :: QueuedFor(completed', s, x) <==>
           ((x == id && s == session) || QueuedFor(r.completed, s, x)) && (x !in Evicted(queue))
  {
    var queue := QueueOf(r, session);
    var out, completed' := Evicted(queue), r.completed[session := queue[|Evicted(queue)|..] + [id]];
    CompletedQueue(queue, id);
    forall s, x
      ensures QueuedFor(completed', s, x) <==> ((x == id && s == session) || QueuedFor(r.completed, s, x)) && x !in out
    {
      if x in out && QueuedFor(r.completed, s, x) {
        assert QueuedFor(r.completed, session, x);
        assert s == session;
      }
    }
  }

  lemma CompleteKeeps(r: Registry, id: string, done: OpState, now: int)
    requires Consistent(r) && done.Done? && IsRunning(r.operations, id)
    ensures Consistent(Complete(r, id, done, now))
  {
    var session := r.operations[id].sessionId;
    var r', out := Complete(r, id, done, now), Evicted(QueueOf(r, session));
    assert !QueuedFor(r.completed, session, id);
    CompleteEvictsOne(r, id, done, now);
    CompletedQueues(r, session, id);
    CompleteMoves(r.operations, id, done, now, out);
    QueuesFollow(r.operations, r'.operations, r.completed, r'.completed, {}, {id}, out);
    ActiveAfterEnd(r.operations, r'.operations, r.active, id, out);
    assert r'.active == r.active - {session};
    RecordsAfterEnd(r.operations, id, done, now, out);
  }

  lemma RecordsAfterEnd(ops: Operations, id: string, done: OpState, now: int, out: set<string>)
    requires RecordsAgree(ops) && id in ops && done.Done?
    ensures RecordsAgree(ops[id := DoneRecord(ops[id], done, now)] - out)
  {
  }

  lemma ActiveAfterEnd(ops: Operations, ops': Operations, active: map<string, string>, id: string, out: set<string>)
    requires ActiveAgrees(ops, active) && Moves(ops, ops', {}, {id}, out)
    ensures ActiveAgrees(ops', active - {ops[id].sessionId})
  {
    var active' := active - {ops[id].sessionId};
    assert IsRunning(ops, id);
    forall s | s in active' ensures IsRunning(ops', active'[s]) && ops'[active'[s]].sessionId == s {
      assert IsRunning(ops, active[s]);
    }
    forall x | IsRunning(ops', x) ensures ops'[x].sessionId in active' && active'[ops'[x].sessionId] == x {
      assert IsRunning(ops, x);
    }
  }

  lemma SecondCompletionBreaks(r: Registry, id: string, done: OpState, now: int)
    requires Consistent(r) && IsDone(r.operations, id)
    ensures !Consistent(Complete(r, id, done, now))
  {
    var session := r.operations[id].sessionId;
    assert QueuedFor(r.completed, session, id);
    var queue, r' := QueueOf(r, session), Complete(r, id, done, now);
    CompleteEvictsOne(r, id, done, now);
    var q, n := r'.completed[session], |Evicted(queue)|;
    assert q[|q| - 1] == id;
    var k :| 0 <= k < |queue| && queue[k] == id;
    if k < n {
      assert id in Evicted(queue) && QueuedFor(r'.completed, session, id) && !IsDone(r'.operations, id);
    } else {
      assert q[k - n] == id && !Distinct(q);
    }
  }

  /**
   Completing an operation keeps the maps in agreement if and only if it was not already done:
   a second completion always breaks them.
   */
  lemma CompleteKeepsIff(r: Registry, id: string, done: OpState, now: int)
    requires Consistent(r) && done.Done?
    ensures Consistent(Complete(r, id, done, now)) <==> !IsDone(r.operations, id)
  {
    if IsRunning(r.operations, id) { CompleteKeeps(r, id, done, now); }
    if IsDone(r.operations, id) { SecondCompletionBreaks(r, id, done, now); }
  }

  // ---- expiry -----------------------------------------------------------------------------------------------------

  lemma {:induction false} WithoutElements(q: seq<string>, ids: set<string>)
    ensures forall x :: x in Without(q, ids) <==> x in q && x !in ids
    ensures |Without(q, ids)| <= |q|
    ensures Distinct(q) ==> Distinct(Without(q, ids))
  {
    if q != [] {
      WithoutElements(q[1..], ids);
      assert forall x :: x in q <==> x == q[0] || x in q[1..];
      assert Distinct(q) ==> Distinct(q[1..]);
      if q[0] !in ids {
        var w := [q[0]] + Without(q[1..], ids);
        assert Distinct(q) ==> q[0] !in q[1..];
      }
    }
  }

  lemma RetainedQueues(completed: map<string, seq<string>>, ids: set<string>)
    requires ShortQueues(completed)
    ensures ShortQueues(Retained(completed, ids))
    ensures forall s, x :: QueuedFor(Retained(completed, ids), s, x) <==> QueuedFor(completed, s, x) && x !in ids
  {
    forall s, x
      ensures QueuedFor(Retained(completed, ids), s, x) <==> QueuedFor(completed, s, x) && x !in ids
    {
      if s in completed { WithoutElements(completed[s], ids); }
    }
    forall s | s in Retained(completed, ids)
      ensures |Retained(completed, ids)[s]| <= COMPLETED_OPERATIONS_PER_SESSION && Distinct(Retained(completed, ids)[s])
    {
      WithoutElements(completed[s], ids);
    }
  }

  lemma ReapMoves(ops: Operations, ids: set<string>)
    requires forall x :: x in ids ==> IsDone(ops, x)
    ensures Moves(ops, ops - ids, {}, {}, ids)
  {
  }

  lemma ReapKeeps(r: Registry, retention: int, now: int)
    requires Consistent(r)
    ensures Consistent(Reap(r, retention, now))
  {
    var ids, r' := ExpiredIds(r, retention, now), Reap(r, retention, now);
    if ids != {} {
      RetainedQueues(r.completed, ids);
      ReapMoves(r.operations, ids);
      QueuesFollow(r.operations, r'.operations, r.completed, r'.completed, {}, {}, ids);
      assert forall x :: IsRunning(r'.operations, x) <==> IsRunning(r.operations, x);
    }
  }
}
