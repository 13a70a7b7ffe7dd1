/**
 * What a turn puts into the history, message by message, in terms of the model's answer and the tools' outcomes.
 */
module TurnMeaning {
  import opened Options
  import opened Messages
  import opened ContextManager
  import opened TokenCache
  import opened ToolExec
  import opened ToolMeaning
  import opened LoopHistory
  import opened Lists
  import opened Chars
  import opened TurnSpec
  import opened TurnProofs

  // ---- single messages --------------------------------------------------------------------------------------------

  /** The message reports `outcome` for `call`: one block with the call's id and name, the text, and whether it failed. */
  predicate Shows(m: ChatMessage, call: Call, outcome: Outcome, now: nat) {
    && !outcome.Suspended? && m.role == Tool && m.timestampMs == now && m.messageId.None? && m.reasoning.None?
    && |m.blocks| == 1 && m.blocks[0].ToolResult?
    && m.blocks[0].callId == call.callId && m.blocks[0].toolName == call.toolName && m.blocks[0].output == outcome.text
    && (m.blocks[0].isError <==> outcome.ToolError? || outcome.Failed? || outcome.Denied?)
  }

  lemma ResultShows(r: Result, now: nat)
    requires !r.outcome.Suspended?
    ensures Shows(ResultMessage(r, now), r.call, r.outcome, now)
  {
  }

  /** The message is the model's answer: its text, if any, then the calls with name and input, and its reasoning. */
  predicate IsAnswer(m: ChatMessage, reply: Reply, calls: seq<Call>, now: nat) {
    var n := if reply.text.Some? then 1 else 0;
    && m.role == Assistant && m.timestampMs == now && m.messageId.None?
    && m.reasoning == reply.reasoning && m.apiUsageTokens == Some(reply.usage)
    && |m.blocks| == n + |calls| && (reply.text.Some? ==> m.blocks[0] == Text(reply.text.value))
    && forall i :: 0 <= i < |calls| ==> m.blocks[n + i] == ToolUse(calls[i].callId, calls[i].toolName, calls[i].input)
  }

  lemma AnswerIs(reply: Reply, now: nat)
    ensures IsAnswer(AssistantMessage(reply, now), reply, reply.calls, now)
  {
  }

  // ---- the reported calls -----------------------------------------------------------------------------------------

  predicate Ascends(q: seq<nat>) { forall k, l :: 0 <= k < l < |q| ==> q[k] < q[l] }

  /** In order, the calls that are not suspended. */
  ghost predicate AreReported(q: seq<nat>, n: nat, execute: nat -> Outcome) {
    Ascends(q) && forall i: nat :: i in q <==> i < n && !execute(i).Suspended?
  }

  /** `r` are the results of the calls at `q`. */
  ghost predicate ResultsAt(r: seq<Result>, q: seq<nat>, calls: seq<Call>, execute: nat -> Outcome) {
    |q| == |r| && forall k :: 0 <= k < |q| ==> q[k] < |calls| && r[k] == Result(calls[q[k]], execute(q[k]))
  }

  lemma ReportedNext(q: seq<nat>, n: nat, execute: nat -> Outcome)
    requires AreReported(q, n, execute)
    ensures AreReported(if execute(n).Suspended? then q else q + [n], n + 1, execute)
  {
    if !execute(n).Suspended? {
      var q' := q + [n];
      forall i: nat ensures i in q' <==> i < n + 1 && !execute(i).Suspended? {
        assert i in q' <==> i in q || i == n;
      }
      assert forall k :: 0 <= k < |q| ==> q[k] in q;
    }
  }

  lemma ResultsNext(r: seq<Result>, q: seq<nat>, calls: seq<Call>, execute: nat -> Outcome, n: nat)
    requires ResultsAt(r, q, calls, execute) && n < |calls|
    ensures ResultsAt(r + [Result(calls[n], execute(n))], q + [n], calls, execute)
  {
  }

  lemma ReportedStep(results: seq<Result>, q: seq<nat>, calls: seq<Call>, execute: nat -> Outcome, n: nat) returns (q': seq<nat>)
    requires n < |calls| && n < |results| && results[n] == Result(calls[n], execute(n))
    requires AreReported(q, n, execute) && ResultsAt(Filter(results[..n], IsReported), q, calls, execute)
    ensures AreReported(q', n + 1, execute) && ResultsAt(Filter(results[..n + 1], IsReported), q', calls, execute)
  {
    ReportedNext(q, n, execute);
    FilterNext(results, n, IsReported);
    if execute(n).Suspended? {
      q' := q;
    } else {
      ResultsNext(Filter(results[..n], IsReported), q, calls, execute, n);
      q' := q + [n];
    }
  }

  lemma {:induction false} ReportedUpTo(results: seq<Result>, calls: seq<Call>, execute: nat -> Outcome, n: nat) returns (q: seq<nat>)
    requires n <= |calls| == |results| && forall k :: 0 <= k < |calls| ==> results[k] == Result(calls[k], execute(k))
    ensures AreReported(q, n, execute) && ResultsAt(Filter(results[..n], IsReported), q, calls, execute)
  {
    q := [];
    if n > 0 {
      q := ReportedUpTo(results, calls, execute, n - 1);
      q := ReportedStep(results, q, calls, execute, n - 1);
    }
  }

  lemma ReportedAre(calls: seq<Call>, execute: nat -> Outcome) returns (q: seq<nat>)
    ensures AreReported(q, |calls|, execute) && ResultsAt(Filter(Batch(calls, execute), IsReported), q, calls, execute)
  {
    var results := Batch(calls, execute);
    q := ReportedUpTo(results, calls, execute, |calls|);
    assert results[..|calls|] == results;
  }

  // ---- the executed calls -----------------------------------------------------------------------------------------

  /** The tool name has a character other than a blank. */
  predicate IsNamed(c: Call) { exists i :: 0 <= i < |c.toolName| && !IsWhitespace(c.toolName[i]) }

  /** The executed calls are the named ones, each as often as it was asked for, with every `join_subagent` last. */
  ghost predicate AreExecuted(calls: seq<Call>, asked: seq<Call>) {
    && (forall c :: multiset(calls)[c] == if IsNamed(c) then multiset(asked)[c] else 0)
    && (forall i, j :: 0 <= i < j < |calls| && calls[i].toolName == "join_subagent" ==> calls[j].toolName == "join_subagent")
  }

  lemma {:induction false} FilterCounts<T>(s: seq<T>, keep: T -> bool, x: T)
    ensures multiset(Filter(s, keep))[x] == if keep(x) then multiset(s)[x] else 0
  {
    if s != [] {
      FilterCounts(s[1..], keep, x);
      assert s == [s[0]] + s[1..];
      if keep(s[0]) {
        assert Filter(s, keep) == [s[0]] + Filter(s[1..], keep);
      }
    }
  }

  lemma NormalizedAreValidIfNamed(reply: Reply, turnCount: nat, visible: seq<string>, c: Call)
    requires c in Normalized(reply.calls, turnCount, visible)
    ensures IsValid(c) <==> IsNamed(c)
  {
    NormalizedIds(reply.calls, turnCount, visible);
  }

  lemma ExecutedAre(config: Config, turnCount: nat, reply: Reply)
    ensures AreExecuted(Executed(config, turnCount, reply).calls, Normalized(reply.calls, turnCount, config.visible))
  {
    var asked := Normalized(reply.calls, turnCount, config.visible);
    var valid := Filter(asked, IsValid);
    JoinsLastIsStableSort(valid);
    forall c ensures multiset(JoinsLast(valid))[c] == if IsNamed(c) then multiset(asked)[c] else 0 {
      FilterCounts(asked, IsValid, c);
      if c in asked {
        NormalizedAreValidIfNamed(reply, turnCount, config.visible, c);
      }
    }
  }

  // ---- the answer that counts -------------------------------------------------------------------------------------

  /** What one model call, repeated after an overlong context, said. A stream cut off leaves its text without calls. */
  predicate Said(call: RecoveryInput, reply: Reply) {
    var o := if call.first.TooLong? then call.second else call.first;
    || o == Answered(reply)
    || (o.Partial? && (o.text != "" || o.reasoning != "") && reply.calls == [] && reply.usage == 0
        && reply.text == (if o.text == "" then None else Some(o.text))
        && reply.reasoning == (if o.reasoning == "" then None else Some(o.reasoning)))
  }

  predicate SaidNothing(call: RecoveryInput) {
    var o := if call.first.TooLong? then call.second else call.first;
    o.Silent? || (o.Partial? && o.text == "" && o.reasoning == "") || o.TooLong? || o.Broken?
  }

  lemma AnswersAre(was: Option<Reply>, call: RecoveryInput)
    ensures if SaidNothing(call) then RecoveredAnswer(was, call) == was
      else RecoveredAnswer(was, call).Some? && Said(call, RecoveredAnswer(was, call).value)
  {
  }

  /** All the answer asks for is one call without a name. */
  predicate OnlyNameless(config: Config, turnCount: nat, reply: Reply) {
    |reply.calls| == 1 && !IsNamed(Normalized(reply.calls, turnCount, config.visible)[0])
  }

  lemma RetryIff(config: Config, turnCount: nat, reply: Reply)
    ensures NeedsRetry(CallsIn(config, turnCount, reply)) <==> OnlyNameless(config, turnCount, reply)
  {
    var calls := CallsIn(config, turnCount, reply);
    FilterLengths(calls, IsValid, IsInvalid);
    NormalizedIds(reply.calls, turnCount, config.visible);
    if |calls| == 1 {
      assert calls[0] in calls && calls[1..] == [];
      NormalizedAreValidIfNamed(reply, turnCount, config.visible, calls[0]);
    }
  }

  /**
   * The answer whose calls count is the first one. If all it asks for is one call without a name, it is what the model
   * said when asked again, or, if it then said nothing, the first one with its names repaired.
   */
  lemma SettledIs(config: Config, turnCount: nat, first: Reply, input: TurnInput)
    ensures var reply := Settled(config, turnCount, first, input);
      if !OnlyNameless(config, turnCount, first) then reply == first
      else if SaidNothing(input.retry) then reply == first.(calls := Normalized(first.calls, turnCount, config.visible))
      else Said(input.retry, reply)
  {
    RetryIff(config, turnCount, first);
    AnswersAre(Some(first.(calls := CallsIn(config, turnCount, first))), input.retry);
  }

  // ---- a turn -----------------------------------------------------------------------------------------------------

  /** From position `at` on: the answer, what the reported calls returned, then at most two notes to the model. */
  ghost predicate ShowsExchange(h: History, at: nat, reply: Reply, calls: seq<Call>, q: seq<nat>, input: TurnInput) {
    && at + 1 + |q| <= |h| <= at + 1 + |q| + 2 && IsAnswer(h[at], reply, calls, input.now)
    && (forall k :: 0 <= k < |q| ==> q[k] < |calls| && Shows(h[at + 1 + k], calls[q[k]], input.execute(q[k]), input.now))
    && (forall k :: at + 1 + |q| <= k < |h| ==> h[k].role == User)
  }

  lemma PartsAt<T>(base: seq<T>, x: T, ys: seq<T>, zs: seq<T>, ws: seq<T>)
    ensures var h := base + ([x] + ys + zs) + ws; var at := |base| + 1;
      && |h| == at + |ys| + |zs| + |ws| && h[|base|] == x
      && (forall k :: 0 <= k < |ys| ==> h[at + k] == ys[k])
      && (forall k :: at + |ys| <= k < |h| ==> h[k] in zs || h[k] in ws)
  {
  }

  lemma NotesAreUsers(s: Streak, results: seq<Result>, now: nat)
    ensures |Notes(s, results, now)| <= 1 && forall m <- Notes(s, results, now) :: m.role == User
  {
  }

  lemma ReminderIsUser(reminded: bool, input: TurnInput)
    ensures |Reminder(reminded, input)| <= 1 && forall m <- Reminder(reminded, input) :: m.role == User
  {
  }

  /** Each of `ys` shows its call. */
  ghost predicate AllShow(ys: History, reply: Reply, q: seq<nat>, input: TurnInput) {
    && |ys| == |q|
    && forall k :: 0 <= k < |q| ==> q[k] < |reply.calls| && Shows(ys[k], reply.calls[q[k]], input.execute(q[k]), input.now)
  }

  ghost predicate AreNotes(zs: History) { |zs| <= 1 && forall m <- zs :: m.role == User }

  lemma ReportedShow(reported: seq<Result>, reply: Reply, q: seq<nat>, input: TurnInput)
    requires AreReported(q, |reply.calls|, input.execute) && ResultsAt(reported, q, reply.calls, input.execute)
    ensures AllShow(ResultMessages(reported, input.now), reply, q, input)
  {
    forall k | 0 <= k < |q|
      ensures Shows(ResultMessages(reported, input.now)[k], reply.calls[q[k]], input.execute(q[k]), input.now)
    {
      assert q[k] in q;
      ResultShows(reported[k], input.now);
    }
  }

  lemma PartsShow(base: History, x: ChatMessage, ys: History, zs: History, ws: History, reply: Reply, q: seq<nat>, input: TurnInput)
    requires IsAnswer(x, reply, reply.calls, input.now) && AllShow(ys, reply, q, input) && AreNotes(zs) && AreNotes(ws)
    ensures ShowsExchange(base + ([x] + ys + zs) + ws, |base|, reply, reply.calls, q, input)
  {
    PartsAt(base, x, ys, zs, ws);
  }

  lemma ExchangeShows(base: History, reply: Reply, q: seq<nat>, s: Streak, reminded: bool, input: TurnInput)
    requires var reported := Filter(Batch(reply.calls, input.execute), IsReported);
      AreReported(q, |reply.calls|, input.execute) && ResultsAt(reported, q, reply.calls, input.execute)
    ensures var results := Batch(reply.calls, input.execute);
      ShowsExchange(base + Exchange(reply, results, s, input.now) + Reminder(reminded, input), |base|, reply, reply.calls, q, input)
  {
    var results := Batch(reply.calls, input.execute);
    var reported := Filter(results, IsReported);
    AnswerIs(reply, input.now);
    ReportedShow(reported, reply, q, input);
    NotesAreUsers(s, results, input.now);
    ReminderIsUser(reminded, input);
    PartsShow(base, AssistantMessage(reply, input.now), ResultMessages(reported, input.now),
              Notes(s, results, input.now), Reminder(reminded, input), reply, q, input);
  }

  lemma EffectShows(e: Effect, base: History, reply: Reply, s: Streak, input: TurnInput) returns (q: seq<nat>)
    requires AddsExchange(e, base, reply, Batch(reply.calls, input.execute), s, input)
    ensures AreReported(q, |reply.calls|, input.execute)
    ensures base <= e.memory.messages && ShowsExchange(e.memory.messages, |base|, reply, reply.calls, q, input)
  {
    q := ReportedAre(reply.calls, input.execute);
    ExchangeShows(base, reply, q, s, e.reminded, input);
  }

  /** The model was reached, and so was the answer that counts. */
  predicate Settles(config: Config, m: Memory, first: Reply, input: TurnInput) {
    var a := Ask(config, m.messages, m.meta, input);
    a.ok && SettleSucceeds(config, m.turnCount, (a.messages, a.meta), first, input)
  }

  /** The history the answer that counts is appended to. */
  function SettledBase(config: Config, m: Memory, first: Reply, input: TurnInput): History {
    var a := Ask(config, m.messages, m.meta, input);
    SettledOn(config, m.turnCount, (a.messages, a.meta), first, input).0
  }

  lemma TurnAddsExchange(config: Config, m: Memory, n: nat, first: Reply, input: TurnInput)
    requires config.ToolPath() && RecoveredAnswer(None, input.call) == Some(first) && first.calls != []
    ensures var e := Turn(config, m, n, input);
      var reply := Executed(config, m.turnCount, Settled(config, m.turnCount, first, input));
      if !Settles(config, m, first, input) then e.ending.Errored?
      else AddsExchange(e, SettledBase(config, m, first, input), reply, Batch(reply.calls, input.execute), m.streak, input)
  {
    var a := Ask(config, m.messages, m.meta, input);
    if Settles(config, m, first, input) {
      CallPhaseAddsExchange(config, m.(messages := a.messages, meta := a.meta), n, first, input);
    }
  }

  /**
   * With the tool path on, let the model's first answer ask for tools. Unless the model call or the retry fails, the turn
   * appends the answer that counts with its executed calls, then for each call that is not suspended, in order, a message
   * with that call's id and name and the text of its outcome, marked as an error exactly if it failed; nothing but notes
   * to the model follows.
   */
  lemma TurnShowsExchange(config: Config, m: Memory, n: nat, first: Reply, input: TurnInput)
    returns (reply: Reply, calls: seq<Call>, q: seq<nat>)
    requires config.toolExecution && config.hasRuntime && config.hasAgentId && Said(input.call, first) && first.calls != []
    ensures if !OnlyNameless(config, m.turnCount, first) then reply == first
      else if SaidNothing(input.retry) then reply == first.(calls := Normalized(first.calls, m.turnCount, config.visible))
      else Said(input.retry, reply)
    ensures AreExecuted(calls, Normalized(reply.calls, m.turnCount, config.visible))
    ensures AreReported(q, |calls|, input.execute)
    ensures var e, base := Turn(config, m, n, input), SettledBase(config, m, first, input);
      if !Settles(config, m, first, input) then e.ending.Errored?
      else base <= e.memory.messages && ShowsExchange(e.memory.messages, |base|, reply, calls, q, input)
  {
    reply := Settled(config, m.turnCount, first, input);
    SettledIs(config, m.turnCount, first, input);
    var executed := Executed(config, m.turnCount, reply);
    calls := executed.calls;
    ExecutedAre(config, m.turnCount, reply);
    AnswersAre(None, input.call);
    TurnAddsExchange(config, m, n, first, input);
    q := TurnShows(Turn(config, m, n, input), config, m, first, executed, input);
  }

  lemma TurnShows(e: Effect, config: Config, m: Memory, first: Reply, reply: Reply, input: TurnInput) returns (q: seq<nat>)
    requires Settles(config, m, first, input) ==>
      AddsExchange(e, SettledBase(config, m, first, input), reply, Batch(reply.calls, input.execute), m.streak, input)
    ensures AreReported(q, |reply.calls|, input.execute)
    ensures var base := SettledBase(config, m, first, input);
      Settles(config, m, first, input) ==>
        base <= e.memory.messages && ShowsExchange(e.memory.messages, |base|, reply, reply.calls, q, input)
  {
    if Settles(config, m, first, input) {
      q := EffectShows(e, SettledBase(config, m, first, input), reply, m.streak, input);
    } else {
      q := ReportedAre(reply.calls, input.execute);
    }
  }

  // ---- up to the first answer -------------------------------------------------------------------------------------

  /** Each message with its count cached, a count it had already being kept, and otherwise as it is. */
  predicate AreCached(was: History, h: History) {
    |h| == |was| && forall i :: 0 <= i < |h| ==>
      h[i] == if was[i].estimatedTokens.Some? then was[i] else was[i].(estimatedTokens := Some(Recount(was[i])))
  }

  /** Whether to compress, and what comes of it; `None` is a failed compression. */
  function Step(config: Config, h: History, meta: Meta, run: bool, c: CompressInput): Option<(History, Meta)> {
    if run then CompressStep(h, meta, config.tail, c.should, c.summarize) else Some((h, meta))
  }

  /** The request goes out: once more after an overlong context, if it can be compressed and built again. */
  function CallInOrder(config: Config, h: History, meta: Meta, call: RecoveryInput): Asked {
    if !call.first.TooLong? then Asked(!call.first.Broken?, h, meta, 1)
    else
      match Step(config, h, meta, true, call.compress)
      case None => Asked(false, h, meta, 1)
      case Some(r) =>
        if !call.builds then Asked(false, r.0, r.1, 1)
        else Asked(!call.second.TooLong? && !call.second.Broken?, r.0, r.1, 2)
  }

  /** The budget is checked on what the first compression left; over it, the history is compressed whether needed or not. */
  function CheckInOrder(config: Config, h: History, meta: Meta, input: TurnInput): Asked {
    var over := config.overhead + Total(h) > config.available;
    match Step(config, h, meta, over, input.preCheck)
    case None => Asked(false, h, meta, 0)
    case Some(r) =>
      if over && !input.preCheckBuilds then Asked(false, r.0, r.1, 0) else CallInOrder(config, r.0, r.1, input.call)
  }

  function AskInOrder(config: Config, h: History, meta: Meta, input: TurnInput): Asked {
    match Step(config, h, meta, input.automatic.needed, input.automatic)
    case None => Asked(false, h, meta, 0)
    case Some(r) => if !input.builds then Asked(false, r.0, r.1, 0) else CheckInOrder(config, r.0, r.1, input)
  }

  lemma CallIs(config: Config, h: History, meta: Meta, call: RecoveryInput)
    ensures var c := HistoryAfter(h, meta, config.tail, call);
      CallInOrder(config, h, meta, call)
        == Asked(RecoverySucceeds(h, meta, config.tail, call), c.0, c.1, RecoveryCalls(h, meta, config.tail, call))
  {
  }

  /** Where the first compression succeeds and a request can be built. */
  lemma CheckIs(config: Config, h: History, meta: Meta, input: TurnInput)
    ensures var over := config.overhead + Total(h) > config.available; var s := (h, meta);
      var p := if over then AfterCompress(config.tail, s, input.preCheck, true) else s;
      CheckInOrder(config, h, meta, input)
        == if over && (CompressFails(config.tail, s, input.preCheck, true) || !input.preCheckBuilds) then Asked(false, p.0, p.1, 0)
           else CallInOrder(config, p.0, p.1, input.call)
  {
  }

  /** A turn up to its first answer is its steps one after the other, each failure ending it where it stands. */
  lemma AskIs(config: Config, h: History, meta: Meta, input: TurnInput) returns (drained: History)
    ensures AreCached(input.drained, drained)
    ensures Ask(config, h, meta, input) == AskInOrder(config, h + drained, meta, input)
  {
    drained := RefreshAll(input.drained);
    var first := AfterCompress(config.tail, (h + drained, meta), input.automatic, false);
    CheckIs(config, first.0, first.1, input);
    var p := Prepared(config, h, meta, input);
    CallIs(config, p.0, p.1, input.call);
  }

  // ---- the retry --------------------------------------------------------------------------------------------------

  /** The message that tells the model its call had no name. */
  predicate IsNamelessError(m: ChatMessage, c: Call, now: nat) {
    && m.role == Tool && m.timestampMs == now
    && m.blocks == [ToolResult(c.callId, c.toolName, "Error: invalid tool call: missing tool_name.", true)]
  }

  /**
   * Only an answer that asks for nothing but one call without a name is retried. The model is told of the error, asked
   * again if a request can be built, once more after an overlong context, and the error is taken out of the history that
   * leaves; without a request nothing has happened and the turn fails.
   */
  lemma SettleIs(config: Config, turnCount: nat, s: (History, Meta), first: Reply, input: TurnInput) returns (error: ChatMessage)
    ensures var base, ok, asked := SettledOn(config, turnCount, s, first, input),
        SettleSucceeds(config, turnCount, s, first, input), RetryCalls(config, turnCount, s, first, input);
      if !OnlyNameless(config, turnCount, first) then base == s && ok && asked == 0
      else
        && IsNamelessError(error, Normalized(first.calls, turnCount, config.visible)[0], input.now)
        && if !input.retryBuilds then base == s && !ok && asked == 0
           else
             var call := CallInOrder(config, s.0 + [error], s.1, input.retry);
             && ok == call.ok && asked == call.asked && base.1 == call.meta
             && base.0 == if call.messages == [] then [] else call.messages[..|call.messages| - 1]
  {
    RetryIff(config, turnCount, first);
    var calls := CallsIn(config, turnCount, first);
    error := InvalidCallMessage(Call("", "", ""), input.now);
    if OnlyNameless(config, turnCount, first) {
      OnlyInvalid(calls);
      error := Pushed(calls, input.now);
      CallIs(config, s.0 + [error], s.1, input.retry);
    }
  }

  lemma OnlyInvalid(calls: seq<Call>)
    requires NeedsRetry(calls) && |calls| == 1
    ensures Filter(calls, IsInvalid) == calls
  {
    FilterRest(calls, IsInvalid, IsValid);
  }

  // ---- how a turn ends --------------------------------------------------------------------------------------------

  /** Some executed call of a listed tool succeeded. */
  ghost predicate StopRuleHolds(config: Config, calls: seq<Call>, execute: nat -> Outcome) {
    exists i, k :: 0 <= i < |calls| && 0 <= k < |config.stopAfter| && execute(i).Success? && config.stopAfter[k] == calls[i].toolName
  }

  /** The turn limit is reached. */
  predicate LimitReached(config: Config, n: nat) { config.maxTurns > 0 && n >= config.maxTurns }

  /** The one reminder of open plan items is due. */
  predicate ReminderDue(config: Config, m: Memory, n: nat, input: TurnInput) {
    n < config.maxTurns && !m.planNudged && config.hasRuntime && input.openTodos > 0
  }

  lemma StopsMean(config: Config, calls: seq<Call>, execute: nat -> Outcome)
    ensures AnyStops(config.stopAfter, Batch(calls, execute)) <==> StopRuleHolds(config, calls, execute)
  {
    var results := Batch(calls, execute);
    if AnyStops(config.stopAfter, results) {
      var i :| 0 <= i < |results| && Stops(config.stopAfter, results[i]);
      var k :| 0 <= k < |config.stopAfter| && config.stopAfter[k] == results[i].call.toolName;
      assert execute(i).Success? && config.stopAfter[k] == calls[i].toolName;
    }
    if i, k :| 0 <= i < |calls| && 0 <= k < |config.stopAfter| && execute(i).Success? && config.stopAfter[k] == calls[i].toolName {
      assert Stops(config.stopAfter, results[i]);
    }
  }

  /** How a turn ends that executed `calls`, none of which is suspended. */
  ghost predicate EndsAfterCalls(config: Config, m: Memory, n: nat, calls: seq<Call>, input: TurnInput, e: Effect) {
    var wants := calls != [] && config.visible != [];
    if input.cancelled then e.ending == Cancelled && !e.reminded
    else if StopRuleHolds(config, calls, input.execute) then e.ending == Completed && !e.reminded
    else if LimitReached(config, n) then e.ending == MaxTurnsReached && !e.reminded
    else if wants then e.ending == Continued && !e.reminded
    else if ReminderDue(config, m, n, input) then e.ending == Continued && e.reminded
    else e.ending == Completed && !e.reminded
  }

  lemma ConcludeEnds(config: Config, m: Memory, n: nat, t: Phase, input: TurnInput)
    requires t.ok && config.ToolPath() && t.answer.Some? && t.results == Batch(t.answer.value.calls, input.execute)
    requires Filter(t.results, IsSuspended) == [] && t.stop == AnyStops(config.stopAfter, t.results)
    ensures EndsAfterCalls(config, m, n, t.answer.value.calls, input, Conclude(config, m, n, t, input))
  {
    StopsMean(config, t.answer.value.calls, input.execute);
  }

  lemma PhaseEnds(config: Config, m: Memory, n: nat, first: Reply, input: TurnInput)
    requires config.ToolPath() && SettleSucceeds(config, m.turnCount, (m.messages, m.meta), first, input)
    requires NoneWaits(config, m.turnCount, first, input)
    ensures var calls := Executed(config, m.turnCount, Settled(config, m.turnCount, first, input)).calls;
      EndsAfterCalls(config, m, n, calls, input, Conclude(config, m, n, CallPhase(config, m, first, input), input))
  {
    CallPhaseWaits(config, m, first, input);
    ConcludeEnds(config, m, n, CallPhase(config, m, first, input), input);
  }

  /**
   * A turn whose executed calls all returned is cancelled if asked to, complete if a listed tool succeeded, at the limit
   * from turn `maxTurns` on, and otherwise goes on, to show the model the results. If no call was left to execute it goes
   * on only for the one reminder.
   */
  lemma TurnEndsAfterCalls(config: Config, m: Memory, n: nat, first: Reply, input: TurnInput) returns (calls: seq<Call>)
    requires config.ToolPath() && RecoveredAnswer(None, input.call) == Some(first) && first.calls != []
    requires Settles(config, m, first, input) && NoneWaits(config, m.turnCount, first, input)
    ensures AreExecuted(calls, Normalized(Settled(config, m.turnCount, first, input).calls, m.turnCount, config.visible))
    ensures EndsAfterCalls(config, m, n, calls, input, Turn(config, m, n, input))
  {
    var reply := Settled(config, m.turnCount, first, input);
    calls := Executed(config, m.turnCount, reply).calls;
    ExecutedAre(config, m.turnCount, reply);
    var a := Ask(config, m.messages, m.meta, input);
    PhaseEnds(config, m.(messages := a.messages, meta := a.meta), n, first, input);
  }

  /** How a turn ends without calls to execute: never by a stop rule, and going on only for the one reminder. */
  ghost predicate EndsAfterAnswer(config: Config, m: Memory, n: nat, input: TurnInput, e: Effect) {
    if input.cancelled then e.ending == Cancelled && !e.reminded
    else if LimitReached(config, n) then e.ending == MaxTurnsReached && !e.reminded
    else if ReminderDue(config, m, n, input) then e.ending == Continued && e.reminded
    else e.ending == Completed && !e.reminded
  }

  lemma FinishEnds(config: Config, m: Memory, n: nat, first: Option<Reply>, input: TurnInput)
    requires first.None? || first.value.calls == []
    ensures EndsAfterAnswer(config, m, n, input, Finish(config, m, n, first, input))
  {
  }

  /**
   * A turn in which the model asked for no tools appends its answer, or nothing if it said nothing, then at most the
   * reminder; it is cancelled, at the limit or complete, and goes on only for the reminder.
   */
  lemma TurnShowsAnswer(config: Config, m: Memory, n: nat, input: TurnInput)
    requires SaidNothing(input.call) || exists r :: Said(input.call, r) && r.calls == []
    ensures var e, a := Turn(config, m, n, input), Ask(config, m.messages, m.meta, input);
      if !a.ok then e.ending.Errored?
      else
        var at := |a.messages|;
        && a.messages <= e.memory.messages && EndsAfterAnswer(config, m, n, input, e)
        && (if SaidNothing(input.call) then |e.memory.messages| <= at + 1
            else at + 1 <= |e.memory.messages| <= at + 2
                 && exists r :: Said(input.call, r) && IsAnswer(e.memory.messages[at], r, [], input.now))
        && (e.reminded <==> |e.memory.messages| == at + (if SaidNothing(input.call) then 1 else 2))
        && (e.reminded ==> e.memory.messages[|e.memory.messages| - 1].role == User)
  {
    var a := Ask(config, m.messages, m.meta, input);
    var first := RecoveredAnswer(None, input.call);
    AnswersAre(None, input.call);
    var m' := m.(messages := a.messages, meta := a.meta);
    FinishAddsAnswer(config, m', n, first, input);
    FinishEnds(config, m', n, first, input);
    if first.Some? {
      AnswerIs(first.value, input.now);
    }
  }

  /**
   * Without tool execution, a runtime or an agent id, a turn appends the model's answer with its calls as they are, no
   * result, and at most the reminder.
   */
  lemma TurnWithoutTools(config: Config, m: Memory, n: nat, first: Reply, input: TurnInput)
    requires !config.toolExecution || !config.hasRuntime || !config.hasAgentId
    requires RecoveredAnswer(None, input.call) == Some(first)
    ensures var e, a := Turn(config, m, n, input), Ask(config, m.messages, m.meta, input);
      if !a.ok then e.ending.Errored?
      else
        var at := |a.messages|;
        && a.messages <= e.memory.messages && at + 1 <= |e.memory.messages| <= at + 2
        && IsAnswer(e.memory.messages[at], first, first.calls, input.now) && e.memory.streak == m.streak
        && (|e.memory.messages| == at + 2 <==> e.reminded)
  {
    var a := Ask(config, m.messages, m.meta, input);
    FinishAddsAnswer(config, m.(messages := a.messages, meta := a.meta), n, Some(first), input);
    AnswerIs(first, input.now);
  }

  // ---- notes ------------------------------------------------------------------------------------------------------

  lemma {:induction false} StreakSplits(s: Streak, a: seq<Result>, b: seq<Result>)
    ensures StreakAfter(s, a + b) == StreakAfter(StreakAfter(s, a), b)
  {
    if b == [] {
      assert a + b == a;
    } else {
      var n := |b| - 1;
      assert (a + b)[..|a + b| - 1] == a + b[..n];
      StreakSplits(s, a, b[..n]);
    }
  }

  /** Of all results so far, the last ones, up to `reported[k]`, repeat one call three, six or nine times, and so on. */
  ghost predicate NoteDue(earlier: seq<Result>, reported: seq<Result>, k: nat) {
    k < |reported| && exists n: nat :: EndsInRun(earlier + reported[..k + 1], n) && n % 3 == 0
  }

  /** Where the run of length `n` starts, if it does not start with the results. */
  predicate StartsRun(results: seq<Result>, n: nat) {
    0 < n < |results| && !Repeated(results[|results| - n - 1], results[|results| - n])
  }

  lemma RunIsUnique(results: seq<Result>, n: nat, m: nat)
    requires EndsInRun(results, n) && EndsInRun(results, m)
    ensures n == m
  {
    assert n < |results| <==> StartsRun(results, n);
    assert m < |results| <==> StartsRun(results, m);
  }

  lemma NoteDueIs(earlier: seq<Result>, reported: seq<Result>, k: nat)
    requires k < |reported|
    ensures Counted(StreakAfter(StreakAfter(FRESH, earlier), reported[..k]), reported[k]).1 <==> NoteDue(earlier, reported, k)
  {
    StreakSplits(FRESH, earlier, reported[..k]);
    var n := NoteIsDueIff(earlier + reported[..k], reported[k]);
    assert earlier + reported[..k] + [reported[k]] == earlier + reported[..k + 1];
    if m: nat :| EndsInRun(earlier + reported[..k + 1], m) && m % 3 == 0 {
      RunIsUnique(earlier + reported[..k + 1], n, m);
    }
  }

  /** Of the first `n`, the last one that is due; `None` if none is. */
  ghost predicate LastDue(reported: seq<Result>, due: nat -> bool, n: nat, note: Option<Result>) {
    match note
    case None => forall k: nat :: k < n ==> !due(k)
    case Some(r) => exists k: nat :: k < n && IsLastDue(reported, due, n, r, k)
  }

  ghost predicate IsLastDue(reported: seq<Result>, due: nat -> bool, n: nat, r: Result, k: nat) {
    k < |reported| && reported[k] == r && due(k) && forall j: nat :: k < j < n ==> !due(j)
  }

  lemma LastDueNext(reported: seq<Result>, due: nat -> bool, n: nat, note: Option<Result>)
    requires n < |reported| && LastDue(reported, due, n, note)
    ensures LastDue(reported, due, n + 1, if due(n) then Some(reported[n]) else note)
  {
    if due(n) {
      assert IsLastDue(reported, due, n + 1, reported[n], n);
    } else if note.Some? {
      var k: nat :| k < n && IsLastDue(reported, due, n, note.value, k);
      assert IsLastDue(reported, due, n + 1, note.value, k);
    }
  }

  /** Counting on from `s`, a note falls due at `reported[k]`. */
  predicate FallsDue(s: Streak, reported: seq<Result>, k: nat) {
    k < |reported| && Counted(StreakAfter(s, reported[..k]), reported[k]).1
  }

  lemma LastNoteNext(s: Streak, reported: seq<Result>, n: nat)
    requires n < |reported|
    ensures LastNote(s, reported[..n + 1]) == if FallsDue(s, reported, n) then Some(reported[n]) else LastNote(s, reported[..n])
  {
    assert reported[..n + 1][..n] == reported[..n];
  }

  lemma NoteStep(s: Streak, reported: seq<Result>, due: nat -> bool, n: nat)
    requires n < |reported| && (FallsDue(s, reported, n) <==> due(n)) && LastDue(reported, due, n, LastNote(s, reported[..n]))
    ensures LastDue(reported, due, n + 1, LastNote(s, reported[..n + 1]))
  {
    LastNoteNext(s, reported, n);
    LastDueNext(reported, due, n, LastNote(s, reported[..n]));
  }

  lemma {:induction false} LastNoteIs(s: Streak, reported: seq<Result>, due: nat -> bool, n: nat)
    requires n <= |reported| && forall k: nat :: k < |reported| ==> (FallsDue(s, reported, k) <==> due(k))
    ensures LastDue(reported, due, n, LastNote(s, reported[..n]))
  {
    if n > 0 {
      LastNoteIs(s, reported, due, n - 1);
      NoteStep(s, reported, due, n - 1);
    }
  }

  /** A message to the model about a call that was repeated. */
  predicate IsNoteOn(m: ChatMessage, r: Result, now: nat) {
    && m.role == User && m.timestampMs == now
    && m.blocks == [Text("The `" + r.call.toolName + "` call has now "
                         + (if r.outcome.ToolError? || r.outcome.Failed? || r.outcome.Denied? then "failed" else "run")
                         + " 3 times in a row")]
  }

  ghost function Due(earlier: seq<Result>, reported: seq<Result>): nat -> bool { (k: nat) => NoteDue(earlier, reported, k) }

  /**
   * After any earlier results, a batch is followed by a note if and only if no call is suspended and one of its reported
   * results completes a run of three, six or nine identical ones, and so on; it is about the last that does.
   */
  lemma NotesMean(earlier: seq<Result>, results: seq<Result>, now: nat) returns (note: Option<Result>)
    ensures var notes, reported := Notes(StreakAfter(FRESH, earlier), results, now), Filter(results, IsReported);
      && LastDue(reported, Due(earlier, reported), |reported|, note)
      && (notes == [] <==> Filter(results, IsSuspended) != [] || note.None?)
      && (notes != [] ==> |notes| == 1 && IsNoteOn(notes[0], note.value, now))
  {
    var reported := Filter(results, IsReported);
    var due := Due(earlier, reported);
    forall k: nat | k < |reported|
      ensures FallsDue(StreakAfter(FRESH, earlier), reported, k) <==> due(k)
    {
      NoteDueIs(earlier, reported, k);
    }
    LastNoteIs(StreakAfter(FRESH, earlier), reported, due, |reported|);
    assert reported[..|reported|] == reported;
    note := LastNote(StreakAfter(FRESH, earlier), reported);
  }
}
