/**
 * What one turn of the agent loop does to the loop state, as a function of the state and of everything the turn
 * is told: model answers, tool outcomes, compression verdicts, prompt building and cancellation.
 */
module TurnSpec {
  import opened Options
  import opened Messages
  import opened ContextManager
  import opened TokenCache
  import opened ToolExec
  import opened LoopHistory
  import opened Lists
  import opened Chars

  datatype Config = Config(
    maxTurns: nat,
    tail: nat,
    toolExecution: bool,
    hasRuntime: bool,
    hasAgentId: bool,
    visible: seq<string>,
    stopAfter: seq<string>,
    overhead: nat,
    available: nat)
  {
    predicate ToolPath() { toolExecution && hasRuntime && hasAgentId }

    predicate CanExecute() { toolExecution && visible != [] && hasRuntime }

    /** The tools a request of turn `n` offers. */
    function Offer(n: nat): seq<string> { if maxTurns > 0 && n >= maxTurns then [] else visible }
  }

  /** `Partial` is a stream cut by cancellation; `Silent` is cancellation before anything arrived. */
  datatype LlmOutcome =
    | Answered(reply: Reply)
    | Partial(text: string, reasoning: string)
    | Silent
    | TooLong
    | Broken

  datatype CompressInput = CompressInput(needed: bool, should: bool, summarize: Summarizer)

  /** One `llm_call_with_recovery`: the second call happens only if the first was too long. */
  datatype RecoveryInput = RecoveryInput(first: LlmOutcome, compress: CompressInput, builds: bool, second: LlmOutcome)

  datatype TurnInput = TurnInput(
    drained: History,
    automatic: CompressInput,
    builds: bool,
    preCheck: CompressInput,
    preCheckBuilds: bool,
    call: RecoveryInput,
    retryBuilds: bool,
    retry: RecoveryInput,
    execute: nat -> Outcome,
    cancelled: bool,
    openTodos: nat,
    now: nat)
  {
    /** Queued messages are plain user messages, not counted yet. */
    predicate Legal() { forall m <- drained :: IsPlain(m) }
  }

  predicate IsPlain(m: ChatMessage) {
    m.role == User && Uses(m) == [] && Results(m) == [] && m.estimatedTokens.None?
  }

  datatype Decision = Continue | ReturnComplete | ReturnMaxTurns | ReturnCancelled

  datatype Ending = Continued | Completed | MaxTurnsReached | Cancelled | OnHold(calls: seq<Call>) | Errored

  function EndingOf(d: Decision): Ending {
    match d
    case Continue => Continued
    case ReturnComplete => Completed
    case ReturnMaxTurns => MaxTurnsReached
    case ReturnCancelled => Cancelled
  }

  /** Endings that count as a turn. */
  predicate CountsAsTurn(e: Ending) { e.Continued? || e.Completed? || e.MaxTurnsReached? }

  // ---- model calls ------------------------------------------------------------------------------------------------

  function NoneEmpty(s: string): Option<string> { if s == "" then None else Some(s) }

  /** The turn's assistant message after a model call. */
  function AnswerAfter(was: Option<Reply>, o: LlmOutcome): (r: Option<Reply>)
    ensures was.Some? ==> r.Some?
  {
    match o
    case Answered(reply) => Some(reply)
    case Partial(text, reasoning) =>
      if text == "" && reasoning == "" then was else Some(Reply(NoneEmpty(text), NoneEmpty(reasoning), [], 0))
    case _ => was
  }

  /** History and compression state after a recovery: compressed exactly if the first call was too long. */
  function HistoryAfter(h: History, meta: Meta, tail: nat, r: RecoveryInput): (History, Meta) {
    if r.first.TooLong? then
      match CompressStep(h, meta, tail, r.compress.should, r.compress.summarize)
      case Some(x) => x
      case None => (h, meta)
    else (h, meta)
  }

  function RecoveredAnswer(was: Option<Reply>, r: RecoveryInput): (answer: Option<Reply>)
    ensures was.Some? ==> answer.Some?
  {
    AnswerAfter(was, if r.first.TooLong? then r.second else r.first)
  }

  /** No call goes unanswered for want of tools: they can be executed, or the model asks for none. */
  predicate CallsAreAnswered(config: Config, input: TurnInput) {
    var first := RecoveredAnswer(None, input.call);
    config.ToolPath() || first.None? || first.value.calls == []
  }

  predicate Succeeds(o: LlmOutcome) { !o.TooLong? && !o.Broken? }

  predicate RecoverySucceeds(h: History, meta: Meta, tail: nat, r: RecoveryInput) {
    if r.first.TooLong? then
      CompressStep(h, meta, tail, r.compress.should, r.compress.summarize).Some? && r.builds && Succeeds(r.second)
    else Succeeds(r.first)
  }

  /** Model calls made: a second one only after an overlong context that was compressed and put into a request again. */
  function RecoveryCalls(h: History, meta: Meta, tail: nat, r: RecoveryInput): nat {
    if r.first.TooLong? && CompressStep(h, meta, tail, r.compress.should, r.compress.summarize).Some? && r.builds then 2 else 1
  }

  // ---- before the model call --------------------------------------------------------------------------------------

  predicate CompressRuns(c: CompressInput, forced: bool) { forced || c.needed }

  function AfterCompress(tail: nat, s: (History, Meta), c: CompressInput, forced: bool): (History, Meta) {
    if !CompressRuns(c, forced) then s
    else match CompressStep(s.0, s.1, tail, c.should, c.summarize) case Some(x) => x case None => s
  }

  predicate CompressFails(tail: nat, s: (History, Meta), c: CompressInput, forced: bool) {
    CompressRuns(c, forced) && CompressStep(s.0, s.1, tail, c.should, c.summarize).None?
  }

  /** Before the model call: queued messages, compression, and, over budget, compression again. */
  function Prepared(config: Config, h: History, meta: Meta, input: TurnInput): (History, Meta) {
    var drained := (h + RefreshAll(input.drained), meta);
    var first := AfterCompress(config.tail, drained, input.automatic, false);
    if CompressFails(config.tail, drained, input.automatic, false) || !input.builds
       || config.overhead + Total(first.0) <= config.available
    then first else AfterCompress(config.tail, first, input.preCheck, true)
  }

  predicate PrepareSucceeds(config: Config, h: History, meta: Meta, input: TurnInput) {
    var drained := (h + RefreshAll(input.drained), meta);
    var first := AfterCompress(config.tail, drained, input.automatic, false);
    && !CompressFails(config.tail, drained, input.automatic, false) && input.builds
    && (config.overhead + Total(first.0) > config.available ==>
          !CompressFails(config.tail, first, input.preCheck, true) && input.preCheckBuilds)
  }

  // ---- the answer whose calls count -------------------------------------------------------------------------------

  /** The first answer's calls are retried when all that is left of them is one invalid call. */
  predicate NeedsRetry(calls: seq<Call>) {
    Filter(calls, IsValid) == [] && |Filter(calls, IsInvalid)| == 1
  }

  function CallsIn(config: Config, turnCount: nat, reply: Reply): seq<Call> {
    Normalized(reply.calls, turnCount, config.visible)
  }

  /** The first answer, or, if all it had was one invalid call, the answer after the retry. */
  function Settled(config: Config, turnCount: nat, first: Reply, input: TurnInput): Reply {
    var calls := CallsIn(config, turnCount, first);
    if NeedsRetry(calls) then RecoveredAnswer(Some(first.(calls := calls)), input.retry).value else first
  }

  function Popped(h: History): History { if h == [] then [] else h[..|h| - 1] }

  /** The error message the retry shows the model. */
  function Pushed(calls: seq<Call>, now: nat): ChatMessage
    requires NeedsRetry(calls)
  {
    InvalidCallMessage(Filter(calls, IsInvalid)[0], now)
  }

  /** The history the settled answer is appended to: without the error message again, compressed if recovery did so. */
  function SettledOn(config: Config, turnCount: nat, s: (History, Meta), first: Reply, input: TurnInput): (History, Meta) {
    var calls := CallsIn(config, turnCount, first);
    if NeedsRetry(calls) && input.retryBuilds then
      var after := HistoryAfter(s.0 + [Pushed(calls, input.now)], s.1, config.tail, input.retry);
      (Popped(after.0), after.1)
    else s
  }

  predicate SettleSucceeds(config: Config, turnCount: nat, s: (History, Meta), first: Reply, input: TurnInput) {
    var calls := CallsIn(config, turnCount, first);
    NeedsRetry(calls) ==>
      input.retryBuilds && RecoverySucceeds(s.0 + [Pushed(calls, input.now)], s.1, config.tail, input.retry)
  }

  /** Model calls made by the retry. */
  function RetryCalls(config: Config, turnCount: nat, s: (History, Meta), first: Reply, input: TurnInput): nat {
    var calls := CallsIn(config, turnCount, first);
    if NeedsRetry(calls) && input.retryBuilds
    then RecoveryCalls(s.0 + [Pushed(calls, input.now)], s.1, config.tail, input.retry) else 0
  }

  /** An answer with its calls as executed: the valid ones, joins last. */
  function Executed(config: Config, turnCount: nat, reply: Reply): Reply {
    reply.(calls := Executable(CallsIn(config, turnCount, reply)))
  }

  // ---- results ----------------------------------------------------------------------------------------------------

  function NoteText(r: Result): string {
    "The `" + r.call.toolName + "` call has now " + (if IsFailure(r) then "failed" else "run") + " 3 times in a row"
  }

  /** The last reported result at which a note fell due. */
  function LastNote(s: Streak, reported: seq<Result>): Option<Result> {
    if reported == [] then None
    else
      var before, r := reported[..|reported| - 1], reported[|reported| - 1];
      if Counted(StreakAfter(s, before), r).1 then Some(r) else LastNote(s, before)
  }

  /** The injected note: only once no call is suspended. */
  function Notes(s: Streak, results: seq<Result>, now: nat): History {
    var note := LastNote(s, Filter(results, IsReported));
    if Filter(results, IsSuspended) == [] && note.Some? then [UserNote(NoteText(note.value), now)] else []
  }

  predicate Stops(stopAfter: seq<string>, r: Result) { r.outcome.Success? && r.call.toolName in stopAfter }

  predicate AnyStops(stopAfter: seq<string>, results: seq<Result>) {
    exists i :: 0 <= i < |results| && Stops(stopAfter, results[i])
  }

  /**
   * One exchange with the model: an assistant message, then one result per call that is not suspended, in call order,
   * then at most one note.
   */
  function Exchange(reply: Reply, results: seq<Result>, s: Streak, now: nat): History {
    [AssistantMessage(reply, now)] + ResultMessages(Filter(results, IsReported), now) + Notes(s, results, now)
  }

  lemma ExchangeIsAppended(base: History, reply: Reply, results: seq<Result>, s: Streak, now: nat)
    ensures base + [AssistantMessage(reply, now)] + ResultMessages(Filter(results, IsReported), now) + Notes(s, results, now)
         == base + Exchange(reply, results, s, now)
  {
    var answer, reported := [AssistantMessage(reply, now)], ResultMessages(Filter(results, IsReported), now);
    Regroup(base, answer, reported);
    Regroup(base, answer + reported, Notes(s, results, now));
  }

  /** What recording a batch accumulates. */
  datatype Recording = Recording(added: History, streak: Streak, note: Option<Result>, stop: bool, suspended: seq<Call>)

  function RecordOne(stopAfter: seq<string>, acc: Recording, r: Result, now: nat): Recording {
    var stop := acc.stop || Stops(stopAfter, r);
    if IsSuspended(r) then acc.(stop := stop, suspended := acc.suspended + [r.call])
    else
      var c := Counted(acc.streak, r);
      Recording(acc.added + [ResultMessage(r, now)], c.0, if c.1 then Some(r) else acc.note, stop, acc.suspended)
  }

  /** The same, read off the whole batch. */
  ghost function Recorded(stopAfter: seq<string>, s: Streak, results: seq<Result>, now: nat): Recording {
    var reported := Filter(results, IsReported);
    Recording(ResultMessages(reported, now), StreakAfter(s, reported), LastNote(s, reported),
              AnyStops(stopAfter, results), CallsOf(Filter(results, IsSuspended)))
  }

  lemma ReportedNext(s: Streak, reported: seq<Result>, r: Result, now: nat)
    ensures StreakAfter(s, reported + [r]) == Counted(StreakAfter(s, reported), r).0
    ensures LastNote(s, reported + [r])
         == if Counted(StreakAfter(s, reported), r).1 then Some(r) else LastNote(s, reported)
    ensures ResultMessages(reported + [r], now) == ResultMessages(reported, now) + [ResultMessage(r, now)]
  {
    assert (reported + [r])[..|reported + [r]| - 1] == reported;
  }

  lemma CallsNext(results: seq<Result>, r: Result)
    ensures CallsOf(results + [r]) == CallsOf(results) + [r.call]
  {
  }

  lemma StopsNext(stopAfter: seq<string>, results: seq<Result>, i: nat)
    requires i < |results|
    ensures AnyStops(stopAfter, results[..i + 1]) <==> AnyStops(stopAfter, results[..i]) || Stops(stopAfter, results[i])
  {
    var a, b := results[..i], results[..i + 1];
    assert forall j :: 0 <= j < i ==> a[j] == b[j];
    assert b[i] == results[i];
  }

  lemma RecordedNext(stopAfter: seq<string>, s: Streak, results: seq<Result>, i: nat, now: nat)
    requires i < |results|
    ensures Recorded(stopAfter, s, results[..i + 1], now)
         == RecordOne(stopAfter, Recorded(stopAfter, s, results[..i], now), results[i], now)
  {
    FilterNext(results, i, IsReported);
    FilterNext(results, i, IsSuspended);
    StopsNext(stopAfter, results, i);
    ReportedNext(s, Filter(results[..i], IsReported), results[i], now);
    CallsNext(Filter(results[..i], IsSuspended), results[i]);
  }

  // ---- the tool phase ---------------------------------------------------------------------------------------------

  /**
   * What the tool phase leaves: the history, the answer as appended, the results, whether a stop rule matched, and how
   * many model calls it made.
   */
  datatype Phase = Phase(
    ok: bool,
    messages: History,
    meta: Meta,
    answer: Option<Reply>,
    results: seq<Result>,
    streak: Streak,
    stop: bool,
    asked: nat)

  /** With the tool path on, and calls in the first answer. */
  function CallPhase(config: Config, m: Memory, first: Reply, input: TurnInput): Phase {
    var base := SettledOn(config, m.turnCount, (m.messages, m.meta), first, input);
    var asked := RetryCalls(config, m.turnCount, (m.messages, m.meta), first, input);
    if !SettleSucceeds(config, m.turnCount, (m.messages, m.meta), first, input) then
      Phase(false, base.0, base.1, None, [], m.streak, false, asked)
    else
      var reply := Executed(config, m.turnCount, Settled(config, m.turnCount, first, input));
      var results := Batch(reply.calls, input.execute);
      Phase(true, base.0 + Exchange(reply, results, m.streak, input.now), base.1, Some(reply), results,
            StreakAfter(m.streak, Filter(results, IsReported)),
            Filter(results, IsSuspended) == [] && AnyStops(config.stopAfter, results), asked)
  }

  function ToolPhase(config: Config, m: Memory, first: Option<Reply>, input: TurnInput): Phase {
    match first
    case None => Phase(true, m.messages, m.meta, None, [], m.streak, false, 0)
    case Some(reply) =>
      if reply.calls == [] || !config.ToolPath() then
        Phase(true, m.messages + [AssistantMessage(reply, input.now)], m.meta, first, [], m.streak, false, 0)
      else CallPhase(config, m, reply, input)
  }

  // ---- the decision -----------------------------------------------------------------------------------------------

  predicate WantsTools(config: Config, answer: Option<Reply>) {
    answer.Some? && answer.value.calls != [] && config.CanExecute()
  }

  predicate AtLimit(config: Config, n: nat) { config.maxTurns > 0 && n >= config.maxTurns }

  /** The one reminder of open plan items. */
  predicate Reminds(config: Config, n: nat, nudged: bool, answer: Option<Reply>, stop: bool, input: TurnInput) {
    && !input.cancelled && !stop && !WantsTools(config, answer)
    && n < config.maxTurns && !nudged && config.hasRuntime && input.openTodos > 0
  }

  function Decided(config: Config, n: nat, nudged: bool, answer: Option<Reply>, stop: bool, input: TurnInput): Ending {
    if input.cancelled then Cancelled
    else if stop then Completed
    else if AtLimit(config, n) then MaxTurnsReached
    else if WantsTools(config, answer) || Reminds(config, n, nudged, answer, stop, input) then Continued
    else Completed
  }

  function Reminder(reminded: bool, input: TurnInput): History {
    if reminded then [UserNote(ReminderText(input.openTodos), input.now)] else []
  }

  function ReminderText(openTodos: nat): string {
    "You are about to stop, but your plan still has " + DecimalText(openTodos) + " open item(s)"
  }

  // ---- one turn ---------------------------------------------------------------------------------------------------

  /** What the loop state carries from turn to turn. */
  datatype Memory = Memory(messages: History, meta: Meta, turnCount: nat, planNudged: bool, streak: Streak)

  /** `asked` is the number of model calls. */
  datatype Effect = Effect(memory: Memory, ending: Ending, reminded: bool, asked: nat)

  function Failure(m: Memory, s: (History, Meta), asked: nat): Effect {
    Effect(m.(messages := s.0, meta := s.1), Errored, false, asked)
  }

  /** The end of a turn whose tool phase left `t`. */
  function Conclude(config: Config, m: Memory, n: nat, t: Phase, input: TurnInput): Effect {
    var waiting := Filter(t.results, IsSuspended);
    if !t.ok then Failure(m, (t.messages, t.meta), t.asked)
    else if waiting != [] then
      Effect(m.(messages := t.messages, meta := t.meta, streak := t.streak), OnHold(CallsOf(waiting)), false, t.asked)
    else
      var reminded := Reminds(config, n, m.planNudged, t.answer, t.stop, input);
      var ending := Decided(config, n, m.planNudged, t.answer, t.stop, input);
      Effect(Memory(t.messages + Reminder(reminded, input), t.meta, m.turnCount + (if CountsAsTurn(ending) then 1 else 0),
                    m.planNudged || reminded, t.streak),
             ending, reminded, t.asked)
  }

  /** The turn from its first answer on. */
  function Finish(config: Config, m: Memory, n: nat, first: Option<Reply>, input: TurnInput): Effect {
    Conclude(config, m, n, ToolPhase(config, m, first, input), input)
  }

  /** A turn up to its first answer: whether it got one, the history it is for, and the model calls made. */
  datatype Asked = Asked(ok: bool, messages: History, meta: Meta, asked: nat)

  function Ask(config: Config, h: History, meta: Meta, input: TurnInput): Asked {
    var p := Prepared(config, h, meta, input);
    if !PrepareSucceeds(config, h, meta, input) then Asked(false, p.0, p.1, 0)
    else
      var c := HistoryAfter(p.0, p.1, config.tail, input.call);
      Asked(RecoverySucceeds(p.0, p.1, config.tail, input.call), c.0, c.1,
            RecoveryCalls(p.0, p.1, config.tail, input.call))
  }

  /** The turn once the model was asked. */
  function TurnAfter(config: Config, m: Memory, n: nat, a: Asked, input: TurnInput): Effect {
    if !a.ok then Failure(m, (a.messages, a.meta), a.asked)
    else
      var e := Finish(config, m.(messages := a.messages, meta := a.meta), n, RecoveredAnswer(None, input.call), input);
      e.(asked := a.asked + e.asked)
  }

  /** Turn `n` of a run, from the loop state before it. */
  function Turn(config: Config, m: Memory, n: nat, input: TurnInput): Effect {
    TurnAfter(config, m, n, Ask(config, m.messages, m.meta, input), input)
  }
}
