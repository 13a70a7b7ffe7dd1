/**
 * The agent loop: one turn drains user messages, compresses, builds a request, calls the model (with one
 * recovery from an overlong context), executes tool calls and decides how to go on.
 */
module AgentLoop {
  import opened Options
  import opened Messages
  import opened ContextManager
  import opened TokenCache
  import opened ToolExec
  import opened LoopHistory
  import opened Lists
  import opened TurnSpec
  import opened LoopLog
  import opened TurnProofs

  class AgentLoop {
    const config: Config
    // the loop state
    var messages: History
    var meta: Meta
    var turnCount: nat
    var planNudged: bool
    var streak: Streak
    // the current turn
    var turn: nat
    var assistant: Option<Reply>
    var offered: Option<seq<string>>
    var forceComplete: bool
    // the tools offered by every model call so far, and the turns of the current run
    ghost var offers: seq<seq<string>>
    ghost var log: seq<TurnRecord>
    // the turn function
    ghost const play: Play

    ghost function State(): Memory
      reads this
    {
      Memory(messages, meta, turnCount, planNudged, streak)
    }

    /** `play` is the turn function, for every state, number and input. */
    ghost predicate Valid() { IsTurn(config, play) }

    constructor (config: Config, messages: History)
      ensures Valid() && this.config == config && State() == Memory(messages, Meta(None, None), 0, false, FRESH)
    {
      this.config := config;
      play := (m: Memory, n: nat, input: TurnInput) => Turn(config, m, n, input);
      this.messages := messages;
      meta := Meta(None, None);
      turnCount, planNudged, streak := 0, false, FRESH;
      turn, assistant, offered, forceComplete := 1, None, None, false;
      offers, log := [], [];
    }

    method Compress(input: CompressInput, forced: bool) returns (ok: bool)
      modifies `messages, `meta
      ensures (messages, meta) == AfterCompress(config.tail, old((messages, meta)), input, forced)
      ensures ok == !CompressFails(config.tail, old((messages, meta)), input, forced)
    {
      if !forced && !input.needed {
        return true;
      }
      var r := CompressStep(messages, meta, config.tail, input.should, input.summarize);
      if r.None? {
        return false;
      }
      messages, meta := r.value.0, r.value.1;
      ok := true;
    }

    method BuildMessages(builds: bool) returns (ok: bool)
      modifies `offered
      ensures ok == builds
      ensures offered == if builds then Some(config.Offer(turn)) else old(offered)
    {
      if builds {
        offered := Some(if config.maxTurns > 0 && turn >= config.maxTurns then [] else config.visible);
      }
      ok := builds;
    }

    method LlmCall(outcome: LlmOutcome) returns (ok: bool)
      requires offered.Some?
      modifies `assistant, `offers
      ensures ok == !(outcome.TooLong? || outcome.Broken?)
      ensures assistant == AnswerAfter(old(assistant), outcome)
      ensures offers == old(offers) + [offered.value]
    {
      offers := offers + [offered.value];
      ok := true;
      match outcome
      case Answered(reply) => assistant := Some(reply);
      case Partial(text, reasoning) =>
        if text != "" || reasoning != "" {
          assistant := Some(Reply(NoneEmpty(text), NoneEmpty(reasoning), [], 0));
        }
      case Silent =>
      case TooLong => ok := false;
      case Broken => ok := false;
    }

    /** Exactly `calls` model calls were made, all offering the tools of the turn. */
    ghost predicate OffersSince(was: seq<seq<string>>, calls: nat)
      reads this
    {
      offers == was + Offers(config, turn, calls)
    }

    method LlmCallWithRecovery(input: RecoveryInput) returns (ok: bool)
      requires offered == Some(config.Offer(turn))
      modifies `messages, `meta, `offered, `assistant, `offers
      ensures OffersSince(old(offers), RecoveryCalls(old(messages), old(meta), config.tail, input))
      ensures offered == Some(config.Offer(turn))
      ensures (messages, meta) == HistoryAfter(old(messages), old(meta), config.tail, input)
      ensures ok == RecoverySucceeds(old(messages), old(meta), config.tail, input)
      ensures ok ==> assistant == RecoveredAnswer(old(assistant), input)
      ensures old(assistant).Some? ==> assistant.Some?
    {
      ok := LlmCall(input.first);
      if input.first.TooLong? {
        ok := Compress(input.compress, true);
        if !ok {
          return;
        }
        ok := BuildMessages(input.builds);
        if !ok {
          return;
        }
        ok := LlmCall(input.second);
      }
    }

    method NormalizedToolCalls() returns (calls: seq<Call>)
      requires assistant.Some?
      modifies `assistant
      ensures calls == Normalized(old(assistant.value.calls), turnCount, config.visible)
      ensures assistant == Some(old(assistant.value).(calls := calls))
    {
      calls := SynthesizeMissingCallIds(assistant.value.calls, turnCount);
      calls := RepairToolNames(calls, config.visible);
      assistant := Some(assistant.value.(calls := calls));
    }

    /** One retry of a single invalid call; its error message is popped again whatever came of it. */
    method RetryInvalidCall(calls: seq<Call>, input: TurnInput) returns (ok: bool)
      requires assistant.Some? && NeedsRetry(calls) && offered == Some(config.Offer(turn))
      modifies `messages, `meta, `offered, `assistant, `offers
      ensures assistant.Some?
      ensures var pushed := old(messages) + [Pushed(calls, input.now)];
        var after := HistoryAfter(pushed, old(meta), config.tail, input.retry);
        && (messages, meta) == (if input.retryBuilds then (Popped(after.0), after.1) else old((messages, meta)))
        && ok == (input.retryBuilds && RecoverySucceeds(pushed, old(meta), config.tail, input.retry))
        && OffersSince(old(offers), if input.retryBuilds then RecoveryCalls(pushed, old(meta), config.tail, input.retry) else 0)
      ensures ok ==> assistant == RecoveredAnswer(old(assistant), input.retry)
    {
      messages := messages + [InvalidCallMessage(Filter(calls, IsInvalid)[0], input.now)];
      ok := BuildMessages(input.retryBuilds);
      if ok {
        ok := LlmCallWithRecovery(input.retry);
      }
      messages := Popped(messages);
    }

    /** The answer whose calls count becomes the turn's answer, its calls normalised. */
    method SettleCalls(input: TurnInput) returns (ok: bool)
      requires assistant.Some? && offered == Some(config.Offer(turn))
      modifies `messages, `meta, `offered, `assistant, `offers
      ensures OffersSince(old(offers), RetryCalls(config, turnCount, old((messages, meta)), old(assistant.value), input))
      ensures (messages, meta) == SettledOn(config, turnCount, old((messages, meta)), old(assistant.value), input)
      ensures ok == SettleSucceeds(config, turnCount, old((messages, meta)), old(assistant.value), input)
      ensures var reply := Settled(config, turnCount, old(assistant.value), input);
        ok ==> assistant == Some(reply.(calls := CallsIn(config, turnCount, reply)))
    {
      ok := true;
      var calls := NormalizedToolCalls();
      if Filter(calls, IsValid) == [] && |Filter(calls, IsInvalid)| == 1 {
        ok := RetryInvalidCall(calls, input);
        if ok {
          calls := NormalizedToolCalls();
        }
      }
    }

    /** One assistant message holding exactly the valid calls of the settled answer, joins last. */
    method ProcessLlmToolCalls(input: TurnInput) returns (ok: bool)
      requires assistant.Some? && offered == Some(config.Offer(turn))
      modifies `messages, `meta, `offered, `assistant, `offers
      ensures OffersSince(old(offers), RetryCalls(config, turnCount, old((messages, meta)), old(assistant.value), input))
      ensures ok == SettleSucceeds(config, turnCount, old((messages, meta)), old(assistant.value), input)
      ensures var base := SettledOn(config, turnCount, old((messages, meta)), old(assistant.value), input);
        var reply := Executed(config, turnCount, Settled(config, turnCount, old(assistant.value), input));
        && meta == base.1
        && (ok ==> assistant == Some(reply) && messages == base.0 + [AssistantMessage(reply, input.now)])
        && (!ok ==> messages == base.0)
    {
      ok := SettleCalls(input);
      if ok {
        assistant := Some(assistant.value.(calls := JoinsLast(Filter(assistant.value.calls, IsValid))));
        AppendAssistant(input.now);
      }
    }

    method AppendAssistant(now: nat)
      requires assistant.Some?
      modifies `messages
      ensures messages == old(messages) + [AssistantMessage(assistant.value, now)]
    {
      messages := messages + [AssistantMessage(assistant.value, now)];
    }

    method PushNote(text: string, now: nat)
      modifies `messages
      ensures messages == old(messages) + [UserNote(text, now)]
    {
      messages := messages + [UserNote(text, now)];
    }

    method RecordEach(results: seq<Result>, now: nat) returns (suspended: seq<Call>, note: Option<Result>, stop: bool)
      modifies `messages, `streak
      ensures var r := Recorded(config.stopAfter, old(streak), results, now);
        && messages == old(messages) + r.added && streak == r.streak
        && note == r.note && stop == r.stop && suspended == r.suspended
    {
      suspended, note, stop := [], None, false;
      ghost var added: History := [];
      for i := 0 to |results|
        invariant Recording(added, streak, note, stop, suspended) == Recorded(config.stopAfter, old(streak), results[..i], now)
        invariant messages == old(messages) + added
      {
        var r := results[i];
        RecordedNext(config.stopAfter, old(streak), results, i, now);
        if Stops(config.stopAfter, r) {
          stop := true;
        }
        if IsSuspended(r) {
          suspended := suspended + [r.call];
        } else {
          messages := messages + [ResultMessage(r, now)];
          added := added + [ResultMessage(r, now)];
          if Counted(streak, r).1 {
            note := Some(r);
          }
          streak := Counted(streak, r).0;
        }
      }
      assert results[..|results|] == results;
    }

    /** Results in call order, nothing between them; a note only at the end and only if nothing is suspended. */
    method RecordToolResults(results: seq<Result>, now: nat) returns (suspended: seq<Call>)
      modifies `messages, `streak, `forceComplete
      ensures messages == old(messages) + ResultMessages(Filter(results, IsReported), now) + Notes(old(streak), results, now)
      ensures suspended == CallsOf(Filter(results, IsSuspended))
      ensures streak == StreakAfter(old(streak), Filter(results, IsReported))
      ensures forceComplete == (old(forceComplete) || (suspended == [] && AnyStops(config.stopAfter, results)))
    {
      var note, stop;
      suspended, note, stop := RecordEach(results, now);
      assert Filter(results, IsSuspended) == [] <==> suspended == [];
      if stop && suspended == [] {
        forceComplete := true;
      }
      if suspended == [] && note.Some? {
        PushNote(NoteText(note.value), now);
      }
    }

    method ExecuteToolBatch(calls: seq<Call>, execute: nat -> Outcome) returns (results: seq<Result>)
      ensures results == Batch(calls, execute)
    {
      results := [];
      for i := 0 to |calls|
        invariant results == Batch(calls, execute)[..i]
      {
        results := results + [Result(calls[i], execute(i))];
      }
    }

    /** The whole exchange of a turn whose first answer has calls. */
    method RunToolCalls(input: TurnInput) returns (ok: bool, suspended: seq<Call>)
      requires assistant.Some? && offered == Some(config.Offer(turn)) && !forceComplete
      modifies `messages, `meta, `offered, `assistant, `offers, `streak, `forceComplete
      ensures OffersSince(old(offers), CallPhase(config, old(State()), old(assistant.value), input).asked)
      ensures IsPhase(CallPhase(config, old(State()), old(assistant.value), input), ok, suspended)
    {
      suspended := [];
      ok := ProcessLlmToolCalls(input);
      if ok {
        ghost var base := SettledOn(config, turnCount, old((messages, meta)), old(assistant.value), input).0;
        var results := ExecuteToolBatch(assistant.value.calls, input.execute);
        suspended := RecordToolResults(results, input.now);
        ExchangeIsAppended(base, assistant.value, results, old(streak), input.now);
      }
    }

    /** The fields are as the tool phase `t` leaves them. */
    ghost predicate IsPhase(t: Phase, ok: bool, suspended: seq<Call>)
      reads this
    {
      && ok == t.ok && messages == t.messages && meta == t.meta && streak == t.streak
      && suspended == CallsOf(Filter(t.results, IsSuspended))
      && (ok ==> assistant == t.answer && forceComplete == t.stop)
    }

    /** The tool phase of a turn: without calls, or with the tool path off, only the answer is appended. */
    method RunTools(input: TurnInput) returns (ok: bool, suspended: seq<Call>)
      requires offered == Some(config.Offer(turn)) && !forceComplete
      modifies `messages, `meta, `offered, `assistant, `offers, `streak, `forceComplete
      ensures OffersSince(old(offers), ToolPhase(config, old(State()), old(assistant), input).asked)
      ensures IsPhase(ToolPhase(config, old(State()), old(assistant), input), ok, suspended)
    {
      ok, suspended := true, [];
      if assistant.None? {
        return;
      }
      if assistant.value.calls == [] || !config.toolExecution || !config.hasRuntime || !config.hasAgentId {
        AppendAssistant(input.now);
        return;
      }
      ok, suspended := RunToolCalls(input);
    }

    method Decide(input: TurnInput) returns (decision: Decision, reminded: bool)
      modifies `messages, `planNudged
      ensures decision == ReturnCancelled <==> input.cancelled
      ensures decision == ReturnMaxTurns <==> !input.cancelled && !forceComplete && AtLimit(config, turn)
      ensures decision == Continue <==>
        !input.cancelled && !forceComplete && !AtLimit(config, turn) && (WantsTools(config, assistant) || reminded)
      ensures EndingOf(decision) == Decided(config, turn, old(planNudged), assistant, forceComplete, input)
      ensures reminded == Reminds(config, turn, old(planNudged), assistant, forceComplete, input)
      ensures planNudged == (old(planNudged) || reminded)
      ensures messages == old(messages) + Reminder(reminded, input)
    {
      reminded := false;
      if input.cancelled {
        return ReturnCancelled, false;
      }
      if forceComplete {
        return ReturnComplete, false;
      }
      if config.maxTurns > 0 && turn >= config.maxTurns {
        return ReturnMaxTurns, false;
      }
      if assistant.Some? && assistant.value.calls != [] && config.CanExecute() {
        return Continue, false;
      }
      if !planNudged && turn < config.maxTurns && config.hasRuntime && input.openTodos > 0 {
        planNudged := true;
        PushNote(ReminderText(input.openTodos), input.now);
        return Continue, true;
      }
      return ReturnComplete, false;
    }

    method DrainPendingUserMessages(input: TurnInput)
      modifies `messages
      ensures messages == old(messages) + RefreshAll(input.drained)
    {
      for i := 0 to |input.drained|
        invariant messages == old(messages) + RefreshAll(input.drained)[..i]
      {
        messages := messages + [Refresh(input.drained[i])];
      }
    }

    /** Everything before the model call: queued messages, compression, the request, the budget check. */
    method Prepare(input: TurnInput) returns (ok: bool)
      modifies `messages, `meta, `offered
      ensures (messages, meta) == Prepared(config, old(messages), old(meta), input)
      ensures ok == PrepareSucceeds(config, old(messages), old(meta), input)
      ensures ok ==> offered == Some(config.Offer(turn))
    {
      DrainPendingUserMessages(input);
      ok := Compress(input.automatic, false);
      if !ok {
        return;
      }
      ok := BuildMessages(input.builds);
      if !ok {
        return;
      }
      if config.overhead + Total(messages) > config.available {
        ok := Compress(input.preCheck, true);
        if !ok {
          return;
        }
        ok := BuildMessages(input.preCheckBuilds);
      }
    }

    /** A turn up to and including its first model call. */
    method CallModel(input: TurnInput) returns (ok: bool)
      requires assistant.None?
      modifies `messages, `meta, `offered, `assistant, `offers
      ensures var a := Ask(config, old(messages), old(meta), input);
        Asked(ok, messages, meta, a.asked) == a && OffersSince(old(offers), a.asked)
      ensures ok ==> assistant == RecoveredAnswer(None, input.call) && offered == Some(config.Offer(turn))
    {
      ok := Prepare(input);
      if ok {
        ok := LlmCallWithRecovery(input.call);
      }
    }

    /** The end of a turn whose tool phase left `t`: on hold, or the decision and the turn count. */
    method ConcludeTurn(ok: bool, suspended: seq<Call>, input: TurnInput, ghost m: Memory, ghost t: Phase)
      returns (ending: Ending, reminded: bool)
      requires IsPhase(t, ok, suspended) && planNudged == m.planNudged && turnCount == m.turnCount
      requires !ok ==> t.streak == m.streak
      modifies `messages, `planNudged, `turnCount
      ensures Effect(State(), ending, reminded, t.asked) == Conclude(config, m, turn, t, input)
    {
      reminded := false;
      if !ok {
        return Errored, false;
      }
      if suspended != [] {
        return OnHold(suspended), false;
      }
      var decision;
      decision, reminded := Decide(input);
      ending := EndingOf(decision);
      if CountsAsTurn(ending) {
        turnCount := turnCount + 1;
      }
    }

    /** The loop state, the ending and the model calls made since `was` are those of `e`. */
    ghost predicate Does(e: Effect, was: seq<seq<string>>, ending: Ending, reminded: bool)
      reads this
    {
      State() == e.memory && ending == e.ending && reminded == e.reminded && OffersSince(was, e.asked)
    }

    /** The turn from its first answer on. */
    method FinishTurn(input: TurnInput) returns (ending: Ending, reminded: bool)
      requires offered == Some(config.Offer(turn)) && !forceComplete
      modifies `messages, `meta, `offered, `assistant, `offers, `streak, `forceComplete, `planNudged, `turnCount
      ensures Does(Finish(config, old(State()), turn, old(assistant), input), old(offers), ending, reminded)
    {
      ghost var m := State();
      ghost var t := ToolPhase(config, m, assistant, input);
      var ok, suspended := RunTools(input);
      ending, reminded := ConcludeTurn(ok, suspended, input, m, t);
    }

    /** The turn once the model was asked, with outcome `a`, in the calls since `was`. */
    method TakeAnswer(ok: bool, input: TurnInput, ghost m: Memory, ghost a: Asked, ghost was: seq<seq<string>>)
      returns (ending: Ending, reminded: bool)
      requires ok == a.ok && State() == m.(messages := a.messages, meta := a.meta) && OffersSince(was, a.asked)
      requires ok ==> assistant == RecoveredAnswer(None, input.call) && offered == Some(config.Offer(turn)) && !forceComplete
      modifies `messages, `meta, `offered, `assistant, `offers, `streak, `forceComplete, `planNudged, `turnCount
      ensures Does(TurnAfter(config, m, turn, a, input), was, ending, reminded)
    {
      if !ok {
        return Errored, false;
      }
      ghost var e := Finish(config, State(), turn, assistant, input);
      ending, reminded := FinishTurn(input);
      OffersAdd(config, turn, a.asked, e.asked);
      Regroup(was, Offers(config, turn, a.asked), Offers(config, turn, e.asked));
    }

    /** One turn of the loop. */
    method PlayTurn(input: TurnInput) returns (ending: Ending, reminded: bool)
      modifies `messages, `meta, `offered, `assistant, `offers, `streak, `forceComplete, `planNudged, `turnCount
      ensures Does(Turn(config, old(State()), turn, input), old(offers), ending, reminded)
    {
      assistant, offered, forceComplete := None, None, false;
      ghost var a := Ask(config, messages, meta, input);
      var ok := CallModel(input);
      ending, reminded := TakeAnswer(ok, input, old(State()), a, old(offers));
    }

    /** One turn, recorded: `play` on the state before it. */
    method RunTurn(input: TurnInput) returns (ending: Ending)
      requires Valid()
      modifies this
      ensures var e := play(old(State()), old(turn), input);
        && State() == e.memory && ending == e.ending && |log| == |old(log)| + 1
        && log == old(log) + [log[|old(log)|]] && Records(config, log[|old(log)|], old(turn), e)
        && offers == old(offers) + log[|old(log)|].offers
      ensures turn == if ending.Continued? then old(turn) + 1 else old(turn)
    {
      assert Played(State(), turn, input);
      var reminded;
      ending, reminded := PlayTurn(input);
      log := log + [TurnRecord(turn, offers[|old(offers)|..], reminded, ending)];
      if ending.Continued? {
        turn := turn + 1;
      }
    }

    /** The turns one after the other, until one does not continue. */
    method RunTurns(turns: seq<TurnInput>) returns (ending: Option<Ending>)
      requires Valid()
      modifies this
      ensures Ran(config, play, old(State()), turns, log, State(), old(offers), offers)
      ensures ending == LastEnding(log) && (ending.None? ==> |log| == |turns|)
    {
      turn, log := 1, [];
      assert turns[..0] == [];
      for i := 0 to |turns|
        invariant |log| == i && turn == i + 1 && LastEnding(log).None?
        invariant Ran(config, play, old(State()), turns, log, State(), old(offers), offers)
      {
        ghost var before, m, asked := log, State(), offers;
        var e := RunTurn(turns[i]);
        RanNext(config, play, old(State()), turns, before, m, old(offers), asked, log[i]);
        if !e.Continued? {
          return Some(e);
        }
      }
      return None;
    }

    /**
     * A run over the given turns; `None` is a loop that would go on. Each recorded turn is the turn function applied
     * to the state the turns before it left, the loop state is what they leave together, and the model calls made are
     * exactly those recorded. With a turn limit the loop stops within it; it makes at most four model calls a turn,
     * offers no tools in the last turn, reminds at most once per loop state and counts exactly the turns that ended
     * neither suspended, cancelled nor in error; the history stays sound unless the run ends suspended.
     */
    method Run(user: Option<ChatMessage>, turns: seq<TurnInput>) returns (ending: Option<Ending>, ghost start: Memory)
      requires Valid()
      modifies this
      ensures start == old(State()).(messages := old(messages) + (if user.Some? then [Refresh(user.value)] else []))
      ensures IsLog(config, play, start, turns, log) && State() == After(play, start, turns[..|log|])
      ensures ending == LastEnding(log) && (ending.None? ==> |log| == |turns|)
      ensures RunCounts(config, start, log, State()) && offers == old(offers) + AllOffers(log)
      ensures config.maxTurns > 0 && |turns| >= config.maxTurns ==> ending.Some?
      ensures StaysSound(config, start, turns, log, messages)
    {
      if user.Some? {
        messages := messages + [Refresh(user.value)];
      }
      start := State();
      ending := RunTurns(turns);
      RunIsCounted(config, play, start, turns, log);
      RunStaysSound(config, play, start, turns, log);
    }
  }
}
