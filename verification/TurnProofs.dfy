/**
 * What turns and runs of the agent loop keep.
 */
module TurnProofs {
  import opened Options
  import opened Messages
  import opened ContextManager
  import opened TokenCache
  import opened ToolExec
  import opened LoopHistory
  import opened Lists
  import opened TurnSpec
  import opened LoopLog

  lemma RecoveryKeepsSound(h: History, meta: Meta, tail: nat, r: RecoveryInput)
    requires Sound(h)
    ensures Sound(HistoryAfter(h, meta, tail, r).0)
  {
    if r.first.TooLong? && CompressStep(h, meta, tail, r.compress.should, r.compress.summarize).Some? {
      CompressStepKeepsSound(h, meta, tail, r.compress.should, r.compress.summarize);
    }
  }

  /** The last message is `m`, up to its cached count, and what stands before it is sound. */
  ghost predicate PopsBack(h: History, m: ChatMessage) {
    h != [] && h[|h| - 1].(estimatedTokens := None) == m && Sound(h[..|h| - 1])
  }

  /** `base` is `h` without its last message, and that message is `m`, up to its cached count. */
  predicate PoppedFrom(h: History, m: ChatMessage, base: History) {
    h != [] && base == h[..|h| - 1] && h[|h| - 1].(estimatedTokens := None) == m
  }

  lemma PushedPopsBack(h: History, m: ChatMessage)
    requires Sound(h) && m.estimatedTokens.None?
    ensures PopsBack(h + [m], m)
  {
    assert (h + [m])[..|h + [m]| - 1] == h;
  }

  lemma CompressedPopsBack(h: History, m: ChatMessage, meta: Meta, tail: nat, c: CompressInput)
    requires tail >= 1 && Sound(h) && m.estimatedTokens.None?
    requires m.role == Tool && Uses(m) == [] && |m.blocks| == 1 && CoversOne(m)
    ensures var r := CompressStep(h + [m], meta, tail, c.should, c.summarize); r.Some? ==> PopsBack(r.value.0, m)
  {
    var r := CompressStep(h + [m], meta, tail, c.should, c.summarize);
    if r.Some? {
      CompressStepKeepsProvisional(h, m, meta, tail, c.should, c.summarize);
      assert PopsTo(r.value.0, m);
    }
  }

  /** Whether or not the retry compressed, the message popped after it is the one pushed before it. */
  lemma RetryPopsWhatItPushed(h: History, meta: Meta, tail: nat, r: RecoveryInput, c: Call, now: nat)
    requires tail >= 1 && Sound(h)
    ensures PopsBack(HistoryAfter(h + [InvalidCallMessage(c, now)], meta, tail, r).0, InvalidCallMessage(c, now))
  {
    var m := InvalidCallMessage(c, now);
    InvalidCallReports(c, now);
    PushedPopsBack(h, m);
    CompressedPopsBack(h, m, meta, tail, r.compress);
  }

  lemma NotesAreSound(s: Streak, results: seq<Result>, now: nat)
    ensures Sound(Notes(s, results, now)) && |Notes(s, results, now)| <= 1
  {
    var note := LastNote(s, Filter(results, IsReported));
    if note.Some? {
      NoteHasNoTools(NoteText(note.value), now);
    }
    PlainIsSound(Notes(s, results, now));
  }

  lemma PlainAnswerIsSound(base: History, r: Reply, now: nat)
    ensures Sound(base) && r.calls == [] ==> Sound(base + [AssistantMessage(r, now)])
  {
    if Sound(base) && r.calls == [] {
      AssistantUses(r, now);
      PlainIsSound([AssistantMessage(r, now)]);
      SoundAppend(base, [AssistantMessage(r, now)]);
    }
  }

  lemma NoteKeepsSound(h: History, text: string, now: nat)
    requires Sound(h)
    ensures Sound(h + [UserNote(text, now)])
  {
    NoteHasNoTools(text, now);
    PlainIsSound([UserNote(text, now)]);
    SoundAppend(h, [UserNote(text, now)]);
  }

  lemma ReminderKeepsSound(h: History, reminded: bool, input: TurnInput)
    ensures Sound(h) ==> Sound(h + Reminder(reminded, input))
  {
    if Sound(h) && reminded {
      NoteKeepsSound(h, ReminderText(input.openTodos), input.now);
    } else {
      assert h + [] == h;
    }
  }

  lemma DrainedIsSound(h: History, drained: History)
    requires forall m <- drained :: IsPlain(m)
    ensures Sound(h) ==> Sound(h + RefreshAll(drained))
  {
    if Sound(h) {
      forall m | m in RefreshAll(drained) ensures Uses(m) == [] && Results(m) == [] && CoversOne(m) {
        var i :| 0 <= i < |drained| && m == Refresh(drained[i]);
        assert IsPlain(drained[i]);
      }
      PlainIsSound(RefreshAll(drained));
      SoundAppend(h, RefreshAll(drained));
    }
  }

  // ---- one turn ---------------------------------------------------------------------------------------------------

  lemma CompressKeepsSound(tail: nat, s: (History, Meta), c: CompressInput, forced: bool)
    requires Sound(s.0)
    ensures Sound(AfterCompress(tail, s, c, forced).0)
  {
    if CompressRuns(c, forced) && CompressStep(s.0, s.1, tail, c.should, c.summarize).Some? {
      CompressStepKeepsSound(s.0, s.1, tail, c.should, c.summarize);
    }
  }

  lemma PrepareKeepsSound(config: Config, h: History, meta: Meta, input: TurnInput)
    requires Sound(h) && input.Legal()
    ensures Sound(Prepared(config, h, meta, input).0)
  {
    var drained := (h + RefreshAll(input.drained), meta);
    DrainedIsSound(h, input.drained);
    CompressKeepsSound(config.tail, drained, input.automatic, false);
    CompressKeepsSound(config.tail, AfterCompress(config.tail, drained, input.automatic, false), input.preCheck, true);
  }

  /** The history the settled answer is appended to is sound: exactly the message pushed for the retry was popped. */
  lemma SettleKeepsSound(config: Config, turnCount: nat, s: (History, Meta), first: Reply, input: TurnInput)
    requires config.tail >= 1 && Sound(s.0)
    ensures Sound(SettledOn(config, turnCount, s, first, input).0)
    ensures var calls := CallsIn(config, turnCount, first);
      NeedsRetry(calls) && input.retryBuilds ==>
        PoppedFrom(HistoryAfter(s.0 + [Pushed(calls, input.now)], s.1, config.tail, input.retry).0,
                   Pushed(calls, input.now), SettledOn(config, turnCount, s, first, input).0)
  {
    var calls := CallsIn(config, turnCount, first);
    if NeedsRetry(calls) && input.retryBuilds {
      RetryPopsWhatItPushed(s.0, s.1, config.tail, input.retry, Filter(calls, IsInvalid)[0], input.now);
    }
  }

  /** An exchange in which nothing is suspended is complete. */
  lemma ExchangeIsSound(reply: Reply, results: seq<Result>, s: Streak, now: nat)
    requires CallsOf(results) == reply.calls && Filter(results, IsSuspended) == []
    ensures Sound(Exchange(reply, results, s, now))
  {
    FilterRest(results, IsReported, IsSuspended);
    ExchangeIsPaired(reply, results, now);
    NotesAreSound(s, results, now);
    SoundAppend([AssistantMessage(reply, now)] + ResultMessages(results, now), Notes(s, results, now));
  }

  lemma CallPhaseKeepsSound(config: Config, m: Memory, first: Reply, input: TurnInput)
    requires config.tail >= 1 && Sound(m.messages)
    ensures var t := CallPhase(config, m, first, input); !t.ok || Filter(t.results, IsSuspended) == [] ==> Sound(t.messages)
  {
    var t := CallPhase(config, m, first, input);
    var base := SettledOn(config, m.turnCount, (m.messages, m.meta), first, input).0;
    SettleKeepsSound(config, m.turnCount, (m.messages, m.meta), first, input);
    if t.ok && Filter(t.results, IsSuspended) == [] {
      var reply := t.answer.value;
      assert CallsOf(t.results) == reply.calls;
      ExchangeIsSound(reply, t.results, m.streak, input.now);
      SoundAppend(base, Exchange(reply, t.results, m.streak, input.now));
    }
  }

  lemma FinishKeepsSound(config: Config, m: Memory, n: nat, first: Option<Reply>, input: TurnInput)
    requires config.tail >= 1 && Sound(m.messages)
    requires config.ToolPath() || first.None? || first.value.calls == []
    ensures var e := Finish(config, m, n, first, input); e.ending.OnHold? || Sound(e.memory.messages)
  {
    var t, e := ToolPhase(config, m, first, input), Finish(config, m, n, first, input);
    if first.Some? {
      CallPhaseKeepsSound(config, m, first.value, input);
      PlainAnswerIsSound(m.messages, first.value, input.now);
    }
    ReminderKeepsSound(t.messages, e.reminded, input);
  }

  lemma AskKeepsSound(config: Config, h: History, meta: Meta, input: TurnInput)
    requires Sound(h) && input.Legal()
    ensures Sound(Ask(config, h, meta, input).messages)
  {
    PrepareKeepsSound(config, h, meta, input);
    var p := Prepared(config, h, meta, input);
    RecoveryKeepsSound(p.0, p.1, config.tail, input.call);
  }

  /** Every orderly turn keeps a sound history sound, unless it ends with a call suspended. */
  lemma TurnKeepsSound(config: Config, m: Memory, n: nat, input: TurnInput)
    requires config.tail >= 1 && Sound(m.messages) && IsOrderly(config, input)
    ensures var e := Turn(config, m, n, input); e.ending.OnHold? || Sound(e.memory.messages)
  {
    AskKeepsSound(config, m.messages, m.meta, input);
    var a := Ask(config, m.messages, m.meta, input);
    FinishKeepsSound(config, m.(messages := a.messages, meta := a.meta), n, RecoveredAnswer(None, input.call), input);
  }

  // ---- what a turn adds -------------------------------------------------------------------------------------------

  /** What an answered turn adds to `base`: the exchange of `reply` and `results`, then at most the reminder. */
  ghost predicate AddsExchange(e: Effect, base: History, reply: Reply, results: seq<Result>, s: Streak, input: TurnInput) {
    && e.memory.messages == base + ([AssistantMessage(reply, input.now)]
         + ResultMessages(Filter(results, IsReported), input.now) + Notes(s, results, input.now)) + Reminder(e.reminded, input)
    && e.memory.streak == StreakAfter(s, Filter(results, IsReported))
  }

  /** After tools the loop goes on, but for cancellation, a stop rule and the turn limit, in this order. */
  function AfterTools(config: Config, n: nat, results: seq<Result>, input: TurnInput): Ending {
    if input.cancelled then Cancelled
    else if AnyStops(config.stopAfter, results) then Completed
    else if AtLimit(config, n) then MaxTurnsReached
    else Continued
  }

  /** How a turn concludes whose tool phase did not fail. */
  lemma ConcludeAdds(config: Config, m: Memory, n: nat, t: Phase, input: TurnInput)
    requires t.ok
    ensures var e, waiting := Conclude(config, m, n, t, input), Filter(t.results, IsSuspended);
      && e.memory.messages == t.messages + Reminder(e.reminded, input) && e.memory.streak == t.streak && !e.ending.Errored?
      && (waiting != [] ==> e.ending == OnHold(CallsOf(waiting)) && !e.reminded)
      && (waiting == [] ==> !e.ending.OnHold?)
      && (waiting == [] && !WantsTools(config, t.answer) ==> (e.ending.Continued? <==> e.reminded))
      && (waiting == [] && WantsTools(config, t.answer) && t.stop == AnyStops(config.stopAfter, t.results) ==>
            e.ending == AfterTools(config, n, t.results, input))
  {
    assert t.messages + [] == t.messages;
  }

  lemma CallPhaseAddsExchange(config: Config, m: Memory, n: nat, first: Reply, input: TurnInput)
    requires SettleSucceeds(config, m.turnCount, (m.messages, m.meta), first, input)
    ensures var e := Conclude(config, m, n, CallPhase(config, m, first, input), input);
      var base := SettledOn(config, m.turnCount, (m.messages, m.meta), first, input).0;
      var reply := Executed(config, m.turnCount, Settled(config, m.turnCount, first, input));
      var results := Batch(reply.calls, input.execute);
      var waiting := Filter(results, IsSuspended);
      && AddsExchange(e, base, reply, results, m.streak, input) && !e.ending.Errored?
      && (waiting != [] ==> e.ending == OnHold(CallsOf(waiting)) && Notes(m.streak, results, input.now) == [] && !e.reminded)
      && (waiting == [] && WantsTools(config, Some(reply)) ==> e.ending == AfterTools(config, n, results, input))
  {
    ConcludeAdds(config, m, n, CallPhase(config, m, first, input), input);
  }

  lemma FinishAddsAnswer(config: Config, m: Memory, n: nat, first: Option<Reply>, input: TurnInput)
    requires first.None? || first.value.calls == [] || !config.ToolPath()
    ensures var e := Finish(config, m, n, first, input);
      var answer := if first.Some? then [AssistantMessage(first.value, input.now)] else [];
      && e.memory.messages == m.messages + answer + Reminder(e.reminded, input)
      && e.memory.streak == m.streak && !e.ending.OnHold? && !e.ending.Errored?
      && (first.None? || first.value.calls == [] ==> (e.ending.Continued? <==> e.reminded))
  {
    assert m.messages + [] == m.messages;
    ConcludeAdds(config, m, n, ToolPhase(config, m, first, input), input);
  }

  /**
   * With the tool path on, a turn whose first answer has calls fails exactly if the model call or the retry does, and then
   * appends nothing for it. Otherwise it appends to a sound history one assistant message with exactly the valid calls
   * of the settled answer, joins last, then the results of executing them, one per call that is not suspended, in call
   * order. A note or a reminder follows only if nothing is suspended; if something is, the turn ends on hold for exactly
   * those calls; if nothing is, the loop goes on to show the model the results.
   */
  lemma TurnAppendsItsExchange(config: Config, m: Memory, n: nat, input: TurnInput)
    requires config.tail >= 1 && config.ToolPath() && Sound(m.messages) && input.Legal()
    requires RecoveredAnswer(None, input.call).Some? && RecoveredAnswer(None, input.call).value.calls != []
    ensures var e, a := Turn(config, m, n, input), Ask(config, m.messages, m.meta, input);
      var first := RecoveredAnswer(None, input.call).value;
      var base := SettledOn(config, m.turnCount, (a.messages, a.meta), first, input).0;
      var reply := Settled(config, m.turnCount, first, input);
      var calls := JoinsLast(Filter(Normalized(reply.calls, m.turnCount, config.visible), IsValid));
      var results := Batch(calls, input.execute);
      var waiting := Filter(results, IsSuspended);
      if !a.ok || !SettleSucceeds(config, m.turnCount, (a.messages, a.meta), first, input) then
        e.ending.Errored? && e.memory.messages == (if a.ok then base else a.messages)
      else
        && Sound(base) && AddsExchange(e, base, reply.(calls := calls), results, m.streak, input) && !e.ending.Errored?
        && (waiting != [] ==> e.ending == OnHold(CallsOf(waiting)) && Notes(m.streak, results, input.now) == [] && !e.reminded)
        && (waiting == [] && calls != [] && config.visible != [] ==> e.ending == AfterTools(config, n, results, input))
  {
    var a := Ask(config, m.messages, m.meta, input);
    var first := RecoveredAnswer(None, input.call).value;
    AskKeepsSound(config, m.messages, m.meta, input);
    SettleKeepsSound(config, m.turnCount, (a.messages, a.meta), first, input);
    var m' := m.(messages := a.messages, meta := a.meta);
    if a.ok && SettleSucceeds(config, m.turnCount, (a.messages, a.meta), first, input) {
      CallPhaseAddsExchange(config, m', n, first, input);
    }
  }

  /**
   * Any other turn fails exactly if the model call does; if not, it appends the model's answer as it is, or nothing if
   * there was none. Without calls the loop goes on only for the one reminder.
   */
  lemma TurnAppendsItsAnswer(config: Config, m: Memory, n: nat, input: TurnInput)
    requires var first := RecoveredAnswer(None, input.call);
      first.None? || first.value.calls == [] || !config.ToolPath()
    ensures var e, first := Turn(config, m, n, input), RecoveredAnswer(None, input.call);
      var answer := if first.Some? then [AssistantMessage(first.value, input.now)] else [];
      var a := Ask(config, m.messages, m.meta, input);
      if !a.ok then e.ending.Errored? && e.memory.messages == a.messages
      else
        && e.memory.messages == a.messages + answer + Reminder(e.reminded, input)
        && e.memory.streak == m.streak && !e.ending.OnHold? && !e.ending.Errored?
        && (first.None? || first.value.calls == [] ==> (e.ending.Continued? <==> e.reminded))
  {
    var a := Ask(config, m.messages, m.meta, input);
    FinishAddsAnswer(config, m.(messages := a.messages, meta := a.meta), n, RecoveredAnswer(None, input.call), input);
  }

  // ---- when a turn keeps the history sound ------------------------------------------------------------------------

  /** Call `i` of an answer is not followed by a tool message in its place. */
  lemma UnansweredIsUnsound(base: History, r: Reply, more: History, i: nat, now: nat)
    requires Sound(base) && i < |r.calls| && (i < |more| ==> more[i].role != Tool)
    ensures !Sound(base + ([AssistantMessage(r, now)] + more))
  {
    var h := [AssistantMessage(r, now)] + more;
    AssistantUses(r, now);
    assert i < |more| ==> h[i + 1] == more[i];
    if WellPaired(base + h) {
      WellPairedRest(base, h);
    }
  }

  lemma SuspendedIsUnsound(base: History, r: Reply, results: seq<Result>, now: nat)
    requires Sound(base) && CallsOf(results) == r.calls && Filter(results, IsSuspended) != []
    ensures !Sound(base + ([AssistantMessage(r, now)] + ResultMessages(Filter(results, IsReported), now)))
  {
    var reported := Filter(results, IsReported);
    FilterLengths(results, IsReported, IsSuspended);
    assert |r.calls| == |results|;
    UnansweredIsUnsound(base, r, ResultMessages(reported, now), |reported|, now);
  }

  lemma SuspendedPhaseIsUnsound(config: Config, m: Memory, first: Reply, input: TurnInput)
    requires config.tail >= 1 && Sound(m.messages)
    ensures var t := CallPhase(config, m, first, input); Filter(t.results, IsSuspended) != [] ==> !Sound(t.messages)
  {
    var t := CallPhase(config, m, first, input);
    if Filter(t.results, IsSuspended) == [] {
      return;
    }
    var base := SettledOn(config, m.turnCount, (m.messages, m.meta), first, input).0;
    SettleKeepsSound(config, m.turnCount, (m.messages, m.meta), first, input);
    var reply := t.answer.value;
    assert CallsOf(t.results) == reply.calls;
    SuspendedIsUnsound(base, reply, t.results, input.now);
    var exchange := [AssistantMessage(reply, input.now)] + ResultMessages(Filter(t.results, IsReported), input.now);
    assert exchange + [] == exchange;
  }

  lemma UnansweredFinishIsUnsound(config: Config, m: Memory, n: nat, first: Reply, input: TurnInput)
    requires Sound(m.messages) && !config.ToolPath() && first.calls != []
    ensures var e := Finish(config, m, n, Some(first), input); !e.ending.Errored? && !Sound(e.memory.messages)
  {
    var e := Finish(config, m, n, Some(first), input);
    Regroup(m.messages, [AssistantMessage(first, input.now)], Reminder(e.reminded, input));
    UnansweredIsUnsound(m.messages, first, Reminder(e.reminded, input), 0, input.now);
  }

  /** Nothing but the reminder follows the tool phase, and nothing at all follows a suspended one. */
  lemma ConcludeIsSoundIff(config: Config, m: Memory, n: nat, t: Phase, input: TurnInput)
    requires Sound(t.messages) <==> Filter(t.results, IsSuspended) == []
    ensures Sound(Conclude(config, m, n, t, input).memory.messages) <==> Filter(t.results, IsSuspended) == []
  {
    ReminderKeepsSound(t.messages, Conclude(config, m, n, t, input).reminded, input);
  }

  /** No executed call of the settled answer is suspended. */
  predicate NoneWaits(config: Config, turnCount: nat, first: Reply, input: TurnInput) {
    var calls := Executed(config, turnCount, Settled(config, turnCount, first, input)).calls;
    forall i :: 0 <= i < |calls| ==> !input.execute(i).Suspended?
  }

  lemma NoneSuspended(calls: seq<Call>, execute: nat -> Outcome)
    ensures Filter(Batch(calls, execute), IsSuspended) == [] <==> forall i :: 0 <= i < |calls| ==> !execute(i).Suspended?
  {
    var results := Batch(calls, execute);
    if forall i :: 0 <= i < |calls| ==> !execute(i).Suspended? {
      FilterNone(results, IsSuspended);
    } else {
      var i :| 0 <= i < |calls| && execute(i).Suspended?;
      FilterKeeps(results, i, IsSuspended);
    }
  }

  lemma CallPhaseWaits(config: Config, m: Memory, first: Reply, input: TurnInput)
    ensures Filter(CallPhase(config, m, first, input).results, IsSuspended) == [] <==>
      !SettleSucceeds(config, m.turnCount, (m.messages, m.meta), first, input) || NoneWaits(config, m.turnCount, first, input)
  {
    NoneSuspended(Executed(config, m.turnCount, Settled(config, m.turnCount, first, input)).calls, input.execute);
  }

  /** The turn leaves none of its calls open: it has none, or they can be executed and none is suspended. */
  predicate ClosesItsCalls(config: Config, m: Memory, first: Option<Reply>, input: TurnInput) {
    || first.None? || first.value.calls == []
    || (config.ToolPath() && (|| !SettleSucceeds(config, m.turnCount, (m.messages, m.meta), first.value, input)
                              || NoneWaits(config, m.turnCount, first.value, input)))
  }

  lemma CallPhaseIsSoundIff(config: Config, m: Memory, first: Reply, input: TurnInput)
    requires config.tail >= 1 && Sound(m.messages)
    ensures var t := CallPhase(config, m, first, input); Sound(t.messages) <==> Filter(t.results, IsSuspended) == []
  {
    CallPhaseKeepsSound(config, m, first, input);
    SuspendedPhaseIsUnsound(config, m, first, input);
  }

  lemma FinishIsSoundIff(config: Config, m: Memory, n: nat, first: Option<Reply>, input: TurnInput)
    requires config.tail >= 1 && Sound(m.messages)
    ensures Sound(Finish(config, m, n, first, input).memory.messages) <==> ClosesItsCalls(config, m, first, input)
  {
    if first.None? || first.value.calls == [] {
      FinishKeepsSound(config, m, n, first, input);
      FinishAddsAnswer(config, m, n, first, input);
    } else if config.ToolPath() {
      CallPhaseWaits(config, m, first.value, input);
      CallPhaseIsSoundIff(config, m, first.value, input);
      ConcludeIsSoundIff(config, m, n, CallPhase(config, m, first.value, input), input);
    } else {
      UnansweredFinishIsUnsound(config, m, n, first.value, input);
    }
  }

  /**
   * From a sound history, a turn leaves a sound one if and only if the model was not reached, or asked for no tools, or
   * the tool path is on and either the retry of an invalid call failed or no executed call is suspended. With the tool
   * path off the code appends the model's calls and never a result.
   */
  lemma TurnIsSoundIff(config: Config, m: Memory, n: nat, input: TurnInput)
    requires config.tail >= 1 && Sound(m.messages) && input.Legal()
    ensures var a := Ask(config, m.messages, m.meta, input);
      Sound(Turn(config, m, n, input).memory.messages) <==>
        !a.ok || ClosesItsCalls(config, m.(messages := a.messages, meta := a.meta), RecoveredAnswer(None, input.call), input)
  {
    AskKeepsSound(config, m.messages, m.meta, input);
    var a := Ask(config, m.messages, m.meta, input);
    FinishIsSoundIff(config, m.(messages := a.messages, meta := a.meta), n, RecoveredAnswer(None, input.call), input);
  }

  // ---- runs -------------------------------------------------------------------------------------------------------

  lemma ConcludeCounts(config: Config, m: Memory, n: nat, t: Phase, input: TurnInput)
    ensures var e := Conclude(config, m, n, t, input); e.asked == t.asked && (t.asked <= 4 ==> TurnCounts(config, m, n, e))
  {
  }

  lemma FinishIsCounted(config: Config, m: Memory, n: nat, first: Option<Reply>, input: TurnInput)
    ensures var e := Finish(config, m, n, first, input); e.asked <= 2 && TurnCounts(config, m, n, e)
  {
    ConcludeCounts(config, m, n, ToolPhase(config, m, first, input), input);
  }

  lemma TurnAfterIsCounted(config: Config, m: Memory, n: nat, a: Asked, input: TurnInput)
    requires a.asked <= 2
    ensures TurnCounts(config, m, n, TurnAfter(config, m, n, a, input))
  {
    FinishIsCounted(config, m.(messages := a.messages, meta := a.meta), n, RecoveredAnswer(None, input.call), input);
  }

  /** Limit, model calls, reminder and count of one turn. */
  lemma TurnIsCounted(config: Config, m: Memory, n: nat, input: TurnInput)
    ensures TurnCounts(config, m, n, Turn(config, m, n, input))
  {
    TurnAfterIsCounted(config, m, n, Ask(config, m.messages, m.meta, input), input);
  }

  /** Names a turn a proof looks at: the turn function is unfolded for no other. */
  ghost predicate Played(m: Memory, n: nat, input: TurnInput) { true }

  /** `play` is the turn function. */
  ghost predicate IsTurn(config: Config, play: Play) {
    forall m: Memory, n: nat, input: TurnInput {:trigger Played(m, n, input)} ::
      Played(m, n, input) ==> play(m, n, input) == Turn(config, m, n, input)
  }

  /** Every run of the loop is within its limits. */
  lemma RunIsCounted(config: Config, play: Play, start: Memory, turns: seq<TurnInput>, log: seq<TurnRecord>)
    requires IsTurn(config, play) && IsLog(config, play, start, turns, log)
    ensures RunCounts(config, start, log, After(play, start, turns[..|log|]))
  {
    forall m: Memory, n: nat, input: TurnInput ensures TurnCounts(config, m, n, play(m, n, input)) {
      assert Played(m, n, input);
      TurnIsCounted(config, m, n, input);
    }
    LogCounts(config, play, start, turns, log);
  }

  /** With orderly turns the history is sound after the run, unless it is suspended. */
  ghost predicate StaysSound(config: Config, start: Memory, turns: seq<TurnInput>, log: seq<TurnRecord>, h: History) {
    config.tail >= 1 && Sound(start.messages) && (forall t <- turns :: IsOrderly(config, t)) ==>
      (LastEnding(log).Some? && LastEnding(log).value.OnHold?) || Sound(h)
  }

  /** Every run of the loop keeps the history sound. */
  lemma RunStaysSound(config: Config, play: Play, start: Memory, turns: seq<TurnInput>, log: seq<TurnRecord>)
    requires IsTurn(config, play) && IsLog(config, play, start, turns, log)
    ensures StaysSound(config, start, turns, log, After(play, start, turns[..|log|]).messages)
  {
    if config.tail >= 1 && Sound(start.messages) && (forall t <- turns :: IsOrderly(config, t)) {
      forall m: Memory, n: nat, input: TurnInput | Sound(m.messages) && IsOrderly(config, input)
        ensures SoundAfter(play(m, n, input))
      {
        assert Played(m, n, input);
        TurnKeepsSound(config, m, n, input);
      }
      LogKeepsSound(config, play, start, turns, log);
    }
  }
}
