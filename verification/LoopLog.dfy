/**
 * Runs of a loop that plays turns one after the other, for any turn function.
 */
module LoopLog {
  import opened Options
  import opened Lists
  import opened LoopHistory
  import opened TurnSpec

  /** What turn `n` does with a loop state and its input. */
  type Play = (Memory, nat, TurnInput) -> Effect

  /** One turn: its number, the tools offered by each model call, whether it reminded of the plan, how it ended. */
  datatype TurnRecord = TurnRecord(number: nat, offers: seq<seq<string>>, reminded: bool, ending: Ending)

  /** As many model calls as the turn makes, all offering what it may offer. */
  function Offers(config: Config, n: nat, asked: nat): seq<seq<string>> { seq(asked, _ => config.Offer(n)) }

  /** All model calls of a run, in order. */
  function AllOffers(log: seq<TurnRecord>): seq<seq<string>> {
    if log == [] then [] else AllOffers(log[..|log| - 1]) + log[|log| - 1].offers
  }

  lemma AllOffersNext(was: seq<seq<string>>, log: seq<TurnRecord>, t: TurnRecord)
    ensures was + AllOffers(log + [t]) == was + AllOffers(log) + t.offers
  {
    assert (log + [t])[..|log + [t]| - 1] == log;
    Regroup(was, AllOffers(log), t.offers);
  }

  lemma OffersAdd(config: Config, n: nat, a: nat, b: nat)
    ensures Offers(config, n, a) + Offers(config, n, b) == Offers(config, n, a + b)
  {
  }

  /** The loop state after the given turns, one after the other. */
  function After(play: Play, m: Memory, turns: seq<TurnInput>): Memory {
    if turns == [] then m
    else play(After(play, m, turns[..|turns| - 1]), |turns|, turns[|turns| - 1]).memory
  }

  /** The record of turn `n` with effect `e`. */
  predicate Records(config: Config, t: TurnRecord, n: nat, e: Effect) {
    t == TurnRecord(n, Offers(config, n, e.asked), e.reminded, e.ending)
  }

  /** Turn `i`, counted from zero, on the state the turns before it leave. */
  function PlayedAt(play: Play, start: Memory, turns: seq<TurnInput>, i: nat): Effect
    requires i < |turns|
  {
    play(After(play, start, turns[..i]), i + 1, turns[i])
  }

  function Reminders(log: seq<TurnRecord>): nat {
    if log == [] then 0 else Reminders(log[..|log| - 1]) + (if log[|log| - 1].reminded then 1 else 0)
  }

  /** Neither suspended, nor cancelled, nor in error. */
  predicate IsCounted(e: Ending) { !e.OnHold? && !e.Cancelled? && !e.Errored? }

  function CountedTurns(log: seq<TurnRecord>): nat {
    if log == [] then 0 else CountedTurns(log[..|log| - 1]) + (if IsCounted(log[|log| - 1].ending) then 1 else 0)
  }

  /** A log of the first turns: each record is of `play` on the state before it, and all but the last continued. */
  predicate IsLog(config: Config, play: Play, start: Memory, turns: seq<TurnInput>, log: seq<TurnRecord>) {
    && |log| <= |turns|
    && (forall i :: 0 <= i < |log| ==> Records(config, log[i], i + 1, PlayedAt(play, start, turns, i)))
    && (forall i :: 0 <= i < |log| - 1 ==> log[i].ending.Continued?)
  }

  lemma LogNext(config: Config, play: Play, start: Memory, turns: seq<TurnInput>, log: seq<TurnRecord>, t: TurnRecord)
    requires IsLog(config, play, start, turns, log) && |log| < |turns| && (log != [] ==> log[|log| - 1].ending.Continued?)
    requires Records(config, t, |log| + 1, PlayedAt(play, start, turns, |log|))
    ensures IsLog(config, play, start, turns, log + [t])
    ensures After(play, start, turns[..|log| + 1]) == PlayedAt(play, start, turns, |log|).memory
  {
    assert turns[..|log| + 1][..|log|] == turns[..|log|];
  }

  /** The logged turns led from `start` to `end`, and their model calls from `was` to `offers`. */
  predicate Ran(config: Config, play: Play, start: Memory, turns: seq<TurnInput>, log: seq<TurnRecord>, end: Memory,
                was: seq<seq<string>>, offers: seq<seq<string>>)
  {
    && IsLog(config, play, start, turns, log)
    && end == After(play, start, turns[..|log|]) && offers == was + AllOffers(log)
  }

  lemma RanNext(config: Config, play: Play, start: Memory, turns: seq<TurnInput>, log: seq<TurnRecord>, end: Memory,
                was: seq<seq<string>>, offers: seq<seq<string>>, t: TurnRecord)
    requires Ran(config, play, start, turns, log, end, was, offers)
    requires |log| < |turns| && LastEnding(log).None?
    requires Records(config, t, |log| + 1, play(end, |log| + 1, turns[|log|]))
    ensures Ran(config, play, start, turns, log + [t], play(end, |log| + 1, turns[|log|]).memory, was, offers + t.offers)
  {
    LogNext(config, play, start, turns, log, t);
    AllOffersNext(was, log, t);
  }

  lemma LogBefore(config: Config, play: Play, start: Memory, turns: seq<TurnInput>, log: seq<TurnRecord>)
    requires IsLog(config, play, start, turns, log) && log != []
    ensures var k := |log| - 1;
      && IsLog(config, play, start, turns, log[..k]) && (k > 0 ==> log[..k][k - 1].ending.Continued?)
      && Records(config, log[k], k + 1, PlayedAt(play, start, turns, k))
      && After(play, start, turns[..k + 1]) == PlayedAt(play, start, turns, k).memory
  {
    var k := |log| - 1;
    assert turns[..k + 1][..k] == turns[..k];
    forall i | 0 <= i < k ensures log[..k][i] == log[i] { }
  }

  /** How a run ended; `None` if it would go on. */
  function LastEnding(log: seq<TurnRecord>): Option<Ending> {
    if log != [] && !log[|log| - 1].ending.Continued? then Some(log[|log| - 1].ending) else None
  }

  /**
   * Within the turn limit, at most four model calls a turn and no tools offered in the last one allowed, at most one
   * reminder per loop state, and exactly the turns that count are counted.
   */
  predicate RunCounts(config: Config, start: Memory, log: seq<TurnRecord>, end: Memory) {
    && (config.maxTurns > 0 ==> |log| <= config.maxTurns && (|log| == config.maxTurns ==> LastEnding(log).Some?))
    && Reminders(log) == (if end.planNudged && !start.planNudged then 1 else 0) && (start.planNudged ==> end.planNudged)
    && end.turnCount == start.turnCount + CountedTurns(log)
    && forall i :: 0 <= i < |log| ==> AsksWithin(config, log[i], i + 1)
  }

  predicate AsksWithin(config: Config, t: TurnRecord, n: nat) {
    && |t.offers| <= 4
    && forall offer <- t.offers :: offer == if config.maxTurns > 0 && n >= config.maxTurns then [] else config.visible
  }

  /** What each turn of `play` does to limit, reminder and count. */
  ghost predicate CountsTurns(config: Config, play: Play) {
    forall m: Memory, n: nat, input: TurnInput :: TurnCounts(config, m, n, play(m, n, input))
  }

  predicate TurnCounts(config: Config, m: Memory, n: nat, e: Effect) {
    && (e.ending.Continued? && config.maxTurns > 0 ==> n < config.maxTurns)
    && e.memory.planNudged == (m.planNudged || e.reminded) && (e.reminded ==> !m.planNudged)
    && e.memory.turnCount == m.turnCount + (if IsCounted(e.ending) then 1 else 0)
    && e.asked <= 4
  }

  /** Counted turn by turn, every run is within its limits. */
  lemma {:induction false} LogCounts(config: Config, play: Play, start: Memory, turns: seq<TurnInput>, log: seq<TurnRecord>)
    requires IsLog(config, play, start, turns, log) && CountsTurns(config, play)
    ensures RunCounts(config, start, log, After(play, start, turns[..|log|]))
  {
    if log != [] {
      var k := |log| - 1;
      LogBefore(config, play, start, turns, log);
      LogCounts(config, play, start, turns, log[..k]);
      assert TurnCounts(config, After(play, start, turns[..k]), k + 1, PlayedAt(play, start, turns, k));
    }
  }

  /** Only plain messages are queued, and no call goes unanswered for want of tools. */
  predicate IsOrderly(config: Config, input: TurnInput) { input.Legal() && CallsAreAnswered(config, input) }

  /** Orderly turns of `play` keep a sound history sound, unless a call is suspended. */
  ghost predicate KeepsSound(config: Config, play: Play) {
    forall m: Memory, n: nat, input: TurnInput :: Sound(m.messages) && IsOrderly(config, input) ==> SoundAfter(play(m, n, input))
  }

  ghost predicate SoundAfter(e: Effect) { e.ending.OnHold? || Sound(e.memory.messages) }

  /** Every run of orderly turns leaves a sound history unless its last turn is suspended. */
  lemma {:induction false} LogKeepsSound(config: Config, play: Play, start: Memory, turns: seq<TurnInput>, log: seq<TurnRecord>)
    requires IsLog(config, play, start, turns, log) && KeepsSound(config, play)
    requires Sound(start.messages) && forall t <- turns :: IsOrderly(config, t)
    ensures (LastEnding(log).Some? && LastEnding(log).value.OnHold?) || Sound(After(play, start, turns[..|log|]).messages)
  {
    if log != [] {
      var k := |log| - 1;
      LogBefore(config, play, start, turns, log);
      LogKeepsSound(config, play, start, turns, log[..k]);
      assert turns[k] in turns;
      assert SoundAfter(PlayedAt(play, start, turns, k));
    }
  }
}
