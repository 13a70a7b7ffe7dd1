/**
 The admission gate of one endpoint: a semaphore of `maxConcurrent` permits and a continuously
 refilled token bucket of the same capacity. Time and tokens are reals (seconds, tokens).
 */
module RateLimit {
  import opened Options

  // ---- token bucket -----------------------------------------------------------------------------------------------

  datatype Bucket = Bucket(tokens: real, capacity: real, rate: real, lastRefill: real)

  function MinReal(a: real, b: real): real { if a <= b then a else b }

  function Refill(b: Bucket, now: real): Bucket {
    var elapsed := now - b.lastRefill;
    if elapsed > 0.0 then b.(tokens := MinReal(b.tokens + elapsed * b.rate, b.capacity), lastRefill := now) else b
  }

  /** `None`: a token was taken. `Some(wait)`: none available, and how long until the next one. */
  function TryAcquire(b: Bucket, now: real): (Bucket, Option<real>)
    requires b.rate > 0.0
  {
    var r := Refill(b, now);
    if r.tokens >= 1.0 then (r.(tokens := r.tokens - 1.0), None)
    else (r, Some((1.0 - r.tokens) / r.rate))
  }

  class TokenBucket {
    var tokens: real
    var lastRefill: real
    const capacity: real
    const rate: real

    ghost function Value(): Bucket
      reads this
    {
      Bucket(tokens, capacity, rate, lastRefill)
    }

    constructor (capacity: nat, rate: real, now: real)
      ensures Value() == Bucket(capacity as real, capacity as real, rate, now)
    {
      this.tokens, this.capacity := capacity as real, capacity as real;
      this.rate, this.lastRefill := rate, now;
    }

    method Acquire(now: real) returns (wait: Option<real>)
      requires rate > 0.0
      modifies this
      ensures (Value(), wait) == TryAcquire(old(Value()), now)
    {
      var elapsed := now - lastRefill;
      if elapsed > 0.0 {
        tokens := MinReal(tokens + elapsed * rate, capacity);
        lastRefill := now;
      }
      assert Value() == Refill(old(Value()), now);
      if tokens >= 1.0 {
        tokens := tokens - 1.0;
        wait := None;
      } else {
        wait := Some((1.0 - tokens) / rate);
      }
    }
  }

  /**
   The announced wait is exact: if nobody else takes a token meanwhile, an attempt at a later
   time succeeds if and only if the whole wait has passed.
   */
  lemma WaitIsExact(b: Bucket, now: real, later: real)
    requires b.rate > 0.0 && b.capacity >= 1.0 && b.lastRefill <= now <= later
    requires TryAcquire(b, now).1.Some?
    ensures var (b', wait) := TryAcquire(b, now);
      TryAcquire(b', later).1.None? <==> later >= now + wait.value
  {
    var r := Refill(b, now);
    var w := (1.0 - r.tokens) / r.rate;
    assert w * r.rate == 1.0 - r.tokens;
    var elapsed := later - now;
    if elapsed >= w {
      assert elapsed * r.rate >= w * r.rate;
    } else {
      assert elapsed * r.rate < w * r.rate;
    }
  }

  // ---- the gate as a transition system ----------------------------------------------------------------------------

  datatype Task = Queued | AwaitingToken(wakeAt: real) | InFlight

  datatype Gate = Gate(now: real, permits: nat, bucket: Bucket, tasks: map<nat, Task>, sent: seq<real>)

  datatype Event =
    | Arrive(task: nat)
    | Elapse(seconds: real)
    | TakePermit(task: nat)
    | TakeToken(task: nat)
    | Drop(task: nat)

  /** `max` permits, a full bucket, a rate of `rpm` per minute. */
  ghost predicate Init(g: Gate, max: nat, rpm: nat) {
    && max > 0 && rpm > 0
    && g.permits == max && g.tasks == map[] && g.sent == []
    && g.bucket == Bucket(max as real, max as real, rpm as real / 60.0, g.now)
  }

  /** `Drop` ends a task at any point: finished, failed or cancelled; a held permit goes back. */
  function Next(g: Gate, e: Event): Gate
    requires g.bucket.rate > 0.0
  {
    match e
    case Arrive(t) => if t in g.tasks then g else g.(tasks := g.tasks[t := Queued])
    case Elapse(d) => if d < 0.0 then g else g.(now := g.now + d)
    case TakePermit(t) =>
      if t in g.tasks && g.tasks[t].Queued? && g.permits > 0 then
        g.(permits := g.permits - 1, tasks := g.tasks[t := AwaitingToken(g.now)])
      else g
    case TakeToken(t) =>
      if t in g.tasks && g.tasks[t].AwaitingToken? && g.tasks[t].wakeAt <= g.now then TokenStep(g, t) else g
    case Drop(t) =>
      if t in g.tasks then
        g.(permits := if g.tasks[t].Queued? then g.permits else g.permits + 1, tasks := g.tasks - {t})
      else g
  }

  /** A permit holder tries for a token: the request goes out at once, or the holder sleeps. */
  function TokenStep(g: Gate, t: nat): Gate
    requires g.bucket.rate > 0.0
  {
    var (bucket, wait) := TryAcquire(g.bucket, g.now);
    if wait.None? then g.(bucket := bucket, tasks := g.tasks[t := InFlight], sent := g.sent + [g.now])
    else g.(bucket := bucket, tasks := g.tasks[t := AwaitingToken(g.now + wait.value)])
  }

  ghost function Run(g: Gate, events: seq<Event>): (r: Gate)
    requires g.bucket.rate > 0.0
    ensures r.bucket.rate == g.bucket.rate
  {
    if events == [] then g else Next(Run(g, events[..|events| - 1]), events[|events| - 1])
  }

  /** Who holds a permit. */
  ghost function Admitted(tasks: map<nat, Task>): set<nat> {
    set t | t in tasks && !tasks[t].Queued?
  }

  ghost function Sending(tasks: map<nat, Task>): set<nat> {
    set t | t in tasks && tasks[t].InFlight?
  }

  lemma AdmittedAfterUpdate(tasks: map<nat, Task>, t: nat, task: Task)
    ensures Admitted(tasks[t := task]) == if task.Queued? then Admitted(tasks) - {t} else Admitted(tasks) + {t}
  {
  }

  lemma AdmittedAfterDrop(tasks: map<nat, Task>, t: nat)
    ensures Admitted(tasks - {t}) == Admitted(tasks) - {t}
  {
  }

  // Time measured in tokens: what the bucket refills by time `t` is `Scale(rate, t)`.

  function Scale(rate: real, t: real): real { rate * t }

  function ScaleAll(rate: real, times: seq<real>): seq<real> {
    seq(|times|, i requires 0 <= i < |times| => Scale(rate, times[i]))
  }

  /** Sends `i..j` spend at most the capacity plus what was refilled between the first and the last. */
  ghost predicate SpendBound(spent: seq<real>, capacity: real) {
    forall i, j :: 0 <= i <= j < |spent| ==> (j - i + 1) as real <= capacity + spent[j] - spent[i]
  }

  /** The same for the sends from `i` up to the last refill, counting the tokens still in the bucket. */
  ghost predicate Account(spent: seq<real>, tokens: real, capacity: real, refilled: real) {
    && 0.0 <= tokens <= capacity
    && forall i :: 0 <= i < |spent| ==> (|spent| - i) as real + tokens <= capacity + refilled - spent[i]
  }

  ghost predicate SortedUpTo(times: seq<real>, end: real) {
    && (forall i, j :: 0 <= i <= j < |times| ==> times[i] <= times[j])
    && (forall i :: 0 <= i < |times| ==> times[i] <= end)
  }

  ghost predicate Accounted(b: Bucket, sent: seq<real>) {
    && Account(ScaleAll(b.rate, sent), b.tokens, b.capacity, Scale(b.rate, b.lastRefill))
    && SpendBound(ScaleAll(b.rate, sent), b.capacity)
  }

  ghost predicate Inv(g: Gate, max: nat, rpm: nat) {
    && max > 0 && rpm > 0
    && g.permits + |Admitted(g.tasks)| == max
    && g.bucket.capacity == max as real && g.bucket.rate == rpm as real / 60.0
    && SortedUpTo(g.sent, g.bucket.lastRefill) && g.bucket.lastRefill <= g.now
    && Accounted(g.bucket, g.sent)
  }

  lemma RefillAccount(spent: seq<real>, tokens: real, capacity: real, refilled: real, tokens': real, refilled': real)
    requires Account(spent, tokens, capacity, refilled) && refilled <= refilled'
    requires tokens' == MinReal(tokens + (refilled' - refilled), capacity)
    ensures Account(spent, tokens', capacity, refilled')
  {
  }

  lemma ScaleElapsed(rate: real, from: real, to: real)
    requires rate > 0.0
    ensures (to - from) * rate == Scale(rate, to) - Scale(rate, from)
    ensures from <= to ==> Scale(rate, from) <= Scale(rate, to)
  {
    if from <= to { ProductIsNonNegative(to - from, rate); }
  }

  lemma ProductIsNonNegative(a: real, b: real)
    requires a >= 0.0 && b >= 0.0
    ensures a * b >= 0.0
  {
  }

  lemma RefillKeepsAccount(b: Bucket, sent: seq<real>, now: real)
    requires b.rate > 0.0 && b.lastRefill <= now && Accounted(b, sent)
    ensures Accounted(Refill(b, now), sent) && Refill(b, now).lastRefill == now
  {
    ScaleElapsed(b.rate, b.lastRefill, now);
    RefillAccount(ScaleAll(b.rate, sent), b.tokens, b.capacity, Scale(b.rate, b.lastRefill),
                  MinReal(b.tokens + (now - b.lastRefill) * b.rate, b.capacity), Scale(b.rate, now));
  }

  /** Taking a token extends both accounts by one send at the time of the last refill. */
  lemma SendAccount(spent: seq<real>, tokens: real, capacity: real, refilled: real)
    requires Account(spent, tokens, capacity, refilled) && SpendBound(spent, capacity) && tokens >= 1.0
    ensures Account(spent + [refilled], tokens - 1.0, capacity, refilled)
    ensures SpendBound(spent + [refilled], capacity)
  {
  }

  lemma SendKeepsAccount(b: Bucket, sent: seq<real>)
    requires Accounted(b, sent) && b.tokens >= 1.0
    ensures Accounted(b.(tokens := b.tokens - 1.0), sent + [b.lastRefill])
  {
    SendAccount(ScaleAll(b.rate, sent), b.tokens, b.capacity, Scale(b.rate, b.lastRefill));
    assert ScaleAll(b.rate, sent + [b.lastRefill]) == ScaleAll(b.rate, sent) + [Scale(b.rate, b.lastRefill)];
  }

  lemma TokenKeepsInv(g: Gate, t: nat, max: nat, rpm: nat)
    requires Inv(g, max, rpm) && t in g.tasks && g.tasks[t].AwaitingToken? && g.tasks[t].wakeAt <= g.now
    ensures Inv(TokenStep(g, t), max, rpm)
  {
    var g' := TokenStep(g, t);
    RefillKeepsAccount(g.bucket, g.sent, g.now);
    if Refill(g.bucket, g.now).tokens >= 1.0 {
      SendKeepsAccount(Refill(g.bucket, g.now), g.sent);
    }
    AdmittedAfterUpdate(g.tasks, t, g'.tasks[t]);
    assert Admitted(g.tasks) + {t} == Admitted(g.tasks);
  }

  /** Every step but taking a token moves permits only. */
  lemma PermitsAreConserved(g: Gate, e: Event)
    requires g.bucket.rate > 0.0 && !e.TakeToken?
    ensures var g' := Next(g, e);
      && g'.bucket == g.bucket && g'.sent == g.sent && g.now <= g'.now
      && g'.permits + |Admitted(g'.tasks)| == g.permits + |Admitted(g.tasks)|
  {
    match e
    case Arrive(t) => AdmittedAfterUpdate(g.tasks, t, Queued);
    case Elapse(d) =>
    case TakePermit(t) => AdmittedAfterUpdate(g.tasks, t, AwaitingToken(g.now));
    case Drop(t) => AdmittedAfterDrop(g.tasks, t);
  }

  lemma NextKeepsInv(g: Gate, e: Event, max: nat, rpm: nat)
    requires Inv(g, max, rpm)
    ensures Inv(Next(g, e), max, rpm)
  {
    if e.TakeToken? {
      if Next(g, e) != g { TokenKeepsInv(g, e.task, max, rpm); }
    } else {
      PermitsAreConserved(g, e);
    }
  }

  lemma {:induction false} RunKeepsInv(g: Gate, events: seq<Event>, max: nat, rpm: nat)
    requires Init(g, max, rpm)
    ensures g.bucket.rate > 0.0 && Inv(Run(g, events), max, rpm)
  {
    if events == [] {
      assert Admitted(g.tasks) == {};
    } else {
      RunKeepsInv(g, events[..|events| - 1], max, rpm);
      NextKeepsInv(Run(g, events[..|events| - 1]), events[|events| - 1], max, rpm);
    }
  }

  // ---- the promises -----------------------------------------------------------------------------------------------

  /** In-flight requests never exceed the permits, and every permit is free or with an admitted task. */
  lemma ConcurrencyIsBounded(g: Gate, events: seq<Event>, max: nat, rpm: nat)
    requires Init(g, max, rpm)
    ensures var r := Run(g, events); |Sending(r.tasks)| <= max && r.permits + |Admitted(r.tasks)| == max
  {
    RunKeepsInv(g, events, max, rpm);
    var r := Run(g, events);
    CardinalityOfSubset(Sending(r.tasks), Admitted(r.tasks));
  }

  lemma {:induction false} CardinalityOfSubset(a: set<nat>, b: set<nat>)
    requires a <= b
    ensures |a| <= |b|
  {
    assert b == a + (b - a);
  }

  /** What a step refills. */
  ghost function Credit(g: Gate, e: Event): real {
    if e.TakeToken? && e.task in g.tasks && g.tasks[e.task].AwaitingToken? && g.tasks[e.task].wakeAt <= g.now
    then Refill(g.bucket, g.now).tokens - g.bucket.tokens else 0.0
  }

  /** What was refilled over a run. */
  ghost function Credited(g: Gate, events: seq<Event>): real
    requires g.bucket.rate > 0.0
  {
    if events == [] then 0.0
    else
      var init := events[..|events| - 1];
      Credited(g, init) + Credit(Run(g, init), events[|events| - 1])
  }

  /** How many tasks of a run ended while their request was in flight. */
  ghost function Ended(g: Gate, events: seq<Event>): nat
    requires g.bucket.rate > 0.0
  {
    if events == [] then 0
    else
      var init, e := events[..|events| - 1], events[|events| - 1];
      Ended(g, init) + (if EndsInFlight(Run(g, init).tasks, e) then 1 else 0)
  }

  lemma SendingAfterUpdate(tasks: map<nat, Task>, t: nat, task: Task)
    ensures Sending(tasks[t := task]) == if task.InFlight? then Sending(tasks) + {t} else Sending(tasks) - {t}
  {
  }

  lemma SendingAfterDrop(tasks: map<nat, Task>, t: nat)
    ensures Sending(tasks - {t}) == Sending(tasks) - {t}
  {
  }

  /** Only a send takes a token. */
  lemma StepTakesTokens(g: Gate, e: Event)
    requires g.bucket.rate > 0.0
    ensures var g' := Next(g, e);
      g'.bucket.tokens + |g'.sent| as real == g.bucket.tokens + |g.sent| as real + Credit(g, e)
  {
  }

  ghost predicate EndsInFlight(tasks: map<nat, Task>, e: Event) {
    e.Drop? && e.task in tasks && tasks[e.task].InFlight?
  }

  lemma TokenSends(g: Gate, t: nat)
    requires g.bucket.rate > 0.0 && t in g.tasks && g.tasks[t].AwaitingToken?
    ensures var g' := TokenStep(g, t); |g'.sent| - |Sending(g'.tasks)| == |g.sent| - |Sending(g.tasks)|
  {
    SendingAfterUpdate(g.tasks, t, TokenStep(g, t).tasks[t]);
    assert t !in Sending(g.tasks);
  }

  /** Only a send puts a request in flight. */
  lemma StepSends(g: Gate, e: Event)
    requires g.bucket.rate > 0.0
    ensures var g' := Next(g, e);
      |g'.sent| - |Sending(g'.tasks)| == |g.sent| - |Sending(g.tasks)| + (if EndsInFlight(g.tasks, e) then 1 else 0)
  {
    if Next(g, e) != g {
      match e
      case Arrive(t) => SendingAfterUpdate(g.tasks, t, Queued);
      case Elapse(_) =>
      case TakePermit(t) => SendingAfterUpdate(g.tasks, t, AwaitingToken(g.now));
      case TakeToken(t) => TokenSends(g, t);
      case Drop(t) => SendingAfterDrop(g.tasks, t);
    }
  }

  /**
   Over every run the tokens taken are the requests sent, and these are the ones in flight or ended in
   flight: tasks that gave up while queued or waiting took none, and their permits are free again.
   */
  lemma {:induction false} CancelConsumesNothing(g: Gate, events: seq<Event>, max: nat, rpm: nat)
    requires Init(g, max, rpm)
    ensures g.bucket.rate > 0.0
    ensures var r := Run(g, events);
      && |r.sent| as real == max as real + Credited(g, events) - r.bucket.tokens
      && |r.sent| == |Sending(r.tasks)| + Ended(g, events)
      && r.permits + |Admitted(r.tasks)| == max
  {
    RunKeepsInv(g, events, max, rpm);
    if events == [] {
      assert Sending(g.tasks) == {};
    } else {
      var init := events[..|events| - 1];
      CancelConsumesNothing(g, init, max, rpm);
      StepTakesTokens(Run(g, init), events[|events| - 1]);
      StepSends(Run(g, init), events[|events| - 1]);
    }
  }

  // ---- progress ---------------------------------------------------------------------------------------------------

  lemma RunNext(g: Gate, events: seq<Event>, e: Event)
    requires g.bucket.rate > 0.0
    ensures Run(g, events + [e]) == Next(Run(g, events), e)
  {
    assert (events + [e])[..|events + [e]| - 1] == events;
  }

  /** What is in the bucket at `now`. */
  function Level(b: Bucket, now: real): real { MinReal(b.tokens + (now - b.lastRefill) * b.rate, b.capacity) }

  lemma LevelIsRefill(b: Bucket, now: real)
    requires b.lastRefill <= now && b.tokens <= b.capacity
    ensures Refill(b, now).tokens == Level(b, now)
  {
    if now == b.lastRefill {
      assert (now - b.lastRefill) * b.rate == 0.0 * b.rate == 0.0;
    }
  }

  /** A permit holder that is awake is sent at once if a token is there, and otherwise sleeps exactly until one is. */
  lemma TokenStepMeans(g: Gate, t: nat)
    requires g.bucket.rate > 0.0 && t in g.tasks && g.tasks[t].AwaitingToken? && g.tasks[t].wakeAt <= g.now
    requires g.bucket.lastRefill <= g.now && g.bucket.tokens <= g.bucket.capacity
    ensures var g', have := Next(g, TakeToken(t)), Level(g.bucket, g.now);
      if have >= 1.0 then g'.tasks[t] == InFlight && g'.sent == g.sent + [g.now] && g'.bucket.tokens == have - 1.0
      else g'.tasks[t] == AwaitingToken(g.now + (1.0 - have) / g.bucket.rate) && g'.sent == g.sent && g'.bucket.tokens == have
  {
    LevelIsRefill(g.bucket, g.now);
  }

  lemma WaiterIsSent(g: Gate, t: nat, max: nat, rpm: nat) returns (wait: real)
    requires Inv(g, max, rpm) && t in g.tasks && g.tasks[t].AwaitingToken? && g.tasks[t].wakeAt <= g.now
    ensures wait >= 0.0
    ensures var g1 := Next(g, TakeToken(t));
      var g2 := if g1.tasks[t].InFlight? then g1 else Next(Next(g1, Elapse(wait)), TakeToken(t));
      t in g2.tasks && g2.tasks[t] == InFlight
  {
    var (bucket, w) := TryAcquire(g.bucket, g.now);
    wait := 0.0;
    if w.Some? {
      wait := w.value;
      WaitIsPositive(g.bucket, g.now);
      WaitIsExact(g.bucket, g.now, g.now + wait);
    }
  }

  lemma WaitIsPositive(b: Bucket, now: real)
    requires b.rate > 0.0 && TryAcquire(b, now).1.Some?
    ensures TryAcquire(b, now).1.value > 0.0
  {
    var r := Refill(b, now);
    assert (1.0 - r.tokens) / r.rate > 0.0;
  }

  /**
   After every run, a queued task that finds a permit free and is left alone is sent: at once if there is a token, and
   otherwise after the one wait it is told.
   */
  lemma LoneTaskIsSent(g: Gate, events: seq<Event>, max: nat, rpm: nat, t: nat) returns (wait: real)
    requires Init(g, max, rpm)
    requires g.bucket.rate > 0.0 && t in Run(g, events).tasks && Run(g, events).tasks[t].Queued? && Run(g, events).permits > 0
    ensures wait >= 0.0
    ensures var r := Run(g, events + [TakePermit(t)] + [TakeToken(t)]);
      var later := Run(g, events + [TakePermit(t)] + [TakeToken(t)] + [Elapse(wait)] + [TakeToken(t)]);
      t in r.tasks && t in later.tasks && (r.tasks[t] == InFlight || later.tasks[t] == InFlight)
  {
    var a := events + [TakePermit(t)];
    var b := a + [TakeToken(t)];
    RunNext(g, events, TakePermit(t));
    RunNext(g, a, TakeToken(t));
    RunKeepsInv(g, a, max, rpm);
    wait := WaiterIsSent(Run(g, a), t, max, rpm);
    RunNext(g, b, Elapse(wait));
    RunNext(g, b + [Elapse(wait)], TakeToken(t));
  }

  /** How many of the sends fall into `[from, to]`. */
  function SentWithin(sent: seq<real>, from: real, to: real): nat {
    if sent == [] then 0
    else SentWithin(sent[..|sent| - 1], from, to) + (if from <= sent[|sent| - 1] <= to then 1 else 0)
  }

  /** The sends within a window form one stretch: if there are `n` of them, `n` in a row fit. */
  lemma {:induction false} WindowIsStretch(sent: seq<real>, from: real, to: real)
    requires forall i, j :: 0 <= i <= j < |sent| ==> sent[i] <= sent[j]
    ensures var n := SentWithin(sent, from, to); n > 0 ==>
      exists i, j :: 0 <= i <= j < |sent| && j - i + 1 == n && from <= sent[i] && sent[j] <= to
        && (sent[|sent| - 1] <= to ==> j == |sent| - 1)
  {
    if sent != [] {
      var init, last := sent[..|sent| - 1], sent[|sent| - 1];
      WindowIsStretch(init, from, to);
      var m := SentWithin(init, from, to);
      if m > 0 {
        var i, j :| 0 <= i <= j < |init| && j - i + 1 == m && from <= init[i] && init[j] <= to
          && (init[|init| - 1] <= to ==> j == |init| - 1);
        assert sent[i] == init[i] && sent[j] == init[j];
        if last <= to {
          assert init[|init| - 1] <= to;
          assert sent[|sent| - 1] <= to && from <= sent[i];
        }
      } else if from <= last <= to {
        assert sent[|sent| - 1] == last;
      }
    }
  }

  /** In any window of sixty seconds at most `requests_per_minute + max_concurrent` requests are sent. */
  lemma SixtySecondBound(g: Gate, events: seq<Event>, max: nat, rpm: nat, start: real)
    requires Init(g, max, rpm)
    ensures SentWithin(Run(g, events).sent, start, start + 60.0) <= rpm + max
  {
    RunKeepsInv(g, events, max, rpm);
    var r := Run(g, events);
    WindowIsStretch(r.sent, start, start + 60.0);
    var n := SentWithin(r.sent, start, start + 60.0);
    if n > 0 {
      var i, j :| 0 <= i <= j < |r.sent| && j - i + 1 == n && start <= r.sent[i] && r.sent[j] <= start + 60.0;
      var spent := ScaleAll(r.bucket.rate, r.sent);
      assert (j - i + 1) as real <= r.bucket.capacity + spent[j] - spent[i];
      assert spent[j] == Scale(r.bucket.rate, r.sent[j]) && spent[i] == Scale(r.bucket.rate, r.sent[i]);
      MinuteRefill(r.bucket.rate, rpm, r.sent[i], r.sent[j]);
    }
  }

  lemma MinuteRefill(rate: real, rpm: nat, from: real, to: real)
    requires rate == rpm as real / 60.0 && rpm > 0 && to - from <= 60.0
    ensures Scale(rate, to) - Scale(rate, from) <= rpm as real
  {
    ScaleElapsed(rate, from, to);
    ScaleElapsed(rate, to - from, 60.0);
  }
}
