/**
 Progress of the secrets protocol: from every reachable state a writer that is left alone can finish, whatever
 crashed before it and wherever.
 */
module SecretsProgress {
  import opened Bytes
  import opened Options
  import opened SecretsFormat
  import opened SecretsProtocol
  import opened SecretsProofs

  /** A key file that `load_or_create` can work with: none, an empty one, or a complete one. */
  predicate KeyIsUsable(c: Crypto, fs: Fs) {
    Contents(fs, fs.key).None? || Contents(fs, fs.key) == Some([]) || KeyOf(c, fs).Some?
  }

  /** What the next steps of the lock holder need: a usable key file and, for a migration, a store. */
  predicate CanFinish(c: Crypto, fs: Fs, p: Proc) {
    match p.pc
    case Loading(load) =>
      KeyIsUsable(c, fs) && (p.op.Migrate? ==> fs.store.Some? && (load.Fetched? ==> load.bytes.Some?))
    case Keying(_, LoadKey) => KeyIsUsable(c, fs)
    case Keying(_, InvalidKey) => Contents(fs, fs.key) == Some([])
    case Unlinking => fs.store.Some?
    case Stopped => false
    case _ => true
  }

  /** How much there is left to read or write. */
  function Rest(done: nat, whole: nat): nat { if done < whole then 1 else 0 }

  function SizeOf(fs: Fs, ino: Ino): nat { if ino in fs.data then |fs.data[ino]| else 0 }

  function KeyRank(c: Crypto, fs: Fs, step: KeyPc): nat {
    match step
    case LoadKey => 5
    case InvalidKey => 4
    case RemoveKey => 3
    case CreateKey => 2
    case WriteKey(key, ino) => Rest(SizeOf(fs, ino), |KeyFileBytes(c, key)|)
    case ReloadKey(_) => 0
  }

  function PublishRank(c: Crypto, fs: Fs, next: Store, key: Key, step: PublishPc): nat {
    match step
    case Seal => 4
    case OpenTemp(_) => 3
    case WriteTemp(nonce, ino) => 1 + Rest(SizeOf(fs, ino), |EncodeV2(c, key, nonce, next)|)
    case Rename(_) => 0
  }

  function Rank(c: Crypto, fs: Fs, pc: Pc): nat {
    match pc
    case Loading(Opening) => 40
    case Loading(Reading(ino, got)) => 38 + Rest(|got|, SizeOf(fs, ino))
    case Loading(Fetched(_)) => 37
    case Keying(_, step) => 30 + KeyRank(c, fs, step)
    case Publishing(next, key, step) => 20 + PublishRank(c, fs, next, key, step)
    case Unlinking => 10
    case Release(_, _) => 1
    case _ => 0
  }

  lemma {:induction false} FreshNat(used: set<nat>) returns (n: nat)
    ensures forall x :: x in used ==> x < n
  {
    n := 0;
    if used != {} {
      var x :| x in used;
      n := FreshNat(used - {x});
      assert forall y :: y in used ==> y == x || y in used - {x};
      if n <= x {
        n := x + 1;
      }
    }
  }

  /** One step forward for the lock holder: less is left to do, and it can still finish. */
  ghost predicate Advances(c: Crypto, s: State, a: ActorId, s': State) {
    && a in s.procs && a in s'.procs && s'.procs[a].op == s.procs[a].op
    && CanFinish(c, s'.fs, s'.procs[a]) && Rank(c, s'.fs, s'.procs[a].pc) < Rank(c, s.fs, s.procs[a].pc)
    && (s'.lock == Some(a) || s'.procs[a].pc.Done?)
  }

  lemma LoadAdvances(c: Crypto, s: State, a: ActorId, draw: Choice) returns (ch: Choice)
    requires s.lock == Some(a) && a in s.procs && s.procs[a].pc.Loading? && !s.procs[a].pc.load.Fetched?
    requires LoadKnows(s.fs, s.procs[a].pc.load) && CanFinish(c, s.fs, s.procs[a])
    ensures Advances(c, s, a, AdvanceWriter(c, s, a, ch))
  {
    ch := draw;
    if s.procs[a].pc.load.Reading? {
      ch := draw.(chunk := SizeOf(s.fs, s.procs[a].pc.load.ino));
    }
  }

  lemma FetchAdvances(c: Crypto, cur: Store, s: State, a: ActorId, bytes: Option<seq<Byte>>)
    requires s.lock == Some(a) && a in s.procs && s.procs[a].pc == Loading(Fetched(bytes))
    requires Decode(c, bytes, KeyOf(c, s.fs)) == Some(cur) && CanFinish(c, s.fs, s.procs[a])
    requires bytes.Some? ==> s.fs.store.Some?
    ensures Advances(c, s, a, Fetch(c, s, a, bytes))
  {
  }

  lemma KeyAdvances(c: Crypto, fs: Fs, step: KeyPc, draw: Choice) returns (ch: Choice)
    requires c.Sound() && KeyKnows(c, fs, step)
    requires step.LoadKey? ==> KeyIsUsable(c, fs)
    requires step.InvalidKey? ==> Contents(fs, fs.key) == Some([])
    ensures var (fs', outcome) := KeyStep(c, fs, step, ch);
      && fs'.store == fs.store && !outcome.KeyFails?
      && (outcome.KeyMoves? ==>
            && !outcome.to.LoadKey? && (outcome.to.InvalidKey? ==> Contents(fs', fs'.key) == Some([]))
            && KeyRank(c, fs', outcome.to) < KeyRank(c, fs, step))
  {
    var n := FreshNat(fs.data.Keys);
    ch := draw.(chunk := KEY_LEN + KEY_CHECK_LEN, ino := n);
  }

  lemma KeyingAdvances(c: Crypto, cur: Store, s: State, a: ActorId, draw: Choice) returns (ch: Choice)
    requires c.Sound() && s.lock == Some(a) && a in s.procs && s.procs[a].pc.Keying?
    requires Knows(c, s.fs, cur, s.procs[a]) && CanFinish(c, s.fs, s.procs[a])
    ensures Advances(c, s, a, AdvanceWriter(c, s, a, ch))
  {
    ch := KeyAdvances(c, s.fs, s.procs[a].pc.keyStep, draw);
  }

  lemma PublishAdvances(c: Crypto, fs: Fs, pid: Pid, next: Store, key: Key, step: PublishPc, draw: Choice)
    returns (ch: Choice)
    requires PublishKnows(c, fs, pid, next, key, step)
    ensures var (fs', outcome) := PublishStep(c, fs, pid, next, key, step, ch);
      && !outcome.PublishFails?
      && (outcome.PublishMoves? ==>
            PublishRank(c, fs', next, key, outcome.to) < PublishRank(c, fs, next, key, step))
  {
    var n := FreshNat(fs.data.Keys);
    var chunk := if step.WriteTemp? then |EncodeV2(c, key, step.nonce, next)| else 0;
    ch := draw.(chunk := chunk, ino := n);
  }

  lemma PublishingAdvances(c: Crypto, cur: Store, s: State, a: ActorId, draw: Choice) returns (ch: Choice)
    requires s.lock == Some(a) && a in s.procs && s.procs[a].pc.Publishing? && Knows(c, s.fs, cur, s.procs[a])
    ensures Advances(c, s, a, AdvanceWriter(c, s, a, ch))
  {
    var Publishing(next, key, step) := s.procs[a].pc;
    ch := PublishAdvances(c, s.fs, s.procs[a].pid, next, key, step, draw);
  }

  lemma HolderAdvances(c: Crypto, base: Store, s: State, a: ActorId, draw: Choice) returns (ch: Choice)
    requires c.Sound() && Inv(c, base, s) && s.lock == Some(a) && CanFinish(c, s.fs, s.procs[a])
    ensures Advances(c, s, a, AdvanceWriter(c, s, a, ch))
  {
    ch := draw;
    var cur := Replay(base, s.log);
    match s.procs[a].pc
    case Loading(Fetched(bytes)) => FetchAdvances(c, cur, s, a, bytes);
    case Loading(_) => ch := LoadAdvances(c, s, a, draw);
    case Keying(_, _) => ch := KeyingAdvances(c, cur, s, a, draw);
    case Publishing(_, _, _) => ch := PublishingAdvances(c, cur, s, a, draw);
    case Unlinking => UnlinkingAdvances(c, s, a, draw);
    case Release(_, _) => ReleaseAdvances(c, s, a, draw);
  }

  lemma UnlinkingAdvances(c: Crypto, s: State, a: ActorId, ch: Choice)
    requires s.lock == Some(a) && a in s.procs && s.procs[a].pc.Unlinking? && s.fs.store.Some?
    ensures Advances(c, s, a, AdvanceWriter(c, s, a, ch))
  {
  }

  lemma ReleaseAdvances(c: Crypto, s: State, a: ActorId, ch: Choice)
    requires s.lock == Some(a) && a in s.procs && s.procs[a].pc.Release?
    ensures Advances(c, s, a, AdvanceWriter(c, s, a, ch))
  {
  }

  // ---- whole runs -------------------------------------------------------------------------------------------------

  lemma {:induction false} RunConcat(c: Crypto, s: State, before: seq<Event>, after: seq<Event>)
    ensures Run(c, s, before + after) == Run(c, Run(c, s, before), after)
  {
    if after == [] {
      assert before + after == before;
    } else {
      var n := |after| - 1;
      assert (before + after)[..|before + after| - 1] == before + after[..n];
      RunConcat(c, s, before, after[..n]);
    }
  }

  lemma RunOne(c: Crypto, s: State, e: Event)
    ensures Run(c, s, [e]) == Next(c, s, e)
  {
    assert [e][..0] == [];
  }

  /** Only steps of `a`. */
  predicate AloneBy(events: seq<Event>, a: ActorId) { forall e <- events :: e.Advance? && e.actor == a }

  lemma HolderStep(c: Crypto, base: Store, s: State, a: ActorId, draw: Choice) returns (e: Event, s': State)
    requires c.Sound() && Inv(c, base, s) && s.lock == Some(a) && CanFinish(c, s.fs, s.procs[a])
    ensures e.Advance? && e.actor == a && s' == Run(c, s, [e]) && Advances(c, s, a, s') && Inv(c, base, s')
  {
    var ch := HolderAdvances(c, base, s, a, draw);
    e := Advance(a, ch);
    s' := AdvanceWriter(c, s, a, ch);
    WriterKeepsInv(c, base, s, a, ch);
    RunOne(c, s, e);
  }

  lemma {:induction false} HolderFinishes(c: Crypto, base: Store, s: State, a: ActorId, draw: Choice) returns (events: seq<Event>)
    requires c.Sound() && Inv(c, base, s) && s.lock == Some(a) && CanFinish(c, s.fs, s.procs[a])
    ensures AloneBy(events, a) && a in Run(c, s, events).procs && Run(c, s, events).procs[a].pc.Done?
    decreases Rank(c, s.fs, s.procs[a].pc)
  {
    var e, s' := HolderStep(c, base, s, a, draw);
    if s'.procs[a].pc.Done? {
      events := [e];
    } else {
      var rest := HolderFinishes(c, base, s', a, draw);
      events := [e] + rest;
      RunConcat(c, s, [e], rest);
    }
  }

  /** The writer acquires the free lock, and finishes. */
  lemma WaiterFinishes(c: Crypto, base: Store, s: State, a: ActorId, draw: Choice) returns (events: seq<Event>)
    requires c.Sound() && Inv(c, base, s) && s.lock.None? && a in s.procs && s.procs[a].pc.WaitLock?
    requires KeyIsUsable(c, s.fs) && (s.procs[a].op.Migrate? ==> s.fs.store.Some?)
    ensures AloneBy(events, a) && a in Run(c, s, events).procs && Run(c, s, events).procs[a].pc.Done?
  {
    WriterKeepsInv(c, base, s, a, draw);
    RunOne(c, s, Advance(a, draw));
    var rest := HolderFinishes(c, base, AdvanceWriter(c, s, a, draw), a, draw);
    events := [Advance(a, draw)] + rest;
    RunConcat(c, s, [Advance(a, draw)], rest);
  }

  /**
   Nothing that happened before can wedge the store. After every run, with whatever errors and crashes, a waiting writer
   that finds the lock free and is left alone finishes, and its operation is committed, as long as the key file is
   missing, empty or complete and, for a migration, the store is still there.
   */
  lemma LoneWriterFinishes(c: Crypto, s: State, before: seq<Event>, a: ActorId, draw: Choice) returns (after: seq<Event>)
    requires c.Sound() && Init(c, s)
    requires var t := Run(c, s, before);
      && t.lock.None? && a in t.procs && t.procs[a].pc.WaitLock?
      && (Contents(t.fs, t.fs.key).None? || Contents(t.fs, t.fs.key) == Some([]) || KeyOf(c, t.fs).Some?)
      && (t.procs[a].op.Migrate? ==> t.fs.store.Some?)
    ensures AloneBy(after, a)
    ensures var u := Run(c, s, before + after);
      && a in u.procs && u.procs[a].pc.Done?
      && exists i :: 0 <= i < |u.log| && u.log[i] == Commit(a, u.procs[a].op, u.procs[a].pc.result)
  {
    RunKeepsInv(c, s, before);
    after := WaiterFinishes(c, View(c, s.fs).value, Run(c, s, before), a, draw);
    RunConcat(c, s, before, after);
    StoreIsLinearizable(c, s, before + after);
  }
}
