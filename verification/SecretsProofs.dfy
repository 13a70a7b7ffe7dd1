/**
 Every reachable state of the secrets protocol, under every interleaving with errors and
 crashes, is the outcome of the committed operations applied one at a time.
 */
module SecretsProofs {
  import opened Bytes
  import opened Options
  import opened SecretsFormat
  import opened SecretsProtocol

  lemma ReplayExtends(base: Store, log: seq<Commit>, e: Commit)
    ensures Replay(base, log + [e]) == Apply(e.op, Replay(base, log))
  {
    assert (log + [e])[..|log|] == log;
  }

  // ---- what one step must leave alone -----------------------------------------------------------------------------

  /** The stability each step owes to everybody else. */
  ghost predicate Stable(c: Crypto, s: State, s': State) {
    && s.published <= s'.published
    && s.published <= s.fs.data.Keys && s'.published <= s'.fs.data.Keys
    && (forall ino :: ino in s.published ==> s'.fs.data[ino] == s.fs.data[ino])
    && (KeyOf(c, s.fs).Some? ==> KeyOf(c, s'.fs) == KeyOf(c, s.fs))
    && s.log <= s'.log
  }

  lemma StableKeepsReadable(c: Crypto, s: State, s': State)
    requires AllReadable(c, s.fs, s.published) && Stable(c, s, s')
    ensures AllReadable(c, s'.fs, s.published)
  {
    forall ino | ino in s.published
      ensures ino in s'.fs.data && Decode(c, Some(s'.fs.data[ino]), KeyOf(c, s'.fs)).Some?
    {
      DecodeKeepsWorking(c, Some(s.fs.data[ino]), KeyOf(c, s.fs), KeyOf(c, s'.fs));
    }
  }

  lemma StableKeepsReaders(c: Crypto, base: Store, s: State, s': State)
    requires AllReadersSee(c, base, s) && Stable(c, s, s') && s'.readers == s.readers
    ensures AllReadersSee(c, base, s')
  {
    forall r | r in s.readers ensures ReaderSees(c, base, s'.fs, s'.log, s'.published, s.readers[r]) {
      var reader := s.readers[r];
      assert s'.log[..reader.seenAt] == s.log[..reader.seenAt];
    }
  }

  lemma AccountsKept(log: seq<Commit>, procs: map<ActorId, Proc>, a: ActorId, pc': Pc)
    requires AllAccounted(log, procs) && a in procs && Accounted(log, a, procs[a].(pc := pc'))
    ensures AllAccounted(log, procs[a := procs[a].(pc := pc')])
  {
  }

  /** A file-system step that neither publishes nor disturbs a published file or a complete key. */
  ghost predicate QuietFs(c: Crypto, fs: Fs, fs': Fs, published: set<Ino>) {
    && WellFormedFs(fs, published) && WellFormedFs(fs', published)
    && fs'.store == fs.store
    && (forall ino :: ino in published ==> fs'.data[ino] == fs.data[ino])
    && (KeyOf(c, fs).Some? ==> KeyOf(c, fs') == KeyOf(c, fs))
  }

  /** The lock holder moves on without committing; files may change where nobody looks. */
  lemma HolderMoves(c: Crypto, base: Store, s: State, a: ActorId, fs': Fs, pc': Pc)
    requires Inv(c, base, s) && s.lock == Some(a)
    requires HoldsLock(pc') && !pc'.Release? && !s.procs[a].pc.Release?
    requires QuietFs(c, s.fs, fs', s.published)
    requires Knows(c, fs', Replay(base, s.log), s.procs[a].(pc := pc'))
    ensures Inv(c, base, Goto(s, a, pc').(fs := fs'))
    ensures Stable(c, s, Goto(s, a, pc').(fs := fs'))
  {
    var s' := Goto(s, a, pc').(fs := fs');
    StableKeepsReadable(c, s, s');
    StableKeepsReaders(c, base, s, s');
    AccountsKept(s.log, s.procs, a, pc');
    DecodeKeepsWorking(c, StoreBytes(s.fs), KeyOf(c, s.fs), KeyOf(c, fs'));
  }

  lemma NonHolderWaits(c: Crypto, base: Store, s: State, a: ActorId)
    requires Inv(c, base, s) && a in s.procs && s.procs[a].pc.Start?
    ensures Inv(c, base, Goto(s, a, WaitLock)) && Stable(c, s, Goto(s, a, WaitLock))
  {
    AccountsKept(s.log, s.procs, a, WaitLock);
  }

  /** Error return or crash; a failed temp write may also remove the temp file. */
  lemma StopKeepsInv(c: Crypto, base: Store, s: State, a: ActorId, fs': Fs)
    requires Inv(c, base, s) && a in s.procs && !s.procs[a].pc.Done?
    requires fs' == s.fs || (s.lock == Some(a) && fs' == s.fs.(temp := s.fs.temp - {s.procs[a].pid}))
    ensures Inv(c, base, Stop(s, a).(fs := fs')) && Stable(c, s, Stop(s, a).(fs := fs'))
  {
    var s' := Stop(s, a).(fs := fs');
    assert KeyOf(c, fs') == KeyOf(c, s.fs) && StoreBytes(fs') == StoreBytes(s.fs);
    StableKeepsReadable(c, s, s');
    StableKeepsReaders(c, base, s, s');
    AccountsKept(s.log, s.procs, a, Stopped);
  }

  // ---- commits ----------------------------------------------------------------------------------------------------

  /** Appending one commit of an actor that has none keeps the log sequential. */
  lemma CommitExtendsLog(base: Store, log: seq<Commit>, e: Commit)
    requires SequentialLog(base, log) && Absent(log, e.actor)
    requires e.result == Reports(e.op, Replay(base, log))
    ensures SequentialLog(base, log + [e])
  {
    var log' := log + [e];
    forall i | 0 <= i < |log'|
      ensures log'[i].result == Reports(log'[i].op, Replay(base, log'[..i]))
    {
      if i < |log| { assert log'[..i] == log[..i]; } else { assert log'[..i] == log; }
    }
  }

  lemma CommitAccounts(s: State, a: ActorId, result: bool)
    requires AllAccounted(s.log, s.procs) && a in s.procs && Absent(s.log, a)
    ensures var s' := Committed(s, a, result); AllAccounted(s'.log, s'.procs)
  {
    var s' := Committed(s, a, result);
    forall b | b in s'.procs ensures Accounted(s'.log, b, s'.procs[b]) {
      if b != a { assert Accounted(s.log, b, s.procs[b]); }
    }
  }

  /** The common part of all commits; `fs'` and `published'` carry the published effect. */
  lemma CommitKeepsInv(c: Crypto, base: Store, s: State, a: ActorId, result: bool, fs': Fs, published': set<Ino>)
    requires Inv(c, base, s) && a in s.procs && Absent(s.log, a)
    requires !s.procs[a].pc.Release? && !s.procs[a].pc.Done? && !s.procs[a].pc.Stopped?
    requires result == Reports(s.procs[a].op, Replay(base, s.log))
    requires s.lock != Some(a) ==> fs' == s.fs && Apply(s.procs[a].op, Replay(base, s.log)) == Replay(base, s.log)
    requires WellFormedFs(fs', published') && AllReadable(c, fs', published' - s.published)
    requires Stable(c, s, s.(fs := fs', published := published'))
    requires View(c, fs') == Some(Apply(s.procs[a].op, Replay(base, s.log)))
    ensures Inv(c, base, Committed(s, a, result).(fs := fs', published := published'))
    ensures Stable(c, s, Committed(s, a, result).(fs := fs', published := published'))
  {
    var s' := Committed(s, a, result).(fs := fs', published := published');
    var e := Commit(a, s.procs[a].op, result);
    CommitExtendsLog(base, s.log, e);
    CommitAccounts(s, a, result);
    ReplayExtends(base, s.log, e);
    StableKeepsReadable(c, s, s');
    StableKeepsReaders(c, base, s, s');
  }

  lemma NoOpCommit(c: Crypto, base: Store, s: State, a: ActorId, result: bool)
    requires Inv(c, base, s) && a in s.procs
    requires Apply(s.procs[a].op, Replay(base, s.log)) == Replay(base, s.log)
    requires result == Reports(s.procs[a].op, Replay(base, s.log))
    requires !s.procs[a].pc.Release? && !s.procs[a].pc.Done? && !s.procs[a].pc.Stopped?
    ensures Inv(c, base, Committed(s, a, result)) && Stable(c, s, Committed(s, a, result))
  {
    CommitKeepsInv(c, base, s, a, result, s.fs, s.published);
    assert Committed(s, a, result).(fs := s.fs, published := s.published) == Committed(s, a, result);
  }

  // ---- the steps on files, without the rest of the state ----------------------------------------------------------

  /** Creating the key under the lock never touches a complete key, and ends with one. */
  lemma KeyStepLocal(c: Crypto, fs: Fs, published: set<Ino>, step: KeyPc, ch: Choice)
    requires c.Sound() && WellFormedFs(fs, published) && KeyKnows(c, fs, step)
    ensures var (fs', outcome) := KeyStep(c, fs, step, ch);
      && QuietFs(c, fs, fs', published)
      && (outcome.KeyMoves? ==> KeyKnows(c, fs', outcome.to))
      && (outcome.KeyReady? ==> KeyOf(c, fs') == Some(outcome.key))
      && (outcome.KeyFails? ==> fs' == fs)
  {
    if step.WriteKey? {
      KeyFileVerifiesExactlyWhenComplete(c, step.key, fs.data[step.ino]);
    }
  }

  lemma PublishStepLocal(c: Crypto, fs: Fs, published: set<Ino>, pid: Pid, next: Store, key: Key, step: PublishPc, ch: Choice)
    requires c.Sound() && WellFormedFs(fs, published) && PublishKnows(c, fs, pid, next, key, step)
    ensures var (fs', outcome) := PublishStep(c, fs, pid, next, key, step, ch);
      match outcome
      case PublishMoves(to) => QuietFs(c, fs, fs', published) && PublishKnows(c, fs', pid, next, key, to)
      case Renamed(ino) =>
        && WellFormedFs(fs', published + {ino}) && fs'.data == fs.data
        && KeyOf(c, fs') == Some(key) && View(c, fs') == Some(next)
        && fs'.store == Some(ino)
      case PublishFails => fs' == fs
  {
    if step.Rename? {
      StoreRoundTrip(c, key, step.nonce, next);
    }
  }

  // ---- one step of any process ------------------------------------------------------------------------------------

  /** The decision in the code is the sequential meaning of the operation. */
  lemma DecideIsApply(op: Op, cur: Store)
    ensures match Decide(op, cur)
      case Finish(result) => Apply(op, cur) == cur && result == Reports(op, cur)
      case RemoveFile => Pending(op, EMPTY_STORE, cur)
      case Publish(next) => Pending(op, next, cur)
  {
    if op.Delete? && !Holds(cur, op.name) {
      assert cur.apiKeys - {op.name} == cur.apiKeys && cur.tokens - {op.name} == cur.tokens;
    }
  }

  lemma FetchKeepsInv(c: Crypto, base: Store, s: State, a: ActorId, bytes: Option<seq<Byte>>)
    requires Inv(c, base, s) && s.lock == Some(a) && s.procs[a].pc == Loading(Fetched(bytes))
    ensures Inv(c, base, Fetch(c, s, a, bytes)) && Stable(c, s, Fetch(c, s, a, bytes))
  {
    var op, cur := s.procs[a].op, Replay(base, s.log);
    assert Decode(c, bytes, KeyOf(c, s.fs)) == Some(cur);
    DecideIsApply(op, cur);
    if op.Migrate? && bytes.None? {
      StopKeepsInv(c, base, s, a, s.fs);
    } else if op.Migrate? && !IsLegacyV1(bytes.value) {
      NoOpCommit(c, base, s, a, true);
    } else {
      match Decide(op, cur)
      case Finish(result) => NoOpCommit(c, base, s, a, result);
      case RemoveFile => HolderMoves(c, base, s, a, s.fs, Unlinking);
      case Publish(next) => HolderMoves(c, base, s, a, s.fs, Keying(next, LoadKey));
    }
  }

  lemma ReadMoreReads(fs: Fs, ino: Ino, got: seq<Byte>, chunk: nat)
    requires ino in fs.data && got <= fs.data[ino]
    ensures match ReadMore(fs, ino, got, chunk)
      case Blocked => true
      case More(more) => more <= fs.data[ino]
      case Eof => got == fs.data[ino]
  {
  }

  lemma LoadingKeepsInv(c: Crypto, base: Store, s: State, a: ActorId, load: LoadPc, ch: Choice)
    requires Inv(c, base, s) && s.lock == Some(a) && s.procs[a].pc == Loading(load) && !load.Fetched?
    ensures Inv(c, base, AdvanceWriter(c, s, a, ch)) && Stable(c, s, AdvanceWriter(c, s, a, ch))
  {
    if load.Reading? { ReadMoreReads(s.fs, load.ino, load.got, ch.chunk); }
    HolderMoves(c, base, s, a, s.fs, Loading(LoadStep(s.fs, load, ch)));
  }

  lemma KeyingKeepsInv(c: Crypto, base: Store, s: State, a: ActorId, ch: Choice)
    requires c.Sound() && Inv(c, base, s) && s.lock == Some(a) && s.procs[a].pc.Keying?
    ensures Inv(c, base, AdvanceWriter(c, s, a, ch)) && Stable(c, s, AdvanceWriter(c, s, a, ch))
  {
    var Keying(next, step) := s.procs[a].pc;
    KeyStepLocal(c, s.fs, s.published, step, ch);
    match KeyStep(c, s.fs, step, ch)
    case (fs', KeyMoves(to)) => HolderMoves(c, base, s, a, fs', Keying(next, to));
    case (fs', KeyReady(key)) => HolderMoves(c, base, s, a, fs', Publishing(next, key, Seal));
    case (fs', KeyFails) => StopKeepsInv(c, base, s, a, s.fs);
  }

  /** Renaming the complete temp file over the store is the commit point of a write. */
  lemma PublishingKeepsInv(c: Crypto, base: Store, s: State, a: ActorId, ch: Choice)
    requires c.Sound() && Inv(c, base, s) && s.lock == Some(a) && s.procs[a].pc.Publishing?
    ensures Inv(c, base, AdvanceWriter(c, s, a, ch)) && Stable(c, s, AdvanceWriter(c, s, a, ch))
  {
    var Publishing(next, key, step) := s.procs[a].pc;
    PublishStepLocal(c, s.fs, s.published, s.procs[a].pid, next, key, step, ch);
    match PublishStep(c, s.fs, s.procs[a].pid, next, key, step, ch)
    case (fs', PublishMoves(to)) => HolderMoves(c, base, s, a, fs', Publishing(next, key, to));
    case (fs', Renamed(ino)) => CommitKeepsInv(c, base, s, a, true, fs', s.published + {ino});
    case (fs', PublishFails) => StopKeepsInv(c, base, s, a, s.fs);
  }

  /** Deleting the last secret removes the file: the empty store and no store read the same. */
  lemma UnlinkingKeepsInv(c: Crypto, base: Store, s: State, a: ActorId, ch: Choice)
    requires Inv(c, base, s) && s.lock == Some(a) && s.procs[a].pc.Unlinking?
    ensures Inv(c, base, AdvanceWriter(c, s, a, ch)) && Stable(c, s, AdvanceWriter(c, s, a, ch))
  {
    var fs' := s.fs.(store := None);
    if s.fs.store.None? {
      StopKeepsInv(c, base, s, a, s.fs);
    } else {
      assert KeyOf(c, fs') == KeyOf(c, s.fs);
      CommitKeepsInv(c, base, s, a, true, fs', s.published);
      assert Committed(s, a, true).(fs := fs', published := s.published) == AdvanceWriter(c, s, a, ch);
    }
  }

  /** Before the lock: a missing store makes a deletion, a migrated one a migration, a no-op. */
  lemma StartKeepsInv(c: Crypto, base: Store, s: State, a: ActorId, ch: Choice)
    requires Inv(c, base, s) && a in s.procs && s.procs[a].pc.Start?
    ensures Inv(c, base, AdvanceWriter(c, s, a, ch)) && Stable(c, s, AdvanceWriter(c, s, a, ch))
  {
    var s' := AdvanceWriter(c, s, a, ch);
    if s'.procs[a].pc.WaitLock? {
      NonHolderWaits(c, base, s, a);
    } else {
      NoOpCommit(c, base, s, a, s'.procs[a].pc.result);
    }
  }

  lemma AcquireKeepsInv(c: Crypto, base: Store, s: State, a: ActorId)
    requires Inv(c, base, s) && a in s.procs && s.procs[a].pc.WaitLock? && s.lock.None?
    ensures var s' := Goto(s, a, Loading(Opening)).(lock := Some(a)); Inv(c, base, s') && Stable(c, s, s')
  {
    AccountsKept(s.log, s.procs, a, Loading(Opening));
  }

  lemma ReleaseKeepsInv(c: Crypto, base: Store, s: State, a: ActorId, result: bool, at: nat)
    requires Inv(c, base, s) && a in s.procs && s.procs[a].pc == Release(result, at)
    ensures var s' := Goto(s, a, Done(result, at)).(lock := None); Inv(c, base, s') && Stable(c, s, s')
  {
    AccountsKept(s.log, s.procs, a, Done(result, at));
  }

  lemma WriterKeepsInv(c: Crypto, base: Store, s: State, a: ActorId, ch: Choice)
    requires c.Sound() && Inv(c, base, s) && a in s.procs
    ensures Inv(c, base, AdvanceWriter(c, s, a, ch)) && Stable(c, s, AdvanceWriter(c, s, a, ch))
  {
    match s.procs[a].pc
    case Start => StartKeepsInv(c, base, s, a, ch);
    case WaitLock => if s.lock.None? { AcquireKeepsInv(c, base, s, a); }
    case Loading(Fetched(bytes)) => FetchKeepsInv(c, base, s, a, bytes);
    case Loading(load) => LoadingKeepsInv(c, base, s, a, load, ch);
    case Keying(_, _) => KeyingKeepsInv(c, base, s, a, ch);
    case Publishing(_, _, _) => PublishingKeepsInv(c, base, s, a, ch);
    case Unlinking => UnlinkingKeepsInv(c, base, s, a, ch);
    case Release(result, at) => ReleaseKeepsInv(c, base, s, a, result, at);
    case Done(_, _) =>
    case Stopped =>
  }

  lemma ReaderSeesNext(c: Crypto, base: Store, s: State, r: ActorId, chunk: nat)
    requires Inv(c, base, s) && r in s.readers
    ensures ReaderSees(c, base, s.fs, s.log, s.published, AdvanceReading(c, s, r, chunk).readers[r])
  {
    var reader := s.readers[r];
    assert ReaderSees(c, base, s.fs, s.log, s.published, reader);
    assert s.log[..|s.log|] == s.log;
    if reader.pc.ReadChunks? { ReadMoreReads(s.fs, reader.pc.ino, reader.pc.got, chunk); }
  }

  lemma SpawnKeepsInv(c: Crypto, base: Store, s: State, a: ActorId, op: Op, pid: Pid)
    requires Inv(c, base, s) && a !in s.procs
    ensures var s' := s.(procs := s.procs[a := Proc(op, pid, Start)]); Inv(c, base, s') && Stable(c, s, s')
  {
    assert Absent(s.log, a);
  }

  lemma FailureKeepsInv(c: Crypto, base: Store, s: State, e: Event)
    requires Inv(c, base, s) && (e.IoError? || e.Crash?)
    ensures Inv(c, base, Next(c, s, e)) && Stable(c, s, Next(c, s, e))
  {
    if Next(c, s, e) != s { StopKeepsInv(c, base, s, e.actor, Next(c, s, e).fs); }
  }

  lemma NextKeepsInv(c: Crypto, base: Store, s: State, e: Event)
    requires c.Sound() && Inv(c, base, s)
    ensures Inv(c, base, Next(c, s, e)) && Stable(c, s, Next(c, s, e))
  {
    match e
    case Spawn(a, op, pid) => if a !in s.procs { SpawnKeepsInv(c, base, s, a, op, pid); }
    case SpawnReader(_) =>
    case Advance(a, ch) => if a in s.procs { WriterKeepsInv(c, base, s, a, ch); }
    case AdvanceReader(r, chunk) => if r in s.readers { ReaderSeesNext(c, base, s, r, chunk); }
    case IoError(_, _) => FailureKeepsInv(c, base, s, e);
    case Crash(_) => FailureKeepsInv(c, base, s, e);
  }

  // ---- whole runs -------------------------------------------------------------------------------------------------

  lemma {:induction false} RunKeepsInv(c: Crypto, s: State, events: seq<Event>)
    requires c.Sound() && Init(c, s)
    ensures Inv(c, View(c, s.fs).value, Run(c, s, events))
  {
    if events != [] {
      RunKeepsInv(c, s, events[..|events| - 1]);
      NextKeepsInv(c, View(c, s.fs).value, Run(c, s, events[..|events| - 1]), events[|events| - 1]);
    }
  }

  /**
   After any interleaving with errors and crashes, the store on disk decodes to the committed
   operations applied one at a time, each operation that returned is in that history exactly
   once with the result it returned, and at most one process is inside the lock.
   */
  lemma StoreIsLinearizable(c: Crypto, s: State, events: seq<Event>)
    requires c.Sound() && Init(c, s)
    ensures var base, t := View(c, s.fs).value, Run(c, s, events);
      && View(c, t.fs) == Some(Replay(base, t.log))
      && SequentialLog(base, t.log)
      && (forall a :: a in t.procs && t.procs[a].pc.Done? ==>
            exists i :: 0 <= i < |t.log| && t.log[i] == Commit(a, t.procs[a].op, t.procs[a].pc.result))
      && (forall a, b :: a in t.procs && b in t.procs && HoldsLock(t.procs[a].pc) && HoldsLock(t.procs[b].pc) ==> a == b)
  {
    RunKeepsInv(c, s, events);
    var t := Run(c, s, events);
    forall a | a in t.procs && t.procs[a].pc.Done?
      ensures exists i :: 0 <= i < |t.log| && t.log[i] == Commit(a, t.procs[a].op, t.procs[a].pc.result)
    {
      assert Accounted(t.log, a, t.procs[a]);
    }
  }

  /** A reader without the lock never fails on its own and returns a state committed during its read. */
  lemma LockFreeReadIsLinearizable(c: Crypto, s: State, events: seq<Event>, r: ActorId)
    requires c.Sound() && Init(c, s)
    requires r in Run(c, s, events).readers && Run(c, s, events).readers[r].pc.ReadDone?
    ensures var t := Run(c, s, events);
      exists k :: t.readers[r].since <= k <= |t.log|
        && t.readers[r].pc.result == Some(Replay(View(c, s.fs).value, t.log[..k]))
  {
    RunKeepsInv(c, s, events);
    var t := Run(c, s, events);
    assert ReaderSees(c, View(c, s.fs).value, t.fs, t.log, t.published, t.readers[r]);
  }

  lemma StableTransitive(c: Crypto, s: State, t: State, u: State)
    requires Stable(c, s, t) && Stable(c, t, u)
    ensures Stable(c, s, u)
  {
    forall ino | ino in s.published ensures u.fs.data[ino] == s.fs.data[ino] {
      assert ino in t.published;
    }
  }

  lemma StepIsStable(c: Crypto, s: State, events: seq<Event>, e: Event)
    requires c.Sound() && Init(c, s)
    ensures Stable(c, Run(c, s, events), Next(c, Run(c, s, events), e))
  {
    RunKeepsInv(c, s, events);
    NextKeepsInv(c, View(c, s.fs).value, Run(c, s, events), e);
  }

  lemma {:induction false} RunIsStable(c: Crypto, s: State, before: seq<Event>, after: seq<Event>)
    requires c.Sound() && Init(c, s)
    ensures Stable(c, Run(c, s, before), Run(c, s, before + after))
  {
    if after == [] {
      assert before + after == before;
      RunKeepsInv(c, s, before);
    } else {
      var init := after[..|after| - 1];
      RunIsStable(c, s, before, init);
      assert (before + after)[..|before + after| - 1] == before + init;
      StepIsStable(c, s, before + init, after[|after| - 1]);
      StableTransitive(c, Run(c, s, before), Run(c, s, before + init), Run(c, s, before + after));
    }
  }

  /**
   A complete key is never replaced, and whatever was ever published keeps its bytes and keeps
   decoding to what it decoded to, however the run goes on.
   */
  lemma KeyAndStoresAreForever(c: Crypto, s: State, before: seq<Event>, after: seq<Event>)
    requires c.Sound() && Init(c, s)
    ensures var t, u := Run(c, s, before), Run(c, s, before + after);
      && (KeyOf(c, t.fs).Some? ==> KeyOf(c, u.fs) == KeyOf(c, t.fs))
      && t.published <= t.fs.data.Keys && t.published <= u.fs.data.Keys
      && (forall ino :: ino in t.published ==>
            && u.fs.data[ino] == t.fs.data[ino]
            && Decode(c, Some(u.fs.data[ino]), KeyOf(c, u.fs)).Some?
            && Decode(c, Some(u.fs.data[ino]), KeyOf(c, u.fs)) == Decode(c, Some(t.fs.data[ino]), KeyOf(c, t.fs)))
  {
    RunIsStable(c, s, before, after);
    RunKeepsInv(c, s, before);
  }

  /** In every reachable state a v2 store on disk has a complete key file whose tag matches it. */
  lemma V2StoreHasItsKey(c: Crypto, s: State, events: seq<Event>)
    requires c.Sound() && Init(c, s)
    ensures var fs := Run(c, s, events).fs;
      StoreBytes(fs).Some? && StoreBytes(fs).value != [] && StoreBytes(fs).value[0] == 2 ==>
        && KeyOf(c, fs).Some? && |StoreBytes(fs).value| >= 29
        && StoreBytes(fs).value[1..17] == c.storeTag(KeyOf(c, fs).value)
  {
    RunKeepsInv(c, s, events);
  }

  /** With every caller inside the lock, the lost-create-race path is never entered. */
  lemma NoCreateRaceUnderLock(c: Crypto, s: State, events: seq<Event>, a: ActorId)
    requires c.Sound() && Init(c, s) && a in Run(c, s, events).procs
    ensures var pc := Run(c, s, events).procs[a].pc; !(pc.Keying? && pc.keyStep.ReloadKey?)
  {
    RunKeepsInv(c, s, events);
  }

  /**
   The lock is needed: two unlocked creators can interleave so that one of them is handed a key
   while the key file holds the other's.
   */
  lemma KeyIsLostWithoutLock(c: Crypto, mine: Key, theirs: Key, nonce: Nonce)
    requires c.Sound() && mine != theirs
    ensures
      var none := Fs(map[], None, None, map[]);
      var a1 := KeyStep(c, none, CreateKey, Choice(0, 1, mine, nonce));
      var b1 := KeyStep(c, a1.0, LoadKey, Choice(0, 2, theirs, nonce));
      var b2 := KeyStep(c, b1.0, InvalidKey, Choice(0, 2, theirs, nonce));
      var b3 := KeyStep(c, b2.0, RemoveKey, Choice(0, 2, theirs, nonce));
      var b4 := KeyStep(c, b3.0, CreateKey, Choice(0, 2, theirs, nonce));
      var b5 := KeyStep(c, b4.0, WriteKey(theirs, 2), Choice(64, 2, theirs, nonce));
      var a2 := KeyStep(c, b5.0, WriteKey(mine, 1), Choice(64, 1, mine, nonce));
      var a3 := KeyStep(c, a2.0, WriteKey(mine, 1), Choice(64, 1, mine, nonce));
      && a1.1 == KeyMoves(WriteKey(mine, 1)) && b1.1 == KeyMoves(InvalidKey)
      && b2.1 == KeyMoves(RemoveKey) && b3.1 == KeyMoves(CreateKey) && b4.1 == KeyMoves(WriteKey(theirs, 2))
      && a3.1 == KeyReady(mine) && KeyOf(c, a3.0) == Some(theirs)
  {
    var full := KeyFileBytes(c, theirs);
    assert |full| == 64 && |KeyFileBytes(c, mine)| == 64;
    assert [] + full[0..64] == full;
    KeyFileVerifiesExactlyWhenComplete(c, theirs, full);
    KeyFileVerifiesExactlyWhenComplete(c, mine, []);
  }

  // ---- what the operations mean -----------------------------------------------------------------------------------

  /** `op` may change or remove the API key `name`; only a deletion may remove a token. */
  predicate OverwritesKey(op: Op, name: string) {
    (op.Save? || op.Delete?) && op.name == name
  }

  predicate OverwritesToken(op: Op, name: string) {
    op.Delete? && op.name == name
  }

  /** Every entry of `s` that none of the commits overwrites is in `t` with its value. */
  ghost predicate KeepsEntries(s: Store, commits: seq<Commit>, t: Store) {
    && (forall name <- s.apiKeys :: (exists e <- commits :: OverwritesKey(e.op, name))
          || (name in t.apiKeys && t.apiKeys[name] == s.apiKeys[name]))
    && (forall name <- s.tokens :: (exists e <- commits :: OverwritesToken(e.op, name))
          || (name in t.tokens && t.tokens[name] == s.tokens[name]))
  }

  lemma KeepsEntriesNext(s: Store, commits: seq<Commit>, t: Store, e: Commit)
    requires KeepsEntries(s, commits, t)
    ensures KeepsEntries(s, commits + [e], Apply(e.op, t))
  {
    var all := commits + [e];
    assert e in all && forall x <- commits :: x in all;
    forall name | name in s.apiKeys && !(exists x <- all :: OverwritesKey(x.op, name))
      ensures name in Apply(e.op, t).apiKeys && Apply(e.op, t).apiKeys[name] == s.apiKeys[name]
    {
      assert !OverwritesKey(e.op, name);
    }
    forall name | name in s.tokens && !(exists x <- all :: OverwritesToken(x.op, name))
      ensures name in Apply(e.op, t).tokens && Apply(e.op, t).tokens[name] == s.tokens[name]
    {
      assert !OverwritesToken(e.op, name);
    }
  }

  lemma {:induction false} ReplayKeepsEntries(base: Store, log: seq<Commit>, k: nat)
    requires k <= |log|
    ensures KeepsEntries(Replay(base, log[..k]), log[k..], Replay(base, log))
  {
    if k == |log| {
      assert log[..k] == log;
    } else {
      var n := |log| - 1;
      assert log[..n][..k] == log[..k] && log[..n][k..] + [log[n]] == log[k..];
      ReplayKeepsEntries(base, log[..n], k);
      KeepsEntriesNext(Replay(base, log[..k]), log[..n][k..], Replay(base, log[..n]), log[n]);
    }
  }

  /**
   A secret on disk keeps its value until it is overwritten by name: as long as no save or
   deletion of that name commits (for a token: no deletion), a later load finds the same value,
   whatever is auto-saved (even under that name), migrated, saved or deleted under other names,
   fails or crashes in between.
   */
  lemma SecretSurvives(c: Crypto, s: State, before: seq<Event>, after: seq<Event>)
    requires c.Sound() && Init(c, s)
    ensures var t, u := Run(c, s, before), Run(c, s, before + after);
      && View(c, t.fs).Some? && View(c, u.fs).Some? && t.log <= u.log
      && KeepsEntries(View(c, t.fs).value, u.log[|t.log|..], View(c, u.fs).value)
  {
    var t, u := Run(c, s, before), Run(c, s, before + after);
    RunIsStable(c, s, before, after);
    RunKeepsInv(c, s, before);
    RunKeepsInv(c, s, before + after);
    ReplayKeepsEntries(View(c, s.fs).value, u.log, |t.log|);
    assert u.log[..|t.log|] == t.log;
  }
}
