/**
 What the secrets store holds, name by name, read off the commits of a run; what a deletion reports; and what a
 migration achieves.
 */
module SecretsMeaning {
  import opened Bytes
  import opened Options
  import opened SecretsFormat
  import opened SecretsProtocol
  import opened SecretsProofs

  // ---- reading the log --------------------------------------------------------------------------------------------

  /** The commit gives `name` an API key, if it may. */
  predicate Writes(e: Commit, name: string) { (e.op.Save? || e.op.AutoSave?) && e.op.name == name }

  predicate Deletes(e: Commit, name: string) { e.op.Delete? && e.op.name == name }

  /** Nothing is stored under `name`: it was never there, or its last deletion was not followed by a write. */
  ghost predicate Vacant(base: Store, log: seq<Commit>, name: string) {
    || (name !in base.apiKeys && name !in base.tokens && forall i :: 0 <= i < |log| ==> !Writes(log[i], name))
    || (exists d :: 0 <= d < |log| && Deletes(log[d], name) && forall i :: d < i < |log| ==> !Writes(log[i], name))
  }

  /** Commit `k` stored `v` under `name`, by a save or by an auto-save that found nothing, and it was not replaced since. */
  ghost predicate Stored(base: Store, log: seq<Commit>, k: nat, name: string, v: string) {
    && k < |log|
    && (log[k].op == Save(name, v) || (log[k].op == AutoSave(name, v) && Vacant(base, log[..k], name)))
    && forall i :: k < i < |log| ==> !Deletes(log[i], name) && !(log[i].op.Save? && log[i].op.name == name)
  }

  /** The entry of the start, never saved over or deleted. */
  ghost predicate Inherited(base: Store, log: seq<Commit>, name: string, v: string) {
    && name in base.apiKeys && base.apiKeys[name] == v
    && forall i :: 0 <= i < |log| ==> !Deletes(log[i], name) && !(log[i].op.Save? && log[i].op.name == name)
  }

  ghost predicate HoldsKey(base: Store, log: seq<Commit>, name: string, v: string) {
    Inherited(base, log, name, v) || exists k: nat :: Stored(base, log, k, name, v)
  }

  /** Tokens are never written, so a token is the one of the start until a deletion. */
  ghost predicate HoldsToken(base: Store, log: seq<Commit>, name: string, v: string) {
    && name in base.tokens && base.tokens[name] == v
    && forall i :: 0 <= i < |log| ==> !Deletes(log[i], name)
  }

  // ---- one commit more --------------------------------------------------------------------------------------------

  lemma VacantNext(base: Store, log: seq<Commit>, e: Commit, name: string)
    ensures Vacant(base, log + [e], name) <==> Deletes(e, name) || (!Writes(e, name) && Vacant(base, log, name))
  {
    var all := log + [e];
    assert all[|log|] == e && forall i :: 0 <= i < |log| ==> all[i] == log[i];
    if Deletes(e, name) {
      assert Deletes(all[|log|], name);
    } else if d :| 0 <= d < |log| && Deletes(log[d], name) && forall i :: d < i < |log| ==> !Writes(log[i], name) {
      assert Deletes(all[d], name);
    }
  }

  lemma InheritedNext(base: Store, log: seq<Commit>, e: Commit, name: string, v: string)
    ensures Inherited(base, log + [e], name, v) <==>
      Inherited(base, log, name, v) && !Deletes(e, name) && !(e.op.Save? && e.op.name == name)
  {
    var all := log + [e];
    assert all[|log|] == e && forall i :: 0 <= i < |log| ==> all[i] == log[i];
  }

  lemma StoredNext(base: Store, log: seq<Commit>, e: Commit, k: nat, name: string, v: string)
    ensures Stored(base, log + [e], k, name, v) <==>
      if k == |log| then e.op == Save(name, v) || (e.op == AutoSave(name, v) && Vacant(base, log, name))
      else Stored(base, log, k, name, v) && !Deletes(e, name) && !(e.op.Save? && e.op.name == name)
  {
    var all := log + [e];
    assert all[|log|] == e && forall i :: 0 <= i < |log| ==> all[i] == log[i];
    assert all[..|log|] == log;
    if k < |log| {
      assert all[..k] == log[..k];
    }
  }

  lemma HoldsKeyNext(base: Store, log: seq<Commit>, e: Commit, name: string, v: string)
    ensures HoldsKey(base, log + [e], name, v) <==>
      || e.op == Save(name, v) || (e.op == AutoSave(name, v) && Vacant(base, log, name))
      || (HoldsKey(base, log, name, v) && !Deletes(e, name) && !(e.op.Save? && e.op.name == name))
  {
    InheritedNext(base, log, e, name, v);
    forall k: nat
      ensures Stored(base, log + [e], k, name, v) <==>
        if k == |log| then e.op == Save(name, v) || (e.op == AutoSave(name, v) && Vacant(base, log, name))
        else Stored(base, log, k, name, v) && !Deletes(e, name) && !(e.op.Save? && e.op.name == name)
    {
      StoredNext(base, log, e, k, name, v);
    }
    if e.op == Save(name, v) || (e.op == AutoSave(name, v) && Vacant(base, log, name)) {
      assert Stored(base, log + [e], |log|, name, v);
    } else if k: nat :| Stored(base, log, k, name, v) {
      assert k < |log|;
      assert Stored(base, log + [e], k, name, v) || Deletes(e, name) || (e.op.Save? && e.op.name == name);
    }
  }

  lemma HoldsTokenNext(base: Store, log: seq<Commit>, e: Commit, name: string, v: string)
    ensures HoldsToken(base, log + [e], name, v) <==> HoldsToken(base, log, name, v) && !Deletes(e, name)
  {
    var all := log + [e];
    assert all[|log|] == e && forall i :: 0 <= i < |log| ==> all[i] == log[i];
  }

  /** `store` holds exactly what the log says. */
  ghost predicate Reads(base: Store, log: seq<Commit>, store: Store, name: string) {
    && (forall v :: name in store.apiKeys && store.apiKeys[name] == v <==> HoldsKey(base, log, name, v))
    && (forall v :: name in store.tokens && store.tokens[name] == v <==> HoldsToken(base, log, name, v))
    && (name !in store.apiKeys && name !in store.tokens <==> Vacant(base, log, name))
  }

  lemma ReadsNext(base: Store, log: seq<Commit>, store: Store, e: Commit, name: string)
    requires Reads(base, log, store, name)
    ensures Reads(base, log + [e], Apply(e.op, store), name)
  {
    var store' := Apply(e.op, store);
    VacantNext(base, log, e, name);
    forall v
      ensures name in store'.apiKeys && store'.apiKeys[name] == v <==> HoldsKey(base, log + [e], name, v)
      ensures name in store'.tokens && store'.tokens[name] == v <==> HoldsToken(base, log + [e], name, v)
    {
      HoldsKeyNext(base, log, e, name, v);
      HoldsTokenNext(base, log, e, name, v);
    }
  }

  lemma {:induction false} ReplayReads(base: Store, log: seq<Commit>, name: string)
    ensures Reads(base, log, Replay(base, log), name)
  {
    if log == [] {
      forall v ensures HoldsKey(base, [], name, v) <==> Inherited(base, [], name, v) {
        assert forall k: nat :: !Stored(base, [], k, name, v);
      }
    } else {
      var n := |log| - 1;
      ReplayReads(base, log[..n], name);
      ReadsNext(base, log[..n], Replay(base, log[..n]), log[n], name);
      assert log[..n] + [log[n]] == log;
    }
  }

  // ---- over every run ---------------------------------------------------------------------------------------------

  /**
   After every run, what the store on disk holds for a name is read off the commits. An API key has the value of the
   last save of its name, or of an auto-save that found nothing, unless it was deleted since; without such a commit it
   is the one of the start. A token is the one of the start until a deletion. A name is in neither map exactly if it
   never was or its last deletion was not followed by a write.
   */
  lemma StoreByName(c: Crypto, s: State, events: seq<Event>, name: string)
    requires c.Sound() && Init(c, s)
    ensures var base, t := View(c, s.fs).value, Run(c, s, events);
      && View(c, t.fs).Some?
      && var store := View(c, t.fs).value;
         && (forall v :: name in store.apiKeys && store.apiKeys[name] == v <==> HoldsKey(base, t.log, name, v))
         && (forall v :: name in store.tokens && store.tokens[name] == v <==> HoldsToken(base, t.log, name, v))
         && (name !in store.apiKeys && name !in store.tokens <==> Vacant(base, t.log, name))
  {
    RunKeepsInv(c, s, events);
    ReplayReads(View(c, s.fs).value, Run(c, s, events).log, name);
  }

  /** A save that committed, with no save or deletion of its name since, is what a load finds. */
  lemma SavedIsFound(c: Crypto, s: State, events: seq<Event>, k: nat, name: string, v: string)
    requires c.Sound() && Init(c, s)
    requires var log := Run(c, s, events).log;
      && k < |log| && log[k].op == Save(name, v)
      && forall i :: k < i < |log| ==> log[i].op != Delete(name) && !(log[i].op.Save? && log[i].op.name == name)
    ensures var store := View(c, Run(c, s, events).fs);
      store.Some? && name in store.value.apiKeys && store.value.apiKeys[name] == v
  {
    StoreByName(c, s, events, name);
    var base, log := View(c, s.fs).value, Run(c, s, events).log;
    StoredIsHeld(base, log, k, name, v);
    assert HoldsKey(base, log, name, v);
  }

  lemma StoredIsHeld(base: Store, log: seq<Commit>, k: nat, name: string, v: string)
    requires k < |log| && log[k].op == Save(name, v)
    requires forall i :: k < i < |log| ==> log[i].op != Delete(name) && !(log[i].op.Save? && log[i].op.name == name)
    ensures HoldsKey(base, log, name, v)
  {
    assert Stored(base, log, k, name, v);
  }

  /** A deletion that committed, with no write of its name since, leaves nothing under the name. */
  lemma DeletedIsGone(c: Crypto, s: State, events: seq<Event>, k: nat, name: string)
    requires c.Sound() && Init(c, s)
    requires var log := Run(c, s, events).log;
      && k < |log| && log[k].op == Delete(name)
      && forall i :: k < i < |log| ==> !((log[i].op.Save? || log[i].op.AutoSave?) && log[i].op.name == name)
    ensures var store := View(c, Run(c, s, events).fs);
      store.Some? && name !in store.value.apiKeys && name !in store.value.tokens
  {
    StoreByName(c, s, events, name);
    var log := Run(c, s, events).log;
    assert Deletes(log[k], name) && forall i :: k < i < |log| ==> !Writes(log[i], name);
  }

  /** A deletion reports whether there was something to delete; every other operation reports success. */
  lemma DeleteReportsPresence(c: Crypto, s: State, events: seq<Event>, k: nat)
    requires c.Sound() && Init(c, s) && k < |Run(c, s, events).log|
    ensures var base, e := View(c, s.fs).value, Run(c, s, events).log[k];
      e.result <==> !(e.op.Delete? && Vacant(base, Run(c, s, events).log[..k], e.op.name))
  {
    RunKeepsInv(c, s, events);
    var base, log := View(c, s.fs).value, Run(c, s, events).log;
    if log[k].op.Delete? {
      ReplayReads(base, log[..k], log[k].op.name);
    }
  }

  /** The file goes exactly if a deletion takes the only name there is, in whichever map; every other change is published. */
  lemma FileIsRemovedIff(op: Op, cur: Store)
    ensures Decide(op, cur) == RemoveFile <==>
      && op.Delete? && (op.name in cur.apiKeys || op.name in cur.tokens)
      && (forall name :: name in cur.apiKeys || name in cur.tokens ==> name == op.name)
  {
    if op.Delete? {
      MinusIsEmptyIff(cur.apiKeys, op.name);
      MinusIsEmptyIff(cur.tokens, op.name);
    }
  }

  lemma MinusIsEmptyIff(m: map<string, string>, name: string)
    ensures m - {name} == map[] <==> forall x :: x in m ==> x == name
  {
    if x :| x in m && x != name {
      assert x in m - {name};
    }
  }

  // ---- files ------------------------------------------------------------------------------------------------------

  /** A v1 store opens with the built-in v1 key; a missing or empty file is a store without entries. */
  lemma LegacyStoreReads(c: Crypto, nonce: Nonce, store: Store, key: Option<Key>)
    requires c.Sound()
    ensures Decode(c, Some([1] + nonce + c.seal(c.legacyKey, nonce, c.encode(store))), key) == Some(store)
    ensures Decode(c, None, key) == Some(Store(map[], map[])) && Decode(c, Some([]), key) == Some(Store(map[], map[]))
  {
    var sealed := c.seal(c.legacyKey, nonce, c.encode(store));
    var bytes := [1] + nonce + sealed;
    assert bytes[1..13] == nonce && bytes[13..] == sealed;
  }

  /** A v2 store is refused without its key, and with one whose tag it does not carry; so is any other version. */
  lemma WrongKeyIsRefused(c: Crypto, bytes: seq<Byte>, key: Option<Key>)
    requires bytes != []
    ensures bytes[0] == 2 && key.None? ==> Decode(c, Some(bytes), key).None?
    ensures bytes[0] == 2 && key.Some? && |bytes| >= 29 && bytes[1..17] != c.storeTag(key.value) ==> Decode(c, Some(bytes), key).None?
    ensures bytes[0] != 1 && bytes[0] != 2 ==> Decode(c, Some(bytes), key).None?
    ensures |bytes| < 13 || (bytes[0] == 2 && |bytes| < 29) ==> Decode(c, Some(bytes), key).None?
  {
  }

  // ---- migration --------------------------------------------------------------------------------------------------

  /** No store file, or not a v1 one. */
  predicate IsMigrated(fs: Fs) { StoreBytes(fs).None? || StoreBytes(fs).value == [] || StoreBytes(fs).value[0] != 1 }

  ghost predicate HasMigrated(log: seq<Commit>) { exists i :: 0 <= i < |log| && log[i].op.Migrate? }

  /** The store entry stays, goes, or comes to name a v2 file. */
  ghost predicate StoreMoves(fs: Fs, fs': Fs) {
    || fs'.store == fs.store || fs'.store.None?
    || (fs'.store.value in fs'.data && fs'.data[fs'.store.value] != [] && fs'.data[fs'.store.value][0] == 2)
  }

  lemma KeyStepLeavesStore(c: Crypto, fs: Fs, step: KeyPc, ch: Choice)
    ensures KeyStep(c, fs, step, ch).0.store == fs.store
  {
  }

  lemma PublishStepMovesStore(c: Crypto, fs: Fs, pid: Pid, next: Store, key: Key, step: PublishPc, ch: Choice)
    requires PublishKnows(c, fs, pid, next, key, step)
    ensures StoreMoves(fs, PublishStep(c, fs, pid, next, key, step, ch).0)
    ensures PublishStep(c, fs, pid, next, key, step, ch).1.Renamed? ==>
      IsMigrated(PublishStep(c, fs, pid, next, key, step, ch).0)
  {
  }

  lemma PublishingMoves(c: Crypto, cur: Store, s: State, a: ActorId, ch: Choice)
    requires a in s.procs && s.procs[a].pc.Publishing? && Knows(c, s.fs, cur, s.procs[a])
    ensures var s' := AdvanceWriter(c, s, a, ch); StoreMoves(s.fs, s'.fs) && (s'.log != s.log ==> IsMigrated(s'.fs))
  {
    var Publishing(next, key, step) := s.procs[a].pc;
    PublishStepMovesStore(c, s.fs, s.procs[a].pid, next, key, step, ch);
  }

  lemma KeyingMoves(c: Crypto, s: State, a: ActorId, ch: Choice)
    requires a in s.procs && s.procs[a].pc.Keying?
    ensures var s' := AdvanceWriter(c, s, a, ch); StoreMoves(s.fs, s'.fs) && s'.log == s.log
  {
    KeyStepLeavesStore(c, s.fs, s.procs[a].pc.keyStep, ch);
  }

  /** Having read a v1 store under the lock, a migration goes on to publish; having read another, it is done. */
  lemma FetchMoves(c: Crypto, s: State, a: ActorId, bytes: Option<seq<Byte>>)
    requires a in s.procs && bytes == StoreBytes(s.fs)
    ensures var s' := Fetch(c, s, a, bytes);
      s'.fs == s.fs && (s.procs[a].op.Migrate? && s'.log != s.log ==> IsMigrated(s'.fs))
  {
  }

  lemma StartMoves(c: Crypto, s: State, a: ActorId, ch: Choice)
    requires a in s.procs && s.procs[a].pc.Start?
    ensures var s' := AdvanceWriter(c, s, a, ch);
      s'.fs == s.fs && (s.procs[a].op.Migrate? && s'.log != s.log ==> IsMigrated(s'.fs))
  {
  }

  lemma QuietMoves(c: Crypto, s: State, a: ActorId, ch: Choice)
    requires a in s.procs
    requires var pc := s.procs[a].pc;
      pc.WaitLock? || (pc.Loading? && !pc.load.Fetched?) || pc.Release? || pc.Done? || pc.Stopped?
    ensures var s' := AdvanceWriter(c, s, a, ch); s'.fs == s.fs && s'.log == s.log
  {
  }

  lemma UnlinkingMoves(c: Crypto, s: State, a: ActorId, ch: Choice)
    requires a in s.procs && s.procs[a].pc.Unlinking?
    ensures var s' := AdvanceWriter(c, s, a, ch); StoreMoves(s.fs, s'.fs) && (s'.log != s.log ==> IsMigrated(s'.fs))
  {
  }

  /** A migration commits only where there is no v1 store, or by putting a v2 one in place. */
  lemma WriterMoves(c: Crypto, cur: Store, s: State, a: ActorId, ch: Choice)
    requires a in s.procs && (HoldsLock(s.procs[a].pc) ==> Knows(c, s.fs, cur, s.procs[a]))
    ensures var s' := AdvanceWriter(c, s, a, ch);
      StoreMoves(s.fs, s'.fs) && (s.procs[a].op.Migrate? && s'.log != s.log ==> IsMigrated(s'.fs))
  {
    match s.procs[a].pc
    case Start => StartMoves(c, s, a, ch);
    case Loading(Fetched(bytes)) => FetchMoves(c, s, a, bytes);
    case Keying(_, _) => KeyingMoves(c, s, a, ch);
    case Publishing(_, _, _) => PublishingMoves(c, cur, s, a, ch);
    case Unlinking => UnlinkingMoves(c, s, a, ch);
    case _ => QuietMoves(c, s, a, ch);
  }

  lemma MovedStaysMigrated(c: Crypto, s: State, s': State)
    requires WellFormedFs(s.fs, s.published) && Stable(c, s, s') && StoreMoves(s.fs, s'.fs) && IsMigrated(s.fs)
    ensures IsMigrated(s'.fs)
  {
  }

  lemma StepMigrates(c: Crypto, base: Store, s: State, e: Event)
    requires c.Sound() && Inv(c, base, s) && (HasMigrated(s.log) ==> IsMigrated(s.fs))
    ensures HasMigrated(Next(c, s, e).log) ==> IsMigrated(Next(c, s, e).fs)
  {
    var s' := Next(c, s, e);
    NextKeepsInv(c, base, s, e);
    if e.Advance? && e.actor in s.procs {
      WriterMoves(c, Replay(base, s.log), s, e.actor, e.choice);
      if HasMigrated(s.log) {
        MovedStaysMigrated(c, s, s');
      } else if HasMigrated(s'.log) {
        NewCommitIsMigration(c, s, e.actor, e.choice);
      }
    } else {
      assert s'.log == s.log && StoreMoves(s.fs, s'.fs);
      if HasMigrated(s.log) {
        MovedStaysMigrated(c, s, s');
      }
    }
  }

  lemma NewCommitIsMigration(c: Crypto, s: State, a: ActorId, ch: Choice)
    requires a in s.procs && !HasMigrated(s.log) && HasMigrated(AdvanceWriter(c, s, a, ch).log)
    ensures s.procs[a].op.Migrate? && AdvanceWriter(c, s, a, ch).log != s.log
  {
    var log' := AdvanceWriter(c, s, a, ch).log;
    var i :| 0 <= i < |log'| && log'[i].op.Migrate?;
    assert log' == s.log || log' == s.log + [log'[|s.log|]];
  }

  /** Once a migration has committed, the store on disk is never a v1 store again, however the run goes on. */
  lemma {:induction false} MigrationIsForGood(c: Crypto, s: State, events: seq<Event>)
    requires c.Sound() && Init(c, s)
    ensures var t := Run(c, s, events);
      (exists i :: 0 <= i < |t.log| && t.log[i].op.Migrate?) ==>
        StoreBytes(t.fs).None? || StoreBytes(t.fs).value == [] || StoreBytes(t.fs).value[0] != 1
  {
    if events != [] {
      var n := |events| - 1;
      MigrationIsForGood(c, s, events[..n]);
      RunKeepsInv(c, s, events[..n]);
      StepMigrates(c, View(c, s.fs).value, Run(c, s, events[..n]), events[n]);
    }
  }
}
