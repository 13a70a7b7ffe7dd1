/**
 The multi-process secrets store: writers serialised by an advisory lock, publication by
 temp file and rename, a lazily created master key (`O_EXCL`), readers that take no lock,
 I/O errors and crashes at any point.

 One `Event` is one system call (or one partial read or write) of one process, so a
 sequence of events is an arbitrary interleaving. An event that is not possible in a state
 leaves the state alone.
 */
module SecretsProtocol {
  import opened Bytes
  import opened Options
  import opened SecretsFormat

  type Ino = nat
  type Pid = nat
  type ActorId = nat

  // ---- the sequential meaning of the operations -------------------------------------------------------------------

  datatype Op =
    | Save(name: string, secret: string)
    | Delete(name: string)
    | AutoSave(name: string, secret: string)
    | Migrate

  predicate Holds(s: Store, name: string) {
    name in s.apiKeys || name in s.tokens
  }

  function Apply(op: Op, s: Store): Store {
    match op
    case Save(name, secret) => s.(apiKeys := s.apiKeys[name := secret])
    case Delete(name) => Store(s.apiKeys - {name}, s.tokens - {name})
    case AutoSave(name, secret) =>
      if Holds(s, name) then s else s.(apiKeys := s.apiKeys[name := secret])
    case Migrate => s
  }

  /** What the operation reports: whether a deletion found its name; `true` otherwise. */
  predicate Reports(op: Op, s: Store) {
    op.Delete? ==> Holds(s, op.name)
  }

  datatype Commit = Commit(actor: ActorId, op: Op, result: bool)

  function Replay(base: Store, log: seq<Commit>): Store {
    if log == [] then base
    else Apply(log[|log| - 1].op, Replay(base, log[..|log| - 1]))
  }

  // ---- files, processes, states -----------------------------------------------------------------------------------

  /** Directory entries point to inodes; an inode outlives the entry that named it. */
  datatype Fs = Fs(
    data: map<Ino, seq<Byte>>,
    store: Option<Ino>,
    key: Option<Ino>,
    temp: map<Pid, Ino>)

  function Contents(fs: Fs, entry: Option<Ino>): Option<seq<Byte>> {
    if entry.Some? && entry.value in fs.data then Some(fs.data[entry.value]) else None
  }

  function StoreBytes(fs: Fs): Option<seq<Byte>> {
    Contents(fs, fs.store)
  }

  /** `load_verified` on the current key file; `None` covers missing and corrupted. */
  function KeyOf(c: Crypto, fs: Fs): Option<Key> {
    match Contents(fs, fs.key)
    case None => None
    case Some(bytes) => ParseVerified(c, bytes)
  }

  /** What a complete, undisturbed load would return. */
  function View(c: Crypto, fs: Fs): Option<Store> {
    Decode(c, StoreBytes(fs), KeyOf(c, fs))
  }

  datatype LoadPc =
    | Opening
    | Reading(ino: Ino, got: seq<Byte>)
    | Fetched(bytes: Option<seq<Byte>>)

  datatype KeyPc =
    | LoadKey
    | InvalidKey
    | RemoveKey
    | CreateKey
    | WriteKey(key: Key, ino: Ino)
    | ReloadKey(attempt: nat)

  datatype PublishPc =
    | Seal
    | OpenTemp(nonce: Nonce)
    | WriteTemp(nonce: Nonce, ino: Ino)
    | Rename(nonce: Nonce)

  /** `next` is the store the operation is about to publish; `at` its position in the log. */
  datatype Pc =
    | Start
    | WaitLock
    | Loading(load: LoadPc)
    | Keying(next: Store, keyStep: KeyPc)
    | Publishing(next: Store, key: Key, publish: PublishPc)
    | Unlinking
    | Release(result: bool, at: nat)
    | Done(result: bool, at: nat)
    | Stopped

  predicate HoldsLock(pc: Pc) {
    !pc.Start? && !pc.WaitLock? && !pc.Done? && !pc.Stopped?
  }

  datatype Proc = Proc(op: Op, pid: Pid, pc: Pc)

  datatype ReaderPc =
    | ReadStart
    | ReadChunks(ino: Ino, got: seq<Byte>)
    | ReadAll(bytes: Option<seq<Byte>>)
    | ReadDone(result: Option<Store>)

  /** `since` and `seenAt` are the log lengths when the read began and when it opened the store. */
  datatype Reader = Reader(since: nat, seenAt: nat, pc: ReaderPc)

  datatype State = State(
    fs: Fs,
    lock: Option<ActorId>,
    procs: map<ActorId, Proc>,
    readers: map<ActorId, Reader>,
    log: seq<Commit>,
    published: set<Ino>)

  /** What the environment picks for a step. */
  datatype Choice = Choice(chunk: nat, ino: Ino, key: Key, nonce: Nonce)

  datatype Event =
    | Spawn(actor: ActorId, op: Op, pid: Pid)
    | SpawnReader(actor: ActorId)
    | Advance(actor: ActorId, choice: Choice)
    | AdvanceReader(actor: ActorId, chunk: nat)
    | IoError(actor: ActorId, cleanup: bool)
    | Crash(actor: ActorId)

  const CREATE_RACE_RELOAD_ATTEMPTS := 8

  // ---- steps ------------------------------------------------------------------------------------------------------

  function Goto(s: State, a: ActorId, pc: Pc): State
    requires a in s.procs
  {
    s.(procs := s.procs[a := s.procs[a].(pc := pc)])
  }

  /** An error return or a crash: the guard is dropped, so the kernel frees the lock. */
  function Stop(s: State, a: ActorId): State
    requires a in s.procs
  {
    Goto(s, a, Stopped).(lock := if s.lock == Some(a) then None else s.lock)
  }

  /** Commit at the current end of the log; the position is remembered for the proof only. */
  function Committed(s: State, a: ActorId, result: bool): State
    requires a in s.procs
  {
    var pc := if HoldsLock(s.procs[a].pc) then Release(result, |s.log|) else Done(result, |s.log|);
    Goto(s, a, pc).(log := s.log + [Commit(a, s.procs[a].op, result)])
  }

  datatype Decision = Finish(result: bool) | RemoveFile | Publish(next: Store)

  /** What one read-modify-write cycle does with the store it loaded under the lock. */
  function Decide(op: Op, loaded: Store): Decision {
    match op
    case Save(name, secret) => Publish(loaded.(apiKeys := loaded.apiKeys[name := secret]))
    case AutoSave(name, secret) =>
      if name in loaded.apiKeys || name in loaded.tokens then Finish(true)
      else Publish(loaded.(apiKeys := loaded.apiKeys[name := secret]))
    case Delete(name) =>
      if name !in loaded.apiKeys && name !in loaded.tokens then Finish(false)
      else
        var left := Store(loaded.apiKeys - {name}, loaded.tokens - {name});
        if left.apiKeys == map[] && left.tokens == map[] then RemoveFile else Publish(left)
    case Migrate => Publish(loaded)
  }

  /** The store file has been read completely: decode it and decide. */
  function Fetch(c: Crypto, s: State, a: ActorId, bytes: Option<seq<Byte>>): State
    requires a in s.procs
  {
    if s.procs[a].op.Migrate? && bytes.None? then Stop(s, a)
    else if s.procs[a].op.Migrate? && !IsLegacyV1(bytes.value) then Committed(s, a, true)
    else
      match Decode(c, bytes, KeyOf(c, s.fs))
      case None => Stop(s, a)
      case Some(loaded) =>
        match Decide(s.procs[a].op, loaded)
        case Finish(result) => Committed(s, a, result)
        case RemoveFile => Goto(s, a, Unlinking)
        case Publish(next) => Goto(s, a, Keying(next, LoadKey))
  }

  /** One system call of writer `a`, at its program counter. */
  function AdvanceWriter(c: Crypto, s: State, a: ActorId, ch: Choice): State
    requires a in s.procs
  {
    var p := s.procs[a];
    match p.pc
    case Start =>
      if p.op.Delete? && StoreBytes(s.fs).None? then Committed(s, a, false)
      else if p.op.Migrate? && (StoreBytes(s.fs).None? || !IsLegacyV1(StoreBytes(s.fs).value)) then
        Committed(s, a, true)
      else Goto(s, a, WaitLock)
    case WaitLock => if s.lock.None? then Goto(s, a, Loading(Opening)).(lock := Some(a)) else s
    case Loading(Fetched(bytes)) => Fetch(c, s, a, bytes)
    case Loading(load) => Goto(s, a, Loading(LoadStep(s.fs, load, ch)))
    case Keying(next, step) =>
      var (fs, outcome) := KeyStep(c, s.fs, step, ch);
      (match outcome
       case KeyMoves(to) => Goto(s, a, Keying(next, to)).(fs := fs)
       case KeyReady(key) => Goto(s, a, Publishing(next, key, Seal)).(fs := fs)
       case KeyFails => Stop(s, a))
    case Publishing(next, key, step) =>
      var (fs, outcome) := PublishStep(c, s.fs, p.pid, next, key, step, ch);
      (match outcome
       case PublishMoves(to) => Goto(s, a, Publishing(next, key, to)).(fs := fs)
       case Renamed(ino) => Committed(s, a, true).(fs := fs, published := s.published + {ino})
       case PublishFails => Stop(s, a))
    case Unlinking =>
      if s.fs.store.None? then Stop(s, a) else Committed(s, a, true).(fs := s.fs.(store := None))
    case Release(result, at) => Goto(s, a, Done(result, at)).(lock := None)
    case Done(_, _) => s
    case Stopped => s
  }

  /** Opening and reading the store file under the lock. */
  function LoadStep(fs: Fs, load: LoadPc, ch: Choice): LoadPc {
    match load
    case Opening => if fs.store.None? then Fetched(None) else Reading(fs.store.value, [])
    case Reading(ino, got) =>
      (match ReadMore(fs, ino, got, ch.chunk)
       case Blocked => load
       case More(more) => Reading(ino, more)
       case Eof => Fetched(Some(got)))
    case Fetched(_) => load
  }

  datatype KeyOutcome = KeyMoves(to: KeyPc) | KeyReady(key: Key) | KeyFails

  /** `load_or_create` of the master key. */
  function KeyStep(c: Crypto, fs: Fs, step: KeyPc, ch: Choice): (Fs, KeyOutcome) {
    match step
    case LoadKey =>
      if Contents(fs, fs.key).None? then (fs, KeyMoves(CreateKey))
      else (fs, if KeyOf(c, fs).Some? then KeyReady(KeyOf(c, fs).value) else KeyMoves(InvalidKey))
    case InvalidKey =>
      (fs, if Contents(fs, fs.key) == Some([]) then KeyMoves(RemoveKey) else KeyFails)
    case RemoveKey => (fs.(key := None), KeyMoves(CreateKey))
    case CreateKey =>
      if fs.key.Some? then (fs, KeyMoves(ReloadKey(0)))
      else if ch.ino in fs.data then (fs, KeyMoves(step))
      else (fs.(data := fs.data[ch.ino := []], key := Some(ch.ino)), KeyMoves(WriteKey(ch.key, ch.ino)))
    case WriteKey(key, ino) =>
      (match WriteMore(fs, ino, KeyFileBytes(c, key), ch.chunk)
       case Blocked => (fs, KeyMoves(step))
       case More(written) => (fs.(data := fs.data[ino := written]), KeyMoves(step))
       case Eof => (fs, KeyReady(key)))
    case ReloadKey(attempt) =>
      if KeyOf(c, fs).Some? then (fs, KeyReady(KeyOf(c, fs).value))
      else if attempt < CREATE_RACE_RELOAD_ATTEMPTS then (fs, KeyMoves(ReloadKey(attempt + 1)))
      else (fs, KeyFails)
  }

  datatype PublishOutcome = PublishMoves(to: PublishPc) | Renamed(ino: Ino) | PublishFails

  /** `save_encrypted_store` once the key is known: seal, write the temp file, rename. */
  function PublishStep(c: Crypto, fs: Fs, pid: Pid, next: Store, key: Key, step: PublishPc, ch: Choice)
    : (Fs, PublishOutcome)
  {
    match step
    case Seal => (fs, PublishMoves(OpenTemp(ch.nonce)))
    case OpenTemp(nonce) =>
      if pid in fs.temp then
        (fs.(data := fs.data[fs.temp[pid] := []]), PublishMoves(WriteTemp(nonce, fs.temp[pid])))
      else if ch.ino in fs.data then (fs, PublishMoves(step))
      else (fs.(data := fs.data[ch.ino := []], temp := fs.temp[pid := ch.ino]),
            PublishMoves(WriteTemp(nonce, ch.ino)))
    case WriteTemp(nonce, ino) =>
      (match WriteMore(fs, ino, EncodeV2(c, key, nonce, next), ch.chunk)
       case Blocked => (fs, PublishMoves(step))
       case More(written) => (fs.(data := fs.data[ino := written]), PublishMoves(step))
       case Eof => (fs, PublishMoves(Rename(nonce))))
    case Rename(nonce) =>
      if pid !in fs.temp then (fs, PublishFails)
      else (fs.(store := Some(fs.temp[pid]), temp := fs.temp - {pid}), Renamed(fs.temp[pid]))
  }

  datatype Transfer = Blocked | More(bytes: seq<Byte>) | Eof

  /** One `read` on an open file: some more bytes, or end of file. */
  function ReadMore(fs: Fs, ino: Ino, got: seq<Byte>, chunk: nat): Transfer {
    if ino !in fs.data then Blocked
    else if |got| >= |fs.data[ino]| then Eof
    else if |got| < chunk <= |fs.data[ino]| then More(got + fs.data[ino][|got|..chunk])
    else Blocked
  }

  /** One `write` appending part of what is left of `full`; `Eof` once nothing is left. */
  function WriteMore(fs: Fs, ino: Ino, full: seq<Byte>, chunk: nat): Transfer {
    if ino !in fs.data then Blocked
    else if |fs.data[ino]| >= |full| then Eof
    else if |fs.data[ino]| < chunk <= |full| then More(fs.data[ino] + full[|fs.data[ino]|..chunk])
    else Blocked
  }

  function AdvanceReading(c: Crypto, s: State, r: ActorId, chunk: nat): State
    requires r in s.readers
  {
    var reader := s.readers[r];
    var next :=
      match reader.pc
      case ReadStart =>
        reader.(seenAt := |s.log|,
                pc := if s.fs.store.None? then ReadAll(None) else ReadChunks(s.fs.store.value, []))
      case ReadChunks(ino, got) =>
        (match ReadMore(s.fs, ino, got, chunk)
         case Blocked => reader
         case More(more) => reader.(pc := ReadChunks(ino, more))
         case Eof => reader.(pc := ReadAll(Some(got))))
      case ReadAll(bytes) => reader.(pc := ReadDone(Decode(c, bytes, KeyOf(c, s.fs))))
      case ReadDone(_) => reader;
    s.(readers := s.readers[r := next])
  }

  function Next(c: Crypto, s: State, e: Event): State {
    match e
    case Spawn(a, op, pid) =>
      if a in s.procs then s else s.(procs := s.procs[a := Proc(op, pid, Start)])
    case SpawnReader(r) =>
      if r in s.readers then s else s.(readers := s.readers[r := Reader(|s.log|, |s.log|, ReadStart)])
    case Advance(a, choice) => if a in s.procs then AdvanceWriter(c, s, a, choice) else s
    case AdvanceReader(r, chunk) => if r in s.readers then AdvanceReading(c, s, r, chunk) else s
    case IoError(a, cleanup) =>
      if a !in s.procs || s.procs[a].pc.Release? || s.procs[a].pc.Done? || s.procs[a].pc.Stopped? then s
      else
        var pid, pc := s.procs[a].pid, s.procs[a].pc;
        var tidy := cleanup && pc.Publishing? && (pc.publish.WriteTemp? || pc.publish.Rename?);
        Stop(s, a).(fs := if tidy then s.fs.(temp := s.fs.temp - {pid}) else s.fs)
    case Crash(a) =>
      if a !in s.procs || s.procs[a].pc.Done? then s else Stop(s, a)
  }

  function Run(c: Crypto, s: State, events: seq<Event>): State {
    if events == [] then s else Next(c, Run(c, s, events[..|events| - 1]), events[|events| - 1])
  }

  /** No process yet; a store that can be read (or none); any key file; any stale temp files. */
  ghost predicate Init(c: Crypto, s: State) {
    && s.lock.None? && s.procs == map[] && s.readers == map[] && s.log == []
    && s.published == (if s.fs.store.Some? then {s.fs.store.value} else {})
    && WellFormedFs(s.fs, s.published)
    && View(c, s.fs).Some?
  }

  // ---- the invariant ----------------------------------------------------------------------------------------------

  /** Entries name existing files, and nothing still writable was ever published. */
  ghost predicate WellFormedFs(fs: Fs, published: set<Ino>) {
    && published <= fs.data.Keys
    && (fs.store.Some? ==> fs.store.value in published)
    && (fs.key.Some? ==> fs.key.value in fs.data && fs.key.value !in published)
    && (forall p :: p in fs.temp ==>
          fs.temp[p] in fs.data && fs.temp[p] !in published && fs.key != Some(fs.temp[p]))
    && (forall p, q :: p in fs.temp && q in fs.temp && p != q ==> fs.temp[p] != fs.temp[q])
  }

  ghost predicate LockDiscipline(lock: Option<ActorId>, procs: map<ActorId, Proc>) {
    && (lock.Some? ==> lock.value in procs)
    && (forall a :: a in procs ==> (HoldsLock(procs[a].pc) <==> lock == Some(a)))
  }

  ghost predicate Pending(op: Op, next: Store, cur: Store) {
    next == Apply(op, cur) && Reports(op, cur)
  }

  ghost predicate LoadKnows(fs: Fs, load: LoadPc) {
    match load
    case Opening => true
    case Reading(ino, got) => fs.store == Some(ino) && ino in fs.data && got <= fs.data[ino]
    case Fetched(bytes) => bytes == StoreBytes(fs)
  }

  ghost predicate KeyKnows(c: Crypto, fs: Fs, step: KeyPc) {
    match step
    case RemoveKey => Contents(fs, fs.key) == Some([])
    case CreateKey => fs.key.None?
    case WriteKey(key, ino) => fs.key == Some(ino) && ino in fs.data && fs.data[ino] <= KeyFileBytes(c, key)
    case ReloadKey(_) => false
    case _ => true
  }

  ghost predicate PublishKnows(c: Crypto, fs: Fs, pid: Pid, next: Store, key: Key, step: PublishPc) {
    && KeyOf(c, fs) == Some(key)
    && match step
       case Seal => true
       case OpenTemp(_) => true
       case WriteTemp(nonce, ino) =>
         && pid in fs.temp && fs.temp[pid] == ino && ino in fs.data
         && fs.data[ino] <= EncodeV2(c, key, nonce, next)
       case Rename(nonce) =>
         && pid in fs.temp && fs.temp[pid] in fs.data
         && fs.data[fs.temp[pid]] == EncodeV2(c, key, nonce, next)
  }

  /** What the lock holder knows at its program counter, `cur` being the committed store. */
  ghost predicate Knows(c: Crypto, fs: Fs, cur: Store, p: Proc) {
    match p.pc
    case Loading(load) => LoadKnows(fs, load)
    case Keying(next, step) => Pending(p.op, next, cur) && KeyKnows(c, fs, step)
    case Publishing(next, key, step) => Pending(p.op, next, cur) && PublishKnows(c, fs, p.pid, next, key, step)
    case Unlinking => Pending(p.op, EMPTY_STORE, cur)
    case _ => true
  }

  /** `a` is in the log exactly when it is past its commit point, with the result it returns. */
  ghost predicate Accounted(log: seq<Commit>, a: ActorId, p: Proc) {
    if p.pc.Release? || p.pc.Done? then p.pc.at < |log| && log[p.pc.at] == Commit(a, p.op, p.pc.result)
    else p.pc.Stopped? || Absent(log, a)
  }

  ghost predicate Absent(log: seq<Commit>, a: ActorId) {
    forall i :: 0 <= i < |log| ==> log[i].actor != a
  }

  ghost predicate AllAccounted(log: seq<Commit>, procs: map<ActorId, Proc>) {
    && (forall a :: a in procs ==> Accounted(log, a, procs[a]))
    && (forall i :: 0 <= i < |log| ==> log[i].actor in procs)
  }

  /** The log is a sequential history of distinct operations, each with its sequential result. */
  ghost predicate SequentialLog(base: Store, log: seq<Commit>) {
    && (forall i, j :: 0 <= i < j < |log| ==> log[i].actor != log[j].actor)
    && (forall i :: 0 <= i < |log| ==> log[i].result == Reports(log[i].op, Replay(base, log[..i])))
  }

  /** Every file that was ever the store still opens with the current key. */
  ghost predicate AllReadable(c: Crypto, fs: Fs, published: set<Ino>) {
    forall ino :: ino in published ==> ino in fs.data && Decode(c, Some(fs.data[ino]), KeyOf(c, fs)).Some?
  }

  /** A lock-free reader is heading for, or has returned, the store as of commit `seenAt`. */
  ghost predicate ReaderSees(c: Crypto, base: Store, fs: Fs, log: seq<Commit>, published: set<Ino>, r: Reader) {
    && r.since <= r.seenAt <= |log|
    && var seen := Replay(base, log[..r.seenAt]);
       match r.pc
       case ReadStart => true
       case ReadChunks(ino, got) =>
         && ino in published && ino in fs.data && got <= fs.data[ino]
         && Decode(c, Some(fs.data[ino]), KeyOf(c, fs)) == Some(seen)
       case ReadAll(bytes) => Decode(c, bytes, KeyOf(c, fs)) == Some(seen)
       case ReadDone(result) => result == Some(seen)
  }

  ghost predicate AllReadersSee(c: Crypto, base: Store, s: State) {
    forall r :: r in s.readers ==> ReaderSees(c, base, s.fs, s.log, s.published, s.readers[r])
  }

  ghost predicate Inv(c: Crypto, base: Store, s: State) {
    && WellFormedFs(s.fs, s.published)
    && LockDiscipline(s.lock, s.procs)
    && AllAccounted(s.log, s.procs)
    && (s.lock.Some? ==> Knows(c, s.fs, Replay(base, s.log), s.procs[s.lock.value]))
    && SequentialLog(base, s.log)
    && AllReadable(c, s.fs, s.published)
    && View(c, s.fs) == Some(Replay(base, s.log))
    && AllReadersSee(c, base, s)
  }
}
