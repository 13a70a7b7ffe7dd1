/**
 * The two shared resources of a language-server client: the server's input stream, written by
 * concurrent requests and notifications under a mutex, and the table of pending requests, filled by
 * requests and emptied by the reader.
 */
module LspClient {
  import opened Options
  import opened Framing
  import opened Lists

  // ---- concurrent writers -----------------------------------------------------------------------------------------

  /** The frame being written by the holder of the mutex, and how much of it is out. */
  datatype Writing = Writing(task: nat, body: Stream, written: nat)

  datatype Wire = Wire(holder: Option<Writing>, output: Stream, done: seq<Stream>)

  /** Any task may take the free mutex; its frame leaves in pieces of any size; it lets go once all is out. */
  datatype WireEvent = Lock(task: nat, body: Stream) | Push(task: nat, count: nat) | Unlock(task: nat)

  function WireNext(w: Wire, e: WireEvent): Wire {
    match e
    case Lock(task, body) =>
      if w.holder.None? then w.(holder := Some(Writing(task, body, 0))) else w
    case Push(task, count) =>
      if w.holder.Some? && w.holder.value.task == task
         && w.holder.value.written + count <= |Frame(w.holder.value.body)| then
        var h := w.holder.value;
        Wire(Some(h.(written := h.written + count)),
             w.output + Frame(h.body)[h.written..h.written + count], w.done)
      else w
    case Unlock(task) =>
      if w.holder.Some? && w.holder.value.task == task
         && w.holder.value.written == |Frame(w.holder.value.body)| then
        Wire(None, w.output, w.done + [w.holder.value.body])
      else w
  }

  function WireRun(events: seq<WireEvent>): Wire {
    if events == [] then Wire(None, [], []) else WireNext(WireRun(events[..|events| - 1]), events[|events| - 1])
  }

  /** The bytes of the frame in progress. */
  function Partial(holder: Option<Writing>): Stream {
    match holder
    case None => []
    case Some(h) => if h.written <= |Frame(h.body)| then Frame(h.body)[..h.written] else []
  }

  ghost predicate WireInv(w: Wire) {
    && (w.holder.Some? ==> w.holder.value.written <= |Frame(w.holder.value.body)|)
    && w.output == Frames(w.done) + Partial(w.holder)
  }

  lemma {:induction false} FramesAppend(bodies: seq<Stream>, body: Stream)
    ensures Frames(bodies + [body]) == Frames(bodies) + Frame(body)
  {
    if bodies == [] {
      assert Frames([body]) == Frame(body) + Frames([]);
    } else {
      assert (bodies + [body])[1..] == bodies[1..] + [body];
      FramesAppend(bodies[1..], body);
      Regroup(Frame(bodies[0]), Frames(bodies[1..]), Frame(body));
    }
  }

  lemma TakeMore<T>(s: seq<T>, n: nat, count: nat)
    requires n + count <= |s|
    ensures s[..n] + s[n..n + count] == s[..n + count]
  {
  }

  lemma WireStep(w: Wire, e: WireEvent)
    requires WireInv(w)
    ensures WireInv(WireNext(w, e))
  {
    var w' := WireNext(w, e);
    match e
    case Lock(_, _) =>
    case Push(_, count) =>
      if w' != w {
        var h := w.holder.value;
        TakeMore(Frame(h.body), h.written, count);
        Regroup(Frames(w.done), Partial(w.holder), Frame(h.body)[h.written..h.written + count]);
      }
    case Unlock(_) =>
      if w' != w {
        FramesAppend(w.done, w.holder.value.body);
      }
  }

  /** Whatever the interleaving, the stream is whole frames in mutex order, then part of at most one more. */
  lemma {:induction false} StreamIsFrames(events: seq<WireEvent>)
    ensures WireInv(WireRun(events))
  {
    if events != [] {
      StreamIsFrames(events[..|events| - 1]);
      WireStep(WireRun(events[..|events| - 1]), events[|events| - 1]);
    }
  }

  /** The bodies whose every byte is out, the one still holding the mutex included. */
  function Sent(w: Wire): seq<Stream> {
    if w.holder.Some? && w.holder.value.written == |Frame(w.holder.value.body)|
    then w.done + [w.holder.value.body] else w.done
  }

  lemma SentIsOut(w: Wire)
    requires WireInv(w)
    ensures if w.holder.Some? && w.holder.value.written < |Frame(w.holder.value.body)|
      then w.output == Frames(w.done) + Frame(w.holder.value.body)[..w.holder.value.written]
      else w.output == Frames(Sent(w))
  {
    if w.holder.None? {
      assert w.output + [] == w.output;
    } else if w.holder.value.written == |Frame(w.holder.value.body)| {
      FramesAppend(w.done, w.holder.value.body);
    }
  }

  /** At every moment of every interleaving the reader decodes exactly the messages fully sent, in order. */
  lemma ReaderSeesWhatWasSent<Msg>(c: Codec<Msg>, events: seq<WireEvent>)
    requires c.Sound() && AllParse(c, Sent(WireRun(events)))
    requires var h := WireRun(events).holder; h.Some? ==> |h.value.body| < USIZE_LIMIT
    ensures var w := WireRun(events); ReadAll(c, w.output) == Parsed(c, Sent(w))
  {
    var w := WireRun(events);
    StreamIsFrames(events);
    SentIsOut(w);
    if w.holder.Some? && w.holder.value.written < |Frame(w.holder.value.body)| {
      ReadsWholeThenPart(c, w.done, w.holder.value.body, w.holder.value.written);
    } else {
      ReadsWhole(c, Sent(w));
    }
  }

  // ---- pending requests -------------------------------------------------------------------------------------------

  /**
   * The id counter, the ids taken but not yet entered, the table of waiting requests and, per request
   * entered so far, the messages its channel was sent.
   */
  datatype Table<Msg> = Table(nextId: nat, taken: set<nat>, pending: set<nat>, inbox: map<nat, seq<Msg>>)

  datatype TableEvent<Msg> = Allocate | Enter(id: nat) | Dispatch(msg: Msg)

  function TableNext<Msg>(idOf: Msg -> Option<nat>, t: Table<Msg>, e: TableEvent<Msg>): Table<Msg> {
    match e
    case Allocate => t.(nextId := t.nextId + 1, taken := t.taken + {t.nextId})
    case Enter(id) =>
      if id in t.taken then
        t.(taken := t.taken - {id}, pending := t.pending + {id}, inbox := t.inbox[id := []])
      else t
    case Dispatch(msg) =>
      match idOf(msg)
      case Some(id) =>
        if id in t.pending && id in t.inbox then
          t.(pending := t.pending - {id}, inbox := t.inbox[id := t.inbox[id] + [msg]])
        else t
      case None => t
  }

  function TableRun<Msg>(idOf: Msg -> Option<nat>, events: seq<TableEvent<Msg>>): Table<Msg> {
    if events == [] then Table(1, {}, {}, map[])
    else TableNext(idOf, TableRun(idOf, events[..|events| - 1]), events[|events| - 1])
  }

  /** The first message read for `id` among `events`. */
  function FirstReply<Msg>(idOf: Msg -> Option<nat>, events: seq<TableEvent<Msg>>, id: nat): seq<Msg> {
    if events == [] then []
    else
      var earlier, e := FirstReply(idOf, events[..|events| - 1], id), events[|events| - 1];
      if earlier == [] && e.Dispatch? && idOf(e.msg) == Some(id) then [e.msg] else earlier
  }

  ghost predicate TableInv<Msg>(t: Table<Msg>) {
    && 1 <= t.nextId && t.taken !! t.inbox.Keys
    && (forall id <- t.taken :: 1 <= id < t.nextId)
    && (forall id <- t.inbox.Keys :: 1 <= id < t.nextId)
    && t.pending <= t.inbox.Keys
    && (forall id <- t.inbox.Keys :: |t.inbox[id]| == if id in t.pending then 0 else 1)
  }

  lemma {:induction false} TableKeepsInv<Msg>(idOf: Msg -> Option<nat>, events: seq<TableEvent<Msg>>)
    ensures TableInv(TableRun(idOf, events))
  {
    if events != [] {
      TableKeepsInv(idOf, events[..|events| - 1]);
    }
  }

  function Allocations<Msg>(events: seq<TableEvent<Msg>>): nat {
    if events == [] then 0 else Allocations(events[..|events| - 1]) + (if events[|events| - 1].Allocate? then 1 else 0)
  }

  /** Ids are handed out in order, from one on. */
  lemma {:induction false} IdsInOrder<Msg>(idOf: Msg -> Option<nat>, events: seq<TableEvent<Msg>>)
    ensures TableRun(idOf, events).nextId == Allocations(events) + 1
  {
    if events != [] {
      IdsInOrder(idOf, events[..|events| - 1]);
    }
  }

  /**
   * In every run, a request entered at step `at` is sent exactly the first message carrying its id read after
   * that step, and nothing else: at most one message, and none of another request.
   */
  lemma {:induction false} RequestGetsItsFirstReply<Msg>(idOf: Msg -> Option<nat>, events: seq<TableEvent<Msg>>, at: nat)
    requires at < |events| && events[at].Enter?
    requires events[at].id in TableRun(idOf, events[..at]).taken
    ensures var id, t := events[at].id, TableRun(idOf, events);
      id in t.inbox && t.inbox[id] == FirstReply(idOf, events[at + 1..], id)
  {
    var id, rest, before := events[at].id, events[at + 1..], events[..|events| - 1];
    TableKeepsInv(idOf, before);
    if at == |events| - 1 {
      assert before == events[..at] && rest == [];
    } else {
      PartsBeforeLast(events, at);
      RequestGetsItsFirstReply(idOf, before, at);
      ReplyNext(idOf, TableRun(idOf, before), events[|events| - 1], id);
    }
  }

  lemma PartsBeforeLast<T>(s: seq<T>, at: nat)
    requires at < |s| - 1
    ensures var before, rest := s[..|s| - 1], s[at + 1..];
      && before[..at] == s[..at] && before[at] == s[at]
      && rest[..|rest| - 1] == before[at + 1..] && rest[|rest| - 1] == s[|s| - 1]
  {
  }

  /** One event changes what an entered request was sent only if it is its first reply. */
  lemma ReplyNext<Msg>(idOf: Msg -> Option<nat>, t: Table<Msg>, e: TableEvent<Msg>, id: nat)
    requires TableInv(t) && id in t.inbox
    ensures var t' := TableNext(idOf, t, e);
      && id in t'.inbox
      && t'.inbox[id] == if t.inbox[id] == [] && e.Dispatch? && idOf(e.msg) == Some(id) then [e.msg] else t.inbox[id]
  {
    assert |t.inbox[id]| == if id in t.pending then 0 else 1;
  }

  lemma {:induction false} FirstReplyCarriesItsId<Msg>(idOf: Msg -> Option<nat>, events: seq<TableEvent<Msg>>, id: nat)
    ensures var r := FirstReply(idOf, events, id); |r| <= 1 && forall m <- r :: idOf(m) == Some(id)
  {
    if events != [] {
      FirstReplyCarriesItsId(idOf, events[..|events| - 1], id);
    }
  }

  /** The client's fields, updated by its tasks; each method is one atomic action. */
  class Client<Msg(==)> {
    const idOf: Msg -> Option<nat>
    var nextId: nat
    var pending: set<nat>
    ghost var taken: set<nat>
    ghost var inbox: map<nat, seq<Msg>>

    ghost function View(): Table<Msg>
      reads this
    {
      Table(nextId, taken, pending, inbox)
    }

    constructor (idOf: Msg -> Option<nat>)
      ensures this.idOf == idOf && View() == TableRun(idOf, []) && TableInv(View())
    {
      this.idOf := idOf;
      nextId, pending, taken, inbox := 1, {}, {}, map[];
    }

    method Allocate() returns (id: nat)
      requires TableInv(View())
      modifies this
      ensures View() == TableNext(idOf, old(View()), TableEvent.Allocate) && TableInv(View())
      ensures id !in old(taken) + old(inbox.Keys) && id in taken
    {
      id := nextId;
      nextId := nextId + 1;
      taken := taken + {id};
    }

    method Enter(id: nat)
      requires TableInv(View()) && id in taken
      modifies this
      ensures View() == TableNext(idOf, old(View()), TableEvent.Enter(id)) && TableInv(View())
    {
      pending := pending + {id};
      taken := taken - {id};
      inbox := inbox[id := []];
    }

    /** One message of the reader loop; `delivered` says that a waiting request took it. */
    method Dispatch(msg: Msg) returns (delivered: bool)
      requires TableInv(View())
      modifies this
      ensures View() == TableNext(idOf, old(View()), TableEvent.Dispatch(msg)) && TableInv(View())
      ensures delivered == (idOf(msg).Some? && idOf(msg).value in old(pending))
    {
      delivered := false;
      if idOf(msg).Some? {
        var id := idOf(msg).value;
        if id in pending {
          pending := pending - {id};
          inbox := inbox[id := inbox[id] + [msg]];
          delivered := true;
        }
      }
    }
  }
}
