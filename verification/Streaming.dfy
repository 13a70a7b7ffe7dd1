/**
 * Streaming an assistant answer to a display: chunks accumulate, snapshots are shown only now and then, and a
 * final flush shows what the throttle held back. Without secrets a display that can append gets the chunks
 * themselves.
 */
module Streaming {
  import opened Options
  import opened Chars

  const MIN_DELTA_BYTES := 32
  const MAX_LATENCY_MS := 80

  /** How secrets are taken out of a text: one after the other. `Replace(text, secret)` is left open. */
  datatype Redaction = Redaction(secrets: seq<string>, replace: (string, string) -> string)
  {
    /** Nothing is redacted from an empty text. */
    ghost predicate Valid() { forall s <- secrets :: replace("", s) == "" }

    function Filter(text: string): string { FilterBy(text, secrets) }

    function FilterBy(text: string, list: seq<string>): string
      decreases list
    {
      if list == [] then text else FilterBy(replace(text, list[0]), list[1..])
    }

    lemma {:induction false} FilterEmpty(list: seq<string>)
      requires forall s <- list :: replace("", s) == ""
      ensures FilterBy("", list) == ""
    {
      if list != [] {
        assert list[0] in list;
        assert forall s <- list[1..] :: s in list;
        FilterEmpty(list[1..]);
      }
    }
  }

  /** One channel of a stream: what arrived since the last reset, the last snapshot's length and time, the display. */
  datatype Channel = Channel(text: string, emitLength: nat, emitAt: Option<nat>, display: string)

  const BLANK := Channel("", 0, None, "")

  /** `should_emit`: enough new bytes, or enough time since the last snapshot. */
  predicate ShouldEmit(c: Channel, length: nat, now: nat) {
    || (length >= c.emitLength && length - c.emitLength >= MIN_DELTA_BYTES)
    || (c.emitAt.Some? && now >= c.emitAt.value && now - c.emitAt.value >= MAX_LATENCY_MS)
  }

  predicate UsesDeltas(r: Redaction, supportsDelta: bool) { supportsDelta && r.secrets == [] }

  function Chunk(c: Channel, r: Redaction, supportsDelta: bool, delta: string, now: nat): Channel {
    var text := c.text + delta;
    if UsesDeltas(r, supportsDelta) then c.(text := text, display := c.display + delta)
    else if ShouldEmit(c, ByteLength(text), now) then Channel(text, ByteLength(text), Some(now), r.Filter(text))
    else c.(text := text)
  }

  /** The flush at the end of an answer: nothing if the last snapshot was as long as the answer. */
  function Flush(c: Channel, r: Redaction, answer: string): Channel {
    if c.emitLength != ByteLength(answer) then c.(display := r.Filter(answer)) else c
  }

  /** A chunk carries text, reasoning or both, or starts over. */
  datatype Event =
    | Delta(text: Option<string>, reasoning: Option<string>, textAt: nat, reasoningAt: nat)
    | Reset

  datatype Stream = Stream(text: Channel, reasoning: Channel)

  function Next(s: Stream, r: Redaction, supportsDelta: bool, e: Event): Stream {
    match e
    case Reset => Stream(BLANK, BLANK)
    case Delta(text, reasoning, textAt, reasoningAt) =>
      Stream(if text.Some? then Chunk(s.text, r, supportsDelta, text.value, textAt) else s.text,
             if reasoning.Some? then Chunk(s.reasoning, r, supportsDelta, reasoning.value, reasoningAt) else s.reasoning)
  }

  function Run(r: Redaction, supportsDelta: bool, events: seq<Event>): Stream {
    if events == [] then Stream(BLANK, BLANK)
    else Next(Run(r, supportsDelta, events[..|events| - 1]), r, supportsDelta, events[|events| - 1])
  }

  // ---- the accumulated text, read off the events ------------------------------------------------------------------

  function Text(events: seq<Event>): string {
    if events == [] then ""
    else
      var e := events[|events| - 1];
      if e.Reset? then ""
      else Text(events[..|events| - 1]) + (if e.text.Some? then e.text.value else "")
  }

  function Reasoning(events: seq<Event>): string {
    if events == [] then ""
    else
      var e := events[|events| - 1];
      if e.Reset? then ""
      else Reasoning(events[..|events| - 1]) + (if e.reasoning.Some? then e.reasoning.value else "")
  }

  // ---- what is on display -----------------------------------------------------------------------------------------

  lemma {:induction false} BytesAppend(a: string, b: string)
    ensures ByteLength(a + b) == ByteLength(a) + ByteLength(b)
  {
    if a == "" {
      assert a + b == b;
    } else {
      assert (a + b)[1..] == a[1..] + b;
      BytesAppend(a[1..], b);
    }
  }

  /** A prefix of the same byte length is the whole. */
  lemma SameLengthPrefix(p: string, s: string)
    requires p <= s && ByteLength(p) == ByteLength(s)
    ensures p == s
  {
    assert s == p + s[|p|..];
    BytesAppend(p, s[|p|..]);
    assert ByteLength(s[|p|..]) == 0;
  }

  /** The display shows the filtered form of the prefix `shown`, which is as long as the last snapshot. */
  ghost predicate Shows(c: Channel, r: Redaction, shown: string) {
    shown <= c.text && c.display == r.Filter(shown) && ByteLength(shown) == c.emitLength
  }

  ghost predicate ChannelInv(c: Channel, r: Redaction, supportsDelta: bool) {
    if UsesDeltas(r, supportsDelta) then c.display == c.text && c.emitLength == 0
    else (exists shown :: Shows(c, r, shown)) && ByteLength(c.text) < c.emitLength + MIN_DELTA_BYTES
  }

  lemma BlankInv(r: Redaction, supportsDelta: bool)
    requires r.Valid()
    ensures ChannelInv(BLANK, r, supportsDelta)
  {
    r.FilterEmpty(r.secrets);
    assert Shows(BLANK, r, "");
  }

  lemma ChunkKeepsInv(c: Channel, r: Redaction, supportsDelta: bool, delta: string, now: nat)
    requires ChannelInv(c, r, supportsDelta)
    ensures ChannelInv(Chunk(c, r, supportsDelta, delta, now), r, supportsDelta)
  {
    var c' := Chunk(c, r, supportsDelta, delta, now);
    if !UsesDeltas(r, supportsDelta) {
      var shown :| Shows(c, r, shown);
      if ShouldEmit(c, ByteLength(c'.text), now) {
        assert Shows(c', r, c'.text);
      } else {
        BytesAppend(c.text, delta);
        PrefixIsShorter(shown, c.text);
        assert Shows(c', r, shown);
      }
    }
  }

  lemma PrefixIsShorter(p: string, s: string)
    requires p <= s
    ensures ByteLength(p) <= ByteLength(s)
  {
    assert s == p + s[|p|..];
    BytesAppend(p, s[|p|..]);
  }

  lemma NextKeepsInv(s: Stream, r: Redaction, supportsDelta: bool, e: Event)
    requires r.Valid() && ChannelInv(s.text, r, supportsDelta) && ChannelInv(s.reasoning, r, supportsDelta)
    ensures var s' := Next(s, r, supportsDelta, e);
      ChannelInv(s'.text, r, supportsDelta) && ChannelInv(s'.reasoning, r, supportsDelta)
  {
    BlankInv(r, supportsDelta);
    if e.Delta? {
      if e.text.Some? {
        ChunkKeepsInv(s.text, r, supportsDelta, e.text.value, e.textAt);
      }
      if e.reasoning.Some? {
        ChunkKeepsInv(s.reasoning, r, supportsDelta, e.reasoning.value, e.reasoningAt);
      }
    }
  }

  lemma {:induction false} StreamAccumulates(r: Redaction, supportsDelta: bool, events: seq<Event>)
    ensures var s := Run(r, supportsDelta, events); s.text.text == Text(events) && s.reasoning.text == Reasoning(events)
  {
    if events != [] {
      StreamAccumulates(r, supportsDelta, events[..|events| - 1]);
    }
  }

  /**
   * At every moment of every stream, each channel shows the filtered form of a prefix of what arrived since the last
   * reset, less than 32 bytes behind it; with deltas it shows all of it.
   */
  lemma {:induction false} DisplayIsFilteredPrefix(r: Redaction, supportsDelta: bool, events: seq<Event>)
    requires r.Valid()
    ensures var s := Run(r, supportsDelta, events);
      && ChannelInv(s.text, r, supportsDelta) && ChannelInv(s.reasoning, r, supportsDelta)
      && s.text.text == Text(events) && s.reasoning.text == Reasoning(events)
  {
    StreamAccumulates(r, supportsDelta, events);
    BlankInv(r, supportsDelta);
    if events != [] {
      var before, e := events[..|events| - 1], events[|events| - 1];
      DisplayIsFilteredPrefix(r, supportsDelta, before);
      NextKeepsInv(Run(r, supportsDelta, before), r, supportsDelta, e);
    }
  }

  lemma FlushShowsAll(c: Channel, r: Redaction, supportsDelta: bool)
    requires r.Valid() && ChannelInv(c, r, supportsDelta)
    ensures Flush(c, r, c.text).display == r.Filter(c.text)
  {
    if !UsesDeltas(r, supportsDelta) {
      var shown :| Shows(c, r, shown);
      if c.emitLength == ByteLength(c.text) {
        SameLengthPrefix(shown, c.text);
      }
    }
  }

  /** After the final flush either path shows the filtered answer, when the answer is what was streamed. */
  lemma FlushedDisplayIsAnswer(r: Redaction, supportsDelta: bool, events: seq<Event>)
    requires r.Valid()
    ensures var s := Run(r, supportsDelta, events);
      && Flush(s.text, r, Text(events)).display == r.Filter(Text(events))
      && Flush(s.reasoning, r, Reasoning(events)).display == r.Filter(Reasoning(events))
  {
    DisplayIsFilteredPrefix(r, supportsDelta, events);
    FlushShowsAll(Run(r, supportsDelta, events).text, r, supportsDelta);
    FlushShowsAll(Run(r, supportsDelta, events).reasoning, r, supportsDelta);
  }

  // ---- how old the text is that the throttle holds back -----------------------------------------------------------

  /** What one chunk brought to a channel, and when. */
  datatype Piece = Piece(delta: string, at: nat)

  /** The pieces of the text since the last reset. */
  function TextPieces(events: seq<Event>): seq<Piece> {
    if events == [] then []
    else
      var e := events[|events| - 1];
      if e.Reset? then []
      else TextPieces(events[..|events| - 1]) + (if e.text.Some? then [Piece(e.text.value, e.textAt)] else [])
  }

  function ReasoningPieces(events: seq<Event>): seq<Piece> {
    if events == [] then []
    else
      var e := events[|events| - 1];
      if e.Reset? then []
      else
        ReasoningPieces(events[..|events| - 1])
        + (if e.reasoning.Some? then [Piece(e.reasoning.value, e.reasoningAt)] else [])
  }

  function Joined(pieces: seq<Piece>): string {
    if pieces == [] then "" else Joined(pieces[..|pieces| - 1]) + pieces[|pieces| - 1].delta
  }

  /** The clock does not go back. */
  predicate Ordered(pieces: seq<Piece>) { forall i, j :: 0 <= i <= j < |pieces| ==> pieces[i].at <= pieces[j].at }

  /**
   * The channel shows exactly its first `j` pieces, none or 32 bytes at least. Those held back are under 32 bytes
   * together, and each came less than 80 ms after the last piece shown, if any is shown.
   */
  ghost predicate ShowsPieces(c: Channel, r: Redaction, pieces: seq<Piece>, j: nat) {
    && j <= |pieces| && c.text == Joined(pieces) && c.display == r.Filter(Joined(pieces[..j]))
    && c.emitLength == ByteLength(Joined(pieces[..j]))
    && c.emitAt == (if j == 0 then None else Some(pieces[j - 1].at)) && (j > 0 ==> c.emitLength >= MIN_DELTA_BYTES)
    && c.emitLength <= ByteLength(Joined(pieces)) < c.emitLength + MIN_DELTA_BYTES
    && forall k :: 0 < j <= k < |pieces| ==> pieces[k].at < pieces[j - 1].at + MAX_LATENCY_MS
  }

  lemma JoinedNext(pieces: seq<Piece>, p: Piece)
    ensures Joined(pieces + [p]) == Joined(pieces) + p.delta
    ensures ByteLength(Joined(pieces + [p])) == ByteLength(Joined(pieces)) + ByteLength(p.delta)
  {
    assert (pieces + [p])[..|pieces + [p]| - 1] == pieces;
    BytesAppend(Joined(pieces), p.delta);
  }

  lemma SnapshotShowsPieces(c: Channel, r: Redaction, supportsDelta: bool, pieces: seq<Piece>, j: nat, p: Piece)
    requires !UsesDeltas(r, supportsDelta) && ShowsPieces(c, r, pieces, j)
    requires ShouldEmit(c, ByteLength(Joined(pieces) + p.delta), p.at)
    ensures ShowsPieces(Chunk(c, r, supportsDelta, p.delta, p.at), r, pieces + [p], |pieces| + 1)
  {
    var all := pieces + [p];
    JoinedNext(pieces, p);
    assert all[..|all|] == all;
  }

  lemma HoldingShowsPieces(c: Channel, r: Redaction, supportsDelta: bool, pieces: seq<Piece>, j: nat, p: Piece)
    requires !UsesDeltas(r, supportsDelta) && ShowsPieces(c, r, pieces, j)
    requires !ShouldEmit(c, ByteLength(Joined(pieces) + p.delta), p.at)
    ensures ShowsPieces(Chunk(c, r, supportsDelta, p.delta, p.at), r, pieces + [p], j)
  {
    JoinedNext(pieces, p);
    assert (pieces + [p])[..j] == pieces[..j];
  }

  lemma ChunkShowsPieces(c: Channel, r: Redaction, supportsDelta: bool, pieces: seq<Piece>, j: nat, p: Piece) returns (j': nat)
    requires !UsesDeltas(r, supportsDelta) && ShowsPieces(c, r, pieces, j)
    ensures ShowsPieces(Chunk(c, r, supportsDelta, p.delta, p.at), r, pieces + [p], j')
  {
    if ShouldEmit(c, ByteLength(Joined(pieces) + p.delta), p.at) {
      j' := |pieces| + 1;
      SnapshotShowsPieces(c, r, supportsDelta, pieces, j, p);
    } else {
      j' := j;
      HoldingShowsPieces(c, r, supportsDelta, pieces, j, p);
    }
  }

  /** Each channel of a stream shows its first pieces and holds back the others. */
  ghost predicate ThrottledAt(s: Stream, r: Redaction, text: seq<Piece>, reasoning: seq<Piece>, i: nat, j: nat) {
    ShowsPieces(s.text, r, text, i) && ShowsPieces(s.reasoning, r, reasoning, j)
  }

  lemma BlankShowsPieces(r: Redaction)
    requires r.Valid()
    ensures ShowsPieces(BLANK, r, [], 0)
  {
    r.FilterEmpty(r.secrets);
  }

  lemma {:induction false} RunShowsPieces(r: Redaction, supportsDelta: bool, events: seq<Event>) returns (i: nat, j: nat)
    requires r.Valid() && !UsesDeltas(r, supportsDelta)
    ensures ThrottledAt(Run(r, supportsDelta, events), r, TextPieces(events), ReasoningPieces(events), i, j)
  {
    BlankShowsPieces(r);
    i, j := 0, 0;
    if events != [] {
      var before, e := events[..|events| - 1], events[|events| - 1];
      var s := Run(r, supportsDelta, before);
      if e.Delta? {
        i, j := RunShowsPieces(r, supportsDelta, before);
        if e.text.Some? {
          i := ChunkShowsPieces(s.text, r, supportsDelta, TextPieces(before), i, Piece(e.text.value, e.textAt));
        } else {
          assert TextPieces(before) + [] == TextPieces(before);
        }
        if e.reasoning.Some? {
          j := ChunkShowsPieces(s.reasoning, r, supportsDelta, ReasoningPieces(before), j,
                                Piece(e.reasoning.value, e.reasoningAt));
        } else {
          assert ReasoningPieces(before) + [] == ReasoningPieces(before);
        }
      }
    }
  }

  /** Some piece held back is 80 ms or more older than the latest one. */
  predicate HoldsOldText(pieces: seq<Piece>, j: nat) {
    exists k :: j <= k < |pieces| && pieces[|pieces| - 1].at >= pieces[k].at + MAX_LATENCY_MS
  }

  /** Under 32 bytes since the last reset, over 80 ms or longer. */
  predicate SlowStart(pieces: seq<Piece>) {
    && pieces != [] && ByteLength(Joined(pieces)) < MIN_DELTA_BYTES
    && pieces[|pieces| - 1].at >= pieces[0].at + MAX_LATENCY_MS
  }

  lemma OldTextIff(c: Channel, r: Redaction, pieces: seq<Piece>, j: nat)
    requires ShowsPieces(c, r, pieces, j) && Ordered(pieces)
    ensures HoldsOldText(pieces, j) <==> SlowStart(pieces)
  {
    assert pieces[..0] == [];
    if SlowStart(pieces) {
      assert j == 0;
      assert 0 <= 0 < |pieces| && pieces[|pieces| - 1].at >= pieces[0].at + MAX_LATENCY_MS;
    }
    if HoldsOldText(pieces, j) {
      var k :| j <= k < |pieces| && pieces[|pieces| - 1].at >= pieces[k].at + MAX_LATENCY_MS;
      assert pieces[0].at <= pieces[k].at;
    }
  }

  /**
   * At every moment of every stream of snapshots, what a channel holds back are the latest pieces since the last reset,
   * under 32 bytes together, each less than 80 ms younger than the last piece shown, if any is. Text held back is 80 ms
   * or more older than the latest piece if and only if all that came since the last reset is under 32 bytes and took
   * that long: the limit on latency counts from the last snapshot, so there is none before the first.
   */
  lemma NothingIsHeldBackLong(r: Redaction, supportsDelta: bool, events: seq<Event>) returns (i: nat, j: nat)
    requires r.Valid() && !UsesDeltas(r, supportsDelta)
    ensures ThrottledAt(Run(r, supportsDelta, events), r, TextPieces(events), ReasoningPieces(events), i, j)
    ensures Ordered(TextPieces(events)) ==> (HoldsOldText(TextPieces(events), i) <==> SlowStart(TextPieces(events)))
    ensures Ordered(ReasoningPieces(events)) ==>
      (HoldsOldText(ReasoningPieces(events), j) <==> SlowStart(ReasoningPieces(events)))
  {
    i, j := RunShowsPieces(r, supportsDelta, events);
    var s := Run(r, supportsDelta, events);
    if Ordered(TextPieces(events)) {
      OldTextIff(s.text, r, TextPieces(events), i);
    }
    if Ordered(ReasoningPieces(events)) {
      OldTextIff(s.reasoning, r, ReasoningPieces(events), j);
    }
  }

  /** Two short chunks, however far apart: nothing is shown before the flush. */
  lemma FirstWordsWait(r: Redaction, supportsDelta: bool, pause: nat)
    requires r.Valid() && !UsesDeltas(r, supportsDelta)
    ensures var events := [Delta(Some("a"), None, 0, 0), Delta(Some("b"), None, pause, pause)];
      Run(r, supportsDelta, events).text.text == "ab" && Run(r, supportsDelta, events).text.display == ""
  {
    var first, second := Delta(Some("a"), None, 0, 0), Delta(Some("b"), None, pause, pause);
    var events := [first, second];
    assert events[..1] == [first] && [first][..0] == [];
    assert ByteLength("a") == 1 && "ab"[1..] == "b" && ByteLength("b") == 1 && ByteLength("ab") == 2;
    assert "" + "a" == "a" && "a" + "b" == "ab";
    assert Run(r, supportsDelta, [first]).text == BLANK.(text := "a");
  }

  /** One more piece is shown, with all before it, exactly if 32 bytes are held back or 80 ms have passed since a snapshot. */
  lemma SnapshotIff(c: Channel, r: Redaction, supportsDelta: bool, pieces: seq<Piece>, j: nat, p: Piece)
    requires !UsesDeltas(r, supportsDelta) && ShowsPieces(c, r, pieces, j)
    ensures var c' := Chunk(c, r, supportsDelta, p.delta, p.at); var held := ByteLength(Joined(pieces)) - c.emitLength;
      if held + ByteLength(p.delta) >= 32 || (j > 0 && p.at >= pieces[j - 1].at + 80)
      then ShowsPieces(c', r, pieces + [p], |pieces| + 1) else c'.display == c.display && c'.emitAt == c.emitAt
  {
    JoinedNext(pieces, p);
    if ShouldEmit(c, ByteLength(Joined(pieces) + p.delta), p.at) {
      SnapshotShowsPieces(c, r, supportsDelta, pieces, j, p);
    }
  }

  /** Secrets are taken out one after the other, each by one replacement. */
  lemma {:induction false} FilterInOrder(r: Redaction, text: string, a: seq<string>, b: seq<string>)
    ensures r.FilterBy(text, a + b) == r.FilterBy(r.FilterBy(text, a), b)
    ensures forall s :: r.FilterBy(text, [s]) == r.replace(text, s)
    ensures r.FilterBy(text, []) == text && r.Filter(text) == r.FilterBy(text, r.secrets)
    decreases a
  {
    forall s ensures r.FilterBy(text, [s]) == r.replace(text, s) {
      assert [s][1..] == [];
    }
    if a == [] {
      assert a + b == b;
    } else {
      assert (a + b)[1..] == a[1..] + b;
      FilterInOrder(r, r.replace(text, a[0]), a[1..], b);
    }
  }

  // ---- the stream state, updated chunk by chunk -------------------------------------------------------------------

  class AssistantStream {
    const redaction: Redaction
    const supportsDelta: bool
    var text: Channel
    var reasoning: Channel

    ghost function View(): Stream
      reads this
    {
      Stream(text, reasoning)
    }

    constructor (redaction: Redaction, supportsDelta: bool)
      ensures this.redaction == redaction && this.supportsDelta == supportsDelta
      ensures View() == Run(redaction, supportsDelta, [])
    {
      this.redaction, this.supportsDelta := redaction, supportsDelta;
      text, reasoning := BLANK, BLANK;
    }

    /** One channel's part of a chunk. */
    method Push(c: Channel, delta: string, now: nat) returns (c': Channel)
      ensures c' == Chunk(c, redaction, supportsDelta, delta, now)
    {
      c' := c.(text := c.text + delta);
      var length := ByteLength(c'.text);
      if supportsDelta && redaction.secrets == [] {
        c' := c'.(display := c.display + delta);
      } else {
        var deltaOk := length >= c.emitLength && length - c.emitLength >= MIN_DELTA_BYTES;
        var latencyOk := c.emitAt.Some? && now >= c.emitAt.value && now - c.emitAt.value >= MAX_LATENCY_MS;
        if deltaOk || latencyOk {
          c' := c'.(emitLength := length, emitAt := Some(now));
          c' := c'.(display := redaction.Filter(c'.text));
        }
      }
    }

    method StreamChunk(e: Event)
      modifies this
      ensures View() == Next(old(View()), redaction, supportsDelta, e)
    {
      match e
      case Reset =>
        text, reasoning := BLANK, BLANK;
      case Delta(deltaText, deltaReasoning, textAt, reasoningAt) =>
        if deltaReasoning.Some? {
          reasoning := Push(reasoning, deltaReasoning.value, reasoningAt);
        }
        if deltaText.Some? {
          text := Push(text, deltaText.value, textAt);
        }
    }

    /** Streams a whole answer and flushes it: the display ends up as the filtered answer. */
    method StreamAnswer(events: seq<Event>)
      requires redaction.Valid() && View() == Stream(BLANK, BLANK)
      modifies this
      ensures text.display == redaction.Filter(Text(events))
      ensures reasoning.display == redaction.Filter(Reasoning(events))
    {
      for i := 0 to |events|
        invariant View() == Run(redaction, supportsDelta, events[..i])
      {
        assert events[..i + 1][..i] == events[..i];
        StreamChunk(events[i]);
      }
      assert events[..|events|] == events;
      DisplayIsFilteredPrefix(redaction, supportsDelta, events);
      FlushedDisplayIsAnswer(redaction, supportsDelta, events);
      text := Flush(text, redaction, text.text);
      reasoning := Flush(reasoning, redaction, reasoning.text);
    }
  }
}
