/**
 * What the agent loop appends to a history, and what one of its compression steps keeps of it.
 */
module LoopHistory {
  import opened Options
  import opened Messages
  import opened ContextManager
  import opened TokenCache
  import opened ToolExec

  /** An answer of the model. */
  datatype Reply = Reply(text: Option<string>, reasoning: Option<string>, calls: seq<Call>, usage: nat)

  function UseBlocks(calls: seq<Call>): seq<ContentBlock> {
    seq(|calls|, i requires 0 <= i < |calls| => ToolUse(calls[i].callId, calls[i].toolName, calls[i].input))
  }

  function AssistantMessage(r: Reply, now: nat): ChatMessage {
    var blocks := (if r.text.Some? then [Text(r.text.value)] else []) + UseBlocks(r.calls);
    Refresh(ChatMessage(Assistant, blocks, None, now, Some(r.usage), r.reasoning, None))
  }

  function UserNote(text: string, now: nat): ChatMessage { Refresh(TextMessage(User, text, now)) }

  /** The error reported to the model for a call without a name; it stays only while the call is retried. */
  function InvalidCallMessage(c: Call, now: nat): ChatMessage {
    NewMessage(Tool, [ToolResult(c.callId, c.toolName, "Error: invalid tool call: missing tool_name.", true)], None, now)
  }

  /** The provider protocol holds, roles are respected and cached counts cover their messages. */
  ghost predicate Sound(h: History) { WellPaired(h) && RoleDiscipline(h) && Covers(h) }

  // ---- appended messages ------------------------------------------------------------------------------------------

  lemma {:induction false} UseBlocksIds(calls: seq<Call>)
    ensures UseIds(UseBlocks(calls)) == CallIds(calls) && ResultIds(UseBlocks(calls)) == []
  {
    if calls != [] {
      UseBlocksIds(calls[1..]);
      assert UseBlocks(calls)[1..] == UseBlocks(calls[1..]);
      assert CallIds(calls) == [calls[0].callId] + CallIds(calls[1..]);
    }
  }

  lemma AssistantUses(r: Reply, now: nat)
    ensures var m := AssistantMessage(r, now);
      m.role == Assistant && Uses(m) == CallIds(r.calls) && Results(m) == [] && CoversOne(m)
  {
    UseBlocksIds(r.calls);
    var m := AssistantMessage(r, now);
    if r.text.Some? {
      assert m.blocks[1..] == UseBlocks(r.calls);
    } else {
      assert m.blocks == UseBlocks(r.calls);
    }
  }

  lemma SingleResult(b: ContentBlock)
    requires b.ToolResult?
    ensures UseIds([b]) == [] && ResultIds([b]) == [b.callId]
  {
    assert [b][1..] == [];
  }

  lemma ResultReports(r: Result, now: nat)
    ensures var m := ResultMessage(r, now);
      m.role == Tool && Uses(m) == [] && Results(m) == [r.call.callId] && CoversOne(m)
  {
    SingleResult(ToolResult(r.call.callId, r.call.toolName, OutputText(r), IsFailure(r)));
  }

  lemma NoteHasNoTools(text: string, now: nat)
    ensures var m := UserNote(text, now); m.role == User && Uses(m) == [] && Results(m) == [] && CoversOne(m)
  {
    TextHasNoTools(text);
  }

  /** An assistant message followed by the result of each of its calls, in order, is a complete exchange. */
  lemma ExchangeIsPaired(r: Reply, results: seq<Result>, now: nat)
    requires CallsOf(results) == r.calls
    ensures Sound([AssistantMessage(r, now)] + ResultMessages(results, now))
  {
    var a, rs := AssistantMessage(r, now), ResultMessages(results, now);
    var h := [a] + rs;
    AssistantUses(r, now);
    forall i | 0 <= i < |rs|
      ensures h[i + 1] == rs[i] && rs[i].role == Tool && Uses(rs[i]) == [] && CoversOne(rs[i])
      ensures Results(rs[i]) == [Uses(a)[i]]
    {
      ResultReports(results[i], now);
      assert CallsOf(results)[i] == r.calls[i];
    }
    assert Answers(h, 1, Uses(h[0]));
    assert h[1 + |Uses(h[0])|..] == [];
  }

  lemma SoundAppend(h: History, more: History)
    requires Sound(h) && Sound(more)
    ensures Sound(h + more)
  {
    WellPairedAppend(h, more);
  }

  lemma PlainIsSound(h: History)
    requires forall m <- h :: Uses(m) == [] && Results(m) == [] && CoversOne(m)
    ensures Sound(h)
  {
    NoToolsWellPaired(h);
  }

  // ---- compression ------------------------------------------------------------------------------------------------

  lemma RefreshKeepsShape(h: History)
    ensures SameShape(h, RefreshAll(h))
  {
  }

  lemma SplitKeepsRoles(h: History, front: History, cut: nat)
    requires cut <= |h| && NoTools(front) && RoleDiscipline(h)
    ensures RoleDiscipline(front + h[cut..])
  {
  }

  lemma CompressKeepsRoles(h: History, meta: Meta, tail: nat, should: bool, summarize: Summarizer)
    requires Compress(h, meta, tail, should, summarize).Some? && RoleDiscipline(h)
    ensures RoleDiscipline(Compress(h, meta, tail, should, summarize).value.0)
  {
    var front, cut := CompressSplits(h, meta, tail, should, summarize);
    SplitKeepsRoles(h, front, cut);
  }

  lemma PruneKeepsSound(h: History)
    requires Sound(h)
    ensures Sound(RefreshAll(Prune(h)))
  {
    PruneKeeps(h, 0);
    RefreshKeepsShape(Prune(h));
    SameShapeKeepsPairing(h, RefreshAll(Prune(h)));
    PruneKeepsCovers(h);
  }

  /** A compression step keeps a sound history sound. */
  lemma CompressStepKeepsSound(h: History, meta: Meta, tail: nat, should: bool, summarize: Summarizer)
    requires Sound(h) && CompressStep(h, meta, tail, should, summarize).Some?
    ensures Sound(CompressStep(h, meta, tail, should, summarize).value.0)
  {
    CompressKeepsWellPaired(h, meta, tail, should, summarize);
    CompressKeepsRoles(h, meta, tail, should, summarize);
    CompressKeepsCovers(h, meta, tail, should, summarize);
    PruneKeepsSound(Compress(h, meta, tail, should, summarize).value.0);
  }

  lemma InvalidCallReports(c: Call, now: nat)
    ensures var m := InvalidCallMessage(c, now);
      m.role == Tool && Uses(m) == [] && |m.blocks| == 1 && CoversOne(m)
  {
    SingleResult(InvalidCallMessage(c, now).blocks[0]);
    assert InvalidCallMessage(c, now).blocks == [InvalidCallMessage(c, now).blocks[0]];
  }

  /** `m` is last, up to its cached count, and popping it leaves a sound history. */
  ghost predicate PopsTo(h: History, m: ChatMessage) {
    h != [] && h[|h| - 1] == Refresh(m) && Sound(h[..|h| - 1])
  }

  lemma PrunePopped(h: History, m: ChatMessage)
    requires EndsWith(h, m) && RoleDiscipline(h) && Covers(h) && |m.blocks| == 1
    ensures PopsTo(RefreshAll(Prune(h)), m)
  {
    var older, h' := h[..|h| - 1], RefreshAll(Prune(h));
    PruneKeepsLastSingle(h);
    PruneKeepsCovers(h);
    var k := PruneBlocks(m.blocks, 0).1;
    PruneKeeps(older, k);
    assert SameShape(older, h'[..|h'| - 1]);
    SameShapeKeepsPairing(older, h'[..|h'| - 1]);
  }

  lemma WithProvisional(h: History, m: ChatMessage)
    requires Sound(h) && m.role == Tool && Uses(m) == [] && CoversOne(m)
    ensures RoleDiscipline(h + [m]) && Covers(h + [m])
  {
  }

  /**
   * With the error message provisionally last, a compression step leaves it last, changed at most in its cached
   * count, so popping one message removes exactly it and leaves a sound history.
   */
  lemma CompressStepKeepsProvisional(h: History, m: ChatMessage, meta: Meta, tail: nat, should: bool, summarize: Summarizer)
    requires tail >= 1 && Sound(h) && m.role == Tool && Uses(m) == [] && |m.blocks| == 1 && CoversOne(m)
    requires CompressStep(h + [m], meta, tail, should, summarize).Some?
    ensures PopsTo(CompressStep(h + [m], meta, tail, should, summarize).value.0, m)
  {
    WithProvisional(h, m);
    CompressKeepsProvisional(h, m, meta, tail, should, summarize);
    CompressKeepsRoles(h + [m], meta, tail, should, summarize);
    CompressKeepsCovers(h + [m], meta, tail, should, summarize);
    PrunePopped(Compress(h + [m], meta, tail, should, summarize).value.0, m);
  }
}
