/**
 * Token accounting of a history: the per-message estimate and its cache, and the pruning of old tool
 * output that rewrites messages whose count is already cached.
 */
module TokenCache {
  import opened Options
  import opened Chars
  import opened Messages
  import opened Compaction
  import opened ContextManager

  // ---- estimates --------------------------------------------------------------------------------------------------

  predicate Wide(s: string) { exists i :: 0 <= i < |s| && s[i] as int > 0x7F }

  function TextTokens(s: string): nat {
    if Wide(s) then |s| / 2 + 10 else |s| / 4 + 10
  }

  function BlockTokens(b: ContentBlock): nat {
    match b
    case Text(text) => TextTokens(text)
    case ToolUse(_, _, input) => TextTokens(input) + 20
    case ToolResult(_, _, output, _) => TextTokens(output) + 15
    case Image(description) => TextTokens(description) + 100
    case Document(description) => TextTokens(description) + 150
  }

  function BlocksTokens(blocks: seq<ContentBlock>): nat {
    if blocks == [] then 0 else BlockTokens(blocks[0]) + BlocksTokens(blocks[1..])
  }

  /** The count of the message's current content, whatever is cached. */
  function Recount(m: ChatMessage): nat {
    BlocksTokens(m.blocks) + (if m.reasoning.Some? then TextTokens(m.reasoning.value) else 0) + 10
  }

  /** `estimate_message`: the cached count if there is one. */
  function Estimate(m: ChatMessage): nat {
    if m.estimatedTokens.Some? then m.estimatedTokens.value else Recount(m)
  }

  /** `update_message_cache`: an existing count is never replaced. */
  function Refresh(m: ChatMessage): ChatMessage { m.(estimatedTokens := Some(Estimate(m))) }

  function RefreshAll(h: History): History {
    seq(|h|, i requires 0 <= i < |h| => Refresh(h[i]))
  }

  function Total(h: History): nat { if h == [] then 0 else Total(h[..|h| - 1]) + Estimate(h[|h| - 1]) }

  function RecountTotal(h: History): nat { if h == [] then 0 else RecountTotal(h[..|h| - 1]) + Recount(h[|h| - 1]) }

  // ---- pruning ----------------------------------------------------------------------------------------------------

  const KEEP_RECENT_TOOL_BYTES := 40_000
  const MIN_PRUNABLE_BYTES := 1_000
  const PRUNED_MARKER :=
    "[older tool output pruned to save context \U{2014} re-run the tool or read the file if you still need it]"

  /** One block, given the bytes of newer tool output kept so far. */
  function PruneBlock(b: ContentBlock, kept: nat): (ContentBlock, nat) {
    if !b.ToolResult? || b.output == PRUNED_MARKER then (b, kept)
    else if kept < KEEP_RECENT_TOOL_BYTES then (b, kept + ByteLength(b.output))
    else if ByteLength(b.output) > MIN_PRUNABLE_BYTES then (b.(output := PRUNED_MARKER), kept)
    else (b, kept)
  }

  function PruneBlocks(blocks: seq<ContentBlock>, kept: nat): (r: (seq<ContentBlock>, nat))
    ensures |r.0| == |blocks|
  {
    if blocks == [] then ([], kept)
    else
      var first := PruneBlock(blocks[0], kept);
      var others := PruneBlocks(blocks[1..], first.1);
      ([first.0] + others.0, others.1)
  }

  /** Newest message first; blocks in order within a message. */
  function PruneFrom(h: History, kept: nat): (r: (History, nat))
    ensures |r.0| == |h|
  {
    if h == [] then ([], kept)
    else
      var m := h[|h| - 1];
      var last := PruneBlocks(m.blocks, kept);
      var older := PruneFrom(h[..|h| - 1], last.1);
      (older.0 + [m.(blocks := last.0)], older.1)
  }

  function Prune(h: History): History { PruneFrom(h, 0).0 }

  lemma {:induction false} PruneBlocksSplit(a: seq<ContentBlock>, b: seq<ContentBlock>, kept: nat)
    ensures var left := PruneBlocks(a, kept); var right := PruneBlocks(b, left.1);
      PruneBlocks(a + b, kept).0 == left.0 + right.0 && PruneBlocks(a + b, kept).1 == right.1
  {
    if a == [] {
      assert a + b == b;
    } else {
      var first := PruneBlock(a[0], kept);
      assert (a + b)[1..] == a[1..] + b;
      PruneBlocksSplit(a[1..], b, first.1);
    }
  }

  lemma PruneNext(blocks: seq<ContentBlock>, i: nat, kept: nat)
    requires i < |blocks|
    ensures var done := PruneBlocks(blocks[..i], kept); var next := PruneBlock(blocks[i], done.1);
      PruneBlocks(blocks[..i + 1], kept).0 == done.0 + [next.0] && PruneBlocks(blocks[..i + 1], kept).1 == next.1
  {
    assert blocks[..i + 1] == blocks[..i] + [blocks[i]];
    PruneBlocksSplit(blocks[..i], [blocks[i]], kept);
    var done := PruneBlocks(blocks[..i], kept);
    assert PruneBlocks([blocks[i]][1..], PruneBlock(blocks[i], done.1).1).0 == [];
  }

  lemma {:induction false} PruneSplit(a: History, b: History, kept: nat)
    ensures var right := PruneFrom(b, kept); var left := PruneFrom(a, right.1);
      PruneFrom(a + b, kept).0 == left.0 + right.0 && PruneFrom(a + b, kept).1 == left.1
  {
    if b == [] {
      assert a + b == a;
    } else {
      var m := b[|b| - 1];
      assert (a + b)[|a + b| - 1] == m && (a + b)[..|a + b| - 1] == a + b[..|b| - 1];
      PruneSplit(a, b[..|b| - 1], PruneBlocks(m.blocks, kept).1);
    }
  }

  lemma PruneOlder(h: History, i: nat)
    requires i < |h|
    ensures var newer := PruneFrom(h[i + 1..], 0); var next := PruneBlocks(h[i].blocks, newer.1);
      && PruneFrom(h[i..], 0).0 == [h[i].(blocks := next.0)] + newer.0
      && PruneFrom(h[i..], 0).1 == next.1
  {
    assert h[i..] == [h[i]] + h[i + 1..];
    PruneSplit([h[i]], h[i + 1..], 0);
    var newer := PruneFrom(h[i + 1..], 0);
    assert PruneFrom([h[i]][..0], PruneBlocks(h[i].blocks, newer.1).1).0 == [];
  }

  method PruneMessage(m: ChatMessage, kept: nat) returns (m': ChatMessage, kept': nat)
    ensures m'.blocks == PruneBlocks(m.blocks, kept).0 && kept' == PruneBlocks(m.blocks, kept).1 && m' == m.(blocks := m'.blocks)
  {
    var blocks := m.blocks;
    kept' := kept;
    for i := 0 to |blocks|
      invariant |blocks| == |m.blocks| && forall j :: i <= j < |blocks| ==> blocks[j] == m.blocks[j]
      invariant blocks[..i] == PruneBlocks(m.blocks[..i], kept).0 && kept' == PruneBlocks(m.blocks[..i], kept).1
    {
      ghost var before := blocks[..i];
      PruneNext(m.blocks, i, kept);
      if blocks[i].ToolResult? && blocks[i].output != PRUNED_MARKER {
        if kept' < KEEP_RECENT_TOOL_BYTES {
          kept' := kept' + ByteLength(blocks[i].output);
        } else if ByteLength(blocks[i].output) > MIN_PRUNABLE_BYTES {
          blocks := blocks[i := blocks[i].(output := PRUNED_MARKER)];
        }
      }
      assert blocks[..i + 1] == before + [blocks[i]];
    }
    assert blocks[..|blocks|] == blocks && m.blocks[..|blocks|] == m.blocks;
    m' := m.(blocks := blocks);
  }

  /** `prune_stale_tool_output`, in place over the message array. */
  method PruneStaleToolOutput(messages: array<ChatMessage>)
    modifies messages
    ensures messages[..] == Prune(old(messages[..]))
  {
    ghost var was := messages[..];
    var kept, i := 0, messages.Length;
    while i > 0
      invariant 0 <= i <= messages.Length == |was|
      invariant messages[..i] == was[..i]
      invariant messages[i..] == PruneFrom(was[i..], 0).0 && kept == PruneFrom(was[i..], 0).1
    {
      i := i - 1;
      ghost var newer := messages[i + 1..];
      assert was[i] == was[..i + 1][i] == messages[i];
      PruneOlder(was, i);
      var m, more := PruneMessage(messages[i], kept);
      messages[i], kept := m, more;
      assert messages[i..] == [m] + newer;
      assert messages[..i] == was[..i + 1][..i];
    }
    assert messages[0..] == messages[..] && was[0..] == was;
  }

  // ---- what pruning keeps -----------------------------------------------------------------------------------------

  lemma {:induction false} PruneBlocksIdempotent(blocks: seq<ContentBlock>, kept: nat)
    ensures PruneBlocks(PruneBlocks(blocks, kept).0, kept) == PruneBlocks(blocks, kept)
  {
    if blocks != [] {
      var first := PruneBlock(blocks[0], kept);
      PruneBlocksIdempotent(blocks[1..], first.1);
      assert PruneBlocks(blocks, kept).0[1..] == PruneBlocks(blocks[1..], first.1).0;
    }
  }

  lemma {:induction false} PruneFromIdempotent(h: History, kept: nat)
    ensures PruneFrom(PruneFrom(h, kept).0, kept) == PruneFrom(h, kept)
  {
    if h != [] {
      var m, h' := h[|h| - 1], PruneFrom(h, kept).0;
      PruneBlocksIdempotent(m.blocks, kept);
      PruneFromIdempotent(h[..|h| - 1], PruneBlocks(m.blocks, kept).1);
      assert h'[..|h'| - 1] == PruneFrom(h[..|h| - 1], PruneBlocks(m.blocks, kept).1).0;
    }
  }

  lemma PruneIsIdempotent(h: History)
    ensures Prune(Prune(h)) == Prune(h)
  {
    PruneFromIdempotent(h, 0);
  }

  lemma {:induction false} PruneBlocksKeeps(blocks: seq<ContentBlock>, kept: nat)
    ensures var blocks' := PruneBlocks(blocks, kept).0;
      && UseIds(blocks') == UseIds(blocks) && ResultIds(blocks') == ResultIds(blocks)
      && BlocksTokens(blocks') <= BlocksTokens(blocks)
  {
    if blocks != [] {
      var first := PruneBlock(blocks[0], kept);
      PruneBlocksKeeps(blocks[1..], first.1);
      var blocks' := PruneBlocks(blocks, kept).0;
      assert blocks'[0] == first.0 && blocks'[1..] == PruneBlocks(blocks[1..], first.1).0;
      PruneBlockShrinks(blocks[0], kept);
    }
  }

  lemma {:induction false} BytesPerChar(s: string)
    ensures |s| <= ByteLength(s) <= 4 * |s| && (!Wide(s) ==> ByteLength(s) == |s|)
  {
    if s != [] {
      BytesPerChar(s[1..]);
      if !Wide(s) {
        assert s[0] as int <= 0x7F;
        assert forall i :: 0 <= i < |s[1..]| ==> s[1..][i] == s[i + 1];
      }
    }
  }

  lemma MarkerIsShort()
    ensures TextTokens(PRUNED_MARKER) <= 60
  {
  }

  /** A pruned output is over 1000 bytes, so at least 251 characters: the marker never counts for more. */
  lemma PruneBlockShrinks(b: ContentBlock, kept: nat)
    ensures BlockTokens(PruneBlock(b, kept).0) <= BlockTokens(b)
  {
    if b.ToolResult? {
      BytesPerChar(b.output);
      MarkerIsShort();
    }
  }

  /** Same roles, tool uses and tool results, message by message. */
  ghost predicate SameShape(h: History, h': History) {
    && |h| == |h'|
    && forall i :: 0 <= i < |h| ==>
         h'[i].role == h[i].role && Uses(h'[i]) == Uses(h[i]) && Results(h'[i]) == Results(h[i])
  }

  /** A message and its pruned form: all but outputs unchanged, every call id there, and no higher count. */
  ghost predicate IsPruned(m: ChatMessage, m': ChatMessage) {
    m' == m.(blocks := m'.blocks) && Uses(m') == Uses(m) && Results(m') == Results(m) && Recount(m') <= Recount(m)
  }

  lemma {:induction false} EachIsPruned(h: History, kept: nat)
    ensures forall i :: 0 <= i < |h| ==> IsPruned(h[i], PruneFrom(h, kept).0[i])
  {
    if h != [] {
      var m, init := h[|h| - 1], h[..|h| - 1];
      var last := PruneBlocks(m.blocks, kept);
      PruneBlocksKeeps(m.blocks, kept);
      EachIsPruned(init, last.1);
      forall i | 0 <= i < |h| ensures IsPruned(h[i], PruneFrom(h, kept).0[i]) {
        if i < |init| {
          assert PruneFrom(h, kept).0[i] == PruneFrom(init, last.1).0[i] && init[i] == h[i];
        } else {
          assert PruneFrom(h, kept).0[i] == m.(blocks := last.0);
        }
      }
    }
  }

  /** Message by message, pruning keeps everything but outputs, every call id, and never raises a count. */
  lemma PruneKeeps(h: History, kept: nat)
    ensures var h' := PruneFrom(h, kept).0;
      && SameShape(h, h')
      && forall i :: 0 <= i < |h| ==> h'[i] == h[i].(blocks := h'[i].blocks) && Recount(h'[i]) <= Recount(h[i])
  {
    EachIsPruned(h, kept);
    forall i | 0 <= i < |h| ensures IsPruned(h[i], PruneFrom(h, kept).0[i]) { }
  }

  lemma {:induction false} SameShapeKeepsPairing(h: History, h': History)
    requires SameShape(h, h')
    ensures RoleDiscipline(h) ==> RoleDiscipline(h')
    ensures WellPaired(h) ==> WellPaired(h')
    decreases |h|
  {
    if h != [] && WellPaired(h) {
      var n := 1 + |Uses(h[0])|;
      assert SameShape(h[n..], h'[n..]);
      SameShapeKeepsPairing(h[n..], h'[n..]);
    }
  }

  /** The newest message keeps its first tool result: pruning starts with nothing kept. */
  lemma PruneKeepsLastSingle(h: History)
    requires h != [] && |h[|h| - 1].blocks| == 1
    ensures |Prune(h)| == |h| && Prune(h)[|h| - 1] == h[|h| - 1]
    ensures Prune(h)[..|h| - 1] == PruneFrom(h[..|h| - 1], PruneBlocks(h[|h| - 1].blocks, 0).1).0
  {
    var m := h[|h| - 1];
    assert PruneBlocks(m.blocks, 0).0 == [PruneBlock(m.blocks[0], 0).0] == m.blocks;
  }

  /** Bytes of tool output not pruned yet. */
  function OutputBytes(blocks: seq<ContentBlock>): nat {
    if blocks == [] then 0
    else
      (if blocks[0].ToolResult? && blocks[0].output != PRUNED_MARKER then ByteLength(blocks[0].output) else 0)
      + OutputBytes(blocks[1..])
  }

  function HistoryBytes(h: History): nat {
    if h == [] then 0 else OutputBytes(h[|h| - 1].blocks) + HistoryBytes(h[..|h| - 1])
  }

  predicate Short(blocks: seq<ContentBlock>) {
    forall b <- blocks :: b.ToolResult? ==> b.output == PRUNED_MARKER || ByteLength(b.output) <= MIN_PRUNABLE_BYTES
  }

  lemma {:induction false} PruneBlocksWindow(blocks: seq<ContentBlock>, kept: nat)
    ensures var r := PruneBlocks(blocks, kept);
      && (r.1 >= KEEP_RECENT_TOOL_BYTES <==> kept + OutputBytes(blocks) >= KEEP_RECENT_TOOL_BYTES)
      && (kept + OutputBytes(blocks) < KEEP_RECENT_TOOL_BYTES ==> r.0 == blocks && r.1 == kept + OutputBytes(blocks))
      && (kept >= KEEP_RECENT_TOOL_BYTES ==> Short(r.0))
  {
    if blocks != [] {
      var first := PruneBlock(blocks[0], kept);
      PruneBlocksWindow(blocks[1..], first.1);
      assert blocks == [blocks[0]] + blocks[1..];
    }
  }

  /** Below the window nothing changes; the window is full exactly once enough output was kept. */
  lemma {:induction false} PruneWindow(h: History, kept: nat)
    ensures PruneFrom(h, kept).1 >= KEEP_RECENT_TOOL_BYTES <==> kept + HistoryBytes(h) >= KEEP_RECENT_TOOL_BYTES
    ensures kept + HistoryBytes(h) < KEEP_RECENT_TOOL_BYTES ==>
      PruneFrom(h, kept).0 == h && PruneFrom(h, kept).1 == kept + HistoryBytes(h)
  {
    if h != [] {
      var m, init := h[|h| - 1], h[..|h| - 1];
      var last := PruneBlocks(m.blocks, kept);
      PruneBlocksWindow(m.blocks, kept);
      PruneWindow(init, last.1);
      if kept + HistoryBytes(h) < KEEP_RECENT_TOOL_BYTES {
        assert m.(blocks := last.0) == m && init + [m] == h;
      }
    }
  }

  /**
   * Exactly which output goes: while the output from message `i` on is below the window nothing there changes;
   * once the output after message `i` fills the window, only short outputs and markers are left in it.
   */
  lemma PruneKeepsRecentOnly(h: History, i: nat)
    requires i < |h|
    ensures HistoryBytes(h[i..]) < KEEP_RECENT_TOOL_BYTES ==> Prune(h)[i] == h[i]
    ensures HistoryBytes(h[i + 1..]) >= KEEP_RECENT_TOOL_BYTES ==> Short(Prune(h)[i].blocks)
  {
    assert h == h[..i] + h[i..];
    PruneSplit(h[..i], h[i..], 0);
    assert Prune(h)[i] == PruneFrom(h[i..], 0).0[0];
    PruneOlder(h, i);
    PruneWindow(h[i..], 0);
    PruneWindow(h[i + 1..], 0);
    PruneBlocksWindow(h[i].blocks, PruneFrom(h[i + 1..], 0).1);
  }

  // ---- runs -------------------------------------------------------------------------------------------------------

  /** The agent loop's compression step: compress, prune, fill the caches. `None` is an error. */
  function CompressStep(h: History, meta: Meta, tail: nat, should: bool, summarize: Summarizer): Option<(History, Meta)> {
    match Compress(h, meta, tail, should, summarize)
    case None => None
    case Some(r) => Some((RefreshAll(Prune(r.0)), r.1))
  }

  datatype Event =
    | Append(message: ChatMessage)
    | Discard
    | Shrink(tail: nat, should: bool, summarize: Summarizer)

  datatype Ledger = Ledger(history: History, meta: Meta)

  /** New messages are cached as they arrive; a failed compression leaves everything as it was. */
  function Next(l: Ledger, e: Event): Ledger {
    match e
    case Append(m) => l.(history := l.history + [Refresh(m)])
    case Discard => if l.history == [] then l else l.(history := l.history[..|l.history| - 1])
    case Shrink(tail, should, summarize) =>
      match CompressStep(l.history, l.meta, tail, should, summarize)
      case None => l
      case Some(r) => Ledger(r.0, r.1)
  }

  function Run(l: Ledger, events: seq<Event>): Ledger {
    if events == [] then l else Next(Run(l, events[..|events| - 1]), events[|events| - 1])
  }

  predicate CoversOne(m: ChatMessage) { Estimate(m) >= Recount(m) }

  /** No cached count is below what the message's content now costs. */
  predicate Covers(h: History) { forall i :: 0 <= i < |h| ==> CoversOne(h[i]) }

  lemma PruneKeepsCovers(h: History)
    requires Covers(h)
    ensures Covers(RefreshAll(Prune(h)))
  {
    PruneKeeps(h, 0);
    var h' := RefreshAll(Prune(h));
    forall i | 0 <= i < |h'| ensures CoversOne(h'[i]) {
      assert CoversOne(h[i]);
    }
  }

  lemma {:induction false} SurvivorsKeepCovers(h: History, lo: nat, hi: nat)
    requires lo <= hi <= |h| && Covers(h)
    ensures Covers(Survivors(h, lo, hi))
    decreases hi - lo
  {
    if lo < hi {
      SurvivorsKeepCovers(h, lo + 1, hi);
    }
  }

  lemma CompactedKeepsCovers(h: History, h': History, first: nat, cut: nat, summary: ChatMessage)
    requires Covers(h) && CoversOne(summary) && Compacted(h, h', first, cut, summary)
    ensures Covers(h')
  {
    SurvivorsKeepCovers(h, first, cut);
  }

  lemma CompressKeepsCovers(h: History, meta: Meta, tail: nat, should: bool, summarize: Summarizer)
    requires Covers(h) && Compress(h, meta, tail, should, summarize).Some?
    ensures Covers(Compress(h, meta, tail, should, summarize).value.0)
  {
    CompressShape(h, meta, tail, should, summarize);
    var r := Compress(h, meta, tail, should, summarize).value;
    if r != (h, meta) {
      var cut := CutFor(h, tail);
      var removed := Pick(h, Unprotected(h, 0, cut));
      CompactedKeepsCovers(h, r.0, Unprotected(h, 0, cut)[0], cut, SummaryMessage(r.1.compactSummary.value, removed));
    }
  }

  ghost predicate ArriveUncached(events: seq<Event>) {
    forall i :: 0 <= i < |events| && events[i].Append? ==> events[i].message.estimatedTokens.None?
  }

  /** Over every run in which messages arrive uncached, every cached count covers its message. */
  lemma {:induction false} CachesCoverContent(l: Ledger, events: seq<Event>)
    requires Covers(l.history) && ArriveUncached(events)
    ensures Covers(Run(l, events).history)
  {
    if events != [] {
      var before, e := Run(l, events[..|events| - 1]), events[|events| - 1];
      CachesCoverContent(l, events[..|events| - 1]);
      if e.Shrink? && CompressStep(before.history, before.meta, e.tail, e.should, e.summarize).Some? {
        CompressKeepsCovers(before.history, before.meta, e.tail, e.should, e.summarize);
        PruneKeepsCovers(Compress(before.history, before.meta, e.tail, e.should, e.summarize).value.0);
      }
    }
  }

  predicate AllCached(h: History) { forall i :: 0 <= i < |h| ==> h[i].estimatedTokens.Some? }

  /** Once every message is cached, every message stays cached: no count is taken twice. */
  lemma {:induction false} EveryMessageStaysCached(l: Ledger, events: seq<Event>)
    requires AllCached(l.history)
    ensures AllCached(Run(l, events).history)
  {
    if events != [] {
      EveryMessageStaysCached(l, events[..|events| - 1]);
    }
  }

  lemma {:induction false} CoversTotal(h: History)
    requires Covers(h)
    ensures RecountTotal(h) <= Total(h)
  {
    if h != [] {
      assert CoversOne(h[|h| - 1]);
      CoversTotal(h[..|h| - 1]);
    }
  }

  /** So a history that passes the budget check on cached counts would pass it when counted afresh. */
  lemma BudgetCheckIsSafe(l: Ledger, events: seq<Event>, overhead: nat, available: nat)
    requires Covers(l.history) && ArriveUncached(events)
    requires overhead + Total(Run(l, events).history) <= available
    ensures overhead + RecountTotal(Run(l, events).history) <= available
  {
    CachesCoverContent(l, events);
    CoversTotal(Run(l, events).history);
  }

  // ---- what the counts say about the text -------------------------------------------------------------------------

  /** A quarter of the characters, or half of them if there is any beyond ASCII, and ten more. */
  lemma TextTokensAre(s: string)
    ensures var n := TextTokens(s) - 10;
      if exists i :: 0 <= i < |s| && s[i] as int > 127 then 2 * n <= |s| < 2 * n + 2 else 4 * n <= |s| < 4 * n + 4
  {
  }

  /** What a block costs beside its text. */
  lemma BlockTokensAre(b: ContentBlock)
    ensures BlockTokens(b) - TextTokens(BlockText(b)) ==
      if b.ToolUse? then 20 else if b.ToolResult? then 15 else if b.Image? then 100 else if b.Document? then 150 else 0
  {
  }

  /** The characters of a message: of all its blocks and of its reasoning. */
  function BlocksChars(blocks: seq<ContentBlock>): nat {
    if blocks == [] then 0 else |BlockText(blocks[0])| + BlocksChars(blocks[1..])
  }

  function MessageChars(m: ChatMessage): nat { BlocksChars(m.blocks) + (if m.reasoning.Some? then |m.reasoning.value| else 0) }

  function CharsTotal(h: History): nat { if h == [] then 0 else CharsTotal(h[..|h| - 1]) + MessageChars(h[|h| - 1]) }

  lemma {:induction false} BlocksCoverChars(blocks: seq<ContentBlock>)
    ensures BlocksChars(blocks) <= 4 * BlocksTokens(blocks)
  {
    if blocks != [] {
      TextTokensAre(BlockText(blocks[0]));
      BlockTokensAre(blocks[0]);
      BlocksCoverChars(blocks[1..]);
    }
  }

  lemma RecountCoversChars(m: ChatMessage)
    ensures MessageChars(m) + 40 <= 4 * Recount(m)
  {
    BlocksCoverChars(m.blocks);
    if m.reasoning.Some? {
      TextTokensAre(m.reasoning.value);
    }
  }

  lemma {:induction false} TotalCoversChars(h: History)
    ensures CharsTotal(h) + 40 * |h| <= 4 * RecountTotal(h)
  {
    if h != [] {
      TotalCoversChars(h[..|h| - 1]);
      RecountCoversChars(h[|h| - 1]);
    }
  }

  /** A history that passes the budget check on cached counts has at most four characters for each token available. */
  lemma PassingHistoryIsSmall(l: Ledger, events: seq<Event>, overhead: nat, available: nat)
    requires Covers(l.history) && ArriveUncached(events)
    requires overhead + Total(Run(l, events).history) <= available
    ensures var h := Run(l, events).history; CharsTotal(h) + 40 * |h| <= 4 * (available - overhead)
  {
    BudgetCheckIsSafe(l, events, overhead, available);
    TotalCoversChars(Run(l, events).history);
  }

  /**
   * A compression step leaves as many messages as the compression, each with its count cached and otherwise as it was,
   * except that tool output goes from a message once the output after it amounts to 40000 bytes, unless it is no longer
   * than 1000; while the output from a message on is below that, nothing of it goes.
   */
  lemma CompressStepPrunes(h: History, meta: Meta, tail: nat, should: bool, summarize: Summarizer, i: nat)
    requires Compress(h, meta, tail, should, summarize).Some? && i < |Compress(h, meta, tail, should, summarize).value.0|
    ensures var was := Compress(h, meta, tail, should, summarize).value;
      var step := CompressStep(h, meta, tail, should, summarize);
      && step.Some? && step.value.1 == was.1 && |step.value.0| == |was.0| && step.value.0[i].estimatedTokens.Some?
      && (was.0[i].estimatedTokens.Some? ==> step.value.0[i].estimatedTokens == was.0[i].estimatedTokens)
      && (HistoryBytes(was.0[i..]) < 40_000 ==> step.value.0[i].(estimatedTokens := None) == was.0[i].(estimatedTokens := None))
      && (HistoryBytes(was.0[i + 1..]) >= 40_000 ==>
            forall b <- step.value.0[i].blocks :: b.ToolResult? && b.output != PRUNED_MARKER ==> ByteLength(b.output) <= 1_000)
  {
    PruneKeepsRecentOnly(Compress(h, meta, tail, should, summarize).value.0, i);
    PruneKeeps(Compress(h, meta, tail, should, summarize).value.0, 0);
  }
}
