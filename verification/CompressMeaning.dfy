/**
 What one compression does, in terms of the messages alone: which are summarised, what the summariser is given, and
 what the history is afterwards.
 */
module CompressMeaning {
  import opened Options
  import opened Messages
  import opened Compaction
  import opened ContextManager
  import HistoryRuns

  // ---- which messages go ------------------------------------------------------------------------------------------

  /** `kept` holds the result of a tool use in `earlier`, or both are parts of one assistant message. */
  ghost predicate HoldsOnTo(kept: ChatMessage, earlier: ChatMessage) {
    || (exists a, b :: 0 <= a < |earlier.blocks| && 0 <= b < |kept.blocks| && AnswersUse(kept.blocks[b], earlier.blocks[a]))
    || (kept.role == Assistant && earlier.role == Assistant && kept.messageId.Some? && earlier.messageId == kept.messageId)
  }

  predicate AnswersUse(result: ContentBlock, use: ContentBlock) {
    result.ToolResult? && use.ToolUse? && result.callId == use.callId
  }

  lemma {:induction false} UseIdsAre(blocks: seq<ContentBlock>, id: string)
    ensures id in UseIds(blocks) <==> exists a :: 0 <= a < |blocks| && blocks[a].ToolUse? && blocks[a].callId == id
    ensures id in ResultIds(blocks) <==> exists a :: 0 <= a < |blocks| && blocks[a].ToolResult? && blocks[a].callId == id
  {
    if blocks != [] {
      UseIdsAre(blocks[1..], id);
      assert forall a :: 0 < a < |blocks| ==> blocks[a] == blocks[1..][a - 1];
      assert forall a :: 0 <= a < |blocks| - 1 ==> blocks[1..][a] == blocks[a + 1];
    }
  }

  lemma DependsMeans(kept: ChatMessage, earlier: ChatMessage)
    ensures DependsOn(kept, earlier) <==> HoldsOnTo(kept, earlier)
  {
    if Overlaps(Uses(earlier), Results(kept)) {
      var k :| 0 <= k < |Uses(earlier)| && Uses(earlier)[k] in Results(kept);
      UseIdsAre(earlier.blocks, Uses(earlier)[k]);
      UseIdsAre(kept.blocks, Uses(earlier)[k]);
    }
    if a, b :| 0 <= a < |earlier.blocks| && 0 <= b < |kept.blocks| && AnswersUse(kept.blocks[b], earlier.blocks[a]) {
      var id := earlier.blocks[a].callId;
      UseIdsAre(earlier.blocks, id);
      UseIdsAre(kept.blocks, id);
      var k :| 0 <= k < |Uses(earlier)| && Uses(earlier)[k] == id;
      assert Uses(earlier)[k] in Results(kept);
    }
  }

  /** No message from `cut` on holds on to one before it. */
  ghost predicate Separates(h: History, cut: nat) {
    forall i, k :: 0 <= i < cut <= k < |h| ==> !HoldsOnTo(h[k], h[i])
  }

  lemma ClosedIsSeparates(h: History, cut: nat)
    requires cut <= |h|
    ensures Closed(h, 0, cut) <==> Separates(h, cut)
  {
    forall i, k | 0 <= i < |h| && 0 <= k < |h| ensures DependsOn(h[k], h[i]) <==> HoldsOnTo(h[k], h[i]) {
      DependsMeans(h[k], h[i]);
    }
    if Separates(h, cut) {
      forall i | 0 <= i < cut ensures !Needed(h, cut, i) { }
    }
    if Closed(h, 0, cut) {
      forall i, k | 0 <= i < cut <= k < |h| ensures !HoldsOnTo(h[k], h[i]) {
        assert !Needed(h, cut, i);
      }
    }
  }

  /** Message `i` has an id and comes after something other than a system message. */
  ghost predicate CanBePivot(h: History, i: nat) {
    i < |h| && h[i].messageId.Some? && exists j :: 0 <= j < i && h[j].role != System
  }

  /**
   The furthest the cut may go: to the first message with the id of the last possible pivot before the protected tail,
   or up to the tail if there is no pivot.
   */
  ghost predicate IsLimit(h: History, tail: nat, limit: nat) {
    var end := if |h| <= tail then 0 else |h| - tail;
    limit <= end &&
    if forall i :: 0 <= i < end ==> !CanBePivot(h, i) then limit == end
    else exists i ::
      && limit <= i < end && CanBePivot(h, i) && (forall k :: i < k < end ==> !CanBePivot(h, k))
      && h[limit].messageId == h[i].messageId && forall k :: 0 <= k < limit ==> h[k].messageId != h[i].messageId
  }

  /** The greatest cut within the limit that separates. */
  ghost predicate IsCut(h: History, limit: nat, cut: nat) {
    cut <= limit <= |h| && Separates(h, cut) && forall c :: cut < c <= limit ==> !Separates(h, c)
  }

  /** In order, the messages before the cut that are neither system messages nor the first user message. */
  ghost predicate AreCandidates(h: History, cut: nat, c: seq<nat>) {
    && (forall k, l :: 0 <= k < l < |c| ==> c[k] < c[l])
    && (forall k :: 0 <= k < |c| ==> c[k] < |h|)
    && (forall i :: i in c <==> 0 <= i < cut && i < |h| && MayGo(h, i))
  }

  ghost predicate MayGo(h: History, i: nat)
    requires i < |h|
  {
    h[i].role != System && !(h[i].role == User && forall j :: 0 <= j < i ==> h[j].role != User)
  }

  // ---- the history afterwards -------------------------------------------------------------------------------------

  /** The messages from `lo` on whose positions are not in `c`. */
  function Without(h: History, lo: nat, c: seq<nat>): History
    requires lo <= |h|
    decreases |h| - lo
  {
    if lo == |h| then [] else if lo in c then Without(h, lo + 1, c) else [h[lo]] + Without(h, lo + 1, c)
  }

  /** The message that stands for the removed ones: their first id, their last time. */
  ghost predicate StandsFor(m: ChatMessage, removed: History, text: string) {
    && removed != [] && m.role == Assistant && m.blocks == [Text("auto_compact:\n" + text)]
    && m.timestampMs == removed[|removed| - 1].timestampMs
    && m.apiUsageTokens.None? && m.reasoning.None? && m.estimatedTokens.None?
    && (if forall k :: 0 <= k < |removed| ==> removed[k].messageId.None? then m.messageId.None?
        else exists k :: 0 <= k < |removed| && m.messageId.Some? && m.messageId == removed[k].messageId
               && forall j :: 0 <= j < k ==> removed[j].messageId.None?)
  }

  /** A message that looks like a summary. */
  ghost predicate LooksLikeSummary(m: ChatMessage) {
    m.role == Assistant && exists k :: 0 <= k < |m.blocks| && m.blocks[k].Text? && "auto_compact:\n" <= m.blocks[k].text
  }

  lemma {:induction false} FirstIdIs(h: History)
    ensures if forall k :: 0 <= k < |h| ==> h[k].messageId.None? then FirstMessageId(h).None?
      else exists k :: 0 <= k < |h| && FirstMessageId(h).Some? && FirstMessageId(h) == h[k].messageId
             && forall j :: 0 <= j < k ==> h[j].messageId.None?
  {
    if h != [] && h[0].messageId.None? {
      FirstIdIs(h[1..]);
      if k :| 0 <= k < |h[1..]| && FirstMessageId(h[1..]) == h[1..][k].messageId
              && FirstMessageId(h[1..]).Some? && forall j :: 0 <= j < k ==> h[1..][j].messageId.None? {
        assert h[k + 1] == h[1..][k] && forall j :: 0 < j < k + 1 ==> h[j] == h[1..][j - 1];
      } else {
        assert forall j :: 0 < j < |h| ==> h[j] == h[1..][j - 1];
      }
    }
  }

  lemma SummaryStandsFor(text: string, removed: History)
    requires removed != []
    ensures StandsFor(SummaryMessage(text, removed), removed, text)
  {
    FirstIdIs(removed);
  }

  lemma {:induction false} SurvivorsAreWithout(h: History, lo: nat, cut: nat, c: seq<nat>)
    requires lo <= cut <= |h| && forall i :: lo <= i < |h| ==> (i in c <==> i < cut && !Protected(h, i))
    ensures Survivors(h, lo, cut) + h[cut..] == Without(h, lo, c)
    decreases cut - lo
  {
    if lo == cut {
      WithoutFrom(h, lo, c);
    } else {
      SurvivorsAreWithout(h, lo + 1, cut, c);
    }
  }

  lemma {:induction false} WithoutFrom(h: History, lo: nat, c: seq<nat>)
    requires lo <= |h| && forall i :: lo <= i < |h| ==> i !in c
    ensures Without(h, lo, c) == h[lo..]
    decreases |h| - lo
  {
    if lo < |h| {
      WithoutFrom(h, lo + 1, c);
    }
  }

  // ---- the cut ----------------------------------------------------------------------------------------------------

  lemma PivotsAre(h: History, i: nat)
    requires i < |h|
    ensures IsPivot(h, i) <==> CanBePivot(h, i)
  {
  }

  /** The limit at the last pivot `i` before `end`. */
  lemma LimitAtPivot(h: History, tail: nat, i: nat, pivot: string)
    requires var end := SaturatingSub(|h|, tail); i < end && IsLastPivot(h, i, end) && h[i].messageId == Some(pivot)
    ensures IsLimit(h, tail, PositionOf(h, pivot, 0)) && PositionOf(h, pivot, 0) < |h|
  {
    var end := SaturatingSub(|h|, tail);
    forall k | 0 <= k < |h| ensures IsPivot(h, k) <==> CanBePivot(h, k) { PivotsAre(h, k); }
    PositionIs(h, pivot, 0, i);
    assert CanBePivot(h, i) && forall k :: i < k < end ==> !CanBePivot(h, k);
  }

  lemma LimitWithoutPivot(h: History, tail: nat)
    requires var end := SaturatingSub(|h|, tail); forall i :: 0 <= i < end ==> !IsPivot(h, i)
    ensures IsLimit(h, tail, SaturatingSub(|h|, tail))
  {
    forall k | 0 <= k < |h| ensures IsPivot(h, k) <==> CanBePivot(h, k) { PivotsAre(h, k); }
  }

  lemma LimitIs(h: History, tail: nat) returns (limit: nat)
    ensures IsLimit(h, tail, limit) && limit <= |h| && CutFor(h, tail) == AdjustKeepStart(h, limit, 0)
  {
    var end := SaturatingSub(|h|, tail);
    DiscoveredIsLast(h, end);
    match DiscoverBoundary(h, tail)
    case None =>
      limit := end;
      LimitWithoutPivot(h, tail);
    case Some(b) =>
      limit := PositionOf(h, b.pivot, 0);
      var i :| 0 <= i < end && IsLastPivot(h, i, end) && h[i].messageId == Some(b.pivot);
      LimitAtPivot(h, tail, i, b.pivot);
  }

  lemma {:induction false} PositionIs(h: History, id: string, from: nat, at: nat)
    requires from <= at < |h| && h[at].messageId == Some(id)
    ensures var p := PositionOf(h, id, from);
      from <= p <= at && h[p].messageId == Some(id) && forall k :: from <= k < p ==> h[k].messageId != Some(id)
    decreases at - from
  {
    if h[from].messageId != Some(id) {
      PositionIs(h, id, from + 1, at);
    }
  }

  lemma CutIs(h: History, tail: nat) returns (limit: nat)
    ensures IsLimit(h, tail, limit) && IsCut(h, limit, CutFor(h, tail))
  {
    limit := LimitIs(h, tail);
    AdjustedCutIsGreatestClosed(h, limit, 0);
    forall c | 0 <= c <= |h| ensures Closed(h, 0, c) <==> Separates(h, c) {
      ClosedIsSeparates(h, c);
    }
  }

  lemma CandidatesAre(h: History, cut: nat)
    requires cut <= |h|
    ensures AreCandidates(h, cut, Unprotected(h, 0, cut))
  {
    forall i: nat ensures i in Unprotected(h, 0, cut) <==> i < cut && i < |h| && MayGo(h, i) {
      UnprotectedMember(h, 0, cut, i);
      if i < |h| {
        assert Protected(h, i) <==> !MayGo(h, i);
      }
    }
  }

  // ---- one compression --------------------------------------------------------------------------------------------

  /** The messages at the given positions. */
  ghost function Removed(h: History, c: seq<nat>): History
    requires forall k :: 0 <= k < |c| ==> c[k] < |h|
  {
    seq(|c|, k requires 0 <= k < |c| => h[c[k]])
  }

  /** What the summariser is told of the recorded summary: nothing if a summary is among the removed messages. */
  ghost function Told(removed: History, meta: Meta): Option<string> {
    if exists m <- removed :: LooksLikeSummary(m) then None else meta.compactSummary
  }

  /** A compression that removes something is decided by one answer of the summariser. */
  ghost predicate IsCompressed(h: History, meta: Meta, c: seq<nat>, answer: Option<string>, r: Option<(History, Meta)>)
    requires c != [] && forall k :: 0 <= k < |c| ==> c[k] < |h|
  {
    match answer
    case None => r.None?
    case Some(text) =>
      && r.Some? && r.value.1 == Meta(Some((if meta.lastCompactTurn.Some? then meta.lastCompactTurn.value else 0) + 1), Some(text))
      && c[0] < |r.value.0| && StandsFor(r.value.0[c[0]], Removed(h, c), text)
      && r.value.0 == h[..c[0]] + [r.value.0[c[0]]] + Without(h, c[0], c)
  }

  lemma ReplacedIs(h: History, cut: nat, m: ChatMessage)
    requires cut <= |h| && Unprotected(h, 0, cut) != []
    ensures var c := Unprotected(h, 0, cut); var h' := Replaced(h, c, m, |h|);
      c[0] < |h'| && h'[c[0]] == m && h' == h[..c[0]] + [m] + Without(h, c[0], c)
  {
    var c := Unprotected(h, 0, cut);
    ReplacedShape(h, cut, m);
    forall i | c[0] <= i < |h| ensures i in c <==> i < cut && !Protected(h, i) {
      UnprotectedMember(h, 0, cut, i);
    }
    SurvivorsAreWithout(h, c[0], cut, c);
    assert h[..c[0]] + [m] + Survivors(h, c[0], cut) + h[cut..] == h[..c[0]] + [m] + (Survivors(h, c[0], cut) + h[cut..]);
  }

  lemma ToldIsPrevious(removed: History, meta: Meta)
    ensures PreviousSummary(removed, meta) == Told(removed, meta)
  {
    assert forall m :: IsSummary(m) <==> LooksLikeSummary(m);
    if exists m <- removed :: LooksLikeSummary(m) {
      var m :| m in removed && LooksLikeSummary(m);
      var k :| 0 <= k < |removed| && removed[k] == m;
      assert IsSummary(removed[k]);
    }
  }

  lemma SummarizedIs(h: History, meta: Meta, cut: nat, summarize: Summarizer)
    requires cut <= |h| && Unprotected(h, 0, cut) != []
    ensures var c := Unprotected(h, 0, cut);
      IsCompressed(h, meta, c, summarize(Removed(h, c), Told(Removed(h, c), meta)), Summarized(h, meta, c, summarize))
  {
    var c := Unprotected(h, 0, cut);
    var removed := Pick(h, c);
    assert removed == Removed(h, c);
    ToldIsPrevious(removed, meta);
    var answer := summarize(removed, Told(removed, meta));
    if answer.Some? {
      SummaryStandsFor(answer.value, removed);
      ReplacedIs(h, cut, SummaryMessage(answer.value, removed));
    }
  }

  /**
   Below the threshold nothing changes. Above it the cut is the greatest within the limit that separates, and the
   messages before it, but for system messages and the first user message, are the candidates. Without candidates
   nothing changes; with some, one application of the summariser to them decides: it fails exactly if that does, and
   otherwise its text, in one message at the first candidate's place, stands for them, the other messages stay in order,
   the text is recorded and the turn raised by one.
   */
  lemma CompressMeans(h: History, meta: Meta, tail: nat, should: bool, summarize: Summarizer)
    returns (limit: nat, cut: nat, c: seq<nat>)
    ensures IsLimit(h, tail, limit) && IsCut(h, limit, cut) && AreCandidates(h, cut, c)
    ensures cut == CutFor(h, tail) && c == Unprotected(h, 0, cut)
    ensures !should || c == [] ==> Compress(h, meta, tail, should, summarize) == Some((h, meta))
    ensures should && c != [] ==>
      IsCompressed(h, meta, c, summarize(Removed(h, c), Told(Removed(h, c), meta)), Compress(h, meta, tail, should, summarize))
  {
    limit := CutIs(h, tail);
    cut := CutFor(h, tail);
    c := Unprotected(h, 0, cut);
    CandidatesAre(h, cut);
    CutIsClosed(h, tail);
    if c != [] {
      SummarizedIs(h, meta, cut, summarize);
    }
  }

  /**
   Over every run: from the second compaction on, the summariser is handed the recorded summary as the first of the
   messages, and nothing beside them.
   */
  lemma SummaryIsToldOnce(tail: nat, steps: seq<HistoryRuns.Step>, summarize: Summarizer) returns (limit: nat, cut: nat, c: seq<nat>)
    ensures var s := HistoryRuns.Run(tail, steps);
      && IsLimit(s.h, tail, limit) && IsCut(s.h, limit, cut) && AreCandidates(s.h, cut, c)
      && (c != [] ==> IsCompressed(s.h, s.meta, c, summarize(Removed(s.h, c), None), Compress(s.h, s.meta, tail, true, summarize)))
      && (c != [] && s.meta.compactSummary.Some? ==> s.h[c[0]].blocks == [Text("auto_compact:\n" + s.meta.compactSummary.value)])
  {
    var s := HistoryRuns.Run(tail, steps);
    limit, cut, c := CompressMeans(s.h, s.meta, tail, true, summarize);
    if c != [] {
      ToldNothing(tail, steps, c);
    }
  }

  lemma ToldNothing(tail: nat, steps: seq<HistoryRuns.Step>, c: seq<nat>)
    requires var s := HistoryRuns.Run(tail, steps);
      CutFor(s.h, tail) <= |s.h| && c == Unprotected(s.h, 0, CutFor(s.h, tail)) && c != []
    ensures var s := HistoryRuns.Run(tail, steps);
      && Told(Removed(s.h, c), s.meta).None?
      && (s.meta.compactSummary.Some? ==> s.h[c[0]].blocks == [Text("auto_compact:\n" + s.meta.compactSummary.value)])
  {
    var s := HistoryRuns.Run(tail, steps);
    HistoryRuns.SummaryAbsorbedOnce(tail, steps);
    assert HistoryRuns.Candidates(s, tail) == Removed(s.h, c);
    ToldIsPrevious(Removed(s.h, c), s.meta);
  }
}
