/**
 The compaction pipeline: `compress` rewrites a history by putting one summary in place of the
 removed messages. What it preserves, per call and over whole runs of appends and compressions.
 */
module ContextManager {
  import opened Options
  import opened Messages
  import opened Compaction

  const SUMMARY_PREFIX := "auto_compact:\n"

  datatype Meta = Meta(lastCompactTurn: Option<nat>, compactSummary: Option<string>)

  /** The summariser (an LLM call): `None` is an error. It sees the candidates and, maybe, the old summary. */
  type Summarizer = (History, Option<string>) -> Option<string>

  predicate IsSummary(m: ChatMessage) {
    m.role == Assistant && exists k :: 0 <= k < |m.blocks| && m.blocks[k].Text? && SUMMARY_PREFIX <= m.blocks[k].text
  }

  function FirstMessageId(h: History): Option<string> {
    if h == [] then None else if h[0].messageId.Some? then h[0].messageId else FirstMessageId(h[1..])
  }

  function SummaryMessage(text: string, candidates: History): ChatMessage
    requires candidates != []
  {
    NewMessage(Assistant, [Text(SUMMARY_PREFIX + text)], FirstMessageId(candidates),
               candidates[|candidates| - 1].timestampMs)
  }

  function Pick(h: History, indexes: seq<nat>): History
    requires forall k :: 0 <= k < |indexes| ==> indexes[k] < |h|
  {
    seq(|indexes|, k requires 0 <= k < |indexes| => h[indexes[k]])
  }

  /** Where the kept suffix starts, for the boundary `compress` discovers. */
  function CutFor(h: History, tail: nat): nat {
    match DiscoverBoundary(h, tail)
    case None => AdjustKeepStart(h, SaturatingSub(|h|, tail), 0)
    case Some(b) => AdjustKeepStart(h, PositionOf(h, b.pivot, 0), 0)
  }

  /** The old summary goes to the summariser separately unless a summary is among the candidates. */
  function PreviousSummary(removed: History, meta: Meta): Option<string> {
    if exists k :: 0 <= k < |removed| && IsSummary(removed[k]) then None else meta.compactSummary
  }

  /** Replace the candidates by one summary; `None` is a failed summary. */
  function Summarized(h: History, meta: Meta, candidates: seq<nat>, summarize: Summarizer): Option<(History, Meta)>
    requires forall k :: 0 <= k < |candidates| ==> candidates[k] < |h|
  {
    if candidates == [] then Some((h, meta))
    else
      var removed := Pick(h, candidates);
      match summarize(removed, PreviousSummary(removed, meta))
      case None => None
      case Some(text) =>
        var turn := if meta.lastCompactTurn.Some? then meta.lastCompactTurn.value else 0;
        Some((Replaced(h, candidates, SummaryMessage(text, removed), |h|), Meta(Some(turn + 1), Some(text))))
  }

  /** `auto_compact` with the boundary it discovers itself; `None` is an error. */
  function AutoCompact(h: History, meta: Meta, tail: nat, summarize: Summarizer): Option<(History, Meta)> {
    match CandidateIndexes(h, tail, DiscoverBoundary(h, tail))
    case None => None
    case Some(candidates) => Summarized(h, meta, candidates, summarize)
  }

  /** `compress`: below the threshold nothing is touched. */
  function Compress(h: History, meta: Meta, tail: nat, shouldCompact: bool, summarize: Summarizer): Option<(History, Meta)> {
    if !shouldCompact then Some((h, meta)) else AutoCompact(h, meta, tail, summarize)
  }

  // ---- one compression --------------------------------------------------------------------------------------------

  lemma {:induction false} DiscoveredPivotIsEarly(h: History, n: nat)
    requires n <= |h| && DiscoverBefore(h, n).Some?
    ensures var b := DiscoverBefore(h, n).value;
      b.direction == BeforePivot && PositionOf(h, b.pivot, 0) < n
  {
    if h[n - 1].messageId.Some? && HasRemovable(h, n - 1) {
      PositionIsFirst(h, h[n - 1].messageId.value, 0, n - 1);
    } else {
      DiscoveredPivotIsEarly(h, n - 1);
    }
  }

  lemma {:induction false} PositionIsFirst(h: History, id: string, from: nat, at: nat)
    requires from <= at < |h| && h[at].messageId == Some(id)
    ensures from <= PositionOf(h, id, from) <= at
    decreases at - from
  {
    if h[from].messageId != Some(id) {
      PositionIsFirst(h, id, from + 1, at);
    }
  }

  /** The boundary is always found again, the cut spares the tail, and the cut is closed. */
  lemma CutIsClosed(h: History, tail: nat)
    ensures CutFor(h, tail) <= SaturatingSub(|h|, tail)
    ensures Closed(h, 0, CutFor(h, tail))
    ensures CandidateIndexes(h, tail, DiscoverBoundary(h, tail)) == Some(Unprotected(h, 0, CutFor(h, tail)))
  {
    var keep := match DiscoverBoundary(h, tail)
      case None => SaturatingSub(|h|, tail)
      case Some(b) => PositionOf(h, b.pivot, 0);
    if DiscoverBoundary(h, tail).Some? {
      DiscoveredPivotIsEarly(h, SaturatingSub(|h|, tail));
    }
    AdjustedCutIsGreatestClosed(h, keep, 0);
  }

  /** One summary, at the first removed position, in place of the unprotected messages before `cut`. */
  ghost predicate Compacted(h: History, h': History, first: nat, cut: nat, summary: ChatMessage) {
    && first < cut <= |h| && !Protected(h, first)
    && (forall i :: 0 <= i < first ==> Protected(h, i))
    && h' == h[..first] + [summary] + Survivors(h, first, cut) + h[cut..]
    && summary.role == Assistant && Uses(summary) == [] && Results(summary) == [] && IsSummary(summary)
  }

  lemma SummaryMessageIsSummary(text: string, removed: History)
    requires removed != []
    ensures var m := SummaryMessage(text, removed); m.role == Assistant && Uses(m) == [] && Results(m) == [] && IsSummary(m)
  {
    TextHasNoTools(SUMMARY_PREFIX + text);
    assert SummaryMessage(text, removed).blocks[0] == Text(SUMMARY_PREFIX + text);
  }

  /** A successful compression changed nothing, or compacted everything unprotected before a closed cut. */
  lemma CompressShape(h: History, meta: Meta, tail: nat, should: bool, summarize: Summarizer)
    requires Compress(h, meta, tail, should, summarize).Some?
    ensures var r := Compress(h, meta, tail, should, summarize).value; var cut := CutFor(h, tail);
      && cut <= SaturatingSub(|h|, tail) && Closed(h, 0, cut)
      && (r != (h, meta) ==>
            && Unprotected(h, 0, cut) != [] && r.1.compactSummary.Some?
            && Compacted(h, r.0, Unprotected(h, 0, cut)[0], cut,
                         SummaryMessage(r.1.compactSummary.value, Pick(h, Unprotected(h, 0, cut)))))
  {
    CutIsClosed(h, tail);
    var cut := CutFor(h, tail);
    var r := Compress(h, meta, tail, should, summarize).value;
    if r != (h, meta) {
      var removed := Pick(h, Unprotected(h, 0, cut));
      SummaryMessageIsSummary(r.1.compactSummary.value, removed);
      ReplacedShape(h, cut, SummaryMessage(r.1.compactSummary.value, removed));
    }
  }

  // ---- tool pairing survives --------------------------------------------------------------------------------------

  lemma {:induction false} SurvivorsHaveNoTools(h: History, lo: nat, hi: nat)
    requires lo <= hi <= |h| && RoleDiscipline(h)
    ensures NoTools(Survivors(h, lo, hi))
    decreases hi - lo
  {
    if lo < hi {
      SurvivorsHaveNoTools(h, lo + 1, hi);
    }
  }

  /** What stands before the kept suffix after a compaction uses no tool and reports no result. */
  lemma CompactedFront(h: History, h': History, first: nat, cut: nat, summary: ChatMessage)
    requires Compacted(h, h', first, cut, summary) && RoleDiscipline(h)
    ensures var front := h[..first] + [summary] + Survivors(h, first, cut);
      h' == front + h[cut..] && NoTools(front)
  {
    SurvivorsHaveNoTools(h, first, cut);
    var front := h[..first] + [summary] + Survivors(h, first, cut);
    forall i | 0 <= i < |front| ensures Uses(front[i]) == [] && Results(front[i]) == [] {
      if i < first { assert Protected(h, i); }
      else if i > first { assert front[i] == Survivors(h, first, cut)[i - first - 1]; }
    }
  }

  lemma ResultNeedsUse(h: History, cut: nat, i: nat, j: nat, id: string)
    requires cut <= i < |h| && j < |h| && id in Results(h[i]) && id in Uses(h[j])
    ensures Needed(h, cut, j)
  {
    var k :| 0 <= k < |Uses(h[j])| && Uses(h[j])[k] == id;
    assert Overlaps(Uses(h[j]), Results(h[i]));
    assert DependsOn(h[i], h[j]);
  }

  /** A successful compression is a tool-free front and a suffix kept whole from a closed cut on. */
  lemma CompressSplits(h: History, meta: Meta, tail: nat, should: bool, summarize: Summarizer)
    returns (front: History, cut: nat)
    requires Compress(h, meta, tail, should, summarize).Some? && RoleDiscipline(h)
    ensures cut <= SaturatingSub(|h|, tail) && Closed(h, 0, cut) && NoTools(front)
    ensures Compress(h, meta, tail, should, summarize).value.0 == front + h[cut..]
  {
    CompressShape(h, meta, tail, should, summarize);
    var r := Compress(h, meta, tail, should, summarize).value;
    front, cut := [], 0;
    if r != (h, meta) {
      cut := CutFor(h, tail);
      var first := Unprotected(h, 0, cut)[0];
      var summary := SummaryMessage(r.1.compactSummary.value, Pick(h, Unprotected(h, 0, cut)));
      front := h[..first] + [summary] + Survivors(h, first, cut);
      CompactedFront(h, r.0, first, cut, summary);
    }
  }

  /**
   Compaction keeps the pairing: role discipline, results after their uses, and a suffix kept
   whole behind a tool-free front, so a retained use keeps every result that came after it.
   */
  lemma CompressKeepsPairing(h: History, meta: Meta, tail: nat, should: bool, summarize: Summarizer)
    requires Compress(h, meta, tail, should, summarize).Some?
    requires RoleDiscipline(h) && ResultsFollowUses(h)
    ensures var h' := Compress(h, meta, tail, should, summarize).value.0;
      RoleDiscipline(h') && ResultsFollowUses(h') && exists cut :: KeepsSuffix(h, h', cut)
  {
    var front, cut := CompressSplits(h, meta, tail, should, summarize);
    SuffixKeepsPairing(h, front, cut);
    var h' := front + h[cut..];
    assert h'[..|front|] == front && h'[|front|..] == h[cut..];
    assert KeepsSuffix(h, h', cut);
  }

  /** `h'` ends with `h[cut..]` unchanged, and what it has in front involves no tool. */
  ghost predicate KeepsSuffix(h: History, h': History, cut: nat) {
    && cut <= |h| && |h| - cut <= |h'|
    && h'[|h'| - (|h| - cut)..] == h[cut..]
    && NoTools(h'[..|h'| - (|h| - cut)])
  }

  lemma SuffixKeepsPairing(h: History, front: History, cut: nat)
    requires cut <= |h| && Closed(h, 0, cut) && NoTools(front) && RoleDiscipline(h) && ResultsFollowUses(h)
    ensures RoleDiscipline(front + h[cut..]) && ResultsFollowUses(front + h[cut..])
  {
    var h' := front + h[cut..];
    forall i, id | 0 <= i < |h'| && id in Results(h'[i]) ensures UsedBefore(h', i, id) {
      var at := i - |front| + cut;
      assert i >= |front| && h'[i] == h[at];
      assert UsedBefore(h, at, id);
      var j :| 0 <= j < at && id in Uses(h[j]);
      ResultNeedsUse(h, cut, at, j, id);
      assert h'[|front| + j - cut] == h[j];
    }
  }

  lemma NeededShift(h: History, n: nat, cut: nat, i: nat)
    requires n <= cut <= |h|
    ensures Needed(h[n..], cut - n, i) ==> Needed(h, cut, i + n)
  {
    if Needed(h[n..], cut - n, i) {
      var k :| cut - n <= k < |h[n..]| && DependsOn(h[n..][k], h[n..][i]);
      assert DependsOn(h[k + n], h[i + n]);
    }
  }

  lemma ClosedShift(h: History, n: nat, cut: nat)
    requires n <= cut <= |h| && Closed(h, 0, cut)
    ensures Closed(h[n..], 0, cut - n)
  {
    var rest, c := h[n..], cut - n;
    forall i | 0 <= i < c ensures !Needed(rest, c, i) { NeededShift(h, n, cut, i); }
  }

  /** A closed cut never falls between a tool use and its results. */
  lemma {:induction false} ClosedCutSplitsWell(h: History, cut: nat)
    requires WellPaired(h) && cut <= |h| && Closed(h, 0, cut)
    ensures WellPaired(h[cut..])
    decreases |h|
  {
    if cut == 0 {
      assert h[cut..] == h;
    } else {
      var ids := Uses(h[0]);
      var n := 1 + |ids|;
      if cut < n {
        assert ids[cut - 1] in Results(h[cut]);
        ResultNeedsUse(h, cut, cut, 0, ids[cut - 1]);
      } else {
        ClosedShift(h, n, cut);
        ClosedCutSplitsWell(h[n..], cut - n);
        assert h[n..][cut - n..] == h[cut..];
      }
    }
  }

  /** Compression keeps the provider protocol of a history. */
  lemma CompressKeepsWellPaired(h: History, meta: Meta, tail: nat, should: bool, summarize: Summarizer)
    requires Compress(h, meta, tail, should, summarize).Some? && RoleDiscipline(h) && WellPaired(h)
    ensures WellPaired(Compress(h, meta, tail, should, summarize).value.0)
  {
    var front, cut := CompressSplits(h, meta, tail, should, summarize);
    ClosedCutSplitsWell(h, cut);
    NoToolsWellPaired(front);
    WellPairedAppend(front, h[cut..]);
  }

  lemma NeededWithMore(h: History, m: ChatMessage, cut: nat, i: nat)
    ensures Needed(h, cut, i) ==> Needed(h + [m], cut, i)
  {
    if Needed(h, cut, i) {
      var k :| cut <= k < |h| && DependsOn(h[k], h[i]);
      assert DependsOn((h + [m])[k], (h + [m])[i]);
    }
  }

  /**
   With one provisional message at the end (an error reported to the model), compression keeps
   that message last and keeps the protocol of everything in front of it.
   */
  lemma CompressKeepsProvisional(h: History, m: ChatMessage, meta: Meta, tail: nat, should: bool, summarize: Summarizer)
    requires tail >= 1 && WellPaired(h) && RoleDiscipline(h + [m])
    requires Compress(h + [m], meta, tail, should, summarize).Some?
    ensures EndsWith(Compress(h + [m], meta, tail, should, summarize).value.0, m)
  {
    var front, cut := CompressSplits(h + [m], meta, tail, should, summarize);
    KeptPrefixIsPaired(h, m, front, cut);
    assert (h + [m])[cut..] == h[cut..] + [m];
    ProvisionalIsLast(front, h[cut..], m);
  }

  /** `m` comes last, after a history that keeps the provider protocol. */
  predicate EndsWith(h: History, m: ChatMessage) {
    h != [] && h[|h| - 1] == m && WellPaired(h[..|h| - 1])
  }

  lemma KeptPrefixIsPaired(h: History, m: ChatMessage, front: History, cut: nat)
    requires WellPaired(h) && NoTools(front) && cut <= |h| && Closed(h + [m], 0, cut)
    ensures WellPaired(front + h[cut..])
  {
    forall i | 0 <= i < cut ensures !Needed(h, cut, i) { NeededWithMore(h, m, cut, i); }
    ClosedCutSplitsWell(h, cut);
    NoToolsWellPaired(front);
    WellPairedAppend(front, h[cut..]);
  }

  lemma ProvisionalIsLast(front: History, kept: History, m: ChatMessage)
    requires WellPaired(front + kept)
    ensures EndsWith(front + (kept + [m]), m)
  {
    var h := front + (kept + [m]);
    assert h[..|h| - 1] == front + kept;
  }
}
