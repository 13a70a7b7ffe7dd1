/**
 Whole runs of appends and compressions: what is never lost, what stays last, and how often a
 summary is absorbed.
 */
module HistoryRuns {
  import opened Options
  import opened Messages
  import opened Compaction
  import opened ContextManager

  // ---- conserved parts of a history -------------------------------------------------------------------------------

  function Systems(h: History): History {
    if h == [] then [] else if h[0].role == System then [h[0]] + Systems(h[1..]) else Systems(h[1..])
  }

  function FirstUserMessage(h: History): Option<ChatMessage> {
    if h == [] then None else if h[0].role == User then Some(h[0]) else FirstUserMessage(h[1..])
  }

  function SummaryCount(h: History): nat {
    if h == [] then 0 else (if IsSummary(h[0]) then 1 else 0) + SummaryCount(h[1..])
  }

  lemma {:induction false} PartsOfConcat(a: History, b: History)
    ensures Systems(a + b) == Systems(a) + Systems(b)
    ensures FirstUserMessage(a + b) == if FirstUserMessage(a).Some? then FirstUserMessage(a) else FirstUserMessage(b)
    ensures SummaryCount(a + b) == SummaryCount(a) + SummaryCount(b)
  {
    if a == [] {
      assert a + b == b;
    } else {
      assert (a + b)[1..] == a[1..] + b && (a + b)[0] == a[0];
      PartsOfConcat(a[1..], b);
    }
  }

  /** The survivors of a window hold all its system messages and the history's first user message. */
  lemma {:induction false} SurvivorParts(h: History, lo: nat, hi: nat)
    requires lo <= hi <= |h|
    ensures Systems(Survivors(h, lo, hi)) == Systems(h[lo..hi])
    ensures lo <= FirstUser(h) ==> FirstUserMessage(Survivors(h, lo, hi)) == FirstUserMessage(h[lo..hi])
    ensures SummaryCount(Survivors(h, lo, hi)) == 0
    decreases hi - lo
  {
    if lo < hi {
      assert h[lo..hi][1..] == h[lo + 1..hi] && h[lo..hi][0] == h[lo];
      SurvivorParts(h, lo + 1, hi);
      var rest := Survivors(h, lo + 1, hi);
      if Protected(h, lo) {
        var s := Survivors(h, lo, hi);
        assert s[0] == h[lo] && s[1..] == rest;
      }
    }
  }

  lemma {:induction false} FirstUserSeen(h: History, n: nat)
    requires FirstUser(h) < n <= |h|
    ensures FirstUserMessage(h[..n]) == Some(h[FirstUser(h)])
  {
    assert h[..n][1..] == h[1..][..n - 1] && h[..n][0] == h[0];
    if h[0].role != User {
      FirstUserSeen(h[1..], n - 1);
    }
  }

  lemma {:induction false} ProtectedPrefixHasNoSummary(h: History, n: nat)
    requires n <= |h| && forall i :: 0 <= i < n ==> Protected(h, i)
    ensures SummaryCount(h[..n]) == 0
  {
    if n > 0 {
      ProtectedPrefixHasNoSummary(h, n - 1);
      assert h[..n] == h[..n - 1] + [h[n - 1]];
      PartsOfConcat(h[..n - 1], [h[n - 1]]);
      assert Protected(h, n - 1) && [h[n - 1]][1..] == [];
    }
  }

  lemma PartsOfThree(a: History, b: History, c: History)
    ensures Systems(a + b + c) == Systems(a) + Systems(b) + Systems(c)
    ensures FirstUserMessage(a + b + c) ==
      if FirstUserMessage(a).Some? then FirstUserMessage(a)
      else if FirstUserMessage(b).Some? then FirstUserMessage(b) else FirstUserMessage(c)
    ensures SummaryCount(a + b + c) == SummaryCount(a) + SummaryCount(b) + SummaryCount(c)
  {
    PartsOfConcat(a + b, c);
    PartsOfConcat(a, b);
  }

  /** What replaces the window has the window's system messages and first user, and one summary. */
  lemma WindowParts(h: History, first: nat, cut: nat, summary: ChatMessage)
    requires first <= cut <= |h| && summary.role == Assistant && IsSummary(summary)
    ensures var w := [summary] + Survivors(h, first, cut);
      && Systems(w) == Systems(h[first..cut])
      && (first <= FirstUser(h) ==> FirstUserMessage(w) == FirstUserMessage(h[first..cut]))
      && SummaryCount(w) == 1
  {
    SurvivorParts(h, first, cut);
    var w := [summary] + Survivors(h, first, cut);
    assert w[1..] == Survivors(h, first, cut);
  }

  /** One compaction conserves system messages and the first user message, and leaves one summary in front. */
  lemma CompactedParts(h: History, h': History, first: nat, cut: nat, summary: ChatMessage)
    requires Compacted(h, h', first, cut, summary)
    ensures Systems(h') == Systems(h)
    ensures FirstUserMessage(h') == FirstUserMessage(h)
    ensures SummaryCount(h') == 1 + SummaryCount(h[cut..])
    ensures SummaryCount(h) == SummaryCount(h[first..cut]) + SummaryCount(h[cut..])
  {
    var pre, mid, post := h[..first], h[first..cut], h[cut..];
    var window := [summary] + Survivors(h, first, cut);
    assert h == pre + mid + post;
    assert h' == pre + window + post;
    PartsOfThree(pre, mid, post);
    PartsOfThree(pre, window, post);
    WindowParts(h, first, cut, summary);
    ProtectedPrefixHasNoSummary(h, first);
    if FirstUser(h) < first {
      FirstUserSeen(h, first);
    }
  }

  // ---- runs -------------------------------------------------------------------------------------------------------

  datatype Step = Append(message: ChatMessage) | Compact(should: bool, summarize: Summarizer)

  datatype State = State(h: History, meta: Meta)

  /** A failed compression leaves history and metadata as they were. */
  function Do(s: State, tail: nat, step: Step): State {
    match step
    case Append(m) => State(s.h + [m], s.meta)
    case Compact(should, summarize) =>
      match Compress(s.h, s.meta, tail, should, summarize)
      case None => s
      case Some((h, meta)) => State(h, meta)
  }

  function Run(tail: nat, steps: seq<Step>): State {
    if steps == [] then State([], Meta(None, None)) else Do(Run(tail, steps[..|steps| - 1]), tail, steps[|steps| - 1])
  }

  function Appended(steps: seq<Step>): History {
    if steps == [] then []
    else Appended(steps[..|steps| - 1]) + (match steps[|steps| - 1] case Append(m) => [m] case _ => [])
  }

  /** The recorded summary is the first unprotected message of the history. */
  ghost predicate SummaryInFront(s: State) {
    s.meta.compactSummary.Some? ==>
      exists f :: 0 <= f < |s.h| && IsRecordedSummary(s, f)
  }

  ghost predicate IsRecordedSummary(s: State, f: nat)
    requires f < |s.h| && s.meta.compactSummary.Some?
  {
    && !Protected(s.h, f) && (forall i :: 0 <= i < f ==> Protected(s.h, i))
    && IsSummary(s.h[f]) && s.h[f].blocks == [Text(SUMMARY_PREFIX + s.meta.compactSummary.value)]
  }

  ghost predicate SameTail(a: History, h: History, tail: nat) {
    var n := Min(tail, |a|);
    n <= |h| && h[|h| - n..] == a[|a| - n..]
  }

  ghost predicate Conserved(s: State, appended: History, tail: nat) {
    && Systems(s.h) == Systems(appended)
    && FirstUserMessage(s.h) == FirstUserMessage(appended)
    && SameTail(appended, s.h, tail)
    && SummaryInFront(s)
    && SummaryCount(s.h) <= (if s.meta.compactSummary.Some? then 1 else 0) + SummaryCount(appended)
  }

  lemma FirstUserOfAppend(h: History, m: ChatMessage)
    ensures FirstUser(h) < |h| ==> FirstUser(h + [m]) == FirstUser(h)
    ensures FirstUser(h) == |h| ==> FirstUser(h + [m]) >= |h|
  {
    var a := h + [m];
    assert forall i :: 0 <= i < |h| ==> a[i] == h[i];
  }

  lemma AppendKeepsSummary(s: State, m: ChatMessage)
    requires SummaryInFront(s)
    ensures SummaryInFront(State(s.h + [m], s.meta))
  {
    if s.meta.compactSummary.Some? {
      var f :| 0 <= f < |s.h| && IsRecordedSummary(s, f);
      FirstUserOfAppend(s.h, m);
      var h' := s.h + [m];
      forall i | 0 <= i <= f ensures Protected(h', i) == Protected(s.h, i) { assert h'[i] == s.h[i]; }
      assert IsRecordedSummary(State(s.h + [m], s.meta), f);
    }
  }

  lemma AppendKeepsTail(appended: History, h: History, tail: nat, m: ChatMessage)
    requires SameTail(appended, h, tail)
    ensures SameTail(appended + [m], h + [m], tail)
  {
    var n, k := Min(tail, |appended| + 1), Min(tail, |appended|);
    if n > 0 {
      assert (h + [m])[|h| + 1 - n..] == h[|h| - k..][k - (n - 1)..] + [m];
      assert (appended + [m])[|appended| + 1 - n..] == appended[|appended| - k..][k - (n - 1)..] + [m];
    }
  }

  lemma AppendConserves(s: State, appended: History, tail: nat, m: ChatMessage)
    requires Conserved(s, appended, tail)
    ensures Conserved(State(s.h + [m], s.meta), appended + [m], tail)
  {
    PartsOfConcat(s.h, [m]);
    PartsOfConcat(appended, [m]);
    AppendKeepsSummary(s, m);
    AppendKeepsTail(appended, s.h, tail, m);
  }

  /** The window of a compaction starts with the recorded summary, if there is one. */
  lemma RecordedSummaryIsFirst(s: State, cut: nat)
    requires SummaryInFront(s) && s.meta.compactSummary.Some? && cut <= |s.h| && Unprotected(s.h, 0, cut) != []
    ensures IsRecordedSummary(s, Unprotected(s.h, 0, cut)[0])
  {
    UnprotectedFirst(s.h, 0, cut);
    var f :| 0 <= f < |s.h| && IsRecordedSummary(s, f);
    var first := Unprotected(s.h, 0, cut)[0];
    assert !(first < f) && !(f < first);
  }

  lemma CompactConserves(s: State, appended: History, tail: nat, should: bool, summarize: Summarizer)
    requires Conserved(s, appended, tail)
    ensures Conserved(Do(s, tail, Compact(should, summarize)), appended, tail)
  {
    var s' := Do(s, tail, Compact(should, summarize));
    if s' != s {
      CompressShape(s.h, s.meta, tail, should, summarize);
      var cut := CutFor(s.h, tail);
      var first := Unprotected(s.h, 0, cut)[0];
      var summary := SummaryMessage(s'.meta.compactSummary.value, Pick(s.h, Unprotected(s.h, 0, cut)));
      CompactedParts(s.h, s'.h, first, cut, summary);
      CompactedTail(s.h, s'.h, first, cut, summary, appended, tail);
      CompactedSummary(s.h, s', first, cut, summary);
      if s.meta.compactSummary.Some? {
        RecordedSummaryIsFirst(s, cut);
        assert s.h[first..cut][0] == s.h[first];
      }
    }
  }

  lemma CompactedTail(h: History, h': History, first: nat, cut: nat, summary: ChatMessage, appended: History, tail: nat)
    requires Compacted(h, h', first, cut, summary) && cut <= SaturatingSub(|h|, tail) && SameTail(appended, h, tail)
    ensures SameTail(appended, h', tail)
  {
    var n := Min(tail, |appended|);
    assert n <= |h| - cut;
    assert h'[|h'| - n..] == h[|h| - n..];
  }

  lemma CompactedSummary(h: History, s': State, first: nat, cut: nat, summary: ChatMessage)
    requires Compacted(h, s'.h, first, cut, summary) && s'.meta.compactSummary.Some?
    requires summary.blocks == [Text(SUMMARY_PREFIX + s'.meta.compactSummary.value)]
    ensures SummaryInFront(s')
  {
    var h' := s'.h;
    assert h'[first] == summary;
    forall i | 0 <= i < first ensures Protected(h', i) {
      assert h'[i] == h[i] && Protected(h, i);
      if h[i].role != System {
        assert i == FirstUser(h);
        assert forall k :: 0 <= k < i ==> h'[k].role != User by {
          forall k | 0 <= k < i ensures h'[k].role != User { assert h'[k] == h[k]; }
        }
        assert FirstUser(h') == i;
      }
    }
    assert IsRecordedSummary(s', first);
  }

  /**
   Over any run of appends and compressions: every system message and the first user message
   survive, the last `tail` messages stay last, the recorded summary is the first unprotected
   message, and there is no other summary except look-alikes that were appended as such.
   */
  lemma {:induction false} RunConserves(tail: nat, steps: seq<Step>)
    ensures Conserved(Run(tail, steps), Appended(steps), tail)
  {
    if steps != [] {
      var init, last := steps[..|steps| - 1], steps[|steps| - 1];
      RunConserves(tail, init);
      match last
      case Append(m) => AppendConserves(Run(tail, init), Appended(init), tail, m);
      case Compact(should, summarize) =>
        CompactConserves(Run(tail, init), Appended(init), tail, should, summarize);
        assert Appended(init) + [] == Appended(init);
    }
  }

  /** What the next compaction of a run would hand to the summariser. */
  ghost function Candidates(s: State, tail: nat): History
    requires CutFor(s.h, tail) <= |s.h|
  {
    Pick(s.h, Unprotected(s.h, 0, CutFor(s.h, tail)))
  }

  lemma {:induction false} TwoSummaries(h: History, i: nat, j: nat)
    requires i < j < |h| && IsSummary(h[i]) && IsSummary(h[j])
    ensures SummaryCount(h) >= 2
  {
    assert h == h[..j] + h[j..] && h[..j] == h[..i] + h[i..j];
    PartsOfConcat(h[..j], h[j..]);
    PartsOfConcat(h[..i], h[i..j]);
  }

  /** The recorded summary is the first candidate, and with one summary in the history the only one that is a summary. */
  lemma AbsorbedOnce(s: State, cut: nat)
    requires SummaryInFront(s) && s.meta.compactSummary.Some? && cut <= |s.h| && Unprotected(s.h, 0, cut) != []
    ensures var removed := Pick(s.h, Unprotected(s.h, 0, cut));
      && PreviousSummary(removed, s.meta).None?
      && removed[0].blocks == [Text(SUMMARY_PREFIX + s.meta.compactSummary.value)] && IsSummary(removed[0])
      && (SummaryCount(s.h) <= 1 ==> forall k :: 0 < k < |removed| ==> !IsSummary(removed[k]))
  {
    var c := Unprotected(s.h, 0, cut);
    var removed := Pick(s.h, c);
    RecordedSummaryIsFirst(s, cut);
    assert removed[0] == s.h[c[0]];
    forall k | 0 < k < |removed| && IsSummary(removed[k]) ensures SummaryCount(s.h) >= 2 {
      assert removed[k] == s.h[c[k]];
      TwoSummaries(s.h, c[0], c[k]);
    }
  }

  /**
   After any run of appends and compressions, a compaction that removes anything absorbs the recorded summary exactly
   once: it is the first message handed to the summariser, it is not handed over again from the record, and, unless
   look-alikes were appended, no other candidate is a summary.
   */
  lemma SummaryAbsorbedOnce(tail: nat, steps: seq<Step>)
    ensures var s := Run(tail, steps);
      && CutFor(s.h, tail) <= |s.h|
      && var removed := Candidates(s, tail);
         removed != [] ==>
           && PreviousSummary(removed, s.meta).None?
           && (s.meta.compactSummary.Some? ==>
                 && removed[0].blocks == [Text(SUMMARY_PREFIX + s.meta.compactSummary.value)] && IsSummary(removed[0])
                 && (SummaryCount(Appended(steps)) == 0 ==> forall k :: 0 < k < |removed| ==> !IsSummary(removed[k])))
  {
    var s := Run(tail, steps);
    RunConserves(tail, steps);
    CutIsClosed(s.h, tail);
    if Candidates(s, tail) != [] && s.meta.compactSummary.Some? {
      AbsorbedOnce(s, CutFor(s.h, tail));
    }
  }
}
