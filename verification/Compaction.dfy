/**
 Context compaction: which messages may be replaced by a summary, and the retraction of the cut
 so that no kept message loses a message it depends on.
 */
module Compaction {
  import opened Options
  import opened Messages

  function Min(a: nat, b: nat): nat { if a <= b then a else b }

  function SaturatingSub(a: nat, b: nat): nat { if a <= b then 0 else a - b }

  // ---- keep-start retraction --------------------------------------------------------------------------------------

  predicate Overlaps(ids: seq<string>, others: seq<string>) {
    exists k :: 0 <= k < |ids| && ids[k] in others
  }

  /** Two parts of one assistant message. */
  predicate SameAssistant(kept: ChatMessage, earlier: ChatMessage) {
    kept.role == Assistant && earlier.role == Assistant && kept.messageId.Some? && earlier.messageId == kept.messageId
  }

  /** `kept` cannot do without `earlier`: a result without its use, or a split assistant message. */
  predicate DependsOn(kept: ChatMessage, earlier: ChatMessage) {
    Overlaps(Uses(earlier), Results(kept)) || SameAssistant(kept, earlier)
  }

  /** Message `i` is needed by some message at or after `cut`. */
  predicate Needed(h: History, cut: nat, i: nat) {
    i < |h| && exists k :: cut <= k < |h| && DependsOn(h[k], h[i])
  }

  /** Keeping exactly the messages from `cut` on breaks no dependency reaching back to `floor`. */
  predicate Closed(h: History, floor: nat, cut: nat) {
    forall i :: floor <= i < cut ==> !Needed(h, cut, i)
  }

  function FirstNeeded(h: History, from: nat, cut: nat): nat
    decreases cut - from
  {
    if from >= cut then cut
    else if Needed(h, cut, from) then from
    else FirstNeeded(h, from + 1, cut)
  }

  lemma {:induction false} FirstNeededIsFirst(h: History, from: nat, cut: nat)
    requires from <= cut
    ensures var r := FirstNeeded(h, from, cut);
      && from <= r <= cut
      && (r < cut ==> Needed(h, cut, r))
      && (forall i :: from <= i < r ==> !Needed(h, cut, i))
    decreases cut - from
  {
    if from < cut && !Needed(h, cut, from) {
      FirstNeededIsFirst(h, from + 1, cut);
    }
  }

  /** Retract the cut to the first message it would orphan, until nothing is orphaned. */
  function Retract(h: History, floor: nat, cut: nat): nat
    requires floor <= cut
    decreases cut
  {
    FirstNeededIsFirst(h, floor, cut);
    var required := FirstNeeded(h, floor, cut);
    if required == cut then cut else Retract(h, floor, required)
  }

  function AdjustKeepStart(h: History, keepStart: nat, floor: nat): nat {
    if floor >= keepStart || keepStart >= |h| then Min(keepStart, |h|)
    else Retract(h, floor, keepStart)
  }

  /** No cut between the result of `Retract` and the proposed cut would have been closed. */
  lemma {:induction false} RetractIsGreatest(h: History, floor: nat, cut: nat)
    requires floor <= cut
    ensures var r := Retract(h, floor, cut);
      && floor <= r <= cut && Closed(h, floor, r)
      && (forall c :: floor <= c <= cut && Closed(h, floor, c) ==> c <= r)
    decreases cut
  {
    FirstNeededIsFirst(h, floor, cut);
    var required := FirstNeeded(h, floor, cut);
    if required < cut {
      RetractIsGreatest(h, floor, required);
      forall c | required < c <= cut ensures !Closed(h, floor, c) {
        assert Needed(h, c, required);
      }
    }
  }

  /** The adjusted cut is the greatest closed cut at or below the proposed one. */
  lemma AdjustedCutIsGreatestClosed(h: History, keepStart: nat, floor: nat)
    ensures var r := AdjustKeepStart(h, keepStart, floor);
      && Min(floor, Min(keepStart, |h|)) <= r <= Min(keepStart, |h|)
      && Closed(h, floor, r)
      && (forall c :: floor <= c <= Min(keepStart, |h|) && Closed(h, floor, c) ==> c <= r)
  {
    if !(floor >= keepStart || keepStart >= |h|) {
      RetractIsGreatest(h, floor, keepStart);
    }
  }

  method KeptResultIds(h: History, keepStart: nat) returns (ids: set<string>)
    requires keepStart <= |h|
    ensures forall id :: id in ids <==> exists m :: keepStart <= m < |h| && id in Results(h[m])
  {
    ids := {};
    for k := keepStart to |h|
      invariant forall id :: id in ids <==> exists m :: keepStart <= m < k && id in Results(h[m])
    {
      ids := ids + set id | id in Results(h[k]);
    }
  }

  /** The earliest message in the window with a tool use among `ids`, or `keepStart`. */
  method EarliestUse(h: History, windowStart: nat, keepStart: nat, ids: set<string>) returns (required: nat)
    requires windowStart <= keepStart <= |h|
    ensures windowStart <= required <= keepStart
    ensures required < keepStart ==> exists u :: u in Uses(h[required]) && u in ids
    ensures forall i, u :: windowStart <= i < required && u in Uses(h[i]) ==> u !in ids
  {
    required := keepStart;
    for index := keepStart downto windowStart
      invariant windowStart <= required <= keepStart
      invariant required < keepStart ==> exists u :: u in Uses(h[required]) && u in ids
      invariant forall i, u :: index <= i < required && i < keepStart && u in Uses(h[i]) ==> u !in ids
    {
      if exists u :: u in Uses(h[index]) && u in ids {
        required := Min(required, index);
      }
    }
  }

  /** The earliest part, in the window, of an assistant message that is also kept. */
  method EarliestSameAssistant(h: History, windowStart: nat, keepStart: nat, k: nat, bound: nat) returns (required: nat)
    requires windowStart <= bound <= keepStart <= k < |h|
    ensures windowStart <= required <= bound
    ensures required < bound ==> SameAssistant(h[k], h[required])
    ensures forall i :: windowStart <= i < required ==> !SameAssistant(h[k], h[i])
  {
    required := bound;
    if h[k].role == Assistant && h[k].messageId.Some? {
      for index := keepStart downto windowStart
        invariant windowStart <= required <= bound
        invariant required < bound ==> SameAssistant(h[k], h[required])
        invariant forall i :: index <= i < required ==> !SameAssistant(h[k], h[i])
      {
        if h[index].role == Assistant && h[index].messageId == h[k].messageId {
          required := Min(required, index);
        }
      }
    }
  }

  /** The scan the program runs, against the first message that must be kept as well. */
  method FindRequiredKeepStart(h: History, windowStart: nat, keepStart: nat) returns (required: nat)
    requires windowStart <= keepStart <= |h|
    ensures required == FirstNeeded(h, windowStart, keepStart)
  {
    required := keepStart;
    var ids := KeptResultIds(h, keepStart);
    if ids != {} {
      required := EarliestUse(h, windowStart, keepStart, ids);
    }
    assert required < keepStart ==> Needed(h, keepStart, required);
    for k := keepStart to |h|
      invariant windowStart <= required <= keepStart
      invariant required < keepStart ==> Needed(h, keepStart, required)
      invariant forall i, u :: windowStart <= i < required && u in Uses(h[i]) ==> u !in ids
      invariant forall i, m :: windowStart <= i < required && keepStart <= m < k ==> !SameAssistant(h[m], h[i])
    {
      required := EarliestSameAssistant(h, windowStart, keepStart, k, required);
    }
    forall i, m | windowStart <= i < required && keepStart <= m < |h| ensures !DependsOn(h[m], h[i]) {
      assert forall u :: u in Results(h[m]) ==> u in ids;
    }
    FirstNeededIsFirst(h, windowStart, keepStart);
  }

  method ComputeKeepStart(h: History, keepStart: nat, floor: nat) returns (adjusted: nat)
    ensures adjusted == AdjustKeepStart(h, keepStart, floor)
  {
    if floor >= keepStart || keepStart >= |h| {
      return Min(keepStart, |h|);
    }
    adjusted := keepStart;
    while true
      invariant floor <= adjusted <= keepStart
      invariant Retract(h, floor, adjusted) == Retract(h, floor, keepStart)
      decreases adjusted
    {
      FirstNeededIsFirst(h, floor, adjusted);
      var required := FindRequiredKeepStart(h, floor, adjusted);
      if required == adjusted {
        return;
      }
      adjusted := required;
    }
  }

  // ---- boundary and candidates ------------------------------------------------------------------------------------

  datatype Direction = BeforePivot | AfterPivot

  datatype Boundary = Boundary(pivot: string, direction: Direction)

  predicate HasRemovable(h: History, n: nat)
    requires n <= |h|
  {
    exists i :: 0 <= i < n && h[i].role != System
  }

  /** The last message before `n` that has an id and something removable in front of it. */
  function DiscoverBefore(h: History, n: nat): Option<Boundary>
    requires n <= |h|
  {
    if n == 0 then None
    else if h[n - 1].messageId.Some? && HasRemovable(h, n - 1) then
      Some(Boundary(h[n - 1].messageId.value, BeforePivot))
    else DiscoverBefore(h, n - 1)
  }

  function DiscoverBoundary(h: History, tail: nat): Option<Boundary> {
    DiscoverBefore(h, SaturatingSub(|h|, tail))
  }

  predicate IsPivot(h: History, i: nat)
    requires i < |h|
  {
    h[i].messageId.Some? && HasRemovable(h, i)
  }

  predicate IsLastPivot(h: History, i: nat, n: nat)
    requires i < n <= |h|
  {
    IsPivot(h, i) && forall k :: i < k < n ==> !IsPivot(h, k)
  }

  /** The boundary is the last message in reach with an id and something removable before it; `None` if there is none. */
  lemma {:induction false} DiscoveredIsLast(h: History, n: nat)
    requires n <= |h|
    ensures match DiscoverBefore(h, n)
      case None => forall i :: 0 <= i < n ==> !IsPivot(h, i)
      case Some(b) => exists i :: 0 <= i < n && IsLastPivot(h, i, n) && h[i].messageId == Some(b.pivot)
  {
    if n > 0 {
      if IsPivot(h, n - 1) {
        assert IsLastPivot(h, n - 1, n);
      } else {
        DiscoveredIsLast(h, n - 1);
        assert forall i :: 0 <= i < n - 1 && IsLastPivot(h, i, n - 1) ==> IsLastPivot(h, i, n);
      }
    }
  }

  /** The first message carrying `id`, or the length of the history. */
  function PositionOf(h: History, id: string, from: nat): nat
    requires from <= |h|
    decreases |h| - from
  {
    if from == |h| || h[from].messageId == Some(id) then from else PositionOf(h, id, from + 1)
  }

  datatype Window = Window(start: nat, end: nat)

  /** `None` is the boundary-not-found error. */
  function ResolveWindow(h: History, tail: nat, boundary: Option<Boundary>): Option<Window> {
    var tailStart := SaturatingSub(|h|, tail);
    match boundary
    case None => Some(Window(0, tailStart))
    case Some(b) =>
      var at := PositionOf(h, b.pivot, 0);
      if at == |h| then None
      else if b.direction.BeforePivot? then Some(Window(0, at))
      else Some(Window(Min(at + 1, |h|), tailStart))
  }

  /** Position of the first user message, or the length of the history. */
  function FirstUser(h: History): (r: nat)
    ensures r <= |h|
    ensures r < |h| ==> h[r].role == User
    ensures forall i :: 0 <= i < r ==> h[i].role != User
  {
    if h == [] then 0 else if h[0].role == User then 0 else 1 + FirstUser(h[1..])
  }

  /** System messages and the first user message are never compacted. */
  predicate Protected(h: History, i: nat)
    requires i < |h|
  {
    h[i].role == System || i == FirstUser(h)
  }

  /** The unprotected indexes in `[lo, hi)`, in order. */
  function Unprotected(h: History, lo: nat, hi: nat): (indexes: seq<nat>)
    requires lo <= hi <= |h|
    ensures forall k :: 0 <= k < |indexes| ==> lo <= indexes[k] < hi
    ensures forall k, m :: 0 <= k < m < |indexes| ==> indexes[k] < indexes[m]
    decreases hi - lo
  {
    if lo == hi then []
    else if Protected(h, lo) then Unprotected(h, lo + 1, hi)
    else [lo] + Unprotected(h, lo + 1, hi)
  }

  function CandidateIndexes(h: History, tail: nat, boundary: Option<Boundary>): (r: Option<seq<nat>>)
    ensures r.Some? ==> forall k :: 0 <= k < |r.value| ==> r.value[k] < |h|
  {
    match ResolveWindow(h, tail, boundary)
    case None => None
    case Some(w) =>
      var end := AdjustKeepStart(h, w.end, w.start);
      AdjustedCutIsGreatestClosed(h, w.end, w.start);
      Some(if w.start <= end then Unprotected(h, w.start, end) else [])
  }

  // ---- replacement ------------------------------------------------------------------------------------------------

  /** The first `n` messages with the candidates dropped and the replacement put in their place. */
  function Replaced(h: History, candidates: seq<nat>, replacement: ChatMessage, n: nat): History
    requires n <= |h|
  {
    if n == 0 then []
    else
      Replaced(h, candidates, replacement, n - 1)
      + (if candidates != [] && n - 1 == candidates[0] then [replacement] else [])
      + (if n - 1 in candidates then [] else [h[n - 1]])
  }

  /** `apply_candidate_replacement`; the candidates come in increasing order. */
  method ApplyReplacement(h: History, candidates: seq<nat>, replacement: ChatMessage) returns (result: History)
    requires forall i, j :: 0 <= i < j < |candidates| ==> candidates[i] < candidates[j]
    ensures result == Replaced(h, candidates, replacement, |h|)
  {
    var removable := set i | i in candidates;
    result := [];
    for index := 0 to |h|
      invariant result == Replaced(h, candidates, replacement, index)
    {
      if candidates != [] && index == candidates[0] {
        result := result + [replacement];
      }
      if index !in removable {
        result := result + [h[index]];
      }
    }
  }

  /** The protected messages of `h[lo..hi]`, in order. */
  function Survivors(h: History, lo: nat, hi: nat): History
    requires lo <= hi <= |h|
    decreases hi - lo
  {
    if lo == hi then []
    else if Protected(h, lo) then [h[lo]] + Survivors(h, lo + 1, hi)
    else Survivors(h, lo + 1, hi)
  }

  lemma {:induction false} UnprotectedMember(h: History, lo: nat, hi: nat, i: nat)
    requires lo <= hi <= |h|
    ensures i in Unprotected(h, lo, hi) <==> lo <= i < hi && !Protected(h, i)
    decreases hi - lo
  {
    if lo < hi {
      UnprotectedMember(h, lo + 1, hi, i);
    }
  }

  lemma {:induction false} UnprotectedFirst(h: History, lo: nat, hi: nat)
    requires lo <= hi <= |h|
    ensures var u := Unprotected(h, lo, hi);
      u != [] ==> lo <= u[0] < hi && !Protected(h, u[0]) && forall i :: lo <= i < u[0] ==> Protected(h, i)
    ensures Unprotected(h, lo, hi) == [] ==> forall i :: lo <= i < hi ==> Protected(h, i)
    decreases hi - lo
  {
    if lo < hi && Protected(h, lo) {
      UnprotectedFirst(h, lo + 1, hi);
    }
  }

  lemma {:induction false} SurvivorsSplit(h: History, lo: nat, hi: nat)
    requires lo < hi <= |h|
    ensures Survivors(h, lo, hi) == Survivors(h, lo, hi - 1) + (if Protected(h, hi - 1) then [h[hi - 1]] else [])
    decreases hi - lo
  {
    if lo + 1 == hi {
      assert Survivors(h, lo, lo) == Survivors(h, hi, hi) == [];
    } else {
      SurvivorsSplit(h, lo + 1, hi);
      var last := if Protected(h, hi - 1) then [h[hi - 1]] else [];
      if Protected(h, lo) {
        assert [h[lo]] + (Survivors(h, lo + 1, hi - 1) + last) == [h[lo]] + Survivors(h, lo + 1, hi - 1) + last;
      }
    }
  }

  lemma {:induction false} ReplacedPrefix(h: History, end: nat, replacement: ChatMessage, n: nat)
    requires n <= |h| && end <= |h| && Unprotected(h, 0, end) != [] && n <= Unprotected(h, 0, end)[0]
    ensures Replaced(h, Unprotected(h, 0, end), replacement, n) == h[..n]
  {
    if n > 0 {
      ReplacedPrefix(h, end, replacement, n - 1);
      UnprotectedFirst(h, 0, end);
      UnprotectedMember(h, 0, end, n - 1);
      assert h[..n] == h[..n - 1] + [h[n - 1]];
    }
  }

  lemma {:induction false} ReplacedWindow(h: History, end: nat, replacement: ChatMessage, n: nat)
    requires end <= |h| && Unprotected(h, 0, end) != [] && Unprotected(h, 0, end)[0] < n <= end
    ensures var first := Unprotected(h, 0, end)[0];
      Replaced(h, Unprotected(h, 0, end), replacement, n) == h[..first] + [replacement] + Survivors(h, first, n)
  {
    var c := Unprotected(h, 0, end);
    var first := c[0];
    UnprotectedMember(h, 0, end, n - 1);
    SurvivorsSplit(h, first, n);
    if n - 1 == first {
      ReplacedPrefix(h, end, replacement, first);
      assert first in c;
    } else {
      ReplacedWindow(h, end, replacement, n - 1);
    }
  }

  lemma {:induction false} ReplacedSuffix(h: History, end: nat, replacement: ChatMessage, n: nat)
    requires end <= n <= |h| && Unprotected(h, 0, end) != []
    ensures Replaced(h, Unprotected(h, 0, end), replacement, n)
         == Replaced(h, Unprotected(h, 0, end), replacement, end) + h[end..n]
  {
    if n > end {
      var c := Unprotected(h, 0, end);
      ReplacedSuffix(h, end, replacement, n - 1);
      UnprotectedFirst(h, 0, end);
      UnprotectedMember(h, 0, end, n - 1);
      assert h[end..n] == h[end..n - 1] + [h[n - 1]];
    }
  }

  /**
   Compacting up to `end` leaves: the untouched prefix, the summary at the first removed
   position, the protected rest of the window, and the kept suffix as it was.
   */
  lemma ReplacedShape(h: History, end: nat, replacement: ChatMessage)
    requires end <= |h| && Unprotected(h, 0, end) != []
    ensures var c := Unprotected(h, 0, end); var first := c[0];
      && first < end && !Protected(h, first)
      && (forall i :: 0 <= i < first ==> Protected(h, i))
      && Replaced(h, c, replacement, |h|) == h[..first] + [replacement] + Survivors(h, first, end) + h[end..]
  {
    UnprotectedFirst(h, 0, end);
    ReplacedWindow(h, end, replacement, end);
    ReplacedSuffix(h, end, replacement, |h|);
    assert h[end..|h|] == h[end..];
  }
}
