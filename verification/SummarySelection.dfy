/**
 * Choosing which lines of a summary to keep within a token budget: by priority first, then printed in their
 * original order.
 */
module SummarySelection {
  import opened Options
  import opened Lists
  import opened SummaryText

  /** Ceiling division of characters by characters per token. */
  function Tokens(chars: nat, charsPerToken: nat): nat
    requires charsPerToken > 0
  {
    if chars == 0 then 0 else (chars + charsPerToken - 1) / charsPerToken
  }

  /** The fewest tokens whose characters cover the text. */
  lemma TokensAreFewest(chars: nat, charsPerToken: nat)
    requires charsPerToken > 0
    ensures chars <= charsPerToken * Tokens(chars, charsPerToken)
    ensures chars > 0 ==> charsPerToken * (Tokens(chars, charsPerToken) - 1) < chars
    ensures chars == 0 ==> Tokens(chars, charsPerToken) == 0
  {
    if chars > 0 {
      var n, d := chars + charsPerToken - 1, charsPerToken;
      assert n == d * (n / d) + n % d;
      assert d * (n / d - 1) == d * (n / d) - d;
    }
  }

  datatype Budget = Budget(charsPerToken: nat, maxTokens: nat)
  {
    predicate Valid() { charsPerToken > 0 }

    /** `summary_lines_fit`. */
    predicate Fits(texts: seq<string>)
      requires Valid()
    {
      Tokens(|Join(texts, "\n")|, charsPerToken) <= maxTokens
    }
  }

  function Priority(l: SummaryLine): (p: nat)
    ensures p <= 3
  {
    match l
    case Header => 0
    case Scope(_) => 0
    case NewSectionHeader => 1
    case NewDetail(_) => 1
    case PreviousSectionHeader => 2
    case PreviousDetail(_) => 2
    case OmissionNotice(_) => 3
  }

  type Indexes = seq<nat>

  predicate InRange(idx: Indexes, n: nat) { forall k :: 0 <= k < |idx| ==> idx[k] < n }

  predicate Distinct(idx: Indexes) { forall a, b :: 0 <= a < b < |idx| ==> idx[a] != idx[b] }

  /** The texts at the given indexes. */
  function At(lines: seq<SummaryLine>, idx: Indexes): seq<string>
    requires InRange(idx, |lines|)
  {
    seq(|idx|, k requires 0 <= k < |idx| => TextOf(lines[idx[k]]))
  }

  /** What the greedy pass has chosen when it has looked at the first `i` lines in its pass for priority `p`. */
  function Chosen(lines: seq<SummaryLine>, b: Budget, p: nat, i: nat): (idx: Indexes)
    requires b.Valid() && i <= |lines|
    ensures InRange(idx, |lines|)
    decreases p, i
  {
    if i == 0 then (if p == 0 then [] else Chosen(lines, b, p - 1, |lines|))
    else
      var before := Chosen(lines, b, p, i - 1);
      if Priority(lines[i - 1]) == p && b.Fits(At(lines, before + [i - 1])) then before + [i - 1] else before
  }

  /** The indexes in increasing order. */
  function Ascending(idx: Indexes, n: nat): Indexes {
    if n == 0 then [] else if n - 1 in idx then Ascending(idx, n - 1) + [n - 1] else Ascending(idx, n - 1)
  }

  function Selection(lines: seq<SummaryLine>, b: Budget): (idx: Indexes)
    requires b.Valid()
    ensures InRange(idx, |lines|)
  {
    AscendingIs(Chosen(lines, b, 3, |lines|), |lines|);
    Ascending(Chosen(lines, b, 3, |lines|), |lines|)
  }

  predicate Increasing(idx: Indexes) { forall a, b :: 0 <= a < b < |idx| ==> idx[a] < idx[b] }

  lemma {:induction false} AscendingIs(idx: Indexes, n: nat)
    ensures forall x :: x in Ascending(idx, n) <==> x < n && x in idx
    ensures InRange(Ascending(idx, n), n) && Increasing(Ascending(idx, n))
  {
    if n > 0 {
      AscendingIs(idx, n - 1);
    }
  }

  /** `select_summary_lines`: passes over priorities 0 to 3, then a sort. */
  method SelectSummaryLines(lines: seq<SummaryLine>, b: Budget) returns (selected: Indexes)
    requires b.Valid()
    ensures selected == Selection(lines, b)
  {
    selected := [];
    for p := 0 to 4
      invariant selected == if p == 0 then [] else Chosen(lines, b, p - 1, |lines|)
    {
      for i := 0 to |lines|
        invariant selected == Chosen(lines, b, p, i)
      {
        ChosenBefore(lines, b, p, i);
        if Priority(lines[i]) == p && i !in selected {
          if b.Fits(At(lines, selected + [i])) {
            selected := selected + [i];
          }
        }
      }
    }
    selected := Ascending(selected, |lines|);
  }

  /** The pass has seen line `j`. */
  predicate Seen(lines: seq<SummaryLine>, p: nat, i: nat, j: nat)
    requires j < |lines|
  {
    Priority(lines[j]) < p || (Priority(lines[j]) == p && j < i)
  }

  predicate AllSeen(lines: seq<SummaryLine>, p: nat, i: nat, idx: Indexes) {
    InRange(idx, |lines|) && forall k :: 0 <= k < |idx| ==> Seen(lines, p, i, idx[k])
  }

  lemma {:induction false} ChosenBefore(lines: seq<SummaryLine>, b: Budget, p: nat, i: nat)
    requires b.Valid() && i <= |lines|
    ensures Distinct(Chosen(lines, b, p, i)) && AllSeen(lines, p, i, Chosen(lines, b, p, i))
    decreases p, i
  {
    if i > 0 {
      ChosenBefore(lines, b, p, i - 1);
      SeenNext(lines, p, i - 1, Chosen(lines, b, p, i - 1));
    } else if p > 0 {
      ChosenBefore(lines, b, p - 1, |lines|);
    }
  }

  lemma SeenNext(lines: seq<SummaryLine>, p: nat, i: nat, idx: Indexes)
    requires i < |lines| && Distinct(idx) && AllSeen(lines, p, i, idx)
    ensures AllSeen(lines, p, i + 1, idx)
    ensures Priority(lines[i]) == p ==> i !in idx && Distinct(idx + [i]) && AllSeen(lines, p, i + 1, idx + [i])
  {
  }

  // ---- sizes ------------------------------------------------------------------------------------------------------

  function Chars(texts: seq<string>): nat {
    if texts == [] then 0 else |texts[0]| + Chars(texts[1..])
  }

  lemma {:induction false} JoinLength(texts: seq<string>)
    ensures |Join(texts, "\n")| == Chars(texts) + (if texts == [] then 0 else |texts| - 1)
  {
    if |texts| == 1 {
      assert texts[1..] == [];
    } else if |texts| > 1 {
      JoinLength(texts[1..]);
    }
  }

  lemma {:induction false} CharsAppend(a: seq<string>, b: seq<string>)
    ensures Chars(a + b) == Chars(a) + Chars(b)
  {
    if a == [] {
      assert a + b == b;
    } else {
      assert (a + b)[1..] == a[1..] + b;
      CharsAppend(a[1..], b);
    }
  }

  lemma TokensMonotone(a: nat, c: nat, charsPerToken: nat)
    requires charsPerToken > 0 && a <= c
    ensures Tokens(a, charsPerToken) <= Tokens(c, charsPerToken)
  {
    if a > 0 {
      var q := (c + charsPerToken - 1) / charsPerToken;
      assert c + charsPerToken - 1 < charsPerToken * (q + 1);
      DivBelow(a + charsPerToken - 1, charsPerToken, q);
    }
  }

  lemma DivBelow(a: nat, d: nat, q: nat)
    requires d > 0 && a < d * (q + 1)
    ensures a / d <= q
  {
    assert d * (a / d) <= a;
    if a / d > q {
      MulMonotone(d, q + 1, a / d);
    }
  }

  lemma MulMonotone(d: nat, x: nat, y: nat)
    requires x <= y
    ensures d * x <= d * y
  {
  }

  /** Fitting depends only on the number of lines and of characters, and smaller fits if larger does. */
  lemma FitsMonotone(b: Budget, few: seq<string>, many: seq<string>)
    requires b.Valid() && |few| <= |many| && Chars(few) <= Chars(many)
    ensures b.Fits(many) ==> b.Fits(few)
  {
    JoinLength(few);
    JoinLength(many);
    TokensMonotone(|Join(few, "\n")|, |Join(many, "\n")|, b.charsPerToken);
  }

  lemma AtAppend(lines: seq<SummaryLine>, a: Indexes, c: Indexes)
    requires InRange(a, |lines|) && InRange(c, |lines|)
    ensures InRange(a + c, |lines|) && Chars(At(lines, a + c)) == Chars(At(lines, a)) + Chars(At(lines, c))
  {
    var both := At(lines, a) + At(lines, c);
    forall k | 0 <= k < |a + c| ensures (a + c)[k] < |lines| && TextOf(lines[(a + c)[k]]) == both[k] {
      if k < |a| {
        assert (a + c)[k] == a[k];
      } else {
        assert (a + c)[k] == c[k - |a|];
      }
    }
    assert At(lines, a + c) == both;
    CharsAppend(At(lines, a), At(lines, c));
  }

  /** The size of each line, and of a list of lines. */
  function Size(lines: seq<SummaryLine>, i: nat): nat { if i < |lines| then |TextOf(lines[i])| else 0 }

  function TotalSize(lines: seq<SummaryLine>, idx: Indexes): nat {
    if idx == [] then 0 else Size(lines, idx[0]) + TotalSize(lines, idx[1..])
  }

  lemma {:induction false} CharsAreTotal(lines: seq<SummaryLine>, idx: Indexes)
    requires InRange(idx, |lines|)
    ensures Chars(At(lines, idx)) == TotalSize(lines, idx)
  {
    if idx != [] {
      assert At(lines, idx)[1..] == At(lines, idx[1..]);
      CharsAreTotal(lines, idx[1..]);
    }
  }

  lemma {:induction false} TotalRemove(lines: seq<SummaryLine>, s: Indexes, k: nat)
    requires k < |s|
    ensures TotalSize(lines, s) == Size(lines, s[k]) + TotalSize(lines, s[..k] + s[k + 1..])
  {
    var r := s[..k] + s[k + 1..];
    if k == 0 {
      assert r == s[1..];
    } else {
      TotalRemove(lines, s[1..], k - 1);
      assert r[1..] == s[1..][..k - 1] + s[1..][k..];
    }
  }

  lemma MultisetRemove(s: Indexes, k: nat)
    requires k < |s|
    ensures multiset(s) == multiset{s[k]} + multiset(s[..k] + s[k + 1..])
  {
    assert s == s[..k] + ([s[k]] + s[k + 1..]);
  }

  lemma MultisetCancel(x: nat, m: multiset<nat>, n: multiset<nat>)
    requires multiset{x} + m == multiset{x} + n
    ensures m == n
  {
    forall y: nat ensures m[y] == n[y] {
      assert (multiset{x} + m)[y] == (multiset{x} + n)[y];
    }
  }

  lemma MatchHead(a: Indexes, c: Indexes) returns (k: nat)
    requires a != [] && multiset(a) == multiset(c)
    ensures k < |c| && c[k] == a[0] && multiset(a[1..]) == multiset(c[..k] + c[k + 1..])
  {
    assert a[0] in multiset(c);
    k :| 0 <= k < |c| && c[k] == a[0];
    MultisetRemove(a, 0);
    MultisetRemove(c, k);
    assert a[..0] + a[1..] == a[1..];
    MultisetCancel(a[0], multiset(a[1..]), multiset(c[..k] + c[k + 1..]));
  }

  /** The order of the lines does not change their total size. */
  lemma {:induction false} SizeOfPermutation(lines: seq<SummaryLine>, a: Indexes, c: Indexes)
    requires multiset(a) == multiset(c)
    ensures |a| == |c| && TotalSize(lines, a) == TotalSize(lines, c)
  {
    if a == [] {
      assert |multiset(c)| == |c|;
    } else {
      var k := MatchHead(a, c);
      TotalRemove(lines, c, k);
      SizeOfPermutation(lines, a[1..], c[..k] + c[k + 1..]);
    }
  }

  lemma {:induction false} DistinctMultiset(idx: Indexes, x: nat)
    requires Distinct(idx)
    ensures multiset(idx)[x] == if x in idx then 1 else 0
  {
    if idx != [] {
      DistinctMultiset(idx[1..], x);
      assert idx == [idx[0]] + idx[1..];
    }
  }

  /** Sorting distinct indexes permutes them. */
  lemma AscendingIsPermutation(idx: Indexes, n: nat)
    requires InRange(idx, n) && Distinct(idx)
    ensures multiset(Ascending(idx, n)) == multiset(idx)
  {
    AscendingIs(idx, n);
    forall x: nat ensures multiset(Ascending(idx, n))[x] == multiset(idx)[x] {
      DistinctMultiset(idx, x);
      DistinctMultiset(Ascending(idx, n), x);
    }
  }

  // ---- the result -------------------------------------------------------------------------------------------------

  lemma FitsPermutation(lines: seq<SummaryLine>, b: Budget, a: Indexes, c: Indexes)
    requires b.Valid() && InRange(a, |lines|) && InRange(c, |lines|) && multiset(a) == multiset(c)
    ensures b.Fits(At(lines, a)) <==> b.Fits(At(lines, c))
  {
    SizeOfPermutation(lines, a, c);
    CharsAreTotal(lines, a);
    CharsAreTotal(lines, c);
    FitsMonotone(b, At(lines, a), At(lines, c));
    FitsMonotone(b, At(lines, c), At(lines, a));
  }

  lemma {:induction false} ChosenFits(lines: seq<SummaryLine>, b: Budget, p: nat, i: nat)
    requires b.Valid() && i <= |lines|
    ensures b.Fits(At(lines, Chosen(lines, b, p, i)))
    decreases p, i
  {
    if i > 0 {
      ChosenFits(lines, b, p, i - 1);
    } else if p > 0 {
      ChosenFits(lines, b, p - 1, |lines|);
    }
  }

  /** Adding a line to more chosen lines takes at least as much. */
  lemma StillTooLong(lines: seq<SummaryLine>, b: Budget, idx: Indexes, added: nat, j: nat)
    requires b.Valid() && InRange(idx, |lines|) && added < |lines| && j < |lines|
    requires !b.Fits(At(lines, idx + [j]))
    ensures !b.Fits(At(lines, idx + [added] + [j]))
  {
    AtAppend(lines, idx, [j]);
    AtAppend(lines, idx, [added]);
    AtAppend(lines, idx + [added], [j]);
    FitsMonotone(b, At(lines, idx + [j]), At(lines, idx + [added] + [j]));
  }

  lemma {:induction false} RejectedStaysTooLong(lines: seq<SummaryLine>, b: Budget, p: nat, i: nat, j: nat)
    requires b.Valid() && i <= |lines| && j < |lines| && Seen(lines, p, i, j)
    requires j !in Chosen(lines, b, p, i)
    ensures !b.Fits(At(lines, Chosen(lines, b, p, i) + [j]))
    decreases p, i
  {
    if i == 0 {
      RejectedStaysTooLong(lines, b, p - 1, |lines|, j);
    } else if !(Priority(lines[j]) == p && j == i - 1) {
      var before := Chosen(lines, b, p, i - 1);
      RejectedStaysTooLong(lines, b, p, i - 1, j);
      if Chosen(lines, b, p, i) != before {
        StillTooLong(lines, b, before, i - 1, j);
      }
    }
  }

  /** The selected lines fit in source order, though fitting was checked in order of priority. */
  lemma SelectionFits(lines: seq<SummaryLine>, b: Budget)
    requires b.Valid()
    ensures b.Fits(At(lines, Selection(lines, b)))
  {
    var chosen := Chosen(lines, b, 3, |lines|);
    ChosenFits(lines, b, 3, |lines|);
    ChosenBefore(lines, b, 3, |lines|);
    AscendingIsPermutation(chosen, |lines|);
    FitsPermutation(lines, b, chosen, Selection(lines, b));
  }

  /** No line left out could be added, at any place, without exceeding the budget. */
  lemma SelectionIsMaximal(lines: seq<SummaryLine>, b: Budget, j: nat, more: Indexes)
    requires b.Valid() && j < |lines| && j !in Selection(lines, b)
    requires InRange(more, |lines|) && multiset(more) == multiset(Selection(lines, b)) + multiset{j}
    ensures !b.Fits(At(lines, more))
  {
    var chosen := Chosen(lines, b, 3, |lines|);
    AscendingIs(chosen, |lines|);
    RejectedStaysTooLong(lines, b, 3, |lines|, j);
    ChosenBefore(lines, b, 3, |lines|);
    AscendingIsPermutation(chosen, |lines|);
    FitsPermutation(lines, b, chosen + [j], more);
  }

  /** A line is decided when its own turn comes, and the decision stands. */
  lemma {:induction false} DecidedOnce(lines: seq<SummaryLine>, b: Budget, p: nat, i: nat, j: nat)
    requires b.Valid() && i <= |lines| && j < |lines| && Seen(lines, p, i, j)
    ensures j in Chosen(lines, b, p, i) <==> b.Fits(At(lines, Chosen(lines, b, Priority(lines[j]), j) + [j]))
    decreases p, i
  {
    if i == 0 {
      DecidedOnce(lines, b, p - 1, |lines|, j);
    } else if Priority(lines[j]) == p && j == i - 1 {
      ChosenBefore(lines, b, p, j);
      SeenNext(lines, p, j, Chosen(lines, b, p, j));
    } else {
      DecidedOnce(lines, b, p, i - 1, j);
    }
  }

  /** A line is kept exactly if it fits behind the lines kept before it: those of higher priority, or earlier. */
  lemma PriorityDecides(lines: seq<SummaryLine>, b: Budget, j: nat)
    requires b.Valid() && j < |lines|
    ensures j in Selection(lines, b) <==> b.Fits(At(lines, Chosen(lines, b, Priority(lines[j]), j) + [j]))
    ensures AllSeen(lines, Priority(lines[j]), j, Chosen(lines, b, Priority(lines[j]), j))
  {
    AscendingIs(Chosen(lines, b, 3, |lines|), |lines|);
    DecidedOnce(lines, b, 3, |lines|, j);
    ChosenBefore(lines, b, Priority(lines[j]), j);
  }

  lemma {:induction false} ChosenGrows(lines: seq<SummaryLine>, b: Budget, p: nat, i: nat, q: nat, k: nat)
    requires b.Valid() && i <= |lines| && k <= |lines| && (p < q || (p == q && i <= k))
    ensures Chosen(lines, b, p, i) <= Chosen(lines, b, q, k)
    decreases q, k
  {
    if p < q || i < k {
      if k > 0 {
        ChosenGrows(lines, b, p, i, q, k - 1);
      } else {
        ChosenGrows(lines, b, p, i, q - 1, |lines|);
      }
    }
  }

  /** A new detail is left out only for want of room beside the heading and other new lines: old ones never displace it. */
  lemma OldNeverDisplacesNew(lines: seq<SummaryLine>, b: Budget, j: nat)
    requires b.Valid() && j < |lines| && lines[j].NewDetail? && j !in Selection(lines, b)
    ensures var kept := Chosen(lines, b, 1, j);
      && (forall i <- kept :: i in Selection(lines, b) && i < |lines|
            && (lines[i].Header? || lines[i].Scope? || lines[i].NewSectionHeader? || lines[i].NewDetail?))
      && !b.Fits(At(lines, kept + [j]))
  {
    PriorityDecides(lines, b, j);
    var kept, all := Chosen(lines, b, 1, j), Chosen(lines, b, 3, |lines|);
    ChosenGrows(lines, b, 1, j, 3, |lines|);
    AscendingIs(all, |lines|);
    forall i | i in kept
      ensures i in Selection(lines, b) && i < |lines| && Priority(lines[i]) <= 1
    {
      var k :| 0 <= k < |kept| && kept[k] == i;
      assert all[k] == i;
    }
  }

  // ---- the stored summary -----------------------------------------------------------------------------------------

  function Pick(lines: seq<SummaryLine>, idx: Indexes): seq<SummaryLine>
    requires InRange(idx, |lines|)
  {
    seq(|idx|, k requires 0 <= k < |idx| => lines[idx[k]])
  }

  /** The selected lines, and the notice of how many were left out if it fits too. */
  function Compressed(lines: seq<SummaryLine>, b: Budget): seq<SummaryLine>
    requires b.Valid()
  {
    var picked := Pick(lines, Selection(lines, b));
    var omitted := if |lines| > |picked| then |lines| - |picked| else 0;
    if omitted > 0 && b.Fits(Texts(picked + [OmissionNotice(omitted)]))
    then picked + [OmissionNotice(omitted)] else picked
  }

  /** The summary text; an error if no new detail is left. */
  method Summarize(lines: seq<SummaryLine>, b: Budget) returns (summary: Option<string>)
    requires b.Valid()
    ensures summary.Some? <==> exists l <- Compressed(lines, b) :: l.NewDetail?
    ensures summary.Some? ==> summary.value == Print(Compressed(lines, b))
  {
    var selected := SelectSummaryLines(lines, b);
    var compressed := Pick(lines, selected);
    if |lines| > |compressed| {
      var notice := OmissionNotice(|lines| - |compressed|);
      if b.Fits(Texts(compressed + [notice])) {
        compressed := compressed + [notice];
      }
    }
    if !(exists l <- compressed :: l.NewDetail?) {
      return None;
    }
    return Some(Print(compressed));
  }

  /** The stored summary is within its budget, and its details can be extracted from it again. */
  lemma StoredSummary(lines: seq<SummaryLine>, b: Budget)
    requires b.Valid() && Printable(lines)
    ensures Tokens(|Print(Compressed(lines, b))|, b.charsPerToken) <= b.maxTokens
    ensures ExtractPreviousLines(Print(Compressed(lines, b)))
         == Deduped(Filter(Details(Pick(lines, Selection(lines, b))), IsFree))
  {
    var idx, stored := Selection(lines, b), Compressed(lines, b);
    var picked := Pick(lines, idx);
    SelectionFits(lines, b);
    assert Texts(picked) == At(lines, idx);
    StoredIsPrintable(lines, idx);
    if stored != picked {
      WithNotice(picked, stored[|picked|]);
    }
    PrintedSummaryReadsBack(stored);
  }

  lemma StoredIsPrintable(lines: seq<SummaryLine>, idx: Indexes)
    requires InRange(idx, |lines|) && Printable(lines)
    ensures Printable(Pick(lines, idx))
  {
    forall l | l in Pick(lines, idx) ensures l in lines {
      var k :| 0 <= k < |idx| && l == lines[idx[k]];
    }
  }

  lemma WithNotice(picked: seq<SummaryLine>, notice: SummaryLine)
    requires Printable(picked) && notice.OmissionNotice?
    ensures Printable(picked + [notice]) && Details(picked + [notice]) == Details(picked)
  {
    DetailsAppend(picked, [notice]);
    DetailsSkip(notice, []);
    assert [notice] + [] == [notice];
  }
}
