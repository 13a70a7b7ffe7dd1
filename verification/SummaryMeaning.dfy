/**
 * What a summary holds, line by line: which lines there are, which are kept, and the notice of what is not.
 */
module SummaryMeaning {
  import opened SummaryText
  import opened SummarySelection

  /** A summary is the heading, the scope, the earlier lines under their heading if there are any, and the new ones. */
  lemma BuiltIs(count: nat, previous: seq<string>, recent: seq<string>)
    ensures var lines := BuildSummaryLines(count, previous, recent); var p := |previous| + (if previous == [] then 2 else 3);
      && |lines| == p + 1 + |recent| && lines[0] == Header && lines[1] == Scope(count)
      && (previous != [] ==> lines[2] == PreviousSectionHeader)
      && (forall i :: 0 <= i < |previous| ==> lines[3 + i] == PreviousDetail(previous[i]))
      && lines[p] == NewSectionHeader && forall i :: 0 <= i < |recent| ==> lines[p + 1 + i] == NewDetail(recent[i])
  {
  }

  /** A bullet of either kind is taken off, and nothing else. */
  lemma BulletsAreStripped(s: string)
    ensures StripBullet("- " + s) == s && StripBullet("* " + s) == s
    ensures |s| < 2 || s[1] != ' ' || (s[0] != '-' && s[0] != '*') ==> StripBullet(s) == s
  {
    assert ("- " + s)[2..] == s && ("* " + s)[2..] == s;
  }

  // ---- which lines are kept ---------------------------------------------------------------------------------------

  /** Heading and scope come first, then the new lines, then the earlier ones, then notices. */
  function Rank(l: SummaryLine): nat {
    if l.Header? || l.Scope? then 0
    else if l.NewSectionHeader? || l.NewDetail? then 1
    else if l.PreviousSectionHeader? || l.PreviousDetail? then 2
    else 3
  }

  predicate Before(lines: seq<SummaryLine>, i: nat, j: nat) {
    i < |lines| && j < |lines| && (Rank(lines[i]) < Rank(lines[j]) || (Rank(lines[i]) == Rank(lines[j]) && i < j))
  }

  /** What a later state of the selection holds of the lines seen by an earlier one was there already. */
  lemma {:induction false} ChosenEarlier(lines: seq<SummaryLine>, b: Budget, p: nat, i: nat, q: nat, k: nat, x: nat)
    requires b.Valid() && i <= |lines| && k <= |lines| && (p < q || (p == q && i <= k))
    requires x in Chosen(lines, b, q, k) && x < |lines| && Seen(lines, p, i, x)
    ensures x in Chosen(lines, b, p, i)
    decreases q, k
  {
    if p < q || i < k {
      if k > 0 {
        if x in Chosen(lines, b, q, k - 1) {
          ChosenEarlier(lines, b, p, i, q, k - 1, x);
        }
      } else {
        ChosenEarlier(lines, b, p, i, q - 1, |lines|, x);
      }
    }
  }

  lemma ChosenIsBefore(lines: seq<SummaryLine>, b: Budget, j: nat, i: nat)
    requires b.Valid() && j < |lines|
    ensures i in Chosen(lines, b, Priority(lines[j]), j) <==> i in Selection(lines, b) && Before(lines, i, j)
  {
    var p, all := Priority(lines[j]), Chosen(lines, b, 3, |lines|);
    var kept := Chosen(lines, b, p, j);
    AscendingIs(all, |lines|);
    ChosenBefore(lines, b, p, j);
    ChosenGrows(lines, b, p, j, 3, |lines|);
    if i in kept {
      var k :| 0 <= k < |kept| && kept[k] == i;
      assert all[k] == i && Seen(lines, p, j, kept[k]);
    }
    if i in all && Before(lines, i, j) {
      ChosenEarlier(lines, b, p, j, 3, |lines|, i);
    }
  }

  /**
   * A line is kept exactly if it still fits behind the kept lines that come before it: those of lower rank, and earlier
   * ones of its own.
   */
  lemma KeptIff(lines: seq<SummaryLine>, b: Budget, j: nat) returns (kept: Indexes)
    requires b.Valid() && j < |lines|
    ensures Distinct(kept) && forall i :: i in kept <==> i in Selection(lines, b) && Before(lines, i, j)
    ensures InRange(kept + [j], |lines|)
    ensures j in Selection(lines, b) <==>
      Tokens(|Join(At(lines, kept + [j]), "\n")|, b.charsPerToken) <= b.maxTokens
  {
    kept := Chosen(lines, b, Priority(lines[j]), j);
    ChosenBefore(lines, b, Priority(lines[j]), j);
    PriorityDecides(lines, b, j);
    forall i: nat ensures i in kept <==> i in Selection(lines, b) && Before(lines, i, j) {
      ChosenIsBefore(lines, b, j, i);
    }
  }

  /** The stored lines are the kept ones in their order, then, if any is missing and it still fits, how many are. */
  lemma StoredIs(lines: seq<SummaryLine>, b: Budget)
    requires b.Valid()
    ensures var kept, stored := Pick(lines, Selection(lines, b)), Compressed(lines, b);
      var notice := OmissionNotice(if |lines| > |kept| then |lines| - |kept| else 0);
      stored == if |lines| > |kept| && Tokens(|Join(Texts(kept + [notice]), "\n")|, b.charsPerToken) <= b.maxTokens
                then kept + [notice] else kept
  {
  }
}
