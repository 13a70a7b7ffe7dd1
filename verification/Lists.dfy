/** Sequences filtered and trimmed by a condition. */
module Lists {
  lemma Regroup<T>(a: seq<T>, b: seq<T>, c: seq<T>)
    ensures a + b + c == a + (b + c)
  {
  }

  // ---- trimming ---------------------------------------------------------------------------------------------------

  function TrimStart<T>(s: seq<T>, blank: T -> bool): (r: seq<T>)
    ensures |r| <= |s| && (r != [] ==> !blank(r[0]))
    ensures s != [] && !blank(s[|s| - 1]) ==> r != [] && r[|r| - 1] == s[|s| - 1]
  {
    if s != [] && blank(s[0]) then TrimStart(s[1..], blank) else s
  }

  function TrimEnd<T>(s: seq<T>, blank: T -> bool): (r: seq<T>)
    ensures |r| <= |s| && (r != [] ==> r[0] == s[0] && !blank(r[|r| - 1]))
  {
    if s != [] && blank(s[|s| - 1]) then TrimEnd(s[..|s| - 1], blank) else s
  }

  function Trim<T>(s: seq<T>, blank: T -> bool): (r: seq<T>)
    ensures |r| <= |s| && (r != [] ==> !blank(r[0]) && !blank(r[|r| - 1]))
    ensures s != [] && !blank(s[|s| - 1]) ==> r != [] && r[|r| - 1] == s[|s| - 1]
  {
    TrimEnd(TrimStart(s, blank), blank)
  }

  predicate AllBlank<T>(s: seq<T>, blank: T -> bool) { forall i :: 0 <= i < |s| ==> blank(s[i]) }

  lemma {:induction false} TrimStartDrops<T>(before: seq<T>, s: seq<T>, blank: T -> bool)
    requires AllBlank(before, blank) && (s != [] ==> !blank(s[0]))
    ensures TrimStart(before + s, blank) == s
  {
    if before == [] {
      assert before + s == s;
    } else {
      assert (before + s)[1..] == before[1..] + s;
      TrimStartDrops(before[1..], s, blank);
    }
  }

  lemma {:induction false} TrimEndDrops<T>(s: seq<T>, after: seq<T>, blank: T -> bool)
    requires AllBlank(after, blank) && (s != [] ==> !blank(s[|s| - 1]))
    ensures TrimEnd(s + after, blank) == s
  {
    if after == [] {
      assert s + after == s;
    } else {
      assert (s + after)[..|s + after| - 1] == s + after[..|after| - 1];
      TrimEndDrops(s, after[..|after| - 1], blank);
    }
  }

  /** Blanks around are dropped, whatever they are. */
  lemma TrimDrops<T>(before: seq<T>, s: seq<T>, after: seq<T>, blank: T -> bool)
    requires AllBlank(before, blank) && AllBlank(after, blank)
    requires s != [] ==> !blank(s[0]) && !blank(s[|s| - 1])
    ensures Trim(before + s + after, blank) == s
  {
    if s == [] {
      assert before + s + after == (before + after) + [];
      TrimStartDrops(before + after, [], blank);
    } else {
      assert before + s + after == before + (s + after);
      TrimStartDrops(before, s + after, blank);
      TrimEndDrops(s, after, blank);
    }
  }

  lemma {:induction false} TrimStartSplits<T>(s: seq<T>, blank: T -> bool) returns (before: seq<T>)
    ensures AllBlank(before, blank) && s == before + TrimStart(s, blank)
  {
    if s != [] && blank(s[0]) {
      var rest := TrimStartSplits(s[1..], blank);
      before := [s[0]] + rest;
      Regroup([s[0]], rest, TrimStart(s, blank));
      assert s == [s[0]] + s[1..];
    } else {
      before := [];
    }
  }

  lemma {:induction false} TrimEndSplits<T>(s: seq<T>, blank: T -> bool) returns (after: seq<T>)
    ensures AllBlank(after, blank) && s == TrimEnd(s, blank) + after
  {
    if s != [] && blank(s[|s| - 1]) {
      var rest := TrimEndSplits(s[..|s| - 1], blank);
      after := rest + [s[|s| - 1]];
    } else {
      after := [];
    }
  }

  /** Trimming drops blanks only. */
  lemma TrimSplits<T>(s: seq<T>, blank: T -> bool) returns (before: seq<T>, after: seq<T>)
    ensures AllBlank(before, blank) && AllBlank(after, blank) && s == before + Trim(s, blank) + after
  {
    before := TrimStartSplits(s, blank);
    after := TrimEndSplits(TrimStart(s, blank), blank);
  }

  // ---- filtering --------------------------------------------------------------------------------------------------

  function Filter<T>(s: seq<T>, keep: T -> bool): (r: seq<T>)
    ensures |r| <= |s| && forall x <- r :: keep(x) && x in s
  {
    if s == [] then [] else if keep(s[0]) then [s[0]] + Filter(s[1..], keep) else Filter(s[1..], keep)
  }

  lemma {:induction false} FilterAppend<T>(a: seq<T>, b: seq<T>, keep: T -> bool)
    ensures Filter(a + b, keep) == Filter(a, keep) + Filter(b, keep)
  {
    if a == [] {
      assert a + b == b;
    } else {
      assert (a + b)[1..] == a[1..] + b;
      FilterAppend(a[1..], b, keep);
    }
  }

  lemma {:induction false} FilterAll<T>(s: seq<T>, keep: T -> bool)
    requires forall x <- s :: keep(x)
    ensures Filter(s, keep) == s
  {
    if s != [] {
      FilterAll(s[1..], keep);
    }
  }

  lemma {:induction false} FilterNone<T>(s: seq<T>, keep: T -> bool)
    requires forall x <- s :: !keep(x)
    ensures Filter(s, keep) == []
  {
    if s != [] {
      FilterNone(s[1..], keep);
    }
  }

  lemma {:induction false} FilterKeeps<T>(s: seq<T>, i: nat, keep: T -> bool)
    requires i < |s| && keep(s[i])
    ensures Filter(s, keep) != []
  {
    if i > 0 {
      FilterKeeps(s[1..], i - 1, keep);
    }
  }

  lemma {:induction false} FilterSplits<T>(s: seq<T>, keep: T -> bool, drop: T -> bool)
    requires forall x <- s :: drop(x) == !keep(x)
    ensures multiset(Filter(s, keep)) + multiset(Filter(s, drop)) == multiset(s)
  {
    if s != [] {
      FilterSplits(s[1..], keep, drop);
      assert multiset(s) == multiset{s[0]} + multiset(s[1..]) by { assert s == [s[0]] + s[1..]; }
      if keep(s[0]) {
        assert multiset(Filter(s, keep)) == multiset{s[0]} + multiset(Filter(s[1..], keep));
      } else {
        assert multiset(Filter(s, drop)) == multiset{s[0]} + multiset(Filter(s[1..], drop));
      }
    }
  }

  lemma FilterLast<T>(s: seq<T>, x: T, keep: T -> bool)
    ensures Filter(s + [x], keep) == if keep(x) then Filter(s, keep) + [x] else Filter(s, keep)
  {
    FilterAppend(s, [x], keep);
    assert [x][1..] == [];
  }

  lemma FilterNext<T>(s: seq<T>, i: nat, keep: T -> bool)
    requires i < |s|
    ensures Filter(s[..i + 1], keep) == if keep(s[i]) then Filter(s[..i], keep) + [s[i]] else Filter(s[..i], keep)
  {
    assert s[..i + 1] == s[..i] + [s[i]];
    FilterLast(s[..i], s[i], keep);
  }

  lemma {:induction false} FilterRest<T>(s: seq<T>, keep: T -> bool, drop: T -> bool)
    requires forall x <- s :: drop(x) == !keep(x)
    requires Filter(s, drop) == []
    ensures Filter(s, keep) == s
  {
    if s != [] {
      assert keep(s[0]);
      FilterRest(s[1..], keep, drop);
      assert s == [s[0]] + s[1..];
    }
  }

  lemma FilterOrdered<T>(s: seq<T>, k: nat, keep: T -> bool, drop: T -> bool)
    requires k <= |s|
    requires forall i :: 0 <= i < |s| ==> drop(s[i]) == (i >= k) && keep(s[i]) == (i < k)
    ensures Filter(s, keep) == s[..k] && Filter(s, drop) == s[k..]
  {
    assert s == s[..k] + s[k..];
    FilterAppend(s[..k], s[k..], keep);
    FilterAppend(s[..k], s[k..], drop);
    FilterAll(s[..k], keep);
    FilterNone(s[k..], keep);
    FilterNone(s[..k], drop);
    FilterAll(s[k..], drop);
  }

  lemma {:induction false} FilterLengths<T>(s: seq<T>, keep: T -> bool, drop: T -> bool)
    requires forall x <- s :: drop(x) == !keep(x)
    ensures |Filter(s, keep)| + |Filter(s, drop)| == |s|
  {
    if s != [] {
      FilterLengths(s[1..], keep, drop);
    }
  }
}
