/**
 * Tool names, synthesized ids and repeated calls, in terms of the characters and fields alone.
 */
module ToolMeaning {
  import opened Chars
  import opened Lists
  import opened ToolExec

  // ---- names ------------------------------------------------------------------------------------------------------

  predicate IsLetterOrDigit(c: char) {
    (c >= '0' && c <= '9') || (c >= 'a' && c <= 'z') || (c >= 'A' && c <= 'Z')
  }

  /** Equal, or the two cases of one ASCII letter. */
  predicate SameLetter(a: char, b: char) {
    || a == b
    || ('A' <= a <= 'Z' && b as int == a as int + 32)
    || ('A' <= b <= 'Z' && a as int == b as int + 32)
  }

  /** The names differ only in the case of letters and in characters that are neither letters nor digits. */
  predicate SameName(a: string, b: string)
    decreases |a| + |b|
  {
    if a != "" && !IsLetterOrDigit(a[0]) then SameName(a[1..], b)
    else if b != "" && !IsLetterOrDigit(b[0]) then SameName(a, b[1..])
    else if a == "" || b == "" then a == b
    else SameLetter(a[0], b[0]) && SameName(a[1..], b[1..])
  }

  lemma SquashStep(s: string)
    requires s != ""
    ensures Squash(s) == if IsLetterOrDigit(s[0]) then [ToAsciiLower(s[0])] + Squash(s[1..]) else Squash(s[1..])
  {
    var rest := Filter(s[1..], IsAsciiAlphanumeric);
    if IsLetterOrDigit(s[0]) {
      assert Lower([s[0]] + rest) == [ToAsciiLower(s[0])] + Lower(rest);
    }
  }

  lemma SameHead(x: char, s: string, y: char, t: string)
    ensures [x] + s == [y] + t <==> x == y && s == t
  {
    if [x] + s == [y] + t {
      assert ([x] + s)[0] == ([y] + t)[0] && ([x] + s)[1..] == ([y] + t)[1..];
    }
  }

  lemma LowerIsSameLetter(a: char, b: char)
    requires IsLetterOrDigit(a) && IsLetterOrDigit(b)
    ensures ToAsciiLower(a) == ToAsciiLower(b) <==> SameLetter(a, b)
  {
  }

  /** Two names squash alike exactly if they differ only in case and punctuation. */
  lemma {:induction false} SquashAlikeIff(a: string, b: string)
    ensures Squash(a) == Squash(b) <==> SameName(a, b)
    decreases |a| + |b|
  {
    if a != "" { SquashStep(a); }
    if b != "" { SquashStep(b); }
    if a != "" && !IsLetterOrDigit(a[0]) {
      SquashAlikeIff(a[1..], b);
    } else if b != "" && !IsLetterOrDigit(b[0]) {
      SquashAlikeIff(a, b[1..]);
    } else if a != "" && b != "" {
      SquashAlikeIff(a[1..], b[1..]);
      LowerIsSameLetter(a[0], b[0]);
      SameHead(ToAsciiLower(a[0]), Squash(a[1..]), ToAsciiLower(b[0]), Squash(b[1..]));
    }
  }

  /**
   * A visible name stays. Another becomes the first visible name that differs from it only in case and punctuation, and
   * stays if there is none.
   */
  lemma RepairedNameIs(visible: seq<string>, name: string)
    ensures var r := RepairedName(visible, name);
      if exists i :: 0 <= i < |visible| && visible[i] == name then r == name
      else if forall i :: 0 <= i < |visible| ==> !SameName(visible[i], name) then r == name
      else exists i :: 0 <= i < |visible| && r == visible[i] && SameName(visible[i], name)
             && forall j :: 0 <= j < i ==> !SameName(visible[j], name)
  {
    forall i | 0 <= i < |visible| ensures Squash(visible[i]) == Squash(name) <==> SameName(visible[i], name) {
      SquashAlikeIff(visible[i], name);
    }
    if name !in visible && FirstMatch(visible, Squash(name)).Some? {
      var i := FirstMatchIsFirst(visible, Squash(name));
      assert SameName(visible[i], name);
    }
  }

  // ---- synthesized ids --------------------------------------------------------------------------------------------

  lemma {:induction false} DigitsDiffer(n: nat, m: nat)
    requires Digits(n) == Digits(m)
    ensures n == m
  {
    var d := Digits(n);
    if n >= 10 && m >= 10 {
      assert d[..|d| - 1] == Digits(n / 10) && d[|d| - 1] == n % 10;
      assert d[..|d| - 1] == Digits(m / 10) && d[|d| - 1] == m % 10;
      DigitsDiffer(n / 10, m / 10);
    }
  }

  lemma DecimalsDiffer(n: nat, m: nat)
    requires DecimalText(n) == DecimalText(m)
    ensures n == m
  {
    var a, b := Digits(n), Digits(m);
    forall i | 0 <= i < |a| ensures |a| == |b| && a[i] == b[i] {
      assert DecimalText(n)[i] == DecimalText(m)[i];
    }
    assert a == b;
    DigitsDiffer(n, m);
  }

  /** Where no `_` stands before it, the first one separates. */
  lemma SplitAtUnderscore(a: string, b: string, c: string, d: string)
    requires a + "_" + b == c + "_" + d
    requires (forall i :: 0 <= i < |a| ==> a[i] != '_') && (forall i :: 0 <= i < |c| ==> c[i] != '_')
    ensures a == c && b == d
  {
    var s := a + "_" + b;
    assert s[|a|] == '_' && s[|c|] == '_';
    assert forall i :: 0 <= i < |a| ==> s[i] == a[i];
    assert forall i :: 0 <= i < |c| ==> s[i] == c[i];
    assert |a| == |c|;
    assert s[..|a|] == a && s[..|c|] == c && s[|a| + 1..] == b && s[|c| + 1..] == d;
  }

  /** Ids made for different turns or different calls of a turn differ. */
  lemma SynthesizedIdsDiffer(turn: nat, index: nat, turn': nat, index': nat)
    requires SynthesizedId(turn, index) == SynthesizedId(turn', index')
    ensures turn == turn' && index == index'
  {
    var a, b, c, d := DecimalText(turn), DecimalText(index), DecimalText(turn'), DecimalText(index');
    var s := SynthesizedId(turn, index);
    assert s == "call_" + (a + "_" + b) && s == "call_" + (c + "_" + d);
    assert s[5..] == a + "_" + b && s[5..] == c + "_" + d;
    SplitAtUnderscore(a, b, c, d);
    DecimalsDiffer(turn, turn');
    DecimalsDiffer(index, index');
  }

  // ---- repeated calls ---------------------------------------------------------------------------------------------

  /** The same tool with the same input, failing both times, or succeeding or being neither with the same output. */
  predicate Repeated(a: Result, b: Result) {
    var failedA := a.outcome.ToolError? || a.outcome.Failed? || a.outcome.Denied?;
    var failedB := b.outcome.ToolError? || b.outcome.Failed? || b.outcome.Denied?;
    && a.call.toolName == b.call.toolName && a.call.input == b.call.input && failedA == failedB
    && (a.outcome.Success? <==> b.outcome.Success?)
    && (a.outcome.Success? && b.outcome.Success? ==> a.outcome.output == b.outcome.output)
  }

  lemma SameCallIs(a: Result, b: Result)
    ensures SameCall(a, b) <==> Repeated(a, b)
  {
  }

  /** The last `n` results are repetitions of one call, and the one before them, if any, is not. */
  ghost predicate EndsInRun(results: seq<Result>, n: nat) {
    && 0 < n <= |results|
    && (forall i :: |results| - n < i < |results| ==> Repeated(results[i - 1], results[i]))
    && (n < |results| ==> !Repeated(results[|results| - n - 1], results[|results| - n]))
  }

  lemma {:induction false} RepeatsIsRun(results: seq<Result>)
    requires results != []
    ensures EndsInRun(results, Repeats(results))
  {
    var n := |results|;
    if n >= 2 {
      var init := results[..n - 1];
      SameCallIs(results[n - 2], results[n - 1]);
      if SameCall(results[n - 2], results[n - 1]) {
        RepeatsIsRun(init);
      }
    }
  }

  /** After any results, the next one calls for a note exactly if it completes a run whose length is a multiple of three. */
  lemma NoteIsDueIff(results: seq<Result>, r: Result) returns (n: nat)
    ensures EndsInRun(results + [r], n)
    ensures Counted(StreakAfter(FRESH, results), r).1 <==> n % 3 == 0
  {
    n := Repeats(results + [r]);
    RepeatsIsRun(results + [r]);
    NoteEveryThird(results, r);
  }
}
