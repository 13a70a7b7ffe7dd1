/**
 * The text of a compaction summary: how its lines are printed, and how the next compaction reads the detail
 * lines back out of it.
 */
module SummaryText {
  import opened Chars
  import opened Lists

  // ---- words and lines --------------------------------------------------------------------------------------------

  function Join(parts: seq<string>, separator: string): string {
    if parts == [] then "" else if |parts| == 1 then parts[0] else parts[0] + separator + Join(parts[1..], separator)
  }

  /** Length of the word `s` starts with. */
  function WordLength(s: string): (n: nat)
    ensures n <= |s| && (forall i :: 0 <= i < n ==> !IsWhitespace(s[i])) && (n < |s| ==> IsWhitespace(s[n]))
  {
    if s == "" || IsWhitespace(s[0]) then 0 else 1 + WordLength(s[1..])
  }

  function Words(s: string): seq<string>
    decreases |s|
  {
    var t := TrimStart(s, IsWhitespace);
    if t == "" then [] else [t[..WordLength(t)]] + Words(t[WordLength(t)..])
  }

  /** `normalize_line`: words separated by single blanks. */
  function NormalizeLine(s: string): string { Join(Words(s), " ") }

  /** No blank at either end, none but single spaces within. */
  predicate IsNormal(s: string) {
    && (s != "" ==> !IsWhitespace(s[0]) && !IsWhitespace(s[|s| - 1]))
    && forall i :: 0 <= i < |s| && IsWhitespace(s[i]) ==> s[i] == ' ' && (i + 1 < |s| ==> !IsWhitespace(s[i + 1]))
  }

  lemma NormalTail(s: string, n: nat)
    requires IsNormal(s) && n < |s| && IsWhitespace(s[n])
    ensures n + 1 < |s| && IsNormal(s[n + 1..]) && s[n] == ' ' && !IsWhitespace(s[n + 1])
  {
    var t := s[n + 1..];
    assert forall i :: 0 <= i < |t| ==> t[i] == s[n + 1 + i];
  }

  lemma TrimOne(s: string)
    requires |s| > 1 && IsWhitespace(s[0]) && !IsWhitespace(s[1])
    ensures TrimStart(s, IsWhitespace) == s[1..]
  {
    assert TrimStart(s[1..], IsWhitespace) == s[1..];
  }

  lemma WordsAfterBlank(t: string)
    requires |t| > 1 && IsWhitespace(t[0]) && !IsWhitespace(t[1])
    ensures Words(t) == Words(t[1..])
  {
    TrimOne(t);
    assert TrimStart(t[1..], IsWhitespace) == t[1..];
  }

  lemma WordsFirst(s: string)
    requires s != "" && !IsWhitespace(s[0])
    ensures Words(s) == [s[..WordLength(s)]] + Words(s[WordLength(s)..])
  {
    assert TrimStart(s, IsWhitespace) == s;
  }

  lemma SplitAtBlank(s: string, n: nat)
    requires n < |s| && s[n] == ' '
    ensures s == s[..n] + " " + s[n + 1..] && s[n..][1..] == s[n + 1..]
  {
  }

  lemma FirstWord(s: string, n: nat)
    requires IsNormal(s) && s != "" && n == WordLength(s) < |s|
    ensures n + 1 < |s| && IsNormal(s[n + 1..]) && s == s[..n] + " " + s[n + 1..]
    ensures Words(s) == [s[..n]] + Words(s[n + 1..])
  {
    NormalTail(s, n);
    SplitAtBlank(s, n);
    WordsFirst(s);
    WordsAfterBlank(s[n..]);
  }

  /** A normal line is its own normal form. */
  lemma {:induction false} NormalIsFixed(s: string)
    requires IsNormal(s)
    ensures NormalizeLine(s) == s && (s != "" ==> Words(s) != [])
    decreases |s|
  {
    if s != "" {
      var n := WordLength(s);
      if n == |s| {
        assert s[..n] == s && Words(s[n..]) == [];
      } else {
        FirstWord(s, n);
        NormalIsFixed(s[n + 1..]);
        assert ([s[..n]] + Words(s[n + 1..]))[1..] == Words(s[n + 1..]);
      }
    }
  }

  predicate IsWord(w: string) { w != "" && forall i :: 0 <= i < |w| ==> !IsWhitespace(w[i]) }

  predicate AreWords(ws: seq<string>) { forall w <- ws :: IsWord(w) }

  lemma {:induction false} WordsAreWords(s: string)
    ensures AreWords(Words(s))
    decreases |s|
  {
    var t := TrimStart(s, IsWhitespace);
    if t != "" {
      WordsAreWords(t[WordLength(t)..]);
    }
  }

  lemma {:induction false} JoinedWordsAreNormal(ws: seq<string>)
    requires AreWords(ws)
    ensures IsNormal(Join(ws, " ")) && (ws != [] ==> Join(ws, " ") != "")
  {
    if |ws| == 1 {
      assert ws[0] in ws;
    } else if |ws| > 1 {
      var first, rest := ws[0], Join(ws[1..], " ");
      assert first in ws;
      assert forall w <- ws[1..] :: w in ws;
      JoinedWordsAreNormal(ws[1..]);
      NormalAppend(first, rest);
    }
  }

  lemma NormalAppend(word: string, rest: string)
    requires IsWord(word) && rest != "" && IsNormal(rest)
    ensures IsNormal(word + " " + rest)
  {
    var s, n := word + " " + rest, |word|;
    assert s[n] == ' ' && s[n + 1] == rest[0];
    forall i | n < i < |s| ensures s[i] == rest[i - n - 1] { }
    forall i | 0 <= i < n ensures s[i] == word[i] { }
  }

  /** What `normalize_line` leaves alone is exactly what is normal. */
  lemma FixedIsNormal(s: string)
    ensures IsNormal(NormalizeLine(s))
  {
    WordsAreWords(s);
    JoinedWordsAreNormal(Words(s));
  }

  /** Leading blanks do not matter. */
  lemma IndentIsDropped(s: string)
    ensures NormalizeLine("  " + s) == NormalizeLine(s)
  {
    var t := "  " + s;
    assert t[1..] == " " + s && (" " + s)[1..] == s;
    assert TrimStart(t, IsWhitespace) == TrimStart(" " + s, IsWhitespace) == TrimStart(s, IsWhitespace);
  }

  /** `str::lines`: split at line feeds, each taken off with a carriage return before it. */
  function LineEnd(s: string): (n: nat)
    ensures n <= |s| && (n < |s| ==> s[n] == '\n')
  {
    if s == "" || s[0] == '\n' then 0 else 1 + LineEnd(s[1..])
  }

  function DropCr(s: string): string { if s != "" && s[|s| - 1] == '\r' then s[..|s| - 1] else s }

  function LinesOf(s: string): seq<string>
    decreases |s|
  {
    if s == "" then []
    else
      var n := LineEnd(s);
      if n == |s| then [s] else [DropCr(s[..n])] + LinesOf(s[n + 1..])
  }

  /** A line that survives printing: not empty, no line break, no final carriage return. */
  predicate IsLine(s: string) { s != "" && s[|s| - 1] != '\r' && forall i :: 0 <= i < |s| ==> s[i] != '\n' }

  predicate AreLines(lines: seq<string>) { forall i :: 0 <= i < |lines| ==> IsLine(lines[i]) }

  lemma {:induction false} LineEndsAt(line: string, rest: string)
    requires forall i :: 0 <= i < |line| ==> line[i] != '\n'
    ensures LineEnd(line + "\n" + rest) == |line|
  {
    var s := line + "\n" + rest;
    if line != "" {
      assert s[1..] == line[1..] + "\n" + rest;
      LineEndsAt(line[1..], rest);
    }
  }

  lemma {:induction false} LastLineEnds(line: string)
    requires forall i :: 0 <= i < |line| ==> line[i] != '\n'
    ensures LineEnd(line) == |line|
  {
    if line != "" {
      LastLineEnds(line[1..]);
    }
  }

  lemma LinesStep(line: string, rest: string)
    requires IsLine(line)
    ensures LinesOf(line + "\n" + rest) == [line] + LinesOf(rest)
  {
    LineEndsAt(line, rest);
    var s := line + "\n" + rest;
    assert s[..|line|] == line;
    assert s[|line| + 1..] == rest;
    assert DropCr(line) == line;
  }

  lemma {:induction false} LinesOfJoined(lines: seq<string>)
    requires AreLines(lines)
    ensures LinesOf(Join(lines, "\n")) == lines
  {
    if |lines| == 1 {
      LastLineEnds(lines[0]);
      assert lines == [lines[0]];
    } else if |lines| > 1 {
      LinesOfJoined(lines[1..]);
      LinesStep(lines[0], Join(lines[1..], "\n"));
      assert lines == [lines[0]] + lines[1..];
    }
  }

  // ---- summary lines ----------------------------------------------------------------------------------------------

  datatype SummaryLine =
    | Header
    | Scope(count: nat)
    | PreviousSectionHeader
    | NewSectionHeader
    | PreviousDetail(line: string)
    | NewDetail(line: string)
    | OmissionNotice(count: nat)

  // the fixed parts, word by word
  const HEADER := ["Conversation", "summary:"]
  const SCOPE := ["-", "Scope:"]
  const PREVIOUS := ["-", "Previously", "compacted", "context:"]
  const NEW := ["-", "Newly", "compacted", "context:"]
  const OMITTED := ["-", "Additional", "detail", "lines", "omitted:"]

  function HeadingWords(l: SummaryLine): seq<string> {
    match l
    case Header => HEADER
    case Scope(n) => SCOPE + ([DecimalText(n)] + ["compacted", "message(s)."])
    case PreviousSectionHeader => PREVIOUS
    case NewSectionHeader => NEW
    case OmissionNotice(n) => OMITTED + [DecimalText(n)]
    case _ => []
  }

  function TextOf(l: SummaryLine): string {
    if IsDetail(l) then "  - " + l.line else Join(HeadingWords(l), " ")
  }

  predicate IsDetail(l: SummaryLine) { l.PreviousDetail? || l.NewDetail? }

  function Texts(lines: seq<SummaryLine>): seq<string> {
    seq(|lines|, i requires 0 <= i < |lines| => TextOf(lines[i]))
  }

  function Print(lines: seq<SummaryLine>): string { Join(Texts(lines), "\n") }

  function PreviousDetails(lines: seq<string>): seq<SummaryLine> {
    seq(|lines|, i requires 0 <= i < |lines| => PreviousDetail(lines[i]))
  }

  function NewDetails(lines: seq<string>): seq<SummaryLine> {
    seq(|lines|, i requires 0 <= i < |lines| => NewDetail(lines[i]))
  }

  function BuildSummaryLines(count: nat, previous: seq<string>, recent: seq<string>): seq<SummaryLine> {
    var section := if previous == [] then [] else [PreviousSectionHeader] + PreviousDetails(previous);
    [Header] + ([Scope(count)] + (section + ([NewSectionHeader] + NewDetails(recent))))
  }

  // ---- reading back -----------------------------------------------------------------------------------------------

  /** A normalised line the reader takes for a heading. */
  predicate IsHeading(s: string) {
    || s == "" || s == Join(HEADER, " ") || s == Join(PREVIOUS, " ") || s == Join(NEW, " ")
    || Join(SCOPE, " ") <= s || Join(OMITTED, " ") <= s
  }

  function StripBullet(s: string): string {
    if "- " <= s || "* " <= s then s[2..] else s
  }

  /** The raw details of a summary, before they are deduplicated. */
  function RawDetails(lines: seq<string>): seq<string> {
    if lines == [] then []
    else
      var line := NormalizeLine(lines[0]);
      if IsHeading(line) then RawDetails(lines[1..]) else [StripBullet(line)] + RawDetails(lines[1..])
  }

  function Keys(lines: seq<string>): set<string> { set i | 0 <= i < |lines| :: Lower(lines[i]) }

  /** Normalised, without empty lines, and each line only the first time, up to ASCII case. */
  function Deduped(lines: seq<string>): seq<string> {
    if lines == [] then []
    else
      var before, line := Deduped(lines[..|lines| - 1]), NormalizeLine(lines[|lines| - 1]);
      if line == "" || Lower(line) in Keys(before) then before else before + [line]
  }

  function NonEmpty(lines: seq<string>): nat {
    if lines == [] then 0
    else NonEmpty(lines[..|lines| - 1]) + (if NormalizeLine(lines[|lines| - 1]) == "" then 0 else 1)
  }

  /** Also how many repeated lines went. */
  method NormalizeAndDedupeLines(lines: seq<string>) returns (normalized: seq<string>, removed: nat)
    ensures normalized == Deduped(lines) && removed + |normalized| == NonEmpty(lines)
  {
    var seen: set<string> := {};
    normalized, removed := [], 0;
    for i := 0 to |lines|
      invariant normalized == Deduped(lines[..i]) && seen == Keys(normalized)
      invariant removed + |normalized| == NonEmpty(lines[..i])
    {
      assert lines[..i + 1][..i] == lines[..i];
      var line := NormalizeLine(lines[i]);
      if line == "" {
        continue;
      }
      if Lower(line) in seen {
        removed := removed + 1;
        continue;
      }
      KeysNext(normalized, line);
      seen := seen + {Lower(line)};
      normalized := normalized + [line];
    }
    assert lines[..|lines|] == lines;
  }

  lemma KeysNext(lines: seq<string>, line: string)
    ensures Keys(lines + [line]) == Keys(lines) + {Lower(line)}
  {
    var more := lines + [line];
    assert forall i :: 0 <= i < |lines| ==> more[i] == lines[i];
    assert more[|lines|] == line;
    forall key | key in Keys(lines) ensures key in Keys(more) {
      var i :| 0 <= i < |lines| && Lower(lines[i]) == key;
      assert Lower(more[i]) == key;
    }
    assert Lower(more[|lines|]) in Keys(more);
  }

  predicate DistinctKeys(lines: seq<string>) {
    forall i, j :: 0 <= i < j < |lines| ==> Lower(lines[i]) != Lower(lines[j])
  }

  lemma DistinctNext(lines: seq<string>, line: string)
    requires DistinctKeys(lines) && Lower(line) !in Keys(lines)
    ensures DistinctKeys(lines + [line])
  {
    forall i | 0 <= i < |lines| ensures Lower(lines[i]) in Keys(lines) { }
  }

  lemma {:induction false} DedupedAreDistinct(lines: seq<string>)
    ensures DistinctKeys(Deduped(lines))
  {
    if lines != [] {
      var before, line := Deduped(lines[..|lines| - 1]), NormalizeLine(lines[|lines| - 1]);
      DedupedAreDistinct(lines[..|lines| - 1]);
      if Lower(line) !in Keys(before) {
        DistinctNext(before, line);
      }
    }
  }

  lemma {:induction false} DedupedKeepsKey(lines: seq<string>, i: nat)
    requires i < |lines| && NormalizeLine(lines[i]) != ""
    ensures Lower(NormalizeLine(lines[i])) in Keys(Deduped(lines))
  {
    var init := lines[..|lines| - 1];
    var before, line := Deduped(init), NormalizeLine(lines[|lines| - 1]);
    KeysNext(before, line);
    if i < |lines| - 1 {
      assert init[i] == lines[i];
      DedupedKeepsKey(init, i);
    }
  }

  /** No two lines left are equal up to case, and every line is still there up to case. */
  lemma DedupedKeepsEachOnce(lines: seq<string>)
    ensures DistinctKeys(Deduped(lines))
    ensures forall i :: 0 <= i < |lines| && NormalizeLine(lines[i]) != "" ==>
      Lower(NormalizeLine(lines[i])) in Keys(Deduped(lines))
  {
    DedupedAreDistinct(lines);
    forall i | 0 <= i < |lines| && NormalizeLine(lines[i]) != ""
      ensures Lower(NormalizeLine(lines[i])) in Keys(Deduped(lines))
    {
      DedupedKeepsKey(lines, i);
    }
  }

  function ExtractPreviousLines(summary: string): seq<string> { Deduped(RawDetails(LinesOf(summary))) }

  // ---- the round trip ---------------------------------------------------------------------------------------------

  /** A printed detail with this text would be read as a heading. */
  predicate IsReserved(line: string) { IsHeading("- " + line) }

  predicate IsFree(line: string) { !IsReserved(line) }

  /** The details of printed lines, in order. */
  function Details(lines: seq<SummaryLine>): seq<string> {
    if lines == [] then []
    else if IsDetail(lines[0]) then [lines[0].line] + Details(lines[1..])
    else Details(lines[1..])
  }

  /** Every detail is a non-empty normalised line. */
  predicate Printable(lines: seq<SummaryLine>) {
    forall l <- lines :: IsDetail(l) ==> l.line != "" && NormalizeLine(l.line) == l.line
  }

  lemma DetailNormalizes(line: string)
    requires line != "" && IsNormal(line)
    ensures NormalizeLine("  - " + line) == "- " + line
  {
    NormalAppend("-", line);
    var bullet := "- " + line;
    assert "-" + " " + line == bullet;
    NormalIsFixed(bullet);
    IndentIsDropped(bullet);
    assert "  - " + line == "  " + bullet;
  }

  lemma IndentedIsLine(line: string)
    requires IsLine(line)
    ensures IsLine("  - " + line)
  {
    var s := "  - " + line;
    forall i | 0 <= i < |s| ensures s[i] != '\n' {
      if i >= 4 {
        assert s[i] == line[i - 4];
      }
    }
  }

  lemma DetailReads(line: string)
    requires line != "" && NormalizeLine(line) == line
    ensures NormalizeLine("  - " + line) == "- " + line && IsLine("  - " + line)
  {
    FixedIsNormal(line);
    DetailNormalizes(line);
    NormalIsLine(line);
    IndentedIsLine(line);
  }

  lemma NormalIsLine(s: string)
    requires s != "" && IsNormal(s)
    ensures IsLine(s)
  {
  }

  predicate IsPlain(w: string) { w != "" && forall i :: 0 <= i < |w| ==> '!' <= w[i] <= '~' }

  lemma PlainIsWord(w: string)
    requires IsPlain(w)
    ensures IsWord(w)
  {
  }

  lemma HeaderAndScopeAreWords()
    ensures AreWords(HEADER) && AreWords(SCOPE) && AreWords(["compacted", "message(s)."])
  {
    PlainIsWord("-");
    PlainIsWord("Conversation");
    PlainIsWord("summary:");
    PlainIsWord("Scope:");
    PlainIsWord("compacted");
    PlainIsWord("message(s).");
  }

  lemma SectionsAreWords()
    ensures AreWords(PREVIOUS) && AreWords(NEW)
  {
    PlainIsWord("-");
    PlainIsWord("Previously");
    PlainIsWord("Newly");
    PlainIsWord("compacted");
    PlainIsWord("context:");
  }

  lemma NoticeIsWords()
    ensures AreWords(OMITTED)
  {
    PlainIsWord("-");
    PlainIsWord("Additional");
    PlainIsWord("detail");
    PlainIsWord("lines");
    PlainIsWord("omitted:");
  }

  lemma HeadingWordsAreWords(l: SummaryLine)
    ensures AreWords(HeadingWords(l)) && (!IsDetail(l) ==> HeadingWords(l) != [])
  {
    HeaderAndScopeAreWords();
    SectionsAreWords();
    NoticeIsWords();
    if l.Scope? || l.OmissionNotice? {
      PlainIsWord(DecimalText(l.count));
    }
  }

  lemma {:induction false} JoinStartsWith(a: seq<string>, b: seq<string>)
    requires a != []
    ensures Join(a, " ") <= Join(a + b, " ")
  {
    if |a| == 1 {
      assert a + b == [a[0]] + b;
      if b != [] {
        assert (a + b)[1..] == b;
      }
    } else {
      assert (a + b)[1..] == a[1..] + b;
      JoinStartsWith(a[1..], b);
    }
  }

  /** Headings print as lines the reader skips. */
  lemma HeadingReads(l: SummaryLine)
    requires !IsDetail(l)
    ensures NormalizeLine(TextOf(l)) == TextOf(l) && IsHeading(TextOf(l)) && IsLine(TextOf(l))
  {
    HeadingWordsAreWords(l);
    JoinedWordsAreNormal(HeadingWords(l));
    NormalIsFixed(TextOf(l));
    NormalIsLine(TextOf(l));
    if l.Scope? {
      JoinStartsWith(SCOPE, [DecimalText(l.count)] + ["compacted", "message(s)."]);
    } else if l.OmissionNotice? {
      JoinStartsWith(OMITTED, [DecimalText(l.count)]);
    }
  }

  lemma RawDetailsStep(l: SummaryLine, rest: seq<string>)
    requires IsDetail(l) ==> l.line != "" && NormalizeLine(l.line) == l.line
    ensures IsLine(TextOf(l))
    ensures RawDetails([TextOf(l)] + rest)
         == if IsDetail(l) && IsFree(l.line) then [l.line] + RawDetails(rest) else RawDetails(rest)
  {
    assert ([TextOf(l)] + rest)[1..] == rest;
    if IsDetail(l) {
      DetailReads(l.line);
      assert StripBullet("- " + l.line) == l.line;
    } else {
      HeadingReads(l);
    }
  }

  lemma FreeDetailsStep(lines: seq<SummaryLine>)
    requires lines != []
    ensures var l, rest := lines[0], Filter(Details(lines[1..]), IsFree);
      Filter(Details(lines), IsFree) == if IsDetail(l) && IsFree(l.line) then [l.line] + rest else rest
  {
    if IsDetail(lines[0]) {
      assert ([lines[0].line] + Details(lines[1..]))[1..] == Details(lines[1..]);
    }
  }

  lemma PrintableTail(lines: seq<SummaryLine>)
    requires Printable(lines) && lines != []
    ensures Printable(lines[1..])
    ensures IsDetail(lines[0]) ==> lines[0].line != "" && NormalizeLine(lines[0].line) == lines[0].line
  {
    assert lines[0] in lines;
    forall l | l in lines[1..] ensures l in lines { }
  }

  lemma TextsStep(lines: seq<SummaryLine>)
    requires lines != []
    ensures Texts(lines) == [TextOf(lines[0])] + Texts(lines[1..])
  {
  }

  lemma {:induction false} RawDetailsOfPrinted(lines: seq<SummaryLine>)
    requires Printable(lines)
    ensures RawDetails(Texts(lines)) == Filter(Details(lines), IsFree)
    ensures AreLines(Texts(lines))
  {
    if lines != [] {
      PrintableTail(lines);
      TextsStep(lines);
      RawDetailsOfPrinted(lines[1..]);
      RawDetailsStep(lines[0], Texts(lines[1..]));
      FreeDetailsStep(lines);
    }
  }

  /**
   * Reading back any printed summary returns exactly its details, in order, deduplicated up to ASCII case, without
   * those whose bullet would be taken for a heading.
   */
  lemma PrintedSummaryReadsBack(lines: seq<SummaryLine>)
    requires Printable(lines)
    ensures ExtractPreviousLines(Print(lines)) == Deduped(Filter(Details(lines), IsFree))
  {
    RawDetailsOfPrinted(lines);
    LinesOfJoined(Texts(lines));
  }

  predicate AllNormalized(lines: seq<string>) { forall line <- lines :: line != "" && NormalizeLine(line) == line }

  lemma {:induction false} DetailsAppend(a: seq<SummaryLine>, b: seq<SummaryLine>)
    ensures Details(a + b) == Details(a) + Details(b)
  {
    if a == [] {
      assert a + b == b;
    } else {
      assert (a + b)[1..] == a[1..] + b;
      DetailsAppend(a[1..], b);
    }
  }

  lemma {:induction false} DetailsOfDetails(lines: seq<string>)
    ensures Details(PreviousDetails(lines)) == lines && Details(NewDetails(lines)) == lines
  {
    if lines != [] {
      assert PreviousDetails(lines)[1..] == PreviousDetails(lines[1..]);
      assert NewDetails(lines)[1..] == NewDetails(lines[1..]);
      DetailsOfDetails(lines[1..]);
    }
  }

  lemma DetailsSkip(l: SummaryLine, rest: seq<SummaryLine>)
    requires !IsDetail(l)
    ensures Details([l] + rest) == Details(rest)
  {
    assert ([l] + rest)[1..] == rest;
  }

  lemma DetailsOfBuilt(count: nat, previous: seq<string>, recent: seq<string>)
    ensures Details(BuildSummaryLines(count, previous, recent)) == previous + recent
  {
    var section := if previous == [] then [] else [PreviousSectionHeader] + PreviousDetails(previous);
    var last := [NewSectionHeader] + NewDetails(recent);
    DetailsOfDetails(previous);
    DetailsOfDetails(recent);
    DetailsSkip(PreviousSectionHeader, PreviousDetails(previous));
    DetailsSkip(NewSectionHeader, NewDetails(recent));
    DetailsAppend(section, last);
    DetailsSkip(Scope(count), section + last);
    DetailsSkip(Header, [Scope(count)] + (section + last));
  }

  lemma BuiltIsPrintable(count: nat, previous: seq<string>, recent: seq<string>)
    requires AllNormalized(previous) && AllNormalized(recent)
    ensures Printable(BuildSummaryLines(count, previous, recent))
  {
    forall l | l in BuildSummaryLines(count, previous, recent) && IsDetail(l) ensures l.line in previous + recent {
      assert l in PreviousDetails(previous) || l in NewDetails(recent);
    }
  }

  /** Printing a whole summary and extracting it again. */
  lemma SummaryRoundTrip(count: nat, previous: seq<string>, recent: seq<string>)
    requires AllNormalized(previous) && AllNormalized(recent)
    ensures ExtractPreviousLines(Print(BuildSummaryLines(count, previous, recent)))
         == Deduped(Filter(previous + recent, IsFree))
  {
    DetailsOfBuilt(count, previous, recent);
    BuiltIsPrintable(count, previous, recent);
    PrintedSummaryReadsBack(BuildSummaryLines(count, previous, recent));
  }

  // ---- when nothing is lost ---------------------------------------------------------------------------------------

  /** A free line equal to line `i` up to ASCII case comes before it. */
  ghost predicate HasFreeTwin(lines: seq<string>, free: string -> bool, i: nat)
    requires i < |lines|
  {
    exists j :: 0 <= j < i && free(lines[j]) && Lower(lines[j]) == Lower(lines[i])
  }

  ghost predicate OthersHaveTwins(lines: seq<string>, free: string -> bool) {
    forall i :: 0 <= i < |lines| && !free(lines[i]) ==> HasFreeTwin(lines, free, i)
  }

  lemma {:induction false} DedupedFromLines(lines: seq<string>)
    requires AllNormalized(lines)
    ensures forall line <- Deduped(lines) :: line in lines
  {
    if lines != [] {
      var init := lines[..|lines| - 1];
      assert lines[|lines| - 1] in lines;
      forall line | line in init ensures line in lines { }
      DedupedFromLines(init);
    }
  }

  lemma DedupedNext(lines: seq<string>, line: string)
    requires line != "" && NormalizeLine(line) == line
    ensures Deduped(lines + [line]) == if Lower(line) in Keys(Deduped(lines)) then Deduped(lines) else Deduped(lines) + [line]
  {
    assert (lines + [line])[..|lines + [line]| - 1] == lines;
  }

  lemma SeenBefore(lines: seq<string>, line: string) returns (p: nat)
    requires AllNormalized(lines) && Lower(line) in Keys(Deduped(lines))
    ensures p < |lines| && lines[p] in Deduped(lines) && Lower(lines[p]) == Lower(line)
  {
    var kept := Deduped(lines);
    var k :| 0 <= k < |kept| && Lower(kept[k]) == Lower(line);
    DedupedFromLines(lines);
    assert kept[k] in lines;
    p :| 0 <= p < |lines| && lines[p] == kept[k];
  }

  /** Of the lines equal to line `i` up to case, the first is kept. */
  lemma {:induction false} DedupedKeepsFirst(lines: seq<string>, i: nat) returns (p: nat)
    requires AllNormalized(lines) && i < |lines|
    ensures p <= i && lines[p] in Deduped(lines) && Lower(lines[p]) == Lower(lines[i])
  {
    var init, last := lines[..|lines| - 1], lines[|lines| - 1];
    assert lines == init + [last] && last in lines;
    forall line | line in init ensures line in lines { }
    DedupedNext(init, last);
    if i < |init| {
      p := DedupedKeepsFirst(init, i);
    } else if Lower(last) in Keys(Deduped(init)) {
      p := SeenBefore(init, last);
    } else {
      p := i;
    }
  }

  lemma TwinsBefore(lines: seq<string>, free: string -> bool)
    requires AllNormalized(lines) && OthersHaveTwins(lines, free) && lines != []
    ensures AllNormalized(lines[..|lines| - 1]) && OthersHaveTwins(lines[..|lines| - 1], free)
  {
    var init := lines[..|lines| - 1];
    forall line | line in init ensures line in lines { }
    forall i | 0 <= i < |init| && !free(init[i]) ensures HasFreeTwin(init, free, i) {
      assert HasFreeTwin(lines, free, i);
    }
  }

  lemma RepetitionIsDropped(lines: seq<string>, line: string, j: nat)
    requires AllNormalized(lines + [line]) && j < |lines| && Lower(lines[j]) == Lower(line)
    ensures Deduped(lines + [line]) == Deduped(lines)
  {
    var all := lines + [line];
    assert all[j] in all && all[|lines|] in all;
    DedupedKeepsKey(lines, j);
    DedupedNext(lines, line);
  }

  lemma SameAfterNext(a: seq<string>, b: seq<string>, line: string)
    requires line != "" && NormalizeLine(line) == line
    requires Deduped(a) == Deduped(b)
    ensures Deduped(a + [line]) == Deduped(b + [line])
  {
    DedupedNext(a, line);
    DedupedNext(b, line);
  }

  lemma TwinOf(lines: seq<string>, line: string, free: string -> bool) returns (j: nat)
    requires HasFreeTwin(lines + [line], free, |lines|)
    ensures j < |lines| && Lower(lines[j]) == Lower(line)
  {
    var all := lines + [line];
    j :| 0 <= j < |lines| && free(all[j]) && Lower(all[j]) == Lower(all[|lines|]);
  }

  lemma {:induction false} TwinsSuffice(lines: seq<string>, free: string -> bool)
    requires AllNormalized(lines) && OthersHaveTwins(lines, free)
    ensures Deduped(Filter(lines, free)) == Deduped(lines)
  {
    if lines != [] {
      var n := |lines| - 1;
      var init, last := lines[..n], lines[n];
      assert lines == init + [last] && last in lines;
      TwinsBefore(lines, free);
      TwinsSuffice(init, free);
      FilterLast(init, last, free);
      if free(last) {
        SameAfterNext(Filter(init, free), init, last);
      } else {
        var j := TwinOf(init, last, free);
        RepetitionIsDropped(init, last, j);
      }
    }
  }

  lemma TwinsAreNeeded(lines: seq<string>, free: string -> bool)
    requires AllNormalized(lines) && Deduped(Filter(lines, free)) == Deduped(lines)
    ensures OthersHaveTwins(lines, free)
  {
    forall i | 0 <= i < |lines| && !free(lines[i]) ensures HasFreeTwin(lines, free, i) {
      var p := DedupedKeepsFirst(lines, i);
      var kept := Filter(lines, free);
      assert AllNormalized(kept);
      DedupedFromLines(kept);
      assert free(lines[p]);
    }
  }

  /**
   * Nothing but repetitions is lost if and only if every reserved line comes after a free line equal to it up to
   * ASCII case: headings are told by their case, repetitions are not.
   */
  lemma NothingLostIff(count: nat, previous: seq<string>, recent: seq<string>)
    requires AllNormalized(previous) && AllNormalized(recent)
    ensures ExtractPreviousLines(Print(BuildSummaryLines(count, previous, recent))) == Deduped(previous + recent)
       <==> OthersHaveTwins(previous + recent, IsFree)
  {
    SummaryRoundTrip(count, previous, recent);
    if OthersHaveTwins(previous + recent, IsFree) {
      TwinsSuffice(previous + recent, IsFree);
    }
    if Deduped(Filter(previous + recent, IsFree)) == Deduped(previous + recent) {
      TwinsAreNeeded(previous + recent, IsFree);
    }
  }
}
