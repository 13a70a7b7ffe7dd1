/**
 * What repair does to a text, in terms of its brackets and string literals: literals are skipped whole, brackets outside
 * them are matched, and exactly the open ones are closed.
 */
module JsonMeaning {
  import opened Options
  import opened Lists
  import Chars
  import opened JsonRepair

  // ---- string literals are transparent ----------------------------------------------------------------------------

  /** Inside a string, not after a backslash. */
  predicate Inside(q: Scan) { q.Scan? && q.inString && !q.escaped }

  predicate Outside(q: Scan) { q.Scan? && !q.inString && !q.escaped }

  predicate IsPlain(t: string) { forall i :: 0 <= i < |t| ==> t[i] != '"' && t[i] != '\\' }

  lemma {:induction false} PlainIsSkipped(q: Scan, t: string)
    requires Inside(q) && IsPlain(t)
    ensures ScanFrom(q, t) == q
  {
    if t != "" {
      PlainIsSkipped(q, t[1..]);
    }
  }

  lemma ScanOne(q: Scan, c: char)
    ensures ScanFrom(q, [c]) == Step(q, c)
  {
    assert [c][1..] == "";
  }

  /** A backslash and the character after it, whatever it is. */
  lemma EscapeIsSkipped(q: Scan, c: char)
    requires Inside(q)
    ensures ScanFrom(q, ['\\', c]) == q
  {
    assert ['\\', c] == ['\\'] + [c];
    ScanAppend(q, ['\\'], [c]);
    ScanOne(q, '\\');
    ScanOne(q.(escaped := true), c);
  }

  lemma HexIsPlain(s: string)
    requires |s| >= 4 && Hex4(s).Some?
    ensures IsPlain(s[..4])
  {
    assert HexValue(s[0]).Some? && HexValue(s[1]).Some? && HexValue(s[2]).Some? && HexValue(s[3]).Some?;
  }

  lemma HexEscapeIsSkipped(q: Scan, s: string)
    requires Inside(q) && |s| >= 6 && s[0] == '\\' && s[1] == 'u' && Hex4(s[2..]).Some?
    ensures ScanFrom(q, s[..6]) == q
  {
    assert s[..6] == ['\\', 'u'] + s[2..][..4];
    ScanAppend(q, ['\\', 'u'], s[2..][..4]);
    EscapeIsSkipped(q, 'u');
    HexIsPlain(s[2..]);
    PlainIsSkipped(q, s[2..][..4]);
  }

  lemma UnitIsSkipped(q: Scan, s: string)
    requires Inside(q) && ReadUnit(s).Some?
    ensures ScanFrom(q, s[..ReadUnit(s).value.length]) == q
  {
    var n := ReadUnit(s).value.length;
    if s[0] != '\\' {
      assert s[..n] == [s[0]];
      PlainIsSkipped(q, [s[0]]);
    } else if s[1] != 'u' {
      assert s[..n] == ['\\', s[1]];
      EscapeIsSkipped(q, s[1]);
    } else if n == 6 {
      HexEscapeIsSkipped(q, s);
    } else {
      assert s[..12] == s[..6] + s[6..][..6] && s[6..][2..] == s[8..];
      ScanAppend(q, s[..6], s[6..][..6]);
      HexEscapeIsSkipped(q, s);
      HexEscapeIsSkipped(q, s[6..]);
    }
  }

  lemma {:induction false} CharsEndString(q: Scan, lit: string)
    requires Inside(q) && ReadChars(lit).Some?
    ensures ScanFrom(q, lit) == q.(inString := false)
    decreases |lit|
  {
    if lit == "\"" {
      assert lit[1..] == "";
    } else {
      var n := ReadUnit(lit).value.length;
      assert lit == lit[..n] + lit[n..];
      ScanAppend(q, lit[..n], lit[n..]);
      UnitIsSkipped(q, lit);
      CharsEndString(q, lit[n..]);
    }
  }

  /** A whole string literal leaves the scan as it was, whatever it holds. */
  lemma LiteralIsTransparent(q: Scan, lit: string)
    requires Outside(q) && ReadChars(lit).Some?
    ensures ScanFrom(q, "\"" + lit) == q
  {
    assert ("\"" + lit)[1..] == lit;
    CharsEndString(q.(inString := true), lit);
  }

  lemma EncodedIsTransparent(q: Scan, s: string)
    requires Outside(q)
    ensures ScanFrom(q, Encode(s)) == q
  {
    assert Encode(s) == "\"" + (Escaped(s) + "\"");
    EscapedReads(s);
    LiteralIsTransparent(q, Escaped(s) + "\"");
  }

  // ---- escapes ----------------------------------------------------------------------------------------------------

  /** The two-character escapes and their code points; no other character may follow a backslash but `u`. */
  lemma EscapesMean(c: char)
    ensures SimpleEscape(c) ==
      if c == '"' then Some(34 as char) else if c == '\\' then Some(92 as char) else if c == '/' then Some(47 as char)
      else if c == 'b' then Some(8 as char) else if c == 'f' then Some(12 as char) else if c == 'n' then Some(10 as char)
      else if c == 'r' then Some(13 as char) else if c == 't' then Some(9 as char) else None
  {
  }

  function HexText(n: nat): string
    requires n < 0x1_0000
  {
    [HexDigit(n / 4096), HexDigit(n / 256 % 16), HexDigit(n / 16 % 16), HexDigit(n % 16)]
  }

  lemma HexParts(n: nat)
    requires n < 0x1_0000
    ensures ((n / 4096 * 16 + n / 256 % 16) * 16 + n / 16 % 16) * 16 + n % 16 == n
  {
    assert n / 256 == n / 4096 * 16 + n / 256 % 16;
    assert n / 16 == n / 256 * 16 + n / 16 % 16;
  }

  lemma HexReads(n: nat, s: string)
    requires n < 0x1_0000 && HexText(n) <= s
    ensures Hex4(s) == Some(n)
  {
    HexDigitValue(n / 4096);
    HexDigitValue(n / 256 % 16);
    HexDigitValue(n / 16 % 16);
    HexDigitValue(n % 16);
    HexParts(n);
    var h := HexText(n);
    assert s[0] == h[0] && s[1] == h[1] && s[2] == h[2] && s[3] == h[3];
  }

  /** A character as a `\u` escape, beyond the first plane as two (RFC 8259, section 7). */
  function UnicodeEscape(c: char): string {
    var n := c as int;
    if n < 0x1_0000 then "\\u" + HexText(n)
    else "\\u" + HexText(0xD800 + (n - 0x1_0000) / 0x400) + ("\\u" + HexText(0xDC00 + (n - 0x1_0000) % 0x400))
  }

  lemma ShortEscapeReads(c: char, rest: string)
    requires c as int < 0x1_0000
    ensures ReadUnit(UnicodeEscape(c) + rest) == Some(Unit(c, 6))
  {
    var s := UnicodeEscape(c) + rest;
    assert s[2..] == HexText(c as int) + rest;
    HexReads(c as int, s[2..]);
  }

  /** Two escapes, the first of a high and the second of a low surrogate. */
  lemma PairReads(s: string, high: nat, low: nat)
    requires |s| >= 12 && s[0] == '\\' && s[1] == 'u' && s[6] == '\\' && s[7] == 'u'
    requires 0xD800 <= high < 0xDC00 && 0xDC00 <= low < 0xE000 && Hex4(s[2..]) == Some(high) && Hex4(s[8..]) == Some(low)
    ensures ReadUnit(s) == Some(Unit((0x1_0000 + (high - 0xD800) * 0x400 + (low - 0xDC00)) as char, 12))
  {
  }

  lemma SurrogatesOf(n: nat)
    requires 0x1_0000 <= n < 0x11_0000
    ensures var high, low := 0xD800 + (n - 0x1_0000) / 0x400, 0xDC00 + (n - 0x1_0000) % 0x400;
      0xD800 <= high < 0xDC00 && 0xDC00 <= low < 0xE000 && 0x1_0000 + (high - 0xD800) * 0x400 + (low - 0xDC00) == n
  {
  }

  lemma PairText(a: string, b: string, rest: string)
    requires |a| == 4 && |b| == 4
    ensures var s := "\\u" + a + ("\\u" + b) + rest;
      && |s| >= 12 && s[0] == '\\' && s[1] == 'u' && s[6] == '\\' && s[7] == 'u' && a <= s[2..] && b <= s[8..]
  {
  }

  lemma LongEscapeReads(c: char, rest: string)
    requires c as int >= 0x1_0000
    ensures ReadUnit(UnicodeEscape(c) + rest) == Some(Unit(c, 12))
  {
    var n, s := c as int, UnicodeEscape(c) + rest;
    var high, low := 0xD800 + (n - 0x1_0000) / 0x400, 0xDC00 + (n - 0x1_0000) % 0x400;
    SurrogatesOf(n);
    PairText(HexText(high), HexText(low), rest);
    HexReads(high, s[2..]);
    HexReads(low, s[8..]);
    PairReads(s, high, low);
  }

  /** Every character written as a `\u` escape reads back as itself. */
  lemma UnicodeEscapeReads(c: char, rest: string)
    ensures ReadUnit(UnicodeEscape(c) + rest) == Some(Unit(c, |UnicodeEscape(c)|))
  {
    if c as int < 0x1_0000 {
      ShortEscapeReads(c, rest);
    } else {
      LongEscapeReads(c, rest);
    }
  }

  // ---- documents --------------------------------------------------------------------------------------------------

  /** Literals, groups in brackets, and other characters, one after the other. */
  datatype Doc =
    | End
    | Literal(chars: string, rest: Doc)
    | Other(c: char, rest: Doc)
    | Group(curly: bool, inside: Doc, rest: Doc)
  {
    predicate Valid() {
      match this
      case End => true
      case Literal(chars, rest) => ReadChars(chars).Some? && rest.Valid()
      case Other(c, rest) => c != '"' && c != '{' && c != '}' && c != '[' && c != ']' && rest.Valid()
      case Group(_, inside, rest) => inside.Valid() && rest.Valid()
    }
  }

  function Open(curly: bool): string { if curly then "{" else "[" }

  function Close(curly: bool): string { if curly then "}" else "]" }

  function Spelled(d: Doc): string {
    match d
    case End => ""
    case Literal(chars, rest) => "\"" + chars + Spelled(rest)
    case Other(c, rest) => [c] + Spelled(rest)
    case Group(curly, inside, rest) => Open(curly) + Spelled(inside) + Close(curly) + Spelled(rest)
  }

  lemma OpenPushes(q: Scan, curly: bool)
    requires Outside(q)
    ensures ScanFrom(q, Open(curly)) == q.(closers := q.closers + Close(curly))
  {
    ScanOne(q, Open(curly)[0]);
  }

  lemma ClosePops(q: Scan, curly: bool)
    requires Outside(q)
    ensures ScanFrom(q.(closers := q.closers + Close(curly)), Close(curly)) == q
  {
    var pushed := q.(closers := q.closers + Close(curly));
    ScanOne(pushed, Close(curly)[0]);
    assert pushed.closers[..|pushed.closers| - 1] == q.closers;
  }

  lemma GroupIsTransparent(q: Scan, curly: bool, inside: string)
    requires Outside(q) && ScanFrom(q.(closers := q.closers + Close(curly)), inside) == q.(closers := q.closers + Close(curly))
    ensures ScanFrom(q, Open(curly) + inside + Close(curly)) == q
  {
    ScanAppend(q, Open(curly) + inside, Close(curly));
    ScanAppend(q, Open(curly), inside);
    OpenPushes(q, curly);
    ClosePops(q, curly);
  }

  /** A document without open brackets leaves the scan as it was. */
  lemma {:induction false} DocIsTransparent(q: Scan, d: Doc)
    requires Outside(q) && d.Valid()
    ensures ScanFrom(q, Spelled(d)) == q
    decreases d
  {
    match d
    case End =>
    case Literal(chars, rest) =>
      LiteralIsTransparent(q, chars);
      ScanAppend(q, "\"" + chars, Spelled(rest));
      DocIsTransparent(q, rest);
    case Other(c, rest) =>
      ScanOne(q, c);
      ScanAppend(q, [c], Spelled(rest));
      DocIsTransparent(q, rest);
    case Group(curly, inside, rest) =>
      DocIsTransparent(q.(closers := q.closers + Close(curly)), inside);
      GroupIsTransparent(q, curly, Spelled(inside));
      ScanAppend(q, Open(curly) + Spelled(inside) + Close(curly), Spelled(rest));
      DocIsTransparent(q, rest);
  }

  // ---- truncated documents ----------------------------------------------------------------------------------------

  /** A document cut off within brackets: what comes before each open one, and what follows the innermost. */
  datatype Cut = Last(doc: Doc) | Within(before: Doc, curly: bool, inner: Cut)
  {
    predicate Valid() {
      match this
      case Last(doc) => doc.Valid()
      case Within(before, _, inner) => before.Valid() && inner.Valid()
    }
  }

  function SpelledCut(t: Cut): string {
    match t
    case Last(doc) => Spelled(doc)
    case Within(before, curly, inner) => Spelled(before) + Open(curly) + SpelledCut(inner)
  }

  /** What closes the open brackets, the innermost first. */
  function Missing(t: Cut): string {
    match t
    case Last(_) => ""
    case Within(_, curly, inner) => Missing(inner) + Close(curly)
  }

  /** The open brackets as the scan keeps them, the innermost last. */
  function Stack(t: Cut): string {
    match t
    case Last(_) => ""
    case Within(_, curly, inner) => Close(curly) + Stack(inner)
  }

  lemma {:induction false} CutScans(q: Scan, t: Cut)
    requires Outside(q) && t.Valid()
    ensures ScanFrom(q, SpelledCut(t)) == q.(closers := q.closers + Stack(t))
    decreases t
  {
    match t
    case Last(doc) =>
      DocIsTransparent(q, doc);
      assert q.closers + "" == q.closers;
    case Within(before, curly, inner) =>
      DocIsTransparent(q, before);
      OpenPushes(q, curly);
      ScanAppend(q, Spelled(before), Open(curly));
      ScanAppend(q, Spelled(before) + Open(curly), SpelledCut(inner));
      CutScans(q.(closers := q.closers + Close(curly)), inner);
      Regroup(q.closers, Close(curly), Stack(inner));
  }

  lemma {:induction false} ReversedAppend(a: string, b: string)
    ensures Reversed(a + b) == Reversed(b) + Reversed(a)
    decreases |b|
  {
    if b == "" {
      assert a + b == a;
    } else {
      var n := |b| - 1;
      assert (a + b)[..|a + b| - 1] == a + b[..n];
      ReversedAppend(a, b[..n]);
    }
  }

  lemma {:induction false} MissingIsReversed(t: Cut)
    ensures Reversed(Stack(t)) == Missing(t)
  {
    if t.Within? {
      MissingIsReversed(t.inner);
      ReversedAppend(Close(t.curly), Stack(t.inner));
      assert Close(t.curly)[..0] == "";
      assert Reversed(Close(t.curly)) == Close(t.curly);
    }
  }

  /** Repair appends exactly the missing closers, innermost first, and leaves alone a text with no open bracket. */
  lemma RepairClosesWhatIsOpen(t: Cut)
    requires t.Valid()
    ensures Repair(SpelledCut(t)) == if t.Last? then None else Some(SpelledCut(t) + Missing(t))
  {
    CutScans(START, t);
    assert "" + Stack(t) == Stack(t);
    MissingIsReversed(t);
  }

  lemma {:induction false} NoQuoteStaysInside(q: Scan, t: string)
    requires q.Scan? && q.inString && forall i :: 0 <= i < |t| ==> t[i] != '"'
    ensures ScanFrom(q, t).Scan? && ScanFrom(q, t).inString
    decreases t
  {
    if t != "" {
      NoQuoteStaysInside(Step(q, t[0]), t[1..]);
    }
  }

  /** Within a character of a literal, before its last sign, there is no quote. */
  lemma NoQuoteWithinUnit(s: string, k: nat)
    requires ReadUnit(s).Some? && k < ReadUnit(s).value.length
    ensures forall i :: 0 <= i < k ==> s[i] != '"'
  {
    var n := ReadUnit(s).value.length;
    if n >= 6 {
      HexIsPlain(s[2..]);
      assert forall i :: 2 <= i < 6 ==> s[i] == s[2..][..4][i - 2];
      if n == 12 {
        HexIsPlain(s[8..]);
        assert forall i :: 8 <= i < 12 ==> s[i] == s[8..][..4][i - 8];
      }
    }
  }

  lemma {:induction false} SkipUnit(q: Scan, lit: string, n: nat, k: nat)
    requires Inside(q) && ReadUnit(lit).Some? && n == ReadUnit(lit).value.length <= k <= |lit|
    ensures ScanFrom(q, lit[..k]) == ScanFrom(q, lit[n..][..k - n])
  {
    UnitIsSkipped(q, lit);
    ScanAppend(q, lit[..n], lit[n..][..k - n]);
    assert lit[..k] == lit[..n] + lit[n..][..k - n];
  }

  lemma {:induction false} InsideWhileCut(q: Scan, lit: string, k: nat)
    requires Inside(q) && ReadChars(lit).Some? && k < |lit|
    ensures ScanFrom(q, lit[..k]).Scan? && ScanFrom(q, lit[..k]).inString
    decreases |lit|
  {
    if lit != "\"" {
      var n := ReadUnit(lit).value.length;
      if k < n {
        NoQuoteWithinUnit(lit, k);
        NoQuoteStaysInside(q, lit[..k]);
      } else {
        SkipUnit(q, lit, n, k);
        InsideWhileCut(q, lit[n..], k - n);
      }
    }
  }

  /** A text cut off within a string literal is not repaired. */
  lemma CutLiteralIsNotRepaired(t: Cut, lit: string, k: nat)
    requires t.Valid() && ReadChars(lit).Some? && k < |lit|
    ensures Repair(SpelledCut(t) + "\"" + lit[..k]).None?
  {
    CutScans(START, t);
    var q := START.(closers := "" + Stack(t));
    ScanAppend(START, SpelledCut(t), "\"");
    ScanOne(q, '"');
    ScanAppend(START, SpelledCut(t) + "\"", lit[..k]);
    InsideWhileCut(q.(inString := true), lit, k);
  }

  lemma InnermostIsFirst(t: Cut)
    ensures Stack(t) == "" <==> Missing(t) == ""
    ensures Stack(t) != "" ==> Missing(t)[..1] == [Stack(t)[|Stack(t)| - 1]]
  {
    MissingIsReversed(t);
    assert Stack(t) != "" ==> Missing(t) == [Stack(t)[|Stack(t)| - 1]] + Reversed(Stack(t)[..|Stack(t)| - 1]);
  }

  lemma StuckIsNotRepaired(text: string, rest: string)
    requires ScanFrom(START, text).Stuck?
    ensures Repair(text + rest).None?
  {
    ScanAppend(START, text, rest);
    StuckStays(rest);
  }

  lemma WrongCloserSticks(t: Cut, curly: bool)
    requires t.Valid() && (Missing(t) == "" || Missing(t)[..1] != Close(curly))
    ensures ScanFrom(START, SpelledCut(t) + Close(curly)).Stuck?
  {
    CutScans(START, t);
    var q := START.(closers := "" + Stack(t));
    ScanAppend(START, SpelledCut(t), Close(curly));
    ScanOne(q, Close(curly)[0]);
    InnermostIsFirst(t);
  }

  /** A closer that does not fit the innermost open bracket, if any is open, makes the text beyond repair. */
  lemma WrongCloserIsNotRepaired(t: Cut, curly: bool, rest: string)
    requires t.Valid() && (Missing(t) == "" || Missing(t)[..1] != Close(curly))
    ensures Repair(SpelledCut(t) + Close(curly) + rest).None?
  {
    WrongCloserSticks(t, curly);
    StuckIsNotRepaired(SpelledCut(t) + Close(curly), rest);
  }

  // ---- arguments --------------------------------------------------------------------------------------------------

  lemma EndsWithMissing(t: Cut)
    requires t.Valid() && t.Within?
    ensures ReadString(SpelledCut(t) + Missing(t)).None?
  {
    RepairClosesWhatIsOpen(t);
    RepairedIsNoString(SpelledCut(t));
  }

  /**
   * Arguments that are blank are nothing; readable ones are what they say, a string being parsed in turn; unreadable ones
   * with open brackets are what they say once these are closed, and nothing if that cannot be read either; all others are
   * nothing.
   */
  lemma ArgumentsMean<V>(r: Reader<V>, arguments: string, t: Cut)
    requires t.Valid() && Trim(arguments, Chars.IsWhitespace) == SpelledCut(t)
    ensures var text, parsed := SpelledCut(t), ParseToolArguments(r, arguments);
      && (text == "" ==> parsed == Plain(r.nothing))
      && (text != "" && ReadString(text).Some? ==> parsed == ParseToolArguments(r, ReadString(text).value))
      && (text != "" && ReadString(text).None? && r.plain(text).Some? ==> parsed == Plain(r.plain(text).value))
      && (text != "" && r.Read(text).None? && t.Within? && r.plain(text + Missing(t)).Some? ==>
            parsed == Plain(r.plain(text + Missing(t)).value))
      && (text != "" && r.Read(text).None? && (t.Last? || r.plain(text + Missing(t)).None?) ==> parsed == Plain(r.nothing))
  {
    RepairClosesWhatIsOpen(t);
    if t.Within? {
      EndsWithMissing(t);
    }
  }
}
