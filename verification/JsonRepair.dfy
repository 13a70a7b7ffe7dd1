/**
 * Tool arguments as a model writes them: truncated JSON is closed again, and JSON that was encoded as a JSON
 * string, even several times over, is unwrapped.
 */
module JsonRepair {
  import opened Options
  import opened Chars
  import opened Lists

  // ---- repair -----------------------------------------------------------------------------------------------------

  /** The scanner: open brackets (innermost last, as their closers), and where it stands in a string. */
  datatype Scan = Stuck | Scan(closers: string, inString: bool, escaped: bool)

  const START := Scan("", false, false)

  function Step(s: Scan, c: char): Scan {
    if s.Stuck? then s
    else if s.inString then
      if c == '\\' && !s.escaped then s.(escaped := true)
      else if c == '"' && !s.escaped then s.(inString := false)
      else s.(escaped := false)
    else if c == '"' then s.(inString := true)
    else if c == '{' then s.(closers := s.closers + "}")
    else if c == '[' then s.(closers := s.closers + "]")
    else if IsCloser(c) then
      if s.closers != "" && s.closers[|s.closers| - 1] == c
      then s.(closers := s.closers[..|s.closers| - 1]) else Stuck
    else s
  }

  predicate IsCloser(c: char) { c == '}' || c == ']' }

  predicate AreClosers(s: string) { forall i :: 0 <= i < |s| ==> IsCloser(s[i]) }

  function ScanFrom(s: Scan, text: string): Scan
    decreases text
  {
    if text == "" then s else ScanFrom(Step(s, text[0]), text[1..])
  }

  function Reversed(s: string): string { if s == "" then "" else [s[|s| - 1]] + Reversed(s[..|s| - 1]) }

  function Repair(text: string): Option<string> {
    var s := ScanFrom(START, text);
    if s.Stuck? || s.inString || s.closers == "" then None else Some(text + Reversed(s.closers))
  }

  lemma {:induction false} ScanAppend(s: Scan, a: string, b: string)
    ensures ScanFrom(s, a + b) == ScanFrom(ScanFrom(s, a), b)
    decreases a
  {
    if a == "" {
      assert a + b == b;
    } else {
      assert (a + b)[1..] == a[1..] + b;
      ScanAppend(Step(s, a[0]), a[1..], b);
    }
  }

  lemma ScanNext(text: string, i: nat)
    requires i < |text|
    ensures ScanFrom(START, text[..i + 1]) == Step(ScanFrom(START, text[..i]), text[i])
  {
    assert text[..i + 1] == text[..i] + [text[i]];
    ScanAppend(START, text[..i], [text[i]]);
    assert [text[i]][1..] == "";
  }

  lemma {:induction false} StuckStays(text: string)
    ensures ScanFrom(Stuck, text) == Stuck
  {
    if text != "" {
      StuckStays(text[1..]);
    }
  }

  method RepairUnclosedJson(input: string) returns (repaired: Option<string>)
    ensures repaired == Repair(input)
  {
    var closers, inString, escaped := "", false, false;
    for i := 0 to |input|
      invariant ScanFrom(START, input[..i]) == Scan(closers, inString, escaped)
    {
      var c := input[i];
      ScanNext(input, i);
      assert input == input[..i + 1] + input[i + 1..];
      ScanAppend(START, input[..i + 1], input[i + 1..]);
      StuckStays(input[i + 1..]);
      if inString {
        if c == '\\' && !escaped {
          escaped := true;
        } else if c == '"' && !escaped {
          inString := false;
        } else {
          escaped := false;
        }
        continue;
      }
      if c == '"' {
        inString := true;
      } else if c == '{' {
        closers := closers + "}";
      } else if c == '[' {
        closers := closers + "]";
      } else if c == '}' || c == ']' {
        if closers == "" || closers[|closers| - 1] != c {
          return None;
        }
        closers := closers[..|closers| - 1];
      }
    }
    assert input[..|input|] == input;
    if inString || closers == "" {
      return None;
    }
    ghost var all := closers;
    var text := input;
    while closers != ""
      invariant text + Reversed(closers) == input + Reversed(all)
      decreases |closers|
    {
      text := text + [closers[|closers| - 1]];
      closers := closers[..|closers| - 1];
    }
    assert text + "" == text;
    return Some(text);
  }

  /** Every bracket closed, outside any string. */
  predicate Balanced(text: string) { ScanFrom(START, text) == START }

  lemma {:induction false} OpenAreClosers(s: Scan, text: string)
    requires s.Scan? ==> AreClosers(s.closers) && (s.escaped ==> s.inString)
    ensures var r := ScanFrom(s, text); r.Scan? ==> AreClosers(r.closers) && (r.escaped ==> r.inString)
    decreases text
  {
    if text != "" {
      OpenAreClosers(Step(s, text[0]), text[1..]);
    }
  }

  lemma {:induction false} ClosingEmpties(closers: string)
    requires AreClosers(closers)
    ensures AreClosers(Reversed(closers)) && |Reversed(closers)| == |closers|
    ensures ScanFrom(Scan(closers, false, false), Reversed(closers)) == START
  {
    if closers != "" {
      ClosingEmpties(closers[..|closers| - 1]);
    }
  }

  /** A repaired text is the input and then closers only, is balanced, and is not repaired again. */
  lemma RepairBalances(text: string)
    requires Repair(text).Some?
    ensures var r := Repair(text).value;
      && text < r && AreClosers(r[|text|..]) && Balanced(r) && Repair(r).None?
  {
    OpenAreClosers(START, text);
    var closers := ScanFrom(START, text).closers;
    ClosingEmpties(closers);
    ScanAppend(START, text, Reversed(closers));
    assert (text + Reversed(closers))[|text|..] == Reversed(closers);
  }

  lemma {:induction false} OnlyClosersLeft(s: Scan, c: string)
    requires AreClosers(c) && ScanFrom(s, c) == START && (s.Scan? && s.escaped ==> s.inString)
    ensures s.Scan? && !s.inString && c == Reversed(s.closers)
    decreases c
  {
    if c != "" {
      OnlyClosersLeft(Step(s, c[0]), c[1..]);
    }
  }

  /** Repair finds the closers whenever there are any that balance the text, and no others do. */
  lemma RepairIsComplete(text: string, c: string)
    requires c != "" && AreClosers(c)
    ensures Balanced(text + c) <==> Repair(text) == Some(text + c)
  {
    ScanAppend(START, text, c);
    OpenAreClosers(START, text);
    if Balanced(text + c) {
      OnlyClosersLeft(ScanFrom(START, text), c);
    } else if Repair(text) == Some(text + c) {
      RepairBalances(text);
    }
  }

  // ---- string literals (RFC 8259, section 7) ----------------------------------------------------------------------

  function HexValue(c: char): Option<nat> {
    if '0' <= c <= '9' then Some(c as int - '0' as int)
    else if 'a' <= c <= 'f' then Some(c as int - 'a' as int + 10)
    else if 'A' <= c <= 'F' then Some(c as int - 'A' as int + 10)
    else None
  }

  /** The number written by four hexadecimal digits. */
  function Hex4(s: string): (r: Option<nat>)
    requires |s| >= 4
    ensures r.Some? ==> r.value < 0x1_0000
  {
    var a, b, c, d := HexValue(s[0]), HexValue(s[1]), HexValue(s[2]), HexValue(s[3]);
    if a.None? || b.None? || c.None? || d.None? then None
    else Some(((a.value * 16 + b.value) * 16 + c.value) * 16 + d.value)
  }

  function SimpleEscape(c: char): Option<char> {
    match c
    case '"' => Some('"')
    case '\\' => Some('\\')
    case '/' => Some('/')
    case 'b' => Some('\U{8}')
    case 'f' => Some('\U{C}')
    case 'n' => Some('\n')
    case 'r' => Some('\r')
    case 't' => Some('\t')
    case _ => None
  }

  datatype Unit = Unit(value: char, length: nat)

  /** One character of a string literal and how long it is written; `None` is malformed. */
  function ReadUnit(s: string): (r: Option<Unit>)
    ensures r.Some? ==> 1 <= r.value.length <= |s|
  {
    if s == "" || s[0] == '"' || s[0] as int < 0x20 then None
    else if s[0] != '\\' then Some(Unit(s[0], 1))
    else if |s| < 2 then None
    else if s[1] != 'u' then match SimpleEscape(s[1]) case Some(c) => Some(Unit(c, 2)) case None => None
    else if |s| < 6 then None
    else
      match Hex4(s[2..])
      case None => None
      case Some(n) =>
        if n < 0xD800 || n >= 0xE000 then Some(Unit(n as char, 6))
        else if n >= 0xDC00 || |s| < 12 || s[6] != '\\' || s[7] != 'u' then None
        else
          match Hex4(s[8..])
          case None => None
          case Some(low) =>
            if low < 0xDC00 || low >= 0xE000 then None
            else Some(Unit((0x1_0000 + (n - 0xD800) * 0x400 + (low - 0xDC00)) as char, 12))
  }

  /** The characters up to a closing quote that ends the text. A literal is longer than what it denotes. */
  function ReadChars(s: string): (r: Option<string>)
    ensures r.Some? ==> |r.value| < |s| && s[|s| - 1] == '"'
    decreases |s|
  {
    if s == "\"" then Some("")
    else
      match ReadUnit(s)
      case None => None
      case Some(unit) =>
        match ReadChars(s[unit.length..])
        case None => None
        case Some(rest) => Some([unit.value] + rest)
  }

  predicate IsJsonSpace(c: char) { c == ' ' || c == '\n' || c == '\t' || c == '\r' }

  function ReadString(text: string): (r: Option<string>)
    ensures r.Some? ==> |r.value| + 2 <= |text|
    ensures text != "" && IsCloser(text[|text| - 1]) ==> r.None?
  {
    var t := Trim(text, IsJsonSpace);
    if t != "" && t[0] == '"' then ReadChars(t[1..]) else None
  }

  // ---- arguments --------------------------------------------------------------------------------------------------

  /** A JSON value: a string, or anything else. */
  datatype Json<V> = Text(text: string) | Plain(value: V)

  /** A JSON reader: strings as above, other values by `plain`. */
  datatype Reader<!V> = Reader(plain: string -> Option<V>, nothing: V)
  {
    function Read(text: string): Option<Json<V>> {
      match ReadString(text)
      case Some(s) => Some(Text(s))
      case None => match plain(text) case Some(v) => Some(Plain(v)) case None => None
    }
  }

  /** `parse_tool_arguments`: decode, or repair and decode; a decoded string is parsed in turn. Never a string. */
  function ParseToolArguments<V>(r: Reader<V>, arguments: string): (v: Json<V>)
    ensures v.Plain?
    decreases |arguments|
  {
    var t := Trim(arguments, IsWhitespace);
    if t == "" then Plain(r.nothing)
    else
      match r.Read(t)
      case Some(Text(inner)) => ParseToolArguments(r, inner)
      case Some(Plain(v)) => Plain(v)
      case None =>
        match Repair(t)
        case None => Plain(r.nothing)
        case Some(repaired) =>
          RepairedIsNoString(t);
          match r.Read(repaired)
          case None => Plain(r.nothing)
          case Some(value) => value
  }

  lemma RepairedIsNoString(text: string)
    requires Repair(text).Some?
    ensures ReadString(Repair(text).value).None?
  {
    RepairBalances(text);
    var r := Repair(text).value;
    assert r[|r| - 1] == r[|text|..][|r| - |text| - 1];
  }

  // ---- wrapped arguments ------------------------------------------------------------------------------------------

  function HexDigit(n: nat): char
    requires n < 16
  {
    if n < 10 then '0' + n as char else 'a' + (n - 10) as char
  }

  function EscapedChar(c: char): string {
    if c == '"' || c == '\\' then ['\\', c]
    else if c as int < 0x20 then ['\\', 'u', '0', '0', HexDigit(c as int / 16), HexDigit(c as int % 16)]
    else [c]
  }

  function Escaped(s: string): string { if s == "" then "" else EscapedChar(s[0]) + Escaped(s[1..]) }

  /** A string as a JSON string literal. */
  function Encode(s: string): string { "\"" + Escaped(s) + "\"" }

  lemma HexDigitValue(n: nat)
    requires n < 16
    ensures HexValue(HexDigit(n)) == Some(n)
  {
  }

  lemma EscapedCharReads(c: char, rest: string)
    ensures var s := EscapedChar(c) + rest; s != "\"" && ReadUnit(s) == Some(Unit(c, |EscapedChar(c)|))
  {
    var s := EscapedChar(c) + rest;
    assert s[0] == EscapedChar(c)[0];
    if c as int < 0x20 {
      HexDigitValue(c as int / 16);
      HexDigitValue(c as int % 16);
      assert s[2..][0] == '0' && s[2..][1] == '0';
      assert s[2..][2] == HexDigit(c as int / 16) && s[2..][3] == HexDigit(c as int % 16);
    }
  }

  lemma {:induction false} EscapedReads(s: string)
    ensures ReadChars(Escaped(s) + "\"") == Some(s)
  {
    if s == "" {
      assert Escaped(s) + "\"" == "\"";
    } else {
      var e, rest := EscapedChar(s[0]), Escaped(s[1..]) + "\"";
      assert Escaped(s) + "\"" == e + rest;
      EscapedCharReads(s[0], rest);
      assert (e + rest)[|e|..] == rest;
      EscapedReads(s[1..]);
      assert s == [s[0]] + s[1..];
    }
  }

  lemma TrimKeepsQuoted(s: string, blank: char -> bool)
    requires |s| >= 2 && !blank(s[0]) && !blank(s[|s| - 1])
    ensures Trim(s, blank) == s
  {
  }

  lemma EncodedReads(s: string)
    ensures ReadString(Encode(s)) == Some(s)
  {
    TrimKeepsQuoted(Encode(s), IsJsonSpace);
    assert Encode(s)[1..] == Escaped(s) + "\"";
    EscapedReads(s);
  }

  lemma ParseEncoded<V>(r: Reader<V>, arguments: string)
    ensures ParseToolArguments(r, Encode(arguments)) == ParseToolArguments(r, arguments)
  {
    var e := Encode(arguments);
    TrimKeepsQuoted(e, IsWhitespace);
    EncodedReads(arguments);
    assert r.Read(e) == Some(Text(arguments));
  }

  function Times(wrap: string -> string, s: string, n: nat): string {
    if n == 0 then s else wrap(Times(wrap, s, n - 1))
  }

  lemma {:induction false} TimesKeeps<T>(f: string -> T, wrap: string -> string, s: string, n: nat)
    requires forall x :: f(wrap(x)) == f(x)
    ensures f(Times(wrap, s, n)) == f(s)
  {
    if n > 0 {
      TimesKeeps(f, wrap, s, n - 1);
    }
  }

  /** However often arguments were encoded as a string, they parse as if they had not been. */
  lemma {:induction false} WrappingIsUndone<V>(r: Reader<V>, arguments: string, times: nat)
    ensures ParseToolArguments(r, Times(Encode, arguments, times)) == ParseToolArguments(r, arguments)
  {
    var f := (s: string) => ParseToolArguments(r, s);
    forall x ensures f(Encode(x)) == f(x) { ParseEncoded(r, x); }
    TimesKeeps(f, Encode, arguments, times);
    assert f(Times(Encode, arguments, times)) == f(arguments);
  }

  // ---- truncated arguments ----------------------------------------------------------------------------------------

  lemma ClosedIsTrimmed(t: string, c: string)
    requires c != "" && AreClosers(c) && (t != "" ==> !IsWhitespace(t[0]))
    ensures Trim(t + c, IsWhitespace) == t + c
  {
    var s := t + c;
    assert IsCloser(s[0]) || !IsWhitespace(s[0]);
    assert IsCloser(s[|s| - 1]);
    assert "" + s + "" == s;
    TrimDrops("", s, "", IsWhitespace);
  }

  lemma EndsInCloser(t: string, c: string)
    requires c != "" && AreClosers(c)
    ensures ReadString(t + c).None?
  {
    assert IsCloser((t + c)[|t + c| - 1]);
  }

  /** What a balanced text that is no string parses to. */
  lemma BalancedParses<V>(r: Reader<V>, s: string, t: string)
    requires Trim(s, IsWhitespace) == t && t != "" && Balanced(t) && ReadString(t).None?
    ensures ParseToolArguments(r, s) == match r.Read(t) case Some(v) => v case None => Plain(r.nothing)
  {
    assert Repair(t).None?;
  }

  /** Arguments that cannot be read and lack only closers parse as they do with them. */
  lemma ClosersAreSupplied<V>(r: Reader<V>, arguments: string, c: string)
    requires c != "" && AreClosers(c) && Balanced(Trim(arguments, IsWhitespace) + c)
    requires r.Read(Trim(arguments, IsWhitespace)).None?
    ensures ParseToolArguments(r, arguments) == ParseToolArguments(r, Trim(arguments, IsWhitespace) + c)
  {
    var t := Trim(arguments, IsWhitespace);
    RepairIsComplete(t, c);
    assert Repair("").None?;
    ClosedIsTrimmed(t, c);
    EndsInCloser(t, c);
    BalancedParses(r, t + c, t + c);
  }

  lemma {:induction false} BlanksScanAsNothing(s: Scan, blanks: string)
    requires AllBlank(blanks, IsWhitespace) && s.Scan? && !s.inString
    ensures ScanFrom(s, blanks) == s
  {
    if blanks != "" {
      BlanksScanAsNothing(s, blanks[1..]);
    }
  }

  lemma BalancedWithoutBlanks(before: string, t: string, after: string, c: string)
    requires AllBlank(before, IsWhitespace) && AllBlank(after, IsWhitespace) && AreClosers(c)
    requires Balanced(before + t + after + c)
    ensures Balanced(t + c) && Balanced(t + after + c)
  {
    ScanAppend(START, before + t + after, c);
    ScanAppend(START, before + t, after);
    ScanAppend(START, before, t);
    ScanAppend(START, t + after, c);
    ScanAppend(START, t, after);
    ScanAppend(START, t, c);
    BlanksScanAsNothing(START, before);
    OpenAreClosers(START, t + after);
    OnlyClosersLeft(ScanFrom(START, t + after), c);
    NotInStringBefore(ScanFrom(START, t), after);
    BlanksScanAsNothing(ScanFrom(START, t), after);
  }

  /** Blanks do not end a string. */
  lemma {:induction false} NotInStringBefore(s: Scan, blanks: string)
    requires AllBlank(blanks, IsWhitespace)
    requires var r := ScanFrom(s, blanks); r.Scan? && !r.inString
    ensures s.Scan? && !s.inString
    decreases blanks
  {
    if blanks != "" {
      NotInStringBefore(Step(s, blanks[0]), blanks[1..]);
    }
  }

  lemma WholeTrims(before: string, t: string, after: string, c: string)
    requires AllBlank(before, IsWhitespace) && c != "" && AreClosers(c)
    requires t != "" && !IsWhitespace(t[0])
    ensures Trim(before + t + after + c, IsWhitespace) == t + after + c
  {
    var s := t + after + c;
    assert before + t + after + c == before + s + "";
    assert IsCloser(s[|s| - 1]);
    TrimDrops(before, s, "", IsWhitespace);
  }

  /** Blanks before the closers make no difference to arguments if they make none to the reader. */
  lemma BlanksBeforeClosers<V>(r: Reader<V>, before: string, t: string, after: string, c: string)
    requires AllBlank(before, IsWhitespace) && c != "" && AreClosers(c) && t != "" && !IsWhitespace(t[0])
    requires Balanced(t + c) && Balanced(t + after + c) && r.Read(t + after + c) == r.Read(t + c)
    ensures ParseToolArguments(r, before + t + after + c) == ParseToolArguments(r, t + c)
  {
    ClosedIsTrimmed(t, c);
    EndsInCloser(t, c);
    BalancedParses(r, t + c, t + c);
    WholeTrims(before, t, after, c);
    EndsInCloser(t + after, c);
    BalancedParses(r, before + t + after + c, t + after + c);
  }

  lemma NothingIsNotBalanced(c: string)
    requires c != "" && AreClosers(c)
    ensures !Balanced("" + c)
  {
    RepairIsComplete("", c);
  }

  lemma SplitAtCut(s: string, c: string) returns (before: string, after: string)
    requires c != "" && AreClosers(c) && Balanced(s + c)
    ensures AllBlank(before, IsWhitespace)
    ensures var t := Trim(s, IsWhitespace);
      && s + c == before + t + after + c && t != "" && Balanced(t + c) && Balanced(t + after + c)
      && Trim(s + c, IsWhitespace) == t + after + c
  {
    var t := Trim(s, IsWhitespace);
    before, after := TrimSplits(s, IsWhitespace);
    BalancedWithoutBlanks(before, t, after, c);
    NothingIsNotBalanced(c);
    WholeTrims(before, t, after, c);
  }

  lemma SuppliedAtCut<V>(r: Reader<V>, s: string, c: string)
    requires c != "" && AreClosers(c) && Balanced(s + c)
    requires var t := Trim(s, IsWhitespace); r.Read(t).None? && r.Read(Trim(s + c, IsWhitespace)) == r.Read(t + c)
    ensures ParseToolArguments(r, s) == ParseToolArguments(r, s + c)
  {
    var before, after := SplitAtCut(s, c);
    ClosersAreSupplied(r, s, c);
    BlanksBeforeClosers(r, before, Trim(s, IsWhitespace), after, c);
  }

  /**
   * Arguments cut off anywhere among their last closers, and not readable as they are, parse as the whole, given a
   * reader to whom blanks before those closers mean nothing.
   */
  lemma TruncationIsUndone<V>(r: Reader<V>, whole: string, cut: nat)
    requires cut < |whole| && AreClosers(whole[cut..]) && Balanced(whole)
    requires var t := Trim(whole[..cut], IsWhitespace);
      r.Read(t).None? && r.Read(Trim(whole, IsWhitespace)) == r.Read(t + whole[cut..])
    ensures ParseToolArguments(r, whole[..cut]) == ParseToolArguments(r, whole)
  {
    assert whole == whole[..cut] + whole[cut..];
    SuppliedAtCut(r, whole[..cut], whole[cut..]);
  }
}
