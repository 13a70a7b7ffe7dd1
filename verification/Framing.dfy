/**
 Content-Length framing of the language-server client: frames, the reader loop over a byte
 stream, and writers that share the stream under a lock.
 */
module Framing {
  import opened Bytes
  import opened Chars
  import opened Lists
  import opened Options

  type Stream = seq<Byte>

  const LF: Byte := 10
  const CR: Byte := 13
  const SPACE: Byte := 32
  const PLUS: Byte := 43
  const ZERO: Byte := 48
  /** "Content-Length:" */
  const HEADER: Stream := [67, 111, 110, 116, 101, 110, 116, 45, 76, 101, 110, 103, 116, 104, 58]
  const USIZE_LIMIT: nat := 0x1_0000_0000_0000_0000

  // ---- decimal lengths --------------------------------------------------------------------------------------------

  predicate IsDigit(b: Byte) { 48 <= b <= 57 }

  predicate AllDigits(s: Stream) { forall i :: 0 <= i < |s| ==> IsDigit(s[i]) }

  function Decimal(n: nat): (s: Stream)
    ensures s != [] && forall i :: 0 <= i < |s| ==> IsDigit(s[i])
  {
    var d := Digits(n);
    seq(|d|, i requires 0 <= i < |d| => ZERO + d[i])
  }

  function DigitsValue(s: Stream): nat
    requires forall i :: 0 <= i < |s| ==> IsDigit(s[i])
  {
    if s == [] then 0
    else
      assert IsDigit(s[|s| - 1]);
      DigitsValue(s[..|s| - 1]) * 10 + (s[|s| - 1] - ZERO)
  }

  /** `str::parse::<usize>` on a 64-bit machine: optional sign, digits only, no overflow. */
  function ParseUsize(s: Stream): Option<nat> {
    var digits := if s != [] && s[0] == PLUS then s[1..] else s;
    if digits == [] || !AllDigits(digits) then None
    else if DigitsValue(digits) >= USIZE_LIMIT then None
    else Some(DigitsValue(digits))
  }

  lemma {:induction false} DecimalValue(n: nat)
    ensures DigitsValue(Decimal(n)) == n
  {
    if n >= 10 {
      DecimalValue(n / 10);
      var s := Decimal(n);
      assert s[..|s| - 1] == Decimal(n / 10);
    } else {
      assert Decimal(n)[..0] == [];
    }
  }

  lemma DecimalRoundTrip(n: nat)
    requires n < USIZE_LIMIT
    ensures ParseUsize(Decimal(n)) == Some(n)
  {
    DecimalValue(n);
  }

  // ---- lines ------------------------------------------------------------------------------------------------------

  predicate IsSpace(b: Byte) { b == SPACE || 9 <= b <= 13 }

  /** Length of the first line, its line feed included. */
  function LineLength(s: Stream): (n: nat)
    ensures n <= |s| && (s != [] ==> n > 0)
  {
    if s == [] then 0 else if s[0] == LF then 1 else 1 + LineLength(s[1..])
  }

  lemma {:induction false} FirstLineIs(line: Stream, rest: Stream)
    requires forall i :: 0 <= i < |line| ==> line[i] != LF
    ensures LineLength(line + [LF] + rest) == |line| + 1
  {
    var s := line + [LF] + rest;
    if line != [] {
      assert s[1..] == line[1..] + [LF] + rest;
      FirstLineIs(line[1..], rest);
    }
  }

  lemma {:induction false} UnfinishedLineIs(line: Stream)
    requires forall i :: 0 <= i < |line| ==> line[i] != LF
    ensures LineLength(line) == |line|
  {
    if line != [] {
      UnfinishedLineIs(line[1..]);
    }
  }

  // ---- frames and the reader loop ---------------------------------------------------------------------------------

  /** JSON: which lines are text, and which bodies are a message. */
  datatype Codec<!Msg> = Codec(isText: Stream -> bool, parse: Stream -> Option<Msg>)
  {
    /** ASCII is text, and the empty body is no message. */
    ghost predicate Sound() {
      && (forall s: Stream :: (forall i :: 0 <= i < |s| ==> s[i] < 128) ==> isText(s))
      && parse([]).None?
    }
  }

  function HeaderLine(n: nat): Stream {
    HEADER + [SPACE] + Decimal(n) + [CR]
  }

  function Frame(body: Stream): Stream {
    HeaderLine(|body|) + [LF] + [CR] + [LF] + body
  }

  datatype Headers = Closed | Ready(length: Option<nat>, rest: Stream)

  /** A header line is a length, or says nothing about it. */
  function LengthAfter(line: Stream, length: Option<nat>): Option<nat> {
    if HEADER <= line then ParseUsize(Trim(line[|HEADER|..], IsSpace)) else length
  }

  /** Read header lines up to the blank one, remembering the last length seen. */
  function ReadHeaders<Msg>(c: Codec<Msg>, s: Stream, length: Option<nat>): (h: Headers)
    ensures h.Ready? ==> |h.rest| < |s|
    decreases |s|
  {
    if s == [] then Closed
    else
      var n := LineLength(s);
      if !c.isText(s[..n]) then Closed
      else
        var line := Trim(s[..n], IsSpace);
        if line == [] then Ready(length, s[n..])
        else ReadHeaders(c, s[n..], LengthAfter(line, length))
  }

  predicate IsTextLine<Msg>(c: Codec<Msg>, line: Stream) {
    && line != [] && line[|line| - 1] == LF && c.isText(line)
    && forall i :: 0 <= i < |line| - 1 ==> line[i] != LF
  }

  predicate IsHeader<Msg>(c: Codec<Msg>, line: Stream) { IsTextLine(c, line) && Trim(line, IsSpace) != [] }

  function Flat(lines: seq<Stream>): Stream { if lines == [] then [] else lines[0] + Flat(lines[1..]) }

  /** What the last length header says, malformed or not; `length` if there is none. */
  function LastLength(headers: seq<Stream>, length: Option<nat>): Option<nat> {
    if headers == [] then length
    else LengthAfter(Trim(headers[|headers| - 1], IsSpace), LastLength(headers[..|headers| - 1], length))
  }

  lemma {:induction false} LastLengthFirst(headers: seq<Stream>, length: Option<nat>)
    requires headers != []
    ensures LastLength(headers, length) == LastLength(headers[1..], LengthAfter(Trim(headers[0], IsSpace), length))
  {
    var n := |headers| - 1;
    if n > 0 {
      assert headers[..n][1..] == headers[1..][..n - 1];
      LastLengthFirst(headers[..n], length);
    }
  }

  lemma HeaderStep<Msg>(c: Codec<Msg>, line: Stream, rest: Stream, length: Option<nat>)
    requires IsTextLine(c, line)
    ensures ReadHeaders(c, line + rest, length)
         == var t := Trim(line, IsSpace);
            if t == [] then Ready(length, rest) else ReadHeaders(c, rest, LengthAfter(t, length))
  {
    var s := line + rest;
    assert line == line[..|line| - 1] + [LF];
    FirstLineIs(line[..|line| - 1], rest);
    assert s[..|line|] == line && s[|line|..] == rest;
  }

  /**
   * Whatever text lines a server puts before the blank one, in any order, exactly they are consumed, and the last
   * length header counts: one that cannot be read leaves no length.
   */
  lemma {:induction false} HeaderBlock<Msg>(
    c: Codec<Msg>, headers: seq<Stream>, blank: Stream, rest: Stream, length: Option<nat>)
    requires (forall h <- headers :: IsHeader(c, h)) && IsTextLine(c, blank) && Trim(blank, IsSpace) == []
    ensures ReadHeaders(c, Flat(headers) + (blank + rest), length) == Ready(LastLength(headers, length), rest)
  {
    if headers == [] {
      assert Flat(headers) + (blank + rest) == blank + rest;
      HeaderStep(c, blank, rest, length);
    } else {
      assert IsHeader(c, headers[0]);
      Regroup(headers[0], Flat(headers[1..]), blank + rest);
      HeaderStep(c, headers[0], Flat(headers[1..]) + (blank + rest), length);
      HeaderBlock(c, headers[1..], blank, rest, LengthAfter(Trim(headers[0], IsSpace), length));
      LastLengthFirst(headers, length);
    }
  }

  /** All messages the reader loop dispatches from a stream that ends after `s`. */
  function ReadAll<Msg>(c: Codec<Msg>, s: Stream): seq<Msg>
    decreases |s|
  {
    match ReadHeaders(c, s, None)
    case Closed => []
    case Ready(None, rest) => ReadAll(c, rest)
    case Ready(Some(n), rest) =>
      if |rest| < n then []
      else
        match c.parse(rest[..n])
        case None => ReadAll(c, rest[n..])
        case Some(msg) => [msg] + ReadAll(c, rest[n..])
  }

  method ReaderLoop<Msg>(c: Codec<Msg>, stream: Stream) returns (messages: seq<Msg>)
    ensures messages == ReadAll(c, stream)
  {
    messages := [];
    var s := stream;
    while true
      invariant messages + ReadAll(c, s) == ReadAll(c, stream)
      decreases |s|
    {
      var length: Option<nat> := None;
      ghost var start := s;
      var blank := false;
      while !blank
        invariant |s| <= |start| && (blank ==> |s| < |start|)
        invariant ReadHeaders(c, start, None) == if blank then Ready(length, s) else ReadHeaders(c, s, length)
        decreases !blank, |s|
      {
        var n := LineLength(s);
        if n == 0 || !c.isText(s[..n]) {
          return;
        }
        var line := Trim(s[..n], IsSpace);
        s := s[n..];
        if line == [] {
          blank := true;
        } else if HEADER <= line {
          length := ParseUsize(Trim(line[|HEADER|..], IsSpace));
        }
      }
      if length.Some? {
        if |s| < length.value {
          return;
        }
        var body := s[..length.value];
        s := s[length.value..];
        if c.parse(body).Some? {
          messages := messages + [c.parse(body).value];
        }
      }
    }
  }

  /** A length header, and no later one: it is the one that counts, even if it cannot be read. */
  lemma {:induction false} LastLengthIs(headers: seq<Stream>, length: Option<nat>, k: nat)
    requires k < |headers| && HEADER <= Trim(headers[k], IsSpace)
    requires forall i :: k < i < |headers| ==> !(HEADER <= Trim(headers[i], IsSpace))
    ensures LastLength(headers, length) == ParseUsize(Trim(Trim(headers[k], IsSpace)[15..], IsSpace))
  {
    var n := |headers| - 1;
    if k < n {
      LastLengthIs(headers[..n], length, k);
    }
  }

  /** A number is read from an optional sign and digits only, if it is below two to the sixty-fourth. */
  lemma ParseUsizeIff(s: Stream, digits: Stream)
    requires digits == if s != [] && s[0] == 43 then s[1..] else s
    ensures ParseUsize(s) ==
      if digits != [] && (forall i :: 0 <= i < |digits| ==> 48 <= digits[i] <= 57) && DigitsValue(digits) < 18446744073709551616
      then Some(DigitsValue(digits)) else None
  {
    if !AllDigits(digits) {
      var i :| 0 <= i < |digits| && !IsDigit(digits[i]);
      assert !(48 <= digits[i] <= 57);
    }
  }

  /**
   * What the reader does with any block of headers: without a length it is skipped; with one, the body follows, and a body
   * that is no message is skipped while one that is goes out; a body that is not all there ends the stream.
   */
  lemma BlockIsRead<Msg>(c: Codec<Msg>, headers: seq<Stream>, blank: Stream, rest: Stream)
    requires (forall h <- headers :: IsHeader(c, h)) && IsTextLine(c, blank) && Trim(blank, IsSpace) == []
    ensures var length := LastLength(headers, None); var read := ReadAll(c, Flat(headers) + (blank + rest));
      && (length.None? ==> read == ReadAll(c, rest))
      && (length.Some? && |rest| < length.value ==> read == [])
      && (length.Some? && |rest| >= length.value && c.parse(rest[..length.value]).None? ==> read == ReadAll(c, rest[length.value..]))
      && (length.Some? && |rest| >= length.value && c.parse(rest[..length.value]).Some? ==>
            read == [c.parse(rest[..length.value]).value] + ReadAll(c, rest[length.value..]))
  {
    HeaderBlock(c, headers, blank, rest, None);
  }

  /** A frame is the header in ASCII, an empty line and the body. */
  lemma FrameIs(body: Stream)
    ensures Frame(body) == Ascii("Content-Length: ") + Ascii(DecimalText(|body|)) + [13, 10, 13, 10] + body
  {
    assert Ascii("Content-Length: ") == HEADER + [SPACE];
    DecimalIsAscii(|body|);
    assert HeaderLine(|body|) + [LF] + [CR] + [LF] == HEADER + [SPACE] + Decimal(|body|) + [13, 10, 13, 10];
  }

  function Ascii(s: string): Stream
    requires forall i :: 0 <= i < |s| ==> s[i] as int < 128
  {
    seq(|s|, i requires 0 <= i < |s| => s[i] as int)
  }

  lemma DecimalIsAscii(n: nat)
    ensures Ascii(DecimalText(n)) == Decimal(n)
  {
  }

  // ---- one frame --------------------------------------------------------------------------------------------------

  lemma HeaderLineIsPlain(n: nat)
    ensures var line := HeaderLine(n); forall i :: 0 <= i < |line| ==> line[i] < 128 && line[i] != LF
  {
  }

  lemma HeaderLineParses(n: nat)
    requires n < USIZE_LIMIT
    ensures var line := Trim(HeaderLine(n) + [LF], IsSpace);
      HEADER <= line && ParseUsize(Trim(line[|HEADER|..], IsSpace)) == Some(n)
  {
    var digits := Decimal(n);
    var core := HEADER + [SPACE] + digits;
    assert HeaderLine(n) + [LF] == [] + core + [CR, LF];
    TrimDrops([], core, [CR, LF], IsSpace);
    assert core[|HEADER|..] == [SPACE] + digits + [];
    TrimDrops([SPACE], digits, [], IsSpace);
    DecimalRoundTrip(n);
  }

  lemma EmptyLineIsBlank<Msg>(c: Codec<Msg>)
    requires c.Sound()
    ensures IsTextLine(c, [CR, LF]) && Trim([CR, LF], IsSpace) == []
  {
    assert [CR, LF] + [] + [] == [CR, LF];
    TrimDrops([CR, LF], [], [], IsSpace);
  }

  lemma BlankLine<Msg>(c: Codec<Msg>, rest: Stream, length: Option<nat>)
    requires c.Sound()
    ensures ReadHeaders(c, [CR] + [LF] + rest, length) == Ready(length, rest)
  {
    EmptyLineIsBlank(c);
    HeaderStep(c, [CR, LF], rest, length);
    assert [CR] + [LF] + rest == [CR, LF] + rest;
  }

  lemma HeaderLineIsText<Msg>(c: Codec<Msg>, n: nat)
    requires c.Sound()
    ensures IsTextLine(c, HeaderLine(n) + [LF])
  {
    HeaderLineIsPlain(n);
  }

  lemma HeaderThen<Msg>(c: Codec<Msg>, n: nat, after: Stream)
    requires c.Sound() && n < USIZE_LIMIT
    ensures ReadHeaders(c, HeaderLine(n) + [LF] + after, None) == ReadHeaders(c, after, Some(n))
  {
    HeaderLineIsText(c, n);
    HeaderLineParses(n);
    HeaderStep(c, HeaderLine(n) + [LF], after, None);
  }

  lemma FrameHeaders<Msg>(c: Codec<Msg>, n: nat, rest: Stream)
    requires c.Sound() && n < USIZE_LIMIT
    ensures ReadHeaders(c, HeaderLine(n) + [LF] + ([CR] + [LF] + rest), None) == Ready(Some(n), rest)
  {
    HeaderThen(c, n, [CR] + [LF] + rest);
    BlankLine(c, rest, Some(n));
  }

  /** Reading a stream that starts with a frame yields its message, then the rest. */
  lemma ReadFrame<Msg>(c: Codec<Msg>, body: Stream, rest: Stream)
    requires c.Sound() && |body| < USIZE_LIMIT && c.parse(body).Some?
    ensures ReadAll(c, Frame(body) + rest) == [c.parse(body).value] + ReadAll(c, rest)
  {
    assert Frame(body) + rest == HeaderLine(|body|) + [LF] + ([CR] + [LF] + (body + rest));
    FrameHeaders(c, |body|, body + rest);
    assert (body + rest)[..|body|] == body && (body + rest)[|body|..] == rest;
  }

  // ---- whole streams ----------------------------------------------------------------------------------------------

  function Frames(bodies: seq<Stream>): Stream {
    if bodies == [] then [] else Frame(bodies[0]) + Frames(bodies[1..])
  }

  predicate AllParse<Msg>(c: Codec<Msg>, bodies: seq<Stream>) {
    forall body <- bodies :: |body| < USIZE_LIMIT && c.parse(body).Some?
  }

  function Parsed<Msg>(c: Codec<Msg>, bodies: seq<Stream>): seq<Msg>
    requires AllParse(c, bodies)
  {
    if bodies == [] then [] else [c.parse(bodies[0]).value] + Parsed(c, bodies[1..])
  }

  /** Every list of framed bodies reads back as exactly its messages, in order, before whatever follows. */
  lemma {:induction false} FramesReadBack<Msg>(c: Codec<Msg>, bodies: seq<Stream>, rest: Stream)
    requires c.Sound() && AllParse(c, bodies)
    ensures ReadAll(c, Frames(bodies) + rest) == Parsed(c, bodies) + ReadAll(c, rest)
  {
    if bodies == [] {
      assert [] + rest == rest;
    } else {
      Regroup(Frame(bodies[0]), Frames(bodies[1..]), rest);
      ReadFrame(c, bodies[0], Frames(bodies[1..]) + rest);
      FramesReadBack(c, bodies[1..], rest);
      Regroup([c.parse(bodies[0]).value], Parsed(c, bodies[1..]), ReadAll(c, rest));
    }
  }

  lemma UnfinishedLineReadsNothing<Msg>(c: Codec<Msg>, s: Stream, length: Option<nat>)
    requires forall i :: 0 <= i < |s| ==> s[i] != LF
    ensures var h := ReadHeaders(c, s, length); h.Ready? ==> h == Ready(length, [])
  {
    UnfinishedLineIs(s);
    assert s[|s|..] == [];
  }

  lemma CutLineReadsNothing<Msg>(c: Codec<Msg>, n: nat, cut: nat)
    requires cut <= |HeaderLine(n)|
    ensures ReadAll(c, HeaderLine(n)[..cut]) == []
  {
    HeaderLineIsPlain(n);
    UnfinishedLineReadsNothing(c, HeaderLine(n)[..cut], None);
  }

  lemma CutHeaderReadsNothing<Msg>(c: Codec<Msg>, n: nat, after: Stream)
    requires c.Sound() && n < USIZE_LIMIT && (after == [] || after == [CR])
    ensures ReadAll(c, HeaderLine(n) + [LF] + after) == []
  {
    HeaderThen(c, n, after);
    UnfinishedLineReadsNothing(c, after, Some(n));
  }

  lemma CutBodyReadsNothing<Msg>(c: Codec<Msg>, n: nat, part: Stream)
    requires c.Sound() && |part| < n < USIZE_LIMIT
    ensures ReadAll(c, HeaderLine(n) + [LF] + ([CR] + [LF] + part)) == []
  {
    FrameHeaders(c, n, part);
  }

  lemma CutFrameIs(body: Stream, cut: nat)
    requires cut < |Frame(body)|
    ensures var line, s := HeaderLine(|body|), Frame(body)[..cut];
      if cut <= |line| then s == line[..cut]
      else if cut <= |line| + 2 then s == line + [LF] + [CR][..cut - |line| - 1]
      else s == line + [LF] + ([CR] + [LF] + body[..cut - |line| - 3])
  {
  }

  /** A stream cut inside a frame yields nothing for that frame: no message is ever read from part of one. */
  lemma CutFrameReadsNothing<Msg>(c: Codec<Msg>, body: Stream, cut: nat)
    requires c.Sound() && |body| < USIZE_LIMIT && cut < |Frame(body)|
    ensures ReadAll(c, Frame(body)[..cut]) == []
  {
    var line := HeaderLine(|body|);
    CutFrameIs(body, cut);
    if cut <= |line| {
      CutLineReadsNothing(c, |body|, cut);
    } else if cut <= |line| + 2 {
      CutHeaderReadsNothing(c, |body|, [CR][..cut - |line| - 1]);
    } else {
      CutBodyReadsNothing(c, |body|, body[..cut - |line| - 3]);
    }
  }

  lemma TakeFromPair<T>(a: seq<T>, b: seq<T>, cut: nat)
    requires cut <= |a + b|
    ensures (a + b)[..cut] == if cut < |a| then a[..cut] else a + b[..cut - |a|]
  {
  }

  lemma ReadsWhole<Msg>(c: Codec<Msg>, bodies: seq<Stream>)
    requires c.Sound() && AllParse(c, bodies)
    ensures ReadAll(c, Frames(bodies)) == Parsed(c, bodies)
  {
    FramesReadBack(c, bodies, []);
    assert Frames(bodies) + [] == Frames(bodies);
  }

  lemma ReadsWholeThenPart<Msg>(c: Codec<Msg>, bodies: seq<Stream>, body: Stream, written: nat)
    requires c.Sound() && AllParse(c, bodies) && |body| < USIZE_LIMIT && written < |Frame(body)|
    ensures ReadAll(c, Frames(bodies) + Frame(body)[..written]) == Parsed(c, bodies)
  {
    FramesReadBack(c, bodies, Frame(body)[..written]);
    CutFrameReadsNothing(c, body, written);
  }

  /** The start of a stream of frames is some whole frames and a proper part of the next. */
  lemma {:induction false} PrefixOfFrames(bodies: seq<Stream>, cut: nat) returns (k: nat, written: nat)
    requires cut <= |Frames(bodies)|
    ensures k <= |bodies| && (k == |bodies| ==> Frames(bodies)[..cut] == Frames(bodies[..k]))
    ensures k < |bodies| ==>
      written < |Frame(bodies[k])| && Frames(bodies)[..cut] == Frames(bodies[..k]) + Frame(bodies[k])[..written]
  {
    k, written := 0, 0;
    if bodies != [] {
      var first, others := Frame(bodies[0]), Frames(bodies[1..]);
      TakeFromPair(first, others, cut);
      if cut < |first| {
        written := cut;
        assert [] + first[..cut] == first[..cut];
      } else {
        k, written := PrefixOfFrames(bodies[1..], cut - |first|);
        k := k + 1;
        assert bodies[..k][1..] == bodies[1..][..k - 1];
        if k < |bodies| {
          Regroup(first, Frames(bodies[1..][..k - 1]), Frame(bodies[k])[..written]);
        }
      }
    }
  }

  lemma {:induction false} ParsedPrefix<Msg>(c: Codec<Msg>, bodies: seq<Stream>, k: nat)
    requires AllParse(c, bodies) && k <= |bodies|
    ensures AllParse(c, bodies[..k]) && Parsed(c, bodies[..k]) <= Parsed(c, bodies)
  {
    forall body | body in bodies[..k] ensures body in bodies { }
    if k > 0 {
      assert bodies[..k][1..] == bodies[1..][..k - 1];
      ParsedPrefix(c, bodies[1..], k - 1);
    }
  }

  /** What has arrived of a frame stream at any moment reads as an initial part of its messages. */
  lemma ArrivedReadsPrefix<Msg>(c: Codec<Msg>, bodies: seq<Stream>, cut: nat)
    requires c.Sound() && AllParse(c, bodies) && cut <= |Frames(bodies)|
    ensures ReadAll(c, Frames(bodies)[..cut]) <= Parsed(c, bodies)
  {
    var k, written := PrefixOfFrames(bodies, cut);
    ParsedPrefix(c, bodies, k);
    if k == |bodies| {
      ReadsWhole(c, bodies[..k]);
    } else {
      assert bodies[k] in bodies;
      ReadsWholeThenPart(c, bodies[..k], bodies[k], written);
    }
  }
}
