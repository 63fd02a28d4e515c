/** The bounded HTTP/1.1 body reader of the proxy probe (`_read_http_response`), on
    the bytes that follow the header block. */
module HttpModel {
  import opened Common

  const CR: byte := 13
  const LF: byte := 10
  const CRLF: bytes := [13, 10]
  const SEMICOLON: byte := 59
  const UNDERSCORE: byte := 95

  const LINE_MAX := 128
  const BODY_MAX := 65536
  const TRAILER_MAX := 32768
  const DIGITS_MAX := 4300

  datatype Problem = Truncated | BadHeader | BadSize | TooLarge | BadTerminator | LongTrailers | BadLength

  /** The body and the position in the stream where its encoding ends. */
  datatype Decoded = Body(data: bytes, end: nat) | Bad(why: Problem)

  // ---------------------------------------------------------------- integer texts

  /** Blanks of a byte string, or of a text decoded as Latin-1. */
  predicate IsSpace(b: byte, text: bool)
  {
    b == 32 || 9 <= b <= 13 || (text && (0x1C <= b <= 0x1F || b == 0x85 || b == 0xA0))
  }

  function StripRight(s: bytes, text: bool): bytes
  {
    if s != [] && IsSpace(s[|s| - 1], text) then StripRight(s[..|s| - 1], text) else s
  }

  function Strip(s: bytes, text: bool): bytes
    decreases |s|
  {
    if s != [] && IsSpace(s[0], text) then Strip(s[1..], text) else StripRight(s, text)
  }

  function DigitValue(b: byte): nat
  {
    if 48 <= b <= 57 then b - 48
    else if 97 <= b <= 102 then b - 87
    else if 65 <= b <= 70 then b - 55
    else 99
  }

  predicate IsDigit(b: byte, radix: nat) { DigitValue(b) < radix }

  /** Digits with single underscores between them. */
  function Digits(s: bytes, radix: nat): Option<nat>
    decreases |s|
  {
    if s == [] || !IsDigit(s[|s| - 1], radix) then None
    else
      var d := DigitValue(s[|s| - 1]);
      var front := s[..|s| - 1];
      if front == [] then Some(d)
      else
        var rest := if front[|front| - 1] == UNDERSCORE then front[..|front| - 1] else front;
        match Digits(rest, radix)
        case None => None
        case Some(v) => Some(v * radix + d)
  }

  function DigitCount(s: bytes): nat
  {
    if s == [] then 0 else DigitCount(s[1..]) + (if s[0] == UNDERSCORE then 0 else 1)
  }

  /** The `0x` prefix, with the one underscore allowed after it. */
  function AfterPrefix(s: bytes): bytes
  {
    if |s| >= 2 && s[0] == 48 && (s[1] == 120 || s[1] == 88) then
      if |s| >= 3 && s[2] == UNDERSCORE then s[3..] else s[2..]
    else s
  }

  /** Python's `int(text, radix)` on stripped text, for the radices 10 and 16. Decimal
      texts of more than 4300 digits are refused. */
  function Unsigned(s: bytes, radix: nat): Option<nat>
  {
    if radix == 10 && DigitCount(s) > DIGITS_MAX then None
    else Digits(if radix == 16 then AfterPrefix(s) else s, radix)
  }

  function IntText(s: bytes, radix: nat): Option<int>
  {
    if s != [] && (s[0] == 43 || s[0] == 45) then
      match Unsigned(s[1..], radix)
      case None => None
      case Some(v) => Some((if s[0] == 45 then -1 else 1) * v)
    else
      match Unsigned(s, radix)
      case None => None
      case Some(v) => Some(v)
  }

  // ------------------------------------------------------------------- chunk lines

  /** Where the line read at `i` ends: after the line feed, or with the stream. */
  function LineEnd(s: bytes, i: nat): (n: nat)
    ensures i <= n && (i < |s| ==> i < n <= |s|)
    decreases |s| - i
  {
    if i >= |s| then i else if s[i] == LF then i + 1 else LineEnd(s, i + 1)
  }

  function BeforeSemicolon(s: bytes): bytes
  {
    if s == [] || s[0] == SEMICOLON then [] else [s[0]] + BeforeSemicolon(s[1..])
  }

  function ChunkSize(line: bytes): Option<int>
  {
    IntText(Strip(BeforeSemicolon(line), false), 16)
  }

  // ---------------------------------------------------------------------- decoding

  /** Where the trailer section read at `i` ends: after a blank line, or with the
      stream. `count` bytes of it were read before. */
  function Trailers(s: bytes, i: nat, count: nat): Option<nat>
    decreases |s| - i
  {
    var n := LineEnd(s, i);
    if count + (n - i) > TRAILER_MAX then None
    else if n == i || s[i..n] == CRLF then Some(n)
    else Trailers(s, n, count + (n - i))
  }

  /** What the size line at some position announces: the end of decoding, or `size`
      bytes of data after a line of `skip` bytes. */
  datatype Head = Stop(d: Decoded) | Piece(skip: nat, size: nat)

  type HeadReader = (bytes, nat, nat) -> Head

  function ReadHead(s: bytes, i: nat, total: nat): Head
  {
    var n := LineEnd(s, i);
    if n == i || n - i > LINE_MAX then Stop(Bad(BadHeader))
    else match ChunkSize(s[i..n])
      case None => Stop(Bad(BadSize))
      case Some(size) =>
        if size < 0 || total + size > BODY_MAX then Stop(Bad(TooLarge))
        else if size == 0 then
          match Trailers(s, n, 0)
          case None => Stop(Bad(LongTrailers))
          case Some(end) => Stop(Body([], end))
        else Piece(n - i, size)
  }

  /** Names a reader without unfolding what it reads. */
  ghost predicate IsReadHead(head: HeadReader)
  {
    forall s: bytes, i: nat, total: nat {:trigger ReadHead(s, i, total)} :: head(s, i, total) == ReadHead(s, i, total)
  }

  function After(data: bytes, d: Decoded): Decoded
  {
    match d
    case Bad(_) => d
    case Body(more, end) => Body(data + more, end)
  }

  /** The pieces one after another; `head` is `ReadHead` everywhere it is used. */
  function Chunks(head: HeadReader, s: bytes, i: nat, total: nat): Decoded
    decreases |s| - i
  {
    match head(s, i, total)
    case Stop(d) => d
    case Piece(skip, size) =>
      var n := i + skip;
      if |s| < n + size + 2 then Bad(Truncated)
      else if s[n + size..n + size + 2] != CRLF then Bad(BadTerminator)
      else After(s[n..n + size], Chunks(head, s, n + size + 2, total + size))
  }

  /** The two fields that decide the framing, as the text after their colons. */
  datatype Headers = Headers(contentLength: Option<bytes>, transferEncoding: Option<bytes>)

  function Lower(s: bytes): bytes
  {
    if s == [] then [] else [if 65 <= s[0] <= 90 then s[0] + 32 else s[0]] + Lower(s[1..])
  }

  const CHUNKED: bytes := [99, 104, 117, 110, 107, 101, 100]

  predicate IsChunked(h: Headers)
  {
    h.transferEncoding.Some? && Lower(Strip(h.transferEncoding.value, true)) == CHUNKED
  }

  /** Decoding from position `i`. `arrived` is how much a single bounded `read` happens
      to return: at least one byte unless the stream has ended. */
  function Decode(h: Headers, wantBody: bool, s: bytes, i: nat, arrived: nat): Decoded
    requires i <= |s| && (i < |s| ==> 0 < arrived)
  {
    if !wantBody then Body([], i)
    else if h.contentLength.Some? then
      match IntText(Strip(h.contentLength.value, true), 10)
      case None => Bad(BadLength)
      case Some(n) =>
        if n < 0 || n > BODY_MAX then Bad(TooLarge)
        else if |s| - i < n then Bad(Truncated)
        else Body(s[i..i + n], i + n)
    else if IsChunked(h) then Chunks(ReadHead, s, i, 0)
    else
      var n := Min(Min(arrived, BODY_MAX + 1), |s| - i);
      if n > BODY_MAX then Bad(TooLarge) else Body(s[i..i + n], i + n)
  }

  // ------------------------------------------------------------------------ bounds

  lemma {:induction false} TrailersFit(s: bytes, i: nat, count: nat)
    requires i <= |s|
    ensures Trailers(s, i, count).Some? ==>
      var end := Trailers(s, i, count).value; i <= end <= |s| && count + (end - i) <= TRAILER_MAX
    decreases |s| - i
  {
    var n := LineEnd(s, i);
    if count + (n - i) <= TRAILER_MAX && n != i && s[i..n] != CRLF {
      TrailersFit(s, n, count + (n - i));
    }
  }

  ghost predicate Fits(h: Head, s: bytes, i: nat, total: nat)
  {
    match h
    case Stop(Bad(_)) => true
    case Stop(Body(data, end)) => data == [] && i < end <= |s|
    case Piece(_, size) => total + size <= BODY_MAX
  }

  lemma HeadFits(s: bytes, i: nat, total: nat)
    requires i <= |s| && total <= BODY_MAX
    ensures Fits(ReadHead(s, i, total), s, i, total)
  {
    TrailersFit(s, LineEnd(s, i), 0);
  }

  lemma {:induction false} ChunksFit(head: HeadReader, s: bytes, i: nat, total: nat)
    requires IsReadHead(head) && i <= |s| && total <= BODY_MAX
    ensures var d := Chunks(head, s, i, total);
      d.Body? ==> total + |d.data| <= BODY_MAX && |d.data| < d.end - i && d.end <= |s|
    decreases |s| - i
  {
    HeadFits(s, i, total);
    match head(s, i, total)
    case Stop(_) =>
    case Piece(skip, size) =>
      if i + skip + size + 2 <= |s| { ChunksFit(head, s, i + skip + size + 2, total + size); }
  }

  /** No response, however framed and however malformed, yields more than 64 KiB, and
      nothing beyond the stream is consumed. */
  lemma BodyIsBounded(h: Headers, wantBody: bool, s: bytes, i: nat, arrived: nat)
    requires i <= |s| && (i < |s| ==> 0 < arrived)
    ensures var d := Decode(h, wantBody, s, i, arrived);
      d.Body? ==> |d.data| <= BODY_MAX && |d.data| <= d.end - i && d.end <= |s|
  {
    ChunksFit(ReadHead, s, i, 0);
  }

  // -------------------------------------------------------------------- round trip

  /** RFC 9112 section 7.1: size in hexadecimal of either case with any leading zeros,
      then extensions, each introduced by optional blanks and a semicolon. */
  datatype Chunk = Chunk(size: bytes, extension: bytes, data: bytes)

  predicate IsNumeral(s: bytes, radix: nat)
  {
    s != [] && forall i :: 0 <= i < |s| ==> IsDigit(s[i], radix)
  }

  function NumeralValue(s: bytes, radix: nat): nat
  {
    if s == [] then 0 else NumeralValue(s[..|s| - 1], radix) * radix + DigitValue(s[|s| - 1])
  }

  predicate NoLineFeed(s: bytes)
  {
    forall i :: 0 <= i < |s| ==> s[i] != LF
  }

  predicate IsBlank(b: byte) { b == 32 || b == 9 }

  predicate IsExtension(s: bytes)
    decreases |s|
  {
    s == [] || ((s[0] == SEMICOLON || (IsBlank(s[0]) && s[1..] != [] && IsExtension(s[1..]))) && NoLineFeed(s))
  }

  predicate SizeLineOk(size: bytes, extension: bytes)
  {
    IsNumeral(size, 16) && IsExtension(extension) && |size| + |extension| + 2 <= LINE_MAX
  }

  function SizeLine(size: bytes, extension: bytes): bytes
  {
    size + extension + CRLF
  }

  predicate ChunkOk(c: Chunk)
  {
    SizeLineOk(c.size, c.extension) && c.data != [] && NumeralValue(c.size, 16) == |c.data|
  }

  /** A field line holds at least one byte and no line feed. */
  predicate TrailerOk(t: bytes) { t != [] && NoLineFeed(t) }

  datatype Message = Message(chunks: seq<Chunk>, zeros: bytes, extension: bytes, trailers: seq<bytes>)

  predicate Encodable(m: Message)
  {
    && (forall c :: c in m.chunks ==> ChunkOk(c))
    && SizeLineOk(m.zeros, m.extension) && NumeralValue(m.zeros, 16) == 0
    && (forall t :: t in m.trailers ==> TrailerOk(t))
    && |Contents(m.chunks)| <= BODY_MAX
    && |EncodeTrailers(m.trailers)| <= TRAILER_MAX
  }

  function Contents(cs: seq<Chunk>): bytes
  {
    if cs == [] then [] else cs[0].data + Contents(cs[1..])
  }

  function EncodeTrailers(ts: seq<bytes>): bytes
  {
    if ts == [] then CRLF else ts[0] + CRLF + EncodeTrailers(ts[1..])
  }

  function EncodeChunk(c: Chunk): bytes
  {
    SizeLine(c.size, c.extension) + c.data + CRLF
  }

  function EncodeFrom(cs: seq<Chunk>, last: bytes): bytes
  {
    if cs == [] then last else EncodeChunk(cs[0]) + EncodeFrom(cs[1..], last)
  }

  function Encode(m: Message): bytes
  {
    EncodeFrom(m.chunks, Ending(m))
  }

  // ---- the pieces of a line

  /** `t` lies in `s` at position `i`. */
  predicate At(s: bytes, i: nat, t: bytes)
  {
    i + |t| <= |s| && s[i..i + |t|] == t
  }

  lemma AtSplits(s: bytes, i: nat, a: bytes, b: bytes)
    requires At(s, i, a + b)
    ensures At(s, i, a) && At(s, i + |a|, b)
  {
    var t := s[i..i + |a + b|];
    assert t[..|a|] == a && t[|a|..] == b;
    assert s[i..i + |a|] == t[..|a|];
    assert s[i + |a|..i + |a| + |b|] == t[|a|..];
  }

  lemma {:induction false} LineEndAt(s: bytes, i: nat, line: bytes)
    requires NoLineFeed(line) && At(s, i, line) && At(s, i + |line|, CRLF)
    ensures LineEnd(s, i) == i + |line| + 2
    decreases |line|
  {
    if line == [] {
      assert s[i] == s[i..i + 2][0] && s[i + 1] == s[i..i + 2][1];
      assert LineEnd(s, i + 1) == i + 2;
    } else {
      assert s[i] == s[i..i + |line|][0];
      assert s[i + 1..i + 1 + |line[1..]|] == s[i..i + |line|][1..];
      LineEndAt(s, i + 1, line[1..]);
    }
  }

  lemma {:induction false} BeforeSemicolonOf(hex: bytes, rest: bytes)
    requires forall i :: 0 <= i < |hex| ==> hex[i] != SEMICOLON
    ensures BeforeSemicolon(hex + rest) == hex + BeforeSemicolon(rest)
    decreases |hex|
  {
    if hex == [] {
      assert hex + rest == rest;
    } else {
      assert (hex + rest)[1..] == hex[1..] + rest;
      BeforeSemicolonOf(hex[1..], rest);
      assert hex == [hex[0]] + hex[1..];
    }
  }

  predicate AllSpace(s: bytes, text: bool) { forall i :: 0 <= i < |s| ==> IsSpace(s[i], text) }

  lemma {:induction false} ExtensionBlanks(e: bytes)
    requires IsExtension(e)
    ensures AllSpace(BeforeSemicolon(e + CRLF), false)
    decreases |e|
  {
    var s := e + CRLF;
    if e == [] {
      assert s == CRLF && CRLF[1..] == [LF] && [LF][1..] == [];
      assert BeforeSemicolon([LF]) == [LF];
      assert BeforeSemicolon(CRLF) == [CR, LF];
    } else if e[0] != SEMICOLON {
      assert s[1..] == e[1..] + CRLF;
      ExtensionBlanks(e[1..]);
    }
  }

  lemma {:induction false} StripTrailing(core: bytes, blanks: bytes, text: bool)
    requires AllSpace(blanks, text)
    requires core != [] && !IsSpace(core[|core| - 1], text)
    ensures StripRight(core + blanks, text) == core
    decreases |blanks|
  {
    if blanks == [] {
      assert core + blanks == core;
    } else {
      assert (core + blanks)[..|core + blanks| - 1] == core + blanks[..|blanks| - 1];
      StripTrailing(core, blanks[..|blanks| - 1], text);
    }
  }

  lemma {:induction false} StripBoth(left: bytes, core: bytes, right: bytes, text: bool)
    requires AllSpace(left, text) && AllSpace(right, text)
    requires core != [] && !IsSpace(core[0], text) && !IsSpace(core[|core| - 1], text)
    ensures Strip(left + (core + right), text) == core
    decreases |left|
  {
    if left == [] {
      assert left + (core + right) == core + right && (core + right)[0] == core[0];
      StripTrailing(core, right, text);
    } else {
      assert (left + (core + right))[1..] == left[1..] + (core + right);
      StripBoth(left[1..], core, right, text);
    }
  }

  lemma {:induction false} DigitsOfNumeral(s: bytes, radix: nat)
    requires IsNumeral(s, radix) && radix <= 16
    ensures Digits(s, radix) == Some(NumeralValue(s, radix))
    decreases |s|
  {
    var front := s[..|s| - 1];
    if front == [] {
      assert NumeralValue(front, radix) == 0;
    } else {
      assert IsDigit(front[|front| - 1], radix);
      DigitsOfNumeral(front, radix);
    }
  }

  lemma {:induction false} DigitCountOf(s: bytes)
    requires forall i :: 0 <= i < |s| ==> IsDigit(s[i], 10)
    ensures DigitCount(s) == |s|
  {
    if s != [] { DigitCountOf(s[1..]); }
  }

  lemma DecimalReadsBack(left: bytes, digits: bytes, right: bytes)
    requires AllSpace(left, true) && AllSpace(right, true) && IsNumeral(digits, 10) && |digits| <= DIGITS_MAX
    ensures IntText(Strip(left + (digits + right), true), 10) == Some(NumeralValue(digits, 10))
  {
    assert IsDigit(digits[0], 10) && IsDigit(digits[|digits| - 1], 10);
    StripBoth(left, digits, right, true);
    DigitCountOf(digits);
    DigitsOfNumeral(digits, 10);
  }

  /** A size line reads back as its number. */
  lemma SizeReadsBack(size: bytes, extension: bytes)
    requires SizeLineOk(size, extension)
    ensures ChunkSize(SizeLine(size, extension)) == Some(NumeralValue(size, 16))
  {
    var tail := BeforeSemicolon(extension + CRLF);
    assert SizeLine(size, extension) == size + (extension + CRLF);
    assert forall i :: 0 <= i < |size| ==> IsDigit(size[i], 16);
    BeforeSemicolonOf(size, extension + CRLF);
    ExtensionBlanks(extension);
    assert (size + tail)[0] == size[0];
    assert IsDigit(size[|size| - 1], 16);
    StripTrailing(size, tail, false);
    assert Strip(size + tail, false) == size;
    assert IsDigit(size[0], 16);
    if |size| >= 2 { assert IsDigit(size[1], 16); }
    DigitsOfNumeral(size, 16);
  }

  lemma SizeLineEnds(s: bytes, i: nat, size: bytes, extension: bytes)
    requires SizeLineOk(size, extension) && At(s, i, SizeLine(size, extension))
    ensures var n := i + |SizeLine(size, extension)|;
      LineEnd(s, i) == n && s[i..n] == SizeLine(size, extension) && i < n <= i + LINE_MAX
  {
    var line := size + extension;
    forall k | 0 <= k < |line| ensures line[k] != LF {
      if k < |size| { assert IsDigit(size[k], 16); } else { assert line[k] == extension[k - |size|]; }
    }
    AtSplits(s, i, line, CRLF);
    LineEndAt(s, i, line);
  }

  lemma TrailerLine(s: bytes, i: nat, t: bytes, count: nat)
    requires TrailerOk(t) && At(s, i, t) && At(s, i + |t|, CRLF) && count + |t| + 2 <= TRAILER_MAX
    ensures Trailers(s, i, count) == Trailers(s, i + |t| + 2, count + |t| + 2)
  {
    LineEndAt(s, i, t);
    assert |s[i..i + |t| + 2]| != |CRLF|;
  }

  lemma {:induction false} TrailersReadBack(s: bytes, i: nat, ts: seq<bytes>, count: nat)
    requires forall t :: t in ts ==> TrailerOk(t)
    requires At(s, i, EncodeTrailers(ts)) && count + |EncodeTrailers(ts)| <= TRAILER_MAX
    ensures Trailers(s, i, count) == Some(i + |EncodeTrailers(ts)|)
    decreases |ts|
  {
    if ts == [] {
      LineEndAt(s, i, []);
    } else {
      var t, more := ts[0], EncodeTrailers(ts[1..]);
      assert TrailerOk(t);
      AtSplits(s, i, t + CRLF, more);
      AtSplits(s, i, t, CRLF);
      TrailerLine(s, i, t, count);
      TrailersReadBack(s, i + |t| + 2, ts[1..], count + |t| + 2);
    }
  }

  lemma PieceHead(s: bytes, i: nat, n: nat, size: nat, total: nat)
    requires LineEnd(s, i) == n && i < n <= |s| && n <= i + LINE_MAX
    requires ChunkSize(s[i..n]) == Some(size) && 0 < size && total + size <= BODY_MAX
    ensures ReadHead(s, i, total) == Piece(n - i, size)
  {
  }

  lemma HeadReadsBack(s: bytes, i: nat, c: Chunk, total: nat)
    requires ChunkOk(c) && total + |c.data| <= BODY_MAX && At(s, i, SizeLine(c.size, c.extension))
    ensures ReadHead(s, i, total) == Piece(|SizeLine(c.size, c.extension)|, |c.data|)
  {
    SizeLineEnds(s, i, c.size, c.extension);
    SizeReadsBack(c.size, c.extension);
    PieceHead(s, i, i + |SizeLine(c.size, c.extension)|, |c.data|, total);
  }

  /** One encoded chunk at the front of what is left. */
  lemma ChunkReadsBack(head: HeadReader, s: bytes, i: nat, c: Chunk, total: nat)
    requires IsReadHead(head) && ChunkOk(c) && total + |c.data| <= BODY_MAX && At(s, i, EncodeChunk(c))
    ensures Chunks(head, s, i, total) == After(c.data, Chunks(head, s, i + |EncodeChunk(c)|, total + |c.data|))
  {
    var line := SizeLine(c.size, c.extension);
    AtSplits(s, i, line + c.data, CRLF);
    AtSplits(s, i, line, c.data);
    HeadReadsBack(s, i, c, total);
    assert head(s, i, total) == Piece(|line|, |c.data|);
  }

  lemma {:induction false} EncodingDecodes(
    head: HeadReader, s: bytes, i: nat, cs: seq<Chunk>, last: bytes, total: nat, end: nat)
    requires IsReadHead(head) && forall c :: c in cs ==> ChunkOk(c)
    requires At(s, i, EncodeFrom(cs, last)) && total + |Contents(cs)| <= BODY_MAX
    requires end + |last| == i + |EncodeFrom(cs, last)|
    requires head(s, end, total + |Contents(cs)|) == Stop(Body([], end + |last|))
    ensures Chunks(head, s, i, total) == Body(Contents(cs), end + |last|)
    decreases |cs|
  {
    if cs != [] {
      var c := cs[0];
      AtSplits(s, i, EncodeChunk(c), EncodeFrom(cs[1..], last));
      ChunkReadsBack(head, s, i, c, total);
      EncodingDecodes(head, s, i + |EncodeChunk(c)|, cs[1..], last, total + |c.data|, end);
    }
  }

  function Ending(m: Message): bytes
  {
    SizeLine(m.zeros, m.extension) + EncodeTrailers(m.trailers)
  }

  lemma LastHead(head: HeadReader, s: bytes, i: nat, n: nat, end: nat, total: nat)
    requires IsReadHead(head)
    requires LineEnd(s, i) == n && i < n <= |s| && n <= i + LINE_MAX && total <= BODY_MAX
    requires ChunkSize(s[i..n]) == Some(0) && Trailers(s, n, 0) == Some(end)
    ensures head(s, i, total) == Stop(Body([], end))
  {
    assert ReadHead(s, i, total) == Stop(Body([], end));
  }

  lemma LastLineAt(s: bytes, i: nat, m: Message)
    requires Encodable(m) && At(s, i, SizeLine(m.zeros, m.extension))
    ensures var n := i + |SizeLine(m.zeros, m.extension)|;
      LineEnd(s, i) == n && i < n <= |s| && n <= i + LINE_MAX && ChunkSize(s[i..n]) == Some(0)
  {
    SizeLineEnds(s, i, m.zeros, m.extension);
    SizeReadsBack(m.zeros, m.extension);
  }

  lemma EndingParts(s: bytes, i: nat, m: Message)
    requires At(s, i, Ending(m))
    ensures At(s, i, SizeLine(m.zeros, m.extension))
    ensures At(s, i + |SizeLine(m.zeros, m.extension)|, EncodeTrailers(m.trailers))
    ensures |Ending(m)| == |SizeLine(m.zeros, m.extension)| + |EncodeTrailers(m.trailers)|
  {
    AtSplits(s, i, SizeLine(m.zeros, m.extension), EncodeTrailers(m.trailers));
  }

  lemma EndingReadsBack(head: HeadReader, s: bytes, i: nat, m: Message, total: nat)
    requires IsReadHead(head) && Encodable(m) && total <= BODY_MAX && At(s, i, Ending(m))
    ensures head(s, i, total) == Stop(Body([], i + |Ending(m)|))
  {
    var n := i + |SizeLine(m.zeros, m.extension)|;
    EndingParts(s, i, m);
    LastLineAt(s, i, m);
    TrailersReadBack(s, n, m.trailers, 0);
    LastHead(head, s, i, n, i + |Ending(m)|, total);
  }

  lemma {:induction false} EndsWithLast(s: bytes, i: nat, cs: seq<Chunk>, last: bytes)
    requires At(s, i, EncodeFrom(cs, last))
    ensures |EncodeFrom(cs, last)| >= |last| && At(s, i + |EncodeFrom(cs, last)| - |last|, last)
    decreases |cs|
  {
    if cs != [] {
      AtSplits(s, i, EncodeChunk(cs[0]), EncodeFrom(cs[1..], last));
      EndsWithLast(s, i + |EncodeChunk(cs[0])|, cs[1..], last);
    }
  }

  lemma EncodedMessageDecodes(head: HeadReader, s: bytes, i: nat, m: Message)
    requires IsReadHead(head) && Encodable(m) && At(s, i, Encode(m))
    ensures Chunks(head, s, i, 0) == Body(Contents(m.chunks), i + |Encode(m)|)
  {
    EndsWithLast(s, i, m.chunks, Ending(m));
    var end := i + |Encode(m)| - |Ending(m)|;
    EndingReadsBack(head, s, end, m, |Contents(m.chunks)|);
    EncodingDecodes(head, s, i, m.chunks, Ending(m), 0, end);
  }

  /** Wherever a chunked encoding within the limits lies in a stream, it decodes to its
      contents, and exactly the encoding, through the blank line after the trailers, is
      consumed, whatever follows. */
  lemma ChunkedRoundTrip(m: Message, h: Headers, s: bytes, i: nat, arrived: nat)
    requires Encodable(m) && At(s, i, Encode(m))
    requires h.contentLength.None? && IsChunked(h) && arrived > 0
    ensures Decode(h, true, s, i, arrived) == Body(Contents(m.chunks), i + |Encode(m)|)
  {
    EncodedMessageDecodes(ReadHead, s, i, m);
  }

  lemma LengthFrames(h: Headers, n: nat, s: bytes, i: nat, arrived: nat)
    requires h.contentLength.Some? && IntText(Strip(h.contentLength.value, true), 10) == Some(n)
    requires i <= |s| && arrived > 0
    ensures Decode(h, true, s, i, arrived) ==
      if n > BODY_MAX then Bad(TooLarge) else if i + n > |s| then Bad(Truncated) else Body(s[i..i + n], i + n)
  {
  }

  /** A decimal length, with any blanks around it, takes precedence over chunking and
      yields exactly that many bytes, or fails because they are too many or too few. */
  lemma LengthIsHonoured(
    h: Headers, left: bytes, digits: bytes, right: bytes, s: bytes, i: nat, arrived: nat)
    requires AllSpace(left, true) && AllSpace(right, true) && IsNumeral(digits, 10) && |digits| <= DIGITS_MAX
    requires h.contentLength == Some(left + (digits + right)) && i <= |s| && arrived > 0
    ensures var n := NumeralValue(digits, 10);
      Decode(h, true, s, i, arrived) ==
        if n > BODY_MAX then Bad(TooLarge)
        else if i + n > |s| then Bad(Truncated)
        else Body(s[i..i + n], i + n)
  {
    DecimalReadsBack(left, digits, right);
    LengthFrames(h, NumeralValue(digits, 10), s, i, arrived);
  }

  /** Without either field the body comes from a single read, so only a rest of at most
      one byte is sure to be whole however the stream is cut. */
  lemma UntilCloseIsSureUpToOneByte(h: Headers, s: bytes, i: nat)
    requires h.contentLength.None? && !IsChunked(h) && i <= |s|
    ensures (forall arrived: nat :: arrived > 0 ==> Decode(h, true, s, i, arrived) == Body(s[i..], |s|))
       <==> |s| - i <= 1
  {
    if |s| - i > 1 {
      assert Decode(h, true, s, i, 1) == Body(s[i..i + 1], i + 1);
      assert Decode(h, true, s, i, 1) != Body(s[i..], |s|);
    }
  }

  /** A body of two segments is cut after the first, which is then taken for all of it. */
  lemma SecondSegmentIsLost(h: Headers, first: bytes, second: bytes)
    requires h.contentLength.None? && !IsChunked(h)
    requires first != [] && second != [] && |first| <= BODY_MAX
    ensures Decode(h, true, first + second, 0, |first|) == Body(first, |first|)
    ensures Body(first, |first|) != Body(first + second, |first + second|)
  {
    assert (first + second)[0..|first|] == first;
  }

  lemma AfterAssociates(a: bytes, b: bytes, d: Decoded)
    ensures After(a, After(b, d)) == After(a + b, d)
  {
    if d.Body? { assert a + (b + d.data) == a + b + d.data; }
  }
}
