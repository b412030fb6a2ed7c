/**
  The hand-written reader of podman's HTTP responses: a status line, headers, and
  a body that may be chunked (section 7.1 of RFC 9112).

  A byte is a `char` below 256.
*/
module Http {
  import opened Wrappers
  import opened Text

  datatype HttpError =
    | NoHeaderEnd
    | NoStatusLine
    | BadStatusLine
    | TruncatedChunkHeader
    | BadChunkSize
    | TruncatedChunk

  const CRLF := "\r\n"
  const BLANK := "\r\n\r\n"

  /** Where `mark` first occurs. */
  function Find(s: string, mark: string): (at: Option<nat>)
    ensures at.Some? ==> at.value + |mark| <= |s|
  {
    if StartsWith(s, mark) then Some(0)
    else if s == "" then None
    else match Find(s[1..], mark)
      case None => None
      case Some(at) => Some(at + 1)
  }

  lemma {:induction false} FoundOrLonger(s: string, t: string, mark: string)
    requires Find(s, mark).Some?
    ensures Find(s + t, mark) == Find(s, mark)
  {
    assert (s + t)[..|s|] == s;
    if StartsWith(s, mark) {
      assert (s + t)[..|mark|] == s[..|mark|];
    } else {
      assert (s + t)[1..] == s[1..] + t;
      FoundOrLonger(s[1..], t, mark);
      assert |mark| <= |s| && (s + t)[..|mark|] == s[..|mark|];
    }
  }

  /** A mark is missed only while its last character is. */
  lemma {:induction false} FoundInPrefix(s: string, mark: string, k: nat)
    requires Find(s, mark).Some? && mark != "" && k <= |s|
    ensures Find(s[..k], mark) == if k < Find(s, mark).value + |mark| then None else Find(s, mark)
  {
    if StartsWith(s, mark) {
      assert k >= |mark| ==> s[..k][..|mark|] == s[..|mark|];
      if k < |mark| {
        TooShort(s[..k], mark);
      }
    } else if k > 0 {
      assert s[..k][1..] == s[1..][..k - 1];
      assert |mark| <= k ==> s[..k][..|mark|] == s[..|mark|];
      FoundInPrefix(s[1..], mark, k - 1);
    }
  }

  lemma {:induction false} TooShort(s: string, mark: string)
    requires |s| < |mark|
    ensures Find(s, mark) == None
  {
    if s != "" {
      TooShort(s[1..], mark);
    }
  }

  /**
    Reading as text, byte by byte: ASCII stands for itself, and any other byte for
    the replacement character.
  */
  function Lossy(s: string): (r: string)
    ensures |r| == |s|
    ensures forall i :: 0 <= i < |s| ==> r[i] == if s[i] < 0x80 as char then s[i] else 0xFFFD as char
  {
    seq(|s|, i requires 0 <= i < |s| => if s[i] < 0x80 as char then s[i] else 0xFFFD as char)
  }

  predicate Ascii(s: string) {
    forall i :: 0 <= i < |s| ==> s[i] < 0x80 as char
  }

  // ---- chunked bodies ----------------------------------------------

  predicate IsHex(c: char) {
    IsDigit(c) || 'a' <= c <= 'f' || 'A' <= c <= 'F'
  }

  function HexDigit(c: char): nat
    requires IsHex(c)
  {
    if IsDigit(c) then c as int - '0' as int
    else if IsLower(c) then c as int - 'a' as int + 10
    else c as int - 'A' as int + 10
  }

  predicate AllHex(s: string) {
    forall i :: 0 <= i < |s| ==> IsHex(s[i])
  }

  function HexValue(s: string): nat
    requires AllHex(s)
  {
    if s == "" then 0 else HexValue(s[..|s| - 1]) * 16 + HexDigit(s[|s| - 1])
  }

  /** `usize::from_str_radix(_, 16)` on a 64-bit host: one optional `+`, then hex digits. */
  function ParseHex(s: string): Option<nat> {
    var body := if s != "" && s[0] == '+' then s[1..] else s;
    if body == "" || !AllHex(body) || HexValue(body) > U64_MAX then None else Some(HexValue(body))
  }

  function UpTo(s: string, c: char): string {
    if s == "" || s[0] == c then "" else [s[0]] + UpTo(s[1..], c)
  }

  /** The size a chunk header announces, whatever extensions follow it (section 7.1.1 of RFC 9112). */
  function SizeOf(line: string): Option<nat> {
    ParseHex(Trim(UpTo(Lossy(line), ';')))
  }

  function Drop(s: string, n: nat): (r: string)
    ensures |r| <= |s|
  {
    if n <= |s| then s[n..] else ""
  }

  /** What a chunked body decodes to. */
  function Decode(input: string): Result<string, HttpError>
    decreases |input|
  {
    match ReadHeader(input)
    case Err(e) => Err(e)
    case Ok((size, rest)) =>
      if size == 0 then Ok("")
      else if |rest| < size then Err(TruncatedChunk)
      else Prepend(rest[..size], Decode(Drop(rest, size + 2)))
  }

  /** The size a chunk header announces, and what follows its line. */
  function ReadHeader(input: string): (r: Result<(nat, string), HttpError>)
    ensures r.Ok? ==> |r.value.1| + 2 <= |input|
  {
    match Find(input, CRLF)
    case None => Err(TruncatedChunkHeader)
    case Some(end) =>
      match SizeOf(input[..end])
      case None => Err(BadChunkSize)
      case Some(size) => Ok((size, input[end + 2..]))
  }

  function Prepend(data: string, r: Result<string, HttpError>): Result<string, HttpError> {
    if r.Ok? then Ok(data + r.value) else r
  }

  lemma PrependTwice(a: string, b: string, r: Result<string, HttpError>)
    ensures Prepend(a, Prepend(b, r)) == Prepend(a + b, r)
    ensures Prepend("", r) == r
  {
    if r.Ok? {
      assert a + (b + r.value) == (a + b) + r.value;
      assert "" + r.value == r.value;
    }
  }

  /** The loop over a shrinking input. */
  method DecodeChunked(body: string) returns (r: Result<string, HttpError>)
    ensures r == Decode(body)
  {
    hide Find, SizeOf;
    var input, out := body, "";
    PrependTwice("", "", Decode(body));
    while true
      invariant Decode(body) == Prepend(out, Decode(input))
      decreases |input|
    {
      var end := Find(input, CRLF);
      if end.None? {
        return Err(TruncatedChunkHeader);
      }
      var size := SizeOf(input[..end.value]);
      if size.None? {
        return Err(BadChunkSize);
      }
      var rest := input[end.value + 2..];
      if size.value == 0 {
        assert out + "" == out;
        return Ok(out);
      }
      if |rest| < size.value {
        return Err(TruncatedChunk);
      }
      PrependTwice(out, rest[..size.value], Decode(Drop(rest, size.value + 2)));
      out := out + rest[..size.value];
      input := Drop(rest, size.value + 2);
    }
  }

  lemma NothingIsTruncated()
    ensures Decode("") == Err(TruncatedChunkHeader)
  {
  }

  /** How much of an input its chunks take, up to the end of the last-chunk line. */
  function Used(input: string): (n: nat)
    requires Decode(input).Ok?
    ensures n <= |input|
    decreases |input|
  {
    hide ReadHeader;
    var (size, rest) := ReadHeader(input).value;
    if size == 0 then |input| - |rest|
    else
      NothingIsTruncated();
      |input| - |rest| + size + 2 + Used(Drop(rest, size + 2))
  }

  lemma HeaderOfPrefix(input: string, k: nat)
    requires ReadHeader(input).Ok? && k <= |input|
    ensures var (size, rest) := ReadHeader(input).value;
            var start := |input| - |rest|;
            ReadHeader(input[..k])
              == if k < start then Err(TruncatedChunkHeader) else Ok((size, rest[..k - start]))
  {
    hide SizeOf, Find;
    FoundInPrefix(input, CRLF, k);
    var end := Find(input, CRLF).value;
    if k >= end + 2 {
      assert input[..k][..end] == input[..end];
      assert input[..k][end + 2..] == input[end + 2..][..k - end - 2];
    }
  }

  /**
    A truncated body is an error wherever the cut falls, and a body that is whole
    decodes to the same data whatever follows it. This is for every input that
    decodes at all, in whatever spelling.
  */
  lemma {:induction false} NoShorterBody(input: string, k: nat)
    requires Decode(input).Ok? && k <= |input|
    ensures if k < Used(input) then Decode(input[..k]).Err? else Decode(input[..k]) == Decode(input)
    decreases |input|
  {
    hide ReadHeader;
    HeaderOfPrefix(input, k);
    var (size, rest) := ReadHeader(input).value;
    var start := |input| - |rest|;
    if size != 0 && k >= start + size {
      NothingIsTruncated();
      var after, cut := Drop(rest, size + 2), rest[..k - start];
      assert cut[..size] == rest[..size];
      if k >= start + size + 2 {
        assert Drop(cut, size + 2) == after[..k - start - size - 2];
        NoShorterBody(after, k - start - size - 2);
      }
    }
  }

  // ---- a reference encoder -----------------------------------------

  /** One way of writing a chunk header: `digits` in any case, with zeros, padding, a sign, an extension. */
  datatype SizeLine = SizeLine(left: string, sign: string, digits: string, right: string, extension: string) {
    function Text(): string {
      left + sign + digits + right + extension
    }

    predicate Announces(size: nat) {
      && Blank(left) && Blank(right)
      && (sign == "" || sign == "+")
      && digits != "" && AllHex(digits) && HexValue(digits) == size <= U64_MAX
      && (extension == "" || extension[0] == ';')
      && Find(Text(), CRLF).None?
    }
  }

  predicate Blank(s: string) {
    forall i :: 0 <= i < |s| ==> s[i] == ' ' || s[i] == '\t'
  }

  datatype Chunk = Chunk(line: SizeLine, data: string)

  function Write(c: Chunk): string {
    c.line.Text() + CRLF + c.data + CRLF
  }

  function Encode(chunks: seq<Chunk>, last: SizeLine): string {
    if chunks == [] then last.Text() + CRLF else Write(chunks[0]) + Encode(chunks[1..], last)
  }

  function Data(chunks: seq<Chunk>): string {
    if chunks == [] then "" else chunks[0].data + Data(chunks[1..])
  }

  predicate WellFormed(chunks: seq<Chunk>, last: SizeLine) {
    && (forall i :: 0 <= i < |chunks| ==> chunks[i].data != "" && chunks[i].line.Announces(|chunks[i].data|))
    && last.Announces(0)
  }

  lemma {:induction false} UpToStops(s: string, c: char, rest: string)
    requires c !in s && (rest == "" || rest[0] == c)
    ensures UpTo(s + rest, c) == s
  {
    if s != "" {
      assert (s + rest)[1..] == s[1..] + rest;
      UpToStops(s[1..], c, rest);
    }
  }

  lemma {:induction false} TrimStartSkips(left: string, core: string)
    requires Blank(left) && core != "" && !IsWhitespace(core[0])
    ensures TrimStart(left + core) == core
  {
    if left != "" {
      assert (left + core)[1..] == left[1..] + core;
      TrimStartSkips(left[1..], core);
    } else {
      assert left + core == core;
    }
  }

  lemma {:induction false} TrimEndSkips(core: string, right: string)
    requires Blank(right) && core != "" && !IsWhitespace(core[|core| - 1])
    ensures TrimEnd(core + right) == core
  {
    if right != "" {
      assert (core + right)[..|core + right| - 1] == core + right[..|right| - 1];
      TrimEndSkips(core, right[..|right| - 1]);
    } else {
      assert core + right == core;
    }
  }

  /** Every spelling of a size is read as that size. */
  lemma SizeIsRead(line: SizeLine, size: nat)
    requires line.Announces(size)
    ensures SizeOf(line.Text()) == Some(size)
  {
    hide ParseHex, IsHex, HexValue, Find, Lossy, UpTo, TrimStart, TrimEnd;
    var core := line.sign + line.digits;
    CoreIsPlain(line.sign, line.digits);
    CoreIsParsed(line.sign, line.digits);
    ExtensionIsCut(line.left, core, line.right, line.extension);
    TrimStartSkips(line.left, core + line.right);
    TrimEndSkips(core, line.right);
    assert line.Text() == line.left + core + line.right + line.extension;
    assert line.left + core + line.right == line.left + (core + line.right);
  }

  lemma ExtensionIsCut(left: string, core: string, right: string, extension: string)
    requires Blank(left) && Blank(right) && Ascii(core) && ';' !in core
    requires extension == "" || extension[0] == ';'
    ensures UpTo(Lossy(left + core + right + extension), ';') == left + core + right
  {
    hide UpTo;
    var line := left + core + right;
    assert ';' !in line;
    assert Lossy(line) == line;
    assert Lossy(line + extension) == line + Lossy(extension);
    UpToStops(line, ';', Lossy(extension));
  }

  lemma CoreIsPlain(sign: string, digits: string)
    requires (sign == "" || sign == "+") && digits != "" && AllHex(digits)
    ensures var core := sign + digits;
            core != "" && !IsWhitespace(core[0]) && !IsWhitespace(core[|core| - 1]) && Ascii(core) && ';' !in core
  {
    hide HexValue;
    var core := sign + digits;
    if sign == "" {
      assert core == digits;
    } else {
      assert core == ['+'] + digits;
    }
    assert forall i :: 0 <= i < |core| ==> core[i] == '+' || IsHex(core[i]);
  }

  lemma CoreIsParsed(sign: string, digits: string)
    requires (sign == "" || sign == "+") && digits != "" && AllHex(digits) && HexValue(digits) <= U64_MAX
    ensures ParseHex(sign + digits) == Some(HexValue(digits))
  {
    hide HexValue;
    var core := sign + digits;
    if sign == "" {
      assert core == digits && IsHex(core[0]);
    } else {
      assert core[0] == '+' && core[1..] == digits;
    }
  }

  /** A line ends at the first CRLF, when it holds none itself. */
  lemma {:induction false} LineEnds(line: string, rest: string)
    requires Find(line, CRLF).None?
    ensures Find(line + CRLF + rest, CRLF) == Some(|line|)
  {
    var s := line + CRLF + rest;
    if line == "" {
      assert s == CRLF + rest;
      assert s[..2] == CRLF;
    } else {
      assert s[1..] == line[1..] + CRLF + rest;
      LineEnds(line[1..], rest);
      assert s[1] == if |line| > 1 then line[1] else '\r';
      assert |line| > 1 ==> s[..2] == line[..2];
    }
  }

  lemma HeaderIsRead(line: SizeLine, size: nat, rest: string)
    requires line.Announces(size)
    ensures ReadHeader(line.Text() + CRLF + rest) == Ok((size, rest))
  {
    hide SizeOf, Find, SizeLine.Text;
    var input := line.Text() + CRLF + rest;
    LineEnds(line.Text(), rest);
    SizeIsRead(line, size);
    assert input[..|line.Text()|] == line.Text() && input[|line.Text()| + 2..] == rest;
  }

  lemma WrittenChunk(c: Chunk, more: string)
    requires c.line.Announces(|c.data|) && c.data != ""
    ensures Decode(Write(c) + more) == Prepend(c.data, Decode(more))
    ensures Decode(more).Ok? ==> Used(Write(c) + more) == |Write(c)| + Used(more)
  {
    hide ReadHeader, SizeLine.Text;
    var rest := c.data + CRLF + more;
    assert Write(c) + more == c.line.Text() + CRLF + rest;
    HeaderIsRead(c.line, |c.data|, rest);
    assert rest[..|c.data|] == c.data && Drop(rest, |c.data| + 2) == more;
  }

  lemma WrittenEnd(last: SizeLine, trailer: string)
    requires last.Announces(0)
    ensures Decode(last.Text() + CRLF + trailer) == Ok("")
    ensures Used(last.Text() + CRLF + trailer) == |last.Text()| + 2
  {
    hide ReadHeader, SizeLine.Text;
    HeaderIsRead(last, 0, trailer);
  }

  /** Decoding inverts encoding, for any split into non-empty chunks, any spelling and any trailer. */
  lemma {:induction false} EncodeThenDecode(chunks: seq<Chunk>, last: SizeLine, trailer: string)
    requires WellFormed(chunks, last)
    ensures var input := Encode(chunks, last) + trailer;
            Decode(input) == Ok(Data(chunks)) && Used(input) == |Encode(chunks, last)|
  {
    hide Decode, Used, Write, SizeLine.Text;
    if chunks == [] {
      WrittenEnd(last, trailer);
    } else {
      var more := Encode(chunks[1..], last) + trailer;
      assert Encode(chunks, last) + trailer == Write(chunks[0]) + more;
      EncodeThenDecode(chunks[1..], last, trailer);
      WrittenChunk(chunks[0], more);
    }
  }

  /** No strict prefix of an encoded body decodes: not cut in a size line, in data, or in the CRLF behind it. */
  lemma EveryTruncationIsAnError(chunks: seq<Chunk>, last: SizeLine, k: nat)
    requires WellFormed(chunks, last) && k < |Encode(chunks, last)|
    ensures Decode(Encode(chunks, last)[..k]).Err?
  {
    hide Decode, Used, Encode;
    var body := Encode(chunks, last);
    assert body + "" == body;
    EncodeThenDecode(chunks, last, "");
    NoShorterBody(body, k);
  }

  // ---- whole responses ---------------------------------------------

  function IndexOf(s: string, c: char): (i: nat)
    ensures i <= |s|
  {
    if s == "" || s[0] == c then 0 else 1 + IndexOf(s[1..], c)
  }

  function StripCr(s: string): string {
    if s != "" && s[|s| - 1] == '\r' then s[..|s| - 1] else s
  }

  /** `str::lines`: a line ends in `\n` or `\r\n`, and the last one may lack its end. */
  function Lines(s: string): seq<string>
    decreases |s|
  {
    if s == "" then []
    else
      var i := IndexOf(s, '\n');
      if i == |s| then [s] else [StripCr(s[..i])] + Lines(s[i + 1..])
  }

  function Word(s: string): string {
    if s == "" || IsWhitespace(s[0]) then "" else [s[0]] + Word(s[1..])
  }

  function AfterWord(s: string): string {
    if s == "" || IsWhitespace(s[0]) then s else AfterWord(s[1..])
  }

  /** The second word of a status line, as a 16-bit number. */
  function StatusOf(line: string): Option<nat> {
    ParseUnsigned(Word(TrimStart(AfterWord(TrimStart(line)))), 0xFFFF)
  }

  predicate AnnouncesChunks(header: string) {
    var lower := ToAsciiLowercase(header);
    StartsWith(lower, "transfer-encoding:") && Find(lower, "chunked").Some?
  }

  predicate AnyAnnounces(lines: seq<string>) {
    exists i :: 0 <= i < |lines| && AnnouncesChunks(lines[i])
  }

  function ReadHead(head: string): Result<(nat, bool), HttpError> {
    var lines := Lines(Lossy(head));
    if lines == [] then Err(NoStatusLine)
    else match StatusOf(lines[0])
      case None => Err(BadStatusLine)
      case Some(status) => Ok((status, AnyAnnounces(lines[1..])))
  }

  /** Split a response into its status and its decoded body. */
  function ParseResponse(raw: string): Result<(nat, string), HttpError> {
    match Find(raw, BLANK)
    case None => Err(NoHeaderEnd)
    case Some(split) =>
      var body := raw[split + 4..];
      match ReadHead(raw[..split])
      case Err(e) => Err(e)
      case Ok((status, chunked)) =>
        if !chunked then Ok((status, body))
        else match Decode(body)
          case Err(e) => Err(e)
          case Ok(data) => Ok((status, data))
  }

  /**
    Podman closes the connection after a response, so a cut is not seen at the
    socket. A chunked response that was cut short is an error all the same.
  */
  lemma TruncatedResponseIsAnError(raw: string, split: nat, status: nat, k: nat)
    requires Find(raw, BLANK) == Some(split) && k <= |raw|
    requires ReadHead(raw[..split]) == Ok((status, true)) && Decode(raw[split + 4..]).Ok?
    ensures if k < split + 4 + Used(raw[split + 4..]) then ParseResponse(raw[..k]).Err?
            else ParseResponse(raw[..k]) == ParseResponse(raw)
  {
    hide Decode, Used, ReadHead, Find;
    FoundInPrefix(raw, BLANK, k);
    if k >= split + 4 {
      assert raw[..k][..split] == raw[..split];
      assert raw[..k][split + 4..] == raw[split + 4..][..k - split - 4];
      NoShorterBody(raw[split + 4..], k - split - 4);
    }
  }

  /** A response head as a server writes it. */
  datatype Head = Head(version: string, status: nat, reason: string, headers: seq<string>) {
    predicate Valid() {
      && version != "" && (forall i :: 0 <= i < |version| ==> !IsWhitespace(version[i]))
      && status <= 0xFFFF
      && (reason == "" || reason[0] == ' ')
      && PlainLine(version) && PlainLine(reason)
      && forall i :: 0 <= i < |headers| ==> headers[i] != "" && PlainLine(headers[i])
    }

    function StatusLine(): string {
      version + " " + Digits(status) + reason
    }

    function Text(): string {
      StatusLine() + Folded(headers)
    }
  }

  predicate PlainLine(s: string) {
    Ascii(s) && '\r' !in s && '\n' !in s
  }

  function Folded(headers: seq<string>): string {
    if headers == [] then "" else CRLF + headers[0] + Folded(headers[1..])
  }

  lemma {:induction false} SkipPlain(line: string, rest: string)
    requires PlainLine(line)
    ensures Find(line + rest, BLANK)
         == match Find(rest, BLANK) case None => None case Some(at) => Some(|line| + at)
  {
    if line == "" {
      assert line + rest == rest;
    } else {
      assert (line + rest)[0] == line[0] && (line + rest)[1..] == line[1..] + rest;
      SkipPlain(line[1..], rest);
    }
  }

  lemma PlainTogether(a: string, b: string)
    requires PlainLine(a) && PlainLine(b)
    ensures PlainLine(a + b)
  {
  }

  lemma StartsBlank(body: string)
    ensures Find(BLANK + body, BLANK) == Some(0)
  {
    assert (BLANK + body)[..4] == BLANK;
  }

  lemma NotBlankHere(c: char, s: string)
    requires c != '\r' || (|s| > 1 && s[1] != '\r')
    ensures !StartsWith([c] + s, BLANK)
  {
    assert BLANK[0] == '\r' && BLANK[2] == '\r';
    var t := [c] + s;
    if |t| >= 4 {
      assert t[..4][0] == c && t[..4][2] == s[1];
    }
  }

  lemma SkipOne(c: char, s: string)
    requires !StartsWith([c] + s, BLANK)
    ensures Find([c] + s, BLANK) == match Find(s, BLANK) case None => None case Some(at) => Some(at + 1)
  {
    hide StartsWith;
    assert ([c] + s)[1..] == s;
  }

  lemma SkipCrlf(s: string)
    requires s != "" && s[0] != '\r'
    ensures Find(CRLF + s, BLANK) == match Find(s, BLANK) case None => None case Some(at) => Some(at + 2)
  {
    hide Find, StartsWith;
    NotBlankHere('\n', s);
    SkipOne('\n', s);
    NotBlankHere('\r', ['\n'] + s);
    SkipOne('\r', ['\n'] + s);
    assert CRLF + s == ['\r'] + (['\n'] + s);
  }

  lemma Regroup(a: string, b: string, c: string, d: string, e: string)
    ensures (a + b + c) + d + e == a + (b + (c + d + e))
  {
  }

  /** The blank line that ends the head is the first one, whatever the body holds. */
  lemma {:induction false} HeadEnds(headers: seq<string>, body: string)
    requires forall i :: 0 <= i < |headers| ==> headers[i] != "" && PlainLine(headers[i])
    ensures Find(Folded(headers) + BLANK + body, BLANK) == Some(|Folded(headers)|)
  {
    hide Find, StartsWith;
    if headers == [] {
      assert Folded(headers) + BLANK + body == BLANK + body;
      StartsBlank(body);
    } else {
      var rest := Folded(headers[1..]) + BLANK + body;
      HeadEnds(headers[1..], body);
      SkipPlain(headers[0], rest);
      Regroup(CRLF, headers[0], Folded(headers[1..]), BLANK, body);
      assert (headers[0] + rest)[0] == headers[0][0];
      SkipCrlf(headers[0] + rest);
    }
  }

  lemma LinesStep(line: string, rest: string)
    requires PlainLine(line)
    ensures Lines(line + (CRLF + rest)) == [line] + Lines(rest)
  {
    hide IndexOf;
    var s := line + (CRLF + rest);
    assert s == (line + "\r") + ("\n" + rest);
    NoBreak(line + "\r", "\n" + rest);
    assert s[..|line| + 1] == line + "\r" && s[|line| + 2..] == rest;
    assert StripCr(line + "\r") == line;
  }

  lemma LastLine(line: string)
    requires line != "" && PlainLine(line)
    ensures Lines(line) == [line]
  {
    assert line + "" == line;
    NoBreak(line, "");
  }

  lemma {:induction false} LinesOf(line: string, headers: seq<string>)
    requires line != "" && PlainLine(line)
    requires forall i :: 0 <= i < |headers| ==> headers[i] != "" && PlainLine(headers[i])
    ensures Lines(line + Folded(headers)) == [line] + headers
    ensures Ascii(line + Folded(headers))
    decreases |headers|
  {
    hide Lines;
    if headers == [] {
      assert line + Folded(headers) == line;
      LastLine(line);
    } else {
      var rest := headers[0] + Folded(headers[1..]);
      LinesOf(headers[0], headers[1..]);
      assert Folded(headers) == CRLF + rest;
      LinesStep(line, rest);
    }
  }

  lemma {:induction false} NoBreak(line: string, rest: string)
    requires '\n' !in line && (rest == "" || rest[0] == '\n')
    ensures IndexOf(line + rest, '\n') == |line|
  {
    if line != "" {
      assert (line + rest)[1..] == line[1..] + rest;
      NoBreak(line[1..], rest);
    }
  }

  lemma {:induction false} WordEnds(word: string, rest: string)
    requires forall i :: 0 <= i < |word| ==> !IsWhitespace(word[i])
    requires rest == "" || IsWhitespace(rest[0])
    ensures Word(word + rest) == word && AfterWord(word + rest) == rest
  {
    if word != "" {
      assert (word + rest)[1..] == word[1..] + rest;
      WordEnds(word[1..], rest);
    } else {
      assert word + rest == rest;
    }
  }

  lemma StatusIsRead(h: Head)
    requires h.Valid()
    ensures StatusOf(h.StatusLine()) == Some(h.status)
  {
    hide Word, AfterWord;
    var digits := Digits(h.status);
    var line := h.version + (" " + (digits + h.reason));
    assert h.StatusLine() == line && line[0] == h.version[0];
    assert TrimStart(line) == line;
    WordEnds(h.version, " " + (digits + h.reason));
    assert (digits + h.reason)[0] == digits[0];
    TrimStartSkips(" ", digits + h.reason);
    WordEnds(digits, h.reason);
    ParseDigits(h.status, 0xFFFF);
  }

  lemma StatusLineIsPlain(h: Head)
    requires h.Valid()
    ensures PlainLine(h.StatusLine())
  {
    hide Digits;
    assert PlainLine(" ") && PlainLine(Digits(h.status));
    PlainTogether(h.version, " ");
    PlainTogether(h.version + " ", Digits(h.status));
    PlainTogether(h.version + " " + Digits(h.status), h.reason);
  }

  lemma HeadIsRead(h: Head, body: string)
    requires h.Valid()
    ensures Find(h.Text() + BLANK + body, BLANK) == Some(|h.Text()|)
    ensures ReadHead(h.Text()) == Ok((h.status, AnyAnnounces(h.headers)))
  {
    hide Find, StatusOf, Lines, AnnouncesChunks;
    var line := h.StatusLine();
    StatusLineIsPlain(h);
    HeadEnds(h.headers, body);
    SkipPlain(line, Folded(h.headers) + BLANK + body);
    assert h.Text() + BLANK + body == line + (Folded(h.headers) + BLANK + body);
    LinesOf(line, h.headers);
    assert Lossy(h.Text()) == h.Text();
    StatusIsRead(h);
    assert Lines(h.Text())[1..] == h.headers;
  }

  /** A response whose head announces no chunks comes back with its body exactly, blank lines and all. */
  lemma PlainResponseIsRecovered(h: Head, body: string)
    requires h.Valid() && !AnyAnnounces(h.headers)
    ensures ParseResponse(h.Text() + BLANK + body) == Ok((h.status, body))
  {
    hide Find, ReadHead, Head.Text, Head.Valid;
    HeadIsRead(h, body);
    var raw := h.Text() + BLANK + body;
    assert raw[..|h.Text()|] == h.Text() && raw[|h.Text()| + 4..] == body;
  }

  /** And one that does comes back with the data of its chunks, however it was split and spelled. */
  lemma ChunkedResponseIsRecovered(h: Head, chunks: seq<Chunk>, last: SizeLine, trailer: string)
    requires h.Valid() && AnyAnnounces(h.headers) && WellFormed(chunks, last)
    ensures ParseResponse(h.Text() + BLANK + (Encode(chunks, last) + trailer)) == Ok((h.status, Data(chunks)))
  {
    hide Find, ReadHead, Head.Text, Head.Valid, Decode, Encode;
    var body := Encode(chunks, last) + trailer;
    HeadIsRead(h, body);
    var raw := h.Text() + BLANK + body;
    assert raw[..|h.Text()|] == h.Text() && raw[|h.Text()| + 4..] == body;
    EncodeThenDecode(chunks, last, trailer);
  }
}
