/**
  The pooler's admin console, as bytes: the messages of the PostgreSQL protocol,
  version 3.0, that the agent acts on (PostgreSQL documentation, chapter
  "Frontend/Backend Protocol", section "Message Formats").
*/
module AdminWire {
  import opened Wrappers

  type byte = b: int | 0 <= b < 256
  type Bytes = seq<byte>

  const MAX_LENGTH := 1_073_741_823

  datatype WireError =
    | BadLength(tag: byte, length: int)
    | TruncatedAuthentication
    | NoSalt
    | TruncatedRowDescription
    | TruncatedField
    | TruncatedDataRow
    | TruncatedColumnLength
    | TruncatedColumnValue
    | UnterminatedString

  /** The messages the agent acts on; anything else is skipped by its tag. */
  datatype Backend =
    | AuthenticationOk
    | AuthenticationMd5(salt: Bytes)
    | AuthenticationOther(code: int)
    | RowDescription(names: seq<Bytes>)
    | DataRow(values: seq<Option<Bytes>>)
    | CommandComplete(command: Bytes)
    | ErrorResponse(text: Bytes)
    | ReadyForQuery
    | Other(tag: byte)

  // ---- numbers -----------------------------------------------------

  predicate IsI32(n: int) {
    -0x8000_0000 <= n < 0x8000_0000
  }

  function Be32(n: int): (b: Bytes)
    requires IsI32(n)
    ensures |b| == 4 && FromBe32(b) == n
  {
    var u: int := if n < 0 then n + 0x1_0000_0000 else n;
    var v: int := u / 0x100;
    var w: int := v / 0x100;
    [w / 0x100, w % 0x100, v % 0x100, u % 0x100]
  }

  function FromBe32(b: Bytes): (n: int)
    requires |b| >= 4
    ensures IsI32(n)
  {
    var u: int := ((b[0] as int * 0x100 + b[1]) * 0x100 + b[2]) * 0x100 + b[3];
    if u >= 0x8000_0000 then u - 0x1_0000_0000 else u
  }

  function Be16(n: nat): (b: Bytes)
    requires n < 0x1_0000
    ensures |b| == 2 && FromBe16(b) == n
  {
    [n / 0x100, n % 0x100]
  }

  function FromBe16(b: Bytes): nat
    requires |b| >= 2
  {
    b[0] as int * 0x100 + b[1]
  }

  lemma Be32InFront(n: int, rest: Bytes)
    requires IsI32(n)
    ensures FromBe32(Be32(n) + rest) == n && (Be32(n) + rest)[4..] == rest
  {
  }

  lemma Be16InFront(n: nat, rest: Bytes)
    requires n < 0x1_0000
    ensures FromBe16(Be16(n) + rest) == n && (Be16(n) + rest)[2..] == rest
  {
  }

  // ---- strings -----------------------------------------------------

  function Nul(buf: Bytes): (i: nat)
    ensures i <= |buf| && (i < |buf| ==> buf[i] == 0)
  {
    if buf == [] || buf[0] == 0 then 0 else 1 + Nul(buf[1..])
  }

  /** A NUL-terminated string and what follows it. */
  function TakeCstr(buf: Bytes): (r: Result<(Bytes, Bytes), WireError>)
    ensures r.Ok? ==> |r.value.1| < |buf|
  {
    var end := Nul(buf);
    if end == |buf| then Err(UnterminatedString) else Ok((buf[..end], buf[end + 1..]))
  }

  function Cstr(s: Bytes): Bytes {
    s + [0]
  }

  lemma {:induction false} NulInFront(s: Bytes, rest: Bytes)
    requires 0 !in s
    ensures Nul(Cstr(s) + rest) == |s|
  {
    var buf := Cstr(s) + rest;
    if s != [] {
      assert buf[1..] == Cstr(s[1..]) + rest;
      NulInFront(s[1..], rest);
    }
  }

  lemma CstrIsTaken(s: Bytes, rest: Bytes)
    requires 0 !in s
    ensures TakeCstr(Cstr(s) + rest) == Ok((s, rest))
  {
    NulInFront(s, rest);
    var buf := Cstr(s) + rest;
    assert buf[..|s|] == s && buf[|s| + 1..] == rest;
  }

  // ---- row descriptions --------------------------------------------

  function Cons<T>(x: T, r: Result<seq<T>, WireError>): Result<seq<T>, WireError> {
    if r.Ok? then Ok([x] + r.value) else r
  }

  function Prepend<T>(xs: seq<T>, r: Result<seq<T>, WireError>): Result<seq<T>, WireError> {
    if r.Ok? then Ok(xs + r.value) else r
  }

  lemma PrependOne<T>(xs: seq<T>, x: T, r: Result<seq<T>, WireError>)
    ensures Prepend(xs, Cons(x, r)) == Prepend(xs + [x], r)
    ensures Prepend([], r) == r
  {
    if r.Ok? {
      assert xs + ([x] + r.value) == (xs + [x]) + r.value;
      assert [] + r.value == r.value;
    }
  }

  /** The next `count` field names; each is followed by 18 bytes of metadata. */
  function Fields(buf: Bytes, count: nat): Result<seq<Bytes>, WireError> {
    if count == 0 then Ok([])
    else match TakeCstr(buf)
      case Err(e) => Err(e)
      case Ok((name, tail)) =>
        if |tail| < 18 then Err(TruncatedField) else Cons(name, Fields(tail[18..], count - 1))
  }

  method ParseFields(buf: Bytes, count: nat) returns (r: Result<seq<Bytes>, WireError>)
    ensures r == Fields(buf, count)
  {
    hide TakeCstr;
    var rest, names := buf, [];
    PrependOne<Bytes>([], [], Fields(buf, count));
    for i := 0 to count
      invariant Fields(buf, count) == Prepend(names, Fields(rest, count - i))
    {
      var taken := TakeCstr(rest);
      if taken.Err? {
        return Err(taken.error);
      }
      var (name, tail) := taken.value;
      if |tail| < 18 {
        return Err(TruncatedField);
      }
      PrependOne(names, name, Fields(tail[18..], count - i - 1));
      names := names + [name];
      rest := tail[18..];
    }
    assert names + [] == names;
    return Ok(names);
  }

  // ---- data rows ---------------------------------------------------

  /** The next `count` values; a negative length stands for NULL. */
  function Columns(buf: Bytes, count: nat): Result<seq<Option<Bytes>>, WireError> {
    if count == 0 then Ok([])
    else if |buf| < 4 then Err(TruncatedColumnLength)
    else
      var length, rest := FromBe32(buf), buf[4..];
      if length < 0 then Cons(None, Columns(rest, count - 1))
      else if |rest| < length then Err(TruncatedColumnValue)
      else Cons(Some(rest[..length]), Columns(rest[length..], count - 1))
  }

  method ParseColumns(buf: Bytes, count: nat) returns (r: Result<seq<Option<Bytes>>, WireError>)
    ensures r == Columns(buf, count)
  {
    hide FromBe32;
    var rest, values := buf, [];
    PrependOne<Option<Bytes>>([], None, Columns(buf, count));
    for i := 0 to count
      invariant Columns(buf, count) == Prepend(values, Columns(rest, count - i))
    {
      if |rest| < 4 {
        return Err(TruncatedColumnLength);
      }
      var length := FromBe32(rest);
      rest := rest[4..];
      var value := None;
      if length >= 0 {
        if |rest| < length {
          return Err(TruncatedColumnValue);
        }
        value := Some(rest[..length]);
        rest := rest[length..];
      }
      PrependOne(values, value, Columns(rest, count - i - 1));
      values := values + [value];
    }
    assert values + [] == values;
    return Ok(values);
  }

  // ---- error responses ---------------------------------------------

  type Field = (byte, Bytes)

  const SEVERITY: byte := 'S' as int
  const MESSAGE: byte := 'M' as int

  /** The fields up to the terminator, or up to the first that is malformed. */
  function ErrorFields(body: Bytes): seq<Field>
    decreases |body|
  {
    if body == [] || body[0] == 0 then []
    else match TakeCstr(body[1..])
      case Err(_) => []
      case Ok((value, next)) => [(body[0], value)] + ErrorFields(next)
  }

  /** The last field of a type. */
  function LastOf(fields: seq<Field>, kind: byte): Option<Bytes> {
    if fields == [] then None
    else
      var last := fields[|fields| - 1];
      if last.0 == kind then Some(last.1) else LastOf(fields[..|fields| - 1], kind)
  }

  function Ascii(s: string): Bytes {
    seq(|s|, i requires 0 <= i < |s| => if s[i] < 0x80 as char then s[i] as int else 0x3F)
  }

  function Shown(severity: Option<Bytes>, message: Option<Bytes>): Bytes {
    if message.None? then Ascii("the pooler reported an error with no message")
    else if severity.None? then message.value
    else severity.value + Ascii(": ") + message.value
  }

  /** What an operator is shown: the message, with its severity if there is one. */
  function ErrorText(fields: seq<Field>): Bytes {
    Shown(LastOf(fields, SEVERITY), LastOf(fields, MESSAGE))
  }

  method ParseError(body: Bytes) returns (text: Bytes)
    ensures text == ErrorText(ErrorFields(body))
  {
    hide TakeCstr;
    var severity, message, rest := None, None, body;
    ghost var seen: seq<Field> := [];
    while rest != []
      invariant ErrorFields(body) == seen + ErrorFields(rest)
      invariant severity == LastOf(seen, SEVERITY) && message == LastOf(seen, MESSAGE)
      decreases |rest|
    {
      var kind := rest[0];
      if kind == 0 {
        break;
      }
      var taken := TakeCstr(rest[1..]);
      if taken.Err? {
        break;
      }
      var (value, next) := taken.value;
      if kind == SEVERITY {
        severity := Some(value);
      } else if kind == MESSAGE {
        message := Some(value);
      }
      assert seen + ErrorFields(rest) == (seen + [(kind, value)]) + ErrorFields(next);
      seen := seen + [(kind, value)];
      rest := next;
    }
    assert ErrorFields(body) == seen;
    return Shown(severity, message);
  }

  // ---- messages ----------------------------------------------------

  function Map<S, T>(r: Result<S, WireError>, f: S -> T): Result<T, WireError> {
    if r.Ok? then Ok(f(r.value)) else Err(r.error)
  }

  /** What the body of a message with this tag says. */
  function Read(tag: byte, body: Bytes): Result<Backend, WireError> {
    if tag == 'R' as int then
      if |body| < 4 then Err(TruncatedAuthentication)
      else
        var code := FromBe32(body);
        if code == 0 then Ok(AuthenticationOk)
        else if code == 5 then (if |body| < 8 then Err(NoSalt) else Ok(AuthenticationMd5(body[4..8])))
        else Ok(AuthenticationOther(code))
    else if tag == 'T' as int then
      if |body| < 2 then Err(TruncatedRowDescription)
      else Map(Fields(body[2..], FromBe16(body)), names => RowDescription(names))
    else if tag == 'D' as int then
      if |body| < 2 then Err(TruncatedDataRow)
      else Map(Columns(body[2..], FromBe16(body)), values => DataRow(values))
    else if tag == 'C' as int then
      match TakeCstr(body)
      case Err(e) => Err(e)
      case Ok((text, _)) => Ok(CommandComplete(text))
    else if tag == 'E' as int then Ok(ErrorResponse(ErrorText(ErrorFields(body))))
    else if tag == 'Z' as int then Ok(ReadyForQuery)
    else Ok(Other(tag))
  }

  method Parse(tag: byte, body: Bytes) returns (r: Result<Backend, WireError>)
    ensures r == Read(tag, body)
  {
    if tag == 'T' as int && |body| >= 2 {
      var names := ParseFields(body[2..], FromBe16(body));
      return Map(names, x => RowDescription(x));
    } else if tag == 'D' as int && |body| >= 2 {
      var values := ParseColumns(body[2..], FromBe16(body));
      return Map(values, x => DataRow(x));
    } else if tag == 'E' as int {
      var text := ParseError(body);
      return Ok(ErrorResponse(text));
    }
    return Read(tag, body);
  }

  // ---- decoding one message ----------------------------------------

  /** Nothing is consumed unless a whole message is there; then all of it is, whether or not it can be read. */
  datatype Decoded =
    | Incomplete
    | Malformed(error: WireError)
    | Message(read: Result<Backend, WireError>, rest: Bytes)

  function Front(buf: Bytes): (d: Decoded)
    ensures d.Message? ==> |d.rest| + 5 <= |buf|
  {
    if |buf| < 5 then Incomplete
    else
      var length := FromBe32(buf[1..]);
      if !(4 <= length <= MAX_LENGTH) then Malformed(BadLength(buf[0], length))
      else if |buf| < 1 + length then Incomplete
      else Message(Read(buf[0], buf[5..1 + length]), buf[1 + length..])
  }

  method Decode(buf: Bytes) returns (d: Decoded)
    ensures d == Front(buf)
  {
    if |buf| < 5 {
      return Incomplete;
    }
    var length := FromBe32(buf[1..]);
    if !(4 <= length <= MAX_LENGTH) {
      return Malformed(BadLength(buf[0], length));
    }
    var total := 1 + length;
    if |buf| < total {
      return Incomplete;
    }
    var read := Parse(buf[0], buf[5..total]);
    return Message(read, buf[total..]);
  }

  function Extend(d: Decoded, more: Bytes): Decoded {
    if d.Message? then d.(rest := d.rest + more) else d
  }

  /** A decided outcome is the same whatever arrives later, so reads may split the stream anywhere. */
  lemma DecidedStaysDecided(buf: Bytes, more: Bytes)
    requires !Front(buf).Incomplete?
    ensures Front(buf + more) == Extend(Front(buf), more)
  {
    hide Read, FromBe32;
    var all := buf + more;
    assert LengthOf(all) == LengthOf(buf) by {
      assert all[0] == buf[0] && all[1] == buf[1] && all[2] == buf[2] && all[3] == buf[3] && all[4] == buf[4];
      LengthIsInFront(all, buf);
    }
    var length := LengthOf(buf);
    if 4 <= length <= MAX_LENGTH {
      assert all[5..1 + length] == buf[5..1 + length] && all[1 + length..] == buf[1 + length..] + more;
    }
  }

  function LengthOf(buf: Bytes): int
    requires |buf| >= 5
  {
    FromBe32(buf[1..])
  }

  lemma LengthIsInFront(a: Bytes, b: Bytes)
    requires |a| >= 5 && |b| >= 5 && a[1] == b[1] && a[2] == b[2] && a[3] == b[3] && a[4] == b[4]
    ensures LengthOf(a) == LengthOf(b)
  {
  }

  // ---- a reference server ------------------------------------------

  /** What a server may send. `metadata` is the 18 bytes about a column that the agent skips. */
  datatype Reply =
    | AuthOk
    | Md5Challenge(salt: Bytes)
    | OtherMethod(code: int, extra: Bytes)
    | Description(columns: seq<Column>)
    | Row(values: seq<Option<Bytes>>)
    | Complete(command: Bytes)
    | Error(fields: seq<Field>)
    | Ready(status: byte)
    | Notice(kind: byte, body: Bytes)

  datatype Column = Column(name: Bytes, metadata: Bytes)

  function WriteColumns(columns: seq<Column>): Bytes {
    if columns == [] then [] else Cstr(columns[0].name) + columns[0].metadata + WriteColumns(columns[1..])
  }

  predicate ValidColumns(columns: seq<Column>) {
    forall i :: 0 <= i < |columns| ==> 0 !in columns[i].name && |columns[i].metadata| == 18
  }

  function NamesOf(columns: seq<Column>): seq<Bytes> {
    if columns == [] then [] else [columns[0].name] + NamesOf(columns[1..])
  }

  function WriteValue(v: Option<Bytes>): Bytes
    requires v.Some? ==> |v.value| <= MAX_LENGTH
  {
    if v.None? then Be32(-1) else Be32(|v.value|) + v.value
  }

  predicate ValidValues(values: seq<Option<Bytes>>) {
    forall i :: 0 <= i < |values| && values[i].Some? ==> |values[i].value| <= MAX_LENGTH
  }

  function WriteValues(values: seq<Option<Bytes>>): Bytes
    requires ValidValues(values)
  {
    if values == [] then [] else WriteValue(values[0]) + WriteValues(values[1..])
  }

  predicate ValidFields(fields: seq<Field>) {
    forall i :: 0 <= i < |fields| ==> fields[i].0 != 0 && 0 !in fields[i].1
  }

  function WriteFields(fields: seq<Field>): Bytes {
    if fields == [] then [0] else [fields[0].0] + Cstr(fields[0].1) + WriteFields(fields[1..])
  }

  predicate IsNotice(kind: byte) {
    kind != 'R' as int && kind != 'T' as int && kind != 'D' as int && kind != 'C' as int && kind != 'E' as int
    && kind != 'Z' as int
  }

  predicate Valid(m: Reply) {
    match m
    case AuthOk => true
    case Md5Challenge(salt) => |salt| == 4
    case OtherMethod(code, _) => IsI32(code) && code != 0 && code != 5
    case Description(columns) => |columns| < 0x1_0000 && ValidColumns(columns)
    case Row(values) => |values| < 0x1_0000 && ValidValues(values)
    case Complete(command) => 0 !in command
    case Error(fields) => ValidFields(fields)
    case Ready(_) => true
    case Notice(kind, _) => IsNotice(kind)
  }

  function Tag(m: Reply): byte {
    match m
    case AuthOk => 'R' as int
    case Md5Challenge(_) => 'R' as int
    case OtherMethod(_, _) => 'R' as int
    case Description(_) => 'T' as int
    case Row(_) => 'D' as int
    case Complete(_) => 'C' as int
    case Error(_) => 'E' as int
    case Ready(_) => 'Z' as int
    case Notice(kind, _) => kind
  }

  function Body(m: Reply): Bytes
    requires Valid(m)
  {
    match m
    case AuthOk => Be32(0)
    case Md5Challenge(salt) => Be32(5) + salt
    case OtherMethod(code, extra) => Be32(code) + extra
    case Description(columns) => Be16(|columns|) + WriteColumns(columns)
    case Row(values) => Be16(|values|) + WriteValues(values)
    case Complete(command) => Cstr(command)
    case Error(fields) => WriteFields(fields)
    case Ready(status) => [status]
    case Notice(_, body) => body
  }

  /** Within the protocol's size limit. */
  predicate Sendable(m: Reply) {
    Valid(m) && |Body(m)| + 4 <= MAX_LENGTH
  }

  function Frame(m: Reply): Bytes
    requires Sendable(m)
  {
    [Tag(m)] + Be32(|Body(m)| + 4) + Body(m)
  }

  /** What the agent is meant to take from a reply. */
  function Meaning(m: Reply): Backend {
    match m
    case AuthOk => AuthenticationOk
    case Md5Challenge(salt) => AuthenticationMd5(salt)
    case OtherMethod(code, _) => AuthenticationOther(code)
    case Description(columns) => RowDescription(NamesOf(columns))
    case Row(values) => DataRow(values)
    case Complete(command) => CommandComplete(command)
    case Error(fields) => ErrorResponse(ErrorText(fields))
    case Ready(_) => ReadyForQuery
    case Notice(kind, _) => Other(kind)
  }

  /** Whatever follows the counted columns is ignored. */
  lemma {:induction false} ColumnsAreRead(columns: seq<Column>, rest: Bytes)
    requires ValidColumns(columns)
    ensures Fields(WriteColumns(columns) + rest, |columns|) == Ok(NamesOf(columns))
  {
    hide TakeCstr;
    if columns != [] {
      var c := columns[0];
      var more := WriteColumns(columns[1..]) + rest;
      ColumnsAreRead(columns[1..], rest);
      assert WriteColumns(columns) + rest == Cstr(c.name) + (c.metadata + more);
      CstrIsTaken(c.name, c.metadata + more);
      assert (c.metadata + more)[18..] == more;
    }
  }

  lemma ValueIsRead(v: Option<Bytes>, more: Bytes, count: nat)
    requires v.Some? ==> |v.value| <= MAX_LENGTH
    ensures Columns(WriteValue(v) + more, count + 1) == Cons(v, Columns(more, count))
  {
    hide FromBe32, Be32;
    if v.None? {
      Be32InFront(-1, more);
    } else {
      var data := v.value;
      Be32InFront(|data|, data + more);
      assert WriteValue(v) + more == Be32(|data|) + (data + more);
      assert (data + more)[..|data|] == data && (data + more)[|data|..] == more;
    }
  }

  /** NULL and the empty value stay apart. */
  lemma {:induction false} ValuesAreRead(values: seq<Option<Bytes>>, rest: Bytes)
    requires ValidValues(values)
    ensures Columns(WriteValues(values) + rest, |values|) == Ok(values)
  {
    hide WriteValue, FromBe32;
    if values != [] {
      var more := WriteValues(values[1..]) + rest;
      ValuesAreRead(values[1..], rest);
      ValueIsRead(values[0], more, |values| - 1);
      assert WriteValues(values) + rest == WriteValue(values[0]) + more;
      assert values == [values[0]] + values[1..];
    }
  }

  lemma FieldIsRead(kind: byte, value: Bytes, more: Bytes)
    requires kind != 0 && 0 !in value
    ensures ErrorFields([kind] + (Cstr(value) + more)) == [(kind, value)] + ErrorFields(more)
  {
    hide TakeCstr;
    var body := [kind] + (Cstr(value) + more);
    assert body[0] == kind && body[1..] == Cstr(value) + more;
    CstrIsTaken(value, more);
  }

  lemma {:induction false} FieldsAreRead(fields: seq<Field>, rest: Bytes)
    requires ValidFields(fields)
    ensures ErrorFields(WriteFields(fields) + rest) == fields
  {
    hide ErrorFields, Cstr;
    if fields == [] {
      assert ErrorFields([0] + rest) == [] by {
        NothingAfterTerminator(rest);
      }
    } else {
      var (kind, value) := fields[0];
      var more := WriteFields(fields[1..]) + rest;
      FieldsAreRead(fields[1..], rest);
      FieldIsRead(kind, value, more);
      assert WriteFields(fields) + rest == [kind] + (Cstr(value) + more);
      assert fields == [(kind, value)] + fields[1..];
    }
  }

  lemma NothingAfterTerminator(rest: Bytes)
    ensures ErrorFields([0] + rest) == []
  {
  }

  lemma BodyIsRead(m: Reply)
    requires Valid(m)
    ensures Read(Tag(m), Body(m)) == Ok(Meaning(m))
  {
    hide FromBe32, Be32, FromBe16, Be16, TakeCstr, Fields, Columns, ErrorFields, ErrorText;
    match m
    case AuthOk => Be32InFront(0, []);
      assert Be32(0) + [] == Be32(0);
    case Md5Challenge(salt) => Be32InFront(5, salt);
      assert (Be32(5) + salt)[4..8] == salt;
    case OtherMethod(code, extra) => Be32InFront(code, extra);
    case Description(columns) =>
      Be16InFront(|columns|, WriteColumns(columns));
      ColumnsAreRead(columns, []);
      assert WriteColumns(columns) + [] == WriteColumns(columns);
    case Row(values) =>
      Be16InFront(|values|, WriteValues(values));
      ValuesAreRead(values, []);
      assert WriteValues(values) + [] == WriteValues(values);
    case Complete(command) =>
      CstrIsTaken(command, []);
      assert Cstr(command) + [] == Cstr(command);
    case Error(fields) =>
      FieldsAreRead(fields, []);
      assert WriteFields(fields) + [] == WriteFields(fields);
    case Ready(_) =>
    case Notice(_, _) =>
  }

  /** Decoding inverts a server's encoding, and any bytes that follow stay in the buffer. */
  lemma FrameThenDecode(m: Reply, rest: Bytes)
    requires Sendable(m)
    ensures Front(Frame(m) + rest) == Message(Ok(Meaning(m)), rest)
  {
    hide Be32, FromBe32, Body, Read, Meaning, Valid;
    var body := Body(m);
    var length := |body| + 4;
    var buf := Frame(m) + rest;
    Be32InFront(length, body + rest);
    assert buf[0] == Tag(m) && buf[1..] == Be32(length) + (body + rest);
    assert buf[5..1 + length] == body && buf[1 + length..] == rest;
    BodyIsRead(m);
  }

  // ---- what the agent sends ----------------------------------------

  /** `as i32`: the low 32 bits, as a signed number. */
  function AsI32(n: int): (r: int)
    ensures IsI32(r)
    ensures IsI32(n) ==> r == n
  {
    (n + 0x8000_0000) % 0x1_0000_0000 - 0x8000_0000
  }

  /** Tag, length covering itself, body, NUL. */
  function Tagged(tag: byte, body: Bytes): Bytes {
    [tag] + Be32(AsI32(|body| + 5)) + body + [0]
  }

  function QueryMessage(sql: Bytes): Bytes {
    Tagged('Q' as int, sql)
  }

  function TerminateMessage(): Bytes {
    Tagged('X' as int, [])
  }

  /** `md5` stands for the hex digest, of which nothing is assumed. */
  function PasswordMessage(md5: Bytes -> Bytes, user: Bytes, password: Bytes, salt: Bytes): Bytes {
    Tagged('p' as int, Ascii("md5") + md5(md5(password + user) + salt))
  }

  function Parameters(user: Bytes, database: Bytes): seq<(Bytes, Bytes)> {
    [(Ascii("user"), user), (Ascii("database"), database), (Ascii("application_name"), Ascii("pgpod-agent"))]
  }

  function WriteParameters(parameters: seq<(Bytes, Bytes)>): Bytes {
    if parameters == [] then [0] else Cstr(parameters[0].0) + Cstr(parameters[0].1) + WriteParameters(parameters[1..])
  }

  const PROTOCOL_VERSION := 196_608

  /** No tag: the length comes first and covers the whole message. */
  function StartupMessage(user: Bytes, database: Bytes): Bytes {
    var body := Be32(PROTOCOL_VERSION) + WriteParameters(Parameters(user, database));
    Be32(AsI32(|body| + 4)) + body
  }

  /** How a server reads the parameters of a startup message. */
  function ReadParameters(buf: Bytes): seq<(Bytes, Bytes)>
    decreases |buf|
  {
    match TakeCstr(buf)
    case Err(_) => []
    case Ok((key, tail)) =>
      if key == [] then []
      else match TakeCstr(tail)
        case Err(_) => []
        case Ok((value, next)) => [(key, value)] + ReadParameters(next)
  }

  /** The length of a message says where the next one starts, exactly while it fits 31 bits. */
  lemma TaggedIsOneFrame(tag: byte, body: Bytes, rest: Bytes)
    ensures FromBe32((Tagged(tag, body) + rest)[1..]) + 1 == |Tagged(tag, body)| <==> IsI32(|body| + 5)
  {
    hide Be32, FromBe32, AsI32;
    var length := AsI32(|body| + 5);
    assert (Tagged(tag, body) + rest)[1..] == Be32(length) + (body + [0] + rest);
    Be32InFront(length, body + [0] + rest);
  }

  lemma {:induction false} ParametersAreRead(parameters: seq<(Bytes, Bytes)>)
    requires forall i :: 0 <= i < |parameters| ==>
               parameters[i].0 != [] && 0 !in parameters[i].0 && 0 !in parameters[i].1
    ensures ReadParameters(WriteParameters(parameters)) == parameters
  {
    hide TakeCstr;
    if parameters == [] {
      CstrIsTaken([], []);
      assert Cstr([]) + [] == [0];
    } else {
      var (key, value) := parameters[0];
      var more := WriteParameters(parameters[1..]);
      ParametersAreRead(parameters[1..]);
      assert WriteParameters(parameters) == Cstr(key) + (Cstr(value) + more);
      CstrIsTaken(key, Cstr(value) + more);
      CstrIsTaken(value, more);
    }
  }

  /** A startup message describes itself: its length, its version, and its parameters. */
  lemma StartupDescribesItself(user: Bytes, database: Bytes)
    requires 0 !in user && 0 !in database && IsI32(|StartupMessage(user, database)|)
    ensures var m := StartupMessage(user, database);
            && |m| >= 8 && FromBe32(m) == |m| && FromBe32(m[4..]) == PROTOCOL_VERSION
            && ReadParameters(m[8..]) == Parameters(user, database)
  {
    hide Be32, FromBe32, AsI32, WriteParameters, ReadParameters;
    var written := WriteParameters(Parameters(user, database));
    var body := Be32(PROTOCOL_VERSION) + written;
    Be32InFront(AsI32(|body| + 4), body);
    Be32InFront(PROTOCOL_VERSION, written);
    assert |StartupMessage(user, database)| == |body| + 4;
    assert StartupMessage(user, database)[4..] == body;
    assert StartupMessage(user, database)[8..] == written;
    ParametersAreRead(Parameters(user, database));
  }
}
