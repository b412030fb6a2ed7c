/**
  The agent's connection to the admin console: a buffer filled by reads of any
  size, and commands that must stay in step with the server's replies.
*/
module AdminClient {
  import opened Wrappers
  import opened AdminWire
  import opened Text

  datatype QueryResult = QueryResult(columns: seq<Bytes>, rows: seq<seq<Option<Bytes>>>, tag: Option<Bytes>)

  datatype ClientError =
    | Closed
    | Wire(error: WireError)
    | Refused(text: Bytes)
    | UnknownMethod(code: int)
    | NoPools

  type Answer = Result<QueryResult, ClientError>

  function Flat(chunks: seq<Bytes>): Bytes {
    if chunks == [] then [] else chunks[0] + Flat(chunks[1..])
  }

  /** The next message of a stream of bytes that then ends, and the bytes that are left. */
  function Next(p: Bytes): (r: (Result<Backend, ClientError>, Bytes))
    ensures r.0.Ok? ==> |r.1| + 5 <= |p|
  {
    match Front(p)
    case Incomplete => (Err(Closed), p)
    case Malformed(e) => (Err(Wire(e)), p)
    case Message(Ok(m), rest) => (Ok(m), rest)
    case Message(Err(e), rest) => (Err(Wire(e)), rest)
  }

  // ---- one command -------------------------------------------------

  /** What has been gathered of an answer so far. */
  datatype Progress = Progress(result: QueryResult, failure: Option<Bytes>)

  const NOTHING := Progress(QueryResult([], [], None), None)

  function Absorb(so: Progress, m: Backend): Progress {
    match m
    case RowDescription(names) => so.(result := so.result.(columns := names))
    case DataRow(values) => so.(result := so.result.(rows := so.result.rows + [values]))
    case CommandComplete(tag) => so.(result := so.result.(tag := Some(tag)))
    case ErrorResponse(text) => so.(failure := Some(text))
    case _ => so
  }

  function Finish(so: Progress): Answer {
    if so.failure.Some? then Err(Refused(so.failure.value)) else Ok(so.result)
  }

  /** Read messages up to and including the next ReadyForQuery. */
  function Collect(p: Bytes, so: Progress): (Answer, Bytes)
    decreases |p|
  {
    var (m, rest) := Next(p);
    if m.Err? then (Err(m.error), rest)
    else if m.value.ReadyForQuery? then (Finish(so), rest)
    else Collect(rest, Absorb(so, m.value))
  }

  // ---- signing in --------------------------------------------------

  /** How the exchange ends, the salts it answers on the way, and the bytes left behind. */
  function SignIn(p: Bytes): (Result<(), ClientError>, seq<Bytes>, Bytes)
    decreases |p|
  {
    var (m, rest) := Next(p);
    if m.Err? then (Err(m.error), [], rest)
    else match m.value
      case AuthenticationMd5(salt) =>
        var (end, salts, left) := SignIn(rest);
        (end, [salt] + salts, left)
      case ReadyForQuery => (Ok(()), [], rest)
      case ErrorResponse(text) => (Err(Refused(text)), [], rest)
      case AuthenticationOther(code) => (Err(UnknownMethod(code)), [], rest)
      case _ => SignIn(rest)
  }

  /** A sign-in that comes after some challenges. */
  function Answered(salts: seq<Bytes>, r: (Result<(), ClientError>, seq<Bytes>, Bytes)): (Result<(), ClientError>, seq<Bytes>, Bytes) {
    (r.0, salts + r.1, r.2)
  }

  function Responses(md5: Bytes -> Bytes, user: Bytes, password: Bytes, salts: seq<Bytes>): seq<Bytes> {
    seq(|salts|, i requires 0 <= i < |salts| => PasswordMessage(md5, user, password, salts[i]))
  }

  // ---- one verb for several pools ----------------------------------

  function Contains(s: Bytes, needle: Bytes): bool {
    needle <= s || (s != [] && Contains(s[1..], needle))
  }

  function Command(verb: Bytes, name: Bytes): Bytes {
    verb + Ascii(" ") + name
  }

  /** A pool comes into being with its first client, so the absence of one is no failure. */
  predicate MissingPool(sql: Bytes, e: ClientError) {
    e.Refused? && Contains(sql + Ascii(": ") + e.text, Ascii("No pool for database"))
  }

  /** The pools a verb took effect on, the failure that stopped it, and how many commands were sent. */
  datatype Applied = Applied(names: seq<Bytes>, failure: Option<ClientError>, commands: nat, rest: Bytes)

  function ApplyEach(p: Bytes, verb: Bytes, names: seq<Bytes>): (a: Applied)
    ensures a.commands <= |names|
    decreases |names|
  {
    if names == [] then Applied([], None, 0, p)
    else
      var (answer, rest) := Collect(p, NOTHING);
      if answer.Err? && !MissingPool(Command(verb, names[0]), answer.error) then
        Applied([], Some(answer.error), 1, rest)
      else
        var more := ApplyEach(rest, verb, names[1..]);
        more.(names := (if answer.Ok? then [names[0]] else []) + more.names, commands := more.commands + 1)
  }

  function Queries(verb: Bytes, names: seq<Bytes>): seq<Bytes> {
    seq(|names|, i requires 0 <= i < |names| => QueryMessage(Command(verb, names[i])))
  }

  class Admin {
    var buf: Bytes
    /** What the reads to come will return, one by one; after the last, the server has closed. */
    var stream: seq<Bytes>
    var sent: seq<Bytes>

    constructor (stream: seq<Bytes>)
      ensures buf == [] && this.stream == stream && sent == []
    {
      buf, this.stream, sent := [], stream, [];
    }

    /** The bytes not consumed yet, whether or not they have been read. */
    function Pending(): Bytes
      reads this
    {
      buf + Flat(stream)
    }

    /** What comes next depends on the bytes alone, never on how they were split into reads. */
    method NextMessage() returns (r: Result<Backend, ClientError>)
      modifies `buf, `stream
      ensures (r, Pending()) == Next(old(Pending()))
      ensures |stream| <= |old(stream)|
    {
      hide Front;
      while true
        invariant Pending() == old(Pending()) && |stream| <= |old(stream)|
        decreases |stream|
      {
        ghost var later := Flat(stream);
        var d := Decode(buf);
        if !d.Incomplete? {
          DecidedStaysDecided(buf, later);
          if d.Malformed? {
            return Err(Wire(d.error));
          }
          buf := d.rest;
          return if d.read.Ok? then Ok(d.read.value) else Err(Wire(d.read.error));
        }
        if stream == [] {
          assert buf + [] == buf;
          return Err(Closed);
        }
        assert (buf + stream[0]) + Flat(stream[1..]) == buf + (stream[0] + Flat(stream[1..]));
        buf := buf + stream[0];
        stream := stream[1..];
      }
    }

    method Send(message: Bytes)
      modifies `sent
      ensures sent == old(sent) + [message]
    {
      sent := sent + [message];
    }

    /** Run one command. An error is kept, but the block is read to its end. */
    method Execute(sql: Bytes) returns (r: Answer)
      modifies this
      ensures (r, Pending()) == Collect(old(Pending()), NOTHING)
      ensures sent == old(sent) + [QueryMessage(sql)]
    {
      hide Next;
      Send(QueryMessage(sql));
      var so := NOTHING;
      while true
        invariant Collect(Pending(), so) == Collect(old(Pending()), NOTHING)
        invariant sent == old(sent) + [QueryMessage(sql)]
        decreases |Pending()|
      {
        ghost var p := Pending();
        var m := NextMessage();
        assert (m, Pending()) == Next(p);
        if m.Err? {
          return Err(m.error);
        }
        if m.value.ReadyForQuery? {
          return Finish(so);
        }
        so := Absorb(so, m.value);
      }
    }

    method Authenticate(md5: Bytes -> Bytes, user: Bytes, password: Bytes, database: Bytes)
      returns (r: Result<(), ClientError>)
      modifies this
      ensures var (end, salts, rest) := SignIn(old(Pending()));
              && r == end && Pending() == rest
              && sent == old(sent) + [StartupMessage(user, database)] + Responses(md5, user, password, salts)
    {
      hide Next, StartupMessage, PasswordMessage, SignIn, Answered, Responses;
      Send(StartupMessage(user, database));
      ghost var answered: seq<Bytes> := [];
      ghost var greeted := sent;
      NothingAnswered(md5, user, password, greeted, SignIn(Pending()));
      while true
        invariant SignIn(old(Pending())) == Answered(answered, SignIn(Pending()))
        invariant sent == greeted + Responses(md5, user, password, answered)
        decreases |Pending()|
      {
        ghost var p := Pending();
        var m := NextMessage();
        assert (m, Pending()) == Next(p);
        SignInGoesOn(p, m, Pending(), answered);
        if m.Err? {
          return Err(m.error);
        }
        match m.value {
          case AuthenticationMd5(salt) =>
            Send(PasswordMessage(md5, user, password, salt));
            OneMoreResponse(md5, user, password, greeted, answered, salt);
            answered := answered + [salt];
          case ReadyForQuery => return Ok(());
          case ErrorResponse(text) => return Err(Refused(text));
          case AuthenticationOther(code) => return Err(UnknownMethod(code));
          case _ =>
        }
      }
    }

    /**
      A whole connection: sign in, send one verb for each pool, and say goodbye. With
      no pool to send it for, nothing is sent at all.
    */
    method ForEachPool(md5: Bytes -> Bytes, user: Bytes, password: Bytes, database: Bytes, verb: Bytes, names: seq<Bytes>)
      returns (r: Result<seq<Bytes>, ClientError>)
      modifies this
      ensures names == [] ==> r == Err(NoPools) && sent == old(sent) && Pending() == old(Pending())
      ensures names != [] ==>
                var (end, salts, rest) := SignIn(old(Pending()));
                var greeted := old(sent) + [StartupMessage(user, database)] + Responses(md5, user, password, salts);
                var a := ApplyEach(rest, verb, names);
                if end.Err? then r == Err(end.error) && sent == greeted && Pending() == rest
                else
                  && r == (if a.failure.Some? then Err(a.failure.value) else Ok(a.names))
                  && sent == greeted + Queries(verb, names)[..a.commands] + [TerminateMessage()]
                  && Pending() == a.rest
    {
      hide SignIn, ApplyEach, Responses, StartupMessage, TerminateMessage, Queries;
      if names == [] {
        return Err(NoPools);
      }
      var signed := Authenticate(md5, user, password, database);
      if signed.Err? {
        return Err(signed.error);
      }
      var applied, failure := ApplyVerb(verb, names);
      Send(TerminateMessage());
      return if failure.Some? then Err(failure.value) else Ok(applied);
    }

    /** One verb for each pool in turn. It stops at the first failure that means something. */
    method ApplyVerb(verb: Bytes, names: seq<Bytes>) returns (applied: seq<Bytes>, failure: Option<ClientError>)
      modifies this
      ensures var a := ApplyEach(old(Pending()), verb, names);
              && applied == a.names && failure == a.failure && Pending() == a.rest
              && sent == old(sent) + Queries(verb, names)[..a.commands]
    {
      hide Collect, MissingPool, Command, QueryMessage, ApplyEach;
      NothingToApply(Pending(), verb);
      applied, failure := [], None;
      var i := 0;
      while i < |names|
        invariant 0 <= i <= |names| && failure.None?
        invariant var a, more := ApplyEach(old(Pending()), verb, names), ApplyEach(Pending(), verb, names[i..]);
                  && a.names == applied + more.names && a.failure == more.failure && a.rest == more.rest
                  && a.commands == i + more.commands
        invariant sent == old(sent) + Queries(verb, names)[..i]
      {
        ghost var p := Pending();
        var sql := Command(verb, names[i]);
        var answer := Execute(sql);
        assert (answer, Pending()) == Collect(p, NOTHING);
        ApplyFirst(p, verb, names[i..], answer, Pending());
        assert names[i..][0] == names[i] && names[i..][1..] == names[i + 1..];
        assert sent == old(sent) + Queries(verb, names)[..i + 1];
        if answer.Ok? {
          applied := applied + [names[i]];
        } else if !MissingPool(sql, answer.error) {
          failure := Some(answer.error);
          return;
        }
        i := i + 1;
      }
      NothingToApply(Pending(), verb);
      assert names[i..] == [];
    }
  }

  lemma SignInGoesOn(p: Bytes, m: Result<Backend, ClientError>, rest: Bytes, answered: seq<Bytes>)
    requires (m, rest) == Next(p)
    ensures var done := end => Answered(answered, SignIn(p)) == (end, answered, rest);
            if m.Err? then done(Err(m.error))
            else match m.value
              case AuthenticationMd5(salt) => Answered(answered, SignIn(p)) == Answered(answered + [salt], SignIn(rest))
              case ReadyForQuery => done(Ok(()))
              case ErrorResponse(text) => done(Err(Refused(text)))
              case AuthenticationOther(code) => done(Err(UnknownMethod(code)))
              case _ => Answered(answered, SignIn(p)) == Answered(answered, SignIn(rest))
  {
    hide Next;
    assert answered + [] == answered;
    if m.Ok? && m.value.AuthenticationMd5? {
      assert answered + ([m.value.salt] + SignIn(rest).1) == (answered + [m.value.salt]) + SignIn(rest).1;
    }
  }

  lemma NothingAnswered(md5: Bytes -> Bytes, user: Bytes, password: Bytes, sent: seq<Bytes>,
                        r: (Result<(), ClientError>, seq<Bytes>, Bytes))
    ensures Answered([], r) == r && sent + Responses(md5, user, password, []) == sent
  {
    assert [] + r.1 == r.1;
  }

  lemma OneMoreResponse(md5: Bytes -> Bytes, user: Bytes, password: Bytes, sent: seq<Bytes>, salts: seq<Bytes>, salt: Bytes)
    ensures sent + Responses(md5, user, password, salts + [salt])
         == sent + Responses(md5, user, password, salts) + [PasswordMessage(md5, user, password, salt)]
  {
    assert Responses(md5, user, password, salts + [salt])
        == Responses(md5, user, password, salts) + [PasswordMessage(md5, user, password, salt)];
  }

  lemma NothingToApply(p: Bytes, verb: Bytes)
    ensures ApplyEach(p, verb, []) == Applied([], None, 0, p)
  {
  }

  lemma ApplyFirst(p: Bytes, verb: Bytes, names: seq<Bytes>, answer: Answer, rest: Bytes)
    requires names != [] && (answer, rest) == Collect(p, NOTHING)
    ensures ApplyEach(p, verb, names)
         == if answer.Err? && !MissingPool(Command(verb, names[0]), answer.error) then
              Applied([], Some(answer.error), 1, rest)
            else
              var more := ApplyEach(rest, verb, names[1..]);
              more.(names := (if answer.Ok? then [names[0]] else []) + more.names, commands := more.commands + 1)
  {
  }

  // ---- a server's replies ------------------------------------------

  /** What a server sends for one command: any replies but ReadyForQuery, then one of those. */
  datatype Block = Block(replies: seq<Reply>, status: byte) {
    predicate WellFormed() {
      forall i :: 0 <= i < |replies| ==> Sendable(replies[i]) && !replies[i].Ready?
    }
  }

  function Frames(replies: seq<Reply>): Bytes
    requires forall i :: 0 <= i < |replies| ==> Sendable(replies[i])
  {
    if replies == [] then [] else Frame(replies[0]) + Frames(replies[1..])
  }

  lemma ReadyIsSendable(status: byte)
    ensures Sendable(Ready(status))
  {
    assert |Body(Ready(status))| == 1;
  }

  function Write(b: Block): Bytes
    requires b.WellFormed()
  {
    ReadyIsSendable(b.status);
    Frames(b.replies) + Frame(Ready(b.status))
  }

  /** The last row description. */
  function ColumnsOf(replies: seq<Reply>): seq<Bytes> {
    if replies == [] then []
    else
      var last := replies[|replies| - 1];
      if last.Description? then NamesOf(last.columns) else ColumnsOf(replies[..|replies| - 1])
  }

  /** All the rows, in order. */
  function RowsOf(replies: seq<Reply>): seq<seq<Option<Bytes>>> {
    if replies == [] then []
    else
      var last, front := replies[|replies| - 1], RowsOf(replies[..|replies| - 1]);
      if last.Row? then front + [last.values] else front
  }

  /** The last command tag. */
  function TagOf(replies: seq<Reply>): Option<Bytes> {
    if replies == [] then None
    else
      var last := replies[|replies| - 1];
      if last.Complete? then Some(last.command) else TagOf(replies[..|replies| - 1])
  }

  /** The last error. */
  function ErrorOf(replies: seq<Reply>): Option<Bytes> {
    if replies == [] then None
    else
      var last := replies[|replies| - 1];
      if last.Error? then Some(ErrorText(last.fields)) else ErrorOf(replies[..|replies| - 1])
  }

  /** What a command is meant to return for one block. */
  function Outcome(b: Block): Answer {
    if ErrorOf(b.replies).Some? then Err(Refused(ErrorOf(b.replies).value))
    else Ok(QueryResult(ColumnsOf(b.replies), RowsOf(b.replies), TagOf(b.replies)))
  }

  function Gathered(done: seq<Reply>): Progress {
    Progress(QueryResult(ColumnsOf(done), RowsOf(done), TagOf(done)), ErrorOf(done))
  }

  lemma AbsorbOne(done: seq<Reply>, m: Reply)
    ensures Absorb(Gathered(done), Meaning(m)) == Gathered(done + [m])
  {
    hide NamesOf, ErrorText;
    assert (done + [m])[..|done|] == done;
  }

  lemma ReadOne(m: Reply, rest: Bytes)
    requires Sendable(m)
    ensures Next(Frame(m) + rest) == (Ok(Meaning(m)), rest)
  {
    hide Front, Meaning, Sendable, Frame;
    FrameThenDecode(m, rest);
  }

  lemma {:induction false} CollectFrames(done: seq<Reply>, todo: seq<Reply>, status: byte, rest: Bytes)
    requires Block(todo, status).WellFormed() && Sendable(Ready(status))
    ensures Collect(Frames(todo) + (Frame(Ready(status)) + rest), Gathered(done))
         == (Finish(Gathered(done + todo)), rest)
    decreases |todo|
  {
    hide Next, Gathered, Frame, Absorb, Sendable;
    var end := Frame(Ready(status)) + rest;
    if todo == [] {
      ReadOne(Ready(status), rest);
      assert Frames(todo) + end == end && done + todo == done;
    } else {
      var m := todo[0];
      var more := Frames(todo[1..]) + end;
      assert Frames(todo) + end == Frame(m) + more;
      ReadOne(m, more);
      AbsorbOne(done, m);
      assert (done + [m]) + todo[1..] == done + todo;
      CollectFrames(done + [m], todo[1..], status, rest);
    }
  }

  /** One command consumes exactly one block, and its answer is made of that block only. */
  lemma ExecuteReadsOneBlock(b: Block, rest: Bytes)
    requires b.WellFormed()
    ensures Collect(Write(b) + rest, NOTHING) == (Outcome(b), rest)
  {
    hide Frame, Frames, Collect, Gathered, Outcome;
    ReadyIsSendable(b.status);
    CollectFrames([], b.replies, b.status, rest);
    NothingGathered();
    assert [] + b.replies == b.replies;
    assert Write(b) + rest == Frames(b.replies) + (Frame(Ready(b.status)) + rest);
    FinishIsOutcome(b);
  }

  lemma NothingGathered()
    ensures Gathered([]) == NOTHING
  {
  }

  lemma FinishIsOutcome(b: Block)
    ensures Finish(Gathered(b.replies)) == Outcome(b)
  {
  }

  function WriteAll(blocks: seq<Block>): Bytes
    requires forall i :: 0 <= i < |blocks| ==> blocks[i].WellFormed()
  {
    if blocks == [] then [] else Write(blocks[0]) + WriteAll(blocks[1..])
  }

  /** The answers of `k` commands in a row, whether or not some of them are refused. */
  function ExecuteEach(p: Bytes, k: nat): (seq<Answer>, Bytes)
    decreases k
  {
    if k == 0 then ([], p)
    else
      var (answer, rest) := Collect(p, NOTHING);
      var (more, left) := ExecuteEach(rest, k - 1);
      ([answer] + more, left)
  }

  /** `k` commands consume exactly `k` blocks, and answer `i` is block `i`'s, even after an error in an earlier one. */
  lemma {:induction false} ClientStaysInStep(blocks: seq<Block>, rest: Bytes)
    requires forall i :: 0 <= i < |blocks| ==> blocks[i].WellFormed()
    ensures var (answers, left) := ExecuteEach(WriteAll(blocks) + rest, |blocks|);
            && left == rest && |answers| == |blocks|
            && forall i :: 0 <= i < |blocks| ==> answers[i] == Outcome(blocks[i])
  {
    hide Collect, Write, Outcome, Block.WellFormed;
    if blocks != [] {
      var more := WriteAll(blocks[1..]) + rest;
      assert WriteAll(blocks) + rest == Write(blocks[0]) + more;
      ExecuteReadsOneBlock(blocks[0], more);
      ClientStaysInStep(blocks[1..], rest);
    } else {
      assert WriteAll(blocks) + rest == rest;
    }
  }

  /** How many pools are gone through: up to and with the first whose refusal means something. */
  function Stop(verb: Bytes, names: seq<Bytes>, blocks: seq<Block>): (k: nat)
    requires |names| <= |blocks|
    ensures k <= |names|
  {
    if names == [] then 0
    else
      var answer := Outcome(blocks[0]);
      if answer.Err? && !MissingPool(Command(verb, names[0]), answer.error) then 1
      else 1 + Stop(verb, names[1..], blocks[1..])
  }

  /**
    Each pool is judged by the reply to its own command: those named as applied are
    the ones whose block held no error, and the replies to later commands are left unread.
  */
  lemma {:induction false} EachPoolHasItsOwnReply(verb: Bytes, names: seq<Bytes>, blocks: seq<Block>, rest: Bytes)
    requires |names| <= |blocks| && forall i :: 0 <= i < |blocks| ==> blocks[i].WellFormed()
    ensures var a := ApplyEach(WriteAll(blocks) + rest, verb, names);
            var k := Stop(verb, names, blocks);
            && a.commands == k && a.rest == WriteAll(blocks[k..]) + rest
            && a.names == Accepted(names[..k], blocks[..k])
            && (a.failure.None? <==> forall i :: 0 <= i < |names| ==> GoesOn(verb, names[i], blocks[i]))
  {
    hide *;
    RepliesAreReadInTurn(verb, names, blocks, rest);
    FailsExactly(verb, names, blocks);
  }

  /** The pools applied, and whether nothing stopped it, judged one reply at a time. */
  function Judged(verb: Bytes, names: seq<Bytes>, blocks: seq<Block>): (r: (seq<Bytes>, bool))
    requires |names| <= |blocks|
  {
    if names == [] then ([], true)
    else if !GoesOn(verb, names[0], blocks[0]) then ([], false)
    else
      var (more, fine) := Judged(verb, names[1..], blocks[1..]);
      ((if Outcome(blocks[0]).Ok? then [names[0]] else []) + more, fine)
  }

  lemma {:induction false} RepliesAreReadInTurn(verb: Bytes, names: seq<Bytes>, blocks: seq<Block>, rest: Bytes)
    requires |names| <= |blocks| && forall i :: 0 <= i < |blocks| ==> blocks[i].WellFormed()
    ensures var a := ApplyEach(WriteAll(blocks) + rest, verb, names);
            var k := Stop(verb, names, blocks);
            && a.commands == k && a.rest == WriteAll(blocks[k..]) + rest
            && (a.names, a.failure.None?) == Judged(verb, names, blocks)
  {
    hide Collect, Write, WriteAll, Outcome, GoesOn, Block.WellFormed, ApplyEach, Command, MissingPool;
    if names != [] {
      var more := WriteAll(blocks[1..]) + rest;
      WritesFirst(blocks, rest);
      ExecuteReadsOneBlock(blocks[0], more);
      ApplyFirst(WriteAll(blocks) + rest, verb, names, Outcome(blocks[0]), more);
      FirstGoesOn(verb, names[0], blocks[0]);
      if GoesOn(verb, names[0], blocks[0]) {
        RepliesAreReadInTurn(verb, names[1..], blocks[1..], rest);
        BehindFirst(blocks, Stop(verb, names, blocks));
      }
    } else {
      NothingToApply(WriteAll(blocks) + rest, verb);
      assert blocks[0..] == blocks;
    }
  }

  lemma {:induction false} FailsExactly(verb: Bytes, names: seq<Bytes>, blocks: seq<Block>)
    requires |names| <= |blocks|
    ensures Judged(verb, names, blocks).0 == Accepted(names[..Stop(verb, names, blocks)], blocks[..Stop(verb, names, blocks)])
    ensures Judged(verb, names, blocks).1 <==> forall i :: 0 <= i < |names| ==> GoesOn(verb, names[i], blocks[i])
  {
    hide Outcome, GoesOn, Command, MissingPool;
    if names != [] {
      FirstGoesOn(verb, names[0], blocks[0]);
      FailsExactly(verb, names[1..], blocks[1..]);
      BehindFirst(names, Stop(verb, names, blocks));
      BehindFirst(blocks, Stop(verb, names, blocks));
      assert forall i :: 0 < i < |names| ==> names[i] == names[1..][i - 1] && blocks[i] == blocks[1..][i - 1];
      assert forall i :: 0 <= i < |names[1..]| ==> names[1..][i] == names[i + 1] && blocks[1..][i] == blocks[i + 1];
      FirstAccepted(names, blocks, Stop(verb, names, blocks));
      FirstOutcome(verb, names[0], blocks[0]);
    }
  }

  lemma FirstAccepted(names: seq<Bytes>, blocks: seq<Block>, k: nat)
    requires 1 <= k <= |names| <= |blocks|
    ensures Accepted(names[..k], blocks[..k])
         == (if Outcome(blocks[0]).Ok? then [names[0]] else []) + Accepted(names[1..][..k - 1], blocks[1..][..k - 1])
  {
    hide Outcome;
    BehindFirst(names, k);
    BehindFirst(blocks, k);
  }

  lemma FirstOutcome(verb: Bytes, name: Bytes, block: Block)
    ensures !GoesOn(verb, name, block) ==> Outcome(block).Err?
  {
  }

  /** The reply to one pool's command is no failure, or none that means something. */
  predicate GoesOn(verb: Bytes, name: Bytes, block: Block) {
    Outcome(block).Ok? || MissingPool(Command(verb, name), Outcome(block).error)
  }

  lemma FirstGoesOn(verb: Bytes, name: Bytes, block: Block)
    ensures GoesOn(verb, name, block)
       <==> !(Outcome(block).Err? && !MissingPool(Command(verb, name), Outcome(block).error))
  {
  }

  lemma WritesFirst(blocks: seq<Block>, rest: Bytes)
    requires blocks != [] && forall i :: 0 <= i < |blocks| ==> blocks[i].WellFormed()
    ensures WriteAll(blocks) + rest == Write(blocks[0]) + (WriteAll(blocks[1..]) + rest)
  {
    hide Write, Block.WellFormed;
  }

  lemma BehindFirst<T>(s: seq<T>, k: nat)
    requires 1 <= k <= |s|
    ensures s[1..][..k - 1] == s[..k][1..] && s[1..][k - 1..] == s[k..] && s[..k][0] == s[0]
  {
  }

  function Accepted(names: seq<Bytes>, blocks: seq<Block>): seq<Bytes>
    requires |names| == |blocks|
  {
    if names == [] then []
    else (if Outcome(blocks[0]).Ok? then [names[0]] else []) + Accepted(names[1..], blocks[1..])
  }

  /** The usual exchange: a challenge is answered with its own salt, and what follows sign-in is left for commands. */
  lemma SignInAnswersTheChallenge(salt: Bytes, notices: seq<Reply>, status: byte, rest: Bytes)
    requires |salt| == 4
    requires forall i :: 0 <= i < |notices| ==> Sendable(notices[i]) && notices[i].Notice?
    requires Sendable(Md5Challenge(salt)) && Sendable(AuthOk) && Sendable(Ready(status))
    ensures SignIn(Frame(Md5Challenge(salt)) + (Frame(AuthOk) + (Frames(notices) + (Frame(Ready(status)) + rest))))
         == (Ok(()), [salt], rest)
  {
    hide Next, Frame, Sendable;
    var tail := Frames(notices) + (Frame(Ready(status)) + rest);
    ReadOne(Md5Challenge(salt), Frame(AuthOk) + tail);
    ReadOne(AuthOk, tail);
    NoticesAreSkipped(notices, status, rest);
    assert SignIn(Frame(AuthOk) + tail) == SignIn(tail);
    assert [salt] + [] == [salt];
  }

  lemma {:induction false} NoticesAreSkipped(notices: seq<Reply>, status: byte, rest: Bytes)
    requires forall i :: 0 <= i < |notices| ==> Sendable(notices[i]) && notices[i].Notice?
    requires Sendable(Ready(status))
    ensures SignIn(Frames(notices) + (Frame(Ready(status)) + rest)) == (Ok(()), [], rest)
  {
    hide Next, Frame, Sendable;
    var end := Frame(Ready(status)) + rest;
    if notices == [] {
      ReadOne(Ready(status), rest);
      assert Frames(notices) + end == end;
    } else {
      var more := Frames(notices[1..]) + end;
      assert Frames(notices) + end == Frame(notices[0]) + more;
      ReadOne(notices[0], more);
      NoticesAreSkipped(notices[1..], status, rest);
    }
  }

  // ---- SHOW POOLS --------------------------------------------------

  datatype PoolRow = PoolRow(database: string, user: string, paused: bool, waiting: nat, active: nat, idle: nat)

  /** Where a name first occurs. */
  function Position(columns: seq<Bytes>, name: Bytes): (at: Option<nat>)
    ensures at.Some? ==> at.value < |columns| && columns[at.value] == name
    ensures at.None? <==> name !in columns
  {
    if columns == [] then None
    else if columns[0] == name then Some(0)
    else match Position(columns[1..], name)
      case None => None
      case Some(at) => Some(at + 1)
  }

  /** One cell, by column name; a NULL and a missing column look alike. */
  function Get(r: QueryResult, row: nat, name: Bytes): Option<Bytes> {
    match Position(r.columns, name)
    case None => None
    case Some(at) => if row < |r.rows| && at < |r.rows[row]| then r.rows[row][at] else None
  }

  function Show(b: Bytes): string {
    seq(|b|, i requires 0 <= i < |b| => if b[i] < 0x80 then b[i] as char else 0xFFFD as char)
  }

  function Cell(r: QueryResult, row: nat, name: string): string {
    Trim(Show(Get(r, row, Ascii(name)).GetOr([])))
  }

  function Number(cell: string): nat {
    ParseUnsigned(cell, U64_MAX).GetOr(0)
  }

  function RowAt(r: QueryResult, row: nat): PoolRow {
    var paused := Cell(r, row, "paused");
    PoolRow(Cell(r, row, "database"), Cell(r, row, "user"),
            paused == "1" || paused == "t" || paused == "true" || paused == "yes",
            Number(Cell(r, row, "cl_waiting")), Number(Cell(r, row, "sv_active")), Number(Cell(r, row, "sv_idle")))
  }

  predicate HasRequired(columns: seq<Bytes>) {
    Ascii("database") in columns && Ascii("user") in columns && Ascii("paused") in columns
  }

  /** A column that is needed and missing is an error, never a zero. */
  method ParsePools(r: QueryResult) returns (pools: Option<seq<PoolRow>>)
    ensures pools.Some? <==> HasRequired(r.columns)
    ensures pools.Some? ==>
              |pools.value| == |r.rows| && forall i :: 0 <= i < |r.rows| ==> pools.value[i] == RowAt(r, i)
  {
    hide RowAt, Ascii;
    if !HasRequired(r.columns) {
      return None;
    }
    var out: seq<PoolRow> := [];
    for i := 0 to |r.rows|
      invariant |out| == i && forall k :: 0 <= k < i ==> out[k] == RowAt(r, k)
    {
      out := out + [RowAt(r, i)];
    }
    return Some(out);
  }

  /** `b` is `a` with its columns in another order: column `j` of `b` is column `order[j]` of `a`. */
  ghost predicate Reordered(a: QueryResult, b: QueryResult, order: seq<nat>) {
    && |order| == |a.columns| == |b.columns| && |a.rows| == |b.rows|
    && (forall j :: 0 <= j < |order| ==> order[j] < |a.columns| && b.columns[j] == a.columns[order[j]])
    && (forall i :: 0 <= i < |a.columns| ==> i in order)
    && (forall r :: 0 <= r < |a.rows| ==> |a.rows[r]| == |b.rows[r]| == |order|)
    && (forall r, j :: 0 <= r < |a.rows| && 0 <= j < |order| ==> b.rows[r][j] == a.rows[r][order[j]])
  }

  /** Pools are read by column name: the order the server lists the columns in does not matter. */
  lemma ReadByNameNotPosition(a: QueryResult, b: QueryResult, order: seq<nat>, row: nat)
    requires Reordered(a, b, order)
    requires forall i, j :: 0 <= i < j < |a.columns| ==> a.columns[i] != a.columns[j]
    ensures HasRequired(a.columns) <==> HasRequired(b.columns)
    ensures RowAt(a, row) == RowAt(b, row)
  {
    hide Ascii, Trim, Show, Number;
    forall name: Bytes ensures Get(a, row, name) == Get(b, row, name) && (name in a.columns <==> name in b.columns) {
      SameCell(a, b, order, row, name);
    }
  }

  lemma SameCell(a: QueryResult, b: QueryResult, order: seq<nat>, row: nat, name: Bytes)
    requires Reordered(a, b, order)
    requires forall i, j :: 0 <= i < j < |a.columns| ==> a.columns[i] != a.columns[j]
    ensures Get(a, row, name) == Get(b, row, name) && (name in a.columns <==> name in b.columns)
  {
    assert forall j :: 0 <= j < |b.columns| ==> b.columns[j] == a.columns[order[j]];
    if name in a.columns {
      var i := Position(a.columns, name).value;
      assert i in order;
      var j :| 0 <= j < |order| && order[j] == i;
      assert b.columns[j] == name;
      var k := Position(b.columns, name).value;
      assert a.columns[order[k]] == name;
      assert order[k] == i;
    }
  }
}
