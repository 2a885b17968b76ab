/**
 Frames of the fast image-share protocol: the client's side (image-rs/src/vsock_ttrpc_client/mod.rs) and the server's
 (confidential-data-hub/hub/src/bin/vsock-ttrpc-server.rs). A stream is the bytes written and not yet read.
 */
module FastFraming {
  import opened Common

  const FAST_MAX_MESSAGE_SIZE := 1024 * 1024
  const U32 := 0x1_0000_0000

  /** `u32::to_be_bytes` */
  function ToBe(n: nat): (r: seq<byte>)
    requires n < U32
    ensures |r| == 4
  {
    [n / 0x100_0000, n / 0x1_0000 % 256, n / 0x100 % 256, n % 256]
  }

  /** `u32::from_be_bytes` */
  function FromBe(b: seq<byte>): (n: nat)
    requires |b| == 4
    ensures n < U32
  {
    var y: int := b[0] as int * 256 + b[1];
    var x: int := y * 256 + b[2];
    x * 256 + b[3]
  }

  lemma {:induction false} FromBeMeans(b: seq<byte>)
    requires |b| == 4
    ensures FromBe(b) == b[0] as int * 16_777_216 + b[1] as int * 65_536 + b[2] as int * 256 + b[3]
  {}

  lemma {:induction false} BeRoundTrip(n: nat)
    requires n < U32
    ensures FromBe(ToBe(n)) == n
  {
    var x, y := n / 256, n / 0x1_0000;
    assert x / 256 == y && y / 256 == n / 0x100_0000;
    assert n == x * 256 + n % 256 && x == y * 256 + x % 256 && y == y / 256 * 256 + y % 256;
  }

  lemma {:induction false} BeRoundTripBack(b: seq<byte>)
    requires |b| == 4
    ensures ToBe(FromBe(b)) == b
  {
    var y: int := b[0] as int * 256 + b[1];
    var x: int := y * 256 + b[2];
    var n := FromBe(b);
    assert n == x * 256 + b[3] && n / 256 == x && n % 256 == b[3];
    assert x / 256 == y && x % 256 == b[2] && n / 0x1_0000 == y;
    assert y / 256 == b[0] && y % 256 == b[1] && n / 0x100_0000 == b[0];
  }

  // ---------------------------------------------------------------- the two ends

  function Frame(payload: seq<byte>): seq<byte> requires |payload| <= FAST_MAX_MESSAGE_SIZE {
    ToBe(|payload|) + payload
  }

  datatype Read = Got(payload: seq<byte>) | TooLarge | Eof

  /** What a reader gets from the bytes, and what it leaves unread. */
  function ReadFrom(b: seq<byte>): (Read, seq<byte>) {
    if |b| < 4 then (Eof, [])
    else
      var len := FromBe(b[..4]);
      if len > FAST_MAX_MESSAGE_SIZE then (TooLarge, b[4..])
      else if |b| - 4 < len then (Eof, [])
      else (Got(b[4..4 + len]), b[4 + len..])
  }

  class Stream {
    var bytes: seq<byte>

    constructor ()
      ensures bytes == []
    {
      bytes := [];
    }

    method ReadExact(n: nat) returns (r: Option<seq<byte>>)
      modifies this
      ensures |old(bytes)| >= n ==> r == Some(old(bytes)[..n]) && bytes == old(bytes)[n..]
      ensures |old(bytes)| < n ==> r == None && bytes == []
    {
      if |bytes| < n {
        bytes := [];
        return None;
      }
      r := Some(bytes[..n]);
      bytes := bytes[n..];
    }

    /** `write_frame`: a payload over the limit is refused before any byte is written. */
    method WriteFrame(payload: seq<byte>) returns (ok: bool)
      modifies this
      ensures ok <==> |payload| <= 1_048_576
      ensures bytes == old(bytes) + if ok then Frame(payload) else []
    {
      if |payload| > FAST_MAX_MESSAGE_SIZE { return false; }
      var frame := ToBe(|payload|);
      frame := frame + payload;
      bytes := bytes + frame;
      ok := true;
    }

    /** `write_fast_status_and_frame` */
    method WriteStatusAndFrame(status: byte, payload: seq<byte>) returns (ok: bool)
      modifies this
      ensures ok <==> |payload| <= 1_048_576
      ensures bytes == old(bytes) + if ok then [status] + Frame(payload) else []
    {
      if |payload| > FAST_MAX_MESSAGE_SIZE { return false; }
      var frame: seq<byte> := [status];
      frame := frame + ToBe(|payload|);
      frame := frame + payload;
      assert frame == [status] + Frame(payload);
      bytes := bytes + frame;
      ok := true;
    }

    /** `read_frame` and `read_fast_frame`: a length over the limit is refused before any payload byte is read. */
    method ReadFrame() returns (r: Read)
      modifies this
      ensures (r, bytes) == ReadFrom(old(bytes))
    {
      var len := ReadExact(4);
      if len.None? { return Eof; }
      var n := FromBe(len.value);
      if n > FAST_MAX_MESSAGE_SIZE { return TooLarge; }
      ghost var b := old(bytes);
      assert |b| - 4 >= n ==> b[4..][..n] == b[4..4 + n] && b[4..][n..] == b[4 + n..];
      var payload := ReadExact(n);
      if payload.None? { return Eof; }
      r := Got(payload.value);
    }
  }

  lemma {:induction false} ReadsWritten(payload: seq<byte>, rest: seq<byte>)
    requires |payload| <= FAST_MAX_MESSAGE_SIZE
    ensures ReadFrom(Frame(payload) + rest) == (Got(payload), rest)
  {
    var b := Frame(payload) + rest;
    assert b[..4] == ToBe(|payload|);
    BeRoundTrip(|payload|);
    assert b[4..4 + |payload|] == payload && b[4 + |payload|..] == rest;
  }

  /** Only a written frame reads as a payload. */
  lemma {:induction false} OnlyWrittenReads(b: seq<byte>)
    requires ReadFrom(b).0.Got?
    ensures var (r, rest) := ReadFrom(b); |r.payload| <= FAST_MAX_MESSAGE_SIZE && b == Frame(r.payload) + rest
  {
    BeRoundTripBack(b[..4]);
    var len := FromBe(b[..4]);
    assert b == b[..4] + b[4..4 + len] + b[4 + len..];
  }

  /** A length over the limit is refused whatever follows, with all that follows still unread. */
  lemma {:induction false} RefusesLarge(n: nat, rest: seq<byte>)
    requires FAST_MAX_MESSAGE_SIZE < n < U32
    ensures ReadFrom(ToBe(n) + rest) == (TooLarge, rest)
  {
    var b := ToBe(n) + rest;
    assert b[..4] == ToBe(n) && b[4..] == rest;
    BeRoundTrip(n);
  }

  // ---------------------------------------------------------------- whole conversations

  predicate Sendable(payloads: seq<seq<byte>>) {
    forall i :: 0 <= i < |payloads| ==> |payloads[i]| <= FAST_MAX_MESSAGE_SIZE
  }

  function Requests(payloads: seq<seq<byte>>): seq<byte> requires Sendable(payloads) {
    if payloads == [] then [] else Frame(payloads[0]) + Requests(payloads[1..])
  }

  function ParseRequests(b: seq<byte>): Result<seq<seq<byte>>>
    decreases |b|
  {
    if b == [] then Ok([])
    else
      var (r, rest) := ReadFrom(b);
      if !r.Got? then Err
      else
        match ParseRequests(rest)
        case Err => Err
        case Ok(more) => Ok([r.payload] + more)
  }

  lemma {:induction false} RequestsParseBack(payloads: seq<seq<byte>>)
    requires Sendable(payloads)
    ensures ParseRequests(Requests(payloads)) == Ok(payloads)
  {
    if payloads != [] {
      RequestsParseBack(payloads[1..]);
      ReadsWritten(payloads[0], Requests(payloads[1..]));
      assert [payloads[0]] + payloads[1..] == payloads;
    }
  }

  lemma {:induction false} OnlyRequestsParse(b: seq<byte>)
    requires ParseRequests(b).Ok?
    ensures Sendable(ParseRequests(b).value) && Requests(ParseRequests(b).value) == b
    decreases |b|
  {
    if b != [] {
      var (r, rest) := ReadFrom(b);
      OnlyWrittenReads(b);
      OnlyRequestsParse(rest);
      var more := ParseRequests(rest).value;
      assert ([r.payload] + more)[1..] == more;
    }
  }

  datatype Reply = Reply(status: byte, payload: seq<byte>)

  predicate SendableReplies(replies: seq<Reply>) {
    forall i :: 0 <= i < |replies| ==> |replies[i].payload| <= FAST_MAX_MESSAGE_SIZE
  }

  function ReplyFrame(r: Reply): seq<byte>
    requires |r.payload| <= FAST_MAX_MESSAGE_SIZE
  {
    [r.status] + Frame(r.payload)
  }

  function Replies(replies: seq<Reply>): seq<byte> requires SendableReplies(replies) {
    if replies == [] then [] else ReplyFrame(replies[0]) + Replies(replies[1..])
  }

  /** `read_status` followed by `read_frame`. */
  function ReadReply(b: seq<byte>): (Option<Reply>, seq<byte>) {
    if b == [] then (None, [])
    else
      var (r, rest) := ReadFrom(b[1..]);
      (if r.Got? then Some(Reply(b[0], r.payload)) else None, rest)
  }

  function ParseReplies(b: seq<byte>): Result<seq<Reply>>
    decreases |b|
  {
    if b == [] then Ok([])
    else
      var (r, rest) := ReadReply(b);
      if r.None? then Err
      else
        match ParseReplies(rest)
        case Err => Err
        case Ok(more) => Ok([r.value] + more)
  }

  lemma {:induction false} ReadsWrittenReply(r: Reply, rest: seq<byte>)
    requires |r.payload| <= FAST_MAX_MESSAGE_SIZE
    ensures ReadReply(ReplyFrame(r) + rest) == (Some(r), rest)
  {
    ReadsWritten(r.payload, rest);
    assert (ReplyFrame(r) + rest)[1..] == Frame(r.payload) + rest;
  }

  lemma {:induction false} OnlyWrittenReplyReads(b: seq<byte>)
    requires ReadReply(b).0.Some?
    ensures var (r, rest) := ReadReply(b); |r.value.payload| <= FAST_MAX_MESSAGE_SIZE && b == ReplyFrame(r.value) + rest
  {
    OnlyWrittenReads(b[1..]);
    assert b == [b[0]] + b[1..];
  }

  lemma {:induction false} RepliesParseBack(replies: seq<Reply>)
    requires SendableReplies(replies)
    ensures ParseReplies(Replies(replies)) == Ok(replies)
  {
    if replies != [] {
      RepliesParseBack(replies[1..]);
      ReadsWrittenReply(replies[0], Replies(replies[1..]));
      assert [replies[0]] + replies[1..] == replies;
    }
  }

  lemma {:induction false} OnlyRepliesParse(b: seq<byte>)
    requires ParseReplies(b).Ok?
    ensures SendableReplies(ParseReplies(b).value) && Replies(ParseReplies(b).value) == b
    decreases |b|
  {
    if b != [] {
      var (r, rest) := ReadReply(b);
      OnlyWrittenReplyReads(b);
      OnlyRepliesParse(rest);
      var more := ParseReplies(rest).value;
      assert ([r.value] + more)[1..] == more;
    }
  }
}
