/**
 The streaming AES-CTR cipher with an HMAC over the ciphertext (ocicrypt-rs/src/blockcipher).

 Keystream and HMAC are library functions: they are parameters here, so every result holds for all of them.
 */
module AesCtr {
  import opened Common

  datatype Primitives = Primitives(
    keystream: (seq<byte>, seq<byte>, nat) -> byte,
    hmac: (seq<byte>, seq<byte>) -> seq<byte>)

  const KEY_SIZE := 32
  const NONCE_SIZE := 16
  const AES256CTR := "AES_256_CTR_HMAC_SHA256"

  datatype PublicOptions = PublicOptions(cipherType: string, cipherOptions: map<string, seq<byte>>, hmac: seq<byte>)
  datatype PrivateOptions = PrivateOptions(
    symmetricKey: seq<byte>, cipherOptions: map<string, seq<byte>>, digest: string)
  datatype Options = Options(pub: PublicOptions, priv: PrivateOptions)

  /** The public configuration has priority. */
  function GetOpt(opts: Options, key: string): Option<seq<byte>> {
    if key in opts.pub.cipherOptions then Some(opts.pub.cipherOptions[key])
    else if key in opts.priv.cipherOptions then Some(opts.priv.cipherOptions[key])
    else None
  }

  /** The cipher's state together with the bytes its reader still has. */
  datatype Stream = Stream(
    done: bool, key: seq<byte>, nonce: seq<byte>, pos: nat,
    macInput: seq<byte>, expHmac: seq<byte>, pending: seq<byte>)

  // ---------------------------------------------------------------- bytes and keystream

  function XorBits(a: nat, b: nat, n: nat): (r: nat)
    ensures r < Pow2(n)
  {
    if n == 0 then 0 else 2 * XorBits(a / 2, b / 2, n - 1) + (a + b) % 2
  }

  lemma {:induction false} XorBitsTwice(a: nat, b: nat, n: nat)
    requires a < Pow2(n)
    ensures XorBits(XorBits(a, b, n), b, n) == a
    decreases n
  {
    if n > 0 {
      var h, r := XorBits(a / 2, b / 2, n - 1), XorBits(a, b, n);
      Halve(h, a + b, r);
      Parity(a, b, r);
      XorBitsTwice(a / 2, b / 2, n - 1);
    }
  }

  lemma Halve(h: nat, x: nat, r: nat)
    requires r == 2 * h + x % 2
    ensures r / 2 == h && r % 2 == x % 2
  {}

  lemma Parity(a: nat, b: nat, r: nat)
    requires r % 2 == (a + b) % 2
    ensures (r + b) % 2 == a % 2
  {}

  lemma Pow2Of8()
    ensures Pow2(8) == 256
  {
    assert Pow2(8) == 16 * Pow2(4);
  }

  function Xor(a: byte, b: byte): byte {
    Pow2Of8(); XorBits(a, b, 8)
  }

  lemma {:induction false} XorTwice(a: byte, k: byte)
    ensures Xor(Xor(a, k), k) == a
  {
    Pow2Of8();
    XorBitsTwice(a, k, 8);
  }

  /** Bit `i` of a number, the lowest first. */
  function Bit(x: nat, i: nat): nat
    decreases i
  {
    if i == 0 then x % 2 else Bit(x / 2, i - 1)
  }

  lemma {:induction false} HalveTwice(x: nat, m: nat)
    requires m > 0
    ensures x / (2 * m) == x / 2 / m
  {
    var q, h := x / (2 * m), x / 2;
    var r := x % (2 * m);
    assert x == q * (2 * m) + r;
    assert q * (2 * m) == 2 * (q * m);
    assert h == q * m + r / 2 && 0 <= r / 2 < m;
    Quotient(q, m, r / 2);
  }

  lemma {:induction false} BitMeans(x: nat, i: nat)
    ensures Bit(x, i) == x / Pow2(i) % 2
    decreases i
  {
    if i > 0 {
      BitMeans(x / 2, i - 1);
      HalveTwice(x, Pow2(i - 1));
    }
  }

  lemma {:induction false} ParityOfSum(a: nat, b: nat)
    ensures (a + b) % 2 == (a % 2 + b % 2) % 2
  {}

  /** Each bit is the sum of the two bits, without carry. */
  lemma {:induction false} XorBitsAt(a: nat, b: nat, n: nat, i: nat)
    requires i < n
    ensures Bit(XorBits(a, b, n), i) == (Bit(a, i) + Bit(b, i)) % 2
    decreases n
  {
    Halve(XorBits(a / 2, b / 2, n - 1), a + b, XorBits(a, b, n));
    if i == 0 {
      ParityOfSum(a, b);
    } else {
      XorBitsAt(a / 2, b / 2, n - 1, i - 1);
    }
  }

  lemma {:induction false} XorBitsSameIff(a: nat, b: nat, n: nat)
    requires a < Pow2(n) && b < Pow2(n)
    ensures XorBits(a, b, n) == a <==> b == 0
    decreases n
  {
    if n > 0 {
      var h, r := XorBits(a / 2, b / 2, n - 1), XorBits(a, b, n);
      Halve(h, a + b, r);
      XorBitsSameIff(a / 2, b / 2, n - 1);
    }
  }

  /** The exclusive or of two bytes, bit by bit; it changes a byte exactly when the other is not 0. */
  lemma {:induction false} XorMeans(a: byte, b: byte, i: nat)
    requires i < 8
    ensures Bit(Xor(a, b), i) == (Bit(a, i) + Bit(b, i)) % 2
    ensures Xor(a, b) / Pow2(i) % 2 == (a / Pow2(i) % 2 + b / Pow2(i) % 2) % 2
    ensures Xor(a, b) == a <==> b == 0
  {
    Pow2Of8();
    XorBitsAt(a, b, 8, i);
    XorBitsSameIff(a, b, 8);
    BitMeans(a, i);
    BitMeans(b, i);
    BitMeans(Xor(a, b), i);
  }

  /** `data` combined with the keystream from position `pos` on. */
  function Mask(prim: Primitives, key: seq<byte>, nonce: seq<byte>, pos: nat, data: seq<byte>): (r: seq<byte>)
    ensures |r| == |data|
  {
    if data == [] then []
    else
      var n := |data| - 1;
      Mask(prim, key, nonce, pos, data[..n]) + [Xor(data[n], prim.keystream(key, nonce, pos + n))]
  }

  lemma {:induction false} MaskAt(prim: Primitives, key: seq<byte>, nonce: seq<byte>, pos: nat, data: seq<byte>, i: nat)
    requires i < |data|
    ensures Mask(prim, key, nonce, pos, data)[i] == Xor(data[i], prim.keystream(key, nonce, pos + i))
  {
    if i < |data| - 1 { MaskAt(prim, key, nonce, pos, data[..|data| - 1], i); }
  }

  lemma {:induction false} MaskConcat(
      prim: Primitives, key: seq<byte>, nonce: seq<byte>, pos: nat, a: seq<byte>, b: seq<byte>)
    ensures Mask(prim, key, nonce, pos, a + b) == Mask(prim, key, nonce, pos, a) + Mask(prim, key, nonce, pos + |a|, b)
    decreases |b|
  {
    if b == [] {
      assert a + b == a;
    } else {
      var n := |b| - 1;
      assert (a + b)[..|a| + n] == a + b[..n];
      MaskConcat(prim, key, nonce, pos, a, b[..n]);
    }
  }

  lemma {:induction false} MaskTwice(prim: Primitives, key: seq<byte>, nonce: seq<byte>, pos: nat, data: seq<byte>)
    ensures Mask(prim, key, nonce, pos, Mask(prim, key, nonce, pos, data)) == data
  {
    var once := Mask(prim, key, nonce, pos, data);
    forall i | 0 <= i < |data| ensures Mask(prim, key, nonce, pos, once)[i] == data[i] {
      MaskAt(prim, key, nonce, pos, data, i);
      MaskAt(prim, key, nonce, pos, once, i);
      XorTwice(data[i], prim.keystream(key, nonce, pos + i));
    }
  }

  // ---------------------------------------------------------------- one read

  datatype ReadResult = ReadResult(stream: Stream, out: seq<byte>, ok: bool)

  /** The step of `read` and `poll_read` when the reader delivered `n` bytes. */
  function Consume(prim: Primitives, encrypt: bool, s: Stream, n: nat): ReadResult
    requires n <= |s.pending|
  {
    if s.done then ReadResult(s, [], true)
    else if n == 0 then
      var mac := prim.hmac(s.key, s.macInput);
      if encrypt then ReadResult(s.(done := true, expHmac := mac), [], true)
      else ReadResult(s.(done := true), [], mac == s.expHmac)
    else
      var chunk := s.pending[..n];
      var out := Mask(prim, s.key, s.nonce, s.pos, chunk);
      ReadResult(
        s.(pos := s.pos + n, macInput := s.macInput + (if encrypt then out else chunk), pending := s.pending[n..]),
        out, true)
  }

  /** What the inner reader did. */
  datatype ReaderEvent = Delivered(n: nat) | Failed | NotReady

  /** A reader may deliver less than asked, but nothing only at the end or into an empty buffer. */
  predicate Possible(s: Stream, room: nat, ev: ReaderEvent) {
    ev.Delivered? ==> ev.n <= room && ev.n <= |s.pending| && (ev.n == 0 ==> room == 0 || s.pending == [])
  }

  datatype Poll = Pending | Ready(result: Result<nat>)

  function Setup(
      prim: Primitives, encrypt: bool, input: seq<byte>, opts: Options, random: seq<byte>): Result<(Stream, Options)> {
    var key := opts.priv.symmetricKey;
    if |key| != KEY_SIZE then Err
    else if !encrypt && opts.pub.hmac == [] then Err
    else
      var given := GetOpt(opts, "nonce");
      if given.Some? && |given.value| != NONCE_SIZE then Err
      else
        var nonce := if given.Some? then given.value else random;
        var kept := opts.priv.cipherOptions;
        var completed := if "nonce" in kept then kept else kept["nonce" := nonce];
        var options := opts.(priv := opts.priv.(cipherOptions := completed));
        Ok((Stream(false, key, nonce, 0, [], opts.pub.hmac, input), options))
  }

  /** A nonce that is given has the right length; one in the public options has priority. */
  predicate NonceFits(opts: Options) {
    if "nonce" in opts.pub.cipherOptions then |opts.pub.cipherOptions["nonce"]| == 16
    else "nonce" in opts.priv.cipherOptions ==> |opts.priv.cipherOptions["nonce"]| == 16
  }

  /** When a cipher starts, and from what. */
  lemma {:induction false} StartsIff(
      prim: Primitives, encrypt: bool, input: seq<byte>, opts: Options, random: seq<byte>)
    ensures Setup(prim, encrypt, input, opts, random).Ok? <==>
      |opts.priv.symmetricKey| == 32 && NonceFits(opts) && (encrypt || |opts.pub.hmac| > 0)
    ensures Setup(prim, encrypt, input, opts, random).Ok? ==>
      var (s, o) := Setup(prim, encrypt, input, opts, random).value;
      && !s.done && s.key == opts.priv.symmetricKey && s.pos == 0 && s.macInput == [] && s.pending == input
      && s.expHmac == opts.pub.hmac && o.pub == opts.pub && o.priv.symmetricKey == opts.priv.symmetricKey
      && ("nonce" in opts.pub.cipherOptions ==> s.nonce == opts.pub.cipherOptions["nonce"])
      && ("nonce" !in opts.pub.cipherOptions && "nonce" in opts.priv.cipherOptions ==>
            s.nonce == opts.priv.cipherOptions["nonce"])
      && ("nonce" !in opts.pub.cipherOptions && "nonce" !in opts.priv.cipherOptions ==>
            s.nonce == random && "nonce" in o.priv.cipherOptions && o.priv.cipherOptions["nonce"] == random)
  {}

  /** One byte of the input, `i` bytes from the present position, combined with its keystream byte. */
  function MaskByte(prim: Primitives, s: Stream, b: byte, i: nat): byte {
    Xor(b, prim.keystream(s.key, s.nonce, s.pos + i))
  }

  lemma {:induction false} MaskOfBytes(prim: Primitives, s: Stream, was: seq<byte>, now: seq<byte>)
    requires |was| == |now| && forall j :: 0 <= j < |was| ==> now[j] == MaskByte(prim, s, was[j], j)
    ensures now == Mask(prim, s.key, s.nonce, s.pos, was)
  {
    forall j | 0 <= j < |was| ensures now[j] == Mask(prim, s.key, s.nonce, s.pos, was)[j] {
      MaskAt(prim, s.key, s.nonce, s.pos, was, j);
    }
  }

  class Cipher {
    var encrypt: bool
    var state: Option<Stream>

    constructor ()
      ensures state == None && !encrypt
    {
      encrypt, state := false, None;
    }

    /** `init`: nothing changes unless every check passes. */
    method Init(
        prim: Primitives, enc: bool, input: seq<byte>, opts: Options, random: seq<byte>) returns (r: Result<Options>)
      requires |random| == NONCE_SIZE
      modifies this
      ensures r.Ok? <==> Setup(prim, enc, input, opts, random).Ok?
      ensures r.Ok? ==> state.Some? && encrypt == enc
      ensures r.Ok? ==> Setup(prim, enc, input, opts, random) == Ok((state.value, r.value))
      ensures r.Err? ==> encrypt == old(encrypt) && state == old(state)
    {
      var key := opts.priv.symmetricKey;
      if |key| != KEY_SIZE { return Err; }
      if !enc && opts.pub.hmac == [] { return Err; }
      var nonce := random;
      var given := GetOpt(opts, "nonce");
      if given.Some? {
        if |given.value| != NONCE_SIZE { return Err; }
        nonce := given.value;
      }
      encrypt := enc;
      state := Some(Stream(false, key, nonce, 0, [], opts.pub.hmac, input));
      var kept := opts.priv.cipherOptions;
      if "nonce" !in kept { kept := kept["nonce" := nonce]; }
      r := Ok(opts.(priv := opts.priv.(cipherOptions := kept)));
    }

    /** `apply_keystream` on `buf[from..from + n]`, in place. */
    static method ApplyKeystream(prim: Primitives, s: Stream, buf: array<byte>, from: nat, n: nat)
      requires from + n <= buf.Length
      modifies buf
      ensures buf[from..from + n] == Mask(prim, s.key, s.nonce, s.pos, old(buf[from..from + n]))
      ensures buf[..from] == old(buf[..from]) && buf[from + n..] == old(buf[from + n..])
    {
      for i := 0 to n
        invariant forall j :: 0 <= j < buf.Length && !(from <= j < from + i) ==> buf[j] == old(buf[j])
        invariant forall j :: from <= j < from + i ==>
          buf[j] == MaskByte(prim, s, old(buf[j]), j - from)
      {
        buf[from + i] := MaskByte(prim, s, buf[from + i], i);
      }
      ghost var was, now := old(buf[from..from + n]), buf[from..from + n];
      forall j | 0 <= j < n ensures now[j] == MaskByte(prim, s, was[j], j) {
        assert now[j] == buf[from + j] && was[j] == old(buf[from + j]);
      }
      MaskOfBytes(prim, s, was, now);
    }

    /** The part `read` and `poll_read` share once `n` bytes of the reader lie in `buf[from..]`. */
    method Process(prim: Primitives, buf: array<byte>, from: nat, n: nat) returns (ok: bool)
      requires state.Some? && !state.value.done && n <= |state.value.pending| && from + n <= buf.Length
      requires buf[from..from + n] == state.value.pending[..n]
      modifies this`state, buf
      ensures state == Some(Consume(prim, encrypt, old(state.value), n).stream)
      ensures ok == Consume(prim, encrypt, old(state.value), n).ok
      ensures buf[from..from + n] == Consume(prim, encrypt, old(state.value), n).out
      ensures buf[..from] == old(buf[..from]) && buf[from + n..] == old(buf[from + n..])
    {
      var s := state.value;
      ok := true;
      if n == 0 { s := s.(done := true); }
      if !encrypt {
        if n > 0 {
          s := s.(macInput := s.macInput + buf[from..from + n]);
          ApplyKeystream(prim, s, buf, from, n);
          s := s.(pos := s.pos + n, pending := s.pending[n..]);
        } else {
          ok := prim.hmac(s.key, s.macInput) == s.expHmac;
        }
      } else if n > 0 {
        ApplyKeystream(prim, s, buf, from, n);
        s := s.(macInput := s.macInput + buf[from..from + n], pos := s.pos + n, pending := s.pending[n..]);
      } else {
        s := s.(expHmac := prim.hmac(s.key, s.macInput));
      }
      state := Some(s);
    }

    /** The reader writes `n` of its bytes to `buf[from..]`. */
    static method Deliver(bytes: seq<byte>, buf: array<byte>, from: nat)
      requires from + |bytes| <= buf.Length
      modifies buf
      ensures buf[from..from + |bytes|] == bytes
      ensures buf[..from] == old(buf[..from]) && buf[from + |bytes|..] == old(buf[from + |bytes|..])
    {
      for i := 0 to |bytes|
        invariant forall j :: 0 <= j < i ==> buf[from + j] == bytes[j]
        invariant forall j :: 0 <= j < buf.Length && !(from <= j < from + i) ==> buf[j] == old(buf[j])
      {
        buf[from + i] := bytes[i];
      }
    }

    method Read(prim: Primitives, buf: array<byte>, ev: ReaderEvent) returns (r: Result<nat>)
      requires !ev.NotReady? && (state.Some? ==> Possible(state.value, buf.Length, ev))
      modifies this`state, buf
      ensures old(state) == None ==> r.Err? && state == None
      ensures old(state.Some? && !state.value.done) && ev.Failed? ==> r.Err? && state == old(state)
      ensures old(state.Some? && state.value.done) ==> r == Ok(0) && state == old(state) && buf[..] == old(buf[..])
      ensures old(state.Some? && !state.value.done) && ev.Delivered? ==>
                var step := Consume(prim, encrypt, old(state.value), ev.n);
                && state == Some(step.stream)
                && r == (if step.ok then Ok(ev.n) else Err)
                && buf[..ev.n] == step.out && buf[ev.n..] == old(buf[ev.n..])
    {
      if state.None? { return Err; }
      if state.value.done { return Ok(0); }
      if ev.Failed? { return Err; }
      Deliver(state.value.pending[..ev.n], buf, 0);
      var ok := Process(prim, buf, 0, ev.n);
      r := if ok then Ok(ev.n) else Err;
    }

    /** `poll_read` into a buffer whose first `filled` bytes are taken; the result is the new fill level. */
    method PollRead(prim: Primitives, buf: array<byte>, filled: nat, ev: ReaderEvent) returns (p: Poll)
      requires filled <= buf.Length && (state.Some? ==> Possible(state.value, buf.Length - filled, ev))
      modifies this`state, buf
      ensures old(state) == None ==> p == Ready(Err) && state == None
      ensures old(state.Some? && !state.value.done) && ev.NotReady? ==> p == Pending && state == old(state)
      ensures old(state.Some? && !state.value.done) && ev.Failed? ==> p == Ready(Err) && state == old(state)
      ensures old(state.Some? && state.value.done) ==>
        p == Ready(Ok(filled)) && state == old(state) && buf[..] == old(buf[..])
      ensures old(state.Some? && !state.value.done) && ev.Delivered? ==>
                var step := Consume(prim, encrypt, old(state.value), ev.n);
                && state == Some(step.stream)
                && p == Ready(if step.ok then Ok(filled + ev.n) else Err)
                && buf[filled..filled + ev.n] == step.out && buf[..filled] == old(buf[..filled])
    {
      if state.None? { return Ready(Err); }
      if state.value.done { return Ready(Ok(filled)); }
      match ev
      case NotReady => return Pending;
      case Failed => return Ready(Err);
      case Delivered(n) =>
        Deliver(state.value.pending[..n], buf, filled);
        var ok := Process(prim, buf, filled, n);
        p := Ready(if ok then Ok(filled + n) else Err);
    }

    method FinalizedLbco(opts: Options) returns (r: Result<Options>)
      ensures r.Ok? <==> state.Some? && state.value.done
      ensures r.Ok? ==> r.value == Finalized(state.value, opts)
    {
      if state.None? || !state.value.done { return Err; }
      r := Ok(opts.(pub := opts.pub.(hmac := state.value.expHmac)));
    }
  }

  function Finalized(s: Stream, opts: Options): Options { opts.(pub := opts.pub.(hmac := s.expHmac)) }

  // ---------------------------------------------------------------- reading to the end

  /** Reads for which the reader has `sched[0]`, `sched[1]`, ... bytes, up to the first error. */
  function Drain(prim: Primitives, encrypt: bool, s: Stream, sched: seq<nat>): ReadResult
    requires Schedule(sched, |s.pending|) || s.done
    decreases |sched|
  {
    if sched == [] then ReadResult(s, [], true)
    else
      var first := Consume(prim, encrypt, s, if s.done then 0 else sched[0]);
      if !first.ok then first
      else
        var rest := Drain(prim, encrypt, first.stream, sched[1..]);
        ReadResult(rest.stream, first.out + rest.out, rest.ok)
  }

  /** Any short reads into non-empty buffers that reach the end of `left` bytes; reads may go on after it. */
  predicate Schedule(sched: seq<nat>, left: nat)
    decreases |sched|
  {
    sched != [] &&
    if left == 0 then sched[0] == 0
    else 0 < sched[0] <= left && Schedule(sched[1..], left - sched[0])
  }

  lemma {:induction false} DoneIsAbsorbing(prim: Primitives, encrypt: bool, s: Stream, sched: seq<nat>)
    requires s.done
    ensures Drain(prim, encrypt, s, sched) == ReadResult(s, [], true)
    decreases |sched|
  {
    if sched != [] { DoneIsAbsorbing(prim, encrypt, s, sched[1..]); }
  }

  /** What `r` is when `data` was read from state `s` on, and then nothing. */
  ghost predicate ReadWhole(prim: Primitives, encrypt: bool, s: Stream, data: seq<byte>, r: ReadResult) {
    var out := Mask(prim, s.key, s.nonce, s.pos, data);
    var mac := prim.hmac(s.key, s.macInput + if encrypt then out else data);
    && r.out == out && r.stream.done
    && r.ok == (encrypt || mac == s.expHmac)
    && r.stream.expHmac == (if encrypt then mac else s.expHmac)
  }

  lemma ReadWholeEnd(prim: Primitives, encrypt: bool, s: Stream)
    requires !s.done
    ensures ReadWhole(prim, encrypt, s, [], Consume(prim, encrypt, s, 0))
  {
    assert s.macInput + [] == s.macInput;
  }

  lemma {:induction false} ReadWholeStep(
      prim: Primitives, encrypt: bool, s: Stream, s': Stream, a: seq<byte>, b: seq<byte>, r: ReadResult)
    requires s'.pos == s.pos + |a| && s'.key == s.key && s'.nonce == s.nonce && s'.expHmac == s.expHmac
    requires s'.macInput == s.macInput + if encrypt then Mask(prim, s.key, s.nonce, s.pos, a) else a
    requires ReadWhole(prim, encrypt, s', b, r)
    ensures ReadWhole(prim, encrypt, s, a + b, ReadResult(r.stream, Mask(prim, s.key, s.nonce, s.pos, a) + r.out, r.ok))
  {
    var outA, outB := Mask(prim, s.key, s.nonce, s.pos, a), Mask(prim, s.key, s.nonce, s.pos + |a|, b);
    assert Mask(prim, s.key, s.nonce, s.pos, a + b) == outA + outB by {
      MaskConcat(prim, s.key, s.nonce, s.pos, a, b);
    }
    if encrypt {
      assert s.macInput + (outA + outB) == (s.macInput + outA) + outB;
    } else {
      assert s.macInput + (a + b) == (s.macInput + a) + b;
    }
  }

  /** Whatever the schedule, a stream read to its end gives the masked input and one HMAC verdict. */
  lemma {:induction false} DrainIsMask(prim: Primitives, encrypt: bool, s: Stream, sched: seq<nat>)
    requires !s.done && Schedule(sched, |s.pending|)
    ensures ReadWhole(prim, encrypt, s, s.pending, Drain(prim, encrypt, s, sched))
    ensures Drain(prim, encrypt, s, sched).stream.pending == []
    decreases |sched|
  {
    var first := Consume(prim, encrypt, s, sched[0]);
    if sched[0] == 0 {
      ReadWholeEnd(prim, encrypt, s);
      if first.ok { DoneIsAbsorbing(prim, encrypt, first.stream, sched[1..]); }
    } else {
      DrainIsMask(prim, encrypt, first.stream, sched[1..]);
      var a, b := s.pending[..sched[0]], s.pending[sched[0]..];
      ReadWholeStep(prim, encrypt, s, first.stream, a, b, Drain(prim, encrypt, first.stream, sched[1..]));
      assert s.pending == a + b;
    }
  }

  /**
   For every schedule each bit that comes out is the input bit, flipped exactly by the keystream bit of its position;
   a byte is unchanged exactly where the keystream byte is 0.
   */
  lemma {:induction false} DrainFlipsBits(
      prim: Primitives, encrypt: bool, s: Stream, sched: seq<nat>, at: nat, bit: nat)
    requires !s.done && Schedule(sched, |s.pending|) && at < |s.pending| && bit < 8
    ensures var out, mask := Drain(prim, encrypt, s, sched).out, prim.keystream(s.key, s.nonce, s.pos + at);
      && |out| == |s.pending| && Bit(out[at], bit) == (Bit(s.pending[at], bit) + Bit(mask, bit)) % 2
      && (out[at] == s.pending[at] <==> mask == 0)
  {
    DrainIsMask(prim, encrypt, s, sched);
    MaskAt(prim, s.key, s.nonce, s.pos, s.pending, at);
    XorMeans(s.pending[at], prim.keystream(s.key, s.nonce, s.pos + at), bit);
  }

  // ---------------------------------------------------------------- buffers that may be empty

  /** One call of `read`: the size of its buffer and the bytes delivered. */
  datatype Call = Call(room: nat, n: nat)

  function Taken(calls: seq<Call>): nat { if calls == [] then 0 else calls[0].n + Taken(calls[1..]) }

  /** Any short reads of `left` bytes up to the first call that delivers nothing, which callers take for the end. */
  predicate ToFirstEmpty(calls: seq<Call>, left: nat)
    decreases |calls|
  {
    calls != [] && calls[0].n <= calls[0].room && calls[0].n <= left &&
    if calls[0].n == 0 then |calls| == 1 && (calls[0].room == 0 || left == 0)
    else ToFirstEmpty(calls[1..], left - calls[0].n)
  }

  function ReadToEnd(prim: Primitives, encrypt: bool, s: Stream, calls: seq<Call>): ReadResult
    requires !s.done && ToFirstEmpty(calls, |s.pending|)
    decreases |calls|
  {
    var first := Consume(prim, encrypt, s, calls[0].n);
    if calls[0].n == 0 then first
    else
      var rest := ReadToEnd(prim, encrypt, first.stream, calls[1..]);
      ReadResult(rest.stream, first.out + rest.out, rest.ok)
  }

  /** No buffer was empty while bytes were left. */
  predicate RoomWhileLeft(calls: seq<Call>, left: nat) {
    forall i :: 0 <= i < |calls| && Taken(calls[..i]) < left ==> calls[i].room > 0
  }

  /** The whole input is taken exactly when no buffer was empty while bytes were left. */
  lemma {:induction false} TakesAllIff(calls: seq<Call>, left: nat)
    requires ToFirstEmpty(calls, left)
    ensures Taken(calls) <= left && (Taken(calls) == left <==> RoomWhileLeft(calls, left))
    decreases |calls|
  {
    assert calls[..0] == [];
    if calls[0].n == 0 {
      assert calls[1..] == [];
    } else {
      var rest, n := calls[1..], calls[0].n;
      TakesAllIff(rest, left - n);
      forall i | 0 < i < |calls| ensures Taken(calls[..i]) == n + Taken(rest[..i - 1]) && calls[i] == rest[i - 1] {
        assert calls[..i][1..] == rest[..i - 1];
      }
      assert forall i :: 0 <= i < |rest| ==> Taken(calls[..i + 1]) == n + Taken(rest[..i]) && rest[i] == calls[i + 1];
    }
  }

  /** One chunk read from the front of the input. */
  lemma {:induction false} ConsumeFront(prim: Primitives, encrypt: bool, s: Stream, a: seq<byte>, rest: seq<byte>)
    requires !s.done && a != [] && s.pending == a + rest
    ensures var first, out := Consume(prim, encrypt, s, |a|), Mask(prim, s.key, s.nonce, s.pos, a);
      && first.ok && first.out == out && !first.stream.done && first.stream.pending == rest
      && first.stream.pos == s.pos + |a| && first.stream.key == s.key && first.stream.nonce == s.nonce
      && first.stream.expHmac == s.expHmac
      && first.stream.macInput == s.macInput + if encrypt then out else a
  {
    assert (a + rest)[..|a|] == a && (a + rest)[|a|..] == rest;
  }

  lemma {:induction false} ReadToEndReads(
      prim: Primitives, encrypt: bool, s: Stream, calls: seq<Call>, data: seq<byte>, tail: seq<byte>)
    requires !s.done && ToFirstEmpty(calls, |s.pending|) && s.pending == data + tail && |data| == Taken(calls)
    ensures var r := ReadToEnd(prim, encrypt, s, calls);
      ReadWhole(prim, encrypt, s, data, r) && r.stream.pending == tail
    decreases |calls|
  {
    var n, rest := calls[0].n, calls[1..];
    if n == 0 {
      assert rest == [] && data == [] && [] + tail == tail;
      ReadWholeEnd(prim, encrypt, s);
    } else {
      var a, b := data[..n], data[n..];
      assert data == a + b && (a + b) + tail == a + (b + tail);
      ConsumeFront(prim, encrypt, s, a, b + tail);
      var first := Consume(prim, encrypt, s, n);
      ReadToEndReads(prim, encrypt, first.stream, rest, b, tail);
      ReadWholeStep(prim, encrypt, s, first.stream, a, b, ReadToEnd(prim, encrypt, first.stream, rest));
    }
  }

  /**
   A read to the first empty delivery leaves nothing behind exactly when no buffer was empty while bytes were left.
   In any case it gives the masked bytes it took; encryption then finalizes over just these, and decryption judges
   just these.
   */
  lemma {:induction false} ReadToEndMeans(prim: Primitives, encrypt: bool, s: Stream, calls: seq<Call>)
    requires !s.done && ToFirstEmpty(calls, |s.pending|)
    ensures var r, t := ReadToEnd(prim, encrypt, s, calls), Taken(calls);
      && t <= |s.pending| && (r.stream.pending == [] <==> RoomWhileLeft(calls, |s.pending|))
      && r.stream.done && r.stream.pending == s.pending[t..]
      && r.out == Mask(prim, s.key, s.nonce, s.pos, s.pending[..t])
      && (encrypt ==> r.ok && r.stream.expHmac == prim.hmac(s.key, s.macInput + r.out))
      && (!encrypt ==> (r.ok <==> prim.hmac(s.key, s.macInput + s.pending[..t]) == s.expHmac))
  {
    TakesAllIff(calls, |s.pending|);
    var data, tail := s.pending[..Taken(calls)], s.pending[Taken(calls)..];
    assert s.pending == data + tail;
    ReadToEndReads(prim, encrypt, s, calls, data, tail);
  }

  // ---------------------------------------------------------------- reachable states

  /** The state a cipher is in after it took `pos` bytes of `input`. */
  ghost predicate Consistent(prim: Primitives, encrypt: bool, input: seq<byte>, s: Stream) {
    && s.pos <= |input| && s.pending == input[s.pos..]
    && s.macInput == (if encrypt then Mask(prim, s.key, s.nonce, 0, input[..s.pos]) else input[..s.pos])
    && (s.done ==> s.pos == |input|)
    && (s.done && encrypt ==> s.expHmac == prim.hmac(s.key, s.macInput))
  }

  /** One possible call of `read` or `poll_read`, with a non-empty buffer. */
  ghost predicate Called(prim: Primitives, encrypt: bool, s: Stream, s': Stream) {
    s' == s || exists room: nat, ev: ReaderEvent ::
      room > 0 && ev.Delivered? && Possible(s, room, ev) && s' == Consume(prim, encrypt, s, ev.n).stream
  }

  lemma CallKeepsConsistent(prim: Primitives, encrypt: bool, input: seq<byte>, s: Stream, s': Stream)
    requires Consistent(prim, encrypt, input, s) && Called(prim, encrypt, s, s')
    ensures Consistent(prim, encrypt, input, s')
    ensures s.done ==> s' == s
    ensures s'.key == s.key && s'.nonce == s.nonce
  {
    if s' != s {
      var room: nat, ev: ReaderEvent :|
        room > 0 && ev.Delivered? && Possible(s, room, ev) && s' == Consume(prim, encrypt, s, ev.n).stream;
      if ev.n > 0 && !s.done { ConsumeKeepsConsistent(prim, encrypt, input, s, ev.n); }
    }
  }

  lemma {:induction false} ConsumeKeepsConsistent(prim: Primitives, encrypt: bool, input: seq<byte>, s: Stream, n: nat)
    requires Consistent(prim, encrypt, input, s) && !s.done && 0 < n <= |s.pending|
    ensures Consistent(prim, encrypt, input, Consume(prim, encrypt, s, n).stream)
  {
    TakeMore(input, s.pos, n);
    if encrypt { MaskConcat(prim, s.key, s.nonce, 0, input[..s.pos], s.pending[..n]); }
  }

  lemma TakeMore(input: seq<byte>, pos: nat, n: nat)
    requires pos + n <= |input|
    ensures input[..pos + n] == input[..pos] + input[pos..][..n] && input[pos..][n..] == input[pos + n..]
  {}

  /** In every reachable state keystream position and HMAC input are exactly the bytes consumed so far. */
  lemma {:induction false} ReachableIsConsistent(prim: Primitives, encrypt: bool, input: seq<byte>, run: seq<Stream>)
    requires run != [] && !run[0].done && run[0].pos == 0 && run[0].macInput == [] && run[0].pending == input
    requires forall i :: 0 <= i < |run| - 1 ==> Called(prim, encrypt, run[i], run[i + 1])
    ensures Consistent(prim, encrypt, input, run[|run| - 1])
    ensures run[|run| - 1].key == run[0].key && run[|run| - 1].nonce == run[0].nonce
  {
    if |run| > 1 {
      var n := |run| - 1;
      ReachableIsConsistent(prim, encrypt, input, run[..n]);
      assert Called(prim, encrypt, run[n - 1], run[n - 1 + 1]);
      CallKeepsConsistent(prim, encrypt, input, run[n - 1], run[n]);
    }
  }

  /** A decryption that fails its HMAC check reports it once; a reader that goes on sees an ordinary end. */
  lemma VerdictIsGivenOnce(prim: Primitives, s: Stream, n: nat)
    requires !s.done && n <= |s.pending| && !Consume(prim, false, s, n).ok
    ensures Consume(prim, false, Consume(prim, false, s, n).stream, 0) ==
      ReadResult(Consume(prim, false, s, n).stream, [], true)
  {}

  // ---------------------------------------------------------------- handler and round trip

  /** `LayerBlockCipherHandler::encrypt` with the fresh key and the fresh nonce. */
  function HandlerEncrypt(
      prim: Primitives, input: seq<byte>, typ: string, opts: Options, key: seq<byte>, random: seq<byte>)
      : Result<(Stream, Options)> {
    if typ != AES256CTR then Err
    else Setup(prim, true, input, Options(opts.pub.(cipherType := AES256CTR), opts.priv.(symmetricKey := key)), random)
  }

  function HandlerDecrypt(
      prim: Primitives, input: seq<byte>, opts: Options, random: seq<byte>): Result<(Stream, Options)> {
    if opts.pub.cipherType != AES256CTR then Err else Setup(prim, false, input, opts, random)
  }

  lemma {:induction false} EncryptStarts(
      prim: Primitives, input: seq<byte>, opts: Options, key: seq<byte>, random: seq<byte>)
    ensures HandlerEncrypt(prim, input, AES256CTR, opts, key, random).Ok? <==> |key| == 32 && NonceFits(opts)
  {
    StartsIff(prim, true, input, Options(opts.pub.(cipherType := AES256CTR), opts.priv.(symmetricKey := key)), random);
  }

  /** Decryption starts exactly with the right cipher type, key, nonce and an HMAC to check against. */
  lemma {:induction false} DecryptStarts(prim: Primitives, input: seq<byte>, opts: Options, random: seq<byte>)
    ensures HandlerDecrypt(prim, input, opts, random).Ok? <==>
      && opts.pub.cipherType == "AES_256_CTR_HMAC_SHA256" && |opts.priv.symmetricKey| == 32
      && NonceFits(opts) && |opts.pub.hmac| > 0
  {
    StartsIff(prim, false, input, opts, random);
  }

  /** The options left by encryption lead decryption to the same key and nonce. */
  lemma DecryptUsesSameNonce(
      prim: Primitives, input: seq<byte>, opts: Options, random: seq<byte>, hmac: seq<byte>, cipher: seq<byte>,
      random': seq<byte>)
    requires Setup(prim, true, input, opts, random).Ok? && |random| == NONCE_SIZE && hmac != []
    ensures var (s, o) := Setup(prim, true, input, opts, random).value;
            var started := Setup(prim, false, cipher, o.(pub := o.pub.(hmac := hmac)), random');
            started.Ok? && started.value.0 == Stream(false, s.key, s.nonce, 0, [], hmac, cipher)
  {
    var (s, o) := Setup(prim, true, input, opts, random).value;
    assert GetOpt(o.(pub := o.pub.(hmac := hmac)), "nonce") == Some(s.nonce);
  }

  /**
   Encrypting any plaintext to its end, finalizing the options and decrypting the ciphertext to its end gives
   the plaintext back and passes the HMAC check, for every pair of read schedules.
   */
  lemma {:induction false} RoundTrip(
      prim: Primitives, plain: seq<byte>, opts: Options, key: seq<byte>, random: seq<byte>, random': seq<byte>,
      schedE: seq<nat>, schedD: seq<nat>)
    requires |random| == 16 && |key| == 32 && NonceFits(opts)
    requires forall k, m :: |prim.hmac(k, m)| == 32
    requires Schedule(schedE, |plain|) && Schedule(schedD, |plain|)
    ensures HandlerEncrypt(prim, plain, AES256CTR, opts, key, random).Ok?
    ensures var (s, o) := HandlerEncrypt(prim, plain, AES256CTR, opts, key, random).value;
            var enc := Drain(prim, true, s, schedE);
            var final := Finalized(enc.stream, o);
            && enc.ok && |enc.out| == |plain|
            && final.pub.hmac == prim.hmac(key, enc.out)
            && HandlerDecrypt(prim, enc.out, final, random').Ok?
            && var dec := Drain(prim, false, HandlerDecrypt(prim, enc.out, final, random').value.0, schedD);
               dec.ok && dec.out == plain
  {
    EncryptStarts(prim, plain, opts, key, random);
    var (s, o) := HandlerEncrypt(prim, plain, AES256CTR, opts, key, random).value;
    DrainIsMask(prim, true, s, schedE);
    var enc := Drain(prim, true, s, schedE);
    assert [] + enc.out == enc.out;
    var o0 := Options(opts.pub.(cipherType := AES256CTR), opts.priv.(symmetricKey := key));
    DecryptUsesSameNonce(prim, plain, o0, random, enc.stream.expHmac, enc.out, random');
    var d := HandlerDecrypt(prim, enc.out, Finalized(enc.stream, o), random').value.0;
    DrainIsMask(prim, false, d, schedD);
    MaskTwice(prim, s.key, s.nonce, 0, plain);
  }

  /** An encryption cut short by an empty buffer goes unnoticed: it decrypts to what was taken and passes the check. */
  lemma {:induction false} TruncationIsSilent(
      prim: Primitives, plain: seq<byte>, opts: Options, key: seq<byte>, random: seq<byte>, random': seq<byte>,
      calls: seq<Call>, schedD: seq<nat>)
    requires |random| == 16 && |key| == 32 && NonceFits(opts)
    requires forall k, m :: |prim.hmac(k, m)| == 32
    requires ToFirstEmpty(calls, |plain|) && Schedule(schedD, Taken(calls))
    ensures HandlerEncrypt(prim, plain, AES256CTR, opts, key, random).Ok?
    ensures var (s, o) := HandlerEncrypt(prim, plain, AES256CTR, opts, key, random).value;
            var enc := ReadToEnd(prim, true, s, calls);
            var final := Finalized(enc.stream, o);
            && enc.ok && |enc.out| == Taken(calls) <= |plain|
            && HandlerDecrypt(prim, enc.out, final, random').Ok?
            && var dec := Drain(prim, false, HandlerDecrypt(prim, enc.out, final, random').value.0, schedD);
               dec.ok && dec.out == plain[..Taken(calls)]
  {
    EncryptStarts(prim, plain, opts, key, random);
    var (s, o) := HandlerEncrypt(prim, plain, AES256CTR, opts, key, random).value;
    ReadToEndMeans(prim, true, s, calls);
    var enc := ReadToEnd(prim, true, s, calls);
    assert [] + enc.out == enc.out;
    var o0 := Options(opts.pub.(cipherType := AES256CTR), opts.priv.(symmetricKey := key));
    DecryptUsesSameNonce(prim, plain, o0, random, enc.stream.expHmac, enc.out, random');
    var d := HandlerDecrypt(prim, enc.out, Finalized(enc.stream, o), random').value.0;
    DrainIsMask(prim, false, d, schedD);
    MaskTwice(prim, s.key, s.nonce, 0, plain[..Taken(calls)]);
  }

  /** A reader that stops at the first error never completes a decryption whose HMAC differs. */
  lemma CompletedDecryptionIsAuthentic(
      prim: Primitives, cipher: seq<byte>, opts: Options, random: seq<byte>, sched: seq<nat>)
    requires opts.pub.cipherType == AES256CTR && |opts.priv.symmetricKey| == 32 && NonceFits(opts)
    requires |opts.pub.hmac| > 0
    requires Schedule(sched, |cipher|)
    ensures HandlerDecrypt(prim, cipher, opts, random).Ok?
    ensures var s := HandlerDecrypt(prim, cipher, opts, random).value.0;
            Drain(prim, false, s, sched).ok <==> prim.hmac(opts.priv.symmetricKey, cipher) == opts.pub.hmac
  {
    DecryptStarts(prim, cipher, opts, random);
    StartsIff(prim, false, cipher, opts, random);
    var s := HandlerDecrypt(prim, cipher, opts, random).value.0;
    DrainIsMask(prim, false, s, sched);
    assert [] + cipher == cipher;
  }
}
