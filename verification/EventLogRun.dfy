/**
 Runs of the attestation agent over its event log: start-up with recovery, appending, failing extends and
 restarts (attestation-agent/src/eventlog/mod.rs), with the PCR to register map of TDX.
 */
module EventLogRun {
  import opened Common
  import opened Text
  import opened EventLog

  /** `pcr_to_rtmr` */
  function PcrToRtmr(pcr: nat): nat {
    if pcr == 1 || pcr == 7 then 0
    else if 2 <= pcr <= 6 then 1
    else if 8 <= pcr <= 15 then 2
    else 3
  }

  /** The runtime register that a PCR is extended into: PCRs 1 and 7, 2 to 6, 8 to 15, and all others. */
  predicate Feeds(pcr: nat, register: nat) {
    || (register == 0 && (pcr == 1 || pcr == 7))
    || (register == 1 && (pcr == 2 || pcr == 3 || pcr == 4 || pcr == 5 || pcr == 6))
    || (register == 2 && 8 <= pcr <= 15)
    || (register == 3 && (pcr == 0 || pcr >= 16))
  }

  /** Every PCR feeds one register, and that is the one computed. */
  lemma {:induction false} FeedsOne(pcr: nat, register: nat)
    ensures Feeds(pcr, register) <==> register == PcrToRtmr(pcr)
  {}

  /** How far an operation gets: reading the register, opening or appending to the file and extending may each fail. */
  datatype Io = ReadFails | AppendFails | ExtendFails | AllDone

  /** The log file's lines, the log's register, and whether an agent is running on them. */
  datatype World = World(lines: Option<seq<string>>, register: seq<byte>, live: bool)

  /** `extend_entry`: first the file, then the register. A failed extend ends the run. */
  function Appended(h: Hashing, alg: HashAlgorithm, w: World, line: string, io: Io): World
    requires w.lines.Some?
  {
    match io
    case ReadFails => w
    case AppendFails => w
    case ExtendFails => w.(lines := Some(w.lines.value + [line]), live := false)
    case AllDone =>
      w.(lines := Some(w.lines.value + [line]), register := Extend(h, alg, w.register, LineDigest(h, alg, line)))
  }

  /** The text whose digest start-up extends by when log and register disagree. */
  function Redone(log: Log): string {
    if log.events == [] then InitText(log.alg, PadLeft(HexEncode(log.initState), DigestLen(log.alg))) else log.events[0]
  }

  /** How a log file was opened: `File::open` gives a handle that only reads. */
  datatype Mode = ReadOnly | Writing

  /** `extend_init_entry` on a file just opened. Writing through a handle that only reads fails. */
  function InitWritten(h: Hashing, alg: HashAlgorithm, w: World, mode: Mode, io: Io): World
    requires w.lines.Some?
  {
    if io.ReadFails? || io.AppendFails? || mode.ReadOnly? then w.(live := false)
    else Appended(h, alg, w.(live := true), InitLine(alg, w.register), io)
  }

  /** `EventLog::new`: a missing file is created, an empty one opened with `File::open`, any other one to append. */
  function Started(h: Hashing, alg: HashAlgorithm, w: World, io: Io): World {
    match w.lines
    case None => InitWritten(h, alg, w.(lines := Some([])), Writing, io)
    case Some(lines) =>
      if lines == [] then InitWritten(h, alg, w, ReadOnly, io)
      else
        match FromStr(Written(lines))
        case Err => w.(live := false)
        case Ok(log) => Settled(h, alg, w, Replay(h, log), Redone(log), io)
  }

  /**
   Start-up on a parsed log that replays to `full`: agreement, or one more extend, and then the file is opened to
   append, which may fail with the register already extended.
   */
  function Settled(h: Hashing, alg: HashAlgorithm, w: World, full: seq<byte>, redone: string, io: Io): World {
    if io.ReadFails? || (w.register != full && io.ExtendFails?) then w.(live := false)
    else if w.register == full then w.(live := !io.AppendFails?)
    else World(w.lines, Extend(h, alg, w.register, LineDigest(h, alg, redone)), !io.AppendFails?)
  }

  /** The agent's event log over the machine's measurement registers. */
  class Agent {
    var lines: Option<seq<string>>
    var registers: seq<seq<byte>>
    var live: bool
    const alg: HashAlgorithm
    const pcr: nat

    constructor (alg: HashAlgorithm, pcr: nat, lines: Option<seq<string>>, registers: seq<seq<byte>>)
      requires |registers| == 4
      ensures this.alg == alg && this.pcr == pcr && this.lines == lines && this.registers == registers && !live
    {
      this.alg, this.pcr, this.lines, this.registers, live := alg, pcr, lines, registers, false;
    }

    ghost predicate Valid() reads this { |registers| == 4 }

    function View(): World
      requires Valid()
      reads this
    {
      World(lines, registers[PcrToRtmr(pcr)], live)
    }

    /** The agent's default PCR is 17; its log then goes with the last register. */
    lemma DefaultRegister()
      requires Valid() && pcr == 17
      ensures View().register == registers[3]
    {}

    method ExtendRegister(h: Hashing, digest: seq<byte>, to: nat)
      requires Valid()
      modifies this`registers
      ensures registers == old(registers)[PcrToRtmr(to) := Extend(h, alg, old(registers)[PcrToRtmr(to)], digest)]
    {
      var r := PcrToRtmr(to);
      registers := registers[r := Extend(h, alg, registers[r], digest)];
    }

    method ExtendEntry(h: Hashing, entry: LogEntry, to: nat, io: Io) returns (ok: bool)
      requires Valid() && lines.Some? && live
      modifies this
      ensures Valid() && ok == io.AllDone?
      ensures PcrToRtmr(to) == PcrToRtmr(pcr) ==> View() == Appended(h, alg, old(View()), Display(entry), io)
      ensures forall r :: 0 <= r < 4 && !Feeds(to, r) ==> registers[r] == old(registers)[r]
      ensures forall r :: 0 <= r < 4 && Feeds(to, r) && ok ==>
        registers[r] == Extend(h, alg, old(registers)[r], LineDigest(h, alg, Display(entry)))
      ensures !ok ==> registers == old(registers)
      ensures lines == if io.ReadFails? || io.AppendFails? then old(lines)
        else Some(old(lines).value + [Display(entry)])
    {
      forall r ensures Feeds(to, r) <==> r == PcrToRtmr(to) { FeedsOne(to, r); }
      var digest := LineDigest(h, alg, Display(entry));
      if io.ReadFails? || io.AppendFails? { return false; }
      lines := Some(lines.value + [Display(entry)]);
      if io.ExtendFails? { live := false; return false; }
      ExtendRegister(h, digest, to);
      ok := true;
    }

    /** `extend_init_entry` */
    method ExtendInitEntry(h: Hashing, mode: Mode, io: Io) returns (ok: bool)
      requires Valid() && lines.Some?
      modifies this
      ensures Valid() && View() == InitWritten(h, alg, old(View()), mode, io)
      ensures ok <==> live
      ensures lines ==
        if io.ReadFails? || io.AppendFails? || mode.ReadOnly? then old(lines)
        else Some(old(lines).value + [InitLine(alg, old(registers)[PcrToRtmr(pcr)])])
    {
      live := false;
      if io.ReadFails? { return false; }
      var line := InitLine(alg, registers[PcrToRtmr(pcr)]);
      if io.AppendFails? || mode.ReadOnly? { return false; }
      lines := Some(lines.value + [line]);
      if io.ExtendFails? { return false; }
      ExtendRegister(h, LineDigest(h, alg, line), pcr);
      live := true;
      ok := true;
    }

    method Start(h: Hashing, io: Io) returns (ok: bool)
      requires Valid()
      modifies this
      ensures Valid() && View() == Started(h, alg, old(View()), io)
      ensures ok <==> live
    {
      if lines.None? {
        lines := Some([]);
        ok := ExtendInitEntry(h, Writing, io);
        return;
      }
      if lines.value == [] {
        ok := ExtendInitEntry(h, ReadOnly, io);
        return;
      }
      live := false;
      var parsed := FromStr(Written(lines.value));
      if parsed.Err? || io.ReadFails? { return false; }
      var consistent := IntegrityCheck(h, parsed.value, registers[PcrToRtmr(pcr)]);
      if !consistent {
        if io.ExtendFails? { return false; }
        ExtendRegister(h, LineDigest(h, alg, Redone(parsed.value)), pcr);
      }
      if io.AppendFails? { return false; }
      live := true;
      ok := true;
    }
  }

  // ---------------------------------------------------------------- the write-ahead invariant

  /** A log that parses to what was written. */
  ghost predicate Parseable(alg: HashAlgorithm, base: seq<byte>, lines: seq<string>) {
    lines != [] && lines[0] == InitLine(alg, base) && DigestLen(alg) <= 2 * |base|
    && forall i :: 1 <= i < |lines| ==> Clean(lines[i])
  }

  /** The last line is what start-up would redo: the INIT line alone, or an event equal to the first. */
  predicate LastIsRedone(lines: seq<string>) {
    lines != [] && (|lines| == 1 || lines[|lines| - 1] == lines[1])
  }

  lemma {:induction false} ParsedLines(h: Hashing, alg: HashAlgorithm, base: seq<byte>, lines: seq<string>)
    requires Parseable(alg, base, lines)
    ensures FromStr(Written(lines)) == Ok(Log(alg, base, lines[1..]))
    ensures Replay(h, Log(alg, base, lines[1..])) == Chain(h, alg, base, lines)
  {
    var events := lines[1..];
    assert lines == [InitLine(alg, base)] + events;
    forall i | 0 <= i < |events| ensures Clean(events[i]) { assert events[i] == lines[i + 1]; }
    ParseGivesLogIff(alg, base, events);
  }

  lemma {:induction false} RedoneIsLast(alg: HashAlgorithm, base: seq<byte>, lines: seq<string>)
    requires lines != [] && lines[0] == InitLine(alg, base)
    ensures Redone(Log(alg, base, lines[1..])) == lines[|lines| - 1] <==> LastIsRedone(lines)
  {
    if |lines| > 1 { assert lines[1..][0] == lines[1]; }
  }

  lemma AppendChain(h: Hashing, alg: HashAlgorithm, base: seq<byte>, lines: seq<string>, line: string)
    ensures Chain(h, alg, base, lines + [line]) == Extend(h, alg, Chain(h, alg, base, lines), LineDigest(h, alg, line))
  {
    assert (lines + [line])[..|lines|] == lines;
  }

  /**
   The world with its history: the register value with which the log was begun, and whether the extend of the last
   line was lost.
   */
  datatype State = State(w: World, base: seq<byte>, lost: bool)

  datatype Action = Append(line: string, io: Io) | Start(io: Io)

  predicate Enabled(s: State, a: Action) { a.Append? ==> s.w.live && s.w.lines.Some? }

  function After(h: Hashing, alg: HashAlgorithm, s: State, a: Action): State
    requires Enabled(s, a)
  {
    match a
    case Append(line, io) => State(Appended(h, alg, s.w, line, io), s.base, s.lost || io.ExtendFails?)
    case Start(io) =>
      var w := Started(h, alg, s.w, io);
      if s.w.lines.None? then State(w, s.w.register, io.ExtendFails?)
      else State(w, s.base, s.lost && !w.live && w.register == s.w.register)
  }

  ghost predicate Run(h: Hashing, alg: HashAlgorithm, states: seq<State>, actions: seq<Action>) {
    && |states| == |actions| + 1 && states[0].w.lines == None && !states[0].w.live
    && forall i :: 0 <= i < |actions| ==>
      Enabled(states[i], actions[i]) && states[i + 1] == After(h, alg, states[i], actions[i])
  }

  /** What the register is: the replay of the log, without its last line if that line's extend was lost. */
  function Reached(h: Hashing, alg: HashAlgorithm, base: seq<byte>, lines: seq<string>, lost: bool): seq<byte>
    requires lines != []
  {
    if lost then Chain(h, alg, base, lines[..|lines| - 1]) else Chain(h, alg, base, lines)
  }

  ghost predicate Ahead(h: Hashing, alg: HashAlgorithm, s: State) {
    && (s.w.live ==> !s.lost && s.w.lines.Some? && s.w.lines.value != [])
    && (s.w.lines.Some? && s.w.lines.value != [] ==>
          var lines := s.w.lines.value;
          && lines[0] == InitLine(alg, s.base)
          && s.w.register == Reached(h, alg, s.base, lines, s.lost))
  }

  /** The starts the code covers: the lines parse to what was written, and a lost line is one that start-up redoes. */
  ghost predicate Covered(alg: HashAlgorithm, s: State, a: Action) {
    a.Start? && s.w.lines.Some? && s.w.lines.value != [] ==>
      Parseable(alg, s.base, s.w.lines.value) && (s.lost ==> LastIsRedone(s.w.lines.value))
  }

  lemma {:induction false} AppendKeepsAhead(h: Hashing, alg: HashAlgorithm, s: State, a: Action)
    requires Enabled(s, a) && a.Append? && Ahead(h, alg, s)
    ensures Ahead(h, alg, After(h, alg, s, a))
  {
    var lines := s.w.lines.value;
    AppendChain(h, alg, s.base, lines, a.line);
    assert (lines + [a.line])[..|lines|] == lines && (lines + [a.line])[0] == lines[0];
  }

  lemma {:induction false} FirstStartIsAhead(h: Hashing, alg: HashAlgorithm, s: State, a: Action)
    requires a.Start? && s.w.lines == None
    ensures Ahead(h, alg, After(h, alg, s, a))
  {
    var line := InitLine(alg, s.w.register);
    AppendChain(h, alg, s.w.register, [], line);
    assert [] + [line] == [line] && [line][..0] == [];
  }

  lemma {:induction false} StartedWhenParsed(h: Hashing, alg: HashAlgorithm, w: World, io: Io, log: Log)
    requires w.lines.Some? && w.lines.value != [] && FromStr(Written(w.lines.value)) == Ok(log)
    ensures Started(h, alg, w, io) == Settled(h, alg, w, Replay(h, log), Redone(log), io)
  {}

  /** On a parseable log, start-up settles the register against the chain of the lines. */
  lemma {:induction false} StartedWhenParseable(
      h: Hashing, alg: HashAlgorithm, w: World, io: Io, base: seq<byte>) returns (redone: string)
    requires w.lines.Some? && Parseable(alg, base, w.lines.value)
    ensures Started(h, alg, w, io) == Settled(h, alg, w, Chain(h, alg, base, w.lines.value), redone, io)
    ensures redone == w.lines.value[|w.lines.value| - 1] <==> LastIsRedone(w.lines.value)
    ensures redone == Redone(Log(alg, base, w.lines.value[1..]))
  {
    var log := Log(alg, base, w.lines.value[1..]);
    ParsedLines(h, alg, base, w.lines.value);
    StartedWhenParsed(h, alg, w, io, log);
    RedoneIsLast(alg, base, w.lines.value);
    redone := Redone(log);
  }

  lemma {:induction false} LostIsOneExtend(h: Hashing, alg: HashAlgorithm, base: seq<byte>, lines: seq<string>)
    requires lines != []
    ensures Extend(h, alg, Reached(h, alg, base, lines, true), LineDigest(h, alg, lines[|lines| - 1])) ==
      Reached(h, alg, base, lines, false)
  {
    var n := |lines| - 1;
    assert lines == lines[..n] + [lines[n]];
    AppendChain(h, alg, base, lines[..n], lines[n]);
  }

  lemma {:induction false} SettledKeepsAhead(
      h: Hashing, alg: HashAlgorithm, s: State, full: seq<byte>, redone: string, io: Io)
    requires s.w.lines.Some? && s.w.lines.value != [] && Ahead(h, alg, s)
    requires full == Reached(h, alg, s.base, s.w.lines.value, false)
    requires s.lost ==> redone == s.w.lines.value[|s.w.lines.value| - 1]
    ensures var w := Settled(h, alg, s.w, full, redone, io);
      && Ahead(h, alg, State(w, s.base, s.lost && !w.live && w.register == s.w.register))
      && (io.AllDone? ==> w.live && w.register == full)
  {
    LostIsOneExtend(h, alg, s.base, s.w.lines.value);
  }

  /** A covered restart keeps the invariant; if nothing fails, register and log then agree. */
  lemma {:induction false} RestartKeepsAhead(h: Hashing, alg: HashAlgorithm, s: State, a: Action)
    requires a.Start? && s.w.lines.Some? && s.w.lines.value != [] && Ahead(h, alg, s) && Covered(alg, s, a)
    ensures var s' := After(h, alg, s, a);
      && Ahead(h, alg, s')
      && (a.io.AllDone? ==> s'.w.live && s'.w.register == Chain(h, alg, s.base, s.w.lines.value))
  {
    var redone := StartedWhenParseable(h, alg, s.w, a.io, s.base);
    SettledKeepsAhead(h, alg, s, Chain(h, alg, s.base, s.w.lines.value), redone, a.io);
  }

  lemma {:induction false} StepKeepsAhead(h: Hashing, alg: HashAlgorithm, s: State, a: Action)
    requires Enabled(s, a) && Ahead(h, alg, s) && Covered(alg, s, a)
    ensures Ahead(h, alg, After(h, alg, s, a))
  {
    if a.Append? {
      AppendKeepsAhead(h, alg, s, a);
    } else if s.w.lines.None? {
      FirstStartIsAhead(h, alg, s, a);
    } else if s.w.lines.value != [] {
      RestartKeepsAhead(h, alg, s, a);
    }
  }

  /**
   In every state of every run whose restarts are covered, the register is the replay of the log or, after a lost
   extend, of the log without its last line.
   */
  lemma {:induction false} CoveredRunIsWriteAhead(
      h: Hashing, alg: HashAlgorithm, states: seq<State>, actions: seq<Action>, k: nat)
    requires Run(h, alg, states, actions) && k < |states|
    requires forall i :: 0 <= i < k ==> Covered(alg, states[i], actions[i])
    ensures Ahead(h, alg, states[k])
  {
    if k > 0 {
      CoveredRunIsWriteAhead(h, alg, states, actions, k - 1);
      StepKeepsAhead(h, alg, states[k - 1], actions[k - 1]);
    }
  }

  /** When a start ends with a running agent: everything that it has to do works, and there is no empty log. */
  lemma {:induction false} StartsIff(h: Hashing, alg: HashAlgorithm, w: World, io: Io)
    ensures w.lines == None ==> (Started(h, alg, w, io).live <==> io.AllDone?)
    ensures w.lines.Some? && w.lines.value == [] ==> !Started(h, alg, w, io).live
    ensures w.lines.Some? && w.lines.value != [] ==>
      var parsed := FromStr(Written(w.lines.value));
      Started(h, alg, w, io).live <==>
        && parsed.Ok? && !io.ReadFails? && !io.AppendFails?
        && (io.ExtendFails? ==> w.register == Replay(h, parsed.value))
  {}

  // ---------------------------------------------------------------- the empty log

  /** A first start leaves an empty file exactly when it cannot read the register or cannot write. */
  lemma {:induction false} FirstStartLeavesEmptyIff(h: Hashing, alg: HashAlgorithm, w: World, io: Io)
    requires w.lines == None
    ensures Started(h, alg, w, io).lines == Some([]) <==> io.ReadFails? || io.AppendFails?
  {}

  predicate Idle(w: World) { w.lines == Some([]) || w.lines == None ==> !w.live }

  lemma {:induction false} StepKeepsIdle(h: Hashing, alg: HashAlgorithm, s: State, a: Action)
    requires Enabled(s, a) && Idle(s.w)
    ensures Idle(After(h, alg, s, a).w)
    ensures s.w.lines == Some([]) ==> After(h, alg, s, a).w == s.w
  {}

  lemma {:induction false} EmptyLogIsIdle(
      h: Hashing, alg: HashAlgorithm, states: seq<State>, actions: seq<Action>, k: nat)
    requires Run(h, alg, states, actions) && k < |states|
    ensures Idle(states[k].w)
  {
    if k > 0 {
      EmptyLogIsIdle(h, alg, states, actions, k - 1);
      StepKeepsIdle(h, alg, states[k - 1], actions[k - 1]);
    }
  }

  /** An empty log stays empty and unused for ever: no later start succeeds, whatever works or fails. */
  lemma {:induction false} EmptyLogIsForever(
      h: Hashing, alg: HashAlgorithm, states: seq<State>, actions: seq<Action>, k: nat, l: nat)
    requires Run(h, alg, states, actions) && k <= l < |states| && states[k].w.lines == Some([])
    ensures states[l].w == states[k].w && !states[l].w.live
  {
    EmptyLogIsIdle(h, alg, states, actions, k);
    if k < l {
      EmptyLogIsForever(h, alg, states, actions, k, l - 1);
      StepKeepsIdle(h, alg, states[l - 1], actions[l - 1]);
    }
  }

  // ---------------------------------------------------------------- hashing without collisions

  ghost predicate NoCollision(h: Hashing, alg: HashAlgorithm, inputs: set<seq<byte>>) {
    forall x, y :: x in inputs && y in inputs && h.digest(alg, x) == h.digest(alg, y) ==> x == y
  }

  /** Everything hashed while the lines are chained. */
  function HashedBy(h: Hashing, alg: HashAlgorithm, base: seq<byte>, lines: seq<string>): set<seq<byte>> {
    if lines == [] then {}
    else
      var n := |lines| - 1;
      HashedBy(h, alg, base, lines[..n])
      + {h.utf8(lines[n]), Chain(h, alg, base, lines[..n]) + LineDigest(h, alg, lines[n])}
  }

  ghost predicate FixedLength(h: Hashing, alg: HashAlgorithm) { forall x :: |h.digest(alg, x)| == DigestLen(alg) }

  ghost predicate Utf8Injective(h: Hashing) { forall s, t :: h.utf8(s) == h.utf8(t) ==> s == t }

  lemma SuffixSplit(a: seq<byte>, b: seq<byte>, c: seq<byte>, d: seq<byte>)
    requires a + b == c + d && |b| == |d|
    ensures a == c && b == d
  {
    assert |a| == |c|;
    assert a == (a + b)[..|a|] && c == (c + d)[..|c|];
    assert b == (a + b)[|a|..] && d == (c + d)[|c|..];
  }

  /** Equal chains end in the same line and were equal before it. */
  lemma {:induction false} LastLinesAgree(
      h: Hashing, alg: HashAlgorithm, a: seq<byte>, xs: seq<string>, b: seq<byte>, ys: seq<string>)
    requires xs != [] && ys != [] && Chain(h, alg, a, xs) == Chain(h, alg, b, ys) && FixedLength(h, alg)
    requires Utf8Injective(h)
    requires NoCollision(h, alg, HashedBy(h, alg, a, xs) + HashedBy(h, alg, b, ys))
    ensures var m, n := |xs| - 1, |ys| - 1; xs[m] == ys[n] && Chain(h, alg, a, xs[..m]) == Chain(h, alg, b, ys[..n])
  {
    var m, n := |xs| - 1, |ys| - 1;
    var dx, dy := LineDigest(h, alg, xs[m]), LineDigest(h, alg, ys[n]);
    var cx, cy := Chain(h, alg, a, xs[..m]), Chain(h, alg, b, ys[..n]);
    assert cx + dx in HashedBy(h, alg, a, xs) && cy + dy in HashedBy(h, alg, b, ys);
    SuffixSplit(cx, dx, cy, dy);
    assert h.utf8(xs[m]) in HashedBy(h, alg, a, xs) && h.utf8(ys[n]) in HashedBy(h, alg, b, ys);
  }

  /** Equal chains of equal length come from the same start and the same lines, if nothing hashed collides. */
  lemma {:induction false} ChainInjective(
      h: Hashing, alg: HashAlgorithm, a: seq<byte>, xs: seq<string>, b: seq<byte>, ys: seq<string>)
    requires |xs| == |ys| && Chain(h, alg, a, xs) == Chain(h, alg, b, ys)
    requires FixedLength(h, alg) && Utf8Injective(h)
    requires NoCollision(h, alg, HashedBy(h, alg, a, xs) + HashedBy(h, alg, b, ys))
    ensures a == b && xs == ys
  {
    if xs != [] {
      var n := |xs| - 1;
      LastLinesAgree(h, alg, a, xs, b, ys);
      ChainInjective(h, alg, a, xs[..n], b, ys[..n]);
      assert xs == xs[..n] + [xs[n]] && ys == ys[..n] + [ys[n]];
    }
  }

  /** A register accepts one log of a given algorithm and length. */
  lemma {:induction false} IntegrityIsUnique(h: Hashing, a: Log, b: Log, register: seq<byte>)
    requires a.alg == b.alg && |a.events| == |b.events|
    requires register == Replay(h, a) && register == Replay(h, b)
    requires FixedLength(h, a.alg) && Utf8Injective(h)
    requires NoCollision(h, a.alg,
      HashedBy(h, a.alg, a.initState, ReplayLines(a)) + HashedBy(h, a.alg, b.initState, ReplayLines(b)))
    ensures a == b
  {
    ChainInjective(h, a.alg, a.initState, ReplayLines(a), b.initState, ReplayLines(b));
    assert ReplayLines(a)[1..] == a.events && ReplayLines(b)[1..] == b.events;
  }

  /** After a lost extend, start-up restores agreement exactly when the lost line is the one it redoes. */
  lemma {:induction false} RecoveryRestoresIff(h: Hashing, alg: HashAlgorithm, w: World, base: seq<byte>)
    requires w.lines.Some? && Parseable(alg, base, w.lines.value)
    requires w.register == Chain(h, alg, base, w.lines.value[..|w.lines.value| - 1])
    requires w.register != Chain(h, alg, base, w.lines.value)
    requires FixedLength(h, alg) && Utf8Injective(h)
    requires var lines := w.lines.value; var redone := Redone(Log(alg, base, lines[1..]));
             NoCollision(h, alg, HashedBy(h, alg, base, lines)
               + {h.utf8(redone), w.register + LineDigest(h, alg, redone)})
    ensures Started(h, alg, w, AllDone).register == Chain(h, alg, base, w.lines.value) <==> LastIsRedone(w.lines.value)
  {
    var redone := StartedWhenParseable(h, alg, w, AllDone, base);
    SameExtendSameLine(h, alg, base, w.lines.value, redone);
  }

  /** Extending by another line than the last gives another register, if nothing hashed collides. */
  lemma {:induction false} SameExtendSameLine(
      h: Hashing, alg: HashAlgorithm, base: seq<byte>, lines: seq<string>, other: string)
    requires lines != [] && FixedLength(h, alg) && Utf8Injective(h)
    requires var before := Chain(h, alg, base, lines[..|lines| - 1]);
             NoCollision(h, alg, HashedBy(h, alg, base, lines) + {h.utf8(other), before + LineDigest(h, alg, other)})
    ensures var before := Chain(h, alg, base, lines[..|lines| - 1]);
      Extend(h, alg, before, LineDigest(h, alg, other)) == Chain(h, alg, base, lines) <==> other == lines[|lines| - 1]
  {
    var n := |lines| - 1;
    var before := Chain(h, alg, base, lines[..n]);
    var d, dl := LineDigest(h, alg, other), LineDigest(h, alg, lines[n]);
    assert before + dl in HashedBy(h, alg, base, lines) && h.utf8(lines[n]) in HashedBy(h, alg, base, lines);
    if Extend(h, alg, before, d) == Chain(h, alg, base, lines) {
      SuffixSplit(before, d, before, dl);
    }
  }

  // ---------------------------------------------------------------- restarts on a log that agrees

  /** No value reached while the lines are chained is the given start value. */
  ghost predicate Unreached(h: Hashing, alg: HashAlgorithm, start: seq<byte>, base: seq<byte>, lines: seq<string>) {
    forall k :: 0 < k <= |lines| ==> Chain(h, alg, base, lines[..k]) != start
  }

  lemma {:induction false} UnreachedBefore(
      h: Hashing, alg: HashAlgorithm, start: seq<byte>, base: seq<byte>, lines: seq<string>, n: nat)
    requires Unreached(h, alg, start, base, lines) && n <= |lines|
    ensures Unreached(h, alg, start, base, lines[..n])
  {
    forall k | 0 < k <= n ensures Chain(h, alg, base, lines[..n][..k]) != start {
      assert lines[..n][..k] == lines[..k];
    }
  }

  /** Equal chains of any lengths come from the same lines, if neither reaches the other's start. */
  lemma {:induction false} ChainInjectiveAny(
      h: Hashing, alg: HashAlgorithm, a: seq<byte>, xs: seq<string>, b: seq<byte>, ys: seq<string>)
    requires Chain(h, alg, a, xs) == Chain(h, alg, b, ys) && FixedLength(h, alg) && Utf8Injective(h)
    requires NoCollision(h, alg, HashedBy(h, alg, a, xs) + HashedBy(h, alg, b, ys))
    requires Unreached(h, alg, a, b, ys) && Unreached(h, alg, b, a, xs)
    ensures a == b && xs == ys
  {
    if xs == [] || ys == [] {
      assert xs[..|xs|] == xs && ys[..|ys|] == ys;
    } else {
      var m, n := |xs| - 1, |ys| - 1;
      LastLinesAgree(h, alg, a, xs, b, ys);
      UnreachedBefore(h, alg, a, b, ys, n);
      UnreachedBefore(h, alg, b, a, xs, m);
      ChainInjectiveAny(h, alg, a, xs[..m], b, ys[..n]);
      assert xs == xs[..m] + [xs[m]] && ys == ys[..n] + [ys[n]];
    }
  }

  /** What is asked of hashing to tell a log from what it parses to. */
  ghost predicate Tells(h: Hashing, alg: HashAlgorithm, base: seq<byte>, lines: seq<string>, log: Log) {
    && FixedLength(h, alg) && Utf8Injective(h)
    && NoCollision(h, alg, HashedBy(h, alg, log.initState, ReplayLines(log)) + HashedBy(h, alg, base, lines))
    && Unreached(h, alg, log.initState, base, lines) && Unreached(h, alg, base, log.initState, ReplayLines(log))
    && Extend(h, alg, Chain(h, alg, base, lines), LineDigest(h, alg, Redone(log))) != Chain(h, alg, base, lines)
  }

  /** A log of this code that parses has its algorithm; it parses to what was written exactly when it is parseable. */
  lemma {:induction false} ParsedIff(alg: HashAlgorithm, base: seq<byte>, lines: seq<string>, log: Log)
    requires lines != [] && lines[0] == InitLine(alg, base) && FromStr(Written(lines)) == Ok(log)
    ensures log.alg == alg
    ensures log.initState == base && log.events == lines[1..] <==> Parseable(alg, base, lines)
  {
    var events := lines[1..];
    assert lines == [InitLine(alg, base)] + events;
    ParseWritten(alg, base, Written(events));
    ParseGivesLogIff(alg, base, events);
    assert forall i :: 1 <= i < |lines| ==> lines[i] == events[i - 1];
    assert forall i :: 0 <= i < |events| ==> events[i] == lines[i + 1];
  }

  lemma {:induction false} ReplayTells(h: Hashing, alg: HashAlgorithm, base: seq<byte>, lines: seq<string>, log: Log)
    requires lines != [] && lines[0] == InitLine(alg, base) && log.alg == alg && Tells(h, alg, base, lines, log)
    ensures Replay(h, log) == Chain(h, alg, base, lines) ==> log.initState == base && log.events == lines[1..]
  {
    if Replay(h, log) == Chain(h, alg, base, lines) {
      ChainInjectiveAny(h, alg, log.initState, ReplayLines(log), base, lines);
      assert ReplayLines(log)[1..] == log.events;
    }
  }

  lemma {:induction false} ReplayAgreesIff(
      h: Hashing, alg: HashAlgorithm, base: seq<byte>, lines: seq<string>, log: Log)
    requires lines != [] && lines[0] == InitLine(alg, base) && FromStr(Written(lines)) == Ok(log)
    requires Tells(h, alg, base, lines, log)
    ensures Replay(h, log) == Chain(h, alg, base, lines) <==> Parseable(alg, base, lines)
  {
    ParsedIff(alg, base, lines, log);
    ReplayTells(h, alg, base, lines, log);
    if Parseable(alg, base, lines) {
      ParsedLines(h, alg, base, lines);
    }
  }

  lemma {:induction false} SettledKeepsIff(
      h: Hashing, alg: HashAlgorithm, w: World, full: seq<byte>, redone: string, after: World)
    requires after == Settled(h, alg, w, full, redone, AllDone)
    requires Extend(h, alg, w.register, LineDigest(h, alg, redone)) != w.register
    ensures after.register == w.register <==> w.register == full
    ensures w.register != full ==> after == World(w.lines, Extend(h, alg, w.register, LineDigest(h, alg, redone)), true)
  {}

  /** The log that the lines of a file begun by this code parse to. */
  function Parsed(lines: seq<string>): Log {
    var r := FromStr(Written(lines));
    if r.Ok? then r.value else Log(Sha256, [], [])
  }

  lemma {:induction false} OwnLogParses(alg: HashAlgorithm, base: seq<byte>, lines: seq<string>)
    requires lines != [] && lines[0] == InitLine(alg, base)
    ensures FromStr(Written(lines)) == Ok(Parsed(lines))
  {
    ParseWritten(alg, base, Written(lines[1..]));
  }

  /**
   A start on a log that its register agrees with keeps the register exactly when the log parses to what was written;
   otherwise it extends the register a second time though nothing was lost.
   */
  lemma {:induction false} AgreeingStartKeepsIff(h: Hashing, alg: HashAlgorithm, w: World, base: seq<byte>)
    requires w.lines.Some? && w.lines.value != [] && w.lines.value[0] == InitLine(alg, base)
    requires w.register == Chain(h, alg, base, w.lines.value)
    requires Tells(h, alg, base, w.lines.value, Parsed(w.lines.value))
    ensures Started(h, alg, w, AllDone).register == w.register <==> Parseable(alg, base, w.lines.value)
  {
    var log := Parsed(w.lines.value);
    OwnLogParses(alg, base, w.lines.value);
    ReplayAgreesIff(h, alg, base, w.lines.value, log);
    StartedWhenParsed(h, alg, w, AllDone, log);
    SettledKeepsIff(h, alg, w, Replay(h, log), Redone(log), Started(h, alg, w, AllDone));
  }

  /** An event with a trailing blank is read back without it. */
  lemma {:induction false} TrailingBlankIsLost(alg: HashAlgorithm, base: seq<byte>, event: string)
    requires Clean(event) && DigestLen(alg) <= 2 * |base|
    ensures FromStr(Written([InitLine(alg, base), event + " "])) == Ok(Log(alg, base, [event]))
    ensures !Clean(event + " ")
  {
    var line := event + " ";
    TrimBlank(event);
    OneLine(line);
    HexRoundTrip(base);
    assert [InitLine(alg, base), line][1..] == [line];
    ParseWritten(alg, base, Written([line]));
    assert EachTrimmed([line]) == [event];
  }

  lemma {:induction false} BegunWith(h: Hashing, alg: HashAlgorithm, s: State, line: string)
    requires s.w.lines == None
    ensures
      var s1 := After(h, alg, s, Start(AllDone));
      s1.w.live && s1.w.lines == Some([InitLine(alg, s.w.register)]) && s1.base == s.w.register &&
      var w := After(h, alg, s1, Append(line, AllDone)).w;
      w == World(Some([InitLine(alg, s.w.register), line]),
        Chain(h, alg, s.w.register, [InitLine(alg, s.w.register), line]), true)
  {
    var init := InitLine(alg, s.w.register);
    assert [] + [init] == [init] && [init] + [line] == [init, line];
    AppendChain(h, alg, s.w.register, [], init);
    AppendChain(h, alg, s.w.register, [init], line);
  }

  /**
   A run in which nothing fails: a first start, an event with a trailing blank and a restart. The restart extends the
   register by the event without the blank, so it no longer agrees with the log.
   */
  lemma {:induction false} TrailingBlankBreaksAgreement(h: Hashing, alg: HashAlgorithm, s: State, event: string)
    requires s.w.lines == None && DigestLen(alg) <= 2 * |s.w.register| && Clean(event)
    requires Tells(h, alg, s.w.register, [InitLine(alg, s.w.register), event + " "], Log(alg, s.w.register, [event]))
    ensures
      var s1 := After(h, alg, s, Start(AllDone));
      s1.w.live && s1.w.lines.Some? &&
      var w := After(h, alg, s1, Append(event + " ", AllDone)).w;
      var w' := Started(h, alg, w, AllDone);
      && w.lines == Some([InitLine(alg, s.w.register), event + " "])
      && w.register == Chain(h, alg, s.w.register, w.lines.value)
      && w' == World(w.lines, Extend(h, alg, w.register, LineDigest(h, alg, event)), true) && w'.register != w.register
  {
    var base, lines, log := s.w.register, [InitLine(alg, s.w.register), event + " "], Log(alg, s.w.register, [event]);
    BegunWith(h, alg, s, event + " ");
    TrailingBlankIsLost(alg, base, event);
    assert !Parseable(alg, base, lines) by { assert !Clean(lines[1]); }
    ReplayAgreesIff(h, alg, base, lines, log);
    var w := World(Some(lines), Chain(h, alg, base, lines), true);
    StartedWhenParsed(h, alg, w, AllDone, log);
    SettledKeepsIff(h, alg, w, Replay(h, log), Redone(log), Started(h, alg, w, AllDone));
  }

  /** `Content` lets such an event pass. */
  lemma {:induction false} TrailingBlankPasses()
    ensures Content("x ").Ok? && Display(Event("d", "o", "x ")) == "d o x" + " " && Clean("d o x")
  {}
}
