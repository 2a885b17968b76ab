/**
 The attestation agent's event log (attestation-agent/src/eventlog): a write-ahead text log whose lines are
 chained into a hardware measurement register, its parser, its replay and its start-up recovery.

 The hash functions and the text encoding are parameters.
 */
module EventLog {
  import opened Common
  import opened Text
  import LayerStore

  datatype HashAlgorithm = Sha256 | Sha384 | Sha512

  datatype Hashing = Hashing(digest: (HashAlgorithm, seq<byte>) -> seq<byte>, utf8: string -> seq<byte>)

  datatype LogEntry =
    | Event(domain: string, operation: string, content: string)
    | Init(alg: HashAlgorithm, value: string)

  /** The parsed log, `AAEventlog`. */
  datatype Log = Log(alg: HashAlgorithm, initState: seq<byte>, events: seq<string>)

  function AlgName(alg: HashAlgorithm): string {
    match alg
    case Sha256 => "sha256"
    case Sha384 => "sha384"
    case Sha512 => "sha512"
  }

  /** In bytes. */
  function DigestLen(alg: HashAlgorithm): nat {
    match alg
    case Sha256 => 32
    case Sha384 => 48
    case Sha512 => 64
  }

  /** An algorithm is named after the length of its digest in bits. */
  lemma {:induction false} NamedAfterLength(alg: HashAlgorithm)
    ensures |AlgName(alg)| == 6 && AlgName(alg)[..3] == "sha"
    ensures LayerStore.Digits(AlgName(alg)[3..]) == Some(8 * DigestLen(alg))
  {
    match alg
    case Sha256 => ThreeDigits('2', '5', '6');
    case Sha384 => ThreeDigits('3', '8', '4');
    case Sha512 => ThreeDigits('5', '1', '2');
  }

  lemma {:induction false} ThreeDigits(a: char, b: char, c: char)
    requires LayerStore.IsDigit(a) && LayerStore.IsDigit(b) && LayerStore.IsDigit(c)
    ensures LayerStore.Digits([a, b, c]) ==
      Some((a as int - '0' as int) * 100 + (b as int - '0' as int) * 10 + (c as int - '0' as int))
  {
    assert [a, b, c][..2] == [a, b] && [a, b][..1] == [a] && [a][..0] == [];
    assert LayerStore.Digits([a]) == Some(a as int - '0' as int);
    assert LayerStore.Digits([a, b]) == Some((a as int - '0' as int) * 10 + (b as int - '0' as int));
  }

  /** `Content::try_from`: only the content is checked for newlines. */
  function Content(value: string): Result<string> { if '\n' in value then Err else Ok(value) }

  function InitText(alg: HashAlgorithm, value: string): string { "INIT " + (AlgName(alg) + "/" + value) }

  function Display(e: LogEntry): string {
    match e
    case Event(domain, operation, content) => domain + " " + operation + " " + content
    case Init(alg, value) => InitText(alg, value)
  }

  /** `{:0>width$}` */
  function PadLeft(s: string, width: nat): (r: string)
    ensures |r| == if |s| < width then width else |s|
    decreases width - |s|
  {
    if |s| < width then PadLeft("0" + s, width) else s
  }

  /** The INIT line for a register value; the width is the digest's length in bytes, not in digits. */
  function InitLine(alg: HashAlgorithm, register: seq<byte>): string {
    InitText(alg, PadLeft(HexEncode(register), DigestLen(alg)))
  }

  /** A file to which `lines` were written. */
  function Written(lines: seq<string>): string {
    if lines == [] then "" else lines[0] + "\n" + Written(lines[1..])
  }

  // ---------------------------------------------------------------- parsing

  predicate IsAsciiSpace(c: char) { c == ' ' || c == '\t' || c == '\n' || c == '\r' || c as int == 12 }

  /** The Unicode White_Space property. */
  predicate IsSpace(c: char) {
    var u := c as int;
    9 <= u <= 13 || u == 32 || u == 0x85 || u == 0xA0 || u == 0x1680 || 0x2000 <= u <= 0x200A
    || u == 0x2028 || u == 0x2029 || u == 0x202F || u == 0x205F || u == 0x3000
  }

  function TrimEnd(s: string): string {
    if s != [] && IsSpace(s[|s| - 1]) then TrimEnd(s[..|s| - 1]) else s
  }

  function StripCr(s: string): string { if s != [] && s[|s| - 1] == '\r' then s[..|s| - 1] else s }

  function EachStripped(lines: seq<string>): (r: seq<string>)
    ensures |r| == |lines| && forall i :: 0 <= i < |r| ==> r[i] == StripCr(lines[i])
  {
    if lines == [] then [] else [StripCr(lines[0])] + EachStripped(lines[1..])
  }

  function EachTrimmed(lines: seq<string>): (r: seq<string>)
    ensures |r| == |lines| && forall i :: 0 <= i < |r| ==> r[i] == TrimEnd(lines[i])
  {
    if lines == [] then [] else [TrimEnd(lines[0])] + EachTrimmed(lines[1..])
  }

  /** `str::lines` */
  function Lines(s: string): seq<string> {
    var parts := SplitOn(s, '\n');
    var last := parts[|parts| - 1];
    EachStripped(parts[..|parts| - 1]) + if last == "" then [] else [last]
  }

  /** `str::split_ascii_whitespace` */
  function Words(s: string): (r: seq<string>)
    ensures s != [] && !IsAsciiSpace(s[0]) ==> r != []
  {
    if s == [] then []
    else if IsAsciiSpace(s[0]) then Words(s[1..])
    else if |s| == 1 || IsAsciiSpace(s[1]) then [[s[0]]] + Words(s[1..])
    else Onto(s[0], Words(s[1..]))
  }

  /** `str::split_once` */
  function SplitOnce(s: string, c: char): Option<(string, string)> {
    if s == [] then None
    else if s[0] == c then Some(("", s[1..]))
    else
      match SplitOnce(s[1..], c)
      case None => None
      case Some((a, b)) => Some(([s[0]] + a, b))
  }

  /** Without dashes, in lower case. */
  function Cleaned(s: string): string {
    if s == [] then []
    else if s[0] == '-' then Cleaned(s[1..])
    else [if 'A' <= s[0] <= 'Z' then (s[0] as int + 32) as char else s[0]] + Cleaned(s[1..])
  }

  function ParseAlgorithm(s: string): Result<HashAlgorithm> {
    var name := Cleaned(s);
    if name == "sha256" then Ok(Sha256)
    else if name == "sha384" then Ok(Sha384)
    else if name == "sha512" then Ok(Sha512)
    else Err
  }

  function ParseInit(line: string): Result<(HashAlgorithm, seq<byte>)> {
    var items := Words(line);
    if |items| != 2 || items[0] != "INIT" then Err
    else
      match SplitOnce(items[1], '/')
      case None => Err
      case Some((name, value)) =>
        var alg, state := ParseAlgorithm(name), HexDecode(value);
        if alg.Ok? && state.Ok? then Ok((alg.value, state.value)) else Err
  }

  /** `AAEventlog::from_str` */
  function FromStr(input: string): Result<Log> {
    var all := Lines(input);
    if all == [] then Err
    else
      match ParseInit(all[0])
      case Err => Err
      case Ok((alg, state)) => Ok(Log(alg, state, EachTrimmed(all[1..])))
  }

  // ---------------------------------------------------------------- replay

  function LineDigest(h: Hashing, alg: HashAlgorithm, line: string): seq<byte> { h.digest(alg, h.utf8(line)) }

  /** A measurement register extended by a digest. */
  function Extend(h: Hashing, alg: HashAlgorithm, register: seq<byte>, digest: seq<byte>): seq<byte> {
    h.digest(alg, register + digest)
  }

  /** The register after `base` was extended by every line. */
  function Chain(h: Hashing, alg: HashAlgorithm, base: seq<byte>, lines: seq<string>): seq<byte> {
    if lines == [] then base
    else
      var n := |lines| - 1;
      Extend(h, alg, Chain(h, alg, base, lines[..n]), LineDigest(h, alg, lines[n]))
  }

  function ReplayLines(log: Log): seq<string> { [InitText(log.alg, HexEncode(log.initState))] + log.events }

  function Replay(h: Hashing, log: Log): seq<byte> { Chain(h, log.alg, log.initState, ReplayLines(log)) }

  method AccumulateHash(h: Hashing, log: Log) returns (state: seq<byte>)
    ensures state == Replay(h, log)
  {
    ghost var lines := ReplayLines(log);
    var initHash := h.digest(log.alg, h.utf8(InitText(log.alg, HexEncode(log.initState))));
    state := h.digest(log.alg, log.initState + initHash);
    assert lines[..1][..0] == [];
    for i := 0 to |log.events|
      invariant state == Chain(h, log.alg, log.initState, lines[..i + 1])
    {
      var eventHash := h.digest(log.alg, h.utf8(log.events[i]));
      state := h.digest(log.alg, state + eventHash);
      assert lines[..i + 2][..i + 1] == lines[..i + 1];
    }
    assert lines[..|log.events| + 1] == lines;
  }

  method IntegrityCheck(h: Hashing, log: Log, register: seq<byte>) returns (ok: bool)
    ensures ok <==> register == Replay(h, log)
  {
    var result := AccumulateHash(h, log);
    ok := register == result;
  }

  // ---------------------------------------------------------------- what parsing a written log gives

  predicate Clean(line: string) { '\n' !in line && TrimEnd(line) == line }

  /** The content check is what keeps an event on one line, given a domain and an operation without newlines. */
  lemma {:induction false} ContentKeepsOneLine(domain: string, operation: string, content: string)
    requires '\n' !in domain && '\n' !in operation
    ensures Content(content).Ok? <==> '\n' !in Display(Event(domain, operation, content))
    ensures Content(content).Ok? ==> Content(content).value == content
  {
    var line := Display(Event(domain, operation, content));
    assert line == domain + " " + operation + " " + content;
    assert forall c :: c in line <==> c in domain || c in operation || c in content || c == ' ';
  }

  lemma {:induction false} TrimmedIsTrimmed(s: string)
    ensures TrimEnd(TrimEnd(s)) == TrimEnd(s)
    ensures forall c :: c !in s ==> c !in TrimEnd(s)
  {
    if s != [] && IsSpace(s[|s| - 1]) { TrimmedIsTrimmed(s[..|s| - 1]); }
  }

  lemma {:induction false} SplitWritten(lines: seq<string>)
    requires forall i :: 0 <= i < |lines| ==> '\n' !in lines[i]
    ensures SplitOn(Written(lines), '\n') == lines + [""]
  {
    if lines != [] {
      SplitWritten(lines[1..]);
      SplitWhole(lines[0], '\n');
      SplitAppend(lines[0], '\n', Written(lines[1..]));
      assert lines == [lines[0]] + lines[1..];
    }
  }

  /** Every line read is free of newlines. */
  lemma {:induction false} LinesHaveNoNewline(s: string, i: nat)
    requires i < |Lines(s)|
    ensures '\n' !in Lines(s)[i]
  {
    var parts := SplitOn(s, '\n');
    PartsHaveNoSeparator(s, '\n', i);
  }

  /** Parsed events are always clean. */
  lemma {:induction false} ParsedEventsAreClean(s: string, i: nat)
    requires FromStr(s).Ok? && i < |FromStr(s).value.events|
    ensures Clean(FromStr(s).value.events[i])
  {
    LinesHaveNoNewline(s, i + 1);
    TrimmedIsTrimmed(Lines(s)[1..][i]);
  }

  lemma {:induction false} FirstWord(t: string, rest: string)
    requires t != [] && (forall i :: 0 <= i < |t| ==> !IsAsciiSpace(t[i])) && (rest == [] || IsAsciiSpace(rest[0]))
    ensures Words(t + rest) == [t] + Words(rest)
    decreases |t|
  {
    assert (t + rest)[1..] == t[1..] + rest;
    if |t| > 1 {
      FirstWord(t[1..], rest);
      assert Onto(t[0], [t[1..]] + Words(rest)) == [[t[0]] + t[1..]] + Words(rest);
      assert [t[0]] + t[1..] == t;
    } else {
      assert t == [t[0]] && t[1..] + rest == rest;
    }
  }

  lemma {:induction false} SplitOnceAt(a: string, c: char, b: string)
    requires c !in a
    ensures SplitOnce(a + [c] + b, c) == Some((a, b))
    decreases |a|
  {
    var s := a + [c] + b;
    if a == [] {
      assert s == [c] + b;
    } else {
      assert s[1..] == a[1..] + [c] + b;
      SplitOnceAt(a[1..], c, b);
      assert a == [a[0]] + a[1..];
    }
  }

  predicate InName(c: char) { c != '-' && !('A' <= c <= 'Z') && !IsAsciiSpace(c) && c != '/' }

  lemma {:induction false} CleanedName(s: string)
    requires forall i :: 0 <= i < |s| ==> InName(s[i])
    ensures Cleaned(s) == s
  {
    if s != [] {
      assert InName(s[0]);
      CleanedName(s[1..]);
      assert s == [s[0]] + s[1..];
    }
  }

  lemma {:induction false} AlgorithmRoundTrip(alg: HashAlgorithm)
    ensures forall i :: 0 <= i < |AlgName(alg)| ==> InName(AlgName(alg)[i])
    ensures ParseAlgorithm(AlgName(alg)) == Ok(alg)
  {
    CleanedName(AlgName(alg));
  }

  lemma {:induction false} WordsOfInit(word: string)
    requires word != [] && forall i :: 0 <= i < |word| ==> !IsAsciiSpace(word[i])
    ensures Words("INIT " + word) == ["INIT", word]
  {
    var rest := " " + word;
    assert "INIT " + word == "INIT" + rest;
    FirstWord("INIT", rest);
    assert rest[1..] == word && word + [] == word;
    FirstWord(word, []);
  }

  /** An INIT line parses to its algorithm and to what its value decodes to. */
  lemma {:induction false} ParseInitText(alg: HashAlgorithm, value: string)
    requires forall i :: 0 <= i < |value| ==> IsHexDigit(value[i])
    ensures ParseInit(InitText(alg, value)) ==
            if HexDecode(value).Ok? then Ok((alg, HexDecode(value).value)) else Err
  {
    AlgorithmRoundTrip(alg);
    var name := AlgName(alg);
    var word := name + "/" + value;
    forall i | 0 <= i < |word| ensures !IsAsciiSpace(word[i]) {
      assert word[i] == if i < |name| then name[i] else if i == |name| then '/' else value[i - |name| - 1];
    }
    WordsOfInit(word);
    assert '/' !in name by { assert forall i :: 0 <= i < |name| ==> InName(name[i]); }
    SplitOnceAt(name, '/', value);
  }

  lemma {:induction false} InitTextIsOneLine(alg: HashAlgorithm, value: string)
    requires forall i :: 0 <= i < |value| ==> IsHexDigit(value[i])
    ensures '\n' !in InitText(alg, value)
  {
    AlgorithmRoundTrip(alg);
    var name := AlgName(alg);
    var line := InitText(alg, value);
    forall i | 0 <= i < |line| ensures line[i] != '\n' {
      if 5 <= i < 5 + |name| { assert line[i] == name[i - 5]; }
      if 6 + |name| <= i { assert line[i] == value[i - 6 - |name|]; }
    }
  }

  lemma {:induction false} PadLeftDigits(s: string, width: nat)
    requires forall i :: 0 <= i < |s| ==> IsHexDigit(s[i])
    ensures forall i :: 0 <= i < |PadLeft(s, width)| ==> IsHexDigit(PadLeft(s, width)[i])
    decreases width - |s|
  {
    if |s| < width { PadLeftDigits("0" + s, width); }
  }

  lemma {:induction false} LinesOfWritten(first: string, more: string)
    requires '\n' !in first && first != "" && first[|first| - 1] != '\r'
    ensures Lines(first + "\n" + more) == [first] + Lines(more)
  {
    SplitWhole(first, '\n');
    SplitAppend(first, '\n', more);
    var rest := SplitOn(more, '\n');
    assert SplitOn(first + "\n" + more, '\n') == [first] + rest;
    assert ([first] + rest)[..|rest|] == [first] + rest[..|rest| - 1];
    assert EachStripped([first] + rest[..|rest| - 1]) == [first] + EachStripped(rest[..|rest| - 1]);
  }

  lemma {:induction false} OneLine(line: string)
    requires '\n' !in line && line != "" && line[|line| - 1] != '\r'
    ensures Lines(Written([line])) == [line]
  {
    assert [line][1..] == [];
    LinesOfWritten(line, "");
    assert Written([line]) == line + "\n" + "";
    assert SplitOn("", '\n') == [""] && [""][..0] == [];
  }

  lemma {:induction false} TrimBlank(s: string)
    requires Clean(s)
    ensures TrimEnd(s + " ") == s && '\n' !in s + " "
  {
    assert (s + " ")[..|s|] == s;
  }

  /** The register value as padded in the INIT line, decoded again. */
  lemma {:induction false} PaddedDecodes(alg: HashAlgorithm, register: seq<byte>)
    ensures HexDecode(PadLeft(HexEncode(register), DigestLen(alg))).Ok?
  {
    PadLeftDigits(HexEncode(register), DigestLen(alg));
    DecodesIffHex(PadLeft(HexEncode(register), DigestLen(alg)));
  }

  lemma {:induction false} InitLineParses(alg: HashAlgorithm, register: seq<byte>)
    ensures var value, line := PadLeft(HexEncode(register), DigestLen(alg)), InitLine(alg, register);
            && HexDecode(value).Ok? && ParseInit(line) == Ok((alg, HexDecode(value).value))
            && '\n' !in line && line != "" && line[|line| - 1] != '\r'
  {
    var value := PadLeft(HexEncode(register), DigestLen(alg));
    PaddedDecodes(alg, register);
    PadLeftDigits(HexEncode(register), DigestLen(alg));
    ParseInitText(alg, value);
    var line := InitLine(alg, register);
    assert value != "" && line[|line| - 1] == value[|value| - 1];
    InitTextIsOneLine(alg, value);
  }

  /** A written log always parses; the events are its further lines as `lines` and `trim_end` see them. */
  lemma {:induction false} ParseWritten(alg: HashAlgorithm, register: seq<byte>, more: string)
    ensures var value := PadLeft(HexEncode(register), DigestLen(alg));
            && HexDecode(value).Ok?
            && FromStr(InitLine(alg, register) + "\n" + more) ==
              Ok(Log(alg, HexDecode(value).value, EachTrimmed(Lines(more))))
  {
    var line := InitLine(alg, register);
    InitLineParses(alg, register);
    LinesOfWritten(line, more);
    assert ([line] + Lines(more))[1..] == Lines(more);
  }

  lemma {:induction false} CleanEventsSurvive(events: seq<string>)
    requires forall i :: 0 <= i < |events| ==> Clean(events[i])
    ensures EachTrimmed(Lines(Written(events))) == events
  {
    SplitWritten(events);
    assert (events + [""])[..|events|] == events;
    var lines := Lines(Written(events));
    assert |lines| == |events|;
    forall i | 0 <= i < |events| ensures TrimEnd(lines[i]) == events[i] {
      StripClean(events[i]);
    }
  }

  lemma {:induction false} StripClean(s: string)
    requires Clean(s)
    ensures TrimEnd(StripCr(s)) == s
  {
    if s != [] && s[|s| - 1] == '\r' { TrimShortens(s); }
  }

  lemma {:induction false} TrimShortens(s: string)
    ensures |TrimEnd(s)| <= |s|
    ensures s != [] && IsSpace(s[|s| - 1]) ==> |TrimEnd(s)| < |s|
  {
    if s != [] && IsSpace(s[|s| - 1]) { TrimShortens(s[..|s| - 1]); }
  }

  /**
   Parsing a written log gives back its algorithm, initial state and events exactly when every entry has no
   newline and no trailing whitespace and the register value needed no zero padding.
   */
  lemma {:induction false} ParseGivesLogIff(alg: HashAlgorithm, register: seq<byte>, events: seq<string>)
    ensures FromStr(Written([InitLine(alg, register)] + events)) == Ok(Log(alg, register, events)) <==>
            DigestLen(alg) <= 2 * |register| && forall i :: 0 <= i < |events| ==> Clean(events[i])
  {
    var text := Written([InitLine(alg, register)] + events);
    assert ([InitLine(alg, register)] + events)[1..] == events;
    var value := PadLeft(HexEncode(register), DigestLen(alg));
    ParseWritten(alg, register, Written(events));
    HexRoundTrip(register);
    if DigestLen(alg) <= 2 * |register| && forall i :: 0 <= i < |events| ==> Clean(events[i]) {
      CleanEventsSurvive(events);
    }
    if FromStr(text) == Ok(Log(alg, register, events)) {
      HexDecodeLength(value);
      forall i | 0 <= i < |events| ensures Clean(events[i]) { ParsedEventsAreClean(text, i); }
    }
  }

  /** The lines hashed when a clean log is replayed are the lines that were written. */
  lemma {:induction false} ReplayIsChainOfWritten(
      h: Hashing, alg: HashAlgorithm, register: seq<byte>, events: seq<string>)
    requires DigestLen(alg) <= 2 * |register| && forall i :: 0 <= i < |events| ==> Clean(events[i])
    ensures FromStr(Written([InitLine(alg, register)] + events)).Ok?
    ensures Replay(h, FromStr(Written([InitLine(alg, register)] + events)).value)
            == Chain(h, alg, register, [InitLine(alg, register)] + events)
  {
    ParseGivesLogIff(alg, register, events);
  }
}
