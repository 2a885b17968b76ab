/**
 The shared-rootfs cache and bundle index on disk (image-rs/src/shared_rootfs.rs): file names, entries written under a
 reference and an id, pending markers, and prepares one after the other.

 A directory is a map from file names to contents. Serialising an entry and parsing it back gives the same entry;
 other contents do not parse.
 */
module RootfsCache {
  import opened Common

  // ---------------------------------------------------------------- names

  predicate IsSafe(c: char) {
    'a' <= c <= 'z' || 'A' <= c <= 'Z' || '0' <= c <= '9' || c == '.' || c == '-' || c == '_'
  }

  function SafeChar(c: char): char { if IsSafe(c) then c else '_' }

  function SafeChars(s: string): (r: string)
    ensures |r| == |s| && forall i :: 0 <= i < |s| ==> r[i] == SafeChar(s[i])
  {
    seq(|s|, i requires 0 <= i < |s| => SafeChar(s[i]))
  }

  function Sanitize(s: string): (r: string)
    ensures r != [] && forall i :: 0 <= i < |r| ==> IsSafe(r[i])
  {
    if s == [] then "image" else SafeChars(s)
  }

  method SanitizePathComponent(input: string) returns (out: string)
    ensures out == Sanitize(input)
  {
    out := [];
    for i := 0 to |input|
      invariant out == SafeChars(input[..i])
    {
      out := out + [if IsSafe(input[i]) then input[i] else '_'];
      assert out == SafeChars(input[..i + 1]);
    }
    assert input[..|input|] == input;
    if out == [] { out := "image"; }
  }

  /** By code point: digits, capital and small letters, and the three signs dash, dot and underscore stay. */
  predicate Stays(u: int) { 48 <= u <= 57 || 65 <= u <= 90 || 97 <= u <= 122 || u == 45 || u == 46 || u == 95 }

  /** All else becomes an underscore, and the empty name becomes "image". */
  lemma {:induction false} SanitizeMeans(s: string, i: nat)
    requires i < |s|
    ensures |Sanitize(s)| == |s| && Sanitize(s)[i] as int == if Stays(s[i] as int) then s[i] as int else 95
    ensures Sanitize([]) == "image"
  {
    assert '_' as int == 95 && IsSafe(s[i]) <==> Stays(s[i] as int);
  }

  const CACHE_SUFFIX := "json"
  const BUNDLE_SUFFIX := "bundle.json"
  const PENDING_SUFFIX := "pending"

  predicate IsIndexSuffix(suffix: string) { suffix == CACHE_SUFFIX || suffix == BUNDLE_SUFFIX }

  /** `cache_path` and `bundle_index_path`, within their directories. */
  function FileName(key: string, suffix: string): string { Sanitize(key) + "." + suffix }

  function StemLength(name: string): nat {
    if name == [] then 0
    else if name[|name| - 1] == '.' then |name| - 1
    else StemLength(name[..|name| - 1])
  }

  /** `Path::with_extension` on a file name: what follows the last dot is replaced, unless nothing precedes it. */
  function WithExtension(name: string, extension: string): string {
    var n := StemLength(name);
    if n == 0 || n > |name| then name + "." + extension else name[..n] + "." + extension
  }

  function TmpName(key: string, suffix: string): string { WithExtension(FileName(key, suffix), suffix + ".tmp") }

  lemma {:induction false} StemOf(stem: string, last: string)
    requires forall i :: 0 <= i < |last| ==> last[i] != '.'
    ensures StemLength(stem + "." + last) == |stem|
  {
    var name := stem + "." + last;
    if last != [] {
      StemOf(stem, last[..|last| - 1]);
      assert name[..|name| - 1] == stem + "." + last[..|last| - 1];
    }
  }

  lemma {:induction false} TmpNameIs(key: string, suffix: string)
    requires IsIndexSuffix(suffix)
    ensures TmpName(key, suffix) ==
      (if suffix == CACHE_SUFFIX then Sanitize(key) else Sanitize(key) + ".bundle") + "." + suffix + ".tmp"
  {
    var s := Sanitize(key);
    var name := FileName(key, suffix);
    if suffix == CACHE_SUFFIX {
      StemOf(s, "json");
      assert name[..|s|] == s;
    } else {
      var stem := s + ".bundle";
      assert name == stem + "." + "json";
      StemOf(stem, "json");
      assert name[..|stem|] == stem;
    }
  }

  lemma {:induction false} AppendSame(s: string, t: string, e: string)
    ensures s + e == t + e <==> s == t
  {
    if s + e == t + e {
      assert s == (s + e)[..|s|];
      assert t == (t + e)[..|t|];
    }
  }

  /** Files of one kind coincide exactly for keys with one sanitized name. */
  lemma {:induction false} SameFileIff(a: string, b: string, suffix: string)
    ensures FileName(a, suffix) == FileName(b, suffix) <==> Sanitize(a) == Sanitize(b)
  {
    var e := "." + suffix;
    assert FileName(a, suffix) == Sanitize(a) + e && FileName(b, suffix) == Sanitize(b) + e;
    AppendSame(Sanitize(a), Sanitize(b), e);
  }

  /** A temporary file is never an entry nor a marker, and no marker is an entry. */
  lemma {:induction false} TmpIsApart(a: string, b: string, suffix: string)
    requires IsIndexSuffix(suffix)
    ensures TmpName(a, suffix) != FileName(b, suffix)
    ensures TmpName(a, suffix) != FileName(b, PENDING_SUFFIX)
    ensures FileName(a, suffix) != FileName(b, PENDING_SUFFIX)
  {
    TmpNameIs(a, suffix);
    var t, f, p := TmpName(a, suffix), FileName(b, suffix), FileName(b, PENDING_SUFFIX);
    assert t[|t| - 1] == 'p' && f[|f| - 1] == 'n' && p[|p| - 1] == 'g';
    assert FileName(a, suffix)[|FileName(a, suffix)| - 1] == 'n';
  }

  // ---------------------------------------------------------------- one directory

  /** What a file holds: a serialised entry, the text of a marker, or bytes that do not parse. */
  datatype Content<+E> = Json(entry: E) | Marker | Garbage
  type Files<E> = map<string, Content<E>>

  /** Where the file system fails while one key is written. */
  datatype Fault = NoFault | DirFails | TmpFails(touched: bool) | RenameFails

  datatype Op<+E> =
    | Write(first: string, second: string, entry: E, faults: (Fault, Fault))
    | Mark(marked: string)
    | Clear(cleared: string)

  /** `write_cache_entry_for_key` and `write_bundle_entry_for_key` */
  function WriteKey<E>(files: Files<E>, suffix: string, key: string, e: E, fault: Fault): (Files<E>, bool) {
    var tmp := TmpName(key, suffix);
    match fault
    case DirFails => (files, false)
    case TmpFails(touched) => (if touched then files[tmp := Garbage] else files, false)
    case RenameFails => (files[tmp := Json(e)], false)
    case NoFault => ((files[tmp := Json(e)] - {tmp})[FileName(key, suffix) := Json(e)], true)
  }

  /** `write_shared_rootfs_cache_entry` and `write_shared_rootfs_bundle_entry` after their validation. */
  function WriteKeys<E>(
      files: Files<E>, suffix: string, first: string, second: string, e: E, faults: (Fault, Fault)): (Files<E>, bool) {
    var (files', ok) := WriteKey(files, suffix, first, e, faults.0);
    if !ok || second == first then (files', ok) else WriteKey(files', suffix, second, e, faults.1)
  }

  function Apply<E>(files: Files<E>, suffix: string, op: Op<E>): Files<E> {
    match op
    case Write(first, second, e, faults) => WriteKeys(files, suffix, first, second, e, faults).0
    case Mark(key) => files[FileName(key, PENDING_SUFFIX) := Marker]
    case Clear(key) => files - {FileName(key, PENDING_SUFFIX)}
  }

  function ApplyAll<E>(files: Files<E>, suffix: string, ops: seq<Op<E>>): Files<E> {
    if ops == [] then files else Apply(ApplyAll(files, suffix, ops[..|ops| - 1]), suffix, ops[|ops| - 1])
  }

  /** The map that the entry files stand for: from a sanitized name to what is stored under it. */
  function Stored<E>(files: Files<E>, suffix: string, name: string): Option<Content<E>> {
    var file := FileName(name, suffix);
    if file in files then Some(files[file]) else None
  }

  /** The same operation on a plain map keyed by sanitized name. */
  function WriteName<E>(m: map<string, Content<E>>, key: string, e: E, fault: Fault): map<string, Content<E>> {
    if fault == NoFault then m[Sanitize(key) := Json(e)] else m
  }

  function ApplyToMap<E>(m: map<string, Content<E>>, op: Op<E>): map<string, Content<E>> {
    match op
    case Write(first, second, e, faults) =>
      var m' := WriteName(m, first, e, faults.0);
      if faults.0 != NoFault || second == first then m' else WriteName(m', second, e, faults.1)
    case Mark(_) => m
    case Clear(_) => m
  }

  function ApplyAllToMap<E>(m: map<string, Content<E>>, ops: seq<Op<E>>): map<string, Content<E>> {
    if ops == [] then m else ApplyToMap(ApplyAllToMap(m, ops[..|ops| - 1]), ops[|ops| - 1])
  }

  function Get<E>(m: map<string, Content<E>>, name: string): Option<Content<E>> {
    if name in m then Some(m[name]) else None
  }

  ghost predicate Represents<E(!new)>(files: Files<E>, suffix: string, m: map<string, Content<E>>) {
    forall key: string :: Stored(files, suffix, key) == Get(m, Sanitize(key))
  }

  lemma {:induction false} WriteKeyStores<E>(
      files: Files<E>, suffix: string, key: string, e: E, fault: Fault, other: string)
    requires IsIndexSuffix(suffix)
    ensures Stored(WriteKey(files, suffix, key, e, fault).0, suffix, other) ==
            if fault == NoFault && Sanitize(other) == Sanitize(key) then Some(Json(e)) else Stored(files, suffix, other)
    ensures WriteKey(files, suffix, key, e, fault).1 <==> fault == NoFault
  {
    SameFileIff(other, key, suffix);
    TmpIsApart(key, other, suffix);
  }

  /** A temporary file is left over exactly where a write got as far as it and not to its end. */
  lemma {:induction false} TmpAfterWrite<E>(files: Files<E>, suffix: string, key: string, e: E, fault: Fault)
    requires IsIndexSuffix(suffix) && TmpName(key, suffix) !in files
    ensures TmpName(key, suffix) in WriteKey(files, suffix, key, e, fault).0 <==>
      fault == RenameFails || fault == TmpFails(true)
  {
    TmpIsApart(key, key, suffix);
  }

  lemma {:induction false} ApplyStores<E(!new)>(files: Files<E>, suffix: string, m: map<string, Content<E>>, op: Op<E>)
    requires IsIndexSuffix(suffix) && Represents(files, suffix, m)
    ensures Represents(Apply(files, suffix, op), suffix, ApplyToMap(m, op))
  {
    forall key: string ensures Stored(Apply(files, suffix, op), suffix, key) == Get(ApplyToMap(m, op), Sanitize(key)) {
      assert Stored(files, suffix, key) == Get(m, Sanitize(key));
      match op
      case Write(first, second, e, faults) =>
        WriteKeyStores(files, suffix, first, e, faults.0, key);
        WriteKeyStores(WriteKey(files, suffix, first, e, faults.0).0, suffix, second, e, faults.1, key);
      case Mark(marked) => TmpIsApart(key, marked, suffix);
      case Clear(cleared) => TmpIsApart(key, cleared, suffix);
    }
  }

  /** The directory refines the map over every sequence of operations, with faults anywhere. */
  lemma {:induction false} DirectoryRefinesMap<E(!new)>(
      files: Files<E>, suffix: string, m: map<string, Content<E>>, ops: seq<Op<E>>)
    requires IsIndexSuffix(suffix) && Represents(files, suffix, m)
    ensures Represents(ApplyAll(files, suffix, ops), suffix, ApplyAllToMap(m, ops))
  {
    if ops != [] {
      DirectoryRefinesMap(files, suffix, m, ops[..|ops| - 1]);
      ApplyStores(ApplyAll(files, suffix, ops[..|ops| - 1]), suffix, ApplyAllToMap(m, ops[..|ops| - 1]),
        ops[|ops| - 1]);
    }
  }

  predicate Writes<E>(op: Op<E>, name: string) {
    op.Write? && (Sanitize(op.first) == name || Sanitize(op.second) == name)
  }

  /** Operations that write other names leave what a key reads alone. */
  lemma {:induction false} Untouched<E(!new)>(files: Files<E>, suffix: string, ops: seq<Op<E>>, key: string)
    requires IsIndexSuffix(suffix)
    requires forall i :: 0 <= i < |ops| ==> !Writes(ops[i], Sanitize(key))
    ensures Stored(ApplyAll(files, suffix, ops), suffix, key) == Stored(files, suffix, key)
  {
    if ops != [] {
      var before := ApplyAll(files, suffix, ops[..|ops| - 1]);
      Untouched(files, suffix, ops[..|ops| - 1], key);
      match ops[|ops| - 1]
      case Write(first, second, e, faults) =>
        assert !Writes(ops[|ops| - 1], Sanitize(key));
        WriteKeyStores(before, suffix, first, e, faults.0, key);
        WriteKeyStores(WriteKey(before, suffix, first, e, faults.0).0, suffix, second, e, faults.1, key);
      case Mark(marked) => TmpIsApart(key, marked, suffix);
      case Clear(cleared) => TmpIsApart(key, cleared, suffix);
    }
  }

  /** A written entry reads back under its reference and its id until a write under the same sanitized name. */
  lemma {:induction false} ReadsBack<E(!new)>(
    files: Files<E>, suffix: string, first: string, second: string, e: E, ops: seq<Op<E>>, key: string)
    requires IsIndexSuffix(suffix) && (key == first || key == second)
    requires forall i :: 0 <= i < |ops| ==> !Writes(ops[i], Sanitize(key))
    ensures var written := WriteKeys(files, suffix, first, second, e, (NoFault, NoFault)).0;
      Stored(ApplyAll(written, suffix, ops), suffix, key) == Some(Json(e))
  {
    var written := WriteKeys(files, suffix, first, second, e, (NoFault, NoFault)).0;
    WriteKeyStores(files, suffix, first, e, NoFault, key);
    WriteKeyStores(WriteKey(files, suffix, first, e, NoFault).0, suffix, second, e, NoFault, key);
    Untouched(written, suffix, ops, key);
  }
}
