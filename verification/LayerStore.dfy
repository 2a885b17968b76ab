/** Allocation of layer directories (image-rs/src/layer_store.rs). */
module LayerStore {
  import opened Common

  const USIZE := 0x1_0000_0000_0000_0000

  datatype DirEntry = DirEntry(name: string, isUtf8: bool, isDir: bool)

  // ---------------------------------------------------------------- decimal names

  predicate IsDigit(c: char) { '0' <= c <= '9' }

  function Digit(v: nat): (c: char)
    requires v < 10
    ensures IsDigit(c) && c as int - '0' as int == v
  {
    ('0' as int + v) as char
  }

  /** `usize::to_string` */
  function Decimal(n: nat): (s: string)
    ensures s != [] && s[0] != '+'
  {
    if n < 10 then [Digit(n)] else Decimal(n / 10) + [Digit(n % 10)]
  }

  function Digits(s: string): Option<nat> {
    if s == [] then Some(0)
    else if !IsDigit(s[|s| - 1]) then None
    else
      match Digits(s[..|s| - 1])
      case None => None
      case Some(v) => Some(v * 10 + (s[|s| - 1] as int - '0' as int))
  }

  /** `str::parse::<usize>`: an optional plus sign, then digits, below 2^64. */
  function ParseUsize(s: string): (r: Option<nat>)
    ensures r.Some? ==> r.value < USIZE
  {
    var digits := if s != [] && s[0] == '+' then s[1..] else s;
    if digits == [] then None
    else
      match Digits(digits)
      case None => None
      case Some(v) => if v < USIZE then Some(v) else None
  }

  lemma {:induction false} DigitsOfDecimal(n: nat)
    ensures Digits(Decimal(n)) == Some(n)
  {
    var s := Decimal(n);
    if n < 10 {
      assert s[..0] == [];
    } else {
      DigitsOfDecimal(n / 10);
      assert s[..|s| - 1] == Decimal(n / 10);
    }
  }

  lemma ParseDecimal(n: nat)
    requires n < USIZE
    ensures ParseUsize(Decimal(n)) == Some(n) && ParseUsize("+" + Decimal(n)) == Some(n)
  {
    DigitsOfDecimal(n);
    assert ("+" + Decimal(n))[1..] == Decimal(n);
  }

  // ---------------------------------------------------------------- the next index

  /** The number a directory entry takes, if any. */
  function Number(e: DirEntry): Option<nat> {
    if e.isDir && e.isUtf8 then ParseUsize(e.name) else None
  }

  /** `next` is 0 or one more than some numeric directory, and above all of them. */
  ghost predicate IsNextIndex(entries: seq<DirEntry>, next: nat) {
    && (forall i :: 0 <= i < |entries| && Number(entries[i]).Some? ==> Number(entries[i]).value < next)
    && (next == 0 || exists i :: 0 <= i < |entries| && Number(entries[i]) == Some(next - 1))
  }

  /** No numeric directory carries the last usable number. */
  ghost predicate BelowOverflow(entries: seq<DirEntry>) {
    forall i :: 0 <= i < |entries| && Number(entries[i]).Some? ==> Number(entries[i]).value < USIZE - 1
  }

  method GetLayerIndex(dataDir: Option<seq<DirEntry>>) returns (next: nat)
    ensures dataDir.None? ==> next == 0
    ensures dataDir.Some? && BelowOverflow(dataDir.value) ==> IsNextIndex(dataDir.value, next)
  {
    if dataDir.None? { return 0; }
    var entries := dataDir.value;
    next := 0;
    for i := 0 to |entries|
      invariant BelowOverflow(entries) ==> IsNextIndex(entries[..i], next)
    {
      assert entries[..i + 1] == entries[..i] + [entries[i]];
      ghost var before := next;
      if !entries[i].isDir { continue; }
      if !entries[i].isUtf8 { continue; }
      var n := ParseUsize(entries[i].name);
      if n.None? { continue; }
      if n.value >= next {
        next := (n.value + 1) % USIZE;
      }
      assert next != before && BelowOverflow(entries) ==> Number(entries[..i + 1][i]) == Some(next - 1);
    }
    assert entries[..|entries|] == entries;
  }

  /** The store; its clones share one atomic counter, so they are references to one object. */
  class Store {
    var index: nat

    constructor (next: nat)
      ensures index == next
    {
      index := next;
    }

    /** `new_layer_store_path`: the name of the new directory below the data directory. */
    method NewLayerStorePath() returns (name: string)
      requires index < USIZE
      modifies this
      ensures name == Decimal(old(index))
      ensures index == (old(index) + 1) % USIZE
    {
      name := Decimal(index);
      index := (index + 1) % USIZE;
    }
  }

  /**
   The names handed out by a counter that starts at `next` are all different and differ from every listed directory.
   */
  lemma NewPathsAreNew(entries: seq<DirEntry>, next: nat, i: nat, j: nat)
    requires IsNextIndex(entries, next) && next <= i <= j < USIZE
    ensures i != j ==> Decimal(i) != Decimal(j)
    ensures forall k :: 0 <= k < |entries| && entries[k].isDir && entries[k].isUtf8 ==> entries[k].name != Decimal(i)
  {
    ParseDecimal(i);
    ParseDecimal(j);
    forall k | 0 <= k < |entries| && entries[k].isDir && entries[k].isUtf8 ensures entries[k].name != Decimal(i) {
      assert Number(entries[k]) == ParseUsize(entries[k].name);
    }
  }
}
