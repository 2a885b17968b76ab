/** Options of a dm-verity device and the numbers passed to the device mapper (image-rs/src/verity/dmverity.rs). */
module DmVerity {
  import opened Common
  import opened Text

  const U64 := 0x1_0000_0000_0000_0000
  const U32_MAX := 0xFFFF_FFFF
  const SECTOR := 512

  type u64 = x: int | 0 <= x < U64

  datatype VerityOption = VerityOption(
    hashtype: string, hash: string, blocknum: u64, blocksize: u64, hashsize: u64, offset: u64)

  /** A power of two from 512 to 524288. */
  ghost predicate IsBlockSize(n: int) { exists order: nat :: 9 <= order < 20 && n == Pow2(order) }

  method IsValidBlockSize(blockSize: u64) returns (r: bool)
    ensures r <==> IsBlockSize(blockSize)
  {
    for order := 9 to 20
      invariant forall k: nat :: 9 <= k < order ==> blockSize != Pow2(k)
    {
      if blockSize == Pow2(order) { return true; }
    }
    r := false;
  }

  function LowerChar(c: char): char { if 'A' <= c <= 'Z' then ((c as int) + 32) as char else c }

  function Lower(s: string): (r: string)
    ensures |r| == |s| && forall i :: 0 <= i < |s| ==> r[i] == LowerChar(s[i])
  {
    seq(|s|, i requires 0 <= i < |s| => LowerChar(s[i]))
  }

  lemma {:induction false} CaseDoesNotMatter()
    ensures Lower("SHA256") == Lower("Sha256") == Lower("sha256") == "sha256"
    ensures Lower("SHA1") == Lower("sha1") == "sha1"
  {}

  /** The hash has the length of its algorithm, 64 or 40, and consists of hexadecimal digits. */
  predicate ValidHash(hashtype: string, hash: string) {
    && ((Lower(hashtype) == "sha256" && |hash| == 64) || (Lower(hashtype) == "sha1" && |hash| == 40))
    && forall i :: 0 <= i < |hash| ==> IsHexDigit(hash[i])
  }

  /** What a device option promises: the hash area starts on a hash block, behind the data. */
  ghost predicate ValidOption(o: VerityOption) {
    && ValidHash(o.hashtype, o.hash) && 1 <= o.blocknum <= U32_MAX && IsBlockSize(o.blocksize)
    && IsBlockSize(o.hashsize)
    && o.hashsize != 0 && (o.offset as int) % o.hashsize == 0 && o.blocksize as int * o.blocknum <= o.offset
  }

  /** `validate`. The product it compares with cannot overflow at that point. */
  method Validate(o: VerityOption) returns (ok: bool)
    ensures ok <==> ValidOption(o)
  {
    var hashtype := Lower(o.hashtype);
    if |o.hash| % 2 == 0 { DecodesIffHex(o.hash); }
    if hashtype == "sha256" {
      if |o.hash| != 64 || HexDecode(o.hash).Err? { return false; }
    } else if hashtype == "sha1" {
      if |o.hash| != 40 || HexDecode(o.hash).Err? { return false; }
    } else {
      return false;
    }
    if o.blocknum == 0 || o.blocknum > U32_MAX { return false; }
    var data := IsValidBlockSize(o.blocksize);
    var hash := IsValidBlockSize(o.hashsize);
    if !data || !hash { return false; }
    BlockSizes(o.blocksize);
    BlockSizes(o.hashsize);
    DataFits(o.blocksize, o.blocknum);
    var end: u64 := o.blocksize as int * o.blocknum;
    ok := (o.offset as int) % o.hashsize == 0 && o.offset >= end;
  }

  /** The block sizes spelled out. */
  lemma {:induction false} BlockSizes(n: int)
    requires IsBlockSize(n)
    ensures n == 512 || n == 1024 || n == 2048 || n == 4096 || n == 8192 || n == 16384 || n == 32768 || n == 65536
      || n == 131072 || n == 262144 || n == 524288
  {
    var order: nat :| 9 <= order < 20 && n == Pow2(order);
    PowerFrom(order, 9);
    PowerFrom(9, 0);
  }

  lemma {:induction false} PowerFrom(order: nat, base: nat)
    requires base <= order <= base + 10
    ensures Pow2(order) == [1, 2, 4, 8, 16, 32, 64, 128, 256, 512, 1024][order - base] * Pow2(base)
  {
    if order > base {
      PowerFrom(order - 1, base);
    }
  }

  lemma {:induction false} DataFits(blocksize: int, blocknum: int)
    requires 0 <= blocksize <= 524288 && 0 <= blocknum <= U32_MAX
    ensures 0 <= blocksize * blocknum < U64
  {
    assert blocksize * blocknum <= 524288 * blocknum;
  }

  // ---------------------------------------------------------------- the device

  /** The checked 64-bit sum: none on overflow. */
  function CheckedAdd(a: u64, b: u64): Option<u64> { if a as int + b < U64 then Some(a as int + b) else None }

  /** The first block of the hash area, as computed with overflow checks. */
  function HashStartChecked(o: VerityOption): Option<u64> requires o.hashsize != 0 {
    match CheckedAdd(o.offset, o.hashsize)
    case None => None
    case Some(sum) => Some((sum - 1) / o.hashsize)
  }

  function Wrap(x: int): u64 { x % U64 }

  /** The same, as computed with wrap-around. */
  function HashStartWrapping(o: VerityOption): u64 requires o.hashsize != 0 {
    Wrap(Wrap(o.offset as int + o.hashsize) as int - 1) / o.hashsize
  }

  function Sectors(o: VerityOption): int { o.blocknum as int * o.blocksize / SECTOR }

  lemma {:induction false} RoundUp(offset: int, hashsize: int)
    requires 0 < hashsize && 0 <= offset && offset % hashsize == 0
    ensures (offset + hashsize - 1) / hashsize * hashsize == offset
  {
    var q := offset / hashsize;
    assert offset == q * hashsize;
    assert offset + hashsize - 1 == q * hashsize + (hashsize - 1);
    assert (offset + hashsize - 1) / hashsize == q by { Quotient(q, hashsize, hashsize - 1); }
  }

  /** Only the largest multiple of the hash block size comes within one block of the end. */
  lemma {:induction false} OneLargestOffset(offset: int, hashsize: int)
    requires IsBlockSize(hashsize) && 0 <= offset < U64 && offset % hashsize == 0
    ensures offset + hashsize >= U64 <==> offset == U64 - hashsize
  {
    BlockSizes(hashsize);
  }

  /** Wrapping up to the end and back by one is no wrapping at all. */
  lemma {:induction false} WrapBack(x: int)
    requires 0 < x <= U64
    ensures Wrap(Wrap(x) as int - 1) == x - 1
  {}

  /** The hash start block of a valid option is exact; checked arithmetic fails on one offset only, wrapping on none. */
  lemma {:induction false} HashStartIsExact(o: VerityOption)
    requires ValidOption(o)
    ensures HashStartChecked(o).None? <==> o.offset == U64 - o.hashsize
    ensures HashStartChecked(o).Some? ==> HashStartChecked(o).value as int * o.hashsize == o.offset
    ensures HashStartWrapping(o) as int * o.hashsize == o.offset
  {
    OneLargestOffset(o.offset, o.hashsize);
    RoundUp(o.offset, o.hashsize);
    WrapBack(o.offset as int + o.hashsize);
  }

  lemma {:induction false} WholeSectors(blocknum: int, blocksize: int)
    requires IsBlockSize(blocksize)
    ensures blocknum * blocksize / SECTOR * SECTOR == blocknum * blocksize
  {
    BlockSizes(blocksize);
    var k := blocksize / SECTOR;
    var n := blocknum * k;
    assert blocknum * blocksize == n * SECTOR by {
      assert blocksize == k * SECTOR;
    }
  }

  /** The sector count is exact and fits, and the hash area begins at or after the end of the data. */
  lemma {:induction false} TableIsExact(o: VerityOption)
    requires ValidOption(o)
    ensures 0 <= o.blocknum as int * o.blocksize < U64
    ensures Sectors(o) * SECTOR == o.blocknum as int * o.blocksize
    ensures HashStartWrapping(o) as int * o.hashsize >= Sectors(o) * SECTOR
  {
    BlockSizes(o.blocksize);
    DataFits(o.blocksize, o.blocknum);
    WholeSectors(o.blocknum, o.blocksize);
    HashStartIsExact(o);
  }
}
