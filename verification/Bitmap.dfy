/** Bitmaps (lib/kernel/bitmap.c): one bit a block, page or pid, a set bit meaning "used". */
module Bitmap {

  /** The `cnt` bits from `i` on are clear. */
  predicate ClearRun(bits: seq<bool>, i: nat, cnt: nat) {
    i + cnt <= |bits| && forall j :: i <= j < i + cnt ==> !bits[j]
  }

  /** `r` is the leftmost run of `cnt` clear bits, or -1 when there is none. */
  ghost predicate IsLeftmost(bits: seq<bool>, cnt: nat, r: int) {
    && (forall i: nat :: (r == -1 || i < r) ==> !ClearRun(bits, i, cnt))
    && (r != -1 ==> r >= 0 && ClearRun(bits, r, cnt))
  }

  /** What `bitmap_scan(btmp, 1)` finds. */
  function FirstClear(bits: seq<bool>): (r: int)
    ensures IsLeftmost(bits, 1, r)
    ensures r == -1 || (0 <= r < |bits| && !bits[r])
    ensures r == -1 <==> Free(bits) == 0
  {
    if bits == [] then -1
    else if !bits[0] then 0
    else
      var t := FirstClear(bits[1..]);
      assert forall i: nat :: ClearRun(bits, i + 1, 1) == ClearRun(bits[1..], i, 1);
      assert forall i: nat :: i > 0 ==> ClearRun(bits, i, 1) == ClearRun(bits[1..], i - 1, 1);
      if t == -1 then -1 else t + 1
  }

  /** How many bits are clear. */
  function Free(bits: seq<bool>): nat {
    if bits == [] then 0 else (if bits[0] then 0 else 1) + Free(bits[1..])
  }

  lemma {:induction false} FreeSet(bits: seq<bool>, i: nat)
    requires i < |bits| && !bits[i]
    ensures Free(bits[i := true]) == Free(bits) - 1
  {
    if i == 0 {
      assert bits[0 := true][1..] == bits[1..];
    } else {
      FreeSet(bits[1..], i - 1);
      assert bits[i := true][1..] == bits[1..][i - 1 := true];
    }
  }

  // ---------------------------------------------------------------- bytes

  /** `BITMAP_MASK << k` as a byte. */
  function Mask(k: nat): bv8
    requires k < 8
  {
    match k
    case 0 => 0x01
    case 1 => 0x02
    case 2 => 0x04
    case 3 => 0x08
    case 4 => 0x10
    case 5 => 0x20
    case 6 => 0x40
    case 7 => 0x80
  }

  predicate BitOf(b: bv8, k: nat)
    requires k < 8
  {
    b & Mask(k) != 0
  }

  lemma FullByte(b: bv8)
    ensures b == 0xff <==> forall k: nat | k < 8 :: BitOf(b, k)
  {
    if forall k: nat | k < 8 :: BitOf(b, k) {
      assert BitOf(b, 0) && BitOf(b, 1) && BitOf(b, 2) && BitOf(b, 3) && BitOf(b, 4) && BitOf(b, 5) && BitOf(b, 6) &&
        BitOf(b, 7);
    }
  }

  function SetByte(b: bv8, k: nat, value: bool): bv8
    requires k < 8
  {
    if value then b | Mask(k) else b & !Mask(k)
  }

  lemma SetBitOf(b: bv8, k: nat, value: bool, j: nat)
    requires k < 8 && j < 8
    ensures BitOf(SetByte(b, k, value), j) == if j == k then value else BitOf(b, j)
  {
    assert BitOf(b | Mask(k), j) == (j == k || BitOf(b, j));
    assert BitOf(b & !Mask(k), j) == (j != k && BitOf(b, j));
  }

  predicate BitAt(bytes: seq<bv8>, i: nat)
    requires i / 8 < |bytes|
  {
    BitOf(bytes[i / 8], i % 8)
  }

  /** The first `n` bits of a byte array. */
  function BitsOf(bytes: seq<bv8>, n: nat): (r: seq<bool>)
    requires n <= |bytes| * 8
    ensures |r| == n && forall i :: 0 <= i < n ==> r[i] == BitAt(bytes, i)
  {
    seq(n, i requires 0 <= i < n => BitAt(bytes, i))
  }

  /** `bitmap_set` on values: one bit changes. */
  lemma SetBits(bytes: seq<bv8>, i: nat, value: bool, n: nat)
    requires i < n <= |bytes| * 8
    ensures BitsOf(bytes[i / 8 := SetByte(bytes[i / 8], i % 8, value)], n) == BitsOf(bytes, n)[i := value]
  {
    hide BitOf, SetByte;
    var b := bytes[i / 8];
    var next := bytes[i / 8 := SetByte(b, i % 8, value)];
    forall j | 0 <= j < n ensures BitAt(next, j) == if j == i then value else BitAt(bytes, j) {
      if j / 8 == i / 8 {
        SetBitOf(b, i % 8, value, j % 8);
      }
    }
  }

  lemma FullByteAt(bytes: seq<bv8>, b: nat)
    requires b < |bytes|
    ensures bytes[b] == 0xff <==> forall i | b * 8 <= i < b * 8 + 8 :: BitAt(bytes, i)
  {
    FullByte(bytes[b]);
    hide BitOf, Mask;
    forall k: nat | k < 8 ensures BitAt(bytes, b * 8 + k) == BitOf(bytes[b], k) {
      assert (b * 8 + k) / 8 == b && (b * 8 + k) % 8 == k;
    }
    if forall i | b * 8 <= i < b * 8 + 8 :: BitAt(bytes, i) {
      forall k: nat | k < 8 ensures BitOf(bytes[b], k) { assert BitAt(bytes, b * 8 + k); }
    }
    if forall k: nat | k < 8 :: BitOf(bytes[b], k) {
      forall i | b * 8 <= i < b * 8 + 8 ensures BitAt(bytes, i) { assert i == b * 8 + (i - b * 8); }
    }
  }

  lemma FirstIs(bits: seq<bool>, start: nat)
    requires start < |bits| && !bits[start] && forall i | 0 <= i < start :: bits[i]
    ensures IsLeftmost(bits, 1, start)
  {
    forall i: nat | i < start ensures !ClearRun(bits, i, 1) { assert bits[i]; }
  }

  lemma AllUsed(bits: seq<bool>, n: nat, cnt: nat)
    requires n <= |bits| <= n + 1 && (forall i | 0 <= i < n :: bits[i])
    requires cnt >= 1 && (|bits| > n ==> cnt > 1)
    ensures IsLeftmost(bits, cnt, -1)
  {
    forall i: nat ensures !ClearRun(bits, i, cnt) {
      if i + cnt <= |bits| { assert bits[i]; }
    }
  }

  /** The byte array in memory: `len` bytes belong to the bitmap and at least one byte follows it. */
  class ByteMap {
    const bytes: array<bv8>
    const len: nat

    constructor (bytes: array<bv8>, len: nat)
      requires len < bytes.Length
      ensures this.bytes == bytes && this.len == len
    {
      this.bytes, this.len := bytes, len;
    }

    ghost predicate Valid() { len < bytes.Length }

    /** The bitmap's bits, `extra` of them past its end. */
    ghost function Bits(extra: nat): (r: seq<bool>)
      requires Valid() && extra <= 8
      reads bytes
      ensures |r| == len * 8 + extra
    {
      BitsOf(bytes[..], len * 8 + extra)
    }

    /** `bitmap_init` */
    method Init()
      requires Valid()
      modifies bytes
      ensures forall i | 0 <= i < len * 8 :: !Bits(0)[i]
      ensures forall j | len <= j < bytes.Length :: bytes[j] == old(bytes[j])
    {
      for j := 0 to len
        invariant forall i | 0 <= i < j :: bytes[i] == 0
        invariant forall i | len <= i < bytes.Length :: bytes[i] == old(bytes[i])
      {
        bytes[j] := 0;
      }
    }

    /** `bitmap_scan_test` */
    method Test(i: nat) returns (r: bool)
      requires Valid() && i <= len * 8
      ensures r == Bits(1)[i]
    {
      var byteIdx, odd := i / 8, i % 8;
      r := bytes[byteIdx] & Mask(odd) != 0;
      assert r == BitAt(bytes[..], i);
    }

    /** `bitmap_set` */
    method Set(i: nat, value: bool)
      requires Valid() && i < len * 8
      modifies bytes
      ensures Bits(0) == old(Bits(0))[i := value]
      ensures forall j | len <= j < bytes.Length :: bytes[j] == old(bytes[j])
    {
      hide SetByte, BitsOf;
      var byteIdx, odd := i / 8, i % 8;
      SetBits(bytes[..], i, value, len * 8);
      bytes[byteIdx] := SetByte(bytes[byteIdx], odd, value);
    }

    /** `bitmap_scan`. For more than one bit the search looks one bit past the end: the answer is the leftmost run
        among the bitmap's bits and that one, unless no bit of the bitmap itself is clear. */
    method Scan(cnt: nat) returns (r: int)
      requires Valid() && cnt >= 1
      ensures IsLeftmost(Bits(if cnt == 1 then 0 else 1), cnt, r)
    {
      hide BitOf, Mask;
      ghost var all := bytes[..];
      var idxByte := 0;
      while bytes[idxByte] == 0xff && idxByte < len
        invariant idxByte <= len
        invariant forall i | 0 <= i < idxByte * 8 :: BitAt(all, i)
      {
        FullByteAt(all, idxByte);
        idxByte := idxByte + 1;
      }
      if idxByte == len {
        AllUsed(Bits(if cnt == 1 then 0 else 1), len * 8, cnt);
        return -1;
      }
      FullByteAt(all, idxByte);
      ghost var clear: nat :| idxByte * 8 <= clear < idxByte * 8 + 8 && !BitAt(all, clear);
      assert !BitAt(bytes[..], clear);
      var start := FirstInByte(idxByte);
      if cnt == 1 {
        FirstIs(Bits(0), start);
        return start;
      }
      r := ScanMore(start, cnt);
    }

    /** The first clear bit of a byte that has one. */
    method FirstInByte(idxByte: nat) returns (start: nat)
      requires Valid() && idxByte < len
      requires exists i :: idxByte * 8 <= i < idxByte * 8 + 8 && !BitAt(bytes[..], i)
      ensures idxByte * 8 <= start < idxByte * 8 + 8 && !BitAt(bytes[..], start)
      ensures forall i | idxByte * 8 <= i < start :: BitAt(bytes[..], i)
    {
      hide BitAt, BitOf, Mask;
      var idxBit := 0;
      BitInByte(idxByte, 0);
      while bytes[idxByte] & Mask(idxBit) != 0
        invariant idxBit < 8 && exists i :: idxByte * 8 + idxBit <= i < idxByte * 8 + 8 && !BitAt(bytes[..], i)
        invariant forall i | idxByte * 8 <= i < idxByte * 8 + idxBit :: BitAt(bytes[..], i)
        invariant BitAt(bytes[..], idxByte * 8 + idxBit) == (bytes[idxByte] & Mask(idxBit) != 0)
        decreases 8 - idxBit
      {
        idxBit := idxBit + 1;
        BitInByte(idxByte, idxBit);
      }
      start := idxByte * 8 + idxBit;
    }

    lemma BitInByte(idxByte: nat, k: nat)
      requires Valid() && idxByte < len && k < 8
      ensures BitAt(bytes[..], idxByte * 8 + k) == (bytes[idxByte] & Mask(k) != 0)
    {
      assert (idxByte * 8 + k) / 8 == idxByte && (idxByte * 8 + k) % 8 == k;
    }

    /** The second half: count clear bits from the first one on, starting again at every used bit. */
    method ScanMore(start: nat, cnt: nat) returns (r: int)
      requires Valid() && cnt > 1 && start < len * 8 && !Bits(1)[start]
      requires forall i | 0 <= i < start :: Bits(1)[i]
      ensures IsLeftmost(Bits(1), cnt, r)
    {
      hide BitsOf;
      ghost var bits := Bits(1);
      var bitLeft := len * 8 - start;
      var nextBit := start + 1;
      var count := 1;
      r := -1;
      NoneBefore(bits, start, cnt);
      while bitLeft > 0
        invariant nextBit + bitLeft == len * 8 + 1 && count < cnt && count <= nextBit
        invariant Streak(bits, nextBit, count, cnt)
      {
        bitLeft := bitLeft - 1;
        var used := Test(nextBit);
        StreakStep(bits, nextBit, count, cnt);
        if !used {
          count := count + 1;
        } else {
          count := 0;
        }
        if count == cnt {
          r := nextBit - cnt + 1;
          return;
        }
        nextBit := nextBit + 1;
      }
    }
  }

  /** Just before `next` there are exactly `count` clear bits, and no run of `cnt` ends there or earlier. */
  ghost predicate Streak(bits: seq<bool>, next: nat, count: nat, cnt: nat) {
    && next <= |bits| && count <= next
    && (forall j | next - count <= j < next :: !bits[j])
    && (next > count ==> bits[next - count - 1])
    && (forall i: nat | i + cnt <= next :: !ClearRun(bits, i, cnt))
  }

  lemma NoneBefore(bits: seq<bool>, start: nat, cnt: nat)
    requires start < |bits| && !bits[start] && cnt > 1 && forall i | 0 <= i < start :: bits[i]
    ensures Streak(bits, start + 1, 1, cnt)
  {
    forall i: nat | i + cnt <= start + 1 ensures !ClearRun(bits, i, cnt) {
      assert bits[i];
    }
  }

  lemma StreakStep(bits: seq<bool>, next: nat, count: nat, cnt: nat)
    requires Streak(bits, next, count, cnt) && next < |bits| && count < cnt
    ensures bits[next] ==> Streak(bits, next + 1, 0, cnt)
    ensures !bits[next] && count + 1 < cnt ==> Streak(bits, next + 1, count + 1, cnt)
    ensures !bits[next] && count + 1 == cnt ==> IsLeftmost(bits, cnt, next - cnt + 1)
  {
    forall i: nat | i + cnt <= next + 1 && (bits[next] || i < next - count) ensures !ClearRun(bits, i, cnt) {
      if i + cnt == next + 1 && !bits[next] {
        assert i <= next - count - 1 < i + cnt;
      }
    }
  }

  /** The answer stays inside the bitmap, being its leftmost run or -1 iff it has none, exactly when the bit past the
      end does not complete a run that the bitmap itself lacks. */
  lemma GuardExact(bits: seq<bool>, cnt: nat, r: int)
    requires |bits| > 0 && cnt > 1 && IsLeftmost(bits, cnt, r)
    ensures var own := bits[..|bits| - 1];
      IsLeftmost(own, cnt, r) <==>
        !(cnt <= |bits| && ClearRun(bits, |bits| - cnt, cnt) && forall i: nat :: !ClearRun(own, i, cnt))
  {
    var own := bits[..|bits| - 1];
    forall i: nat ensures ClearRun(own, i, cnt) <==> i + cnt < |bits| && ClearRun(bits, i, cnt) {
      if ClearRun(own, i, cnt) {
        forall j | i <= j < i + cnt ensures !bits[j] { assert !own[j]; }
      }
    }
  }

  /** A bitmap with one clear bit, its last, and a clear bit behind it: asked for two, the scan answers a run that
      ends outside. */
  lemma GuardExample()
    ensures var own := seq(7, _ => true) + [false]; IsLeftmost(own + [false], 2, 7) && IsLeftmost(own, 2, -1)
  {
    var own := seq(7, _ => true) + [false];
    forall i: nat ensures !ClearRun(own, i, 2) { if i + 2 <= |own| { assert own[i]; } }
    forall i: nat | i < 7 ensures !ClearRun(own + [false], i, 2) { assert (own + [false])[i]; }
  }

  /** With the bit behind the bitmap used the scan is exact. */
  lemma Guarded(bits: seq<bool>, cnt: nat, r: int)
    requires |bits| > 0 && cnt > 1 && IsLeftmost(bits, cnt, r) && bits[|bits| - 1]
    ensures IsLeftmost(bits[..|bits| - 1], cnt, r)
  {
    GuardExact(bits, cnt, r);
  }
}
