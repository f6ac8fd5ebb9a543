/** Files as block lists (fs/file.c, fs/inode.c): twelve direct pointers and one indirect table of 128. */
module FileBlocks {
  import opened Common
  import opened Bitmap

  const BLOCK := 512
  const DIRECT := 12
  const FLAT := 140

  type Byte = x: int | 0 <= x < 256
  type Sector = s: seq<Byte> | |s| == 512 witness seq(512, _ => 0)
  type Pointers = s: seq<U32> | |s| == 13 witness seq(13, _ => 0)

  /** `i_size` and `i_sectors`. */
  datatype Inode = Inode(size: U32, sectors: Pointers)

  /** Block bitmap, sectors and in-memory inodes of a partition; `start` is `data_start_lba`. */
  datatype Fs = Fs(start: U32, bits: seq<bool>, disk: map<int, Sector>, inodes: map<nat, Inode>)

  function Zeros(): Sector { seq(512, _ => 0) }

  /** One-sector `ide_read`. */
  function SectorAt(disk: map<int, Sector>, lba: int): Sector { if lba in disk then disk[lba] else Zeros() }

  // ---------------------------------------------------------------- the indirect table as bytes

  /** The i-th little-endian word of a sector. */
  function WordAt(s: Sector, i: nat): (w: U32)
    requires i < 128
  {
    var b0: int, b1: int, b2: int, b3: int := s[4 * i], s[4 * i + 1], s[4 * i + 2], s[4 * i + 3];
    b0 + 256 * b1 + 0x1_0000 * b2 + 0x100_0000 * b3
  }

  /** The least significant byte comes first. */
  lemma LittleEndian(s: Sector, i: nat)
    requires i < 128
    ensures var w := WordAt(s, i);
      && w % 256 == s[4 * i] && w / 256 % 256 == s[4 * i + 1]
      && w / 0x1_0000 % 256 == s[4 * i + 2] && w / 0x100_0000 == s[4 * i + 3]
  {
    Digits(s[4 * i], s[4 * i + 1], s[4 * i + 2], s[4 * i + 3]);
  }

  lemma Digits(a: int, b: int, c: int, d: int)
    requires 0 <= a < 256 && 0 <= b < 256 && 0 <= c < 256 && 0 <= d < 256
    ensures var w := a + 256 * b + 0x1_0000 * c + 0x100_0000 * d;
      w % 256 == a && w / 256 % 256 == b && w / 0x1_0000 % 256 == c && w / 0x100_0000 == d
  {
    var w := a + 256 * b + 0x1_0000 * c + 0x100_0000 * d;
    OneDigit(w, b + 256 * c + 0x1_0000 * d, a);
    OneDigit(b + 256 * c + 0x1_0000 * d, c + 256 * d, b);
    TwoDigits(w, c + 256 * d, a + 256 * b);
    OneDigit(c + 256 * d, d, c);
    ThreeDigits(w, d, a + 256 * b + 0x1_0000 * c);
  }

  lemma OneDigit(w: int, q: int, r: int)
    requires w == 256 * q + r && 0 <= r < 256
    ensures w / 256 == q && w % 256 == r
  {
  }

  lemma TwoDigits(w: int, q: int, r: int)
    requires w == 0x1_0000 * q + r && 0 <= r < 0x1_0000
    ensures w / 0x1_0000 == q
  {
  }

  lemma ThreeDigits(w: int, q: int, r: int)
    requires w == 0x100_0000 * q + r && 0 <= r < 0x100_0000
    ensures w / 0x100_0000 == q
  {
  }

  function ByteOf(w: U32, j: nat): Byte
    requires j < 4
  {
    if j == 0 then w % 256 else if j == 1 then w / 256 % 256 else if j == 2 then w / 0x1_0000 % 256 else w / 0x100_0000
  }

  function BytesOf(t: seq<U32>): (s: Sector)
    requires |t| == 128
    ensures forall k :: 0 <= k < 512 ==> s[k] == ByteOf(t[k / 4], k % 4)
  {
    seq(512, k requires 0 <= k < 512 => ByteOf(t[k / 4], k % 4))
  }

  /** 128 words as the sector `ide_write` sends. */
  function Encode(t: seq<U32>): (s: Sector)
    requires |t| == 128
    ensures forall i :: 0 <= i < 128 ==> WordAt(s, i) == t[i]
  {
    EncodeWords(t);
    BytesOf(t)
  }

  lemma EncodeWords(t: seq<U32>)
    requires |t| == 128
    ensures forall i :: 0 <= i < 128 ==> WordAt(BytesOf(t), i) == t[i]
  {
    hide ByteOf, BytesOf;
    forall i | 0 <= i < 128 ensures WordAt(BytesOf(t), i) == t[i] {
      EncodeWord(t, i);
    }
  }

  lemma EncodeWord(t: seq<U32>, i: nat)
    requires |t| == 128 && i < 128
    ensures WordAt(BytesOf(t), i) == t[i]
  {
    hide ByteOf;
    var s := BytesOf(t);
    assert s[4 * i] == ByteOf(t[i], 0) && s[4 * i + 1] == ByteOf(t[i], 1) && s[4 * i + 2] == ByteOf(t[i], 2) &&
      s[4 * i + 3] == ByteOf(t[i], 3);
    FourBytes(t[i]);
  }

  lemma FourBytes(w: U32)
    ensures var b0: int, b1: int, b2: int, b3: int := ByteOf(w, 0), ByteOf(w, 1), ByteOf(w, 2), ByteOf(w, 3);
      b0 + 256 * b1 + 0x1_0000 * b2 + 0x100_0000 * b3 == w
  {
  }

  function Decode(s: Sector): (t: seq<U32>)
    ensures |t| == 128 && forall i :: 0 <= i < 128 ==> t[i] == WordAt(s, i)
  {
    seq(128, i requires 0 <= i < 128 => WordAt(s, i))
  }

  // ---------------------------------------------------------------- what a file is

  /** The lba of block `k` of a file, 0 for none; `k == 140` is the indirect table itself. */
  function Slot(disk: map<int, Sector>, ino: Inode, k: nat): U32
    requires k <= FLAT
  {
    if k < DIRECT then ino.sectors[k]
    else if k == FLAT then ino.sectors[DIRECT]
    else if ino.sectors[DIRECT] == 0 then 0
    else WordAt(SectorAt(disk, ino.sectors[DIRECT]), k - DIRECT)
  }

  /** The bytes of a file. */
  function Contents(disk: map<int, Sector>, ino: Inode): (r: seq<Byte>)
    requires ino.size < FLAT * BLOCK
    ensures |r| == ino.size
    ensures forall i :: 0 <= i < ino.size ==> r[i] == SectorAt(disk, Slot(disk, ino, i / BLOCK))[i % BLOCK]
  {
    seq(ino.size, i requires 0 <= i < ino.size => SectorAt(disk, Slot(disk, ino, i / BLOCK))[i % BLOCK])
  }

  /** Blocks a file in between calls has: none before the first write, then 0..size/512. */
  function Blocks(ino: Inode): nat { if ino.sectors[0] == 0 then 0 else ino.size / BLOCK + 1 }

  /** The file has exactly `n` blocks, and a table iff more than 12. */
  ghost predicate Mapped(disk: map<int, Sector>, ino: Inode, n: nat) {
    && n <= FLAT && ino.size < FLAT * BLOCK && ino.size <= n * BLOCK
    && (forall k: nat | k < FLAT :: Slot(disk, ino, k) != 0 <==> k < n)
    && (Slot(disk, ino, FLAT) != 0 <==> n > DIRECT)
  }

  predicate Has(fs: Fs, no: nat, k: nat) { no in fs.inodes && k <= FLAT }

  function At(fs: Fs, no: nat, k: nat): U32
    requires Has(fs, no, k)
  {
    Slot(fs.disk, fs.inodes[no], k)
  }

  /** Some file owns sector `b`. */
  ghost predicate Owned(fs: Fs, b: int) {
    exists no: nat, k: nat :: Has(fs, no, k) && At(fs, no, k) == b
  }

  /** No sector is used twice, by one file or by two. */
  ghost predicate Disjoint(fs: Fs) {
    forall a: nat, b: nat, i: nat, j: nat | Has(fs, a, i) && Has(fs, b, j) ::
      At(fs, a, i) == At(fs, b, j) && At(fs, a, i) != 0 ==> a == b && i == j
  }

  /** The set bits are those of the reserved blocks and of the blocks files own; reserved blocks are nobody's. */
  ghost predicate BitsOk(fs: Fs, reserved: set<int>) {
    && 0 < fs.start && fs.start + |fs.bits| <= 0x1_0000_0000 && 0 in reserved
    && (forall i | 0 <= i < |fs.bits| :: fs.bits[i] <==> i in reserved || Owned(fs, fs.start + i))
    && (forall no: nat, k: nat | Has(fs, no, k) :: SlotOk(fs, reserved, At(fs, no, k)))
  }

  predicate SlotOk(fs: Fs, reserved: set<int>, b: int) {
    b != 0 ==> 0 <= b - fs.start < |fs.bits| && b - fs.start !in reserved
  }

  /** Every file `no` has `n[no]` blocks. */
  ghost predicate Shape(fs: Fs, reserved: set<int>, n: map<nat, nat>) {
    && n.Keys == fs.inodes.Keys && Disjoint(fs) && BitsOk(fs, reserved)
    && forall no | no in fs.inodes :: Mapped(fs.disk, fs.inodes[no], n[no])
  }

  function Counts(fs: Fs): map<nat, nat> { map no | no in fs.inodes :: Blocks(fs.inodes[no]) }

  /** The invariant between calls. */
  ghost predicate Inv(fs: Fs, reserved: set<int>) {
    Shape(fs, reserved, Counts(fs)) && forall no | no in fs.inodes && fs.inodes[no].sectors[0] == 0 ::
      fs.inodes[no].size == 0
  }

  ghost predicate Sized(fs: Fs) { forall no | no in fs.inodes :: fs.inodes[no].size < FLAT * BLOCK }

  /** What a partition means: a byte sequence for every file. */
  ghost function Files(fs: Fs): map<nat, seq<Byte>>
    requires Sized(fs)
  {
    map no | no in fs.inodes :: Contents(fs.disk, fs.inodes[no])
  }

  // ---------------------------------------------------------------- writing a block a file owns

  /** All pointers, those in indirect tables included, are as before. */
  ghost predicate SamePointers(a: Fs, b: Fs) {
    && a.inodes.Keys == b.inodes.Keys && a.start == b.start
    && forall no: nat, k: nat | Has(a, no, k) :: At(b, no, k) == At(a, no, k)
  }

  lemma SameShape(a: Fs, b: Fs, reserved: set<int>, n: map<nat, nat>)
    requires Shape(a, reserved, n) && SamePointers(a, b) && b.bits == a.bits
    requires forall no | no in b.inodes :: b.inodes[no].size < FLAT * BLOCK && b.inodes[no].size <= n[no] * BLOCK
    ensures Shape(b, reserved, n)
  {
    SameBits(a, b, reserved);
    hide Slot, Mapped, BitsOk, Disjoint, SamePointers;
    forall no | no in b.inodes ensures Mapped(b.disk, b.inodes[no], n[no]) {
      SameMapped(a, b, no, n[no]);
    }
  }

  lemma SameBits(a: Fs, b: Fs, reserved: set<int>)
    requires Disjoint(a) && BitsOk(a, reserved) && SamePointers(a, b) && b.bits == a.bits
    ensures Disjoint(b) && BitsOk(b, reserved) && a.inodes.Keys == b.inodes.Keys
  {
    hide Slot, Owned;
    assert forall no: nat, k: nat :: Has(b, no, k) <==> Has(a, no, k);
    forall x ensures Owned(b, x) <==> Owned(a, x) { SameOwned(a, b, x); }
  }

  lemma SameOwned(a: Fs, b: Fs, x: int)
    requires SamePointers(a, b)
    ensures Owned(b, x) <==> Owned(a, x)
  {
    hide Slot;
    if no: nat, k: nat :| Has(b, no, k) && At(b, no, k) == x { assert Has(a, no, k) && At(a, no, k) == x; }
    if no: nat, k: nat :| Has(a, no, k) && At(a, no, k) == x { assert Has(b, no, k) && At(b, no, k) == x; }
  }

  lemma SameMapped(a: Fs, b: Fs, no: nat, n: nat)
    requires SamePointers(a, b) && no in a.inodes && Mapped(a.disk, a.inodes[no], n)
    requires b.inodes[no].size < FLAT * BLOCK && b.inodes[no].size <= n * BLOCK
    ensures Mapped(b.disk, b.inodes[no], n)
  {
    hide Slot;
    forall k: nat | k <= FLAT ensures Slot(b.disk, b.inodes[no], k) == Slot(a.disk, a.inodes[no], k) {
      assert Has(a, no, k) && At(b, no, k) == At(a, no, k);
    }
  }

  /** Block `k` of file `no` overwritten with `s`, and the size set. */
  function Put(fs: Fs, no: nat, k: nat, s: Sector, size: U32): Fs
    requires Has(fs, no, k)
  {
    fs.(disk := fs.disk[At(fs, no, k) := s], inodes := fs.inodes[no := fs.inodes[no].(size := size)])
  }

  lemma PutPointers(fs: Fs, no: nat, k: nat, s: Sector, size: U32)
    requires Disjoint(fs) && Has(fs, no, k) && k < FLAT && At(fs, no, k) != 0
    ensures SamePointers(fs, Put(fs, no, k, s, size))
  {
    var b := Put(fs, no, k, s, size);
    forall m: nat, j: nat | Has(fs, m, j) ensures At(b, m, j) == At(fs, m, j) {
      assert Has(fs, m, FLAT) && At(fs, m, FLAT) == fs.inodes[m].sectors[DIRECT];
    }
  }

  /** Only the one block of the one file reads differently. */
  lemma PutOthers(fs: Fs, no: nat, k: nat, s: Sector, size: U32, m: nat, j: nat)
    requires Disjoint(fs) && Has(fs, no, k) && k < FLAT && At(fs, no, k) != 0 && Has(fs, m, j)
    ensures SectorAt(Put(fs, no, k, s, size).disk, At(fs, m, j)) == if m == no && j == k then s
      else SectorAt(fs.disk, At(fs, m, j))
  {
  }

  /** A file whose blocks are where they were and read as before reads as before. */
  lemma SameContents(a: Fs, b: Fs, no: nat)
    requires no in a.inodes && no in b.inodes && a.inodes[no].size == b.inodes[no].size < FLAT * BLOCK
    requires forall k: nat | k * BLOCK < a.inodes[no].size ::
      Has(a, no, k) && At(b, no, k) == At(a, no, k) && SectorAt(b.disk, At(a, no, k)) == SectorAt(a.disk, At(a, no, k))
    ensures Contents(b.disk, b.inodes[no]) == Contents(a.disk, a.inodes[no])
  {
    hide Slot, SectorAt;
    var size := a.inodes[no].size;
    forall i | 0 <= i < size ensures Contents(b.disk, b.inodes[no])[i] == Contents(a.disk, a.inodes[no])[i] {
      var k := i / BLOCK;
      assert k * BLOCK < size;
      assert At(b, no, k) == At(a, no, k);
    }
  }

  /** `data` laid over `was` from offset `off` on. */
  predicate Overlaid(was: Sector, off: nat, data: seq<Byte>, s: Sector) {
    off + |data| <= BLOCK && s[..off] == was[..off] && s[off..off + |data|] == data
  }

  lemma PutOwn(fs: Fs, no: nat, s: Sector, data: seq<Byte>)
    requires Disjoint(fs) && no in fs.inodes && fs.inodes[no].size + |data| < FLAT * BLOCK
    requires forall k: nat | k <= fs.inodes[no].size / BLOCK :: At(fs, no, k) != 0
    requires var size := fs.inodes[no].size;
      Overlaid(SectorAt(fs.disk, At(fs, no, size / BLOCK)), size % BLOCK, data, s)
    ensures var size := fs.inodes[no].size; var b := Put(fs, no, size / BLOCK, s, size + |data|);
      Contents(b.disk, b.inodes[no]) == Contents(fs.disk, fs.inodes[no]) + data
  {
    hide Slot, SectorAt;
    var size := fs.inodes[no].size;
    var q := size / BLOCK;
    var b := Put(fs, no, q, s, size + |data|);
    PutPointers(fs, no, q, s, size + |data|);
    var was := SectorAt(fs.disk, At(fs, no, q));
    var before, after := Contents(fs.disk, fs.inodes[no]), Contents(b.disk, b.inodes[no]);
    forall i | 0 <= i < size + |data| ensures after[i] == (before + data)[i] {
      var k := i / BLOCK;
      assert k <= q && Has(fs, no, k);
      PutOthers(fs, no, q, s, size + |data|, no, k);
      assert At(b, no, k) == At(fs, no, k);
      assert after[i] == (if k == q then s else SectorAt(fs.disk, At(fs, no, k)))[i % BLOCK];
      if i < size {
        if k == q { assert s[..size % BLOCK][i % BLOCK] == was[..size % BLOCK][i % BLOCK]; }
      } else {
        assert i % BLOCK == size % BLOCK + (i - size);
        assert s[size % BLOCK..size % BLOCK + |data|][i - size] == data[i - size];
      }
    }
  }

  lemma PutElse(fs: Fs, no: nat, k: nat, s: Sector, size: U32, m: nat)
    requires Disjoint(fs) && Has(fs, no, k) && k < FLAT && At(fs, no, k) != 0 && m in fs.inodes && m != no &&
      fs.inodes[m].size < FLAT * BLOCK
    ensures var b := Put(fs, no, k, s, size); Contents(b.disk, b.inodes[m]) == Contents(fs.disk, fs.inodes[m])
  {
    hide Slot, SectorAt, Disjoint;
    var b := Put(fs, no, k, s, size);
    PutPointers(fs, no, k, s, size);
    forall j: nat | j * BLOCK < fs.inodes[m].size
      ensures Has(fs, m, j) && At(b, m, j) == At(fs, m, j) &&
        SectorAt(b.disk, At(fs, m, j)) == SectorAt(fs.disk, At(fs, m, j))
    {
      PutOthers(fs, no, k, s, size, m, j);
    }
    SameContents(fs, b, m);
  }

  lemma FilesUpdate(fs: Fs, b: Fs, no: nat, c: seq<Byte>)
    requires Sized(fs) && Sized(b) && fs.inodes.Keys == b.inodes.Keys && no in fs.inodes &&
      Contents(b.disk, b.inodes[no]) == c
    requires forall m | m in fs.inodes && m != no :: Contents(b.disk, b.inodes[m]) == Contents(fs.disk, fs.inodes[m])
    ensures Files(b) == Files(fs)[no := c]
  {
  }

  /** One chunk of the write loop appends its bytes to the one file. */
  lemma PutAppends(fs: Fs, reserved: set<int>, n: map<nat, nat>, no: nat, s: Sector, data: seq<Byte>)
    requires Shape(fs, reserved, n) && no in fs.inodes && fs.inodes[no].size + |data| < FLAT * BLOCK &&
      fs.inodes[no].size / BLOCK < n[no]
    requires var size := fs.inodes[no].size;
      Overlaid(SectorAt(fs.disk, At(fs, no, size / BLOCK)), size % BLOCK, data, s)
    ensures var size := fs.inodes[no].size; var b := Put(fs, no, size / BLOCK, s, size + |data|);
      Shape(b, reserved, n) && Sized(fs) && Sized(b) && SamePointers(fs, b) &&
        Files(b) == Files(fs)[no := Files(fs)[no] + data]
  {
    hide Shape, Overlaid, Slot, SectorAt, Contents, Disjoint;
    ShapeSized(fs, reserved, n);
    var size := fs.inodes[no].size;
    var q := size / BLOCK;
    var b := Put(fs, no, q, s, size + |data|);
    OverlaidFits(SectorAt(fs.disk, At(fs, no, q)), size % BLOCK, data, s);
    PutShape(fs, reserved, n, no, s, data);
    ShapeSized(b, reserved, n);
    forall k: nat | k <= q ensures At(fs, no, k) != 0 { MappedAt(fs, reserved, n, no, k); }
    PutOwn(fs, no, s, data);
    forall m | m in fs.inodes && m != no ensures Contents(b.disk, b.inodes[m]) == Contents(fs.disk, fs.inodes[m]) {
      PutElse(fs, no, q, s, size + |data|, m);
    }
    FilesUpdate(fs, b, no, Contents(fs.disk, fs.inodes[no]) + data);
  }

  lemma OverlaidFits(was: Sector, off: nat, data: seq<Byte>, s: Sector)
    requires Overlaid(was, off, data, s)
    ensures off + |data| <= BLOCK
  {
  }

  lemma PutShape(fs: Fs, reserved: set<int>, n: map<nat, nat>, no: nat, s: Sector, data: seq<Byte>)
    requires Shape(fs, reserved, n) && no in fs.inodes && fs.inodes[no].size + |data| < FLAT * BLOCK &&
      fs.inodes[no].size / BLOCK < n[no]
    requires fs.inodes[no].size % BLOCK + |data| <= BLOCK
    ensures var size := fs.inodes[no].size; var b := Put(fs, no, size / BLOCK, s, size + |data|);
      Shape(b, reserved, n) && SamePointers(fs, b) && Disjoint(fs)
  {
    hide Slot, SectorAt, BitsOk, Disjoint;
    var size := fs.inodes[no].size;
    var q := size / BLOCK;
    var b := Put(fs, no, q, s, size + |data|);
    forall m | m in b.inodes ensures b.inodes[m].size < FLAT * BLOCK && b.inodes[m].size <= n[m] * BLOCK {
      assert Mapped(fs.disk, fs.inodes[m], n[m]);
    }
    MappedAt(fs, reserved, n, no, q);
    PutPointers(fs, no, q, s, size + |data|);
    hide Put, Mapped;
    SameShape(fs, b, reserved, n);
  }

  lemma ShapeSized(fs: Fs, reserved: set<int>, n: map<nat, nat>)
    requires Shape(fs, reserved, n)
    ensures Sized(fs)
  {
    forall m | m in fs.inodes ensures fs.inodes[m].size < FLAT * BLOCK { assert Mapped(fs.disk, fs.inodes[m], n[m]); }
  }

  lemma MappedAt(fs: Fs, reserved: set<int>, n: map<nat, nat>, no: nat, k: nat)
    requires Shape(fs, reserved, n) && no in fs.inodes && k <= FLAT
    ensures At(fs, no, k) != 0 <==> if k < FLAT then k < n[no] else n[no] > DIRECT
    ensures n[no] <= FLAT
  {
    assert Mapped(fs.disk, fs.inodes[no], n[no]);
  }

  // ---------------------------------------------------------------- giving a file more blocks

  /** File `no` with pointers `flat` and table block `t`. */
  function Repointed(fs: Fs, no: nat, flat: seq<U32>, t: U32, bits: seq<bool>): Fs
    requires no in fs.inodes && |flat| == FLAT
  {
    fs.(bits := bits, disk := if t == 0 then fs.disk else fs.disk[t := Encode(flat[DIRECT..])],
        inodes := fs.inodes[no := fs.inodes[no].(sectors := flat[..DIRECT] + [t])])
  }

  /** Blocks `news` and perhaps a table `t` are taken from the free ones, in `bits`. */
  ghost predicate Taken(fs: Fs, got: set<int>, bits: seq<bool>) {
    && |bits| == |fs.bits|
    && (forall b | b in got :: 0 <= b - fs.start < |bits| && !fs.bits[b - fs.start])
    && (forall i | 0 <= i < |bits| :: bits[i] <==> fs.bits[i] || fs.start + i in got)
  }

  /** Pointers `flat`/`t` keep the ones the file has and add exactly the blocks of `got`, each once. */
  ghost predicate Adds(fs: Fs, no: nat, flat: seq<U32>, t: U32, got: set<int>)
    requires no in fs.inodes && |flat| == FLAT
  {
    var all := flat + [t];
    && (forall k: nat | k <= FLAT && At(fs, no, k) != 0 :: all[k] == At(fs, no, k))
    && (forall k: nat | k <= FLAT && At(fs, no, k) == 0 && all[k] != 0 :: all[k] in got)
    && (forall b | b in got :: exists k: nat :: k <= FLAT && At(fs, no, k) == 0 && all[k] == b)
    && (forall i: nat, j: nat | i <= FLAT && j <= FLAT && At(fs, no, i) == 0 && At(fs, no, j) == 0 &&
       all[i] == all[j] && all[i] != 0 :: i == j)
    && (t == 0 ==> forall k | DIRECT <= k < FLAT :: flat[k] == 0)
  }

  lemma RepointedOwn(fs: Fs, no: nat, flat: seq<U32>, t: U32, bits: seq<bool>, k: nat)
    requires no in fs.inodes && |flat| == FLAT && k <= FLAT &&
      (t == 0 ==> forall k | DIRECT <= k < FLAT :: flat[k] == 0)
    ensures At(Repointed(fs, no, flat, t, bits), no, k) == (flat + [t])[k]
  {
    if DIRECT <= k < FLAT && t != 0 {
      assert Encode(flat[DIRECT..]) == SectorAt(Repointed(fs, no, flat, t, bits).disk, t);
      assert WordAt(Encode(flat[DIRECT..]), k - DIRECT) == flat[DIRECT..][k - DIRECT];
    }
  }

  /** The table that is written belongs to nobody else, and is nobody's data. */
  lemma TableOthers(fs: Fs, reserved: set<int>, no: nat, flat: seq<U32>, t: U32, got: set<int>, bits: seq<bool>, m: nat,
      k: nat)
    requires Disjoint(fs) && BitsOk(fs, reserved) && no in fs.inodes && |flat| == FLAT && Taken(fs, got, bits) &&
      Adds(fs, no, flat, t, got)
    requires Has(fs, m, k) && At(fs, m, k) != 0 && !(m == no && k == FLAT)
    ensures At(fs, m, k) != t
    ensures SectorAt(Repointed(fs, no, flat, t, bits).disk, At(fs, m, k)) == SectorAt(fs.disk, At(fs, m, k))
  {
    hide Slot;
    assert (flat + [t])[FLAT] == t;
  }

  /** Growing a file keeps the shape of the whole partition and every file's bytes. */
  lemma GrowKeeps(fs: Fs, reserved: set<int>, n: map<nat, nat>, no: nat, flat: seq<U32>, t: U32, got: set<int>,
      bits: seq<bool>, n2: nat)
    requires Shape(fs, reserved, n) && no in fs.inodes && |flat| == FLAT && Taken(fs, got, bits) &&
      Adds(fs, no, flat, t, got)
    requires n[no] <= n2 <= FLAT && (forall k | 0 <= k < FLAT :: flat[k] != 0 <==> k < n2) && (t != 0 <==> n2 > DIRECT)
    ensures var b := Repointed(fs, no, flat, t, bits);
      Shape(b, reserved, n[no := n2]) && Sized(fs) && Sized(b) && Files(b) == Files(fs)
  {
    hide Slot, SectorAt, Taken, BitsOk, Disjoint, Mapped, Contents, Adds;
    var b := Repointed(fs, no, flat, t, bits);
    GrowDisjoint(fs, reserved, no, flat, t, got, bits);
    GrowBits(fs, reserved, no, flat, t, got, bits);
    ShapeSized(fs, reserved, n);
    forall m | m in fs.inodes
      ensures Mapped(b.disk, b.inodes[m], n[no := n2][m]) &&
        Contents(b.disk, b.inodes[m]) == Contents(fs.disk, fs.inodes[m])
    {
      GrowFile(fs, reserved, n, no, flat, t, got, bits, n2, m);
    }
  }

  lemma GrowFile(fs: Fs, reserved: set<int>, n: map<nat, nat>, no: nat, flat: seq<U32>, t: U32, got: set<int>,
      bits: seq<bool>, n2: nat, m: nat)
    requires Shape(fs, reserved, n) && no in fs.inodes && |flat| == FLAT && Taken(fs, got, bits) &&
      Adds(fs, no, flat, t, got)
    requires n[no] <= n2 <= FLAT && (forall k | 0 <= k < FLAT :: flat[k] != 0 <==> k < n2) && (t != 0 <==> n2 > DIRECT)
    requires m in fs.inodes
    ensures var b := Repointed(fs, no, flat, t, bits);
      && Mapped(b.disk, b.inodes[m], n[no := n2][m]) && fs.inodes[m].size < FLAT * BLOCK
      && Contents(b.disk, b.inodes[m]) == Contents(fs.disk, fs.inodes[m])
  {
    hide Slot, SectorAt, Taken, BitsOk, Disjoint;
    var b := Repointed(fs, no, flat, t, bits);
    assert Mapped(fs.disk, fs.inodes[m], n[m]);
    forall k: nat | k <= FLAT ensures At(b, m, k) == if m == no then (flat + [t])[k] else At(fs, m, k) {
      GrowAt(fs, reserved, no, flat, t, got, bits, m, k);
    }
    forall k: nat | k <= FLAT
      ensures Slot(b.disk, b.inodes[m], k) == At(b, m, k) && Slot(fs.disk, fs.inodes[m], k) == At(fs, m, k)
    {
    }
    forall k: nat | k * BLOCK < fs.inodes[m].size
      ensures Has(fs, m, k) && At(b, m, k) == At(fs, m, k) &&
        SectorAt(b.disk, At(fs, m, k)) == SectorAt(fs.disk, At(fs, m, k))
    {
      assert k < n[m] && At(fs, m, k) != 0;
      TableOthers(fs, reserved, no, flat, t, got, bits, m, k);
    }
    SameContents(fs, b, m);
  }

  lemma GrowAt(fs: Fs, reserved: set<int>, no: nat, flat: seq<U32>, t: U32, got: set<int>, bits: seq<bool>, m: nat,
      k: nat)
    requires Disjoint(fs) && BitsOk(fs, reserved) && no in fs.inodes && |flat| == FLAT && Taken(fs, got, bits) &&
      Adds(fs, no, flat, t, got)
    requires Has(fs, m, k)
    ensures At(Repointed(fs, no, flat, t, bits), m, k) == if m == no then (flat + [t])[k] else At(fs, m, k)
  {
    if m == no {
      RepointedOwn(fs, no, flat, t, bits, k);
    } else if At(fs, m, FLAT) != 0 {
      TableOthers(fs, reserved, no, flat, t, got, bits, m, FLAT);
    }
  }

  lemma GrowDisjoint(fs: Fs, reserved: set<int>, no: nat, flat: seq<U32>, t: U32, got: set<int>, bits: seq<bool>)
    requires Disjoint(fs) && BitsOk(fs, reserved) && no in fs.inodes && |flat| == FLAT && Taken(fs, got, bits) &&
      Adds(fs, no, flat, t, got)
    ensures Disjoint(Repointed(fs, no, flat, t, bits))
  {
    hide Slot, SectorAt;
    var b := Repointed(fs, no, flat, t, bits);
    forall x: nat, y: nat, i: nat, j: nat | Has(b, x, i) && Has(b, y, j) && At(b, x, i) == At(b, y, j) &&
      At(b, x, i) != 0
      ensures x == y && i == j
    {
      GrowAt(fs, reserved, no, flat, t, got, bits, x, i);
      GrowAt(fs, reserved, no, flat, t, got, bits, y, j);
      GotNew(fs, reserved, no, flat, t, got, bits, x, i);
      GotNew(fs, reserved, no, flat, t, got, bits, y, j);
    }
  }

  /** A block taken now was in no file. */
  lemma GotNew(fs: Fs, reserved: set<int>, no: nat, flat: seq<U32>, t: U32, got: set<int>, bits: seq<bool>, m: nat,
      k: nat)
    requires BitsOk(fs, reserved) && no in fs.inodes && |flat| == FLAT && Taken(fs, got, bits) && Has(fs, m, k)
    ensures At(fs, m, k) !in got
  {
    hide Slot, SectorAt;
    assert Owned(fs, At(fs, m, k));
  }

  lemma GrowBits(fs: Fs, reserved: set<int>, no: nat, flat: seq<U32>, t: U32, got: set<int>, bits: seq<bool>)
    requires Disjoint(fs) && BitsOk(fs, reserved) && no in fs.inodes && |flat| == FLAT && Taken(fs, got, bits) &&
      Adds(fs, no, flat, t, got)
    ensures BitsOk(Repointed(fs, no, flat, t, bits), reserved)
  {
    hide Slot, SectorAt;
    var b := Repointed(fs, no, flat, t, bits);
    forall x | x != 0 ensures Owned(b, x) <==> Owned(fs, x) || x in got {
      GrowOwned(fs, reserved, no, flat, t, got, bits, x);
    }
    forall m: nat, k: nat | Has(b, m, k) ensures SlotOk(b, reserved, At(b, m, k)) {
      GrowAt(fs, reserved, no, flat, t, got, bits, m, k);
      assert Has(fs, m, k);
    }
  }

  lemma GrowOwned(fs: Fs, reserved: set<int>, no: nat, flat: seq<U32>, t: U32, got: set<int>, bits: seq<bool>, x: int)
    requires Disjoint(fs) && BitsOk(fs, reserved) && no in fs.inodes && |flat| == FLAT && Taken(fs, got, bits) &&
      Adds(fs, no, flat, t, got)
    requires x != 0
    ensures Owned(Repointed(fs, no, flat, t, bits), x) <==> Owned(fs, x) || x in got
  {
    hide Slot, SectorAt, BitsOk, Disjoint, Taken;
    var b := Repointed(fs, no, flat, t, bits);
    if Owned(b, x) {
      var m: nat, k: nat :| Has(b, m, k) && At(b, m, k) == x;
      GrowAt(fs, reserved, no, flat, t, got, bits, m, k);
      assert Has(fs, m, k);
    }
    if Owned(fs, x) {
      var m: nat, k: nat :| Has(fs, m, k) && At(fs, m, k) == x;
      GrowAt(fs, reserved, no, flat, t, got, bits, m, k);
      assert Has(b, m, k);
    }
    if x in got {
      var k: nat :| k <= FLAT && At(fs, no, k) == 0 && (flat + [t])[k] == x;
      GrowAt(fs, reserved, no, flat, t, got, bits, no, k);
      assert Has(b, no, k);
    }
  }
}
