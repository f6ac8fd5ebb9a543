/** `file_write`, `file_read`, `inode_init` and `inode_release` on a partition held in memory. */
module FileSystem {
  import opened Common
  import opened Bitmap
  import opened FileBlocks

  // ---------------------------------------------------------------- taking blocks from the bitmap

  /** The blocks of `list` were free in `was`, are all different, and are what `bits` has set beyond `was`. */
  ghost predicate Fresh(start: int, was: seq<bool>, bits: seq<bool>, list: seq<U32>) {
    && |bits| == |was|
    && (forall i, j | 0 <= i < j < |list| :: list[i] != list[j])
    && (forall b | b in list :: 0 <= b - start < |was| && !was[b - start])
    && (forall i | 0 <= i < |was| :: bits[i] <==> was[i] || start + i in list)
  }

  lemma FreshOne(start: int, was: seq<bool>, bits: seq<bool>, list: seq<U32>, i: nat, b: U32)
    requires Fresh(start, was, bits, list) && i < |bits| && !bits[i] && b == start + i
    ensures Fresh(start, was, bits[i := true], list + [b])
  {
    assert b !in list && !was[i];
    forall k | 0 <= k < |was| ensures bits[i := true][k] <==> was[k] || start + k in list + [b] { }
  }

  /** The file's pointers with those from `n0` up to `n2` taken from `ab`. */
  function Extended(fs: Fs, no: nat, n0: nat, n2: nat, ab: seq<U32>): (r: seq<U32>)
    requires no in fs.inodes && |ab| == FLAT
    ensures |r| == FLAT
  {
    seq(FLAT, k requires 0 <= k < FLAT => if k < n0 then At(fs, no, k) else if k < n2 then ab[k] else 0)
  }

  /** The blocks a write has to take: a table first when the file outgrows its direct pointers. */
  function Wanted(n0: nat, n2: nat, ab: seq<U32>, t: U32): seq<U32>
    requires n0 <= n2 <= FLAT && |ab| == FLAT
  {
    (if n2 > DIRECT && n0 <= DIRECT then [t] else []) + ab[n0..n2]
  }

  ghost predicate Extends(fs: Fs, reserved: set<int>, n: map<nat, nat>, no: nat, ab: seq<U32>, t: U32, bits: seq<bool>,
      n2: nat) {
    && Shape(fs, reserved, n) && no in fs.inodes && no in n && n[no] <= n2 <= FLAT && |ab| == FLAT
    && Fresh(fs.start, fs.bits, bits, Wanted(n[no], n2, ab, t))
    && (n2 <= DIRECT ==> t == 0) && (n[no] > DIRECT ==> t == At(fs, no, FLAT))
  }

  lemma StartPositive(fs: Fs, reserved: set<int>, n: map<nat, nat>)
    requires Shape(fs, reserved, n)
    ensures fs.start > 0
  {
  }

  lemma WantedTaken(fs: Fs, reserved: set<int>, n: map<nat, nat>, no: nat, ab: seq<U32>, t: U32, bits: seq<bool>,
      n2: nat)
    requires Extends(fs, reserved, n, no, ab, t, bits, n2)
    ensures var list := Wanted(n[no], n2, ab, t);
      Taken(fs, Elems(list), bits) && (forall b | b in list :: b != 0)
  {
    StartPositive(fs, reserved, n);
    var list := Wanted(n[no], n2, ab, t);
    hide Slot, Shape, Wanted;
    FreshTaken(fs, bits, list);
  }

  lemma FreshTaken(fs: Fs, bits: seq<bool>, list: seq<U32>)
    requires Fresh(fs.start, fs.bits, bits, list) && fs.start > 0
    ensures Taken(fs, Elems(list), bits) && (forall b | b in list :: b != 0)
  {
    assert forall b :: b in Elems(list) <==> b in list;
  }

  /** Where a wanted block sits in the list. */
  function Place(n0: nat, n2: nat, k: nat): int {
    if k == FLAT then 0 else k - n0 + if n2 > DIRECT && n0 <= DIRECT then 1 else 0
  }

  /** A pointer the file does not have yet is 0 or the wanted block at its place; one it has stays. */
  lemma WantedAt(fs: Fs, reserved: set<int>, n: map<nat, nat>, no: nat, ab: seq<U32>, t: U32, n2: nat, k: nat)
    requires Shape(fs, reserved, n) && no in fs.inodes && n[no] <= n2 <= FLAT && |ab| == FLAT && k <= FLAT
    requires (n2 <= DIRECT ==> t == 0) && (n[no] > DIRECT ==> t == At(fs, no, FLAT))
    ensures var list := Wanted(n[no], n2, ab, t); var all := Extended(fs, no, n[no], n2, ab) + [t];
      var p := Place(n[no], n2, k);
      && (At(fs, no, k) != 0 ==> all[k] == At(fs, no, k))
      && (At(fs, no, k) == 0 && all[k] != 0 ==> 0 <= p < |list| && list[p] == all[k])
      && (n[no] <= k < n2 || (k == FLAT && n[no] <= DIRECT < n2) ==>
         At(fs, no, k) == 0 && 0 <= p < |list| && list[p] == all[k])
  {
    MappedAt(fs, reserved, n, no, k);
  }

  lemma TableWanted(fs: Fs, reserved: set<int>, n: map<nat, nat>, no: nat, ab: seq<U32>, t: U32, bits: seq<bool>,
      n2: nat)
    requires Extends(fs, reserved, n, no, ab, t, bits, n2)
    ensures t != 0 <==> n2 > DIRECT
    ensures forall k: nat | k < FLAT :: Extended(fs, no, n[no], n2, ab)[k] != 0 <==> k < n2
  {
    hide Slot, Shape, Fresh, Taken;
    WantedTaken(fs, reserved, n, no, ab, t, bits, n2);
    MappedAt(fs, reserved, n, no, FLAT);
    var n0 := n[no];
    var list := Wanted(n0, n2, ab, t);
    if n0 <= DIRECT < n2 { assert list[0] == t && t in list; }
    forall k: nat | k < FLAT ensures Extended(fs, no, n0, n2, ab)[k] != 0 <==> k < n2 {
      MappedAt(fs, reserved, n, no, k);
      if n0 <= k < n2 {
        assert list[Place(n0, n2, k)] == ab[k];
        assert ab[k] in list;
      }
    }
  }

  lemma WantedAdds(fs: Fs, reserved: set<int>, n: map<nat, nat>, no: nat, ab: seq<U32>, t: U32, bits: seq<bool>,
      n2: nat)
    requires Extends(fs, reserved, n, no, ab, t, bits, n2)
    ensures var list := Wanted(n[no], n2, ab, t);
      Adds(fs, no, Extended(fs, no, n[no], n2, ab), t, Elems(list))
  {
    hide Slot, Shape, Fresh, At;
    var n0 := n[no];
    var list := Wanted(n0, n2, ab, t);
    var all := Extended(fs, no, n0, n2, ab) + [t];
    var d := |list| - (n2 - n0);
    TableWanted(fs, reserved, n, no, ab, t, bits, n2);
    forall k: nat | k <= FLAT
      ensures At(fs, no, k) != 0 ==> all[k] == At(fs, no, k)
      ensures At(fs, no, k) == 0 && all[k] != 0 ==> all[k] in list
    {
      WantedAt(fs, reserved, n, no, ab, t, n2, k);
    }
    forall b | b in list ensures exists k: nat :: k <= FLAT && At(fs, no, k) == 0 && all[k] == b {
      var j :| 0 <= j < |list| && list[j] == b;
      var k := if j < d then FLAT else n0 + j - d;
      WantedAt(fs, reserved, n, no, ab, t, n2, k);
    }
    forall i: nat, j: nat | i <= FLAT && j <= FLAT && At(fs, no, i) == 0 && At(fs, no, j) == 0 && all[i] == all[j] &&
      all[i] != 0
      ensures i == j
    {
      WantedOnce(fs, reserved, n, no, ab, t, bits, n2, i, j);
    }
  }

  lemma WantedOnce(fs: Fs, reserved: set<int>, n: map<nat, nat>, no: nat, ab: seq<U32>, t: U32, bits: seq<bool>,
      n2: nat, i: nat, j: nat)
    requires Extends(fs, reserved, n, no, ab, t, bits, n2) && i <= FLAT && j <= FLAT && At(fs, no, i) == 0 &&
      At(fs, no, j) == 0
    requires var all := Extended(fs, no, n[no], n2, ab) + [t]; all[i] == all[j] && all[i] != 0
    ensures i == j
  {
    hide Slot, Shape, Fresh;
    WantedAt(fs, reserved, n, no, ab, t, n2, i);
    WantedAt(fs, reserved, n, no, ab, t, n2, j);
    Once(fs.start, fs.bits, bits, Wanted(n[no], n2, ab, t), Place(n[no], n2, i), Place(n[no], n2, j));
    MappedAt(fs, reserved, n, no, i);
    MappedAt(fs, reserved, n, no, j);
  }

  lemma Once(start: int, was: seq<bool>, bits: seq<bool>, list: seq<U32>, i: nat, j: nat)
    requires Fresh(start, was, bits, list) && i < |list| && j < |list| && list[i] == list[j]
    ensures i == j
  {
  }

  /** The new pointers in place: the file has `n2` blocks, no byte of any file has changed. */
  lemma ExtendKeeps(fs: Fs, reserved: set<int>, n: map<nat, nat>, no: nat, ab: seq<U32>, t: U32, bits: seq<bool>,
      n2: nat)
    requires Extends(fs, reserved, n, no, ab, t, bits, n2)
    ensures var flat := Extended(fs, no, n[no], n2, ab); var b := Repointed(fs, no, flat, t, bits);
      && Shape(b, reserved, n[no := n2]) && Sized(fs) && Sized(b) && Files(b) == Files(fs)
      && (forall k: nat | k < FLAT :: At(b, no, k) == flat[k])
  {
    hide Slot, Adds, Taken;
    WantedTaken(fs, reserved, n, no, ab, t, bits, n2);
    WantedAdds(fs, reserved, n, no, ab, t, bits, n2);
    TableWanted(fs, reserved, n, no, ab, t, bits, n2);
    var list := Wanted(n[no], n2, ab, t);
    var flat := Extended(fs, no, n[no], n2, ab);
    GrowKeeps(fs, reserved, n, no, flat, t, Elems(list), bits, n2);
    forall k: nat | k < FLAT ensures At(Repointed(fs, no, flat, t, bits), no, k) == flat[k] {
      RepointedOwn(fs, no, flat, t, bits, k);
    }
  }

  // ---------------------------------------------------------------- the partition

  /** -1 with a message, the number of bytes, -1 for a full disk, or a failed ASSERT. */
  datatype Write = Written(n: nat) | TooLarge | NoSpace | WritePanic

  /** Bytes, -1 at the end of the file, a failed ASSERT, or a loop that goes on past the file and its pointers. */
  datatype Read = Data(bytes: seq<Byte>) | AtEnd | ReadPanic | Wild

  /** The first byte of a file that no read reaches. */
  const READ_END := 139 * BLOCK

  /** One less in 32 bits: where a write leaves the position of a file of that size. */
  function Before(size: nat): U32 { (size - 1) % 0x1_0000_0000 }

  /** How many blocks a write of `count` bytes takes from the bitmap. */
  function Needed(ino: Inode, count: nat): int {
    var will := (ino.size + count) / BLOCK + 1;
    will - Blocks(ino) + if will > DIRECT && Blocks(ino) <= DIRECT then 1 else 0
  }

  lemma BeforeIs(size: nat)
    requires size < 0x1_0000_0000
    ensures Before(size) == if size == 0 then 0xffff_ffff else size - 1
  {
  }

  lemma NeededIs(ino: Inode, count: nat, has: nat, will: nat)
    requires has == ino.size / BLOCK + 1 && will == (ino.size + count) / BLOCK + 1 && ino.sectors[0] != 0
    ensures has <= will && Needed(ino, count) == will - has + if will > DIRECT && has <= DIRECT then 1 else 0
  {
  }

  /** `struct file`: a position in a file. */
  class OpenFile {
    var pos: U32
    const no: nat

    constructor (no: nat)
      ensures this.no == no && pos == 0
    {
      this.no, pos := no, 0;
    }
  }

  class Partition {
    const start: U32
    ghost const reserved: set<int>
    var bits: seq<bool>
    var disk: map<int, Sector>
    var inodes: map<nat, Inode>

    ghost function View(): Fs
      reads this
    {
      Fs(start, bits, disk, inodes)
    }

    ghost predicate Valid()
      reads this
    {
      Inv(View(), reserved)
    }

    /** A partition without files: whatever bits are set belong to something else; bit 0 is the root directory's. */
    constructor (start: U32, bits: seq<bool>, disk: map<int, Sector>)
      requires 0 < start && start + |bits| <= 0x1_0000_0000 && |bits| > 0 && bits[0]
      ensures Valid() && inodes == map[] && this.bits == bits && this.disk == disk && this.start == start
      ensures forall i | 0 <= i < |bits| :: bits[i] <==> i in reserved
    {
      this.start, this.bits, this.disk, inodes := start, bits, disk, map[];
      reserved := set i | 0 <= i < |bits| && bits[i];
    }

    /** `block_bitmap_alloc` */
    method Alloc() returns (lba: int)
      modifies this`bits
      ensures lba == -1 ==> Free(old(bits)) == 0 && bits == old(bits)
      ensures lba != -1 ==> var i := lba - start;
        && i == FirstClear(old(bits)) && 0 <= i < |old(bits)| && !old(bits)[i]
        && bits == old(bits)[i := true] && Free(bits) == Free(old(bits)) - 1
    {
      var bitI := FirstClear(bits);
      if bitI == -1 {
        return -1;
      }
      FreeSet(bits, bitI);
      bits := bits[bitI := true];
      lba := start + bitI;
    }

    /** The allocation loops of `file_write`: blocks for positions `from` up to `to`, direct ones also into the
        inode. */
    method Fill(no: nat, ab: seq<U32>, from: nat, to: nat, ghost list0: seq<U32>,
        ghost was: seq<bool>) returns (ok: bool, ab2: seq<U32>)
      requires no in inodes && |ab| == FLAT && from <= to <= FLAT && start + |bits| <= 0x1_0000_0000
      requires forall k | from <= k < to && k < DIRECT :: inodes[no].sectors[k] == 0
      requires Fresh(start, was, bits, list0)
      modifies this`bits, this`inodes
      ensures ok <==> Free(old(bits)) >= to - from
      ensures ok ==>
        && |ab2| == FLAT && ab2[..from] == ab[..from] && ab2[to..] == ab[to..]
        && no in inodes && inodes == old(inodes)[no := inodes[no]] && inodes[no].size == old(inodes[no].size)
        && (forall k | 0 <= k <= DIRECT ::
           inodes[no].sectors[k] == if from <= k < to && k < DIRECT then ab2[k] else old(inodes[no].sectors[k]))
        && Fresh(start, was, bits, list0 + ab2[from..to])
        && Free(bits) == Free(old(bits)) - (to - from)
    {
      hide Free;
      ab2 := ab;
      ghost var ino := inodes[no];
      var i := from;
      assert list0 + ab2[from..i] == list0;
      assert inodes == old(inodes)[no := inodes[no]];
      while i < to
        invariant from <= i <= to && |ab2| == FLAT && ab2[..from] == ab[..from] && ab2[to..] == ab[to..]
        invariant no in inodes && inodes == old(inodes)[no := inodes[no]] && inodes[no].size == ino.size &&
          |bits| == |old(bits)|
        invariant forall k | 0 <= k <= DIRECT ::
          inodes[no].sectors[k] == if from <= k < i && k < DIRECT then ab2[k] else ino.sectors[k]
        invariant Fresh(start, was, bits, list0 + ab2[from..i])
        invariant Free(bits) == Free(old(bits)) - (i - from)
      {
        ghost var bits0 := bits;
        var lba := Alloc();
        if lba == -1 {
          return false, ab2;
        }
        FreshOne(start, was, bits0, list0 + ab2[from..i], lba - start, lba);
        if i < DIRECT {
          assert inodes[no].sectors[i] == 0;
          inodes := inodes[no := inodes[no].(sectors := inodes[no].sectors[i := lba])];
        }
        ghost var done := ab2[from..i];
        ab2 := ab2[i := lba];
        i := i + 1;
        assert list0 + ab2[from..i] == list0 + done + [lba];
      }
      ok := true;
    }

    /** The case of a file that outgrows its direct pointers: a table, the blocks, then the table is written. */
    method GrowTable(no: nat, count: nat, ab0: seq<U32>, has: nat, will: nat) returns (ok: bool, ab: seq<U32>)
      requires Valid() && no in inodes && inodes[no].sectors[0] != 0 && inodes[no].size + count < FLAT * BLOCK
      requires has == inodes[no].size / BLOCK + 1 && will == (inodes[no].size + count) / BLOCK + 1 &&
        has <= DIRECT < will
      requires |ab0| == FLAT && ab0[has - 1] == At(View(), no, has - 1) && forall k | has <= k < FLAT :: ab0[k] == 0
      modifies this
      ensures ok <==> Free(old(bits)) >= will - has + 1
      ensures ok ==>
        Ready(old(View()), View(), reserved, no, count, ab) && Free(bits) == Free(old(bits)) - (will - has + 1)
    {
      hide Slot, Inv, Fresh, Free, Encode, Ready, At;
      ghost var fs := View();
      BlockFacts(fs, reserved, no);
      FreshNone(start, bits);
      ab := ab0;
      var t := Alloc();
      if t == -1 {
        return false, ab;
      }
      assert inodes[no].sectors[DIRECT] == 0;
      FreshOne(start, fs.bits, fs.bits, [], t - start, t);
      assert [] + [t] == [t];
      inodes := inodes[no := inodes[no].(sectors := inodes[no].sectors[DIRECT := t])];
      ok, ab := Fill(no, ab, has, will, [t], fs.bits);
      if ok {
        disk := disk[t := Encode(ab[DIRECT..])];
        GrownTable(fs, View(), reserved, no, count, ab, t);
      }
    }

    /** The four cases that give the file the blocks it will need and load the pointers the write will use. */
    method MapBlocks(no: nat, count: nat) returns (ok: bool, ab: seq<U32>)
      requires Valid() && no in inodes && inodes[no].sectors[0] != 0 && inodes[no].size + count < FLAT * BLOCK
      modifies this
      ensures ok <==> Free(old(bits)) >= Needed(old(inodes[no]), count)
      ensures ok ==> Ready(old(View()), View(), reserved, no, count, ab)
      ensures ok ==> Free(bits) == Free(old(bits)) - Needed(old(inodes[no]), count)
    {
      hide Slot, Inv, Fresh, Free, Encode, Decode, Ready, Needed;
      ghost var fs := View();
      var ino := inodes[no];
      var has := ino.size / BLOCK + 1;
      var will := (ino.size + count) / BLOCK + 1;
      NeededIs(ino, count, has, will);
      var zero: seq<U32> := seq(FLAT, _ => 0);
      BlockFacts(fs, reserved, no);
      FreshNone(start, bits);
      if will == has {
        ok, ab := true, zero;
        if has <= DIRECT {
          ab := ab[has - 1 := ino.sectors[has - 1]];
        } else {
          assert ino.sectors[DIRECT] != 0;
          ab := ab[..DIRECT] + Decode(SectorAt(disk, ino.sectors[DIRECT]));
        }
        Loaded(fs, no, has - 1, ab);
        AlreadyThere(fs, reserved, no, count, ab);
      } else if will <= DIRECT {
        assert ino.sectors[has - 1] != 0;
        ab := zero[has - 1 := ino.sectors[has - 1]];
        Loaded(fs, no, has - 1, ab);
        ok, ab := Fill(no, ab, has, will, [], bits);
        if ok {
          GrownDirect(fs, View(), reserved, no, count, ab);
        }
      } else if has <= DIRECT {
        ab := zero[has - 1 := ino.sectors[has - 1]];
        Loaded(fs, no, has - 1, ab);
        ok, ab := GrowTable(no, count, ab, has, will);
      } else {
        var t := ino.sectors[DIRECT];
        assert t != 0;
        ab := zero[..DIRECT] + Decode(SectorAt(disk, t));
        ghost var ab0 := ab;
        Loaded(fs, no, has - 1, ab);
        ok, ab := Fill(no, ab, has, will, [], bits);
        if ok {
          disk := disk[t := Encode(ab[DIRECT..])];
          GrownIndirect(fs, View(), reserved, no, count, ab0, ab);
        }
      }
    }

    /** The first write allocates block 0 even for no bytes. */
    method FirstBlock(no: nat) returns (ok: bool)
      requires Valid() && no in inodes
      modifies this
      ensures ok <==> old(inodes[no]).sectors[0] != 0 || Free(old(bits)) > 0
      ensures ok ==> Valid() && Sized(old(View())) && Sized(View()) && Files(View()) == Files(old(View()))
      ensures ok ==> no in inodes && inodes[no].sectors[0] != 0 && inodes[no].size == old(inodes[no].size)
      ensures ok ==> Free(bits) == Free(old(bits)) - if old(inodes[no]).sectors[0] == 0 then 1 else 0
    {
      hide Slot, Inv, Fresh, Free, Files;
      ghost var fs := View();
      SizedOk(fs, reserved);
      if inodes[no].sectors[0] == 0 {
        var lba := Alloc();
        if lba == -1 {
          return false;
        }
        FreshNone(start, fs.bits);
        FreshOne(start, fs.bits, fs.bits, [], lba - start, lba);
        BitZero(fs, reserved);
        inodes := inodes[no := inodes[no].(sectors := inodes[no].sectors[0 := lba])];
        assert lba - start != 0;
        FirstKeeps(fs, View(), reserved, no, lba);
      }
      ok := true;
    }

    /** One chunk: the sector is read first only when it may hold bytes of the file. */
    method WriteSector(no: nat, secLba: U32, off: nat, data: seq<Byte>, first: bool) returns (ioBuf: Sector)
      requires no in inodes && off + |data| <= BLOCK && (off == 0 || first) && inodes[no].size + |data| < FLAT * BLOCK
      modifies this`disk, this`inodes
      ensures Overlaid(SectorAt(old(disk), secLba), off, data, ioBuf)
      ensures disk == old(disk)[secLba := ioBuf] && inodes ==
        old(inodes)[no := old(inodes)[no].(size := old(inodes)[no].size + |data|)]
    {
      hide SectorAt, Overlaid, Zeros;
      var buffer := Zeros();
      if first {
        buffer := SectorAt(disk, secLba);
      }
      Overlay(SectorAt(disk, secLba), buffer, off, data, buffer[..off] + data + buffer[off + |data|..]);
      ioBuf := buffer[..off] + data + buffer[off + |data|..];
      disk := disk[secLba := ioBuf];
      inodes := inodes[no := inodes[no].(size := inodes[no].size + |data|)];
    }

    /** The chunk loop: the bytes go into the blocks of `ab`, one block at a time. */
    method WriteChunks(f: OpenFile, buf: seq<Byte>, ab: seq<U32>, ghost fs: Fs)
      requires Inv(fs, reserved) && Ready(fs, View(), reserved, f.no, |buf|, ab)
      modifies this, f`pos
      ensures Appended(fs, View(), reserved, f.no, buf)
      ensures Free(bits) == Free(old(bits)) && f.pos == Before(fs.inodes[f.no].size + |buf|)
    {
      hide Slot, At, SectorAt, Files, Free, Overlaid, Ready, Progress, Appended, Inv, Counts, Sized, Zeros, Before;
      var no := f.no;
      var written, left := 0, |buf|;
      var first := true;
      ghost var b := View();
      ReadyIn(fs, b, reserved, no, buf, ab);
      ghost var n := Counts(fs)[no := (fs.inodes[no].size + |buf|) / BLOCK + 1];
      assert buf[..0] == [];
      Begin(fs, b, reserved, n, no, buf, ab);
      f.pos := Before(inodes[no].size);
      while written < |buf|
        invariant written <= |buf| && left == |buf| - written && f.no == no
        invariant Progress(b, View(), reserved, n, no, buf[..written]) && no in inodes &&
          inodes[no].size == b.inodes[no].size + written
        invariant written < |buf| && !first ==> inodes[no].size % BLOCK == 0
        invariant f.pos == Before(inodes[no].size)
        invariant bits == old(bits)
      {
        var size := inodes[no].size;
        var secIdx := size / BLOCK;
        ChunkFits(fs, b, View(), reserved, n, no, buf, written, ab);
        var secLba := ab[secIdx];
        var secLeft := BLOCK - size % BLOCK;
        var chunk := if left < secLeft then left else secLeft;
        var data := buf[written..written + chunk];
        ghost var v := View();
        ghost var ioBuf := WriteSector(no, secLba, size % BLOCK, data, first);
        first := false;
        ProgressStep(b, v, reserved, n, no, buf, written, ioBuf, data);
        ChunkEnds(size, chunk);
        assert written + chunk < |buf| ==> (size + chunk) % BLOCK == 0;
        f.pos := (f.pos + chunk) % 0x1_0000_0000;
        written := written + chunk;
        left := left - chunk;
      }
      assert buf[..written] == buf;
      ProgressIn(b, View(), reserved, n, no, buf);
      Finish(fs, b, View(), reserved, n, no, buf, ab);
    }

    /** `file_write`: append `buf` to the file, wherever `pos` is. */
    method FileWrite(f: OpenFile, buf: seq<Byte>) returns (r: Write)
      requires Valid() && f.no in inodes && |buf| <= 0xC000_0000
      modifies this, f`pos
      ensures r.TooLarge? <==> old(inodes[f.no]).size + |buf| > FLAT * BLOCK
      ensures r.TooLarge? ==> View() == old(View()) && f.pos == old(f.pos)
      ensures r.WritePanic? <==>
        old(inodes[f.no]).size + |buf| == FLAT * BLOCK && (old(inodes[f.no]).sectors[0] != 0 || Free(old(bits)) > 0)
      ensures r.Written? <==>
        old(inodes[f.no]).size + |buf| < FLAT * BLOCK && Free(old(bits)) >= Needed(old(inodes[f.no]), |buf|)
      ensures r.Written? ==> r.n == |buf| && Appended(old(View()), View(), reserved, f.no, buf)
      ensures r.Written? ==> Free(bits) == Free(old(bits)) - Needed(old(inodes[f.no]), |buf|)
      ensures r.Written? ==> f.pos == if inodes[f.no].size == 0 then 0xffff_ffff else inodes[f.no].size - 1
    {
      hide Inv, Slot, Free, Files, Ready;
      SizedOk(View(), reserved);
      var no := f.no;
      if inodes[no].size + |buf| > FLAT * BLOCK {
        return TooLarge;
      }
      ghost var ino0 := inodes[no];
      if ino0.sectors[0] == 0 { EmptySize(View(), reserved, no); }
      var ok := FirstBlock(no);
      if !ok {
        return NoSpace;
      }
      NeededSplit(ino0, inodes[no], |buf|);
      if (inodes[no].size + |buf|) / BLOCK + 1 > FLAT {
        return WritePanic;
      }
      ghost var fs := View();
      var ab: seq<U32>;
      ok, ab := MapBlocks(no, |buf|);
      if !ok {
        return NoSpace;
      }
      WriteChunks(f, buf, ab, fs);
      BeforeIs(inodes[no].size);
      r := Written(|buf|);
    }

    /** The pointers `file_read` loads for blocks `first` to `last`. */
    method LoadPointers(no: nat, first: nat, last: nat) returns (ab: seq<U32>)
      requires Valid() && no in inodes && first <= last < 139 && last * BLOCK <= inodes[no].size
      ensures |ab| == FLAT && forall k: nat | first <= k <= last :: ab[k] == At(View(), no, k)
    {
      hide Slot, Inv, Decode, SectorAt;
      var ino := inodes[no];
      ab := seq(FLAT, _ => 0);
      TableThere(View(), reserved, no, last);
      if first == last {
        if last < DIRECT {
          ab := ab[last := ino.sectors[last]];
        } else {
          ab := ab[..DIRECT] + Decode(SectorAt(disk, ino.sectors[DIRECT]));
        }
        Loaded(View(), no, last, ab);
      } else if last < DIRECT {
        var k := first;
        while k <= last
          invariant first <= k <= last + 1 && |ab| == FLAT
          invariant forall j | first <= j < k :: ab[j] == ino.sectors[j]
        {
          ab := ab[k := ino.sectors[k]];
          k := k + 1;
        }
        forall j: nat | first <= j <= last ensures ab[j] == At(View(), no, j) { Loaded(View(), no, j, ab); }
      } else if first < DIRECT {
        var k := first;
        while k < DIRECT
          invariant first <= k <= DIRECT && |ab| == FLAT
          invariant forall j | first <= j < k :: ab[j] == ino.sectors[j]
        {
          ab := ab[k := ino.sectors[k]];
          k := k + 1;
        }
        assert ino.sectors[DIRECT] != 0;
        ab := ab[..DIRECT] + Decode(SectorAt(disk, ino.sectors[DIRECT]));
        forall j: nat | first <= j <= last ensures ab[j] == At(View(), no, j) { Loaded(View(), no, j, ab); }
      } else {
        assert ino.sectors[DIRECT] != 0;
        ab := ab[..DIRECT] + Decode(SectorAt(disk, ino.sectors[DIRECT]));
        Loaded(View(), no, last, ab);
      }
    }

    /** `file_read`: the bytes from `pos` on, cut at the end of the file. */
    method FileRead(f: OpenFile, count: U32) returns (r: Read)
      requires Valid() && f.no in inodes
      modifies f`pos
      ensures Sized(View())
      ensures r.AtEnd? <==> 0 < count < 0x1_0000_0000 - old(f.pos) && old(f.pos) == inodes[f.no].size
      ensures r.Wild? <==>
        old(f.pos) < READ_END && (old(f.pos) > inodes[f.no].size || old(f.pos) + count >= 0x1_0000_0000)
      ensures r.ReadPanic? <==>
        && !r.AtEnd? && !r.Wild?
        && (old(f.pos) >= READ_END || old(f.pos) + CutAt(count, inodes[f.no].size - old(f.pos)) >= READ_END)
      ensures r.Data? ==> var n := CutAt(count, inodes[f.no].size - old(f.pos));
        n >= 0 && r.bytes == Files(View())[f.no][old(f.pos)..old(f.pos) + n] && f.pos == old(f.pos) + n
      ensures !r.Data? ==> f.pos == old(f.pos)
    {
      hide Slot, Inv, Files;
      SizedOk(View(), reserved);
      var total := inodes[f.no].size;
      Span(f.pos, count, total);
      var size := count;
      if (f.pos + count) % 0x1_0000_0000 > total {
        size := (total - f.pos) % 0x1_0000_0000;
        if size == 0 {
          return AtEnd;
        }
      }
      var first, last := f.pos / BLOCK, (f.pos + size) % 0x1_0000_0000 / BLOCK;
      if !(first < 139 && last < 139) {
        return ReadPanic;
      }
      if f.pos + size > total {
        return Wild;
      }
      var bytes := ReadWithin(f, size, first, last);
      r := Data(bytes);
    }

    /** The rest of `file_read` for bytes the file has. */
    method ReadWithin(f: OpenFile, size: nat, first: nat, last: nat) returns (bytes: seq<Byte>)
      requires Valid() && f.no in inodes && f.pos + size <= inodes[f.no].size
      requires first == f.pos / BLOCK && last == (f.pos + size) / BLOCK && last < 139
      modifies f`pos
      ensures Sized(View()) && f.pos == old(f.pos) + size
      ensures bytes == Files(View())[f.no][old(f.pos)..old(f.pos) + size]
    {
      hide Slot, Inv, SectorAt, At, Files, Contents;
      SizedOk(View(), reserved);
      var ab := LoadPointers(f.no, first, last);
      FileOf(View(), f.no);
      bytes := ReadChunks(f, size, ab);
    }

    /** The loop of `file_read` over the blocks. */
    method ReadChunks(f: OpenFile, size: nat, ab: seq<U32>) returns (bytes: seq<Byte>)
      requires f.no in inodes && inodes[f.no].size < FLAT * BLOCK && f.pos + size <= inodes[f.no].size && |ab| == FLAT
      requires forall k: nat | f.pos / BLOCK <= k <= (f.pos + size) / BLOCK && k < FLAT :: ab[k] == At(View(), f.no, k)
      modifies f`pos
      ensures bytes == Contents(disk, inodes[f.no])[old(f.pos)..old(f.pos) + size] && f.pos == old(f.pos) + size
    {
      hide Slot, SectorAt, At, Contents;
      ghost var fs := View();
      var no := f.no;
      ghost var from := f.pos;
      ghost var all := Contents(disk, inodes[no]);
      bytes := [];
      while |bytes| < size
        invariant |bytes| <= size && f.pos == from + |bytes| && no == f.no
        invariant bytes == all[from..f.pos]
      {
        var secIdx := f.pos / BLOCK;
        var secLba := ab[secIdx];
        var off := f.pos % BLOCK;
        var secLeft := BLOCK - off;
        var left := size - |bytes|;
        var chunk := if left < secLeft then left else secLeft;
        var ioBuf := SectorAt(disk, secLba);
        ChunkOf(fs, no, f.pos, chunk);
        Joined(all, from, f.pos, f.pos + chunk);
        bytes := bytes + ioBuf[off..off + chunk];
        f.pos := f.pos + chunk;
      }
    }

    /** `inode_init` for a number that is free. */
    method Create(no: nat)
      requires Valid() && no !in inodes
      modifies this
      ensures Valid() && Sized(old(View())) && Sized(View()) && Files(View()) == Files(old(View()))[no := []]
      ensures bits == old(bits) && disk == old(disk)
    {
      hide Slot, Inv, Files;
      SizedOk(View(), reserved);
      var sectors: seq<U32> := seq(13, _ => 1);
      for i := 0 to 13
        invariant |sectors| == 13 && forall j | 0 <= j < i :: sectors[j] == 0
      {
        sectors := sectors[i := 0];
      }
      CreateKeeps(View(), reserved, no, Inode(0, sectors));
      inodes := inodes[no := Inode(0, sectors)];
    }

    /** `inode_release`: the bits of the file's blocks, and of its table if it has one, are cleared. */
    method Release(no: nat)
      requires Valid() && no in inodes
      modifies this
      ensures Valid() && Sized(old(View())) && Sized(View()) && Files(View()) == Files(old(View())) - {no}
      ensures disk == old(disk) && |bits| == |old(bits)|
      ensures forall i | 0 <= i < |bits| :: bits[i] <==> old(bits)[i] && !OwnedBy(old(View()), no, start + i)
    {
      hide Slot, Inv, Files, Decode, SectorAt;
      ghost var fs := View();
      SizedOk(fs, reserved);
      var ino := inodes[no];
      var ab: seq<U32> := seq(FLAT, _ => 0);
      var i := 0;
      while i < DIRECT
        invariant i <= DIRECT && |ab| == FLAT && forall j | 0 <= j < FLAT ::
          ab[j] == if j < i then ino.sectors[j] else 0
      {
        ab := ab[i := ino.sectors[i]];
        i := i + 1;
      }
      var cnt := DIRECT;
      if ino.sectors[DIRECT] != 0 {
        ab := ab[..DIRECT] + Decode(SectorAt(disk, ino.sectors[DIRECT]));
        cnt := FLAT;
        var idx := ino.sectors[DIRECT] - start;
        SlotBit(fs, reserved, no, FLAT);
        TableSlot(fs, no);
        assert idx > 0;
        bits := bits[idx := false];
      }
      AllLoaded(fs, no, ab);
      TableSlot(fs, no);
      TableCleared(fs, bits, no);
      i := 0;
      while i < cnt
        invariant i <= cnt && |bits| == |fs.bits| && inodes == fs.inodes && disk == fs.disk
        invariant Cleared(fs, bits, no, i)
      {
        SlotBit(fs, reserved, no, i);
        ghost var bits0 := bits;
        if ab[i] != 0 {
          var idx := ab[i] - start;
          assert idx > 0;
          bits := bits[idx := false];
        }
        ClearedStep(fs, bits0, bits, no, i);
        i := i + 1;
      }
      ReleaseKeeps(fs, bits, reserved, no, cnt);
      inodes := inodes - {no};
    }

    /** A run of requests, up to the first that is refused: what the files hold is what the same requests make of
        byte sequences, and once every file is released the bitmap is the one the partition started with. */
    method Serve(ops: seq<Op>) returns (done: nat)
      requires Valid() && forall i | 0 <= i < |ops| && ops[i].Append? :: |ops[i].buf| <= 0xC000_0000
      modifies this
      ensures done <= |ops| && Sized(old(View())) && (done == |ops| ==> Valid() && Sized(View()))
      ensures done == |ops| ==> Files(View()) == Spec(Files(old(View())), ops)
      ensures done == |ops| && inodes == map[] ==> forall i | 0 <= i < |bits| :: bits[i] <==> i in reserved
    {
      hide Inv, Files, Spec, Free, Needed;
      SizedOk(View(), reserved);
      done := 0;
      SpecNone(Files(View()), ops);
      while done < |ops|
        invariant done <= |ops| && Valid() && Sized(View())
        invariant Files(View()) == Spec(Files(old(View())), ops[..done])
      {
        ghost var before := Files(View());
        FilesKeys(View());
        match ops[done] {
          case New(no) =>
            if no in inodes { return; }
            Create(no);
          case Append(no, buf) =>
            if no !in inodes { return; }
            var f := new OpenFile(no);
            var r := FileWrite(f, buf);
            if !r.Written? { return; }
          case Remove(no) =>
            if no !in inodes { return; }
            Release(no);
        }
        SizedOk(View(), reserved);
        assert Files(View()) == Effect(before, ops[done]);
        SpecMore(Files(old(View())), ops, done);
        done := done + 1;
      }
      assert ops[..done] == ops;
      NoneLeft(View(), reserved);
    }
  }

  // ---------------------------------------------------------------- files as byte sequences

  datatype Op = New(no: nat) | Append(no: nat, buf: seq<Byte>) | Remove(no: nat)

  function Effect(files: map<nat, seq<Byte>>, op: Op): map<nat, seq<Byte>> {
    match op
    case New(no) => files[no := []]
    case Append(no, buf) => if no in files then files[no := files[no] + buf] else files
    case Remove(no) => files - {no}
  }

  function Spec(files: map<nat, seq<Byte>>, ops: seq<Op>): map<nat, seq<Byte>> {
    if ops == [] then files else Effect(Spec(files, ops[..|ops| - 1]), ops[|ops| - 1])
  }

  lemma SpecNone(files: map<nat, seq<Byte>>, ops: seq<Op>)
    ensures Spec(files, ops[..0]) == files
  {
  }

  lemma SpecMore(files: map<nat, seq<Byte>>, ops: seq<Op>, n: nat)
    requires n < |ops|
    ensures Spec(files, ops[..n + 1]) == Effect(Spec(files, ops[..n]), ops[n])
  {
    assert ops[..n + 1][..n] == ops[..n];
  }

  /** Conservation: with no file left only the reserved bits are set. */
  lemma NoneLeft(fs: Fs, reserved: set<int>)
    requires Inv(fs, reserved)
    ensures fs.inodes == map[] ==> forall i | 0 <= i < |fs.bits| :: fs.bits[i] <==> i in reserved
  {
    if fs.inodes == map[] { assert forall x :: !Owned(fs, x); }
  }

  /** The pointer of block `k` as the code loads it. */
  lemma Loaded(fs: Fs, no: nat, k: nat, ab: seq<U32>)
    requires no in fs.inodes && k < FLAT && |ab| == FLAT
    requires var t := fs.inodes[no].sectors[DIRECT];
      if k < DIRECT then ab[k] == fs.inodes[no].sectors[k]
      else t != 0 && ab[DIRECT..] == Decode(SectorAt(fs.disk, t))
    ensures ab[k] == At(fs, no, k)
    ensures k >= DIRECT ==> forall j: nat | DIRECT <= j < FLAT :: ab[j] == At(fs, no, j)
  {
    if k >= DIRECT {
      forall j: nat | DIRECT <= j < FLAT ensures ab[j] == At(fs, no, j) { assert ab[j] == ab[DIRECT..][j - DIRECT]; }
    }
  }

  /** The inode after the allocation loop. */
  ghost predicate InodeGrown(ino: Inode, ino2: Inode, has: nat, will: nat, ab: seq<U32>, t: U32)
    requires |ab| == FLAT
  {
    ino2.size == ino.size && ino2.sectors[DIRECT] == t
    && forall k | 0 <= k < DIRECT :: ino2.sectors[k] == if has <= k < will then ab[k] else ino.sectors[k]
  }

  lemma GrownSame(fs: Fs, b: Fs, no: nat, has: nat, will: nat, ab: seq<U32>, t: U32)
    requires no in fs.inodes && no in b.inodes && |ab| == FLAT && b.start == fs.start &&
      b.inodes == fs.inodes[no := b.inodes[no]]
    requires InodeGrown(fs.inodes[no], b.inodes[no], has, will, ab, t)
    requires forall k | will <= k < DIRECT :: fs.inodes[no].sectors[k] == 0
    requires t == 0 ==> b.disk == fs.disk
    requires t != 0 ==> b.disk == fs.disk[t := Encode(ab[DIRECT..])]
    requires t != 0 ==> forall k: nat | DIRECT <= k < FLAT :: ab[k] == Extended(fs, no, has, will, ab)[k]
    ensures b == Repointed(fs, no, Extended(fs, no, has, will, ab), t, b.bits)
  {
    hide Encode;
    var flat := Extended(fs, no, has, will, ab);
    assert b.inodes[no].sectors == flat[..DIRECT] + [t];
    if t != 0 { assert ab[DIRECT..] == flat[DIRECT..]; }
  }

  lemma GrownDirect(fs: Fs, b: Fs, reserved: set<int>, no: nat, count: nat, ab: seq<U32>)
    requires Inv(fs, reserved) && no in fs.inodes && fs.inodes[no].sectors[0] != 0 &&
      fs.inodes[no].size + count < FLAT * BLOCK && |ab| == FLAT
    requires no in b.inodes && b.start == fs.start && b.inodes == fs.inodes[no := b.inodes[no]] && b.disk == fs.disk
    requires var has, will := fs.inodes[no].size / BLOCK + 1, (fs.inodes[no].size + count) / BLOCK + 1;
      && will <= DIRECT && Fresh(fs.start, fs.bits, b.bits, [] + ab[has..will]) && ab[has - 1] == At(fs, no, has - 1)
      && InodeGrown(fs.inodes[no], b.inodes[no], has, will, ab, fs.inodes[no].sectors[DIRECT])
    ensures Ready(fs, b, reserved, no, count, ab)
  {
    hide Inv, Slot, At, Fresh, Ready, Encode;
    var has, will := fs.inodes[no].size / BLOCK + 1, (fs.inodes[no].size + count) / BLOCK + 1;
    BlockFacts(fs, reserved, no);
    assert [] + ab[has..will] == Wanted(has, will, ab, 0);
    GrownSame(fs, b, no, has, will, ab, 0);
    GrownReady(fs, b, reserved, no, count, ab, 0);
  }

  lemma GrownTable(fs: Fs, b: Fs, reserved: set<int>, no: nat, count: nat, ab: seq<U32>, t: U32)
    requires Inv(fs, reserved) && no in fs.inodes && fs.inodes[no].sectors[0] != 0 &&
      fs.inodes[no].size + count < FLAT * BLOCK && |ab| == FLAT
    requires no in b.inodes && b.start == fs.start && b.inodes == fs.inodes[no := b.inodes[no]] &&
      b.disk == fs.disk[t := Encode(ab[DIRECT..])]
    requires var has, will := fs.inodes[no].size / BLOCK + 1, (fs.inodes[no].size + count) / BLOCK + 1;
      && has <= DIRECT < will && Fresh(fs.start, fs.bits, b.bits, [t] + ab[has..will]) &&
         ab[has - 1] == At(fs, no, has - 1)
      && InodeGrown(fs.inodes[no], b.inodes[no], has, will, ab, t)
      && (forall k | will <= k < FLAT :: ab[k] == 0)
    ensures Ready(fs, b, reserved, no, count, ab)
  {
    hide Inv, Slot, At, Fresh, Ready, Encode;
    var has, will := fs.inodes[no].size / BLOCK + 1, (fs.inodes[no].size + count) / BLOCK + 1;
    BlockFacts(fs, reserved, no);
    InWanted(fs, b, reserved, t, ab[has..will]);
    assert [t] + ab[has..will] == Wanted(has, will, ab, t);
    GrownSame(fs, b, no, has, will, ab, t);
    GrownReady(fs, b, reserved, no, count, ab, t);
  }

  lemma GrownIndirect(fs: Fs, b: Fs, reserved: set<int>, no: nat, count: nat, ab0: seq<U32>, ab: seq<U32>)
    requires Inv(fs, reserved) && no in fs.inodes && fs.inodes[no].sectors[0] != 0 &&
      fs.inodes[no].size + count < FLAT * BLOCK
    requires no in b.inodes && b.start == fs.start && b.inodes == fs.inodes[no := b.inodes[no]]
    requires |ab| == |ab0| == FLAT && forall k: nat | DIRECT <= k < FLAT :: ab0[k] == At(fs, no, k)
    requires var has, will := fs.inodes[no].size / BLOCK + 1, (fs.inodes[no].size + count) / BLOCK + 1;
      var t := fs.inodes[no].sectors[DIRECT];
      && DIRECT < has <= will && Fresh(fs.start, fs.bits, b.bits, [] + ab[has..will])
      && InodeGrown(fs.inodes[no], b.inodes[no], has, will, ab, t) && b.disk == fs.disk[t := Encode(ab[DIRECT..])]
      && ab[..has] == ab0[..has] && ab[will..] == ab0[will..]
    ensures Ready(fs, b, reserved, no, count, ab)
  {
    hide Inv, Slot, At, Fresh, Ready, Encode;
    var has, will := fs.inodes[no].size / BLOCK + 1, (fs.inodes[no].size + count) / BLOCK + 1;
    var t := fs.inodes[no].sectors[DIRECT];
    BlockFacts(fs, reserved, no);
    TableSlot(fs, no);
    forall k: nat | DIRECT <= k < FLAT ensures ab[k] == Extended(fs, no, has, will, ab)[k] {
      if k < has {
        assert ab[..has][k] == ab0[..has][k];
      } else if will <= k {
        assert ab[will..][k - will] == ab0[will..][k - will];
        PastEnd(fs, reserved, no, k);
      }
    }
    assert ab[has - 1] == At(fs, no, has - 1);
    assert [] + ab[has..will] == Wanted(has, will, ab, t);
    GrownSame(fs, b, no, has, will, ab, t);
    GrownReady(fs, b, reserved, no, count, ab, t);
  }

  lemma InWanted(fs: Fs, b: Fs, reserved: set<int>, t: U32, rest: seq<U32>)
    requires Inv(fs, reserved) && Fresh(fs.start, fs.bits, b.bits, [t] + rest)
    ensures t != 0
  {
    StartPositive(fs, reserved, Counts(fs));
    assert t in [t] + rest;
  }

  lemma PastEnd(fs: Fs, reserved: set<int>, no: nat, k: nat)
    requires Inv(fs, reserved) && no in fs.inodes && fs.inodes[no].size / BLOCK + 1 <= k < FLAT
    ensures At(fs, no, k) == 0
  {
    MappedAt(fs, reserved, Counts(fs), no, k);
  }

  lemma FreshNone(start: int, bits: seq<bool>)
    ensures Fresh(start, bits, bits, [])
  {
  }

  /** The file has the blocks it will need, no byte has changed, and `ab` has the pointers from the last one on. */
  ghost predicate Ready(fs: Fs, b: Fs, reserved: set<int>, no: nat, count: nat, ab: seq<U32>) {
    && no in fs.inodes && no in b.inodes && b.inodes[no].size == fs.inodes[no].size &&
       b.inodes == fs.inodes[no := b.inodes[no]]
    && Sized(fs) && fs.inodes[no].size + count < FLAT * BLOCK
    && var will := (fs.inodes[no].size + count) / BLOCK + 1;
    && Shape(b, reserved, Counts(fs)[no := will]) && Sized(b) && Files(b) == Files(fs)
    && |ab| == FLAT && forall k: nat | fs.inodes[no].size / BLOCK <= k < will :: ab[k] == At(b, no, k)
  }

  /** What the invariant says about the pointers of a file with blocks. */
  lemma BlockFacts(fs: Fs, reserved: set<int>, no: nat)
    requires Inv(fs, reserved) && no in fs.inodes && fs.inodes[no].sectors[0] != 0
    ensures var ino := fs.inodes[no]; var has := ino.size / BLOCK + 1;
      && has <= FLAT && fs.start + |fs.bits| <= 0x1_0000_0000
      && (forall k: nat | k < DIRECT :: ino.sectors[k] != 0 <==> k < has)
      && (ino.sectors[DIRECT] != 0 <==> has > DIRECT)
  {
    var n := Counts(fs);
    assert Mapped(fs.disk, fs.inodes[no], n[no]);
    forall k: nat | k < DIRECT ensures fs.inodes[no].sectors[k] != 0 <==> k < n[no] {
      assert Slot(fs.disk, fs.inodes[no], k) == fs.inodes[no].sectors[k];
    }
  }

  lemma AlreadyThere(fs: Fs, reserved: set<int>, no: nat, count: nat, ab: seq<U32>)
    requires Inv(fs, reserved) && no in fs.inodes && fs.inodes[no].sectors[0] != 0 &&
      fs.inodes[no].size + count < FLAT * BLOCK
    requires (fs.inodes[no].size + count) / BLOCK == fs.inodes[no].size / BLOCK
    requires |ab| == FLAT && ab[fs.inodes[no].size / BLOCK] == At(fs, no, fs.inodes[no].size / BLOCK)
    ensures Ready(fs, fs, reserved, no, count, ab)
  {
    hide Slot, Shape, Files;
    CountsKeys(fs, reserved);
    var will := (fs.inodes[no].size + count) / BLOCK + 1;
    var n := Counts(fs);
    assert n[no] == will && n[no := will] == n;
    assert fs.inodes[no := fs.inodes[no]] == fs.inodes;
    assert will <= FLAT;
  }

  lemma GrownReady(fs: Fs, b: Fs, reserved: set<int>, no: nat, count: nat, ab: seq<U32>, t: U32)
    requires Inv(fs, reserved) && no in fs.inodes && fs.inodes[no].sectors[0] != 0 &&
      fs.inodes[no].size + count < FLAT * BLOCK && |ab| == FLAT
    requires var has, will := fs.inodes[no].size / BLOCK + 1, (fs.inodes[no].size + count) / BLOCK + 1;
      && Fresh(fs.start, fs.bits, b.bits, Wanted(has, will, ab, t))
      && (will <= DIRECT ==> t == 0) && (has > DIRECT ==> t == At(fs, no, FLAT))
      && ab[has - 1] == At(fs, no, has - 1)
      && b == Repointed(fs, no, Extended(fs, no, has, will, ab), t, b.bits)
    ensures Ready(fs, b, reserved, no, count, ab)
  {
    hide Slot, At, Shape, Fresh, Extended, Wanted, Files, Encode, Repointed;
    CountsKeys(fs, reserved);
    var has, will := fs.inodes[no].size / BLOCK + 1, (fs.inodes[no].size + count) / BLOCK + 1;
    assert Counts(fs)[no] == has;
    GrownTo(fs, b, reserved, Counts(fs), no, has, will, ab, t);
  }

  lemma GrownTo(fs: Fs, b: Fs, reserved: set<int>, n: map<nat, nat>, no: nat, has: nat, will: nat, ab: seq<U32>, t: U32)
    requires Shape(fs, reserved, n) && no in fs.inodes && no in n && n[no] == has && 0 < has <= will <= FLAT &&
      |ab| == FLAT
    requires Fresh(fs.start, fs.bits, b.bits, Wanted(has, will, ab, t))
    requires (will <= DIRECT ==> t == 0) && (has > DIRECT ==> t == At(fs, no, FLAT)) &&
      ab[has - 1] == At(fs, no, has - 1)
    requires b == Repointed(fs, no, Extended(fs, no, has, will, ab), t, b.bits)
    ensures no in b.inodes && b.inodes[no].size == fs.inodes[no].size && b.inodes == fs.inodes[no := b.inodes[no]]
    ensures Shape(b, reserved, n[no := will]) && Sized(fs) && Sized(b) && Files(b) == Files(fs)
    ensures forall k: nat | has - 1 <= k < will :: ab[k] == At(b, no, k)
  {
    hide Slot, Shape, Fresh, Extended, Wanted, Files, Encode, At, Repointed;
    var flat := Extended(fs, no, has, will, ab);
    GrownBy(fs, b, no, has, will, ab, t);
    ExtendKeeps(fs, reserved, n, no, ab, t, b.bits, will);
    forall k: nat | has - 1 <= k < will ensures ab[k] == At(b, no, k) {
      assert ab[k] == flat[k];
    }
  }

  lemma GrownBy(fs: Fs, b: Fs, no: nat, has: nat, will: nat, ab: seq<U32>, t: U32)
    requires no in fs.inodes && 0 < has <= will <= FLAT && |ab| == FLAT && ab[has - 1] == At(fs, no, has - 1)
    requires b == Repointed(fs, no, Extended(fs, no, has, will, ab), t, b.bits)
    ensures no in b.inodes && b.inodes[no].size == fs.inodes[no].size && b.inodes == fs.inodes[no := b.inodes[no]]
    ensures forall k: nat | has - 1 <= k < will :: Extended(fs, no, has, will, ab)[k] == ab[k]
  {
    hide Slot, Encode;
  }

  lemma CountsKeys(fs: Fs, reserved: set<int>)
    requires Inv(fs, reserved)
    ensures Counts(fs).Keys == fs.inodes.Keys && Sized(fs)
  {
    ShapeSized(fs, reserved, Counts(fs));
  }

  lemma SizedOk(fs: Fs, reserved: set<int>)
    requires Inv(fs, reserved)
    ensures Sized(fs) && fs.start + |fs.bits| <= 0x1_0000_0000 && fs.start > 0
  {
    ShapeSized(fs, reserved, Counts(fs));
  }

  lemma BitZero(fs: Fs, reserved: set<int>)
    requires Inv(fs, reserved) && |fs.bits| > 0
    ensures fs.bits[0]
  {
  }

  /** Block 0 in place: still no bytes, one block. */
  lemma FirstKeeps(fs: Fs, b: Fs, reserved: set<int>, no: nat, lba: U32)
    requires Inv(fs, reserved) && no in fs.inodes && fs.inodes[no].sectors[0] == 0 &&
      Fresh(fs.start, fs.bits, b.bits, [] + [lba])
    requires b == fs.(bits := b.bits,
      inodes := fs.inodes[no := fs.inodes[no].(sectors := fs.inodes[no].sectors[0 := lba])])
    ensures Inv(b, reserved) && Sized(fs) && Sized(b) && Files(b) == Files(fs) && lba != 0
  {
    hide Slot, Shape, Fresh, Files, Extended;
    var n := Counts(fs);
    CountsKeys(fs, reserved);
    var ab: seq<U32> := seq(FLAT, _ => lba);
    assert Wanted(0, 1, ab, 0) == [] + [lba];
    FirstSame(fs, b, reserved, no, lba, ab);
    ExtendKeeps(fs, reserved, n, no, ab, 0, b.bits, 1);
    assert Counts(b) == n[no := 1];
  }

  lemma FirstSame(fs: Fs, b: Fs, reserved: set<int>, no: nat, lba: U32, ab: seq<U32>)
    requires Inv(fs, reserved) && no in fs.inodes && fs.inodes[no].sectors[0] == 0 &&
      Fresh(fs.start, fs.bits, b.bits, [] + [lba])
    requires b == fs.(bits := b.bits,
      inodes := fs.inodes[no := fs.inodes[no].(sectors := fs.inodes[no].sectors[0 := lba])])
    requires |ab| == FLAT && ab[0] == lba
    ensures b == Repointed(fs, no, Extended(fs, no, 0, 1, ab), 0, b.bits) && lba != 0
  {
    hide Shape, Files;
    StartPositive(fs, reserved, Counts(fs));
    assert lba in [] + [lba];
    var flat := Extended(fs, no, 0, 1, ab);
    forall k: nat | k <= DIRECT ensures k < DIRECT ==> flat[k] == fs.inodes[no].sectors[0 := lba][k]
      ensures fs.inodes[no].sectors[k] == 0
    {
      MappedAt(fs, reserved, Counts(fs), no, if k == DIRECT then FLAT else k);
    }
    assert fs.inodes[no].sectors[0 := lba] == flat[..DIRECT] + [0];
  }

  /** File `no` has grown by `buf` and nothing else has changed. */
  ghost predicate Appended(fs: Fs, b: Fs, reserved: set<int>, no: nat, buf: seq<Byte>) {
    && Inv(b, reserved) && Sized(fs) && Sized(b) && no in fs.inodes && no in b.inodes
    && Files(b) == Files(fs)[no := Files(fs)[no] + buf]
    && b.inodes[no].sectors[0] != 0 && b.inodes[no].size == fs.inodes[no].size + |buf|
  }

  /** From `b`, the bytes `done` have been written. */
  ghost predicate Progress(b: Fs, v: Fs, reserved: set<int>, n: map<nat, nat>, no: nat, done: seq<Byte>) {
    && Sized(b) && Sized(v) && Shape(v, reserved, n) && SamePointers(b, v) && no in b.inodes &&
       b.inodes[no].size + |done| < FLAT * BLOCK
    && v.inodes == b.inodes[no := b.inodes[no].(size := b.inodes[no].size + |done|)]
    && Files(v) == Files(b)[no := Files(b)[no] + done]
  }

  lemma ReadyIn(fs: Fs, b: Fs, reserved: set<int>, no: nat, buf: seq<Byte>, ab: seq<U32>)
    requires Ready(fs, b, reserved, no, |buf|, ab)
    ensures no in fs.inodes && no in b.inodes && b.inodes[no].size == fs.inodes[no].size && |ab| == FLAT &&
      fs.inodes[no].size + |buf| < FLAT * BLOCK
  {
  }

  lemma ProgressIn(b: Fs, v: Fs, reserved: set<int>, n: map<nat, nat>, no: nat, done: seq<Byte>)
    requires Progress(b, v, reserved, n, no, done)
    ensures no in b.inodes && no in v.inodes && v.inodes[no].size == b.inodes[no].size + |done|
  {
  }

  lemma ChunkEnds(size: nat, chunk: nat)
    requires size + chunk < FLAT * BLOCK
    ensures chunk == BLOCK - size % BLOCK ==> (size + chunk) % BLOCK == 0
    ensures (Before(size) + chunk) % 0x1_0000_0000 == Before(size + chunk)
  {
    if chunk == BLOCK - size % BLOCK { BlockEnd(size / 512); }
    if size == 0 { assert Before(size) == 0xffff_ffff; }
  }

  lemma BlockEnd(q: nat)
    ensures (512 * q + 512) % 512 == 0
  {
  }

  lemma Begin(fs: Fs, b: Fs, reserved: set<int>, n: map<nat, nat>, no: nat, buf: seq<Byte>, ab: seq<U32>)
    requires Ready(fs, b, reserved, no, |buf|, ab) && n == Counts(fs)[no := (fs.inodes[no].size + |buf|) / BLOCK + 1]
    ensures Progress(b, b, reserved, n, no, [])
  {
    hide Slot, Shape;
    assert b.inodes[no := b.inodes[no]] == b.inodes;
    assert Files(b)[no] + [] == Files(b)[no];
    assert Files(b)[no := Files(b)[no]] == Files(b);
  }

  lemma ChunkFits(fs: Fs, b: Fs, v: Fs, reserved: set<int>, n: map<nat, nat>, no: nat, buf: seq<Byte>, written: nat,
      ab: seq<U32>)
    requires Ready(fs, b, reserved, no, |buf|, ab) && n == Counts(fs)[no := (fs.inodes[no].size + |buf|) / BLOCK + 1]
    requires written < |buf| && Progress(b, v, reserved, n, no, buf[..written])
    ensures no in v.inodes && no in n && v.inodes[no].size / BLOCK < n[no] <= FLAT && |ab| == FLAT &&
      ab[v.inodes[no].size / BLOCK] == At(v, no, v.inodes[no].size / BLOCK)
    ensures v.inodes[no].size == fs.inodes[no].size + written
  {
    hide Slot, Shape, Files;
    var k := v.inodes[no].size / BLOCK;
    assert Has(b, no, k) && At(v, no, k) == At(b, no, k);
  }

  lemma Overlay(was: Sector, before: Sector, off: nat, data: seq<Byte>, s: seq<Byte>)
    requires off + |data| <= BLOCK && (off == 0 || before == was) && s == before[..off] + data + before[off + |data|..]
    ensures |s| == 512 && Overlaid(was, off, data, s)
  {
  }

  lemma ProgressStep(b: Fs, v: Fs, reserved: set<int>, n: map<nat, nat>, no: nat, buf: seq<Byte>, written: nat,
      s: Sector, data: seq<Byte>)
    requires written + |data| <= |buf| && data == buf[written..written + |data|]
    requires Progress(b, v, reserved, n, no, buf[..written]) && b.inodes[no].size + |buf| < FLAT * BLOCK && no in n &&
      v.inodes[no].size / BLOCK < n[no]
    requires var size := v.inodes[no].size; Overlaid(SectorAt(v.disk, At(v, no, size / BLOCK)), size % BLOCK, data, s)
    ensures var size := v.inodes[no].size;
      Progress(b, Put(v, no, size / BLOCK, s, size + |data|), reserved, n, no, buf[..written + |data|])
  {
    hide Slot, Shape, Overlaid, SectorAt, Files, SamePointers, At;
    PutAppends(v, reserved, n, no, s, data);
    var size := v.inodes[no].size;
    var v2 := Put(v, no, size / BLOCK, s, size + |data|);
    SamePointersTrans(b, v, v2);
    FilesKeys(b);
    UpdateTwice(Files(b), no, buf, written, data);
    assert v2.inodes == b.inodes[no := b.inodes[no].(size := b.inodes[no].size + |buf[..written + |data|]|)];
  }

  lemma FilesKeys(fs: Fs)
    requires Sized(fs)
    ensures Files(fs).Keys == fs.inodes.Keys
  {
  }

  lemma SamePointersTrans(a: Fs, b: Fs, c: Fs)
    requires SamePointers(a, b) && SamePointers(b, c)
    ensures SamePointers(a, c)
  {
    hide Slot;
    forall m: nat, k: nat | Has(a, m, k)
      ensures At(c, m, k) == At(a, m, k)
    {
      assert Has(b, m, k) && At(b, m, k) == At(a, m, k);
    }
  }

  lemma UpdateTwice(files: map<nat, seq<Byte>>, no: nat, buf: seq<Byte>, written: nat, data: seq<Byte>)
    requires no in files && written + |data| <= |buf| && data == buf[written..written + |data|]
    ensures var mid := files[no := files[no] + buf[..written]];
      mid[no := mid[no] + data] == files[no := files[no] + buf[..written + |data|]]
  {
    assert buf[..written] + data == buf[..written + |data|];
    assert files[no] + buf[..written] + data == files[no] + buf[..written + |data|];
  }

  lemma FirstIn(v: Fs, reserved: set<int>, n: map<nat, nat>, no: nat)
    requires Shape(v, reserved, n) && no in v.inodes && no in n && n[no] > 0
    ensures v.inodes[no].sectors[0] != 0
  {
    MappedAt(v, reserved, n, no, 0);
  }

  lemma Finish(fs: Fs, b: Fs, v: Fs, reserved: set<int>, n: map<nat, nat>, no: nat, buf: seq<Byte>, ab: seq<U32>)
    requires Ready(fs, b, reserved, no, |buf|, ab) && n == Counts(fs)[no := (fs.inodes[no].size + |buf|) / BLOCK + 1]
    requires Progress(b, v, reserved, n, no, buf) && Inv(fs, reserved)
    ensures Appended(fs, v, reserved, no, buf)
  {
    hide Slot, Shape, Files, SamePointers;
    FirstIn(v, reserved, n, no);
    assert v.inodes[no].sectors[0] != 0;
    assert Counts(v) == n;
  }

  lemma NeededSplit(ino: Inode, ino1: Inode, count: nat)
    requires ino1.size == ino.size && ino1.sectors[0] != 0 && (ino.sectors[0] == 0 ==> ino.size == 0)
    ensures Needed(ino, count) == Needed(ino1, count) + if ino.sectors[0] == 0 then 1 else 0
    ensures Needed(ino1, count) >= 0
  {
  }

  lemma EmptySize(fs: Fs, reserved: set<int>, no: nat)
    requires Inv(fs, reserved) && no in fs.inodes && fs.inodes[no].sectors[0] == 0
    ensures fs.inodes[no].size == 0
  {
  }

  // ---------------------------------------------------------------- reading

  /** What is left of a request after the bound check, in 32 bits. */
  function Asked(pos: U32, count: U32, total: U32): U32 {
    if (pos + count) % 0x1_0000_0000 > total then (total - pos) % 0x1_0000_0000 else count
  }

  /** The request is cut at the end of the file, unless the position lies behind it or the sum wraps round. */
  lemma Span(pos: U32, count: U32, total: U32)
    requires total < FLAT * BLOCK
    ensures var n := Asked(pos, count, total); var end := (pos + n) % 0x1_0000_0000;
      && ((pos + count) % 0x1_0000_0000 > total && n == 0 <==> 0 < count < 0x1_0000_0000 - pos && pos == total)
      && (pos + n > total <==> pos > total || pos + count >= 0x1_0000_0000)
      && (pos <= total && pos + count < 0x1_0000_0000 ==> n == CutAt(count, total - pos) && end == pos + n)
      && (pos < READ_END && pos + n > total ==> end < READ_END)
  {
    if pos + count >= 0x1_0000_0000 { assert (pos + count) % 0x1_0000_0000 == pos + count - 0x1_0000_0000; }
    if pos > total { assert (total - pos) % 0x1_0000_0000 == total - pos + 0x1_0000_0000; }
  }

  function CutAt(count: int, rest: int): int { if count > rest then rest else count }

  lemma TableThere(fs: Fs, reserved: set<int>, no: nat, last: nat)
    requires Inv(fs, reserved) && no in fs.inodes && last < FLAT && last * BLOCK <= fs.inodes[no].size
    ensures last >= DIRECT ==> fs.inodes[no].sectors[DIRECT] != 0
  {
    MappedAt(fs, reserved, Counts(fs), no, FLAT);
  }

  lemma FileOf(fs: Fs, no: nat)
    requires Sized(fs) && no in fs.inodes
    ensures no in Files(fs) && Files(fs)[no] == Contents(fs.disk, fs.inodes[no])
  {
  }

  lemma Joined(all: seq<Byte>, i: nat, j: nat, k: nat)
    requires i <= j <= k <= |all|
    ensures all[i..j] + all[j..k] == all[i..k]
  {
  }

  lemma ChunkOf(fs: Fs, no: nat, pos: nat, chunk: nat)
    requires no in fs.inodes && fs.inodes[no].size < FLAT * BLOCK && pos + chunk <= fs.inodes[no].size &&
      chunk <= BLOCK - pos % BLOCK
    requires pos / BLOCK <= FLAT
    ensures SectorAt(fs.disk, At(fs, no, pos / BLOCK))[pos % BLOCK..pos % BLOCK + chunk] ==
      Contents(fs.disk, fs.inodes[no])[pos..pos + chunk]
  {
    hide Slot, SectorAt;
    var all := Contents(fs.disk, fs.inodes[no]);
    var s := SectorAt(fs.disk, At(fs, no, pos / BLOCK));
    var a, b := s[pos % BLOCK..pos % BLOCK + chunk], all[pos..pos + chunk];
    forall j | 0 <= j < chunk ensures a[j] == b[j] {
      assert (pos + j) / BLOCK == pos / BLOCK && (pos + j) % BLOCK == pos % BLOCK + j;
    }
  }

  // ---------------------------------------------------------------- creating and releasing

  lemma CreateKeeps(fs: Fs, reserved: set<int>, no: nat, ino: Inode)
    requires Inv(fs, reserved) && no !in fs.inodes && ino.size == 0 && forall k | 0 <= k < 13 :: ino.sectors[k] == 0
    ensures var b := fs.(inodes := fs.inodes[no := ino]);
      Inv(b, reserved) && Sized(fs) && Sized(b) && Files(b) == Files(fs)[no := []]
  {
    hide Slot, Disjoint, BitsOk, Mapped, Files;
    var b := fs.(inodes := fs.inodes[no := ino]);
    SizedOk(fs, reserved);
    CreateBits(fs, b, reserved, no, ino);
    CreateFiles(fs, b, no, ino);
    assert Counts(b) == Counts(fs)[no := 0];
    forall m | m in b.inodes ensures Mapped(b.disk, b.inodes[m], Counts(b)[m]) {
      if m != no { assert Mapped(fs.disk, fs.inodes[m], Counts(fs)[m]); }
    }
  }

  lemma CreateFiles(fs: Fs, b: Fs, no: nat, ino: Inode)
    requires Sized(fs) && ino.size == 0 && b == fs.(inodes := fs.inodes[no := ino])
    ensures Sized(b) && Files(b) == Files(fs)[no := []]
  {
    assert Contents(b.disk, ino) == [];
  }

  lemma CreateBits(fs: Fs, b: Fs, reserved: set<int>, no: nat, ino: Inode)
    requires Disjoint(fs) && BitsOk(fs, reserved) && no !in fs.inodes && ino.size == 0 && forall k | 0 <= k < 13 ::
      ino.sectors[k] == 0
    requires b == fs.(inodes := fs.inodes[no := ino])
    ensures Disjoint(b) && BitsOk(b, reserved) && Mapped(b.disk, ino, 0)
  {
    hide Slot, Owned;
    NoSlots(b.disk, ino);
    forall m: nat, k: nat | Has(b, m, k)
      ensures if m == no then At(b, m, k) == 0 else Has(fs, m, k) && At(b, m, k) == At(fs, m, k)
    {
    }
    forall x | x != 0 ensures Owned(b, x) <==> Owned(fs, x) { CreateOwned(fs, b, no, ino, x); }
  }

  lemma CreateOwned(fs: Fs, b: Fs, no: nat, ino: Inode, x: int)
    requires no !in fs.inodes && (forall k | 0 <= k < 13 :: ino.sectors[k] == 0) &&
      b == fs.(inodes := fs.inodes[no := ino]) && x != 0
    ensures Owned(b, x) <==> Owned(fs, x)
  {
    hide Slot;
    NoSlots(b.disk, ino);
    if Owned(fs, x) {
      var m: nat, k: nat :| Has(fs, m, k) && At(fs, m, k) == x;
      assert Has(b, m, k) && At(b, m, k) == x;
    }
    if Owned(b, x) {
      var m: nat, k: nat :| Has(b, m, k) && At(b, m, k) == x;
      assert Has(fs, m, k) && At(fs, m, k) == x;
    }
  }

  lemma NoSlots(disk: map<int, Sector>, ino: Inode)
    requires forall k | 0 <= k < 13 :: ino.sectors[k] == 0
    ensures forall k: nat | k <= FLAT :: Slot(disk, ino, k) == 0
  {
  }

  ghost predicate OwnedBy(fs: Fs, no: nat, b: int) {
    exists k: nat :: Has(fs, no, k) && At(fs, no, k) == b
  }

  /** Sector `b` is the table or one of the first `n` blocks of the file. */
  ghost predicate GoneBy(fs: Fs, no: nat, n: nat, b: int) {
    exists k: nat :: Has(fs, no, k) && (k < n || k == FLAT) && At(fs, no, k) == b
  }

  ghost predicate Cleared(fs: Fs, bits: seq<bool>, no: nat, n: nat) {
    && |bits| == |fs.bits| && fs.start > 0
    && forall i | 0 <= i < |bits| :: bits[i] <==> fs.bits[i] && !GoneBy(fs, no, n, fs.start + i)
  }

  lemma TableSlot(fs: Fs, no: nat)
    requires no in fs.inodes
    ensures At(fs, no, FLAT) == fs.inodes[no].sectors[DIRECT]
  {
  }

  lemma SlotBit(fs: Fs, reserved: set<int>, no: nat, k: nat)
    requires Inv(fs, reserved) && Has(fs, no, k)
    ensures At(fs, no, k) != 0 ==> 0 < At(fs, no, k) - fs.start < |fs.bits|
  {
    hide Slot, Mapped;
    assert SlotOk(fs, reserved, At(fs, no, k));
  }

  lemma AllLoaded(fs: Fs, no: nat, ab: seq<U32>)
    requires no in fs.inodes && |ab| == FLAT && forall k | 0 <= k < DIRECT :: ab[k] == fs.inodes[no].sectors[k]
    requires var t := fs.inodes[no].sectors[DIRECT];
      if t == 0 then forall k | DIRECT <= k < FLAT :: ab[k] == 0 else ab[DIRECT..] == Decode(SectorAt(fs.disk, t))
    ensures forall k: nat | k < FLAT :: ab[k] == At(fs, no, k)
  {
    forall k: nat | k < FLAT ensures ab[k] == At(fs, no, k) {
      if k < DIRECT || fs.inodes[no].sectors[DIRECT] != 0 { Loaded(fs, no, k, ab); }
    }
  }

  lemma TableCleared(fs: Fs, bits: seq<bool>, no: nat)
    requires no in fs.inodes && fs.start > 0
    requires var t := At(fs, no, FLAT);
      if t == 0 then bits == fs.bits else 0 <= t - fs.start < |fs.bits| && bits == fs.bits[t - fs.start := false]
    ensures Cleared(fs, bits, no, 0)
  {
    hide Slot;
    var t := At(fs, no, FLAT);
    forall b ensures GoneBy(fs, no, 0, b) <==> b == t {
      if b == t { assert Has(fs, no, FLAT); }
    }
  }

  lemma ClearedStep(fs: Fs, bits: seq<bool>, next: seq<bool>, no: nat, n: nat)
    requires no in fs.inodes && n < FLAT && Cleared(fs, bits, no, n)
    requires var b := At(fs, no, n);
      if b == 0 then next == bits else 0 <= b - fs.start < |bits| && next == bits[b - fs.start := false]
    ensures Cleared(fs, next, no, n + 1)
  {
    hide Slot;
    var t := At(fs, no, n);
    forall b ensures GoneBy(fs, no, n + 1, b) <==> GoneBy(fs, no, n, b) || b == t {
      if b == t { assert Has(fs, no, n); }
    }
  }

  lemma ReleaseKeeps(fs: Fs, bits: seq<bool>, reserved: set<int>, no: nat, cnt: nat)
    requires Inv(fs, reserved) && no in fs.inodes && Cleared(fs, bits, no, cnt)
    requires cnt == FLAT || (cnt == DIRECT && fs.inodes[no].sectors[DIRECT] == 0)
    ensures var b := fs.(bits := bits, inodes := fs.inodes - {no});
      Inv(b, reserved) && Sized(fs) && Sized(b) && Files(b) == Files(fs) - {no}
    ensures forall i | 0 <= i < |bits| :: bits[i] <==> fs.bits[i] && !OwnedBy(fs, no, fs.start + i)
  {
    hide Slot, Mapped, BitsOk, Disjoint, Cleared, OwnedBy;
    var b := fs.(bits := bits, inodes := fs.inodes - {no});
    SizedOk(fs, reserved);
    GoneAll(fs, bits, no, cnt);
    ReleaseBits(fs, b, reserved, no);
    assert Counts(b) == Counts(fs) - {no};
    forall m | m in b.inodes ensures Mapped(b.disk, b.inodes[m], Counts(b)[m]) {
      assert Mapped(fs.disk, fs.inodes[m], Counts(fs)[m]);
    }
  }

  lemma GoneAll(fs: Fs, bits: seq<bool>, no: nat, cnt: nat)
    requires no in fs.inodes && Cleared(fs, bits, no, cnt)
    requires cnt == FLAT || (cnt == DIRECT && fs.inodes[no].sectors[DIRECT] == 0)
    ensures |bits| == |fs.bits|
    ensures forall i | 0 <= i < |bits| :: bits[i] <==> fs.bits[i] && !OwnedBy(fs, no, fs.start + i)
  {
    forall b | b > 0 ensures GoneBy(fs, no, cnt, b) <==> OwnedBy(fs, no, b) {
      if OwnedBy(fs, no, b) {
        var k: nat :| Has(fs, no, k) && At(fs, no, k) == b;
        assert k < cnt || k == FLAT;
      }
    }
  }

  lemma ReleaseBits(fs: Fs, b: Fs, reserved: set<int>, no: nat)
    requires Disjoint(fs) && BitsOk(fs, reserved) && no in fs.inodes &&
      b == fs.(bits := b.bits, inodes := fs.inodes - {no}) && |b.bits| == |fs.bits|
    requires forall i | 0 <= i < |b.bits| :: b.bits[i] <==> fs.bits[i] && !OwnedBy(fs, no, fs.start + i)
    ensures Disjoint(b) && BitsOk(b, reserved)
  {
    hide Slot, Owned;
    assert forall m: nat, k: nat :: Has(b, m, k) ==> Has(fs, m, k) && At(b, m, k) == At(fs, m, k);
    forall i | 0 <= i < |b.bits| ensures b.bits[i] <==> i in reserved || Owned(b, b.start + i) {
      var x := fs.start + i;
      ReleaseOwned(fs, b, reserved, no, x);
      if OwnedBy(fs, no, x) {
        var k: nat :| Has(fs, no, k) && At(fs, no, k) == x;
        assert SlotOk(fs, reserved, At(fs, no, k));
      }
    }
    forall m: nat, k: nat | Has(b, m, k) ensures SlotOk(b, reserved, At(b, m, k)) { assert Has(fs, m, k) &&
      SlotOk(fs, reserved, At(fs, m, k)); }
  }

  lemma ReleaseOwned(fs: Fs, b: Fs, reserved: set<int>, no: nat, x: int)
    requires Disjoint(fs) && no in fs.inodes && b == fs.(bits := b.bits, inodes := fs.inodes - {no}) && x != 0
    ensures Owned(b, x) <==> Owned(fs, x) && !OwnedBy(fs, no, x)
  {
    hide Slot;
    if Owned(b, x) {
      var m: nat, k: nat :| Has(b, m, k) && At(b, m, k) == x;
      assert Has(fs, m, k) && At(fs, m, k) == x;
    }
    if Owned(fs, x) && !OwnedBy(fs, no, x) {
      var m: nat, k: nat :| Has(fs, m, k) && At(fs, m, k) == x;
      assert Has(b, m, k) && At(b, m, k) == x;
    }
  }
}
