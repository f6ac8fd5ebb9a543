/** Files at the limit of 140 blocks, where `file_write` and `file_read` stop the kernel. */
module FileExamples {
  import opened Common
  import opened Bitmap
  import opened FileBlocks
  import opened FileSystem

  lemma {:induction false} FreeAll(n: nat)
    ensures Free(seq(n, _ => false)) == n
  {
    if n > 0 {
      FreeAll(n - 1);
      assert seq(n, _ => false)[1..] == seq(n - 1, _ => false);
    }
  }

  /** Bit 0 is the root directory's, the others are free. */
  function Almost(n: nat): (bits: seq<bool>)
    ensures |bits| == n + 1 && bits[0] && Free(bits) == n
  {
    FreeAll(n);
    assert ([true] + seq(n, _ => false))[1..] == seq(n, _ => false);
    [true] + seq(n, _ => false)
  }

  function Bytes(n: nat): (buf: seq<Byte>)
    ensures |buf| == n
  {
    seq(n, _ => 0)
  }

  /** An empty file and a buffer of exactly 140 blocks: not too large, and not written. */
  method WritePanics() returns (r: Write)
    ensures r == WritePanic
  {
    hide Inv, Files, Free;
    var part := new Partition(1, Almost(200), map[]);
    part.Create(0);
    CreatedEmpty(part.View(), 0);
    var f := new OpenFile(0);
    r := part.FileWrite(f, Bytes(71680));
  }

  /** 139 blocks are written, and cannot be read back in one call; one byte less can. */
  method ReadPanics() returns (w: Write, r: Read, r2: Read)
    ensures w == Written(71168) && r == ReadPanic && r2 == Data(Bytes(71167))
  {
    hide Inv, Files, Free;
    var part := new Partition(1, Almost(200), map[]);
    part.Create(0);
    CreatedEmpty(part.View(), 0);
    var f := new OpenFile(0);
    w := part.FileWrite(f, Bytes(71168));
    var g := new OpenFile(0);
    r := part.FileRead(g, 71168);
    r2 := part.FileRead(g, 71167);
    assert [] + Bytes(71168) == Bytes(71168);
    assert Bytes(71168)[..71167] == Bytes(71167);
  }

  lemma CreatedEmpty(fs: Fs, no: nat)
    requires Sized(fs) && no in Files(fs) && Files(fs)[no] == []
    ensures no in fs.inodes && fs.inodes[no].size == 0
  {
  }

  /** A first write of no bytes leaves the position before byte 0, and then every read fails its ASSERT. */
  method EmptyWriteThenRead(count: U32) returns (w: Write, pos: U32, r: Read)
    ensures w == Written(0) && pos == 0xffff_ffff && r == ReadPanic
  {
    hide Inv, Files, Free;
    var part := new Partition(1, Almost(200), map[]);
    part.Create(0);
    CreatedEmpty(part.View(), 0);
    var f := new OpenFile(0);
    w := part.FileWrite(f, []);
    pos := f.pos;
    r := part.FileRead(f, count);
  }
}
