/** Directory blocks (fs/dir.c): up to twelve direct blocks of 21 slots each, kept as a finite map from names. */
module Directory {
  import opened Common
  import opened Paths
  import DirTree

  const BLOCKS := 12
  const SLOTS := 21
  const ENTRY := 24

  /** A slot with `f_type` unknown is free and all zero. */
  datatype Slot = Free | Used(name: string, ino: nat, kind: Kind)

  datatype Block = Unmapped | Mapped(slots: seq<Slot>)

  datatype Target = Target(ino: nat, kind: Kind)

  predicate UsedAt(bs: seq<Block>, b: int, i: int) {
    0 <= b < |bs| && bs[b].Mapped? && 0 <= i < |bs[b].slots| && bs[b].slots[i].Used?
  }

  function At(bs: seq<Block>, b: int, i: int): Slot
    requires UsedAt(bs, b, i)
  {
    bs[b].slots[i]
  }

  predicate Dot(name: string) { name == "." || name == ".." }

  /** The dots are the first two slots of the first block and nowhere else; every other block in use has an entry. */
  ghost predicate Layout(bs: seq<Block>) {
    && |bs| == BLOCKS && (forall b | 0 <= b < BLOCKS && bs[b].Mapped? :: |bs[b].slots| == SLOTS)
    && UsedAt(bs, 0, 0) && UsedAt(bs, 0, 1) && At(bs, 0, 0).name == "." && At(bs, 0, 1).name == ".."
    && (forall b | 1 <= b < BLOCKS && bs[b].Mapped? :: Holds(bs, b))
  }

  ghost predicate Holds(bs: seq<Block>, b: int) { exists i :: UsedAt(bs, b, i) }

  /** Names are used once; inodes too, the dots aside. */
  ghost predicate Once(bs: seq<Block>) {
    && (forall b, i, c, j | UsedAt(bs, b, i) && UsedAt(bs, c, j) && At(bs, b, i).name == At(bs, c, j).name ::
       b == c && i == j)
    && (forall b, i, c, j | UsedAt(bs, b, i) && UsedAt(bs, c, j) && At(bs, b, i).ino == At(bs, c, j).ino &&
       !Dot(At(bs, b, i).name) && !Dot(At(bs, c, j).name) :: b == c && i == j)
  }

  ghost predicate Present(bs: seq<Block>, name: string) { exists b, i :: UsedAt(bs, b, i) && At(bs, b, i).name == name }

  /** The slots hold exactly the entries of `m`. */
  ghost predicate Agrees(bs: seq<Block>, m: map<string, Target>) {
    && (forall b, i | UsedAt(bs, b, i) ::
       At(bs, b, i).name in m && m[At(bs, b, i).name] == Target(At(bs, b, i).ino, At(bs, b, i).kind))
    && (forall name | name in m :: Present(bs, name))
  }

  ghost predicate Ok(bs: seq<Block>, m: map<string, Target>, size: nat) {
    Layout(bs) && Once(bs) && Agrees(bs, m) && size == ENTRY * |m|
  }

  lemma DotsFirst(bs: seq<Block>, b: int, i: int)
    requires Layout(bs) && Once(bs) && UsedAt(bs, b, i) && Dot(At(bs, b, i).name)
    ensures b == 0 && i < 2
  {
  }

  /** An empty directory has only its first block, which is what `dir_remove` asserts. */
  lemma EmptyHasOneBlock(bs: seq<Block>, m: map<string, Target>, size: nat)
    requires Ok(bs, m, size)
    ensures size == 2 * ENTRY <==> m.Keys == {".", ".."}
    ensures size == 2 * ENTRY ==> forall b | 1 <= b < BLOCKS :: bs[b].Unmapped?
  {
    hide Once;
    assert At(bs, 0, 0).name in m && At(bs, 0, 1).name in m;
    assert {".", ".."} <= m.Keys && |{".", ".."}| == 2;
    if size == 2 * ENTRY {
      SameSize({".", ".."}, m.Keys);
      forall b | 1 <= b < BLOCKS ensures bs[b].Unmapped? {
        if bs[b].Mapped? {
          assert Holds(bs, b);
          var i :| UsedAt(bs, b, i);
          assert At(bs, b, i).name in m.Keys;
          DotsFirst(bs, b, i);
        }
      }
    }
  }

  lemma SameSize(a: set<string>, b: set<string>)
    requires a <= b && |a| == |b|
    ensures a == b
  {
    assert b == a + (b - a);
    assert |b| == |a| + |b - a|;
  }

  // ---------------------------------------------------------------- one entry more or less

  ghost predicate Added(bs: seq<Block>, n: seq<Block>, b: int, i: int, e: Slot) {
    && e.Used? && !UsedAt(bs, b, i) && UsedAt(n, b, i) && At(n, b, i) == e
    && (forall c, j | c != b || j != i :: UsedAt(n, c, j) <==> UsedAt(bs, c, j))
    && (forall c, j | UsedAt(bs, c, j) && UsedAt(n, c, j) :: At(n, c, j) == At(bs, c, j))
  }

  lemma AddedOnce(bs: seq<Block>, n: seq<Block>, m: map<string, Target>, b: int, i: int, e: Slot)
    requires Added(bs, n, b, i, e) && Once(bs) && Agrees(bs, m) && e.name !in m && !Dot(e.name)
    requires forall c, j | UsedAt(bs, c, j) && !Dot(At(bs, c, j).name) :: At(bs, c, j).ino != e.ino
    ensures Once(n)
  {
    forall c, j, d, k | UsedAt(n, c, j) && UsedAt(n, d, k) && At(n, c, j).name == At(n, d, k).name
      ensures c == d && j == k {
      assert (c == b && j == i) || (UsedAt(bs, c, j) && At(bs, c, j).name in m);
      assert (d == b && k == i) || (UsedAt(bs, d, k) && At(bs, d, k).name in m);
    }
  }

  lemma AddedAgrees(bs: seq<Block>, n: seq<Block>, m: map<string, Target>, b: int, i: int, e: Slot)
    requires Added(bs, n, b, i, e) && Agrees(bs, m) && e.name !in m
    ensures Agrees(n, m[e.name := Target(e.ino, e.kind)])
  {
    var m2 := m[e.name := Target(e.ino, e.kind)];
    forall name | name in m2 ensures Present(n, name) {
      if name == e.name {
        assert UsedAt(n, b, i) && At(n, b, i).name == name;
      } else {
        assert Present(bs, name);
        var c, j :| UsedAt(bs, c, j) && At(bs, c, j).name == name;
        assert UsedAt(n, c, j) && At(n, c, j).name == name;
      }
    }
  }

  ghost predicate Removed(bs: seq<Block>, n: seq<Block>, b: int, i: int) {
    && UsedAt(bs, b, i) && !UsedAt(n, b, i)
    && (forall c, j | c != b || j != i :: UsedAt(n, c, j) <==> UsedAt(bs, c, j))
    && (forall c, j | UsedAt(n, c, j) && UsedAt(bs, c, j) :: At(n, c, j) == At(bs, c, j))
  }

  lemma RemovedKeeps(bs: seq<Block>, n: seq<Block>, m: map<string, Target>, b: int, i: int)
    requires Removed(bs, n, b, i) && Once(bs) && Agrees(bs, m)
    ensures Once(n) && Agrees(n, m - {At(bs, b, i).name})
  {
    forall name | name in m - {At(bs, b, i).name} ensures Present(n, name) {
      assert Present(bs, name);
      var c, j :| UsedAt(bs, c, j) && At(bs, c, j).name == name;
      assert UsedAt(n, c, j) && At(n, c, j).name == name;
    }
    forall c, j | UsedAt(n, c, j) ensures UsedAt(bs, c, j) && At(n, c, j).name != At(bs, b, i).name { }
  }

  // ---------------------------------------------------------------- the entries in the order of a scan

  function EntryOf(e: Slot): DirTree.Entry
    requires e.Used?
  {
    DirTree.Entry(e.name, e.ino, e.kind)
  }

  function Listed(slots: seq<Slot>): seq<DirTree.Entry> {
    if slots == [] then [] else (if slots[0].Used? then [EntryOf(slots[0])] else []) + Listed(slots[1..])
  }

  function InBlock(b: Block): seq<DirTree.Entry> { if b.Mapped? then Listed(b.slots) else [] }

  /** What the directory tree sees of a directory. */
  function Scan(bs: seq<Block>): seq<DirTree.Entry> {
    if bs == [] then [] else InBlock(bs[0]) + Scan(bs[1..])
  }

  lemma {:induction false} ListedAround(slots: seq<Slot>, i: nat)
    requires i < |slots|
    ensures Listed(slots) ==
      Listed(slots[..i]) + (if slots[i].Used? then [EntryOf(slots[i])] else []) + Listed(slots[i + 1..])
  {
    if i == 0 {
      assert slots[..0] == [];
    } else {
      ListedAround(slots[1..], i - 1);
      assert slots[1..][..i - 1] == slots[..i][1..] && slots[1..][i..] == slots[i + 1..];
      var first := if slots[0].Used? then [EntryOf(slots[0])] else [];
      var here := if slots[i].Used? then [EntryOf(slots[i])] else [];
      InFront(first, Listed(slots[..i][1..]), here, Listed(slots[i + 1..]));
    }
  }

  lemma {:induction false} ScanAround(bs: seq<Block>, b: nat)
    requires b < |bs|
    ensures Scan(bs) == Scan(bs[..b]) + InBlock(bs[b]) + Scan(bs[b + 1..])
  {
    hide InBlock;
    if b == 0 {
      assert bs[..0] == [];
    } else {
      ScanAround(bs[1..], b - 1);
      assert bs[1..][..b - 1] == bs[..b][1..] && bs[1..][b..] == bs[b + 1..];
      InFront(InBlock(bs[0]), Scan(bs[..b][1..]), InBlock(bs[b]), Scan(bs[b + 1..]));
    }
  }

  lemma InFront(a: seq<DirTree.Entry>, x: seq<DirTree.Entry>, y: seq<DirTree.Entry>, z: seq<DirTree.Entry>)
    ensures a + (x + y + z) == a + x + y + z
  {
  }

  /** The entries a scan meets before slot `i` of block `b`, and those behind it. */
  function Ahead(bs: seq<Block>, b: nat, i: nat): seq<DirTree.Entry>
    requires b < |bs| && bs[b].Mapped? && i < |bs[b].slots|
  {
    Scan(bs[..b]) + Listed(bs[b].slots[..i])
  }

  function Behind(bs: seq<Block>, b: nat, i: nat): seq<DirTree.Entry>
    requires b < |bs| && bs[b].Mapped? && i < |bs[b].slots|
  {
    Listed(bs[b].slots[i + 1..]) + Scan(bs[b + 1..])
  }

  lemma ScanSplit(bs: seq<Block>, b: nat, i: nat)
    requires b < |bs| && bs[b].Mapped? && i < |bs[b].slots|
    ensures var here := bs[b].slots[i];
      Scan(bs) == Ahead(bs, b, i) + (if here.Used? then [EntryOf(here)] else []) + Behind(bs, b, i)
  {
    hide Scan, Listed;
    ScanAround(bs, b);
    ListedAround(bs[b].slots, i);
  }

  /** Another content of one slot is one entry more or less at one place of the list. */
  lemma SlotChanged(bs: seq<Block>, b: nat, i: nat, e: Slot)
    requires b < |bs| && bs[b].Mapped? && i < |bs[b].slots|
    ensures var n := bs[b := Mapped(bs[b].slots[i := e])];
      && Ahead(n, b, i) == Ahead(bs, b, i) && Behind(n, b, i) == Behind(bs, b, i)
      && Scan(n) == Ahead(bs, b, i) + (if e.Used? then [EntryOf(e)] else []) + Behind(bs, b, i)
  {
    hide Scan, Listed;
    var slots := bs[b].slots;
    var n := bs[b := Mapped(slots[i := e])];
    assert n[..b] == bs[..b] && n[b + 1..] == bs[b + 1..];
    assert slots[i := e][..i] == slots[..i] && slots[i := e][i + 1..] == slots[i + 1..];
    ScanSplit(n, b, i);
  }

  /** The dots come before every other slot. */
  lemma DotsAhead(bs: seq<Block>, b: nat, i: nat)
    requires Layout(bs) && b < BLOCKS && bs[b].Mapped? && i < SLOTS && (b == 0 ==> i >= 2)
    ensures |Ahead(bs, b, i)| >= 2
  {
    hide Holds;
    if b == 0 { TwoListed(bs[0].slots[..i]); } else { TwoScanned(bs[..b]); }
  }

  lemma TwoListed(slots: seq<Slot>)
    requires |slots| >= 2 && slots[0].Used? && slots[1].Used?
    ensures |Listed(slots)| >= 2
  {
    assert slots[1..][0] == slots[1];
  }

  lemma TwoScanned(bs: seq<Block>)
    requires bs != [] && bs[0].Mapped? && |bs[0].slots| >= 2 && bs[0].slots[0].Used? && bs[0].slots[1].Used?
    ensures |Scan(bs)| >= 2
  {
    TwoListed(bs[0].slots);
  }

  lemma {:induction false} NoneListed(slots: seq<Slot>)
    requires forall j | 0 <= j < |slots| :: slots[j].Free?
    ensures Listed(slots) == []
  {
    if slots != [] { NoneListed(slots[1..]); }
  }

  /** One entry joins the list behind the dots. */
  ghost predicate Joins(bs: seq<Block>, n: seq<Block>, e: Slot)
    requires e.Used?
  {
    exists at: nat :: 2 <= at <= |Scan(bs)| && Scan(n) == DirTree.Inserted(Scan(bs), at, EntryOf(e))
  }

  /** One entry, for `ino` and not a dot, leaves the list. */
  ghost predicate Leaves(bs: seq<Block>, n: seq<Block>, ino: nat) {
    exists at: nat :: 2 <= at < |Scan(bs)| && Scan(bs)[at].ino == ino && Scan(n) == DirTree.Without(Scan(bs), at)
  }

  lemma SlotJoins(bs: seq<Block>, b: nat, i: nat, e: Slot)
    requires Layout(bs) && b < BLOCKS && bs[b].Mapped? && i < SLOTS && bs[b].slots[i].Free? && e.Used?
    ensures Joins(bs, bs[b := Mapped(bs[b].slots[i := e])], e)
  {
    hide Scan, Ahead, Behind, Holds;
    ScanSplit(bs, b, i);
    SlotChanged(bs, b, i, e);
    DotsAhead(bs, b, i);
    OneMore(Ahead(bs, b, i), EntryOf(e), Behind(bs, b, i));
  }

  lemma OneMore(p: seq<DirTree.Entry>, e: DirTree.Entry, q: seq<DirTree.Entry>)
    ensures p + [] + q == p + q && p + [e] + q == DirTree.Inserted(p + q, |p|, e)
    ensures DirTree.Without(p + [e] + q, |p|) == p + q && (p + [e] + q)[|p|] == e
  {
  }

  lemma FreshJoins(bs: seq<Block>, b: nat, e: Slot)
    requires Layout(bs) && b < BLOCKS && bs[b].Unmapped? && e.Used?
    ensures Joins(bs, bs[b := FreshBlock(e)], e)
  {
    hide Holds, Scan;
    var n := bs[b := FreshBlock(e)];
    ScanAround(bs, b);
    ScanAround(n, b);
    assert n[..b] == bs[..b] && n[b + 1..] == bs[b + 1..];
    FreshListed(e);
    TwoScanned(bs[..b]);
    OneMore(Scan(bs[..b]), EntryOf(e), Scan(bs[b + 1..]));
  }

  lemma FreshListed(e: Slot)
    requires e.Used?
    ensures InBlock(FreshBlock(e)) == [EntryOf(e)]
  {
    var slots := FreshBlock(e).slots;
    assert slots[1..] == seq(SLOTS - 1, _ => Free);
    NoneListed(slots[1..]);
  }

  lemma SlotLeaves(bs: seq<Block>, b: nat, i: nat)
    requires Layout(bs) && UsedAt(bs, b, i) && Plain(At(bs, b, i))
    ensures Leaves(bs, bs[b := Mapped(bs[b].slots[i := Free])], At(bs, b, i).ino)
  {
    hide Scan, Ahead, Behind, Holds;
    var e := At(bs, b, i);
    ScanSplit(bs, b, i);
    SlotChanged(bs, b, i, Free);
    assert b == 0 ==> i >= 2;
    DotsAhead(bs, b, i);
    OneMore(Ahead(bs, b, i), EntryOf(e), Behind(bs, b, i));
  }

  lemma BlockLeaves(bs: seq<Block>, b: nat, i: nat)
    requires Layout(bs) && 0 < b && UsedAt(bs, b, i) && forall j | UsedAt(bs, b, j) :: j == i
    ensures Leaves(bs, bs[b := Unmapped], At(bs, b, i).ino)
  {
    hide Scan, Holds, Listed;
    var e := At(bs, b, i);
    var n := bs[b := Unmapped];
    ScanAround(bs, b);
    ScanAround(n, b);
    assert n[..b] == bs[..b] && n[b + 1..] == bs[b + 1..];
    OnlyListed(bs, b, i);
    TwoScanned(bs[..b]);
    OneMore(Scan(bs[..b]), EntryOf(e), Scan(bs[b + 1..]));
  }

  lemma OnlyListed(bs: seq<Block>, b: nat, i: nat)
    requires UsedAt(bs, b, i) && forall j | UsedAt(bs, b, j) :: j == i
    ensures InBlock(bs[b]) == [EntryOf(At(bs, b, i))]
  {
    hide Listed;
    var slots := bs[b].slots;
    forall j | 0 <= j < |slots| && j != i ensures slots[j].Free? { assert !UsedAt(bs, b, j); }
    ListedAround(slots, i);
    NoneListed(slots[..i]);
    NoneListed(slots[i + 1..]);
  }

  /** What the tree looks up in the list is what the directory finds in its slots. */
  lemma ScanFinds(bs: seq<Block>, m: map<string, Target>, size: nat, name: string)
    requires Ok(bs, m, size)
    ensures var k := DirTree.Find(Scan(bs), name);
      if name in m then k >= 0 && m[name] == Target(Scan(bs)[k].ino, Scan(bs)[k].kind) else k == -1
  {
    hide Layout, Once, Scan;
    var k := DirTree.Find(Scan(bs), name);
    if k >= 0 {
      var b, i := ScanFrom(bs, k);
      InMap(bs, m, size, b, i);
    }
    if name in m {
      assert Present(bs, name);
      var b, i :| UsedAt(bs, b, i) && At(bs, b, i).name == name;
      ScanSplit(bs, b, i);
      OneMore(Ahead(bs, b, i), EntryOf(At(bs, b, i)), Behind(bs, b, i));
    }
  }

  /** Every entry of the list comes from a slot. */
  lemma {:induction false} ScanFrom(bs: seq<Block>, k: nat) returns (b: nat, i: nat)
    requires k < |Scan(bs)|
    ensures UsedAt(bs, b, i) && Scan(bs)[k] == EntryOf(At(bs, b, i))
  {
    var here := |InBlock(bs[0])|;
    if k < here {
      b := 0;
      i := ListedFrom(bs[0].slots, k);
    } else {
      b, i := ScanFrom(bs[1..], k - here);
      b := b + 1;
    }
  }

  lemma {:induction false} ListedFrom(slots: seq<Slot>, k: nat) returns (i: nat)
    requires k < |Listed(slots)|
    ensures i < |slots| && slots[i].Used? && Listed(slots)[k] == EntryOf(slots[i])
  {
    if slots[0].Used? && k == 0 {
      i := 0;
    } else {
      i := ListedFrom(slots[1..], if slots[0].Used? then k - 1 else k);
      i := i + 1;
    }
  }

  // ---------------------------------------------------------------- the class

  /** One block with the entry in its first slot and zeros behind it. */
  function FreshBlock(e: Slot): Block { Mapped([e] + seq(SLOTS - 1, _ => Free)) }

  function DotsBlock(self: nat, parent: nat): Block {
    Mapped([Used(".", self, Directory), Used("..", parent, Directory)] + seq(SLOTS - 2, _ => Free))
  }

  lemma OnlyDots(self: nat, parent: nat)
    ensures Scan([DotsBlock(self, parent)] + seq(BLOCKS - 1, _ => Unmapped))
      == [DirTree.Entry(".", self, Directory), DirTree.Entry("..", parent, Directory)]
  {
    var slots := DotsBlock(self, parent).slots;
    var rest := slots[1..];
    assert rest[0] == slots[1] && rest[1..] == seq(SLOTS - 2, _ => Free);
    NoneListed(rest[1..]);
    assert Listed(rest) == [EntryOf(slots[1])] + Listed(rest[1..]);
    assert Listed(slots) == [EntryOf(slots[0])] + Listed(rest);
    var bs := [DotsBlock(self, parent)] + seq(BLOCKS - 1, _ => Unmapped);
    assert bs[1..] == seq(BLOCKS - 1, _ => Unmapped);
    NoneScanned(bs[1..]);
    assert Scan(bs) == InBlock(bs[0]) + Scan(bs[1..]);
  }

  lemma {:induction false} NoneScanned(bs: seq<Block>)
    requires forall b | 0 <= b < |bs| :: bs[b].Unmapped?
    ensures Scan(bs) == []
  {
    if bs != [] { NoneScanned(bs[1..]); }
  }

  class Dir {
    var blocks: seq<Block>
    var size: nat
    ghost var entries: map<string, Target>

    ghost predicate Valid()
      reads this
    {
      Ok(blocks, entries, size)
    }

    /** The block `sys_mkdir` writes: `.` and `..`. */
    constructor (self: nat, parent: nat)
      ensures Valid() && entries == map["." := Target(self, Directory), ".." := Target(parent, Directory)]
      ensures Scan(blocks) == [DirTree.Entry(".", self, Directory), DirTree.Entry("..", parent, Directory)]
    {
      hide Scan;
      OnlyDots(self, parent);
      var first := DotsBlock(self, parent);
      blocks := [first] + seq(BLOCKS - 1, _ => Unmapped);
      size := 2 * ENTRY;
      entries := map["." := Target(self, Directory), ".." := Target(parent, Directory)];
      new;
      assert UsedAt(blocks, 0, 0) && UsedAt(blocks, 0, 1);
      assert forall b, i :: UsedAt(blocks, b, i) <==> b == 0 && (i == 0 || i == 1);
      assert At(blocks, 0, 0).name == "." && At(blocks, 0, 1).name == "..";
      assert entries.Keys == {".", ".."};
    }

    /** `search_dir_entry` */
    method Search(name: string) returns (r: Option<Target>)
      requires Valid()
      ensures r == if name in entries then Some(entries[name]) else None
      ensures var k := DirTree.Find(Scan(blocks), name);
        r == if k >= 0 then Some(Target(Scan(blocks)[k].ino, Scan(blocks)[k].kind)) else None
    {
      hide Once, Agrees, Layout, Scan;
      Sizes(blocks, entries, size);
      ScanFinds(blocks, entries, size, name);
      var b := 0;
      while b < BLOCKS
        invariant 0 <= b <= BLOCKS
        invariant forall c, j | UsedAt(blocks, c, j) && c < b :: At(blocks, c, j).name != name
      {
        if blocks[b].Mapped? {
          var i := 0;
          while i < SLOTS
            invariant 0 <= i <= SLOTS
            invariant forall j | UsedAt(blocks, b, j) && j < i :: At(blocks, b, j).name != name
          {
            if blocks[b].slots[i].Used? && blocks[b].slots[i].name == name {
              assert UsedAt(blocks, b, i);
              InMap(blocks, entries, size, b, i);
              return Some(Target(blocks[b].slots[i].ino, blocks[b].slots[i].kind));
            }
            i := i + 1;
          }
        }
        b := b + 1;
      }
      Nowhere(blocks, entries, size, name);
      r := None;
    }

    /** `sync_dir_entry` within the direct blocks; the caller has made sure that the name is new. */
    method Insert(name: string, ino: nat, kind: Kind) returns (ok: bool)
      requires Valid() && Proper(name) && name !in entries
      requires forall x | x in entries && !Dot(x) :: entries[x].ino != ino
      modifies this
      ensures Valid() && (ok <==> exists b :: HasRoom(old(blocks), b))
      ensures if ok then entries == old(entries)[name := Target(ino, kind)] && size == old(size) + ENTRY
              else entries == old(entries) && size == old(size) && blocks == old(blocks)
      ensures ok ==> Joins(old(blocks), blocks, Used(name, ino, kind))
      ensures ok ==> exists b, i :: PutFirst(old(blocks), blocks, b, i, Used(name, ino, kind))
    {
      hide Once, Agrees, Layout, Joins;
      ghost var bs := blocks;
      var e := Used(name, ino, kind);
      Sizes(bs, entries, size);
      var b := 0;
      while b < BLOCKS
        invariant 0 <= b <= BLOCKS && blocks == bs && size == old(size) && entries == old(entries) && Valid()
        invariant forall c | 0 <= c < b :: !HasRoom(bs, c)
      {
        if blocks[b].Unmapped? {
          assert HasRoom(bs, b);
          InsertFresh(bs, entries, size, b, e);
          FreshJoins(bs, b, e);
          blocks := blocks[b := FreshBlock(e)];
          assert PutFirst(bs, blocks, b, 0, e);
          size := size + ENTRY;
          entries := entries[name := Target(ino, kind)];
          return true;
        }
        var i := FreeSlot(blocks[b].slots);
        if i != -1 {
          assert HasRoom(bs, b);
          InsertSlot(bs, entries, size, b, i, e);
          SlotJoins(bs, b, i, e);
          blocks := blocks[b := Mapped(blocks[b].slots[i := e])];
          assert PutFirst(bs, blocks, b, i, e);
          size := size + ENTRY;
          entries := entries[name := Target(ino, kind)];
          return true;
        }
        b := b + 1;
      }
      ok := false;
    }

    /** `delete_dir_entry` within the direct blocks. A block other than the first goes with its last entry. */
    method Delete(ino: nat) returns (ok: bool)
      requires Valid()
      modifies this
      ensures Valid() && (ok <==> exists x :: Names(old(entries), x, ino))
      ensures if ok then exists x ::
        Names(old(entries), x, ino) && entries == old(entries) - {x} && size == old(size) - ENTRY
              else entries == old(entries) && size == old(size) && blocks == old(blocks)
      ensures ok ==> Leaves(old(blocks), blocks, ino)
    {
      hide Once, Agrees, Layout, Names, Leaves;
      ghost var bs, m := blocks, entries;
      Sizes(bs, m, size);
      var b := 0;
      while b < BLOCKS
        invariant 0 <= b <= BLOCKS && blocks == bs && size == old(size) && entries == old(entries) && Valid()
        invariant forall c, j | UsedAt(bs, c, j) && c < b && !Dot(At(bs, c, j).name) :: At(bs, c, j).ino != ino
      {
        if blocks[b].Mapped? {
          InosOnce(bs, m, size, b);
          var found, cnt, first := ScanBlock(blocks[b].slots, ino);
          if found != -1 {
            assert UsedAt(bs, b, found);
            ghost var x := At(bs, b, found).name;
            NamedBy(bs, m, size, b, found);
            if cnt == 1 && !first {
              DropBlock(bs, m, size, b, found);
              BlockLeaves(bs, b, found);
              blocks := blocks[b := Unmapped];
            } else {
              ClearSlot(bs, m, size, b, found, first);
              SlotLeaves(bs, b, found);
              blocks := blocks[b := Mapped(blocks[b].slots[found := Free])];
            }
            entries := m - {x};
            size := size - ENTRY;
            return true;
          }
        }
        b := b + 1;
      }
      NotNamed(bs, m, size, ino);
      ok := false;
    }

    /** One block: the entry for `ino`, the number of entries besides the dots, and whether `.` is here. */
    method ScanBlock(slots: seq<Slot>, ino: nat) returns (found: int, cnt: nat, first: bool)
      requires forall i, j | 0 <= i < j < |slots| && Plain(slots[i]) && Plain(slots[j]) :: slots[i].ino != slots[j].ino
      ensures -1 <= found < |slots| && (found >= 0 ==> Plain(slots[found]) && slots[found].ino == ino)
      ensures found == -1 ==> forall j | 0 <= j < |slots| && Plain(slots[j]) :: slots[j].ino != ino
      ensures found >= 0 ==>
        if cnt == 1 then forall j | 0 <= j < |slots| && Plain(slots[j]) :: j == found
        else exists j :: 0 <= j < |slots| && j != found && Plain(slots[j])
      ensures first <==> exists j :: 0 <= j < |slots| && slots[j].Used? && slots[j].name == "."
    {
      found, cnt, first := -1, 0, false;
      ghost var seen: set<int> := {};
      var i := 0;
      while i < |slots|
        invariant 0 <= i <= |slots| && -1 <= found < i && |seen| == cnt
        invariant forall j :: j in seen <==> 0 <= j < i && Plain(slots[j])
        invariant found >= 0 ==> found in seen && slots[found].ino == ino
        invariant found == -1 ==> forall j | 0 <= j < i && Plain(slots[j]) :: slots[j].ino != ino
        invariant first <==> exists j :: 0 <= j < i && slots[j].Used? && slots[j].name == "."
      {
        if slots[i].Used? {
          if slots[i].name == "." {
            first := true;
          } else if slots[i].name != ".." {
            cnt := cnt + 1;
            seen := seen + {i};
            if slots[i].ino == ino {
              assert found == -1;
              found := i;
            }
          }
        }
        i := i + 1;
      }
      if found >= 0 {
        Another(seen, found);
      }
    }

    method FreeSlot(slots: seq<Slot>) returns (i: int)
      ensures i == -1 <==> forall j | 0 <= j < |slots| :: slots[j].Used?
      ensures i != -1 ==> 0 <= i < |slots| && slots[i].Free? && forall j | 0 <= j < i :: slots[j].Used?
    {
      i := 0;
      while i < |slots|
        invariant 0 <= i <= |slots| && forall j | 0 <= j < i :: slots[j].Used?
      {
        if slots[i].Free? { return; }
        i := i + 1;
      }
      i := -1;
    }
  }

  /** A block that `sync_dir_entry` can put an entry into. */
  predicate HasRoom(bs: seq<Block>, b: int) {
    0 <= b < |bs| && (bs[b].Unmapped? || exists i | 0 <= i < |bs[b].slots| :: bs[b].slots[i].Free?)
  }

  /** The entry went into the first block with room: a new one, or the first free slot. */
  predicate PutFirst(bs: seq<Block>, n: seq<Block>, b: int, i: int, e: Slot) {
    && HasRoom(bs, b) && (forall c | 0 <= c < b :: !HasRoom(bs, c))
    && if bs[b].Unmapped? then i == 0 && n == bs[b := FreshBlock(e)]
       else && 0 <= i < |bs[b].slots| && bs[b].slots[i].Free? && (forall j | 0 <= j < i :: bs[b].slots[j].Used?)
            && n == bs[b := Mapped(bs[b].slots[i := e])]
  }

  lemma Sizes(bs: seq<Block>, m: map<string, Target>, size: nat)
    requires Ok(bs, m, size)
    ensures |bs| == BLOCKS && (forall b | 0 <= b < BLOCKS && bs[b].Mapped? :: |bs[b].slots| == SLOTS) && bs[0].Mapped?
  {
  }

  ghost predicate NewEntry(m: map<string, Target>, e: Slot) {
    e.Used? && Proper(e.name) && e.name !in m && forall x | x in m && !Dot(x) :: m[x].ino != e.ino
  }

  lemma InsertFresh(bs: seq<Block>, m: map<string, Target>, size: nat, b: int, e: Slot)
    requires Ok(bs, m, size) && 0 <= b < BLOCKS && bs[b].Unmapped? && NewEntry(m, e)
    ensures Ok(bs[b := FreshBlock(e)], m[e.name := Target(e.ino, e.kind)], size + ENTRY)
  {
    hide Once, Agrees;
    var n := bs[b := FreshBlock(e)];
    assert forall c, j :: UsedAt(n, c, j) <==> if c == b then j == 0 else UsedAt(bs, c, j);
    Inserted(bs, n, m, b, 0, e);
    forall c | 1 <= c < BLOCKS && n[c].Mapped? ensures Holds(n, c) {
      if c == b {
        assert UsedAt(n, b, 0);
      } else {
        assert Holds(bs, c);
        var j :| UsedAt(bs, c, j);
        assert UsedAt(n, c, j);
      }
    }
  }

  lemma InsertSlot(bs: seq<Block>, m: map<string, Target>, size: nat, b: int, i: int, e: Slot)
    requires Ok(bs, m, size) && 0 <= b < BLOCKS && bs[b].Mapped? && 0 <= i < |bs[b].slots| && bs[b].slots[i].Free? &&
      NewEntry(m, e)
    ensures Ok(bs[b := Mapped(bs[b].slots[i := e])], m[e.name := Target(e.ino, e.kind)], size + ENTRY)
  {
    hide Once, Agrees;
    var n := bs[b := Mapped(bs[b].slots[i := e])];
    Inserted(bs, n, m, b, i, e);
    forall c | 1 <= c < BLOCKS && n[c].Mapped? ensures Holds(n, c) {
      if c == b {
        assert UsedAt(n, b, i);
      } else {
        assert Holds(bs, c);
        var j :| UsedAt(bs, c, j);
        assert UsedAt(n, c, j);
      }
    }
    assert UsedAt(n, 0, 0) && UsedAt(n, 0, 1);
  }

  lemma Inserted(bs: seq<Block>, n: seq<Block>, m: map<string, Target>, b: int, i: int, e: Slot)
    requires Once(bs) && Agrees(bs, m) && NewEntry(m, e) && Added(bs, n, b, i, e)
    ensures Once(n) && Agrees(n, m[e.name := Target(e.ino, e.kind)]) && |m[e.name := Target(e.ino, e.kind)]| == |m| + 1
  {
    forall c, j | UsedAt(bs, c, j) && !Dot(At(bs, c, j).name) ensures At(bs, c, j).ino != e.ino {
      assert At(bs, c, j).name in m;
    }
    AddedOnce(bs, n, m, b, i, e);
    AddedAgrees(bs, n, m, b, i, e);
  }

  lemma InMap(bs: seq<Block>, m: map<string, Target>, size: nat, b: int, i: int)
    requires Ok(bs, m, size) && UsedAt(bs, b, i)
    ensures var s := At(bs, b, i); s.name in m && m[s.name] == Target(s.ino, s.kind)
  {
    hide Once, Layout;
  }

  lemma Nowhere(bs: seq<Block>, m: map<string, Target>, size: nat, name: string)
    requires Ok(bs, m, size) && forall c, j | UsedAt(bs, c, j) :: At(bs, c, j).name != name
    ensures name !in m
  {
    hide Once, Layout;
    assert name in m ==> Present(bs, name);
  }

  predicate Plain(s: Slot) { s.Used? && !Dot(s.name) }

  lemma InosOnce(bs: seq<Block>, m: map<string, Target>, size: nat, b: int)
    requires Ok(bs, m, size) && 0 <= b < |bs| && bs[b].Mapped?
    ensures forall i, j | 0 <= i < j < |bs[b].slots| && Plain(bs[b].slots[i]) && Plain(bs[b].slots[j]) ::
      bs[b].slots[i].ino != bs[b].slots[j].ino
  {
    hide Agrees, Layout;
    forall i, j | 0 <= i < j < |bs[b].slots| && Plain(bs[b].slots[i]) && Plain(bs[b].slots[j])
      ensures bs[b].slots[i].ino != bs[b].slots[j].ino {
      assert UsedAt(bs, b, i) && UsedAt(bs, b, j);
      assert At(bs, b, i) == bs[b].slots[i] && At(bs, b, j) == bs[b].slots[j];
    }
  }

  lemma Another(seen: set<int>, x: int)
    requires x in seen
    ensures if |seen| == 1 then seen == {x} else exists j :: j in seen && j != x
  {
    var rest := seen - {x};
    assert seen == rest + {x} && |seen| == |rest| + 1;
    if !(exists j :: j in rest) { assert rest == {}; }
  }

  /** `x` is a name, not a dot, for inode `ino`. */
  predicate Names(m: map<string, Target>, x: string, ino: nat) { x in m && !Dot(x) && m[x].ino == ino }

  lemma NamedBy(bs: seq<Block>, m: map<string, Target>, size: nat, b: int, i: int)
    requires Ok(bs, m, size) && UsedAt(bs, b, i) && Plain(At(bs, b, i))
    ensures Names(m, At(bs, b, i).name, At(bs, b, i).ino) && |m - {At(bs, b, i).name}| == |m| - 1 && size >= ENTRY
  {
    var x := At(bs, b, i).name;
    assert x in m;
    assert (m - {x}).Keys == m.Keys - {x};
  }

  lemma NotNamed(bs: seq<Block>, m: map<string, Target>, size: nat, ino: nat)
    requires Ok(bs, m, size) && forall c, j | UsedAt(bs, c, j) && !Dot(At(bs, c, j).name) :: At(bs, c, j).ino != ino
    ensures forall x :: !Names(m, x, ino)
  {
    forall x ensures !Names(m, x, ino) {
      assert x in m ==> Present(bs, x);
    }
  }

  lemma DropBlock(bs: seq<Block>, m: map<string, Target>, size: nat, b: int, i: int)
    requires Ok(bs, m, size) && UsedAt(bs, b, i) && Plain(At(bs, b, i))
    requires forall j | 0 <= j < |bs[b].slots| && Plain(bs[b].slots[j]) :: j == i
    requires !(exists j :: 0 <= j < |bs[b].slots| && bs[b].slots[j].Used? && bs[b].slots[j].name == ".")
    ensures size >= ENTRY && Ok(bs[b := Unmapped], m - {At(bs, b, i).name}, size - ENTRY)
    ensures b > 0 && forall j | UsedAt(bs, b, j) :: j == i
  {
    hide Agrees;
    var n := bs[b := Unmapped];
    assert b != 0 by { assert UsedAt(bs, 0, 0); }
    forall j | UsedAt(bs, b, j) ensures j == i {
      if Dot(At(bs, b, j).name) { DotsFirst(bs, b, j); }
    }
    hide Once;
    NamedBy(bs, m, size, b, i);
    RemovedKeeps(bs, n, m, b, i);
    forall c | 1 <= c < BLOCKS && n[c].Mapped? ensures Holds(n, c) {
      assert Holds(bs, c);
      var j :| UsedAt(bs, c, j);
      assert UsedAt(n, c, j);
    }
  }

  lemma ClearSlot(bs: seq<Block>, m: map<string, Target>, size: nat, b: int, i: int, first: bool)
    requires Ok(bs, m, size) && UsedAt(bs, b, i) && Plain(At(bs, b, i))
    requires first <==> exists j :: 0 <= j < |bs[b].slots| && bs[b].slots[j].Used? && bs[b].slots[j].name == "."
    requires !first ==> exists j :: 0 <= j < |bs[b].slots| && j != i && Plain(bs[b].slots[j])
    ensures size >= ENTRY && Ok(bs[b := Mapped(bs[b].slots[i := Free])], m - {At(bs, b, i).name}, size - ENTRY)
  {
    hide Agrees, Once;
    var n := bs[b := Mapped(bs[b].slots[i := Free])];
    NamedBy(bs, m, size, b, i);
    RemovedKeeps(bs, n, m, b, i);
    forall c | 1 <= c < BLOCKS && n[c].Mapped? ensures Holds(n, c) {
      if c == b {
        if first {
          var k :| 0 <= k < |bs[b].slots| && bs[b].slots[k].Used? && bs[b].slots[k].name == ".";
          assert UsedAt(bs, b, k);
          DotsFirst(bs, b, k);
        } else {
          var j :| 0 <= j < |bs[b].slots| && j != i && Plain(bs[b].slots[j]);
          assert UsedAt(n, c, j);
        }
      } else {
        assert Holds(bs, c);
        var j :| UsedAt(bs, c, j);
        assert UsedAt(n, c, j);
      }
    }
    assert UsedAt(n, 0, 0) && UsedAt(n, 0, 1);
  }
}
