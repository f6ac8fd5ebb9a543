/** `sys_malloc` and `sys_free` for kernel threads (kernel/memory.c), over the page heap. */
module Allocator {
  import opened Bitmap
  import opened Pages
  import opened Arena

  /** `Outside`: the pages found end behind the page bitmap. */
  datatype Result = Ptr(a: int) | Null | NoFrames | BadPages | Outside

  /** Pages for a large block and its header. */
  function PagesFor(size: nat): (n: nat)
    ensures n >= 1 && size + HEADER <= n * 4096 && (n - 1) * 4096 < size + HEADER
  {
    (size + HEADER + 4095) / 4096
  }

  function PageNeed(size: nat): nat { if size > 1024 then PagesFor(size) else 1 }

  /** A large block, or a small one of a class without free blocks. */
  predicate NeedsPages(h: Heap, size: nat) {
    size > 1024 || (|h.free| == CLASSES && h.free[ClassFor(size)] == [])
  }

  /** Pages are needed and there is no run of them, nor one that the bit behind the bitmap completes. */
  ghost predicate OutOfPages(h: Heap, vbits: seq<bool>, guard: bool, size: nat) {
    && NeedsPages(h, size) && PageNeed(size) < 3840
    && IsLeftmost(vbits, PageNeed(size), -1) && !RunsOver(vbits, guard, PageNeed(size))
  }

  /** `list_remove` of an element that is on the list once. */
  function Remove(q: seq<int>, b: int): (r: seq<int>)
    ensures forall x :: x in r ==> x in q
  {
    if q == [] then [] else if q[0] == b then q[1..] else [q[0]] + Remove(q[1..], b)
  }

  lemma {:induction false} RemoveOne(q: seq<int>, b: int)
    requires Unique(q)
    ensures Unique(Remove(q, b)) && forall x :: x in Remove(q, b) <==> x in q && x != b
  {
    if q != [] {
      assert Unique(q[1..]) && q[0] !in q[1..];
      RemoveOne(q[1..], b);
      var r := Remove(q[1..], b);
      if q[0] != b {
        assert q[0] !in r;
        assert Unique([q[0]] + r);
      }
      forall x ensures x in q <==> x == q[0] || x in q[1..] { assert q == [q[0]] + q[1..]; }
    }
  }

  class KernelHeap {
    const pages: PageHeap
    const base: nat
    const poolSize: nat
    var arenas: map<int, Header>
    var free: seq<seq<int>>
    ghost var live: map<int, nat>
    ghost const home: map<int, int>

    ghost function View(): Heap
      reads this, pages
    {
      Heap(base, pages.pte.Keys, arenas, free, live)
    }

    /** `home` are the heap pages that belong to no arena, with their frames. */
    ghost predicate Valid()
      reads this, pages
    {
      pages.Valid() && Inv(View(), home.Keys, {}) && HomeKept()
    }

    ghost predicate HomeKept()
      reads this, pages
    {
      forall i | i in home :: i in pages.pte && pages.pte[i] == home[i]
    }

    /** `block_desc_init`: no arena yet; the heap pages in use are other parts' of the kernel. */
    constructor (pages: PageHeap, base: nat, poolSize: nat)
      requires pages.Valid()
      ensures Valid() && live == map[] && this.pages == pages && home == pages.pte && this.base == base &&
        this.poolSize == poolSize
    {
      this.pages, this.base, this.poolSize := pages, base, poolSize;
      arenas, live, home := map[], map[], pages.pte;
      free := [[], [], [], [], [], [], []];
    }

    method FindClass(size: nat) returns (d: nat)
      requires size <= 1024
      ensures d == ClassFor(size)
    {
      d := 0;
      while d < CLASSES
        invariant d <= CLASSES && (d > 0 ==> Size(d - 1) < size)
        decreases CLASSES - d
      {
        if size <= Size(d) { break; }
        d := d + 1;
      }
    }

    /** Cut a fresh page into blocks and queue them. */
    method Divide(p: int, d: nat)
      requires |free| == CLASSES && d < CLASSES && free[d] == []
      modifies this`arenas, this`free
      ensures arenas == old(arenas)[p := Small(d, PerArena(d))]
      ensures free == old(free)[d := old(free)[d] + BlockList(Heap(base, {}, map[], [], map[]), p, d, PerArena(d))]
    {
      hide Block, BlockList, PerArena;
      ghost var h := Heap(base, {}, map[], [], map[]);
      arenas := arenas[p := Small(d, PerArena(d))];
      BlockListNone(h, p, d);
      var i := 0;
      while i < PerArena(d)
        invariant 0 <= i <= PerArena(d) && |free| == CLASSES
        invariant free == old(free)[d := BlockList(h, p, d, i)] && arenas == old(arenas)[p := Small(d, PerArena(d))]
      {
        var b := (base + p) * 4096 + HEADER + i * Size(d);
        BlockAt(h, p, d, i);
        NextBlock(h, p, d, i);
        assert b !in free[d];
        BlockListMore(h, p, d, i);
        free := free[d := free[d] + [b]];
        i := i + 1;
      }
      assert [] + BlockList(h, p, d, PerArena(d)) == BlockList(h, p, d, PerArena(d));
    }

    /** `sys_malloc` */
    method SysMalloc(size: nat) returns (r: Result)
      requires Valid()
      modifies this, pages
      ensures r.Ptr? ==> Valid() && r.a !in old(live) && live == old(live)[r.a := size]
      ensures r.Ptr? ==> |pages.vbits| == |old(pages.vbits)| && |pages.pbits| == |old(pages.pbits)|
      ensures r.Ptr? && size <= 1024 ==> |old(free)| == CLASSES
      ensures r.Ptr? && size <= 1024 && old(free)[ClassFor(size)] != [] ==> var d := ClassFor(size);
        && r.a == old(free)[d][0] && free == old(free)[d := old(free)[d][1..]]
        && pages.View() == old(pages.View())
      ensures r.Outside? <==>
        0 < size < poolSize && PageNeed(size) < 3840 && RunsOver(old(pages.vbits), pages.guard, PageNeed(size))
      ensures r.Null? <==> !(0 < size < poolSize) || OutOfPages(old(View()), old(pages.vbits), pages.guard, size)
      ensures r.Null? ==> View() == old(View()) && pages.View() == old(pages.View()) && Valid()
      ensures r.BadPages? <==> 1024 < size < poolSize && PagesFor(size) >= 3840
      ensures r.NoFrames? ==> NeedsPages(old(View()), size) && Free(old(pages.pbits)) < PageNeed(size)
    {
      hide Inv, Free, IsLeftmost, PoolOk, RunAdded, NewSmall, Take;
      if !(0 < size < poolSize) { return Null; }
      if size > 1024 {
        r := MallocLarge(size);
        return;
      }
      ghost var h := View();
      var d := FindClass(size);
      ListsThere(h, home.Keys);
      ghost var full: set<int> := {};
      if free[d] == [] {
        var g := NewArena(d);
        match g {
          case NoRun => return Null;
          case NoFrame => return NoFrames;
          case BadCount => return BadPages;
          case Outside => return Result.Outside;
          case Start(p) => full := {p};
        }
      }
      r := TakeBlock(d, size, full);
    }

    /** Whole pages behind a header. */
    method MallocLarge(size: nat) returns (r: Result)
      requires Valid() && size > 1024
      modifies this, pages
      ensures r.Ptr? ==> Valid() && r.a !in old(live) && live == old(live)[r.a := size]
      ensures r.Ptr? ==> |pages.vbits| == |old(pages.vbits)| && |pages.pbits| == |old(pages.pbits)|
      ensures r.Outside? <==> PagesFor(size) < 3840 && RunsOver(old(pages.vbits), pages.guard, PagesFor(size))
      ensures r.Null? <==> PagesFor(size) < 3840 && IsLeftmost(old(pages.vbits), PagesFor(size), -1) && !r.Outside?
      ensures r.Null? ==> View() == old(View()) && pages.View() == old(pages.View()) && Valid()
      ensures r.BadPages? <==> PagesFor(size) >= 3840
      ensures r.NoFrames? ==> Free(old(pages.pbits)) < PagesFor(size)
      ensures r.Ptr? ==> var p := PageOf(View(), r.a);
        IsLeftmost(old(pages.vbits), PagesFor(size), p) && r.a == (base + p) * 4096 + HEADER
    {
      hide Inv, Free, IsLeftmost, PoolOk, RunAdded;
      ghost var h := View();
      var n := PagesFor(size);
      var g := pages.MallocPage(n);
      match g {
        case NoRun => return Null;
        case NoFrame => return NoFrames;
        case BadCount => return BadPages;
        case Outside => return Result.Outside;
        case Start(p) =>
          AddedPages(old(pages.View()), pages.View(), home, p, n);
          NewLargeKeeps(h, home.Keys, p, n, size);
          var a := (base + p) * 4096 + HEADER;
          arenas := arenas[p := Large(n)];
          live := live[a := size];
          assert PageOf(View(), a) == p;
          return Ptr(a);
      }
    }

    /** A page cut into blocks for a class without any. */
    method NewArena(d: nat) returns (g: Got)
      requires Valid() && d < CLASSES && |free| == CLASSES && free[d] == []
      modifies this, pages
      ensures !g.BadCount? && !g.Outside? && (g.NoRun? <==> IsLeftmost(old(pages.vbits), 1, -1))
      ensures g.NoRun? ==> View() == old(View()) && pages.View() == old(pages.View()) && Valid()
      ensures g.NoFrame? ==> Free(old(pages.pbits)) < 1
      ensures g.Start? ==> pages.Valid() && HomeKept() && Inv(View(), home.Keys, {g.p}) && |free| == CLASSES
      ensures g.Start? ==> free[d] != [] && PageOf(View(), free[d][0]) == g.p && live == old(live)
      ensures g.Start? ==> |pages.vbits| == |old(pages.vbits)| && |pages.pbits| == |old(pages.pbits)|
    {
      hide Inv, Free, IsLeftmost, PoolOk, RunAdded, BlockList;
      ghost var h := View();
      g := pages.MallocPage(1);
      if g.Start? {
        AddedPages(old(pages.View()), pages.View(), home, g.p, 1);
        NewSmallKeeps(h, home.Keys, g.p, d);
        Divide(g.p, d);
        BlockListSame(h, Heap(base, {}, map[], [], map[]), g.p, d, PerArena(d));
        assert View() == NewSmall(h, g.p, d);
        BlockListSame(h, View(), g.p, d, PerArena(d));
        HeadIn(View(), g.p, d);
      }
    }

    /** The head of the class's list is handed out. */
    method TakeBlock(d: nat, size: nat, ghost full: set<int>) returns (r: Result)
      requires pages.Valid() && HomeKept() && d < CLASSES && |free| == CLASSES && Inv(View(), home.Keys, full)
      requires free[d] != [] && size <= Size(d) && full <= {PageOf(View(), free[d][0])}
      modifies this`free, this`live, this`arenas
      ensures r.Ptr? && Valid() && r.a !in old(live) && live == old(live)[r.a := size]
      ensures r.a == old(free)[d][0] && free == old(free)[d := old(free)[d][1..]]
    {
      hide Inv, PoolOk;
      ghost var h := View();
      TakeKeeps(h, home.Keys, full, d, size);
      var b := free[d][0];
      free := free[d := free[d][1..]];
      var p := b / 4096 - base;
      live := live[b := size];
      arenas := arenas[p := arenas[p].(cnt := arenas[p].cnt - 1)];
      assert View() == Take(h, d, size);
      r := Ptr(b);
    }

    /** `sys_free` of a block that was handed out. */
    method SysFree(ptr: int)
      requires Valid() && ptr in live
      modifies this, pages
      ensures Valid() && live == old(live) - {ptr} && |pages.vbits| == |old(pages.vbits)| &&
        |pages.pbits| == |old(pages.pbits)|
      ensures var p := PageOf(old(View()), ptr);
        && p in old(arenas) && |old(free)| == CLASSES
        && (old(arenas)[p].Large? ==> p !in arenas)
        && (old(arenas)[p].Small? ==> old(arenas)[p].d < CLASSES)
        && (old(arenas)[p].Small? && old(arenas)[p].cnt + 1 == PerArena(old(arenas)[p].d) ==> p !in arenas)
        && (old(arenas)[p].Small? && old(arenas)[p].cnt + 1 != PerArena(old(arenas)[p].d) ==>
           && arenas.Keys == old(arenas).Keys
           && free == old(free)[old(arenas)[p].d := old(free)[old(arenas)[p].d] + [ptr]])
    {
      hide Inv, PoolOk, RunRemoved, Unique, Dropped;
      ghost var h := View();
      var p := ptr / 4096 - base;
      LiveThere(h, home.Keys, ptr);
      if arenas[p].Large? {
        DropLargeKeeps(h, home.Keys, ptr);
        ArenaPages(h, home.Keys, {}, p);
        ghost var before := pages.View();
        var n := arenas[p].cnt;
        pages.MfreePage(p, n);
        RemovedPages(before, pages.View(), home, p, n);
        arenas := arenas - {p};
        live := live - {ptr};
        assert View() == DropLarge(h, p);
        return;
      }
      var d := arenas[p].d;
      GiveKeeps(h, home.Keys, ptr);
      free := free[d := free[d] + [ptr]];
      arenas := arenas[p := arenas[p].(cnt := arenas[p].cnt + 1)];
      live := live - {ptr};
      ghost var h1 := View();
      assert h1 == Give(h, ptr);
      if arenas[p].cnt == PerArena(d) {
        ArenaPages(h1, home.Keys, {p}, p);
        TakeApart(p, d);
        arenas := arenas - {p};
        ghost var before := pages.View();
        pages.MfreePage(p, 1);
        RemovedPages(before, pages.View(), home, p, 1);
        DroppedIs(h1, View(), p, d);
        DropKeeps(h1, View(), home.Keys, p, d);
      } else {
        NotFull(h1, home.Keys, p, d);
      }
    }

    /** Any run of allocations and valid frees: once everything is given back, both bitmaps, the mapping, the arenas and
        the free lists are as they were before the first allocation. */
    method Serve(ops: seq<Request>) returns (done: nat, out: set<int>)
      requires Valid() && live == map[]
      modifies this, pages
      ensures done <= |ops| && (done == |ops| ==> Valid() && out == live.Keys)
      ensures done == |ops| && out == {} ==> pages.View() == old(pages.View()) && arenas == map[] && free == old(free)
    {
      hide Inv, PoolOk;
      Emptied(View(), pages.View(), home, pages.others);
      ghost var start := pages.View();
      done, out := 0, {};
      while done < |ops|
        invariant done <= |ops| && Valid() && out == live.Keys && |pages.vbits| == |start.vbits| &&
          |pages.pbits| == |start.pbits|
      {
        match ops[done] {
          case Get(size) =>
            var r := SysMalloc(size);
            match r {
              case Ptr(a) => out := out + {a};
              case Null =>
              case NoFrames => return;
              case BadPages => return;
              case Outside => return;
            }
          case PutBack(ptr) =>
            if ptr !in out { return; }
            SysFree(ptr);
            out := out - {ptr};
        }
        done := done + 1;
      }
      if out == {} {
        assert live == map[];
        Emptied(View(), pages.View(), home, pages.others);
        Determined(start, pages.View(), pages.others);
      }
    }

    /** Every block of a full arena is on the list; all are removed. */
    method TakeApart(p: int, d: nat)
      requires SmallAt(View(), p, d) && Inv(View(), home.Keys, {p}) && arenas[p].cnt == PerArena(d)
      modifies this`free
      ensures |free| == CLASSES && (forall e: nat | e < CLASSES && e != d :: free[e] == old(free)[e])
      ensures Unique(free[d]) && forall a :: a in free[d] <==> a in old(free)[d] && a !in Blocks(old(View()), p, d)
    {
      hide Inv, Unique, Blocks;
      ghost var h := View();
      FullFacts(h, home.Keys, p, d);
      ghost var q := free[d];
      var i := 0;
      while i < PerArena(d)
        invariant 0 <= i <= PerArena(d) && |free| == CLASSES && free == h.free[d := free[d]]
        invariant Unique(free[d]) && forall a :: a in free[d] <==> a in q && a !in BlockList(h, p, d, i)
      {
        var b := (base + p) * 4096 + HEADER + i * Size(d);
        assert b == Block(h, p, d, i);
        NextBlock(h, p, d, i);
        assert b in free[d];
        RemoveOne(free[d], b);
        free := free[d := Remove(free[d], b)];
        i := i + 1;
      }
      AllBlocks(h, p, d);
    }
  }

  lemma BlockAt(h: Heap, p: int, d: nat, i: nat)
    requires d < CLASSES
    ensures Block(h, p, d, i) == (h.base + p) * 4096 + HEADER + i * Size(d)
  {
  }

  lemma BlockListNone(h: Heap, p: int, d: nat)
    requires d < CLASSES
    ensures BlockList(h, p, d, 0) == []
  {
  }

  lemma BlockListMore(h: Heap, p: int, d: nat, i: nat)
    requires d < CLASSES
    ensures BlockList(h, p, d, i + 1) == BlockList(h, p, d, i) + [Block(h, p, d, i)]
  {
  }

  lemma AddedPages(a: Pool, b: Pool, home: map<int, int>, p: int, n: nat)
    requires RunAdded(a, b, p, n) && forall i | i in home :: i in a.pte && a.pte[i] == home[i]
    ensures |b.vbits| == |a.vbits| && |b.pbits| == |a.pbits| && b.pte.Keys == a.pte.Keys + Run(p, n) &&
      (forall i | p <= i < p + n :: i !in a.pte)
    ensures forall i | i in home :: i in b.pte && b.pte[i] == home[i]
  {
  }

  lemma RemovedPages(a: Pool, b: Pool, home: map<int, int>, p: int, n: nat)
    requires RunRemoved(a, b, p, n) && (forall i | i in home :: i in a.pte && a.pte[i] == home[i]) &&
      forall i | p <= i < p + n :: i !in home
    ensures |b.vbits| == |a.vbits| && |b.pbits| == |a.pbits| && b.pte.Keys == a.pte.Keys - Run(p, n)
    ensures forall i | i in home :: i in b.pte && b.pte[i] == home[i]
  {
  }

  lemma ListsThere(h: Heap, foreign: set<int>)
    requires Inv(h, foreign, {})
    ensures |h.free| == CLASSES
  {
  }

  lemma BlockListSame(h: Heap, g: Heap, p: int, d: nat, n: nat)
    requires h.base == g.base && d < CLASSES
    ensures BlockList(h, p, d, n) == BlockList(g, p, d, n)
  {
  }

  lemma HeadIn(h: Heap, p: int, d: nat)
    requires d < CLASSES && |h.free| == CLASSES && h.free[d] == BlockList(h, p, d, PerArena(d))
    ensures h.free[d] != [] && PageOf(h, h.free[d][0]) == p
  {
    BlockIn(h, p, d, 0);
  }

  lemma LiveThere(h: Heap, foreign: set<int>, a: int)
    requires Inv(h, foreign, {}) && a in h.live
    ensures PageOf(h, a) in h.arenas && |h.free| == CLASSES
  {
    assert LiveAt(h, a);
  }

  /** An arena's pages are mapped and not foreign. */
  lemma ArenaPages(h: Heap, foreign: set<int>, full: set<int>, p: int)
    requires Inv(h, foreign, full) && p in h.arenas
    ensures Arena.Pages(h.arenas[p]) >= 1 && forall i | p <= i < p + Arena.Pages(h.arenas[p]) ::
      i in h.pages && i !in foreign
  {
    forall i | p <= i < p + Arena.Pages(h.arenas[p]) ensures i in h.pages && i !in foreign { assert Covers(h, p, i); }
  }

  lemma FullFacts(h: Heap, foreign: set<int>, p: int, d: nat)
    requires Inv(h, foreign, {p}) && SmallAt(h, p, d) && h.arenas[p].cnt == PerArena(d)
    ensures |h.free| == CLASSES && Unique(h.free[d]) && forall a | a in Blocks(h, p, d) :: a in h.free[d]
  {
    assert ListOk(h, d) && CountOk(h, p, {p});
    FullOnList(h, p, d);
  }

  lemma NextBlock(h: Heap, p: int, d: nat, i: nat)
    requires d < CLASSES && i < PerArena(d)
    ensures Block(h, p, d, i) !in BlockList(h, p, d, i) && Block(h, p, d, i) in Blocks(h, p, d)
    ensures forall a :: a in BlockList(h, p, d, i + 1) <==> a in BlockList(h, p, d, i) || a == Block(h, p, d, i)
  {
    hide Block;
    var q := BlockList(h, p, d, i);
    forall k | 0 <= k < i ensures q[k] != Block(h, p, d, i) { BlocksApart(h, p, d, k, i); }
    var all := BlockList(h, p, d, PerArena(d));
    assert all[i] in all;
  }

  lemma AllBlocks(h: Heap, p: int, d: nat)
    requires d < CLASSES
    ensures forall a :: a in Blocks(h, p, d) <==> a in BlockList(h, p, d, PerArena(d))
  {
  }

  lemma DroppedIs(h: Heap, n: Heap, p: int, d: nat)
    requires SmallAt(h, p, d) && |h.free| == CLASSES && |n.free| == CLASSES && n.base == h.base && n.live == h.live
    requires n.arenas == h.arenas - {p} && n.pages == h.pages - Run(p, 1)
    requires forall e: nat | e < CLASSES && e != d :: n.free[e] == h.free[e]
    requires Unique(n.free[d]) && (forall a :: a in n.free[d] <==> a in h.free[d] && a !in Blocks(h, p, d))
    ensures Dropped(h, n, p, d)
  {
    assert Run(p, 1) == {p};
  }

  datatype Request = Get(size: nat) | PutBack(ptr: int)

  lemma Emptied(h: Heap, pool: Pool, home: map<int, int>, others: set<int>)
    requires Inv(h, home.Keys, {}) && h.live == map[] && PoolOk(pool, others) && h.pages == pool.pte.Keys
    requires forall i | i in home :: i in pool.pte && pool.pte[i] == home[i]
    ensures pool.pte == home && h.arenas == map[] && h.free == [[], [], [], [], [], [], []]
  {
    NothingLive(h, home.Keys);
    ListsThere(h, home.Keys);
    SameMap(pool.pte, home);
    var none: seq<seq<int>> := [[], [], [], [], [], [], []];
    forall d | 0 <= d < CLASSES ensures h.free[d] == none[d] { }
  }

  lemma SameMap(a: map<int, int>, b: map<int, int>)
    requires a.Keys == b.Keys && forall i | i in b :: i in a && a[i] == b[i]
    ensures a == b
  {
    assert forall i :: i in a.Keys <==> i in b.Keys;
    forall i | i in a ensures i in b && a[i] == b[i] { assert i in b.Keys; }
  }
}
