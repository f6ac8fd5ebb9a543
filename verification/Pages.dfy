/** Kernel heap pages (kernel/memory.c): a bitmap of virtual pages, a bitmap of frames, and the table entries
    between them. The directory entries of the kernel heap exist from boot on. */
module Pages {
  import opened Bitmap

  /** The bits `bitmap_scan` looks at: for more than one also the bit behind the bitmap. */
  function Scanned(vbits: seq<bool>, guard: bool, cnt: nat): seq<bool> { if cnt == 1 then vbits else vbits + [guard] }

  /** The scan runs over the end: no run of its own, and the bit behind completes one. */
  ghost predicate RunsOver(vbits: seq<bool>, guard: bool, cnt: nat) {
    cnt > 1 && !guard && cnt - 1 <= |vbits| && ClearRun(vbits, |vbits| - (cnt - 1), cnt - 1) &&
      IsLeftmost(vbits, cnt, -1)
  }

  /** What `bitmap_scan` answers. */
  function FirstRun(bits: seq<bool>, cnt: nat, from: nat): (r: int)
    requires from <= |bits| && cnt > 0 && forall i: nat :: i < from ==> !ClearRun(bits, i, cnt)
    ensures IsLeftmost(bits, cnt, r) && (r != -1 ==> 0 <= r && r + cnt <= |bits|)
    decreases |bits| - from
  {
    if from + cnt > |bits| then -1
    else if ClearRun(bits, from, cnt) then from
    else FirstRun(bits, cnt, from + 1)
  }

  /** `pte[i]` is the frame of heap page `i`. */
  datatype Pool = Pool(vbits: seq<bool>, pbits: seq<bool>, pte: map<int, int>)

  ghost predicate FrameUsed(pool: Pool, f: int) { exists i :: i in pool.pte && pool.pte[i] == f }

  /** A page is marked iff it is mapped, no frame is mapped twice, and a frame is marked iff it is mapped here or
      belongs to something else. */
  ghost predicate PoolOk(pool: Pool, others: set<int>) {
    && (forall i | 0 <= i < |pool.vbits| :: pool.vbits[i] <==> i in pool.pte)
    && (forall i | i in pool.pte :: 0 <= i < |pool.vbits| && 0 <= pool.pte[i] < |pool.pbits| && pool.pte[i] !in others)
    && (forall i, j | i in pool.pte && j in pool.pte && pool.pte[i] == pool.pte[j] :: i == j)
    && (forall f | 0 <= f < |pool.pbits| :: pool.pbits[f] <==> f in others || FrameUsed(pool, f))
  }

  /** The two bitmaps follow from the mapping: what restores it restores everything. */
  lemma Determined(a: Pool, b: Pool, others: set<int>)
    requires PoolOk(a, others) && PoolOk(b, others) && a.pte == b.pte && |a.vbits| == |b.vbits| &&
      |a.pbits| == |b.pbits|
    ensures a == b
  {
    assert a.vbits == b.vbits;
    assert forall f :: FrameUsed(a, f) <==> FrameUsed(b, f);
    assert a.pbits == b.pbits;
  }

  /** Page `i` mapped to frame `f`, both bits set. */
  function Map(pool: Pool, i: int, f: int): Pool
    requires 0 <= i < |pool.vbits| && 0 <= f < |pool.pbits|
  {
    Pool(pool.vbits[i := true], pool.pbits[f := true], pool.pte[i := f])
  }

  function Unmap(pool: Pool, i: int): Pool
    requires i in pool.pte && 0 <= i < |pool.vbits| && 0 <= pool.pte[i] < |pool.pbits|
  {
    Pool(pool.vbits[i := false], pool.pbits[pool.pte[i] := false], pool.pte - {i})
  }

  lemma MapKeeps(pool: Pool, others: set<int>, i: int, f: int)
    requires PoolOk(pool, others) && 0 <= i < |pool.vbits| && 0 <= f < |pool.pbits| && i !in pool.pte && !pool.pbits[f]
    ensures PoolOk(Map(pool, i, f), others)
  {
    var n := Map(pool, i, f);
    assert !FrameUsed(pool, f);
    forall g ensures FrameUsed(n, g) <==> FrameUsed(pool, g) || g == f {
      if FrameUsed(pool, g) {
        var j :| j in pool.pte && pool.pte[j] == g;
        assert j in n.pte && n.pte[j] == g;
      }
      if g == f { assert i in n.pte && n.pte[i] == g; }
    }
  }

  lemma UnmapKeeps(pool: Pool, others: set<int>, i: int)
    requires PoolOk(pool, others) && i in pool.pte
    ensures PoolOk(Unmap(pool, i), others)
  {
    var n := Unmap(pool, i);
    var f := pool.pte[i];
    forall g ensures FrameUsed(n, g) <==> FrameUsed(pool, g) && g != f {
      if FrameUsed(pool, g) && g != f {
        var j :| j in pool.pte && pool.pte[j] == g;
        assert j in n.pte && n.pte[j] == g;
      }
    }
  }

  /** Mapping a run of pages, the bits of the run having been set first, as `malloc_page` does. */
  ghost predicate RunAdded(a: Pool, b: Pool, p: int, n: int) {
    && |b.vbits| == |a.vbits| && |b.pbits| == |a.pbits|
    && (forall i :: i in b.pte <==> i in a.pte || p <= i < p + n)
    && (forall i | i in a.pte :: b.pte[i] == a.pte[i])
    && (forall i | i in a.pte :: !(p <= i < p + n))
  }

  ghost predicate RunRemoved(a: Pool, b: Pool, p: int, n: int) {
    && |b.vbits| == |a.vbits| && |b.pbits| == |a.pbits|
    && (forall i :: i in b.pte <==> i in a.pte && !(p <= i < p + n))
    && (forall i | i in b.pte :: b.pte[i] == a.pte[i])
  }

  /** `mfree_page` undoes `malloc_page`: same mapping, same bitmaps. */
  lemma RoundTrip(a: Pool, b: Pool, c: Pool, others: set<int>, p: int, n: int)
    requires PoolOk(a, others) && PoolOk(c, others) && RunAdded(a, b, p, n) && RunRemoved(b, c, p, n)
    ensures c == a
  {
    forall i ensures i in c.pte <==> i in a.pte { }
    forall i | i in c.pte ensures c.pte[i] == a.pte[i] { assert i in b.pte; }
    assert c.pte.Keys == a.pte.Keys;
    assert c.pte == a.pte;
    Determined(a, c, others);
  }

  /** The pages of the run are on the lowest frames there were, in order. */
  predicate Lowest(pbits: seq<bool>, pte: map<int, int>, p: int, n: int) {
    && (forall i | p <= i < p + n :: i in pte && 0 <= pte[i] < |pbits| && forall f | 0 <= f <= pte[i] :: pbits[f])
    && (forall i, j | p <= i < j < p + n :: i in pte && j in pte && pte[i] < pte[j])
  }

  lemma NoneLowest(pbits: seq<bool>, pte: map<int, int>, p: int)
    ensures Lowest(pbits, pte, p, 0)
  {
  }

  lemma LowestMore(pbits: seq<bool>, pte: map<int, int>, p: int, n: int, f: int)
    requires n >= 0 && Lowest(pbits, pte, p, n) && f == FirstClear(pbits) && f != -1
    ensures Lowest(pbits[f := true], pte[p + n := f], p, n + 1)
  {
    var m, bits := pte[p + n := f], pbits[f := true];
    forall g | 0 <= g < f ensures pbits[g] { assert !ClearRun(pbits, g, 1); }
    forall i | p <= i < p + n + 1
      ensures i in m && 0 <= m[i] < |bits| && (forall g | 0 <= g <= m[i] :: bits[g]) && (i < p + n ==> m[i] < f)
    {
      assert i < p + n ==> m[i] == pte[i];
    }
  }

  /** `Outside` is a run that ends behind the bitmap. */
  datatype Got = Start(p: int) | NoRun | NoFrame | BadCount | Outside

  class PageHeap {
    var vbits: seq<bool>
    var pbits: seq<bool>
    var pte: map<int, int>
    const guard: bool
    ghost const others: set<int>

    ghost function View(): Pool
      reads this
    {
      Pool(vbits, pbits, pte)
    }

    ghost predicate Valid()
      reads this
    {
      PoolOk(View(), others)
    }

    /** `mem_pool_init`: nothing mapped, every bit clear; `guard` is the bit that follows the page bitmap in memory. */
    constructor (vpages: nat, frames: nat, guard: bool)
      ensures Valid() && pte == map[] && |vbits| == vpages && |pbits| == frames && others == {} && this.guard == guard
    {
      vbits, pbits, pte, others := seq(vpages, _ => false), seq(frames, _ => false), map[], {};
      this.guard := guard;
    }

    /** The loops of `vaddr_get` and `vaddr_remove` over the page bitmap. */
    method MarkRun(p: int, cnt: nat, value: bool)
      requires 0 <= p && p + cnt <= |vbits|
      modifies this`vbits
      ensures |vbits| == |old(vbits)| && forall k | 0 <= k < |vbits| ::
        vbits[k] == if p <= k < p + cnt then value else old(vbits)[k]
    {
      var i := 0;
      while i < cnt
        invariant 0 <= i <= cnt && |vbits| == |old(vbits)|
        invariant forall k | 0 <= k < |vbits| :: vbits[k] == if p <= k < p + i then value else old(vbits)[k]
      {
        vbits := vbits[p + i := value];
        i := i + 1;
      }
    }

    /** The loop of `malloc_page`: a frame for each page. */
    method MapRun(p: int, cnt: nat, ghost a: Pool) returns (ok: bool)
      requires PoolOk(a, others) && pbits == a.pbits && pte == a.pte && 0 <= p && p + cnt <= |a.vbits|
      requires forall i | p <= i < p + cnt :: i !in a.pte
      modifies this`pbits, this`pte
      ensures ok <==> Free(a.pbits) >= cnt
      ensures ok ==> exists c: Pool :: PoolOk(c, others) && RunAdded(a, c, p, cnt) && c.pbits == pbits && c.pte == pte
      ensures ok ==> Lowest(pbits, pte, p, cnt)
    {
      hide Free, PoolOk, Map, Lowest;
      NoneLowest(pbits, pte, p);
      ghost var c := a;
      AddedNone(a, p);
      var i := 0;
      while i < cnt
        invariant 0 <= i <= cnt && PoolOk(c, others) && RunAdded(a, c, p, i) && pbits == c.pbits && pte == c.pte
        invariant Free(pbits) == Free(a.pbits) - i && Lowest(pbits, pte, p, i)
      {
        var f := FirstClear(pbits);
        if f == -1 { return false; }
        MapKeeps(c, others, p + i, f);
        FreeSet(pbits, f);
        assert p + i !in pte;
        LowestMore(pbits, pte, p, i, f);
        pbits := pbits[f := true];
        pte := pte[p + i := f];
        MapRunAdds(a, c, p, i, f);
        c := Map(c, p + i, f);
        i := i + 1;
      }
      ok := true;
    }

    /** `malloc_page`: the leftmost run of free pages, each on the lowest free frame. */
    method MallocPage(cnt: nat) returns (r: Got)
      requires Valid()
      modifies this
      ensures r.BadCount? <==> !(0 < cnt < 3840)
      ensures r.Outside? <==> 0 < cnt < 3840 && RunsOver(old(vbits), guard, cnt)
      ensures r.NoRun? <==> 0 < cnt < 3840 && IsLeftmost(old(vbits), cnt, -1) && !RunsOver(old(vbits), guard, cnt)
      ensures r.Start? ==> Valid() && RunAdded(old(View()), View(), r.p, cnt) && IsLeftmost(old(vbits), cnt, r.p)
      ensures r.Start? ==> Lowest(pbits, pte, r.p, cnt)
      ensures r.BadCount? || r.NoRun? || r.Outside? ==> View() == old(View())
      ensures r.Start? || r.NoFrame? ==> (r.Start? <==> Free(old(pbits)) >= cnt)
    {
      hide Free, PoolOk, RunAdded, RunsOver, IsLeftmost, Lowest;
      if !(0 < cnt < 3840) { return BadCount; }
      ghost var a := View();
      var p := FirstRun(Scanned(vbits, guard, cnt), cnt, 0);
      ScanMeans(vbits, guard, cnt, p);
      if p == -1 { return NoRun; }
      if p + cnt > |vbits| { return Outside; }
      LeftmostOnce(vbits, cnt, p);
      RunFree(a, others, p, cnt);
      MarkRun(p, cnt, true);
      var ok := MapRun(p, cnt, a);
      if !ok { return NoFrame; }
      ghost var c: Pool :| PoolOk(c, others) && RunAdded(a, c, p, cnt) && c.pbits == pbits && c.pte == pte;
      MarkedRun(a, c, others, vbits, p, cnt);
      r := Start(p);
    }

    /** `mfree_page` */
    method MfreePage(p: int, cnt: nat)
      requires Valid() && cnt >= 1 && forall i | p <= i < p + cnt :: i in pte
      modifies this
      ensures Valid() && RunRemoved(old(View()), View(), p, cnt)
    {
      hide PoolOk, Unmap;
      ghost var a := View();
      ghost var c := a;
      InRange(a, others);
      var i := 0;
      while i < cnt
        invariant 0 <= i <= cnt && PoolOk(c, others) && RunRemoved(a, c, p, i) && pbits == c.pbits && pte == c.pte &&
          vbits == a.vbits
      {
        assert p + i in a.pte;
        InRange(c, others);
        UnmapKeeps(c, others, p + i);
        UnmapRun(a, c, p, i);
        pbits := pbits[pte[p + i] := false];
        pte := pte - {p + i};
        c := Unmap(c, p + i);
        i := i + 1;
      }
      assert p in a.pte && p + cnt - 1 in a.pte;
      MarkRun(p, cnt, false);
      UnmarkedRun(a, c, others, vbits, p, cnt);
    }
  }

  lemma InRange(c: Pool, others: set<int>)
    requires PoolOk(c, others)
    ensures forall i | i in c.pte :: 0 <= i < |c.vbits| && 0 <= c.pte[i] < |c.pbits|
  {
  }

  lemma UnmapRun(a: Pool, c: Pool, p: int, i: nat)
    requires RunRemoved(a, c, p, i) && p + i in c.pte && 0 <= p + i < |c.vbits| && 0 <= c.pte[p + i] < |c.pbits|
    ensures RunRemoved(a, Unmap(c, p + i), p, i + 1)
    ensures Unmap(c, p + i).pbits == c.pbits[c.pte[p + i] := false] && Unmap(c, p + i).pte == c.pte - {p + i}
  {
  }

  lemma UnmarkedRun(a: Pool, c: Pool, others: set<int>, vbits: seq<bool>, p: int, cnt: nat)
    requires PoolOk(a, others) && PoolOk(c, others) && RunRemoved(a, c, p, cnt) && |vbits| == |a.vbits|
    requires forall k | 0 <= k < |vbits| :: vbits[k] == if p <= k < p + cnt then false else a.vbits[k]
    ensures vbits == c.vbits
  {
    forall k | 0 <= k < |vbits| ensures vbits[k] == c.vbits[k] { }
  }

  lemma MapRunAdds(a: Pool, c: Pool, p: int, i: nat, f: int)
    requires RunAdded(a, c, p, i) && 0 <= p && p + i < |c.vbits| && 0 <= f < |c.pbits| && p + i !in a.pte
    ensures RunAdded(a, Map(c, p + i, f), p, i + 1)
    ensures Map(c, p + i, f).pbits == c.pbits[f := true] && Map(c, p + i, f).pte == c.pte[p + i := f]
  {
  }

  /** With the run's bits set the page bitmap is the one the mapping asks for. */
  lemma MarkedRun(a: Pool, c: Pool, others: set<int>, vbits: seq<bool>, p: int, cnt: nat)
    requires PoolOk(a, others) && PoolOk(c, others) && RunAdded(a, c, p, cnt) && |vbits| == |a.vbits|
    requires forall k | 0 <= k < |vbits| :: vbits[k] == if p <= k < p + cnt then true else a.vbits[k]
    ensures vbits == c.vbits
  {
    forall k | 0 <= k < |vbits| ensures vbits[k] == c.vbits[k] { }
  }

  /** What the scan's answer says about the bitmap itself. */
  lemma ScanMeans(vbits: seq<bool>, guard: bool, cnt: nat, p: int)
    requires cnt > 0 && IsLeftmost(Scanned(vbits, guard, cnt), cnt, p)
    ensures p == -1 ==> IsLeftmost(vbits, cnt, -1) && !RunsOver(vbits, guard, cnt)
    ensures p != -1 && p + cnt > |vbits| ==> RunsOver(vbits, guard, cnt)
    ensures p != -1 && p + cnt <= |vbits| ==> p >= 0 && IsLeftmost(vbits, cnt, p) && !RunsOver(vbits, guard, cnt)
  {
    if cnt > 1 {
      var all := vbits + [guard];
      assert all[..|all| - 1] == vbits;
      GuardExact(all, cnt, p);
      OwnTail(vbits, guard, cnt);
      if p != -1 && p + cnt <= |vbits| { InOwn(vbits, guard, cnt, p); }
      if p != -1 && p + cnt > |vbits| { assert p == |all| - cnt; NoneOwn(vbits, guard, cnt, p); }
    }
    if p != -1 && p + cnt <= |vbits| && IsLeftmost(vbits, cnt, p) { LeftmostOnce(vbits, cnt, p); }
  }

  /** A run that ends in the bit behind is that bit and a clear tail. */
  lemma OwnTail(vbits: seq<bool>, guard: bool, cnt: nat)
    requires cnt > 1
    ensures cnt <= |vbits| + 1 ==>
      (ClearRun(vbits + [guard], |vbits| + 1 - cnt, cnt) <==> !guard && ClearRun(vbits, |vbits| - (cnt - 1), cnt - 1))
  {
    var all := vbits + [guard];
    if cnt <= |vbits| + 1 {
      var i := |vbits| + 1 - cnt;
      if ClearRun(all, i, cnt) {
        assert !all[|vbits|];
        forall j | i <= j < |vbits| ensures !vbits[j] { assert !all[j]; }
      }
    }
  }

  lemma InOwn(vbits: seq<bool>, guard: bool, cnt: nat, p: int)
    requires cnt > 1 && IsLeftmost(vbits + [guard], cnt, p) && p != -1 && p + cnt <= |vbits|
    ensures ClearRun(vbits, p, cnt)
  {
    var all := vbits + [guard];
    forall j | p <= j < p + cnt ensures !vbits[j] { assert !all[j]; }
  }

  lemma NoneOwn(vbits: seq<bool>, guard: bool, cnt: nat, p: int)
    requires cnt > 1 && IsLeftmost(vbits + [guard], cnt, p) && p != -1 && p + cnt > |vbits|
    ensures IsLeftmost(vbits, cnt, -1)
  {
    var all := vbits + [guard];
    forall i: nat ensures !ClearRun(vbits, i, cnt) {
      if ClearRun(vbits, i, cnt) {
        forall j | i <= j < i + cnt ensures !all[j] { assert !vbits[j]; }
        assert ClearRun(all, i, cnt) && i < p;
      }
    }
  }

  /** With the bit behind used, nothing is ever allocated outside. */
  lemma GuardedPages(vbits: seq<bool>, cnt: nat, p: int)
    requires cnt > 1 && IsLeftmost(Scanned(vbits, true, cnt), cnt, p)
    ensures IsLeftmost(vbits, cnt, p) && !RunsOver(vbits, true, cnt)
  {
    var all := vbits + [true];
    assert all[..|all| - 1] == vbits;
    Guarded(all, cnt, p);
  }

  lemma LeftmostOnce(bits: seq<bool>, cnt: nat, p: int)
    requires IsLeftmost(bits, cnt, p) && p != -1
    ensures !IsLeftmost(bits, cnt, -1) && p >= 0 && ClearRun(bits, p, cnt)
  {
    assert ClearRun(bits, p, cnt);
  }

  lemma RunFree(a: Pool, others: set<int>, p: int, cnt: nat)
    requires PoolOk(a, others) && 0 <= p && ClearRun(a.vbits, p, cnt)
    ensures forall i | p <= i < p + cnt :: i !in a.pte
  {
  }

  lemma AddedNone(a: Pool, p: int)
    ensures RunAdded(a, a, p, 0)
  {
  }
}
