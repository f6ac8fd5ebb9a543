/** The size-class allocator (kernel/memory.c): pages cut into equal blocks behind a 12-byte header, whole pages for
    more than 1024 bytes. */
module Arena {
  import opened Common

  const HEADER := 12
  const CLASSES := 7

  /** The header at the start of an arena; `cnt` counts free blocks of a small one and pages of a large one. */
  datatype Header = Small(d: nat, cnt: nat) | Large(cnt: nat)

  /** `pages` are the mapped heap pages, numbered from page `base` of the address space on; `free` has one list a
      class; `live` records what was handed out, with the size asked for. */
  datatype Heap = Heap(base: nat, pages: set<int>, arenas: map<int, Header>, free: seq<seq<int>>, live: map<int, nat>)

  // ---------------------------------------------------------------- blocks of a page

  /** `block_desc_init` */
  function Size(d: nat): (s: nat)
    requires d < CLASSES
    ensures 16 <= s <= 1024 && (d == 0 <==> s == 16) && (d == CLASSES - 1 <==> s == 1024)
  {
    match d
    case 0 => 16
    case 1 => 32
    case 2 => 64
    case 3 => 128
    case 4 => 256
    case 5 => 512
    case 6 => 1024
  }

  /** Each class has blocks twice as large as the one before. */
  lemma Doubling(d: nat)
    requires d + 1 < CLASSES
    ensures Size(d + 1) == 2 * Size(d)
  {
  }

  /** As many blocks as fit behind the header. */
  function PerArena(d: nat): (n: nat)
    requires d < CLASSES
    ensures 3 <= n <= 255 && HEADER + n * Size(d) <= 4096 < HEADER + (n + 1) * Size(d)
  {
    (4096 - HEADER) / Size(d)
  }

  /** The class `sys_malloc` picks: the first whose blocks are large enough. */
  function ClassFor(size: nat): (d: nat)
    requires size <= 1024
    ensures d < CLASSES && size <= Size(d) && (d > 0 ==> Size(d - 1) < size)
  {
    if size <= 16 then 0 else if size <= 32 then 1 else if size <= 64 then 2 else if size <= 128 then 3
    else if size <= 256 then 4 else if size <= 512 then 5 else 6
  }

  function Addr(h: Heap, p: int): int { (h.base + p) * 4096 }

  /** `block2arena`, as a page number. */
  function PageOf(h: Heap, a: int): int { a / 4096 - h.base }

  /** `arena2block` */
  function Block(h: Heap, p: int, d: nat, i: nat): int
    requires d < CLASSES
  {
    Addr(h, p) + HEADER + i * Size(d)
  }

  function BlockList(h: Heap, p: int, d: nat, n: nat): (r: seq<int>)
    requires d < CLASSES
    ensures |r| == n && forall i :: 0 <= i < n ==> r[i] == Block(h, p, d, i)
  {
    if n == 0 then [] else BlockList(h, p, d, n - 1) + [Block(h, p, d, n - 1)]
  }

  ghost function Blocks(h: Heap, p: int, d: nat): set<int>
    requires d < CLASSES
  {
    Elems(BlockList(h, p, d, PerArena(d)))
  }

  predicate Unique(q: seq<int>) { forall i, j :: 0 <= i < j < |q| ==> q[i] != q[j] }

  /** Blocks lie in their page behind the header, and `block2arena` finds the page. */
  lemma BlockIn(h: Heap, p: int, d: nat, i: nat)
    requires d < CLASSES && i < PerArena(d)
    ensures var b := Block(h, p, d, i);
      Addr(h, p) + HEADER <= b && b + Size(d) <= Addr(h, p) + 4096 && PageOf(h, b) == p
  {
    assert (i + 1) * Size(d) <= PerArena(d) * Size(d);
  }

  lemma BlocksApart(h: Heap, p: int, d: nat, i: nat, j: nat)
    requires d < CLASSES && i < j
    ensures Block(h, p, d, i) + Size(d) <= Block(h, p, d, j)
  {
    assert (i + 1) * Size(d) <= j * Size(d);
  }

  lemma InBlocks(h: Heap, p: int, d: nat, a: int)
    requires d < CLASSES && a in Blocks(h, p, d)
    ensures Addr(h, p) + HEADER <= a && a + Size(d) <= Addr(h, p) + 4096 && PageOf(h, a) == p
    ensures exists i: nat :: i < PerArena(d) && a == Block(h, p, d, i)
  {
    var q := BlockList(h, p, d, PerArena(d));
    var i :| 0 <= i < |q| && q[i] == a;
    BlockIn(h, p, d, i);
  }

  /** Two blocks of a page do not overlap. */
  lemma InBlocksApart(h: Heap, p: int, d: nat, a: int, b: int)
    requires d < CLASSES && a in Blocks(h, p, d) && b in Blocks(h, p, d) && a < b
    ensures a + Size(d) <= b
  {
    hide Block;
    InBlocks(h, p, d, a);
    InBlocks(h, p, d, b);
    var i: nat :| i < PerArena(d) && a == Block(h, p, d, i);
    var j: nat :| j < PerArena(d) && b == Block(h, p, d, j);
    if i < j { BlocksApart(h, p, d, i, j); } else if j < i { BlocksApart(h, p, d, j, i); }
  }

  lemma {:induction false} ElemsSize(q: seq<int>)
    requires Unique(q)
    ensures |Elems(q)| == |q|
  {
    if q == [] {
      assert Elems(q) == {};
    } else {
      var n := |q| - 1;
      ElemsSize(q[..n]);
      assert Elems(q) == Elems(q[..n]) + {q[n]} by { assert q == q[..n] + [q[n]]; }
      assert q[n] !in q[..n];
    }
  }

  lemma BlocksCount(h: Heap, p: int, d: nat)
    requires d < CLASSES
    ensures Unique(BlockList(h, p, d, PerArena(d))) && |Blocks(h, p, d)| == PerArena(d)
  {
    hide Block;
    var q := BlockList(h, p, d, PerArena(d));
    forall i, j | 0 <= i < j < |q| ensures q[i] != q[j] { BlocksApart(h, p, d, i, j); }
    ElemsSize(q);
  }

  // ---------------------------------------------------------------- invariant

  function Pages(a: Header): nat { if a.Small? then 1 else a.cnt }

  predicate Covers(h: Heap, p: int, i: int) { p in h.arenas && p <= i < p + Pages(h.arenas[p]) }

  /** Arenas lie in mapped pages, apart from each other; every mapped page is an arena's or foreign. */
  ghost predicate ArenasOk(h: Heap, foreign: set<int>) {
    && (forall p | p in h.arenas :: Pages(h.arenas[p]) >= 1 && (h.arenas[p].Small? ==> h.arenas[p].d < CLASSES))
    && (forall p, i | Covers(h, p, i) :: i in h.pages && i !in foreign)
    && (forall p, q, i | Covers(h, p, i) && Covers(h, q, i) :: p == q)
    && (forall i | i in h.pages :: i in foreign || Covered(h, i))
    && foreign <= h.pages
  }

  ghost predicate Covered(h: Heap, i: int) { exists p :: Covers(h, p, i) }

  predicate SmallAt(h: Heap, p: int, d: nat) { p in h.arenas && h.arenas[p].Small? && h.arenas[p].d == d < CLASSES }

  /** A free list holds blocks of arenas of its class, each once. */
  ghost predicate ListOk(h: Heap, d: nat)
    requires d < CLASSES && |h.free| == CLASSES
  {
    Unique(h.free[d]) && forall a | a in h.free[d] :: SmallAt(h, PageOf(h, a), d) && a in Blocks(h, PageOf(h, a), d)
  }

  ghost predicate LiveAt(h: Heap, a: int)
    requires a in h.live && |h.free| == CLASSES
  {
    var p := PageOf(h, a);
    p in h.arenas &&
    match h.arenas[p]
    case Small(d, _) => d < CLASSES && a in Blocks(h, p, d) && a !in h.free[d] && h.live[a] <= Size(d)
    case Large(n) => a == Addr(h, p) + HEADER && h.live[a] + HEADER <= n * 4096
  }

  /** `cnt` of a small arena is the number of its blocks on the free list, never all of them unless the arena is in
      `full`; each of its blocks is free or handed out. */
  ghost predicate CountOk(h: Heap, p: int, full: set<int>)
    requires p in h.arenas && |h.free| == CLASSES
  {
    match h.arenas[p]
    case Small(d, cnt) =>
      && d < CLASSES && cnt == |Blocks(h, p, d) * Elems(h.free[d])| && (cnt < PerArena(d) || p in full)
      && forall a | a in Blocks(h, p, d) :: a in h.free[d] || a in h.live
    case Large(_) => Addr(h, p) + HEADER in h.live
  }

  ghost predicate Inv(h: Heap, foreign: set<int>, full: set<int>) {
    && ArenasOk(h, foreign) && |h.free| == CLASSES
    && (forall d | 0 <= d < CLASSES :: ListOk(h, d))
    && (forall a | a in h.live :: LiveAt(h, a))
    && (forall p | p in h.arenas :: CountOk(h, p, full))
  }

  // ---------------------------------------------------------------- what the invariant promises

  /** Live blocks hold what was asked for, do not overlap, touch no header and no free block. */
  lemma LiveApart(h: Heap, foreign: set<int>, a: int, b: int)
    requires Inv(h, foreign, {}) && a in h.live && b in h.live && a < b
    ensures a + h.live[a] <= b
  {
    hide Blocks, Addr, ListOk, CountOk;
    var p, q := PageOf(h, a), PageOf(h, b);
    assert LiveAt(h, a) && LiveAt(h, b);
    InOwnPages(h, foreign, a);
    InOwnPages(h, foreign, b);
    if p == q {
      if h.arenas[p].Small? { InBlocksApart(h, p, h.arenas[p].d, a, b); }
    } else {
      Separate(h, foreign, p, q);
      PageOrder(h, p, q, Pages(h.arenas[p]), Pages(h.arenas[q]));
    }
  }

  /** A live block lies within the pages of its arena, behind the header. */
  lemma InOwnPages(h: Heap, foreign: set<int>, a: int)
    requires Inv(h, foreign, {}) && a in h.live
    ensures var p := PageOf(h, a);
      p in h.arenas && Addr(h, p) + HEADER <= a && a + h.live[a] <= Addr(h, p + Pages(h.arenas[p]))
  {
    hide Blocks, ListOk, CountOk, ArenasOk;
    assert LiveAt(h, a);
    var p := PageOf(h, a);
    match h.arenas[p]
    case Small(d, _) => InBlocks(h, p, d, a);
    case Large(n) =>
  }

  lemma Separate(h: Heap, foreign: set<int>, p: int, q: int)
    requires ArenasOk(h, foreign) && p in h.arenas && q in h.arenas && p != q
    ensures p + Pages(h.arenas[p]) <= q || q + Pages(h.arenas[q]) <= p
  {
    assert Covers(h, p, p) && Covers(h, q, q);
    if p < q < p + Pages(h.arenas[p]) { assert Covers(h, p, q); }
    if q < p < q + Pages(h.arenas[q]) { assert Covers(h, q, p); }
  }

  lemma PageOrder(h: Heap, p: int, q: int, m: nat, n: nat)
    ensures p + m <= q ==> Addr(h, p + m) <= Addr(h, q)
    ensures q + n <= p ==> Addr(h, q + n) <= Addr(h, p)
  {
  }

  lemma LiveOffFree(h: Heap, foreign: set<int>, a: int, d: nat, b: int)
    requires Inv(h, foreign, {}) && a in h.live && d < CLASSES && b in h.free[d]
    ensures a + h.live[a] <= b || b + Size(d) <= a
  {
    hide Blocks, Addr, CountOk;
    var p, q := PageOf(h, a), PageOf(h, b);
    assert LiveAt(h, a) && ListOk(h, d) && SmallAt(h, q, d) && b in Blocks(h, q, d);
    InOwnPages(h, foreign, a);
    InBlocks(h, q, d, b);
    if p == q {
      if a < b { InBlocksApart(h, p, d, a, b); } else { InBlocksApart(h, p, d, b, a); }
    } else {
      Separate(h, foreign, p, q);
      PageOrder(h, p, q, Pages(h.arenas[p]), 1);
      OnePage(h, q);
    }
  }

  lemma OnePage(h: Heap, p: int)
    ensures Addr(h, p + 1) == Addr(h, p) + 4096
  {
  }

  lemma LiveOffHeaders(h: Heap, foreign: set<int>, a: int, q: int)
    requires Inv(h, foreign, {}) && a in h.live && q in h.arenas
    ensures a + h.live[a] <= Addr(h, q) || Addr(h, q) + HEADER <= a
  {
    hide Blocks, Addr, CountOk, ListOk, LiveAt;
    var p := PageOf(h, a);
    InOwnPages(h, foreign, a);
    if p != q {
      Separate(h, foreign, p, q);
      PageOrder(h, p, q, Pages(h.arenas[p]), Pages(h.arenas[q]));
      PageOrder(h, q, q + Pages(h.arenas[q]), 1, 0);
      OnePage(h, q);
      assert Pages(h.arenas[q]) >= 1;
    }
  }

  /** With nothing handed out there is no arena: every mapped page is foreign. */
  lemma NothingLive(h: Heap, foreign: set<int>)
    requires Inv(h, foreign, {}) && h.live == map[]
    ensures h.arenas == map[] && h.pages == foreign && forall d | 0 <= d < CLASSES :: h.free[d] == []
  {
    hide Blocks, Addr, LiveAt;
    forall p ensures p !in h.arenas {
      if p in h.arenas {
        assert CountOk(h, p, {});
        if h.arenas[p].Small? { AllOnList(h, p, h.arenas[p].d); }
      }
    }
    forall i | i in h.pages ensures i in foreign {
      assert i in foreign || Covered(h, i);
    }
    forall d | 0 <= d < CLASSES ensures h.free[d] == [] {
      assert ListOk(h, d);
      NoElements(h.free[d]);
    }
  }

  lemma NoElements(q: seq<int>)
    ensures q == [] || exists a :: a in q
  {
    if q != [] {
      var a := q[0];
      assert a in q;
    }
  }

  lemma AllOnList(h: Heap, p: int, d: nat)
    requires d < CLASSES && |h.free| == CLASSES && forall a | a in Blocks(h, p, d) :: a in h.free[d]
    ensures |Blocks(h, p, d) * Elems(h.free[d])| == PerArena(d)
  {
    BlocksCount(h, p, d);
    assert Blocks(h, p, d) * Elems(h.free[d]) == Blocks(h, p, d);
  }

  // ---------------------------------------------------------------- a new arena

  /** `n` pages from `p` on. */
  function Run(p: int, n: nat): (r: set<int>)
    ensures forall i :: i in r <==> p <= i < p + n
  {
    if n == 0 then {} else Run(p, n - 1) + {p + n - 1}
  }

  function NewSmall(h: Heap, p: int, d: nat): Heap
    requires d < CLASSES && |h.free| == CLASSES
  {
    h.(pages := h.pages + {p}, arenas := h.arenas[p := Small(d, PerArena(d))],
      free := h.free[d := h.free[d] + BlockList(h, p, d, PerArena(d))])
  }

  /** Same addresses. */
  lemma SameBlocks(h: Heap, n: Heap)
    requires n.base == h.base
    ensures forall p, d: nat | d < CLASSES :: Blocks(n, p, d) == Blocks(h, p, d)
    ensures forall a :: PageOf(n, a) == PageOf(h, a)
    ensures forall p :: Addr(n, p) == Addr(h, p)
  {
    forall p, d: nat | d < CLASSES ensures Blocks(n, p, d) == Blocks(h, p, d) {
      assert BlockList(n, p, d, PerArena(d)) == BlockList(h, p, d, PerArena(d));
    }
  }

  lemma NewCovers(h: Heap, n: Heap, foreign: set<int>, p: int, a: Header)
    requires ArenasOk(h, foreign) && Pages(a) >= 1 && (a.Small? ==> a.d < CLASSES) && n.arenas == h.arenas[p := a]
    requires n.pages == h.pages + Run(p, Pages(a)) && forall i | p <= i < p + Pages(a) :: i !in h.pages
    ensures ArenasOk(n, foreign) && p !in h.arenas
  {
    assert p in h.arenas ==> Covers(h, p, p);
    assert forall q, i :: Covers(n, q, i) <==> if q == p then p <= i < p + Pages(a) else Covers(h, q, i);
    forall i | i in n.pages ensures i in foreign || Covered(n, i) {
      if i in h.pages {
        if i !in foreign {
          var q :| Covers(h, q, i);
          assert Covers(n, q, i);
        }
      } else {
        assert Covers(n, p, i);
      }
    }
  }

  /** Every block of a page is known by `block2arena` to be of that page. */
  lemma OwnPage(h: Heap, p: int, d: nat)
    requires d < CLASSES
    ensures forall a | a in Blocks(h, p, d) :: PageOf(h, a) == p
  {
    forall a | a in Blocks(h, p, d) ensures PageOf(h, a) == p { InBlocks(h, p, d, a); }
  }

  lemma NewList(h: Heap, p: int, d: nat)
    requires d < CLASSES && |h.free| == CLASSES
    ensures var q := h.free[d] + BlockList(h, p, d, PerArena(d));
      && (forall a :: a in q <==> a in h.free[d] || a in Blocks(h, p, d)) &&
         Elems(q) == Elems(h.free[d]) + Blocks(h, p, d)
  {
  }

  lemma NewUnique(h: Heap, p: int, d: nat)
    requires d < CLASSES && |h.free| == CLASSES && ListOk(h, d) && p !in h.arenas
    ensures Unique(h.free[d] + BlockList(h, p, d, PerArena(d)))
  {
    hide PageOf, Addr, BlockList;
    BlocksCount(h, p, d);
    OwnPage(h, p, d);
    var x, y := h.free[d], BlockList(h, p, d, PerArena(d));
    forall i, j | 0 <= i < j < |x + y| ensures (x + y)[i] != (x + y)[j] {
      if i < |x| <= j {
        assert x[i] in x && y[j - |x|] in y;
        assert y[j - |x|] in Blocks(h, p, d);
      }
    }
  }

  lemma NewSmallKeeps(h: Heap, foreign: set<int>, p: int, d: nat)
    requires Inv(h, foreign, {}) && p !in h.pages && d < CLASSES
    ensures Inv(NewSmall(h, p, d), foreign, {p})
  {
    hide Blocks, Addr, PageOf, BlockList, ArenasOk, Unique, Elems;
    var n := NewSmall(h, p, d);
    SameBlocks(h, n);
    assert n.pages == h.pages + Run(p, 1);
    NewCovers(h, n, foreign, p, Small(d, PerArena(d)));
    NewList(h, p, d);
    OwnPage(h, p, d);
    NewUnique(h, p, d);
    forall e | 0 <= e < CLASSES ensures ListOk(n, e) { assert ListOk(h, e); }
    forall a | a in n.live ensures LiveAt(n, a) { assert LiveAt(h, a); }
    forall q | q in n.arenas ensures CountOk(n, q, {p}) {
      if q == p { AllOnList(n, p, d); } else { assert CountOk(h, q, {}); NewCount(h, n, p, d, q); }
    }
  }

  lemma NewCount(h: Heap, n: Heap, p: int, d: nat, q: int)
    requires |h.free| == CLASSES && d < CLASSES && n == NewSmall(h, p, d) && q != p && q in h.arenas &&
      CountOk(h, q, {})
    ensures CountOk(n, q, {p})
  {
    hide Addr, PageOf, BlockList;
    SameBlocks(h, n);
    NewList(h, p, d);
    OwnPage(h, p, d);
    if h.arenas[q].Small? {
      var e := h.arenas[q].d;
      OwnPage(h, q, e);
      assert Blocks(h, q, e) * Elems(n.free[e]) == Blocks(h, q, e) * Elems(h.free[e]);
    }
  }

  // ---------------------------------------------------------------- taking a block

  /** The head of the list is handed out. */
  function Take(h: Heap, d: nat, size: nat): Heap
    requires d < CLASSES && |h.free| == CLASSES && h.free[d] != [] && PageOf(h, h.free[d][0]) in h.arenas
  {
    var a := h.free[d][0];
    var p := PageOf(h, a);
    h.(free := h.free[d := h.free[d][1..]], live := h.live[a := size],
      arenas := h.arenas[p := Small(d, if h.arenas[p].cnt > 0 then h.arenas[p].cnt - 1 else 0)])
  }

  lemma Head(q: seq<int>)
    requires Unique(q) && q != []
    ensures Unique(q[1..]) && (forall x :: x in q[1..] <==> x in q && x != q[0]) && Elems(q[1..]) == Elems(q) - {q[0]}
  {
    forall x ensures x in q[1..] <==> x in q && x != q[0] {
      if x in q && x != q[0] {
        var i :| 0 <= i < |q| && q[i] == x;
        assert q[1..][i - 1] == x;
      }
    }
  }

  /** A header's count changes; the pages stay. */
  lemma SameCovers(h: Heap, n: Heap, foreign: set<int>)
    requires ArenasOk(h, foreign) && n.pages == h.pages && n.arenas.Keys == h.arenas.Keys
    requires forall p | p in h.arenas ::
      Pages(n.arenas[p]) == Pages(h.arenas[p]) && (n.arenas[p].Small? ==> n.arenas[p].d < CLASSES)
    ensures ArenasOk(n, foreign)
  {
    assert forall p, i :: Covers(n, p, i) <==> Covers(h, p, i);
    forall i | i in n.pages && i !in foreign ensures Covered(n, i) {
      var p :| Covers(h, p, i);
      assert Covers(n, p, i);
    }
  }

  lemma TakeKeeps(h: Heap, foreign: set<int>, full: set<int>, d: nat, size: nat)
    requires Inv(h, foreign, full) && d < CLASSES && h.free[d] != [] && size <= Size(d) &&
      full <= {PageOf(h, h.free[d][0])}
    ensures PageOf(h, h.free[d][0]) in h.arenas && SmallAt(h, PageOf(h, h.free[d][0]), d) && h.free[d][0] !in h.live &&
      h.arenas[PageOf(h, h.free[d][0])].cnt > 0 && Inv(Take(h, d, size), foreign, {})
  {
    hide Blocks, Addr, PageOf, ArenasOk, Unique, Elems;
    var a := h.free[d][0];
    var p := PageOf(h, a);
    assert ListOk(h, d) && a in h.free[d];
    assert CountOk(h, p, full);
    assert a in h.live ==> LiveAt(h, a);
    Head(h.free[d]);
    PopCount(h, p, d, a);
    var n := Take(h, d, size);
    SameBlocks(h, n);
    SameCovers(h, n, foreign);
    forall e | 0 <= e < CLASSES ensures ListOk(n, e) { assert ListOk(h, e); }
    forall x | x in n.live ensures LiveAt(n, x) { if x != a { assert LiveAt(h, x); } }
    forall q | q in n.arenas ensures CountOk(n, q, {}) {
      assert CountOk(h, q, full);
      TakeCount(h, n, full, d, a, q);
    }
  }

  lemma PopCount(h: Heap, p: int, d: nat, a: int)
    requires d < CLASSES && |h.free| == CLASSES && a in Blocks(h, p, d) && a in h.free[d]
    ensures |Blocks(h, p, d) * Elems(h.free[d])| > 0 && |Blocks(h, p, d) * Elems(h.free[d])| <= PerArena(d)
    ensures |Blocks(h, p, d) * (Elems(h.free[d]) - {a})| == |Blocks(h, p, d) * Elems(h.free[d])| - 1
  {
    var s := Blocks(h, p, d) * Elems(h.free[d]);
    assert a in s;
    assert Blocks(h, p, d) * (Elems(h.free[d]) - {a}) == s - {a};
    BlocksCount(h, p, d);
    SubsetSize(s, Blocks(h, p, d));
  }

  lemma SubsetSize(a: set<int>, b: set<int>)
    requires a <= b
    ensures |a| <= |b|
    ensures |a| == |b| ==> a == b
  {
    assert b == a + (b - a) && a !! (b - a);
    if |a| == |b| { assert b - a == {}; }
  }

  lemma TakeCount(h: Heap, n: Heap, full: set<int>, d: nat, a: int, q: int)
    requires |h.free| == CLASSES && d < CLASSES && h.free[d] != [] && a == h.free[d][0] &&
      SmallAt(h, PageOf(h, a), d) && a in Blocks(h, PageOf(h, a), d)
    requires exists size :: n == Take(h, d, size)
    requires Unique(h.free[d]) && q in h.arenas && CountOk(h, q, full) && full <= {PageOf(h, a)}
    requires h.arenas[PageOf(h, a)].cnt == |Blocks(h, PageOf(h, a), d) * Elems(h.free[d])|
    ensures q in n.arenas && CountOk(n, q, {})
  {
    hide Addr, PageOf, Blocks, Elems, Unique;
    var p := PageOf(h, a);
    SameBlocks(h, n);
    Head(h.free[d]);
    PopCount(h, p, d, a);
    if h.arenas[q].Small? && q != p {
      var e := h.arenas[q].d;
      OwnPage(h, q, e);
      OwnPage(h, p, d);
      assert a !in Blocks(h, q, e);
      assert Blocks(h, q, e) * (Elems(h.free[d]) - {a}) == Blocks(h, q, e) * Elems(h.free[d]);
    }
  }

  // ---------------------------------------------------------------- giving a block back

  function Give(h: Heap, a: int): Heap
    requires |h.free| == CLASSES && PageOf(h, a) in h.arenas && h.arenas[PageOf(h, a)].Small? &&
      h.arenas[PageOf(h, a)].d < CLASSES
  {
    var p := PageOf(h, a);
    var d := h.arenas[p].d;
    h.(free := h.free[d := h.free[d] + [a]], live := h.live - {a},
      arenas := h.arenas[p := Small(d, h.arenas[p].cnt + 1)])
  }

  lemma Tail(q: seq<int>, a: int)
    requires Unique(q) && a !in q
    ensures Unique(q + [a]) && (forall x :: x in q + [a] <==> x in q || x == a) && Elems(q + [a]) == Elems(q) + {a}
  {
  }

  lemma PushCount(h: Heap, p: int, d: nat, a: int)
    requires d < CLASSES && |h.free| == CLASSES && a in Blocks(h, p, d) && a !in h.free[d]
    ensures |Blocks(h, p, d) * (Elems(h.free[d]) + {a})| == |Blocks(h, p, d) * Elems(h.free[d])| + 1
    ensures |Blocks(h, p, d) * (Elems(h.free[d]) + {a})| <= PerArena(d)
  {
    var s := Blocks(h, p, d) * Elems(h.free[d]);
    assert a !in s;
    assert Blocks(h, p, d) * (Elems(h.free[d]) + {a}) == s + {a};
    BlocksCount(h, p, d);
    SubsetSize(s + {a}, Blocks(h, p, d));
  }

  lemma GiveKeeps(h: Heap, foreign: set<int>, a: int)
    requires Inv(h, foreign, {}) && a in h.live && PageOf(h, a) in h.arenas && h.arenas[PageOf(h, a)].Small?
    ensures var p := PageOf(h, a); var d := h.arenas[p].d;
      d < CLASSES && Inv(Give(h, a), foreign, {p}) && h.arenas[p].cnt + 1 <= PerArena(d)
  {
    hide Blocks, Addr, PageOf, ArenasOk, Unique, Elems;
    var p := PageOf(h, a);
    var d := h.arenas[p].d;
    assert LiveAt(h, a) && CountOk(h, p, {}) && ListOk(h, d);
    Tail(h.free[d], a);
    PushCount(h, p, d, a);
    var n := Give(h, a);
    SameBlocks(h, n);
    SameCovers(h, n, foreign);
    forall e | 0 <= e < CLASSES ensures ListOk(n, e) { assert ListOk(h, e); }
    forall x | x in n.live ensures LiveAt(n, x) { assert LiveAt(h, x); }
    forall q | q in n.arenas ensures CountOk(n, q, {p}) {
      assert CountOk(h, q, {});
      GiveCount(h, n, a, q);
    }
  }

  lemma GiveCount(h: Heap, n: Heap, a: int, q: int)
    requires |h.free| == CLASSES && PageOf(h, a) in h.arenas && h.arenas[PageOf(h, a)].Small? &&
      h.arenas[PageOf(h, a)].d < CLASSES && n == Give(h, a)
    requires var p := PageOf(h, a); var d := h.arenas[p].d;
      a in Blocks(h, p, d) && a !in h.free[d] && Unique(h.free[d]) && CountOk(h, p, {})
    requires q in h.arenas && CountOk(h, q, {})
    ensures CountOk(n, q, {PageOf(h, a)})
  {
    hide PageOf, Blocks, Elems, Unique, Addr;
    var p := PageOf(h, a);
    var d := h.arenas[p].d;
    SameBlocks(h, n);
    Tail(h.free[d], a);
    PushCount(h, p, d, a);
    if h.arenas[q].Small? {
      if q != p {
        var e := h.arenas[q].d;
        OwnPage(h, q, e);
        OwnPage(h, p, d);
        assert a !in Blocks(h, q, e);
        assert Blocks(h, q, e) * (Elems(h.free[d]) + {a}) == Blocks(h, q, e) * Elems(h.free[d]);
      }
    } else {
      LargeHead(h, q);
    }
  }

  lemma LargeHead(h: Heap, q: int)
    ensures PageOf(h, Addr(h, q) + HEADER) == q
  {
  }

  lemma NotFull(h: Heap, foreign: set<int>, p: int, d: nat)
    requires Inv(h, foreign, {p}) && SmallAt(h, p, d) && h.arenas[p].cnt < PerArena(d)
    ensures Inv(h, foreign, {})
  {
    hide Blocks, Addr, PageOf, ArenasOk, Unique, Elems, ListOk, LiveAt;
    forall q | q in h.arenas ensures CountOk(h, q, {}) { assert CountOk(h, q, {p}); }
  }

  // ---------------------------------------------------------------- an arena goes

  /** A small arena all of whose blocks are free is taken apart. */
  ghost predicate Dropped(h: Heap, n: Heap, p: int, d: nat) {
    && SmallAt(h, p, d) && |h.free| == CLASSES && |n.free| == CLASSES && n.base == h.base && n.live == h.live
    && n.arenas == h.arenas - {p} && n.pages == h.pages - {p}
    && (forall e: nat | e < CLASSES && e != d :: n.free[e] == h.free[e])
    && Unique(n.free[d]) && (forall a :: a in n.free[d] <==> a in h.free[d] && a !in Blocks(h, p, d))
  }

  /** A full arena has every block on the list. */
  lemma FullOnList(h: Heap, p: int, d: nat)
    requires d < CLASSES && |h.free| == CLASSES && |Blocks(h, p, d) * Elems(h.free[d])| == PerArena(d)
    ensures forall a | a in Blocks(h, p, d) :: a in h.free[d]
  {
    BlocksCount(h, p, d);
    SubsetSize(Blocks(h, p, d) * Elems(h.free[d]), Blocks(h, p, d));
    forall a | a in Blocks(h, p, d) ensures a in h.free[d] {
      assert a in Blocks(h, p, d) * Elems(h.free[d]);
    }
  }

  lemma LessCovers(h: Heap, n: Heap, foreign: set<int>, p: int)
    requires ArenasOk(h, foreign) && p in h.arenas && n.arenas == h.arenas - {p} &&
      n.pages == h.pages - Run(p, Pages(h.arenas[p]))
    ensures ArenasOk(n, foreign)
  {
    assert forall q, i :: Covers(n, q, i) <==> q != p && Covers(h, q, i);
    forall i | i in n.pages && i !in foreign ensures Covered(n, i) {
      var q :| Covers(h, q, i);
      assert Covers(n, q, i);
    }
    forall i | i in foreign ensures i in n.pages {
      assert !Covers(h, p, i);
    }
    forall q, i | Covers(n, q, i) ensures i in n.pages {
      assert Covers(h, q, i) && !Covers(h, p, i);
    }
  }

  lemma DropKeeps(h: Heap, n: Heap, foreign: set<int>, p: int, d: nat)
    requires Inv(h, foreign, {p}) && Dropped(h, n, p, d) && h.arenas[p].cnt == PerArena(d)
    ensures Inv(n, foreign, {})
  {
    hide Blocks, Addr, PageOf, ArenasOk, Unique, Elems;
    SameBlocks(h, n);
    assert CountOk(h, p, {p});
    FullOnList(h, p, d);
    OwnPage(h, p, d);
    assert n.pages == h.pages - Run(p, 1);
    LessCovers(h, n, foreign, p);
    forall e | 0 <= e < CLASSES ensures ListOk(n, e) {
      assert ListOk(h, e);
      forall a | a in n.free[e] ensures SmallAt(n, PageOf(n, a), e) { assert SmallAt(h, PageOf(h, a), e) &&
        a in Blocks(h, PageOf(h, a), e); }
    }
    forall x | x in n.live ensures LiveAt(n, x) { assert LiveAt(h, x); }
    forall q | q in n.arenas ensures CountOk(n, q, {}) {
      assert CountOk(h, q, {p});
      DropCount(h, n, p, d, q);
    }
  }

  lemma DropCount(h: Heap, n: Heap, p: int, d: nat, q: int)
    requires Dropped(h, n, p, d) && q in n.arenas && CountOk(h, q, {p})
    ensures CountOk(n, q, {})
  {
    hide PageOf, Blocks, Unique, Addr;
    SameBlocks(h, n);
    OwnPage(h, p, d);
    if h.arenas[q].Small? {
      var e := h.arenas[q].d;
      OwnPage(h, q, e);
      forall x | x in Blocks(h, q, e) ensures x in n.free[e] <==> x in h.free[e] {
        assert x !in Blocks(h, p, d);
      }
      assert Blocks(h, q, e) * Elems(n.free[e]) == Blocks(h, q, e) * Elems(h.free[e]);
    }
  }

  // ---------------------------------------------------------------- whole pages

  function NewLarge(h: Heap, p: int, n: nat, size: nat): Heap {
    h.(pages := h.pages + Run(p, n), arenas := h.arenas[p := Large(n)], live := h.live[Addr(h, p) + HEADER := size])
  }

  lemma NewLargeKeeps(h: Heap, foreign: set<int>, p: int, n: nat, size: nat)
    requires Inv(h, foreign, {}) && n >= 1 && size + HEADER <= n * 4096 && forall i | p <= i < p + n :: i !in h.pages
    ensures Addr(h, p) + HEADER !in h.live && Inv(NewLarge(h, p, n, size), foreign, {})
  {
    hide Blocks, Addr, PageOf, ArenasOk, Unique, Elems;
    var m := NewLarge(h, p, n, size);
    SameBlocks(h, m);
    NewCovers(h, m, foreign, p, Large(n));
    LargeHead(h, p);
    NotLive(h, foreign, Addr(h, p) + HEADER);
    forall e | 0 <= e < CLASSES ensures ListOk(m, e) { assert ListOk(h, e); }
    forall x | x in m.live ensures LiveAt(m, x) { if x != Addr(h, p) + HEADER { assert LiveAt(h, x); } }
    forall q | q in m.arenas ensures CountOk(m, q, {}) { if q != p { assert CountOk(h, q, {}); } }
  }

  lemma NotLive(h: Heap, foreign: set<int>, a: int)
    requires Inv(h, foreign, {}) && PageOf(h, a) !in h.arenas
    ensures a !in h.live
  {
    assert a in h.live ==> LiveAt(h, a);
  }

  function DropLarge(h: Heap, p: int): Heap
    requires p in h.arenas
  {
    h.(pages := h.pages - Run(p, Pages(h.arenas[p])), arenas := h.arenas - {p}, live := h.live - {Addr(h, p) + HEADER})
  }

  lemma DropLargeKeeps(h: Heap, foreign: set<int>, a: int)
    requires Inv(h, foreign, {}) && a in h.live && PageOf(h, a) in h.arenas && h.arenas[PageOf(h, a)].Large?
    ensures a == Addr(h, PageOf(h, a)) + HEADER && Inv(DropLarge(h, PageOf(h, a)), foreign, {})
  {
    hide Blocks, Addr, PageOf, ArenasOk, Unique, Elems, Run, CountOk;
    var p := PageOf(h, a);
    var n := DropLarge(h, p);
    assert LiveAt(h, a);
    SameBlocks(h, n);
    LessCovers(h, n, foreign, p);
    forall e | 0 <= e < CLASSES ensures ListOk(n, e) { assert ListOk(h, e); }
    forall x | x in n.live ensures LiveAt(n, x) {
      assert LiveAt(h, x);
    }
    forall q | q in n.arenas ensures CountOk(n, q, {}) {
      LargeCount(h, n, a, q);
    }
  }

  lemma LargeCount(h: Heap, n: Heap, a: int, q: int)
    requires PageOf(h, a) in h.arenas && n == DropLarge(h, PageOf(h, a)) && a == Addr(h, PageOf(h, a)) + HEADER
    requires q in n.arenas && |h.free| == CLASSES && CountOk(h, q, {})
    ensures CountOk(n, q, {})
  {
    hide Blocks, Addr, PageOf, Elems, Run;
    SameBlocks(h, n);
    LargeHead(h, q);
    LargeSmall(h, q, a);
  }

  lemma LargeSmall(h: Heap, q: int, a: int)
    requires q in h.arenas && q != PageOf(h, a)
    ensures h.arenas[q].Small? && h.arenas[q].d < CLASSES ==> a !in Blocks(h, q, h.arenas[q].d)
  {
    if h.arenas[q].Small? && h.arenas[q].d < CLASSES { OwnPage(h, q, h.arenas[q].d); }
  }
}
