/** Two-level paging (section 4.3 of the Intel SDM, volume 3A) and the directory entry that points at the directory
    itself (kernel/memory.c). Masks and shifts by powers of two are written as division and remainder. */
module Paging {
  import opened Common

  /** Physical memory in words, by byte address, and the physical address of the page directory. */
  datatype Mmu = Mmu(mem: map<int, U32>, cr3: int)

  function WordAt(m: Mmu, pa: int): U32 { if pa in m.mem then m.mem[pa] else 0 }

  predicate Present(e: U32) { e % 2 == 1 }

  function Frame(e: U32): (f: int)
    ensures f % 4096 == 0 && 0 <= f <= e
  {
    e - e % 4096
  }

  function PdeIdx(v: U32): (i: int)
    ensures 0 <= i < 1024 && (i == 1023 <==> v >= 0xffc0_0000)
  {
    v / 0x40_0000
  }

  function PteIdx(v: U32): (i: int)
    ensures 0 <= i < 1024
  {
    v / 4096 % 1024
  }

  /** Physical addresses of the directory entry and, under a directory entry, of the table entry. */
  function PdeAt(m: Mmu, v: U32): int { m.cr3 + 4 * PdeIdx(v) }

  function PteAt(m: Mmu, v: U32): int { Frame(WordAt(m, PdeAt(m, v))) + 4 * PteIdx(v) }

  predicate Mapped(m: Mmu, v: U32) { Present(WordAt(m, PdeAt(m, v))) }

  /** Translation by the hardware. */
  function Walk(m: Mmu, v: U32): Option<int> {
    if !Mapped(m, v) then None
    else
      var pte := WordAt(m, PteAt(m, v));
      if !Present(pte) then None else Some(Frame(pte) + v % 4096)
  }

  /** The last directory entry points at the directory. */
  predicate SelfMapped(m: Mmu) {
    && m.cr3 % 4096 == 0 && 0 <= m.cr3 < 0x1_0000_0000
    && Present(WordAt(m, m.cr3 + 4 * 1023)) && Frame(WordAt(m, m.cr3 + 4 * 1023)) == m.cr3
  }

  /** `pte_ptr` */
  function PtePtr(v: U32): U32 { 0xffc0_0000 + v / 0x40_0000 * 4096 + v / 4096 % 1024 * 4 }

  /** `pde_ptr` */
  function PdePtr(v: U32): U32 { 0xffff_f000 + v / 0x40_0000 * 4 }

  /** The three fields of a virtual address. */
  lemma Parts(v: U32, d: int, t: int, o: int)
    requires v == 0x40_0000 * d + 4096 * t + o && 0 <= d < 1024 && 0 <= t < 1024 && 0 <= o < 4096
    ensures PdeIdx(v) == d && PteIdx(v) == t && v % 4096 == o
  {
    var q := 1024 * d + t;
    PageParted(v, q, o);
    assert q / 1024 == d && q % 1024 == t;
    var r := 4096 * t + o;
    assert v == 0x40_0000 * d + r && 0 <= r < 0x40_0000;
  }

  lemma PageParted(v: int, q: int, o: int)
    requires v == 4096 * q + o && 0 <= o < 4096
    ensures v / 4096 == q && v % 4096 == o
  {
  }

  lemma IndexRange(v: U32)
    ensures 0 <= PdeIdx(v) < 1024 && 0 <= PteIdx(v) < 1024 && (PdeIdx(v) == 1023 <==> !Plain(v))
  {
  }

  lemma PdePtrParts(v: U32)
    ensures PdeIdx(PdePtr(v)) == 1023 && PteIdx(PdePtr(v)) == 1023 && PdePtr(v) % 4096 == 4 * PdeIdx(v)
  {
    hide PteIdx;
    Parts(PdePtr(v), 1023, 1023, 4 * PdeIdx(v));
  }

  lemma PtePtrParts(v: U32)
    ensures PdeIdx(PtePtr(v)) == 1023 && PteIdx(PtePtr(v)) == PdeIdx(v) && PtePtr(v) % 4096 == 4 * PteIdx(v)
    ensures PtePtr(v) == 0x40_0000 * 1023 + 4096 * PdeIdx(v) + 4 * PteIdx(v)
  {
    Parts(PtePtr(v), 1023, PdeIdx(v), 4 * PteIdx(v));
  }

  /** Dereferencing `pde_ptr(v)` reaches v's directory entry, whether or not v is mapped. */
  lemma PdeReached(m: Mmu, v: U32)
    requires SelfMapped(m)
    ensures Walk(m, PdePtr(v)) == Some(PdeAt(m, v))
  {
    hide Frame, Present, PteIdx;
    PdePtrParts(v);
  }

  /** Dereferencing `pte_ptr(v)` reaches v's table entry exactly when v has a table. */
  lemma PteReached(m: Mmu, v: U32)
    requires SelfMapped(m)
    ensures Walk(m, PtePtr(v)) == if Mapped(m, v) then Some(PteAt(m, v)) else None
  {
    hide Frame, Present, PdeIdx, PteIdx, PtePtr;
    PtePtrParts(v);
  }

  /** `addr_v2p` agrees with the hardware. */
  function V2p(m: Mmu, v: U32): Option<int> {
    var pte := Walk(m, PtePtr(v));
    if pte.None? then None else Some(Frame(WordAt(m, pte.value)) + v % 4096)
  }

  lemma V2pWalks(m: Mmu, v: U32)
    requires SelfMapped(m)
    ensures Walk(m, v).Some? ==> V2p(m, v) == Walk(m, v)
  {
    PteReached(m, v);
  }

  // ---------------------------------------------------------------- page_table_add

  /** Below the 4 MiB window through which the tables are seen. */
  predicate Plain(v: U32) { v < 0xffc0_0000 }

  /** `w` is reached through the same entry of the same table as `v`. */
  predicate Alias(m: Mmu, v: U32, w: U32) {
    Mapped(m, v) && Mapped(m, w) && PteAt(m, v) == PteAt(m, w)
  }

  /** No table lies over the directory. */
  ghost predicate TablesApart(m: Mmu) {
    forall v: U32 | Plain(v) && Mapped(m, v) :: Frame(WordAt(m, PdeAt(m, v))) != m.cr3
  }

  /** Frame `f` is not in use as directory or table. */
  ghost predicate Unused(m: Mmu, f: int) {
    f != m.cr3 && f % 4096 == 0 && 0 < f < 0x1_0000_0000 && forall v: U32 | Plain(v) && Mapped(m, v) ::
      Frame(WordAt(m, PdeAt(m, v))) != f
  }

  /** Present, writable, and open to user code. */
  predicate OpenToAll(e: U32) { e % 8 == 7 }

  class PageTables {
    var m: Mmu

    /** Storing through a virtual address. */
    method Store(v: U32, value: U32)
      requires Walk(m, v).Some?
      modifies this
      ensures m == old(m).(mem := old(m).mem[Walk(old(m), v).value := value])
    {
      m := m.(mem := m.mem[Walk(m, v).value := value]);
    }

    /** `page_table_add`, `spare` being the frame `palloc` hands out for a new table. False is the failed ASSERT. */
    method PageTableAdd(v: U32, page: U32, spare: U32) returns (ok: bool)
      requires SelfMapped(m) && TablesApart(m) && Plain(v) && page % 4096 == 0
      requires !Mapped(m, v) ==> Unused(m, spare)
      modifies this
      ensures ok <==> Walk(old(m), v).None?
      ensures !ok ==> m == old(m)
      ensures ok ==> SelfMapped(m) && TablesApart(m) && m.cr3 == old(m).cr3
      ensures ok ==> Mapped(m, v) && OpenToAll(WordAt(m, PteAt(m, v)))
      ensures ok && !Mapped(old(m), v) ==> OpenToAll(WordAt(m, PdeAt(m, v)))
      ensures ok ==> forall w: U32 | Plain(w) ::
        Walk(m, w) == if PageOf(w) == PageOf(v) || Alias(old(m), v, w) then Some(page + w % 4096) else Walk(old(m), w)
    {
      hide PdeIdx, PteIdx, Frame, Present, PageOf, InTable, PdePtr, PtePtr, OpenToAll;
      Flags(page);
      var pde := PdePtr(v);
      var pte := PtePtr(v);
      Entry(page);
      PdeReached(m, v);
      PteReached(m, v);
      if Present(WordAt(m, Walk(m, pde).value)) {
        if Present(WordAt(m, Walk(m, pte).value)) {
          return false;
        }
        ghost var m0 := m;
        Store(pte, page + 7);
        EntryAdded(m0, m, v, page);
        EntryStored(m0, m, v, page);
        forall w: U32 | Plain(w) && PageOf(w) == PageOf(v) ensures Alias(m0, v, w) { OwnAlias(m0, v, w); }
      } else {
        ghost var m0 := m;
        Entry(spare);
        Flags(spare);
        Store(pde, spare + 7);
        ghost var m1 := m;
        Hooked(m0, m1, v, spare);
        ClearTable(v, spare);
        TableAdded(m0, m, v, spare);
        PteReached(m, v);
        assert !Present(WordAt(m, PteAt(m, v)));
        ghost var m2 := m;
        Store(pte, page + 7);
        EntryAdded(m2, m, v, page);
        EntryStored(m2, m, v, page);
        NewPde(m0, m2, v, spare, v);
        forall w: U32 | Plain(w)
          ensures Walk(m, w) == if PageOf(w) == PageOf(v) || Alias(m0, v, w) then Some(page + w % 4096) else Walk(m0, w)
        {
          OnlyOwn(m0, m2, v, spare, w);
        }
      }
      ok := true;
    }

    /** `memset` of the page that `pte_ptr(v)` lies in, which is the new table. */
    method ClearTable(v: U32, spare: U32)
      requires SelfMapped(m) && Plain(v) && Mapped(m, v) && Frame(WordAt(m, PdeAt(m, v))) == spare && spare != m.cr3 &&
        spare % 4096 == 0
      modifies this
      ensures m.cr3 == old(m).cr3
      ensures forall pa :: WordAt(m, pa) == if InTable(spare, 1024, pa) then 0 else WordAt(old(m), pa)
    {
      hide PdeIdx, PteIdx, Frame, Present, PtePtr, Walk;
      ghost var m1 := m;
      var page := PtePtr(v) - PtePtr(v) % 4096;
      var i := 0;
      while i < 1024
        invariant 0 <= i <= 1024 && m.cr3 == m1.cr3
        invariant forall pa :: WordAt(m, pa) == if InTable(spare, i, pa) then 0 else WordAt(m1, pa)
      {
        WindowWord(m1, m, v, spare, i);
        Store(page + 4 * i, 0);
        i := i + 1;
      }
    }
  }

  function PageOf(v: U32): int { v / 4096 }

  /** One of the first `n` words of the frame `f`. */
  predicate InTable(f: int, n: int, pa: int) { f <= pa < f + 4 * n && (pa - f) % 4 == 0 }

  lemma WindowWord(m1: Mmu, m: Mmu, v: U32, spare: U32, i: int)
    requires SelfMapped(m1) && Plain(v) && Mapped(m1, v) && Frame(WordAt(m1, PdeAt(m1, v))) == spare &&
      spare != m1.cr3 && spare % 4096 == 0
    requires 0 <= i < 1024 && m.cr3 == m1.cr3 && forall pa ::
      WordAt(m, pa) == if InTable(spare, i, pa) then 0 else WordAt(m1, pa)
    ensures var page := PtePtr(v) - PtePtr(v) % 4096;
      page + 4 * i < 0x1_0000_0000 && Walk(m, page + 4 * i) == Some(spare + 4 * i)
  {
    hide PdeIdx, PteIdx, Frame, Present, PtePtr, InTable;
    Window(v, i);
    var a: U32 := PtePtr(v) - PtePtr(v) % 4096 + 4 * i;
    NotWithin(spare, m.cr3, i, 1023);
    NotWithin(spare, m.cr3, i, PdeIdx(v));
    assert PdeAt(m, a) == m.cr3 + 4 * 1023;
  }

  lemma NotWithin(f: int, g: int, n: int, i: int)
    requires f % 4096 == 0 && g % 4096 == 0 && f != g && 0 <= i < 1024 && 0 <= n <= 1024
    ensures !InTable(f, n, g + 4 * i)
  {
    FramesApart(f, g);
  }

  /** Different frames are a page apart. */
  lemma FramesApart(f: int, g: int)
    requires f % 4096 == 0 && g % 4096 == 0 && f != g
    ensures f + 4096 <= g || g + 4096 <= f
  {
    var a, b := f / 4096, g / 4096;
    assert f == 4096 * a && g == 4096 * b;
  }

  /** The page that `pte_ptr(v)` lies in is seen through the directory as a table. */
  lemma Window(v: U32, i: int)
    requires Plain(v) && 0 <= i < 1024
    ensures var a := PtePtr(v) - PtePtr(v) % 4096 + 4 * i;
      0 <= a < 0x1_0000_0000 && PdeIdx(a) == 1023 && PteIdx(a) == PdeIdx(v) && a % 4096 == 4 * i
  {
    hide PdeIdx, PteIdx, PtePtr;
    PtePtrParts(v);
    IndexRange(v);
    Parts(0x40_0000 * 1023 + 4096 * PdeIdx(v) + 4 * i, 1023, PdeIdx(v), 4 * i);
  }

  lemma OwnAlias(m: Mmu, v: U32, w: U32)
    requires Mapped(m, v) && PageOf(v) == PageOf(w)
    ensures Alias(m, v, w)
  {
    assert v / 0x40_0000 == v / 4096 / 1024 && w / 0x40_0000 == w / 4096 / 1024;
  }

  /** The new table is hooked into the directory and nothing else has changed. */
  lemma Hooked(m0: Mmu, m1: Mmu, v: U32, spare: U32)
    requires SelfMapped(m0) && Plain(v) && Unused(m0, spare)
    requires m1 == m0.(mem := m0.mem[PdeAt(m0, v) := spare + 7])
    ensures SelfMapped(m1) && Mapped(m1, v) && Frame(WordAt(m1, PdeAt(m1, v))) == spare
    ensures forall pa :: WordAt(m1, pa) == if pa == PdeAt(m0, v) then spare + 7 else WordAt(m0, pa)
  {
    hide PdeIdx, PteIdx, Frame, Present, InTable;
    Entry(spare);
  }

  /** The state after the new table is hooked in and cleared, word by word. */
  ghost predicate NewTable(m0: Mmu, m: Mmu, v: U32, spare: U32) {
    && m.cr3 == m0.cr3
    && forall pa ::
       WordAt(m, pa) == if InTable(spare, 1024, pa) then 0 else if pa == PdeAt(m0, v) then spare + 7 else WordAt(m0, pa)
  }

  lemma NewPde(m0: Mmu, m: Mmu, v: U32, spare: U32, w: U32)
    requires SelfMapped(m0) && Plain(v) && Unused(m0, spare) && NewTable(m0, m, v, spare)
    ensures WordAt(m, PdeAt(m, w)) == if PdeIdx(w) == PdeIdx(v) then spare + 7 else WordAt(m0, PdeAt(m0, w))
  {
    hide PdeIdx, PteIdx, Frame, Present, InTable, TablesApart;
    NotWithin(spare, m0.cr3, 1024, PdeIdx(w));
  }

  lemma TableAdded(m0: Mmu, m: Mmu, v: U32, spare: U32)
    requires SelfMapped(m0) && TablesApart(m0) && Plain(v) && Unused(m0, spare) && NewTable(m0, m, v, spare)
    ensures SelfMapped(m) && TablesApart(m) && Mapped(m, v) && !Present(WordAt(m, PteAt(m, v)))
  {
    hide PdeIdx, PteIdx, Frame, Present, InTable;
    Entry(spare);
    NewPde(m0, m, v, spare, 0xffff_ffff);
    NewPde(m0, m, v, spare, v);
    InOwn(spare, PteIdx(v));
    forall w: U32 | Plain(w) && Mapped(m, w) ensures Frame(WordAt(m, PdeAt(m, w))) != m.cr3 {
      NewPde(m0, m, v, spare, w);
    }
  }

  /** Through the new table only v's own page can be reached, and all else translates as before. */
  lemma OnlyOwn(m0: Mmu, m: Mmu, v: U32, spare: U32, w: U32)
    requires SelfMapped(m0) && TablesApart(m0) && Plain(v) && Plain(w) && Unused(m0, spare) &&
      NewTable(m0, m, v, spare) && !Mapped(m0, v)
    ensures Walk(m, w) == Walk(m0, w)
    ensures Mapped(m, v) && (Alias(m, v, w) <==> PageOf(w) == PageOf(v))
  {
    hide PdeIdx, PteIdx, PageOf, Frame, Present, InTable;
    NewPde(m0, m, v, spare, w);
    NewPde(m0, m, v, spare, v);
    Entry(spare);
    InOwn(spare, PteIdx(w));
    if PdeIdx(w) == PdeIdx(v) {
      assert WordAt(m, PteAt(m, w)) == 0;
      SameTable(v, w);
    } else {
      OtherPage(v, w);
      if Mapped(m0, w) {
        var g := Frame(WordAt(m0, PdeAt(m0, w)));
        assert g != spare && g != m0.cr3;
        NotWithin(spare, g, 1024, PteIdx(w));
        NotWithin(m0.cr3, g, 1024, PteIdx(w));
        InOwn(m0.cr3, PdeIdx(v));
        Clash(spare, g, PteIdx(v), PteIdx(w));
      }
    }
  }

  /** The words the code stores: a frame with the present, writable and user bits. */
  lemma Entry(page: U32)
    requires page % 4096 == 0
    ensures page + 7 < 0x1_0000_0000 && Frame(page + 7) == page && Present(page + 7) && !Present(0)
  {
    hide Frame, Present;
    EntryBits(page / 4096);
    assert page == 4096 * (page / 4096);
  }

  lemma EntryBits(q: int)
    requires 0 <= q < 0x10_0000
    ensures 4096 * q + 7 < 0x1_0000_0000 && Frame(4096 * q + 7) == 4096 * q && Present(4096 * q + 7) && !Present(0)
  {
    LowBits(4096 * q + 7, q);
    LowBit(4096 * q + 7, 2048 * q + 3);
  }

  lemma LowBits(e: int, q: int)
    requires e == 4096 * q + 7
    ensures e % 4096 == 7
  {
    assert (e - 7) / 4096 == q;
  }

  lemma LowBit(e: int, q: int)
    requires e == 2 * q + 1
    ensures e % 2 == 1
  {
  }

  lemma Flags(page: U32)
    requires page % 4096 == 0
    ensures page + 7 < 0x1_0000_0000 && OpenToAll(page + 7)
  {
    Entry(page);
    EntryFlags(page + 7, page / 4096);
  }

  lemma EntryFlags(e: int, q: int)
    requires e == 4096 * q + 7
    ensures e % 8 == 7
  {
    ThreeBits(e, 512 * q);
  }

  lemma ThreeBits(e: int, k: int)
    requires e == 8 * k + 7
    ensures e % 8 == 7
  {
    assert (e - 7) / 8 == k;
  }

  /** The word stored for `v` is where the hardware looks for it, and the directory is as it was. */
  lemma EntryStored(m0: Mmu, m: Mmu, v: U32, page: U32)
    requires SelfMapped(m0) && TablesApart(m0) && Plain(v) && Mapped(m0, v) && page % 4096 == 0
    requires page + 7 < 0x1_0000_0000 && m == m0.(mem := m0.mem[PteAt(m0, v) := page + 7])
    ensures Mapped(m, v) && WordAt(m, PteAt(m, v)) == page + 7 && WordAt(m, PdeAt(m, v)) == WordAt(m0, PdeAt(m0, v))
  {
    hide PdeIdx, PteIdx, Frame, Present, SelfMapped, TablesApart;
    EntryPde(m0, m, v, page, v);
  }

  lemma InOwn(f: int, i: int)
    requires 0 <= i < 1024
    ensures InTable(f, 1024, f + 4 * i)
  {
  }

  lemma Clash(f: int, g: int, i: int, j: int)
    requires f % 4096 == 0 && g % 4096 == 0 && f != g && 0 <= i < 1024 && 0 <= j < 1024
    ensures f + 4 * i != g + 4 * j
  {
    FramesApart(f, g);
  }

  lemma OtherPage(v: U32, w: U32)
    requires PdeIdx(v) != PdeIdx(w)
    ensures PageOf(v) != PageOf(w)
  {
    hide PdeIdx, PteIdx, PageOf;
    PageParts(v);
    PageParts(w);
  }

  lemma PageParts(v: U32)
    ensures PageOf(v) == 1024 * PdeIdx(v) + PteIdx(v)
  {
    Quotients(v, v / 4096, v % 4096);
  }

  lemma Quotients(v: int, q: int, r: int)
    requires v == 4096 * q + r && 0 <= r < 4096 && q >= 0
    ensures v / 0x40_0000 == q / 1024
  {
    var a, b := q / 1024, q % 1024;
    assert v == 0x40_0000 * a + (4096 * b + r);
  }

  lemma SameTable(v: U32, w: U32)
    requires PdeIdx(v) == PdeIdx(w)
    ensures PteIdx(v) == PteIdx(w) <==> PageOf(v) == PageOf(w)
  {
    hide PdeIdx, PteIdx, PageOf;
    PageParts(v);
    PageParts(w);
  }

  /** One table entry set: exactly the pages reached through that entry translate differently. */
  lemma EntryAdded(m0: Mmu, m: Mmu, v: U32, page: U32)
    requires SelfMapped(m0) && TablesApart(m0) && Plain(v) && Mapped(m0, v) && page % 4096 == 0
    requires m == m0.(mem := m0.mem[PteAt(m0, v) := page + 7])
    ensures SelfMapped(m) && TablesApart(m)
    ensures forall w: U32 | Plain(w) :: Walk(m, w) == if Alias(m0, v, w) then Some(page + w % 4096) else Walk(m0, w)
  {
    hide PdeIdx, PteIdx, Frame, Present, Walk;
    EntryPde(m0, m, v, page, 0xffff_ffff);
    forall w: U32 | Plain(w)
      ensures Walk(m, w) == if Alias(m0, v, w) then Some(page + w % 4096) else Walk(m0, w)
    {
      EntryWalk(m0, m, v, page, w);
    }
    forall w: U32 | Plain(w) && Mapped(m, w) ensures Frame(WordAt(m, PdeAt(m, w))) != m.cr3 {
      EntryPde(m0, m, v, page, w);
    }
  }

  lemma EntryWalk(m0: Mmu, m: Mmu, v: U32, page: U32, w: U32)
    requires SelfMapped(m0) && TablesApart(m0) && Plain(v) && Mapped(m0, v) && page % 4096 == 0 && Plain(w)
    requires m == m0.(mem := m0.mem[PteAt(m0, v) := page + 7])
    ensures Walk(m, w) == if Alias(m0, v, w) then Some(page + w % 4096) else Walk(m0, w)
  {
    hide PdeIdx, PteIdx, Frame, Present;
    Entry(page);
    EntryPde(m0, m, v, page, w);
  }

  lemma EntryPde(m0: Mmu, m: Mmu, v: U32, page: U32, w: U32)
    requires SelfMapped(m0) && TablesApart(m0) && Plain(v) && Mapped(m0, v) && page % 4096 == 0
    requires m == m0.(mem := m0.mem[PteAt(m0, v) := page + 7])
    ensures WordAt(m, PdeAt(m, w)) == WordAt(m0, PdeAt(m0, w))
  {
    hide PdeIdx, PteIdx, Frame, Present, InTable;
    InOwn(m0.cr3, PdeIdx(w));
    NotWithin(m0.cr3, Frame(WordAt(m0, PdeAt(m0, v))), 1024, PteIdx(v));
  }

  /** So exactly the one page changes iff no other directory entry leads to the same table. */
  lemma OnePageIff(m: Mmu, v: U32)
    requires SelfMapped(m) && Plain(v) && Mapped(m, v)
    ensures (forall w: U32 | Plain(w) && Alias(m, v, w) :: PageOf(w) == PageOf(v))
       <==> (forall w: U32 | Plain(w) && Mapped(m, w) && PdeIdx(w) != PdeIdx(v) ::
         Frame(WordAt(m, PdeAt(m, w))) != Frame(WordAt(m, PdeAt(m, v))))
  {
    hide PdeIdx, PteIdx, Frame, Present, PageOf;
    if w: U32 :|
      && Plain(w) && Mapped(m, w) && PdeIdx(w) != PdeIdx(v)
      && Frame(WordAt(m, PdeAt(m, w))) == Frame(WordAt(m, PdeAt(m, v)))
    {
      var x := Twin(v, w);
      assert Alias(m, v, x);
    }
    forall w: U32 | Plain(w) && Alias(m, v, w) && PdeIdx(w) == PdeIdx(v) ensures PageOf(w) == PageOf(v) {
      SameTable(v, w);
    }
    forall w: U32 | Plain(w) && Alias(m, v, w) && PdeIdx(w) != PdeIdx(v)
      ensures Frame(WordAt(m, PdeAt(m, w))) == Frame(WordAt(m, PdeAt(m, v)))
    {
      var f, g := Frame(WordAt(m, PdeAt(m, w))), Frame(WordAt(m, PdeAt(m, v)));
      if f != g { Clash(f, g, PteIdx(w), PteIdx(v)); }
    }
  }

  /** The address in w's 4 MiB with v's table index. */
  lemma Twin(v: U32, w: U32) returns (x: U32)
    requires PdeIdx(v) != PdeIdx(w) && Plain(w)
    ensures PdeIdx(x) == PdeIdx(w) && PteIdx(x) == PteIdx(v) && PageOf(x) != PageOf(v) && Plain(x)
  {
    hide PdeIdx, PteIdx, PageOf;
    IndexRange(v);
    IndexRange(w);
    x := 0x40_0000 * PdeIdx(w) + 4096 * PteIdx(v);
    Parts(x, PdeIdx(w), PteIdx(v), 0);
    IndexRange(x);
    OtherPage(v, x);
  }

  // ---------------------------------------------------------------- the tables the loader leaves

  /** Entries 0 and 768 of the directory lead to one table, the last one to the directory. */
  function BootMmu(): Mmu {
    Mmu(map[0x10_0000 := 0x10_1007, 0x10_0c00 := 0x10_1007, 0x10_0ffc := 0x10_0007], 0x10_0000)
  }

  lemma BootEntry(v: U32)
    ensures WordAt(BootMmu(), PdeAt(BootMmu(), v)) ==
      if PdeIdx(v) == 0 || PdeIdx(v) == 768 then 0x10_1007 else if PdeIdx(v) == 1023 then 0x10_0007 else 0
  {
  }

  lemma BootShape()
    ensures SelfMapped(BootMmu()) && TablesApart(BootMmu())
  {
    hide PdeIdx, BootMmu;
    var m := BootMmu();
    BootBits();
    BootEntry(0xffff_ffff);
    forall v: U32 | Plain(v) && Mapped(m, v) ensures Frame(WordAt(m, PdeAt(m, v))) != m.cr3 { BootEntry(v); }
  }

  lemma BootBits()
    ensures BootMmu().cr3 == 0x10_0000 && Frame(0x10_1007) == 0x10_1000 && Frame(0x10_0007) == 0x10_0000
    ensures Present(0x10_1007) && Present(0x10_0007) && !Present(0) && PdeIdx(0xffff_ffff) == 1023
  {
  }

  /** Addresses 1 MiB into the low and into the high half share an entry, which is empty. */
  lemma BootTables()
    ensures Walk(BootMmu(), 0xc010_0000).None? && Walk(BootMmu(), 0x10_0000).None?
    ensures Alias(BootMmu(), 0xc010_0000, 0x10_0000)
  {
    hide PdeIdx, PteIdx, Frame, Present;
    BootBits();
    BootIndices();
    BootEntry(0xc010_0000);
    BootEntry(0x10_0000);
  }

  lemma BootIndices()
    ensures PdeIdx(0xc010_0000) == 768 && PdeIdx(0x10_0000) == 0
    ensures PteIdx(0xc010_0000) == 256 && PteIdx(0x10_0000) == 256
  {
  }

  /** The first page of the kernel heap is mapped, and with it a page of the low half that nobody asked for. */
  method AliasExample() returns (ok: bool, tables: PageTables)
    ensures ok && Walk(tables.m, 0xc010_0000) == Some(0x20_0000)
    ensures Walk(BootMmu(), 0x10_0000) == None && Walk(tables.m, 0x10_0000) == Some(0x20_0000)
  {
    hide Walk, BootMmu, SelfMapped, TablesApart, PteAt, Unused, Present, WordAt;
    BootShape();
    BootTables();
    tables := new PageTables;
    tables.m := BootMmu();
    ok := tables.PageTableAdd(0xc010_0000, 0x20_0000, 0x10_2000);
  }
}
