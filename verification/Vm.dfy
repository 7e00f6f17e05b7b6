/** The virtual memory operations of kernel/vm.c, with kalloc and kfree (kernel/kalloc.c) and the page-table part of a
    process's life (kernel/proc.c). A panic is a precondition that every caller here is proved to meet. */
module Vm {
  import opened PageTable

  /** Page numbers of TRAMPOLINE and TRAPFRAME, the two pages below MAXVA. */
  const TRAMPOLINE := 0x3ff_ffff
  const TRAPFRAME := 0x3ff_fffe

  /** PGROUNDUP(sz) / PGSIZE. */
  function PagesOf(sz: nat): (n: nat)
    ensures n * PGSIZE >= sz > (n - 1) * PGSIZE
  {
    (sz + PGSIZE - 1) / PGSIZE
  }

  /** From m to g the tree of root gained table pages, and nothing else changed hands. */
  ghost predicate Extends(m: Ram, g: Ram, root: nat) {
    && (forall pg :: pg in m.owner ==> pg in g.owner && g.owner[pg] == m.owner[pg])
    && (forall pg :: pg in g.owner && pg !in m.owner ==> g.owner[pg].Table? && g.owner[pg].key.root == root)
    && (forall k :: k in m.tab ==> k in g.tab && g.tab[k] == m.tab[k])
    && (forall pg :: pg in m.owner && !m.owner[pg].Table? && pg in m.mem ==> pg in g.mem && g.mem[pg] == m.mem[pg])
  }

  ghost predicate SameMap(m: Ram, g: Ram) {
    forall r: nat, v: nat :: Pte(g, r, v) == Pte(m, r, v)
  }

  const KERNBASE := 0x8000_0000
  const PHYSTOP := 0x8800_0000

  function Max(a: int, b: int): int { if a < b then b else a }

  ghost function Between(lo: nat, hi: nat): (r: set<nat>)
    ensures forall pg: nat :: pg in r <==> lo <= pg < hi
    ensures |r| == Max(hi - lo, 0)
    decreases hi
  {
    if hi <= lo then {} else Between(lo, hi - 1) + {hi - 1}
  }

  ghost predicate Descends(free: seq<nat>, p: int) {
    forall j :: 0 <= j < |free| ==> free[j] == p - 1 - j
  }

  lemma OneMorePage(lo: nat, p: nat, free: seq<nat>)
    requires lo <= p && Descends(free, p)
    ensures Between(lo, p + 1) == Between(lo, p) + {p} && Descends([p] + free, p + 1)
  {
  }

  /** freerange's loop has been through every page. */
  lemma EveryPage(lo: nat, p: nat, free: seq<nat>)
    requires lo <= p && Descends(free, p) && |free| == p - lo && (p <= PHYSTOP / PGSIZE || p == lo)
    requires (p + 1) * PGSIZE > PHYSTOP
    ensures Between(lo, p) == Between(lo, PHYSTOP / PGSIZE)
    ensures |free| == Max(PHYSTOP / PGSIZE - lo, 0) && Descends(free, PHYSTOP / PGSIZE)
  {
    assert p >= PHYSTOP / PGSIZE;
  }

  lemma FreshPages(m: Ram, lo: nat, hi: nat)
    requires m.mem.Keys == Between(lo, hi) && 0 < lo && hi - lo <= RAM_PAGES && m.tab == map[] && m.owner == map[]
    requires |m.free| == Max(hi - lo, 0) && Descends(m.free, hi)
    ensures Valid(m, Between(lo, hi), {})
  {
    forall pg | pg in Between(lo, hi) ensures pg in m.free { assert m.free[hi - 1 - pg] == pg; }
  }

  class Memory {
    var mem: map<nat, Page>
    var freelist: seq<nat>
    ghost var tab: map<Key, nat>
    ghost var owner: map<nat, Use>
    ghost const all: set<nat>
    const trampoline: nat

    ghost function Snap(): Ram
      reads this
    {
      Ram(mem, freelist, tab, owner)
    }

    ghost predicate Ready()
      reads this
    {
      Valid(Snap(), all, {})
    }

    /** kfree of a page that was never handed out. */
    method FirstFree(p: nat, ghost start: nat)
      requires start <= p && |freelist| == p - start && Descends(freelist, p) && mem.Keys == Between(start, p)
      modifies `mem, `freelist
      ensures |freelist| == p + 1 - start && Descends(freelist, p + 1) && mem.Keys == Between(start, p + 1)
    {
      hide Descends, Filled;
      OneMorePage(start, p, freelist);
      mem := mem[p := Filled(0x0101010101010101)];
      freelist := [p] + freelist;
    }

    /** kinit and freerange: every whole page between end and PHYSTOP is free, the highest first, and kfree's panic does
        not happen. */
    constructor Kinit(end: nat, trampoline: nat)
      requires end >= KERNBASE
      ensures Ready() && owner == map[] && tab == map[] && this.trampoline == trampoline
      ensures |freelist| == Max(PHYSTOP / PGSIZE - PagesOf(end), 0) && Descends(freelist, PHYSTOP / PGSIZE)
    {
      mem, freelist, tab, owner := map[], [], map[], map[];
      all := Between(PagesOf(end), PHYSTOP / PGSIZE);
      this.trampoline := trampoline;
      new;
      hide Valid, Between, Max, Descends, Filled;
      var start := PagesOf(end);
      var p := start;
      while (p + 1) * PGSIZE <= PHYSTOP
        invariant start <= p && (p <= PHYSTOP / PGSIZE || p == start) && owner == map[] && tab == map[]
        invariant |freelist| == p - start && Descends(freelist, p)
        invariant mem.Keys == Between(start, p)
      {
        assert end <= p * PGSIZE < PHYSTOP;
        FirstFree(p, start);
        p := p + 1;
      }
      EveryPage(start, p, freelist);
      FreshPages(Snap(), start, PHYSTOP / PGSIZE);
    }

    method Kalloc() returns (pg: nat)
      requires Ready()
      modifies this
      ensures Ready()
      ensures old(freelist) == [] ==> pg == 0 && Snap() == old(Snap())
      ensures old(freelist) != [] ==>
                pg == old(freelist)[0] != 0 && pg !in old(owner) && Snap() == Take(old(Snap())) && pg in mem
      ensures SameMap(old(Snap()), Snap())
    {
      hide PagesOk, TabOk, TreesOk, Pte;
      if freelist == [] { return 0; }
      TakeValid(Snap(), all, {});
      pg := freelist[0];
      freelist := freelist[1..];
      mem := mem[pg := Filled(0x0505050505050505)];
      owner := owner[pg := Held];
      InMemory(Snap(), all, {}, pg);
    }

    method Kfree(pg: nat)
      requires Ready() && pg in owner && !owner[pg].Table?
      modifies this
      ensures Ready() && Snap() == Give(old(Snap()), pg)
      ensures SameMap(old(Snap()), Snap())
    {
      hide PagesOk, TabOk, TreesOk, Pte;
      GiveValid(Snap(), all, {}, pg);
      mem := mem[pg := Filled(0x0101010101010101)];
      freelist := [pg] + freelist;
      owner := owner - {pg};
    }

    /** walk's lines for an entry that is not valid. */
    method AddTable(pg: nat, i: nat, ghost k: Key) returns (child: nat)
      requires Ready() && k in tab && tab[k] == pg && k.level > 0 && i < 512 && Child(k, i) !in tab
      modifies this
      ensures Ready() && SameMap(old(Snap()), Snap()) && Extends(old(Snap()), Snap(), k.root)
      ensures child == 0 <==> old(freelist) == []
      ensures child == 0 ==> Snap() == old(Snap())
      ensures child != 0 ==> Child(k, i) in tab && tab[Child(k, i)] == child && |freelist| == |old(freelist)| - 1
    {
      hide PagesOk, TabOk, TreesOk, Pte;
      ghost var m := Snap();
      child := Kalloc();
      if child == 0 { return; }
      ghost var h := Snap();
      TableInMemory(h, all, {}, k);
      GrowValid(h, all, k, i, child);
      GrowKeepsFlatMap(h, all, k, i, child);
      mem := mem[child := Filled(0)];
      TableIsOther(h, all, k, child);
      mem := mem[pg := mem[pg][i := MakePte(child, 0)]];
      tab := tab[Child(k, i) := child];
      owner := owner[child := Table(Child(k, i))];
      assert Snap() == Grow(h, k, i, child);
      GrowExtends(m, all, k, i);
    }

    /** walk. The place of the entry for va, or page 0 if a table is missing and may not or cannot be made. */
    method Walk(root: nat, va: nat, alloc: bool) returns (pg: nat, i: nat)
      requires Ready() && RootKey(root) in tab && va < MAXVA
      modifies this
      ensures Ready() && SameMap(old(Snap()), Snap()) && Extends(old(Snap()), Snap(), root)
      ensures !alloc ==> Snap() == old(Snap())
      ensures pg != 0 ==> LeafKey(root, va / 4096) in tab && pg == tab[LeafKey(root, va / 4096)] && i == va / 4096 % 512
      ensures pg == 0 ==> if alloc then freelist == [] else LeafKey(root, va / 4096) !in tab
      ensures |freelist| + 2 >= |old(freelist)|
    {
      hide PagesOk, TabOk, TreesOk, Pte, Extends, SameMap;
      ghost var s := Snap();
      Unchanged(s, root);
      var level := 2;
      pg := root;
      RootPage(s, all, root);
      while level > 0
        invariant level <= 2 && KeyAt(root, level, va) in tab && tab[KeyAt(root, level, va)] == pg
        invariant Ready() && SameMap(s, Snap()) && Extends(s, Snap(), root)
        invariant !alloc ==> Snap() == s
        invariant |freelist| + 2 - level >= |s.free|
      {
        ghost var k := KeyAt(root, level, va);
        i := Px(level, va);
        KeysOnTheWay(root, level, va);
        EntryFacts(Snap(), all, {}, k, i);
        var w := mem[pg][i];
        if PteValid(w) {
          pg := PtePage(w);
        } else {
          if !alloc {
            NoLeafBelow(Snap(), all, root, level - 1, va);
            return 0, 0;
          }
          ghost var h := Snap();
          pg := AddTable(pg, i, k);
          ExtendsAgain(s, h, Snap(), root);
          if pg == 0 { return 0, 0; }
        }
        level := level - 1;
      }
      TablePage(Snap(), all, {}, KeyAt(root, 0, va));
      return pg, Px(0, va);
    }

    /** One turn of mappages' loop. */
    method MapOne(root: nat, a: nat, page: nat, perm: nat) returns (ok: bool)
      requires Ready() && RootKey(root) in tab && a < MAXVA && perm < 1024 && !PteValid(Pte(Snap(), root, a / 4096))
      modifies this
      ensures Ready() && Extends(old(Snap()), Snap(), root) && |freelist| + 2 >= |old(freelist)|
      ensures ok ==> RangeMapped(old(Snap()), Snap(), root, a / 4096, 1, page, perm)
      ensures !ok ==> freelist == [] && SameMap(old(Snap()), Snap())
    {
      hide PagesOk, TabOk, TreesOk, Extends;
      ghost var m := Snap();
      var pg, i := Walk(root, a, true);
      if pg == 0 { return false; }
      ghost var h := Snap();
      StoreLeaf(h, all, {}, root, a / 4096, MakePte(page, perm));
      StoreExtends(h, all, root, a / 4096, MakePte(page, perm));
      mem := mem[pg := mem[pg][i := MakePte(page, perm)]];
      assert Snap() == Store(h, pg, i, MakePte(page, perm));
      ExtendsTwice(m, h, Snap(), root);
      return true;
    }

    /** mappages. The pages up to the failing one stay mapped; the failure leaves no free page. */
    method Mappages(root: nat, va: nat, size: nat, pa: nat, perm: nat) returns (r: int, ghost done: nat)
      requires Ready() && RootKey(root) in tab && size > 0 && va + size <= MAXVA && perm < 1024
      requires forall v :: va / 4096 <= v <= (va + size - 1) / 4096 ==> !PteValid(Pte(Snap(), root, v))
      modifies this
      ensures Ready() && Extends(old(Snap()), Snap(), root)
      ensures RangeMapped(old(Snap()), Snap(), root, va / 4096, done, pa / 4096, perm)
      ensures r == 0 ==> done == (va + size - 1) / 4096 - va / 4096 + 1 && |freelist| + 2 * done >= |old(freelist)|
      ensures r != 0 ==> r == -1 && done <= (va + size - 1) / 4096 - va / 4096 && freelist == []
      ensures r != 0 ==> 2 * done + 2 >= |old(freelist)|
    {
      hide PagesOk, TabOk, TreesOk, Extends, Pte;
      ghost var s := Snap();
      Unchanged(s, root);
      var a := va / 4096 * 4096;
      var last := (va + size - 1) / 4096 * 4096;
      var p := pa;
      done := 0;
      while true
        invariant a % 4096 == 0 && a <= last && a / 4096 == va / 4096 + done && p / 4096 == pa / 4096 + done
        invariant Ready() && Extends(s, Snap(), root) && RootKey(root) in tab && |freelist| + 2 * done >= |s.free|
        invariant RangeMapped(s, Snap(), root, va / 4096, done, pa / 4096, perm)
        decreases last - a
      {
        ghost var h := Snap();
        var ok := MapOne(root, a, p / 4096, perm);
        ExtendsTwice(s, h, Snap(), root);
        if !ok { return -1, done; }
        RangeMappedNext(s, h, Snap(), root, va / 4096, done, pa / 4096, perm);
        done := done + 1;
        if a == last { break; }
        RootStays(s, Snap(), root);
        a := a + PGSIZE;
        p := p + PGSIZE;
      }
      return 0, done;
    }

    /** One turn of uvmunmap's loop. */
    method UnmapOne(root: nat, a: nat, doFree: bool)
      requires Ready() && RootKey(root) in tab && a < MAXVA
      requires var w := Pte(Snap(), root, a / 4096); PteValid(w) && PteFlags(w) != PTE_V
      requires doFree ==> Owned(Snap(), root, a / 4096)
      modifies this
      ensures Ready() && tab == old(tab) && RangeCleared(old(Snap()), Snap(), root, a / 4096, a / 4096 + 1)
      ensures DataKept(old(Snap()), Snap())
      ensures !doFree ==> owner == old(owner) && freelist == old(freelist)
      ensures doFree ==> owner == old(owner) - {PtePage(old(Pte(Snap(), root, a / 4096)))}
      ensures doFree ==> |freelist| == |old(freelist)| + 1
    {
      hide PagesOk, TabOk, TreesOk;
      ghost var m := Snap();
      var pg, i := Walk(root, a, false);
      TableInMemory(m, all, {}, LeafKey(root, a / 4096));
      var w := mem[pg][i];
      if doFree {
        Kfree(PtePage(w));
      }
      ghost var h := Snap();
      TableInMemory(h, all, {}, LeafKey(root, a / 4096));
      StoreLeaf(h, all, {}, root, a / 4096, 0);
      mem := mem[pg := mem[pg][i := 0]];
      assert Snap() == Store(h, pg, i, 0);
      TablePage(h, all, {}, LeafKey(root, a / 4096));
    }

    /** uvmunmap. */
    method Uvmunmap(root: nat, va: nat, npages: nat, doFree: bool)
      requires Ready() && RootKey(root) in tab && va % PGSIZE == 0 && va + npages * PGSIZE <= MAXVA
      requires forall v :: va / 4096 <= v < va / 4096 + npages ==>
                 PteValid(Pte(Snap(), root, v)) && PteFlags(Pte(Snap(), root, v)) != PTE_V
      requires doFree ==> forall v :: va / 4096 <= v < va / 4096 + npages ==> Owned(Snap(), root, v)
      modifies this
      ensures Ready() && tab == old(tab) && RangeCleared(old(Snap()), Snap(), root, va / 4096, va / 4096 + npages)
      ensures DataKept(old(Snap()), Snap())
      ensures !doFree ==> owner == old(owner) && freelist == old(freelist)
      ensures doFree ==> Released(old(Snap()), Snap(), root, va / 4096, va / 4096 + npages)
      ensures doFree ==> |freelist| == |old(freelist)| + npages
    {
      hide PagesOk, TabOk, TreesOk;
      ghost var s := Snap();
      ghost var n: nat := 0;
      var a := va;
      while a < va + npages * PGSIZE
        invariant n <= npages && a == va + n * PGSIZE
        invariant Ready() && tab == s.tab && RangeCleared(s, Snap(), root, va / 4096, va / 4096 + n)
        invariant DataKept(s, Snap())
        invariant !doFree ==> owner == s.owner && freelist == s.free
        invariant doFree ==> Released(s, Snap(), root, va / 4096, va / 4096 + n) && |freelist| == |s.free| + n
        decreases va + npages * PGSIZE - a
      {
        ghost var h := Snap();
        assert a / 4096 == va / 4096 + n;
        if doFree { StillOwned(s, h, root, va / 4096, va / 4096 + n); }
        UnmapOne(root, a, doFree);
        RangeClearedNext(s, h, Snap(), root, va / 4096, va / 4096 + n);
        if doFree { ReleasedNext(s, h, Snap(), root, va / 4096, va / 4096 + n); }
        a := a + PGSIZE;
        n := n + 1;
      }
    }

    /** The lines that uvmalloc and uvmcopy share: map the new page, or give it back. m is the state before kalloc. */
    method MapNew(root: nat, a: nat, page: nat, perm: nat, ghost m: Ram, ghost data: Page) returns (ok: bool)
      requires Valid(m, all, {}) && InHand(m, Snap(), page, data) && RootKey(root) in tab && perm < 1024
      requires perm / 2 % 2 == 1
      requires a % PGSIZE == 0 && a / 4096 < TRAPFRAME && UserPages(m, root, a / 4096)
      modifies this
      ensures Ready() && RootKey(root) in tab && SameOthers(m, Snap(), root) && AllKept(m, Snap())
      ensures UserPages(Snap(), root, a / 4096 + if ok then 1 else 0)
      ensures SpecialsKept(m, Snap(), root) && PagesKept(m, Snap(), root, a / 4096)
      ensures ok ==> page in mem && mem[page] == data && Pte(Snap(), root, a / 4096) == MakePte(page, perm)
      ensures ok ==> |freelist| + 3 >= |m.free|
      ensures !ok ==> |m.free| <= 3
    {
      hide PagesOk, TabOk, TreesOk, Pte, Extends, UserPages, SameOthers, Owned, AllKept, InHand;
      ghost var h := Snap();
      OneFewer(m, h, page, data);
      NewPage(m, h, all, root, a / 4096, page, data);
      NotMapped(h, root, a / 4096);
      var r, done := Mappages(root, a, PGSIZE, page * PGSIZE, perm);
      ghost var g := Snap();
      RootStays(h, g, root);
      if r != 0 {
        NotAdded(m, h, g, all, root, a / 4096, page, data);
        Kfree(page);
        return false;
      }
      owner := owner[page := User(root, a / 4096)];
      Added(m, h, g, all, root, a / 4096, page, data, perm);
      PageReowned(g, all, page, User(root, a / 4096));
      return true;
    }

    /** One turn of uvmalloc's loop: a zeroed page at a. */
    method GrowOne(root: nat, a: nat, perm: nat) returns (ok: bool)
      requires Ready() && RootKey(root) in tab && a % PGSIZE == 0 && a / 4096 < TRAPFRAME
      requires UserPages(Snap(), root, a / 4096)
      requires perm < 1024 && perm / 2 % 2 == 1
      modifies this
      ensures Ready() && RootKey(root) in tab && SameOthers(old(Snap()), Snap(), root) && AllKept(old(Snap()), Snap())
      ensures UserPages(Snap(), root, a / 4096 + if ok then 1 else 0)
      ensures SpecialsKept(old(Snap()), Snap(), root)
      ensures PagesKept(old(Snap()), Snap(), root, a / 4096)
      ensures ok ==> old(freelist) != [] && old(freelist)[0] in mem && mem[old(freelist)[0]] == Filled(0)
      ensures ok ==> Pte(Snap(), root, a / 4096) == MakePte(old(freelist)[0], perm) && |freelist| + 3 >= |old(freelist)|
      ensures !ok ==> |old(freelist)| <= 3
    {
      hide Valid, Pte, UserPages, SameOthers, AllKept, PagesKept, SpecialsKept;
      ghost var m := Snap();
      SameIsSame(m, root);
      var page := Kalloc();
      if page == 0 { return false; }
      mem := mem[page := Filled(0)];
      ok := MapNew(root, a, page, perm, m, Filled(0));
    }

    /** uvmdealloc. */
    method Uvmdealloc(root: nat, oldsz: nat, newsz: nat) returns (r: nat)
      requires Ready() && RootKey(root) in tab && UserPages(Snap(), root, PagesOf(oldsz))
      modifies this
      ensures Ready() && tab == old(tab) && SameOthers(old(Snap()), Snap(), root) && DataKept(old(Snap()), Snap())
      ensures r == (if newsz >= oldsz then oldsz else newsz) && UserPages(Snap(), root, PagesOf(r))
      ensures PagesKept(old(Snap()), Snap(), root, PagesOf(r)) && SpecialsKept(old(Snap()), Snap(), root)
      ensures Released(old(Snap()), Snap(), root, PagesOf(r), PagesOf(oldsz))
      ensures |freelist| == |old(freelist)| + PagesOf(oldsz) - PagesOf(r)
    {
      hide PagesOk, TabOk, TreesOk, Pte, Extends, UserPages, SameOthers, Owned, DataKept, PagesKept, RangeCleared,
           Released;
      ghost var m := Snap();
      SameIsSame(m, root);
      RoundUpMonotone(newsz, oldsz);
      if newsz >= oldsz { return oldsz; }
      if PagesOf(newsz) * PGSIZE < PagesOf(oldsz) * PGSIZE {
        var npages := (PagesOf(oldsz) * PGSIZE - PagesOf(newsz) * PGSIZE) / PGSIZE;
        MappedPages(m, root, PagesOf(oldsz));
        Uvmunmap(root, PagesOf(newsz) * PGSIZE, npages, true);
        Shrunk(m, Snap(), all, root, PagesOf(newsz), PagesOf(oldsz));
      }
      return newsz;
    }

    /** uvmalloc; xperm is any of PTE_W and PTE_X. New memory is zero. It fails only with less than three free pages for
        each page to add, and then takes its work back. */
    method Uvmalloc(root: nat, oldsz: nat, newsz: nat, xperm: nat) returns (r: nat)
      requires Ready() && RootKey(root) in tab && UserPages(Snap(), root, PagesOf(oldsz))
      requires xperm in {0, PTE_W, PTE_X, PTE_W + PTE_X}
      modifies this
      ensures Ready() && RootKey(root) in tab && SameOthers(old(Snap()), Snap(), root) && AllKept(old(Snap()), Snap())
      ensures PagesKept(old(Snap()), Snap(), root, PagesOf(oldsz)) && SpecialsKept(old(Snap()), Snap(), root)
      ensures newsz < oldsz ==> r == oldsz && Snap() == old(Snap())
      ensures newsz >= oldsz && r != 0 ==> r == newsz && UserPages(Snap(), root, PagesOf(newsz))
      ensures newsz >= oldsz && r != 0 ==>
                ZeroPages(Snap(), root, PagesOf(oldsz), PagesOf(newsz), PTE_V + PTE_R + PTE_U + xperm)
      ensures newsz >= oldsz && r == 0 ==> UserPages(Snap(), root, PagesOf(oldsz))
      ensures newsz > 0 && newsz >= oldsz && r == 0 ==> |old(freelist)| <= 3 * (PagesOf(newsz) - PagesOf(oldsz))
    {
      hide PagesOk, TabOk, TreesOk, Pte, Extends, UserPages, SameOthers, Owned, AllKept, PagesKept, ZeroPages,
           Released, DataKept;
      ghost var m := Snap();
      SameIsSame(m, root);
      NoZeroPages(m, root, PagesOf(oldsz), PTE_V + PTE_R + PTE_U + xperm);
      if newsz < oldsz { return oldsz; }
      var start := PagesOf(oldsz) * PGSIZE;
      RoundUpMonotone(oldsz, newsz);
      var a := start;
      while a < newsz
        invariant start <= a && a % PGSIZE == 0 && a / 4096 <= PagesOf(newsz)
        invariant Ready() && RootKey(root) in tab && SameOthers(m, Snap(), root) && AllKept(m, Snap())
        invariant UserPages(Snap(), root, a / 4096) && SpecialsKept(m, Snap(), root)
        invariant PagesKept(m, Snap(), root, PagesOf(oldsz))
        invariant ZeroPages(Snap(), root, PagesOf(oldsz), a / 4096, PTE_V + PTE_R + PTE_U + xperm)
        invariant |freelist| + 3 * (a / 4096 - PagesOf(oldsz)) >= |m.free|
        decreases newsz - a
      {
        ghost var h := Snap();
        FitsInRam(h, all, root, a / 4096);
        var ok := GrowOne(root, a, PTE_R + PTE_U + xperm);
        SameOthersAgain(m, h, Snap(), root);
        AllKeptAgain(m, h, Snap());
        KeptAgain(m, h, Snap(), root, PagesOf(oldsz), a / 4096);
        if !ok {
          ghost var g := Snap();
          var _ := Uvmdealloc(root, a, start);
          SameOthersAgain(m, g, Snap(), root);
          AllKeptShrunk(m, g, Snap(), root, PagesOf(oldsz), a / 4096);
          KeptAgain(m, g, Snap(), root, PagesOf(oldsz), PagesOf(start));
          return 0;
        }
        ZeroPagesNext(h, Snap(), root, PagesOf(oldsz), a / 4096, PTE_V + PTE_R + PTE_U + xperm);
        a := a + PGSIZE;
      }
      return newsz;
    }

    /** uvmcopy's lines that look an entry up. */
    method ReadPte(root: nat, va: nat) returns (w: nat)
      requires Ready() && RootKey(root) in tab && va < MAXVA && LeafKey(root, va / 4096) in tab
      modifies this
      ensures Snap() == old(Snap()) && w == Pte(Snap(), root, va / 4096)
    {
      hide PagesOk, TabOk, TreesOk, Extends, SameMap;
      var pg, i := Walk(root, va, false);
      TableInMemory(Snap(), all, {}, LeafKey(root, va / 4096));
      return mem[pg][i];
    }

    /** One turn of uvmcopy's loop. */
    method CopyOne(from: nat, to: nat, i: nat, ghost n: nat) returns (ok: bool)
      requires Ready() && RootKey(from) in tab && RootKey(to) in tab && from != to && i % PGSIZE == 0 && i / 4096 < n
      requires UserPages(Snap(), from, n) && UserPages(Snap(), to, i / 4096)
      modifies this
      ensures Ready() && RootKey(to) in tab && SameOthers(old(Snap()), Snap(), to) && AllKept(old(Snap()), Snap())
      ensures UserPages(Snap(), to, i / 4096 + if ok then 1 else 0)
      ensures SpecialsKept(old(Snap()), Snap(), to) && PagesKept(old(Snap()), Snap(), to, i / 4096)
      ensures ok ==> CopyOf(old(Snap()), Snap(), from, to, i / 4096) && |freelist| + 3 >= |old(freelist)|
      ensures !ok ==> |old(freelist)| <= 3
    {
      hide Valid, Pte, UserPages, SameOthers, AllKept, PagesKept, SpecialsKept, Owned;
      ghost var m := Snap();
      SameIsSame(m, to);
      LeafPage(m, all, from, n, i / 4096);
      var w := ReadPte(from, i);
      var page := Kalloc();
      if page == 0 { return false; }
      KeepsPage(m, all, PtePage(w));
      mem := mem[page := mem[PtePage(w)]];
      ok := MapNew(to, i, page, PteFlags(w), m, m.mem[PtePage(w)]);
    }

    /** uvmcopy. The child's pages have the flags and the bytes of the parent's; on failure the child has none. */
    method Uvmcopy(from: nat, to: nat, sz: nat) returns (r: int)
      requires Ready() && RootKey(from) in tab && RootKey(to) in tab && from != to
      requires UserPages(Snap(), from, PagesOf(sz)) && UserPages(Snap(), to, 0)
      modifies this
      ensures Ready() && RootKey(to) in tab && SameOthers(old(Snap()), Snap(), to) && AllKept(old(Snap()), Snap())
      ensures SpecialsKept(old(Snap()), Snap(), to) && (r == 0 || r == -1)
      ensures r == 0 ==> UserPages(Snap(), to, PagesOf(sz)) && Copied(old(Snap()), Snap(), from, to, PagesOf(sz))
      ensures r == -1 ==> UserPages(Snap(), to, 0) && |old(freelist)| <= 3 * PagesOf(sz)
    {
      hide PagesOk, TabOk, TreesOk, Pte, Extends, UserPages, SameOthers, Owned, AllKept, DataKept, PagesKept, CopyOf,
           Released, RangeCleared, SpecialsKept;
      ghost var m := Snap();
      SameIsSame(m, to);
      var i := 0;
      while i < sz
        invariant i % PGSIZE == 0 && i / 4096 <= PagesOf(sz)
        invariant Ready() && RootKey(to) in tab && RootKey(from) in tab && SameOthers(m, Snap(), to)
        invariant AllKept(m, Snap())
        invariant SpecialsKept(m, Snap(), to) && UserPages(Snap(), to, i / 4096)
        invariant Copied(m, Snap(), from, to, i / 4096) && |freelist| + 3 * (i / 4096) >= |m.free|
        decreases sz - i
      {
        ghost var h := Snap();
        OtherUserKept(m, h, to, from, PagesOf(sz));
        var ok := CopyOne(from, to, i, PagesOf(sz));
        SameOthersAgain(m, h, Snap(), to);
        AllKeptAgain(m, h, Snap());
        SpecialsAgain(m, h, Snap(), to);
        if !ok {
          ghost var g := Snap();
          MappedPages(g, to, i / 4096);
          Uvmunmap(to, 0, i / PGSIZE, true);
          Shrunk(g, Snap(), all, to, 0, i / 4096);
          SameOthersAgain(m, g, Snap(), to);
          AllKeptShrunk(m, g, Snap(), to, 0, i / 4096);
          SpecialsAgain(m, g, Snap(), to);
          return -1;
        }
        CopiedNext(m, h, Snap(), all, from, to, i / 4096, PagesOf(sz));
        OtherTreeKept(m, Snap(), to, from);
        i := i + PGSIZE;
      }
      return 0;
    }

    /** freewalk's lines for an entry that points to a table. */
    method FreeChild(pg: nat, i: nat, ghost k: Key, ghost cut: set<Key>)
      requires Valid(Snap(), all, cut) && k in tab && tab[k] == pg && 1 <= k.level <= 2 && i < 512 && Child(k, i) in tab
      requires pg in mem && mem[pg][i] == MakePte(tab[Child(k, i)], 0)
      requires (forall c :: c in cut ==> c.level >= k.level) && forall v: nat :: Pte(Snap(), k.root, v) == 0
      modifies this
      ensures Valid(Snap(), all, cut) && Pruned(old(Snap()), Snap(), Below(old(tab), Child(k, i)))
      ensures TablesKept(old(Snap()), Snap(), k)
      decreases k.level, 0
    {
      hide PagesOk, TabOk, TreesOk, Pte;
      ghost var m, c := Snap(), Child(k, i);
      CutMore(m, all, cut, c);
      Freewalk(PtePage(mem[pg][i]), c, cut + {c});
      ghost var h := Snap();
      NotUnderChild(k, i);
      ClearEntry(h, all, cut, k, i);
      TableInMemory(h, all, cut + {c}, k);
      mem := mem[pg := mem[pg][i := 0]];
      assert Snap() == Store(h, pg, i, 0);
      Cleared(m, h, all, cut + {c}, k, i);
    }

    /** freewalk of table k. All tables from k down go to the free list. */
    method Freewalk(pg: nat, ghost k: Key, ghost cut: set<Key>)
      requires Valid(Snap(), all, cut) && k in tab && tab[k] == pg && (k.level < 2 ==> k in cut)
      requires (forall c :: c in cut ==> c == k || c.level > k.level) && forall v: nat :: Pte(Snap(), k.root, v) == 0
      modifies this
      ensures Valid(Snap(), all, cut) && Pruned(old(Snap()), Snap(), Below(old(tab), k))
      ensures TablesKept(old(Snap()), Snap(), k)
      decreases k.level, 1
    {
      hide PagesOk, TabOk, TreesOk, Pte, Below, Pruned, TablesKept;
      ghost var m := Snap();
      TableInMemory(m, all, cut, k);
      NothingPruned(m, k);
      var i := 0;
      while i < 512
        invariant i <= 512 && k in tab && tab[k] == pg && pg in mem
        invariant Valid(Snap(), all, cut) && Pruned(m, Snap(), BelowTo(m.tab, k, i)) && TablesKept(m, Snap(), k)
        invariant forall v: nat :: Pte(Snap(), k.root, v) == 0
      {
        ghost var h := Snap();
        var pte := mem[pg][i];
        TableEntry(h, all, cut, k, i);
        if PteValid(pte) && PteFlags(pte) / 2 % 8 == 0 {
          FreeChild(pg, i, k, cut);
          PrunedMore(m, h, Snap(), all, cut, k, i);
          TableInMemory(Snap(), all, cut, k);
        } else {
          assert !PteValid(pte);
          NoneBelow(m, h, all, cut, k, i);
        }
        i := i + 1;
      }
      ghost var h := Snap();
      AllBelow(m, h, k);
      DropValid(h, all, cut, k);
      DropKeepsFlatMap(h, k);
      mem := mem[pg := Filled(0x0101010101010101)];
      freelist := [pg] + freelist;
      owner := owner - {pg};
      tab := tab - {k};
      assert Snap() == Drop(h, k);
      PrunedLast(m, h, all, cut, k);
    }

    /** uvmcreate: an empty tree. */
    method Uvmcreate() returns (root: nat)
      requires Ready()
      modifies this
      ensures Ready()
      ensures root == 0 ==> old(freelist) == [] && Snap() == old(Snap())
      ensures root != 0 ==> root !in old(owner) && RootKey(root) !in old(tab) && RootKey(root) in tab
      ensures root != 0 ==> owner == old(owner)[root := Table(RootKey(root))]
      ensures root != 0 ==> forall v: nat :: Pte(Snap(), root, v) == 0
      ensures root != 0 ==> SameOthers(old(Snap()), Snap(), root) && |freelist| + 1 == |old(freelist)|
    {
      hide PagesOk, TabOk, TreesOk, Pte, SameOthers;
      ghost var m := Snap();
      root := Kalloc();
      if root == 0 { return; }
      PlantValid(m, all);
      mem := mem[root := Filled(0)];
      tab := tab[RootKey(root) := root];
      owner := owner[root := Table(RootKey(root))];
      assert Snap() == Plant(m);
    }

    /** uvmfree: the pages of the process, then its tree. */
    method Uvmfree(root: nat, sz: nat)
      requires Ready() && RootKey(root) in tab && UserPages(Snap(), root, PagesOf(sz))
      requires Pte(Snap(), root, TRAMPOLINE) == 0 && Pte(Snap(), root, TRAPFRAME) == 0
      modifies this
      ensures Ready() && SameOthers(old(Snap()), Snap(), root) && NoneOf(Snap(), root)
    {
      hide PagesOk, TabOk, TreesOk, Pte, UserPages, SameOthers, Owned, DataKept, Released, RangeCleared, Pruned, Below,
           TablesKept, PagesKept;
      ghost var m := Snap();
      SameIsSame(m, root);
      if sz > 0 {
        MappedPages(m, root, PagesOf(sz));
        Uvmunmap(root, 0, PagesOf(sz) * PGSIZE / PGSIZE, true);
        Shrunk(m, Snap(), all, root, 0, PagesOf(sz));
      }
      ghost var h := Snap();
      EmptyMap(h, root);
      RootPage(h, all, root);
      Freewalk(root, RootKey(root), {});
      TreeGone(m, h, Snap(), all, root);
    }
  }

  /** Pages lo .. lo+n-1 of root now map the frames from page on; nothing else changed in any map. */
  ghost predicate RangeMapped(m: Ram, g: Ram, root: nat, lo: nat, n: nat, page: nat, perm: nat)
    requires perm < 1024
  {
    forall r: nat, u: nat :: Pte(g, r, u) ==
      if r == root && lo <= u < lo + n then MakePte(page + (u - lo), perm) else Pte(m, r, u)
  }

  lemma RangeMappedNext(m: Ram, h: Ram, g: Ram, root: nat, lo: nat, n: nat, page: nat, perm: nat)
    requires perm < 1024 && RangeMapped(m, h, root, lo, n, page, perm)
    requires RangeMapped(h, g, root, lo + n, 1, page + n, perm)
    ensures RangeMapped(m, g, root, lo, n + 1, page, perm)
  {
    hide Pte;
  }

  ghost predicate RangeCleared(m: Ram, g: Ram, root: nat, lo: nat, hi: nat) {
    forall r: nat, u: nat :: Pte(g, r, u) == if r == root && lo <= u < hi then 0 else Pte(m, r, u)
  }

  lemma RangeClearedNext(m: Ram, h: Ram, g: Ram, root: nat, lo: nat, hi: nat)
    requires lo <= hi && RangeCleared(m, h, root, lo, hi) && RangeCleared(h, g, root, hi, hi + 1)
    ensures RangeCleared(m, g, root, lo, hi + 1)
  {
    hide Pte;
  }

  /** The frame mapped at page number v belongs to the process as that page, and no other frame does. */
  ghost predicate Owned(m: Ram, root: nat, v: nat) {
    var pg := PtePage(Pte(m, root, v));
    pg in m.owner && forall q :: q in m.owner ==> (m.owner[q] == User(root, v) <==> q == pg)
  }

  /** Pages lo .. hi-1 of the process went back to the free list; every other page kept its owner. */
  ghost predicate Released(m: Ram, g: Ram, root: nat, lo: nat, hi: nat) {
    && (forall pg :: pg in g.owner <==>
          pg in m.owner && !(m.owner[pg].User? && m.owner[pg].root == root && lo <= m.owner[pg].v < hi))
    && (forall pg :: pg in g.owner ==> g.owner[pg] == m.owner[pg])
  }

  lemma StillOwned(m: Ram, h: Ram, root: nat, lo: nat, hi: nat)
    requires lo <= hi && RangeCleared(m, h, root, lo, hi) && Released(m, h, root, lo, hi) && Owned(m, root, hi)
    ensures Owned(h, root, hi)
  {
    hide Pte;
  }

  lemma ReleasedNext(m: Ram, h: Ram, g: Ram, root: nat, lo: nat, hi: nat)
    requires lo <= hi && Released(m, h, root, lo, hi) && Owned(h, root, hi)
    requires g.owner == h.owner - {PtePage(Pte(h, root, hi))}
    ensures Released(m, g, root, lo, hi + 1)
  {
    hide Pte;
  }

  /** What is in the pages of processes and other owners is the same in g. */
  ghost predicate DataKept(m: Ram, g: Ram) {
    forall pg :: pg in m.owner && pg in g.owner && !m.owner[pg].Table? && pg in m.mem ==>
      pg in g.mem && g.mem[pg] == m.mem[pg]
  }

  // ----- facts the methods use -----

  lemma InMemory(m: Ram, all: set<nat>, cut: set<Key>, pg: nat)
    requires Valid(m, all, cut) && pg in m.owner
    ensures pg in m.mem
  {
  }

  lemma TableInMemory(m: Ram, all: set<nat>, cut: set<Key>, k: Key)
    requires Valid(m, all, cut) && k in m.tab
    ensures m.tab[k] in m.mem && m.tab[k] != 0 && k.level <= 2
  {
  }

  lemma TablePage(m: Ram, all: set<nat>, cut: set<Key>, k: Key)
    requires Valid(m, all, cut) && k in m.tab
    ensures m.tab[k] in m.mem && m.tab[k] != 0 && m.tab[k] in m.owner && m.owner[m.tab[k]] == Table(k)
  {
  }

  lemma TableIsOther(m: Ram, all: set<nat>, k: Key, pg: nat)
    requires Valid(m, all, {}) && k in m.tab && pg in m.owner && m.owner[pg] == Held
    ensures m.tab[k] != pg
  {
  }

  lemma GrowExtends(m: Ram, all: set<nat>, k: Key, i: nat)
    requires Valid(m, all, {}) && m.free != [] && k in m.tab && k.level > 0 && i < 512 && Child(k, i) !in m.tab
    ensures m.tab[k] in Take(m).mem && Extends(m, Grow(Take(m), k, i, m.free[0]), k.root)
  {
  }

  lemma RootPage(m: Ram, all: set<nat>, root: nat)
    requires Valid(m, all, {}) && RootKey(root) in m.tab
    ensures m.tab[RootKey(root)] == root
  {
  }

  /** An entry above level 0 leads to its child or is 0. */
  lemma EntryFacts(m: Ram, all: set<nat>, cut: set<Key>, k: Key, i: nat)
    requires Valid(m, all, cut) && k in m.tab && k.level > 0 && i < 512 && Child(k, i) !in cut
    ensures m.tab[k] in m.mem
    ensures var w := m.mem[m.tab[k]][i];
            if Child(k, i) in m.tab then w == MakePte(m.tab[Child(k, i)], 0) else w == 0
  {
    assert EntryOk(m, k, i);
  }

  lemma Unchanged(m: Ram, root: nat)
    ensures SameMap(m, m) && Extends(m, m, root)
  {
  }

  lemma ExtendsAgain(m: Ram, h: Ram, g: Ram, root: nat)
    requires SameMap(m, h) && Extends(m, h, root) && SameMap(h, g) && Extends(h, g, root)
    ensures SameMap(m, g) && Extends(m, g, root)
  {
  }

  lemma ExtendsTwice(m: Ram, h: Ram, g: Ram, root: nat)
    requires Extends(m, h, root) && Extends(h, g, root)
    ensures Extends(m, g, root)
  {
  }

  lemma StoreExtends(m: Ram, all: set<nat>, root: nat, v: nat, w: nat)
    requires Valid(m, all, {}) && LeafKey(root, v) in m.tab
    ensures var pg := m.tab[LeafKey(root, v)]; pg in m.mem && Extends(m, Store(m, pg, v % 512, w), root)
  {
  }

  lemma RootStays(m: Ram, g: Ram, root: nat)
    requires Extends(m, g, root) && RootKey(root) in m.tab
    ensures RootKey(root) in g.tab
  {
  }

  // ----- the memory of one process -----

  /** The process has pages 0 .. n-1, each in a frame of its own, and no other page but the two at the top. */
  ghost predicate UserPages(m: Ram, root: nat, n: nat) {
    && n <= TRAPFRAME
    && (forall v: nat :: v < n ==> Leaf(Pte(m, root, v)) && Owned(m, root, v))
    && (forall v: nat :: n <= v && v != TRAPFRAME && v != TRAMPOLINE ==> Pte(m, root, v) == 0)
    && (forall pg :: pg in m.owner && m.owner[pg].User? && m.owner[pg].root == root ==> m.owner[pg].v < n)
  }

  /** The page belongs neither to the tree nor to the memory of root. */
  ghost predicate Foreign(m: Ram, pg: nat, root: nat) {
    pg in m.owner && match m.owner[pg] case Table(k) => k.root != root case User(r, _) => r != root case Held => true
  }

  /** From m to g nothing changed outside of root: other pages have their owner and contents, other trees their map. */
  ghost predicate SameOthers(m: Ram, g: Ram, root: nat) {
    && (forall pg :: Foreign(m, pg, root) ==> pg in g.owner && g.owner[pg] == m.owner[pg])
    && (forall pg :: Foreign(g, pg, root) ==> pg in m.owner && m.owner[pg] == g.owner[pg])
    && (forall r: nat, v: nat :: r != root ==> Pte(g, r, v) == Pte(m, r, v))
    && (forall k: Key :: k.root != root ==> (k in m.tab <==> k in g.tab))
    && (forall pg :: Foreign(m, pg, root) && !m.owner[pg].Table? && pg in m.mem ==>
          pg in g.mem && g.mem[pg] == m.mem[pg])
  }

  ghost predicate SpecialsKept(m: Ram, g: Ram, root: nat) {
    Pte(g, root, TRAMPOLINE) == Pte(m, root, TRAMPOLINE) && Pte(g, root, TRAPFRAME) == Pte(m, root, TRAPFRAME)
  }

  lemma SameIsSame(m: Ram, root: nat)
    ensures SameOthers(m, m, root) && AllKept(m, m) && DataKept(m, m) && SpecialsKept(m, m, root)
    ensures forall n :: PagesKept(m, m, root, n) && Released(m, m, root, n, n)
  {
  }

  /** Every allocated page of m has its owner in g, and its contents unless it is a table. */
  ghost predicate AllKept(m: Ram, g: Ram) {
    && (forall pg :: pg in m.owner ==> pg in g.owner && g.owner[pg] == m.owner[pg])
    && (forall pg :: pg in m.owner && !m.owner[pg].Table? && pg in m.mem ==> pg in g.mem && g.mem[pg] == m.mem[pg])
  }

  lemma AllKeptAgain(m: Ram, h: Ram, g: Ram)
    requires AllKept(m, h) && AllKept(h, g)
    ensures AllKept(m, g)
  {
  }

  lemma AllKeptShrunk(m: Ram, h: Ram, g: Ram, root: nat, lo: nat, n: nat)
    requires AllKept(m, h) && UserPages(m, root, lo) && Released(h, g, root, lo, n) && DataKept(h, g)
    ensures AllKept(m, g)
  {
    hide Pte, Owned;
  }

  lemma SameOthersAgain(m: Ram, h: Ram, g: Ram, root: nat)
    requires SameOthers(m, h, root) && SameOthers(h, g, root)
    ensures SameOthers(m, g, root)
  {
    hide Pte;
  }

  /** A page that no table uses may be filled, and may change hands. */
  lemma PageRewritten(m: Ram, all: set<nat>, pg: nat, data: Page)
    requires Valid(m, all, {}) && pg in m.owner && !m.owner[pg].Table?
    ensures Valid(m.(mem := m.mem[pg := data]), all, {}) && SameMap(m, m.(mem := m.mem[pg := data]))
  {
    hide TreesOk, Pte;
    SameTables(m, m.(mem := m.mem[pg := data]), {});
  }

  lemma PageReowned(m: Ram, all: set<nat>, pg: nat, use: Use)
    requires Valid(m, all, {}) && pg in m.owner && !m.owner[pg].Table? && !use.Table?
    ensures Valid(m.(owner := m.owner[pg := use]), all, {}) && SameMap(m, m.(owner := m.owner[pg := use]))
  {
    hide TreesOk, Pte;
    SameTables(m, m.(owner := m.owner[pg := use]), {});
  }

  lemma NotMapped(m: Ram, root: nat, n: nat)
    requires UserPages(m, root, n) && n < TRAPFRAME
    ensures Pte(m, root, n) == 0
  {
  }

  /** The state with a new page in hand, zeroed or copied, and not mapped yet. */
  ghost predicate InHand(m: Ram, h: Ram, page: nat, data: Page) {
    m.free != [] && page == m.free[0] && h == Take(m).(mem := Take(m).mem[page := data])
  }

  lemma OneFewer(m: Ram, h: Ram, page: nat, data: Page)
    requires InHand(m, h, page, data)
    ensures |h.free| + 1 == |m.free|
  {
  }

  lemma NewPage(m: Ram, h: Ram, all: set<nat>, root: nat, n: nat, page: nat, data: Page)
    requires Valid(m, all, {}) && InHand(m, h, page, data) && UserPages(m, root, n)
    ensures Valid(h, all, {}) && SameMap(m, h) && page !in m.owner && page in h.owner && h.owner[page] == Held
    ensures UserPages(h, root, n)
  {
    hide TreesOk, Pte, PagesOk, TabOk;
    TakeValid(m, all, {});
    PageRewritten(Take(m), all, page, data);
    assert SameMap(m, h);
  }

  /** Only the tree of root grew, with one more page of another owner in hand: the rest of m is as it was. */
  lemma OthersInHand(m: Ram, h: Ram, g: Ram, f: Ram, all: set<nat>, root: nat, page: nat, data: Page)
    requires TabOk(m) && TabOk(g) && InHand(m, h, page, data) && page !in m.owner
    requires Extends(h, g, root) && (forall r: nat, v: nat :: r != root ==> Pte(f, r, v) == Pte(m, r, v))
    requires f.tab == g.tab && (forall pg :: pg != page ==> (pg in f.owner <==> pg in g.owner))
    requires forall pg :: pg in f.owner && pg != page ==> f.owner[pg] == g.owner[pg]
    requires forall pg :: pg in g.mem && pg != page ==> pg in f.mem && f.mem[pg] == g.mem[pg]
    requires page in f.owner ==> f.owner[page].User? && f.owner[page].root == root
    ensures SameOthers(m, f, root) && AllKept(m, f)
  {
    hide Pte, TabOk, InHand, Extends;
    TreesInHand(m, h, g, root, page, data);
    forall pg | pg in m.owner
      ensures pg in f.owner && f.owner[pg] == m.owner[pg]
      ensures !m.owner[pg].Table? && pg in m.mem ==> pg in f.mem && f.mem[pg] == m.mem[pg]
    {
      OwnersInHand(m, h, g, root, page, data, pg);
    }
    forall pg | pg in f.owner && pg !in m.owner ensures !Foreign(f, pg, root) {
      OwnersInHand(m, h, g, root, page, data, pg);
    }
  }

  lemma OwnersInHand(m: Ram, h: Ram, g: Ram, root: nat, page: nat, data: Page, pg: nat)
    requires InHand(m, h, page, data) && Extends(h, g, root) && page !in m.owner
    ensures pg in m.owner ==> pg != page && pg in g.owner && g.owner[pg] == m.owner[pg]
    ensures pg in m.owner && !m.owner[pg].Table? && pg in m.mem ==> pg in g.mem && g.mem[pg] == m.mem[pg]
    ensures pg in g.owner && pg !in m.owner && pg != page ==> g.owner[pg].Table? && g.owner[pg].key.root == root
  {
  }

  lemma TreesInHand(m: Ram, h: Ram, g: Ram, root: nat, page: nat, data: Page)
    requires TabOk(m) && TabOk(g) && InHand(m, h, page, data) && Extends(h, g, root)
    ensures forall k: Key :: k.root != root ==> (k in m.tab <==> k in g.tab)
  {
  }

  /** The pages of root are a matter of its map and of who owns them. */
  ghost predicate SameUsers(m: Ram, g: Ram, root: nat) {
    && (forall pg :: pg in m.owner && m.owner[pg].User? && m.owner[pg].root == root ==>
          pg in g.owner && g.owner[pg] == m.owner[pg])
    && (forall pg :: pg in g.owner && g.owner[pg].User? && g.owner[pg].root == root ==>
          pg in m.owner && m.owner[pg] == g.owner[pg])
  }

  lemma UserKept(m: Ram, g: Ram, root: nat, n: nat)
    requires UserPages(m, root, n) && SameUsers(m, g, root) && forall v: nat :: Pte(g, root, v) == Pte(m, root, v)
    ensures UserPages(g, root, n)
  {
    hide Pte;
  }

  lemma UserAdded(m: Ram, g: Ram, root: nat, n: nat, page: nat, w: nat)
    requires UserPages(m, root, n) && n < TRAPFRAME && Leaf(w) && PtePage(w) == page && page in g.owner
    requires g.owner[page] == User(root, n)
    requires forall v: nat :: Pte(g, root, v) == if v == n then w else Pte(m, root, v)
    requires forall pg :: pg in m.owner && m.owner[pg].User? && m.owner[pg].root == root ==>
               pg in g.owner && g.owner[pg] == m.owner[pg]
    requires forall pg :: pg in g.owner && g.owner[pg].User? && g.owner[pg].root == root && pg != page ==>
                            pg in m.owner && m.owner[pg] == g.owner[pg]
    ensures UserPages(g, root, n + 1)
  {
    hide Pte;
    forall v: nat | v < n + 1 ensures Leaf(Pte(g, root, v)) && Owned(g, root, v) {
      if v < n { assert Owned(m, root, v); }
    }
  }

  /** mappages gave up: the page goes back, and only the tree has grown. */
  lemma NotAdded(m: Ram, h: Ram, g: Ram, all: set<nat>, root: nat, n: nat, page: nat, data: Page)
    requires Valid(m, all, {}) && InHand(m, h, page, data) && SameMap(m, h) && page !in m.owner && page in h.owner
    requires Valid(g, all, {}) && Extends(h, g, root) && SameMap(h, g) && UserPages(h, root, n)
    ensures page in g.owner && g.owner[page] == Held
    ensures UserPages(Give(g, page), root, n) && SameOthers(m, Give(g, page), root) && AllKept(m, Give(g, page))
  {
    hide PagesOk, TreesOk, UserPages, SameOthers, AllKept, TabOk, Pte;
    GiveValid(g, all, {}, page);
    UserKept(h, Give(g, page), root, n);
    OthersInHand(m, h, g, Give(g, page), all, root, page, data);
  }

  /** mappages succeeded. */
  lemma Added(m: Ram, h: Ram, g: Ram, all: set<nat>, root: nat, n: nat, page: nat, data: Page, perm: nat)
    requires Valid(m, all, {}) && InHand(m, h, page, data) && SameMap(m, h) && page !in m.owner && page in h.owner
    requires Valid(g, all, {}) && Extends(h, g, root) && perm < 1024 && RangeMapped(h, g, root, n, 1, page, perm)
    requires UserPages(h, root, n) && perm / 2 % 2 == 1 && n < TRAPFRAME
    ensures page in g.owner && g.owner[page] == Held
    ensures var f := g.(owner := g.owner[page := User(root, n)]);
            Valid(f, all, {}) && UserPages(f, root, n + 1) && SameOthers(m, f, root) && AllKept(m, f)
    ensures page in g.mem && g.mem[page] == data
  {
    hide PagesOk, TreesOk, UserPages, SameOthers, AllKept, TabOk, Pte;
    PageReowned(g, all, page, User(root, n));
    var f := g.(owner := g.owner[page := User(root, n)]);
    OthersInHand(m, h, g, f, all, root, page, data);
    UserAdded(h, f, root, n, page, MakePte(page, perm));
  }

  lemma RoundUpMonotone(a: nat, b: nat)
    ensures a <= b ==> PagesOf(a) <= PagesOf(b)
    ensures PagesOf(a) * PGSIZE % PGSIZE == 0 && PagesOf(PagesOf(a) * PGSIZE) == PagesOf(a)
  {
  }

  ghost predicate PagesKept(m: Ram, g: Ram, root: nat, n: nat) {
    forall v: nat :: v < n ==> Pte(g, root, v) == Pte(m, root, v)
  }

  /** Pages lo .. hi-1 have these flags and hold zeros. */
  ghost predicate ZeroPages(m: Ram, root: nat, lo: nat, hi: nat, flags: nat) {
    forall v: nat :: lo <= v < hi ==>
      var w := Pte(m, root, v); PteFlags(w) == flags && PtePage(w) in m.mem && m.mem[PtePage(w)] == Filled(0)
  }

  lemma NoZeroPages(m: Ram, root: nat, lo: nat, flags: nat)
    ensures ZeroPages(m, root, lo, lo, flags)
  {
  }

  lemma ZeroPagesNext(m: Ram, g: Ram, root: nat, lo: nat, n: nat, flags: nat)
    requires ZeroPages(m, root, lo, n, flags) && AllKept(m, g) && PagesKept(m, g, root, n)
    requires UserPages(m, root, n) && UserPages(g, root, n + 1)
    requires var w := Pte(g, root, n); PteFlags(w) == flags && PtePage(w) in g.mem && g.mem[PtePage(w)] == Filled(0)
    ensures ZeroPages(g, root, lo, n + 1, flags)
  {
    hide Pte;
    forall v: nat | lo <= v < n
      ensures PtePage(Pte(g, root, v)) in g.mem && g.mem[PtePage(Pte(g, root, v))] == Filled(0)
    {
      assert Owned(m, root, v) && Owned(g, root, v);
    }
  }

  lemma KeptAgain(m: Ram, h: Ram, g: Ram, root: nat, lo: nat, n: nat)
    requires PagesKept(m, h, root, lo) && PagesKept(h, g, root, n) && lo <= n
    requires SpecialsKept(m, h, root) && SpecialsKept(h, g, root)
    ensures PagesKept(m, g, root, lo) && SpecialsKept(m, g, root)
  {
    hide Pte;
  }

  lemma MappedPages(m: Ram, root: nat, n: nat)
    requires UserPages(m, root, n)
    ensures n <= TRAPFRAME
    ensures forall v: nat :: v < n ==>
              Owned(m, root, v) && PteValid(Pte(m, root, v)) && PteFlags(Pte(m, root, v)) != PTE_V
  {
    hide Pte, Owned;
    forall v: nat | v < n ensures PteValid(Pte(m, root, v)) && PteFlags(Pte(m, root, v)) != PTE_V {
      assert Leaf(Pte(m, root, v));
    }
  }

  lemma Shrunk(m: Ram, g: Ram, all: set<nat>, root: nat, lo: nat, n: nat)
    requires UserPages(m, root, n) && lo <= n && g.tab == m.tab
    requires RangeCleared(m, g, root, lo, n) && Released(m, g, root, lo, n) && DataKept(m, g)
    ensures UserPages(g, root, lo) && SameOthers(m, g, root) && PagesKept(m, g, root, lo) && SpecialsKept(m, g, root)
  {
    hide Pte;
    forall v: nat | v < lo ensures Owned(g, root, v) { assert Owned(m, root, v); }
  }

  /** The frames of pages 0 .. n-1. */
  ghost function Frames(m: Ram, root: nat, n: nat): set<nat> {
    if n == 0 then {} else Frames(m, root, n - 1) + {PtePage(Pte(m, root, n - 1))}
  }

  lemma {:induction false} CountFrames(m: Ram, root: nat, n: nat, k: nat)
    requires UserPages(m, root, n) && k <= n
    ensures |Frames(m, root, k)| == k
    ensures forall pg :: pg in Frames(m, root, k) ==> pg in m.owner && m.owner[pg].User? && m.owner[pg].v < k
  {
    hide Pte;
    if k > 0 {
      CountFrames(m, root, n, k - 1);
      assert Owned(m, root, k - 1);
    }
  }

  /** Physical memory is far smaller than the address space, so growing never reaches the two pages at the top. */
  lemma FitsInRam(m: Ram, all: set<nat>, root: nat, n: nat)
    requires Valid(m, all, {}) && UserPages(m, root, n)
    ensures n <= RAM_PAGES < TRAPFRAME
  {
    CountFrames(m, root, n, n);
    assert Frames(m, root, n) <= all;
    Subset(Frames(m, root, n), all);
  }

  lemma Subset(a: set<nat>, b: set<nat>)
    requires a <= b
    ensures |a| <= |b|
  {
    assert b == a + (b - a);
  }

  /** Page v of `to` in g is a copy of page v of `from` in m. */
  ghost predicate CopyOf(m: Ram, g: Ram, from: nat, to: nat, v: nat) {
    var w, c := Pte(m, from, v), Pte(g, to, v);
    && PteFlags(c) == PteFlags(w) && PtePage(w) in m.mem && PtePage(c) in g.mem
    && g.mem[PtePage(c)] == m.mem[PtePage(w)]
  }

  ghost predicate Copied(m: Ram, g: Ram, from: nat, to: nat, n: nat) {
    forall v: nat :: v < n ==> CopyOf(m, g, from, to, v)
  }

  lemma CopiedNext(m: Ram, h: Ram, g: Ram, all: set<nat>, from: nat, to: nat, k: nat, n: nat)
    requires PagesOk(m, all) && Copied(m, h, from, to, k) && CopyOf(h, g, from, to, k) && from != to
    requires SameOthers(m, h, to) && AllKept(m, h) && AllKept(h, g) && PagesKept(h, g, to, k)
    requires UserPages(h, to, k) && UserPages(m, from, n) && k < n && UserPages(h, from, n)
    ensures Copied(m, g, from, to, k + 1)
  {
    hide Pte;
    forall v: nat | v < k + 1 ensures CopyOf(m, g, from, to, v) {
      if v == k {
        assert Owned(m, from, k) && Pte(h, from, k) == Pte(m, from, k);
      } else {
        assert CopyOf(m, h, from, to, v) && Owned(h, to, v) && Pte(g, to, v) == Pte(h, to, v);
      }
    }
  }

  lemma OtherUserKept(m: Ram, g: Ram, root: nat, r: nat, n: nat)
    requires SameOthers(m, g, root) && r != root && UserPages(m, r, n)
    ensures UserPages(g, r, n) && forall v: nat :: Pte(g, r, v) == Pte(m, r, v)
  {
    hide Pte;
    assert forall pg :: pg in m.owner && m.owner[pg].User? && m.owner[pg].root == r ==> Foreign(m, pg, root);
    assert forall pg :: pg in g.owner && g.owner[pg].User? && g.owner[pg].root == r ==> Foreign(g, pg, root);
    UserKept(m, g, r, n);
  }

  lemma OtherTreeKept(m: Ram, g: Ram, root: nat, r: nat)
    requires SameOthers(m, g, root) && r != root && RootKey(r) in m.tab
    ensures RootKey(r) in g.tab
  {
    hide Pte;
  }

  lemma SpecialsAgain(m: Ram, h: Ram, g: Ram, root: nat)
    requires SpecialsKept(m, h, root) && SpecialsKept(h, g, root)
    ensures SpecialsKept(m, g, root)
  {
    hide Pte;
  }

  lemma LeafPage(m: Ram, all: set<nat>, root: nat, n: nat, v: nat)
    requires Valid(m, all, {}) && UserPages(m, root, n) && v < n
    ensures LeafKey(root, v) in m.tab && n <= RAM_PAGES
    ensures var w := Pte(m, root, v);
            Leaf(w) && PtePage(w) in m.owner && m.owner[PtePage(w)] == User(root, v) && PtePage(w) in m.mem
  {
    FitsInRam(m, all, root, n);
    assert Leaf(Pte(m, root, v)) && Owned(m, root, v);
    InMemory(m, all, {}, PtePage(Pte(m, root, v)));
  }

  lemma KeepsPage(m: Ram, all: set<nat>, pg: nat)
    requires Valid(m, all, {}) && pg in m.owner && m.free != []
    ensures pg in Take(m).mem && Take(m).mem[pg] == m.mem[pg] && pg in m.mem
  {
  }

  // ----- taking a tree down -----

  /** The tables from k down. */
  ghost function Below(tab: map<Key, nat>, k: Key): set<Key> {
    set x | x in tab && Under(x, k)
  }

  /** The tables reached through the first i entries of k. */
  ghost function BelowTo(tab: map<Key, nat>, k: Key, i: nat): set<Key> {
    set x | x in tab && k.level > 0 && Under(x, k) && x.level < k.level && Via(x, k) < i
  }

  /** From m to g the tables in `gone` went, each page to the free list; nothing else changed hands. */
  ghost predicate Pruned(m: Ram, g: Ram, gone: set<Key>) {
    && g.tab == m.tab - gone
    && (forall pg :: pg in g.owner <==> pg in m.owner && !(m.owner[pg].Table? && m.owner[pg].key in gone))
    && (forall pg :: pg in g.owner ==> g.owner[pg] == m.owner[pg])
    && SameMap(m, g) && DataKept(m, g)
  }

  /** Tables of g other than k are as in m. */
  ghost predicate TablesKept(m: Ram, g: Ram, k: Key) {
    forall x :: x in g.tab && x in m.tab && x != k ==>
      g.tab[x] in g.mem && m.tab[x] in m.mem && g.mem[g.tab[x]] == m.mem[m.tab[x]]
  }

  lemma CutMore(m: Ram, all: set<nat>, cut: set<Key>, c: Key)
    requires Valid(m, all, cut)
    ensures Valid(m, all, cut + {c})
  {
    assert TreesOk(m, cut + {c}) by {
      forall k, i | k in m.tab && k.level > 0 && i < 512 && Child(k, i) !in cut + {c} ensures EntryOk(m, k, i) { }
    }
  }

  lemma NotUnderChild(k: Key, i: nat)
    requires 1 <= k.level <= 2 && i < 512
    ensures !Under(k, Child(k, i)) && Under(Child(k, i), Child(k, i))
  {
  }

  lemma Cleared(m: Ram, h: Ram, all: set<nat>, cut: set<Key>, k: Key, i: nat)
    requires 1 <= k.level <= 2 && i < 512 && k in h.tab && h.tab[k] in h.mem && Valid(h, all, cut)
    requires Pruned(m, h, Below(m.tab, Child(k, i))) && TablesKept(m, h, Child(k, i)) && Child(k, i) !in h.tab
    requires SameMap(h, Store(h, h.tab[k], i, 0))
    ensures Pruned(m, Store(h, h.tab[k], i, 0), Below(m.tab, Child(k, i)))
    ensures TablesKept(m, Store(h, h.tab[k], i, 0), k)
  {
    hide Pte, PagesOk, TreesOk, Below;
    assert SameMap(m, Store(h, h.tab[k], i, 0));
  }

  lemma NothingPruned(m: Ram, k: Key)
    requires TabOk(m)
    ensures Pruned(m, m, BelowTo(m.tab, k, 0)) && TablesKept(m, m, k)
  {
    hide Pte;
    assert BelowTo(m.tab, k, 0) == {};
  }

  /** Entry i of table k is 0 or leads to a child. */
  lemma TableEntry(m: Ram, all: set<nat>, cut: set<Key>, k: Key, i: nat)
    requires Valid(m, all, cut) && k in m.tab && i < 512 && (forall c :: c in cut ==> c == k || c.level > k.level)
    requires forall v: nat :: Pte(m, k.root, v) == 0
    ensures k.level <= 2 && m.tab[k] in m.mem
    ensures var w := m.mem[m.tab[k]][i];
            w == 0 || (k.level > 0 && Child(k, i) in m.tab && w == MakePte(m.tab[Child(k, i)], 0))
    ensures m.mem[m.tab[k]][i] == 0 && k.level > 0 ==> Child(k, i) !in m.tab
    ensures forall c :: c in cut ==> c.level >= k.level
  {
    if k.level > 0 {
      EntryFacts(m, all, cut, k, i);
    } else {
      var v := k.prefix * 512 + i;
      assert LeafKey(k.root, v) == k && v % 512 == i && Pte(m, k.root, v) == 0;
    }
  }

  lemma PrunedMore(m: Ram, h: Ram, g: Ram, all: set<nat>, cut: set<Key>, k: Key, i: nat)
    requires Pruned(m, h, BelowTo(m.tab, k, i)) && TablesKept(m, h, k) && 1 <= k.level <= 2 && i < 512 && TabOk(m)
    requires TabOk(h)
    requires Pruned(h, g, Below(h.tab, Child(k, i))) && TablesKept(h, g, k) && k in h.tab
    ensures Pruned(m, g, BelowTo(m.tab, k, i + 1)) && TablesKept(m, g, k) && k in g.tab && g.tab[k] == h.tab[k]
    ensures forall v: nat :: Pte(g, k.root, v) == Pte(h, k.root, v)
  {
    hide Pte;
    NotUnderChild(k, i);
    var a, b, c := BelowTo(m.tab, k, i), Below(h.tab, Child(k, i)), BelowTo(m.tab, k, i + 1);
    forall x ensures x in c <==> x in a || x in b { UnderChild(x, k, i); }
    assert c == a + b;
    assert g.tab == m.tab - c;
  }

  lemma NoneBelow(m: Ram, h: Ram, all: set<nat>, cut: set<Key>, k: Key, i: nat)
    requires Valid(h, all, cut) && Pruned(m, h, BelowTo(m.tab, k, i)) && k.level <= 2 && i < 512
    requires k.level > 0 ==> Child(k, i) !in h.tab
    requires forall c :: c in cut ==> c.level >= k.level
    ensures Pruned(m, h, BelowTo(m.tab, k, i + 1))
  {
    hide Pte;
    forall x ensures x in BelowTo(m.tab, k, i + 1) <==> x in BelowTo(m.tab, k, i) {
      if k.level > 0 {
        UnderChild(x, k, i);
        assert Under(x, Child(k, i)) ==> x == Child(k, i) || Parent(x) == Child(k, i);
      }
    }
    assert BelowTo(m.tab, k, i + 1) == BelowTo(m.tab, k, i);
  }

  lemma AllBelow(m: Ram, h: Ram, k: Key)
    requires Pruned(m, h, BelowTo(m.tab, k, 512)) && k.level <= 2
    ensures forall i :: 0 <= i < 512 && k.level > 0 ==> Child(k, i) !in h.tab
  {
    hide Pte;
    forall i | 0 <= i < 512 && k.level > 0 ensures Child(k, i) !in h.tab {
      UnderChild(Child(k, i), k, i);
      NotUnderChild(k, i);
      assert Child(k, i) in m.tab ==> Child(k, i) in BelowTo(m.tab, k, 512);
    }
  }

  lemma PrunedLast(m: Ram, h: Ram, all: set<nat>, cut: set<Key>, k: Key)
    requires Valid(m, all, cut) && Valid(h, all, cut) && k in h.tab && Pruned(m, h, BelowTo(m.tab, k, 512))
    requires TablesKept(m, h, k)
    requires SameMap(h, Drop(h, k))
    ensures Pruned(m, Drop(h, k), Below(m.tab, k)) && TablesKept(m, Drop(h, k), k)
  {
    hide Pte, PagesOk, TreesOk;
    var a, b := BelowTo(m.tab, k, 512), Below(m.tab, k);
    forall x ensures x in b <==> x in a || x == k {
      if x in b && x != k { assert k.level > 0 && x.level < k.level; }
    }
    assert b == a + {k};
    assert Drop(h, k).tab == m.tab - b;
    assert SameMap(m, Drop(h, k));
  }

  /** uvmcreate's new state. */
  ghost function Plant(m: Ram): Ram
    requires m.free != []
  {
    var pg := m.free[0];
    var h := Take(m);
    Ram(h.mem[pg := Filled(0)], h.free, h.tab[RootKey(pg) := pg], h.owner[pg := Table(RootKey(pg))])
  }

  /** A tree has its root. */
  lemma Rooted(m: Ram, all: set<nat>, x: Key)
    requires Valid(m, all, {}) && x in m.tab
    ensures RootKey(x.root) in m.tab && Under(x, RootKey(x.root)) && x.root in m.owner
  {
    hide PagesOk;
    assert x.level < 2 ==> Parent(x) in m.tab;
    assert x.level == 0 ==> Parent(Parent(x)) in m.tab;
  }

  lemma PlantPages(m: Ram, all: set<nat>)
    requires PagesOk(m, all) && m.free != []
    ensures PagesOk(Plant(m), all) && m.free[0] != 0 && m.free[0] !in m.owner
  {
    TakePages(m, all);
    assert Plant(m).owner.Keys == Take(m).owner.Keys && Plant(m).mem.Keys == Take(m).mem.Keys;
  }

  lemma PlantTab(m: Ram, pg: nat)
    requires TabOk(m) && m.free != [] && pg == m.free[0] && pg !in m.owner && forall x :: x in m.tab ==> x.root != pg
    ensures TabOk(Plant(m))
  {
  }

  lemma PlantTrees(m: Ram, pg: nat)
    requires m.free != [] && TabOk(m) && TabOk(Plant(m)) && TreesOk(m, {}) && pg == m.free[0] && pg !in m.owner
    requires forall x :: x in m.tab ==> x.root != pg
    ensures TreesOk(Plant(m), {})
  {
    var g := Plant(m);
    forall a, j | a in g.tab && a.level > 0 && j < 512 ensures EntryOk(g, a, j) {
      if a in m.tab { assert EntryOk(m, a, j); }
    }
  }

  lemma PlantMap(m: Ram, pg: nat)
    requires m.free != [] && TabOk(m) && pg == m.free[0] && pg !in m.owner && forall x :: x in m.tab ==> x.root != pg
    ensures forall r: nat, v: nat :: Pte(Plant(m), r, v) == if r == pg then 0 else Pte(m, r, v)
  {
  }

  lemma PlantValid(m: Ram, all: set<nat>)
    requires Valid(m, all, {}) && m.free != []
    ensures Valid(Plant(m), all, {}) && RootKey(m.free[0]) !in m.tab && m.free[0] !in m.owner
    ensures forall v: nat :: Pte(Plant(m), m.free[0], v) == 0
    ensures SameOthers(m, Plant(m), m.free[0])
  {
    hide PagesOk, TabOk, TreesOk, Pte, Plant, SameOthers;
    PlantPages(m, all);
    forall x | x in m.tab ensures x.root != m.free[0] { Rooted(m, all, x); }
    PlantTab(m, m.free[0]);
    PlantTrees(m, m.free[0]);
    PlantMap(m, m.free[0]);
    PlantOthers(m, m.free[0]);
  }

  lemma PlantOthers(m: Ram, pg: nat)
    requires m.free != [] && pg == m.free[0] && pg !in m.owner
    requires forall r: nat, v: nat :: Pte(Plant(m), r, v) == if r == pg then 0 else Pte(m, r, v)
    ensures SameOthers(m, Plant(m), pg)
  {
    hide Pte;
    assert forall q :: q in m.owner ==> q != pg;
  }

  /** Nothing belongs to root. */
  ghost predicate NoneOf(m: Ram, root: nat) {
    forall pg :: pg in m.owner ==> Foreign(m, pg, root)
  }

  lemma EmptyMap(m: Ram, root: nat)
    requires UserPages(m, root, 0) && Pte(m, root, TRAMPOLINE) == 0 && Pte(m, root, TRAPFRAME) == 0
    ensures forall v: nat :: Pte(m, root, v) == 0
  {
    hide Pte;
  }

  lemma TreeGone(m: Ram, h: Ram, g: Ram, all: set<nat>, root: nat)
    requires SameOthers(m, h, root) && Valid(h, all, {}) && UserPages(h, root, 0) && Valid(g, all, {})
    requires Pruned(h, g, Below(h.tab, RootKey(root)))
    ensures SameOthers(m, g, root) && NoneOf(g, root)
  {
    hide Pte, PagesOk, TreesOk;
    var gone := Below(h.tab, RootKey(root));
    forall x | x in h.tab ensures x in gone <==> x.root == root { Rooted(h, all, x); }
    assert SameOthers(h, g, root);
    SameOthersAgain(m, h, g, root);
  }
}
