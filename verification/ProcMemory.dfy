/** The page tables of all processes: proc_pagetable, proc_freepagetable, growproc and the memory part of fork,
    allocproc and freeproc (kernel/proc.c), over any run that mixes them. */
module ProcMemory {
  import opened Common
  import opened PageTable
  import opened Vm

  /** root is the page table of a process with n pages and the given trapframe page. */
  ghost predicate Space(m: Ram, root: nat, n: nat, trapframe: nat, trampoline: nat) {
    && RootKey(root) in m.tab && UserPages(m, root, n)
    && Pte(m, root, TRAMPOLINE) == MakePte(trampoline, PTE_R + PTE_X)
    && Pte(m, root, TRAPFRAME) == MakePte(trapframe, PTE_R + PTE_W)
  }

  /** What the hardware finds: the pages below PGROUNDUP(sz), each in a frame of its own, and the two at the top. */
  lemma HardwareSeesSpace(m: Ram, all: set<nat>, root: nat, n: nat, trapframe: nat, trampoline: nat, va: nat)
    requires Valid(m, all, {}) && Space(m, root, n, trapframe, trampoline) && va < MAXVA
    ensures var w := HardwareWalk(m.mem, root, 2, va);
            && (PteValid(w) <==> va < n * PGSIZE || va >= TRAPFRAME * PGSIZE)
            && (va < n * PGSIZE ==> PtePage(w) in m.owner && m.owner[PtePage(w)] == User(root, va / 4096))
  {
    hide PagesOk, TabOk, TreesOk, Pte, HardwareWalk;
    HardwareSeesFlatMap(m, all, root, va);
    var v := va / 4096;
    assert v < n ==> Leaf(Pte(m, root, v)) && Owned(m, root, v);
  }

  /** No user page belongs to a tree that does not exist. */
  ghost predicate NoOrphans(m: Ram) {
    forall pg :: pg in m.owner && m.owner[pg].User? ==> RootKey(m.owner[pg].root) in m.tab
  }

  lemma OrphansKept(m: Ram, g: Ram, root: nat)
    requires NoOrphans(m) && SameOthers(m, g, root) && (RootKey(root) in g.tab || NoneOf(g, root))
    ensures NoOrphans(g)
  {
    hide Pte;
    forall pg | pg in g.owner && g.owner[pg].User? ensures RootKey(g.owner[pg].root) in g.tab {
      assert g.owner[pg].root != root ==> Foreign(g, pg, root);
    }
  }

  lemma FreshRoot(m: Ram, root: nat)
    requires NoOrphans(m) && TabOk(m) && (forall x :: x in m.tab ==> x.root != root) && RootKey(root) !in m.tab
    ensures NoneOf(m, root)
  {
    hide Pte;
  }

  lemma MappedOthers(m: Ram, g: Ram, root: nat, lo: nat, n: nat, page: nat, perm: nat)
    requires TabOk(m) && TabOk(g) && perm < 1024 && Extends(m, g, root) && RangeMapped(m, g, root, lo, n, page, perm)
    ensures SameOthers(m, g, root) && AllKept(m, g)
  {
    hide Pte;
  }

  /** Mapping one of the two top pages. */
  lemma MappedTop(m: Ram, g: Ram, root: nat, top: nat, n: nat, page: nat, perm: nat)
    requires perm < 1024 && Extends(m, g, root) && RangeMapped(m, g, root, top, n, page, perm) && n <= 1
    requires UserPages(m, root, 0) && (top == TRAMPOLINE || top == TRAPFRAME)
    ensures UserPages(g, root, 0)
  {
    hide Pte;
  }

  /** Unmapping one of the two top pages without freeing it. */
  lemma UnmappedTop(m: Ram, g: Ram, root: nat, top: nat, n: nat)
    requires RangeCleared(m, g, root, top, top + 1) && g.owner == m.owner && g.tab == m.tab && DataKept(m, g)
    requires UserPages(m, root, n) && (top == TRAMPOLINE || top == TRAPFRAME)
    ensures UserPages(g, root, n) && SameOthers(m, g, root)
  {
    hide Pte;
    assert forall v: nat :: v < n && Owned(m, root, v) ==> Owned(g, root, v);
  }

  /** Memory is allocated and mapped in g as in m. */
  ghost predicate AsBefore(m: Ram, g: Ram) {
    g.owner == m.owner && SameMap(m, g) && AllKept(m, g) && g.tab.Keys == m.tab.Keys
  }

  lemma NoTables(m: Ram, root: nat)
    requires TabOk(m) && NoneOf(m, root)
    ensures forall x :: x in m.tab ==> x.root != root
    ensures forall v: nat :: Pte(m, root, v) == 0
  {
  }

  /** Nothing of root before and nothing after: everything is as it was. */
  lemma AllReturned(m: Ram, g: Ram, all: set<nat>, root: nat)
    requires Valid(m, all, {}) && Valid(g, all, {}) && SameOthers(m, g, root) && NoneOf(m, root) && NoneOf(g, root)
    ensures AsBefore(m, g) && forall pg :: pg in g.free <==> pg in m.free
  {
    hide Pte, TabOk, TreesOk;
    NoTables(m, root);
    NoTables(g, root);
  }

  /** proc_pagetable. It fails only with fewer than six free pages, and then returns what it took. */
  method ProcPagetable(k: Memory, trapframe: nat) returns (root: nat)
    requires k.Ready() && NoOrphans(k.Snap())
    modifies k
    ensures k.Ready() && NoOrphans(k.Snap())
    ensures root == 0 ==> AsBefore(old(k.Snap()), k.Snap()) && |old(k.freelist)| <= 5
    ensures root != 0 ==> NoneOf(old(k.Snap()), root) && SameOthers(old(k.Snap()), k.Snap(), root)
    ensures root != 0 ==> Space(k.Snap(), root, 0, trapframe, k.trampoline)
  {
    hide PagesOk, TabOk, TreesOk, Pte, UserPages, SameOthers, NoOrphans, NoneOf, Extends, AllKept, DataKept;
    ghost var m := k.Snap();
    root := k.Uvmcreate();
    if root == 0 {
      SameIsSame(m, root);
      return;
    }
    ghost var h := k.Snap();
    Planted(m, h, k.all, root);
    var r, done := k.Mappages(root, TRAMPOLINE * PGSIZE, PGSIZE, k.trampoline * PGSIZE, PTE_R + PTE_X);
    ghost var g := k.Snap();
    MappedOthers(h, g, root, TRAMPOLINE, done, k.trampoline, PTE_R + PTE_X);
    MappedTop(h, g, root, TRAMPOLINE, done, k.trampoline, PTE_R + PTE_X);
    RootStays(h, g, root);
    SameOthersAgain(m, h, g, root);
    if r < 0 {
      Undo(k, m, root);
      return 0;
    }
    r, done := k.Mappages(root, TRAPFRAME * PGSIZE, PGSIZE, trapframe * PGSIZE, PTE_R + PTE_W);
    ghost var f := k.Snap();
    MappedOthers(g, f, root, TRAPFRAME, done, trapframe, PTE_R + PTE_W);
    MappedTop(g, f, root, TRAPFRAME, done, trapframe, PTE_R + PTE_W);
    RootStays(g, f, root);
    SameOthersAgain(m, g, f, root);
    if r < 0 {
      k.Uvmunmap(root, TRAMPOLINE * PGSIZE, 1, false);
      UnmappedTop(f, k.Snap(), root, TRAMPOLINE, 0);
      SameOthersAgain(m, f, k.Snap(), root);
      assert Pte(k.Snap(), root, TRAMPOLINE) == 0;
      Undo(k, m, root);
      return 0;
    }
    OrphansKept(m, f, root);
  }

  /** proc_pagetable's failure: uvmfree of a tree that maps nothing. */
  method Undo(k: Memory, ghost m: Ram, root: nat)
    requires k.Ready() && RootKey(root) in k.tab && UserPages(k.Snap(), root, 0)
    requires Pte(k.Snap(), root, TRAMPOLINE) == 0 && Pte(k.Snap(), root, TRAPFRAME) == 0
    requires Valid(m, k.all, {}) && NoOrphans(m) && NoneOf(m, root) && SameOthers(m, k.Snap(), root)
    modifies k
    ensures k.Ready() && NoOrphans(k.Snap()) && AsBefore(m, k.Snap())
  {
    hide PagesOk, TabOk, TreesOk, Pte, UserPages, SameOthers, NoOrphans, NoneOf;
    ghost var h := k.Snap();
    k.Uvmfree(root, 0);
    SameOthersAgain(m, h, k.Snap(), root);
    AllReturned(m, k.Snap(), k.all, root);
    OrphansKept(m, k.Snap(), root);
  }

  lemma Planted(m: Ram, h: Ram, all: set<nat>, root: nat)
    requires Valid(m, all, {}) && NoOrphans(m) && root !in m.owner && RootKey(root) !in m.tab
    requires h.owner == m.owner[root := Table(RootKey(root))] && forall v: nat :: Pte(h, root, v) == 0
    ensures NoneOf(m, root) && UserPages(h, root, 0)
  {
    hide PagesOk, Pte;
    forall x | x in m.tab ensures x.root != root { Rooted(m, all, x); }
    FreshRoot(m, root);
  }

  /** proc_freepagetable. */
  method ProcFreepagetable(k: Memory, root: nat, sz: nat, ghost trapframe: nat)
    requires k.Ready() && NoOrphans(k.Snap()) && Space(k.Snap(), root, PagesOf(sz), trapframe, k.trampoline)
    modifies k
    ensures k.Ready() && NoOrphans(k.Snap())
    ensures SameOthers(old(k.Snap()), k.Snap(), root) && NoneOf(k.Snap(), root)
  {
    hide PagesOk, TabOk, TreesOk, Pte, UserPages, SameOthers, NoOrphans, NoneOf, DataKept;
    ghost var m := k.Snap();
    k.Uvmunmap(root, TRAMPOLINE * PGSIZE, 1, false);
    ghost var h := k.Snap();
    UnmappedTop(m, h, root, TRAMPOLINE, PagesOf(sz));
    assert Pte(h, root, TRAPFRAME) == Pte(m, root, TRAPFRAME);
    k.Uvmunmap(root, TRAPFRAME * PGSIZE, 1, false);
    ghost var g := k.Snap();
    UnmappedTop(h, g, root, TRAPFRAME, PagesOf(sz));
    SameOthersAgain(m, h, g, root);
    assert Pte(g, root, TRAPFRAME) == 0 && Pte(g, root, TRAMPOLINE) == 0;
    k.Uvmfree(root, sz);
    SameOthersAgain(m, g, k.Snap(), root);
    OrphansKept(m, k.Snap(), root);
  }

  /** Pages 0 .. n-1 of root are mapped and hold what they held. */
  ghost predicate BytesKept(m: Ram, g: Ram, root: nat, n: nat) {
    forall v: nat :: v < n ==>
      && Pte(g, root, v) == Pte(m, root, v) && PtePage(Pte(m, root, v)) in m.mem && PtePage(Pte(m, root, v)) in g.mem
      && g.mem[PtePage(Pte(m, root, v))] == m.mem[PtePage(Pte(m, root, v))]
  }

  lemma KeptFromData(m: Ram, g: Ram, all: set<nat>, root: nat, n: nat, was: nat, now: nat)
    requires Valid(m, all, {}) && UserPages(m, root, was) && UserPages(g, root, now) && n <= was && n <= now
    requires PagesKept(m, g, root, n) && DataKept(m, g)
    ensures BytesKept(m, g, root, n)
  {
    hide Pte, Valid;
    forall v: nat | v < n
      ensures PtePage(Pte(m, root, v)) in m.mem && PtePage(Pte(m, root, v)) in g.mem
      ensures g.mem[PtePage(Pte(m, root, v))] == m.mem[PtePage(Pte(m, root, v))]
    {
      assert Owned(m, root, v) && Owned(g, root, v);
      InMemory(m, all, {}, PtePage(Pte(m, root, v)));
    }
  }

  lemma AllIsData(m: Ram, g: Ram)
    requires AllKept(m, g)
    ensures DataKept(m, g)
  {
  }

  /** growproc, with p->sz as a parameter. n is an int and the sum is taken modulo 2^64. */
  method Growproc(k: Memory, root: nat, sz: nat, n: int, ghost trapframe: nat) returns (r: int, newsz: nat)
    requires k.Ready() && NoOrphans(k.Snap()) && Space(k.Snap(), root, PagesOf(sz), trapframe, k.trampoline)
    requires -0x8000_0000 <= n < 0x8000_0000
    modifies k
    ensures k.Ready() && NoOrphans(k.Snap()) && SameOthers(old(k.Snap()), k.Snap(), root)
    ensures Space(k.Snap(), root, PagesOf(newsz), trapframe, k.trampoline)
    ensures BytesKept(old(k.Snap()), k.Snap(), root, if newsz < sz then PagesOf(newsz) else PagesOf(sz))
    ensures r == 0 ==> newsz == if sz + n >= 0 then sz + n else sz
    ensures r != 0 ==> r == -1 && newsz == sz && n > 0 && |old(k.freelist)| <= 3 * (PagesOf(sz + n) - PagesOf(sz))
  {
    hide Valid, Pte, UserPages, SameOthers, NoOrphans, AllKept, ZeroPages, Released, DataKept, PagesKept, BytesKept;
    ghost var m := k.Snap();
    SameIsSame(m, root);
    FitsInRam(m, k.all, root, PagesOf(sz));
    newsz := sz;
    if n > 0 {
      newsz := k.Uvmalloc(root, sz, (sz + n) % 0x1_0000_0000_0000_0000, PTE_W);
      OrphansKept(m, k.Snap(), root);
      AllIsData(m, k.Snap());
      RoundUpMonotone(sz, sz + n);
      KeptFromData(m, k.Snap(), k.all, root, PagesOf(sz), PagesOf(sz),
                   if newsz == 0 then PagesOf(sz) else PagesOf(newsz));
      if newsz == 0 { return -1, sz; }
    } else if n < 0 {
      newsz := k.Uvmdealloc(root, sz, (sz + n) % 0x1_0000_0000_0000_0000);
      OrphansKept(m, k.Snap(), root);
      RoundUpMonotone(newsz, sz);
      KeptFromData(m, k.Snap(), k.all, root, PagesOf(newsz), PagesOf(sz), PagesOf(newsz));
    } else {
      KeptFromData(m, m, k.all, root, PagesOf(sz), PagesOf(sz), PagesOf(sz));
    }
    return 0, newsz;
  }

  // ----- all processes together -----

  datatype Info = Info(sz: nat, trapframe: nat)

  /** The page has one of these processes to thank for its allocation. */
  ghost predicate Belongs(use: Use, pg: nat, procs: map<nat, Info>) {
    match use
    case Table(k) => k.root in procs
    case User(r, _) => r in procs
    case Held => exists r :: r in procs && procs[r].trapframe == pg
  }

  /** Allocated are the pages of `base`, which were allocated before, and the pages of the processes. */
  ghost predicate Accounts(owner: map<nat, Use>, procs: map<nat, Info>, base: map<nat, Use>) {
    && (forall pg :: pg in base ==> pg in owner && owner[pg] == base[pg] && !Belongs(base[pg], pg, procs))
    && (forall pg :: pg in owner && pg !in base ==> Belongs(owner[pg], pg, procs))
    && (forall r :: r in procs ==> var t := procs[r].trapframe; t in owner && owner[t] == Held && t !in base)
    && (forall r, s :: r in procs && s in procs && r != s ==> procs[r].trapframe != procs[s].trapframe)
  }

  ghost predicate Spaces(m: Ram, procs: map<nat, Info>, trampoline: nat) {
    NoOrphans(m) && forall r :: r in procs ==> Space(m, r, PagesOf(procs[r].sz), procs[r].trapframe, trampoline)
  }

  lemma SpaceKept(m: Ram, g: Ram, root: nat, n: nat, trapframe: nat, trampoline: nat)
    requires Space(m, root, n, trapframe, trampoline) && RootKey(root) in g.tab && SameUsers(m, g, root)
    requires forall v: nat :: Pte(g, root, v) == Pte(m, root, v)
    ensures Space(g, root, n, trapframe, trampoline)
  {
    hide Pte, UserPages;
    UserKept(m, g, root, n);
  }

  lemma OtherSpaceKept(m: Ram, g: Ram, root: nat, r: nat, n: nat, trapframe: nat, trampoline: nat)
    requires Space(m, r, n, trapframe, trampoline) && SameOthers(m, g, root) && r != root
    ensures Space(g, r, n, trapframe, trampoline)
  {
    hide Pte, UserPages, SameOthers;
    OtherTreeKept(m, g, root, r);
    OtherUserKept(m, g, root, r, n);
  }

  /** A step of one process leaves the others alone. */
  lemma StepKeepsSpaces(m: Ram, g: Ram, root: nat, procs: map<nat, Info>, info: Info, trampoline: nat)
    requires Spaces(m, procs, trampoline) && SameOthers(m, g, root) && NoOrphans(g)
    requires Space(g, root, PagesOf(info.sz), info.trapframe, trampoline)
    ensures Spaces(g, procs[root := info], trampoline)
  {
    hide Space, SameOthers, NoOrphans;
    forall r | r in procs && r != root ensures Space(g, r, PagesOf(procs[r].sz), procs[r].trapframe, trampoline) {
      OtherSpaceKept(m, g, root, r, PagesOf(procs[r].sz), procs[r].trapframe, trampoline);
    }
  }

  lemma StepKeepsAccounts(m: Ram, g: Ram, root: nat, procs: map<nat, Info>, info: Info, base: map<nat, Use>)
    requires Accounts(m.owner, procs, base) && SameOthers(m, g, root)
    requires root in procs && info.trapframe == procs[root].trapframe
    ensures Accounts(g.owner, procs[root := info], base)
  {
    hide Pte;
    var after := procs[root := info];
    forall use: Use, pg ensures Belongs(use, pg, after) <==> Belongs(use, pg, procs) {
      assert forall r :: r in procs ==> after[r].trapframe == procs[r].trapframe;
    }
    forall pg | pg in base ensures pg in g.owner && g.owner[pg] == base[pg] { assert Foreign(m, pg, root); }
    forall pg | pg in g.owner && pg !in base ensures Belongs(g.owner[pg], pg, procs) {
      if Foreign(g, pg, root) { assert m.owner[pg] == g.owner[pg]; }
    }
    forall r | r in procs ensures var t := procs[r].trapframe; t in g.owner && g.owner[t] == Held {
      assert Foreign(m, procs[r].trapframe, root);
    }
  }

  /** The owners' part of SameOthers. */
  lemma OwnersKept(m: Ram, g: Ram, root: nat, pg: nat)
    requires SameOthers(m, g, root)
    ensures Foreign(m, pg, root) ==> pg in g.owner && g.owner[pg] == m.owner[pg]
    ensures Foreign(g, pg, root) ==> pg in m.owner && m.owner[pg] == g.owner[pg]
  {
    hide Pte;
  }

  /** A new process: the trapframe page, then its page table. */
  lemma BirthSpaces(m: Ram, h: Ram, g: Ram, all: set<nat>, root: nat, tf: nat, procs: map<nat, Info>, trampoline: nat)
    requires Spaces(m, procs, trampoline) && m.free != [] && tf == m.free[0] && tf !in m.owner && h == Take(m)
    requires SameMap(m, h)
    requires SameOthers(h, g, root) && NoOrphans(g) && NoneOf(h, root) && TabOk(h)
    requires Space(g, root, 0, tf, trampoline)
    ensures Spaces(g, procs[root := Info(0, tf)], trampoline) && root !in procs
  {
    hide Space, SameOthers, NoOrphans, SameMap, Take, NoneOf, TabOk;
    forall r | r in procs ensures Space(h, r, PagesOf(procs[r].sz), procs[r].trapframe, trampoline) && r != root {
      TakeKeepsSpace(m, r, PagesOf(procs[r].sz), procs[r].trapframe, trampoline);
      NotHere(h, root, r, PagesOf(procs[r].sz), procs[r].trapframe, trampoline);
      assert Space(h, r, PagesOf(procs[r].sz), procs[r].trapframe, trampoline);
    }
    forall r | r in procs && r != root ensures Space(g, r, PagesOf(procs[r].sz), procs[r].trapframe, trampoline) {
      OtherSpaceKept(h, g, root, r, PagesOf(procs[r].sz), procs[r].trapframe, trampoline);
    }
  }

  lemma TakeKeepsSpace(m: Ram, r: nat, n: nat, tf: nat, trampoline: nat)
    requires Space(m, r, n, tf, trampoline) && m.free != [] && m.free[0] !in m.owner && SameMap(m, Take(m))
    ensures Space(Take(m), r, n, tf, trampoline)
  {
    hide Pte, UserPages;
    SpaceKept(m, Take(m), r, n, tf, trampoline);
  }

  lemma NotHere(m: Ram, root: nat, r: nat, n: nat, tf: nat, trampoline: nat)
    requires Space(m, r, n, tf, trampoline) && NoneOf(m, root) && TabOk(m)
    ensures r != root
  {
    hide Pte, UserPages;
    assert m.owner[m.tab[RootKey(r)]] == Table(RootKey(r));
  }

  lemma BirthAccounts(m: Ram, h: Ram, g: Ram, root: nat, tf: nat, procs: map<nat, Info>, base: map<nat, Use>)
    requires Accounts(m.owner, procs, base) && tf !in m.owner && h.owner == m.owner[tf := Held]
    requires SameOthers(h, g, root) && NoneOf(h, root) && root !in procs
    ensures Accounts(g.owner, procs[root := Info(0, tf)], base)
  {
    hide SameOthers, Belongs;
    var after := procs[root := Info(0, tf)];
    forall pg | pg in h.owner ensures pg in g.owner && g.owner[pg] == h.owner[pg] { OwnersKept(h, g, root, pg); }
    forall pg | pg in base ensures !Belongs(base[pg], pg, after) {
      assert Foreign(h, pg, root);
      BelongsMore(base[pg], pg, procs, root, tf);
    }
    forall pg | pg in g.owner && pg !in base ensures Belongs(g.owner[pg], pg, after) {
      OwnersKept(h, g, root, pg);
      BelongsMore(g.owner[pg], pg, procs, root, tf);
      assert Foreign(g, pg, root) && pg != tf ==> m.owner[pg] == g.owner[pg];
    }
  }

  /** One more process. */
  lemma BelongsMore(use: Use, pg: nat, procs: map<nat, Info>, root: nat, tf: nat)
    requires root !in procs
    ensures Belongs(use, pg, procs[root := Info(0, tf)]) <==>
              Belongs(use, pg, procs) || (use == Held && pg == tf) || (use.Table? && use.key.root == root)
                || (use.User? && use.root == root)
  {
    var after := procs[root := Info(0, tf)];
    assert after[root].trapframe == tf;
    assert forall r :: r in procs ==> after[r] == procs[r];
  }

  /** The end of a process: its trapframe page goes, then its page table. */
  lemma DeathAccounts(m: Ram, h: Ram, g: Ram, root: nat, procs: map<nat, Info>, base: map<nat, Use>)
    requires Accounts(m.owner, procs, base) && root in procs && h.owner == m.owner - {procs[root].trapframe}
    requires SameOthers(h, g, root) && NoneOf(g, root)
    ensures Accounts(g.owner, procs - {root}, base)
  {
    hide SameOthers, Belongs;
    var after, tf := procs - {root}, procs[root].trapframe;
    forall pg | pg in base ensures pg in g.owner && g.owner[pg] == base[pg] && !Belongs(base[pg], pg, after) {
      OwnersKept(h, g, root, pg);
      BelongsLess(base[pg], pg, procs, root);
    }
    forall pg | pg in g.owner && pg !in base ensures Belongs(g.owner[pg], pg, after) {
      OwnersKept(h, g, root, pg);
      BelongsLess(g.owner[pg], pg, procs, root);
    }
    forall r | r in after ensures var t := after[r].trapframe; t in g.owner && g.owner[t] == Held {
      OwnersKept(h, g, root, after[r].trapframe);
    }
  }

  /** One process less. */
  lemma BelongsLess(use: Use, pg: nat, procs: map<nat, Info>, root: nat)
    requires root in procs
    ensures Belongs(use, pg, procs - {root}) ==> Belongs(use, pg, procs)
    ensures Belongs(use, pg, procs) ==>
              Belongs(use, pg, procs - {root}) || (use == Held && pg == procs[root].trapframe)
                || (use.Table? && use.key.root == root)
              || (use.User? && use.root == root)
    ensures (use.Table? && use.key.root == root) || (use.User? && use.root == root) ==> Belongs(use, pg, procs)
  {
    var after := procs - {root};
    assert forall r :: r in procs && r != root ==> r in after && after[r] == procs[r];
  }

  lemma DeathSpaces(m: Ram, h: Ram, g: Ram, root: nat, procs: map<nat, Info>, trampoline: nat, tf: nat)
    requires Spaces(m, procs, trampoline) && tf in m.owner && m.owner[tf] == Held && h == Give(m, tf) && SameMap(m, h)
    requires SameOthers(h, g, root) && NoOrphans(g)
    ensures Spaces(g, procs - {root}, trampoline)
  {
    hide Space, SameOthers, NoOrphans, SameMap;
    forall r | r in procs && r != root ensures Space(g, r, PagesOf(procs[r].sz), procs[r].trapframe, trampoline) {
      GiveKeepsSpace(m, r, PagesOf(procs[r].sz), procs[r].trapframe, trampoline, tf);
      OtherSpaceKept(h, g, root, r, PagesOf(procs[r].sz), procs[r].trapframe, trampoline);
    }
  }

  lemma GiveKeepsSpace(m: Ram, r: nat, n: nat, tf: nat, trampoline: nat, pg: nat)
    requires Space(m, r, n, tf, trampoline) && pg in m.owner && m.owner[pg] == Held && SameMap(m, Give(m, pg))
    ensures Space(Give(m, pg), r, n, tf, trampoline)
  {
    hide Pte, UserPages;
    SpaceKept(m, Give(m, pg), r, n, tf, trampoline);
  }

  lemma HeldKeepsOrphans(m: Ram, g: Ram, pg: nat)
    requires NoOrphans(m) && g.tab == m.tab
    requires g.owner == m.owner[pg := Held] || g.owner == m.owner - {pg}
    ensures NoOrphans(g)
  {
  }

  lemma NewIsApart(m: Ram, h: Ram, g: Ram, root: nat)
    requires m.free != [] && m.free[0] !in m.owner && h == Take(m) && SameMap(m, h) && SameOthers(h, g, root)
    requires NoneOf(h, root)
    ensures AllKept(m, g) && forall r: nat, v: nat :: r != root ==> Pte(g, r, v) == Pte(m, r, v)
  {
    hide Pte;
    assert forall pg :: pg in m.owner ==> Foreign(h, pg, root) && h.owner[pg] == m.owner[pg];
  }

  lemma CopiedFrom(m: Ram, h: Ram, g: Ram, all: set<nat>, from: nat, to: nat, n: nat)
    requires PagesOk(m, all) && AllKept(m, h) && UserPages(m, from, n) && Copied(h, g, from, to, n)
    requires forall v: nat :: Pte(h, from, v) == Pte(m, from, v)
    ensures Copied(m, g, from, to, n)
  {
    hide Pte;
    forall v: nat | v < n ensures CopyOf(m, g, from, to, v) {
      assert CopyOf(h, g, from, to, v) && Owned(m, from, v);
    }
  }

  lemma SpawnFailed(m: Ram, g: Ram, procs: map<nat, Info>, trampoline: nat)
    requires Spaces(m, procs, trampoline) && g.owner == m.owner && g.tab.Keys == m.tab.Keys && SameMap(m, g)
    ensures Spaces(g, procs, trampoline)
  {
    hide Pte, Space;
    forall r | r in procs ensures Space(g, r, PagesOf(procs[r].sz), procs[r].trapframe, trampoline) {
      assert RootKey(r) in m.tab.Keys by { HasTree(m, r, PagesOf(procs[r].sz), procs[r].trapframe, trampoline); }
      SpaceKept(m, g, r, PagesOf(procs[r].sz), procs[r].trapframe, trampoline);
    }
  }

  lemma HasTree(m: Ram, r: nat, n: nat, tf: nat, trampoline: nat)
    requires Space(m, r, n, tf, trampoline)
    ensures RootKey(r) in m.tab
  {
  }

  /** The address space of r: its map, its frames and their bytes. */
  ghost predicate Untouched(m: Ram, g: Ram, r: nat) {
    && SameUsers(m, g, r) && (forall v: nat :: Pte(g, r, v) == Pte(m, r, v))
    && (forall pg :: pg in m.owner && m.owner[pg].User? && m.owner[pg].root == r && pg in m.mem ==>
          pg in g.mem && g.mem[pg] == m.mem[pg])
  }

  /** From m to g nothing happened to the memory of these processes. */
  ghost predicate Isolated(m: Ram, g: Ram, who: set<nat>) {
    forall r :: r in who ==> Untouched(m, g, r)
  }

  lemma IsolatedAgain(m: Ram, h: Ram, g: Ram, who: set<nat>)
    requires Isolated(m, h, who) && Isolated(h, g, who)
    ensures Isolated(m, g, who)
  {
    hide Pte;
    forall r | r in who ensures Untouched(m, g, r) { assert Untouched(m, h, r) && Untouched(h, g, r); }
  }

  lemma OthersIsolated(m: Ram, g: Ram, root: nat, who: set<nat>)
    requires SameOthers(m, g, root) && root !in who
    ensures Isolated(m, g, who)
  {
    hide Pte;
    forall r | r in who ensures Untouched(m, g, r) {
      assert forall pg :: pg in m.owner && m.owner[pg].User? && m.owner[pg].root == r ==> Foreign(m, pg, root);
      assert forall pg :: pg in g.owner && g.owner[pg].User? && g.owner[pg].root == r ==> Foreign(g, pg, root);
    }
  }

  /** So do kalloc and kfree of a page that belongs to no process. */
  lemma HeldIsolated(m: Ram, g: Ram, pg: nat, who: set<nat>)
    requires SameMap(m, g) && (pg in m.owner ==> m.owner[pg] == Held) && (pg in g.owner ==> g.owner[pg] == Held)
    requires forall q :: q != pg ==> (q in m.owner <==> q in g.owner)
    requires forall q :: q in m.owner && q != pg ==> g.owner[q] == m.owner[q]
    requires forall q :: q in m.mem && q != pg ==> q in g.mem && g.mem[q] == m.mem[q]
    ensures Isolated(m, g, who)
  {
    hide Pte;
  }

  lemma NothingTouched(m: Ram, who: set<nat>)
    ensures Isolated(m, m, who)
  {
  }

  lemma RestoredIsolated(m: Ram, g: Ram, who: set<nat>)
    requires AsBefore(m, g)
    ensures Isolated(m, g, who)
  {
    hide Pte;
  }

  datatype Op = Spawn | Fork(parent: nat) | Sbrk(p: nat, n: int) | Exit(p: nat)

  /** The process table, as far as memory goes: p->sz and p->trapframe by p->pagetable. */
  class Processes {
    const k: Memory
    var procs: map<nat, Info>
    ghost const base: map<nat, Use>

    ghost predicate Inv()
      reads this, k
    {
      k.Ready() && Spaces(k.Snap(), procs, k.trampoline) && Accounts(k.owner, procs, base)
    }

    constructor (k: Memory)
      requires k.Ready() && NoOrphans(k.Snap())
      ensures Inv() && this.k == k && procs == map[] && base == k.owner
    {
      this.k := k;
      procs := map[];
      base := k.owner;
    }

    /** allocproc. */
    method AllocProc() returns (root: nat)
      requires Inv()
      modifies this, k
      ensures Inv()
      ensures Isolated(old(k.Snap()), k.Snap(), old(procs).Keys)
      ensures root == 0 ==> procs == old(procs) && k.owner == old(k.owner) && |old(k.freelist)| <= 6
      ensures root != 0 ==> root !in old(procs) && root in procs && procs[root].sz == 0
      ensures root != 0 ==> procs == old(procs)[root := procs[root]]
      ensures root != 0 ==> AllKept(old(k.Snap()), k.Snap())
      ensures root != 0 ==> forall r: nat, v: nat :: r in old(procs) ==> Pte(k.Snap(), r, v) == old(Pte(k.Snap(), r, v))
    {
      hide PagesOk, TabOk, TreesOk, Pte, Space, SameOthers, NoOrphans, NoneOf, Accounts, AllKept, UserPages, Isolated;
      ghost var m := k.Snap();
      NothingTouched(m, procs.Keys);
      var tf := k.Kalloc();
      if tf == 0 { return 0; }
      ghost var h := k.Snap();
      HeldIsolated(m, h, tf, procs.Keys);
      HeldKeepsOrphans(m, h, tf);
      root := ProcPagetable(k, tf);
      if root == 0 {
        ghost var g := k.Snap();
        k.Kfree(tf);
        SpawnFailed(m, k.Snap(), procs, k.trampoline);
        RestoredIsolated(h, g, procs.Keys);
        HeldIsolated(g, k.Snap(), tf, procs.Keys);
        IsolatedAgain(m, h, g, procs.Keys);
        IsolatedAgain(m, g, k.Snap(), procs.Keys);
        return;
      }
      BirthSpaces(m, h, k.Snap(), k.all, root, tf, procs, k.trampoline);
      OthersIsolated(h, k.Snap(), root, procs.Keys);
      IsolatedAgain(m, h, k.Snap(), procs.Keys);
      BirthAccounts(m, h, k.Snap(), root, tf, procs, base);
      NewIsApart(m, h, k.Snap(), root);
      procs := procs[root := Info(0, tf)];
    }

    /** freeproc. */
    method FreeProc(root: nat)
      requires Inv() && root in procs
      modifies this, k
      ensures Inv() && procs == old(procs) - {root}
      ensures Isolated(old(k.Snap()), k.Snap(), procs.Keys)
    {
      hide PagesOk, TabOk, TreesOk, Pte, SameOthers, NoOrphans, NoneOf, Accounts, AllKept, UserPages, Isolated;
      ghost var m := k.Snap();
      var info := procs[root];
      HasTrapframe(k.owner, procs, base, root);
      k.Kfree(info.trapframe);
      ghost var h := k.Snap();
      HeldKeepsOrphans(m, h, info.trapframe);
      GiveKeepsSpace(m, root, PagesOf(info.sz), info.trapframe, k.trampoline, info.trapframe);
      ProcFreepagetable(k, root, info.sz, info.trapframe);
      DeathSpaces(m, h, k.Snap(), root, procs, k.trampoline, info.trapframe);
      DeathAccounts(m, h, k.Snap(), root, procs, base);
      procs := procs - {root};
      HeldIsolated(m, h, info.trapframe, procs.Keys);
      OthersIsolated(h, k.Snap(), root, procs.Keys);
      IsolatedAgain(m, h, k.Snap(), procs.Keys);
    }

    /** sys_sbrk: growproc for process root. The old size, or -1 with everything as it was. */
    method GrowProc(root: nat, n: int) returns (r: int)
      requires Inv() && root in procs && -0x8000_0000 <= n < 0x8000_0000
      modifies this, k
      ensures Inv() && root in procs
      ensures r != -1 ==> var sz := old(procs)[root].sz;
                r == sz && procs == old(procs)[root := old(procs)[root].(sz := if sz + n >= 0 then sz + n else sz)]
      ensures Isolated(old(k.Snap()), k.Snap(), procs.Keys - {root})
      ensures BytesKept(old(k.Snap()), k.Snap(), root,
                        PagesOf(if procs[root].sz < old(procs)[root].sz then procs[root].sz else old(procs)[root].sz))
      ensures r == -1 ==> procs == old(procs) && n > 0
      ensures r == -1 ==> |old(k.freelist)| <= 3 * (PagesOf(old(procs)[root].sz + n) - PagesOf(old(procs)[root].sz))
    {
      hide PagesOk, TabOk, TreesOk, Pte, SameOthers, NoOrphans, Accounts, UserPages, Isolated, BytesKept;
      ghost var m := k.Snap();
      var info := procs[root];
      var ret, newsz := Growproc(k, root, info.sz, n, info.trapframe);
      StepKeepsSpaces(m, k.Snap(), root, procs, Info(newsz, info.trapframe), k.trampoline);
      StepKeepsAccounts(m, k.Snap(), root, procs, Info(newsz, info.trapframe), base);
      procs := procs[root := Info(newsz, info.trapframe)];
      OthersIsolated(m, k.Snap(), root, procs.Keys - {root});
      if ret < 0 { return -1; }
      return info.sz;
    }

    /** fork's memory part. The child has the parent's size, flags and bytes; if memory runs out nothing is left of
        it. */
    method ForkProc(parent: nat) returns (child: nat)
      requires Inv() && parent in procs
      modifies this, k
      ensures Inv()
      ensures Isolated(old(k.Snap()), k.Snap(), old(procs).Keys)
      ensures child == 0 ==> procs == old(procs)
      ensures child != 0 ==> child !in old(procs) && child in procs && procs[child].sz == old(procs)[parent].sz
      ensures child != 0 ==> procs == old(procs)[child := procs[child]]
      ensures child != 0 ==> Copied(old(k.Snap()), k.Snap(), parent, child, PagesOf(procs[child].sz))
    {
      hide PagesOk, TabOk, TreesOk, Pte, SameOthers, NoOrphans, Accounts, AllKept, UserPages, Copied, SpecialsKept,
           Isolated;
      ghost var m := k.Snap();
      var sz := procs[parent].sz;
      assert Space(m, parent, PagesOf(sz), procs[parent].trapframe, k.trampoline);
      child := AllocProc();
      if child == 0 { return; }
      ghost var h := k.Snap();
      var info := procs[child];
      assert Space(h, parent, PagesOf(sz), procs[parent].trapframe, k.trampoline);
      assert Space(h, child, 0, info.trapframe, k.trampoline);
      var r := k.Uvmcopy(parent, child, sz);
      ghost var n := if r == 0 then PagesOf(sz) else 0;
      CopySpace(h, k.Snap(), child, n, info.trapframe, k.trampoline);
      OrphansKept(h, k.Snap(), child);
      OthersIsolated(h, k.Snap(), child, old(procs).Keys);
      IsolatedAgain(m, h, k.Snap(), old(procs).Keys);
      if r < 0 {
        ghost var g := k.Snap();
        StepKeepsSpaces(h, k.Snap(), child, procs, info, k.trampoline);
        StepKeepsAccounts(h, k.Snap(), child, procs, info, base);
        assert procs[child := info] == procs;
        FreeProc(child);
        assert procs == old(procs);
        IsolatedAgain(m, g, k.Snap(), procs.Keys);
        return 0;
      }
      StepKeepsSpaces(h, k.Snap(), child, procs, info.(sz := sz), k.trampoline);
      StepKeepsAccounts(h, k.Snap(), child, procs, info.(sz := sz), base);
      CopiedFrom(m, h, k.Snap(), k.all, parent, child, PagesOf(sz));
      procs := procs[child := info.(sz := sz)];
    }

    /** Any run of these operations by any processes, after which those that are left exit: every page that was taken is
        back on the free list, once. */
    method Run(ops: seq<Op>)
      requires Inv() && procs == map[]
      modifies this, k
      ensures Inv() && procs == map[] && k.owner == old(k.owner)
      ensures forall pg :: pg in k.freelist <==> pg in old(k.freelist)
      ensures Distinct(k.freelist)
    {
      hide PagesOk, TabOk, TreesOk, Spaces, Accounts;
      ghost var m := k.Snap();
      NobodyLeft(k.owner, base);
      for i := 0 to |ops|
        invariant Inv()
      {
        match ops[i]
        case Spawn => { var _ := AllocProc(); }
        case Fork(p) => { if p in procs { var _ := ForkProc(p); } }
        case Sbrk(p, n) => { if p in procs && -0x8000_0000 <= n < 0x8000_0000 { var _ := GrowProc(p, n); } }
        case Exit(p) => { if p in procs { FreeProc(p); } }
      }
      while procs != map[]
        invariant Inv()
        decreases |procs|
      {
        var p :| p in procs;
        FewerLeft(procs, p);
        FreeProc(p);
      }
      NobodyLeft(k.owner, base);
      SameFreePages(m, k.Snap(), k.all);
    }
  }

  /** From kinit on: after any run, every page between end and PHYSTOP is free again. */
  method FromKinit(end: nat, trampoline: nat, ops: seq<Op>) returns (k: Memory)
    requires end >= KERNBASE
    ensures k.Ready() && k.owner == map[]
    ensures Distinct(k.freelist) && forall pg :: pg in k.freelist <==> PagesOf(end) <= pg < PHYSTOP / PGSIZE
  {
    hide PagesOk, TabOk, TreesOk, Spaces, Accounts;
    k := new Memory.Kinit(end, trampoline);
    AllThere(k.freelist, PagesOf(end), PHYSTOP / PGSIZE);
    var all := new Processes(k);
    all.Run(ops);
  }

  lemma AllThere(free: seq<nat>, lo: nat, hi: nat)
    requires |free| == Max(hi - lo, 0) && Descends(free, hi)
    ensures forall pg :: pg in free <==> lo <= pg < hi
  {
    forall pg | lo <= pg < hi ensures pg in free { assert free[hi - 1 - pg] == pg; }
  }

  lemma HasTrapframe(owner: map<nat, Use>, procs: map<nat, Info>, base: map<nat, Use>, r: nat)
    requires Accounts(owner, procs, base) && r in procs
    ensures procs[r].trapframe in owner && owner[procs[r].trapframe] == Held
  {
  }

  lemma CopySpace(m: Ram, g: Ram, root: nat, n: nat, tf: nat, trampoline: nat)
    requires Space(m, root, 0, tf, trampoline) && RootKey(root) in g.tab && UserPages(g, root, n)
    requires SpecialsKept(m, g, root)
    ensures Space(g, root, n, tf, trampoline)
  {
    hide Pte, UserPages;
  }

  lemma NobodyLeft(owner: map<nat, Use>, base: map<nat, Use>)
    ensures Accounts(owner, map[], base) ==> owner == base
  {
  }

  lemma FewerLeft(procs: map<nat, Info>, p: nat)
    requires p in procs
    ensures |procs - {p}| < |procs|
  {
    assert procs.Keys == (procs - {p}).Keys + {p};
  }

  lemma SameFreePages(m: Ram, g: Ram, all: set<nat>)
    requires Valid(m, all, {}) && Valid(g, all, {}) && g.owner == m.owner
    ensures forall pg :: pg in g.free <==> pg in m.free
    ensures Distinct(g.free)
  {
  }
}
