/** Sv39 page tables in physical memory (kernel/vm.c, kernel/riscv.h, kernel/kalloc.c; section 4.4 of the RISC-V
    Privileged Architecture specification, version 20211203). Pages are named by their physical page number, the address
    divided by PGSIZE; a page holds 512 words. Page 0 is no RAM, so 0 stands for a null pointer. */
module PageTable {
  import opened Common

  const PGSIZE := 4096
  const MAXVA := 0x40_0000_0000
  /** Pages of RAM: PHYSTOP - KERNBASE. */
  const RAM_PAGES := 0x8000

  const PTE_V := 1
  const PTE_R := 2
  const PTE_W := 4
  const PTE_X := 8
  const PTE_U := 16

  type Page = s: seq<nat> | |s| == 512 witness seq(512, _ => 0)

  /** A page filled with one word (memset). */
  function Filled(w: nat): (p: Page)
    ensures forall i :: 0 <= i < 512 ==> p[i] == w
  {
    seq(512, _ => w)
  }

  // ----- words -----

  /** The index of va at a level of the tree (PX). */
  function Px(level: nat, va: nat): (i: nat)
    requires level <= 2
    ensures i < 512
  {
    if level == 0 then va / 4096 % 512 else if level == 1 then va / 2097152 % 512 else va / 1073741824 % 512
  }

  /** Below MAXVA the three indices and the offset lose nothing. */
  lemma IndicesLoseNothing(va: nat)
    requires va < MAXVA
    ensures va == Px(2, va) * 1073741824 + Px(1, va) * 2097152 + Px(0, va) * 4096 + va % 4096
  {
    assert va / 2097152 == va / 4096 / 512 && va / 1073741824 == va / 4096 / 512 / 512;
  }

  /** PA2PTE(pa) | perm | PTE_V for the page pg and a perm of flag bits. */
  function MakePte(pg: nat, perm: nat): (w: nat)
    requires perm < 1024
    ensures PteValid(w) && PtePage(w) == pg
    ensures PteFlags(w) == if perm % 2 == 1 then perm else perm + 1
  {
    var f := if perm % 2 == 1 then perm else perm + PTE_V;
    Pack(pg, f);
    pg * 1024 + f
  }

  lemma Pack(pg: nat, f: nat)
    requires f < 1024 && f % 2 == 1
    ensures (pg * 1024 + f) / 1024 == pg && (pg * 1024 + f) % 1024 == f && (pg * 1024 + f) % 2 == 1
  {
  }

  /** The shifts and masks of PA2PTE, PTE2PA and PTE_FLAGS on words lose nothing of a page address and its flags. */
  lemma PackedBits(pa: bv64, perm: bv64)
    requires pa & 0xfff == 0 && pa < 0x100_0000_0000_0000 && perm < 0x400
    ensures var w := ((pa >> 12) << 10) | perm; (w >> 10) << 12 == pa && w & 0x3ff == perm
  {
  }

  predicate PteValid(w: nat) { w % 2 == 1 }

  function PtePage(w: nat): nat { w / 1024 }

  function PteFlags(w: nat): (f: nat) { w % 1024 }

  /** A valid entry that maps a readable page. */
  predicate Leaf(w: nat) {
    PteValid(w) && PteFlags(w) / 2 % 2 == 1
  }

  // ----- the tree -----

  /** A page of a tree: the page at `level` below `root` for the addresses whose page number starts with `prefix`. */
  datatype Key = Key(root: nat, level: nat, prefix: nat)

  function RootKey(root: nat): Key { Key(root, 2, 0) }

  /** The page at level 0 for page number v. */
  function LeafKey(root: nat, v: nat): Key { Key(root, 0, v / 512) }

  function Child(k: Key, i: nat): (c: Key)
    requires k.level > 0 && i < 512
    ensures c.level < 2 ==> Parent(c) == k
  {
    Key(k.root, k.level - 1, k.prefix * 512 + i)
  }

  function Parent(k: Key): Key {
    Key(k.root, k.level + 1, k.prefix / 512)
  }

  /** Who owns an allocated page: a tree, a process as its page number v, or somebody else. */
  datatype Use = Table(key: Key) | User(root: nat, v: nat) | Held

  /** Memory, kmem.freelist, where the trees have their pages, and the owner of each allocated page. */
  datatype Ram = Ram(mem: map<nat, Page>, free: seq<nat>, tab: map<Key, nat>, owner: map<nat, Use>)

  /** Every page is on the free list once or has one owner. */
  ghost predicate PagesOk(m: Ram, all: set<nat>) {
    && m.mem.Keys == all && 0 !in all && |all| <= RAM_PAGES
    && Distinct(m.free)
    && (forall pg :: pg in all <==> pg in m.free || pg in m.owner)
    && (forall pg :: pg in m.free ==> pg !in m.owner)
  }

  /** tab is the inverse of owner on table pages. */
  ghost predicate TabOk(m: Ram) {
    && (forall k :: k in m.tab ==> m.tab[k] in m.owner && m.owner[m.tab[k]] == Table(k) && m.tab[k] in m.mem)
    && (forall pg :: pg in m.owner && m.owner[pg].Table? ==> m.owner[pg].key in m.tab && m.tab[m.owner[pg].key] == pg)
    && (forall k :: k in m.tab ==> k.level <= 2 && (k.level == 2 ==> k.prefix == 0 && m.tab[k] == k.root))
  }

  /** Entry i of table k is empty, or names the page of its child. */
  ghost predicate EntryOk(m: Ram, k: Key, i: nat)
    requires k in m.tab && m.tab[k] in m.mem && k.level > 0 && i < 512
  {
    var w := m.mem[m.tab[k]][i];
    if Child(k, i) in m.tab then w == MakePte(m.tab[Child(k, i)], 0) else w == 0
  }

  /** The tables form trees, except that keys in `cut` may hang loose. */
  ghost predicate TreesOk(m: Ram, cut: set<Key>)
    requires TabOk(m)
  {
    && (forall k, i :: k in m.tab && k.level > 0 && i < 512 && Child(k, i) !in cut ==> EntryOk(m, k, i))
    && (forall k :: k in m.tab && k.level < 2 && k !in cut ==> Parent(k) in m.tab)
  }

  ghost predicate Valid(m: Ram, all: set<nat>, cut: set<Key>) {
    PagesOk(m, all) && TabOk(m) && TreesOk(m, cut)
  }

  /** The flat map: the entry for page number v in the tree of root, 0 if there is none. */
  ghost function Pte(m: Ram, root: nat, v: nat): nat {
    if LeafKey(root, v) in m.tab && m.tab[LeafKey(root, v)] in m.mem then m.mem[m.tab[LeafKey(root, v)]][v % 512] else 0
  }

  // ----- what the hardware does -----

  /** Virtual address translation (section 4.3.2 of the RISC-V Privileged Architecture) with three levels: follow the
      valid entries from page pg; the entry at level 0, or 0 where the walk ends before. */
  function HardwareWalk(mem: map<nat, Page>, pg: nat, level: nat, va: nat): nat
    requires level <= 2
    decreases level
  {
    if pg !in mem then 0
    else
      var w := mem[pg][Px(level, va)];
      if level == 0 then w else if PteValid(w) then HardwareWalk(mem, PtePage(w), level - 1, va) else 0
  }

  /** The key at a level on the way to va. */
  function KeyAt(root: nat, level: nat, va: nat): Key {
    if level == 0 then LeafKey(root, va / 4096)
    else if level == 1 then Key(root, 1, va / 4096 / 262144)
    else RootKey(root)
  }

  lemma KeysOnTheWay(root: nat, level: nat, va: nat)
    requires 1 <= level <= 2 && va < MAXVA
    ensures Child(KeyAt(root, level, va), Px(level, va)) == KeyAt(root, level - 1, va)
    ensures Parent(KeyAt(root, level - 1, va)) == KeyAt(root, level, va)
  {
    assert va / 2097152 == va / 4096 / 512 && va / 1073741824 == va / 4096 / 262144;
  }

  lemma HardwareAt(m: Ram, all: set<nat>, root: nat, level: nat, va: nat)
    requires Valid(m, all, {}) && level <= 2 && va < MAXVA && KeyAt(root, level, va) in m.tab
    ensures HardwareWalk(m.mem, m.tab[KeyAt(root, level, va)], level, va) == Pte(m, root, va / 4096)
  {
    var k := KeyAt(root, level, va);
    if level > 0 {
      KeysOnTheWay(root, level, va);
      assert EntryOk(m, k, Px(level, va));
      if KeyAt(root, level - 1, va) in m.tab {
        HardwareAt(m, all, root, level - 1, va);
      } else {
        NoLeafBelow(m, all, root, level - 1, va);
      }
    }
  }

  lemma NoLeafBelow(m: Ram, all: set<nat>, root: nat, level: nat, va: nat)
    requires Valid(m, all, {}) && level <= 1 && va < MAXVA && KeyAt(root, level, va) !in m.tab
    ensures LeafKey(root, va / 4096) !in m.tab
  {
    if level == 1 { KeysOnTheWay(root, 1, va); }
  }

  /** The three-level tree that the hardware walks refines the flat map. */
  lemma HardwareSeesFlatMap(m: Ram, all: set<nat>, root: nat, va: nat)
    requires Valid(m, all, {}) && RootKey(root) in m.tab && va < MAXVA
    ensures HardwareWalk(m.mem, root, 2, va) == Pte(m, root, va / 4096)
  {
    HardwareAt(m, all, root, 2, va);
  }

  // ----- steps on memory -----

  /** kalloc: the first free page, filled with junk. */
  function Take(m: Ram): (g: Ram)
    requires m.free != []
  {
    m.(free := m.free[1..], owner := m.owner[m.free[0] := Held], mem := m.mem[m.free[0] := Filled(0x0505050505050505)])
  }

  /** Steps that leave the tables alone. */
  lemma SameTables(m: Ram, g: Ram, cut: set<Key>)
    requires TabOk(m) && TreesOk(m, cut) && TabOk(g) && g.tab == m.tab
    requires forall k :: k in m.tab ==> g.mem[m.tab[k]] == m.mem[m.tab[k]]
    ensures TreesOk(g, cut)
    ensures forall r, v :: Pte(g, r, v) == Pte(m, r, v)
  {
    forall k, i | k in m.tab && k.level > 0 && i < 512 && Child(k, i) !in cut ensures EntryOk(g, k, i) {
      assert EntryOk(m, k, i);
    }
  }

  lemma TakePages(m: Ram, all: set<nat>)
    requires PagesOk(m, all) && m.free != []
    ensures PagesOk(Take(m), all) && m.free[0] !in m.owner && m.free[0] in all && m.free[0] != 0
  {
    var g := Take(m);
    assert m.free == [m.free[0]] + g.free;
    assert forall pg :: pg in m.free <==> pg == m.free[0] || pg in g.free;
  }

  lemma TakeValid(m: Ram, all: set<nat>, cut: set<Key>)
    requires Valid(m, all, cut) && m.free != []
    ensures Valid(Take(m), all, cut) && m.free[0] !in m.owner && m.free[0] in all && m.free[0] != 0
    ensures forall r, v :: Pte(Take(m), r, v) == Pte(m, r, v)
  {
    hide PagesOk, TreesOk, Pte;
    TakePages(m, all);
    SameTables(m, Take(m), cut);
  }

  /** kfree: junk in the page, and the page in front of the list. */
  function Give(m: Ram, pg: nat): (g: Ram) {
    m.(free := [pg] + m.free, owner := m.owner - {pg}, mem := m.mem[pg := Filled(0x0101010101010101)])
  }

  lemma GiveValid(m: Ram, all: set<nat>, cut: set<Key>, pg: nat)
    requires Valid(m, all, cut) && pg in m.owner && !m.owner[pg].Table?
    ensures Valid(Give(m, pg), all, cut)
    ensures forall r, v :: Pte(Give(m, pg), r, v) == Pte(m, r, v)
  {
    hide TreesOk, Pte;
    SameTables(m, Give(m, pg), cut);
  }

  /** *pte = w for entry i of page pg. */
  function Store(m: Ram, pg: nat, i: nat, w: nat): Ram
    requires pg in m.mem && i < 512
  {
    m.(mem := m.mem[pg := m.mem[pg][i := w]])
  }

  /** Writing an entry at level 0 changes the flat map at one place. */
  lemma StoreLeaf(m: Ram, all: set<nat>, cut: set<Key>, root: nat, v: nat, w: nat)
    requires Valid(m, all, cut) && LeafKey(root, v) in m.tab
    ensures var pg := m.tab[LeafKey(root, v)]; pg in m.mem && Valid(Store(m, pg, v % 512, w), all, cut)
    ensures var g := Store(m, m.tab[LeafKey(root, v)], v % 512, w);
            forall r, u :: Pte(g, r, u) == if r == root && u == v then w else Pte(m, r, u)
  {
    var pg := m.tab[LeafKey(root, v)];
    var g := Store(m, pg, v % 512, w);
    assert forall k, i :: k in m.tab && k.level > 0 && i < 512 && Child(k, i) !in cut ==>
        EntryOk(m, k, i) && EntryOk(g, k, i);
    forall r: nat, u: nat ensures Pte(g, r, u) == if r == root && u == v then w else Pte(m, r, u) {
      assert u == v <==> u / 512 == v / 512 && u % 512 == v % 512;
    }
  }

  /** walk's lines for a missing table: the page pg, zeroed, becomes the child i of table k. */
  function Grow(m: Ram, k: Key, i: nat, pg: nat): Ram
    requires k in m.tab && m.tab[k] in m.mem && k.level > 0 && i < 512
  {
    Ram(m.mem[pg := Filled(0)][m.tab[k] := m.mem[m.tab[k]][i := MakePte(pg, 0)]], m.free, m.tab[Child(k, i) := pg],
        m.owner[pg := Table(Child(k, i))])
  }

  lemma GrowPages(m: Ram, all: set<nat>, k: Key, i: nat, pg: nat)
    requires PagesOk(m, all) && TabOk(m) && k in m.tab && k.level > 0 && i < 512 && pg in m.owner
    ensures PagesOk(Grow(m, k, i, pg), all)
  {
  }

  lemma GrowTab(m: Ram, k: Key, i: nat, pg: nat)
    requires TabOk(m) && k in m.tab && k.level > 0 && i < 512 && Child(k, i) !in m.tab
    requires pg in m.owner && m.owner[pg] == Held
    ensures TabOk(Grow(m, k, i, pg))
  {
  }

  lemma GrowValid(m: Ram, all: set<nat>, k: Key, i: nat, pg: nat)
    requires Valid(m, all, {}) && k in m.tab && k.level > 0 && i < 512 && Child(k, i) !in m.tab
    requires pg in m.owner && m.owner[pg] == Held
    ensures Valid(Grow(m, k, i, pg), all, {})
  {
    hide PagesOk;
    GrowPages(m, all, k, i, pg);
    GrowTab(m, k, i, pg);
    var g := Grow(m, k, i, pg);
    forall a, j | a in g.tab && a.level > 0 && j < 512 ensures EntryOk(g, a, j) {
      if a == Child(k, i) {
        assert Child(a, j) !in m.tab by { assert Parent(Child(a, j)) == a; }
      } else {
        assert EntryOk(m, a, j);
        assert Child(a, j) == Child(k, i) ==> a == k && j == i;
      }
    }
  }

  /** Growing a tree changes no translation. */
  lemma GrowKeepsFlatMap(m: Ram, all: set<nat>, k: Key, i: nat, pg: nat)
    requires Valid(m, all, {}) && k in m.tab && k.level > 0 && i < 512 && Child(k, i) !in m.tab
    requires pg in m.owner && m.owner[pg] == Held
    ensures forall r, v :: Pte(Grow(m, k, i, pg), r, v) == Pte(m, r, v)
  {
  }

  // ----- taking a tree down -----

  /** The prefix of x at a level above it. */
  function Up(x: Key, level: nat): nat {
    if level <= x.level then x.prefix else if level == x.level + 1 then x.prefix / 512 else x.prefix / 262144
  }

  /** x is k or below it in the same tree. */
  predicate Under(x: Key, k: Key) {
    x.root == k.root && x.level <= k.level <= 2 && Up(x, k.level) == k.prefix
  }

  /** The entry of k through which x is reached. */
  function Via(x: Key, k: Key): (i: nat)
    requires k.level > 0
    ensures i < 512
  {
    Up(x, k.level - 1) % 512
  }

  lemma UnderChild(x: Key, k: Key, i: nat)
    requires 1 <= k.level <= 2 && i < 512
    ensures Under(x, Child(k, i)) <==> Under(x, k) && x.level < k.level && Via(x, k) == i
  {
  }

  /** freewalk's last line: the page of table k goes to the free list. */
  function Drop(m: Ram, k: Key): Ram
    requires k in m.tab
  {
    Give(m, m.tab[k]).(tab := m.tab - {k})
  }

  lemma DropPages(m: Ram, all: set<nat>, k: Key)
    requires PagesOk(m, all) && TabOk(m) && k in m.tab
    ensures PagesOk(Drop(m, k), all) && TabOk(Drop(m, k))
  {
  }

  lemma DropValid(m: Ram, all: set<nat>, cut: set<Key>, k: Key)
    requires Valid(m, all, cut) && k in m.tab && (k.level < 2 ==> k in cut)
    requires forall i :: 0 <= i < 512 && k.level > 0 ==> Child(k, i) !in m.tab
    ensures Valid(Drop(m, k), all, cut)
  {
    hide PagesOk;
    DropPages(m, all, k);
    var g := Drop(m, k);
    forall a, j | a in g.tab && a.level > 0 && j < 512 && Child(a, j) !in cut ensures EntryOk(g, a, j) {
      assert EntryOk(m, a, j);
    }
    forall a | a in g.tab && a.level < 2 && a !in cut ensures Parent(a) in g.tab {
      assert a == Child(Parent(a), a.prefix % 512);
    }
  }

  lemma DropKeepsFlatMap(m: Ram, k: Key)
    requires TabOk(m) && k in m.tab && forall v :: Pte(m, k.root, v) == 0
    ensures forall r, v :: Pte(Drop(m, k), r, v) == Pte(m, r, v)
  {
  }

  /** freewalk's line that clears the entry of a child that is gone. */
  lemma ClearEntry(m: Ram, all: set<nat>, cut: set<Key>, k: Key, i: nat)
    requires 1 <= k.level <= 2 && i < 512 && k in m.tab && Child(k, i) !in m.tab && Valid(m, all, cut + {Child(k, i)})
    ensures m.tab[k] in m.mem && Valid(Store(m, m.tab[k], i, 0), all, cut)
    ensures forall r, v :: Pte(Store(m, m.tab[k], i, 0), r, v) == Pte(m, r, v)
  {
    var g := Store(m, m.tab[k], i, 0);
    hide PagesOk;
    forall a, j | a in g.tab && a.level > 0 && j < 512 && Child(a, j) !in cut ensures EntryOk(g, a, j) {
      assert Child(a, j) == Child(k, i) <==> a == k && j == i;
      assert Child(a, j) != Child(k, i) ==> EntryOk(m, a, j);
    }
  }
}
