/** The user-level allocator (user/umalloc.c; The C Programming Language, 2nd ed., section 8.7). Addresses count
    units of sizeof(Header) = 16 bytes. */
module Malloc {

  /** The header words of all blocks, and who they belong to: `ring` is the free list from &base on, `live` the blocks
      handed out, `own` maps every unit obtained from sbrk to the block it lies in. */
  datatype Heap = Heap(ptr: map<int, int>, size: map<int, int>, ring: seq<int>, live: set<int>, own: map<int, int>)

  /** Following s.ptr from s[0] visits s and comes back. */
  ghost predicate Linked(ptr: map<int, int>, s: seq<int>) {
    && s != [] && (forall j :: 0 <= j < |s| ==> s[j] in ptr)
    && (forall i, j :: 0 <= i < j < |s| && j == i + 1 ==> ptr[s[i]] == s[j])
    && ptr[s[|s| - 1]] == s[0]
  }

  ghost predicate Ascending(s: seq<int>) {
    forall i, j :: 0 <= i < j < |s| ==> s[i] < s[j]
  }

  /** The free list is one cycle in address order from base on; free blocks do not overlap. */
  ghost predicate RingOk(h: Heap, base: int) {
    && Linked(h.ptr, h.ring) && Ascending(h.ring) && h.ring[0] == base > 0
    && (forall k :: 0 <= k < |h.ring| ==> h.ring[k] in h.size)
    && h.size[base] == 0
    && (forall k :: 1 <= k < |h.ring| ==> h.size[h.ring[k]] > 0)
    && (forall j, k :: 1 <= j < k < |h.ring| ==> h.ring[j] + h.size[h.ring[j]] <= h.ring[k])
  }

  /** Neighbours k and k+1 of the list touch. Nothing touches base. */
  predicate Touching(h: Heap, k: nat) {
    && 1 <= k < |h.ring| - 1 && h.ring[k] in h.size && h.ring[k + 1] in h.size && h.ring[k + 1] in h.ptr
    && h.ring[k] + h.size[h.ring[k]] == h.ring[k + 1]
  }

  /** b is a block, free or live. */
  ghost predicate IsBlock(h: Heap, base: int, b: int) {
    b in h.live || (b in h.ring && b != base)
  }

  /** Free and live blocks partition the units obtained. */
  ghost predicate Partition(h: Heap, base: int) {
    && (forall b :: b in h.live ==> b !in h.ring)
    && (forall b :: IsBlock(h, base, b) ==> b > base && b in h.size && h.size[b] > 0)
    && (forall u :: u in h.own ==> IsBlock(h, base, h.own[u]) && h.own[u] <= u < h.own[u] + h.size[h.own[u]])
    && (forall b, u :: IsBlock(h, base, b) && b <= u < b + h.size[b] ==> u in h.own && h.own[u] == b)
  }

  lemma PartitionFrom(g: Heap, base: int)
    requires forall b :: b in g.live ==> b !in g.ring
    requires forall b :: IsBlock(g, base, b) ==> b > base && b in g.size && g.size[b] > 0
    requires forall u :: u in g.own ==>
               IsBlock(g, base, g.own[u]) && g.own[u] in g.size && g.own[u] <= u < g.own[u] + g.size[g.own[u]]
    requires forall b, u :: IsBlock(g, base, b) && b <= u < b + g.size[b] ==> u in g.own && g.own[u] == b
    ensures Partition(g, base)
  {
  }

  ghost predicate Sound(h: Heap, base: int) {
    RingOk(h, base) && Partition(h, base)
  }

  /** The invariant between calls: no two free blocks touch either. */
  ghost predicate Valid(h: Heap, base: int) {
    Sound(h, base) && forall k :: 1 <= k < |h.ring| - 1 ==> !Touching(h, k)
  }

  // ----- putting a block into the free list -----

  /** Position t of the free list is where block bp belongs: the last element below it. */
  ghost predicate Before(ring: seq<int>, t: nat, bp: int) {
    t < |ring| && ring[t] < bp && (t + 1 < |ring| ==> bp < ring[t + 1])
  }

  lemma BeforeRange(ring: seq<int>, t: nat, bp: int)
    requires Before(ring, t, bp)
    ensures t < |ring|
  {
  }

  function Insert(h: Heap, t: nat, bp: int): (g: Heap)
    requires t < |h.ring| && h.ring[t] in h.ptr
    ensures g.live == h.live - {bp} && g.own == h.own
  {
    h.(ptr := h.ptr[bp := h.ptr[h.ring[t]]][h.ring[t] := bp],
       ring := InsertAt(h.ring, t, bp),
       live := h.live - {bp})
  }

  /** Blocks that do not overlap and are ordered lie apart. */
  lemma Apart(h: Heap, base: int, b: int, c: int)
    requires Partition(h, base) && IsBlock(h, base, b) && IsBlock(h, base, c) && b < c
    ensures b + h.size[b] <= c
  {
    assert h.own[c] == c;
    assert forall x :: IsBlock(h, base, x) && x <= c < x + h.size[x] ==> h.own[c] == x;
  }

  lemma LinkedInsert(ptr: map<int, int>, s: seq<int>, t: nat, x: int)
    requires Linked(ptr, s) && Ascending(s) && t < |s| && x !in s
    ensures Linked(ptr[x := ptr[s[t]]][s[t] := x], InsertAt(s, t, x))
  {
  }

  function InsertAt(s: seq<int>, t: nat, x: int): (r: seq<int>)
    requires t < |s|
    ensures |r| == |s| + 1
    ensures forall j :: 0 <= j < |r| ==> r[j] == if j <= t then s[j] else if j == t + 1 then x else s[j - 1]
  {
    s[..t + 1] + [x] + s[t + 1..]
  }

  lemma InsertAscending(s: seq<int>, t: nat, x: int)
    requires Ascending(s) && Before(s, t, x)
    ensures Ascending(InsertAt(s, t, x)) && x !in s
  {
  }

  lemma InsertRing(h: Heap, base: int, t: nat, bp: int)
    requires RingOk(h, base) && Before(h.ring, t, bp) && bp in h.size && h.size[bp] > 0 && h.ring[t] in h.ptr
    requires t > 0 ==> h.ring[t] + h.size[h.ring[t]] <= bp
    requires t + 1 < |h.ring| ==> bp + h.size[bp] <= h.ring[t + 1]
    ensures RingOk(Insert(h, t, bp), base)
  {
    hide Linked, Ascending;
    InsertAscending(h.ring, t, bp);
    LinkedInsert(h.ptr, h.ring, t, bp);
    var g := Insert(h, t, bp);
    forall j, k | 1 <= j < k < |g.ring| ensures g.ring[j] in g.size && g.ring[j] + g.size[g.ring[j]] <= g.ring[k] {
      InsertGap(h, base, t, bp, j, k);
    }
  }

  lemma InsertGap(h: Heap, base: int, t: nat, bp: int, j: nat, k: nat)
    requires RingOk(h, base) && Before(h.ring, t, bp) && bp in h.size && h.size[bp] > 0
    requires t > 0 ==> h.ring[t] + h.size[h.ring[t]] <= bp
    requires t + 1 < |h.ring| ==> bp + h.size[bp] <= h.ring[t + 1]
    requires 1 <= j < k < |h.ring| + 1
    ensures var r := InsertAt(h.ring, t, bp); r[j] in h.size && r[j] + h.size[r[j]] <= r[k]
  {
    hide Linked, Ascending;
    if j < t && k == t + 1 {
      assert h.ring[j] + h.size[h.ring[j]] <= h.ring[t];
    } else if j == t + 1 && k > t + 2 {
      assert h.ring[t + 1] + h.size[h.ring[t + 1]] <= h.ring[k - 1];
    }
  }

  /** Only the gaps on both sides of the new element are new. */
  lemma InsertTouching(h: Heap, base: int, t: nat, bp: int, k: nat)
    requires RingOk(h, base) && t < |h.ring| && k != t && k != t + 1
    ensures Touching(Insert(h, t, bp), k) <==> Touching(h, if k < t then k else k - 1)
  {
  }

  lemma InsertSound(h: Heap, base: int, t: nat, bp: int)
    requires Sound(h, base) && bp in h.live && Before(h.ring, t, bp)
    ensures Sound(Insert(h, t, bp), base)
  {
    assert IsBlock(h, base, bp);
    if t > 0 { Apart(h, base, h.ring[t], bp); }
    if t + 1 < |h.ring| { Apart(h, base, bp, h.ring[t + 1]); }
    InsertRing(h, base, t, bp);
    InsertPartition(h, base, t, bp);
  }

  lemma InsertPartition(h: Heap, base: int, t: nat, bp: int)
    requires Sound(h, base) && bp in h.live && t < |h.ring|
    ensures Partition(Insert(h, t, bp), base)
  {
    var g := Insert(h, t, bp);
    assert forall b :: b in g.ring <==> b in h.ring || b == bp;
    assert forall b :: IsBlock(g, base, b) <==> IsBlock(h, base, b);
  }

  // ----- joining two neighbours that touch -----

  function Merge(h: Heap, k: nat): (g: Heap)
    requires Touching(h, k)
    ensures g.live == h.live && g.own.Keys == h.own.Keys
  {
    var p, q := h.ring[k], h.ring[k + 1];
    h.(ptr := h.ptr[p := h.ptr[q]],
       size := h.size[p := h.size[p] + h.size[q]],
       ring := RemoveAt(h.ring, k + 1),
       own := map u | u in h.own :: if h.own[u] == q then p else h.own[u])
  }

  function RemoveAt(s: seq<int>, k: nat): (r: seq<int>)
    requires k < |s|
    ensures |r| == |s| - 1 && forall j :: 0 <= j < |r| ==> r[j] == if j < k then s[j] else s[j + 1]
  {
    s[..k] + s[k + 1..]
  }

  lemma RemoveAscending(s: seq<int>, k: nat)
    requires Ascending(s) && k < |s|
    ensures Ascending(RemoveAt(s, k))
  {
  }

  lemma LinkedRemove(ptr: map<int, int>, s: seq<int>, k: nat)
    requires Linked(ptr, s) && Ascending(s) && k < |s| - 1
    ensures Linked(ptr[s[k] := ptr[s[k + 1]]], RemoveAt(s, k + 1))
  {
  }

  lemma MergeGap(h: Heap, base: int, k: nat, i: nat, j: nat)
    requires RingOk(h, base) && Touching(h, k) && 1 <= i < j < |h.ring| - 1
    ensures var g := Merge(h, k); g.ring[i] in g.size && g.ring[i] + g.size[g.ring[i]] <= g.ring[j]
  {
    hide Linked;
    if i == k { assert h.ring[k + 1] + h.size[h.ring[k + 1]] <= h.ring[j + 1]; }
  }

  lemma MergeSize(h: Heap, base: int, k: nat, j: nat)
    requires RingOk(h, base) && Touching(h, k) && j < |h.ring| - 1
    ensures var g := Merge(h, k); g.ring[j] in g.size && (j >= 1 ==> g.size[g.ring[j]] > 0)
    ensures var g := Merge(h, k); g.ring[0] == base && g.size[base] == 0
  {
    hide Linked;
  }

  lemma MergeRing(h: Heap, base: int, k: nat)
    requires RingOk(h, base) && Touching(h, k)
    ensures RingOk(Merge(h, k), base)
  {
    hide Linked, Ascending, Touching;
    TouchingRange(h, k);
    LinkedRemove(h.ptr, h.ring, k);
    RemoveAscending(h.ring, k + 1);
    var g := Merge(h, k);
    forall i, j | 1 <= i < j < |g.ring| ensures g.ring[i] in g.size && g.ring[i] + g.size[g.ring[i]] <= g.ring[j] {
      MergeGap(h, base, k, i, j);
    }
    forall j | 0 <= j < |g.ring| ensures g.ring[j] in g.size && (j >= 1 ==> g.size[g.ring[j]] > 0) {
      MergeSize(h, base, k, j);
    }
    MergeSize(h, base, k, 0);
  }

  lemma MergeTouching(h: Heap, base: int, k: nat, j: nat)
    requires RingOk(h, base) && Touching(h, k)
    ensures Touching(Merge(h, k), j) <==> Touching(h, if j < k then j else j + 1)
  {
  }

  lemma MergeBlocks(h: Heap, base: int, k: nat, b: int)
    requires Sound(h, base) && Touching(h, k)
    ensures b in Merge(h, k).ring <==> b in h.ring && b != h.ring[k + 1]
    ensures IsBlock(Merge(h, k), base, b) <==> IsBlock(h, base, b) && b != h.ring[k + 1]
  {
    var s, j := h.ring, k + 1;
    assert RemoveAt(s, j) == s[..j] + s[j + 1..];
    assert h.ring[j] !in h.live;
  }

  lemma MergeOwner(h: Heap, base: int, k: nat, u: int)
    requires Sound(h, base) && Touching(h, k) && u in h.own
    ensures var g := Merge(h, k); var b := g.own[u]; IsBlock(g, base, b) && b in g.size && b <= u < b + g.size[b]
  {
    var p, q := h.ring[k], h.ring[k + 1];
    hide RingOk;
    assert IsBlock(h, base, h.own[u]);
    MergeBlocks(h, base, k, h.own[u]);
    MergeBlocks(h, base, k, p);
    TwoBlocks(h, base, k);
  }

  lemma MergeUnit(h: Heap, base: int, k: nat, b: int, u: int)
    requires Sound(h, base) && Touching(h, k) && IsBlock(Merge(h, k), base, b)
    ensures var g := Merge(h, k);
            b > base && b in g.size && g.size[b] > 0 && (b <= u < b + g.size[b] ==> u in g.own && g.own[u] == b)
  {
    var q := h.ring[k + 1];
    hide RingOk;
    MergeBlocks(h, base, k, b);
    TwoBlocks(h, base, k);
    if q <= u < q + h.size[q] { assert u in h.own && h.own[u] == q; }
    if b <= u < b + h.size[b] { assert u in h.own && h.own[u] == b; }
  }

  lemma TwoBlocks(h: Heap, base: int, k: nat)
    requires RingOk(h, base) && Touching(h, k)
    ensures IsBlock(h, base, h.ring[k]) && IsBlock(h, base, h.ring[k + 1]) && h.ring[k] != h.ring[k + 1]
  {
    hide Linked;
  }

  lemma MergeLive(h: Heap, base: int, k: nat, b: int)
    requires Sound(h, base) && Touching(h, k) && b in h.live
    ensures b !in Merge(h, k).ring
  {
    MergeBlocks(h, base, k, b);
  }

  lemma MergePartition(h: Heap, base: int, k: nat)
    requires Sound(h, base) && Touching(h, k)
    ensures Partition(Merge(h, k), base)
  {
    hide Sound, Partition, IsBlock, Merge, Touching;
    var g := Merge(h, k);
    forall b | b in g.live ensures b !in g.ring { MergeLive(h, base, k, b); }
    forall u | u in g.own
      ensures IsBlock(g, base, g.own[u]) && g.own[u] in g.size && g.own[u] <= u < g.own[u] + g.size[g.own[u]]
    {
      MergeOwner(h, base, k, u);
    }
    forall b | IsBlock(g, base, b) ensures b > base && b in g.size && g.size[b] > 0 { MergeUnit(h, base, k, b, b); }
    forall b, u | IsBlock(g, base, b) && b <= u < b + g.size[b] ensures u in g.own && g.own[u] == b {
      MergeUnit(h, base, k, b, u);
    }
    PartitionFrom(g, base);
  }

  lemma MergeSound(h: Heap, base: int, k: nat)
    requires Sound(h, base) && Touching(h, k)
    ensures Sound(Merge(h, k), base)
  {
    MergeRing(h, base, k);
    MergePartition(h, base, k);
  }

  // ----- free -----

  /** What free(bp + 1) makes of the heap when the block belongs behind position t: into the list, and joined with the
      neighbours it touches. */
  function Freed(h: Heap, t: nat, bp: int): Heap
    requires t < |h.ring| && h.ring[t] in h.ptr
  {
    var a := Insert(h, t, bp);
    var b := if Touching(a, t + 1) then Merge(a, t + 1) else a;
    if Touching(b, t) then Merge(b, t) else b
  }

  lemma FreedValid(h: Heap, base: int, t: nat, bp: int)
    requires Valid(h, base) && bp in h.live && Before(h.ring, t, bp) && h.ring[t] in h.ptr
    ensures Valid(Freed(h, t, bp), base)
    ensures Freed(h, t, bp).live == h.live - {bp} && Freed(h, t, bp).own.Keys == h.own.Keys
  {
    hide RingOk, Partition, Touching, IsBlock, Insert, Merge, Before;
    assert t < |h.ring| by { BeforeRange(h.ring, t, bp); }
    var a := Insert(h, t, bp);
    InsertSound(h, base, t, bp);
    forall k: nat | k != t && k != t + 1 ensures !Touching(a, k) {
      InsertTouching(h, base, t, bp, k);
      TouchingRange(h, if k < t then k else k - 1);
    }
    var b := if Touching(a, t + 1) then Merge(a, t + 1) else a;
    if Touching(a, t + 1) {
      MergeSound(a, base, t + 1);
      forall k: nat | k != t ensures !Touching(b, k) { MergeTouching(a, base, t + 1, k); }
    }
    var c := if Touching(b, t) then Merge(b, t) else b;
    if Touching(b, t) {
      MergeSound(b, base, t);
      forall k: nat ensures !Touching(c, k) { MergeTouching(b, base, t, k); }
    }
  }

  lemma TouchingRange(h: Heap, k: nat)
    ensures Touching(h, k) ==> 1 <= k < |h.ring| - 1
  {
  }

  lemma AfterInsert(h: Heap, base: int, t: nat, bp: int)
    requires RingOk(h, base) && Before(h.ring, t, bp) && bp in h.size && bp !in h.ring && h.ring[t] in h.ptr
    requires h.size[bp] > 0
    ensures var a := Insert(h, t, bp); var q := h.ptr[h.ring[t]];
            && a.ring[t] == h.ring[t] != bp && a.ring[t + 1] == bp && q in h.ptr && q in h.size && h.ring[t] in h.size
            && q != bp && q in a.ptr && (Touching(a, t + 1) <==> bp + h.size[bp] == q)
            && (Touching(a, t + 1) ==> a.ring[t + 2] == q && q != h.ring[t])
            && (h.ring[t] + h.size[h.ring[t]] == bp <==> Touching(a, t))
            && (t == 0 ==> h.ring[t] + h.size[h.ring[t]] != bp)
  {
    assert base < bp;
    assert h.ptr[h.ring[t]] == if t + 1 < |h.ring| then h.ring[t + 1] else base;
  }

  /** The two header updates of free's last lines, as the code computes them. */
  lemma FreedCode(h: Heap, base: int, t: nat, bp: int)
    requires RingOk(h, base) && Before(h.ring, t, bp) && bp in h.size && bp !in h.ring && h.ring[t] in h.ptr
    requires h.size[bp] > 0
    ensures var p := h.ring[t]; var q := h.ptr[p]; var up := bp + h.size[bp] == q;
            && q in h.ptr && q in h.size && p in h.size
            && var ptr1 := h.ptr[bp := if up then h.ptr[q] else q];
            && var size1 := if up then h.size[bp := h.size[bp] + h.size[q]] else h.size;
            && var down := p + size1[p] == bp;
            && Freed(h, t, bp).ptr == ptr1[p := if down then ptr1[bp] else bp]
            && Freed(h, t, bp).size == if down then size1[p := size1[p] + size1[bp]] else size1
  {
    hide RingOk, Before;
    AfterInsert(h, base, t, bp);
  }

  // ----- new memory from sbrk -----

  /** The addresses of n units from a on. */
  function Units(a: int, n: nat): (r: set<int>)
    ensures forall u :: u in r <==> a <= u < a + n
  {
    if n == 0 then {} else Units(a, n - 1) + {a + n - 1}
  }

  /** A region of n fresh units at hp, as one live block. */
  function WithRegion(h: Heap, hp: int, n: nat): (g: Heap)
    ensures forall u :: u in g.own <==> u in h.own || hp <= u < hp + n
  {
    h.(size := h.size[hp := n], live := h.live + {hp},
       own := map u | u in h.own.Keys + Units(hp, n) :: if u in h.own then h.own[u] else hp)
  }

  /** What sbrk is trusted for: memory above base that is not in use. */
  ghost predicate FreshRegion(h: Heap, base: int, hp: int, n: nat) {
    hp > base && forall u :: hp <= u < hp + n ==> u !in h.own
  }

  lemma RegionIsNew(h: Heap, base: int, hp: int, n: nat)
    requires Partition(h, base) && n > 0 && FreshRegion(h, base, hp, n)
    ensures !IsBlock(h, base, hp) && hp !in h.live && hp !in h.ring
  {
    assert hp !in h.own;
    assert forall b :: IsBlock(h, base, b) && b <= hp < b + h.size[b] ==> hp in h.own;
  }

  lemma RegionRing(h: Heap, base: int, hp: int, n: nat)
    requires RingOk(h, base) && hp !in h.ring
    ensures RingOk(WithRegion(h, hp, n), base)
    ensures forall k: nat :: Touching(WithRegion(h, hp, n), k) <==> Touching(h, k)
  {
    assert forall k :: 0 <= k < |h.ring| ==> h.ring[k] != hp;
  }

  lemma RegionBlock(h: Heap, base: int, hp: int, n: nat, b: int)
    requires hp !in h.ring
    ensures IsBlock(WithRegion(h, hp, n), base, b) <==> IsBlock(h, base, b) || b == hp
  {
  }

  lemma RegionOwner(h: Heap, base: int, hp: int, n: nat, u: int)
    requires Partition(h, base) && n > 0 && FreshRegion(h, base, hp, n) && !IsBlock(h, base, hp) && hp !in h.ring
    requires u in WithRegion(h, hp, n).own
    ensures var g := WithRegion(h, hp, n);
            IsBlock(g, base, g.own[u]) && g.own[u] in g.size && g.own[u] <= u < g.own[u] + g.size[g.own[u]]
  {
    RegionBlock(h, base, hp, n, WithRegion(h, hp, n).own[u]);
    hide IsBlock;
    if u in h.own { assert IsBlock(h, base, h.own[u]); }
  }

  lemma RegionUnit(h: Heap, base: int, hp: int, n: nat, b: int, u: int)
    requires Partition(h, base) && n > 0 && FreshRegion(h, base, hp, n) && !IsBlock(h, base, hp) && hp !in h.ring
    requires IsBlock(WithRegion(h, hp, n), base, b)
    ensures var g := WithRegion(h, hp, n);
            b > base && b in g.size && g.size[b] > 0 && (b <= u < b + g.size[b] ==> u in g.own && g.own[u] == b)
  {
    RegionBlock(h, base, hp, n, b);
    hide IsBlock;
    if b != hp && b <= u < b + h.size[b] { assert u in h.own && h.own[u] == b; }
  }

  lemma RegionPartition(h: Heap, base: int, hp: int, n: nat)
    requires Partition(h, base) && n > 0 && FreshRegion(h, base, hp, n) && !IsBlock(h, base, hp) && hp !in h.ring
    ensures Partition(WithRegion(h, hp, n), base)
  {
    var g := WithRegion(h, hp, n);
    assert forall b :: b in g.live ==> b !in g.ring;
    hide Partition, IsBlock, WithRegion, FreshRegion;
    forall u | u in g.own
      ensures IsBlock(g, base, g.own[u]) && g.own[u] in g.size && g.own[u] <= u < g.own[u] + g.size[g.own[u]]
    {
      RegionOwner(h, base, hp, n, u);
    }
    forall b | IsBlock(g, base, b) ensures b > base && b in g.size && g.size[b] > 0 {
      RegionUnit(h, base, hp, n, b, b);
    }
    forall b, u | IsBlock(g, base, b) && b <= u < b + g.size[b] ensures u in g.own && g.own[u] == b {
      RegionUnit(h, base, hp, n, b, u);
    }
    PartitionFrom(g, base);
  }

  lemma RegionValid(h: Heap, base: int, hp: int, n: nat)
    requires Valid(h, base) && n > 0 && FreshRegion(h, base, hp, n)
    ensures Valid(WithRegion(h, hp, n), base) && hp !in h.live && hp !in h.ring
  {
    hide RingOk, Partition, Touching, FreshRegion;
    RegionIsNew(h, base, hp, n);
    RegionRing(h, base, hp, n);
    RegionPartition(h, base, hp, n);
  }

  // ----- taking a block out -----

  /** The whole free block at position k. */
  function TakeWhole(h: Heap, k: nat): Heap
    requires 1 <= k < |h.ring| && h.ring[k] in h.ptr
  {
    h.(ptr := h.ptr[h.ring[k - 1] := h.ptr[h.ring[k]]], ring := RemoveAt(h.ring, k), live := h.live + {h.ring[k]})
  }

  /** The last n units of the free block at position k. */
  function TakeTail(h: Heap, k: nat, n: nat): Heap
    requires k < |h.ring| && h.ring[k] in h.size
  {
    var p := h.ring[k];
    var q := p + h.size[p] - n;
    h.(size := h.size[p := h.size[p] - n][q := n], live := h.live + {q},
       own := map u | u in h.own :: if q <= u < q + n then q else h.own[u])
  }

  lemma TakeWholeGap(h: Heap, base: int, k: nat, i: nat, j: nat)
    requires RingOk(h, base) && 1 <= k < |h.ring| && 1 <= i < |h.ring| - 1
    ensures var s := RemoveAt(h.ring, k);
            && s[i] in h.size && h.size[s[i]] > 0 && s[0] == base
            && (i < j < |h.ring| - 1 ==> s[i] + h.size[s[i]] <= s[j])
  {
    hide Linked, Ascending;
    var s := RemoveAt(h.ring, k);
    assert s[i] == h.ring[if i < k then i else i + 1];
    assert i < j < |h.ring| - 1 ==> s[j] == h.ring[if j < k then j else j + 1];
  }

  lemma TakeWholeRing(h: Heap, base: int, k: nat)
    requires RingOk(h, base) && 1 <= k < |h.ring| && h.ring[k] in h.ptr
    ensures RingOk(TakeWhole(h, k), base)
  {
    hide Linked, Ascending;
    LinkedRemove(h.ptr, h.ring, k - 1);
    RemoveAscending(h.ring, k);
    var s := RemoveAt(h.ring, k);
    assert s[0] == h.ring[0] == base;
    forall i, j | 1 <= i < j < |s| ensures s[i] in h.size && s[i] + h.size[s[i]] <= s[j] {
      TakeWholeGap(h, base, k, i, j);
    }
    forall j | 1 <= j < |s| ensures s[j] in h.size && h.size[s[j]] > 0 { TakeWholeGap(h, base, k, j, j); }
  }

  lemma TakeWholePartition(h: Heap, base: int, k: nat)
    requires RingOk(h, base) && Partition(h, base) && 1 <= k < |h.ring|
    ensures Partition(TakeWhole(h, k), base)
  {
    var g := TakeWhole(h, k);
    assert forall b :: b in g.ring <==> b in h.ring && b != h.ring[k];
    assert forall b :: IsBlock(g, base, b) <==> IsBlock(h, base, b);
  }

  lemma TakeTailRing(h: Heap, base: int, k: nat, n: nat)
    requires RingOk(h, base) && 1 <= k < |h.ring| && 0 < n < h.size[h.ring[k]]
    requires h.ring[k] + h.size[h.ring[k]] - n !in h.ring
    ensures RingOk(TakeTail(h, k, n), base)
  {
  }

  lemma TailIsNew(h: Heap, base: int, k: nat, n: nat)
    requires RingOk(h, base) && Partition(h, base) && 1 <= k < |h.ring| && 0 < n < h.size[h.ring[k]]
    ensures var p := h.ring[k]; var q := p + h.size[p] - n;
            && IsBlock(h, base, p) && !IsBlock(h, base, q) && q !in h.ring && q !in h.live && q > base && p !in h.live
            && (forall u :: p <= u < p + h.size[p] ==> u in h.own && h.own[u] == p)
  {
    var p := h.ring[k];
    var q := p + h.size[p] - n;
    assert IsBlock(h, base, p) && h.own[q] == p;
    assert forall b :: IsBlock(h, base, b) && b <= q < b + h.size[b] ==> h.own[q] == b;
  }

  lemma TailBlocks(h: Heap, base: int, k: nat, n: nat)
    requires RingOk(h, base) && Partition(h, base) && 1 <= k < |h.ring| && 0 < n < h.size[h.ring[k]]
    ensures var g := TakeTail(h, k, n); var q := h.ring[k] + h.size[h.ring[k]] - n;
            && (forall b :: IsBlock(g, base, b) <==> IsBlock(h, base, b) || b == q)
            && (forall b :: b in g.live ==> b !in g.ring)
  {
    TailIsNew(h, base, k, n);
  }

  lemma TakeTailPartition(h: Heap, base: int, k: nat, n: nat)
    requires RingOk(h, base) && Partition(h, base) && 1 <= k < |h.ring| && h.ring[k] in h.size
    requires 0 < n < h.size[h.ring[k]]
    ensures Partition(TakeTail(h, k, n), base)
  {
    hide RingOk, IsBlock, Partition;
    TailIsNew(h, base, k, n);
    var p := h.ring[k];
    TailBlocks(h, base, k, n);
    var g := TakeTail(h, k, n);
    TailOwners(h, g, base, p, p + h.size[p] - n, n);
    IsPartition(g, base);
  }

  lemma IsPartition(h: Heap, base: int)
    requires forall b :: b in h.live ==> b !in h.ring
    requires forall b :: IsBlock(h, base, b) ==> b > base && b in h.size && h.size[b] > 0
    requires forall u :: u in h.own ==> IsBlock(h, base, h.own[u]) && h.own[u] <= u < h.own[u] + h.size[h.own[u]]
    requires forall b, u :: IsBlock(h, base, b) && b <= u < b + h.size[b] ==> u in h.own && h.own[u] == b
    ensures Partition(h, base)
  {
  }

  lemma TailUnit(h: Heap, base: int, p: int, q: int, n: nat, u: int)
    requires Partition(h, base) && IsBlock(h, base, p) && h.size[p] > n > 0 && q == p + h.size[p] - n
    ensures q <= u < q + n ==> u in h.own && h.own[u] == p
  {
  }

  lemma TailOwners(h: Heap, g: Heap, base: int, p: int, q: int, n: nat)
    requires Partition(h, base) && IsBlock(h, base, p) && !IsBlock(h, base, q) && base < q
    requires h.size[p] > n > 0 && q == p + h.size[p] - n
    requires g.size == h.size[p := h.size[p] - n][q := n]
    requires g.own == map u | u in h.own :: if q <= u < q + n then q else h.own[u]
    requires forall b :: IsBlock(g, base, b) <==> IsBlock(h, base, b) || b == q
    ensures forall b :: IsBlock(g, base, b) ==> b > base && b in g.size && g.size[b] > 0
    ensures forall u :: u in g.own ==> IsBlock(g, base, g.own[u]) && g.own[u] <= u < g.own[u] + g.size[g.own[u]]
    ensures forall b, u :: IsBlock(g, base, b) && b <= u < b + g.size[b] ==> u in g.own && g.own[u] == b
  {
    hide IsBlock;
    forall b | IsBlock(g, base, b) ensures b > base && b in g.size && g.size[b] > 0 {
      assert IsBlock(h, base, b) || b == q;
    }
    forall u | u in g.own ensures IsBlock(g, base, g.own[u]) && g.own[u] <= u < g.own[u] + g.size[g.own[u]] {
      TailUnit(h, base, p, q, n, u);
      assert IsBlock(h, base, h.own[u]);
    }
    forall b, u | IsBlock(g, base, b) && b <= u < b + g.size[b] ensures u in g.own && g.own[u] == b {
      TailUnit(h, base, p, q, n, u);
      if b != q { assert IsBlock(h, base, b) && b <= u < b + h.size[b]; }
    }
  }

  lemma TakeWholeValid(h: Heap, base: int, k: nat)
    requires Valid(h, base) && 1 <= k < |h.ring| && h.ring[k] in h.ptr
    ensures Valid(TakeWhole(h, k), base)
  {
    TakeWholeRing(h, base, k);
    TakeWholePartition(h, base, k);
    hide Partition;
    forall j: nat ensures !Touching(TakeWhole(h, k), j) {
      assert !Touching(h, j) && !Touching(h, j + 1);
    }
  }

  lemma TakeTailValid(h: Heap, base: int, k: nat, n: nat)
    requires Valid(h, base) && 1 <= k < |h.ring| && h.ring[k] in h.size && 0 < n < h.size[h.ring[k]]
    ensures Valid(TakeTail(h, k, n), base)
  {
    TailIsNew(h, base, k, n);
    TakeTailRing(h, base, k, n);
    TakeTailPartition(h, base, k, n);
    hide Partition;
    forall j: nat ensures !Touching(TakeTail(h, k, n), j) {
      assert !Touching(h, j);
    }
  }

  // ----- the code -----

  /** nunits for a request of nbytes. */
  function UnitsFor(nbytes: nat): (n: nat)
    ensures n >= 1 && 16 * (n - 2) < nbytes <= 16 * (n - 1)
  {
    (nbytes + 16 - 1) / 16 + 1
  }

  function MoreUnits(nu: nat): nat {
    if nu < 4096 then 4096 else nu
  }

  /** The int that sbrk receives for the 64-bit product nu * sizeof(Header). */
  function SbrkArgument(nu: nat): int {
    var low := nu * 16 % 0x1_0000_0000;
    if low < 0x8000_0000 then low else low - 0x1_0000_0000
  }

  /** sbrk is asked for the units that morecore records exactly if malloc's argument leaves room for an int. */
  lemma SbrkGetsTheSize(nbytes: nat)
    requires nbytes < 0x1_0000_0000
    ensures SbrkArgument(MoreUnits(UnitsFor(nbytes))) == 16 * MoreUnits(UnitsFor(nbytes)) <==> nbytes <= 0x7fff_ffe0
  {
    assert UnitsFor(nbytes) < 0x800_0000 <==> nbytes <= 0x7fff_ffe0;
    assert UnitsFor(nbytes) <= 0x1000_0001;
  }

  /** The first size that is too large makes malloc ask sbrk to shrink the heap. */
  lemma SbrkShrinks()
    ensures UnitsFor(0x7fff_ffe1) == 0x800_0000 && SbrkArgument(MoreUnits(UnitsFor(0x7fff_ffe1))) == -0x8000_0000
  {
  }

  lemma PlaceFor(h: Heap, base: int, bp: int) returns (t: nat)
    requires RingOk(h, base) && base < bp && bp !in h.ring
    ensures Before(h.ring, t, bp)
  {
    t := 0;
    while t + 1 < |h.ring| && h.ring[t + 1] < bp
      invariant t < |h.ring| && h.ring[t] < bp
    {
      t := t + 1;
    }
  }

  /** The two ways out of free's search loop. */
  predicate Stops(p: int, next: int, bp: int) {
    (bp > p && bp < next) || (p >= next && (bp > p || bp < next))
  }

  lemma StopsAtPlace(h: Heap, base: int, bp: int, t: nat, k: nat)
    requires RingOk(h, base) && Before(h.ring, t, bp) && k < |h.ring| && base < bp
    ensures h.ring[k] in h.ptr && (Stops(h.ring[k], h.ptr[h.ring[k]], bp) <==> k == t)
    ensures h.ptr[h.ring[k]] == h.ring[if k + 1 < |h.ring| then k + 1 else 0]
  {
    assert k < t ==> h.ring[k + 1] <= h.ring[t];
    assert k > t ==> h.ring[t + 1] <= h.ring[k];
    assert h.ring[0] == base && h.ring[0] <= h.ring[k];
    assert k + 1 < |h.ring| ==> h.ring[k] < h.ring[k + 1];
  }

  class Allocator {
    const base: int
    var ptr: map<int, int>
    var size: map<int, int>
    var freep: int
    ghost var ring: seq<int>
    ghost var live: set<int>
    ghost var own: map<int, int>

    ghost function Snap(): Heap
      reads this
    {
      Heap(ptr, size, ring, live, own)
    }

    /** Before the first malloc freep is null; after it the free list exists and freep points into it. */
    ghost predicate Ready()
      reads this
    {
      Valid(Snap(), base) && freep in ring
    }

    ghost predicate Pristine()
      reads this
    {
      freep == 0 && live == {} && own == map[] && base > 0
    }

    /** free's search loop: it stops at the last free block below bp, from wherever freep points. */
    method FindPlace(bp: int) returns (p: int, ghost t: nat)
      requires RingOk(Snap(), base) && freep in ring && base < bp && bp !in ring
      ensures Before(ring, t, bp) && p == ring[t] && p in ptr
    {
      hide RingOk;
      t := PlaceFor(Snap(), base, bp);
      ghost var k :| 0 <= k < |ring| && ring[k] == freep;
      p := freep;
      StopsAtPlace(Snap(), base, bp, t, k);
      while !(bp > p && bp < ptr[p])
        invariant 0 <= k < |ring| && p == ring[k] && p in ptr && (Stops(p, ptr[p], bp) <==> k == t)
        invariant ptr[p] == ring[if k + 1 < |ring| then k + 1 else 0]
        decreases if k <= t then t - k else |ring| - k + t
      {
        if p >= ptr[p] && (bp > p || bp < ptr[p]) { break; }
        p := ptr[p];
        k := if k + 1 < |ring| then k + 1 else 0;
        StopsAtPlace(Snap(), base, bp, t, k);
      }
    }

    /** free: the block joins the free list in address order and is joined with neighbours it touches. */
    method Free(bp: int) returns (ghost t: nat)
      requires Ready() && bp in live
      modifies this
      ensures Ready() && t < |old(ring)| && old(ring)[t] in old(ptr) && Before(old(ring), t, bp)
      ensures Snap() == Freed(old(Snap()), t, bp) && freep == old(ring)[t]
    {
      hide Valid, Freed, RingOk, Partition;
      ghost var h := Snap();
      LiveIsOutside(h, base, bp);
      var p;
      p, t := FindPlace(bp);
      FreedCode(h, base, t, bp);
      FreedValid(h, base, t, bp);
      FreedKeeps(h, t, bp);
      if bp + size[bp] == ptr[p] {
        size := size[bp := size[bp] + size[ptr[p]]];
        ptr := ptr[bp := ptr[ptr[p]]];
      } else {
        ptr := ptr[bp := ptr[p]];
      }
      if p + size[p] == bp {
        size := size[p := size[p] + size[bp]];
        ptr := ptr[p := ptr[bp]];
      } else {
        ptr := ptr[p := bp];
      }
      freep := p;
      ghost var g := Freed(h, t, bp);
      ring, live, own := g.ring, g.live, g.own;
    }

    /** morecore: `more` is what sbrk returned. */
    method Morecore(nu: nat, more: int) returns (r: int)
      requires Ready() && nu >= 1
      requires more != -1 ==> FreshRegion(Snap(), base, more, MoreUnits(nu))
      modifies this
      ensures Ready()
      ensures more == -1 ==> r == 0 && Snap() == old(Snap()) && freep == old(freep)
      ensures more != -1 ==> r == freep && live == old(live) && Fits(Snap(), nu)
      ensures more != -1 ==> own.Keys == old(own.Keys) + Units(more, MoreUnits(nu))
      ensures SameSizes(old(Snap()), Snap())
    {
      hide Valid, RingOk, Partition, Freed, FreshRegion, Before;
      var n := nu;
      if n < 4096 { n := 4096; }
      ghost var h := Snap();
      LiveSizes(h, base);
      if more == -1 { return 0; }
      RegionValid(h, base, more, n);
      size := size[more := n];
      live, own := live + {more}, WithRegion(h, more, n).own;
      ghost var g := Snap();
      assert g == WithRegion(h, more, n);
      assert g.own.Keys == h.own.Keys + Units(more, n);
      ghost var t := Free(more);
      FreedValid(g, base, t, more);
      LiveIsOutside(g, base, more);
      FreedFits(g, base, t, more, nu);
      FreedSizes(g, base, t, more);
      assert live == old(live);
      return freep;
    }

    /** malloc's lines that take nunits out of the block at p, whose predecessor in the list is prevp. */
    method Take(prevp: int, p: int, nunits: nat, ghost k: nat) returns (r: int)
      requires Ready() && 1 <= k < |ring| && p == ring[k] && prevp == ring[k - 1]
      requires p in size && p in ptr && size[p] >= nunits >= 1
      modifies this
      ensures Ready() && r - 1 !in old(live) && live == old(live) + {r - 1} && own.Keys == old(own.Keys)
      ensures r - 1 in size && size[r - 1] == nunits && r - 1 > base
      ensures SameSizes(old(Snap()), Snap())
    {
      hide Valid, RingOk, Partition;
      ghost var h := Snap();
      LiveSizes(h, base);
      FreeIsNotLive(h, base, k);
      if size[p] == nunits {
        TakeWholeValid(h, base, k);
        ptr := ptr[prevp := ptr[p]];
        ring, live := RemoveAt(ring, k), live + {p};
        freep := prevp;
        assert ring[k - 1] == prevp;
        LiveIsOutside(Snap(), base, p);
        return p + 1;
      } else {
        TakeTailValid(h, base, k, nunits);
        TailIsFresh(h, base, k, nunits);
        size := size[p := size[p] - nunits];
        var q := p + size[p];
        size := size[q := nunits];
        own := TakeTail(h, k, nunits).own;
        live := live + {q};
        freep := prevp;
        LiveIsOutside(Snap(), base, q);
        return q + 1;
      }
    }

    /** malloc's first lines: the list with base alone in it. */
    method InitList()
      requires Pristine()
      modifies this
      ensures Ready() && freep == base && ring == [base] && live == {} && own == map[]
    {
      ptr := ptr[base := base];
      freep := base;
      size := size[base := 0];
      ring := [base];
    }

    /** malloc's loop. */
    method Search(nunits: nat, more: int) returns (r: int, ghost calls: nat)
      requires Ready() && nunits >= 1 && (more != -1 ==> FreshRegion(Snap(), base, more, MoreUnits(nunits)))
      modifies this
      ensures Ready() && calls <= 1
      ensures calls == 0 <==> Fits(old(Snap()), nunits)
      ensures r == 0 <==> calls == 1 && more == -1
      ensures r == 0 ==> live == old(live) && own == old(own)
      ensures r != 0 ==> r - 1 !in old(live) && live == old(live) + {r - 1} && r - 1 in size && size[r - 1] == nunits
      ensures r != 0 ==> own.Keys == old(own.Keys) + if calls == 0 then {} else Units(more, MoreUnits(nunits))
      ensures SameSizes(old(Snap()), Snap())
    {
      hide Valid, RingOk, Partition, FreshRegion, Fits, SmallSoFar, SameSizes, Units, MoreUnits;
      calls := 0;
      NullIsNotFree(this);
      var prevp := freep;
      ghost var s := Snap();
      ghost var f: nat := At(s, freep);
      ghost var k: nat := Next(f, |ring|);
      NothingChanged(s, base);
      RingFacts(s, base, f);
      RingFacts(s, base, k);
      StartSmall(s, f, nunits);
      var p := ptr[prevp];
      while true
        invariant Ready() && f < |ring| && k < |ring| && p == ring[k] && freep == ring[f] && base > 0
        invariant prevp == ring[Prev(k, |ring|)] && p in ptr && p in size && ptr[p] == ring[Next(k, |ring|)]
        invariant SmallSoFar(Snap(), f, k, nunits) && calls <= 1 && live == s.live && SameSizes(s, Snap())
        invariant calls == 0 ==> Snap() == s
        invariant calls == 1 ==> Fits(Snap(), nunits) && !Fits(s, nunits) && more != -1
        invariant calls == 1 ==> own.Keys == s.own.Keys + Units(more, MoreUnits(nunits))
        decreases 1 - calls, Distance(k, f, |ring|)
      {
        RingFacts(Snap(), base, k);
        if size[p] >= nunits {
          FitsAt(Snap(), k, nunits);
          ghost var h := Snap();
          r := Take(prevp, p, nunits, k);
          SameSizesAgain(s, h, Snap());
          return;
        }
        if p == freep {
          OneTurn(Snap(), base, f, k, nunits);
          assert calls == 0;
          calls := 1;
          p := Morecore(nunits, more);
          NullIsNotFree(this);
          if p == 0 { return 0, calls; }
          f := At(Snap(), freep);
          k := f;
          RingFacts(Snap(), base, k);
          StartSmall(Snap(), f, nunits);
        } else {
          StillSmall(Snap(), base, f, k, nunits);
        }
        prevp := p;
        p := ptr[p];
        k := Next(k, |ring|);
        RingFacts(Snap(), base, k);
      }
    }

    /** malloc; `more` is what sbrk returns if it is called. A block of nunits units is handed out unless no free
        block is that large and sbrk fails. sbrk is called at most once, and only if no free block is large enough. */
    method Alloc(nbytes: nat, more: int) returns (r: int, ghost calls: nat)
      requires Ready() || Pristine()
      requires more != -1 ==> FreshRegion(Snap(), base, more, MoreUnits(UnitsFor(nbytes)))
      modifies this
      ensures Ready() && calls <= 1
      ensures calls == 0 <==> old(Ready()) && Fits(old(Snap()), UnitsFor(nbytes))
      ensures r == 0 <==> calls == 1 && more == -1
      ensures r == 0 ==> live == old(live) && own == old(own)
      ensures r != 0 ==> r - 1 !in old(live) && live == old(live) + {r - 1}
      ensures r != 0 ==> r - 1 in size && size[r - 1] == UnitsFor(nbytes)
      ensures r != 0 ==> own.Keys == old(own.Keys) + if calls == 0 then {} else Units(more, MoreUnits(UnitsFor(nbytes)))
      ensures SameSizes(old(Snap()), Snap())
    {
      hide Valid, RingOk, Partition, FreshRegion, Fits;
      var nunits := UnitsFor(nbytes);
      NullIsNotFree(this);
      if freep == 0 {
        InitList();
        OnlyBase(Snap(), base, nunits);
        if more != -1 { FreshElsewhere(old(Snap()), Snap(), base, more, MoreUnits(nunits)); }
      }
      r, calls := Search(nunits, more);
    }
  }

  /** Blocks live in h keep their size in g. */
  ghost predicate SameSizes(h: Heap, g: Heap) {
    forall b :: b in h.live ==> b in h.size && b in g.size && g.size[b] == h.size[b]
  }

  lemma NothingChanged(h: Heap, base: int)
    requires Valid(h, base)
    ensures SameSizes(h, h)
  {
    LiveSizes(h, base);
  }

  lemma SameSizesAgain(h: Heap, g: Heap, e: Heap)
    requires SameSizes(h, g) && SameSizes(g, e) && g.live >= h.live
    ensures SameSizes(h, e)
  {
  }

  lemma StartSmall(h: Heap, f: nat, n: nat)
    requires f < |h.ring|
    ensures SmallSoFar(h, f, Next(f, |h.ring|), n)
  {
  }

  function Next(k: nat, n: nat): nat {
    if k + 1 < n then k + 1 else 0
  }

  function Prev(k: nat, n: nat): int {
    if k > 0 then k - 1 else n - 1
  }

  function Distance(k: nat, f: nat, n: nat): int {
    if k <= f then f - k else n - k + f
  }

  /** The index of a free block in the list. */
  ghost function At(h: Heap, p: int): (f: nat)
    requires p in h.ring
    ensures f < |h.ring| && h.ring[f] == p
  {
    var f :| 0 <= f < |h.ring| && h.ring[f] == p;
    f
  }

  /** Going round from the element after position f, the elements before position k are all too small. */
  ghost predicate SmallSoFar(h: Heap, f: nat, k: nat, n: nat) {
    forall j :: 0 <= j < |h.ring| && (if k > f then f < j < k else j > f || j < k) ==>
      h.ring[j] in h.size && h.size[h.ring[j]] < n
  }

  lemma RingFacts(h: Heap, base: int, k: nat)
    requires Valid(h, base) && k < |h.ring|
    ensures h.ring[k] in h.ptr && h.ring[k] in h.size && h.ptr[h.ring[k]] == h.ring[Next(k, |h.ring|)]
    ensures h.size[h.ring[k]] > 0 ==> k >= 1
  {
  }

  lemma NullIsNotFree(a: Allocator)
    ensures a.Ready() ==> a.freep != 0 && a.base > 0
  {
  }

  lemma FreshElsewhere(h: Heap, g: Heap, base: int, hp: int, n: nat)
    requires FreshRegion(h, base, hp, n) && g.own == h.own
    ensures FreshRegion(g, base, hp, n)
  {
  }

  lemma OnlyBase(h: Heap, base: int, n: nat)
    requires Valid(h, base) && h.ring == [base] && n >= 1
    ensures !Fits(h, n)
  {
  }

  lemma FitsAt(h: Heap, k: nat, n: nat)
    requires k < |h.ring| && h.ring[k] in h.size && h.size[h.ring[k]] >= n
    ensures Fits(h, n)
  {
  }

  lemma OneTurn(h: Heap, base: int, f: nat, k: nat, n: nat)
    requires Valid(h, base) && f < |h.ring| && k < |h.ring| && h.ring[k] == h.ring[f] && SmallSoFar(h, f, k, n)
    requires h.ring[k] in h.size && h.size[h.ring[k]] < n
    ensures k == f && !Fits(h, n)
  {
    assert k < f || f < k || k == f;
  }

  lemma StillSmall(h: Heap, base: int, f: nat, k: nat, n: nat)
    requires Valid(h, base) && f < |h.ring| && k < |h.ring| && h.ring[k] != h.ring[f] && SmallSoFar(h, f, k, n)
    requires h.ring[k] in h.size && h.size[h.ring[k]] < n
    ensures SmallSoFar(h, f, Next(k, |h.ring|), n)
    ensures Distance(Next(k, |h.ring|), f, |h.ring|) < Distance(k, f, |h.ring|)
  {
  }

  lemma FreeIsNotLive(h: Heap, base: int, k: nat)
    requires Valid(h, base) && 1 <= k < |h.ring|
    ensures h.ring[k] !in h.live
  {
  }

  lemma TailIsFresh(h: Heap, base: int, k: nat, n: nat)
    requires Valid(h, base) && 1 <= k < |h.ring| && h.ring[k] in h.size && 0 < n < h.size[h.ring[k]]
    ensures h.ring[k] + h.size[h.ring[k]] - n !in h.live
  {
    TailIsNew(h, base, k, n);
  }

  lemma LiveSizes(h: Heap, base: int)
    requires Valid(h, base)
    ensures forall b :: b in h.live ==> b in h.size
  {
    assert forall b :: b in h.live ==> IsBlock(h, base, b);
  }

  /** Some free block has n units or more. */
  ghost predicate Fits(h: Heap, n: nat) {
    exists k :: 0 <= k < |h.ring| && h.ring[k] in h.size && h.size[h.ring[k]] >= n
  }

  /** The freed block's units are together in one free block. */
  lemma FreedFits(h: Heap, base: int, t: nat, bp: int, n: nat)
    requires RingOk(h, base) && Before(h.ring, t, bp) && h.ring[t] in h.ptr && bp in h.size && h.size[bp] >= n
    requires bp !in h.ring
    ensures Fits(Freed(h, t, bp), n)
  {
    var a := Insert(h, t, bp);
    var b := if Touching(a, t + 1) then Merge(a, t + 1) else a;
    assert b.ring[t] == h.ring[t] && b.ring[t + 1] == bp && b.size[bp] >= n;
    var c := Freed(h, t, bp);
    assert c.ring[t] == h.ring[t];
    if Touching(b, t) {
      assert c.size[c.ring[t]] >= n;
    } else {
      assert c.ring[t + 1] == bp && c.size[c.ring[t + 1]] >= n;
    }
  }

  /** free changes no live block. */
  lemma FreedSizes(h: Heap, base: int, t: nat, bp: int)
    requires Valid(h, base) && bp in h.live && Before(h.ring, t, bp) && h.ring[t] in h.ptr
    ensures forall b :: b in h.live && b != bp ==>
              b in h.size && b in Freed(h, t, bp).size && Freed(h, t, bp).size[b] == h.size[b]
  {
    LiveSizes(h, base);
    assert forall b :: b in h.live ==> b !in h.ring;
  }

  lemma LiveIsOutside(h: Heap, base: int, bp: int)
    requires Valid(h, base) && bp in h.live
    ensures RingOk(h, base) && base < bp && bp !in h.ring && bp in h.size && h.size[bp] > 0
  {
    assert IsBlock(h, base, bp);
  }

  lemma FreedKeeps(h: Heap, t: nat, bp: int)
    requires t < |h.ring| && h.ring[t] in h.ptr
    ensures h.ring[t] in Freed(h, t, bp).ring
  {
    assert Insert(h, t, bp).ring[t] == h.ring[t];
    assert Freed(h, t, bp).ring[t] == h.ring[t];
  }
}
