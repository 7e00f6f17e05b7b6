/** The virtio block driver's queue as a protocol between driver and device (kernel/virtio_disk.c; sections 2.6 and
    5.2 of Virtio 1.1). The device is a peer that takes offered requests in order and completes taken ones in any
    order, with status 0. */
module VirtioQueue {
  import opened Common

  const NUM: nat := 8
  const NEXT: nat := 1
  const WRITE: nat := 2
  const BSIZE: nat := 1024

  /** What a descriptor points to: the header of the request with that head, a buffer's data, the status byte of a
      head. */
  datatype Addr = Null | Header(head: nat) | Data(buf: nat) | Status(head: nat)
  datatype Desc = Desc(addr: Addr, len: nat, flags: nat, next: nat)
  datatype BlkReq = BlkReq(write: bool, sector: nat)
  datatype Info = Info(b: nat, status: nat)

  /** A request is in the avail ring; at the device; in the used ring; answered, with b->disk cleared. */
  datatype Phase = Offered | Taken | Returned | Answered

  /** A request in flight: its three descriptors, its buffer, and its number among all requests so far. */
  datatype Chain = Chain(d0: nat, d1: nat, d2: nat, buf: nat, write: bool, blockno: nat, phase: Phase, no: nat)

  /** disk, the shared rings, b->disk of the buffers and the device's place in the avail ring; then, for the proof:
      the chains in flight by head, the head that owns each descriptor (-1 if free, -2 if being allocated), the
      unread part of both rings, the number of completions, and how often each request's b->disk was cleared. */
  datatype Queue = Queue(free: seq<bool>, desc: seq<Desc>, ops: seq<BlkReq>, info: seq<Info>, availRing: seq<nat>,
                         availIdx: nat, usedRing: seq<nat>, usedIdx: nat, readIdx: nat, devIdx: nat,
                         flag: map<nat, bool>, chains: map<int, Chain>, own: seq<int>, availQ: seq<nat>,
                         usedQ: seq<nat>, done: nat, clears: seq<nat>)

  function NoDesc(): Desc { Desc(Null, 0, 0, 0) }

  predicate Member(c: Chain, i: nat) { i == c.d0 || i == c.d1 || i == c.d2 }

  /** b->blockno * (BSIZE / 512) in 32 bits. */
  function Sector(blockno: nat): nat { blockno * (BSIZE / 512) % 0x1_0000_0000 }

  ghost predicate Sizes(q: Queue) {
    |q.free| == |q.desc| == |q.ops| == |q.info| == |q.availRing| == |q.usedRing| == |q.own| == NUM
  }

  /** Free descriptors and the chains partition 0 .. NUM-1. */
  ghost predicate Partition(free: seq<bool>, own: seq<int>, chains: map<int, Chain>) {
    && |free| == |own| == NUM
    && (forall i :: 0 <= i < NUM ==> (free[i] <==> own[i] == -1))
    && (forall i :: 0 <= i < NUM && own[i] >= 0 ==> own[i] in chains && Member(chains[own[i]], i))
    && (forall h :: h in chains ==> ChainOwned(own, h, chains[h]))
  }

  predicate ChainOwned(own: seq<int>, h: int, c: Chain)
    requires |own| == NUM
  {
    Triple(c) && c.d0 == h && own[c.d0] == h && own[c.d1] == h && own[c.d2] == h
  }

  predicate Triple(c: Chain) {
    c.d0 != c.d1 && c.d0 != c.d2 && c.d1 != c.d2 && c.d0 < NUM && c.d1 < NUM && c.d2 < NUM
  }

  /** The three descriptors say what the request says (section 5.2.6): header, data, status. */
  ghost predicate Formatted(q: Queue, c: Chain)
    requires Sizes(q) && Triple(c)
  {
    && q.ops[c.d0] == BlkReq(c.write, Sector(c.blockno))
    && q.desc[c.d0] == Desc(Header(c.d0), 16, NEXT, c.d1)
    && q.desc[c.d1] == Desc(Data(c.buf), BSIZE, (if c.write then 0 else WRITE) + NEXT, c.d2)
    && q.desc[c.d2] == Desc(Status(c.d0), 1, WRITE, 0)
    && q.info[c.d0].b == c.buf && c.buf != 0
    && q.info[c.d0].status == (if c.phase in {Offered, Taken} then 0xff else 0)
  }

  ghost predicate Requests(q: Queue)
    requires Sizes(q)
  {
    && (forall h :: h in q.chains ==> Triple(q.chains[h]) && Formatted(q, q.chains[h]))
    && (forall h :: h in q.chains ==>
          q.chains[h].buf in q.flag && (q.flag[q.chains[h].buf] <==> q.chains[h].phase != Answered))
    && (forall g, h :: g in q.chains && h in q.chains && g != h ==> q.chains[g].buf != q.chains[h].buf)
  }

  /** The unread part of a ring: `unread` entries end at position `count`, and hold the heads of the chains in one
      phase. */
  ghost predicate RingOk(ring: seq<nat>, count: nat, unread: seq<nat>, chains: map<int, Chain>, phase: Phase) {
    && |ring| == NUM && |unread| <= count && Distinct(unread)
    && (forall k, n :: 0 <= k < |unread| && n == count - |unread| + k ==> ring[n % NUM] == unread[k])
    && (forall k :: 0 <= k < |unread| ==> unread[k] in chains && chains[unread[k]].phase == phase)
    && (forall h :: h in chains && chains[h].phase == phase ==> h in unread)
  }

  /** The 16-bit indices are the counts modulo 65536. */
  ghost predicate Indices(q: Queue) {
    && |q.availQ| <= |q.clears| && |q.usedQ| <= q.done
    && q.availIdx == |q.clears| % 65536 && q.devIdx == (|q.clears| - |q.availQ|) % 65536
    && q.usedIdx == q.done % 65536 && q.readIdx == (q.done - |q.usedQ|) % 65536
  }

  /** b->disk was cleared once for every request that is answered, and not yet for the others. */
  ghost predicate ClearedOnce(q: Queue) {
    && (forall h :: h in q.chains ==>
          q.chains[h].no < |q.clears| && q.clears[q.chains[h].no] == if q.chains[h].phase == Answered then 1 else 0)
    && (forall g, h :: g in q.chains && h in q.chains && g != h ==> q.chains[g].no != q.chains[h].no)
    && (forall n :: 0 <= n < |q.clears| ==> q.clears[n] == 1 || exists h :: h in q.chains && q.chains[h].no == n)
  }

  ghost predicate Inv(q: Queue) {
    && Sizes(q) && Partition(q.free, q.own, q.chains) && Requests(q) && Indices(q) && ClearedOnce(q)
    && RingOk(q.availRing, |q.clears|, q.availQ, q.chains, Offered)
    && RingOk(q.usedRing, q.done, q.usedQ, q.chains, Returned)
  }

  // ----- at most two requests -----

  lemma Count(s: set<nat>, n: nat)
    requires forall i :: i in s ==> i < n
    ensures |s| <= n
  {
    if n == 0 {
      assert s == {};
    } else {
      Count(s - {n - 1}, n - 1);
    }
  }

  lemma ThreeIsTooMany(q: Queue, f: int, g: int, h: int)
    requires Sizes(q) && Partition(q.free, q.own, q.chains) && f in q.chains && g in q.chains && h in q.chains && f != g
    requires f != h
    ensures g == h
  {
    hide Partition, Members;
    Triples(q, f);
    Triples(q, g);
    Triples(q, h);
    if g != h {
      Apart(q, f, g);
      Apart(q, f, h);
      Apart(q, g, h);
      NineIsTooMany(Members(q.chains[f]), Members(q.chains[g]), Members(q.chains[h]));
    }
  }

  lemma Triples(q: Queue, h: int)
    requires Sizes(q) && Partition(q.free, q.own, q.chains) && h in q.chains
    ensures Triple(q.chains[h])
  {
  }

  lemma Owned(q: Queue, h: int)
    requires Inv(q) && h in q.chains
    ensures 0 <= h < NUM && ChainOwned(q.own, h, q.chains[h])
  {
  }

  lemma NineIsTooMany(a: set<nat>, b: set<nat>, c: set<nat>)
    requires |a| == |b| == |c| == 3 && forall i :: i in a + b + c ==> i < NUM
    ensures !(a !! b && a !! c && b !! c)
  {
    Count(a + b + c, NUM);
    assert a !! b && a !! c && b !! c ==> |a + b| == 6 && |(a + b) + c| == 9;
  }

  lemma Apart(q: Queue, g: int, h: int)
    requires Sizes(q) && Partition(q.free, q.own, q.chains) && g in q.chains && h in q.chains && g != h
    ensures Members(q.chains[g]) !! Members(q.chains[h])
  {
    forall i: nat ensures !(Member(q.chains[g], i) && Member(q.chains[h], i)) {
      assert Member(q.chains[g], i) ==> i < NUM && q.own[i] == g;
    }
  }

  function Members(c: Chain): (s: set<nat>)
    requires Triple(c)
    ensures |s| == 3 && forall i :: i in s <==> Member(c, i)
  {
    var s := {c.d0, c.d1};
    assert |s| == 2;
    s + {c.d2}
  }

  /** At most two requests are in flight, so a ring holds at most two unread entries. */
  lemma AtMostTwo(q: Queue)
    requires Inv(q)
    ensures |q.chains| <= 2 && |q.availQ| <= 2 && |q.usedQ| <= 2
  {
    Few(q, q.availQ);
    Few(q, q.usedQ);
    forall f, g, h | f in q.chains.Keys && g in q.chains.Keys && h in q.chains.Keys && f != g && f != h ensures g == h {
      ThreeIsTooMany(q, f, g, h);
    }
    SmallSet(q.chains.Keys);
  }

  ghost predicate NoThree(s: set<int>) {
    forall f, g, h :: f in s && g in s && h in s && f != g && f != h ==> g == h
  }

  lemma SmallSet(s: set<int>)
    requires NoThree(s)
    ensures |s| <= 2
  {
    if s != {} {
      var f: int := Pick(s);
      var r := s - {f};
      assert s == {f} + r;
      if r != {} {
        var g: int := Pick(r);
        forall h | h in r ensures h == g { assert f in s && g in s && h in s; }
        assert r == {g};
      }
    }
  }

  ghost function Pick<T>(s: set<T>): (x: T)
    requires s != {}
    ensures x in s
  {
    var x :| x in s; x
  }

  lemma Few(q: Queue, unread: seq<nat>)
    requires Sizes(q) && Partition(q.free, q.own, q.chains) && Distinct(unread)
    requires forall k :: 0 <= k < |unread| ==> unread[k] in q.chains
    ensures |unread| <= 2
  {
    if |unread| > 2 { ThreeIsTooMany(q, unread[0], unread[1], unread[2]); }
  }

  // ----- rings -----

  lemma Wrap(n: nat)
    ensures n % 65536 % NUM == n % NUM && (n % 65536 + 1) % 65536 == (n + 1) % 65536
  {
    var a, r := n / 65536, n % 65536;
    assert n == 8 * (8192 * a) + r;
    Eights(8192 * a, r);
    Halfwords(a, r + 1);
  }

  lemma Eights(a: nat, r: nat)
    ensures (8 * a + r) % 8 == r % 8
  {
  }

  lemma Halfwords(a: nat, r: nat)
    ensures (65536 * a + r) % 65536 == r % 65536
  {
  }

  /** The chains in one phase are the same. */
  ghost predicate SamePhase(c: map<int, Chain>, d: map<int, Chain>, phase: Phase) {
    forall h :: (h in c && c[h].phase == phase) <==> (h in d && d[h].phase == phase)
  }

  lemma RingKept(ring: seq<nat>, count: nat, unread: seq<nat>, c: map<int, Chain>, d: map<int, Chain>, phase: Phase)
    requires RingOk(ring, count, unread, c, phase) && SamePhase(c, d, phase)
    ensures RingOk(ring, count, unread, d, phase)
  {
  }

  lemma RingEntry(ring: seq<nat>, count: nat, unread: seq<nat>, c: map<int, Chain>, phase: Phase, h: int)
    requires RingOk(ring, count, unread, c, phase)
    ensures unread != [] ==> unread[0] in c && c[unread[0]].phase == phase
    ensures h in c && c[h].phase != phase ==> h !in unread
  {
  }

  /** A new entry overwrites no unread one as long as fewer than NUM are unread. */
  lemma RingPush(ring: seq<nat>, count: nat, unread: seq<nat>, c: map<int, Chain>, d: map<int, Chain>, phase: Phase,
                 h: nat)
    requires RingOk(ring, count, unread, c, phase) && |unread| < NUM && h !in unread && h in d && d[h].phase == phase
    requires forall g :: g != h ==> ((g in c && c[g].phase == phase) <==> (g in d && d[g].phase == phase))
    ensures RingOk(ring[count % NUM := h], count + 1, unread + [h], d, phase)
  {
    var r, u := ring[count % NUM := h], unread + [h];
    forall k, n | 0 <= k < |u| && n == count + 1 - |u| + k ensures r[n % NUM] == u[k] {
      if k < |unread| {
        assert n == count - |unread| + k && ring[n % NUM] == unread[k];
        Slots(n, count);
      }
    }
    assert forall k :: 0 <= k < |u| ==> u[k] == if k < |unread| then unread[k] else h;
    forall g | g in d && d[g].phase == phase ensures g in u {
      if g == h { assert u[|unread|] == h; } else { assert g in unread; }
    }
  }

  lemma Slots(n: nat, count: nat)
    requires n < count < n + NUM
    ensures n % NUM != count % NUM
  {
  }

  lemma RingPop(ring: seq<nat>, count: nat, unread: seq<nat>, c: map<int, Chain>, d: map<int, Chain>, phase: Phase)
    requires RingOk(ring, count, unread, c, phase) && unread != []
    requires forall g :: (g in d && d[g].phase == phase) <==> (g in c && c[g].phase == phase && g != unread[0])
    ensures RingOk(ring, count, unread[1..], d, phase) && ring[(count - |unread|) % NUM] == unread[0]
  {
    var u := unread[1..];
    assert forall k :: 0 <= k < |u| ==> u[k] == unread[k + 1];
    forall g | g in d && d[g].phase == phase ensures g in u {
      assert g in unread && g != unread[0];
      var k :| 0 <= k < |unread| && unread[k] == g;
      assert u[k - 1] == g;
    }
  }

  // ----- the driver offers a request -----

  function Request(q: Queue, a: nat, b: nat, c: nat, buf: nat, write: bool, blockno: nat): Chain {
    Chain(a, b, c, buf, write, blockno, Offered, |q.clears|)
  }

  /** virtio_disk_rw up to the notification, once it has descriptors a, b and c. */
  function Offer(q: Queue, a: nat, b: nat, c: nat, buf: nat, write: bool, blockno: nat): Queue
    requires Sizes(q) && a < NUM && b < NUM && c < NUM
  {
    q.(ops := q.ops[a := BlkReq(write, Sector(blockno))],
       desc := q.desc[a := Desc(Header(a), 16, NEXT, b)]
                     [b := Desc(Data(buf), BSIZE, (if write then 0 else WRITE) + NEXT, c)]
                     [c := Desc(Status(a), 1, WRITE, 0)],
       info := q.info[a := Info(buf, 0xff)],
       flag := q.flag[buf := true],
       availRing := q.availRing[q.availIdx % NUM := a],
       availIdx := (q.availIdx + 1) % 65536,
       chains := q.chains[a as int := Request(q, a, b, c, buf, write, blockno)],
       own := q.own[a := a][b := a][c := a],
       availQ := q.availQ + [a],
       clears := q.clears + [0])
  }

  /** a, b and c have been allocated and no request uses them. */
  ghost predicate InHand(q: Queue, a: nat, b: nat, c: nat) {
    && Sizes(q) && a < NUM && b < NUM && c < NUM && a != b && a != c && b != c
    && q.own[a] == -2 && q.own[b] == -2 && q.own[c] == -2
  }

  ghost predicate NotInFlight(q: Queue, buf: nat) {
    buf != 0 && forall h :: h in q.chains ==> q.chains[h].buf != buf
  }

  lemma OfferPartition(free: seq<bool>, own: seq<int>, chains: map<int, Chain>, x: Chain)
    requires Partition(free, own, chains) && Triple(x) && own[x.d0] == own[x.d1] == own[x.d2] == -2
    ensures x.d0 !in chains && Partition(free, own[x.d0 := x.d0][x.d1 := x.d0][x.d2 := x.d0], chains[x.d0 as int := x])
  {
    var own' := own[x.d0 := x.d0][x.d1 := x.d0][x.d2 := x.d0];
    forall h | h in chains ensures ChainOwned(own', h, chains[h]) && h != x.d0 {
      assert ChainOwned(own, h, chains[h]);
    }
  }

  lemma OfferFormatted(q: Queue, a: nat, b: nat, c: nat, buf: nat, write: bool, blockno: nat, h: int)
    requires InHand(q, a, b, c) && Partition(q.free, q.own, q.chains) && h in q.chains && Triple(q.chains[h])
    requires Formatted(q, q.chains[h])
    ensures Formatted(Offer(q, a, b, c, buf, write, blockno), q.chains[h])
  {
  }

  lemma OfferedFormatted(q: Queue, a: nat, b: nat, c: nat, buf: nat, write: bool, blockno: nat)
    requires InHand(q, a, b, c) && buf != 0
    ensures var r := Request(q, a, b, c, buf, write, blockno);
            Triple(r) && Formatted(Offer(q, a, b, c, buf, write, blockno), r)
  {
  }

  lemma OfferRequests(q: Queue, a: nat, b: nat, c: nat, buf: nat, write: bool, blockno: nat)
    requires Sizes(q) && Partition(q.free, q.own, q.chains) && Requests(q) && InHand(q, a, b, c) && NotInFlight(q, buf)
    ensures Requests(Offer(q, a, b, c, buf, write, blockno))
  {
    hide Formatted, Partition;
    var g, r := Offer(q, a, b, c, buf, write, blockno), Request(q, a, b, c, buf, write, blockno);
    OfferedFormatted(q, a, b, c, buf, write, blockno);
    forall h | h in q.chains && h != a ensures Formatted(g, q.chains[h]) {
      OfferFormatted(q, a, b, c, buf, write, blockno, h);
    }
    OneMore(q, g, a as int, r);
  }

  /** A new request with a new buffer whose b->disk is set. */
  lemma OneMore(q: Queue, g: Queue, a: int, r: Chain)
    requires Sizes(q) && Requests(q) && Sizes(g) && NotInFlight(q, r.buf) && r.phase == Offered
    requires g.chains == q.chains[a := r] && g.flag == q.flag[r.buf := true] && Triple(r) && Formatted(g, r)
    requires forall h :: h in q.chains && h != a ==> Triple(q.chains[h]) && Formatted(g, q.chains[h])
    ensures Requests(g)
  {
    hide Formatted;
  }

  lemma OfferCleared(q: Queue, a: nat, b: nat, c: nat, buf: nat, write: bool, blockno: nat)
    requires Sizes(q) && ClearedOnce(q) && a < NUM && b < NUM && c < NUM && a as int !in q.chains
    ensures ClearedOnce(Offer(q, a, b, c, buf, write, blockno))
  {
    var g := Offer(q, a, b, c, buf, write, blockno);
    forall n | 0 <= n < |g.clears| ensures g.clears[n] == 1 || exists h :: h in g.chains && g.chains[h].no == n {
      if n == |q.clears| {
        assert g.chains[a as int].no == n;
      } else if q.clears[n] != 1 {
        var h :| h in q.chains && q.chains[h].no == n;
        assert g.chains[h].no == n;
      }
    }
  }

  lemma OfferIndices(q: Queue, a: nat, b: nat, c: nat, buf: nat, write: bool, blockno: nat)
    requires Sizes(q) && Indices(q) && a < NUM && b < NUM && c < NUM
    ensures Indices(Offer(q, a, b, c, buf, write, blockno))
  {
    Wrap(|q.clears|);
  }

  lemma OfferRings(q: Queue, a: nat, b: nat, c: nat, buf: nat, write: bool, blockno: nat)
    requires Inv(q) && InHand(q, a, b, c) && a as int !in q.chains
    ensures var g := Offer(q, a, b, c, buf, write, blockno);
            && RingOk(g.availRing, |g.clears|, g.availQ, g.chains, Offered)
            && RingOk(g.usedRing, g.done, g.usedQ, g.chains, Returned)
  {
    hide Partition, Requests, ClearedOnce, RingOk;
    var g := Offer(q, a, b, c, buf, write, blockno);
    AtMostTwo(q);
    Wrap(|q.clears|);
    NotUnread(q, a);
    RingPush(q.availRing, |q.clears|, q.availQ, q.chains, g.chains, Offered, a);
    RingKept(q.usedRing, q.done, q.usedQ, q.chains, g.chains, Returned);
  }

  lemma OfferKeeps(q: Queue, a: nat, b: nat, c: nat, buf: nat, write: bool, blockno: nat)
    requires Inv(q) && InHand(q, a, b, c) && NotInFlight(q, buf)
    ensures Inv(Offer(q, a, b, c, buf, write, blockno))
  {
    hide Partition, Requests, ClearedOnce, RingOk, Indices;
    OfferPartition(q.free, q.own, q.chains, Request(q, a, b, c, buf, write, blockno));
    OfferRequests(q, a, b, c, buf, write, blockno);
    OfferCleared(q, a, b, c, buf, write, blockno);
    OfferIndices(q, a, b, c, buf, write, blockno);
    OfferRings(q, a, b, c, buf, write, blockno);
  }

  lemma NotUnread(q: Queue, a: nat)
    requires Inv(q) && a as int !in q.chains
    ensures a !in q.availQ && a !in q.usedQ
  {
  }

  // ----- the device takes and completes requests -----

  function SetPhase(chains: map<int, Chain>, h: int, phase: Phase): map<int, Chain>
    requires h in chains
  {
    chains[h := chains[h].(phase := phase)]
  }

  lemma PhasePartition(free: seq<bool>, own: seq<int>, chains: map<int, Chain>, h: int, phase: Phase)
    requires Partition(free, own, chains) && h in chains
    ensures Partition(free, own, SetPhase(chains, h, phase))
  {
    var d := SetPhase(chains, h, phase);
    forall g | g in d ensures ChainOwned(own, g, d[g]) { assert ChainOwned(own, g, chains[g]); }
  }

  lemma PhaseCleared(q: Queue, g: Queue, h: int, phase: Phase)
    requires ClearedOnce(q) && h in q.chains && g.chains == SetPhase(q.chains, h, phase) && g.clears == q.clears
    requires phase != Answered && q.chains[h].phase != Answered
    ensures ClearedOnce(g)
  {
    forall n | 0 <= n < |g.clears| && g.clears[n] != 1 ensures exists f :: f in g.chains && g.chains[f].no == n {
      var f :| f in q.chains && q.chains[f].no == n;
      assert g.chains[f].no == n;
    }
  }

  /** The device reads the next entry of the avail ring. */
  function TakeNext(q: Queue): Queue
    requires q.availQ != [] && q.availQ[0] in q.chains
  {
    q.(devIdx := (q.devIdx + 1) % 65536, chains := SetPhase(q.chains, q.availQ[0], Taken), availQ := q.availQ[1..])
  }

  lemma TakeKeeps(q: Queue)
    requires Inv(q) && q.availQ != []
    ensures q.availQ[0] in q.chains && q.chains[q.availQ[0]].phase == Offered
    ensures q.availRing[q.devIdx % NUM] == q.availQ[0]
    ensures Inv(TakeNext(q))
  {
    hide Partition, ClearedOnce, Requests, RingOk;
    RingEntry(q.availRing, |q.clears|, q.availQ, q.chains, Offered, 0);
    var h, g := q.availQ[0], TakeNext(q);
    PhasePartition(q.free, q.own, q.chains, h, Taken);
    PhaseCleared(q, g, h, Taken);
    RingPop(q.availRing, |q.clears|, q.availQ, q.chains, g.chains, Offered);
    RingKept(q.usedRing, q.done, q.usedQ, q.chains, g.chains, Returned);
    Wrap(|q.clears| - |q.availQ|);
    FormattedPhase(q, g, h);
  }

  /** A change of phase between Offered and Taken needs no change of the descriptors. */
  lemma FormattedPhase(q: Queue, g: Queue, h: int)
    requires Sizes(q) && Requests(q) && h in q.chains && q.chains[h].phase == Offered
    requires g == q.(devIdx := g.devIdx, availQ := g.availQ, chains := SetPhase(q.chains, h, Taken))
    ensures Requests(g)
  {
    forall f | f in g.chains ensures Triple(g.chains[f]) && Formatted(g, g.chains[f]) {
      assert Formatted(q, q.chains[f]);
    }
  }

  /** The device writes the status byte that the chain names and puts the head into the used ring. */
  function Complete(q: Queue, h: int): Queue
    requires Sizes(q) && h in q.chains && 0 <= h < NUM
  {
    q.(info := q.info[h := q.info[h].(status := 0)],
       usedRing := q.usedRing[q.usedIdx % NUM := h],
       usedIdx := (q.usedIdx + 1) % 65536,
       chains := SetPhase(q.chains, h, Returned),
       usedQ := q.usedQ + [h],
       done := q.done + 1)
  }

  lemma CompleteRequests(q: Queue, h: int)
    requires Sizes(q) && Partition(q.free, q.own, q.chains) && Requests(q) && h in q.chains
    requires q.chains[h].phase == Taken && 0 <= h < NUM
    ensures Requests(Complete(q, h))
  {
    var g := Complete(q, h);
    forall f | f in g.chains ensures Triple(g.chains[f]) && Formatted(g, g.chains[f]) {
      assert Formatted(q, q.chains[f]) && ChainOwned(q.own, f, q.chains[f]);
    }
  }

  lemma CompleteIndices(q: Queue, h: int)
    requires Sizes(q) && Indices(q) && h in q.chains && 0 <= h < NUM
    ensures Indices(Complete(q, h))
  {
    Wrap(q.done);
  }

  lemma CompleteRings(q: Queue, h: int)
    requires Inv(q) && h in q.chains && q.chains[h].phase == Taken && 0 <= h < NUM
    ensures var g := Complete(q, h);
            && RingOk(g.availRing, |g.clears|, g.availQ, g.chains, Offered)
            && RingOk(g.usedRing, g.done, g.usedQ, g.chains, Returned)
  {
    hide Partition, ClearedOnce, Requests, RingOk;
    var g := Complete(q, h);
    RingEntry(q.usedRing, q.done, q.usedQ, q.chains, Returned, h);
    AtMostTwo(q);
    Wrap(q.done);
    RingKept(q.availRing, |q.clears|, q.availQ, q.chains, g.chains, Offered);
    RingPush(q.usedRing, q.done, q.usedQ, q.chains, g.chains, Returned, h);
  }

  lemma CompleteKeeps(q: Queue, h: int)
    requires Inv(q) && h in q.chains && q.chains[h].phase == Taken
    ensures 0 <= h < NUM && Inv(Complete(q, h))
  {
    hide Partition, ClearedOnce, Requests, RingOk, Indices;
    Owned(q, h);
    var g := Complete(q, h);
    PhasePartition(q.free, q.own, q.chains, h, Returned);
    PhaseCleared(q, g, h, Returned);
    CompleteRequests(q, h);
    CompleteIndices(q, h);
    CompleteRings(q, h);
  }

  // ----- the driver answers and frees requests -----

  /** One turn of virtio_disk_intr's loop. */
  function Answer(q: Queue): Queue
    requires q.usedQ != [] && q.usedQ[0] in q.chains && q.chains[q.usedQ[0]].no < |q.clears|
  {
    var h := q.usedQ[0];
    var c := q.chains[h];
    q.(flag := q.flag[c.buf := false], readIdx := (q.readIdx + 1) % 65536, chains := SetPhase(q.chains, h, Answered),
       usedQ := q.usedQ[1..], clears := q.clears[c.no := q.clears[c.no] + 1])
  }

  lemma AnswerRequests(q: Queue)
    requires Sizes(q) && Requests(q) && q.usedQ != [] && q.usedQ[0] in q.chains && q.chains[q.usedQ[0]].no < |q.clears|
    requires q.chains[q.usedQ[0]].phase == Returned
    ensures Requests(Answer(q))
  {
    var g := Answer(q);
    forall f | f in g.chains ensures Triple(g.chains[f]) && Formatted(g, g.chains[f]) {
      assert Formatted(q, q.chains[f]);
    }
  }

  lemma AnswerCleared(q: Queue)
    requires ClearedOnce(q) && q.usedQ != [] && q.usedQ[0] in q.chains && q.chains[q.usedQ[0]].phase == Returned
    ensures q.chains[q.usedQ[0]].no < |q.clears| && q.clears[q.chains[q.usedQ[0]].no] == 0 && ClearedOnce(Answer(q))
  {
    var h, g := q.usedQ[0], Answer(q);
    forall n | 0 <= n < |g.clears| && g.clears[n] != 1 ensures exists f :: f in g.chains && g.chains[f].no == n {
      var f :| f in q.chains && q.chains[f].no == n;
      assert g.chains[f].no == n;
    }
  }

  lemma AnswerKeeps(q: Queue)
    requires Inv(q) && q.usedQ != []
    ensures q.usedQ[0] in q.chains && q.chains[q.usedQ[0]].phase == Returned
    ensures q.usedRing[q.readIdx % NUM] == q.usedQ[0]
    ensures q.chains[q.usedQ[0]].no < |q.clears| && Inv(Answer(q))
  {
    hide Partition, ClearedOnce, Requests, RingOk;
    var h := q.usedQ[0];
    RingEntry(q.usedRing, q.done, q.usedQ, q.chains, Returned, 0);
    AnswerCleared(q);
    var g := Answer(q);
    PhasePartition(q.free, q.own, q.chains, h, Answered);
    AnswerRequests(q);
    RingPop(q.usedRing, q.done, q.usedQ, q.chains, g.chains, Returned);
    RingKept(q.availRing, |q.clears|, q.availQ, q.chains, g.chains, Offered);
    Wrap(q.done - |q.usedQ|);
  }

  /** virtio_disk_rw after its wait: the three descriptors are free again. */
  function Finish(q: Queue, h: int): Queue
    requires Sizes(q) && h in q.chains && Triple(q.chains[h])
  {
    var c := q.chains[h];
    q.(info := q.info[c.d0 := q.info[c.d0].(b := 0)],
       desc := q.desc[c.d0 := NoDesc()][c.d1 := NoDesc()][c.d2 := NoDesc()],
       free := q.free[c.d0 := true][c.d1 := true][c.d2 := true],
       own := q.own[c.d0 := -1][c.d1 := -1][c.d2 := -1],
       chains := q.chains - {h})
  }

  lemma FinishPartition(free: seq<bool>, own: seq<int>, chains: map<int, Chain>, h: int)
    requires Partition(free, own, chains) && h in chains
    ensures Triple(chains[h])
    ensures var c := chains[h];
            Partition(free[c.d0 := true][c.d1 := true][c.d2 := true], own[c.d0 := -1][c.d1 := -1][c.d2 := -1],
                      chains - {h})
  {
    var c := chains[h];
    assert ChainOwned(own, h, c);
    var own' := own[c.d0 := -1][c.d1 := -1][c.d2 := -1];
    forall g | g in chains && g != h ensures ChainOwned(own', g, chains[g]) { assert ChainOwned(own, g, chains[g]); }
  }

  lemma FinishFormatted(q: Queue, h: int, f: int)
    requires Sizes(q) && h in q.chains && f in q.chains && f != h
    requires ChainOwned(q.own, h, q.chains[h]) && ChainOwned(q.own, f, q.chains[f]) && Formatted(q, q.chains[f])
    ensures Formatted(Finish(q, h), q.chains[f])
  {
  }

  lemma FinishRequests(q: Queue, h: int)
    requires Sizes(q) && Partition(q.free, q.own, q.chains) && Requests(q) && h in q.chains
    ensures Triple(q.chains[h]) && Requests(Finish(q, h))
  {
    hide Formatted;
    assert ChainOwned(q.own, h, q.chains[h]);
    var g := Finish(q, h);
    forall f | f in g.chains ensures Triple(g.chains[f]) && Formatted(g, g.chains[f]) {
      assert ChainOwned(q.own, f, q.chains[f]);
      FinishFormatted(q, h, f);
    }
  }

  lemma FinishCleared(q: Queue, g: Queue, h: int)
    requires ClearedOnce(q) && h in q.chains && q.chains[h].phase == Answered && g.chains == q.chains - {h}
    requires g.clears == q.clears
    ensures ClearedOnce(g)
  {
    forall n | 0 <= n < |g.clears| && g.clears[n] != 1 ensures exists f :: f in g.chains && g.chains[f].no == n {
      var f :| f in q.chains && q.chains[f].no == n;
      assert f in g.chains && g.chains[f].no == n;
    }
  }

  lemma FinishKeeps(q: Queue, h: int)
    requires Inv(q) && h in q.chains && q.chains[h].phase == Answered
    ensures Triple(q.chains[h]) && Inv(Finish(q, h))
  {
    hide Partition, ClearedOnce, Requests;
    FinishPartition(q.free, q.own, q.chains, h);
    FinishRequests(q, h);
    var g := Finish(q, h);
    FinishCleared(q, g, h);
    RingKept(q.availRing, |q.clears|, q.availQ, q.chains, g.chains, Offered);
    RingKept(q.usedRing, q.done, q.usedQ, q.chains, g.chains, Returned);
  }

  // ----- descriptors outside of any request -----

  /** alloc_desc's effect. */
  function Reserve(q: Queue, i: nat): Queue
    requires Sizes(q) && i < NUM
  {
    q.(free := q.free[i := false], own := q.own[i := -2])
  }

  /** free_desc's effect. */
  function Release(q: Queue, i: nat): Queue
    requires Sizes(q) && i < NUM
  {
    q.(free := q.free[i := true], own := q.own[i := -1], desc := q.desc[i := NoDesc()])
  }

  lemma ReservePartition(q: Queue, i: nat)
    requires Sizes(q) && Partition(q.free, q.own, q.chains) && i < NUM && q.free[i]
    ensures var g := Reserve(q, i); Partition(g.free, g.own, g.chains)
  {
    var g := Reserve(q, i);
    forall h | h in q.chains ensures ChainOwned(g.own, h, q.chains[h]) {
      assert ChainOwned(q.own, h, q.chains[h]);
    }
  }

  lemma ReserveFormatted(q: Queue, i: nat, h: int)
    requires Sizes(q) && Partition(q.free, q.own, q.chains) && i < NUM && q.free[i]
    requires h in q.chains && Triple(q.chains[h]) && Formatted(q, q.chains[h])
    ensures Formatted(Reserve(q, i), q.chains[h])
  {
    assert ChainOwned(q.own, h, q.chains[h]);
  }

  lemma ReserveRequests(q: Queue, i: nat)
    requires Sizes(q) && Partition(q.free, q.own, q.chains) && Requests(q) && i < NUM && q.free[i]
    ensures Requests(Reserve(q, i))
  {
    hide Partition, Formatted;
    forall h | h in q.chains ensures Formatted(Reserve(q, i), q.chains[h]) {
      ReserveFormatted(q, i, h);
    }
  }

  lemma ReserveKeeps(q: Queue, i: nat)
    requires Inv(q) && i < NUM && q.free[i]
    ensures Inv(Reserve(q, i))
  {
    ReservePartition(q, i);
    ReserveRequests(q, i);
    hide Partition, Requests, RingOk, ClearedOnce, Indices;
  }

  lemma ReleasePartition(q: Queue, i: nat)
    requires Sizes(q) && Partition(q.free, q.own, q.chains) && i < NUM && q.own[i] == -2
    ensures var g := Release(q, i); Partition(g.free, g.own, g.chains)
  {
    var g := Release(q, i);
    forall h | h in q.chains ensures ChainOwned(g.own, h, q.chains[h]) {
      assert ChainOwned(q.own, h, q.chains[h]);
    }
  }

  lemma ReleaseFormatted(q: Queue, i: nat, h: int)
    requires Sizes(q) && Partition(q.free, q.own, q.chains) && i < NUM && q.own[i] == -2
    requires h in q.chains && Triple(q.chains[h]) && Formatted(q, q.chains[h])
    ensures Formatted(Release(q, i), q.chains[h])
  {
    assert ChainOwned(q.own, h, q.chains[h]);
  }

  lemma ReleaseRequests(q: Queue, i: nat)
    requires Sizes(q) && Partition(q.free, q.own, q.chains) && Requests(q) && i < NUM && q.own[i] == -2
    ensures Requests(Release(q, i))
  {
    hide Partition, Formatted;
    forall h | h in q.chains ensures Formatted(Release(q, i), q.chains[h]) {
      ReleaseFormatted(q, i, h);
    }
  }

  lemma ReleaseKeeps(q: Queue, i: nat)
    requires Inv(q) && i < NUM && q.own[i] == -2
    ensures Inv(Release(q, i))
  {
    ReleasePartition(q, i);
    ReleaseRequests(q, i);
    hide Partition, Requests, RingOk, ClearedOnce, Indices;
  }

  // ----- every interleaving -----

  /** Requests from any thread with any free descriptors, steps of the device in any order, turns of the interrupt
      handler's loop, and threads that find their b->disk cleared. */
  datatype Event =
    | Submit(a: nat, b: nat, c: nat, buf: nat, write: bool, blockno: nat)
    | Take
    | Done(h: int)
    | Irq
    | Free(h: int)

  ghost predicate Enabled(q: Queue, e: Event) {
    Sizes(q) && match e
    case Submit(a, b, c, buf, _, _) =>
      && a < NUM && b < NUM && c < NUM && a != b && a != c && b != c
      && q.free[a] && q.free[b] && q.free[c] && NotInFlight(q, buf)
    case Take => q.devIdx != q.availIdx
    case Done(h) => h in q.chains && q.chains[h].phase == Taken
    case Irq => q.readIdx != q.usedIdx
    case Free(h) => h in q.chains && q.chains[h].buf in q.flag && !q.flag[q.chains[h].buf]
  }

  /** The 16-bit comparisons of device and driver tell whether their ring has unread entries. */
  lemma IndexTells(q: Queue)
    requires Inv(q)
    ensures q.devIdx != q.availIdx <==> q.availQ != []
    ensures q.readIdx != q.usedIdx <==> q.usedQ != []
  {
    AtMostTwo(q);
    Near(|q.clears|, |q.availQ|);
    Near(q.done, |q.usedQ|);
  }

  lemma Near(n: nat, k: nat)
    requires k <= n && k <= 2
    ensures (n - k) % 65536 == n % 65536 <==> k == 0
  {
  }

  /** A thread's test of b->disk tells that its request has been answered. */
  lemma FlagTells(q: Queue, h: int)
    requires Inv(q) && h in q.chains && q.chains[h].buf in q.flag
    ensures !q.flag[q.chains[h].buf] <==> q.chains[h].phase == Answered
  {
  }

  ghost predicate Next(q: Queue, e: Event, g: Queue)
    requires Enabled(q, e)
  {
    match e
    case Submit(a, b, c, buf, write, blockno) =>
      g == Offer(Reserve(Reserve(Reserve(q, a), b), c), a, b, c, buf, write, blockno)
    case Take => q.availQ != [] && q.availQ[0] in q.chains && g == TakeNext(q)
    case Done(h) => 0 <= h < NUM && g == Complete(q, h)
    case Irq => q.usedQ != [] && q.usedQ[0] in q.chains && q.chains[q.usedQ[0]].no < |q.clears| && g == Answer(q)
    case Free(h) => Triple(q.chains[h]) && g == Finish(q, h)
  }

  lemma StepKeepsInv(q: Queue, e: Event, g: Queue)
    requires Inv(q) && Enabled(q, e) && Next(q, e, g)
    ensures Inv(g)
  {
    hide Inv, Partition, Requests, RingOk, ClearedOnce, Indices, Offer, TakeNext, Complete, Answer, Finish;
    match e
    case Submit(a, b, c, buf, write, blockno) => SubmitKeeps(q, a, b, c, buf, write, blockno);
    case Take => TakeKeeps(q);
    case Done(h) => CompleteKeeps(q, h);
    case Irq => AnswerKeeps(q);
    case Free(h) => FlagTells(q, h); FinishKeeps(q, h);
  }

  lemma SubmitKeeps(q: Queue, a: nat, b: nat, c: nat, buf: nat, write: bool, blockno: nat)
    requires Inv(q) && Enabled(q, Submit(a, b, c, buf, write, blockno))
    ensures Inv(Offer(Reserve(Reserve(Reserve(q, a), b), c), a, b, c, buf, write, blockno))
  {
    hide Inv;
    ReserveKeeps(q, a);
    ReserveKeeps(Reserve(q, a), b);
    ReserveKeeps(Reserve(Reserve(q, a), b), c);
    OfferKeeps(Reserve(Reserve(Reserve(q, a), b), c), a, b, c, buf, write, blockno);
  }

  /** A run: each state follows from the one before by its event. */
  ghost predicate Run(qs: seq<Queue>, es: seq<Event>) {
    && |qs| == |es| + 1 && Init(qs[0])
    && forall i, j :: 0 <= i < |es| && j == i + 1 ==> Enabled(qs[i], es[i]) && Next(qs[i], es[i], qs[j])
  }

  /** After virtio_disk_init. */
  ghost predicate Init(q: Queue) {
    && Sizes(q) && q.chains == map[] && q.availQ == q.usedQ == q.clears == [] && q.done == 0
    && q.availIdx == q.usedIdx == q.readIdx == q.devIdx == 0
    && forall i :: 0 <= i < NUM ==> q.free[i] && q.own[i] == -1
  }

  lemma InitInv(q: Queue)
    requires Init(q)
    ensures Inv(q)
  {
  }

  lemma {:induction false} RunKeepsInv(qs: seq<Queue>, es: seq<Event>, n: nat)
    requires Run(qs, es) && n < |qs|
    ensures Inv(qs[n])
  {
    hide Inv, Enabled, Next, Init;
    if n == 0 {
      InitInv(qs[0]);
    } else {
      RunKeepsInv(qs, es, n - 1);
      StepKeepsInv(qs[n - 1], es[n - 1], qs[n]);
    }
  }

  /** In every state of every run: at most two requests are in flight, each b->disk was cleared at most once, and
      exactly once if the request is over. */
  lemma EveryRun(qs: seq<Queue>, es: seq<Event>, n: nat, request: nat)
    requires Run(qs, es) && n < |qs| && request < |qs[n].clears|
    ensures |qs[n].chains| <= 2 && qs[n].clears[request] <= 1
    ensures (forall h :: h in qs[n].chains ==> qs[n].chains[h].no != request) ==> qs[n].clears[request] == 1
  {
    RunKeepsInv(qs, es, n);
    AtMostTwo(qs[n]);
  }
}
