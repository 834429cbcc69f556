/** virtio_disk.c: descriptors, the avail and used rings of a split virtqueue (VIRTIO 1.1,
    section 2.6) and block requests (section 5.2), shared with a device that completes
    requests in any order. Each method of the driver is one section under vdisk_lock; any
    interleaving of submitters, interrupts and device steps is a sequence of these calls. */
module Virtio {
  const NUM: nat := 8
  const WRAP: nat := 0x1_0000

  datatype Addr = Null | OpAt(i: nat) | DataOf(b: nat) | StatusAt(i: nat)

  datatype Desc = Desc(addr: Addr, len: nat, more: bool, deviceWrites: bool, next: nat)

  const NO_DESC := Desc(Null, 0, false, false, 0)

  datatype Req = Req(write: bool, sector: nat)

  /** info[i]: the buffer (-1 for none) and the status byte of the chain headed by i. */
  datatype Info = Info(b: int, status: nat)

  /** What a chain was made for: its buffer and request, and its other two descriptors. */
  datatype Chain = Chain(b: nat, write: bool, blockno: nat, mid: nat, last: nat)

  /** The driver's and the device's state, and who owns what: `owner` names the head of
      the chain that a descriptor is in (NUM when free); the heads of all chains are in
      `queue` (avail ring, not taken yet), `inDevice`, `usedQueue` (used ring, interrupt
      pending) or `done`. `taken` and `handled` count requests since boot. */
  datatype Vq<T> = Vq(
    free: seq<bool>, desc: seq<Desc>, ops: seq<Req>, info: seq<Info>,
    avail: seq<nat>, availIdx: nat, used: seq<nat>, usedIdx: nat, seen: nat,
    busy: map<nat, bool>, data: map<nat, T>, disk: seq<T>,
    chains: map<nat, Chain>, owner: seq<nat>,
    queue: seq<nat>, taken: nat, inDevice: set<nat>, usedQueue: seq<nat>, handled: nat, done: set<nat>)

  predicate Distinct(s: seq<nat>) {
    forall i, j :: 0 <= i < j < |s| ==> s[i] != s[j]
  }

  // ----- the invariant

  ghost predicate Shape<T>(v: Vq<T>) {
    && |v.free| == |v.desc| == |v.ops| == |v.info| == |v.avail| == |v.used| == |v.owner| == NUM
    && v.busy.Keys == v.data.Keys
  }

  predicate InChain(h: nat, c: Chain, i: nat) {
    i == h || i == c.mid || i == c.last
  }

  /** The descriptors split into free ones and disjoint chains of three. */
  ghost predicate Split(free: seq<bool>, desc: seq<Desc>, owner: seq<nat>, chains: map<nat, Chain>) {
    && |free| == |desc| == |owner| == NUM
    && (forall i: nat :: i < NUM ==> OwnerOk(free, desc, owner, chains, i))
    && (forall h :: h in chains ==> ChainOwned(owner, h, chains[h]))
  }

  predicate OwnerOk(free: seq<bool>, desc: seq<Desc>, owner: seq<nat>, chains: map<nat, Chain>, i: nat)
    requires |free| == |desc| == |owner| == NUM && i < NUM
  {
    if free[i] then owner[i] == NUM && desc[i] == NO_DESC
    else owner[i] < NUM && owner[i] in chains && InChain(owner[i], chains[owner[i]], i)
  }

  predicate ChainOwned(owner: seq<nat>, h: nat, c: Chain) {
    && |owner| == NUM && h < NUM && c.mid < NUM && c.last < NUM && h != c.mid && h != c.last && c.mid != c.last
    && owner[h] == owner[c.mid] == owner[c.last] == h
  }

  /** The three descriptors of a chain, and what the first and last point to. */
  predicate Formatted<T>(v: Vq<T>, h: nat, c: Chain)
    requires v.busy.Keys == v.data.Keys
  {
    && h < |v.desc| && c.mid < |v.desc| && c.last < |v.desc| && h < |v.ops| && h < |v.info|
    && v.desc[h] == Desc(OpAt(h), 16, true, false, c.mid)
    && v.desc[c.mid] == Desc(DataOf(c.b), 1024, true, !c.write, c.last)
    && v.desc[c.last] == Desc(StatusAt(h), 1, false, true, 0)
    && v.ops[h] == Req(c.write, 2 * c.blockno)
    && v.info[h].b == c.b && c.b in v.data && c.blockno < |v.disk|
    && (h in v.usedQueue ==> v.info[h].status == 0)
    && (v.busy[c.b] <==> h !in v.done)
  }

  ghost predicate ChainsOk<T>(v: Vq<T>)
    requires v.busy.Keys == v.data.Keys
  {
    && (forall h :: h in v.chains ==> Formatted(v, h, v.chains[h]))
    && (forall h, g :: h in v.chains && g in v.chains && h != g ==> v.chains[h].b != v.chains[g].b)
  }

  /** The entries from `start` on hold the pending heads in order, and the 16-bit index
      says where the next one goes. */
  ghost predicate RingOk(ring: seq<nat>, start: nat, pending: seq<nat>, idx: nat) {
    && |ring| == NUM && |pending| <= NUM && idx == (start + |pending|) % WRAP
    && forall k :: 0 <= k < |pending| ==> ring[Entry(start + k)] == pending[k]
  }

  function Entry(n: nat): (e: nat)
    ensures e < NUM
  {
    n % NUM
  }

  /** Where the head of every chain is. */
  ghost predicate Phases(heads: set<nat>, queue: seq<nat>, inDevice: set<nat>, usedQueue: seq<nat>, done: set<nat>) {
    && Distinct(queue) && Distinct(usedQueue)
    && (forall h :: h in heads <==> h in queue || h in inDevice || h in usedQueue || h in done)
    && (forall h :: h in queue ==> h !in inDevice && h !in usedQueue && h !in done)
    && (forall h :: h in inDevice ==> h !in usedQueue && h !in done)
    && (forall h :: h in usedQueue ==> h !in done)
  }

  ghost predicate Inv<T>(v: Vq<T>) {
    && Shape(v) && Split(v.free, v.desc, v.owner, v.chains) && ChainsOk(v)
    && RingOk(v.avail, v.taken, v.queue, v.availIdx)
    && RingOk(v.used, v.handled, v.usedQueue, v.usedIdx) && v.seen == v.handled % WRAP
    && Phases(v.chains.Keys, v.queue, v.inDevice, v.usedQueue, v.done)
  }

  // ----- what each section does to the state

  /** virtio_disk_rw up to its first wait for the completion: three descriptors taken,
      then the request written into them. */
  function Submitted<T>(v: Vq<T>, h: nat, c: Chain): Vq<T>
    requires |v.free| == |v.desc| == |v.ops| == |v.info| == |v.avail| == |v.owner| == NUM && h < NUM && c.mid < NUM
             && c.last < NUM
  {
    Requested(v.(free := v.free[h := false][c.mid := false][c.last := false]), h, c)
  }

  function Requested<T>(v: Vq<T>, h: nat, c: Chain): Vq<T>
    requires |v.desc| == |v.ops| == |v.info| == |v.avail| == |v.owner| == NUM && h < NUM && c.mid < NUM && c.last < NUM
  {
    v.(desc := v.desc[h := Desc(OpAt(h), 16, true, false, c.mid)]
                     [c.mid := Desc(DataOf(c.b), 1024, true, !c.write, c.last)]
                     [c.last := Desc(StatusAt(h), 1, false, true, 0)],
       ops := v.ops[h := Req(c.write, 2 * c.blockno)],
       info := v.info[h := Info(c.b, 0xff)],
       busy := v.busy[c.b := true],
       avail := v.avail[Entry(v.availIdx) := h], availIdx := (v.availIdx + 1) % WRAP,
       chains := v.chains[h := c], owner := v.owner[h := h][c.mid := h][c.last := h], queue := v.queue + [h])
  }

  /** The device reads the next avail entry. */
  function Taken<T>(v: Vq<T>): Vq<T>
    requires |v.queue| > 0
  {
    v.(queue := v.queue[1..], taken := v.taken + 1, inDevice := v.inDevice + {v.queue[0]})
  }

  /** The device carries out request c, headed by h, and reports it in the used ring. */
  function Completed<T>(v: Vq<T>, h: nat, c: Chain): Vq<T>
    requires |v.info| == |v.used| == NUM && h < NUM && c.b in v.data && c.blockno < |v.disk|
  {
    v.(disk := if c.write then v.disk[c.blockno := v.data[c.b]] else v.disk,
       data := if c.write then v.data else v.data[c.b := v.disk[c.blockno]],
       info := v.info[h := v.info[h].(status := 0)],
       used := v.used[Entry(v.usedIdx) := h], usedIdx := (v.usedIdx + 1) % WRAP,
       inDevice := v.inDevice - {h}, usedQueue := v.usedQueue + [h])
  }

  /** One turn of virtio_disk_intr's loop. */
  function Handled<T>(v: Vq<T>): Vq<T>
    requires |v.usedQueue| > 0 && v.usedQueue[0] in v.chains
  {
    var h := v.usedQueue[0];
    v.(busy := v.busy[v.chains[h].b := false], seen := (v.seen + 1) % WRAP,
       usedQueue := v.usedQueue[1..], handled := v.handled + 1, done := v.done + {h})
  }

  /** The rest of virtio_disk_rw, once its buffer is not busy any more. */
  function Finished<T>(v: Vq<T>, h: nat): Vq<T>
    requires |v.free| == |v.desc| == |v.info| == |v.owner| == NUM && h in v.chains
             && ChainOwned(v.owner, h, v.chains[h])
  {
    var c := v.chains[h];
    v.(free := v.free[h := true][c.mid := true][c.last := true],
       desc := v.desc[h := NO_DESC][c.mid := NO_DESC][c.last := NO_DESC],
       info := v.info[h := v.info[h].(b := -1)],
       chains := v.chains - {h}, owner := v.owner[h := NUM][c.mid := NUM][c.last := NUM], done := v.done - {h})
  }

  // ----- rings

  /** The 16-bit indices wrap at a multiple of the ring size. */
  lemma EntryWraps(n: nat)
    ensures Entry(n % WRAP) == Entry(n) && (n % WRAP + 1) % WRAP == (n + 1) % WRAP
  {
    var q := n / WRAP;
    assert n == WRAP * q + n % WRAP;
    SameEntry(q, n % WRAP);
    NextIndex(q, n % WRAP);
  }

  lemma SameEntry(q: nat, r: nat)
    ensures Entry(WRAP * q + r) == Entry(r)
  {
    var k := WRAP / NUM * q;
    assert (NUM * k + r) % NUM == r % NUM;
  }

  lemma NextIndex(q: nat, r: nat)
    requires r < WRAP
    ensures (r + 1) % WRAP == (WRAP * q + r + 1) % WRAP
  {
  }

  lemma SmallOffset(start: nat, n: nat)
    requires n <= NUM
    ensures (start + n) % WRAP == start % WRAP <==> n == 0
  {
  }

  lemma EntriesApart(start: nat, k: nat, m: nat)
    requires k < m < k + NUM
    ensures Entry(start + k) != Entry(start + m)
  {
  }

  lemma RingPush(ring: seq<nat>, start: nat, pending: seq<nat>, idx: nat, h: nat)
    requires RingOk(ring, start, pending, idx) && |pending| < NUM
    ensures RingOk(ring[Entry(idx) := h], start, pending + [h], (idx + 1) % WRAP)
  {
    hide Entry;
    EntryWraps(start + |pending|);
    forall k | 0 <= k < |pending|
      ensures ring[Entry(idx) := h][Entry(start + k)] == pending[k]
    {
      EntriesApart(start, k, |pending|);
    }
  }

  lemma RingPop(ring: seq<nat>, start: nat, pending: seq<nat>, idx: nat)
    requires RingOk(ring, start, pending, idx)
    ensures pending == [] <==> idx == start % WRAP
    ensures pending != [] ==> ring[Entry(start % WRAP)] == pending[0] && RingOk(ring, start + 1, pending[1..], idx)
  {
    hide Entry;
    SmallOffset(start, |pending|);
    if pending != [] {
      EntryWraps(start);
      assert ring[Entry(start + 0)] == pending[0];
      forall k | 0 <= k < |pending| - 1
        ensures ring[Entry(start + 1 + k)] == pending[1..][k]
      {
        assert start + 1 + k == start + (k + 1);
      }
    }
  }

  /** Distinct descriptor numbers fit a ring, with room for one that is not among them. */
  lemma RoomForOne(pending: seq<nat>, h: nat)
    requires Distinct(pending) && h !in pending && h < NUM && forall k :: 0 <= k < |pending| ==> pending[k] < NUM
    ensures |pending| < NUM
  {
    DistinctBelow(pending + [h], NUM);
  }

  lemma {:induction false} DistinctBelow(s: seq<nat>, n: nat)
    requires Distinct(s) && forall k :: 0 <= k < |s| ==> s[k] < n
    ensures |s| <= n
    decreases n
  {
    assert s == [] || s[0] < n;
    if n > 0 && n - 1 in s {
      var k :| 0 <= k < |s| && s[k] == n - 1;
      var rest := s[..k] + s[k + 1..];
      DistinctBelow(rest, n - 1);
    } else if n > 0 {
      DistinctBelow(s, n - 1);
    }
  }

  // ----- every section keeps the invariant

  /** Three free descriptors for a buffer that is not in flight. */
  ghost predicate CanSubmit<T>(v: Vq<T>, h: nat, c: Chain)
    requires Shape(v)
  {
    && h < NUM && c.mid < NUM && c.last < NUM && h != c.mid && h != c.last && c.mid != c.last
    && v.free[h] && v.free[c.mid] && v.free[c.last]
    && c.b in v.data && c.blockno < |v.disk| && forall g :: g in v.chains ==> v.chains[g].b != c.b
  }

  lemma SubmitKeepsSplit<T>(v: Vq<T>, h: nat, c: Chain)
    requires Shape(v) && Split(v.free, v.desc, v.owner, v.chains) && CanSubmit(v, h, c)
    ensures h !in v.chains
    ensures var t := Submitted(v, h, c); Split(t.free, t.desc, t.owner, t.chains)
  {
    hide OwnerOk, ChainOwned;
    FreeHead(v, h, c);
    var t := Submitted(v, h, c);
    forall i: nat | i < NUM
      ensures OwnerOk(t.free, t.desc, t.owner, t.chains, i)
    {
      SubmitOwner(v, h, c, i);
    }
    SubmitOwns(v, h, c, t);
  }

  lemma FreeHead<T>(v: Vq<T>, h: nat, c: Chain)
    requires Shape(v) && Split(v.free, v.desc, v.owner, v.chains) && CanSubmit(v, h, c)
    ensures h !in v.chains
  {
    assert h in v.chains ==> ChainOwned(v.owner, h, v.chains[h]);
    assert OwnerOk(v.free, v.desc, v.owner, v.chains, h);
  }

  lemma SubmitOwner<T>(v: Vq<T>, h: nat, c: Chain, i: nat)
    requires Shape(v) && CanSubmit(v, h, c) && h !in v.chains && i < NUM
             && OwnerOk(v.free, v.desc, v.owner, v.chains, i)
    ensures var t := Submitted(v, h, c); OwnerOk(t.free, t.desc, t.owner, t.chains, i)
  {
  }

  lemma SubmitOwns<T>(v: Vq<T>, h: nat, c: Chain, t: Vq<T>)
    requires Shape(v) && Split(v.free, v.desc, v.owner, v.chains) && CanSubmit(v, h, c) && t == Submitted(v, h, c)
    ensures forall g :: g in t.chains ==> ChainOwned(t.owner, g, t.chains[g])
  {
    assert OwnerOk(v.free, v.desc, v.owner, v.chains, h) && OwnerOk(v.free, v.desc, v.owner, v.chains, c.mid)
           && OwnerOk(v.free, v.desc, v.owner, v.chains, c.last);
    forall g | g in t.chains
      ensures ChainOwned(t.owner, g, t.chains[g])
    {
      assert g != h ==> ChainOwned(v.owner, g, v.chains[g]);
    }
  }

  lemma SubmitKeepsChains<T>(v: Vq<T>, h: nat, c: Chain)
    requires Shape(v) && Split(v.free, v.desc, v.owner, v.chains) && ChainsOk(v) && CanSubmit(v, h, c) && h !in v.chains
    requires Phases(v.chains.Keys, v.queue, v.inDevice, v.usedQueue, v.done)
    ensures ChainsOk(Submitted(v, h, c))
  {
    hide Formatted, ChainOwned, OwnerOk;
    var t := Submitted(v, h, c);
    forall g | g in t.chains
      ensures Formatted(t, g, t.chains[g])
    {
      if g == h {
        SubmitFormats(v, h, c);
      } else {
        SubmitApart(v, h, c, g);
        SubmitKeepsFormat(v, h, c, g);
      }
    }
  }

  lemma SubmitFormats<T>(v: Vq<T>, h: nat, c: Chain)
    requires Shape(v) && CanSubmit(v, h, c) && h !in v.chains
             && Phases(v.chains.Keys, v.queue, v.inDevice, v.usedQueue, v.done)
    ensures var t := Submitted(v, h, c); t.busy.Keys == t.data.Keys && Formatted(t, h, c)
  {
  }

  /** Another chain has no descriptor that is free. */
  lemma SubmitApart<T>(v: Vq<T>, h: nat, c: Chain, g: nat)
    requires Shape(v) && Split(v.free, v.desc, v.owner, v.chains) && CanSubmit(v, h, c) && g in v.chains
    ensures g < NUM && v.chains[g].mid < NUM && v.chains[g].last < NUM
    ensures !v.free[g] && !v.free[v.chains[g].mid] && !v.free[v.chains[g].last]
  {
    assert ChainOwned(v.owner, g, v.chains[g]);
    assert OwnerOk(v.free, v.desc, v.owner, v.chains, g);
    assert OwnerOk(v.free, v.desc, v.owner, v.chains, v.chains[g].mid);
    assert OwnerOk(v.free, v.desc, v.owner, v.chains, v.chains[g].last);
  }

  lemma SubmitKeepsFormat<T>(v: Vq<T>, h: nat, c: Chain, g: nat)
    requires Shape(v) && CanSubmit(v, h, c) && g in v.chains && g != h && Formatted(v, g, v.chains[g])
    requires g < NUM && v.chains[g].mid < NUM && v.chains[g].last < NUM
    requires !v.free[g] && !v.free[v.chains[g].mid] && !v.free[v.chains[g].last]
    ensures var t := Submitted(v, h, c); t.busy.Keys == t.data.Keys && Formatted(t, g, v.chains[g])
  {
  }

  lemma SubmitKeepsPhases<T>(v: Vq<T>, h: nat, c: Chain)
    requires Shape(v) && CanSubmit(v, h, c) && h !in v.chains
    requires Phases(v.chains.Keys, v.queue, v.inDevice, v.usedQueue, v.done)
    ensures var t := Submitted(v, h, c); Phases(t.chains.Keys, t.queue, t.inDevice, t.usedQueue, t.done)
  {
  }

  lemma SubmitKeeps<T>(v: Vq<T>, h: nat, c: Chain)
    requires Inv(v) && CanSubmit(v, h, c)
    ensures Inv(Submitted(v, h, c)) && h !in v.chains && |v.queue| < NUM
  {
    hide Split, ChainsOk, RingOk, Phases;
    SubmitKeepsSplit(v, h, c);
    SubmitKeepsChains(v, h, c);
    SubmitKeepsPhases(v, h, c);
    HeadsBelow(v, h);
    RingPush(v.avail, v.taken, v.queue, v.availIdx, h);
  }

  lemma HeadsBelow<T>(v: Vq<T>, h: nat)
    requires Inv(v) && h < NUM
    ensures h !in v.queue || h !in v.chains ==> |v.queue| < NUM
    ensures h !in v.usedQueue || h !in v.chains ==> |v.usedQueue| < NUM
  {
    forall k | 0 <= k < |v.queue|
      ensures v.queue[k] < NUM
    {
      assert v.queue[k] in v.chains && ChainOwned(v.owner, v.queue[k], v.chains[v.queue[k]]);
    }
    forall k | 0 <= k < |v.usedQueue|
      ensures v.usedQueue[k] < NUM
    {
      assert v.usedQueue[k] in v.chains && ChainOwned(v.owner, v.usedQueue[k], v.chains[v.usedQueue[k]]);
    }
    if h !in v.queue {
      RoomForOne(v.queue, h);
    }
    if h !in v.usedQueue {
      RoomForOne(v.usedQueue, h);
    }
  }

  lemma TakeKeeps<T>(v: Vq<T>)
    requires Inv(v) && v.queue != []
    ensures Inv(Taken(v)) && v.avail[Entry(v.taken % WRAP)] == v.queue[0] && v.queue[0] in v.chains
  {
    hide Split, RingOk, Phases, ChainsOk;
    RingPop(v.avail, v.taken, v.queue, v.availIdx);
    TakePhases(v);
    TakeChains(v);
  }

  lemma TakeChains<T>(v: Vq<T>)
    requires Shape(v) && ChainsOk(v) && v.queue != []
    ensures ChainsOk(Taken(v))
  {
    assert forall h :: h in v.chains ==> Formatted(v, h, v.chains[h]);
  }

  lemma TakePhases<T>(v: Vq<T>)
    requires Phases(v.chains.Keys, v.queue, v.inDevice, v.usedQueue, v.done) && v.queue != []
    ensures var t := Taken(v); Phases(t.chains.Keys, t.queue, t.inDevice, t.usedQueue, t.done)
    ensures v.queue[0] in v.chains
  {
    assert v.queue == [v.queue[0]] + v.queue[1..];
    assert v.queue[0] !in v.queue[1..];
  }

  lemma CompleteKeeps<T>(v: Vq<T>, h: nat)
    requires Inv(v) && h in v.inDevice
    ensures h in v.chains && h < NUM && v.chains[h].b in v.data && v.chains[h].blockno < |v.disk|
    ensures Inv(Completed(v, h, v.chains[h]))
  {
    hide Split, RingOk, Phases, ChainsOk;
    InDeviceFacts(v, h);
    HeadsBelow(v, h);
    CompletePhases(v, h);
    RingPush(v.used, v.handled, v.usedQueue, v.usedIdx, h);
    CompleteChains(v, h);
  }

  lemma InDeviceFacts<T>(v: Vq<T>, h: nat)
    requires Inv(v) && (h in v.inDevice || h in v.usedQueue || h in v.done)
    ensures h in v.chains && h < NUM && v.chains[h].b in v.data && v.chains[h].blockno < |v.disk|
    ensures Formatted(v, h, v.chains[h]) && ChainOwned(v.owner, h, v.chains[h])
    ensures h in v.inDevice ==> h !in v.usedQueue
  {
    assert Formatted(v, h, v.chains[h]) && ChainOwned(v.owner, h, v.chains[h]);
  }

  lemma CompletePhases<T>(v: Vq<T>, h: nat)
    requires Phases(v.chains.Keys, v.queue, v.inDevice, v.usedQueue, v.done) && h in v.inDevice
    ensures Phases(v.chains.Keys, v.queue, v.inDevice - {h}, v.usedQueue + [h], v.done)
  {
  }

  lemma CompleteChains<T>(v: Vq<T>, h: nat)
    requires Shape(v) && ChainsOk(v) && h in v.chains && h < NUM && v.chains[h].b in v.data
             && v.chains[h].blockno < |v.disk|
    ensures Shape(Completed(v, h, v.chains[h])) && ChainsOk(Completed(v, h, v.chains[h]))
  {
    var t := Completed(v, h, v.chains[h]);
    assert t.busy.Keys == t.data.Keys;
    forall g | g in t.chains
      ensures Formatted(t, g, t.chains[g])
    {
      assert Formatted(v, g, v.chains[g]);
    }
  }

  lemma HandleKeeps<T>(v: Vq<T>)
    requires Inv(v) && v.usedQueue != []
    ensures v.usedQueue[0] in v.chains && v.used[Entry(v.seen)] == v.usedQueue[0]
    ensures Formatted(v, v.usedQueue[0], v.chains[v.usedQueue[0]])
    ensures Inv(Handled(v))
  {
    hide Split, RingOk, Phases, ChainsOk, Entry;
    InDeviceFacts(v, v.usedQueue[0]);
    RingPop(v.used, v.handled, v.usedQueue, v.usedIdx);
    EntryWraps(v.handled);
    HandlePhases(v);
    HandleChains(v);
  }

  lemma HandlePhases<T>(v: Vq<T>)
    requires Phases(v.chains.Keys, v.queue, v.inDevice, v.usedQueue, v.done) && v.usedQueue != []
    ensures v.usedQueue[0] !in v.usedQueue[1..]
    ensures Phases(v.chains.Keys, v.queue, v.inDevice, v.usedQueue[1..], v.done + {v.usedQueue[0]})
  {
    assert v.usedQueue == [v.usedQueue[0]] + v.usedQueue[1..];
  }

  lemma HandleChains<T>(v: Vq<T>)
    requires Shape(v) && ChainsOk(v) && v.usedQueue != [] && v.usedQueue[0] in v.chains
    ensures Shape(Handled(v)) && ChainsOk(Handled(v))
  {
    var t, h := Handled(v), v.usedQueue[0];
    assert Formatted(v, h, v.chains[h]);
    assert t.busy.Keys == t.data.Keys;
    forall g | g in t.chains
      ensures Formatted(t, g, t.chains[g])
    {
      assert Formatted(v, g, v.chains[g]);
      assert v.usedQueue[1..] == [] || forall k :: 0 <= k < |v.usedQueue[1..]| ==>
               v.usedQueue[1..][k] == v.usedQueue[k + 1];
    }
  }

  lemma FinishKeeps<T>(v: Vq<T>, h: nat)
    requires Inv(v) && h in v.done
    ensures h in v.chains && ChainOwned(v.owner, h, v.chains[h]) && Formatted(v, h, v.chains[h])
    ensures Inv(Finished(v, h))
  {
    hide RingOk, Split, ChainsOk, Phases;
    InDeviceFacts(v, h);
    FinishSplit(v, h);
    FinishChains(v, h);
    FinishPhases(v, h);
  }

  lemma FinishPhases<T>(v: Vq<T>, h: nat)
    requires Phases(v.chains.Keys, v.queue, v.inDevice, v.usedQueue, v.done) && h in v.done
    ensures Phases((v.chains - {h}).Keys, v.queue, v.inDevice, v.usedQueue, v.done - {h})
  {
  }

  lemma FinishSplit<T>(v: Vq<T>, h: nat)
    requires Shape(v) && Split(v.free, v.desc, v.owner, v.chains) && h in v.chains
             && ChainOwned(v.owner, h, v.chains[h])
    ensures var t := Finished(v, h); Split(t.free, t.desc, t.owner, t.chains)
  {
    var t, c := Finished(v, h), v.chains[h];
    forall i: nat | i < NUM
      ensures OwnerOk(t.free, t.desc, t.owner, t.chains, i)
    {
      assert OwnerOk(v.free, v.desc, v.owner, v.chains, i);
    }
    forall g | g in t.chains
      ensures ChainOwned(t.owner, g, t.chains[g])
    {
      assert ChainOwned(v.owner, g, v.chains[g]);
    }
  }

  lemma FinishChains<T>(v: Vq<T>, h: nat)
    requires Shape(v) && Split(v.free, v.desc, v.owner, v.chains) && ChainsOk(v) && h in v.chains
             && ChainOwned(v.owner, h, v.chains[h])
    ensures Shape(Finished(v, h)) && ChainsOk(Finished(v, h))
  {
    hide Formatted, Split;
    var t := Finished(v, h);
    forall g | g in t.chains
      ensures Formatted(t, g, t.chains[g])
    {
      FinishKeepsFormat(v, h, g);
    }
  }

  lemma FinishKeepsFormat<T>(v: Vq<T>, h: nat, g: nat)
    requires Shape(v) && Split(v.free, v.desc, v.owner, v.chains) && h in v.chains
             && ChainOwned(v.owner, h, v.chains[h])
    requires g in v.chains && g != h && Formatted(v, g, v.chains[g])
    ensures var t := Finished(v, h); t.busy.Keys == t.data.Keys && Formatted(t, g, v.chains[g])
  {
    assert ChainOwned(v.owner, g, v.chains[g]);
  }

  /** A buffer is busy afterwards if it was, and none of the chains hs was for it. */
  ghost predicate Freed(before: map<nat, bool>, after: map<nat, bool>, chains: map<nat, Chain>, hs: set<nat>) {
    && after.Keys == before.Keys
    && forall b :: b in after ==> (after[b] <==> before[b] && !exists h :: h in hs && h in chains && chains[h].b == b)
  }

  lemma NoneFreed(busy: map<nat, bool>, chains: map<nat, Chain>)
    ensures Freed(busy, busy, chains, {})
  {
  }

  lemma FreedMore(before: map<nat, bool>, between: map<nat, bool>, after: map<nat, bool>, chains: map<nat, Chain>,
                  hs: set<nat>, id: nat)
    requires Freed(before, between, chains, hs) && id in chains && chains[id].b in between
    requires after == between[chains[id].b := false]
    ensures Freed(before, after, chains, hs + {id})
  {
    forall b | b in after
      ensures after[b] <==> before[b] && !exists h :: h in hs + {id} && h in chains && chains[h].b == b
    {
      assert id in hs + {id};
    }
  }

  /** The heads whose completion the interrupt handler has seen by now. */
  ghost predicate HandledSince(done0: set<nat>, done: set<nat>, busy0: map<nat, bool>, busy: map<nat, bool>,
                               chains: map<nat, Chain>, seen: seq<nat>, pending: seq<nat>) {
    && done0 <= done && Freed(busy0, busy, chains, done - done0) && forall h :: h in seen ==> h in done || h in pending
  }

  lemma NoneHandled(done: set<nat>, busy: map<nat, bool>, chains: map<nat, Chain>, pending: seq<nat>)
    ensures HandledSince(done, done, busy, busy, chains, pending, pending)
  {
    NoneFreed(busy, chains);
    assert done - done == {};
  }

  lemma OneMoreHandled(done0: set<nat>, wasDone: set<nat>, done: set<nat>, busy0: map<nat, bool>, wasBusy: map<nat,
                       bool>,
                       busy: map<nat, bool>, chains: map<nat, Chain>, seen: seq<nat>, was: seq<nat>, pending: seq<nat>)
    requires HandledSince(done0, wasDone, busy0, wasBusy, chains, seen, was) && was != [] && was[0] !in wasDone
    requires was[0] in chains && chains[was[0]].b in wasBusy && pending == was[1..] && done == wasDone + {was[0]}
    requires busy == wasBusy[chains[was[0]].b := false]
    ensures HandledSince(done0, done, busy0, busy, chains, seen, pending)
  {
    hide Freed;
    FreedMore(busy0, wasBusy, busy, chains, wasDone - done0, was[0]);
    assert done - done0 == wasDone - done0 + {was[0]};
    assert was == [was[0]] + pending;
  }

  lemma MorePending(done0: set<nat>, done: set<nat>, busy0: map<nat, bool>, busy: map<nat, bool>, chains: map<nat,
                    Chain>,
                    seen: seq<nat>, was: seq<nat>, pending: seq<nat>)
    requires HandledSince(done0, done, busy0, busy, chains, seen, was) && was <= pending
    ensures HandledSince(done0, done, busy0, busy, chains, seen, pending)
  {
    hide Freed;
  }

  /** What the device may do while the interrupt handler is at work. */
  datatype DeviceStep = TakeNext | Carry(h: nat)

  // ----- the driver and the device

  class Driver<T> {
    var free: seq<bool>
    var desc: seq<Desc>
    var ops: seq<Req>
    var info: seq<Info>
    var avail: seq<nat>
    var availIdx: nat
    var used: seq<nat>
    var usedIdx: nat   // disk.used->idx, which the device advances
    var seen: nat      // disk.used_idx
    var busy: map<nat, bool>
    var data: map<nat, T>
    var disk: seq<T>
    ghost var chains: map<nat, Chain>
    ghost var owner: seq<nat>
    ghost var queue: seq<nat>
    var taken: nat     // the device's own count of taken requests
    var inDevice: set<nat>  // and the heads that it is at work on
    ghost var usedQueue: seq<nat>
    ghost var handled: nat
    ghost var done: set<nat>

    ghost function State(): Vq<T>
      reads this
    {
      Vq(free, desc, ops, info, avail, availIdx, used, usedIdx, seen, busy, data, disk,
         chains, owner, queue, taken, inDevice, usedQueue, handled, done)
    }

    /** virtio_disk_init, for buffers with the given contents, none of them in flight. */
    constructor (buffers: map<nat, T>, image: seq<T>)
      ensures Inv(State()) && chains == map[] && data == buffers && disk == image
      ensures forall b :: b in buffers ==> b in busy && !busy[b]
    {
      free, desc := seq(NUM, _ => true), seq(NUM, _ => NO_DESC);
      ops, info := seq(NUM, _ => Req(false, 0)), seq(NUM, _ => Info(-1, 0));
      avail, availIdx, used, usedIdx, seen := seq(NUM, _ => 0), 0, seq(NUM, _ => 0), 0, 0;
      busy, data, disk := map b | b in buffers :: false, buffers, image;
      chains, owner := map[], seq(NUM, _ => NUM);
      queue, taken, inDevice, usedQueue, handled, done := [], 0, {}, [], 0, {};
    }

    method AllocDesc() returns (i: int)
      requires |free| == NUM
      modifies this`free
      ensures i == -1 ==> free == old(free) && forall k :: 0 <= k < NUM ==> !free[k]
      ensures i != -1 ==>
                0 <= i < NUM && old(free)[i] && (forall k :: 0 <= k < i ==> !old(free)[k])
                && free == old(free)[i := false]
    {
      i := 0;
      while i < NUM
        invariant 0 <= i <= NUM && free == old(free) && forall k :: 0 <= k < i ==> !free[k]
      {
        if free[i] {
          free := free[i := false];
          return;
        }
        i := i + 1;
      }
      i := -1;
    }

    /** free_desc; false stands for one of its panics. */
    method FreeDesc(i: nat) returns (ok: bool)
      requires |free| == |desc| == NUM
      modifies this`free, this`desc
      ensures ok <==> i < NUM && !old(free)[i]
      ensures ok ==> free == old(free)[i := true] && desc == old(desc)[i := Desc(Null, 0, false, false, 0)]
      ensures !ok ==> free == old(free) && desc == old(desc)
    {
      if i >= NUM {
        return false;
      }
      if free[i] {
        return false;
      }
      desc := desc[i := NO_DESC];
      free := free[i := true];
      ok := true;
    }

    /** alloc3_desc: three descriptors, or none and everything as it was. */
    method Alloc3Desc() returns (idx: seq<nat>)
      requires |free| == |desc| == NUM && forall i :: 0 <= i < NUM && free[i] ==> desc[i] == NO_DESC
      modifies this`free, this`desc
      ensures desc == old(desc)
      ensures idx == [] || (|idx| == 3 && Distinct(idx) && forall j :: 0 <= j < 3 ==> idx[j] < NUM && old(free)[idx[j]])
      ensures idx == [] ==>
                free == old(free) && forall a, b, c :: 0 <= a < b < c < NUM ==> !(free[a] && free[b] && free[c])
      ensures idx != [] ==> free == old(free)[idx[0] := false][idx[1] := false][idx[2] := false]
    {
      var i0 := AllocDesc();
      if i0 < 0 {
        return [];
      }
      var i1 := AllocDesc();
      var ok;
      if i1 < 0 {
        ok := FreeDesc(i0);
        assert free == old(free) && desc == old(desc);
        return [];
      }
      var i2 := AllocDesc();
      if i2 < 0 {
        ok := FreeDesc(i0);
        ok := FreeDesc(i1);
        assert free == old(free) && desc == old(desc);
        return [];
      }
      return [i0, i1, i2];
    }

    /** free_chain on the chain headed by h: every free_desc succeeds. */
    method FreeChain(h: nat) returns (ok: bool)
      requires Inv(State()) && h in done
      modifies this`free, this`desc
      ensures ok && h in chains && ChainOwned(owner, h, chains[h])
      ensures var c := chains[h]; free == old(free)[h := true][c.mid := true][c.last := true]
                                  && desc == old(desc)[h := NO_DESC][c.mid := NO_DESC][c.last := NO_DESC]
    {
      FinishKeeps(State(), h);
      ghost var c := chains[h];
      ChainTaken(State(), h);
      var i, more := h, true;
      ghost var k := 0;
      while more
        invariant 0 <= k <= 3 && (more <==> k < 3) && |free| == |desc| == NUM
        invariant k == 0 ==> i == h && free == old(free) && desc == old(desc)
        invariant k == 1 ==> i == c.mid && free == old(free)[h := true] && desc == old(desc)[h := NO_DESC]
        invariant k == 2 ==>
                    i == c.last && free == old(free)[h := true][c.mid := true]
                    && desc == old(desc)[h := NO_DESC][c.mid := NO_DESC]
        invariant k == 3 ==> free == old(free)[h := true][c.mid := true][c.last := true]
        invariant k == 3 ==> desc == old(desc)[h := NO_DESC][c.mid := NO_DESC][c.last := NO_DESC]
        decreases 3 - k
      {
        var flag, nxt := desc[i].more, desc[i].next;
        ok := FreeDesc(i);
        if !ok {
          return;
        }
        if flag {
          i := nxt;
        } else {
          more := false;
        }
        k := k + 1;
      }
      ok := true;
    }

    /** virtio_disk_rw up to the wait for its completion; -1 when it must sleep for
        descriptors first, which changes nothing. The caller holds the buffer, so it is
        in no other request. */
    method Submit(b: nat, write: bool, blockno: nat) returns (h: int, ghost c: Chain)
      requires Inv(State()) && b in data && blockno < |disk| && forall g :: g in chains ==> chains[g].b != b
      modifies this
      ensures Inv(State())
      ensures h == -1 ==>
                State() == old(State()) && forall i, j, k :: 0 <= i < j < k < NUM ==> !(free[i] && free[j] && free[k])
      ensures h != -1 ==> 0 <= h < NUM && c.b == b && c.write == write && c.blockno == blockno
      ensures h != -1 ==>
                Shape(old(State())) && CanSubmit(old(State()), h, c) && State() == Submitted(old(State()), h, c)
    {
      hide Split, ChainsOk, RingOk, Phases, Requested;
      ghost var v := State();
      FreeIsClear(v);
      var idx := Alloc3Desc();
      if idx == [] {
        return -1, Chain(b, write, blockno, 0, 0);
      }
      c := Chain(b, write, blockno, idx[1], idx[2]);
      assert idx[0] != idx[1] && idx[0] != idx[2] && idx[1] != idx[2];
      SubmitKeeps(v, idx[0], c);
      assert State() == v.(free := v.free[idx[0] := false][idx[1] := false][idx[2] := false]);
      WriteRequest(idx, b, write, blockno, c);
      h := idx[0];
    }

    /** Format the descriptors, remember the buffer, and put the head in the avail ring. */
    method WriteRequest(idx: seq<nat>, b: nat, write: bool, blockno: nat, ghost c: Chain)
      requires |desc| == |ops| == |info| == |avail| == |owner| == NUM && |idx| == 3 && forall j :: 0 <= j < 3 ==>
                 idx[j] < NUM
      requires c == Chain(b, write, blockno, idx[1], idx[2])
      modifies this`desc, this`ops, this`info, this`busy, this`avail, this`availIdx, this`chains, this`owner, this`queue
      ensures State() == Requested(old(State()), idx[0], c)
    {
      FormatChain(idx[0], idx[1], idx[2], b, write, blockno);
      busy := busy[b := true];
      info := info[idx[0] := info[idx[0]].(b := b)];
      Announce(idx[0]);
      chains, owner := chains[idx[0] := c], owner[idx[0] := idx[0]][idx[1] := idx[0]][idx[2] := idx[0]];
    }

    method FormatChain(h: nat, mid: nat, last: nat, b: nat, write: bool, blockno: nat)
      requires |desc| == |ops| == |info| == NUM && h < NUM && mid < NUM && last < NUM
      modifies this`desc, this`ops, this`info
      ensures desc == old(desc)[h := Desc(OpAt(h), 16, true, false, mid)]
                               [mid := Desc(DataOf(b), 1024, true, !write, last)]
                               [last := Desc(StatusAt(h), 1, false, true, 0)]
      ensures ops == old(ops)[h := Req(write, 2 * blockno)] && info == old(info)[h := old(info)[h].(status := 0xff)]
    {
      ops := ops[h := Req(write, blockno * 2)];
      desc := desc[h := Desc(OpAt(h), 16, true, false, mid)];
      desc := desc[mid := Desc(DataOf(b), 1024, true, !write, last)];
      info := info[h := info[h].(status := 0xff)];
      desc := desc[last := Desc(StatusAt(h), 1, false, true, 0)];
    }

    method Announce(h: nat)
      requires |avail| == NUM
      modifies this`avail, this`availIdx, this`queue
      ensures avail == old(avail)[Entry(old(availIdx)) := h] && availIdx == (old(availIdx) + 1) % WRAP
              && queue == old(queue) + [h]
    {
      avail := avail[availIdx % NUM := h];
      availIdx := (availIdx + 1) % WRAP;
      queue := queue + [h];
    }

    /** The device notices a new avail index and takes the next head. */
    method DeviceTake() returns (h: int)
      requires Inv(State())
      modifies this`queue, this`taken, this`inDevice
      ensures Inv(State()) && (h == -1 <==> old(queue) == [])
      ensures h == -1 ==> State() == old(State())
      ensures h != -1 ==> h == old(queue)[0] && State() == Taken(old(State()))
    {
      hide Inv, Taken;
      QueueSeen(State());
      if availIdx == taken % WRAP {
        return -1;
      }
      TakeKeeps(State());
      h := avail[(taken % WRAP) % NUM];
      TakenIs(State());
      queue, taken, inDevice := queue[1..], taken + 1, inDevice + {h as nat};
    }

    method MoveBlock(write: bool, blockno: nat, b: nat)
      requires blockno < |disk| && b in data
      modifies this`disk, this`data
      ensures disk == (if write then old(disk)[blockno := old(data)[b]] else old(disk))
      ensures data == (if write then old(data) else old(data)[b := old(disk)[blockno]])
    {
      if write {
        disk := disk[blockno := data[b]];
      } else {
        data := data[b := disk[blockno]];
      }
    }

    /** The device follows the chain from its head, moves the block, stores the status and
        appends to the used ring: exactly the request that the chain was made for. */
    method DeviceComplete(h: nat)
      requires Inv(State()) && h in inDevice
      modifies this`disk, this`data, this`info, this`used, this`usedIdx, this`inDevice, this`usedQueue
      ensures Inv(State()) && h in chains && h < NUM && |old(info)| == |old(used)| == NUM
      ensures chains[h].b in old(data) && chains[h].blockno < |old(disk)|
              && State() == Completed(old(State()), h, chains[h])
    {
      hide Inv, Completed, Formatted, ChainOwned, Replied;
      ghost var v := State();
      CompleteKeeps(v, h);
      CompletedIs(v, h);
      var req := ops[desc[h].addr.i];
      var second := desc[desc[h].next];
      var third := desc[second.next];
      Reply(h, req.write, req.sector / 2, second.addr.b, third.addr.i);
      RepliedIs(v, State(), h, req.write, req.sector / 2, second.addr.b, third.addr.i);
    }

    /** Move the block, store the status, and append to the used ring. */
    method Reply(h: nat, write: bool, blockno: nat, b: nat, status: nat)
      requires blockno < |disk| && b in data && status < |info| && |used| == NUM
      modifies this`disk, this`data, this`info, this`used, this`usedIdx, this`inDevice, this`usedQueue
      ensures disk == (if write then old(disk)[blockno := old(data)[b]] else old(disk))
      ensures data == (if write then old(data) else old(data)[b := old(disk)[blockno]])
      ensures info == old(info)[status := old(info)[status].(status := 0)]
      ensures used == old(used)[Entry(old(usedIdx)) := h] && usedIdx == (old(usedIdx) + 1) % WRAP
      ensures inDevice == old(inDevice) - {h} && usedQueue == old(usedQueue) + [h]
    {
      MoveBlock(write, blockno, b);
      info := info[status := info[status].(status := 0)];
      AppendUsed(h);
    }

    method AppendUsed(h: nat)
      requires |used| == NUM
      modifies this`used, this`usedIdx, this`inDevice, this`usedQueue
      ensures used == old(used)[Entry(old(usedIdx)) := h] && usedIdx == (old(usedIdx) + 1) % WRAP
      ensures inDevice == old(inDevice) - {h} && usedQueue == old(usedQueue) + [h]
    {
      used := used[usedIdx % NUM := h];
      usedIdx := (usedIdx + 1) % WRAP;
      inDevice, usedQueue := inDevice - {h}, usedQueue + [h];
    }

    /** One turn of virtio_disk_intr's loop; false stands for its panic. */
    method HandleOne() returns (ok: bool)
      requires Inv(State()) && usedQueue != []
      modifies this`busy, this`seen, this`usedQueue, this`handled, this`done
      ensures ok && Inv(State()) && old(usedQueue)[0] in chains
      ensures usedQueue == old(usedQueue)[1..] && done == old(done) + {old(usedQueue)[0]}
              && seen == (old(seen) + 1) % WRAP
      ensures busy == old(busy)[chains[old(usedQueue)[0]].b := false] && State() == Handled(old(State()))
    {
      hide Inv, Handled;
      ghost var v := State();
      HandleKeeps(v);
      HandledIs(v);
      UsedSeen(v);
      var id := used[seen % NUM];
      if info[id].status != 0 {
        return false;
      }
      var b := info[id].b;
      busy := busy[b := false];
      seen := (seen + 1) % WRAP;
      usedQueue, handled, done := usedQueue[1..], handled + 1, done + {id};
      assert State() == Handled(v);
      ok := true;
    }

    /** Some steps of the device, between two of the driver's. */
    method DeviceSteps(steps: seq<DeviceStep>)
      requires Inv(State())
      modifies this`queue, this`taken, this`inDevice, this`disk, this`data, this`info, this`used, this`usedIdx
      modifies this`usedQueue
      ensures Inv(State()) && old(usedQueue) <= usedQueue
    {
      hide Inv, Taken, Completed, Formatted, ChainOwned;
      var k := 0;
      while k < |steps|
        invariant 0 <= k <= |steps| && Inv(State()) && old(usedQueue) <= usedQueue
      {
        if steps[k].TakeNext? {
          ghost var v := State();
          var h := DeviceTake();
          TakenKeepsUsed(v, State(), h);
        } else if steps[k].h in inDevice {
          ghost var v := State();
          DeviceComplete(steps[k].h);
          CompletedQueue(v, steps[k].h);
        }
        k := k + 1;
      }
    }

    /** virtio_disk_intr: completions are taken from the used ring until none is left, those
        included that the device adds meanwhile (turns[k] is what it does before the loop's
        k-th test); each releases the buffer that its chain was submitted for. False stands
        for the panic. */
    method Interrupt(turns: seq<seq<DeviceStep>>) returns (ok: bool)
      requires Inv(State())
      modifies this`busy, this`seen, this`usedQueue, this`handled, this`done
      modifies this`queue, this`taken, this`inDevice, this`disk, this`data, this`info, this`used, this`usedIdx
      ensures ok && Inv(State()) && usedQueue == [] && old(done) <= done && forall h :: h in old(usedQueue) ==>
                h in done
      ensures forall h :: h in chains ==> (h in done <==> h !in queue && h !in inDevice)
      ensures Freed(old(busy), busy, chains, done - old(done))
    {
      hide Inv, Handled, Freed, HandledSince;
      ok := true;
      ghost var seen0, done0, busy0 := usedQueue, done, busy;
      NoneHandled(done, busy, chains, usedQueue);
      var k := 0;
      while true
        invariant ok && 0 <= k <= |turns| && Inv(State())
                  && HandledSince(done0, done, busy0, busy, chains, seen0, usedQueue)
        decreases |turns| - k, |usedQueue|
      {
        if k < |turns| {
          ghost var was := usedQueue;
          DeviceSteps(turns[k]);
          MorePending(done0, done, busy0, busy, chains, seen0, was, usedQueue);
          k := k + 1;
        }
        UsedSeen(State());
        if seen == usedIdx {
          break;
        }
        ghost var was, between, freed := usedQueue, done, busy;
        HandleKeeps(State());
        FirstUsed(State());
        ok := HandleOne();
        if !ok {
          return;
        }
        OneMoreHandled(done0, between, done, busy0, freed, busy, chains, seen0, was, usedQueue);
      }
      AllHandled(State(), done0, busy0, seen0);
    }

    /** The rest of virtio_disk_rw, once the submitter finds its buffer not busy any more:
        the completion was seen, and the three descriptors become free again. */
    method Finish(h: nat) returns (ok: bool)
      requires Inv(State()) && h in chains && chains[h].b in busy && !busy[chains[h].b]
      modifies this`info, this`free, this`desc, this`chains, this`owner, this`done
      ensures ok && Inv(State()) && h in old(done) && |old(info)| == NUM && h < NUM
      ensures Inv(old(State())) && ChainOwned(old(owner), h, old(chains)[h]) && State() == Finished(old(State()), h)
    {
      hide Split, ChainsOk, RingOk, Phases;
      ghost var v := State();
      ChainTaken(v, h);
      FinishKeeps(v, h);
      ok := FreeChain(h);
      info := info[h := info[h].(b := -1)];
      ghost var c := chains[h];
      chains, owner, done := chains - {h}, owner[h := NUM][c.mid := NUM][c.last := NUM], done - {h};
    }
  }

  lemma FreeIsClear<T>(v: Vq<T>)
    requires Inv(v)
    ensures forall i: nat :: i < NUM && v.free[i] ==> v.desc[i] == NO_DESC
  {
    forall i: nat | i < NUM && v.free[i]
      ensures v.desc[i] == NO_DESC
    {
      assert OwnerOk(v.free, v.desc, v.owner, v.chains, i);
    }
  }

  lemma RepliedIs<T>(v: Vq<T>, t: Vq<T>, h: nat, write: bool, blockno: nat, b: nat, status: nat)
    requires blockno < |v.disk| && b in v.data && status < |v.info| && |v.used| == NUM
    requires t == v.(disk := t.disk, data := t.data, info := t.info, used := t.used, usedIdx := t.usedIdx,
                     inDevice := t.inDevice, usedQueue := t.usedQueue)
    requires t.disk == (if write then v.disk[blockno := v.data[b]] else v.disk)
    requires t.data == (if write then v.data else v.data[b := v.disk[blockno]])
    requires t.info == v.info[status := v.info[status].(status := 0)]
    requires t.used == v.used[Entry(v.usedIdx) := h] && t.usedIdx == (v.usedIdx + 1) % WRAP
    requires t.inDevice == v.inDevice - {h} && t.usedQueue == v.usedQueue + [h]
    ensures t == Replied(v, h, write, blockno, b, status)
  {
  }

  function Replied<T>(v: Vq<T>, h: nat, write: bool, blockno: nat, b: nat, status: nat): Vq<T>
    requires blockno < |v.disk| && b in v.data && status < |v.info| && |v.used| == NUM
  {
    v.(disk := if write then v.disk[blockno := v.data[b]] else v.disk,
       data := if write then v.data else v.data[b := v.disk[blockno]],
       info := v.info[status := v.info[status].(status := 0)],
       used := v.used[Entry(v.usedIdx) := h], usedIdx := (v.usedIdx + 1) % WRAP,
       inDevice := v.inDevice - {h}, usedQueue := v.usedQueue + [h])
  }

  /** What the device finds on its way along a chain. */
  lemma CompletedIs<T>(v: Vq<T>, h: nat)
    requires Inv(v) && h in v.chains && h < NUM && v.chains[h].b in v.data && v.chains[h].blockno < |v.disk|
    ensures var c := v.chains[h];
            && |v.desc| == |v.ops| == |v.info| == |v.used| == NUM
            && v.desc[h] == Desc(OpAt(h), 16, true, false, c.mid) && c.mid < NUM && c.last < NUM
            && v.desc[c.mid].addr == DataOf(c.b) && v.desc[c.mid].next == c.last && v.desc[c.last].addr == StatusAt(h)
            && v.ops[h] == Req(c.write, 2 * c.blockno)
    ensures Completed(v, h, v.chains[h]) == Replied(v, h, v.chains[h].write, v.chains[h].blockno, v.chains[h].b, h)
  {
    ChainTaken(v, h);
  }

  lemma QueueSeen<T>(v: Vq<T>)
    requires Inv(v)
    ensures |v.avail| == NUM && (v.availIdx == v.taken % WRAP <==> v.queue == [])
  {
    RingPop(v.avail, v.taken, v.queue, v.availIdx);
  }

  lemma TakenIs<T>(v: Vq<T>)
    requires v.queue != []
    ensures Taken(v) == v.(queue := v.queue[1..], taken := v.taken + 1, inDevice := v.inDevice + {v.queue[0]})
  {
  }

  lemma UsedSeen<T>(v: Vq<T>)
    requires Inv(v)
    ensures |v.used| == |v.info| == NUM && (v.seen == v.usedIdx <==> v.usedQueue == [])
  {
    RingPop(v.used, v.handled, v.usedQueue, v.usedIdx);
  }

  /** The oldest completion is for a chain that is not done yet. */
  lemma FirstUsed<T>(v: Vq<T>)
    requires Inv(v) && v.usedQueue != []
    ensures v.usedQueue[0] !in v.done && v.usedQueue[0] in v.chains && v.chains[v.usedQueue[0]].b in v.busy
  {
    InDeviceFacts(v, v.usedQueue[0]);
  }

  lemma AllHandled<T>(v: Vq<T>, done0: set<nat>, busy0: map<nat, bool>, seen: seq<nat>)
    requires Inv(v) && v.usedQueue == [] && HandledSince(done0, v.done, busy0, v.busy, v.chains, seen, [])
    ensures done0 <= v.done && Freed(busy0, v.busy, v.chains, v.done - done0) && forall h :: h in seen ==> h in v.done
    ensures forall h :: h in v.chains ==> (h in v.done <==> h !in v.queue && h !in v.inDevice)
  {
    hide Freed;
  }

  lemma TakenKeepsUsed<T>(v: Vq<T>, t: Vq<T>, h: int)
    requires if h == -1 then t == v else v.queue != [] && t == Taken(v)
    ensures t.usedQueue == v.usedQueue
  {
  }

  lemma CompletedQueue<T>(v: Vq<T>, h: nat)
    requires Inv(v) && h in v.chains && h < NUM && v.chains[h].b in v.data && v.chains[h].blockno < |v.disk|
    ensures |v.info| == |v.used| == NUM && Completed(v, h, v.chains[h]).usedQueue == v.usedQueue + [h]
  {
  }

  lemma HandledIs<T>(v: Vq<T>)
    requires Inv(v) && v.usedQueue != []
    ensures v.usedQueue[0] in v.chains && v.usedQueue[0] < NUM && |v.info| == NUM
            && v.info[v.usedQueue[0]] == Info(v.chains[v.usedQueue[0]].b, 0)
    ensures v.chains[v.usedQueue[0]].b in v.busy
    ensures var h := v.usedQueue[0];
            Handled(v) == v.(busy := v.busy[v.chains[h].b := false], seen := (v.seen + 1) % WRAP,
                             usedQueue := v.usedQueue[1..], handled := v.handled + 1, done := v.done + {h})
  {
    InDeviceFacts(v, v.usedQueue[0]);
  }

  lemma ChainTaken<T>(v: Vq<T>, h: nat)
    requires Inv(v) && h in v.chains
    ensures var c := v.chains[h]; ChainOwned(v.owner, h, c) && !v.free[h] && !v.free[c.mid] && !v.free[c.last]
    ensures Formatted(v, h, v.chains[h])
  {
    var c := v.chains[h];
    assert ChainOwned(v.owner, h, c) && Formatted(v, h, c);
    assert OwnerOk(v.free, v.desc, v.owner, v.chains, h) && OwnerOk(v.free, v.desc, v.owner, v.chains, c.mid)
           && OwnerOk(v.free, v.desc, v.owner, v.chains, c.last);
  }
}
