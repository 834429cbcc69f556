/** Who uses the buffers: a reference for each block that log_write pinned, the references
    and sleep locks of the thread that commits, and those of every other thread. What a
    thread may do with a buffer depends on that, and each step keeps the account. */
module BufferUse {
  import opened Bio

  /** pins: the buffer that log_write pinned for a block. mine, locks: the buffers of which
      the committing thread has a reference, and the sleep lock. changed: buffers changed
      since their holder last called log_write, and by which operation. ops: the threads
      between begin_op and end_op. */
  datatype Users = Users(pins: map<nat, nat>, mine: set<nat>, locks: set<nat>, changed: map<nat, nat>, ops: set<nat>)

  const NO_USERS: Users := Users(map[], {}, {}, map[], {})

  predicate Pinning<T>(u: Users, b: Buf<T>) {
    b.dev == ROOTDEV && b.blockno in u.pins
  }

  /** The references that are spoken for: that of log_write, that of the committing thread,
      and that of another thread which holds the lock. */
  function SpokenFor<T>(u: Users, buf: seq<Buf<T>>, b: nat): nat
    requires b < |buf|
  {
    (if Pinning(u, buf[b]) then 1 else 0) + (if b in u.mine then 1 else 0)
      + (if buf[b].locked && b !in u.locks then 1 else 0)
  }

  /** The account. Its last line: what is newer in the cache than on the disk is pinned for
      the log, or in a buffer that the thread which changed it still holds. */
  ghost predicate Accounted<T>(u: Users, buf: seq<Buf<T>>, dirty: map<nat, nat>) {
    && |buf| == NBUF && (forall b: nat :: b < NBUF ==> SpokenFor(u, buf, b) <= buf[b].refcnt)
    && (forall bn :: bn in u.pins ==> u.pins[bn] < NBUF && IsDirty(buf[u.pins[bn]], bn))
    && (forall b :: b in u.mine ==> b < NBUF && buf[b].dev == ROOTDEV)
    && u.locks <= u.mine && (forall b :: b in u.locks ==> buf[b].locked)
    && (forall b :: b in u.changed ==> b < NBUF && buf[b].locked && b !in u.locks && u.changed[b] in u.ops)
    && (forall bn :: bn in dirty ==> bn in u.pins || dirty[bn] in u.changed || dirty[bn] in u.locks)
  }

  /** Dirty blocks are where `dirty` says, and no block is cached twice. */
  ghost predicate Placed<T>(buf: seq<Buf<T>>, dirty: map<nat, nat>) {
    && |buf| == NBUF
    && (forall b, c :: 0 <= b < c < NBUF && buf[b].dev == ROOTDEV && buf[c].dev == ROOTDEV ==>
          buf[b].blockno != buf[c].blockno)
    && (forall bn :: bn in dirty ==> dirty[bn] < NBUF && IsDirty(buf[dirty[bn]], bn))
  }

  /** The committing thread's buffers still hold the blocks that they held, and those that it
      has locked are as valid as they were. */
  ghost predicate Stays<T>(u: Users, was: seq<Buf<T>>, buf: seq<Buf<T>>) {
    |was| == |buf| == NBUF
    && forall b :: b in u.mine && b < NBUF ==>
         buf[b].dev == was[b].dev && buf[b].blockno == was[b].blockno && (b in u.locks && was[b].valid ==> buf[b].valid)
  }

  lemma StaysSelf<T>(u: Users, buf: seq<Buf<T>>)
    requires |buf| == NBUF
    ensures Stays(u, buf, buf)
  {
  }

  /** What stays for v stays for u, if u has no more. */
  lemma StaysThen<T>(u: Users, v: Users, was: seq<Buf<T>>, between: seq<Buf<T>>, now: seq<Buf<T>>)
    requires Stays(u, was, between) && Stays(v, between, now) && u.mine <= v.mine && u.locks <= v.locks
    ensures Stays(u, was, now)
  {
  }

  // ----- the other threads

  /** One critical section of bget, one step under a sleep lock, or one critical section of
      brelse, by any thread but the committing one. */
  datatype CacheStep<T> =
    | Get(bn: nat)
    | Lock(b: nat)
    | Read(b: nat)
    | Change(op: nat, b: nat, data: T)
    | Unlock(b: nat)
    | Release(b: nat)

  /** What threads keep to: to lock a buffer they have a reference of their own, only the
      holder of the lock reads, changes or unlocks, and gives back no reference but its own.
      Blocks are changed inside an operation, and log_write comes before unlocking. */
  predicate Allowed<T>(a: CacheStep<T>, u: Users, buf: seq<Buf<T>>, size: nat)
    requires |buf| == NBUF
  {
    match a
    case Get(bn) => bn < size
    case Lock(b) => b < NBUF && !buf[b].locked && buf[b].refcnt > SpokenFor(u, buf, b)
    case Read(b) => b < NBUF && buf[b].locked && b !in u.locks
    case Change(op, b, _) => b < NBUF && buf[b].locked && b !in u.locks && buf[b].valid && op in u.ops
    case Unlock(b) => b < NBUF && buf[b].locked && b !in u.locks && b !in u.changed
    case Release(b) => b < NBUF && buf[b].refcnt > SpokenFor(u, buf, b)
  }

  function UsersAfter<T>(a: CacheStep<T>, u: Users): Users {
    if a.Change? then u.(changed := u.changed[a.b := a.op]) else u
  }

  lemma GetKeeps<T>(u: Users, buf: seq<Buf<T>>, dirty: map<nat, nat>, b: nat, bn: nat)
    requires Accounted(u, buf, dirty) && b < NBUF
    requires !Caches(buf[b], bn) ==> !Cached(buf, bn) && buf[b].refcnt == 0
    ensures Accounted(u, buf[b := Got(buf[b], bn)], dirty) && Stays(u, buf, buf[b := Got(buf[b], bn)])
    ensures SpokenFor(u, buf[b := Got(buf[b], bn)], b) < Got(buf[b], bn).refcnt
    ensures (forall c :: c in u.mine ==> !Caches(buf[c], bn)) ==> b !in u.mine
  {
    var now := buf[b := Got(buf[b], bn)];
    assert SpokenFor(u, buf, b) <= buf[b].refcnt;
    PinnedCached(u, buf, dirty, bn);
    forall c: nat | c < NBUF
      ensures SpokenFor(u, now, c) <= now[c].refcnt
    {
      assert SpokenFor(u, buf, c) <= buf[c].refcnt;
    }
  }

  lemma PinnedCached<T>(u: Users, buf: seq<Buf<T>>, dirty: map<nat, nat>, bn: nat)
    requires Accounted(u, buf, dirty)
    ensures bn in u.pins ==> Cached(buf, bn)
  {
  }

  /** Another thread takes the lock, with its own reference. */
  lemma LockKeeps<T>(u: Users, buf: seq<Buf<T>>, dirty: map<nat, nat>, b: nat)
    requires Accounted(u, buf, dirty) && b < NBUF && !buf[b].locked && buf[b].refcnt > SpokenFor(u, buf, b)
    ensures Accounted(u, buf[b := buf[b].(locked := true)], dirty) && Stays(u, buf, buf[b := buf[b].(locked := true)])
  {
    var now := buf[b := buf[b].(locked := true)];
    forall c: nat | c < NBUF
      ensures SpokenFor(u, now, c) <= now[c].refcnt
    {
      assert SpokenFor(u, buf, c) <= buf[c].refcnt;
    }
  }

  /** The holder of the lock fills the buffer or changes its data. */
  lemma DataKeeps<T>(u: Users, buf: seq<Buf<T>>, dirty: map<nat, nat>, b: nat, data: T)
    requires Accounted(u, buf, dirty) && b < NBUF
    ensures Accounted(u, buf[b := buf[b].(valid := true, data := data)], dirty)
    ensures Stays(u, buf, buf[b := buf[b].(valid := true, data := data)])
  {
    var now := buf[b := buf[b].(valid := true, data := data)];
    forall c: nat | c < NBUF
      ensures SpokenFor(u, now, c) <= now[c].refcnt
    {
      assert SpokenFor(u, buf, c) <= buf[c].refcnt;
    }
  }

  lemma ChangeKeeps<T>(u: Users, buf: seq<Buf<T>>, dirty: map<nat, nat>, b: nat, op: nat, bn: nat)
    requires Accounted(u, buf, dirty) && b < NBUF && buf[b].locked && b !in u.locks && op in u.ops
    ensures Accounted(u.(changed := u.changed[b := op]), buf, dirty[bn := b])
  {
    var v := u.(changed := u.changed[b := op]);
    forall c: nat | c < NBUF
      ensures SpokenFor(v, buf, c) <= buf[c].refcnt
    {
      assert SpokenFor(u, buf, c) <= buf[c].refcnt;
    }
  }

  lemma UnlockKeeps<T>(u: Users, buf: seq<Buf<T>>, dirty: map<nat, nat>, b: nat)
    requires Accounted(u, buf, dirty) && b < NBUF && b !in u.locks && b !in u.changed
    ensures Accounted(u, buf[b := buf[b].(locked := false)], dirty) && Stays(u, buf, buf[b := buf[b].(locked := false)])
  {
    var now := buf[b := buf[b].(locked := false)];
    forall c: nat | c < NBUF
      ensures SpokenFor(u, now, c) <= now[c].refcnt
    {
      assert SpokenFor(u, buf, c) <= buf[c].refcnt;
    }
  }

  lemma ReleaseKeeps<T>(u: Users, buf: seq<Buf<T>>, dirty: map<nat, nat>, b: nat)
    requires Accounted(u, buf, dirty) && Placed(buf, dirty) && b < NBUF && buf[b].refcnt > SpokenFor(u, buf, b)
    ensures Accounted(u, buf[b := buf[b].(refcnt := buf[b].refcnt - 1)], dirty)
    ensures Stays(u, buf, buf[b := buf[b].(refcnt := buf[b].refcnt - 1)])
    ensures buf[b].refcnt == 1 ==> !buf[b].locked && (buf[b].dev == ROOTDEV ==> buf[b].blockno !in dirty)
  {
    var now := buf[b := buf[b].(refcnt := buf[b].refcnt - 1)];
    forall c: nat | c < NBUF
      ensures SpokenFor(u, now, c) <= now[c].refcnt
    {
      assert SpokenFor(u, buf, c) <= buf[c].refcnt;
    }
    var bn := buf[b].blockno;
    if buf[b].dev == ROOTDEV && bn in dirty {
      assert dirty[bn] == b by {
        assert Caches(buf[dirty[bn]], bn);
      }
    }
  }

  // ----- log_write, by the holder of the lock

  /** The block is in the log, and pinned, already. */
  lemma AbsorbKeeps<T>(u: Users, buf: seq<Buf<T>>, dirty: map<nat, nat>, b: nat)
    requires Accounted(u, buf, dirty) && Placed(buf, dirty) && b < NBUF && Pinning(u, buf[b])
    ensures Accounted(u.(changed := u.changed - {b}), buf, dirty)
  {
    var v := u.(changed := u.changed - {b});
    forall c: nat | c < NBUF
      ensures SpokenFor(v, buf, c) <= buf[c].refcnt
    {
      assert SpokenFor(u, buf, c) <= buf[c].refcnt;
    }
    forall bn | bn in dirty
      ensures bn in v.pins || dirty[bn] in v.changed || dirty[bn] in v.locks
    {
      assert Caches(buf[dirty[bn]], bn);
    }
  }

  lemma PinKeeps<T>(u: Users, buf: seq<Buf<T>>, dirty: map<nat, nat>, b: nat, bn: nat)
    requires Accounted(u, buf, dirty) && Placed(buf, dirty) && b < NBUF && IsDirty(buf[b], bn) && bn !in u.pins
    ensures Accounted(u.(pins := u.pins[bn := b]), buf[b := buf[b].(refcnt := buf[b].refcnt + 1)], dirty)
  {
    hide Placed, SpokenFor;
    var v, now := u.(pins := u.pins[bn := b]), buf[b := buf[b].(refcnt := buf[b].refcnt + 1)];
    forall c: nat | c < NBUF
      ensures SpokenFor(v, now, c) <= now[c].refcnt
    {
      PinReserved(u, buf, dirty, b, bn, c);
    }
  }

  lemma PinReserved<T>(u: Users, buf: seq<Buf<T>>, dirty: map<nat, nat>, b: nat, bn: nat, c: nat)
    requires Placed(buf, dirty) && b < NBUF && Caches(buf[b], bn) && bn !in u.pins && c < NBUF
             && SpokenFor(u, buf, c) <= buf[c].refcnt
    ensures var now := buf[b := buf[b].(refcnt := buf[b].refcnt + 1)];
            SpokenFor(u.(pins := u.pins[bn := b]), now, c) <= now[c].refcnt
  {
    assert c != b && buf[c].dev == ROOTDEV ==> buf[c].blockno != bn;
  }

  // ----- the committing thread

  /** bget found or recycled buffer b for it. */
  lemma TakeMine<T>(u: Users, buf: seq<Buf<T>>, dirty: map<nat, nat>, b: nat)
    requires Accounted(u, buf, dirty) && b < NBUF && b !in u.mine && buf[b].dev == ROOTDEV
             && SpokenFor(u, buf, b) < buf[b].refcnt
    ensures Accounted(u.(mine := u.mine + {b}), buf, dirty)
  {
    var v := u.(mine := u.mine + {b});
    forall c: nat | c < NBUF
      ensures SpokenFor(v, buf, c) <= buf[c].refcnt
    {
      assert SpokenFor(u, buf, c) <= buf[c].refcnt;
    }
  }

  lemma LockMine<T>(u: Users, buf: seq<Buf<T>>, dirty: map<nat, nat>, b: nat)
    requires Accounted(u, buf, dirty) && b in u.mine && b < NBUF && !buf[b].locked
    ensures Accounted(u.(locks := u.locks + {b}), buf[b := buf[b].(locked := true)], dirty)
  {
    var v, now := u.(locks := u.locks + {b}), buf[b := buf[b].(locked := true)];
    forall c: nat | c < NBUF
      ensures SpokenFor(v, now, c) <= now[c].refcnt
    {
      assert SpokenFor(u, buf, c) <= buf[c].refcnt;
    }
  }

  lemma ChangeMine<T>(u: Users, buf: seq<Buf<T>>, dirty: map<nat, nat>, b: nat, bn: nat)
    requires Accounted(u, buf, dirty) && b in u.locks
    ensures Accounted(u, buf, dirty[bn := b])
  {
  }

  lemma WrittenMine<T>(u: Users, buf: seq<Buf<T>>, dirty: map<nat, nat>, bn: nat)
    requires Accounted(u, buf, dirty)
    ensures Accounted(u, buf, dirty - {bn})
  {
  }

  /** bunpin of a block that was written home. */
  lemma UnpinMine<T>(u: Users, buf: seq<Buf<T>>, dirty: map<nat, nat>, b: nat, bn: nat)
    requires Accounted(u, buf, dirty) && Placed(buf, dirty) && b in u.mine && b < NBUF && Caches(buf[b], bn)
             && bn in u.pins && bn !in dirty
    ensures buf[b].refcnt > 1
    ensures Accounted(u.(pins := u.pins - {bn}), buf[b := buf[b].(refcnt := buf[b].refcnt - 1)], dirty)
  {
    var v, now := u.(pins := u.pins - {bn}), buf[b := buf[b].(refcnt := buf[b].refcnt - 1)];
    assert SpokenFor(u, buf, b) <= buf[b].refcnt;
    hide Placed, SpokenFor;
    forall c: nat | c < NBUF
      ensures SpokenFor(v, now, c) <= now[c].refcnt
    {
      UnpinReserved(u, buf, dirty, b, bn, c);
    }
  }

  lemma UnpinReserved<T>(u: Users, buf: seq<Buf<T>>, dirty: map<nat, nat>, b: nat, bn: nat, c: nat)
    requires Placed(buf, dirty) && b < NBUF && Caches(buf[b], bn) && bn in u.pins && c < NBUF
             && SpokenFor(u, buf, c) <= buf[c].refcnt
    requires buf[b].refcnt > 0
    ensures var now := buf[b := buf[b].(refcnt := buf[b].refcnt - 1)];
            SpokenFor(u.(pins := u.pins - {bn}), now, c) <= now[c].refcnt
  {
    assert c != b && buf[c].dev == ROOTDEV ==> buf[c].blockno != bn;
  }

  /** releasesleep, when what the buffer holds is on the disk or in the log. */
  lemma UnlockMine<T>(u: Users, buf: seq<Buf<T>>, dirty: map<nat, nat>, b: nat)
    requires Accounted(u, buf, dirty) && Placed(buf, dirty) && b in u.locks && b < NBUF
             && (buf[b].blockno in dirty ==> buf[b].blockno in u.pins)
    ensures Accounted(u.(locks := u.locks - {b}), buf[b := buf[b].(locked := false)], dirty)
  {
    var v, now := u.(locks := u.locks - {b}), buf[b := buf[b].(locked := false)];
    StillPinned(u, buf, dirty, b);
    hide Placed;
    forall c: nat | c < NBUF
      ensures SpokenFor(v, now, c) <= now[c].refcnt
    {
      assert SpokenFor(u, buf, c) <= buf[c].refcnt;
    }
  }

  lemma StillPinned<T>(u: Users, buf: seq<Buf<T>>, dirty: map<nat, nat>, b: nat)
    requires Accounted(u, buf, dirty) && Placed(buf, dirty) && b < NBUF
             && (buf[b].blockno in dirty ==> buf[b].blockno in u.pins)
    ensures forall bn :: bn in dirty ==> bn in u.pins || dirty[bn] in u.changed || dirty[bn] in u.locks - {b}
  {
    forall bn | bn in dirty
      ensures bn in u.pins || dirty[bn] in u.changed || dirty[bn] in u.locks - {b}
    {
      assert Caches(buf[dirty[bn]], bn);
    }
  }

  lemma DropMine<T>(u: Users, buf: seq<Buf<T>>, dirty: map<nat, nat>, b: nat)
    requires Accounted(u, buf, dirty) && Placed(buf, dirty) && b in u.mine && b !in u.locks && b < NBUF
    ensures buf[b].refcnt > 0
            && Accounted(u.(mine := u.mine - {b}), buf[b := buf[b].(refcnt := buf[b].refcnt - 1)], dirty)
    ensures buf[b].refcnt == 1 ==> !buf[b].locked && buf[b].blockno !in dirty
  {
    var v, now := u.(mine := u.mine - {b}), buf[b := buf[b].(refcnt := buf[b].refcnt - 1)];
    assert SpokenFor(u, buf, b) <= buf[b].refcnt;
    forall c: nat | c < NBUF
      ensures SpokenFor(v, now, c) <= now[c].refcnt
    {
      assert SpokenFor(u, buf, c) <= buf[c].refcnt;
    }
    assert buf[b].blockno in dirty ==> Caches(buf[dirty[buf[b].blockno]], buf[b].blockno);
  }

  /** With no operation under way nothing is changed and not logged, and with no lock of the
      committing thread's every change is pinned. */
  lemma AllPinned<T>(u: Users, buf: seq<Buf<T>>, dirty: map<nat, nat>)
    requires Accounted(u, buf, dirty) && u.ops == {} && u.locks == {}
    ensures u.changed == map[] && forall bn :: bn in dirty ==> bn in u.pins
  {
    assert u.changed.Keys == {};
  }

  // ----- how many buffers are in use

  /** Nobody else uses a buffer: the only references are those of log_write and of the
      committing thread. */
  ghost predicate Undisturbed<T>(u: Users, buf: seq<Buf<T>>) {
    |buf| == NBUF && forall b: nat :: b < NBUF ==>
      buf[b].refcnt == SpokenFor(u, buf, b) && (buf[b].locked ==> b in u.locks)
  }

  function Below(n: nat): (s: set<nat>)
    ensures |s| == n && forall b: nat :: b in s <==> b < n
  {
    if n == 0 then {} else Below(n - 1) + {n - 1}
  }

  function PinnedIn(pins: map<nat, nat>): set<nat> {
    set bn | bn in pins :: pins[bn]
  }

  /** No more buffers than blocks; as many when no buffer is pinned for two. */
  lemma {:induction false} PinnedSize(pins: map<nat, nat>)
    ensures |PinnedIn(pins)| <= |pins.Keys|
    ensures (forall x, y :: x in pins && y in pins && pins[x] == pins[y] ==> x == y) ==> |PinnedIn(pins)| == |pins.Keys|
    decreases pins.Keys
  {
    if pins.Keys != {} {
      var bn :| bn in pins;
      var rest := pins - {bn};
      assert pins.Keys == rest.Keys + {bn} && bn !in rest;
      assert forall x :: x in rest ==> x in pins && rest[x] == pins[x];
      PinnedSize(rest);
      PinnedMore(pins, rest, bn);
    } else {
      assert PinnedIn(pins) == {};
    }
  }

  lemma PinnedMore(pins: map<nat, nat>, rest: map<nat, nat>, bn: nat)
    requires bn in pins && rest == pins - {bn}
    ensures PinnedIn(pins) == PinnedIn(rest) + {pins[bn]}
    ensures (forall x, y :: x in pins && y in pins && pins[x] == pins[y] ==> x == y) ==> pins[bn] !in PinnedIn(rest)
  {
    forall b | b in PinnedIn(pins)
      ensures b in PinnedIn(rest) + {pins[bn]}
    {
      var x :| x in pins && pins[x] == b;
      assert x != bn ==> x in rest && rest[x] == b;
    }
    forall b | b in PinnedIn(rest)
      ensures b in PinnedIn(pins)
    {
      var x :| x in rest && rest[x] == b;
      assert x in pins && pins[x] == b;
    }
  }

  lemma Subset(a: set<nat>, b: set<nat>)
    requires a <= b
    ensures |a| <= |b| && (|a| == |b| ==> a == b)
  {
    if a != {} {
      var x :| x in a;
      Subset(a - {x}, b - {x});
    }
  }

  /** With fewer pinned blocks and references than buffers, a buffer is free. */
  lemma SomeFree<T>(u: Users, buf: seq<Buf<T>>, dirty: map<nat, nat>)
    requires Accounted(u, buf, dirty) && Placed(buf, dirty) && Undisturbed(u, buf) && |u.pins.Keys| + |u.mine| < NBUF
    ensures HasFree(buf)
  {
    InUseSize(u);
    if forall b: nat :: b < NBUF ==> buf[b].refcnt > 0 {
      forall b: nat | b < NBUF
        ensures b in PinnedIn(u.pins) + u.mine
      {
        UsedBy(u, buf, dirty, b);
      }
      Subset(Below(NBUF), PinnedIn(u.pins) + u.mine);
    }
  }

  lemma InUseSize(u: Users)
    ensures |PinnedIn(u.pins) + u.mine| <= |u.pins.Keys| + |u.mine|
  {
    PinnedSize(u.pins);
    assert |PinnedIn(u.pins) + u.mine| + |PinnedIn(u.pins) * u.mine| == |PinnedIn(u.pins)| + |u.mine|;
  }

  lemma UsedBy<T>(u: Users, buf: seq<Buf<T>>, dirty: map<nat, nat>, b: nat)
    requires Accounted(u, buf, dirty) && Placed(buf, dirty) && Undisturbed(u, buf) && b < NBUF && buf[b].refcnt > 0
    ensures b in PinnedIn(u.pins) || b in u.mine
  {
    assert buf[b].refcnt == SpokenFor(u, buf, b);
    if Pinning(u, buf[b]) {
      OwnPin(u, buf, dirty, b);
    }
  }

  lemma OwnPin<T>(u: Users, buf: seq<Buf<T>>, dirty: map<nat, nat>, b: nat)
    requires Accounted(u, buf, dirty) && Placed(buf, dirty) && b < NBUF && Pinning(u, buf[b])
    ensures u.pins[buf[b].blockno] == b && b in PinnedIn(u.pins)
  {
    assert Caches(buf[u.pins[buf[b].blockno]], buf[b].blockno);
  }

  /** With as many pinned blocks as buffers none is free, and no other block is cached. */
  lemma NoneFree<T>(u: Users, buf: seq<Buf<T>>, dirty: map<nat, nat>)
    requires Accounted(u, buf, dirty) && |u.pins.Keys| >= NBUF
    ensures !HasFree(buf) && forall bn :: Cached(buf, bn) ==> bn in u.pins
  {
    EveryBuffer(u, buf, dirty);
    hide Accounted;
    forall b: nat | b < NBUF
      ensures Pinning(u, buf[b]) && buf[b].refcnt > 0
    {
      assert b in PinnedIn(u.pins);
    }
  }

  lemma EveryBuffer<T>(u: Users, buf: seq<Buf<T>>, dirty: map<nat, nat>)
    requires Accounted(u, buf, dirty) && |u.pins.Keys| >= NBUF
    ensures |buf| == NBUF && forall b: nat :: b < NBUF ==> b in PinnedIn(u.pins)
    ensures forall b :: b in PinnedIn(u.pins) ==> b < NBUF && Pinning(u, buf[b]) && buf[b].refcnt > 0
  {
    forall x, y | x in u.pins && y in u.pins && u.pins[x] == u.pins[y]
      ensures x == y
    {
      assert IsDirty(buf[u.pins[x]], x) && IsDirty(buf[u.pins[y]], y);
    }
    forall b | b in PinnedIn(u.pins)
      ensures b < NBUF && Pinning(u, buf[b]) && buf[b].refcnt > 0
    {
      var bn :| bn in u.pins && u.pins[bn] == b;
      assert IsDirty(buf[b], bn);
    }
    hide Accounted;
    PinnedSize(u.pins);
    assert PinnedIn(u.pins) <= Below(NBUF);
    Subset(PinnedIn(u.pins), Below(NBUF));
  }

  // ----- the committing thread's steps, undisturbed

  lemma GetAlone<T>(u: Users, buf: seq<Buf<T>>, dirty: map<nat, nat>, b: nat, bn: nat)
    requires Accounted(u, buf, dirty) && Placed(buf, dirty) && Undisturbed(u, buf) && b < NBUF && b !in u.mine
    requires !Caches(buf[b], bn) ==> !Cached(buf, bn) && buf[b].refcnt == 0
    ensures Undisturbed(u.(mine := u.mine + {b}), buf[b := Got(buf[b], bn)])
  {
    PinnedCached(u, buf, dirty, bn);
    var v, now := u.(mine := u.mine + {b}), buf[b := Got(buf[b], bn)];
    forall c: nat | c < NBUF
      ensures now[c].refcnt == SpokenFor(v, now, c) && (now[c].locked ==> c in v.locks)
    {
      assert buf[c].refcnt == SpokenFor(u, buf, c);
    }
  }

  lemma LockAlone<T>(u: Users, buf: seq<Buf<T>>, b: nat)
    requires Undisturbed(u, buf) && b < NBUF && !buf[b].locked
    ensures Undisturbed(u.(locks := u.locks + {b}), buf[b := buf[b].(locked := true)])
  {
    var v, now := u.(locks := u.locks + {b}), buf[b := buf[b].(locked := true)];
    forall c: nat | c < NBUF
      ensures now[c].refcnt == SpokenFor(v, now, c) && (now[c].locked ==> c in v.locks)
    {
      assert buf[c].refcnt == SpokenFor(u, buf, c);
    }
  }

  lemma DataAlone<T>(u: Users, buf: seq<Buf<T>>, b: nat, data: T)
    requires Undisturbed(u, buf) && b < NBUF
    ensures Undisturbed(u, buf[b := buf[b].(valid := true, data := data)])
  {
    var now := buf[b := buf[b].(valid := true, data := data)];
    forall c: nat | c < NBUF
      ensures now[c].refcnt == SpokenFor(u, now, c) && (now[c].locked ==> c in u.locks)
    {
      assert buf[c].refcnt == SpokenFor(u, buf, c);
    }
  }

  lemma UnlockAlone<T>(u: Users, buf: seq<Buf<T>>, b: nat)
    requires Undisturbed(u, buf) && b < NBUF && b in u.locks
    ensures Undisturbed(u.(locks := u.locks - {b}), buf[b := buf[b].(locked := false)])
  {
    var v, now := u.(locks := u.locks - {b}), buf[b := buf[b].(locked := false)];
    forall c: nat | c < NBUF
      ensures now[c].refcnt == SpokenFor(v, now, c) && (now[c].locked ==> c in v.locks)
    {
      assert buf[c].refcnt == SpokenFor(u, buf, c);
    }
  }

  lemma DropAlone<T>(u: Users, buf: seq<Buf<T>>, b: nat)
    requires Undisturbed(u, buf) && b < NBUF && b in u.mine && b !in u.locks && buf[b].refcnt > 0
    ensures Undisturbed(u.(mine := u.mine - {b}), buf[b := buf[b].(refcnt := buf[b].refcnt - 1)])
  {
    var v, now := u.(mine := u.mine - {b}), buf[b := buf[b].(refcnt := buf[b].refcnt - 1)];
    forall c: nat | c < NBUF
      ensures now[c].refcnt == SpokenFor(v, now, c) && (now[c].locked ==> c in v.locks)
    {
      assert buf[c].refcnt == SpokenFor(u, buf, c);
    }
  }

  lemma UnpinAlone<T>(u: Users, buf: seq<Buf<T>>, dirty: map<nat, nat>, b: nat, bn: nat)
    requires Placed(buf, dirty) && Undisturbed(u, buf) && b < NBUF && Caches(buf[b], bn) && bn in u.pins
             && buf[b].refcnt > 0
    ensures Undisturbed(u.(pins := u.pins - {bn}), buf[b := buf[b].(refcnt := buf[b].refcnt - 1)])
  {
    var v, now := u.(pins := u.pins - {bn}), buf[b := buf[b].(refcnt := buf[b].refcnt - 1)];
    forall c: nat | c < NBUF
      ensures now[c].refcnt == SpokenFor(v, now, c) && (now[c].locked ==> c in v.locks)
    {
      assert buf[c].refcnt == SpokenFor(u, buf, c);
      assert c != b && buf[c].dev == ROOTDEV ==> buf[c].blockno != bn;
    }
  }
}
