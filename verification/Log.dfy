/** log.c over the buffer cache: the in-memory log header, its critical sections, and
    commit and recovery, tied write by write to the protocol of module RedoLog. Commit and
    recovery give way to the other threads before each of their steps on a buffer. */
module Log {
  import opened Blocks
  import opened DiskWrites
  import opened RedoLog
  import opened LogProtocol
  import opened Bio
  import opened BufferUse

  /** How a stretch of the committing thread's work ended: done, waiting for the sleep lock of
      a buffer that another thread keeps, or in panic("bget: no buffers"). */
  datatype End = Finished | Asleep | NoBuffers

  predicate Remaining(pins: map<nat, nat>, h: seq<Word>, tail: nat, recovering: bool)
    requires tail <= |h|
  {
    if recovering then pins == map[] else pins.Keys == set bn | bn in h[tail..]
  }

  function Entries(h: seq<Word>): set<nat> {
    set bn | bn in h
  }

  lemma {:induction false} EntriesSize(h: seq<Word>)
    requires forall i, j :: 0 <= i < j < |h| ==> h[i] != h[j]
    ensures |Entries(h)| == |h|
  {
    if h != [] {
      var k := |h| - 1;
      EntriesSize(h[..k]);
      assert h == h[..k] + [h[k]];
      assert Entries(h) == Entries(h[..k]) + {h[k] as nat};
    }
  }

  class Logger {
    const start: nat
    const cache: BufferCache<Block>
    var lh: seq<Word>
    var outstanding: int
    var committing: bool
    var users: Users
    /** What the other threads will do each time they get a turn; steps that are not theirs to
        take at that moment are passed over. */
    var turns: seq<seq<CacheStep<Block>>>

    constructor (cache: BufferCache<Block>, start: nat, turns: seq<seq<CacheStep<Block>>>)
      requires cache.Valid() && cache.dirty == map[] && forall b :: 0 <= b < NBUF ==> Unclaimed(cache.buf[b])
      ensures this.cache == cache && this.start == start && State() == LogState([], 0, false) && users == NO_USERS
              && this.turns == turns
      ensures Ready() && Alone() && (start + LOGBLOCKS < |cache.disk| ==> LogOk()) && (turns == [] ==> Private())
    {
      this.cache, this.start, this.turns := cache, start, turns;
      lh, outstanding, committing, users := [], 0, false, NO_USERS;
    }

    /** What the protocol of module LogProtocol sees. */
    ghost function State(): LogState
      reads this`lh, this`outstanding, this`committing
    {
      LogState(lh, outstanding, committing)
    }

    /** The cache is in order, and so is the account of who uses it. */
    ghost predicate Ready()
      reads this`users, cache
    {
      cache.Valid() && Accounted(users, cache.buf, cache.dirty)
    }

    /** The in-memory log lists distinct home blocks, each of them pinned, and counts the
        operations that are under way. */
    ghost predicate LogOk()
      reads this`lh, this`users, this`outstanding, cache`disk
    {
      && start + LOGBLOCKS < |cache.disk| && Loggable(|cache.disk|, start, lh)
      && (forall bn :: bn in users.pins <==> bn in lh)
      && outstanding == |users.ops|
    }

    /** No other thread has a buffer, or will take one. */
    ghost predicate Private()
      reads this`users, this`turns, cache`buf
    {
      turns == [] && Undisturbed(users, cache.buf)
    }

    // ----- the critical sections under log.lock

    /** One turn of begin_op's loop; false means the thread sleeps and tries again. */
    method BeginOp(op: nat) returns (admitted: bool)
      requires Ready() && LogOk() && op !in users.ops
      modifies this`outstanding, this`users
      ensures LogProtocol.BeginOp(old(State())) == if admitted then Done(State()) else Sleeps
      ensures admitted <==> !old(committing) && |old(lh)| + 10 * (old(outstanding) + 1) <= 30
      ensures !admitted ==> State() == old(State())
      ensures Ready() && LogOk() && users == if admitted then old(users).(ops := old(users.ops) + {op}) else old(users)
      ensures old(Private()) ==> Private()
    {
      if committing {
        admitted := false;
      } else if |lh| + (outstanding + 1) * MAXOPBLOCKS > LOGBLOCKS {
        admitted := false;
      } else {
        outstanding := outstanding + 1;
        OpKeeps(op);
        users := users.(ops := users.ops + {op});
        admitted := true;
      }
    }

    lemma OpKeeps(op: nat)
      requires Accounted(users, cache.buf, cache.dirty) && op !in users.ops
      ensures Accounted(users.(ops := users.ops + {op}), cache.buf, cache.dirty)
      ensures Undisturbed(users, cache.buf) ==> Undisturbed(users.(ops := users.ops + {op}), cache.buf)
    {
      var v := users.(ops := users.ops + {op});
      forall c: nat | c < NBUF
        ensures SpokenFor(v, cache.buf, c) <= cache.buf[c].refcnt
      {
        assert SpokenFor(users, cache.buf, c) <= cache.buf[c].refcnt;
      }
    }

    /** log_write; false stands for one of its panics. The block is pinned when, and
        only when, it takes a new slot. */
    method LogWrite(b: nat) returns (ok: bool)
      requires Ready() && LogOk() && b < NBUF && |cache.buf| == NBUF
      requires cache.buf[b].locked && cache.buf[b].valid && Home(start, cache.buf[b].blockno)
      requires cache.buf[b].blockno < 0x1_0000_0000
      modifies this`lh, this`users, cache`buf
      ensures Ready() && LogOk()
      ensures LogProtocol.LogWrite(old(State()), old(cache.buf)[b].blockno) == if ok then Done(State()) else Panics
      ensures ok <==> |old(lh)| < 30 && old(outstanding) >= 1
      ensures cache.buf == if lh == old(lh) then old(cache.buf)
              else old(cache.buf)[b := old(cache.buf)[b].(refcnt := old(cache.buf)[b].refcnt + 1)]
      ensures !ok ==> users == old(users)
      ensures ok ==>
                users == old(users).(pins := users.pins, changed := old(users.changed) - {b})
                && old(users.pins.Keys) <= users.pins.Keys
    {
      hide BufferCache.Valid, Accounted;
      InUse(b);
      if |lh| >= LOGBLOCKS {
        return false;
      }
      if outstanding < 1 {
        return false;
      }
      var i := 0;
      while i < |lh| && lh[i] != cache.buf[b].blockno
        invariant 0 <= i <= |lh| && forall j :: 0 <= j < i ==> lh[j] != cache.buf[b].blockno
      {
        i := i + 1;
      }
      if i == |lh| {
        Append(b);
      }
      MarkLogged(b);
      ok := true;
    }

    method MarkLogged(b: nat)
      requires Ready() && LogOk() && b < NBUF && |cache.buf| == NBUF && cache.buf[b].dev == ROOTDEV
               && cache.buf[b].blockno in lh
      modifies this`users
      ensures Ready() && LogOk() && users == old(users).(changed := old(users.changed) - {b})
    {
      hide BufferCache.RingOk, BufferCache.StateOk, Accounted;
      PlacedNow();
      AbsorbKeeps(users, cache.buf, cache.dirty, b);
      users := users.(changed := users.changed - {b});
    }

    /** A locked buffer is in use. */
    lemma InUse(b: nat)
      requires Ready() && b < NBUF
      ensures |cache.buf| == NBUF && |cache.logical| == |cache.disk|
      ensures cache.buf[b].locked || b in users.mine ==>
                cache.buf[b].refcnt > 0 && cache.buf[b].dev == ROOTDEV && cache.buf[b].blockno < |cache.disk|
      ensures cache.buf[b].refcnt > 0 ==> cache.buf[b].dev == ROOTDEV
    {
      assert SpokenFor(users, cache.buf, b) <= cache.buf[b].refcnt;
    }

    lemma PlacedNow()
      requires cache.Valid()
      ensures Placed(cache.buf, cache.dirty)
    {
    }

    /** The block takes a new slot of the log, and its buffer is pinned. */
    method Append(b: nat)
      requires Ready() && LogOk() && b < NBUF && |cache.buf| == NBUF && IsDirty(cache.buf[b], cache.buf[b].blockno)
      requires cache.buf[b].blockno < |cache.disk| && Home(start, cache.buf[b].blockno)
               && cache.buf[b].blockno < 0x1_0000_0000
      requires cache.buf[b].blockno !in lh && |lh| < LOGBLOCKS
      modifies this`lh, this`users, cache`buf
      ensures Ready() && LogOk()
      ensures cache.buf == old(cache.buf)[b := old(cache.buf)[b].(refcnt := old(cache.buf)[b].refcnt + 1)]
      ensures lh == old(lh) + [old(cache.buf)[b].blockno]
      ensures users == old(users).(pins := old(users.pins)[old(cache.buf)[b].blockno := b])
    {
      hide BufferCache.RingOk, BufferCache.StateOk, Accounted;
      PlacedNow();
      PinKeeps(users, cache.buf, cache.dirty, b, cache.buf[b].blockno);
      cache.Bpin(b);
      lh := lh + [cache.buf[b].blockno];
      users := users.(pins := users.pins[cache.buf[b].blockno := b]);
    }

    // ----- the other threads

    /** Whatever step another thread takes, no pinned block leaves the cache, no block is
        cached twice, the committing thread keeps its buffers, and nothing reaches the disk. */
    method AnyStep(a: CacheStep<Block>)
      requires Ready() && |cache.buf| == NBUF && Allowed(a, users, cache.buf, |cache.disk|)
      modifies cache`buf, cache`logical, cache`dirty, cache`prev, cache`next, cache`ring, this`users
      ensures Ready() && users == UsersAfter(a, old(users)) && Stays(users, old(cache.buf), cache.buf)
      ensures !a.Change? ==> cache.Contents() == old(cache.Contents())
      ensures old(LogOk()) ==> LogOk()
    {
      hide BufferCache.StateOk, BufferCache.RingOk, Accounted, Stays, Got;
      PlacedNow();
      match a {
        case Get(bn) =>
          var b := cache.Bget(bn);
          if b < NBUF {
            GetKeeps(users, old(cache.buf), cache.dirty, b, bn);
          } else {
            StaysSelf(users, cache.buf);
          }
        case Lock(b) =>
          LockKeeps(users, cache.buf, cache.dirty, b);
          cache.AcquireSleep(b);
        case Read(b) =>
          cache.Fill(b);
          DataKeeps(users, old(cache.buf), cache.dirty, b, cache.buf[b].data);
        case Change(op, b, data) =>
          DataKeeps(users, cache.buf, cache.dirty, b, data);
          cache.Modify(b, data);
          ChangeKeeps(users, cache.buf, old(cache.dirty), b, op, cache.buf[b].blockno);
          users := users.(changed := users.changed[b := op]);
          assert Stays(users, old(cache.buf), cache.buf) by {
            FewerStay(old(users), users, old(cache.buf), cache.buf);
          }
        case Unlock(b) =>
          UnlockKeeps(users, cache.buf, cache.dirty, b);
          cache.ReleaseSleep(b);
        case Release(b) =>
          ReleaseKeeps(users, cache.buf, cache.dirty, b);
          InUse(b);
          cache.Unref(b);
      }
    }

    /** The other threads get a turn, of any number of steps. */
    method Others()
      requires Ready() && users.ops == {}
      modifies cache`buf, cache`logical, cache`dirty, cache`prev, cache`next, cache`ring, this`users, this`turns
      ensures Ready() && users == old(users) && cache.Contents() == old(cache.Contents())
              && Stays(users, old(cache.buf), cache.buf)
      ensures turns == if old(turns) == [] then [] else old(turns)[1..]
      ensures old(turns) == [] ==> cache.buf == old(cache.buf)
    {
      hide BufferCache.Valid, Accounted, Stays;
      NBufs();
      StaysSelf(users, cache.buf);
      if turns == [] {
        return;
      }
      var steps := turns[0];
      turns := turns[1..];
      var i := 0;
      while i < |steps|
        invariant 0 <= i <= |steps| && |cache.buf| == NBUF
        invariant Ready() && users == old(users) && cache.Contents() == old(cache.Contents())
                  && Stays(users, old(cache.buf), cache.buf)
        invariant turns == old(turns)[1..]
      {
        if Allowed(steps[i], users, cache.buf, |cache.disk|) {
          ghost var was := cache.buf;
          AnyStep(steps[i]);
          StaysThen(users, users, old(cache.buf), was, cache.buf);
          NBufs();
        }
        i := i + 1;
      }
    }

    lemma FewerStay(u: Users, v: Users, was: seq<Buf<Block>>, now: seq<Buf<Block>>)
      requires Stays(u, was, now) && v.mine <= u.mine && v.locks <= u.locks
      ensures Stays(v, was, now)
    {
    }

    lemma NBufs()
      requires Ready()
      ensures |cache.buf| == NBUF && |cache.logical| == |cache.disk|
    {
    }

    // ----- steps of the committing thread

    /** It has the lock of buffer b, which holds the newest contents of block bn. */
    ghost predicate Holds(b: nat, bn: nat)
      reads this`users, cache`buf
    {
      b < |cache.buf| && b in users.locks && Caches(cache.buf[b], bn) && cache.buf[b].valid
    }

    lemma HeldData(b: nat, bn: nat)
      requires Ready() && Holds(b, bn)
      ensures b < NBUF == |cache.buf| && bn < |cache.logical| == |cache.disk| && cache.buf[b].data == cache.logical[bn]
      ensures cache.buf[b].locked && b in users.mine && cache.buf[b].blockno == bn
    {
    }

    lemma HeldOn(u: Users, was: seq<Buf<Block>>, b: nat, bn: nat)
      requires Stays(u, was, cache.buf) && u.locks <= u.mine
      requires b < |was| && b in u.locks && Caches(was[b], bn) && was[b].valid
      ensures u.locks <= users.locks ==> Holds(b, bn)
    {
    }

    /** Somebody else has the lock of the block's buffer. */
    ghost predicate Awaited(bn: nat)
      reads this`users, cache`buf
    {
      exists c :: 0 <= c < |cache.buf| && Caches(cache.buf[c], bn) && cache.buf[c].locked && c !in users.locks
    }

    /** Why a stretch of work did not come to its end: another thread never gave back the lock
        of a buffer in all its turns, or every buffer is in use. */
    ghost predicate Stopped(end: End)
      reads this`users, this`turns, cache`buf
    {
      match end
      case Finished => true
      case Asleep => turns == [] && exists c :: 0 <= c < |cache.buf| && cache.buf[c].locked && c !in users.locks
      case NoBuffers => !HasFree(cache.buf)
    }

    /** bget, up to the point where the sleep lock is acquired. */
    method Find(bn: nat) returns (b: nat, end: End)
      requires Ready() && users.ops == {} && bn < |cache.disk|
      requires forall c :: c in users.mine && c < |cache.buf| ==> !Caches(cache.buf[c], bn)
      modifies cache`buf, cache`logical, cache`dirty, cache`prev, cache`next, cache`ring, this`users, this`turns
      ensures Ready() && cache.Contents() == old(cache.Contents()) && Stays(old(users), old(cache.buf), cache.buf)
      ensures end.Finished? ==>
                b < |cache.buf| && b !in old(users.mine) && users == old(users).(mine := old(users.mine) + {b})
                && Caches(cache.buf[b], bn)
      ensures !end.Finished? ==> end.NoBuffers? && users == old(users) && !Cached(cache.buf, bn) && !HasFree(cache.buf)
      ensures old(Private()) && (bn in old(users.pins) || |old(users.pins.Keys)| + |old(users.mine)| < NBUF) ==>
                end.Finished? && Private()
      ensures |old(users.pins.Keys)| >= NBUF && bn !in old(users.pins) ==> end.NoBuffers?
    {
      hide BufferCache.RingOk, BufferCache.StateOk, Accounted, Cached, HasFree, Got, Undisturbed;
      NBufs();
      Others();
      NBufs();
      MineOn(users, old(cache.buf), bn);
      Room(bn);
      PlacedNow();
      ghost var was := cache.buf;
      b := cache.Bget(bn);
      if b == NBUF {
        end := NoBuffers;
        return;
      }
      GetKeeps(users, was, cache.dirty, b, bn);
      GotBlock(was[b], bn);
      TakeMine(users, cache.buf, cache.dirty, b);
      StaysThen(users, users, old(cache.buf), was, cache.buf);
      if old(Private()) {
        GetAlone(users, was, cache.dirty, b, bn);
      }
      users := users.(mine := users.mine + {b});
      end := Finished;
    }

    /** Whether bget finds a buffer. */
    lemma Room(bn: nat)
      requires Ready()
      ensures Private() && (bn in users.pins || |users.pins.Keys| + |users.mine| < NBUF) ==>
                Cached(cache.buf, bn) || HasFree(cache.buf)
      ensures |users.pins.Keys| >= NBUF && bn !in users.pins ==> !Cached(cache.buf, bn) && !HasFree(cache.buf)
    {
      hide BufferCache.Valid, Accounted, HasFree, Cached;
      PlacedNow();
      PinnedCached(users, cache.buf, cache.dirty, bn);
      if Private() && |users.pins.Keys| + |users.mine| < NBUF {
        SomeFree(users, cache.buf, cache.dirty);
      }
      if |users.pins.Keys| >= NBUF {
        NoneFree(users, cache.buf, cache.dirty);
      }
    }

    lemma GotBlock(b: Buf<Block>, bn: nat)
      ensures Caches(Got(b, bn), bn)
    {
    }

    lemma MineOn(u: Users, was: seq<Buf<Block>>, bn: nat)
      requires Stays(u, was, cache.buf) && |cache.buf| == NBUF
      requires forall c :: c in u.mine && c < |was| ==> !Caches(was[c], bn)
      ensures forall c :: c in u.mine && c < |cache.buf| ==> !Caches(cache.buf[c], bn)
    {
    }

    /** bread: sleeps while another thread has the buffer, and returns it with the newest
        contents of the block. */
    method Bread(bn: nat) returns (b: nat, end: End)
      requires Ready() && users.ops == {} && bn < |cache.disk|
      requires forall c :: c in users.mine && c < |cache.buf| ==> !Caches(cache.buf[c], bn)
      modifies cache`buf, cache`logical, cache`dirty, cache`prev, cache`next, cache`ring, this`users, this`turns
      ensures Ready() && cache.Contents() == old(cache.Contents()) && Stays(old(users), old(cache.buf), cache.buf)
      ensures end.Finished? ==>
                b !in old(users.mine)
                && users == old(users).(mine := old(users.mine) + {b}, locks := old(users.locks) + {b}) && Holds(b, bn)
      ensures Stopped(end) && (end.Asleep? ==> Awaited(bn)) && (end.NoBuffers? ==> !Cached(cache.buf, bn))
      ensures old(Private()) && (bn in old(users.pins) || |old(users.pins.Keys)| + |old(users.mine)| < NBUF) ==>
                end.Finished? && Private()
      ensures |old(users.pins.Keys)| >= NBUF && bn !in old(users.pins) ==> end.NoBuffers?
    {
      hide BufferCache.RingOk, BufferCache.StateOk, Accounted, Cached, HasFree, Undisturbed;
      LocksMine();
      b, end := Find(bn);
      if !end.Finished? {
        return;
      }
      ghost var u, was := users, cache.buf;
      NBufs();
      Wait(b);
      StaysThen(old(users), u, old(cache.buf), was, cache.buf);
      StillCaches(u, was, b, bn);
      if cache.buf[b].locked {
        end := Asleep;
        return;
      }
      ghost var between := cache.buf;
      LockAndFill(b, bn);
      StaysThen(old(users), u, old(cache.buf), between, cache.buf);
    }

    lemma StillCaches(u: Users, was: seq<Buf<Block>>, b: nat, bn: nat)
      requires Stays(u, was, cache.buf) && b in u.mine && b < |was| && Caches(was[b], bn)
      ensures b < |cache.buf| && Caches(cache.buf[b], bn)
    {
    }

    /** acquiresleep, while the lock is taken and the other threads get turns. */
    method Wait(b: nat)
      requires Ready() && users.ops == {} && b < |cache.buf|
      modifies cache`buf, cache`logical, cache`dirty, cache`prev, cache`next, cache`ring, this`users, this`turns
      ensures Ready() && users == old(users) && cache.Contents() == old(cache.Contents())
              && Stays(users, old(cache.buf), cache.buf)
      ensures b < |cache.buf| && (cache.buf[b].locked ==> turns == [])
      ensures old(Private()) && b !in users.locks ==> Private() && !cache.buf[b].locked
    {
      hide BufferCache.Valid, Accounted, Stays;
      NBufs();
      Others();
      NBufs();
      while cache.buf[b].locked && turns != []
        invariant Ready() && users == old(users) && cache.Contents() == old(cache.Contents()) && |cache.buf| == NBUF
        invariant Stays(users, old(cache.buf), cache.buf)
        invariant old(turns) == [] ==> turns == [] && cache.buf == old(cache.buf)
        decreases |turns|
      {
        ghost var between := cache.buf;
        Others();
        StaysThen(users, users, old(cache.buf), between, cache.buf);
        NBufs();
      }
    }

    /** The end of acquiresleep, and the read from the disk unless the buffer is valid. */
    method LockAndFill(b: nat, bn: nat)
      requires Ready() && users.ops == {} && b in users.mine && b < |cache.buf| && Caches(cache.buf[b], bn)
               && !cache.buf[b].locked
      modifies cache`buf, cache`logical, cache`dirty, cache`prev, cache`next, cache`ring, this`users, this`turns
      ensures Ready() && users == old(users).(locks := old(users.locks) + {b})
              && cache.Contents() == old(cache.Contents())
      ensures Stays(old(users), old(cache.buf), cache.buf) && Holds(b, bn)
      ensures old(Private()) ==> Private()
    {
      hide BufferCache.RingOk, BufferCache.StateOk, Accounted, Stays, Undisturbed;
      NBufs();
      InUse(b);
      LockMine(users, cache.buf, cache.dirty, b);
      LockStays(users, cache.buf, b);
      if old(Private()) {
        LockAlone(users, cache.buf, b);
      }
      cache.AcquireSleep(b);
      users := users.(locks := users.locks + {b});
      ghost var u, was := users, cache.buf;
      Others();
      StillCaches(u, was, b, bn);
      NBufs();
      LockHeld(b);
      ghost var between := cache.buf;
      cache.Fill(b);
      DataKeeps(users, between, cache.dirty, b, cache.buf[b].data);
      if old(Private()) {
        DataAlone(users, between, b, cache.buf[b].data);
      }
      StaysThen(u, u, was, between, cache.buf);
      StaysThen(old(users), u, old(cache.buf), was, cache.buf);
    }

    lemma LocksMine()
      requires Ready()
      ensures users.locks <= users.mine
    {
    }

    lemma LockHeld(b: nat)
      requires Ready() && b in users.locks
      ensures b < |cache.buf| == NBUF && cache.buf[b].locked && b in users.mine
    {
    }

    lemma LockStays(u: Users, was: seq<Buf<Block>>, b: nat)
      requires |was| == NBUF && b < NBUF
      ensures Stays(u, was, was[b := was[b].(locked := true)])
    {
    }

    /** memmove into a held buffer, and bwrite. */
    method WriteBlock(b: nat, ghost bn: nat, data: Block)
      requires Ready() && users.ops == {} && Holds(b, bn)
      modifies cache`buf, cache`disk, cache`writes, cache`logical, cache`dirty, cache`prev, cache`next, cache`ring
      modifies this`users, this`turns
      ensures Ready() && users == old(users) && Holds(b, bn) && Stays(users, old(cache.buf), cache.buf)
      ensures bn < |old(cache.disk)| == |old(cache.logical)|
      ensures cache.Contents() == Stored(old(cache.disk)[bn := data], old(cache.writes) + [Write(bn, data)],
                                         old(cache.logical)[bn := data], old(cache.dirty) - {bn})
      ensures old(Private()) ==> Private()
    {
      hide BufferCache.RingOk, BufferCache.StateOk, Accounted, Stays, Undisturbed;
      ghost var was, dirty0 := cache.buf, cache.dirty;
      LocksMine();
      HeldData(b, bn);
      DataKeeps(users, cache.buf, cache.dirty, b, data);
      if Private() {
        DataAlone(users, cache.buf, b, data);
      }
      cache.Modify(b, data);
      ChangeMine(users, cache.buf, dirty0, b, bn);
      ghost var between := cache.buf;
      HeldOn(users, was, b, bn);
      Others();
      HeldOn(users, between, b, bn);
      HeldData(b, bn);
      StaysThen(users, users, was, between, cache.buf);
      cache.Bwrite(b);
      WrittenMine(users, cache.buf, dirty0[bn := b], bn);
      assert dirty0[bn := b] - {bn} == dirty0 - {bn};
    }

    /** brelse, in its two halves. */
    method Brelse(b: nat)
      requires Ready() && users.ops == {} && b in users.locks && b < |cache.buf|
      requires cache.buf[b].blockno in cache.dirty ==> cache.buf[b].blockno in users.pins
      modifies cache`buf, cache`logical, cache`dirty, cache`prev, cache`next, cache`ring, this`users, this`turns
      ensures Ready() && users == old(users).(mine := old(users.mine) - {b}, locks := old(users.locks) - {b})
      ensures cache.Contents() == old(cache.Contents()) && Stays(users, old(cache.buf), cache.buf)
      ensures old(Private()) ==> Private()
    {
      hide BufferCache.RingOk, BufferCache.StateOk, Accounted, Stays, Undisturbed;
      LockHeld(b);
      PlacedNow();
      UnlockMine(users, cache.buf, cache.dirty, b);
      UnlockStays(users, cache.buf, b);
      if Private() {
        UnlockAlone(users, cache.buf, b);
      }
      cache.ReleaseSleep(b);
      users := users.(locks := users.locks - {b});
      ghost var u, was := users, cache.buf;
      Others();
      PlacedNow();
      NBufs();
      ghost var between := cache.buf;
      DropMine(users, cache.buf, cache.dirty, b);
      if Private() {
        DropAlone(users, cache.buf, b);
      }
      cache.Unref(b);
      users := users.(mine := users.mine - {b});
      UnrefStays(users, between, b);
      FewerStay(u, users, was, between);
      StaysThen(users, users, was, between, cache.buf);
      StaysThen(users, users, old(cache.buf), was, cache.buf);
    }

    lemma UnlockStays(u: Users, was: seq<Buf<Block>>, b: nat)
      requires |was| == NBUF && b < NBUF
      ensures Stays(u.(locks := u.locks - {b}), was, was[b := was[b].(locked := false)])
      ensures Stays(u.(mine := u.mine - {b}, locks := u.locks - {b}), was, was[b := was[b].(locked := false)])
    {
    }

    lemma UnrefStays(u: Users, was: seq<Buf<Block>>, b: nat)
      requires |was| == NBUF && b < NBUF && was[b].refcnt > 0
      ensures Stays(u, was, was[b := was[b].(refcnt := was[b].refcnt - 1)])
    {
    }

    /** bunpin of a block that is on the disk. */
    method Unpin(b: nat, ghost bn: nat)
      requires Ready() && users.ops == {} && Holds(b, bn) && bn in users.pins && bn !in cache.dirty
      modifies cache`buf, cache`logical, cache`dirty, cache`prev, cache`next, cache`ring, this`users, this`turns
      ensures Ready() && users == old(users).(pins := old(users.pins) - {bn}) && Holds(b, bn)
      ensures cache.Contents() == old(cache.Contents()) && Stays(users, old(cache.buf), cache.buf)
      ensures old(Private()) ==> Private()
    {
      hide BufferCache.RingOk, BufferCache.StateOk, Accounted, Stays, Undisturbed;
      ghost var was := cache.buf;
      LocksMine();
      HeldData(b, bn);
      Others();
      HeldOn(users, was, b, bn);
      HeldData(b, bn);
      PlacedNow();
      UnpinMine(users, cache.buf, cache.dirty, b, bn);
      if Private() {
        UnpinAlone(users, cache.buf, cache.dirty, b, bn);
      }
      ghost var between := cache.buf;
      cache.Bunpin(b);
      UnrefStays(users, between, b);
      StaysThen(users, users, was, between, cache.buf);
      users := users.(pins := users.pins - {cache.buf[b].blockno});
      FewerStay(old(users), users, was, cache.buf);
    }

    /** The thread holds nothing, and no operation is under way. */
    ghost predicate Alone()
      reads this`users
    {
      users.ops == {} && users.mine == {} && users.locks == {}
    }

    /** Two breads, in this order. */
    method ReadTwo(x: nat, y: nat) returns (a: nat, b: nat, end: End)
      requires Ready() && Alone() && x < |cache.disk| && y < |cache.disk| && x != y
      modifies cache`buf, cache`logical, cache`dirty, cache`prev, cache`next, cache`ring, this`users, this`turns
      ensures Stopped(end)
      ensures cache.Contents() == old(cache.Contents())
      ensures end.Finished? ==>
                Ready() && a != b && Holds(a, x) && Holds(b, y) && users == old(users).(mine := {a, b}, locks := {a, b})
      ensures old(Private()) && (x in old(users.pins) || |old(users.pins.Keys)| < NBUF)
              && (y in old(users.pins) || |old(users.pins.Keys)| + 1 < NBUF) ==>
                end.Finished? && Private()
      ensures |old(users.pins.Keys)| >= NBUF && x !in old(users.pins) ==> end.NoBuffers?
    {
      hide BufferCache.Valid, Accounted, Stays, Cached, HasFree, Undisturbed;
      b := 0;
      a, end := Bread(x);
      if !end.Finished? {
        return;
      }
      ghost var u, was := users, cache.buf;
      assert u.mine == {a} && u.locks == {a};
      b, end := Bread(y);
      HeldOn(u, was, a, x);
    }

    /** Two brelses of blocks that are on the disk or pinned. */
    method ReleaseTwo(a: nat, ghost x: nat, b: nat, ghost y: nat)
      requires Ready() && a != b && Holds(a, x) && Holds(b, y) && users.ops == {} && users.mine == {a, b}
               && users.locks == {a, b}
      requires (x in cache.dirty ==> x in users.pins) && (y in cache.dirty ==> y in users.pins)
      modifies cache`buf, cache`logical, cache`dirty, cache`prev, cache`next, cache`ring, this`users, this`turns
      ensures Ready() && users == old(users).(mine := {}, locks := {}) && cache.Contents() == old(cache.Contents())
      ensures old(Private()) ==> Private()
    {
      hide BufferCache.Valid, Accounted, Stays, Undisturbed;
      ghost var was := cache.buf;
      Brelse(a);
      ghost var u := users;
      assert u.mine == {b} && u.locks == {b};
      HeldOn(u, was, b, y);
      Brelse(b);
      assert users.mine == {} && users.locks == {};
    }

    // ----- commit and recovery

    /** The list in memory is one that the log area and the disk have room for. */
    ghost predicate ListOk()
      reads this`lh, cache`disk
    {
      start + LOGBLOCKS < |cache.disk| && Loggable(|cache.disk|, start, lh)
    }

    /** The newest contents of the logged blocks. */
    ghost predicate Newest(contents: seq<Block>)
      reads this`lh, cache`logical
    {
      |contents| == |lh| && forall i :: 0 <= i < |lh| ==> lh[i] < |cache.logical| && cache.logical[lh[i]] == contents[i]
    }

    /** Since the disk was d0, exactly the writes ws reached it, in that order. */
    ghost predicate Wrote(d0: Disk, writes0: seq<Write<Block>>, ws: seq<Write<Block>>)
      reads cache`disk, cache`writes
    {
      InRange(d0, ws) && cache.writes == writes0 + ws && cache.disk == Apply(d0, ws)
    }

    /** Or the first few of them. */
    ghost predicate WroteSome(d0: Disk, writes0: seq<Write<Block>>, ws: seq<Write<Block>>)
      reads cache`disk, cache`writes
    {
      exists k :: 0 <= k <= |ws| && Wrote(d0, writes0, ws[..k])
    }

    lemma NothingWrote(ws: seq<Write<Block>>)
      ensures Wrote(cache.disk, cache.writes, ws[..0])
    {
    }

    lemma SomeWrote(d0: Disk, writes0: seq<Write<Block>>, ws: seq<Write<Block>>, k: nat)
      requires k <= |ws| && Wrote(d0, writes0, ws[..k])
      ensures WroteSome(d0, writes0, ws)
    {
    }

    /** One more write reached the disk. */
    lemma WroteNext(d0: Disk, writes0: seq<Write<Block>>, d1: Disk, writes1: seq<Write<Block>>, ws: seq<Write<Block>>,
                    k: nat)
      requires k < |ws| && InRange(d0, ws[..k]) && d1 == Apply(d0, ws[..k]) && writes1 == writes0 + ws[..k]
               && ws[k].bn < |d1|
      requires cache.disk == d1[ws[k].bn := ws[k].data] && cache.writes == writes1 + [ws[k]]
      ensures Wrote(d0, writes0, ws[..k + 1])
    {
      assert ws[..k + 1] == ws[..k] + [ws[k]];
      ApplySnoc(d0, ws[..k], ws[k]);
    }

    /** The writes of one stretch of work, and then some or all of the next. */
    lemma WroteBoth(d0: Disk, writes0: seq<Write<Block>>, d1: Disk, writes1: seq<Write<Block>>,
                    first: seq<Write<Block>>, second: seq<Write<Block>>)
      requires InRange(d0, first) && d1 == Apply(d0, first) && writes1 == writes0 + first
      ensures Wrote(d1, writes1, second) ==> Wrote(d0, writes0, first + second)
    {
      if Wrote(d1, writes1, second) {
        ApplyConcat(d0, first, second);
        assert writes0 + first + second == writes0 + (first + second);
      }
    }

    lemma WroteSomeFirst(d0: Disk, writes0: seq<Write<Block>>, first: seq<Write<Block>>, second: seq<Write<Block>>)
      requires WroteSome(d0, writes0, first)
      ensures WroteSome(d0, writes0, first + second)
    {
      var k :| 0 <= k <= |first| && Wrote(d0, writes0, first[..k]);
      assert (first + second)[..k] == first[..k];
    }

    lemma WroteSomeSecond(d0: Disk, writes0: seq<Write<Block>>, d1: Disk, writes1: seq<Write<Block>>,
                          first: seq<Write<Block>>, second: seq<Write<Block>>)
      requires InRange(d0, first) && d1 == Apply(d0, first) && writes1 == writes0 + first
               && WroteSome(d1, writes1, second)
      ensures WroteSome(d0, writes0, first + second)
    {
      var k :| 0 <= k <= |second| && Wrote(d1, writes1, second[..k]);
      WroteBoth(d0, writes0, d1, writes1, first, second[..k]);
      assert (first + second)[..|first| + k] == first + second[..k];
      SomeWrote(d0, writes0, first + second, |first| + k);
    }

    /** One turn of write_log's loop. */
    method CopyToLog(tail: nat, ghost contents: seq<Block>) returns (end: End)
      requires Ready() && Alone() && ListOk() && Newest(contents) && tail < |lh| && lh[tail] in users.pins
      modifies cache`buf, cache`disk, cache`writes, cache`logical, cache`dirty, cache`prev, cache`next, cache`ring
      modifies this`users, this`turns
      ensures Stopped(end)
      ensures start + tail + 1 < |old(cache.disk)|
      ensures end.Finished? ==> Ready() && users == old(users) && ListOk() && Newest(contents)
      ensures end.Finished? ==> cache.disk == old(cache.disk)[start + tail + 1 := contents[tail]]
      ensures end.Finished? ==> cache.writes == old(cache.writes) + [Write(start + tail + 1, contents[tail])]
      ensures !end.Finished? ==> cache.disk == old(cache.disk) && cache.writes == old(cache.writes)
      ensures old(Private()) && |old(users.pins.Keys)| < NBUF ==> end.Finished? && Private()
      ensures |old(users.pins.Keys)| >= NBUF && start + tail + 1 !in old(users.pins) ==> end.NoBuffers?
    {
      hide BufferCache.Valid, Accounted, Stays, Undisturbed;
      ghost var toBn := start + tail + 1;
      var to, from: nat;
      to, from, end := ReadTwo(start + tail + 1, lh[tail]);
      if !end.Finished? {
        return;
      }
      HeldData(from, lh[tail]);
      LocksMine();
      ghost var was := cache.buf;
      WriteBlock(to, toBn, cache.buf[from].data);
      HeldOn(users, was, from, lh[tail]);
      FlipSets(from, to);
      ReleaseTwo(from, lh[tail], to, toBn);
    }

    lemma FlipSets(a: nat, b: nat)
      ensures {a, b} == {b, a}
    {
    }

    /** write_log: copy the pinned blocks into the log area, in order. */
    method WriteLog(ghost contents: seq<Block>) returns (end: End)
      requires Ready() && Alone() && ListOk() && Newest(contents) && forall i :: 0 <= i < |lh| ==> lh[i] in users.pins
      modifies cache`buf, cache`disk, cache`writes, cache`logical, cache`dirty, cache`prev, cache`next, cache`ring
      modifies this`users, this`turns
      ensures Stopped(end)
      ensures end.Finished? ==> Ready() && users == old(users) && ListOk() && Newest(contents)
      ensures end.Finished? ==> Wrote(old(cache.disk), old(cache.writes), LogCopies(start, contents))
      ensures !end.Finished? ==> WroteSome(old(cache.disk), old(cache.writes), LogCopies(start, contents))
      ensures old(Private()) && |old(users.pins.Keys)| < NBUF ==> end.Finished? && Private()
      ensures |old(users.pins.Keys)| >= NBUF && lh != [] && start + 1 !in old(users.pins) ==> end.NoBuffers?
    {
      hide BufferCache.Valid, Accounted, Apply, InRange, Wrote, WroteSome, Loggable, Undisturbed;
      end := Finished;
      ghost var ws, d0, writes0 := LogCopies(start, contents), cache.disk, cache.writes;
      var tail := 0;
      NothingWrote(ws);
      while tail < |lh|
        invariant 0 <= tail <= |lh| == |contents| && Ready() && users == old(users) && ListOk() && Newest(contents)
        invariant Wrote(d0, writes0, ws[..tail]) && end.Finished?
        invariant old(Private()) && |users.pins.Keys| < NBUF ==> Private()
        invariant tail > 0 && start + 1 !in users.pins ==> |users.pins.Keys| < NBUF
      {
        ghost var d1, writes1 := cache.disk, cache.writes;
        WroteIs(d0, writes0, ws[..tail]);
        end := CopyToLog(tail, contents);
        if !end.Finished? {
          SameWrote(d0, writes0, d1, writes1, ws[..tail]);
          SomeWrote(d0, writes0, ws, tail);
          return;
        }
        WroteNext(d0, writes0, d1, writes1, ws, tail);
        tail := tail + 1;
      }
      assert ws[..tail] == ws;
    }

    lemma WroteIs(d0: Disk, writes0: seq<Write<Block>>, ws: seq<Write<Block>>)
      requires Wrote(d0, writes0, ws)
      ensures InRange(d0, ws) && cache.disk == Apply(d0, ws) && cache.writes == writes0 + ws
    {
    }

    lemma SameWrote(d0: Disk, writes0: seq<Write<Block>>, d1: Disk, writes1: seq<Write<Block>>, ws: seq<Write<Block>>)
      requires InRange(d0, ws) && d1 == Apply(d0, ws) && writes1 == writes0 + ws && cache.disk == d1
               && cache.writes == writes1
      ensures Wrote(d0, writes0, ws)
    {
    }

    /** write_head: store the in-memory header over the one on the disk. */
    method WriteHead() returns (end: End)
      requires Ready() && Alone() && ListOk() && start !in users.pins
      modifies cache`buf, cache`disk, cache`writes, cache`logical, cache`dirty, cache`prev, cache`next, cache`ring
      modifies this`users, this`turns
      ensures Stopped(end)
      ensures start < |old(cache.disk)| == |old(cache.logical)|
      ensures end.Finished? ==> Ready() && users == old(users)
      ensures end.Finished? ==> cache.disk == old(cache.disk)[start := PutHeader(old(cache.disk)[start], lh)]
      ensures end.Finished? ==>
                cache.writes == old(cache.writes) + [Write(start, PutHeader(old(cache.disk)[start], lh))]
      ensures end.Finished? ==>
                cache.logical == old(cache.logical)[start := cache.disk[start]] && cache.dirty == old(cache.dirty)
      ensures !end.Finished? ==> cache.disk == old(cache.disk) && cache.writes == old(cache.writes)
      ensures old(Private()) && |old(users.pins.Keys)| < NBUF ==> end.Finished? && Private()
    {
      hide BufferCache.Valid, Accounted, Stays, PutHeader, Cached, HasFree, Undisturbed;
      NBufs();
      Clean(start);
      var b: nat;
      b, end := Bread(start);
      if !end.Finished? {
        return;
      }
      HeldData(b, start);
      var hb := FormatHeader(cache.buf[b].data);
      WriteBlock(b, start, hb);
      HeldData(b, start);
      Brelse(b);
      assert users.mine == {} && users.locks == {};
      assert cache.dirty == old(cache.dirty);
    }

    /** Between its steps, what is not pinned is on the disk as it is in the cache. */
    lemma Clean(bn: nat)
      requires Ready() && users.ops == {} && users.locks == {} && bn !in users.pins
      ensures bn !in cache.dirty && (bn < |cache.disk| ==> cache.logical[bn] == cache.disk[bn])
    {
      hide BufferCache.RingOk;
      AllPinned(users, cache.buf, cache.dirty);
    }

    /** The loop of write_head: the count, then the block numbers. */
    method FormatHeader(data: Block) returns (hb: Block)
      requires |lh| <= LOGBLOCKS
      ensures hb == PutHeader(data, lh)
    {
      hb := PutWord(data, 0, |lh|);
      var i := 0;
      while i < |lh|
        invariant 0 <= i <= |lh| && hb == PutEntries(PutWord(data, 0, |lh|), lh[..i])
      {
        hb := PutWord(hb, i + 1, lh[i]);
        assert lh[..i + 1][..i] == lh[..i];
        i := i + 1;
      }
      assert lh[..i] == lh;
    }

    /** The log area holds the contents of the blocks of the in-memory header. */
    ghost predicate LogHolds(contents: seq<Block>)
      reads this`lh, cache`logical
    {
      && |contents| == |lh| && start + |lh| < |cache.logical|
      && forall i :: 0 <= i < |lh| ==> cache.logical[start + 1 + i] == contents[i]
    }

    /** install_trans from entry `tail` on: when it commits, the blocks that it has not come
        to are pinned; when it recovers, none is. */
    ghost predicate Installing(tail: nat, recovering: bool)
      requires tail <= |lh|
      reads this`lh, this`users
    {
      Remaining(users.pins, lh, tail, recovering)
    }

    /** memmove from a held buffer to the held buffer of the home block, bwrite, and the
        bunpin of a commit. */
    method WriteHome(l: nat, ghost logBn: nat, d: nat, ghost home: nat, recovering: bool)
      requires Ready() && users.ops == {} && Holds(l, logBn) && Holds(d, home) && l != d && logBn != home
               && (!recovering ==> home in users.pins)
      modifies cache`buf, cache`disk, cache`writes, cache`logical, cache`dirty, cache`prev, cache`next, cache`ring
      modifies this`users, this`turns
      ensures Ready() && Holds(l, logBn) && Holds(d, home)
      ensures users == old(users).(pins := if recovering then old(users.pins) else old(users.pins) - {home})
      ensures home < |old(cache.disk)| == |old(cache.logical)| && logBn < |old(cache.logical)|
      ensures var data := old(cache.logical)[logBn];
              cache.Contents() == Stored(old(cache.disk)[home := data], old(cache.writes) + [Write(home, data)],
                                         old(cache.logical)[home := data], old(cache.dirty) - {home})
      ensures old(Private()) ==> Private()
    {
      hide BufferCache.Valid, Accounted, Stays, Undisturbed;
      HeldData(l, logBn);
      LocksMine();
      ghost var was := cache.buf;
      WriteBlock(d, home, cache.buf[l].data);
      HeldOn(users, was, l, logBn);
      if !recovering {
        was := cache.buf;
        Unpin(d, home);
        HeldOn(users, was, l, logBn);
      }
    }

    /** One turn of install_trans's loop: copy a log block to its home block on the disk and,
        when committing, drop the pin on the home block's buffer. */
    method InstallOne(tail: nat, recovering: bool, ghost contents: seq<Block>) returns (end: End)
      requires Ready() && Alone() && ListOk() && tail < |lh| && Installing(tail, recovering) && LogHolds(contents)
      modifies cache`buf, cache`disk, cache`writes, cache`logical, cache`dirty, cache`prev, cache`next, cache`ring
      modifies this`users, this`turns
      ensures Stopped(end)
      ensures lh[tail] < |old(cache.disk)|
      ensures end.Finished? ==> Ready() && Alone() && ListOk() && Installing(tail + 1, recovering) && LogHolds(contents)
      ensures end.Finished? ==> cache.disk == old(cache.disk)[lh[tail] := contents[tail]]
      ensures end.Finished? ==> cache.writes == old(cache.writes) + [Write(lh[tail], contents[tail])]
      ensures !end.Finished? ==> cache.disk == old(cache.disk) && cache.writes == old(cache.writes)
      ensures old(Private()) && |old(users.pins.Keys)| < NBUF ==> end.Finished? && Private()
      ensures end.Finished? ==> |users.pins.Keys| <= |old(users.pins.Keys)|
    {
      hide BufferCache.Valid, Accounted, Stays, Remaining, Undisturbed;
      ghost var logBn := start + tail + 1;
      NotPinned(tail, recovering, logBn);
      InstalledOne(users.pins, tail, recovering);
      Clean(logBn);
      var l, d: nat;
      l, d, end := ReadTwo(start + tail + 1, lh[tail]);
      if !end.Finished? {
        return;
      }
      WriteHome(l, logBn, d, lh[tail], recovering);
      ReleaseTwo(l, logBn, d, lh[tail]);
    }

    /** No log block is pinned. */
    lemma NotPinned(tail: nat, recovering: bool, bn: nat)
      requires ListOk() && tail <= |lh| && Installing(tail, recovering) && !Home(start, bn)
      ensures bn !in users.pins
    {
    }

    lemma InstalledOne(pins: map<nat, nat>, tail: nat, recovering: bool)
      requires ListOk() && tail < |lh|
      requires Remaining(pins, lh, tail, recovering)
      ensures !recovering ==> lh[tail] in pins
      ensures Remaining(if recovering then pins else pins - {lh[tail]}, lh, tail + 1, recovering)
    {
      assert lh[tail..] == [lh[tail]] + lh[tail + 1..];
    }

    /** install_trans: copy the log blocks home, in order. */
    method InstallTrans(recovering: bool, ghost contents: seq<Block>) returns (end: End)
      requires Ready() && Alone() && ListOk() && Installing(0, recovering) && LogHolds(contents)
      modifies cache`buf, cache`disk, cache`writes, cache`logical, cache`dirty, cache`prev, cache`next, cache`ring
      modifies this`users, this`turns
      ensures Stopped(end)
      ensures end.Finished? ==> Ready() && Alone() && ListOk() && users.pins == map[] && cache.dirty == map[]
      ensures end.Finished? ==> Wrote(old(cache.disk), old(cache.writes), Installs(lh, contents))
      ensures !end.Finished? ==> WroteSome(old(cache.disk), old(cache.writes), Installs(lh, contents))
      ensures old(Private()) && |old(users.pins.Keys)| < NBUF ==> end.Finished? && Private()
    {
      hide BufferCache.Valid, Accounted, Apply, InRange, Wrote, WroteSome, Loggable, Installing, Undisturbed;
      end := Finished;
      ghost var ws, d0, writes0 := Installs(lh, contents), cache.disk, cache.writes;
      var tail := 0;
      NothingWrote(ws);
      while tail < |lh|
        invariant 0 <= tail <= |lh| == |contents| && Ready() && Alone() && ListOk() && Installing(tail, recovering)
                  && LogHolds(contents)
        invariant Wrote(d0, writes0, ws[..tail]) && end.Finished?
        invariant |users.pins.Keys| <= |old(users.pins.Keys)|
                  && (old(Private()) && |old(users.pins.Keys)| < NBUF ==> Private())
      {
        ghost var d1, writes1 := cache.disk, cache.writes;
        WroteIs(d0, writes0, ws[..tail]);
        end := InstallOne(tail, recovering, contents);
        if !end.Finished? {
          SameWrote(d0, writes0, d1, writes1, ws[..tail]);
          SomeWrote(d0, writes0, ws, tail);
          return;
        }
        WroteNext(d0, writes0, d1, writes1, ws, tail);
        tail := tail + 1;
      }
      assert ws[..tail] == ws;
      AllInstalled(recovering);
    }

    lemma AllInstalled(recovering: bool)
      requires Ready() && Alone() && Installing(|lh|, recovering)
      ensures users.pins == map[] && cache.dirty == map[]
    {
      hide BufferCache.Valid;
      assert users.pins.Keys == {};
      AllPinned(users, cache.buf, cache.dirty);
      assert cache.dirty.Keys == {};
    }

    /** The first half of commit, up to the write that commits. */
    method WriteLogAndHead(ghost contents: seq<Block>) returns (end: End)
      requires Ready() && Alone() && LogOk() && Newest(contents)
      modifies cache`buf, cache`disk, cache`writes, cache`logical, cache`dirty, cache`prev, cache`next, cache`ring
      modifies this`users, this`turns
      ensures Stopped(end)
      ensures start < |old(cache.disk)| && |lh| <= LOGBLOCKS
      ensures end.Finished? ==> Ready() && Alone() && ListOk() && Installing(0, false) && LogHolds(contents)
      ensures end.Finished? ==>
                Wrote(old(cache.disk), old(cache.writes), CopyAndCommit(start, old(cache.disk)[start], lh, contents))
      ensures end.Finished? ==> start < |cache.disk| && cache.disk[start] == PutHeader(old(cache.disk)[start], lh)
      ensures !end.Finished? ==> WroteSome(old(cache.disk), old(cache.writes),
                                           CopyAndCommit(start, old(cache.disk)[start], lh, contents))
      ensures old(Private()) && |old(users.pins.Keys)| < NBUF ==> end.Finished? && Private()
      ensures |old(users.pins.Keys)| >= NBUF && lh != [] ==> end.NoBuffers?
    {
      hide BufferCache.Valid, Accounted, Newest, Apply, InRange, LogCopies, PutHeader, Loggable, Homes, Wrote;
      hide WroteSome, LogHolds, Undisturbed, Remaining;
      ghost var d0, writes0 := cache.disk, cache.writes;
      NewestSize(contents);
      ghost var w := Write(start, PutHeader(d0[start], lh));
      CopiesThenHeader(d0, start, lh, contents);
      AllToInstall();
      NotPinned(0, false, start);
      NotPinned(0, false, start + 1);
      end := WriteLog(contents);
      if !end.Finished? {
        WroteSomeFirst(d0, writes0, LogCopies(start, contents), [w]);
        return;
      }
      ghost var d1, writes1 := cache.disk, cache.writes;
      WroteIs(d0, writes0, LogCopies(start, contents));
      end := WriteHead();
      if !end.Finished? {
        SameWrote(d0, writes0, d1, writes1, LogCopies(start, contents));
        AllWrote(d0, writes0, LogCopies(start, contents));
        WroteSomeFirst(d0, writes0, LogCopies(start, contents), [w]);
        return;
      }
      HeaderWrote(d0, writes0, d1, writes1, contents, w);
      ReadyToInstall(d1, contents);
    }

    lemma AllToInstall()
      requires LogOk()
      ensures ListOk() && Installing(0, false)
    {
      assert lh[0..] == lh;
    }

    lemma NewestSize(contents: seq<Block>)
      requires LogOk() && Newest(contents)
      ensures |contents| == |lh| <= LOGBLOCKS && start + LOGBLOCKS < |cache.disk| && Loggable(|cache.disk|, start, lh)
    {
    }

    lemma AllWrote(d0: Disk, writes0: seq<Write<Block>>, ws: seq<Write<Block>>)
      requires Wrote(d0, writes0, ws)
      ensures WroteSome(d0, writes0, ws)
    {
      assert ws[..|ws|] == ws;
    }

    lemma HeaderWrote(d0: Disk, writes0: seq<Write<Block>>, d1: Disk, writes1: seq<Write<Block>>, contents: seq<Block>,
                      w: Write<Block>)
      requires |contents| == |lh| <= LOGBLOCKS && start + LOGBLOCKS < |d0| && Loggable(|d0|, start, lh)
      requires InRange(d0, LogCopies(start, contents)) && d1 == Apply(d0, LogCopies(start, contents))
               && writes1 == writes0 + LogCopies(start, contents)
      requires w == Write(start, PutHeader(d0[start], lh))
      requires start < |d1| && cache.disk == d1[start := PutHeader(d1[start], lh)]
               && cache.writes == writes1 + [Write(start, PutHeader(d1[start], lh))]
      ensures Wrote(d0, writes0, CopyAndCommit(start, d0[start], lh, contents))
              && cache.disk[start] == PutHeader(d0[start], lh)
    {
      hide PutHeader, LogCopies, Loggable, Homes, Apply, InRange, CopyAndCommit;
      CopiesThenHeader(d0, start, lh, contents);
      assert writes0 + LogCopies(start, contents) + [w] == writes0 + (LogCopies(start, contents) + [w]);
    }

    lemma ReadyToInstall(d1: Disk, contents: seq<Block>)
      requires Ready() && Alone() && ListOk() && Installing(0, false) && |contents| == |lh|
      requires |d1| == |cache.disk| && forall i :: 0 <= i < |lh| ==> d1[start + 1 + i] == contents[i]
      requires forall bn :: 0 <= bn < |d1| && bn != start ==> cache.disk[bn] == d1[bn]
      ensures LogHolds(contents)
    {
      hide BufferCache.Valid, Accounted;
      NBufs();
      forall i | 0 <= i < |lh|
        ensures cache.logical[start + 1 + i] == contents[i]
      {
        NotPinned(0, false, start + 1 + i);
        Clean(start + 1 + i);
      }
    }

    /** The second half of commit, and all of recovery after the header was read: install,
        then erase the transaction from the log. */
    method InstallAndErase(recovering: bool, ghost contents: seq<Block>) returns (end: End)
      requires Ready() && Alone() && ListOk() && Installing(0, recovering) && LogHolds(contents)
      modifies this`lh, cache`buf, cache`disk, cache`writes, cache`logical, cache`dirty, cache`prev, cache`next
      modifies cache`ring, this`users, this`turns
      ensures Stopped(end)
      ensures start < |old(cache.disk)| && |old(lh)| == |contents|
      ensures end.Finished? ==>
                Ready() && Alone() && ListOk() && lh == [] && users.pins == map[] && cache.dirty == map[]
      ensures end.Finished? ==> Wrote(old(cache.disk), old(cache.writes),
                                      InstallAndClear(start, old(cache.disk)[start], old(lh), contents))
      ensures !end.Finished? ==> WroteSome(old(cache.disk), old(cache.writes),
                                           InstallAndClear(start, old(cache.disk)[start], old(lh), contents))
      ensures old(Private()) && |old(users.pins.Keys)| < NBUF ==> end.Finished? && Private()
    {
      hide BufferCache.Valid, Accounted, Apply, InRange, PutHeader, Homes, Wrote, WroteSome, LogHolds, Installing;
      hide Undisturbed;
      ghost var d0, writes0, h := cache.disk, cache.writes, lh;
      ghost var w := Write(start, PutHeader(d0[start], []));
      HeldSize(contents);
      InstallsThenClear(d0, start, h, contents);
      end := InstallTrans(recovering, contents);
      if !end.Finished? {
        WroteSomeFirst(d0, writes0, Installs(h, contents), [w]);
        return;
      }
      ghost var d1, writes1 := cache.disk, cache.writes;
      WroteIs(d0, writes0, Installs(h, contents));
      lh := [];
      end := WriteHead();
      if !end.Finished? {
        SameWrote(d0, writes0, d1, writes1, Installs(h, contents));
        AllWrote(d0, writes0, Installs(h, contents));
        WroteSomeFirst(d0, writes0, Installs(h, contents), [w]);
        return;
      }
      ErasedWrote(d0, writes0, d1, writes1, h, contents, w);
    }

    lemma HeldSize(contents: seq<Block>)
      requires LogHolds(contents)
      ensures |contents| == |lh|
    {
    }

    lemma ErasedWrote(d0: Disk, writes0: seq<Write<Block>>, d1: Disk, writes1: seq<Write<Block>>, h: seq<Word>,
                      contents: seq<Block>, w: Write<Block>)
      requires |contents| == |h| && start + LOGBLOCKS < |d0| && Loggable(|d0|, start, h)
      requires InRange(d0, Installs(h, contents)) && d1 == Apply(d0, Installs(h, contents))
               && writes1 == writes0 + Installs(h, contents)
      requires w == Write(start, PutHeader(d0[start], []))
      requires start < |d1| && cache.disk == d1[start := PutHeader(d1[start], [])]
               && cache.writes == writes1 + [Write(start, PutHeader(d1[start], []))]
      ensures Wrote(d0, writes0, InstallAndClear(start, d0[start], h, contents))
    {
      hide PutHeader, Loggable, Homes, Apply, InRange, Installs, InstallAndClear;
      InstallsThenClear(d0, start, h, contents);
      assert writes0 + Installs(h, contents) + [w] == writes0 + (Installs(h, contents) + [w]);
      ClearIs(d0[start], h, contents);
    }

    lemma ClearIs(head: Block, h: seq<nat>, contents: seq<Block>)
      requires |h| == |contents|
      ensures InstallAndClear(start, head, h, contents) == Installs(h, contents) + [Write(start, PutHeader(head, []))]
    {
    }

    /** commit, while other threads go on reading: when it is through, exactly the writes of
        RedoLog.CommitWrites were made, and nothing is logged, pinned or dirty and no
        transaction is left on the disk. Wherever it stops, it has made the first few of them.
        Undisturbed it comes through exactly when the log is not full: there are no more
        buffers than log blocks, so a full log has pinned them all. */
    method Commit() returns (end: End)
      requires Ready() && Alone() && LogOk() && NoTransaction(cache.disk, start)
      modifies this`lh, cache`buf, cache`disk, cache`writes, cache`logical, cache`dirty, cache`prev, cache`next
      modifies cache`ring, this`users, this`turns
      ensures Stopped(end)
      ensures end.Finished? ==>
                Ready() && Alone() && LogOk() && lh == [] && cache.dirty == map[] && NoTransaction(cache.disk, start)
      ensures old(lh) == [] ==> end.Finished? && cache.disk == old(cache.disk) && cache.writes == old(cache.writes)
      ensures end.Finished? && old(lh) != [] ==>
                Wrote(old(cache.disk), old(cache.writes),
                      CommitWrites(old(cache.disk), start, old(lh), Chosen(old(cache.logical), old(lh))))
      ensures !end.Finished? ==>
                WroteSome(old(cache.disk), old(cache.writes),
                          CommitWrites(old(cache.disk), start, old(lh), Chosen(old(cache.logical), old(lh))))
      ensures old(Private()) && |old(lh)| < LOGBLOCKS ==> end.Finished? && Private()
      ensures |old(lh)| == LOGBLOCKS ==> end.NoBuffers?
    {
      hide BufferCache.Valid, Accounted, Newest, NoTransaction, Undisturbed, CommitWrites, Wrote, WroteSome, Loggable;
      PinCount();
      if |lh| > 0 {
        ChosenIsNewest();
        end := CommitAll(Chosen(cache.logical, lh));
      } else {
        AllClean();
        end := Finished;
      }
    }

    /** commit of at least one block. */
    method CommitAll(ghost contents: seq<Block>) returns (end: End)
      requires Ready() && Alone() && LogOk() && NoTransaction(cache.disk, start) && lh != [] && Newest(contents)
      modifies this`lh, cache`buf, cache`disk, cache`writes, cache`logical, cache`dirty, cache`prev, cache`next
      modifies cache`ring, this`users, this`turns
      ensures Stopped(end)
      ensures Loggable(|old(cache.disk)|, start, old(lh)) && |contents| == |old(lh)|
      ensures end.Finished? ==>
                Ready() && Alone() && LogOk() && lh == [] && cache.dirty == map[] && NoTransaction(cache.disk, start)
      ensures end.Finished? ==>
                Wrote(old(cache.disk), old(cache.writes), CommitWrites(old(cache.disk), start, old(lh), contents))
      ensures !end.Finished? ==>
                WroteSome(old(cache.disk), old(cache.writes), CommitWrites(old(cache.disk), start, old(lh), contents))
      ensures old(Private()) && |old(users.pins.Keys)| < NBUF ==> end.Finished? && Private()
      ensures |old(users.pins.Keys)| >= NBUF ==> end.NoBuffers?
    {
      hide BufferCache.Valid, Accounted, Newest, Installing, LogHolds, NoTransaction, Undisturbed;
      hide CommitWrites, CopyAndCommit, InstallAndClear, Apply, InRange, Wrote, WroteSome, PutHeader, Loggable;
      ghost var d0, writes0, h := cache.disk, cache.writes, lh;
      PinCount();
      NewestSize(contents);
      CommitWhole(d0, start, h, contents);
      ghost var first := CopyAndCommit(start, d0[start], h, contents);
      ghost var second := InstallAndClear(start, PutHeader(d0[start], h), h, contents);
      end := WriteLogAndHead(contents);
      if !end.Finished? {
        WroteSomeFirst(d0, writes0, first, second);
        return;
      }
      FewerPins(h);
      ghost var d1, writes1 := cache.disk, cache.writes;
      WroteIs(d0, writes0, first);
      end := InstallAndErase(false, contents);
      if !end.Finished? {
        WroteSomeSecond(d0, writes0, d1, writes1, first, second);
        return;
      }
      WroteIs(d1, writes1, second);
      WroteBoth(d0, writes0, d1, writes1, first, second);
    }

    /** Wherever commit has come to, a crash there, and then any number of recoveries that
        crash, leave all the old home blocks or all the new ones. */
    lemma CrashedAnywhere(d0: Disk, writes0: seq<Write<Block>>, h: seq<Word>, contents: seq<Block>, crashes: seq<nat>)
      requires NoTransaction(d0, start) && Loggable(|d0|, start, h) && |contents| == |h|
      requires WroteSome(d0, writes0, CommitWrites(d0, start, h, contents))
      ensures WellFormed(cache.disk, start)
      ensures var e := RecoverWithCrashes(cache.disk, start, crashes);
              NoTransaction(e, start)
              && (Homes(e, start) == Homes(d0, start) || Homes(e, start) == Updated(Homes(d0, start), h, contents))
    {
      hide Loggable, CommitWrites, WellFormed, RecoverWithCrashes, Homes, Updated, Apply, InRange;
      var ws := CommitWrites(d0, start, h, contents);
      var k :| 0 <= k <= |ws| && Wrote(d0, writes0, ws[..k]);
      CrashAtomicity(d0, start, h, contents, k, crashes);
    }

    lemma PinCount()
      requires LogOk()
      ensures |users.pins.Keys| == |lh| <= LOGBLOCKS
    {
      assert users.pins.Keys == Entries(lh);
      EntriesSize(lh);
    }

    lemma FewerPins(h: seq<Word>)
      requires ListOk() && Installing(0, false) && lh == h
      ensures |users.pins.Keys| == |h|
    {
      assert users.pins.Keys == Entries(lh) by {
        assert lh[0..] == lh;
      }
      EntriesSize(lh);
    }

    lemma ChosenIsNewest()
      requires Ready() && LogOk()
      ensures Newest(Chosen(cache.logical, lh))
    {
      hide Accounted;
      NBufs();
    }

    lemma AllClean()
      requires Ready() && Alone() && LogOk() && lh == []
      ensures cache.dirty == map[]
    {
      hide BufferCache.Valid;
      AllPinned(users, cache.buf, cache.dirty);
      assert cache.dirty.Keys == {};
    }

    ghost function Chosen(logical: seq<Block>, h: seq<nat>): (contents: seq<Block>)
      ensures |contents| == |h|
      ensures forall i :: 0 <= i < |h| && h[i] < |logical| ==> contents[i] == logical[h[i]]
    {
      seq(|h|, i requires 0 <= i < |h| => if h[i] < |logical| then logical[h[i]] else ZERO_BLOCK)
    }

    /** read_head: take over the header that the disk holds. */
    method ReadHead() returns (end: End)
      requires Ready() && Alone() && users.pins == map[] && WellFormed(cache.disk, start)
      modifies this`lh, cache`buf, cache`logical, cache`dirty, cache`prev, cache`next, cache`ring, this`users
      modifies this`turns
      ensures Stopped(end)
      ensures cache.Contents() == old(cache.Contents())
      ensures end.Finished? ==> Ready() && users == old(users) && lh == Header(cache.disk[start])
      ensures old(Private()) ==> end.Finished? && Private()
    {
      hide BufferCache.Valid, Accounted, Stays, Header, Cached, HasFree, Loggable, Undisturbed;
      NBufs();
      Clean(start);
      var b: nat;
      b, end := Bread(start);
      if !end.Finished? {
        return;
      }
      HeldData(b, start);
      lh := ParseHeader(cache.buf[b].data);
      Brelse(b);
      assert users.mine == {} && users.locks == {};
    }

    /** The loop of read_head. */
    method ParseHeader(data: Block) returns (h: seq<Word>)
      requires GetWord(data, 0) <= LOGBLOCKS
      ensures h == Header(data)
    {
      var n := GetWord(data, 0);
      h := [];
      while |h| < n
        invariant |h| <= n && h == Header(data)[..|h|]
      {
        h := h + [GetWord(data, |h| + 1)];
      }
    }

    /** recover_from_log: whatever readable header the disk holds, exactly the writes of
        RedoLog.RecoveryWrites, after which no transaction is left. */
    method Recover() returns (end: End)
      requires Ready() && Alone() && users.pins == map[] && outstanding == 0 && WellFormed(cache.disk, start)
      modifies this`lh, cache`buf, cache`disk, cache`writes, cache`logical, cache`dirty, cache`prev, cache`next
      modifies cache`ring, this`users, this`turns
      ensures Stopped(end)
      ensures end.Finished? ==>
                Ready() && Alone() && LogOk() && lh == [] && cache.dirty == map[] && NoTransaction(cache.disk, start)
      ensures end.Finished? ==> Wrote(old(cache.disk), old(cache.writes), RecoveryWrites(old(cache.disk), start))
      ensures !end.Finished? ==> WroteSome(old(cache.disk), old(cache.writes), RecoveryWrites(old(cache.disk), start))
      ensures old(Private()) ==> end.Finished? && Private()
    {
      hide BufferCache.Valid, Accounted, LogHolds, Apply, InRange, WellFormed, NoTransaction, Wrote, WroteSome;
      hide RecoveryWrites, Loggable, Undisturbed;
      ghost var d0, writes0 := cache.disk, cache.writes;
      RecoveryWhole(d0, start);
      end := ReadHead();
      if !end.Finished? {
        NothingWrote(RecoveryWrites(d0, start));
        SomeWrote(d0, writes0, RecoveryWrites(d0, start), 0);
        return;
      }
      ReadyToRecover();
      end := InstallAndErase(true, Logged(d0, start));
      if end.Finished? {
        WroteIs(d0, writes0, RecoveryWrites(d0, start));
      }
    }

    lemma ReadyToRecover()
      requires Ready() && Alone()
               && users.pins == map[] && WellFormed(cache.disk, start) && lh == Header(cache.disk[start])
      ensures ListOk() && Installing(0, true) && LogHolds(Logged(cache.disk, start))
    {
      hide BufferCache.Valid, Accounted, Header;
      NBufs();
      forall i | 0 <= i < |lh|
        ensures cache.logical[start + 1 + i] == Logged(cache.disk, start)[i]
      {
        Clean(start + 1 + i);
      }
    }

    /** end_op by a thread that has logged what it changed; false stands for
        panic("log.committing"). The last operation out commits. */
    method EndOp(op: nat) returns (ok: bool, end: End)
      requires Ready() && LogOk() && op in users.ops && users.mine == {} && users.locks == {}
               && NoTransaction(cache.disk, start)
      requires forall b :: b in users.changed ==> users.changed[b] != op
      modifies this`lh, this`outstanding, this`committing
      modifies cache`buf, cache`disk, cache`writes, cache`logical, cache`dirty, cache`prev, cache`next, cache`ring
      modifies this`users, this`turns
      ensures Stopped(end)
      ensures (ok <==> LogProtocol.EndOp(old(State())).Done?) && outstanding == old(outstanding) - 1
      ensures ok <==> !old(committing)
      ensures end.Finished? ==> Ready() && LogOk() && NoTransaction(cache.disk, start)
      ensures ok && end.Finished? ==> var s := LogProtocol.EndOp(old(State())).state;
                                      State() == if s.committing then Committed(s) else s
      ensures ok && outstanding == 0 && end.Finished? && old(lh) != [] ==>
                Wrote(old(cache.disk), old(cache.writes),
                      CommitWrites(old(cache.disk), start, old(lh), Chosen(old(cache.logical), old(lh))))
      ensures !(ok && outstanding == 0 && old(lh) != []) ==>
                end.Finished? && cache.disk == old(cache.disk) && cache.writes == old(cache.writes)
      ensures !end.Finished? ==> committing
      ensures !end.Finished? ==>
                WroteSome(old(cache.disk), old(cache.writes),
                          CommitWrites(old(cache.disk), start, old(lh), Chosen(old(cache.logical), old(lh))))
      ensures ok && outstanding == 0 && old(Private()) && |old(lh)| < LOGBLOCKS ==> end.Finished?
      ensures ok && outstanding == 0 && |old(lh)| == LOGBLOCKS ==> end.NoBuffers?
      ensures end.Finished? ==> users.ops == old(users.ops) - {op} && users.mine == {} && users.locks == {}
      ensures !(ok && outstanding == 0) ==> lh == old(lh) && users == old(users).(ops := old(users.ops) - {op})
    {
      hide BufferCache.Valid, Accounted, NoTransaction, CommitWrites, Wrote, WroteSome, Loggable, Undisturbed;
      var doCommit := false;
      end := Finished;
      OpEnds(op);
      users := users.(ops := users.ops - {op});
      outstanding := outstanding - 1;
      if committing {
        return false, Finished;
      }
      if outstanding == 0 {
        doCommit := true;
        committing := true;
      }
      if doCommit {
        end := Commit();
        if !end.Finished? {
          return true, end;
        }
        committing := false;
      }
      ok := true;
    }

    lemma OpEnds(op: nat)
      requires Accounted(users, cache.buf, cache.dirty) && forall b :: b in users.changed ==> users.changed[b] != op
      ensures Accounted(users.(ops := users.ops - {op}), cache.buf, cache.dirty)
      ensures Undisturbed(users, cache.buf) ==> Undisturbed(users.(ops := users.ops - {op}), cache.buf)
    {
      var v := users.(ops := users.ops - {op});
      forall c: nat | c < NBUF
        ensures SpokenFor(v, cache.buf, c) <= cache.buf[c].refcnt
      {
        assert SpokenFor(users, cache.buf, c) <= cache.buf[c].refcnt;
      }
    }

    /** bread by an operation, of a block that is not pinned, with nobody else about. */
    method TakeOne(bn: nat) returns (b: nat)
      requires Ready() && Private() && users.mine == {} && bn < |cache.disk| && bn !in users.pins
               && |users.pins.Keys| < NBUF
      modifies cache`buf
      ensures Ready() && b < NBUF == |cache.buf| == |old(cache.buf)| && b !in users.locks
              && cache.buf == old(cache.buf)[b := cache.buf[b]]
      ensures Caches(cache.buf[b], bn) && cache.buf[b].valid && cache.buf[b].locked && cache.buf[b].refcnt == 1
    {
      hide BufferCache.RingOk, BufferCache.StateOk, Accounted, Undisturbed, HasFree, Cached, SpokenFor;
      ghost var was := cache.buf;
      Room(bn);
      LocksMine();
      PlacedNow();
      NBufs();
      b := cache.Bget(bn);
      FreshGot(users, was, cache.dirty, b, bn);
      GetKeeps(users, was, cache.dirty, b, bn);
      LockKeeps(users, cache.buf, cache.dirty, b);
      cache.AcquireSleep(b);
      ghost var locked := cache.buf;
      cache.Fill(b);
      DataKeeps(users, locked, cache.dirty, b, cache.buf[b].data);
    }

    /** The change and the log_write. */
    method ChangeOne(b: nat, bn: nat, op: nat, data: Block)
      requires Ready() && LogOk() && op in users.ops && outstanding >= 1 && |cache.buf| == NBUF
      requires b < NBUF && b !in users.locks && Caches(cache.buf[b], bn) && cache.buf[b].valid && cache.buf[b].locked
      requires bn < |cache.disk| && Home(start, bn) && bn < 0x1_0000_0000 && bn !in lh && |lh| < LOGBLOCKS
      modifies this`lh, this`users, cache`buf, cache`logical, cache`dirty
      ensures Ready() && LogOk() && lh == old(lh) + [bn] && |cache.buf| == NBUF
      ensures cache.buf == old(cache.buf)[b := old(cache.buf)[b].(data := data, refcnt := old(cache.buf)[b].refcnt + 1)]
      ensures users.mine == old(users.mine) && users.locks == old(users.locks) && users.ops == old(users.ops)
      ensures users.changed.Keys <= old(users.changed.Keys) - {b}
    {
      hide BufferCache.RingOk, BufferCache.StateOk, Accounted;
      DataKeeps(users, cache.buf, cache.dirty, b, data);
      ghost var dirty0 := cache.dirty;
      cache.Modify(b, data);
      ChangeKeeps(users, cache.buf, dirty0, b, op, bn);
      users := users.(changed := users.changed[b := op]);
      var _ := LogWrite(b);
    }

    /** brelse by the thread that has the lock, of a pinned block. */
    method GiveBack(b: nat)
      requires Ready() && |cache.buf| == NBUF && b < NBUF && b !in users.locks && b !in users.mine
               && b !in users.changed
      requires cache.buf[b].locked && cache.buf[b].refcnt == 2
      modifies cache`buf, cache`prev, cache`next, cache`ring
      ensures Ready() && cache.buf == old(cache.buf)[b := old(cache.buf)[b].(locked := false, refcnt := 1)]
    {
      hide BufferCache.RingOk, BufferCache.StateOk, Accounted, SpokenFor;
      UnlockKeeps(users, cache.buf, cache.dirty, b);
      cache.ReleaseSleep(b);
      PlacedNow();
      OnlyPin(users, cache.buf, b);
      ReleaseKeeps(users, cache.buf, cache.dirty, b);
      cache.Unref(b);
    }

    /** bread, a change, log_write and brelse, by operation op, for a block that is not in the
        log yet, with nobody else about. */
    method LogOne(bn: nat, op: nat, data: Block)
      requires Ready() && LogOk() && Private() && users.mine == {} && users.locks == {} && op in users.ops
               && outstanding >= 1
      requires bn < |cache.disk| && Home(start, bn) && bn < 0x1_0000_0000 && bn !in lh && |lh| < LOGBLOCKS
      modifies this`lh, this`users, cache`buf, cache`logical, cache`dirty, cache`prev, cache`next, cache`ring
      ensures Ready() && LogOk() && Private() && lh == old(lh) + [bn]
      ensures users.mine == {} && users.locks == {} && users.ops == old(users.ops)
              && users.changed.Keys <= old(users.changed.Keys)
    {
      hide BufferCache.Valid, Accounted, Undisturbed, Loggable;
      ghost var u, was := users, cache.buf;
      PinCount();
      var b := TakeOne(bn);
      ChangeOne(b, bn, op, data);
      GiveBack(b);
      PlacedNow();
      LoggedAlone(u, was, users, cache.buf, cache.dirty, b, bn);
    }
  }

  /** What bget hands out when nobody else has a buffer. */
  lemma FreshGot(u: Users, buf: seq<Buf<Block>>, dirty: map<nat, nat>, b: nat, bn: nat)
    requires Accounted(u, buf, dirty) && Undisturbed(u, buf) && u.mine == {} && bn !in u.pins && b < NBUF
    requires !Caches(buf[b], bn) ==> !Cached(buf, bn) && buf[b].refcnt == 0
    ensures buf[b].refcnt == 0 && !buf[b].locked && Caches(Got(buf[b], bn), bn) && Got(buf[b], bn).refcnt == 1
            && !Got(buf[b], bn).locked
  {
    assert buf[b].refcnt == SpokenFor(u, buf, b);
  }

  lemma OnlyPin(u: Users, buf: seq<Buf<Block>>, b: nat)
    requires b < |buf| && b !in u.mine && !buf[b].locked
    ensures SpokenFor(u, buf, b) <= 1
  {
  }

  lemma LoggedAlone(u: Users, was: seq<Buf<Block>>, v: Users, buf: seq<Buf<Block>>, dirty: map<nat, nat>, b: nat,
                    bn: nat)
    requires Undisturbed(u, was) && |buf| == NBUF && b < NBUF && buf == was[b := buf[b]] && Placed(buf, dirty)
    requires v.mine == u.mine == {} && v.locks == u.locks && v.pins.Keys == u.pins.Keys + {bn}
    requires Caches(buf[b], bn) && buf[b].refcnt == 1 && !buf[b].locked
    ensures Undisturbed(v, buf)
  {
    forall c: nat | c < NBUF
      ensures buf[c].refcnt == SpokenFor(v, buf, c) && (buf[c].locked ==> c in v.locks)
    {
      assert was[c].refcnt == SpokenFor(u, was, c);
      assert c != b && buf[c].dev == ROOTDEV ==> buf[c].blockno != bn;
      assert buf[c].blockno in v.pins <==> buf[c].blockno in v.pins.Keys;
      assert buf[c].blockno in u.pins <==> buf[c].blockno in u.pins.Keys;
    }
  }

  /** Three operations under way on a disk with nothing on it, and k blocks logged. */
  ghost predicate Filling(log: Logger, k: nat)
    requires k <= LOGBLOCKS
    reads log, log.cache
  {
    && log.Ready() && log.LogOk() && log.Private() && log.users.mine == {} && log.users.locks == {}
    && log.users.ops == {0, 1, 2}
    && log.users.changed == map[] && log.lh == Numbers(k) && log.outstanding == 3 && !log.committing
    && log.start == 2 && log.cache.disk == EmptyDisk()
  }

  method BeginThree(log: Logger)
    requires log.Ready() && log.LogOk() && log.Private() && log.users == NO_USERS && log.lh == []
             && log.outstanding == 0 && !log.committing
    requires log.start == 2 && log.cache.disk == EmptyDisk()
    modifies log`outstanding, log`users
    ensures Filling(log, 0)
  {
    hide BufferCache.Valid, Accounted, Undisturbed, Loggable;
    var _ := log.BeginOp(0);
    var _ := log.BeginOp(1);
    var _ := log.BeginOp(2);
  }

  /** One more block, by the operation whose turn it is. */
  method FillOne(log: Logger, k: nat)
    requires k < LOGBLOCKS && Filling(log, k)
    modifies log`lh, log`users, log.cache`buf, log.cache`logical, log.cache`dirty, log.cache`prev, log.cache`next
    modifies log.cache`ring
    ensures Filling(log, k + 1)
  {
    hide Logger.Ready, Logger.LogOk, Undisturbed;
    assert Numbers(k) + [3 + LOGBLOCKS + k] == Numbers(k + 1);
    log.LogOne(3 + LOGBLOCKS + k, k / MAXOPBLOCKS, ZERO_BLOCK);
    assert log.users.changed.Keys == {};
  }

  method EndThree(log: Logger) returns (end: End)
    requires Filling(log, LOGBLOCKS)
    modifies log`lh, log`outstanding, log`committing, log`users, log`turns
    modifies log.cache`buf, log.cache`disk, log.cache`writes, log.cache`logical, log.cache`dirty, log.cache`prev
    modifies log.cache`next, log.cache`ring
    ensures end == NoBuffers
  {
    hide Logger.Ready, Logger.LogOk, Undisturbed, NoTransaction, CommitWrites, Logger.Wrote, Logger.WroteSome;
    var ok;
    ok, end := log.EndOp(0);
    ok, end := log.EndOp(1);
    ok, end := log.EndOp(2);
  }

  /** Three operations of ten blocks each fill the log: the last end_op finds no buffer for
      its commit. */
  method FullLog() returns (end: End)
    ensures end == NoBuffers
  {
    hide BufferCache.Valid, Filling, Logger.Ready, Logger.LogOk, Logger.Private, EmptyDisk;
    var cache := new BufferCache<Block>(EmptyDisk(), ZERO_BLOCK);
    var log := new Logger(cache, 2, []);
    BeginThree(log);
    var k := 0;
    while k < LOGBLOCKS
      invariant 0 <= k <= LOGBLOCKS && Filling(log, k)
    {
      FillOne(log, k);
      k := k + 1;
    }
    end := EndThree(log);
  }

  /** The first k blocks behind a log that starts at block 2. */
  function Numbers(k: nat): (h: seq<Word>)
    requires k <= LOGBLOCKS
    ensures |h| == k && forall bn :: bn in h ==> bn < 3 + LOGBLOCKS + k
  {
    seq(k, i requires 0 <= i < k => 3 + LOGBLOCKS + i)
  }

  function EmptyDisk(): (d: seq<Block>)
    ensures |d| == 100 && NoTransaction(d, 2)
  {
    ZeroBlockWords(0);
    seq(100, _ => ZERO_BLOCK)
  }
}
