/** The buffer cache: NBUF buffers on a circular doubly linked list in LRU order.
    A pointer to a buffer is its index in the static array; HEAD is the list head.
    The cache never looks inside a block, so the block type T is a parameter.
    Each method is one critical section, or one step of a thread that holds a buffer's
    sleep lock, so any interleaving of threads is a sequence of these calls. */
module Bio {
  import opened DiskWrites

  const NBUF: nat := 3 * MAXOPBLOCKS
  const HEAD: nat := NBUF
  const ROOTDEV: nat := 1

  datatype Buf<T> = Buf(valid: bool, dev: nat, blockno: nat, locked: bool, refcnt: nat, data: T)

  /** A buffer that bget has not handed out yet. */
  predicate Unclaimed<T>(b: Buf<T>) {
    !b.valid && b.dev == 0 && b.refcnt == 0 && !b.locked
  }

  // ----- the circular list

  predicate Distinct(s: seq<nat>) {
    forall i, j :: 0 <= i < j < |s| ==> s[i] != s[j]
  }

  /** The list that the links describe from the head on, in both directions. */
  predicate Linked(ring: seq<nat>, prev: seq<nat>, next: seq<nat>) {
    && |prev| == |next| == NBUF + 1
    && 0 < |ring| <= NBUF + 1 && ring[0] == HEAD && Distinct(ring)
    && (forall i :: 0 <= i < |ring| ==> ring[i] <= NBUF)
    && (forall i :: 0 <= i < |ring| - 1 ==> next[ring[i]] == ring[i + 1])
    && (forall i :: 1 <= i < |ring| ==> prev[ring[i]] == ring[i - 1])
    && next[ring[|ring| - 1]] == HEAD && prev[HEAD] == ring[|ring| - 1]
  }

  /** The list with b as the most recently used buffer. */
  function Inserted(ring: seq<nat>, b: nat): seq<nat>
    requires |ring| > 0
  {
    [ring[0], b] + ring[1..]
  }

  function Removed(ring: seq<nat>, k: nat): seq<nat>
    requires k < |ring|
  {
    ring[..k] + ring[k + 1..]
  }

  /** Bypassing an element in both directions removes it from the list. */
  lemma RemovedLinked(ring: seq<nat>, prev: seq<nat>, next: seq<nat>, k: nat)
    requires Linked(ring, prev, next) && 0 < k < |ring|
    ensures var b := ring[k];
            && b < |prev| == |next| && next[b] < |prev| && prev[b] < |next| && prev[next[b] := prev[b]][b] == prev[b]
            && Linked(Removed(ring, k), prev[next[b] := prev[b]], next[prev[b] := next[b]])
            && b !in Removed(ring, k)
  {
    var b, after, r := ring[k], if k + 1 < |ring| then ring[k + 1] else HEAD, Removed(ring, k);
    assert next[b] == after && prev[b] == ring[k - 1];
    assert forall i :: 0 <= i < |r| ==> r[i] == ring[if i < k then i else i + 1];
  }

  /** Linking b between the head and the first element puts it at the front. */
  lemma InsertedLinked(ring: seq<nat>, prev: seq<nat>, next: seq<nat>, b: nat)
    requires Linked(ring, prev, next) && b < NBUF && b !in ring && |ring| <= NBUF
    ensures next[HEAD] <= NBUF
    ensures Linked(Inserted(ring, b), prev[b := HEAD][next[HEAD] := b], next[b := next[HEAD]][HEAD := b])
  {
    var r, first := Inserted(ring, b), if |ring| > 1 then ring[1] else HEAD;
    assert next[HEAD] == first;
    var p, n := prev[b := HEAD][first := b], next[b := first][HEAD := b];
    assert forall i :: 2 <= i < |r| ==> r[i] == ring[i - 1];
    forall i | 2 <= i < |r|
      ensures r[i] != b && r[i] != HEAD && n[r[i]] == next[r[i]] && p[r[i]] == if i == 2 then b else prev[r[i]]
    {
      assert r[i] == ring[i - 1];
    }
  }

  // ----- buffers

  /** Buffer b holds block bn (not necessarily read yet). */
  predicate Caches<T>(b: Buf<T>, bn: nat) {
    b.dev == ROOTDEV && b.blockno == bn
  }

  predicate Cached<T>(buf: seq<Buf<T>>, bn: nat) {
    exists i :: 0 <= i < |buf| && Caches(buf[i], bn)
  }

  /** Buffer b holds contents of block bn that must not be lost. */
  predicate IsDirty<T>(b: Buf<T>, bn: nat) {
    Caches(b, bn) && b.valid && b.refcnt > 0
  }

  predicate HasFree<T>(buf: seq<Buf<T>>) {
    exists i :: 0 <= i < |buf| && buf[i].refcnt == 0
  }

  /** The buffer after bget found it or, recycled, gave it to block bn. */
  function Got<T>(b: Buf<T>, bn: nat): Buf<T> {
    if Caches(b, bn) then b.(refcnt := b.refcnt + 1)
    else b.(dev := ROOTDEV, blockno := bn, valid := false, refcnt := 1)
  }

  /** The part of the cache that taking and releasing buffers does not touch: the disk,
      the writes made to it, the newest contents of every block, and for the blocks that
      the disk has older contents for, the buffer that holds the newest. */
  datatype Stored<T> = Stored(disk: seq<T>, writes: seq<Write<T>>, logical: seq<T>, dirty: map<nat, nat>)

  class BufferCache<T> {
    var buf: seq<Buf<T>>
    var prev: seq<nat>
    var next: seq<nat>
    var disk: seq<T>
    ghost var ring: seq<nat>
    ghost var writes: seq<Write<T>>
    ghost var logical: seq<T>
    ghost var dirty: map<nat, nat>

    ghost predicate RingOk()
      reads this`prev, this`next, this`ring
    {
      |ring| == NBUF + 1 && (forall b: nat :: b <= NBUF ==> b in ring) && Linked(ring, prev, next)
    }

    ghost predicate StateOk()
      reads this`buf, this`disk, this`logical, this`dirty
    {
      && |buf| == NBUF && |logical| == |disk|
      && (forall b :: 0 <= b < NBUF ==> Unclaimed(buf[b]) || InOrder(buf[b]))
      && (forall b, c :: 0 <= b < c < NBUF && buf[b].dev == ROOTDEV && buf[c].dev == ROOTDEV ==>
            buf[b].blockno != buf[c].blockno)
      && (forall bn :: bn in dirty ==> bn < |disk| && dirty[bn] < NBUF && IsDirty(buf[dirty[bn]], bn))
      && (forall bn :: 0 <= bn < |disk| && bn !in dirty ==> logical[bn] == disk[bn])
    }

    /** A buffer in use holds the newest contents of its block, or none yet. */
    ghost predicate InOrder(b: Buf<T>)
      reads this`logical
    {
      b.dev == ROOTDEV && b.blockno < |logical| && (b.valid ==> b.data == logical[b.blockno])
      && (b.locked ==> b.refcnt > 0)
    }

    ghost predicate Valid()
      reads this
    {
      RingOk() && StateOk()
    }

    ghost function Contents(): Stored<T>
      reads this`disk, this`writes, this`logical, this`dirty
    {
      Stored(disk, writes, logical, dirty)
    }

    /** The static array, linked in by binit one buffer at a time at the front. */
    constructor (image: seq<T>, zero: T)
      ensures Valid() && Contents() == Stored(image, [], image, map[])
      ensures forall b :: 0 <= b < NBUF ==> Unclaimed(buf[b])
    {
      buf := seq(NBUF, _ => Buf(false, 0, 0, false, 0, zero));
      disk, logical, writes, dirty := image, image, [], map[];
      prev, next := seq(NBUF + 1, _ => HEAD), seq(NBUF + 1, _ => HEAD);
      ring := [HEAD];
      new;
      LinkAll();
    }

    method LinkAll()
      requires ring == [HEAD] && Linked(ring, prev, next)
      modifies this`prev, this`next, this`ring
      ensures RingOk()
    {
      var b := 0;
      while b < NBUF
        invariant 0 <= b <= NBUF && |ring| == b + 1 && Linked(ring, prev, next)
        invariant forall i :: 0 < i <= b ==> ring[i] == b - i
      {
        InsertFront(b);
        b := b + 1;
      }
      forall c: nat | c <= NBUF
        ensures c in ring
      {
        assert ring[NBUF - c] == c;
      }
    }

    method InsertFront(b: nat)
      requires Linked(ring, prev, next) && b < NBUF && b !in ring && |ring| <= NBUF
      modifies this`prev, this`next, this`ring
      ensures Linked(ring, prev, next) && ring == Inserted(old(ring), b)
    {
      hide Linked, Inserted;
      InsertedLinked(ring, prev, next, b);
      LinksSize();
      next := next[b := next[HEAD]];
      prev := prev[b := HEAD];
      prev := prev[next[HEAD] := b];
      next := next[HEAD := b];
      ring := Inserted(ring, b);
    }

    lemma LinksSize()
      requires Linked(ring, prev, next)
      ensures |prev| == |next| == NBUF + 1 && |ring| > 0
    {
    }

    method Unlink(b: nat, ghost k: nat)
      requires Linked(ring, prev, next) && 0 < k < |ring| && b == ring[k]
      modifies this`prev, this`next, this`ring
      ensures Linked(ring, prev, next) && b !in ring && ring == Removed(old(ring), k)
    {
      hide Linked, Removed;
      RemovedLinked(ring, prev, next, k);
      prev := prev[next[b] := prev[b]];
      next := next[prev[b] := next[b]];
      ring := Removed(ring, k);
    }

    /** Move a buffer to the front of the list. */
    method ToFront(b: nat)
      requires RingOk() && b < NBUF
      modifies this`prev, this`next, this`ring
      ensures RingOk()
      ensures exists k :: 0 < k < |old(ring)| && old(ring)[k] == b && ring == Inserted(Removed(old(ring), k), b)
    {
      assert b in ring;
      ghost var k :| 0 < k < |ring| && ring[k] == b;
      Unlink(b, k);
      InsertFront(b);
      forall c: nat | c <= NBUF
        ensures c in ring
      {
        assert c in old(ring);
        var i :| 0 <= i < |old(ring)| && old(ring)[i] == c;
        assert ring[if i == k then 1 else if i == 0 then 0 else if i < k then i + 1 else i] == c;
      }
    }

    // ----- bget

    /** The critical section of bget: find the block's buffer, or recycle the least
        recently used free one; NBUF stands for panic("bget: no buffers"). */
    method Bget(blockno: nat) returns (b: nat)
      requires Valid() && blockno < |disk|
      modifies this`buf
      ensures StateOk() && b <= NBUF
      ensures b == NBUF <==> !Cached(old(buf), blockno) && !HasFree(old(buf))
      ensures b == NBUF ==> buf == old(buf)
      ensures b < NBUF ==> buf == old(buf)[b := Got(old(buf)[b], blockno)]
      ensures b < NBUF && !Caches(old(buf)[b], blockno) ==> !Cached(old(buf), blockno) && LastFree(old(buf), b)
    {
      b := Lookup(blockno);
      if b < NBUF {
        buf := buf[b := buf[b].(refcnt := buf[b].refcnt + 1)];
      } else {
        b := LeastRecentlyUsed();
        if b < NBUF {
          buf := buf[b := buf[b].(dev := ROOTDEV, blockno := blockno, valid := false, refcnt := 1)];
        }
      }
    }

    /** b is free, and no buffer that was used less recently is. */
    ghost predicate LastFree(buf: seq<Buf<T>>, b: nat)
      requires |buf| == NBUF && b < NBUF
      reads this`ring
    {
      buf[b].refcnt == 0 && forall k, j :: 0 < k < j < |ring| && ring[k] == b && ring[j] < NBUF ==>
        buf[ring[j]].refcnt > 0
    }

    /** The forward scan for a cached block. */
    method Lookup(blockno: nat) returns (b: nat)
      requires RingOk() && |buf| == NBUF
      ensures b <= NBUF && (b == NBUF <==> !Cached(buf, blockno))
      ensures b < NBUF ==> Caches(buf[b], blockno)
    {
      b := next[HEAD];
      ghost var i := 1;
      while b != HEAD
        invariant 1 <= i <= NBUF + 1
        invariant b == if i <= NBUF then ring[i] else HEAD
        invariant forall j :: 1 <= j < i ==> ring[j] < NBUF && !Caches(buf[ring[j]], blockno)
        decreases NBUF + 1 - i
      {
        if buf[b].dev == ROOTDEV && buf[b].blockno == blockno {
          return;
        }
        assert b == ring[i];
        b, i := next[b], i + 1;
      }
      forall c: nat | c < NBUF
        ensures !Caches(buf[c], blockno)
      {
        assert c in ring;
      }
      return NBUF;
    }

    /** The backward scan for an unused buffer. */
    method LeastRecentlyUsed() returns (b: nat)
      requires RingOk() && |buf| == NBUF
      ensures b <= NBUF && (b == NBUF <==> !HasFree(buf))
      ensures b < NBUF ==> LastFree(buf, b)
    {
      b := prev[HEAD];
      ghost var i := NBUF;
      while b != HEAD
        invariant 0 <= i <= NBUF
        invariant b == ring[i]
        invariant forall j :: i < j <= NBUF ==> ring[j] < NBUF && buf[ring[j]].refcnt > 0
        decreases i
      {
        if buf[b].refcnt == 0 {
          return;
        }
        assert b == ring[i];
        b, i := prev[b], i - 1;
      }
      forall c: nat | c < NBUF
        ensures buf[c].refcnt > 0
      {
        assert c in ring;
      }
      return NBUF;
    }

    // ----- steps of a thread with a reference to the buffer, or with its sleep lock

    /** The end of acquiresleep: the lock is free and the thread takes it. */
    method AcquireSleep(b: nat)
      requires StateOk() && b < NBUF && buf[b].refcnt > 0 && !buf[b].locked
      modifies this`buf
      ensures StateOk() && buf == old(buf)[b := old(buf)[b].(locked := true)]
    {
      buf := buf[b := buf[b].(locked := true)];
    }

    /** The rest of bread, under the sleep lock: read the block unless it is valid.
        Either way the buffer then holds the newest contents. */
    method Fill(b: nat)
      requires StateOk() && b < NBUF && buf[b].locked
      modifies this`buf
      ensures StateOk() && buf[b].blockno < |logical|
      ensures buf == old(buf)[b := old(buf)[b].(valid := true, data := logical[buf[b].blockno])]
    {
      if !buf[b].valid {
        buf := buf[b := buf[b].(data := disk[buf[b].blockno], valid := true)];
      }
    }

    /** A holder of the buffer changes its contents. */
    method Modify(b: nat, data: T)
      requires StateOk() && b < NBUF && buf[b].locked && buf[b].valid
      modifies this`buf, this`logical, this`dirty
      ensures StateOk() && old(buf)[b].blockno < |logical|
      ensures buf == old(buf)[b := old(buf)[b].(data := data)]
      ensures logical == old(logical)[buf[b].blockno := data] && dirty == old(dirty)[buf[b].blockno := b]
    {
      buf := buf[b := buf[b].(data := data)];
      logical := logical[buf[b].blockno := data];
      dirty := dirty[buf[b].blockno := b];
    }

    method Bwrite(b: nat)
      requires StateOk() && b < NBUF && buf[b].locked && buf[b].valid
      modifies this`disk, this`writes, this`dirty
      ensures StateOk() && dirty == old(dirty) - {buf[b].blockno} && buf[b].blockno < |disk| == |old(disk)|
      ensures disk == old(disk)[buf[b].blockno := buf[b].data]
      ensures writes == old(writes) + [Write(buf[b].blockno, buf[b].data)]
    {
      disk := disk[buf[b].blockno := buf[b].data];
      writes := writes + [Write(buf[b].blockno, buf[b].data)];
      dirty := dirty - {buf[b].blockno};
    }

    /** The first half of brelse: releasesleep. */
    method ReleaseSleep(b: nat)
      requires StateOk() && b < NBUF && buf[b].locked
      modifies this`buf
      ensures StateOk() && buf == old(buf)[b := old(buf)[b].(locked := false)]
    {
      buf := buf[b := buf[b].(locked := false)];
    }

    /** The second half of brelse: drop the reference, and when it was the last one
        make the buffer the most recently used. */
    method Unref(b: nat)
      requires Valid() && b < NBUF && buf[b].refcnt > 0
      requires buf[b].refcnt == 1 ==> !buf[b].locked && buf[b].blockno !in dirty
      modifies this`buf, this`prev, this`next, this`ring
      ensures RingOk() && StateOk() && buf == old(buf)[b := old(buf)[b].(refcnt := old(buf)[b].refcnt - 1)]
      ensures buf[b].refcnt > 0 ==> ring == old(ring)
      ensures buf[b].refcnt == 0 ==>
                exists k :: 0 < k < |old(ring)| && old(ring)[k] == b && ring == Inserted(Removed(old(ring), k), b)
    {
      Bunpin(b);
      if buf[b].refcnt == 0 {
        ToFront(b);
      }
    }

    method Bpin(b: nat)
      requires StateOk() && b < NBUF && buf[b].refcnt > 0
      modifies this`buf
      ensures StateOk() && buf == old(buf)[b := old(buf)[b].(refcnt := old(buf)[b].refcnt + 1)]
    {
      buf := buf[b := buf[b].(refcnt := buf[b].refcnt + 1)];
    }

    method Bunpin(b: nat)
      requires StateOk() && b < NBUF && buf[b].refcnt > 0
      requires buf[b].refcnt == 1 ==> !buf[b].locked && buf[b].blockno !in dirty
      modifies this`buf
      ensures StateOk() && buf == old(buf)[b := old(buf)[b].(refcnt := old(buf)[b].refcnt - 1)]
    {
      buf := buf[b := buf[b].(refcnt := buf[b].refcnt - 1)];
    }

    /** No block is cached twice. */
    lemma CachedOnce(b: nat, c: nat, bn: nat)
      requires StateOk() && b < NBUF && c < NBUF && Caches(buf[b], bn) && Caches(buf[c], bn)
      ensures b == c
    {
    }
  }
}
