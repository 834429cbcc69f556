/** Files across crashes: the operations of the inode layer over the redo log. A crash
    anywhere in the commit of an operation, followed by any number of crashed recoveries,
    leaves every file's bytes and every bit as before or as after the whole operation. */
module CrashFs {
  import opened Blocks
  import opened Bitmap
  import opened DiskWrites
  import opened RedoLog
  import opened Inodes
  import opened Ownership
  import opened Accounting
  import opened Fs
  import opened File
  import Log

  /** The log lies in front of the inode blocks, as mkfs places it. */
  predicate LogInFront(sb: Super, start: nat) {
    start + LOGBLOCKS < sb.inodestart
  }

  /** Outside the log the disk holds what the file system has. */
  ghost predicate Holds(d: Disk, start: nat, disk: seq<Block>) {
    |d| == |disk| && forall b: nat :: b < |d| && Home(start, b) ==> d[b] == disk[b]
  }

  /** The file system that a boot finds on a disk: the inodes are those in the inode
      blocks. (Owners are ghosts: whose block it is does not depend on the boot.) */
  ghost function Booted(sb: Super, d: Disk, owner: map<nat, Slot>): FsState {
    FsState(d, seq(sb.ninodes, j requires 0 <= j < sb.ninodes => DiskInode(sb, d, j)), owner)
  }

  /** A reader of u finds the inodes, the files and the free blocks of s. */
  ghost predicate SameFiles(sb: Super, u: FsState, s: FsState) {
    && Good(sb, u) && u.inodes == s.inodes && u.owner == s.owner
    && (forall j: nat :: j < |s.inodes| ==> FileOk(s, j) && FileOk(u, j) && FileBytes(u, j) == FileBytes(s, j))
    && (forall b: nat :: b < sb.size ==> (Bit(sb, u.disk, b) <==> Bit(sb, s.disk, b)))
  }

  // ----- what is in front of the inode blocks matters to no file

  lemma BootedSame(sb: Super, start: nat, d: Disk, s: FsState)
    requires LogInFront(sb, start) && Good(sb, s) && Synced(sb, s) && Holds(d, start, s.disk)
    ensures SameFiles(sb, Booted(sb, d, s.owner), s)
  {
    hide Val, Consistent, FileBytes, HoleFree, DiskInode, Bit;
    var u := Booted(sb, d, s.owner);
    GoodShape(sb, s);
    BootedInodes(sb, start, d, s);
    BehindSame(sb, start, s, u);
    forall j: nat | j < |s.inodes|
      ensures FileOk(s, j) && FileOk(u, j) && FileBytes(u, j) == FileBytes(s, j)
    {
      assert FileOk(s, j);
      SameFile(s, u, j);
    }
  }

  lemma GoodShape(sb: Super, s: FsState)
    requires Good(sb, s)
    ensures Shape(sb, s) && Consistent(sb, s, Nothing)
  {
  }

  lemma BootedInodes(sb: Super, start: nat, d: Disk, s: FsState)
    requires LogInFront(sb, start) && Shape(sb, s) && Synced(sb, s) && Holds(d, start, s.disk)
    ensures Booted(sb, d, s.owner).inodes == s.inodes
  {
    hide GetInode;
    var u := Booted(sb, d, s.owner);
    HeadBelow(sb, s);
    forall j: nat | j < sb.ninodes
      ensures u.inodes[j] == s.inodes[j]
    {
      assert IBlock(sb, j) < |d| && Home(start, IBlock(sb, j));
      assert DiskInode(sb, s.disk, j) == s.inodes[j];
    }
  }

  lemma BehindSame(sb: Super, start: nat, s: FsState, u: FsState)
    requires LogInFront(sb, start) && Consistent(sb, s, Nothing) && Holds(u.disk, start, s.disk)
    requires u.inodes == s.inodes && u.owner == s.owner
    ensures Consistent(sb, u, Nothing) && Keeps(s, u, -1)
    ensures forall b: nat :: b < sb.size ==> (Bit(sb, u.disk, b) <==> Bit(sb, s.disk, b))
  {
    BehindBits(sb, start, s, u);
    hide Bit, Bits;
    forall j | 0 <= j < |s.inodes| && s.inodes[j].addrs[NDIRECT] != 0
      ensures At(u.disk, s.inodes[j].addrs[NDIRECT]) == At(s.disk, s.inodes[j].addrs[NDIRECT])
    {
      TableBlocks(sb, s, Nothing, j);
      BehindLog(sb, s.inodes[j].addrs[NDIRECT]);
    }
    SlotsKept(s, u);
    hide Val;
    forall b: nat | sb.nmeta <= b < sb.size
      ensures At(u.disk, b) == At(s.disk, b)
    {
      BehindLog(sb, b);
    }
    assert Owned(sb, u, Nothing) && Pointers(u, Nothing);
  }

  lemma BehindBits(sb: Super, start: nat, s: FsState, u: FsState)
    requires LogInFront(sb, start) && Shape(sb, s) && Bits(sb, s) && Holds(u.disk, start, s.disk) && u.owner == s.owner
    ensures forall b: nat :: b < sb.size ==> (Bit(sb, u.disk, b) <==> Bit(sb, s.disk, b))
    ensures Bits(sb, u)
  {
    hide Marked;
    forall b: nat | b < sb.size
      ensures Bit(sb, u.disk, b) <==> Bit(sb, s.disk, b)
    {
      BehindLog(sb, b);
    }
  }

  // ----- one commit

  /** The list that a commit writes: the blocks of an operation, in any order. */
  ghost predicate Lists(h: seq<Word>, logged: set<nat>) {
    forall b: nat :: b in h <==> b in logged
  }

  function NewContents(h: seq<Word>, disk: seq<Block>): (contents: seq<Block>)
    ensures |contents| == |h|
  {
    seq(|h|, i requires 0 <= i < |h| => At(disk, h[i]))
  }

  /** A disk whose home blocks are the old or the new ones holds one of the two states. */
  lemma HomesHold(start: nat, d: Disk, e: Disk, disk: seq<Block>)
    requires |e| == |d| && Homes(e, start) == Homes(d, start) && Holds(d, start, disk)
    ensures Holds(e, start, disk)
  {
    var homes := Homes(e, start);
    forall b: nat | b < |e| && Home(start, b)
      ensures e[b] == disk[b]
    {
      assert b in homes && homes[b] == e[b];
    }
  }

  lemma UpdatedHold(sb: Super, start: nat, d: Disk, e: Disk, s: seq<Block>, t: seq<Block>, logged: set<nat>,
                    h: seq<Word>)
    requires WellFormed(d, start) && Loggable(|d|, start, h) && Lists(h, logged) && LogWritten(sb, s, {}, t, logged)
             && Holds(d, start, s)
    requires |e| == |d| && Homes(e, start) == Updated(Homes(d, start), h, NewContents(h, t))
    ensures Holds(e, start, t)
  {
    hide Updated;
    UpdatedHomes(d, start, h, NewContents(h, t));
    var homes := Homes(e, start);
    forall b: nat | b < |e| && Home(start, b)
      ensures e[b] == t[b]
    {
      assert b in homes && homes[b] == e[b] && b in Homes(d, start);
      if b in h {
        var i :| 0 <= i < |h| && h[i] == b;
        assert NewContents(h, t)[i] == t[b];
      } else {
        assert At(t, b) == At(s, b);
      }
    }
  }

  /** What was there before the commit of an operation from s to t. */
  ghost predicate Commits(sb: Super, start: nat, d: Disk, op: Op, h: seq<Word>) {
    && LogInFront(sb, start) && NoTransaction(d, start) && Loggable(|d|, start, h) && Lists(h, op.logged)
    && Holds(d, start, op.before.disk) && LogWritten(sb, op.before.disk, {}, op.after.disk, op.logged)
    && Good(sb, op.before) && Good(sb, op.after) && Synced(sb, op.before) && Synced(sb, op.after)
  }

  /** The state that a crash after k writes of the commit brings back: the header is the
      (|h|+1)-st of them. */
  function Survivor(op: Op, h: seq<Word>, k: nat): FsState {
    if k <= |h| then op.before else op.after
  }

  /** Crash atomicity of files: die after any k writes of the commit and in any number of
      recoveries; the boot that comes through finds all files and free blocks of the state
      before the operation, or all of the state after it. */
  lemma CrashedFiles(sb: Super, start: nat, d: Disk, op: Op, h: seq<Word>, k: nat, crashes: seq<nat>)
    requires Commits(sb, start, d, op, h) && k <= |CommitWrites(d, start, h, NewContents(h, op.after.disk))|
    ensures var ws := CommitWrites(d, start, h, NewContents(h, op.after.disk));
            InRange(d, ws[..k]) && WellFormed(Apply(d, ws[..k]), start) &&
            var e, w := RecoverWithCrashes(Apply(d, ws[..k]), start, crashes), Survivor(op, h, k);
            NoTransaction(e, start) && Holds(e, start, w.disk) && SameFiles(sb, Booted(sb, e, w.owner), w)
  {
    hide Good, Synced, LogWritten, SameFiles, Booted, WellFormed, Apply, CommitWrites, RecoverWithCrashes, Homes;
    hide Updated, Holds, Loggable;
    var contents := NewContents(h, op.after.disk);
    var ws := CommitWrites(d, start, h, contents);
    CrashAtomicity(d, start, h, contents, k, crashes);
    var e, w := RecoverWithCrashes(Apply(d, ws[..k]), start, crashes), Survivor(op, h, k);
    if k <= |h| {
      HomesHold(start, d, e, w.disk);
    } else {
      UpdatedHold(sb, start, d, e, op.before.disk, op.after.disk, op.logged, h);
    }
    BootedSame(sb, start, e, w);
  }

  /** The same of the code of log.c: wherever commit has come to when the machine dies. */
  lemma CrashedCommit(lg: Log.Logger, sb: Super, d: Disk, writes0: seq<Write<Block>>, op: Op, h: seq<Word>,
                      crashes: seq<nat>)
    requires Commits(sb, lg.start, d, op, h)
    requires lg.WroteSome(d, writes0, CommitWrites(d, lg.start, h, lg.Chosen(op.after.disk, h)))
    ensures WellFormed(lg.cache.disk, lg.start)
    ensures var e := RecoverWithCrashes(lg.cache.disk, lg.start, crashes);
            && NoTransaction(e, lg.start)
            && (BootsInto(sb, lg.start, e, op.before) || BootsInto(sb, lg.start, e, op.after))
  {
    hide Good, Synced, LogWritten, SameFiles, Booted, WellFormed, Apply, CommitWrites, RecoverWithCrashes, Homes;
    hide Updated, Holds;
    assert lg.Chosen(op.after.disk, h) == NewContents(h, op.after.disk) by {
      SizesHold(lg.start, d, op.before.disk);
      LoggedSizes(sb, op);
    }
    lg.CrashedAnywhere(d, writes0, h, NewContents(h, op.after.disk), crashes);
    var e := RecoverWithCrashes(lg.cache.disk, lg.start, crashes);
    SizesHold(lg.start, d, op.before.disk);
    if Homes(e, lg.start) == Homes(d, lg.start) {
      HomesHold(lg.start, d, e, op.before.disk);
      BootedSame(sb, lg.start, e, op.before);
    } else {
      UpdatedHold(sb, lg.start, d, e, op.before.disk, op.after.disk, op.logged, h);
      BootedSame(sb, lg.start, e, op.after);
    }
  }

  // ----- runs of operations

  ghost predicate BootsInto(sb: Super, start: nat, e: Disk, w: FsState) {
    Holds(e, start, w.disk) && SameFiles(sb, Booted(sb, e, w.owner), w)
  }

  /** The transaction that commits an operation. */
  ghost predicate Carries(t: Transaction, op: Op, size: nat, start: nat) {
    Loggable(size, start, t.h) && Lists(t.h, op.logged) && t.contents == NewContents(t.h, op.after.disk)
  }

  /** One transaction of a run, complete or cut short by a crash. */
  lemma StepBoots(sb: Super, start: nat, d: Disk, op: Op, t: Transaction)
    requires Commits(sb, start, d, op, t.h) && Carries(t, op, |d|, start)
    ensures Sound(t, |d|, start) && BootsInto(sb, start, Step(d, start, t), Survivor(op, t.h, t.writes))
  {
    hide Good, Synced, LogWritten, SameFiles, Booted, WellFormed, Apply, CommitWrites, RecoverWithCrashes, Homes;
    hide Updated, Holds, Loggable, View;
    var ws := CommitWrites(d, start, t.h, t.contents);
    if t.writes < |ws| {
      CrashedFiles(sb, start, d, op, t.h, t.writes, t.crashes);
    } else {
      CommitPrefix(d, start, t.h, t.contents, |ws|);
      assert ws[..|ws|] == ws;
      var e := Apply(d, ws);
      IdleView(d, start);
      IdleView(e, start);
      UpdatedHold(sb, start, d, e, op.before.disk, op.after.disk, op.logged, t.h);
      BootedSame(sb, start, e, op.after);
    }
  }

  /** Operations one after the other, the first of them on what the disk holds. */
  ghost predicate Series(sb: Super, start: nat, d: Disk, ops: seq<Op>) {
    && LogInFront(sb, start) && NoTransaction(d, start) && (ops != [] ==> Holds(d, start, ops[0].before.disk))
    && (forall k :: 0 < k < |ops| ==> ops[k].before == ops[k - 1].after)
    && forall k :: 0 <= k < |ops| ==> Proper(sb, ops[k])
  }

  ghost predicate Proper(sb: Super, op: Op) {
    && LogWritten(sb, op.before.disk, {}, op.after.disk, op.logged)
    && Good(sb, op.before) && Good(sb, op.after) && Synced(sb, op.before) && Synced(sb, op.after)
  }

  /** The transactions of a run commit the first operations; the machine may die in the last
      of them, and in the recoveries after that. */
  ghost predicate RunsThrough(ops: seq<Op>, ts: seq<Transaction>, size: nat, start: nat) {
    && |ts| <= |ops|
    && (forall m :: 0 <= m < |ts| ==> Carries(ts[m], ops[m], size, start))
    && forall m :: 0 <= m < |ts| - 1 ==> ts[m].writes >= 2 * |ts[m].h| + 2
  }

  /** What such a run leaves is a state between two operations. */
  lemma {:induction false} SeriesBoots(sb: Super, start: nat, d: Disk, ops: seq<Op>, ts: seq<Transaction>)
    requires Series(sb, start, d, ops) && ts != [] && RunsThrough(ops, ts, |d|, start)
    ensures forall m :: 0 <= m < |ts| ==> Sound(ts[m], |d|, start)
    ensures var n := |ts| - 1; BootsInto(sb, start, Run(d, start, ts), Survivor(ops[n], ts[n].h, ts[n].writes))
    decreases |ts|
  {
    hide Proper, BootsInto, Loggable, Step, NoTransaction, Lists, NewContents;
    var t := ts[0];
    FirstCommits(sb, start, d, ops, t);
    StepBoots(sb, start, d, ops[0], t);
    var e := Step(d, start, t);
    if |ts| == 1 {
      assert ts[1..] == [] && Run(e, start, []) == e;
    } else {
      BootsHolds(sb, start, e, ops[0].after);
      assert ops[1..][0] == ops[1];
      SeriesBoots(sb, start, e, ops[1..], ts[1..]);
    }
  }

  lemma FirstCommits(sb: Super, start: nat, d: Disk, ops: seq<Op>, t: Transaction)
    requires Series(sb, start, d, ops) && ops != [] && Carries(t, ops[0], |d|, start)
    ensures Commits(sb, start, d, ops[0], t.h)
  {
    hide Good, Synced, LogWritten, Holds, Loggable, NoTransaction;
    assert Proper(sb, ops[0]);
  }

  lemma BootsHolds(sb: Super, start: nat, e: Disk, w: FsState)
    requires BootsInto(sb, start, e, w)
    ensures Holds(e, start, w.disk)
  {
  }

  lemma SizesHold(start: nat, d: Disk, disk: seq<Block>)
    requires Holds(d, start, disk)
    ensures |d| == |disk|
  {
  }

  lemma LoggedSizes(sb: Super, op: Op)
    requires LogWritten(sb, op.before.disk, {}, op.after.disk, op.logged)
    ensures |op.after.disk| == |op.before.disk|
  {
  }

  // ----- filewrite and itrunc

  /** Die anywhere in a filewrite: the file is what it was with some first part of the data
      stored over it, and all other files are as they were. */
  lemma CrashInFilewrite(sb: Super, start: nat, d: Disk, s0: FsState, s: FsState, ip: nat, off: nat, data: seq<Byte>,
                         ops: seq<Op>,
                         ts: seq<Transaction>)
    requires Chunks(sb, s0, s, ip, off, data, ops) && Synced(sb, s0) && LogInFront(sb, start) && NoTransaction(d, start)
    requires Holds(d, start, s0.disk) && ts != [] && RunsThrough(ops, ts, |d|, start)
    ensures forall m :: 0 <= m < |ts| ==> Sound(ts[m], |d|, start)
    ensures var n := |ts| - 1;
            var u := Booted(sb, Run(d, start, ts), Survivor(ops[n], ts[n].h, ts[n].writes).owner);
            Good(sb, u) && exists i: nat :: Written(s0, u, ip, off, data, i)
  {
    hide Good, Synced, LogWritten, Holds, NoTransaction, Written, Run, Booted, SameFiles, Carries, Sound;
    ChunksProper(sb, s0, s, ip, off, data, ops);
    SeriesBoots(sb, start, d, ops, ts);
    var n := |ts| - 1;
    var w := Survivor(ops[n], ts[n].h, ts[n].writes);
    assert ChunkOp(sb, s0, ops[n], ip, off, data);
    var i :| Written(s0, w, ip, off, data, i);
    WrittenSame(sb, s0, w, Booted(sb, Run(d, start, ts), w.owner), ip, off, data, i);
  }

  lemma ChunksProper(sb: Super, s0: FsState, s: FsState, ip: nat, off: nat, data: seq<Byte>, ops: seq<Op>)
    requires Chunks(sb, s0, s, ip, off, data, ops) && Synced(sb, s0)
    ensures forall k :: 0 <= k < |ops| ==> Proper(sb, ops[k])
    ensures forall k :: 0 < k < |ops| ==> ops[k].before == ops[k - 1].after
    ensures ops != [] ==> ops[0].before == s0
  {
    hide Good, Synced, LogWritten, Written;
    forall k | 0 <= k < |ops|
      ensures Proper(sb, ops[k])
    {
      assert ChunkOp(sb, s0, ops[k], ip, off, data);
    }
  }

  lemma WrittenSame(sb: Super, s0: FsState, w: FsState, u: FsState, ip: nat, off: nat, data: seq<Byte>, i: nat)
    requires SameFiles(sb, u, w) && Written(s0, w, ip, off, data, i)
    ensures Written(s0, u, ip, off, data, i) && Good(sb, u)
  {
    hide FileBytes, Splice, Good, HoleFree;
    assert FileOk(w, ip) && FileOk(u, ip) && FileBytes(u, ip) == FileBytes(w, ip);
    assert OthersKept(s0, u, ip) by {
      forall j: nat | j < |u.inodes| && j != ip
        ensures OtherKept(s0, u, j)
      {
        assert OtherKept(s0, w, j);
      }
    }
  }

  /** Die anywhere in an itrunc: up to the header write the file is there with all its
      blocks, afterwards it is empty and exactly its blocks are free; all other files are as
      they were. */
  lemma CrashInItrunc(sb: Super, start: nat, d: Disk, op: Op, h: seq<Word>, k: nat, crashes: seq<nat>, i: nat)
    requires Commits(sb, start, d, op, h) && k <= |CommitWrites(d, start, h, NewContents(h, op.after.disk))|
    requires i < |op.before.inodes| && OthersKept(op.before, op.after, i) && FreedExactly(sb, op.before, op.after, i)
    requires op.after.inodes == op.before.inodes[i := op.before.inodes[i].(size := 0, addrs := Zeros(NDIRECT + 1))]
    ensures var ws := CommitWrites(d, start, h, NewContents(h, op.after.disk));
            InRange(d, ws[..k]) && WellFormed(Apply(d, ws[..k]), start) &&
            var u := Booted(sb, RecoverWithCrashes(Apply(d, ws[..k]), start, crashes), Survivor(op, h, k).owner);
            && Good(sb, u) && OthersKept(op.before, u, i)
            && (k <= |h| ==> u.inodes == op.before.inodes && FileOk(u, i) && FileBytes(u, i) == FileBytes(op.before, i))
            && (k > |h| ==> u.inodes == op.after.inodes && FreedExactly(sb, op.before, u, i))
  {
    hide Good, Synced, LogWritten, WellFormed, Apply, CommitWrites, RecoverWithCrashes, Holds, Loggable, Booted;
    hide FileBytes, Bit, FileOk;
    CrashedFiles(sb, start, d, op, h, k, crashes);
    var ws := CommitWrites(d, start, h, NewContents(h, op.after.disk));
    var e := RecoverWithCrashes(Apply(d, ws[..k]), start, crashes);
    var w := Survivor(op, h, k);
    var u := Booted(sb, e, w.owner);
    assert OthersKept(op.before, u, i) by {
      forall j: nat | j < |u.inodes| && j != i
        ensures OtherKept(op.before, u, j)
      {
        assert OtherKept(op.before, op.after, j);
      }
    }
  }
}
