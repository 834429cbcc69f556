/** filewrite on an inode: a write of any length as a series of transactions. */
module File {
  import opened Blocks
  import opened DiskWrites
  import opened Ownership
  import opened Accounting
  import opened Fs

  /** The largest chunk filewrite gives to writei. */
  const MAX_CHUNK: nat := (MAXOPBLOCKS - 1 - 1 - 2) / 2 * BSIZE

  /** A chunk of n bytes fits one operation's share of the log wherever it starts, exactly when
      n is at most what filewrite uses. */
  lemma ChunkFits(n: nat)
    ensures (forall off: nat :: ChunkBlocks(off, n) <= MAXOPBLOCKS) <==> n <= MAX_CHUNK
  {
    forall off: nat | n <= MAX_CHUNK
      ensures ChunkBlocks(off, n) <= MAXOPBLOCKS
    {
      assert Touched(off, n) <= (if AtBoundary(off) then 3 else 4);
    }
    if n > MAX_CHUNK {
      assert Touched(0, n) >= 4;
      assert ChunkBlocks(0, n) > MAXOPBLOCKS;
    }
  }

  /** What a write of at most a chunk logged. */
  lemma ChunkLogged(sb: Super, s: FsState, t: FsState, i: nat, off: nat, src: seq<Byte>, tot: int, after: set<nat>)
    requires Good(sb, s) && i < |s.inodes| && Wrote(sb, s, t, i, off, src, tot) && |src| <= MAX_CHUNK
    requires off + |src| <= MAXBYTES && Accounts(sb, s, t, i, off, tot, {IBlock(sb, i)}, after)
    ensures |after| <= MAXOPBLOCKS
  {
    hide FileBytes, Splice, WriteLog, Present, Val, ChunkBlocks, Touched;
    ChunkFits(tot);
    assert ChunkBlocks(off, tot) <= MAXOPBLOCKS;
    if tot > 0 {
      FirstBlock(sb, s, i, off);
    }
    WriteFits(sb, s, t, i, off, tot, IBlock(sb, i));
    assert after == WriteLog(sb, s, t, i, off / BSIZE, Touched(off, tot)) + {IBlock(sb, i)};
  }

  /** After i bytes of a filewrite from offset off on. */
  ghost predicate Written(s0: FsState, s: FsState, ip: nat, off: nat, data: seq<Byte>, i: nat) {
    && FileOk(s0, ip) && FileOk(s, ip) && OthersKept(s0, s, ip) && i <= |data|
    && if off <= s0.inodes[ip].size then FileBytes(s, ip) == Splice(FileBytes(s0, ip), off, data[..i])
       else i == 0 && FileBytes(s, ip) == FileBytes(s0, ip)
  }

  lemma StartWritten(sb: Super, s: FsState, ip: nat, off: nat, data: seq<Byte>)
    requires Good(sb, s) && ip < |s.inodes|
    ensures Written(s, s, ip, off, data, 0)
  {
    assert forall j: nat :: j < |s.inodes| ==> FileOk(s, j);
    assert data[..0] == [];
  }

  lemma WrittenMore(sb: Super, s0: FsState, s: FsState, t: FsState, ip: nat, off: nat, data: seq<Byte>, i: nat,
                    n1: nat, r: int)
    requires Written(s0, s, ip, off, data, i) && i + n1 <= |data| && Wrote(sb, s, t, ip, off + i, data[i..i + n1], r)
    ensures off <= s0.inodes[ip].size && Written(s0, t, ip, off, data, i + r)
  {
    hide FileBytes, Splice;
    FileLength(s0, ip);
    FileLength(s, ip);
    assert data[i..i + n1][..r] == data[i..i + r];
    if off <= s0.inodes[ip].size {
      SpliceTwice(FileBytes(s0, ip), off, data, i, r);
    }
    OthersOn(s0, s, t, ip);
  }

  lemma OthersOn(s: FsState, t: FsState, u: FsState, ip: nat)
    requires OthersKept(s, t, ip) && OthersKept(t, u, ip)
    ensures OthersKept(s, u, ip)
  {
    forall j: nat | j < |u.inodes| && j != ip
      ensures OtherKept(s, u, j)
    {
      assert OtherKept(s, t, j) && OtherKept(t, u, j);
    }
  }

  lemma FileLength(s: FsState, i: nat)
    requires FileOk(s, i)
    ensures |FileBytes(s, i)| == s.inodes[i].size
  {
  }

  class OpenFile {
    const fs: FileSystem
    const ip: nat
    var off: Word

    constructor (fs: FileSystem, ip: nat)
      ensures this.fs == fs && this.ip == ip && off == 0
    {
      this.fs, this.ip, off := fs, ip, 0;
    }

    /** The FD_INODE branch of filewrite: a series of operations, each within its share of
        the log. `done` bytes were stored before it stopped. */
    method Filewrite(n: int, data: seq<Byte>) returns (ret: int, ghost done: nat)
      requires Good(fs.sb, fs.State()) && ip < |fs.inodes| && n <= |data| < 0x8000_0000
      modifies this`off, fs`disk, fs`inodes, fs`owner, fs`logged, fs`ops
      ensures |old(fs.ops)| <= |fs.ops| && fs.ops[..|old(fs.ops)|] == old(fs.ops)
      ensures Chunks(fs.sb, old(fs.State()), fs.State(), ip, old(off), data, fs.ops[|old(fs.ops)|..])
      ensures done <= |data| && off == old(off) + done && ret == if done == n then n else -1
      ensures Good(fs.sb, fs.State()) && Written(old(fs.State()), fs.State(), ip, old(off), data, done)
      ensures done < n ==> old(off) > old(fs.inodes[ip].size) || old(off) + n > MAXBYTES || DiskFull(fs.sb, fs.disk)
    {
      hide Good, Written, Wrote, DiskFull, Accounts, DiskInode, LogWritten, Chunks, Synced;
      var i, r := 0, 0;
      done := 0;
      ghost var s0, ops0 := fs.State(), fs.ops;
      StartWritten(fs.sb, s0, ip, off, data);
      NoChunks(fs.sb, s0, ip, off, data, ops0);
      while i < n
        invariant 0 <= i && (i <= n || i == 0) && i == done && off == old(off) + i
        invariant |ops0| <= |fs.ops| && fs.ops[..|ops0|] == ops0
        invariant Chunks(fs.sb, s0, fs.State(), ip, old(off), data, fs.ops[|ops0|..])
        invariant Good(fs.sb, fs.State()) && ip < |fs.inodes| && Written(s0, fs.State(), ip, old(off), data, done)
      {
        var n1 := if n - i > MAX_CHUNK then MAX_CHUNK else n - i;
        ghost var s := fs.State();
        fs.BeginOp();
        WrittenSize(s0, s, ip, old(off), data, i);
        r := fs.Writei(ip, off, data[i..i + n1]);
        ChunkDone(fs.sb, s, fs.State(), ip, old(off) + i, data[i..i + n1], r, fs.logged);
        if r != -1 {
          WrittenMore(fs.sb, s0, s, fs.State(), ip, old(off), data, i, n1, r);
          WroteAll(fs.sb, s, fs.State(), ip, old(off) + i, data[i..i + n1], r);
          done := i + r;
        }
        fs.EndOp(s);
        ChunksMore(fs.sb, s0, s, fs.State(), ip, old(off), data, ops0, fs.ops, fs.logged, i, done);
        if r > 0 {
          off := off + r;
        }
        assert r != n1 ==>
                 done < n
                 && (old(off) > old(fs.inodes[ip].size) || old(off) + n > MAXBYTES || DiskFull(fs.sb, fs.disk));
        if r != n1 {
          break;
        }
        i := i + r;
      }
      ret := if i == n then n else -1;
    }
  }

  /** One operation of a filewrite: within its share of the log, everything that it changed
      was logged, and the file held some first part of the data before and after. */
  ghost predicate ChunkOp(sb: Super, s0: FsState, op: Op, ip: nat, off: nat, data: seq<Byte>) {
    && |op.logged| <= MAXOPBLOCKS && LogWritten(sb, op.before.disk, {}, op.after.disk, op.logged)
    && Good(sb, op.before) && Good(sb, op.after)
    && (Synced(sb, s0) ==> Synced(sb, op.before) && Synced(sb, op.after))
    && (exists i: nat :: Written(s0, op.before, ip, off, data, i))
    && exists i: nat :: Written(s0, op.after, ip, off, data, i)
  }

  /** The operations of a filewrite that led from s0 to s, one after the other. */
  ghost predicate Chunks(sb: Super, s0: FsState, s: FsState, ip: nat, off: nat, data: seq<Byte>, ops: seq<Op>) {
    && (Synced(sb, s0) ==> Synced(sb, s))
    && (forall k :: 0 <= k < |ops| ==> ChunkOp(sb, s0, ops[k], ip, off, data))
    && (forall k :: 0 < k < |ops| ==> ops[k].before == ops[k - 1].after) && (ops != [] ==> ops[0].before == s0)
    && s == if ops == [] then s0 else ops[|ops| - 1].after
  }

  lemma NoChunks(sb: Super, s: FsState, ip: nat, off: nat, data: seq<Byte>, ops: seq<Op>)
    ensures Chunks(sb, s, s, ip, off, data, ops[|ops|..])
  {
  }

  /** What writei says, in the terms of an operation. */
  lemma ChunkDone(sb: Super, s: FsState, t: FsState, ip: nat, off: nat, src: seq<Byte>, r: int, logged: set<nat>)
    requires Good(sb, s) && ip < |s.inodes| && |src| <= MAX_CHUNK
    requires r == -1 ==> t == s && logged == {}
    requires r != -1 ==>
               off + |src| <= MAXBYTES && Wrote(sb, s, t, ip, off, src, r)
               && Accounts(sb, s, t, ip, off, r, {} + {IBlock(sb, ip)}, logged)
    requires r != -1 ==> DiskInode(sb, t.disk, ip) == t.inodes[ip]
    requires r != -1 ==>
               forall j: nat :: j < |t.inodes| && j != ip ==> DiskInode(sb, t.disk, j) == DiskInode(sb, s.disk, j)
    ensures |logged| <= MAXOPBLOCKS && (Synced(sb, s) ==> Synced(sb, t))
  {
    hide DiskInode, Good, Accounts, Synced, FileBytes, Splice, OthersKept, DiskFull;
    if r != -1 {
      assert {} + {IBlock(sb, ip)} == {IBlock(sb, ip)};
      ChunkLogged(sb, s, t, ip, off, src, r, logged);
      if Synced(sb, s) {
        StillSynced(sb, s, t, ip);
      }
    }
  }

  lemma ChunksMore(sb: Super, s0: FsState, s: FsState, t: FsState, ip: nat, off: nat, data: seq<Byte>,
                   ops0: seq<Op>, ops: seq<Op>, logged: set<nat>, i: nat, j: nat)
    requires |ops0| < |ops| && Chunks(sb, s0, s, ip, off, data, ops[..|ops| - 1][|ops0|..])
    requires ops[|ops| - 1] == Op(s, t, logged) && |logged| <= MAXOPBLOCKS && LogWritten(sb, s.disk, {}, t.disk, logged)
    requires Good(sb, s) && Good(sb, t) && (Synced(sb, s) ==> Synced(sb, t))
    requires Written(s0, s, ip, off, data, i) && Written(s0, t, ip, off, data, j)
    ensures Chunks(sb, s0, t, ip, off, data, ops[|ops0|..])
  {
    hide Good, Synced, LogWritten, Written;
    var was, op := ops[..|ops| - 1][|ops0|..], Op(s, t, logged);
    assert ops[|ops0|..] == was + [op];
    assert ChunkOp(sb, s0, op, ip, off, data);
  }

  lemma WrittenSize(s0: FsState, s: FsState, ip: nat, off: nat, data: seq<Byte>, i: nat)
    requires Written(s0, s, ip, off, data, i)
    ensures off <= s0.inodes[ip].size ==> off + i <= s.inodes[ip].size <= MAXBYTES
    ensures off > s0.inodes[ip].size ==> i == 0
  {
    hide FileBytes, Splice;
    FileLength(s0, ip);
    FileLength(s, ip);
  }

  lemma WroteAll(sb: Super, s: FsState, t: FsState, ip: nat, off: nat, data: seq<Byte>, r: int)
    requires Wrote(sb, s, t, ip, off, data, r)
    ensures r < |data| ==> DiskFull(sb, t.disk)
    ensures 0 <= r <= |data| && off + r <= MAXBYTES
  {
    hide FileBytes, Splice;
    FileLength(t, ip);
    FileLength(s, ip);
  }
}
