/** The redo log as a protocol over disk images: the writes that a commit and a
    recovery issue, in order, and what a crash between any two of them leaves. */
module RedoLog {
  import opened Blocks
  import opened DiskWrites

  type Disk = seq<Block>

  // ----- the header block

  /** The block numbers that a header block records (read_head). */
  function Header(b: Block): (h: seq<Word>)
    requires GetWord(b, 0) <= LOGBLOCKS
    ensures |h| == GetWord(b, 0)
    ensures forall i :: 0 <= i < |h| ==> h[i] == GetWord(b, i + 1)
  {
    seq(GetWord(b, 0), i requires 0 <= i < GetWord(b, 0) => GetWord(b, i + 1))
  }

  /** The header block after write_head stored the count and then the numbers;
      words past the count keep their old values. */
  function PutHeader(b: Block, h: seq<Word>): (r: Block)
    requires |h| <= LOGBLOCKS
    ensures GetWord(r, 0) == |h|
    ensures forall i :: 0 <= i < |h| ==> GetWord(r, i + 1) == h[i]
  {
    PutEntries(PutWord(b, 0, |h|), h)
  }

  function PutEntries(b: Block, h: seq<Word>): (r: Block)
    requires |h| <= LOGBLOCKS
    ensures GetWord(r, 0) == GetWord(b, 0)
    ensures forall i :: 0 <= i < |h| ==> GetWord(r, i + 1) == h[i]
  {
    if h == [] then b
    else
      var k := |h| - 1;
      PutWord(PutEntries(b, h[..k]), k + 1, h[k])
  }

  lemma HeaderRoundTrip(b: Block, h: seq<Word>)
    requires |h| <= LOGBLOCKS
    ensures Header(PutHeader(b, h)) == h
  {
  }

  // ----- well-formed logs and what they stand for

  /** A disk whose log area lies inside it and whose header is readable. */
  predicate WellFormed(d: Disk, start: nat) {
    && start + LOGBLOCKS < |d|
    && GetWord(d[start], 0) <= LOGBLOCKS
    && Loggable(|d|, start, Header(d[start]))
  }

  predicate NoTransaction(d: Disk, start: nat) {
    WellFormed(d, start) && Header(d[start]) == []
  }

  /** The blocks that the log area holds for the header's entries. */
  function Logged(d: Disk, start: nat): (contents: seq<Block>)
    requires WellFormed(d, start)
    ensures |contents| == |Header(d[start])|
  {
    d[start + 1..start + 1 + |Header(d[start])|]
  }

  /** The file system that a disk image stands for: its home blocks, overridden
      by the logged ones. */
  function View(d: Disk, start: nat): map<nat, Block>
    requires WellFormed(d, start)
  {
    Updated(Homes(d, start), Header(d[start]), Logged(d, start))
  }

  lemma IdleView(d: Disk, start: nat)
    requires NoTransaction(d, start)
    ensures View(d, start) == Homes(d, start)
  {
  }

  // ----- the writes of recovery and of a commit

  /** install_trans and the write_head that erases the transaction. */
  function InstallAndClear(start: nat, head: Block, h: seq<nat>, contents: seq<Block>): (ws: seq<Write<Block>>)
    requires |h| == |contents|
    ensures |ws| == |h| + 1
  {
    Installs(h, contents) + [Write(start, PutHeader(head, []))]
  }

  /** recover_from_log: install every logged block, then clear the header. */
  function RecoveryWrites(d: Disk, start: nat): (ws: seq<Write<Block>>)
    requires WellFormed(d, start)
    ensures InRange(d, ws) && |ws| == |Header(d[start])| + 1
  {
    InstallAndClear(start, d[start], Header(d[start]), Logged(d, start))
  }

  /** write_log and the write_head that commits. */
  function CopyAndCommit(start: nat, head: Block, h: seq<Word>, contents: seq<Block>): (ws: seq<Write<Block>>)
    requires |h| == |contents| <= LOGBLOCKS
    ensures |ws| == |h| + 1
  {
    LogCopies(start, contents) + [Write(start, PutHeader(head, h))]
  }

  /** commit: copy to the log, write the header, install, clear the header. */
  function CommitWrites(d: Disk, start: nat, h: seq<Word>, contents: seq<Block>): (ws: seq<Write<Block>>)
    requires WellFormed(d, start) && Loggable(|d|, start, h) && |contents| == |h|
    ensures InRange(d, ws) && |ws| == 2 * |h| + 2
  {
    CopyAndCommit(start, d[start], h, contents) + InstallAndClear(start, PutHeader(d[start], h), h, contents)
  }

  // ----- recovery

  lemma SameLogArea(d: Disk, e: Disk, start: nat)
    requires WellFormed(d, start) && |e| == |d|
    requires forall bn :: start <= bn <= start + LOGBLOCKS ==> e[bn] == d[bn]
    ensures WellFormed(e, start) && Header(e[start]) == Header(d[start]) && Logged(e, start) == Logged(d, start)
  {
    var h := Header(d[start]);
    assert e[start] == d[start];
    forall i | 0 <= i < |h|
      ensures Logged(e, start)[i] == Logged(d, start)[i]
    {
    }
  }

  lemma InstallingKeepsView(d: Disk, start: nat, k: nat)
    requires WellFormed(d, start) && k <= |Header(d[start])|
    ensures InRange(d, Installs(Header(d[start]), Logged(d, start))[..k])
    ensures var e := Apply(d, Installs(Header(d[start]), Logged(d, start))[..k]);
            && WellFormed(e, start) && e[start] == d[start] && View(e, start) == View(d, start)
            && (k == |Header(d[start])| ==> Homes(e, start) == View(d, start))
  {
    var h, logged := Header(d[start]), Logged(d, start);
    InstallsEffect(d, start, h, logged, k);
    SameLogArea(d, Apply(d, Installs(h, logged)[..k]), start);
    UpdatedAbsorbs(Homes(d, start), |d|, start, h, logged, k);
    if k == |h| {
      assert h[..k] == h && logged[..k] == logged;
    }
  }

  lemma ClearingHeader(d: Disk, start: nat)
    requires WellFormed(d, start)
    ensures var e := d[start := PutHeader(d[start], [])];
            NoTransaction(e, start) && View(e, start) == Homes(d, start)
  {
    HomesWrite(d, start, start, PutHeader(d[start], []));
    IdleView(d[start := PutHeader(d[start], [])], start);
  }

  /** However far recovery got, the image still stands for the same file system;
      once it is done, no transaction is left and the home blocks hold it. */
  lemma RecoveryPrefix(d: Disk, start: nat, k: nat)
    requires WellFormed(d, start) && k <= |RecoveryWrites(d, start)|
    ensures InRange(d, RecoveryWrites(d, start)[..k])
    ensures var e := Apply(d, RecoveryWrites(d, start)[..k]);
            && WellFormed(e, start) && View(e, start) == View(d, start)
            && (k == |RecoveryWrites(d, start)| ==> NoTransaction(e, start))
  {
    var installs := Installs(Header(d[start]), Logged(d, start));
    var clear := Write(start, PutHeader(d[start], []));
    var n := |installs|;
    ApplyPrefix(d, installs, [clear], k);
    InstallingKeepsView(d, start, if k <= n then k else n);
    if k == n + 1 {
      assert installs[..n] == installs && [clear][..1] == [clear];
      ApplyOne(Apply(d, installs), clear);
      ClearingHeader(Apply(d, installs), start);
    }
  }

  /** The recovery that runs to its end. */
  lemma RecoveryWhole(d: Disk, start: nat)
    requires WellFormed(d, start)
    ensures |Logged(d, start)| == |Header(d[start])|
    ensures InRange(d, RecoveryWrites(d, start)) && NoTransaction(Apply(d, RecoveryWrites(d, start)), start)
    ensures RecoveryWrites(d, start) == InstallAndClear(start, d[start], Header(d[start]), Logged(d, start))
  {
    var ws := RecoveryWrites(d, start);
    RecoveryPrefix(d, start, |ws|);
    assert ws[..|ws|] == ws;
  }

  /** A machine that boots `|crashes|` times into recovery, dying in the i-th boot
      after crashes[i] writes (or after the last one), and then boots undisturbed. */
  ghost function RecoverWithCrashes(d: Disk, start: nat, crashes: seq<nat>): (e: Disk)
    requires WellFormed(d, start)
    ensures |e| == |d| && NoTransaction(e, start) && View(e, start) == View(d, start)
    decreases |crashes|
  {
    var ws := RecoveryWrites(d, start);
    if crashes == [] then
      RecoveryPrefix(d, start, |ws|);
      assert ws[..|ws|] == ws;
      Apply(d, ws)
    else
      var k := if crashes[0] < |ws| then crashes[0] else |ws|;
      RecoveryPrefix(d, start, k);
      RecoverWithCrashes(Apply(d, ws[..k]), start, crashes[1..])
  }

  // ----- commit

  /** The commit point: up to and including the last log copy the image stands for
      the old file system, from the header write on for the new one. */
  lemma CommitPrefix(d: Disk, start: nat, h: seq<Word>, contents: seq<Block>, k: nat)
    requires NoTransaction(d, start) && Loggable(|d|, start, h) && |contents| == |h|
    requires k <= |CommitWrites(d, start, h, contents)|
    ensures InRange(d, CommitWrites(d, start, h, contents)[..k])
    ensures var e := Apply(d, CommitWrites(d, start, h, contents)[..k]);
            && WellFormed(e, start)
            && View(e, start) == (if k <= |h| then View(d, start) else Updated(View(d, start), h, contents))
            && (k == 2 * |h| + 2 ==> NoTransaction(e, start))
  {
    var first := CopyAndCommit(start, d[start], h, contents);
    var second := InstallAndClear(start, PutHeader(d[start], h), h, contents);
    ApplyPrefix(d, first, second, k);
    if k <= |h| {
      CopyingKeepsView(d, start, h, contents, k);
    } else {
      HeaderWriteCommits(d, start, h, contents);
      assert RecoveryWrites(Apply(d, first), start) == second;
      RecoveryPrefix(Apply(d, first), start, k - |first|);
    }
  }

  lemma CopyingKeepsView(d: Disk, start: nat, h: seq<Word>, contents: seq<Block>, k: nat)
    requires NoTransaction(d, start) && Loggable(|d|, start, h) && |contents| == |h| && k <= |h|
    ensures InRange(d, CopyAndCommit(start, d[start], h, contents)[..k])
    ensures var e := Apply(d, CopyAndCommit(start, d[start], h, contents)[..k]);
            && WellFormed(e, start) && View(e, start) == View(d, start)
  {
    assert CopyAndCommit(start, d[start], h, contents)[..k] == LogCopies(start, contents)[..k];
    LogCopiesEffect(d, start, contents, k);
    IdleView(d, start);
    IdleView(Apply(d, LogCopies(start, contents)[..k]), start);
  }

  /** What the log copies leave on the disk, and the header write after them. */
  lemma CopiesThenHeader(d: Disk, start: nat, h: seq<Word>, contents: seq<Block>)
    requires |contents| == |h| <= LOGBLOCKS && start + LOGBLOCKS < |d|
    ensures InRange(d, LogCopies(start, contents))
    ensures CopyAndCommit(start, d[start], h, contents) == LogCopies(start, contents)
              + [Write(start, PutHeader(d[start], h))]
    ensures var e := Apply(d, LogCopies(start, contents));
            && e[start] == d[start] && Homes(e, start) == Homes(d, start)
            && (forall i :: 0 <= i < |h| ==> e[start + 1 + i] == contents[i])
            && InRange(d, CopyAndCommit(start, d[start], h, contents))
            && Apply(d, CopyAndCommit(start, d[start], h, contents)) == e[start := PutHeader(d[start], h)]
  {
    var copies := LogCopies(start, contents);
    assert copies[..|copies|] == copies;
    LogCopiesEffect(d, start, contents, |contents|);
    ApplySnoc(d, copies, Write(start, PutHeader(d[start], h)));
  }

  /** What installing leaves of the log area, and the header write after it. */
  lemma InstallsThenClear(d: Disk, start: nat, h: seq<Word>, contents: seq<Block>)
    requires |contents| == |h| && Loggable(|d|, start, h) && start + LOGBLOCKS < |d|
    ensures InRange(d, Installs(h, contents)) && InRange(d, InstallAndClear(start, d[start], h, contents))
    ensures var e := Apply(d, Installs(h, contents));
            && e[start] == d[start]
            && Apply(d, InstallAndClear(start, d[start], h, contents)) == e[start := PutHeader(d[start], [])]
  {
    var installs := Installs(h, contents);
    assert installs[..|installs|] == installs;
    InstallsEffect(d, start, h, contents, |h|);
    ApplySnoc(d, installs, Write(start, PutHeader(d[start], [])));
  }

  /** The two halves of a commit, and the disk after both. */
  lemma CommitWhole(d: Disk, start: nat, h: seq<Word>, contents: seq<Block>)
    requires NoTransaction(d, start) && Loggable(|d|, start, h) && |contents| == |h|
    ensures InRange(d, CopyAndCommit(start, d[start], h, contents))
    ensures var second := InstallAndClear(start, PutHeader(d[start], h), h, contents);
            var e := Apply(d, CopyAndCommit(start, d[start], h, contents));
            && CommitWrites(d, start, h, contents) == CopyAndCommit(start, d[start], h, contents) + second
            && InRange(e, second) && Apply(d, CommitWrites(d, start, h, contents)) == Apply(e, second)
            && NoTransaction(Apply(e, second), start)
  {
    var ws := CommitWrites(d, start, h, contents);
    CommitPrefix(d, start, h, contents, |ws|);
    assert ws[..|ws|] == ws;
    HeaderWriteCommits(d, start, h, contents);
    InstallsThenClear(Apply(d, CopyAndCommit(start, d[start], h, contents)), start, h, contents);
    ApplyConcat(d, CopyAndCommit(start, d[start], h, contents),
                InstallAndClear(start, PutHeader(d[start], h), h, contents));
  }

  lemma HeaderWriteCommits(d: Disk, start: nat, h: seq<Word>, contents: seq<Block>)
    requires NoTransaction(d, start) && Loggable(|d|, start, h) && |contents| == |h|
    ensures InRange(d, CopyAndCommit(start, d[start], h, contents))
    ensures var e := Apply(d, CopyAndCommit(start, d[start], h, contents));
            && WellFormed(e, start) && e[start] == PutHeader(d[start], h)
            && Header(e[start]) == h && Logged(e, start) == contents
            && View(e, start) == Updated(View(d, start), h, contents)
  {
    hide Apply, InRange, CopyAndCommit, LogCopies, PutHeader, View, Updated, Homes;
    CopiesThenHeader(d, start, h, contents);
    HeaderOverCopies(Apply(d, LogCopies(start, contents)), start, d[start], h, contents);
    IdleView(d, start);
  }

  lemma HeaderOverCopies(copied: Disk, start: nat, head: Block, h: seq<Word>, contents: seq<Block>)
    requires start + LOGBLOCKS < |copied| && Loggable(|copied|, start, h) && |contents| == |h|
    requires forall i :: 0 <= i < |h| ==> copied[start + 1 + i] == contents[i]
    ensures var e := copied[start := PutHeader(head, h)];
            && WellFormed(e, start) && Header(e[start]) == h && Logged(e, start) == contents
            && View(e, start) == Updated(Homes(copied, start), h, contents)
  {
    var e := copied[start := PutHeader(head, h)];
    HeaderRoundTrip(head, h);
    HomesWrite(copied, start, start, PutHeader(head, h));
    assert Logged(e, start) == contents;
  }

  /** Crash atomicity: crash after any write of commit, let recovery crash any number
      of times anywhere; once the machine is up the home blocks hold the whole old
      or the whole new state, and which one depends only on the header write. */
  lemma CrashAtomicity(d: Disk, start: nat, h: seq<Word>, contents: seq<Block>, k: nat, crashes: seq<nat>)
    requires NoTransaction(d, start) && Loggable(|d|, start, h) && |contents| == |h|
    requires k <= |CommitWrites(d, start, h, contents)|
    ensures InRange(d, CommitWrites(d, start, h, contents)[..k])
    ensures WellFormed(Apply(d, CommitWrites(d, start, h, contents)[..k]), start)
    ensures var e := RecoverWithCrashes(Apply(d, CommitWrites(d, start, h, contents)[..k]), start, crashes);
            && NoTransaction(e, start)
            && (k <= |h| ==> Homes(e, start) == Homes(d, start))
            && (k > |h| ==> Homes(e, start) == Updated(Homes(d, start), h, contents))
  {
    CommitPrefix(d, start, h, contents, k);
  }

  /** What the new state is, block by block. */
  lemma UpdatedHomes(d: Disk, start: nat, h: seq<Word>, contents: seq<Block>)
    requires WellFormed(d, start) && Loggable(|d|, start, h) && |contents| == |h|
    ensures Updated(Homes(d, start), h, contents).Keys == Homes(d, start).Keys
    ensures forall i :: 0 <= i < |h| ==>
              h[i] in Homes(d, start) && Updated(Homes(d, start), h, contents)[h[i]] == contents[i]
    ensures forall bn :: bn in Homes(d, start) && bn !in h ==> Updated(Homes(d, start), h, contents)[bn] == d[bn]
  {
    forall bn: nat
      ensures bn in Updated(Homes(d, start), h, contents) <==> bn in Homes(d, start)
      ensures forall i :: 0 <= i < |h| && h[i] == bn ==> Updated(Homes(d, start), h, contents)[bn] == contents[i]
      ensures bn in Homes(d, start) && bn !in h ==> Updated(Homes(d, start), h, contents)[bn] == d[bn]
    {
      UpdatedAt(Homes(d, start), |d|, start, h, contents, bn);
    }
  }

  /** The same, block by block: every home block has its old contents, unless the header was
      written; then the blocks of the transaction have their new contents. */
  lemma CrashBlocks(d: Disk, start: nat, h: seq<Word>, contents: seq<Block>, k: nat, crashes: seq<nat>, e: Disk)
    requires NoTransaction(d, start) && Loggable(|d|, start, h) && |contents| == |h|
    requires k <= |CommitWrites(d, start, h, contents)| && InRange(d, CommitWrites(d, start, h, contents)[..k])
    requires WellFormed(Apply(d, CommitWrites(d, start, h, contents)[..k]), start)
    requires e == RecoverWithCrashes(Apply(d, CommitWrites(d, start, h, contents)[..k]), start, crashes)
    ensures |e| == |d|
    ensures k > |h| ==> forall i :: 0 <= i < |h| ==> h[i] < |e| && e[h[i]] == contents[i]
    ensures forall bn: nat :: bn < |d| && Home(start, bn) && (k <= |h| || bn !in h) ==> e[bn] == d[bn]
  {
    hide CommitWrites, Apply, Updated, RecoverWithCrashes;
    CrashAtomicity(d, start, h, contents, k, crashes);
    UpdatedHomes(d, start, h, contents);
    var homes := Homes(e, start);
    forall bn: nat | bn < |d| && Home(start, bn)
      ensures bn in homes && homes[bn] == e[bn] && bn in Homes(d, start)
    {
    }
  }

  // ----- whole runs

  /** One transaction of a run: its blocks and contents, how many of its disk writes
      happened before the machine died (all of them when it did not), and the
      crashes of the recoveries that followed. */
  datatype Transaction = Transaction(h: seq<Word>, contents: seq<Block>, writes: nat, crashes: seq<nat>)

  predicate Sound(t: Transaction, size: nat, start: nat) {
    Loggable(size, start, t.h) && |t.contents| == |t.h|
  }

  ghost function Step(d: Disk, start: nat, t: Transaction): (e: Disk)
    requires NoTransaction(d, start) && Sound(t, |d|, start)
    ensures |e| == |d| && NoTransaction(e, start)
  {
    var ws := CommitWrites(d, start, t.h, t.contents);
    if t.writes < |ws| then
      CommitPrefix(d, start, t.h, t.contents, t.writes);
      RecoverWithCrashes(Apply(d, ws[..t.writes]), start, t.crashes)
    else
      CommitPrefix(d, start, t.h, t.contents, |ws|);
      assert ws[..|ws|] == ws;
      Apply(d, ws)
  }

  ghost function Run(d: Disk, start: nat, ts: seq<Transaction>): (e: Disk)
    requires NoTransaction(d, start) && forall i :: 0 <= i < |ts| ==> Sound(ts[i], |d|, start)
    ensures |e| == |d| && NoTransaction(e, start)
    decreases |ts|
  {
    if ts == [] then d else Run(Step(d, start, ts[0]), start, ts[1..])
  }

  /** The specification of a run: each transaction happens whole or not at all. */
  function Ideal(view: map<nat, Block>, ts: seq<Transaction>): map<nat, Block>
    requires forall i :: 0 <= i < |ts| ==> |ts[i].contents| == |ts[i].h|
    decreases |ts|
  {
    if ts == [] then view
    else
      var t := ts[0];
      Ideal(if t.writes > |t.h| then Updated(view, t.h, t.contents) else view, ts[1..])
  }

  lemma {:induction false} RunsAreAtomic(d: Disk, start: nat, ts: seq<Transaction>)
    requires NoTransaction(d, start) && forall i :: 0 <= i < |ts| ==> Sound(ts[i], |d|, start)
    ensures View(Run(d, start, ts), start) == Ideal(View(d, start), ts)
    decreases |ts|
  {
    if ts != [] {
      var t := ts[0];
      var ws := CommitWrites(d, start, t.h, t.contents);
      CommitPrefix(d, start, t.h, t.contents, if t.writes < |ws| then t.writes else |ws|);
      assert ws[..|ws|] == ws;
      RunsAreAtomic(Step(d, start, t), start, ts[1..]);
    }
  }
}
