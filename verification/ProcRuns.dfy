/** What proc.c gets done: from every state that its threads can come to there is a run of
    theirs that completes a fork, an exit, a wait, a wakeup or a kill, and frees any lock. */
module ProcRuns {
  import opened Proc

  // ----- runs

  ghost predicate Leads(y: System, t: System, init: nat) {
    exists actions :: Run(y, actions, init) == t
  }

  lemma LeadsSelf(y: System, init: nat)
    ensures Leads(y, y, init)
  {
    assert Run(y, [], init) == y;
  }

  lemma LeadsBy(y: System, a: Action, init: nat)
    ensures Leads(y, Step(y, a, init), init)
  {
    hide Step;
    var t := Step(y, a, init);
    assert Run(t, [], init) == t;
    assert [a][1..] == [];
    assert Run(y, [a], init) == t;
  }

  lemma {:induction false} RunConcat(y: System, xs: seq<Action>, ys: seq<Action>, init: nat)
    ensures Run(y, xs + ys, init) == Run(Run(y, xs, init), ys, init)
    decreases |xs|
  {
    hide Step;
    if xs == [] {
      assert xs + ys == ys;
    } else {
      assert (xs + ys)[0] == xs[0] && (xs + ys)[1..] == xs[1..] + ys;
      RunConcat(Step(y, xs[0], init), xs[1..], ys, init);
    }
  }

  lemma LeadsOn(y: System, t: System, u: System, init: nat)
    requires Leads(y, t, init) && Leads(t, u, init)
    ensures Leads(y, u, init)
  {
    hide Run;
    var xs :| Run(y, xs, init) == t;
    var ys :| Run(t, ys, init) == u;
    RunConcat(y, xs, ys, init);
  }

  lemma LeadsInv(y: System, t: System, init: nat)
    requires Inv(y, init) && Leads(y, t, init)
    ensures Inv(t, init) && |t.procs| == |y.procs|
  {
    hide Run, Inv;
    var xs :| Run(y, xs, init) == t;
    RunsKeepInv(y, xs, init);
    SameTable(y, xs, init);
  }

  /** One more step of a run. */
  lemma Then(y: System, t: System, a: Action, init: nat)
    requires Leads(y, t, init)
    ensures Leads(y, Step(t, a, init), init)
  {
    hide Step, Leads;
    LeadsBy(t, a, init);
    LeadsOn(y, t, Step(t, a, init), init);
  }

  // ----- everybody finishes with its own p->lock

  function Rested(p: Proc): Proc {
    match p.pc
    case Starting => p.(pc := Normal)
    case FallingAsleep(c) => p.(state := SLEEPING, chan := c, pc := Asleep(c))
    case Marked(c) => p.(pc := Asleep(c))
    case Awake(c) => p.(chan := NoChan, pc := Relocking(c))
    case Yielding(pc) => p.(pc := Yielded(pc))
    case Resumed(pc) => p.(pc := pc)
    case Exiting => p.(pc := Dead)
    case _ => p
  }

  function Put(y: System, k: nat, p: Proc): System
    requires k < |y.procs|
  {
    y.(procs := y.procs[k := p])
  }

  lemma Rests(y: System, k: nat, init: nat)
    requires k < |y.procs|
    ensures Leads(y, Put(y, k, Rested(y.procs[k])), init)
  {
    var p := y.procs[k];
    var t := Put(y, k, Rested(p));
    if p.pc.Starting? || p.pc.Awake? || p.pc.Resumed? {
      assert Step(y, Release(k), init) == t;
      LeadsBy(y, Release(k), init);
    } else if p.pc.FallingAsleep? {
      var m := Put(y, k, p.(state := SLEEPING, chan := p.pc.c, pc := Marked(p.pc.c)));
      assert Step(y, Mark(k), init) == m;
      assert Step(m, Switch(k), init) == t;
      LeadsBy(y, Mark(k), init);
      Then(y, m, Switch(k), init);
    } else if p.pc.Marked? || p.pc.Yielding? || p.pc.Exiting? {
      assert Step(y, Switch(k), init) == t;
      LeadsBy(y, Switch(k), init);
    } else {
      assert t == y;
      LeadsSelf(y, init);
    }
  }

  ghost predicate Quiet(y: System) {
    forall j :: 0 <= j < |y.procs| ==> !Locked(y.procs[j])
  }

  function RestedFrom(y: System, k: nat): System {
    y.(procs := seq(|y.procs|, j requires 0 <= j < |y.procs| => if j < k then y.procs[j] else Rested(y.procs[j])))
  }

  lemma {:induction false} RestAll(y: System, k: nat, init: nat)
    requires k <= |y.procs|
    ensures Leads(y, RestedFrom(y, k), init)
    decreases |y.procs| - k
  {
    hide Rested, Leads;
    if k == |y.procs| {
      assert RestedFrom(y, k).procs == y.procs;
      LeadsSelf(y, init);
    } else {
      var z := Put(y, k, Rested(y.procs[k]));
      Rests(y, k, init);
      RestAll(z, k + 1, init);
      assert RestedFrom(z, k + 1).procs == RestedFrom(y, k).procs;
      LeadsOn(y, z, RestedFrom(y, k), init);
    }
  }

  /** A state in which no p->lock is held, a few steps later. */
  lemma Settle(y: System, init: nat) returns (t: System)
    requires Inv(y, init)
    ensures Leads(y, t, init) && Inv(t, init) && Quiet(t) && |t.procs| == |y.procs| && t.locks == y.locks
    ensures forall j :: 0 <= j < |y.procs| ==> t.procs[j] == Rested(y.procs[j])
  {
    t := RestedFrom(y, 0);
    RestAll(y, 0, init);
    LeadsInv(y, t, init);
    assert States(y);
    hide Inv, Leads, States;
    forall j | 0 <= j < |t.procs|
      ensures !Locked(t.procs[j])
    {
      StateOf(y, j, init);
      RestedFree(j, y.procs[j]);
    }
  }

  lemma RestedFree(j: nat, p: Proc)
    requires StateOk(j, p)
    ensures !Locked(Rested(p))
  {
  }

  // ----- wakeup's loop

  predicate InWakeup(pc: Pc) {
    pc.Waking? || pc.ExitWakeInit? || pc.ExitWakeParent?
  }

  function AtVisit(pc: Pc, k: nat): Pc
    requires InWakeup(pc)
  {
    match pc
    case Waking(c, _) => Waking(c, k)
    case ExitWakeInit(m, _) => ExitWakeInit(m, k)
    case ExitWakeParent(_) => ExitWakeParent(k)
  }

  /** Everybody from number k on who sleeps on c is RUNNABLE, i's own thread excepted. */
  function WokenFrom(procs: seq<Proc>, i: nat, c: Chan, k: nat): seq<Proc> {
    seq(|procs|, j requires 0 <= j < |procs| =>
      if k <= j && j != i && procs[j].state == SLEEPING && procs[j].chan == c then procs[j].(state := RUNNABLE)
      else procs[j])
  }

  function Later(k: nat, n: nat): nat {
    if k < n then n else k
  }

  lemma VisitOne(y: System, i: nat, init: nat)
    requires i < |y.procs| && InWakeup(y.procs[i].pc) && WakeupAt(y.procs[i]) < |y.procs| && Quiet(y)
    ensures var k, p := WakeupAt(y.procs[i]), y.procs[i];
            var q := y.procs[k];
            var w := if k != i && q.state == SLEEPING && q.chan == WakeupChan(p, init) then q.(state := RUNNABLE)
                     else q;
            Step(y, Visit(i), init) == Put(Put(y, k, w), i, p.(pc := AtVisit(p.pc, k + 1)))
  {
    var k, p := WakeupAt(y.procs[i]), y.procs[i];
    assert !Locked(y.procs[k]);
    assert y.procs[k := y.procs[k]] == y.procs;
  }

  lemma {:induction false} WakeAll(y: System, i: nat, init: nat) returns (t: System)
    requires i < |y.procs| && InWakeup(y.procs[i].pc) && Quiet(y)
    ensures Leads(y, t, init) && t.locks == y.locks && |t.procs| == |y.procs| && Quiet(t)
    ensures t.procs[i] == y.procs[i].(pc := AtVisit(y.procs[i].pc, Later(WakeupAt(y.procs[i]), |y.procs|)))
    ensures forall j :: 0 <= j < |y.procs| && j != i ==>
              t.procs[j] == WokenFrom(y.procs, i, WakeupChan(y.procs[i], init), WakeupAt(y.procs[i]))[j]
    decreases |y.procs| - WakeupAt(y.procs[i])
  {
    hide Step, Leads;
    var k, p := WakeupAt(y.procs[i]), y.procs[i];
    if k >= |y.procs| {
      t := y;
      LeadsSelf(y, init);
    } else {
      VisitOne(y, i, init);
      var z := Step(y, Visit(i), init);
      LeadsBy(y, Visit(i), init);
      StillQuiet(y, z, i, k);
      t := WakeAll(z, i, init);
      LeadsOn(y, z, t, init);
    }
  }

  lemma StillQuiet(y: System, z: System, i: nat, k: nat)
    requires i < |y.procs| && k < |y.procs| && Quiet(y) && |z.procs| == |y.procs|
    requires forall j :: 0 <= j < |y.procs| && j != i ==> z.procs[j].pc == y.procs[j].pc
    requires !Locked(z.procs[i])
    ensures Quiet(z)
  {
    forall j | 0 <= j < |z.procs|
      ensures !Locked(z.procs[j])
    {
      assert !Locked(y.procs[j]);
    }
  }

  // ----- whoever holds a condition lock can give it back

  /** What others notice of h on its way: sleepers may be woken, and h's children may be
      given to init. */
  predicate Spared(p: Proc, q: Proc, h: nat, init: nat) {
    && q.pc == p.pc && q.chan == p.chan && (q.state == p.state || (p.state == SLEEPING && q.state == RUNNABLE))
    && (q.parent == p.parent || (p.parent == h && q.parent == init))
  }

  ghost predicate SparesAll(y: System, t: System, h: nat, init: nat) {
    |t.procs| == |y.procs| && forall j :: 0 <= j < |y.procs| && j != h ==> Spared(y.procs[j], t.procs[j], h, init)
  }

  lemma SparesOn(y: System, t: System, u: System, h: nat, init: nat)
    requires SparesAll(y, t, h, init) && SparesAll(t, u, h, init)
    ensures SparesAll(y, u, h, init)
  {
    forall j | 0 <= j < |y.procs| && j != h
      ensures Spared(y.procs[j], u.procs[j], h, init)
    {
      assert Spared(y.procs[j], t.procs[j], h, init) && Spared(t.procs[j], u.procs[j], h, init);
    }
  }

  /** h came to a halt outside all locks, or for good. */
  predicate Halted(p: Proc) {
    (p.pc.Normal? && p.state == RUNNING) || (p.pc.Dead? && p.state == ZOMBIE)
  }

  predicate SameParent(p: Proc, q: Proc, h: nat) {
    p.parent != h ==> q.parent == p.parent
  }

  ghost predicate Drained(y: System, t: System, h: nat, l: nat, init: nat) {
    && SparesAll(y, t, h, init) && Quiet(t) && t.locks == y.locks - {l} && h < |t.procs| && Halted(t.procs[h])
    && SameParent(y.procs[h], t.procs[h], h)
  }

  lemma DrainWaking(y: System, h: nat, init: nat) returns (t: System)
    requires h < |y.procs| && y.procs[h].pc.Waking? && y.procs[h].state == RUNNING && Quiet(y)
    ensures Leads(y, t, init) && Drained(y, t, h, LockOf(y.procs[h].pc.c), init) && t.procs[h].pc == Normal
    ensures forall j :: 0 <= j < |y.procs| && j != h ==>
              t.procs[j] == WokenFrom(y.procs, h, y.procs[h].pc.c, y.procs[h].pc.k)[j]
  {
    hide Leads;
    var c := y.procs[h].pc.c;
    var z := WakeAll(y, h, init);
    var u := Goto(z, h, Critical(LockOf(c)));
    assert Step(z, Visit(h), init) == u;
    Then(y, z, Visit(h), init);
    t := Goto(u, h, Normal).(locks := u.locks - {LockOf(c)});
    assert Step(u, Unlock(h), init) == t;
    Then(y, u, Unlock(h), init);
    StillQuiet(y, t, h, 0);
  }

  lemma DrainCritical(y: System, h: nat, init: nat) returns (t: System)
    requires h < |y.procs| && y.procs[h].pc.Critical? && y.procs[h].state == RUNNING && Quiet(y)
    ensures Leads(y, t, init) && Drained(y, t, h, y.procs[h].pc.l, init)
    ensures t.procs == y.procs[h := y.procs[h].(pc := Normal)]
  {
    t := Goto(y, h, Normal).(locks := y.locks - {y.procs[h].pc.l});
    assert Step(y, Unlock(h), init) == t;
    LeadsBy(y, Unlock(h), init);
    StillQuiet(y, t, h, 0);
  }

  /** kwait gives up at the first dead child whose status cannot be copied out, or at the
      end when it was killed. */
  lemma {:induction false} DrainScan(y: System, h: nat, init: nat) returns (t: System)
    requires h < |y.procs| && y.procs[h].pc.WaitScan? && y.procs[h].state == RUNNING && Quiet(y)
    ensures Leads(y, t, init) && Drained(y, t, h, WAIT_LOCK, init)
    ensures t.procs == y.procs[h := y.procs[h].(pc := Normal)]
    decreases if y.procs[h].pc.WaitScan? then |y.procs| - y.procs[h].pc.k else 0
  {
    hide Leads;
    var p := y.procs[h];
    var k := p.pc.k;
    var out := Goto(y, h, Normal).(locks := y.locks - {WAIT_LOCK});
    if k >= |y.procs| {
      t := out;
      assert Step(y, EndScan(h, true), init) == t;
      LeadsBy(y, EndScan(h, true), init);
      StillQuiet(y, t, h, 0);
    } else {
      assert !Locked(y.procs[k]);
      LeadsBy(y, Scan(h, false), init);
      if y.procs[k].parent == h && y.procs[k].state == ZOMBIE {
        t := out;
        assert Step(y, Scan(h, false), init) == t;
        StillQuiet(y, t, h, 0);
      } else {
        var z := Goto(y, h, WaitScan(k + 1, if y.procs[k].parent == h then true else p.pc.havekids));
        assert Step(y, Scan(h, false), init) == z;
        StillQuiet(y, z, h, 0);
        t := DrainScan(z, h, init);
        LeadsOn(y, z, t, init);
        assert t.procs == y.procs[h := p.(pc := Normal)];
      }
    }
  }

  // ----- an exit goes through

  lemma ExitEnds(y: System, h: nat, init: nat) returns (t: System)
    requires h < |y.procs| && y.procs[h].pc.ExitWakeParent? && Quiet(y)
    ensures Leads(y, t, init) && Drained(y, t, h, WAIT_LOCK, init) && t.procs[h].pc.Dead?
    ensures t.procs[h].parent == y.procs[h].parent
    ensures forall j :: 0 <= j < |y.procs| && j != h ==>
              t.procs[j] == WokenFrom(y.procs, h, WakeupChan(y.procs[h], init), y.procs[h].pc.j)[j]
  {
    hide Leads;
    var z := WakeAll(y, h, init);
    var u := Become(z, h, ZOMBIE, Exiting).(locks := z.locks - {WAIT_LOCK});
    assert Step(z, BecomeZombie(h), init) == u;
    Then(y, z, BecomeZombie(h), init);
    t := Goto(u, h, Dead);
    assert Step(u, Switch(h), init) == t;
    Then(y, u, Switch(h), init);
    StillQuiet(y, t, h, 0);
  }

  /** The children of h from number k on are init's, and init is awake if there were any. */
  ghost predicate GaveAway(y: System, t: System, h: nat, k: nat, init: nat) {
    && |t.procs| == |y.procs|
    && forall j :: 0 <= j < |y.procs| && j != h ==>
         t.procs[j].parent == if k <= j && y.procs[j].parent == h then init else y.procs[j].parent
  }

  /** reparent, from one of its turns on. */
  lemma {:induction false} Reparents(y: System, h: nat, init: nat) returns (t: System)
    requires h < |y.procs| && y.procs[h].pc.ExitReparent? && Quiet(y) && h != init
    ensures Leads(y, t, init) && SparesAll(y, t, h, init) && Quiet(t) && t.locks == y.locks && h < |t.procs|
    ensures t.procs[h].pc == ExitWakeParent(0) && GaveAway(y, t, h, y.procs[h].pc.k, init)
    ensures SameParent(y.procs[h], t.procs[h], h)
    decreases if y.procs[h].pc.ExitReparent? then |y.procs| - y.procs[h].pc.k else 0
  {
    hide Leads, Spared;
    var p := y.procs[h];
    var k := p.pc.k;
    LeadsBy(y, Reparent(h), init);
    if k >= |y.procs| {
      t := Goto(y, h, ExitWakeParent(0));
      assert Step(y, Reparent(h), init) == t;
      StillQuiet(y, t, h, 0);
      SparesChild(y, t, h, h, init);
    } else {
      var z;
      if y.procs[k].parent != h {
        z := Goto(y, h, ExitReparent(k + 1));
        assert Step(y, Reparent(h), init) == z;
        StillQuiet(y, z, h, 0);
        SparesChild(y, z, h, h, init);
      } else {
        z := GivesOne(y, h, init);
      }
      t := Reparents(z, h, init);
      LeadsOn(y, z, t, init);
      SparesOn(y, z, t, h, init);
    }
  }

  lemma SparesChild(y: System, t: System, h: nat, k: nat, init: nat)
    requires k < |y.procs| && h < |y.procs| && |t.procs| == |y.procs|
    requires forall j :: 0 <= j < |y.procs| && j != h && j != k ==> t.procs[j] == y.procs[j]
    requires k != h ==>
               t.procs[k] == y.procs[k] || (y.procs[k].parent == h && t.procs[k] == y.procs[k].(parent := init))
    ensures SparesAll(y, t, h, init)
  {
  }

  lemma InitWoken(y: System, h: nat, init: nat) returns (z: System)
    requires h < |y.procs| && y.procs[h].pc.ExitWakeInit? && Quiet(y)
    ensures Leads(y, z, init) && SparesAll(y, z, h, init) && Quiet(z) && z.locks == y.locks && h < |z.procs|
    ensures z.procs[h].pc == ExitReparent(y.procs[h].pc.k + 1)
    ensures forall j :: 0 <= j < |y.procs| ==> z.procs[j].parent == y.procs[j].parent
  {
    hide Leads;
    var v := WakeAll(y, h, init);
    z := Goto(v, h, ExitReparent(y.procs[h].pc.k + 1));
    assert Step(v, Visit(h), init) == z;
    Then(y, v, Visit(h), init);
    StillQuiet(y, z, h, 0);
  }

  /** One turn that finds a child. */
  lemma GivesOne(y: System, h: nat, init: nat) returns (z: System)
    requires h < |y.procs| && y.procs[h].pc.ExitReparent? && y.procs[h].pc.k < |y.procs| && Quiet(y)
             && y.procs[y.procs[h].pc.k].parent == h
    ensures Leads(y, z, init) && SparesAll(y, z, h, init) && Quiet(z) && z.locks == y.locks && h < |z.procs|
    ensures var k := y.procs[h].pc.k;
            z.procs[h].pc == ExitReparent(k + 1)
            && (y.procs[h].parent != h ==> z.procs[h].parent == y.procs[h].parent)
            && forall j :: 0 <= j < |y.procs| && j != h ==>
                 z.procs[j].parent == if j == k then init else y.procs[j].parent
  {
    hide Leads, Spared;
    var k := y.procs[h].pc.k;
    var u := Goto(Put(y, k, y.procs[k].(parent := init)), h, ExitWakeInit(k, 0));
    assert Step(y, Reparent(h), init) == u;
    LeadsBy(y, Reparent(h), init);
    StillQuiet(y, u, h, 0);
    SparesChild(y, u, h, k, init);
    z := InitWoken(u, h, init);
    LeadsOn(y, u, z, init);
    SparesOn(y, u, z, h, init);
  }

  lemma DrainExit(y: System, h: nat, init: nat) returns (t: System)
    requires h < |y.procs| && Leaving(y.procs[h]) && Quiet(y) && h != init
    ensures Leads(y, t, init) && Drained(y, t, h, WAIT_LOCK, init)
  {
    hide Leads, Spared;
    var z, u := y, y;
    LeadsSelf(y, init);
    SparesChild(y, y, h, h, init);
    if y.procs[h].pc.ExitWakeInit? {
      z := InitWoken(y, h, init);
    }
    if z.procs[h].pc.ExitReparent? {
      u := Reparents(z, h, init);
      LeadsOn(y, z, u, init);
      SparesOn(y, z, u, h, init);
    } else {
      u := z;
    }
    t := ExitEnds(u, h, init);
    LeadsOn(y, u, t, init);
    SparesOn(y, u, t, h, init);
  }

  // ----- any lock comes free

  predicate Kept(p: Proc, q: Proc, init: nat) {
    && q.pc == p.pc && q.chan == p.chan && (q.state == p.state || (p.state == SLEEPING && q.state == RUNNABLE))
    && (q.parent == p.parent || (p.parent >= 0 && q.parent == init))
  }

  /** The thread that holds a condition lock gives it back, or dies; nobody else has moved. */
  lemma FreesLock(y: System, l: nat, init: nat) returns (t: System, h: nat)
    requires Inv(y, init) && Quiet(y)
    ensures Leads(y, t, init) && Inv(t, init) && Quiet(t) && |t.procs| == |y.procs| && t.locks == y.locks - {l}
    ensures l in y.locks ==> h == y.locks[l] && h < |y.procs| && SparesAll(y, t, h, init)
                             && SameParent(y.procs[h], t.procs[h], h)
    ensures l !in y.locks ==> t == y
  {
    hide Leads, Spared;
    h := 0;
    if l !in y.locks {
      t := y;
      assert y.locks - {l} == y.locks;
      LeadsSelf(y, init);
    } else {
      h := Holder(y, l, init);
      var pc := y.procs[h].pc;
      hide Inv;
      if pc.Critical? {
        t := DrainCritical(y, h, init);
      } else if pc.Waking? {
        t := DrainWaking(y, h, init);
      } else if pc.WaitScan? {
        t := DrainScan(y, h, init);
      } else {
        t := DrainExit(y, h, init);
      }
    }
    LeadsInv(y, t, init);
  }

  lemma Holder(y: System, l: nat, init: nat) returns (h: nat)
    requires Inv(y, init) && l in y.locks
    ensures h == y.locks[l] < |y.procs|
    ensures var p := y.procs[h];
            || (p.pc == Critical(l) && p.state == RUNNING)
            || (p.pc.Waking? && LockOf(p.pc.c) == l && p.state == RUNNING)
            || (p.pc.WaitScan? && l == WAIT_LOCK && p.state == RUNNING)
            || (Leaving(p) && l == WAIT_LOCK && h != init)
  {
    hide Wakeups, ForksOk, Parents, Scans, Zombies;
    h := y.locks[l];
    assert Holds(y.procs[h], l);
    StateOf(y, h, init);
  }

  /** No lock is held for ever, wherever its holder is. */
  lemma LockComesFree(y: System, l: nat, init: nat) returns (t: System)
    requires Inv(y, init)
    ensures Leads(y, t, init) && l !in t.locks
  {
    hide Leads, Inv, Quiet;
    var z := Settle(y, init);
    var h;
    t, h := FreesLock(z, l, init);
    LeadsOn(y, z, t, init);
  }

  // ----- fork

  /** A thread that was interrupted goes on where it was. */
  lemma Resumes(y: System, i: nat, init: nat) returns (t: System)
    requires Inv(y, init) && Quiet(y) && i < |y.procs|
    ensures Leads(y, t, init) && Inv(t, init) && Quiet(t) && t.locks == y.locks && |t.procs| == |y.procs|
    ensures t.procs == y.procs[i := t.procs[i]] && t.procs[i].pc == Core(y.procs[i].pc)
    ensures t.procs[i].parent == y.procs[i].parent && t.procs[i].chan == y.procs[i].chan
    ensures !y.procs[i].pc.Yielded? ==> t == y
    ensures y.procs[i].pc.Yielded? ==> t.procs[i].state == RUNNING
  {
    var p := y.procs[i];
    StateOf(y, i, init);
    assert !Locked(p);
    if p.pc.Yielded? {
      var at := p.pc.at;
      var z := Become(y, i, RUNNING, Resumed(at));
      assert Step(y, Dispatch(i), init) == z;
      LeadsBy(y, Dispatch(i), init);
      t := Goto(z, i, at);
      assert Step(z, Release(i), init) == t;
      Then(y, z, Release(i), init);
      StillQuiet(y, t, i, 0);
    } else {
      t := y;
      LeadsSelf(y, init);
    }
    LeadsInv(y, t, init);
  }

  /** From the middle of kfork, interrupted or not: the child runs, as a child of the caller,
      and the caller is back. */
  lemma ForkGoesThrough(y: System, i: nat, np: nat, init: nat) returns (t: System)
    requires Inv(y, init) && i < |y.procs|
    requires Core(y.procs[i].pc) == ForkLink(np) || Core(y.procs[i].pc) == ForkRun(np)
    ensures Leads(y, t, init) && |t.procs| == |y.procs| && np < |y.procs| && np != i
    ensures t.procs[np].state == RUNNING && t.procs[np].pc == Normal && t.procs[np].parent == i
    ensures t.procs[i].state == RUNNING && t.procs[i].pc == Normal
  {
    hide Leads, Inv, Quiet;
    var z := Settle(y, init);
    var u := Resumes(z, i, init);
    LeadsOn(y, z, u, init);
    if u.procs[i].pc.ForkLink? {
      var v := FreeForLink(u, i, np, init);
      LeadsOn(y, u, v, init);
      t := Links(v, i, np, init);
      LeadsOn(y, v, t, init);
    } else {
      t := Launches(u, i, np, init);
      LeadsOn(y, u, t, init);
    }
  }

  lemma FreeForLink(y: System, i: nat, np: nat, init: nat) returns (t: System)
    requires Inv(y, init) && Quiet(y) && i < |y.procs| && y.procs[i].pc == ForkLink(np)
    ensures Leads(y, t, init) && Inv(t, init) && |t.procs| == |y.procs| && WAIT_LOCK !in t.locks
    ensures t.procs[i].pc == ForkLink(np)
  {
    hide Leads;
    var h;
    t, h := FreesLock(y, WAIT_LOCK, init);
    if WAIT_LOCK in y.locks {
      var g := Holder(y, WAIT_LOCK, init);
      hide Inv;
      assert i != h;
      assert Spared(y.procs[i], t.procs[i], h, init);
    }
  }

  lemma Links(y: System, i: nat, np: nat, init: nat) returns (t: System)
    requires Inv(y, init) && i < |y.procs| && y.procs[i].pc == ForkLink(np) && WAIT_LOCK !in y.locks
    ensures Leads(y, t, init) && |t.procs| == |y.procs| && np < |y.procs| && np != i
    ensures t.procs[np].state == RUNNING && t.procs[np].pc == Normal && t.procs[np].parent == i
    ensures t.procs[i].state == RUNNING && t.procs[i].pc == Normal
  {
    hide Leads, Inv;
    ForkSlot(y, i, np, init);
    var z := Goto(Put(y, np, y.procs[np].(parent := i)), i, ForkRun(np));
    assert Step(y, Link(i), init) == z;
    LeadsBy(y, Link(i), init);
    LeadsInv(y, z, init);
    t := Launches(z, i, np, init);
    LeadsOn(y, z, t, init);
  }

  lemma ForkSlot(y: System, i: nat, np: nat, init: nat)
    requires Inv(y, init) && i < |y.procs| && (y.procs[i].pc == ForkLink(np) || y.procs[i].pc == ForkRun(np))
    ensures np < |y.procs| && np != i && y.procs[np].pc == Unborn && y.procs[i].state == RUNNING
    ensures y.procs[i].pc == ForkRun(np) ==> y.procs[np].parent == i
  {
    assert Forks(y.procs[i], np) && ForkTarget(y, i, np);
    StateOf(y, i, init);
    StateOf(y, np, init);
  }

  lemma Launches(y: System, i: nat, np: nat, init: nat) returns (t: System)
    requires Inv(y, init) && i < |y.procs| && y.procs[i].pc == ForkRun(np)
    ensures Leads(y, t, init) && |t.procs| == |y.procs| && np < |y.procs| && np != i
    ensures t.procs[np].state == RUNNING && t.procs[np].pc == Normal && t.procs[np].parent == i
    ensures t.procs[i].state == RUNNING && t.procs[i].pc == Normal
  {
    hide Leads, Inv;
    ForkSlot(y, i, np, init);
    var z := Goto(Become(y, np, RUNNABLE, Fresh), i, Normal);
    assert Step(y, Launch(i), init) == z;
    LeadsBy(y, Launch(i), init);
    t := FirstRuns(z, np, init);
    LeadsOn(y, z, t, init);
  }

  /** The first dispatch of a process. */
  lemma FirstRuns(y: System, np: nat, init: nat) returns (t: System)
    requires np < |y.procs| && y.procs[np].pc == Fresh && y.procs[np].state == RUNNABLE
    ensures Leads(y, t, init) && t.procs == y.procs[np := y.procs[np].(state := RUNNING, pc := Normal)]
  {
    hide Leads;
    var u := Become(y, np, RUNNING, Starting);
    assert Step(y, Dispatch(np), init) == u;
    LeadsBy(y, Dispatch(np), init);
    t := Goto(u, np, Normal);
    assert Step(u, Release(np), init) == t;
    Then(y, u, Release(np), init);
  }

  /** kfork from its beginning: any process may fork into any free slot. */
  lemma ForkFromStart(y: System, i: nat, np: nat, init: nat) returns (t: System)
    requires Inv(y, init) && i < |y.procs| && np < |y.procs| && y.procs[i].pc == Normal
             && y.procs[np].state == UNUSED
    ensures Leads(y, t, init) && |t.procs| == |y.procs| && np != i
    ensures t.procs[np].state == RUNNING && t.procs[np].pc == Normal && t.procs[np].parent == i
    ensures t.procs[i].state == RUNNING && t.procs[i].pc == Normal
  {
    hide Leads, Inv;
    StateOf(y, i, init);
    var z := Goto(Put(y, np, y.procs[np].(state := USED)), i, ForkLink(np));
    assert Step(y, Alloc(i, np, true), init) == z;
    LeadsBy(y, Alloc(i, np, true), init);
    LeadsInv(y, z, init);
    t := ForkGoesThrough(z, i, np, init);
    LeadsOn(y, z, t, init);
  }

  // ----- wait

  /** The ZOMBIE children of i among the first k processes. */
  function Corpses(procs: seq<Proc>, i: nat, k: nat): nat
    requires k <= |procs|
  {
    if k == 0 then 0
    else Corpses(procs, i, k - 1) + if procs[k - 1].parent == i && procs[k - 1].state == ZOMBIE then 1 else 0
  }

  lemma {:induction false} OneLess(procs: seq<Proc>, more: seq<Proc>, i: nat, k: nat, m: nat)
    requires m < k <= |procs| == |more| && procs[m].parent == i && procs[m].state == ZOMBIE && more[m] == FREE
    requires forall j :: 0 <= j < |procs| && j != m ==>
               more[j].parent == procs[j].parent && more[j].state == procs[j].state
    ensures Corpses(more, i, k) < Corpses(procs, i, k)
    decreases k
  {
    if m == k - 1 {
      SameCorpses(procs, more, i, k - 1);
    } else {
      OneLess(procs, more, i, k - 1, m);
    }
  }

  lemma {:induction false} SameCorpses(procs: seq<Proc>, more: seq<Proc>, i: nat, k: nat)
    requires k <= |procs| == |more|
    requires forall j :: 0 <= j < k ==> more[j].parent == procs[j].parent && more[j].state == procs[j].state
    ensures Corpses(more, i, k) == Corpses(procs, i, k)
    decreases k
  {
    if k > 0 {
      SameCorpses(procs, more, i, k - 1);
    }
  }

  /** A turn of kwait's loop that finds a dead child. */
  lemma ScanReaps(y: System, i: nat, m: nat, init: nat) returns (z: System)
    requires Quiet(y) && i < |y.procs| && m < |y.procs| && y.procs[i].pc.WaitScan? && y.procs[i].pc.k == m != i
    requires y.procs[m].parent == i && y.procs[m].state == ZOMBIE
    ensures Leads(y, z, init) && Quiet(z) && WAIT_LOCK !in z.locks
    ensures z.procs == y.procs[m := FREE][i := y.procs[i].(pc := Normal)]
  {
    hide Leads;
    assert !Locked(y.procs[m]);
    z := Goto(Put(y, m, FREE), i, Normal).(locks := y.locks - {WAIT_LOCK});
    assert Step(y, Scan(i, true), init) == z;
    LeadsBy(y, Scan(i, true), init);
    StillFree(y, z, i, m);
  }

  lemma ScanPasses(y: System, i: nat, m: nat, init: nat) returns (z: System, havekids: bool)
    requires Quiet(y) && i < |y.procs| && m < |y.procs| && y.procs[i].pc.WaitScan? && y.procs[i].pc.k == m
    requires y.procs[m].parent != i || y.procs[m].state != ZOMBIE
    ensures Leads(y, z, init) && Quiet(z) && z.procs == y.procs[i := y.procs[i].(pc := WaitScan(m + 1, havekids))]
  {
    hide Leads;
    assert !Locked(y.procs[m]);
    havekids := if y.procs[m].parent == i then true else y.procs[i].pc.havekids;
    z := Goto(y, i, WaitScan(m + 1, havekids));
    assert Step(y, Scan(i, true), init) == z;
    LeadsBy(y, Scan(i, true), init);
    StillFree(y, z, i, m);
  }

  lemma StillFree(y: System, z: System, i: nat, m: nat)
    requires i < |y.procs| && m < |y.procs| && Quiet(y) && |z.procs| == |y.procs|
             && (z.procs[i].pc.WaitScan? || z.procs[i].pc.Normal?)
    requires forall j :: 0 <= j < |y.procs| && j != i && j != m ==> z.procs[j] == y.procs[j]
    requires m != i ==> z.procs[m] == FREE || z.procs[m] == y.procs[m]
    ensures Quiet(z)
  {
    forall j | 0 <= j < |z.procs|
      ensures !Locked(z.procs[j])
    {
      assert !Locked(y.procs[j]);
    }
  }

  lemma WaitsAgain(y: System, i: nat, init: nat) returns (u: System)
    requires Inv(y, init) && Quiet(y) && i < |y.procs| && y.procs[i].pc == Normal && WAIT_LOCK !in y.locks
    ensures Leads(y, u, init) && Inv(u, init) && Quiet(u)
    ensures u.procs == y.procs[i := y.procs[i].(pc := WaitScan(0, false))]
  {
    hide Leads, Inv;
    u := Goto(y, i, WaitScan(0, false)).(locks := y.locks[WAIT_LOCK := i]);
    assert Step(y, BeginWait(i), init) == u;
    LeadsBy(y, BeginWait(i), init);
    LeadsInv(y, u, init);
    StillFree(y, u, i, i);
  }

  /** kwait's loop up to a dead child k, over which it may have to start again for each dead
      child before it. */
  lemma {:induction false} Reaps(y: System, i: nat, k: nat, init: nat) returns (t: System)
    requires Inv(y, init) && Quiet(y) && i < |y.procs| && k < |y.procs| && y.procs[i].pc.WaitScan?
    requires y.procs[k].parent == i && y.procs[k].state == ZOMBIE
    ensures Leads(y, t, init) && |t.procs| == |y.procs| && t.procs[k] == FREE && t.procs[i].pc == Normal
    ensures t.procs[i].state == RUNNING
    decreases Corpses(y.procs, i, k), if y.procs[i].pc.WaitScan? then |y.procs| - y.procs[i].pc.k else 0
  {
    hide Leads, Inv, Quiet;
    var m := ScanAt(y, i, k, init);
    if y.procs[m].parent == i && y.procs[m].state == ZOMBIE {
      var z := ScanReaps(y, i, m, init);
      if m == k {
        t := z;
      } else {
        LeadsInv(y, z, init);
        var u := WaitsAgain(z, i, init);
        LeadsOn(y, z, u, init);
        OneLess(y.procs, u.procs, i, k, m);
        t := Reaps(u, i, k, init);
        LeadsOn(y, u, t, init);
      }
    } else {
      var z, kids := ScanPasses(y, i, m, init);
      LeadsInv(y, z, init);
      SameCorpses(y.procs, z.procs, i, k);
      t := Reaps(z, i, k, init);
      LeadsOn(y, z, t, init);
    }
  }

  /** The scan has not passed a dead child, and the scanner is none. */
  lemma ScanAt(y: System, i: nat, k: nat, init: nat) returns (m: nat)
    requires Inv(y, init) && i < |y.procs| && k < |y.procs| && y.procs[i].pc.WaitScan?
    requires y.procs[k].parent == i && y.procs[k].state == ZOMBIE
    ensures m == y.procs[i].pc.k <= k && y.procs[i].state == RUNNING && k != i
    ensures y.procs[m].state == ZOMBIE ==> m != i
  {
    hide LocksOk, Wakeups, ForksOk, Parents, Exits, Zombies;
    StateOf(y, i, init);
    m := y.procs[i].pc.k;
  }

  /** A process in kwait gets around to freeing any dead child. */
  lemma WaitGoesThrough(y: System, i: nat, k: nat, init: nat) returns (t: System)
    requires Inv(y, init) && i < |y.procs| && k < |y.procs| && y.procs[i].pc.WaitScan?
    requires y.procs[k].parent == i && y.procs[k].state == ZOMBIE
    ensures Leads(y, t, init) && |t.procs| == |y.procs| && t.procs[k].state == UNUSED && t.procs[k].parent == -1
    ensures t.procs[i].state == RUNNING && t.procs[i].pc == Normal
  {
    hide Leads, Inv, Quiet;
    var z := Settle(y, init);
    StateOf(y, k, init);
    t := Reaps(z, i, k, init);
    LeadsOn(y, z, t, init);
  }

  // ----- a process that was woken comes back from sleep

  lemma Rises(y: System, k: nat, c: Chan, init: nat) returns (t: System)
    requires Inv(y, init) && Quiet(y) && k < |y.procs| && y.procs[k].pc == Asleep(c) && y.procs[k].state == RUNNABLE
    ensures Leads(y, t, init) && Inv(t, init) && Quiet(t) && t.locks == y.locks
    ensures t.procs == y.procs[k := y.procs[k].(state := RUNNING, chan := NoChan, pc := Relocking(c))]
  {
    hide Leads, Inv;
    assert !Locked(y.procs[k]);
    var z := Become(y, k, RUNNING, Awake(c));
    assert Step(y, Dispatch(k), init) == z;
    LeadsBy(y, Dispatch(k), init);
    t := Put(z, k, z.procs[k].(chan := NoChan, pc := Relocking(c)));
    assert Step(z, Release(k), init) == t;
    Then(y, z, Release(k), init);
    LeadsInv(y, t, init);
    StillQuiet(y, t, k, 0);
  }

  /** The lock that k waits for comes free, and k is where it was. */
  lemma FreesFor(y: System, k: nat, c: Chan, init: nat) returns (t: System)
    requires Inv(y, init) && Quiet(y) && k < |y.procs| && y.procs[k].pc == Relocking(c)
    ensures Leads(y, t, init) && Inv(t, init) && Quiet(t) && |t.procs| == |y.procs| && LockOf(c) !in t.locks
    ensures t.procs[k].pc == Relocking(c) && (LockOf(c) !in y.locks ==> t == y)
  {
    hide Leads, Inv;
    var h;
    t, h := FreesLock(y, LockOf(c), init);
    if LockOf(c) in y.locks {
      var g := Holder(y, LockOf(c), init);
      assert k != h;
      assert Spared(y.procs[k], t.procs[k], h, init);
    }
  }

  lemma Relocks(y: System, k: nat, c: Chan, init: nat) returns (t: System)
    requires Inv(y, init) && Quiet(y) && k < |y.procs| && y.procs[k].pc == Relocking(c) && LockOf(c) !in y.locks
    ensures Leads(y, t, init) && Inv(t, init) && Quiet(t) && |t.procs| == |y.procs|
    ensures t.procs == y.procs[k := t.procs[k]] && t.procs[k].state == RUNNING && HeldBy(t.locks, LockOf(c), k)
    ensures t.procs[k].pc == if c.Other? then Critical(LockOf(c)) else WaitScan(0, false)
  {
    hide Inv, Leads;
    StateOf(y, k, init);
    t := Goto(y, k, if c.Other? then Critical(LockOf(c)) else WaitScan(0, false)).(locks := y.locks[LockOf(c) := k]);
    assert Step(y, Relock(k), init) == t;
    LeadsBy(y, Relock(k), init);
    LeadsInv(y, t, init);
    StillQuiet(y, t, k, 0);
  }

  /** Awake, and with the condition lock again; kwait has begun another scan. */
  lemma Wakes(y: System, k: nat, c: Chan, init: nat) returns (t: System)
    requires Inv(y, init) && Quiet(y) && k < |y.procs| && y.procs[k].pc == Asleep(c) && y.procs[k].state == RUNNABLE
    ensures Leads(y, t, init) && |t.procs| == |y.procs| && Inv(t, init) && Quiet(t)
    ensures t.procs[k].state == RUNNING && HeldBy(t.locks, LockOf(c), k)
    ensures t.procs[k].pc == if c.Other? then Critical(LockOf(c)) else WaitScan(0, false)
    ensures LockOf(c) !in y.locks ==> forall j :: 0 <= j < |y.procs| && j != k ==> t.procs[j] == y.procs[j]
  {
    hide Leads, Inv, Quiet;
    var u := Rises(y, k, c, init);
    var v := FreesFor(u, k, c, init);
    LeadsOn(y, u, v, init);
    t := Relocks(v, k, c, init);
    LeadsOn(y, v, t, init);
  }

  /** A sleeper that is killed comes back: into its critical section, or out of kwait. */
  lemma KillGoesThrough(y: System, i: nat, k: nat, c: Chan, init: nat) returns (t: System)
    requires Inv(y, init) && i < |y.procs| && k < |y.procs| && y.procs[i].pc == Normal
    requires y.procs[k].pc == Asleep(c) && y.procs[k].state == SLEEPING
    ensures Leads(Step(y, Kill(i, k), init), t, init) && |t.procs| == |y.procs| && t.procs[k].state == RUNNING
    ensures t.procs[k].pc == if c.Other? then Critical(LockOf(c)) else Normal
  {
    hide Leads, Inv;
    var z := Put(y, k, y.procs[k].(state := RUNNABLE));
    assert Step(y, Kill(i, k), init) == z;
    LeadsBy(y, Kill(i, k), init);
    LeadsInv(y, z, init);
    hide Step;
    var u := Settle(z, init);
    var v := Wakes(u, k, c, init);
    LeadsOn(z, u, v, init);
    if c.Other? {
      t := v;
    } else {
      t := DrainScan(v, k, init);
      LeadsOn(z, v, t, init);
    }
  }

  /** sleep: the process is asleep on its channel, and the condition lock is free. */
  lemma SleepGoesThrough(y: System, i: nat, c: Chan, init: nat) returns (t: System)
    requires Inv(y, init) && i < |y.procs| && y.procs[i].pc == Critical(LockOf(c)) && c.Other?
    ensures Leads(Step(y, BeginSleep(i, c), init), t, init) && |t.procs| == |y.procs|
    ensures t.procs[i].pc == Asleep(c) && t.procs[i].state == SLEEPING && t.procs[i].chan == c
    ensures t.locks == y.locks - {LockOf(c)}
  {
    hide Leads, Inv;
    var z := Goto(y, i, FallingAsleep(c)).(locks := y.locks - {LockOf(c)});
    assert Step(y, BeginSleep(i, c), init) == z;
    LeadsBy(y, BeginSleep(i, c), init);
    LeadsInv(y, z, init);
    t := Settle(z, init);
  }

  /** In sleep(c), from the release of the condition lock on. */
  predicate WentToSleep(p: Proc, c: Chan) {
    p.pc == FallingAsleep(c) || p.pc == Marked(c) || (p.pc == Asleep(c) && p.state == SLEEPING)
  }

  /** What a wakeup of c makes of a process that went to sleep. */
  ghost predicate WokenBy(p: Proc, q: Proc, c: Chan) {
    forall d :: WentToSleep(p, d) ==> q.pc == Asleep(d) && q.state == if d == c then RUNNABLE else SLEEPING
  }

  /** A wakeup, begun under the lock of c, makes every process that had gone to sleep on c
      before it RUNNABLE, and none that sleeps on another channel. */
  lemma WakeupGoesThrough(y: System, w: nat, c: Chan, init: nat) returns (t: System)
    requires Inv(y, init) && w < |y.procs| && y.procs[w].pc == Critical(LockOf(c)) && c.Other?
    ensures Leads(Step(y, BeginWakeup(w, c), init), t, init) && |t.procs| == |y.procs| && Inv(t, init) && Quiet(t)
    ensures t.procs[w].pc == Normal && LockOf(c) !in t.locks
    ensures forall j :: 0 <= j < |y.procs| ==> WokenBy(y.procs[j], t.procs[j], c)
  {
    hide Leads, Inv, Step, WokenBy, Quiet, Drained, Rested;
    StateOf(y, w, init);
    var z := Goto(y, w, Waking(c, 0));
    WakeupBegins(y, w, c, init);
    LeadsBy(y, BeginWakeup(w, c), init);
    LeadsInv(y, z, init);
    var u := Settle(z, init);
    RestedWaker(y.procs[w], c);
    t := DrainWaking(u, w, init);
    LeadsOn(z, u, t, init);
    LeadsInv(z, t, init);
    WakerDone(u, t, w, LockOf(c), init);
    forall j | 0 <= j < |y.procs|
      ensures WokenBy(y.procs[j], t.procs[j], c)
    {
      if j != w {
        StateOf(y, j, init);
        var p := y.procs[j];
        assert z.procs[j] == p && t.procs[j] == WokenFrom(u.procs, w, c, 0)[j];
        WokenIs(j, p, t.procs[j], c);
      }
    }
  }

  lemma WokenIs(j: nat, p: Proc, q: Proc, c: Chan)
    requires StateOk(j, p)
    requires var r := Rested(p); q == if r.state == SLEEPING && r.chan == c then r.(state := RUNNABLE) else r
    ensures WokenBy(p, q, c)
  {
  }

  lemma WakeupBegins(y: System, w: nat, c: Chan, init: nat)
    requires w < |y.procs| && y.procs[w].pc == Critical(LockOf(c)) && c.Other?
    ensures Step(y, BeginWakeup(w, c), init) == Goto(y, w, Waking(c, 0))
  {
  }

  lemma RestedWaker(p: Proc, c: Chan)
    ensures Rested(p.(pc := Waking(c, 0))) == p.(pc := Waking(c, 0))
    ensures p.pc.Critical? ==> forall q :: WokenBy(p, q, c)
  {
  }

  lemma WakerDone(y: System, t: System, w: nat, l: nat, init: nat)
    requires Drained(y, t, w, l, init)
    ensures |t.procs| == |y.procs| && Quiet(t) && l !in t.locks
  {
  }

  /** And each of them then gets the lock, whoever has it. */
  lemma SleeperComesBack(y: System, w: nat, j: nat, c: Chan, init: nat) returns (t: System)
    requires Inv(y, init) && w < |y.procs| && y.procs[w].pc == Critical(LockOf(c)) && c.Other?
    requires j < |y.procs| && WentToSleep(y.procs[j], c)
    ensures Leads(Step(y, BeginWakeup(w, c), init), t, init) && |t.procs| == |y.procs|
    ensures t.procs[j].state == RUNNING && t.procs[j].pc == Critical(LockOf(c)) && HeldBy(t.locks, LockOf(c), j)
  {
    hide Leads, Inv, Quiet, Step;
    var z := WakeupGoesThrough(y, w, c, init);
    t := Wakes(z, j, c, init);
    LeadsOn(Step(y, BeginWakeup(w, c), init), z, t, init);
  }

  // ----- exit

  /** The parent of i, if it is another process, does not sleep in kwait. */
  predicate ParentAwake(t: System, i: nat)
    requires i < |t.procs|
  {
    var q := t.procs[i].parent;
    0 <= q < |t.procs| && q != i ==> !(t.procs[q].state == SLEEPING && t.procs[q].chan == OfProc(q))
  }

  lemma ExitFinishes(y: System, h: nat, init: nat) returns (t: System)
    requires h < |y.procs| && y.procs[h].pc == ExitWakeParent(0) && Quiet(y)
    ensures Leads(y, t, init) && Drained(y, t, h, WAIT_LOCK, init) && t.procs[h].pc == Dead
            && t.procs[h].state == ZOMBIE
    ensures forall j :: 0 <= j < |y.procs| ==> t.procs[j].parent == y.procs[j].parent
    ensures ParentAwake(t, h)
  {
    hide Leads;
    t := ExitEnds(y, h, init);
    forall j | 0 <= j < |y.procs|
      ensures t.procs[j].parent == y.procs[j].parent
    {
      assert j != h ==> t.procs[j] == WokenFrom(y.procs, h, WakeupChan(y.procs[h], init), 0)[j];
    }
  }

  /** kexit, once wait_lock is free and nobody's p->lock is held. */
  lemma ExitRuns(y: System, i: nat, init: nat) returns (t: System)
    requires Quiet(y) && i < |y.procs| && y.procs[i].pc == Normal && i != init && WAIT_LOCK !in y.locks
    ensures Leads(y, t, init) && |t.procs| == |y.procs| && Quiet(t) && WAIT_LOCK !in t.locks
    ensures t.procs[i].state == ZOMBIE && t.procs[i].pc == Dead
    ensures SparesAll(y, t, i, init) && GaveAway(y, t, i, 0, init)
    ensures ParentAwake(t, i) && SameParent(y.procs[i], t.procs[i], i)
  {
    hide Leads, Spared, ParentAwake;
    var z := Goto(y, i, ExitReparent(0)).(locks := y.locks[WAIT_LOCK := i]);
    assert Step(y, BeginExit(i), init) == z;
    LeadsBy(y, BeginExit(i), init);
    StillQuiet(y, z, i, 0);
    SparesChild(y, z, i, i, init);
    var u := Reparents(z, i, init);
    LeadsOn(y, z, u, init);
    SparesOn(y, z, u, i, init);
    t := ExitFinishes(u, i, init);
    LeadsOn(y, u, t, init);
    SparesOn(y, u, t, i, init);
    assert GaveAway(y, u, i, 0, init);
    assert GaveAway(y, t, i, 0, init);
  }

  /** wait_lock comes free for i, which stays where it is and keeps its children. */
  lemma FreesForExit(y: System, i: nat, init: nat) returns (t: System)
    requires Inv(y, init) && Quiet(y) && i < |y.procs| && y.procs[i].pc == Normal
    ensures Leads(y, t, init) && Inv(t, init) && Quiet(t) && |t.procs| == |y.procs| && WAIT_LOCK !in t.locks
    ensures t.procs[i].pc == Normal
    ensures forall j :: 0 <= j < |y.procs| && y.procs[j].parent == i ==> t.procs[j].parent == i
    ensures forall q: nat :: q < |y.procs| && y.procs[q].pc.Asleep? ==>
              t.procs[q].pc == y.procs[q].pc && (y.procs[i].parent == q ==> t.procs[i].parent == q)
  {
    hide Leads, Inv;
    var h;
    t, h := FreesLock(y, WAIT_LOCK, init);
    if WAIT_LOCK in y.locks {
      var g := Holder(y, WAIT_LOCK, init);
      assert i != h;
      assert Spared(y.procs[i], t.procs[i], h, init);
      forall j | 0 <= j < |y.procs| && y.procs[j].parent == i
        ensures t.procs[j].parent == i
      {
        assert j != h ==> Spared(y.procs[j], t.procs[j], h, init);
      }
      forall q: nat | q < |y.procs| && y.procs[q].pc.Asleep?
        ensures t.procs[q].pc == y.procs[q].pc && (y.procs[i].parent == q ==> t.procs[i].parent == q)
      {
        assert q != h && Spared(y.procs[q], t.procs[q], h, init);
      }
    }
  }

  /** kexit: the process is a ZOMBIE off its stack and nobody's parent, its children are
      init's, and its parent is not left asleep in kwait. */
  lemma ExitGoesThrough(y: System, i: nat, init: nat) returns (t: System)
    requires Inv(y, init) && i < |y.procs| && y.procs[i].pc == Normal && i != init
    ensures Leads(y, t, init) && |t.procs| == |y.procs| && Inv(t, init) && Quiet(t) && WAIT_LOCK !in t.locks
    ensures t.procs[i].state == ZOMBIE && t.procs[i].pc == Dead
    ensures forall j :: 0 <= j < |y.procs| ==> t.procs[j].parent != i
    ensures forall j :: 0 <= j < |y.procs| && j != i && y.procs[j].parent == i ==> t.procs[j].parent == init
    ensures ParentAwake(t, i)
  {
    hide Leads, Inv, Quiet, ParentAwake, SparesAll;
    var z := Settle(y, init);
    var u := FreesForExit(z, i, init);
    LeadsOn(y, z, u, init);
    t := ExitRuns(u, i, init);
    LeadsOn(y, u, t, init);
    LeadsInv(y, t, init);
    DeadHasNoChildren(t, i, init);
  }

  lemma DeadHasNoChildren(t: System, i: nat, init: nat)
    requires Inv(t, init) && i < |t.procs| && t.procs[i].pc == Dead
    ensures forall j :: 0 <= j < |t.procs| ==> t.procs[j].parent != i
  {
    hide States, LocksOk, Wakeups, ForksOk, Exits, Scans, Zombies;
  }

  /** A child that exits while its parent sleeps in kwait is reaped: its slot is free again
      and the parent is back from kwait. */
  lemma ExitIsReaped(y: System, i: nat, q: nat, init: nat) returns (t: System)
    requires Inv(y, init) && i < |y.procs| && q < |y.procs| && y.procs[i].pc == Normal && i != init
    requires y.procs[i].parent == q && y.procs[q].pc == Asleep(OfProc(q))
    ensures Leads(y, t, init) && |t.procs| == |y.procs|
    ensures t.procs[i].state == UNUSED && t.procs[q].state == RUNNING && t.procs[q].pc == Normal
  {
    hide Leads, Inv, Quiet;
    var z := Settle(y, init);
    var u := FreesForExit(z, i, init);
    LeadsOn(y, z, u, init);
    var v := ExitRuns(u, i, init);
    LeadsOn(y, u, v, init);
    LeadsInv(y, v, init);
    assert Spared(u.procs[q], v.procs[q], i, init);
    StateOf(v, q, init);
    var w := Wakes(v, q, OfProc(q), init);
    LeadsOn(y, v, w, init);
    t := Reaps(w, q, i, init);
    LeadsOn(y, w, t, init);
  }

  /** kwait from its beginning. */
  lemma WaitFromStart(y: System, i: nat, k: nat, init: nat) returns (t: System)
    requires Inv(y, init) && i < |y.procs| && k < |y.procs| && y.procs[i].pc == Normal
    requires y.procs[k].parent == i && y.procs[k].state == ZOMBIE
    ensures Leads(y, t, init) && |t.procs| == |y.procs| && t.procs[k].state == UNUSED && t.procs[k].parent == -1
    ensures t.procs[i].state == RUNNING && t.procs[i].pc == Normal
  {
    hide Leads, Inv, Quiet;
    var z := Settle(y, init);
    StateOf(y, k, init);
    var u := FreesForWait(z, i, k, init);
    LeadsOn(y, z, u, init);
    var v := WaitsAgain(u, i, init);
    LeadsOn(y, u, v, init);
    t := Reaps(v, i, k, init);
    LeadsOn(y, v, t, init);
  }

  lemma FreesForWait(y: System, i: nat, k: nat, init: nat) returns (t: System)
    requires Inv(y, init) && Quiet(y) && i < |y.procs| && k < |y.procs| && y.procs[i].pc == Normal
    requires y.procs[k].parent == i && y.procs[k].state == ZOMBIE
    ensures Leads(y, t, init) && Inv(t, init) && Quiet(t) && |t.procs| == |y.procs| && WAIT_LOCK !in t.locks
    ensures t.procs[i].pc == Normal && t.procs[k].parent == i && t.procs[k].state == ZOMBIE && k != i
  {
    hide Leads, Inv;
    StateOf(y, k, init);
    StateOf(y, i, init);
    var h;
    t, h := FreesLock(y, WAIT_LOCK, init);
    if WAIT_LOCK in y.locks {
      var g := Holder(y, WAIT_LOCK, init);
      StateOf(y, h, init);
      assert i != h && k != h;
      assert Spared(y.procs[i], t.procs[i], h, init) && Spared(y.procs[k], t.procs[k], h, init);
    }
  }

  /** An interrupt where no lock is held takes the CPU away, and the thread can go on where it
      was. */
  lemma YieldGoesThrough(y: System, i: nat, init: nat) returns (t: System, u: System)
    requires Inv(y, init) && i < |y.procs|
    requires var pc := y.procs[i].pc; pc.Normal? || pc.ForkLink? || pc.ForkRun? || pc.Relocking?
    ensures Leads(Step(y, Yield(i), init), t, init) && |t.procs| == |y.procs| && Leads(t, u, init)
    ensures t.procs[i].state == RUNNABLE && t.procs[i].pc == Yielded(y.procs[i].pc)
    ensures |u.procs| == |y.procs| && u.procs[i] == y.procs[i]
  {
    hide Leads, Inv;
    StateOf(y, i, init);
    var z := Become(y, i, RUNNABLE, Yielding(y.procs[i].pc));
    assert Step(y, Yield(i), init) == z;
    LeadsBy(y, Yield(i), init);
    LeadsInv(y, z, init);
    t := Settle(z, init);
    u := Resumes(t, i, init);
  }

  /** Every RUNNABLE process can be dispatched. */
  lemma RunnableRuns(y: System, k: nat, init: nat) returns (t: System)
    requires Inv(y, init) && k < |y.procs| && y.procs[k].state == RUNNABLE
    ensures Leads(y, t, init) && |t.procs| == |y.procs| && t.procs[k].state == RUNNING
  {
    hide Leads, Inv;
    var z := Settle(y, init);
    StateOf(y, k, init);
    StateOf(z, k, init);
    assert !Locked(z.procs[k]);
    t := Step(z, Dispatch(k), init);
    Then(y, z, Dispatch(k), init);
  }
}
