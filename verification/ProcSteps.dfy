/** Which steps of proc.c's threads change what: the diagram of process states, who sets and
    clears parent pointers, when kwait returns, and that a slot in state USED is being forked. */
module ProcSteps {
  import opened Proc

  // ----- process states

  /** Thread i is in a wakeup on channel c, about to visit process k. */
  predicate Calls(y: System, i: nat, c: Chan, k: nat, init: nat) {
    i < |y.procs| &&
    match y.procs[i].pc
    case Waking(d, m) => d == c && m == k
    case ExitWakeInit(_, m) => c == OfProc(init) && m == k
    case ExitWakeParent(m) => y.procs[i].parent >= 0 && c == OfProc(y.procs[i].parent) && m == k
    case _ => false
  }

  /** Every change of a process's state, and the one step that makes it. */
  predicate Allowed(y: System, a: Action, k: nat, after: State, init: nat)
    requires k < |y.procs| && a.i < |y.procs|
  {
    var p, r := y.procs[k], y.procs[a.i];
    match (p.state, after)
    case (UNUSED, USED) => a.Alloc? && a.np == k && a.ok && r.pc == Normal
    case (USED, RUNNABLE) => a.Launch? && r.pc == ForkRun(k)
    case (RUNNABLE, RUNNING) => a == Dispatch(k) && !Locked(p)
    case (RUNNING, RUNNABLE) => a == Yield(k)
    case (RUNNING, SLEEPING) => a == Mark(k) && p.pc.FallingAsleep?
    case (SLEEPING, RUNNABLE) => a == Kill(a.i, k) || (a.Visit? && Calls(y, a.i, p.chan, k, init))
    case (RUNNING, ZOMBIE) => a == BecomeZombie(k) && p.pc.ExitWakeParent?
    case (ZOMBIE, UNUSED) => a == Scan(a.i, true) && r.pc.WaitScan? && r.pc.k == k && p.parent == a.i && !Locked(p)
    case _ => false
  }

  predicate IsFork(a: Action) {
    a.Alloc? || a.Link? || a.Launch?
  }

  /** The state of process k changes from what it is. */
  predicate Changes(y: System, a: Action, k: nat, init: nat)
    requires k < |y.procs|
  {
    k < |Step(y, a, init).procs| && Step(y, a, init).procs[k].state != y.procs[k].state
  }

  lemma VisitStates(y: System, i: nat, k: nat, init: nat)
    requires k < |y.procs| && i < |y.procs| && StateOk(k, y.procs[k]) && Changes(y, Visit(i), k, init)
    ensures Allowed(y, Visit(i), k, Step(y, Visit(i), init).procs[k].state, init)
  {
    hide Locked;
  }

  lemma ForkStates(y: System, a: Action, k: nat, init: nat)
    requires k < |y.procs| && a.i < |y.procs| && IsFork(a) && Changes(y, a, k, init)
    requires a.Launch? && y.procs[a.i].pc.ForkRun? ==>
               ForkTarget(y, a.i, y.procs[a.i].pc.np) && y.procs[a.i].state == RUNNING
    requires StateOk(k, y.procs[k])
    ensures Allowed(y, a, k, Step(y, a, init).procs[k].state, init)
  {
    hide Locked;
  }

  lemma OtherStates(y: System, a: Action, k: nat, init: nat)
    requires k < |y.procs| && a.i < |y.procs| && !a.Visit? && !IsFork(a)
    requires StateOk(k, y.procs[k]) && StateOk(a.i, y.procs[a.i]) && Changes(y, a, k, init)
    ensures Allowed(y, a, k, Step(y, a, init).procs[k].state, init)
  {
    hide Locked;
  }

  /** A process goes from state to state only as the diagram says. */
  lemma StateDiagram(y: System, a: Action, k: nat, init: nat)
    requires Inv(y, init) && k < |y.procs| && a.i < |y.procs| && Changes(y, a, k, init)
    ensures Allowed(y, a, k, Step(y, a, init).procs[k].state, init)
  {
    hide LocksOk, Wakeups, Parents, Exits, Scans, Zombies, Step;
    StateOf(y, k, init);
    StateOf(y, a.i, init);
    if a.Visit? {
      VisitStates(y, a.i, k, init);
    } else if IsFork(a) {
      if y.procs[a.i].pc.ForkRun? {
        assert Forks(y.procs[a.i], y.procs[a.i].pc.np);
      }
      ForkStates(y, a, k, init);
    } else {
      OtherStates(y, a, k, init);
    }
  }

  // ----- p->lock

  /** While p->lock of k is held, from a switch to the release behind it or from its acquire
      to the next switch, nobody else changes k but for its parent, and a wakeup or a scan
      that comes to it waits. */
  lemma LockedUntouched(y: System, a: Action, k: nat, init: nat)
    requires k < |y.procs| && a.i < |y.procs| && a.i != k && StateOk(k, y.procs[k])
    requires y.procs[a.i].pc.ForkRun? ==> ForkTarget(y, a.i, y.procs[a.i].pc.np)
    requires var pc := y.procs[k].pc;
             pc.Starting? || pc.FallingAsleep? || pc.Marked? || pc.Awake? || pc.Yielding? || pc.Resumed? || pc.Exiting?
    ensures var t := Step(y, a, init); k < |t.procs| && t.procs[k] == y.procs[k].(parent := t.procs[k].parent)
    ensures a.Visit? && InLoopAt(y, a.i, k) ==> Step(y, a, init) == y
    ensures a.Scan? && y.procs[a.i].pc.WaitScan? && y.procs[a.i].pc.k == k && y.procs[k].parent == a.i ==>
              Step(y, a, init) == y
  {
    if a.Visit? {
      VisitWaits(y, a.i, k, init);
    } else if a.Scan? {
      ScanWaits(y, a, k, init);
    } else {
      OthersMissIt(y, a, k, init);
    }
  }

  /** Thread i is in wakeup's loop, about to visit process k. */
  predicate InLoopAt(y: System, i: nat, k: nat)
    requires i < |y.procs|
  {
    match y.procs[i].pc
    case Waking(_, m) => m == k
    case ExitWakeInit(_, m) => m == k
    case ExitWakeParent(m) => m == k
    case _ => false
  }

  lemma VisitWaits(y: System, i: nat, k: nat, init: nat)
    requires k < |y.procs| && i < |y.procs| && i != k && Locked(y.procs[k])
    ensures k < |Step(y, Visit(i), init).procs| && Step(y, Visit(i), init).procs[k] == y.procs[k]
    ensures InLoopAt(y, i, k) ==> Step(y, Visit(i), init) == y
  {
  }

  lemma ScanWaits(y: System, a: Action, k: nat, init: nat)
    requires k < |y.procs| && a.i < |y.procs| && a.i != k && Locked(y.procs[k]) && a.Scan?
    ensures k < |Step(y, a, init).procs| && Step(y, a, init).procs[k] == y.procs[k]
    ensures y.procs[a.i].pc.WaitScan? && y.procs[a.i].pc.k == k && y.procs[k].parent == a.i ==> Step(y, a, init) == y
  {
  }

  lemma OthersMissIt(y: System, a: Action, k: nat, init: nat)
    requires k < |y.procs| && a.i < |y.procs| && a.i != k && !a.Visit? && !a.Scan? && Locked(y.procs[k])
    requires StateOk(k, y.procs[k])
    requires y.procs[a.i].pc.ForkRun? ==> ForkTarget(y, a.i, y.procs[a.i].pc.np)
    ensures var t := Step(y, a, init); k < |t.procs| && t.procs[k] == y.procs[k].(parent := t.procs[k].parent)
  {
  }

  // ----- parents

  predicate ParentAllowed(y: System, a: Action, k: nat, q: int, init: nat)
    requires k < |y.procs| && a.i < |y.procs|
  {
    var p, r := y.procs[k], y.procs[a.i];
    || (a.Link? && r.pc == ForkLink(k) && p.parent == -1 && q == a.i)
    || (a.Reparent? && r.pc == ExitReparent(k) && p.parent == a.i && q == init)
    || (a == Scan(a.i, true) && r.pc.WaitScan? && r.pc.k == k && p.parent == a.i && q == -1 && p.state == ZOMBIE
        && !Locked(p))
  }

  lemma ParentInFork(y: System, a: Action, k: nat, init: nat)
    requires k < |y.procs| && a.i < |y.procs| && StateOk(k, y.procs[k]) && IsFork(a)
    requires y.procs[a.i].pc.ForkLink? ==> ForkTarget(y, a.i, y.procs[a.i].pc.np)
    requires k < |Step(y, a, init).procs| && Step(y, a, init).procs[k].parent != y.procs[k].parent
    ensures ParentAllowed(y, a, k, Step(y, a, init).procs[k].parent, init)
  {
    hide Locked;
  }

  lemma ParentInVisit(y: System, i: nat, k: nat, init: nat)
    requires k < |y.procs| && i < |y.procs|
    ensures k < |Step(y, Visit(i), init).procs| && Step(y, Visit(i), init).procs[k].parent == y.procs[k].parent
  {
    hide Locked;
  }

  lemma ParentElse(y: System, a: Action, k: nat, init: nat)
    requires k < |y.procs| && a.i < |y.procs| && !IsFork(a) && !a.Visit?
    requires k < |Step(y, a, init).procs| && Step(y, a, init).procs[k].parent != y.procs[k].parent
    ensures ParentAllowed(y, a, k, Step(y, a, init).procs[k].parent, init)
  {
    hide Locked;
  }

  /** A parent pointer is set by the fork, moved to init by an exit of the parent, and cleared
      when the parent frees the dead child. */
  lemma ParentDiagram(y: System, a: Action, k: nat, init: nat)
    requires Inv(y, init) && k < |y.procs| && a.i < |y.procs|
    requires k < |Step(y, a, init).procs| && Step(y, a, init).procs[k].parent != y.procs[k].parent
    ensures ParentAllowed(y, a, k, Step(y, a, init).procs[k].parent, init)
  {
    hide LocksOk, Wakeups, Parents, Exits, Scans, Zombies, Step;
    StateOf(y, k, init);
    if y.procs[a.i].pc.ForkLink? {
      assert Forks(y.procs[a.i], y.procs[a.i].pc.np);
    }
    if IsFork(a) {
      ParentInFork(y, a, k, init);
    } else if a.Visit? {
      ParentInVisit(y, a.i, k, init);
    } else {
      ParentElse(y, a, k, init);
    }
  }

  // ----- two more invariants

  /** A step of one thread leaves every other one where it is, but for slots without one. */
  lemma OthersStay(y: System, a: Action, j: nat, init: nat)
    requires Inv(y, init) && j < |y.procs| && a.i < |y.procs| && j != a.i
    requires !y.procs[j].pc.Unborn? && !y.procs[j].pc.Dead?
    ensures j < |Step(y, a, init).procs| && Step(y, a, init).procs[j].pc == y.procs[j].pc
  {
    hide LocksOk, Wakeups, Parents, Exits, Scans, Zombies, Locked;
    StateOf(y, j, init);
    if y.procs[a.i].pc.ForkRun? {
      assert Forks(y.procs[a.i], y.procs[a.i].pc.np) && ForkTarget(y, a.i, y.procs[a.i].pc.np);
    }
    StayThere(y, a, j, init);
  }

  lemma StayThere(y: System, a: Action, j: nat, init: nat)
    requires j < |y.procs| && a.i < |y.procs| && j != a.i && StateOk(j, y.procs[j])
    requires !y.procs[j].pc.Unborn? && !y.procs[j].pc.Dead?
    requires y.procs[a.i].pc.ForkRun? ==> ForkTarget(y, a.i, y.procs[a.i].pc.np)
    ensures j < |Step(y, a, init).procs| && Step(y, a, init).procs[j].pc == y.procs[j].pc
  {
    hide Step;
    if IsFork(a) {
      StayInFork(y, a, j, init);
    } else if a.Visit? {
      StayInVisit(y, a.i, j, init);
    } else {
      ZombieLeaves(j, y.procs[j]);
      StayElse(y, a, j, init);
    }
  }

  lemma ZombieLeaves(j: nat, p: Proc)
    requires StateOk(j, p) && !p.pc.Dead?
    ensures p.state == ZOMBIE ==> Locked(p)
  {
  }

  lemma StayInFork(y: System, a: Action, j: nat, init: nat)
    requires j < |y.procs| && a.i < |y.procs| && j != a.i && StateOk(j, y.procs[j]) && IsFork(a)
    requires !y.procs[j].pc.Unborn? && !y.procs[j].pc.Dead?
    requires y.procs[a.i].pc.ForkRun? ==> ForkTarget(y, a.i, y.procs[a.i].pc.np)
    ensures j < |Step(y, a, init).procs| && Step(y, a, init).procs[j].pc == y.procs[j].pc
  {
    hide Locked;
  }

  lemma StayInVisit(y: System, i: nat, j: nat, init: nat)
    requires j < |y.procs| && i < |y.procs| && j != i
    ensures j < |Step(y, Visit(i), init).procs| && Step(y, Visit(i), init).procs[j].pc == y.procs[j].pc
  {
    hide Locked;
  }

  lemma StayElse(y: System, a: Action, j: nat, init: nat)
    requires j < |y.procs| && a.i < |y.procs| && j != a.i && !IsFork(a) && !a.Visit?
    requires y.procs[j].state == ZOMBIE ==> Locked(y.procs[j])
    ensures j < |Step(y, a, init).procs| && Step(y, a, init).procs[j].pc == y.procs[j].pc
  {
    hide Locked;
  }

  /** kfork is under way for every slot in state USED. */
  ghost predicate UsedForked(y: System) {
    forall np: nat :: np < |y.procs| && y.procs[np].state == USED ==> SomeForks(y, np)
  }

  ghost predicate SomeForks(y: System, np: nat) {
    exists j: nat :: j < |y.procs| && ForksNow(y.procs[j], np)
  }

  predicate ForksNow(p: Proc, np: nat) {
    Core(p.pc) == ForkLink(np) || Core(p.pc) == ForkRun(np)
  }

  /** Own steps of a thread in kfork. */
  lemma ForkerStays(y: System, a: Action, np: nat, init: nat)
    requires a.i < |y.procs| && np < |y.procs| && StateOk(a.i, y.procs[a.i]) && ForksNow(y.procs[a.i], np)
             && np != a.i
    ensures a.i < |Step(y, a, init).procs|
    ensures ForksNow(Step(y, a, init).procs[a.i], np) || Step(y, a, init).procs[np].state == RUNNABLE
  {
    hide Locked;
  }

  lemma AllocForks(y: System, a: Action, np: nat, init: nat)
    requires a.i < |y.procs| && np < |y.procs| && a == Alloc(a.i, np, true) && y.procs[a.i].pc == Normal
             && y.procs[np].state == UNUSED
    ensures a.i < |Step(y, a, init).procs| && ForksNow(Step(y, a, init).procs[a.i], np)
  {
  }

  lemma UsedStaysForked(y: System, a: Action, init: nat)
    requires Inv(y, init) && UsedForked(y)
    ensures UsedForked(Step(y, a, init))
  {
    var t := Step(y, a, init);
    SameSize(y, a, init);
    hide Step, Inv, StateOk, Allowed, ForksNow;
    if a.i < |y.procs| {
      forall np: nat | np < |t.procs| && t.procs[np].state == USED
        ensures SomeForks(t, np)
      {
        UsedHasForker(y, a, np, init);
      }
    }
  }

  lemma SameSize(y: System, a: Action, init: nat)
    ensures |Step(y, a, init).procs| == |y.procs|
    ensures a.i >= |y.procs| ==> Step(y, a, init) == y
  {
  }

  lemma UsedHasForker(y: System, a: Action, np: nat, init: nat)
    requires Inv(y, init) && UsedForked(y) && a.i < |y.procs| && np < |y.procs| == |Step(y, a, init).procs|
    requires Step(y, a, init).procs[np].state == USED
    ensures SomeForks(Step(y, a, init), np)
  {
    hide Step, Inv;
    var t := Step(y, a, init);
    if y.procs[np].state == USED {
      assert SomeForks(y, np);
      var j: nat :| j < |y.procs| && ForksNow(y.procs[j], np);
      ForkerIsOther(y, j, np, init);
      if j == a.i {
        ForkerStays(y, a, np, init);
      } else {
        OthersStay(y, a, j, init);
      }
      assert ForksNow(t.procs[j], np);
    } else {
      StateDiagram(y, a, np, init);
      AllocForks(y, a, np, init);
      assert ForksNow(t.procs[a.i], np);
    }
  }

  lemma ForkerIsOther(y: System, j: nat, np: nat, init: nat)
    requires Inv(y, init) && j < |y.procs| && ForksNow(y.procs[j], np) && np < |y.procs| && y.procs[np].state == USED
    ensures StateOk(j, y.procs[j]) && j != np && !y.procs[j].pc.Unborn? && !y.procs[j].pc.Dead?
  {
    StateOf(y, j, init);
  }

  /** kwait that has seen children still has some. */
  ghost predicate KidsSeen(y: System) {
    forall i: nat :: i < |y.procs| && y.procs[i].pc.WaitScan? && y.procs[i].pc.havekids ==> HasKids(y, i)
  }

  ghost predicate HasKids(y: System, i: nat) {
    exists m: nat :: m < |y.procs| && y.procs[m].parent == i
  }

  lemma KidsStaySeen(y: System, a: Action, init: nat)
    requires Inv(y, init) && KidsSeen(y)
    ensures KidsSeen(Step(y, a, init))
  {
    var t := Step(y, a, init);
    SameSize(y, a, init);
    hide Step, Inv, StateOk;
    if a.i < |y.procs| {
      forall i: nat | i < |t.procs| && t.procs[i].pc.WaitScan? && t.procs[i].pc.havekids
        ensures HasKids(t, i)
      {
        KidsOf(y, a, i, init);
      }
    }
  }

  lemma KidsOf(y: System, a: Action, i: nat, init: nat)
    requires Inv(y, init) && KidsSeen(y) && a.i < |y.procs| && i < |y.procs| == |Step(y, a, init).procs|
    requires Step(y, a, init).procs[i].pc.WaitScan? && Step(y, a, init).procs[i].pc.havekids
    ensures HasKids(Step(y, a, init), i)
  {
    hide Step, Inv;
    var t := Step(y, a, init);
    var m: nat := KidBefore(y, a, i, init);
    if t.procs[m].parent != i {
      ParentDiagram(y, a, m, init);
      ScannerDone(y, a, i, init);
    }
  }

  /** A child that the scan has met before the step or in it. */
  lemma KidBefore(y: System, a: Action, i: nat, init: nat) returns (m: nat)
    requires Inv(y, init) && KidsSeen(y) && a.i < |y.procs| && i < |y.procs| == |Step(y, a, init).procs|
    requires Step(y, a, init).procs[i].pc.WaitScan? && Step(y, a, init).procs[i].pc.havekids
    ensures m < |y.procs| && y.procs[m].parent == i && y.procs[i].pc.WaitScan?
  {
    hide Inv;
    StateOf(y, i, init);
    StateOf(y, a.i, init);
    ScannerBefore(y, a, i, init);
    if y.procs[i].pc.havekids {
      assert HasKids(y, i);
      m :| m < |y.procs| && y.procs[m].parent == i;
    } else {
      m := y.procs[i].pc.k;
    }
  }

  lemma ScannerBefore(y: System, a: Action, i: nat, init: nat)
    requires a.i < |y.procs| && i < |y.procs| == |Step(y, a, init).procs| && StateOk(a.i, y.procs[a.i])
    requires Step(y, a, init).procs[i].pc.WaitScan? && Step(y, a, init).procs[i].pc.havekids
    ensures y.procs[i].pc.WaitScan?
    ensures !y.procs[i].pc.havekids ==> y.procs[i].pc.k < |y.procs| && y.procs[y.procs[i].pc.k].parent == i
  {
    hide Step;
    if a.i == i {
      OwnScan(y, a, init);
    } else if a.Visit? {
      StayInVisit(y, a.i, i, init);
    } else {
      OtherScan(y, a, i, init);
    }
  }

  lemma OwnScan(y: System, a: Action, init: nat)
    requires a.i < |y.procs| == |Step(y, a, init).procs|
    requires Step(y, a, init).procs[a.i].pc.WaitScan? && Step(y, a, init).procs[a.i].pc.havekids
    requires y.procs[a.i].pc.Resumed? ==> !y.procs[a.i].pc.at.WaitScan?
    ensures y.procs[a.i].pc.WaitScan?
    ensures !y.procs[a.i].pc.havekids ==> y.procs[a.i].pc.k < |y.procs| && y.procs[y.procs[a.i].pc.k].parent == a.i
  {
    hide Locked;
  }

  lemma OtherScan(y: System, a: Action, i: nat, init: nat)
    requires a.i < |y.procs| && i < |y.procs| == |Step(y, a, init).procs| && a.i != i && !a.Visit?
    requires Step(y, a, init).procs[i].pc.WaitScan?
    ensures Step(y, a, init).procs[i].pc == y.procs[i].pc
  {
    hide Locked;
  }

  /** A step that takes a child away from a scanner ends its scan. */
  lemma ScannerDone(y: System, a: Action, i: nat, init: nat)
    requires a.i == i < |y.procs| == |Step(y, a, init).procs| && y.procs[i].pc.WaitScan?
    requires a == Scan(i, true) && y.procs[i].pc.k < |y.procs|
             && y.procs[y.procs[i].pc.k].parent == i && y.procs[y.procs[i].pc.k].state == ZOMBIE
    requires !Locked(y.procs[y.procs[i].pc.k])
    ensures !Step(y, a, init).procs[i].pc.WaitScan?
  {
  }

  lemma {:induction false} RunsKeepMore(y: System, actions: seq<Action>, init: nat)
    requires Inv(y, init) && UsedForked(y) && KidsSeen(y)
    ensures UsedForked(Run(y, actions, init)) && KidsSeen(Run(y, actions, init))
    decreases |actions|
  {
    hide Step, Inv, UsedForked, KidsSeen;
    if actions != [] {
      StepKeeps(y, actions[0], init);
      UsedStaysForked(y, actions[0], init);
      KidsStaySeen(y, actions[0], init);
      RunsKeepMore(Step(y, actions[0], init), actions[1..], init);
    }
  }

  /** In every reachable state a USED slot is that of a fork under way, from before its
      parent is set to just before it becomes RUNNABLE. */
  lemma UsedIsForked(n: nat, init: nat, actions: seq<Action>, np: nat)
    requires init < n && np < n
    requires var y := Run(Boot(n, init), actions, init); |y.procs| == n && y.procs[np].state == USED
    ensures var y := Run(Boot(n, init), actions, init);
            exists j: nat :: j < n && (Core(y.procs[j].pc) == ForkLink(np) || Core(y.procs[j].pc) == ForkRun(np))
  {
    var y := Run(Boot(n, init), actions, init);
    MoreAtBoot(n, init, actions);
    assert SomeForks(y, np);
    var j: nat :| j < |y.procs| && ForksNow(y.procs[j], np);
  }

  lemma MoreAtBoot(n: nat, init: nat, actions: seq<Action>)
    requires init < n
    ensures UsedForked(Run(Boot(n, init), actions, init)) && KidsSeen(Run(Boot(n, init), actions, init))
  {
    hide Run, Inv;
    BootInv(n, init);
    RunsKeepMore(Boot(n, init), actions, init);
  }

  // ----- kwait

  /** A step out of kwait's loop, in a reachable state: kwait has freed a dead child, or could
      not copy out its status, or it was killed, or it has no children; otherwise it goes to
      sleep. Either way it has given up wait_lock. */
  lemma WaitReturns(n: nat, init: nat, actions: seq<Action>, a: Action, i: nat)
    requires init < n && i < n && a.i < n
    requires var y := Run(Boot(n, init), actions, init);
             |y.procs| == n && y.procs[i].pc.WaitScan? && i < |Step(y, a, init).procs|
             && !Step(y, a, init).procs[i].pc.WaitScan?
    ensures var y := Run(Boot(n, init), actions, init); WaitReturned(y, Step(y, a, init), a, i)
  {
    var y := Run(Boot(n, init), actions, init);
    hide Step, Run, Boot;
    Reachable(n, init, actions);
    MoreAtBoot(n, init, actions);
    LeavesWait(y, a, i, init);
  }

  ghost predicate WaitReturned(y: System, t: System, a: Action, i: nat)
    requires i < |y.procs| && i < |t.procs| && y.procs[i].pc.WaitScan?
  {
    var k := y.procs[i].pc.k;
    && a.i == i && WAIT_LOCK !in t.locks
    && if a.Scan?
       then k < |y.procs| == |t.procs| && y.procs[k].parent == i && y.procs[k].state == ZOMBIE
       && t.procs[i].pc == Normal
            && t.procs[k] == if a.copied then Proc(UNUSED, NoChan, -1, Unborn) else y.procs[k]
       else a.EndScan? && t.procs[i].pc == if a.killed || !HasKids(y, i) then Normal else FallingAsleep(OfProc(i))
  }

  lemma LeavesWait(y: System, a: Action, i: nat, init: nat)
    requires Inv(y, init) && KidsSeen(y) && i < |y.procs| && a.i < |y.procs| && y.procs[i].pc.WaitScan?
    requires i < |Step(y, a, init).procs| && !Step(y, a, init).procs[i].pc.WaitScan?
    ensures WaitReturned(y, Step(y, a, init), a, i)
  {
    hide Step, WaitReturned;
    if a.i != i {
      OthersStay(y, a, i, init);
    }
    if y.procs[i].pc.k >= |y.procs| {
      KidsCounted(y, i, init);
    }
    StateOf(y, i, init);
    hide Inv, KidsSeen;
    OutOfScan(y, a, init);
  }

  /** At the end of the scan havekids tells whether there are children. */
  lemma KidsCounted(y: System, i: nat, init: nat)
    requires Inv(y, init) && KidsSeen(y) && i < |y.procs| && y.procs[i].pc.WaitScan? && y.procs[i].pc.k >= |y.procs|
    ensures y.procs[i].pc.havekids <==> HasKids(y, i)
  {
    hide States, LocksOk, Wakeups, Parents, Exits, Zombies, ForksOk;
  }

  lemma OutOfScan(y: System, a: Action, init: nat)
    requires a.i < |y.procs| && y.procs[a.i].pc.WaitScan? && StateOk(a.i, y.procs[a.i])
    requires a.i < |Step(y, a, init).procs| && !Step(y, a, init).procs[a.i].pc.WaitScan?
    requires y.procs[a.i].pc.k >= |y.procs| ==> (y.procs[a.i].pc.havekids <==> HasKids(y, a.i))
    ensures WaitReturned(y, Step(y, a, init), a, a.i)
  {
    hide Locked, HasKids;
  }
}
