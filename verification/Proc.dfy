/** proc.c as a protocol: sleep and wakeup, fork, exit and wait of any number of
    processes, in steps that split at every acquire, release and switch. A step that its
    locks do not admit yet changes nothing. */
module Proc {
  datatype State = UNUSED | USED | SLEEPING | RUNNABLE | RUNNING | ZOMBIE

  /** A process sleeps in kwait on its own address; any other channel goes with one lock. */
  datatype Chan = NoChan | OfProc(q: nat) | Other(id: nat, lk: nat)

  const WAIT_LOCK: nat := 0

  function LockOf(c: Chan): nat {
    if c.Other? then c.lk + 1 else WAIT_LOCK
  }

  /** Where a kernel thread is. Comments say which of p->lock (its own), the condition
      lock and the CPU it has. */
  datatype Pc =
    | Unborn                      // no thread: the slot is UNUSED, or USED by kfork
    | Fresh                       // never ran
    | Starting                    // p->lock, CPU: first dispatch, before forkret releases
    | Normal                      // CPU
    | Critical(l: nat)            // CPU, lock l
    | Waking(c: Chan, k: nat)     // CPU, lock of c: in wakeup(c), about to visit k
    | FallingAsleep(c: Chan)      // CPU, p->lock: in sleep(c), lock of c released
    | Marked(c: Chan)             // CPU, p->lock: SLEEPING, about to switch
    | Asleep(c: Chan)             // switched away
    | Awake(c: Chan)              // CPU, p->lock: dispatched again
    | Relocking(c: Chan)          // CPU: about to acquire the lock of c
    | Yielding(at: Pc)            // CPU, p->lock: in yield, RUNNABLE, about to switch
    | Yielded(at: Pc)             // switched away
    | Resumed(at: Pc)             // CPU, p->lock: about to go on where the interrupt came
    | ForkLink(np: nat)           // CPU: np allocated, parent not set
    | ForkRun(np: nat)            // CPU: parent set, np not yet RUNNABLE
    | ExitReparent(k: nat)        // CPU, wait_lock: reparent's loop at k
    | ExitWakeInit(k: nat, j: nat)  // CPU, wait_lock: child k given to init, wakeup(init) at j
    | ExitWakeParent(j: nat)      // CPU, wait_lock: wakeup(p->parent) at j
    | Exiting                     // CPU, p->lock: ZOMBIE, about to switch for good
    | Dead                        // switched away
    | WaitScan(k: nat, havekids: bool)  // CPU, wait_lock: kwait's loop at k

  /** Where a thread is, or was when an interrupt made it yield. */
  function Core(pc: Pc): Pc {
    if pc.Yielding? || pc.Yielded? || pc.Resumed? then pc.at else pc
  }

  /** Interrupts come only where no lock is held. */
  predicate Interruptible(pc: Pc) {
    pc.Normal? || pc.ForkLink? || pc.ForkRun? || pc.Relocking?
  }

  datatype Proc = Proc(state: State, chan: Chan, parent: int, pc: Pc)

  const FREE := Proc(UNUSED, NoChan, -1, Unborn)

  /** locks maps each held condition lock to the thread that holds it. */
  datatype System = System(procs: seq<Proc>, locks: map<nat, nat>)

  /** p->lock is held, by p's own thread or for it by the scheduler that switches to it. */
  predicate Locked(p: Proc) {
    p.pc.Starting? || p.pc.FallingAsleep? || p.pc.Marked? || p.pc.Awake? || p.pc.Yielding? || p.pc.Resumed?
    || p.pc.Exiting?
  }

  /** The condition lock a thread holds. */
  predicate Holds(p: Proc, l: nat) {
    match p.pc
    case Critical(m) => m == l
    case Waking(c, _) => LockOf(c) == l
    case ExitReparent(_) => l == WAIT_LOCK
    case ExitWakeInit(_, _) => l == WAIT_LOCK
    case ExitWakeParent(_) => l == WAIT_LOCK
    case WaitScan(_, _) => l == WAIT_LOCK
    case _ => false
  }

  // ----- steps

  datatype Action =
    | Dispatch(i: nat)            // a scheduler picks i: RUNNABLE to RUNNING, and switches
    | Release(i: nat)             // the release of p->lock after a switch back
    | Switch(i: nat)              // sched: swtch, and the scheduler's release of p->lock
    | Lock(i: nat, l: nat)        // acquire of a condition lock other than wait_lock
    | Unlock(i: nat)
    | BeginSleep(i: nat, c: Chan) // sleep: acquire p->lock, release the condition lock
    | Mark(i: nat)                // sleep: chan and state
    | Relock(i: nat)              // sleep: acquire the condition lock again
    | BeginWakeup(i: nat, c: Chan)
    | Visit(i: nat)               // one turn of the loop of the wakeup that i is in
    | Yield(i: nat)               // a timer interrupt, and yield up to its switch
    | Kill(i: nat, k: nat)
    | Alloc(i: nat, np: nat, ok: bool)  // kfork up to the release of np->lock; memory may run out
    | Link(i: nat)                // np->parent = p under wait_lock
    | Launch(i: nat)              // np->state = RUNNABLE
    | BeginExit(i: nat)
    | Reparent(i: nat)            // one turn of reparent's loop, up to its wakeup
    | BecomeZombie(i: nat)        // acquire p->lock, ZOMBIE, release wait_lock
    | BeginWait(i: nat)
    | Scan(i: nat, copied: bool)  // one turn of kwait's loop; copyout may fail
    | EndScan(i: nat, killed: bool)

  function Goto(y: System, i: nat, pc: Pc): System
    requires i < |y.procs|
  {
    y.(procs := y.procs[i := y.procs[i].(pc := pc)])
  }

  function Become(y: System, i: nat, state: State, pc: Pc): System
    requires i < |y.procs|
  {
    y.(procs := y.procs[i := y.procs[i].(state := state, pc := pc)])
  }

  /** The body of wakeup's loop for a process whose lock is free. */
  function Woken(p: Proc, c: Chan): Proc {
    if p.state == SLEEPING && p.chan == c then p.(state := RUNNABLE) else p
  }

  /** Thread i visits k in wakeup(c), unless p->lock of k is held by someone else, and
      goes on to pc. */
  function Visited(y: System, i: nat, c: Chan, k: nat, pc: Pc): System
    requires i < |y.procs| && k < |y.procs|
  {
    if k == i then Goto(y, i, pc)
    else if Locked(y.procs[k]) then y
    else Goto(y.(procs := y.procs[k := Woken(y.procs[k], c)]), i, pc)
  }

  function Step(y: System, a: Action, init: nat): System {
    if a.i >= |y.procs| then y
    else
      var p := y.procs[a.i];
      match a
      case Dispatch(i) => (
        if p.state != RUNNABLE || Locked(p) then y
        else if p.pc.Fresh? then Become(y, i, RUNNING, Starting)
        else if p.pc.Yielded? then Become(y, i, RUNNING, Resumed(p.pc.at))
        else if p.pc.Asleep? then Become(y, i, RUNNING, Awake(p.pc.c))
        else y)
      case Release(i) => (
        if p.pc.Starting? then Goto(y, i, Normal)
        else if p.pc.Resumed? then Goto(y, i, p.pc.at)
        else if p.pc.Awake? then y.(procs := y.procs[i := p.(chan := NoChan, pc := Relocking(p.pc.c))])
        else y)
      case Switch(i) => (
        if p.pc.Marked? then Goto(y, i, Asleep(p.pc.c))
        else if p.pc.Yielding? then Goto(y, i, Yielded(p.pc.at))
        else if p.pc.Exiting? then Goto(y, i, Dead)
        else y)
      case Lock(i, l) =>
        if p.pc.Normal? && l != WAIT_LOCK && l !in y.locks then Goto(y, i, Critical(l)).(locks := y.locks[l := i])
        else y
      case Unlock(i) =>
        if p.pc.Critical? then Goto(y, i, Normal).(locks := y.locks - {p.pc.l}) else y
      case BeginSleep(i, c) =>
        if p.pc.Critical? && c.Other? && LockOf(c) == p.pc.l
        then Goto(y, i, FallingAsleep(c)).(locks := y.locks - {p.pc.l}) else y
      case Mark(i) =>
        if p.pc.FallingAsleep?
        then y.(procs := y.procs[i := p.(state := SLEEPING, chan := p.pc.c, pc := Marked(p.pc.c))]) else y
      case Relock(i) => (
        if !p.pc.Relocking? || LockOf(p.pc.c) in y.locks then y
        else Goto(y, i, if p.pc.c.Other? then Critical(LockOf(p.pc.c)) else WaitScan(0, false))
             .(locks := y.locks[LockOf(p.pc.c) := i]))
      case BeginWakeup(i, c) =>
        if p.pc.Critical? && c.Other? && LockOf(c) == p.pc.l then Goto(y, i, Waking(c, 0)) else y
      case Visit(i) => StepVisit(y, i, init)
      case Yield(i) =>
        if Interruptible(p.pc) then Become(y, i, RUNNABLE, Yielding(p.pc)) else y
      case Kill(i, k) =>
        if p.pc.Normal? && k < |y.procs| && y.procs[k].state == SLEEPING && !Locked(y.procs[k])
        then y.(procs := y.procs[k := y.procs[k].(state := RUNNABLE)]) else y
      case Alloc(i, np, ok) => (
        if !p.pc.Normal? || np >= |y.procs| || y.procs[np].state != UNUSED then y
        else if !ok then y.(procs := y.procs[np := FREE])
        else Goto(y.(procs := y.procs[np := y.procs[np].(state := USED)]), i, ForkLink(np)))
      case Link(i) =>
        if p.pc.ForkLink? && p.pc.np < |y.procs| && WAIT_LOCK !in y.locks
        then Goto(y.(procs := y.procs[p.pc.np := y.procs[p.pc.np].(parent := i)]), i, ForkRun(p.pc.np)) else y
      case Launch(i) =>
        if p.pc.ForkRun? && p.pc.np < |y.procs|
        then Goto(Become(y, p.pc.np, RUNNABLE, Fresh), i, Normal) else y
      case BeginExit(i) =>
        if p.pc.Normal? && i != init && WAIT_LOCK !in y.locks
        then Goto(y, i, ExitReparent(0)).(locks := y.locks[WAIT_LOCK := i]) else y
      case Reparent(i) => (
        if !p.pc.ExitReparent? then y
        else if p.pc.k >= |y.procs| then Goto(y, i, ExitWakeParent(0))
        else if y.procs[p.pc.k].parent != i then Goto(y, i, ExitReparent(p.pc.k + 1))
        else Goto(y.(procs := y.procs[p.pc.k := y.procs[p.pc.k].(parent := init)]), i, ExitWakeInit(p.pc.k, 0)))
      case BecomeZombie(i) =>
        if p.pc.ExitWakeParent? && p.pc.j >= |y.procs|
        then Become(y, i, ZOMBIE, Exiting).(locks := y.locks - {WAIT_LOCK}) else y
      case BeginWait(i) =>
        if p.pc.Normal? && WAIT_LOCK !in y.locks then Goto(y, i, WaitScan(0, false)).(locks := y.locks[WAIT_LOCK := i])
        else y
      case Scan(i, copied) => (
        if !p.pc.WaitScan? || p.pc.k >= |y.procs| then y
        else if y.procs[p.pc.k].parent != i then Goto(y, i, WaitScan(p.pc.k + 1, p.pc.havekids))
        else if Locked(y.procs[p.pc.k]) then y
        else if y.procs[p.pc.k].state != ZOMBIE then Goto(y, i, WaitScan(p.pc.k + 1, true))
        else if !copied then Goto(y, i, Normal).(locks := y.locks - {WAIT_LOCK})
        else Goto(y.(procs := y.procs[p.pc.k := FREE]), i, Normal).(locks := y.locks - {WAIT_LOCK}))
      case EndScan(i, killed) => (
        if !p.pc.WaitScan? || p.pc.k < |y.procs| then y
        else if !p.pc.havekids || killed then Goto(y, i, Normal).(locks := y.locks - {WAIT_LOCK})
        else Goto(y, i, FallingAsleep(OfProc(i))).(locks := y.locks - {WAIT_LOCK}))
  }

  function StepVisit(y: System, i: nat, init: nat): System
    requires i < |y.procs|
  {
    match y.procs[i].pc
    case Waking(c, k) => (
      if k < |y.procs| then Visited(y, i, c, k, Waking(c, k + 1)) else Goto(y, i, Critical(LockOf(c))))
    case ExitWakeInit(k, j) => (
      if j < |y.procs| then Visited(y, i, OfProc(init), j, ExitWakeInit(k, j + 1)) else Goto(y, i, ExitReparent(k + 1)))
    case ExitWakeParent(j) => (
      if j < |y.procs|
      then Visited(y, i, if y.procs[i].parent < 0 then NoChan else OfProc(y.procs[i].parent), j, ExitWakeParent(j + 1))
      else y)
    case _ => y
  }

  // ----- the invariant

  predicate StateOk(i: nat, p: Proc) {
    match p.pc
    case Unborn => (p.state == UNUSED && p.parent == -1) || p.state == USED
    case Fresh => p.state == RUNNABLE
    case Marked(c) => p.state == SLEEPING && p.chan == c && SleepsOn(i, c)
    case Asleep(c) => (p.state == SLEEPING || p.state == RUNNABLE) && p.chan == c && SleepsOn(i, c)
    case FallingAsleep(c) => p.state == RUNNING && SleepsOn(i, c)
    case Awake(c) => p.state == RUNNING && SleepsOn(i, c)
    case Relocking(c) => p.state == RUNNING && SleepsOn(i, c)
    case Waking(c, _) => p.state == RUNNING && c.Other?
    case Yielding(pc) => p.state == RUNNABLE && Interruptible(pc) && (pc.Relocking? ==> SleepsOn(i, pc.c))
    case Yielded(pc) => p.state == RUNNABLE && Interruptible(pc) && (pc.Relocking? ==> SleepsOn(i, pc.c))
    case Resumed(pc) => p.state == RUNNING && Interruptible(pc) && (pc.Relocking? ==> SleepsOn(i, pc.c))
    case Exiting => p.state == ZOMBIE
    case Dead => p.state == ZOMBIE
    case _ => p.state == RUNNING
  }

  predicate SleepsOn(i: nat, c: Chan) {
    c.Other? || c == OfProc(i)
  }

  ghost predicate States(y: System) {
    forall i :: 0 <= i < |y.procs| ==> StateOk(i, y.procs[i])
  }

  ghost predicate LocksOk(y: System) {
    && (forall l :: l in y.locks ==> y.locks[l] < |y.procs| && Holds(y.procs[y.locks[l]], l))
    && (forall i: nat, l: nat :: i < |y.procs| && Holds(y.procs[i], l) ==> HeldBy(y.locks, l, i))
  }

  predicate HeldBy(locks: map<nat, nat>, l: nat, i: nat) {
    l in locks && locks[l] == i
  }

  /** In sleep(c) since it released the condition lock, and not woken yet. */
  predicate InSleep(p: Proc, c: Chan) {
    (p.pc.FallingAsleep? && p.pc.c == c) || (p.pc.Marked? && p.pc.c == c)
    || (p.pc.Asleep? && p.pc.c == c && p.state == SLEEPING)
  }

  /** The channel of the wakeup that p is in, and how many processes it has visited. */
  function WakeupChan(p: Proc, init: nat): Chan {
    match p.pc
    case Waking(c, _) => c
    case ExitWakeInit(_, _) => OfProc(init)
    case ExitWakeParent(_) => if p.parent < 0 then NoChan else OfProc(p.parent)
    case _ => NoChan
  }

  function WakeupAt(p: Proc): nat {
    match p.pc
    case Waking(_, k) => k
    case ExitWakeInit(_, j) => j
    case ExitWakeParent(j) => j
    case _ => 0
  }

  /** A wakeup leaves nobody asleep behind it. */
  ghost predicate Wakeups(y: System, init: nat) {
    forall w, j :: 0 <= w < |y.procs| && 0 <= j < |y.procs| && j < WakeupAt(y.procs[w]) ==>
      !InSleep(y.procs[j], WakeupChan(y.procs[w], init))
  }

  predicate Forks(p: Proc, np: nat) {
    var pc := Core(p.pc);
    (pc.ForkLink? && pc.np == np) || (pc.ForkRun? && pc.np == np)
  }

  predicate ForkTarget(y: System, i: nat, np: nat)
    requires i < |y.procs|
  {
    np < |y.procs| && y.procs[np].state == USED
    && y.procs[np].parent == (if Core(y.procs[i].pc).ForkLink? then -1 else i)
  }

  ghost predicate ForksOk(y: System) {
    && (forall i: nat, np: nat :: i < |y.procs| && Forks(y.procs[i], np) ==> ForkTarget(y, i, np))
    && (forall i: nat, j: nat, np: nat ::
          i < |y.procs| && j < |y.procs| && Forks(y.procs[i], np) && Forks(y.procs[j], np) ==> i == j)
  }

  /** A thread that has not begun to leave for good. */
  predicate Alive(p: Proc) {
    !p.pc.Unborn? && !p.pc.Exiting? && !p.pc.Dead?
  }

  ghost predicate Parents(y: System, init: nat) {
    && init < |y.procs| && Alive(y.procs[init])
    && (forall i :: 0 <= i < |y.procs| && y.procs[i].parent >= 0 ==>
          y.procs[i].parent < |y.procs| && Alive(y.procs[y.procs[i].parent]))
  }

  /** Processes that reparent has passed are not children of i any more. */
  predicate Passed(p: Proc, m: nat) {
    match p.pc
    case ExitReparent(k) => m < k
    case ExitWakeInit(k, _) => m <= k
    case ExitWakeParent(_) => true
    case _ => false
  }

  ghost predicate Exits(y: System, init: nat) {
    && (forall i :: 0 <= i < |y.procs| && Leaving(y.procs[i]) ==> i != init)
    && (forall i, m :: 0 <= i < |y.procs| && 0 <= m < |y.procs| && Passed(y.procs[i], m) ==> y.procs[m].parent != i)
  }

  predicate Leaving(p: Proc) {
    p.pc.ExitReparent? || p.pc.ExitWakeInit? || p.pc.ExitWakeParent?
  }

  ghost predicate Scans(y: System) {
    forall i, m ::
      0 <= i < |y.procs| && 0 <= m < |y.procs| && y.procs[i].pc.WaitScan? && m < y.procs[i].pc.k
      && y.procs[m].parent == i ==>
      y.procs[i].pc.havekids && y.procs[m].state != ZOMBIE
  }

  /** Somebody is on the way to wake init for its new child i. */
  predicate InitIsCalled(y: System, init: nat, i: nat) {
    && WAIT_LOCK in y.locks && y.locks[WAIT_LOCK] < |y.procs|
    && y.procs[y.locks[WAIT_LOCK]].pc.ExitWakeInit?
    && y.procs[y.locks[WAIT_LOCK]].pc.k == i && y.procs[y.locks[WAIT_LOCK]].pc.j <= init
  }

  ghost predicate Zombies(y: System, init: nat) {
    forall i: nat, q: nat ::
      i < |y.procs| && q < |y.procs| && y.procs[i].parent == q && y.procs[i].state == ZOMBIE
      && InSleep(y.procs[q], OfProc(q)) ==>
      q == init && InitIsCalled(y, init, i)
  }

  ghost predicate Inv(y: System, init: nat) {
    States(y) && LocksOk(y) && Wakeups(y, init) && ForksOk(y) && Parents(y, init) && Exits(y, init) && Scans(y)
    && Zombies(y, init)
  }

  // ----- steps that change one thread and make nobody's life harder

  /** p becomes q without falling asleep, dying, or going on in any loop. */
  predicate Calm(i: nat, p: Proc, q: Proc) {
    && StateOk(i, q) && q.parent == p.parent
    && (q.state == ZOMBIE ==> p.state == ZOMBIE) && (Alive(p) ==> Alive(q))
    && WakeupAt(q) == 0 && !q.pc.ExitWakeInit? && !q.pc.ExitWakeParent? && (q.pc.ExitReparent? ==> q.pc.k == 0)
    && (q.pc.WaitScan? ==> q.pc.k == 0) && SameFork(p, q) && !p.pc.ExitWakeInit?
    && (q.pc.FallingAsleep? || q.pc.Marked? || (q.pc.Asleep? && q.state == SLEEPING) ==> InSleep(p, q.pc.c))
  }

  /** q is not in kfork, or where p is in it. */
  predicate SameFork(p: Proc, q: Proc) {
    Core(q.pc) == Core(p.pc) || (!Core(q.pc).ForkLink? && !Core(q.pc).ForkRun?)
  }

  /** Nobody is in kfork with slot np. */
  ghost predicate NotForked(y: System, np: nat) {
    forall j :: 0 <= j < |y.procs| ==> !Forks(y.procs[j], np)
  }

  datatype LockChange = Same | Took(l: nat) | Gave(l: nat)

  /** The lock table after thread i changed from p to q. */
  ghost predicate LockStep(before: map<nat, nat>, after: map<nat, nat>, i: nat, p: Proc, q: Proc, change: LockChange) {
    match change
    case Same => after == before && forall l: nat :: Holds(q, l) <==> Holds(p, l)
    case Took(l) => l !in before && after == before[l := i]
    && forall m: nat :: !Holds(p, m) && (Holds(q, m) <==> m == l)
    case Gave(l) => after == before - {l} && forall m: nat :: !Holds(q, m) && (Holds(p, m) <==> m == l)
  }

  lemma LocksStep(y: System, t: System, i: nat, q: Proc, change: LockChange)
    requires LocksOk(y) && i < |y.procs| && t.procs == y.procs[i := q]
             && LockStep(y.locks, t.locks, i, y.procs[i], q, change)
    ensures LocksOk(t)
  {
    hide Holds;
    assert change.Gave? ==> Holds(y.procs[i], change.l) && HeldBy(y.locks, change.l, i);
    forall j: nat, l: nat | j < |t.procs| && Holds(t.procs[j], l)
      ensures HeldBy(t.locks, l, j)
    {
      assert j != i ==> Holds(y.procs[j], l) && HeldBy(y.locks, l, j);
    }
  }

  lemma CalmKeeps(y: System, t: System, i: nat, q: Proc, change: LockChange, init: nat)
    requires Inv(y, init) && i < |y.procs| && t.procs == y.procs[i := q]
    requires Calm(i, y.procs[i], q) && LockStep(y.locks, t.locks, i, y.procs[i], q, change)
    requires (y.procs[i].state == USED ==> q.state == USED) || NotForked(y, i)
    requires Leaving(q) ==> i != init
    ensures Inv(t, init)
  {
    hide StateOk, Holds, LockStep, LocksOk, Wakeups, ForksOk, Parents, Exits, Scans, Zombies, Calm;
    LocksStep(y, t, i, q, change);
    CalmZombies(y, t, i, q, change, init);
    CalmLoops(y, t, i, q, init);
    CalmFamily(y, t, i, q, init);
  }

  lemma CalmLoops(y: System, t: System, i: nat, q: Proc, init: nat)
    requires i < |y.procs| && t.procs == y.procs[i := q] && Calm(i, y.procs[i], q)
    requires States(y) && Wakeups(y, init) && Scans(y)
    ensures States(t) && Wakeups(t, init) && Scans(t)
  {
    hide StateOk;
  }

  lemma CalmFamily(y: System, t: System, i: nat, q: Proc, init: nat)
    requires i < |y.procs| && t.procs == y.procs[i := q] && Calm(i, y.procs[i], q)
    requires (y.procs[i].state == USED ==> q.state == USED) || NotForked(y, i)
    requires Leaving(q) ==> i != init
    requires ForksOk(y) && Parents(y, init) && Exits(y, init)
    ensures ForksOk(t) && Parents(t, init) && Exits(t, init)
  {
    hide StateOk, ForksOk;
    CalmForks(y, t, i, q);
  }

  lemma CalmForks(y: System, t: System, i: nat, q: Proc)
    requires i < |y.procs| && t.procs == y.procs[i := q] && SameFork(y.procs[i], q) && q.parent == y.procs[i].parent
    requires (y.procs[i].state == USED ==> q.state == USED) || NotForked(y, i)
    requires ForksOk(y)
    ensures ForksOk(t)
  {
    forall j: nat, np: nat | j < |t.procs| && Forks(t.procs[j], np)
      ensures ForkTarget(t, j, np)
    {
      assert Forks(y.procs[j], np) && ForkTarget(y, j, np);
    }
    forall j: nat, k: nat, np: nat | j < |t.procs| && k < |t.procs| && Forks(t.procs[j], np) && Forks(t.procs[k], np)
      ensures j == k
    {
      assert Forks(y.procs[j], np) && Forks(y.procs[k], np);
    }
  }

  lemma CalmZombies(y: System, t: System, i: nat, q: Proc, change: LockChange, init: nat)
    requires LocksOk(y) && Zombies(y, init) && i < |y.procs| && t.procs == y.procs[i := q]
    requires Calm(i, y.procs[i], q) && LockStep(y.locks, t.locks, i, y.procs[i], q, change)
    ensures Zombies(t, init)
  {
    hide StateOk;
    assert change.Gave? ==> Holds(y.procs[i], change.l) && HeldBy(y.locks, change.l, i);
    hide Holds;
  }

  /** What an action of one thread does to the lock table. */
  function ChangeOf(y: System, a: Action): LockChange
    requires a.i < |y.procs|
  {
    var pc := y.procs[a.i].pc;
    match a
    case Lock(_, l) => Took(l)
    case Relock(_) => if pc.Relocking? then Took(LockOf(pc.c)) else Same
    case BeginExit(_) => Took(WAIT_LOCK)
    case BeginWait(_) => Took(WAIT_LOCK)
    case Unlock(_) => if pc.Critical? then Gave(pc.l) else Same
    case Scan(_, _) => Gave(WAIT_LOCK)
    case EndScan(_, _) => Gave(WAIT_LOCK)
    case _ => Same
  }

  predicate Single(a: Action) {
    a.Dispatch? || a.Release? || a.Switch? || a.Mark? || a.BeginWakeup? || a.Yield?
  }

  predicate LockTaking(a: Action) {
    a.Lock? || a.Unlock? || a.Relock? || a.BeginExit? || a.BeginWait?
  }

  ghost predicate CalmStep(y: System, t: System, a: Action)
    requires a.i < |y.procs|
  {
    && |t.procs| == |y.procs| && t.procs == y.procs[a.i := t.procs[a.i]] && Calm(a.i, y.procs[a.i], t.procs[a.i])
    && LockStep(y.locks, t.locks, a.i, y.procs[a.i], t.procs[a.i], ChangeOf(y, a))
    && (y.procs[a.i].state == USED ==> t.procs[a.i].state == USED)
  }

  lemma SingleSteps(y: System, a: Action, init: nat)
    requires States(y) && a.i < |y.procs| && Single(a)
    ensures Step(y, a, init) == y || (CalmStep(y, Step(y, a, init), a) && !Leaving(Step(y, a, init).procs[a.i]))
  {
    if a.Dispatch? || a.Release? || a.Switch? {
      SwitchingSteps(y, a, init);
    } else {
      OtherSingleSteps(y, a, init);
    }
  }

  lemma SwitchingSteps(y: System, a: Action, init: nat)
    requires States(y) && a.i < |y.procs| && (a.Dispatch? || a.Release? || a.Switch?)
    ensures Step(y, a, init) == y || (CalmStep(y, Step(y, a, init), a) && !Leaving(Step(y, a, init).procs[a.i]))
  {
    hide Step;
    if a.Dispatch? {
      DispatchCalm(y, a, init);
    } else if a.Release? {
      ReleaseCalm(y, a, init);
    } else {
      SwitchCalm(y, a, init);
    }
  }

  lemma DispatchCalm(y: System, a: Action, init: nat)
    requires States(y) && a.i < |y.procs| && a.Dispatch?
    ensures Step(y, a, init) == y || (CalmStep(y, Step(y, a, init), a) && !Leaving(Step(y, a, init).procs[a.i]))
  {
    assert StateOk(a.i, y.procs[a.i]);
  }

  lemma ReleaseCalm(y: System, a: Action, init: nat)
    requires States(y) && a.i < |y.procs| && a.Release?
    ensures Step(y, a, init) == y || (CalmStep(y, Step(y, a, init), a) && !Leaving(Step(y, a, init).procs[a.i]))
  {
    assert StateOk(a.i, y.procs[a.i]);
  }

  lemma SwitchCalm(y: System, a: Action, init: nat)
    requires States(y) && a.i < |y.procs| && a.Switch?
    ensures Step(y, a, init) == y || (CalmStep(y, Step(y, a, init), a) && !Leaving(Step(y, a, init).procs[a.i]))
  {
    assert StateOk(a.i, y.procs[a.i]);
  }

  lemma OtherSingleSteps(y: System, a: Action, init: nat)
    requires States(y) && a.i < |y.procs| && (a.Mark? || a.BeginWakeup? || a.Yield?)
    ensures Step(y, a, init) == y || (CalmStep(y, Step(y, a, init), a) && !Leaving(Step(y, a, init).procs[a.i]))
  {
    assert StateOk(a.i, y.procs[a.i]);
  }

  lemma LockingSteps(y: System, a: Action, init: nat)
    requires States(y) && a.i < |y.procs| && LockTaking(a)
    ensures Step(y, a, init) == y
            || (CalmStep(y, Step(y, a, init), a) && (Leaving(Step(y, a, init).procs[a.i]) ==> a.i != init))
  {
    hide Step;
    if a.Relock? {
      RelockCalm(y, a, init);
    } else {
      OtherLockingSteps(y, a, init);
    }
  }

  lemma RelockCalm(y: System, a: Action, init: nat)
    requires States(y) && a.i < |y.procs| && a.Relock?
    ensures Step(y, a, init) == y || (CalmStep(y, Step(y, a, init), a) && !Leaving(Step(y, a, init).procs[a.i]))
  {
    assert StateOk(a.i, y.procs[a.i]);
  }

  lemma OtherLockingSteps(y: System, a: Action, init: nat)
    requires States(y) && a.i < |y.procs| && LockTaking(a) && !a.Relock?
    ensures Step(y, a, init) == y
            || (CalmStep(y, Step(y, a, init), a) && (Leaving(Step(y, a, init).procs[a.i]) ==> a.i != init))
  {
    assert StateOk(a.i, y.procs[a.i]);
  }

  lemma CalmStepKeeps(y: System, a: Action, init: nat)
    requires Inv(y, init) && a.i < |y.procs| && (Single(a) || LockTaking(a))
    ensures Inv(Step(y, a, init), init)
  {
    hide Step, Calm, LockStep, ChangeOf, StateOk;
    if Single(a) {
      SingleSteps(y, a, init);
    } else {
      LockingSteps(y, a, init);
    }
    var t := Step(y, a, init);
    if t != y {
      CalmKeeps(y, t, a.i, t.procs[a.i], ChangeOf(y, a), init);
    }
  }

  lemma KillKeeps(y: System, i: nat, k: nat, init: nat)
    requires Inv(y, init) && i < |y.procs|
    ensures Inv(Step(y, Kill(i, k), init), init)
  {
    hide LocksOk, Wakeups, ForksOk, Parents, Exits, Scans, Zombies;
    var t := Step(y, Kill(i, k), init);
    if t != y {
      assert StateOk(k, y.procs[k]);
      CalmKeeps(y, t, k, t.procs[k], Same, init);
    }
  }

  /** A thread that moved on without a new loop to answer for. */
  ghost predicate MovedOn(p: Proc, q: Proc) {
    && q.parent == p.parent && Alive(p) && Alive(q) && (q.state == ZOMBIE ==> p.state == ZOMBIE)
    && !(q.pc.WaitScan? && q.pc.k > 0) && (Leaving(q) ==> Leaving(p)) && forall m: nat :: Passed(q, m) ==> Passed(p, m)
  }

  lemma FamilyKept(y: System, t: System, i: nat, q: Proc, init: nat)
    requires i < |y.procs| && t.procs == y.procs[i := q] && MovedOn(y.procs[i], q)
    requires Parents(y, init) && Exits(y, init) && Scans(y)
    ensures Parents(t, init) && Exits(t, init) && Scans(t)
  {
    hide Passed, Exits;
    ExitsKept(y, t, i, q, init);
  }

  lemma ExitsKept(y: System, t: System, i: nat, q: Proc, init: nat)
    requires i < |y.procs| && t.procs == y.procs[i := q] && Exits(y, init)
    requires q.parent == y.procs[i].parent && (Leaving(q) ==> Leaving(y.procs[i])) && forall m: nat :: Passed(q, m) ==>
               Passed(y.procs[i], m)
    ensures Exits(t, init)
  {
    hide Passed;
    forall j, m | 0 <= j < |t.procs| && 0 <= m < |t.procs| && Passed(t.procs[j], m)
      ensures t.procs[m].parent != j
    {
      assert Passed(y.procs[j], m);
    }
  }

  // ----- falling asleep

  lemma FallAsleepKeeps(y: System, i: nat, c: Chan, init: nat)
    requires Inv(y, init) && i < |y.procs| && SleepsOn(i, c)
    requires (y.procs[i].pc == Critical(LockOf(c))) || (y.procs[i].pc.WaitScan? && c == OfProc(i))
    requires c == OfProc(i) ==> forall m :: 0 <= m < |y.procs| && y.procs[m].parent == i ==> y.procs[m].state != ZOMBIE
    ensures Inv(Goto(y, i, FallingAsleep(c)).(locks := y.locks - {LockOf(c)}), init)
  {
    hide LocksOk, Wakeups, ForksOk, Parents, Exits, Scans, Zombies;
    var t := Goto(y, i, FallingAsleep(c)).(locks := y.locks - {LockOf(c)});
    assert StateOk(i, y.procs[i]);
    LocksStep(y, t, i, t.procs[i], Gave(LockOf(c)));
    SleepLoops(y, t, i, c, init);
    SleepFamily(y, t, i, c, init);
    SleepZombies(y, t, i, c, init);
  }

  lemma SleepLoops(y: System, t: System, i: nat, c: Chan, init: nat)
    requires i < |y.procs| && t.procs == y.procs[i := y.procs[i].(pc := FallingAsleep(c))] && SleepsOn(i, c)
    requires States(y) && LocksOk(y) && Wakeups(y, init) && Scans(y) && y.procs[i].state == RUNNING
             && Holds(y.procs[i], LockOf(c))
    requires WakeupAt(y.procs[i]) == 0
    ensures States(t) && Wakeups(t, init) && Scans(t)
  {
    forall w, j | 0 <= w < |t.procs| && 0 <= j < |t.procs| && j < WakeupAt(t.procs[w])
      ensures !InSleep(t.procs[j], WakeupChan(t.procs[w], init))
    {
      assert StateOk(w, y.procs[w]);
      assert Holds(y.procs[w], LockOf(WakeupChan(y.procs[w], init)));
      assert WakeupChan(y.procs[w], init) == c ==> w == i;
    }
  }

  lemma SleepFamily(y: System, t: System, i: nat, c: Chan, init: nat)
    requires i < |y.procs| && t.procs == y.procs[i := y.procs[i].(pc := FallingAsleep(c))]
    requires ForksOk(y) && Parents(y, init) && Exits(y, init) && Alive(y.procs[i])
    ensures ForksOk(t) && Parents(t, init) && Exits(t, init)
  {
    hide ForksOk;
    CalmForks(y, t, i, t.procs[i]);
  }

  lemma SleepZombies(y: System, t: System, i: nat, c: Chan, init: nat)
    requires i < |y.procs| && t.procs == y.procs[i := y.procs[i].(pc := FallingAsleep(c))]
    requires LocksOk(y) && Zombies(y, init) && !y.procs[i].pc.ExitWakeInit?
    requires Holds(y.procs[i], LockOf(c)) && t.locks == y.locks - {LockOf(c)}
    requires c == OfProc(i) ==> forall m :: 0 <= m < |y.procs| && y.procs[m].parent == i ==> y.procs[m].state != ZOMBIE
    ensures Zombies(t, init)
  {
  }

  // ----- wakeup's loop

  /** The same wakeup, one process further. */
  predicate Advanced(p: Proc, q: Proc) {
    match p.pc
    case Waking(c, k) => q == p.(pc := Waking(c, k + 1))
    case ExitWakeInit(k, j) => q == p.(pc := ExitWakeInit(k, j + 1))
    case ExitWakeParent(j) => q == p.(pc := ExitWakeParent(j + 1))
    case _ => false
  }

  lemma AdvanceKeeps(y: System, t: System, i: nat, q: Proc, init: nat)
    requires Inv(y, init) && i < |y.procs| && t == y.(procs := y.procs[i := q]) && Advanced(y.procs[i], q)
    requires WakeupAt(y.procs[i]) < |y.procs| && !InSleep(y.procs[WakeupAt(y.procs[i])], WakeupChan(y.procs[i], init))
    ensures Inv(t, init)
  {
    hide LocksOk, ForksOk, Parents, Exits, Scans, Zombies;
    assert StateOk(i, y.procs[i]);
    LocksStep(y, t, i, q, Same);
    CalmForks(y, t, i, q);
    assert Wakeups(t, init);
    FamilyKept(y, t, i, q, init);
    AdvanceZombies(y, t, i, q, init);
  }

  lemma AdvanceZombies(y: System, t: System, i: nat, q: Proc, init: nat)
    requires i < |y.procs| && t == y.(procs := y.procs[i := q]) && Advanced(y.procs[i], q)
    requires Zombies(y, init) && WakeupAt(y.procs[i]) < |y.procs|
    requires !InSleep(y.procs[WakeupAt(y.procs[i])], WakeupChan(y.procs[i], init))
    ensures Zombies(t, init)
  {
  }

  /** Visiting a process whose lock is free leaves it awake, as far as c goes. */
  lemma WokenCalm(i: nat, p: Proc, c: Chan)
    requires StateOk(i, p) && !Locked(p)
    ensures Woken(p, c) == p || (Calm(i, p, Woken(p, c)) && !Leaving(Woken(p, c)))
    ensures !InSleep(Woken(p, c), c) && Woken(p, c).parent == p.parent
    ensures Woken(p, c).state == USED <==> p.state == USED
    ensures forall l: nat :: Holds(Woken(p, c), l) <==> Holds(p, l)
  {
  }

  lemma VisitedKeeps(y: System, i: nat, q: Proc, init: nat)
    requires Inv(y, init) && i < |y.procs| && Advanced(y.procs[i], q) && WakeupAt(y.procs[i]) < |y.procs|
    ensures Inv(Visited(y, i, WakeupChan(y.procs[i], init), WakeupAt(y.procs[i]), q.pc), init)
  {
    hide Inv, Calm, StateOk, Holds, Woken, Locked, InSleep;
    var c, k := WakeupChan(y.procs[i], init), WakeupAt(y.procs[i]);
    StateOf(y, i, init);
    StateOf(y, k, init);
    if k == i {
      AwakeWaker(y, i, c, init);
      AdvanceKeeps(y, Visited(y, i, c, k, q.pc), i, q, init);
    } else if !Locked(y.procs[k]) {
      WokenCalm(k, y.procs[k], c);
      var z := y.(procs := y.procs[k := Woken(y.procs[k], c)]);
      if Woken(y.procs[k], c) != y.procs[k] {
        CalmKeeps(y, z, k, z.procs[k], Same, init);
      } else {
        assert z.procs == y.procs;
      }
      AdvanceKeeps(z, Visited(y, i, c, k, q.pc), i, q, init);
    }
  }

  lemma StateOf(y: System, i: nat, init: nat)
    requires Inv(y, init) && i < |y.procs|
    ensures StateOk(i, y.procs[i])
  {
  }

  lemma AwakeWaker(y: System, i: nat, c: Chan, init: nat)
    requires i < |y.procs| && StateOk(i, y.procs[i])
             && (y.procs[i].pc.Waking? || y.procs[i].pc.ExitWakeInit? || y.procs[i].pc.ExitWakeParent?)
    ensures !InSleep(y.procs[i], c)
  {
  }

  lemma VisitKeeps(y: System, i: nat, init: nat)
    requires Inv(y, init) && i < |y.procs|
    ensures Inv(Step(y, Visit(i), init), init)
  {
    hide Inv, Calm, LockStep, StateOk, Visited;
    StateOf(y, i, init);
    var p := y.procs[i];
    match p.pc {
      case Waking(c, k) =>
        if k < |y.procs| {
          VisitedKeeps(y, i, p.(pc := Waking(c, k + 1)), init);
        } else {
          WakeupEnds(y, i, init);
        }
      case ExitWakeInit(k, j) =>
        if j < |y.procs| {
          VisitedKeeps(y, i, p.(pc := ExitWakeInit(k, j + 1)), init);
        } else {
          InitWakeupEnds(y, i, init);
        }
      case ExitWakeParent(j) =>
        if j < |y.procs| {
          VisitedKeeps(y, i, p.(pc := ExitWakeParent(j + 1)), init);
        }
      case _ =>
    }
  }

  lemma WakeupEnds(y: System, i: nat, init: nat)
    requires Inv(y, init) && i < |y.procs| && y.procs[i].pc.Waking?
    ensures Inv(Goto(y, i, Critical(LockOf(y.procs[i].pc.c))), init)
  {
    hide LocksOk, Wakeups, ForksOk, Parents, Exits, Scans, Zombies;
    var t := Goto(y, i, Critical(LockOf(y.procs[i].pc.c)));
    assert StateOk(i, y.procs[i]);
    CalmKeeps(y, t, i, t.procs[i], Same, init);
  }

  lemma InitWakeupEnds(y: System, i: nat, init: nat)
    requires Inv(y, init) && i < |y.procs| && y.procs[i].pc.ExitWakeInit? && y.procs[i].pc.j >= |y.procs|
    ensures Inv(Goto(y, i, ExitReparent(y.procs[i].pc.k + 1)), init)
  {
    hide LocksOk, ForksOk, Parents, Exits, Scans;
    var t := Goto(y, i, ExitReparent(y.procs[i].pc.k + 1));
    assert StateOk(i, y.procs[i]);
    LocksStep(y, t, i, t.procs[i], Same);
    CalmForks(y, t, i, t.procs[i]);
    FamilyKept(y, t, i, t.procs[i], init);
    assert Zombies(t, init);
  }

  // ----- kfork

  lemma AllocKeeps(y: System, i: nat, np: nat, ok: bool, init: nat)
    requires Inv(y, init) && i < |y.procs|
    ensures Inv(Step(y, Alloc(i, np, ok), init), init)
  {
    hide LocksOk, Wakeups, Parents, Exits, Scans, Zombies, ForksOk;
    if y.procs[i].pc.Normal? && np < |y.procs| && y.procs[np].state == UNUSED {
      assert StateOk(i, y.procs[i]) && StateOk(np, y.procs[np]);
      FreeNotForked(y, np);
      if !ok {
        CalmKeeps(y, y.(procs := y.procs[np := FREE]), np, FREE, Same, init);
        return;
      }
      var z := y.(procs := y.procs[np := y.procs[np].(state := USED)]);
      CalmKeeps(y, z, np, z.procs[np], Same, init);
      assert NotForked(z, np);
      ForkBegins(z, i, np, init);
    }
  }

  lemma FreeNotForked(y: System, np: nat)
    requires ForksOk(y) && np < |y.procs| && y.procs[np].state == UNUSED
    ensures NotForked(y, np)
  {
    assert forall j: nat :: j < |y.procs| && Forks(y.procs[j], np) ==> ForkTarget(y, j, np);
  }

  lemma ForkBegins(y: System, i: nat, np: nat, init: nat)
    requires Inv(y, init) && i < |y.procs| && np < |y.procs| && y.procs[i].pc.Normal? && NotForked(y, np)
    requires y.procs[np].state == USED && y.procs[np].parent == -1
    ensures Inv(Goto(y, i, ForkLink(np)), init)
  {
    hide LocksOk, Parents, Exits, Scans, ForksOk;
    var t := Goto(y, i, ForkLink(np));
    LocksStep(y, t, i, t.procs[i], Same);
    FamilyKept(y, t, i, t.procs[i], init);
    ForkBeginsForks(y, t, i, np);
    assert StateOk(i, y.procs[i]);
  }

  lemma ForkBeginsForks(y: System, t: System, i: nat, np: nat)
    requires i < |y.procs| && np < |y.procs| && y.procs[i].pc.Normal? && NotForked(y, np) && y.procs[i].state == RUNNING
    requires y.procs[np].state == USED && y.procs[np].parent == -1
    requires ForksOk(y) && t == Goto(y, i, ForkLink(np))
    ensures ForksOk(t)
  {
    forall j: nat, m: nat | j < |t.procs| && Forks(t.procs[j], m)
      ensures ForkTarget(t, j, m)
    {
      assert j != i ==> Forks(y.procs[j], m) && ForkTarget(y, j, m);
    }
    forall j: nat, k: nat, m: nat | j < |t.procs| && k < |t.procs| && Forks(t.procs[j], m) && Forks(t.procs[k], m)
      ensures j == k
    {
      assert j != i ==> Forks(y.procs[j], m);
      assert k != i ==> Forks(y.procs[k], m);
    }
  }

  lemma LinkKeeps(y: System, i: nat, init: nat)
    requires Inv(y, init) && i < |y.procs|
    ensures Inv(Step(y, Link(i), init), init)
  {
    hide LocksOk, ForksOk, Parents, Exits, Scans, Zombies, Wakeups;
    var p := y.procs[i];
    if p.pc.ForkLink? && p.pc.np < |y.procs| && WAIT_LOCK !in y.locks {
      var np := p.pc.np;
      LinkTarget(y, i, init);
      var z := y.(procs := y.procs[np := y.procs[np].(parent := i)]);
      var t := Goto(z, i, ForkRun(np));
      LinkForks(y, t, i, np);
      LinkParents(y, t, i, np, init);
      LinkExits(y, t, i, np, init);
      LinkScans(y, t, i, np);
      LinkRest(y, t, i, np, init);
    }
  }

  ghost predicate Linking(y: System, t: System, i: nat, np: nat) {
    && i < |y.procs| && np < |y.procs| && i != np && y.procs[i].pc == ForkLink(np) && y.procs[np].state == USED
    && y.procs[np].parent == -1
    && y.procs[np].pc.Unborn? && y.procs[i].state == RUNNING
    && t == y.(procs := y.procs[np := y.procs[np].(parent := i)][i := y.procs[i].(pc := ForkRun(np))])
  }

  lemma LinkTarget(y: System, i: nat, init: nat)
    requires Inv(y, init) && i < |y.procs| && y.procs[i].pc.ForkLink?
    ensures var np := y.procs[i].pc.np;
            np < |y.procs| && i != np && y.procs[np].state == USED && y.procs[np].parent == -1 && y.procs[np].pc.Unborn?
            && y.procs[i].state == RUNNING
  {
    var np := y.procs[i].pc.np;
    assert Forks(y.procs[i], np) && ForkTarget(y, i, np) && StateOk(i, y.procs[i]) && StateOk(np, y.procs[np]);
  }

  lemma LinkForks(y: System, t: System, i: nat, np: nat)
    requires Linking(y, t, i, np) && ForksOk(y)
    ensures ForksOk(t)
  {
    assert Forks(y.procs[i], np);
    forall j: nat, m: nat | j < |t.procs| && Forks(t.procs[j], m)
      ensures ForkTarget(t, j, m)
    {
      assert Forks(y.procs[j], m) && ForkTarget(y, j, m);
    }
    forall j: nat, k: nat, m: nat | j < |t.procs| && k < |t.procs| && Forks(t.procs[j], m) && Forks(t.procs[k], m)
      ensures j == k
    {
      assert Forks(y.procs[j], m) && Forks(y.procs[k], m);
    }
  }

  lemma LinkParents(y: System, t: System, i: nat, np: nat, init: nat)
    requires Linking(y, t, i, np) && Parents(y, init)
    ensures Parents(t, init)
  {
  }

  lemma LinkExits(y: System, t: System, i: nat, np: nat, init: nat)
    requires Linking(y, t, i, np) && Exits(y, init)
    ensures Exits(t, init)
  {
    forall j, m | 0 <= j < |t.procs| && 0 <= m < |t.procs| && Passed(t.procs[j], m)
      ensures t.procs[m].parent != j
    {
      assert Passed(y.procs[j], m);
    }
  }

  lemma LinkScans(y: System, t: System, i: nat, np: nat)
    requires Linking(y, t, i, np) && Scans(y)
    ensures Scans(t)
  {
  }

  lemma LinkRest(y: System, t: System, i: nat, np: nat, init: nat)
    requires Linking(y, t, i, np) && States(y) && LocksOk(y) && Wakeups(y, init) && Zombies(y, init)
    ensures States(t) && LocksOk(t) && Wakeups(t, init) && Zombies(t, init)
  {
    hide LocksOk, Zombies;
    LinkLocks(y, t, i, np);
    LinkZombies(y, t, i, np, init);
  }

  lemma LinkLocks(y: System, t: System, i: nat, np: nat)
    requires Linking(y, t, i, np) && LocksOk(y)
    ensures LocksOk(t)
  {
    assert forall j, l: nat :: 0 <= j < |t.procs| ==> (Holds(t.procs[j], l) <==> Holds(y.procs[j], l));
  }

  lemma LinkZombies(y: System, t: System, i: nat, np: nat, init: nat)
    requires Linking(y, t, i, np) && Zombies(y, init)
    ensures Zombies(t, init)
  {
  }

  lemma LaunchKeeps(y: System, i: nat, init: nat)
    requires Inv(y, init) && i < |y.procs|
    ensures Inv(Step(y, Launch(i), init), init)
  {
    hide LocksOk, ForksOk, Parents, Exits, Scans, Zombies, Wakeups;
    var p := y.procs[i];
    if p.pc.ForkRun? && p.pc.np < |y.procs| {
      var np := p.pc.np;
      LaunchTarget(y, i, init);
      var z := Goto(y, i, Normal);
      CalmKeeps(y, z, i, z.procs[i], Same, init);
      var t := Become(z, np, RUNNABLE, Fresh);
      CalmKeeps(z, t, np, t.procs[np], Same, init);
      assert t.procs == Goto(Become(y, np, RUNNABLE, Fresh), i, Normal).procs;
    }
  }

  lemma LaunchTarget(y: System, i: nat, init: nat)
    requires Inv(y, init) && i < |y.procs| && y.procs[i].pc.ForkRun?
    ensures var np := y.procs[i].pc.np;
            np < |y.procs| && i != np && y.procs[np].state == USED && y.procs[np].pc.Unborn?
            && y.procs[i].state == RUNNING
            && NotForked(Goto(y, i, Normal), np)
  {
    var np := y.procs[i].pc.np;
    assert Forks(y.procs[i], np) && ForkTarget(y, i, np) && StateOk(i, y.procs[i]) && StateOk(np, y.procs[np]);
    forall j: nat | j < |y.procs|
      ensures !Forks(Goto(y, i, Normal).procs[j], np)
    {
      if j != i && Forks(y.procs[j], np) {
        assert false;
      }
    }
  }

  // ----- kexit

  /** reparent's loop goes past processes that are not children of i. */
  lemma PassKeeps(y: System, i: nat, pc: Pc, init: nat)
    requires Inv(y, init) && i < |y.procs| && y.procs[i].pc.ExitReparent?
    requires pc == ExitReparent(y.procs[i].pc.k + 1) || pc == ExitWakeParent(0)
    requires forall m: nat :: m < |y.procs| && (pc.ExitWakeParent? || m <= y.procs[i].pc.k) && m >= y.procs[i].pc.k ==>
               y.procs[m].parent != i
    ensures Inv(Goto(y, i, pc), init)
  {
    hide LocksOk, ForksOk, Parents, Exits, Scans, Zombies, Wakeups;
    var t := Goto(y, i, pc);
    assert StateOk(i, y.procs[i]);
    LocksStep(y, t, i, t.procs[i], Same);
    CalmForks(y, t, i, t.procs[i]);
    PassFamily(y, t, i, pc, init);
    PassRest(y, t, i, pc, init);
  }

  lemma PassFamily(y: System, t: System, i: nat, pc: Pc, init: nat)
    requires Parents(y, init) && Exits(y, init) && Scans(y) && i < |y.procs| && y.procs[i].pc.ExitReparent?
             && t == Goto(y, i, pc)
    requires pc == ExitReparent(y.procs[i].pc.k + 1) || pc == ExitWakeParent(0)
    requires forall m: nat :: m < |y.procs| && (pc.ExitWakeParent? || m <= y.procs[i].pc.k) && m >= y.procs[i].pc.k ==>
               y.procs[m].parent != i
    ensures Parents(t, init) && Exits(t, init) && Scans(t)
  {
    hide Exits;
    PassExits(y, t, i, pc, init);
  }

  lemma PassExits(y: System, t: System, i: nat, pc: Pc, init: nat)
    requires Exits(y, init) && i < |y.procs| && y.procs[i].pc.ExitReparent? && t == Goto(y, i, pc)
    requires pc == ExitReparent(y.procs[i].pc.k + 1) || pc == ExitWakeParent(0)
    requires forall m: nat :: m < |y.procs| && (pc.ExitWakeParent? || m <= y.procs[i].pc.k) && m >= y.procs[i].pc.k ==>
               y.procs[m].parent != i
    ensures Exits(t, init)
  {
    assert Leaving(y.procs[i]);
    forall j, m | 0 <= j < |t.procs| && 0 <= m < |t.procs| && Passed(t.procs[j], m)
      ensures t.procs[m].parent != j
    {
      assert j == i && m < y.procs[i].pc.k ==> Passed(y.procs[i], m);
      assert j != i ==> Passed(y.procs[j], m);
    }
  }

  lemma PassRest(y: System, t: System, i: nat, pc: Pc, init: nat)
    requires States(y) && Wakeups(y, init) && Zombies(y, init) && i < |y.procs| && y.procs[i].pc.ExitReparent?
             && t == Goto(y, i, pc)
    requires pc == ExitReparent(y.procs[i].pc.k + 1) || pc == ExitWakeParent(0)
    ensures States(t) && Wakeups(t, init) && Zombies(t, init)
  {
    hide Zombies;
    assert StateOk(i, y.procs[i]);
    PassZombies(y, t, i, pc, init);
  }

  lemma PassZombies(y: System, t: System, i: nat, pc: Pc, init: nat)
    requires Zombies(y, init) && i < |y.procs| && y.procs[i].pc.ExitReparent? && t == Goto(y, i, pc)
    requires pc == ExitReparent(y.procs[i].pc.k + 1) || pc == ExitWakeParent(0)
    ensures Zombies(t, init)
  {
  }

  ghost predicate Giving(y: System, t: System, i: nat, k: nat, init: nat) {
    && i < |y.procs| && k < |y.procs| && y.procs[i].pc == ExitReparent(k) && y.procs[k].parent == i
    && y.procs[i].state == RUNNING
    && |t.procs| == |y.procs| && t.locks == y.locks
    && (forall j :: 0 <= j < |y.procs| ==>
          t.procs[j] == y.procs[j].(parent := if j == k then init else y.procs[j].parent,
                                    pc := if j == i then ExitWakeInit(k, 0) else y.procs[j].pc))
  }

  lemma ReparentKeeps(y: System, i: nat, init: nat)
    requires Inv(y, init) && i < |y.procs|
    ensures Inv(Step(y, Reparent(i), init), init)
  {
    hide LocksOk, ForksOk, Parents, Exits, Scans, Zombies, Wakeups;
    var p := y.procs[i];
    if p.pc.ExitReparent? {
      if p.pc.k >= |y.procs| {
        PassKeeps(y, i, ExitWakeParent(0), init);
      } else if y.procs[p.pc.k].parent != i {
        PassKeeps(y, i, ExitReparent(p.pc.k + 1), init);
      } else {
        var t := Step(y, Reparent(i), init);
        assert StateOk(i, p);
        assert Giving(y, t, i, p.pc.k, init);
        GiveLocks(y, t, i, p.pc.k, init);
        GiveStates(y, t, i, p.pc.k, init);
        GiveForks(y, t, i, p.pc.k, init);
        GiveParents(y, t, i, p.pc.k, init);
        GiveExits(y, t, i, p.pc.k, init);
        GiveScans(y, t, i, p.pc.k, init);
        GiveZombies(y, t, i, p.pc.k, init);
      }
    }
  }

  lemma GiveLocks(y: System, t: System, i: nat, k: nat, init: nat)
    requires Giving(y, t, i, k, init) && LocksOk(y)
    ensures LocksOk(t)
  {
    assert forall j, l: nat :: 0 <= j < |t.procs| ==> (Holds(t.procs[j], l) <==> Holds(y.procs[j], l));
  }

  lemma GiveStates(y: System, t: System, i: nat, k: nat, init: nat)
    requires Giving(y, t, i, k, init) && States(y) && LocksOk(y) && Wakeups(y, init)
    ensures States(t) && Wakeups(t, init)
  {
    hide States, Wakeups, StateOk;
    OneExit(y, i, k);
    hide LocksOk;
    GiveEachState(y, t, i, k, init);
    GiveWakeups(y, t, i, k, init);
  }

  /** While one process is in reparent, no other is further in its exit. */
  lemma OneExit(y: System, i: nat, k: nat)
    requires LocksOk(y) && i < |y.procs| && k < |y.procs| && y.procs[i].pc.ExitReparent?
    ensures !y.procs[k].pc.ExitWakeParent?
  {
    assert Holds(y.procs[i], WAIT_LOCK);
    assert y.procs[k].pc.ExitWakeParent? ==> Holds(y.procs[k], WAIT_LOCK);
  }

  lemma GiveEachState(y: System, t: System, i: nat, k: nat, init: nat)
    requires Giving(y, t, i, k, init) && States(y)
    ensures States(t)
  {
    forall j | 0 <= j < |t.procs|
      ensures StateOk(j, t.procs[j])
    {
      assert StateOk(j, y.procs[j]);
    }
  }

  lemma GiveWakeups(y: System, t: System, i: nat, k: nat, init: nat)
    requires Giving(y, t, i, k, init) && Wakeups(y, init) && !y.procs[k].pc.ExitWakeParent?
    ensures Wakeups(t, init)
  {
    forall w, j | 0 <= w < |t.procs| && 0 <= j < |t.procs| && j < WakeupAt(t.procs[w])
      ensures !InSleep(t.procs[j], WakeupChan(t.procs[w], init))
    {
      assert w != i;
    }
  }

  lemma GiveForks(y: System, t: System, i: nat, k: nat, init: nat)
    requires Giving(y, t, i, k, init) && ForksOk(y)
    ensures ForksOk(t)
  {
    forall j: nat, m: nat | j < |t.procs| && Forks(t.procs[j], m)
      ensures ForkTarget(t, j, m)
    {
      assert Forks(y.procs[j], m) && ForkTarget(y, j, m);
    }
    forall j: nat, j': nat, m: nat | j < |t.procs| && j' < |t.procs| && Forks(t.procs[j], m) && Forks(t.procs[j'], m)
      ensures j == j'
    {
      assert Forks(y.procs[j], m) && Forks(y.procs[j'], m);
    }
  }

  lemma GiveParents(y: System, t: System, i: nat, k: nat, init: nat)
    requires Giving(y, t, i, k, init) && Parents(y, init)
    ensures Parents(t, init)
  {
  }

  lemma GiveExits(y: System, t: System, i: nat, k: nat, init: nat)
    requires Giving(y, t, i, k, init) && Exits(y, init)
    ensures Exits(t, init)
  {
    assert Leaving(y.procs[i]);
    forall j, m | 0 <= j < |t.procs| && 0 <= m < |t.procs| && Passed(t.procs[j], m)
      ensures t.procs[m].parent != j
    {
      assert Leaving(t.procs[j]) && Leaving(y.procs[j]);
      assert j != i || m != k ==> Passed(y.procs[j], m);
    }
  }

  lemma GiveScans(y: System, t: System, i: nat, k: nat, init: nat)
    requires Giving(y, t, i, k, init) && Scans(y) && LocksOk(y)
    ensures Scans(t)
  {
    assert Holds(y.procs[i], WAIT_LOCK);
    assert forall j :: 0 <= j < |t.procs| && t.procs[j].pc.WaitScan? ==> Holds(y.procs[j], WAIT_LOCK);
  }

  lemma GiveZombies(y: System, t: System, i: nat, k: nat, init: nat)
    requires Giving(y, t, i, k, init) && Zombies(y, init) && LocksOk(y) && init < |y.procs|
    ensures Zombies(t, init)
  {
    assert Holds(y.procs[i], WAIT_LOCK) && HeldBy(y.locks, WAIT_LOCK, i);
    hide LocksOk;
  }

  lemma BecomeZombieKeeps(y: System, i: nat, init: nat)
    requires Inv(y, init) && i < |y.procs|
    ensures Inv(Step(y, BecomeZombie(i), init), init)
  {
    hide LocksOk, ForksOk, Parents, Exits, Scans, Zombies, Wakeups;
    var p := y.procs[i];
    if p.pc.ExitWakeParent? && p.pc.j >= |y.procs| {
      var t := Become(y, i, ZOMBIE, Exiting).(locks := y.locks - {WAIT_LOCK});
      assert StateOk(i, p);
      LocksStep(y, t, i, t.procs[i], Gave(WAIT_LOCK));
      CalmForks(y, t, i, t.procs[i]);
      DyingFamily(y, t, i, init);
      DyingScans(y, t, i, init);
      DyingZombies(y, t, i, init);
    }
  }

  ghost predicate Dying(y: System, t: System, i: nat) {
    && i < |y.procs| && y.procs[i].pc.ExitWakeParent? && y.procs[i].pc.j >= |y.procs|
    && t == Become(y, i, ZOMBIE, Exiting).(locks := y.locks - {WAIT_LOCK})
  }

  lemma DyingFamily(y: System, t: System, i: nat, init: nat)
    requires Dying(y, t, i) && Parents(y, init) && Exits(y, init)
    ensures Parents(t, init) && Exits(t, init)
  {
    assert Leaving(y.procs[i]);
    assert forall m :: 0 <= m < |y.procs| ==> Passed(y.procs[i], m);
    forall j, m | 0 <= j < |t.procs| && 0 <= m < |t.procs| && Passed(t.procs[j], m)
      ensures t.procs[m].parent != j
    {
      assert Passed(y.procs[j], m);
    }
  }

  lemma DyingScans(y: System, t: System, i: nat, init: nat)
    requires Dying(y, t, i) && LocksOk(y) && Scans(y) && States(y) && Wakeups(y, init)
    ensures Scans(t) && States(t) && Wakeups(t, init)
  {
    hide States, Wakeups, Scans;
    DyingNoScan(y, t, i);
    hide LocksOk;
    DyingWakeups(y, t, i, init);
  }

  lemma DyingNoScan(y: System, t: System, i: nat)
    requires Dying(y, t, i) && LocksOk(y) && States(y)
    ensures Scans(t) && States(t)
  {
    assert Holds(y.procs[i], WAIT_LOCK);
    forall j | 0 <= j < |y.procs|
      ensures !y.procs[j].pc.WaitScan?
    {
      assert y.procs[j].pc.WaitScan? ==> Holds(y.procs[j], WAIT_LOCK);
    }
    forall j | 0 <= j < |t.procs|
      ensures StateOk(j, t.procs[j])
    {
      assert StateOk(j, y.procs[j]);
    }
  }

  lemma DyingWakeups(y: System, t: System, i: nat, init: nat)
    requires Dying(y, t, i) && Wakeups(y, init)
    ensures Wakeups(t, init)
  {
  }

  /** The parent of a new zombie was woken before; nobody else's child is new. */
  lemma DyingZombies(y: System, t: System, i: nat, init: nat)
    requires Dying(y, t, i) && LocksOk(y) && Zombies(y, init) && Wakeups(y, init)
    ensures Zombies(t, init)
  {
    assert Holds(y.procs[i], WAIT_LOCK) && HeldBy(y.locks, WAIT_LOCK, i);
    assert forall m: nat :: !InitIsCalled(y, init, m);
    hide LocksOk;
  }

  // ----- kwait

  lemma ScanKeeps(y: System, i: nat, copied: bool, init: nat)
    requires Inv(y, init) && i < |y.procs|
    ensures Inv(Step(y, Scan(i, copied), init), init)
  {
    hide LocksOk, ForksOk, Parents, Exits, Scans, Zombies, Wakeups;
    var p := y.procs[i];
    if p.pc.WaitScan? && p.pc.k < |y.procs| {
      var k := p.pc.k;
      assert StateOk(i, p) && StateOk(k, y.procs[k]);
      if y.procs[k].parent != i {
        ScanOnKeeps(y, i, p.pc.havekids, init);
      } else if !Locked(y.procs[k]) {
        if y.procs[k].state != ZOMBIE {
          ScanOnKeeps(y, i, true, init);
        } else {
          var z := Goto(y, i, Normal).(locks := y.locks - {WAIT_LOCK});
          CalmKeeps(y, z, i, z.procs[i], Gave(WAIT_LOCK), init);
          if copied {
            FreeKeeps(z, k, init);
            assert Step(y, Scan(i, copied), init).procs == z.procs[k := FREE];
          }
        }
      }
    }
  }

  lemma ScanOnKeeps(y: System, i: nat, havekids: bool, init: nat)
    requires Inv(y, init) && i < |y.procs| && y.procs[i].pc.WaitScan? && y.procs[i].pc.k < |y.procs|
    requires y.procs[i].pc.havekids ==> havekids
    requires y.procs[y.procs[i].pc.k].parent == i ==> havekids && y.procs[y.procs[i].pc.k].state != ZOMBIE
    ensures Inv(Goto(y, i, WaitScan(y.procs[i].pc.k + 1, havekids)), init)
  {
    hide LocksOk, ForksOk, Parents, Exits, Zombies;
    var t := Goto(y, i, WaitScan(y.procs[i].pc.k + 1, havekids));
    assert StateOk(i, y.procs[i]);
    LocksStep(y, t, i, t.procs[i], Same);
    CalmForks(y, t, i, t.procs[i]);
    ScanOnFamily(y, t, i, havekids, init);
  }

  lemma ScanOnFamily(y: System, t: System, i: nat, havekids: bool, init: nat)
    requires Parents(y, init) && Exits(y, init) && Zombies(y, init) && i < |y.procs| && y.procs[i].pc.WaitScan?
    requires t == Goto(y, i, WaitScan(y.procs[i].pc.k + 1, havekids))
    ensures Parents(t, init) && Exits(t, init) && Zombies(t, init)
  {
    hide Exits, Zombies;
    ScanOnExits(y, t, i, havekids, init);
    ScanOnZombies(y, t, i, havekids, init);
  }

  lemma ScanOnExits(y: System, t: System, i: nat, havekids: bool, init: nat)
    requires Exits(y, init) && i < |y.procs| && y.procs[i].pc.WaitScan?
             && t == Goto(y, i, WaitScan(y.procs[i].pc.k + 1, havekids))
    ensures Exits(t, init)
  {
    hide Exits;
    ExitsKept(y, t, i, t.procs[i], init);
  }

  lemma ScanOnZombies(y: System, t: System, i: nat, havekids: bool, init: nat)
    requires Zombies(y, init) && i < |y.procs| && y.procs[i].pc.WaitScan?
             && t == Goto(y, i, WaitScan(y.procs[i].pc.k + 1, havekids))
    ensures Zombies(t, init)
  {
  }

  /** freeproc of a dead process: it has no children and no CPU. */
  lemma FreeKeeps(y: System, k: nat, init: nat)
    requires Inv(y, init) && k < |y.procs| && y.procs[k].pc.Dead?
    ensures Inv(y.(procs := y.procs[k := FREE]), init)
  {
    hide LocksOk, ForksOk, Parents, Exits, Zombies;
    var t := y.(procs := y.procs[k := FREE]);
    assert StateOk(k, y.procs[k]);
    LocksStep(y, t, k, FREE, Same);
    FreeForks(y, t, k);
    FreeExits(y, t, k, init);
    FreeFamily(y, t, k, init);
  }

  lemma FreeForks(y: System, t: System, k: nat)
    requires k < |y.procs| && t == y.(procs := y.procs[k := FREE]) && ForksOk(y) && y.procs[k].state == ZOMBIE
    ensures ForksOk(t)
  {
    forall j: nat, np: nat | j < |t.procs| && Forks(t.procs[j], np)
      ensures ForkTarget(t, j, np)
    {
      assert Forks(y.procs[j], np) && ForkTarget(y, j, np);
    }
    forall j: nat, j': nat, np: nat | j < |t.procs| && j' < |t.procs| && Forks(t.procs[j], np) && Forks(t.procs[j'], np)
      ensures j == j'
    {
      assert Forks(y.procs[j], np) && Forks(y.procs[j'], np);
    }
  }

  lemma FreeExits(y: System, t: System, k: nat, init: nat)
    requires k < |y.procs| && t == y.(procs := y.procs[k := FREE]) && Exits(y, init)
    ensures Exits(t, init)
  {
    forall j, m | 0 <= j < |t.procs| && 0 <= m < |t.procs| && Passed(t.procs[j], m)
      ensures t.procs[m].parent != j
    {
      assert Passed(y.procs[j], m);
    }
  }

  lemma FreeFamily(y: System, t: System, k: nat, init: nat)
    requires k < |y.procs| && t == y.(procs := y.procs[k := FREE]) && y.procs[k].pc.Dead?
    requires Parents(y, init) && Zombies(y, init)
    ensures Parents(t, init) && Zombies(t, init)
  {
    FreeParents(y, t, k, init);
    FreeZombies(y, t, k, init);
  }

  lemma FreeParents(y: System, t: System, k: nat, init: nat)
    requires k < |y.procs| && t == y.(procs := y.procs[k := FREE]) && y.procs[k].pc.Dead? && Parents(y, init)
    ensures Parents(t, init)
  {
    forall i | 0 <= i < |t.procs| && t.procs[i].parent >= 0
      ensures t.procs[i].parent < |t.procs| && Alive(t.procs[t.procs[i].parent])
    {
      assert i != k && Alive(y.procs[y.procs[i].parent]);
    }
  }

  lemma FreeZombies(y: System, t: System, k: nat, init: nat)
    requires k < |y.procs| && t == y.(procs := y.procs[k := FREE]) && y.procs[k].pc.Dead? && Zombies(y, init)
    ensures Zombies(t, init)
  {
    forall i: nat, q: nat | i < |t.procs| && q < |t.procs| && t.procs[i].parent == q && t.procs[i].state == ZOMBIE
      && InSleep(t.procs[q], OfProc(q))
      ensures q == init && InitIsCalled(t, init, i)
    {
      assert i != k && q != k && InSleep(y.procs[q], OfProc(q)) && InitIsCalled(y, init, i);
    }
  }

  lemma EndScanKeeps(y: System, i: nat, killed: bool, init: nat)
    requires Inv(y, init) && i < |y.procs|
    ensures Inv(Step(y, EndScan(i, killed), init), init)
  {
    hide LocksOk, ForksOk, Parents, Exits, Zombies, Wakeups;
    var p := y.procs[i];
    if p.pc.WaitScan? && p.pc.k >= |y.procs| {
      assert StateOk(i, p);
      if !p.pc.havekids || killed {
        var t := Goto(y, i, Normal).(locks := y.locks - {WAIT_LOCK});
        CalmKeeps(y, t, i, t.procs[i], Gave(WAIT_LOCK), init);
      } else {
        FallAsleepKeeps(y, i, OfProc(i), init);
      }
    }
  }

  lemma BeginSleepKeeps(y: System, i: nat, c: Chan, init: nat)
    requires Inv(y, init) && i < |y.procs|
    ensures Inv(Step(y, BeginSleep(i, c), init), init)
  {
    hide LocksOk, ForksOk, Parents, Exits, Zombies, Wakeups, Scans, States;
    if y.procs[i].pc.Critical? && c.Other? && LockOf(c) == y.procs[i].pc.l {
      FallAsleepKeeps(y, i, c, init);
    }
  }

  // ----- runs

  lemma StepKeeps(y: System, a: Action, init: nat)
    requires Inv(y, init)
    ensures Inv(Step(y, a, init), init)
  {
    hide Inv;
    if a.i < |y.procs| {
      match a {
        case BeginSleep(i, c) => BeginSleepKeeps(y, i, c, init);
        case Visit(i) => VisitKeeps(y, i, init);
        case Kill(i, k) => KillKeeps(y, i, k, init);
        case Alloc(i, np, ok) => AllocKeeps(y, i, np, ok, init);
        case Link(i) => LinkKeeps(y, i, init);
        case Launch(i) => LaunchKeeps(y, i, init);
        case Reparent(i) => ReparentKeeps(y, i, init);
        case BecomeZombie(i) => BecomeZombieKeeps(y, i, init);
        case Scan(i, copied) => ScanKeeps(y, i, copied, init);
        case EndScan(i, killed) => EndScanKeeps(y, i, killed, init);
        case _ => CalmStepKeeps(y, a, init);
      }
    }
  }

  /** The table after userinit: init waits for its first dispatch, the rest is free. */
  function Boot(n: nat, init: nat): System {
    System(seq(n, i => if i == init then Proc(RUNNABLE, NoChan, -1, Fresh) else FREE), map[])
  }

  function Run(y: System, actions: seq<Action>, init: nat): System
    decreases |actions|
  {
    if actions == [] then y else Run(Step(y, actions[0], init), actions[1..], init)
  }

  lemma {:induction false} RunsKeepInv(y: System, actions: seq<Action>, init: nat)
    requires Inv(y, init)
    ensures Inv(Run(y, actions, init), init)
    decreases |actions|
  {
    if actions != [] {
      StepKeeps(y, actions[0], init);
      RunsKeepInv(Step(y, actions[0], init), actions[1..], init);
    }
  }

  lemma Reachable(n: nat, init: nat, actions: seq<Action>)
    requires init < n
    ensures Inv(Run(Boot(n, init), actions, init), init)
  {
    hide Step, Run;
    BootInv(n, init);
    hide Inv, Boot;
    RunsKeepInv(Boot(n, init), actions, init);
  }

  lemma BootInv(n: nat, init: nat)
    requires init < n
    ensures Inv(Boot(n, init), init)
  {
    hide States, LocksOk, Wakeups, ForksOk, Parents, Exits, Scans, Zombies, Boot;
    BootThreads(n, init);
    BootFamily(n, init);
  }

  lemma BootThreads(n: nat, init: nat)
    requires init < n
    ensures States(Boot(n, init)) && LocksOk(Boot(n, init)) && Wakeups(Boot(n, init), init) && ForksOk(Boot(n, init))
  {
    assert forall i: nat :: i < n ==> Boot(n, init).procs[i].pc.Fresh? || Boot(n, init).procs[i].pc.Unborn?;
  }

  lemma BootFamily(n: nat, init: nat)
    requires init < n
    ensures Parents(Boot(n, init), init) && Exits(Boot(n, init), init) && Scans(Boot(n, init))
            && Zombies(Boot(n, init), init)
  {
    assert forall i: nat :: i < n ==> Boot(n, init).procs[i].pc.Fresh? || Boot(n, init).procs[i].pc.Unborn?;
  }

  // ----- what every run keeps

  /** No lost wakeup: once a wakeup(c), issued under the lock of c, is through its loop,
      no process that had called sleep(c) before is asleep: whoever had released the lock
      by then, even one still on its way to SLEEPING, was made RUNNABLE. */
  lemma NoLostWakeup(n: nat, init: nat, actions: seq<Action>, w: nat, j: nat)
    requires init < n && w < n && j < n
    requires var y := Run(Boot(n, init), actions, init);
             w < |y.procs| && y.procs[w].pc.Waking? && y.procs[w].pc.k >= n
    ensures var y := Run(Boot(n, init), actions, init);
            |y.procs| == n && !InSleep(y.procs[j], y.procs[w].pc.c)
            && !(y.procs[j].state == SLEEPING && y.procs[j].chan == y.procs[w].pc.c)
  {
    var y := Run(Boot(n, init), actions, init);
    Reachable(n, init, actions);
    SameTable(Boot(n, init), actions, init);
    assert StateOk(j, y.procs[j]) && StateOk(w, y.procs[w]);
  }

  lemma {:induction false} SameTable(y: System, actions: seq<Action>, init: nat)
    ensures |Run(y, actions, init).procs| == |y.procs|
    decreases |actions|
  {
    if actions != [] {
      SameTable(Step(y, actions[0], init), actions[1..], init);
    }
  }

  /** Whenever wait_lock is free, a parent that is asleep in kwait, or on its way there,
      has no ZOMBIE child. */
  lemma SleepingParentHasNoZombie(n: nat, init: nat, actions: seq<Action>, q: nat, i: nat)
    requires init < n && q < n && i < n
    requires var y := Run(Boot(n, init), actions, init);
             |y.procs| == n && WAIT_LOCK !in y.locks && InSleep(y.procs[q], OfProc(q)) && y.procs[i].parent == q
    ensures Run(Boot(n, init), actions, init).procs[i].state != ZOMBIE
  {
    hide Run, Boot, States, LocksOk, Wakeups, ForksOk, Parents, Exits, Scans, InSleep;
    Reachable(n, init, actions);
  }

  /** kwait frees a slot only when its thread has switched away for good, so that no CPU runs
      on its kernel stack any more, and no process has it for a parent. */
  lemma FreedSlotsAreIdle(n: nat, init: nat, actions: seq<Action>, a: Action, k: nat)
    requires init < n && k < n
    requires var y := Run(Boot(n, init), actions, init);
             |y.procs| == n && y.procs[k].state != UNUSED && |Step(y, a, init).procs| == n
             && Step(y, a, init).procs[k].state == UNUSED
    ensures var y := Run(Boot(n, init), actions, init);
            y.procs[k].pc == Dead && y.procs[k].state == ZOMBIE && forall m :: 0 <= m < n ==> y.procs[m].parent != k
  {
    hide Run, Boot, Step, LocksOk, Wakeups, ForksOk, Exits, Scans, Zombies;
    var y := Run(Boot(n, init), actions, init);
    Reachable(n, init, actions);
    FreedByScan(y, a, k, init);
    assert StateOk(k, y.procs[k]);
  }

  lemma FreedByScan(y: System, a: Action, k: nat, init: nat)
    requires k < |y.procs| == |Step(y, a, init).procs| && y.procs[k].state != UNUSED
             && Step(y, a, init).procs[k].state == UNUSED
    ensures a.Scan? && y.procs[k].state == ZOMBIE && !Locked(y.procs[k])
  {
  }

  /** A parent pointer names a live process: never an UNUSED or ZOMBIE slot. */
  lemma ParentsAreLive(n: nat, init: nat, actions: seq<Action>, i: nat)
    requires init < n && i < n
    requires var y := Run(Boot(n, init), actions, init); |y.procs| == n && y.procs[i].parent >= 0
    ensures var y := Run(Boot(n, init), actions, init);
            y.procs[i].parent < n && y.procs[y.procs[i].parent].state !in {UNUSED, USED, ZOMBIE}
  {
    var y := Run(Boot(n, init), actions, init);
    Reachable(n, init, actions);
    assert StateOk(y.procs[i].parent, y.procs[y.procs[i].parent]);
  }

  /** At most one thread holds a condition lock, and kwait reports that there are no
      children only when there are none. */
  lemma ExclusionAndWait(n: nat, init: nat, actions: seq<Action>, i: nat, j: nat, l: nat)
    requires init < n && i < n && j < n
    ensures var y := Run(Boot(n, init), actions, init);
            && |y.procs| == n
            && (Holds(y.procs[i], l) && Holds(y.procs[j], l) ==> i == j)
            && (y.procs[i].pc.WaitScan? && y.procs[i].pc.k >= n && !y.procs[i].pc.havekids ==> y.procs[j].parent != i)
  {
    Reachable(n, init, actions);
    SameTable(Boot(n, init), actions, init);
    var y := Run(Boot(n, init), actions, init);
    assert Holds(y.procs[i], l) ==> HeldBy(y.locks, l, i);
    assert Holds(y.procs[j], l) ==> HeldBy(y.locks, l, j);
  }
}
