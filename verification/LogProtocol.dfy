/** Log reservation: begin_op, log_write, end_op and the end of a commit as atomic
    steps of any number of threads, with the panics of log.c as an outcome. */
module LogProtocol {
  import opened DiskWrites

  /** The fields of `struct log` that log.lock protects (lh.n is |lh|). */
  datatype LogState = LogState(lh: seq<nat>, outstanding: int, committing: bool)

  datatype Outcome<T> = Done(state: T) | Sleeps | Panics

  // ----- the critical sections

  /** One turn of the loop in begin_op. */
  function BeginOp(s: LogState): Outcome<LogState> {
    if s.committing then Sleeps
    else if |s.lh| + (s.outstanding + 1) * MAXOPBLOCKS > LOGBLOCKS then Sleeps
    else Done(s.(outstanding := s.outstanding + 1))
  }

  function LogWrite(s: LogState, bn: nat): Outcome<LogState> {
    if |s.lh| >= LOGBLOCKS || s.outstanding < 1 then Panics
    else Done(s.(lh := Absorb(s.lh, bn)))
  }

  /** Absorption: a block that is in the log already takes no new slot. */
  function Absorb(lh: seq<nat>, bn: nat): seq<nat> {
    if bn in lh then lh else lh + [bn]
  }

  /** The first critical section of end_op; it commits when committing is set after. */
  function EndOp(s: LogState): Outcome<LogState> {
    var t := s.(outstanding := s.outstanding - 1);
    if t.committing then Panics
    else Done(t.(committing := t.outstanding == 0))
  }

  /** commit and the second critical section of end_op. */
  function Committed(s: LogState): LogState {
    s.(lh := [], committing := false)
  }

  // ----- threads

  /** The shared log, what each running operation logged so far, and the thread that
      is in commit, if any. */
  datatype System = System(log: LogState, ops: map<nat, set<nat>>, committer: set<nat>)

  const Boot := System(LogState([], 0, false), map[], {})

  datatype Action =
    | Begin(t: nat)
    | Log(t: nat, bn: nat)
    | End(t: nat)
    | Commit(t: nat)

  /** What the callers of the log do: operations are bracketed by begin_op and end_op,
      and each logs at most `quota` distinct blocks. */
  predicate Enabled(y: System, a: Action, quota: nat) {
    match a
    case Begin(t) => t !in y.ops && t !in y.committer
    case Log(t, bn) => t in y.ops && |y.ops[t] + {bn}| <= quota
    case End(t) => t in y.ops
    case Commit(t) => t in y.committer
  }

  function Step(y: System, a: Action, quota: nat): Outcome<System>
    requires Enabled(y, a, quota)
  {
    match a
    case Begin(t) =>
      (match BeginOp(y.log)
       case Done(s) => Done(System(s, y.ops[t := {}], y.committer))
       case Sleeps => Done(y)
       case Panics => Panics)
    case Log(t, bn) =>
      (match LogWrite(y.log, bn)
       case Done(s) => Done(System(s, y.ops[t := y.ops[t] + {bn}], y.committer))
       case Sleeps => Done(y)
       case Panics => Panics)
    case End(t) =>
      (match EndOp(y.log)
       case Done(s) => Done(System(s, y.ops - {t}, if s.committing then {t} else {}))
       case Sleeps => Done(y)
       case Panics => Panics)
    case Commit(t) => Done(System(Committed(y.log), y.ops, {}))
  }

  /** A run of enabled actions; None of the later ones happen after a panic. */
  predicate IsRun(y: System, actions: seq<Action>, quota: nat)
    decreases |actions|
  {
    actions == [] ||
    (Enabled(y, actions[0], quota) &&
     (Step(y, actions[0], quota).Done? ==> IsRun(Step(y, actions[0], quota).state, actions[1..], quota)))
  }

  function Run(y: System, actions: seq<Action>, quota: nat): Outcome<System>
    requires IsRun(y, actions, quota)
    decreases |actions|
  {
    if actions == [] then Done(y)
    else
      match Step(y, actions[0], quota)
      case Done(z) => Run(z, actions[1..], quota)
      case Sleeps => Sleeps
      case Panics => Panics
  }

  // ----- the reservation invariant

  /** Blocks the operations of `ops` may still add to the log. */
  ghost function Reserved(ops: map<nat, set<nat>>): int
    decreases ops.Keys
  {
    if ops == map[] then 0
    else
      var t :| t in ops;
      MAXOPBLOCKS - |ops[t]| + Reserved(ops - {t})
  }

  predicate Distinct(s: seq<nat>) {
    forall i, j :: 0 <= i < j < |s| ==> s[i] != s[j]
  }

  ghost predicate Inv(y: System, quota: nat) {
    && y.log.outstanding == |y.ops|
    && |y.log.lh| + Reserved(y.ops) <= LOGBLOCKS
    && (forall t :: t in y.ops ==> |y.ops[t]| <= quota)
    && (forall t, bn :: t in y.ops && bn in y.ops[t] ==> bn in y.log.lh)
    && Distinct(y.log.lh)
    && |y.committer| == (if y.log.committing then 1 else 0)
    && (y.log.committing ==> y.ops == map[])
  }

  lemma {:induction false} ReservedOne(ops: map<nat, set<nat>>, t: nat)
    requires t in ops
    ensures Reserved(ops) == MAXOPBLOCKS - |ops[t]| + Reserved(ops - {t})
    decreases ops.Keys
  {
    var u :| u in ops && Reserved(ops) == MAXOPBLOCKS - |ops[u]| + Reserved(ops - {u});
    if u != t {
      ReservedOne(ops - {u}, t);
      ReservedOne(ops - {t}, u);
      assert ops - {u} - {t} == ops - {t} - {u};
    }
  }

  lemma ReservedSet(ops: map<nat, set<nat>>, t: nat, blocks: set<nat>)
    ensures Reserved(ops[t := blocks]) == MAXOPBLOCKS - |blocks| + Reserved(ops - {t})
  {
    ReservedOne(ops[t := blocks], t);
    assert ops[t := blocks] - {t} == ops - {t};
  }

  lemma {:induction false} ReservedBounds(ops: map<nat, set<nat>>, quota: nat)
    requires quota <= MAXOPBLOCKS && forall t :: t in ops ==> |ops[t]| <= quota
    ensures 0 <= Reserved(ops) <= |ops| * MAXOPBLOCKS
    ensures quota < MAXOPBLOCKS && ops != map[] ==> Reserved(ops) > 0
    decreases ops.Keys
  {
    if ops != map[] {
      var t :| t in ops && Reserved(ops) == MAXOPBLOCKS - |ops[t]| + Reserved(ops - {t});
      ReservedBounds(ops - {t}, quota);
      assert (ops - {t}).Keys == ops.Keys - {t};
      assert |ops| == |ops - {t}| + 1;
    }
  }

  lemma BootInv(quota: nat)
    ensures Inv(Boot, quota)
  {
  }

  lemma BeginKeepsInv(y: System, t: nat, quota: nat)
    requires Inv(y, quota) && Enabled(y, Begin(t), quota) && quota <= MAXOPBLOCKS
    ensures Step(y, Begin(t), quota).Done? && Inv(Step(y, Begin(t), quota).state, quota)
  {
    ReservedSet(y.ops, t, {});
    assert y.ops - {t} == y.ops;
    ReservedBounds(y.ops, quota);
    assert y.ops[t := {}].Keys == y.ops.Keys + {t};
  }

  lemma EndKeepsInv(y: System, t: nat, quota: nat)
    requires Inv(y, quota) && Enabled(y, End(t), quota) && quota <= MAXOPBLOCKS
    ensures Step(y, End(t), quota).Done? && Inv(Step(y, End(t), quota).state, quota)
  {
    ReservedOne(y.ops, t);
    assert (y.ops - {t}).Keys == y.ops.Keys - {t};
    assert |y.ops - {t}| == |y.ops| - 1;
  }

  /** log_write panics exactly when every log slot is taken; then the operation that
      runs into it had used up its quota and is logging one of its blocks again. */
  lemma LogKeepsInv(y: System, t: nat, bn: nat, quota: nat)
    requires Inv(y, quota) && Enabled(y, Log(t, bn), quota) && quota <= MAXOPBLOCKS
    ensures Step(y, Log(t, bn), quota).Panics? <==> |y.log.lh| == LOGBLOCKS
    ensures Step(y, Log(t, bn), quota).Panics? ==>
              bn in y.log.lh && quota == MAXOPBLOCKS && forall u :: u in y.ops ==> |y.ops[u]| == MAXOPBLOCKS
    ensures !Step(y, Log(t, bn), quota).Panics? ==>
              Step(y, Log(t, bn), quota).Done? && Inv(Step(y, Log(t, bn), quota).state, quota)
  {
    assert |y.ops| >= 1 by { assert t in y.ops.Keys; }
    var mine := y.ops[t];
    ReservedOne(y.ops, t);
    ReservedSet(y.ops, t, mine + {bn});
    assert (y.ops - {t}).Keys == y.ops.Keys - {t};
    ReservedBounds(y.ops - {t}, quota);
    assert bn in mine ==> mine + {bn} == mine;
    assert bn !in mine ==> |mine + {bn}| == |mine| + 1;
    assert y.ops[t := mine + {bn}].Keys == y.ops.Keys;
    if |y.log.lh| >= LOGBLOCKS {
      forall u | u in y.ops
        ensures |y.ops[u]| == MAXOPBLOCKS
      {
        ReservedOne(y.ops, u);
        ReservedBounds(y.ops - {u}, quota);
      }
    }
  }

  // ----- whole runs

  /** The last state of a run that stops for good, and what it stopped at. */
  ghost predicate PanicsAt(y: System, actions: seq<Action>, quota: nat, z: System, a: Action)
    requires IsRun(y, actions, quota)
    decreases |actions|
  {
    actions != [] &&
    if Step(y, actions[0], quota).Done? then PanicsAt(Step(y, actions[0], quota).state, actions[1..], quota, z, a)
    else z == y && a == actions[0]
  }

  /** Every interleaving keeps the reservation. The only panic a run can end in is that
      of an absorbed log_write into a full log: appends always find room, and neither
      "log.committing" nor "log_write outside of trans" is reachable. */
  lemma {:induction false} RunsKeepInv(y: System, actions: seq<Action>, quota: nat)
    requires Inv(y, quota) && quota <= MAXOPBLOCKS && IsRun(y, actions, quota)
    ensures Run(y, actions, quota).Done? ==> Inv(Run(y, actions, quota).state, quota)
    ensures !Run(y, actions, quota).Sleeps?
    ensures Run(y, actions, quota).Panics? ==>
              exists z, a :: PanicsAt(y, actions, quota, z, a) && Inv(z, quota) && quota == MAXOPBLOCKS
                          && a.Log? && a.bn in z.log.lh && |z.log.lh| == LOGBLOCKS
    decreases |actions|
  {
    if actions != [] {
      match actions[0] {
        case Begin(t) => BeginKeepsInv(y, t, quota);
        case Log(t, bn) => LogKeepsInv(y, t, bn, quota);
        case End(t) => EndKeepsInv(y, t, quota);
        case Commit(t) => CommitKeepsInv(y, t, quota);
      }
      if Step(y, actions[0], quota).Done? {
        RunsKeepInv(Step(y, actions[0], quota).state, actions[1..], quota);
        if Run(y, actions, quota).Panics? {
          var z, a :| PanicsAt(Step(y, actions[0], quota).state, actions[1..], quota, z, a) && Inv(z, quota)
                      && quota == MAXOPBLOCKS && a.Log? && a.bn in z.log.lh && |z.log.lh| == LOGBLOCKS;
          assert PanicsAt(y, actions, quota, z, a);
        }
      } else {
        assert PanicsAt(y, actions, quota, y, actions[0]);
      }
    }
  }

  lemma CommitKeepsInv(y: System, t: nat, quota: nat)
    requires Inv(y, quota) && Enabled(y, Commit(t), quota)
    ensures Step(y, Commit(t), quota).Done? && Inv(Step(y, Commit(t), quota).state, quota)
  {
    assert y.committer != {};
    assert Reserved(map[]) == 0;
  }

  /** In every reachable state the log fits, and a commit runs alone: no operation is
      outstanding, so nothing is logged until the commit is over. */
  lemma ReachableStates(actions: seq<Action>, quota: nat)
    requires quota <= MAXOPBLOCKS && IsRun(Boot, actions, quota) && Run(Boot, actions, quota).Done?
    ensures var y := Run(Boot, actions, quota).state;
            && |y.log.lh| <= LOGBLOCKS
            && (y.log.committing ==> y.log.outstanding == 0 && forall t, bn :: !Enabled(y, Log(t, bn), quota))
            && (forall t, bn :: Enabled(y, Log(t, bn), quota) && bn !in y.log.lh ==> Step(y, Log(t, bn), quota).Done?)
  {
    BootInv(quota);
    RunsKeepInv(Boot, actions, quota);
    var y := Run(Boot, actions, quota).state;
    ReservedBounds(y.ops, quota);
    forall t, bn | Enabled(y, Log(t, bn), quota) && bn !in y.log.lh
      ensures Step(y, Log(t, bn), quota).Done?
    {
      LogKeepsInv(y, t, bn, quota);
    }
  }

  // ----- the panic that remains

  lemma {:induction false} RunConcat(y: System, xs: seq<Action>, ys: seq<Action>, quota: nat)
    requires IsRun(y, xs, quota) && Run(y, xs, quota).Done? && IsRun(Run(y, xs, quota).state, ys, quota)
    ensures IsRun(y, xs + ys, quota) && Run(y, xs + ys, quota) == Run(Run(y, xs, quota).state, ys, quota)
    decreases |xs|
  {
    if xs == [] {
      assert xs + ys == ys;
    } else {
      assert (xs + ys)[1..] == xs[1..] + ys;
      RunConcat(Step(y, xs[0], quota).state, xs[1..], ys, quota);
    }
  }

  function Max(s: seq<nat>): (m: nat)
    ensures forall i :: 0 <= i < |s| ==> s[i] <= m
  {
    if s == [] then 0
    else
      var m := Max(s[1..]);
      assert forall i :: 1 <= i < |s| ==> s[i] == s[1..][i - 1];
      if m < s[0] then s[0] else m
  }

  /** A thread logs these blocks one by one. */
  lemma {:induction false} LogBlocks(y: System, t: nat, bs: seq<nat>) returns (z: System, actions: seq<Action>)
    requires Inv(y, MAXOPBLOCKS) && t in y.ops && |y.ops[t]| + |bs| <= MAXOPBLOCKS && Distinct(y.log.lh + bs)
    ensures IsRun(y, actions, MAXOPBLOCKS) && Run(y, actions, MAXOPBLOCKS) == Done(z) && Inv(z, MAXOPBLOCKS)
    ensures z.log == y.log.(lh := y.log.lh + bs) && z.committer == y.committer && z.ops.Keys == y.ops.Keys
    ensures |z.ops[t]| == |y.ops[t]| + |bs| && (forall u :: u in y.ops && u != t ==> z.ops[u] == y.ops[u])
    ensures Reserved(z.ops) == Reserved(y.ops) - |bs|
    decreases |bs|
  {
    z, actions := y, [];
    if bs == [] {
      assert y.log.lh + bs == y.log.lh;
    } else {
      FirstIsNew(y.log.lh, bs);
      assert |y.ops[t] + {bs[0]}| == |y.ops[t]| + 1;
      LogKeepsInv(y, t, bs[0], MAXOPBLOCKS);
      ReservedOne(y.ops, t);
      ReservedSet(y.ops, t, y.ops[t] + {bs[0]});
      var next := Step(y, Log(t, bs[0]), MAXOPBLOCKS).state;
      assert next.log.lh + bs[1..] == y.log.lh + bs;
      var rest;
      z, rest := LogBlocks(next, t, bs[1..]);
      actions := [Log(t, bs[0])] + rest;
    }
  }

  lemma FirstIsNew(lh: seq<nat>, bs: seq<nat>)
    requires Distinct(lh + bs) && bs != []
    ensures bs[0] !in lh
  {
    forall i | 0 <= i < |lh|
      ensures lh[i] != bs[0]
    {
      assert (lh + bs)[i] == lh[i] && (lh + bs)[|lh|] == bs[0];
    }
  }

  /** Three operations begin and log the blocks of lh, the third one first. */
  lemma ThreeLog(lh: seq<nat>) returns (y: System, actions: seq<Action>)
    requires Distinct(lh) && |lh| <= LOGBLOCKS
    ensures IsRun(Boot, actions, MAXOPBLOCKS) && Run(Boot, actions, MAXOPBLOCKS) == Done(y) && Inv(y, MAXOPBLOCKS)
    ensures y.log == LogState(lh, 3, false) && y.ops.Keys == {0, 1, 2} && Reserved(y.ops) == LOGBLOCKS - |lh|
    ensures |y.ops[2]| == Piece(lh, 0) && |y.ops[1]| == Piece(lh, 10)
  {
    hide Inv, Distinct, Reserved, Run, IsRun;
    var begins := [Begin(0), Begin(1), Begin(2)];
    var y0 := System(LogState([], 3, false), map[0 := {}, 1 := {}, 2 := {}], {});
    ThreeBegin(begins, y0);
    BootInv(MAXOPBLOCKS);
    RunsKeepInv(Boot, begins, MAXOPBLOCKS);
    ThreeReserve();
    var n := Piece(lh, 0);
    var m := n + Piece(lh, 10);
    Pieces(lh, n, m);
    var y1, a1 := LogBlocks(y0, 2, lh[..n]);
    var y2, a2 := LogBlocks(y1, 1, lh[n..m]);
    var a3;
    y, a3 := LogBlocks(y2, 0, lh[m..]);
    RunConcat(Boot, begins, a1, MAXOPBLOCKS);
    RunConcat(Boot, begins + a1, a2, MAXOPBLOCKS);
    RunConcat(Boot, begins + a1 + a2, a3, MAXOPBLOCKS);
    actions := begins + a1 + a2 + a3;
  }

  lemma Pieces(lh: seq<nat>, n: nat, m: nat)
    requires Distinct(lh) && n <= m <= |lh|
    ensures [] + lh[..n] == lh[..n] && lh[..n] + lh[n..m] == lh[..m] && lh[..m] + lh[m..] == lh
    ensures Distinct(lh[..n]) && Distinct(lh[..m])
  {
  }

  /** How many of the ten blocks of lh from index i on there are. */
  function Piece(lh: seq<nat>, i: nat): nat {
    if |lh| <= i then 0 else if |lh| <= i + 10 then |lh| - i else 10
  }

  lemma ThreeReserve()
    ensures Reserved(map[0 := {}, 1 := {}, 2 := {}]) == LOGBLOCKS
  {
    var ops: map<nat, set<nat>> := map[0 := {}, 1 := {}, 2 := {}];
    ReservedOne(ops, 0);
    ReservedOne(ops - {0}, 1);
    ReservedOne(ops - {0} - {1}, 2);
    assert ops - {0} - {1} - {2} == map[];
  }

  /** Three operations begin, fill the log to the last slot, and a log_write of a block
      that is there already is then refused although it needs no slot. */
  lemma AbsorbedWritePanics() returns (actions: seq<Action>)
    ensures IsRun(Boot, actions, MAXOPBLOCKS) && Run(Boot, actions, MAXOPBLOCKS).Panics?
  {
    var y, filling := ThreeLog(seq(LOGBLOCKS, i => i));
    var bn := FullOperation(y);
    RunConcat(Boot, filling, [Log(0, bn)], MAXOPBLOCKS);
    actions := filling + [Log(0, bn)];
  }

  lemma ThreeBegin(begins: seq<Action>, y: System)
    requires begins == [Begin(0), Begin(1), Begin(2)]
    requires y == System(LogState([], 3, false), map[0 := {}, 1 := {}, 2 := {}], {})
    ensures IsRun(Boot, begins, MAXOPBLOCKS) && Run(Boot, begins, MAXOPBLOCKS) == Done(y)
  {
    var s1 := System(LogState([], 1, false), map[0 := {}], {});
    var s2 := System(LogState([], 2, false), map[0 := {}, 1 := {}], {});
    assert begins[1..] == [Begin(1), Begin(2)] && begins[1..][1..] == [Begin(2)] && begins[1..][1..][1..] == [];
    assert s1.ops == map[][0 := {}] && s2.ops == s1.ops[1 := {}] && y.ops == s2.ops[2 := {}];
    assert Step(Boot, Begin(0), MAXOPBLOCKS) == Done(s1) && Step(s1, Begin(1), MAXOPBLOCKS) == Done(s2);
    assert Step(s2, Begin(2), MAXOPBLOCKS) == Done(y);
    assert Run(y, [], MAXOPBLOCKS) == Done(y) && Run(s2, [Begin(2)], MAXOPBLOCKS) == Done(y);
  }

  lemma FullOperation(y: System) returns (bn: nat)
    requires Inv(y, MAXOPBLOCKS) && 0 in y.ops && |y.log.lh| == LOGBLOCKS
    ensures IsRun(y, [Log(0, bn)], MAXOPBLOCKS) && Run(y, [Log(0, bn)], MAXOPBLOCKS).Panics?
  {
    ReservedOne(y.ops, 0);
    ReservedBounds(y.ops - {0}, MAXOPBLOCKS);
    assert y.ops[0] != {};
    bn :| bn in y.ops[0];
    assert y.ops[0] + {bn} == y.ops[0];
    LogKeepsInv(y, 0, bn, MAXOPBLOCKS);
  }

  /** log.c cannot panic in any run exactly when operations stay below MAXOPBLOCKS. */
  lemma PanicFreeIffBelowQuota(quota: nat)
    requires quota <= MAXOPBLOCKS
    ensures (forall actions :: IsRun(Boot, actions, quota) ==> !Run(Boot, actions, quota).Panics?) <==>
            quota < MAXOPBLOCKS
  {
    if quota < MAXOPBLOCKS {
      forall actions | IsRun(Boot, actions, quota)
        ensures !Run(Boot, actions, quota).Panics?
      {
        BootInv(quota);
        RunsKeepInv(Boot, actions, quota);
      }
    } else {
      var actions := AbsorbedWritePanics();
    }
  }

  // ----- begin_op sleeps only when it must, and not for ever

  ghost predicate Reached(y: System) {
    exists actions :: IsRun(Boot, actions, MAXOPBLOCKS) && Run(Boot, actions, MAXOPBLOCKS) == Done(y)
  }

  /** What every run keeps because begin_op looks at the reservation of all operations, not
      at what they have logged. */
  ghost predicate Admissible(y: System) {
    |y.ops| <= 3 && (y.ops == map[] && !y.log.committing ==> y.log.lh == [])
  }

  lemma StepAdmissible(y: System, a: Action)
    requires y.log.outstanding == |y.ops| && Admissible(y) && Enabled(y, a, MAXOPBLOCKS)
             && Step(y, a, MAXOPBLOCKS).Done?
    ensures Admissible(Step(y, a, MAXOPBLOCKS).state)
  {
    match a {
      case Begin(t) => OneMore(y.ops, t, {});
      case Log(t, bn) => OneMore(y.ops, t, y.ops[t] + {bn});
      case End(t) => OneLess(y.ops, t);
      case Commit(t) =>
    }
  }

  lemma OneMore(ops: map<nat, set<nat>>, t: nat, blocks: set<nat>)
    ensures |ops[t := blocks]| == if t in ops then |ops| else |ops| + 1
    ensures ops[t := blocks] != map[]
  {
    assert ops[t := blocks].Keys == ops.Keys + {t};
    assert t in ops[t := blocks];
  }

  lemma OneLess(ops: map<nat, set<nat>>, t: nat)
    requires t in ops
    ensures |ops - {t}| == |ops| - 1
  {
    assert (ops - {t}).Keys == ops.Keys - {t};
  }

  lemma {:induction false} RunsAdmissible(y: System, actions: seq<Action>)
    requires Inv(y, MAXOPBLOCKS) && Admissible(y) && IsRun(y, actions, MAXOPBLOCKS)
    ensures Run(y, actions, MAXOPBLOCKS).Done? ==>
              Inv(Run(y, actions, MAXOPBLOCKS).state, MAXOPBLOCKS) && Admissible(Run(y, actions, MAXOPBLOCKS).state)
    decreases |actions|
  {
    RunsKeepInv(y, actions, MAXOPBLOCKS);
    if actions != [] && Step(y, actions[0], MAXOPBLOCKS).Done? {
      StepAdmissible(y, actions[0]);
      RunsKeepInv(y, [actions[0]], MAXOPBLOCKS);
      assert Run(y, [actions[0]], MAXOPBLOCKS) == Step(y, actions[0], MAXOPBLOCKS);
      RunsAdmissible(Step(y, actions[0], MAXOPBLOCKS).state, actions[1..]);
    }
  }

  lemma ReachedAdmissible(y: System)
    requires Reached(y)
    ensures Inv(y, MAXOPBLOCKS) && Admissible(y)
  {
    var actions :| IsRun(Boot, actions, MAXOPBLOCKS) && Run(Boot, actions, MAXOPBLOCKS) == Done(y);
    BootInv(MAXOPBLOCKS);
    RunsAdmissible(Boot, actions);
  }

  /** The system had begin_op let the thread in. */
  function LetIn(y: System, t: nat): System {
    System(y.log.(outstanding := y.log.outstanding + 1), y.ops[t := {}], y.committer)
  }

  /** A run that stops because an operation within its quota appends to a full log. */
  ghost predicate RunsOutOfSlots(y: System, actions: seq<Action>) {
    && IsRun(y, actions, MAXOPBLOCKS)
    && exists z, a :: PanicsAt(y, actions, MAXOPBLOCKS, z, a) && a.Log? && a.bn !in z.log.lh
  }

  /** Operations that may still log more blocks than the log has slots can do so. */
  lemma {:induction false} Overflows(y: System) returns (actions: seq<Action>)
    requires |y.log.lh| <= LOGBLOCKS < |y.log.lh| + Reserved(y.ops) && y.log.outstanding >= 1
    requires forall t :: t in y.ops ==> |y.ops[t]| <= MAXOPBLOCKS && forall bn :: bn in y.ops[t] ==> bn in y.log.lh
    ensures RunsOutOfSlots(y, actions)
    decreases LOGBLOCKS - |y.log.lh|
  {
    var t := Unfinished(y.ops);
    var bn := Max(y.log.lh) + 1;
    assert bn !in y.log.lh && bn !in y.ops[t];
    assert |y.ops[t] + {bn}| == |y.ops[t]| + 1;
    actions := [Log(t, bn)];
    if |y.log.lh| == LOGBLOCKS {
      assert PanicsAt(y, actions, MAXOPBLOCKS, y, Log(t, bn));
    } else {
      ReservedOne(y.ops, t);
      ReservedSet(y.ops, t, y.ops[t] + {bn});
      var next := Step(y, Log(t, bn), MAXOPBLOCKS).state;
      var rest := Overflows(next);
      actions := actions + rest;
      var z, a :| PanicsAt(next, rest, MAXOPBLOCKS, z, a) && a.Log? && a.bn !in z.log.lh;
      assert actions[1..] == rest;
      assert PanicsAt(y, actions, MAXOPBLOCKS, z, a);
    }
  }

  lemma {:induction false} Unfinished(ops: map<nat, set<nat>>) returns (t: nat)
    requires Reserved(ops) > 0
    ensures t in ops && |ops[t]| < MAXOPBLOCKS
    decreases ops.Keys
  {
    t :| t in ops && Reserved(ops) == MAXOPBLOCKS - |ops[t]| + Reserved(ops - {t});
    if |ops[t]| >= MAXOPBLOCKS {
      t := Unfinished(ops - {t});
    }
  }

  /** Among the reachable systems with a given log there is one whose operations may still
      log as much as its size and theirs allow. */
  lemma MostReserved(lh: seq<nat>, k: nat) returns (y: System)
    requires Distinct(lh) && |lh| <= LOGBLOCKS && 1 <= k <= 3
    ensures Reached(y) && y.log == LogState(lh, k, false)
    ensures Reserved(y.ops) == if |lh| + k * MAXOPBLOCKS <= LOGBLOCKS then k * MAXOPBLOCKS else LOGBLOCKS - |lh|
  {
    var actions;
    y, actions := ThreeLog(lh);
    if k < 3 {
      y, actions := OneEnds(y, actions, 2);
    }
    if k < 2 {
      y, actions := OneEnds(y, actions, 1);
    }
  }

  lemma OneEnds(y: System, actions: seq<Action>, t: nat) returns (z: System, longer: seq<Action>)
    requires IsRun(Boot, actions, MAXOPBLOCKS) && Run(Boot, actions, MAXOPBLOCKS) == Done(y) && Inv(y, MAXOPBLOCKS)
    requires t in y.ops && |y.ops| > 1 && !y.log.committing
    ensures IsRun(Boot, longer, MAXOPBLOCKS) && Run(Boot, longer, MAXOPBLOCKS) == Done(z) && Inv(z, MAXOPBLOCKS)
    ensures z.log == y.log.(outstanding := y.log.outstanding - 1) && z.ops == y.ops - {t}
    ensures z.ops.Keys == y.ops.Keys - {t} && |z.ops| == |y.ops| - 1
    ensures Reserved(z.ops) == Reserved(y.ops) - MAXOPBLOCKS + |y.ops[t]|
  {
    EndKeepsInv(y, t, MAXOPBLOCKS);
    ReservedOne(y.ops, t);
    z, longer := Step(y, End(t), MAXOPBLOCKS).state, actions + [End(t)];
    assert Run(y, [End(t)], MAXOPBLOCKS) == Done(z);
    RunConcat(Boot, actions, [End(t)], MAXOPBLOCKS);
    assert z.ops.Keys == y.ops.Keys - {t};
  }

  /** begin_op is no more cautious than what log.lock protects lets it be: while no commit
      is on it sleeps if and only if, in some run that has come to this very log, letting the
      operation in could end in an append that finds no slot. */
  lemma SleepsOnlyIfNeeded(s: LogState)
    requires !s.committing && exists y :: Reached(y) && y.log == s
    ensures BeginOp(s).Sleeps? <==>
            exists y, t, actions ::
              Reached(y) && y.log == s && Enabled(y, Begin(t), MAXOPBLOCKS) && RunsOutOfSlots(LetIn(y, t), actions)
  {
    var some :| Reached(some) && some.log == s;
    ReachedAdmissible(some);
    ReservedBounds(some.ops, MAXOPBLOCKS);
    if BeginOp(s).Sleeps? {
      var y := MostReserved(s.lh, s.outstanding);
      ReachedAdmissible(y);
      var t := NewThread(y);
      ReservedSet(y.ops, t, {});
      assert y.ops - {t} == y.ops;
      var actions := Overflows(LetIn(y, t));
      assert Enabled(y, Begin(t), MAXOPBLOCKS) && RunsOutOfSlots(LetIn(y, t), actions);
    } else {
      forall y, t, actions
        | Reached(y) && y.log == s && Enabled(y, Begin(t), MAXOPBLOCKS) && RunsOutOfSlots(LetIn(y, t), actions)
        ensures false
      {
        NeverOut(y, t, actions);
      }
    }
  }

  lemma NewThread(y: System) returns (t: nat)
    requires Inv(y, MAXOPBLOCKS) && !y.log.committing
    ensures Enabled(y, Begin(t), MAXOPBLOCKS)
  {
    t := Above(y.ops.Keys);
    assert y.committer == {};
  }

  lemma {:induction false} Above(s: set<nat>) returns (n: nat)
    ensures forall x :: x in s ==> x < n
  {
    n := 0;
    if s != {} {
      var x :| x in s;
      var m := Above(s - {x});
      n := if m <= x then x + 1 else m;
      assert forall z :: z in s ==> z == x || z in s - {x};
    }
  }

  lemma NeverOut(y: System, t: nat, actions: seq<Action>)
    requires Reached(y) && Enabled(y, Begin(t), MAXOPBLOCKS) && BeginOp(y.log).Done?
    ensures !RunsOutOfSlots(LetIn(y, t), actions)
  {
    if RunsOutOfSlots(LetIn(y, t), actions) {
      ReachedAdmissible(y);
      BeginKeepsInv(y, t, MAXOPBLOCKS);
      assert Step(y, Begin(t), MAXOPBLOCKS) == Done(LetIn(y, t));
      var z, a :| PanicsAt(LetIn(y, t), actions, MAXOPBLOCKS, z, a) && a.Log? && a.bn !in z.log.lh;
      PanicIsAbsorbed(LetIn(y, t), actions, z, a);
    }
  }

  lemma {:induction false} PanicIsAbsorbed(y: System, actions: seq<Action>, z: System, a: Action)
    requires Inv(y, MAXOPBLOCKS) && IsRun(y, actions, MAXOPBLOCKS) && PanicsAt(y, actions, MAXOPBLOCKS, z, a)
    ensures a.Log? && a.bn in z.log.lh
    decreases |actions|
  {
    RunsKeepInv(y, [actions[0]], MAXOPBLOCKS);
    assert Step(y, actions[0], MAXOPBLOCKS).Done? ==>
        Run(y, [actions[0]], MAXOPBLOCKS) == Step(y, actions[0], MAXOPBLOCKS);
    if Step(y, actions[0], MAXOPBLOCKS).Done? {
      PanicIsAbsorbed(Step(y, actions[0], MAXOPBLOCKS).state, actions[1..], z, a);
    } else {
      match actions[0] {
        case Begin(t) => BeginKeepsInv(y, t, MAXOPBLOCKS);
        case Log(t, bn) => LogKeepsInv(y, t, bn, MAXOPBLOCKS);
        case End(t) => EndKeepsInv(y, t, MAXOPBLOCKS);
        case Commit(t) => CommitKeepsInv(y, t, MAXOPBLOCKS);
      }
    }
  }

  /** Whatever has been logged, once the operations under way have ended and the commit is
      over a thread that sleeps in begin_op gets in: nobody is shut out for ever. */
  lemma GetsIn(y: System, t: nat) returns (actions: seq<Action>)
    requires Reached(y) && Enabled(y, Begin(t), MAXOPBLOCKS)
    ensures IsRun(y, actions, MAXOPBLOCKS) && Run(y, actions, MAXOPBLOCKS).Done?
    ensures t in Run(y, actions, MAXOPBLOCKS).state.ops
  {
    ReachedAdmissible(y);
    actions := GetsInFrom(y, t);
  }

  lemma {:induction false} GetsInFrom(y: System, t: nat) returns (actions: seq<Action>)
    requires Inv(y, MAXOPBLOCKS) && Admissible(y) && Enabled(y, Begin(t), MAXOPBLOCKS)
    ensures IsRun(y, actions, MAXOPBLOCKS) && Run(y, actions, MAXOPBLOCKS).Done?
    ensures t in Run(y, actions, MAXOPBLOCKS).state.ops
    decreases |y.ops|, |y.committer|
  {
    var a;
    if y.ops != map[] {
      var u :| u in y.ops;
      a := End(u);
      EndKeepsInv(y, u, MAXOPBLOCKS);
      assert (y.ops - {u}).Keys == y.ops.Keys - {u};
      assert |y.ops - {u}| == |y.ops| - 1;
    } else if y.log.committing {
      var u :| u in y.committer;
      a := Commit(u);
      CommitKeepsInv(y, u, MAXOPBLOCKS);
    } else {
      a := Begin(t);
      assert Run(y, [a], MAXOPBLOCKS) == Step(y, a, MAXOPBLOCKS);
      return [a];
    }
    StepAdmissible(y, a);
    var z := Step(y, a, MAXOPBLOCKS).state;
    var rest := GetsInFrom(z, t);
    actions := [a] + rest;
  }
}
