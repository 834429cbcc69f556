/** Runs of the disk driver and the device: submitters, the interrupt handler's turns and the
    device's steps in any order, completions that come while the handler runs included. */
module VirtioRuns {
  import opened Virtio

  /** A section under vdisk_lock, one turn of the interrupt handler's loop, a step of the
      device, or a change that its holder makes to a buffer which is in no request. */
  datatype Action<T> = Submit(h: nat, c: Chain) | Take | Complete(h: nat) | Handle | Finish(h: nat)
                     | Change(b: nat, x: T)

  ghost predicate InFlight<T>(v: Vq<T>, b: nat) {
    exists g :: g in v.chains && v.chains[g].b == b
  }

  /** When an action can happen. The submitter of h goes on when it finds that its buffer is
      not busy any more. */
  ghost predicate Enabled<T>(v: Vq<T>, a: Action<T>) {
    match a
    case Submit(h, c) => Shape(v) && CanSubmit(v, h, c)
    case Take => v.queue != []
    case Complete(h) => h in v.inDevice
    case Handle => v.usedQueue != []
    case Finish(h) => h in v.chains && v.chains[h].b in v.busy && !v.busy[v.chains[h].b]
    case Change(b, _) => b in v.data && !InFlight(v, b)
  }

  ghost function Changed<T>(v: Vq<T>, b: nat, x: T): Vq<T> {
    v.(data := v.data[b := x])
  }

  ghost function After<T>(v: Vq<T>, a: Action<T>): Vq<T>
    requires Inv(v) && Enabled(v, a)
  {
    Possible(v, a);
    match a
    case Submit(h, c) => Submitted(v, h, c)
    case Take => Taken(v)
    case Complete(h) => Completed(v, h, v.chains[h])
    case Handle => Handled(v)
    case Finish(h) => Finished(v, h)
    case Change(b, x) => Changed(v, b, x)
  }

  /** No action runs into a panic: what the code checks holds. A released submitter's chain
      was completed and handled, and all its descriptors are taken. */
  lemma Possible<T>(v: Vq<T>, a: Action<T>)
    requires Inv(v) && Enabled(v, a)
    ensures Shape(v)
    ensures a.Complete? ==>
              a.h in v.chains && a.h < NUM && v.chains[a.h].b in v.data && v.chains[a.h].blockno < |v.disk|
    ensures a.Handle? ==> v.usedQueue[0] in v.chains && v.used[Entry(v.seen)] == v.usedQueue[0]
    ensures a.Handle? ==> v.usedQueue[0] < NUM && v.info[v.usedQueue[0]] == Info(v.chains[v.usedQueue[0]].b, 0)
    ensures a.Finish? ==> a.h in v.done && ChainOwned(v.owner, a.h, v.chains[a.h])
    ensures a.Finish? ==> !v.free[a.h] && !v.free[v.chains[a.h].mid] && !v.free[v.chains[a.h].last]
  {
    hide Split, RingOk, Phases, ChainsOk, Formatted, Entry;
    if a.Complete? {
      CompleteKeeps(v, a.h);
    }
    if a.Handle? {
      HandleKeeps(v);
      HandledIs(v);
    }
    if a.Finish? {
      ChainTaken(v, a.h);
      Released(v, a.h);
    }
  }

  lemma Released<T>(v: Vq<T>, h: nat)
    requires Shape(v) && h in v.chains && Formatted(v, h, v.chains[h]) && !v.busy[v.chains[h].b]
    ensures h in v.done
  {
  }

  lemma StepKeeps<T>(v: Vq<T>, a: Action<T>)
    requires Inv(v) && Enabled(v, a)
    ensures Inv(After(v, a))
  {
    hide Split, RingOk, Phases, ChainsOk;
    match a {
      case Submit(h, c) => SubmitKeeps(v, h, c);
      case Take => TakeKeeps(v);
      case Complete(h) => CompleteKeeps(v, h);
      case Handle => HandleKeeps(v);
      case Finish(h) =>
        Possible(v, a);
        FinishKeeps(v, h);
      case Change(b, x) => ChangeKeeps(v, b, x);
    }
  }

  lemma ChangeKeeps<T>(v: Vq<T>, b: nat, x: T)
    requires Inv(v) && b in v.data
    ensures Inv(Changed(v, b, x))
  {
    hide Split, RingOk, Phases;
    ChangeChains(v, b, x);
  }

  lemma ChangeChains<T>(v: Vq<T>, b: nat, x: T)
    requires Shape(v) && ChainsOk(v) && b in v.data
    ensures Shape(Changed(v, b, x)) && ChainsOk(Changed(v, b, x))
  {
    var t := Changed(v, b, x);
    assert t.data.Keys == v.data.Keys;
    forall g | g in t.chains
      ensures Formatted(t, g, t.chains[g])
    {
      assert Formatted(v, g, v.chains[g]);
    }
  }

  // ----- runs

  /** The states of a run and the actions between them. */
  ghost predicate IsRun<T>(states: seq<Vq<T>>, actions: seq<Action<T>>) {
    |states| == |actions| + 1 && Inv(states[0]) && forall k :: 0 <= k < |actions| ==>
      Steps(states[k], actions[k], states[k + 1])
  }

  ghost predicate Steps<T>(v: Vq<T>, a: Action<T>, t: Vq<T>) {
    Inv(v) ==> Enabled(v, a) && t == After(v, a)
  }

  /** Every state of every run is one in which the queue is in order. */
  lemma {:induction false} RunsKeepInv<T>(states: seq<Vq<T>>, actions: seq<Action<T>>, k: nat)
    requires IsRun(states, actions) && k < |states|
    ensures Inv(states[k])
    ensures k < |actions| ==> Enabled(states[k], actions[k]) && states[k + 1] == After(states[k], actions[k])
    decreases k
  {
    hide Inv, Enabled, After;
    assert k < |actions| ==> Steps(states[k], actions[k], states[k + 1]);
    if k > 0 {
      assert Steps(states[k - 1], actions[k - 1], states[k]);
      RunsKeepInv(states, actions, k - 1);
      StepKeeps(states[k - 1], actions[k - 1]);
    }
  }

  /** The device has not carried out the request yet. */
  predicate Waiting<T>(v: Vq<T>, h: nat) {
    h in v.queue || h in v.inDevice
  }

  /** What an action leaves of a request that it does not finish. */
  lemma StepServes<T>(v: Vq<T>, a: Action<T>, h: nat)
    requires Inv(v) && Enabled(v, a) && h in v.chains && a != Finish(h)
    ensures v.chains[h].b in v.data && v.chains[h].blockno < |v.disk|
    ensures var c, t := v.chains[h], After(v, a);
            && h in t.chains && t.chains[h] == c && c.b in t.data
            && (Waiting(t, h) <==> Waiting(v, h) && a != Complete(h))
            && (a != Complete(h) ==> t.data[c.b] == v.data[c.b])
            && (a == Complete(h) ==> Waiting(v, h))
            && (a == Complete(h) ==> t.disk == if c.write then v.disk[c.blockno := v.data[c.b]] else v.disk)
            && (a == Complete(h) ==> t.data[c.b] == if c.write then v.data[c.b] else v.disk[c.blockno])
  {
    hide Split, RingOk, Formatted, ChainOwned;
    ChainBuffer(v, h);
    Possible(v, a);
    match a {
      case Submit(g, c) => SubmitKeeps(v, g, c);
      case Take =>
        assert forall g :: g in v.queue <==> g == v.queue[0] || g in v.queue[1..];
      case Complete(g) => OtherBuffer(v, g, h);
      case Handle => assert v.usedQueue[0] in v.usedQueue;
      case Finish(g) =>
      case Change(b, x) => assert !InFlight(v, b) ==> v.chains[h].b != b;
    }
  }

  lemma ChainBuffer<T>(v: Vq<T>, h: nat)
    requires Inv(v) && h in v.chains
    ensures v.chains[h].b in v.data && v.chains[h].blockno < |v.disk|
  {
    assert Formatted(v, h, v.chains[h]);
  }

  lemma OtherBuffer<T>(v: Vq<T>, g: nat, h: nat)
    requires Inv(v) && g in v.inDevice && h in v.chains
    ensures g in v.chains && (g != h ==> v.chains[g].b != v.chains[h].b) && g !in v.queue
  {
    hide Formatted;
  }

  // ----- every request takes effect once

  /** From action i, which submitted c with head h, to state m the device carried out the
      request exactly once, at action k: it wrote what the buffer held on submission, or the
      buffer now holds what the disk held then. */
  ghost predicate EffectAt<T>(states: seq<Vq<T>>, actions: seq<Action<T>>, h: nat, c: Chain, i: nat, m: nat, k: nat)
    requires |states| == |actions| + 1 && i < m < |states|
  {
    && i < k < m && actions[k] == Complete(h) && (forall x :: i < x < m && actions[x] == Complete(h) ==> x == k)
    && c.b in states[i].data && c.b in states[m].data && c.blockno < |states[k].disk|
    && states[k + 1].disk == (if c.write then states[k].disk[c.blockno := states[i].data[c.b]] else states[k].disk)
    && states[m].data[c.b] == if c.write then states[i].data[c.b] else states[k].disk[c.blockno]
  }

  /** Where a request has got to by state m. */
  ghost predicate Served<T>(states: seq<Vq<T>>, actions: seq<Action<T>>, h: nat, c: Chain, i: nat, m: nat)
    requires |states| == |actions| + 1 && i < m < |states|
  {
    && h in states[m].chains && states[m].chains[h] == c && c.b in states[i].data && c.b in states[m].data
    && if Waiting(states[m], h) then
         states[m].data[c.b] == states[i].data[c.b] && forall x :: i < x < m ==> actions[x] != Complete(h)
       else exists k :: EffectAt(states, actions, h, c, i, m, k)
  }

  lemma {:induction false} ServedUpTo<T>(states: seq<Vq<T>>, actions: seq<Action<T>>, h: nat, c: Chain, i: nat, m: nat)
    requires IsRun(states, actions) && i < m < |states| && actions[i] == Submit(h, c)
    requires forall x :: i < x < m ==> actions[x] != Finish(h)
    ensures Served(states, actions, h, c, i, m)
    decreases m
  {
    hide Inv, Enabled, After, Steps, Served;
    RunsKeepInv(states, actions, m - 1);
    if m == i + 1 {
      JustSubmitted(states, actions, h, c, i);
    } else {
      ServedUpTo(states, actions, h, c, i, m - 1);
      ServedNext(states, actions, h, c, i, m - 1);
    }
  }

  lemma JustSubmitted<T>(states: seq<Vq<T>>, actions: seq<Action<T>>, h: nat, c: Chain, i: nat)
    requires |states| == |actions| + 1 && i < |actions| && actions[i] == Submit(h, c)
    requires Inv(states[i]) && Enabled(states[i], actions[i]) && states[i + 1] == After(states[i], actions[i])
    ensures Served(states, actions, h, c, i, i + 1)
  {
    hide Inv, ChainOwned, Formatted;
  }

  lemma ServedNext<T>(states: seq<Vq<T>>, actions: seq<Action<T>>, h: nat, c: Chain, i: nat, m: nat)
    requires |states| == |actions| + 1 && i < m < |actions| && Served(states, actions, h, c, i, m)
             && actions[m] != Finish(h)
    requires Inv(states[m]) && Enabled(states[m], actions[m]) && states[m + 1] == After(states[m], actions[m])
    ensures Served(states, actions, h, c, i, m + 1)
  {
    hide Inv, Enabled, After, Waiting;
    StepServes(states[m], actions[m], h);
    if Waiting(states[m], h) {
      if actions[m] == Complete(h) {
        assert EffectAt(states, actions, h, c, i, m + 1, m);
      }
    } else {
      var k :| EffectAt(states, actions, h, c, i, m, k);
      assert EffectAt(states, actions, h, c, i, m + 1, k);
    }
  }

  /** A request that has been submitted and finished took effect once, at one moment in
      between, whatever else was going on. */
  lemma TakesEffectOnce<T>(states: seq<Vq<T>>, actions: seq<Action<T>>, h: nat, c: Chain, i: nat, j: nat)
    requires IsRun(states, actions) && i < j < |actions| && actions[i] == Submit(h, c) && actions[j] == Finish(h)
    requires forall x :: i < x < j ==> actions[x] != Finish(h)
    ensures exists k :: EffectAt(states, actions, h, c, i, j, k)
  {
    hide Inv, After, Steps, EffectAt;
    ServedUpTo(states, actions, h, c, i, j);
    RunsKeepInv(states, actions, j);
    Possible(states[j], actions[j]);
    NotWaiting(states[j], h);
  }

  lemma NotWaiting<T>(v: Vq<T>, h: nat)
    requires Inv(v) && h in v.done
    ensures !Waiting(v, h)
  {
  }
}
