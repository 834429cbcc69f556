/** The pipe of pipe.c: a ring of PIPESIZE bytes whose two counters wrap at 2^32. A method is
    what runs under the pipe's lock, from taking it to giving it up in sleep or release. */
module Pipe {
  const PIPESIZE: int := 512
  const WRAP: int := 0x1_0000_0000

  datatype Outcome = Returned(r: int) | Asleep

  /** A counter modulo 2^32 finds the same slot as the count itself. */
  lemma SameSlot(count: int)
    requires 0 <= count
    ensures (count % WRAP) % PIPESIZE == count % PIPESIZE
    ensures (count + 1) % WRAP == (count % WRAP + 1) % WRAP
  {
    var q := count / WRAP;
    assert count == count % WRAP + PIPESIZE * (q * 0x80_0000);
    SlotOf(count % WRAP, q * 0x80_0000);
    if count % WRAP == WRAP - 1 {
      assert count + 1 == WRAP * (q + 1);
    }
  }

  lemma SlotOf(a: int, k: int)
    requires 0 <= a && 0 <= k
    ensures (a + PIPESIZE * k) % PIPESIZE == a % PIPESIZE
  {
  }

  /** Different bytes of a window of PIPESIZE lie in different slots. */
  lemma OwnSlot(i: int, j: int)
    requires 0 <= i < j < i + PIPESIZE
    ensures i % PIPESIZE != j % PIPESIZE
  {
  }

  /** Two counts at most PIPESIZE apart are told apart by their counters. */
  lemma Distance(a: int, b: int)
    requires 0 <= a <= b <= a + PIPESIZE
    ensures a % WRAP == b % WRAP <==> a == b
    ensures b % WRAP == (a % WRAP + PIPESIZE) % WRAP <==> b == a + PIPESIZE
  {
  }

  /** Bytes from .. to-1 of a stream are in their slots. */
  ghost predicate InSlots(data: seq<int>, stream: seq<int>, from: int, to: int)
    requires |data| == PIPESIZE && 0 <= from <= to <= |stream|
  {
    forall k :: from <= k < to ==> data[k % PIPESIZE] == stream[k]
  }

  lemma Stored(data: seq<int>, stream: seq<int>, from: int, c: int)
    requires |data| == PIPESIZE && 0 <= from <= |stream| < from + PIPESIZE && InSlots(data, stream, from, |stream|)
    ensures InSlots(data[|stream| % PIPESIZE := c], stream + [c], from, |stream| + 1)
  {
    forall k | from <= k < |stream|
      ensures k % PIPESIZE != |stream| % PIPESIZE
    {
      OwnSlot(k, |stream|);
    }
  }

  class Ring {
    var data: seq<int>
    var nread: int
    var nwrite: int
    var readopen: bool
    var writeopen: bool
    var readersAsleep: bool       // some process sleeps on &nread
    var writersAsleep: bool       // some process sleeps on &nwrite
    ghost var accepted: seq<int>  // what writers have put in, ever
    ghost var delivered: nat      // how much of it readers have taken out

    constructor ()
      ensures Valid() && Awake() && accepted == [] && delivered == 0 && readopen && writeopen
      ensures !readersAsleep && !writersAsleep
    {
      data := seq(PIPESIZE, _ => 0);
      nread, nwrite, readopen, writeopen := 0, 0, true, true;
      readersAsleep, writersAsleep := false, false;
      accepted, delivered := [], 0;
    }

    /** The counters are the counts modulo 2^32, and the ring holds what was accepted and not
        delivered yet: at most PIPESIZE bytes. */
    ghost predicate Valid()
      reads this
    {
      && |data| == PIPESIZE && delivered <= |accepted| <= delivered + PIPESIZE
      && nread == delivered % WRAP && nwrite == |accepted| % WRAP
      && InSlots(data, accepted, delivered, |accepted|)
    }

    /** Nobody sleeps without a reason. */
    ghost predicate Awake()
      reads this
    {
      && (readersAsleep ==> delivered == |accepted| && writeopen)
      && (writersAsleep ==> |accepted| == delivered + PIPESIZE && readopen)
    }

    /** pipewrite, from its start or from where a sleep returned at byte from: until all is
        stored, the ring is full, copyin fails at byte bad, or the process is seen killed at
        byte end. */
    method Write(bytes: seq<int>, from: nat, bad: nat, end: nat) returns (i: nat, out: Outcome)
      requires Valid() && from <= |bytes|
      modifies this`data, this`nwrite, this`accepted, this`readersAsleep, this`writersAsleep
      ensures Valid() && from <= i <= |bytes| && accepted == old(accepted) + bytes[from..i]
      ensures out == Asleep <==>
              readopen && i < |bytes| && i < end && |old(accepted)| + (i - from) == delivered + PIPESIZE
      ensures out == Returned(-1) <==> i < |bytes| && (!readopen || i >= end)
      ensures out.Returned? && out.r != -1 ==> out.r == i && (i == |bytes| || i == bad)
      ensures readersAsleep == (old(readersAsleep) && out == Returned(-1))
              && writersAsleep == (old(writersAsleep) || out == Asleep)
      ensures old(Awake()) ==> (Awake() <==> !(old(readersAsleep) && readopen
                                               && StoresThenDies(|bytes|, old(|accepted|) - delivered, from, bad, end)))
    {
      i := from;
      while i < |bytes|
        invariant from <= i <= |bytes| && Valid() && accepted == old(accepted) + bytes[from..i]
        invariant (i > from ==> readopen && i <= end) && |old(accepted)| + (i - from) <= delivered + PIPESIZE
                  && !(from <= bad < i)
        invariant readersAsleep == old(readersAsleep) && writersAsleep == old(writersAsleep)
        invariant i > from ==> delivered < |accepted| && |old(accepted)| < delivered + PIPESIZE
      {
        if !readopen || i >= end {
          return i, Returned(-1);
        }
        Distance(delivered, |accepted|);
        if nwrite == (nread + PIPESIZE) % WRAP {
          readersAsleep := false;
          writersAsleep := true;
          return i, Asleep;
        }
        if i == bad {
          break;
        }
        SameSlot(|accepted|);
        Stored(data, accepted, delivered, bytes[i]);
        data := data[nwrite % PIPESIZE := bytes[i]];
        nwrite := (nwrite + 1) % WRAP;
        accepted := accepted + [bytes[i]];
        i := i + 1;
      }
      readersAsleep := false;
      return i, Returned(i);
    }

    /** piperead, from its start or from where a sleep returned: dead is what killed answers,
        and copyout fails at byte bad. */
    method Read(n: nat, dead: bool, bad: nat) returns (bytes: seq<int>, out: Outcome)
      requires Valid()
      modifies this`nread, this`delivered, this`readersAsleep, this`writersAsleep
      ensures Valid() && delivered == old(delivered) + |bytes| && bytes == accepted[old(delivered)..delivered]
      ensures out == Asleep <==> old(delivered) == |accepted| && writeopen && !dead
      ensures old(delivered) == |accepted| && writeopen ==> bytes == [] && (dead ==> out == Returned(-1))
      ensures !(old(delivered) == |accepted| && writeopen) ==>
                && |bytes| == Least(n, Least(bad, |accepted| - old(delivered)))
                && out == Returned(if bad == 0 && n > 0 && old(delivered) < |accepted| then -1 else |bytes|)
      ensures readersAsleep == (old(readersAsleep) || out == Asleep)
      ensures writersAsleep == (old(writersAsleep) && old(delivered) == |accepted| && writeopen)
      ensures old(Awake()) ==> Awake()
    {
      bytes := [];
      Distance(delivered, |accepted|);
      if nread == nwrite && writeopen {
        if dead {
          return [], Returned(-1);
        }
        readersAsleep := true;
        return [], Asleep;
      }
      var i := 0;
      var r := 0;
      while i < n
        invariant 0 <= i <= n && i == |bytes| && r == i && Valid() && delivered == old(delivered) + i
        invariant bytes == accepted[old(delivered)..delivered] && i <= bad
        invariant readersAsleep == old(readersAsleep) && writersAsleep == old(writersAsleep)
        invariant i == 0 ==> delivered == old(delivered)
      {
        Distance(delivered, |accepted|);
        if nread == nwrite {
          break;
        }
        SameSlot(delivered);
        var ch := data[nread % PIPESIZE];
        if i == bad {
          if i == 0 {
            r := -1;
          }
          break;
        }
        nread := (nread + 1) % WRAP;
        bytes := bytes + [ch];
        delivered := delivered + 1;
        i := i + 1;
        r := i;
      }
      writersAsleep := false;
      out := Returned(r);
    }

    /** pipeclose for one end; freed tells whether the page of the pipe goes back to kalloc. */
    method Close(writable: bool) returns (freed: bool)
      requires Valid()
      modifies this`readopen, this`writeopen, this`readersAsleep, this`writersAsleep
      ensures Valid() && (old(Awake()) ==> Awake())
      ensures readopen == (old(readopen) && writable) && writeopen == (old(writeopen) && !writable)
      ensures freed <==> !readopen && !writeopen
      ensures old(Awake()) && freed ==> !readersAsleep && !writersAsleep
    {
      if writable {
        writeopen := false;
        readersAsleep := false;
      } else {
        readopen := false;
        writersAsleep := false;
      }
      freed := !readopen && !writeopen;
    }
  }

  /** Of n bytes, some are stored from byte `from` on, in a ring with `held` bytes in it, and
      then the writer finds itself killed at byte `end`: the ring does not fill up before that,
      and copyin does not fail. */
  predicate StoresThenDies(n: nat, held: int, from: nat, bad: nat, end: nat) {
    from < end < n && held + (end - from) <= PIPESIZE && !(from <= bad < end)
  }

  /** A reader asleep on an empty pipe, and a writer of two bytes that is killed after the
      first: the reader stays asleep in front of that byte. */
  method ReaderLeftAsleep() returns (pipe: Ring)
    ensures pipe.Valid() && pipe.readersAsleep && pipe.writeopen && pipe.delivered < |pipe.accepted|
  {
    pipe := new Ring();
    var _, _ := pipe.Read(1, false, 1);
    assert pipe.readersAsleep;
    var _, _ := pipe.Write([65, 66], 0, 2, 1);
  }

  function Least(a: int, b: int): int {
    if a < b then a else b
  }
}
