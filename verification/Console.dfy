/** The console's input of console.c: a ring of INPUT_BUF_SIZE characters with a read, a write
    and an edit index that wrap at 2^32. The characters between read and write index are lines
    for readers; those between write and edit index are the line being typed. */
module Console {
  const INPUT_BUF_SIZE: int := 128
  const WRAP: int := 0x1_0000_0000

  const CTRL_D: int := 4
  const CTRL_H: int := 8
  const CTRL_P: int := 16
  const CTRL_U: int := 21
  const DELETE: int := 127
  const NEWLINE: int := 10
  const RETURN: int := 13

  datatype Outcome = Returned(r: int) | Asleep

  /** Sums and differences of indices, as unsigned numbers of 32 bits. */
  function Plus(a: int, b: int): int {
    (a + b) % WRAP
  }

  function Minus(a: int, b: int): int {
    (a - b) % WRAP
  }

  function At(i: int): (k: int)
    ensures 0 <= k < INPUT_BUF_SIZE
  {
    i % INPUT_BUF_SIZE
  }

  /** The slot of the character n places behind index r. */
  function Slot(r: int, n: int): int {
    At(Plus(r, n))
  }

  lemma SlotIs(r: int, n: int)
    requires 0 <= r && 0 <= n
    ensures Slot(r, n) == (r + n) % INPUT_BUF_SIZE
  {
    var q := (r + n) / WRAP;
    assert r + n == Plus(r, n) + INPUT_BUF_SIZE * (q * 0x200_0000);
    Multiple(Plus(r, n), q * 0x200_0000);
  }

  lemma Multiple(a: int, k: int)
    requires 0 <= a && 0 <= k
    ensures (a + INPUT_BUF_SIZE * k) % INPUT_BUF_SIZE == a % INPUT_BUF_SIZE
  {
  }

  /** Characters closer together than the ring's size have slots of their own. */
  lemma SlotsDiffer(r: int, m: int, n: int)
    requires 0 <= r && 0 <= m < n < m + INPUT_BUF_SIZE
    ensures Slot(r, m) != Slot(r, n)
  {
    SlotIs(r, m);
    SlotIs(r, n);
  }

  /** The ring holds s from index r on. */
  ghost predicate Holds(buf: seq<int>, r: int, s: seq<int>)
    requires |buf| == INPUT_BUF_SIZE
  {
    forall k :: 0 <= k < |s| ==> buf[Slot(r, k)] == s[k]
  }

  lemma Appended(buf: seq<int>, r: int, s: seq<int>, c: int)
    requires |buf| == INPUT_BUF_SIZE && 0 <= r && Holds(buf, r, s) && |s| < INPUT_BUF_SIZE
    ensures Holds(buf[Slot(r, |s|) := c], r, s + [c])
  {
    forall k | 0 <= k < |s|
      ensures Slot(r, k) != Slot(r, |s|)
    {
      SlotsDiffer(r, k, |s|);
    }
  }

  lemma Advanced(buf: seq<int>, r: int, s: seq<int>)
    requires |buf| == INPUT_BUF_SIZE && 0 <= r < WRAP && Holds(buf, r, s) && s != []
    ensures buf[At(r)] == s[0] && Holds(buf, Plus(r, 1), s[1..])
  {
    assert Slot(r, 0) == At(r);
    forall k | 0 <= k < |s[1..]|
      ensures buf[Slot(Plus(r, 1), k)] == s[1..][k]
    {
      SlotIs(Plus(r, 1), k);
      SlotIs(r, k + 1);
      SlotIs(r + 1, k);
      SameNext(r, k);
    }
  }

  lemma SameNext(r: int, k: int)
    requires 0 <= r < WRAP && 0 <= k
    ensures Slot(Plus(r, 1), k) == Slot(r, k + 1)
  {
    if r + 1 == WRAP {
      assert r + (k + 1) == k + WRAP;
      assert (k + WRAP) % WRAP == k % WRAP;
    }
  }

  /** Adding to an index and taking the index off again. */
  lemma Apart(r: int, n: int)
    requires 0 <= r < WRAP && 0 <= n < WRAP
    ensures Minus(Plus(r, n), r) == n
    ensures Plus(Plus(r, n), 1) == Plus(r, n + 1)
    ensures n > 0 ==> Minus(Plus(r, n), 1) == Plus(r, n - 1)
  {
  }

  lemma SameIndex(r: int, m: int, n: int)
    requires 0 <= r < WRAP && 0 <= m <= n < WRAP
    ensures Plus(r, m) == Plus(r, n) <==> m == n
  {
    Apart(r, m);
    Apart(r, n);
  }

  /** What a reader of at most n characters gets from the lines typed: up to a newline, which it
      gets too, or up to an end-of-file mark, which it does not get. */
  function Line(s: seq<int>, n: nat): (l: seq<int>)
    ensures |l| <= n && |l| <= |s| && l == s[..|l|]
  {
    if n == 0 || s == [] || s[0] == 4 then []
    else if s[0] == 10 then [10]
    else [s[0]] + Line(s[1..], n - 1)
  }

  /** A reader of n more characters uses up the lines typed: there are fewer, no newline and
      no control-D is among them, and copying them out goes well. */
  predicate RunsOut(s: seq<int>, n: int, bad: int) {
    |s| < n && |s| <= bad && forall k :: 0 <= k < |s| ==> s[k] != 4 && s[k] != 10
  }

  lemma RunsOutNow(n: int, bad: int)
    ensures n > 0 && bad >= 0 ==> RunsOut([], n, bad)
  {
  }

  lemma NoLongerOut(s: seq<int>, n: int, bad: int)
    ensures n <= 0 || (s != [] && (s[0] == 4 || s[0] == 10 || bad <= 0)) ==> !RunsOut(s, n, bad)
  {
  }

  lemma RunsOutStep(s: seq<int>, n: int, bad: int)
    requires s != [] && s[0] != 4 && s[0] != 10
    ensures RunsOut(s, n, bad) <==> RunsOut(s[1..], n - 1, bad - 1)
  {
    if RunsOut(s[1..], n - 1, bad - 1) {
      forall k | 0 <= k < |s|
        ensures s[k] != 4 && s[k] != 10
      {
        assert k > 0 ==> s[k] == s[1..][k - 1];
      }
    }
  }

  class Cons {
    var buf: seq<int>
    var r: int
    var w: int
    var e: int
    var asleep: bool            // some process sleeps on &cons.r
    ghost var lines: seq<int>   // from r to w
    ghost var typed: seq<int>   // from w to e

    constructor ()
      ensures Valid() && !asleep && lines == [] && typed == []
    {
      buf, r, w, e, asleep := seq(INPUT_BUF_SIZE, _ => 0), 0, 0, 0, false;
      lines, typed := [], [];
    }

    /** w - r and e - r are the lengths, at most the size of the ring, the contents are in
        their slots, and the line being typed has neither an end nor a full ring behind it. */
    ghost predicate Valid()
      reads this`buf, this`r, this`w, this`e, this`lines, this`typed
    {
      && |buf| == INPUT_BUF_SIZE && 0 <= r < WRAP && |lines| + |typed| <= INPUT_BUF_SIZE
      && w == Plus(r, |lines|) && e == Plus(r, |lines| + |typed|)
      && Holds(buf, r, lines + typed)
      && NEWLINE !in typed && CTRL_D !in typed
    }

    ghost predicate Awake()
      reads this
    {
      asleep ==> lines == []
    }

    lemma Empty()
      requires Valid()
      ensures r == w <==> lines == []
    {
      SameIndex(r, 0, |lines|);
    }

    /** The character in front of the edit index. */
    lemma Last()
      requires Valid()
      ensures e == w <==> typed == []
      ensures typed != [] ==> buf[At(Minus(e, 1))] == typed[|typed| - 1]
    {
      var all := lines + typed;
      SameIndex(r, |lines|, |all|);
      Apart(r, |all|);
      if typed != [] {
        assert buf[Slot(r, |all| - 1)] == all[|all| - 1];
      }
    }

    /** consoleintr, for the characters that change the buffer; the echo is the number of
        erasures and the characters sent back. */
    method Intr(c: int) returns (erased: nat, echo: seq<int>)
      requires Valid() && 0 <= c < 256
      modifies this
      ensures Valid() && r == old(r) && (old(Awake()) ==> Awake())
      ensures |lines| == |old(lines)| ==> asleep == old(asleep)
      ensures c == 16 || c == 0 ==> lines == old(lines) && typed == old(typed) && erased == 0 && echo == []
      ensures c == 21 ==> lines == old(lines) && typed == [] && erased == |old(typed)| && echo == []
      ensures c == 8 || c == 127 ==>
                && lines == old(lines) && erased == Shorter(old(typed)) && echo == []
                && typed == old(typed)[..|old(typed)| - erased]
      ensures Ordinary(c) && |old(lines)| + |old(typed)| == 128 ==>
                lines == old(lines) && typed == old(typed) && erased == 0 && echo == []
      ensures Ordinary(c) && |old(lines)| + |old(typed)| < 128 ==> erased == 0 && echo == [Shown(c)]
      ensures Ordinary(c) && |old(lines)| + |old(typed)| < 128 ==>
                if Ends(c) || |old(lines)| + |old(typed)| == 127
                then lines == old(lines) + old(typed) + [Shown(c)] && typed == [] && !asleep
                else lines == old(lines) && typed == old(typed) + [Shown(c)] && asleep == old(asleep)
    {
      hide Valid, Holds, Minus, Plus, At;
      erased, echo := 0, [];
      if c == CTRL_P {
      } else if c == CTRL_U {
        erased := Kill();
      } else if c == CTRL_H || c == DELETE {
        Last();
        if e != w {
          Erase();
          erased := 1;
        }
      } else {
        echo := Accept(c);
      }
    }

    /** Control-U: erases up to the last newline, and so the whole line being typed. */
    method Kill() returns (erased: nat)
      requires Valid()
      modifies this`e, this`typed
      ensures Valid() && typed == [] && erased == |old(typed)|
    {
      hide Holds, Minus, Plus, At;
      erased := 0;
      Last();
      while e != w && buf[At(Minus(e, 1))] != NEWLINE
        invariant Valid() && |typed| <= |old(typed)| && erased == |old(typed)| - |typed|
        invariant e == w <==> typed == []
        invariant typed != [] ==> buf[At(Minus(e, 1))] == typed[|typed| - 1]
        decreases |typed|
      {
        Erase();
        erased := erased + 1;
        Last();
      }
    }

    /** The default case. */
    method Accept(c: int) returns (echo: seq<int>)
      requires Valid() && 0 <= c < 256
      modifies this
      ensures Valid() && r == old(r) && (old(Awake()) ==> Awake())
      ensures c == 0 || |old(lines)| + |old(typed)| >= 128 ==>
                lines == old(lines) && typed == old(typed) && echo == [] && asleep == old(asleep)
      ensures c != 0 && |old(lines)| + |old(typed)| < 128 ==> echo == [Shown(c)]
      ensures c != 0 && |old(lines)| + |old(typed)| < 128 ==>
                if Ends(c) || |old(lines)| + |old(typed)| == 127
                then lines == old(lines) + old(typed) + [Shown(c)] && typed == [] && !asleep
                else lines == old(lines) && typed == old(typed) + [Shown(c)] && asleep == old(asleep)
    {
      hide Holds, Slot, Minus, Plus, At;
      echo := [];
      ghost var all := lines + typed;
      Apart(r, |all|);
      if c != 0 && Minus(e, r) < INPUT_BUF_SIZE {
        var d := if c == RETURN then NEWLINE else c;
        echo := [d];
        EditSlot(r, |all|, e);
        Appended(buf, r, all, d);
        Apart(r, |all| + 1);
        buf := buf[At(e) := d];
        e := Plus(e, 1);
        if d == NEWLINE || d == CTRL_D || Minus(e, r) == INPUT_BUF_SIZE {
          w := e;
          asleep := false;
          lines, typed := lines + typed + [d], [];
        } else {
          typed := typed + [d];
        }
        assert lines + typed == all + [d];
      }
    }

    /** One character less in the line being typed. */
    method Erase()
      requires Valid() && typed != []
      modifies this`e, this`typed
      ensures Valid() && typed == old(typed)[..|old(typed)| - 1]
    {
      hide Slot, Minus, Plus, At;
      ghost var all := lines + typed;
      Apart(r, |all|);
      e := Minus(e, 1);
      typed := typed[..|typed| - 1];
      assert lines + typed == all[..|all| - 1];
    }

    /** consoleread under the lock: from its start, or from where a sleep returned, with got
        characters already copied out; dead is what killed answers at an empty buffer and
        copyout fails at character bad. */
    method Read(n: nat, got: nat, dead: bool, bad: nat) returns (chars: seq<int>, out: Outcome)
      requires Valid() && got <= n && got <= bad
      modifies this`r, this`lines, this`asleep
      ensures Valid() && w == old(w) && e == old(e)
      ensures old(Awake()) ==> Awake()
      ensures chars <= Line(old(lines), n - got) && got + |chars| <= n
      ensures out == Asleep <==> !dead && RunsOut(old(lines), n - got, bad - got)
      ensures out == Returned(-1) <==> dead && RunsOut(old(lines), n - got, bad - got)
      ensures asleep <==> old(asleep) || out == Asleep
      ensures out == Asleep || out == Returned(-1) ==> lines == [] && chars == old(lines)
      ensures out.Returned? && out.r != -1 ==> out.r == got + |chars|
      ensures out.Returned? && out.r != -1 ==> |chars| == Least(|Line(old(lines), n - got)|, bad - got)
      ensures out.Returned? && out.r != -1 ==>
                lines == Rest(old(lines),
                              |chars| + if |chars| < |Line(old(lines), n - got)| || (out.r == 0 && n > 0) then 1 else 0)
    {
      hide Valid, Holds, Minus, Plus, At, Line, Rest, RunsOut, Reading;
      ghost var all := lines;
      chars := [];
      var left := n - got;
      var target := n;
      ReadingStart(all, left, bad - got);
      while left > 0
        invariant left == n - got - |chars| >= 0 && Valid() && w == old(w) && e == old(e) && asleep == old(asleep)
        invariant Reading(all, lines, chars, n - got, bad - got) && (lines != [] ==> all != [])
      {
        Empty();
        ReadingSome(all, lines, chars, n - got, bad - got);
        if r == w {
          if dead {
            return chars, Returned(-1);
          }
          asleep := true;
          return chars, Asleep;
        }
        ghost var was := lines;
        ReadingEof(all, was, chars, n - got, bad - got, got);
        var c := Take();
        if c == CTRL_D {
          if left < target {
            PutBack(was);
          }
          break;
        }
        if target - left == bad {
          break;
        }
        ReadingNext(all, was, chars, n - got, bad - got, got);
        chars := chars + [c];
        left := left - 1;
        if c == NEWLINE {
          break;
        }
      }
      ReadingFull(all, lines, chars, n - got, bad - got, got);
      out := Returned(target - left);
    }

    /** The character at the read index. */
    method Take() returns (c: int)
      requires Valid() && lines != []
      modifies this`r, this`lines
      ensures Valid() && c == old(lines)[0] && lines == old(lines)[1..]
      ensures buf[At(Minus(r, 1))] == c && |old(lines)| + |typed| <= INPUT_BUF_SIZE
    {
      hide Holds, Slot, Minus, Plus, At;
      ghost var all := lines + typed;
      Advanced(buf, r, all);
      Undo(r);
      IndexKept(r, |lines|);
      IndexKept(r, |all|);
      c := buf[At(r)];
      r := Plus(r, 1);
      lines := lines[1..];
      assert lines + typed == all[1..];
    }

    /** The read index back on the character before it, which is still there. */
    method PutBack(ghost was: seq<int>)
      requires Valid() && was != [] && lines == was[1..] && |was| + |typed| <= INPUT_BUF_SIZE
      requires buf[At(Minus(r, 1))] == was[0]
      modifies this`r, this`lines
      ensures Valid() && lines == was
    {
      hide Holds, Slot, Minus, Plus, At;
      ghost var all := was + typed;
      assert all[1..] == lines + typed;
      Retreated(buf, r, all);
      IndexBack(r, |was|);
      IndexBack(r, |all|);
      r := Minus(r, 1);
      lines := was;
    }
  }

  lemma IndexKept(r: int, n: int)
    requires 0 <= r < WRAP && 1 <= n
    ensures Plus(r, n) == Plus(Plus(r, 1), n - 1)
  {
    if r + 1 == WRAP {
      assert r + n == (n - 1) + WRAP;
    }
  }

  lemma Undo(r: int)
    requires 0 <= r < WRAP
    ensures Minus(Plus(r, 1), 1) == r && 0 <= Plus(r, 1) < WRAP
  {
  }

  lemma IndexBack(r: int, n: int)
    requires 0 <= r < WRAP && 1 <= n
    ensures 0 <= Minus(r, 1) < WRAP && Plus(Minus(r, 1), n) == Plus(r, n - 1)
  {
    var q := Minus(r, 1);
    assert Plus(q, 1) == r;
    IndexKept(q, n);
  }

  lemma Retreated(buf: seq<int>, r: int, s: seq<int>)
    requires |buf| == INPUT_BUF_SIZE && 0 <= r < WRAP && s != [] && Holds(buf, r, s[1..])
    requires buf[At(Minus(r, 1))] == s[0]
    ensures Holds(buf, Minus(r, 1), s)
  {
    var q := Minus(r, 1);
    assert Plus(q, 1) == r;
    forall k | 0 <= k < |s|
      ensures buf[Slot(q, k)] == s[k]
    {
      if k > 0 {
        SameNext(q, k - 1);
        assert buf[Slot(r, k - 1)] == s[1..][k - 1];
      } else {
        assert Slot(q, 0) == At(q);
      }
    }
  }

  /** Of the lines in `all` consoleread has copied out chars, s is left, and it wants n in
      all, of which copyout fails at number bad. */
  ghost predicate Reading(all: seq<int>, s: seq<int>, chars: seq<int>, n: nat, bad: nat) {
    && |chars| <= n && |chars| <= bad && chars <= all && s == all[|chars|..]
    && Line(all, n) == chars + Line(s, n - |chars|)
    && (RunsOut(all, n, bad) <==> RunsOut(s, n - |chars|, bad - |chars|))
  }

  /** consoleread is through, without having run out of characters. */
  ghost predicate ReadDone(all: seq<int>, s: seq<int>, chars: seq<int>, n: nat, bad: nat, got: nat) {
    && !RunsOut(all, n, bad) && chars <= Line(all, n) && |chars| == Least(|Line(all, n)|, bad)
    && s == Rest(all, |chars| + if |chars| < |Line(all, n)| || (got + |chars| == 0 && n > 0) then 1 else 0)
  }

  lemma ReadingStart(all: seq<int>, n: nat, bad: nat)
    ensures Reading(all, all, [], n, bad)
  {
  }

  lemma ReadingSome(all: seq<int>, s: seq<int>, chars: seq<int>, n: nat, bad: nat)
    requires Reading(all, s, chars, n, bad) && |chars| < n
    ensures chars <= Line(all, n) && |chars| <= bad
    ensures s == [] ==> RunsOut(all, n, bad) && chars == all
  {
    hide Line;
    RunsOutNow(n - |chars|, bad - |chars|);
  }

  /** The next character is not copied out: a control-D, or copyout fails. */
  lemma ReadingEof(all: seq<int>, s: seq<int>, chars: seq<int>, n: nat, bad: nat, got: nat)
    requires Reading(all, s, chars, n, bad) && |chars| < n
    ensures s != [] && s[0] == 4 && got + |chars| > 0 ==> ReadDone(all, s, chars, n, bad, got)
    ensures s != [] && s[0] == 4 && got + |chars| == 0 ==> ReadDone(all, s[1..], chars, n, bad, got)
    ensures s != [] && s[0] != 4 && |chars| == bad ==> ReadDone(all, s[1..], chars, n, bad, got)
  {
    hide RunsOut;
    NoLongerOut(s, n - |chars|, bad - |chars|);
    if s != [] {
      assert s[1..] == all[|chars| + 1..];
      assert s[0] != 4 ==> |Line(s, n - |chars|)| > 0;
    }
  }

  lemma ReadingNext(all: seq<int>, s: seq<int>, chars: seq<int>, n: nat, bad: nat, got: nat)
    requires Reading(all, s, chars, n, bad) && |chars| < n && |chars| < bad && s != [] && s[0] != 4
    ensures s[0] != 10 ==> Reading(all, s[1..], chars + [s[0]], n, bad)
    ensures s[0] == 10 ==> ReadDone(all, s[1..], chars + [s[0]], n, bad, got)
  {
    hide RunsOut;
    NoLongerOut(s, n - |chars|, bad - |chars|);
    assert chars + [s[0]] == all[..|chars| + 1] && s[1..] == all[|chars| + 1..];
    if s[0] != 10 {
      RunsOutStep(s, n - |chars|, bad - |chars|);
      assert chars + Line(s, n - |chars|) == (chars + [s[0]]) + Line(s[1..], n - |chars| - 1);
    }
  }

  lemma ReadingFull(all: seq<int>, s: seq<int>, chars: seq<int>, n: nat, bad: nat, got: nat)
    ensures Reading(all, s, chars, n, bad) && |chars| == n ==> ReadDone(all, s, chars, n, bad, got)
  {
    hide RunsOut;
    NoLongerOut(s, n - |chars|, bad - |chars|);
  }

  lemma EditSlot(r: int, n: int, e: int)
    requires e == Plus(r, n)
    ensures Slot(r, n) == At(e)
  {
  }

  /** The sequence without its first k elements. */
  function Rest(s: seq<int>, k: nat): seq<int> {
    if k <= |s| then s[k..] else []
  }

  function Least(a: int, b: int): int {
    if a < b then a else b
  }

  predicate Ordinary(c: int) {
    c !in {0, 8, 16, 21, 127}
  }

  /** Carriage return is stored and echoed as newline. */
  function Shown(c: int): int {
    if c == 13 then 10 else c
  }

  predicate Ends(c: int) {
    c == 10 || c == 13 || c == 4
  }

  function Shorter(s: seq<int>): nat {
    if s == [] then 0 else 1
  }
}
