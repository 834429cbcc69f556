/** Single-block disk writes, atomic with respect to crashes, and the two kinds of
    copying the redo log does with them: into the log area and to home blocks. */
module DiskWrites {
  const MAXOPBLOCKS: nat := 10
  const LOGBLOCKS: nat := 3 * MAXOPBLOCKS

  datatype Write<T> = Write(bn: nat, data: T)

  ghost predicate InRange<T>(d: seq<T>, ws: seq<Write<T>>) {
    forall i :: 0 <= i < |ws| ==> ws[i].bn < |d|
  }

  function Apply<T>(d: seq<T>, ws: seq<Write<T>>): (r: seq<T>)
    requires InRange(d, ws)
    ensures |r| == |d|
  {
    if ws == [] then d
    else
      var last := ws[|ws| - 1];
      Apply(d, ws[..|ws| - 1])[last.bn := last.data]
  }

  lemma ApplySnoc<T>(d: seq<T>, ws: seq<Write<T>>, w: Write<T>)
    requires InRange(d, ws) && w.bn < |d|
    ensures InRange(d, ws + [w]) && Apply(d, ws + [w]) == Apply(d, ws)[w.bn := w.data]
  {
    assert (ws + [w])[..|ws|] == ws;
  }

  lemma {:induction false} ApplyConcat<T>(d: seq<T>, xs: seq<Write<T>>, ys: seq<Write<T>>)
    requires InRange(d, xs) && InRange(d, ys)
    ensures InRange(d, xs + ys) && InRange(Apply(d, xs), ys)
    ensures Apply(d, xs + ys) == Apply(Apply(d, xs), ys)
    decreases |ys|
  {
    if ys == [] {
      assert xs + ys == xs;
    } else {
      var k := |ys| - 1;
      ApplyConcat(d, xs, ys[..k]);
      ApplySnoc(d, xs + ys[..k], ys[k]);
      assert xs + ys == xs + ys[..k] + [ys[k]];
    }
  }

  /** The first k writes of a list followed by another. */
  lemma ApplyPrefix<T>(d: seq<T>, xs: seq<Write<T>>, ys: seq<Write<T>>, k: nat)
    requires InRange(d, xs) && InRange(d, ys) && k <= |xs| + |ys|
    ensures k <= |xs| ==> (xs + ys)[..k] == xs[..k]
    ensures k >= |xs| ==> (xs + ys)[..k] == xs + ys[..k - |xs|]
    ensures k >= |xs| ==> InRange(d, xs + ys[..k - |xs|]) && InRange(Apply(d, xs), ys[..k - |xs|])
    ensures k >= |xs| ==> Apply(d, xs + ys[..k - |xs|]) == Apply(Apply(d, xs), ys[..k - |xs|])
  {
    if k >= |xs| {
      ApplyConcat(d, xs, ys[..k - |xs|]);
    }
  }

  lemma ApplyOne<T>(d: seq<T>, w: Write<T>)
    requires w.bn < |d|
    ensures InRange(d, [w]) && Apply(d, [w]) == d[w.bn := w.data]
  {
    ApplySnoc(d, [], w);
    assert [] + [w] == [w];
  }

  // ----- the log area and the home blocks

  predicate Home(start: nat, bn: nat) {
    !(start <= bn <= start + LOGBLOCKS)
  }

  /** Block numbers a transaction may carry: distinct home blocks of the disk. */
  predicate Loggable(size: nat, start: nat, h: seq<nat>) {
    && |h| <= LOGBLOCKS
    && (forall i :: 0 <= i < |h| ==> h[i] < size && Home(start, h[i]))
    && (forall i, j :: 0 <= i < j < |h| ==> h[i] != h[j])
  }

  /** The home blocks as they are on the disk. */
  function Homes<T>(d: seq<T>, start: nat): map<nat, T> {
    map bn: nat | bn < |d| && Home(start, bn) :: d[bn]
  }

  /** How one block write changes the home blocks. */
  lemma HomesWrite<T>(d: seq<T>, start: nat, bn: nat, data: T)
    requires bn < |d|
    ensures Homes(d[bn := data], start) == if Home(start, bn) then Homes(d, start)[bn := data] else Homes(d, start)
  {
  }

  /** A view of the home blocks with a transaction's blocks written over it. */
  function Updated<T>(view: map<nat, T>, h: seq<nat>, contents: seq<T>): map<nat, T>
    requires |h| == |contents|
  {
    if h == [] then view
    else
      var k := |h| - 1;
      Updated(view, h[..k], contents[..k])[h[k] := contents[k]]
  }

  // ----- the copying

  function Installs<T>(h: seq<nat>, contents: seq<T>): (ws: seq<Write<T>>)
    requires |h| == |contents|
    ensures |ws| == |h|
  {
    seq(|h|, i requires 0 <= i < |h| => Write(h[i], contents[i]))
  }

  function LogCopies<T>(start: nat, contents: seq<T>): (ws: seq<Write<T>>)
    ensures |ws| == |contents|
  {
    seq(|contents|, i requires 0 <= i < |contents| => Write(start + 1 + i, contents[i]))
  }

  lemma {:induction false} UpdatedAt<T>(view: map<nat, T>, size: nat, start: nat, h: seq<nat>, contents: seq<T>,
                                        bn: nat)
    requires |h| == |contents| && Loggable(size, start, h)
    ensures bn in Updated(view, h, contents) <==> bn in view || bn in h
    ensures forall i :: 0 <= i < |h| && h[i] == bn ==> Updated(view, h, contents)[bn] == contents[i]
    ensures bn in view && bn !in h ==> Updated(view, h, contents)[bn] == view[bn]
    decreases |h|
  {
    if h != [] {
      var k := |h| - 1;
      UpdatedAt(view, size, start, h[..k], contents[..k], bn);
      assert h == h[..k] + [h[k]];
    }
  }

  /** Writing over a partial installation gives the full one. */
  lemma UpdatedAbsorbs<T>(view: map<nat, T>, size: nat, start: nat, h: seq<nat>, contents: seq<T>, k: nat)
    requires |h| == |contents| && Loggable(size, start, h) && k <= |h|
    ensures Updated(Updated(view, h[..k], contents[..k]), h, contents) == Updated(view, h, contents)
  {
    var part := Updated(view, h[..k], contents[..k]);
    var left, right := Updated(part, h, contents), Updated(view, h, contents);
    forall bn: nat
      ensures bn in left <==> bn in right
      ensures bn in left ==> left[bn] == right[bn]
    {
      UpdatedAt(view, size, start, h[..k], contents[..k], bn);
      UpdatedAt(part, size, start, h, contents, bn);
      UpdatedAt(view, size, start, h, contents, bn);
      if bn in h {
        var i :| 0 <= i < |h| && h[i] == bn;
      } else {
        assert bn !in h[..k];
      }
    }
  }

  /** Copying into the log area touches nothing but log blocks. */
  lemma {:induction false} LogCopiesEffect<T>(d: seq<T>, start: nat, contents: seq<T>, k: nat)
    requires k <= |contents| <= LOGBLOCKS && start + LOGBLOCKS < |d|
    ensures InRange(d, LogCopies(start, contents)[..k])
    ensures var e := Apply(d, LogCopies(start, contents)[..k]);
            && e[start] == d[start] && Homes(e, start) == Homes(d, start)
            && forall i :: 0 <= i < k ==> e[start + 1 + i] == contents[i]
    decreases k
  {
    var ws := LogCopies(start, contents);
    if k > 0 {
      LogCopiesEffect(d, start, contents, k - 1);
      assert ws[..k] == ws[..k - 1] + [ws[k - 1]];
      ApplySnoc(d, ws[..k - 1], ws[k - 1]);
      HomesWrite(Apply(d, ws[..k - 1]), start, start + k, contents[k - 1]);
    }
  }

  /** Installing touches nothing but the named home blocks. */
  lemma {:induction false} InstallsEffect<T>(d: seq<T>, start: nat, h: seq<nat>, contents: seq<T>, k: nat)
    requires |h| == |contents| && k <= |h| && Loggable(|d|, start, h) && start + LOGBLOCKS < |d|
    ensures InRange(d, Installs(h, contents)[..k])
    ensures var e := Apply(d, Installs(h, contents)[..k]);
            && (forall bn :: start <= bn <= start + LOGBLOCKS ==> e[bn] == d[bn])
            && Homes(e, start) == Updated(Homes(d, start), h[..k], contents[..k])
    decreases k
  {
    var ws := Installs(h, contents);
    if k > 0 {
      InstallsEffect(d, start, h, contents, k - 1);
      assert ws[..k] == ws[..k - 1] + [ws[k - 1]];
      ApplySnoc(d, ws[..k - 1], ws[k - 1]);
      HomesWrite(Apply(d, ws[..k - 1]), start, h[k - 1], contents[k - 1]);
      assert h[..k][..k - 1] == h[..k - 1] && contents[..k][..k - 1] == contents[..k - 1];
    }
  }
}
