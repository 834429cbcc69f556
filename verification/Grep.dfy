/** grep.c: the matcher against a declarative meaning of patterns, and the loop that
    cuts its input into lines. A C string is the seq of its characters up to its NUL. */
module Grep {
  // ----- what a pattern means

  /** One character, or any number of the same (for '.', of any) character. */
  datatype Atom = One(c: char) | Star(c: char)

  datatype Pattern = Pattern(atoms: seq<Atom>, toEnd: bool)

  predicate Fits(c: char, x: char) {
    c == '.' || c == x
  }

  ghost predicate AtomMatches(a: Atom, s: string) {
    match a
    case One(c) => |s| == 1 && Fits(c, s[0])
    case Star(c) => forall i :: 0 <= i < |s| ==> Fits(c, s[i])
  }

  function Concat(pieces: seq<string>): string {
    if pieces == [] then "" else pieces[0] + Concat(pieces[1..])
  }

  ghost predicate PiecesMatch(atoms: seq<Atom>, pieces: seq<string>) {
    |pieces| == |atoms| && forall i :: 0 <= i < |atoms| ==> AtomMatches(atoms[i], pieces[i])
  }

  /** The language of an atom list: the strings made of one matching piece an atom. */
  ghost predicate InLanguage(atoms: seq<Atom>, s: string) {
    exists pieces :: PiecesMatch(atoms, pieces) && Concat(pieces) == s
  }

  /** How the code reads a pattern (without a leading '^'): '*' after any character
      repeats it, '$' is special at the very end only. */
  function Denote(re: string): Pattern {
    if re == "" then Pattern([], false)
    else if |re| > 1 && re[1] == '*' then
      var p := Denote(re[2..]);
      Pattern([Star(re[0])] + p.atoms, p.toEnd)
    else if re == "$" then Pattern([], true)
    else
      var p := Denote(re[1..]);
      Pattern([One(re[0])] + p.atoms, p.toEnd)
  }

  /** text[i..j] is an occurrence of the pattern. */
  ghost predicate Occurs(p: Pattern, text: string, i: nat, j: nat) {
    i <= j <= |text| && InLanguage(p.atoms, text[i..j]) && (p.toEnd ==> j == |text|)
  }

  ghost predicate OccursAt(p: Pattern, text: string, i: nat) {
    exists j: nat :: Occurs(p, text, i, j)
  }

  /** What grep selects. */
  ghost predicate Matches(re: string, text: string) {
    if re != "" && re[0] == '^' then OccursAt(Denote(re[1..]), text, 0)
    else exists i: nat :: OccursAt(Denote(re), text, i)
  }

  // ----- the first atom of a pattern

  lemma Prepend(a: Atom, atoms: seq<Atom>, s: string, k: nat)
    requires k <= |s| && AtomMatches(a, s[..k]) && InLanguage(atoms, s[k..])
    ensures InLanguage([a] + atoms, s)
  {
    var pieces :| PiecesMatch(atoms, pieces) && Concat(pieces) == s[k..];
    var all := [s[..k]] + pieces;
    assert all[1..] == pieces && s[..k] + s[k..] == s;
    assert PiecesMatch([a] + atoms, all) && Concat(all) == s;
  }

  lemma FirstPiece(a: Atom, atoms: seq<Atom>, s: string) returns (k: nat)
    requires InLanguage([a] + atoms, s)
    ensures k <= |s| && AtomMatches(a, s[..k]) && InLanguage(atoms, s[k..])
  {
    var all :| PiecesMatch([a] + atoms, all) && Concat(all) == s;
    k := |all[0]|;
    assert ([a] + atoms)[0] == a && s[..k] == all[0] && s[k..] == Concat(all[1..]);
    forall i | 0 <= i < |atoms|
      ensures AtomMatches(atoms[i], all[1..][i])
    {
      assert ([a] + atoms)[i + 1] == atoms[i];
    }
    assert PiecesMatch(atoms, all[1..]);
  }

  // ----- matchhere, case by case

  lemma HereEmpty(text: string)
    ensures OccursAt(Denote(""), text, 0)
  {
    assert PiecesMatch([], []) && Concat([]) == text[0..0];
    assert Occurs(Denote(""), text, 0, 0);
  }

  lemma HereEnd(text: string)
    ensures OccursAt(Denote("$"), text, 0) <==> text == ""
  {
    assert PiecesMatch([], []) && Concat([]) == "";
    if text == "" {
      assert text[0..0] == "";
      assert Occurs(Denote("$"), text, 0, 0);
    }
    if OccursAt(Denote("$"), text, 0) {
      var j: nat :| Occurs(Denote("$"), text, 0, j);
      var pieces :| PiecesMatch([], pieces) && Concat(pieces) == text[0..j];
      assert pieces == [] && |text[0..j]| == |text|;
    }
  }

  /** A pattern that starts with atom a occurs at the front of the text iff a matches some
      k characters there and the rest of the pattern occurs right after them. */
  lemma HereAtom(a: Atom, p: Pattern, text: string)
    ensures OccursAt(Pattern([a] + p.atoms, p.toEnd), text, 0) <==>
            exists k: nat :: k <= |text| && AtomMatches(a, text[..k]) && OccursAt(p, text[k..], 0)
  {
    var whole := Pattern([a] + p.atoms, p.toEnd);
    if OccursAt(whole, text, 0) {
      var j: nat :| Occurs(whole, text, 0, j);
      var k := FirstPiece(a, p.atoms, text[0..j]);
      assert text[0..j][..k] == text[..k] && text[0..j][k..] == text[k..][0..j - k];
      assert Occurs(p, text[k..], 0, j - k);
    }
    if k: nat :| k <= |text| && AtomMatches(a, text[..k]) && OccursAt(p, text[k..], 0) {
      var j: nat :| Occurs(p, text[k..], 0, j);
      assert text[0..k + j][..k] == text[..k] && text[0..k + j][k..] == text[k..][0..j];
      Prepend(a, p.atoms, text[0..k + j], k);
      assert Occurs(whole, text, 0, k + j);
    }
  }

  lemma HereOne(c: char, p: Pattern, text: string)
    ensures OccursAt(Pattern([One(c)] + p.atoms, p.toEnd), text, 0) <==>
            text != "" && Fits(c, text[0]) && OccursAt(p, text[1..], 0)
  {
    HereAtom(One(c), p, text);
    if text != "" && Fits(c, text[0]) {
      assert AtomMatches(One(c), text[..1]);
    }
  }

  lemma ShiftOccurrence(p: Pattern, text: string, i: nat, k: nat)
    requires k <= |text|
    ensures OccursAt(p, text[k..], i) <==> OccursAt(p, text, k + i)
  {
    if j: nat :| Occurs(p, text[k..], i, j) {
      assert text[k..][i..j] == text[k + i..k + j];
      assert Occurs(p, text, k + i, k + j);
    }
    var o := k + i;
    if j: nat :| Occurs(p, text, o, j) {
      assert text[k..][i..j - k] == text[k + i..j];
      assert Occurs(p, text[k..], i, j - k);
    }
  }

  // ----- the matcher

  /** The do-while of match; without '^' it must look at the empty string too. */
  method Match(re: string, text: string) returns (r: bool)
    ensures r <==> Matches(re, text)
  {
    if re != "" && re[0] == '^' {
      r := MatchHere(re[1..], text);
      return;
    }
    var t := 0;
    while true
      invariant 0 <= t <= |text|
      invariant forall i: nat :: i < t ==> !OccursAt(Denote(re), text, i)
      decreases |text| - t
    {
      r := MatchHere(re, text[t..]);
      ShiftOccurrence(Denote(re), text, 0, t);
      if r {
        return;
      }
      if t == |text| {
        break;
      }
      t := t + 1;
    }
    r := false;
  }

  /** matchhere: does the pattern occur at the front of the text? */
  method MatchHere(re: string, text: string) returns (r: bool)
    ensures r <==> OccursAt(Denote(re), text, 0)
    decreases |re|, 0
  {
    if re == "" {
      HereEmpty(text);
      return true;
    }
    if |re| > 1 && re[1] == '*' {
      r := MatchStar(re[0], re[2..], text);
      HereAtom(Star(re[0]), Denote(re[2..]), text);
      return;
    }
    if re[0] == '$' && |re| == 1 {
      assert re == "$";
      HereEnd(text);
      return text == "";
    }
    HereOne(re[0], Denote(re[1..]), text);
    if text != "" && (re[0] == '.' || re[0] == text[0]) {
      r := MatchHere(re[1..], text[1..]);
      return;
    }
    r := false;
  }

  /** matchstar: try the rest of the pattern after every run of characters that c fits. */
  method MatchStar(c: char, re: string, text: string) returns (r: bool)
    ensures r <==> exists k: nat :: k <= |text| && AtomMatches(Star(c), text[..k]) && OccursAt(Denote(re), text[k..], 0)
    decreases |re|, 1
  {
    var t := 0;
    while true
      invariant 0 <= t <= |text| && AtomMatches(Star(c), text[..t])
      invariant forall k: nat :: k < t ==> !OccursAt(Denote(re), text[k..], 0)
      decreases |text| - t
    {
      r := MatchHere(re, text[t..]);
      if r {
        return;
      }
      if t == |text| {
        break;
      }
      t := t + 1;
      if !(text[t - 1] == c || c == '.') {
        assert forall k: nat :: t <= k <= |text| ==> !Fits(c, text[..k][t - 1]);
        break;
      }
    }
    r := false;
  }

  // ----- the input loop

  const BUFSIZE: nat := 1024

  /** The matching lines of s, each with its newline; an unfinished last line is none. */
  ghost function Selected(re: string, s: string): string
    decreases |s|
  {
    if '\n' !in s then "" else SelectedLine(re, s) + Selected(re, AfterLine(s))
  }

  ghost function SelectedLine(re: string, s: string): string
    requires '\n' in s
  {
    if Matches(re, s[..FirstNewline(s)]) then s[..FirstNewline(s) + 1] else ""
  }

  function AfterLine(s: string): (t: string)
    requires '\n' in s
    ensures |t| < |s|
  {
    s[FirstNewline(s) + 1..]
  }

  function FirstNewline(s: string): (k: nat)
    requires '\n' in s
    ensures k < |s| && s[k] == '\n' && '\n' !in s[..k]
  {
    if s[0] == '\n' then 0
    else
      var k := FirstNewline(s[1..]) + 1;
      assert s[..k] == [s[0]] + s[1..][..k - 1];
      k
  }

  /** What follows the last newline. */
  function Unfinished(s: string): (t: string)
    ensures |t| <= |s| && '\n' !in t
    decreases |s|
  {
    if '\n' !in s then s else Unfinished(AfterLine(s))
  }

  /** Selecting in two steps, the unfinished line of the first carried into the second. */
  lemma {:induction false} SelectedInTwo(re: string, s: string, more: string)
    ensures Selected(re, s + more) == Selected(re, s) + Selected(re, Unfinished(s) + more)
    ensures Unfinished(s + more) == Unfinished(Unfinished(s) + more)
    decreases |s|
  {
    hide SelectedLine, AfterLine;
    if '\n' in s {
      SameFirstLine(re, s, more);
      SelectedInTwo(re, AfterLine(s), more);
      Associative(SelectedLine(re, s), Selected(re, AfterLine(s)), Selected(re, Unfinished(s) + more));
    }
  }

  lemma Associative(a: string, b: string, c: string)
    ensures a + (b + c) == a + b + c
  {
  }

  lemma SameFirstLine(re: string, s: string, more: string)
    requires '\n' in s
    ensures '\n' in s + more && AfterLine(s + more) == AfterLine(s) + more
            && SelectedLine(re, s + more) == SelectedLine(re, s)
  {
    hide Matches;
    SameFirstNewline(s, more);
    var k := FirstNewline(s);
    assert (s + more)[..k + 1] == s[..k + 1] && (s + more)[..k] == s[..k];
  }

  lemma {:induction false} SameFirstNewline(s: string, more: string)
    requires '\n' in s
    ensures '\n' in s + more && FirstNewline(s + more) == FirstNewline(s)
    decreases |s|
  {
    var k := FirstNewline(s);
    assert (s + more)[k] == '\n';
    if s[0] != '\n' {
      assert s[1..] + more == (s + more)[1..];
      SameFirstNewline(s[1..], more);
    }
  }

  /** The place of the first NUL, or the end. strchr looks no further. */
  function NulAt(s: string): (k: nat)
    ensures k <= |s| && (k < |s| ==> s[k] == '\0') && forall i :: 0 <= i < k ==> s[i] != '\0'
  {
    if s == "" || s[0] == '\0' then 0
    else
      assert forall i :: 0 < i < |s| ==> s[i] == s[1..][i - 1];
      NulAt(s[1..]) + 1
  }

  function Visible(s: string): string {
    s[..NulAt(s)]
  }

  /** What stays in the buffer: the unfinished line, and all from the first NUL on. */
  function Kept(s: string): string {
    Unfinished(Visible(s)) + s[NulAt(s)..]
  }

  lemma NulIs(s: string, k: nat)
    requires k <= |s| && (k < |s| ==> s[k] == '\0') && forall i :: 0 <= i < k ==> s[i] != '\0'
    ensures NulAt(s) == k
  {
  }

  lemma NulInTwo(s: string, more: string)
    ensures NulAt(s + more) == if NulAt(s) < |s| then NulAt(s) else |s| + NulAt(more)
  {
    var n := if NulAt(s) < |s| then NulAt(s) else |s| + NulAt(more);
    assert forall i :: 0 <= i < |s + more| ==> (s + more)[i] == if i < |s| then s[i] else more[i - |s|];
    NulIs(s + more, n);
  }

  /** Reading on: what is kept, with more behind it, shows the lines that all of it shows. */
  lemma KeptInTwo(re: string, s: string, more: string)
    ensures Selected(re, Visible(s + more)) == Selected(re, Visible(s)) + Selected(re, Visible(Kept(s) + more))
    ensures Kept(s + more) == Kept(Kept(s) + more)
  {
    hide Selected, Unfinished;
    if NulAt(s) < |s| {
      BehindNul(re, s, more);
    } else {
      assert Visible(s) == s;
      BeforeNul(re, s, more);
    }
  }

  lemma BehindNul(re: string, s: string, more: string)
    requires NulAt(s) < |s|
    ensures Visible(s + more) == Visible(s) && Selected(re, Visible(Kept(s) + more)) == ""
    ensures Kept(s + more) == Kept(Kept(s) + more)
  {
    hide Selected, Unfinished;
    var u, rest := Unfinished(Visible(s)), s[NulAt(s)..];
    var w := Kept(s) + more;
    UnfinishedPart(Visible(s));
    NulInTwo(s, more);
    assert w == u + (rest + more);
    assert forall i :: 0 <= i < |u| ==> w[i] == u[i] && u[i] in u;
    NulIs(w, |u|);
    assert Visible(w) == u && w[|u|..] == rest + more == (s + more)[NulAt(s)..];
    NoLine(re, u);
  }

  lemma BeforeNul(re: string, s: string, more: string)
    requires NulAt(s) == |s|
    ensures Selected(re, Visible(s + more)) == Selected(re, s) + Selected(re, Visible(Kept(s) + more))
    ensures Kept(s + more) == Kept(Kept(s) + more)
  {
    hide Selected, Unfinished, NulAt;
    var u := Unfinished(s);
    NoNulLeft(s);
    VisibleAfter(s, more);
    VisibleAfter(u, more);
    SelectedInTwo(re, s, Visible(more));
  }

  lemma VisibleAfter(s: string, more: string)
    requires NulAt(s) == |s|
    ensures Visible(s + more) == s + Visible(more) && (s + more)[NulAt(s + more)..] == more[NulAt(more)..]
  {
    NulInTwo(s, more);
  }

  lemma NoNulLeft(s: string)
    requires NulAt(s) == |s|
    ensures NulAt(Unfinished(s)) == |Unfinished(s)| && Kept(s) == Unfinished(s)
  {
    hide Unfinished;
    var u := Unfinished(s);
    assert s[..|s|] == s && s[|s|..] == "" && u + "" == u;
    UnfinishedPart(s);
    assert forall i :: 0 <= i < |u| ==> u[i] in u;
    NulIs(u, |u|);
  }

  /** strchr(p, '\n') in a string that ends with the NUL at m; m when it finds none. */
  method FindNewline(buf: array<char>, p: nat, ghost m: nat) returns (q: nat)
    requires p <= m < buf.Length && buf[m] == '\0' && forall k :: p <= k < m ==> buf[k] != '\0'
    ensures p <= q <= m && (q < m <==> buf[q] == '\n') && forall k :: p <= k < q ==> buf[k] != '\n'
  {
    q := p;
    while buf[q] != '\0' && buf[q] != '\n'
      invariant p <= q <= m && forall k :: p <= k < q ==> buf[k] != '\n'
      decreases m - q
    {
      q := q + 1;
    }
  }

  /** The part of grep's loop that cuts what is in the buffer into lines: prints the
      matching ones and moves the unfinished one to the front. */
  method PrintLines(re: string, buf: array<char>, m: nat) returns (printed: string, left: nat)
    requires m < buf.Length && buf[m] == '\0'
    modifies buf
    ensures printed == Selected(re, Visible(old(buf[..m])))
    ensures left <= m && buf[..left] == Kept(old(buf[..m]))
  {
    hide Selected, Unfinished, Matches, NulAt;
    ghost var w, t := buf[..m], NulAt(buf[..m]);
    assert buf[..t] == Visible(w);
    var p;
    printed, p := PrintVisible(re, buf, t);
    left := m - p;
    assert buf[p..p + left] == w[p..] == Visible(w)[p..] + w[t..];
    MoveDown(buf, p, left);
  }

  /** The complete lines before the NUL at t; p is where the unfinished one begins. */
  method PrintVisible(re: string, buf: array<char>, ghost t: nat) returns (printed: string, p: nat)
    requires t < buf.Length && buf[t] == '\0' && forall k :: 0 <= k < t ==> buf[k] != '\0'
    modifies buf
    ensures printed == Selected(re, old(buf[..t])) && p <= t && old(buf[..t])[p..] == Unfinished(old(buf[..t]))
    ensures forall k :: p <= k < buf.Length ==> buf[k] == old(buf[k])
  {
    hide Selected, Unfinished, Matches;
    ghost var w := buf[..t];
    p := 0;
    printed := "";
    var q := FindNewline(buf, p, t);
    while buf[q] == '\n'
      invariant p <= q <= t && forall k :: p <= k < buf.Length ==> buf[k] == old(buf[k])
      invariant (q < t <==> buf[q] == '\n') && forall k :: p <= k < q ==> w[k] != '\n'
      invariant Selected(re, w) == printed + Selected(re, w[p..]) && Unfinished(w) == Unfinished(w[p..])
      decreases t - p
    {
      SelectedAt(re, w, p, q);
      Associative(printed, if Matches(re, w[p..q]) then w[p..q + 1] else "", Selected(re, w[q + 1..]));
      assert q < t && forall k :: p <= k < t ==> buf[k] == w[k];
      assert buf[p..q] == w[p..q];
      assert buf[p..q + 1] == w[p..q + 1];
      var line := PrintLine(re, buf, p, q);
      printed := printed + line;
      p := q + 1;
      q := FindNewline(buf, p, t);
    }
    NoLine(re, w[p..]);
  }

  /** One line: its newline gives way to a NUL, up to which match reads, and comes back to be
      printed. */
  method PrintLine(re: string, buf: array<char>, p: nat, q: nat) returns (line: string)
    requires p <= q < buf.Length && buf[q] == '\n' && forall k :: p <= k < q ==> buf[k] != '\0'
    modifies buf
    ensures line == if Matches(re, old(buf[p..q])) then old(buf[p..q + 1]) else ""
    ensures forall k :: 0 <= k < buf.Length && k != q ==> buf[k] == old(buf[k])
  {
    hide Matches;
    line := "";
    buf[q] := '\0';
    assert buf[p..q] == old(buf[p..q]);
    NulIs(buf[p..], q - p);
    assert Visible(buf[p..]) == buf[p..q];
    var matched := Match(re, Visible(buf[p..]));
    if matched {
      buf[q] := '\n';
      assert buf[p..q + 1] == old(buf[p..q + 1]);
      line := buf[p..q + 1];
    }
  }

  /** The line of w that runs from p to the newline at q. */
  lemma SelectedAt(re: string, w: string, p: nat, q: nat)
    requires p <= q < |w| && w[q] == '\n' && forall k :: p <= k < q ==> w[k] != '\n'
    ensures Selected(re, w[p..]) == (if Matches(re, w[p..q]) then w[p..q + 1] else "") + Selected(re, w[q + 1..])
    ensures Unfinished(w[p..]) == Unfinished(w[q + 1..])
  {
    hide Matches, Selected, Unfinished;
    var s, k := w[p..], q - p;
    assert s[..k] == w[p..q] && s[..k + 1] == w[p..q + 1];
    assert s[k + 1..] == w[q + 1..];
    FirstLineAt(re, s, k);
  }

  lemma FirstLineAt(re: string, s: string, k: nat)
    requires k < |s| && s[k] == '\n' && forall i :: 0 <= i < k ==> s[i] != '\n'
    ensures Selected(re, s) == (if Matches(re, s[..k]) then s[..k + 1] else "") + Selected(re, s[k + 1..])
    ensures Unfinished(s) == Unfinished(s[k + 1..])
  {
    hide Matches, FirstNewline;
    LineAt(s, k);
  }

  lemma LineAt(s: string, k: nat)
    requires k < |s| && s[k] == '\n' && forall i :: 0 <= i < k ==> s[i] != '\n'
    ensures FirstNewline(s) == k
  {
    var f := FirstNewline(s);
    assert forall i :: 0 <= i < f ==> s[i] == s[..f][i];
  }

  lemma NoLine(re: string, s: string)
    ensures '\n' !in s ==> Selected(re, s) == "" && Unfinished(s) == s
  {
  }

  /** memmove(buf, buf + p, n) */
  method MoveDown(buf: array<char>, p: nat, n: nat)
    requires p + n <= buf.Length
    modifies buf
    ensures buf[..n] == old(buf[p..p + n])
  {
    var i := 0;
    while i < n
      invariant 0 <= i <= n
      invariant forall k :: 0 <= k < i ==> buf[k] == old(buf[p + k])
      invariant forall k :: i <= k < buf.Length ==> buf[k] == old(buf[k])
    {
      buf[i] := buf[p + i];
      i := i + 1;
    }
  }

  /** grep on any input, whatever sizes read returns: the matching lines, up to the first
      NUL, of all it read; and it reads everything unless what it keeps fills the buffer. */
  method GrepInput(re: string, input: string) returns (output: string)
    ensures exists n: nat :: ReadUpTo(re, input, n, output)
    ensures LinesFit(input) ==> output == Selected(re, Visible(input))
  {
    hide Selected, Kept, Visible, Matches, LinesFit;
    NothingKept(re);
    var buf := new char[BUFSIZE];
    var m, at := 0, 0;
    output := "";
    assert input[..0] == "" && buf[..0] == "";
    while true
      invariant 0 <= m < BUFSIZE && 0 <= at <= |input|
      invariant buf[..m] == Kept(input[..at]) && output == Selected(re, Visible(input[..at]))
      decreases |input| - at
    {
      var n := Read(input, at, BUFSIZE - m - 1);
      if n == 0 {
        break;
      }
      ghost var before, chunk := input[..at], input[at..at + n];
      CopyIn(buf, m, input, at, n);
      m := m + n;
      buf[m] := '\0';
      assert buf[..m] == Kept(before) + chunk && input[..at + n] == before + chunk;
      KeptInTwo(re, before, chunk);
      var printed;
      printed, m := PrintLines(re, buf, m);
      output := output + printed;
      at := at + n;
    }
    assert ReadUpTo(re, input, at, output);
    StoppedAt(re, input, at, output);
  }

  lemma NothingKept(re: string)
    ensures Kept("") == "" && Selected(re, Visible("")) == ""
  {
    NoLine(re, "");
  }

  /** The first n characters were read, and the rest only if the buffer was not filled. */
  ghost predicate ReadUpTo(re: string, input: string, n: nat, output: string) {
    && n <= |input| && output == Selected(re, Visible(input[..n]))
    && (n == |input| || |Kept(input[..n])| == 1023)
  }

  /** At no time is the buffer full of what has to be kept: no line, finished or not, is as
      long, nor is what follows the start of the line with the first NUL. */
  ghost predicate LinesFit(input: string) {
    forall n :: 0 <= n <= |input| ==> |Kept(input[..n])| < 1023
  }

  lemma StoppedAt(re: string, input: string, n: nat, output: string)
    requires ReadUpTo(re, input, n, output)
    ensures LinesFit(input) ==> output == Selected(re, Visible(input))
  {
    assert n == |input| ==> input[..n] == input;
  }

  lemma UnfinishedPart(s: string)
    ensures forall c :: c in Unfinished(s) ==> c in s
    decreases |s|
  {
    if '\n' in s {
      UnfinishedPart(AfterLine(s));
    }
  }

  /** read: some of what is left, at most `limit`; none at the end of the input only. */
  method Read(input: string, at: nat, limit: nat) returns (n: nat)
    requires at <= |input|
    ensures n <= limit && at + n <= |input| && (n == 0 ==> limit == 0 || at == |input|)
  {
    if limit == 0 || at == |input| {
      return 0;
    }
    var k: nat :| 0 < k <= limit && k <= |input| - at;
    n := k;
  }

  method CopyIn(buf: array<char>, m: nat, input: string, at: nat, n: nat)
    requires m + n <= buf.Length && at + n <= |input|
    modifies buf
    ensures buf[..m + n] == old(buf[..m]) + input[at..at + n]
  {
    var i := 0;
    while i < n
      invariant 0 <= i <= n
      invariant buf[..m + i] == old(buf[..m]) + input[at..at + i]
    {
      buf[m + i] := input[at + i];
      i := i + 1;
    }
  }
}
