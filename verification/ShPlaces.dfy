/** The places of words in a line, and what is at those that come out of the parser. */
module ShPlaces {
  import opened ShParse

  // ----- words

  /** None of the five characters of white space and of the seven symbols, and no NUL. */
  predicate Plain(c: char) {
    && c != ' ' && c != '\t' && c != '\r' && c != '\n' && c != '\U{0b}'
    && c != '<' && c != '|' && c != '>' && c != '&' && c != ';' && c != '(' && c != ')' && c != '\0'
  }

  predicate IsWord(w: string) {
    w != "" && forall i :: 0 <= i < |w| ==> Plain(w[i])
  }

  lemma PlainIs(c: char)
    ensures Plain(c) <==> IsWordChar(c)
  {
  }

  function WordAt(t: string, w: Slice): string {
    if w.q <= w.eq <= |t| then t[w.q..w.eq] else ""
  }

  function Text(t: string, c: Cmd<Slice>): Cmd<string> {
    match c
    case Exec(argv) => Exec(seq(|argv|, i requires 0 <= i < |argv| => WordAt(t, argv[i])))
    case Redir(x, f, op) => Redir(Text(t, x), WordAt(t, f), op)
    case Pipe(l, r) => Pipe(Text(t, l), Text(t, r))
    case List(l, r) => List(Text(t, l), Text(t, r))
    case Back(x) => Back(Text(t, x))
  }

  // ----- what any line parses to

  predicate IsBlock<W>(c: Cmd<W>) {
    match c
    case Exec(_) => false
    case Redir(x, _, _) => IsBlock(x)
    case _ => true
  }

  /** A place in the line holds a word, and what follows the word is no part of any word. */
  predicate SliceOk(t: string, w: Slice) {
    && w.q < w.eq <= |t| && IsWord(t[w.q..w.eq])
    && (w.eq < |t| ==> !Plain(t[w.eq]))
  }

  predicate PlacesOk(t: string, c: Cmd<Slice>) {
    match c
    case Exec(argv) => |argv| < 10 && forall i :: 0 <= i < |argv| ==> SliceOk(t, argv[i])
    case Redir(x, f, op) => PlacesOk(t, x) && SliceOk(t, f)
    case Pipe(l, r) => PlacesOk(t, l) && PlacesOk(t, r)
    case List(l, r) => PlacesOk(t, l) && PlacesOk(t, r)
    case Back(x) => PlacesOk(t, x)
  }

  lemma TokenOk(t: string, i: nat)
    requires IsLine(t) && i <= |t| && GetToken(t, i).kind == 'a'
    ensures SliceOk(t, Slice(GetToken(t, i).q, GetToken(t, i).eq))
  {
    var k := GetToken(t, i);
    assert k.q < |t| && IsWordChar(t[k.q]);
    assert WordEnd(t, k.q) == k.eq;
    var w := t[k.q..k.eq];
    forall m | 0 <= m < |w|
      ensures IsWordChar(w[m])
    {
      assert w[m] == t[k.q + m];
    }
  }

  lemma WordMoves(t: string, i: nat)
    requires i <= |t| && GetToken(t, i).kind == 'a'
    ensures GetToken(t, i).next > i
  {
    TokenMoves(t, i);
  }

  lemma {:induction false} RedirsOk(t: string, c: Cmd<Slice>, i: nat)
    requires IsLine(t) && i <= |t| && PlacesOk(t, c)
    ensures ParseRedirs(t, c, i).Ok? ==>
              PlacesOk(t, ParseRedirs(t, c, i).cmd) && Argc(ParseRedirs(t, c, i).cmd) == Argc(c)
    decreases |t| - i
  {
    hide IsLine, SliceOk;
    var s := Skip(t, i);
    if Peek(t, i, "<>") {
      var tok := GetToken(t, s);
      var file := GetToken(t, tok.next);
      TokenMoves(t, s);
      if file.kind == 'a' {
        TokenOk(t, tok.next);
        RedirsOk(t, Redir(c, Slice(file.q, file.eq), OpOf(tok.kind)), file.next);
      }
    }
  }

  lemma {:induction false} AddArgOk(t: string, c: Cmd<Slice>, w: Slice)
    requires PlacesOk(t, c) && SliceOk(t, w) && Argc(c) + 1 < MAXARGS
    ensures PlacesOk(t, AddArg(c, w)) && (IsBlock(c) || Argc(AddArg(c, w)) == Argc(c) + 1)
            && IsBlock(AddArg(c, w)) == IsBlock(c)
  {
    match c
    case Redir(x, f, op) => AddArgOk(t, x, w);
    case _ =>
  }

  lemma {:induction false} ArgsOk(t: string, c: Cmd<Slice>, argc: nat, i: nat)
    requires IsLine(t) && i <= |t| && PlacesOk(t, c) && !IsBlock(c) && Argc(c) == argc
    ensures ParseArgs(t, c, argc, i).Ok? ==> PlacesOk(t, ParseArgs(t, c, argc, i).cmd)
    decreases |t| - i
  {
    hide IsLine, SliceOk, ParseRedirs, GetToken, Peek, Skip, AddArg, IsBlock, Argc, PlacesOk;
    var s := Skip(t, i);
    var tok := GetToken(t, s);
    if !Peek(t, i, "|)&;") && tok.kind == 'a' && argc + 1 < MAXARGS {
      WordMoves(t, s);
      TokenOk(t, s);
      var w := Slice(tok.q, tok.eq);
      AddArgOk(t, c, w);
      RedirsOk(t, AddArg(c, w), tok.next);
      RedirsBlock(t, AddArg(c, w), tok.next);
      var r := ParseRedirs(t, AddArg(c, w), tok.next);
      if r.Ok? {
        ArgsOk(t, r.cmd, argc + 1, r.pos);
      }
    }
  }

  lemma {:induction false} RedirsBlock(t: string, c: Cmd<Slice>, i: nat)
    requires i <= |t|
    ensures ParseRedirs(t, c, i).Ok? ==> IsBlock(ParseRedirs(t, c, i).cmd) == IsBlock(c)
    decreases |t| - i
  {
    var s := Skip(t, i);
    if Peek(t, i, "<>") {
      var tok := GetToken(t, s);
      var file := GetToken(t, tok.next);
      TokenMoves(t, s);
      if file.kind == 'a' {
        RedirsBlock(t, Redir(c, Slice(file.q, file.eq), OpOf(tok.kind)), file.next);
      }
    }
  }

  lemma {:induction false} ExecOk(t: string, i: nat)
    requires IsLine(t) && i <= |t|
    ensures ParseExec(t, i).Ok? ==> PlacesOk(t, ParseExec(t, i).cmd)
    decreases |t| - i, 1
  {
    hide IsLine, SliceOk, ParseRedirs, ParseLine, ParseArgs;
    var s := Skip(t, i);
    if Peek(t, i, "(") {
      TokenMoves(t, s);
      var next := GetToken(t, s).next;
      LineOk(t, next);
      var r := ParseLine(t, next);
      if r.Ok? {
        RedirsOk(t, r.cmd, GetToken(t, Skip(t, r.pos)).next);
      }
    } else {
      var none: Cmd<Slice> := Exec([]);
      RedirsOk(t, none, s);
      RedirsBlock(t, none, s);
      var r := ParseRedirs(t, none, s);
      if r.Ok? {
        ArgsOk(t, r.cmd, 0, r.pos);
      }
    }
  }

  lemma {:induction false} PipeOk(t: string, i: nat)
    requires IsLine(t) && i <= |t|
    ensures ParsePipe(t, i).Ok? ==> PlacesOk(t, ParsePipe(t, i).cmd)
    decreases |t| - i, 2
  {
    hide IsLine, SliceOk, ParseExec;
    ExecOk(t, i);
    var r := ParseExec(t, i);
    if r.Ok? && Peek(t, r.pos, "|") {
      TokenMoves(t, Skip(t, r.pos));
      PipeOk(t, GetToken(t, Skip(t, r.pos)).next);
    }
  }

  lemma {:induction false} TailOk(t: string, c: Cmd<Slice>, i: nat)
    requires IsLine(t) && i <= |t| && PlacesOk(t, c)
    ensures LineTail(t, c, i).Ok? ==> PlacesOk(t, LineTail(t, c, i).cmd)
    decreases |t| - i, 3
  {
    hide IsLine, SliceOk, ParsePipe, ParseLine;
    var s := Skip(t, i);
    if Peek(t, i, "&") {
      TokenMoves(t, s);
      TailOk(t, Back(c), GetToken(t, s).next);
    } else if Peek(t, i, ";") {
      TokenMoves(t, s);
      LineOk(t, GetToken(t, s).next);
    }
  }

  /** In every command that comes out of the parser the places hold words. */
  lemma {:induction false} LineOk(t: string, i: nat)
    requires IsLine(t) && i <= |t|
    ensures ParseLine(t, i).Ok? ==> PlacesOk(t, ParseLine(t, i).cmd)
    decreases |t| - i, 4
  {
    hide IsLine, SliceOk, ParsePipe, LineTail;
    PipeOk(t, i);
    var r := ParsePipe(t, i);
    if r.Ok? {
      TailOk(t, r.cmd, r.pos);
    }
  }

  // ----- terminating the words

  function Slices(c: Cmd<Slice>): set<Slice> {
    match c
    case Exec(argv) => set i | 0 <= i < |argv| :: argv[i]
    case Redir(x, f, op) => Slices(x) + {f}
    case Pipe(l, r) => Slices(l) + Slices(r)
    case List(l, r) => Slices(l) + Slices(r)
    case Back(x) => Slices(x)
  }

  lemma {:induction false} SlicesOk(t: string, c: Cmd<Slice>, w: Slice)
    requires PlacesOk(t, c) && w in Slices(c)
    ensures SliceOk(t, w)
  {
    match c
    case Exec(argv) =>
    case Redir(x, f, op) => if w != f { SlicesOk(t, x, w); }
    case Pipe(l, r) => if w in Slices(l) { SlicesOk(t, l, w); } else { SlicesOk(t, r, w); }
    case List(l, r) => if w in Slices(l) { SlicesOk(t, l, w); } else { SlicesOk(t, r, w); }
    case Back(x) => SlicesOk(t, x, w);
  }

  /** A NUL at the end of one word is in no other. */
  lemma EndsOutside(t: string, c: Cmd<Slice>, v: Slice, w: Slice)
    requires PlacesOk(t, c) && v in Slices(c) && w in Slices(c)
    ensures v.eq < w.q || w.eq <= v.eq
  {
    SlicesOk(t, c, v);
    SlicesOk(t, c, w);
    WordCharsIn(t, w, v.eq);
  }

  lemma WordCharsIn(t: string, w: Slice, k: nat)
    requires SliceOk(t, w) && k <= |t|
    ensures w.q <= k < w.eq ==> k < |t| && IsWordChar(t[k])
  {
    var word := t[w.q..w.eq];
    assert forall m :: 0 <= m < |word| ==> word[m] == t[w.q + m];
    assert w.q <= k < w.eq ==> word[k - w.q] == t[k];
  }
}
