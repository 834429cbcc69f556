/** The grammar that sh.c parses by recursive descent: its tokens, and what each parsing routine
    computes. */
module ShParse {
  const MAXARGS: int := 10

  predicate IsSpace(c: char) {
    c in [' ', '\t', '\r', '\n', '\U{0b}']
  }

  predicate IsSymbol(c: char) {
    c in "<|>&;()"
  }

  predicate IsWordChar(c: char) {
    !IsSpace(c) && !IsSymbol(c) && c != '\0'
  }

  /** A line as strlen sees it: no NUL before its end. */
  ghost predicate IsLine(t: string) {
    forall i :: 0 <= i < |t| ==> t[i] != '\0'
  }

  // ----- commands

  datatype Op = Read | Write | Append

  /** A command over words W: strings, or in the parser's own trees places in the line. */
  datatype Cmd<W> =
    | Exec(argv: seq<W>)
    | Redir(cmd: Cmd<W>, file: W, op: Op)
    | Pipe(left: Cmd<W>, right: Cmd<W>)
    | List(left: Cmd<W>, right: Cmd<W>)
    | Back(cmd: Cmd<W>)

  /** The word from q up to eq, which nulterminate overwrites. */
  datatype Slice = Slice(q: nat, eq: nat)

  datatype Parsed = Ok(cmd: Cmd<Slice>, pos: nat) | Panic(msg: string)

  // ----- tokens

  function CharAt(t: string, i: nat): char {
    if i < |t| then t[i] else '\0'
  }

  function Skip(t: string, i: nat): (s: nat)
    requires i <= |t|
    ensures i <= s <= |t|
    ensures s < |t| ==> !IsSpace(t[s])
    ensures forall k :: i <= k < s ==> IsSpace(t[k])
    decreases |t| - i
  {
    if i < |t| && IsSpace(t[i]) then Skip(t, i + 1) else i
  }

  function WordEnd(t: string, i: nat): (e: nat)
    requires i <= |t|
    ensures i <= e <= |t|
    ensures e < |t| ==> IsSpace(t[e]) || IsSymbol(t[e])
    ensures forall k :: i <= k < e ==> !IsSpace(t[k]) && !IsSymbol(t[k])
    decreases |t| - i
  {
    if i < |t| && !IsSpace(t[i]) && !IsSymbol(t[i]) then WordEnd(t, i + 1) else i
  }

  /** A token: 'a' for a word, '+' for >>, NUL at the end, or the symbol itself. */
  datatype Token = Token(kind: char, q: nat, eq: nat, next: nat)

  function TokenEnd(t: string, s: nat): (e: nat)
    requires s <= |t|
    ensures s <= e <= |t|
    ensures s < |t| && !IsSpace(t[s]) && t[s] != '\0' ==> s < e
  {
    var c := CharAt(t, s);
    if c == '\0' then s
    else if c in "|();&<" then s + 1
    else if c == '>' then if CharAt(t, s + 1) == '>' then s + 2 else s + 1
    else WordEnd(t, s)
  }

  function Kind(t: string, s: nat): char
    requires s <= |t|
  {
    var c := CharAt(t, s);
    if c == '\0' || c in "|();&<" then c
    else if c == '>' then if CharAt(t, s + 1) == '>' then '+' else '>'
    else 'a'
  }

  function GetToken(t: string, i: nat): (k: Token)
    requires i <= |t|
    ensures i <= k.q <= k.eq <= k.next <= |t|
  {
    var s := Skip(t, i);
    Token(Kind(t, s), s, TokenEnd(t, s), Skip(t, TokenEnd(t, s)))
  }

  predicate Peek(t: string, i: nat, toks: string)
    requires i <= |t|
  {
    var c := CharAt(t, Skip(t, i));
    c != '\0' && c in toks
  }

  lemma TokenMoves(t: string, i: nat)
    requires i <= |t| && CharAt(t, Skip(t, i)) != '\0'
    ensures GetToken(t, i).next > i
  {
  }

  // ----- what the parsing routines compute

  function OpOf(kind: char): Op {
    if kind == '<' then Read else if kind == '>' then Write else Append
  }

  function ParseRedirs(t: string, c: Cmd<Slice>, i: nat): (r: Parsed)
    requires i <= |t|
    ensures r.Ok? ==> i <= r.pos <= |t|
    decreases |t| - i
  {
    var s := Skip(t, i);
    if Peek(t, i, "<>") then
      var tok := GetToken(t, s);
      var file := GetToken(t, tok.next);
      TokenMoves(t, s);
      if file.kind != 'a' then Panic("missing file for redirection")
      else ParseRedirs(t, Redir(c, Slice(file.q, file.eq), OpOf(tok.kind)), file.next)
    else Ok(c, s)
  }

  /** The exec node under any redirections gets one more argument. */
  function AddArg<W>(c: Cmd<W>, w: W): Cmd<W> {
    match c
    case Exec(argv) => Exec(argv + [w])
    case Redir(x, f, op) => Redir(AddArg(x, w), f, op)
    case _ => c
  }

  function Argc<W>(c: Cmd<W>): nat {
    match c
    case Exec(argv) => |argv|
    case Redir(x, f, op) => Argc(x)
    case _ => 0
  }

  function ParseArgs(t: string, c: Cmd<Slice>, argc: nat, i: nat): (r: Parsed)
    requires i <= |t|
    ensures r.Ok? ==> i <= r.pos <= |t|
    decreases |t| - i
  {
    var s := Skip(t, i);
    if Peek(t, i, "|)&;") then Ok(c, s)
    else
      var tok := GetToken(t, s);
      if tok.kind == '\0' then Ok(c, tok.next)
      else if tok.kind != 'a' then Panic("syntax")
      else if argc + 1 >= MAXARGS then Panic("too many args")
      else
        TokenMoves(t, s);
        match ParseRedirs(t, AddArg(c, Slice(tok.q, tok.eq)), tok.next)
        case Panic(m) => Panic(m)
        case Ok(c', j) => ParseArgs(t, c', argc + 1, j)
  }

  function ParseBlock(t: string, i: nat): (r: Parsed)
    requires i <= |t|
    ensures r.Ok? ==> i <= r.pos <= |t|
    decreases |t| - i, 0
  {
    if !Peek(t, i, "(") then Panic("parseblock")
    else
      var s := Skip(t, i);
      TokenMoves(t, s);
      match ParseLine(t, GetToken(t, s).next)
      case Panic(m) => Panic(m)
      case Ok(c, j) =>
        if !Peek(t, j, ")") then Panic("syntax - missing )")
        else ParseRedirs(t, c, GetToken(t, Skip(t, j)).next)
  }

  function ParseExec(t: string, i: nat): (r: Parsed)
    requires i <= |t|
    ensures r.Ok? ==> i <= r.pos <= |t|
    decreases |t| - i, 1
  {
    if Peek(t, i, "(") then ParseBlock(t, Skip(t, i))
    else
      match ParseRedirs(t, Exec([]), Skip(t, i))
      case Panic(m) => Panic(m)
      case Ok(c, j) => ParseArgs(t, c, 0, j)
  }

  function ParsePipe(t: string, i: nat): (r: Parsed)
    requires i <= |t|
    ensures r.Ok? ==> i <= r.pos <= |t|
    decreases |t| - i, 2
  {
    match ParseExec(t, i)
    case Panic(m) => Panic(m)
    case Ok(c, j) =>
      var s := Skip(t, j);
      if Peek(t, j, "|") then
        TokenMoves(t, s);
        match ParsePipe(t, GetToken(t, s).next)
        case Panic(m) => Panic(m)
        case Ok(d, k) => Ok(Pipe(c, d), k)
      else Ok(c, s)
  }

  function ParseLine(t: string, i: nat): (r: Parsed)
    requires i <= |t|
    ensures r.Ok? ==> i <= r.pos <= |t|
    decreases |t| - i, 4
  {
    match ParsePipe(t, i)
    case Panic(m) => Panic(m)
    case Ok(c, j) => LineTail(t, c, j)
  }

  /** What parseline does behind its first pipe. */
  function LineTail(t: string, c: Cmd<Slice>, i: nat): (r: Parsed)
    requires i <= |t|
    ensures r.Ok? ==> i <= r.pos <= |t|
    decreases |t| - i, 3
  {
    var s := Skip(t, i);
    if Peek(t, i, "&") then
      TokenMoves(t, s);
      LineTail(t, Back(c), GetToken(t, s).next)
    else if Peek(t, i, ";") then
      TokenMoves(t, s);
      match ParseLine(t, GetToken(t, s).next)
      case Panic(m) => Panic(m)
      case Ok(d, k) => Ok(List(c, d), k)
    else Ok(c, s)
  }

  function ParseCmd(t: string): Parsed {
    match ParseLine(t, 0)
    case Panic(m) => Panic(m)
    case Ok(c, j) => if Skip(t, j) != |t| then Panic("syntax") else Ok(c, |t|)
  }
}
