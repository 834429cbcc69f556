/** The language of the shell, written down as a grammar of its own: what every command looks
    like on a line, with any white space between its words and symbols and any parentheses,
    and the proof that the parser accepts exactly these lines, with the commands they stand
    for. */
module ShGrammar {
  import opened ShParse
  import opened ShPlaces

  // ----- syntax

  datatype Item = Arg(w: string) | To(op: Op, file: string)

  datatype Syntax =
    | Simple(items: seq<Item>)                // arguments and redirections in any order
    | Block(line: Syntax, redirs: seq<Item>)  // ( line ) and redirections
    | Piped(left: Syntax, right: Syntax)
    | Backed(cmd: Syntax)
    | Listed(left: Syntax, right: Syntax)

  predicate IsExec(s: Syntax) {
    s.Simple? || s.Block?
  }

  predicate IsPipe(s: Syntax) {
    IsExec(s) || s.Piped?
  }

  predicate IsBack(s: Syntax) {
    IsPipe(s) || s.Backed?
  }

  function ItemWord(it: Item): string {
    if it.Arg? then it.w else it.file
  }

  /** What goes where: pipes bind tighter than &, and & tighter than ;. Both | and ; go to
      the right. */
  predicate Good(s: Syntax) {
    match s
    case Simple(items) => |Args(items)| < 10 && forall k :: 0 <= k < |items| ==> IsWord(ItemWord(items[k]))
    case Block(l, rs) => Good(l) && forall k :: 0 <= k < |rs| ==> rs[k].To? && IsWord(rs[k].file)
    case Piped(l, r) => IsExec(l) && IsPipe(r) && Good(l) && Good(r)
    case Backed(c) => IsBack(c) && Good(c)
    case Listed(l, r) => IsBack(l) && Good(l) && Good(r)
  }

  // ----- what it stands for

  function Args(items: seq<Item>): seq<string> {
    if items == [] then [] else (if items[0].Arg? then [items[0].w] else []) + Args(items[1..])
  }

  /** The redirections around a command, the first one innermost. */
  function Wrapped(c: Cmd<string>, items: seq<Item>): Cmd<string>
    decreases |items|
  {
    if items == [] then c
    else Wrapped(if items[0].To? then Redir(c, items[0].file, items[0].op) else c, items[1..])
  }

  function Tree(s: Syntax): Cmd<string> {
    match s
    case Simple(items) => Wrapped(Exec(Args(items)), items)
    case Block(l, rs) => Wrapped(Tree(l), rs)
    case Piped(l, r) => Pipe(Tree(l), Tree(r))
    case Backed(c) => Back(Tree(c))
    case Listed(l, r) => List(Tree(l), Tree(r))
  }

  // ----- how it is spelled

  function Sign(op: Op): string {
    match op case Read => "<" case Write => ">" case Append => ">>"
  }

  function ItemLexemes(it: Item): seq<string> {
    if it.Arg? then [it.w] else [Sign(it.op), it.file]
  }

  function AllLexemes(items: seq<Item>): seq<string> {
    if items == [] then [] else ItemLexemes(items[0]) + AllLexemes(items[1..])
  }

  function Lexemes(s: Syntax): seq<string> {
    match s
    case Simple(items) => AllLexemes(items)
    case Block(l, rs) => ["("] + (Lexemes(l) + ([")"] + AllLexemes(rs)))
    case Piped(l, r) => Lexemes(l) + (["|"] + Lexemes(r))
    case Backed(c) => Lexemes(c) + ["&"]
    case Listed(l, r) => Lexemes(l) + ([";"] + Lexemes(r))
  }

  predicate White(g: string) {
    forall k :: 0 <= k < |g| ==> g[k] == ' ' || g[k] == '\t' || g[k] == '\r' || g[k] == '\n' || g[k] == '\U{0b}'
  }

  /** White space to go in front of each lexeme, some of it between two words. */
  predicate Gaps(ls: seq<string>, gaps: seq<string>, behindWord: bool) {
    |gaps| == |ls| &&
    (ls == [] || (White(gaps[0]) && (behindWord && IsWord(ls[0]) ==> gaps[0] != "") &&
                  Gaps(ls[1..], gaps[1..], IsWord(ls[0]))))
  }

  function Laid(ls: seq<string>, gaps: seq<string>): string
    requires |gaps| == |ls|
  {
    if ls == [] then "" else gaps[0] + (ls[0] + Laid(ls[1..], gaps[1..]))
  }

  /** A line that spells s, with this white space. */
  ghost predicate Spells(t: string, s: Syntax, gaps: seq<string>, last: string) {
    Good(s) && Gaps(Lexemes(s), gaps, false) && White(last) && t == Laid(Lexemes(s), gaps) + last
  }

  // ----- lexemes in a line

  /** From i up to j the line spells the lexemes, as the tokens are told apart. */
  ghost predicate Spelled(t: string, i: nat, j: nat, ls: seq<string>)
    decreases |ls|
  {
    i <= j <= |t| &&
    if ls == [] then i == j
    else
      var s := Skip(t, i);
      var e := s + |ls[0]|;
      && e <= j && t[s..e] == ls[0] && (IsWord(ls[0]) && e < |t| ==> !Plain(t[e]))
      && Spelled(t, e, j, ls[1..])
  }

  lemma SpelledNone(t: string, i: nat)
    requires i <= |t|
    ensures Spelled(t, i, i, [])
  {
  }

  lemma {:induction false} SpelledTwo(t: string, i: nat, j: nat, a: seq<string>, b: seq<string>) returns (m: nat)
    requires Spelled(t, i, j, a + b)
    ensures i <= m <= j && Spelled(t, i, m, a) && Spelled(t, m, j, b)
    decreases |a|
  {
    hide Skip, IsWord, Plain;
    if a == [] {
      assert a + b == b;
      m := i;
    } else {
      assert (a + b)[1..] == a[1..] + b;
      m := SpelledTwo(t, Skip(t, i) + |a[0]|, j, a[1..], b);
    }
  }

  lemma SpelledEmpty(t: string, i: nat, j: nat)
    requires Spelled(t, i, j, [])
    ensures i == j <= |t|
  {
  }

  lemma SpelledFirst(t: string, i: nat, j: nat, ls: seq<string>)
    requires ls != [] && Spelled(t, i, j, ls)
    ensures i <= |t| && var s := Skip(t, i); var e := s + |ls[0]|;
            e <= |t| && t[s..e] == ls[0] && (IsWord(ls[0]) && e < |t| ==> !Plain(t[e])) && Spelled(t, e, j, ls[1..])
  {
    hide Skip, IsWord, Plain;
  }

  lemma SpelledCons(t: string, i: nat, j: nat, l: string, ls: seq<string>)
    requires i <= |t| && var s := Skip(t, i); var e := s + |l|;
             e <= |t| && t[s..e] == l && (IsWord(l) && e < |t| ==> !Plain(t[e])) && Spelled(t, e, j, ls)
    ensures Spelled(t, i, j, [l] + ls)
  {
    hide Skip, IsWord, Plain;
    var all := [l] + ls;
    assert all[0] == l && all[1..] == ls;
  }

  lemma {:induction false} SpelledJoin(t: string, i: nat, m: nat, j: nat, a: seq<string>, b: seq<string>)
    requires Spelled(t, i, m, a) && Spelled(t, m, j, b)
    ensures Spelled(t, i, j, a + b)
    decreases |a|
  {
    hide Skip, IsWord, Plain, Spelled;
    if a == [] {
      SpelledEmpty(t, i, m);
      assert a + b == b;
    } else {
      SpelledFirst(t, i, m, a);
      SpelledJoin(t, Skip(t, i) + |a[0]|, m, j, a[1..], b);
      SpelledCons(t, i, j, a[0], a[1..] + b);
      assert a + b == [a[0]] + (a[1..] + b);
    }
  }

  // ----- white space does not matter to the parser

  lemma SkipTwice(t: string, i: nat)
    requires i <= |t|
    ensures Skip(t, Skip(t, i)) == Skip(t, i)
  {
  }

  lemma PeekIs(t: string, i: nat, toks: string)
    requires IsLine(t) && i <= |t|
    ensures Peek(t, i, toks) <==> Skip(t, i) < |t| && t[Skip(t, i)] in toks
    ensures Peek(t, Skip(t, i), toks) <==> Peek(t, i, toks)
  {
    SkipTwice(t, i);
  }

  lemma TokenSkips(t: string, i: nat)
    requires i <= |t|
    ensures GetToken(t, Skip(t, i)) == GetToken(t, i)
  {
    SkipTwice(t, i);
  }

  lemma RedirsSkip(t: string, c: Cmd<Slice>, i: nat)
    requires i <= |t|
    ensures ParseRedirs(t, c, Skip(t, i)) == ParseRedirs(t, c, i)
  {
    SkipTwice(t, i);
  }

  lemma ArgsSkip(t: string, c: Cmd<Slice>, argc: nat, i: nat)
    requires i <= |t|
    ensures ParseArgs(t, c, argc, Skip(t, i)) == ParseArgs(t, c, argc, i)
  {
    SkipTwice(t, i);
  }

  lemma ExecSkips(t: string, i: nat)
    requires i <= |t|
    ensures ParseExec(t, Skip(t, i)) == ParseExec(t, i)
  {
    hide ParseBlock, ParseRedirs, ParseArgs;
    SkipTwice(t, i);
  }

  lemma PipeSkips(t: string, i: nat)
    requires i <= |t|
    ensures ParsePipe(t, Skip(t, i)) == ParsePipe(t, i)
  {
    hide ParseExec;
    ExecSkips(t, i);
  }

  lemma LineSkips(t: string, i: nat)
    requires i <= |t|
    ensures ParseLine(t, Skip(t, i)) == ParseLine(t, i)
  {
    hide ParsePipe, LineTail;
    PipeSkips(t, i);
  }

  lemma TailSkips(t: string, c: Cmd<Slice>, i: nat)
    requires i <= |t|
    ensures LineTail(t, c, Skip(t, i)) == LineTail(t, c, i)
  {
    hide ParseLine;
    SkipTwice(t, i);
  }

  // ----- single tokens

  /** What stands at j: the end, or one of the given symbols. */
  predicate Follow(t: string, j: nat, symbols: string) {
    j <= |t| && (Skip(t, j) < |t| ==> t[Skip(t, j)] in symbols)
  }

  /** A symbol that is a token by itself. */
  lemma SymbolHere(t: string, i: nat, j: nat, c: char)
    requires IsLine(t) && Spelled(t, i, j, [[c]]) && c in "|();&"
    ensures i <= |t| && Skip(t, i) < |t| && t[Skip(t, i)] == c && j == Skip(t, i) + 1
    ensures GetToken(t, i).next == Skip(t, j) && GetToken(t, Skip(t, i)).next == Skip(t, j)
    ensures forall toks :: Peek(t, i, toks) <==> c in toks
  {
    var s := Skip(t, i);
    assert t[s..s + 1] == [c];
    assert t[s] == t[s..s + 1][0];
    assert [[c]][1..] == [];
    SkipTwice(t, i);
  }

  lemma {:induction false} WordEndsAt(t: string, i: nat, j: nat)
    requires i <= j <= |t| && (forall k :: i <= k < j ==> IsWordChar(t[k]))
             && (j < |t| ==> IsSpace(t[j]) || IsSymbol(t[j]))
    ensures WordEnd(t, i) == j
    decreases j - i
  {
    if i < j {
      WordEndsAt(t, i + 1, j);
    }
  }

  lemma WordHere(t: string, i: nat, j: nat, w: string)
    requires IsLine(t) && Spelled(t, i, j, [w]) && IsWord(w)
    ensures i <= |t| && GetToken(t, i) == Token('a', Skip(t, i), j, Skip(t, j)) && Skip(t, i) < |t|
    ensures WordAt(t, Slice(Skip(t, i), j)) == w && IsWordChar(t[Skip(t, i)])
  {
    var s := Skip(t, i);
    assert [w][1..] == [];
    assert t[s..j] == w;
    forall k | s <= k < j
      ensures IsWordChar(t[k])
    {
      assert t[k] == w[k - s];
      PlainIs(t[k]);
    }
    if j < |t| {
      PlainIs(t[j]);
    }
    WordEndsAt(t, s, j);
  }

  lemma SignHere(t: string, i: nat, m: nat, op: Op)
    requires IsLine(t) && Spelled(t, i, m, [Sign(op)]) && Skip(t, m) < |t| && IsWordChar(t[Skip(t, m)])
    ensures i <= |t| && Peek(t, i, "<>")
    ensures GetToken(t, i).next == Skip(t, m) && OpOf(GetToken(t, i).kind) == op
  {
    hide WordEnd;
    var s := Skip(t, i);
    assert [Sign(op)][1..] == [];
    assert t[s..m] == Sign(op);
    assert t[s] == t[s..m][0] && (op == Append ==> t[s + 1] == t[s..m][1]);
    PeekIs(t, i, "<>");
    assert m < |t| && t[m] != '>';
  }

  // ----- one item

  /** How parseexec goes on with a command it has begun. */
  function Rest(t: string, c: Cmd<Slice>, argc: nat, i: nat): Parsed
    requires i <= |t|
  {
    match ParseRedirs(t, c, i)
    case Panic(m) => Panic(m)
    case Ok(d, j) => ParseArgs(t, d, argc, j)
  }

  lemma RestSkips(t: string, c: Cmd<Slice>, argc: nat, i: nat)
    requires i <= |t|
    ensures Rest(t, c, argc, Skip(t, i)) == Rest(t, c, argc, i)
  {
    RedirsSkip(t, c, i);
  }

  lemma ToHere(t: string, c: Cmd<Slice>, i: nat, j: nat, op: Op, f: string) returns (w: Slice)
    requires IsLine(t) && Spelled(t, i, j, [Sign(op), f]) && IsWord(f)
    ensures WordAt(t, w) == f && i <= j <= |t| && Peek(t, i, "<>")
    ensures ParseRedirs(t, c, i) == ParseRedirs(t, Redir(c, w, op), j)
  {
    hide ParseRedirs, GetToken, Skip, IsWord, Sign, WordAt, Spelled, IsLine, Peek, OpOf;
    assert [Sign(op)] + [f] == [Sign(op), f];
    var m := SpelledTwo(t, i, j, [Sign(op)], [f]);
    WordHere(t, m, j, f);
    SignHere(t, i, m, op);
    w := Slice(Skip(t, m), j);
    ToParsed(t, c, i, m, j, op);
  }

  lemma ToParsed(t: string, c: Cmd<Slice>, i: nat, m: nat, j: nat, op: Op)
    requires i <= |t| && m <= |t| && j <= |t| && Peek(t, i, "<>")
    requires GetToken(t, i).next == Skip(t, m) && OpOf(GetToken(t, i).kind) == op
    requires GetToken(t, m) == Token('a', Skip(t, m), j, Skip(t, j))
    ensures ParseRedirs(t, c, i) == ParseRedirs(t, Redir(c, Slice(Skip(t, m), j), op), j)
  {
    hide GetToken, Peek, Skip, OpOf;
    TokenSkips(t, i);
    TokenSkips(t, m);
    RedirsSkip(t, Redir(c, Slice(Skip(t, m), j), op), j);
  }

  lemma NoRedir(t: string, c: Cmd<Slice>, i: nat)
    requires i <= |t| && !Peek(t, i, "<>")
    ensures ParseRedirs(t, c, i) == Ok(c, Skip(t, i))
  {
  }

  lemma ArgHere(t: string, c: Cmd<Slice>, argc: nat, i: nat, j: nat, w: string) returns (v: Slice)
    requires IsLine(t) && Spelled(t, i, j, [w]) && IsWord(w) && argc + 1 < 10
    ensures WordAt(t, v) == w && i <= j <= |t|
    ensures Rest(t, c, argc, i) == Rest(t, AddArg(c, v), argc + 1, j)
  {
    hide ParseRedirs, ParseArgs, GetToken, Skip, IsWord, WordAt, Spelled, IsLine, Peek;
    WordHere(t, i, j, w);
    v := Slice(Skip(t, i), j);
    NotSymbol(t, i);
    NoRedir(t, c, i);
    ArgsSkip(t, c, argc, i);
    ArgParsed(t, c, argc, i, j);
    RestSkips(t, AddArg(c, v), argc + 1, j);
  }

  lemma ArgParsed(t: string, c: Cmd<Slice>, argc: nat, i: nat, j: nat)
    requires i <= |t| && j <= |t| && GetToken(t, i) == Token('a', Skip(t, i), j, Skip(t, j)) && !Peek(t, i, "|)&;")
             && argc + 1 < 10
    ensures ParseArgs(t, c, argc, i) == Rest(t, AddArg(c, Slice(Skip(t, i), j)), argc + 1, Skip(t, j))
  {
    hide GetToken, Peek, Skip, ParseRedirs;
    TokenSkips(t, i);
  }

  lemma NotSymbol(t: string, i: nat)
    requires IsLine(t) && i <= |t| && Skip(t, i) < |t| && IsWordChar(t[Skip(t, i)])
    ensures !Peek(t, i, "<>") && !Peek(t, i, "|)&;") && !Peek(t, i, "(")
  {
    PeekIs(t, i, "<>");
    PeekIs(t, i, "|)&;");
    PeekIs(t, i, "(");
  }

  // ----- items

  /** The command with the items put to it as the parser does. */
  function Built(c: Cmd<string>, items: seq<Item>): Cmd<string>
    decreases |items|
  {
    if items == [] then c
    else Built(Put(c, items[0]), items[1..])
  }

  function Put(c: Cmd<string>, it: Item): Cmd<string> {
    match it
    case Arg(w) => AddArg(c, w)
    case To(op, f) => Redir(c, f, op)
  }

  lemma BuiltNext(c: Cmd<string>, items: seq<Item>)
    requires items != []
    ensures Built(c, items) == Built(Put(c, items[0]), items[1..])
    ensures Args(items) == (if items[0].Arg? then [items[0].w] else []) + Args(items[1..])
  {
  }

  lemma {:induction false} AddWrapped(c: Cmd<string>, done: seq<Item>, w: string)
    ensures AddArg(Wrapped(c, done), w) == Wrapped(AddArg(c, w), done)
    decreases |done|
  {
    if done != [] {
      AddWrapped(if done[0].To? then Redir(c, done[0].file, done[0].op) else c, done[1..], w);
    }
  }

  lemma {:induction false} WrappedNext(c: Cmd<string>, done: seq<Item>, it: Item)
    ensures Wrapped(c, done + [it]) == if it.To? then Redir(Wrapped(c, done), it.file, it.op) else Wrapped(c, done)
    decreases |done|
  {
    if done == [] {
      assert done + [it] == [it];
    } else {
      assert (done + [it])[1..] == done[1..] + [it];
      WrappedNext(if done[0].To? then Redir(c, done[0].file, done[0].op) else c, done[1..], it);
    }
  }

  /** Arguments that come after redirections end up in the same list. */
  lemma {:induction false} BuiltIs(a: seq<string>, done: seq<Item>, items: seq<Item>)
    ensures Built(Wrapped(Exec(a), done), items) == Wrapped(Exec(a + Args(items)), done + items)
    decreases |items|
  {
    hide Wrapped, AddArg;
    if items == [] {
      assert a + Args(items) == a && done + items == done;
    } else {
      hide Built, Args;
      var it := items[0];
      BuiltNext(Wrapped(Exec(a), done), items);
      PutOn(a, done, it);
      var b := if it.Arg? then a + [it.w] else a;
      BuiltIs(b, done + [it], items[1..]);
      assert done + [it] + items[1..] == done + items;
      assert b + Args(items[1..]) == a + Args(items);
    }
  }

  lemma PutOn(a: seq<string>, done: seq<Item>, it: Item)
    ensures Put(Wrapped(Exec(a), done), it) == Wrapped(Exec(if it.Arg? then a + [it.w] else a), done + [it])
  {
    hide Wrapped;
    WrappedNext(Exec(a), done, it);
    if it.Arg? {
      AddWrapped(Exec(a), done, it.w);
      WrappedNext(Exec(a + [it.w]), done, it);
    }
  }

  lemma {:induction false} BuiltRedirs(c: Cmd<string>, rs: seq<Item>)
    requires forall k :: 0 <= k < |rs| ==> rs[k].To?
    ensures Built(c, rs) == Wrapped(c, rs)
    decreases |rs|
  {
    if rs != [] {
      BuiltRedirs(Redir(c, rs[0].file, rs[0].op), rs[1..]);
    }
  }

  lemma TextAdds(t: string, c: Cmd<Slice>, v: Slice)
    ensures Text(t, AddArg(c, v)) == AddArg(Text(t, c), WordAt(t, v))
  {
    match c
    case Exec(argv) =>
      assert Text(t, AddArg(c, v)).argv == AddArg(Text(t, c), WordAt(t, v)).argv;
    case Redir(x, f, op) => TextAdds(t, x, v);
    case _ =>
  }

  lemma {:induction false} ItemsParse(t: string, c: Cmd<Slice>, argc: nat, i: nat, j: nat, items: seq<Item>)
      returns (d: Cmd<Slice>)
    requires IsLine(t) && Spelled(t, i, j, AllLexemes(items)) && Follow(t, j, "|)&;") && argc + |Args(items)| < 10
    requires forall k :: 0 <= k < |items| ==> IsWord(ItemWord(items[k]))
    ensures Rest(t, c, argc, i) == Ok(d, Skip(t, j)) && Text(t, d) == Built(Text(t, c), items)
    decreases |items|
  {
    hide Rest, IsLine, IsWord, Skip, Spelled, WordAt, AddArg, Text;
    if items == [] {
      d := c;
      ItemsEnd(t, c, argc, i, j);
    } else {
      var it := items[0];
      assert IsWord(ItemWord(it));
      var m := SpelledTwo(t, i, j, ItemLexemes(it), AllLexemes(items[1..]));
      var next;
      match it {
        case Arg(w) =>
          var v := ArgHere(t, c, argc, i, m, w);
          TextAdds(t, c, v);
          next := AddArg(c, v);
        case To(op, f) =>
          var v := ToHere(t, c, i, m, op, f);
          next := Redir(c, v, op);
          TextRedir(t, c, v, op);
          SameRest(t, c, next, argc, i, m);
      }
      d := ItemsParse(t, next, if it.Arg? then argc + 1 else argc, m, j, items[1..]);
    }
  }

  lemma TextRedir(t: string, c: Cmd<Slice>, v: Slice, op: Op)
    ensures Text(t, Redir(c, v, op)) == Redir(Text(t, c), WordAt(t, v), op)
  {
  }

  lemma SameRest(t: string, c: Cmd<Slice>, d: Cmd<Slice>, argc: nat, i: nat, j: nat)
    requires i <= |t| && j <= |t| && ParseRedirs(t, c, i) == ParseRedirs(t, d, j)
    ensures Rest(t, c, argc, i) == Rest(t, d, argc, j)
  {
  }

  lemma ItemsEnd(t: string, c: Cmd<Slice>, argc: nat, i: nat, j: nat)
    requires IsLine(t) && Spelled(t, i, j, []) && Follow(t, j, "|)&;")
    ensures Rest(t, c, argc, i) == Ok(c, Skip(t, j))
  {
    hide ParseRedirs;
    PeekIs(t, i, "<>");
    PeekIs(t, i, "|)&;");
    NoRedir(t, c, i);
    SkipTwice(t, i);
  }

  lemma {:induction false} RedirsParse(t: string, c: Cmd<Slice>, i: nat, j: nat, rs: seq<Item>) returns (d: Cmd<Slice>)
    requires IsLine(t) && Spelled(t, i, j, AllLexemes(rs)) && Follow(t, j, "|)&;")
    requires forall k :: 0 <= k < |rs| ==> rs[k].To? && IsWord(rs[k].file)
    ensures i <= |t| && ParseRedirs(t, c, i) == Ok(d, Skip(t, j)) && Text(t, d) == Wrapped(Text(t, c), rs)
    decreases |rs|
  {
    hide IsLine, IsWord, Skip, ParseRedirs, WordAt;
    if rs == [] {
      d := c;
      PeekIs(t, i, "<>");
      NoRedir(t, c, i);
    } else {
      var m := SpelledTwo(t, i, j, ItemLexemes(rs[0]), AllLexemes(rs[1..]));
      var v := ToHere(t, c, i, m, rs[0].op, rs[0].file);
      d := RedirsParse(t, Redir(c, v, rs[0].op), m, j, rs[1..]);
    }
  }

  // ----- every spelling is parsed

  lemma ExecIs(t: string, i: nat)
    requires i <= |t| && !Peek(t, i, "(")
    ensures ParseExec(t, i) == Rest(t, Exec([]), 0, i)
  {
    hide ParseRedirs, ParseArgs, ParseBlock, Peek;
    RedirsSkip(t, Exec([]), i);
  }

  lemma BlockIs(t: string, i: nat, m: nat, n: nat, k: nat, c: Cmd<Slice>)
    requires i <= |t| && m <= |t| && n <= |t| && k <= |t| && Peek(t, i, "(") && GetToken(t, i).next == Skip(t, m)
    requires ParseLine(t, m) == Ok(c, Skip(t, n)) && Peek(t, n, ")") && GetToken(t, n).next == Skip(t, k)
    ensures ParseExec(t, i) == ParseRedirs(t, c, k)
  {
    hide ParseRedirs, ParseLine, Skip, GetToken;
    SkipTwice(t, i);
    SkipTwice(t, n);
    TokenSkips(t, i);
    TokenSkips(t, n);
    LineSkips(t, m);
    RedirsSkip(t, c, k);
  }

  lemma NoParen(t: string, i: nat)
    requires IsLine(t) && i <= |t| && (Peek(t, i, "<>") || Follow(t, i, "|)&;"))
    ensures !Peek(t, i, "(")
  {
    hide Skip, IsLine;
    PeekIs(t, i, "<>");
    PeekIs(t, i, "(");
  }

  /** No simple command starts with a parenthesis. */
  lemma FirstChar(t: string, i: nat, j: nat, items: seq<Item>)
    requires IsLine(t) && Spelled(t, i, j, AllLexemes(items)) && Follow(t, j, "|)&;")
    requires forall k :: 0 <= k < |items| ==> IsWord(ItemWord(items[k]))
    ensures i <= |t| && !Peek(t, i, "(")
  {
    hide IsLine, IsWord, Skip, Peek, ParseRedirs, Follow, Spelled;
    if items == [] {
      assert Spelled(t, i, j, []);
      SpelledEmpty(t, i, j);
      NoParen(t, i);
    } else {
      var it := items[0];
      assert IsWord(ItemWord(it));
      var m := SpelledTwo(t, i, j, ItemLexemes(it), AllLexemes(items[1..]));
      match it {
        case Arg(w) =>
          WordHere(t, i, m, w);
          NotSymbol(t, i);
        case To(op, f) =>
          var v := ToHere(t, Exec([]), i, m, op, f);
          NoParen(t, i);
      }
    }
  }

  lemma {:induction false} ExecParse(t: string, i: nat, j: nat, s: Syntax) returns (c: Cmd<Slice>)
    requires IsLine(t) && Good(s) && IsExec(s) && Spelled(t, i, j, Lexemes(s)) && Follow(t, j, "|)&;")
    ensures i <= |t| && ParseExec(t, i) == Ok(c, Skip(t, j)) && Text(t, c) == Tree(s)
    decreases s, 0
  {
    hide IsLine, IsWord, Skip, ParseExec, ParseLine, ParseRedirs, Rest, Spelled, GetToken, Peek;
    match s
    case Simple(items) =>
      FirstChar(t, i, j, items);
      ExecIs(t, i);
      c := ItemsParse(t, Exec([]), 0, i, j, items);
      BuiltIs([], [], items);
      assert Text(t, Exec([])) == Wrapped(Exec([]), []);
      assert [] + Args(items) == Args(items) && [] + items == items;
    case Block(l, rs) =>
      var m := SpelledTwo(t, i, j, ["("], Lexemes(l) + ([")"] + AllLexemes(rs)));
      var n := SpelledTwo(t, m, j, Lexemes(l), [")"] + AllLexemes(rs));
      var k := SpelledTwo(t, n, j, [")"], AllLexemes(rs));
      SymbolHere(t, i, m, '(');
      SymbolHere(t, n, k, ')');
      var a := LineParse(t, m, n, l);
      BlockIs(t, i, m, n, k, a);
      c := RedirsParse(t, a, k, j, rs);
  }

  lemma PipeOn(t: string, i: nat, m: nat, k: nat, j: nat, a: Cmd<Slice>, b: Cmd<Slice>)
    requires i <= |t| && m <= |t| && k <= |t| && j <= |t| && ParseExec(t, i) == Ok(a, Skip(t, m)) && Peek(t, m, "|")
    requires GetToken(t, m).next == Skip(t, k) && ParsePipe(t, k) == Ok(b, Skip(t, j))
    ensures ParsePipe(t, i) == Ok(Pipe(a, b), Skip(t, j))
  {
    hide ParseExec, Skip, GetToken;
    SkipTwice(t, m);
    TokenSkips(t, m);
    PipeSkips(t, k);
  }

  lemma PipeEnds(t: string, i: nat, j: nat, a: Cmd<Slice>)
    requires IsLine(t) && i <= |t| && Follow(t, j, ")&;") && ParseExec(t, i) == Ok(a, Skip(t, j))
    ensures ParsePipe(t, i) == Ok(a, Skip(t, j))
  {
    hide ParseExec, Skip;
    SkipTwice(t, j);
    PeekIs(t, j, "|");
  }

  lemma {:induction false} PipeParse(t: string, i: nat, j: nat, s: Syntax) returns (c: Cmd<Slice>)
    requires IsLine(t) && Good(s) && IsPipe(s) && Spelled(t, i, j, Lexemes(s)) && Follow(t, j, ")&;")
    ensures i <= |t| && ParsePipe(t, i) == Ok(c, Skip(t, j)) && Text(t, c) == Tree(s)
    decreases s, 1
  {
    hide IsLine, IsWord, Skip, ParseExec, ParsePipe, Spelled, GetToken, Peek;
    if s.Piped? {
      var l, r := s.left, s.right;
      var m := SpelledTwo(t, i, j, Lexemes(l), ["|"] + Lexemes(r));
      var k := SpelledTwo(t, m, j, ["|"], Lexemes(r));
      SymbolHere(t, m, k, '|');
      var a := ExecParse(t, i, m, l);
      var b := PipeParse(t, k, j, r);
      PipeOn(t, i, m, k, j, a, b);
      c := Pipe(a, b);
    } else {
      c := ExecParse(t, i, j, s);
      PipeEnds(t, i, j, c);
    }
  }

  lemma TailBacks(t: string, m: nat, j: nat, c: Cmd<Slice>)
    requires IsLine(t) && Spelled(t, m, j, ["&"])
    ensures m <= |t| && j <= |t| && LineTail(t, c, m) == LineTail(t, Back(c), j)
  {
    hide ParseLine, Skip, GetToken, IsLine, Peek, Spelled;
    SymbolHere(t, m, j, '&');
    TokenSkips(t, m);
    TailSkips(t, Back(c), j);
  }

  lemma TailLists(t: string, m: nat, k: nat, j: nat, a: Cmd<Slice>, b: Cmd<Slice>)
    requires IsLine(t) && Spelled(t, m, k, [";"]) && k <= |t| && j <= |t| && ParseLine(t, k) == Ok(b, Skip(t, j))
    ensures m <= |t| && LineTail(t, a, m) == Ok(List(a, b), Skip(t, j))
  {
    hide ParseLine, Skip, GetToken, IsLine, Peek, Spelled;
    SymbolHere(t, m, k, ';');
    TokenSkips(t, m);
    LineSkips(t, k);
  }

  lemma TailEnds(t: string, j: nat, c: Cmd<Slice>)
    requires IsLine(t) && Follow(t, j, ")")
    ensures LineTail(t, c, j) == Ok(c, Skip(t, j))
  {
    hide ParseLine, Skip, IsLine;
    PeekIs(t, j, "&");
    PeekIs(t, j, ";");
  }

  lemma LineStarts(t: string, i: nat, j: nat, c: Cmd<Slice>)
    requires i <= |t| && j <= |t| && ParsePipe(t, i) == Ok(c, Skip(t, j))
    ensures ParseLine(t, i) == LineTail(t, c, j)
  {
    hide ParsePipe, LineTail, Skip;
    TailSkips(t, c, j);
  }

  lemma {:induction false} BackParse(t: string, i: nat, j: nat, s: Syntax) returns (c: Cmd<Slice>)
    requires IsLine(t) && Good(s) && IsBack(s) && Spelled(t, i, j, Lexemes(s)) && Follow(t, j, ")&;")
    ensures i <= |t| && j <= |t| && ParseLine(t, i) == LineTail(t, c, j) && Text(t, c) == Tree(s)
    decreases s, 2
  {
    hide IsLine, IsWord, Skip, ParseLine, ParsePipe, LineTail, Spelled;
    if s.Backed? {
      var x := s.cmd;
      var m := SpelledTwo(t, i, j, Lexemes(x), ["&"]);
      assert Follow(t, m, ")&;") by {
        SymbolHere(t, m, j, '&');
      }
      var d := BackParse(t, i, m, x);
      TailBacks(t, m, j, d);
      c := Back(d);
    } else {
      c := PipeParse(t, i, j, s);
      LineStarts(t, i, j, c);
    }
  }

  lemma {:induction false} LineParse(t: string, i: nat, j: nat, s: Syntax) returns (c: Cmd<Slice>)
    requires IsLine(t) && Good(s) && Spelled(t, i, j, Lexemes(s)) && Follow(t, j, ")")
    ensures i <= |t| && j <= |t| && ParseLine(t, i) == Ok(c, Skip(t, j)) && Text(t, c) == Tree(s)
    decreases s, 3
  {
    hide IsLine, IsWord, Skip, ParseLine, ParsePipe, LineTail, Spelled;
    if s.Listed? {
      var l, r := s.left, s.right;
      var m := SpelledTwo(t, i, j, Lexemes(l), [";"] + Lexemes(r));
      var k := SpelledTwo(t, m, j, [";"], Lexemes(r));
      assert Follow(t, m, ")&;") by {
        SymbolHere(t, m, k, ';');
      }
      var a := BackParse(t, i, m, l);
      var b := LineParse(t, k, j, r);
      TailLists(t, m, k, j, a, b);
      c := List(a, b);
    } else {
      c := BackParse(t, i, j, s);
      TailEnds(t, j, c);
    }
  }

  // ----- from a spelling to its line

  predicate IsLexeme(l: string) {
    IsWord(l) || l in {"<", ">", ">>", "|", "&", ";", "(", ")"}
  }

  lemma {:induction false} ItemsAreLexemes(items: seq<Item>)
    requires forall k :: 0 <= k < |items| ==> IsWord(ItemWord(items[k]))
    ensures forall l :: l in AllLexemes(items) ==> IsLexeme(l)
    decreases |items|
  {
    hide IsWord;
    if items != [] {
      assert IsWord(ItemWord(items[0]));
      ItemsAreLexemes(items[1..]);
    }
  }

  lemma {:induction false} SyntaxIsLexemes(s: Syntax)
    requires Good(s)
    ensures forall l :: l in Lexemes(s) ==> IsLexeme(l)
  {
    hide IsWord;
    match s
    case Simple(items) => ItemsAreLexemes(items);
    case Block(l, rs) =>
      SyntaxIsLexemes(l);
      ItemsAreLexemes(rs);
    case Piped(l, r) =>
      SyntaxIsLexemes(l);
      SyntaxIsLexemes(r);
    case Backed(c) => SyntaxIsLexemes(c);
    case Listed(l, r) =>
      SyntaxIsLexemes(l);
      SyntaxIsLexemes(r);
  }

  lemma LexemeStarts(l: string)
    requires IsLexeme(l)
    ensures l != "" && !IsSpace(l[0]) && l[0] != '\0' && (!IsWord(l) ==> !Plain(l[0]))
    ensures IsLine(l)
  {
    if IsWord(l) {
      PlainIs(l[0]);
    }
  }

  lemma WhiteIs(g: string)
    requires White(g)
    ensures forall k :: 0 <= k < |g| ==> IsSpace(g[k]) && !Plain(g[k]) && g[k] != '\0'
  {
  }

  lemma {:induction false} SkipTo(t: string, i: nat, s: nat)
    requires i <= s <= |t| && (forall k :: i <= k < s ==> IsSpace(t[k])) && (s < |t| ==> !IsSpace(t[s]))
    ensures Skip(t, i) == s
    decreases s - i
  {
    if i < s {
      SkipTo(t, i + 1, s);
    }
  }

  /** What is laid out behind a word does not go on with it. */
  lemma WordStops(ls: seq<string>, gaps: seq<string>, last: string)
    requires Gaps(ls, gaps, true) && White(last) && forall l :: l in ls ==> IsLexeme(l)
    ensures var u := Laid(ls, gaps) + last; u != "" ==> !Plain(u[0])
  {
    hide IsWord, Plain, IsLexeme;
    WhiteIs(last);
    if ls != [] {
      WhiteIs(gaps[0]);
      LexemeStarts(ls[0]);
    }
  }

  lemma {:induction false} LaidSpelled(t: string, i: nat, ls: seq<string>, gaps: seq<string>, last: string, w: bool)
    requires i <= |t| && Gaps(ls, gaps, w) && White(last) && (forall l :: l in ls ==> IsLexeme(l))
    requires t[i..] == Laid(ls, gaps) + last
    ensures i <= |t| - |last| && Spelled(t, i, |t| - |last|, ls)
    decreases |ls|
  {
    hide IsWord, Plain, IsLexeme, Skip, White, Spelled;
    if ls == [] {
      SpelledNone(t, i);
    } else {
      var e := i + |gaps[0]| + |ls[0]|;
      LaidFirst(t, i, ls, gaps, last);
      LaidSpelled(t, e, ls[1..], gaps[1..], last, IsWord(ls[0]));
      if IsWord(ls[0]) {
        WordStops(ls[1..], gaps[1..], last);
        assert e < |t| ==> t[e] == t[e..][0];
      }
      SpelledCons(t, i, |t| - |last|, ls[0], ls[1..]);
      assert [ls[0]] + ls[1..] == ls;
    }
  }

  lemma Parts(t: string, i: nat, a: string, b: string, c: string)
    requires i <= |t| && t[i..] == a + (b + c)
    ensures i + |a| + |b| <= |t| && t[i..i + |a|] == a && t[i + |a|..i + |a| + |b|] == b && t[i + |a| + |b|..] == c
  {
    var s := i + |a|;
    assert t[i..s] == t[i..][..|a|];
    assert t[s..] == t[i..][|a|..] == b + c;
    assert t[s..s + |b|] == t[s..][..|b|];
    assert t[s + |b|..] == t[s..][|b|..];
  }

  lemma LaidFirst(t: string, i: nat, ls: seq<string>, gaps: seq<string>, last: string)
    requires i <= |t| && |gaps| == |ls| && ls != [] && White(gaps[0]) && IsLexeme(ls[0])
    requires t[i..] == Laid(ls, gaps) + last
    ensures var s := i + |gaps[0]|; var e := s + |ls[0]|;
            Skip(t, i) == s && e <= |t| && t[s..e] == ls[0] && t[e..] == Laid(ls[1..], gaps[1..]) + last
  {
    hide IsLexeme, White, Skip, IsSpace;
    var g, l, rest := gaps[0], ls[0], Laid(ls[1..], gaps[1..]);
    assert t[i..] == g + (l + (rest + last)) by {
      assert g + (l + rest) + last == g + (l + (rest + last));
    }
    Parts(t, i, g, l, rest + last);
    WhiteIs(g);
    LexemeStarts(l);
    SkipsGap(t, i, g, l);
  }

  lemma SkipsGap(t: string, i: nat, g: string, l: string)
    requires i + |g| + |l| <= |t| && t[i..i + |g|] == g && t[i + |g|..i + |g| + |l|] == l
    requires (forall k :: 0 <= k < |g| ==> IsSpace(g[k])) && l != "" && !IsSpace(l[0])
    ensures Skip(t, i) == i + |g|
  {
    hide IsSpace;
    var s := i + |g|;
    forall k | i <= k < s
      ensures IsSpace(t[k])
    {
      assert t[k] == t[i..s][k - i];
    }
    assert t[s] == t[s..s + |l|][0];
    SkipTo(t, i, s);
  }

  lemma {:induction false} LaidNoNul(ls: seq<string>, gaps: seq<string>, w: bool)
    requires Gaps(ls, gaps, w) && forall l :: l in ls ==> IsLexeme(l)
    ensures IsLine(Laid(ls, gaps))
    decreases |ls|
  {
    hide IsWord, IsLexeme;
    if ls != [] {
      WhiteIs(gaps[0]);
      LexemeStarts(ls[0]);
      LaidNoNul(ls[1..], gaps[1..], IsWord(ls[0]));
    }
  }

  /** The parser reads every spelling of every command, and reads it right. */
  lemma Parses(t: string, s: Syntax, gaps: seq<string>, last: string)
    requires Spells(t, s, gaps, last)
    ensures IsLine(t) && ParseCmd(t).Ok? && Text(t, ParseCmd(t).cmd) == Tree(s)
  {
    hide IsWord, IsLexeme, Good, Tree, Lexemes, Gaps, Laid, Skip, ParseLine, Spelled, White;
    var j := |t| - |last|;
    SyntaxIsLexemes(s);
    LaidNoNul(Lexemes(s), gaps, false);
    LastIsWhite(t, j, last);
    assert t[0..] == t;
    LaidSpelled(t, 0, Lexemes(s), gaps, last, false);
    var c := LineParse(t, 0, j, s);
    SkipTwice(t, j);
  }

  lemma LastIsWhite(t: string, j: int, last: string)
    requires 0 <= j == |t| - |last| && t[j..] == last && White(last) && IsLine(t[..j])
    ensures IsLine(t) && Skip(t, j) == |t|
  {
    WhiteIs(last);
    forall k | j <= k < |t|
      ensures IsSpace(t[k]) && t[k] != '\0'
    {
      assert t[k] == t[j..][k - j];
    }
    forall k | 0 <= k < j
      ensures t[k] != '\0'
    {
      assert t[k] == t[..j][k];
    }
    SkipTo(t, j, |t|);
  }

  // ----- every line that is parsed is a spelling

  lemma SkipsWhite(t: string, i: nat)
    requires i <= |t|
    ensures White(t[i..Skip(t, i)])
  {
    var g := t[i..Skip(t, i)];
    forall k | 0 <= k < |g|
      ensures IsSpace(g[k])
    {
      assert g[k] == t[i + k];
    }
  }

  lemma {:induction false} SpelledLaid(t: string, i: nat, j: nat, ls: seq<string>, w: bool) returns (gaps: seq<string>)
    requires Spelled(t, i, j, ls) && (w && i < |t| ==> !Plain(t[i]))
    ensures Gaps(ls, gaps, w) && t[i..j] == Laid(ls, gaps)
    decreases |ls|
  {
    hide Plain, Skip, White, Spelled;
    gaps := [];
    if ls == [] {
      SpelledEmpty(t, i, j);
    } else {
      SpelledFirst(t, i, j, ls);
      var s := Skip(t, i);
      var e := s + |ls[0]|;
      SpelledIn(t, e, j, ls[1..]);
      SkipsWhite(t, i);
      var rest := SpelledLaid(t, e, j, ls[1..], IsWord(ls[0]));
      gaps := [t[i..s]] + rest;
      assert gaps[1..] == rest;
      assert t[i..j] == t[i..s] + (t[s..e] + t[e..j]);
      if IsWord(ls[0]) {
        assert t[s] == t[s..e][0];
      }
    }
  }

  /** The first token of a line, as a lexeme. */
  lemma LexemeRead(t: string, i: nat, l: string, j: nat)
    requires i <= |t| && Skip(t, i) + |l| == j <= |t| && t[Skip(t, i)..j] == l
             && (IsWord(l) && j < |t| ==> !Plain(t[j]))
    ensures Spelled(t, i, j, [l])
  {
    hide Skip, IsWord, Plain;
    assert [l][1..] == [];
  }

  lemma WordRead(t: string, i: nat) returns (w: Slice)
    requires IsLine(t) && i <= |t| && GetToken(t, i).kind == 'a'
    ensures w == Slice(GetToken(t, i).q, GetToken(t, i).eq) && w.eq <= |t| && IsWord(WordAt(t, w))
    ensures Spelled(t, i, w.eq, [WordAt(t, w)]) && GetToken(t, i).next == Skip(t, w.eq) > i
  {
    hide Spelled, IsWord;
    w := Slice(GetToken(t, i).q, GetToken(t, i).eq);
    TokenOk(t, i);
    WordMoves(t, i);
    LexemeRead(t, i, WordAt(t, w), w.eq);
  }

  lemma SymbolIsNoWord(c: char)
    requires c in "|();&"
    ensures !IsWord([c])
  {
    assert [c][0] == c;
  }

  lemma SymbolRead(t: string, i: nat, toks: string) returns (j: nat)
    requires IsLine(t) && i <= |t| && Peek(t, i, toks) && |toks| == 1 && toks[0] in "|();&"
    ensures i < j <= |t| && GetToken(t, i).next == Skip(t, j) && Spelled(t, i, j, [toks])
  {
    hide Spelled, IsWord;
    var s, c := Skip(t, i), toks[0];
    j := s + 1;
    SymbolThere(t, i, toks);
    assert t[s..j] == [c] == toks;
    SymbolIsNoWord(c);
    LexemeRead(t, i, toks, j);
    SkipTwice(t, i);
  }

  lemma SymbolThere(t: string, i: nat, toks: string)
    requires IsLine(t) && i <= |t| && Peek(t, i, toks) && |toks| == 1
    ensures Skip(t, i) < |t| && t[Skip(t, i)] == toks[0]
  {
  }

  lemma SignRead(t: string, i: nat) returns (j: nat)
    requires IsLine(t) && i <= |t| && Peek(t, i, "<>")
    ensures i < j <= |t| && GetToken(t, i).next == Skip(t, j)
    ensures Spelled(t, i, j, [Sign(OpOf(GetToken(t, i).kind))])
  {
    hide Spelled, WordEnd;
    var s := Skip(t, i);
    var op := OpOf(GetToken(t, i).kind);
    j := GetToken(t, i).eq;
    assert t[s..j] == Sign(op);
    assert !IsWord(Sign(op)) by {
      assert !Plain(Sign(op)[0]);
    }
    LexemeRead(t, i, Sign(op), j);
  }

  /** What redirections a stretch of the line holds. */
  lemma {:induction false} RedirsRead(t: string, c: Cmd<Slice>, i: nat) returns (rs: seq<Item>, j: nat)
    requires IsLine(t) && i <= |t| && ParseRedirs(t, c, i).Ok?
    ensures (forall k :: 0 <= k < |rs| ==> rs[k].To? && IsWord(rs[k].file)) && Spelled(t, i, j, AllLexemes(rs))
    ensures i <= j <= |t| && ParseRedirs(t, c, i).pos == Skip(t, j)
    ensures Text(t, ParseRedirs(t, c, i).cmd) == Wrapped(Text(t, c), rs)
    ensures |Args(rs)| == 0
    decreases |t| - i
  {
    hide IsLine, IsWord, Skip, Spelled, GetToken, Peek, WordAt;
    if Peek(t, i, "<>") {
      var op := OpOf(GetToken(t, i).kind);
      var m := SignRead(t, i);
      TokenSkips(t, i);
      TokenSkips(t, m);
      var w := WordRead(t, m);
      RedirsSkip(t, Redir(c, w, op), w.eq);
      SpelledJoin(t, i, m, w.eq, [Sign(op)], [WordAt(t, w)]);
      var rest;
      rest, j := RedirsRead(t, Redir(c, w, op), w.eq);
      var it := To(op, WordAt(t, w));
      rs := [it] + rest;
      assert [Sign(op)] + [WordAt(t, w)] == ItemLexemes(it) && rs[1..] == rest;
      SpelledJoin(t, i, w.eq, j, ItemLexemes(it), AllLexemes(rest));
    } else {
      rs, j := [], i;
      SpelledNone(t, i);
    }
  }

  lemma {:induction false} BuiltMore(c: Cmd<string>, a: seq<Item>, b: seq<Item>)
    ensures Built(c, a + b) == Built(Built(c, a), b)
    decreases |a|
  {
    if a == [] {
      assert a + b == b;
    } else {
      assert (a + b)[1..] == a[1..] + b;
      BuiltMore(Put(c, a[0]), a[1..], b);
    }
  }

  lemma ItemsMore(a: seq<Item>, b: seq<Item>)
    ensures Args(a + b) == Args(a) + Args(b) && AllLexemes(a + b) == AllLexemes(a) + AllLexemes(b)
  {
    ArgsMore(a, b);
    LexemesMore(a, b);
  }

  lemma {:induction false} ArgsMore(a: seq<Item>, b: seq<Item>)
    ensures Args(a + b) == Args(a) + Args(b)
    decreases |a|
  {
    if a == [] {
      assert a + b == b;
    } else {
      assert (a + b)[0] == a[0] && (a + b)[1..] == a[1..] + b;
      ArgsMore(a[1..], b);
    }
  }

  lemma {:induction false} LexemesMore(a: seq<Item>, b: seq<Item>)
    ensures AllLexemes(a + b) == AllLexemes(a) + AllLexemes(b)
    decreases |a|
  {
    if a == [] {
      assert a + b == b;
    } else {
      hide ItemLexemes;
      assert (a + b)[0] == a[0] && (a + b)[1..] == a[1..] + b;
      LexemesMore(a[1..], b);
    }
  }

  lemma {:induction false} RestRead(t: string, c: Cmd<Slice>, argc: nat, i: nat) returns (items: seq<Item>, j: nat)
    requires IsLine(t) && i <= |t| && argc < 10 && Rest(t, c, argc, i).Ok?
    ensures argc + |Args(items)| < 10 && forall k :: 0 <= k < |items| ==> IsWord(ItemWord(items[k]))
    ensures i <= j <= |t| && Spelled(t, i, j, AllLexemes(items)) && Rest(t, c, argc, i).pos == Skip(t, j)
    ensures Text(t, Rest(t, c, argc, i).cmd) == Built(Text(t, c), items)
    decreases |t| - i, 1
  {
    hide IsLine, IsWord, Skip, Spelled, ParseRedirs, ParseArgs, Text;
    var rs, m := RedirsRead(t, c, i);
    var d := ParseRedirs(t, c, i).cmd;
    ArgsSkip(t, d, argc, m);
    var more;
    more, j := ArgsRead(t, d, argc, m);
    items := rs + more;
    ItemsMore(rs, more);
    BuiltMore(Text(t, c), rs, more);
    BuiltRedirs(Text(t, c), rs);
    SpelledJoin(t, i, m, j, AllLexemes(rs), AllLexemes(more));
  }

  lemma {:induction false} ArgsRead(t: string, c: Cmd<Slice>, argc: nat, i: nat) returns (items: seq<Item>, j: nat)
    requires IsLine(t) && i <= |t| && argc < 10 && ParseArgs(t, c, argc, i).Ok?
    ensures argc + |Args(items)| < 10 && forall k :: 0 <= k < |items| ==> IsWord(ItemWord(items[k]))
    ensures i <= j <= |t| && Spelled(t, i, j, AllLexemes(items)) && ParseArgs(t, c, argc, i).pos == Skip(t, j)
    ensures Text(t, ParseArgs(t, c, argc, i).cmd) == Built(Text(t, c), items)
    decreases |t| - i, 0
  {
    hide IsLine, IsWord, Skip, Spelled, Rest, WordAt, Text, AddArg;
    ArgsCases(t, c, argc, i);
    if !Peek(t, i, "|)&;") && GetToken(t, i).kind == 'a' {
      var w := WordRead(t, i);
      RestSkips(t, AddArg(c, w), argc + 1, w.eq);
      var more;
      more, j := RestRead(t, AddArg(c, w), argc + 1, w.eq);
      TextAdds(t, c, w);
      var it := Arg(WordAt(t, w));
      items := [it] + more;
      assert items[1..] == more;
      SpelledJoin(t, i, w.eq, j, [WordAt(t, w)], AllLexemes(more));
    } else {
      items, j := [], i;
      SpelledNone(t, i);
    }
  }

  lemma ArgsCases(t: string, c: Cmd<Slice>, argc: nat, i: nat)
    requires IsLine(t) && i <= |t| && ParseArgs(t, c, argc, i).Ok?
    ensures if !Peek(t, i, "|)&;") && GetToken(t, i).kind == 'a'
            then var k := GetToken(t, i);
                 argc + 1 < 10 && ParseArgs(t, c, argc, i) == Rest(t, AddArg(c, Slice(k.q, k.eq)), argc + 1, k.next)
            else ParseArgs(t, c, argc, i) == Ok(c, Skip(t, i))
  {
    hide ParseRedirs;
    TokenSkips(t, i);
    SkipTwice(t, i);
  }

  lemma {:induction false} ExecRead(t: string, i: nat) returns (s: Syntax, j: nat)
    requires IsLine(t) && i <= |t| && ParseExec(t, i).Ok?
    ensures Good(s) && IsExec(s) && i <= j <= |t| && Spelled(t, i, j, Lexemes(s)) && ParseExec(t, i).pos == Skip(t, j)
    ensures Text(t, ParseExec(t, i).cmd) == Tree(s)
    decreases |t| - i, 1
  {
    hide IsLine, IsWord, Skip, Spelled, Rest, ParseRedirs, ParseLine, ParseArgs, GetToken, Peek, ParseExec;
    if Peek(t, i, "(") {
      BlockCases(t, i);
      var m := SymbolRead(t, i, "(");
      LineSkips(t, m);
      var l, n := LineRead(t, m);
      var c := ParseLine(t, m).cmd;
      PeekIs(t, n, ")");
      TokenSkips(t, n);
      var k := SymbolRead(t, n, ")");
      RedirsSkip(t, c, k);
      var rs;
      rs, j := RedirsRead(t, c, k);
      s := Block(l, rs);
      SpelledJoin(t, n, k, j, [")"], AllLexemes(rs));
      SpelledJoin(t, m, n, j, Lexemes(l), [")"] + AllLexemes(rs));
      SpelledJoin(t, i, m, j, ["("], Lexemes(l) + ([")"] + AllLexemes(rs)));
    } else {
      ExecIs(t, i);
      var items;
      items, j := RestRead(t, Exec([]), 0, i);
      s := Simple(items);
      BuiltIs([], [], items);
      assert Text(t, Exec([])) == Wrapped(Exec([]), []);
      assert [] + Args(items) == Args(items) && [] + items == items;
    }
  }

  lemma BlockCases(t: string, i: nat)
    requires i <= |t| && ParseExec(t, i).Ok? && Peek(t, i, "(")
    ensures var k := GetToken(t, i).next;
            ParseLine(t, k).Ok? && Peek(t, ParseLine(t, k).pos, ")")
            && var n := ParseLine(t, k).pos;
               ParseExec(t, i) == ParseRedirs(t, ParseLine(t, k).cmd, GetToken(t, n).next)
  {
    hide ParseRedirs, ParseLine, Skip, GetToken;
    SkipTwice(t, i);
    TokenSkips(t, i);
    if ParseLine(t, GetToken(t, i).next).Ok? {
      TokenSkips(t, ParseLine(t, GetToken(t, i).next).pos);
    }
  }

  lemma {:induction false} PipeRead(t: string, i: nat) returns (s: Syntax, j: nat)
    requires IsLine(t) && i <= |t| && ParsePipe(t, i).Ok?
    ensures Good(s) && IsPipe(s) && i <= j <= |t| && Spelled(t, i, j, Lexemes(s)) && ParsePipe(t, i).pos == Skip(t, j)
    ensures Text(t, ParsePipe(t, i).cmd) == Tree(s)
    decreases |t| - i, 2
  {
    hide IsLine, IsWord, Skip, Spelled, GetToken, Peek, ParseExec;
    var l, m := ExecRead(t, i);
    var r := ParseExec(t, i);
    PeekIs(t, m, "|");
    SkipTwice(t, m);
    if Peek(t, m, "|") {
      TokenSkips(t, m);
      var k := SymbolRead(t, m, "|");
      PipeSkips(t, k);
      var p;
      p, j := PipeRead(t, k);
      s := Piped(l, p);
      SpelledJoin(t, m, k, j, ["|"], Lexemes(p));
      SpelledJoin(t, i, m, j, Lexemes(l), ["|"] + Lexemes(p));
    } else {
      s, j := l, m;
    }
  }

  lemma {:induction false} TailRead(t: string, c: Cmd<Slice>, b: nat, i: nat, x: Syntax) returns (s: Syntax, j: nat)
    requires IsLine(t) && i <= |t| && LineTail(t, c, i).Ok?
    requires Good(x) && IsBack(x) && Spelled(t, b, i, Lexemes(x)) && Text(t, c) == Tree(x)
    ensures Good(s) && b <= j <= |t| && Spelled(t, b, j, Lexemes(s)) && LineTail(t, c, i).pos == Skip(t, j)
    ensures Text(t, LineTail(t, c, i).cmd) == Tree(s)
    decreases |t| - i, 3
  {
    hide IsLine, IsWord, Skip, Spelled, GetToken, Peek, ParseLine, Good, IsBack, Lexemes, Tree, Text;
    SpelledIn(t, b, i, Lexemes(x));
    BackedIs(t, c, x);
    PeekIs(t, i, "&");
    PeekIs(t, i, ";");
    TokenSkips(t, i);
    if Peek(t, i, "&") {
      var k := SymbolRead(t, i, "&");
      TailSkips(t, Back(c), k);
      SpelledJoin(t, b, i, k, Lexemes(x), ["&"]);
      s, j := TailRead(t, Back(c), b, k, Backed(x));
    } else if Peek(t, i, ";") {
      var k := SymbolRead(t, i, ";");
      LineSkips(t, k);
      var r;
      r, j := LineRead(t, k);
      s := Listed(x, r);
      ListedIs(t, c, ParseLine(t, k).cmd, x, r);
      SpelledJoin(t, i, k, j, [";"], Lexemes(r));
      SpelledJoin(t, b, i, j, Lexemes(x), [";"] + Lexemes(r));
    } else {
      s, j := x, i;
    }
  }

  lemma BackedIs(t: string, c: Cmd<Slice>, x: Syntax)
    requires Good(x) && IsBack(x)
    ensures Good(Backed(x)) && IsBack(Backed(x)) && Lexemes(Backed(x)) == Lexemes(x) + ["&"]
    ensures Tree(Backed(x)) == Back(Tree(x)) && Text(t, Back(c)) == Back(Text(t, c))
  {
  }

  lemma ListedIs(t: string, c: Cmd<Slice>, d: Cmd<Slice>, x: Syntax, r: Syntax)
    requires Good(x) && IsBack(x) && Good(r)
    ensures Good(Listed(x, r)) && Lexemes(Listed(x, r)) == Lexemes(x) + ([";"] + Lexemes(r))
    ensures Tree(Listed(x, r)) == List(Tree(x), Tree(r)) && Text(t, List(c, d)) == List(Text(t, c), Text(t, d))
  {
  }

  lemma SpelledIn(t: string, i: nat, j: nat, ls: seq<string>)
    requires Spelled(t, i, j, ls)
    ensures i <= j <= |t|
  {
  }

  lemma {:induction false} LineRead(t: string, i: nat) returns (s: Syntax, j: nat)
    requires IsLine(t) && i <= |t| && ParseLine(t, i).Ok?
    ensures Good(s) && i <= j <= |t| && Spelled(t, i, j, Lexemes(s)) && ParseLine(t, i).pos == Skip(t, j)
    ensures Text(t, ParseLine(t, i).cmd) == Tree(s)
    decreases |t| - i, 4
  {
    hide IsLine, IsWord, Skip, Spelled, ParsePipe, LineTail;
    var x, m := PipeRead(t, i);
    var c := ParsePipe(t, i).cmd;
    TailSkips(t, c, m);
    s, j := TailRead(t, c, i, m, x);
  }

  /** Whatever line the parser accepts is a spelling of the command that it makes of it. */
  lemma IsSpelling(t: string) returns (s: Syntax, gaps: seq<string>, last: string)
    requires IsLine(t) && ParseCmd(t).Ok?
    ensures Spells(t, s, gaps, last) && Tree(s) == Text(t, ParseCmd(t).cmd)
  {
    hide IsLine, Skip, Spelled, ParseLine, White, Good, Tree, Lexemes, Text;
    var j;
    s, j := LineRead(t, 0);
    SkipTwice(t, j);
    gaps := SpelledLaid(t, 0, j, Lexemes(s), false);
    last := t[j..];
    SkipsWhite(t, j);
    assert t[j..Skip(t, j)] == last;
    assert t == t[0..j] + last;
  }

  /** The parser accepts a line if and only if it is a spelling of some command. */
  lemma AcceptsExactly(t: string)
    requires IsLine(t)
    ensures ParseCmd(t).Ok? <==> exists s, gaps, last :: Spells(t, s, gaps, last)
  {
    hide Spells, ParseCmd;
    if ParseCmd(t).Ok? {
      var s, gaps, last := IsSpelling(t);
    } else if s, gaps, last :| Spells(t, s, gaps, last) {
      Parses(t, s, gaps, last);
    }
  }

  lemma SpellsLonger(t: string, s: Syntax, gaps: seq<string>, last: string, g: string)
    requires Spells(t, s, gaps, last) && White(g)
    ensures Spells(t + g, s, gaps, last + g)
  {
    hide Good, Lexemes, Laid;
    assert Laid(Lexemes(s), gaps) + last + g == Laid(Lexemes(s), gaps) + (last + g);
  }

  /** A line does not spell two commands. */
  lemma OneMeaning(t: string, s: Syntax, gaps: seq<string>, last: string, r: Syntax, holes: seq<string>, rest: string)
    requires Spells(t, s, gaps, last) && Spells(t, r, holes, rest)
    ensures Tree(s) == Tree(r)
  {
    hide Spells;
    Parses(t, s, gaps, last);
    Parses(t, r, holes, rest);
  }
}
