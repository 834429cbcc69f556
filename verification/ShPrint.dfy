/** A printing of the shell's command trees, with parentheses where the grammar needs them, and
    the proof that parsing the printing, whatever white space it is laid out with, gives the
    tree back. */
module ShPrint {
  import opened ShParse
  import opened ShPlaces
  import opened ShGrammar

  /** Trees whose words are words and whose argument lists fit. */
  predicate Printable(c: Cmd<string>) {
    match c
    case Exec(argv) => |argv| < 10 && forall i :: 0 <= i < |argv| ==> IsWord(argv[i])
    case Redir(x, f, op) => Printable(x) && IsWord(f)
    case Pipe(l, r) => Printable(l) && Printable(r)
    case List(l, r) => Printable(l) && Printable(r)
    case Back(x) => Printable(x)
  }

  function Arguments(argv: seq<string>): (items: seq<Item>)
    ensures |items| == |argv|
  {
    seq(|argv|, i requires 0 <= i < |argv| => Arg(argv[i]))
  }

  function ExecSyntax(c: Cmd<string>): Syntax
    decreases c, 0
  {
    match c
    case Exec(argv) => Simple(Arguments(argv))
    case Redir(x, f, op) => OneMore(ExecSyntax(x), To(op, f))
    case Pipe(l, r) => Block(Piped(ExecSyntax(l), PipeSyntax(r)), [])
    case List(l, r) => Block(Listed(BackSyntax(l), LineSyntax(r)), [])
    case Back(x) => Block(Backed(BackSyntax(x)), [])
  }

  function OneMore(s: Syntax, it: Item): Syntax {
    match s
    case Simple(items) => Simple(items + [it])
    case Block(l, rs) => Block(l, rs + [it])
    case _ => s
  }

  function PipeSyntax(c: Cmd<string>): Syntax
    decreases c, 1
  {
    match c
    case Pipe(l, r) => Piped(ExecSyntax(l), PipeSyntax(r))
    case _ => ExecSyntax(c)
  }

  function BackSyntax(c: Cmd<string>): Syntax
    decreases c, 2
  {
    match c
    case Back(x) => Backed(BackSyntax(x))
    case _ => PipeSyntax(c)
  }

  function LineSyntax(c: Cmd<string>): Syntax
    decreases c, 3
  {
    match c
    case List(l, r) => Listed(BackSyntax(l), LineSyntax(r))
    case _ => BackSyntax(c)
  }

  // ----- the printing stands for the tree

  lemma {:induction false} ArgumentsAre(argv: seq<string>)
    ensures Args(Arguments(argv)) == argv
    ensures forall c :: Wrapped(c, Arguments(argv)) == c
    decreases |argv|
  {
    if argv != [] {
      assert Arguments(argv)[1..] == Arguments(argv[1..]);
      ArgumentsAre(argv[1..]);
    }
  }

  lemma {:induction false} ExecPrints(c: Cmd<string>)
    requires Printable(c)
    ensures Good(ExecSyntax(c)) && IsExec(ExecSyntax(c)) && Tree(ExecSyntax(c)) == c
    decreases c, 0
  {
    hide IsWord;
    match c
    case Exec(argv) => ArgumentsAre(argv);
    case Redir(x, f, op) =>
      ExecPrints(x);
      OneMoreRedir(ExecSyntax(x), To(op, f));
    case Pipe(l, r) => PipePrints(c);
    case List(l, r) => LinePrints(c);
    case Back(x) => BackPrints(c);
  }

  lemma OneMoreRedir(s: Syntax, it: Item)
    requires Good(s) && IsExec(s) && it.To? && IsWord(it.file)
    ensures Good(OneMore(s, it)) && IsExec(OneMore(s, it)) && Tree(OneMore(s, it)) == Redir(Tree(s), it.file, it.op)
  {
    hide IsWord;
    if s.Simple? {
      ItemsMore(s.items, [it]);
      WrappedNext(Exec(Args(s.items)), s.items, it);
      assert Args(s.items) + [] == Args(s.items);
    } else {
      WrappedNext(Tree(s.line), s.redirs, it);
    }
  }

  lemma {:induction false} PipePrints(c: Cmd<string>)
    requires Printable(c)
    ensures Good(PipeSyntax(c)) && IsPipe(PipeSyntax(c)) && Tree(PipeSyntax(c)) == c
    decreases c, if c.Pipe? then -1 else 1
  {
    hide IsWord;
    if c.Pipe? {
      ExecPrints(c.left);
      PipePrints(c.right);
    } else {
      ExecPrints(c);
    }
  }

  lemma {:induction false} BackPrints(c: Cmd<string>)
    requires Printable(c)
    ensures Good(BackSyntax(c)) && IsBack(BackSyntax(c)) && Tree(BackSyntax(c)) == c
    decreases c, if c.Back? then -1 else 2
  {
    hide IsWord;
    if c.Back? {
      BackPrints(c.cmd);
    } else {
      PipePrints(c);
    }
  }

  lemma {:induction false} LinePrints(c: Cmd<string>)
    requires Printable(c)
    ensures Good(LineSyntax(c)) && Tree(LineSyntax(c)) == c
    decreases c, if c.List? then -1 else 3
  {
    hide IsWord;
    if c.List? {
      BackPrints(c.left);
      LinePrints(c.right);
    } else {
      BackPrints(c);
    }
  }

  // ----- the round trip

  /** A layout of the printing of x. */
  ghost predicate Prints(t: string, x: Cmd<string>, gaps: seq<string>, last: string) {
    var ls := Lexemes(LineSyntax(x));
    Gaps(ls, gaps, false) && White(last) && t == Laid(ls, gaps) + last
  }

  /** Parsing the printing of a command, with any white space in it, gives the command back. */
  lemma RoundTrip(x: Cmd<string>, t: string, gaps: seq<string>, last: string)
    requires Printable(x) && Prints(t, x, gaps, last)
    ensures ParseCmd(t).Ok? && Text(t, ParseCmd(t).cmd) == x
  {
    hide ParseCmd;
    LinePrints(x);
    Parses(t, LineSyntax(x), gaps, last);
  }

  /** A line is a printing of one command only. */
  lemma PrintsDiffer(x: Cmd<string>, y: Cmd<string>, t: string, gaps: seq<string>, last: string, holes: seq<string>,
                     rest: string)
    requires Printable(x) && Printable(y) && Prints(t, x, gaps, last) && Prints(t, y, holes, rest)
    ensures x == y
  {
    hide Prints;
    RoundTrip(x, t, gaps, last);
    RoundTrip(y, t, holes, rest);
  }

  lemma {:induction false} BlankGaps(ls: seq<string>, w: bool)
    ensures Gaps(ls, seq(|ls|, _ => " "), w)
    decreases |ls|
  {
    hide IsWord;
    if ls != [] {
      assert seq(|ls|, _ => " ")[1..] == seq(|ls[1..]|, _ => " ");
      BlankGaps(ls[1..], IsWord(ls[0]));
    }
  }

  lemma {:induction false} TextPrintable(t: string, c: Cmd<Slice>)
    requires PlacesOk(t, c)
    ensures Printable(Text(t, c))
  {
    match c
    case Exec(argv) =>
    case Redir(x, f, op) => TextPrintable(t, x);
    case Pipe(l, r) =>
      TextPrintable(t, l);
      TextPrintable(t, r);
    case List(l, r) =>
      TextPrintable(t, l);
      TextPrintable(t, r);
    case Back(x) => TextPrintable(t, x);
  }

  /** Whatever a line parses to can be printed, with a blank in front of every word and symbol
      for one, and every line that prints it parses to the same. */
  lemma NormalForm(t: string)
    requires IsLine(t) && ParseCmd(t).Ok?
    ensures var x := Text(t, ParseCmd(t).cmd);
            && Printable(x) && (exists u, gaps, last :: Prints(u, x, gaps, last))
            && forall u, gaps, last :: Prints(u, x, gaps, last) ==> ParseCmd(u).Ok? && Text(u, ParseCmd(u).cmd) == x
  {
    var x := Text(t, ParseCmd(t).cmd);
    LineOk(t, 0);
    TextPrintable(t, ParseCmd(t).cmd);
    hide ParseCmd, Text, Printable;
    var ls := Lexemes(LineSyntax(x));
    BlankGaps(ls, false);
    assert Prints(Laid(ls, seq(|ls|, _ => " ")) + "", x, seq(|ls|, _ => " "), "");
    forall u, gaps, last | Prints(u, x, gaps, last)
      ensures ParseCmd(u).Ok? && Text(u, ParseCmd(u).cmd) == x
    {
      RoundTrip(x, u, gaps, last);
    }
  }

  /** White space behind a line, such as the newline that gets leaves there, changes nothing. */
  lemma WhiteBehind(t: string, g: string)
    requires IsLine(t) && ParseCmd(t).Ok? && White(g)
    ensures ParseCmd(t + g).Ok? && Text(t + g, ParseCmd(t + g).cmd) == Text(t, ParseCmd(t).cmd)
  {
    hide ParseCmd, Text, Spells;
    var s, gaps, last := IsSpelling(t);
    SpellsLonger(t, s, gaps, last, g);
    Parses(t + g, s, gaps, last + g);
  }
}
