/** The parser of sh.c as it runs: a cursor over the line, advanced token by token, and the
    pass that terminates the words in place. */
module Sh {
  import opened ShParse
  import opened ShPlaces

  class Line {
    const buf: array<char>
    const es: nat
    var ps: nat

    constructor (line: array<char>, end: nat)
      requires end < line.Length && line[end] == '\0' && IsLine(line[..end])
      ensures buf == line && es == end && ps == 0 && Valid()
    {
      buf, es, ps := line, end, 0;
    }

    /** The line up to its NUL. */
    function Chars(): string
      reads this, buf
      requires es < buf.Length
    {
      buf[..es]
    }

    ghost predicate Valid()
      reads this, buf
    {
      es < buf.Length && buf[es] == '\0' && IsLine(Chars()) && ps <= es
    }

    lemma At(s: nat)
      requires Valid() && s <= es
      ensures buf[s] == CharAt(Chars(), s) && (buf[s] == '\0' <==> s == es)
    {
    }

    /** gettoken, with the token's place. */
    method NextToken() returns (kind: char, q: nat, eq: nat)
      requires Valid()
      modifies this`ps
      ensures Valid() && Token(kind, q, eq, ps) == GetToken(Chars(), old(ps))
    {
      hide IsLine, IsSpace, IsSymbol, Skip, WordEnd;
      ghost var t := Chars();
      SkipSpaces();
      q := ps;
      var s := q;
      At(s);
      kind := buf[s];
      if buf[s] == '\0' {
      } else if buf[s] in "|();&<" {
        s := s + 1;
      } else if buf[s] == '>' {
        s := s + 1;
        At(s);
        if buf[s] == '>' {
          kind := '+';
          s := s + 1;
        }
      } else {
        kind := 'a';
        while s < es && !IsSpace(buf[s]) && !IsSymbol(buf[s])
          invariant q <= s <= es && WordEnd(t, s) == WordEnd(t, q)
        {
          WordOn(t, s);
          s := s + 1;
        }
        WordOn(t, s);
      }
      assert s == TokenEnd(t, q) && kind == Kind(t, q);
      eq := s;
      ps := s;
      SkipSpaces();
    }

    /** The loops of gettoken and peek over white space. */
    method SkipSpaces()
      requires Valid()
      modifies this`ps
      ensures Valid() && ps == Skip(Chars(), old(ps))
    {
      hide IsLine, IsSpace;
      ghost var from := ps;
      while ps < es && IsSpace(buf[ps])
        invariant from <= ps <= es && Skip(Chars(), ps) == Skip(Chars(), from)
      {
        ps := ps + 1;
      }
    }

    /** peek. */
    method Looks(toks: string) returns (b: bool)
      requires Valid()
      modifies this`ps
      ensures Valid() && ps == Skip(Chars(), old(ps)) && b == Peek(Chars(), old(ps), toks)
    {
      SkipSpaces();
      At(ps);
      b := buf[ps] != '\0' && buf[ps] in toks;
    }

    method Redirs(cmd: Cmd<Slice>) returns (r: Parsed)
      requires Valid()
      modifies this`ps
      ensures Valid() && r == ParseRedirs(Chars(), cmd, old(ps)) && (r.Ok? ==> ps == r.pos) && ps >= old(ps)
    {
      hide IsLine, GetToken, Peek, Skip;
      ghost var t := Chars();
      var c := cmd;
      while true
        invariant Valid() && Chars() == t && ParseRedirs(t, cmd, old(ps)) == ParseRedirs(t, c, ps) && ps >= old(ps)
        decreases es - ps
      {
        PeekMoves(t, ps, "<>");
        var more := Looks("<>");
        if !more {
          break;
        }
        var tok, _, _ := NextToken();
        var kind, q, eq := NextToken();
        if kind != 'a' {
          return Panic("missing file for redirection");
        }
        c := Redir(c, Slice(q, eq), OpOf(tok));
      }
      r := Ok(c, ps);
    }

    method Block() returns (r: Parsed)
      requires Valid()
      modifies this`ps
      ensures Valid() && r == ParseBlock(Chars(), old(ps)) && (r.Ok? ==> ps == r.pos)
      decreases es - ps, 0
    {
      hide IsLine, GetToken, Peek, Skip, ParseRedirs, ParseLine;
      ghost var t := Chars();
      PeekMoves(t, ps, "(");
      var open := Looks("(");
      if !open {
        return Panic("parseblock");
      }
      var _, _, _ := NextToken();
      r := Commands();
      if r.Panic? {
        return;
      }
      var cmd := r.cmd;
      var close := Looks(")");
      if !close {
        return Panic("syntax - missing )");
      }
      var _, _, _ := NextToken();
      r := Redirs(cmd);
    }

    /** parseexec; the arguments go into the exec node, whatever redirections wrap it. */
    method Simple() returns (r: Parsed)
      requires Valid()
      modifies this`ps
      ensures Valid() && r == ParseExec(Chars(), old(ps)) && (r.Ok? ==> ps == r.pos)
      decreases es - ps, 1
    {
      hide IsLine, GetToken, Peek, Skip, ParseRedirs, ParseBlock, AddArg;
      ghost var t := Chars();
      var block := Looks("(");
      if block {
        r := Block();
        return;
      }
      var argc := 0;
      r := Redirs(Exec([]));
      while true
        invariant Valid() && Chars() == t && argc < MAXARGS && (r.Ok? ==> ps == r.pos)
        invariant ParseExec(t, old(ps)) == match r case Panic(m) => Panic(m) case Ok(c, j) => ParseArgs(t, c, argc, j)
        decreases es - ps, r.Ok?
      {
        if r.Panic? {
          return;
        }
        var cmd := r.cmd;
        var end := Looks("|)&;");
        if end {
          break;
        }
        WordMovesOn(t, ps);
        var tok, q, eq := NextToken();
        if tok == '\0' {
          break;
        }
        if tok != 'a' {
          return Panic("syntax");
        }
        cmd := AddArg(cmd, Slice(q, eq));
        argc := argc + 1;
        if argc >= MAXARGS {
          return Panic("too many args");
        }
        r := Redirs(cmd);
      }
      r := Ok(r.cmd, ps);
    }

    /** parsepipe. */
    method Pipeline() returns (r: Parsed)
      requires Valid()
      modifies this`ps
      ensures Valid() && r == ParsePipe(Chars(), old(ps)) && (r.Ok? ==> ps == r.pos)
      decreases es - ps, 2
    {
      hide IsLine, GetToken, Peek, Skip, ParseExec;
      ghost var t := Chars();
      r := Simple();
      if r.Panic? {
        return;
      }
      var cmd := r.cmd;
      PeekMoves(t, ps, "|");
      var more := Looks("|");
      if more {
        var _, _, _ := NextToken();
        r := Pipeline();
        if r.Ok? {
          r := Ok(Pipe(cmd, r.cmd), ps);
        }
      } else {
        r := Ok(cmd, ps);
      }
    }

    /** parseline. */
    method Commands() returns (r: Parsed)
      requires Valid()
      modifies this`ps
      ensures Valid() && r == ParseLine(Chars(), old(ps)) && (r.Ok? ==> ps == r.pos)
      decreases es - ps, 3
    {
      hide IsLine, GetToken, Peek, Skip, ParsePipe;
      ghost var t := Chars();
      r := Pipeline();
      if r.Panic? {
        return;
      }
      var cmd := r.cmd;
      while true
        invariant Valid() && Chars() == t && old(ps) <= ps && ParseLine(t, old(ps)) == LineTail(t, cmd, ps)
        decreases es - ps
      {
        PeekMoves(t, ps, "&");
        PeekAgain(t, ps, "&");
        var back := Looks("&");
        if !back {
          break;
        }
        var _, _, _ := NextToken();
        cmd := Back(cmd);
      }
      PeekMoves(t, ps, ";");
      var more := Looks(";");
      if more {
        var _, _, _ := NextToken();
        r := Commands();
        if r.Ok? {
          r := Ok(List(cmd, r.cmd), ps);
        }
      } else {
        r := Ok(cmd, ps);
      }
    }

    /** nulterminate: the character behind each word becomes NUL, and no other changes. */
    method Terminate(c: Cmd<Slice>)
      requires forall w :: w in Slices(c) ==> w.eq < buf.Length
      modifies buf
      ensures forall k :: 0 <= k < buf.Length ==> buf[k] == if Ends(c, k) then '\0' else old(buf[k])
      decreases c
    {
      match c
      case Exec(argv) =>
        var i := 0;
        while i < |argv|
          invariant 0 <= i <= |argv|
          invariant forall k :: 0 <= k < buf.Length ==>
                      buf[k] == if exists m :: 0 <= m < i && argv[m].eq == k then '\0' else old(buf[k])
        {
          assert argv[i] in Slices(c);
          buf[argv[i].eq] := '\0';
          i := i + 1;
        }
        EndsOfExec(c);
      case Redir(x, f, op) =>
        Terminate(x);
        buf[f.eq] := '\0';
        EndsOfRedir(c);
      case Pipe(l, r) =>
        Terminate(l);
        Terminate(r);
        EndsOfTwo(c, l, r);
      case List(l, r) =>
        Terminate(l);
        Terminate(r);
        EndsOfTwo(c, l, r);
      case Back(x) => Terminate(x);
    }

    /** parsecmd: either the panic of the first error, or the command, and then every word of
        it stands in the buffer as it did, with a NUL behind it. */
    method Parse() returns (r: Parsed)
      requires Valid() && ps == 0
      modifies this`ps, buf
      ensures r == ParseCmd(old(Chars()))
      ensures r.Panic? ==> buf[..] == old(buf[..])
      ensures r.Ok? ==>
                forall w :: w in Slices(r.cmd) ==>
                  StringAt(buf[..], w.q, WordAt(old(Chars()), w)) && IsWord(WordAt(old(Chars()), w))
    {
      hide IsLine, ParseLine;
      ghost var t := Chars();
      r := Commands();
      if r.Panic? {
        return;
      }
      var cmd := r.cmd;
      var _ := Looks("");
      if ps != es {
        return Panic("syntax");
      }
      LineOk(t, 0);
      AllInside(t, cmd);
      Terminate(cmd);
      Terminated(t, buf[..], cmd);
      r := Ok(cmd, ps);
    }
  }

  lemma WordOn(t: string, s: nat)
    requires s <= |t|
    ensures WordEnd(t, s) == if s < |t| && !IsSpace(t[s]) && !IsSymbol(t[s]) then WordEnd(t, s + 1) else s
  {
  }

  lemma PeekMoves(t: string, i: nat, toks: string)
    requires i <= |t|
    ensures Peek(t, i, toks) ==> GetToken(t, Skip(t, i)).next > i
    ensures Skip(t, Skip(t, i)) == Skip(t, i)
  {
    if Peek(t, i, toks) {
      TokenMoves(t, Skip(t, i));
    }
  }

  /** Skipping first changes no answer of peek. */
  lemma PeekAgain(t: string, i: nat, toks: string)
    requires i <= |t|
    ensures forall more :: Peek(t, Skip(t, i), more) == Peek(t, i, more)
    ensures Skip(t, Skip(t, i)) == Skip(t, i)
  {
  }

  lemma WordMovesOn(t: string, i: nat)
    requires i <= |t|
    ensures GetToken(t, i).kind == 'a' ==> GetToken(t, i).next > i
  {
    if GetToken(t, i).kind == 'a' {
      WordMoves(t, i);
    }
  }

  // ----- words in the terminated buffer

  /** Position k is behind a word of the command. */
  predicate Ends(c: Cmd<Slice>, k: int) {
    exists w :: w in Slices(c) && w.eq == k
  }

  lemma EndsOfExec(c: Cmd<Slice>)
    requires c.Exec?
    ensures forall k :: Ends(c, k) <==> exists m :: 0 <= m < |c.argv| && c.argv[m].eq == k
  {
    forall k
      ensures Ends(c, k) <==> exists m :: 0 <= m < |c.argv| && c.argv[m].eq == k
    {
      if m :| 0 <= m < |c.argv| && c.argv[m].eq == k {
        assert c.argv[m] in Slices(c);
      }
    }
  }

  lemma EndsOfRedir(c: Cmd<Slice>)
    requires c.Redir?
    ensures forall k :: Ends(c, k) <==> Ends(c.cmd, k) || c.file.eq == k
  {
    forall k
      ensures Ends(c, k) <==> Ends(c.cmd, k) || c.file.eq == k
    {
      assert c.file in Slices(c);
    }
  }

  lemma EndsOfTwo(c: Cmd<Slice>, l: Cmd<Slice>, r: Cmd<Slice>)
    requires c == Pipe(l, r) || c == List(l, r)
    ensures forall k :: Ends(c, k) <==> Ends(l, k) || Ends(r, k)
  {
    assert Slices(c) == Slices(l) + Slices(r);
  }

  lemma AllInside(t: string, c: Cmd<Slice>)
    requires PlacesOk(t, c)
    ensures forall w :: w in Slices(c) ==> w.eq <= |t|
  {
    forall w | w in Slices(c)
      ensures w.eq <= |t|
    {
      SlicesOk(t, c, w);
    }
  }

  /** A string of C: its characters, none of them NUL, and a NUL. */
  predicate StringAt(mem: string, q: nat, s: string) {
    && q + |s| < |mem| && mem[q..q + |s|] == s && mem[q + |s|] == '\0'
    && forall k :: 0 <= k < |s| ==> s[k] != '\0'
  }

  lemma Terminated(t: string, mem: string, c: Cmd<Slice>)
    requires PlacesOk(t, c) && |mem| > |t|
    requires forall k :: 0 <= k < |t| ==> mem[k] == if Ends(c, k) then '\0' else t[k]
    requires mem[|t|] == '\0'
    ensures forall w :: w in Slices(c) ==> StringAt(mem, w.q, WordAt(t, w)) && IsWord(WordAt(t, w))
  {
    hide PlacesOk, StringAt, Ends, WordAt, IsWord;
    forall w | w in Slices(c)
      ensures StringAt(mem, w.q, WordAt(t, w)) && IsWord(WordAt(t, w))
    {
      SlicesOk(t, c, w);
      EndsElsewhere(t, c, w);
      WordStands(t, mem, w);
    }
  }

  /** The ends of words are in no word, but behind each. */
  lemma EndsElsewhere(t: string, c: Cmd<Slice>, w: Slice)
    requires PlacesOk(t, c) && w in Slices(c)
    ensures forall k :: w.q <= k < w.eq ==> !Ends(c, k)
    ensures Ends(c, w.eq)
  {
    hide PlacesOk;
    forall v | v in Slices(c)
      ensures v.eq < w.q || w.eq <= v.eq
    {
      EndsOutside(t, c, v, w);
    }
  }

  lemma WordStands(t: string, mem: string, w: Slice)
    requires SliceOk(t, w) && |mem| > |t| && mem[w.eq] == '\0'
    requires forall k :: w.q <= k < w.eq ==> mem[k] == t[k]
    ensures StringAt(mem, w.q, WordAt(t, w)) && IsWord(WordAt(t, w))
  {
    var s := WordAt(t, w);
    assert mem[w.q..w.q + |s|] == s;
    assert forall k :: 0 <= k < |s| ==> IsWordChar(s[k]);
  }
}
