/** The shell's parser: recursive descent over the characters of a line, then cutting its words out in place. */
module Shell {
  import opened ShellGrammar

  /** A word in the line: its first position, and the one behind it. */
  datatype Span = Span(from: nat, to: nat)

  /** A whole word of the line. */
  predicate Placed(line: string, sp: Span) {
    && sp.from < sp.to <= |line|
    && (forall k :: sp.from <= k < sp.to ==> Plain(line[k]))
    && (sp.to < |line| ==> !Plain(line[sp.to]))
  }

  predicate InLine(line: string, c: Cmd<Span>) {
    match c
    case Exec(args) => forall k :: 0 <= k < |args| ==> Placed(line, args[k])
    case Redir(d, file, _) => InLine(line, d) && Placed(line, file)
    case Pipe(l, r) => InLine(line, l) && InLine(line, r)
    case List(l, r) => InLine(line, l) && InLine(line, r)
    case Back(d) => InLine(line, d)
  }

  /** The command with its words spelt out. */
  function View(line: string, c: Cmd<Span>): Tree
    requires InLine(line, c)
  {
    match c
    case Exec(args) => Exec(seq(|args|, k requires 0 <= k < |args| => line[args[k].from..args[k].to]))
    case Redir(d, file, out) => Redir(View(line, d), line[file.from..file.to], out)
    case Pipe(l, r) => Pipe(View(line, l), View(line, r))
    case List(l, r) => List(View(line, l), View(line, r))
    case Back(d) => Back(View(line, d))
  }

  lemma {:induction false} ViewAddArg(line: string, c: Cmd<Span>, sp: Span)
    requires InLine(line, c) && Placed(line, sp)
    ensures InLine(line, AddArg(c, sp)) && View(line, AddArg(c, sp)) == AddArg(View(line, c), line[sp.from..sp.to])
  {
    if c.Redir? {
      ViewAddArg(line, c.cmd, sp);
    }
  }

  lemma {:induction false} ViewArgCount(line: string, c: Cmd<Span>)
    requires InLine(line, c)
    ensures ArgCount(View(line, c)) == ArgCount(c) && OfWords(View(line, c)) == OfWords(c)
  {
    if c.Redir? {
      ViewArgCount(line, c.cmd);
    }
  }

  class Parser {
    const line: string
    /** *ps */
    var s: nat

    predicate Valid()
      reads this
    {
      s <= |line|
    }

    /** The tokens still to come. */
    function Rest(): seq<Token>
      requires Valid()
      reads this
    {
      Tokens(line[s..])
    }

    /** c is what the grammar makes of the tokens that came before. */
    ghost predicate Made(p: Parsed, c: Cmd<Span>, ok: bool)
      requires Valid()
      reads this
    {
      && (ok <==> p.Ok?)
      && (ok ==> InLine(line, c) && View(line, c) == p.tree && Rest() == p.rest)
    }

    constructor (line: string)
      ensures Valid() && this.line == line && s == 0
    {
      this.line, s := line, 0;
    }

    method SkipBlanks()
      requires Valid()
      modifies this
      ensures Valid() && s >= old(s) && Rest() == old(Rest())
      ensures s < |line| ==> !Blank(line[s])
    {
      while s < |line| && Blank(line[s])
        invariant s <= |line| && s >= old(s) && Rest() == old(Rest())
      {
        assert line[s..][1..] == line[s + 1..];
        s := s + 1;
      }
    }

    /** Walk over a word. */
    method ScanWord() returns (word: Span)
      requires Valid() && s < |line| && Plain(line[s])
      modifies this
      ensures Valid() && word == Span(old(s), s) && Placed(line, word)
      ensures s == old(s) + WordLength(line[old(s)..])
    {
      var from := s;
      while s < |line| && Plain(line[s])
        invariant from <= s <= |line|
        invariant forall k :: from <= k < s ==> Plain(line[k])
      {
        s := s + 1;
      }
      word := Span(from, s);
      ghost var here := line[from..];
      assert forall k :: 0 <= k < s - from ==> here[k] == line[from + k];
      assert s < |line| ==> here[s - from] == line[s];
    }

    /** The next token: its symbol, + for >>, a for a word, NUL at the end. */
    method GetToken() returns (tok: char, word: Span)
      requires Valid()
      modifies this
      ensures Valid() && s >= old(s)
      ensures old(Rest()) == [] ==> tok == '\0' && Rest() == []
      ensures old(Rest()) != [] ==> s > old(s) && Rest() == old(Rest())[1..]
      ensures old(Rest()) != [] ==> match old(Rest())[0]
              case Sym(c) => tok == c && Symbol(c)
              case Append => tok == '+'
              case Word(w) => tok == 'a' && Placed(line, word) && line[word.from..word.to] == w
    {
      hide Tokens, WordLength;
      SkipBlanks();
      word := Span(s, s);
      ghost var here, start := line[s..], s;
      NextToken(here);
      if s == |line| {
        return '\0', word;
      }
      if line[s] == '>' {
        tok, s := '>', s + 1;
        if s < |line| && line[s] == '>' {
          tok, s := '+', s + 1;
        }
      } else if Symbol(line[s]) {
        tok, s := line[s], s + 1;
      } else {
        tok := 'a';
        word := ScanWord();
      }
      assert s == start + First(here).1 && here[s - start..] == line[s..];
      SkipBlanks();
    }

    /** Is the next token one of these symbols? */
    method Peek(symbols: string) returns (found: bool)
      requires Valid() && forall k :: 0 <= k < |symbols| ==> Symbol(symbols[k])
      modifies this
      ensures Valid() && s >= old(s) && Rest() == old(Rest())
      ensures found <==> Next(Rest(), symbols)
      ensures s == |line| <==> Rest() == []
    {
      SkipBlanks();
      found := s < |line| && line[s] in symbols;
    }

    /** A line: a pipeline, perhaps in the background, and what follows a semicolon. Not ok where the source panics. */
    method ParseLine() returns (c: Cmd<Span>, ok: bool)
      requires Valid()
      modifies this
      ensures Valid() && s >= old(s) && Made(Line(old(Rest())), c, ok)
      decreases |line| - s, 3
    {
      hide Tokens, Pipeline, Placed;
      c, ok := ParsePipe();
      if !ok {
        return;
      }
      ghost var b := Backs(View(line, c), Rest());
      var more := Peek("&");
      while more
        invariant Valid() && s >= old(s) && InLine(line, c) && Backs(View(line, c), Rest()) == b
        invariant more <==> Next(Rest(), "&")
        decreases |line| - s
      {
        var _, _ := GetToken();
        c := Back(c);
        more := Peek("&");
      }
      more := Peek(";");
      if more {
        var _, _ := GetToken();
        var r;
        r, ok := ParseLine();
        c := if ok then List(c, r) else c;
      }
    }

    method ParsePipe() returns (c: Cmd<Span>, ok: bool)
      requires Valid()
      modifies this
      ensures Valid() && s >= old(s) && Made(Pipeline(old(Rest())), c, ok)
      decreases |line| - s, 2
    {
      hide Tokens, Simple, Placed;
      c, ok := ParseExec();
      if !ok {
        return;
      }
      var more := Peek("|");
      if more {
        var _, _ := GetToken();
        var r;
        r, ok := ParsePipe();
        c := if ok then Pipe(c, r) else c;
      }
    }

    method ParseRedirs(c0: Cmd<Span>) returns (c: Cmd<Span>, ok: bool)
      requires Valid() && InLine(line, c0)
      modifies this
      ensures Valid() && s >= old(s) && Made(Redirs(View(line, c0), old(Rest())), c, ok)
    {
      hide Tokens;
      c := c0;
      ghost var p := Redirs(View(line, c), Rest());
      var more := Peek("<>");
      while more
        invariant Valid() && s >= old(s) && InLine(line, c) && Redirs(View(line, c), Rest()) == p
        invariant more <==> Next(Rest(), "<>")
        decreases |line| - s
      {
        var tok, _ := GetToken();
        var a, file := GetToken();
        if a != 'a' {
          return c, false;
        }
        c := Redir(c, file, tok != '<');
        more := Peek("<>");
      }
      ok := true;
    }

    method ParseBlock() returns (c: Cmd<Span>, ok: bool)
      requires Valid() && Next(Rest(), "(")
      modifies this
      ensures Valid() && s > old(s) && Made(Simple(old(Rest())), c, ok)
      decreases |line| - s, 0
    {
      hide Tokens;
      var _, _ := GetToken();
      c, ok := ParseLine();
      if !ok {
        return;
      }
      var closed := Peek(")");
      if !closed {
        return c, false;
      }
      var _, _ := GetToken();
      c, ok := ParseRedirs(c);
    }

    method ParseExec() returns (c: Cmd<Span>, ok: bool)
      requires Valid()
      modifies this
      ensures Valid() && s >= old(s) && Made(Simple(old(Rest())), c, ok)
      decreases |line| - s, 1
    {
      hide Tokens, Line, Redirs, Placed;
      var block := Peek("(");
      if block {
        c, ok := ParseBlock();
        return;
      }
      c := Exec([]);
      var argc := 0;
      assert View(line, c) == Exec([]);
      c, ok := ParseRedirs(c);
      if !ok {
        return;
      }
      ViewArgCount(line, c);
      var stop := Peek("|)&;");
      ghost var p := Args(View(line, c), Rest());
      while !stop
        invariant Valid() && s >= old(s) && InLine(line, c) && Args(View(line, c), Rest()) == p
        invariant stop <==> Next(Rest(), "|)&;")
        invariant argc == ArgCount(c) && OfWords(c)
        decreases |line| - s
      {
        var tok, word := GetToken();
        if tok == '\0' {
          break;
        }
        if tok != 'a' {
          return c, false;
        }
        ViewAddArg(line, c, word);
        ViewArgCount(line, c);
        AddArgCount(c, word);
        c := AddArg(c, word);
        ViewArgCount(line, c);
        argc := argc + 1;
        if argc >= MAXARGS {
          return c, false;
        }
        c, ok := ParseRedirs(c);
        if !ok {
          return;
        }
        ViewArgCount(line, c);
        stop := Peek("|)&;");
      }
    }
  }

  // ---------------------------------------------------------------- cutting the words out

  /** Position k is just behind a word of the command. */
  predicate WordEnds(c: Cmd<Span>, k: nat) {
    match c
    case Exec(args) => exists x :: 0 <= x < |args| && args[x].to == k
    case Redir(d, file, _) => WordEnds(d, k) || file.to == k
    case Pipe(l, r) => WordEnds(l, k) || WordEnds(r, k)
    case List(l, r) => WordEnds(l, k) || WordEnds(r, k)
    case Back(d) => WordEnds(d, k)
  }

  /** As C sees it, the buffer holds the string w at a position. */
  predicate HasString(buf: seq<char>, from: nat, w: string) {
    from + |w| < |buf| && buf[from..from + |w|] == w && buf[from + |w|] == '\0' && '\0' !in w
  }

  /** Every pointer of the command reads its own word. */
  predicate ReadsWords(buf: seq<char>, line: string, c: Cmd<Span>)
    requires InLine(line, c)
  {
    match c
    case Exec(args) => forall x :: 0 <= x < |args| ==> HasString(buf, args[x].from, line[args[x].from..args[x].to])
    case Redir(d, file, _) => ReadsWords(buf, line, d) && HasString(buf, file.from, line[file.from..file.to])
    case Pipe(l, r) => ReadsWords(buf, line, l) && ReadsWords(buf, line, r)
    case List(l, r) => ReadsWords(buf, line, l) && ReadsWords(buf, line, r)
    case Back(d) => ReadsWords(buf, line, d)
  }

  /** The buffer after NULs have been put behind words of the line. */
  predicate CutUp(buf: seq<char>, line: string) {
    && |buf| == |line| + 1
    && forall k :: 0 <= k < |line| ==> line[k] != '\0' && (buf[k] == line[k] || !Plain(line[k]))
  }

  lemma HasStringAt(buf: seq<char>, line: string, sp: Span)
    requires CutUp(buf, line) && Placed(line, sp) && buf[sp.to] == '\0'
    ensures HasString(buf, sp.from, line[sp.from..sp.to])
  {
  }

  /** A NUL behind each word is enough, whatever other words are cut out of the same line. */
  lemma {:induction false} CutReads(buf: seq<char>, line: string, c: Cmd<Span>)
    requires InLine(line, c) && CutUp(buf, line) && forall k :: 0 <= k < |buf| && WordEnds(c, k) ==> buf[k] == '\0'
    ensures ReadsWords(buf, line, c)
  {
    match c
    case Exec(args) =>
      forall x | 0 <= x < |args|
        ensures HasString(buf, args[x].from, line[args[x].from..args[x].to])
      {
        assert WordEnds(c, args[x].to);
        HasStringAt(buf, line, args[x]);
      }
    case Redir(d, file, _) =>
      CutReads(buf, line, d);
      HasStringAt(buf, line, file);
    case Pipe(l, r) => CutReads(buf, line, l); CutReads(buf, line, r);
    case List(l, r) => CutReads(buf, line, l); CutReads(buf, line, r);
    case Back(d) => CutReads(buf, line, d);
  }

  /** Words never reach over the end of another. */
  lemma {:induction false} EndsNotPlain(line: string, c: Cmd<Span>, k: nat)
    requires InLine(line, c) && WordEnds(c, k)
    ensures k <= |line| && (k < |line| ==> !Plain(line[k]))
  {
    match c
    case Exec(args) =>
    case Redir(d, file, _) => if WordEnds(d, k) { EndsNotPlain(line, d, k); }
    case Pipe(l, r) => if WordEnds(l, k) { EndsNotPlain(line, l, k); } else { EndsNotPlain(line, r, k); }
    case List(l, r) => if WordEnds(l, k) { EndsNotPlain(line, l, k); } else { EndsNotPlain(line, r, k); }
    case Back(d) => EndsNotPlain(line, d, k);
  }

  method NulTerminate(c: Cmd<Span>, buf: array<char>, ghost line: string)
    requires InLine(line, c) && buf.Length == |line| + 1
    modifies buf
    ensures forall k :: 0 <= k < buf.Length ==> buf[k] == if WordEnds(c, k) then '\0' else old(buf[k])
    decreases c
  {
    match c
    case Exec(args) =>
      var i := 0;
      while i < |args|
        invariant 0 <= i <= |args|
        invariant forall k :: 0 <= k < buf.Length ==> buf[k] == if exists x :: 0 <= x < i && args[x].to == k then '\0' else old(buf[k])
      {
        assert Placed(line, args[i]);
        buf[args[i].to] := '\0';
        i := i + 1;
      }
    case Redir(d, file, _) =>
      NulTerminate(d, buf, line);
      buf[file.to] := '\0';
    case Pipe(l, r) =>
      NulTerminate(l, buf, line);
      NulTerminate(r, buf, line);
    case List(l, r) =>
      NulTerminate(l, buf, line);
      NulTerminate(r, buf, line);
    case Back(d) =>
      NulTerminate(d, buf, line);
  }

  /** Parse the line in buf and cut its words out in place. Not ok for a syntax error; then the buffer stays as it was. */
  method ParseCmd(buf: array<char>) returns (c: Cmd<Span>, ok: bool)
    requires buf.Length > 0 && buf[buf.Length - 1] == '\0' && '\0' !in buf[..buf.Length - 1]
    modifies buf
    ensures var line := old(buf[..buf.Length - 1]);
            && (ok <==> exists t :: Parses(line, t))
            && (ok ==> InLine(line, c) && Parses(line, View(line, c)) && ReadsWords(buf[..], line, c))
    ensures !ok ==> buf[..] == old(buf[..])
  {
    hide Tokens, Line;
    var line := buf[..buf.Length - 1];
    var parser := new Parser(line);
    assert line[0..] == line;
    c, ok := parser.ParseLine();
    if !ok {
      return;
    }
    var _ := parser.Peek("");
    ghost var t := View(line, c);
    if parser.s != |line| {
      return c, false;
    }
    assert Parses(line, t);
    NulTerminate(c, buf, line);
    forall k | 0 <= k < |line| && WordEnds(c, k)
      ensures !Plain(line[k])
    {
      EndsNotPlain(line, c, k);
    }
    assert forall k :: 0 <= k < |line| ==> line[k] == old(buf[k]) && line[k] in line;
    CutReads(buf[..], line, c);
  }
}
