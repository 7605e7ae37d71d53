/** The shell's language: tokens, the grammar of command lines, and how to print a command. */
module ShellGrammar {
  datatype Token = Sym(c: char) | Append | Word(w: string)

  /** The parsed command; W is how its words are given. Both kinds of output redirection are the same to the parser. */
  datatype Cmd<W> =
    | Exec(args: seq<W>)
    | Redir(cmd: Cmd<W>, file: W, out: bool)
    | Pipe(left: Cmd<W>, right: Cmd<W>)
    | List(left: Cmd<W>, right: Cmd<W>)
    | Back(cmd: Cmd<W>)

  type Tree = Cmd<string>

  const MAXARGS: nat := 10

  predicate Blank(c: char) {
    c == ' ' || c == '\t' || c == '\r' || c == '\n' || c == 11 as char
  }

  predicate Symbol(c: char) {
    c in "<|>&;()"
  }

  predicate Plain(c: char) {
    !Blank(c) && !Symbol(c)
  }

  /** Length of the word at the start of s. */
  function WordLength(s: string): (n: nat)
    ensures n <= |s| && (forall k :: 0 <= k < n ==> Plain(s[k])) && (n < |s| ==> !Plain(s[n]))
  {
    if s == "" || !Plain(s[0]) then 0 else 1 + WordLength(s[1..])
  }

  /** The token at the start of s, and its length. */
  function First(s: string): (r: (Token, nat))
    requires s != "" && !Blank(s[0])
    ensures 0 < r.1 <= |s|
  {
    if s[0] == '>' && |s| > 1 && s[1] == '>' then (Append, 2)
    else if Symbol(s[0]) then (Sym(s[0]), 1)
    else (Word(s[..WordLength(s)]), WordLength(s))
  }

  /** The tokens of a line. */
  function Tokens(s: string): seq<Token> {
    if s == "" then []
    else if Blank(s[0]) then Tokens(s[1..])
    else [First(s).0] + Tokens(s[First(s).1..])
  }

  lemma NextToken(s: string)
    ensures s == "" ==> Tokens(s) == []
    ensures s != "" && Blank(s[0]) ==> Tokens(s) == Tokens(s[1..])
    ensures s != "" && !Blank(s[0]) ==> Tokens(s) == [First(s).0] + Tokens(s[First(s).1..])
  {
  }

  /** Does the next token start with one of the symbols? */
  predicate Next(ts: seq<Token>, symbols: string) {
    |ts| > 0 && match ts[0]
                case Sym(c) => c in symbols
                case Append => '>' in symbols
                case Word(_) => false
  }

  /** A tree with the tokens left over, or the panic of a syntax error. */
  datatype Parsed = Ok(tree: Tree, rest: seq<Token>) | Panic

  /** pipe [&]* [; line] */
  function Line(ts: seq<Token>): (r: Parsed)
    ensures r.Ok? ==> |r.rest| <= |ts|
    decreases |ts|, 3
  {
    var p := Pipeline(ts);
    if p.Panic? then Panic
    else
      var b := Backs(p.tree, p.rest);
      if !Next(b.rest, ";") then b
      else
        var r := Line(b.rest[1..]);
        if r.Panic? then Panic else Ok(List(b.tree, r.tree), r.rest)
  }

  function Backs(t: Tree, ts: seq<Token>): (r: Parsed)
    ensures r.Ok? && |r.rest| <= |ts|
    decreases |ts|
  {
    if Next(ts, "&") then Backs(Back(t), ts[1..]) else Ok(t, ts)
  }

  /** exec [| pipe] */
  function Pipeline(ts: seq<Token>): (r: Parsed)
    ensures r.Ok? ==> |r.rest| <= |ts|
    decreases |ts|, 2
  {
    var e := Simple(ts);
    if e.Panic? || !Next(e.rest, "|") then e
    else
      var r := Pipeline(e.rest[1..]);
      if r.Panic? then Panic else Ok(Pipe(e.tree, r.tree), r.rest)
  }

  /** A block in parentheses with its redirections, or words and redirections in any order. */
  function Simple(ts: seq<Token>): (r: Parsed)
    ensures r.Ok? ==> |r.rest| <= |ts|
    decreases |ts|, 1
  {
    if Next(ts, "(") then
      var b := Line(ts[1..]);
      if b.Panic? || !Next(b.rest, ")") then Panic else Redirs(b.tree, b.rest[1..])
    else
      var r := Redirs(Exec([]), ts);
      if r.Panic? then Panic else Args(r.tree, r.rest)
  }

  /** The redirections around a command. */
  function Redirs(t: Tree, ts: seq<Token>): (r: Parsed)
    ensures r.Ok? ==> |r.rest| <= |ts| && ArgCount(r.tree) == ArgCount(t) && OfWords(r.tree) == OfWords(t)
    decreases |ts|
  {
    if !Next(ts, "<>") then Ok(t, ts)
    else if |ts| < 2 || !ts[1].Word? then Panic
    else Redirs(Redir(t, ts[1].w, ts[0] != Sym('<')), ts[2..])
  }

  /** One word more for the command within the redirections. */
  function AddArg<W>(t: Cmd<W>, w: W): Cmd<W> {
    match t
    case Exec(args) => Exec(args + [w])
    case Redir(c, file, out) => Redir(AddArg(c, w), file, out)
    case _ => t
  }

  predicate OfWords<W>(t: Cmd<W>) {
    match t
    case Exec(_) => true
    case Redir(c, _, _) => OfWords(c)
    case _ => false
  }

  function ArgCount<W>(t: Cmd<W>): nat {
    match t
    case Exec(args) => |args|
    case Redir(c, _, _) => ArgCount(c)
    case _ => 0
  }

  lemma {:induction false} AddArgCount<W>(t: Cmd<W>, w: W)
    requires OfWords(t)
    ensures OfWords(AddArg(t, w)) && ArgCount(AddArg(t, w)) == ArgCount(t) + 1
  {
    if t.Redir? {
      AddArgCount(t.cmd, w);
    }
  }

  function Args(t: Tree, ts: seq<Token>): (r: Parsed)
    ensures r.Ok? ==> |r.rest| <= |ts|
    decreases |ts|
  {
    if ts == [] || Next(ts, "|)&;") then Ok(t, ts)
    else if !ts[0].Word? then Panic
    else
      var u := AddArg(t, ts[0].w);
      if ArgCount(u) >= MAXARGS then Panic
      else
        var r := Redirs(u, ts[1..]);
        if r.Panic? then Panic else Args(r.tree, r.rest)
  }

  // ---------------------------------------------------------------- printing

  /** A word the shell can read. */
  predicate Readable(w: string) {
    w != "" && forall k :: 0 <= k < |w| ==> Plain(w[k])
  }

  predicate Printable(t: Tree) {
    match t
    case Exec(args) => |args| < MAXARGS && forall k :: 0 <= k < |args| ==> Readable(args[k])
    case Redir(c, file, _) => Printable(c) && Readable(file)
    case Pipe(l, r) => Printable(l) && Printable(r)
    case List(l, r) => Printable(l) && Printable(r)
    case Back(c) => Printable(c)
  }

  function Words(args: seq<string>): seq<Token> {
    seq(|args|, k requires 0 <= k < |args| => Word(args[k]))
  }

  /** How tightly the parts of a command line bind: lines, commands in the background, pipelines, simple commands. */
  function Level(t: Tree): nat {
    match t
    case List(_, _) => 0
    case Back(_) => 1
    case Pipe(_, _) => 2
    case _ => 3
  }

  /** A tree where the grammar wants something of level k, in parentheses only if it must be. */
  function Print(t: Tree, k: nat): seq<Token>
    requires k <= 3
    decreases t, (Level(t) + 4 - k) % 4
  {
    if Level(t) != k then
      if k < 3 then Print(t, k + 1) else [Sym('(')] + Print(t, 0) + [Sym(')')]
    else
      match t
      case List(l, r) => Print(l, 1) + [Sym(';')] + Print(r, 0)
      case Back(c) => Print(c, 1) + [Sym('&')]
      case Pipe(l, r) => Print(l, 3) + [Sym('|')] + Print(r, 2)
      case Exec(args) => Words(args)
      case Redir(c, file, out) => Print(c, 3) + [Sym(if out then '>' else '<'), Word(file)]
  }

  // ---------------------------------------------------------------- reading back

  /** What may follow something of level k. */
  predicate Follows(k: nat, ts: seq<Token>) {
    ts == [] || (if k == 0 then Next(ts, ")") else if k < 3 then Next(ts, ")&;") else Next(ts, ")&;|<>"))
  }

  /** Reading on behind a simple command. */
  function Continue(t: Tree, ts: seq<Token>): Parsed {
    var r := Redirs(t, ts);
    if r.Panic? || !OfWords(t) then r else Args(r.tree, r.rest)
  }

  /** What the parser makes of tokens where it looks for level k. */
  function Read(k: nat, ts: seq<Token>): Parsed {
    if k == 0 then Line(ts)
    else if k == 1 then var p := Pipeline(ts); if p.Panic? then Panic else Backs(p.tree, p.rest)
    else if k == 2 then Pipeline(ts)
    else Simple(ts)
  }

  /** What it should make of a tree followed by more. */
  function Wanted(k: nat, t: Tree, rest: seq<Token>): Parsed {
    if k == 1 then Backs(t, rest) else if k < 3 then Ok(t, rest) else Continue(t, rest)
  }

  lemma {:induction false} ReadBack(t: Tree, k: nat, rest: seq<Token>)
    requires Printable(t) && k <= 3 && Follows(k, rest)
    ensures Read(k, Print(t, k) + rest) == Wanted(k, t, rest)
    decreases t, (Level(t) + 4 - k) % 4
  {
    hide Line, Pipeline, Simple, Redirs, Args, Backs, Continue;
    if Level(t) != k {
      if k < 3 {
        ReadBack(t, k + 1, rest);
        ReadDown(Print(t, k) + rest, k, t, rest);
      } else {
        ReadBack(t, 0, [Sym(')')] + rest);
        ReadBlock(Print(t, 0), t, rest);
      }
    } else {
      match t
      case List(l, r) =>
        ReadBack(l, 1, [Sym(';')] + (Print(r, 0) + rest));
        ReadBack(r, 0, rest);
        ReadList(Print(l, 1), Print(r, 0), l, r, rest);
      case Back(c) =>
        ReadBack(c, 1, [Sym('&')] + rest);
        ReadAmpersand(Print(c, 1), c, rest);
      case Pipe(l, r) =>
        ReadBack(l, 3, [Sym('|')] + (Print(r, 2) + rest));
        ReadBack(r, 2, rest);
        ReadPipe(Print(l, 3), Print(r, 2), l, r, rest);
      case Exec(args) =>
        ReadExec(args, rest);
      case Redir(c, file, out) =>
        ReadBack(c, 3, [Sym(if out then '>' else '<'), Word(file)] + rest);
        ReadRedir(Print(c, 3), c, file, out, rest);
    }
  }

  lemma ReadDown(ts: seq<Token>, k: nat, t: Tree, rest: seq<Token>)
    requires k < 3 && Read(k + 1, ts) == Wanted(k + 1, t, rest) && Follows(k, rest)
    ensures Read(k, ts) == Wanted(k, t, rest)
  {
  }

  lemma ReadBlock(p: seq<Token>, t: Tree, rest: seq<Token>)
    requires Level(t) < 3 && Read(0, p + ([Sym(')')] + rest)) == Ok(t, [Sym(')')] + rest)
    ensures Read(3, [Sym('(')] + p + [Sym(')')] + rest) == Wanted(3, t, rest)
  {
    var ts := [Sym('(')] + p + [Sym(')')] + rest;
    assert ts[1..] == p + ([Sym(')')] + rest);
    assert ([Sym(')')] + rest)[1..] == rest;
  }

  lemma ReadList(p: seq<Token>, q: seq<Token>, l: Tree, r: Tree, rest: seq<Token>)
    requires Read(1, p + ([Sym(';')] + (q + rest))) == Wanted(1, l, [Sym(';')] + (q + rest)) && Read(0, q + rest) == Ok(r, rest)
    ensures Read(0, p + [Sym(';')] + q + rest) == Ok(List(l, r), rest)
  {
    assert p + [Sym(';')] + q + rest == p + ([Sym(';')] + (q + rest));
    assert ([Sym(';')] + (q + rest))[1..] == q + rest;
  }

  lemma ReadAmpersand(p: seq<Token>, c: Tree, rest: seq<Token>)
    requires Read(1, p + ([Sym('&')] + rest)) == Wanted(1, c, [Sym('&')] + rest)
    ensures Read(1, p + [Sym('&')] + rest) == Wanted(1, Back(c), rest)
  {
    assert p + [Sym('&')] + rest == p + ([Sym('&')] + rest);
    assert ([Sym('&')] + rest)[1..] == rest;
  }

  lemma ReadPipe(p: seq<Token>, q: seq<Token>, l: Tree, r: Tree, rest: seq<Token>)
    requires Read(3, p + ([Sym('|')] + (q + rest))) == Wanted(3, l, [Sym('|')] + (q + rest)) && Read(2, q + rest) == Ok(r, rest)
    ensures Read(2, p + [Sym('|')] + q + rest) == Ok(Pipe(l, r), rest)
  {
    assert p + [Sym('|')] + q + rest == p + ([Sym('|')] + (q + rest));
    assert ([Sym('|')] + (q + rest))[1..] == q + rest;
  }

  lemma ReadRedir(p: seq<Token>, c: Tree, file: string, out: bool, rest: seq<Token>)
    requires var redir := [Sym(if out then '>' else '<'), Word(file)];
             Read(3, p + (redir + rest)) == Wanted(3, c, redir + rest)
    ensures var redir := [Sym(if out then '>' else '<'), Word(file)];
            Read(3, p + redir + rest) == Wanted(3, Redir(c, file, out), rest)
  {
    var redir := [Sym(if out then '>' else '<'), Word(file)];
    assert p + redir + rest == p + (redir + rest);
    assert (redir + rest)[2..] == rest;
  }

  lemma ReadExec(args: seq<string>, rest: seq<Token>)
    requires |args| < MAXARGS && Follows(3, rest)
    ensures Read(3, Words(args) + rest) == Wanted(3, Exec(args), rest)
  {
    ReadWords([], args, rest);
    assert [] + args == args;
    assert !Next(Words(args) + rest, "(");
  }

  lemma {:induction false} ReadWords(done: seq<string>, args: seq<string>, rest: seq<Token>)
    requires |done + args| < MAXARGS && Follows(3, rest)
    ensures var r := Redirs(Exec(done), Words(args) + rest);
            (if r.Panic? then Panic else Args(r.tree, r.rest)) == Continue(Exec(done + args), rest)
    decreases |args|
  {
    if args == [] {
      assert Words(args) + rest == rest && done + args == done;
    } else {
      assert Words(args) == [Word(args[0])] + Words(args[1..]);
      assert (Words(args) + rest)[1..] == Words(args[1..]) + rest;
      assert done + [args[0]] + args[1..] == done + args;
      ReadWords(done + [args[0]], args[1..], rest);
    }
  }

  /** Every tree with readable words and less than MAXARGS arguments is parsed back from its printed form. */
  lemma RoundTrip(t: Tree)
    requires Printable(t)
    ensures Line(Print(t, 0)) == Ok(t, [])
  {
    ReadBack(t, 0, []);
    assert Print(t, 0) + [] == Print(t, 0);
  }

  function Spelling(token: Token): string {
    match token case Sym(c) => [c] case Append => ">>" case Word(w) => w
  }

  predicate Legible(token: Token) {
    match token case Sym(c) => Symbol(c) case Append => true case Word(w) => Readable(w)
  }

  /** Tokens as text, set apart by spaces. */
  function Text(ts: seq<Token>): string {
    if ts == [] then "" else Spelling(ts[0]) + (" " + Text(ts[1..]))
  }

  lemma {:induction false} TokensText(ts: seq<Token>)
    requires forall k :: 0 <= k < |ts| ==> Legible(ts[k])
    ensures Tokens(Text(ts)) == ts
  {
    hide Tokens;
    if ts == [] {
      TokensBlank();
    } else {
      TokensText(ts[1..]);
      FirstToken(ts[0], Text(ts[1..]));
    }
  }

  lemma TokensBlank()
    ensures Tokens("") == []
  {
  }

  lemma FirstToken(token: Token, more: string)
    requires Legible(token)
    ensures Tokens(Spelling(token) + (" " + more)) == [token] + Tokens(more)
  {
    var s := Spelling(token) + (" " + more);
    var n := |Spelling(token)|;
    assert s[n] == ' ' && s[n..] == " " + more;
    assert (" " + more)[1..] == more;
    if token.Word? {
      WordLengthOf(token.w, " " + more);
      assert s[0] == token.w[0] && Plain(s[0]);
    }
  }

  lemma {:induction false} WordLengthOf(w: string, more: string)
    requires Readable(w) && |more| > 0 && more[0] == ' '
    ensures WordLength(w + more) == |w|
  {
    if |w| > 1 {
      WordLengthOf(w[1..], more);
    }
    assert (w + more)[1..] == w[1..] + more;
  }

  lemma {:induction false} PrintLegible(t: Tree, k: nat)
    requires Printable(t) && k <= 3
    ensures forall x :: 0 <= x < |Print(t, k)| ==> Legible(Print(t, k)[x])
    decreases t, (Level(t) + 4 - k) % 4
  {
    if Level(t) != k {
      PrintLegible(t, if k < 3 then k + 1 else 0);
    } else {
      match t
      case List(l, r) => PrintLegible(l, 1); PrintLegible(r, 0);
      case Back(c) => PrintLegible(c, 1);
      case Pipe(l, r) => PrintLegible(l, 3); PrintLegible(r, 2);
      case Exec(args) =>
      case Redir(c, file, out) => PrintLegible(c, 3);
    }
  }

  /** What the shell makes of a command line, if anything. */
  ghost predicate Parses(line: string, t: Tree) {
    Line(Tokens(line)) == Ok(t, [])
  }

  /** Writing a command down and parsing the line gives the command back. */
  lemma TextRoundTrip(t: Tree)
    requires Printable(t)
    ensures Parses(Text(Print(t, 0)), t)
  {
    RoundTrip(t);
    PrintLegible(t, 0);
    TokensText(Print(t, 0));
  }

  // ---------------------------------------------------------------- what can be parsed at all

  predicate AllReadable(ts: seq<Token>) {
    forall k :: 0 <= k < |ts| && ts[k].Word? ==> Readable(ts[k].w)
  }

  predicate Sane(r: Parsed) {
    r.Ok? ==> Printable(r.tree) && AllReadable(r.rest)
  }

  lemma {:induction false} TokensReadable(s: string)
    ensures AllReadable(Tokens(s))
    decreases |s|
  {
    if s != "" {
      TokensReadable(s[if Blank(s[0]) then 1 else First(s).1..]);
    }
  }

  lemma {:induction false} LineSane(ts: seq<Token>)
    requires AllReadable(ts)
    ensures Sane(Line(ts))
    decreases |ts|, 3
  {
    PipelineSane(ts);
    var p := Pipeline(ts);
    if p.Ok? {
      BacksSane(p.tree, p.rest);
      var b := Backs(p.tree, p.rest);
      if Next(b.rest, ";") {
        LineSane(b.rest[1..]);
      }
    }
  }

  lemma {:induction false} BacksSane(t: Tree, ts: seq<Token>)
    requires Printable(t) && AllReadable(ts)
    ensures Sane(Backs(t, ts))
    decreases |ts|
  {
    if Next(ts, "&") {
      BacksSane(Back(t), ts[1..]);
    }
  }

  lemma {:induction false} PipelineSane(ts: seq<Token>)
    requires AllReadable(ts)
    ensures Sane(Pipeline(ts))
    decreases |ts|, 2
  {
    SimpleSane(ts);
    var e := Simple(ts);
    if e.Ok? && Next(e.rest, "|") {
      PipelineSane(e.rest[1..]);
    }
  }

  lemma {:induction false} SimpleSane(ts: seq<Token>)
    requires AllReadable(ts)
    ensures Sane(Simple(ts))
    decreases |ts|, 1
  {
    if Next(ts, "(") {
      LineSane(ts[1..]);
      var b := Line(ts[1..]);
      if b.Ok? && Next(b.rest, ")") {
        RedirsSane(b.tree, b.rest[1..]);
      }
    } else {
      RedirsSane(Exec([]), ts);
      var r := Redirs(Exec([]), ts);
      if r.Ok? {
        ArgsSane(r.tree, r.rest);
      }
    }
  }

  lemma {:induction false} RedirsSane(t: Tree, ts: seq<Token>)
    requires Printable(t) && AllReadable(ts)
    ensures Sane(Redirs(t, ts))
    decreases |ts|
  {
    if Next(ts, "<>") && |ts| > 1 && ts[1].Word? {
      RedirsSane(Redir(t, ts[1].w, ts[0] != Sym('<')), ts[2..]);
    }
  }

  lemma {:induction false} ArgsSane(t: Tree, ts: seq<Token>)
    requires Printable(t) && AllReadable(ts) && OfWords(t)
    ensures Sane(Args(t, ts))
    decreases |ts|
  {
    if ts != [] && !Next(ts, "|)&;") && ts[0].Word? {
      var u := AddArg(t, ts[0].w);
      AddArgCount(t, ts[0].w);
      if ArgCount(u) < MAXARGS {
        AddArgPrintable(t, ts[0].w);
        RedirsSane(u, ts[1..]);
        var r := Redirs(u, ts[1..]);
        if r.Ok? {
          ArgsSane(r.tree, r.rest);
        }
      }
    }
  }

  lemma {:induction false} AddArgPrintable(t: Tree, w: string)
    requires Printable(t) && Readable(w) && ArgCount(t) + 1 < MAXARGS
    ensures Printable(AddArg(t, w))
  {
    if t.Redir? {
      AddArgPrintable(t.cmd, w);
    }
  }

  /** The commands some line stands for are just the printable ones. */
  lemma ParsedTrees(t: Tree)
    ensures Printable(t) <==> exists line :: Parses(line, t)
  {
    if Printable(t) {
      TextRoundTrip(t);
    }
    if line :| Parses(line, t) {
      TokensReadable(line);
      LineSane(Tokens(line));
    }
  }
}
