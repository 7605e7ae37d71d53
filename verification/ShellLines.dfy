/** Every way to write a command down: the lines the shell accepts, with what each means. */
module ShellLines {
  import opened ShellGrammar

  datatype Option<T> = None | Some(value: T)

  /** The three ways to write a redirection. */
  datatype Kind = Input | Output | OutputAppend

  /** What a simple command is written with, in any order. */
  datatype Item = Arg(w: string) | File(kind: Kind, w: string)

  /** A simple command: words and redirections, or a line in parentheses with redirections behind it. */
  datatype WrittenCmd = Items(items: seq<Item>) | Block(line: WrittenLine, files: seq<Item>)

  datatype WrittenPipe = WrittenPipe(cmd: WrittenCmd, more: Option<WrittenPipe>)

  /** A pipeline, any number of &, and perhaps a semicolon and another line. */
  datatype WrittenLine = WrittenLine(pipe: WrittenPipe, backs: nat, more: Option<WrittenLine>)

  // ---------------------------------------------------------------- how it is written

  function Operator(kind: Kind): Token {
    match kind case Input => Sym('<') case Output => Sym('>') case OutputAppend => Append
  }

  function SpellItem(i: Item): seq<Token> {
    match i case Arg(w) => [Word(w)] case File(kind, w) => [Operator(kind), Word(w)]
  }

  function SpellItems(items: seq<Item>): seq<Token> {
    if items == [] then [] else SpellItem(items[0]) + SpellItems(items[1..])
  }

  function SpellCmd(c: WrittenCmd): seq<Token> {
    match c
    case Items(items) => SpellItems(items)
    case Block(line, files) => [Sym('(')] + SpellLine(line) + [Sym(')')] + SpellItems(files)
  }

  function SpellPipe(p: WrittenPipe): seq<Token> {
    SpellCmd(p.cmd) + match p.more case None => [] case Some(q) => [Sym('|')] + SpellPipe(q)
  }

  function Ampersands(n: nat): seq<Token> {
    if n == 0 then [] else [Sym('&')] + Ampersands(n - 1)
  }

  function SpellLine(l: WrittenLine): seq<Token> {
    SpellPipe(l.pipe) + Ampersands(l.backs) + match l.more case None => [] case Some(m) => [Sym(';')] + SpellLine(m)
  }

  // ---------------------------------------------------------------- what it means

  /** The words, in their order; redirections among them do not matter. */
  function Args(items: seq<Item>): seq<string> {
    if items == [] then [] else (if items[0].Arg? then [items[0].w] else []) + Args(items[1..])
  }

  /** The redirections, in their order, the last one outermost; both operators for output mean the same. */
  function Redirected(t: Tree, items: seq<Item>): Tree
    decreases |items|
  {
    if items == [] then t
    else
      var last := items[|items| - 1];
      var inner := Redirected(t, items[..|items| - 1]);
      if last.Arg? then inner else Redir(inner, last.w, last.kind != Input)
  }

  function MeanCmd(c: WrittenCmd): Tree {
    match c
    case Items(items) => Redirected(Exec(Args(items)), items)
    case Block(line, files) => Redirected(MeanLine(line), files)
  }

  function MeanPipe(p: WrittenPipe): Tree {
    match p.more case None => MeanCmd(p.cmd) case Some(q) => Pipe(MeanCmd(p.cmd), MeanPipe(q))
  }

  function InBack(t: Tree, n: nat): Tree {
    if n == 0 then t else Back(InBack(t, n - 1))
  }

  function MeanLine(l: WrittenLine): Tree {
    var t := InBack(MeanPipe(l.pipe), l.backs);
    match l.more case None => t case Some(m) => List(t, MeanLine(m))
  }

  /** Fewer words than argv has places; only redirections behind a block. */
  predicate CmdOk(c: WrittenCmd) {
    match c
    case Items(items) => |Args(items)| < MAXARGS
    case Block(line, files) => LineOk(line) && forall k :: 0 <= k < |files| ==> files[k].File?
  }

  predicate PipeOk(p: WrittenPipe) {
    CmdOk(p.cmd) && match p.more case None => true case Some(q) => PipeOk(q)
  }

  predicate LineOk(l: WrittenLine) {
    PipeOk(l.pipe) && match l.more case None => true case Some(m) => LineOk(m)
  }

  // ---------------------------------------------------------------- items

  /** Reading items into a tree one after the other, as the parser does. */
  function AddItems(t: Tree, items: seq<Item>): Tree
    decreases |items|
  {
    if items == [] then t
    else AddItems(if items[0].Arg? then AddArg(t, items[0].w) else Redir(t, items[0].w, items[0].kind != Input), items[1..])
  }

  lemma {:induction false} AddItemsLast(t: Tree, items: seq<Item>, i: Item)
    ensures AddItems(t, items + [i]) ==
            var u := AddItems(t, items); if i.Arg? then AddArg(u, i.w) else Redir(u, i.w, i.kind != Input)
    decreases |items|
  {
    if items == [] {
      assert (items + [i])[1..] == [];
    } else {
      assert (items + [i])[1..] == items[1..] + [i];
      AddItemsLast(if items[0].Arg? then AddArg(t, items[0].w) else Redir(t, items[0].w, items[0].kind != Input), items[1..], i);
    }
  }

  lemma Associate<T>(a: seq<T>, b: seq<T>, c: seq<T>)
    ensures a + (b + c) == (a + b) + c
  {
  }

  lemma {:induction false} ArgsLast(items: seq<Item>, i: Item)
    ensures Args(items + [i]) == Args(items) + if i.Arg? then [i.w] else []
  {
    if items == [] {
      assert (items + [i])[1..] == [];
    } else {
      assert (items + [i])[1..] == items[1..] + [i] && (items + [i])[0] == items[0];
      ArgsLast(items[1..], i);
      var head, tail := if items[0].Arg? then [items[0].w] else [], if i.Arg? then [i.w] else [];
      Associate(head, Args(items[1..]), tail);
    }
  }

  lemma {:induction false} RedirectedArg(args: seq<string>, w: string, items: seq<Item>)
    ensures AddArg(Redirected(Exec(args), items), w) == Redirected(Exec(args + [w]), items)
    ensures OfWords(Redirected(Exec(args), items)) && ArgCount(Redirected(Exec(args), items)) == |args|
  {
    if items != [] {
      RedirectedArg(args, w, items[..|items| - 1]);
    }
  }

  /** Words end up in their order within the redirections, wherever these stand. */
  lemma {:induction false} ItemsMean(items: seq<Item>)
    ensures AddItems(Exec([]), items) == Redirected(Exec(Args(items)), items)
  {
    if items != [] {
      var n := |items| - 1;
      assert items == items[..n] + [items[n]];
      ItemsMean(items[..n]);
      AddItemsLast(Exec([]), items[..n], items[n]);
      ArgsLast(items[..n], items[n]);
      RedirectedArg(Args(items[..n]), items[n].w, items[..n]);
      assert Args(items) == if items[n].Arg? then Args(items[..n]) + [items[n].w] else Args(items[..n]);
    }
  }

  lemma {:induction false} FilesMean(t: Tree, files: seq<Item>)
    requires forall k :: 0 <= k < |files| ==> files[k].File?
    ensures AddItems(t, files) == Redirected(t, files)
  {
    if files != [] {
      var n := |files| - 1;
      assert files == files[..n] + [files[n]];
      FilesMean(t, files[..n]);
      AddItemsLast(t, files[..n], files[n]);
    }
  }

  // ---------------------------------------------------------------- whatever is written is read back

  /** What may follow a line, a pipeline and a simple command. */
  predicate Behind(symbols: string, ts: seq<Token>) {
    ts == [] || (ts[0].Sym? && ts[0].c in symbols)
  }

  lemma {:induction false} ReadFiles(t: Tree, files: seq<Item>, rest: seq<Token>)
    requires (forall k :: 0 <= k < |files| ==> files[k].File?) && !Next(rest, "<>")
    ensures Redirs(t, SpellItems(files) + rest) == Ok(AddItems(t, files), rest)
    decreases |files|
  {
    hide Redirs, SpellItems, AddItems, Operator;
    if files == [] {
      NoItems(t);
      assert SpellItems(files) + rest == rest;
      NoRedirs(t, rest);
    } else {
      var i := files[0];
      FirstSpelt(files, rest);
      FirstAdded(t, files);
      OneRedir(t, i.kind, i.w, SpellItems(files[1..]) + rest);
      ReadFiles(Redir(t, i.w, i.kind != Input), files[1..], rest);
    }
  }

  lemma NoRedirs(t: Tree, ts: seq<Token>)
    requires !Next(ts, "<>")
    ensures Redirs(t, ts) == Ok(t, ts)
  {
  }

  lemma OneRedir(t: Tree, kind: Kind, w: string, more: seq<Token>)
    ensures Redirs(t, [Operator(kind), Word(w)] + more) == Redirs(Redir(t, w, kind != Input), more)
  {
    assert ([Operator(kind), Word(w)] + more)[2..] == more;
  }

  /** What a redirection the parser has read was written with. */
  lemma RedirRead(t: Tree, ts: seq<Token>) returns (i: Item)
    requires Next(ts, "<>") && Redirs(t, ts).Ok?
    ensures i.File? && |ts| >= 2 && ts == SpellItem(i) + ts[2..]
    ensures Redirs(t, ts) == Redirs(Redir(t, i.w, i.kind != Input), ts[2..])
  {
    i := File(if ts[0] == Sym('<') then Input else if ts[0] == Append then OutputAppend else Output, ts[1].w);
    assert SpellItem(i) == [ts[0], ts[1]];
  }

  /** Redirections, then words with redirections behind them. */
  function Continue(t: Tree, ts: seq<Token>): Parsed {
    var r := Redirs(t, ts);
    if r.Panic? then Panic else ShellGrammar.Args(r.tree, r.rest)
  }

  lemma ContinueEnd(t: Tree, ts: seq<Token>)
    requires Behind("|)&;", ts)
    ensures Continue(t, ts) == Ok(t, ts)
  {
  }

  lemma ContinueFile(t: Tree, kind: Kind, w: string, more: seq<Token>)
    ensures Continue(t, [Operator(kind), Word(w)] + more) == Continue(Redir(t, w, kind != Input), more)
  {
    assert ([Operator(kind), Word(w)] + more)[2..] == more;
  }

  lemma ContinueArg(t: Tree, w: string, more: seq<Token>)
    requires ArgCount(AddArg(t, w)) < MAXARGS
    ensures Continue(t, [Word(w)] + more) == Continue(AddArg(t, w), more)
  {
    assert ([Word(w)] + more)[1..] == more;
  }

  lemma {:induction false} ReadItems(t: Tree, items: seq<Item>, rest: seq<Token>)
    requires OfWords(t) && ArgCount(t) + |Args(items)| < MAXARGS && Behind("|)&;", rest)
    ensures Continue(t, SpellItems(items) + rest) == Ok(AddItems(t, items), rest)
    decreases |items|
  {
    hide Continue, Operator, SpellItems, AddItems, Args;
    if items == [] {
      NoItems(t);
      assert SpellItems(items) + rest == rest;
      ContinueEnd(t, rest);
    } else {
      var i, more := items[0], SpellItems(items[1..]) + rest;
      FirstSpelt(items, rest);
      FirstAdded(t, items);
      if i.File? {
        ContinueFile(t, i.kind, i.w, more);
        ReadItems(Redir(t, i.w, i.kind != Input), items[1..], rest);
      } else {
        AddArgCount(t, i.w);
        ContinueArg(t, i.w, more);
        ReadItems(AddArg(t, i.w), items[1..], rest);
      }
    }
  }

  lemma FirstSpelt(items: seq<Item>, rest: seq<Token>)
    requires items != []
    ensures SpellItems(items) + rest == SpellItem(items[0]) + (SpellItems(items[1..]) + rest)
  {
    Associate(SpellItem(items[0]), SpellItems(items[1..]), rest);
  }

  lemma FirstAdded(t: Tree, items: seq<Item>)
    requires items != []
    ensures AddItems(t, items) ==
            AddItems(if items[0].Arg? then AddArg(t, items[0].w) else Redir(t, items[0].w, items[0].kind != Input), items[1..])
    ensures |Args(items)| == |Args(items[1..])| + if items[0].Arg? then 1 else 0
  {
  }

  lemma ItemsStart(items: seq<Item>, rest: seq<Token>)
    requires Behind("|)&;", rest)
    ensures !Next(SpellItems(items) + rest, "(")
  {
    if items != [] {
      assert (SpellItems(items) + rest)[0] == SpellItem(items[0])[0];
    } else {
      assert SpellItems(items) + rest == rest;
    }
  }

  lemma {:induction false} ReadCmd(c: WrittenCmd, rest: seq<Token>)
    requires CmdOk(c) && Behind("|)&;", rest)
    ensures Simple(SpellCmd(c) + rest) == Ok(MeanCmd(c), rest)
    decreases c, 0
  {
    hide Line, Redirs, ShellGrammar.Args;
    match c
    case Items(items) =>
      ItemsStart(items, rest);
      ReadItems(Exec([]), items, rest);
      ItemsMean(items);
    case Block(line, files) =>
      var more := SpellItems(files) + rest;
      var ts := SpellCmd(c) + rest;
      assert ts[0] == Sym('(') && ts[1..] == SpellLine(line) + ([Sym(')')] + more);
      ReadLine(line, [Sym(')')] + more);
      assert ([Sym(')')] + more)[1..] == more;
      ReadFiles(MeanLine(line), files, rest);
      FilesMean(MeanLine(line), files);
  }

  lemma {:induction false} ReadPipe(p: WrittenPipe, rest: seq<Token>)
    requires PipeOk(p) && Behind(")&;", rest)
    ensures Pipeline(SpellPipe(p) + rest) == Ok(MeanPipe(p), rest)
    decreases p, 0
  {
    hide Simple;
    match p.more
    case None =>
      assert SpellPipe(p) + rest == SpellCmd(p.cmd) + rest;
      ReadCmd(p.cmd, rest);
    case Some(q) =>
      var more := [Sym('|')] + (SpellPipe(q) + rest);
      assert SpellPipe(p) + rest == SpellCmd(p.cmd) + more && more[1..] == SpellPipe(q) + rest;
      ReadCmd(p.cmd, more);
      ReadPipe(q, rest);
  }

  lemma {:induction false} BackOut(t: Tree, n: nat)
    ensures InBack(Back(t), n) == Back(InBack(t, n))
  {
    if n > 0 {
      BackOut(t, n - 1);
    }
  }

  lemma {:induction false} ReadBacks(t: Tree, n: nat, rest: seq<Token>)
    requires Behind(");", rest)
    ensures Backs(t, Ampersands(n) + rest) == Ok(InBack(t, n), rest)
    decreases n
  {
    var ts := Ampersands(n) + rest;
    if n == 0 {
      assert ts == rest;
    } else {
      assert ts[1..] == Ampersands(n - 1) + rest;
      ReadBacks(Back(t), n - 1, rest);
      BackOut(t, n - 1);
    }
  }

  lemma {:induction false} ReadLine(l: WrittenLine, rest: seq<Token>)
    requires LineOk(l) && Behind(")", rest)
    ensures Line(SpellLine(l) + rest) == Ok(MeanLine(l), rest)
    decreases l, 1
  {
    hide Pipeline, Backs;
    var end := match l.more case None => rest case Some(m) => [Sym(';')] + (SpellLine(m) + rest);
    var more := Ampersands(l.backs) + end;
    assert SpellLine(l) + rest == SpellPipe(l.pipe) + more;
    assert Behind(")&;", more);
    ReadPipe(l.pipe, more);
    ReadBacks(MeanPipe(l.pipe), l.backs, end);
    if l.more.Some? {
      assert end[1..] == SpellLine(l.more.value) + rest;
      ReadLine(l.more.value, rest);
    }
  }

  // ---------------------------------------------------------------- whatever is read was written

  lemma {:induction false} FilesWritten(t: Tree, ts: seq<Token>) returns (files: seq<Item>)
    requires Redirs(t, ts).Ok?
    ensures forall k :: 0 <= k < |files| ==> files[k].File?
    ensures ts == SpellItems(files) + Redirs(t, ts).rest && Redirs(t, ts).tree == AddItems(t, files)
    decreases |ts|
  {
    hide Redirs, SpellItem, SpellItems, AddItems;
    if !Next(ts, "<>") {
      files := [];
      NoItems(t);
      NoRedirs(t, ts);
    } else {
      var i := RedirRead(t, ts);
      var more := FilesWritten(Redir(t, i.w, i.kind != Input), ts[2..]);
      files := [i] + more;
      FirstItem(i, more);
      Associate(SpellItem(i), SpellItems(more), Redirs(t, ts).rest);
    }
  }

  lemma FirstItem(i: Item, more: seq<Item>)
    ensures SpellItems([i] + more) == SpellItem(i) + SpellItems(more)
    ensures forall t :: AddItems(t, [i] + more) == AddItems(if i.Arg? then AddArg(t, i.w) else Redir(t, i.w, i.kind != Input), more)
  {
    assert ([i] + more)[1..] == more;
  }

  lemma {:induction false} SpellAppend(a: seq<Item>, b: seq<Item>)
    ensures SpellItems(a + b) == SpellItems(a) + SpellItems(b)
    decreases |a|
  {
    if a == [] {
      assert a + b == b;
    } else {
      assert (a + b)[1..] == a[1..] + b;
      SpellAppend(a[1..], b);
    }
  }

  lemma {:induction false} AddAppend(t: Tree, a: seq<Item>, b: seq<Item>)
    ensures AddItems(t, a + b) == AddItems(AddItems(t, a), b)
    decreases |a|
  {
    if a == [] {
      assert a + b == b;
    } else {
      assert (a + b)[1..] == a[1..] + b;
      AddAppend(if a[0].Arg? then AddArg(t, a[0].w) else Redir(t, a[0].w, a[0].kind != Input), a[1..], b);
    }
  }

  lemma {:induction false} AddCount(t: Tree, items: seq<Item>)
    requires OfWords(t)
    ensures OfWords(AddItems(t, items)) && ArgCount(AddItems(t, items)) == ArgCount(t) + |Args(items)|
    decreases |items|
  {
    if items != [] {
      AddArgCount(t, items[0].w);
      AddCount(if items[0].Arg? then AddArg(t, items[0].w) else Redir(t, items[0].w, items[0].kind != Input), items[1..]);
    }
  }

  lemma {:induction false} ArgsWritten(t: Tree, ts: seq<Token>) returns (items: seq<Item>)
    requires ShellGrammar.Args(t, ts).Ok? && OfWords(t) && ArgCount(t) < MAXARGS
    ensures ts == SpellItems(items) + ShellGrammar.Args(t, ts).rest && ShellGrammar.Args(t, ts).tree == AddItems(t, items)
    ensures ArgCount(AddItems(t, items)) < MAXARGS
    decreases |ts|
  {
    hide Redirs, AddItems, SpellItems;
    if ts == [] || Next(ts, "|)&;") {
      items := [];
      NoItems(t);
    } else {
      var u := AddArg(t, ts[0].w);
      AddArgCount(t, ts[0].w);
      var r := Redirs(u, ts[1..]);
      var files := FilesWritten(u, ts[1..]);
      AddCount(u, files);
      FewFiles(u, files);
      var more := ArgsWritten(r.tree, r.rest);
      items := [Arg(ts[0].w)] + (files + more);
      FirstItem(Arg(ts[0].w), files + more);
      SpellAppend(files, more);
      AddAppend(u, files, more);
      Joined(ts, [ts[0]], SpellItems(files), r.rest, SpellItems(more), ShellGrammar.Args(r.tree, r.rest).rest);
    }
  }

  lemma NoItems(t: Tree)
    ensures SpellItems([]) == [] && AddItems(t, []) == t
  {
  }

  lemma {:induction false} FewFiles(t: Tree, files: seq<Item>)
    requires OfWords(t) && forall k :: 0 <= k < |files| ==> files[k].File?
    ensures Args(files) == []
  {
    if files != [] {
      FewFiles(t, files[1..]);
    }
  }

  lemma Joined(ts: seq<Token>, a: seq<Token>, b: seq<Token>, u: seq<Token>, c: seq<Token>, v: seq<Token>)
    requires |a| <= |ts| && a == ts[..|a|] && ts[|a|..] == b + u && u == c + v
    ensures ts == a + (b + c) + v
  {
    assert ts == a + ts[|a|..];
  }

  lemma {:induction false} CmdWritten(ts: seq<Token>) returns (c: WrittenCmd)
    requires Simple(ts).Ok?
    ensures CmdOk(c) && ts == SpellCmd(c) + Simple(ts).rest && Simple(ts).tree == MeanCmd(c)
    decreases |ts|, 1
  {
    hide Line, Redirs, ShellGrammar.Args, AddItems, SpellItems, SpellLine, MeanLine, LineOk, Redirected, Args;
    if Next(ts, "(") {
      var b := Line(ts[1..]);
      var line := LineWritten(ts[1..]);
      var files := FilesWritten(b.tree, b.rest[1..]);
      FilesMean(b.tree, files);
      c := Block(line, files);
      assert ts == [Sym('(')] + ts[1..] && b.rest == [Sym(')')] + b.rest[1..];
      var end := Simple(ts).rest;
      assert ts == [Sym('(')] + (SpellLine(line) + ([Sym(')')] + (SpellItems(files) + end)));
      assert SpellCmd(c) + end == [Sym('(')] + (SpellLine(line) + ([Sym(')')] + (SpellItems(files) + end)));
    } else {
      c := ItemsWritten(ts);
    }
  }

  lemma ItemsWritten(ts: seq<Token>) returns (c: WrittenCmd)
    requires Continue(Exec([]), ts).Ok?
    ensures CmdOk(c) && ts == SpellCmd(c) + Continue(Exec([]), ts).rest && Continue(Exec([]), ts).tree == MeanCmd(c)
  {
    hide Redirs, ShellGrammar.Args, AddItems, SpellItems, Redirected, Args, AddArg;
    var r := Redirs(Exec([]), ts);
    var files := FilesWritten(Exec([]), ts);
    AddCount(Exec([]), files);
    FewFiles(Exec([]), files);
    var more := ArgsWritten(r.tree, r.rest);
    var items := files + more;
    SpellAppend(files, more);
    AddAppend(Exec([]), files, more);
    AddCount(Exec([]), items);
    ItemsMean(items);
    c := Items(items);
    assert ts == SpellItems(files) + (SpellItems(more) + ShellGrammar.Args(r.tree, r.rest).rest);
  }

  lemma {:induction false} PipeWritten(ts: seq<Token>) returns (p: WrittenPipe)
    requires Pipeline(ts).Ok?
    ensures PipeOk(p) && ts == SpellPipe(p) + Pipeline(ts).rest && Pipeline(ts).tree == MeanPipe(p)
    decreases |ts|, 2
  {
    hide Simple, SpellCmd, MeanCmd, CmdOk;
    var c := CmdWritten(ts);
    var e := Simple(ts);
    if Next(e.rest, "|") {
      var q := PipeWritten(e.rest[1..]);
      p := WrittenPipe(c, Some(q));
      assert e.rest == [Sym('|')] + e.rest[1..];
      var end := Pipeline(ts).rest;
      assert SpellPipe(p) + end == SpellCmd(c) + ([Sym('|')] + (SpellPipe(q) + end));
    } else {
      p := WrittenPipe(c, None);
      assert SpellPipe(p) == SpellCmd(c);
    }
  }

  lemma {:induction false} BacksWritten(t: Tree, ts: seq<Token>) returns (n: nat)
    ensures ts == Ampersands(n) + Backs(t, ts).rest && Backs(t, ts).tree == InBack(t, n)
    decreases |ts|
  {
    if Next(ts, "&") {
      n := BacksWritten(Back(t), ts[1..]);
      BackOut(t, n);
      n := n + 1;
      assert ts == [ts[0]] + ts[1..];
    } else {
      n := 0;
    }
  }

  lemma {:induction false} LineWritten(ts: seq<Token>) returns (l: WrittenLine)
    requires Line(ts).Ok?
    ensures LineOk(l) && ts == SpellLine(l) + Line(ts).rest && Line(ts).tree == MeanLine(l)
    decreases |ts|, 3
  {
    hide Pipeline, Backs, SpellPipe, MeanPipe, PipeOk, InBack, Ampersands;
    var p := PipeWritten(ts);
    var r := Pipeline(ts);
    var n := BacksWritten(r.tree, r.rest);
    var b := Backs(r.tree, r.rest);
    var end := Line(ts).rest;
    if Next(b.rest, ";") {
      var m := LineWritten(b.rest[1..]);
      l := WrittenLine(p, n, Some(m));
      assert b.rest == [Sym(';')] + b.rest[1..];
      assert SpellLine(l) + end == SpellPipe(p) + (Ampersands(n) + ([Sym(';')] + (SpellLine(m) + end)));
    } else {
      l := WrittenLine(p, n, None);
      assert SpellLine(l) + end == SpellPipe(p) + (Ampersands(n) + end);
    }
  }

  /** The parser accepts exactly the token sequences that are written this way, and takes them for what they mean. */
  lemma LinesExact(ts: seq<Token>, t: Tree)
    ensures Line(ts) == Ok(t, []) <==> exists l :: LineOk(l) && SpellLine(l) == ts && MeanLine(l) == t
  {
    if Line(ts) == Ok(t, []) {
      var l := LineWritten(ts);
      assert SpellLine(l) == ts;
    }
    forall l | LineOk(l) && SpellLine(l) == ts && MeanLine(l) == t
      ensures Line(ts) == Ok(t, [])
    {
      ReadLine(l, []);
      assert SpellLine(l) + [] == SpellLine(l);
    }
  }

  // ---------------------------------------------------------------- both operators for output

  /** The same tokens, but for some >> written >. */
  ghost predicate Alike(ts: seq<Token>, us: seq<Token>) {
    |ts| == |us| && forall i :: 0 <= i < |ts| ==> us[i] == ts[i] || (ts[i] == Append && us[i] == Sym('>'))
  }

  ghost predicate ParsedAlike(r: Parsed, q: Parsed) {
    if r.Panic? then q.Panic? else q.Ok? && q.tree == r.tree && Alike(r.rest, q.rest)
  }

  lemma AlikeNext(ts: seq<Token>, us: seq<Token>)
    requires Alike(ts, us)
    ensures forall symbols :: Next(ts, symbols) <==> Next(us, symbols)
    ensures forall n :: 0 <= n <= |ts| ==> Alike(ts[n..], us[n..])
  {
    assert |ts| > 0 ==> us[0] == ts[0] || (ts[0] == Append && us[0] == Sym('>'));
  }

  lemma {:induction false} RedirsAlike(t: Tree, ts: seq<Token>, us: seq<Token>)
    requires Alike(ts, us)
    ensures ParsedAlike(Redirs(t, ts), Redirs(t, us))
    decreases |ts|
  {
    AlikeNext(ts, us);
    if Next(ts, "<>") && |ts| > 1 && ts[1].Word? {
      assert us[1] == ts[1] && (us[0] == Sym('<') <==> ts[0] == Sym('<'));
      RedirsAlike(Redir(t, ts[1].w, ts[0] != Sym('<')), ts[2..], us[2..]);
    }
  }

  lemma {:induction false} ArgsAlike(t: Tree, ts: seq<Token>, us: seq<Token>)
    requires Alike(ts, us)
    ensures ParsedAlike(ShellGrammar.Args(t, ts), ShellGrammar.Args(t, us))
    decreases |ts|
  {
    hide Redirs;
    AlikeNext(ts, us);
    if ts != [] && !Next(ts, "|)&;") && ts[0].Word? && ArgCount(AddArg(t, ts[0].w)) < MAXARGS {
      assert us[0] == ts[0];
      var u := AddArg(t, ts[0].w);
      RedirsAlike(u, ts[1..], us[1..]);
      var r := Redirs(u, ts[1..]);
      if r.Ok? {
        ArgsAlike(r.tree, r.rest, Redirs(u, us[1..]).rest);
      }
    }
  }

  lemma {:induction false} SimpleAlike(ts: seq<Token>, us: seq<Token>)
    requires Alike(ts, us)
    ensures ParsedAlike(Simple(ts), Simple(us))
    decreases |ts|, 1
  {
    hide Redirs, ShellGrammar.Args, Line, Alike;
    AlikeNext(ts, us);
    assert |ts| == |us| by {
      SameLength(ts, us);
    }
    if Next(ts, "(") {
      LineAlike(ts[1..], us[1..]);
      var b, b' := Line(ts[1..]), Line(us[1..]);
      if b.Ok? {
        AlikeNext(b.rest, b'.rest);
        SameLength(b.rest, b'.rest);
        if Next(b.rest, ")") {
          RedirsAlike(b.tree, b.rest[1..], b'.rest[1..]);
        }
      }
    } else {
      RedirsAlike(Exec([]), ts, us);
      var r := Redirs(Exec([]), ts);
      if r.Ok? {
        ArgsAlike(r.tree, r.rest, Redirs(Exec([]), us).rest);
      }
    }
  }

  lemma SameLength(ts: seq<Token>, us: seq<Token>)
    requires Alike(ts, us)
    ensures |ts| == |us|
  {
  }

  lemma {:induction false} PipelineAlike(ts: seq<Token>, us: seq<Token>)
    requires Alike(ts, us)
    ensures ParsedAlike(Pipeline(ts), Pipeline(us))
    decreases |ts|, 2
  {
    hide Simple, Alike;
    SimpleAlike(ts, us);
    var e, e' := Simple(ts), Simple(us);
    if e.Ok? {
      AlikeNext(e.rest, e'.rest);
      SameLength(e.rest, e'.rest);
      if Next(e.rest, "|") {
        PipelineAlike(e.rest[1..], e'.rest[1..]);
      }
    }
  }

  lemma {:induction false} BacksAlike(t: Tree, ts: seq<Token>, us: seq<Token>)
    requires Alike(ts, us)
    ensures ParsedAlike(Backs(t, ts), Backs(t, us))
    decreases |ts|
  {
    AlikeNext(ts, us);
    if Next(ts, "&") {
      BacksAlike(Back(t), ts[1..], us[1..]);
    }
  }

  lemma {:induction false} LineAlike(ts: seq<Token>, us: seq<Token>)
    requires Alike(ts, us)
    ensures ParsedAlike(Line(ts), Line(us))
    decreases |ts|, 3
  {
    hide Pipeline, Backs, Alike;
    PipelineAlike(ts, us);
    var p, p' := Pipeline(ts), Pipeline(us);
    if p.Ok? {
      BacksAlike(p.tree, p.rest, p'.rest);
      var b, b' := Backs(p.tree, p.rest), Backs(p.tree, p'.rest);
      AlikeNext(b.rest, b'.rest);
      SameLength(b.rest, b'.rest);
      if Next(b.rest, ";") {
        LineAlike(b.rest[1..], b'.rest[1..]);
      }
    }
  }

  /** Writing > for >> anywhere changes neither whether a line is accepted nor what it means. */
  lemma AppendIsOutput(ts: seq<Token>, k: nat)
    requires k < |ts| && ts[k] == Append
    ensures forall t :: Line(ts) == Ok(t, []) <==> Line(ts[k := Sym('>')]) == Ok(t, [])
  {
    hide Line;
    LineAlike(ts, ts[k := Sym('>')]);
  }

  // ---------------------------------------------------------------- characters

  /** A token with the blanks behind it. */
  datatype Piece = Piece(token: Token, gap: string)

  predicate AllBlank(s: string) {
    forall k :: 0 <= k < |s| ==> Blank(s[k])
  }

  function Glue(pieces: seq<Piece>): string {
    if pieces == [] then "" else Spelling(pieces[0].token) + (pieces[0].gap + Glue(pieces[1..]))
  }

  function TokensOf(pieces: seq<Piece>): seq<Token> {
    if pieces == [] then [] else [pieces[0].token] + TokensOf(pieces[1..])
  }

  /** Tokens that would be read as one need a blank between them: two words, and > before another > or >>. */
  predicate Clash(a: Token, b: Token) {
    (a.Word? && b.Word?) || (a == Sym('>') && (b == Sym('>') || b == Append))
  }

  ghost predicate Spaced(pieces: seq<Piece>) {
    && (forall k :: 0 <= k < |pieces| ==> Legible(pieces[k].token) && AllBlank(pieces[k].gap))
    && (forall k :: 0 <= k < |pieces| - 1 && pieces[k].gap == "" ==> !Clash(pieces[k].token, pieces[k + 1].token))
  }

  lemma {:induction false} SkipGap(gap: string, s: string)
    requires AllBlank(gap)
    ensures Tokens(gap + s) == Tokens(s)
    decreases |gap|
  {
    if gap == "" {
      assert gap + s == s;
    } else {
      assert (gap + s)[1..] == gap[1..] + s;
      SkipGap(gap[1..], s);
    }
  }

  lemma {:induction false} WordEnd(w: string, more: string)
    requires Readable(w) && (more == "" || !Plain(more[0]))
    ensures WordLength(w + more) == |w|
    decreases |w|
  {
    if |w| > 1 {
      WordEnd(w[1..], more);
    }
    assert (w + more)[1..] == w[1..] + more;
  }

  /** What the first token is, when what follows could not belong to it. */
  lemma FirstOf(token: Token, more: string)
    requires Legible(token)
    requires more != "" && token.Word? ==> !Plain(more[0])
    requires more != "" && token == Sym('>') ==> more[0] != '>'
    ensures Tokens(Spelling(token) + more) == [token] + Tokens(more)
  {
    var s := Spelling(token) + more;
    assert s[|Spelling(token)|..] == more;
    if token.Word? {
      WordEnd(token.w, more);
      assert s[0] == token.w[0] && Plain(s[0]) && s[..|token.w|] == token.w;
    } else {
      assert s[0] == Spelling(token)[0] && Symbol(s[0]) && !Blank(s[0]);
      if token == Append {
        assert s[1] == '>';
      } else {
        assert |s| > 1 ==> s[1] == more[0];
      }
    }
  }

  lemma GlueStart(pieces: seq<Piece>)
    requires pieces != [] && Legible(pieces[0].token)
    ensures Spelling(pieces[0].token) != "" && Glue(pieces) != "" && Glue(pieces)[0] == Spelling(pieces[0].token)[0]
  {
  }

  /** Tokens are read back from any text that spells them, with blanks wherever they are needed and anywhere else. */
  lemma {:induction false} TokensGlue(pieces: seq<Piece>)
    requires Spaced(pieces)
    ensures Tokens(Glue(pieces)) == TokensOf(pieces)
    decreases |pieces|
  {
    if pieces != [] {
      hide Tokens;
      var p, rest := pieces[0], pieces[1..];
      var more := p.gap + Glue(rest);
      assert Spaced(rest) by {
        assert forall k :: 0 <= k < |rest| ==> rest[k] == pieces[k + 1];
      }
      TokensGlue(rest);
      SkipGap(p.gap, Glue(rest));
      if rest != [] {
        GlueStart(rest);
        assert rest[0] == pieces[0 + 1];
      }
      if p.gap == "" {
        assert more == Glue(rest);
      } else {
        assert more[0] == p.gap[0];
      }
      FirstOf(p.token, more);
    } else {
      NextToken("");
    }
  }

  /** And every text is of this kind. */
  lemma {:induction false} TextGlue(s: string) returns (lead: string, pieces: seq<Piece>)
    ensures AllBlank(lead) && Spaced(pieces) && s == lead + Glue(pieces)
    ensures s != "" && !Blank(s[0]) ==> lead == ""
    decreases |s|
  {
    if s == "" {
      lead, pieces := "", [];
    } else if Blank(s[0]) {
      lead, pieces := TextGlue(s[1..]);
      lead := [s[0]] + lead;
      assert s == [s[0]] + s[1..];
    } else {
      var (token, n) := First(s);
      var gap, rest := TextGlue(s[n..]);
      lead, pieces := "", [Piece(token, gap)] + rest;
      OnePiece(s, token, n, gap, rest);
    }
  }

  lemma FirstLegible(s: string)
    requires s != "" && !Blank(s[0])
    ensures Spelling(First(s).0) == s[..First(s).1] && Legible(First(s).0)
    ensures First(s).0.Word? && First(s).1 < |s| ==> !Plain(s[First(s).1])
    ensures First(s).0 == Sym('>') && First(s).1 < |s| ==> s[First(s).1] != '>'
  {
  }

  lemma OnePiece(s: string, token: Token, n: nat, gap: string, rest: seq<Piece>)
    requires s != "" && !Blank(s[0]) && First(s) == (token, n)
    requires AllBlank(gap) && Spaced(rest) && s[n..] == gap + Glue(rest)
    ensures Spaced([Piece(token, gap)] + rest) && s == Glue([Piece(token, gap)] + rest)
  {
    var pieces := [Piece(token, gap)] + rest;
    assert pieces[1..] == rest && forall k :: 1 <= k < |pieces| ==> pieces[k] == rest[k - 1];
    FirstLegible(s);
    assert s == s[..n] + s[n..];
    hide Legible, First;
    if rest != [] && gap == "" {
      assert Legible(rest[0].token);
      GlueStart(rest);
      assert s[n] == Glue(rest)[0];
      if Clash(token, rest[0].token) {
        ClashSeen(token, rest[0].token, s[n]);
        assert false;
      }
    }
  }

  lemma ClashSeen(a: Token, b: Token, c: char)
    requires Legible(b) && Clash(a, b) && |Spelling(b)| > 0 && c == Spelling(b)[0]
    ensures if a.Word? then Plain(c) else c == '>'
  {
  }

  /** A line means what the way it is written says: whatever blanks there are, and in whatever order redirections and words come. */
  lemma WrittenText(l: WrittenLine, lead: string, pieces: seq<Piece>)
    requires LineOk(l) && AllBlank(lead) && Spaced(pieces) && TokensOf(pieces) == SpellLine(l)
    ensures Parses(lead + Glue(pieces), MeanLine(l))
  {
    TokensGlue(pieces);
    SkipGap(lead, Glue(pieces));
    LinesExact(SpellLine(l), MeanLine(l));
  }

  /** The shell accepts exactly the lines that are written this way, and takes them for what they mean. */
  lemma AcceptedLines(line: string, t: Tree)
    ensures Parses(line, t) <==> exists l, lead, pieces :: Writes(l, lead, pieces, line) && MeanLine(l) == t
  {
    if Parses(line, t) {
      LinesExact(Tokens(line), t);
      var l :| LineOk(l) && SpellLine(l) == Tokens(line) && MeanLine(l) == t;
      var lead, pieces := TextGlue(line);
      TokensGlue(pieces);
      SkipGap(lead, Glue(pieces));
      assert Writes(l, lead, pieces, line);
    }
    forall l, lead, pieces | Writes(l, lead, pieces, line) && MeanLine(l) == t
      ensures Parses(line, t)
    {
      WrittenText(l, lead, pieces);
    }
  }

  ghost predicate Writes(l: WrittenLine, lead: string, pieces: seq<Piece>, line: string) {
    LineOk(l) && AllBlank(lead) && Spaced(pieces) && TokensOf(pieces) == SpellLine(l) && line == lead + Glue(pieces)
  }
}
