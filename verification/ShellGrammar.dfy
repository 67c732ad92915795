/** The grammar of command lines, over tokens, and what each line means. */
module ShellGrammar {
  import opened Shell

  // A token: a word, a symbol, or >>
  datatype Tok = W(w: string) | S(c: char) | Twice

  predicate TokOk(t: Tok) {
    match t
    case W(w) => w != "" && forall i :: 0 <= i < |w| ==> IsWordChar(w[i])
    case S(c) => IsSymbol(c)
    case Twice => true
  }

  predicate ToksOk(toks: seq<Tok>) {
    forall i :: 0 <= i < |toks| ==> TokOk(toks[i])
  }

  // A file and how it is opened
  type File = (string, Mode)

  // Words and redirections, in any order
  datatype Item = Arg(w: string) | Onto(f: File)

  datatype Prim = Simple(items: seq<Item>) | Block(inner: Line, files: seq<File>)
  datatype Pipeline = One(p: Prim) | Piped(p: Prim, rest: Pipeline)
  // A pipeline, any number of ampersands, and perhaps a semicolon and more
  datatype Line = Last(q: Pipeline, backs: nat) | Listed(q: Pipeline, backs: nat, rest: Line)

  // ---------- what is written ----------

  function RedirTok(m: Mode): Tok {
    match m
    case Read => S('<')
    case Truncate => S('>')
    case Append => Twice
  }

  function FileTok(f: File): seq<Tok> { [RedirTok(f.1), W(f.0)] }

  function FileToks(files: seq<File>): seq<Tok> {
    if files == [] then [] else FileTok(files[0]) + FileToks(files[1..])
  }

  function ItemTok(i: Item): seq<Tok> { if i.Arg? then [W(i.w)] else FileTok(i.f) }

  function ItemToks(items: seq<Item>): seq<Tok> {
    if items == [] then [] else ItemTok(items[0]) + ItemToks(items[1..])
  }

  function PrimToks(p: Prim): seq<Tok> {
    match p
    case Simple(items) => ItemToks(items)
    case Block(l, files) => [S('(')] + (LineToks(l) + ([S(')')] + FileToks(files)))
  }

  function PipeToks(q: Pipeline): seq<Tok> {
    match q
    case One(p) => PrimToks(p)
    case Piped(p, rest) => PrimToks(p) + ([S('|')] + PipeToks(rest))
  }

  function BackToks(n: nat): seq<Tok> {
    if n == 0 then [] else [S('&')] + BackToks(n - 1)
  }

  function LineToks(l: Line): seq<Tok> {
    match l
    case Last(q, n) => PipeToks(q) + BackToks(n)
    case Listed(q, n, rest) => PipeToks(q) + (BackToks(n) + ([S(';')] + LineToks(rest)))
  }

  // ---------- what it means ----------

  function Words(items: seq<Item>): seq<string> {
    if items == [] then [] else (if items[0].Arg? then [items[0].w] else []) + Words(items[1..])
  }

  function Files(items: seq<Item>): seq<File> {
    if items == [] then [] else (if items[0].Onto? then [items[0].f] else []) + Files(items[1..])
  }

  function PrimCmd(p: Prim): Cmd<string> {
    match p
    case Simple(items) => Wrap(Exec(Words(items)), Files(items))
    case Block(l, files) => Wrap(LineCmd(l), files)
  }

  function PipeCmd(q: Pipeline): Cmd<string> {
    match q
    case One(p) => PrimCmd(p)
    case Piped(p, rest) => Pipe(PrimCmd(p), PipeCmd(rest))
  }

  function Backed(c: Cmd<string>, n: nat): Cmd<string> {
    if n == 0 then c else Back(Backed(c, n - 1))
  }

  function LineCmd(l: Line): Cmd<string> {
    match l
    case Last(q, n) => Backed(PipeCmd(q), n)
    case Listed(q, n, rest) => List(Backed(PipeCmd(q), n), LineCmd(rest))
  }

  // At most nine words in a simple command, and all words made of word characters

  predicate PrimOk(p: Prim) {
    match p
    case Simple(items) => |Words(items)| < MAXARGS && ToksOk(ItemToks(items))
    case Block(l, files) => LineOk(l) && ToksOk(FileToks(files))
  }

  predicate PipeOk(q: Pipeline) {
    match q
    case One(p) => PrimOk(p)
    case Piped(p, rest) => PrimOk(p) && PipeOk(rest)
  }

  predicate LineOk(l: Line) {
    match l
    case Last(q, _) => PipeOk(q)
    case Listed(q, _, rest) => PipeOk(q) && LineOk(rest)
  }

  // ---------- the parser, over tokens ----------

  datatype Parsed<T> = Got(t: T, rest: seq<Tok>) | Fails

  predicate Redirects(toks: seq<Tok>) {
    toks != [] && (toks[0] == S('<') || toks[0] == S('>') || toks[0] == Twice)
  }

  function ModeTok(t: Tok): Mode {
    if t == S('<') then Read else if t == S('>') then Truncate else Append
  }

  predicate Next(toks: seq<Tok>, c: char) { toks != [] && toks[0] == S(c) }

  // The end of a simple command, of a pipeline, and of a line
  predicate AfterArgs(toks: seq<Tok>) { toks == [] || Next(toks, '|') || AfterPipe(toks) }
  predicate AfterPipe(toks: seq<Tok>) { toks == [] || Next(toks, ')') || Next(toks, '&') || Next(toks, ';') }
  predicate AfterLine(toks: seq<Tok>) { toks == [] || Next(toks, ')') }

  function TokRedirs(toks: seq<Tok>): (r: Parsed<seq<File>>)
    ensures r.Got? ==> |r.rest| <= |toks|
  {
    if !Redirects(toks) then Got([], toks)
    else if |toks| < 2 || !toks[1].W? then Fails
    else
      var r := TokRedirs(toks[2..]);
      if r.Fails? then Fails else Got([(toks[1].w, ModeTok(toks[0]))] + r.t, r.rest)
  }

  function TokArgs(toks: seq<Tok>, argc: nat): (r: Parsed<(seq<string>, seq<File>)>)
    ensures r.Got? ==> |r.rest| <= |toks|
    decreases |toks|
  {
    if AfterArgs(toks) then Got(([], []), toks)
    else if !toks[0].W? || argc + 1 >= MAXARGS then Fails
    else
      var rs := TokRedirs(toks[1..]);
      if rs.Fails? then Fails
      else
        var r := TokArgs(rs.rest, argc + 1);
        if r.Fails? then Fails else Got(([toks[0].w] + r.t.0, rs.t + r.t.1), r.rest)
  }

  function TokExec(toks: seq<Tok>): (r: Parsed<Cmd<string>>)
    ensures r.Got? ==> |r.rest| <= |toks|
    decreases |toks|, 0
  {
    if Next(toks, '(') then
      var c := TokLine(toks[1..]);
      if c.Fails? || !Next(c.rest, ')') then Fails
      else
        var rs := TokRedirs(c.rest[1..]);
        if rs.Fails? then Fails else Got(Wrap(c.t, rs.t), rs.rest)
    else
      var rs := TokRedirs(toks);
      if rs.Fails? then Fails
      else
        var a := TokArgs(rs.rest, 0);
        if a.Fails? then Fails else Got(Wrap(Exec(a.t.0), rs.t + a.t.1), a.rest)
  }

  function TokPipe(toks: seq<Tok>): (r: Parsed<Cmd<string>>)
    ensures r.Got? ==> |r.rest| <= |toks|
    decreases |toks|, 1
  {
    var c := TokExec(toks);
    if c.Fails? || !Next(c.rest, '|') then c
    else
      var d := TokPipe(c.rest[1..]);
      if d.Fails? then Fails else Got(Pipe(c.t, d.t), d.rest)
  }

  function TokBacks(c: Cmd<string>, toks: seq<Tok>): (r: (Cmd<string>, seq<Tok>))
    ensures |r.1| <= |toks|
    decreases |toks|
  {
    if Next(toks, '&') then TokBacks(Back(c), toks[1..]) else (c, toks)
  }

  function TokLine(toks: seq<Tok>): (r: Parsed<Cmd<string>>)
    ensures r.Got? ==> |r.rest| <= |toks|
    decreases |toks|, 2
  {
    var c := TokPipe(toks);
    if c.Fails? then Fails
    else
      var b := TokBacks(c.t, c.rest);
      if !Next(b.1, ';') then Got(b.0, b.1)
      else
        var d := TokLine(b.1[1..]);
        if d.Fails? then Fails else Got(List(b.0, d.t), d.rest)
  }

  // ---------- every line of the grammar is read as what it means ----------

  lemma Shift(t: Tok, a: seq<Tok>, b: seq<Tok>)
    ensures ([t] + a) + b == [t] + (a + b) && ([t] + a)[1..] == a
  {
  }

  lemma Assoc<T>(a: seq<T>, b: seq<T>, c: seq<T>)
    ensures (a + b) + c == a + (b + c)
  {
  }

  // An item before others
  lemma ItemFirst(i: Item, items: seq<Item>)
    ensures ItemToks([i] + items) == ItemTok(i) + ItemToks(items)
    ensures Words([i] + items) == (if i.Arg? then [i.w] else []) + Words(items)
    ensures Files([i] + items) == (if i.Onto? then [i.f] else []) + Files(items)
  {
    assert ([i] + items)[1..] == items;
  }

  lemma FileFirst(f: File, files: seq<File>)
    ensures FileToks([f] + files) == FileTok(f) + FileToks(files)
  {
    assert ([f] + files)[1..] == files;
  }

  // One redirection more
  lemma RedirRead(f: File, toks: seq<Tok>)
    requires TokRedirs(toks).Got?
    ensures TokRedirs(FileTok(f) + toks) == Got([f] + TokRedirs(toks).t, TokRedirs(toks).rest)
  {
    var all := FileTok(f) + toks;
    assert all[0] == RedirTok(f.1) && all[1] == W(f.0) && all[2..] == toks;
    RedirStep(all, f, toks);
  }

  lemma RedirStep(all: seq<Tok>, f: File, toks: seq<Tok>)
    requires |all| >= 2 && all[0] == RedirTok(f.1) && all[1] == W(f.0) && all[2..] == toks && TokRedirs(toks).Got?
    ensures TokRedirs(all) == Got([f] + TokRedirs(toks).t, TokRedirs(toks).rest)
  {
    assert ModeTok(all[0]) == f.1 && Redirects(all);
  }

  lemma {:induction false} RedirsRead(files: seq<File>, rest: seq<Tok>)
    requires !Redirects(rest)
    ensures TokRedirs(FileToks(files) + rest) == Got(files, rest)
  {
    if files == [] {
      assert FileToks(files) + rest == rest;
    } else {
      RedirsRead(files[1..], rest);
      RedirRead(files[0], FileToks(files[1..]) + rest);
      Assoc(FileTok(files[0]), FileToks(files[1..]), rest);
      assert [files[0]] + files[1..] == files;
    }
  }

  // The redirections before the first word
  lemma {:induction false} LeadRead(items: seq<Item>, rest: seq<Tok>) returns (files: seq<File>, later: seq<Item>)
    requires AfterArgs(rest)
    ensures TokRedirs(ItemToks(items) + rest) == Got(files, ItemToks(later) + rest)
    ensures files + Files(later) == Files(items) && Words(later) == Words(items) && |later| <= |items|
    ensures later == [] || later[0].Arg?
  {
    if items == [] || items[0].Arg? {
      files, later := [], items;
      NoLead(items, rest);
    } else {
      var f, fs := items[0].f, [];
      fs, later := LeadRead(items[1..], rest);
      files := [f] + fs;
      RedirRead(f, ItemToks(items[1..]) + rest);
      Assoc(FileTok(f), ItemToks(items[1..]), rest);
      Assoc([f], fs, Files(later));
    }
  }

  lemma NoLead(items: seq<Item>, rest: seq<Tok>)
    requires (items == [] || items[0].Arg?) && AfterArgs(rest)
    ensures TokRedirs(ItemToks(items) + rest) == Got([], ItemToks(items) + rest)
  {
    assert items == [] ==> ItemToks(items) + rest == rest;
    assert items != [] ==> (ItemToks(items) + rest)[0] == W(items[0].w);
  }

  lemma {:induction false} ArgsRead(items: seq<Item>, argc: nat, rest: seq<Tok>)
    requires (items == [] || items[0].Arg?) && argc + |Words(items)| < MAXARGS && AfterArgs(rest)
    ensures TokArgs(ItemToks(items) + rest, argc) == Got((Words(items), Files(items)), rest)
    decreases |items|
  {
    if items == [] {
      assert ItemToks(items) + rest == rest;
    } else {
      var w, more := items[0].w, ItemToks(items[1..]) + rest;
      var files, later := LeadRead(items[1..], rest);
      ArgsRead(later, argc + 1, rest);
      Shift(W(w), ItemToks(items[1..]), rest);
      ArgRead(w, more, argc, files, ItemToks(later) + rest, Words(later), Files(later), rest);
      assert Files(items) == [] + Files(items[1..]) == Files(items[1..]);
    }
  }

  // One word more, with the redirections after it
  lemma ArgRead(w: string, more: seq<Tok>, argc: nat, files: seq<File>, later: seq<Tok>, ws: seq<string>, fs: seq<File>,
      rest: seq<Tok>)
    requires TokRedirs(more) == Got(files, later) && argc + 1 < MAXARGS
    requires TokArgs(later, argc + 1) == Got((ws, fs), rest)
    ensures TokArgs([W(w)] + more, argc) == Got(([w] + ws, files + fs), rest)
  {
    Shift(W(w), more, []);
  }

  lemma SimpleRead(items: seq<Item>, rest: seq<Tok>)
    requires |Words(items)| < MAXARGS && AfterArgs(rest)
    ensures TokExec(ItemToks(items) + rest) == Got(PrimCmd(Simple(items)), rest)
  {
    var files, later := LeadRead(items, rest);
    ArgsRead(later, 0, rest);
    NoParen(items, rest);
  }

  lemma NoParen(items: seq<Item>, rest: seq<Tok>)
    requires AfterArgs(rest)
    ensures !Next(ItemToks(items) + rest, '(')
  {
    if items == [] {
      assert ItemToks(items) + rest == rest;
    }
  }

  lemma {:induction false} PrimRead(p: Prim, rest: seq<Tok>)
    requires PrimOk(p) && AfterArgs(rest)
    ensures TokExec(PrimToks(p) + rest) == Got(PrimCmd(p), rest)
    decreases p, 0
  {
    match p
    case Simple(items) => SimpleRead(items, rest);
    case Block(l, files) =>
      var after := [S(')')] + (FileToks(files) + rest);
      LineRead(l, after);
      RedirsRead(files, rest);
      BlockSplit(l, files, rest, after);
  }

  lemma BlockSplit(l: Line, files: seq<File>, rest: seq<Tok>, after: seq<Tok>)
    requires after == [S(')')] + (FileToks(files) + rest)
    ensures PrimToks(Block(l, files)) + rest == [S('(')] + (LineToks(l) + after)
    ensures (PrimToks(Block(l, files)) + rest)[1..] == LineToks(l) + after && after[1..] == FileToks(files) + rest
  {
    var inner := LineToks(l) + ([S(')')] + FileToks(files));
    Shift(S('('), inner, rest);
    assert inner + rest == LineToks(l) + after;
    Shift(S('('), LineToks(l) + after, []);
    Shift(S(')'), FileToks(files) + rest, []);
  }

  lemma {:induction false} PipeRead(q: Pipeline, rest: seq<Tok>)
    requires PipeOk(q) && AfterPipe(rest)
    ensures TokPipe(PipeToks(q) + rest) == Got(PipeCmd(q), rest)
    decreases q, 1
  {
    match q
    case One(p) => PrimRead(p, rest);
    case Piped(p, more) =>
      var after := [S('|')] + (PipeToks(more) + rest);
      PrimRead(p, after);
      PipeRead(more, rest);
      assert PipeToks(q) + rest == PrimToks(p) + after;
      Shift(S('|'), PipeToks(more) + rest, []);
  }

  lemma {:induction false} BacksRead(c: Cmd<string>, n: nat, m: nat, rest: seq<Tok>)
    requires !Next(rest, '&')
    ensures TokBacks(Backed(c, m), BackToks(n) + rest) == (Backed(c, m + n), rest)
    decreases n
  {
    if n == 0 {
      assert BackToks(n) + rest == rest;
    } else {
      BacksRead(c, n - 1, m + 1, rest);
      Shift(S('&'), BackToks(n - 1), rest);
      Shift(S('&'), BackToks(n - 1) + rest, []);
    }
  }

  lemma BacksEnd(n: nat, rest: seq<Tok>)
    requires AfterPipe(rest)
    ensures AfterPipe(BackToks(n) + rest)
  {
    if n == 0 {
      assert BackToks(n) + rest == rest;
    }
  }

  // The last of a line, after its pipeline and ampersands
  lemma LineEnds(toks: seq<Tok>, c: Cmd<string>, mid: seq<Tok>, b: Cmd<string>, rest: seq<Tok>)
    requires TokPipe(toks) == Got(c, mid) && TokBacks(c, mid) == (b, rest) && !Next(rest, ';')
    ensures TokLine(toks) == Got(b, rest)
  {
  }

  // ... or a semicolon and more
  lemma LineGoesOn(toks: seq<Tok>, c: Cmd<string>, mid: seq<Tok>, b: Cmd<string>, after: seq<Tok>, d: Cmd<string>,
      rest: seq<Tok>)
    requires TokPipe(toks) == Got(c, mid) && TokBacks(c, mid) == (b, after) && Next(after, ';')
    requires TokLine(after[1..]) == Got(d, rest)
    ensures TokLine(toks) == Got(List(b, d), rest)
  {
  }

  /** Every line of the grammar is read as what it means. */
  lemma {:induction false} LineRead(l: Line, rest: seq<Tok>)
    requires LineOk(l) && AfterLine(rest)
    ensures TokLine(LineToks(l) + rest) == Got(LineCmd(l), rest)
    decreases l, 2
  {
    match l
    case Last(q, n) =>
      BacksEnd(n, rest);
      PipeRead(q, BackToks(n) + rest);
      BacksRead(PipeCmd(q), n, 0, rest);
      Assoc(PipeToks(q), BackToks(n), rest);
      LineEnds(LineToks(l) + rest, PipeCmd(q), BackToks(n) + rest, LineCmd(l), rest);
    case Listed(q, n, more) =>
      ListRead(q, n, more, rest);
  }

  lemma {:induction false} ListRead(q: Pipeline, n: nat, more: Line, rest: seq<Tok>)
    requires PipeOk(q) && LineOk(more) && AfterLine(rest)
    ensures TokLine(LineToks(Listed(q, n, more)) + rest) == Got(LineCmd(Listed(q, n, more)), rest)
    decreases Listed(q, n, more), 1
  {
    var after := [S(';')] + (LineToks(more) + rest);
    BacksEnd(n, after);
    PipeRead(q, BackToks(n) + after);
    BacksRead(PipeCmd(q), n, 0, after);
    LineRead(more, rest);
    ListSplit(q, n, more, rest, after);
    LineGoesOn(PipeToks(q) + (BackToks(n) + after), PipeCmd(q), BackToks(n) + after, Backed(PipeCmd(q), n), after,
      LineCmd(more), rest);
  }

  lemma ListSplit(q: Pipeline, n: nat, more: Line, rest: seq<Tok>, after: seq<Tok>)
    requires after == [S(';')] + (LineToks(more) + rest)
    ensures LineToks(Listed(q, n, more)) + rest == PipeToks(q) + (BackToks(n) + after)
    ensures after[1..] == LineToks(more) + rest
  {
    var tail := [S(';')] + LineToks(more);
    Assoc(PipeToks(q), BackToks(n) + tail, rest);
    Assoc(BackToks(n), tail, rest);
    Shift(S(';'), LineToks(more), rest);
  }

  // ---------- nothing else is accepted ----------

  lemma {:induction false} RedirsSound(toks: seq<Tok>)
    requires TokRedirs(toks).Got?
    ensures var r := TokRedirs(toks); toks == FileToks(r.t) + r.rest
  {
    if Redirects(toks) {
      RedirsSound(toks[2..]);
      var r := TokRedirs(toks[2..]);
      var f := (toks[1].w, ModeTok(toks[0]));
      FileFirst(f, r.t);
      assert toks == FileTok(f) + toks[2..];
      Assoc(FileTok(f), FileToks(r.t), r.rest);
    } else {
      assert toks == FileToks([]) + toks;
    }
  }

  // Redirections are items
  function Ontos(files: seq<File>, items: seq<Item>): seq<Item> {
    if files == [] then items else [Onto(files[0])] + Ontos(files[1..], items)
  }

  lemma {:induction false} OntosBefore(files: seq<File>, items: seq<Item>)
    ensures var all := Ontos(files, items);
            && ItemToks(all) == FileToks(files) + ItemToks(items)
            && Words(all) == Words(items) && Files(all) == files + Files(items)
  {
    if files == [] {
      assert ItemToks(items) == [] + ItemToks(items) && Files(items) == [] + Files(items);
    } else {
      var f, more := files[0], files[1..];
      OntosBefore(more, items);
      ItemFirst(Onto(f), Ontos(more, items));
      Assoc(FileTok(f), FileToks(more), ItemToks(items));
      Assoc([f], more, Files(items));
      assert files == [f] + more;
    }
  }

  lemma {:induction false} ArgsSound(toks: seq<Tok>, argc: nat) returns (items: seq<Item>)
    requires TokArgs(toks, argc).Got? && argc < MAXARGS
    ensures var r := TokArgs(toks, argc);
            && toks == ItemToks(items) + r.rest && r.t == (Words(items), Files(items))
            && argc + |Words(items)| < MAXARGS
    decreases |toks|
  {
    if AfterArgs(toks) {
      items := [];
      assert toks == ItemToks(items) + toks;
    } else {
      var rs := TokRedirs(toks[1..]);
      RedirsSound(toks[1..]);
      var later := ArgsSound(rs.rest, argc + 1);
      items := ArgSound(toks, rs.t, rs.rest, later, TokArgs(toks, argc).rest);
    }
  }

  // A word and the redirections after it, before other items
  lemma ArgSound(toks: seq<Tok>, files: seq<File>, mid: seq<Tok>, later: seq<Item>, rest: seq<Tok>)
      returns (items: seq<Item>)
    requires toks != [] && toks[0].W? && toks[1..] == FileToks(files) + mid && mid == ItemToks(later) + rest
    ensures toks == ItemToks(items) + rest && Words(items) == [toks[0].w] + Words(later)
    ensures Files(items) == files + Files(later)
  {
    var more := Ontos(files, later);
    items := [Arg(toks[0].w)] + more;
    OntosBefore(files, later);
    ItemFirst(Arg(toks[0].w), more);
    Assoc(FileToks(files), ItemToks(later), rest);
    assert toks == [toks[0]] + toks[1..];
    Shift(toks[0], ItemToks(more), rest);
    assert Files(items) == [] + Files(more) == Files(more);
  }

  lemma Part(a: seq<Tok>, b: seq<Tok>, toks: seq<Tok>)
    requires toks == a + b && ToksOk(toks)
    ensures ToksOk(a) && ToksOk(b)
  {
    assert forall i :: 0 <= i < |a| ==> a[i] == toks[i];
    assert forall i :: 0 <= i < |b| ==> b[i] == toks[|a| + i];
  }

  lemma {:induction false} ExecSound(toks: seq<Tok>) returns (p: Prim)
    requires TokExec(toks).Got? && ToksOk(toks)
    ensures var r := TokExec(toks); toks == PrimToks(p) + r.rest && r.t == PrimCmd(p) && PrimOk(p) && ToksOk(r.rest)
    decreases |toks|, 0
  {
    if Next(toks, '(') {
      p := BlockSound(toks);
    } else {
      var rs := TokRedirs(toks);
      RedirsSound(toks);
      var items := ArgsSound(rs.rest, 0);
      var all, rest := Ontos(rs.t, items), TokArgs(rs.rest, 0).rest;
      OntosBefore(rs.t, items);
      Assoc(FileToks(rs.t), ItemToks(items), rest);
      Part(ItemToks(all), rest, toks);
      p := Simple(all);
    }
  }

  // The first token and the others
  lemma Tail(c: char, toks: seq<Tok>)
    requires Next(toks, c)
    ensures toks == [S(c)] + toks[1..] && (ToksOk(toks) ==> ToksOk(toks[1..]))
  {
  }

  lemma BlockGot(toks: seq<Tok>)
    requires TokExec(toks).Got? && Next(toks, '(')
    ensures var c := TokLine(toks[1..]);
            && c.Got? && Next(c.rest, ')')
            && var rs := TokRedirs(c.rest[1..]); rs.Got? && TokExec(toks) == Got(Wrap(c.t, rs.t), rs.rest)
  {
  }

  lemma BlockIs(toks: seq<Tok>, l: Line, mid: seq<Tok>, files: seq<File>, rest: seq<Tok>)
    requires Next(toks, '(') && toks[1..] == LineToks(l) + mid && Next(mid, ')') && mid[1..] == FileToks(files) + rest
    ensures toks == PrimToks(Block(l, files)) + rest
  {
    Tail('(', toks);
    Tail(')', mid);
    BlockSplit(l, files, rest, mid);
  }

  lemma {:induction false} BlockSound(toks: seq<Tok>) returns (p: Prim)
    requires TokExec(toks).Got? && ToksOk(toks) && Next(toks, '(')
    ensures var r := TokExec(toks); toks == PrimToks(p) + r.rest && r.t == PrimCmd(p) && PrimOk(p) && ToksOk(r.rest)
    decreases |toks|, -1
  {
    BlockGot(toks);
    Tail('(', toks);
    var l := LineSound(toks[1..]);
    var c := TokLine(toks[1..]);
    Tail(')', c.rest);
    var rs := TokRedirs(c.rest[1..]);
    RedirsSound(c.rest[1..]);
    Part(FileToks(rs.t), rs.rest, c.rest[1..]);
    p := Block(l, rs.t);
    BlockIs(toks, l, c.rest, rs.t, rs.rest);
  }

  lemma PipeGot(toks: seq<Tok>)
    requires TokPipe(toks).Got?
    ensures var c := TokExec(toks);
            && c.Got? && (!Next(c.rest, '|') ==> TokPipe(toks) == c)
            && (Next(c.rest, '|') ==>
                  var d := TokPipe(c.rest[1..]); d.Got? && TokPipe(toks) == Got(Pipe(c.t, d.t), d.rest))
  {
  }

  lemma PipeIs(toks: seq<Tok>, p: Prim, mid: seq<Tok>, more: Pipeline, rest: seq<Tok>)
    requires toks == PrimToks(p) + mid && Next(mid, '|') && mid[1..] == PipeToks(more) + rest
    ensures toks == PipeToks(Piped(p, more)) + rest
  {
    Tail('|', mid);
    Shift(S('|'), PipeToks(more), rest);
    Assoc(PrimToks(p), [S('|')] + PipeToks(more), rest);
  }

  lemma {:induction false} PipeSound(toks: seq<Tok>) returns (q: Pipeline)
    requires TokPipe(toks).Got? && ToksOk(toks)
    ensures var r := TokPipe(toks); toks == PipeToks(q) + r.rest && r.t == PipeCmd(q) && PipeOk(q) && ToksOk(r.rest)
    decreases |toks|, 1
  {
    PipeGot(toks);
    var p := ExecSound(toks);
    var c := TokExec(toks);
    if Next(c.rest, '|') {
      Tail('|', c.rest);
      var more := PipeSound(c.rest[1..]);
      q := Piped(p, more);
      PipeIs(toks, p, c.rest, more, TokPipe(c.rest[1..]).rest);
    } else {
      q := One(p);
    }
  }

  lemma {:induction false} BacksSound(c: Cmd<string>, toks: seq<Tok>, m: nat) returns (n: nat)
    requires ToksOk(toks)
    ensures var r := TokBacks(Backed(c, m), toks);
            toks == BackToks(n) + r.1 && r.0 == Backed(c, m + n) && ToksOk(r.1)
    decreases |toks|
  {
    if Next(toks, '&') {
      Part(toks[..1], toks[1..], toks);
      n := BacksSound(c, toks[1..], m + 1);
      n := n + 1;
      assert toks == [S('&')] + toks[1..];
    } else {
      n := 0;
    }
  }

  lemma BackedSound(c: Cmd<string>, toks: seq<Tok>) returns (n: nat)
    requires ToksOk(toks)
    ensures var r := TokBacks(c, toks); toks == BackToks(n) + r.1 && r.0 == Backed(c, n) && ToksOk(r.1)
  {
    n := BacksSound(c, toks, 0);
  }

  /** What is accepted is a line of the grammar, with that meaning. */
  lemma {:induction false} LineSound(toks: seq<Tok>) returns (l: Line)
    requires TokLine(toks).Got? && ToksOk(toks)
    ensures var r := TokLine(toks); toks == LineToks(l) + r.rest && r.t == LineCmd(l) && LineOk(l) && ToksOk(r.rest)
    decreases |toks|, 2
  {
    var q := PipeSound(toks);
    var c := TokPipe(toks);
    var n := BackedSound(c.t, c.rest);
    var b := TokBacks(c.t, c.rest);
    if Next(b.1, ';') {
      Part(b.1[..1], b.1[1..], b.1);
      var d := TokLine(b.1[1..]);
      var more := LineSound(b.1[1..]);
      l := Listed(q, n, more);
      LineGoesOn(toks, c.t, c.rest, b.0, b.1, d.t, d.rest);
      ListSound(toks, q, n, c.rest, b.1, more, d.rest);
    } else {
      LineEnds(toks, c.t, c.rest, b.0, b.1);
      l := Last(q, n);
      Assoc(PipeToks(q), BackToks(n), b.1);
    }
  }

  lemma ListSound(toks: seq<Tok>, q: Pipeline, n: nat, mid: seq<Tok>, after: seq<Tok>, more: Line, rest: seq<Tok>)
    requires toks == PipeToks(q) + mid && mid == BackToks(n) + after && Next(after, ';')
    requires after[1..] == LineToks(more) + rest
    ensures toks == LineToks(Listed(q, n, more)) + rest
  {
    assert after == [S(';')] + after[1..];
    ListSplit(q, n, more, rest, after);
  }
}
