/** Lines of characters that spell the tokens of the grammar, and what parsecmd makes of them. */
module ShellSpelling {
  import opened Shell
  import opened ShellGrammar

  function Str(t: Tok): string {
    match t
    case W(w) => w
    case S(c) => [c]
    case Twice => ">>"
  }

  function Kind(t: Tok): char {
    match t
    case W(_) => 'a'
    case S(c) => c
    case Twice => '+'
  }

  // The token would not end before c
  predicate Joins(t: Tok, c: char) {
    (t.W? && IsWordChar(c)) || (t == S('>') && c == '>')
  }

  predicate TokenAt(line: string, i: nat, t: Tok) {
    && TokOk(t) && i + |Str(t)| <= |line| && line[i..i + |Str(t)|] == Str(t)
    && !Joins(t, At(line, i + |Str(t)|))
  }

  // From i on the line is these tokens, with any spaces after them
  predicate SpellsFrom(line: string, i: nat, toks: seq<Tok>)
    decreases |toks|
  {
    if toks == [] then i == |line|
    else TokenAt(line, i, toks[0]) && SpellsFrom(line, Skip(line, i + |Str(toks[0])|), toks[1..])
  }

  /** The line is these tokens, with any spaces before and after each; where two would run into one
      there is at least one space. */
  predicate Spells(line: string, toks: seq<Tok>) {
    IsLine(line) && SpellsFrom(line, Skip(line, 0), toks)
  }

  // ---------- gettoken and peek ----------

  lemma {:induction false} WordEndsAt(line: string, i: nat, n: nat)
    requires IsLine(line) && i + n <= |line| && (forall j :: i <= j < i + n ==> IsWordChar(line[j]))
    requires !IsWordChar(At(line, i + n))
    ensures WordEnd(line, i) == i + n
    decreases n
  {
    if n > 0 {
      WordEndsAt(line, i + 1, n - 1);
    } else if i < |line| {
      assert line[i] in line;
    }
  }

  lemma FirstChar(line: string, i: nat, t: Tok)
    requires TokenAt(line, i, t)
    ensures i < |line| && Str(t) != "" && line[i] == Str(t)[0] && Skip(line, i) == i
  {
    assert Str(t) != "";
    assert line[i] == line[i..i + |Str(t)|][0];
  }

  lemma WordChars(line: string, i: nat, w: string)
    requires TokenAt(line, i, W(w))
    ensures forall j :: i <= j < i + |w| ==> IsWordChar(line[j])
  {
    forall j | i <= j < i + |w|
      ensures IsWordChar(line[j])
    {
      assert line[i..i + |w|][j - i] == w[j - i];
    }
  }

  lemma GettokWord(line: string, i: nat, e: nat)
    requires i < e <= |line| && IsWordChar(line[i]) && WordEnd(line, i) == e
    ensures Gettok(line, i) == Token('a', i, e, Skip(line, e))
  {
  }

  lemma LexesWord(line: string, i: nat, w: string)
    requires IsLine(line) && TokenAt(line, i, W(w))
    ensures Gettok(line, i) == Token('a', i, i + |w|, Skip(line, i + |w|))
  {
    WordChars(line, i, w);
    WordEndsAt(line, i, |w|);
    GettokWord(line, i, i + |w|);
  }

  lemma LexesSymbol(line: string, i: nat, t: Tok)
    requires TokenAt(line, i, t) && !t.W?
    ensures Gettok(line, i) == Token(Kind(t), i, i + |Str(t)|, Skip(line, i + |Str(t)|))
  {
    FirstChar(line, i, t);
    if t.Twice? {
      assert line[i + 1] == line[i..i + 2][1];
    }
  }

  /** gettoken finds the first token and the place of the others. */
  lemma Lexes(line: string, i: nat, toks: seq<Tok>)
    requires IsLine(line) && SpellsFrom(line, i, toks)
    ensures i <= |line| && Skip(line, i) == i
    ensures toks == [] ==> i == |line| && Gettok(line, i) == Token('\0', i, i, i)
    ensures toks != [] ==>
              && TokOk(toks[0]) && SpellsFrom(line, Gettok(line, i).next, toks[1..])
              && Gettok(line, i).kind == Kind(toks[0]) && Gettok(line, i).q == i
              && Gettok(line, i).eq == i + |Str(toks[0])| && Slice(line, Word(i, i + |Str(toks[0])|)) == Str(toks[0])
  {
    if toks != [] {
      FirstChar(line, i, toks[0]);
      if toks[0].W? {
        LexesWord(line, i, toks[0].w);
      } else {
        LexesSymbol(line, i, toks[0]);
      }
    }
  }

  // What peek finds
  lemma Peeks(line: string, i: nat, toks: seq<Tok>)
    requires IsLine(line) && SpellsFrom(line, i, toks)
    ensures Peek(line, i, {'('}) <==> Next(toks, '(')
    ensures Peek(line, i, {')'}) <==> Next(toks, ')')
    ensures Peek(line, i, {'|'}) <==> Next(toks, '|')
    ensures Peek(line, i, {'&'}) <==> Next(toks, '&')
    ensures Peek(line, i, {';'}) <==> Next(toks, ';')
    ensures Peek(line, i, {'<', '>'}) <==> Redirects(toks)
    ensures toks != [] ==> (Peek(line, i, {'|', ')', '&', ';'}) <==> AfterArgs(toks))
    ensures toks == [] ==> !Peek(line, i, {'|', ')', '&', ';'})
  {
    if toks != [] {
      FirstChar(line, i, toks[0]);
      assert line[i] in line;
      assert toks[0].W? ==> IsWordChar(toks[0].w[0]);
    }
  }

  // ---------- the parser over characters does what the one over tokens does ----------

  function FileTexts(line: string, rs: seq<(Word, Mode)>): seq<File> {
    if rs == [] then [] else [(Slice(line, rs[0].0), rs[0].1)] + FileTexts(line, rs[1..])
  }

  lemma {:induction false} FileTextsTwo(line: string, a: seq<(Word, Mode)>, b: seq<(Word, Mode)>)
    ensures FileTexts(line, a + b) == FileTexts(line, a) + FileTexts(line, b)
  {
    if a == [] {
      assert a + b == b;
    } else {
      FileTextsTwo(line, a[1..], b);
      assert (a + b)[1..] == a[1..] + b;
    }
  }

  lemma {:induction false} WrapText(line: string, c: Cmd<Word>, rs: seq<(Word, Mode)>)
    ensures Text(line, Wrap(c, rs)) == Wrap(Text(line, c), FileTexts(line, rs))
    decreases |rs|
  {
    if rs != [] {
      var d := Redir(c, rs[0].0, rs[0].1);
      WrapText(line, d, rs[1..]);
      var fs := FileTexts(line, rs);
      assert fs[1..] == FileTexts(line, rs[1..]);
    }
  }

  ghost predicate SameRedirs(line: string, r: Redirs, p: Parsed<seq<File>>) {
    if p.Fails? then r.NoFile?
    else r.Redirs? && FileTexts(line, r.list) == p.t && SpellsFrom(line, r.pos, p.rest)
  }

  lemma {:induction false} RedirsSame(line: string, i: nat, toks: seq<Tok>)
    requires IsLine(line) && SpellsFrom(line, i, toks)
    ensures i <= |line| && SameRedirs(line, ParseRedirs(line, i), TokRedirs(toks))
    decreases |toks|
  {
    if !Redirects(toks) {
      NoRedirs(line, i, toks);
    } else if |toks| < 2 || !toks[1].W? {
      BadRedirs(line, i, toks);
    } else {
      FirstRedir(line, i, toks);
      var next := Gettok(line, Gettok(line, i).next).next;
      RedirsSame(line, next, toks[2..]);
      RedirMore(line, i, toks, ParseRedirs(line, next), TokRedirs(toks[2..]));
    }
  }

  lemma NoRedirs(line: string, i: nat, toks: seq<Tok>)
    requires IsLine(line) && SpellsFrom(line, i, toks) && !Redirects(toks)
    ensures i <= |line| && ParseRedirs(line, i) == Redirs([], i) && TokRedirs(toks) == Got([], toks)
  {
    Lexes(line, i, toks);
    Peeks(line, i, toks);
  }

  // A symbol for redirection, and what comes after it
  lemma RedirSymbol(line: string, i: nat, toks: seq<Tok>)
    requires IsLine(line) && SpellsFrom(line, i, toks) && Redirects(toks)
    ensures i <= |line| && Peek(line, i, {'<', '>'}) && ModeOf(Gettok(line, i).kind) == ModeTok(toks[0])
    ensures SpellsFrom(line, Gettok(line, i).next, toks[1..])
  {
    Lexes(line, i, toks);
    Peeks(line, i, toks);
  }

  lemma BadRedirs(line: string, i: nat, toks: seq<Tok>)
    requires IsLine(line) && SpellsFrom(line, i, toks) && Redirects(toks) && (|toks| < 2 || !toks[1].W?)
    ensures i <= |line| && ParseRedirs(line, i) == NoFile && TokRedirs(toks) == Fails
  {
    RedirSymbol(line, i, toks);
    Lexes(line, Gettok(line, i).next, toks[1..]);
    if |toks| >= 2 {
      FileKind(toks[1]);
    }
  }

  lemma FirstRedir(line: string, i: nat, toks: seq<Tok>)
    requires IsLine(line) && SpellsFrom(line, i, toks) && Redirects(toks) && |toks| >= 2 && toks[1].W?
    ensures i <= |line| && Peek(line, i, {'<', '>'}) && ModeOf(Gettok(line, i).kind) == ModeTok(toks[0])
    ensures var f := Gettok(line, Gettok(line, i).next);
            f.kind == 'a' && Slice(line, Word(f.q, f.eq)) == toks[1].w && SpellsFrom(line, f.next, toks[2..])
  {
    RedirSymbol(line, i, toks);
    Lexes(line, Gettok(line, i).next, toks[1..]);
    assert toks[1..][1..] == toks[2..];
  }

  lemma RedirMore(line: string, i: nat, toks: seq<Tok>, r: Redirs, p: Parsed<seq<File>>)
    requires IsLine(line) && i <= |line| && Redirects(toks) && |toks| >= 2 && toks[1].W? && Peek(line, i, {'<', '>'})
    requires ModeOf(Gettok(line, i).kind) == ModeTok(toks[0])
    requires var f := Gettok(line, Gettok(line, i).next);
             f.kind == 'a' && Slice(line, Word(f.q, f.eq)) == toks[1].w && r == ParseRedirs(line, f.next)
    requires p == TokRedirs(toks[2..]) && SameRedirs(line, r, p)
    ensures SameRedirs(line, ParseRedirs(line, i), TokRedirs(toks))
  {
    var f, m := Gettok(line, Gettok(line, i).next), ModeTok(toks[0]);
    if r.Redirs? {
      FileTextFirst(line, (Word(f.q, f.eq), m), r.list);
      assert ParseRedirs(line, i) == Redirs([(Word(f.q, f.eq), m)] + r.list, r.pos);
      assert TokRedirs(toks) == Got([(toks[1].w, m)] + p.t, p.rest);
    }
  }

  lemma FileTextFirst(line: string, x: (Word, Mode), rs: seq<(Word, Mode)>)
    ensures FileTexts(line, [x] + rs) == [(Slice(line, x.0), x.1)] + FileTexts(line, rs)
  {
    assert ([x] + rs)[1..] == rs;
  }

  lemma FileKind(t: Tok)
    requires TokOk(t)
    ensures Kind(t) == 'a' <==> t.W?
  {
  }

  ghost predicate SameArgs(line: string, a: Args, p: Parsed<(seq<string>, seq<File>)>) {
    if p.Fails? then a.BadArgs?
    else
      && a.Args? && Slices(line, a.argv) == p.t.0 && FileTexts(line, a.redirs) == p.t.1
      && SpellsFrom(line, a.pos, p.rest)
  }

  lemma {:induction false} ArgsSame(line: string, i: nat, toks: seq<Tok>, argc: nat)
    requires IsLine(line) && SpellsFrom(line, i, toks)
    ensures i <= |line| && SameArgs(line, ParseArgs(line, i, argc), TokArgs(toks, argc))
    decreases |toks|, 1
  {
    if AfterArgs(toks) {
      NoArgs(line, i, toks, argc);
    } else if toks[0].W? && argc + 1 < MAXARGS {
      ArgSame(line, i, toks, argc);
    } else {
      NoMoreArgs(line, i, toks, argc);
    }
  }

  lemma {:induction false} ArgSame(line: string, i: nat, toks: seq<Tok>, argc: nat)
    requires IsLine(line) && SpellsFrom(line, i, toks) && !AfterArgs(toks) && toks[0].W? && argc + 1 < MAXARGS
    ensures i <= |line| && SameArgs(line, ParseArgs(line, i, argc), TokArgs(toks, argc))
    decreases |toks|, 0
  {
    FirstArg(line, i, toks);
    var t := Gettok(line, i);
    RedirsSame(line, t.next, toks[1..]);
    var rs, r := ParseRedirs(line, t.next), TokRedirs(toks[1..]);
    if r.Fails? {
      NoFileArgs(line, i, toks, argc);
    } else {
      ArgsSame(line, rs.pos, r.rest, argc + 1);
      var a, b := ParseArgs(line, rs.pos, argc + 1), TokArgs(r.rest, argc + 1);
      ParseArgsIs(line, i, argc, t, rs, a);
      TokArgsIs(toks, argc, r, b);
      ArgMore(line, t, rs, a, toks[0].w, r, b);
    }
  }

  lemma NoFileArgs(line: string, i: nat, toks: seq<Tok>, argc: nat)
    requires IsLine(line) && SpellsFrom(line, i, toks) && !AfterArgs(toks) && toks[0].W?
    requires i <= |line| && TokRedirs(toks[1..]).Fails? && ParseRedirs(line, Gettok(line, i).next).NoFile?
    ensures ParseArgs(line, i, argc) == BadArgs && TokArgs(toks, argc) == Fails
  {
    FirstArg(line, i, toks);
  }

  // What gettoken finds where an argument may be
  lemma FirstArg(line: string, i: nat, toks: seq<Tok>)
    requires IsLine(line) && SpellsFrom(line, i, toks) && !AfterArgs(toks)
    ensures i <= |line| && !Peek(line, i, {'|', ')', '&', ';'})
    ensures var t := Gettok(line, i);
            && SpellsFrom(line, t.next, toks[1..]) && t.kind != '\0' && (t.kind == 'a' <==> toks[0].W?)
            && (toks[0].W? ==> Slice(line, Word(t.q, t.eq)) == toks[0].w)
  {
    Lexes(line, i, toks);
    Peeks(line, i, toks);
    FileKind(toks[0]);
  }

  lemma NoMoreArgs(line: string, i: nat, toks: seq<Tok>, argc: nat)
    requires IsLine(line) && SpellsFrom(line, i, toks) && !AfterArgs(toks) && (!toks[0].W? || argc + 1 >= MAXARGS)
    ensures i <= |line| && ParseArgs(line, i, argc) == BadArgs && TokArgs(toks, argc) == Fails
  {
    FirstArg(line, i, toks);
  }

  lemma ParseArgsIs(line: string, i: nat, argc: nat, t: Token, rs: Redirs, a: Args)
    requires IsLine(line) && i <= |line| && !Peek(line, i, {'|', ')', '&', ';'})
    requires t == Gettok(line, i) && t.kind == 'a'
    requires argc + 1 < MAXARGS && rs == ParseRedirs(line, t.next) && rs.Redirs?
    requires a == ParseArgs(line, rs.pos, argc + 1)
    ensures ParseArgs(line, i, argc)
         == if a.BadArgs? then BadArgs else Args([Word(t.q, t.eq)] + a.argv, rs.list + a.redirs, a.pos)
  {
  }

  lemma TokArgsIs(toks: seq<Tok>, argc: nat, r: Parsed<seq<File>>, b: Parsed<(seq<string>, seq<File>)>)
    requires !AfterArgs(toks) && toks[0].W? && argc + 1 < MAXARGS && r == TokRedirs(toks[1..]) && r.Got?
    requires b == TokArgs(r.rest, argc + 1)
    ensures TokArgs(toks, argc) == if b.Fails? then Fails else Got(([toks[0].w] + b.t.0, r.t + b.t.1), b.rest)
  {
  }

  lemma NoArgs(line: string, i: nat, toks: seq<Tok>, argc: nat)
    requires IsLine(line) && SpellsFrom(line, i, toks) && AfterArgs(toks)
    ensures i <= |line| && ParseArgs(line, i, argc) == Args([], [], i) && TokArgs(toks, argc) == Got(([], []), toks)
  {
    Lexes(line, i, toks);
    Peeks(line, i, toks);
  }

  // One word more, with the redirections after it
  lemma ArgMore(line: string, t: Token, rs: Redirs, a: Args, w: string, r: Parsed<seq<File>>,
      b: Parsed<(seq<string>, seq<File>)>)
    requires rs.Redirs? && r.Got? && SameRedirs(line, rs, r) && SameArgs(line, a, b)
    requires Slice(line, Word(t.q, t.eq)) == w
    ensures a.Args? <==> b.Got?
    ensures a.Args? ==> SameArgs(line, Args([Word(t.q, t.eq)] + a.argv, rs.list + a.redirs, a.pos),
                                 Got(([w] + b.t.0, r.t + b.t.1), b.rest))
  {
    if a.Args? {
      FileTextsTwo(line, rs.list, a.redirs);
      SlicesMore(line, Word(t.q, t.eq), a.argv);
    }
  }

  lemma SlicesMore(line: string, v: Word, vs: seq<Word>)
    ensures Slices(line, [v] + vs) == [Slice(line, v)] + Slices(line, vs)
  {
    assert ([v] + vs)[1..] == vs;
  }

  ghost predicate Same(line: string, r: Result, p: Parsed<Cmd<string>>) {
    if p.Fails? then r.Panic? else r.Ok? && Text(line, r.cmd) == p.t && SpellsFrom(line, r.pos, p.rest)
  }

  lemma {:induction false} ExecSame(line: string, i: nat, toks: seq<Tok>)
    requires IsLine(line) && SpellsFrom(line, i, toks)
    ensures i <= |line| && Same(line, ParseExec(line, i), TokExec(toks))
    decreases |toks|, 1
  {
    Lexes(line, i, toks);
    Peeks(line, i, toks);
    if Next(toks, '(') {
      BlockSame(line, i, toks);
    } else {
      SimpleSame(line, i, toks);
    }
  }

  lemma SimpleSame(line: string, i: nat, toks: seq<Tok>)
    requires IsLine(line) && SpellsFrom(line, i, toks) && i <= |line| && !Peek(line, i, {'('}) && !Next(toks, '(')
    ensures Same(line, ParseExec(line, i), TokExec(toks))
  {
    RedirsSame(line, i, toks);
    var rs, r := ParseRedirs(line, i), TokRedirs(toks);
    if r.Got? {
      ArgsSame(line, rs.pos, r.rest, 0);
      var a := ParseArgs(line, rs.pos, 0);
      if a.Args? {
        FileTextsTwo(line, rs.list, a.redirs);
        WrapText(line, Exec(a.argv), rs.list + a.redirs);
      }
    }
  }

  lemma {:induction false} BlockSame(line: string, i: nat, toks: seq<Tok>)
    requires IsLine(line) && SpellsFrom(line, i, toks) && Next(toks, '(')
    ensures i <= |line| && Same(line, ParseBlock(line, i), TokExec(toks))
    decreases |toks|, 0
  {
    Lexes(line, i, toks);
    Peeks(line, i, toks);
    LineSame(line, Gettok(line, i).next, toks[1..]);
    var c, d := ParseLine(line, Gettok(line, i).next), TokLine(toks[1..]);
    if d.Got? {
      Lexes(line, c.pos, d.rest);
      Peeks(line, c.pos, d.rest);
      if Next(d.rest, ')') {
        RedirsSame(line, Gettok(line, c.pos).next, d.rest[1..]);
        var rs := ParseRedirs(line, Gettok(line, c.pos).next);
        if rs.Redirs? {
          WrapText(line, c.cmd, rs.list);
        }
      }
    }
  }

  lemma {:induction false} PipeSame(line: string, i: nat, toks: seq<Tok>)
    requires IsLine(line) && SpellsFrom(line, i, toks)
    ensures i <= |line| && Same(line, ParsePipe(line, i), TokPipe(toks))
    decreases |toks|, 2
  {
    ExecSame(line, i, toks);
    var c, d := ParseExec(line, i), TokExec(toks);
    if d.Got? {
      Lexes(line, c.pos, d.rest);
      Peeks(line, c.pos, d.rest);
      if Next(d.rest, '|') {
        PipeSame(line, Gettok(line, c.pos).next, d.rest[1..]);
      }
    }
  }

  lemma {:induction false} BacksSame(line: string, c: Cmd<Word>, i: nat, toks: seq<Tok>)
    requires IsLine(line) && SpellsFrom(line, i, toks)
    ensures i <= |line|
    ensures var b, d := Backs(line, c, i), TokBacks(Text(line, c), toks);
            Text(line, b.0) == d.0 && SpellsFrom(line, b.1, d.1)
    decreases |toks|
  {
    Lexes(line, i, toks);
    Peeks(line, i, toks);
    if Next(toks, '&') {
      var next, t := Gettok(line, i).next, Text(line, c);
      BacksSame(line, Back(c), next, toks[1..]);
      BackNext(line, c, i, toks, t);
    } else {
      assert Backs(line, c, i) == (c, i);
    }
  }

  lemma BackNext(line: string, c: Cmd<Word>, i: nat, toks: seq<Tok>, t: Cmd<string>)
    requires IsLine(line) && i <= |line| && Peek(line, i, {'&'}) && Next(toks, '&') && t == Text(line, c)
    ensures Backs(line, c, i) == Backs(line, Back(c), Gettok(line, i).next)
    ensures TokBacks(t, toks) == TokBacks(Text(line, Back(c)), toks[1..])
  {
    assert Text(line, Back(c)) == Back(t);
  }

  /** On a line that spells tokens the parser does what the grammar's does. */
  lemma {:induction false} LineSame(line: string, i: nat, toks: seq<Tok>)
    requires IsLine(line) && SpellsFrom(line, i, toks)
    ensures i <= |line| && Same(line, ParseLine(line, i), TokLine(toks))
    decreases |toks|, 4
  {
    PipeSame(line, i, toks);
    var c, d := ParsePipe(line, i), TokPipe(toks);
    if d.Got? {
      BacksSame(line, c.cmd, c.pos, d.rest);
      ListSame(line, i, toks, c, d, Backs(line, c.cmd, c.pos), TokBacks(d.t, d.rest));
    }
  }

  lemma {:induction false} ListSame(line: string, i: nat, toks: seq<Tok>, c: Result, d: Parsed<Cmd<string>>,
      b: (Cmd<Word>, nat), e: (Cmd<string>, seq<Tok>))
    requires IsLine(line) && SpellsFrom(line, i, toks) && i <= |line| && c == ParsePipe(line, i) && d == TokPipe(toks)
    requires c.Ok? && d.Got? && b == Backs(line, c.cmd, c.pos) && e == TokBacks(d.t, d.rest)
    requires Text(line, b.0) == e.0 && SpellsFrom(line, b.1, e.1)
    ensures Same(line, ParseLine(line, i), TokLine(toks))
    decreases |toks|, 3
  {
    Lexes(line, b.1, e.1);
    Peeks(line, b.1, e.1);
    if Next(e.1, ';') {
      var next := Gettok(line, b.1).next;
      LineSame(line, next, e.1[1..]);
      ListParsed(line, i, toks, c, d, b, e, ParseLine(line, next), TokLine(e.1[1..]));
    } else {
      LineEnds(toks, d.t, d.rest, e.0, e.1);
      assert ParseLine(line, i) == Ok(b.0, b.1);
    }
  }

  lemma ListParsed(line: string, i: nat, toks: seq<Tok>, c: Result, d: Parsed<Cmd<string>>, b: (Cmd<Word>, nat),
      e: (Cmd<string>, seq<Tok>), r: Result, q: Parsed<Cmd<string>>)
    requires IsLine(line) && i <= |line| && c == ParsePipe(line, i) && d == TokPipe(toks)
    requires c.Ok? && d.Got? && b == Backs(line, c.cmd, c.pos) && e == TokBacks(d.t, d.rest)
    requires Text(line, b.0) == e.0 && Next(e.1, ';') && b.1 <= |line| && Peek(line, b.1, {';'})
    requires r == ParseLine(line, Gettok(line, b.1).next) && q == TokLine(e.1[1..]) && Same(line, r, q)
    ensures Same(line, ParseLine(line, i), TokLine(toks))
  {
    if q.Got? {
      LineGoesOn(toks, d.t, d.rest, e.0, e.1, q.t, q.rest);
      assert ParseLine(line, i) == Ok(List(b.0, r.cmd), r.pos);
    }
  }

  // ---------- every line spells some tokens ----------

  function TokOf(line: string, t: Token): Tok
    requires t.q <= t.eq <= |line|
  {
    if t.kind == 'a' then W(line[t.q..t.eq]) else if t.kind == '+' then Twice else S(t.kind)
  }

  lemma FirstToken(line: string, i: nat)
    requires IsLine(line) && i < |line| && Skip(line, i) == i
    ensures var t := Gettok(line, i);
            TokenAt(line, i, TokOf(line, t)) && t.next == Skip(line, i + |Str(TokOf(line, t))|) && i < t.next
  {
    assert line[i] in line;
    WordRuns(line, i);
  }

  lemma {:induction false} Spelling(line: string, i: nat) returns (toks: seq<Tok>)
    requires IsLine(line) && i <= |line| && Skip(line, i) == i
    ensures SpellsFrom(line, i, toks) && ToksOk(toks)
    decreases |line| - i
  {
    if i == |line| {
      toks := [];
    } else {
      FirstToken(line, i);
      var t := Gettok(line, i);
      var more := Spelling(line, t.next);
      toks := [TokOf(line, t)] + more;
      assert toks[1..] == more;
    }
  }

  // The leading spaces do not matter
  lemma LeadingSpaces(line: string)
    requires IsLine(line)
    ensures var i := Skip(line, 0); i <= |line| && Skip(line, i) == i && ParseLine(line, 0) == ParseLine(line, i)
  {
    var i := Skip(line, 0);
    SkipTwice(line, 0, {'('});
    SkipTwice(line, 0, {'<', '>'});
    assert ParseRedirs(line, 0) == ParseRedirs(line, i);
    assert ParseExec(line, 0) == ParseExec(line, i);
  }

  // ---------- exactly the grammar ----------

  // The parse, with the words as strings
  predicate ParsesTo(line: string, t: Cmd<string>)
    requires IsLine(line)
  {
    ParseCmd(line).Ok? && Text(line, ParseCmd(line).cmd) == t
  }

  lemma ParsesAs(line: string, toks: seq<Tok>, t: Cmd<string>)
    requires Spells(line, toks)
    ensures ParsesTo(line, t) <==> TokLine(toks) == Got(t, [])
  {
    LeadingSpaces(line);
    var i := Skip(line, 0);
    LineSame(line, i, toks);
    var c, d := ParseLine(line, i), TokLine(toks);
    if d.Got? {
      Lexes(line, c.pos, d.rest);
    }
  }

  /** A line spelled after the grammar parses as what it means, whatever its spaces. */
  lemma Parses(line: string, l: Line)
    requires LineOk(l) && Spells(line, LineToks(l))
    ensures ParsesTo(line, LineCmd(l))
  {
    LineRead(l, []);
    assert LineToks(l) + [] == LineToks(l);
    ParsesAs(line, LineToks(l), LineCmd(l));
  }

  /** parsecmd accepts exactly the lines of the grammar, and as what they mean. */
  lemma ParsesExactly(line: string, t: Cmd<string>)
    requires IsLine(line)
    ensures ParsesTo(line, t) <==> exists l :: LineOk(l) && LineCmd(l) == t && Spells(line, LineToks(l))
  {
    if ParsesTo(line, t) {
      LeadingSpaces(line);
      var toks := Spelling(line, Skip(line, 0));
      ParsesAs(line, toks, t);
      var l := LineSound(toks);
      assert LineToks(l) + [] == LineToks(l);
      assert LineOk(l) && LineCmd(l) == t && Spells(line, LineToks(l));
    }
    if l :| LineOk(l) && LineCmd(l) == t && Spells(line, LineToks(l)) {
      Parses(line, l);
    }
  }
}

/** Commands written out, and parsecmd of what is written. */
module ShellRoundTrip {
  import opened Shell
  import opened ShellGrammar
  import opened ShellSpelling

  // Each token followed by a space
  function Render(toks: seq<Tok>): string {
    if toks == [] then "" else Str(toks[0]) + " " + Render(toks[1..])
  }

  lemma {:induction false} RenderFrom(line: string, i: nat, toks: seq<Tok>)
    requires ToksOk(toks) && i <= |line| && line[i..] == Render(toks)
    ensures SpellsFrom(line, i, toks)
    decreases |toks|
  {
    if toks != [] {
      var next := i + |Str(toks[0])| + 1;
      Written(line, i, Str(toks[0]), Render(toks[1..]), next);
      RenderFrom(line, next, toks[1..]);
      NoSpace(line, next, toks[1..]);
      SpellsMore(line, i, toks, next);
    }
  }

  lemma Written(line: string, i: nat, s: string, rest: string, next: nat)
    requires i <= |line| && line[i..] == s + " " + rest && next == i + |s| + 1
    ensures next <= |line| && line[i..i + |s|] == s && line[next - 1] == ' ' && line[next..] == rest
  {
    var all := line[i..];
    assert line[i..i + |s|] == all[..|s|] && line[next - 1] == all[|s|] && line[next..] == all[|s| + 1..];
  }

  lemma SpellsMore(line: string, i: nat, toks: seq<Tok>, next: nat)
    requires toks != [] && TokOk(toks[0]) && i + |Str(toks[0])| < |line| && next == i + |Str(toks[0])| + 1
    requires line[i..i + |Str(toks[0])|] == Str(toks[0]) && line[next - 1] == ' '
    requires Skip(line, next) == next && SpellsFrom(line, next, toks[1..])
    ensures SpellsFrom(line, i, toks)
  {
    assert Skip(line, next - 1) == Skip(line, next);
  }

  lemma NoSpace(line: string, i: nat, toks: seq<Tok>)
    requires SpellsFrom(line, i, toks)
    ensures Skip(line, i) == i
  {
    if toks != [] {
      FirstChar(line, i, toks[0]);
    }
  }

  lemma {:induction false} RenderIsLine(toks: seq<Tok>)
    requires ToksOk(toks)
    ensures IsLine(Render(toks))
  {
    if toks != [] {
      RenderIsLine(toks[1..]);
      assert TokOk(toks[0]);
    }
  }

  lemma RenderSpells(toks: seq<Tok>)
    requires ToksOk(toks)
    ensures Spells(Render(toks), toks)
  {
    RenderIsLine(toks);
    assert Render(toks)[0..] == Render(toks);
    RenderFrom(Render(toks), 0, toks);
    NoSpace(Render(toks), 0, toks);
  }

  // What is in memory after parsecmd of the line, read as C strings
  ghost predicate Leaves(line: string, t: Cmd<string>) {
    && IsLine(line) && ParseCmd(line).Ok?
    && var c := ParseCmd(line).cmd; CText(Nulled(line + ['\0'], Ends(c)), c) == t
  }

  lemma PrimToksOk(p: Prim)
    requires PrimOk(p)
    ensures ToksOk(PrimToks(p))
    decreases p, 0
  {
    if p.Block? {
      LineToksOk(p.inner);
    }
  }

  lemma PipeToksOk(q: Pipeline)
    requires PipeOk(q)
    ensures ToksOk(PipeToks(q))
    decreases q, 1
  {
    PrimToksOk(q.p);
    if q.Piped? {
      PipeToksOk(q.rest);
    }
  }

  lemma BackToksOk(n: nat)
    ensures ToksOk(BackToks(n))
  {
  }

  lemma LineToksOk(l: Line)
    requires LineOk(l)
    ensures ToksOk(LineToks(l))
    decreases l, 2
  {
    PipeToksOk(l.q);
    BackToksOk(l.backs);
    if l.Listed? {
      LineToksOk(l.rest);
    }
  }

  /** Any line of the grammar, written out: redirections before, between and after the words, pipes,
      lists, ampersands and parentheses, also needless ones. parsecmd succeeds, and what it leaves
      in memory is what the line means. */
  lemma WrittenLine(l: Line)
    requires LineOk(l)
    ensures Leaves(Render(LineToks(l)), LineCmd(l))
  {
    var line := Render(LineToks(l));
    LineToksOk(l);
    RenderSpells(LineToks(l));
    Parses(line, l);
    WordsSurvive(line);
  }

  // ---------- command trees ----------

  // At most nine words per command, each made of word characters
  predicate Printable(c: Cmd<string>) {
    match c
    case Exec(argv) => |argv| < MAXARGS && forall i :: 0 <= i < |argv| ==> TokOk(W(argv[i]))
    case Redir(d, f, _) => Printable(d) && TokOk(W(f))
    case Pipe(l, r) => Printable(l) && Printable(r)
    case List(l, r) => Printable(l) && Printable(r)
    case Back(d) => Printable(d)
  }

  function WordItems(argv: seq<string>): seq<Item> {
    if argv == [] then [] else [Arg(argv[0])] + WordItems(argv[1..])
  }

  lemma {:induction false} WordItemsOf(argv: seq<string>)
    requires forall i :: 0 <= i < |argv| ==> TokOk(W(argv[i]))
    ensures Words(WordItems(argv)) == argv && Files(WordItems(argv)) == [] && ToksOk(ItemToks(WordItems(argv)))
  {
    if argv != [] {
      WordItemsOf(argv[1..]);
      ItemFirst(Arg(argv[0]), WordItems(argv[1..]));
      assert argv == [argv[0]] + argv[1..];
    }
  }

  lemma SimpleWords(argv: seq<string>)
    requires Printable(Exec(argv))
    ensures PrimCmd(Simple(WordItems(argv))) == Exec(argv) && PrimOk(Simple(WordItems(argv)))
  {
    WordItemsOf(argv);
  }

  // Everything in parentheses
  function Full(c: Cmd<string>): Line {
    match c
    case Exec(argv) => Last(One(Simple(WordItems(argv))), 0)
    case Redir(d, f, m) => Last(One(Block(Full(d), [(f, m)])), 0)
    case Pipe(l, r) => Last(Piped(Block(Full(l), []), One(Block(Full(r), []))), 0)
    case List(l, r) => Listed(One(Block(Full(l), [])), 0, Last(One(Block(Full(r), [])), 0))
    case Back(d) => Last(One(Block(Full(d), [])), 1)
  }

  // A line in parentheses
  lemma ParenMeans(l: Line, c: Cmd<string>)
    requires LineOk(l) && LineCmd(l) == c
    ensures PrimOk(Block(l, [])) && PrimCmd(Block(l, [])) == c
    ensures PipeOk(One(Block(l, []))) && PipeCmd(One(Block(l, []))) == c
  {
  }

  lemma {:induction false} FullMeans(c: Cmd<string>)
    requires Printable(c)
    ensures LineOk(Full(c)) && LineCmd(Full(c)) == c
  {
    match c
    case Exec(argv) => SimpleWords(argv);
    case Redir(d, f, m) =>
      FullMeans(d);
      WrapOne(d, (f, m));
      FileFirst((f, m), []);
      assert [(f, m)] + [] == [(f, m)];
      assert PrimOk(Block(Full(d), [(f, m)])) && PrimCmd(Block(Full(d), [(f, m)])) == c;
    case Pipe(l, r) =>
      FullMeans(l);
      FullMeans(r);
      ParenMeans(Full(l), l);
      ParenMeans(Full(r), r);
    case List(l, r) =>
      FullMeans(l);
      FullMeans(r);
      ParenMeans(Full(l), l);
      ParenMeans(Full(r), r);
      assert LineOk(Last(One(Block(Full(r), [])), 0)) && LineCmd(Last(One(Block(Full(r), [])), 0)) == r;
    case Back(d) =>
      FullMeans(d);
      ParenMeans(Full(d), d);
  }

  lemma WrapOne(c: Cmd<string>, f: File)
    ensures Wrap(c, [f]) == Redir(c, f.0, f.1)
  {
    assert [f][1..] == [];
  }

  /** A command tree written out with all parentheses is read back. */
  lemma RoundTrip(t: Cmd<string>)
    requires Printable(t)
    ensures Leaves(Render(LineToks(Full(t))), t)
  {
    FullMeans(t);
    WrittenLine(Full(t));
  }

  // ---------- with no needless parentheses ----------

  // The redirection after what there is
  function Added(p: Prim, f: File): Prim {
    if p.Simple? then p.(items := p.items + [Onto(f)]) else p.(files := p.files + [f])
  }

  // As a command of a pipeline
  function AsPrim(c: Cmd<string>): Prim
    decreases c, if c.Exec? || c.Redir? then 0 else 4
  {
    match c
    case Exec(argv) => Simple(WordItems(argv))
    case Redir(d, f, m) => Added(AsPrim(d), (f, m))
    case _ => Block(AsLine(c), [])
  }

  function AsPipe(c: Cmd<string>): Pipeline
    decreases c, if c.List? || c.Back? then 5 else 1
  {
    if c.Pipe? then Piped(AsPrim(c.left), AsPipe(c.right)) else One(AsPrim(c))
  }

  // As a line without a semicolon
  function AsLast(c: Cmd<string>): Line
    decreases c, if c.List? then 6 else 2
  {
    if c.Back? then
      var l := AsLast(c.cmd);
      l.(backs := l.backs + 1)
    else Last(AsPipe(c), 0)
  }

  /** The command as a user would write it: parentheses only around what is no pipeline, in a
      pipeline or under a redirection, and around lists on the left or in the background. */
  function AsLine(c: Cmd<string>): Line
    decreases c, 3
  {
    if c.List? then
      var l := AsLast(c.left);
      Listed(l.q, l.backs, AsLine(c.right))
    else AsLast(c)
  }

  lemma {:induction false} WrapLast(c: Cmd<string>, fs: seq<File>, f: File)
    ensures Wrap(c, fs + [f]) == Redir(Wrap(c, fs), f.0, f.1)
    decreases |fs|
  {
    if fs == [] {
      assert fs + [f] == [f];
      WrapOne(c, f);
    } else {
      WrapLast(Redir(c, fs[0].0, fs[0].1), fs[1..], f);
      assert (fs + [f])[1..] == fs[1..] + [f];
    }
  }

  lemma {:induction false} ItemsLast(items: seq<Item>, f: File)
    requires TokOk(W(f.0)) && ToksOk(ItemToks(items))
    ensures var all := items + [Onto(f)];
            Words(all) == Words(items) && Files(all) == Files(items) + [f] && ToksOk(ItemToks(all))
  {
    var all := items + [Onto(f)];
    if items == [] {
      assert all == [Onto(f)] + [];
      ItemFirst(Onto(f), []);
    } else {
      var i, more := items[0], items[1..];
      assert items == [i] + more && all == [i] + (more + [Onto(f)]);
      ItemFirst(i, more);
      ItemFirst(i, more + [Onto(f)]);
      Part(ItemTok(i), ItemToks(more), ItemToks(items));
      ItemsLast(more, f);
      Assoc(if i.Onto? then [i.f] else [], Files(more), [f]);
    }
  }

  lemma {:induction false} FilesLast(fs: seq<File>, f: File)
    requires TokOk(W(f.0)) && ToksOk(FileToks(fs))
    ensures ToksOk(FileToks(fs + [f]))
  {
    if fs == [] {
      assert fs + [f] == [f] + [];
      FileFirst(f, []);
    } else {
      assert fs + [f] == [fs[0]] + (fs[1..] + [f]);
      FileFirst(fs[0], fs[1..] + [f]);
      Part(FileTok(fs[0]), FileToks(fs[1..]), FileToks(fs));
      FilesLast(fs[1..], f);
    }
  }

  lemma AddedMeans(p: Prim, f: File)
    requires PrimOk(p) && TokOk(W(f.0))
    ensures PrimOk(Added(p, f)) && PrimCmd(Added(p, f)) == Redir(PrimCmd(p), f.0, f.1)
  {
    if p.Simple? {
      ItemsLast(p.items, f);
      WrapLast(Exec(Words(p.items)), Files(p.items), f);
    } else {
      FilesLast(p.files, f);
      WrapLast(LineCmd(p.inner), p.files, f);
    }
  }

  lemma {:induction false} PrimMeans(c: Cmd<string>)
    requires Printable(c)
    ensures PrimOk(AsPrim(c)) && PrimCmd(AsPrim(c)) == c
    decreases c, if c.Exec? || c.Redir? then 0 else 4
  {
    match c
    case Exec(argv) => SimpleWords(argv);
    case Redir(d, f, m) =>
      PrimMeans(d);
      AddedMeans(AsPrim(d), (f, m));
    case _ => LineMeans(c);
  }

  lemma {:induction false} PipeMeans(c: Cmd<string>)
    requires Printable(c)
    ensures PipeOk(AsPipe(c)) && PipeCmd(AsPipe(c)) == c
    decreases c, if c.List? || c.Back? then 5 else 1
  {
    if c.Pipe? {
      PrimMeans(c.left);
      PipeMeans(c.right);
    } else {
      PrimMeans(c);
    }
  }

  lemma {:induction false} LastMeans(c: Cmd<string>)
    requires Printable(c)
    ensures AsLast(c).Last? && LineOk(AsLast(c)) && LineCmd(AsLast(c)) == c
    decreases c, if c.List? then 6 else 2
  {
    if c.Back? {
      LastMeans(c.cmd);
    } else {
      PipeMeans(c);
    }
  }

  lemma {:induction false} LineMeans(c: Cmd<string>)
    requires Printable(c)
    ensures LineOk(AsLine(c)) && LineCmd(AsLine(c)) == c
    decreases c, 3
  {
    if c.List? {
      LastMeans(c.left);
      LineMeans(c.right);
    } else {
      LastMeans(c);
    }
  }

  /** A command tree written as a user would write it is read back. */
  lemma PlainRoundTrip(t: Cmd<string>)
    requires Printable(t)
    ensures Leaves(Render(LineToks(AsLine(t))), t)
  {
    LineMeans(t);
    WrittenLine(AsLine(t));
  }

  // ---------- no line with that meaning has fewer parentheses ----------

  function PrimParens(p: Prim): nat { if p.Simple? then 0 else 1 + LineParens(p.inner) }

  function PipeParens(q: Pipeline): nat { PrimParens(q.p) + if q.Piped? then PipeParens(q.rest) else 0 }

  function LineParens(l: Line): nat { PipeParens(l.q) + if l.Listed? then LineParens(l.rest) else 0 }

  // A command needs at most one more pair than it does as a line
  lemma {:induction false} Looser(c: Cmd<string>)
    ensures AsLast(c).Last?
    ensures LineParens(AsLine(c)) <= LineParens(AsLast(c)) <= PipeParens(AsPipe(c)) <= PrimParens(AsPrim(c))
         <= LineParens(AsLine(c)) + 1
  {
    var l, q, p := AsLine(c), AsPipe(c), AsPrim(c);
    match c
    case Exec(_) =>
      assert q == One(p) && l == AsLast(c) == Last(q, 0);
      OnePrim(p, q, l);
    case Redir(d, f, m) =>
      assert q == One(p) && l == AsLast(c) == Last(q, 0);
      OnePrim(p, q, l);
    case Pipe(_, _) => assert p == Block(l, []) && l == AsLast(c) == Last(q, 0);
    case List(_, _) =>
      assert p == Block(l, []) && q == One(p) && AsLast(c) == Last(q, 0);
      OnePrim(p, q, AsLast(c));
    case Back(d) =>
      Looser(d);
      assert p == Block(l, []) && q == One(p) && l == AsLast(c) == Last(AsLast(d).q, AsLast(d).backs + 1);
      OnePrim(p, q, Last(q, 0));
  }

  lemma OnePrim(p: Prim, q: Pipeline, l: Line)
    requires q == One(p) && l == Last(q, 0)
    ensures LineParens(l) == PipeParens(q) == PrimParens(p)
  {
  }

  lemma {:induction false} WrapParens(c: Cmd<string>, fs: seq<File>)
    ensures PrimParens(AsPrim(Wrap(c, fs))) == PrimParens(AsPrim(c))
    decreases |fs|
  {
    if fs != [] {
      WrapParens(Redir(c, fs[0].0, fs[0].1), fs[1..]);
    }
  }

  lemma {:induction false} BackedParens(c: Cmd<string>, n: nat)
    ensures LineParens(AsLast(Backed(c, n))) == LineParens(AsLast(c))
  {
    if n > 0 {
      BackedParens(c, n - 1);
      Looser(Backed(c, n - 1));
    }
  }

  lemma {:induction false} PrimFewest(p: Prim)
    ensures PrimParens(AsPrim(PrimCmd(p))) <= PrimParens(p)
    decreases p, 0
  {
    match p
    case Simple(items) => WrapParens(Exec(Words(items)), Files(items));
    case Block(l, files) =>
      FewestParens(l);
      Looser(LineCmd(l));
      WrapParens(LineCmd(l), files);
  }

  lemma {:induction false} PipeFewest(q: Pipeline)
    ensures PipeParens(AsPipe(PipeCmd(q))) <= PipeParens(q)
    decreases q, 1
  {
    PrimFewest(q.p);
    if q.Piped? {
      PipeFewest(q.rest);
    } else {
      Looser(PrimCmd(q.p));
    }
  }

  /** Of all lines that mean a command, the one above has the fewest parentheses. */
  lemma {:induction false} FewestParens(l: Line)
    ensures LineParens(AsLine(LineCmd(l))) <= LineParens(l)
    decreases l, 2
  {
    PipeFewest(l.q);
    BackedParens(PipeCmd(l.q), l.backs);
    Looser(PipeCmd(l.q));
    Looser(Backed(PipeCmd(l.q), l.backs));
    if l.Listed? {
      FewestParens(l.rest);
    }
  }
}
