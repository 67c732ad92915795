/** The shell's parser: recursive descent over a line, with tokens named by their first character
    and the one after their last. */
module Shell {

  const MAXARGS: nat := 10

  predicate IsSpace(c: char) { c == ' ' || c == '\t' || c == '\r' || c == '\n' || c == '\U{000B}' }
  predicate IsSymbol(c: char) { c == '<' || c == '|' || c == '>' || c == '&' || c == ';' || c == '(' || c == ')' }
  predicate IsWordChar(c: char) { !IsSpace(c) && !IsSymbol(c) && c != '\0' }

  // A token of the line: characters q .. eq-1
  datatype Word = Word(q: nat, eq: nat)

  datatype Mode = Read | Truncate | Append

  // A command tree, over words in a line or over strings
  datatype Cmd<W> =
    | Exec(argv: seq<W>)
    | Redir(cmd: Cmd<W>, file: W, mode: Mode)
    | Pipe(left: Cmd<W>, right: Cmd<W>)
    | List(left: Cmd<W>, right: Cmd<W>)
    | Back(cmd: Cmd<W>)

  // A command, or the call of panic
  datatype Result = Ok(cmd: Cmd<Word>, pos: nat) | Panic

  // A line has no NUL; the one that ends it is at its length
  predicate IsLine(line: string) { '\0' !in line }

  function At(line: string, i: nat): char {
    if i < |line| then line[i] else '\0'
  }

  function Skip(line: string, i: nat): (r: nat)
    ensures i <= |line| ==> i <= r <= |line|
    ensures !IsSpace(At(line, r))
    decreases |line| - i
  {
    if i < |line| && IsSpace(line[i]) then Skip(line, i + 1) else i
  }

  function WordEnd(line: string, i: nat): (r: nat)
    ensures i <= |line| ==> i <= r <= |line|
    decreases |line| - i
  {
    if i < |line| && !IsSpace(line[i]) && !IsSymbol(line[i]) then WordEnd(line, i + 1) else i
  }

  datatype Token = Token(kind: char, q: nat, eq: nat, next: nat)

  // gettoken: the kind is the symbol itself, '+' for >>, 'a' for a word, NUL at the end
  function Gettok(line: string, i: nat): (t: Token)
    requires i <= |line|
    ensures i <= t.q <= t.eq <= t.next <= |line| && (t.kind != '\0' && IsLine(line) ==> i < t.next)
  {
    var q := Skip(line, i);
    var c := At(line, q);
    if q >= |line| then Token('\0', q, q, Skip(line, q))
    else if c == '>' && At(line, q + 1) == '>' then Token('+', q, q + 2, Skip(line, q + 2))
    else if IsSymbol(c) then Token(c, q, q + 1, Skip(line, q + 1))
    else if c == '\0' then Token('\0', q, q, Skip(line, q))
    else Token('a', q, WordEnd(line, q), Skip(line, WordEnd(line, q)))
  }

  predicate Peek(line: string, i: nat, toks: set<char>) {
    At(line, Skip(line, i)) != '\0' && At(line, Skip(line, i)) in toks
  }

  function ModeOf(kind: char): Mode {
    if kind == '<' then Read else if kind == '>' then Truncate else Append
  }

  datatype Redirs = Redirs(list: seq<(Word, Mode)>, pos: nat) | NoFile

  // The redirections from i on, in order
  function ParseRedirs(line: string, i: nat): (r: Redirs)
    requires i <= |line| && IsLine(line)
    ensures r.Redirs? ==> i <= r.pos <= |line|
    decreases |line| - i
  {
    if !Peek(line, i, {'<', '>'}) then Redirs([], Skip(line, i))
    else
      var t := Gettok(line, i);
      var f := Gettok(line, t.next);
      if f.kind != 'a' then NoFile
      else
        var r := ParseRedirs(line, f.next);
        if r.NoFile? then NoFile else Redirs([(Word(f.q, f.eq), ModeOf(t.kind))] + r.list, r.pos)
  }

  // The redirections around a command, the first one innermost
  function Wrap<W>(c: Cmd<W>, rs: seq<(W, Mode)>): Cmd<W>
    decreases |rs|
  {
    if rs == [] then c else Wrap(Redir(c, rs[0].0, rs[0].1), rs[1..])
  }

  // The arguments from i on, with redirections between them
  datatype Args = Args(argv: seq<Word>, redirs: seq<(Word, Mode)>, pos: nat) | BadArgs

  function ParseArgs(line: string, i: nat, argc: nat): (r: Args)
    requires i <= |line| && IsLine(line)
    ensures r.Args? ==> i <= r.pos <= |line| && argc + |r.argv| <= (if argc < MAXARGS then MAXARGS - 1 else argc)
    decreases |line| - i
  {
    if Peek(line, i, {'|', ')', '&', ';'}) then Args([], [], Skip(line, i))
    else
      var t := Gettok(line, i);
      if t.kind == '\0' then Args([], [], t.next)
      else if t.kind != 'a' then BadArgs
      else if argc + 1 >= MAXARGS then BadArgs
      else
        var rs := ParseRedirs(line, t.next);
        if rs.NoFile? then BadArgs
        else
          var r := ParseArgs(line, rs.pos, argc + 1);
          if r.BadArgs? then BadArgs else Args([Word(t.q, t.eq)] + r.argv, rs.list + r.redirs, r.pos)
  }

  function ParseExec(line: string, i: nat): (r: Result)
    requires i <= |line| && IsLine(line)
    ensures r.Ok? ==> i <= r.pos <= |line|
    decreases |line| - i, 1
  {
    if Peek(line, i, {'('}) then ParseBlock(line, i)
    else
      var rs := ParseRedirs(line, i);
      if rs.NoFile? then Panic
      else
        var a := ParseArgs(line, rs.pos, 0);
        if a.BadArgs? then Panic else Ok(Wrap(Exec(a.argv), rs.list + a.redirs), a.pos)
  }

  function ParseBlock(line: string, i: nat): (r: Result)
    requires i <= |line| && IsLine(line)
    ensures r.Ok? ==> i <= r.pos <= |line|
    decreases |line| - i, 0
  {
    if !Peek(line, i, {'('}) then Panic
    else
      var c := ParseLine(line, Gettok(line, i).next);
      if c.Panic? || !Peek(line, c.pos, {')'}) then Panic
      else
        var rs := ParseRedirs(line, Gettok(line, c.pos).next);
        if rs.NoFile? then Panic else Ok(Wrap(c.cmd, rs.list), rs.pos)
  }

  function ParsePipe(line: string, i: nat): (r: Result)
    requires i <= |line| && IsLine(line)
    ensures r.Ok? ==> i <= r.pos <= |line|
    decreases |line| - i, 2
  {
    var c := ParseExec(line, i);
    if c.Panic? then Panic
    else if !Peek(line, c.pos, {'|'}) then Ok(c.cmd, Skip(line, c.pos))
    else
      var d := ParsePipe(line, Gettok(line, c.pos).next);
      if d.Panic? then Panic else Ok(Pipe(c.cmd, d.cmd), d.pos)
  }

  function Backs(line: string, c: Cmd<Word>, i: nat): (r: (Cmd<Word>, nat))
    requires i <= |line| && IsLine(line)
    ensures i <= r.1 <= |line|
    decreases |line| - i
  {
    if Peek(line, i, {'&'}) then Backs(line, Back(c), Gettok(line, i).next) else (c, Skip(line, i))
  }

  function ParseLine(line: string, i: nat): (r: Result)
    requires i <= |line| && IsLine(line)
    ensures r.Ok? ==> i <= r.pos <= |line|
    decreases |line| - i, 3
  {
    var c := ParsePipe(line, i);
    if c.Panic? then Panic
    else
      var b := Backs(line, c.cmd, c.pos);
      if !Peek(line, b.1, {';'}) then Ok(b.0, Skip(line, b.1))
      else
        var d := ParseLine(line, Gettok(line, b.1).next);
        if d.Panic? then Panic else Ok(List(b.0, d.cmd), d.pos)
  }

  /** parsecmd up to nulterminate: the whole line must be used. */
  function ParseCmd(line: string): (r: Result)
    requires IsLine(line)
    ensures r.Ok? ==> r.pos == |line|
  {
    var c := ParseLine(line, 0);
    if c.Panic? || Skip(line, c.pos) != |line| then Panic else Ok(c.cmd, |line|)
  }

  // ---------- the parser ----------

  method SkipSpace(line: string, i: nat) returns (s: nat)
    requires i <= |line|
    ensures s == Skip(line, i) <= |line|
    ensures i <= s && (forall j :: i <= j < s ==> IsSpace(line[j])) && (s < |line| ==> !IsSpace(line[s]))
  {
    s := i;
    while s < |line| && IsSpace(line[s])
      invariant i <= s <= |line| && Skip(line, i) == Skip(line, s) && forall j :: i <= j < s ==> IsSpace(line[j])
    {
      s := s + 1;
    }
  }

  method GetToken(line: string, i: nat) returns (t: Token)
    requires i <= |line|
    ensures t == Gettok(line, i)
  {
    var q := SkipSpace(line, i);
    var s, kind := q, At(line, q);
    if kind == '\0' {
    } else if kind == '>' {
      s := s + 1;
      if At(line, s) == '>' {
        kind := '+';
        s := s + 1;
      }
    } else if IsSymbol(kind) {
      s := s + 1;
    } else {
      kind := 'a';
      while s < |line| && !IsSpace(line[s]) && !IsSymbol(line[s])
        invariant q <= s <= |line| && WordEnd(line, q) == WordEnd(line, s)
      {
        s := s + 1;
      }
    }
    var next := SkipSpace(line, s);
    t := Token(kind, q, s, next);
  }

  method PeekAt(line: string, i: nat, toks: set<char>) returns (found: bool, s: nat)
    requires i <= |line|
    ensures found == Peek(line, i, toks) && s == Skip(line, i) <= |line|
    ensures forall j :: i <= j < s ==> IsSpace(line[j])
    ensures s < |line| ==> !IsSpace(line[s]) && (found <==> line[s] != '\0' && line[s] in toks)
    ensures s == |line| ==> !found
  {
    s := SkipSpace(line, i);
    found := At(line, s) != '\0' && At(line, s) in toks;
  }

  // peek moves the cursor past spaces, which changes nothing for what comes after
  lemma SkipTwice(line: string, i: nat, toks: set<char>)
    requires i <= |line|
    ensures Skip(line, Skip(line, i)) == Skip(line, i) && Gettok(line, Skip(line, i)) == Gettok(line, i)
    ensures Peek(line, Skip(line, i), toks) == Peek(line, i, toks)
  {
  }

  method RunRedirs(line: string, i: nat) returns (r: Redirs)
    requires i <= |line| && IsLine(line)
    ensures r == ParseRedirs(line, i)
  {
    var pos := i;
    var list := [];
    var more;
    more, pos := PeekAt(line, pos, {'<', '>'});
    SkipTwice(line, i, {'<', '>'});
    while more
      invariant i <= pos <= |line| && more == Peek(line, pos, {'<', '>'}) && Skip(line, pos) == pos
      invariant Prepend(list, ParseRedirs(line, pos)) == ParseRedirs(line, i)
      decreases |line| - pos
    {
      var t := GetToken(line, pos);
      var f := GetToken(line, t.next);
      if f.kind != 'a' {
        return NoFile;
      }
      PrependMore(list, (Word(f.q, f.eq), ModeOf(t.kind)), ParseRedirs(line, f.next));
      list := list + [(Word(f.q, f.eq), ModeOf(t.kind))];
      more, pos := PeekAt(line, f.next, {'<', '>'});
      SkipTwice(line, f.next, {'<', '>'});
    }
    r := Redirs(list, pos);
  }

  function Prepend(list: seq<(Word, Mode)>, r: Redirs): Redirs {
    if r.NoFile? then NoFile else Redirs(list + r.list, r.pos)
  }

  lemma PrependMore(list: seq<(Word, Mode)>, x: (Word, Mode), r: Redirs)
    ensures Prepend(list + [x], r) == Prepend(list, Prepend([x], r))
  {
    if r.Redirs? {
      assert list + [x] + r.list == list + ([x] + r.list);
    }
  }

  /** parsecmd, with the commands it builds; nulterminate is below. */
  method Parse(line: string) returns (r: Result)
    requires IsLine(line)
    ensures r == ParseCmd(line)
  {
    var c := RunLine(line, 0);
    if c.Panic? {
      return Panic;
    }
    var s := SkipSpace(line, c.pos);
    if s != |line| {
      return Panic;
    }
    return Ok(c.cmd, |line|);
  }

  method RunLine(line: string, i: nat) returns (r: Result)
    requires i <= |line| && IsLine(line)
    ensures r == ParseLine(line, i)
    decreases |line| - i, 3
  {
    r := RunPipe(line, i);
    if r.Panic? {
      return;
    }
    var cmd, pos := r.cmd, r.pos;
    ghost var c, p := cmd, pos;
    var more;
    more, pos := PeekAt(line, pos, {'&'});
    SkipTwice(line, p, {'&'});
    while more
      invariant i <= pos <= |line| && Skip(line, pos) == pos && more == Peek(line, pos, {'&'})
      invariant Backs(line, cmd, pos) == Backs(line, c, p)
      decreases |line| - pos
    {
      var t := GetToken(line, pos);
      cmd := Back(cmd);
      more, pos := PeekAt(line, t.next, {'&'});
      SkipTwice(line, t.next, {'&'});
    }
    more, pos := PeekAt(line, pos, {';'});
    if !more {
      return Ok(cmd, pos);
    }
    var t := GetToken(line, pos);
    var d := RunLine(line, t.next);
    if d.Panic? {
      return Panic;
    }
    return Ok(List(cmd, d.cmd), d.pos);
  }

  method RunPipe(line: string, i: nat) returns (r: Result)
    requires i <= |line| && IsLine(line)
    ensures r == ParsePipe(line, i)
    decreases |line| - i, 2
  {
    r := RunExec(line, i);
    if r.Panic? {
      return;
    }
    var more, pos := PeekAt(line, r.pos, {'|'});
    SkipTwice(line, r.pos, {'|'});
    if !more {
      return Ok(r.cmd, pos);
    }
    var t := GetToken(line, pos);
    var d := RunPipe(line, t.next);
    if d.Panic? {
      return Panic;
    }
    return Ok(Pipe(r.cmd, d.cmd), d.pos);
  }

  method RunBlock(line: string, i: nat) returns (r: Result)
    requires i <= |line| && IsLine(line)
    ensures r == ParseBlock(line, i)
    decreases |line| - i, 0
  {
    var open, s := PeekAt(line, i, {'('});
    SkipTwice(line, i, {'('});
    if !open {
      return Panic;
    }
    var t := GetToken(line, s);
    r := RunLine(line, t.next);
    if r.Panic? {
      return;
    }
    var close, e := PeekAt(line, r.pos, {')'});
    SkipTwice(line, r.pos, {')'});
    if !close {
      return Panic;
    }
    t := GetToken(line, e);
    var rs := RunRedirs(line, t.next);
    if rs.NoFile? {
      return Panic;
    }
    return Ok(Wrap(r.cmd, rs.list), rs.pos);
  }

  /** The redirections read between the arguments end up around the finished command, in order. */
  method RunExec(line: string, i: nat) returns (r: Result)
    requires i <= |line| && IsLine(line)
    ensures r == ParseExec(line, i)
    decreases |line| - i, 1
  {
    var block, s := PeekAt(line, i, {'('});
    SkipTwice(line, i, {'('});
    if block {
      r := RunBlock(line, i);
      return;
    }
    var rs := RunRedirs(line, i);
    if rs.NoFile? {
      return Panic;
    }
    var a := RunArgs(line, rs.pos);
    if a.BadArgs? {
      return Panic;
    }
    return Ok(Wrap(Exec(a.argv), rs.list + a.redirs), a.pos);
  }

  function Before(argv: seq<Word>, redirs: seq<(Word, Mode)>, r: Args): Args {
    if r.BadArgs? then BadArgs else Args(argv + r.argv, redirs + r.redirs, r.pos)
  }

  lemma BeforeMore(argv: seq<Word>, redirs: seq<(Word, Mode)>, w: Word, rs: seq<(Word, Mode)>, r: Args)
    ensures Before(argv + [w], redirs + rs, r) == Before(argv, redirs, Before([w], rs, r))
  {
    if r.Args? {
      assert argv + [w] + r.argv == argv + ([w] + r.argv) && redirs + rs + r.redirs == redirs + (rs + r.redirs);
    }
  }

  // What the next round of parseexec's loop does
  datatype Round = Stop(next: nat) | Bad | More(w: Word, rs: seq<(Word, Mode)>, next: nat)

  ghost predicate RoundOk(line: string, pos: nat, argc: nat, a: Round)
    requires pos <= |line| && IsLine(line)
  {
    var rest := ParseArgs(line, pos, argc);
    match a
    case Stop(next) => rest == Args([], [], next)
    case Bad => rest == BadArgs
    case More(w, rs, next) =>
      pos < next <= |line| && argc + 1 < MAXARGS && rest == Before([w], rs, ParseArgs(line, next, argc + 1))
  }

  method RunArg(line: string, pos: nat, argc: nat) returns (a: Round)
    requires pos <= |line| && IsLine(line)
    ensures RoundOk(line, pos, argc, a)
  {
    var stop, s := PeekAt(line, pos, {'|', ')', '&', ';'});
    SkipTwice(line, pos, {'|', ')', '&', ';'});
    if stop {
      return Stop(s);
    }
    var t := GetToken(line, s);
    if t.kind == '\0' {
      return Stop(t.next);
    }
    if t.kind != 'a' {
      return Bad;
    }
    if argc + 1 >= MAXARGS {
      return Bad;
    }
    var rs := RunRedirs(line, t.next);
    if rs.NoFile? {
      return Bad;
    }
    return More(Word(t.q, t.eq), rs.list, rs.pos);
  }

  method RunArgs(line: string, i: nat) returns (r: Args)
    requires i <= |line| && IsLine(line)
    ensures r == ParseArgs(line, i, 0)
  {
    var argv, argc, redirs := [], 0, [];
    var a := RunArg(line, i, 0);
    ghost var pos := i;
    BeforeNothing(ParseArgs(line, i, 0));
    while a.More?
      invariant pos <= |line| && RoundOk(line, pos, argc, a)
      invariant Before(argv, redirs, ParseArgs(line, pos, argc)) == ParseArgs(line, i, 0)
      decreases |line| - pos
    {
      BeforeMore(argv, redirs, a.w, a.rs, ParseArgs(line, a.next, argc + 1));
      pos := a.next;
      argv, argc, redirs := argv + [a.w], argc + 1, redirs + a.rs;
      a := RunArg(line, a.next, argc);
    }
    if a.Bad? {
      return BadArgs;
    }
    assert argv + [] == argv && redirs + [] == redirs;
    return Args(argv, redirs, a.next);
  }

  lemma BeforeNothing(r: Args)
    ensures Before([], [], r) == r
  {
    if r.Args? {
      assert [] + r.argv == r.argv && [] + r.redirs == r.redirs;
    }
  }

  // ---------- words in the line ----------

  // A maximal run of word characters
  ghost predicate WordOk(line: string, w: Word) {
    && w.q < w.eq <= |line| && (forall k :: w.q <= k < w.eq ==> IsWordChar(line[k])) && !IsWordChar(At(line, w.eq))
  }

  ghost predicate WordsOk(line: string, c: Cmd<Word>) {
    match c
    case Exec(argv) => |argv| < MAXARGS && forall i :: 0 <= i < |argv| ==> WordOk(line, argv[i])
    case Redir(d, f, _) => WordsOk(line, d) && WordOk(line, f)
    case Pipe(l, r) => WordsOk(line, l) && WordsOk(line, r)
    case List(l, r) => WordsOk(line, l) && WordsOk(line, r)
    case Back(d) => WordsOk(line, d)
  }

  ghost predicate RedirsOk(line: string, rs: seq<(Word, Mode)>) {
    forall i :: 0 <= i < |rs| ==> WordOk(line, rs[i].0)
  }

  lemma {:induction false} WordRuns(line: string, i: nat)
    requires i <= |line| && IsLine(line)
    ensures !IsWordChar(At(line, WordEnd(line, i))) && forall k :: i <= k < WordEnd(line, i) ==> IsWordChar(line[k])
    decreases |line| - i
  {
    if i < |line| && !IsSpace(line[i]) && !IsSymbol(line[i]) {
      assert line[i] in line;
      WordRuns(line, i + 1);
    }
  }

  lemma TokenWord(line: string, i: nat)
    requires i <= |line| && IsLine(line) && Gettok(line, i).kind == 'a'
    ensures WordOk(line, Word(Gettok(line, i).q, Gettok(line, i).eq))
  {
    var q := Skip(line, i);
    assert At(line, q) in line;
    WordRuns(line, q);
  }

  lemma {:induction false} WrapWords(line: string, c: Cmd<Word>, rs: seq<(Word, Mode)>)
    requires WordsOk(line, c) && RedirsOk(line, rs)
    ensures WordsOk(line, Wrap(c, rs))
    decreases |rs|
  {
    if rs != [] {
      WrapWords(line, Redir(c, rs[0].0, rs[0].1), rs[1..]);
    }
  }

  lemma {:induction false} RedirWords(line: string, i: nat)
    requires i <= |line| && IsLine(line) && ParseRedirs(line, i).Redirs?
    ensures RedirsOk(line, ParseRedirs(line, i).list)
    decreases |line| - i
  {
    if Peek(line, i, {'<', '>'}) {
      var t := Gettok(line, i);
      TokenWord(line, t.next);
      RedirWords(line, Gettok(line, t.next).next);
    }
  }

  lemma {:induction false} ArgWords(line: string, i: nat, argc: nat)
    requires i <= |line| && IsLine(line) && ParseArgs(line, i, argc).Args?
    ensures var a := ParseArgs(line, i, argc); RedirsOk(line, a.redirs) && forall k :: 0 <= k < |a.argv| ==>
        WordOk(line, a.argv[k])
    decreases |line| - i
  {
    if !Peek(line, i, {'|', ')', '&', ';'}) && Gettok(line, i).kind != '\0' {
      var t := Gettok(line, i);
      TokenWord(line, i);
      RedirWords(line, t.next);
      ArgWords(line, ParseRedirs(line, t.next).pos, argc + 1);
    }
  }

  lemma {:induction false} ExecWords(line: string, i: nat)
    requires i <= |line| && IsLine(line) && ParseExec(line, i).Ok?
    ensures WordsOk(line, ParseExec(line, i).cmd)
    decreases |line| - i, 1
  {
    if Peek(line, i, {'('}) {
      BlockWords(line, i);
    } else {
      var rs := ParseRedirs(line, i);
      RedirWords(line, i);
      ArgWords(line, rs.pos, 0);
      var a := ParseArgs(line, rs.pos, 0);
      WrapWords(line, Exec(a.argv), rs.list + a.redirs);
    }
  }

  lemma {:induction false} BlockWords(line: string, i: nat)
    requires i <= |line| && IsLine(line) && ParseBlock(line, i).Ok?
    ensures WordsOk(line, ParseBlock(line, i).cmd)
    decreases |line| - i, 0
  {
    var c := ParseLine(line, Gettok(line, i).next);
    LineWords(line, Gettok(line, i).next);
    RedirWords(line, Gettok(line, c.pos).next);
    WrapWords(line, c.cmd, ParseRedirs(line, Gettok(line, c.pos).next).list);
  }

  lemma {:induction false} PipeWords(line: string, i: nat)
    requires i <= |line| && IsLine(line) && ParsePipe(line, i).Ok?
    ensures WordsOk(line, ParsePipe(line, i).cmd)
    decreases |line| - i, 2
  {
    ExecWords(line, i);
    var c := ParseExec(line, i);
    if Peek(line, c.pos, {'|'}) {
      PipeWords(line, Gettok(line, c.pos).next);
    }
  }

  lemma {:induction false} BackWords(line: string, c: Cmd<Word>, i: nat)
    requires i <= |line| && IsLine(line) && WordsOk(line, c)
    ensures WordsOk(line, Backs(line, c, i).0)
    decreases |line| - i
  {
    if Peek(line, i, {'&'}) {
      BackWords(line, Back(c), Gettok(line, i).next);
    }
  }

  lemma {:induction false} LineWords(line: string, i: nat)
    requires i <= |line| && IsLine(line) && ParseLine(line, i).Ok?
    ensures WordsOk(line, ParseLine(line, i).cmd)
    decreases |line| - i, 3
  {
    PipeWords(line, i);
    var c := ParsePipe(line, i);
    BackWords(line, c.cmd, c.pos);
    var b := Backs(line, c.cmd, c.pos);
    if Peek(line, b.1, {';'}) {
      LineWords(line, Gettok(line, b.1).next);
    }
  }

  // ---------- nulterminate ----------

  // Where nulterminate writes
  ghost function Ends(c: Cmd<Word>): set<nat> {
    match c
    case Exec(argv) => EndsOf(argv)
    case Redir(d, f, _) => Ends(d) + {f.eq}
    case Pipe(l, r) => Ends(l) + Ends(r)
    case List(l, r) => Ends(l) + Ends(r)
    case Back(d) => Ends(d)
  }

  ghost function EndsOf(argv: seq<Word>): set<nat> {
    if argv == [] then {} else EndsOf(argv[..|argv| - 1]) + {argv[|argv| - 1].eq}
  }

  // The buffer with NULs at those places
  ghost function Nulled(b: seq<char>, e: set<nat>): (r: seq<char>)
    ensures |r| == |b| && forall i :: 0 <= i < |b| ==> r[i] == if i in e then '\0' else b[i]
  {
    seq(|b|, i requires 0 <= i < |b| => if i in e then '\0' else b[i])
  }

  /** Writes a NUL after every word of the command, in place, and changes nothing else. */
  method Nulterminate(c: Cmd<Word>, buf: array<char>)
    requires WordsIn(c, buf.Length)
    modifies buf
    ensures buf[..] == Nulled(old(buf[..]), Ends(c))
    decreases c
  {
    match c
    case Exec(argv) =>
      var i := 0;
      while i < |argv|
        invariant 0 <= i <= |argv| && buf[..] == Nulled(old(buf[..]), EndsOf(argv[..i]))
      {
        buf[argv[i].eq] := '\0';
        assert argv[..i + 1][..i] == argv[..i];
        i := i + 1;
      }
      assert argv[..i] == argv;
    case Redir(d, f, _) =>
      Nulterminate(d, buf);
      buf[f.eq] := '\0';
    case Pipe(l, r) =>
      Nulterminate(l, buf);
      Nulterminate(r, buf);
    case List(l, r) =>
      Nulterminate(l, buf);
      Nulterminate(r, buf);
    case Back(d) =>
      Nulterminate(d, buf);
  }

  ghost predicate WordsIn(c: Cmd<Word>, n: nat) {
    match c
    case Exec(argv) => forall i :: 0 <= i < |argv| ==> argv[i].eq < n
    case Redir(d, f, _) => WordsIn(d, n) && f.eq < n
    case Pipe(l, r) => WordsIn(l, n) && WordsIn(r, n)
    case List(l, r) => WordsIn(l, n) && WordsIn(r, n)
    case Back(d) => WordsIn(d, n)
  }

  // The C string at index i
  function CString(b: seq<char>, i: nat): string
    decreases |b| - i
  {
    if i < |b| && b[i] != '\0' then [b[i]] + CString(b, i + 1) else []
  }

  function Strings(b: seq<char>, argv: seq<Word>): seq<string> {
    seq(|argv|, i requires 0 <= i < |argv| => CString(b, argv[i].q))
  }

  // The command as runcmd sees it: every word is the C string at its start
  function CText(b: seq<char>, c: Cmd<Word>): Cmd<string> {
    match c
    case Exec(argv) => Exec(Strings(b, argv))
    case Redir(d, f, m) => Redir(CText(b, d), CString(b, f.q), m)
    case Pipe(l, r) => Pipe(CText(b, l), CText(b, r))
    case List(l, r) => List(CText(b, l), CText(b, r))
    case Back(d) => Back(CText(b, d))
  }

  function Slice(line: string, w: Word): string {
    if w.q <= w.eq <= |line| then line[w.q..w.eq] else ""
  }

  function Slices(line: string, argv: seq<Word>): seq<string> {
    seq(|argv|, i requires 0 <= i < |argv| => Slice(line, argv[i]))
  }

  // The command as it stands in the line
  function Text(line: string, c: Cmd<Word>): Cmd<string> {
    match c
    case Exec(argv) => Exec(Slices(line, argv))
    case Redir(d, f, m) => Redir(Text(line, d), Slice(line, f), m)
    case Pipe(l, r) => Pipe(Text(line, l), Text(line, r))
    case List(l, r) => List(Text(line, l), Text(line, r))
    case Back(d) => Back(Text(line, d))
  }

  ghost predicate NoWordAt(line: string, e: set<nat>) {
    forall i :: i in e ==> i <= |line| && !IsWordChar(At(line, i))
  }

  lemma {:induction false} EndsOfApart(line: string, argv: seq<Word>)
    requires forall i :: 0 <= i < |argv| ==> WordOk(line, argv[i])
    ensures NoWordAt(line, EndsOf(argv)) && forall i :: 0 <= i < |argv| ==> argv[i].eq in EndsOf(argv)
  {
    if argv != [] {
      EndsOfApart(line, argv[..|argv| - 1]);
      forall i | 0 <= i < |argv|
        ensures argv[i].eq in EndsOf(argv)
      {
        if i < |argv| - 1 {
          assert argv[..|argv| - 1][i] == argv[i];
        }
      }
    }
  }

  /** No NUL is written inside a word. */
  lemma {:induction false} EndsApart(line: string, c: Cmd<Word>)
    requires WordsOk(line, c)
    ensures NoWordAt(line, Ends(c)) && WordsIn(c, |line| + 1)
  {
    match c
    case Exec(argv) => EndsOfApart(line, argv);
    case Redir(d, f, _) => EndsApart(line, d);
    case Pipe(l, r) => EndsApart(line, l); EndsApart(line, r);
    case List(l, r) => EndsApart(line, l); EndsApart(line, r);
    case Back(d) => EndsApart(line, d);
  }

  lemma {:induction false} WordIntact(line: string, e: set<nat>, q: nat, eq: nat)
    requires q <= eq <= |line| && (forall k :: q <= k < eq ==> IsWordChar(line[k])) && eq in e && NoWordAt(line, e)
    ensures CString(Nulled(line + ['\0'], e), q) == line[q..eq]
    decreases eq - q
  {
    var b := Nulled(line + ['\0'], e);
    if q < eq {
      WordIntact(line, e, q + 1, eq);
      assert b[q] == line[q];
      assert line[q..eq] == [line[q]] + line[q + 1..eq];
    }
  }

  lemma {:induction false} TextIntact(line: string, e: set<nat>, c: Cmd<Word>)
    requires WordsOk(line, c) && Ends(c) <= e && NoWordAt(line, e)
    ensures CText(Nulled(line + ['\0'], e), c) == Text(line, c)
  {
    var b := Nulled(line + ['\0'], e);
    match c
    case Exec(argv) =>
      EndsOfApart(line, argv);
      forall i | 0 <= i < |argv|
        ensures CString(b, argv[i].q) == Slice(line, argv[i])
      {
        WordIntact(line, e, argv[i].q, argv[i].eq);
      }
      assert Strings(b, argv) == Slices(line, argv);
    case Redir(d, f, _) =>
      TextIntact(line, e, d);
      WordIntact(line, e, f.q, f.eq);
    case Pipe(l, r) => TextIntact(line, e, l); TextIntact(line, e, r);
    case List(l, r) => TextIntact(line, e, l); TextIntact(line, e, r);
    case Back(d) => TextIntact(line, e, d);
  }

  /** For every line that parses: after nulterminate's writes into the line, each word of the
      command, read as a C string, is what stood in the line. */
  lemma WordsSurvive(line: string)
    requires IsLine(line) && ParseCmd(line).Ok?
    ensures var c := ParseCmd(line).cmd;
            WordsIn(c, |line| + 1) && CText(Nulled(line + ['\0'], Ends(c)), c) == Text(line, c)
  {
    var c := ParseCmd(line).cmd;
    LineWords(line, 0);
    EndsApart(line, c);
    TextIntact(line, Ends(c), c);
  }

  /** parsecmd on the buffer that holds the line: parses, then writes the NULs. */
  method Parsecmd(buf: array<char>, line: string) returns (r: Result)
    requires IsLine(line) && buf[..] == line + ['\0']
    modifies buf
    ensures r == ParseCmd(line)
    ensures r.Panic? ==> buf[..] == old(buf[..])
    ensures r.Ok? ==> CText(buf[..], r.cmd) == Text(line, r.cmd)
  {
    r := Parse(line);
    if r.Ok? {
      WordsSurvive(line);
      Nulterminate(r.cmd, buf);
    }
  }
}
