/** The grammar of user/sh.c's command lines, as the tokens a line may consist of and the command each such line means.
    The parser accepts exactly these lines and gives exactly that command. */
module ShellGrammar {
  import opened Shell
  import opened ShellParser

  // ---------------------------------------------------------------- tokens

  datatype Tok = Sym(kind: char) | W(word: Word)

  function TokOf(t: Token): Tok { if t.kind == 'a' then W(t.word) else Sym(t.kind) }

  /** The tokens of the line from cursor i on. */
  function Toks(s: string, i: nat): (ts: seq<Tok>)
    requires i <= |s|
    decreases |s| - i
  {
    var t := GetToken(s, i);
    if t.kind == '\0' then [] else [TokOf(t)] + Toks(s, t.next)
  }

  lemma ToksSkip(s: string, i: nat)
    requires i <= |s|
    ensures Toks(s, SkipSpace(s, i)) == Toks(s, i)
  {
    hide GetToken;
    SkipTwice(s, i);
  }

  /** The first token of what is left. */
  lemma FirstTok(s: string, i: nat)
    requires i <= |s|
    ensures var t := GetToken(s, i);
      && (t.kind == '\0' <==> Toks(s, i) == [])
      && (t.kind != '\0' ==>
        Toks(s, i) == [TokOf(t)] + Toks(s, t.next) && Toks(s, i)[0] == TokOf(t) && Toks(s, i)[1..] == Toks(s, t.next))
      && (t.kind != 'a' ==> TokOf(t) == Sym(t.kind)) && (t.kind == 'a' ==> TokOf(t) == W(t.word))
  {
    hide GetToken;
  }

  predicate IsSym(t: Tok, kinds: string) { t.Sym? && t.kind in kinds }

  predicate Starts(ts: seq<Tok>, kinds: string) { ts != [] && IsSym(ts[0], kinds) }

  /** peek, in terms of tokens; ">" and ">>" look the same to it. */
  lemma PeekIs(s: string, i: nat, toks: string)
    requires i <= |s| && (forall c :: c in toks ==> c in "<|>&;()")
    ensures Peek(s, i, toks) <==> Starts(Toks(s, i), toks) || ('>' in toks && Starts(Toks(s, i), "+"))
  {
    KindIs(s, i);
    FirstTok(s, i);
    hide GetToken, Toks, SkipSpace;
  }

  lemma KindIs(s: string, i: nat)
    requires i <= |s|
    ensures var t, q := GetToken(s, i), SkipSpace(s, i);
      && (t.kind == '\0' ==> q == |s|)
      && (t.kind != '\0' ==>
        q < |s| && t.kind ==
        if s[q] == '>' then (if q + 1 < |s| && s[q + 1] == '>' then '+' else '>')
        else if IsSymbol(s[q]) then s[q] else 'a')
  {}

  /** The text from q to e is token t, and no longer token begins there. */
  ghost predicate Spelled(s: string, q: nat, e: nat, t: Tok) {
    q < e <= |s| &&
    match t
    case W(w) => w == Word(q, e) && WordAt(s, w)
    case Sym(c) =>
      if c == '+' then e == q + 2 && s[q] == '>' && s[q + 1] == '>'
      else e == q + 1 && s[q] == c && c in "<|>&;()" && (c == '>' && e < |s| ==> s[e] != '>')
  }

  ghost predicate Blank(s: string, i: nat, j: nat) { i <= j <= |s| && forall k :: i <= k < j ==> IsSpace(s[k]) }

  /** The text from i on is these tokens, with white space around them. */
  ghost predicate Spells(s: string, i: nat, ts: seq<Tok>)
    decreases |ts|
  {
    if ts == [] then Blank(s, i, |s|)
    else exists q: nat, e: nat :: Blank(s, i, q) && Spelled(s, q, e, ts[0]) && Spells(s, e, ts[1..])
  }

  lemma {:induction false} SkipIs(s: string, i: nat, q: nat)
    requires Blank(s, i, q) && (q < |s| ==> !IsSpace(s[q]))
    ensures SkipSpace(s, i) == q
    decreases q - i
  {
    if i < q { SkipIs(s, i + 1, q); }
  }

  lemma TokenSpelled(s: string, i: nat)
    requires i <= |s|
    ensures var t := GetToken(s, i);
      && Blank(s, i, t.word.q) && Blank(s, t.word.eq, t.next)
      && (if t.kind == '\0' then t.word.q == |s| else Spelled(s, t.word.q, t.word.eq, TokOf(t)))
  {}

  lemma SpellsSkip(s: string, e: nat, next: nat, ts: seq<Tok>)
    requires Blank(s, e, next) && Spells(s, next, ts)
    ensures Spells(s, e, ts)
  {
    if ts != [] {
      var q: nat, x: nat :| Blank(s, next, q) && Spelled(s, q, x, ts[0]) && Spells(s, x, ts[1..]);
      assert Blank(s, e, q);
    }
  }

  /** gettoken cuts the line up as it should ... */
  lemma {:induction false} ToksSpell(s: string, i: nat)
    requires i <= |s|
    ensures Spells(s, i, Toks(s, i))
    decreases |s| - i
  {
    hide GetToken, Spelled, Blank;
    TokenSpelled(s, i);
    FirstTok(s, i);
    var t := GetToken(s, i);
    if t.kind != '\0' {
      TokenMoves(s, i);
      ToksSpell(s, t.next);
      SpellsSkip(s, t.word.eq, t.next, Toks(s, t.next));
      assert Toks(s, i)[1..] == Toks(s, t.next);
    }
  }

  lemma SpelledFirst(s: string, i: nat, q: nat, e: nat, t: Tok)
    requires Blank(s, i, q) && Spelled(s, q, e, t)
    ensures i <= |s| && var g := GetToken(s, i);
      g.kind != '\0' && TokOf(g) == t && g.word == Word(q, e) && g.next == SkipSpace(s, e)
  {
    hide SkipSpace, WordEnd;
    SkipIs(s, i, q);
    if t.W? { WordEndAt(s, q, e); }
  }

  lemma {:induction false} WordEndAt(s: string, q: nat, e: nat)
    requires q <= e <= |s| && (forall k :: q <= k < e ==> IsWordChar(s[k])) && (e < |s| ==> !IsWordChar(s[e]))
    ensures WordEnd(s, q) == e
    decreases e - q
  {
    if q < e { WordEndAt(s, q + 1, e); }
  }

  /** ... and there is no other way to. */
  lemma {:induction false} SpellsOnce(s: string, i: nat, ts: seq<Tok>)
    requires i <= |s| && Spells(s, i, ts)
    ensures ts == Toks(s, i)
    decreases |ts|
  {
    hide GetToken, Spelled, SkipSpace;
    FirstTok(s, i);
    if ts == [] {
      SkipIs(s, i, |s|);
      KindIs(s, i);
    } else {
      var q: nat, e: nat :| Blank(s, i, q) && Spelled(s, q, e, ts[0]) && Spells(s, e, ts[1..]);
      SpelledFirst(s, i, q, e, ts[0]);
      assert e <= |s| by { SpelledEnd(s, q, e, ts[0]); }
      SpellsOnce(s, e, ts[1..]);
      ToksSkip(s, e);
      assert ts == [ts[0]] + ts[1..];
    }
  }

  lemma SpelledEnd(s: string, q: nat, e: nat, t: Tok)
    requires Spelled(s, q, e, t)
    ensures e <= |s|
  {}

  // ---------------------------------------------------------------- the grammar

  /** An argument and the redirections after it. */
  datatype Arg = Arg(word: Word, redirs: seq<Redirection>)

  /** A part of a pipeline: a command with its arguments and redirections, or a line in parentheses. */
  datatype Stage = Plain(redirs: seq<Redirection>, args: seq<Arg>) | Block(line: Line, redirs: seq<Redirection>)

  datatype Pipeline = One(stage: Stage) | Piped(stage: Stage, rest: Pipeline)

  /** A pipeline with any number of "&", and perhaps ";" and another line. */
  datatype Line = Last(pipe: Pipeline, backs: nat) | Then(pipe: Pipeline, backs: nat, rest: Line)

  function OpKind(m: Mode): char { match m case Read => '<' case Write => '>' case Append => '+' }

  function RedirToks(rs: seq<Redirection>): (ts: seq<Tok>) {
    if rs == [] then [] else [Sym(OpKind(rs[0].mode)), W(rs[0].word)] + RedirToks(rs[1..])
  }

  function ArgToks(args: seq<Arg>): (ts: seq<Tok>) {
    if args == [] then [] else [W(args[0].word)] + (RedirToks(args[0].redirs) + ArgToks(args[1..]))
  }

  function Ands(n: nat): (ts: seq<Tok>) { if n == 0 then [] else [Sym('&')] + Ands(n - 1) }

  function StageToks(x: Stage): (ts: seq<Tok>) {
    match x
    case Plain(rs, args) => RedirToks(rs) + ArgToks(args)
    case Block(line, rs) => [Sym('(')] + (LineToks(line) + ([Sym(')')] + RedirToks(rs)))
  }

  function PipeToks(p: Pipeline): (ts: seq<Tok>) {
    match p
    case One(x) => StageToks(x)
    case Piped(x, rest) => StageToks(x) + ([Sym('|')] + PipeToks(rest))
  }

  function LineToks(l: Line): (ts: seq<Tok>) {
    match l
    case Last(p, n) => PipeToks(p) + Ands(n)
    case Then(p, n, rest) => PipeToks(p) + (Ands(n) + ([Sym(';')] + LineToks(rest)))
  }

  /** Fewer than MAXARGS arguments per command. */
  predicate Fits(l: Line) { PipeFits(l.pipe) && (l.Then? ==> Fits(l.rest)) }

  predicate PipeFits(p: Pipeline) { StageFits(p.stage) && (p.Piped? ==> PipeFits(p.rest)) }

  predicate StageFits(x: Stage) { if x.Plain? then |x.args| < MAXARGS else Fits(x.line) }

  // ---------------------------------------------------------------- what a line means

  function ArgWords(args: seq<Arg>): (ws: seq<Word>) { if args == [] then [] else [args[0].word] + ArgWords(args[1..]) }

  function ArgRedirs(args: seq<Arg>): (rs: seq<Redirection>) {
    if args == [] then [] else args[0].redirs + ArgRedirs(args[1..])
  }

  /** Redirections apply from the last to the first: the last one written is outermost. */
  function Redirected(c: Cmd, rs: seq<Redirection>): (r: Cmd) {
    if rs == [] then c else Redir(Redirected(c, rs[..|rs| - 1]), rs[|rs| - 1])
  }

  function Backed(c: Cmd, n: nat): (r: Cmd) { if n == 0 then c else Back(Backed(c, n - 1)) }

  function StageCmd(x: Stage): (c: Cmd) {
    match x
    case Plain(rs, args) => Redirected(Exec(ArgWords(args)), rs + ArgRedirs(args))
    case Block(line, rs) => Redirected(LineCmd(line), rs)
  }

  /** a | b | c is a | (b | c). */
  function PipeCmd(p: Pipeline): (c: Cmd) {
    match p
    case One(x) => StageCmd(x)
    case Piped(x, rest) => Pipe(StageCmd(x), PipeCmd(rest))
  }

  function LineCmd(l: Line): (c: Cmd) {
    match l
    case Last(p, n) => Backed(PipeCmd(p), n)
    case Then(p, n, rest) => List(Backed(PipeCmd(p), n), LineCmd(rest))
  }

  // ---------------------------------------------------------------- every sentence is parsed

  lemma {:induction false} WrapIs(c: Cmd, rs: seq<Redirection>)
    ensures Wrap(c, rs) == Redirected(c, rs)
    decreases |rs|
  {
    if |rs| > 0 {
      WrapIs(Redir(c, rs[0]), rs[1..]);
      RedirectedFirst(c, rs);
    }
  }

  lemma {:induction false} RedirectedFirst(c: Cmd, rs: seq<Redirection>)
    requires rs != []
    ensures Redirected(c, rs) == Redirected(Redir(c, rs[0]), rs[1..])
    decreases |rs|
  {
    if |rs| > 1 {
      var n := |rs| - 1;
      RedirectedFirst(c, rs[..n]);
      assert rs[1..][..n - 1] == rs[..n][1..] && rs[1..][n - 1] == rs[n];
    } else {
      assert rs[..0] == [] && rs[1..] == [];
    }
  }

  /** gettoken takes the first token. */
  lemma Take(s: string, i: nat, t: Tok, more: seq<Tok>)
    requires i <= |s| && Toks(s, i) == [t] + more
    ensures var g := GetToken(s, i);
      g.kind != '\0' && Toks(s, g.next) == more &&
        (if t.W? then g.kind == 'a' && g.word == t.word else g.kind == t.kind)
  {
    hide GetToken, Toks;
    FirstTok(s, i);
    assert ([t] + more)[1..] == more;
  }

  lemma RedirsNone(s: string, i: nat)
    requires i <= |s| && !Starts(Toks(s, i), "<>+")
    ensures Redirs(s, i) == Ok([], SkipSpace(s, i)) && Toks(s, SkipSpace(s, i)) == Toks(s, i)
  {
    hide GetToken, SkipSpace, Peek, Toks;
    PeekIs(s, i, "<>");
    ToksSkip(s, i);
  }

  lemma RedirsMore(s: string, i: nat)
    requires i <= |s| && Starts(Toks(s, i), "<>+")
    ensures var op := GetToken(s, i);
      var file := GetToken(s, op.next);
      Redirs(s, i) == if file.kind != 'a' then Panic else
        var rest := Redirs(s, file.next);
        if rest.Panic? then Panic else Ok([To(file.word, ModeOf(op.kind))] + rest.value, rest.pos)
  {
    hide GetToken, SkipSpace, Peek, Toks;
    PeekIs(s, i, "<>");
    SkipTwice(s, i);
  }

  lemma {:induction false} RedirsComplete(s: string, i: nat, rs: seq<Redirection>, rest: seq<Tok>) returns (j: nat)
    requires i <= |s| && Toks(s, i) == RedirToks(rs) + rest && !Starts(rest, "<>+")
    ensures j <= |s| && Redirs(s, i) == Ok(rs, j) && Toks(s, j) == rest
    decreases |rs|
  {
    hide GetToken, SkipSpace, Toks, Redirs;
    if rs == [] {
      assert RedirToks(rs) + rest == rest;
      RedirsNone(s, i);
      j := SkipSpace(s, i);
    } else {
      var more := RedirToks(rs[1..]) + rest;
      assert RedirToks(rs) + rest == [Sym(OpKind(rs[0].mode))] + ([W(rs[0].word)] + more);
      RedirsMore(s, i);
      Take(s, i, Sym(OpKind(rs[0].mode)), [W(rs[0].word)] + more);
      Take(s, GetToken(s, i).next, W(rs[0].word), more);
      j := RedirsComplete(s, GetToken(s, GetToken(s, i).next).next, rs[1..], rest);
      assert [rs[0]] + rs[1..] == rs;
    }
  }

  lemma ArgsNone(s: string, i: nat, a: ArgList)
    requires i <= |s| && (Toks(s, i) == [] || Starts(Toks(s, i), "|)&;"))
    ensures Args(s, i, a).Ok? && Args(s, i, a).value == a && Toks(s, Args(s, i, a).pos) == Toks(s, i)
  {
    hide GetToken, SkipSpace, Peek, Toks;
    PeekIs(s, i, "|)&;");
    ToksSkip(s, i);
    SkipTwice(s, i);
    FirstTok(s, i);
    if Toks(s, i) == [] { EndTok(s, i); }
  }

  lemma EndTok(s: string, i: nat)
    requires i <= |s| && GetToken(s, i).kind == '\0'
    ensures Toks(s, GetToken(s, i).next) == []
  {}

  lemma ArgsOne(s: string, i: nat, a: ArgList)
    requires i <= |s| && Toks(s, i) != [] && Toks(s, i)[0].W?
    ensures var t := GetToken(s, i);
      && t.kind == 'a'
      && Args(s, i, a) == if |a.argv| + 1 >= MAXARGS then Panic else
           var rs := Redirs(s, t.next);
           if rs.Panic? then Panic else Args(s, rs.pos, ArgList(a.argv + [t.word], a.redirs + rs.value))
  {
    hide GetToken, SkipSpace, Peek, Toks;
    PeekIs(s, i, "|)&;");
    SkipTwice(s, i);
    FirstTok(s, i);
  }

  /** The first word, its redirections, and the rest of the arguments. */
  lemma ArgsSplit(args: seq<Arg>, a: ArgList, rest: seq<Tok>)
    requires rest == [] || Starts(rest, "|)&;")
    ensures args == [] ==>
      && ArgToks(args) + rest == rest
      && a == ArgList(a.argv + ArgWords(args), a.redirs + ArgRedirs(args))
    ensures args != [] ==>
      && var more := ArgToks(args[1..]) + rest;
      && ArgToks(args) + rest == [W(args[0].word)] + (RedirToks(args[0].redirs) + more)
      && !Starts(more, "<>+")
      && a.argv + [args[0].word] + ArgWords(args[1..]) == a.argv + ArgWords(args)
      && a.redirs + args[0].redirs + ArgRedirs(args[1..]) == a.redirs + ArgRedirs(args)
  {
    if args == [] { assert a.argv + [] == a.argv && a.redirs + [] == a.redirs; }
  }

  lemma {:induction false} ArgsComplete(s: string, i: nat, args: seq<Arg>, a: ArgList, rest: seq<Tok>) returns (j: nat)
    requires i <= |s| && Toks(s, i) == ArgToks(args) + rest && (rest == [] || Starts(rest, "|)&;"))
    requires |a.argv| + |args| < MAXARGS
    ensures j <= |s| && Args(s, i, a) == Ok(ArgList(a.argv + ArgWords(args), a.redirs + ArgRedirs(args)), j) &&
      Toks(s, j) == rest
    decreases |args|
  {
    hide GetToken, SkipSpace, Toks, Redirs, Args, ArgToks, ArgWords, ArgRedirs, RedirToks, Starts;
    ArgsSplit(args, a, rest);
    if args == [] {
      ArgsNone(s, i, a);
      j := Args(s, i, a).pos;
    } else {
      var w, rs, more := args[0].word, args[0].redirs, ArgToks(args[1..]) + rest;
      ArgsOne(s, i, a);
      Take(s, i, W(w), RedirToks(rs) + more);
      var k := RedirsComplete(s, GetToken(s, i).next, rs, more);
      j := ArgsComplete(s, k, args[1..], ArgList(a.argv + [w], a.redirs + rs), rest);
    }
  }

  /** What may follow a part of a pipeline, a pipeline and a line. */
  predicate Follows(rest: seq<Tok>, kinds: string) { rest == [] || Starts(rest, kinds) }

  lemma ExecPlain(s: string, i: nat, k: nat, rs: seq<Redirection>, a: ArgList, j: nat)
    requires i <= |s| && !Starts(Toks(s, i), "(") && Redirs(s, i) == Ok(rs, k) &&
      Args(s, k, ArgList([], rs)) == Ok(a, j)
    ensures ParseExec(s, i) == Ok(Wrap(Exec(a.argv), a.redirs), j)
  {
    hide GetToken, SkipSpace, Peek, Toks, Redirs, Args, Wrap, ParseBlock;
    PeekIs(s, i, "(");
  }

  lemma ExecBlock(s: string, i: nat, c: Cmd, k: nat, rs: seq<Redirection>, j: nat)
    requires i <= |s| && Starts(Toks(s, i), "(") && ParseLine(s, GetToken(s, i).next) == Ok(c, k) &&
      Starts(Toks(s, k), ")")
    requires Redirs(s, GetToken(s, k).next) == Ok(rs, j)
    ensures ParseExec(s, i) == Ok(Wrap(c, rs), j)
  {
    hide GetToken, SkipSpace, Peek, Toks, Redirs, Args, Wrap, ParseLine;
    PeekIs(s, i, "(");
    PeekIs(s, k, ")");
  }

  lemma StageComplete(s: string, i: nat, x: Stage, rest: seq<Tok>) returns (j: nat)
    requires i <= |s| && Toks(s, i) == StageToks(x) + rest && StageFits(x) && Follows(rest, "|)&;")
    ensures j <= |s| && ParseExec(s, i) == Ok(StageCmd(x), j) && Toks(s, j) == rest
    decreases x, 0
  {
    hide GetToken, Toks, Redirs, Args, Wrap, ParseExec, ParseLine;
    match x {
      case Plain(rs, args) =>
        var more := ArgToks(args) + rest;
        assert StageToks(x) + rest == RedirToks(rs) + more;
        PlainStart(rs, args, rest);
        var k := RedirsComplete(s, i, rs, more);
        j := ArgsComplete(s, k, args, ArgList([], rs), rest);
        assert [] + ArgWords(args) == ArgWords(args);
        ExecPlain(s, i, k, rs, ArgList(ArgWords(args), rs + ArgRedirs(args)), j);
        WrapIs(Exec(ArgWords(args)), rs + ArgRedirs(args));
      case Block(line, rs) =>
        var more := [Sym(')')] + (RedirToks(rs) + rest);
        assert StageToks(x) + rest == [Sym('(')] + (LineToks(line) + more);
        Take(s, i, Sym('('), LineToks(line) + more);
        var k := LineComplete(s, GetToken(s, i).next, line, more);
        Take(s, k, Sym(')'), RedirToks(rs) + rest);
        j := RedirsComplete(s, GetToken(s, k).next, rs, rest);
        ExecBlock(s, i, LineCmd(line), k, rs, j);
        WrapIs(LineCmd(line), rs);
    }
  }

  lemma PlainStart(rs: seq<Redirection>, args: seq<Arg>, rest: seq<Tok>)
    requires Follows(rest, "|)&;")
    ensures !Starts(ArgToks(args) + rest, "<>+") && !Starts(RedirToks(rs) + (ArgToks(args) + rest), "(")
  {}

  lemma PipeEnds(s: string, i: nat, c: Cmd, k: nat)
    requires i <= |s| && ParseExec(s, i) == Ok(c, k) && !Starts(Toks(s, k), "|")
    ensures ParsePipe(s, i) == Ok(c, SkipSpace(s, k)) && Toks(s, SkipSpace(s, k)) == Toks(s, k)
  {
    hide GetToken, SkipSpace, Peek, Toks, ParseExec;
    PeekIs(s, k, "|");
    ToksSkip(s, k);
  }

  lemma PipeGoesOn(s: string, i: nat, c: Cmd, k: nat)
    requires i <= |s| && ParseExec(s, i) == Ok(c, k) && Starts(Toks(s, k), "|")
    ensures var d := ParsePipe(s, GetToken(s, k).next);
      ParsePipe(s, i) == if d.Panic? then Panic else Ok(Pipe(c, d.value), d.pos)
  {
    hide GetToken, SkipSpace, Peek, Toks, ParseExec;
    PeekIs(s, k, "|");
  }

  lemma PipeComplete(s: string, i: nat, p: Pipeline, rest: seq<Tok>) returns (j: nat)
    requires i <= |s| && Toks(s, i) == PipeToks(p) + rest && PipeFits(p) && Follows(rest, ")&;")
    ensures j <= |s| && ParsePipe(s, i) == Ok(PipeCmd(p), j) && Toks(s, j) == rest
    decreases p, 1
  {
    hide GetToken, SkipSpace, Toks, ParseExec, ParsePipe, StageToks, StageCmd, StageFits;
    match p {
      case One(x) =>
        var k := StageComplete(s, i, x, rest);
        PipeEnds(s, i, StageCmd(x), k);
        j := SkipSpace(s, k);
      case Piped(x, more) =>
        var ts := [Sym('|')] + (PipeToks(more) + rest);
        assert PipeToks(p) + rest == StageToks(x) + ts;
        var k := StageComplete(s, i, x, ts);
        Take(s, k, Sym('|'), PipeToks(more) + rest);
        PipeGoesOn(s, i, StageCmd(x), k);
        j := PipeComplete(s, GetToken(s, k).next, more, rest);
    }
  }

  lemma BacksEnd(s: string, i: nat, c: Cmd)
    requires i <= |s| && !Starts(Toks(s, i), "&")
    ensures Backs(s, i, c) == Ok(c, SkipSpace(s, i)) && Toks(s, SkipSpace(s, i)) == Toks(s, i)
  {
    hide GetToken, SkipSpace, Peek, Toks;
    PeekIs(s, i, "&");
    ToksSkip(s, i);
  }

  lemma BacksGoOn(s: string, i: nat, c: Cmd)
    requires i <= |s| && Starts(Toks(s, i), "&")
    ensures Backs(s, i, c) == Backs(s, GetToken(s, i).next, Back(c))
  {
    hide GetToken, SkipSpace, Peek, Toks;
    PeekIs(s, i, "&");
  }

  lemma {:induction false} BacksComplete(s: string, i: nat, c: Cmd, n: nat, rest: seq<Tok>) returns (j: nat)
    requires i <= |s| && Toks(s, i) == Ands(n) + rest && !Starts(rest, "&")
    ensures j <= |s| && Backs(s, i, c) == Ok(Backed(c, n), j) && Toks(s, j) == rest
    decreases n
  {
    hide GetToken, SkipSpace, Toks, Backs;
    if n == 0 {
      assert Ands(0) + rest == rest;
      BacksEnd(s, i, c);
      j := SkipSpace(s, i);
    } else {
      assert Ands(n) + rest == [Sym('&')] + (Ands(n - 1) + rest);
      Take(s, i, Sym('&'), Ands(n - 1) + rest);
      BacksGoOn(s, i, c);
      j := BacksComplete(s, GetToken(s, i).next, Back(c), n - 1, rest);
      BackedOnce(c, n - 1);
    }
  }

  lemma {:induction false} BackedOnce(c: Cmd, n: nat)
    ensures Backed(Back(c), n) == Backed(c, n + 1)
  {
    if n > 0 { BackedOnce(c, n - 1); }
  }

  lemma LineEnds(s: string, i: nat, c: Cmd, k: nat, b: Cmd, j: nat)
    requires i <= |s| && ParsePipe(s, i) == Ok(c, k) && k <= |s| && Backs(s, k, c) == Ok(b, j) &&
      !Starts(Toks(s, j), ";")
    ensures ParseLine(s, i) == Ok(b, SkipSpace(s, j)) && Toks(s, SkipSpace(s, j)) == Toks(s, j)
  {
    hide GetToken, SkipSpace, Peek, Toks, ParsePipe, Backs;
    PeekIs(s, j, ";");
    ToksSkip(s, j);
  }

  lemma LineGoesOn(s: string, i: nat, c: Cmd, k: nat, b: Cmd, j: nat)
    requires i <= |s| && ParsePipe(s, i) == Ok(c, k) && k <= |s| && Backs(s, k, c) == Ok(b, j) &&
      Starts(Toks(s, j), ";")
    ensures var d := ParseLine(s, GetToken(s, j).next);
      ParseLine(s, i) == if d.Panic? then Panic else Ok(List(b, d.value), d.pos)
  {
    hide GetToken, SkipSpace, Peek, Toks, ParsePipe, Backs;
    PeekIs(s, j, ";");
  }

  lemma LineComplete(s: string, i: nat, l: Line, rest: seq<Tok>) returns (j: nat)
    requires i <= |s| && Toks(s, i) == LineToks(l) + rest && Fits(l) && Follows(rest, ")")
    ensures j <= |s| && ParseLine(s, i) == Ok(LineCmd(l), j) && Toks(s, j) == rest
    decreases l, 2
  {
    hide GetToken, SkipSpace, Toks, ParsePipe, ParseLine, Backs, PipeToks, PipeCmd, PipeFits;
    var ts := if l.Last? then rest else [Sym(';')] + (LineToks(l.rest) + rest);
    assert LineToks(l) + rest == PipeToks(l.pipe) + (Ands(l.backs) + ts);
    AndsStart(l.backs, ts);
    var k := PipeComplete(s, i, l.pipe, Ands(l.backs) + ts);
    var b := BacksComplete(s, k, PipeCmd(l.pipe), l.backs, ts);
    var c := Backed(PipeCmd(l.pipe), l.backs);
    if l.Last? {
      LineEnds(s, i, PipeCmd(l.pipe), k, c, b);
      j := SkipSpace(s, b);
    } else {
      Take(s, b, Sym(';'), LineToks(l.rest) + rest);
      LineGoesOn(s, i, PipeCmd(l.pipe), k, c, b);
      j := LineComplete(s, GetToken(s, b).next, l.rest, rest);
    }
  }

  lemma AndsStart(n: nat, ts: seq<Tok>)
    requires Follows(ts, ");")
    ensures Follows(Ands(n) + ts, ")&;") && !Starts(ts, "&")
  {
    if n == 0 { assert Ands(0) + ts == ts; }
  }

  // ---------------------------------------------------------------- what is parsed is a sentence

  lemma {:induction false} RedirsSound(s: string, i: nat)
    requires i <= |s| && Redirs(s, i).Ok?
    ensures Toks(s, i) == RedirToks(Redirs(s, i).value) + Toks(s, Redirs(s, i).pos)
    decreases |s| - i
  {
    hide GetToken, SkipSpace, Toks, Redirs;
    if Starts(Toks(s, i), "<>+") {
      RedirsMore(s, i);
      FirstTok(s, i);
      var op := GetToken(s, i);
      FirstTok(s, op.next);
      var file := GetToken(s, op.next);
      TokenMoves(s, i);
      TokenMoves(s, op.next);
      RedirsSound(s, file.next);
      var rs := Redirs(s, i).value;
      assert rs[1..] == Redirs(s, file.next).value;
      assert RedirToks(rs) == [Sym(op.kind)] + ([W(file.word)] + RedirToks(rs[1..]));
    } else {
      RedirsNone(s, i);
    }
  }

  lemma TokenMoves(s: string, i: nat)
    requires i <= |s| && GetToken(s, i).kind != '\0'
    ensures i < GetToken(s, i).next <= |s|
  {}

  lemma {:induction false} ArgsSound(s: string, i: nat, a: ArgList) returns (args: seq<Arg>)
    requires i <= |s| && Args(s, i, a).Ok? && |a.argv| < MAXARGS
    ensures var b := Args(s, i, a).value;
      b == ArgList(a.argv + ArgWords(args), a.redirs + ArgRedirs(args)) && |a.argv| + |args| < MAXARGS
    ensures Toks(s, i) == ArgToks(args) + Toks(s, Args(s, i, a).pos)
    decreases |s| - i
  {
    hide GetToken, SkipSpace, Toks, Redirs, Args;
    if Toks(s, i) == [] || Starts(Toks(s, i), "|)&;") {
      ArgsNone(s, i, a);
      args := [];
      assert a.argv + [] == a.argv && a.redirs + [] == a.redirs;
    } else {
      ArgsWord(s, i, a);
      ArgsOne(s, i, a);
      FirstTok(s, i);
      TokenMoves(s, i);
      var t := GetToken(s, i);
      var rs := Redirs(s, t.next);
      RedirsSound(s, t.next);
      var more := ArgsSound(s, rs.pos, ArgList(a.argv + [t.word], a.redirs + rs.value));
      args := [Arg(t.word, rs.value)] + more;
      assert args[1..] == more;
      assert a.argv + [t.word] + ArgWords(more) == a.argv + ArgWords(args);
      assert a.redirs + rs.value + ArgRedirs(more) == a.redirs + ArgRedirs(args);
      assert ArgToks(args) == [W(t.word)] + (RedirToks(rs.value) + ArgToks(more));
    }
  }

  /** Anything else where an argument should be is the syntax panic. */
  lemma ArgsWord(s: string, i: nat, a: ArgList)
    requires i <= |s| && Args(s, i, a).Ok? && Toks(s, i) != [] && !Starts(Toks(s, i), "|)&;")
    ensures Toks(s, i)[0].W?
  {
    hide GetToken, SkipSpace, Peek, Toks;
    PeekIs(s, i, "|)&;");
    SkipTwice(s, i);
    FirstTok(s, i);
  }

  lemma ExecParts(s: string, i: nat)
    requires i <= |s| && ParseExec(s, i).Ok?
    ensures if Starts(Toks(s, i), "(") then
        var c := ParseLine(s, GetToken(s, i).next);
        c.Ok? && Starts(Toks(s, c.pos), ")") && var rs := Redirs(s, GetToken(s, c.pos).next);
          rs.Ok? && ParseExec(s, i) == Ok(Wrap(c.value, rs.value), rs.pos)
      else
        var rs := Redirs(s, i);
        rs.Ok? && var a := Args(s, rs.pos, ArgList([], rs.value));
          a.Ok? && ParseExec(s, i) == Ok(Wrap(Exec(a.value.argv), a.value.redirs), a.pos)
  {
    hide GetToken, SkipSpace, Peek, Toks, Redirs, Args, Wrap, ParseLine;
    PeekIs(s, i, "(");
    if Starts(Toks(s, i), "(") { PeekIs(s, ParseLine(s, GetToken(s, i).next).pos, ")"); }
  }

  lemma StageSound(s: string, i: nat) returns (x: Stage)
    requires i <= |s| && ParseExec(s, i).Ok?
    ensures StageFits(x) && ParseExec(s, i).value == StageCmd(x) &&
      Toks(s, i) == StageToks(x) + Toks(s, ParseExec(s, i).pos)
    decreases |s| - i, 1
  {
    hide GetToken, Toks, Redirs, Args, Wrap, ParseExec, ParseLine;
    ExecParts(s, i);
    if Starts(Toks(s, i), "(") {
      FirstTok(s, i);
      TokenMoves(s, i);
      var c := ParseLine(s, GetToken(s, i).next);
      var line := LineSound(s, GetToken(s, i).next);
      FirstTok(s, c.pos);
      var rs := Redirs(s, GetToken(s, c.pos).next);
      RedirsSound(s, GetToken(s, c.pos).next);
      x := Block(line, rs.value);
      WrapIs(c.value, rs.value);
      assert StageToks(x) == [Sym('(')] + (LineToks(line) + ([Sym(')')] + RedirToks(rs.value)));
    } else {
      var rs := Redirs(s, i);
      RedirsSound(s, i);
      var args := ArgsSound(s, rs.pos, ArgList([], rs.value));
      x := Plain(rs.value, args);
      assert [] + ArgWords(args) == ArgWords(args);
      WrapIs(Exec(ArgWords(args)), rs.value + ArgRedirs(args));
    }
  }

  lemma PipeSound(s: string, i: nat) returns (p: Pipeline)
    requires i <= |s| && ParsePipe(s, i).Ok?
    ensures PipeFits(p) && ParsePipe(s, i).value == PipeCmd(p) &&
      Toks(s, i) == PipeToks(p) + Toks(s, ParsePipe(s, i).pos)
    decreases |s| - i, 2
  {
    hide GetToken, Toks, ParseExec, ParsePipe, StageToks, StageCmd, StageFits, SkipSpace;
    PipeHasExec(s, i);
    var x := StageSound(s, i);
    var c := ParseExec(s, i);
    if Starts(Toks(s, c.pos), "|") {
      PipeGoesOn(s, i, c.value, c.pos);
      FirstTok(s, c.pos);
      TokenMoves(s, c.pos);
      var rest := PipeSound(s, GetToken(s, c.pos).next);
      p := Piped(x, rest);
      assert PipeToks(p) == StageToks(x) + ([Sym('|')] + PipeToks(rest));
    } else {
      PipeEnds(s, i, c.value, c.pos);
      p := One(x);
    }
  }

  lemma PipeHasExec(s: string, i: nat)
    requires i <= |s| && ParsePipe(s, i).Ok?
    ensures ParseExec(s, i).Ok?
  {}

  lemma {:induction false} BacksSound(s: string, i: nat, c: Cmd) returns (n: nat)
    requires i <= |s|
    ensures Backs(s, i, c).value == Backed(c, n) && Toks(s, i) == Ands(n) + Toks(s, Backs(s, i, c).pos)
    decreases |s| - i
  {
    hide GetToken, Toks, Backs, SkipSpace;
    if Starts(Toks(s, i), "&") {
      BacksGoOn(s, i, c);
      FirstTok(s, i);
      TokenMoves(s, i);
      var m := BacksSound(s, GetToken(s, i).next, Back(c));
      BackedOnce(c, m);
      n := m + 1;
      assert Ands(n) == [Sym('&')] + Ands(m);
    } else {
      BacksEnd(s, i, c);
      n := 0;
    }
  }

  lemma LineSound(s: string, i: nat) returns (l: Line)
    requires i <= |s| && ParseLine(s, i).Ok?
    ensures Fits(l) && ParseLine(s, i).value == LineCmd(l) && Toks(s, i) == LineToks(l) + Toks(s, ParseLine(s, i).pos)
    decreases |s| - i, 3
  {
    hide GetToken, Toks, ParsePipe, ParseLine, Backs, PipeToks, PipeCmd, PipeFits, SkipSpace;
    LineHasPipe(s, i);
    var p := PipeSound(s, i);
    var c := ParsePipe(s, i);
    var n := BacksSound(s, c.pos, c.value);
    var b := Backs(s, c.pos, c.value);
    if Starts(Toks(s, b.pos), ";") {
      LineGoesOn(s, i, c.value, c.pos, b.value, b.pos);
      FirstTok(s, b.pos);
      TokenMoves(s, b.pos);
      var rest := LineSound(s, GetToken(s, b.pos).next);
      l := Then(p, n, rest);
      assert LineToks(l) == PipeToks(p) + (Ands(n) + ([Sym(';')] + LineToks(rest)));
    } else {
      LineEnds(s, i, c.value, c.pos, b.value, b.pos);
      l := Last(p, n);
    }
  }

  lemma LineHasPipe(s: string, i: nat)
    requires i <= |s| && ParseLine(s, i).Ok?
    ensures ParsePipe(s, i).Ok?
  {}

  // ---------------------------------------------------------------- the language of the shell

  lemma NoneLeft(s: string, i: nat)
    requires i <= |s|
    ensures SkipSpace(s, i) == |s| <==> Toks(s, i) == []
  {
    KindIs(s, i);
    FirstTok(s, i);
  }

  /** The line is written as the grammar says, with any white space, and no command in it has too many arguments. */
  ghost predicate IsSentence(s: string, l: Line) { Spells(s, 0, LineToks(l)) && Fits(l) }

  /** parsecmd accepts every line that is a sentence of the grammar, and gives the command it means, whatever the white
      space between its tokens. */
  lemma ParsesEverySentence(s: string, l: Line)
    requires IsSentence(s, l)
    ensures ParseCmd(s).Ok? && ParseCmd(s).value == LineCmd(l)
  {
    hide Toks, ParseLine, LineToks, LineCmd, Fits, SkipSpace, Spells;
    SpellsOnce(s, 0, LineToks(l));
    assert LineToks(l) + [] == LineToks(l);
    var j := LineComplete(s, 0, l, []);
    NoneLeft(s, j);
  }

  /** And it accepts no other line: words, redirections, "|", "&", ";" and parentheses of an accepted line are, in
      order, those of the command it gives. */
  lemma ParsesOnlySentences(s: string) returns (l: Line)
    requires ParseCmd(s).Ok?
    ensures IsSentence(s, l) && ParseCmd(s).value == LineCmd(l)
  {
    hide Toks, ParseLine, LineToks, LineCmd, Fits, SkipSpace, Spells;
    l := LineSound(s, 0);
    NoneLeft(s, ParseLine(s, 0).pos);
    assert LineToks(l) + [] == LineToks(l);
    ToksSpell(s, 0);
  }

  /** parsecmd accepts exactly the sentences; on any other line it panics. */
  lemma AcceptsExactly(s: string)
    ensures ParseCmd(s).Ok? <==> exists l :: IsSentence(s, l)
  {
    hide ParseCmd, LineCmd, IsSentence;
    if ParseCmd(s).Ok? {
      var l := ParsesOnlySentences(s);
    }
    if l :| IsSentence(s, l) {
      ParsesEverySentence(s, l);
    }
  }
}
