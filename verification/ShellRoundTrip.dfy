/** Parsing the fully parenthesised print of a command tree gives the tree back. */
module ShellRoundTrip {
  import opened Shell

  /** A command tree with its words as text. */
  datatype Tree = TExec(args: seq<string>) | TRedir(t: Tree, file: string, mode: Mode)
                | TPipe(l: Tree, r: Tree) | TList(l: Tree, r: Tree) | TBack(t: Tree)

  /** The text of a parsed command. */
  ghost function Text(s: string, w: Word): (r: string) {
    if w.q <= w.eq <= |s| then s[w.q..w.eq] else ""
  }

  ghost function TreeOf(s: string, c: Cmd): (t: Tree) {
    match c
    case Exec(argv) => TExec(seq(|argv|, i requires 0 <= i < |argv| => Text(s, argv[i])))
    case Redir(d, to) => TRedir(TreeOf(s, d), Text(s, to.word), to.mode)
    case Pipe(l, r) => TPipe(TreeOf(s, l), TreeOf(s, r))
    case List(l, r) => TList(TreeOf(s, l), TreeOf(s, r))
    case Back(d) => TBack(TreeOf(s, d))
  }

  predicate GoodWord(w: string) { w != "" && forall i :: 0 <= i < |w| ==> IsWordChar(w[i]) }

  /** Words without white space or symbols, fewer than MAXARGS per command. */
  predicate Printable(t: Tree) {
    match t
    case TExec(args) => |args| < MAXARGS && forall i :: 0 <= i < |args| ==> GoodWord(args[i])
    case TRedir(d, file, _) => GoodWord(file) && Printable(d)
    case TPipe(l, r) => Printable(l) && Printable(r)
    case TList(l, r) => Printable(l) && Printable(r)
    case TBack(d) => Printable(d)
  }

  function PrintArgs(args: seq<string>): (s: string) {
    if args == [] then "" else if |args| == 1 then args[0] else args[0] + (" " + PrintArgs(args[1..]))
  }

  function Op(m: Mode): (s: string) { match m case Read => "<" case Write => ">" case Append => ">>" }

  function Paren(t: Tree): (s: string)
    decreases t, 1
  {
    "(" + (Print(t) + ")")
  }

  function Print(t: Tree): (s: string)
    decreases t, 0
  {
    match t
    case TExec(args) => PrintArgs(args)
    case TRedir(d, file, m) => Paren(d) + (Op(m) + file)
    case TPipe(l, r) => Paren(l) + ("|" + Paren(r))
    case TList(l, r) => Paren(l) + (";" + Paren(r))
    case TBack(d) => Paren(d) + "&"
  }

  // ---------------------------------------------------------------- text at a cursor

  ghost predicate Occurs(s: string, i: nat, w: string) {
    i + |w| <= |s| && forall k :: 0 <= k < |w| ==> s[i + k] == w[k]
  }

  lemma OccursBoth(s: string, i: nat, a: string, b: string)
    requires Occurs(s, i, a + b)
    ensures Occurs(s, i, a) && Occurs(s, i + |a|, b)
  {
    forall k | 0 <= k < |a| ensures s[i + k] == a[k] { assert (a + b)[k] == a[k]; }
    forall k | 0 <= k < |b| ensures s[i + |a| + k] == b[k] { assert (a + b)[|a| + k] == b[k]; }
  }

  /** The cursor stands at the NUL or at one of the given characters, none of them white space. */
  predicate StopAt(s: string, i: nat, stops: string) {
    i <= |s| && (i < |s| ==> s[i] in stops && !IsSpace(s[i]))
  }

  /** A word of the line is one token. */
  lemma WordToken(s: string, i: nat, w: string)
    requires GoodWord(w) && Occurs(s, i, w) && (i + |w| < |s| ==> !IsWordChar(s[i + |w|]))
    ensures GetToken(s, i) == Token('a', Word(i, i + |w|), SkipSpace(s, i + |w|)) && Text(s, Word(i, i + |w|)) == w
  {
    forall k | i <= k < i + |w| ensures IsWordChar(s[k]) { assert s[i + (k - i)] == w[k - i]; }
    WordEndIs(s, i, i + |w|);
  }

  lemma {:induction false} WordEndIs(s: string, i: nat, j: nat)
    requires i <= j <= |s| && (forall k :: i <= k < j ==> IsWordChar(s[k])) && (j < |s| ==> !IsWordChar(s[j]))
    ensures WordEnd(s, i) == j
    decreases j - i
  {
    if i < j { WordEndIs(s, i + 1, j); }
  }

  // ---------------------------------------------------------------- arguments

  ghost predicate Spell(s: string, ws: seq<Word>, args: seq<string>) {
    |ws| == |args| && forall k :: 0 <= k < |ws| ==> Text(s, ws[k]) == args[k]
  }

  /** Where the argument after args[0] begins. */
  lemma ArgsNext(s: string, i: nat, args: seq<string>) returns (next: nat)
    requires args != [] && Occurs(s, i, PrintArgs(args)) && (forall k :: 0 <= k < |args| ==> GoodWord(args[k]))
    requires StopAt(s, i + |PrintArgs(args)|, ")")
    ensures Occurs(s, next, PrintArgs(args[1..])) && next + |PrintArgs(args[1..])| == i + |PrintArgs(args)|
    ensures Occurs(s, i, args[0]) && i + |args[0]| <= next && SkipSpace(s, i + |args[0]|) == next
    ensures next < |s| ==> !IsSpace(s[next]) && s[next] !in "<>"
    ensures i + |args[0]| < |s| ==> !IsWordChar(s[i + |args[0]|])
  {
    var w := args[0];
    var j := i + |w|;
    if |args| > 1 {
      var rest := " " + PrintArgs(args[1..]);
      OccursBoth(s, i, w, rest);
      assert s[j + 0] == rest[0] == ' ';
      OccursBoth(s, j, " ", PrintArgs(args[1..]));
      ArgsStart(s, j + 1, args[1..]);
      next := j + 1;
    } else {
      next := j;
    }
  }

  /** The argument loop collects exactly the printed arguments. */
  lemma {:induction false} ArgsParse(s: string, i: nat, args: seq<string>, a: ArgList) returns (ws: seq<Word>)
    requires Occurs(s, i, PrintArgs(args)) && (forall k :: 0 <= k < |args| ==> GoodWord(args[k]))
    requires |a.argv| + |args| < MAXARGS && StopAt(s, i + |PrintArgs(args)|, ")")
    ensures Args(s, i, a) == Ok(ArgList(a.argv + ws, a.redirs), i + |PrintArgs(args)|) && Spell(s, ws, args)
    decreases |args|
  {
    hide Args, Text, Occurs, GetToken, SkipSpace;
    if args == [] {
      ws := [];
      ArgsDone(s, i, a);
      assert a.argv + ws == a.argv;
    } else {
      var next := ArgsNext(s, i, args);
      var w := Word(i, i + |args[0]|);
      WordToken(s, i, args[0]);
      OccursHead(s, i, args[0]);
      ArgsUnfold(s, i, w, next, a);
      hide PrintArgs;
      var ws' := ArgsParse(s, next, args[1..], ArgList(a.argv + [w], a.redirs));
      ws := [w] + ws';
      assert a.argv + [w] + ws' == a.argv + ws;
    }
  }

  lemma ArgsDone(s: string, i: nat, a: ArgList)
    requires StopAt(s, i, ")")
    ensures Args(s, i, a) == Ok(a, i)
  {}

  lemma OccursHead(s: string, i: nat, w: string)
    requires w != "" && Occurs(s, i, w)
    ensures i < |s| && s[i] == w[0]
  {
    assert s[i + 0] == w[0];
  }

  lemma ArgsUnfold(s: string, i: nat, w: Word, next: nat, a: ArgList)
    requires i < |s| && IsWordChar(s[i]) && next <= |s| && |a.argv| + 1 < MAXARGS
    requires GetToken(s, i) == Token('a', w, next) && (next < |s| ==> !IsSpace(s[next]) && s[next] !in "<>")
    ensures Args(s, i, a) == Args(s, next, ArgList(a.argv + [w], a.redirs))
  {
    assert Redirs(s, next) == Ok([], next);
    assert a.redirs + [] == a.redirs;
  }

  lemma ArgsStart(s: string, i: nat, args: seq<string>)
    requires args != [] && GoodWord(args[0]) && Occurs(s, i, PrintArgs(args))
    ensures i < |s| && IsWordChar(s[i])
  {
    assert PrintArgs(args)[0] == args[0][0];
  }

  // ---------------------------------------------------------------- one step up the grammar at a time

  lemma ExecIsPipe(s: string, i: nat, c: Cmd, j: nat)
    requires i <= |s| && ParseExec(s, i) == Ok(c, j) && StopAt(s, j, ";&)")
    ensures ParsePipe(s, i) == Ok(c, j)
  {}

  lemma PipeIsLine(s: string, i: nat, c: Cmd, j: nat)
    requires i <= |s| && ParsePipe(s, i) == Ok(c, j) && StopAt(s, j, ")")
    ensures ParseLine(s, i) == Ok(c, j)
  {}

  /** The symbol at cursor k, followed by something that is not white space, is one token. */
  lemma SymbolToken(s: string, k: nat)
    requires k + 1 <= |s| && s[k] in "()|;&" && (k + 1 < |s| ==> !IsSpace(s[k + 1]))
    ensures GetToken(s, k) == Token(s[k], Word(k, k + 1), k + 1)
  {}

  /** A redirection operator directly followed by a word character is one token. */
  lemma OpToken(s: string, k: nat, m: Mode)
    requires Occurs(s, k, Op(m)) && k + |Op(m)| < |s| && IsWordChar(s[k + |Op(m)|])
    ensures k < |s| && s[k] in "<>"
    ensures GetToken(s, k).next == k + |Op(m)| && GetToken(s, k).kind in "<>+" && ModeOf(GetToken(s, k).kind) == m
  {
    OccursHead(s, k, Op(m));
    if m == Append { assert s[k + 1] == Op(m)[1]; }
  }

  /** The redirection printed at cursor k is parsed back. */
  lemma RedirParses(s: string, k: nat, file: string, m: Mode)
    requires GoodWord(file) && Occurs(s, k, Op(m) + file) && StopAt(s, k + |Op(m) + file|, ")")
    ensures var j := k + |Op(m) + file|;
      Redirs(s, k) == Ok([To(Word(k + |Op(m)|, j), m)], j) && Text(s, Word(k + |Op(m)|, j)) == file
  {
    hide GetToken, Op, Text, WordEnd;
    OccursBoth(s, k, Op(m), file);
    var q, j := k + |Op(m)|, k + |Op(m) + file|;
    OccursHead(s, q, file);
    OpToken(s, k, m);
    WordToken(s, q, file);
    assert Redirs(s, j) == Ok([], j);
    assert [To(Word(q, j), m)] + [] == [To(Word(q, j), m)];
  }

  /** A parenthesised tree with redirections rs after it. */
  lemma BlockIs(s: string, i: nat, c: Cmd, k: nat, rs: seq<Redirection>, j: nat)
    requires i < k < |s| && s[i] == '(' && s[k] == ')' && !IsSpace(s[i + 1]) && ParseLine(s, i + 1) == Ok(c, k)
    requires (k + 1 < |s| ==> !IsSpace(s[k + 1])) && Redirs(s, k + 1) == Ok(rs, j)
    ensures ParseExec(s, i) == Ok(Wrap(c, rs), j)
  {
    hide ParseLine, Redirs, Wrap, Args;
    SymbolToken(s, i);
    SymbolToken(s, k);
    assert SkipSpace(s, i) == i && SkipSpace(s, k) == k;
  }

  // ---------------------------------------------------------------- the round trip

  /** The first character of a print, or of what follows an empty one, is not white space. */
  lemma PrintStart(s: string, i: nat, t: Tree)
    requires Printable(t) && Occurs(s, i, Print(t)) && StopAt(s, i + |Print(t)|, ")")
    ensures i < |s| ==> !IsSpace(s[i]) && (t.TExec? ==> s[i] != '(' && s[i] !in "<>")
  {
    if t.TExec? {
      if t.args != [] { ArgsStart(s, i, t.args); }
    } else {
      OccursHead(s, i, Print(t));
      assert Print(t)[0] == '(';
    }
  }

  /** The inside of a parenthesised tree. */
  lemma InsideParses(s: string, i: nat, t: Tree) returns (c: Cmd, k: nat)
    requires Printable(t) && Occurs(s, i, Paren(t))
    ensures k == i + |Paren(t)| - 1 && i < k < |s| && s[i] == '(' && s[k] == ')' && !IsSpace(s[i + 1])
    ensures ParseLine(s, i + 1) == Ok(c, k) && TreeOf(s, c) == t
    decreases t, 5
  {
    hide ParseLine, ParseExec, ParsePipe, TreeOf, Printable, Print, Occurs;
    assert Paren(t) == "(" + (Print(t) + ")");
    OccursBoth(s, i, "(", Print(t) + ")");
    OccursHead(s, i, "(");
    OccursBoth(s, i + 1, Print(t), ")");
    k := i + 1 + |Print(t)|;
    OccursHead(s, k, ")");
    PrintStart(s, i + 1, t);
    c := LineParses(s, i + 1, t);
  }

  lemma BlockParses(s: string, i: nat, t: Tree) returns (c: Cmd)
    requires Printable(t) && Occurs(s, i, Paren(t)) && StopAt(s, i + |Paren(t)|, "|;&)")
    ensures ParseExec(s, i) == Ok(c, i + |Paren(t)|) && TreeOf(s, c) == t
    decreases t, 6
  {
    hide ParseLine, ParseExec, ParsePipe, TreeOf, Printable, Print, Paren, Occurs;
    var k;
    c, k := InsideParses(s, i, t);
    NoRedirs(s, k + 1);
    BlockIs(s, i, c, k, [], k + 1);
  }

  lemma NoRedirs(s: string, j: nat)
    requires StopAt(s, j, "|;&)")
    ensures Redirs(s, j) == Ok([], j) && (j < |s| ==> !IsSpace(s[j]))
  {}

  /** Parsing the print of any printable tree gives back exactly that tree and stops right after it. */
  lemma LineParses(s: string, i: nat, t: Tree) returns (c: Cmd)
    requires Printable(t) && Occurs(s, i, Print(t)) && StopAt(s, i + |Print(t)|, ")")
    ensures ParseLine(s, i) == Ok(c, i + |Print(t)|) && TreeOf(s, c) == t
    decreases t, 4
  {
    hide ParseLine, ParsePipe, ParseExec;
    var j := i + |Print(t)|;
    match t
    case TExec(args) => c := ExecParses(s, i, t);
    case TRedir(d, file, m) => c := RedirLine(s, i, t);
    case TPipe(l, r) =>
      var k, d;
      c, k, d := BothParse(s, i, t);
      ExecIsPipe(s, k + 1, d, j);
      PipeLine(s, i, c, k, d, j);
      c := Pipe(c, d);
      PipeIsLine(s, i, c, j);
    case TList(l, r) =>
      var k, d;
      c, k, d := BothParse(s, i, t);
      ExecIsPipe(s, k + 1, d, j);
      PipeIsLine(s, k + 1, d, j);
      ExecIsPipe(s, i, c, k);
      ListLine(s, i, c, k, d, j);
      c := List(c, d);
    case TBack(d) => c := BackParses(s, i, t);
  }

  lemma RedirLine(s: string, i: nat, t: Tree) returns (c: Cmd)
    requires t.TRedir? && Printable(t) && Occurs(s, i, Print(t)) && StopAt(s, i + |Print(t)|, ")")
    ensures ParseLine(s, i) == Ok(c, i + |Print(t)|) && TreeOf(s, c) == t
    decreases t, 3
  {
    hide ParseLine, ParsePipe, ParseExec, Text, Redirs, GetToken;
    var m, j := t.mode, i + |Print(t)|;
    OccursBoth(s, i, Paren(t.t), Op(m) + t.file);
    var d, k := InsideParses(s, i, t.t);
    RedirParses(s, k + 1, t.file, m);
    OccursHead(s, k + 1, Op(m) + t.file);
    var rs := [To(Word(k + 1 + |Op(m)|, j), m)];
    BlockIs(s, i, d, k, rs, j);
    c := Redir(d, rs[0]);
    assert Wrap(c, rs[1..]) == c;
    ExecIsPipe(s, i, c, j);
    PipeIsLine(s, i, c, j);
  }

  lemma BackParses(s: string, i: nat, t: Tree) returns (c: Cmd)
    requires t.TBack? && Printable(t) && Occurs(s, i, Print(t)) && StopAt(s, i + |Print(t)|, ")")
    ensures ParseLine(s, i) == Ok(c, i + |Print(t)|) && TreeOf(s, c) == t
    decreases t, 3
  {
    hide ParseLine, ParsePipe, ParseExec, Text;
    OccursBoth(s, i, Paren(t.t), "&");
    var k := i + |Paren(t.t)|;
    OccursHead(s, k, "&");
    var d := BlockParses(s, i, t.t);
    ExecIsPipe(s, i, d, k);
    BackLine(s, i, d, k);
    c := Back(d);
  }

  lemma ExecParses(s: string, i: nat, t: Tree) returns (c: Cmd)
    requires t.TExec? && Printable(t) && Occurs(s, i, Print(t)) && StopAt(s, i + |Print(t)|, ")")
    ensures ParseLine(s, i) == Ok(c, i + |Print(t)|) && TreeOf(s, c) == t
  {
    hide ParseLine, ParsePipe, ParseExec, Args, Text;
    PrintStart(s, i, t);
    var ws := ArgsParse(s, i, t.args, ArgList([], []));
    assert [] + ws == ws;
    ExecUnfold(s, i, ws, i + |Print(t)|);
    c := Exec(ws);
    ExecIsPipe(s, i, c, i + |Print(t)|);
    PipeIsLine(s, i, c, i + |Print(t)|);
  }

  lemma ExecUnfold(s: string, i: nat, ws: seq<Word>, j: nat)
    requires i <= |s| && (i < |s| ==> !IsSpace(s[i]) && s[i] != '(' && s[i] !in "<>")
    requires Args(s, i, ArgList([], [])) == Ok(ArgList(ws, []), j)
    ensures ParseExec(s, i) == Ok(Exec(ws), j)
  {
    assert Redirs(s, i) == Ok([], i);
  }

  /** Two parenthesised trees around "|" or ";". */
  lemma BothParse(s: string, i: nat, t: Tree) returns (c: Cmd, k: nat, d: Cmd)
    requires (t.TPipe? || t.TList?) && Printable(t) && Occurs(s, i, Print(t)) && StopAt(s, i + |Print(t)|, ")")
    ensures i <= k && ParseExec(s, i) == Ok(c, k) && TreeOf(s, c) == t.l
    ensures k + 1 < |s| && s[k] == (if t.TPipe? then '|' else ';') &&
      GetToken(s, k) == Token(s[k], Word(k, k + 1), k + 1)
    ensures ParseExec(s, k + 1) == Ok(d, i + |Print(t)|) && TreeOf(s, d) == t.r
    decreases t, 3
  {
    hide ParseExec, GetToken;
    var op := if t.TPipe? then "|" else ";";
    OccursBoth(s, i, Paren(t.l), op + Paren(t.r));
    k := i + |Paren(t.l)|;
    OccursBoth(s, k, op, Paren(t.r));
    OccursHead(s, k, op);
    OccursHead(s, k + 1, Paren(t.r));
    SymbolToken(s, k);
    c := BlockParses(s, i, t.l);
    d := BlockParses(s, k + 1, t.r);
  }

  lemma PipeLine(s: string, i: nat, c: Cmd, k: nat, d: Cmd, j: nat)
    requires i <= k < |s| && ParseExec(s, i) == Ok(c, k) && s[k] == '|' &&
      GetToken(s, k) == Token('|', Word(k, k + 1), k + 1)
    requires ParsePipe(s, k + 1) == Ok(d, j)
    ensures ParsePipe(s, i) == Ok(Pipe(c, d), j)
  {
    assert SkipSpace(s, k) == k;
  }

  lemma ListLine(s: string, i: nat, c: Cmd, k: nat, d: Cmd, j: nat)
    requires i <= k < |s| && ParsePipe(s, i) == Ok(c, k) && s[k] == ';' &&
      GetToken(s, k) == Token(';', Word(k, k + 1), k + 1)
    requires ParseLine(s, k + 1) == Ok(d, j)
    ensures ParseLine(s, i) == Ok(List(c, d), j)
  {
    assert SkipSpace(s, k) == k;
    assert Backs(s, k, c) == Ok(c, k);
  }

  lemma BackLine(s: string, i: nat, c: Cmd, k: nat)
    requires i <= k < |s| && ParsePipe(s, i) == Ok(c, k) && s[k] == '&' && StopAt(s, k + 1, ")")
    ensures ParseLine(s, i) == Ok(Back(c), k + 1)
  {
    hide ParsePipe, ParseExec;
    SymbolToken(s, k);
    assert SkipSpace(s, k) == k && SkipSpace(s, k + 1) == k + 1;
    assert Backs(s, k + 1, Back(c)) == Ok(Back(c), k + 1);
    assert Backs(s, k, c) == Ok(Back(c), k + 1);
  }

  /** Round trip: parsecmd on the printed tree succeeds, uses the whole line, and yields that tree. */
  lemma RoundTrip(t: Tree)
    requires Printable(t)
    ensures ParseCmd(Print(t)).Ok? && TreeOf(Print(t), ParseCmd(Print(t)).value) == t
  {
    hide ParseLine, Print, TreeOf, Printable;
    var c := LineParses(Print(t), 0, t);
  }
}
