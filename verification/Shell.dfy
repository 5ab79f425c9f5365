/** The shell's tokenizer and recursive-descent parser (user/sh.c), as functions on a line and a cursor.
    The line is the text before its NUL; cursor |s| is the NUL. */
module Shell {

  const MAXARGS: nat := 10

  predicate IsSpace(c: char) { c in " \t\r\n" || c as int == 11 }
  predicate IsSymbol(c: char) { c in "<|>&;()" }
  predicate IsWordChar(c: char) { !IsSpace(c) && !IsSymbol(c) }

  /** argv[i]/eargv[i] or file/efile: a stretch of the line. */
  datatype Word = Word(q: nat, eq: nat)

  datatype Mode = Read | Write | Append

  datatype Redirection = To(word: Word, mode: Mode)

  datatype Cmd = Exec(argv: seq<Word>) | Redir(cmd: Cmd, to: Redirection)
               | Pipe(left: Cmd, right: Cmd) | List(left: Cmd, right: Cmd) | Back(cmd: Cmd)

  datatype Result<T> = Ok(value: T, pos: nat) | Panic

  function SkipSpace(s: string, i: nat): (j: nat)
    requires i <= |s|
    ensures i <= j <= |s| && (j < |s| ==> !IsSpace(s[j])) && forall k :: i <= k < j ==> IsSpace(s[k])
    decreases |s| - i
  {
    if i < |s| && IsSpace(s[i]) then SkipSpace(s, i + 1) else i
  }

  function WordEnd(s: string, i: nat): (j: nat)
    requires i <= |s|
    ensures i <= j <= |s| && (j < |s| ==> !IsWordChar(s[j])) && forall k :: i <= k < j ==> IsWordChar(s[k])
    decreases |s| - i
  {
    if i < |s| && IsWordChar(s[i]) then WordEnd(s, i + 1) else i
  }

  /** gettoken's return value: NUL at the end, '+' for ">>", 'a' for a word, else the symbol itself. */
  datatype Token = Token(kind: char, word: Word, next: nat)

  function GetToken(s: string, i: nat): (t: Token)
    requires i <= |s|
    ensures i <= t.word.q <= t.word.eq <= t.next <= |s|
    ensures t.kind != '\0' ==> t.word.q < t.word.eq
    ensures t.kind == 'a' ==> WordAt(s, t.word)
  {
    var q := SkipSpace(s, i);
    if q == |s| then Token('\0', Word(q, q), q)
    else if s[q] == '>' then
      if q + 1 < |s| && s[q + 1] == '>' then Token('+', Word(q, q + 2), SkipSpace(s, q + 2))
      else Token('>', Word(q, q + 1), SkipSpace(s, q + 1))
    else if IsSymbol(s[q]) then Token(s[q], Word(q, q + 1), SkipSpace(s, q + 1))
    else
      var eq := WordEnd(s, q);
      Token('a', Word(q, eq), SkipSpace(s, eq))
  }

  /** A word is a maximal non-empty stretch of word characters. */
  ghost predicate WordAt(s: string, w: Word) {
    w.q < w.eq <= |s| && (forall k :: w.q <= k < w.eq ==> IsWordChar(s[k])) && (w.eq < |s| ==> !IsWordChar(s[w.eq]))
  }

  predicate Peek(s: string, i: nat, toks: string)
    requires i <= |s|
  {
    var j := SkipSpace(s, i);
    j < |s| && s[j] in toks
  }

  function ModeOf(kind: char): Mode { if kind == '<' then Read else if kind == '>' then Write else Append }

  /** The redirections parseredirs consumes, first one first. */
  function Redirs(s: string, i: nat): (r: Result<seq<Redirection>>)
    requires i <= |s|
    ensures r.Ok? ==> i <= r.pos <= |s|
    decreases |s| - i
  {
    var j := SkipSpace(s, i);
    if !Peek(s, i, "<>") then Ok([], j) else
      var op := GetToken(s, j);
      var file := GetToken(s, op.next);
      if file.kind != 'a' then Panic else
        var rest := Redirs(s, file.next);
        if rest.Panic? then Panic else Ok([To(file.word, ModeOf(op.kind))] + rest.value, rest.pos)
  }

  /** parseredirs wraps the command once per redirection, the last outermost. */
  function Wrap(c: Cmd, rs: seq<Redirection>): (r: Cmd)
    decreases |rs|
  {
    if rs == [] then c else Wrap(Redir(c, rs[0]), rs[1..])
  }

  datatype ArgList = ArgList(argv: seq<Word>, redirs: seq<Redirection>)

  /** parseexec's argument loop. */
  function Args(s: string, i: nat, a: ArgList): (r: Result<ArgList>)
    requires i <= |s|
    ensures r.Ok? ==> i <= r.pos <= |s|
    decreases |s| - i
  {
    var j := SkipSpace(s, i);
    if Peek(s, i, "|)&;") then Ok(a, j) else
      var t := GetToken(s, j);
      if t.kind == '\0' then Ok(a, t.next)
      else if t.kind != 'a' then Panic
      else if |a.argv| + 1 >= MAXARGS then Panic
      else
        var rs := Redirs(s, t.next);
        if rs.Panic? then Panic else Args(s, rs.pos, ArgList(a.argv + [t.word], a.redirs + rs.value))
  }

  function ParseExec(s: string, i: nat): (r: Result<Cmd>)
    requires i <= |s|
    ensures r.Ok? ==> i <= r.pos <= |s|
    decreases |s| - i, 1
  {
    if Peek(s, i, "(") then ParseBlock(s, i) else
      var rs := Redirs(s, i);
      if rs.Panic? then Panic else
        var a := Args(s, rs.pos, ArgList([], rs.value));
        if a.Panic? then Panic else Ok(Wrap(Exec(a.value.argv), a.value.redirs), a.pos)
  }

  function ParseBlock(s: string, i: nat): (r: Result<Cmd>)
    requires i <= |s|
    ensures r.Ok? ==> i <= r.pos <= |s|
    decreases |s| - i, 0
  {
    if !Peek(s, i, "(") then Panic else
      var c := ParseLine(s, GetToken(s, i).next);
      if c.Panic? || !Peek(s, c.pos, ")") then Panic else
        var rs := Redirs(s, GetToken(s, c.pos).next);
        if rs.Panic? then Panic else Ok(Wrap(c.value, rs.value), rs.pos)
  }

  function ParsePipe(s: string, i: nat): (r: Result<Cmd>)
    requires i <= |s|
    ensures r.Ok? ==> i <= r.pos <= |s|
    decreases |s| - i, 2
  {
    var c := ParseExec(s, i);
    if c.Panic? then Panic
    else if !Peek(s, c.pos, "|") then c.(pos := SkipSpace(s, c.pos))
    else
      var d := ParsePipe(s, GetToken(s, c.pos).next);
      if d.Panic? then Panic else Ok(Pipe(c.value, d.value), d.pos)
  }

  /** parseline's loop over '&'. */
  function Backs(s: string, i: nat, c: Cmd): (r: Result<Cmd>)
    requires i <= |s|
    ensures r.Ok? && i <= r.pos <= |s|
    decreases |s| - i
  {
    if Peek(s, i, "&") then Backs(s, GetToken(s, i).next, Back(c)) else Ok(c, SkipSpace(s, i))
  }

  function ParseLine(s: string, i: nat): (r: Result<Cmd>)
    requires i <= |s|
    ensures r.Ok? ==> i <= r.pos <= |s|
    decreases |s| - i, 3
  {
    var c := ParsePipe(s, i);
    if c.Panic? then Panic else
      var b := Backs(s, c.pos, c.value);
      if !Peek(s, b.pos, ";") then b.(pos := SkipSpace(s, b.pos)) else
        var d := ParseLine(s, GetToken(s, b.pos).next);
        if d.Panic? then Panic else Ok(List(b.value, d.value), d.pos)
  }

  /** parsecmd: the whole line must be used up. */
  function ParseCmd(s: string): (r: Result<Cmd>)
  {
    var c := ParseLine(s, 0);
    if c.Panic? || SkipSpace(s, c.pos) != |s| then Panic else c
  }
}
