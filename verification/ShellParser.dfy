/** The loops of user/sh.c's parser, proved against module Shell, and nulterminate. */
module ShellParser {
  import opened Shell

  // ---------------------------------------------------------------- scanning loops

  method Skip(s: string, i: nat) returns (j: nat)
    requires i <= |s|
    ensures j == SkipSpace(s, i)
  {
    j := i;
    while j < |s| && IsSpace(s[j])
      invariant i <= j <= |s| && SkipSpace(s, i) == SkipSpace(s, j)
    {
      j := j + 1;
    }
  }

  method ScanToken(s: string, i: nat) returns (t: Token)
    requires i <= |s|
    ensures t == GetToken(s, i)
  {
    var q := Skip(s, i);
    var e, kind := q, '\0';
    if q < |s| {
      kind := s[q];
      if kind == '>' {
        e := q + 1;
        if e < |s| && s[e] == '>' { kind, e := '+', e + 1; }
      } else if IsSymbol(kind) {
        e := q + 1;
      } else {
        kind := 'a';
        while e < |s| && !IsSpace(s[e]) && !IsSymbol(s[e])
          invariant q <= e <= |s| && WordEnd(s, q) == WordEnd(s, e)
        {
          e := e + 1;
        }
      }
    }
    var next := Skip(s, e);
    t := Token(kind, Word(q, e), next);
  }

  method PeekAt(s: string, i: nat, toks: string) returns (j: nat, yes: bool)
    requires i <= |s|
    ensures j == SkipSpace(s, i) && yes == Peek(s, i, toks)
  {
    j := Skip(s, i);
    yes := j < |s| && s[j] in toks;
  }

  /** Scanning again from where white space was skipped changes nothing. */
  lemma {:induction false} SkipTwice(s: string, i: nat)
    requires i <= |s|
    ensures SkipSpace(s, SkipSpace(s, i)) == SkipSpace(s, i) && GetToken(s, SkipSpace(s, i)) == GetToken(s, i)
  {}

  /** parseredirs: collects redirections until the next token is neither '<' nor '>'. */
  method ScanRedirs(s: string, i: nat) returns (r: Result<seq<Redirection>>)
    requires i <= |s|
    ensures r == Redirs(s, i)
  {
    var j := i;
    var rs: seq<Redirection> := [];
    assert Redirs(s, i).Ok? ==> rs + Redirs(s, i).value == Redirs(s, i).value;
    while true
      invariant i <= j <= |s|
      invariant Redirs(s, i) == var rest := Redirs(s, j);
        if rest.Panic? then Panic else Ok(rs + rest.value, rest.pos)
      decreases |s| - j
    {
      var k, yes := PeekAt(s, j, "<>");
      SkipTwice(s, j);
      if !yes {
        assert rs + [] == rs;
        return Ok(rs, k);
      }
      var op := ScanToken(s, k);
      var file := ScanToken(s, op.next);
      if file.kind != 'a' { return Panic; }
      ghost var rest := Redirs(s, file.next);
      if rest.Ok? {
        assert rs + ([To(file.word, ModeOf(op.kind))] + rest.value) ==
          rs + [To(file.word, ModeOf(op.kind))] + rest.value;
      }
      rs, j := rs + [To(file.word, ModeOf(op.kind))], file.next;
    }
  }

  /** parseexec's argument loop. */
  method ScanArgs(s: string, i: nat, rs: seq<Redirection>) returns (r: Result<ArgList>)
    requires i <= |s|
    ensures r == Args(s, i, ArgList([], rs))
  {
    var j, a := i, ArgList([], rs);
    while true
      invariant i <= j <= |s| && Args(s, i, ArgList([], rs)) == Args(s, j, a)
      decreases |s| - j
    {
      var k, yes := PeekAt(s, j, "|)&;");
      if yes { return Ok(a, k); }
      var t := ScanToken(s, k);
      if t.kind == '\0' { return Ok(a, t.next); }
      if t.kind != 'a' { return Panic; }
      if |a.argv| + 1 >= MAXARGS { return Panic; }
      var more := ScanRedirs(s, t.next);
      if more.Panic? { return Panic; }
      j, a := more.pos, ArgList(a.argv + [t.word], a.redirs + more.value);
    }
  }

  /** parseline: a pipeline, any number of '&', and perhaps ';' and another line. */
  method ScanLine(s: string, i: nat) returns (r: Result<Cmd>)
    requires i <= |s|
    ensures r == ParseLine(s, i)
    decreases |s| - i, 3
  {
    var c := ScanPipe(s, i);
    if c.Panic? { return Panic; }
    var j, cmd := c.pos, c.value;
    while true
      invariant c.pos <= j <= |s| && Backs(s, c.pos, c.value) == Backs(s, j, cmd)
      decreases |s| - j
    {
      var k, yes := PeekAt(s, j, "&");
      SkipTwice(s, j);
      if !yes { j := k; break; }
      var t := ScanToken(s, k);
      j, cmd := t.next, Back(cmd);
    }
    SkipTwice(s, j);
    var k, yes := PeekAt(s, j, ";");
    if !yes { return Ok(cmd, k); }
    var t := ScanToken(s, k);
    var d := ScanLine(s, t.next);
    r := if d.Panic? then Panic else Ok(List(cmd, d.value), d.pos);
  }

  method ScanPipe(s: string, i: nat) returns (r: Result<Cmd>)
    requires i <= |s|
    ensures r == ParsePipe(s, i)
    decreases |s| - i, 2
  {
    var c := ScanExec(s, i);
    if c.Panic? { return Panic; }
    SkipTwice(s, c.pos);
    var k, yes := PeekAt(s, c.pos, "|");
    if !yes { return Ok(c.value, k); }
    var t := ScanToken(s, k);
    var d := ScanPipe(s, t.next);
    r := if d.Panic? then Panic else Ok(Pipe(c.value, d.value), d.pos);
  }

  method ScanExec(s: string, i: nat) returns (r: Result<Cmd>)
    requires i <= |s|
    ensures r == ParseExec(s, i)
    decreases |s| - i, 1
  {
    var k, yes := PeekAt(s, i, "(");
    SkipTwice(s, i);
    if yes {
      r := ScanBlock(s, i);
      return;
    }
    var rs := ScanRedirs(s, i);
    if rs.Panic? { return Panic; }
    var a := ScanArgs(s, rs.pos, rs.value);
    r := if a.Panic? then Panic else Ok(Wrap(Exec(a.value.argv), a.value.redirs), a.pos);
  }

  method ScanBlock(s: string, i: nat) returns (r: Result<Cmd>)
    requires i <= |s|
    ensures r == ParseBlock(s, i)
    decreases |s| - i, 0
  {
    var k, yes := PeekAt(s, i, "(");
    SkipTwice(s, i);
    if !yes { return Panic; }
    var t := ScanToken(s, k);
    var c := ScanLine(s, t.next);
    if c.Panic? { return Panic; }
    var k', close := PeekAt(s, c.pos, ")");
    SkipTwice(s, c.pos);
    if !close { return Panic; }
    var t' := ScanToken(s, k');
    var rs := ScanRedirs(s, t'.next);
    r := if rs.Panic? then Panic else Ok(Wrap(c.value, rs.value), rs.pos);
  }

  // ---------------------------------------------------------------- nulterminate

  /** Every word of the command, and every file name, is a maximal word of the line. */
  ghost predicate Good(s: string, c: Cmd) {
    match c
    case Exec(argv) => forall i :: 0 <= i < |argv| ==> WordAt(s, argv[i])
    case Redir(d, to) => Good(s, d) && WordAt(s, to.word)
    case Pipe(l, r) => Good(s, l) && Good(s, r)
    case List(l, r) => Good(s, l) && Good(s, r)
    case Back(d) => Good(s, d)
  }

  ghost predicate GoodRedirs(s: string, rs: seq<Redirection>) { forall i :: 0 <= i < |rs| ==> WordAt(s, rs[i].word) }

  lemma {:induction false} RedirsGood(s: string, i: nat)
    requires i <= |s| && Redirs(s, i).Ok?
    ensures GoodRedirs(s, Redirs(s, i).value)
    decreases |s| - i
  {
    if Peek(s, i, "<>") { RedirsGood(s, GetToken(s, GetToken(s, SkipSpace(s, i)).next).next); }
  }

  lemma {:induction false} WrapGood(s: string, c: Cmd, rs: seq<Redirection>)
    requires Good(s, c) && GoodRedirs(s, rs)
    ensures Good(s, Wrap(c, rs))
    decreases |rs|
  {
    if rs != [] { WrapGood(s, Redir(c, rs[0]), rs[1..]); }
  }

  lemma {:induction false} ArgsGood(s: string, i: nat, a: ArgList)
    requires i <= |s| && Args(s, i, a).Ok? && Good(s, Exec(a.argv)) && GoodRedirs(s, a.redirs)
    ensures Good(s, Exec(Args(s, i, a).value.argv)) && GoodRedirs(s, Args(s, i, a).value.redirs)
    decreases |s| - i
  {
    var t := GetToken(s, SkipSpace(s, i));
    if !Peek(s, i, "|)&;") && t.kind == 'a' {
      var rs := Redirs(s, t.next);
      RedirsGood(s, t.next);
      ArgsGood(s, rs.pos, ArgList(a.argv + [t.word], a.redirs + rs.value));
    }
  }

  lemma {:induction false} BacksGood(s: string, i: nat, c: Cmd)
    requires i <= |s| && Good(s, c)
    ensures Good(s, Backs(s, i, c).value)
    decreases |s| - i
  {
    if Peek(s, i, "&") { BacksGood(s, GetToken(s, i).next, Back(c)); }
  }

  lemma {:induction false} ExecGood(s: string, i: nat)
    requires i <= |s| && ParseExec(s, i).Ok?
    ensures Good(s, ParseExec(s, i).value)
    decreases |s| - i, 1
  {
    if Peek(s, i, "(") {
      var c := ParseLine(s, GetToken(s, i).next);
      LineGood(s, GetToken(s, i).next);
      RedirsGood(s, GetToken(s, c.pos).next);
      WrapGood(s, c.value, Redirs(s, GetToken(s, c.pos).next).value);
    } else {
      var rs := Redirs(s, i);
      RedirsGood(s, i);
      ArgsGood(s, rs.pos, ArgList([], rs.value));
      var a := Args(s, rs.pos, ArgList([], rs.value)).value;
      WrapGood(s, Exec(a.argv), a.redirs);
    }
  }

  lemma {:induction false} PipeGood(s: string, i: nat)
    requires i <= |s| && ParsePipe(s, i).Ok?
    ensures Good(s, ParsePipe(s, i).value)
    decreases |s| - i, 2
  {
    ExecGood(s, i);
    var c := ParseExec(s, i);
    if Peek(s, c.pos, "|") { PipeGood(s, GetToken(s, c.pos).next); }
  }

  /** Whatever the parser returns, its words are maximal words of the line. */
  lemma {:induction false} LineGood(s: string, i: nat)
    requires i <= |s| && ParseLine(s, i).Ok?
    ensures Good(s, ParseLine(s, i).value)
    decreases |s| - i, 3
  {
    PipeGood(s, i);
    var c := ParsePipe(s, i);
    BacksGood(s, c.pos, c.value);
    var b := Backs(s, c.pos, c.value);
    if Peek(s, b.pos, ";") { LineGood(s, GetToken(s, b.pos).next); }
  }

  /** Words of a command, file names included. */
  ghost function Words(c: Cmd): (r: set<Word>) {
    match c
    case Exec(argv) => set w | w in argv
    case Redir(d, to) => Words(d) + {to.word}
    case Pipe(l, r) => Words(l) + Words(r)
    case List(l, r) => Words(l) + Words(r)
    case Back(d) => Words(d)
  }

  lemma {:induction false} GoodWords(s: string, c: Cmd, w: Word)
    requires Good(s, c) && w in Words(c)
    ensures WordAt(s, w)
  {
    match c
    case Exec(argv) =>
    case Redir(d, to) => if w in Words(d) { GoodWords(s, d, w); }
    case Pipe(l, r) => if w in Words(l) { GoodWords(s, l, w); } else { GoodWords(s, r, w); }
    case List(l, r) => if w in Words(l) { GoodWords(s, l, w); } else { GoodWords(s, r, w); }
    case Back(d) => GoodWords(s, d, w);
  }

  /** The line in memory: its characters and the terminating NUL. */
  ghost predicate Holds(buf: array<char>, s: string)
    reads buf
  {
    buf.Length == |s| + 1 && buf[..|s|] == s && buf[|s|] == '\0'
  }

  /** nulterminate: writes NUL exactly at the ends of the command's words. */
  method NulTerminate(buf: array<char>, c: Cmd, ghost s: string)
    requires buf.Length == |s| + 1 && Good(s, c)
    modifies buf
    ensures forall k :: 0 <= k < buf.Length && (forall w :: w in Words(c) ==> w.eq != k) ==> buf[k] == old(buf[k])
    ensures forall w :: w in Words(c) ==> w.eq < buf.Length && buf[w.eq] == '\0'
    decreases c
  {
    match c
    case Exec(argv) =>
      for i := 0 to |argv|
        invariant forall k :: 0 <= k < buf.Length && (forall w :: w in argv[..i] ==> w.eq != k) ==>
          buf[k] == old(buf[k])
        invariant forall j :: 0 <= j < i ==> buf[argv[j].eq] == '\0'
      {
        assert WordAt(s, argv[i]);
        buf[argv[i].eq] := '\0';
      }
      assert argv[..|argv|] == argv;
    case Redir(d, to) =>
      NulTerminate(buf, d, s);
      buf[to.word.eq] := '\0';
    case Pipe(l, r) =>
      NulTerminate(buf, l, s);
      NulTerminate(buf, r, s);
    case List(l, r) =>
      NulTerminate(buf, l, s);
      NulTerminate(buf, r, s);
    case Back(d) => NulTerminate(buf, d, s);
  }

  /** The C string at a pointer into memory. */
  ghost function CString(m: seq<char>, p: nat): (r: string)
    requires p <= |m|
    decreases |m| - p
  {
    if p == |m| || m[p] == '\0' then "" else [m[p]] + CString(m, p + 1)
  }

  lemma {:induction false} CStringIs(m: seq<char>, p: nat, e: nat)
    requires p <= e < |m| && m[e] == '\0' && forall k :: p <= k < e ==> m[k] != '\0'
    ensures CString(m, p) == m[p..e]
    decreases e - p
  {
    if p < e { CStringIs(m, p + 1, e); }
  }

  /** parsecmd on a line in memory: afterwards every word of the command, read as a C string from its pointer,
      is exactly its token; no terminator was written into any word. */
  method ParseInPlace(buf: array<char>, s: string) returns (r: Result<Cmd>)
    requires Holds(buf, s) && '\0' !in s
    modifies buf
    ensures r == ParseCmd(s)
    ensures r.Ok? ==> forall w :: w in Words(r.value) ==>
      WordAt(s, w) && buf.Length == |s| + 1 && CString(buf[..], w.q) == s[w.q..w.eq]
  {
    r := ScanLine(s, 0);
    if r.Panic? { return; }
    var k := Skip(s, r.pos);
    if k != |s| { return Panic; }
    var c := r.value;
    hide ParseLine;
    LineGood(s, 0);
    NulTerminate(buf, c, s);
    forall w | w in Words(c) ensures WordAt(s, w) && CString(buf[..], w.q) == s[w.q..w.eq] {
      GoodWords(s, c, w);
      forall k | w.q <= k < w.eq ensures buf[k] == s[k] && s[k] != '\0' {
        forall v | v in Words(c) ensures v.eq != k { GoodWords(s, c, v); }
        assert buf[k] == old(buf[k]) == old(buf[..|s|])[k];
      }
      CStringIs(buf[..], w.q, w.eq);
      assert buf[..][w.q..w.eq] == s[w.q..w.eq];
    }
  }
}
