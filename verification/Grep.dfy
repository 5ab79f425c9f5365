/** The regular-expression matcher of user/grep.c, against the language its patterns denote.
    A C string is a seq<char> without its NUL, and a pointer into it is a suffix. */
module Grep {

  /** What a pattern means: a chain of single characters and starred characters, perhaps anchored at the end. */
  datatype Pattern = Empty | End | One(c: char, rest: Pattern) | Star(c: char, rest: Pattern)

  function Parse(re: string): (p: Pattern) {
    if re == "" then Empty
    else if |re| >= 2 && re[1] == '*' then Star(re[0], Parse(re[2..]))
    else if re == "$" then End
    else One(re[0], Parse(re[1..]))
  }

  predicate Fits(c: char, x: char) { c == '.' || c == x }

  predicate AllFit(c: char, w: string) { forall i :: 0 <= i < |w| ==> Fits(c, w[i]) }

  /** w is a word of the pattern's language. */
  ghost predicate Word(p: Pattern, w: string) {
    match p
    case Empty => w == ""
    case End => w == ""
    case One(c, rest) => w != "" && Fits(c, w[0]) && Word(rest, w[1..])
    case Star(c, rest) => exists j :: 0 <= j <= |w| && AllFit(c, w[..j]) && Word(rest, w[j..])
  }

  predicate Anchored(p: Pattern) {
    match p
    case Empty => false
    case End => true
    case One(_, rest) => Anchored(rest)
    case Star(_, rest) => Anchored(rest)
  }

  /** Some prefix of the text (all of it, when anchored at the end) is a word of the pattern. */
  ghost predicate Here(p: Pattern, text: string) {
    exists k :: 0 <= k <= |text| && Word(p, text[..k]) && (Anchored(p) ==> k == |text|)
  }

  /** The whole pattern language: a leading '^' pins the match to the start, otherwise any suffix may match. */
  ghost predicate Matches(re: string, text: string) {
    if re != "" && re[0] == '^' then Here(Parse(re[1..]), text)
    else exists i :: 0 <= i <= |text| && Here(Parse(re), text[i..])
  }

  lemma HereOne(c: char, rest: Pattern, text: string)
    ensures Here(One(c, rest), text) <==> text != "" && Fits(c, text[0]) && Here(rest, text[1..])
  {
    if k :| 0 <= k <= |text| && Word(One(c, rest), text[..k]) && (Anchored(rest) ==> k == |text|) {
      assert text[..k][1..] == text[1..][..k - 1];
    }
    if text != "" && Fits(c, text[0]) && Here(rest, text[1..]) {
      var k :| 0 <= k <= |text[1..]| && Word(rest, text[1..][..k]) && (Anchored(rest) ==> k == |text[1..]|);
      assert text[..k + 1][1..] == text[1..][..k];
      assert Word(One(c, rest), text[..k + 1]);
    }
  }

  lemma HereStar(c: char, rest: Pattern, text: string)
    ensures Here(Star(c, rest), text) <==> exists j :: 0 <= j <= |text| && AllFit(c, text[..j]) && Here(rest, text[j..])
  {
    if k :| 0 <= k <= |text| && Word(Star(c, rest), text[..k]) && (Anchored(rest) ==> k == |text|) {
      var j :| 0 <= j <= k && AllFit(c, text[..k][..j]) && Word(rest, text[..k][j..]);
      assert text[..k][..j] == text[..j] && text[..k][j..] == text[j..][..k - j];
      assert Here(rest, text[j..]);
    }
    if j :| 0 <= j <= |text| && AllFit(c, text[..j]) && Here(rest, text[j..]) {
      var k :| 0 <= k <= |text[j..]| && Word(rest, text[j..][..k]) && (Anchored(rest) ==> k == |text[j..]|);
      var w := text[..j + k];
      assert w[..j] == text[..j] && w[j..] == text[j..][..k];
      assert Word(Star(c, rest), w);
    }
  }

  /** match: true exactly when the pattern's meaning holds of the text. */
  method Match(re: string, text: string) returns (r: bool)
    ensures r <==> Matches(re, text)
  {
    if re != "" && re[0] == '^' {
      r := MatchHere(re[1..], text);
      return;
    }
    var i := 0;
    while true
      invariant 0 <= i <= |text|
      invariant forall k :: 0 <= k < i ==> !Here(Parse(re), text[k..])
      decreases |text| - i
    {
      var here := MatchHere(re, text[i..]);
      if here { return true; }
      if i == |text| { return false; }
      i := i + 1;
    }
  }

  /** matchhere: a match of re that begins at the start of text. */
  method MatchHere(re: string, text: string) returns (r: bool)
    ensures r <==> Here(Parse(re), text)
    decreases |re|, 0, |text|
  {
    if re == "" {
      assert Word(Empty, text[..0]);
      return true;
    }
    if |re| >= 2 && re[1] == '*' {
      HereStar(re[0], Parse(re[2..]), text);
      r := MatchStar(re[0], re[2..], text);
      return;
    }
    if re[0] == '$' && |re| == 1 {
      assert text == "" ==> Word(End, text[..|text|]);
      return text == "";
    }
    HereOne(re[0], Parse(re[1..]), text);
    if text != "" && (re[0] == '.' || re[0] == text[0]) {
      r := MatchHere(re[1..], text[1..]);
      return;
    }
    return false;
  }

  /** matchstar: zero or more characters fitting c, then re. */
  method MatchStar(c: char, re: string, text: string) returns (r: bool)
    ensures r <==> exists j :: 0 <= j <= |text| && AllFit(c, text[..j]) && Here(Parse(re), text[j..])
    decreases |re|, 1, |text|
  {
    var i := 0;
    while true
      invariant 0 <= i <= |text| && AllFit(c, text[..i])
      invariant forall j :: 0 <= j < i ==> !Here(Parse(re), text[j..])
      decreases |text| - i
    {
      var here := MatchHere(re, text[i..]);
      if here { return true; }
      if i == |text| || !(text[i] == c || c == '.') {
        forall j | i < j <= |text| ensures !AllFit(c, text[..j]) {
          assert text[..j][i] == text[i];
        }
        return false;
      }
      i := i + 1;
    }
  }
}
