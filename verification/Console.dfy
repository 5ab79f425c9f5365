/** Console input (kernel/console.c): line editing in a 128-byte ring with three free-running 32-bit indices. */
module Console {
  import opened Wrap

  const SIZE: nat := 128

  type byte = x: int | 0 <= x < 256

  const NEWLINE: byte := 10
  const RETURN: byte := 13
  const CTRL_D: byte := 4
  const CTRL_H: byte := 8
  const CTRL_P: byte := 16
  const CTRL_U: byte := 21
  const DELETE: byte := 127

  /** Accepted input: a stored character (flush: it filled the ring and forced the line out), an erase, a kill. */
  datatype Key = Char(c: byte, flush: bool) | Erase | Kill

  /** Pure line editing: the text so far, of which the first `done` bytes have been handed over to readers
      and the rest is the line still being edited. */
  datatype Edited = Edited(text: seq<byte>, done: nat)

  function EditOne(e: Edited, k: Key): (r: Edited)
    requires e.done <= |e.text|
    ensures r.done <= |r.text| && e.done <= r.done && r.text[..e.done] == e.text[..e.done]
  {
    match k
    case Char(c, flush) =>
      Edited(e.text + [c], if c == NEWLINE || c == CTRL_D || flush then |e.text| + 1 else e.done)
    case Erase => if |e.text| == e.done then e else e.(text := e.text[..|e.text| - 1])
    case Kill => e.(text := e.text[..e.done])
  }

  /** Line editing of a whole key sequence; the line being edited never holds a newline or an end-of-file mark. */
  function Edit(keys: seq<Key>): (e: Edited)
    ensures e.done <= |e.text|
    ensures forall i :: e.done <= i < |e.text| ==> e.text[i] != NEWLINE && e.text[i] != CTRL_D
  {
    if keys == [] then Edited([], 0) else EditOne(Edit(keys[..|keys| - 1]), keys[|keys| - 1])
  }

  lemma EditSnoc(keys: seq<Key>, k: Key)
    ensures Edit(keys + [k]) == EditOne(Edit(keys), k)
  {
    assert (keys + [k])[..|keys + [k]| - 1] == keys;
  }

  /** A character that does not end the line. */
  predicate Ordinary(k: Key) { k.Char? ==> k.c != NEWLINE && k.c != CTRL_D && !k.flush }

  /** An erase takes back exactly the character before it on the line being edited, and nothing on an empty line. */
  lemma EraseUndoes(keys: seq<Key>, k: Key)
    requires k.Char? && Ordinary(k)
    ensures Edit(keys + [k] + [Erase]) == Edit(keys)
    ensures Edit(keys).done == |Edit(keys).text| ==> Edit(keys + [Erase]) == Edit(keys)
  {
    EditSnoc(keys, k);
    EditSnoc(keys + [k], Erase);
    EditSnoc(keys, Erase);
    var e := Edit(keys);
    assert (e.text + [k.c])[..|e.text|] == e.text;
  }

  /** A kill takes back everything typed since the line began. */
  lemma KillUndoes(keys: seq<Key>, line: seq<Key>)
    requires Edit(keys).done == |Edit(keys).text| && forall i :: 0 <= i < |line| ==> Ordinary(line[i])
    ensures Edit(keys + line + [Kill]) == Edit(keys)
  {
    LineOpen(keys, line);
    DoneIsFinal(keys, line);
    EditSnoc(keys + line, Kill);
    assert Edit(keys).text[..Edit(keys).done] == Edit(keys).text;
  }

  lemma {:induction false} LineOpen(keys: seq<Key>, line: seq<Key>)
    requires forall i :: 0 <= i < |line| ==> Ordinary(line[i])
    ensures Edit(keys + line).done == Edit(keys).done
  {
    if line == [] {
      assert keys + line == keys;
    } else {
      var n := |line| - 1;
      LineOpen(keys, line[..n]);
      assert keys + line == keys + line[..n] + [line[n]];
      EditSnoc(keys + line[..n], line[n]);
    }
  }

  /** The end of a line hands over what was typed, with itself. */
  lemma LineEnds(keys: seq<Key>, k: Key)
    requires k.Char?
    ensures Edit(keys + [k]).text == Edit(keys).text + [k.c]
    ensures Edit(keys + [k]).done == if Ordinary(k) then Edit(keys).done else |Edit(keys).text| + 1
  {
    EditSnoc(keys, k);
  }

  /** What readers were given is never edited afterwards. */
  lemma {:induction false} DoneIsFinal(keys: seq<Key>, more: seq<Key>)
    ensures Edit(keys).done <= Edit(keys + more).done <= |Edit(keys + more).text|
    ensures Edit(keys + more).text[..Edit(keys).done] == Edit(keys).text[..Edit(keys).done]
  {
    if more == [] {
      assert keys + more == keys;
    } else {
      var m := more[..|more| - 1];
      DoneIsFinal(keys, m);
      assert keys + more == (keys + m) + [more[|more| - 1]];
      EditSnoc(keys + m, more[|more| - 1]);
      var a, b, n := Edit(keys + m), Edit(keys + more), Edit(keys).done;
      assert b.text[..n] == b.text[..a.done][..n] == a.text[..a.done][..n];
    }
  }

  /** What one read of at most n bytes takes from text[at..end], the part handed over and not yet read: it stops
      after a newline, before or at an end-of-file mark, and otherwise when n bytes are copied. */
  datatype Taken = Taken(bytes: seq<byte>, at: nat, complete: bool)

  function TakeLine(text: seq<byte>, at: nat, end: nat, n: nat, first: bool): (t: Taken)
    requires at <= end <= |text|
    decreases n
  {
    if n == 0 then Taken([], at, true)
    else if at == end then Taken([], at, false)
    else if text[at] == CTRL_D then Taken([], if first then at + 1 else at, true)
    else if text[at] == NEWLINE then Taken([NEWLINE], at + 1, true)
    else
      var t := TakeLine(text, at + 1, end, n - 1, false);
      t.(bytes := [text[at]] + t.bytes)
  }

  /** A read copies a stretch of the text, with no end-of-file mark and a newline at most as its last byte; it is
      complete exactly when it has n bytes, a whole line, or stands at an end-of-file mark; and a mark is taken
      out only by a read that copies nothing. */
  lemma {:induction false} TakeLineMeans(text: seq<byte>, at: nat, end: nat, n: nat, first: bool)
    requires at <= end <= |text|
    ensures var t := TakeLine(text, at, end, n, first);
      var m := |t.bytes|;
      && m <= n && at + m <= end && t.bytes == text[at..at + m] && CTRL_D !in t.bytes
      && (forall i :: 0 <= i < m - 1 ==> t.bytes[i] != NEWLINE)
      && (t.complete <==> m == n || (m > 0 && t.bytes[m - 1] == NEWLINE) || (at + m < end && text[at + m] == CTRL_D))
      && (!t.complete ==> at + m == end)
      && t.at == at + m + if first && m == 0 < n && at < end && text[at] == CTRL_D then 1 else 0
    decreases n
  {
    if n > 0 && at < end && text[at] != CTRL_D && text[at] != NEWLINE {
      TakeLineMeans(text, at + 1, end, n - 1, false);
    }
  }

  /** What one round of the read loop finds. */
  datatype Round = Empty | Eof | Byte(c: byte)

  /** How consoleread lets go of the lock. */
  datatype End = Returns(count: int) | Sleeps

  /** t is what a read yields when `got` is already copied and u is still to come. */
  ghost predicate Resume(t: Taken, got: seq<byte>, u: Taken) {
    t == u.(bytes := got + u.bytes)
  }

  /** A read whose destination takes only `room` bytes: the first byte refused is taken out and lost. */
  function Clip(t: Taken, at: nat, room: nat): (r: Taken) {
    if |t.bytes| <= room then t else Taken(t.bytes[..room], at + room + 1, true)
  }

  /** Where a read stops without copying: wanted bytes done, nothing handed over, or an end-of-file mark. */
  lemma ResumeEnd(t: Taken, got: seq<byte>, text: seq<byte>, at: nat, end: nat, n: nat, first: bool)
    requires at <= end <= |text| && Resume(t, got, TakeLine(text, at, end, n, first))
    ensures n == 0 ==> t == Taken(got, at, true)
    ensures n > 0 && at == end ==> t == Taken(got, at, false)
    ensures n > 0 && at < end && text[at] == CTRL_D ==> t == Taken(got, if first then at + 1 else at, true)
  {
    assert got + [] == got;
  }

  lemma ClipHere(t: Taken, got: seq<byte>, text: seq<byte>, at: nat, end: nat, n: nat, first: bool)
    requires at < end <= |text| && n > 0 && text[at] != CTRL_D && Resume(t, got, TakeLine(text, at, end, n, first))
    ensures |got| < |t.bytes| && t.bytes[..|got|] == got
  {}

  /** Copying one ordinary byte leaves the rest of the same read to do; a newline ends it. */
  lemma ResumeStep(t: Taken, got: seq<byte>, text: seq<byte>, at: nat, end: nat, n: nat, first: bool)
    requires at < end <= |text| && n > 0 && text[at] != CTRL_D && Resume(t, got, TakeLine(text, at, end, n, first))
    ensures if text[at] == NEWLINE then t == Taken(got + [NEWLINE], at + 1, true)
      else Resume(t, got + [text[at]], TakeLine(text, at + 1, end, n - 1, false))
  {
    if text[at] != NEWLINE {
      var u := TakeLine(text, at + 1, end, n - 1, false);
      assert got + ([text[at]] + u.bytes) == got + [text[at]] + u.bytes;
    }
  }

  class Input {
    const buf: array<byte>
    var r: nat                    // 32-bit read index
    var w: nat                    // 32-bit write index
    var e: nat                    // 32-bit edit index
    ghost var keys: seq<Key>      // accepted input
    ghost var read: nat           // bytes of the edited stream taken by readers

    /** The ring holds exactly the unread part of the edited text. */
    ghost predicate Holds()
      reads this, buf
    {
      var s := Edit(keys);
      && buf.Length == SIZE
      && read <= s.done && |s.text| <= read + SIZE
      && r == U32(read) && w == U32(s.done)
      && (forall k :: read <= k < |s.text| ==> buf[Slot(k, SIZE)] == s.text[k])
    }

    /** The indices keep r <= w <= e <= r + SIZE modulo 2^32, and a full ring has no line left to edit. */
    ghost predicate Valid()
      reads this, buf
    {
      var s := Edit(keys);
      Holds() && e == U32(|s.text|) && (|s.text| == read + SIZE ==> s.done == |s.text|)
    }

    constructor ()
      ensures Valid() && fresh(buf) && keys == [] && read == 0
    {
      buf := new byte[SIZE];
      r, w, e, keys, read := 0, 0, 0, [], 0;
    }

    /** consoleintr: every character is ignored, or accepted as exactly one key of the line editor. It is
        ignored when it is 0 or ^P, or when it would be stored and the ring is full. */
    method Intr(c: byte)
      requires Valid()
      modifies this`w, this`e, this`keys, buf
      ensures Valid()
      ensures var used := |Edit(old(keys)).text| - read;
        keys == if c == CTRL_P then old(keys)
                else if c == CTRL_U then old(keys) + [Kill]
                else if c == CTRL_H || c == DELETE then old(keys) + [Erase]
                else if c == 0 || used == SIZE then old(keys)
                else old(keys) + [Char(if c == RETURN then NEWLINE else c, used + 1 == SIZE)]
    {
      if c == CTRL_P {
      } else if c == CTRL_U {
        KillLine();
      } else if c == CTRL_H || c == DELETE {
        EraseOne();
      } else {
        var used := Sub(e, r, |Edit(keys).text|, read);
        if c != 0 && used < SIZE { Store(if c == RETURN then NEWLINE else c); }
      }
    }

    /** ^U: the loop stops at w, never at a newline, so the whole line goes. */
    method KillLine()
      requires Valid()
      modifies this`e, this`keys
      ensures Valid() && keys == old(keys) + [Kill]
    {
      hide U32, Slot, Edit;
      ghost var s := Edit(keys);
      ghost var m := |s.text|;
      while true
        invariant s.done <= m <= |s.text| && e == U32(m) && keys == old(keys)
        decreases m
      {
        SameWord(s.done, m);
        if e == w { break; }
        var prev := Dec(e, m);
        var i := Index(prev, SIZE, m - 1);
        assert buf[i] == s.text[m - 1];
        if buf[i] == NEWLINE { break; }
        m, e := m - 1, prev;
      }
      EditSnoc(keys, Kill);
      keys := keys + [Kill];
    }

    method EraseOne()
      requires Valid()
      modifies this`e, this`keys
      ensures Valid() && keys == old(keys) + [Erase]
    {
      hide Edit, U32, Slot;
      ghost var s := Edit(keys);
      SameWord(s.done, |s.text|);
      if e != w { e := Dec(e, |s.text|); }
      EditSnoc(keys, Erase);
      keys := keys + [Erase];
    }

    /** cons.buf[cons.e++ % INPUT_BUF_SIZE] = c */
    method Put(c: byte)
      requires Valid() && |Edit(keys).text| < read + SIZE
      modifies this`e, buf
      ensures var text := Edit(keys).text;
        e == U32(|text| + 1) && forall k :: read <= k <= |text| ==> buf[Slot(k, SIZE)] == (text + [c])[k]
    {
      hide U32, Slot, Edit;
      ghost var m := |Edit(keys).text|;
      forall k | read <= k < m ensures Slot(k, SIZE) != Slot(m, SIZE) { SlotsDiffer(k, m, SIZE); }
      var i := Index(e, SIZE, m);
      buf[i] := c;
      e := Inc(e, m);
    }

    method Store(c: byte)
      requires Valid() && |Edit(keys).text| < read + SIZE
      modifies this`w, this`e, this`keys, buf
      ensures Valid() && keys == old(keys) + [Char(c, |Edit(old(keys)).text| + 1 == read + SIZE)]
    {
      hide Edit, U32, Slot;
      ghost var s := Edit(keys);
      ghost var key := Char(c, |s.text| + 1 == read + SIZE);
      Put(c);
      var used := Sub(e, r, |s.text| + 1, read);
      if c == NEWLINE || c == CTRL_D || used == SIZE { w := e; }
      EditSnoc(keys, key);
      keys := keys + [key];
      assert Edit(keys).text == s.text + [c];
    }

    /** cons.r++ */
    method Advance()
      requires Valid() && read < Edit(keys).done
      modifies this`r, this`read
      ensures Valid() && read == old(read) + 1
    {
      r := Inc(r, read);
      read := read + 1;
    }

    /** One round of consoleread's loop; `first` says nothing has been copied yet. */
    method ReadOne(first: bool) returns (s: Round)
      requires Valid()
      modifies this`r, this`read
      ensures Valid()
      ensures s == var t := Edit(keys);
        if old(read) == t.done then Empty else if t.text[old(read)] == CTRL_D then Eof else Byte(t.text[old(read)])
      ensures read == old(read) + if s.Byte? || (s.Eof? && first) then 1 else 0
    {
      SameWord(read, Edit(keys).done);
      if r == w { return Empty; }
      var i := Index(r, SIZE, read);
      var c := buf[i];
      if c == CTRL_D {
        // the source advances r and steps back when bytes were already copied
        if first { Advance(); }
        return Eof;
      }
      Advance();
      s := Byte(c);
    }

    /** consoleread from one acquisition of the lock to the next sleep or return, with n bytes still wanted of the
        `target` asked for: takes what TakeLine says, unless copyout accepts only `room` bytes of it; then the
        first byte refused is lost. It returns how many bytes it has copied since it was called, or -1 where it
        would sleep and the process is killed: the bytes copied until then are gone. */
    method Read(n: nat, target: nat, room: nat, killed: bool) returns (got: seq<byte>, end: End)
      requires Valid() && n <= target
      modifies this`r, this`read
      ensures Valid()
      ensures var t := Clip(TakeLine(Edit(keys).text, old(read), Edit(keys).done, n, n == target), old(read), room);
        got == t.bytes && read == t.at &&
        end == if t.complete then Returns(target - n + |got|) else if killed then Returns(-1) else Sleeps
    {
      hide TakeLine, Edit, EditOne, U32, Slot;
      ghost var text, done := Edit(keys).text, Edit(keys).done;
      ghost var t := TakeLine(text, read, done, n, n == target);
      got := [];
      var left := n;
      assert Resume(t, got, t);
      while left > 0
        invariant Valid() && 0 <= left <= target && read <= done
        invariant |got| <= room && read == old(read) + |got| && left == n - |got|
        invariant Resume(t, got, TakeLine(text, read, done, left, left == target))
      {
        ghost var at := read;
        ResumeEnd(t, got, text, at, done, left, left == target);
        var s := ReadOne(left == target);
        if s.Empty? { return got, if killed then Returns(-1) else Sleeps; }
        if s.Eof? { return got, Returns(target - left); }
        ClipHere(t, got, text, at, done, left, left == target);
        if |got| == room { return got, Returns(target - left); }
        ResumeStep(t, got, text, at, done, left, left == target);
        got, left := got + [s.c], left - 1;
        assert left != target;
        if s.c == NEWLINE { return got, Returns(target - left); }
      }
      ResumeEnd(t, got, text, read, done, left, left == target);
      end := Returns(target - left);
    }
  }

  /** consoleread loses the byte whose copyout fails: of the line typed, the first character is gone. */
  method LosesByte() returns (input: Input, got: seq<byte>)
    ensures input.Valid() && Edit(input.keys) == Edited([97, NEWLINE], 2) && got == [] && input.read == 1
  {
    input := new Input();
    input.Intr(97);
    EditSnoc([], Char(97, false));
    input.Intr(NEWLINE);
    EditSnoc([Char(97, false)], Char(NEWLINE, false));
    assert Edit(input.keys) == Edited([97, NEWLINE], 2);
    assert TakeLine([97, NEWLINE], 0, 2, 2, true).bytes == [97, NEWLINE];
    var end;
    got, end := input.Read(2, 2, 0, false);
  }
}
