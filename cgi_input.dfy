/**
 * The CGI standard-input adapter (`CGIStdin`): a carry-over buffer in front of
 * the request body. `readline` reads the body in 64K blocks and keeps what
 * follows the line in `buf`; `read(-1)` returns that leftover first, but a
 * bounded `read(n)` goes to the body directly.
 */
module CgiInput {
  import opened PyString
  import opened Host

  const BLOCK := 65536

  /** The adapter's view of its input: the leftover buffer, the unread body, the counter. */
  datatype InState = InState(buf: string, rest: string, pos: int)

  datatype ReadResult = ReadResult(state: InState, data: string)

  /** `read(n)` for n = 0, n = -1 (drain) and n > 0 (straight from the body). */
  function ReadSpec(st: InState, n: int): ReadResult
    requires n >= -1
  {
    if n == 0 then ReadResult(st, "")
    else if n == -1 then ReadResult(InState("", "", st.pos + |st.rest|), st.buf + st.rest)
    else
      var k := Min(n, |st.rest|);
      ReadResult(st.(rest := st.rest[k..], pos := st.pos + k), st.rest[..k])
  }

  /** `pos` counts the body bytes taken so far, whatever `n` is. */
  lemma PosCountsBody(st: InState, n: int)
    requires n >= -1
    ensures var r := ReadSpec(st, n);
      r.state.pos + |r.state.rest| == st.pos + |st.rest|
    ensures var r := ReadSpec(st, n);
      |r.data| + |r.state.buf| + |r.state.rest| == |st.buf| + |st.rest|
  {
  }

  /** Draining returns everything pending, in order, and leaves nothing behind. */
  lemma DrainReturnsAll(st: InState)
    ensures var r := ReadSpec(st, -1);
      r.data == st.buf + st.rest && r.state.buf == "" && r.state.rest == ""
    ensures ReadSpec(ReadSpec(st, -1).state, -1).data == ""
  {
  }

  /** A bounded read takes at most n body bytes and leaves the buffer alone. */
  lemma BoundedReadFromBody(st: InState, n: int)
    requires n > 0
    ensures var r := ReadSpec(st, n);
      r.data + r.state.rest == st.rest && r.state.buf == st.buf
    ensures var r := ReadSpec(st, n);
      |r.data| == (if n <= |st.rest| then n else |st.rest|)
  {
  }

  /**
   * With a leftover in `buf`, a bounded read followed by a drain returns the
   * input out of order: the body byte comes before the leftover byte.
   */
  lemma BoundedReadSkipsBuffer()
    ensures var st := InState("x", "y", 0);
      var one := ReadSpec(st, 1);
      one.data + ReadSpec(one.state, -1).data == "yx"
  {
  }

  /** `read(n)` serving the leftover buffer first: the order the adapter's callers expect. */
  function IntendedReadSpec(st: InState, n: int): ReadResult
    requires n >= -1
  {
    if n == 0 then ReadResult(st, "")
    else if n == -1 || n > |st.buf| + |st.rest| then ReadResult(InState("", "", st.pos + |st.rest|), st.buf + st.rest)
    else if n <= |st.buf| then ReadResult(st.(buf := st.buf[n..]), st.buf[..n])
    else
      var k := n - |st.buf|;
      ReadResult(InState("", st.rest[k..], st.pos + k), st.buf + st.rest[..k])
  }

  /** The intended read returns a prefix of what is pending and keeps the rest, in order. */
  lemma IntendedReadInOrder(st: InState, n: int)
    requires n >= -1
    ensures var r := IntendedReadSpec(st, n);
      r.data + r.state.buf + r.state.rest == st.buf + st.rest
    ensures var r := IntendedReadSpec(st, n);
      n > 0 ==> |r.data| == (if n <= |st.buf| + |st.rest| then n else |st.buf| + |st.rest|)
    ensures var r := IntendedReadSpec(st, n);
      r.state.pos + |r.state.rest| == st.pos + |st.rest|
  {
    var r := IntendedReadSpec(st, n);
    if 0 < n <= |st.buf| + |st.rest| && n > |st.buf| {
      var k := n - |st.buf|;
      assert st.rest[..k] + st.rest[k..] == st.rest;
    }
  }

  /** Under the intended read, a bounded read and a drain give back the input in order. */
  lemma IntendedReadThenDrain(st: InState, n: int)
    requires n >= -1
    ensures var one := IntendedReadSpec(st, n);
      one.data + IntendedReadSpec(one.state, -1).data == st.buf + st.rest
  {
    IntendedReadInOrder(st, n);
  }

  /** `map(lambda s: s + '\n', pieces)`. */
  function WithNewlines(pieces: seq<string>): (lines: seq<string>)
    ensures |lines| == |pieces|
    ensures forall i :: 0 <= i < |pieces| ==> lines[i] == pieces[i] + "\n"
  {
    seq(|pieces|, i requires 0 <= i < |pieces| => pieces[i] + "\n")
  }

  /** The list `readlines` builds from a text. */
  function LinesOf(text: string): seq<string> {
    WithNewlines(SplitChar(text, '\n'))
  }

  lemma {:induction false} JoinWithNewlines(pieces: seq<string>)
    requires |pieces| > 0
    ensures Join(WithNewlines(pieces)) == JoinWith(pieces, "\n") + "\n"
    decreases |pieces|
  {
    var lines := WithNewlines(pieces);
    if |pieces| > 1 {
      JoinWithNewlines(pieces[1..]);
      assert lines[1..] == WithNewlines(pieces[1..]);
    } else {
      assert lines[1..] == [];
    }
  }

  /**
   * Every element ends in a newline and holds no other; there is one element
   * more than the text has newlines; together they spell the text plus a final
   * newline.
   */
  lemma LinesOfText(text: string)
    ensures forall i :: 0 <= i < |LinesOf(text)| ==>
      |LinesOf(text)[i]| > 0 && LinesOf(text)[i][|LinesOf(text)[i]| - 1] == '\n'
        && '\n' !in LinesOf(text)[i][..|LinesOf(text)[i]| - 1]
    ensures |LinesOf(text)| == Count(text, '\n') + 1
    ensures Join(LinesOf(text)) == text + "\n"
  {
    var pieces := SplitChar(text, '\n');
    SplitCharInverse(text, '\n');
    JoinWithNewlines(pieces);
    forall i | 0 <= i < |pieces|
      ensures '\n' !in LinesOf(text)[i][..|LinesOf(text)[i]| - 1]
    {
      assert LinesOf(text)[i][..|LinesOf(text)[i]| - 1] == pieces[i];
    }
  }

  /** As written, `readlines` splits the leftover buffer twice, then the rest of the body. */
  function ReadLinesSpec(st: InState): seq<string> {
    LinesOf(st.buf + (st.buf + st.rest))
  }

  /** The lines `readlines` was meant to return: those of the pending input, once. */
  function IntendedReadLinesSpec(st: InState): seq<string> {
    LinesOf(st.buf + st.rest)
  }

  /** As written, the leftover buffer shows up twice in the joined lines. */
  lemma ReadLinesRepeatsBuffer(st: InState)
    ensures Join(ReadLinesSpec(st)) == st.buf + st.buf + st.rest + "\n"
    ensures st.buf != "" ==> Join(ReadLinesSpec(st)) != Join(IntendedReadLinesSpec(st))
  {
    LinesOfText(st.buf + (st.buf + st.rest));
    LinesOfText(st.buf + st.rest);
  }

  /** The intended lines spell the pending input, in order, plus a final newline. */
  lemma IntendedReadLinesInOrder(st: InState)
    ensures Join(IntendedReadLinesSpec(st)) == st.buf + st.rest + "\n"
    ensures |IntendedReadLinesSpec(st)| == Count(st.buf + st.rest, '\n') + 1
  {
    LinesOfText(st.buf + st.rest);
  }

  /** A single-character `find` from `x`: the first newline at or after `x`, or -1. */
  lemma NewlineFrom(s: string, x: nat)
    ensures var k := IndexFrom(s, "\n", x);
      k == -1 || (x <= k < |s| && s[k] == '\n')
    ensures var k := IndexFrom(s, "\n", x);
      forall j :: x <= j < |s| && (k == -1 || j < k) ==> s[j] != '\n'
  {
    IndexFromFirst(s, "\n", x);
    var k := IndexFrom(s, "\n", x);
    if k != -1 {
      assert s[k..k + 1][0] == s[k];
    }
    forall j | x <= j < |s| && (k == -1 || j < k) ensures s[j] != '\n' {
      assert s[j..j + 1][0] == s[j];
      if s[j] == '\n' {
        assert s[j..j + 1] == "\n";
        assert OccursAt(s, "\n", j);
      }
    }
  }

  /**
   * How the fill loop of readline ends: at the first newline of the buffer, at
   * the end of the input, or at the limit with no newline seen.
   */
  predicate FillEnded(buf: string, rest: string, i: int, n: int) {
    (0 <= i < |buf| && buf[i] == '\n' && '\n' !in buf[..i])
    || (i == |buf| - 1 && '\n' !in buf && rest == "" && (n == -1 || |buf| < n))
    || (n != -1 && i == n - 1 && '\n' !in buf && |buf| >= n)
  }

  lemma CutKeepsOrder(data: string, buf: string, rest: string, i: int)
    requires buf + rest == data
    ensures Before(buf, i + 1) + After(buf, i + 1) + rest == data
  {
    BeforeAfter(buf, i + 1);
  }

  /** The cut line holds a newline at most as its last character. */
  lemma CutNoInnerNewline(buf: string, rest: string, i: int, n: int)
    requires FillEnded(buf, rest, i, n)
    ensures var line := Before(buf, i + 1);
      line == [] || '\n' !in line[..|line| - 1]
  {
    var line := Before(buf, i + 1);
    if line != [] && !(0 <= i < |buf| && buf[i] == '\n' && '\n' !in buf[..i]) {
      forall j | 0 <= j < |line| - 1 ensures line[j] != '\n' {
        assert line[j] == buf[j];
      }
    } else if line != [] {
      assert line[..|line| - 1] == buf[..i];
    }
  }

  /** The cut line ends in a newline, or the input is used up, or the limit cut it. */
  lemma CutCases(buf: string, rest: string, i: int, n: int)
    requires FillEnded(buf, rest, i, n)
    ensures var line := Before(buf, i + 1);
      n != 0 ==>
        (line != [] && line[|line| - 1] == '\n')
        || (After(buf, i + 1) == "" && rest == "")
        || (n > 0 && |line| == n)
        || n < -1
  {
  }

  /**
   * A limit reached by the leftover and the first block, with no newline in
   * them, cuts `buf[:n]` off that text.
   */
  lemma CutInFirstBlock(data: string, buf: string, rest: string, i: int, n: int, firstLen: int)
    requires buf + rest == data
    ensures (0 <= firstLen <= |data| && '\n' !in data[..firstLen] && n != -1 && n <= firstLen
             && buf == data[..firstLen] && i == n - 1) ==>
        var keep := if firstLen + n > 0 then firstLen + n else 0;
        (0 < n ==> Before(buf, i + 1) == data[..n] && After(buf, i + 1) + rest == data[n..])
        && (n < 0 ==> Before(buf, i + 1) == data[..keep] && After(buf, i + 1) + rest == data[keep..])
  {
    if 0 <= firstLen <= |data| && n != -1 && n <= firstLen && buf == data[..firstLen] && i == n - 1 {
      SliceBounds(buf, n);
      assert rest == data[firstLen..];
      if 0 < n {
        assert buf[n..] + rest == data[n..];
      } else if -firstLen <= n {
        assert buf[firstLen + n..] + rest == data[firstLen + n..];
      }
    }
  }

  lemma ConcatAt(a: string, b: string, j: int)
    ensures 0 <= j < |a| ==> (a + b)[j] == a[j]
  {
  }

  lemma AbsentBefore(s: string, k: int, j: int, c: char)
    ensures 0 <= j < k <= |s| && c !in s[..k] ==> s[j] != c
  {
    if 0 <= j < k <= |s| {
      assert s[..k][j] == s[j];
    }
  }

  /** A newline before the limit, or within what the first fill brought in, ends the line. */
  lemma CutAtFirstNewline(data: string, buf: string, rest: string, i: int, n: int, firstLen: int)
    requires buf + rest == data
    requires FillEnded(buf, rest, i, n)
    requires firstLen <= |buf|
    ensures forall k ::
      (0 <= k < |data| && data[k] == '\n' && '\n' !in data[..k] && n != 0
       && (n == -1 || k < n || k < firstLen))
      ==> Before(buf, i + 1) == data[..k + 1]
  {
    forall k | 0 <= k < |data| && data[k] == '\n' && '\n' !in data[..k] && n != 0
      && (n == -1 || k < n || k < firstLen)
      ensures Before(buf, i + 1) == data[..k + 1]
    {
      if k < |buf| {
        assert buf[k] == data[k];
        assert '\n' in buf;
        assert 0 <= i < |buf| && buf[i] == '\n' && '\n' !in buf[..i];
        assert buf[..k + 1] == data[..k + 1];
      } else {
        ConcatAt(buf, rest, i);
        AbsentBefore(data, k, i, '\n');
        assert false;
      }
    }
  }

  /** With no newline anywhere and the limit not reached, the line is the whole input. */
  lemma CutAtEnd(data: string, buf: string, rest: string, i: int, n: int)
    requires buf + rest == data
    requires FillEnded(buf, rest, i, n)
    ensures '\n' !in data && n != 0 && (n == -1 || |data| < n) ==>
      Before(buf, i + 1) == data && After(buf, i + 1) == "" && rest == ""
  {
  }

  /** With no newline anywhere and the limit within the input, the line is the first n characters. */
  lemma CutAtLimit(data: string, buf: string, rest: string, i: int, n: int)
    requires buf + rest == data
    requires FillEnded(buf, rest, i, n)
    ensures '\n' !in data && 0 < n <= |data| ==>
      Before(buf, i + 1) == data[..n] && After(buf, i + 1) + rest == data[n..]
  {
    if '\n' !in data && 0 < n <= |data| {
      if 0 <= i < |buf| && buf[i] == '\n' {
        ConcatAt(buf, rest, i);
        assert false;
      }
      assert i == n - 1 && |buf| >= n;
      assert buf[..n] == data[..n];
      assert buf[n..] + rest == data[n..];
    }
  }

  /**
   * How far `readline(n)` fills its buffer while no newline turns up: from
   * length `len`, one block at a time, until the limit is reached (checked
   * before each read) or the input, `total` characters long, is used up.
   */
  function Reach(len: nat, total: nat, n: int): (r: nat)
    requires len <= total
    ensures len <= r <= total
    decreases total - len
  {
    if (n != -1 && len >= n) || len == total then len
    else Reach(len + Min(BLOCK, total - len), total, n)
  }

  /**
   * The buffer grows by whole blocks: it stops at the end of the input or at
   * the first block boundary at or past the limit, less than a block beyond it.
   */
  lemma {:induction false} ReachBlocks(len: nat, total: nat, n: int)
    requires len <= total
    ensures var r := Reach(len, total, n);
      r == total || (n != -1 && r >= n)
    ensures var r := Reach(len, total, n);
      r == total || (r - len) % BLOCK == 0
    ensures var r := Reach(len, total, n);
      n != -1 && len < n ==> r < n + BLOCK
    ensures n == -1 ==> Reach(len, total, n) == total
    ensures n < -1 ==> Reach(len, total, n) == len
    decreases total - len
  {
    if !((n != -1 && len >= n) || len == total) {
      var next := len + Min(BLOCK, total - len);
      ReachBlocks(next, total, n);
      var r := Reach(next, total, n);
      if r != total {
        assert (r - next) % BLOCK == 0;
        assert next - len == BLOCK;
        assert r - len == (r - next) + BLOCK;
      }
    }
  }

  /**
   * `Reach` in closed form: below the limit the buffer grows to the first block
   * boundary at or past the limit, or to the end of the input when that comes
   * first; at or past the limit it stays as it is; with no limit it reads everything.
   */
  lemma {:induction false} ReachClosed(len: nat, total: nat, n: int)
    requires len <= total
    ensures n != -1 && len < n ==>
      Reach(len, total, n) == Min(len + (n - len + BLOCK - 1) / BLOCK * BLOCK, total)
    ensures n != -1 && len >= n ==> Reach(len, total, n) == len
    ensures n == -1 ==> Reach(len, total, n) == total
    decreases total - len
  {
    if n != -1 && len < n && len != total {
      var next := len + Min(BLOCK, total - len);
      ReachClosed(next, total, n);
      if total - len > BLOCK && next < n {
        assert (n - len + BLOCK - 1) / BLOCK == (n - next + BLOCK - 1) / BLOCK + 1;
      }
    } else if n == -1 && len != total {
      ReachClosed(len + Min(BLOCK, total - len), total, n);
    }
  }

  /** Where a fill step stopped: the index the line ends at, the buffer and the unread body. */
  datatype Filled = Filled(at: int, buf: string, rest: string)

  /** The refill loop of `readline(n)`, block by block, over a buffer without a newline. */
  function ExtendSpec(buf: string, rest: string, n: int): Filled
    decreases |rest|
  {
    if n != -1 && |buf| >= n then Filled(n - 1, buf, rest)
    else
      var m := Min(BLOCK, |rest|);
      if m == 0 then Filled(|buf| - 1, buf, rest)
      else
        var i := IndexFrom(buf + rest[..m], "\n", |buf|);
        if i == -1 then ExtendSpec(buf + rest[..m], rest[m..], n)
        else Filled(i, buf + rest[..m], rest[m..])
  }

  /** The fill step of `readline(n)`: one block, then the refill loop while there is no newline. */
  function FillSpec(buf: string, rest: string, n: int): Filled {
    var m := Min(BLOCK, |rest|);
    var i := IndexFrom(buf + rest[..m], "\n", 0);
    if i == -1 then ExtendSpec(buf + rest[..m], rest[m..], n)
    else Filled(i, buf + rest[..m], rest[m..])
  }

  datatype LineRead = LineRead(line: string, buf: string, rest: string)

  /** `readline(n)` on the leftover buffer and the unread body. */
  function ReadLineSpec(buf: string, rest: string, n: int): LineRead {
    if n == 0 then LineRead("", buf, rest)
    else
      var f := FillSpec(buf, rest, n);
      LineRead(Before(f.buf, f.at + 1), After(f.buf, f.at + 1), f.rest)
  }

  /** The line cut from a newline-free text: `text[:n]` at the limit, or all of it at end of input. */
  function LimitCut(text: string, n: int): string {
    if n != -1 && |text| >= n then Before(text, n) else text
  }

  lemma PrefixNoNewline(data: string, a: int, b: int)
    ensures 0 <= a <= b <= |data| && '\n' !in data[..b] ==> '\n' !in data[..a]
  {
    if 0 <= a <= b <= |data| && '\n' !in data[..b] {
      assert data[..a] == data[..b][..a];
    }
  }

  /** The refill loop ends the line at the first newline the blocks up to `Reach` bring. */
  lemma {:induction false} ExtendAtNewline(buf: string, rest: string, n: int, k: int)
    requires n != 0 && '\n' !in buf
    ensures var f := ExtendSpec(buf, rest, n);
      var data := buf + rest;
      0 <= k < Reach(|buf|, |data|, n) && data[k] == '\n' && '\n' !in data[..k] ==>
        Before(f.buf, f.at + 1) == data[..k + 1] && After(f.buf, f.at + 1) + f.rest == data[k + 1..]
    decreases |rest|
  {
    var data := buf + rest;
    if 0 <= k < Reach(|buf|, |data|, n) && data[k] == '\n' && '\n' !in data[..k] {
      if k < |buf| {
        assert false;
      }
      var m := Min(BLOCK, |rest|);
      var b := buf + rest[..m];
      assert b + rest[m..] == data;
      var i := IndexFrom(b, "\n", |buf|);
      NewlineFrom(b, |buf|);
      if i == -1 {
        forall j | 0 <= j < |b| ensures b[j] != '\n' {
          if j < |buf| { assert b[j] == buf[j]; }
        }
        ExtendAtNewline(b, rest[m..], n, k);
      } else {
        assert b[i] == data[i];
        if k < i {
          assert false;
        }
        if i < k {
          assert false;
        }
        assert b[..k + 1] == data[..k + 1];
        assert b[k + 1..] + rest[m..] == data[k + 1..];
      }
    }
  }

  /** With no newline in the blocks up to `Reach`, the refill loop cuts at the limit or takes everything. */
  lemma {:induction false} ExtendNoNewline(buf: string, rest: string, n: int)
    requires n != 0
    ensures var f := ExtendSpec(buf, rest, n);
      var data := buf + rest;
      var L := Reach(|buf|, |data|, n);
      '\n' !in data[..L] ==>
        Before(f.buf, f.at + 1) == LimitCut(data[..L], n)
        && After(f.buf, f.at + 1) + f.rest == data[|LimitCut(data[..L], n)|..]
    decreases |rest|
  {
    var data := buf + rest;
    var L := Reach(|buf|, |data|, n);
    if '\n' !in data[..L] {
      assert data[..|buf|] == buf;
      if n != -1 && |buf| >= n {
        BeforeAfter(buf, n);
        assert data == Before(buf, n) + (After(buf, n) + rest);
      } else if |rest| == 0 {
        SliceBounds(buf, |buf|);
      } else {
        var m := Min(BLOCK, |rest|);
        var b := buf + rest[..m];
        assert b + rest[m..] == data;
        assert Reach(|b|, |data|, n) == L;
        assert data[..|b|] == b;
        PrefixNoNewline(data, |b|, L);
        var i := IndexFrom(b, "\n", |buf|);
        NewlineFrom(b, |buf|);
        if i != -1 {
          assert false;
        }
        ExtendNoNewline(b, rest[m..], n);
      }
    }
  }

  /**
   * `readline(n)` ends the line at the first newline when it lies within the
   * blocks read until the limit is reached: past the limit, up to a whole block.
   */
  lemma ReadLineAtNewline(buf: string, rest: string, n: int, k: int)
    ensures var data := buf + rest;
      var r := ReadLineSpec(buf, rest, n);
      n != 0 && 0 <= k < Reach(|buf| + Min(BLOCK, |rest|), |data|, n) && data[k] == '\n' && '\n' !in data[..k] ==>
        r.line == data[..k + 1] && r.buf + r.rest == data[k + 1..]
  {
    var data := buf + rest;
    var m := Min(BLOCK, |rest|);
    var b := buf + rest[..m];
    assert b + rest[m..] == data;
    if n != 0 && 0 <= k < Reach(|b|, |data|, n) && data[k] == '\n' && '\n' !in data[..k] {
      var i := IndexFrom(b, "\n", 0);
      NewlineFrom(b, 0);
      if i == -1 {
        if k < |b| {
          assert false;
        }
        ExtendAtNewline(b, rest[m..], n, k);
      } else {
        assert b[i] == data[i];
        if k < i {
          assert false;
        }
        if i < k {
          assert false;
        }
        assert b[..k + 1] == data[..k + 1];
        assert b[k + 1..] + rest[m..] == data[k + 1..];
      }
    }
  }

  /**
   * With no newline in the blocks read until the limit is reached, `readline(n)`
   * returns `buf[:n]` of them, or all of the input when it ended first.
   */
  lemma ReadLineNoNewline(buf: string, rest: string, n: int)
    ensures var data := buf + rest;
      var L := Reach(|buf| + Min(BLOCK, |rest|), |data|, n);
      var r := ReadLineSpec(buf, rest, n);
      n != 0 && '\n' !in data[..L] ==>
        r.line == LimitCut(data[..L], n) && r.buf + r.rest == data[|r.line|..]
  {
    var data := buf + rest;
    var m := Min(BLOCK, |rest|);
    var b := buf + rest[..m];
    assert b + rest[m..] == data;
    var L := Reach(|b|, |data|, n);
    if n != 0 && '\n' !in data[..L] {
      assert data[..|b|] == b;
      PrefixNoNewline(data, |b|, L);
      var i := IndexFrom(b, "\n", 0);
      NewlineFrom(b, 0);
      if i != -1 {
        assert false;
      }
      ExtendNoNewline(b, rest[m..], n);
    }
  }

  /** The refill loop ends as `FillEnded` says, loses nothing, and checks the limit before reading. */
  lemma {:induction false} ExtendEnded(buf: string, rest: string, n: int)
    requires n != 0 && '\n' !in buf
    ensures var f := ExtendSpec(buf, rest, n);
      FillEnded(f.buf, f.rest, f.at, n) && f.buf + f.rest == buf + rest && |f.buf| >= |buf|
    ensures n != -1 && |buf| >= n ==> ExtendSpec(buf, rest, n) == Filled(n - 1, buf, rest)
    decreases |rest|
  {
    if !(n != -1 && |buf| >= n) {
      var m := Min(BLOCK, |rest|);
      if m != 0 {
        var b := buf + rest[..m];
        assert b + rest[m..] == buf + rest;
        NewlineFrom(b, |buf|);
        var i := IndexFrom(b, "\n", |buf|);
        if i == -1 {
          forall j | 0 <= j < |b| ensures b[j] != '\n' {
            if j < |buf| { assert b[j] == buf[j]; }
          }
          ExtendEnded(b, rest[m..], n);
        } else {
          forall j | 0 <= j < i ensures b[..i][j] != '\n' {
            if j < |buf| { assert b[j] == buf[j]; }
          }
        }
      }
    }
  }

  /** The fill step ends as `FillEnded` says, after at least one block, and cuts a first block at the limit. */
  lemma FillSpecEnded(buf: string, rest: string, n: int)
    requires n != 0
    ensures var f := FillSpec(buf, rest, n);
      FillEnded(f.buf, f.rest, f.at, n) && f.buf + f.rest == buf + rest
      && |f.buf| >= |buf| + Min(BLOCK, |rest|)
    ensures var m := Min(BLOCK, |rest|);
      var first := buf + rest[..m];
      '\n' !in first && n != -1 && |first| >= n ==> FillSpec(buf, rest, n) == Filled(n - 1, first, rest[m..])
  {
    var m := Min(BLOCK, |rest|);
    var b := buf + rest[..m];
    assert b + rest[m..] == buf + rest;
    NewlineFrom(b, 0);
    if IndexFrom(b, "\n", 0) == -1 {
      assert '\n' !in b by {
        forall j | 0 <= j < |b| ensures b[j] != '\n' { }
      }
      ExtendEnded(b, rest[m..], n);
    }
  }

  /**
   * A limit just past a newline-free first block: the next block is read
   * whole, and the line runs on to its newline, beyond the limit.
   */
  lemma ReadsPastLimit(x: string)
    requires |x| == BLOCK && '\n' !in x
    ensures ReadLineSpec("", x + "ab\n", BLOCK + 1) == LineRead(x + "ab\n", "", "")
  {
    var data := x + "ab\n";
    assert "" + data == data;
    ReachClosed(BLOCK, |data|, BLOCK + 1);
    assert data[..BLOCK + 2] == x + "ab";
    ReadLineAtNewline("", data, BLOCK + 1, BLOCK + 2);
    var r := ReadLineSpec("", data, BLOCK + 1);
    assert data[..BLOCK + 3] == data;
    assert r.buf + r.rest == "";
  }

  class CgiStdin {
    var pos: int
    const req: Request
    var buf: string

    constructor (req: Request)
      ensures this.req == req && pos == 0 && buf == ""
    {
      pos := 0;
      this.req := req;
      buf := "";
    }

    function State(): InState
      reads this, req
      requires req.Valid()
    {
      InState(buf, req.Remaining(), pos)
    }

    /** `read(-1)`: drain the body in blocks into the buffer, then hand over the buffer. */
    method Drain() returns (s: string)
      requires req.Valid()
      modifies this`buf, this`pos, req`cursor
      ensures req.Valid()
      ensures ReadResult(State(), s) == ReadSpec(old(State()), -1)
    {
      var chunk := req.Read(BLOCK);
      while chunk != ""
        invariant req.Valid()
        invariant buf + chunk + req.Remaining() == old(buf) + old(req.Remaining())
        invariant pos + |chunk| + |req.Remaining()| == old(pos) + |old(req.Remaining())|
        invariant chunk == "" ==> req.Remaining() == ""
        decreases |req.Remaining()| + |chunk|
      {
        buf := buf + chunk;
        pos := pos + |chunk|;
        chunk := req.Read(BLOCK);
      }
      s := buf;
      buf := "";
    }

    method Read(n: int) returns (s: string)
      requires req.Valid()
      requires n >= -1
      modifies this`buf, this`pos, req`cursor
      ensures req.Valid()
      ensures ReadResult(State(), s) == ReadSpec(old(State()), n)
    {
      if n == 0 {
        return "";
      }
      if n == -1 {
        s := Drain();
      } else {
        s := req.Read(n);
        pos := pos + |s|;
      }
    }

    /**
     * The fill step of `readline(n)`, for n != 0: read one block, then, while
     * the buffer holds no newline, keep extending it; the result is the index
     * the line ends at.
     */
    method Fill(n: int) returns (i: int)
      requires req.Valid()
      requires n != 0
      modifies this`buf, req`cursor
      ensures req.Valid()
      ensures buf + req.Remaining() == old(buf) + old(req.Remaining())
      ensures Filled(i, buf, req.Remaining()) == FillSpec(old(buf), old(req.Remaining()), n)
      ensures |buf| >= |old(buf)| + Min(BLOCK, |old(req.Remaining())|)
      ensures FillEnded(buf, req.Remaining(), i, n)
      // a first block without a newline that already reaches the limit is cut there
      ensures var m := Min(BLOCK, |old(req.Remaining())|);
        var first := old(buf) + old(req.Remaining())[..m];
        '\n' !in first && n != -1 && |first| >= n ==>
          i == n - 1 && buf == first && req.Remaining() == old(req.Remaining())[m..]
    {
      FillSpecEnded(buf, req.Remaining(), n);
      var chunk := req.Read(BLOCK);
      buf := buf + chunk;
      i := IndexFrom(buf, "\n", 0);
      NewlineFrom(buf, 0);
      if i == -1 {
        i := Extend(n);
      }
    }

    /**
     * The loop of `readline(n)` over a buffer without a newline: stop at the
     * limit (checked before each read), at the end of the body, or at the
     * first newline a new block brings.
     */
    method Extend(n: int) returns (i: int)
      requires req.Valid()
      requires n != 0 && '\n' !in buf
      modifies this`buf, req`cursor
      ensures req.Valid()
      ensures buf + req.Remaining() == old(buf) + old(req.Remaining())
      ensures Filled(i, buf, req.Remaining()) == ExtendSpec(old(buf), old(req.Remaining()), n)
      ensures |buf| >= |old(buf)|
      ensures FillEnded(buf, req.Remaining(), i, n)
      // the limit is checked before any read
      ensures n != -1 && |old(buf)| >= n ==>
        i == n - 1 && buf == old(buf) && req.Remaining() == old(req.Remaining())
    {
      ghost var buf0, rest0 := buf, req.Remaining();
      ExtendEnded(buf0, rest0, n);
      i := -1;
      while i == -1
        invariant req.Valid()
        invariant i == -1 ==> ExtendSpec(buf, req.Remaining(), n) == ExtendSpec(old(buf), old(req.Remaining()), n)
        invariant i != -1 ==> Filled(i, buf, req.Remaining()) == ExtendSpec(old(buf), old(req.Remaining()), n)
        decreases |req.Remaining()|
      {
        if n != -1 && |buf| >= n {
          i := n - 1;
          break;
        }
        var x := |buf|;
        var chunk := req.Read(BLOCK);
        buf := buf + chunk;
        if |buf| == x {
          i := x - 1;
          break;
        }
        i := IndexFrom(buf, "\n", x);
        NewlineFrom(buf, x);
      }
    }

    /** `readline(n)`: fill the buffer, then cut the line off its front. */
    method ReadLine(n: int) returns (line: string)
      requires req.Valid()
      modifies this`buf, req`cursor
      ensures req.Valid()
      ensures LineRead(line, buf, req.Remaining()) == ReadLineSpec(old(buf), old(req.Remaining()), n)
      // nothing is lost and the order is kept
      ensures line + buf + req.Remaining() == old(buf) + old(req.Remaining())
      ensures n == 0 ==> line == "" && buf == old(buf) && req.Remaining() == old(req.Remaining())
      // a newline can only be the last character
      ensures line == [] || '\n' !in line[..|line| - 1]
      // the line ends in a newline, or the input is exhausted, or the limit cut it
      ensures n != 0 ==>
        (line != [] && line[|line| - 1] == '\n')
        || (buf == "" && req.Remaining() == "")
        || (n > 0 && |line| == n)
        || n < -1
      // up to the first newline when it comes before the limit, or within the
      // leftover and the first block whatever the limit
      ensures var data := old(buf) + old(req.Remaining());
        forall k :: 0 <= k < |data| && data[k] == '\n' && '\n' !in data[..k] && n != 0
          && (n == -1 || k < n || k < |old(buf)| + Min(BLOCK, |old(req.Remaining())|))
          ==> line == data[..k + 1]
      // without a newline and below the limit, the rest of the input
      ensures var data := old(buf) + old(req.Remaining());
        '\n' !in data && n != 0 && (n == -1 || |data| < n) ==>
          line == data && buf == "" && req.Remaining() == ""
      // without a newline and with the limit within the input, the first n characters
      ensures var data := old(buf) + old(req.Remaining());
        '\n' !in data && 0 < n <= |data| ==>
          line == data[..n] && buf + req.Remaining() == data[n..]
      // without a newline in the leftover and the first block, a limit within them cuts there
      ensures var data := old(buf) + old(req.Remaining());
        var firstLen := |old(buf)| + Min(BLOCK, |old(req.Remaining())|);
        0 < n <= firstLen && '\n' !in data[..firstLen] ==>
          line == data[..n] && buf + req.Remaining() == data[n..]
      // a limit below -1 drops -n characters from the end of the leftover and the first block
      ensures var data := old(buf) + old(req.Remaining());
        var firstLen := |old(buf)| + Min(BLOCK, |old(req.Remaining())|);
        var keep := if firstLen + n > 0 then firstLen + n else 0;
        n < -1 && '\n' !in data[..firstLen] ==>
          line == data[..keep] && buf + req.Remaining() == data[keep..]
    {
      if n == 0 {
        return "";
      }
      ghost var data := buf + req.Remaining();
      ghost var firstLen := |buf| + Min(BLOCK, |req.Remaining()|);
      assert data[..firstLen] == buf + req.Remaining()[..Min(BLOCK, |req.Remaining()|)];
      var i := Fill(n);
      ghost var filled := buf;
      line := Before(buf, i + 1);
      buf := After(buf, i + 1);
      CutKeepsOrder(data, filled, req.Remaining(), i);
      CutNoInnerNewline(filled, req.Remaining(), i, n);
      CutCases(filled, req.Remaining(), i, n);
      CutAtFirstNewline(data, filled, req.Remaining(), i, n, firstLen);
      CutAtEnd(data, filled, req.Remaining(), i, n);
      CutAtLimit(data, filled, req.Remaining(), i, n);
      CutInFirstBlock(data, filled, req.Remaining(), i, n, firstLen);
    }

    /** `readlines()`: split the buffer and everything `read()` returns. */
    method ReadLines() returns (lines: seq<string>)
      requires req.Valid()
      modifies this`buf, this`pos, req`cursor
      ensures req.Valid()
      ensures lines == ReadLinesSpec(old(State()))
      ensures State() == ReadSpec(old(State()), -1).state
    {
      var left := buf;
      var rest := Read(-1);
      lines := LinesOf(left + rest);
    }
  }
}
