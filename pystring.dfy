/**
 * The parts of Python 2's `string` module and of its slicing rules that the
 * adapter relies on: splitting on a separator (all pieces, or at the first
 * occurrence only), splitting on whitespace, stripping, ASCII lower-casing,
 * `find`, `joinfields(l, '')` and `int()` of a decimal token.
 */
module PyString {

  datatype Option<T> = None | Some(value: T)

  /** Python 2's `string.whitespace`: space, tab, newline, carriage return, vertical tab, form feed. */
  predicate IsSpace(c: char) {
    c == ' ' || c == '\t' || c == '\n' || c == '\r' || c == '\U{000B}' || c == '\U{000C}'
  }

  predicate NoSpace(s: string) {
    forall i :: 0 <= i < |s| ==> !IsSpace(s[i])
  }

  predicate AllSpace(s: string) {
    forall i :: 0 <= i < |s| ==> IsSpace(s[i])
  }

  /** `sep` occurs in `s` starting at index `j`. */
  predicate OccursAt(s: string, sep: string, j: int) {
    0 <= j && j + |sep| <= |s| && s[j..j + |sep|] == sep
  }

  /** `s` holds `sep` from index `j` on, compared character by character. */
  predicate MatchAt(s: string, sep: string, j: nat)
    decreases |sep|
  {
    |sep| == 0 || (j < |s| && s[j] == sep[0] && MatchAt(s, sep[1..], j + 1))
  }

  lemma {:induction false} MatchAtOccurs(s: string, sep: string, j: nat)
    requires j + |sep| <= |s|
    ensures MatchAt(s, sep, j) <==> OccursAt(s, sep, j)
    decreases |sep|
  {
    if |sep| > 0 {
      MatchAtOccurs(s, sep[1..], j + 1);
      assert s[j..j + |sep|] == [s[j]] + s[j + 1..j + 1 + |sep[1..]|];
      assert sep == [sep[0]] + sep[1..];
    } else {
      assert s[j..j] == [];
    }
  }

  /** Index of the first occurrence of `sep` in `s` at or after `start`, or -1 (`string.find`). */
  function IndexFrom(s: string, sep: string, start: nat): (k: int)
    requires |sep| > 0
    ensures k == -1 || (start <= k && k + |sep| <= |s|)
    decreases |s| - start
  {
    if start + |sep| > |s| then -1
    else if MatchAt(s, sep, start) then start
    else IndexFrom(s, sep, start + 1)
  }

  /** `IndexFrom` finds an occurrence, and none lies between `start` and it. */
  lemma {:induction false} IndexFromFirst(s: string, sep: string, start: nat)
    requires |sep| > 0
    ensures var k := IndexFrom(s, sep, start);
            && (k == -1 || OccursAt(s, sep, k))
            && forall j :: start <= j && (k == -1 || j < k) ==> !OccursAt(s, sep, j)
    decreases |s| - start
  {
    if start + |sep| <= |s| {
      MatchAtOccurs(s, sep, start);
      if !MatchAt(s, sep, start) {
        IndexFromFirst(s, sep, start + 1);
      }
    }
  }

  function IndexOf(s: string, sep: string): (k: int)
    requires |sep| > 0
    ensures k == -1 || (0 <= k && k + |sep| <= |s|)
  {
    IndexFrom(s, sep, 0)
  }

  /** `IndexOf` is the first occurrence, or -1 when there is none. */
  lemma IndexOfFirst(s: string, sep: string)
    requires |sep| > 0
    ensures var k := IndexOf(s, sep);
            && (k == -1 || OccursAt(s, sep, k))
            && forall j :: 0 <= j && (k == -1 || j < k) ==> !OccursAt(s, sep, j)
  {
    IndexFromFirst(s, sep, 0);
  }

  /** `string.split(s, sep, 1)`: the text before and after the first `sep`, or None when there is none. */
  function SplitOnce(s: string, sep: string): (r: Option<(string, string)>)
    requires |sep| > 0
  {
    var k := IndexOf(s, sep);
    if k < 0 then None else Some((s[..k], s[k + |sep|..]))
  }

  /** `SplitOnce` cuts at the first `sep`, and finds none exactly when there is none. */
  lemma SplitOnceFirst(s: string, sep: string)
    requires |sep| > 0
    ensures var r := SplitOnce(s, sep);
            && (r.None? <==> forall j :: 0 <= j ==> !OccursAt(s, sep, j))
            && (r.Some? ==> r.value.0 + sep + r.value.1 == s)
            && (r.Some? ==> forall j :: 0 <= j < |r.value.0| ==> !OccursAt(s, sep, j))
  {
    IndexOfFirst(s, sep);
    var k := IndexOf(s, sep);
    if k >= 0 {
      assert s == s[..k] + sep + s[k + |sep|..];
    }
  }

  /** `string.split(s, c)` for a single-character separator: every piece, in order. */
  function SplitChar(s: string, c: char): (pieces: seq<string>)
    ensures |pieces| >= 1
    decreases |s|
  {
    if |s| == 0 then [""]
    else
      var rest := SplitChar(s[1..], c);
      if s[0] == c then [""] + rest else [[s[0]] + rest[0]] + rest[1..]
  }

  /** Number of occurrences of `c` in `s`. */
  function Count(s: string, c: char): nat
    decreases |s|
  {
    if |s| == 0 then 0 else (if s[0] == c then 1 else 0) + Count(s[1..], c)
  }

  /** `string.joinfields(l, '')`. */
  function Join(l: seq<string>): string
    decreases |l|
  {
    if |l| == 0 then "" else l[0] + Join(l[1..])
  }

  /** `string.joinfields(l, sep)`. */
  function JoinWith(l: seq<string>, sep: string): string
    decreases |l|
  {
    if |l| == 0 then "" else if |l| == 1 then l[0] else l[0] + sep + JoinWith(l[1..], sep)
  }

  lemma {:induction false} JoinAppend(l: seq<string>, x: string)
    ensures Join(l + [x]) == Join(l) + x
    decreases |l|
  {
    if |l| == 0 {
      assert l + [x] == [x];
    } else {
      assert (l + [x])[1..] == l[1..] + [x];
      JoinAppend(l[1..], x);
    }
  }

  lemma {:induction false} JoinConcat(a: seq<string>, b: seq<string>)
    ensures Join(a + b) == Join(a) + Join(b)
    decreases |a|
  {
    if |a| == 0 {
      assert a + b == b;
    } else {
      assert (a + b)[1..] == a[1..] + b;
      JoinConcat(a[1..], b);
    }
  }

  lemma {:induction false} SplitCharJoin(s: string, c: char)
    ensures JoinWith(SplitChar(s, c), [c]) == s
    decreases |s|
  {
    if |s| > 0 {
      var rest := SplitChar(s[1..], c);
      SplitCharJoin(s[1..], c);
      if s[0] == c {
        assert SplitChar(s, c) == [""] + rest;
        assert s == [c] + s[1..];
      } else {
        var p := SplitChar(s, c);
        assert p == [[s[0]] + rest[0]] + rest[1..];
        if |rest| == 1 {
          assert s == [s[0]] + rest[0];
        } else {
          assert JoinWith(rest, [c]) == rest[0] + [c] + JoinWith(rest[1..], [c]);
          assert JoinWith(p, [c]) == [s[0]] + rest[0] + [c] + JoinWith(rest[1..], [c]);
          assert s == [s[0]] + s[1..];
        }
      }
    }
  }

  lemma {:induction false} SplitCharPieces(s: string, c: char)
    ensures forall i :: 0 <= i < |SplitChar(s, c)| ==> c !in SplitChar(s, c)[i]
    ensures |SplitChar(s, c)| == Count(s, c) + 1
    decreases |s|
  {
    if |s| > 0 {
      var rest := SplitChar(s[1..], c);
      SplitCharPieces(s[1..], c);
      var p := SplitChar(s, c);
      if s[0] == c {
        assert p == [""] + rest;
        forall i | 0 < i < |p| ensures c !in p[i] {
          assert p[i] == rest[i - 1];
        }
      } else {
        assert p == [[s[0]] + rest[0]] + rest[1..];
        forall i | 0 < i < |p| ensures c !in p[i] {
          assert p[i] == rest[i];
        }
      }
    }
  }

  /** Splitting on `c` loses nothing: joining the pieces with `c` gives the text back,
      no piece contains `c`, and there is one piece more than there are `c`s. */
  lemma SplitCharInverse(s: string, c: char)
    ensures JoinWith(SplitChar(s, c), [c]) == s
    ensures forall i :: 0 <= i < |SplitChar(s, c)| ==> c !in SplitChar(s, c)[i]
    ensures |SplitChar(s, c)| == Count(s, c) + 1
  {
    SplitCharJoin(s, c);
    SplitCharPieces(s, c);
  }

  /** Length of the leading run of non-whitespace characters. */
  function WordLength(s: string): (n: nat)
    ensures n <= |s|
    ensures |s| > 0 && !IsSpace(s[0]) ==> n > 0
    decreases |s|
  {
    if |s| == 0 || IsSpace(s[0]) then 0 else 1 + WordLength(s[1..])
  }

  /** `WordLength` measures the longest whitespace-free prefix. */
  lemma {:induction false} WordLengthMaximal(s: string)
    ensures var n := WordLength(s);
            NoSpace(s[..n]) && (n < |s| ==> IsSpace(s[n]))
    decreases |s|
  {
    if |s| > 0 && !IsSpace(s[0]) {
      WordLengthMaximal(s[1..]);
      var n := WordLength(s);
      assert s[..n] == [s[0]] + s[1..][..n - 1];
    }
  }

  /** `string.lstrip(s)`: `s` without its leading whitespace. */
  function LStrip(s: string): (r: string)
    ensures |r| <= |s|
    ensures r == [] || !IsSpace(r[0])
    decreases |s|
  {
    if |s| > 0 && IsSpace(s[0]) then LStrip(s[1..]) else s
  }

  /** What `LStrip` removes is a prefix of whitespace. */
  lemma {:induction false} LStripPrefix(s: string)
    ensures var r := LStrip(s);
            r == s[|s| - |r|..] && AllSpace(s[..|s| - |r|])
    decreases |s|
  {
    if |s| > 0 && IsSpace(s[0]) {
      LStripPrefix(s[1..]);
      var r := LStrip(s);
      assert s[..|s| - |r|] == [s[0]] + s[1..][..|s| - 1 - |r|];
    }
  }

  /** `string.rstrip(s)`: `s` without its trailing whitespace. */
  function RStrip(s: string): (r: string)
    ensures |r| <= |s|
    ensures r == [] || !IsSpace(r[|r| - 1])
    decreases |s|
  {
    if |s| > 0 && IsSpace(s[|s| - 1]) then RStrip(s[..|s| - 1]) else s
  }

  /** What `RStrip` removes is a suffix of whitespace. */
  lemma {:induction false} RStripSuffix(s: string)
    ensures var r := RStrip(s);
            r == s[..|r|] && AllSpace(s[|r|..])
    decreases |s|
  {
    if |s| > 0 && IsSpace(s[|s| - 1]) {
      RStripSuffix(s[..|s| - 1]);
      var r := RStrip(s);
      assert s[|r|..] == s[..|s| - 1][|r|..] + [s[|s| - 1]];
    }
  }

  /** `string.strip(s)`. */
  function Strip(s: string): string {
    RStrip(LStrip(s))
  }

  /** `string.split(s)`: the maximal runs of non-whitespace characters, in order. */
  function SplitWords(s: string): (words: seq<string>)
    decreases |s|
  {
    var t := LStrip(s);
    if |t| == 0 then []
    else
      var n := WordLength(t);
      [t[..n]] + SplitWords(t[n..])
  }

  /** Every word is non-empty and holds no whitespace. */
  lemma {:induction false} SplitWordsAreWords(s: string)
    ensures var words := SplitWords(s);
            forall i :: 0 <= i < |words| ==> |words[i]| > 0 && NoSpace(words[i])
    decreases |s|
  {
    var t := LStrip(s);
    if |t| > 0 {
      var n := WordLength(t);
      WordLengthMaximal(t);
      SplitWordsAreWords(t[n..]);
      var words := SplitWords(s);
      forall i | 0 <= i < |words| ensures |words[i]| > 0 && NoSpace(words[i]) {
        if i > 0 { assert words[i] == SplitWords(t[n..])[i - 1]; }
      }
    }
  }

  /** The characters of `s` that are not whitespace, in order. */
  function NonSpace(s: string): string
    decreases |s|
  {
    if |s| == 0 then "" else (if IsSpace(s[0]) then "" else [s[0]]) + NonSpace(s[1..])
  }

  lemma {:induction false} NonSpaceConcat(a: string, b: string)
    ensures NonSpace(a + b) == NonSpace(a) + NonSpace(b)
    decreases |a|
  {
    if |a| == 0 {
      assert a + b == b;
    } else {
      assert (a + b)[1..] == a[1..] + b;
      NonSpaceConcat(a[1..], b);
    }
  }

  lemma {:induction false} NonSpaceOfWord(s: string)
    ensures AllSpace(s) ==> NonSpace(s) == ""
    ensures NoSpace(s) ==> NonSpace(s) == s
    decreases |s|
  {
    if |s| > 0 {
      NonSpaceOfWord(s[1..]);
      assert AllSpace(s) ==> AllSpace(s[1..]);
      assert NoSpace(s) ==> NoSpace(s[1..]);
    }
  }

  /** Whitespace splitting drops exactly the whitespace: the words put back together are
      the text with its whitespace removed. */
  lemma {:induction false} SplitWordsKeepsText(s: string)
    ensures Join(SplitWords(s)) == NonSpace(s)
    decreases |s|
  {
    var t := LStrip(s);
    LStripPrefix(s);
    var lead := s[..|s| - |t|];
    assert s == lead + t;
    NonSpaceConcat(lead, t);
    NonSpaceOfWord(lead);
    if |t| > 0 {
      var n := WordLength(t);
      WordLengthMaximal(t);
      assert t == t[..n] + t[n..];
      NonSpaceConcat(t[..n], t[n..]);
      NonSpaceOfWord(t[..n]);
      SplitWordsKeepsText(t[n..]);
    }
  }

  /** Stripping the front of `x + y`: once `x` has a non-blank character, `y` is kept whole. */
  lemma {:induction false} LStripConcat(x: string, y: string)
    ensures LStrip(x) != "" ==> LStrip(x + y) == LStrip(x) + y
    ensures LStrip(x) == "" ==> LStrip(x + y) == LStrip(y)
    decreases |x|
  {
    if |x| == 0 {
      assert x + y == y;
    } else if IsSpace(x[0]) {
      assert (x + y)[1..] == x[1..] + y;
      LStripConcat(x[1..], y);
    }
  }

  /** The first word of `x + y` is the first word of `x` when that ends inside `x`,
      or when `y` starts with whitespace. */
  lemma {:induction false} WordLengthConcat(x: string, y: string)
    ensures WordLength(x) < |x| ==> WordLength(x + y) == WordLength(x)
    ensures WordLength(x) == |x| && |y| > 0 && IsSpace(y[0]) ==> WordLength(x + y) == |x|
    decreases |x|
  {
    if |x| == 0 {
      assert x + y == y;
    } else if !IsSpace(x[0]) {
      assert (x + y)[1..] == x[1..] + y;
      WordLengthConcat(x[1..], y);
    }
  }

  /** A single non-empty word splits into itself. */
  lemma SplitWordsOfWord(w: string)
    ensures w != "" && NoSpace(w) ==> SplitWords(w) == [w]
  {
    if w != "" && NoSpace(w) {
      assert !IsSpace(w[0]);
      assert LStrip(w) == w;
      WordLengthMaximal(w);
      assert WordLength(w) == |w|;
      assert w[..|w|] == w && w[|w|..] == "";
    }
  }

  /** `string.split` cuts at whitespace: a whitespace character separates the words
      before it from the words after it. */
  lemma {:induction false} SplitWordsAtSpace(a: string, c: char, b: string)
    requires IsSpace(c)
    ensures SplitWords(a + [c] + b) == SplitWords(a) + SplitWords(b)
    decreases |a|
  {
    var t := LStrip(a);
    LStripConcat(a, [c] + b);
    assert a + [c] + b == a + ([c] + b);
    if |t| == 0 {
      LStripConcat([c], b);
    } else {
      var n := WordLength(t);
      var u := t + ([c] + b);
      assert LStrip(a + [c] + b) == u;
      WordLengthConcat(t, [c] + b);
      assert WordLength(u) == n;
      assert u[..n] == t[..n];
      if n < |t| {
        assert u[n..] == t[n..] + [c] + b;
        LStripPrefix(a);
        SplitWordsAtSpace(t[n..], c, b);
      } else {
        assert u[n..] == [c] + b;
        LStripConcat([c], b);
        assert t[n..] == "";
      }
    }
  }

  /** ASCII lower-casing, as `string.lower` does in the C locale. */
  function LowerChar(c: char): (r: char)
    ensures 'A' <= c <= 'Z' ==> 'a' <= r <= 'z'
    ensures 'A' <= c <= 'Z' ==> r as int - 'a' as int == c as int - 'A' as int
    ensures !('A' <= c <= 'Z') ==> r == c
  {
    if 'A' <= c <= 'Z' then (c as int - 'A' as int + 'a' as int) as char else c
  }

  function Lower(s: string): string {
    seq(|s|, i requires 0 <= i < |s| => LowerChar(s[i]))
  }

  /** Python's normalisation of a slice bound `i` for a string of length `len`. */
  function SliceIndex(i: int, len: nat): (k: nat)
    ensures k <= len
    ensures 0 <= i ==> k == if i <= len then i else len
    ensures i < 0 ==> k == if len + i >= 0 then len + i else 0
  {
    if i < 0 then (if len + i >= 0 then len + i else 0) else if i <= len then i else len
  }

  /** `s[:i]` and `s[i:]`. */
  function Before(s: string, i: int): string {
    s[..SliceIndex(i, |s|)]
  }

  function After(s: string, i: int): string {
    s[SliceIndex(i, |s|)..]
  }

  lemma BeforeAfter(s: string, i: int)
    ensures Before(s, i) + After(s, i) == s
  {
  }

  /** What `s[:i]` and `s[i:]` are for each range of `i`: a negative bound counts from the
      end, and a bound beyond either end is clamped to it. */
  lemma SliceBounds(s: string, i: int)
    ensures -|s| <= i < 0 ==> Before(s, i) == s[..|s| + i] && After(s, i) == s[|s| + i..] && |After(s, i)| == -i
    ensures i < -|s| ==> Before(s, i) == "" && After(s, i) == s
    ensures 0 <= i <= |s| ==> Before(s, i) == s[..i] && After(s, i) == s[i..]
    ensures |s| < i ==> Before(s, i) == s && After(s, i) == ""
  {
  }

  /** `s[:-1]`. */
  function DropLast(s: string): (r: string)
    ensures |s| > 0 ==> r + [s[|s| - 1]] == s
    ensures |s| == 0 ==> r == ""
  {
    Before(s, -1)
  }

  predicate IsDigit(c: char) {
    '0' <= c <= '9'
  }

  predicate AllDigits(s: string)
    decreases |s|
  {
    |s| == 0 || (IsDigit(s[|s| - 1]) && AllDigits(s[..|s| - 1]))
  }

  lemma {:induction false} AllDigitsAt(s: string, i: nat)
    requires AllDigits(s) && i < |s|
    ensures IsDigit(s[i])
    decreases |s|
  {
    if i < |s| - 1 { AllDigitsAt(s[..|s| - 1], i); }
  }

  /** Value of a string of decimal digits. */
  function DigitsValue(ds: string): nat
    requires AllDigits(ds)
    decreases |ds|
  {
    if |ds| == 0 then 0
    else
      10 * DigitsValue(ds[..|ds| - 1]) + (ds[|ds| - 1] as int - '0' as int)
  }

  /** `int(t)` for a token without whitespace: an optional sign followed by at least one
      decimal digit; anything else is a ValueError (None). */
  function ParseInt(t: string): (r: Option<int>)
    ensures r.Some? ==> |t| > 0
  {
    var neg := |t| > 0 && t[0] == '-';
    var ds := if |t| > 0 && (t[0] == '-' || t[0] == '+') then t[1..] else t;
    if |ds| > 0 && AllDigits(ds) then
      var v: int := DigitsValue(ds);
      Some(if neg then -v else v)
    else None
  }

  /** Decimal spelling of a natural number, most significant digit first. */
  function Decimal(n: nat): (ds: string)
    ensures |ds| > 0
    ensures AllDigits(ds)
    decreases n
  {
    if n < 10 then
      var ds := [('0' as int + n) as char];
      assert ds[..0] == "";
      ds
    else
      var ds := Decimal(n / 10) + [('0' as int + n % 10) as char];
      assert ds[..|ds| - 1] == Decimal(n / 10);
      ds
  }

  lemma {:induction false} DecimalValue(n: nat)
    ensures DigitsValue(Decimal(n)) == n
    decreases n
  {
    var ds := Decimal(n);
    if n >= 10 {
      DecimalValue(n / 10);
      assert ds[..|ds| - 1] == Decimal(n / 10);
    } else {
      assert ds[..|ds| - 1] == "";
    }
  }

  /** `int()` reads back the decimal spelling of any natural number. */
  lemma ParseDecimal(n: nat)
    ensures ParseInt(Decimal(n)) == Some(n)
  {
    DecimalValue(n);
    AllDigitsAt(Decimal(n), 0);
  }
}
