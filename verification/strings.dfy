/**
 * The Python `str` built-ins the scraper and the bot rely on: whitespace
 * classification, `split()`, `strip()`, `" ".join`, `lower()`, `replace`,
 * `in`, `int(...)`, `str(n)` and the code-point order used by `sorted`.
 */
module Strings {
  import opened Wrappers

  /** The characters for which Python's `str.isspace()` holds; `split()` and
      `strip()` without arguments split on and strip exactly these. */
  predicate IsSpace(c: char) {
    var n := c as int;
    (9 <= n <= 13) || (0x1C <= n <= 0x20) || n == 0x85 || n == 0xA0 || n == 0x1680
    || (0x2000 <= n <= 0x200A) || n == 0x2028 || n == 0x2029 || n == 0x202F
    || n == 0x205F || n == 0x3000
  }

  /** The line boundaries of Python's `str.splitlines()`. */
  predicate IsLineBreak(c: char) {
    var n := c as int;
    (10 <= n <= 13) || (0x1C <= n <= 0x1E) || n == 0x85 || n == 0x2028 || n == 0x2029
  }

  /** Empty or whitespace only. */
  predicate Blank(s: string) {
    forall i :: 0 <= i < |s| ==> IsSpace(s[i])
  }

  /** A token produced by `split()`: non-empty, no whitespace. */
  predicate IsWord(w: string) {
    w != [] && forall i :: 0 <= i < |w| ==> !IsSpace(w[i])
  }

  /** Two characters `split()` cannot tell apart. */
  predicate SameClass(a: char, b: char) {
    a == b || (IsSpace(a) && IsSpace(b))
  }

  /** Length of the run of non-space characters at the start of `s`. */
  function WordLen(s: string): (n: nat)
    ensures n <= |s|
    ensures forall i :: 0 <= i < n ==> !IsSpace(s[i])
    ensures n < |s| ==> IsSpace(s[n])
  {
    if s == [] || IsSpace(s[0]) then 0 else 1 + WordLen(s[1..])
  }

  /** Python's `s.split()`: the maximal runs of non-space characters, in order. */
  function Split(s: string): (words: seq<string>)
    ensures forall i :: 0 <= i < |words| ==> IsWord(words[i])
    ensures words == [] <==> Blank(s)
    decreases |s|
  {
    if s == [] then []
    else if IsSpace(s[0]) then
      assert Blank(s) <==> Blank(s[1..]) by {
        assert forall i :: 0 < i < |s| ==> s[i] == s[1..][i - 1];
      }
      Split(s[1..])
    else
      var n := WordLen(s);
      [s[..n]] + Split(s[n..])
  }

  /** Python's `sep.join(parts)`. */
  function Join(sep: string, parts: seq<string>): string {
    if parts == [] then ""
    else if |parts| == 1 then parts[0]
    else parts[0] + sep + Join(sep, parts[1..])
  }

  function TrimLeft(s: string): string {
    if s != [] && IsSpace(s[0]) then TrimLeft(s[1..]) else s
  }

  function TrimRight(s: string): string {
    if s != [] && IsSpace(s[|s| - 1]) then TrimRight(s[..|s| - 1]) else s
  }

  /** Python's `s.strip()`: drop leading and trailing whitespace. Its
      properties are stated by StripFacts and StripSlice. */
  function Strip(s: string): string {
    TrimRight(TrimLeft(s))
  }

  lemma {:induction false} TrimLeftFacts(s: string)
    ensures var r := TrimLeft(s);
      && |r| <= |s| && r == s[|s| - |r|..]
      && (r == [] || !IsSpace(r[0]))
      && Blank(s[..|s| - |r|])
  {
    if s != [] && IsSpace(s[0]) {
      TrimLeftFacts(s[1..]);
      var r := TrimLeft(s[1..]);
      assert s[..|s| - |r|] == [s[0]] + s[1..][..|s| - 1 - |r|];
    }
  }

  lemma {:induction false} TrimRightFacts(s: string)
    ensures var r := TrimRight(s);
      && |r| <= |s| && r == s[..|r|]
      && (r == [] || !IsSpace(r[|r| - 1]))
      && Blank(s[|r|..])
  {
    if s != [] && IsSpace(s[|s| - 1]) {
      TrimRightFacts(s[..|s| - 1]);
      var r := TrimRight(s[..|s| - 1]);
      assert s[|r|..] == s[..|s| - 1][|r|..] + [s[|s| - 1]];
    }
  }

  /** `Strip` returns a slice of its argument with only whitespace around it. */
  lemma StripSlice(s: string) returns (i: nat)
    ensures i + |Strip(s)| <= |s| && Strip(s) == s[i..i + |Strip(s)|]
    ensures Blank(s[..i]) && Blank(s[i + |Strip(s)|..])
  {
    var left := TrimLeft(s);
    TrimLeftFacts(s);
    TrimRightFacts(left);
    var r := TrimRight(left);
    i := |s| - |left|;
    assert s[i..] == left;
    assert s[i..i + |r|] == left[..|r|];
    assert s[i + |r|..] == left[|r|..];
  }

  /** `s.strip()` is empty exactly when `s` is blank; otherwise it starts and
      ends with a non-space character. */
  lemma StripFacts(s: string)
    ensures Strip(s) == [] <==> Blank(s)
    ensures Strip(s) == [] || (!IsSpace(Strip(s)[0]) && !IsSpace(Strip(s)[|Strip(s)| - 1]))
  {
    var i := StripSlice(s);
    var r := Strip(s);
    TrimLeftFacts(s);
    TrimRightFacts(TrimLeft(s));
    if r == [] {
      assert s == s[..i] + s[i..];
    } else {
      assert s[i] == r[0];
    }
  }

  /** `Strip` leaves a string without surrounding whitespace as it is. */
  lemma StripUntrimmed(s: string)
    requires s == [] || (!IsSpace(s[0]) && !IsSpace(s[|s| - 1]))
    ensures Strip(s) == s
  {
  }

  /** Python's `s.replace(old, new)` for one-character `old` and `new`. */
  function Replace(s: string, from: char, to: char): (r: string)
    ensures |r| == |s|
    ensures forall i :: 0 <= i < |s| ==> r[i] == (if s[i] == from then to else s[i])
  {
    seq(|s|, i requires 0 <= i < |s| => if s[i] == from then to else s[i])
  }

  /** Python's `s.replace(c, "")`. */
  function Remove(s: string, c: char): (r: string)
    ensures forall i :: 0 <= i < |r| ==> r[i] != c
    ensures |r| <= |s|
  {
    if s == [] then []
    else (if s[0] == c then [] else [s[0]]) + Remove(s[1..], c)
  }

  function LowerChar(c: char): char {
    if 'A' <= c <= 'Z' then (c as int + 32) as char else c
  }

  /** Python's `s.lower()` on the ASCII letters. */
  function Lower(s: string): (r: string)
    ensures |r| == |s|
    ensures forall i :: 0 <= i < |s| ==> r[i] == LowerChar(s[i])
  {
    seq(|s|, i requires 0 <= i < |s| => LowerChar(s[i]))
  }

  predicate OccursAt(sub: string, s: string, i: int) {
    0 <= i && i + |sub| <= |s| && s[i..i + |sub|] == sub
  }

  /** Python's `sub in s`. */
  predicate Contains(s: string, sub: string) {
    exists i | 0 <= i <= |s| - |sub| :: OccursAt(sub, s, i)
  }

  // ---------------------------------------------------------------------
  // Decimal numerals: `str(n)` and `int(token)`.

  predicate IsDigit(c: char) { '0' <= c <= '9' }

  function DigitChar(d: nat): char
    requires d < 10
  {
    ('0' as int + d) as char
  }

  /** Python's `str(n)` for a non-negative `n`. */
  function NatToString(n: nat): (s: string)
    ensures s != [] && forall i :: 0 <= i < |s| ==> IsDigit(s[i])
  {
    if n < 10 then [DigitChar(n)] else NatToString(n / 10) + [DigitChar(n % 10)]
  }

  /** The digit part accepted by Python's `int(token)`: ASCII digits,
      optionally grouped by single underscores between digits. */
  predicate IsNumeral(s: string) {
    && s != []
    && IsDigit(s[0])
    && forall i :: 0 <= i < |s| ==> IsDigit(s[i]) || (s[i] == '_' && i + 1 < |s| && IsDigit(s[i + 1]))
  }

  /** The value of a numeral; underscores are ignored. */
  function NumeralValue(s: string): nat {
    if s == [] then 0
    else if IsDigit(s[|s| - 1]) then
      10 * NumeralValue(s[..|s| - 1]) + (s[|s| - 1] as int - '0' as int)
    else NumeralValue(s[..|s| - 1])
  }

  /** Python's `int(token)` for a token without whitespace: an optional sign
      followed by a numeral; anything else raises ValueError (`None`). */
  function ParseInt(token: string): (r: Option<int>)
    ensures r.Some? ==> token != [] && (IsDigit(token[0]) || token[0] == '+' || token[0] == '-')
    ensures IsNumeral(token) ==> r == Some(NumeralValue(token))
  {
    if token != [] && (token[0] == '+' || token[0] == '-') then
      var digits := token[1..];
      var v: int := NumeralValue(digits);
      if IsNumeral(digits) then Some(if token[0] == '-' then -v else v)
      else None
    else if IsNumeral(token) then Some(NumeralValue(token))
    else None
  }

  lemma {:induction false} NumeralValueOfNatToString(n: nat)
    ensures NumeralValue(NatToString(n)) == n
  {
    if n >= 10 {
      var s := NatToString(n / 10);
      NumeralValueOfNatToString(n / 10);
      assert (s + [DigitChar(n % 10)])[..|s|] == s;
    }
  }

  /** `int(str(n)) == n`: the numerals the scraper writes are read back. */
  lemma ParseNatToString(n: nat)
    ensures ParseInt(NatToString(n)) == Some(n)
  {
    NumeralValueOfNatToString(n);
  }

  // ---------------------------------------------------------------------
  // Code-point order on strings, as Python's `<` on `str`.

  predicate Less(a: string, b: string) {
    if a == [] then b != []
    else if b == [] then false
    else if a[0] != b[0] then a[0] < b[0]
    else Less(a[1..], b[1..])
  }

  lemma LessIrreflexive(a: string)
    ensures !Less(a, a)
  {
  }

  lemma LessTransitive(a: string, b: string, c: string)
    requires Less(a, b) && Less(b, c)
    ensures Less(a, c)
  {
    if a != [] && b != [] && c != [] && a[0] == b[0] && b[0] == c[0] {
      LessTransitive(a[1..], b[1..], c[1..]);
    }
  }

  lemma LessTotal(a: string, b: string)
    ensures a == b || Less(a, b) || Less(b, a)
  {
    if a != [] && b != [] && a[0] == b[0] {
      LessTotal(a[1..], b[1..]);
      if a[1..] == b[1..] {
        assert a == [a[0]] + a[1..] && b == [b[0]] + b[1..];
      }
    }
  }

  // ---------------------------------------------------------------------
  // Facts about `split` and `join`.

  lemma {:induction false} WordLenOfWord(w: string, t: string)
    requires forall i :: 0 <= i < |w| ==> !IsSpace(w[i])
    requires t == [] || IsSpace(t[0])
    ensures WordLen(w + t) == |w|
  {
    if w != [] {
      assert (w + t)[1..] == w[1..] + t;
      WordLenOfWord(w[1..], t);
    }
  }

  lemma {:induction false} WordLenSameClass(a: string, b: string)
    requires |a| == |b| && forall i :: 0 <= i < |a| ==> SameClass(a[i], b[i])
    ensures WordLen(a) == WordLen(b)
  {
    if a != [] && !IsSpace(a[0]) {
      WordLenSameClass(a[1..], b[1..]);
    }
  }

  /** `split()` cannot see which whitespace character separates two words. */
  lemma {:induction false} SplitSameClass(a: string, b: string)
    requires |a| == |b| && forall i :: 0 <= i < |a| ==> SameClass(a[i], b[i])
    ensures Split(a) == Split(b)
    decreases |a|
  {
    if a == [] {
    } else if IsSpace(a[0]) {
      SplitSameClass(a[1..], b[1..]);
    } else {
      WordLenSameClass(a, b);
      var n := WordLen(a);
      assert a[..n] == b[..n];
      SplitSameClass(a[n..], b[n..]);
    }
  }

  /** Whitespace in front of a string does not change its words. */
  lemma {:induction false} SplitBlankPrefix(pre: string, s: string)
    requires Blank(pre)
    ensures Split(pre + s) == Split(s)
  {
    if pre == [] {
      assert pre + s == s;
    } else {
      assert (pre + s)[0] == pre[0];
      assert (pre + s)[1..] == pre[1..] + s;
      assert Split(pre + s) == Split(pre[1..] + s);
      SplitBlankPrefix(pre[1..], s);
    }
  }

  lemma {:induction false} WordLenBlankSuffix(s: string, post: string)
    requires Blank(post)
    requires s != [] && !IsSpace(s[0])
    ensures WordLen(s + post) == WordLen(s)
  {
    var n := WordLen(s);
    if n < |s| {
      WordLenOfWord(s[..n], s[n..] + post);
      assert s[..n] + (s[n..] + post) == s + post;
    } else {
      assert s[..n] == s;
      WordLenOfWord(s, post);
    }
  }

  /** Whitespace after a string does not change its words. */
  lemma {:induction false} SplitBlankSuffix(s: string, post: string)
    requires Blank(post)
    ensures Split(s + post) == Split(s)
    decreases |s|
  {
    if s == [] {
      assert s + post == post;
    } else if IsSpace(s[0]) {
      assert (s + post)[1..] == s[1..] + post;
      SplitBlankSuffix(s[1..], post);
    } else {
      WordLenBlankSuffix(s, post);
      var n := WordLen(s);
      assert (s + post)[..n] == s[..n];
      assert (s + post)[n..] == s[n..] + post;
      SplitBlankSuffix(s[n..], post);
    }
  }

  /** `s.strip().split() == s.split()`. */
  lemma SplitStrip(s: string)
    ensures Split(Strip(s)) == Split(s)
  {
    var i := StripSlice(s);
    var r := Strip(s);
    assert s == s[..i] + (r + s[i + |r|..]);
    SplitBlankPrefix(s[..i], r + s[i + |r|..]);
    SplitBlankSuffix(r, s[i + |r|..]);
  }

  /** Words joined by single spaces form one line: every whitespace character
      is a single ' ' with a word character on either side. */
  predicate SingleSpaced(r: string) {
    forall i :: 0 <= i < |r| && IsSpace(r[i]) ==>
      r[i] == ' ' && 0 < i < |r| - 1 && !IsSpace(r[i + 1])
  }

  lemma {:induction false} JoinWords(words: seq<string>)
    requires forall i :: 0 <= i < |words| ==> IsWord(words[i])
    ensures var r := Join(" ", words);
      && SingleSpaced(r)
      && (words == [] <==> r == [])
      && (words != [] ==> IsWord(words[0]) && r != [] && r[0] == words[0][0] && !IsSpace(r[|r| - 1]))
  {
    if |words| > 1 {
      var w := words[0];
      var rest := Join(" ", words[1..]);
      JoinWords(words[1..]);
      var r := w + " " + rest;
      assert Join(" ", words) == r;
      forall i | 0 <= i < |r| && IsSpace(r[i])
        ensures r[i] == ' ' && 0 < i < |r| - 1 && !IsSpace(r[i + 1])
      {
        if i > |w| {
          assert r[i] == rest[i - |w| - 1];
          assert r[i + 1] == rest[i - |w|];
        }
      }
    }
  }

  /** A word followed by a break or by nothing is split off as a whole. */
  lemma SplitWordFirst(w: string, t: string)
    requires IsWord(w)
    requires t == [] || IsSpace(t[0])
    ensures Split(w + t) == [w] + Split(t)
  {
    var s := w + t;
    WordLenOfWord(w, t);
    assert s[..|w|] == w;
    assert s[|w|..] == t;
  }

  /** Splitting words joined by single spaces gives the words back. */
  lemma {:induction false} SplitJoin(words: seq<string>)
    requires forall i :: 0 <= i < |words| ==> IsWord(words[i])
    ensures Split(Join(" ", words)) == words
  {
    if words == [] {
    } else if |words| == 1 {
      var w := words[0];
      SplitWordFirst(w, []);
      assert w + [] == w;
    } else {
      var w := words[0];
      var rest := Join(" ", words[1..]);
      assert Join(" ", words) == w + (" " + rest);
      SplitWordFirst(w, " " + rest);
      assert (" " + rest)[1..] == rest;
      assert Split(" " + rest) == Split(rest);
      SplitJoin(words[1..]);
      assert words == [w] + words[1..];
    }
  }

}
