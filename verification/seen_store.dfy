/**
 * The file of addresses already saved for a search term: one normalized
 * address per line, written in sorted order and read back as a set.
 */
module SeenStore {
  import opened Strings
  import AddressClassifier

  // ---------------------------------------------------------------------
  // Python's `str.splitlines()`.

  /** Length of the text before the first line boundary of `s`. */
  function LineLen(s: string): (n: nat)
    ensures n <= |s|
    ensures forall i :: 0 <= i < n ==> !IsLineBreak(s[i])
    ensures n < |s| ==> IsLineBreak(s[n])
  {
    if s == [] || IsLineBreak(s[0]) then 0 else 1 + LineLen(s[1..])
  }

  /** Width of the line boundary at `s[n]`: "\r\n" counts as one boundary. */
  function BreakWidth(s: string, n: nat): nat
    requires n < |s|
  {
    if s[n] == '\r' && n + 1 < |s| && s[n + 1] == '\n' then 2 else 1
  }

  /** `s.splitlines()`: the lines of `s` without their boundaries; a final
      boundary does not open an empty last line, and "" has no lines. */
  function Lines(s: string): (lines: seq<string>)
    ensures forall k :: 0 <= k < |lines| ==> forall i :: 0 <= i < |lines[k]| ==> !IsLineBreak(lines[k][i])
    decreases |s|
  {
    if s == [] then []
    else
      var n := LineLen(s);
      if n == |s| then [s]
      else [s[..n]] + Lines(s[n + BreakWidth(s, n)..])
  }

  predicate NoLineBreak(s: string) {
    forall i :: 0 <= i < |s| ==> !IsLineBreak(s[i])
  }

  lemma {:induction false} LineLenOfLine(x: string, t: string)
    requires NoLineBreak(x)
    requires t == [] || IsLineBreak(t[0])
    ensures LineLen(x + t) == |x|
  {
    if x != [] {
      assert (x + t)[1..] == x[1..] + t;
      LineLenOfLine(x[1..], t);
    }
  }

  /** Lines joined by "\n" split back into those lines, as long as none is
      empty and none holds a line boundary of its own. */
  lemma {:induction false} LinesJoin(xs: seq<string>)
    requires forall k :: 0 <= k < |xs| ==> xs[k] != "" && NoLineBreak(xs[k])
    ensures Lines(Join("\n", xs)) == xs
  {
    if |xs| == 1 {
      LineLenOfLine(xs[0], []);
      assert xs[0] + [] == xs[0];
    } else if |xs| > 1 {
      var x := xs[0];
      var rest := Join("\n", xs[1..]);
      var s := x + "\n" + rest;
      assert Join("\n", xs) == s;
      assert s == x + ("\n" + rest);
      LineLenOfLine(x, "\n" + rest);
      assert BreakWidth(s, |x|) == 1;
      assert s[..|x|] == x;
      assert s[|x| + 1..] == rest;
      LinesJoin(xs[1..]);
      assert xs == [x] + xs[1..];
    }
  }

  // ---------------------------------------------------------------------
  // Loading and saving.

  /** A string the seen file can hold as one line and give back unchanged. */
  predicate Storable(x: string) {
    x != "" && Strip(x) == x && NoLineBreak(x)
  }

  /** The set read from the seen file: each line stripped, blank lines skipped. */
  function Load(content: string): set<string> {
    set l | l in Lines(content) && Strip(l) != "" :: Strip(l)
  }

  lemma StripIdempotent(s: string)
    ensures Strip(Strip(s)) == Strip(s)
  {
    StripFacts(s);
    StripUntrimmed(Strip(s));
  }

  /** Every address read from a seen file can be written back unchanged. */
  lemma LoadStorable(content: string)
    ensures forall x :: x in Load(content) ==> Storable(x)
  {
    forall x | x in Load(content)
      ensures Storable(x)
    {
      var l :| l in Lines(content) && Strip(l) != "" && Strip(l) == x;
      StripIdempotent(l);
      var i := StripSlice(l);
      assert forall k :: 0 <= k < |x| ==> x[k] == l[i + k];
    }
  }

  /** The elements of a sequence, as a set. */
  function Elements(xs: seq<string>): set<string> {
    set x | x in xs
  }

  /** Saving a sequence of storable strings, one per line, and loading the
      file back gives exactly those strings. */
  lemma LoadJoin(xs: seq<string>)
    requires forall k :: 0 <= k < |xs| ==> Storable(xs[k])
    ensures Load(Join("\n", xs)) == Elements(xs)
  {
    LinesJoin(xs);
  }

  /** A normalized non-blank address is storable. */
  lemma NormalizedStorable(addr: string)
    requires !Blank(addr)
    ensures Storable(AddressClassifier.Normalize(addr))
  {
    var r := AddressClassifier.Normalize(addr);
    AddressClassifier.NormalizeEmpty(addr);
    AddressClassifier.NormalizeOneLine(addr);
    StripUntrimmed(r);
    forall i | 0 <= i < |r|
      ensures !IsLineBreak(r[i])
    {
      if IsSpace(r[i]) {
        assert r[i] == ' ';
      }
    }
  }

  // ---------------------------------------------------------------------
  // `sorted(seen)`.

  /** Strictly increasing in code-point order. */
  predicate Increasing(xs: seq<string>) {
    forall i, j :: 0 <= i < j < |xs| ==> Less(xs[i], xs[j])
  }

  predicate IsLeast(m: string, s: set<string>) {
    m in s && forall y :: y in s ==> y == m || Less(m, y)
  }

  lemma {:induction false} LeastExists(s: set<string>)
    requires s != {}
    ensures exists m :: IsLeast(m, s)
    decreases |s|
  {
    var x :| x in s;
    var rest := s - {x};
    if rest == {} {
      forall y | y in s
        ensures y == x
      {
        assert y !in rest;
      }
      assert IsLeast(x, s);
    } else {
      LeastExists(rest);
      var m :| IsLeast(m, rest);
      LessTotal(x, m);
      if Less(x, m) {
        forall y | y in s
          ensures y == x || Less(x, y)
        {
          if y != x && y != m {
            LessTransitive(x, m, y);
          }
        }
        assert IsLeast(x, s);
      } else {
        assert IsLeast(m, s);
      }
    }
  }

  lemma LeastUnique(m: string, n: string, s: set<string>)
    requires IsLeast(m, s) && IsLeast(n, s)
    ensures m == n
  {
    if m != n {
      assert Less(m, n) && Less(n, m);
      LessTransitive(m, n, m);
      LessIrreflexive(m);
    }
  }

  /** The elements of `s` in increasing order. */
  ghost function SortedSeq(s: set<string>): seq<string>
    decreases |s|
  {
    if s == {} then []
    else
      LeastExists(s);
      var m :| IsLeast(m, s);
      [m] + SortedSeq(s - {m})
  }

  lemma SortedSeqStep(s: set<string>, m: string)
    requires IsLeast(m, s)
    ensures SortedSeq(s) == [m] + SortedSeq(s - {m})
  {
    var xs := SortedSeq(s);
    assert IsLeast(xs[0], s) && xs == [xs[0]] + SortedSeq(s - {xs[0]});
    LeastUnique(m, xs[0], s);
  }

  /** `sorted` keeps exactly the elements, each once. */
  lemma {:induction false} SortedSeqElements(s: set<string>)
    ensures Elements(SortedSeq(s)) == s
    ensures |SortedSeq(s)| == |s|
    decreases |s|
  {
    if s != {} {
      LeastExists(s);
      var m :| IsLeast(m, s);
      SortedSeqStep(s, m);
      SortedSeqElements(s - {m});
      var rest := SortedSeq(s - {m});
      assert Elements([m] + rest) == {m} + Elements(rest);
    }
  }

  /** `sorted` puts the elements in increasing order. */
  lemma {:induction false} SortedSeqIncreasing(s: set<string>)
    ensures Increasing(SortedSeq(s))
    decreases |s|
  {
    if s != {} {
      LeastExists(s);
      var m :| IsLeast(m, s);
      SortedSeqStep(s, m);
      SortedSeqIncreasing(s - {m});
      SortedSeqElements(s - {m});
      var rest := SortedSeq(s - {m});
      var xs := [m] + rest;
      forall i, j | 0 <= i < j < |xs|
        ensures Less(xs[i], xs[j])
      {
        assert xs[j] == rest[j - 1];
        if i > 0 {
          assert xs[i] == rest[i - 1];
        } else {
          assert rest[j - 1] in Elements(rest);
        }
      }
    }
  }

  /** The least element of a non-empty set, by a scan over it. */
  method Least(s: set<string>) returns (m: string)
    requires s != {}
    ensures IsLeast(m, s)
  {
    m :| m in s;
    var rest := s - {m};
    while rest != {}
      invariant rest <= s && m in s && m !in rest
      invariant forall y :: y in s && y !in rest ==> y == m || Less(m, y)
      decreases rest
    {
      var y :| y in rest;
      LessTotal(y, m);
      if Less(y, m) {
        forall z | z in s && z !in rest && z != y
          ensures Less(y, z)
        {
          if z != m {
            LessTransitive(y, m, z);
          }
        }
        m := y;
      }
      rest := rest - {y};
    }
  }

  /** `sorted(seen)`, by repeatedly taking the least remaining element. */
  method SortAddresses(seen: set<string>) returns (xs: seq<string>)
    ensures xs == SortedSeq(seen)
  {
    xs := [];
    var rest := seen;
    while rest != {}
      invariant xs + SortedSeq(rest) == SortedSeq(seen)
      decreases |rest|
    {
      var m := Least(rest);
      SortedSeqStep(rest, m);
      xs := xs + [m];
      rest := rest - {m};
    }
  }

  /** The content of the seen file for a set of addresses. */
  ghost function SeenContent(seen: set<string>): string {
    Join("\n", SortedSeq(seen))
  }

  /** Writing the seen set and reading the file back gives the same set. */
  lemma LoadSave(seen: set<string>)
    requires forall x :: x in seen ==> Storable(x)
    ensures Load(SeenContent(seen)) == seen
  {
    SortedSeqElements(seen);
    var xs := SortedSeq(seen);
    assert forall k :: 0 <= k < |xs| ==> xs[k] in Elements(xs);
    LoadJoin(xs);
  }
}
