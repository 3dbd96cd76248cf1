/** The string and list operations the target-URL rules are normalised with:
    .NET's String.Trim (white space as Char.IsWhiteSpace defines it) and
    LINQ's Distinct (keeps the first occurrence of each value, in order). */
module Text {
  import opened Wrappers

  /** Char.IsWhiteSpace: U+0009..U+000D, the space separators, U+0085,
      and the line and paragraph separators. */
  predicate IsWhiteSpace(c: char) {
    || ('\t' <= c <= '\r')
    || c == ' ' || c == '\U{0085}' || c == '\U{00A0}' || c == '\U{1680}'
    || ('\U{2000}' <= c <= '\U{200A}')
    || c == '\U{2028}' || c == '\U{2029}' || c == '\U{202F}' || c == '\U{205F}' || c == '\U{3000}'
  }

  predicate AllWhiteSpace(s: string) {
    forall i :: 0 <= i < |s| ==> IsWhiteSpace(s[i])
  }

  /** Neither end of `s` is white space. */
  predicate IsTrimmed(s: string) {
    s == [] || (!IsWhiteSpace(s[0]) && !IsWhiteSpace(s[|s| - 1]))
  }

  /** `s` without its leading white space: the longest white-space prefix is dropped. */
  function TrimStart(s: string): (r: string)
    ensures |r| <= |s| && r == s[|s| - |r|..]
    ensures forall i :: 0 <= i < |s| - |r| ==> IsWhiteSpace(s[i])
    ensures r == [] || !IsWhiteSpace(r[0])
  {
    if s != [] && IsWhiteSpace(s[0]) then
      var r := TrimStart(s[1..]);
      assert forall i :: 1 <= i < |s| ==> s[i] == s[1..][i - 1];
      r
    else
      s
  }

  /** `s` without its trailing white space. */
  function TrimEnd(s: string): (r: string)
    ensures |r| <= |s| && r == s[..|r|]
    ensures forall i :: |r| <= i < |s| ==> IsWhiteSpace(s[i])
    ensures r == [] || !IsWhiteSpace(r[|r| - 1])
  {
    if s != [] && IsWhiteSpace(s[|s| - 1]) then
      var r := TrimEnd(s[..|s| - 1]);
      assert forall i :: 0 <= i < |s| - 1 ==> s[i] == s[..|s| - 1][i];
      r
    else
      s
  }

  /** String.Trim: the part of `s` between its leading and its trailing white space. */
  function Trim(s: string): (r: string)
    ensures IsTrimmed(r) && |r| <= |s|
  {
    TrimEnd(TrimStart(s))
  }

  /** Trim cuts a white-space prefix and a white-space suffix off `s`; together
      with IsTrimmed this determines the result uniquely. */
  lemma TrimSpec(s: string)
    ensures exists i, j :: 0 <= i <= j <= |s| && Trim(s) == s[i..j] && AllWhiteSpace(s[..i]) && AllWhiteSpace(s[j..])
  {
    var t := TrimStart(s);
    var r := TrimEnd(t);
    var i := |s| - |t|;
    var j := i + |r|;
    assert r == s[i..j];
    assert AllWhiteSpace(s[..i]) by {
      forall k | 0 <= k < i ensures IsWhiteSpace(s[..i][k]) {
        assert s[..i][k] == s[k];
      }
    }
    assert AllWhiteSpace(s[j..]) by {
      forall k | 0 <= k < |s| - j ensures IsWhiteSpace(s[j..][k]) {
        assert s[j..][k] == t[|r| + k];
      }
    }
  }

  /** `x?.Trim()`: a null element stays null. */
  function TrimNullable(x: Option<string>): Option<string> {
    match x
    case None => None
    case Some(s) => Some(Trim(s))
  }

  /** `xs.Select(x => x?.Trim())`. */
  function TrimAll(xs: seq<Option<string>>): (r: seq<Option<string>>)
    ensures |r| == |xs|
    // null elements stay null, in place; every other element is trimmed
    ensures forall i :: 0 <= i < |xs| ==> (r[i].None? <==> xs[i].None?)
    ensures forall i :: 0 <= i < |xs| && xs[i].Some? ==> r[i] == Some(Trim(xs[i].value))
  {
    seq(|xs|, i requires 0 <= i < |xs| => TrimNullable(xs[i]))
  }

  predicate NoDuplicates<T(==)>(s: seq<T>) {
    forall i, j :: 0 <= i < j < |s| ==> s[i] != s[j]
  }

  /** LINQ Distinct: every value of `s` once, at the place of its first occurrence. */
  function Distinct<T(==,!new)>(s: seq<T>): (r: seq<T>)
    ensures NoDuplicates(r)
    ensures forall x :: x in r <==> x in s
    ensures |r| <= |s|
    decreases |s|
  {
    if s == [] then []
    else
      var d := Distinct(s[..|s| - 1]);
      var last := s[|s| - 1];
      assert s == s[..|s| - 1] + [last];
      if last in d then d else d + [last]
  }

  /** The normalisation applied to a rule's XPaths and to its Patterns:
      trim every element, then drop repeated values. */
  function Normalise(xs: seq<Option<string>>): (r: seq<Option<string>>)
    ensures NoDuplicates(r)
    ensures forall x :: x in r <==> x in TrimAll(xs)
    ensures forall x :: x in r && x.Some? ==> IsTrimmed(x.value)
    ensures |r| == 0 <==> |xs| == 0
  {
    var t := TrimAll(xs);
    assert |xs| > 0 ==> t[0] in t;
    Distinct(t)
  }

  /** Trimming a string that has no white space at either end changes nothing. */
  lemma TrimOfTrimmed(s: string)
    requires IsTrimmed(s)
    ensures Trim(s) == s
  {
  }

  /** Trim is idempotent. */
  lemma TrimIdempotent(s: string)
    ensures Trim(Trim(s)) == Trim(s)
  {
    TrimOfTrimmed(Trim(s));
  }

  /** Distinct leaves a list without repeated values as it is. */
  lemma {:induction false} DistinctOfDistinct<T(!new)>(s: seq<T>)
    requires NoDuplicates(s)
    ensures Distinct(s) == s
    decreases |s|
  {
    if s != [] {
      var p := s[..|s| - 1];
      assert NoDuplicates(p);
      DistinctOfDistinct(p);
      assert s[|s| - 1] !in p;
      assert s == p + [s[|s| - 1]];
    }
  }

  /** Distinct keeps first occurrences in order: the distinct values of a
      prefix come first, in the same order, among those of the whole list. */
  lemma {:induction false} DistinctExtends<T(!new)>(s: seq<T>, t: seq<T>)
    ensures Distinct(s) <= Distinct(s + t)
    decreases |t|
  {
    if t == [] {
      assert s + t == s;
    } else {
      var t' := t[..|t| - 1];
      DistinctExtends(s, t');
      assert (s + t)[..|s + t| - 1] == s + t';
    }
  }

  /** Normalising twice gives the same lists as normalising once. */
  lemma NormaliseIdempotent(xs: seq<Option<string>>)
    ensures Normalise(Normalise(xs)) == Normalise(xs)
  {
    var n := Normalise(xs);
    forall i | 0 <= i < |n| ensures TrimAll(n)[i] == n[i] {
      assert n[i] in n;
      if n[i].Some? {
        TrimOfTrimmed(n[i].value);
      }
    }
    assert TrimAll(n) == n;
    DistinctOfDistinct(n);
  }
}
