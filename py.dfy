/** The pieces of Python's builtins the scraper relies on: `str.isdigit`,
    `str.isspace`, `str.strip`, `str.split` with a one-character separator,
    the `in` test for substrings and list comprehensions with a filter. */
module Py {

  datatype Option<+T> = None | Some(value: T)

  /** `str.isdigit` and the regex class `\d`, restricted to the ASCII digits. */
  predicate IsDigit(c: char) {
    '0' <= c <= '9'
  }

  /** `str.isspace`: exactly the characters `str.strip()` removes. */
  predicate IsSpace(c: char) {
    || c == ' '
    || '\t' <= c <= '\r'
    || '\U{1c}' <= c <= '\U{1f}'
    || c == '\U{85}' || c == '\U{a0}' || c == '\U{1680}'
    || '\U{2000}' <= c <= '\U{200a}'
    || c == '\U{2028}' || c == '\U{2029}' || c == '\U{202f}' || c == '\U{205f}'
    || c == '\U{3000}'
  }

  predicate AllDigits(s: string) {
    forall i :: 0 <= i < |s| ==> IsDigit(s[i])
  }

  /** `"".join(filter(str.isdigit, s))`: the digits of `s`, in order. */
  function KeepDigits(s: string): (r: string)
    ensures AllDigits(r)
    ensures |r| <= |s|
    ensures AllDigits(s) ==> r == s
  {
    if s == [] then []
    else if IsDigit(s[0]) then [s[0]] + KeepDigits(s[1..]) else KeepDigits(s[1..])
  }

  /** No digit is lost or invented: each digit occurs in `KeepDigits(s)` as
      often as in `s`, and nothing else occurs in it. */
  lemma {:induction false} KeepDigitsCounts(s: string)
    ensures forall c :: IsDigit(c) ==> multiset(KeepDigits(s))[c] == multiset(s)[c]
    ensures forall c :: !IsDigit(c) ==> multiset(KeepDigits(s))[c] == 0
  {
    if s != [] {
      KeepDigitsCounts(s[1..]);
      assert s == [s[0]] + s[1..];
      assert multiset(s) == multiset{s[0]} + multiset(s[1..]);
    }
  }

  /** `KeepDigits` distributes over concatenation, so the digits of a text
      can be collected piece by piece. */
  lemma {:induction false} KeepDigitsAppend(a: string, b: string)
    ensures KeepDigits(a + b) == KeepDigits(a) + KeepDigits(b)
    decreases |a|
  {
    if a == [] {
      assert a + b == b;
    } else {
      var ab := a + b;
      assert ab != [] && ab[0] == a[0] && ab[1..] == a[1..] + b;
      KeepDigitsAppend(a[1..], b);
      var rest := KeepDigits(a[1..]) + KeepDigits(b);
      assert KeepDigits(ab[1..]) == rest;
      if IsDigit(a[0]) {
        assert KeepDigits(ab) == [a[0]] + rest;
        assert KeepDigits(a) == [a[0]] + KeepDigits(a[1..]);
        assert [a[0]] + rest == ([a[0]] + KeepDigits(a[1..])) + KeepDigits(b);
      } else {
        assert KeepDigits(ab) == rest;
        assert KeepDigits(a) == KeepDigits(a[1..]);
      }
    }
  }

  /** Position `k` of `s` holds whitespace. */
  predicate SpaceAt(s: string, k: int) {
    0 <= k < |s| && IsSpace(s[k])
  }

  /** Where `str.strip()` starts keeping characters: the first position from
      `i` on that does not hold whitespace. */
  function SkipSpace(s: string, i: nat): (lo: nat)
    requires i <= |s|
    ensures i <= lo <= |s|
    ensures forall k :: i <= k < lo ==> SpaceAt(s, k)
    ensures lo < |s| ==> !IsSpace(s[lo])
    decreases |s| - i
  {
    if i < |s| && IsSpace(s[i]) then SkipSpace(s, i + 1) else i
  }

  /** Where `str.strip()` stops keeping characters: going down from `j`, the
      first position whose predecessor does not hold whitespace, and no lower
      than `lo`. */
  function SkipSpaceBack(s: string, lo: nat, j: nat): (hi: nat)
    requires lo <= j <= |s|
    ensures lo <= hi <= j
    ensures forall k :: hi <= k < j ==> SpaceAt(s, k)
    ensures hi > lo ==> !IsSpace(s[hi - 1])
    decreases j
  {
    if j > lo && IsSpace(s[j - 1]) then SkipSpaceBack(s, lo, j - 1) else j
  }

  /** `r` is `s[i:i + len(r)]` and everything around it is whitespace. */
  predicate StrippedAt(s: string, r: string, i: int) {
    && 0 <= i <= |s| - |r| && r == s[i..i + |r|]
    && (forall k :: 0 <= k < i ==> SpaceAt(s, k))
    && (forall k :: i + |r| <= k < |s| ==> SpaceAt(s, k))
  }

  /** `str.strip()` */
  function Strip(s: string): string {
    var lo := SkipSpace(s, 0);
    s[lo..SkipSpaceBack(s, lo, |s|)]
  }

  /** What `str.strip()` leaves: the part of `s` left after removing
      whitespace from both ends; what was removed is whitespace and what is
      left neither starts nor ends with it. */
  lemma StripSpec(s: string)
    ensures var r := Strip(s);
      && (r != [] ==> !IsSpace(r[0]) && !IsSpace(r[|r| - 1]))
      && exists i :: StrippedAt(s, r, i)
  {
    var lo := SkipSpace(s, 0);
    var hi := SkipSpaceBack(s, lo, |s|);
    assert StrippedAt(s, s[lo..hi], lo);
  }

  /** A text with no whitespace at either end is left as it is. */
  lemma StripUnchanged(s: string)
    requires s == [] || (!IsSpace(s[0]) && !IsSpace(s[|s| - 1]))
    ensures Strip(s) == s
  {
    assert SkipSpace(s, 0) == 0;
    assert SkipSpaceBack(s, 0, |s|) == |s|;
    assert s[0..|s|] == s;
  }

  /** Stripping twice is stripping once. */
  lemma StripIdempotent(s: string)
    ensures Strip(Strip(s)) == Strip(s)
  {
    StripUnchanged(Strip(s));
  }

  /** `sep.join(parts)` for a one-character separator. */
  function Join(parts: seq<string>, sep: char): string {
    if parts == [] then ""
    else if |parts| == 1 then parts[0]
    else parts[0] + [sep] + Join(parts[1..], sep)
  }

  /** `s.split(sep)` for a one-character separator. */
  function Split(s: string, sep: char): (parts: seq<string>)
    ensures |parts| >= 1
  {
    if s == [] then [""]
    else
      var rest := Split(s[1..], sep);
      if s[0] == sep then [""] + rest
      else [[s[0]] + rest[0]] + rest[1..]
  }

  /** No part of `s.split(sep)` holds the separator, and joining the parts
      gives `s` back. */
  lemma {:induction false} SplitJoin(s: string, sep: char)
    ensures var parts := Split(s, sep);
      && (forall k :: 0 <= k < |parts| ==> sep !in parts[k])
      && Join(parts, sep) == s
  {
    if s != [] {
      var rest := Split(s[1..], sep);
      SplitJoin(s[1..], sep);
      var parts := Split(s, sep);
      assert s == [s[0]] + s[1..];
      if s[0] == sep {
        assert parts[1..] == rest;
      } else {
        assert parts[1..] == rest[1..];
        assert |rest| > 1 ==> Join(rest, sep) == rest[0] + [sep] + Join(rest[1..], sep);
      }
    }
  }

  /** A text without the separator is not split. */
  lemma {:induction false} SplitNoSep(s: string, sep: char)
    requires sep !in s
    ensures Split(s, sep) == [s]
  {
    if s != [] {
      assert s[0] != sep;
      SplitNoSep(s[1..], sep);
      assert [s[0]] + s[1..] == s;
    }
  }

  /** Splitting at a first separator: the part before it, then the parts of
      what follows. */
  lemma {:induction false} SplitAtFirst(a: string, b: string, sep: char)
    requires sep !in a
    ensures Split(a + [sep] + b, sep) == [a] + Split(b, sep)
  {
    var s := a + [sep] + b;
    if a == [] {
      assert s[0] == sep && s[1..] == b;
    } else {
      assert s[0] == a[0] && s[1..] == a[1..] + [sep] + b;
      SplitAtFirst(a[1..], b, sep);
      assert [a[0]] + a[1..] == a;
    }
  }

  /** The text `sep.join(parts)` starts with the first two parts and the
      separator between them. */
  lemma JoinFirstTwo(parts: seq<string>, sep: char)
    requires |parts| >= 2
    ensures var n := |parts[0]| + 1 + |parts[1]|;
      && n <= |Join(parts, sep)| && Join(parts, sep)[..n] == parts[0] + [sep] + parts[1]
      && (n == |Join(parts, sep)| || Join(parts, sep)[n] == sep)
  {
    var tail := Join(parts[1..], sep);
    assert Join(parts, sep) == parts[0] + [sep] + tail;
    if |parts| == 2 {
      assert tail == parts[1];
    } else {
      assert tail == parts[1] + [sep] + Join(parts[2..], sep);
    }
  }

  /** The first two parts of `s.split(sep)`, read back from `s`: the first part
      is `s` up to its first separator, the second runs to the next one or to
      the end. */
  lemma SplitFirstTwo(s: string, sep: char)
    ensures var parts := Split(s, sep);
      && (sep !in s ==> parts == [s])
      && (sep in s ==>
            && |parts| >= 2 && |parts[0]| + 1 + |parts[1]| <= |s|
            && s[..|parts[0]| + 1 + |parts[1]|] == parts[0] + [sep] + parts[1]
            && (|parts[0]| + 1 + |parts[1]| == |s| || s[|parts[0]| + 1 + |parts[1]|] == sep))
  {
    var parts := Split(s, sep);
    SplitJoin(s, sep);
    if |parts| == 1 {
      assert Join(parts, sep) == parts[0];
      assert parts == [s];
      assert sep !in s by {
        assert sep !in parts[0];
      }
    } else {
      JoinFirstTwo(parts, sep);
      assert s[|parts[0]|] == sep;
    }
  }

  /** Python's `sub in s` for strings. */
  predicate Contains(s: string, sub: string) {
    exists i :: 0 <= i <= |s| - |sub| && OccursAt(s, sub, i)
  }

  predicate OccursAt(s: string, sub: string, i: int) {
    0 <= i <= |s| - |sub| && s[i..i + |sub|] == sub
  }

  /** `s[:n]`: Python slices clamp instead of failing. */
  function Prefix(s: string, n: nat): (r: string)
    ensures |r| == if |s| < n then |s| else n
    ensures r == s[..|r|]
  {
    if |s| <= n then s else s[..n]
  }

  /** The indices `lo <= j < hi` of the elements of `s` that `keep` accepts,
      in increasing order: the index form of
      `[x for x in s[lo:hi] if keep(x)]`. */
  function SelectIndices<T>(s: seq<T>, keep: T -> bool, lo: nat, hi: nat): (ks: seq<nat>)
    requires lo <= hi <= |s|
    ensures forall k :: 0 <= k < |ks| ==> lo <= ks[k] < hi && keep(s[ks[k]])
    ensures forall k, l :: 0 <= k < l < |ks| ==> ks[k] < ks[l]
    ensures forall j :: lo <= j < hi && keep(s[j]) ==> j in ks
    decreases hi - lo
  {
    if lo == hi then []
    else
      var front := SelectIndices(s, keep, lo, hi - 1);
      if keep(s[hi - 1]) then front + [hi - 1] else front
  }
}
