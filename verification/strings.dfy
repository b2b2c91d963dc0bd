/**
  The handful of Python `str` operations the flow's decision logic relies on:
  `split(sep)`, `split()` with no argument, `strip()`, `join`, `split(sep, 1)`
  and the code-point ordering used by `sorted()`.
*/
module Strings {
  import opened Wrappers

  /** The characters for which Python's `str.isspace()` holds. */
  const Whitespace: set<char> := {
    ' ', '\t', '\n', '\r', '\U{000B}', '\U{000C}',
    '\U{001C}', '\U{001D}', '\U{001E}', '\U{001F}', '\U{0085}', '\U{00A0}',
    '\U{1680}', '\U{2000}', '\U{2001}', '\U{2002}', '\U{2003}', '\U{2004}',
    '\U{2005}', '\U{2006}', '\U{2007}', '\U{2008}', '\U{2009}', '\U{200A}',
    '\U{2028}', '\U{2029}', '\U{202F}', '\U{205F}', '\U{3000}'
  }

  /** The line boundaries recognised by Python's `str.splitlines()`. */
  const LineBreaks: set<char> := {
    '\n', '\r', '\U{000B}', '\U{000C}', '\U{001C}', '\U{001D}', '\U{001E}',
    '\U{0085}', '\U{2028}', '\U{2029}'
  }

  /** No character of `s` belongs to `chars`. */
  predicate Avoids(s: string, chars: set<char>) {
    forall i :: 0 <= i < |s| ==> s[i] !in chars
  }

  /** How many characters of `s` belong to `chars`. */
  function Count(s: string, chars: set<char>): (n: nat)
    ensures n <= |s|
  {
    if |s| == 0 then 0
    else (if s[0] in chars then 1 else 0) + Count(s[1..], chars)
  }

  /**
    Python's `s.split(sep)` generalised to a set of separator characters: the
    pieces between consecutive separators, empty pieces included.
  */
  function Split(s: string, seps: set<char>): (r: seq<string>)
    ensures |r| == Count(s, seps) + 1
    ensures forall i :: 0 <= i < |r| ==> Avoids(r[i], seps)
    decreases |s|
  {
    if |s| == 0 then [""]
    else
      var rest := Split(s[1..], seps);
      if s[0] in seps then [""] + rest
      else [[s[0]] + rest[0]] + rest[1..]
  }

  /** Python's `sep.join(parts)` for a one-character separator. */
  function Join(parts: seq<string>, sep: char): string {
    if |parts| == 0 then ""
    else if |parts| == 1 then parts[0]
    else parts[0] + [sep] + Join(parts[1..], sep)
  }

  /** Splitting at one character and joining back with it restores the text. */
  lemma {:induction false} JoinSplit(s: string, c: char)
    ensures Join(Split(s, {c}), c) == s
    decreases |s|
  {
    if |s| > 0 {
      JoinSplit(s[1..], c);
      var rest := Split(s[1..], {c});
      if s[0] != c {
        if |rest| > 1 {
          assert Join(rest, c) == rest[0] + [c] + Join(rest[1..], c);
        }
      }
    }
  }

  /** A text free of separators is a single piece. */
  lemma {:induction false} SplitAvoiding(p: string, seps: set<char>)
    requires Avoids(p, seps)
    ensures Split(p, seps) == [p]
    decreases |p|
  {
    if |p| > 0 {
      SplitAvoiding(p[1..], seps);
      assert [p[0]] + p[1..] == p;
    }
  }

  /** A separator-free prefix followed by a separator is the first piece. */
  lemma {:induction false} SplitAfterSeparator(p: string, sep: char, t: string, seps: set<char>)
    requires Avoids(p, seps) && sep in seps
    ensures Split(p + [sep] + t, seps) == [p] + Split(t, seps)
    decreases |p|
  {
    var s := p + [sep] + t;
    if |p| == 0 {
      assert s[1..] == t;
    } else {
      assert s[1..] == p[1..] + [sep] + t;
      SplitAfterSeparator(p[1..], sep, t, seps);
      assert [p[0]] + p[1..] == p;
    }
  }

  /** Joining separator-free pieces and splitting again gives the pieces back. */
  lemma {:induction false} SplitJoin(parts: seq<string>, sep: char, seps: set<char>)
    requires |parts| >= 1 && sep in seps
    requires forall i :: 0 <= i < |parts| ==> Avoids(parts[i], seps)
    ensures Split(Join(parts, sep), seps) == parts
    decreases |parts|
  {
    if |parts| == 1 {
      SplitAvoiding(parts[0], seps);
    } else {
      SplitJoin(parts[1..], sep, seps);
      SplitAfterSeparator(parts[0], sep, Join(parts[1..], sep), seps);
      assert [parts[0]] + parts[1..] == parts;
    }
  }

  /** The non-empty pieces, in order. */
  function NonEmpty(parts: seq<string>): (r: seq<string>)
    ensures forall i :: 0 <= i < |r| ==> r[i] != "" && r[i] in parts
    ensures |r| <= |parts|
  {
    if |parts| == 0 then []
    else (if parts[0] == "" then [] else [parts[0]]) + NonEmpty(parts[1..])
  }

  /** Python's argument-less `s.split()`: the maximal runs of non-whitespace. */
  function Words(s: string): (r: seq<string>)
    ensures forall i :: 0 <= i < |r| ==> r[i] != "" && Avoids(r[i], Whitespace)
  {
    NonEmpty(Split(s, Whitespace))
  }

  lemma {:induction false} NonEmptyKeeps(parts: seq<string>)
    requires forall i :: 0 <= i < |parts| ==> parts[i] != ""
    ensures NonEmpty(parts) == parts
  {
    if |parts| > 0 {
      NonEmptyKeeps(parts[1..]);
      assert [parts[0]] + parts[1..] == parts;
    }
  }

  /** Words joined by single spaces are split back into the same words. */
  lemma WordsJoin(ws: seq<string>)
    requires forall i :: 0 <= i < |ws| ==> ws[i] != "" && Avoids(ws[i], Whitespace)
    ensures Words(Join(ws, ' ')) == ws
  {
    if |ws| > 0 {
      SplitJoin(ws, ' ', Whitespace);
      NonEmptyKeeps(ws);
    }
  }

  /** Pieces free of `chars`, joined by a separator outside `chars`, give a text free of `chars`. */
  lemma {:induction false} JoinAvoids(parts: seq<string>, sep: char, chars: set<char>)
    requires sep !in chars
    requires forall i :: 0 <= i < |parts| ==> Avoids(parts[i], chars)
    ensures Avoids(Join(parts, sep), chars)
  {
    if |parts| > 1 {
      JoinAvoids(parts[1..], sep, chars);
    }
  }

  /** Every piece of a split is empty exactly when the text consists of separators only. */
  lemma {:induction false} SplitAllEmpty(s: string, seps: set<char>)
    ensures (forall i :: 0 <= i < |Split(s, seps)| ==> Split(s, seps)[i] == "")
      <==> (forall k :: 0 <= k < |s| ==> s[k] in seps)
    decreases |s|
  {
    if |s| > 0 {
      SplitAllEmpty(s[1..], seps);
      var rest := Split(s[1..], seps);
      var r := Split(s, seps);
      if s[0] in seps {
        assert r == [""] + rest;
        assert forall i :: 0 <= i < |rest| ==> rest[i] == r[i + 1];
        assert (forall k :: 0 <= k < |s| ==> s[k] in seps) <==> (forall k :: 0 <= k < |s[1..]| ==> s[1..][k] in seps);
      } else {
        assert Split(s, seps)[0] != "";
      }
    }
  }

  lemma {:induction false} NonEmptyNone(parts: seq<string>)
    ensures NonEmpty(parts) == [] <==> forall i :: 0 <= i < |parts| ==> parts[i] == ""
  {
    if |parts| > 0 {
      NonEmptyNone(parts[1..]);
      assert forall i :: 0 < i < |parts| ==> parts[i] == parts[1..][i - 1];
    }
  }

  /** Stripping leaves nothing exactly when every character is stripped. */
  lemma StripCharsEmpty(s: string, chars: set<char>)
    ensures StripChars(s, chars) == "" <==> forall k :: 0 <= k < |s| ==> s[k] in chars
  {
    var l := StripLeft(s, chars);
    if l != "" {
      assert s[|s| - |l|] == l[0];
    }
  }

  /** `s.strip()` is empty exactly when `s.split()` has no words: both mean `s` is all whitespace. */
  lemma BlankIffNoWords(s: string)
    ensures Strip(s) == "" <==> Words(s) == []
  {
    StrippedIffNoPieces(s, Whitespace);
  }

  lemma StrippedIffNoPieces(s: string, chars: set<char>)
    ensures StripChars(s, chars) == "" <==> NonEmpty(Split(s, chars)) == []
  {
    StripCharsEmpty(s, chars);
    SplitAllEmpty(s, chars);
    NonEmptyNone(Split(s, chars));
  }

  /** `s` with the leading characters that belong to `chars` removed. */
  function StripLeft(s: string, chars: set<char>): (r: string)
    ensures |r| <= |s| && r == s[|s| - |r|..]
    ensures forall k :: 0 <= k < |s| - |r| ==> s[k] in chars
    ensures r == "" || r[0] !in chars
  {
    if |s| == 0 || s[0] !in chars then s else StripLeft(s[1..], chars)
  }

  /** `s` with the trailing characters that belong to `chars` removed. */
  function StripRight(s: string, chars: set<char>): (r: string)
    ensures |r| <= |s| && r == s[..|r|]
    ensures forall k :: |r| <= k < |s| ==> s[k] in chars
    ensures r == "" || r[|r| - 1] !in chars
  {
    if |s| == 0 || s[|s| - 1] !in chars then s else StripRight(s[..|s| - 1], chars)
  }

  /** Python's `s.strip(chars)`. */
  function StripChars(s: string, chars: set<char>): (r: string)
    ensures |r| <= |s|
    ensures r == "" || (r[0] !in chars && r[|r| - 1] !in chars)
  {
    StripRight(StripLeft(s, chars), chars)
  }

  /** Python's argument-less `s.strip()`. */
  function Strip(s: string): string {
    StripChars(s, Whitespace)
  }

  /** Python's `s.startswith(prefix)`. */
  predicate StartsWith(s: string, prefix: string) {
    |prefix| <= |s| && s[..|prefix|] == prefix
  }

  /** Python's `sub in s`. */
  predicate Contains(s: string, sub: string) {
    exists i :: 0 <= i <= |s| && StartsWith(s[i..], sub)
  }

  /** A string that neither starts nor ends in whitespace strips to itself. */
  lemma StrippedIsFixed(t: string)
    requires t == "" || (t[0] !in Whitespace && t[|t| - 1] !in Whitespace)
    ensures Strip(t) == t
  {
    assert StripLeft(t, Whitespace) == t;
  }

  /** Stripping twice strips no more than stripping once. */
  lemma StripIdempotent(s: string)
    ensures Strip(Strip(s)) == Strip(s)
  {
    StrippedIsFixed(Strip(s));
  }

  /**
    Python's `s.split(sep, 1)`: the text before and after the first `sep`, or
    None when `sep` does not occur (the case in which unpacking the result
    into two names raises ValueError).
  */
  function SplitOnce(s: string, sep: char): (r: Option<(string, string)>)
    ensures r.None? <==> sep !in s
    ensures r.Some? ==> sep !in r.value.0 && s == r.value.0 + [sep] + r.value.1
  {
    if |s| == 0 then None
    else if s[0] == sep then Some(("", s[1..]))
    else
      match SplitOnce(s[1..], sep)
      case None => None
      case Some(kv) => Some(([s[0]] + kv.0, kv.1))
  }

  /** Splitting `k + sep + v` once recovers `k` and `v` whenever `k` has no `sep`. */
  lemma {:induction false} SplitOnceJoin(k: string, sep: char, v: string)
    requires sep !in k
    ensures SplitOnce(k + [sep] + v, sep) == Some((k, v))
    decreases |k|
  {
    var s := k + [sep] + v;
    if |k| == 0 {
      assert s[1..] == v;
    } else {
      assert s[1..] == k[1..] + [sep] + v;
      SplitOnceJoin(k[1..], sep, v);
      assert [k[0]] + k[1..] == k;
    }
  }

  /** Python's `a <= b` on strings: lexicographic by code point. */
  predicate Below(a: string, b: string) {
    |a| == 0 || (|b| > 0 && (a[0] < b[0] || (a[0] == b[0] && Below(a[1..], b[1..]))))
  }

  lemma BelowReflexive(a: string)
    ensures Below(a, a)
  {
  }

  lemma BelowAntisymmetric(a: string, b: string)
    requires Below(a, b) && Below(b, a)
    ensures a == b
  {
    if |a| > 0 && |b| > 0 {
      BelowAntisymmetric(a[1..], b[1..]);
      assert a == [a[0]] + a[1..] && b == [b[0]] + b[1..];
    }
  }

  lemma BelowTransitive(a: string, b: string, c: string)
    requires Below(a, b) && Below(b, c)
    ensures Below(a, c)
  {
    if |a| > 0 && |b| > 0 && |c| > 0 && a[0] == b[0] == c[0] {
      BelowTransitive(a[1..], b[1..], c[1..]);
    }
  }

  lemma BelowTotal(a: string, b: string)
    ensures Below(a, b) || Below(b, a)
  {
    if |a| > 0 && |b| > 0 && a[0] == b[0] {
      BelowTotal(a[1..], b[1..]);
    }
  }

  /** `m` is the smallest string of `s`. */
  predicate IsLeast(m: string, s: set<string>) {
    m in s && forall k :: k in s ==> Below(m, k)
  }

  lemma {:induction false} LeastExists(s: set<string>)
    requires s != {}
    ensures exists m :: IsLeast(m, s)
    decreases |s|
  {
    var x :| x in s;
    BelowReflexive(x);
    if s == {x} {
      assert IsLeast(x, s);
    } else {
      var rest := s - {x};
      LeastExists(rest);
      var m :| IsLeast(m, rest);
      BelowTotal(m, x);
      if Below(m, x) {
        assert IsLeast(m, s);
      } else {
        forall k | k in s
          ensures Below(x, k)
        {
          if k != x {
            BelowTransitive(x, m, k);
          }
        }
        assert IsLeast(x, s);
      }
    }
  }

  lemma LeastUnique(s: set<string>)
    ensures forall a, b :: IsLeast(a, s) && IsLeast(b, s) ==> a == b
  {
    forall a, b | IsLeast(a, s) && IsLeast(b, s)
      ensures a == b
    {
      BelowAntisymmetric(a, b);
    }
  }

  /** Python's `sorted(keys)`: the strings of `s` in ascending order. */
  function SortedKeys(s: set<string>): (r: seq<string>)
    ensures |r| == |s|
    ensures forall k :: k in s <==> k in r
    ensures forall i, j :: 0 <= i < j < |r| ==> Below(r[i], r[j]) && r[i] != r[j]
    decreases |s|
  {
    if s == {} then []
    else
      LeastExists(s);
      LeastUnique(s);
      var m :| m in s && IsLeast(m, s);
      var rest := SortedKeys(s - {m});
      LeastFirst(m, s, rest);
      [m] + rest
  }

  /** The least string put before the others, in ascending order, gives all of them in ascending order. */
  lemma LeastFirst(m: string, s: set<string>, rest: seq<string>)
    requires IsLeast(m, s)
    requires |rest| == |s - {m}|
    requires forall k :: k in s - {m} <==> k in rest
    requires forall i, j :: 0 <= i < j < |rest| ==> Below(rest[i], rest[j]) && rest[i] != rest[j]
    ensures |[m] + rest| == |s|
    ensures forall k :: k in s <==> k in [m] + rest
    ensures forall i, j :: 0 <= i < j < |[m] + rest| ==> Below(([m] + rest)[i], ([m] + rest)[j]) && ([m] + rest)[i] != ([m] + rest)[j]
  {
    var r := [m] + rest;
    forall i, j | 0 <= i < j < |r|
      ensures Below(r[i], r[j]) && r[i] != r[j]
    {
      if i == 0 {
        assert r[j] == rest[j - 1] && r[j] in s - {m};
      } else {
        assert r[i] == rest[i - 1] && r[j] == rest[j - 1];
      }
    }
  }
}
