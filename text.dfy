/** String routines with the meaning Python gives them: `str.startswith`,
    `in` on strings, `str.strip(chars)`, `str.split(sep)` and `sep.join(parts)`. */
module Text {

  /** `s.startswith(prefix)` */
  predicate StartsWith(s: string, prefix: string) {
    |prefix| <= |s| && s[..|prefix|] == prefix
  }

  /** `s` differs from `p` at position `k`, so `p` is not a prefix of `s`. */
  lemma DiffersAt(s: string, p: string, k: nat)
    requires k < |p| && k < |s| && s[k] != p[k]
    ensures !StartsWith(s, p)
  {
  }

  /** `sub in s`: `sub` occurs in `s` at some position (the empty string occurs everywhere). */
  predicate Contains(s: string, sub: string)
    decreases |s|
  {
    StartsWith(s, sub) || (s != [] && Contains(s[1..], sub))
  }

  lemma {:induction false} ContainsAt(s: string, sub: string, i: nat)
    requires i + |sub| <= |s| && s[i..i + |sub|] == sub
    ensures Contains(s, sub)
    decreases i
  {
    if i > 0 {
      assert s[1..][i - 1..i - 1 + |sub|] == sub;
      ContainsAt(s[1..], sub, i - 1);
    }
  }

  /** The leading characters of `s` that are in `drop` are removed. */
  function TrimStart(s: string, drop: set<char>): (r: string)
    ensures |r| <= |s| && r == s[|s| - |r|..]
    ensures r != [] ==> r[0] !in drop
    ensures forall i | 0 <= i < |s| - |r| :: s[i] in drop
  {
    if s != [] && s[0] in drop then TrimStart(s[1..], drop) else s
  }

  /** The trailing characters of `s` that are in `drop` are removed. */
  function TrimEnd(s: string, drop: set<char>): (r: string)
    ensures |r| <= |s| && r == s[..|r|]
    ensures r != [] ==> r[|r| - 1] !in drop
    ensures forall i | |r| <= i < |s| :: s[i] in drop
  {
    if s != [] && s[|s| - 1] in drop then TrimEnd(s[..|s| - 1], drop) else s
  }

  /** `s.strip(chars)`, with `chars` given as the set `drop`: the slice of `s`
      that neither begins nor ends with a character of `drop`, everything
      around it being made of such characters. */
  function Strip(s: string, drop: set<char>): (r: string)
    ensures r != [] ==> r[0] !in drop && r[|r| - 1] !in drop
    ensures var a := |s| - |TrimStart(s, drop)|;
      && a + |r| <= |s| && r == s[a..a + |r|]
      && (forall k | 0 <= k < a :: s[k] in drop)
      && (forall k | a + |r| <= k < |s| :: s[k] in drop)
  {
    TrimEnd(TrimStart(s, drop), drop)
  }

  /** The characters for which Python's `str.isspace()` holds; `str.strip()`
      with no argument removes exactly these. */
  const WHITESPACE: set<char> := {
    '\t', '\n', '\U{B}', '\U{C}', '\r', '\U{1C}', '\U{1D}', '\U{1E}', '\U{1F}', ' ',
    '\U{85}', '\U{A0}', '\U{1680}', '\U{2000}', '\U{2001}', '\U{2002}', '\U{2003}',
    '\U{2004}', '\U{2005}', '\U{2006}', '\U{2007}', '\U{2008}', '\U{2009}', '\U{200A}',
    '\U{2028}', '\U{2029}', '\U{202F}', '\U{205F}', '\U{3000}'
  }

  /** Stripping a string that neither starts nor ends with a character of `drop` changes nothing. */
  lemma StripClean(s: string, drop: set<char>)
    requires s != [] ==> s[0] !in drop && s[|s| - 1] !in drop
    ensures Strip(s, drop) == s
  {
  }

  /** `s.split(sep)`: the pieces between occurrences of `sep`, always at least one. */
  function Split(s: string, sep: char): (parts: seq<string>)
    ensures |parts| >= 1
    ensures forall i | 0 <= i < |parts| :: sep !in parts[i]
  {
    if s == [] then [[]]
    else
      var rest := Split(s[1..], sep);
      if s[0] == sep then [[]] + rest
      else [[s[0]] + rest[0]] + rest[1..]
  }

  /** `sep.join(parts)` */
  function Join(parts: seq<string>, sep: char): string {
    if |parts| == 0 then []
    else if |parts| == 1 then parts[0]
    else parts[0] + [sep] + Join(parts[1..], sep)
  }

  /** The pieces that are not empty, in order: `[p for p in parts if p]`. */
  function NonEmpty(parts: seq<string>): (r: seq<string>)
    ensures |r| <= |parts|
    ensures forall i | 0 <= i < |r| :: r[i] != [] && r[i] in parts
    ensures forall p | p in parts && p != [] :: p in r
  {
    if parts == [] then []
    else if parts[0] == [] then NonEmpty(parts[1..])
    else [parts[0]] + NonEmpty(parts[1..])
  }

  /** The filter works piece by piece: it keeps the order and every non-empty
      piece as often as it occurs. With `NonEmptyOne` this fixes `NonEmpty`
      on every list. */
  lemma {:induction false} NonEmptyAppend(a: seq<string>, b: seq<string>)
    ensures NonEmpty(a + b) == NonEmpty(a) + NonEmpty(b)
  {
    if a != [] {
      assert (a + b)[1..] == a[1..] + b;
      NonEmptyAppend(a[1..], b);
    } else {
      assert a + b == b;
    }
  }

  lemma NonEmptyOne(p: string)
    ensures NonEmpty([p]) == if p == [] then [] else [p]
  {
  }

  /** Already non-empty pieces pass the filter unchanged. */
  lemma {:induction false} NonEmptyKeepsClean(parts: seq<string>)
    requires forall i | 0 <= i < |parts| :: parts[i] != []
    ensures NonEmpty(parts) == parts
  {
    if parts != [] {
      NonEmptyKeepsClean(parts[1..]);
      assert [parts[0]] + parts[1..] == parts;
    }
  }

  /** Every piece is free of the separator. */
  predicate SepFree(parts: seq<string>, sep: char) {
    forall i | 0 <= i < |parts| :: sep !in parts[i]
  }

  /** Splitting a string that begins with a separator-free piece `a`. */
  lemma {:induction false} SplitAfterPiece(a: string, t: string, sep: char)
    requires sep !in a
    ensures Split(a + t, sep) == [a + Split(t, sep)[0]] + Split(t, sep)[1..]
  {
    if a != [] {
      assert (a + t)[1..] == a[1..] + t;
      SplitAfterPiece(a[1..], t, sep);
      assert [a[0]] + (a[1..] + Split(t, sep)[0]) == a + Split(t, sep)[0];
    } else {
      assert a + t == t;
      var parts := Split(t, sep);
      assert parts == [parts[0]] + parts[1..];
      assert a + parts[0] == parts[0];
    }
  }

  /** Round trip: splitting what was joined gives back the pieces. */
  lemma {:induction false} SplitJoin(parts: seq<string>, sep: char)
    requires |parts| >= 1 && SepFree(parts, sep)
    ensures Split(Join(parts, sep), sep) == parts
  {
    if |parts| == 1 {
      SplitAfterPiece(parts[0], [], sep);
      assert parts[0] + [] == parts[0];
    } else {
      var rest := Join(parts[1..], sep);
      SplitJoin(parts[1..], sep);
      assert parts[0] + [sep] + rest == parts[0] + ([sep] + rest);
      SplitAfterPiece(parts[0], [sep] + rest, sep);
      assert ([sep] + rest)[1..] == rest;
      assert parts[0] + [] == parts[0];
    }
  }

  /** Round trip the other way: joining the pieces of a split gives back the string. */
  lemma {:induction false} JoinSplit(s: string, sep: char)
    ensures Join(Split(s, sep), sep) == s
  {
    if s != [] {
      JoinSplit(s[1..], sep);
      var rest := Split(s[1..], sep);
      if s[0] == sep {
        assert ([[]] + rest)[1..] == rest;
      } else {
        var parts := [[s[0]] + rest[0]] + rest[1..];
        assert parts[1..] == rest[1..];
        if |rest| > 1 {
          assert Join(rest, sep) == rest[0] + [sep] + Join(rest[1..], sep);
        }
      }
    }
  }

  /** A trailing separator adds one empty piece at the end. */
  lemma {:induction false} SplitTrailingSep(s: string, sep: char)
    ensures Split(s + [sep], sep) == Split(s, sep) + [[]]
  {
    if s != [] {
      assert (s + [sep])[1..] == s[1..] + [sep];
      SplitTrailingSep(s[1..], sep);
    }
  }

  /** Separators stripped from either end of `s` only remove empty pieces, so
      the non-empty pieces are those of `s` itself. */
  lemma {:induction false} StripKeepsPieces(s: string, sep: char)
    ensures NonEmpty(Split(Strip(s, {sep}), sep)) == NonEmpty(Split(s, sep))
  {
    TrimStartKeepsPieces(s, sep);
    TrimEndKeepsPieces(TrimStart(s, {sep}), sep);
  }

  lemma {:induction false} TrimStartKeepsPieces(s: string, sep: char)
    ensures NonEmpty(Split(TrimStart(s, {sep}), sep)) == NonEmpty(Split(s, sep))
  {
    if s != [] && s[0] == sep {
      TrimStartKeepsPieces(s[1..], sep);
      assert ([[]] + Split(s[1..], sep))[1..] == Split(s[1..], sep);
    }
  }

  lemma {:induction false} TrimEndKeepsPieces(s: string, sep: char)
    ensures NonEmpty(Split(TrimEnd(s, {sep}), sep)) == NonEmpty(Split(s, sep))
  {
    if s != [] && s[|s| - 1] == sep {
      var init := s[..|s| - 1];
      TrimEndKeepsPieces(init, sep);
      assert s == init + [sep];
      SplitTrailingSep(init, sep);
      NonEmptyAppend(Split(init, sep), [[]]);
      assert NonEmpty(Split(init, sep)) + [] == NonEmpty(Split(init, sep));
    }
  }

  /** A string lacking some character of `sub` does not contain `sub`. */
  lemma {:induction false} MissingCharNotContained(s: string, sub: string, k: nat)
    requires k < |sub| && sub[k] !in s
    ensures !Contains(s, sub)
    decreases |s|
  {
    if s != [] {
      assert forall c | c in s[1..] :: c in s;
      MissingCharNotContained(s[1..], sub, k);
    }
  }

  /** Joining non-empty, separator-free pieces never puts a separator at either
      end or two separators side by side. */
  lemma {:induction false} JoinClean(parts: seq<string>, sep: char)
    requires SepFree(parts, sep)
    requires forall i | 0 <= i < |parts| :: parts[i] != []
    ensures var r := Join(parts, sep);
      && (r != [] ==> r[0] != sep && r[|r| - 1] != sep)
      && (forall i | 0 <= i < |r| - 1 :: r[i] == sep ==> r[i + 1] != sep)
      && (|parts| >= 1 ==> r != [])
  {
    if |parts| > 1 {
      JoinClean(parts[1..], sep);
      var a, rest := parts[0], Join(parts[1..], sep);
      var r := a + [sep] + rest;
      assert a[0] != sep by { assert a[0] in a; }
      assert a[|a| - 1] != sep by { assert a[|a| - 1] in a; }
      forall i | 0 <= i < |r| - 1
        ensures r[i] == sep ==> r[i + 1] != sep
      {
        if i < |a| {
          assert r[i] == a[i] && a[i] in a;
        } else if i > |a| {
          assert r[i] == rest[i - |a| - 1] && r[i + 1] == rest[i - |a|];
        }
      }
    } else if |parts| == 1 {
      var a := parts[0];
      assert a[0] in a && a[|a| - 1] in a;
      assert forall i | 0 <= i < |a| :: a[i] in a;
    }
  }
}
