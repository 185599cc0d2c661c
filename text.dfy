/** The JavaScript string operations the core relies on, over `seq<char>`:
    `startsWith`, `endsWith`, `includes`, `indexOf`, `split` on one character,
    `trim` and `replace` with a string pattern. */
module Text {
  import opened Wrappers

  predicate StartsWith(s: string, prefix: string) {
    |prefix| <= |s| && s[..|prefix|] == prefix
  }

  predicate EndsWith(s: string, suffix: string) {
    |suffix| <= |s| && s[|s| - |suffix|..] == suffix
  }

  /** `s.indexOf(t)`: the first position at which `t` occurs in `s`, or `None` for -1. */
  function IndexOf(s: string, t: string): (r: Option<nat>)
    ensures r.Some? ==> r.value + |t| <= |s| && StartsWith(s[r.value..], t)
    ensures r.Some? ==> forall j :: 0 <= j < r.value ==> !StartsWith(s[j..], t)
    ensures r.None? ==> forall j :: 0 <= j <= |s| ==> !StartsWith(s[j..], t)
    decreases |s|
  {
    if StartsWith(s, t) then Some(0)
    else if s == [] then None
    else
      match IndexOf(s[1..], t)
      case None =>
        assert forall j :: 1 <= j <= |s| ==> s[j..] == s[1..][j - 1..];
        None
      case Some(i) =>
        assert forall j :: 1 <= j <= i + 1 ==> s[j..] == s[1..][j - 1..];
        Some(i + 1)
  }

  /** `s.includes(t)`. */
  predicate Contains(s: string, t: string) {
    IndexOf(s, t).Some?
  }

  /** `includes` holds exactly when `t` occurs at some position of `s`. */
  lemma ContainsIff(s: string, t: string)
    ensures Contains(s, t) <==> exists i :: 0 <= i <= |s| && StartsWith(s[i..], t)
  {
    if Contains(s, t) {
      var i := IndexOf(s, t).value;
      assert StartsWith(s[i..], t);
    }
  }

  /** An occurrence of `t` inside `a` is still one inside `a + b`. */
  lemma {:induction false} ContainsInPrefix(a: string, b: string, t: string)
    requires Contains(a, t)
    ensures Contains(a + b, t)
  {
    var i := IndexOf(a, t).value;
    assert (a + b)[i..][..|t|] == a[i..][..|t|];
    ContainsIff(a + b, t);
  }

  /** An occurrence of `t` inside `b` is still one inside `a + b`. */
  lemma {:induction false} ContainsInSuffix(a: string, b: string, t: string)
    requires Contains(b, t)
    ensures Contains(a + b, t)
  {
    var i := IndexOf(b, t).value;
    assert (a + b)[|a| + i..] == b[i..];
    ContainsIff(a + b, t);
  }

  /** A string none of whose characters is `c` cannot contain a pattern holding `c`. */
  lemma {:induction false} NotContainsWithout(s: string, t: string, c: char)
    requires c in t && c !in s
    ensures !Contains(s, t)
  {
    var k :| 0 <= k < |t| && t[k] == c;
    forall i | 0 <= i <= |s|
      ensures !StartsWith(s[i..], t)
    {
      if i + |t| <= |s| {
        assert s[i..][..|t|][k] == s[i + k];
      }
    }
    ContainsIff(s, t);
  }

  /** `parts.join(sep)` for a one-character separator. */
  function Join(parts: seq<string>, sep: char): string
  {
    if parts == [] then ""
    else if |parts| == 1 then parts[0]
    else parts[0] + [sep] + Join(parts[1..], sep)
  }

  /** A pattern occurring in one of the parts occurs in their join. */
  lemma {:induction false} ContainsInJoin(parts: seq<string>, sep: char, k: nat, t: string)
    requires k < |parts| && Contains(parts[k], t)
    ensures Contains(Join(parts, sep), t)
  {
    if |parts| > 1 {
      var rest := Join(parts[1..], sep);
      assert Join(parts, sep) == parts[0] + ([sep] + rest) == (parts[0] + [sep]) + rest;
      if k == 0 {
        ContainsInPrefix(parts[0], [sep] + rest, t);
      } else {
        ContainsInJoin(parts[1..], sep, k - 1, t);
        ContainsInSuffix(parts[0] + [sep], rest, t);
      }
    }
  }

  /** `s.split(sep)` for a one-character separator: the empty string gives `[""]`
      and a trailing separator gives a trailing empty piece. */
  function Split(s: string, sep: char): (r: seq<string>)
    ensures |r| >= 1
  {
    if s == [] then [""]
    else
      var rest := Split(s[1..], sep);
      if s[0] == sep then [""] + rest
      else [[s[0]] + rest[0]] + rest[1..]
  }

  /** Joining the pieces of a split gives back the string. */
  lemma {:induction false} JoinSplit(s: string, sep: char)
    ensures Join(Split(s, sep), sep) == s
  {
    if s != [] {
      var rest := Split(s[1..], sep);
      JoinSplit(s[1..], sep);
      if s[0] == sep {
        assert Split(s, sep)[1..] == rest;
      } else {
        var r := Split(s, sep);
        if |rest| == 1 {
          assert r == [[s[0]] + rest[0]];
        } else {
          assert r[1..] == rest[1..];
          assert Join(rest, sep) == rest[0] + [sep] + Join(rest[1..], sep);
        }
      }
    }
  }

  /** No piece of a split holds the separator, and there is one piece more than separators. */
  lemma {:induction false} SplitPieces(s: string, sep: char)
    ensures forall k :: 0 <= k < |Split(s, sep)| ==> sep !in Split(s, sep)[k]
    ensures |Split(s, sep)| == Count(s, sep) + 1
  {
    if s != [] {
      SplitPieces(s[1..], sep);
      var rest := Split(s[1..], sep);
      var r := Split(s, sep);
      if s[0] != sep {
        assert r[0] == [s[0]] + rest[0];
        assert forall k :: 1 <= k < |r| ==> r[k] == rest[k];
      } else {
        assert forall k :: 1 <= k < |r| ==> r[k] == rest[k - 1];
      }
    }
  }

  /** The number of occurrences of `c` in `s`. */
  function Count(s: string, c: char): nat
  {
    if s == [] then 0 else (if s[0] == c then 1 else 0) + Count(s[1..], c)
  }

  /** The characters `String.prototype.trim` removes: ECMAScript WhiteSpace
      (tab, vertical tab, form feed, space, no-break space, zero-width no-break
      space and the space separators of Unicode category Zs) and LineTerminator. */
  predicate IsJsWhitespace(c: char) {
    c == '\t' || c == '\n' || c == '\U{B}' || c == '\U{C}' || c == '\r' || c == ' '
    || c == '\U{A0}' || c == '\U{1680}' || ('\U{2000}' <= c <= '\U{200A}')
    || c == '\U{2028}' || c == '\U{2029}' || c == '\U{202F}' || c == '\U{205F}'
    || c == '\U{3000}' || c == '\U{FEFF}'
  }

  predicate AllWhitespace(s: string) {
    forall k :: 0 <= k < |s| ==> IsJsWhitespace(s[k])
  }

  function TrimStart(s: string): string
  {
    if s != [] && IsJsWhitespace(s[0]) then TrimStart(s[1..]) else s
  }

  function TrimEnd(s: string): string
  {
    if s != [] && IsJsWhitespace(s[|s| - 1]) then TrimEnd(s[..|s| - 1]) else s
  }

  /** `s.trim()`. */
  function Trim(s: string): string
  {
    TrimEnd(TrimStart(s))
  }

  /** `trimStart` drops exactly a whitespace prefix and keeps the rest. */
  lemma {:induction false} TrimStartIsSuffix(s: string)
    ensures var t := TrimStart(s);
      |t| <= |s| && t == s[|s| - |t|..] && AllWhitespace(s[..|s| - |t|])
      && (t != [] ==> !IsJsWhitespace(t[0]))
  {
    if s != [] && IsJsWhitespace(s[0]) {
      TrimStartIsSuffix(s[1..]);
      var t := TrimStart(s[1..]);
      assert s[1..][..|s| - 1 - |t|] == s[1..|s| - |t|];
    }
  }

  /** `trimEnd` drops exactly a whitespace suffix and keeps the rest. */
  lemma {:induction false} TrimEndIsPrefix(s: string)
    ensures var t := TrimEnd(s);
      |t| <= |s| && t == s[..|t|] && AllWhitespace(s[|t|..])
      && (t != [] ==> !IsJsWhitespace(t[|t| - 1]))
  {
    if s != [] && IsJsWhitespace(s[|s| - 1]) {
      var init := s[..|s| - 1];
      TrimEndIsPrefix(init);
      var t := TrimEnd(init);
      assert TrimEnd(s) == t;
      assert init[..|t|] == s[..|t|];
      assert init[|t|..] == s[|t|..|s| - 1];
      forall k | 0 <= k < |s| - |t| ensures IsJsWhitespace(s[|t|..][k])
      {
        if k < |s| - 1 - |t| {
          assert s[|t|..][k] == init[|t|..][k];
        }
      }
    }
  }

  /** `s.trim()` is a contiguous piece of `s` with only whitespace cut off on either
      side, and it neither starts nor ends with whitespace. */
  lemma TrimIsInfix(s: string)
    ensures exists i :: (0 <= i <= |s| - |Trim(s)| && Trim(s) == s[i..i + |Trim(s)|]
      && AllWhitespace(s[..i]) && AllWhitespace(s[i + |Trim(s)|..]))
    ensures Trim(s) != [] ==> !IsJsWhitespace(Trim(s)[0]) && !IsJsWhitespace(Trim(s)[|Trim(s)| - 1])
  {
    var u := TrimStart(s);
    TrimStartIsSuffix(s);
    TrimEndIsPrefix(u);
    var t := Trim(s);
    var i := |s| - |u|;
    assert t == s[i..i + |t|];
    assert s[i + |t|..] == u[|t|..];
  }

  /** A string made only of whitespace trims to nothing from the start. */
  lemma {:induction false} TrimStartAllWhitespace(s: string)
    requires AllWhitespace(s)
    ensures TrimStart(s) == ""
  {
    if s != [] {
      assert AllWhitespace(s[1..]) by {
        forall k | 0 <= k < |s| - 1 ensures IsJsWhitespace(s[1..][k]) {
          assert s[1..][k] == s[k + 1];
        }
      }
      TrimStartAllWhitespace(s[1..]);
    }
  }

  /** `s.trim() === ''` holds exactly for strings made only of whitespace. */
  lemma TrimEmptyIff(s: string)
    ensures Trim(s) == "" <==> AllWhitespace(s)
  {
    var u := TrimStart(s);
    if AllWhitespace(s) {
      TrimStartAllWhitespace(s);
    }
    if Trim(s) == "" {
      TrimStartIsSuffix(s);
      TrimEndIsPrefix(u);
      assert u[|Trim(s)|..] == u;
      assert u == [];
      assert s[..|s| - |u|] == s;
    }
  }

  /** `s.replace(pattern, replacement)` with a string pattern and a replacement
      free of `$` patterns: only the first occurrence is replaced. */
  function ReplaceFirst(s: string, pattern: string, replacement: string): string
  {
    match IndexOf(s, pattern)
    case None => s
    case Some(i) => s[..i] + replacement + s[i + |pattern|..]
  }

  /** Replacing leaves a string without the pattern unchanged; otherwise the text
      before the first occurrence and everything after that occurrence are kept. */
  lemma ReplaceFirstSpec(s: string, pattern: string, replacement: string)
    ensures !Contains(s, pattern) ==> ReplaceFirst(s, pattern, replacement) == s
    ensures Contains(s, pattern) ==>
      exists i :: 0 <= i <= |s| - |pattern| && StartsWith(s[i..], pattern)
        && (forall j :: 0 <= j < i ==> !StartsWith(s[j..], pattern))
        && ReplaceFirst(s, pattern, replacement) == s[..i] + replacement + s[i + |pattern|..]
  {
    if Contains(s, pattern) {
      var i := IndexOf(s, pattern).value;
      assert 0 <= i <= |s| - |pattern| && StartsWith(s[i..], pattern)
        && (forall j :: 0 <= j < i ==> !StartsWith(s[j..], pattern))
        && ReplaceFirst(s, pattern, replacement) == s[..i] + replacement + s[i + |pattern|..];
    }
  }
}
