/**
 * The JavaScript built-ins the components call: `String.prototype.trim`,
 * `String.prototype.startsWith` and `Array.prototype.slice`, stated on
 * Dafny strings (sequences of Unicode scalar values).
 */
module JsBuiltins {

  /** ECMAScript WhiteSpace (tab, VT, FF, space, NBSP, BOM, every Zs code point)
      and LineTerminator (LF, CR, LS, PS): the characters `trim` removes. */
  predicate IsWhitespace(c: char) {
    c == '\U{9}' || c == '\U{B}' || c == '\U{C}' || c == '\U{20}' || c == '\U{A0}' ||
    c == '\U{FEFF}' || c == '\U{1680}' || ('\U{2000}' <= c <= '\U{200A}') ||
    c == '\U{202F}' || c == '\U{205F}' || c == '\U{3000}' ||
    c == '\U{A}' || c == '\U{D}' || c == '\U{2028}' || c == '\U{2029}'
  }

  predicate AllWhitespace(s: string) {
    forall k | 0 <= k < |s| :: IsWhitespace(s[k])
  }

  /** Removes leading whitespace: the result is the suffix of `s` that starts at its
      first non-whitespace character. */
  function TrimStart(s: string): (r: string)
    ensures |r| <= |s| && r == s[|s| - |r|..]
    ensures AllWhitespace(s[..|s| - |r|])
    ensures r == [] || !IsWhitespace(r[0])
  {
    if |s| > 0 && IsWhitespace(s[0]) then TrimStart(s[1..]) else s
  }

  /** Removes trailing whitespace: the result is the prefix of `s` that ends at its
      last non-whitespace character. */
  function TrimEnd(s: string): (r: string)
    ensures |r| <= |s| && r == s[..|r|]
    ensures AllWhitespace(s[|r|..])
    ensures r == [] || !IsWhitespace(r[|r| - 1])
  {
    if |s| > 0 && IsWhitespace(s[|s| - 1]) then TrimEnd(s[..|s| - 1]) else s
  }

  /** `s.trim()`: `s` without its leading and trailing whitespace. */
  function Trim(s: string): (r: string)
    ensures |r| <= |s|
    ensures r == [] || (!IsWhitespace(r[0]) && !IsWhitespace(r[|r| - 1]))
  {
    TrimEnd(TrimStart(s))
  }

  /** Trim keeps a contiguous middle part of `s` and drops only whitespace around it. */
  lemma TrimIsWhitespaceDelimitedInfix(s: string) returns (i: nat)
    ensures i + |Trim(s)| <= |s| && Trim(s) == s[i..i + |Trim(s)|]
    ensures AllWhitespace(s[..i]) && AllWhitespace(s[i + |Trim(s)|..])
  {
    var t := TrimStart(s);
    var r := TrimEnd(t);
    i := |s| - |t|;
    assert t == s[i..];
    assert r == s[i..i + |r|];
    assert t[|r|..] == s[i + |r|..];
  }

  /** A string made only of whitespace trims to the empty string. */
  lemma TrimOfWhitespace(s: string)
    requires AllWhitespace(s)
    ensures Trim(s) == []
  {
  }

  /** Trim is determined by that description: whatever surrounds a middle part that
      neither starts nor ends with whitespace, if it is whitespace, is what Trim removes. */
  lemma TrimUnique(a: string, m: string, b: string)
    requires AllWhitespace(a) && AllWhitespace(b)
    requires m == [] || (!IsWhitespace(m[0]) && !IsWhitespace(m[|m| - 1]))
    ensures Trim(a + m + b) == m
  {
    if m == [] {
      assert AllWhitespace(a + m + b) by {
        forall k | 0 <= k < |a + m + b| ensures IsWhitespace((a + m + b)[k]) {
          if k >= |a| { assert (a + m + b)[k] == b[k - |a|]; }
        }
      }
      TrimOfWhitespace(a + m + b);
    } else {
      assert a + m + b == a + (m + b);
      assert (m + b)[0] == m[0];
      TrimStartOfWhitespacePrefix(a, m + b);
      TrimEndOfWhitespaceSuffix(m, b);
    }
  }

  lemma {:induction false} TrimStartOfWhitespacePrefix(a: string, rest: string)
    requires AllWhitespace(a)
    requires rest == [] || !IsWhitespace(rest[0])
    ensures TrimStart(a + rest) == rest
  {
    if a != [] {
      assert (a + rest)[1..] == a[1..] + rest;
      TrimStartOfWhitespacePrefix(a[1..], rest);
    } else {
      assert a + rest == rest;
    }
  }

  lemma {:induction false} TrimEndOfWhitespaceSuffix(rest: string, b: string)
    requires AllWhitespace(b)
    requires rest == [] || !IsWhitespace(rest[|rest| - 1])
    ensures TrimEnd(rest + b) == rest
  {
    if b != [] {
      assert (rest + b)[..|rest + b| - 1] == rest + b[..|b| - 1];
      TrimEndOfWhitespaceSuffix(rest, b[..|b| - 1]);
    } else {
      assert rest + b == rest;
    }
  }

  /** Trimming twice is trimming once. */
  lemma TrimIdempotent(s: string)
    ensures Trim(Trim(s)) == Trim(s)
  {
  }

  /** `s.startsWith(prefix)`: the first `|prefix|` characters of `s` are `prefix`. */
  function StartsWith(s: string, prefix: string): (r: bool)
    ensures r <==> prefix <= s
  {
    |prefix| <= |s| && s[..|prefix|] == prefix
  }

  /** Two prefixes of one string are comparable: the shorter is a prefix of the longer. */
  lemma PrefixesOfSameString(a: string, b: string, s: string)
    requires StartsWith(s, a) && StartsWith(s, b) && |a| <= |b|
    ensures StartsWith(b, a)
  {
    assert b == s[..|b|];
    assert a == s[..|a|] == b[..|a|];
  }

  /** The index `arg` resolves to in `a.slice(start, end)` over a length `len`:
      a negative argument counts back from the end, and both clamp to `0..len`. */
  function SliceIndex(arg: int, len: nat): (k: nat)
    ensures k <= len
    ensures 0 <= arg ==> k == if arg <= len then arg else len
    ensures arg < 0 ==> k == if len + arg >= 0 then len + arg else 0
  {
    if arg < 0 then (if len + arg < 0 then 0 else len + arg)
    else if arg < len then arg else len
  }

  /** `a.slice(start, end)`: the elements from the resolved start up to, not
      including, the resolved end; empty when the end precedes the start. */
  function Slice<T>(a: seq<T>, start: int, end: int): (r: seq<T>)
    ensures var from := SliceIndex(start, |a|);
      from + |r| <= |a| && r == a[from..from + |r|]
    ensures |r| == if SliceIndex(end, |a|) <= SliceIndex(start, |a|) then 0
      else SliceIndex(end, |a|) - SliceIndex(start, |a|)
  {
    var from := SliceIndex(start, |a|);
    var to := SliceIndex(end, |a|);
    if to <= from then [] else a[from..to]
  }

  /** `a.slice(0, n)` for a non-negative `n` is the first `min(n, |a|)` elements. */
  lemma SliceFromStart<T>(a: seq<T>, n: nat)
    ensures Slice(a, 0, n) == a[..if n <= |a| then n else |a|]
  {
  }
}
