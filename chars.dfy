/**
  Characters and strings as Python's `str` methods see them, restricted to ASCII:
  `\d`, `\s` and `\w` classes, `lower()`, `startswith`, `in`, `split`, `join`,
  `strip` and `rstrip`.
 */
module Chars {
  import opened Optional

  /** Python's `\d` restricted to ASCII. */
  predicate IsDigit(c: char) {
    '0' <= c <= '9'
  }

  /** Python's `\s` / `str.isspace` restricted to ASCII: space, \t \n \v \f \r and the
      four information separators \x1c-\x1f. */
  predicate IsSpace(c: char) {
    c == ' ' || ('\t' <= c <= '\r') || ('\U{1C}' <= c <= '\U{1F}')
  }

  predicate IsLetter(c: char) {
    ('a' <= c <= 'z') || ('A' <= c <= 'Z')
  }

  /** Python's `\w` restricted to ASCII: letters, digits and underscore. */
  predicate IsWord(c: char) {
    IsLetter(c) || IsDigit(c) || c == '_'
  }

  /** A non-empty run of digits, as `(\d+)` captures it. */
  predicate IsDigits(s: string) {
    |s| > 0 && forall k :: 0 <= k < |s| ==> IsDigit(s[k])
  }

  predicate NoSpace(s: string) {
    forall k :: 0 <= k < |s| ==> !IsSpace(s[k])
  }

  /** Nothing but whitespace (possibly nothing at all). */
  predicate Blank(s: string) {
    forall k :: 0 <= k < |s| ==> IsSpace(s[k])
  }

  /** `s` is `core` with whitespace before and after it. */
  predicate Padded(s: string, core: string) {
    exists a, b :: 0 <= a <= b <= |s| && s[a..b] == core && Blank(s[..a]) && Blank(s[b..])
  }

  function LowerChar(c: char): (r: char)
    ensures !('A' <= r <= 'Z')
    ensures !IsLetter(c) ==> r == c
  {
    if 'A' <= c <= 'Z' then (c as int + 32) as char else c
  }

  /** `s.lower()`. */
  function Lower(s: string): (r: string)
    ensures |r| == |s| && forall k :: 0 <= k < |s| ==> r[k] == LowerChar(s[k])
  {
    seq(|s|, k requires 0 <= k < |s| => LowerChar(s[k]))
  }

  /** `s.startswith(p)`. */
  predicate StartsWith(s: string, p: string) {
    |p| <= |s| && s[..|p|] == p
  }

  /** `t` occurs in `s` at position `k`. */
  predicate OccursAt(s: string, t: string, k: nat) {
    k + |t| <= |s| && s[k..k + |t|] == t
  }

  lemma StartsWithConcat(a: string, b: string)
    ensures StartsWith(a + b, a)
  {
    assert (a + b)[..|a|] == a;
  }

  /** Position of the first occurrence of `t` in `s` at or after `i`. */
  function IndexFrom(s: string, t: string, i: nat): (r: Option<nat>)
    requires i <= |s|
    ensures r.Some? ==> i <= r.value && OccursAt(s, t, r.value)
    ensures r.Some? ==> forall k :: i <= k < r.value ==> !OccursAt(s, t, k)
    ensures r.None? ==> forall k :: i <= k ==> !OccursAt(s, t, k)
    decreases |s| - i
  {
    if i + |t| > |s| then None
    else if s[i..i + |t|] == t then Some(i)
    else if i < |s| then IndexFrom(s, t, i + 1)
    else None
  }

  /** `s.find(t)`, as an option. */
  function IndexOf(s: string, t: string): Option<nat> {
    IndexFrom(s, t, 0)
  }

  /** Python's `t in s`. */
  predicate Contains(s: string, t: string) {
    IndexOf(s, t).Some?
  }

  lemma ContainsAt(s: string, t: string, k: nat)
    requires OccursAt(s, t, k)
    ensures Contains(s, t)
  {
  }

  /** A string holding the character `x` contains the one-character string `[x]`. */
  lemma CharContains(s: string, x: char)
    ensures x in s ==> Contains(s, [x])
  {
    if x in s {
      var j :| 0 <= j < |s| && s[j] == x;
      assert OccursAt(s, [x], j);
      ContainsAt(s, [x], j);
    }
  }

  /** Concatenation regroups freely. */
  lemma Associative<T>(a: seq<T>, b: seq<T>, c: seq<T>)
    ensures a + (b + c) == (a + b) + c
  {
  }

  function Join(parts: seq<string>, sep: string): string {
    if |parts| == 0 then ""
    else if |parts| == 1 then parts[0]
    else parts[0] + sep + Join(parts[1..], sep)
  }

  /** `s.split(sep)` for a non-empty separator: the pieces between occurrences. */
  function SplitOn(s: string, sep: string): (parts: seq<string>)
    requires |sep| > 0
    ensures |parts| >= 1
    decreases |s|
  {
    match IndexOf(s, sep)
    case None => [s]
    case Some(k) => [s[..k]] + SplitOn(s[k + |sep|..], sep)
  }

  /** Splitting and joining again with the same separator gives back the string. */
  lemma {:induction false} JoinSplitOn(s: string, sep: string)
    requires |sep| > 0
    ensures Join(SplitOn(s, sep), sep) == s
    decreases |s|
  {
    var i := IndexOf(s, sep);
    if i.Some? {
      var k := i.value;
      var rest := s[k + |sep|..];
      JoinSplitOn(rest, sep);
      JoinCons(s[..k], SplitOn(rest, sep), sep);
      SplitAround(s, k, k + |sep|);
    }
  }

  lemma JoinCons(head: string, tail: seq<string>, sep: string)
    requires |tail| >= 1
    ensures Join([head] + tail, sep) == head + sep + Join(tail, sep)
  {
    assert ([head] + tail)[1..] == tail;
  }

  lemma SplitAround(s: string, a: nat, b: nat)
    requires a <= b <= |s|
    ensures s[..a] + s[a..b] + s[b..] == s
  {
  }

  /** Splitting on a one-character separator at its first occurrence. */
  lemma SplitOnChar(a: string, b: string, c: char)
    requires c !in a
    ensures SplitOn(a + [c] + b, [c]) == [a] + SplitOn(b, [c])
  {
    var s := a + [c] + b;
    assert OccursAt(s, [c], |a|);
    forall k: nat | k < |a| ensures !OccursAt(s, [c], k) {
      assert s[k] == a[k];
    }
    assert IndexOf(s, [c]) == Some(|a|);
    assert s[..|a|] == a && s[|a| + 1..] == b;
  }

  /** A string without the separator character splits into itself. */
  lemma SplitOnNoChar(a: string, c: char)
    requires c !in a
    ensures SplitOn(a, [c]) == [a]
  {
    forall k: nat | k < |a| ensures !OccursAt(a, [c], k) {
      assert a[k..k + 1] == [a[k]];
    }
  }

  /** No piece of `s.split(sep)` contains the separator. */
  lemma {:induction false} SplitOnPiecesFree(s: string, sep: string)
    requires |sep| > 0
    ensures forall k :: 0 <= k < |SplitOn(s, sep)| ==> !Contains(SplitOn(s, sep)[k], sep)
    decreases |s|
  {
    match IndexOf(s, sep)
    case None =>
    case Some(k) =>
      var rest := s[k + |sep|..];
      SplitOnPiecesFree(rest, sep);
      var head := s[..k];
      forall j: nat ensures !OccursAt(head, sep, j) {
        if j + |sep| <= |head| {
          assert !OccursAt(s, sep, j);
          assert head[j..j + |sep|] == s[j..j + |sep|];
        }
      }
  }

  /** `s.lstrip()`: the whitespace prefix removed. */
  function StripLeft(s: string): (r: string)
    ensures |r| <= |s| && r == s[|s| - |r|..]
    ensures r != [] ==> !IsSpace(r[0])
    ensures forall k :: 0 <= k < |s| - |r| ==> IsSpace(s[k])
    decreases |s|
  {
    if s != [] && IsSpace(s[0]) then StripLeft(s[1..]) else s
  }

  /** `s.rstrip(chars)`: every trailing character listed in `chars` removed. */
  function StripRightOf(s: string, chars: set<char>): (r: string)
    ensures |r| <= |s| && r == s[..|r|]
    ensures r != [] ==> r[|r| - 1] !in chars
    ensures forall k :: |r| <= k < |s| ==> s[k] in chars
    decreases |s|
  {
    if s != [] && s[|s| - 1] in chars then StripRightOf(s[..|s| - 1], chars) else s
  }

  /** `s.rstrip()`: the whitespace suffix removed. */
  function StripRight(s: string): (r: string)
    ensures |r| <= |s| && r == s[..|r|]
    ensures r != [] ==> !IsSpace(r[|r| - 1])
    ensures forall k :: |r| <= k < |s| ==> IsSpace(s[k])
    decreases |s|
  {
    if s != [] && IsSpace(s[|s| - 1]) then StripRight(s[..|s| - 1]) else s
  }

  /** `s.strip()`: no whitespace at either end, and nothing but characters of `s`. */
  function Strip(s: string): (r: string)
    ensures |r| <= |s|
    ensures forall c :: c in r ==> c in s
    ensures r != [] ==> !IsSpace(r[0]) && !IsSpace(r[|r| - 1])
  {
    var l := StripLeft(s);
    var r := StripRight(l);
    assert forall c :: c in r ==> c in l;
    r
  }

  /** What `strip` removes is whitespace and nothing else. */
  lemma StripPadded(s: string)
    ensures Padded(s, Strip(s))
  {
    var l := StripLeft(s);
    var r := StripRight(l);
    var a := |s| - |l|;
    var b := a + |r|;
    assert s[a..b] == Strip(s) by {
      assert s[a..] == l;
      assert l[..|r|] == r;
    }
    assert Blank(s[..a]) by {
      forall k | 0 <= k < a ensures IsSpace(s[..a][k]) {
        assert s[..a][k] == s[k];
      }
    }
    assert Blank(s[b..]) by {
      forall k | 0 <= k < |s| - b ensures IsSpace(s[b..][k]) {
        assert s[b..][k] == l[|r| + k];
      }
    }
  }

  /** The first position from `i` on that holds no whitespace, or `|s|`. */
  function SkipSpace(s: string, i: nat): (j: nat)
    requires i <= |s|
    ensures i <= j <= |s| && (j < |s| ==> !IsSpace(s[j]))
    decreases |s| - i
  {
    if i == |s| || !IsSpace(s[i]) then i else SkipSpace(s, i + 1)
  }

  /** The first position from `i` on that holds whitespace, or `|s|`. */
  function WordEnd(s: string, i: nat): (j: nat)
    requires i <= |s|
    ensures i <= j <= |s| && (j < |s| ==> IsSpace(s[j]))
    ensures forall x :: i <= x < j ==> !IsSpace(s[x])
    decreases |s| - i
  {
    if i == |s| || IsSpace(s[i]) then i else WordEnd(s, i + 1)
  }

  /** The maximal runs of non-whitespace characters of `s` from position `i` on. */
  function WordsFrom(s: string, i: nat): (words: seq<string>)
    requires i <= |s|
    ensures forall k :: 0 <= k < |words| ==> words[k] != [] && NoSpace(words[k])
    decreases |s| - i
  {
    var j := SkipSpace(s, i);
    if j == |s| then []
    else
      var e := WordEnd(s, j);
      assert NoSpace(s[j..e]) by {
        forall x | 0 <= x < e - j ensures !IsSpace(s[j..e][x]) {
          assert s[j..e][x] == s[j + x];
        }
      }
      [s[j..e]] + WordsFrom(s, e)
  }

  /** `s.split()`: the maximal runs of non-whitespace characters. */
  function SplitWhitespace(s: string): (words: seq<string>)
    ensures forall k :: 0 <= k < |words| ==> words[k] != [] && NoSpace(words[k])
  {
    WordsFrom(s, 0)
  }

  /** A property of every character of `s` from `i` on holds of every character of the
      words found from there. */
  lemma {:induction false} WordsFromAll(s: string, i: nat, P: char -> bool)
    requires i <= |s|
    requires forall x :: i <= x < |s| ==> P(s[x])
    ensures forall k, y :: 0 <= k < |WordsFrom(s, i)| && 0 <= y < |WordsFrom(s, i)[k]| ==>
      P(WordsFrom(s, i)[k][y])
    decreases |s| - i
  {
    var j := SkipSpace(s, i);
    if j < |s| {
      var e := WordEnd(s, j);
      WordsFromAll(s, e, P);
      var words := WordsFrom(s, i);
      var rest := WordsFrom(s, e);
      assert words == [s[j..e]] + rest;
      forall k, y | 0 <= k < |words| && 0 <= y < |words[k]| ensures P(words[k][y]) {
        if k == 0 {
          assert words[0][y] == s[j + y];
        } else {
          assert words[k] == rest[k - 1];
        }
      }
    }
  }

  function DigitChar(d: nat): (c: char)
    requires d < 10
    ensures IsDigit(c)
  {
    ('0' as int + d) as char
  }

  /** `str(n)` for a natural number. */
  function NatToString(n: nat): (r: string)
    ensures IsDigits(r)
  {
    if n < 10 then [DigitChar(n)] else NatToString(n / 10) + [DigitChar(n % 10)]
  }

  /** `str(i)` for any integer. */
  function IntToString(i: int): string {
    if i < 0 then "-" + NatToString(-i) else NatToString(i)
  }

  /** `(x for x in s if x not in seen)`, first occurrence kept: a duplicate-free list with
      the same elements. Python's `list(set(xs))` has the same elements in an unspecified
      order; this first-occurrence order is one of them, and the model uses it throughout. */
  function Dedup<T(==,!new)>(s: seq<T>): (r: seq<T>)
    ensures forall x :: x in r <==> x in s
    ensures forall a, b :: 0 <= a < b < |r| ==> r[a] != r[b]
    ensures |r| <= |s|
  {
    if s == [] then []
    else
      var rest := Dedup(s[..|s| - 1]);
      if s[|s| - 1] in rest then rest else rest + [s[|s| - 1]]
  }
}
