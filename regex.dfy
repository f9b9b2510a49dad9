/**
  The fragment of Python's `re` module that the extraction code relies on.

  A pattern is a sequence of items, each a single-character class under a quantifier
  (`x`, `x?`, `x*`, `x+`, `x{m,n}`, the lazy `x*?`) or the `$` anchor, with one capture
  group spanning a run of consecutive items. Matching follows Python's backtracking
  order: a greedy item tries its longest run first, a lazy item its shortest, and the
  first way of matching the remaining items wins; `re.search` tries start positions
  from left to right. Classes are ASCII (see module Chars); under IGNORECASE a literal
  letter matches either case.
 */
module Regex {
  import opened Optional
  import opened Chars

  datatype Class =
    | Lit(c: char)                                    // a literal character
    | Digit                                           // \d
    | Space                                           // \s
    | AnyButNewline                                   // .
    | AnyChar                                         // [\s\S]
    | OneOf(chars: set<char>, spaces: bool)           // [...], with \s when `spaces`
    | NoneOf(chars: set<char>, spaces: bool)          // [^...], without \s when `spaces`
    | WordOr(chars: set<char>)                        // [\w...]

  /** Membership of `c` in class `k`. The bracketed classes used by the modelled
      patterns contain no letters, so IGNORECASE only affects literals. */
  predicate InClass(k: Class, c: char, ignoreCase: bool) {
    match k
    case Lit(x) => x == c || (ignoreCase && LowerChar(x) == LowerChar(c))
    case Digit => IsDigit(c)
    case Space => IsSpace(c)
    case AnyButNewline => c != '\n'
    case AnyChar => true
    case OneOf(cs, sp) => c in cs || (sp && IsSpace(c))
    case NoneOf(cs, sp) => c !in cs && !(sp && IsSpace(c))
    case WordOr(cs) => IsWord(c) || c in cs
  }

  datatype Item =
    | Rep(cls: Class, min: nat, max: Option<nat>, greedy: bool)
    | EndAnchor

  /** Python's `$` without MULTILINE: the end of the text, or just before a newline
      that ends it. */
  predicate AtEnd(s: string, i: nat) {
    i == |s| || (i + 1 == |s| && s[i] == '\n')
  }

  datatype Pattern = Pattern(items: seq<Item>, groupStart: nat, groupEnd: nat, ignoreCase: bool)

  /** A pattern whose capture group is a run of its items. */
  type Regexp = p: Pattern | p.groupStart <= p.groupEnd <= |p.items|
    witness Pattern([], 0, 0, false)

  // ---- building patterns -------------------------------------------------------

  /** The literal text `t`, one item per character. */
  function Lits(t: string): (r: seq<Item>)
    ensures |r| == |t|
    ensures forall k :: 0 <= k < |t| ==> r[k] == Rep(Lit(t[k]), 1, Some(1), true)
  {
    seq(|t|, k requires 0 <= k < |t| => Rep(Lit(t[k]), 1, Some(1), true))
  }

  function One(k: Class): Item { Rep(k, 1, Some(1), true) }
  function Opt(k: Class): Item { Rep(k, 0, Some(1), true) }
  function Star(k: Class): Item { Rep(k, 0, None, true) }
  function Plus(k: Class): Item { Rep(k, 1, None, true) }
  function LazyStar(k: Class): Item { Rep(k, 0, None, false) }

  /** `before(group)after`. */
  function Grouped(before: seq<Item>, group: seq<Item>, after: seq<Item>, ignoreCase: bool): (p: Regexp)
    ensures p.items[p.groupStart..p.groupEnd] == group
  {
    var items := before + group + after;
    assert items[|before|..|before| + |group|] == group;
    Pattern(items, |before|, |before| + |group|, ignoreCase)
  }

  /** A pattern whose group is the whole match (Python's `group(0)`). */
  function Whole(items: seq<Item>, ignoreCase: bool): Regexp {
    Pattern(items, 0, |items|, ignoreCase)
  }

  // ---- what a match is ---------------------------------------------------------

  /** The characters `s[a..b]` are a valid stretch for item `it`. */
  predicate ItemFits(it: Item, s: string, a: nat, b: nat, ic: bool)
    requires a <= b <= |s|
  {
    match it
    case EndAnchor => a == b && AtEnd(s, a)
    case Rep(k, lo, hi, _) =>
      lo <= b - a && (hi.Some? ==> b - a <= hi.value)
      && forall x :: a <= x < b ==> InClass(k, s[x], ic)
  }

  /** `pos` lists the boundaries of a match of `items` that starts at `i`: item `j`
      consumed `s[pos[j]..pos[j + 1]]`. */
  predicate Fits(items: seq<Item>, s: string, i: nat, pos: seq<nat>, ic: bool) {
    |pos| == |items| + 1 && pos[0] == i && pos[|items|] <= |s|
    && forall j :: 0 <= j < |items| ==> StepFits(items, s, pos, ic, j)
  }

  /** Item `j` consumed `s[pos[j]..pos[j + 1]]`. */
  predicate StepFits(items: seq<Item>, s: string, pos: seq<nat>, ic: bool, j: nat)
    requires |pos| == |items| + 1 && j < |items|
  {
    pos[j] <= pos[j + 1] <= |s| && ItemFits(items[j], s, pos[j], pos[j + 1], ic)
  }

  lemma FitsCons(items: seq<Item>, s: string, i: nat, b: nat, rest: seq<nat>, ic: bool)
    requires items != [] && i <= b <= |s|
    requires ItemFits(items[0], s, i, b, ic)
    requires Fits(items[1..], s, b, rest, ic)
    ensures Fits(items, s, i, [i] + rest, ic)
  {
    var pos := [i] + rest;
    forall j | 0 <= j < |items|
      ensures StepFits(items, s, pos, ic, j)
    {
      if j > 0 {
        assert items[j] == items[1..][j - 1];
        assert pos[j] == rest[j - 1] && pos[j + 1] == rest[j];
        assert StepFits(items[1..], s, rest, ic, j - 1);
      }
    }
  }

  /** Boundaries of a match never go backwards. */
  lemma {:induction false} FitsOrdered(items: seq<Item>, s: string, i: nat, pos: seq<nat>, ic: bool, a: nat, b: nat)
    requires Fits(items, s, i, pos, ic)
    requires a <= b <= |items|
    ensures pos[a] <= pos[b] <= |s|
    decreases b - a
  {
    if a < b {
      assert StepFits(items, s, pos, ic, a);
      FitsOrdered(items, s, i, pos, ic, a + 1, b);
    } else if b < |items| {
      assert StepFits(items, s, pos, ic, b);
    }
  }

  // ---- matching ----------------------------------------------------------------

  /** Length of the longest run of class-`k` characters starting at `i`. */
  function RunLength(k: Class, s: string, i: nat, ic: bool): (n: nat)
    requires i <= |s|
    ensures i + n <= |s|
    ensures forall x :: i <= x < i + n ==> InClass(k, s[x], ic)
    ensures i + n < |s| ==> !InClass(k, s[i + n], ic)
    decreases |s| - i
  {
    if i < |s| && InClass(k, s[i], ic) then 1 + RunLength(k, s, i + 1, ic) else 0
  }

  /** How many characters a repetition item may take at `i`: the run, capped by the
      item's maximum. */
  function Avail(it: Item, s: string, i: nat, ic: bool): (n: nat)
    requires it.Rep? && i <= |s|
    ensures i + n <= |s|
    ensures it.max.Some? ==> n <= it.max.value
    ensures forall x :: i <= x < i + n ==> InClass(it.cls, s[x], ic)
  {
    var run := RunLength(it.cls, s, i, ic);
    if it.max.Some? && it.max.value < run then it.max.value else run
  }

  /** The first match of `items` at `i` in backtracking order, as its boundaries. */
  function MatchFrom(items: seq<Item>, s: string, i: nat, ic: bool): (r: Option<seq<nat>>)
    requires i <= |s|
    ensures r.Some? ==> Fits(items, s, i, r.value, ic)
    decreases |items|, |s| - i + 1
  {
    if items == [] then Some([i])
    else match items[0]
      case EndAnchor =>
        if !AtEnd(s, i) then None
        else (match MatchFrom(items[1..], s, i, ic)
          case None => None
          case Some(rest) => FitsCons(items, s, i, i, rest, ic); Some([i] + rest))
      case Rep(_, lo, _, greedy) =>
        var n := Avail(items[0], s, i, ic);
        if n < lo then None
        else if greedy then TryLongest(items, s, i, ic, n)
        else TryShortest(items, s, i, ic, lo)
  }

  /** A greedy head item: try counts `k`, `k - 1`, ..., down to its minimum. */
  function TryLongest(items: seq<Item>, s: string, i: nat, ic: bool, k: nat): (r: Option<seq<nat>>)
    requires i <= |s| && items != [] && items[0].Rep?
    requires items[0].min <= k <= Avail(items[0], s, i, ic)
    ensures r.Some? ==> Fits(items, s, i, r.value, ic)
    decreases |items|, k
  {
    match MatchFrom(items[1..], s, i + k, ic)
    case Some(rest) => FitsCons(items, s, i, i + k, rest, ic); Some([i] + rest)
    case None => if k > items[0].min then TryLongest(items, s, i, ic, k - 1) else None
  }

  /** A lazy head item: try counts `k`, `k + 1`, ..., up to what is available. */
  function TryShortest(items: seq<Item>, s: string, i: nat, ic: bool, k: nat): (r: Option<seq<nat>>)
    requires i <= |s| && items != [] && items[0].Rep?
    requires items[0].min <= k <= Avail(items[0], s, i, ic)
    ensures r.Some? ==> Fits(items, s, i, r.value, ic)
    decreases |items|, Avail(items[0], s, i, ic) - k
  {
    match MatchFrom(items[1..], s, i + k, ic)
    case Some(rest) => FitsCons(items, s, i, i + k, rest, ic); Some([i] + rest)
    case None => if k < Avail(items[0], s, i, ic) then TryShortest(items, s, i, ic, k + 1) else None
  }

  /** `re.search` from position `i` on: the leftmost start at which the pattern matches. */
  function SearchFrom(p: Regexp, s: string, i: nat): (r: Option<seq<nat>>)
    requires i <= |s|
    ensures r.Some? ==> |r.value| == |p.items| + 1 && Fits(p.items, s, r.value[0], r.value, p.ignoreCase)
    ensures r.Some? ==> i <= r.value[0] <= |s| && MatchFrom(p.items, s, r.value[0], p.ignoreCase) == r
    ensures r.Some? ==> forall j :: i <= j < r.value[0] ==> MatchFrom(p.items, s, j, p.ignoreCase).None?
    ensures r.None? ==> forall j :: i <= j <= |s| ==> MatchFrom(p.items, s, j, p.ignoreCase).None?
    decreases |s| - i
  {
    var m := MatchFrom(p.items, s, i, p.ignoreCase);
    if m.Some? then m
    else if i < |s| then SearchFrom(p, s, i + 1)
    else None
  }

  /** `re.search(p, s)`. */
  function Search(p: Regexp, s: string): Option<seq<nat>> {
    SearchFrom(p, s, 0)
  }

  /** `re.search(p, s).group(1)` (or `group(0)` for a `Whole` pattern), None when there is
      no match. */
  function Capture(p: Regexp, s: string): Option<string> {
    match Search(p, s)
    case None => None
    case Some(pos) =>
      FitsOrdered(p.items, s, pos[0], pos, p.ignoreCase, p.groupStart, p.groupEnd);
      Some(s[pos[p.groupStart]..pos[p.groupEnd]])
  }

  // ---- completeness: backtracking finds every match ----------------------------

  lemma FitsTail(items: seq<Item>, s: string, i: nat, pos: seq<nat>, ic: bool)
    requires items != [] && Fits(items, s, i, pos, ic)
    ensures pos[1] <= |s| && Fits(items[1..], s, pos[1], pos[1..], ic)
  {
    assert StepFits(items, s, pos, ic, 0);
    FitsOrdered(items, s, i, pos, ic, 1, |items|);
    forall j | 0 <= j < |items| - 1 ensures StepFits(items[1..], s, pos[1..], ic, j) {
      assert StepFits(items, s, pos, ic, j + 1);
      assert items[1..][j] == items[j + 1];
    }
  }

  /** A run of class characters is never longer than the longest run. */
  lemma RunBound(k: Class, s: string, i: nat, ic: bool, n: nat)
    requires i + n <= |s|
    requires forall x :: i <= x < i + n ==> InClass(k, s[x], ic)
    ensures n <= RunLength(k, s, i, ic)
  {
  }

  lemma {:induction false} TryLongestComplete(items: seq<Item>, s: string, i: nat, ic: bool, top: nat, k: nat)
    requires i <= |s| && items != [] && items[0].Rep?
    requires items[0].min <= k <= top <= Avail(items[0], s, i, ic)
    requires MatchFrom(items[1..], s, i + k, ic).Some?
    ensures TryLongest(items, s, i, ic, top).Some?
    decreases top - k
  {
    if top > k {
      TryLongestComplete(items, s, i, ic, top - 1, k);
    }
  }

  lemma {:induction false} TryShortestComplete(items: seq<Item>, s: string, i: nat, ic: bool, bottom: nat, k: nat)
    requires i <= |s| && items != [] && items[0].Rep?
    requires items[0].min <= bottom <= k <= Avail(items[0], s, i, ic)
    requires MatchFrom(items[1..], s, i + k, ic).Some?
    ensures TryShortest(items, s, i, ic, bottom).Some?
    decreases k - bottom
  {
    if bottom < k {
      TryShortestComplete(items, s, i, ic, bottom + 1, k);
    }
  }

  /** Whenever `items` can match at `i`, the backtracking search finds a match there. */
  lemma {:induction false} MatchComplete(items: seq<Item>, s: string, i: nat, pos: seq<nat>, ic: bool)
    requires i <= |s| && Fits(items, s, i, pos, ic)
    ensures MatchFrom(items, s, i, ic).Some?
    decreases |items|
  {
    if items != [] {
      FitsTail(items, s, i, pos, ic);
      assert StepFits(items, s, pos, ic, 0);
      MatchComplete(items[1..], s, pos[1], pos[1..], ic);
      match items[0]
      case EndAnchor =>
      case Rep(cls, lo, hi, greedy) =>
        var k := pos[1] - i;
        RunBound(cls, s, i, ic, k);
        var n := Avail(items[0], s, i, ic);
        if greedy {
          TryLongestComplete(items, s, i, ic, n, k);
        } else {
          TryShortestComplete(items, s, i, ic, lo, k);
        }
    }
  }

  /** Whenever the pattern can match at `i`, `re.search` finds a match starting at or
      before `i`. */
  lemma SearchComplete(p: Regexp, s: string, i: nat, pos: seq<nat>)
    requires i <= |s| && Fits(p.items, s, i, pos, p.ignoreCase)
    ensures Search(p, s).Some? && Search(p, s).value[0] <= i
  {
    MatchComplete(p.items, s, i, pos, p.ignoreCase);
  }

  /** When the pattern can match at `i` and at no earlier position, `re.search` matches
      at `i`. */
  lemma SearchAt(p: Regexp, s: string, i: nat, pos: seq<nat>)
    requires i <= |s| && Fits(p.items, s, i, pos, p.ignoreCase)
    requires forall j, q :: 0 <= j < i ==> !Fits(p.items, s, j, q, p.ignoreCase)
    ensures Search(p, s).Some? && Search(p, s).value[0] == i
  {
    SearchComplete(p, s, i, pos);
    var m := Search(p, s).value;
    assert Fits(p.items, s, m[0], m, p.ignoreCase);
  }

  // ---- greed: a trailing greedy item takes its whole run --------------------------

  /** The last item is a greedy repetition with no maximum (`x*` or `x+`). */
  predicate GreedyLast(items: seq<Item>) {
    items != [] && items[|items| - 1].Rep? && items[|items| - 1].max.None? && items[|items| - 1].greedy
  }

  /** A match found by backtracking stops, after a trailing greedy `x*` or `x+`, at the end
      of the text or before a character outside the class. */
  lemma {:induction false} MatchEndsRun(items: seq<Item>, s: string, i: nat, ic: bool)
    requires i <= |s| && GreedyLast(items)
    ensures MatchFrom(items, s, i, ic).Some? ==>
      var e := MatchFrom(items, s, i, ic).value[|items|];
      e <= |s| && (e < |s| ==> !InClass(items[|items| - 1].cls, s[e], ic))
    decreases |items|, 1, 0
  {
    match items[0]
    case EndAnchor =>
      if AtEnd(s, i) {
        assert items[1..][|items| - 2] == items[|items| - 1];
        MatchEndsRun(items[1..], s, i, ic);
      }
    case Rep(_, lo, _, greedy) =>
      var n := Avail(items[0], s, i, ic);
      if n >= lo {
        if greedy {
          TryLongestEndsRun(items, s, i, ic, n);
        } else {
          TryShortestEndsRun(items, s, i, ic, lo);
        }
      }
  }

  /** A lone greedy `x*` or `x+` takes the whole run of its class. */
  lemma LoneGreedyTakesRun(items: seq<Item>, s: string, i: nat, ic: bool)
    requires i <= |s| && |items| == 1 && GreedyLast(items)
    requires items[0].min <= Avail(items[0], s, i, ic)
    ensures TryLongest(items, s, i, ic, Avail(items[0], s, i, ic)) == Some([i, i + RunLength(items[0].cls, s, i, ic)])
  {
    var k := Avail(items[0], s, i, ic);
    assert items[1..] == [];
    assert k == RunLength(items[0].cls, s, i, ic);
    assert MatchFrom(items[1..], s, i + k, ic) == Some([i + k]);
    assert [i] + [i + k] == [i, i + k];
  }

  lemma {:induction false} TryLongestEndsRun(items: seq<Item>, s: string, i: nat, ic: bool, k: nat)
    requires i <= |s| && items != [] && items[0].Rep? && GreedyLast(items)
    requires items[0].min <= k <= Avail(items[0], s, i, ic)
    requires |items| == 1 ==> k == Avail(items[0], s, i, ic)
    ensures TryLongest(items, s, i, ic, k).Some? ==>
      var e := TryLongest(items, s, i, ic, k).value[|items|];
      e <= |s| && (e < |s| ==> !InClass(items[|items| - 1].cls, s[e], ic))
    decreases |items|, 0, k
  {
    if |items| == 1 {
      LoneGreedyTakesRun(items, s, i, ic);
      var n := RunLength(items[0].cls, s, i, ic);
      assert i + n < |s| ==> !InClass(items[0].cls, s[i + n], ic);
    } else {
      assert items[1..][|items| - 2] == items[|items| - 1];
      match MatchFrom(items[1..], s, i + k, ic)
      case Some(rest) =>
        MatchEndsRun(items[1..], s, i + k, ic);
        assert TryLongest(items, s, i, ic, k) == Some([i] + rest);
        assert ([i] + rest)[|items|] == rest[|items| - 1];
      case None =>
        if k > items[0].min {
          TryLongestEndsRun(items, s, i, ic, k - 1);
          assert TryLongest(items, s, i, ic, k) == TryLongest(items, s, i, ic, k - 1);
        }
    }
  }

  lemma {:induction false} TryShortestEndsRun(items: seq<Item>, s: string, i: nat, ic: bool, k: nat)
    requires i <= |s| && |items| > 1 && items[0].Rep? && GreedyLast(items)
    requires items[0].min <= k <= Avail(items[0], s, i, ic)
    ensures TryShortest(items, s, i, ic, k).Some? ==>
      var e := TryShortest(items, s, i, ic, k).value[|items|];
      e <= |s| && (e < |s| ==> !InClass(items[|items| - 1].cls, s[e], ic))
    decreases |items|, 0, Avail(items[0], s, i, ic) - k
  {
    assert items[1..][|items| - 2] == items[|items| - 1];
    match MatchFrom(items[1..], s, i + k, ic)
    case Some(rest) =>
      MatchEndsRun(items[1..], s, i + k, ic);
      assert TryShortest(items, s, i, ic, k) == Some([i] + rest);
      assert ([i] + rest)[|items|] == rest[|items| - 1];
    case None =>
      if k < Avail(items[0], s, i, ic) {
        TryShortestEndsRun(items, s, i, ic, k + 1);
        assert TryShortest(items, s, i, ic, k) == TryShortest(items, s, i, ic, k + 1);
      }
  }

  // ---- what a capture consists of ----------------------------------------------

  /** A captured group that is one repetition item consists of characters of its
      class, at least as many as its minimum. */
  lemma CaptureOfOneItem(p: Regexp, s: string)
    requires p.groupEnd == p.groupStart + 1 && p.items[p.groupStart].Rep?
    ensures Capture(p, s).Some? ==>
      var t := Capture(p, s).value;
      |t| >= p.items[p.groupStart].min
      && forall x :: 0 <= x < |t| ==> InClass(p.items[p.groupStart].cls, t[x], p.ignoreCase)
  {
    match Search(p, s)
    case None =>
    case Some(pos) =>
      var g := p.groupStart;
      assert StepFits(p.items, s, pos, p.ignoreCase, g);
  }

  /** Every character of a match lies in the class of the item that consumed it. */
  lemma {:induction false} MatchedCharacter(items: seq<Item>, s: string, i: nat, pos: seq<nat>, ic: bool, a: nat, b: nat, x: nat)
    requires Fits(items, s, i, pos, ic)
    requires a <= b <= |items|
    requires pos[a] <= x < pos[b]
    ensures x < |s|
    ensures exists j :: a <= j < b && items[j].Rep? && pos[j] <= x < pos[j + 1] && InClass(items[j].cls, s[x], ic)
    decreases b - a
  {
    FitsOrdered(items, s, i, pos, ic, a, b);
    assert StepFits(items, s, pos, ic, a);
    if x < pos[a + 1] {
      assert items[a].Rep?;
    } else {
      MatchedCharacter(items, s, i, pos, ic, a + 1, b, x);
    }
  }

  /** An item that must take exactly one character moves the boundary by one. */
  lemma SingleStep(items: seq<Item>, s: string, i: nat, pos: seq<nat>, ic: bool, j: nat)
    requires Fits(items, s, i, pos, ic) && j < |items|
    requires items[j].Rep? && items[j].min == 1 && items[j].max == Some(1)
    ensures pos[j + 1] == pos[j] + 1 && pos[j] < |s| && InClass(items[j].cls, s[pos[j]], ic)
  {
    assert StepFits(items, s, pos, ic, j);
  }

  // ---- substitution and splitting ----------------------------------------------

  /** Some item must consume at least one character, so no match is empty. */
  predicate Consuming(p: Regexp) {
    exists j :: 0 <= j < |p.items| && p.items[j].Rep? && p.items[j].min >= 1
  }

  lemma MatchNonEmpty(p: Regexp, s: string, i: nat, pos: seq<nat>)
    requires Consuming(p) && Fits(p.items, s, i, pos, p.ignoreCase)
    ensures pos[0] < pos[|p.items|]
  {
    var j :| 0 <= j < |p.items| && p.items[j].Rep? && p.items[j].min >= 1;
    FitsOrdered(p.items, s, i, pos, p.ignoreCase, 0, j);
    FitsOrdered(p.items, s, i, pos, p.ignoreCase, j + 1, |p.items|);
    assert StepFits(p.items, s, pos, p.ignoreCase, j);
  }

  /** `re.sub(p, repl, s)` applied to `s[i:]`, for a pattern that never matches the
      empty string. */
  function ReplaceFrom(p: Regexp, s: string, i: nat, repl: string): string
    requires i <= |s| && Consuming(p)
    decreases |s| - i
  {
    match SearchFrom(p, s, i)
    case None => s[i..]
    case Some(pos) =>
      MatchNonEmpty(p, s, pos[0], pos);
      FitsOrdered(p.items, s, pos[0], pos, p.ignoreCase, 0, |p.items|);
      s[i..pos[0]] + repl + ReplaceFrom(p, s, pos[|p.items|], repl)
  }

  /** `re.sub(p, repl, s)`. */
  function Replace(p: Regexp, s: string, repl: string): string
    requires Consuming(p)
  {
    ReplaceFrom(p, s, 0, repl)
  }

  /** The end of the first alternative of `alts` that matches at `i`
      (the alternation `A|B|...` at one start position). */
  function MatchAnyAt(alts: seq<Regexp>, s: string, i: nat): (r: Option<nat>)
    requires i <= |s|
    ensures r.Some? ==> i <= r.value <= |s|
  {
    if alts == [] then None
    else match MatchFrom(alts[0].items, s, i, alts[0].ignoreCase)
      case Some(pos) =>
        FitsOrdered(alts[0].items, s, i, pos, alts[0].ignoreCase, 0, |alts[0].items|);
        Some(pos[|alts[0].items|])
      case None => MatchAnyAt(alts[1..], s, i)
  }

  /** `re.split(A|B|..., s[i:])` for alternatives that never match the empty string:
      the pieces of text between successive leftmost matches. */
  function SplitFrom(alts: seq<Regexp>, s: string, i: nat, start: nat): (pieces: seq<string>)
    requires start <= i <= |s|
    requires forall k :: 0 <= k < |alts| ==> Consuming(alts[k])
    ensures |pieces| >= 1
    decreases |s| - i
  {
    match MatchAnyAt(alts, s, i)
    case Some(e) =>
      AlternativeNonEmpty(alts, s, i);
      [s[start..i]] + SplitFrom(alts, s, e, e)
    case None =>
      if i < |s| then SplitFrom(alts, s, i + 1, start) else [s[start..]]
  }

  lemma {:induction false} AlternativeNonEmpty(alts: seq<Regexp>, s: string, i: nat)
    requires i <= |s|
    requires forall k :: 0 <= k < |alts| ==> Consuming(alts[k])
    ensures MatchAnyAt(alts, s, i).Some? ==> MatchAnyAt(alts, s, i).value > i
  {
    if alts != [] {
      match MatchFrom(alts[0].items, s, i, alts[0].ignoreCase)
      case Some(pos) => MatchNonEmpty(alts[0], s, i, pos);
      case None =>
        assert forall k :: 0 <= k < |alts[1..]| ==> alts[1..][k] == alts[k + 1];
        AlternativeNonEmpty(alts[1..], s, i);
    }
  }

  /** `re.split(A|B|..., s)`. */
  function Split(alts: seq<Regexp>, s: string): (pieces: seq<string>)
    requires forall k :: 0 <= k < |alts| ==> Consuming(alts[k])
    ensures |pieces| >= 1
  {
    SplitFrom(alts, s, 0, 0)
  }
}
