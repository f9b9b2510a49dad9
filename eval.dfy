/**
  The evaluator of the publications agent: its own copies of the extractors (the
  PMID/PMCID one is the agent's, module Publications), the DOI and title extractors,
  the DOI version stripping, the per-field scoring and the pass/fail tally.
 */
module PublicationsEval {
  import opened Optional
  import opened Chars
  import opened Regex
  import opened Publications

  // ---- preprint DOI ---------------------------------------------------------------

  /** Neither whitespace nor a quote. */
  predicate DoiChar(c: char) {
    !IsSpace(c) && c != '"' && c != '\''
  }

  /** `10\.\d+/[^\s"']{tail,}` */
  function DoiItems(tail: nat): seq<Item> {
    [One(Lit('1')), One(Lit('0')), One(Lit('.')), Plus(Digit), One(Lit('/')),
     Rep(NoneOf({'"', '\''}, true), tail, None, true)]
  }

  /** "10.", a registrant code of digits, "/", and at least `tail` more characters;
      nothing in it is whitespace or a quote. */
  predicate DoiShaped(d: string, tail: nat) {
    StartsWith(d, "10.")
    && (forall x :: 0 <= x < |d| ==> DoiChar(d[x]))
    && exists k :: 3 < k && k + tail < |d| && d[k] == '/' && IsDigits(d[3..k])
  }

  /** `...(10\.\d+/[^\s"']+)...`, IGNORECASE. */
  function DoiAfter(before: seq<Item>, after: seq<Item>): (p: Regexp)
    ensures p.groupEnd == p.groupStart + 6 && p.items[p.groupStart..p.groupEnd] == DoiItems(1)
  {
    Grouped(before, DoiItems(1), after, true)
  }

  const Quote := OneOf({'"', '\''}, false)    // ["']

  const DoiPatterns: seq<Regexp> := [
    DoiAfter(Lits("DOI") + [Colon, Spaces], []),
    DoiAfter(Lits("doi") + [Colon, Spaces], []),
    DoiAfter(Lits("preprint DOI") + [Colon, Spaces], []),
    DoiAfter(Lits("preprint doi") + [Colon, Spaces], []),
    DoiAfter(Lits("**DOI:**") + [Spaces], []),
    DoiAfter(Lits("**DOI**") + [Colon, Spaces], []),
    DoiAfter(Lits("- **DOI:**") + [Spaces], []),
    DoiAfter(Lits("- **DOI**") + [Colon, Spaces], []),
    DoiAfter(Lits("preprint_doi") + [Opt(OneOf({'"', '\'', ':'}, false)), Spaces, One(Quote)], [One(Quote), Spaces]),
    DoiAfter(Lits("\"preprint_doi\":") + [Spaces, One(Lit('"'))], [One(Lit('"'))])
  ]

  /** `10\.\d+/[^\s"']{4,}`, the whole match, case-sensitive. */
  const GeneralDoi: Regexp := Whole(DoiItems(4), false)

  lemma DoiPatternGroups()
    ensures forall k :: 0 <= k < |DoiPatterns| ==>
      DoiPatterns[k].groupEnd == DoiPatterns[k].groupStart + 6
      && DoiPatterns[k].items[DoiPatterns[k].groupStart..DoiPatterns[k].groupEnd] == DoiItems(1)
  {
  }

  /** `extract_preprint_doi`: the first listed pattern's capture, else the general one. */
  function PreprintDoi(s: string): Option<string> {
    match FirstCapture(DoiPatterns, s)
    case Some(d) => Some(d)
    case None => Capture(GeneralDoi, s)
  }

  method ExtractPreprintDoi(s: string) returns (doi: Option<string>)
    ensures doi == PreprintDoi(s)
  {
    doi := SearchInOrder(DoiPatterns, s);
    if doi.None? {
      doi := Capture(GeneralDoi, s);
    }
  }

  /** "10.", digits up to a "/" at `k`, then DOI characters. */
  lemma DoiPieces(t: string, k: nat, tail: nat)
    requires 3 < k && k + tail < |t| && t[0] == '1' && t[1] == '0' && t[2] == '.' && t[k] == '/'
    requires forall y :: 3 <= y < k ==> IsDigit(t[y])
    requires forall y :: k < y < |t| ==> DoiChar(t[y])
    ensures DoiShaped(t, tail)
  {
    assert t[..3] == "10.";
    assert IsDigits(t[3..k]);
  }

  /** What a match of the DOI items consumed, character by character. */
  lemma DoiMatch(items: seq<Item>, s: string, i: nat, pos: seq<nat>, ic: bool, g: nat, tail: nat)
    requires Fits(items, s, i, pos, ic) && g + 6 <= |items|
    requires forall j :: 0 <= j < 6 ==> items[g + j] == DoiItems(tail)[j]
    ensures pos[g] + 3 == pos[g + 3] < pos[g + 4] && pos[g + 4] + 1 + tail <= pos[g + 6] <= |s|
    ensures s[pos[g]] == '1' && s[pos[g] + 1] == '0' && s[pos[g] + 2] == '.' && s[pos[g + 4]] == '/'
    ensures forall y :: pos[g + 3] <= y < pos[g + 4] ==> IsDigit(s[y])
    ensures forall y :: pos[g + 4] < y < pos[g + 6] ==> DoiChar(s[y])
  {
    assert items[g] == DoiItems(tail)[0] && items[g + 1] == DoiItems(tail)[1] && items[g + 2] == DoiItems(tail)[2];
    assert items[g + 3] == DoiItems(tail)[3] && items[g + 4] == DoiItems(tail)[4] && items[g + 5] == DoiItems(tail)[5];
    FitsOrdered(items, s, i, pos, ic, g, g + 6);
    SingleStep(items, s, i, pos, ic, g);
    SingleStep(items, s, i, pos, ic, g + 1);
    SingleStep(items, s, i, pos, ic, g + 2);
    SingleStep(items, s, i, pos, ic, g + 4);
    assert StepFits(items, s, pos, ic, g + 3);
    assert StepFits(items, s, pos, ic, g + 5);
  }

  /** A capture by a group of DOI items has the DOI shape. */
  lemma DoiCapture(p: Regexp, s: string, tail: nat)
    requires p.groupEnd == p.groupStart + 6 && p.items[p.groupStart..p.groupEnd] == DoiItems(tail)
    ensures Capture(p, s).Some? ==> DoiShaped(Capture(p, s).value, tail)
  {
    match Search(p, s)
    case None =>
    case Some(pos) =>
      var g := p.groupStart;
      forall j | 0 <= j < 6 ensures p.items[g + j] == DoiItems(tail)[j] {
        assert p.items[g..g + 6][j] == p.items[g + j];
      }
      DoiMatch(p.items, s, pos[0], pos, p.ignoreCase, g, tail);
      var a := pos[g];
      var t := s[a..pos[g + 6]];
      var k := pos[g + 4] - a;
      assert Capture(p, s) == Some(t);
      assert t[0] == s[a] && t[1] == s[a + 1] && t[2] == s[a + 2] && t[k] == s[a + k];
      forall y | 3 <= y < k ensures IsDigit(t[y]) {
        assert t[y] == s[a + y];
      }
      forall y | k < y < |t| ensures DoiChar(t[y]) {
        assert t[y] == s[a + y];
      }
      DoiPieces(t, k, tail);
  }

  /** A found DOI starts with "10." and digits and "/", and holds no whitespace or
      quote; when only the general pattern found it, at least four characters follow
      the "/". */
  lemma PreprintDoiShape(s: string)
    ensures PreprintDoi(s).Some? ==> DoiShaped(PreprintDoi(s).value, 1)
    ensures FirstCapture(DoiPatterns, s).None? && PreprintDoi(s).Some? ==> DoiShaped(PreprintDoi(s).value, 4)
  {
    DoiPatternGroups();
    match FirstMatchingFrom(DoiPatterns, s, 0)
    case Some(k) => DoiCapture(DoiPatterns[k], s, 1);
    case None =>
      DoiCapture(GeneralDoi, s, 4);
      if PreprintDoi(s).Some? {
        var d := PreprintDoi(s).value;
        var k :| 3 < k && k + 4 < |d| && d[k] == '/' && IsDigits(d[3..k]);
        assert k + 1 < |d|;
      }
  }

  // ---- title ------------------------------------------------------------------------

  /** `before["']([^"']+)["']`, IGNORECASE. */
  function QuotedAfter(before: seq<Item>): Regexp {
    Grouped(before + [One(Quote)], [Plus(NoneOf({'"', '\''}, false))], [One(Quote)], true)
  }

  /** `before["'«]([^"'»]+)["'»]`, IGNORECASE. */
  function GuillemetAfter(before: seq<Item>): Regexp {
    Grouped(before + [One(OneOf({'"', '\'', '«'}, false))], [Plus(NoneOf({'"', '\'', '»'}, false))],
            [One(OneOf({'"', '\'', '»'}, false))], true)
  }

  const TitlePatterns: seq<Regexp> := [
    QuotedAfter(Lits("titled") + [SomeSpace]),
    QuotedAfter(Lits("titled:") + [SomeSpace]),
    QuotedAfter(Lits("title") + [SomeSpace]),
    QuotedAfter(Lits("title:") + [SomeSpace]),
    QuotedAfter(Lits("publication") + [SomeSpace]),
    QuotedAfter(Lits("publication titled") + [SomeSpace]),
    QuotedAfter(Lits("publication:") + [SomeSpace]),
    QuotedAfter(Lits("publication titled:") + [SomeSpace]),
    QuotedAfter(Lits("article") + [SomeSpace]),
    QuotedAfter(Lits("article titled") + [SomeSpace]),
    QuotedAfter(Lits("paper") + [SomeSpace]),
    QuotedAfter(Lits("paper titled") + [SomeSpace]),
    GuillemetAfter(Lits("title") + [Plus(OneOf({':'}, true))]),
    GuillemetAfter(Lits("Title:") + [Spaces]),
    GuillemetAfter(Lits("Title") + [Spaces])
  ]

  /** Each title group is one run of characters other than the quotes. */
  predicate QuoteFreeGroup(p: Regexp) {
    p.groupEnd == p.groupStart + 1 && p.items[p.groupStart].Rep?
    && p.items[p.groupStart].cls.NoneOf? && !p.items[p.groupStart].cls.spaces
    && '"' in p.items[p.groupStart].cls.chars && '\'' in p.items[p.groupStart].cls.chars
  }

  lemma TitlePatternGroups()
    ensures forall k :: 0 <= k < |TitlePatterns| ==> QuoteFreeGroup(TitlePatterns[k])
  {
  }

  /** `extract_title_from_response`: the first pattern's capture, stripped. */
  function TitleOf(s: string): Option<string> {
    MapOption(FirstCapture(TitlePatterns, s), Strip)
  }

  method ExtractTitle(s: string) returns (title: Option<string>)
    ensures title == TitleOf(s)
  {
    var m := SearchInOrder(TitlePatterns, s);
    title := None;
    if m.Some? {
      title := Some(Strip(m.value));
    }
  }

  /** The first capture of a list of quote-free patterns holds no quote. */
  lemma QuoteFreeCapture(ps: seq<Regexp>, s: string)
    requires forall k :: 0 <= k < |ps| ==> QuoteFreeGroup(ps[k])
    ensures FirstCapture(ps, s).Some? ==>
      '"' !in FirstCapture(ps, s).value && '\'' !in FirstCapture(ps, s).value
  {
    match FirstMatchingFrom(ps, s, 0)
    case None =>
    case Some(k) =>
      var p := ps[k];
      CaptureOfOneItem(p, s);
      var c := Capture(p, s).value;
      assert forall x :: 0 <= x < |c| ==> c[x] !in p.items[p.groupStart].cls.chars;
  }

  /** A found title has no quote in it and no whitespace at either end. */
  lemma TitleShape(s: string)
    ensures TitleOf(s).Some? ==>
      var t := TitleOf(s).value;
      '"' !in t && '\'' !in t && (t != [] ==> !IsSpace(t[0]) && !IsSpace(t[|t| - 1]))
  {
    TitlePatternGroups();
    QuoteFreeCapture(TitlePatterns, s);
  }

  // ---- DOI versions -------------------------------------------------------------------

  /** `v\d+$` */
  const VersionSuffix: Regexp := Whole([One(Lit('v')), Plus(Digit), EndAnchor], false)

  lemma VersionSuffixConsumes()
    ensures Consuming(VersionSuffix)
  {
    assert VersionSuffix.items[0].Rep? && VersionSuffix.items[0].min >= 1;
  }

  /** `re.sub(r'v\d+$', '', doi)` */
  function NormalizeDoi(doi: string): string {
    VersionSuffixConsumes();
    Replace(VersionSuffix, doi, "")
  }

  /** A match of the version suffix is a "v" followed by digits up to the end. */
  lemma VersionMatch(t: string, j: nat, q: seq<nat>)
    ensures Fits(VersionSuffix.items, t, j, q, false) ==>
      j < |t| && t[j] == 'v' && q[1] == j + 1 && j + 1 < q[2] && q[2] == q[3] && AtEnd(t, q[2])
      && forall y :: j + 1 <= y < q[2] ==> IsDigit(t[y])
  {
    var items := VersionSuffix.items;
    if Fits(items, t, j, q, false) {
      SingleStep(items, t, j, q, false, 0);
      assert StepFits(items, t, q, false, 1);
      assert StepFits(items, t, q, false, 2);
    }
  }

  /** Stripping removes exactly one trailing version: "...640382v1" and "...640382v2"
      both become "...640382". */
  lemma NormalizeStripsVersion(d: string, n: string)
    requires IsDigits(n)
    ensures NormalizeDoi(d + "v" + n) == d
  {
    var t := d + "v" + n;
    var items := VersionSuffix.items;
    var L := |d|;
    assert t[L] == 'v' && !IsDigit(t[L]);
    assert forall y :: L < y < |t| ==> t[y] == n[y - L - 1];
    var pos: seq<nat> := [L, L + 1, |t|, |t|];
    assert StepFits(items, t, pos, false, 0);
    assert StepFits(items, t, pos, false, 1);
    assert StepFits(items, t, pos, false, 2);
    forall j: nat, q | j < L ensures !Fits(items, t, j, q, false) {
      VersionMatch(t, j, q);
    }
    SearchAt(VersionSuffix, t, L, pos);
    VersionSuffixConsumes();
    var m := Search(VersionSuffix, t).value;
    assert m[0] == L;
    VersionMatch(t, L, m);
    assert m[3] == |t|;
    assert SearchFrom(VersionSuffix, t, |t|).None?;
    assert ReplaceFrom(VersionSuffix, t, |t|, "") == [];
    assert t[0..L] == d;
  }

  /** No "v" followed by one or more digits running to the end of `t` (or to a final
      newline): the strings `v\d+$` does not match, such as "10.1101/2025.02.26.640382". */
  predicate Unversioned(t: string) {
    forall j, e :: 0 <= j && j + 1 < e <= |t| && AtEnd(t, e) && t[j] == 'v' ==>
      exists y :: j < y < e && !IsDigit(t[y])
  }

  /** A match of the version suffix makes the text versioned. */
  lemma MatchVersioned(t: string, j: nat, q: seq<nat>)
    ensures Fits(VersionSuffix.items, t, j, q, false) ==> !Unversioned(t)
  {
    if Fits(VersionSuffix.items, t, j, q, false) {
      VersionMatch(t, j, q);
      var e := q[2];
      assert j + 1 < e <= |t| && AtEnd(t, e) && t[j] == 'v';
      assert forall y :: j < y < e ==> IsDigit(t[y]);
    }
  }

  /** A text without a version suffix is left unchanged, so an unversioned DOI is its own
      normal form. */
  lemma NormalizeKeeps(d: string)
    requires Unversioned(d)
    ensures NormalizeDoi(d) == d
  {
    var items := VersionSuffix.items;
    forall j: nat, q | j <= |d| ensures !Fits(items, d, j, q, false) {
      MatchVersioned(d, j, q);
    }
    VersionSuffixConsumes();
    assert SearchFrom(VersionSuffix, d, 0).None?;
  }

  /** Conversely, a text (not ending in a newline) that carries a version suffix is
      changed, so normalisation keeps a text exactly when it is unversioned. */
  lemma NormalizeKeepsExactly(t: string)
    requires t == [] || t[|t| - 1] != '\n'
    ensures NormalizeDoi(t) == t <==> Unversioned(t)
  {
    if Unversioned(t) {
      NormalizeKeeps(t);
    } else {
      var j, e :| 0 <= j && j + 1 < e <= |t| && AtEnd(t, e) && t[j] == 'v'
        && forall y :: j < y < e ==> IsDigit(t[y]);
      assert e == |t|;
      var d, n := t[..j], t[j + 1..];
      assert IsDigits(n) by {
        forall x | 0 <= x < |n| ensures IsDigit(n[x]) { assert n[x] == t[j + 1 + x]; }
      }
      assert t == d + "v" + n;
      NormalizeStripsVersion(d, n);
      assert |NormalizeDoi(t)| < |t|;
    }
  }

  /** A text with no "v" at all is unversioned. */
  lemma NoVUnversioned(t: string)
    requires 'v' !in t
    ensures Unversioned(t)
  {
  }

  /** Stripping is not idempotent: it takes one version off "v1v2" and another off
      what remains. */
  lemma NormalizeNotIdempotent()
    ensures NormalizeDoi("10.1/xv1v2") == "10.1/xv1"
    ensures NormalizeDoi(NormalizeDoi("10.1/xv1v2")) == "10.1/x"
  {
    NormalizeStripsVersion("10.1/xv1", "2");
    assert "10.1/xv1" + "v" + "2" == "10.1/xv1v2";
    NormalizeStripsVersion("10.1/x", "1");
    assert "10.1/x" + "v" + "1" == "10.1/xv1";
  }
}
