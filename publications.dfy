/**
  Identifier extraction from the publications agent's free-text answer
  (`extract_pmid_pmcid`; the evaluator carries a verbatim copy). Strict patterns are
  tried in list order and the first that matches wins; a looser pattern is tried only
  when no strict one matched. All patterns are case-insensitive.
 */
module Publications {
  import opened Optional
  import opened Chars
  import opened Regex

  // ---- the patterns -----------------------------------------------------------

  const Colon := Opt(Lit(':'))                   // :?
  const Spaces := Star(Space)                    // \s*
  const SomeSpace := Plus(Space)                 // \s+
  const ColonsOrSpaces := Star(OneOf({':'}, true))  // [:\s]*

  /** A capture group that is one `\d+`. */
  predicate DigitsGroup(p: Regexp) {
    p.groupEnd == p.groupStart + 1 && p.items[p.groupStart] == Plus(Digit)
  }

  /** A capture group that is `PMC\d+`. */
  predicate PmcDigitsGroup(p: Regexp) {
    p.groupEnd == p.groupStart + 4 && p.items[p.groupStart..p.groupEnd] == Lits("PMC") + [Plus(Digit)]
  }

  /** `before(\d+)`, IGNORECASE. */
  function DigitsAfter(before: seq<Item>): (p: Regexp)
    ensures DigitsGroup(p) && p.ignoreCase
  {
    Grouped(before, [Plus(Digit)], [], true)
  }

  /** `before(PMC\d+)`, IGNORECASE. */
  function PmcDigitsAfter(before: seq<Item>): (p: Regexp)
    ensures PmcDigitsGroup(p) && p.ignoreCase
  {
    Grouped(before, Lits("PMC") + [Plus(Digit)], [], true)
  }

  const PmidPatterns: seq<Regexp> := [
    DigitsAfter(Lits("PMID") + [Colon, Spaces]),
    DigitsAfter(Lits("PMID") + [SomeSpace]),
    DigitsAfter(Lits("PMID") + [ColonsOrSpaces]),
    DigitsAfter(Lits("PubMed ID") + [Colon, Spaces]),
    DigitsAfter(Lits("PubMed") + [SomeSpace] + Lits("ID") + [Colon, Spaces]),
    DigitsAfter(Lits("**PMID:**") + [Spaces]),
    DigitsAfter(Lits("**PMID**") + [Colon, Spaces]),
    DigitsAfter(Lits("- **PMID:**") + [Spaces]),
    DigitsAfter(Lits("- **PMID**") + [Colon, Spaces])
  ]

  const PmcidPatterns: seq<Regexp> := [
    PmcDigitsAfter(Lits("PMCID") + [Colon, Spaces]),
    PmcDigitsAfter(Lits("PMCID") + [SomeSpace]),
    PmcDigitsAfter(Lits("PMCID") + [ColonsOrSpaces]),
    DigitsAfter(Lits("PMC") + [Colon, Spaces]),
    PmcDigitsAfter(Lits("PMC") + [SomeSpace] + Lits("ID") + [Colon, Spaces]),
    DigitsAfter(Lits("PMC") + [SomeSpace] + Lits("ID") + [Colon, Spaces]),
    PmcDigitsAfter(Lits("**PMCID:**") + [Spaces]),
    PmcDigitsAfter(Lits("**PMCID**") + [Colon, Spaces]),
    PmcDigitsAfter(Lits("- **PMCID:**") + [Spaces]),
    PmcDigitsAfter(Lits("- **PMCID**") + [Colon, Spaces])
  ]

  /** `PMID.*?(\d+)` */
  const GeneralPmid := DigitsAfter(Lits("PMID") + [LazyStar(AnyButNewline)])

  /** `PMC.*?(\d+)` */
  const GeneralPmcid := DigitsAfter(Lits("PMC") + [LazyStar(AnyButNewline)])

  lemma PatternGroups()
    ensures forall k :: 0 <= k < |PmidPatterns| ==> DigitsGroup(PmidPatterns[k])
    ensures forall k :: 0 <= k < |PmcidPatterns| ==> DigitsGroup(PmcidPatterns[k]) || PmcDigitsGroup(PmcidPatterns[k])
    ensures forall k :: 0 <= k < |PmcidPatterns| ==> PmcidPatterns[k].ignoreCase
    ensures DigitsGroup(GeneralPmid) && DigitsGroup(GeneralPmcid)
  {
  }

  // ---- first match wins -------------------------------------------------------

  /** Index of the first pattern of `ps[from..]` that matches `s`. */
  function FirstMatchingFrom(ps: seq<Regexp>, s: string, from: nat): (r: Option<nat>)
    requires from <= |ps|
    ensures r.Some? ==> from <= r.value < |ps| && Capture(ps[r.value], s).Some?
    ensures r.Some? ==> forall j :: from <= j < r.value ==> Capture(ps[j], s).None?
    ensures r.None? ==> forall j :: from <= j < |ps| ==> Capture(ps[j], s).None?
    decreases |ps| - from
  {
    if from == |ps| then None
    else if Capture(ps[from], s).Some? then Some(from)
    else FirstMatchingFrom(ps, s, from + 1)
  }

  /** What the first pattern of `ps` to match `s` captures. */
  function FirstCapture(ps: seq<Regexp>, s: string): Option<string> {
    match FirstMatchingFrom(ps, s, 0)
    case Some(k) => Capture(ps[k], s)
    case None => None
  }

  /** A captured PMCID kept as is when it starts with "PMC", prefixed otherwise. */
  function AsPmcid(c: string): (r: string)
    ensures StartsWith(r, "PMC")
    ensures StartsWith(c, "PMC") ==> r == c
    ensures !StartsWith(c, "PMC") ==> r == "PMC" + c
  {
    if StartsWith(c, "PMC") then c else StartsWithConcat("PMC", c); "PMC" + c
  }

  function MapOption(o: Option<string>, f: string -> string): Option<string> {
    match o
    case Some(v) => Some(f(v))
    case None => None
  }

  /** The (pmid, pmcid) pair `extract_pmid_pmcid` returns. */
  function ExtractIds(s: string): (Option<string>, Option<string>) {
    var strictPmid := FirstCapture(PmidPatterns, s);
    var strictPmcid := MapOption(FirstCapture(PmcidPatterns, s), AsPmcid);
    var pmid := if strictPmid.None? then Capture(GeneralPmid, s) else strictPmid;
    var pmcid := if strictPmcid.None? then MapOption(Capture(GeneralPmcid, s), c => "PMC" + c) else strictPmcid;
    (pmid, pmcid)
  }

  /** `for pattern in patterns: match = re.search(...); if match: ...; break`. */
  method SearchInOrder(ps: seq<Regexp>, s: string) returns (m: Option<string>)
    ensures m == FirstCapture(ps, s)
  {
    m := None;
    var i := 0;
    while i < |ps|
      invariant 0 <= i <= |ps|
      invariant m.None? && forall j :: 0 <= j < i ==> Capture(ps[j], s).None?
    {
      var c := Capture(ps[i], s);
      if c.Some? {
        m := c;
        break;
      }
      i := i + 1;
    }
  }

  /** The strict pattern lists in order, then the general fallbacks. */
  method ExtractPmidPmcid(s: string) returns (pmid: Option<string>, pmcid: Option<string>)
    ensures (pmid, pmcid) == ExtractIds(s)
  {
    pmid := SearchInOrder(PmidPatterns, s);
    var c := SearchInOrder(PmcidPatterns, s);
    pmcid := None;
    if c.Some? {
      var v := c.value;
      if !StartsWith(v, "PMC") {
        v := "PMC" + v;
      }
      pmcid := Some(v);
    }
    if pmid.None? {
      pmid := Capture(GeneralPmid, s);
    }
    if pmcid.None? {
      var m := Capture(GeneralPmcid, s);
      if m.Some? {
        pmcid := Some("PMC" + m.value);
      }
    }
  }

  // ---- what the extracted ids look like ----------------------------------------

  /** A `\d+` group captures a non-empty run of digits. */
  lemma DigitsCapture(p: Regexp, s: string)
    requires DigitsGroup(p)
    ensures Capture(p, s).Some? ==> IsDigits(Capture(p, s).value)
  {
    CaptureOfOneItem(p, s);
  }

  /** The four items of a `PMC\d+` group, one by one. */
  lemma PmcItems(items: seq<Item>, g: nat)
    requires g + 4 <= |items| && items[g..g + 4] == Lits("PMC") + [Plus(Digit)]
    ensures items[g] == Rep(Lit('P'), 1, Some(1), true) && items[g + 1] == Rep(Lit('M'), 1, Some(1), true)
    ensures items[g + 2] == Rep(Lit('C'), 1, Some(1), true) && items[g + 3] == Plus(Digit)
  {
    assert items[g] == items[g..g + 4][0];
    assert items[g + 1] == items[g..g + 4][1];
    assert items[g + 2] == items[g..g + 4][2];
    assert items[g + 3] == items[g..g + 4][3];
  }

  /** Text matched by `PMC\d+` with IGNORECASE. */
  lemma PmcText(c: string)
    requires |c| > 3 && InClass(Lit('P'), c[0], true) && InClass(Lit('M'), c[1], true)
    requires InClass(Lit('C'), c[2], true) && forall x :: 3 <= x < |c| ==> IsDigit(c[x])
    ensures Lower(c[..3]) == "pmc" && IsDigits(c[3..])
  {
    assert c[..3] == [c[0], c[1], c[2]];
    assert forall x :: 0 <= x < |c| - 3 ==> c[3..][x] == c[x + 3];
  }

  /** A `PMC\d+` group captures "PMC" in any letter case followed by digits. */
  lemma PmcDigitsCapture(p: Regexp, s: string)
    requires PmcDigitsGroup(p) && p.ignoreCase
    ensures Capture(p, s).Some? ==>
      var c := Capture(p, s).value;
      |c| > 3 && Lower(c[..3]) == "pmc" && IsDigits(c[3..])
  {
    match Search(p, s)
    case None =>
    case Some(pos) =>
      var g := p.groupStart;
      var items := p.items;
      PmcItems(items, g);
      SingleStep(items, s, pos[0], pos, true, g);
      SingleStep(items, s, pos[0], pos, true, g + 1);
      SingleStep(items, s, pos[0], pos, true, g + 2);
      assert StepFits(items, s, pos, true, g + 3);
      var c := s[pos[g]..pos[g + 4]];
      assert Capture(p, s) == Some(c);
      assert c[0] == s[pos[g]] && c[1] == s[pos[g] + 1] && c[2] == s[pos[g] + 2];
      assert forall x :: 3 <= x < |c| ==> c[x] == s[pos[g] + x];
      PmcText(c);
  }

  /** A found PMID is a non-empty run of digits. */
  lemma PmidIsDigits(s: string)
    ensures ExtractIds(s).0.Some? ==> IsDigits(ExtractIds(s).0.value)
  {
    PatternGroups();
    match FirstMatchingFrom(PmidPatterns, s, 0)
    case Some(k) => DigitsCapture(PmidPatterns[k], s);
    case None => DigitsCapture(GeneralPmid, s);
  }

  /** "PMC" followed by digits, or by "PMC" in another letter case and then digits. */
  predicate PmcidShaped(v: string) {
    StartsWith(v, "PMC")
    && (IsDigits(v[3..]) || (|v| > 6 && Lower(v[3..6]) == "pmc" && v[3..6] != "PMC" && IsDigits(v[6..])))
  }

  /** The PMCID kept from one strict pattern's capture has that shape. */
  lemma StrictPmcidShape(p: Regexp, s: string)
    requires (DigitsGroup(p) || PmcDigitsGroup(p)) && p.ignoreCase
    requires Capture(p, s).Some?
    ensures PmcidShaped(AsPmcid(Capture(p, s).value))
  {
    var c := Capture(p, s).value;
    if DigitsGroup(p) {
      DigitsCapture(p, s);
      assert !StartsWith(c, "PMC") by { assert IsDigit(c[0]); }
      assert ("PMC" + c)[3..] == c;
    } else {
      PmcDigitsCapture(p, s);
      if !StartsWith(c, "PMC") {
        var v := "PMC" + c;
        assert v[3..6] == c[..3] && v[6..] == c[3..];
      }
    }
  }

  /** A found PMCID starts with "PMC" and continues with digits, or with a second
      "PMC" in another letter case (a lower-case capture is prefixed, not replaced). */
  lemma PmcidShape(s: string)
    ensures ExtractIds(s).1.Some? ==>
      var v := ExtractIds(s).1.value;
      StartsWith(v, "PMC")
      && (IsDigits(v[3..]) || (|v| > 6 && Lower(v[3..6]) == "pmc" && v[3..6] != "PMC" && IsDigits(v[6..])))
  {
    PatternGroups();
    match FirstMatchingFrom(PmcidPatterns, s, 0)
    case Some(k) =>
      StrictPmcidShape(PmcidPatterns[k], s);
      assert PmcidShaped(ExtractIds(s).1.value);
    case None =>
      DigitsCapture(GeneralPmcid, s);
      if Capture(GeneralPmcid, s).Some? {
        var c := Capture(GeneralPmcid, s).value;
        assert ("PMC" + c)[3..] == c;
        StartsWithConcat("PMC", c);
      }
  }

  /** The loose fallbacks are consulted only when no strict pattern matched. */
  lemma StrictBeforeGeneral(s: string, k: nat)
    requires k < |PmidPatterns| && Capture(PmidPatterns[k], s).Some?
    ensures ExtractIds(s).0 == FirstCapture(PmidPatterns, s)
    ensures exists j :: 0 <= j <= k && ExtractIds(s).0 == Capture(PmidPatterns[j], s)
  {
    var j := FirstMatchingFrom(PmidPatterns, s, 0).value;
    assert j <= k;
  }

  /** The lower-case capture the IGNORECASE flag lets through is prefixed, not
      normalised: "pmc123" becomes "PMCpmc123". */
  lemma LowerCaseCapturePrefixed()
    ensures AsPmcid("pmc123") == "PMCpmc123"
  {
    assert "pmc123"[..3] != "PMC" by { assert "pmc123"[0] == 'p'; }
  }
}
