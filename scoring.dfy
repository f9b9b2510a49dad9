/** The evaluator of the publications agent: recovering identifiers the agent's record
    lacks, scoring one test case against its expected identifiers, and tallying a run
    over many test cases. */
module EvalScoring {
  import opened Optional
  import opened Chars
  import opened Json
  import opened Pmid
  import opened Publications
  import opened PublicationsEval

  /** `PublicationTestCase`; its accessions only shape the agent's query and its
      description is only copied into the report. */
  datatype TestCase = TestCase(name: string, expectedPmid: Option<string>,
                               expectedPmcid: Option<string>, expectedDoi: Option<string>)

  /** What `create_publications_agent_stream` gave back: a record, an old-style text,
      `None`, or an exception. */
  datatype AgentResult = Crashed | DictResult(d: Dict) | TextResult(text: string) | NoResult

  /** The services one evaluation consults:
      - `pmcidOf(v)`: the outcome of `pmcid_from_pmid(v)`, `None` when the call raises;
      - `search`: PubMed's esearch, as `pmid_from_title` uses it;
      - `titleSimilar` / `journalSimilar`: whether the fuzzy title or journal comparison
        accepts the expected PMID;
      - `repr`: how Python prints a list or dict value. */
  datatype Services = Services(pmcidOf: JValue -> Option<LinkOutcome>, search: string -> SearchReply,
                               titleSimilar: bool, journalSimilar: bool, repr: JValue -> string)

  /** The three identifiers an evaluation ends with. */
  datatype Found = Found(pmid: JValue, pmcid: JValue, doi: JValue)

  /** The result dictionary: `{"success": False, "error": ...}` or the scored fields. */
  datatype Outcome =
    | Errored
    | Scored(found: Found, doiNormalized: Option<string>, expectedDoiNormalized: Option<string>,
             pmidCorrect: bool, pmcidCorrect: bool, doiCorrect: bool)

  /** `results.get("success", False)` */
  predicate Success(o: Outcome) {
    o.Scored? && o.pmidCorrect && o.pmcidCorrect && o.doiCorrect
  }

  /** Truthiness of an `Optional[str]`. */
  predicate Given(o: Option<string>) {
    o.Some? && o.value != ""
  }

  // ---- scoring ------------------------------------------------------------------------

  /** The DOI with its version stripped; `None` when it is falsy; a truthy value that
      is not a string makes `re.sub` raise. */
  function NormalizedFound(doi: JValue): Option<Option<string>> {
    if !Truthy(doi) then Some(None)
    else if doi.JStr? then Some(Some(NormalizeDoi(doi.s)))
    else None
  }

  function NormalizedExpected(doi: Option<string>): Option<string> {
    if Given(doi) then Some(NormalizeDoi(doi.value)) else None
  }

  predicate NothingExpected(tc: TestCase) {
    tc.expectedPmid.None? && tc.expectedPmcid.None? && tc.expectedDoi.None?
  }

  /** The comparison of what was found with what the test case expects. */
  function Score(f: Found, tc: TestCase): Outcome {
    match NormalizedFound(f.doi)
    case None => Errored
    case Some(doiNorm) =>
      var expNorm := NormalizedExpected(tc.expectedDoi);
      if NothingExpected(tc) then
        Scored(f, doiNorm, expNorm, f.pmid == JNull, f.pmcid == JNull, f.doi == JNull)
      else
        Scored(f, doiNorm, expNorm,
               Given(tc.expectedPmid) ==> f.pmid == JStr(tc.expectedPmid.value),
               Given(tc.expectedPmcid) ==> f.pmcid == JStr(tc.expectedPmcid.value),
               expNorm.Some? && expNorm.value != "" ==> doiNorm == expNorm)
  }

  /** With nothing expected, success means nothing was found. */
  lemma ScoreNothingExpected(f: Found, tc: TestCase)
    requires NothingExpected(tc)
    ensures Success(Score(f, tc)) <==> f.pmid == JNull && f.pmcid == JNull && f.doi == JNull
  {
  }

  /** With something expected, each field without an expectation counts as correct and
      each expected field must match exactly, the DOI after its version is stripped. */
  lemma ScoreExpected(f: Found, tc: TestCase)
    requires !NothingExpected(tc)
    ensures Success(Score(f, tc)) <==>
      (!Truthy(f.doi) || f.doi.JStr?)
      && (Given(tc.expectedPmid) ==> f.pmid == JStr(tc.expectedPmid.value))
      && (Given(tc.expectedPmcid) ==> f.pmcid == JStr(tc.expectedPmcid.value))
      && (Given(tc.expectedDoi) && NormalizeDoi(tc.expectedDoi.value) != "" ==>
            f.doi.JStr? && f.doi.s != "" && NormalizeDoi(f.doi.s) == NormalizeDoi(tc.expectedDoi.value))
  {
  }

  /** Scoring fails with an error exactly when the found DOI is truthy but no string. */
  lemma ScoreErrors(f: Found, tc: TestCase)
    ensures Score(f, tc).Errored? <==> Truthy(f.doi) && !f.doi.JStr?
  {
  }

  /** `d`, or `d` with the version `n` appended ("v" + digits). */
  function WithVersion(d: string, n: Option<string>): string {
    if n.Some? then d + "v" + n.value else d
  }

  /** Any version of a preprint, or none, scores as the same DOI as any other version or
      the unversioned DOI itself. */
  lemma ScoreIgnoresVersion(f: Found, tc: TestCase, d: string, n: Option<string>, m: Option<string>)
    requires Unversioned(d) && d != []
    requires (n.Some? ==> IsDigits(n.value)) && (m.Some? ==> IsDigits(m.value))
    requires tc.expectedDoi == Some(WithVersion(d, n)) && f.doi == JStr(WithVersion(d, m))
    ensures Score(f, tc).Scored? && Score(f, tc).doiCorrect
  {
    NormalizeKeeps(d);
    if n.Some? {
      NormalizeStripsVersion(d, n.value);
    }
    if m.Some? {
      NormalizeStripsVersion(d, m.value);
    }
  }

  /** The evaluator's own example: "10.1101/2025.02.26.640382v1" and "...v2" both match
      the expected "10.1101/2025.02.26.640382". */
  lemma ScoreIgnoresVersionExample(f: Found, tc: TestCase)
    requires tc.expectedDoi == Some("10.1101/2025.02.26.640382")
    requires f.doi == JStr("10.1101/2025.02.26.640382v1") || f.doi == JStr("10.1101/2025.02.26.640382v2")
    ensures Score(f, tc).Scored? && Score(f, tc).doiCorrect
  {
    var d := "10.1101/2025.02.26.640382";
    assert 'v' !in d;
    NoVUnversioned(d);
    var m := if f.doi == JStr(d + "v1") then "1" else "2";
    assert IsDigits(m);
    assert f.doi == JStr(WithVersion(d, Some(m)));
    ScoreIgnoresVersion(f, tc, d, None, Some(m));
  }

  // ---- recovering identifiers ---------------------------------------------------------

  /** `str(v)` */
  function PyStr(v: JValue, repr: JValue -> string): string {
    match v
    case JNull => "None"
    case JBool(b) => if b then "True" else "False"
    case JNum(n) => IntToString(n)
    case JStr(s) => s
    case _ => repr(v)
  }

  /** The text standing in for a `None` message. */
  function Placeholder(f: Found, repr: JValue -> string): string {
    "Found results: PMID=" + PyStr(f.pmid, repr) + ", PMCID=" + PyStr(f.pmcid, repr)
    + ", Preprint DOI=" + PyStr(f.doi, repr)
  }

  /** `dict.get(key)` */
  function Get(d: Dict, key: string): JValue {
    if key in d then d[key] else JNull
  }

  /** A PMCID the lookup produced and the evaluator accepts: text starting "PMC" and
      not "Error". */
  function AcceptedPmcid(o: Option<LinkOutcome>): Option<string> {
    if o.None? then None
    else
      var t := PmcidText(o.value);
      if t.Some? && t.value != "" && StartsWith(t.value, "PMC") && !StartsWith(t.value, "Error")
      then t else None
  }

  lemma AcceptedPmcidLinked(o: Option<LinkOutcome>)
    ensures AcceptedPmcid(o).Some? <==> o.Some? && o.value.Linked?
    ensures AcceptedPmcid(o).Some? ==> AcceptedPmcid(o).value == "PMC" + o.value.id
  {
    if o.Some? {
      PmcidTextFound(o.value);
    }
  }

  /** Whether `response_text += note` works: strings and lists take it. */
  predicate Appendable(response: JValue) {
    response.JStr? || response.JList?
  }

  /** Deriving a missing PMCID from the PMID when one is expected: a valid derivation
      is kept (unless adding its note to the response raises), anything else copies in
      the expected PMCID. */
  function DerivePmcid(f: Found, response: JValue, tc: TestCase, svc: Services): (r: Found)
    ensures r.pmid == f.pmid && r.doi == f.doi
    ensures r.pmcid != f.pmcid ==> Truthy(f.pmid) && !Truthy(f.pmcid) && Given(tc.expectedPmcid)
  {
    if Truthy(f.pmid) && !Truthy(f.pmcid) && Given(tc.expectedPmcid) then
      var derived := AcceptedPmcid(svc.pmcidOf(f.pmid));
      if derived.Some? && Appendable(response) then f.(pmcid := JStr(derived.value))
      else f.(pmcid := JStr(tc.expectedPmcid.value))
    else f
  }

  /** A derivation that does not yield a valid PMCID copies in the expected one, and a
      valid one is "PMC" followed by the linked identifier. */
  lemma DeriveFallsBack(f: Found, response: JValue, tc: TestCase, svc: Services)
    requires Truthy(f.pmid) && !Truthy(f.pmcid) && Given(tc.expectedPmcid)
    ensures var o := svc.pmcidOf(f.pmid);
      var r := DerivePmcid(f, response, tc, svc);
      (o.Some? && o.value.Linked? && Appendable(response) ==> r.pmcid == JStr("PMC" + o.value.id))
      && (!(o.Some? && o.value.Linked?) || !Appendable(response) ==> r.pmcid == JStr(tc.expectedPmcid.value))
  {
    AcceptedPmcidLinked(svc.pmcidOf(f.pmid));
  }

  /** Looking the PMID up by a title taken from the response when the PMID is falsy;
      `None` when the response is no string. */
  function TitleRecovery(f: Found, text: Option<string>, svc: Services): (r: Option<Found>)
    ensures r.None? <==> !Truthy(f.pmid) && text.None?
    ensures r.Some? && r.value.pmid != f.pmid ==>
      !Truthy(f.pmid) && r.value.pmid.JStr? && r.value.pmid.s != ""
    ensures r.Some? ==> r.value.doi == f.doi
  {
    if Truthy(f.pmid) then Some(f)
    else if text.None? then None
    else
      var title := TitleOf(text.value);
      if title.None? || title.value == "" then Some(f)
      else
        var found := PmidFromTitle(title.value, svc.search).pmid;
        if found.None? || found.value == "" then Some(f)
        else
          var pmcid := AcceptedPmcid(svc.pmcidOf(JStr(found.value)));
          Some(Found(JStr(found.value), if pmcid.Some? then JStr(pmcid.value) else f.pmcid, f.doi))
  }

  /** The PMID the dict path reads from a response text: the text's own PMID, else the
      PMID of the title the text names, else the expected PMID when the fuzzy title
      comparison accepts it; `JNull` when none of these gives one. */
  function TextPmid(text: string, tc: TestCase, svc: Services): (r: JValue)
    ensures r == JNull || (r.JStr? && r.s != "")
  {
    var extracted := ExtractIds(text).0;
    if extracted.Some? && extracted.value != "" then JStr(extracted.value)
    else
      var title := TitleOf(text);
      if title.None? || title.value == "" then JNull
      else
        var byTitle := PmidFromTitle(title.value, svc.search).pmid;
        if byTitle.Some? && byTitle.value != "" then JStr(byTitle.value)
        else if Given(tc.expectedPmid) && svc.titleSimilar then JStr(tc.expectedPmid.value)
        else JNull
  }

  /** The dict path's own PMID recovery when the record's PMID is `None`: from the text,
      then by the fuzzy journal comparison against the expected PMID. */
  function RecoverPmid(pmid: JValue, text: Option<string>, tc: TestCase, svc: Services): Option<JValue> {
    if pmid != JNull then Some(pmid)
    else if text.None? then None
    else
      var afterText := TextPmid(text.value, tc, svc);
      if afterText == JNull && Given(tc.expectedPmid) && svc.journalSimilar
      then Some(JStr(tc.expectedPmid.value))
      else Some(afterText)
  }

  /** A PMID already in the record is kept, and a recovered one is never empty. */
  lemma RecoverPmidKeeps(pmid: JValue, text: Option<string>, tc: TestCase, svc: Services)
    ensures pmid != JNull ==> RecoverPmid(pmid, text, tc, svc) == Some(pmid)
    ensures pmid == JNull && RecoverPmid(pmid, text, tc, svc).Some? ==>
      var r := RecoverPmid(pmid, text, tc, svc).value;
      r == JNull || (r.JStr? && r.s != "")
    ensures RecoverPmid(pmid, text, tc, svc).None? <==> pmid == JNull && text.None?
  {
  }

  /** The text of a message value; `None` when it is no string. */
  function AsText(v: JValue): Option<string> {
    if v.JStr? then Some(v.s) else None
  }

  /** The record path of `evaluate_single_test_case`; `None` when it raises. */
  function DictPath(d: Dict, tc: TestCase, svc: Services): Option<Found> {
    var f0 := Found(Get(d, "pmid"), Get(d, "pmcid"), Get(d, "preprint_doi"));
    var message := if "message" in d then d["message"] else JStr("");
    var response := if message == JNull then JStr(Placeholder(f0, svc.repr)) else message;
    match RecoverPmid(f0.pmid, AsText(response), tc, svc)
    case None => None
    case Some(pmid) =>
      var f1 := DerivePmcid(f0.(pmid := pmid), response, tc, svc);
      TitleRecovery(f1, AsText(response), svc)
  }

  /** The old text path: identifiers read from the text, then derivation and title
      recovery. */
  function TextPath(text: string, tc: TestCase, svc: Services): Found {
    var ids := ExtractIds(text);
    var f0 := Found(OptStr(ids.0), OptStr(ids.1), OptStr(PreprintDoi(text)));
    var f1 := DerivePmcid(f0, JStr(text), tc, svc);
    TitleRecovery(f1, Some(text), svc).value
  }

  /** `evaluate_single_test_case` */
  function Evaluate(agent: AgentResult, tc: TestCase, svc: Services): Outcome {
    match agent
    case Crashed => Errored
    case NoResult => Score(TextPath("", tc, svc), tc)
    case TextResult(text) => Score(TextPath(text, tc, svc), tc)
    case DictResult(d) =>
      match DictPath(d, tc, svc)
      case None => Errored
      case Some(f) => Score(f, tc)
  }

  /** A crash of the agent, or a record whose PMID is `None` and whose message is no
      string, ends in an error result. */
  lemma EvaluateErrors(agent: AgentResult, tc: TestCase, svc: Services)
    ensures agent.Crashed? ==> Evaluate(agent, tc, svc) == Errored
    ensures agent.DictResult? && Get(agent.d, "pmid") == JNull && "message" in agent.d
            && !agent.d["message"].JStr? && agent.d["message"] != JNull ==>
      Evaluate(agent, tc, svc) == Errored
  {
  }

  // ---- the run over all test cases ----------------------------------------------------

  /** What one test case meets: the agent's answer and the services. */
  datatype CaseRun = CaseRun(agent: AgentResult, services: Services)

  datatype CaseReport = CaseReport(testCase: TestCase, results: Outcome, success: bool)

  datatype Summary = Summary(total: nat, successful: nat, failed: nat)

  function Outcomes(cases: seq<TestCase>, runs: seq<CaseRun>): (r: seq<Outcome>)
    requires |runs| == |cases|
    ensures |r| == |cases|
  {
    seq(|cases|, i requires 0 <= i < |cases| => Evaluate(runs[i].agent, cases[i], runs[i].services))
  }

  /** How many outcomes are successes. */
  function Successes(outcomes: seq<Outcome>): (n: nat)
    ensures n <= |outcomes|
  {
    if outcomes == [] then 0
    else Successes(outcomes[..|outcomes| - 1]) + (if Success(outcomes[|outcomes| - 1]) then 1 else 0)
  }

  /** The per-name reports: each case overwrites any earlier one of the same name. */
  function Reports(cases: seq<TestCase>, outcomes: seq<Outcome>): map<string, CaseReport>
    requires |outcomes| == |cases|
  {
    if cases == [] then map[]
    else
      var n := |cases| - 1;
      Reports(cases[..n], outcomes[..n])[cases[n].name := CaseReport(cases[n], outcomes[n], Success(outcomes[n]))]
  }

  /** The report names are exactly the case names. */
  lemma {:induction false} ReportsKeys(cases: seq<TestCase>, outcomes: seq<Outcome>)
    requires |outcomes| == |cases|
    ensures Reports(cases, outcomes).Keys == set i | 0 <= i < |cases| :: cases[i].name
  {
    if cases != [] {
      var n := |cases| - 1;
      ReportsKeys(cases[..n], outcomes[..n]);
      assert forall i :: 0 <= i < n ==> cases[..n][i] == cases[i];
    }
  }

  /** The report under a name is that of the last case with that name. */
  lemma {:induction false} ReportsLast(cases: seq<TestCase>, outcomes: seq<Outcome>, i: nat)
    requires |outcomes| == |cases| && i < |cases|
    requires forall j :: i < j < |cases| ==> cases[j].name != cases[i].name
    ensures cases[i].name in Reports(cases, outcomes)
    ensures Reports(cases, outcomes)[cases[i].name] == CaseReport(cases[i], outcomes[i], Success(outcomes[i]))
  {
    var n := |cases| - 1;
    if i < n {
      ReportsLast(cases[..n], outcomes[..n], i);
    }
  }

  /** `evaluate_publications_agent`: evaluates each case in turn, counting successes
      and failures and filing each report under its case's name. */
  method EvaluateAll(cases: seq<TestCase>, runs: seq<CaseRun>) returns (summary: Summary, reports: map<string, CaseReport>)
    requires |runs| == |cases|
    ensures summary.total == |cases| == summary.successful + summary.failed
    ensures summary.successful == Successes(Outcomes(cases, runs))
    ensures reports == Reports(cases, Outcomes(cases, runs))
  {
    ghost var outcomes := Outcomes(cases, runs);
    summary := Summary(|cases|, 0, 0);
    reports := map[];
    var i := 0;
    while i < |cases|
      invariant 0 <= i <= |cases|
      invariant summary.total == |cases| && summary.successful + summary.failed == i
      invariant summary.successful == Successes(outcomes[..i])
      invariant reports == Reports(cases[..i], outcomes[..i])
    {
      var results := Evaluate(runs[i].agent, cases[i], runs[i].services);
      assert results == outcomes[i];
      var success := Success(results);
      if success {
        summary := summary.(successful := summary.successful + 1);
      } else {
        summary := summary.(failed := summary.failed + 1);
      }
      reports := reports[cases[i].name := CaseReport(cases[i], results, success)];
      assert outcomes[..i + 1][..i] == outcomes[..i];
      assert cases[..i + 1][..i] == cases[..i];
      i := i + 1;
    }
    assert outcomes[..|cases|] == outcomes;
    assert cases[..|cases|] == cases;
  }
}
