/**
  The deterministic half of `create_publications_agent_stream`: how the agent's final
  answer becomes a result record. The text is tagged with how the publication was
  found, split into per-publication sections when it reports several, and then either
  parsed as JSON (the `{...}` span) or, when that fails, mined with patterns. In both
  paths a PMCID without a PMID triggers a PMID lookup.

  `json.loads` is the oracle `decode` (None when it raises); the one `pmid_from_pmcid`
  call is the oracle `lookup`, the outcome of the link lookup (None when the call
  raises).
 */
module PublicationStream {
  import opened Optional
  import opened Chars
  import opened Regex
  import opened Json
  import opened Pmid
  import opened Publications

  // ---- how the publication was found ------------------------------------------

  predicate DirectLinkPhrase(text: string) {
    Contains(text, "linked in GEO") || Contains(text, "linked in SRA")
    || Contains(text, "linked in ArrayExpress") || Contains(text, "direct link")
    || Contains(text, "elink")
  }

  predicate SearchPhrase(text: string) {
    Contains(text, "Google search") || Contains(text, "searched for") || Contains(text, "found through search")
  }

  function SourceTag(text: string): (r: string)
    ensures r == "direct_link" || r == "google_search" || r == "not_found" || r == "unknown"
  {
    if Contains(text, "SOURCE: DIRECT_LINK") then "direct_link"
    else if Contains(text, "SOURCE: GOOGLE_SEARCH") then "google_search"
    else if Contains(text, "SOURCE: NOT_FOUND") then "not_found"
    else if DirectLinkPhrase(text) then "direct_link"
    else if SearchPhrase(text) then "google_search"
    else "unknown"
  }

  /** Explicit tags beat phrases, and earlier tags beat later ones. */
  lemma SourceTagPrecedence(text: string)
    ensures Contains(text, "SOURCE: DIRECT_LINK") ==> SourceTag(text) == "direct_link"
    ensures SourceTag(text) == "not_found" <==>
      Contains(text, "SOURCE: NOT_FOUND") && !Contains(text, "SOURCE: DIRECT_LINK")
      && !Contains(text, "SOURCE: GOOGLE_SEARCH")
    ensures SourceTag(text) == "google_search" ==>
      Contains(text, "SOURCE: GOOGLE_SEARCH") || (SearchPhrase(text) && !DirectLinkPhrase(text))
    ensures SourceTag(text) == "unknown" <==>
      !Contains(text, "SOURCE: DIRECT_LINK") && !Contains(text, "SOURCE: GOOGLE_SEARCH")
      && !Contains(text, "SOURCE: NOT_FOUND") && !DirectLinkPhrase(text) && !SearchPhrase(text)
  {
  }

  // ---- several publications -----------------------------------------------------

  /** "multiple publications", "several publications" or "found multiple", in any case. */
  predicate MentionsMultiple(text: string) {
    Contains(Lower(text), "multiple publications") || Contains(Lower(text), "several publications")
    || Contains(Lower(text), "found multiple")
  }

  /** `Publication \d+:|Paper \d+:` */
  const Splitters: seq<Regexp> := [
    Whole(Lits("Publication ") + [Plus(Digit)] + Lits(":"), false),
    Whole(Lits("Paper ") + [Plus(Digit)] + Lits(":"), false)
  ]

  lemma SplittersConsume()
    ensures forall k :: 0 <= k < |Splitters| ==> Consuming(Splitters[k])
  {
    assert Splitters[0].items[0].Rep? && Splitters[0].items[0].min >= 1;
    assert Splitters[1].items[0].Rep? && Splitters[1].items[0].min >= 1;
  }

  /** `titled\s+"([^"]+)"` */
  const TitlePattern: Regexp :=
    Grouped(Lits("titled") + [Plus(Space), One(Lit('"'))], [Plus(NoneOf({'"'}, false))], [One(Lit('"'))], false)

  /** The text between the markers, the introduction before the first one dropped. */
  function Sections(text: string): seq<string> {
    SplittersConsume();
    Split(Splitters, text)[1..]
  }

  /** An entry of `all_publications`: the three keys, and an identifier among them. */
  predicate IsEntry(v: JValue) {
    v.JObject? && v.fields.Keys == {"pmid", "pmcid", "title"}
    && (v.fields["pmid"] != JNull || v.fields["pmcid"] != JNull)
  }

  /** One entry of `all_publications`. */
  function Entry(pmid: Option<string>, pmcid: Option<string>, title: Option<string>): (v: JValue)
    ensures pmid.Some? || pmcid.Some? ==> IsEntry(v)
  {
    JObject(map["pmid" := OptStr(pmid), "pmcid" := OptStr(pmcid), "title" := OptStr(title)])
  }

  /** What a section yields: its PMID, its PMCID and its title. */
  datatype Parsed = Parsed(pmid: Option<string>, pmcid: Option<string>, title: Option<string>)

  /** `extract_pmid_pmcid` and the title pattern applied to one section. */
  function Parse(section: string): (p: Parsed)
    ensures (p.pmid, p.pmcid) == ExtractIds(section)
  {
    var ids := ExtractIds(section);
    Parsed(ids.0, ids.1, Capture(TitlePattern, section))
  }

  /** A section that yields a PMID or a PMCID. */
  predicate HasIds(p: Parsed) {
    p.pmid.Some? || p.pmcid.Some?
  }

  /** An entry for each section that yields a PMID or a PMCID, in order. */
  function Entries(parsed: seq<Parsed>): (r: seq<JValue>)
    ensures |r| <= |parsed|
    ensures forall k :: 0 <= k < |r| ==> IsEntry(r[k])
  {
    if parsed == [] then []
    else
      var rest := Entries(parsed[..|parsed| - 1]);
      var last := parsed[|parsed| - 1];
      if HasIds(last) then rest + [Entry(last.pmid, last.pmcid, last.title)]
      else rest
  }

  /** Only sections without any identifier are skipped. */
  lemma {:induction false} EntriesSkipOnlyIdless(parsed: seq<Parsed>)
    ensures |Entries(parsed)| == |parsed| <==> forall k :: 0 <= k < |parsed| ==> HasIds(parsed[k])
  {
    if parsed != [] {
      var init := parsed[..|parsed| - 1];
      EntriesSkipOnlyIdless(init);
      assert forall k :: 0 <= k < |init| ==> init[k] == parsed[k];
    }
  }

  /** Every section with an identifier has its entry, in section order. */
  lemma {:induction false} EntriesKeepOrder(parsed: seq<Parsed>, k: nat)
    requires k < |parsed| && HasIds(parsed[k])
    ensures var e := Entry(parsed[k].pmid, parsed[k].pmcid, parsed[k].title);
      e in Entries(parsed) && Entries(parsed[..k + 1]) == Entries(parsed[..k]) + [e]
  {
    var init := parsed[..|parsed| - 1];
    if k < |parsed| - 1 {
      EntriesKeepOrder(init, k);
      assert init[..k + 1] == parsed[..k + 1] && init[..k] == parsed[..k];
    } else {
      assert parsed[..k + 1] == parsed && parsed[..k] == init;
    }
  }

  /** The sections of a text. */
  function ParseAll(sections: seq<string>): (r: seq<Parsed>)
    ensures |r| == |sections|
  {
    seq(|sections|, k requires 0 <= k < |sections| => Parse(sections[k]))
  }

  /** `all_publications`: empty unless the text reports several publications. */
  function AllPublications(text: string): (r: seq<JValue>)
    ensures !MentionsMultiple(text) ==> r == []
  {
    if MentionsMultiple(text) then Entries(ParseAll(Sections(text))) else []
  }

  /** The loop appending an entry for each section with an identifier. */
  method CollectEntries(parsed: seq<Parsed>) returns (all: seq<JValue>)
    ensures all == Entries(parsed)
  {
    all := [];
    var i := 0;
    while i < |parsed|
      invariant 0 <= i <= |parsed|
      invariant all == Entries(parsed[..i])
    {
      assert parsed[..i + 1][..i] == parsed[..i];
      var p := parsed[i];
      if HasIds(p) {
        all := all + [Entry(p.pmid, p.pmcid, p.title)];
      }
      i := i + 1;
    }
    assert parsed[..i] == parsed;
  }

  /** The part of the stream that lists the publications. */
  method CollectPublications(text: string) returns (all: seq<JValue>)
    ensures all == AllPublications(text)
  {
    all := [];
    if MentionsMultiple(text) {
      all := CollectEntries(ParseAll(Sections(text)));
    }
  }

  // ---- the JSON path ------------------------------------------------------------

  /** `({[\s\S]*})`: from the first "{" to the last "}". */
  const JsonSpan: Regexp := Whole([One(Lit('{')), Star(AnyChar), One(Lit('}'))], false)

  /** There is a JSON span exactly when some "{" comes before some "}"; it runs from a
      "{" to a "}". */
  lemma JsonSpanFound(text: string)
    ensures Capture(JsonSpan, text).Some? <==>
      exists i, j :: 0 <= i < j < |text| && text[i] == '{' && text[j] == '}'
    ensures Capture(JsonSpan, text).Some? ==>
      var span := Capture(JsonSpan, text).value;
      |span| >= 2 && span[0] == '{' && span[|span| - 1] == '}'
  {
    var items := JsonSpan.items;
    if Capture(JsonSpan, text).Some? {
      var pos := Search(JsonSpan, text).value;
      SingleStep(items, text, pos[0], pos, false, 0);
      SingleStep(items, text, pos[0], pos, false, 2);
      assert StepFits(items, text, pos, false, 1);
      assert text[pos[0]] == '{' && text[pos[2]] == '}';
    }
    if exists i, j :: 0 <= i < j < |text| && text[i] == '{' && text[j] == '}' {
      var i, j :| 0 <= i < j < |text| && text[i] == '{' && text[j] == '}';
      var pos := [i, i + 1, j, j + 1];
      assert StepFits(items, text, pos, false, 0);
      assert StepFits(items, text, pos, false, 1);
      assert StepFits(items, text, pos, false, 2);
      SearchComplete(JsonSpan, text, i, pos);
    }
  }

  const RequiredKeys: seq<string> := ["pmid", "pmcid", "preprint_doi", "message"]

  /** The parsed object with every missing required key set to None. */
  function Filled(d: Dict): (r: Dict)
    ensures "pmid" in r && "pmcid" in r && "preprint_doi" in r && "message" in r
    ensures forall k :: k in d ==> k in r && r[k] == d[k]
    ensures forall k :: k in r && k !in d ==> k in RequiredKeys && r[k] == JNull
  {
    map k | k in d.Keys + (set x | x in RequiredKeys) :: if k in d then d[k] else JNull
  }

  /** `for key in required_keys: if key not in response_dict: response_dict[key] = None` */
  method FillRequiredKeys(d: Dict) returns (r: Dict)
    ensures r == Filled(d)
  {
    r := d;
    var i := 0;
    while i < |RequiredKeys|
      invariant 0 <= i <= |RequiredKeys|
      invariant r == map k | k in d.Keys + (set x | x in RequiredKeys[..i]) :: if k in d then d[k] else JNull
    {
      if RequiredKeys[i] !in r {
        r := r[RequiredKeys[i] := JNull];
      }
      assert RequiredKeys[..i + 1] == RequiredKeys[..i] + [RequiredKeys[i]];
      i := i + 1;
    }
    assert RequiredKeys[..i] == RequiredKeys;
  }

  /** The text-derived fields, always overwriting what the JSON said. */
  function Tagged(d: Dict, text: string, all: seq<JValue>): Dict {
    d["source" := JStr(SourceTag(text))]["multiple_publications" := JBool(MentionsMultiple(text))]["all_publications" := JList(all)]
  }

  function RetrievedNote(pmid: string, pmcid: string): string {
    " PMID: " + pmid + " was automatically retrieved from PMCID: " + pmcid + "."
  }

  /** `response_dict["message"] += note`: a string grows, a list is extended by the
      note's characters, anything else raises (after the PMID was already stored). */
  function AppendToMessage(d: Dict, note: string): (r: Dict)
    requires "message" in d
    ensures r.Keys == d.Keys
    ensures forall k :: k in d && k != "message" ==> r[k] == d[k]
  {
    match d["message"]
    case JStr(m) => d["message" := JStr(m + note)]
    case JList(items) => d["message" := JList(items + seq(|note|, k requires 0 <= k < |note| => JStr([note[k]])))]
    case _ => d
  }

  /** Whether the cross-fill is attempted: a truthy PMCID and a falsy PMID. */
  predicate WantsPmid(d: Dict)
    requires "pmid" in d && "pmcid" in d
  {
    Truthy(d["pmcid"]) && !Truthy(d["pmid"])
  }

  /** The cross-fill as written: any truthy text `pmid_from_pmcid` returns is stored as
      the PMID, including its "No PMID found" and error messages. A non-string PMCID
      makes the tool call reject its argument. */
  function CrossFillAsWritten(d: Dict, lookup: Option<LinkOutcome>): Dict
    requires "pmid" in d && "pmcid" in d && "message" in d
  {
    if !WantsPmid(d) || !d["pmcid"].JStr? || lookup.None? then d
    else
      var t := PmidText(lookup.value);
      if t.None? || t.value == "" then d
      else AppendToMessage(d["pmid" := JStr(t.value)], RetrievedNote(t.value, d["pmcid"].s))
  }

  /** A lookup that finds no PMID still fills the PMID field, with the message text. */
  lemma CrossFillStoresMessage()
    ensures var d := map["pmid" := JNull, "pmcid" := JStr("PMC1"), "preprint_doi" := JNull, "message" := JStr("")];
      CrossFillAsWritten(d, Some(NoLink))["pmid"] == JStr("No PMID found for this PMCID")
  {
  }

  /** The cross-fill storing only an identifier the lookup actually found. */
  function CrossFill(d: Dict, lookup: Option<LinkOutcome>): (r: Dict)
    requires "pmid" in d && "pmcid" in d && "message" in d
    ensures r.Keys == d.Keys
    ensures forall k :: k in d && k != "pmid" && k != "message" ==> r[k] == d[k]
    ensures r["pmid"] != d["pmid"] ==>
      WantsPmid(d) && d["pmcid"].JStr? && lookup.Some? && lookup.value.Linked?
      && r["pmid"] == JStr(lookup.value.id) && lookup.value.id != ""
    ensures WantsPmid(d) && d["pmcid"].JStr? && lookup.Some? && lookup.value.Linked? && lookup.value.id != "" ==>
      r["pmid"] == JStr(lookup.value.id)
      && (d["message"].JStr? ==> r["message"] == JStr(d["message"].s + RetrievedNote(lookup.value.id, d["pmcid"].s)))
    ensures !WantsPmid(d) ==> r == d
  {
    if !WantsPmid(d) || !d["pmcid"].JStr? then d
    else match lookup
      case Some(Linked(id)) =>
        if id == "" then d else AppendToMessage(d["pmid" := JStr(id)], RetrievedNote(id, d["pmcid"].s))
      case _ => d
  }

  /** Where the two differ, the written one has stored a text that is not an id. */
  lemma CrossFillDiffers(d: Dict, lookup: Option<LinkOutcome>)
    requires "pmid" in d && "pmcid" in d && "message" in d
    requires CrossFillAsWritten(d, lookup) != CrossFill(d, lookup)
    ensures lookup.Some? && !lookup.value.Linked?
    ensures CrossFillAsWritten(d, lookup)["pmid"] == JStr(PmidText(lookup.value).value)
  {
  }

  // ---- the pattern fallback -------------------------------------------------------

  /** `DOI:?\s*(10\.\d+/[^\s\"\']+)`, IGNORECASE. */
  const FallbackDoi: Regexp :=
    Grouped(Lits("DOI") + [Colon, Spaces], Lits("10.") + [Plus(Digit), One(Lit('/')), Plus(NoneOf({'"', '\''}, true))], [], true)

  const FallbackKeys: set<string> :=
    {"pmid", "pmcid", "title", "preprint_doi", "message", "source", "multiple_publications", "all_publications"}

  /** The fallback's cross-fill as written: the PMID becomes whatever the lookup
      returned, and a truthy return is noted in the message. */
  function FallbackCrossFillAsWritten(pmid: Option<string>, pmcid: Option<string>, text: string, lookup: Option<LinkOutcome>): (Option<string>, string) {
    if pmcid.Some? && pmcid.value != "" && pmid.None? && lookup.Some? then
      var t := PmidText(lookup.value);
      if t.Some? && t.value != "" then (t, text + RetrievedNote(t.value, pmcid.value)) else (t, text)
    else (pmid, text)
  }

  lemma FallbackStoresMessage()
    ensures FallbackCrossFillAsWritten(None, Some("PMC1"), "", Some(Exhausted)).0
      == Some("Failed to retrieve PMID after multiple attempts")
  {
  }

  /** The fallback's cross-fill keeping only a found identifier. */
  function FallbackCrossFill(pmid: Option<string>, pmcid: Option<string>, text: string, lookup: Option<LinkOutcome>): (r: (Option<string>, string))
    ensures r.0 != pmid ==>
      pmid.None? && pmcid.Some? && lookup.Some? && lookup.value.Linked?
      && r.0 == Some(lookup.value.id) && r.1 == text + RetrievedNote(lookup.value.id, pmcid.value)
    ensures r.0 == pmid ==> r.1 == text
    ensures (pmid.None? && pmcid.Some? && pmcid.value != "" && lookup.Some? && lookup.value.Linked?
             && lookup.value.id != "") ==> r.0 == Some(lookup.value.id)
  {
    if pmcid.Some? && pmcid.value != "" && pmid.None? && lookup.Some? && lookup.value.Linked? && lookup.value.id != ""
    then (Some(lookup.value.id), text + RetrievedNote(lookup.value.id, pmcid.value))
    else (pmid, text)
  }

  /** The `result_dict` of the fallback, from its eight values. */
  function Record(pmid: Option<string>, pmcid: Option<string>, title: Option<string>, doi: Option<string>,
                  message: string, source: string, multiple: bool, all: seq<JValue>): (r: Dict)
    ensures r.Keys == FallbackKeys
    ensures r["pmid"] == OptStr(pmid) && r["pmcid"] == OptStr(pmcid) && r["title"] == OptStr(title)
    ensures r["preprint_doi"] == OptStr(doi) && r["message"] == JStr(message)
    ensures r["source"] == JStr(source) && r["multiple_publications"] == JBool(multiple)
    ensures r["all_publications"] == JList(all)
  {
    map[
      "pmid" := OptStr(pmid),
      "pmcid" := OptStr(pmcid),
      "title" := OptStr(title),
      "preprint_doi" := OptStr(doi),
      "message" := JStr(message),
      "source" := JStr(source),
      "multiple_publications" := JBool(multiple),
      "all_publications" := JList(all)
    ]
  }

  /** The eight-key record built from the text alone. */
  function FallbackRecord(text: string, lookup: Option<LinkOutcome>): (r: Dict)
    ensures r.Keys == FallbackKeys
    ensures r["source"] == JStr(SourceTag(text)) && r["multiple_publications"] == JBool(MentionsMultiple(text))
    ensures r["all_publications"] == JList(AllPublications(text))
    ensures r["pmcid"] == OptStr(ExtractIds(text).1)
    ensures r["pmid"] != OptStr(ExtractIds(text).0) ==>
      ExtractIds(text).0.None? && lookup.Some? && lookup.value.Linked? && r["pmid"] == JStr(lookup.value.id)
  {
    var p := Parse(text);
    var filled := FallbackCrossFill(p.pmid, p.pmcid, text, lookup);
    Record(filled.0, p.pmcid, p.title, Capture(FallbackDoi, text), filled.1,
           SourceTag(text), MentionsMultiple(text), AllPublications(text))
  }

  // ---- the whole post-processing ---------------------------------------------------

  /** The record the stream returns, None when the text has no `{...}` span. */
  function Process(text: string, decode: string -> Option<Dict>, lookup: Option<LinkOutcome>): (r: Option<Dict>)
    ensures r.None? <==> Capture(JsonSpan, text).None?
  {
    match Capture(JsonSpan, text)
    case None => None
    case Some(span) =>
      match decode(span)
      case None => Some(FallbackRecord(text, lookup))
      case Some(d) =>
        var tagged := Tagged(Filled(d), text, AllPublications(text));
        Some(CrossFill(tagged, lookup))
  }

  /** Every returned record has the required keys and the text-derived fields. */
  lemma ProcessFields(text: string, decode: string -> Option<Dict>, lookup: Option<LinkOutcome>)
    requires Process(text, decode, lookup).Some?
    ensures var r := Process(text, decode, lookup).value;
      "pmid" in r && "pmcid" in r && "preprint_doi" in r && "message" in r
      && "source" in r && r["source"] == JStr(SourceTag(text))
      && "multiple_publications" in r && r["multiple_publications"] == JBool(MentionsMultiple(text))
      && "all_publications" in r && r["all_publications"] == JList(AllPublications(text))
  {
    var span := Capture(JsonSpan, text).value;
    match decode(span)
    case None =>
    case Some(d) => JsonRecordFields(d, text, AllPublications(text), lookup);
  }

  /** The JSON path's record, for any parsed object. */
  lemma JsonRecordFields(d: Dict, text: string, all: seq<JValue>, lookup: Option<LinkOutcome>)
    ensures var r := CrossFill(Tagged(Filled(d), text, all), lookup);
      "pmid" in r && "pmcid" in r && "preprint_doi" in r && "message" in r
      && "source" in r && r["source"] == JStr(SourceTag(text))
      && "multiple_publications" in r && r["multiple_publications"] == JBool(MentionsMultiple(text))
      && "all_publications" in r && r["all_publications"] == JList(all)
  {
  }

  /** A text whose span does not parse gets exactly the eight fallback keys; one that
      parses keeps every other key of the object as it was. */
  lemma ProcessKeys(text: string, decode: string -> Option<Dict>, lookup: Option<LinkOutcome>)
    requires Process(text, decode, lookup).Some?
    ensures var r := Process(text, decode, lookup).value;
      match decode(Capture(JsonSpan, text).value)
      case None => r.Keys == FallbackKeys
      case Some(d) =>
        forall k :: (k in d && k !in RequiredKeys && k != "source" && k != "multiple_publications"
                     && k != "all_publications") ==> k in r && r[k] == d[k]
  {
    var span := Capture(JsonSpan, text).value;
    match decode(span)
    case None =>
    case Some(d) => JsonRecordKeeps(d, text, AllPublications(text), lookup);
  }

  /** The JSON path's record keeps every key it does not set, for any parsed object. */
  lemma JsonRecordKeeps(d: Dict, text: string, all: seq<JValue>, lookup: Option<LinkOutcome>)
    ensures var r := CrossFill(Tagged(Filled(d), text, all), lookup);
      forall k :: (k in d && k !in RequiredKeys && k != "source" && k != "multiple_publications"
                   && k != "all_publications") ==> k in r && r[k] == d[k]
  {
  }

  /** The PMID lookup of the JSON path, when the PMCID is set and the PMID is not. */
  method FillPmid(d: Dict, lookup: Option<LinkOutcome>) returns (r: Dict)
    requires "pmid" in d && "pmcid" in d && "message" in d
    ensures r == CrossFill(d, lookup)
  {
    r := d;
    if Truthy(r["pmcid"]) && !Truthy(r["pmid"]) && r["pmcid"].JStr? && lookup.Some? && lookup.value.Linked?
       && lookup.value.id != ""
    {
      var pmcid := r["pmcid"].s;
      var pmid := lookup.value.id;
      r := r["pmid" := JStr(pmid)];
      r := AppendToMessage(r, RetrievedNote(pmid, pmcid));
    }
  }

  /** The statements of the stream after the agent has answered. */
  method StreamResult(text: string, decode: string -> Option<Dict>, lookup: Option<LinkOutcome>)
    returns (r: Option<Dict>)
    ensures r == Process(text, decode, lookup)
  {
    var source := SourceTag(text);
    var multiple := MentionsMultiple(text);
    var all := CollectPublications(text);
    var span := Capture(JsonSpan, text);
    if span.None? {
      return None;
    }
    var parsed := decode(span.value);
    if parsed.None? {
      return Some(FallbackRecord(text, lookup));
    }
    var d := FillRequiredKeys(parsed.value);
    d := d["source" := JStr(source)];
    d := d["multiple_publications" := JBool(multiple)];
    d := d["all_publications" := JList(all)];
    d := FillPmid(d, lookup);
    r := Some(d);
  }
}
