# SRAgent deterministic core, in Dafny

SRAgent finds single-cell RNA-seq datasets in the Sequence Read Archive (SRA) and the Gene
Expression Omnibus (GEO), gathers their SRX records, and finds the publications behind
them. Language-model agents do most of that work. This project models the code around the
agents, the code that is not up to a model. It covers:

- extracting identifiers from the publications agent's answers: PMID and PMCID patterns,
  the source tag, the several-publications split, the JSON record with its key fill and
  its PMCID-to-PMID cross-fill, and the pattern fallback record;
- the publications evaluator: DOI and title extraction, DOI version stripping, per-case
  scoring and the summary tally;
- identifier helpers: accession-to-database classification, DOI extraction, the "PMC"
  prefix, and title cleaning;
- decisions over remote results: link-count disambiguation, retry loops with exponential
  backoff, the BioStudies walk, the preprint published-status choice, paginated Entrez
  searches, and Google search shortening, retry and formatting;
- small transforms: id batching, XML text truncation, graph `final_state` filters, the
  Entrez-id filter and cap, the fan-out payloads, the BigQuery accession partition and
  WHERE clause, and the value tuples of `db_add`.

Every remote service is a parameter. Entrez, the BioStudies, bioRxiv and Google APIs,
BigQuery, the record database, the language model's structured replies, `json.loads` and
the printers `str`/`repr` are each given as a function from the request (or attempt
number) to the reply. A Python regular expression is modelled by a small backtracking
matcher (module `Regex`). It follows Python's leftmost-first, greedy-or-lazy order, and
each pattern the code uses is written out in it. Python's integers are unbounded, like
Dafny's, so no wrap-around is modelled.

Loops in the source are methods with loop invariants, proved equal to a specification
function. The properties the code promises are lemmas about those functions.

`re.sub(r'v\d+$', '', doi)` is not idempotent: "10.1/xv1v2" loses one version per
application (`PublicationsEval.NormalizeNotIdempotent`).

## Model

| member | source | states |
|---|---|---|
| ToolUtils.BatchIds | SRAgent/tools/utils.py:14-24 | a zero batch size fails (as `range` raises), a negative one yields no batch |
| ToolUtils.BatchesConcat | SRAgent/tools/utils.py:23-24 | concatenating the batches gives back the ids, in order |
| ToolUtils.BatchesSizes | SRAgent/tools/utils.py:23-24 | every batch but the last holds exactly `batch_size` ids, the last between one and `batch_size`, and only an empty list gives no batch |
| ToolUtils.TruncateTextRule | SRAgent/tools/utils.py:40-41 | a text longer than `max_length` becomes its first `max_length` characters plus "...[truncated]" (14 more characters); shorter, equal and missing texts are untouched |
| ToolUtils.TruncateItems | SRAgent/tools/utils.py:39-41 | rewrites every item text in place by that rule and nothing else |
| ToolUtils.TruncateValues | SRAgent/tools/utils.py:35-43 | a record that does not parse as XML comes back unchanged; otherwise the re-serialised record with every item text truncated |
| Backoff.Waits | SRAgent/tools/pmid.py:52 | the waits of consecutive rate-limited attempts: one per attempt, each `backoff_factor * 2 ** attempt` |
| Backoff.WaitsDouble | SRAgent/tools/pmid.py:52 | each wait is twice the one before |
| Publications.PatternGroups | SRAgent/agents/publications.py:179-209 | every PMID pattern and both fallbacks capture one `\d+` group; every PMCID pattern captures `\d+` or `PMC\d+` |
| Publications.FirstMatchingFrom | SRAgent/agents/publications.py:191-195 | the index found is of a matching pattern and every earlier pattern fails to match; none found means no pattern matches |
| Publications.AsPmcid | SRAgent/agents/publications.py:215-217 | the result starts with "PMC": a capture starting with "PMC" is kept, any other is prefixed with "PMC" |
| Publications.SearchInOrder | SRAgent/agents/publications.py:191-195 | the loop returns the capture of the first pattern in list order that matches |
| Publications.ExtractPmidPmcid | SRAgent/agents/publications.py:165-236 | returns the pair the strict lists give, falling back to `PMID.*?(\d+)` and `PMC.*?(\d+)` only for a missing id |
| Publications.DigitsCapture | SRAgent/agents/publications.py:180-188 | a `\d+` group captures a non-empty run of digits |
| Publications.PmcDigitsCapture | SRAgent/agents/publications.py:199-208 | a `PMC\d+` group captures "PMC" in any letter case followed by digits |
| Publications.PmidIsDigits | SRAgent/agents/publications.py:191-226 | a found PMID is a non-empty run of digits |
| Publications.PmcidShape | SRAgent/agents/publications.py:211-234 | a found PMCID starts with "PMC" and continues with digits, or with "PMC" in another letter case and then digits |
| Publications.StrictBeforeGeneral | SRAgent/agents/publications.py:191-226 | when some strict PMID pattern matches, the PMID is the capture of the first such pattern, never the loose fallback's |
| Publications.LowerCaseCapturePrefixed | SRAgent/agents/publications.py:202-217 | a case-insensitive capture "pmc123" is prefixed, giving "PMCpmc123" |
| PublicationStream.SourceTag | SRAgent/agents/publications.py:291-306 | the source is always one of "direct_link", "google_search", "not_found" or "unknown" |
| PublicationStream.SourceTagPrecedence | SRAgent/agents/publications.py:296-306 | "SOURCE: DIRECT_LINK" always wins; "not_found" iff only the third explicit tag occurs; "google_search" needs its tag or a search phrase without a direct-link phrase; "unknown" iff no tag and no phrase occurs |
| PublicationStream.SplittersConsume | SRAgent/agents/publications.py:314 | both section markers `Publication \d+:` and `Paper \d+:` match only non-empty text, so the split is well defined |
| PublicationStream.Entry | SRAgent/agents/publications.py:323-328 | a section with a PMID or a PMCID gives an entry with the keys pmid, pmcid and title |
| PublicationStream.Parse | SRAgent/agents/publications.py:317-321 | a section's ids are those `extract_pmid_pmcid` finds in it |
| PublicationStream.Entries | SRAgent/agents/publications.py:316-328 | at most one entry per section, and each is a proper entry |
| PublicationStream.EntriesSkipOnlyIdless | SRAgent/agents/publications.py:323 | every section gets an entry iff every section yields a PMID or a PMCID |
| PublicationStream.EntriesKeepOrder | SRAgent/agents/publications.py:316-328 | each section with an id contributes its entry right after the entries of the sections before it |
| PublicationStream.AllPublications | SRAgent/agents/publications.py:309-315 | `all_publications` stays empty unless the text mentions several publications |
| PublicationStream.CollectEntries | SRAgent/agents/publications.py:316-328 | the append loop builds exactly those entries |
| PublicationStream.CollectPublications | SRAgent/agents/publications.py:308-328 | the stream's `all_publications` is exactly that list |
| PublicationStream.JsonSpanFound | SRAgent/agents/publications.py:333-335 | a `{...}` span exists iff some "{" comes before some "}", and it starts with "{" and ends with "}" |
| PublicationStream.Filled | SRAgent/agents/publications.py:339-342 | afterwards pmid, pmcid, preprint_doi and message are present; existing keys keep their values and only missing required keys are added, as null |
| PublicationStream.FillRequiredKeys | SRAgent/agents/publications.py:340-342 | the loop adds exactly those null keys |
| PublicationStream.AppendToMessage | SRAgent/agents/publications.py:363 | appending the note changes only "message" |
| PublicationStream.CrossFillStoresMessage | SRAgent/agents/publications.py:350-363 | as written, a lookup that finds no PMID stores its "No PMID found" text as the PMID |
| PublicationStream.CrossFill | SRAgent/agents/publications.py:350-368 | only pmid and message may change; pmid changes only to an id the lookup found for the record's PMCID; a record that does not want a PMID is untouched |
| PublicationStream.CrossFillDiffers | SRAgent/agents/publications.py:358-363 | where the written cross-fill differs from the corrected one, the lookup found nothing and its message text was stored as the PMID |
| PublicationStream.FallbackStoresMessage | SRAgent/agents/publications.py:429-440 | as written, the fallback's PMID becomes the lookup's message text when no PMID was found |
| PublicationStream.FallbackCrossFill | SRAgent/agents/publications.py:429-445 | the PMID changes only to an id found for the PMCID, with the note appended to the text; otherwise the text is unchanged |
| PublicationStream.Record | SRAgent/agents/publications.py:448-457 | the fallback dictionary has exactly its eight keys with the given values |
| PublicationStream.FallbackRecord | SRAgent/agents/publications.py:371-459 | the fallback's record carries the source tag, the several-publications flag, the entries and the PMCID found in the text; its PMID is the one found in the text, or else only an identifier the lookup found, which is the corrected cross-fill described under "## Findings" rather than the code as written |
| PublicationStream.Process | SRAgent/agents/publications.py:330-371 | nothing is returned exactly when the text has no `{...}` span; a record returned is cross-filled in the corrected way described under "## Findings" (`CrossFill`, `FallbackRecord`), not as written |
| PublicationStream.ProcessFields | SRAgent/agents/publications.py:339-457 | every returned record has pmid, pmcid, preprint_doi and message, and carries the text's source tag, flag and entries |
| PublicationStream.JsonRecordFields | SRAgent/agents/publications.py:338-368 | the JSON path's record has those fields for any parsed object |
| PublicationStream.ProcessKeys | SRAgent/agents/publications.py:336-457 | an unparsable span gives exactly the eight fallback keys; a parsed object keeps all its other keys and values |
| PublicationStream.FillPmid | SRAgent/agents/publications.py:350-368 | the JSON path's lookup step computes the corrected cross-fill |
| PublicationStream.StreamResult | SRAgent/agents/publications.py:287-459 | the statements after the agent's answer compute `Process`, and so the corrected cross-fill described under "## Findings" |
| Pmid.Classify | SRAgent/tools/pmid.py:33-59 | a single attempt never ends the lookup as exhausted: it links, is ambiguous, finds no link, fails, hits the rate limit ("429" in the error) or reads no records |
| Pmid.LinkLookup | SRAgent/tools/pmid.py:31-61 | the retry loop ends with the outcome and the waits the lookup specification gives |
| Pmid.LookupExhausted | SRAgent/tools/pmid.py:31-61 | for classified attempts (which never decide on exhaustion), the lookup ends exhausted iff no remaining attempt decides it |
| Pmid.LookupFirstDecided | SRAgent/tools/pmid.py:31-59 | the first attempt that decides the lookup decides its outcome |
| Pmid.BackoffPrefix | SRAgent/tools/pmid.py:50-56 | a run of rate-limited attempts sleeps `backoff_factor * 2 ** attempt` before each following attempt |
| Pmid.AllRateLimited | SRAgent/tools/pmid.py:31-61 | when every attempt is rate-limited the lookup is exhausted after sleeping 1, 2, 4, ... times the backoff factor |
| Pmid.PmcidTextFound | SRAgent/tools/pmid.py:37-61 | `pmcid_from_pmid` returns a text starting with "PMC" (and not "Error") iff exactly one link was found, and None iff several were |
| Pmid.StripPmc | SRAgent/tools/pmid.py:75-77 | a leading "PMC" is removed and anything else is kept |
| Pmid.StripPmcInverse | SRAgent/tools/pmid.py:47-77 | removing the prefix undoes the "PMC" that `pmcid_from_pmid` adds |
| Pmid.PmcidFromPmid | SRAgent/tools/pmid.py:18-61 | returns the text of the lookup's outcome for the PMID, and its waits |
| Pmid.PmidFromPmcid | SRAgent/tools/pmid.py:63-111 | the lookup is made for the PMCID without its "PMC" prefix, and returns the text of its outcome |
| Pmid.DetailsPmcidOutcome | SRAgent/tools/pmid.py:170-173 | in the details, a found link stays "PMC" + id, ambiguity stays None, and every other outcome becomes "No PMCID available" |
| Pmid.PublicationDateParts | SRAgent/tools/pmid.py:145-149 | with a part missing the date is the year alone; a full date splits on "-" back into year, month and day |
| Pmid.FormatAuthors | SRAgent/tools/pmid.py:152-160 | the loop builds the authors' formatted names in order |
| Pmid.AuthorNamesExact | SRAgent/tools/pmid.py:153-160 | every named author appears, nothing else does, and the list is shorter only when some author has no name |
| Pmid.CleanTitle | SRAgent/tools/pmid.py:209-211 | the cleaned title is the title's maximal runs of word characters, in order, joined by single spaces; it is single-spaced and at most twice as long as the title |
| Pmid.WordsAreRuns | SRAgent/tools/pmid.py:209-211 | replacing every non-word character by a space and splitting on whitespace gives exactly the maximal runs of word characters |
| Pmid.RunsOfJoin | SRAgent/tools/pmid.py:209-211 | words of word characters joined by single spaces have exactly those words as their runs |
| Pmid.CleanTitleIdempotent | SRAgent/tools/pmid.py:209-211 | cleaning a cleaned title changes nothing |
| Pmid.JoinSingleSpaced | SRAgent/tools/pmid.py:211 | joining non-empty space-free words with " " is single-spaced |
| Pmid.SplitWhitespaceLength | SRAgent/tools/pmid.py:211 | splitting on whitespace never adds characters |
| Pmid.PmidFromTitle | SRAgent/tools/pmid.py:193-233 | an empty title searches nothing; the quoted search comes first and the unquoted one only after a zero count; a PMID found is the first id of the last search, whose count is positive |
| Pmid.QuotedSearchFirst | SRAgent/tools/pmid.py:214-228 | when the quoted search counts the paper, its first id is returned and the unquoted search is never sent |
| Pmid.PmidFromTitleMessage | SRAgent/tools/pmid.py:235-254 | the message starts "Found PMID: " iff a non-empty PMID was found |
| PublicationsEval.DoiAfter | SRAgent/evals/publications_eval.py:240-250 | each listed DOI pattern's group is `10\.\d+/[^\s"']+` |
| PublicationsEval.DoiPatternGroups | SRAgent/evals/publications_eval.py:240-250 | all ten listed DOI patterns capture that group |
| PublicationsEval.ExtractPreprintDoi | SRAgent/evals/publications_eval.py:227-267 | the loop returns the first listed pattern's capture, else the general pattern's whole match |
| PublicationsEval.DoiPieces | SRAgent/evals/publications_eval.py:241 | "10.", digits, "/" and quote-free non-space characters form a DOI |
| PublicationsEval.DoiMatch | SRAgent/evals/publications_eval.py:241 | a match of the DOI items consumed "10.", then digits, then "/", then at least the required count of DOI characters |
| PublicationsEval.DoiCapture | SRAgent/evals/publications_eval.py:241-263 | what a DOI group captures has the DOI shape |
| PublicationsEval.PreprintDoiShape | SRAgent/evals/publications_eval.py:253-267 | a found DOI starts "10.", digits and "/", and holds no whitespace or quote; when only the general pattern found it, at least four characters follow the "/" |
| PublicationsEval.TitlePatternGroups | SRAgent/evals/publications_eval.py:282-298 | every title pattern captures one run of characters other than the quotes |
| PublicationsEval.ExtractTitle | SRAgent/evals/publications_eval.py:269-306 | the loop returns the first matching pattern's capture, stripped |
| PublicationsEval.QuoteFreeCapture | SRAgent/evals/publications_eval.py:300-304 | the first capture of such patterns holds no quote |
| PublicationsEval.TitleShape | SRAgent/evals/publications_eval.py:300-306 | a found title holds no quote and has no whitespace at either end |
| PublicationsEval.VersionSuffixConsumes | SRAgent/evals/publications_eval.py:560 | the version pattern `v\d+$` matches only non-empty text |
| PublicationsEval.VersionMatch | SRAgent/evals/publications_eval.py:560 | a match of `v\d+$` is a "v" followed by digits up to the end |
| PublicationsEval.NormalizeStripsVersion | SRAgent/evals/publications_eval.py:560-567 | normalising removes exactly one trailing version: "...640382v1" and "...640382v2" both become "...640382" |
| PublicationsEval.NormalizeKeeps | SRAgent/evals/publications_eval.py:560 | a text with no "v" followed only by digits up to its end (or up to a final newline) is kept unchanged |
| PublicationsEval.NormalizeKeepsExactly | SRAgent/evals/publications_eval.py:560 | for a text not ending in a newline, normalising keeps it exactly when it carries no version suffix |
| PublicationsEval.NoVUnversioned | SRAgent/evals/publications_eval.py:560 | a text without any "v" carries no version suffix |
| PublicationsEval.NormalizeNotIdempotent | SRAgent/evals/publications_eval.py:560 | normalising twice can remove two versions: "10.1/xv1v2" becomes "10.1/xv1", then "10.1/x" |
| EvalScoring.ScoreNothingExpected | SRAgent/evals/publications_eval.py:571-584 | with no id expected, a case succeeds iff no PMID, PMCID or DOI was found |
| EvalScoring.ScoreExpected | SRAgent/evals/publications_eval.py:558-584 | with an id expected, a case succeeds iff every expected field matches exactly (the DOI after its version is stripped) and unexpected fields are ignored |
| EvalScoring.ScoreErrors | SRAgent/evals/publications_eval.py:559-612 | scoring fails with an error exactly when the found DOI is truthy but not a string |
| EvalScoring.ScoreIgnoresVersion | SRAgent/evals/publications_eval.py:558-580 | an expected and a found DOI that are the same unversioned DOI, each with any version suffix or none, score as a match |
| EvalScoring.ScoreIgnoresVersionExample | SRAgent/evals/publications_eval.py:558-580 | the expected "10.1101/2025.02.26.640382" matches a found "...640382v1" or "...640382v2" |
| EvalScoring.AcceptedPmcidLinked | SRAgent/evals/publications_eval.py:449-481 | a derived PMCID is accepted iff the lookup found exactly one link, and it is then "PMC" + that id |
| EvalScoring.DerivePmcid | SRAgent/evals/publications_eval.py:438-460 | deriving changes only the PMCID, and only when a PMID is present, the PMCID is missing and a PMCID is expected |
| EvalScoring.DeriveFallsBack | SRAgent/evals/publications_eval.py:446-460 | a valid derived PMCID is kept when its note can be added; otherwise the expected PMCID is copied in |
| EvalScoring.TitleRecovery | SRAgent/evals/publications_eval.py:462-486 | recovery by title fails only for a missing PMID with no text; a changed PMID was missing before and is a non-empty text; the DOI is never changed |
| EvalScoring.TextPmid | SRAgent/evals/publications_eval.py:356-393 | the PMID read from the text is either missing or a non-empty string |
| EvalScoring.RecoverPmidKeeps | SRAgent/evals/publications_eval.py:355-436 | a PMID already in the record is kept, a recovered one is never empty, and recovery fails only for a missing PMID with no text |
| EvalScoring.Evaluate | SRAgent/evals/publications_eval.py:308-614 | one test case's result: the record path, the old text path, or the error result |
| EvalScoring.EvaluateErrors | SRAgent/evals/publications_eval.py:352-612 | a crash of the agent, or a record with no PMID whose message is neither a string nor None, gives the error result |
| EvalScoring.Outcomes | SRAgent/evals/publications_eval.py:648-652 | one outcome per test case |
| EvalScoring.Successes | SRAgent/evals/publications_eval.py:655-661 | the number of successes is at most the number of outcomes |
| EvalScoring.ReportsKeys | SRAgent/evals/publications_eval.py:664 | the report names are exactly the test case names |
| EvalScoring.ReportsLast | SRAgent/evals/publications_eval.py:664-675 | the report under a name is that of the last test case with that name |
| EvalScoring.EvaluateAll | SRAgent/evals/publications_eval.py:616-677 | the total is the number of test cases and equals successes plus failures; the successes and reports are those the specification gives |
| StudyInfo.SraAccessions | SRAgent/tools/study_info.py:208-213 | SRR, ERR, DRR, SRX, ERX, DRX, SRP, ERP and DRP accessions followed by digits go to "sra" |
| StudyInfo.BioProjectIffPrj | SRAgent/tools/study_info.py:203-234 | the database is "bioproject" exactly for accessions starting "PRJ" |
| StudyInfo.GdsIffGeo | SRAgent/tools/study_info.py:203-234 | the database is "gds" exactly for GSE, GSM and GPL accessions followed by digits and for accessions starting "GEO" |
| StudyInfo.SearchPlan | SRAgent/tools/study_info.py:38-64 | the accession is searched in its own database first, in "sra" next for a bioproject, and for "PRJNA" accessions the number alone in "bioproject" and then "sra" |
| StudyInfo.FirstHitAt | SRAgent/tools/study_info.py:39-68 | a hit is the first id of some search in the plan after every earlier search found nothing; "not found" iff every search found nothing |
| StudyInfo.FirstHitStep | SRAgent/tools/study_info.py:44-60 | a search that finds nothing passes on to the next one |
| StudyInfo.SummaryDatabase | SRAgent/tools/study_info.py:71-164 | the summary always comes from "sra", "bioproject" or "gds", so the branch for other databases is never reached |
| StudyInfo.GetStudyTitle | SRAgent/tools/study_info.py:25-200 | the step-by-step lookup returns what the plan-based specification gives |
| StudyInfo.GenericTitle | SRAgent/tools/study_info.py:172-177 | the title is the value of some listed field present, or "No title available" when none is |
| StudyInfo.FindTitle | SRAgent/tools/study_info.py:172-177 | the field loop with its early break computes that title |
| StudyInfo.GenericTitleFirst | SRAgent/tools/study_info.py:174-177 | the title comes from the earliest field present |
| BigQuery.LevelsDisjoint | SRAgent/tools/bigquery.py:142-144 | no accession falls in two of the study (SRP/PRJNA), experiment (SRX/ERX) and run (SRR/ERR) lists |
| BigQuery.OfLevel | SRAgent/tools/bigquery.py:142-144 | an accession is in a level's list iff it is among the inputs and carries one of that level's prefixes |
| BigQuery.OfLevelConcat | SRAgent/tools/bigquery.py:142-144 | each list keeps the input order |
| BigQuery.WhereClauses | SRAgent/tools/bigquery.py:146-154 | "No valid accessions provided." is returned iff no accession has a recognised prefix; otherwise the condition joins with " OR " one IN clause per non-empty list, study then experiment then run |
| RecordDb.Get | SRAgent/record_db.py:115 | `d.get(col)` is None iff the dict lacks the key, and otherwise is the value stored under it |
| RecordDb.GetBinding | SRAgent/record_db.py:115 | in a dict, whose keys are distinct, `d.get` of a stored key gives the value stored under it |
| RecordDb.Keys | SRAgent/record_db.py:112 | the columns are the first dict's keys, in order |
| RecordDb.DbAdd | SRAgent/record_db.py:107-115 | an empty list inserts nothing; otherwise the columns are the first dict's keys and every dict gives one value tuple with one cell per column |
| RecordDb.DbAddCells | SRAgent/record_db.py:112-115 | a cell is NULL exactly when its dict lacks the column, otherwise it holds that dict's value; keys the first dict lacks are dropped |
| AuthorVerification.UrlDoiCapture | SRAgent/tools/author_verification.py:20-22 | whatever the DOI pattern finds is "10.", four to nine digits, "/" and at least one DOI character |
| AuthorVerification.ExtractDoiShape | SRAgent/tools/author_verification.py:13-26 | a missing or empty text gives no DOI; every DOI returned starts "10."; when the pattern matches, its match is the DOI and has the full DOI shape |
| AuthorVerification.UrlDoiFindsWhole | SRAgent/tools/author_verification.py:20-22 | conversely, the DOI pattern finds a DOI-shaped text whole |
| AuthorVerification.ExtractDoiStripsTrailing | SRAgent/tools/author_verification.py:18-25 | trailing ".", ",", ";" and ")" are stripped before anything else, so a DOI-shaped text followed by them comes back without them |
| AuthorVerification.ExtractDoiFallbackStrips | SRAgent/tools/author_verification.py:18-26 | the same for a text starting "10." that the pattern does not find: it comes back as it stands, without the trailing characters |
| AuthorVerification.WalkSubsections | SRAgent/tools/author_verification.py:57-100 | the nested loops over subsections, attributes and links compute the fold of the per-subsection step, including the failure a missing "Authors" value or link url raises |
| AuthorVerification.PublicationAttributes | SRAgent/tools/author_verification.py:66-77 | the loop over a Publication subsection's attributes computes their fold: a non-empty title and a non-empty extracted DOI are appended to the ids, the split "Authors" value to the authors, and a missing "Authors" value raises |
| AuthorVerification.PublicationLinks | SRAgent/tools/author_verification.py:79-84 | the loop over the links computes their fold: a missing url raises, a DOI found in a "doi.org" url is appended to the ids |
| AuthorVerification.AuthorAttributes | SRAgent/tools/author_verification.py:88-92 | the loop over an Author subsection's attributes computes their fold, which by `AuthorNames` appends every "Name" value |
| AuthorVerification.TitleAttributes | SRAgent/tools/author_verification.py:94-98 | the loop over a Title subsection's attributes computes their fold: the last "Text" value becomes the title |
| AuthorVerification.PublicationAttributesGrow | SRAgent/tools/author_verification.py:66-77 | a Publication subsection's attributes never drop an id, and every non-empty "Title" value becomes an id |
| AuthorVerification.PublicationLinksGrow | SRAgent/tools/author_verification.py:79-84 | the links of a Publication subsection never drop an id |
| AuthorVerification.AuthorsKeepIds | SRAgent/tools/author_verification.py:88-92 | an Author subsection leaves the ids alone |
| AuthorVerification.TitlesKeepIds | SRAgent/tools/author_verification.py:94-98 | a Title subsection leaves the ids alone |
| AuthorVerification.AuthorNames | SRAgent/tools/author_verification.py:88-92 | an Author subsection appends every "Name" value, missing ones included, in order, and changes nothing else |
| AuthorVerification.SubsectionStep | SRAgent/tools/author_verification.py:63-98 | one subsection keeps the ids found so far and leaves them duplicate-free |
| AuthorVerification.WalkIds | SRAgent/tools/author_verification.py:61-100 | after the walk the ids are duplicate-free, contain those found before, and contain the non-empty title of every Publication subsection |
| AuthorVerification.GetPublicationInfo | SRAgent/tools/author_verification.py:44-111 | the attempt loop returns what `PublicationInfo` describes: the walked information, the waits slept and the number of requests |
| AuthorVerification.NotArrayExpress | SRAgent/tools/author_verification.py:45-47 | an id not starting "E-MTAB-" gives no ids, no authors and no title, with no request and no wait |
| AuthorVerification.FetchWaits | SRAgent/tools/author_verification.py:51-109 | the k-th wait is `backoff_factor * 2**k`, every wait follows a request, and there are never more requests than `retries` |
| AuthorVerification.FetchStops | SRAgent/tools/author_verification.py:102-109 | a failure that is not a 429 ends the loop after that one request with empty results |
| AuthorVerification.EntrezAuthorsMissing | SRAgent/tools/author_verification.py:155-157 | a missing or empty "Authors" value gives no names |
| AuthorVerification.EntrezAuthorsPieces | SRAgent/tools/author_verification.py:155-158 | SRA and GEO author lists give one name per comma-separated piece: the piece with only whitespace removed around it, free of commas and of whitespace at either end; the pieces joined by commas are the whole value |
| AuthorVerification.FirstPublished | SRAgent/tools/author_verification.py:248-254 | a published DOI returned is never empty and never "NA" |
| AuthorVerification.CheckPublished | SRAgent/tools/author_verification.py:243-257 | the loop over the collection returns the published DOI of the first entry with a truthy "published", None for "NA", for no such entry or for a failed request |
| AuthorVerification.FirstPublishedDecides | SRAgent/tools/author_verification.py:249-253 | the first entry with a truthy "published" decides the answer, whatever follows it |
| AuthorVerification.PreprintPublished | SRAgent/tools/author_verification.py:299-309 | a bioRxiv answer is returned without asking medRxiv; otherwise medRxiv's answer is returned after asking both |
| GoogleSearch.GoogleSearch | SRAgent/tools/google_search.py:25-41 | missing credentials give the "ERROR: ... not found" text; every failure is a string starting "ERROR"; items come back iff both credentials are set and the API answered, and a zero total gives no items |
| GoogleSearch.ShortenAll | SRAgent/tools/google_search.py:43-77 | an "ERROR" string passes through unchanged; otherwise there is one shortened result per item |
| GoogleSearch.KeepUnprefixed | SRAgent/tools/google_search.py:48-60 | no kept metatag name starts "pagemap_", so renaming cannot collide with a kept tag |
| GoogleSearch.RenamedShape | SRAgent/tools/google_search.py:72-73 | after the renaming, keys outside the colliding set keep their values, colliding keys are gone and their values sit under "pagemap_<key>", and no other key appears |
| GoogleSearch.RenameStep | SRAgent/tools/google_search.py:73 | one pass of the loop pops one colliding key and stores its value under "pagemap_<key>" |
| GoogleSearch.RenameColliding | SRAgent/tools/google_search.py:72-73 | the rename loop over the keys shared with the first part ends in the renaming of exactly that set |
| GoogleSearch.ShortenResults | SRAgent/tools/google_search.py:62-77 | the loop over the items builds `ShortenAll`'s list, item by item in order |
| GoogleSearch.MergeShape | SRAgent/tools/google_search.py:64-75 | in `{**first_part, **pagemap_part}` the first part survives, every kept tag appears under its own name or, when it collides, under "pagemap_<name>", and nothing else is added |
| GoogleSearch.ShortenKeepsFirst | SRAgent/tools/google_search.py:64-75 | a shortened result keeps the item's title, link and snippet, None when absent |
| GoogleSearch.ShortenTags | SRAgent/tools/google_search.py:66-75 | every other key of a shortened result is a kept tag of the first metatags entry, renamed exactly when it is "title", "link" or "snippet", and every kept tag is there |
| GoogleSearch.FindPublicationIdWithRetry | SRAgent/tools/google_search.py:92-117 | the attempt loop returns the result and the waits that `RetryFrom` describes |
| GoogleSearch.RetryWaits | SRAgent/tools/google_search.py:92-99 | the k-th wait is `backoff_factor * 2**k`, one per failed search, and no attempt is made past `retries` |
| GoogleSearch.RetryOutcome | SRAgent/tools/google_search.py:92-117 | the result is an error iff every attempt failed, and then it is "ERROR: Failed to retrieve publication ID after N attempts"; otherwise it is the shortened items of the first search that did not fail |
| GoogleSearch.EveryErrorRetried | SRAgent/tools/google_search.py:36-99 | an API error of any status, 429 or not, is retried after a wait, because the search turns it into an "ERROR" string |
| GoogleSearch.FormatResults | SRAgent/tools/google_search.py:148-167 | the `+=` loop builds the heading followed by one numbered block per result, in order |
| GoogleSearch.GoogleSearchTool | SRAgent/tools/google_search.py:131-138 | missing credentials give the mock text that names the query |
| GoogleSearch.FieldsShown | SRAgent/tools/google_search.py:149-153 | a formatted block shows the item's own title, link and snippet ("None" when missing) and never "N/A" for them |
| Esearch.Finish | SRAgent/tools/esearch.py:45-51 | the ids returned are duplicate-free and all gathered; a positive `max_ids` bounds their number; with no `max_ids` every gathered id is returned |
| Esearch.EsearchBatch | SRAgent/tools/esearch.py:15-51 | the `while True` loop returns `Finish` of the ids `Gather` describes |
| Esearch.GatherSources | SRAgent/tools/esearch.py:18-43 | the ids held are kept in front, and every other id gathered comes from a page requested at `retstart` plus a multiple of 10000 |
| Esearch.GatherComplete | SRAgent/tools/esearch.py:20-40 | without `max_ids`, every id of every page that the loop reaches before the total is gathered |
| Esearch.Trimmed | SRAgent/tools/esearch.py:129-132 | the page loses "RetMax" and "RetStart" and keeps every other key with its value |
| Esearch.DropKeys | SRAgent/tools/esearch.py:129-132 | the in-place deletion loop leaves exactly the trimmed page |
| Esearch.EsearchResult | SRAgent/tools/esearch.py:108-112 | an empty query gives "Please provide a valid query." and a bare accession prefix gives "Invalid query: <query>", before any request |
| Esearch.EsearchTool | SRAgent/tools/esearch.py:102-151 | the checks, the paging loop and the final formatting return what `EsearchResult` describes |
| Esearch.CollectShape | SRAgent/tools/esearch.py:115-144 | the records held are kept, every new record is the trimmed page fetched at `retstart` plus 50 times its position, in order, and debug mode never holds more than two records |
| Esearch.DebugCap | SRAgent/tools/esearch.py:138-150 | in debug mode at most two records are gathered, so `records[:2]` changes nothing |
| Esearch.NoRecords | SRAgent/tools/esearch.py:142-148 | a failing first request gives "No records found for query: <query>" |
| SrxInfo.Reports | SRAgent/workflows/SRX_info.py:124-126 | only contents starting "# SRX accession: " are kept, every such content is kept, and none is added |
| SrxInfo.KeptConcat | SRAgent/workflows/SRX_info.py:119-126 | reports are gathered message by message, in message order |
| SrxInfo.KeptMembers | SRAgent/workflows/SRX_info.py:119-126 | a content is gathered iff it starts "# SRX accession: " and belongs to one of the messages, plain or a list |
| SrxInfo.AppendReports | SRAgent/workflows/SRX_info.py:124-126 | the inner loop appends exactly the reports among one message's contents, in order |
| SrxInfo.FinalState | SRAgent/workflows/SRX_info.py:113-131 | the final message joins with newlines every report of every message, in order and without deduplication |
| SrxInfo.ReportsJoinEmpty | SRAgent/workflows/SRX_info.py:127-128 | the final message is empty exactly when no report was found |
| SrxInfo.Unprocessed | SRAgent/workflows/SRX_info.py:77-80 | an accession is sent on iff it is listed and not among the processed records, and no more are sent than listed |
| SrxInfo.UnprocessedConcat | SRAgent/workflows/SRX_info.py:80 | the filter keeps the order of the accessions |
| SrxInfo.NothingProcessed | SRAgent/workflows/SRX_info.py:80 | with no processed record every accession is sent on |
| SrxInfo.Prompt | SRAgent/workflows/SRX_info.py:70-94 | each prompt starts with the question naming its own accession |
| SrxInfo.ContinueToMetadata | SRAgent/workflows/SRX_info.py:63-111 | with no accession left the dataset's database and Entrez id are recorded as done and nothing is sent; otherwise nothing is recorded and one input per accession left is sent, in order, carrying the database, the Entrez id, the accession and its prompt |
| FindDatasets.EntrezIds | SRAgent/workflows/find_datasets.py:81-118 | the database is "sra", "gds" or empty, and empty (with no ids) exactly when no try named a supported one; the ids are a prefix of the extracted ids not yet recorded, all of them unless a positive `max_datasets` is smaller, never more than a positive `max_datasets`, and none already recorded when the record database is used |
| FindDatasets.GetEntrezIds | SRAgent/workflows/find_datasets.py:81-118 | the node returns `EntrezIds`, and upserts exactly the ids it returns when the record database is used, and nothing otherwise |
| FindDatasets.ExtractedFirstSupported | SRAgent/workflows/find_datasets.py:84-89 | the extraction settles on the first try naming "sra" or "gds" in any letter case |
| FindDatasets.ExtractedThreeTries | SRAgent/workflows/find_datasets.py:84 | only the first three tries are consulted |
| FindDatasets.NoSupportedDatabase | SRAgent/workflows/find_datasets.py:90-92 | when none of the three tries names a supported database, no ids and an empty database are returned |
| FindDatasets.ContinueToSrxInfo | SRAgent/workflows/find_datasets.py:121-133 | one input per Entrez id, in order, each carrying the state's database |
| FindDatasets.FinalState | SRAgent/workflows/find_datasets.py:135-162 | the final message is the distinct reports joined by newlines, or "No novel SRX accessions found." without any |
| FindDatasets.FinalMessageReports | SRAgent/workflows/find_datasets.py:154-159 | the "No novel" message comes exactly when no report was found, and otherwise every report found appears in the message |

## Left out

- Network, database and model calls: Entrez, `requests`, the Google API client, BigQuery, psycopg2 and the language model are replaced by oracle parameters; SQL text, query execution, `execute_values` and the `UniqueViolation` handling are not modelled, and `db_get_processed_records`/`db_get_entrez_ids` appear only as the set of ids they return.
- Backoff.Waits: a negative `backoff_factor` makes `time.sleep` raise `ValueError`; the model returns the negative wait instead, and no contract assumes the factor is non-negative.
- PublicationsEval.NormalizeKeepsExactly: for a text ending in a newline only one direction is proved (`NormalizeKeeps`); that `re.sub` there removes a version sitting before the newline is not stated.
- `time.sleep`: the waits are returned as a list of seconds instead of being slept; `datetime.now` and the date range of `esearch_scrna` (with its query building and `DEBUG_MODE` lookup) are not modelled.
- The language-model agents, their prompts and the graph wiring (`create_*_agent`, `create_*_graph`, `StateGraph`, the agent nodes and `invoke_*_graph_node`); the `Send` fan-out is modelled only as the list of payloads.
- Character classes are ASCII: `\d`, `\w`, `\s` and IGNORECASE case folding follow the ASCII rules, not Python's Unicode rules; `str.strip`, `str.lower` and `str.split` likewise.
- Python's `set` order: `list(set(...))` is modelled as first-occurrence deduplication (`Dedup`), one order among those Python may produce. The contracts of `Esearch.EsearchBatch`, `FindDatasets.FinalState`, `AuthorVerification.WalkSubsections` and `AuthorVerification.GetPublicationInfo` equate their results with that first-occurrence model, so they fix an order the program does not promise. With a truthy `max_ids`, `esearch_batch` keeps the first `max_ids` distinct ids in gathering order in the model, while Python keeps a hash-order-dependent set of that size. Only `Esearch.Finish`, `FindDatasets.FinalMessageReports` and `AuthorVerification.WalkIds` state order-free facts (no duplicates, same elements, bounds) that hold for any order.
- AuthorVerification.WalkSubsections: the BioStudies reply is typed (`Attribute`, `Link`, `Subsection`, `Body`), so ill-shaped JSON is not modelled. That covers a body that is not a dict, a truthy `section` that is not a dict, attribute or link entries that are not dicts, and a non-string "Authors" value. Each of these makes an `AttributeError` or `TypeError` escape `get_arrayexpress_publication_info`. Only the `isinstance` test on subsections and the missing-value cases are modelled.
- Dictionary key order and the exact text of `str(dict)`/`str(list)` are not modelled; the printers are parameters.
- JSON floats and the parsing itself: `json.loads` is an oracle returning a JSON value or failing.
- XML parsing and serialisation in `truncate_values` are oracles; the model covers the truncation of each item text.
- Fuzzy matching: the difflib title and journal similarity checks of the evaluator are oracles, and the journal regexes with their optional non-capturing groups are folded into the journal oracle.
- `get_author_year` and `get_arrayexpress_authors`: not part of this model (they only read fields from a remote reply).
- Informational result fields (log messages, `print` output, the texts of the evaluator's notes beyond what scoring reads) are not modelled.
- `determine_database` is imported by `study_info.py` from `tools/utils.py`, which does not define it; the model uses the definition in `study_info.py` itself.
- Esearch.GatherSources: the page's "Count" is taken as one total for the whole query, the same on every page.
- GoogleSearch.FindPublicationIdWithRetry: the `HttpError` branch of the retry loop is unreachable, because `google_search` catches it and returns an "ERROR" string; `EveryErrorRetried` states this, so a 429 and any other HTTP error are retried alike. The generic `except Exception` branch is reachable but not modelled: a negative `backoff_factor` makes `time.sleep` raise inside the `try`, and the source then returns "ERROR: Error in find_publication_id_with_retry: ..." at once, where `RetryFrom` records the negative wait and keeps retrying; a malformed search item that makes `shorten_results` raise reaches the same branch, and the typed `SearchItem` rules it out.
- GoogleSearch.GoogleSearchTool: the contract states only the mock branch; the search branch is stated by `RetryOutcome` and `FormatResults`, and the final `except` of the tool is not modelled.
- SrxInfo.Prompt: the metadata item descriptions are a parameter, and `str.format` is modelled as substituting only the accession (format fields inside the item texts are not modelled).
- Publications.ExtractPmidPmcid: the concrete input "PMC 10014110" (becoming "PMC10014110") is not evaluated in the verifier; `StrictPmcidShape` states for all inputs that a digits-only capture is prefixed with "PMC".
- Publications.ExtractPmidPmcid: the concrete input "- **PMID:** 36602862" is not evaluated in the verifier; the first-match order it illustrates is stated for all inputs by `FirstMatchingFrom` and `StrictBeforeGeneral`.

## Findings

| source | as written | input that shows it | evidently intended | confidence | as-written member | corrected member |
|---|---|---|---|---|---|---|
| SRAgent/agents/publications.py:350-368 | any truthy text `pmid_from_pmcid` returns is stored as the PMID, including "No PMID found for this PMCID" and the error and exhaustion messages | a record with pmcid "PMC1" and no PMID, where the lookup finds no link: the PMID becomes "No PMID found for this PMCID" | only an identifier the lookup found is stored | not executed | PublicationStream.CrossFillStoresMessage | PublicationStream.CrossFill |
| SRAgent/agents/publications.py:429-445 | the fallback's PMID becomes whatever `pmid_from_pmcid` returned, including its failure texts | pmcid "PMC1", no PMID, and every lookup attempt rate-limited: the PMID becomes "Failed to retrieve PMID after multiple attempts" | the PMID stays missing unless an identifier was found | not executed | PublicationStream.FallbackStoresMessage | PublicationStream.FallbackCrossFill |
