/** Choosing the Entrez database for an accession and looking up the study's title,
    with the fallback searches `get_study_title_from_accession` makes. */
module StudyInfo {
  import opened Optional
  import opened Chars

  datatype Database = Sra | BioProject | Gds

  function Name(db: Database): string {
    match db
    case Sra => "sra"
    case BioProject => "bioproject"
    case Gds => "gds"
  }

  /** `\d+$` after a prefix under `re.match`: digits up to the end, or up to a final
      newline. */
  predicate DigitsToEnd(s: string) {
    IsDigits(s) || (|s| >= 2 && s[|s| - 1] == '\n' && IsDigits(s[..|s| - 1]))
  }

  /** `re.match(r"^<prefix>\d+$", accession)` */
  predicate Numbered(acc: string, prefix: string) {
    StartsWith(acc, prefix) && DigitsToEnd(acc[|prefix|..])
  }

  /** `determine_database`: exact accession shapes first, then a guess by prefix, then
      "sra". */
  function DetermineDatabase(acc: string): Database {
    if Numbered(acc, "SRR") || Numbered(acc, "ERR") || Numbered(acc, "DRR") then Sra
    else if Numbered(acc, "SRX") || Numbered(acc, "ERX") || Numbered(acc, "DRX") then Sra
    else if Numbered(acc, "SRP") || Numbered(acc, "ERP") || Numbered(acc, "DRP") then Sra
    else if Numbered(acc, "PRJNA") || Numbered(acc, "PRJEB") || Numbered(acc, "PRJDB") then BioProject
    else if Numbered(acc, "GSE") then Gds
    else if Numbered(acc, "GSM") then Gds
    else if Numbered(acc, "GPL") then Gds
    else if StartsWith(acc, "SRA") then Sra
    else if StartsWith(acc, "GEO") then Gds
    else if StartsWith(acc, "PRJ") then BioProject
    else Sra
  }

  lemma StartsWithFirst(acc: string, p: string)
    requires StartsWith(acc, p) && |p| > 0
    ensures |acc| > 0 && acc[0] == p[0]
  {
  }

  /** Run, experiment and study accessions of SRA, ENA and DDBJ go to "sra". */
  lemma SraAccessions(acc: string, prefix: string)
    requires prefix in ["SRR", "ERR", "DRR", "SRX", "ERX", "DRX", "SRP", "ERP", "DRP"]
    requires Numbered(acc, prefix)
    ensures DetermineDatabase(acc) == Sra
  {
  }

  /** The result is "bioproject" exactly for accessions starting "PRJ". */
  lemma BioProjectIffPrj(acc: string)
    ensures DetermineDatabase(acc) == BioProject <==> StartsWith(acc, "PRJ")
  {
    if StartsWith(acc, "PRJ") {
      StartsWithFirst(acc, "PRJ");
    }
    if Numbered(acc, "PRJNA") || Numbered(acc, "PRJEB") || Numbered(acc, "PRJDB") {
      assert acc[..3] == "PRJ";
    }
  }

  /** The result is "gds" exactly for GSE, GSM and GPL accessions and for accessions
      starting "GEO". */
  lemma GdsIffGeo(acc: string)
    ensures DetermineDatabase(acc) == Gds <==>
      Numbered(acc, "GSE") || Numbered(acc, "GSM") || Numbered(acc, "GPL") || StartsWith(acc, "GEO")
  {
    if Numbered(acc, "GSE") || Numbered(acc, "GSM") || Numbered(acc, "GPL") || StartsWith(acc, "GEO") {
      StartsWithFirst(acc, "G");
      assert acc[..1] == "G";
    }
  }

  // ---- get_study_title_from_accession ------------------------------------------------

  /** Entrez esearch: the id list, or the exception's text. */
  datatype SearchReply = SearchFailed(message: string) | Ids(ids: seq<string>)

  /** Entrez esummary: the exception's text, the newer `DocumentSummarySet` form, the
      older list form, or anything else. */
  datatype SummaryReply =
    | SummaryFailed(message: string)
    | DocumentSet(docs: seq<map<string, string>>)
    | SummaryList(docs: seq<map<string, string>>)
    | Unrecognised

  /** The searches in the order they are tried until one finds an id: the accession in
      its own database, in "sra" after "bioproject", then for "PRJNA" accessions the
      number alone in "bioproject" and in "sra". */
  function SearchPlan(acc: string): (plan: seq<(Database, string)>)
    ensures |plan| >= 1 && plan[0] == (DetermineDatabase(acc), acc)
    ensures DetermineDatabase(acc) == BioProject ==> |plan| >= 2 && plan[1] == (Sra, acc)
    ensures StartsWith(acc, "PRJNA") ==>
      |plan| == 4 && plan[2] == (BioProject, acc[5..]) && plan[3] == (Sra, acc[5..])
    ensures !StartsWith(acc, "PRJNA") ==> |plan| <= 2
  {
    var db := DetermineDatabase(acc);
    BioProjectIffPrj(acc);
    assert StartsWith(acc, "PRJNA") ==> acc[..3] == "PRJ";
    [(db, acc)] + (if db == BioProject then [(Sra, acc)] else [])
    + (if StartsWith(acc, "PRJNA") then [(BioProject, acc[5..]), (Sra, acc[5..])] else [])
  }

  datatype Located = LookupFailed(message: string) | NotFound | At(db: Database, id: string)

  /** Trying the searches in order: the first exception ends the lookup, the first
      non-empty id list gives its first id. */
  function FirstHit(plan: seq<(Database, string)>, esearch: (string, string) -> SearchReply): Located {
    if plan == [] then NotFound
    else
      match esearch(Name(plan[0].0), plan[0].1)
      case SearchFailed(m) => LookupFailed(m)
      case Ids(ids) => if ids != [] then At(plan[0].0, ids[0]) else FirstHit(plan[1..], esearch)
  }

  /** A hit comes from some search of the plan after every earlier one found nothing. */
  lemma {:induction false} FirstHitAt(plan: seq<(Database, string)>, esearch: (string, string) -> SearchReply)
    ensures FirstHit(plan, esearch).At? ==>
      exists k :: 0 <= k < |plan| && plan[k].0 == FirstHit(plan, esearch).db
        && esearch(Name(plan[k].0), plan[k].1).Ids?
        && esearch(Name(plan[k].0), plan[k].1).ids != []
        && esearch(Name(plan[k].0), plan[k].1).ids[0] == FirstHit(plan, esearch).id
        && forall j :: 0 <= j < k ==> esearch(Name(plan[j].0), plan[j].1) == Ids([])
    ensures FirstHit(plan, esearch).NotFound? <==>
      forall j :: 0 <= j < |plan| ==> esearch(Name(plan[j].0), plan[j].1) == Ids([])
  {
    if plan != [] {
      FirstHitAt(plan[1..], esearch);
      var r := esearch(Name(plan[0].0), plan[0].1);
      if r == Ids([]) {
        if FirstHit(plan, esearch).At? {
          var k :| 0 <= k < |plan[1..]| && plan[1..][k].0 == FirstHit(plan, esearch).db
            && esearch(Name(plan[1..][k].0), plan[1..][k].1).Ids?
            && esearch(Name(plan[1..][k].0), plan[1..][k].1).ids != []
            && esearch(Name(plan[1..][k].0), plan[1..][k].1).ids[0] == FirstHit(plan, esearch).id
            && forall j :: 0 <= j < k ==> esearch(Name(plan[1..][j].0), plan[1..][j].1) == Ids([]);
          assert plan[k + 1] == plan[1..][k];
          assert forall j :: 1 <= j < k + 1 ==> plan[j] == plan[1..][j - 1];
        }
        assert forall j :: 1 <= j < |plan| ==> plan[j] == plan[1..][j - 1];
      } else {
        assert esearch(Name(plan[0].0), plan[0].1) != Ids([]);
      }
    }
  }

  lemma FirstHitStep(plan: seq<(Database, string)>, esearch: (string, string) -> SearchReply)
    requires plan != [] && esearch(Name(plan[0].0), plan[0].1) == Ids([])
    ensures FirstHit(plan, esearch) == FirstHit(plan[1..], esearch)
  {
  }

  const NoTitle := "No title available"

  function GetOr(info: map<string, string>, key: string, default: string): string {
    if key in info then info[key] else default
  }

  /** The summary text for one of the three databases. */
  function Format(db: Database, info: map<string, string>, acc: string): string {
    match db
    case Sra =>
      "Study Title: " + GetOr(info, "Title", NoTitle) + "\nExperiment Type: "
      + GetOr(info, "ExpType", "Unknown experiment type") + "\nOrganism: "
      + GetOr(info, "Organism", "Unknown organism") + "\nCenter/Institution: "
      + GetOr(info, "Center", "Unknown center") + "\nAccession: " + acc
    case Gds =>
      "Study Title: " + GetOr(info, "title", NoTitle) + "\nSummary: "
      + GetOr(info, "summary", "No summary available") + "\nOrganism: "
      + GetOr(info, "taxon", "Unknown organism") + "\nAccession: " + acc
    case BioProject =>
      "Study Title: " + GetOr(info, "Project_Title", NoTitle) + "\nDescription: "
      + GetOr(info, "Project_Description", "No description available") + "\nOrganism: "
      + GetOr(info, "Project_Organism_Name", "Unknown organism") + "\nAccession: " + acc
  }

  function ParseError(acc: string, db: Database): string {
    "Error: Could not parse summary for accession " + acc + " in database " + Name(db)
  }

  /** What the summary gives; `None` where the newer form holds no document and the
      function falls off its end. */
  function Describe(acc: string, db: Database, summary: SummaryReply): Option<string> {
    match summary
    case SummaryFailed(m) => Some("Error retrieving study title: " + m)
    case DocumentSet(docs) => if docs == [] then None else Some(Format(db, docs[0], acc))
    case SummaryList(docs) => if docs == [] then Some(ParseError(acc, db)) else Some(Format(db, docs[0], acc))
    case Unrecognised => Some(ParseError(acc, db))
  }

  function NoRecords(acc: string): string {
    "Error: No records found for accession " + acc + " in database "
    + Name(DetermineDatabase(acc)) + " or alternatives"
  }

  /** `get_study_title_from_accession` */
  function StudyTitle(acc: string, esearch: (string, string) -> SearchReply,
                      esummary: (string, string) -> SummaryReply): Option<string>
  {
    match FirstHit(SearchPlan(acc), esearch)
    case LookupFailed(m) => Some("Error retrieving study title: " + m)
    case NotFound => Some(NoRecords(acc))
    case At(db, id) => Describe(acc, db, esummary(Name(db), id))
  }

  /** The summary is fetched from the database of the first search that found an id,
      which is always one of "sra", "bioproject" and "gds", so the generic branch for
      other databases is never reached. */
  lemma SummaryDatabase(acc: string, esearch: (string, string) -> SearchReply)
    ensures FirstHit(SearchPlan(acc), esearch).At? ==>
      Name(FirstHit(SearchPlan(acc), esearch).db) in {"sra", "bioproject", "gds"}
  {
  }

  /** The step-by-step lookup, reassigning the database and the search record. */
  method GetStudyTitle(acc: string, esearch: (string, string) -> SearchReply,
                       esummary: (string, string) -> SummaryReply) returns (r: Option<string>)
    ensures r == StudyTitle(acc, esearch, esummary)
  {
    ghost var plan := SearchPlan(acc);
    var database := DetermineDatabase(acc);
    var record := esearch(Name(database), acc);
    if record.SearchFailed? {
      return Some("Error retrieving study title: " + record.message);
    }
    if record.ids == [] {
      FirstHitStep(plan, esearch);
    }
    if record.ids == [] && database == BioProject {
      database := Sra;
      record := esearch("sra", acc);
      if record.SearchFailed? {
        return Some("Error retrieving study title: " + record.message);
      }
      if record.ids == [] {
        FirstHitStep(plan[1..], esearch);
        assert plan[1..][1..] == plan[2..];
      }
    }
    if record.ids == [] {
      ghost var k := if DetermineDatabase(acc) == BioProject then 2 else 1;
      assert FirstHit(plan, esearch) == FirstHit(plan[k..], esearch);
      if StartsWith(acc, "PRJNA") {
        var numericId := acc[5..];
        BioProjectIffPrj(acc);
        assert acc[..3] == "PRJ";
        record := esearch("bioproject", numericId);
        database := BioProject;
        if record.SearchFailed? {
          return Some("Error retrieving study title: " + record.message);
        }
        if record.ids == [] {
          FirstHitStep(plan[2..], esearch);
          assert plan[2..][1..] == plan[3..];
          record := esearch("sra", numericId);
          database := Sra;
          if record.SearchFailed? {
            return Some("Error retrieving study title: " + record.message);
          }
          if record.ids == [] {
            FirstHitStep(plan[3..], esearch);
            assert plan[3..][1..] == [];
          }
        }
      } else {
        assert plan[k..] == [];
      }
      if record.ids == [] {
        return Some(NoRecords(acc));
      }
    }
    r := Describe(acc, database, esummary(Name(database), record.ids[0]));
  }

  // ---- the title fields of other databases --------------------------------------------

  const TitleFields: seq<string> := ["Title", "title", "Project_Title", "name", "Name"]

  /** The first of the title fields the document has, else "No title available". */
  function GenericTitle(info: map<string, string>, fields: seq<string>): (t: string)
    ensures t == NoTitle || exists k :: 0 <= k < |fields| && fields[k] in info && t == info[fields[k]]
    ensures (forall k :: 0 <= k < |fields| ==> fields[k] !in info) ==> t == NoTitle
  {
    if fields == [] then NoTitle
    else if fields[0] in info then info[fields[0]]
    else GenericTitle(info, fields[1..])
  }

  /** The field loop with its early `break`. */
  method FindTitle(info: map<string, string>) returns (title: string)
    ensures title == GenericTitle(info, TitleFields)
  {
    title := NoTitle;
    var i := 0;
    while i < |TitleFields|
      invariant 0 <= i <= |TitleFields|
      invariant title == NoTitle
      invariant GenericTitle(info, TitleFields) == GenericTitle(info, TitleFields[i..])
    {
      if TitleFields[i] in info {
        title := info[TitleFields[i]];
        return;
      }
      assert TitleFields[i..][1..] == TitleFields[i + 1..];
      i := i + 1;
    }
  }

  /** The title is that of the earliest field present. */
  lemma {:induction false} GenericTitleFirst(info: map<string, string>, fields: seq<string>, k: nat)
    requires k < |fields| && fields[k] in info
    requires forall j :: 0 <= j < k ==> fields[j] !in info
    ensures GenericTitle(info, fields) == info[fields[k]]
  {
    if k > 0 {
      GenericTitleFirst(info, fields[1..], k - 1);
    }
  }
}
