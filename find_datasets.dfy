/** The find-datasets workflow's deterministic nodes: the checks and caps around the
    structured extraction of Entrez ids, `continue_to_srx_info`, which fans the ids out to
    the SRX-info workflow, and `final_state`, which gathers the distinct "# SRX accession: "
    reports. The language model's extraction replies and the record database's ids are
    oracles. */
module FindDatasets {
  import opened Optional
  import opened Chars
  import opened SrxInfo

  // ---- Entrez id extraction -------------------------------------------------------------

  /** The structured reply: `EntrezInfo(entrez_ids, database)`. */
  datatype EntrezInfo = EntrezInfo(entrezIds: seq<int>, database: string)

  /** The node's `configurable` settings: `use_database` and `max_datasets`. */
  datatype Config = Config(useDatabase: bool, maxDatasets: Option<int>)

  const Tries := 3

  predicate Supported(database: string) {
    database == "sra" || database == "gds"
  }

  /** The ids and lower-cased database name the extraction loop settles on, from try
      `attempt` on: the first try naming "sra" or "gds", or else the last try. */
  function Extracted(attempt: nat, extract: nat -> EntrezInfo): EntrezInfo
    requires attempt < Tries
    decreases Tries - attempt
  {
    var reply := extract(attempt);
    var database := Lower(reply.database);
    if Supported(database) || attempt == Tries - 1 then EntrezInfo(reply.entrezIds, database)
    else Extracted(attempt + 1, extract)
  }

  /** `max_datasets` is a positive number below the number of ids. */
  predicate Caps(maxDatasets: Option<int>, count: nat) {
    maxDatasets.Some? && maxDatasets.value > 0 && count > maxDatasets.value
  }

  /** What `invoke_get_entrez_ids_node` returns: nothing without a supported database;
      otherwise the extracted ids, less those already recorded for that database when the
      record database is used, cut to `max_datasets`. So the database is "sra", "gds" or
      empty, and empty means no ids; the ids are a prefix of the extracted ids not yet
      recorded, at most `max_datasets` of them when that is positive, and all of them
      otherwise. */
  function EntrezIds(extract: nat -> EntrezInfo, config: Config, recorded: string -> set<int>): (r: EntrezInfo)
    ensures var got := Extracted(0, extract);
      var novel := if config.useDatabase then Unprocessed(got.entrezIds, recorded(got.database)) else got.entrezIds;
      (r.database == "" || Supported(r.database))
      && (r.database == "" <==> !Supported(got.database))
      && (r.database == "" ==> r.entrezIds == [])
      && (r.database != "" ==> r.database == got.database && r.entrezIds <= novel)
      && (r.database != "" && !Caps(config.maxDatasets, |novel|) ==> r.entrezIds == novel)
      && (config.maxDatasets.Some? && config.maxDatasets.value > 0 ==> |r.entrezIds| <= config.maxDatasets.value)
      && (forall x :: x in r.entrezIds ==> x in got.entrezIds)
      && (config.useDatabase ==> forall x :: x in r.entrezIds ==> x !in recorded(r.database))
  {
    var got := Extracted(0, extract);
    if !Supported(got.database) then EntrezInfo([], "")
    else
      var ids := if config.useDatabase then Unprocessed(got.entrezIds, recorded(got.database)) else got.entrezIds;
      var capped := if Caps(config.maxDatasets, |ids|) then ids[..config.maxDatasets.value] else ids;
      EntrezInfo(capped, got.database)
  }

  /** `invoke_get_entrez_ids_node`: at most three extraction tries, then the checks; the
      ids written to the record database (with the database name) are returned beside. */
  method GetEntrezIds(extract: nat -> EntrezInfo, config: Config, recorded: string -> set<int>)
    returns (info: EntrezInfo, upserted: seq<int>)
    ensures info == EntrezIds(extract, config, recorded)
    ensures upserted == if config.useDatabase then info.entrezIds else []
  {
    var entrezIds: seq<int> := [];
    var database := "";
    var i := 0;
    while i < Tries
      invariant 0 <= i <= Tries
      invariant 0 < i < Tries ==> Extracted(0, extract) == Extracted(i, extract)
      invariant i == Tries ==> Extracted(0, extract) == EntrezInfo(entrezIds, database)
    {
      var response := extract(i);
      entrezIds := response.entrezIds;
      database := Lower(response.database);
      if Supported(database) {
        break;
      }
      i := i + 1;
    }
    if !Supported(database) {
      return EntrezInfo([], ""), [];
    }
    if config.useDatabase {
      entrezIds := Unprocessed(entrezIds, recorded(database));
    }
    if Caps(config.maxDatasets, |entrezIds|) {
      entrezIds := entrezIds[..config.maxDatasets.value];
    }
    upserted := if |entrezIds| > 0 && config.useDatabase then entrezIds else [];
    info := EntrezInfo(entrezIds, database);
  }

  /** The loop settles on the first try from `attempt` on that names a supported
      database, in any letter case. */
  lemma {:induction false} ExtractedFirstSupported(attempt: nat, extract: nat -> EntrezInfo, a: nat)
    requires attempt <= a < Tries && Supported(Lower(extract(a).database))
    requires forall b :: attempt <= b < a ==> !Supported(Lower(extract(b).database))
    ensures Extracted(attempt, extract) == EntrezInfo(extract(a).entrezIds, Lower(extract(a).database))
    decreases a - attempt
  {
    if attempt < a {
      ExtractedFirstSupported(attempt + 1, extract, a);
    }
  }

  /** Only the first three tries are consulted. */
  lemma {:induction false} ExtractedThreeTries(attempt: nat, e1: nat -> EntrezInfo, e2: nat -> EntrezInfo)
    requires attempt < Tries
    requires forall a :: attempt <= a < Tries ==> e1(a) == e2(a)
    ensures Extracted(attempt, e1) == Extracted(attempt, e2)
    decreases Tries - attempt
  {
    assert e1(attempt) == e2(attempt);
    if attempt < Tries - 1 {
      ExtractedThreeTries(attempt + 1, e1, e2);
    }
  }

  /** With no try naming "sra" or "gds" the node returns no ids and an empty database. */
  lemma NoSupportedDatabase(extract: nat -> EntrezInfo, config: Config, recorded: string -> set<int>)
    requires forall a :: 0 <= a < Tries ==> !Supported(Lower(extract(a).database))
    ensures EntrezIds(extract, config, recorded) == EntrezInfo([], "")
  {
    assert !Supported(Lower(extract(0).database));
    assert !Supported(Lower(extract(1).database));
    assert !Supported(Lower(extract(2).database));
  }

  // ---- continue_to_srx_info -------------------------------------------------------------

  /** What is sent to `srx_info_node` for one id. */
  datatype SrxInput = SrxInput(database: string, entrezId: int)

  /** `continue_to_srx_info`: one input per id, in order, each with the state's database. */
  method ContinueToSrxInfo(database: string, entrezIds: seq<int>) returns (sends: seq<SrxInput>)
    ensures |sends| == |entrezIds|
    ensures forall k :: 0 <= k < |entrezIds| ==> sends[k] == SrxInput(database, entrezIds[k])
  {
    sends := [];
    var i := 0;
    while i < |entrezIds|
      invariant 0 <= i <= |entrezIds| && |sends| == i
      invariant forall k :: 0 <= k < i ==> sends[k] == SrxInput(database, entrezIds[k])
    {
      sends := sends + [SrxInput(database, entrezIds[i])];
      i := i + 1;
    }
  }

  // ---- final_state ----------------------------------------------------------------------

  const NoNovel := "No novel SRX accessions found."

  /** The distinct reports joined by newlines, or the "No novel" message without any. */
  function FinalMessage(messages: seq<Message>): string {
    var reports := Dedup(Kept(messages));
    if |reports| == 0 then NoNovel else Join(reports, "\n")
  }

  /** `final_state`. */
  method FinalState(messages: seq<Message>) returns (message: string)
    ensures message == FinalMessage(messages)
  {
    var kept: seq<string> := [];
    var i := 0;
    while i < |messages|
      invariant 0 <= i <= |messages|
      invariant kept + Kept(messages[i..]) == Kept(messages)
    {
      assert Kept(messages[i..]) == Reports(Contents(messages[i])) + Kept(messages[i + 1..]);
      Associative(kept, Reports(Contents(messages[i])), Kept(messages[i + 1..]));
      kept := AppendReports(kept, Contents(messages[i]));
      i := i + 1;
    }
    assert messages[i..] == [];
    assert kept + [] == kept;
    var reports := Dedup(kept);
    if |reports| == 0 {
      message := NoNovel;
    } else {
      message := Join(reports, "\n");
    }
  }

  /** A joined list contains each of its parts. */
  lemma {:induction false} JoinContains(parts: seq<string>, sep: string, k: nat)
    requires k < |parts|
    ensures exists at :: 0 <= at && OccursAt(Join(parts, sep), parts[k], at)
  {
    if |parts| == 1 {
      assert OccursAt(Join(parts, sep), parts[k], 0);
    } else if k == 0 {
      JoinStartsWith(parts, sep);
      assert OccursAt(Join(parts, sep), parts[k], 0);
    } else {
      JoinContains(parts[1..], sep, k - 1);
      var at :| 0 <= at && OccursAt(Join(parts[1..], sep), parts[1..][k - 1], at);
      var prefix := parts[0] + sep;
      assert Join(parts, sep) == prefix + Join(parts[1..], sep);
      assert OccursAt(Join(parts, sep), parts[k], |prefix| + at);
    }
  }

  /** The "No novel" message comes exactly when no report was found, and otherwise every
      report found appears in the message. */
  lemma FinalMessageReports(messages: seq<Message>)
    ensures FinalMessage(messages) == NoNovel <==> Kept(messages) == []
    ensures forall x :: x in Kept(messages) ==> Contains(FinalMessage(messages), x)
  {
    var reports := Dedup(Kept(messages));
    if reports != [] {
      KeptMembers(messages, reports[0]);
      JoinStartsWith(reports, "\n");
      assert FinalMessage(messages)[..|SrxReport|] == SrxReport;
      assert NoNovel[0] != SrxReport[0];
    }
    forall x | x in Kept(messages)
      ensures Contains(FinalMessage(messages), x)
    {
      var k :| 0 <= k < |reports| && reports[k] == x;
      JoinContains(reports, "\n", k);
      var at :| 0 <= at && OccursAt(Join(reports, "\n"), x, at);
      ContainsAt(Join(reports, "\n"), x, at);
    }
  }
}
