/** Paged Entrez searches: `esearch_batch`, which gathers ids 10000 at a time, and the
    `esearch` tool, which gathers result pages 50 ids at a time. The Entrez server is an
    oracle: the query's total `Count` and, per `retstart`, the page it answers or a
    failure. */
module Esearch {
  import opened Optional
  import opened Chars
  import opened ToolUtils

  // ---- esearch_batch --------------------------------------------------------------------

  const BatchSize := 10000

  /** `max_ids` is truthy. */
  predicate Capped(maxIds: Option<int>) {
    maxIds.Some? && maxIds.value != 0
  }

  /** The ids gathered from `retstart` on, after those in `got`: each page's "IdList" is
      added, then the loop stops once `max_ids` is reached or `retstart` has passed the
      total, and at the first failed request. */
  function Gather(retstart: nat, got: seq<string>, maxIds: Option<int>, total: int, pages: nat -> Option<seq<string>>): seq<string>
    decreases if total > retstart then total - retstart else 0
  {
    match pages(retstart)
    case None => got
    case Some(idList) =>
      var ids := got + idList;
      var next := retstart + BatchSize;
      if Capped(maxIds) && |ids| >= maxIds.value then ids
      else if next >= total then ids
      else Gather(next, ids, maxIds, total, pages)
  }

  /** `ids = list(set(ids))`, then `ids[:max_ids]` when `max_ids` is truthy. */
  function Finish(ids: seq<string>, maxIds: Option<int>): (r: seq<string>)
    ensures forall a, b :: 0 <= a < b < |r| ==> r[a] != r[b]
    ensures forall x :: x in r ==> x in ids
    ensures Capped(maxIds) && maxIds.value > 0 ==> |r| <= maxIds.value
    ensures !Capped(maxIds) ==> forall x :: x in ids ==> x in r
  {
    var unique := Dedup(ids);
    if Capped(maxIds) then
      var r := PyPrefix(unique, maxIds.value);
      assert forall x :: x in r ==> x in unique;
      r
    else unique
  }

  /** `esearch_batch(query, database, max_ids)`. */
  function EsearchBatchResult(maxIds: Option<int>, total: int, pages: nat -> Option<seq<string>>): seq<string> {
    Finish(Gather(0, [], maxIds, total, pages), maxIds)
  }

  /** The `while True` loop of `esearch_batch`. */
  method EsearchBatch(maxIds: Option<int>, total: int, pages: nat -> Option<seq<string>>) returns (ids: seq<string>)
    ensures ids == EsearchBatchResult(maxIds, total, pages)
  {
    ids := [];
    var retstart: nat := 0;
    while true
      invariant Gather(0, [], maxIds, total, pages) == Gather(retstart, ids, maxIds, total, pages)
      decreases if total > retstart then total - retstart else 0
    {
      var searchResults := pages(retstart);
      if searchResults.None? {
        break;
      }
      ids := ids + searchResults.value;
      retstart := retstart + BatchSize;
      if Capped(maxIds) && |ids| >= maxIds.value {
        break;
      }
      if retstart >= total {
        break;
      }
    }
    ids := Finish(ids, maxIds);
  }

  /** Which requests the loop makes: one at each multiple of 10000 below the stopping
      point. Every gathered id is one already held or one of a page at `retstart` or
      later, and the ids already held are kept in front. */
  lemma {:induction false} GatherSources(retstart: nat, got: seq<string>, maxIds: Option<int>, total: int, pages: nat -> Option<seq<string>>)
    ensures var r := Gather(retstart, got, maxIds, total, pages);
      got <= r
      && forall x :: x in r ==>
           x in got || exists k: nat :: pages(retstart + k * BatchSize).Some? && x in pages(retstart + k * BatchSize).value
    decreases if total > retstart then total - retstart else 0
  {
    match pages(retstart)
    case None =>
    case Some(idList) =>
      var ids := got + idList;
      var next := retstart + BatchSize;
      if !(Capped(maxIds) && |ids| >= maxIds.value) && next < total {
        GatherSources(next, ids, maxIds, total, pages);
        var r := Gather(retstart, got, maxIds, total, pages);
        forall x | x in r && x !in got
          ensures exists k: nat :: pages(retstart + k * BatchSize).Some? && x in pages(retstart + k * BatchSize).value
        {
          if x in ids {
            assert pages(retstart + 0 * BatchSize).Some? && x in pages(retstart + 0 * BatchSize).value;
          } else {
            var k: nat :| pages(next + k * BatchSize).Some? && x in pages(next + k * BatchSize).value;
            assert next + k * BatchSize == retstart + (k + 1) * BatchSize;
          }
        }
      }
  }

  /** With no cap, every page the loop reaches before `total` is gathered whole. */
  lemma {:induction false} GatherComplete(retstart: nat, got: seq<string>, total: int, pages: nat -> Option<seq<string>>, n: nat)
    requires forall k: nat :: k <= n ==> pages(retstart + k * BatchSize).Some?
    requires retstart + n * BatchSize < total
    ensures forall x :: x in pages(retstart + n * BatchSize).value ==> x in Gather(retstart, got, None, total, pages)
    decreases n
  {
    assert pages(retstart + 0 * BatchSize).Some?;
    var ids := got + pages(retstart).value;
    if n == 0 {
      forall x | x in pages(retstart).value ensures x in Gather(retstart, got, None, total, pages) {
        assert x in ids;
        if retstart + BatchSize < total {
          GatherSources(retstart + BatchSize, ids, None, total, pages);
        }
      }
    } else {
      var next := retstart + BatchSize;
      forall k: nat | k <= n - 1 ensures pages(next + k * BatchSize).Some? {
        assert next + k * BatchSize == retstart + (k + 1) * BatchSize;
      }
      assert next + (n - 1) * BatchSize == retstart + n * BatchSize;
      GatherComplete(next, ids, total, pages, n - 1);
    }
  }

  // ---- esearch -------------------------------------------------------------------------

  const PageSize := 50

  /** The bare accession prefixes the tool refuses as a query. */
  const BarePrefixes: seq<string> := ["SRR", "ERR", "GSE", "GSM", "GDS", "ERX", "DRR", "PRJ", "SAM", "SRP", "SRX"]

  /** The keys deleted from each page. */
  const Dropped: seq<string> := ["RetMax", "RetStart"]

  /** A page of results, each value as Python prints it. */
  type Page = map<string, string>

  /** `str(search_results)` and `str(records)`. */
  datatype Printer = Printer(page: Page -> string, list: seq<string> -> string)

  /** The page without "RetMax" and "RetStart". */
  function Trimmed(page: Page): (r: Page)
    ensures "RetMax" !in r && "RetStart" !in r
    ensures forall k :: k in page && k != "RetMax" && k != "RetStart" ==> k in r && r[k] == page[k]
    ensures forall k :: k in r ==> k in page
  {
    page - {"RetMax", "RetStart"}
  }

  /** `record` is the page fetched at offset `at`, trimmed and printed. */
  predicate Recorded(pages: nat -> Option<Page>, printer: Printer, at: nat, record: string) {
    pages(at).Some? && record == printer.page(Trimmed(pages(at).value))
  }

  /** The records gathered from `retstart` on after `records`: each page is trimmed and
      printed, and the loop stops after two records in debug mode, once `retstart` has
      passed the total, or at the first failed request. */
  function Collect(retstart: nat, records: seq<string>, debug: bool, total: int, pages: nat -> Option<Page>, printer: Printer): seq<string>
    decreases if total > retstart then total - retstart else 0
  {
    match pages(retstart)
    case None => records
    case Some(page) =>
      var rs := records + [printer.page(Trimmed(page))];
      var next := retstart + PageSize;
      if debug && |rs| >= 2 then rs
      else if next >= total then rs
      else Collect(next, rs, debug, total, pages, printer)
  }

  /** What the `esearch` tool returns. */
  function EsearchResult(query: string, debug: bool, total: int, pages: nat -> Option<Page>, printer: Printer): (r: string)
    ensures query == "" ==> r == "Please provide a valid query."
    ensures query != "" && query in BarePrefixes ==> r == "Invalid query: " + query
  {
    if query == "" then "Please provide a valid query."
    else if query in BarePrefixes then "Invalid query: " + query
    else
      var records := Collect(0, [], debug, total, pages, printer);
      if |records| == 0 then "No records found for query: " + query
      else printer.list(if debug then PyPrefix(records, 2) else records)
  }

  /** The `for key in to_rm` loop deleting keys in place. */
  method DropKeys(page: Page) returns (trimmed: Page)
    ensures trimmed == Trimmed(page)
  {
    trimmed := page;
    var j := 0;
    while j < |Dropped|
      invariant 0 <= j <= |Dropped|
      invariant j == 0 ==> trimmed == page
      invariant j == 1 ==> trimmed == page - {"RetMax"}
      invariant j == 2 ==> trimmed == Trimmed(page)
    {
      var key := Dropped[j];
      if key in trimmed {
        trimmed := trimmed - {key};
      }
      j := j + 1;
    }
  }

  /** The `esearch` tool, with `max_records` = 2 in debug mode. */
  method EsearchTool(query: string, debug: bool, total: int, pages: nat -> Option<Page>, printer: Printer) returns (r: string)
    ensures r == EsearchResult(query, debug, total, pages, printer)
  {
    if query == "" {
      return "Please provide a valid query.";
    }
    var i := 0;
    while i < |BarePrefixes|
      invariant 0 <= i <= |BarePrefixes|
      invariant query !in BarePrefixes[..i]
    {
      if query == BarePrefixes[i] {
        return "Invalid query: " + query;
      }
      assert BarePrefixes[..i + 1] == BarePrefixes[..i] + [BarePrefixes[i]];
      i := i + 1;
    }
    assert BarePrefixes[..i] == BarePrefixes;
    var records: seq<string> := [];
    var retstart: nat := 0;
    while true
      invariant Collect(0, [], debug, total, pages, printer) == Collect(retstart, records, debug, total, pages, printer)
      decreases if total > retstart then total - retstart else 0
    {
      var searchResults := pages(retstart);
      if searchResults.None? {
        break;
      }
      var trimmed := DropKeys(searchResults.value);
      records := records + [printer.page(trimmed)];
      retstart := retstart + PageSize;
      if debug && |records| >= 2 {
        break;
      }
      if retstart >= total {
        break;
      }
    }
    if |records| == 0 {
      return "No records found for query: " + query;
    }
    if debug {
      records := PyPrefix(records, 2);
    }
    r := printer.list(records);
  }

  /** Every record is a page printed without "RetMax" and "RetStart", the records come
      from consecutive pages 50 apart in order, and debug mode never gathers more than
      two. */
  lemma {:induction false} CollectShape(retstart: nat, records: seq<string>, debug: bool, total: int, pages: nat -> Option<Page>, printer: Printer)
    requires debug ==> |records| < 2
    ensures var r := Collect(retstart, records, debug, total, pages, printer);
      records <= r
      && (debug ==> |r| <= 2)
      && forall j :: |records| <= j < |r| ==> Recorded(pages, printer, retstart + (j - |records|) * PageSize, r[j])
    decreases if total > retstart then total - retstart else 0
  {
    match pages(retstart)
    case None =>
    case Some(page) =>
      var rs := records + [printer.page(Trimmed(page))];
      var next := retstart + PageSize;
      if !(debug && |rs| >= 2) && next < total {
        CollectShape(next, rs, debug, total, pages, printer);
        var r := Collect(retstart, records, debug, total, pages, printer);
        assert r == Collect(next, rs, debug, total, pages, printer);
        forall j | |records| <= j < |r|
          ensures Recorded(pages, printer, retstart + (j - |records|) * PageSize, r[j])
        {
          if j == |records| {
            assert r[j] == rs[j];
          } else {
            assert next + (j - |rs|) * PageSize == retstart + (j - |records|) * PageSize;
          }
        }
      }
  }

  /** Debug mode keeps at most two records, so the final `records[:2]` changes nothing. */
  lemma DebugCap(debug: bool, total: int, pages: nat -> Option<Page>, printer: Printer)
    requires debug
    ensures var records := Collect(0, [], debug, total, pages, printer);
      |records| <= 2 && PyPrefix(records, 2) == records
  {
    CollectShape(0, [], debug, total, pages, printer);
  }

  /** No record at all, as when the first request fails, gives the "No records found"
      message. */
  lemma NoRecords(query: string, debug: bool, total: int, pages: nat -> Option<Page>, printer: Printer)
    requires query != "" && query !in BarePrefixes && pages(0).None?
    ensures EsearchResult(query, debug, total, pages, printer) == "No records found for query: " + query
  {
  }
}
