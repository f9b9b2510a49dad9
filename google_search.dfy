/** The Google Custom Search tool: the credential guard, the shortening of result items,
    the retrying search and the text the tool returns. */
module GoogleSearch {
  import opened Optional
  import opened Chars
  import opened Backoff

  // ---- google_search --------------------------------------------------------------------

  /** An entry of the API's "items": its top-level string fields and the "metatags" list of
      its "pagemap" (empty when there is no pagemap or no metatags). */
  datatype SearchItem = SearchItem(fields: map<string, string>, metatags: seq<map<string, string>>)

  /** What the Custom Search API call did: raised an `HttpError`, raised something else, or
      answered with "totalResults" and "items" (empty when absent). */
  datatype ApiReply = ApiHttpError(error: string) | ApiFailure(error: string) | ApiResults(totalResults: int, items: seq<SearchItem>)

  /** `google_search`'s result: an "ERROR..." string or the list of items. */
  datatype Search = Failed(message: string) | Found(items: seq<SearchItem>)

  predicate Truthy(s: Option<string>) {
    s.Some? && s.value != ""
  }

  const NoCredentials := ": Google Search API key or CSE ID not found in environment variables."

  /** `google_search(term, api_key=..., cse_id=...)`, the API's answer given as `reply`. */
  function GoogleSearch(apiKey: Option<string>, cseId: Option<string>, reply: ApiReply): (r: Search)
    ensures !Truthy(apiKey) || !Truthy(cseId) ==> r == Failed("ERROR" + NoCredentials)
    ensures r.Failed? ==> StartsWith(r.message, "ERROR")
    ensures r.Found? <==> Truthy(apiKey) && Truthy(cseId) && reply.ApiResults?
    ensures reply.ApiResults? && reply.totalResults == 0 && r.Found? ==> r.items == []
  {
    var r := if !Truthy(apiKey) || !Truthy(cseId) then Failed("ERROR" + NoCredentials)
      else
        match reply
        case ApiHttpError(e) => Failed("ERROR" + ": Google search API error: " + e)
        case ApiFailure(e) => Failed("ERROR" + ": Error performing Google search: " + e)
        case ApiResults(total, items) => if total == 0 then Found([]) else Found(items);
    if r.Failed? then StartsWithConcat("ERROR", r.message[5..]); assert r.message == "ERROR" + r.message[5..]; r else r
  }

  // ---- shorten_results -----------------------------------------------------------------

  /** `pubmed_pagemap_keep` */
  const Keep: set<string> := {
    "citation_publication_date", "citation_title", "citation_author_institution", "og:site_name",
    "citation_publisher", "citation_journal_title", "og:description", "citation_journal_abbrev",
    "og:title", "citation_author", "title"
  }

  const FirstKeys: set<string> := {"title", "link", "snippet"}

  /** A shortened result: Python's `None` for a field the item lacks. */
  type Shortened = map<string, Option<string>>

  function Get(m: map<string, string>, k: string): Option<string> {
    if k in m then Some(m[k]) else None
  }

  /** `{k: r.get(k) for k in ["title", "link", "snippet"]}` */
  function FirstPart(item: SearchItem): map<string, Option<string>> {
    map["title" := Get(item.fields, "title"), "link" := Get(item.fields, "link"), "snippet" := Get(item.fields, "snippet")]
  }

  /** The kept entries of the first metatags dict. */
  function KeptTags(item: SearchItem): map<string, string> {
    if item.metatags == [] then map[]
    else map k | k in item.metatags[0] && k in Keep :: item.metatags[0][k]
  }

  const Prefix := "pagemap_"

  predicate Unprefixed(tags: map<string, string>) {
    forall k :: k in tags ==> !StartsWith(k, Prefix)
  }

  /** The keys in `cols`, each stored under "pagemap_<key>". */
  function Moved(tags: map<string, string>, cols: set<string>): map<string, string> {
    map m | m in (set k | k in tags && k in cols :: Prefix + k) :: tags[m[|Prefix|..]]
  }

  /** `tags` after the keys in `cols` were popped and stored under their "pagemap_" name. */
  function Renamed(tags: map<string, string>, cols: set<string>): map<string, string> {
    (map k | k in tags && k !in cols :: tags[k]) + Moved(tags, cols)
  }

  function Somes(m: map<string, string>): map<string, Option<string>> {
    map k | k in m :: Some(m[k])
  }

  /** `{**first_part, **pagemap_part}` for one item, the colliding keys
      `set(pagemap_part.keys()) & set(first_part.keys())` renamed. */
  function Shorten(item: SearchItem): Shortened {
    var first := FirstPart(item);
    var tags := KeptTags(item);
    first + Somes(Renamed(tags, tags.Keys * first.Keys))
  }

  /** `shorten_results`: an error string passes through unchanged. */
  datatype Shortening = ErrorText(message: string) | Results(results: seq<Shortened>)

  function ShortenAll(results: Search): (r: Shortening)
    ensures results.Failed? ==> r == ErrorText(results.message)
    ensures results.Found? ==> r.Results? && |r.results| == |results.items|
  {
    match results
    case Failed(m) => ErrorText(m)
    case Found(items) => Results(seq(|items|, i requires 0 <= i < |items| => Shorten(items[i])))
  }

  /** No key of the keep-list looks like a renamed one. */
  lemma KeepUnprefixed(item: SearchItem)
    ensures Unprefixed(KeptTags(item))
  {
    forall k | k in KeptTags(item) ensures !StartsWith(k, Prefix) {
      assert k in Keep;
      assert k[0] != 'p';
    }
  }

  /** Which keys a renaming keeps, which it moves, and that it adds no other. */
  lemma RenamedShape(tags: map<string, string>, cols: set<string>)
    requires Unprefixed(tags)
    ensures var r := Renamed(tags, cols);
      (forall k :: k in tags && k !in cols ==> k in r && r[k] == tags[k])
      && (forall k :: k in tags && k in cols ==> k !in r && Prefix + k in r && r[Prefix + k] == tags[k])
      && (forall m :: m in r ==>
            (m in tags && m !in cols) || (StartsWith(m, Prefix) && m[|Prefix|..] in tags && m[|Prefix|..] in cols))
  {
    var r := Renamed(tags, cols);
    forall k | k in tags && k in cols ensures k !in r && Prefix + k in r && r[Prefix + k] == tags[k] {
      assert (Prefix + k)[|Prefix|..] == k;
      StartsWithConcat(Prefix, k);
      assert Prefix + k !in tags;
    }
    forall k | k in tags && k !in cols ensures k in r && r[k] == tags[k] {
      if k in Moved(tags, cols) {
        var j :| j in tags && j in cols && k == Prefix + j;
        StartsWithConcat(Prefix, j);
      }
    }
    forall m | m in r && m !in tags
      ensures StartsWith(m, Prefix) && m[|Prefix|..] in tags && m[|Prefix|..] in cols
    {
      var j :| j in tags && j in cols && m == Prefix + j;
      StartsWithConcat(Prefix, j);
      assert m[|Prefix|..] == j;
    }
  }

  /** One pass of the rename loop: pop `col` and store it under "pagemap_<col>". */
  lemma RenameStep(tags: map<string, string>, done: set<string>, col: string)
    requires Unprefixed(tags) && col in tags && col !in done
    ensures var part := Renamed(tags, done);
      col in part && Renamed(tags, done + {col}) == (part - {col})[Prefix + col := part[col]]
  {
    RenamedShape(tags, done);
    var part := Renamed(tags, done);
    var after := (part - {col})[Prefix + col := part[col]];
    RenameStepCovers(tags, done, col);
    RenameStepWithin(tags, done, col);
    assert Renamed(tags, done + {col}) == after;
  }

  lemma RenameStepCovers(tags: map<string, string>, done: set<string>, col: string)
    requires Unprefixed(tags) && col in tags && col !in done
    ensures var part := Renamed(tags, done);
      var after := (part - {col})[Prefix + col := part[col]];
      col in part && forall m :: m in Renamed(tags, done + {col}) ==> m in after && after[m] == Renamed(tags, done + {col})[m]
  {
    RenamedShape(tags, done);
    RenamedShape(tags, done + {col});
    var part := Renamed(tags, done);
    var after := (part - {col})[Prefix + col := part[col]];
    var r := Renamed(tags, done + {col});
    forall m | m in r ensures m in after && after[m] == r[m] {
      if m !in tags {
        var j := m[|Prefix|..];
        assert m == Prefix + j;
      }
    }
  }

  lemma RenameStepWithin(tags: map<string, string>, done: set<string>, col: string)
    requires Unprefixed(tags) && col in tags && col !in done
    ensures var part := Renamed(tags, done);
      col in part && forall m :: m in (part - {col})[Prefix + col := part[col]] ==> m in Renamed(tags, done + {col})
  {
    RenamedShape(tags, done);
    RenamedShape(tags, done + {col});
    var part := Renamed(tags, done);
    var after := (part - {col})[Prefix + col := part[col]];
    forall m | m in after ensures m in Renamed(tags, done + {col}) {
      if m != Prefix + col && m !in tags {
        var j := m[|Prefix|..];
        assert m == Prefix + j;
      }
    }
  }

  /** The rename loop over the colliding keys. */
  method RenameColliding(tags: map<string, string>, firstKeys: set<string>) returns (part: map<string, string>)
    requires Unprefixed(tags)
    ensures part == Renamed(tags, tags.Keys * firstKeys)
  {
    part := tags;
    var todo := tags.Keys * firstKeys;
    ghost var done: set<string> := {};
    assert Renamed(tags, {}) == tags;
    while todo != {}
      invariant todo + done == tags.Keys * firstKeys && todo !! done
      invariant part == Renamed(tags, done)
      decreases todo
    {
      var col :| col in todo;
      RenameStep(tags, done, col);
      var value := part[col];
      part := part - {col};
      part := part[Prefix + col := value];
      todo := todo - {col};
      done := done + {col};
    }
  }

  /** The loop of `shorten_results` over the items. */
  method ShortenResults(results: Search) returns (r: Shortening)
    ensures r == ShortenAll(results)
  {
    if results.Failed? {
      return ErrorText(results.message);
    }
    var items := results.items;
    var shortened: seq<Shortened> := [];
    var i := 0;
    while i < |items|
      invariant 0 <= i <= |items|
      invariant |shortened| == i && forall j :: 0 <= j < i ==> shortened[j] == Shorten(items[j])
    {
      var item := items[i];
      var firstPart := FirstPart(item);
      var pagemapPart := KeptTags(item);
      KeepUnprefixed(item);
      pagemapPart := RenameColliding(pagemapPart, firstPart.Keys);
      shortened := shortened + [firstPart + Somes(pagemapPart)];
      i := i + 1;
    }
    r := Results(shortened);
    assert r == ShortenAll(results);
  }

  /** The merge `{**first, **renamed}` when the renamed keys are those of `tags` that
      collide with the short keys of `first`. */
  lemma MergeShape(first: map<string, Option<string>>, tags: map<string, string>)
    requires Unprefixed(tags) && forall k :: k in first ==> |k| < |Prefix|
    ensures var r := first + Somes(Renamed(tags, tags.Keys * first.Keys));
      (forall k :: k in first ==> k in r && r[k] == first[k])
      && (forall k :: k in r && k !in first ==>
            (k in tags && r[k] == Some(tags[k]))
            || (StartsWith(k, Prefix) && k[|Prefix|..] in first && k[|Prefix|..] in tags && r[k] == Some(tags[k[|Prefix|..]])))
      && (forall k :: k in tags && k !in first ==> k in r && r[k] == Some(tags[k]))
      && (forall k :: k in tags && k in first ==> Prefix + k in r && r[Prefix + k] == Some(tags[k]))
  {
    RenamedShape(tags, tags.Keys * first.Keys);
    var moved := Renamed(tags, tags.Keys * first.Keys);
    forall k | k in first ensures k !in moved {
      assert !StartsWith(k, Prefix);
    }
    forall k | k in tags && k in first ensures Prefix + k !in first {
      assert |Prefix + k| >= |Prefix|;
    }
  }

  /** A short key of `first` survives the merge. */
  lemma MergeKeeps(first: map<string, Option<string>>, tags: map<string, string>, k: string)
    requires Unprefixed(tags) && k in first && |k| < |Prefix|
    ensures var r := first + Somes(Renamed(tags, tags.Keys * first.Keys)); k in r && r[k] == first[k]
  {
    RenamedShape(tags, tags.Keys * first.Keys);
    assert !StartsWith(k, Prefix);
  }

  lemma FirstPartKeys(item: SearchItem)
    ensures FirstPart(item).Keys == FirstKeys && forall k :: k in FirstKeys ==> |k| < |Prefix|
  {
  }

  /** A shortened result keeps the item's title, link and snippet, `None` when absent. */
  lemma ShortenKeepsFirst(item: SearchItem)
    ensures var r := Shorten(item);
      r["title"] == Get(item.fields, "title") && r["link"] == Get(item.fields, "link")
      && r["snippet"] == Get(item.fields, "snippet")
  {
    KeepUnprefixed(item);
    var first := FirstPart(item);
    MergeKeeps(first, KeptTags(item), "title");
    MergeKeeps(first, KeptTags(item), "link");
    MergeKeeps(first, KeptTags(item), "snippet");
  }

  /** Every other key of a shortened result is a kept metatag of the first metatags
      entry, under its own name, or under "pagemap_<name>" when it names one of those
      three fields; and every kept metatag is there. */
  lemma ShortenTags(item: SearchItem)
    ensures var r := Shorten(item);
      var tags := KeptTags(item);
      (forall k :: k in r && k !in FirstKeys ==>
            (k in tags && r[k] == Some(tags[k]))
            || (StartsWith(k, Prefix) && k[|Prefix|..] in FirstKeys && k[|Prefix|..] in tags && r[k] == Some(tags[k[|Prefix|..]])))
      && (forall k :: k in tags && k !in FirstKeys ==> k in r && r[k] == Some(tags[k]))
      && (forall k :: k in tags && k in FirstKeys ==> Prefix + k in r && r[Prefix + k] == Some(tags[k]))
  {
    KeepUnprefixed(item);
    FirstPartKeys(item);
    MergeShape(FirstPart(item), KeptTags(item));
  }

  // ---- find_publication_id_with_retry ---------------------------------------------------

  function Exhausted(retries: int): string {
    "ERROR: Failed to retrieve publication ID after " + IntToString(retries) + " attempts"
  }

  /** The attempts from `attempt` on, `search(a)` being what `google_search` gave at
      attempt `a`; gives the result and the seconds slept. */
  function RetryFrom(attempt: nat, retries: int, backoff: int, search: nat -> Search): (Shortening, seq<int>)
    decreases if retries > attempt then retries - attempt else 0
  {
    if attempt >= retries then (ErrorText(Exhausted(retries)), [])
    else if search(attempt).Failed? && StartsWith(search(attempt).message, "ERROR") then
      var rest := RetryFrom(attempt + 1, retries, backoff, search);
      (rest.0, [Wait(backoff, attempt)] + rest.1)
    else (ShortenAll(search(attempt)), [])
  }

  /** `find_publication_id_with_retry`. */
  method FindPublicationIdWithRetry(retries: int, backoff: int, search: nat -> Search)
    returns (r: Shortening, waits: seq<int>)
    ensures (r, waits) == RetryFrom(0, retries, backoff, search)
  {
    waits := [];
    var attempt := 0;
    assert [] + RetryFrom(0, retries, backoff, search).1 == RetryFrom(0, retries, backoff, search).1;
    while attempt < retries
      invariant 0 <= attempt
      invariant var f := RetryFrom(attempt, retries, backoff, search);
        RetryFrom(0, retries, backoff, search) == (f.0, waits + f.1)
      decreases retries - attempt
    {
      assert waits + [] == waits;
      var results := search(attempt);
      if results.Failed? && StartsWith(results.message, "ERROR") {
        ghost var rest := RetryFrom(attempt + 1, retries, backoff, search);
        assert waits + ([Wait(backoff, attempt)] + rest.1) == (waits + [Wait(backoff, attempt)]) + rest.1;
        waits := waits + [Wait(backoff, attempt)];
        attempt := attempt + 1;
        continue;
      }
      r := ShortenResults(results);
      return;
    }
    assert waits + [] == waits;
    r := ErrorText(Exhausted(retries));
  }

  /** An "ERROR" string from the search. */
  predicate Errored(s: Search) {
    s.Failed? && StartsWith(s.message, "ERROR")
  }

  /** The k-th wait is `backoff * 2^k`, one per attempt whose search failed, and only
      attempts below `retries` are made. */
  lemma {:induction false} RetryWaits(attempt: nat, retries: int, backoff: int, search: nat -> Search)
    ensures var f := RetryFrom(attempt, retries, backoff, search); f.1 == Waits(backoff, attempt, |f.1|)
    ensures var f := RetryFrom(attempt, retries, backoff, search); f.1 == [] || attempt + |f.1| <= retries
    ensures var f := RetryFrom(attempt, retries, backoff, search);
      forall a :: attempt <= a < attempt + |f.1| ==> Errored(search(a))
    decreases if retries > attempt then retries - attempt else 0
  {
    if attempt < retries && Errored(search(attempt)) {
      RetryWaits(attempt + 1, retries, backoff, search);
      var rest := RetryFrom(attempt + 1, retries, backoff, search);
      var f := RetryFrom(attempt, retries, backoff, search);
      assert f.1 == [Wait(backoff, attempt)] + rest.1;
      assert Waits(backoff, attempt, |f.1|) == [Wait(backoff, attempt)] + Waits(backoff, attempt + 1, |rest.1|);
    }
  }

  /** The first search that did not fail decides: the result is its shortened items,
      found right after the waits; when every attempt failed it is the "after N attempts"
      error. */
  lemma {:induction false} RetryOutcome(attempt: nat, retries: int, backoff: int, search: nat -> Search)
    requires forall a :: search(a).Failed? ==> StartsWith(search(a).message, "ERROR")
    ensures var f := RetryFrom(attempt, retries, backoff, search);
      (f.0.ErrorText? <==> forall a :: attempt <= a < retries ==> search(a).Failed?)
      && (f.0.ErrorText? ==> f.0.message == Exhausted(retries))
      && (f.0.Results? ==>
            attempt + |f.1| < retries && search(attempt + |f.1|).Found? && f.0 == ShortenAll(search(attempt + |f.1|)))
    decreases if retries > attempt then retries - attempt else 0
  {
    if attempt < retries && search(attempt).Failed? {
      RetryOutcome(attempt + 1, retries, backoff, search);
    }
  }

  /** Every API error, rate limit or not, is retried after a wait: an `HttpError` is
      turned into an "ERROR" string inside the search, so the loop never sees one. */
  lemma EveryErrorRetried(attempt: nat, retries: int, backoff: int, apiKey: Option<string>, cseId: Option<string>, replies: nat -> ApiReply)
    requires attempt < retries && replies(attempt).ApiHttpError?
    ensures var search := (a: nat) => GoogleSearch(apiKey, cseId, replies(a));
      var rest := RetryFrom(attempt + 1, retries, backoff, search);
      RetryFrom(attempt, retries, backoff, search) == (rest.0, [Wait(backoff, attempt)] + rest.1)
  {
  }

  // ---- google_search_tool --------------------------------------------------------------

  function Mock(query: string): string {
    "Google Search API key or CSE ID not found in environment variables.\n"
    + "This is a mock Google search for: " + query + "\n"
    + "In a real implementation, this would use the Google Search API.\n"
    + "Please continue with the workflow using Entrez tools."
  }

  /** `str()` of a field value: `None` prints as "None". */
  function Show(v: Option<string>): string {
    if v.Some? then v.value else "None"
  }

  /** `result.get(key, 'N/A')` */
  function Field(r: Shortened, key: string): string {
    if key in r then Show(r[key]) else "N/A"
  }

  function Line(r: Shortened, key: string, heading: string): string {
    if key in r then heading + ": " + Field(r, key) + "\n" else ""
  }

  /** The block for the `n`-th result. */
  function Block(n: int, r: Shortened): string {
    "Result " + IntToString(n) + ":\n"
    + "Title: " + Field(r, "title") + "\n"
    + "Link: " + Field(r, "link") + "\n"
    + "Snippet: " + Field(r, "snippet") + "\n"
    + Line(r, "citation_publication_date", "Publication Date")
    + Line(r, "citation_author", "Authors")
    + Line(r, "citation_author_institution", "Institution")
    + Line(r, "citation_journal_title", "Journal")
    + "\n"
  }

  /** The blocks of `results`, numbered from `n`. */
  function Blocks(results: seq<Shortened>, n: int): string
    decreases |results|
  {
    if results == [] then "" else Block(n, results[0]) + Blocks(results[1..], n + 1)
  }

  const Heading := "Google Search Results:\n\n"

  /** The formatted text: the heading, then the blocks numbered from 1 in order. */
  function Formatted(results: seq<Shortened>): string {
    Heading + Blocks(results, 1)
  }

  /** The `+=` loop that builds the tool's text, one result's block at a time. */
  method FormatResults(results: seq<Shortened>) returns (text: string)
    ensures text == Formatted(results)
  {
    text := Heading;
    var i := 0;
    while i < |results|
      invariant 0 <= i <= |results|
      invariant text + Blocks(results[i..], i + 1) == Formatted(results)
    {
      var block := Block(i + 1, results[i]);
      assert results[i..][1..] == results[i + 1..];
      assert Blocks(results[i..], i + 1) == block + Blocks(results[i + 1..], i + 2);
      Associative(text, block, Blocks(results[i + 1..], i + 2));
      text := text + block;
      i := i + 1;
    }
    assert text + Blocks(results[i..], i + 1) == text;
  }

  /** `google_search_tool(query)` with the default three attempts and backoff of 2. */
  function GoogleSearchTool(query: string, apiKey: Option<string>, cseId: Option<string>, replies: nat -> ApiReply): (r: string)
    ensures !Truthy(apiKey) || !Truthy(cseId) ==> r == Mock(query)
  {
    if !Truthy(apiKey) || !Truthy(cseId) then Mock(query)
    else
      match RetryFrom(0, 3, 2, (a: nat) => GoogleSearch(apiKey, cseId, replies(a))).0
      case ErrorText(m) => m
      case Results(rs) => Formatted(rs)
  }

  /** A shortened result always has a title, link and snippet, so its block shows the
      item's own values, "None" for a missing one, and never "N/A". */
  lemma FieldsShown(item: SearchItem)
    ensures Field(Shorten(item), "title") == Show(Get(item.fields, "title"))
    ensures Field(Shorten(item), "link") == Show(Get(item.fields, "link"))
    ensures Field(Shorten(item), "snippet") == Show(Get(item.fields, "snippet"))
  {
    ShortenKeepsFirst(item);
  }
}
