/**
  PubMed identifier helpers: the PMID <-> PMCID link lookups with their retry loop,
  the formatting of publication details, and the search for a PMID by title.
  Entrez is an oracle: `elink(id, attempt)` is what the `attempt`-th request for `id`
  produces, `search(term)` what a title search for `term` produces.
 */
module Pmid {
  import opened Optional
  import opened Chars
  import opened Backoff

  // ---- link lookups -----------------------------------------------------------

  /** One `Entrez.elink` attempt: an exception with its text, or the records read, each
      a link set given by its `LinkSetDb` entries, each of those the ids of its `Link`
      entries (a missing key reads as an empty list). */
  datatype ElinkReply = Raised(message: string) | Read(records: seq<seq<seq<string>>>)

  /** How a lookup ends. */
  datatype LinkOutcome =
    | Linked(id: string)       // exactly one link
    | Ambiguous                // several links: no basis to choose
    | NoLink                   // a record without links
    | Failed(message: string)  // an error other than a rate limit
    | Exhausted                // every attempt used up

  /** What one attempt leads to: an outcome, a rate-limit wait, or (no records) nothing. */
  datatype Attempt = Decided(outcome: LinkOutcome) | RateLimited | Empty

  function Classify(r: ElinkReply): (a: Attempt)
    ensures a.Decided? ==> !a.outcome.Exhausted?
  {
    match r
    case Raised(m) => if Contains(m, "429") then RateLimited else Decided(Failed(m))
    case Read(records) =>
      if records == [] then Empty
      else if records[0] == [] || records[0][0] == [] then Decided(NoLink)
      else if |records[0][0]| > 1 then Decided(Ambiguous)
      else Decided(Linked(records[0][0][0]))
  }

  /** The attempts of a lookup for `id`, each classified. */
  function Attempts(elink: (string, nat) -> ElinkReply, id: string): (at: nat -> Attempt)
    ensures forall k :: at(k) == Classify(elink(id, k))
  {
    (k: nat) => Classify(elink(id, k))
  }

  /** The lookup from attempt `attempt` on, `at(k)` being what attempt `k` leads to: its
      outcome and the waits slept on the way. */
  function Lookup(at: nat -> Attempt, retries: int, backoff: int, attempt: nat): (LinkOutcome, seq<int>)
    decreases retries - attempt
  {
    if attempt >= retries then (Exhausted, [])
    else match at(attempt)
      case Decided(o) => (o, [])
      case RateLimited =>
        var rest := Lookup(at, retries, backoff, attempt + 1);
        (rest.0, [Wait(backoff, attempt)] + rest.1)
      case Empty => Lookup(at, retries, backoff, attempt + 1)
  }

  /** The `for attempt in range(retries)` loop shared by both lookups. */
  method LinkLookup(elink: (string, nat) -> ElinkReply, id: string, retries: int, backoff: int)
    returns (outcome: LinkOutcome, waits: seq<int>)
    ensures (outcome, waits) == Lookup(Attempts(elink, id), retries, backoff, 0)
  {
    var at := Attempts(elink, id);
    var attempt: nat := 0;
    waits := [];
    assert waits + Lookup(at, retries, backoff, 0).1 == Lookup(at, retries, backoff, 0).1;
    while attempt < retries
      invariant Lookup(at, retries, backoff, 0)
        == (Lookup(at, retries, backoff, attempt).0, waits + Lookup(at, retries, backoff, attempt).1)
      decreases retries - attempt
    {
      var a := Classify(elink(id, attempt));
      assert a == at(attempt);
      if a.Decided? {
        outcome := a.outcome;
        assert waits + [] == waits;
        return;
      } else if a == RateLimited {
        var rest := Lookup(at, retries, backoff, attempt + 1);
        assert waits + ([Wait(backoff, attempt)] + rest.1) == (waits + [Wait(backoff, attempt)]) + rest.1;
        waits := waits + [Wait(backoff, attempt)];
      }
      attempt := attempt + 1;
    }
    outcome := Exhausted;
    assert waits + [] == waits;
  }

  /** The lookup is exhausted exactly when no remaining attempt decides it (no attempt
      decides on exhaustion itself, as `Classify` shows). */
  lemma {:induction false} LookupExhausted(at: nat -> Attempt, retries: int, backoff: int, attempt: nat)
    requires forall k :: attempt <= k < retries && at(k).Decided? ==> !at(k).outcome.Exhausted?
    ensures Lookup(at, retries, backoff, attempt).0 == Exhausted
      <==> forall k :: attempt <= k < retries ==> !at(k).Decided?
    decreases retries - attempt
  {
    if attempt < retries {
      LookupExhausted(at, retries, backoff, attempt + 1);
    }
  }

  /** The first deciding attempt decides the lookup. */
  lemma {:induction false} LookupFirstDecided(at: nat -> Attempt, retries: int, backoff: int, attempt: nat, k: nat)
    requires attempt <= k < retries && at(k).Decided?
    requires forall j :: attempt <= j < k ==> !at(j).Decided?
    ensures Lookup(at, retries, backoff, attempt).0 == at(k).outcome
    decreases k - attempt
  {
    if attempt < k {
      LookupFirstDecided(at, retries, backoff, attempt + 1, k);
    }
  }

  /** Consecutive rate limits sleep `backoff * 2 ** attempt` each before the next try. */
  lemma {:induction false} BackoffPrefix(at: nat -> Attempt, retries: int, backoff: int, attempt: nat, n: nat)
    requires attempt <= n <= retries
    requires forall k :: attempt <= k < n ==> at(k) == RateLimited
    ensures Lookup(at, retries, backoff, attempt)
      == (Lookup(at, retries, backoff, n).0, Waits(backoff, attempt, n - attempt) + Lookup(at, retries, backoff, n).1)
    decreases n - attempt
  {
    var rest := Lookup(at, retries, backoff, n);
    if attempt == n {
      assert Waits(backoff, attempt, 0) + rest.1 == rest.1;
    } else {
      BackoffPrefix(at, retries, backoff, attempt + 1, n);
      var ws := Waits(backoff, attempt + 1, n - attempt - 1);
      WaitsCons(backoff, attempt, n - attempt - 1);
      assert [Wait(backoff, attempt)] + (ws + rest.1) == ([Wait(backoff, attempt)] + ws) + rest.1;
    }
  }

  /** When every attempt hits the rate limit the lookup is exhausted after sleeping
      1, 2, 4, ... times the backoff factor. */
  lemma AllRateLimited(at: nat -> Attempt, retries: nat, backoff: int)
    requires forall k :: 0 <= k < retries ==> at(k) == RateLimited
    ensures Lookup(at, retries, backoff, 0) == (Exhausted, Waits(backoff, 0, retries))
  {
    BackoffPrefix(at, retries, backoff, 0, retries);
    assert Waits(backoff, 0, retries) + [] == Waits(backoff, 0, retries);
  }

  /** What `pmcid_from_pmid` returns for an outcome. */
  function PmcidText(o: LinkOutcome): Option<string> {
    match o
    case Linked(id) => Some("PMC" + id)
    case Ambiguous => None
    case NoLink => Some("No PMCID found for this PMID")
    case Failed(m) => Some("Error retrieving PMCID: " + m)
    case Exhausted => Some("Failed to retrieve PMCID after multiple attempts")
  }

  lemma ExhaustedPmcidFirst()
    ensures "Failed to retrieve PMCID after multiple attempts"[0] == 'F'
  {
    assert "Failed to retrieve PMCID after multiple attempts" == "Failed to retrieve PMCID" + " after multiple attempts";
  }

  /** What `pmid_from_pmcid` returns for an outcome. */
  function PmidText(o: LinkOutcome): Option<string> {
    match o
    case Linked(id) => Some(id)
    case Ambiguous => None
    case NoLink => Some("No PMID found for this PMCID")
    case Failed(m) => Some("Error retrieving PMID: " + m)
    case Exhausted => Some("Failed to retrieve PMID after multiple attempts")
  }

  /** A returned PMCID text starts with "PMC" and not with "Error" exactly when one
      link was found; None exactly when the links were ambiguous. */
  lemma PmcidTextFound(o: LinkOutcome)
    ensures (PmcidText(o).Some? && StartsWith(PmcidText(o).value, "PMC")
             && !StartsWith(PmcidText(o).value, "Error")) <==> o.Linked?
    ensures PmcidText(o).None? <==> o.Ambiguous?
  {
    match o
    case Linked(id) => StartsWithConcat("PMC", id); assert ("PMC" + id)[0] == 'P';
    case Failed(m) => assert ("Error retrieving PMCID: " + m)[0] == 'E';
    case NoLink => assert "No PMCID found for this PMID"[0] == 'N';
    case Exhausted => ExhaustedPmcidFirst();
    case Ambiguous =>
  }

  /** `pmcid.removeprefix("PMC")` when it starts with "PMC". */
  function StripPmc(pmcid: string): (r: string)
    ensures StartsWith(pmcid, "PMC") ==> "PMC" + r == pmcid
    ensures !StartsWith(pmcid, "PMC") ==> r == pmcid
  {
    if StartsWith(pmcid, "PMC") then pmcid[3..] else pmcid
  }

  /** Stripping undoes the prefix `pmcid_from_pmid` adds. */
  lemma StripPmcInverse(id: string)
    ensures StripPmc(PmcidText(Linked(id)).value) == id
  {
    assert ("PMC" + id)[..3] == "PMC";
  }

  method PmcidFromPmid(pmid: string, elink: (string, nat) -> ElinkReply, retries: int, backoff: int)
    returns (r: Option<string>, waits: seq<int>)
    ensures (r, waits) == (PmcidText(Lookup(Attempts(elink, pmid), retries, backoff, 0).0), Lookup(Attempts(elink, pmid), retries, backoff, 0).1)
  {
    var o;
    o, waits := LinkLookup(elink, pmid, retries, backoff);
    r := PmcidText(o);
  }

  /** `pmid_from_pmcid`: the lookup is made for the PMCID without its "PMC" prefix. */
  method PmidFromPmcid(pmcid: string, elink: (string, nat) -> ElinkReply, retries: int, backoff: int)
    returns (r: Option<string>, waits: seq<int>)
    ensures (r, waits) == (PmidText(Lookup(Attempts(elink, StripPmc(pmcid)), retries, backoff, 0).0),
                           Lookup(Attempts(elink, StripPmc(pmcid)), retries, backoff, 0).1)
  {
    var id := StripPmc(pmcid);
    var o;
    o, waits := LinkLookup(elink, id, retries, backoff);
    r := PmidText(o);
  }

  // ---- publication details ----------------------------------------------------

  /** The PMCID shown in the details: error and not-found texts become
      "No PMCID available". */
  function DetailsPmcid(t: Option<string>): Option<string> {
    if t.Some? && (StartsWith(t.value, "Error") || t.value == "No PMCID found for this PMID"
                   || t.value == "Failed to retrieve PMCID after multiple attempts")
    then Some("No PMCID available")
    else t
  }

  /** Only a found link survives into the details; ambiguity stays None. */
  lemma DetailsPmcidOutcome(o: LinkOutcome)
    ensures DetailsPmcid(PmcidText(o))
      == (match o
          case Linked(id) => Some("PMC" + id)
          case Ambiguous => None
          case _ => Some("No PMCID available"))
  {
    match o
    case Linked(id) => LinkedPmcidShown(id);
    case Failed(m) => FailedPmcidHidden(m);
    case _ =>
  }

  /** A found PMCID is none of the texts the details hide. */
  lemma LinkedPmcidShown(id: string)
    ensures DetailsPmcid(Some("PMC" + id)) == Some("PMC" + id)
  {
    var v := "PMC" + id;
    assert v[0] == 'P';
    assert !StartsWith(v, "Error") by { assert "Error"[0] == 'E'; }
    assert v != "No PMCID found for this PMID" by { assert "No PMCID found for this PMID"[0] == 'N'; }
    ExhaustedPmcidFirst();
  }

  /** An error text is hidden in the details. */
  lemma FailedPmcidHidden(m: string)
    ensures DetailsPmcid(Some("Error retrieving PMCID: " + m)) == Some("No PMCID available")
  {
    assert "Error retrieving PMCID: " + m == "Error" + (" retrieving PMCID: " + m);
    StartsWithConcat("Error", " retrieving PMCID: " + m);
  }

  /** `f"{year}-{month}-{day}"` when none of the three is missing ("Unknown"), else the year. */
  function PublicationDate(year: Option<string>, month: Option<string>, day: Option<string>): string {
    var y := year.GetOr("Unknown");
    var m := month.GetOr("Unknown");
    var d := day.GetOr("Unknown");
    if y != "Unknown" && m != "Unknown" && d != "Unknown" then y + "-" + m + "-" + d else y
  }

  /** A full date splits back into its parts; a partial one is the year alone. */
  lemma PublicationDateParts(year: Option<string>, month: Option<string>, day: Option<string>)
    ensures var y, m, d := year.GetOr("Unknown"), month.GetOr("Unknown"), day.GetOr("Unknown");
      (y == "Unknown" || m == "Unknown" || d == "Unknown") ==> PublicationDate(year, month, day) == y
    ensures year.Some? && month.Some? && day.Some?
      && year.value != "Unknown" && month.value != "Unknown" && day.value != "Unknown"
      && '-' !in year.value && '-' !in month.value && '-' !in day.value
      ==> SplitOn(PublicationDate(year, month, day), "-") == [year.value, month.value, day.value]
  {
    if year.Some? && month.Some? && day.Some?
      && year.value != "Unknown" && month.value != "Unknown" && day.value != "Unknown"
      && '-' !in year.value && '-' !in month.value && '-' !in day.value
    {
      var y, m, d := year.value, month.value, day.value;
      assert y + "-" + m + "-" + d == y + ['-'] + (m + ['-'] + d);
      SplitOnChar(y, m + ['-'] + d, '-');
      SplitOnChar(m, d, '-');
      SplitOnNoChar(d, '-');
    }
  }

  /** One entry of `AuthorList`. */
  datatype PubAuthor = PubAuthor(lastName: Option<string>, foreName: Option<string>, collectiveName: Option<string>)

  /** "LastName ForeName", else LastName, else CollectiveName, else nothing. */
  function AuthorName(a: PubAuthor): Option<string> {
    if a.lastName.Some? && a.foreName.Some? then Some(a.lastName.value + " " + a.foreName.value)
    else if a.lastName.Some? then a.lastName
    else a.collectiveName
  }

  /** The formatted names of the authors that have one, in order. */
  function AuthorNames(list: seq<PubAuthor>): seq<string> {
    if list == [] then []
    else
      var rest := AuthorNames(list[..|list| - 1]);
      match AuthorName(list[|list| - 1])
      case Some(n) => rest + [n]
      case None => rest
  }

  method FormatAuthors(list: seq<PubAuthor>) returns (authors: seq<string>)
    ensures authors == AuthorNames(list)
  {
    authors := [];
    var i := 0;
    while i < |list|
      invariant 0 <= i <= |list|
      invariant authors == AuthorNames(list[..i])
    {
      assert list[..i + 1][..i] == list[..i];
      var name := AuthorName(list[i]);
      if name.Some? {
        authors := authors + [name.value];
      }
      i := i + 1;
    }
    assert list[..i] == list;
  }

  /** Every named author appears, nothing else does, and only the nameless are skipped. */
  lemma {:induction false} AuthorNamesExact(list: seq<PubAuthor>)
    ensures forall a :: a in list && AuthorName(a).Some? ==> AuthorName(a).value in AuthorNames(list)
    ensures forall n :: n in AuthorNames(list) ==> exists a :: a in list && AuthorName(a) == Some(n)
    ensures |AuthorNames(list)| <= |list|
    ensures |AuthorNames(list)| == |list| <==> forall a :: a in list ==> AuthorName(a).Some?
  {
    if list != [] {
      var init := list[..|list| - 1];
      var last := list[|list| - 1];
      AuthorNamesExact(init);
      assert list == init + [last];
      forall a | a in list && AuthorName(a).Some? ensures AuthorName(a).value in AuthorNames(list) {
        if a != last { assert a in init; }
      }
      forall n | n in AuthorNames(list) ensures exists a :: a in list && AuthorName(a) == Some(n) {
        if n in AuthorNames(init) {
          var a :| a in init && AuthorName(a) == Some(n);
          assert a in list;
        } else {
          assert AuthorName(last) == Some(n);
        }
      }
      if AuthorName(last).None? {
        assert |AuthorNames(list)| < |list|;
      } else if |AuthorNames(list)| == |list| {
        forall a | a in list ensures AuthorName(a).Some? {
          if a != last { assert a in init; }
        }
      }
    }
  }

  // ---- PMID by title ----------------------------------------------------------

  /** `re.sub(r'[^\w\s]', ' ', c)` on one character. */
  function CleanChar(c: char): char {
    if IsWord(c) || IsSpace(c) then c else ' '
  }

  /** Words of word characters separated by single spaces, with no space at either end. */
  predicate SingleSpaced(r: string) {
    (forall k :: 0 <= k < |r| ==> IsWord(r[k]) || r[k] == ' ')
    && (r != [] ==> r[0] != ' ' && r[|r| - 1] != ' ')
    && (forall k :: 0 <= k < |r| - 1 && r[k] == ' ' ==> r[k + 1] != ' ')
  }

  /** The first position from `i` on that holds a word character, or `|s|`. */
  function WordStart(s: string, i: nat): (j: nat)
    requires i <= |s|
    ensures i <= j <= |s| && (j < |s| ==> IsWord(s[j]))
    ensures forall x :: i <= x < j ==> !IsWord(s[x])
    decreases |s| - i
  {
    if i == |s| || IsWord(s[i]) then i else WordStart(s, i + 1)
  }

  /** The first position from `i` on that holds no word character, or `|s|`. */
  function RunEnd(s: string, i: nat): (j: nat)
    requires i <= |s|
    ensures i <= j <= |s| && (j < |s| ==> !IsWord(s[j]))
    ensures forall x :: i <= x < j ==> IsWord(s[x])
    decreases |s| - i
  {
    if i == |s| || !IsWord(s[i]) then i else RunEnd(s, i + 1)
  }

  /** The maximal runs of word characters of `s` from position `i` on, in order. */
  function WordRunsFrom(s: string, i: nat): (runs: seq<string>)
    requires i <= |s|
    ensures forall k, y :: 0 <= k < |runs| && 0 <= y < |runs[k]| ==> IsWord(runs[k][y])
    ensures forall k :: 0 <= k < |runs| ==> runs[k] != []
    decreases |s| - i
  {
    var j := WordStart(s, i);
    if j == |s| then []
    else
      var e := RunEnd(s, j);
      var rest := WordRunsFrom(s, e);
      assert forall y :: 0 <= y < e - j ==> s[j..e][y] == s[j + y];
      assert forall k :: 1 <= k < |rest| + 1 ==> ([s[j..e]] + rest)[k] == rest[k - 1];
      [s[j..e]] + rest
  }

  /** The maximal runs of word characters of `s`. */
  function WordRuns(s: string): seq<string> {
    WordRunsFrom(s, 0)
  }

  /** The title with every character that is neither a word character nor whitespace
      replaced by a space. */
  function Replaced(title: string): (r: string)
    ensures |r| == |title| && forall k :: 0 <= k < |title| ==> r[k] == CleanChar(title[k])
  {
    seq(|title|, k requires 0 <= k < |title| => CleanChar(title[k]))
  }

  /** In the replaced title, whitespace stands exactly where the title has no word
      character, so skipping whitespace there skips non-word characters here. */
  lemma {:induction false} SkipAgrees(title: string, i: nat)
    requires i <= |title|
    ensures SkipSpace(Replaced(title), i) == WordStart(title, i)
    decreases |title| - i
  {
    if i < |title| && !IsWord(title[i]) {
      SkipAgrees(title, i + 1);
    }
  }

  lemma {:induction false} EndAgrees(title: string, i: nat)
    requires i <= |title|
    ensures WordEnd(Replaced(title), i) == RunEnd(title, i)
    decreases |title| - i
  {
    if i < |title| && IsWord(title[i]) {
      EndAgrees(title, i + 1);
    }
  }

  /** The words `split()` finds in the replaced title are the title's word runs. */
  lemma {:induction false} WordsAreRuns(title: string, i: nat)
    requires i <= |title|
    ensures WordsFrom(Replaced(title), i) == WordRunsFrom(title, i)
    decreases |title| - i
  {
    var replaced := Replaced(title);
    SkipAgrees(title, i);
    var j := WordStart(title, i);
    if j < |title| {
      EndAgrees(title, j);
      var e := RunEnd(title, j);
      WordsAreRuns(title, e);
      assert replaced[j..e] == title[j..e];
    }
  }

  /** The title as searched: the title's runs of word characters, joined by single
      spaces — every other character acts as a separator and separators collapse. */
  function CleanTitle(title: string): (r: string)
    ensures r == Join(WordRuns(title), " ")
    ensures SingleSpaced(r)
    ensures |r| <= |title| * 2
  {
    var replaced := Replaced(title);
    var words := SplitWhitespace(replaced);
    WordsAreRuns(title, 0);
    WordsFromAll(replaced, 0, c => IsWord(c) || IsSpace(c));
    JoinSingleSpaced(words);
    SplitWhitespaceLength(replaced);
    Join(words, " ")
  }

  /** Cleaning a cleaned title changes nothing. */
  lemma CleanTitleIdempotent(title: string)
    ensures CleanTitle(CleanTitle(title)) == CleanTitle(title)
  {
    RunsOfJoin(WordRuns(title));
  }

  /** Joining word runs with single spaces and splitting them again gives them back. */
  lemma {:induction false} RunsOfJoin(ws: seq<string>)
    requires forall k :: 0 <= k < |ws| ==> ws[k] != []
    requires forall k, y :: 0 <= k < |ws| && 0 <= y < |ws[k]| ==> IsWord(ws[k][y])
    ensures WordRuns(Join(ws, " ")) == ws
  {
    if ws != [] {
      var w := ws[0];
      if |ws| == 1 {
        assert Join(ws, " ") == w + [];
        FirstRun(w, []);
        assert WordStart(w, |w|) == |w|;
        assert ws == [w];
      } else {
        var rest := Join(ws[1..], " ");
        var s := w + (" " + rest);
        var tail := WordRuns(rest);
        assert tail == ws[1..] by { RunsOfJoin(ws[1..]); }
        assert Join(ws, " ") == s;
        assert WordRunsFrom(s, 0) == [w] + tail by {
          FirstRun(w, " " + rest);
          SkipSeparator(s, |w|);
          assert s == (w + " ") + rest;
          RunsShift(w + " ", rest, 0);
        }
        assert [w] + ws[1..] == ws;
      }
    }
  }

  /** A run of word characters followed by a non-word character (or nothing) is the
      first run found. */
  lemma FirstRun(w: string, t: string)
    requires w != [] && forall y :: 0 <= y < |w| ==> IsWord(w[y])
    requires t == [] || !IsWord(t[0])
    ensures WordRunsFrom(w + t, 0) == [w] + WordRunsFrom(w + t, |w|)
  {
    var s := w + t;
    assert s[0] == w[0];
    assert forall x :: 0 <= x < |w| ==> s[x] == w[x];
    assert |w| < |s| ==> s[|w|] == t[0];
    var e := RunEnd(s, 0);
    assert e == |w|;
    assert s[0..e] == w;
  }

  /** A non-word character only separates runs. */
  lemma SkipSeparator(s: string, i: nat)
    requires i < |s| && !IsWord(s[i])
    ensures WordRunsFrom(s, i) == WordRunsFrom(s, i + 1)
  {
    assert WordStart(s, i) == WordStart(s, i + 1);
  }

  /** Word runs are found the same way behind any prefix. */
  lemma {:induction false} RunsShift(p: string, q: string, i: nat)
    requires i <= |q|
    ensures WordRunsFrom(p + q, |p| + i) == WordRunsFrom(q, i)
    decreases |q| - i
  {
    var s := p + q;
    StartShift(p, q, i);
    var j := WordStart(q, i);
    if j == |q| {
      assert WordStart(s, |p| + i) == |s|;
    } else {
      EndShift(p, q, j);
      var e := RunEnd(q, j);
      RunsShift(p, q, e);
      assert WordRunsFrom(s, |p| + i) == [s[|p| + j..|p| + e]] + WordRunsFrom(s, |p| + e);
      assert s[|p| + j..|p| + e] == q[j..e];
      assert WordRunsFrom(q, i) == [q[j..e]] + WordRunsFrom(q, e);
    }
  }

  lemma {:induction false} StartShift(p: string, q: string, i: nat)
    requires i <= |q|
    ensures WordStart(p + q, |p| + i) == |p| + WordStart(q, i)
    decreases |q| - i
  {
    if i < |q| {
      assert (p + q)[|p| + i] == q[i];
      if !IsWord(q[i]) {
        StartShift(p, q, i + 1);
      }
    }
  }

  lemma {:induction false} EndShift(p: string, q: string, i: nat)
    requires i <= |q|
    ensures RunEnd(p + q, |p| + i) == |p| + RunEnd(q, i)
    decreases |q| - i
  {
    if i < |q| {
      assert (p + q)[|p| + i] == q[i];
      if IsWord(q[i]) {
        EndShift(p, q, i + 1);
      }
    }
  }

  lemma {:induction false} JoinSingleSpaced(words: seq<string>)
    requires forall k :: 0 <= k < |words| ==> words[k] != [] && NoSpace(words[k])
    requires forall k, y :: 0 <= k < |words| && 0 <= y < |words[k]| ==> IsWord(words[k][y]) || IsSpace(words[k][y])
    ensures SingleSpaced(Join(words, " "))
    ensures |words| > 0 ==> |Join(words, " ")| <= |Concat(words)| * 2 - 1
    ensures |words| == 0 ==> Join(words, " ") == []
  {
    if |words| >= 1 {
      var w := words[0];
      assert forall y :: 0 <= y < |w| ==> IsWord(w[y]);
      if |words| >= 2 {
        var tail := words[1..];
        assert forall k :: 0 <= k < |tail| ==> tail[k] == words[k + 1];
        JoinSingleSpaced(tail);
        var r := Join(tail, " ");
        assert Join(words, " ") == w + " " + r;
        var all := w + " " + r;
        forall k | 0 <= k < |all| - 1 && all[k] == ' ' ensures all[k + 1] != ' ' {
          if k > |w| { assert all[k] == r[k - |w| - 1] && all[k + 1] == r[k - |w|]; }
        }
        forall k | 0 <= k < |all| ensures IsWord(all[k]) || all[k] == ' ' {
          if k > |w| { assert all[k] == r[k - |w| - 1]; }
        }
        assert Concat(words) == w + Concat(tail);
      } else {
        assert Concat(words) == w + Concat(words[1..]);
      }
    }
  }

  /** All the strings of `words`, one after the other. */
  function Concat(words: seq<string>): string {
    if words == [] then [] else words[0] + Concat(words[1..])
  }

  /** Splitting on whitespace never adds characters. */
  lemma SplitWhitespaceLength(s: string)
    ensures |Concat(SplitWhitespace(s))| <= |s|
  {
    WordsFromLength(s, 0);
  }

  lemma {:induction false} WordsFromLength(s: string, i: nat)
    requires i <= |s|
    ensures |Concat(WordsFrom(s, i))| <= |s| - i
    decreases |s| - i
  {
    var j := SkipSpace(s, i);
    if j < |s| {
      var e := WordEnd(s, j);
      WordsFromLength(s, e);
      var words := WordsFrom(s, i);
      assert words == [s[j..e]] + WordsFrom(s, e);
      assert Concat(words) == s[j..e] + Concat(WordsFrom(s, e));
    }
  }

  /** One `Entrez.esearch` on the title: an exception (including a reply without
      `Count` or with an empty `IdList` where an id is read), or its count and ids. */
  datatype SearchReply = SearchFailed | SearchResult(count: int, ids: seq<string>)

  function QuotedTerm(cleaned: string): string { "\"" + cleaned + "\"[Title]" }
  function PlainTerm(cleaned: string): string { cleaned + "[Title]" }

  /** The PMID found and the search terms sent, in order. */
  datatype TitleSearch = TitleSearch(pmid: Option<string>, terms: seq<string>)

  /** `pmid_from_title`: the quoted search first, the unquoted one only when the first
      counts nothing; the first id when the final count is positive. */
  function PmidFromTitle(title: string, search: string -> SearchReply): (r: TitleSearch)
    ensures title == "" ==> r == TitleSearch(None, [])
    ensures title != "" ==> 1 <= |r.terms| <= 2 && r.terms[0] == QuotedTerm(CleanTitle(title))
    ensures |r.terms| == 2 ==> search(r.terms[0]).SearchResult? && search(r.terms[0]).count == 0
                               && r.terms[1] == PlainTerm(CleanTitle(title))
    ensures r.pmid.Some? ==>
      var last := search(r.terms[|r.terms| - 1]);
      last.SearchResult? && last.count > 0 && last.ids != [] && r.pmid.value == last.ids[0]
  {
    if title == "" then TitleSearch(None, [])
    else
      var cleaned := CleanTitle(title);
      var first := search(QuotedTerm(cleaned));
      if first.SearchFailed? then TitleSearch(None, [QuotedTerm(cleaned)])
      else
        var terms := if first.count == 0 then [QuotedTerm(cleaned), PlainTerm(cleaned)] else [QuotedTerm(cleaned)];
        var record := search(terms[|terms| - 1]);
        if record.SearchFailed? then TitleSearch(None, terms)
        else if record.count > 0 then
          (if record.ids == [] then TitleSearch(None, terms) else TitleSearch(Some(record.ids[0]), terms))
        else TitleSearch(None, terms)
  }

  /** When the quoted search finds the paper the unquoted one is never sent. */
  lemma QuotedSearchFirst(title: string, search: string -> SearchReply)
    requires title != ""
    requires search(QuotedTerm(CleanTitle(title))).SearchResult?
    requires search(QuotedTerm(CleanTitle(title))).count > 0
    requires search(QuotedTerm(CleanTitle(title))).ids != []
    ensures PmidFromTitle(title, search)
      == TitleSearch(Some(search(QuotedTerm(CleanTitle(title))).ids[0]), [QuotedTerm(CleanTitle(title))])
  {
  }

  /** `pmid_from_title_tool`. */
  function PmidFromTitleMessage(title: string, search: string -> SearchReply): (m: string)
    ensures StartsWith(m, "Found PMID: ") <==>
      (PmidFromTitle(title, search).pmid.Some? && PmidFromTitle(title, search).pmid.value != "")
  {
    var pmid := PmidFromTitle(title, search).pmid;
    if pmid.Some? && pmid.value != "" then
      var m := "Found PMID: " + (pmid.value + " for title: " + title);
      StartsWithConcat("Found PMID: ", pmid.value + " for title: " + title);
      m
    else
      var m := "No PMID found for title: " + title;
      assert m[0] == 'N' != "Found PMID: "[0];
      m
  }
}
