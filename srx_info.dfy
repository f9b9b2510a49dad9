/** The SRX-info workflow's deterministic nodes: `continue_to_metadata`, which sends every
    SRX accession not yet processed to the metadata graph, and `final_state`, which gathers
    the "# SRX accession: " reports. The record database's set of processed accessions is
    an oracle value; the metadata item descriptions are a parameter. */
module SrxInfo {
  import opened Optional
  import opened Chars

  // ---- graph messages -------------------------------------------------------------------

  /** An entry of the state's `messages`: a message, or a list of messages (the
      `AttributeError` branch), each given by its `content`. */
  datatype Message = Single(content: string) | Group(contents: seq<string>)

  function Contents(m: Message): seq<string> {
    match m
    case Single(c) => [c]
    case Group(cs) => cs
  }

  const SrxReport := "# SRX accession: "

  /** The contents that start with "# SRX accession: ", in order. */
  function Reports(xs: seq<string>): (r: seq<string>)
    ensures forall k :: 0 <= k < |r| ==> StartsWith(r[k], SrxReport)
    ensures forall x :: x in r <==> x in xs && StartsWith(x, SrxReport)
    ensures |r| <= |xs|
  {
    if xs == [] then []
    else if StartsWith(xs[0], SrxReport) then [xs[0]] + Reports(xs[1..])
    else Reports(xs[1..])
  }

  /** The reports of every message, message by message and in order. */
  function Kept(messages: seq<Message>): seq<string> {
    if messages == [] then [] else Reports(Contents(messages[0])) + Kept(messages[1..])
  }

  /** Keeping distributes over concatenation, so the reports stay in message order. */
  lemma {:induction false} KeptConcat(a: seq<Message>, b: seq<Message>)
    ensures Kept(a + b) == Kept(a) + Kept(b)
  {
    if a != [] {
      assert (a + b)[0] == a[0];
      assert (a + b)[1..] == a[1..] + b;
      KeptConcat(a[1..], b);
      Associative(Reports(Contents(a[0])), Kept(a[1..]), Kept(b));
    } else {
      assert a + b == b;
    }
  }

  /** A content is kept iff it is a report carried by one of the messages. */
  lemma {:induction false} KeptMembers(messages: seq<Message>, x: string)
    ensures x in Kept(messages) <==>
      StartsWith(x, SrxReport) && exists k :: 0 <= k < |messages| && x in Contents(messages[k])
  {
    if messages != [] {
      KeptMembers(messages[1..], x);
      if exists k :: 0 <= k < |messages[1..]| && x in Contents(messages[1..][k]) {
        var k :| 0 <= k < |messages[1..]| && x in Contents(messages[1..][k]);
        assert x in Contents(messages[k + 1]);
      }
      if exists k :: 0 <= k < |messages| && x in Contents(messages[k]) {
        var k :| 0 <= k < |messages| && x in Contents(messages[k]);
        if k > 0 {
          assert x in Contents(messages[1..][k - 1]);
        }
      }
    }
  }

  /** Appends the reports among `contents` to `kept`. */
  method AppendReports(kept: seq<string>, contents: seq<string>) returns (r: seq<string>)
    ensures r == kept + Reports(contents)
  {
    r := kept;
    var j := 0;
    while j < |contents|
      invariant 0 <= j <= |contents|
      invariant r + Reports(contents[j..]) == kept + Reports(contents)
    {
      var x := contents[j];
      assert contents[j..][1..] == contents[j + 1..];
      if StartsWith(x, SrxReport) {
        Associative(r, [x], Reports(contents[j + 1..]));
        r := r + [x];
      }
      j := j + 1;
    }
    assert contents[j..] == [];
    assert r + [] == r;
  }

  /** `final_state`: the reports joined by newlines, no deduplication. */
  method FinalState(messages: seq<Message>) returns (message: string)
    ensures message == Join(Kept(messages), "\n")
  {
    var kept: seq<string> := [];
    var i := 0;
    while i < |messages|
      invariant 0 <= i <= |messages|
      invariant kept + Kept(messages[i..]) == Kept(messages)
    {
      assert Kept(messages[i..]) == Reports(Contents(messages[i])) + Kept(messages[i + 1..]);
      Associative(kept, Reports(Contents(messages[i])), Kept(messages[i + 1..]));
      kept := AppendReports(kept, Contents(messages[i]));
      i := i + 1;
    }
    assert messages[i..] == [];
    assert kept + [] == kept;
    message := Join(kept, "\n");
  }

  /** Joining reports gives the empty string exactly when there are none. */
  lemma {:induction false} ReportsJoinEmpty(messages: seq<Message>)
    ensures Join(Kept(messages), "\n") == "" <==> Kept(messages) == []
  {
    var kept := Kept(messages);
    if kept != [] {
      KeptMembers(messages, kept[0]);
      assert StartsWith(kept[0], SrxReport);
      JoinStartsWith(kept, "\n");
    }
  }

  /** A joined list starts with its first part. */
  lemma JoinStartsWith(parts: seq<string>, sep: string)
    requires parts != []
    ensures |Join(parts, sep)| >= |parts[0]| && Join(parts, sep)[..|parts[0]|] == parts[0]
  {
  }

  // ---- continue_to_metadata -------------------------------------------------------------

  /** The entries not processed yet (not in `processed`), in their order. */
  function Unprocessed<T(==,!new)>(srx: seq<T>, processed: set<T>): (r: seq<T>)
    ensures forall x :: x in r <==> x in srx && x !in processed
    ensures |r| <= |srx|
  {
    if srx == [] then []
    else if srx[0] !in processed then [srx[0]] + Unprocessed(srx[1..], processed)
    else Unprocessed(srx[1..], processed)
  }

  /** The filter keeps the order of the accessions. */
  lemma {:induction false} UnprocessedConcat<T(!new)>(a: seq<T>, b: seq<T>, processed: set<T>)
    ensures Unprocessed(a + b, processed) == Unprocessed(a, processed) + Unprocessed(b, processed)
  {
    if a != [] {
      assert (a + b)[0] == a[0];
      assert (a + b)[1..] == a[1..] + b;
      UnprocessedConcat(a[1..], b, processed);
      if a[0] !in processed {
        Associative([a[0]], Unprocessed(a[1..], processed), Unprocessed(b, processed));
      }
    } else {
      assert a + b == b;
    }
  }

  /** Nothing is dropped when no accession has been processed. */
  lemma {:induction false} NothingProcessed<T(!new)>(srx: seq<T>)
    ensures Unprocessed(srx, {}) == srx
  {
    if srx != [] {
      NothingProcessed(srx[1..]);
    }
  }

  /** The prompt for one accession: the question naming it, then the metadata items, one
      per line. */
  function Prompt(accession: string, items: seq<string>): (r: string)
    ensures StartsWith(r, "For the SRA accession " + accession + ", find the following information:")
  {
    var head := "For the SRA accession " + accession + ", find the following information:";
    JoinStartsWith([head] + items, "\n");
    Join([head] + items, "\n")
  }

  /** What is sent to `metadata_graph_node` for one accession. */
  datatype MetadataInput = MetadataInput(database: string, entrezId: int, srx: string, prompt: string)

  /** The row `add_entrez_id_to_db` writes. */
  datatype EntrezRow = EntrezRow(database: string, entrezId: int)

  /** `continue_to_metadata`: with no accession left the dataset's Entrez id is recorded as
      done and nothing is sent; otherwise one input per accession left, in order. */
  method ContinueToMetadata(database: string, entrezId: int, srx: seq<string>, processed: set<string>, items: seq<string>)
    returns (sends: seq<MetadataInput>, recorded: Option<EntrezRow>)
    ensures var left := Unprocessed(srx, processed);
      (left == [] ==> sends == [] && recorded == Some(EntrezRow(database, entrezId)))
      && (left != [] ==>
            recorded == None && |sends| == |left|
            && forall k :: 0 <= k < |left| ==>
                 sends[k] == MetadataInput(database, entrezId, left[k], Prompt(left[k], items)))
  {
    var left := Unprocessed(srx, processed);
    if |left| == 0 {
      return [], Some(EntrezRow(database, entrezId));
    }
    sends := [];
    recorded := None;
    var i := 0;
    while i < |left|
      invariant 0 <= i <= |left| && |sends| == i
      invariant forall k :: 0 <= k < i ==>
        sends[k] == MetadataInput(database, entrezId, left[k], Prompt(left[k], items))
    {
      sends := sends + [MetadataInput(database, entrezId, left[i], Prompt(left[i], items))];
      i := i + 1;
    }
  }
}
