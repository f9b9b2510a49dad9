/** Author and publication information from ArrayExpress (BioStudies), SRA and GEO, and
    the published status of bioRxiv and medRxiv preprints. */
module AuthorVerification {
  import opened Optional
  import opened Chars
  import opened Regex
  import opened Backoff

  // ---- _extract_doi -------------------------------------------------------------------

  /** `[-._;()/:\w]` */
  const DoiTail := WordOr({'-', '.', '_', ';', '(', ')', '/', ':'})

  /** `10\.\d{4,9}/[-._;()/:\w]+` */
  const UrlDoiItems: seq<Item> :=
    [One(Lit('1')), One(Lit('0')), One(Lit('.')), Rep(Digit, 4, Some(9), true), One(Lit('/')), Plus(DoiTail)]

  /** The same, as a whole-match pattern, case-sensitive. */
  const UrlDoi: Regexp := Whole(UrlDoiItems, false)

  /** `_extract_doi`: the first DOI-shaped stretch of the text with trailing ".,;)"
      removed, else that text itself when it starts "10.". */
  function ExtractDoi(urlOrDoi: Option<string>): Option<string> {
    if urlOrDoi.None? || urlOrDoi.value == "" then None
    else
      var u := StripRightOf(urlOrDoi.value, {'.', ',', ';', ')'});
      match Capture(UrlDoi, u)
      case Some(d) => Some(d)
      case None => if StartsWith(u, "10.") then Some(u) else None
  }

  predicate DoiTailChar(c: char) {
    IsWord(c) || c in {'-', '.', '_', ';', '(', ')', '/', ':'}
  }

  /** "10.", four to nine digits, "/", then at least one DOI character. */
  predicate UrlDoiShaped(d: string) {
    StartsWith(d, "10.")
    && exists k :: 7 <= k <= 12 && k + 1 < |d| && d[k] == '/' && IsDigits(d[3..k])
                   && forall y :: k < y < |d| ==> DoiTailChar(d[y])
  }

  lemma UrlDoiPieces(t: string, k: nat)
    requires 7 <= k <= 12 && k + 1 < |t| && t[0] == '1' && t[1] == '0' && t[2] == '.' && t[k] == '/'
    requires forall y :: 3 <= y < k ==> IsDigit(t[y])
    requires forall y :: k < y < |t| ==> DoiTailChar(t[y])
    ensures UrlDoiShaped(t)
  {
    assert t[..3] == "10.";
    assert IsDigits(t[3..k]);
  }

  /** What a match of the DOI items consumed, character by character. */
  lemma UrlDoiMatch(s: string, i: nat, pos: seq<nat>)
    requires Fits(UrlDoiItems, s, i, pos, false)
    ensures pos[0] + 3 == pos[3] && pos[3] + 4 <= pos[4] <= pos[3] + 9 && pos[4] + 1 < pos[6] <= |s|
    ensures s[pos[0]] == '1' && s[pos[0] + 1] == '0' && s[pos[0] + 2] == '.' && s[pos[4]] == '/'
    ensures forall y :: pos[3] <= y < pos[4] ==> IsDigit(s[y])
    ensures forall y :: pos[4] < y < pos[6] ==> DoiTailChar(s[y])
  {
    FitsOrdered(UrlDoiItems, s, i, pos, false, 0, 6);
    SingleStep(UrlDoiItems, s, i, pos, false, 0);
    SingleStep(UrlDoiItems, s, i, pos, false, 1);
    SingleStep(UrlDoiItems, s, i, pos, false, 2);
    SingleStep(UrlDoiItems, s, i, pos, false, 4);
    assert StepFits(UrlDoiItems, s, pos, false, 3);
    assert StepFits(UrlDoiItems, s, pos, false, 5);
  }

  /** A DOI the pattern finds has the DOI shape. */
  lemma UrlDoiCapture(u: string)
    ensures Capture(UrlDoi, u).Some? ==> UrlDoiShaped(Capture(UrlDoi, u).value)
  {
    match Search(UrlDoi, u)
    case None =>
    case Some(pos) =>
      UrlDoiMatch(u, pos[0], pos);
      var a := pos[0];
      var t := u[a..pos[6]];
      var k := pos[4] - a;
      assert Capture(UrlDoi, u) == Some(t);
      assert t[0] == u[a] && t[1] == u[a + 1] && t[2] == u[a + 2] && t[k] == u[a + k];
      forall y | 3 <= y < k ensures IsDigit(t[y]) {
        assert t[y] == u[a + y];
      }
      forall y | k < y < |t| ensures DoiTailChar(t[y]) {
        assert t[y] == u[a + y];
      }
      UrlDoiPieces(t, k);
  }

  /** No text gives no DOI, and every DOI found starts "10."; one the pattern finds
      has the full DOI shape. */
  lemma ExtractDoiShape(urlOrDoi: Option<string>)
    ensures urlOrDoi.None? || urlOrDoi.value == "" ==> ExtractDoi(urlOrDoi).None?
    ensures ExtractDoi(urlOrDoi).Some? ==> StartsWith(ExtractDoi(urlOrDoi).value, "10.")
    ensures urlOrDoi.Some? && urlOrDoi.value != "" ==>
      var u := StripRightOf(urlOrDoi.value, {'.', ',', ';', ')'});
      Capture(UrlDoi, u).Some? ==> ExtractDoi(urlOrDoi) == Capture(UrlDoi, u) && UrlDoiShaped(Capture(UrlDoi, u).value)
  {
    if urlOrDoi.Some? && urlOrDoi.value != "" {
      UrlDoiCapture(StripRightOf(urlOrDoi.value, {'.', ',', ';', ')'}));
    }
  }

  /** The characters of a DOI shape with its slash at `k` fit the pattern's items, in order. */
  lemma UrlDoiFits(d: string, k: nat)
    requires StartsWith(d, "10.") && 7 <= k <= 12 && k + 1 < |d| && d[k] == '/' && IsDigits(d[3..k])
    requires forall y :: k < y < |d| ==> DoiTailChar(d[y])
    ensures Fits(UrlDoiItems, d, 0, [0, 1, 2, 3, k, k + 1, |d|], false)
  {
    var pos := [0, 1, 2, 3, k, k + 1, |d|];
    assert d[0] == d[..3][0] && d[1] == d[..3][1] && d[2] == d[..3][2];
    forall x | 3 <= x < k ensures IsDigit(d[x]) {
      assert d[x] == d[3..k][x - 3];
    }
    forall j | 0 <= j < 6 ensures StepFits(UrlDoiItems, d, pos, false, j) {
    }
  }

  /** The pattern finds a DOI-shaped text whole: the greedy digits stop at the slash and
      the greedy tail runs to the end. */
  lemma UrlDoiFindsWhole(d: string)
    requires UrlDoiShaped(d)
    ensures Capture(UrlDoi, d) == Some(d)
  {
    var k :| 7 <= k <= 12 && k + 1 < |d| && d[k] == '/' && IsDigits(d[3..k])
             && forall y :: k < y < |d| ==> DoiTailChar(d[y]);
    UrlDoiFits(d, k);
    SearchComplete(UrlDoi, d, 0, [0, 1, 2, 3, k, k + 1, |d|]);
    var m := Search(UrlDoi, d).value;
    assert m[0] == 0;
    UrlDoiMatch(d, 0, m);
    forall y | 3 <= y < k ensures IsDigit(d[y]) {
      assert d[y] == d[3..k][y - 3];
    }
    assert m[4] >= k;
    MatchEndsRun(UrlDoiItems, d, 0, false);
    assert MatchFrom(UrlDoiItems, d, 0, false) == Some(m);
    assert forall y :: k < y < |d| ==> InClass(DoiTail, d[y], false);
    assert m[6] == |d|;
    assert d[0..|d|] == d;
  }

  /** The stripping happens first: a DOI followed by ".", ",", ";" or ")" is found
      without them. */
  lemma ExtractDoiStripsTrailing(d: string, tail: string)
    requires UrlDoiShaped(d) && d[|d| - 1] !in {'.', ',', ';', ')'}
    requires forall k :: 0 <= k < |tail| ==> tail[k] in {'.', ',', ';', ')'}
    ensures ExtractDoi(Some(d + tail)) == Some(d)
  {
    var s := d + tail;
    var u := StripRightOf(s, {'.', ',', ';', ')'});
    assert s[..|d|] == d;
    assert u == d;
    UrlDoiFindsWhole(d);
  }

  /** The same for a text that starts "10." but that the pattern does not find: it is
      returned as it stands, trailing ".,;)" removed. */
  lemma ExtractDoiFallbackStrips(d: string, tail: string)
    requires StartsWith(d, "10.") && Capture(UrlDoi, d).None?
    requires d[|d| - 1] !in {'.', ',', ';', ')'}
    requires forall k :: 0 <= k < |tail| ==> tail[k] in {'.', ',', ';', ')'}
    ensures ExtractDoi(Some(d + tail)) == Some(d)
  {
    var s := d + tail;
    var u := StripRightOf(s, {'.', ',', ';', ')'});
    assert s[..|d|] == d;
    assert u == d;
  }

  // ---- the BioStudies walk ------------------------------------------------------------

  /** An entry of an `attributes` list: its "name" and "value", `None` when absent. */
  datatype Attribute = Attribute(name: Option<string>, value: Option<string>)

  /** An entry of a `links` list: its "url", `None` when absent. */
  datatype Link = Link(url: Option<string>)

  /** An entry of `subsections`: not a dict, or its "type", attributes and links. */
  datatype Subsection = NotDict | Sub(kind: Option<string>, attributes: seq<Attribute>, links: seq<Link>)

  /** The walk's locals: `paper_ids`, `authors` and `title`. */
  datatype Walk = Walk(paperIds: seq<string>, authors: seq<Option<string>>, title: Option<string>)

  const NoInfo := Walk([], [], None)

  /** A left fold that stops at the first step that raises (`None`). */
  function FoldOpt<A, B>(w: A, xs: seq<B>, step: (A, B) -> Option<A>): Option<A>
    decreases |xs|
  {
    if xs == [] then Some(w)
    else
      match step(w, xs[0])
      case None => None
      case Some(w1) => FoldOpt(w1, xs[1..], step)
  }

  function Fold<A, B>(w: A, xs: seq<B>, step: (A, B) -> A): A
    decreases |xs|
  {
    if xs == [] then w else Fold(step(w, xs[0]), xs[1..], step)
  }

  function Somes(xs: seq<string>): (r: seq<Option<string>>)
    ensures |r| == |xs| && forall k :: 0 <= k < |xs| ==> r[k] == Some(xs[k])
  {
    seq(|xs|, k requires 0 <= k < |xs| => Some(xs[k]))
  }

  /** One attribute of a Publication subsection; a missing "Authors" value cannot be
      split and raises. */
  function PublicationAttribute(w: Walk, a: Attribute): Option<Walk> {
    if a.name == Some("Title") then
      Some(w.(title := a.value,
              paperIds := if a.value.Some? && a.value.value != "" then w.paperIds + [a.value.value] else w.paperIds))
    else if a.name == Some("Authors") then
      if a.value.None? then None
      else Some(w.(authors := w.authors + Somes(SplitOn(a.value.value, ", "))))
    else if a.name == Some("DOI") then
      var doi := ExtractDoi(a.value);
      Some(if doi.Some? && doi.value != "" then w.(paperIds := w.paperIds + [doi.value]) else w)
    else Some(w)
  }

  /** One link of a Publication subsection; a missing url raises. */
  function PublicationLink(w: Walk, l: Link): Option<Walk> {
    if l.url.None? then None
    else if Contains(l.url.value, "doi.org") then
      var doi := ExtractDoi(l.url);
      Some(if doi.Some? && doi.value != "" then w.(paperIds := w.paperIds + [doi.value]) else w)
    else Some(w)
  }

  function AuthorAttribute(w: Walk, a: Attribute): Walk {
    if a.name == Some("Name") then w.(authors := w.authors + [a.value]) else w
  }

  function TitleAttribute(w: Walk, a: Attribute): Walk {
    if a.name == Some("Text") then w.(title := a.value) else w
  }

  /** One subsection; a Publication subsection ends by removing duplicate ids. */
  function VisitSubsection(w: Walk, s: Subsection): Option<Walk> {
    match s
    case NotDict => Some(w)
    case Sub(kind, attrs, links) =>
      if kind == Some("Publication") then
        match FoldOpt(w, attrs, PublicationAttribute)
        case None => None
        case Some(w1) =>
          match FoldOpt(w1, links, PublicationLink)
          case None => None
          case Some(w2) => Some(w2.(paperIds := Dedup(w2.paperIds)))
      else if kind == Some("Author") then Some(Fold(w, attrs, AuthorAttribute))
      else if kind == Some("Title") then Some(Fold(w, attrs, TitleAttribute))
      else Some(w)
  }

  /** The walk over `section["subsections"]`; `None` when a step raises. */
  function WalkSection(section: Option<seq<Subsection>>): Option<Walk> {
    if section.None? then Some(NoInfo) else FoldOpt(NoInfo, section.value, VisitSubsection)
  }

  /** The loop over a Publication subsection's attributes; `None` when it raises. */
  method PublicationAttributes(w: Walk, attrs: seq<Attribute>) returns (r: Option<Walk>)
    ensures r == FoldOpt(w, attrs, PublicationAttribute)
  {
    var paperIds, authors, title := w.paperIds, w.authors, w.title;
    var j := 0;
    while j < |attrs|
      invariant 0 <= j <= |attrs|
      invariant FoldOpt(w, attrs, PublicationAttribute)
                == FoldOpt(Walk(paperIds, authors, title), attrs[j..], PublicationAttribute)
    {
      var a := attrs[j];
      assert attrs[j..][1..] == attrs[j + 1..];
      if a.name == Some("Title") {
        title := a.value;
        if title.Some? && title.value != "" {
          paperIds := paperIds + [title.value];
        }
      } else if a.name == Some("Authors") {
        if a.value.None? {
          return None;
        }
        authors := authors + Somes(SplitOn(a.value.value, ", "));
      } else if a.name == Some("DOI") {
        var doi := ExtractDoi(a.value);
        if doi.Some? && doi.value != "" {
          paperIds := paperIds + [doi.value];
        }
      }
      j := j + 1;
    }
    r := Some(Walk(paperIds, authors, title));
  }

  /** The loop over a Publication subsection's links; `None` when it raises. */
  method PublicationLinks(w: Walk, links: seq<Link>) returns (r: Option<Walk>)
    ensures r == FoldOpt(w, links, PublicationLink)
  {
    var paperIds := w.paperIds;
    var k := 0;
    while k < |links|
      invariant 0 <= k <= |links|
      invariant FoldOpt(w, links, PublicationLink)
                == FoldOpt(w.(paperIds := paperIds), links[k..], PublicationLink)
    {
      var l := links[k];
      assert links[k..][1..] == links[k + 1..];
      if l.url.None? {
        return None;
      }
      if Contains(l.url.value, "doi.org") {
        var doi := ExtractDoi(l.url);
        if doi.Some? && doi.value != "" {
          paperIds := paperIds + [doi.value];
        }
      }
      k := k + 1;
    }
    r := Some(w.(paperIds := paperIds));
  }

  /** The loop over an Author subsection's attributes. */
  method AuthorAttributes(w: Walk, attrs: seq<Attribute>) returns (r: Walk)
    ensures r == Fold(w, attrs, AuthorAttribute)
  {
    var authors := w.authors;
    var j := 0;
    while j < |attrs|
      invariant 0 <= j <= |attrs|
      invariant Fold(w, attrs, AuthorAttribute) == Fold(w.(authors := authors), attrs[j..], AuthorAttribute)
    {
      assert attrs[j..][1..] == attrs[j + 1..];
      if attrs[j].name == Some("Name") {
        authors := authors + [attrs[j].value];
      }
      j := j + 1;
    }
    r := w.(authors := authors);
  }

  /** The loop over a Title subsection's attributes. */
  method TitleAttributes(w: Walk, attrs: seq<Attribute>) returns (r: Walk)
    ensures r == Fold(w, attrs, TitleAttribute)
  {
    var title := w.title;
    var j := 0;
    while j < |attrs|
      invariant 0 <= j <= |attrs|
      invariant Fold(w, attrs, TitleAttribute) == Fold(w.(title := title), attrs[j..], TitleAttribute)
    {
      assert attrs[j..][1..] == attrs[j + 1..];
      if attrs[j].name == Some("Text") {
        title := attrs[j].value;
      }
      j := j + 1;
    }
    r := w.(title := title);
  }

  /** The nested loops of `get_arrayexpress_publication_info` over the subsections. */
  method WalkSubsections(subs: seq<Subsection>) returns (r: Option<Walk>)
    ensures r == FoldOpt(NoInfo, subs, VisitSubsection)
  {
    var w := NoInfo;
    var i := 0;
    while i < |subs|
      invariant 0 <= i <= |subs|
      invariant FoldOpt(NoInfo, subs, VisitSubsection) == FoldOpt(w, subs[i..], VisitSubsection)
      decreases |subs| - i
    {
      assert subs[i..][1..] == subs[i + 1..];
      match subs[i] {
      case NotDict =>
      case Sub(kind, attrs, links) =>
        if kind == Some("Publication") {
          var afterAttrs := PublicationAttributes(w, attrs);
          if afterAttrs.None? {
            return None;
          }
          var afterLinks := PublicationLinks(afterAttrs.value, links);
          if afterLinks.None? {
            return None;
          }
          w := afterLinks.value.(paperIds := Dedup(afterLinks.value.paperIds));
        } else if kind == Some("Author") {
          w := AuthorAttributes(w, attrs);
        } else if kind == Some("Title") {
          w := TitleAttributes(w, attrs);
        }
      }
      i := i + 1;
    }
    r := Some(w);
  }

  predicate Distinct(xs: seq<string>) {
    forall a, b :: 0 <= a < b < |xs| ==> xs[a] != xs[b]
  }

  /** Ids and authors only ever grow during a Publication subsection's attributes. */
  lemma {:induction false} PublicationAttributesGrow(w: Walk, attrs: seq<Attribute>)
    ensures FoldOpt(w, attrs, PublicationAttribute).Some? ==>
      var r := FoldOpt(w, attrs, PublicationAttribute).value;
      (forall x :: x in w.paperIds ==> x in r.paperIds)
      && (forall j, v :: 0 <= j < |attrs| && attrs[j] == Attribute(Some("Title"), Some(v)) && v != "" ==> v in r.paperIds)
    decreases |attrs|
  {
    if attrs != [] {
      match PublicationAttribute(w, attrs[0])
      case None =>
      case Some(w1) =>
        PublicationAttributesGrow(w1, attrs[1..]);
        var r := FoldOpt(w1, attrs[1..], PublicationAttribute);
        if r.Some? {
          forall j, v | 0 <= j < |attrs| && attrs[j] == Attribute(Some("Title"), Some(v)) && v != ""
            ensures v in r.value.paperIds
          {
            if j > 0 {
              assert attrs[1..][j - 1] == attrs[j];
            } else {
              assert v in w1.paperIds;
            }
          }
        }
    }
  }

  lemma {:induction false} PublicationLinksGrow(w: Walk, links: seq<Link>)
    ensures FoldOpt(w, links, PublicationLink).Some? ==>
      forall x :: x in w.paperIds ==> x in FoldOpt(w, links, PublicationLink).value.paperIds
    decreases |links|
  {
    if links != [] {
      match PublicationLink(w, links[0])
      case None =>
      case Some(w1) => PublicationLinksGrow(w1, links[1..]);
    }
  }

  lemma {:induction false} AuthorsKeepIds(w: Walk, attrs: seq<Attribute>)
    ensures Fold(w, attrs, AuthorAttribute).paperIds == w.paperIds
    decreases |attrs|
  {
    if attrs != [] {
      AuthorsKeepIds(AuthorAttribute(w, attrs[0]), attrs[1..]);
    }
  }

  lemma {:induction false} TitlesKeepIds(w: Walk, attrs: seq<Attribute>)
    ensures Fold(w, attrs, TitleAttribute).paperIds == w.paperIds
    decreases |attrs|
  {
    if attrs != [] {
      TitlesKeepIds(TitleAttribute(w, attrs[0]), attrs[1..]);
    }
  }

  /** The "value" of every attribute named "Name", in order. */
  function Names(attrs: seq<Attribute>): seq<Option<string>> {
    if attrs == [] then []
    else (if attrs[0].name == Some("Name") then [attrs[0].value] else []) + Names(attrs[1..])
  }

  /** An Author subsection appends each "Name" value, missing ones included, and changes
      nothing else. */
  lemma {:induction false} AuthorNames(w: Walk, attrs: seq<Attribute>)
    ensures Fold(w, attrs, AuthorAttribute) == w.(authors := w.authors + Names(attrs))
    decreases |attrs|
  {
    if attrs == [] {
      assert w.authors + [] == w.authors;
    } else {
      var head := if attrs[0].name == Some("Name") then [attrs[0].value] else [];
      var w1 := w.(authors := w.authors + head);
      assert AuthorAttribute(w, attrs[0]) == w1;
      assert Fold(w, attrs, AuthorAttribute) == Fold(w1, attrs[1..], AuthorAttribute);
      AuthorNames(w1, attrs[1..]);
      assert Names(attrs) == head + Names(attrs[1..]);
      assert (w.authors + head) + Names(attrs[1..]) == w.authors + (head + Names(attrs[1..]));
    }
  }

  /** One subsection keeps every id already found and leaves no duplicate behind. */
  lemma SubsectionStep(w: Walk, s: Subsection)
    requires Distinct(w.paperIds)
    ensures VisitSubsection(w, s).Some? ==>
      var r := VisitSubsection(w, s).value;
      Distinct(r.paperIds) && forall x :: x in w.paperIds ==> x in r.paperIds
  {
    match s
    case NotDict =>
    case Sub(kind, attrs, links) =>
      if kind == Some("Publication") {
        PublicationAttributesGrow(w, attrs);
        match FoldOpt(w, attrs, PublicationAttribute)
        case None =>
        case Some(w1) => PublicationLinksGrow(w1, links);
      } else if kind == Some("Author") {
        AuthorsKeepIds(w, attrs);
      } else if kind == Some("Title") {
        TitlesKeepIds(w, attrs);
      }
  }

  /** After the walk the ids are duplicate-free, and the title of every Publication
      subsection is among them. */
  lemma {:induction false} WalkIds(w: Walk, subs: seq<Subsection>)
    requires Distinct(w.paperIds)
    ensures FoldOpt(w, subs, VisitSubsection).Some? ==>
      var r := FoldOpt(w, subs, VisitSubsection).value;
      Distinct(r.paperIds)
      && (forall x :: x in w.paperIds ==> x in r.paperIds)
      && (forall i, j, v :: 0 <= i < |subs| && subs[i].Sub? && subs[i].kind == Some("Publication")
            && 0 <= j < |subs[i].attributes| && subs[i].attributes[j] == Attribute(Some("Title"), Some(v)) && v != ""
            ==> v in r.paperIds)
    decreases |subs|
  {
    if subs != [] {
      SubsectionStep(w, subs[0]);
      match VisitSubsection(w, subs[0])
      case None =>
      case Some(w1) =>
        WalkIds(w1, subs[1..]);
        var r := FoldOpt(w, subs, VisitSubsection);
        if r.Some? {
          forall i, j, v | 0 <= i < |subs| && subs[i].Sub? && subs[i].kind == Some("Publication")
              && 0 <= j < |subs[i].attributes| && subs[i].attributes[j] == Attribute(Some("Title"), Some(v)) && v != ""
            ensures v in r.value.paperIds
          {
            if i > 0 {
              assert subs[1..][i - 1] == subs[i];
            } else {
              var s := subs[0];
              PublicationAttributesGrow(w, s.attributes);
              var w0 := FoldOpt(w, s.attributes, PublicationAttribute).value;
              PublicationLinksGrow(w0, s.links);
            }
          }
        }
    }
  }

  // ---- the request loop ---------------------------------------------------------------

  /** The JSON body: not JSON, or its "section"'s subsections (`None` when there is no
      section or it is empty). */
  datatype Body = NotJson | Json(section: Option<seq<Subsection>>)

  /** What one `requests.get` gave: no response at all, or a status and a body. */
  datatype Reply = Unreachable | Response(status: int, body: Body)

  /** The tool's result, or an exception other than a request error escaping it. */
  datatype Fetched = Fetched(info: Walk) | Escaped

  /** The result of a good response: the walk of its section, or the exception it raised. */
  function Walked(section: Option<seq<Subsection>>): Fetched {
    match WalkSection(section)
    case None => Escaped
    case Some(w) => Fetched(w)
  }

  /** The walk of a good response's section. */
  method WalkBody(section: Option<seq<Subsection>>) returns (r: Fetched)
    ensures r == Walked(section)
  {
    if section.None? {
      return Fetched(NoInfo);
    }
    var w := WalkSubsections(section.value);
    r := if w.None? then Escaped else Fetched(w.value);
  }

  /** One run of the attempts from `attempt` on; `last` is the status of the previous
      response, which the handler reads when a request fails outright. Gives the result,
      the seconds slept and the number of requests made. */
  function FetchFrom(attempt: nat, retries: int, backoff: int, replies: nat -> Reply, last: Option<int>): (Fetched, seq<int>, nat)
    decreases if retries > attempt then retries - attempt else 0
  {
    if attempt >= retries then (Fetched(NoInfo), [], 0)
    else
      var reply := replies(attempt);
      var status := if reply.Response? then Some(reply.status) else last;
      var failed := reply.Unreachable? || reply.status >= 400 || reply.body.NotJson?;
      if !failed then (Walked(reply.body.section), [], 1)
      else if status.None? then (Escaped, [], 1)
      else if status.value == 429 then
        var rest := FetchFrom(attempt + 1, retries, backoff, replies, status);
        (rest.0, [Wait(backoff, attempt)] + rest.1, rest.2 + 1)
      else (Fetched(NoInfo), [], 1)
  }

  /** `get_arrayexpress_publication_info` */
  function PublicationInfo(id: string, retries: int, backoff: int, replies: nat -> Reply): (Fetched, seq<int>, nat) {
    if !StartsWith(id, "E-MTAB-") then (Fetched(NoInfo), [], 0)
    else FetchFrom(0, retries, backoff, replies, None)
  }

  /** The attempt loop, with the walk for a good response. */
  method GetPublicationInfo(id: string, retries: int, backoff: int, replies: nat -> Reply)
    returns (r: Fetched, waits: seq<int>, requests: nat)
    ensures (r, waits, requests) == PublicationInfo(id, retries, backoff, replies)
  {
    if !StartsWith(id, "E-MTAB-") {
      return Fetched(NoInfo), [], 0;
    }
    var last: Option<int> := None;
    waits := [];
    assert [] + FetchFrom(0, retries, backoff, replies, None).1 == FetchFrom(0, retries, backoff, replies, None).1;
    requests := 0;
    var attempt := 0;
    while attempt < retries
      invariant 0 <= attempt && (retries >= 0 ==> attempt <= retries) && requests == attempt
      invariant |waits| == attempt
      invariant FetchFrom(0, retries, backoff, replies, None).0 == FetchFrom(attempt, retries, backoff, replies, last).0
      invariant FetchFrom(0, retries, backoff, replies, None).1 == waits + FetchFrom(attempt, retries, backoff, replies, last).1
      invariant FetchFrom(0, retries, backoff, replies, None).2 == requests + FetchFrom(attempt, retries, backoff, replies, last).2
      decreases retries - attempt
    {
      ghost var f := FetchFrom(attempt, retries, backoff, replies, last);
      assert waits + [] == waits;
      var reply := replies(attempt);
      requests := requests + 1;
      if reply.Response? && reply.status < 400 && reply.body.Json? {
        r := WalkBody(reply.body.section);
        return r, waits, requests;
      }
      if reply.Response? {
        last := Some(reply.status);
      }
      if last.None? {
        return Escaped, waits, requests;
      }
      if last.value != 429 {
        return Fetched(NoInfo), waits, requests;
      }
      ghost var rest := FetchFrom(attempt + 1, retries, backoff, replies, last);
      assert f == (rest.0, [Wait(backoff, attempt)] + rest.1, rest.2 + 1);
      Associative(waits, [Wait(backoff, attempt)], rest.1);
      waits := waits + [Wait(backoff, attempt)];
      attempt := attempt + 1;
    }
    assert waits + [] == waits;
    r := Fetched(NoInfo);
  }

  /** An id that is no ArrayExpress id gives nothing and makes no request. */
  lemma NotArrayExpress(id: string, retries: int, backoff: int, replies: nat -> Reply)
    requires !StartsWith(id, "E-MTAB-")
    ensures PublicationInfo(id, retries, backoff, replies) == (Fetched(NoInfo), [], 0)
  {
  }

  /** Each retry waits `backoff * 2^attempt`, there are never more requests than
      `retries`, and the waits are those of consecutive rate-limited attempts. */
  lemma {:induction false} FetchWaits(attempt: nat, retries: int, backoff: int, replies: nat -> Reply, last: Option<int>)
    ensures var f := FetchFrom(attempt, retries, backoff, replies, last);
      f.1 == Waits(backoff, attempt, |f.1|)
      && |f.1| <= f.2 <= |f.1| + 1
      && (f.2 > 0 ==> attempt + f.2 <= retries)
    decreases if retries > attempt then retries - attempt else 0
  {
    if attempt < retries {
      var reply := replies(attempt);
      var status := if reply.Response? then Some(reply.status) else last;
      FetchWaits(attempt + 1, retries, backoff, replies, status);
    }
  }

  /** A failure other than a rate limit ends the attempts with nothing. */
  lemma FetchStops(attempt: nat, retries: int, backoff: int, replies: nat -> Reply, last: Option<int>)
    requires attempt < retries && replies(attempt).Response?
    requires replies(attempt).status != 429
    requires replies(attempt).status >= 400 || replies(attempt).body.NotJson?
    ensures FetchFrom(attempt, retries, backoff, replies, last) == (Fetched(NoInfo), [], 1)
  {
  }

  // ---- SRA and GEO authors -------------------------------------------------------------

  /** `[author.strip() for author in authors.split(',')]`, or `[]` for a missing or empty
      "Authors" value. */
  function EntrezAuthors(authors: Option<string>): (r: seq<string>) {
    if authors.None? || authors.value == "" then []
    else
      var pieces := SplitOn(authors.value, ",");
      seq(|pieces|, k requires 0 <= k < |pieces| => Strip(pieces[k]))
  }

  /** A missing or empty "Authors" value gives no names. */
  lemma EntrezAuthorsMissing()
    ensures EntrezAuthors(None) == [] && EntrezAuthors(Some("")) == []
  {
  }

  /** One name per comma-separated piece: each is its piece with the surrounding whitespace
      removed, has no comma and no whitespace at either end, and the pieces joined by
      commas give back the whole value. */
  lemma EntrezAuthorsPieces(authors: string)
    requires authors != ""
    ensures var r := EntrezAuthors(Some(authors));
      |r| == |SplitOn(authors, ",")|
      && Join(SplitOn(authors, ","), ",") == authors
      && forall k :: 0 <= k < |r| ==>
           Padded(SplitOn(authors, ",")[k], r[k]) && ',' !in r[k]
           && (r[k] != [] ==> !IsSpace(r[k][0]) && !IsSpace(r[k][|r[k]| - 1]))
  {
    var pieces := SplitOn(authors, ",");
    var r := EntrezAuthors(Some(authors));
    SplitOnPiecesFree(authors, ",");
    JoinSplitOn(authors, ",");
    forall k | 0 <= k < |r|
      ensures Padded(pieces[k], r[k]) && ',' !in r[k]
      ensures r[k] != [] ==> !IsSpace(r[k][0]) && !IsSpace(r[k][|r[k]| - 1])
    {
      assert r[k] == Strip(pieces[k]);
      StripPadded(pieces[k]);
      CharContains(pieces[k], ',');
    }
  }

  // ---- published status ----------------------------------------------------------------

  /** An entry of `collection`: its "published" value, `None` when absent. */
  datatype Preprint = Preprint(published: Option<string>)

  /** The bioRxiv API's answer: an error, or the entries of "collection" (empty when
      missing). */
  datatype RxivReply = RxivFailed | Collection(entries: seq<Preprint>)

  /** The first entry with a truthy "published" decides: "NA" means not published. */
  function FirstPublished(entries: seq<Preprint>): (r: Option<string>)
    ensures r.Some? ==> r.value != "" && r.value != "NA"
  {
    if entries == [] then None
    else
      var p := entries[0].published;
      if p.Some? && p.value != "" then (if p.value == "NA" then None else p)
      else FirstPublished(entries[1..])
  }

  function PublishedStatus(reply: RxivReply): Option<string> {
    match reply
    case RxivFailed => None
    case Collection(entries) => FirstPublished(entries)
  }

  /** `check_biorxiv_published_status` / `check_medrxiv_published_status`. */
  method CheckPublished(reply: RxivReply) returns (r: Option<string>)
    ensures r == PublishedStatus(reply)
  {
    if reply.RxivFailed? {
      return None;
    }
    var entries := reply.entries;
    var i := 0;
    while i < |entries|
      invariant 0 <= i <= |entries|
      invariant FirstPublished(entries) == FirstPublished(entries[i..])
    {
      assert entries[i..][1..] == entries[i + 1..];
      var p := entries[i].published;
      if p.Some? && p.value != "" {
        if p.value == "NA" {
          return None;
        }
        return p;
      }
      i := i + 1;
    }
    return None;
  }

  /** The entry that decides is the first one with a truthy "published". */
  lemma {:induction false} FirstPublishedDecides(entries: seq<Preprint>, k: nat)
    requires k < |entries| && entries[k].published.Some? && entries[k].published.value != ""
    requires forall j :: 0 <= j < k ==> entries[j].published.None? || entries[j].published.value == ""
    ensures FirstPublished(entries) == if entries[k].published == Some("NA") then None else entries[k].published
  {
    if k > 0 {
      FirstPublishedDecides(entries[1..], k - 1);
    }
  }

  /** `check_preprint_published_status`: bioRxiv, then medRxiv only when bioRxiv gave
      nothing; also the servers consulted. */
  function PreprintPublished(doi: string, biorxiv: string -> RxivReply, medrxiv: string -> RxivReply)
    : (r: (Option<string>, seq<string>))
    ensures PublishedStatus(biorxiv(doi)).Some? ==> r == (PublishedStatus(biorxiv(doi)), ["biorxiv"])
    ensures PublishedStatus(biorxiv(doi)).None? ==> r == (PublishedStatus(medrxiv(doi)), ["biorxiv", "medrxiv"])
  {
    var bio := PublishedStatus(biorxiv(doi));
    if bio.Some? && bio.value != "" then (bio, ["biorxiv"])
    else
      var med := PublishedStatus(medrxiv(doi));
      if med.Some? && med.value != "" then (med, ["biorxiv", "medrxiv"]) else (None, ["biorxiv", "medrxiv"])
  }
}
