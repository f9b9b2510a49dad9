/** Helpers shared by the Entrez tools: chunking id lists and shortening long XML item
    texts. */
module ToolUtils {
  import opened Optional

  // ---- batch_ids ----------------------------------------------------------------------

  /** The slices `ids[i:i + size]` for `i` in `range(0, len(ids), size)`. */
  function Batches<T>(ids: seq<T>, size: nat): seq<seq<T>>
    requires size > 0
    decreases |ids|
  {
    if ids == [] then []
    else if |ids| <= size then [ids]
    else [ids[..size]] + Batches(ids[size..], size)
  }

  /** `batch_ids(ids, batch_size)`: a zero size makes `range` raise, a negative one
      yields no batch. */
  function BatchIds<T>(ids: seq<T>, size: int): (r: Option<seq<seq<T>>>)
    ensures r.None? <==> size == 0
    ensures size < 0 ==> r == Some([])
  {
    if size == 0 then None
    else if size < 0 then Some([])
    else Some(Batches(ids, size))
  }

  function Flatten<T>(parts: seq<seq<T>>): seq<T> {
    if parts == [] then [] else parts[0] + Flatten(parts[1..])
  }

  /** Concatenating the batches gives back the ids, in order. */
  lemma {:induction false} BatchesConcat<T>(ids: seq<T>, size: nat)
    requires size > 0
    ensures Flatten(Batches(ids, size)) == ids
    decreases |ids|
  {
    if ids != [] && |ids| > size {
      BatchesConcat(ids[size..], size);
      assert ([ids[..size]] + Batches(ids[size..], size))[1..] == Batches(ids[size..], size);
      assert ids[..size] + ids[size..] == ids;
    } else if ids != [] {
      assert Flatten([ids]) == ids + Flatten([ids][1..]);
    }
  }

  /** Every batch but the last is full, the last holds between one and `size` ids, and
      only the empty list gives no batch. */
  lemma {:induction false} BatchesSizes<T>(ids: seq<T>, size: nat)
    requires size > 0
    ensures var r := Batches(ids, size);
      (r == [] <==> ids == [])
      && (forall k :: 0 <= k < |r| - 1 ==> |r[k]| == size)
      && (r != [] ==> 1 <= |r[|r| - 1]| <= size)
    decreases |ids|
  {
    if ids != [] && |ids| > size {
      BatchesSizes(ids[size..], size);
      var rest := Batches(ids[size..], size);
      assert Batches(ids, size) == [ids[..size]] + rest;
      assert forall k :: 1 <= k < |rest| + 1 ==> Batches(ids, size)[k] == rest[k - 1];
    }
  }

  // ---- truncate_values ----------------------------------------------------------------

  /** `s[:n]` for any integer `n`: a negative `n` counts from the end. */
  function PyPrefix<T>(s: seq<T>, n: int): (r: seq<T>)
    ensures 0 <= n <= |s| ==> r == s[..n]
    ensures n > |s| ==> r == s
    ensures n < 0 ==> r == s[..if -n >= |s| then 0 else |s| + n]
  {
    if n >= 0 then (if n <= |s| then s[..n] else s)
    else if -n >= |s| then [] else s[..|s| + n]
  }

  const TruncatedMark := "...[truncated]"

  /** The rule applied to one `Item` text. */
  function TruncateText(text: Option<string>, maxLength: int): Option<string> {
    if text.Some? && text.value != "" && |text.value| > maxLength
    then Some(PyPrefix(text.value, maxLength) + TruncatedMark)
    else text
  }

  /** A text longer than the limit keeps its first `maxLength` characters and gains the
      mark; a shorter or equal text, and a missing one, are untouched. */
  lemma TruncateTextRule(text: Option<string>, maxLength: nat)
    ensures text.Some? && |text.value| > maxLength ==>
      TruncateText(text, maxLength) == Some(text.value[..maxLength] + TruncatedMark)
      && |TruncateText(text, maxLength).value| == maxLength + 14
    ensures text.None? || |text.value| <= maxLength ==> TruncateText(text, maxLength) == text
  {
  }

  /** The loop over `root.findall(".//Item")`, rewriting each item's text in place. */
  method TruncateItems(items: array<Option<string>>, maxLength: int)
    modifies items
    ensures forall i :: 0 <= i < items.Length ==> items[i] == TruncateText(old(items[i]), maxLength)
  {
    var i := 0;
    while i < items.Length
      invariant 0 <= i <= items.Length
      invariant forall j :: 0 <= j < i ==> items[j] == TruncateText(old(items[j]), maxLength)
      invariant forall j :: i <= j < items.Length ==> items[j] == old(items[j])
    {
      var text := items[i];
      if text.Some? && text.value != "" && |text.value| > maxLength {
        items[i] := Some(PyPrefix(text.value, maxLength) + TruncatedMark);
      }
      i := i + 1;
    }
  }

  /** A parsed XML record: the texts of its `Item` elements in document order, and the
      record serialised back with given texts in their place. */
  datatype XmlRecord = XmlRecord(texts: seq<Option<string>>, render: seq<Option<string>> -> string)

  /** `truncate_values(record, max_length)`; `parse` is `ET.fromstring`, `None` when the
      record is no well-formed XML. */
  function TruncateValues(record: string, maxLength: int, parse: string -> Option<XmlRecord>): (r: string)
    ensures parse(record).None? ==> r == record
  {
    match parse(record)
    case None => record
    case Some(x) => x.render(seq(|x.texts|, i requires 0 <= i < |x.texts| => TruncateText(x.texts[i], maxLength)))
  }
}
