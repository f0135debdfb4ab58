/**
 * Helpers of the object-storage plugin: column padding, the bounded integer
 * argument type, paging through an iterable and shaping deletion entries.
 */
module ObjHelpers {
  import opened Wrappers
  import opened Strings
  import opened Dicts
  import opened JsonValue

  const INVALID_PAGE_MSG: string := "No result to show in this page."

  function Spaces(n: nat): (r: string)
    ensures |r| == n && forall i :: 0 <= i < n ==> r[i] == ' '
  {
    seq(n, _ => ' ')
  }

  /**
   * `_pad_to` on the already stringified value. The `length` argument is
   * accepted and ignored: the width is always 10.
   */
  function PadTo(val: string, length: int, rightAlign: bool): (r: string)
    ensures |r| == Max(|val|, 10)
    ensures rightAlign ==> r[|r| - |val|..] == val && forall i :: 0 <= i < |r| - |val| ==> r[i] == ' '
    ensures !rightAlign ==> r[..|val|] == val && forall i :: |val| <= i < |r| ==> r[i] == ' '
  {
    var padding := if |val| < 10 then Spaces(10 - |val|) else "";
    if rightAlign then padding + val else val + padding
  }

  /** Padding never looks at the requested length. */
  lemma PadToIgnoresLength(val: string, a: int, b: int, rightAlign: bool)
    ensures PadTo(val, a, rightAlign) == PadTo(val, b, rightAlign)
  {
  }

  function RestrictedIntMessage(min: int, max: int): string
  {
    "Value must be an integer between " + IntToString(min) + " and " + IntToString(max)
  }

  /**
   * The parser `restricted_int_arg_type(max, min)` returns, applied to the
   * argument text: the parsed integer, or the `ArgumentTypeError` message.
   */
  function RestrictedInt(max: int, min: int, s: string): (r: Result<int, string>)
    ensures r.Ok? <==> ParseInt(s).Some? && min <= ParseInt(s).value <= max
    ensures r.Ok? ==> r.value == ParseInt(s).value
    ensures r.Err? ==> r.error == RestrictedIntMessage(min, max)
  {
    match ParseInt(s)
    case None => Err(RestrictedIntMessage(min, max))
    case Some(value) =>
      if value < min || value > max then Err(RestrictedIntMessage(min, max)) else Ok(value)
  }

  /** Every integer in the inclusive range is accepted as written, both ends included. */
  lemma RestrictedIntAccepts(max: int, min: int, n: int)
    requires min <= n <= max
    ensures RestrictedInt(max, min, IntToString(n)) == Ok(n)
  {
    ParseIntRoundTrip(n);
  }

  /** Every integer outside the range is refused with the range message. */
  lemma RestrictedIntRejects(max: int, min: int, n: int)
    requires n < min || n > max
    ensures RestrictedInt(max, min, IntToString(n)) == Err(RestrictedIntMessage(min, max))
  {
    ParseIntRoundTrip(n);
  }

  /**
   * How `flip_to_page` fails: skipping past the end prints the invalid page
   * message and exits; landing exactly at the end lets the final `next`
   * raise `StopIteration`.
   */
  datatype PageError = InvalidPage(message: string) | Exhausted

  /** `flip_to_page` over the iterable's elements. */
  method FlipToPage<T>(items: seq<T>, page: int) returns (r: Result<T, PageError>)
    ensures var skip := Max(page - 1, 0);
      && (skip < |items| ==> r == Ok(items[skip]))
      && (skip == |items| ==> r == Err(Exhausted))
      && (skip > |items| ==> r == Err(InvalidPage(INVALID_PAGE_MSG)))
  {
    var position := 0;
    var k := 0;
    while k < page - 1
      invariant 0 <= k <= Max(page - 1, 0)
      invariant position == k && position <= |items|
    {
      if position >= |items| {
        return Err(InvalidPage(INVALID_PAGE_MSG));
      }
      position := position + 1;
      k := k + 1;
    }
    if position >= |items| {
      return Err(Exhausted);
    }
    return Ok(items[position]);
  }

  /** One deletion entry: the object's `Key`, and its `VersionId` when versioned. */
  function DeletionEntry(obj: Json, versioned: bool): Result<Json, PyError>
  {
    match Subscript(obj, "Key")
    case Err(e) => Err(e)
    case Ok(key) =>
      if versioned then
        match Subscript(obj, "VersionId")
        case Err(e) => Err(e)
        case Ok(versionId) => Ok(JObj([("Key", key), ("VersionId", versionId)]))
      else Ok(JObj([("Key", key)]))
  }

  function DeletionEntriesOf(objects: seq<Json>, versioned: bool): Result<seq<Json>, PyError>
  {
    if objects == [] then Ok([])
    else
      match DeletionEntry(objects[0], versioned)
      case Err(e) => Err(e)
      case Ok(entry) =>
        match DeletionEntriesOf(objects[1..], versioned)
        case Err(e) => Err(e)
        case Ok(rest) => Ok([entry] + rest)
  }

  /** `_get_objects_for_deletion_from_page` */
  function DeletionEntries(objectType: string, page: Json, versioned: bool): Result<seq<Json>, PyError>
  {
    match GetOrDefault(page, objectType, JList([]))
    case Err(e) => Err(e)
    case Ok(listing) =>
      match Iterate(listing)
      case Err(e) => Err(e)
      case Ok(objects) => DeletionEntriesOf(objects, versioned)
  }

  /** An object listing that carries the fields a deletion entry reads. */
  predicate HasDeletionFields(obj: Json, versioned: bool)
  {
    obj.JObj? && "Key" in Keys(obj.fields) && (versioned ==> "VersionId" in Keys(obj.fields))
  }

  /** An entry has exactly the key `Key`, followed by `VersionId` when versioned, with the object's own values. */
  lemma DeletionEntrySpec(obj: Json, versioned: bool)
    requires HasDeletionFields(obj, versioned)
    ensures var r := DeletionEntry(obj, versioned);
      && r.Ok? && r.value.JObj?
      && Keys(r.value.fields) == (if versioned then ["Key", "VersionId"] else ["Key"])
      && Subscript(r.value, "Key") == Subscript(obj, "Key")
      && (versioned ==> Subscript(r.value, "VersionId") == Subscript(obj, "VersionId"))
  {
    if versioned {
      var key := Subscript(obj, "Key").value;
      var versionId := Subscript(obj, "VersionId").value;
      var d := [("Key", key), ("VersionId", versionId)];
      assert d[0].0 != "VersionId";
      assert d[1..] == [("VersionId", versionId)];
      assert Get(d, "VersionId") == Some(versionId);
    }
  }

  /** Entries correspond one to one, and in order, with the listed objects. */
  lemma {:induction false} DeletionEntriesOfSpec(objects: seq<Json>, versioned: bool)
    requires forall i :: 0 <= i < |objects| ==> HasDeletionFields(objects[i], versioned)
    ensures var r := DeletionEntriesOf(objects, versioned);
      && r.Ok? && |r.value| == |objects|
      && forall i :: 0 <= i < |objects| ==> DeletionEntry(objects[i], versioned) == Ok(r.value[i])
  {
    if objects != [] {
      assert DeletionEntry(objects[0], versioned).Ok?;
      forall i | 0 <= i < |objects[1..]| ensures HasDeletionFields(objects[1..][i], versioned) {
        assert objects[1..][i] == objects[i + 1];
      }
      DeletionEntriesOfSpec(objects[1..], versioned);
      var rest := DeletionEntriesOf(objects[1..], versioned).value;
      var entry := DeletionEntry(objects[0], versioned).value;
      var r := DeletionEntriesOf(objects, versioned).value;
      assert r == [entry] + rest;
      forall i | 0 <= i < |objects| ensures DeletionEntry(objects[i], versioned) == Ok(r[i]) {
        if i > 0 {
          assert objects[i] == objects[1..][i - 1] && r[i] == rest[i - 1];
        }
      }
    }
  }

  /** A page without the listing key gives no entries; a page that is not a mapping has no `.get`. */
  lemma DeletionEntriesAbsent(objectType: string, page: Json, versioned: bool)
    ensures page.JObj? && objectType !in Keys(page.fields) ==> DeletionEntries(objectType, page, versioned) == Ok([])
    ensures !page.JObj? ==> DeletionEntries(objectType, page, versioned) == Err(AttributeError)
  {
  }
}
