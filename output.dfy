/**
 * The output renderer (`OutputHandler`): picks the columns to show, pulls
 * sub-tables out of a response, builds the printable rows and shapes them
 * for the table, delimited and JSON writers.
 */
module Output {
  import opened Wrappers
  import opened Strings
  import opened Dicts
  import opened JsonValue
  import opened Sorting

  /** `OutputMode`: the five ways a response can be printed. */
  datatype OutputMode = Table | Delimited | JSON | Markdown | AsciiTable

  /**
   * A response attribute as the renderer uses it: the column name it is
   * printed under and its display priority (`x-linode-cli-display`, where 0
   * stands for an absent or false priority: not shown by default).
   */
  datatype Attr = Attr(columnName: string, display: nat)

  /** The attribute list a response model hands over; column selection removes entries from it. */
  class AttrList {
    var items: seq<Attr>

    constructor (items: seq<Attr>)
      ensures this.items == items
    {
      this.items := items;
    }
  }

  // ---------------------------------------------------------------------------
  // Column selection (`_get_columns`)
  // ---------------------------------------------------------------------------

  function DisplayKey(a: Attr): seq<int>
  {
    [a.display as int]
  }

  predicate Displayed(a: Attr)
  {
    a.display > 0
  }

  /** `[attr for attr in sorted(attrs, key=lambda c: c.display) if attr.display]`. */
  function DefaultColumns(attrs: seq<Attr>): seq<Attr>
  {
    Filter(SortBy(attrs, DisplayKey), Displayed)
  }

  /**
   * The inner loop of name-list selection for one requested name `col`, as
   * (selected, kept). The loop removes a matching attribute from the very
   * list it iterates over, so the attribute right after each removed one is
   * never examined and stays in the list.
   */
  function Scan(col: string, attrs: seq<Attr>): (seq<Attr>, seq<Attr>)
  {
    if attrs == [] then ([], [])
    else if attrs[0].columnName == col then
      if |attrs| == 1 then ([attrs[0]], [])
      else
        var rest := Scan(col, attrs[2..]);
        ([attrs[0]] + rest.0, [attrs[1]] + rest.1)
    else
      var rest := Scan(col, attrs[1..]);
      (rest.0, [attrs[0]] + rest.1)
  }

  /** The outer loop: one scan per requested name, in request order, each on what the last one kept. */
  function SelectNames(names: seq<string>, attrs: seq<Attr>): (seq<Attr>, seq<Attr>)
  {
    if names == [] then ([], attrs)
    else
      var after := Scan(names[0], attrs);
      var rest := SelectNames(names[1..], after.1);
      (after.0 + rest.0, rest.1)
  }

  /** An empty selection falls back to the whole attribute list. */
  function OrAll(selected: seq<Attr>, attrs: seq<Attr>): seq<Attr>
  {
    if selected == [] then attrs else selected
  }

  /** What `_get_columns` returns, paired with what the attribute list holds afterwards. */
  function SelectColumns(directive: Option<string>, attrs: seq<Attr>): (seq<Attr>, seq<Attr>)
  {
    match directive
    case None => (OrAll(DefaultColumns(attrs), attrs), attrs)
    case Some(d) =>
      if d == "*" then (attrs, attrs)
      else
        var (selected, rest) := SelectNames(Split(d, ','), attrs);
        (OrAll(selected, rest), rest)
  }

  /**
   * Without a directive the columns are the attributes with a display
   * priority, in ascending priority, and every one of them.
   */
  lemma DefaultColumnsSorted(attrs: seq<Attr>)
    ensures var r := DefaultColumns(attrs);
      && (forall i :: 0 <= i < |r| ==> r[i].display > 0)
      && (forall i, j :: 0 <= i < j < |r| ==> r[i].display <= r[j].display)
      && multiset(r) == multiset(Filter(attrs, Displayed))
  {
    var sorted := SortBy(attrs, DisplayKey);
    var r := DefaultColumns(attrs);
    FilterElements(sorted, Displayed);
    forall i | 0 <= i < |r| ensures r[i].display > 0 {
      assert r[i] in r;
    }
    FilterSorted(sorted, Displayed, DisplayKey);
    forall i, j | 0 <= i < j < |r| ensures r[i].display <= r[j].display {
      assert LexLe(DisplayKey(r[i]), DisplayKey(r[j]));
    }
    forall x ensures multiset(r)[x] == multiset(Filter(attrs, Displayed))[x] {
      FilterMultiset(sorted, Displayed, x);
      FilterMultiset(attrs, Displayed, x);
    }
  }

  /** Python's sort is stable: attributes of equal priority keep their original order. */
  lemma DefaultColumnsStable(attrs: seq<Attr>, d: nat)
    requires d > 0
    ensures WithKey(DefaultColumns(attrs), DisplayKey, [d]) == WithKey(attrs, DisplayKey, [d])
  {
    var sorted := SortBy(attrs, DisplayKey);
    WithKeyFilter(sorted, Displayed, DisplayKey, [d]);
    SortByStable(attrs, DisplayKey, [d]);
  }

  /** A scan selects only attributes of the requested name. */
  lemma {:induction false} ScanSelectsName(col: string, attrs: seq<Attr>)
    ensures forall i :: 0 <= i < |Scan(col, attrs).0| ==> Scan(col, attrs).0[i].columnName == col
  {
    if attrs != [] {
      if attrs[0].columnName == col {
        if |attrs| > 1 {
          ScanSelectsName(col, attrs[2..]);
        }
      } else {
        ScanSelectsName(col, attrs[1..]);
      }
    }
  }

  /** A scan removes from the list exactly what it selects. */
  lemma {:induction false} ScanPartitions(col: string, attrs: seq<Attr>)
    ensures multiset(Scan(col, attrs).0) + multiset(Scan(col, attrs).1) == multiset(attrs)
  {
    if attrs != [] {
      MultisetCons(attrs);
      if attrs[0].columnName == col {
        if |attrs| > 1 {
          ScanPartitions(col, attrs[2..]);
          MultisetCons(attrs[1..]);
          assert attrs[1..][1..] == attrs[2..];
        }
      } else {
        ScanPartitions(col, attrs[1..]);
      }
    }
  }

  lemma MultisetCons<T>(s: seq<T>)
    requires |s| > 0
    ensures multiset(s) == multiset{s[0]} + multiset(s[1..])
  {
    assert s == [s[0]] + s[1..];
  }

  /** A scan selects nothing exactly when no attribute has the requested name, and then keeps the list as it was. */
  lemma {:induction false} ScanEmpty(col: string, attrs: seq<Attr>)
    ensures Scan(col, attrs).0 == [] <==> forall i :: 0 <= i < |attrs| ==> attrs[i].columnName != col
    ensures Scan(col, attrs).0 == [] ==> Scan(col, attrs).1 == attrs
  {
    if attrs != [] && attrs[0].columnName != col {
      ScanEmpty(col, attrs[1..]);
      assert attrs == [attrs[0]] + attrs[1..];
      assert forall i :: 1 <= i < |attrs| ==> attrs[i] == attrs[1..][i - 1];
    }
  }

  /** The first attribute of the requested name is always the first one selected. */
  lemma {:induction false} ScanTakesFirstMatch(col: string, attrs: seq<Attr>, k: nat)
    requires k < |attrs| && attrs[k].columnName == col
    requires forall i :: 0 <= i < k ==> attrs[i].columnName != col
    ensures Scan(col, attrs).0 != [] && Scan(col, attrs).0[0] == attrs[k]
  {
    if k > 0 {
      ScanTakesFirstMatch(col, attrs[1..], k - 1);
    }
  }

  /**
   * When column names are unique, a scan consumes just the one attribute of
   * that name (the behaviour the removal loop is meant to have).
   */
  lemma {:induction false} ScanUniqueNames(col: string, attrs: seq<Attr>, k: nat)
    requires forall i, j :: 0 <= i < j < |attrs| ==> attrs[i].columnName != attrs[j].columnName
    requires k < |attrs| && attrs[k].columnName == col
    ensures Scan(col, attrs) == ([attrs[k]], attrs[..k] + attrs[k + 1..])
  {
    if k > 0 {
      ScanUniqueNames(col, attrs[1..], k - 1);
      assert attrs[..k] + attrs[k + 1..] == [attrs[0]] + (attrs[1..][..k - 1] + attrs[1..][k..]);
    } else if |attrs| > 1 {
      var rest := attrs[2..];
      forall i | 0 <= i < |rest| ensures rest[i].columnName != col {
        assert rest[i] == attrs[i + 2];
      }
      ScanEmpty(col, rest);
      assert attrs[1].columnName != col;
      assert Scan(col, attrs) == ([attrs[0]] + Scan(col, rest).0, [attrs[1]] + Scan(col, rest).1);
      assert attrs[..0] + attrs[1..] == [attrs[1]] + rest;
      assert [attrs[0]] + Scan(col, rest).0 == [attrs[0]];
      assert Scan(col, rest).1 == rest;
      assert Scan(col, attrs).0 == [attrs[k]];
      assert Scan(col, attrs).1 == attrs[..k] + attrs[k + 1..];
    } else {
      assert attrs[..k] + attrs[k + 1..] == [];
    }
  }

  /** Two attributes of the same name next to each other: the second one is skipped and stays. */
  lemma ScanSkipsNeighbour(col: string, first: Attr, second: Attr, rest: seq<Attr>)
    requires first.columnName == col && second.columnName == col
    ensures Scan(col, [first, second] + rest).0 == [first] + Scan(col, rest).0
    ensures second in Scan(col, [first, second] + rest).1
  {
    assert ([first, second] + rest)[2..] == rest;
  }

  /** Name-list selection picks only requested names. */
  lemma {:induction false} SelectNamesRequested(names: seq<string>, attrs: seq<Attr>)
    ensures forall i :: 0 <= i < |SelectNames(names, attrs).0| ==> SelectNames(names, attrs).0[i].columnName in names
  {
    if names != [] {
      var r1 := Scan(names[0], attrs).1;
      ScanSelectsName(names[0], attrs);
      SelectNamesRequested(names[1..], r1);
      var s1: seq<Attr> := Scan(names[0], attrs).0;
      var s2: seq<Attr> := SelectNames(names[1..], r1).0;
      assert SelectNames(names, attrs).0 == s1 + s2;
      forall i | 0 <= i < |s1 + s2| ensures (s1 + s2)[i].columnName in names {
        if i >= |s1| {
          assert (s1 + s2)[i] == s2[i - |s1|];
        } else {
          assert (s1 + s2)[i] == s1[i];
        }
      }
    }
  }

  /** Name-list selection never picks an attribute twice and removes what it picks. */
  lemma {:induction false} SelectNamesPartitions(names: seq<string>, attrs: seq<Attr>)
    ensures multiset(SelectNames(names, attrs).0) + multiset(SelectNames(names, attrs).1) == multiset(attrs)
  {
    if names != [] {
      var first := Scan(names[0], attrs);
      var rest := SelectNames(names[1..], first.1);
      ScanPartitions(names[0], attrs);
      SelectNamesPartitions(names[1..], first.1);
      assert multiset(first.0 + rest.0) == multiset(first.0) + multiset(rest.0);
    }
  }

  /** A name list that picks nothing leaves the list alone. */
  lemma {:induction false} SelectNamesNothingKept(names: seq<string>, attrs: seq<Attr>)
    ensures SelectNames(names, attrs).0 == [] ==> SelectNames(names, attrs).1 == attrs
  {
    if names != [] {
      var first := Scan(names[0], attrs);
      ScanEmpty(names[0], attrs);
      SelectNamesNothingKept(names[1..], first.1);
    }
  }

  /** Position of a name in the request. */
  function RequestPosition(names: seq<string>, name: string): nat
    requires name in names
  {
    if names[0] == name then 0 else 1 + RequestPosition(names[1..], name)
  }

  /** Every column is a requested one, and columns appear grouped in the order their names were requested. */
  predicate InRequestOrder(names: seq<string>, selected: seq<Attr>)
  {
    && (forall i :: 0 <= i < |selected| ==> selected[i].columnName in names)
    && (forall i, j :: 0 <= i < j < |selected| ==>
          RequestPosition(names, selected[i].columnName) <= RequestPosition(names, selected[j].columnName))
  }

  /** With no name requested twice, the columns come out grouped in request order. */
  lemma {:induction false} SelectNamesRequestOrder(names: seq<string>, attrs: seq<Attr>)
    requires forall i, j :: 0 <= i < j < |names| ==> names[i] != names[j]
    ensures InRequestOrder(names, SelectNames(names, attrs).0)
  {
    SelectNamesRequested(names, attrs);
    if names != [] {
      var s1 := Scan(names[0], attrs).0;
      var r1 := Scan(names[0], attrs).1;
      ScanSelectsName(names[0], attrs);
      var tail := names[1..];
      assert forall i, j :: 0 <= i < j < |tail| ==> tail[i] != tail[j] by {
        forall i, j | 0 <= i < j < |tail| ensures tail[i] != tail[j] {
          assert tail[i] == names[i + 1] && tail[j] == names[j + 1];
        }
      }
      SelectNamesRequestOrder(tail, r1);
      SelectNamesRequested(tail, r1);
      var s2 := SelectNames(tail, r1).0;
      var selected := s1 + s2;
      assert SelectNames(names, attrs).0 == selected;
      assert names[0] !in tail by {
        forall i | 0 <= i < |tail| ensures tail[i] != names[0] { assert tail[i] == names[i + 1]; }
      }
      forall i, j | 0 <= i < j < |selected|
        ensures RequestPosition(names, selected[i].columnName) <= RequestPosition(names, selected[j].columnName)
      {
        if j < |s1| {
          assert selected[i] == s1[i] && selected[j] == s1[j];
          assert s1[i].columnName == names[0] && s1[j].columnName == names[0];
        } else if i < |s1| {
          assert selected[i] == s1[i];
          assert s1[i].columnName == names[0];
        } else {
          var x := s2[i - |s1|].columnName;
          var y := s2[j - |s1|].columnName;
          assert selected[i].columnName == x && selected[j].columnName == y;
          assert x in tail && y in tail;
          assert InRequestOrder(tail, s2);
          assert RequestPosition(tail, s2[i - |s1|].columnName) <= RequestPosition(tail, s2[j - |s1|].columnName);
          assert x != names[0] && y != names[0];
          assert RequestPosition(names, x) == 1 + RequestPosition(tail, x);
          assert RequestPosition(names, y) == 1 + RequestPosition(tail, y);
        }
      }
    }
  }

  /** Names that match no attribute select nothing and leave the list alone. */
  lemma {:induction false} SelectNamesNone(names: seq<string>, attrs: seq<Attr>)
    requires forall i :: 0 <= i < |attrs| ==> attrs[i].columnName !in names
    ensures SelectNames(names, attrs).0 == [] && SelectNames(names, attrs).1 == attrs
  {
    if names != [] {
      ScanEmpty(names[0], attrs);
      SelectNamesNone(names[1..], attrs);
    }
  }

  /** The selection is never empty when there are attributes to choose from, whatever the directive. */
  lemma SelectColumnsNonEmpty(directive: Option<string>, attrs: seq<Attr>)
    requires attrs != []
    ensures SelectColumns(directive, attrs).0 != []
  {
    if directive.Some? && directive.value != "*" {
      SelectNamesPartitions(Split(directive.value, ','), attrs);
      SelectNamesNothingKept(Split(directive.value, ','), attrs);
    }
  }

  /** An empty attribute list gives no columns, whatever the directive. */
  lemma SelectColumnsOfNothing(directive: Option<string>)
    ensures SelectColumns(directive, []).0 == []
  {
    if directive.Some? && directive.value != "*" {
      SelectNamesNone(Split(directive.value, ','), []);
    }
  }

  /** The tables `print_response` prints when nothing fails: those whose attribute list is not empty. */
  function TablesWithAttributes(tables: seq<string>, attributesFor: string -> seq<Attr>): seq<string>
  {
    if tables == [] then []
    else (if attributesFor(tables[0]) != [] then [tables[0]] else []) + TablesWithAttributes(tables[1..], attributesFor)
  }

  /** Each printed table, in order, is a table titled with the corresponding name. */
  predicate TitledBy(printed: seq<Rendered>, names: seq<string>)
  {
    forall i :: 0 <= i < |printed| ==> i < |names| && printed[i].TableView? && printed[i].title == Some(names[i])
  }

  lemma TitledByCons(first: Rendered, printed: seq<Rendered>, name: string, names: seq<string>)
    requires first.TableView? && first.title == Some(name)
    requires TitledBy(printed, names)
    ensures TitledBy([first] + printed, [name] + names)
  {
    var ps, ns := [first] + printed, [name] + names;
    if printed != [] {
      assert printed[|printed| - 1].TableView?;
    }
    assert |ps| <= |ns|;
    forall i | 0 <= i < |ps|
      ensures i < |ns| && ps[i].TableView? && ps[i].title == Some(ns[i])
    {
      if i == 0 {
        assert ps[0] == first && ns[0] == name;
      } else {
        assert i - 1 < |names| && printed[i - 1].TableView? && printed[i - 1].title == Some(names[i - 1]);
        assert ps[i] == printed[i - 1] && ns[i] == names[i - 1];
      }
    }
  }

  /** The wildcard selects every attribute in its original order and leaves the list alone. */
  lemma SelectColumnsWildcard(attrs: seq<Attr>)
    ensures SelectColumns(Some("*"), attrs) == (attrs, attrs)
  {
  }

  /** A directive that names nothing present selects every attribute and leaves the list alone. */
  lemma SelectColumnsNoMatch(d: string, attrs: seq<Attr>)
    requires d != "*"
    requires forall i :: 0 <= i < |attrs| ==> attrs[i].columnName !in Split(d, ',')
    ensures SelectColumns(Some(d), attrs) == (attrs, attrs)
  {
    SelectNamesNone(Split(d, ','), attrs);

  }

  // ---------------------------------------------------------------------------
  // Sub-table data (`_resolve_data_for_table`)
  // ---------------------------------------------------------------------------

  function NotFound(path: string): PyError
  {
    ValueError("Sublist path not found in data: " + path)
  }

  /** One path segment: the membership test `v not in current_data`, then `current_data[v]`. */
  function Step(current: Json, segment: string, path: string): Result<Json, PyError>
  {
    match Contains(current, segment)
    case Err(e) => Err(e)
    case Ok(present) => if !present then Err(NotFound(path)) else Subscript(current, segment)
  }

  /** The walk down the dotted path from the first record. */
  function Walk(current: Json, segments: seq<string>, path: string): Result<Json, PyError>
    decreases |segments|
  {
    if segments == [] then Ok(current)
    else
      match Step(current, segments[0], path)
      case Err(e) => Err(e)
      case Ok(next) => Walk(next, segments[1..], path)
  }

  /** A list reached by the walk is the table's records; anything else is a single record. */
  function AsRecords(v: Json): seq<Json>
  {
    if v.JList? then v.items else [v]
  }

  function ResolvedData(path: string, data: seq<Json>): Result<seq<Json>, PyError>
  {
    if |data| == 0 || path == "" then Ok(data)
    else
      match Walk(data[0], Split(path, '.'), path)
      case Err(e) => Err(e)
      case Ok(v) => Ok(AsRecords(v))
  }

  /** `_resolve_data_for_table` */
  method ResolveDataForTable(path: string, data: seq<Json>) returns (r: Result<seq<Json>, PyError>)
    ensures r == ResolvedData(path, data)
  {
    if |data| == 0 || path == "" {
      return Ok(data);
    }
    var current := data[0];
    var segments := Split(path, '.');
    for k := 0 to |segments|
      invariant Walk(data[0], segments, path) == Walk(current, segments[k..], path)
    {
      assert segments[k..][0] == segments[k] && segments[k..][1..] == segments[k + 1..];
      var present := Contains(current, segments[k]);
      if present.Err? {
        return Err(present.error);
      }
      if !present.value {
        return Err(NotFound(path));
      }
      var next := Subscript(current, segments[k]);
      if next.Err? {
        return Err(next.error);
      }
      current := next.value;
    }
    assert segments[|segments|..] == [];
    return Ok(AsRecords(current));
  }

  /** Walking a path in two pieces is walking the whole path: each segment only sees what the previous one reached. */
  lemma {:induction false} WalkConcat(current: Json, a: seq<string>, b: seq<string>, path: string)
    ensures Walk(current, a + b, path) ==
      match Walk(current, a, path)
      case Err(e) => Err(e)
      case Ok(v) => Walk(v, b, path)
    decreases |a|
  {
    if a != [] {
      assert (a + b)[0] == a[0] && (a + b)[1..] == a[1..] + b;
      match Step(current, a[0], path)
      case Err(e) =>
      case Ok(next) => WalkConcat(next, a[1..], b, path);
    } else {
      assert a + b == b;
    }
  }

  /**
   * A path `first.rest` into a first record that is an object: the first
   * segment must be one of its keys, and then the rest of the path is walked
   * from that key's value.
   */
  lemma ResolvedDataDotted(first: string, rest: string, data: seq<Json>)
    requires '.' !in first
    requires |data| > 0 && data[0].JObj?
    ensures var path := first + "." + rest;
      ResolvedData(path, data) ==
        match Get(data[0].fields, first)
        case None => Err(NotFound(path))
        case Some(v) =>
          match Walk(v, Split(rest, '.'), path)
          case Err(e) => Err(e)
          case Ok(w) => Ok(AsRecords(w))
  {
    var path := first + "." + rest;
    assert path == first + ['.'] + rest;
    SplitAfter(first, '.', rest);
    var segments := [first] + Split(rest, '.');
    assert segments[0] == first && segments[1..] == Split(rest, '.');
  }

  /** A single segment naming no key of the first record is the "Sublist path not found" error. */
  lemma ResolvedDataMissingKey(key: string, data: seq<Json>)
    requires key != "" && '.' !in key
    requires |data| > 0 && data[0].JObj? && key !in Keys(data[0].fields)
    ensures ResolvedData(key, data) == Err(ValueError("Sublist path not found in data: " + key))
  {
    assert Split(key, '.') == [key];
  }

  // ---------------------------------------------------------------------------
  // Key filtering for JSON output (`_select_json_elements`)
  // ---------------------------------------------------------------------------

  /** What field `i` of `obj` contributes to the filtered object. */
  function SelectedField(keys: seq<string>, obj: Json, i: nat): Dict<Json>
    requires obj.JObj? && i < |obj.fields|
    decreases obj, 0, 0
  {
    var (k, v) := obj.fields[i];
    if k in keys then [(k, v)]
    else if v.JObj? && Selected(keys, v) != [] then [(k, JObj(Selected(keys, v)))]
    else []
  }

  /** The filtered fields from index `i` on. */
  function SelectedFrom(keys: seq<string>, obj: Json, i: nat): Dict<Json>
    requires obj.JObj? && i <= |obj.fields|
    decreases obj, 1, |obj.fields| - i
  {
    if i == |obj.fields| then [] else SelectedField(keys, obj, i) + SelectedFrom(keys, obj, i + 1)
  }

  /**
   * The object filtered down to the requested keys: a requested key keeps its
   * value as is, a nested object under any other key is filtered in turn and
   * kept when something is left, and everything else is dropped.
   */
  function Selected(keys: seq<string>, obj: Json): Dict<Json>
    requires obj.JObj?
    decreases obj, 2, 0
  {
    SelectedFrom(keys, obj, 0)
  }

  /** `_select_json_elements`; a value without `.items()` is an `AttributeError`. */
  method SelectJsonElements(keys: seq<string>, jsonRes: Json) returns (ret: Result<Dict<Json>, PyError>)
    ensures ret == if jsonRes.JObj? then Ok(Selected(keys, jsonRes)) else Err(AttributeError)
    decreases jsonRes
  {
    if !jsonRes.JObj? {
      return Err(AttributeError);
    }
    var fields := jsonRes.fields;
    var acc: Dict<Json> := [];
    for i := 0 to |fields|
      invariant acc + SelectedFrom(keys, jsonRes, i) == Selected(keys, jsonRes)
    {
      var (k, v) := fields[i];
      if k in keys {
        acc := acc + [(k, v)];
      } else if v.JObj? {
        var sub := SelectJsonElements(keys, v);
        if sub.value != [] {
          acc := acc + [(k, JObj(sub.value))];
        }
      }
    }
    assert SelectedFrom(keys, jsonRes, |fields|) == [];
    assert acc + [] == acc;
    return Ok(acc);
  }

  /** Every field of the filtered object is a requested field of the input, or a non-empty filtered nested object under the same key. */
  lemma {:induction false} SelectedFromSound(keys: seq<string>, obj: Json, i: nat)
    requires obj.JObj? && i <= |obj.fields|
    ensures forall p :: p in SelectedFrom(keys, obj, i) ==>
      exists j :: i <= j < |obj.fields| && obj.fields[j].0 == p.0 &&
        ((p.0 in keys && p.1 == obj.fields[j].1) ||
         (p.0 !in keys && obj.fields[j].1.JObj? && p.1 == JObj(Selected(keys, obj.fields[j].1)) && Selected(keys, obj.fields[j].1) != []))
    decreases |obj.fields| - i
  {
    if i < |obj.fields| {
      SelectedFromSound(keys, obj, i + 1);
    }
  }

  /** Every requested field of the input is kept with its value, and every other nested object with something left is kept filtered. */
  lemma {:induction false} SelectedFromComplete(keys: seq<string>, obj: Json, i: nat)
    requires obj.JObj? && i <= |obj.fields|
    ensures forall j :: i <= j < |obj.fields| && obj.fields[j].0 in keys ==> obj.fields[j] in SelectedFrom(keys, obj, i)
    ensures forall j :: i <= j < |obj.fields| && obj.fields[j].0 !in keys && obj.fields[j].1.JObj? && Selected(keys, obj.fields[j].1) != [] ==>
      (obj.fields[j].0, JObj(Selected(keys, obj.fields[j].1))) in SelectedFrom(keys, obj, i)
    decreases |obj.fields| - i
  {
    if i < |obj.fields| {
      SelectedFromComplete(keys, obj, i + 1);
    }
  }

  /** The filtered object holds exactly the requested fields and the non-empty filtered nested objects. */
  lemma SelectedCharacterised(keys: seq<string>, obj: Json)
    requires obj.JObj?
    ensures forall p :: p in Selected(keys, obj) ==>
      exists j :: 0 <= j < |obj.fields| && obj.fields[j].0 == p.0 &&
        ((p.0 in keys && p.1 == obj.fields[j].1) ||
         (p.0 !in keys && obj.fields[j].1.JObj? && p.1 == JObj(Selected(keys, obj.fields[j].1)) && Selected(keys, obj.fields[j].1) != []))
    ensures forall j :: 0 <= j < |obj.fields| && obj.fields[j].0 in keys ==> obj.fields[j] in Selected(keys, obj)
    ensures forall j :: 0 <= j < |obj.fields| && obj.fields[j].0 !in keys && obj.fields[j].1.JObj? && Selected(keys, obj.fields[j].1) != [] ==>
      (obj.fields[j].0, JObj(Selected(keys, obj.fields[j].1))) in Selected(keys, obj)
  {
    SelectedFromSound(keys, obj, 0);
    SelectedFromComplete(keys, obj, 0);
  }

  /** The filtered fields from index `j` on depend only on the fields from `j` on. */
  lemma {:induction false} SelectedFromSuffix(keys: seq<string>, fs: Dict<Json>, j: nat)
    requires j <= |fs|
    ensures SelectedFrom(keys, JObj(fs), j) == Selected(keys, JObj(fs[j..]))
    decreases |fs| - j
  {
    if j < |fs| {
      SelectedFromSuffix(keys, fs, j + 1);
      SelectedFromSuffix(keys, fs[j..], 1);
      assert fs[j..][1..] == fs[j + 1..];
      assert fs[j..][0] == fs[j];
      assert SelectedField(keys, JObj(fs), j) == SelectedField(keys, JObj(fs[j..]), 0);
    }
  }

  /** Filtering an already filtered object changes nothing. */
  lemma {:induction false} SelectedIdempotent(keys: seq<string>, obj: Json)
    requires obj.JObj?
    ensures Selected(keys, JObj(Selected(keys, obj))) == Selected(keys, obj)
    decreases obj, 1
  {
    SelectedFromIdempotent(keys, obj, 0);
  }

  lemma {:induction false} SelectedFromIdempotent(keys: seq<string>, obj: Json, i: nat)
    requires obj.JObj? && i <= |obj.fields|
    ensures Selected(keys, JObj(SelectedFrom(keys, obj, i))) == SelectedFrom(keys, obj, i)
    decreases obj, 0, |obj.fields| - i
  {
    if i < |obj.fields| {
      var rest := SelectedFrom(keys, obj, i + 1);
      SelectedFromIdempotent(keys, obj, i + 1);
      var h := SelectedField(keys, obj, i);
      var whole := h + rest;
      if h == [] {
        assert whole == rest;
      } else {
        var (k, v) := obj.fields[i];
        SelectedFromSuffix(keys, whole, 1);
        assert whole[1..] == rest;
        if k !in keys {
          SelectedIdempotent(keys, v);
        }
        assert SelectedField(keys, JObj(whole), 0) == h;
      }
    }
  }

  /** Requesting every key of an object (at the top level) keeps it whole. */
  lemma {:induction false} SelectedAllKeys(keys: seq<string>, obj: Json, i: nat)
    requires obj.JObj? && i <= |obj.fields|
    requires forall j :: 0 <= j < |obj.fields| ==> obj.fields[j].0 in keys
    ensures SelectedFrom(keys, obj, i) == obj.fields[i..]
    decreases |obj.fields| - i
  {
    if i < |obj.fields| {
      SelectedAllKeys(keys, obj, i + 1);
      assert obj.fields[i..] == [obj.fields[i]] + obj.fields[i + 1..];
    } else {
      assert obj.fields[i..] == [];
    }
  }

  /** Requesting nothing that appears anywhere removes everything. */
  lemma {:induction false} SelectedNoKeys(obj: Json, i: nat)
    requires obj.JObj? && i <= |obj.fields|
    ensures SelectedFrom([], obj, i) == []
    decreases obj, |obj.fields| - i
  {
    if i < |obj.fields| {
      var v := obj.fields[i].1;
      if v.JObj? {
        SelectedNoKeys(v, 0);
        assert Selected([], v) == [];
      }
      assert SelectedField([], obj, i) == [];
      SelectedNoKeys(obj, i + 1);
    }
  }

  // ---------------------------------------------------------------------------
  // Rows and their text forms
  // ---------------------------------------------------------------------------

  /** The column description `_build_output_content` gets: plain names (`print`) or attributes (`print_response`). */
  datatype ColumnSpec = Names(names: seq<string>) | Attrs(attrs: seq<Attr>)

  /** A row of output content: rendered cells, or a record passed through untouched. */
  datatype ContentRow = Cells(cells: seq<string>) | Raw(record: Json)

  /** How an attribute renders a record's value: `render_value` for tables and `get_string` for delimited text. */
  datatype Renderers = Renderers(renderValue: (Attr, Json) -> string, getString: (Attr, Json) -> string)

  function ColumnNames(columns: seq<Attr>): (names: seq<string>)
  {
    seq(|columns|, i requires 0 <= i < |columns| => columns[i].columnName)
  }

  /** `[value_transform(attr, model) for attr in columns]` */
  function RowCells(columns: seq<Attr>, record: Json, transform: (Attr, Json) -> string): seq<string>
  {
    seq(|columns|, j requires 0 <= j < |columns| => transform(columns[j], record))
  }

  /** The text items of an iterated row, when every item is a string (`str.join` refuses anything else). */
  function Texts(items: seq<Json>): Option<seq<string>>
  {
    if items == [] then Some([])
    else if !items[0].JStr? then None
    else
      match Texts(items[1..])
      case None => None
      case Some(rest) => Some([items[0].s] + rest)
  }

  /** `delimiter.join(row)` */
  function JoinRow(delimiter: string, row: ContentRow): Result<string, PyError>
  {
    match row
    case Cells(cells) => Ok(Join(delimiter, cells))
    case Raw(v) =>
      match Iterate(v)
      case Err(e) => Err(e)
      case Ok(items) =>
        match Texts(items)
        case None => Err(TypeError)
        case Some(texts) => Ok(Join(delimiter, texts))
  }

  function JoinRows(delimiter: string, rows: seq<ContentRow>): Result<seq<string>, PyError>
  {
    if rows == [] then Ok([])
    else
      match JoinRow(delimiter, rows[0])
      case Err(e) => Err(e)
      case Ok(line) => Prepend([line], JoinRows(delimiter, rows[1..]))
  }

  /** Rows of cells always join, one line per row. */
  lemma {:induction false} JoinRowsCells(delimiter: string, rows: seq<ContentRow>)
    requires forall i :: 0 <= i < |rows| ==> rows[i].Cells?
    ensures JoinRows(delimiter, rows).Ok?
    ensures |JoinRows(delimiter, rows).value| == |rows|
    ensures forall i :: 0 <= i < |rows| ==> JoinRows(delimiter, rows).value[i] == Join(delimiter, rows[i].cells)
  {
    if rows != [] {
      JoinRowsCells(delimiter, rows[1..]);
      var rest := JoinRows(delimiter, rows[1..]).value;
      assert JoinRows(delimiter, rows).value == [Join(delimiter, rows[0].cells)] + rest;
      forall i | 1 <= i < |rows| ensures JoinRows(delimiter, rows).value[i] == Join(delimiter, rows[i].cells) {
        assert rows[1..][i - 1] == rows[i];
      }
    }
  }

  function Zip(header: seq<string>, items: seq<Json>): Dict<Json>
  {
    seq(Min(|header|, |items|), i requires 0 <= i < Min(|header|, |items|) => (header[i], items[i]))
  }

  /** `dict(zip(header, row))` */
  function ZipRecord(header: seq<string>, row: Json): Result<Json, PyError>
  {
    match Iterate(row)
    case Err(e) => Err(e)
    case Ok(items) => Ok(JObj(FromPairs(Zip(header, items))))
  }

  /**
   * A zipped record has a key exactly for each header name that has an item,
   * and with distinct names the key's value is the item at that name's position.
   */
  lemma ZipRecordFields(header: seq<string>, items: seq<Json>, j: nat)
    requires forall a, b :: 0 <= a < b < |header| ==> header[a] != header[b]
    requires j < |header| && j < |items|
    ensures Get(FromPairs(Zip(header, items)), header[j]) == Some(items[j])
    ensures forall k :: k in Keys(FromPairs(Zip(header, items))) <==> k in header[..Min(|header|, |items|)]
  {
    var z := Zip(header, items);
    assert Keys(z) == header[..Min(|header|, |items|)];
    assert DistinctKeys(z);
    GetLastDistinct(z, header[j]);
    assert z[j] == (header[j], items[j]);
    DistinctGet(z, j);
  }

  /** JSON output when the first record is an object: each record filtered to the header's keys. */
  function SelectRecords(header: seq<string>, data: seq<Json>): Result<seq<Json>, PyError>
  {
    if data == [] then Ok([])
    else if !data[0].JObj? then Err(AttributeError)
    else Prepend([JObj(Selected(header, data[0]))], SelectRecords(header, data[1..]))
  }

  /** JSON output otherwise: each record zipped against the header. */
  function ZipRecords(header: seq<string>, data: seq<Json>): Result<seq<Json>, PyError>
  {
    if data == [] then Ok([])
    else
      match ZipRecord(header, data[0])
      case Err(e) => Err(e)
      case Ok(obj) => Prepend([obj], ZipRecords(header, data[1..]))
  }

  function JsonRecords(header: seq<string>, data: seq<Json>): Result<seq<Json>, PyError>
  {
    if |data| > 0 && data[0].JObj? then SelectRecords(header, data) else ZipRecords(header, data)
  }

  /**
   * When every record is an object the JSON output has one filtered object
   * per record; a later record that is not an object is an `AttributeError`.
   */
  lemma {:induction false} SelectRecordsSpec(header: seq<string>, data: seq<Json>)
    ensures SelectRecords(header, data).Ok? <==> forall i :: 0 <= i < |data| ==> data[i].JObj?
    ensures SelectRecords(header, data).Ok? ==>
      && |SelectRecords(header, data).value| == |data|
      && forall i :: 0 <= i < |data| ==> SelectRecords(header, data).value[i] == JObj(Selected(header, data[i]))
    ensures SelectRecords(header, data).Err? ==> SelectRecords(header, data).error == AttributeError
  {
    if data != [] {
      SelectRecordsSpec(header, data[1..]);
      assert forall i :: 1 <= i < |data| ==> data[i] == data[1..][i - 1];
      if data[0].JObj? && SelectRecords(header, data[1..]).Ok? {
        var rest := SelectRecords(header, data[1..]).value;
        assert SelectRecords(header, data).value == [JObj(Selected(header, data[0]))] + rest;
      }
    }
  }

  /**
   * Otherwise the JSON output has one zipped object per record, each with the
   * header names paired with the record's items; a record that cannot be
   * iterated is a `TypeError`.
   */
  lemma {:induction false} ZipRecordsSpec(header: seq<string>, data: seq<Json>)
    ensures ZipRecords(header, data).Ok? <==> forall i :: 0 <= i < |data| ==> Iterate(data[i]).Ok?
    ensures ZipRecords(header, data).Ok? ==>
      && |ZipRecords(header, data).value| == |data|
      && forall i :: 0 <= i < |data| ==>
           ZipRecords(header, data).value[i] == JObj(FromPairs(Zip(header, Iterate(data[i]).value)))
    ensures ZipRecords(header, data).Err? ==> ZipRecords(header, data).error == TypeError
  {
    if data != [] {
      ZipRecordsSpec(header, data[1..]);
      assert forall i :: 1 <= i < |data| ==> data[i] == data[1..][i - 1];
      if Iterate(data[0]).Ok? && ZipRecords(header, data[1..]).Ok? {
        var rest := ZipRecords(header, data[1..]).value;
        assert ZipRecords(header, data).value == [JObj(FromPairs(Zip(header, Iterate(data[0]).value)))] + rest;
      }
    }
  }

  // ---------------------------------------------------------------------------
  // What gets printed
  // ---------------------------------------------------------------------------

  /** The rich box style of a table. */
  datatype BoxStyle = Square | Ascii | MarkdownBox

  /** The rich overflow method of every table column. */
  datatype Overflow = Fold | Ellipsis

  /** What one call of an output function hands to the printer. */
  datatype Rendered =
    | TableView(box: BoxStyle, header: seq<string>, overflow: Overflow, maxWidth: Option<nat>,
                showHeader: bool, rows: seq<ContentRow>, title: Option<string>)
    | Lines(lines: seq<string>)
    | JsonText(objects: seq<Json>, pretty: bool)

  // ---------------------------------------------------------------------------
  // The handler
  // ---------------------------------------------------------------------------

  /** `OutputHandler`'s configuration; nothing in the modelled code changes it after construction. */
  datatype OutputHandler = OutputHandler(
    mode: OutputMode,
    delimiter: string,
    headers: bool,
    prettyJson: bool,
    columns: Option<string>,
    disableTruncation: bool,
    suppressWarnings: bool,
    columnWidth: Option<nat>)
  {
    /** `_get_columns`: removes the attributes a name list selects from `attrs` as it goes. */
    method GetColumns(attrs: AttrList) returns (selected: seq<Attr>)
      modifies attrs
      ensures selected == SelectColumns(columns, old(attrs.items)).0
      ensures attrs.items == SelectColumns(columns, old(attrs.items)).1
    {
      if columns.None? {
        selected := DefaultColumns(attrs.items);
      } else if columns.value == "*" {
        selected := attrs.items;
      } else {
        selected := [];
        var names := Split(columns.value, ',');
        ghost var original := attrs.items;
        for n := 0 to |names|
          invariant selected + SelectNames(names[n..], attrs.items).0 == SelectNames(names, original).0
          invariant SelectNames(names[n..], attrs.items).1 == SelectNames(names, original).1
        {
          ghost var before := attrs.items;
          var picked := RemoveMatching(attrs, names[n]);
          selected := selected + picked;
          assert names[n..][0] == names[n] && names[n..][1..] == names[n + 1..];
        }
        assert names[|names|..] == [];
        assert selected == SelectNames(names, original).0;
        assert attrs.items == SelectNames(names, original).1;
      }
      if selected == [] {
        selected := attrs.items;
      }
    }

    /** The header row `_build_output_content` starts with: only with headers on and a header given. */
    function HeaderRows(header: Option<seq<string>>): seq<ContentRow>
    {
      if headers && header.Some? then [Cells(header.value)] else []
    }

    /** The content `_build_output_content` returns; an empty column list is `columns[0]`'s `IndexError`. */
    function ContentOf(data: seq<Json>, columns: ColumnSpec, header: Option<seq<string>>,
                       transform: (Attr, Json) -> string): Result<seq<ContentRow>, PyError>
    {
      match columns
      case Names(names) =>
        if names == [] then Err(IndexError)
        else Ok(HeaderRows(header) + seq(|data|, i requires 0 <= i < |data| => Raw(data[i])))
      case Attrs(attrs) =>
        if attrs == [] then Err(IndexError)
        else Ok(HeaderRows(header) + seq(|data|, i requires 0 <= i < |data| => Cells(RowCells(attrs, data[i], transform))))
    }

    /** `_build_output_content` */
    method BuildOutputContent(data: seq<Json>, columns: ColumnSpec, header: Option<seq<string>>,
                              transform: (Attr, Json) -> string)
      returns (content: Result<seq<ContentRow>, PyError>)
      ensures content == ContentOf(data, columns, header, transform)
    {
      var rows: seq<ContentRow> := [];
      if headers && header.Some? {
        rows := [Cells(header.value)];
      }
      match columns
      case Names(names) =>
        if names == [] {
          return Err(IndexError);
        }
        return Ok(rows + seq(|data|, i requires 0 <= i < |data| => Raw(data[i])));
      case Attrs(attrs) =>
        if attrs == [] {
          return Err(IndexError);
        }
        for i := 0 to |data|
          invariant rows == HeaderRows(header) + seq(i, k requires 0 <= k < i => Cells(RowCells(attrs, data[k], transform)))
        {
          rows := rows + [Cells(RowCells(attrs, data[i], transform))];
        }
        return Ok(rows);
    }

    /**
     * The content has a row per record, after the header row exactly when
     * headers are on and a header is given; an attribute row has one cell per
     * column, in column order, and a record under plain names passes through.
     */
    lemma ContentShape(data: seq<Json>, columns: ColumnSpec, header: Option<seq<string>>,
                       transform: (Attr, Json) -> string)
      ensures ContentOf(data, columns, header, transform).Ok? <==>
        (if columns.Names? then columns.names != [] else columns.attrs != [])
      ensures var r := ContentOf(data, columns, header, transform);
        r.Ok? ==>
          var off := if headers && header.Some? then 1 else 0;
          && |r.value| == off + |data|
          && (headers && header.Some? ==> r.value[0] == Cells(header.value))
          && forall i :: 0 <= i < |data| ==>
               if columns.Names? then r.value[off + i] == Raw(data[i])
               else
                 && r.value[off + i].Cells?
                 && |r.value[off + i].cells| == |columns.attrs|
                 && forall j :: 0 <= j < |columns.attrs| ==> r.value[off + i].cells[j] == transform(columns.attrs[j], data[i])
    {
    }

    /** The table `_table_output` builds: no header row in the content, the handler's overflow and width, and the title when one is given. */
    function TableOf(header: seq<string>, data: seq<Json>, columns: ColumnSpec, title: Option<string>,
                     box: BoxStyle, r: Renderers): Result<Rendered, PyError>
    {
      match ContentOf(data, columns, None, r.renderValue)
      case Err(e) => Err(e)
      case Ok(content) =>
        Ok(TableView(box, header, if disableTruncation then Fold else Ellipsis, columnWidth, headers, content, title))
    }

    /** `_table_output` */
    method TableOutput(header: seq<string>, data: seq<Json>, columns: ColumnSpec, title: Option<string>,
                       box: BoxStyle, r: Renderers) returns (out: Result<Rendered, PyError>)
      ensures out == TableOf(header, data, columns, title, box, r)
    {
      var content := BuildOutputContent(data, columns, None, r.renderValue);
      if content.Err? {
        return Err(content.error);
      }
      var overflow := if disableTruncation then Fold else Ellipsis;
      return Ok(TableView(box, header, overflow, columnWidth, headers, content.value, title));
    }

    /** The lines `_delimited_output` prints: the content, header row included, each row joined by the delimiter. */
    function DelimitedOf(header: seq<string>, data: seq<Json>, columns: ColumnSpec, r: Renderers): Result<Rendered, PyError>
    {
      match ContentOf(data, columns, Some(header), r.getString)
      case Err(e) => Err(e)
      case Ok(content) =>
        match JoinRows(delimiter, content)
        case Err(e) => Err(e)
        case Ok(lines) => Ok(Lines(lines))
    }

    /** `_delimited_output` */
    method DelimitedOutput(header: seq<string>, data: seq<Json>, columns: ColumnSpec, r: Renderers)
      returns (out: Result<Rendered, PyError>)
      ensures out == DelimitedOf(header, data, columns, r)
    {
      var content := BuildOutputContent(data, columns, Some(header), r.getString);
      if content.Err? {
        return Err(content.error);
      }
      var rows := content.value;
      var lines: seq<string> := [];
      assert rows[0..] == rows;
      PrependNothing(JoinRows(delimiter, rows));
      for i := 0 to |rows|
        invariant JoinRows(delimiter, rows) == Prepend(lines, JoinRows(delimiter, rows[i..]))
      {
        assert rows[i..][0] == rows[i] && rows[i..][1..] == rows[i + 1..];
        var line := JoinRow(delimiter, rows[i]);
        if line.Err? {
          return Err(line.error);
        }
        PrependTwice(lines, [line.value], JoinRows(delimiter, rows[i + 1..]));
        lines := lines + [line.value];
      }
      assert rows[|rows|..] == [];
      assert lines + [] == lines;
      return Ok(Lines(lines));
    }

    /**
     * With a one-character delimiter, attribute output has a line per record
     * after the header line exactly when headers are on, and a record's line
     * splits back into its cells whenever no cell holds the delimiter.
     */
    lemma DelimitedSplitsBack(header: seq<string>, data: seq<Json>, columns: seq<Attr>, r: Renderers, i: nat)
      requires |delimiter| == 1 && columns != [] && i < |data|
      requires forall j :: 0 <= j < |columns| ==> delimiter[0] !in r.getString(columns[j], data[i])
      ensures var out := DelimitedOf(header, data, Attrs(columns), r);
        && out.Ok?
        && |out.value.lines| == (if headers then 1 else 0) + |data|
        && (headers ==> out.value.lines[0] == Join(delimiter, header))
        && Split(out.value.lines[(if headers then 1 else 0) + i], delimiter[0]) == RowCells(columns, data[i], r.getString)
    {
      var content := ContentOf(data, Attrs(columns), Some(header), r.getString).value;
      ContentShape(data, Attrs(columns), Some(header), r.getString);
      JoinRowsCells(delimiter, content);
      var off := if headers then 1 else 0;
      var cells := RowCells(columns, data[i], r.getString);
      assert content[off + i] == Cells(cells);
      assert [delimiter[0]] == delimiter;
      SplitJoin(cells, delimiter[0]);
    }

    /** The objects `_json_output` dumps, sorted and indented when pretty. */
    function JsonOf(header: seq<string>, data: seq<Json>): Result<Rendered, PyError>
    {
      match JsonRecords(header, data)
      case Err(e) => Err(e)
      case Ok(objects) => Ok(JsonText(objects, prettyJson))
    }

    /** `_json_output` */
    method JsonOutput(header: seq<string>, data: seq<Json>) returns (out: Result<Rendered, PyError>)
      ensures out == JsonOf(header, data)
    {
      var content: seq<Json> := [];
      assert data[0..] == data;
      PrependNothing(SelectRecords(header, data));
      PrependNothing(ZipRecords(header, data));
      if |data| > 0 && data[0].JObj? {
        for i := 0 to |data|
          invariant SelectRecords(header, data) == Prepend(content, SelectRecords(header, data[i..]))
        {
          assert data[i..][0] == data[i] && data[i..][1..] == data[i + 1..];
          var selected := SelectJsonElements(header, data[i]);
          if selected.Err? {
            return Err(selected.error);
          }
          PrependTwice(content, [JObj(selected.value)], SelectRecords(header, data[i + 1..]));
          content := content + [JObj(selected.value)];
        }
        assert data[|data|..] == [];
      } else {
        for i := 0 to |data|
          invariant ZipRecords(header, data) == Prepend(content, ZipRecords(header, data[i..]))
        {
          assert data[i..][0] == data[i] && data[i..][1..] == data[i + 1..];
          var zipped := ZipRecord(header, data[i]);
          if zipped.Err? {
            return Err(zipped.error);
          }
          PrependTwice(content, [zipped.value], ZipRecords(header, data[i + 1..]));
          content := content + [zipped.value];
        }
        assert data[|data|..] == [];
      }
      assert content + [] == content;
      return Ok(JsonText(content, prettyJson));
    }

    /** What `_print` hands to the printer in the configured mode. */
    function Rendering(header: seq<string>, data: seq<Json>, columns: ColumnSpec, title: Option<string>, r: Renderers)
      : Result<Rendered, PyError>
    {
      match mode
      case Table => TableOf(header, data, columns, title, Square, r)
      case AsciiTable => TableOf(header, data, columns, title, Ascii, r)
      case Markdown => TableOf(header, data, columns, title, MarkdownBox, r)
      case Delimited => DelimitedOf(header, data, columns, r)
      case JSON => JsonOf(header, data)
    }

    /** `_print` */
    method Dispatch(header: seq<string>, data: seq<Json>, columns: ColumnSpec, title: Option<string>, r: Renderers)
      returns (out: Result<Rendered, PyError>)
      ensures out == Rendering(header, data, columns, title, r)
    {
      match mode
      case Table => out := TableOutput(header, data, columns, title, Square, r);
      case AsciiTable => out := TableOutput(header, data, columns, title, Ascii, r);
      case Markdown => out := TableOutput(header, data, columns, title, MarkdownBox, r);
      case Delimited => out := DelimitedOutput(header, data, columns, r);
      case JSON => out := JsonOutput(header, data);
    }

    /** `print`: the given column names are both the header and the columns. */
    method Print(data: seq<Json>, columns: seq<string>, title: Option<string>, r: Renderers)
      returns (out: Result<Rendered, PyError>)
      ensures out == Rendering(columns, data, Names(columns), title, r)
    {
      out := Dispatch(columns, data, Names(columns), title, r);
    }

    /**
     * What `print_response` prints for the given table names, and the
     * exception that stops it, if any: each table's data is resolved,
     * its columns are selected, a table with no columns is skipped, and
     * the table's name is its title.
     */
    function ResponseRendering(tables: seq<string>, attributesFor: string -> seq<Attr>, data: seq<Json>, r: Renderers)
      : (seq<Rendered>, Option<PyError>)
    {
      if tables == [] then ([], None)
      else
        var rest := ResponseRendering(tables[1..], attributesFor, data, r);
        match TableRendering(tables[0], attributesFor, data, r)
        case None => rest
        case Some(Err(e)) => ([], Some(e))
        case Some(Ok(out)) => ([out] + rest.0, rest.1)
    }

    /** One table of `print_response`: `None` when it has no columns and is skipped. */
    function TableRendering(table: string, attributesFor: string -> seq<Attr>, data: seq<Json>, r: Renderers)
      : Option<Result<Rendered, PyError>>
    {
      match ResolvedData(table, data)
      case Err(e) => Some(Err(e))
      case Ok(newData) =>
        var columns := SelectColumns(this.columns, attributesFor(table)).0;
        if |columns| < 1 then None
        else Some(Rendering(ColumnNames(columns), newData, Attrs(columns), Some(table), r))
    }

    /**
     * `print_response`; the response model's `get_attributes_for_table` is
     * `attributesFor`, giving a fresh list on every call.
     */
    method PrintResponse(subtables: seq<string>, attributesFor: string -> seq<Attr>, data: seq<Json>, r: Renderers)
      returns (printed: seq<Rendered>, failure: Option<PyError>)
      ensures printed == ResponseRendering([""] + subtables, attributesFor, data, r).0
      ensures failure == ResponseRendering([""] + subtables, attributesFor, data, r).1
    {
      var tables := [""] + subtables;
      printed := [];
      for t := 0 to |tables|
        invariant ResponseRendering(tables, attributesFor, data, r).0 == printed + ResponseRendering(tables[t..], attributesFor, data, r).0
        invariant ResponseRendering(tables, attributesFor, data, r).1 == ResponseRendering(tables[t..], attributesFor, data, r).1
      {
        var table := tables[t];
        assert tables[t..][0] == table && tables[t..][1..] == tables[t + 1..];
        var newData := ResolveDataForTable(table, data);
        if newData.Err? {
          assert printed + [] == printed;
          return printed, Some(newData.error);
        }
        var attrs := new AttrList(attributesFor(table));
        var columns := GetColumns(attrs);
        if |columns| < 1 {
          continue;
        }
        var header := ColumnNames(columns);
        var out := Dispatch(header, newData.value, Attrs(columns), Some(table), r);
        if out.Err? {
          assert printed + [] == printed;
          return printed, Some(out.error);
        }
        printed := printed + [out.value];
      }
      assert tables[|tables|..] == [];
      assert printed + [] == printed;
      return printed, None;
    }

    /** In the table modes every successful rendering is a table carrying the given title. */
    lemma RenderingIsTable(header: seq<string>, data: seq<Json>, columns: ColumnSpec, title: Option<string>, r: Renderers)
      requires mode in {Table, AsciiTable, Markdown}
      ensures var out := Rendering(header, data, columns, title, r);
        out.Ok? ==> out.value.TableView? && out.value.title == title && out.value.header == header
    {
    }

    /** When nothing fails, exactly the tables with a non-empty attribute list are printed. */
    lemma {:induction false} ResponseRenderingCount(tables: seq<string>, attributesFor: string -> seq<Attr>, data: seq<Json>, r: Renderers)
      ensures var out := ResponseRendering(tables, attributesFor, data, r);
        out.1.None? ==> |out.0| == |TablesWithAttributes(tables, attributesFor)|
    {
      if tables != [] {
        ResponseRenderingCount(tables[1..], attributesFor, data, r);
        TableRenderingTitle(tables[0], attributesFor, data, r);
      }
    }

    /**
     * In the table modes, when nothing fails, the printed tables are titled
     * with the names of the tables that have attributes, in order (the
     * top-level table's title is the empty name).
     */
    lemma {:induction false} ResponseRenderingTitles(tables: seq<string>, attributesFor: string -> seq<Attr>, data: seq<Json>, r: Renderers)
      requires mode in {Table, AsciiTable, Markdown}
      ensures var out := ResponseRendering(tables, attributesFor, data, r);
        out.1.None? ==> TitledBy(out.0, TablesWithAttributes(tables, attributesFor))
    {
      if tables != [] {
        var table := tables[0];
        var out := ResponseRendering(tables, attributesFor, data, r);
        var rest := ResponseRendering(tables[1..], attributesFor, data, r);
        var named := TablesWithAttributes(tables[1..], attributesFor);
        ResponseRenderingTitles(tables[1..], attributesFor, data, r);
        var one := TableRendering(table, attributesFor, data, r);
        TableRenderingTitle(table, attributesFor, data, r);
        if one.None? {
          assert out == rest;
          assert TablesWithAttributes(tables, attributesFor) == named;
        } else if one.value.Ok? && out.1.None? {
          assert out.0 == [one.value.value] + rest.0;
          assert TablesWithAttributes(tables, attributesFor) == [table] + named;
          TitledByCons(one.value.value, rest.0, table, named);
        }
      }
    }

    /** A table is skipped exactly when its attribute list is empty; in the table modes it is rendered as a table titled with its name. */
    lemma TableRenderingTitle(table: string, attributesFor: string -> seq<Attr>, data: seq<Json>, r: Renderers)
      ensures var one := TableRendering(table, attributesFor, data, r);
        && (ResolvedData(table, data).Ok? ==> (one.None? <==> attributesFor(table) == []))
        && (mode in {Table, AsciiTable, Markdown} && one.Some? && one.value.Ok? ==>
              one.value.value.TableView? && one.value.value.title == Some(table))
    {
      if attributesFor(table) == [] {
        SelectColumnsOfNothing(columns);
      } else {
        SelectColumnsNonEmpty(columns, attributesFor(table));
      }
      if ResolvedData(table, data).Ok? && mode in {Table, AsciiTable, Markdown} {
        var selected := SelectColumns(columns, attributesFor(table)).0;
        RenderingIsTable(ColumnNames(selected), ResolvedData(table, data).value, Attrs(selected), Some(table), r);
      }
    }

    /** The top-level table is printed first, from the data as given and titled with the empty name. */
    lemma ResponseRenderingTopLevel(subtables: seq<string>, attributesFor: string -> seq<Attr>, data: seq<Json>, r: Renderers)
      requires attributesFor("") != []
      ensures var columns := SelectColumns(this.columns, attributesFor("")).0;
        var first := Rendering(ColumnNames(columns), data, Attrs(columns), Some(""), r);
        var out := ResponseRendering([""] + subtables, attributesFor, data, r);
        && (first.Ok? ==> out.0 != [] && out.0[0] == first.value)
        && (first.Err? ==> out == ([], Some(first.error)))
    {
      SelectColumnsNonEmpty(columns, attributesFor(""));
      assert ([""] + subtables)[1..] == subtables;
    }
  }

  /** What a scan still has to do once the loop index is at `i`: (still to select, list as it will end up). */
  ghost function Pending(col: string, l: seq<Attr>, i: nat): (seq<Attr>, seq<Attr>)
  {
    var m := Min(i, |l|);
    (Scan(col, l[m..]).0, l[..m] + Scan(col, l[m..]).1)
  }

  lemma PendingStart(col: string, l: seq<Attr>)
    ensures Pending(col, l, 0).0 == Scan(col, l).0 && Pending(col, l, 0).1 == Scan(col, l).1
  {
    assert l[0..] == l;
  }

  lemma PendingEnd(col: string, l: seq<Attr>, i: nat)
    requires i >= |l|
    ensures Pending(col, l, i).0 == [] && Pending(col, l, i).1 == l
  {
    assert l[|l|..] == [];
  }

  lemma PendingSkip(col: string, l: seq<Attr>, i: nat)
    requires i < |l| && l[i].columnName != col
    ensures Pending(col, l, i).0 == Pending(col, l, i + 1).0
    ensures Pending(col, l, i).1 == Pending(col, l, i + 1).1
  {
    assert l[i..] == [l[i]] + l[i + 1..];
    assert l[..i + 1] == l[..i] + [l[i]];
  }

  lemma PendingRemove(col: string, l: seq<Attr>, i: nat)
    requires i < |l| && l[i].columnName == col
    ensures var l' := l[..i] + l[i + 1..];
      && Pending(col, l, i).0 == [l[i]] + Pending(col, l', i + 1).0
      && Pending(col, l, i).1 == Pending(col, l', i + 1).1
  {
    var l' := l[..i] + l[i + 1..];
    if i + 1 < |l| {
      assert l[i..] == [l[i], l[i + 1]] + l[i + 2..];
      assert l'[..i + 1] == l[..i] + [l[i + 1]];
      assert l'[i + 1..] == l[i + 2..];
    } else {
      assert l[i..] == [l[i]];
      assert l' == l[..i];
      assert l'[i..] == [];
    }
  }

  /**
   * The inner loop of `_get_columns` for one requested name: walks the list
   * by index and removes each match at the current index before moving on.
   */
  method RemoveMatching(attrs: AttrList, col: string) returns (picked: seq<Attr>)
    modifies attrs
    ensures picked == Scan(col, old(attrs.items)).0 && attrs.items == Scan(col, old(attrs.items)).1
  {
    ghost var before := attrs.items;
    picked := [];
    var i := 0;
    PendingStart(col, attrs.items);
    while i < |attrs.items|
      invariant i <= |attrs.items| + 1
      invariant Scan(col, before).0 == picked + Pending(col, attrs.items, i).0
      invariant Scan(col, before).1 == Pending(col, attrs.items, i).1
      decreases |attrs.items| + 1 - i
    {
      var attr := attrs.items[i];
      if attr.columnName == col {
        PendingRemove(col, attrs.items, i);
        attrs.items := attrs.items[..i] + attrs.items[i + 1..];
        picked := picked + [attr];
      } else {
        PendingSkip(col, attrs.items, i);
      }
      i := i + 1;
    }
    PendingEnd(col, attrs.items, i);
  }
}
