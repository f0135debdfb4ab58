/** The region-table plugin: one row per region, one column per capability. */
module RegionTable {
  import opened Wrappers
  import opened Strings
  import opened JsonValue

  /** Each capability's name in the API and its column heading. */
  const CAPABILITIES: seq<(string, string)> := [
    ("Linodes", "Linodes"), ("GPU Linodes", "GPU"), ("NodeBalancers", "NB"), ("Kubernetes", "K8s"),
    ("Cloud Firewall", "FW"), ("Managed Databases", "DB"), ("Object Storage", "OBJ"), ("Vlans", "Vlan"),
    ("Premium Plans", "Premium"), ("Metadata", "Meta"), ("Block Storage", "Block")]

  const CHECK_MARK: string := "\U{2714}"

  /** `["ID", "Label", "Loc"]` and then the capability headings. */
  function Headers(): (r: seq<string>)
    ensures |r| == 3 + |CAPABILITIES| == 14
    ensures r[..3] == ["ID", "Label", "Loc"]
    ensures forall i :: 0 <= i < |CAPABILITIES| ==> r[3 + i] == CAPABILITIES[i].1
  {
    ["ID", "Label", "Loc"] + seq(|CAPABILITIES|, i requires 0 <= i < |CAPABILITIES| => CAPABILITIES[i].1)
  }

  /** A cell: a value aligned left, or centred text. */
  datatype Cell = LeftAligned(value: Json) | Centered(text: string)

  /** The capabilities' names as the API lists them. */
  function LongNames(): (r: seq<string>)
    ensures |r| == |CAPABILITIES| && forall i :: 0 <= i < |CAPABILITIES| ==> r[i] == CAPABILITIES[i].0
  {
    seq(|CAPABILITIES|, i requires 0 <= i < |CAPABILITIES| => CAPABILITIES[i].0)
  }

  /** The marks for `names`: whether each is `in` the region's capabilities. */
  function CapabilityMarks(capabilities: Json, names: seq<string>): Result<seq<Cell>, PyError>
  {
    if names == [] then Ok([])
    else
      match Contains(capabilities, names[0])
      case Err(e) => Err(e)
      case Ok(present) => Prepend([Centered(if present then CHECK_MARK else "-")], CapabilityMarks(capabilities, names[1..]))
  }

  /** A region's row: id, label, the upper-cased country, then the capability marks. */
  function RegionRow(region: Json): Result<seq<Cell>, PyError>
  {
    var id :- Subscript(region, "id");
    var regionLabel :- Subscript(region, "label");
    var country :- Subscript(region, "country");
    if !country.JStr? then Err(AttributeError)
    else
      var capabilities :- Subscript(region, "capabilities");
      var marks :- CapabilityMarks(capabilities, LongNames());
      Ok([LeftAligned(id), LeftAligned(regionLabel), Centered(Upper(country.s))] + marks)
  }

  /** Whether the marks can be computed: `in` works on lists, dicts and strings. */
  predicate Searchable(v: Json)
  {
    v.JList? || v.JObj? || v.JStr?
  }

  /** The marks can be computed exactly when the capabilities support `in`. */
  lemma {:induction false} CapabilityMarksOk(capabilities: Json, names: seq<string>)
    ensures CapabilityMarks(capabilities, names).Ok? <==> Searchable(capabilities) || names == []
  {
    if names != [] {
      CapabilityMarksOk(capabilities, names[1..]);
    }
  }

  /** The mark for one name. */
  function Mark(capabilities: Json, name: string): Cell
    requires Searchable(capabilities)
  {
    Centered(if Contains(capabilities, name).value then CHECK_MARK else "-")
  }

  /** One mark per name, in order. */
  lemma {:induction false} CapabilityMarksSpec(capabilities: Json, names: seq<string>)
    requires Searchable(capabilities)
    ensures CapabilityMarks(capabilities, names).Ok?
    ensures |CapabilityMarks(capabilities, names).value| == |names|
    ensures forall j :: 0 <= j < |names| ==> CapabilityMarks(capabilities, names).value[j] == Mark(capabilities, names[j])
  {
    if names != [] {
      CapabilityMarksSpec(capabilities, names[1..]);
      var rest := CapabilityMarks(capabilities, names[1..]).value;
      assert CapabilityMarks(capabilities, names).value == [Mark(capabilities, names[0])] + rest;
    }
  }

  /**
   * A row has as many cells as there are headings: the id, the label and the
   * upper-cased country, then "✔" under each capability the region lists and
   * "-" under the others.
   */
  lemma RegionRowSpec(region: Json)
    requires RegionRow(region).Ok?
    ensures var row := RegionRow(region).value;
      && |row| == |Headers()|
      && row[0] == LeftAligned(Subscript(region, "id").value)
      && row[1] == LeftAligned(Subscript(region, "label").value)
      && row[2] == Centered(Upper(Subscript(region, "country").value.s))
      && Searchable(Subscript(region, "capabilities").value)
      && forall j :: 0 <= j < |CAPABILITIES| ==> row[3 + j] == Mark(Subscript(region, "capabilities").value, CAPABILITIES[j].0)
  {
    CapabilityMarksOk(Subscript(region, "capabilities").value, LongNames());
    CapabilityMarksSpec(Subscript(region, "capabilities").value, LongNames());
  }

  /** With the capabilities given as a list of names, a mark is "✔" exactly when the long name is listed. */
  lemma CapabilityMarkOfList(names: seq<Json>, j: nat)
    requires j < |CAPABILITIES|
    ensures Contains(JList(names), CAPABILITIES[j].0) == Ok(JStr(CAPABILITIES[j].0) in names)
  {
  }

  /** A region's row can be built exactly when it has the four keys, a text country and searchable capabilities. */
  lemma RegionRowSucceeds(region: Json)
    ensures RegionRow(region).Ok? <==>
      && Subscript(region, "id").Ok? && Subscript(region, "label").Ok? && Subscript(region, "country").Ok?
      && Subscript(region, "country").value.JStr?
      && Subscript(region, "capabilities").Ok? && Searchable(Subscript(region, "capabilities").value)
  {
    if Subscript(region, "capabilities").Ok? {
      CapabilityMarksOk(Subscript(region, "capabilities").value, LongNames());
    }
  }

  function RegionRows(regions: seq<Json>): Result<seq<seq<Cell>>, PyError>
  {
    if regions == [] then Ok([])
    else
      match RegionRow(regions[0])
      case Err(e) => Err(e)
      case Ok(row) => Prepend([row], RegionRows(regions[1..]))
  }

  /** A failed listing stops the plugin; a raised error is kept apart. */
  datatype TableFailure = RequestFailed | Raised(error: PyError)

  /** The headings and rows the plugin prints after listing the regions. */
  function RegionTableOf(status: int, response: Json): Result<(seq<string>, seq<seq<Cell>>), TableFailure>
  {
    if status != 200 then Err(RequestFailed)
    else
      match Subscript(response, "data")
      case Err(e) => Err(Raised(e))
      case Ok(data) =>
        match Iterate(data)
        case Err(e) => Err(Raised(e))
        case Ok(regions) =>
          match RegionRows(regions)
          case Err(e) => Err(Raised(e))
          case Ok(rows) => Ok((Headers(), rows))
  }

  /** The rows are built exactly when every region's row is. */
  lemma {:induction false} RegionRowsOk(regions: seq<Json>)
    ensures RegionRows(regions).Ok? <==> forall i :: 0 <= i < |regions| ==> RegionRow(regions[i]).Ok?
  {
    if regions != [] {
      RegionRowsOk(regions[1..]);
      var head := RegionRow(regions[0]);
      var tail := RegionRows(regions[1..]);
      if head.Ok? && !tail.Ok? {
        var i :| 0 <= i < |regions[1..]| && !RegionRow(regions[1..][i]).Ok?;
        assert regions[i + 1] == regions[1..][i];
      } else if head.Ok? && tail.Ok? {
        assert RegionRows(regions) == Ok([head.value] + tail.value);
        forall i | 0 <= i < |regions| ensures RegionRow(regions[i]).Ok? {
          if i > 0 { assert regions[i] == regions[1..][i - 1]; }
        }
      }
    }
  }

  /** Built rows come one per region, in order. */
  lemma {:induction false} RegionRowsValues(regions: seq<Json>)
    requires RegionRows(regions).Ok?
    ensures |RegionRows(regions).value| == |regions|
    ensures forall i :: 0 <= i < |regions| ==> RegionRow(regions[i]) == Ok(RegionRows(regions).value[i])
  {
    if regions != [] {
      var head := RegionRow(regions[0]);
      var tail := RegionRows(regions[1..]);
      assert head.Ok? && tail.Ok?;
      RegionRowsValues(regions[1..]);
      var rows := RegionRows(regions).value;
      assert rows == [head.value] + tail.value;
      forall i | 0 <= i < |regions| ensures RegionRow(regions[i]) == Ok(rows[i]) {
        if i > 0 { assert regions[i] == regions[1..][i - 1] && rows[i] == tail.value[i - 1]; }
      }
    }
  }

  /** Only a 200 listing gives a table; every row then fits the headings and comes from one region, in order. */
  lemma RegionTableSpec(status: int, response: Json)
    ensures status != 200 ==> RegionTableOf(status, response) == Err(RequestFailed)
    ensures RegionTableOf(status, response).Ok? ==>
      var regions := Iterate(Subscript(response, "data").value).value;
      && RegionTableOf(status, response).value.0 == Headers()
      && |RegionTableOf(status, response).value.1| == |regions|
      && forall i :: 0 <= i < |regions| ==>
           && RegionRow(regions[i]).Ok?
           && RegionTableOf(status, response).value.1[i] == RegionRow(regions[i]).value
           && |RegionTableOf(status, response).value.1[i]| == |Headers()|
  {
    if RegionTableOf(status, response).Ok? {
      var regions := Iterate(Subscript(response, "data").value).value;
      RegionRowsOk(regions);
      RegionRowsValues(regions);
      forall i | 0 <= i < |regions| ensures |RegionRow(regions[i]).value| == |Headers()| {
        RegionRowSpec(regions[i]);
      }
    }
  }
}
