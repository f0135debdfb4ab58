/**
 * The command router's pure parts: finding an operation by command and
 * action (with action aliases), the guard `call_operation` applies, the
 * slug a tag becomes, and the flattening of a schema's `properties` into
 * dotted attribute names.
 */
module Cli {
  import opened Wrappers
  import opened Strings
  import opened Dicts
  import opened JsonValue

  // ---------------------------------------------------------------------------
  // Operations by command and action (`find_operation`, `call_operation`)
  // ---------------------------------------------------------------------------

  /** The parts of a baked operation the router looks at. */
  datatype Operation = Operation(command: string, action: string, actionAliases: seq<string>)

  /** `self.ops`: command name to action name to operation, in insertion order. */
  type Ops = Dict<Dict<Operation>>

  function CommandNotFound(command: string): PyError
  {
    ValueError("Command not found: " + command)
  }

  function NoAction(command: string, action: string): PyError
  {
    ValueError("No action " + action + " for command " + command)
  }

  /** The position of the first operation, from `i` on, that lists `action` among its aliases. */
  function FirstAliased(actions: Dict<Operation>, action: string, i: nat): (r: Option<nat>)
    requires i <= |actions|
    ensures r.Some? ==>
      && i <= r.value < |actions|
      && action in actions[r.value].1.actionAliases
      && forall j :: i <= j < r.value ==> action !in actions[j].1.actionAliases
    ensures r.None? ==> forall j :: i <= j < |actions| ==> action !in actions[j].1.actionAliases
    decreases |actions| - i
  {
    if i == |actions| then None
    else if action in actions[i].1.actionAliases then Some(i)
    else FirstAliased(actions, action, i + 1)
  }

  /** What `find_operation` returns or raises. */
  function Lookup(ops: Ops, command: string, action: string): Result<Operation, PyError>
  {
    match Get(ops, command)
    case None => Err(CommandNotFound(command))
    case Some(actions) =>
      match Get(actions, action)
      case Some(op) => Ok(op)
      case None =>
        match FirstAliased(actions, action, 0)
        case Some(i) => Ok(actions[i].1)
        case None => Err(NoAction(command, action))
  }

  /** `find_operation`: the exact action first, else the first operation whose aliases hold it. */
  method FindOperation(ops: Ops, command: string, action: string) returns (r: Result<Operation, PyError>)
    ensures r == Lookup(ops, command, action)
  {
    var commandDict := Get(ops, command);
    if commandDict.None? {
      return Err(CommandNotFound(command));
    }
    var actions := commandDict.value;
    var exact := Get(actions, action);
    if exact.Some? {
      return Ok(exact.value);
    }
    for i := 0 to |actions|
      invariant forall j :: 0 <= j < i ==> action !in actions[j].1.actionAliases
    {
      if action in actions[i].1.actionAliases {
        return Ok(actions[i].1);
      }
    }
    return Err(NoAction(command, action));
  }

  /** An unknown command is refused before any action is looked at. */
  lemma LookupUnknownCommand(ops: Ops, command: string, action: string)
    ensures Lookup(ops, command, action) == Err(CommandNotFound(command)) <==> command !in Keys(ops)
  {
    if command in Keys(ops) {
      var actions := Get(ops, command).value;
      if Lookup(ops, command, action).Err? {
        assert Lookup(ops, command, action) == Err(NoAction(command, action));
        assert NoAction(command, action).message[0] == 'N';
      }
    }
  }

  /** An action key names its operation, whatever aliases other operations list. */
  lemma LookupExactFirst(ops: Ops, command: string, action: string)
    requires command in Keys(ops) && action in Keys(Get(ops, command).value)
    ensures Lookup(ops, command, action) == Ok(Get(Get(ops, command).value, action).value)
  {
  }

  /**
   * Without an action key, the result is the first operation in dict order
   * whose aliases hold the action, and the lookup fails exactly when none does.
   */
  lemma LookupByAlias(ops: Ops, command: string, action: string)
    requires command in Keys(ops) && action !in Keys(Get(ops, command).value)
    ensures var actions := Get(ops, command).value;
      && (Lookup(ops, command, action).Ok? <==> exists i :: 0 <= i < |actions| && action in actions[i].1.actionAliases)
      && (Lookup(ops, command, action).Err? ==> Lookup(ops, command, action) == Err(NoAction(command, action)))
      && (Lookup(ops, command, action).Ok? ==>
            exists i :: 0 <= i < |actions| && Lookup(ops, command, action).value == actions[i].1 &&
              action in actions[i].1.actionAliases &&
              forall j :: 0 <= j < i ==> action !in actions[j].1.actionAliases)
  {
    var actions := Get(ops, command).value;
    var first := FirstAliased(actions, action, 0);
    if first.Some? {
      assert Lookup(ops, command, action).value == actions[first.value].1;
    }
  }

  /** The guard in `call_operation`: only exact command and action keys pass, aliases do not. */
  function CallOperationGuard(ops: Ops, command: string, action: string): Result<Operation, PyError>
  {
    if command !in Keys(ops) || action !in Keys(Get(ops, command).value) then
      Err(ValueError("Unknown command/action " + command + "/" + action))
    else
      Ok(Get(Get(ops, command).value, action).value)
  }

  /** Whenever the guard lets a call through, it picks the operation `find_operation` would. */
  lemma CallOperationGuardAgrees(ops: Ops, command: string, action: string)
    ensures CallOperationGuard(ops, command, action).Ok? ==> CallOperationGuard(ops, command, action) == Lookup(ops, command, action)
    ensures CallOperationGuard(ops, command, action).Err? <==>
      (command !in Keys(ops) || action !in Keys(Get(ops, command).value))
  {
    if CallOperationGuard(ops, command, action).Ok? {
      LookupExactFirst(ops, command, action);
    }
  }

  /** An alias that `find_operation` resolves is still refused by the guard. */
  lemma CallOperationGuardRefusesAliases(ops: Ops, command: string, action: string)
    requires command in Keys(ops) && action !in Keys(Get(ops, command).value)
    requires Lookup(ops, command, action).Ok?
    ensures CallOperationGuard(ops, command, action).Err?
  {
  }

  // ---------------------------------------------------------------------------
  // Tags as URL paths (`_flatten_url_path`)
  // ---------------------------------------------------------------------------

  predicate InSlugAlphabet(c: char)
  {
    IsLowerAscii(c) || c == ' '
  }

  /** `re.sub(r"[^a-z ]", "", s)` */
  function KeepSlugChars(s: string): (r: string)
    ensures forall i :: 0 <= i < |r| ==> InSlugAlphabet(r[i])
    ensures |r| <= |s|
  {
    if s == [] then [] else (if InSlugAlphabet(s[0]) then [s[0]] else []) + KeepSlugChars(s[1..])
  }

  /** `_flatten_url_path`: lower-cased, reduced to letters and spaces, spaces turned into hyphens. */
  function FlattenUrlPath(tag: string): (r: string)
    ensures forall i :: 0 <= i < |r| ==> IsLowerAscii(r[i]) || r[i] == '-'
  {
    ReplaceChar(KeepSlugChars(Lower(tag)), ' ', '-')
  }

  /** The slug character by character: a letter in lower case, a space as a hyphen, anything else dropped. */
  function SlugOf(tag: string): string
  {
    if tag == [] then []
    else
      var c := tag[0];
      (if IsAsciiLetter(c) then [LowerChar(c)] else if c == ' ' then ['-'] else []) + SlugOf(tag[1..])
  }

  /** The three passes of `_flatten_url_path` amount to the per-character slug. */
  lemma {:induction false} FlattenUrlPathIsSlug(tag: string)
    ensures FlattenUrlPath(tag) == SlugOf(tag)
  {
    if tag != [] {
      FlattenUrlPathIsSlug(tag[1..]);
      var c := tag[0];
      assert Lower(tag) == [LowerChar(c)] + Lower(tag[1..]);
      assert Lower(tag)[1..] == Lower(tag[1..]);
      var kept := if InSlugAlphabet(LowerChar(c)) then [LowerChar(c)] else [];
      assert KeepSlugChars(Lower(tag)) == kept + KeepSlugChars(Lower(tag[1..]));
      ReplaceCharAppend(kept, KeepSlugChars(Lower(tag[1..])), ' ', '-');
      assert InSlugAlphabet(LowerChar(c)) <==> IsAsciiLetter(c) || c == ' ';
    }
  }

  /** A tag that is already lower-case words is kept, with hyphens between the words. */
  lemma FlattenUrlPathOfWords(tag: string)
    requires forall i :: 0 <= i < |tag| ==> InSlugAlphabet(tag[i])
    ensures FlattenUrlPath(tag) == ReplaceChar(tag, ' ', '-')
  {
    assert Lower(tag) == tag;
    KeepSlugCharsOfSlug(tag);
  }

  lemma {:induction false} KeepSlugCharsOfSlug(s: string)
    requires forall i :: 0 <= i < |s| ==> InSlugAlphabet(s[i])
    ensures KeepSlugChars(s) == s
  {
    if s != [] {
      KeepSlugCharsOfSlug(s[1..]);
    }
  }

  // ---------------------------------------------------------------------------
  // Response attributes from a schema (`_parse_properties`)
  // ---------------------------------------------------------------------------

  /** A response attribute; the flags keep the schema's value when it is true, as `x or False` does. */
  datatype ModelAttr = ModelAttr(name: string, filterable: Json, display: Json, valueType: Json, colorMap: Json, itemType: Json)

  /** Where `k` sits among the fields, agreeing with `Get`. */
  function FindKey(fields: Dict<Json>, k: string): (r: Option<nat>)
    ensures r.Some? ==> r.value < |fields| && fields[r.value].0 == k && Get(fields, k) == Some(fields[r.value].1)
    ensures r.None? ==> k !in Keys(fields) && Get(fields, k) == None
  {
    if fields == [] then None
    else if fields[0].0 == k then Some(0)
    else
      match FindKey(fields[1..], k)
      case None => None
      case Some(j) => Some(j + 1)
  }

  /** A leaf entry's attribute, with the schema's defaults filled in. */
  function LeafAttr(name: string, info: Json): Result<ModelAttr, PyError>
  {
    var itemContainer :- GetOrDefault(info, "items", JNull);
    var itemType :- if Truthy(itemContainer) then GetOrDefault(itemContainer, "type", JNull) else Ok(JNull);
    var filterable :- GetOrDefault(info, "x-linode-filterable", JNull);
    var display :- GetOrDefault(info, "x-linode-cli-display", JNull);
    var valueType :- GetOrDefault(info, "type", JNull);
    var colorMap :- GetOrDefault(info, "x-linode-cli-color", JNull);
    Ok(ModelAttr(name, Or(filterable, JBool(false)), Or(display, JBool(false)), Or(valueType, JStr("string")), colorMap, itemType))
  }

  /** The attributes one entry of `node` contributes: a nested schema's, or one leaf. */
  function PropertyEntry(node: Json, prefix: seq<string>, i: nat): Result<seq<ModelAttr>, PyError>
    requires node.JObj? && i < |node.fields|
    decreases node, 0, 0
  {
    var name := node.fields[i].0;
    var info := node.fields[i].1;
    var nested :- Contains(info, "properties");
    if nested then
      if !info.JObj? then Err(TypeError)
      else
        match FindKey(info.fields, "properties")
        case None => Err(KeyError("properties"))
        case Some(j) => Properties(info.fields[j].1, prefix + [name])
    else
      match LeafAttr(Join(".", prefix + [name]), info)
      case Err(e) => Err(e)
      case Ok(attr) => Ok([attr])
  }

  function PropertiesFrom(node: Json, prefix: seq<string>, i: nat): Result<seq<ModelAttr>, PyError>
    requires node.JObj? && i <= |node.fields|
    decreases node, 1, |node.fields| - i
  {
    if i == |node.fields| then Ok([])
    else
      match PropertyEntry(node, prefix, i)
      case Err(e) => Err(e)
      case Ok(attrs) => Prepend(attrs, PropertiesFrom(node, prefix, i + 1))
  }

  /** The attributes of a `properties` node, in iteration order; only a dict has `.items()`. */
  function Properties(node: Json, prefix: seq<string>): Result<seq<ModelAttr>, PyError>
    decreases node, 2, 0
  {
    if node.JObj? then PropertiesFrom(node, prefix, 0) else Err(AttributeError)
  }

  /** `_parse_properties` */
  method ParseProperties(node: Json, prefix: seq<string>) returns (r: Result<seq<ModelAttr>, PyError>)
    ensures r == Properties(node, prefix)
    decreases node
  {
    if !node.JObj? {
      return Err(AttributeError);
    }
    var fields := node.fields;
    var attrs: seq<ModelAttr> := [];
    PrependNothing(PropertiesFrom(node, prefix, 0));
    for i := 0 to |fields|
      invariant Properties(node, prefix) == Prepend(attrs, PropertiesFrom(node, prefix, i))
    {
      var name := fields[i].0;
      var info := fields[i].1;
      var nested := Contains(info, "properties");
      if nested.Err? {
        return Err(nested.error);
      }
      if nested.value {
        if !info.JObj? {
          return Err(TypeError);
        }
        var j := FindKey(info.fields, "properties");
        if j.None? {
          return Err(KeyError("properties"));
        }
        var sub := ParseProperties(info.fields[j.value].1, prefix + [name]);
        if sub.Err? {
          return Err(sub.error);
        }
        PrependTwice(attrs, sub.value, PropertiesFrom(node, prefix, i + 1));
        attrs := attrs + sub.value;
      } else {
        var leaf := LeafAttr(Join(".", prefix + [name]), info);
        if leaf.Err? {
          return Err(leaf.error);
        }
        PrependTwice(attrs, [leaf.value], PropertiesFrom(node, prefix, i + 1));
        attrs := attrs + [leaf.value];
      }
    }
    assert Prepend(attrs, Ok([])) == Ok(attrs + []);
    assert attrs + [] == attrs;
    return Ok(attrs);
  }

  /**
   * The defaults of a leaf: each optional key that is absent (or falsy, for
   * the three `or` defaults) gives not filterable, not displayed, a string,
   * no colour map and no item type; a key that is set and true is kept.
   */
  lemma LeafAttrDefaults(name: string, info: Dict<Json>)
    requires !Truthy(ItemsOf(info)) || ItemsOf(info).JObj?
    ensures LeafAttr(name, JObj(info)).Ok?
    ensures var a := LeafAttr(name, JObj(info)).value;
      && a.name == name
      && a.filterable == Or(Get(info, "x-linode-filterable").GetOr(JNull), JBool(false))
      && a.display == Or(Get(info, "x-linode-cli-display").GetOr(JNull), JBool(false))
      && a.valueType == Or(Get(info, "type").GetOr(JNull), JStr("string"))
      && ("x-linode-filterable" !in Keys(info) ==> a.filterable == JBool(false))
      && ("x-linode-cli-display" !in Keys(info) ==> a.display == JBool(false))
      && ("type" !in Keys(info) ==> a.valueType == JStr("string"))
      && ("x-linode-cli-color" !in Keys(info) ==> a.colorMap == JNull)
      && ("items" !in Keys(info) ==> a.itemType == JNull)
  {
  }

  /** A leaf's item type is the `type` of its `items` schema, when that is a non-empty dict. */
  lemma LeafAttrItemType(name: string, info: Dict<Json>, items: Dict<Json>)
    requires Get(info, "items") == Some(JObj(items)) && items != []
    ensures LeafAttr(name, JObj(info)).Ok?
    ensures LeafAttr(name, JObj(info)).value.itemType == Get(items, "type").GetOr(JNull)
    ensures LeafAttr(name, JObj(info)).value.name == name
  {
  }

  /** The `items` value of a leaf schema, `None` when absent. */
  function ItemsOf(info: Dict<Json>): Json
  {
    Get(info, "items").GetOr(JNull)
  }

  /** A leaf fails only when it is not a dict, or its `items` is true but not a dict (no `.get`). */
  lemma LeafAttrSucceeds(name: string, info: Json)
    ensures LeafAttr(name, info).Ok? <==> info.JObj? && (!Truthy(ItemsOf(info.fields)) || ItemsOf(info.fields).JObj?)
    ensures LeafAttr(name, info).Err? ==> LeafAttr(name, info) == Err(AttributeError)
  {
  }

  /** An entry whose schema is a dict without `properties` and with a usable `items` is a leaf. */
  predicate IsLeafEntry(p: (string, Json))
  {
    && p.1.JObj?
    && "properties" !in Keys(p.1.fields)
    && (!Truthy(ItemsOf(p.1.fields)) || ItemsOf(p.1.fields).JObj?)
  }

  /**
   * A node of leaves flattens to one attribute per entry, in order, each
   * named by the prefix and the entry's key joined with dots.
   */
  lemma {:induction false} PropertiesOfLeaves(node: Json, prefix: seq<string>, i: nat)
    requires node.JObj? && i <= |node.fields|
    requires forall j :: i <= j < |node.fields| ==> IsLeafEntry(node.fields[j])
    ensures PropertiesFrom(node, prefix, i).Ok?
    ensures |PropertiesFrom(node, prefix, i).value| == |node.fields| - i
    ensures forall j :: i <= j < |node.fields| ==>
      PropertiesFrom(node, prefix, i).value[j - i].name == Join(".", prefix + [node.fields[j].0])
    decreases |node.fields| - i
  {
    if i < |node.fields| {
      PropertiesOfLeaves(node, prefix, i + 1);
      var attr := LeafAttr(Join(".", prefix + [node.fields[i].0]), node.fields[i].1);
      LeafAttrSucceeds(Join(".", prefix + [node.fields[i].0]), node.fields[i].1);
      assert PropertyEntry(node, prefix, i) == Ok([attr.value]);
    }
  }

  /** A nested schema contributes its own attributes, named under the entry's key. */
  lemma PropertyEntryNested(node: Json, prefix: seq<string>, i: nat, sub: Json)
    requires node.JObj? && i < |node.fields|
    requires node.fields[i].1.JObj? && Get(node.fields[i].1.fields, "properties") == Some(sub)
    ensures PropertyEntry(node, prefix, i) == Properties(sub, prefix + [node.fields[i].0])
  {
  }
}
