/**
 * An argument as the documentation templates show it, with its example
 * value formatted for display.
 */
module TemplateArgument {
  import opened Wrappers
  import opened Strings
  import opened JsonValue
  import TemplateData

  /** Python's `str(v)`; `repr` stands for the rendering of lists and dicts. */
  function PyStr(v: Json, repr: Json -> string): string
  {
    match v
    case JNull => "None"
    case JBool(b) => if b then "True" else "False"
    case JInt(i) => IntToString(i)
    case JStr(s) => s
    case _ => repr(v)
  }

  /** A scalar example: a boolean in JSON spelling, anything else as `str` gives it. */
  function ScalarExample(v: Json, repr: Json -> string): string
  {
    if v.JBool? then (if v.b then "true" else "false") else PyStr(v, repr)
  }

  /**
   * `_format_example`: nothing for a false example, the JSON text of an
   * object, the first element of a list given for an array type, and
   * otherwise the value itself; `dumps` is `json.dumps`.
   */
  function FormatExample(baseType: string, example: Json, dumps: Json -> string, repr: Json -> string): Option<string>
  {
    if !Truthy(example) then None
    else if baseType == "object" then Some(dumps(example))
    else if StartsWith(baseType, "array") && example.JList? then
      if |example.items| < 1 then None
      else Some(ScalarExample(example.items[0], repr))
    else Some(ScalarExample(example, repr))
  }

  /** Only a false example has no text, so the empty-list warning branch can never be taken. */
  lemma FormatExampleNone(baseType: string, example: Json, dumps: Json -> string, repr: Json -> string)
    ensures FormatExample(baseType, example, dumps, repr).None? <==> !Truthy(example)
    ensures StartsWith(baseType, "array") && example.JList? && Truthy(example) ==> |example.items| >= 1
  {
  }

  /** For an array type only the list's first element is shown. */
  lemma FormatExampleFirstOnly(baseType: string, first: Json, rest: seq<Json>, dumps: Json -> string, repr: Json -> string)
    requires StartsWith(baseType, "array") && baseType != "object"
    ensures FormatExample(baseType, JList([first] + rest), dumps, repr) == FormatExample(baseType, JList([first]), dumps, repr)
    ensures FormatExample(baseType, JList([first] + rest), dumps, repr) == Some(ScalarExample(first, repr))
  {
  }

  /** A boolean example reads "true" or nothing at all: "false" can only come from a list such as `[False]`. */
  lemma FormatExampleBooleans(baseType: string, dumps: Json -> string, repr: Json -> string)
    requires baseType != "object"
    ensures FormatExample(baseType, JBool(true), dumps, repr) == Some("true")
    ensures FormatExample(baseType, JBool(false), dumps, repr) == None
    ensures StartsWith(baseType, "array") ==> FormatExample(baseType, JList([JBool(false)]), dumps, repr) == Some("false")
  {
  }

  /** A falsy first element still shows, as `str` renders it. */
  lemma FormatExampleFalsyElement(baseType: string, dumps: Json -> string, repr: Json -> string)
    requires StartsWith(baseType, "array") && baseType != "object"
    ensures FormatExample(baseType, JList([JInt(0)]), dumps, repr) == Some("0")
    ensures FormatExample(baseType, JList([JNull]), dumps, repr) == Some("None")
  {
    assert IntToString(0) == "0";
  }

  datatype Argument = Argument(
    path: string, required: bool, typeName: string, isJson: bool, isNullable: bool, depth: int,
    description: Option<string>, example: Option<string>, isParent: bool, isChild: bool, parent: Option<string>)

  /**
   * `Argument.from_openapi`; `formatType` is the unseen type formatter and
   * `render` the Markdown-to-reST conversion.
   */
  function ArgumentOf(arg: TemplateData.RequestArg, render: string -> string, formatType: (string, Option<string>, Option<string>) -> string,
                      dumps: Json -> string, repr: Json -> string): (r: Argument)
    ensures r.isJson <==> arg.format == Some("json")
    ensures r.isNullable <==> arg.nullable.Some?
    ensures r.description.None? <==> arg.description == ""
    ensures r.example.None? <==> !Truthy(arg.example)
  {
    FormatExampleNone(arg.baseType, arg.example, dumps, repr);
    Argument(arg.path, arg.required, formatType(arg.baseType, arg.itemType, arg.format), arg.format == Some("json"),
             arg.nullable.Some?, arg.depth, TemplateData.DescriptionOf(arg.description, render),
             FormatExample(arg.baseType, arg.example, dumps, repr), arg.isParent, arg.isChild, arg.parent)
  }

  /** An argument explicitly marked not nullable is still flagged nullable here, while the action data keeps `False`. */
  lemma NullableFlags(arg: TemplateData.RequestArg, render: string -> string, formatType: (string, Option<string>, Option<string>) -> string,
                      dumps: Json -> string, repr: Json -> string)
    requires arg.nullable == Some(false)
    ensures ArgumentOf(arg, render, formatType, dumps, repr).isNullable
    ensures TemplateData.ArgumentOf(arg, render).isNullable == Some(false)
  {
  }
}
