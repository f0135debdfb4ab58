/**
 * The data the documentation templates are rendered from: attributes,
 * arguments and parameters of an operation, its arguments grouped into
 * sections, the command groups and their pretty names, and the root list
 * of groups.
 */
module TemplateData {
  import opened Wrappers
  import opened Strings
  import opened Dicts
  import opened Sorting
  import opened JsonValue

  /** Hand-made pretty names for some command groups. */
  const GROUP_NAME_CORRECTIONS: map<string, string> := map[
    "lke" := "LKE", "nodebalancers" := "NodeBalancer", "sshkeys" := "SSH Keys",
    "vlans" := "VLANs", "vpcs" := "VPCs"]

  // ---------------------------------------------------------------------------
  // Field rules shared by the `from_openapi` constructors
  // ---------------------------------------------------------------------------

  /** `datatype`, or `datatype[item_type]` for a container. */
  function TypeName(baseType: string, itemType: Option<string>): (r: string)
    ensures r == baseType <==> itemType.None?
    ensures itemType.Some? ==> r == baseType + "[" + itemType.value + "]"
  {
    if itemType.None? then baseType else baseType + "[" + itemType.value + "]"
  }

  /** A rendered description, or `None` for an empty one; `render` is the Markdown-to-reST conversion. */
  function DescriptionOf(description: string, render: string -> string): (r: Option<string>)
    ensures r.None? <==> description == ""
    ensures r.Some? ==> r.value == render(description)
  {
    if description != "" then Some(render(description)) else None
  }

  /** A response attribute as the documentation sees it. */
  datatype ResponseAttr = ResponseAttr(name: string, baseType: string, itemType: Option<string>, description: string, filterable: bool)

  datatype FilterableAttribute = FilterableAttribute(name: string, typeName: string, description: Option<string>)

  function FilterableAttributeOf(attr: ResponseAttr, render: string -> string): FilterableAttribute
  {
    FilterableAttribute(attr.name, TypeName(attr.baseType, attr.itemType), DescriptionOf(attr.description, render))
  }

  /** A request argument; `nullable` may be unset. */
  datatype RequestArg = RequestArg(
    path: string, required: bool, baseType: string, itemType: Option<string>, format: Option<string>,
    nullable: Option<bool>, isParent: bool, isChild: bool, parent: Option<string>, depth: int,
    description: string, prefix: Option<string>, example: Json)

  /** An entry of an operation's `args`: a request argument, or anything else (skipped). */
  datatype OperationArg = RequestArgument(arg: RequestArg) | OtherArgument

  datatype Argument = Argument(
    path: string, required: bool, typeName: string, isJson: bool, isNullable: Option<bool>,
    isParent: bool, depth: int, description: Option<string>)

  function ArgumentOf(arg: RequestArg, render: string -> string): (r: Argument)
    ensures r.isJson <==> arg.format == Some("json")
    ensures r.path == arg.path && r.required == arg.required
  {
    Argument(arg.path, arg.required, TypeName(arg.baseType, arg.itemType), arg.format == Some("json"),
             arg.nullable, arg.isParent, arg.depth, DescriptionOf(arg.description, render))
  }

  /** A URL parameter; its description may be missing. */
  datatype OperationParameter = OperationParameter(name: string, paramType: string, description: Option<string>)

  datatype Param = Param(name: string, typeName: string, description: Option<string>)

  /** Unlike the other two, a parameter's description is dropped only when it is missing. */
  function ParamOf(param: OperationParameter, render: string -> string): (r: Param)
    ensures r.description.None? <==> param.description.None?
    ensures param.description.Some? ==> r.description == Some(render(param.description.value))
  {
    Param(param.name, param.paramType, if param.description.Some? then Some(render(param.description.value)) else None)
  }

  // ---------------------------------------------------------------------------
  // Argument sections (`Action.from_openapi`)
  // ---------------------------------------------------------------------------

  datatype ArgumentSection = ArgumentSection(name: string, arguments: seq<Argument>)

  /** `arg.prefix or ""` */
  function SectionName(arg: RequestArg): string
  {
    arg.prefix.GetOr("")
  }

  /** The request arguments of section `k`, in the order they come. */
  function SectionArgs(args: seq<OperationArg>, k: string, render: string -> string): seq<Argument>
    decreases |args|
  {
    if args == [] then []
    else
      var last := args[|args| - 1];
      SectionArgs(args[..|args| - 1], k, render)
        + (if last.RequestArgument? && SectionName(last.arg) == k then [ArgumentOf(last.arg, render)] else [])
  }

  /** Some request argument lies in section `k`. */
  predicate HasSection(args: seq<OperationArg>, k: string)
  {
    exists i :: 0 <= i < |args| && args[i].RequestArgument? && SectionName(args[i].arg) == k
  }

  lemma {:induction false} SectionArgsEmpty(args: seq<OperationArg>, k: string, render: string -> string)
    ensures SectionArgs(args, k, render) != [] <==> HasSection(args, k)
    decreases |args|
  {
    if args != [] {
      var init := args[..|args| - 1];
      SectionArgsEmpty(init, k, render);
      if HasSection(init, k) {
        var i :| 0 <= i < |init| && init[i].RequestArgument? && SectionName(init[i].arg) == k;
        assert args[i] == init[i];
      }
      if HasSection(args, k) {
        var i :| 0 <= i < |args| && args[i].RequestArgument? && SectionName(args[i].arg) == k;
        if i < |init| {
          assert init[i] == args[i];
        }
      }
    }
  }

  /** `sections[name].append(argument)` on a `defaultdict(list)` */
  function AddToSection(sections: Dict<seq<Argument>>, name: string, argument: Argument): Dict<seq<Argument>>
  {
    Set(sections, name, Get(sections, name).GetOr([]) + [argument])
  }

  /** The `defaultdict` after the loop over the first `|args|` arguments. */
  function Grouped(args: seq<OperationArg>, render: string -> string): Dict<seq<Argument>>
    decreases |args|
  {
    if args == [] then []
    else
      var before := Grouped(args[..|args| - 1], render);
      var last := args[|args| - 1];
      if last.RequestArgument? then AddToSection(before, SectionName(last.arg), ArgumentOf(last.arg, render)) else before
  }

  /** The section `k` of the grouping, if it has any arguments. */
  function SectionLookup(args: seq<OperationArg>, k: string, render: string -> string): Option<seq<Argument>>
  {
    var members := SectionArgs(args, k, render);
    if members == [] then None else Some(members)
  }

  /** Section `k` of the grouping holds the request arguments with prefix `k`, in order. */
  lemma {:induction false} GroupedGet(args: seq<OperationArg>, render: string -> string, k: string)
    ensures Get(Grouped(args, render), k) == SectionLookup(args, k, render)
    decreases |args|
  {
    if args != [] {
      var init := args[..|args| - 1];
      var last := args[|args| - 1];
      GroupedGet(init, render, k);
      var before := Grouped(init, render);
      var added := if last.RequestArgument? && SectionName(last.arg) == k then [ArgumentOf(last.arg, render)] else [];
      assert SectionArgs(args, k, render) == SectionArgs(init, k, render) + added;
      if last.RequestArgument? {
        var name := SectionName(last.arg);
        var v := Get(before, name).GetOr([]) + [ArgumentOf(last.arg, render)];
        assert Grouped(args, render) == Set(before, name, v);
        if k == name {
          assert Get(before, k).GetOr([]) == SectionArgs(init, k, render);
        } else {
          assert added == [] && SectionArgs(args, k, render) == SectionArgs(init, k, render);
          assert Get(Set(before, name, v), k) == Get(before, k);
        }
      } else {
        assert Grouped(args, render) == before;
        assert added == [] && SectionArgs(args, k, render) == SectionArgs(init, k, render);
      }
    }
  }

  /** Every section appears once. */
  lemma {:induction false} GroupedDistinct(args: seq<OperationArg>, render: string -> string)
    ensures DistinctKeys(Grouped(args, render))
    decreases |args|
  {
    if args != [] {
      var init := args[..|args| - 1];
      var last := args[|args| - 1];
      GroupedDistinct(init, render);
      if last.RequestArgument? {
        var before := Grouped(init, render);
        var name := SectionName(last.arg);
        SetKeepsDistinct(before, name, Get(before, name).GetOr([]) + [ArgumentOf(last.arg, render)]);
      }
    }
  }

  /** The grouping loop of `Action.from_openapi`: non-request arguments are skipped. */
  method GroupArguments(args: seq<OperationArg>, render: string -> string) returns (sections: Dict<seq<Argument>>)
    ensures sections == Grouped(args, render)
  {
    sections := [];
    for i := 0 to |args|
      invariant sections == Grouped(args[..i], render)
    {
      assert args[..i + 1][..i] == args[..i];
      if args[i].RequestArgument? {
        var arg := args[i].arg;
        var name := SectionName(arg);
        var current := Get(sections, name).GetOr([]);
        sections := Set(sections, name, current + [ArgumentOf(arg, render)]);
      }
    }
    assert args[..|args|] == args;
  }

  /** `(not arg.required, arg.path)`: required arguments first, then by path. */
  function ArgumentKey(a: Argument): seq<int>
  {
    [if a.required then 0 else 1] + StringKey(a.path)
  }

  lemma ArgumentKeyOrder(a: Argument, b: Argument)
    ensures a.required && !b.required ==> LexLe(ArgumentKey(a), ArgumentKey(b)) && !LexLe(ArgumentKey(b), ArgumentKey(a))
    ensures a.required == b.required ==> (LexLe(ArgumentKey(a), ArgumentKey(b)) <==> LexLe(StringKey(a.path), StringKey(b.path)))
  {
    assert ArgumentKey(a)[1..] == StringKey(a.path);
    assert ArgumentKey(b)[1..] == StringKey(b.path);
  }

  function SectionKey(s: ArgumentSection): seq<int>
  {
    StringKey(s.name)
  }

  /** One section per group, its arguments sorted. */
  function SectionsOf(grouped: Dict<seq<Argument>>): seq<ArgumentSection>
  {
    seq(|grouped|, i requires 0 <= i < |grouped| => ArgumentSection(grouped[i].0, SortBy(grouped[i].1, ArgumentKey)))
  }

  function SortedSections(args: seq<OperationArg>, render: string -> string): seq<ArgumentSection>
  {
    SortBy(SectionsOf(Grouped(args, render)), SectionKey)
  }

  /** `set(sections.keys())` */
  function SectionNames(args: seq<OperationArg>, render: string -> string): set<string>
  {
    set k | k in Keys(Grouped(args, render))
  }

  /** A built section is its group's arguments, sorted. */
  lemma SectionsOfMember(grouped: Dict<seq<Argument>>, s: ArgumentSection)
    requires DistinctKeys(grouped) && s in SectionsOf(grouped)
    ensures s.name in Keys(grouped)
    ensures SortedBy(s.arguments, ArgumentKey)
    ensures multiset(s.arguments) == multiset(Get(grouped, s.name).value)
  {
    var sections := SectionsOf(grouped);
    var i :| 0 <= i < |sections| && sections[i] == s;
    DistinctGet(grouped, i);
    assert Keys(grouped)[i] == grouped[i].0;
  }

  /** A section holds, sorted with required arguments first and then by path, exactly the request arguments with its prefix. */
  lemma SortedSectionsMember(args: seq<OperationArg>, render: string -> string, s: ArgumentSection)
    requires s in SortedSections(args, render)
    ensures SortedBy(s.arguments, ArgumentKey)
    ensures multiset(s.arguments) == multiset(SectionArgs(args, s.name, render))
    ensures s.arguments != []
    ensures s.name in SectionNames(args, render)
  {
    var g := Grouped(args, render);
    GroupedDistinct(args, render);
    assert multiset(SortedSections(args, render))[s] > 0;
    assert s in SectionsOf(g);
    SectionsOfMember(g, s);
    GroupedGet(args, render, s.name);
    assert |multiset(s.arguments)| == |SectionArgs(args, s.name, render)| > 0;
  }

  /** The section names are the prefixes of the request arguments. */
  lemma SectionNamesSpec(args: seq<OperationArg>, render: string -> string, k: string)
    ensures k in SectionNames(args, render) <==> HasSection(args, k)
  {
    GroupedGet(args, render, k);
    SectionArgsEmpty(args, k, render);
  }

  /** Every section name has its section. */
  lemma SectionNamesListed(args: seq<OperationArg>, render: string -> string, k: string)
    requires k in SectionNames(args, render)
    ensures exists s :: s in SortedSections(args, render) && s.name == k
  {
    var g := Grouped(args, render);
    var sections := SectionsOf(g);
    var i :| 0 <= i < |g| && Keys(g)[i] == k;
    assert sections[i] in sections;
    assert multiset(sections)[sections[i]] > 0;
    assert sections[i] in SortedSections(args, render);
  }

  /**
   * The sections are sorted by name; each holds, sorted with required
   * arguments first and then by path, exactly the request arguments with
   * its prefix; and the section names are the prefixes in use.
   */
  lemma SortedSectionsSpec(args: seq<OperationArg>, render: string -> string)
    ensures SortedBy(SortedSections(args, render), SectionKey)
    ensures forall s :: s in SortedSections(args, render) ==>
      && SortedBy(s.arguments, ArgumentKey)
      && multiset(s.arguments) == multiset(SectionArgs(args, s.name, render))
      && s.arguments != []
      && s.name in SectionNames(args, render)
    ensures forall k :: k in SectionNames(args, render) <==> HasSection(args, k)
    ensures forall k :: k in SectionNames(args, render) <==> exists s :: s in SortedSections(args, render) && s.name == k
  {
    forall s | s in SortedSections(args, render)
      ensures SortedBy(s.arguments, ArgumentKey)
      ensures multiset(s.arguments) == multiset(SectionArgs(args, s.name, render))
      ensures s.arguments != [] && s.name in SectionNames(args, render)
    {
      SortedSectionsMember(args, render, s);
    }
    forall k ensures k in SectionNames(args, render) <==> HasSection(args, k) {
      SectionNamesSpec(args, render, k);
    }
    forall k | k in SectionNames(args, render)
      ensures exists s :: s in SortedSections(args, render) && s.name == k
    {
      SectionNamesListed(args, render, k);
    }
  }

  // ---------------------------------------------------------------------------
  // Actions, groups and the root
  // ---------------------------------------------------------------------------

  /** An operation's `action`: one name, or a list of names. */
  datatype ActionName = SingleAction(name: string) | ActionList(names: seq<string>)

  /** The parts of a baked operation the documentation reads; `samples` are the samples' source texts. */
  datatype Operation = Operation(
    command: string, action: ActionName, summary: string, description: string, docsUrl: string,
    deprecated: bool, samples: seq<string>, params: seq<OperationParameter>, args: seq<OperationArg>,
    httpMethod: string, paginated: bool, responseAttrs: seq<ResponseAttr>)

  datatype Action = Action(
    command: string, action: seq<string>, usage: Option<string>, summary: Option<string>,
    description: Option<string>, apiDocumentationUrl: Option<string>, deprecated: bool,
    parameters: seq<Param>, samples: seq<string>, filterableAttrs: seq<FilterableAttribute>,
    argumentSections: seq<ArgumentSection>, argumentSectionsNames: set<string>)

  function ActionNames(a: ActionName): seq<string>
  {
    match a
    case SingleAction(name) => [name]
    case ActionList(names) => names
  }

  function FilterableKey(f: FilterableAttribute): seq<int>
  {
    StringKey(f.name)
  }

  function IsFilterable(attr: ResponseAttr): bool
  {
    attr.filterable
  }

  /** The filterable attributes of a paginated `get`, sorted by name; none for any other operation. */
  function FilterableAttrs(op: Operation, render: string -> string): seq<FilterableAttribute>
  {
    if op.httpMethod == "get" && op.paginated then
      var kept := Filter(op.responseAttrs, IsFilterable);
      SortBy(seq(|kept|, i requires 0 <= i < |kept| => FilterableAttributeOf(kept[i], render)), FilterableKey)
    else []
  }

  /** Only a paginated `get` lists filterable attributes; each comes from a filterable attribute, and they are sorted by name. */
  lemma FilterableAttrsSpec(op: Operation, render: string -> string)
    ensures FilterableAttrs(op, render) != [] ==> op.httpMethod == "get" && op.paginated
    ensures SortedBy(FilterableAttrs(op, render), FilterableKey)
    ensures forall f :: f in FilterableAttrs(op, render) ==>
      exists attr :: attr in op.responseAttrs && attr.filterable && f == FilterableAttributeOf(attr, render)
    ensures op.httpMethod == "get" && op.paginated ==>
      forall attr :: attr in op.responseAttrs && attr.filterable ==> FilterableAttributeOf(attr, render) in FilterableAttrs(op, render)
  {
    if op.httpMethod == "get" && op.paginated {
      var kept := Filter(op.responseAttrs, IsFilterable);
      var built := seq(|kept|, i requires 0 <= i < |kept| => FilterableAttributeOf(kept[i], render));
      FilterElements(op.responseAttrs, IsFilterable);
      forall f | f in FilterableAttrs(op, render)
        ensures exists attr :: attr in op.responseAttrs && attr.filterable && f == FilterableAttributeOf(attr, render)
      {
        assert multiset(FilterableAttrs(op, render))[f] > 0;
        assert f in built;
        var i :| 0 <= i < |built| && built[i] == f;
        assert kept[i] in kept;
      }
      forall attr | attr in op.responseAttrs && attr.filterable
        ensures FilterableAttributeOf(attr, render) in FilterableAttrs(op, render)
      {
        FilterMultiset(op.responseAttrs, IsFilterable, attr);
        assert attr in kept;
        var i :| 0 <= i < |kept| && kept[i] == attr;
        assert built[i] == FilterableAttributeOf(attr, render);
        assert multiset(built)[built[i]] > 0;
      }
    }
  }

  /**
   * `Action.from_openapi`; `render` is the Markdown-to-reST conversion,
   * `normalize` the sample padding clean-up and `usage` the formatted usage
   * text of the operation's parser.
   */
  function ActionOf(op: Operation, render: string -> string, normalize: string -> string, usage: string): Action
  {
    Action(
      op.command, ActionNames(op.action), Some(usage), Some(render(op.summary)),
      DescriptionOf(op.description, render), Some(op.docsUrl), op.deprecated,
      seq(|op.params|, i requires 0 <= i < |op.params| => ParamOf(op.params[i], render)),
      seq(|op.samples|, i requires 0 <= i < |op.samples| => normalize(op.samples[i])),
      FilterableAttrs(op, render),
      if op.args != [] then SortedSections(op.args, render) else [],
      if op.args != [] then SectionNames(op.args, render) else {})
  }

  /** The sections `Action.from_openapi` builds from the grouping, and the set of their names. */
  method BuildSections(args: seq<OperationArg>, render: string -> string)
    returns (sorted: seq<ArgumentSection>, names: set<string>)
    ensures sorted == SortedSections(args, render)
    ensures names == SectionNames(args, render)
  {
    var sections := GroupArguments(args, render);
    sorted := SortBy(SectionsOf(sections), SectionKey);
    names := set k | k in Keys(sections);
  }

  /** `Action.from_openapi`, field by field as the constructor fills them in. */
  method ActionFromOpenapi(op: Operation, render: string -> string, normalize: string -> string, usage: string)
    returns (result: Action)
    ensures result == ActionOf(op, render, normalize, usage)
  {
    result := Action(op.command, ActionNames(op.action), None, Some(render(op.summary)),
                     DescriptionOf(op.description, render), Some(op.docsUrl), op.deprecated,
                     [], [], [], [], {});
    if op.samples != [] {
      result := result.(samples := seq(|op.samples|, i requires 0 <= i < |op.samples| => normalize(op.samples[i])));
    }
    if op.params != [] {
      result := result.(parameters := seq(|op.params|, i requires 0 <= i < |op.params| => ParamOf(op.params[i], render)));
    }
    if op.args != [] {
      var sorted, names := BuildSections(op.args, render);
      result := result.(argumentSections := sorted, argumentSectionsNames := names);
    }
    result := result.(filterableAttrs := FilterableAttrs(op, render));
    result := result.(usage := Some(usage));
    ghost var spec := ActionOf(op, render, normalize, usage);
    assert result.samples == spec.samples;
    assert result.parameters == spec.parameters;
    assert result.argumentSections == spec.argumentSections;
    assert result.argumentSectionsNames == spec.argumentSectionsNames;
  }

  /** Sections and names together: with no arguments there are none of either. */
  lemma ActionSections(op: Operation, render: string -> string, normalize: string -> string, usage: string)
    ensures var a := ActionOf(op, render, normalize, usage);
      && SortedBy(a.argumentSections, SectionKey)
      && (forall k :: k in a.argumentSectionsNames <==> HasSection(op.args, k))
      && (forall k :: k in a.argumentSectionsNames <==> exists s :: s in a.argumentSections && s.name == k)
      && (forall s :: s in a.argumentSections ==> multiset(s.arguments) == multiset(SectionArgs(op.args, s.name, render)))
  {
    if op.args != [] {
      SortedSectionsSpec(op.args, render);
    }
  }

  datatype Group = Group(name: string, prettyName: string, actions: seq<Action>)

  /** The group's display name: the correction when there is one, else title case with spaces for hyphens. */
  function PrettyName(name: string): (r: string)
    ensures name in GROUP_NAME_CORRECTIONS ==> r == GROUP_NAME_CORRECTIONS[name]
    ensures name !in GROUP_NAME_CORRECTIONS ==> |r| == |name| && '-' !in r
  {
    if name in GROUP_NAME_CORRECTIONS then GROUP_NAME_CORRECTIONS[name]
    else ReplaceChar(Title(name), '-', ' ')
  }

  /**
   * An uncorrected name, character by character: a hyphen becomes a space; a
   * letter is upper-cased at the start or after a non-letter and lower-cased
   * after a letter; any other character is kept.
   */
  lemma PrettyNameChars(name: string)
    requires name !in GROUP_NAME_CORRECTIONS
    ensures var r := PrettyName(name);
      && |r| == |name|
      && forall i :: 0 <= i < |name| ==>
           r[i] == (if name[i] == '-' then ' '
                    else if !IsAsciiLetter(name[i]) then name[i]
                    else if i == 0 || !IsAsciiLetter(name[i - 1]) then UpperChar(name[i])
                    else LowerChar(name[i]))
  {
    forall i | 0 <= i < |name|
      ensures Title(name)[i] ==
        if !IsAsciiLetter(name[i]) then name[i]
        else if i == 0 || !IsAsciiLetter(name[i - 1]) then UpperChar(name[i])
        else LowerChar(name[i])
    {
      TitleAfterAt(name, false, i);
    }
  }

  /** A single lower-case word is capitalised ("linodes" gives "Linodes"). */
  lemma PrettyNameWord(name: string)
    requires IsLowerWord(name) && name !in GROUP_NAME_CORRECTIONS
    ensures PrettyName(name) == Capitalized(name)
  {
    TitleLowerWord(name);
    ReplaceCharAbsent(Capitalized(name), '-', ' ');
  }

  /** No corrected group name has a hyphen. */
  lemma CorrectionsUnhyphenated(name: string)
    requires '-' in name
    ensures name !in GROUP_NAME_CORRECTIONS
  {
    assert forall k :: k in GROUP_NAME_CORRECTIONS ==> '-' !in k;
  }

  /** Lower-case words joined by a hyphen become capitalised words joined by a space ("test-resource" gives "Test Resource"). */
  lemma PrettyNameHyphenated(first: string, second: string)
    requires IsLowerWord(first) && IsLowerWord(second)
    ensures PrettyName(first + "-" + second) == Capitalized(first) + " " + Capitalized(second)
  {
    var name := first + "-" + second;
    var c1, c2 := Capitalized(first), Capitalized(second);
    assert name[|first|] == '-';
    assert '-' !in c1 && '-' !in c2;
    calc {
      PrettyName(name);
      { CorrectionsUnhyphenated(name); }
      ReplaceChar(Title(name), '-', ' ');
      { TitleHyphenatedWords(first, second); }
      ReplaceChar(c1 + "-" + c2, '-', ' ');
      { ReplaceCharAppend(c1 + "-", c2, '-', ' '); ReplaceCharAppend(c1, "-", '-', ' '); }
      ReplaceChar(c1, '-', ' ') + ReplaceChar("-", '-', ' ') + ReplaceChar(c2, '-', ' ');
      { ReplaceCharAbsent(c1, '-', ' '); ReplaceCharAbsent(c2, '-', ' '); }
      c1 + " " + c2;
    }
  }

  /** `Group.from_openapi`; `sortActions` is the unseen smart ordering of actions. */
  function GroupOf(name: string, group: Dict<Operation>, render: string -> string, normalize: string -> string,
                   usageOf: Operation -> string, sortActions: seq<Action> -> seq<Action>): Group
  {
    Group(name, PrettyName(name),
          sortActions(seq(|group|, i requires 0 <= i < |group| => ActionOf(group[i].1, render, normalize, usageOf(group[i].1)))))
  }

  function GroupKey(g: Group): seq<int>
  {
    StringKey(g.name)
  }

  /** One group per command, in the commands' order. */
  function GroupsOf(ops: Dict<Dict<Operation>>, render: string -> string, normalize: string -> string,
                    usageOf: Operation -> string, sortActions: seq<Action> -> seq<Action>): seq<Group>
  {
    seq(|ops|, i requires 0 <= i < |ops| => GroupOf(ops[i].0, ops[i].1, render, normalize, usageOf, sortActions))
  }

  /** `Root.from_cli`: one group per command, sorted by name. */
  function RootGroups(ops: Dict<Dict<Operation>>, render: string -> string, normalize: string -> string,
                      usageOf: Operation -> string, sortActions: seq<Action> -> seq<Action>): seq<Group>
  {
    SortBy(GroupsOf(ops, render, normalize, usageOf, sortActions), GroupKey)
  }

  /** Sequences with the same multiset have the same members. */
  lemma MultisetSameMembers<T>(a: seq<T>, b: seq<T>)
    requires multiset(a) == multiset(b)
    ensures forall x :: x in a <==> x in b
  {
    forall x ensures x in a <==> x in b {
      assert x in a <==> multiset(a)[x] > 0;
      assert x in b <==> multiset(b)[x] > 0;
    }
  }

  /** The unsorted groups are named exactly by the commands. */
  lemma GroupsOfNames(ops: Dict<Dict<Operation>>, render: string -> string, normalize: string -> string,
                      usageOf: Operation -> string, sortActions: seq<Action> -> seq<Action>, k: string)
    ensures (exists g :: g in GroupsOf(ops, render, normalize, usageOf, sortActions) && g.name == k) <==> k in Keys(ops)
  {
    var built := GroupsOf(ops, render, normalize, usageOf, sortActions);
    if exists g :: g in built && g.name == k {
      var g :| g in built && g.name == k;
      var i :| 0 <= i < |built| && built[i] == g;
      assert Keys(ops)[i] == k;
    }
    if k in Keys(ops) {
      var i :| 0 <= i < |ops| && Keys(ops)[i] == k;
      assert built[i] in built;
    }
  }

  /** The groups are sorted by name, and their names are the commands. */
  lemma RootGroupsSpec(ops: Dict<Dict<Operation>>, render: string -> string, normalize: string -> string,
                       usageOf: Operation -> string, sortActions: seq<Action> -> seq<Action>)
    ensures var groups := RootGroups(ops, render, normalize, usageOf, sortActions);
      && SortedBy(groups, GroupKey)
      && |groups| == |ops|
      && forall k :: (exists g :: g in groups && g.name == k) <==> k in Keys(ops)
  {
    var built := GroupsOf(ops, render, normalize, usageOf, sortActions);
    var groups := RootGroups(ops, render, normalize, usageOf, sortActions);
    assert |groups| == |multiset(groups)| == |multiset(built)| == |ops|;
    MultisetSameMembers(groups, built);
    forall k ensures (exists g :: g in groups && g.name == k) <==> k in Keys(ops) {
      GroupsOfNames(ops, render, normalize, usageOf, sortActions, k);
    }
  }
}
