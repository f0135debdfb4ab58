# linode-cli core, modelled in Dafny

This project models the parts of the Linode command-line client that decide what it prints and which operation it runs:

- **The output renderer** (`OutputHandler` in `linodecli/output.py`):
  - column selection under the three kinds of column directive, with the caller's attribute list shrinking in place;
  - extraction of a sub-table by a dotted path;
  - row building with an optional header row;
  - recursive JSON key filtering, and the JSON, delimited and table renderings;
  - the mode dispatch, and the per-sub-table loop of `print_response`.
- **The object-storage plugin** (`linodecli/plugins/obj`):
  - padding, the bounded integer argument type, paging and deletion entries;
  - the signed-link expiry offset and ACL validation;
  - where credentials come from, and the status codes of key generation;
  - the label of generated keys, usage totals and sub-command dispatch.
- **The command router** (`linodecli/cli.py`): operation lookup with action aliases, the guard of `call_operation`, the URL slug of a tag, and the flattening of a response schema's properties into dotted attribute names.
- **The documentation data builders** (`linodecli/documentation`): attribute, argument and parameter records; grouping and sorting of an action's arguments into sections; group pretty names; the root list of groups; and the example formatter of the template argument.
- **Schema property aggregation** (`linodecli/baked/util.py`), and **the region-table plugin**'s headings and rows.

**How the model is built.**

- Responses are a small JSON datatype (`JsonValue.Json`). Python dictionaries are association lists in insertion order (`Dicts.Dict`) whose keys are taken to be distinct, as a Python dict's are; `Dicts.Get` reads the pair of a key. Building a dictionary from pairs (`Dicts.FromPairs`, `Dicts.Update`) keeps the last value of a repeated key, as `dict(pairs)` and `update` do.
- Python exceptions are values of `JsonValue.PyError` inside a `Result`. Exits with an error message are `Err` values as well.
- `OutputHandler` is a datatype holding its configuration, because nothing in the modelled code reassigns its fields. The attribute list that `_get_columns` shrinks in place is a class, `Output.AttrList`.
- Loops that change state are methods with loop invariants. Each is proved equal to a specification function, and the properties are proved about that function:
  - `_get_columns`, `_resolve_data_for_table`, `_build_output_content`, `_select_json_elements`;
  - the JSON and delimited outputs, `print_response`;
  - `flip_to_page`, `set_acl`, `show_usage`;
  - `find_operation`, `_parse_properties`, `Action.from_openapi`'s grouping loop;
  - `_aggregate_schema_properties`.
- Clocks, the user and host names, HTTP status codes and responses, and the functions the core calls but does not define are parameters:
  - Markdown-to-reST conversion, sample padding, type formatting and usage text;
  - smart action ordering, `json.dumps`, `repr`, `_denominate`;
  - per-attribute rendering.

Module layout, one file per module:

- Shared modules: `Wrappers`, `Strings` (Python string operations on ASCII), `Dicts`, `JsonValue` and `Sorting` (Python's stable `sorted`, as insertion sort).
- One module per core file: `Output`, `ObjHelpers`, `ObjPlugin`, `Cli`, `TemplateData`, `TemplateArgument`, `BakedUtil` and `RegionTable`.

## Model

| member | source | states |
|---|---|---|
| Output.OutputHandler.GetColumns | linodecli/output.py:150-176 | the columns returned and what is left in the caller's attribute list are those of the selection function `SelectColumns` on the list as it was |
| Output.RemoveMatching | linodecli/output.py:165-169 | the inner removal loop for one name selects and removes exactly what `Scan` says: the list is walked by index and the element after each removed one is skipped |
| Output.DefaultColumnsSorted | linodecli/output.py:154-159 | with no directive every column has a non-zero display priority, the priorities ascend, and the columns are the displayed attributes, each as many times as given |
| Output.DefaultColumnsStable | linodecli/output.py:157 | attributes of one display priority keep their original relative order (a stable sort) |
| Output.SelectColumnsWildcard | linodecli/output.py:160-161 | `*` returns the whole attribute list in its original order and removes nothing |
| Output.ScanSelectsName | linodecli/output.py:165-168 | one name's scan selects only attributes of that name |
| Output.ScanPartitions | linodecli/output.py:165-168 | what a scan selects and what it keeps together make up the list, as multisets |
| Output.ScanEmpty | linodecli/output.py:165-168 | a scan selects nothing exactly when no attribute has the name, and then keeps the list unchanged |
| Output.ScanTakesFirstMatch | linodecli/output.py:165-168 | the first attribute with the name is the first one selected |
| Output.ScanUniqueNames | linodecli/output.py:165-168 | when column names are distinct, a scan takes exactly the one attribute of that name and removes it |
| Output.ScanSkipsNeighbour | linodecli/output.py:165-168 | of two adjacent attributes with the requested name, the second is skipped and stays in the list |
| Output.SelectNamesRequested | linodecli/output.py:163-169 | every column chosen by a name list has one of the requested names |
| Output.SelectNamesPartitions | linodecli/output.py:163-169 | no attribute is selected twice, and what is selected is removed from the list: the selected and the kept attributes together are the list, as multisets |
| Output.SelectNamesNothingKept | linodecli/output.py:163-169 | a name list that selects nothing leaves the list alone |
| Output.SelectNamesRequestOrder | linodecli/output.py:163-169 | with no name requested twice, the columns come out grouped in request order |
| Output.SelectNamesNone | linodecli/output.py:163-169 | names that match no attribute select nothing and leave the list alone |
| Output.SelectColumnsNonEmpty | linodecli/output.py:171-176 | whatever the directive, the result is non-empty whenever the attribute list is non-empty |
| Output.SelectColumnsOfNothing | linodecli/output.py:171-176 | an empty attribute list gives no columns whatever the directive |
| Output.SelectColumnsNoMatch | linodecli/output.py:163-176 | a name list matching nothing falls back to every attribute, in order, and the list is unchanged |
| Output.ResolveDataForTable | linodecli/output.py:134-148 | the walk is the specification `ResolvedData`: empty data or an empty path returns the data; otherwise the path is walked from the first record, a missing segment is "Sublist path not found in data: " plus the path, and a non-list result is wrapped in a list |
| Output.WalkConcat | linodecli/output.py:140-144 | walking a path in two parts is walking the whole path |
| Output.ResolvedDataDotted | linodecli/output.py:140-148 | for `first.rest`, a first segment absent from the first record is the not-found error; otherwise the rest is walked from that key's value |
| Output.ResolvedDataMissingKey | linodecli/output.py:141-142 | a one-segment path that is not a key of the first record raises the not-found error |
| Output.SelectJsonElements | linodecli/output.py:255-269 | the filtering loop with recursion computes `Selected`; a value without `.items()` is an `AttributeError` |
| Output.SelectedFromSound | linodecli/output.py:262-268 | every output field is either a requested field of the input with its value unchanged, or a nested object under an unrequested key, filtered and non-empty |
| Output.SelectedFromComplete | linodecli/output.py:262-268 | every requested field of the input is kept with its value; every unrequested nested object with something left after filtering is kept, filtered |
| Output.SelectedCharacterised | linodecli/output.py:256-269 | both directions of the above for the whole object: the output keys are input keys, and other values are dropped |
| Output.SelectedFromSuffix | linodecli/output.py:262-268 | the fields filtered from position `j` on depend only on the input fields from `j` on |
| Output.SelectedIdempotent | linodecli/output.py:256-269 | filtering an already filtered object changes nothing |
| Output.SelectedFromIdempotent | linodecli/output.py:262-268 | the same idempotence from a position on, which the whole-object lemma rests on |
| Output.SelectedAllKeys | linodecli/output.py:262-264 | requesting every top-level key keeps the object whole |
| Output.SelectedNoKeys | linodecli/output.py:262-268 | requesting no key that occurs anywhere gives the empty object |
| Output.OutputHandler.BuildOutputContent | linodecli/output.py:271-296 | the row-building loop computes `ContentOf`; an empty column list is the `IndexError` of `columns[0]` |
| Output.OutputHandler.ContentShape | linodecli/output.py:283-296 | the content is one row per record, after a header row exactly when headers are on and a header is given; with plain names the records pass through untouched; with attributes each row has one cell per column, in column order, from the transform |
| Output.OutputHandler.TableOutput | linodecli/output.py:178-217 | the table gets the content without a header row, fold or ellipsis overflow from the truncation flag, the column width, the header flag and the title |
| Output.OutputHandler.DelimitedOutput | linodecli/output.py:219-231 | the lines are the joined content rows, one per row; a row that is not all text raises a `TypeError` |
| Output.JoinRowsCells | linodecli/output.py:230-231 | rows of text cells always join, one line per row, each the delimiter-join of its cells |
| Output.OutputHandler.DelimitedSplitsBack | linodecli/output.py:219-231 | with a one-character delimiter there is a line per record, after the joined header line exactly when headers are on, and a record's line splits back into its cells when no cell holds the delimiter |
| Output.OutputHandler.JsonOutput | linodecli/output.py:233-253 | the loops compute `JsonOf`: records are filtered to the header's keys when the first one is an object, and zipped with the header otherwise |
| Output.SelectRecordsSpec | linodecli/output.py:238-241 | filtering succeeds exactly when every record is an object, and then gives one filtered object per record; a later non-object record is an `AttributeError` |
| Output.ZipRecordsSpec | linodecli/output.py:242-244 | zipping gives one object per record, pairing header names with the record's items; a record that cannot be iterated is a `TypeError` |
| Output.ZipRecordFields | linodecli/output.py:244 | a zipped record's keys are the header names that have an item, truncated to the shorter length; with distinct names each key maps to the item at its position |
| Output.OutputHandler.Dispatch | linodecli/output.py:110-131 | `_print` renders with the mode's output function: the three table modes with square, ASCII or Markdown boxes, then the delimited and JSON modes |
| Output.OutputHandler.RenderingIsTable | linodecli/output.py:113-125 | in the three table modes every successful rendering is a table with the given header and title |
| Output.OutputHandler.Print | linodecli/output.py:59-76 | `print` renders with the given names as both the header and the columns |
| Output.OutputHandler.PrintResponse | linodecli/output.py:96-108 | the loop over `""` and then the subtables prints what `ResponseRendering` says, and stops at the first exception |
| Output.OutputHandler.ResponseRenderingCount | linodecli/output.py:96-108 | when nothing fails, exactly the tables whose attribute list is non-empty are printed |
| Output.OutputHandler.ResponseRenderingTitles | linodecli/output.py:96-108 | in table modes, when nothing fails, the printed tables are titled with those tables' names, in order |
| Output.OutputHandler.TableRenderingTitle | linodecli/output.py:97-108 | a table whose data resolves is skipped exactly when its attribute list is empty; in table modes it is rendered titled with its name |
| Output.OutputHandler.ResponseRenderingTopLevel | linodecli/output.py:96-108 | the top-level table comes first: it uses the data as given and is titled with the empty name; its failure stops everything |
| Output.TitledByCons | linodecli/output.py:96-108 | the order of printed titles carries over from one table to the next |
| ObjHelpers.PadTo | linodecli/plugins/obj/helpers.py:91-108 | the result has length max(len, 10); the text is kept, with spaces after it, or before it when right-aligned |
| ObjHelpers.PadToIgnoresLength | linodecli/plugins/obj/helpers.py:91-101 | the `length` argument makes no difference |
| ObjHelpers.RestrictedInt | linodecli/plugins/obj/helpers.py:68-78 | a value is accepted exactly when `int()` parses it and it lies in the inclusive range; any other input gets the single "between min and max" message; an accepted value is the integer `int()` parsed, whatever its spelling |
| ObjHelpers.RestrictedIntAccepts | linodecli/plugins/obj/helpers.py:68-78 | every integer in the range, both ends included, is accepted as the value written |
| ObjHelpers.RestrictedIntRejects | linodecli/plugins/obj/helpers.py:76-77 | every integer outside the range is refused with the range message |
| ObjHelpers.FlipToPage | linodecli/plugins/obj/helpers.py:134-144 | the loop returns the element at position max(page-1, 0); when the elements run out exactly at the end, the final `next` raises `StopIteration`; when they run out earlier, it fails with "No result to show in this page." |
| ObjHelpers.DeletionEntrySpec | linodecli/plugins/obj/helpers.py:148-153 | an entry has exactly the key `Key`, followed by `VersionId` when versioned, with the object's values |
| ObjHelpers.DeletionEntriesOfSpec | linodecli/plugins/obj/helpers.py:147-155 | the entries match the listed objects one to one, in order |
| ObjHelpers.DeletionEntriesAbsent | linodecli/plugins/obj/helpers.py:154 | a page without the listing key gives no entries; a page that is not a mapping raises `AttributeError` |
| ObjPlugin.ExpiryOffsetRelative | linodecli/plugins/obj/__init__.py:99-101 | `+N` gives an offset of N seconds whatever the clock says |
| ObjPlugin.ExpiryOffset | linodecli/plugins/obj/__init__.py:99-104 | an expiry starting with `+` succeeds exactly when the rest parses, with that integer as the offset; any other expiry succeeds exactly when it parses, with the parsed time minus the rounded-up current time; the error carries the text `int()` refused |
| ObjPlugin.ExpiryOffsetAbsolute | linodecli/plugins/obj/__init__.py:102-104 | an epoch time T gives T minus the rounded-up current time |
| ObjPlugin.SetAcl | linodecli/plugins/obj/__init__.py:150-172 | both flags and neither flag fail, each with its message; otherwise the ACL is "public-read" exactly when public; the options are Bucket and ACL, plus Key when an object is named; the call is the object-ACL one exactly when an object is named |
| ObjPlugin.ShowUsage | linodecli/plugins/obj/__init__.py:200-235 | one row per bucket (the named one, or all listed): the padded total of `Size`, with absent as 0, and the object count; the separator and grand total follow only for more than one bucket |
| ObjPlugin.TotalSizeAppend | linodecli/plugins/obj/__init__.py:221-223 | the size total of two listings is the sum of their totals |
| ObjPlugin.GrandTotalIsAllObjects | linodecli/plugins/obj/__init__.py:211-225 | the grand total equals the size total of all objects of all buckets |
| ObjPlugin.GetCredentialsSpec | linodecli/plugins/obj/__init__.py:312-332 | exactly one environment key set (by truthiness) is an error; both set are used as given; neither set falls back to the stored-credentials lookup |
| ObjPlugin.StatusFailure | linodecli/plugins/obj/__init__.py:508-519 | a status is a failure exactly when it is not 200; 401 is the scopes error, 403 the access error, and any other status is "Key generation failed!" |
| ObjPlugin.GetS3CredsSpec | linodecli/plugins/obj/__init__.py:469-561 | stored keys are returned unless forced; generated keys come from the create response, need both calls to return 200, and carry a label of at most 50 characters that is a suffix of the untrimmed label (the corrected trim) |
| ObjPlugin.GetS3CredsLabelAsWritten | linodecli/plugins/obj/__init__.py:521-535 | for every timestamp of at most 11 digits the generated label is the untrimmed label, which is exactly what the plugin's own trim sends |
| ObjPlugin.TimestampPartBeforeDot | linodecli/plugins/obj/__init__.py:525 | the timestamp part is the clock's text up to the first dot |
| ObjPlugin.CredsLabelAsWrittenLength | linodecli/plugins/obj/__init__.py:529-535 | as written, the trim of an L-character label (L > 50) keeps L-50 characters |
| ObjPlugin.CredsLabelAsWrittenCounterexample | linodecli/plugins/obj/__init__.py:525-535 | a 13-character user and host with a 12-digit timestamp give a 51-character label; as written, it is cut to 1 character, while the corrected trim keeps 50 |
| ObjPlugin.CredsLabel | linodecli/plugins/obj/__init__.py:525-535 | the corrected label has min(L, 50) characters and is the end of the untrimmed label |
| ObjPlugin.RemoveFirst | linodecli/plugins/obj/__init__.py:376-377 | an absent `--no-defaults` changes nothing; a present one shortens the arguments by one |
| ObjPlugin.RemoveFirstMultiset | linodecli/plugins/obj/__init__.py:376-377 | exactly one occurrence is removed and every other argument stays |
| ObjPlugin.RemoveFirstSplits | linodecli/plugins/obj/__init__.py:376-377 | the first occurrence is the one removed, with the order of the rest kept |
| ObjPlugin.CallOutcomeDropsNoDefaults | linodecli/plugins/obj/__init__.py:373-425 | a mapped command runs on the plugin's leftover arguments with the first `--no-defaults` dropped |
| ObjPlugin.CallOutcomeCommands | linodecli/plugins/obj/__init__.py:239-434 | `rm` and `del` run the same delete command; `regenerate-keys` and `configure` are reached outside the command map |
| ObjPlugin.CallOutcomeHelp | linodecli/plugins/obj/__init__.py:358-388 | with `--help`, credentials are never fetched, so their failure cannot change the outcome |
| Cli.FindOperation | linodecli/cli.py:307-325 | the loop with early return computes `Lookup` |
| Cli.LookupUnknownCommand | linodecli/cli.py:311-312 | the result is "Command not found" exactly when the command is unknown |
| Cli.LookupExactFirst | linodecli/cli.py:316-317 | an exact action key takes precedence over every alias |
| Cli.LookupByAlias | linodecli/cli.py:319-325 | otherwise the lookup succeeds exactly when some operation lists the action as an alias, and returns the first such in dict order; failure is "No action a for command c" |
| Cli.FirstAliased | linodecli/cli.py:320-322 | the alias search finds the first position at which the action is an alias, or finds none when there is none |
| Cli.CallOperationGuardAgrees | linodecli/cli.py:290-295 | the guard fails with "Unknown command/action c/a" exactly when the command or the action key is unknown; when it passes, it picks what `find_operation` would |
| Cli.CallOperationGuardRefusesAliases | linodecli/cli.py:292-293 | an alias that `find_operation` resolves is refused by the guard |
| Cli.FlattenUrlPath | linodecli/cli.py:233-236 | the slug holds only lower-case letters and hyphens |
| Cli.KeepSlugChars | linodecli/cli.py:235 | deleting every character other than a-z and space leaves only those characters, and never lengthens the text |
| Cli.FlattenUrlPathIsSlug | linodecli/cli.py:233-236 | the three passes amount to mapping each character on its own: a letter is lower-cased, a space becomes a hyphen, anything else is dropped |
| Cli.FlattenUrlPathOfWords | linodecli/cli.py:233-236 | a tag of lower-case words and spaces keeps its letters, with hyphens for the spaces |
| Cli.KeepSlugCharsOfSlug | linodecli/cli.py:235 | text already in the slug alphabet passes the deletion unchanged |
| Cli.ParseProperties | linodecli/cli.py:43-72 | the loop with recursion computes `Properties`; a node without `.items()` raises `AttributeError` |
| Cli.PropertiesOfLeaves | linodecli/cli.py:51-70 | a node of leaves gives one attribute per entry, in iteration order, named by the prefix and the key joined with dots |
| Cli.PropertyEntryNested | linodecli/cli.py:52-55 | an entry with `properties` contributes that schema's attributes, with its name appended to the prefix |
| Cli.LeafAttrDefaults | linodecli/cli.py:57-68 | for any leaf that builds: `filterable`, `display` and `type` fall back to `False`, `False` and "string" when absent or falsy; an absent colour map or `items` gives `None` |
| Cli.LeafAttrItemType | linodecli/cli.py:57-60 | with a non-empty `items` dict, the item type is its `type` |
| Cli.LeafAttrSucceeds | linodecli/cli.py:57-68 | a leaf fails, with `AttributeError`, exactly when it is not a dict, or when its `items` is truthy but not a dict |
| Cli.FindKey | linodecli/cli.py:52 | a key's position in a schema agrees with dictionary lookup |
| TemplateData.TypeName | linodecli/documentation/template_data.py:56-60 | the type is the data type exactly when there is no item type, and `datatype[item_type]` otherwise |
| TemplateData.DescriptionOf | linodecli/documentation/template_data.py:61-65 | the description is missing exactly when the source description is empty; otherwise it is the rendered text |
| TemplateData.ArgumentOf | linodecli/documentation/template_data.py:96-113 | `is_json` holds exactly when the format is "json"; path and required are carried over |
| TemplateData.ParamOf | linodecli/documentation/template_data.py:138-146 | a parameter's description is missing exactly when the source's is missing |
| TemplateData.GroupArguments | linodecli/documentation/template_data.py:221-227 | the grouping loop computes `Grouped`, skipping entries that are not request arguments |
| TemplateData.GroupedGet | linodecli/documentation/template_data.py:223-227 | section k of the grouping holds the request arguments whose prefix is k, in order, with a missing or empty prefix counting as "" |
| TemplateData.GroupedDistinct | linodecli/documentation/template_data.py:221-227 | every section appears once |
| TemplateData.SectionArgsEmpty | linodecli/documentation/template_data.py:223-227 | a section is non-empty exactly when some request argument has that prefix |
| TemplateData.ArgumentKeyOrder | linodecli/documentation/template_data.py:234 | among arguments, required ones sort before the others, and arguments of equal requiredness are ordered by path |
| TemplateData.SectionsOfMember | linodecli/documentation/template_data.py:229-240 | a built section is its group's arguments, sorted |
| TemplateData.SortedSectionsMember | linodecli/documentation/template_data.py:229-240 | each section holds, sorted, exactly the request arguments with its prefix, is non-empty, and has its name in the section names |
| TemplateData.SortedSectionsSpec | linodecli/documentation/template_data.py:229-242 | the sections are sorted by name; each one holds its prefix's arguments, sorted; the section names are exactly the prefixes in use, with a section for each name |
| TemplateData.SectionNamesSpec | linodecli/documentation/template_data.py:242 | a name is in the section names exactly when some request argument has it as prefix |
| TemplateData.SectionNamesListed | linodecli/documentation/template_data.py:229-242 | every section name has its section |
| TemplateData.FilterableAttrsSpec | linodecli/documentation/template_data.py:244-252 | only a paginated `get` lists filterable attributes; they are sorted by name; they are built from exactly the filterable response attributes |
| TemplateData.ActionFromOpenapi | linodecli/documentation/template_data.py:182-256 | the step-by-step construction computes `ActionOf`: the action list, the description rule, samples, parameters, sections, names, filterable attributes and usage |
| TemplateData.ActionSections | linodecli/documentation/template_data.py:220-242 | an action's sections are sorted by name, its section names are the prefixes in use, and each section holds its prefix's arguments |
| TemplateData.PrettyName | linodecli/documentation/template_data.py:300-304 | a corrected group name is its correction; any other name keeps its length and has no hyphen |
| TemplateData.PrettyNameChars | linodecli/documentation/template_data.py:300-304 | an uncorrected name becomes `name.title().replace("-", " ")` character by character: a hyphen turns into a space, a letter is upper-cased at the start or after a non-letter and lower-cased after a letter, and every other character is kept |
| TemplateData.PrettyNameWord | linodecli/documentation/template_data.py:300-304 | a single uncorrected lower-case word is capitalised ("linodes" gives "Linodes") |
| TemplateData.CorrectionsUnhyphenated | linodecli/documentation/template_data.py:23-29 | no hyphenated name has a correction |
| TemplateData.PrettyNameHyphenated | linodecli/documentation/template_data.py:300-304 | two lower-case words joined by a hyphen become the two capitalised words joined by a space ("test-resource" gives "Test Resource") |
| TemplateData.RootGroupsSpec | linodecli/documentation/template_data.py:331-338 | the root's groups are sorted by name, one per command, and their names are exactly the commands |
| TemplateArgument.FormatExampleNone | linodecli/documentation/template_data/argument.py:47-63 | there is no example text exactly when the example is falsy, so a list example for an array type always has an element: the warning branch is unreachable |
| TemplateArgument.FormatExampleFirstOnly | linodecli/documentation/template_data/argument.py:55-65 | for an array type only the list's first element is shown |
| TemplateArgument.FormatExampleBooleans | linodecli/documentation/template_data/argument.py:49-68 | `True` reads "true", `False` gives nothing, and "false" only comes from a list such as `[False]` |
| TemplateArgument.FormatExampleFalsyElement | linodecli/documentation/template_data/argument.py:65-70 | a falsy first element is still shown, as `str` renders it ("0", "None") |
| TemplateArgument.ArgumentOf | linodecli/documentation/template_data/argument.py:83-101 | `is_json` holds exactly when the format is "json"; `is_nullable` exactly when `nullable` is set; the description is missing exactly when it is empty; the example is missing exactly when it is falsy |
| TemplateArgument.NullableFlags | linodecli/documentation/template_data/argument.py:90 | an argument marked non-nullable is flagged nullable here, while the action data builder keeps `False` |
| BakedUtil.UpdateFrom | linodecli/baked/util.py:17-24 | one `update`: keys stay distinct; each listed key takes the source's (last) value; the key set is the union; a missing source changes nothing |
| BakedUtil.AggregateSchemaProperties | linodecli/baked/util.py:6-26 | the union of the present sources' keys, each key once, each with the value from `anyOf` over `oneOf` over `properties`; empty when all three are missing |
| RegionTable.Headers | linodecli/plugins/region-table.py:21-40 | 14 headings: "ID", "Label", "Loc", then the 11 short capability names in order |
| RegionTable.LongNames | linodecli/plugins/region-table.py:21-33 | the API's capability names, in listed order |
| RegionTable.RegionRowSpec | linodecli/plugins/region-table.py:43-50 | a row has as many cells as there are headings: the id and label aligned left, the upper-cased country, then one capability mark per capability |
| RegionTable.CapabilityMarksOk | linodecli/plugins/region-table.py:49 | the marks can be computed exactly when the capabilities value supports `in` |
| RegionTable.CapabilityMarksSpec | linodecli/plugins/region-table.py:48-50 | one mark per capability, in order |
| RegionTable.CapabilityMarkOfList | linodecli/plugins/region-table.py:49 | for a list of capabilities, a mark is "✔" exactly when the long name is listed, and "-" otherwise |
| RegionTable.RegionRowSucceeds | linodecli/plugins/region-table.py:44-50 | a row can be built exactly when the region has id, label, a text country and searchable capabilities |
| RegionTable.RegionRowsOk | linodecli/plugins/region-table.py:43-51 | the rows are built exactly when every region's row is |
| RegionTable.RegionRowsValues | linodecli/plugins/region-table.py:43-51 | built rows come one per region, in the regions' order |
| RegionTable.RegionTableSpec | linodecli/plugins/region-table.py:19-51 | a non-200 status fails before any table exists; otherwise the headings come first, then one row per region, in order, each as long as the headings |

## Left out

- Rich rendering (`Table`, `Column`, box drawing, `Text.from_ansi`, `rprint`, `_borderless_table`) is left out. The model stops at the content handed to the printer: a table value, lines of text, or the JSON objects to dump.
- The text `json.dumps` produces is not modelled. JSON output is the list of objects plus the pretty flag; the object-type example in the template argument uses `dumps` as a parameter.
- The printing of plain output and `sys.exit` codes are not modelled. Errors are `Err` values carrying the message. ExitCodes is not part of this model.
- Output printed before an exception stops `print_response` is returned, but printing order across streams is not.
- Unknown output modes are not modelled. `OutputMode` has five cases, so the `RuntimeError` branch of `_print` cannot arise.
- `_denominate`, `ProgressPercentage`, `_progress` and `_convert_datetime` are left out, because they work with floats or dates. `_denominate` is a parameter of `ShowUsage`.
- The clock, `getpass`, `socket`, environment variables, configuration reads and writes, the token lookup and the HTTP status codes and bodies are left out as I/O. Each is a parameter.
- boto3 clients, presigned URLs, `_delete_all_objects`, `_get_boto_client`, `_configure_plugin`, `regenerate_s3_credentials` and `ClientError` handling are left out as network I/O.
- `ClusterFor` (`call`'s cluster default) is modelled without a contract. `try_get_default_cluster` prompts for input and is not modelled.
- The texts of the scope and access errors are not modelled. They come from the plugin's config module, which is not part of this model; they are constructors of `CredsError`.
- The HTTP request of `call_operation` and `do_request` is left out. Only the guard is modelled.
- `handle_command`, `bake`, `load_baked` and the pickle and file I/O of `cli.py` are left out.
- `_markdown_to_rst`, `_normalize_padding`, `_format_type`, `sorted_actions_smart`, `build_parser` and the usage text are not part of this model. They are function parameters.
- A sample's `sample["source"]` lookup is not modelled. Samples are given as their source texts.
- JsonValue.Json: has no floating-point case, so float values in responses and examples (`str(1.5)`, a falsy `0.0` example) are not modelled; no modelled rule depends on them.
- Strings.Lower, Strings.Upper and Strings.Title: ASCII only. Python's Unicode case mapping is not modelled.
- Strings.ParseInt: digit-group underscores and non-ASCII digits, which Python's `int()` accepts, are not modelled.
- ObjPlugin.GetS3Creds: uses the corrected trim `CredsLabel`, not the plugin's `label[50 - L:]` (`CredsLabelAsWritten`), so for a label over 50 characters it sends the last 50 characters where the plugin sends the last L-50; `GetS3CredsSpec`'s bound of 50 is about the corrected trim. The two agree on every label of at most 50 characters (`GetS3CredsLabelAsWritten`).
- Output.OutputHandler.PrintResponse: takes `get_attributes_for_table` as a function that hands over a fresh list on every call. When the response model returns its own stored list, `_get_columns` removes the selected attributes from that stored list in place, and a later call for the same table sees the shortened list; that aliasing is not modelled.
- JsonValue.Json: objects are assumed to have distinct keys, as Python dicts do; the datatype does not enforce it, and on a repeated key `Dicts.Get` reads the first pair while iteration visits both.
- Output.RemoveMatching: `list.remove(attr)` removes the first element equal to `attr`. The model removes the element at the visited index, which is the same while attributes are distinct objects.
- Output.SelectJsonElements: assigning into `ret` is modelled as an append, since each key of the input is visited once.
- TemplateData.ActionOf: the default `argument_sections_names` of `{}` is a dict, not a set. The model uses the empty set.
- BakedUtil.UpdateFrom: `dict()` of the schema's property source is modelled as the dict of its pairs.
- ObjPlugin.CallOutcomeOf: argparse parsing itself is not modelled. The parsed command, the leftover arguments and the credentials outcome are inputs.

## Findings

| source | as written | input that shows it | evidently intended | confidence | as-written member | corrected member |
|---|---|---|---|---|---|---|
| linodecli/plugins/obj/__init__.py:533-535 | the label is trimmed with `creds_label[50 - len(creds_label):]`, which keeps the last L-50 characters of an L-character label | user "abcdefghijklm", host "hostnamexxxxx", clock "123456789012.5": the label has 51 characters and is cut to 1 | keep the last 50 characters ("trim from the front") | not executed; latent: with user and host cut to 13 characters and the 13 fixed characters, a label only passes 50 characters once `time.time()` has 12 digits (around the year 5138), so today's 10-digit timestamps never reach the trim | ObjPlugin.CredsLabelAsWrittenCounterexample | ObjPlugin.CredsLabel |

Apart from the label trim above, where `ObjPlugin.GetS3Creds` uses the corrected trim, the model follows the code wherever the code and the intent described for it differ:

- A name-list directive yields columns grouped in request order rather than in attribute order, because the outer loop runs over the requested names.
- A single name can select more than one attribute: the removal inside the iteration skips the element after each removed one, so a name given to several attributes is only sometimes fully consumed (`Output.ScanSkipsNeighbour`).
- The title of the top-level table is the empty string, which is set because it is not `None`.
