# Matter cluster XML readers, modelled in Dafny

The repository turns Matter data-model cluster definitions (the XML files of the
connectedhomeip zap templates) into a JSON "capabilities" document. It has two
implementations of that extractor:

- `TestScripts/generate_capabilities_js.js`, a Node port;
- `scripts/generate_matter_cluster_json.py`, the Python original.

Each one does the same work:

- it finds the `cluster` element and reads the cluster's name and id through a fallback chain;
- it builds a `com.matter.cluster.<slug>` id;
- it reads every attribute, command and feature through its own rules:
  - name fallback chains, with unnamed entries skipped;
  - type renaming;
  - coercion of default, min and max values;
  - option tables and ranges taken from enum definitions;
  - permissions;
  - feature dependency from `mandatoryConform`;
- it assembles a `Capabilities` object whose empty parts are left out.

A third file, `scripts/xml-parser.js` (class `MatterXMLParser`), is the
browser-side reader. It copies a cluster element into plain records and keeps
every cluster it has read in a `Map` keyed by the cluster id.

The model starts from an already parsed tree. It has two kinds of element query:

- `Xml.Subtree`/`Xml.Select`/`Xml.QueryAll` list descendants in document order, as `getElementsByTagName` and `querySelector(All)` do.
- `Xml.FindAll`/`Xml.Find` look at direct children, as ElementTree's `find`/`findall` do.

The output is a JSON value datatype (`Json.Value`), with a `NotANumber` case for
the NaN that `parseInt` produces and that `JSON.stringify` writes as `null`.

The modules follow the program:

| module | models |
|---|---|
| `Wrappers`, `Text`, `Numbers`, `Xml`, `Json` | options and results; the string built-ins (`trim`/`strip`, `toLowerCase`/`lower`, `split`, `padStart`, `replace`); JavaScript `parseInt` and `toString(16)` next to Python `int()` and `format(…, 'X')`; the element tree and its queries; JSON values |
| `Keyed`, `Records`, `Filtering` | the `obj[key] = value` / `dict[key] = value` stores (a later key replaces an earlier one); the attribute, argument, command and feature records and their JSON shapes; skipping loops and loops that stop at the first exception |
| `CapabilitiesJs`, `GeneratorJs` | the Node generator: each step as a function, then each loop as a method proved to compute that function |
| `CapabilitiesPy`, `GeneratorPy`, `SourceUrl` | the Python generator, the same way; `convert_github_url_to_raw` |
| `XmlParser` | `MatterXMLParser`: the record readers, the `forEach` loops as methods, the `clusterData` map as a class field |
| `Divergences` | where the port and the original read the same XML differently |

Points where the code behaves in ways a reader of the XML might not expect, and which the model follows:

- **Attribute names in the port.** The port reads the name from `textContent`, the text of the whole subtree, before it tries the `description` child. Any text in that child makes `textContent` non-empty, so the `description` step can never supply a name: see `CapabilitiesJs.DescriptionNeverNames`. The Python original reads the element's own `.text` instead, so there the step can apply.
- **Options in the port.** The port emits `options: []` for every enum-typed attribute, also when no enum of that name is defined; the original leaves `options` out when it is empty (`Divergences.EmptyOptionsDiffer`).
- **Missing cluster in the original.** The port stops with an error when the document has no `cluster` element. The Python original still writes a document, under the fixed "Unknown" identity (`CapabilitiesPy.NoClusterStillWrites`).
- **Command feature dependency.** Both generators take the first `feature` anywhere below `mandatoryConform`, not only a direct child.
- **Empty `min` in the original.** The Python original emits `min: ""` when the attribute is present but empty, because it tests for `None` and not for the empty string.

## Model

| member | source | states |
|---|---|---|
| SourceUrl.ConvertGithubUrlToRaw | scripts/generate_matter_cluster_json.py:23-30 | a URL that lacks `github.com` or lacks `/blob/` comes back unchanged |
| SourceUrl.BlobUrlHost | scripts/generate_matter_cluster_json.py:28 | in a `https://github.com/<p>/blob/<q>` URL whose path does not repeat the host, the host replacement rewrites only the host |
| SourceUrl.BlobUrlPath | scripts/generate_matter_cluster_json.py:29 | with a single `/blob/` in the rewritten URL, the second replacement turns it into `/` and changes nothing else |
| SourceUrl.BlobUrlToRaw | scripts/generate_matter_cluster_json.py:23-30 | `https://github.com/<p>/blob/<q>` becomes `https://raw.githubusercontent.com/<p>/<q>` when neither part repeats the host or `/blob/` |
| Text.Trim | TestScripts/generate_capabilities_js.js:92 | a trimmed string neither starts nor ends with white space; JavaScript `trim` and Python `strip` are its two instances, each with its own set of white-space characters |
| Text.TrimEmptyIffAllSpace | TestScripts/generate_capabilities_js.js:92-93 | trimming gives the empty string exactly when every character is white space |
| Text.TrimStartIsSuffix | TestScripts/generate_capabilities_js.js:92 | trimming the start leaves a suffix of the input |
| Text.TrimEndIsPrefix | TestScripts/generate_capabilities_js.js:92 | trimming the end leaves a prefix of the input |
| Text.Lower | TestScripts/generate_capabilities_js.js:113 | `toLowerCase`/`lower`: same length, each character lower-cased |
| Text.Split | TestScripts/generate_capabilities_js.js:102 | `split('_')` gives at least one part, and no part contains the separator |
| Text.SplitJoin | TestScripts/generate_capabilities_js.js:102-104 | joining the parts with the separator gives the input back |
| Text.Capitalize | scripts/generate_matter_cluster_json.py:101 | `capitalize()`: same length, first character upper-cased, every other character lower-cased |
| Text.PadStart | TestScripts/generate_capabilities_js.js:37 | `padStart(width, c)`: the length is the larger of the input's and `width`, the input stands at the end and only `c` comes before it |
| Text.RemoveAll | TestScripts/generate_capabilities_js.js:578-581 | the global replacements in the slug leave none of the removed characters; `RemoveAllAppend` gives which characters stay |
| Text.RemoveAllKeeps | TestScripts/generate_capabilities_js.js:578-581 | removing characters adds none |
| Text.RemoveAllAppend | TestScripts/generate_capabilities_js.js:578-581 | removal works character by character: over `a + b` it is the removal over `a` then over `b`, and one character stays exactly when it is not removed |
| Text.RemoveAllNoneDropped | TestScripts/generate_capabilities_js.js:578-581 | a string with no removed character comes back unchanged |
| Text.ReplaceAllAbsent | scripts/generate_matter_cluster_json.py:28 | `str.replace` of a pattern that does not occur leaves the string unchanged |
| Text.ReplaceOnce | scripts/generate_matter_cluster_json.py:29 | `str.replace` of a pattern that occurs once replaces exactly that occurrence |
| Numbers.DigitPrefixLen | TestScripts/generate_capabilities_js.js:184 | `parseInt` reads the longest prefix of digits of its radix |
| Numbers.JsParseIntDecimal | TestScripts/generate_capabilities_js.js:184 | `parseInt` of a decimal digit string, radix 10 or none, is its value |
| Numbers.JsParseIntPrefix | TestScripts/generate_capabilities_js.js:184 | `parseInt(v, 10)` stops at the first character that is not a digit: decimal digits followed by anything else read as those digits |
| Numbers.JsReadHex | TestScripts/generate_capabilities_js.js:63 | `parseInt('0x' + d, 16)` is the value of the hex digits `d` |
| Numbers.HexDigits | TestScripts/generate_capabilities_js.js:37 | `toString(16)`: lower-case hex digits whose value is the number, with no leading zero |
| Numbers.PaddedHex | TestScripts/generate_capabilities_js.js:37 | `toString(16).padStart(w, '0').toUpperCase()`: exactly the larger of `w` and the number of hex digits, each `0`-`9` or `A`-`F`, whose value is the number |
| Numbers.PadZeros | TestScripts/generate_capabilities_js.js:37 | zero padding keeps the digits valid and the value unchanged |
| Numbers.JsHexRoundTrip | TestScripts/generate_capabilities_js.js:37 | reading `'0x'` plus the padded hex of `n` with radix 16 gives `n` back |
| Numbers.PyIntDecimal | scripts/generate_matter_cluster_json.py:146 | `int(s)` of a decimal digit string is its value |
| Numbers.PyIntRejectsTrailing | scripts/generate_matter_cluster_json.py:146 | `int()` rejects decimal digits followed by a character that is not a digit, `_` or white space |
| Numbers.PyReadHex | scripts/generate_matter_cluster_json.py:146 | `int('0x' + d, 16)` is the value of the hex digits `d` |
| Numbers.PyHexRoundTrip | scripts/generate_matter_cluster_json.py:246 | `int(f"0x{n:0wX}", 16)` gives `n` back |
| Numbers.DigitsAreValid | scripts/generate_matter_cluster_json.py:146 | a plain digit string passes `int()`'s digit and underscore rules unchanged |
| Xml.Attr | TestScripts/generate_capabilities_js.js:87 | `getAttribute`/`get` gives a value exactly when the element carries the attribute |
| Xml.PyText | scripts/generate_matter_cluster_json.py:86 | an element's `.text` counts as present only when it is non-empty; `PyTextSpec` says which text it is |
| Xml.PyTextSpec | scripts/generate_matter_cluster_json.py:86 | `.text` is the character data before the first child element, present exactly when that is non-empty, and a prefix of the element's whole text |
| Xml.Subtree | TestScripts/generate_capabilities_js.js:76 | the document-order walk lists the element itself first, then the walk below its children (`BelowAppend` gives their order), and every entry is an element below the given path |
| Xml.BelowAppend | TestScripts/generate_capabilities_js.js:76 | the walk below `a + b` is the walk below `a` followed by the walk below `b`, and below one node it is that node's own walk: document pre-order |
| Xml.Select | TestScripts/generate_capabilities_js.js:78 | an element is selected exactly when some walked entry matches one of the selectors; `SelectAppend` and `SelectFirst` give the order |
| Xml.SelectAppend | TestScripts/generate_capabilities_js.js:78 | selection keeps the walk's order: on `a + b` the matches in `a` come first, and one entry is kept exactly when it matches |
| Xml.SelectFirst | TestScripts/generate_capabilities_js.js:96 | the first element selected is that of the first matching entry, and nothing is selected exactly when nothing matches |
| Xml.FindAll | scripts/generate_matter_cluster_json.py:74 | `findall(tag)` gives exactly the element children with that tag, in child order as `FilterTagAppend` states |
| Xml.FilterTag | scripts/generate_matter_cluster_json.py:74 | an element is kept exactly when it is in the list and has the tag |
| Xml.FilterTagAppend | scripts/generate_matter_cluster_json.py:74 | on `a + b` the kept children of `a` come first: child order is kept |
| Xml.FilterTagOne | scripts/generate_matter_cluster_json.py:74 | one child is kept exactly when it is an element with the tag |
| Xml.FilterTagFirst | scripts/generate_matter_cluster_json.py:67 | the first child kept is the first child with that tag, so `find(tag)` gives it |
| Xml.FirstNamed | TestScripts/generate_capabilities_js.js:233-235 | the search finds an element of the list with the wanted `name`, and finds none exactly when no element has that name; `FirstNamedIsFirst` says it is the first |
| Xml.FirstNamedIsFirst | TestScripts/generate_capabilities_js.js:233-235 | the element found is the first of the list whose `name` is the wanted one |
| Xml.FindNamed | scripts/generate_matter_cluster_json.py:211 | `.//enum[@name='…']` gives a descendant with that tag and name: the first one in document order, as `FirstNamedIsFirst` states |
| Xml.ChildIsDescendant | scripts/generate_matter_cluster_json.py:338 | every child `findall` finds is also found by the descendant search `getElementsByTagName` |
| Xml.BelowHasChild | TestScripts/generate_capabilities_js.js:76 | every element child appears in the descendant walk, with its parent's path |
| Xml.QueryText | TestScripts/generate_capabilities_js.js:96-98 | the `textContent` of any descendant is contained in the `textContent` of the element |
| Keyed.KeyedMapStep | TestScripts/generate_capabilities_js.js:307 | one more loop pass stores one more entry into the map built so far |
| Keyed.KeyedMapAppend | scripts/generate_matter_cluster_json.py:287 | storing an appended entry is storing it into the map of the entries before it |
| Keyed.KeyedMapKeys | TestScripts/generate_capabilities_js.js:307 | the keys of the built map are exactly the keys of the entries that were stored |
| Keyed.KeyedMapKeysOf | TestScripts/generate_capabilities_js.js:307 | when an element yields an entry exactly when it is accepted, under a key of its own, the object's keys are exactly those of the accepted elements |
| Keyed.KeyedMapLast | TestScripts/generate_capabilities_js.js:482 | a later duplicate overwrites an earlier one: an entry no later entry shares a key with is what the map holds |
| Keyed.KeyedMapEmpty | TestScripts/generate_capabilities_js.js:637 | the map is empty exactly when every element was skipped |
| Filtering.Filter | TestScripts/generate_capabilities_js.js:361 | skipping keeps only accepted elements of the input; `FilterAppend`, `FilterOne` and `FilterKeepsAccepted` say that all of them are kept, in order |
| Filtering.FilterAppend | TestScripts/generate_capabilities_js.js:361 | filtering keeps the order: on `a + b` the accepted elements of `a` come first |
| Filtering.FilterOne | TestScripts/generate_capabilities_js.js:361 | one element stays exactly when it is accepted |
| Filtering.FilterKeepsAccepted | TestScripts/generate_capabilities_js.js:361 | every accepted element is kept |
| Filtering.MapAcceptedPositional | TestScripts/generate_capabilities_js.js:355-463 | the j-th output of a skipping loop that counts what it has accepted is built from the j-th accepted element with position j |
| Filtering.AllOkSpec | scripts/generate_matter_cluster_json.py:307-449 | a loop that stops at the first exception succeeds exactly when every step does, with every step's value in order; otherwise it fails with the first failure |
| Filtering.AllOkPersists | scripts/generate_matter_cluster_json.py:423 | once a step has failed, later elements do not change the outcome |
| Filtering.AllOkNext | scripts/generate_matter_cluster_json.py:423 | one more step either extends the values or ends the loop with its error |
| Filtering.MapAcceptedOrFailIsAllOk | scripts/generate_matter_cluster_json.py:338-435 | a skipping loop that can fail is the stop-at-first-failure loop over the accepted elements and their positions |
| Filtering.MapAcceptedOrFailSpec | scripts/generate_matter_cluster_json.py:338-435 | such a loop succeeds exactly when every accepted element does, with the j-th value built at position j; otherwise its error is that of the first accepted element that fails |
| Filtering.MapAcceptedOrFailStep | scripts/generate_matter_cluster_json.py:343-344 | a skipped element leaves the result alone; an accepted one is built at the count accepted so far |
| Filtering.MapAcceptedOrFailPersists | scripts/generate_matter_cluster_json.py:423 | an escaped error is final |
| Records.Permissions | TestScripts/generate_capabilities_js.js:300-305 | the permissions start with "read" and contain "write" exactly when writing is allowed |
| Records.Or | TestScripts/generate_capabilities_js.js:87 | `a or b` on attribute strings: `a` when it is a non-empty string, else `b` |
| Records.OrElse | TestScripts/generate_capabilities_js.js:534 | an attribute or its default: the attribute when it is a non-empty string, else the default |
| Records.StrArr | TestScripts/generate_capabilities_js.js:305 | a list of strings is written as an array of the same strings in the same order |
| Records.CamelFromDefine | TestScripts/generate_capabilities_js.js:102-104 | the `define` is cut at each `_` into words that join back to it, and the name is those words capitalised and concatenated, with no `_` left |
| Records.FixedKeys | TestScripts/generate_capabilities_js.js:276-281 | every attribute object has exactly `code`, `type`, `mandatory`, `description` and `permissions`, holding the record's code, type, mandatory flag, description and permissions |
| Records.FlagKeys | TestScripts/generate_capabilities_js.js:283-286 | `reportable`, `nullable`, `featureDependent` and `default` appear exactly when set, truthy or not null; the two flags hold `true`, `featureDependent` the feature name and `default` the value |
| Records.CommandJson | TestScripts/generate_capabilities_js.js:345-349 | a command object always has `id`, `mandatory` and `description`, holding the record's values; `arguments` appears exactly when an argument was accepted, holding them (:466-468); `featureDependent` exactly when set, holding the feature name |
| Records.FeatureJson | TestScripts/generate_capabilities_js.js:512-524 | a feature object has its `code`, `name` and `summary` as given, and a `bit` exactly when one was parsed, holding it |
| Records.CapabilitiesJson | TestScripts/generate_capabilities_js.js:636-645 | `Attributes`, `Commands` and `Features` each appear exactly when their map is non-empty, holding that map, and no other key appears |
| Records.DocumentJson | TestScripts/generate_capabilities_js.js:648-651 | the document has exactly the identity keys and `Capabilities`: `id`, `clusterId`, `name`, `description` and `xmlSource` hold the identity's values, `schemaVersion` is 1 and `Capabilities` the capabilities object |
| CapabilitiesJs.NormalizeType | TestScripts/generate_capabilities_js.js:17-31 | a missing or empty type is "unknown"; a name changes exactly when it is one of the nine renamed names, and then becomes its rename |
| CapabilitiesJs.NormalizeTypeIdempotent | TestScripts/generate_capabilities_js.js:17-31 | normalising a normalised type changes nothing |
| CapabilitiesJs.HexOfParsedCases | TestScripts/generate_capabilities_js.js:37 | `0x` and then: for NaN, `NAN` zero-padded to the width; for a non-negative number, its upper-case hex zero-padded to the width; for a negative one, `-` and the upper-case hex of its magnitude, zero-padded |
| CapabilitiesJs.TrimmedText | TestScripts/generate_capabilities_js.js:97-98 | a child element's text is read exactly when the element exists and its `textContent` is non-empty, and it is that `textContent` trimmed |
| CapabilitiesJs.FormatCode | TestScripts/generate_capabilities_js.js:33-41 | a missing code gives "0x0000"; a `0x` code comes back as written, not upper-cased |
| CapabilitiesJs.FormatCodeRoundTrip | TestScripts/generate_capabilities_js.js:37 | a decimal code becomes `0x` and at least four upper-case hex digits, which parse back to the code's value |
| CapabilitiesJs.FormatCodeNoDigits | TestScripts/generate_capabilities_js.js:36-40 | a code that does not start with a digit gives "0x0NAN": `parseInt` never throws, so the `catch` is never taken |
| CapabilitiesJs.FormatCommandId | TestScripts/generate_capabilities_js.js:43-51 | a missing id gives "0x00"; a `0x` id comes back as written |
| CapabilitiesJs.FormatCommandIdRoundTrip | TestScripts/generate_capabilities_js.js:47 | a decimal id becomes `0x` and at least two upper-case hex digits, which parse back to its value |
| CapabilitiesJs.NumOf | TestScripts/generate_capabilities_js.js:184 | a finite parsed number is written as that number, and NaN as NaN |
| CapabilitiesJs.ParseNumberDecimal | TestScripts/generate_capabilities_js.js:184 | a decimal min, max or item value is parsed to its value |
| CapabilitiesJs.ParseNumberHex | TestScripts/generate_capabilities_js.js:243 | a `0x` value is parsed as hex |
| CapabilitiesJs.ParseValue | TestScripts/generate_capabilities_js.js:53-70 | a falsy value gives null; for a bool type, true exactly for "true" in any case, "1" or "yes"; for an integer type, the number `parseInt` reads (hex after `0x`); for any other type, the text itself |
| CapabilitiesJs.ParseValueBool | TestScripts/generate_capabilities_js.js:57-59 | for a bool type the value is true exactly when it is "true" in any case, or exactly "1" or "yes" |
| CapabilitiesJs.ParseValueInt | TestScripts/generate_capabilities_js.js:61-67 | for an integer type a decimal value becomes its number |
| CapabilitiesJs.NameJs | TestScripts/generate_capabilities_js.js:89-106 | the `name` attribute when truthy; else the trimmed `textContent` when non-empty; else (the description step being unreachable, see `DescriptionNeverNames`) the `define` name, or "" without one |
| CapabilitiesJs.DescriptionNeverNames | TestScripts/generate_capabilities_js.js:89-110 | the `description` step is reached only when the whole text is white space, so the name it gives is empty and the attribute is skipped, `define` or not |
| CapabilitiesJs.SpecialOrParse | TestScripts/generate_capabilities_js.js:124-130 | "null" and "MS" are kept as text; any other default goes through `parseValue` |
| CapabilitiesJs.DefaultJs | TestScripts/generate_capabilities_js.js:118-163 | the `default` attribute when truthy, "null" and "MS" kept as text and anything else parsed for the type; else, for the first `default` element, the text before its first `attribute` child when it has one, else its trimmed text kept or parsed the same way, else ""; null exactly when there is neither, or the element is all white space with no `attribute` inside |
| CapabilitiesJs.BoundText | TestScripts/generate_capabilities_js.js:166-180 | a min or max is the attribute when truthy, else the first such element's trimmed text when non-empty, else the attribute as read |
| CapabilitiesJs.ParseBound | TestScripts/generate_capabilities_js.js:182-195 | a truthy min or max is parsed, hex after `0x`; a missing one stays null and an empty one stays "" |
| CapabilitiesJs.Entries | TestScripts/generate_capabilities_js.js:244 | the options are `{name: value}` objects, one per table row, in order |
| CapabilitiesJs.ItemTable | TestScripts/generate_capabilities_js.js:236-250 | the option table has one value per name; `ItemTableRows` gives its rows |
| CapabilitiesJs.ItemTableRows | TestScripts/generate_capabilities_js.js:236-250 | the j-th row is the name and the parsed value of the j-th item that has both, in document order, and every such item gives a row |
| CapabilitiesJs.JsMin | TestScripts/generate_capabilities_js.js:257 | `Math.min` is NaN exactly when a value is NaN, and otherwise the least of the values |
| CapabilitiesJs.JsMax | TestScripts/generate_capabilities_js.js:258 | `Math.max` is NaN exactly when a value is NaN, and otherwise the greatest of the values |
| CapabilitiesJs.EnumBound | TestScripts/generate_capabilities_js.js:256-259 | a truthy bound, or a missing or empty table, keeps the bound; otherwise the bound is the table's extreme |
| CapabilitiesJs.EnumTable | TestScripts/generate_capabilities_js.js:225-253 | an option table is started exactly for enum types: the rows of the first `enum` of that name in document order, or no rows when there is none |
| CapabilitiesJs.UnitsJs | TestScripts/generate_capabilities_js.js:197-213 | the `unit` attribute when truthy, else the first `unit` element's trimmed text, else "0.1s" for a `Time` name of a 16-bit type, "%" for a `Level` name of an 8-bit type, else "" |
| CapabilitiesJs.FeatureDep | TestScripts/generate_capabilities_js.js:262-271 | the `name` of the first `feature` below the first `mandatoryConform`, and none without either |
| CapabilitiesJs.DescriptionJs | TestScripts/generate_capabilities_js.js:215-223 | the `description` attribute when non-empty, else the first `description` element's trimmed text when non-empty, else the name plus the suffix |
| CapabilitiesJs.AttributeRecordJs | TestScripts/generate_capabilities_js.js:112-116 | the type is normalised; the code is `code` or `id` formatted; `mandatory` unless `optional` is "true" in any case; `reportable` exactly for `side="server"`; `nullable` from either flag; the default, units, description and feature dependency come from their chains; options exactly for enum types; "write" permission from `writable` or `side="server"` (:300-305) |
| CapabilitiesJs.AttributeRecordWith | TestScripts/generate_capabilities_js.js:276-297 | the record holds the given type and default, the formatted code, the description, units and feature dependency chains, the bounds as read and then replaced by the table's extremes when falsy, and options exactly when a table was started |
| CapabilitiesJs.RangeKeys | TestScripts/generate_capabilities_js.js:287-297 | `min`/`max` appear exactly for non-bool types with a value other than null or "", and hold it; `units` when non-empty; `options` exactly when a table was started, holding it |
| CapabilitiesJs.AttributeJson | TestScripts/generate_capabilities_js.js:276-305 | the attribute object has its fixed keys; bool types never carry `min`/`max`; `options` is present exactly for a started table |
| CapabilitiesJs.AttributeEntryJs | TestScripts/generate_capabilities_js.js:110 | an attribute is stored exactly when its name resolves, and under that name (:307) |
| CapabilitiesJs.EnumAlwaysHasOptions | TestScripts/generate_capabilities_js.js:228-229 | every enum-typed attribute carries `options`, the empty list when no enum of that name exists (:297) |
| CapabilitiesJs.EnumMinIsLeast | TestScripts/generate_capabilities_js.js:256-258 | with a non-empty table and a falsy min, `min` becomes a table value no greater than any other |
| CapabilitiesJs.AttributesKeys | TestScripts/generate_capabilities_js.js:83-110 | the attribute map's keys are exactly the resolved names of the attribute elements read |
| CapabilitiesJs.TargetDef | TestScripts/generate_capabilities_js.js:393-407 | an argument's type is looked up among `enum` elements first, and among `bitmap` elements only when no enum has that name |
| CapabilitiesJs.Append | TestScripts/generate_capabilities_js.js:411-442 | joining two tables keeps both, the second's rows after the first's: a bitmap's `field` rows follow its `item` rows |
| CapabilitiesJs.ArgTable | TestScripts/generate_capabilities_js.js:385-388 | an argument option table is started exactly for enum and bitmap types; it holds the `item` rows of the definition found, then its `field` rows, and no rows without a definition |
| CapabilitiesJs.ArgId | TestScripts/generate_capabilities_js.js:454 | an argument with an `id` gets that `id` as `parseInt` reads it; one without gets its position among the accepted arguments |
| CapabilitiesJs.ArgumentRecordJs | TestScripts/generate_capabilities_js.js:356-461 | the argument's id, normalised type, and options exactly for enum and bitmap types |
| CapabilitiesJs.ArgumentRecordWith | TestScripts/generate_capabilities_js.js:452-461 | the record holds the id, name and type, the bounds as read and then replaced by the table's extremes when falsy, and the table's entries as options exactly when a table was started |
| CapabilitiesJs.ArgumentJson | TestScripts/generate_capabilities_js.js:452-461 | `id`, `name` and `type` always; `min`/`max` exactly when not null; `options` exactly when started; each holds the record's value, and no other key appears |
| CapabilitiesJs.ArgsPositional | TestScripts/generate_capabilities_js.js:355-464 | there is one argument per named `arg`, and the j-th is built from the j-th named `arg` at position j: a nameless one uses up no position |
| CapabilitiesJs.CommandRecordJs | TestScripts/generate_capabilities_js.js:328-353 | the command's id is `code` or `id` formatted; `mandatory` unless optional; the description chain with the suffix " command"; the feature dependency; and its arguments come from every `arg` below it |
| CapabilitiesJs.CommandEntryJs | TestScripts/generate_capabilities_js.js:329-331 | a command is stored exactly when it has a `name`, under that name (:482) |
| CapabilitiesJs.CommandsKeysJs | TestScripts/generate_capabilities_js.js:324-482 | the command map's keys are exactly the truthy names of the command elements read |
| CapabilitiesJs.FeatureRecordJs | TestScripts/generate_capabilities_js.js:518-524 | code and name as given; `summary` the attribute, else the first `summary` element's trimmed text, else ""; `bit` exactly when the attribute is non-empty, holding `parseInt` of it |
| CapabilitiesJs.FeatureEntryJs | TestScripts/generate_capabilities_js.js:498-503 | a feature is stored exactly when it has `code` and `name`, under its code (:526) |
| CapabilitiesJs.FeaturesKeysJs | TestScripts/generate_capabilities_js.js:494-526 | the feature map's keys are exactly the codes of the feature elements that have a truthy code and name |
| CapabilitiesJs.SlugJs | TestScripts/generate_capabilities_js.js:577-581 | the id is `com.matter.cluster.` followed by the name lower-cased with white space, `/` and `-` removed, so no upper-case letter remains |
| CapabilitiesJs.AttrIdentityJs | TestScripts/generate_capabilities_js.js:534-535 | the name is the `name` attribute or "Unknown"; the id is `id`, else `code`, else "0x0000", each when truthy |
| CapabilitiesJs.IdsFallbackJs | TestScripts/generate_capabilities_js.js:537-551 | when the id is `0x0000` or the name is missing, the first `clusterIds`/`clusterId` supplies a missing name and a missing id; a present name or id is kept |
| CapabilitiesJs.ChildFallbackJs | TestScripts/generate_capabilities_js.js:554-567 | the first `name` and `code` elements' trimmed text replaces only "Unknown" and "0x0000" |
| CapabilitiesJs.ClusterInfoJs | TestScripts/generate_capabilities_js.js:532-598 | the id is the slug of the resolved name; a non-"Unknown" `name` attribute is kept; a `0x` id other than `0x0000` is kept as written; otherwise the resolved id is formatted as hex; the description is the first `description` element's trimmed text, else `Matter <name> Cluster`; `xmlSource` is the file given |
| CapabilitiesJs.ClusterIdMissingJs | TestScripts/generate_capabilities_js.js:535-566 | a cluster with no id anywhere gets "0x0000" |
| CapabilitiesJs.ClusterIdFromDecimal | TestScripts/generate_capabilities_js.js:568-575 | a named cluster with a decimal `id` keeps its name, and its id becomes `0x` plus four or more hex digits that read back as the id |
| CapabilitiesJs.FindClusterJs | TestScripts/generate_capabilities_js.js:614-625 | the cluster found is the first `cluster` element in document order; none is found exactly when the document has none |
| CapabilitiesJs.DocumentJs | TestScripts/generate_capabilities_js.js:614-651 | the run fails exactly when no cluster is found, with the script's message (:621) |
| GeneratorJs.CollectDirectText | TestScripts/generate_capabilities_js.js:140-148 | the sibling walk collects exactly the text nodes before the first `attribute` element |
| GeneratorJs.ResolveDefault | TestScripts/generate_capabilities_js.js:118-163 | the default value chain computes `DefaultJs` |
| GeneratorJs.FindByName | TestScripts/generate_capabilities_js.js:233-253 | the search loop with `break` finds the first element with the wanted name |
| GeneratorJs.CollectOptions | TestScripts/generate_capabilities_js.js:236-250 | the item loop builds exactly the option table `ItemTable` |
| GeneratorJs.ResolveEnumTable | TestScripts/generate_capabilities_js.js:225-253 | the enum lookup computes `EnumTable` |
| GeneratorJs.ResolveAttribute | TestScripts/generate_capabilities_js.js:84-307 | one pass of the attribute loop gives the entry `AttributeEntryJs` |
| GeneratorJs.ParseAttributes | TestScripts/generate_capabilities_js.js:72-311 | `parseAttributes` builds exactly `AttributesJs`, whose keys `AttributesKeys` gives |
| GeneratorJs.ResolveArgTable | TestScripts/generate_capabilities_js.js:382-450 | the enum-then-bitmap lookup computes `ArgTable` |
| GeneratorJs.ParseArguments | TestScripts/generate_capabilities_js.js:352-464 | the argument loop builds exactly `ArgsJs`, positional as `ArgsPositional` states |
| GeneratorJs.ResolveCommand | TestScripts/generate_capabilities_js.js:325-482 | one pass of the command loop gives the entry `CommandEntryJs` |
| GeneratorJs.ParseCommands | TestScripts/generate_capabilities_js.js:313-486 | `parseCommands` builds exactly `CommandsJs` |
| GeneratorJs.ParseFeatures | TestScripts/generate_capabilities_js.js:488-530 | `parseFeatures` builds exactly `FeaturesJs`: the empty map without a `features` element |
| GeneratorJs.Generate | TestScripts/generate_capabilities_js.js:614-651 | the generator on a parsed document gives exactly `DocumentJs` |
| CapabilitiesPy.NormalizeTypePy | scripts/generate_matter_cluster_json.py:127-138 | a missing or empty type is "unknown"; a name changes exactly when it is one of the five renamed names, and then becomes its rename |
| CapabilitiesPy.NormalizeTypePyIdempotent | scripts/generate_matter_cluster_json.py:127-138 | normalising a normalised type changes nothing |
| CapabilitiesPy.PyNumberDecimal | scripts/generate_matter_cluster_json.py:169 | a decimal min or max is converted to its value |
| CapabilitiesPy.PyNumberHex | scripts/generate_matter_cluster_json.py:169 | a `0x` value is converted as hex |
| CapabilitiesPy.PyNumberEmpty | scripts/generate_matter_cluster_json.py:166-176 | the empty string is not a number |
| CapabilitiesPy.HexIdPy | scripts/generate_matter_cluster_json.py:560-565 | a non-empty id starts with `0x` after formatting; an empty id or a `0x` id comes back as written |
| CapabilitiesPy.FormatCodePy | scripts/generate_matter_cluster_json.py:241-248 | a missing code gives `0x` and zeros of the width; a `0x` code comes back as written |
| CapabilitiesPy.HexIdPyRoundTrip | scripts/generate_matter_cluster_json.py:246 | a decimal code becomes `0x` and upper-case hex digits that `int(…, 16)` reads back |
| CapabilitiesPy.HexIdPyNotNumber | scripts/generate_matter_cluster_json.py:247-248 | a code `int()` rejects gives `'0x'` plus the code |
| CapabilitiesPy.IntOrKeep | scripts/generate_matter_cluster_json.py:166-176 | a min or max is its number when `int()` accepts it, else the text itself |
| CapabilitiesPy.NamePy | scripts/generate_matter_cluster_json.py:83-101 | the `name` attribute wins; then the element's own stripped `.text`; then the stripped text of the `description` child, marked as taken from the description; then the `define` name |
| CapabilitiesPy.DescriptionTextPy | scripts/generate_matter_cluster_json.py:91-92 | the `description` child's `.text`, present exactly when the child exists and has text |
| CapabilitiesPy.DefineName | scripts/generate_matter_cluster_json.py:96-101 | the `define` attribute turned into words at `_`, each capitalised and joined (`Records.CamelFromDefine`), or "" without one; never marked as taken from the description |
| CapabilitiesPy.AttrOrChildText | scripts/generate_matter_cluster_json.py:153-164 | the attribute when non-empty, else the child element's text when it has some |
| CapabilitiesPy.DefaultTextPy | scripts/generate_matter_cluster_json.py:121-125 | the `default` attribute when non-empty; else the `default` child's `.text`; else the attribute as read |
| CapabilitiesPy.ConvertDefaultPy | scripts/generate_matter_cluster_json.py:140-150 | a bool type gives a boolean, true exactly when the lower-cased text is "true", "1" or "yes"; an integer type gives the number exactly when `int()` accepts the text, else the text; any other type gives the text |
| CapabilitiesPy.DefaultPy | scripts/generate_matter_cluster_json.py:119-150 | no default exactly when neither the attribute nor the element's `.text` supplies one; otherwise the text converted for the type |
| CapabilitiesPy.DefaultBoolPy | scripts/generate_matter_cluster_json.py:142-143 | a bool default is true exactly when its lower-case form is "true", "1" or "yes" |
| CapabilitiesPy.DefaultDecimalPy | scripts/generate_matter_cluster_json.py:144-146 | a decimal default of an integer type becomes its value |
| CapabilitiesPy.DefaultHexPy | scripts/generate_matter_cluster_json.py:146 | a `0x` default of an integer type is read as hex |
| CapabilitiesPy.PyEntries | scripts/generate_matter_cluster_json.py:220-221 | the options are `{name: value}` dicts, one per table row, in order |
| CapabilitiesPy.ItemTablePy | scripts/generate_matter_cluster_json.py:214-224 | the table has one value per name; `ItemTablePyRows` gives its rows |
| CapabilitiesPy.ItemTablePyRows | scripts/generate_matter_cluster_json.py:214-224 | the j-th row is the name and the `int()` value of the j-th item that has a name and a value `int()` accepts, in child order |
| CapabilitiesPy.ItemTablePyStep | scripts/generate_matter_cluster_json.py:217-222 | one more item appends one row, its name and `int()` value, exactly when it has a name and a value `int()` accepts; any other item leaves the table alone |
| CapabilitiesPy.ItemTablePyValues | scripts/generate_matter_cluster_json.py:214-224 | every row is read from some item: its name, and a value `int()` accepted; `ItemTablePyRows` gives completeness and order |
| CapabilitiesPy.PyMin | scripts/generate_matter_cluster_json.py:229 | `min` is one of the values and no greater than any |
| CapabilitiesPy.PyMax | scripts/generate_matter_cluster_json.py:231 | `max` is one of the values and no less than any |
| CapabilitiesPy.EnumBoundPy | scripts/generate_matter_cluster_json.py:226-231 | a truthy bound, or no values, keeps the bound; otherwise the bound is the extreme of the values |
| CapabilitiesPy.EnumTablePy | scripts/generate_matter_cluster_json.py:204-224 | a table is started exactly when the raw type names an enum: the rows of the first `enum` of that name in document order, or no rows when there is none |
| CapabilitiesPy.UnitsPy | scripts/generate_matter_cluster_json.py:180-190 | the `unit` attribute or child text, else "0.1s" for a `Time` name of a 16-bit type, "%" for a `Level` name of an 8-bit type, else "" |
| CapabilitiesPy.FeatureDepPy | scripts/generate_matter_cluster_json.py:235-239 | the `name` of the first `feature` below the `mandatoryConform` child, and none without either |
| CapabilitiesPy.DescriptionPy | scripts/generate_matter_cluster_json.py:193-202 | the description is never empty: when the name was not taken from the `description` child and that child has text, its stripped text (the name plus " attribute" when that strips to nothing); otherwise the `description` attribute, else the name plus " attribute" |
| CapabilitiesPy.AttributeRecordPy | scripts/generate_matter_cluster_json.py:102-117 | the type is normalised; the code is `code` or `id` formatted at width 4; the flags read as in the port; the default, units, description and feature dependency come from their chains; options exactly for enum raw types; "write" from `writable` or `side="server"` (:280-285) |
| CapabilitiesPy.AttributeRecordPyWith | scripts/generate_matter_cluster_json.py:250-278 | the record holds the given type and default, the formatted code, the description, units and feature dependency chains, the bounds as read and then replaced by the table's extremes when falsy, and the table's entries as options when one was started |
| CapabilitiesPy.RangeKeysPy | scripts/generate_matter_cluster_json.py:268-278 | `min`/`max` appear exactly for non-bool types with a value that is not None; `options` exactly when non-empty |
| CapabilitiesPy.AttributeJsonPy | scripts/generate_matter_cluster_json.py:250-285 | the fixed keys are present; bool types never carry `min`/`max`; `options` is present exactly when non-empty |
| CapabilitiesPy.AttributeEntryPy | scripts/generate_matter_cluster_json.py:104-105 | an attribute is stored exactly when its name resolves, under that name (:287) |
| CapabilitiesPy.AttributesKeysPy | scripts/generate_matter_cluster_json.py:74-105 | the attribute dict's keys are exactly the resolved names of the attribute elements read |
| CapabilitiesPy.EmptyEnumOmitsOptions | scripts/generate_matter_cluster_json.py:277-278 | an enum with no usable item gets no `options`, and its min stays as read |
| CapabilitiesPy.EnumMinIsLeastPy | scripts/generate_matter_cluster_json.py:226-229 | with items and a falsy min, `min` becomes an item value no greater than any other |
| CapabilitiesPy.TargetDefPy | scripts/generate_matter_cluster_json.py:382-385 | an argument's type is looked up among `enum` elements first, and among `bitmap` elements only when no enum has that name |
| CapabilitiesPy.ArgTablePy | scripts/generate_matter_cluster_json.py:378-412 | an argument option table is started exactly when the raw type names an enum or bitmap; it holds the `item` rows of the definition `TargetDefPy` finds, then its `field` rows, and no rows without one |
| CapabilitiesPy.ArgIdPy | scripts/generate_matter_cluster_json.py:423 | `int(arg_id)` raises exactly on a non-empty id `int()` rejects, with the ValueError message; no id gives the position |
| CapabilitiesPy.ArgumentRecordPy | scripts/generate_matter_cluster_json.py:339-433 | the argument's id as given, its name, its normalised type, the bounds replaced by the table's extremes when falsy, and the table's entries as options exactly for enum and bitmap raw types |
| CapabilitiesPy.ArgumentJsonPy | scripts/generate_matter_cluster_json.py:422-433 | `id`, `name` and `type` always; `min`/`max` exactly when not None; `options` exactly when non-empty; each holds the record's value, and no other key appears |
| CapabilitiesPy.ArgPy | scripts/generate_matter_cluster_json.py:339-435 | one argument raises exactly on a bad id; without an id it gets its position |
| CapabilitiesPy.ArgsPySpec | scripts/generate_matter_cluster_json.py:337-435 | the loop raises exactly when a named `arg` has a bad id, with the error of the first such `arg`; otherwise the j-th argument is the j-th named `arg` at position j |
| CapabilitiesPy.CommandDescriptionPy | scripts/generate_matter_cluster_json.py:318-333 | the `description` child's `.text` when it has one; a child without text gives the name plus " command"; without a child, the `description` attribute, else the name plus " command" |
| CapabilitiesPy.CommandRecordPy | scripts/generate_matter_cluster_json.py:309-334 | the command's id is `code` or `id` at width 2; `mandatory` unless optional; the description of `CommandDescriptionPy`; the feature dependency; and the given arguments |
| CapabilitiesPy.CommandEntryPy | scripts/generate_matter_cluster_json.py:310-313 | a nameless command is skipped; a named one raises exactly when its arguments do, and is otherwise stored under its name (:449) |
| CapabilitiesPy.CommandsPyFailure | scripts/generate_matter_cluster_json.py:306-449 | command parsing raises exactly when some named command has an argument that raises |
| CapabilitiesPy.CommandsKeysPy | scripts/generate_matter_cluster_json.py:306-313 | when command parsing does not raise, the dict's keys are exactly the names of the named command elements |
| CapabilitiesPy.FeatureRecordPy | scripts/generate_matter_cluster_json.py:474-503 | code and name as given; `summary` the attribute, else the `summary` child's stripped text, else ""; `bit` exactly when `int()` accepts it, holding that number |
| CapabilitiesPy.FeatureEntryPy | scripts/generate_matter_cluster_json.py:479-480 | a feature is stored exactly when it has `code` and `name`, under its code (:505) |
| CapabilitiesPy.FeaturesKeysPy | scripts/generate_matter_cluster_json.py:468-505 | the feature dict's keys are exactly the codes of the feature elements that have a code and a name |
| CapabilitiesPy.FindClusterPy | scripts/generate_matter_cluster_json.py:65-71 | the root when it is a `cluster`; else its first `cluster` child; else the first `cluster` descendant in document order; none only when there is no `cluster` at all |
| CapabilitiesPy.FirstChildTextSpec | scripts/generate_matter_cluster_json.py:548-552 | the child loop with `break` gives the stripped text of the first matching child with text, and nothing exactly when there is none |
| CapabilitiesPy.SlugPy | scripts/generate_matter_cluster_json.py:568 | the id is `com.matter.cluster.` followed by the name lower-cased with spaces, `/` and `-` removed |
| CapabilitiesPy.ClusterInfoPy | scripts/generate_matter_cluster_json.py:515-530 | without a cluster the fixed "Unknown" record; with one, a slug id |
| CapabilitiesPy.AttrIdentityPy | scripts/generate_matter_cluster_json.py:533-534 | the name is the `name` attribute, "Unknown" when absent; the id is `id` when non-empty, else `code` when present, else "0x0000" |
| CapabilitiesPy.IdsFallbackPy | scripts/generate_matter_cluster_json.py:536-545 | when the id is `0x0000` or the name is missing, the first `clusterIds/clusterId` supplies a missing name and a missing id from its attributes; a present name or id is kept |
| CapabilitiesPy.ChildFallbackPy | scripts/generate_matter_cluster_json.py:547-558 | the `name` and `code` children replace only "Unknown" and "0x0000", with the first child text |
| CapabilitiesPy.ClusterIdentityPy | scripts/generate_matter_cluster_json.py:532-584 | the id is the slug of the resolved name; a non-"Unknown" `name` attribute is kept; a `0x` id other than `0x0000` is kept; the description is the first `description` child's stripped text, else `Matter <name> Cluster` |
| CapabilitiesPy.ClusterIdMissingPy | scripts/generate_matter_cluster_json.py:533-558 | a cluster with no id anywhere gets "0x0000" |
| CapabilitiesPy.ClusterIdFromDecimalPy | scripts/generate_matter_cluster_json.py:560-565 | a named cluster with a decimal `id` keeps its name, and its id becomes `0x` plus four or more hex digits that read back as the id |
| CapabilitiesPy.DocumentPy | scripts/generate_matter_cluster_json.py:599-619 | the run fails exactly when command parsing raises |
| CapabilitiesPy.NoClusterStillWrites | scripts/generate_matter_cluster_json.py:522-530 | without a cluster element the document is still built, under the unknown identity |
| GeneratorPy.CollectOptionsPy | scripts/generate_matter_cluster_json.py:214-224 | the item loop builds exactly `ItemTablePy` |
| GeneratorPy.ResolveEnumTablePy | scripts/generate_matter_cluster_json.py:204-224 | the enum lookup computes `EnumTablePy` |
| GeneratorPy.ResolveArgTablePy | scripts/generate_matter_cluster_json.py:375-412 | the enum-or-bitmap lookup computes `ArgTablePy` |
| GeneratorPy.ResolveNamePy | scripts/generate_matter_cluster_json.py:83-101 | the name chain computes `NamePy` |
| GeneratorPy.ResolveAttributePy | scripts/generate_matter_cluster_json.py:76-287 | one pass of the attribute loop gives the entry `AttributeEntryPy` |
| GeneratorPy.ParseAttributesPy | scripts/generate_matter_cluster_json.py:60-289 | `parse_xml_attributes` builds exactly `AttributesPy` |
| GeneratorPy.StoreAttributesPy | scripts/generate_matter_cluster_json.py:75-287 | the attribute loop stores the entries in order, a later one replacing an earlier one |
| GeneratorPy.ResolveArgPy | scripts/generate_matter_cluster_json.py:339-435 | one argument pass computes `ArgPy` |
| GeneratorPy.ParseArgumentsPy | scripts/generate_matter_cluster_json.py:337-435 | the argument loop computes `ArgsPy`, raising as `ArgsPySpec` states |
| GeneratorPy.ResolveCommandPy | scripts/generate_matter_cluster_json.py:308-449 | one pass of the command loop computes `CommandEntryPy` |
| GeneratorPy.ParseCommandsPy | scripts/generate_matter_cluster_json.py:292-451 | `parse_xml_commands` computes exactly `CommandsPy` |
| GeneratorPy.StoreCommandsPy | scripts/generate_matter_cluster_json.py:307-449 | the command loop ends with the first error raised, or stores every entry in order |
| GeneratorPy.ParseFeaturesPy | scripts/generate_matter_cluster_json.py:454-507 | `parse_xml_features` builds exactly `FeaturesPy` |
| GeneratorPy.FindChildText | scripts/generate_matter_cluster_json.py:548-552 | the child loop with `break` computes `FirstChildText` |
| GeneratorPy.ResolveIdsFallback | scripts/generate_matter_cluster_json.py:536-545 | the `clusterIds` step computes `IdsFallbackPy` |
| GeneratorPy.ExtractClusterInfo | scripts/generate_matter_cluster_json.py:510-584 | `extract_cluster_info` computes exactly `ClusterInfoPy` |
| GeneratorPy.GeneratePy | scripts/generate_matter_cluster_json.py:587-619 | the generator on a parsed document gives exactly `DocumentPy` |
| XmlParser.AccessOf | scripts/xml-parser.js:124-136 | null without an `access` element; otherwise `read`/`write`/`invoke` are each true exactly when the attribute is exactly "true", and the privileges are copied |
| XmlParser.QualityOf | scripts/xml-parser.js:138-149 | null without a `quality` element; otherwise the four flags are each true exactly when exactly "true", and `persistence` is copied |
| XmlParser.BoundOf | scripts/xml-parser.js:159-162 | a `from`/`to` bound is the side element's `value` when that is non-empty, and otherwise the `name` of the first `attribute` inside the side element, or none |
| XmlParser.ConstraintOf | scripts/xml-parser.js:151-183 | a constraint exactly when a `constraint` element holds a `between`, `min` or `max`: `between` gives its two bounds, else `min` its `value`, else `max` its `value` |
| XmlParser.ClassificationOf | scripts/xml-parser.js:30-40 | a classification exactly when the cluster has a `classification` element, holding its `hierarchy`, `role`, `picsCode` and `scope` attributes |
| XmlParser.FeatureOf | scripts/xml-parser.js:47-52 | a feature record copies `bit`, `code`, `name` and `summary` |
| XmlParser.ItemOf | scripts/xml-parser.js:71-75 | an item record copies `value`, `name` and `summary` |
| XmlParser.FieldOf | scripts/xml-parser.js:191-196 | a field record copies `id`, `name` and `type`, with the field's constraint |
| XmlParser.AttributeOf | scripts/xml-parser.js:89-96 | an attribute record copies `id`, `name` and `type`, with its access, quality and constraint |
| XmlParser.DataTypeOf | scripts/xml-parser.js:62-78 | a data type record has the `name`, the tag as its kind, and its items in document order |
| XmlParser.CommandOf | scripts/xml-parser.js:109-116 | a command record copies `id`, `name`, `direction` and `response`, with its access and its fields in document order |
| XmlParser.FeaturesOf | scripts/xml-parser.js:42-56 | one feature record per `feature` element below the cluster, in document order |
| XmlParser.ItemsOf | scripts/xml-parser.js:69-76 | one item record per `item` or `bitfield` element, in document order |
| XmlParser.DataTypesOf | scripts/xml-parser.js:58-82 | one record per `enum`/`bitmap` child of a `dataTypes` element, in document order |
| XmlParser.AttributesOf | scripts/xml-parser.js:84-102 | one record per `attribute` element, in document order |
| XmlParser.FieldsOf | scripts/xml-parser.js:185-199 | one record per `field` element of the command, in document order |
| XmlParser.CommandsOf | scripts/xml-parser.js:104-122 | one record per `command` element, in document order |
| XmlParser.ClusterOf | scripts/xml-parser.js:15-24 | the cluster record copies `id`, `name` and `revision`, with its classification and its feature, data type, attribute and command lists |
| XmlParser.FlagSetIsTrue | scripts/xml-parser.js:129 | an exact "true" also counts as true for the generators' case-insensitive test |
| XmlParser.UpperCaseTrueIsNoFlag | scripts/xml-parser.js:129 | `read="TRUE"` counts as true for the generators but not here |
| XmlParser.EveryAttributeElementListed | scripts/xml-parser.js:84-102 | every `attribute` element below the cluster gets a record, also one inside a constraint bound |
| XmlParser.EveryFeatureElementListed | scripts/xml-parser.js:42-56 | every `feature` element below the cluster gets a record, also a reference inside a conformance |
| XmlParser.DataTypeKinds | scripts/xml-parser.js:58-67 | every data type's `type` is "enum" or "bitmap" |
| XmlParser.PushEach | scripts/xml-parser.js:46-53 | a `forEach` that pushes one record per element gives the records of the elements, one each, in order |
| XmlParser.ParseFeatures | scripts/xml-parser.js:42-56 | one record per `feature` element, in document order, none skipped |
| XmlParser.ParseItems | scripts/xml-parser.js:69-76 | one item per `item` or `bitfield` element |
| XmlParser.ParseDataTypes | scripts/xml-parser.js:58-82 | one record per `enum`/`bitmap` child of a `dataTypes` element, with its items |
| XmlParser.ParseAttributes | scripts/xml-parser.js:84-102 | one record per `attribute` element, in document order |
| XmlParser.ParseFields | scripts/xml-parser.js:185-199 | one record per `field` element of the command |
| XmlParser.ParseCommands | scripts/xml-parser.js:104-122 | one record per `command` element, each with its fields |
| XmlParser.NextOrder | scripts/xml-parser.js:26 | `Map.set` puts a new key last and leaves an existing key where it is |
| XmlParser.ValuesInOrder | scripts/xml-parser.js:206 | one value per key |
| XmlParser.IndexOf | scripts/xml-parser.js:206 | the position of a stored key |
| XmlParser.RegistrySet | scripts/xml-parser.js:26 | storing under any key keeps the keys distinct and in step with the map |
| XmlParser.SetNewKeyAppends | scripts/xml-parser.js:205-207 | a cluster stored under a new id is appended to the list of all clusters |
| XmlParser.SetOldKeyReplaces | scripts/xml-parser.js:205-207 | a cluster stored under a known id replaces the old record where it stands |
| XmlParser.SetTwiceIsSetOnce | scripts/xml-parser.js:26 | storing the same record twice is storing it once |
| XmlParser.MatterXmlParser.constructor | scripts/xml-parser.js:2-4 | the parser starts with no clusters |
| XmlParser.MatterXmlParser.ParseClusterXml | scripts/xml-parser.js:6-28 | without a `cluster` element it fails with "Invalid cluster XML" and stores nothing; otherwise it returns the first cluster's record and stores it under its id, which `getClusterInfo` then returns, appending it to or replacing it in `getAllClusters` |
| XmlParser.MatterXmlParser.GetClusterInfo | scripts/xml-parser.js:201-203 | the stored record for the id, and none exactly when none was stored |
| XmlParser.MatterXmlParser.AllClusters | scripts/xml-parser.js:205-207 | the stored records in the order their ids were first stored |
| Divergences.RenamesDiffer | TestScripts/generate_capabilities_js.js:17-31 | the port and the original normalise a type differently exactly for int32u, int32s, int64u and int64s |
| Divergences.BoolReadingsDiffer | TestScripts/generate_capabilities_js.js:58 | a boolean default reads differently exactly when it is "yes" in a case other than lower case |
| Divergences.UpperYes | TestScripts/generate_capabilities_js.js:58 | "YES" is false in the port and true in the original |
| Divergences.EmptyOptionsDiffer | TestScripts/generate_capabilities_js.js:297 | an empty option list is written as `options: []` by the port and left out by the original |
| Divergences.AttributeElementsPyWithinJs | scripts/generate_matter_cluster_json.py:74 | without an `attributes` element, the original's attribute elements are among the port's |
| Divergences.FeatureElementsPyWithinJs | scripts/generate_matter_cluster_json.py:468-473 | when the first `features` element is a child, the original's feature elements are among the port's |

## Left out

- File and network I/O are not modelled. This covers reading and writing files, `urllib` downloads with their fallback to the original URL, `process.exit` and console output. The generators start from a parsed document and a source name; the fatal exit becomes a `Failure`.
- The XML text parsers (`DOMParser`, `ElementTree.fromstring`) are foreign libraries; the model starts from a parsed tree. Comments, CDATA and processing instructions are not represented, and neither is a `parsererror` document.
- JSON text output (`JSON.stringify`, `json.dump` with indentation) is left out; the model stops at a JSON value. Object key order is not modelled because maps have none.
- `parseClusterXML` is `async`: the thrown error is modelled as a `Failure` result rather than a rejected promise.
- Case mapping is modelled for ASCII letters only, and `int()` accepts ASCII digits only; Unicode case folding and Unicode digits are not modelled.
- Numbers are unbounded integers: the double precision of JavaScript numbers, and `parseInt` past 2^53, are not modelled.
- The Python `.//enum[@name='…']` query raises a SyntaxError when the name contains a quote character; the model treats it as an ordinary search.
- The ValueError message of `int(arg_id)` is modelled as "invalid literal for int() with base 10: " plus the text in single quotes. Python's `repr` escaping of special characters, and its switch to double quotes for text that contains a single quote, are not modelled.
- The port relies on `@xmldom/xmldom` returning `null` for a missing attribute, and the model reads a missing attribute that way. Versions of that library before 0.9 return `''` instead; with them every argument would carry `min: ''` and `max: ''` (TestScripts/generate_capabilities_js.js:459-460). That library behaviour is not modelled.
- `xml-parser.js` reads `from attribute` with `querySelector`, which matches the descendant combinator against the whole document; the model matches it inside the `between` element only.
- `xml-parser.js` constraint bounds that are `undefined` and those that are `null` are both `None`.
- JavaScript objects used as maps are modelled without `Object.prototype` keys such as `__proto__`.
- `is_scene` is always false in the original, so the `scene` key it guards is never emitted and is not modelled.
- Concrete documents are not modelled. One such document would show that the port and the original can pick different `cluster` elements. The contracts of `CapabilitiesJs.FindClusterJs` and `CapabilitiesPy.FindClusterPy` state the two policies: the port takes the first `cluster` in document order, while the original prefers the root, then a direct child of the root, then the first descendant.
