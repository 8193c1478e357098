/**
 * The loops of the JavaScript generator (TestScripts/generate_capabilities_js.js),
 * written as the step-by-step procedures they are, each proved to compute the
 * definition of the same step in CapabilitiesJs.
 */
module GeneratorJs {
  import opened Wrappers
  import opened Text
  import opened Xml
  import opened Json
  import opened Keyed
  import opened Records
  import opened Filtering
  import opened CapabilitiesJs

  /** The sibling walk under a `default` element: text nodes are collected until the first `attribute` element. */
  method CollectDirectText(cs: seq<Node>) returns (text: string)
    ensures text == TextBeforeAttribute(cs)
  {
    text := "";
    var i := 0;
    while i < |cs|
      invariant 0 <= i <= |cs|
      invariant text + TextBeforeAttribute(cs[i..]) == TextBeforeAttribute(cs)
    {
      assert cs[i..][1..] == cs[i + 1..];
      if cs[i].Text? {
        text := text + cs[i].text;
      } else if cs[i].tag == "attribute" {
        break;
      }
      i := i + 1;
    }
  }

  /** The default value of an attribute of (normalised) type `t`. */
  method ResolveDefault(attr: Node, t: string) returns (v: Value)
    ensures v == DefaultJs(attr, t)
  {
    var a := Attr(attr, "default");
    if Given(a) {
      return SpecialOrParse(a.value, t);
    }
    var de := FirstByTag(attr, "default");
    if de.None? {
      return Null;
    }
    if FirstByTag(de.value, "attribute").Some? {
      var text := CollectDirectText(ChildrenOf(de.value));
      v := Str(text);
    } else if TextContent(de.value) != "" {
      v := SpecialOrParse(JsTrim(TextContent(de.value)), t);
    } else {
      v := Str("");
    }
  }

  /** The search loop over `enum` (or `bitmap`) elements that stops at the first one with the wanted `name`. */
  method FindByName(ns: seq<Node>, name: string) returns (r: Option<Node>)
    ensures r == FirstNamed(ns, name)
  {
    var k := 0;
    while k < |ns|
      invariant 0 <= k <= |ns|
      invariant FirstNamed(ns[k..], name) == FirstNamed(ns, name)
    {
      assert ns[k..][1..] == ns[k + 1..];
      if Attr(ns[k], "name") == Some(name) {
        return Some(ns[k]);
      }
      k := k + 1;
    }
    return None;
  }

  /** The loop that pushes `{ name: value }` for each item with a truthy name and value. */
  method CollectOptions(items: seq<Node>, nameKey: string, valueKey: string) returns (t: OptionTable)
    ensures t == ItemTable(items, nameKey, valueKey)
  {
    t := OptionTable([], []);
    var k := 0;
    while k < |items|
      invariant 0 <= k <= |items|
      invariant t == ItemTable(items[..k], nameKey, valueKey)
    {
      assert items[..k + 1][..k] == items[..k];
      var n := Attr(items[k], nameKey);
      var v := Attr(items[k], valueKey);
      if Given(n) && Given(v) {
        t := OptionTable(t.names + [n.value], t.values + [ParseNumber(v.value)]);
      }
      k := k + 1;
    }
    assert items[..|items|] == items;
  }

  /** The option table of an attribute of type `t`: started for enum types, filled from the first matching `enum`. */
  method ResolveEnumTable(doc: Node, t: string) returns (table: Option<OptionTable>)
    ensures table == EnumTable(doc, t)
  {
    if !IsEnumType(t) {
      return None;
    }
    var e := FindByName(DocByTag(doc, "enum"), t);
    if e.Some? {
      var items := CollectOptions(ByTag(e.value, "item"), "name", "value");
      table := Some(items);
    } else {
      table := Some(OptionTable([], []));
    }
  }

  /** The body of the attribute loop: the entry stored for one `attribute` element, or none when it has no name. */
  method ResolveAttribute(attr: Node, doc: Node) returns (entry: Option<Entry>)
    ensures entry == AttributeEntryJs(attr, doc)
  {
    var name := NameJs(attr);
    if name == "" {
      return None;
    }
    var t := NormalizeType(Attr(attr, "type"));
    var defaultValue := ResolveDefault(attr, t);
    var table := ResolveEnumTable(doc, t);
    var d := AttributeRecordWith(attr, name, t, defaultValue, table);
    entry := Some(Entry(name, Obj(AttributeJson(d))));
  }

  /** `parseAttributes`: stores each named attribute under its name, a later one replacing an earlier one. */
  method ParseAttributes(cluster: Node, doc: Node) returns (attributes: map<string, Value>)
    ensures attributes == AttributesJs(cluster, doc)
  {
    var elems := AttributeElementsJs(cluster);
    ghost var es := AttributeEntriesJs(elems, doc);
    attributes := map[];
    var i := 0;
    while i < |elems|
      invariant 0 <= i <= |elems|
      invariant attributes == KeyedMap(es[..i])
    {
      KeyedMapStep(es, i);
      var entry := ResolveAttribute(elems[i], doc);
      assert es[i] == entry;
      attributes := Store(attributes, entry);
      i := i + 1;
    }
    assert es[..|elems|] == es;
  }

  /** The option table of an argument of type `t`: the first matching `enum`, else `bitmap`; its items, then its fields. */
  method ResolveArgTable(doc: Node, t: string) returns (table: Option<OptionTable>)
    ensures table == ArgTable(doc, t)
  {
    if !IsArgEnumType(t) {
      return None;
    }
    var target := FindByName(DocByTag(doc, "enum"), t);
    if target.None? {
      target := FindByName(DocByTag(doc, "bitmap"), t);
    }
    if target.Some? {
      var items := CollectOptions(ByTag(target.value, "item"), "name", "value");
      var fields := CollectOptions(ByTag(target.value, "field"), "name", "mask");
      table := Some(Append(items, fields));
    } else {
      table := Some(OptionTable([], []));
    }
  }

  /** The argument loop: nameless arguments are skipped; `args.length` is the default `id`. */
  method ParseArguments(argElems: seq<Node>, doc: Node) returns (args: seq<Value>)
    ensures args == ArgsJs(argElems, doc)
  {
    args := [];
    var j := 0;
    while j < |argElems|
      invariant 0 <= j <= |argElems|
      invariant args == ArgsJs(argElems[..j], doc)
    {
      assert argElems[..j + 1][..j] == argElems[..j];
      var arg := argElems[j];
      if HasName(arg) {
        var t := NormalizeType(Attr(arg, "type"));
        var table := ResolveArgTable(doc, t);
        var a := ArgumentRecordWith(arg, |args|, t, table);
        args := args + [Obj(ArgumentJson(a))];
      }
      j := j + 1;
    }
    assert argElems[..|argElems|] == argElems;
  }

  /** The body of the command loop: the entry stored for one `command` element, or none when it has no name. */
  method ResolveCommand(cmd: Node, doc: Node) returns (entry: Option<Entry>)
    ensures entry == CommandEntryJs(cmd, doc)
  {
    var name := Attr(cmd, "name");
    if !Given(name) {
      return None;
    }
    var args := ParseArguments(ByTag(cmd, "arg"), doc);
    var c := CommandDef(
      id := FormatCommandId(Or(Attr(cmd, "code"), Attr(cmd, "id"))),
      mandatory := !IsTrue(Attr(cmd, "optional")),
      description := DescriptionJs(cmd, name.value, " command"),
      arguments := args,
      featureDependent := FeatureDep(cmd));
    entry := Some(Entry(name.value, Obj(CommandJson(c))));
  }

  /** `parseCommands`: stores each named command under its name. */
  method ParseCommands(cluster: Node, doc: Node) returns (commands: map<string, Value>)
    ensures commands == CommandsJs(cluster, doc)
  {
    var elems := CommandElementsJs(cluster);
    ghost var es := CommandEntriesJs(elems, doc);
    commands := map[];
    var i := 0;
    while i < |elems|
      invariant 0 <= i <= |elems|
      invariant commands == KeyedMap(es[..i])
    {
      KeyedMapStep(es, i);
      var entry := ResolveCommand(elems[i], doc);
      assert es[i] == entry;
      commands := Store(commands, entry);
      i := i + 1;
    }
    assert es[..|elems|] == es;
  }

  /** `parseFeatures`: stores each feature with a code and a name under its code. */
  method ParseFeatures(cluster: Node) returns (features: map<string, Value>)
    ensures features == FeaturesJs(cluster)
  {
    features := map[];
    var featuresElem := FirstByTag(cluster, "features");
    if featuresElem.None? {
      return;
    }
    var elems := ByTag(featuresElem.value, "feature");
    ghost var es := FeatureEntriesJs(elems);
    var i := 0;
    while i < |elems|
      invariant 0 <= i <= |elems|
      invariant features == KeyedMap(es[..i])
    {
      KeyedMapStep(es, i);
      var f := elems[i];
      if Given(Attr(f, "code")) && Given(Attr(f, "name")) {
        features := features[Attr(f, "code").value := Obj(FeatureJson(FeatureRecordJs(f)))];
      }
      i := i + 1;
    }
    assert es[..|elems|] == es;
  }

  /** `generateJSONFromXML` after parsing: the error exit when there is no cluster, else the output document. */
  method Generate(doc: Node, xmlSource: string) returns (r: Result<Value>)
    ensures r == DocumentJs(doc, xmlSource)
  {
    var cluster := FindClusterJs(doc);
    if cluster.None? {
      return Failure("No cluster element found in XML");
    }
    var info := ClusterInfoJs(cluster.value, xmlSource);
    var attributes := ParseAttributes(cluster.value, doc);
    var commands := ParseCommands(cluster.value, doc);
    var features := ParseFeatures(cluster.value);
    r := Success(DocumentJson(info, CapabilitiesJson(attributes, commands, features)));
  }
}
