/**
 * The loops of the Python generator (scripts/generate_matter_cluster_json.py),
 * written as the step-by-step procedures they are, each proved to compute the
 * definition of the same step in CapabilitiesPy. ElementTree's own queries
 * (`find`, `findall`, `.//enum[@name=…]`) stay functions.
 */
module GeneratorPy {
  import opened Wrappers
  import opened Text
  import opened Numbers
  import opened Xml
  import opened Json
  import opened Keyed
  import opened Records
  import opened Filtering
  import opened CapabilitiesPy

  /** The item (or field) loop: adds `{name: value}` when both are truthy and `int()` accepts the value; a ValueError skips the item. */
  method CollectOptionsPy(items: seq<Node>, nameKey: string, valueKey: string) returns (t: PyOptionTable)
    ensures t == ItemTablePy(items, nameKey, valueKey)
  {
    t := PyOptionTable([], []);
    var k := 0;
    while k < |items|
      invariant 0 <= k <= |items|
      invariant t == ItemTablePy(items[..k], nameKey, valueKey)
    {
      assert items[..k + 1][..k] == items[..k];
      var n := Attr(items[k], nameKey);
      var v := Attr(items[k], valueKey);
      if Given(n) && Given(v) {
        match PyNumber(v.value)
        case Some(x) =>
          t := PyOptionTable(t.names + [n.value], t.values + [x]);
        case None =>
      }
      k := k + 1;
    }
    assert items[..|items|] == items;
  }

  /** The option table of an attribute whose raw type names an enum. */
  method ResolveEnumTablePy(root: Node, rawType: Option<string>) returns (table: Option<PyOptionTable>)
    ensures table == EnumTablePy(root, rawType)
  {
    if !(Given(rawType) && IsEnumType(rawType.value)) {
      return None;
    }
    var e := FindNamed(root, "enum", rawType.value);
    if e.Some? {
      var items := CollectOptionsPy(FindAll(e.value, "item"), "name", "value");
      table := Some(items);
    } else {
      table := Some(PyOptionTable([], []));
    }
  }

  /** The option table of an argument whose raw type names an enum or a bitmap: items, then fields. */
  method ResolveArgTablePy(root: Node, rawType: Option<string>) returns (table: Option<PyOptionTable>)
    ensures table == ArgTablePy(root, rawType)
  {
    if !(Given(rawType) && IsArgEnumType(rawType.value)) {
      return None;
    }
    var target := FindNamed(root, "enum", rawType.value);
    if target.None? {
      target := FindNamed(root, "bitmap", rawType.value);
    }
    if target.Some? {
      var items := CollectOptionsPy(FindAll(target.value, "item"), "name", "value");
      var fields := CollectOptionsPy(FindAll(target.value, "field"), "name", "mask");
      table := Some(PyOptionTable(items.names + fields.names, items.values + fields.values));
    } else {
      table := Some(PyOptionTable([], []));
    }
  }

  /** The name chain of the attribute loop, with its `used_desc_for_name` flag. */
  method ResolveNamePy(attr: Node) returns (c: NameChoice)
    ensures c == NamePy(attr)
  {
    var name := Attr(attr, "name");
    if Given(name) {
      return NameChoice(name.value, false);
    }
    var text := PyStrip(PyText(attr).GetOr(""));
    if text != "" {
      return NameChoice(text, false);
    }
    var desc := Find(attr, "description");
    if desc.Some? && PyText(desc.value).Some? {
      return NameChoice(PyStrip(PyText(desc.value).value), true);
    }
    var define := Attr(attr, "define");
    if Given(define) {
      c := NameChoice(CamelFromDefine(define.value), false);
    } else {
      c := NameChoice("", false);
    }
  }

  /** The body of the attribute loop: the entry stored for one `attribute` element, or none when it has no name. */
  method ResolveAttributePy(attr: Node, root: Node) returns (entry: Option<Entry>)
    ensures entry == AttributeEntryPy(attr, root)
  {
    var c := ResolveNamePy(attr);
    if c.name == "" {
      return None;
    }
    var t := NormalizeTypePy(Attr(attr, "type"));
    var defaultValue := DefaultPy(attr, t);
    var table := ResolveEnumTablePy(root, Attr(attr, "type"));
    var d := AttributeRecordPyWith(attr, c, t, defaultValue, table);
    entry := Some(Entry(c.name, Obj(AttributeJsonPy(d))));
  }

  /** `parse_xml_attributes`: stores each named attribute under its name, a later one replacing an earlier one. */
  method ParseAttributesPy(cluster: Node, root: Node) returns (attributes: map<string, Value>)
    ensures attributes == AttributesPy(cluster, root)
  {
    var elems := AttributeElementsPy(cluster);
    attributes := StoreAttributesPy(elems, root, AttributeEntriesPy(elems, root));
  }

  /** The attribute loop over `elems`, whose entries are `es`. */
  method StoreAttributesPy(elems: seq<Node>, root: Node, ghost es: seq<Option<Entry>>) returns (attributes: map<string, Value>)
    requires |es| == |elems|
    requires forall k {:trigger AttributeEntryPy(elems[k], root)} :: 0 <= k < |elems| ==> es[k] == AttributeEntryPy(elems[k], root)
    ensures attributes == KeyedMap(es)
  {
    attributes := map[];
    var i := 0;
    while i < |elems|
      invariant 0 <= i <= |elems|
      invariant attributes == KeyedMap(es[..i])
    {
      KeyedMapStep(es, i);
      var entry := ResolveAttributePy(elems[i], root);
      attributes := Store(attributes, entry);
      i := i + 1;
    }
    assert es[..|elems|] == es;
  }

  /** One named argument: its dict at `position`, or the ValueError of `int(arg_id)`. */
  method ResolveArgPy(arg: Node, position: nat, root: Node) returns (r: Result<Value>)
    ensures r == ArgPy(arg, position, root)
  {
    var id := Attr(arg, "id");
    var idValue := Num(position);
    if Given(id) {
      match PyInt(id.value, Base10)
      case None =>
        return Failure(InvalidLiteral(id.value));
      case Some(n) =>
        idValue := Num(n);
    }
    r := Success(Obj(ArgumentJsonPy(ArgumentRecordPy(arg, idValue, root))));
  }

  /** The argument loop: nameless arguments are skipped; `int(arg_id)` raises on a bad `id`, ending the run. */
  method ParseArgumentsPy(argElems: seq<Node>, root: Node) returns (r: Result<seq<Value>>)
    ensures r == ArgsPy(argElems, root)
  {
    var args: seq<Value> := [];
    var j := 0;
    while j < |argElems|
      invariant 0 <= j <= |argElems|
      invariant ArgsPy(argElems[..j], root) == Success(args)
    {
      MapAcceptedOrFailStep(argElems, HasName, ArgStep(root), j);
      var arg := argElems[j];
      if HasName(arg) {
        var a := ResolveArgPy(arg, |args|, root);
        assert ArgStep(root)(arg, |args|) == a;
        if a.Failure? {
          MapAcceptedOrFailPersists(argElems, HasName, ArgStep(root), j + 1);
          return Failure(a.error);
        }
        args := args + [a.value];
      }
      j := j + 1;
    }
    assert argElems[..|argElems|] == argElems;
    r := Success(args);
  }

  /** The body of the command loop: the entry for one `command` element, none without a name, or the error of its arguments. */
  method ResolveCommandPy(cmd: Node, root: Node) returns (r: Result<Option<Entry>>)
    ensures r == CommandEntryPy(cmd, root)
  {
    var name := Attr(cmd, "name");
    if !Given(name) {
      return Success(None);
    }
    var args := ParseArgumentsPy(FindAll(cmd, "arg"), root);
    if args.Failure? {
      return Failure(args.error);
    }
    var c := CommandRecordPy(cmd, name.value, args.value);
    r := Success(Some(Entry(name.value, Obj(CommandJson(c)))));
  }

  /** `parse_xml_commands`: stores each named command under its name; the first escaping ValueError ends it. */
  method ParseCommandsPy(cluster: Node, root: Node) returns (r: Result<map<string, Value>>)
    ensures r == CommandsPy(cluster, root)
  {
    var elems := CommandElementsPy(cluster);
    r := StoreCommandsPy(elems, root, CommandEntriesPy(elems, root));
  }

  /** The command loop over `elems`, whose outcomes are `rs`. */
  method StoreCommandsPy(elems: seq<Node>, root: Node, ghost rs: seq<Result<Option<Entry>>>)
    returns (r: Result<map<string, Value>>)
    requires |rs| == |elems|
    requires forall k {:trigger CommandEntryPy(elems[k], root)} :: 0 <= k < |elems| ==> rs[k] == CommandEntryPy(elems[k], root)
    ensures AllOk(rs).Failure? ==> r == Failure(AllOk(rs).error)
    ensures AllOk(rs).Success? ==> r == Success(KeyedMap(AllOk(rs).value))
  {
    ghost var es: seq<Option<Entry>> := [];
    var commands := map[];
    var i := 0;
    while i < |elems|
      invariant 0 <= i <= |elems|
      invariant AllOk(rs[..i]) == Success(es)
      invariant commands == KeyedMap(es)
    {
      var entry := ResolveCommandPy(elems[i], root);
      AllOkNext(rs, i, es);
      if entry.Failure? {
        return Failure(entry.error);
      }
      KeyedMapAppend(es, entry.value);
      commands := Store(commands, entry.value);
      es := es + [entry.value];
      i := i + 1;
    }
    assert rs[..|elems|] == rs;
    r := Success(commands);
  }

  /** `parse_xml_features`: stores each feature with a code and a name under its code. */
  method ParseFeaturesPy(cluster: Node) returns (features: map<string, Value>)
    ensures features == FeaturesPy(cluster)
  {
    features := map[];
    var featuresElem := Find(cluster, "features");
    if featuresElem.None? {
      return;
    }
    var elems := FindAll(featuresElem.value, "feature");
    ghost var es := FeatureEntriesPy(elems);
    var i := 0;
    while i < |elems|
      invariant 0 <= i <= |elems|
      invariant features == KeyedMap(es[..i])
    {
      KeyedMapStep(es, i);
      var f := elems[i];
      if Given(Attr(f, "code")) && Given(Attr(f, "name")) {
        features := features[Attr(f, "code").value := Obj(FeatureJson(FeatureRecordPy(f)))];
      }
      i := i + 1;
    }
    assert es[..|elems|] == es;
  }

  /** The `for child in cluster_elem` loops of `extract_cluster_info`: the first `tag` child with text, stripped. */
  method FindChildText(cs: seq<Node>, tag: string) returns (r: Option<string>)
    ensures r == FirstChildText(cs, tag)
  {
    r := None;
    var k := 0;
    while k < |cs|
      invariant 0 <= k <= |cs|
      invariant FirstChildText(cs[k..], tag) == FirstChildText(cs, tag)
    {
      assert cs[k..][1..] == cs[k + 1..];
      if HasTextChild(cs[k], tag) {
        r := Some(PyStrip(PyText(cs[k]).value));
        break;
      }
      k := k + 1;
    }
  }

  /** The `clusterIds/clusterId` step of `extract_cluster_info`. */
  method ResolveIdsFallback(cluster: Node, k: Identity) returns (r: Identity)
    ensures r == IdsFallbackPy(cluster, k)
  {
    var name := k.name;
    var id := k.id;
    if id == "0x0000" || name == "" || name == "Unknown" {
      var ids := Find(cluster, "clusterIds");
      if ids.Some? {
        var idElem := Find(ids.value, "clusterId");
        if idElem.Some? {
          if id == "" || id == "0x0000" {
            id := Attr(idElem.value, "id").GetOr(id);
          }
          if name == "" || name == "Unknown" {
            name := Attr(idElem.value, "name").GetOr(name);
          }
        }
      }
    }
    r := Identity(name, id);
  }

  /** `extract_cluster_info`: the unknown record without a cluster, else the name and id fallback chain. */
  method ExtractClusterInfo(root: Node, xmlSource: string) returns (info: ClusterInfo)
    ensures info == ClusterInfoPy(root, xmlSource)
  {
    var found := FindClusterPy(root);
    if found.None? {
      return UnknownCluster(xmlSource);
    }
    var cluster := found.value;
    var k := ResolveIdsFallback(cluster, AttrIdentityPy(cluster));
    var name := k.name;
    var id := k.id;
    var cs := ChildrenOf(cluster);
    if name == "Unknown" {
      var n := FindChildText(cs, "name");
      name := n.GetOr(name);
    }
    if id == "0x0000" {
      var c := FindChildText(cs, "code");
      id := c.GetOr(id);
    }
    assert Identity(name, id) == ChildFallbackPy(cs, k);
    var description := FindChildText(cs, "description");
    info := ClusterInfo(
      id := SlugPy(name),
      clusterId := HexIdPy(id, 4),
      name := name,
      description := description.GetOr("Matter " + name + " Cluster"),
      xmlSource := xmlSource);
  }

  /** `generate_json_from_xml` after parsing: the document, or the ValueError that escapes from the commands. */
  method GeneratePy(root: Node, xmlSource: string) returns (r: Result<Value>)
    ensures r == DocumentPy(root, xmlSource)
  {
    var info := ExtractClusterInfo(root, xmlSource);
    var cluster := ClusterElemPy(root);
    var attributes := ParseAttributesPy(cluster, root);
    var commands := ParseCommandsPy(cluster, root);
    if commands.Failure? {
      return Failure(commands.error);
    }
    var features := ParseFeaturesPy(cluster);
    r := Success(DocumentJson(info, CapabilitiesJson(attributes, commands.value, features)));
  }
}
