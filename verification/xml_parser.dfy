/**
 * The browser-side reader of cluster XML (scripts/xml-parser.js, class
 * MatterXMLParser): it copies attributes of a parsed document into plain
 * records, without any normalisation, and keeps every cluster it has read
 * in a Map keyed by the cluster's `id`.
 *
 * Every attribute read is `getAttribute`, so every copied value is an
 * Option<string> (None for null). Element searches are `querySelector`
 * and `querySelectorAll`, which look at ALL descendants in document order.
 */
module XmlParser {
  import opened Wrappers
  import opened Text
  import opened Xml
  import opened Records

  // ---------------------------------------------------------------------
  // Records
  // ---------------------------------------------------------------------

  datatype Classification = Classification(
    hierarchy: Option<string>, role: Option<string>, picsCode: Option<string>, scope: Option<string>)

  datatype Feature = Feature(bit: Option<string>, code: Option<string>, name: Option<string>, summary: Option<string>)

  datatype Item = Item(value: Option<string>, name: Option<string>, summary: Option<string>)

  /** An `enum` or `bitmap` definition; `kind` is its tag name. */
  datatype DataType = DataType(name: Option<string>, kind: string, items: seq<Item>)

  datatype Access = Access(
    read: bool, write: bool, invoke: bool,
    readPrivilege: Option<string>, writePrivilege: Option<string>, invokePrivilege: Option<string>)

  datatype Quality = Quality(
    nullable: bool, scene: bool, persistence: Option<string>, reportable: bool, quieterReporting: bool)

  /** The `{type: 'between' | 'min' | 'max', ...}` objects. */
  datatype Constraint =
    | Between(from: Option<string>, to: Option<string>)
    | Min(value: Option<string>)
    | Max(value: Option<string>)

  datatype Field = Field(id: Option<string>, name: Option<string>, typeName: Option<string>, constraint: Option<Constraint>)

  datatype Attribute = Attribute(
    id: Option<string>, name: Option<string>, typeName: Option<string>,
    access: Option<Access>, quality: Option<Quality>, constraint: Option<Constraint>)

  datatype Command = Command(
    id: Option<string>, name: Option<string>, direction: Option<string>, response: Option<string>,
    access: Option<Access>, fields: seq<Field>)

  /** The `clusterInfo` object `parseClusterXML` builds and stores. */
  datatype ClusterRecord = ClusterRecord(
    id: Option<string>, name: Option<string>, revision: Option<string>,
    classification: Option<Classification>,
    features: seq<Feature>, dataTypes: seq<DataType>, attributes: seq<Attribute>, commands: seq<Command>)

  // ---------------------------------------------------------------------
  // Single-element reads
  // ---------------------------------------------------------------------

  /** `e.getAttribute(key) === 'true'`: exactly the lower-case text, unlike the generators' case-insensitive test. */
  predicate FlagSet(e: Node, key: string) {
    Attr(e, key) == Some("true")
  }

  /** `parseAccess`: the first `access` descendant's three flags and three privileges. */
  function AccessOf(e: Node): (r: Option<Access>)
    ensures r.Some? <==> Query(e, [Tag("access")]).Some?
    ensures r.Some? ==> var a := Query(e, [Tag("access")]).value;
      && (r.value.read <==> Attr(a, "read") == Some("true"))
      && (r.value.write <==> Attr(a, "write") == Some("true"))
      && (r.value.invoke <==> Attr(a, "invoke") == Some("true"))
      && r.value.readPrivilege == Attr(a, "readPrivilege")
      && r.value.writePrivilege == Attr(a, "writePrivilege")
      && r.value.invokePrivilege == Attr(a, "invokePrivilege")
  {
    match Query(e, [Tag("access")])
    case None => None
    case Some(a) =>
      Some(Access(FlagSet(a, "read"), FlagSet(a, "write"), FlagSet(a, "invoke"),
        Attr(a, "readPrivilege"), Attr(a, "writePrivilege"), Attr(a, "invokePrivilege")))
  }

  /** `parseQuality`: the first `quality` descendant's four flags and its persistence. */
  function QualityOf(e: Node): (r: Option<Quality>)
    ensures r.Some? <==> Query(e, [Tag("quality")]).Some?
    ensures r.Some? ==> var q := Query(e, [Tag("quality")]).value;
      && (r.value.nullable <==> Attr(q, "nullable") == Some("true"))
      && (r.value.scene <==> Attr(q, "scene") == Some("true"))
      && (r.value.reportable <==> Attr(q, "reportable") == Some("true"))
      && (r.value.quieterReporting <==> Attr(q, "quieterReporting") == Some("true"))
      && r.value.persistence == Attr(q, "persistence")
  {
    match Query(e, [Tag("quality")])
    case None => None
    case Some(q) =>
      Some(Quality(FlagSet(q, "nullable"), FlagSet(q, "scene"), Attr(q, "persistence"),
        FlagSet(q, "reportable"), FlagSet(q, "quieterReporting")))
  }

  /** One end of a `between`: the `value` of its first `side` element, or else the `name` of the first `attribute` inside a `side` element. */
  function BoundOf(between: Node, side: string): (r: Option<string>)
    ensures Given(r) ==>
      (Query(between, [Tag(side)]).Some? && r == Attr(Query(between, [Tag(side)]).value, "value"))
      || (Query(between, [Within(side, "attribute")]).Some? && r == Attr(Query(between, [Within(side, "attribute")]).value, "name"))
    ensures Query(between, [Tag(side)]).Some? && Given(Attr(Query(between, [Tag(side)]).value, "value")) ==>
      r == Attr(Query(between, [Tag(side)]).value, "value")
    ensures !(Query(between, [Tag(side)]).Some? && Given(Attr(Query(between, [Tag(side)]).value, "value"))) ==>
      r == (if Query(between, [Within(side, "attribute")]).Some?
            then Attr(Query(between, [Within(side, "attribute")]).value, "name") else None)
  {
    var v := match Query(between, [Tag(side)]) case Some(f) => Attr(f, "value") case None => None;
    var n := match Query(between, [Within(side, "attribute")]) case Some(a) => Attr(a, "name") case None => None;
    Or(v, n)
  }

  /** `parseConstraint`: inside the first `constraint` descendant, a `between` wins over a `min`, which wins over a `max`. */
  function ConstraintOf(e: Node): (r: Option<Constraint>)
    ensures Query(e, [Tag("constraint")]).None? ==> r.None?
    ensures Query(e, [Tag("constraint")]).Some? ==>
      var c := Query(e, [Tag("constraint")]).value;
      && (Query(c, [Tag("between")]).Some? ==>
            r == Some(Between(BoundOf(Query(c, [Tag("between")]).value, "from"), BoundOf(Query(c, [Tag("between")]).value, "to"))))
      && (Query(c, [Tag("between")]).None? && Query(c, [Tag("min")]).Some? ==>
            r == Some(Min(Attr(Query(c, [Tag("min")]).value, "value"))))
      && (Query(c, [Tag("between")]).None? && Query(c, [Tag("min")]).None? && Query(c, [Tag("max")]).Some? ==>
            r == Some(Max(Attr(Query(c, [Tag("max")]).value, "value"))))
      && (Query(c, [Tag("between")]).None? && Query(c, [Tag("min")]).None? && Query(c, [Tag("max")]).None? ==>
            r.None?)
  {
    match Query(e, [Tag("constraint")])
    case None => None
    case Some(c) =>
      match Query(c, [Tag("between")])
      case Some(b) => Some(Between(BoundOf(b, "from"), BoundOf(b, "to")))
      case None =>
        match Query(c, [Tag("min")])
        case Some(m) => Some(Min(Attr(m, "value")))
        case None =>
          match Query(c, [Tag("max")])
          case Some(m) => Some(Max(Attr(m, "value")))
          case None => None
  }

  /** `parseClassification`: the first `classification` descendant's four attributes. */
  function ClassificationOf(cluster: Node): (r: Option<Classification>)
    ensures r.Some? <==> Query(cluster, [Tag("classification")]).Some?
    ensures r.Some? ==> var c := Query(cluster, [Tag("classification")]).value;
      r.value == Classification(Attr(c, "hierarchy"), Attr(c, "role"), Attr(c, "picsCode"), Attr(c, "scope"))
  {
    match Query(cluster, [Tag("classification")])
    case None => None
    case Some(c) =>
      Some(Classification(Attr(c, "hierarchy"), Attr(c, "role"), Attr(c, "picsCode"), Attr(c, "scope")))
  }

  /** A feature record: its four attributes, copied unchanged. */
  function FeatureOf(f: Node): (r: Feature)
    ensures r.bit == Attr(f, "bit") && r.code == Attr(f, "code") && r.name == Attr(f, "name") && r.summary == Attr(f, "summary")
  {
    Feature(Attr(f, "bit"), Attr(f, "code"), Attr(f, "name"), Attr(f, "summary"))
  }

  /** An item or bitfield record: its three attributes, copied unchanged. */
  function ItemOf(it: Node): (r: Item)
    ensures r.value == Attr(it, "value") && r.name == Attr(it, "name") && r.summary == Attr(it, "summary")
  {
    Item(Attr(it, "value"), Attr(it, "name"), Attr(it, "summary"))
  }

  /** A command field record: three attributes copied unchanged and the field's constraint. */
  function FieldOf(f: Node): (r: Field)
    ensures r.id == Attr(f, "id") && r.name == Attr(f, "name") && r.typeName == Attr(f, "type")
    ensures r.constraint == ConstraintOf(f)
  {
    Field(Attr(f, "id"), Attr(f, "name"), Attr(f, "type"), ConstraintOf(f))
  }

  /** An attribute record: three attributes copied unchanged, then access, quality and constraint. */
  function AttributeOf(a: Node): (r: Attribute)
    ensures r.id == Attr(a, "id") && r.name == Attr(a, "name") && r.typeName == Attr(a, "type")
    ensures r.access == AccessOf(a) && r.quality == QualityOf(a) && r.constraint == ConstraintOf(a)
  {
    Attribute(Attr(a, "id"), Attr(a, "name"), Attr(a, "type"), AccessOf(a), QualityOf(a), ConstraintOf(a))
  }

  // ---------------------------------------------------------------------
  // The element lists and what each `forEach` pushes
  // ---------------------------------------------------------------------

  const FeatureSelector := [Tag("feature")]
  const DataTypeSelector := [ChildOf("dataTypes", "enum"), ChildOf("dataTypes", "bitmap")]
  const ItemSelector := [Tag("item"), Tag("bitfield")]
  const AttributeSelector := [Tag("attribute")]
  const CommandSelector := [Tag("command")]
  const FieldSelector := [Tag("field")]

  /** What `querySelectorAll` returns are elements. */
  lemma QueryAllElements(e: Node, group: seq<Selector>)
    ensures forall n :: n in QueryAll(e, group) ==> n.Element?
  {
    forall n | n in QueryAll(e, group) ensures n.Element? {
      var h :| h in Descendants(e) && MatchesAny(h, group) && h.elem == n;
      var i :| 0 <= i < |group| && Matches(h, group[i]);
    }
  }

  function FeaturesOf(cluster: Node): (r: seq<Feature>)
    ensures var els := QueryAll(cluster, FeatureSelector);
      |r| == |els| && forall k :: 0 <= k < |els| ==> r[k] == FeatureOf(els[k])
  {
    var els := QueryAll(cluster, FeatureSelector);
    seq(|els|, k requires 0 <= k < |els| => FeatureOf(els[k]))
  }

  function ItemsOf(dt: Node): (r: seq<Item>)
    ensures var els := QueryAll(dt, ItemSelector);
      |r| == |els| && forall k :: 0 <= k < |els| ==> r[k] == ItemOf(els[k])
  {
    var els := QueryAll(dt, ItemSelector);
    seq(|els|, k requires 0 <= k < |els| => ItemOf(els[k]))
  }

  /** `tagName`; only elements are ever asked for it. */
  function TagName(n: Node): string {
    if n.Element? then n.tag else ""
  }

  /** A data type record: its `name`, its tag as the kind, and its items and bitfields in document order. */
  function DataTypeOf(dt: Node): (r: DataType)
    ensures r.name == Attr(dt, "name") && r.kind == TagName(dt) && r.items == ItemsOf(dt)
  {
    DataType(Attr(dt, "name"), TagName(dt), ItemsOf(dt))
  }

  function DataTypesOf(cluster: Node): (r: seq<DataType>)
    ensures var els := QueryAll(cluster, DataTypeSelector);
      |r| == |els| && forall k :: 0 <= k < |els| ==> r[k] == DataTypeOf(els[k])
  {
    var els := QueryAll(cluster, DataTypeSelector);
    seq(|els|, k requires 0 <= k < |els| => DataTypeOf(els[k]))
  }

  function AttributesOf(cluster: Node): (r: seq<Attribute>)
    ensures var els := QueryAll(cluster, AttributeSelector);
      |r| == |els| && forall k :: 0 <= k < |els| ==> r[k] == AttributeOf(els[k])
  {
    var els := QueryAll(cluster, AttributeSelector);
    seq(|els|, k requires 0 <= k < |els| => AttributeOf(els[k]))
  }

  function FieldsOf(cmd: Node): (r: seq<Field>)
    ensures var els := QueryAll(cmd, FieldSelector);
      |r| == |els| && forall k :: 0 <= k < |els| ==> r[k] == FieldOf(els[k])
  {
    var els := QueryAll(cmd, FieldSelector);
    seq(|els|, k requires 0 <= k < |els| => FieldOf(els[k]))
  }

  /** A command record: four attributes copied unchanged, its access and its fields in document order. */
  function CommandOf(c: Node): (r: Command)
    ensures r.id == Attr(c, "id") && r.name == Attr(c, "name")
    ensures r.direction == Attr(c, "direction") && r.response == Attr(c, "response")
    ensures r.access == AccessOf(c) && r.fields == FieldsOf(c)
  {
    Command(Attr(c, "id"), Attr(c, "name"), Attr(c, "direction"), Attr(c, "response"), AccessOf(c), FieldsOf(c))
  }

  function CommandsOf(cluster: Node): (r: seq<Command>)
    ensures var els := QueryAll(cluster, CommandSelector);
      |r| == |els| && forall k :: 0 <= k < |els| ==> r[k] == CommandOf(els[k])
  {
    var els := QueryAll(cluster, CommandSelector);
    seq(|els|, k requires 0 <= k < |els| => CommandOf(els[k]))
  }

  /** The `clusterInfo` object for a located `cluster` element. */
  function ClusterOf(cluster: Node): (r: ClusterRecord)
    ensures r.id == Attr(cluster, "id") && r.name == Attr(cluster, "name") && r.revision == Attr(cluster, "revision")
    ensures r.classification == ClassificationOf(cluster)
    ensures r.features == FeaturesOf(cluster) && r.dataTypes == DataTypesOf(cluster)
    ensures r.attributes == AttributesOf(cluster) && r.commands == CommandsOf(cluster)
  {
    ClusterRecord(Attr(cluster, "id"), Attr(cluster, "name"), Attr(cluster, "revision"),
      ClassificationOf(cluster), FeaturesOf(cluster), DataTypesOf(cluster), AttributesOf(cluster), CommandsOf(cluster))
  }

  // ---------------------------------------------------------------------
  // Properties of the reads
  // ---------------------------------------------------------------------

  /** The access and quality flags are stricter than the generators' reading: an exact "true" is also true there. */
  lemma FlagSetIsTrue(e: Node, key: string)
    ensures FlagSet(e, key) ==> IsTrue(Attr(e, key))
  {
    if FlagSet(e, key) {
      assert Lower("true") == "true";
    }
  }

  /** ... but not conversely: `read="TRUE"` grants read access to the generators and not here. */
  lemma UpperCaseTrueIsNoFlag()
    ensures var a := Element("access", map["read" := "TRUE"], []);
      IsTrue(Attr(a, "read")) && !FlagSet(a, "read")
  {
    var a := Element("access", map["read" := "TRUE"], []);
    assert Lower("TRUE") == "true";
  }

  /** Every `attribute` element below the cluster gets a record, also one that only names another attribute inside a constraint's bound. */
  lemma EveryAttributeElementListed(cluster: Node, h: Hit)
    requires h in Descendants(cluster) && h.elem.Element? && h.elem.tag == "attribute"
    ensures AttributeOf(h.elem) in AttributesOf(cluster)
  {
    var els := QueryAll(cluster, AttributeSelector);
    assert Matches(h, AttributeSelector[0]);
    assert h.elem in els;
    var k :| 0 <= k < |els| && els[k] == h.elem;
    assert AttributesOf(cluster)[k] == AttributeOf(h.elem);
  }

  /** Likewise every `feature` element, also a feature reference inside a conformance element. */
  lemma EveryFeatureElementListed(cluster: Node, h: Hit)
    requires h in Descendants(cluster) && h.elem.Element? && h.elem.tag == "feature"
    ensures FeatureOf(h.elem) in FeaturesOf(cluster)
  {
    var els := QueryAll(cluster, FeatureSelector);
    assert Matches(h, FeatureSelector[0]);
    assert h.elem in els;
    var k :| 0 <= k < |els| && els[k] == h.elem;
    assert FeaturesOf(cluster)[k] == FeatureOf(h.elem);
  }

  /** A data type's `type` is the tag it was selected by: `enum` or `bitmap`. */
  lemma DataTypeKinds(cluster: Node)
    ensures forall d :: d in DataTypesOf(cluster) ==> d.kind == "enum" || d.kind == "bitmap"
  {
    var els := QueryAll(cluster, DataTypeSelector);
    var all := DataTypesOf(cluster);
    forall d | d in all ensures d.kind == "enum" || d.kind == "bitmap" {
      var k :| 0 <= k < |all| && all[k] == d;
      SelectedDataTypeTag(cluster, k);
    }
  }

  /** Each element the data-type selector picks is an `enum` or a `bitmap`. */
  lemma SelectedDataTypeTag(cluster: Node, k: int)
    requires 0 <= k < |QueryAll(cluster, DataTypeSelector)|
    ensures TagName(QueryAll(cluster, DataTypeSelector)[k]) in {"enum", "bitmap"}
  {
    var els := QueryAll(cluster, DataTypeSelector);
    assert els[k] in els;
    var h :| h in Descendants(cluster) && MatchesAny(h, DataTypeSelector) && h.elem == els[k];
    var i :| 0 <= i < |DataTypeSelector| && Matches(h, DataTypeSelector[i]);
    assert h.elem.tag == DataTypeSelector[i].name;
  }

  // ---------------------------------------------------------------------
  // The `forEach` loops
  // ---------------------------------------------------------------------

  /** `list.forEach(x => out.push(f(x)))`: one result per element, in order. */
  method PushEach<U>(els: seq<Node>, f: Node -> U) returns (out: seq<U>)
    ensures |out| == |els| && forall k :: 0 <= k < |els| ==> out[k] == f(els[k])
  {
    out := [];
    var i := 0;
    while i < |els|
      invariant 0 <= i <= |els|
      invariant |out| == i && forall k :: 0 <= k < i ==> out[k] == f(els[k])
    {
      out := out + [f(els[i])];
      i := i + 1;
    }
  }

  /** `parseFeatures`: one record per `feature` descendant, in document order. */
  method ParseFeatures(cluster: Node) returns (features: seq<Feature>)
    ensures features == FeaturesOf(cluster)
  {
    var els := QueryAll(cluster, FeatureSelector);
    features := PushEach(els, FeatureOf);
  }

  /** The inner loop of `parseDataTypes`: one item per `item` or `bitfield` descendant. */
  method ParseItems(dt: Node) returns (items: seq<Item>)
    ensures items == ItemsOf(dt)
  {
    var els := QueryAll(dt, ItemSelector);
    items := PushEach(els, ItemOf);
  }

  /** `parseDataTypes`: one record per `enum` or `bitmap` child of a `dataTypes` element, with its items. */
  method ParseDataTypes(cluster: Node) returns (dataTypes: seq<DataType>)
    ensures dataTypes == DataTypesOf(cluster)
  {
    var els := QueryAll(cluster, DataTypeSelector);
    ghost var all := DataTypesOf(cluster);
    dataTypes := [];
    var i := 0;
    while i < |els|
      invariant 0 <= i <= |els| == |all|
      invariant dataTypes == all[..i]
    {
      var items := ParseItems(els[i]);
      var d := DataType(Attr(els[i], "name"), TagName(els[i]), items);
      assert d == all[i];
      dataTypes := dataTypes + [d];
      i := i + 1;
    }
  }

  /** `parseAttributes`: one record per `attribute` descendant. */
  method ParseAttributes(cluster: Node) returns (attributes: seq<Attribute>)
    ensures attributes == AttributesOf(cluster)
  {
    var els := QueryAll(cluster, AttributeSelector);
    attributes := PushEach(els, AttributeOf);
  }

  /** `parseFields`: one record per `field` descendant of a command. */
  method ParseFields(cmd: Node) returns (fields: seq<Field>)
    ensures fields == FieldsOf(cmd)
  {
    var els := QueryAll(cmd, FieldSelector);
    fields := PushEach(els, FieldOf);
  }

  /** `parseCommands`: one record per `command` descendant, with its fields. */
  method ParseCommands(cluster: Node) returns (commands: seq<Command>)
    ensures commands == CommandsOf(cluster)
  {
    var els := QueryAll(cluster, CommandSelector);
    ghost var all := CommandsOf(cluster);
    commands := [];
    var i := 0;
    while i < |els|
      invariant 0 <= i <= |els| == |all|
      invariant commands == all[..i]
    {
      var c := els[i];
      var fields := ParseFields(c);
      var command := Command(Attr(c, "id"), Attr(c, "name"), Attr(c, "direction"), Attr(c, "response"),
        AccessOf(c), fields);
      assert command == all[i];
      commands := commands + [command];
      i := i + 1;
    }
  }

  // ---------------------------------------------------------------------
  // The cluster store: a JavaScript Map, keyed by `id` (null included)
  // ---------------------------------------------------------------------

  /** The keys in insertion order: distinct, and exactly the keys of the map. */
  ghost predicate Registry(data: map<Option<string>, ClusterRecord>, order: seq<Option<string>>) {
    && (forall i, j :: 0 <= i < j < |order| ==> order[i] != order[j])
    && (forall id :: id in data <==> id in order)
  }

  /** `Map.prototype.set`'s effect on the iteration order: a new key goes last, an existing one keeps its place. */
  function NextOrder(order: seq<Option<string>>, data: map<Option<string>, ClusterRecord>, id: Option<string>)
    : (r: seq<Option<string>>)
    ensures id in data ==> r == order
    ensures id !in data ==> r == order + [id]
  {
    if id in data then order else order + [id]
  }

  /** `Array.from(map.values())`. */
  function ValuesInOrder(data: map<Option<string>, ClusterRecord>, order: seq<Option<string>>): (r: seq<ClusterRecord>)
    requires forall id :: id in order ==> id in data
    ensures |r| == |order|
  {
    seq(|order|, i requires 0 <= i < |order| => data[order[i]])
  }

  /** The position of `id` among the keys. */
  function IndexOf(order: seq<Option<string>>, id: Option<string>): (i: nat)
    requires id in order
    ensures i < |order| && order[i] == id
  {
    if order[0] == id then 0 else 1 + IndexOf(order[1..], id)
  }

  /** Storing under any key keeps the keys distinct and in step with the map. */
  lemma RegistrySet(data: map<Option<string>, ClusterRecord>, order: seq<Option<string>>, id: Option<string>, rec: ClusterRecord)
    requires Registry(data, order)
    ensures Registry(data[id := rec], NextOrder(order, data, id))
  {
    var o := NextOrder(order, data, id);
    if id !in data {
      forall i, j | 0 <= i < j < |o| ensures o[i] != o[j] {
        if j == |order| {
          assert order[i] in order;
        }
      }
    }
  }

  /** Storing a record under a new key appends it to the list of all clusters. */
  lemma SetNewKeyAppends(data: map<Option<string>, ClusterRecord>, order: seq<Option<string>>, id: Option<string>, rec: ClusterRecord)
    requires Registry(data, order) && id !in data
    ensures ValuesInOrder(data[id := rec], order + [id]) == ValuesInOrder(data, order) + [rec]
  {
    var after := ValuesInOrder(data[id := rec], order + [id]);
    var before := ValuesInOrder(data, order);
    forall i | 0 <= i < |order| ensures after[i] == before[i] {
      assert order[i] in order;
    }
  }

  /** Storing a record under a key already present replaces that cluster where it stands. */
  lemma SetOldKeyReplaces(data: map<Option<string>, ClusterRecord>, order: seq<Option<string>>, id: Option<string>, rec: ClusterRecord)
    requires Registry(data, order) && id in data
    ensures ValuesInOrder(data[id := rec], order) == ValuesInOrder(data, order)[IndexOf(order, id) := rec]
  {
    var n := IndexOf(order, id);
    var after := ValuesInOrder(data[id := rec], order);
    var before := ValuesInOrder(data, order)[n := rec];
    forall i | 0 <= i < |order| ensures after[i] == before[i] {
      if i != n {
        assert order[i] != order[n] by {
          if i < n { assert order[i] != order[n]; } else { assert order[n] != order[i]; }
        }
      }
    }
  }

  /** Storing the same record twice leaves what storing it once left. */
  lemma SetTwiceIsSetOnce(data: map<Option<string>, ClusterRecord>, order: seq<Option<string>>, id: Option<string>, rec: ClusterRecord)
    ensures var d1 := data[id := rec];
      d1[id := rec] == d1 && NextOrder(NextOrder(order, data, id), d1, id) == NextOrder(order, data, id)
  {
  }

  /** MatterXMLParser: the clusters read so far. */
  class MatterXmlParser {
    var clusterData: map<Option<string>, ClusterRecord>
    /** The Map's iteration order. */
    var order: seq<Option<string>>

    ghost predicate Valid()
      reads this
    {
      Registry(clusterData, order)
    }

    constructor()
      ensures Valid() && clusterData == map[] && order == []
    {
      clusterData := map[];
      order := [];
    }

    /**
     * `parseClusterXML` on an already-parsed document: the error when the
     * document has no `cluster` element (nothing stored), else the record
     * of the first one, stored under its `id`.
     */
    method ParseClusterXml(doc: Node) returns (r: Result<ClusterRecord>)
      requires Valid()
      modifies this
      ensures Valid()
      ensures DocFirstByTag(doc, "cluster").None? ==>
        r == Failure("Invalid cluster XML") && clusterData == old(clusterData) && order == old(order)
      ensures DocFirstByTag(doc, "cluster").Some? ==>
        r == Success(ClusterOf(DocFirstByTag(doc, "cluster").value))
        && clusterData == old(clusterData)[r.value.id := r.value]
        && order == NextOrder(old(order), old(clusterData), r.value.id)
      ensures r.Success? ==> GetClusterInfo(r.value.id) == Some(r.value)
      ensures r.Success? && r.value.id !in old(clusterData) ==> AllClusters() == old(AllClusters()) + [r.value]
      ensures r.Success? && r.value.id in old(clusterData) ==>
        AllClusters() == old(AllClusters())[IndexOf(old(order), r.value.id) := r.value]
    {
      var found := DocFirstByTag(doc, "cluster");
      if found.None? {
        return Failure("Invalid cluster XML");
      }
      var cluster := found.value;
      var features := ParseFeatures(cluster);
      var dataTypes := ParseDataTypes(cluster);
      var attributes := ParseAttributes(cluster);
      var commands := ParseCommands(cluster);
      var info := ClusterRecord(Attr(cluster, "id"), Attr(cluster, "name"), Attr(cluster, "revision"),
        ClassificationOf(cluster), features, dataTypes, attributes, commands);
      RegistrySet(clusterData, order, info.id, info);
      if info.id in clusterData {
        SetOldKeyReplaces(clusterData, order, info.id, info);
      } else {
        SetNewKeyAppends(clusterData, order, info.id, info);
      }
      order := NextOrder(order, clusterData, info.id);
      clusterData := clusterData[info.id := info];
      r := Success(info);
    }

    /** `getClusterInfo(id)`: the stored record, None (undefined) when there is none. */
    function GetClusterInfo(id: Option<string>): (r: Option<ClusterRecord>)
      reads this
      ensures r.Some? <==> id in clusterData
      ensures r.Some? ==> r.value == clusterData[id]
    {
      if id in clusterData then Some(clusterData[id]) else None
    }

    /** `getAllClusters()`: every stored record, in the order their ids were first stored. */
    function AllClusters(): (r: seq<ClusterRecord>)
      reads this
      requires Valid()
      ensures |r| == |order| && forall i :: 0 <= i < |order| ==> r[i] == clusterData[order[i]]
    {
      ValuesInOrder(clusterData, order)
    }
  }
}
