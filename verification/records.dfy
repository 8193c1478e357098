/**
 * The definitions both extractors compute for each cluster element before
 * turning them into JSON objects, and the cluster header they share.
 */
module Records {
  import opened Wrappers
  import opened Text
  import opened Json
  import opened Xml

  /** Everything computed for one attribute; which parts reach the JSON is decided per implementation. */
  datatype AttributeDef = AttributeDef(
    code: string,
    typeName: string,
    mandatory: bool,
    description: string,
    reportable: bool,
    nullable: bool,
    featureDependent: Option<string>,
    defaultValue: Value,
    min: Value,
    max: Value,
    units: string,
    options: Option<seq<Value>>,
    permissions: seq<string>)

  datatype ArgumentDef = ArgumentDef(
    id: Value,
    name: string,
    typeName: string,
    min: Value,
    max: Value,
    options: Option<seq<Value>>)

  datatype CommandDef = CommandDef(
    id: string,
    mandatory: bool,
    description: string,
    arguments: seq<Value>,
    featureDependent: Option<string>)

  datatype FeatureDef = FeatureDef(code: string, name: string, summary: string, bit: Option<Value>)

  /** The top-level identity fields of the output document. */
  datatype ClusterInfo = ClusterInfo(
    id: string,
    clusterId: string,
    name: string,
    description: string,
    xmlSource: string)

  const SlugPrefix := "com.matter.cluster."

  /** The cluster's name and id as they stand after each step of the identity fallback chain. */
  datatype Identity = Identity(name: string, id: string)

  /** A name still to be looked up elsewhere. */
  predicate NameMissing(name: string) {
    name == "" || name == "Unknown"
  }

  /** An id still to be looked up elsewhere. */
  predicate IdMissing(id: string) {
    id == "" || id == "0x0000"
  }

  /** The permission list: always "read", then "write" when the attribute can be written. */
  function Permissions(write: bool): (p: seq<string>)
    ensures |p| >= 1 && p[0] == "read"
    ensures "write" in p <==> write
  {
    if write then ["read", "write"] else ["read"]
  }

  /** The header fields followed by `Capabilities`, as the spread `{...clusterInfo, Capabilities}` builds them. */
  function DocumentJson(info: ClusterInfo, capabilities: map<string, Value>): (v: Value)
    ensures v.Obj? && v.fields.Keys == {"id", "clusterId", "name", "schemaVersion", "description", "xmlSource", "Capabilities"}
    ensures v.fields["schemaVersion"] == Num(1) && v.fields["Capabilities"] == Obj(capabilities)
    ensures v.fields["id"] == Str(info.id) && v.fields["clusterId"] == Str(info.clusterId)
    ensures v.fields["name"] == Str(info.name) && v.fields["description"] == Str(info.description)
    ensures v.fields["xmlSource"] == Str(info.xmlSource)
  {
    Obj(map[
      "id" := Str(info.id),
      "clusterId" := Str(info.clusterId),
      "name" := Str(info.name),
      "schemaVersion" := Num(1),
      "description" := Str(info.description),
      "xmlSource" := Str(info.xmlSource),
      "Capabilities" := Obj(capabilities)])
  }

  /** The `Capabilities` object: each section only when it is non-empty. */
  function CapabilitiesJson(attributes: map<string, Value>, commands: map<string, Value>, features: map<string, Value>)
    : (c: map<string, Value>)
    ensures "Attributes" in c <==> |attributes| > 0
    ensures "Commands" in c <==> |commands| > 0
    ensures "Features" in c <==> |features| > 0
    ensures c.Keys <= {"Attributes", "Commands", "Features"}
    ensures "Attributes" in c ==> c["Attributes"] == Obj(attributes)
    ensures "Commands" in c ==> c["Commands"] == Obj(commands)
    ensures "Features" in c ==> c["Features"] == Obj(features)
  {
    var a := PutIf(map[], |attributes| > 0, "Attributes", Obj(attributes));
    var b := PutIf(a, |commands| > 0, "Commands", Obj(commands));
    PutIf(b, |features| > 0, "Features", Obj(features))
  }

  // ---------------------------------------------------------------------
  // Attribute reads and truthiness (JavaScript `||` / `if (s)`, Python `or` / `if s:`)
  // ---------------------------------------------------------------------

  /** An attribute read that is truthy: present and not "". */
  predicate Given(o: Option<string>) {
    o.Some? && o.value != ""
  }

  /** `a || b` (`a or b`) on two attribute reads. */
  function Or(a: Option<string>, b: Option<string>): (r: Option<string>)
    ensures Given(a) ==> r == a
    ensures !Given(a) ==> r == b
  {
    if Given(a) then a else b
  }

  /** `a || d` (`a or d`) with a string fallback. */
  function OrElse(a: Option<string>, d: string): (r: string)
    ensures Given(a) ==> r == a.value
    ensures !Given(a) ==> r == d
  {
    if Given(a) then a.value else d
  }

  /** `s?.toLowerCase() === 'true'` / `get(k, 'false').lower() == 'true'`. */
  predicate IsTrue(o: Option<string>) {
    o.Some? && Lower(o.value) == "true"
  }

  // ---------------------------------------------------------------------
  // Type names
  // ---------------------------------------------------------------------

  /** A type read as an integer: its name contains `int` (or `uint`). */
  predicate IsIntType(t: string) {
    Contains(t, "int") || Contains(t, "uint")
  }

  /** The boolean type names are not integer types. */
  lemma BoolIsNotInt()
    ensures !IsIntType("bool") && !IsIntType("boolean")
  {
    LacksFirst("bool", "int");
    LacksFirst("bool", "uint");
    LacksFirst("boolean", "int");
    LacksFirst("boolean", "uint");
  }

  /** An enumerated attribute type: `enum` in its lower-cased name, or `Enum` in its name. */
  predicate IsEnumType(t: string) {
    Contains(Lower(t), "enum") || Contains(t, "Enum")
  }

  /** An argument type with options: an enum type, or `Bitmap` in its name. */
  predicate IsArgEnumType(t: string) {
    IsEnumType(t) || Contains(t, "Bitmap")
  }

  /** An argument (or command) is read only when it has a truthy `name`. */
  predicate HasName(e: Node) {
    Given(Attr(e, "name"))
  }

  /** `parts` are the `_`-separated words of `d`. */
  predicate WordsOf(parts: seq<string>, d: string) {
    Join(parts, '_') == d && forall k :: 0 <= k < |parts| ==> '_' !in parts[k]
  }

  /** A `define` split on `_`, each part capitalised, concatenated (SPEED_MAX gives SpeedMax). */
  function CamelFromDefine(d: string): (r: string)
    ensures forall i :: 0 <= i < |r| ==> r[i] != '_'
    ensures exists parts :: WordsOf(parts, d) && r == Concat(CapitalizeAll(parts))
  {
    var parts := Split(d, '_');
    SplitJoin(d, '_');
    var caps := CapitalizeAll(parts);
    forall k | 0 <= k < |caps| ensures '_' !in caps[k] {
      assert '_' !in parts[k];
      assert forall i :: 0 <= i < |caps[k]| ==> caps[k][i] != '_';
    }
    ConcatLacks(caps, '_');
    Concat(caps)
  }

  // ---------------------------------------------------------------------
  // JSON objects shared by both generators
  // ---------------------------------------------------------------------

  function StrArr(ss: seq<string>): (v: Value)
    ensures v.Arr? && |v.items| == |ss| && forall i :: 0 <= i < |ss| ==> v.items[i] == Str(ss[i])
  {
    Arr(seq(|ss|, i requires 0 <= i < |ss| => Str(ss[i])))
  }

  /** The keys every attribute object has. */
  function FixedKeys(d: AttributeDef): (m: map<string, Value>)
    ensures m.Keys == {"code", "type", "mandatory", "description", "permissions"}
    ensures m["permissions"] == StrArr(d.permissions) && m["type"] == Str(d.typeName)
    ensures m["mandatory"] == Bool(d.mandatory) && m["code"] == Str(d.code)
    ensures m["description"] == Str(d.description)
  {
    map["code" := Str(d.code), "type" := Str(d.typeName), "mandatory" := Bool(d.mandatory),
        "description" := Str(d.description), "permissions" := StrArr(d.permissions)]
  }

  /** The flag keys, each present only when it holds; `default` unless it is null (None). */
  function FlagKeys(d: AttributeDef): (m: map<string, Value>)
    ensures m.Keys <= {"reportable", "nullable", "featureDependent", "default"}
    ensures "reportable" in m <==> d.reportable
    ensures "nullable" in m <==> d.nullable
    ensures "featureDependent" in m <==> Given(d.featureDependent)
    ensures "default" in m <==> d.defaultValue != Null
    ensures "default" in m ==> m["default"] == d.defaultValue
    ensures "reportable" in m ==> m["reportable"] == Bool(true)
    ensures "nullable" in m ==> m["nullable"] == Bool(true)
    ensures "featureDependent" in m ==> m["featureDependent"] == Str(d.featureDependent.value)
  {
    var m1 := if d.reportable then map["reportable" := Bool(true)] else map[];
    var m2 := if d.nullable then m1["nullable" := Bool(true)] else m1;
    var m3 := if Given(d.featureDependent) then m2["featureDependent" := Str(d.featureDependent.value)] else m2;
    if d.defaultValue != Null then m3["default" := d.defaultValue] else m3
  }

  /** The range keys appear in the attribute object exactly as the range part has them, whatever the fixed and flag parts hold. */
  lemma RangeAfterFlags(fixed: map<string, Value>, flags: map<string, Value>, range: map<string, Value>)
    requires fixed.Keys == {"code", "type", "mandatory", "description", "permissions"}
    requires flags.Keys <= {"reportable", "nullable", "featureDependent", "default"}
    ensures var m := fixed + flags + range;
      fixed.Keys <= m.Keys
      && forall k :: k in {"min", "max", "units", "options"} ==> (k in m <==> k in range) && (k in range ==> m[k] == range[k])
  {
  }

  /** The command's JSON object: `arguments` only when an argument was accepted. */
  function CommandJson(c: CommandDef): (m: map<string, Value>)
    ensures m.Keys >= {"id", "mandatory", "description"}
    ensures m.Keys <= {"id", "mandatory", "description", "arguments", "featureDependent"}
    ensures m["id"] == Str(c.id) && m["mandatory"] == Bool(c.mandatory) && m["description"] == Str(c.description)
    ensures "arguments" in m <==> |c.arguments| > 0
    ensures "arguments" in m ==> m["arguments"] == Arr(c.arguments)
    ensures "featureDependent" in m <==> Given(c.featureDependent)
    ensures "featureDependent" in m ==> m["featureDependent"] == Str(c.featureDependent.value)
  {
    var m0 := map["id" := Str(c.id), "mandatory" := Bool(c.mandatory), "description" := Str(c.description)];
    var m1 := PutIf(m0, |c.arguments| > 0, "arguments", Arr(c.arguments));
    PutIf(m1, Given(c.featureDependent), "featureDependent", OptStr(c.featureDependent))
  }

  /** The feature object: code, name and summary, and `bit` when one was read. */
  function FeatureJson(d: FeatureDef): (m: map<string, Value>)
    ensures m.Keys >= {"code", "name", "summary"} && m.Keys <= {"code", "name", "summary", "bit"}
    ensures m["code"] == Str(d.code) && m["name"] == Str(d.name) && m["summary"] == Str(d.summary)
    ensures "bit" in m <==> d.bit.Some?
    ensures "bit" in m ==> m["bit"] == d.bit.value
  {
    var m0 := map["code" := Str(d.code), "name" := Str(d.name), "summary" := Str(d.summary)];
    PutIf(m0, d.bit.Some?, "bit", if d.bit.Some? then d.bit.value else Null)
  }
}
