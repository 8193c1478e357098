/**
 * The Python capabilities generator (scripts/generate_matter_cluster_json.py):
 * the same output document as the JavaScript generator, read through
 * ElementTree's direct-child queries (`find`, `findall`, `a/b`) and Python's
 * `int()`, which raises ValueError where `parseInt` would give NaN. Most of
 * those errors are caught and the text kept; the one on an argument `id` is
 * not, and ends the whole run.
 */
module CapabilitiesPy {
  import opened Wrappers
  import opened Text
  import opened Numbers
  import opened Xml
  import opened Json
  import opened Keyed
  import opened Records
  import opened Filtering

  // ---------------------------------------------------------------------
  // Type names, numbers and codes
  // ---------------------------------------------------------------------

  /** The renamings of the Python `if`/`elif` chain: only five names. */
  const PyTypeRenames: map<string, string> := map[
    "boolean" := "bool",
    "int16u" := "uint16",
    "int8u" := "uint8",
    "int16s" := "int16",
    "int8s" := "int8"]

  /** `attr_type or 'unknown'`, then the five renamings; every other name is kept. */
  function NormalizeTypePy(t: Option<string>): (r: string)
    ensures r != ""
    ensures !Given(t) ==> r == "unknown"
    ensures Given(t) ==> (r != t.value <==> t.value in PyTypeRenames)
    ensures Given(t) && t.value in PyTypeRenames ==> r == PyTypeRenames[t.value]
  {
    if !Given(t) then "unknown"
    else if t.value in PyTypeRenames then PyTypeRenames[t.value]
    else t.value
  }

  /** Normalising a normalised type changes nothing. */
  lemma NormalizeTypePyIdempotent(t: Option<string>)
    ensures NormalizeTypePy(Some(NormalizeTypePy(t))) == NormalizeTypePy(t)
  {
    var r := NormalizeTypePy(t);
    assert r !in PyTypeRenames;
  }

  /** `int(s, 16) if s.startswith('0x') else int(s)`; None where `int()` raises ValueError. */
  function PyNumber(s: string): Option<int> {
    PyInt(s, if StartsWith(s, "0x") then Base16 else Base10)
  }

  /** A decimal digit string reads as its value. */
  lemma PyNumberDecimal(d: string)
    requires IsDecimal(d)
    ensures PyNumber(d) == Some(ValueOf(d, 10))
  {
    DecimalNotHex(d);
    PyIntDecimal(d);
  }

  /** `0x` and hex digits read as their hexadecimal value. */
  lemma PyNumberHex(d: string)
    requires |d| >= 1 && AllDigits(d, 16)
    ensures PyNumber("0x" + d) == Some(ValueOf(d, 16))
  {
    assert StartsWith("0x" + d, "0x");
    PyReadHex(d);
  }

  /** The empty string is not a number. */
  lemma PyNumberEmpty()
    ensures PyNumber("") == None
  {
    assert !StartsWith("", "0x");
    assert PyStrip("") == "" && Unsigned("") == "";
    assert !PyDigitsValid("", 10, false);
    assert PyMagnitude("", Base10) == None;
  }

  /**
   * An id as the three formatters leave it: "" and `0x` ids unchanged;
   * otherwise `f"0x{int(id):0<width>X}"`, or `0x` + id when `int()` raises.
   */
  function HexIdPy(id: string, width: nat): (r: string)
    ensures id != "" ==> StartsWith(r, "0x")
    ensures id == "" || StartsWith(id, "0x") ==> r == id
  {
    if id == "" || StartsWith(id, "0x") then id
    else
      match PyInt(id, Base10)
      case Some(n) => "0x" + PyHex(n, width)
      case None => "0x" + id
  }

  /** An attribute code (width 4) or a command id (width 2): `code or '0x00…'`, then HexIdPy. */
  function FormatCodePy(code: Option<string>, width: nat): (r: string)
    ensures StartsWith(r, "0x")
    ensures !Given(code) ==> r == "0x" + Repeat('0', width)
    ensures Given(code) && StartsWith(code.value, "0x") ==> r == code.value
  {
    HexIdPy(OrElse(code, "0x" + Repeat('0', width)), width)
  }

  /** A decimal id is written as zero-padded upper-case hex, which `int(…, 16)` reads back to the same number. */
  lemma HexIdPyRoundTrip(s: string, width: nat)
    requires IsDecimal(s)
    ensures HexIdPy(s, width) == "0x" + PaddedHex(ValueOf(s, 10), width)
    ensures PyInt(HexIdPy(s, width), Base16) == Some(ValueOf(s, 10))
  {
    DecimalNotHex(s);
    PyIntDecimal(s);
    var h := PaddedHex(ValueOf(s, 10), width);
    assert HexIdPy(s, width) == "0x" + h;
    PyHexRoundTrip(ValueOf(s, 10), width);
  }

  /** A non-empty id that is neither `0x`-prefixed nor an integer is kept behind a `0x` prefix. */
  lemma HexIdPyNotNumber(s: string, width: nat)
    requires s != "" && !StartsWith(s, "0x") && PyInt(s, Base10).None?
    ensures HexIdPy(s, width) == "0x" + s
  {
  }

  /** A truthy text that `int()` accepts becomes its number; any other text, "" included, is kept; None stays None. */
  function IntOrKeep(o: Option<string>): (v: Value)
    ensures o.None? <==> v == Null
    ensures o.Some? && PyNumber(o.value).Some? ==> v == Num(PyNumber(o.value).value)
    ensures o.Some? && PyNumber(o.value).None? ==> v == Str(o.value)
  {
    PyNumberEmpty();
    match o
    case None => Null
    case Some(s) =>
      if s == "" then Str(s)
      else
        match PyNumber(s)
        case Some(n) => Num(n)
        case None => Str(s)
  }

  // ---------------------------------------------------------------------
  // Attributes
  // ---------------------------------------------------------------------

  /** The resolved name, and whether the `description` child supplied it. */
  datatype NameChoice = NameChoice(name: string, fromDescription: bool)

  /** The name chain: `name`, the element's own stripped text, the `description` child's stripped text, then `define`. */
  function NamePy(attr: Node): (c: NameChoice)
    ensures Given(Attr(attr, "name")) ==> c == NameChoice(Attr(attr, "name").value, false)
    ensures c.fromDescription ==>
      !Given(Attr(attr, "name")) && PyStrip(PyText(attr).GetOr("")) == ""
      && Find(attr, "description").Some? && PyText(Find(attr, "description").value).Some?
    ensures !Given(Attr(attr, "name")) && PyStrip(PyText(attr).GetOr("")) != "" ==>
      c == NameChoice(PyStrip(PyText(attr).GetOr("")), false)
    ensures !Given(Attr(attr, "name")) && PyStrip(PyText(attr).GetOr("")) == "" && DescriptionTextPy(attr).Some? ==>
      c == NameChoice(PyStrip(DescriptionTextPy(attr).value), true)
    ensures !Given(Attr(attr, "name")) && PyStrip(PyText(attr).GetOr("")) == "" && DescriptionTextPy(attr).None? ==>
      c == DefineName(attr)
  {
    var n := Attr(attr, "name");
    if Given(n) then NameChoice(n.value, false)
    else
      var text := PyStrip(PyText(attr).GetOr(""));
      if text != "" then NameChoice(text, false)
      else
        match Find(attr, "description")
        case Some(d) =>
          if PyText(d).Some? then NameChoice(PyStrip(PyText(d).value), true) else DefineName(attr)
        case None => DefineName(attr)
  }

  /** The `.text` of the first `description` child, when there is such a child and it has text. */
  function DescriptionTextPy(e: Node): (r: Option<string>)
    ensures r.Some? <==> Find(e, "description").Some? && PyText(Find(e, "description").value).Some?
    ensures r.Some? ==> r == PyText(Find(e, "description").value)
  {
    match Find(e, "description")
    case Some(d) => PyText(d)
    case None => None
  }

  /** The last link of the name chain: `define` in camel case, or no name. */
  function DefineName(attr: Node): (c: NameChoice)
    ensures !c.fromDescription
    ensures Given(Attr(attr, "define")) ==> c.name == CamelFromDefine(Attr(attr, "define").value)
    ensures !Given(Attr(attr, "define")) ==> c.name == ""
  {
    var d := Attr(attr, "define");
    if Given(d) then NameChoice(CamelFromDefine(d.value), false)
    else NameChoice("", false)
  }

  /** A value read from an attribute or, when that is falsy, from the child element's text when it has some. */
  function AttrOrChildText(e: Node, key: string): (r: Option<string>)
    ensures Given(Attr(e, key)) ==> r == Attr(e, key)
    ensures Given(r) ==> Given(Attr(e, key)) || (Find(e, key).Some? && r == PyText(Find(e, key).value))
    ensures !Given(Attr(e, key)) && Find(e, key).Some? && PyText(Find(e, key).value).Some? ==>
      r == PyText(Find(e, key).value)
    ensures !Given(Attr(e, key)) && !(Find(e, key).Some? && PyText(Find(e, key).value).Some?) ==> r == Attr(e, key)
  {
    var a := Attr(e, key);
    if Given(a) then a
    else
      match Find(e, key)
      case Some(c) => if PyText(c).Some? then PyText(c) else a
      case None => a
  }

  /** The default's text: the truthy `default` attribute, else the `default` child's `.text`. */
  function DefaultTextPy(attr: Node): (r: Option<string>)
    ensures Given(Attr(attr, "default")) ==> r == Attr(attr, "default")
    ensures !Given(Attr(attr, "default")) && Find(attr, "default").Some? ==> r == PyText(Find(attr, "default").value)
    ensures !Given(Attr(attr, "default")) && Find(attr, "default").None? ==> r == Attr(attr, "default")
  {
    var a := Attr(attr, "default");
    if Given(a) then a
    else
      match Find(attr, "default")
      case Some(de) => PyText(de)
      case None => a
  }

  /** A truthy default converted for type `t`: a boolean for bool types, an `int()` number for integer types (the text when it raises), else the text. */
  function ConvertDefaultPy(v: string, t: string): (r: Value)
    ensures r.Bool? <==> t == "bool" || t == "boolean"
    ensures r.Num? ==> IsIntType(t) && PyNumber(v) == Some(r.n)
    ensures r.Str? ==> r.s == v
    ensures r.Bool? ==> r.b == (Lower(v) in ["true", "1", "yes"])
    ensures t != "bool" && t != "boolean" && IsIntType(t) ==> (r.Num? <==> PyNumber(v).Some?)
    ensures t != "bool" && t != "boolean" && !IsIntType(t) ==> r == Str(v)
  {
    if t == "bool" || t == "boolean" then Bool(Lower(v) == "true" || Lower(v) == "1" || Lower(v) == "yes")
    else if IsIntType(t) then
      match PyNumber(v)
      case Some(n) => Num(n)
      case None => Str(v)
    else Str(v)
  }

  /** The default value: only a truthy text is converted; otherwise there is none. */
  function DefaultPy(attr: Node, t: string): (v: Value)
    ensures v == Null <==> !Given(DefaultTextPy(attr))
    ensures Given(DefaultTextPy(attr)) ==> v == ConvertDefaultPy(DefaultTextPy(attr).value, t)
  {
    var s := DefaultTextPy(attr);
    if Given(s) then ConvertDefaultPy(s.value, t) else Null
  }

  /** For bool types a default is true exactly for "true", "1" and "yes", in any case. */
  lemma DefaultBoolPy(v: string)
    requires v != ""
    ensures ConvertDefaultPy(v, "bool") == Bool(Lower(v) in ["true", "1", "yes"])
  {
  }

  /** For integer types a decimal default becomes its number. */
  lemma DefaultDecimalPy(d: string, t: string)
    requires IsIntType(t) && IsDecimal(d)
    ensures ConvertDefaultPy(d, t) == Num(ValueOf(d, 10))
  {
    BoolIsNotInt();
    PyNumberDecimal(d);
  }

  /** For integer types a `0x` hex default becomes its hexadecimal value. */
  lemma DefaultHexPy(d: string, t: string)
    requires IsIntType(t) && |d| >= 1 && AllDigits(d, 16)
    ensures ConvertDefaultPy("0x" + d, t) == Num(ValueOf(d, 16))
  {
    BoolIsNotInt();
    PyNumberHex(d);
  }

  /** The option names and their integer values, in order. */
  datatype PyOptionTable = PyOptionTable(names: seq<string>, values: seq<int>)

  /** The `options` list: `{name: value}` for each option, in order. */
  function PyEntries(t: PyOptionTable): (r: seq<Value>)
    requires |t.names| == |t.values|
    ensures |r| == |t.names|
    ensures forall i :: 0 <= i < |r| ==> r[i] == Obj(map[t.names[i] := Num(t.values[i])])
  {
    seq(|t.names|, i requires 0 <= i < |t.names| => Obj(map[t.names[i] := Num(t.values[i])]))
  }

  /** One option per element with a truthy name and a value `int()` accepts; the others are skipped. */
  function ItemTablePy(items: seq<Node>, nameKey: string, valueKey: string): (t: PyOptionTable)
    ensures |t.names| == |t.values| <= |items|
    decreases |items|
  {
    if items == [] then PyOptionTable([], [])
    else
      var t := ItemTablePy(items[..|items| - 1], nameKey, valueKey);
      var it := items[|items| - 1];
      var n := Attr(it, nameKey);
      var v := Attr(it, valueKey);
      if Given(n) && Given(v) then
        match PyNumber(v.value)
        case Some(x) => PyOptionTable(t.names + [n.value], t.values + [x])
        case None => t
      else t
  }

  /** Element `it` has the truthy name `name` and a value text that `int()` reads as `value`. */
  predicate ReadsAs(it: Node, nameKey: string, valueKey: string, name: string, value: int) {
    Given(Attr(it, nameKey)) && Attr(it, nameKey).value == name
    && Given(Attr(it, valueKey)) && PyNumber(Attr(it, valueKey).value) == Some(value)
  }

  /** Every option of `t` is the name and the `int()` value of some element of `items`. */
  predicate ReadFrom(t: PyOptionTable, items: seq<Node>, nameKey: string, valueKey: string)
    requires |t.names| == |t.values|
  {
    forall k :: 0 <= k < |t.values| ==>
      exists i :: 0 <= i < |items| && ReadsAs(items[i], nameKey, valueKey, t.names[k], t.values[k])
  }

  /**
   * One step of the item loop: an element that yields an option appends its name
   * and value to the table; any other element leaves the table as it was.
   */
  lemma ItemTablePyStep(items: seq<Node>, nameKey: string, valueKey: string)
    requires items != []
    ensures var t0 := ItemTablePy(items[..|items| - 1], nameKey, valueKey);
            var t := ItemTablePy(items, nameKey, valueKey);
            !ItemKeptPy(nameKey, valueKey)(items[|items| - 1]) ==> t == t0
    ensures var t0 := ItemTablePy(items[..|items| - 1], nameKey, valueKey);
            var t := ItemTablePy(items, nameKey, valueKey);
            ItemKeptPy(nameKey, valueKey)(items[|items| - 1]) ==>
              && t.names[..|t0.names|] == t0.names && t.values[..|t0.values|] == t0.values
              && |t.values| == |t0.values| + 1
              && ReadsAs(items[|items| - 1], nameKey, valueKey, t.names[|t0.names|], t.values[|t0.values|])
  {
  }

  /** The option table holds only options read from its elements. */
  lemma {:induction false} ItemTablePyValues(items: seq<Node>, nameKey: string, valueKey: string)
    ensures ReadFrom(ItemTablePy(items, nameKey, valueKey), items, nameKey, valueKey)
    decreases |items|
  {
    if items != [] {
      var init := items[..|items| - 1];
      ItemTablePyValues(init, nameKey, valueKey);
      ItemTablePyStep(items, nameKey, valueKey);
      var t0 := ItemTablePy(init, nameKey, valueKey);
      var t := ItemTablePy(items, nameKey, valueKey);
      forall k | 0 <= k < |t.values|
        ensures exists i :: 0 <= i < |items| && ReadsAs(items[i], nameKey, valueKey, t.names[k], t.values[k])
      {
        if k < |t0.values| {
          var i :| 0 <= i < |init| && ReadsAs(init[i], nameKey, valueKey, t0.names[k], t0.values[k]);
          assert items[i] == init[i];
          assert t.names[k] == t0.names[k] && t.values[k] == t0.values[k];
        } else {
          assert ReadsAs(items[|items| - 1], nameKey, valueKey, t.names[k], t.values[k]);
        }
      }
    }
  }

  /** An item yields an option exactly when its name and value are truthy and `int()` accepts the value. */
  function ItemKeptPy(nameKey: string, valueKey: string): Node -> bool {
    it => Given(Attr(it, nameKey)) && Given(Attr(it, valueKey)) && PyNumber(Attr(it, valueKey).value).Some?
  }

  /** The table's j-th option comes from the j-th item that yields one, in document order. */
  lemma {:induction false} ItemTablePyRows(items: seq<Node>, nameKey: string, valueKey: string)
    ensures var kept := Filter(items, ItemKeptPy(nameKey, valueKey));
      forall j :: 0 <= j < |kept| ==>
        Given(Attr(kept[j], nameKey)) && Given(Attr(kept[j], valueKey)) && PyNumber(Attr(kept[j], valueKey).value).Some?
    ensures var t := ItemTablePy(items, nameKey, valueKey);
      var kept := Filter(items, ItemKeptPy(nameKey, valueKey));
      |t.names| == |kept| &&
      forall j :: 0 <= j < |kept| ==>
        t.names[j] == Attr(kept[j], nameKey).value && t.values[j] == PyNumber(Attr(kept[j], valueKey).value).value
    decreases |items|
  {
    var keep := ItemKeptPy(nameKey, valueKey);
    var kept := Filter(items, keep);
    assert forall j :: 0 <= j < |kept| ==> kept[j] in kept;
    if items != [] {
      var init := items[..|items| - 1];
      var x := items[|items| - 1];
      ItemTablePyRows(init, nameKey, valueKey);
      var t0 := ItemTablePy(init, nameKey, valueKey);
      if keep(x) {
        assert kept == Filter(init, keep) + [x];
        assert ItemTablePy(items, nameKey, valueKey)
          == PyOptionTable(t0.names + [Attr(x, nameKey).value], t0.values + [PyNumber(Attr(x, valueKey).value).value]);
      } else {
        assert kept == Filter(init, keep);
        assert ItemTablePy(items, nameKey, valueKey) == t0;
      }
    }
  }

  /** Python `min(vs)`. */
  function PyMin(vs: seq<int>): (r: int)
    requires |vs| > 0
    ensures r in vs && forall x :: x in vs ==> r <= x
    decreases |vs|
  {
    if |vs| == 1 then vs[0]
    else
      var m := PyMin(vs[1..]);
      assert forall x :: x in vs <==> x == vs[0] || x in vs[1..];
      if vs[0] <= m then vs[0] else m
  }

  /** Python `max(vs)`. */
  function PyMax(vs: seq<int>): (r: int)
    requires |vs| > 0
    ensures r in vs && forall x :: x in vs ==> x <= r
    decreases |vs|
  {
    if |vs| == 1 then vs[0]
    else
      var m := PyMax(vs[1..]);
      assert forall x :: x in vs <==> x == vs[0] || x in vs[1..];
      if vs[0] >= m then vs[0] else m
  }

  /** A falsy bound (None, "" or 0) is replaced by the least (or greatest) option value when there is one. */
  function EnumBoundPy(b: Value, table: Option<PyOptionTable>, lower: bool): (r: Value)
    ensures table.None? || |table.value.values| == 0 || Truthy(b) ==> r == b
    ensures table.Some? && |table.value.values| > 0 && !Truthy(b) ==>
      r == Num(if lower then PyMin(table.value.values) else PyMax(table.value.values))
  {
    if table.Some? && |table.value.values| > 0 && !Truthy(b) then
      Num(if lower then PyMin(table.value.values) else PyMax(table.value.values))
    else b
  }

  /** For a raw type naming an enum: the items of the first `enum` below the root with that name (none when there is no such enum). */
  function EnumTablePy(root: Node, rawType: Option<string>): (r: Option<PyOptionTable>)
    ensures r.Some? <==> Given(rawType) && IsEnumType(rawType.value)
    ensures r.Some? ==> |r.value.names| == |r.value.values|
    ensures r.Some? && FindNamed(root, "enum", rawType.value).Some? ==>
      r.value == ItemTablePy(FindAll(FindNamed(root, "enum", rawType.value).value, "item"), "name", "value")
    ensures r.Some? && FindNamed(root, "enum", rawType.value).None? ==> r.value == PyOptionTable([], [])
  {
    if !(Given(rawType) && IsEnumType(rawType.value)) then None
    else
      match FindNamed(root, "enum", rawType.value)
      case Some(e) => Some(ItemTablePy(FindAll(e, "item"), "name", "value"))
      case None => Some(PyOptionTable([], []))
  }

  /** The unit: `unit` attribute or child text, else inferred from the name and type; "" for none. */
  function UnitsPy(attr: Node, name: string, t: string): (r: string)
    ensures Given(AttrOrChildText(attr, "unit")) ==> r == AttrOrChildText(attr, "unit").value
    ensures !Given(AttrOrChildText(attr, "unit")) ==>
      r == if Contains(name, "Time") && t in ["uint16", "int16"] then "0.1s"
           else if Contains(name, "Level") && t in ["uint8", "int8"] then "%"
           else ""
  {
    var given := AttrOrChildText(attr, "unit");
    if Given(given) then given.value
    else if Contains(name, "Time") && t in ["uint16", "int16"] then "0.1s"
    else if Contains(name, "Level") && t in ["uint8", "int8"] then "%"
    else ""
  }

  /**
   * The description: the `description` attribute, replaced by the child's
   * stripped text unless that child already gave the name; `<name> attribute`
   * when still empty.
   */
  function DescriptionPy(attr: Node, c: NameChoice): (r: string)
    ensures r != ""
    ensures c.fromDescription || DescriptionTextPy(attr).None? ==>
      r == (if Given(Attr(attr, "description")) then Attr(attr, "description").value else c.name + " attribute")
    ensures !c.fromDescription && DescriptionTextPy(attr).Some? ==>
      r == (if PyStrip(DescriptionTextPy(attr).value) != "" then PyStrip(DescriptionTextPy(attr).value) else c.name + " attribute")
  {
    var d := Attr(attr, "description").GetOr("");
    var d2 :=
      if c.fromDescription then d
      else
        match DescriptionTextPy(attr)
        case Some(text) => PyStrip(text)
        case None => d;
    if d2 == "" then c.name + " attribute" else d2
  }

  /** The `name` of the first `feature` below the `mandatoryConform` child. */
  function FeatureDepPy(e: Node): (r: Option<string>)
    ensures Find(e, "mandatoryConform").None? ==> r.None?
    ensures Find(e, "mandatoryConform").Some? && FirstByTag(Find(e, "mandatoryConform").value, "feature").None? ==> r.None?
    ensures Find(e, "mandatoryConform").Some? && FirstByTag(Find(e, "mandatoryConform").value, "feature").Some? ==>
      r == Attr(FirstByTag(Find(e, "mandatoryConform").value, "feature").value, "name")
  {
    match Find(e, "mandatoryConform")
    case None => None
    case Some(mc) =>
      match FirstByTag(mc, "feature")
      case None => None
      case Some(f) => Attr(f, "name")
  }

  /** Everything `parse_xml_attributes` computes for an attribute with a name. */
  function AttributeRecordPy(attr: Node, c: NameChoice, root: Node): (d: AttributeDef)
    ensures d.typeName == NormalizeTypePy(Attr(attr, "type"))
    ensures d.mandatory <==> !IsTrue(Attr(attr, "optional"))
    ensures d.reportable <==> Attr(attr, "side") == Some("server")
    ensures d.nullable <==> IsTrue(Attr(attr, "isNullable")) || IsTrue(Attr(attr, "nullable"))
    ensures d.options.Some? <==> Given(Attr(attr, "type")) && IsEnumType(Attr(attr, "type").value)
    ensures d.permissions == Permissions(IsTrue(Attr(attr, "writable")) || Attr(attr, "side") == Some("server"))
    ensures d.code == FormatCodePy(Or(Attr(attr, "code"), Attr(attr, "id")), 4)
    ensures d.description == DescriptionPy(attr, c)
    ensures d.units == UnitsPy(attr, c.name, d.typeName) && d.featureDependent == FeatureDepPy(attr)
    ensures d.defaultValue == DefaultPy(attr, d.typeName)
  {
    var t := NormalizeTypePy(Attr(attr, "type"));
    AttributeRecordPyWith(attr, c, t, DefaultPy(attr, t), EnumTablePy(root, Attr(attr, "type")))
  }

  /** The attribute record once its type, default value and option table are known. */
  function AttributeRecordPyWith(attr: Node, c: NameChoice, t: string, defaultValue: Value, table: Option<PyOptionTable>)
    : (d: AttributeDef)
    requires table.Some? ==> |table.value.names| == |table.value.values|
    ensures d.typeName == t && d.defaultValue == defaultValue
    ensures d.options.Some? <==> table.Some?
    ensures table.Some? ==> d.options.value == PyEntries(table.value)
    ensures d.code == FormatCodePy(Or(Attr(attr, "code"), Attr(attr, "id")), 4)
    ensures d.description == DescriptionPy(attr, c)
    ensures d.units == UnitsPy(attr, c.name, t) && d.featureDependent == FeatureDepPy(attr)
    ensures d.min == EnumBoundPy(IntOrKeep(AttrOrChildText(attr, "min")), table, true)
    ensures d.max == EnumBoundPy(IntOrKeep(AttrOrChildText(attr, "max")), table, false)
  {
    AttributeDef(
      code := FormatCodePy(Or(Attr(attr, "code"), Attr(attr, "id")), 4),
      typeName := t,
      mandatory := !IsTrue(Attr(attr, "optional")),
      description := DescriptionPy(attr, c),
      reportable := Attr(attr, "side") == Some("server"),
      nullable := IsTrue(Attr(attr, "isNullable")) || IsTrue(Attr(attr, "nullable")),
      featureDependent := FeatureDepPy(attr),
      defaultValue := defaultValue,
      min := EnumBoundPy(IntOrKeep(AttrOrChildText(attr, "min")), table, true),
      max := EnumBoundPy(IntOrKeep(AttrOrChildText(attr, "max")), table, false),
      units := UnitsPy(attr, c.name, t),
      options := if table.Some? then Some(PyEntries(table.value)) else None,
      permissions := Permissions(IsTrue(Attr(attr, "writable")) || Attr(attr, "side") == Some("server")))
  }

  /** The range keys: no `min`/`max` for bool types nor for None bounds ("" is written); `options` only when non-empty. */
  function RangeKeysPy(d: AttributeDef): (m: map<string, Value>)
    ensures m.Keys <= {"min", "max", "units", "options"}
    ensures "min" in m <==> d.typeName != "bool" && d.typeName != "boolean" && d.min != Null
    ensures "max" in m <==> d.typeName != "bool" && d.typeName != "boolean" && d.max != Null
    ensures "min" in m ==> m["min"] == d.min
    ensures "max" in m ==> m["max"] == d.max
    ensures "units" in m <==> d.units != ""
    ensures "options" in m <==> d.options.Some? && |d.options.value| > 0
    ensures "options" in m ==> m["options"] == Arr(d.options.value)
  {
    var bounded := d.typeName != "bool" && d.typeName != "boolean";
    var m1 := if bounded && d.min != Null then map["min" := d.min] else map[];
    var m2 := if bounded && d.max != Null then m1["max" := d.max] else m1;
    var m3 := if d.units != "" then m2["units" := Str(d.units)] else m2;
    if d.options.Some? && |d.options.value| > 0 then m3["options" := Arr(d.options.value)] else m3
  }

  /**
   * The attribute's dict: five keys always; `min`/`max` for a non-bool type
   * and a bound that is not None; `options` only for a non-empty list.
   */
  function AttributeJsonPy(d: AttributeDef): (m: map<string, Value>)
    ensures {"code", "type", "mandatory", "description", "permissions"} <= m.Keys
    ensures "min" in m <==> d.typeName != "bool" && d.typeName != "boolean" && d.min != Null
    ensures "max" in m <==> d.typeName != "bool" && d.typeName != "boolean" && d.max != Null
    ensures "min" in m ==> m["min"] == d.min
    ensures "max" in m ==> m["max"] == d.max
    ensures "options" in m <==> d.options.Some? && |d.options.value| > 0
    ensures "options" in m ==> m["options"] == Arr(d.options.value)
  {
    var fixed := FixedKeys(d);
    var flags := FlagKeys(d);
    var range := RangeKeysPy(d);
    RangeAfterFlags(fixed, flags, range);
    fixed + flags + range
  }

  /** The entry `attributes[attr_name] = attr_def`, or none for an attribute without a name. */
  function AttributeEntryPy(attr: Node, root: Node): (e: Option<Entry>)
    ensures e.Some? <==> NamePy(attr).name != ""
    ensures e.Some? ==> e.value.key == NamePy(attr).name
  {
    var c := NamePy(attr);
    if c.name == "" then None else Some(Entry(c.name, Obj(AttributeJsonPy(AttributeRecordPy(attr, c, root)))))
  }

  /** `findall('attribute') + findall('attributes/attribute')`: direct children, then those of each `attributes` child. */
  function AttributeElementsPy(cluster: Node): seq<Node> {
    FindAll(cluster, "attribute") + FindAllPath(cluster, "attributes", "attribute")
  }

  function AttributeEntriesPy(elems: seq<Node>, root: Node): (es: seq<Option<Entry>>)
    ensures |es| == |elems| && forall i :: 0 <= i < |elems| ==> es[i] == AttributeEntryPy(elems[i], root)
  {
    seq(|elems|, i requires 0 <= i < |elems| => AttributeEntryPy(elems[i], root))
  }

  /** `parse_xml_attributes(root)` on the cluster element it locates. */
  function AttributesPy(cluster: Node, root: Node): map<string, Value> {
    KeyedMap(AttributeEntriesPy(AttributeElementsPy(cluster), root))
  }

  /** Attributes are stored under their resolved names; nameless ones are not stored. */
  lemma AttributesKeysPy(cluster: Node, root: Node)
    ensures AttributesPy(cluster, root).Keys ==
      set a | a in AttributeElementsPy(cluster) && IsNamedPy(a) :: AttributeKeyPy(a)
  {
    var elems := AttributeElementsPy(cluster);
    var es := AttributeEntriesPy(elems, root);
    AttributeEntriesKeyed(elems, root);
    KeyedMapKeysOf(elems, es, IsNamedPy, AttributeKeyPy);
  }

  /** An attribute whose name chain resolves, and the name it resolves to. */
  predicate IsNamedPy(a: Node) { NamePy(a).name != "" }
  function AttributeKeyPy(a: Node): string { NamePy(a).name }

  lemma AttributeEntriesKeyed(elems: seq<Node>, root: Node)
    ensures var es := AttributeEntriesPy(elems, root);
      forall i :: 0 <= i < |es| ==> (es[i].Some? <==> IsNamedPy(elems[i])) && (es[i].Some? ==> es[i].value.key == AttributeKeyPy(elems[i]))
  {
    var es := AttributeEntriesPy(elems, root);
    forall i | 0 <= i < |es| ensures (es[i].Some? <==> IsNamedPy(elems[i])) && (es[i].Some? ==> es[i].value.key == AttributeKeyPy(elems[i])) {
      assert es[i] == AttributeEntryPy(elems[i], root);
    }
  }

  /** An attribute whose enum type has no definition, or no item `int()` accepts, carries no `options` and keeps its own bounds. */
  lemma EmptyEnumOmitsOptions(attr: Node, c: NameChoice, root: Node)
    requires var table := EnumTablePy(root, Attr(attr, "type"));
      table.Some? && |table.value.values| == 0
    ensures var d := AttributeRecordPy(attr, c, root);
      "options" !in AttributeJsonPy(d) && d.min == IntOrKeep(AttrOrChildText(attr, "min"))
  {
  }

  /** With option values and a falsy `min`, the written `min` is the least option value, which bounds every value. */
  lemma EnumMinIsLeastPy(attr: Node, c: NameChoice, root: Node)
    requires var table := EnumTablePy(root, Attr(attr, "type"));
      table.Some? && |table.value.values| > 0 && !Truthy(IntOrKeep(AttrOrChildText(attr, "min")))
    ensures var d := AttributeRecordPy(attr, c, root);
      var vs := EnumTablePy(root, Attr(attr, "type")).value.values;
      d.min.Num? && d.min.n in vs && forall x :: x in vs ==> d.min.n <= x
  {
  }

  // ---------------------------------------------------------------------
  // Commands
  // ---------------------------------------------------------------------

  /** `enum_elem if enum_elem is not None else bitmap_elem`: the first `enum` named `t` below the root, else the first `bitmap`. */
  function TargetDefPy(root: Node, t: string): (r: Option<Node>)
    ensures FindNamed(root, "enum", t).Some? ==> r == FindNamed(root, "enum", t)
    ensures FindNamed(root, "enum", t).None? ==> r == FindNamed(root, "bitmap", t)
  {
    var e := FindNamed(root, "enum", t);
    if e.Some? then e else FindNamed(root, "bitmap", t)
  }

  /** For a raw type naming an enum or bitmap: the first `enum` with that name, else the first `bitmap`; its items, then its fields. */
  function ArgTablePy(root: Node, rawType: Option<string>): (r: Option<PyOptionTable>)
    ensures r.Some? <==> Given(rawType) && IsArgEnumType(rawType.value)
    ensures r.Some? ==> |r.value.names| == |r.value.values|
    ensures r.Some? && TargetDefPy(root, rawType.value).None? ==> r.value == PyOptionTable([], [])
    ensures r.Some? && TargetDefPy(root, rawType.value).Some? ==>
      var x := TargetDefPy(root, rawType.value).value;
      var items := ItemTablePy(FindAll(x, "item"), "name", "value");
      var fields := ItemTablePy(FindAll(x, "field"), "name", "mask");
      r.value.names == items.names + fields.names && r.value.values == items.values + fields.values
  {
    if !(Given(rawType) && IsArgEnumType(rawType.value)) then None
    else
      match TargetDefPy(root, rawType.value)
      case None => Some(PyOptionTable([], []))
      case Some(x) =>
        var items := ItemTablePy(FindAll(x, "item"), "name", "value");
        var fields := ItemTablePy(FindAll(x, "field"), "name", "mask");
        Some(PyOptionTable(items.names + fields.names, items.values + fields.values))
  }

  /** The text of the ValueError `int()` raises on `s`. */
  function InvalidLiteral(s: string): string {
    "invalid literal for int() with base 10: '" + s + "'"
  }

  /** An argument whose truthy `id` is not an integer: `int(arg_id)` raises outside any `try`. */
  predicate BadArgId(arg: Node) {
    Given(Attr(arg, "id")) && PyInt(Attr(arg, "id").value, Base10).None?
  }

  /** The argument's `id`: `int(arg_id)` when `id` is truthy, else `len(args)`, the position among accepted arguments. */
  function ArgIdPy(arg: Node, position: nat): (r: Result<Value>)
    ensures r.Failure? <==> BadArgId(arg)
    ensures r.Failure? ==> r.error == InvalidLiteral(Attr(arg, "id").value)
    ensures !Given(Attr(arg, "id")) ==> r == Success(Num(position))
    ensures Given(Attr(arg, "id")) && r.Success? ==> r.value == Num(PyInt(Attr(arg, "id").value, Base10).value)
  {
    var id := Attr(arg, "id");
    if !Given(id) then Success(Num(position))
    else
      match PyInt(id.value, Base10)
      case Some(n) => Success(Num(n))
      case None => Failure(InvalidLiteral(id.value))
  }

  /** Everything computed for a named argument whose `id` is known. */
  function ArgumentRecordPy(arg: Node, id: Value, root: Node): (a: ArgumentDef)
    ensures a.id == id && a.typeName == NormalizeTypePy(Attr(arg, "type")) && a.name == Attr(arg, "name").GetOr("")
    ensures a.options.Some? <==> Given(Attr(arg, "type")) && IsArgEnumType(Attr(arg, "type").value)
    ensures var table := ArgTablePy(root, Attr(arg, "type"));
      && a.min == EnumBoundPy(IntOrKeep(Attr(arg, "min")), table, true)
      && a.max == EnumBoundPy(IntOrKeep(Attr(arg, "max")), table, false)
      && (table.Some? ==> a.options == Some(PyEntries(table.value)))
  {
    var table := ArgTablePy(root, Attr(arg, "type"));
    ArgumentDef(
      id := id,
      name := Attr(arg, "name").GetOr(""),
      typeName := NormalizeTypePy(Attr(arg, "type")),
      min := EnumBoundPy(IntOrKeep(Attr(arg, "min")), table, true),
      max := EnumBoundPy(IntOrKeep(Attr(arg, "max")), table, false),
      options := if table.Some? then Some(PyEntries(table.value)) else None)
  }

  /** The argument's dict: `min`/`max` unless None, `options` only when non-empty. */
  function ArgumentJsonPy(a: ArgumentDef): (m: map<string, Value>)
    ensures m.Keys >= {"id", "name", "type"} && m.Keys <= {"id", "name", "type", "min", "max", "options"}
    ensures m["id"] == a.id && m["name"] == Str(a.name) && m["type"] == Str(a.typeName)
    ensures "min" in m <==> a.min != Null
    ensures "min" in m ==> m["min"] == a.min
    ensures "max" in m <==> a.max != Null
    ensures "max" in m ==> m["max"] == a.max
    ensures "options" in m <==> a.options.Some? && |a.options.value| > 0
    ensures "options" in m ==> m["options"] == Arr(a.options.value)
  {
    var m0 := map["id" := a.id, "name" := Str(a.name), "type" := Str(a.typeName)];
    var m1 := PutIf(m0, a.min != Null, "min", a.min);
    var m2 := PutIf(m1, a.max != Null, "max", a.max);
    var withOptions := a.options.Some? && |a.options.value| > 0;
    PutIf(m2, withOptions, "options", if withOptions then Arr(a.options.value) else Null)
  }

  /** The argument dict appended at `position`, or the ValueError of its `id`. */
  function ArgPy(arg: Node, position: nat, root: Node): (r: Result<Value>)
    ensures r.Failure? <==> BadArgId(arg)
    ensures r.Failure? ==> r.error == InvalidLiteral(Attr(arg, "id").value)
    ensures r.Success? && !Given(Attr(arg, "id")) ==> r.value.Obj? && "id" in r.value.fields && r.value.fields["id"] == Num(position)
  {
    match ArgIdPy(arg, position)
    case Failure(e) => Failure(e)
    case Success(id) => Success(Obj(ArgumentJsonPy(ArgumentRecordPy(arg, id, root))))
  }

  /** ArgPy as the step of the argument walk. */
  function ArgStep(root: Node): (Node, nat) -> Result<Value> {
    (a: Node, position: nat) => ArgPy(a, position, root)
  }

  /** The `args` list: nameless arguments are skipped and take no position; the first bad `id` ends the run. */
  function ArgsPy(args: seq<Node>, root: Node): Result<seq<Value>> {
    MapAcceptedOrFail(args, HasName, ArgStep(root))
  }

  /** `named[j]` is the first argument with a bad `id`, and `error` is its ValueError. */
  predicate FirstBadArgAt(named: seq<Node>, j: int, error: string) {
    && 0 <= j < |named| && BadArgId(named[j]) && error == InvalidLiteral(Attr(named[j], "id").value)
    && forall k :: 0 <= k < j ==> !BadArgId(named[k])
  }

  /**
   * The arguments fail exactly when a named argument has a bad `id`, with
   * that argument's error; otherwise the j-th written argument is the j-th
   * named one, at position j.
   */
  lemma ArgsPySpec(args: seq<Node>, root: Node)
    ensures var named := Filter(args, HasName);
      ArgsPy(args, root).Failure? <==> exists j :: 0 <= j < |named| && BadArgId(named[j])
    ensures var named := Filter(args, HasName); var r := ArgsPy(args, root);
      r.Failure? ==> exists j :: FirstBadArgAt(named, j, r.error)
    ensures var named := Filter(args, HasName); var r := ArgsPy(args, root);
      r.Success? ==> |r.value| == |named| && forall j :: 0 <= j < |named| ==> r.value[j] == ArgPy(named[j], j, root).value
  {
    MapAcceptedOrFailSpec(args, HasName, ArgStep(root));
    var named := Filter(args, HasName);
    var r := ArgsPy(args, root);
    var f := ArgStep(root);
    if r.Failure? {
      var j :| 0 <= j < |named| && f(named[j], j) == Failure(r.error) && forall k :: 0 <= k < j ==> f(named[k], k).Success?;
      assert ArgPy(named[j], j, root) == Failure(r.error);
      forall k | 0 <= k < j ensures !BadArgId(named[k]) {
        assert f(named[k], k) == ArgPy(named[k], k, root);
      }
      assert FirstBadArgAt(named, j, r.error);
    }
  }

  /** The command's description: the `description` child's unstripped text when there is such a child, else the attribute; `<name> command` when empty. */
  function CommandDescriptionPy(cmd: Node, name: string): (r: string)
    ensures r != ""
    ensures Find(cmd, "description").Some? && PyText(Find(cmd, "description").value).Some? ==>
      r == PyText(Find(cmd, "description").value).value
    ensures Find(cmd, "description").Some? && PyText(Find(cmd, "description").value).None? ==> r == name + " command"
    ensures Find(cmd, "description").None? ==>
      r == if Given(Attr(cmd, "description")) then Attr(cmd, "description").value else name + " command"
  {
    var d :=
      match Find(cmd, "description")
      case Some(e) => PyText(e).GetOr("")
      case None => Attr(cmd, "description").GetOr("");
    if d == "" then name + " command" else d
  }

  /** Everything `parse_xml_commands` computes for a named command whose arguments were read. */
  function CommandRecordPy(cmd: Node, name: string, args: seq<Value>): (c: CommandDef)
    ensures c.id == FormatCodePy(Or(Attr(cmd, "code"), Attr(cmd, "id")), 2)
    ensures c.mandatory <==> !IsTrue(Attr(cmd, "optional"))
    ensures c.arguments == args
    ensures c.description == CommandDescriptionPy(cmd, name) && c.featureDependent == FeatureDepPy(cmd)
  {
    CommandDef(
      id := FormatCodePy(Or(Attr(cmd, "code"), Attr(cmd, "id")), 2),
      mandatory := !IsTrue(Attr(cmd, "optional")),
      description := CommandDescriptionPy(cmd, name),
      arguments := args,
      featureDependent := FeatureDepPy(cmd))
  }

  /** The entry `commands[cmd_name] = cmd_def`, none for a command without a name, or the error of a bad argument `id`. */
  function CommandEntryPy(cmd: Node, root: Node): (r: Result<Option<Entry>>)
    ensures !HasName(cmd) ==> r == Success(None)
    ensures HasName(cmd) ==> (r.Failure? <==> ArgsPy(FindAll(cmd, "arg"), root).Failure?)
    ensures r.Failure? ==> r == Failure(ArgsPy(FindAll(cmd, "arg"), root).error)
    ensures r.Success? && r.value.Some? ==> HasName(cmd) && r.value.value.key == Attr(cmd, "name").value
    ensures r.Success? && HasName(cmd) ==> r.value.Some?
  {
    var name := Attr(cmd, "name");
    if !Given(name) then Success(None)
    else
      match ArgsPy(FindAll(cmd, "arg"), root)
      case Failure(e) => Failure(e)
      case Success(args) => Success(Some(Entry(name.value, Obj(CommandJson(CommandRecordPy(cmd, name.value, args))))))
  }

  /** `findall('command') + findall('commands/command')`. */
  function CommandElementsPy(cluster: Node): seq<Node> {
    FindAll(cluster, "command") + FindAllPath(cluster, "commands", "command")
  }

  function CommandEntriesPy(elems: seq<Node>, root: Node): (rs: seq<Result<Option<Entry>>>)
    ensures |rs| == |elems| && forall i :: 0 <= i < |elems| ==> rs[i] == CommandEntryPy(elems[i], root)
  {
    seq(|elems|, i requires 0 <= i < |elems| => CommandEntryPy(elems[i], root))
  }

  /** `parse_xml_commands(root)`: the commands dict, or the first escaping ValueError. */
  function CommandsPy(cluster: Node, root: Node): Result<map<string, Value>> {
    match AllOk(CommandEntriesPy(CommandElementsPy(cluster), root))
    case Failure(e) => Failure(e)
    case Success(es) => Success(KeyedMap(es))
  }

  /** Reading the commands fails exactly when some named command has a named argument with a bad `id`. */
  lemma CommandsPyFailure(cluster: Node, root: Node)
    ensures var cmds := CommandElementsPy(cluster);
      CommandsPy(cluster, root).Failure? <==>
        exists i :: 0 <= i < |cmds| && HasName(cmds[i]) && ArgsPy(FindAll(cmds[i], "arg"), root).Failure?
  {
    var cmds := CommandElementsPy(cluster);
    var rs := CommandEntriesPy(cmds, root);
    AllOkSpec(rs);
    assert forall i :: 0 <= i < |rs| ==> (rs[i].Failure? <==> HasName(cmds[i]) && ArgsPy(FindAll(cmds[i], "arg"), root).Failure?);
  }

  /** When reading succeeds, commands are stored under their names; a nameless command is not stored. */
  lemma CommandsKeysPy(cluster: Node, root: Node)
    requires CommandsPy(cluster, root).Success?
    ensures CommandsPy(cluster, root).value.Keys ==
      set c | c in CommandElementsPy(cluster) && HasName(c) :: Attr(c, "name").value
  {
    var cmds := CommandElementsPy(cluster);
    var rs := CommandEntriesPy(cmds, root);
    AllOkSpec(rs);
    var es := AllOk(rs).value;
    forall i | 0 <= i < |es| ensures (es[i].Some? <==> HasName(cmds[i])) && (es[i].Some? ==> es[i].value.key == Attr(cmds[i], "name").value) {
      assert rs[i] == CommandEntryPy(cmds[i], root) && es[i] == rs[i].value;
    }
    KeyedMapKeysOf(cmds, es, HasName, c => Attr(c, "name").GetOr(""));
  }

  // ---------------------------------------------------------------------
  // Features
  // ---------------------------------------------------------------------

  /** The feature's record: `summary` attribute, else the child's stripped text; `bit` only when `int()` accepts it. */
  function FeatureRecordPy(f: Node): (d: FeatureDef)
    ensures d.bit.Some? <==> Given(Attr(f, "bit")) && PyInt(Attr(f, "bit").value, Base10).Some?
    ensures d.bit.Some? ==> d.bit.value == Num(PyInt(Attr(f, "bit").value, Base10).value)
    ensures Given(Attr(f, "summary")) ==> d.summary == Attr(f, "summary").value
    ensures !Given(Attr(f, "summary")) && Find(f, "summary").Some? && PyText(Find(f, "summary").value).Some? ==>
      d.summary == PyStrip(PyText(Find(f, "summary").value).value)
    ensures !Given(Attr(f, "summary")) && !(Find(f, "summary").Some? && PyText(Find(f, "summary").value).Some?) ==>
      d.summary == ""
    ensures d.code == Attr(f, "code").GetOr("") && d.name == Attr(f, "name").GetOr("")
  {
    var s := Attr(f, "summary").GetOr("");
    var b := Attr(f, "bit");
    FeatureDef(
      code := Attr(f, "code").GetOr(""),
      name := Attr(f, "name").GetOr(""),
      summary :=
        if s != "" then s
        else
          match Find(f, "summary")
          case Some(e) => if PyText(e).Some? then PyStrip(PyText(e).value) else s
          case None => s,
      bit :=
        if Given(b) && PyInt(b.value, Base10).Some? then Some(Num(PyInt(b.value, Base10).value)) else None)
  }

  /** The entry `features[feature_code] = feature_def`, or none when `code` or `name` is missing. */
  function FeatureEntryPy(f: Node): (e: Option<Entry>)
    ensures e.Some? <==> Given(Attr(f, "code")) && Given(Attr(f, "name"))
    ensures e.Some? ==> e.value.key == Attr(f, "code").value
  {
    if !Given(Attr(f, "code")) || !Given(Attr(f, "name")) then None
    else Some(Entry(Attr(f, "code").value, Obj(FeatureJson(FeatureRecordPy(f)))))
  }

  /** The `feature` children of the first `features` child. */
  function FeatureElementsPy(cluster: Node): seq<Node> {
    match Find(cluster, "features")
    case Some(fs) => FindAll(fs, "feature")
    case None => []
  }

  function FeatureEntriesPy(elems: seq<Node>): (es: seq<Option<Entry>>)
    ensures |es| == |elems| && forall i :: 0 <= i < |elems| ==> es[i] == FeatureEntryPy(elems[i])
  {
    seq(|elems|, i requires 0 <= i < |elems| => FeatureEntryPy(elems[i]))
  }

  /** `parse_xml_features(root)`. */
  function FeaturesPy(cluster: Node): map<string, Value> {
    KeyedMap(FeatureEntriesPy(FeatureElementsPy(cluster)))
  }

  /** Features are stored under their codes; one without a non-empty code and name is not stored. */
  lemma FeaturesKeysPy(cluster: Node)
    ensures FeaturesPy(cluster).Keys ==
      set f | f in FeatureElementsPy(cluster) && Given(Attr(f, "code")) && Given(Attr(f, "name")) :: Attr(f, "code").value
  {
    var elems := FeatureElementsPy(cluster);
    KeyedMapKeysOf(elems, FeatureEntriesPy(elems), f => Given(Attr(f, "code")) && Given(Attr(f, "name")), f => Attr(f, "code").GetOr(""));
  }

  // ---------------------------------------------------------------------
  // Cluster identity and the output document
  // ---------------------------------------------------------------------

  /** The cluster element: the root when it is a `cluster`, else its first `cluster` child, else the first `cluster` below it. */
  function FindClusterPy(root: Node): (r: Option<Node>)
    ensures r.Some? ==> r.value.Element? && r.value.tag == "cluster"
    ensures r.None? ==> !(root.Element? && root.tag == "cluster") && ByTag(root, "cluster") == []
    ensures root.Element? && root.tag == "cluster" ==> r == Some(root)
    ensures !(root.Element? && root.tag == "cluster") && Find(root, "cluster").Some? ==> r == Find(root, "cluster")
    ensures !(root.Element? && root.tag == "cluster") && Find(root, "cluster").None? ==> r == FirstByTag(root, "cluster")
  {
    SelectTag(Descendants(root), "cluster");
    if root.Element? && root.tag == "cluster" then Some(root)
    else
      var c := Find(root, "cluster");
      if c.Some? then
        assert c.value in FindAll(root, "cluster");
        c
      else FirstByTag(root, "cluster")
  }

  /** What the three `parse_xml_*` functions read from: the cluster element, or the root when there is none. */
  function ClusterElemPy(root: Node): Node {
    FindClusterPy(root).GetOr(root)
  }

  /** A `tag` child whose `.text` is truthy. */
  predicate HasTextChild(c: Node, tag: string) {
    c.Element? && c.tag == tag && PyText(c).Some?
  }

  /** Child `k` is the first `tag` child with text, and its stripped text is `v`. */
  predicate FirstChildTextAt(cs: seq<Node>, k: int, tag: string, v: string) {
    && 0 <= k < |cs| && HasTextChild(cs[k], tag) && v == PyStrip(PyText(cs[k]).value)
    && forall j :: 0 <= j < k ==> !HasTextChild(cs[j], tag)
  }

  /** The `for child in cluster_elem: if child.tag == tag and child.text: … break` loops: the first such child's stripped text. */
  function FirstChildText(cs: seq<Node>, tag: string): Option<string>
    decreases |cs|
  {
    if cs == [] then None
    else if HasTextChild(cs[0], tag) then Some(PyStrip(PyText(cs[0]).value))
    else FirstChildText(cs[1..], tag)
  }

  /** The loop finds the first `tag` child with text, and finds nothing exactly when there is none. */
  lemma {:induction false} FirstChildTextSpec(cs: seq<Node>, tag: string)
    ensures FirstChildText(cs, tag).Some? ==> exists k :: FirstChildTextAt(cs, k, tag, FirstChildText(cs, tag).value)
    ensures FirstChildText(cs, tag).None? <==> forall k :: 0 <= k < |cs| ==> !HasTextChild(cs[k], tag)
    decreases |cs|
  {
    if cs != [] && !HasTextChild(cs[0], tag) {
      var r := FirstChildText(cs[1..], tag);
      FirstChildTextSpec(cs[1..], tag);
      if r.Some? {
        var k :| FirstChildTextAt(cs[1..], k, tag, r.value);
        assert cs[k + 1] == cs[1..][k];
        forall j | 0 <= j < k + 1 ensures !HasTextChild(cs[j], tag) {
          if j > 0 {
            assert cs[j] == cs[1..][j - 1];
          }
        }
        assert FirstChildTextAt(cs, k + 1, tag, r.value);
      } else {
        forall k | 0 <= k < |cs| ensures !HasTextChild(cs[k], tag) {
          if k > 0 {
            assert cs[k] == cs[1..][k - 1];
          }
        }
      }
    } else if cs != [] {
      assert FirstChildTextAt(cs, 0, tag, FirstChildText(cs, tag).value);
    }
  }

  /** Characters `.replace(' ', '').replace('/', '').replace('-', '')` removes: only the space character, not all white space. */
  predicate IsPySlugDropped(c: char) {
    c == ' ' || c == '/' || c == '-'
  }

  /** `com.matter.cluster.` + the name lower-cased without spaces, `/` and `-`. */
  function SlugPy(name: string): (r: string)
    ensures r == SlugPrefix + RemoveAll(Lower(name), IsPySlugDropped)
    ensures StartsWith(r, SlugPrefix)
    ensures forall i :: |SlugPrefix| <= i < |r| ==> !IsPySlugDropped(r[i]) && !('A' <= r[i] <= 'Z')
  {
    var tail := RemoveAll(Lower(name), IsPySlugDropped);
    RemoveAllKeeps(Lower(name), IsPySlugDropped);
    forall i | 0 <= i < |tail| ensures !('A' <= tail[i] <= 'Z') {
      assert tail[i] in Lower(name);
    }
    SlugPrefix + tail
  }

  /** The fixed record returned when the document has no `cluster` element. */
  function UnknownCluster(xmlSource: string): ClusterInfo {
    ClusterInfo(
      id := "com.matter.cluster.unknown",
      clusterId := "0x0000",
      name := "Unknown",
      description := "Unknown cluster",
      xmlSource := xmlSource)
  }

  /** `extract_cluster_info(root, xml_url)`: the fixed unknown record without a cluster, else the identity read from it. */
  function ClusterInfoPy(root: Node, xmlSource: string): (info: ClusterInfo)
    ensures FindClusterPy(root).None? ==> info == UnknownCluster(xmlSource)
    ensures FindClusterPy(root).Some? ==> StartsWith(info.id, SlugPrefix)
    ensures info.xmlSource == xmlSource
  {
    match FindClusterPy(root)
    case None => UnknownCluster(xmlSource)
    case Some(c) => ClusterIdentityPy(c, xmlSource)
  }

  /** The attributes: `name` (default "Unknown"); `id` when truthy, else `code` (default "0x0000"). */
  function AttrIdentityPy(cluster: Node): (k: Identity)
    ensures k.name == Attr(cluster, "name").GetOr("Unknown")
    ensures Given(Attr(cluster, "id")) ==> k.id == Attr(cluster, "id").value
    ensures !Given(Attr(cluster, "id")) ==> k.id == Attr(cluster, "code").GetOr("0x0000")
  {
    Identity(
      Attr(cluster, "name").GetOr("Unknown"),
      if Given(Attr(cluster, "id")) then Attr(cluster, "id").value else Attr(cluster, "code").GetOr("0x0000"))
  }

  /**
   * `clusterIds/clusterId`, consulted when the id is the placeholder or the
   * name is missing: it fills only the parts that are missing, and each only
   * from the attribute it has.
   */
  function IdsFallbackPy(cluster: Node, k: Identity): (r: Identity)
    ensures !NameMissing(k.name) ==> r.name == k.name
    ensures !IdMissing(k.id) ==> r.id == k.id
    ensures r != k ==> Find(cluster, "clusterIds").Some? && Find(Find(cluster, "clusterIds").value, "clusterId").Some?
    ensures var ids := Find(cluster, "clusterIds");
      var idElem := if ids.Some? && (k.id == "0x0000" || NameMissing(k.name)) then Find(ids.value, "clusterId") else None;
      (idElem.Some? && NameMissing(k.name) ==> r.name == Attr(idElem.value, "name").GetOr(k.name))
      && (idElem.Some? && IdMissing(k.id) ==> r.id == Attr(idElem.value, "id").GetOr(k.id))
  {
    var idElem :=
      if k.id == "0x0000" || NameMissing(k.name) then
        match Find(cluster, "clusterIds")
        case Some(ids) => Find(ids, "clusterId")
        case None => None
      else None;
    Identity(
      if idElem.Some? && NameMissing(k.name) then Attr(idElem.value, "name").GetOr(k.name) else k.name,
      if idElem.Some? && IdMissing(k.id) then Attr(idElem.value, "id").GetOr(k.id) else k.id)
  }

  /** The `name` and `code` children, consulted for a name still "Unknown" and an id still "0x0000". */
  function ChildFallbackPy(cs: seq<Node>, k: Identity): (r: Identity)
    ensures k.name != "Unknown" ==> r.name == k.name
    ensures k.id != "0x0000" ==> r.id == k.id
    ensures k.name == "Unknown" && FirstChildText(cs, "name").Some? ==> r.name == FirstChildText(cs, "name").value
    ensures k.id == "0x0000" && FirstChildText(cs, "code").Some? ==> r.id == FirstChildText(cs, "code").value
  {
    Identity(
      if k.name == "Unknown" then FirstChildText(cs, "name").GetOr(k.name) else k.name,
      if k.id == "0x0000" then FirstChildText(cs, "code").GetOr(k.id) else k.id)
  }

  /** The name and id after the whole fallback chain. */
  function IdentityPy(cluster: Node): Identity {
    ChildFallbackPy(ChildrenOf(cluster), IdsFallbackPy(cluster, AttrIdentityPy(cluster)))
  }

  /** The name and id fallback chain on a found cluster element. */
  function ClusterIdentityPy(cluster: Node, xmlSource: string): (info: ClusterInfo)
    ensures StartsWith(info.id, SlugPrefix) && info.id == SlugPy(info.name)
    ensures info.xmlSource == xmlSource
    ensures info.name == IdentityPy(cluster).name && info.clusterId == HexIdPy(IdentityPy(cluster).id, 4)
    ensures Given(Attr(cluster, "name")) && Attr(cluster, "name").value != "Unknown" ==> info.name == Attr(cluster, "name").value
    ensures Given(Attr(cluster, "id")) && StartsWith(Attr(cluster, "id").value, "0x") && Attr(cluster, "id").value != "0x0000" ==>
      info.clusterId == Attr(cluster, "id").value
    ensures FirstChildText(ChildrenOf(cluster), "description").Some? ==>
      info.description == FirstChildText(ChildrenOf(cluster), "description").value
    ensures FirstChildText(ChildrenOf(cluster), "description").None? ==> info.description == "Matter " + info.name + " Cluster"
  {
    var cs := ChildrenOf(cluster);
    var k := IdentityPy(cluster);
    ClusterInfo(
      id := SlugPy(k.name),
      clusterId := HexIdPy(k.id, 4),
      name := k.name,
      description := FirstChildText(cs, "description").GetOr("Matter " + k.name + " Cluster"),
      xmlSource := xmlSource)
  }

  /** With no id anywhere (attributes, `clusterIds/clusterId`, or a `code` child with text) the cluster id is "0x0000". */
  lemma ClusterIdMissingPy(cluster: Node, xmlSource: string)
    requires !Given(Attr(cluster, "id")) && Attr(cluster, "code").None?
    requires var ids := Find(cluster, "clusterIds");
      ids.None? || Find(ids.value, "clusterId").None? || Attr(Find(ids.value, "clusterId").value, "id").None?
    requires FirstChildText(ChildrenOf(cluster), "code").None?
    ensures ClusterIdentityPy(cluster, xmlSource).clusterId == "0x0000"
  {
    var k0 := AttrIdentityPy(cluster);
    var k1 := IdsFallbackPy(cluster, k0);
    assert k1.id == "0x0000";
  }

  /** A cluster with a proper name and a decimal `id` gets that id as `0x` and four or more upper-case hex digits, which read back as the id. */
  lemma ClusterIdFromDecimalPy(cluster: Node, xmlSource: string)
    requires Given(Attr(cluster, "name")) && Attr(cluster, "name").value != "Unknown"
    requires Given(Attr(cluster, "id")) && IsDecimal(Attr(cluster, "id").value)
    ensures var info := ClusterIdentityPy(cluster, xmlSource);
      var n := ValueOf(Attr(cluster, "id").value, 10);
      info.name == Attr(cluster, "name").value
      && info.clusterId == "0x" + PaddedHex(n, 4)
      && PyInt(info.clusterId, Base16) == Some(n)
  {
    var id := Attr(cluster, "id").value;
    DecimalNotHex(id);
    var k0 := AttrIdentityPy(cluster);
    assert k0 == Identity(Attr(cluster, "name").value, id);
    var k1 := IdsFallbackPy(cluster, k0);
    assert k1 == k0;
    var k := ChildFallbackPy(ChildrenOf(cluster), k1);
    assert k == k0;
    assert ClusterIdentityPy(cluster, xmlSource).clusterId == HexIdPy(id, 4);
    HexIdPyRoundTrip(id, 4);
  }

  /**
   * `generate_json_from_xml` after parsing: the document, or the ValueError of
   * a bad argument `id`, which escapes before anything is written.
   */
  function DocumentPy(root: Node, xmlSource: string): (r: Result<Value>)
    ensures r.Failure? <==> CommandsPy(ClusterElemPy(root), root).Failure?
  {
    var cluster := ClusterElemPy(root);
    match CommandsPy(cluster, root)
    case Failure(e) => Failure(e)
    case Success(commands) =>
      Success(DocumentJson(
        ClusterInfoPy(root, xmlSource),
        CapabilitiesJson(AttributesPy(cluster, root), commands, FeaturesPy(cluster))))
  }

  /** Without a cluster element the document is still written, under the unknown identity, from the root's own children. */
  lemma NoClusterStillWrites(root: Node, xmlSource: string)
    requires FindClusterPy(root).None? && CommandsPy(root, root).Success?
    ensures var r := DocumentPy(root, xmlSource);
      r.Success? && r.value.Obj?
      && r.value.fields["id"] == Str("com.matter.cluster.unknown")
      && r.value.fields["clusterId"] == Str("0x0000")
      && r.value.fields["name"] == Str("Unknown")
  {
  }
}
