/**
 * The JavaScript capabilities generator (TestScripts/generate_capabilities_js.js):
 * locates the cluster element, reads its identity, its attributes, commands
 * and features through descendant (`getElementsByTagName`) queries, and
 * assembles the output document.
 */
module CapabilitiesJs {
  import opened Wrappers
  import opened Text
  import opened Numbers
  import opened Xml
  import opened Json
  import opened Keyed
  import opened Records
  import opened Filtering

  // ---------------------------------------------------------------------
  // Attribute reads and JavaScript truthiness
  // ---------------------------------------------------------------------

  /** `e && e.textContent ? e.textContent.trim() : <unchanged>`. */
  function TrimmedText(e: Option<Node>): (r: Option<string>)
    ensures r.Some? <==> e.Some? && TextContent(e.value) != ""
    ensures r.Some? ==> r.value == JsTrim(TextContent(e.value))
  {
    if e.Some? && TextContent(e.value) != "" then Some(JsTrim(TextContent(e.value))) else None
  }

  // ---------------------------------------------------------------------
  // normalizeType, formatCode, formatCommandId, parseValue
  // ---------------------------------------------------------------------

  /** The renaming table of `normalizeType`. */
  const TypeRenames: map<string, string> := map[
    "boolean" := "bool",
    "int16u" := "uint16",
    "int8u" := "uint8",
    "int16s" := "int16",
    "int8s" := "int8",
    "int32u" := "uint32",
    "int32s" := "int32",
    "int64u" := "uint64",
    "int64s" := "int64"]

  /** `normalizeType`: "unknown" for a missing type, the table's name for the nine listed ones, else unchanged. */
  function NormalizeType(t: Option<string>): (r: string)
    ensures r != ""
    ensures !Given(t) ==> r == "unknown"
    ensures Given(t) ==> (r != t.value <==> t.value in TypeRenames)
    ensures Given(t) && t.value in TypeRenames ==> r == TypeRenames[t.value]
  {
    if !Given(t) then "unknown"
    else if t.value in TypeRenames then TypeRenames[t.value]
    else t.value
  }

  /** Normalising a normalised type changes nothing: no renamed name is itself renamed. */
  lemma NormalizeTypeIdempotent(t: Option<string>)
    ensures NormalizeType(Some(NormalizeType(t))) == NormalizeType(t)
  {
    var r := NormalizeType(t);
    assert r !in TypeRenames;
  }

  /** `0x` followed by `parseInt(code).toString(16).padStart(width, '0').toUpperCase()`. */
  function HexOfParsed(code: string, width: nat): (r: string)
    ensures StartsWith(r, "0x")
  {
    "0x" + Upper(PadStart(JsToString16(JsParseInt(code, Unspecified)), width, '0'))
  }

  /** `formatCode`: "0x0000" when missing, a `0x` code unchanged, anything else re-formatted. */
  function FormatCode(code: Option<string>): (r: string)
    ensures StartsWith(r, "0x")
    ensures !Given(code) ==> r == "0x0000"
    ensures Given(code) && StartsWith(code.value, "0x") ==> r == code.value
  {
    if !Given(code) then "0x0000"
    else if StartsWith(code.value, "0x") then code.value
    else HexOfParsed(code.value, 4)
  }

  /** `formatCommandId`: the same rule with two digits and "0x00". */
  function FormatCommandId(code: Option<string>): (r: string)
    ensures StartsWith(r, "0x")
    ensures !Given(code) ==> r == "0x00"
    ensures Given(code) && StartsWith(code.value, "0x") ==> r == code.value
  {
    if !Given(code) then "0x00"
    else if StartsWith(code.value, "0x") then code.value
    else HexOfParsed(code.value, 2)
  }

  lemma UpperPadZeros(s: string, width: nat)
    ensures Upper(PadStart(s, width, '0')) == PadStart(Upper(s), width, '0')
  {
    if |s| < width {
      var z := Repeat('0', width - |s|);
      assert PadStart(s, width, '0') == z + s;
      assert PadStart(Upper(s), width, '0') == z + Upper(s);
      UpperAppend(z, s);
      UpperZeros(width - |s|);
    }
  }

  /** A decimal code becomes `0x` and its upper-case hex numeral, zero-padded to `width` digits. */
  lemma HexOfDecimal(s: string, width: nat)
    requires IsDecimal(s)
    ensures HexOfParsed(s, width) == "0x" + PaddedHex(ValueOf(s, 10), width)
  {
    JsParseIntDecimal(s, Unspecified);
    UpperPadZeros(HexDigits(ValueOf(s, 10)), width);
  }

  /**
   * Every outcome of `parseInt` in a re-formatted code: NaN prints as "NAN"
   * padded with zeros, a non-negative number as its padded upper-case hex
   * numeral, a negative one with its minus sign in front of the digits.
   */
  lemma HexOfParsedCases(code: string, width: nat)
    ensures JsParseInt(code, Unspecified) == NaN ==>
      HexOfParsed(code, width) == "0x" + PadStart("NAN", width, '0')
    ensures (JsParseInt(code, Unspecified).Finite? && JsParseInt(code, Unspecified).value >= 0) ==>
      HexOfParsed(code, width) == "0x" + PaddedHex(JsParseInt(code, Unspecified).value, width)
    ensures (JsParseInt(code, Unspecified).Finite? && JsParseInt(code, Unspecified).value < 0) ==>
      HexOfParsed(code, width) == "0x" + NegativeHex(JsParseInt(code, Unspecified).value, width)
  {
    var x := JsParseInt(code, Unspecified);
    if x.NaN? {
      HexOfNaN(width);
    } else if x.value < 0 {
      HexOfNegative(x.value, width);
    } else {
      HexOfNatural(x.value, width);
    }
  }

  /** A negative number in hex: a minus sign before its upper-case digits, zero-padded on the left. */
  function NegativeHex(v: int, width: nat): string
    requires v < 0
  {
    PadStart("-" + Upper(HexDigits(-v)), width, '0')
  }

  /** `parseInt` gave NaN: the digits are "NAN", zero-padded. */
  lemma HexOfNaN(width: nat)
    ensures Upper(PadStart(JsToString16(NaN), width, '0')) == PadStart("NAN", width, '0')
  {
    assert JsToString16(NaN) == "NaN";
    UpperPadZeros("NaN", width);
    var u := Upper("NaN");
    assert UpperChar('a') == 'A';
    assert u[0] == 'N' && u[1] == 'A' && u[2] == 'N';
    assert u == "NAN";
  }

  /** A non-negative number: its padded upper-case hex numeral. */
  lemma HexOfNatural(v: nat, width: nat)
    ensures Upper(PadStart(JsToString16(Finite(v)), width, '0')) == PaddedHex(v, width)
  {
    assert JsToString16(Finite(v)) == HexDigits(v);
    UpperPadZeros(HexDigits(v), width);
  }

  /** A negative number: a minus sign before the upper-case hex digits, all zero-padded on the left. */
  lemma HexOfNegative(v: int, width: nat)
    requires v < 0
    ensures Upper(PadStart(JsToString16(Finite(v)), width, '0')) == NegativeHex(v, width)
  {
    assert JsToString16(Finite(v)) == "-" + HexDigits(-v);
    UpperMinus(HexDigits(-v), width);
  }

  lemma UpperMinus(d: string, width: nat)
    ensures Upper(PadStart("-" + d, width, '0')) == PadStart("-" + Upper(d), width, '0')
  {
    UpperPadZeros("-" + d, width);
    UpperAppend("-", d);
    assert Upper("-") == "-";
  }

  /** A formatted decimal attribute code reads back, as hex, to the number written. */
  lemma FormatCodeRoundTrip(s: string)
    requires IsDecimal(s)
    ensures FormatCode(Some(s)) == "0x" + PaddedHex(ValueOf(s, 10), 4)
    ensures JsParseInt(FormatCode(Some(s)), Radix16) == Finite(ValueOf(s, 10))
  {
    DecimalNotHex(s);
    assert FormatCode(Some(s)) == HexOfParsed(s, 4);
    HexOfDecimal(s, 4);
    JsHexRoundTrip(ValueOf(s, 10), 4);
  }

  /** A formatted decimal command id reads back, as hex, to the number written. */
  lemma FormatCommandIdRoundTrip(s: string)
    requires IsDecimal(s)
    ensures FormatCommandId(Some(s)) == "0x" + PaddedHex(ValueOf(s, 10), 2)
    ensures JsParseInt(FormatCommandId(Some(s)), Radix16) == Finite(ValueOf(s, 10))
  {
    DecimalNotHex(s);
    assert FormatCommandId(Some(s)) == HexOfParsed(s, 2);
    HexOfDecimal(s, 2);
    JsHexRoundTrip(ValueOf(s, 10), 2);
  }

  /**
   * `parseInt` never throws, so the `catch` fallback is never taken: a code
   * with no leading digit is written as "0x0NAN" rather than `0x` + code.
   */
  lemma FormatCodeNoDigits(s: string)
    requires s != "" && !StartsWith(s, "0x") && JsParseInt(s, Unspecified) == NaN
    ensures FormatCode(Some(s)) == "0x0NAN"
  {
    assert PadStart("NaN", 4, '0') == "0NaN";
  }

  /** A JavaScript number as a JSON value. */
  function NumOf(x: JsNumber): (v: Value)
    ensures x.Finite? ==> v == Num(x.value)
    ensures x.NaN? ==> v == NotANumber
  {
    match x
    case Finite(n) => Num(n)
    case NaN => NotANumber
  }

  /** `parseInt(v, v.startsWith('0x') ? 16 : 10)`. */
  function ParseNumber(v: string): JsNumber {
    JsParseInt(v, if StartsWith(v, "0x") then Radix16 else Radix10)
  }

  /** A decimal digit string reads as its decimal value. */
  lemma ParseNumberDecimal(d: string)
    requires IsDecimal(d)
    ensures ParseNumber(d) == Finite(ValueOf(d, 10))
  {
    DecimalNotHex(d);
    JsParseIntDecimal(d, Radix10);
  }

  /** `0x` followed by hex digits reads as their hexadecimal value. */
  lemma ParseNumberHex(d: string)
    requires |d| >= 1 && AllDigits(d, 16)
    ensures ParseNumber("0x" + d) == Finite(ValueOf(d, 16))
  {
    assert StartsWith("0x" + d, "0x");
    JsReadHex(d);
  }

  /** `parseValue`: null when missing; a boolean for bool types; a number for integer types; else the text. */
  function ParseValue(value: Option<string>, typeName: string): (r: Value)
    ensures !Given(value) ==> r == Null
    ensures Given(value) ==> r != Null
    ensures var t := NormalizeType(Some(typeName));
      Given(value) && (t == "bool" || t == "boolean") ==>
        r == Bool(Lower(value.value) == "true" || value.value == "1" || value.value == "yes")
    ensures var t := NormalizeType(Some(typeName));
      Given(value) && t != "bool" && t != "boolean" && IsIntType(t) ==> r == NumOf(ParseNumber(value.value))
    ensures var t := NormalizeType(Some(typeName));
      Given(value) && t != "bool" && t != "boolean" && !IsIntType(t) ==> r == Str(value.value)
  {
    if !Given(value) then Null
    else
      var v := value.value;
      var t := NormalizeType(Some(typeName));
      if t == "bool" || t == "boolean" then Bool(Lower(v) == "true" || v == "1" || v == "yes")
      else if IsIntType(t) then NumOf(ParseNumber(v))
      else Str(v)
  }

  /** For bool types the value is true exactly for "true" (any case), "1" and "yes". */
  lemma ParseValueBool(v: string, typeName: string)
    requires v != "" && NormalizeType(Some(typeName)) == "bool"
    ensures ParseValue(Some(v), typeName) == Bool(Lower(v) == "true" || v == "1" || v == "yes")
  {
  }

  /** For integer types a decimal string becomes its number. */
  lemma ParseValueInt(v: string, typeName: string)
    requires IsDecimal(v) && IsIntType(NormalizeType(Some(typeName)))
    ensures ParseValue(Some(v), typeName) == Num(ValueOf(v, 10))
  {
    BoolIsNotInt();
    ParseNumberDecimal(v);
  }

  // ---------------------------------------------------------------------
  // Attributes
  // ---------------------------------------------------------------------

  /** The name chain: `name`, the trimmed text, the first `description`'s trimmed text, the `define` attribute; "" for none. */
  function NameJs(attr: Node): (r: string)
    ensures Given(Attr(attr, "name")) ==> r == Attr(attr, "name").value
    ensures !Given(Attr(attr, "name")) && JsTrim(TextContent(attr)) != "" ==> r == JsTrim(TextContent(attr))
    ensures (!Given(Attr(attr, "name")) && JsTrim(TextContent(attr)) == ""
             && TrimmedText(FirstByTag(attr, "description")).None?) ==>
      r == if Given(Attr(attr, "define")) then CamelFromDefine(Attr(attr, "define").value) else ""
  {
    var n := Attr(attr, "name");
    if Given(n) then n.value
    else
      var text := JsTrim(TextContent(attr));
      if text != "" then text
      else
        var desc := TrimmedText(FirstByTag(attr, "description"));
        if desc.Some? then desc.value
        else
          var define := Attr(attr, "define");
          if Given(define) then CamelFromDefine(define.value) else ""
  }

  /**
   * The `description` step of the name chain never supplies a name: it is
   * reached only when the attribute's whole text is white space, and the
   * description's text is part of that text.
   */
  lemma DescriptionNeverNames(attr: Node)
    requires !Given(Attr(attr, "name")) && JsTrim(TextContent(attr)) == ""
    requires TrimmedText(FirstByTag(attr, "description")).Some?
    ensures NameJs(attr) == ""
  {
    var d := FirstByTag(attr, "description").value;
    QueryText(attr, [Tag("description")]);
    assert d in QueryAll(attr, [Tag("description")]);
    var whole := TextContent(attr);
    var part := TextContent(d);
    assert Contains(whole, part);
    TrimEmptyIffAllSpace(JsSpaces, whole);
    ContainsAt(whole, part);
    var i :| OccursAt(whole, part, i);
    forall c | c in part ensures IsSpace(JsSpaces, c) {
      var k :| 0 <= k < |part| && part[k] == c;
      assert whole[i + k] == c;
    }
    TrimEmptyIffAllSpace(JsSpaces, part);
  }

  /** The text nodes among the children up to the first `attribute` element, other elements skipped. */
  function TextBeforeAttribute(cs: seq<Node>): string
    decreases |cs|
  {
    if cs == [] then ""
    else if cs[0].Text? then cs[0].text + TextBeforeAttribute(cs[1..])
    else if cs[0].tag == "attribute" then ""
    else TextBeforeAttribute(cs[1..])
  }

  /** "null" and "MS" are kept as text; anything else goes through parseValue. */
  function SpecialOrParse(v: string, typeName: string): (r: Value)
    ensures v == "null" ==> r == Str("null")
    ensures v == "MS" ==> r == Str("MS")
    ensures v != "null" && v != "MS" ==> r == ParseValue(Some(v), typeName)
  {
    if v == "null" then Str("null")
    else if v == "MS" then Str("MS")
    else ParseValue(Some(v), typeName)
  }

  /** A `default` element that gives null: no `attribute` inside, and text that is all white space. */
  predicate NullDefaultElement(de: Node) {
    FirstByTag(de, "attribute").None? && TextContent(de) != "" && JsTrim(TextContent(de)) == ""
  }

  /** The default value: the `default` attribute, else the first `default` element, else null. */
  function DefaultJs(attr: Node, typeName: string): (r: Value)
    ensures Given(Attr(attr, "default")) ==> r == SpecialOrParse(Attr(attr, "default").value, typeName)
    ensures !Given(Attr(attr, "default")) && FirstByTag(attr, "default").None? ==> r == Null
    ensures !Given(Attr(attr, "default")) && FirstByTag(attr, "default").Some? ==>
      var de := FirstByTag(attr, "default").value;
      if FirstByTag(de, "attribute").Some? then r == Str(TextBeforeAttribute(ChildrenOf(de)))
      else if TextContent(de) != "" then r == SpecialOrParse(JsTrim(TextContent(de)), typeName)
      else r == Str("")
    ensures r == Null <==> (!Given(Attr(attr, "default")) && (FirstByTag(attr, "default").None? || NullDefaultElement(FirstByTag(attr, "default").value)))
  {
    var a := Attr(attr, "default");
    if Given(a) then SpecialOrParse(a.value, typeName)
    else
      match FirstByTag(attr, "default")
      case None => Null
      case Some(de) =>
        if FirstByTag(de, "attribute").Some? then Str(TextBeforeAttribute(ChildrenOf(de)))
        else if TextContent(de) != "" then SpecialOrParse(JsTrim(TextContent(de)), typeName)
        else Str("")
  }

  /** A bound's text: the attribute, or else the first such element's trimmed text. */
  function BoundText(attr: Node, key: string): (r: Option<string>)
    ensures Given(Attr(attr, key)) ==> r == Attr(attr, key)
    ensures !Given(Attr(attr, key)) && TrimmedText(FirstByTag(attr, key)).Some? ==> r == TrimmedText(FirstByTag(attr, key))
    ensures !Given(Attr(attr, key)) && TrimmedText(FirstByTag(attr, key)).None? ==> r == Attr(attr, key)
  {
    var a := Attr(attr, key);
    if Given(a) then a
    else
      var t := TrimmedText(FirstByTag(attr, key));
      if t.Some? then t else a
  }

  /** A bound as a value: a truthy text is parsed; null and "" are kept as they are. */
  function ParseBound(o: Option<string>): (v: Value)
    ensures Given(o) ==> v == NumOf(ParseNumber(o.value))
    ensures !Given(o) ==> v == if o.Some? then Str("") else Null
  {
    if Given(o) then NumOf(ParseNumber(o.value))
    else if o.Some? then Str(o.value)
    else Null
  }

  /** The option names and their numbers, in item order. */
  datatype OptionTable = OptionTable(names: seq<string>, values: seq<JsNumber>)

  /** The `options` list: `{ name: value }` for each option, in order. */
  function Entries(t: OptionTable): (r: seq<Value>)
    requires |t.names| == |t.values|
    ensures |r| == |t.names|
    ensures forall i :: 0 <= i < |r| ==> r[i] == Obj(map[t.names[i] := NumOf(t.values[i])])
  {
    seq(|t.names|, i requires 0 <= i < |t.names| => Obj(map[t.names[i] := NumOf(t.values[i])]))
  }

  /** One option per element with a truthy name and a truthy value, in order; none is skipped because parseInt never throws. */
  function ItemTable(items: seq<Node>, nameKey: string, valueKey: string): (t: OptionTable)
    ensures |t.names| == |t.values| <= |items|
    decreases |items|
  {
    if items == [] then OptionTable([], [])
    else
      var t := ItemTable(items[..|items| - 1], nameKey, valueKey);
      var it := items[|items| - 1];
      var n := Attr(it, nameKey);
      var v := Attr(it, valueKey);
      if Given(n) && Given(v) then OptionTable(t.names + [n.value], t.values + [ParseNumber(v.value)])
      else t
  }

  /** An item yields an option exactly when both its name and its value are truthy. */
  function ItemKept(nameKey: string, valueKey: string): Node -> bool {
    it => Given(Attr(it, nameKey)) && Given(Attr(it, valueKey))
  }

  /** The table's j-th option comes from the j-th item with both keys truthy, in document order. */
  lemma {:induction false} ItemTableRows(items: seq<Node>, nameKey: string, valueKey: string)
    ensures var kept := Filter(items, ItemKept(nameKey, valueKey));
      forall j :: 0 <= j < |kept| ==> Given(Attr(kept[j], nameKey)) && Given(Attr(kept[j], valueKey))
    ensures var t := ItemTable(items, nameKey, valueKey);
      var kept := Filter(items, ItemKept(nameKey, valueKey));
      |t.names| == |kept| &&
      forall j :: 0 <= j < |kept| ==>
        t.names[j] == Attr(kept[j], nameKey).value && t.values[j] == ParseNumber(Attr(kept[j], valueKey).value)
    decreases |items|
  {
    var kept := Filter(items, ItemKept(nameKey, valueKey));
    assert forall j :: 0 <= j < |kept| ==> kept[j] in kept;
    if items != [] {
      ItemTableRows(items[..|items| - 1], nameKey, valueKey);
    }
  }

  /** `Math.min(...vs)`: NaN when any value is NaN, else the least. */
  function JsMin(vs: seq<JsNumber>): (r: JsNumber)
    requires |vs| > 0
    ensures r.NaN? <==> NaN in vs
    ensures r.Finite? ==> r in vs && forall x :: x in vs ==> x.Finite? && r.value <= x.value
    decreases |vs|
  {
    if |vs| == 1 then vs[0]
    else
      var m := JsMin(vs[1..]);
      assert forall x :: x in vs <==> x == vs[0] || x in vs[1..];
      if vs[0].NaN? || m.NaN? then NaN
      else if vs[0].value <= m.value then vs[0] else m
  }

  /** `Math.max(...vs)`: NaN when any value is NaN, else the greatest. */
  function JsMax(vs: seq<JsNumber>): (r: JsNumber)
    requires |vs| > 0
    ensures r.NaN? <==> NaN in vs
    ensures r.Finite? ==> r in vs && forall x :: x in vs ==> x.Finite? && x.value <= r.value
    decreases |vs|
  {
    if |vs| == 1 then vs[0]
    else
      var m := JsMax(vs[1..]);
      assert forall x :: x in vs <==> x == vs[0] || x in vs[1..];
      if vs[0].NaN? || m.NaN? then NaN
      else if vs[0].value >= m.value then vs[0] else m
  }

  /** A falsy bound is replaced by the least (or greatest) option value when there is one. */
  function EnumBound(b: Value, table: Option<OptionTable>, lower: bool): (r: Value)
    ensures table.None? || |table.value.values| == 0 || Truthy(b) ==> r == b
    ensures table.Some? && |table.value.values| > 0 && !Truthy(b) ==>
      r == NumOf(if lower then JsMin(table.value.values) else JsMax(table.value.values))
  {
    if table.Some? && |table.value.values| > 0 && !Truthy(b) then
      NumOf(if lower then JsMin(table.value.values) else JsMax(table.value.values))
    else b
  }

  /** For an enum type, the items of the first document `enum` named after it (none when there is no such enum). */
  function EnumTable(doc: Node, t: string): (r: Option<OptionTable>)
    ensures r.Some? <==> IsEnumType(t)
    ensures r.Some? ==> |r.value.names| == |r.value.values|
    ensures IsEnumType(t) && FirstNamed(DocByTag(doc, "enum"), t).Some? ==>
      r == Some(ItemTable(ByTag(FirstNamed(DocByTag(doc, "enum"), t).value, "item"), "name", "value"))
    ensures IsEnumType(t) && FirstNamed(DocByTag(doc, "enum"), t).None? ==> r == Some(OptionTable([], []))
  {
    if !IsEnumType(t) then None
    else
      match FirstNamed(DocByTag(doc, "enum"), t)
      case Some(e) => Some(ItemTable(ByTag(e, "item"), "name", "value"))
      case None => Some(OptionTable([], []))
  }

  /** The unit: `unit` attribute, else the `unit` element's text, else inferred from the name and type; "" for none. */
  function UnitsJs(attr: Node, name: string, t: string): (r: string)
    ensures Given(Attr(attr, "unit")) ==> r == Attr(attr, "unit").value
    ensures !Given(Attr(attr, "unit")) && Given(TrimmedText(FirstByTag(attr, "unit"))) ==>
      r == TrimmedText(FirstByTag(attr, "unit")).value
    ensures !Given(Attr(attr, "unit")) && !Given(TrimmedText(FirstByTag(attr, "unit"))) ==>
      r == if Contains(name, "Time") && t in ["uint16", "int16"] then "0.1s"
           else if Contains(name, "Level") && t in ["uint8", "int8"] then "%"
           else ""
  {
    var u := Attr(attr, "unit");
    var given := if Given(u) then u else TrimmedText(FirstByTag(attr, "unit"));
    if Given(given) then given.value
    else if Contains(name, "Time") && t in ["uint16", "int16"] then "0.1s"
    else if Contains(name, "Level") && t in ["uint8", "int8"] then "%"
    else ""
  }

  /** The description: the attribute, else the first `description` element's trimmed text, else `<name><suffix>`. */
  function DescriptionJs(e: Node, name: string, suffix: string): (r: string)
    ensures r != "" || name + suffix == ""
    ensures Given(Attr(e, "description")) ==> r == Attr(e, "description").value
    ensures !Given(Attr(e, "description")) && Given(TrimmedText(FirstByTag(e, "description"))) ==>
      r == TrimmedText(FirstByTag(e, "description")).value
    ensures !Given(Attr(e, "description")) && !Given(TrimmedText(FirstByTag(e, "description"))) ==> r == name + suffix
  {
    var d := OrElse(Attr(e, "description"), "");
    var d2 := if d == "" then TrimmedText(FirstByTag(e, "description")).GetOr("") else d;
    if d2 == "" then name + suffix else d2
  }

  /** The `name` of the first `feature` inside the first `mandatoryConform`. */
  function FeatureDep(e: Node): (r: Option<string>)
    ensures r.Some? ==>
      && FirstByTag(e, "mandatoryConform").Some?
      && FirstByTag(FirstByTag(e, "mandatoryConform").value, "feature").Some?
      && r == Attr(FirstByTag(FirstByTag(e, "mandatoryConform").value, "feature").value, "name")
    ensures FirstByTag(e, "mandatoryConform").None? ==> r.None?
    ensures FirstByTag(e, "mandatoryConform").Some? && FirstByTag(FirstByTag(e, "mandatoryConform").value, "feature").None? ==> r.None?
    ensures FirstByTag(e, "mandatoryConform").Some? && FirstByTag(FirstByTag(e, "mandatoryConform").value, "feature").Some? ==>
      r == Attr(FirstByTag(FirstByTag(e, "mandatoryConform").value, "feature").value, "name")
  {
    match FirstByTag(e, "mandatoryConform")
    case None => None
    case Some(mc) =>
      match FirstByTag(mc, "feature")
      case None => None
      case Some(f) => Attr(f, "name")
  }

  /** Everything `parseAttributes` computes for a named attribute. */
  function AttributeRecordJs(attr: Node, name: string, doc: Node): (d: AttributeDef)
    ensures d.typeName == NormalizeType(Attr(attr, "type"))
    ensures d.mandatory <==> !IsTrue(Attr(attr, "optional"))
    ensures d.reportable <==> Attr(attr, "side") == Some("server")
    ensures d.nullable <==> IsTrue(Attr(attr, "isNullable")) || IsTrue(Attr(attr, "nullable"))
    ensures d.options.Some? <==> IsEnumType(d.typeName)
    ensures d.permissions == Permissions(IsTrue(Attr(attr, "writable")) || Attr(attr, "side") == Some("server"))
    ensures d.code == FormatCode(Or(Attr(attr, "code"), Attr(attr, "id")))
    ensures d.description == DescriptionJs(attr, name, " attribute")
    ensures d.units == UnitsJs(attr, name, d.typeName) && d.featureDependent == FeatureDep(attr)
    ensures d.defaultValue == DefaultJs(attr, d.typeName)
  {
    var t := NormalizeType(Attr(attr, "type"));
    AttributeRecordWith(attr, name, t, DefaultJs(attr, t), EnumTable(doc, t))
  }

  /** The attribute record once its type, default value and option table are known. */
  function AttributeRecordWith(attr: Node, name: string, t: string, defaultValue: Value, table: Option<OptionTable>)
    : (d: AttributeDef)
    requires table.Some? ==> |table.value.names| == |table.value.values|
    ensures d.typeName == t && d.defaultValue == defaultValue
    ensures d.options.Some? <==> table.Some?
    ensures d.code == FormatCode(Or(Attr(attr, "code"), Attr(attr, "id")))
    ensures d.description == DescriptionJs(attr, name, " attribute")
    ensures d.units == UnitsJs(attr, name, t) && d.featureDependent == FeatureDep(attr)
    ensures d.min == EnumBound(ParseBound(BoundText(attr, "min")), table, true)
    ensures d.max == EnumBound(ParseBound(BoundText(attr, "max")), table, false)
  {
    AttributeDef(
      code := FormatCode(Or(Attr(attr, "code"), Attr(attr, "id"))),
      typeName := t,
      mandatory := !IsTrue(Attr(attr, "optional")),
      description := DescriptionJs(attr, name, " attribute"),
      reportable := Attr(attr, "side") == Some("server"),
      nullable := IsTrue(Attr(attr, "isNullable")) || IsTrue(Attr(attr, "nullable")),
      featureDependent := FeatureDep(attr),
      defaultValue := defaultValue,
      min := EnumBound(ParseBound(BoundText(attr, "min")), table, true),
      max := EnumBound(ParseBound(BoundText(attr, "max")), table, false),
      units := UnitsJs(attr, name, t),
      options := if table.Some? then Some(Entries(table.value)) else None,
      permissions := Permissions(IsTrue(Attr(attr, "writable")) || Attr(attr, "side") == Some("server")))
  }

  /** A bound is written unless it is null or "". */
  predicate Emitted(v: Value) {
    v != Null && v != Str("")
  }

  /** The range keys: no `min`/`max` for bool types nor for null or "" bounds; `options` whenever a list was started. */
  function RangeKeys(d: AttributeDef): (m: map<string, Value>)
    ensures m.Keys <= {"min", "max", "units", "options"}
    ensures "min" in m <==> d.typeName != "bool" && d.typeName != "boolean" && Emitted(d.min)
    ensures "max" in m <==> d.typeName != "bool" && d.typeName != "boolean" && Emitted(d.max)
    ensures "min" in m ==> m["min"] == d.min
    ensures "max" in m ==> m["max"] == d.max
    ensures "units" in m <==> d.units != ""
    ensures "options" in m <==> d.options.Some?
    ensures "options" in m ==> m["options"] == Arr(d.options.value)
  {
    var bounded := d.typeName != "bool" && d.typeName != "boolean";
    var m1 := if bounded && Emitted(d.min) then map["min" := d.min] else map[];
    var m2 := if bounded && Emitted(d.max) then m1["max" := d.max] else m1;
    var m3 := if d.units != "" then m2["units" := Str(d.units)] else m2;
    if d.options.Some? then m3["options" := Arr(d.options.value)] else m3
  }

  /**
   * The attribute's JSON object: five keys always; `min` and `max` only for a
   * non-bool type and a bound that is neither null nor ""; `options` whenever
   * an option list was started.
   */
  function AttributeJson(d: AttributeDef): (m: map<string, Value>)
    ensures {"code", "type", "mandatory", "description", "permissions"} <= m.Keys
    ensures "min" in m <==> d.typeName != "bool" && d.typeName != "boolean" && Emitted(d.min)
    ensures "max" in m <==> d.typeName != "bool" && d.typeName != "boolean" && Emitted(d.max)
    ensures "min" in m ==> m["min"] == d.min
    ensures "max" in m ==> m["max"] == d.max
    ensures "options" in m <==> d.options.Some?
    ensures "options" in m ==> m["options"] == Arr(d.options.value)
  {
    var fixed := FixedKeys(d);
    var flags := FlagKeys(d);
    var range := RangeKeys(d);
    RangeAfterFlags(fixed, flags, range);
    fixed + flags + range
  }

  /** The entry `attributes[name] = attrDef`, or none for an attribute without a name. */
  function AttributeEntryJs(attr: Node, doc: Node): (e: Option<Entry>)
    ensures e.Some? <==> NameJs(attr) != ""
    ensures e.Some? ==> e.value.key == NameJs(attr)
  {
    var name := NameJs(attr);
    if name == "" then None else Some(Entry(name, Obj(AttributeJson(AttributeRecordJs(attr, name, doc)))))
  }

  /** The `attribute` elements read: those directly inside an `attributes` element when there is one, else all. */
  function AttributeElementsJs(cluster: Node): seq<Node> {
    match FirstByTag(cluster, "attributes")
    case Some(c) => QueryAll(c, [ChildOf("attributes", "attribute")])
    case None => ByTag(cluster, "attribute")
  }

  function AttributeEntriesJs(elems: seq<Node>, doc: Node): (es: seq<Option<Entry>>)
    ensures |es| == |elems| && forall i :: 0 <= i < |elems| ==> es[i] == AttributeEntryJs(elems[i], doc)
  {
    seq(|elems|, i requires 0 <= i < |elems| => AttributeEntryJs(elems[i], doc))
  }

  /** `parseAttributes(clusterElem, root)`. */
  function AttributesJs(cluster: Node, doc: Node): map<string, Value> {
    KeyedMap(AttributeEntriesJs(AttributeElementsJs(cluster), doc))
  }

  /** Every attribute of an enum type carries `options`, an empty list when no matching enum is found. */
  lemma EnumAlwaysHasOptions(attr: Node, name: string, doc: Node)
    requires IsEnumType(NormalizeType(Attr(attr, "type")))
    ensures "options" in AttributeJson(AttributeRecordJs(attr, name, doc))
    ensures FirstNamed(DocByTag(doc, "enum"), NormalizeType(Attr(attr, "type"))).None? ==>
      AttributeJson(AttributeRecordJs(attr, name, doc))["options"] == Arr([])
  {
  }

  /** With enum values and a falsy `min`, the written `min` is the least enum value, which bounds every value. */
  lemma EnumMinIsLeast(attr: Node, name: string, doc: Node)
    requires var t := NormalizeType(Attr(attr, "type"));
      var table := EnumTable(doc, t);
      table.Some? && |table.value.values| > 0 && NaN !in table.value.values
      && !Truthy(ParseBound(BoundText(attr, "min")))
    ensures var d := AttributeRecordJs(attr, name, doc);
      var vs := EnumTable(doc, d.typeName).value.values;
      d.min.Num? && Finite(d.min.n) in vs && forall x :: x in vs ==> d.min.n <= x.value
  {
  }

  /** Attributes are stored under their resolved names; nameless ones are not stored. */
  lemma AttributesKeys(cluster: Node, doc: Node)
    ensures AttributesJs(cluster, doc).Keys ==
      set a | a in AttributeElementsJs(cluster) && NameJs(a) != "" :: NameJs(a)
  {
    var elems := AttributeElementsJs(cluster);
    var es := AttributeEntriesJs(elems, doc);
    KeyedMapKeys(es);
    var names := set a | a in elems && NameJs(a) != "" :: NameJs(a);
    forall k | k in KeysOf(es) ensures k in names {
      var i :| 0 <= i < |es| && es[i].Some? && es[i].value.key == k;
      var e := AttributeEntryJs(elems[i], doc);
      assert es[i] == e && e.value.key == NameJs(elems[i]);
    }
    forall a | a in elems && NameJs(a) != "" ensures NameJs(a) in KeysOf(es) {
      var i :| 0 <= i < |elems| && elems[i] == a;
      var e := AttributeEntryJs(elems[i], doc);
      assert es[i] == e && e.Some?;
    }
  }

  // ---------------------------------------------------------------------
  // Commands
  // ---------------------------------------------------------------------

  /** The first document `enum` named `t`, else the first `bitmap` named `t`. */
  function TargetDef(doc: Node, t: string): (r: Option<Node>)
    ensures FirstNamed(DocByTag(doc, "enum"), t).Some? ==> r == FirstNamed(DocByTag(doc, "enum"), t)
    ensures FirstNamed(DocByTag(doc, "enum"), t).None? ==> r == FirstNamed(DocByTag(doc, "bitmap"), t)
  {
    var e := FirstNamed(DocByTag(doc, "enum"), t);
    if e.Some? then e else FirstNamed(DocByTag(doc, "bitmap"), t)
  }

  function Append(a: OptionTable, b: OptionTable): (r: OptionTable)
    requires |a.names| == |a.values| && |b.names| == |b.values|
    ensures |r.names| == |r.values|
    ensures r.names == a.names + b.names && r.values == a.values + b.values
  {
    OptionTable(a.names + b.names, a.values + b.values)
  }

  /** For enum and bitmap types: the definition's `item` values, then its `field` masks. */
  function ArgTable(doc: Node, t: string): (r: Option<OptionTable>)
    ensures r.Some? <==> IsArgEnumType(t)
    ensures r.Some? ==> |r.value.names| == |r.value.values|
    ensures IsArgEnumType(t) && TargetDef(doc, t).None? ==> r == Some(OptionTable([], []))
    ensures IsArgEnumType(t) && TargetDef(doc, t).Some? ==>
      var e := TargetDef(doc, t).value;
      var items := ItemTable(ByTag(e, "item"), "name", "value");
      var fields := ItemTable(ByTag(e, "field"), "name", "mask");
      r.value.names == items.names + fields.names && r.value.values == items.values + fields.values
  {
    if !IsArgEnumType(t) then None
    else
      match TargetDef(doc, t)
      case None => Some(OptionTable([], []))
      case Some(e) => Some(Append(ItemTable(ByTag(e, "item"), "name", "value"), ItemTable(ByTag(e, "field"), "name", "mask")))
  }

  /** The argument's `id`: its parsed `id` attribute, else its position among accepted arguments. */
  function ArgId(arg: Node, position: nat): (v: Value)
    ensures !Given(Attr(arg, "id")) ==> v == Num(position)
    ensures Given(Attr(arg, "id")) ==> v == NumOf(JsParseInt(Attr(arg, "id").value, Unspecified))
  {
    var id := Attr(arg, "id");
    if Given(id) then NumOf(JsParseInt(id.value, Unspecified)) else Num(position)
  }

  /** Everything computed for an argument that has a name, at the given position. */
  function ArgumentRecordJs(arg: Node, position: nat, doc: Node): (a: ArgumentDef)
    ensures a.id == ArgId(arg, position)
    ensures a.typeName == NormalizeType(Attr(arg, "type"))
    ensures a.options.Some? <==> IsArgEnumType(a.typeName)
  {
    var t := NormalizeType(Attr(arg, "type"));
    ArgumentRecordWith(arg, position, t, ArgTable(doc, t))
  }

  /** The argument record once its type and option table are known. */
  function ArgumentRecordWith(arg: Node, position: nat, t: string, table: Option<OptionTable>): (a: ArgumentDef)
    requires table.Some? ==> |table.value.names| == |table.value.values|
    ensures a.id == ArgId(arg, position) && a.typeName == t && a.name == Attr(arg, "name").GetOr("")
    ensures a.min == EnumBound(ParseBound(Attr(arg, "min")), table, true)
    ensures a.max == EnumBound(ParseBound(Attr(arg, "max")), table, false)
    ensures a.options.Some? <==> table.Some?
    ensures table.Some? ==> a.options.value == Entries(table.value)
  {
    ArgumentDef(
      id := ArgId(arg, position),
      name := Attr(arg, "name").GetOr(""),
      typeName := t,
      min := EnumBound(ParseBound(Attr(arg, "min")), table, true),
      max := EnumBound(ParseBound(Attr(arg, "max")), table, false),
      options := if table.Some? then Some(Entries(table.value)) else None)
  }

  /** The argument's JSON object: `min`/`max` unless null, `options` whenever a list was started. */
  function ArgumentJson(a: ArgumentDef): (m: map<string, Value>)
    ensures m.Keys >= {"id", "name", "type"} && m.Keys <= {"id", "name", "type", "min", "max", "options"}
    ensures m["id"] == a.id && m["name"] == Str(a.name) && m["type"] == Str(a.typeName)
    ensures "min" in m <==> a.min != Null
    ensures "min" in m ==> m["min"] == a.min
    ensures "max" in m <==> a.max != Null
    ensures "max" in m ==> m["max"] == a.max
    ensures "options" in m <==> a.options.Some?
    ensures "options" in m ==> m["options"] == Arr(a.options.value)
  {
    var m0 := map["id" := a.id, "name" := Str(a.name), "type" := Str(a.typeName)];
    var m1 := PutIf(m0, a.min != Null, "min", a.min);
    var m2 := PutIf(m1, a.max != Null, "max", a.max);
    PutIf(m2, a.options.Some?, "options", if a.options.Some? then Arr(a.options.value) else Null)
  }

  /** The argument object written at `position`. */
  function ArgValue(arg: Node, position: nat, doc: Node): Value {
    Obj(ArgumentJson(ArgumentRecordJs(arg, position, doc)))
  }

  /** The arguments list: nameless arguments are skipped and take no position. */
  function ArgsJs(args: seq<Node>, doc: Node): seq<Value> {
    MapAccepted(args, HasName, (a, position) => ArgValue(a, position, doc))
  }

  /** The j-th written argument is the j-th named one, with `id` defaulting to j. */
  lemma ArgsPositional(args: seq<Node>, doc: Node)
    ensures |ArgsJs(args, doc)| == |Filter(args, HasName)|
    ensures forall j :: 0 <= j < |Filter(args, HasName)| ==>
      ArgsJs(args, doc)[j] == ArgValue(Filter(args, HasName)[j], j, doc)
  {
    MapAcceptedPositional(args, HasName, (a, position) => ArgValue(a, position, doc));
  }

  /** Everything `parseCommands` computes for a command that has a name. */
  function CommandRecordJs(cmd: Node, name: string, doc: Node): (c: CommandDef)
    ensures c.id == FormatCommandId(Or(Attr(cmd, "code"), Attr(cmd, "id")))
    ensures c.mandatory <==> !IsTrue(Attr(cmd, "optional"))
    ensures c.arguments == ArgsJs(ByTag(cmd, "arg"), doc)
    ensures c.description == DescriptionJs(cmd, name, " command") && c.featureDependent == FeatureDep(cmd)
  {
    CommandDef(
      id := FormatCommandId(Or(Attr(cmd, "code"), Attr(cmd, "id"))),
      mandatory := !IsTrue(Attr(cmd, "optional")),
      description := DescriptionJs(cmd, name, " command"),
      arguments := ArgsJs(ByTag(cmd, "arg"), doc),
      featureDependent := FeatureDep(cmd))
  }

  /** The entry `commands[name] = cmdDef`, or none for a command without a `name`. */
  function CommandEntryJs(cmd: Node, doc: Node): (e: Option<Entry>)
    ensures e.Some? <==> Given(Attr(cmd, "name"))
    ensures e.Some? ==> e.value.key == Attr(cmd, "name").value
  {
    var name := Attr(cmd, "name");
    if !Given(name) then None else Some(Entry(name.value, Obj(CommandJson(CommandRecordJs(cmd, name.value, doc)))))
  }

  /** The `command` elements read: those directly inside a `commands` element when there is one, else all. */
  function CommandElementsJs(cluster: Node): seq<Node> {
    match FirstByTag(cluster, "commands")
    case Some(c) => QueryAll(c, [ChildOf("commands", "command")])
    case None => ByTag(cluster, "command")
  }

  function CommandEntriesJs(elems: seq<Node>, doc: Node): (es: seq<Option<Entry>>)
    ensures |es| == |elems| && forall i :: 0 <= i < |elems| ==> es[i] == CommandEntryJs(elems[i], doc)
  {
    seq(|elems|, i requires 0 <= i < |elems| => CommandEntryJs(elems[i], doc))
  }

  /** `parseCommands(clusterElem, root)`. */
  function CommandsJs(cluster: Node, doc: Node): map<string, Value> {
    KeyedMap(CommandEntriesJs(CommandElementsJs(cluster), doc))
  }

  /** Commands are stored under their names; a command without a truthy name is not stored. */
  lemma CommandsKeysJs(cluster: Node, doc: Node)
    ensures CommandsJs(cluster, doc).Keys ==
      set c | c in CommandElementsJs(cluster) && Given(Attr(c, "name")) :: Attr(c, "name").value
  {
    var elems := CommandElementsJs(cluster);
    var es := CommandEntriesJs(elems, doc);
    KeyedMapKeys(es);
    var names := set c | c in elems && Given(Attr(c, "name")) :: Attr(c, "name").value;
    forall k | k in KeysOf(es) ensures k in names {
      var i :| 0 <= i < |es| && es[i].Some? && es[i].value.key == k;
      assert es[i] == CommandEntryJs(elems[i], doc);
    }
    forall c | c in elems && Given(Attr(c, "name")) ensures Attr(c, "name").value in KeysOf(es) {
      var i :| 0 <= i < |elems| && elems[i] == c;
      assert es[i] == CommandEntryJs(elems[i], doc) && es[i].Some?;
    }
  }

  // ---------------------------------------------------------------------
  // Features
  // ---------------------------------------------------------------------

  /** The feature's JSON object, for a feature with a code and a name. */
  function FeatureRecordJs(f: Node): (d: FeatureDef)
    ensures d.code == Attr(f, "code").GetOr("") && d.name == Attr(f, "name").GetOr("")
    ensures Given(Attr(f, "summary")) ==> d.summary == Attr(f, "summary").value
    ensures !Given(Attr(f, "summary")) ==> d.summary == TrimmedText(FirstByTag(f, "summary")).GetOr("")
    ensures d.bit.Some? <==> Given(Attr(f, "bit"))
    ensures d.bit.Some? ==> d.bit.value == NumOf(JsParseInt(Attr(f, "bit").value, Unspecified))
  {
    var summary := OrElse(Attr(f, "summary"), "");
    FeatureDef(
      code := Attr(f, "code").GetOr(""),
      name := Attr(f, "name").GetOr(""),
      summary := if summary == "" then TrimmedText(FirstByTag(f, "summary")).GetOr("") else summary,
      bit := if Given(Attr(f, "bit")) then Some(NumOf(JsParseInt(Attr(f, "bit").value, Unspecified))) else None)
  }

  /** The entry `features[code] = featureDef`, or none when `code` or `name` is missing. */
  function FeatureEntryJs(f: Node): (e: Option<Entry>)
    ensures e.Some? <==> Given(Attr(f, "code")) && Given(Attr(f, "name"))
    ensures e.Some? ==> e.value.key == Attr(f, "code").value
  {
    if !Given(Attr(f, "code")) || !Given(Attr(f, "name")) then None
    else Some(Entry(Attr(f, "code").value, Obj(FeatureJson(FeatureRecordJs(f)))))
  }

  /** The `feature` elements anywhere inside the first `features` element. */
  function FeatureElementsJs(cluster: Node): seq<Node> {
    match FirstByTag(cluster, "features")
    case Some(fs) => ByTag(fs, "feature")
    case None => []
  }

  function FeatureEntriesJs(elems: seq<Node>): (es: seq<Option<Entry>>)
    ensures |es| == |elems| && forall i :: 0 <= i < |elems| ==> es[i] == FeatureEntryJs(elems[i])
  {
    seq(|elems|, i requires 0 <= i < |elems| => FeatureEntryJs(elems[i]))
  }

  /** `parseFeatures(clusterElem)`. */
  function FeaturesJs(cluster: Node): map<string, Value> {
    KeyedMap(FeatureEntriesJs(FeatureElementsJs(cluster)))
  }

  /** Features are stored under their codes; one without a truthy code and a truthy name is not stored. */
  lemma FeaturesKeysJs(cluster: Node)
    ensures FeaturesJs(cluster).Keys ==
      set f | f in FeatureElementsJs(cluster) && Given(Attr(f, "code")) && Given(Attr(f, "name")) :: Attr(f, "code").value
  {
    var elems := FeatureElementsJs(cluster);
    var es := FeatureEntriesJs(elems);
    KeyedMapKeys(es);
    var codes := set f | f in elems && Given(Attr(f, "code")) && Given(Attr(f, "name")) :: Attr(f, "code").value;
    forall k | k in KeysOf(es) ensures k in codes {
      var i :| 0 <= i < |es| && es[i].Some? && es[i].value.key == k;
      assert es[i] == FeatureEntryJs(elems[i]);
    }
    forall f | f in elems && Given(Attr(f, "code")) && Given(Attr(f, "name")) ensures Attr(f, "code").value in KeysOf(es) {
      var i :| 0 <= i < |elems| && elems[i] == f;
      assert es[i] == FeatureEntryJs(elems[i]) && es[i].Some?;
    }
  }

  // ---------------------------------------------------------------------
  // Cluster identity and the output document
  // ---------------------------------------------------------------------

  /** Characters removed from the lower-cased name in the id slug: white space, `/` and `-`. */
  predicate IsSlugDropped(c: char) {
    IsJsSpace(c) || c == '/' || c == '-'
  }

  /** `com.matter.cluster.` + the name lower-cased without white space, `/` and `-`. */
  function SlugJs(name: string): (r: string)
    ensures r == SlugPrefix + RemoveAll(Lower(name), IsSlugDropped)
    ensures StartsWith(r, SlugPrefix)
    ensures forall i :: |SlugPrefix| <= i < |r| ==> !IsSlugDropped(r[i]) && !('A' <= r[i] <= 'Z')
  {
    var tail := RemoveAll(Lower(name), IsSlugDropped);
    RemoveAllKeeps(Lower(name), IsSlugDropped);
    forall i | 0 <= i < |tail| ensures !('A' <= tail[i] <= 'Z') {
      assert tail[i] in Lower(name);
    }
    SlugPrefix + tail
  }

  /** The attributes, with `||`: `name` else "Unknown"; `id`, else `code`, else "0x0000". */
  function AttrIdentityJs(cluster: Node): (k: Identity)
    ensures Given(Attr(cluster, "name")) ==> k.name == Attr(cluster, "name").value
    ensures !Given(Attr(cluster, "name")) ==> k.name == "Unknown"
    ensures Given(Attr(cluster, "id")) ==> k.id == Attr(cluster, "id").value
    ensures !Given(Attr(cluster, "id")) && Given(Attr(cluster, "code")) ==> k.id == Attr(cluster, "code").value
    ensures !Given(Attr(cluster, "id")) && !Given(Attr(cluster, "code")) ==> k.id == "0x0000"
  {
    Identity(OrElse(Attr(cluster, "name"), "Unknown"), OrElse(Or(Attr(cluster, "id"), Attr(cluster, "code")), "0x0000"))
  }

  /**
   * The first `clusterIds` descendant's first `clusterId`, consulted when the
   * id is the placeholder or the name is missing: it fills only the parts that
   * are missing, each from its truthy attribute.
   */
  function IdsFallbackJs(cluster: Node, k: Identity): (r: Identity)
    ensures !NameMissing(k.name) ==> r.name == k.name
    ensures !IdMissing(k.id) ==> r.id == k.id
    ensures r != k ==> FirstByTag(cluster, "clusterIds").Some? && FirstByTag(FirstByTag(cluster, "clusterIds").value, "clusterId").Some?
    ensures var ids := FirstByTag(cluster, "clusterIds");
      var idElem := if ids.Some? && (k.id == "0x0000" || NameMissing(k.name)) then FirstByTag(ids.value, "clusterId") else None;
      (idElem.Some? && NameMissing(k.name) && Given(Attr(idElem.value, "name")) ==> r.name == Attr(idElem.value, "name").value)
      && (idElem.Some? && IdMissing(k.id) && Given(Attr(idElem.value, "id")) ==> r.id == Attr(idElem.value, "id").value)
  {
    var idElem :=
      if k.id == "0x0000" || NameMissing(k.name) then
        match FirstByTag(cluster, "clusterIds")
        case Some(ids) => FirstByTag(ids, "clusterId")
        case None => None
      else None;
    Identity(
      if idElem.Some? && NameMissing(k.name) then OrElse(Attr(idElem.value, "name"), k.name) else k.name,
      if idElem.Some? && IdMissing(k.id) then OrElse(Attr(idElem.value, "id"), k.id) else k.id)
  }

  /** The first `name` and `code` descendants' trimmed text, consulted for a name still "Unknown" and an id still "0x0000". */
  function ChildFallbackJs(cluster: Node, k: Identity): (r: Identity)
    ensures k.name != "Unknown" ==> r.name == k.name
    ensures k.id != "0x0000" ==> r.id == k.id
    ensures k.name == "Unknown" && TrimmedText(FirstByTag(cluster, "name")).Some? ==>
      r.name == TrimmedText(FirstByTag(cluster, "name")).value
    ensures k.id == "0x0000" && TrimmedText(FirstByTag(cluster, "code")).Some? ==>
      r.id == TrimmedText(FirstByTag(cluster, "code")).value
  {
    Identity(
      if k.name == "Unknown" then TrimmedText(FirstByTag(cluster, "name")).GetOr(k.name) else k.name,
      if k.id == "0x0000" then TrimmedText(FirstByTag(cluster, "code")).GetOr(k.id) else k.id)
  }

  /** The name and id after the whole fallback chain. */
  function IdentityJs(cluster: Node): Identity {
    ChildFallbackJs(cluster, IdsFallbackJs(cluster, AttrIdentityJs(cluster)))
  }

  /** `extractClusterInfo(clusterElem, xmlSource)`. */
  function ClusterInfoJs(cluster: Node, xmlSource: string): (info: ClusterInfo)
    ensures StartsWith(info.id, SlugPrefix) && info.id == SlugJs(info.name)
    ensures info.xmlSource == xmlSource
    ensures StartsWith(info.clusterId, "0x")
    ensures info.name == IdentityJs(cluster).name
    ensures Given(Attr(cluster, "name")) && Attr(cluster, "name").value != "Unknown" ==> info.name == Attr(cluster, "name").value
    ensures Given(Attr(cluster, "id")) && StartsWith(Attr(cluster, "id").value, "0x") && Attr(cluster, "id").value != "0x0000" ==>
      info.clusterId == Attr(cluster, "id").value
    ensures StartsWith(IdentityJs(cluster).id, "0x") ==> info.clusterId == IdentityJs(cluster).id
    ensures !StartsWith(IdentityJs(cluster).id, "0x") ==> info.clusterId == HexOfParsed(IdentityJs(cluster).id, 4)
    ensures TrimmedText(FirstByTag(cluster, "description")).Some? ==>
      info.description == TrimmedText(FirstByTag(cluster, "description")).value
    ensures TrimmedText(FirstByTag(cluster, "description")).None? ==> info.description == "Matter " + info.name + " Cluster"
  {
    var k := IdentityJs(cluster);
    ClusterInfo(
      id := SlugJs(k.name),
      clusterId := if !StartsWith(k.id, "0x") then HexOfParsed(k.id, 4) else k.id,
      name := k.name,
      description := TrimmedText(FirstByTag(cluster, "description")).GetOr("Matter " + k.name + " Cluster"),
      xmlSource := xmlSource)
  }

  /** With no id anywhere (attributes, `clusterIds/clusterId`, or a `code` element with text) the cluster id is "0x0000". */
  lemma ClusterIdMissingJs(cluster: Node, xmlSource: string)
    requires !Given(Attr(cluster, "id")) && !Given(Attr(cluster, "code"))
    requires var ids := FirstByTag(cluster, "clusterIds");
      ids.None? || FirstByTag(ids.value, "clusterId").None? || !Given(Attr(FirstByTag(ids.value, "clusterId").value, "id"))
    requires TrimmedText(FirstByTag(cluster, "code")).None?
    ensures ClusterInfoJs(cluster, xmlSource).clusterId == "0x0000"
  {
    var k0 := AttrIdentityJs(cluster);
    var k1 := IdsFallbackJs(cluster, k0);
    assert k1.id == "0x0000";
  }

  /** A cluster with a proper name and a decimal `id` gets that id as `0x` and four or more upper-case hex digits, which read back as the id. */
  lemma ClusterIdFromDecimal(cluster: Node, xmlSource: string)
    requires Given(Attr(cluster, "name")) && Attr(cluster, "name").value != "Unknown"
    requires Given(Attr(cluster, "id")) && IsDecimal(Attr(cluster, "id").value)
    ensures var info := ClusterInfoJs(cluster, xmlSource);
      var n := ValueOf(Attr(cluster, "id").value, 10);
      info.name == Attr(cluster, "name").value
      && info.clusterId == "0x" + PaddedHex(n, 4)
      && JsParseInt(info.clusterId, Radix16) == Finite(n)
  {
    var id := Attr(cluster, "id").value;
    DecimalNotHex(id);
    var k0 := AttrIdentityJs(cluster);
    assert k0 == Identity(Attr(cluster, "name").value, id);
    var k1 := IdsFallbackJs(cluster, k0);
    assert k1 == k0;
    assert ChildFallbackJs(cluster, k1) == k0;
    var info := ClusterInfoJs(cluster, xmlSource);
    assert info.name == Attr(cluster, "name").value && info.clusterId == HexOfParsed(id, 4);
    HexOfDecimal(id, 4);
    JsHexRoundTrip(ValueOf(id, 10), 4);
  }

  /** The cluster element: the document element when it is a `cluster`, else the first `cluster` in the document. */
  function FindClusterJs(doc: Node): (r: Option<Node>)
    ensures r.Some? ==> r.value.Element? && r.value.tag == "cluster"
    ensures r.None? <==> DocByTag(doc, "cluster") == []
    ensures r.Some? ==> r.value == DocByTag(doc, "cluster")[0]
  {
    SelectTag(Subtree(doc, []), "cluster");
    if doc.Element? && doc.tag == "cluster" then
      assert Subtree(doc, [])[0] == Hit([], doc);
      assert Matches(Hit([], doc), [Tag("cluster")][0]);
      assert doc in DocByTag(doc, "cluster");
      Some(doc)
    else DocFirstByTag(doc, "cluster")
  }

  /** The whole generator on a parsed document: the error exit when there is no cluster, else the output document. */
  function DocumentJs(doc: Node, xmlSource: string): (r: Result<Value>)
    ensures r.Failure? <==> FindClusterJs(doc).None?
    ensures r.Failure? ==> r.error == "No cluster element found in XML"
  {
    match FindClusterJs(doc)
    case None => Failure("No cluster element found in XML")
    case Some(cluster) =>
      Success(DocumentJson(
        ClusterInfoJs(cluster, xmlSource),
        CapabilitiesJson(AttributesJs(cluster, doc), CommandsJs(cluster, doc), FeaturesJs(cluster))))
  }
}
