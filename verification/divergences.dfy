/**
 * Where the JavaScript generator (TestScripts/generate_capabilities_js.js)
 * and the Python original it was ported from
 * (scripts/generate_matter_cluster_json.py) read the same XML differently.
 */
module Divergences {
  import opened Wrappers
  import opened Text
  import opened Xml
  import opened Json
  import opened Records
  import CapabilitiesJs
  import CapabilitiesPy

  /** The four 32- and 64-bit names are renamed by the JavaScript port only; every other type name is read alike. */
  lemma RenamesDiffer(t: Option<string>)
    ensures CapabilitiesJs.NormalizeType(t) != CapabilitiesPy.NormalizeTypePy(t) <==>
      Given(t) && t.value in ["int32u", "int32s", "int64u", "int64s"]
  {
    if Given(t) && t.value in CapabilitiesPy.PyTypeRenames {
      assert t.value in CapabilitiesJs.TypeRenames;
    }
  }

  /** Lower-casing keeps the length and turns a character into '1' only when it is '1'. */
  lemma LowerIsOne(v: string)
    ensures Lower(v) == "1" <==> v == "1"
  {
    if Lower(v) == "1" {
      assert |v| == 1;
    }
  }

  /**
   * A non-empty boolean default reads the same in both, except a spelling
   * of "yes" other than the lower-case one: Python lower-cases before the
   * comparison, the port compares `yes` as written.
   */
  lemma BoolReadingsDiffer(v: string)
    requires v != ""
    ensures CapabilitiesJs.ParseValue(Some(v), "bool") != CapabilitiesPy.ConvertDefaultPy(v, "bool") <==>
      Lower(v) == "yes" && v != "yes"
  {
    LowerIsOne(v);
    assert Lower(v) in ["true", "1", "yes"] <==> Lower(v) == "true" || Lower(v) == "1" || Lower(v) == "yes";
  }

  /** So `YES` is false in the port and true in the original. */
  lemma UpperYes()
    ensures CapabilitiesJs.ParseValue(Some("YES"), "bool") == Bool(false)
    ensures CapabilitiesPy.ConvertDefaultPy("YES", "bool") == Bool(true)
  {
    assert Lower("YES") == "yes";
    assert "bool" !in CapabilitiesJs.TypeRenames;
    CapabilitiesJs.ParseValueBool("YES", "bool");
    CapabilitiesPy.DefaultBoolPy("YES");
  }

  /** An option list that was started but stayed empty is written as `options: []` by the port and left out by the original. */
  lemma EmptyOptionsDiffer(d: AttributeDef)
    requires d.options == Some([])
    ensures "options" in CapabilitiesJs.AttributeJson(d) && CapabilitiesJs.AttributeJson(d)["options"] == Arr([])
    ensures "options" !in CapabilitiesPy.AttributeJsonPy(d)
  {
  }

  /**
   * Without an `attributes` element, the original reads the `attribute`
   * children of the cluster and the port reads every `attribute` below it:
   * the original's elements are among the port's.
   */
  lemma AttributeElementsPyWithinJs(cluster: Node)
    requires cluster.Element? && FirstByTag(cluster, "attributes").None?
    ensures forall n :: n in CapabilitiesPy.AttributeElementsPy(cluster) ==> n in CapabilitiesJs.AttributeElementsJs(cluster)
  {
    ChildIsDescendant(cluster, "attributes");
    assert ByTag(cluster, "attributes") == [];
    assert FindAllPath(cluster, "attributes", "attribute") == [];
    ChildIsDescendant(cluster, "attribute");
    assert CapabilitiesPy.AttributeElementsPy(cluster) == FindAll(cluster, "attribute");
  }

  /**
   * When the first `features` element below the cluster is one of its
   * children, the original reads its `feature` children and the port all
   * the `feature` elements below it: again the original's are among the port's.
   */
  lemma FeatureElementsPyWithinJs(cluster: Node)
    requires Find(cluster, "features").Some? && Find(cluster, "features") == FirstByTag(cluster, "features")
    ensures forall n :: n in CapabilitiesPy.FeatureElementsPy(cluster) ==> n in CapabilitiesJs.FeatureElementsJs(cluster)
  {
    var fs := Find(cluster, "features").value;
    assert fs in FindAll(cluster, "features");
    ChildIsDescendant(fs, "feature");
  }
}
