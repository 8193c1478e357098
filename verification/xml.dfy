/**
 * An already-parsed XML document and the queries the extractors run on it.
 *
 * JavaScript side (DOM): `getElementsByTagName`, `querySelector` and
 * `querySelectorAll` search the descendants of an element in document
 * (pre-order) order. Python side (ElementTree): `find`/`findall` look at
 * direct children only, `a/b` at grandchildren through `a`, and `.//tag`
 * at all descendants.
 */
module Xml {
  import opened Wrappers
  import opened Text

  /** An element with its tag, attribute map and children, or a run of character data. */
  datatype Node =
    | Element(tag: string, attrs: map<string, string>, children: seq<Node>)
    | Text(text: string)

  /** DOM `getAttribute` / ElementTree `get`: the attribute value, or None when absent. */
  function Attr(n: Node, name: string): (r: Option<string>)
    ensures r.Some? <==> n.Element? && name in n.attrs
  {
    if n.Element? && name in n.attrs then Some(n.attrs[name]) else None
  }

  // ---------------------------------------------------------------------
  // Text
  // ---------------------------------------------------------------------

  /** DOM `textContent`: all character data below the node, in document order. */
  function TextContent(n: Node): string
    decreases n
  {
    match n
    case Text(s) => s
    case Element(_, _, cs) => TextOfAll(cs)
  }

  function TextOfAll(cs: seq<Node>): string
    decreases cs
  {
    if cs == [] then "" else TextContent(cs[0]) + TextOfAll(cs[1..])
  }

  /** The character data before the first child element. */
  function LeadingText(cs: seq<Node>): string
    decreases |cs|
  {
    if cs == [] || cs[0].Element? then "" else cs[0].text + LeadingText(cs[1..])
  }

  /** ElementTree `.text`: the leading character data, None when there is none. */
  function PyText(n: Node): (r: Option<string>)
    ensures r.Some? ==> r.value != ""
  {
    if n.Element? && LeadingText(n.children) != "" then Some(LeadingText(n.children)) else None
  }

  /** The position of the first child element; |cs| when every child is character data. */
  function FirstElement(cs: seq<Node>): (k: nat)
    ensures k <= |cs| && (k < |cs| ==> cs[k].Element?)
    ensures forall j :: 0 <= j < k ==> cs[j].Text?
    decreases |cs|
  {
    if cs == [] || cs[0].Element? then 0 else FirstElement(cs[1..]) + 1
  }

  lemma {:induction false} TextOfAllAppend(a: seq<Node>, b: seq<Node>)
    ensures TextOfAll(a + b) == TextOfAll(a) + TextOfAll(b)
    decreases |a|
  {
    if a != [] {
      assert (a + b)[1..] == a[1..] + b;
      TextOfAllAppend(a[1..], b);
    } else {
      assert a + b == b;
    }
  }

  lemma {:induction false} LeadingTextBefore(cs: seq<Node>)
    ensures LeadingText(cs) == TextOfAll(cs[..FirstElement(cs)])
    decreases |cs|
  {
    if cs != [] && cs[0].Text? {
      LeadingTextBefore(cs[1..]);
      var k := FirstElement(cs[1..]);
      assert cs[..k + 1][1..] == cs[1..][..k];
    }
  }

  /**
   * ElementTree `.text` is the character data of the text nodes before the
   * first child element, when there is any; it is where DOM `textContent`
   * begins.
   */
  lemma PyTextSpec(n: Node)
    requires n.Element?
    ensures var lead := TextOfAll(n.children[..FirstElement(n.children)]);
      && (PyText(n).Some? <==> lead != "")
      && (PyText(n).Some? ==> PyText(n).value == lead && StartsWith(TextContent(n), lead))
  {
    var cs := n.children;
    var k := FirstElement(cs);
    LeadingTextBefore(cs);
    assert cs == cs[..k] + cs[k..];
    TextOfAllAppend(cs[..k], cs[k..]);
    var lead := TextOfAll(cs[..k]);
    assert TextContent(n) == lead + TextOfAll(cs[k..]);
    assert TextContent(n)[..|lead|] == lead;
  }

  // ---------------------------------------------------------------------
  // Descendants in document order
  // ---------------------------------------------------------------------

  /** An element reached by a walk, with the tags of its ancestors from the walk's start down to its parent. */
  datatype Hit = Hit(path: seq<string>, elem: Node)

  /** The element `n` itself (when it is one) followed by the elements below it, in pre-order. */
  function Subtree(n: Node, path: seq<string>): (r: seq<Hit>)
    ensures forall h :: h in r ==> h.elem.Element? && |h.path| >= |path| && h.path[..|path|] == path
    ensures n.Element? ==> |r| > 0 && r[0] == Hit(path, n)
    decreases n
  {
    match n
    case Text(_) => []
    case Element(t, _, cs) => [Hit(path, n)] + Below(cs, path + [t])
  }

  function Below(cs: seq<Node>, path: seq<string>): (r: seq<Hit>)
    ensures forall h :: h in r ==> h.elem.Element? && |h.path| >= |path| && h.path[..|path|] == path
    decreases cs
  {
    if cs == [] then []
    else
      var a := Subtree(cs[0], path);
      var b := Below(cs[1..], path);
      assert forall h :: h in a + b ==> h in a || h in b;
      a + b
  }

  /**
   * The walk is in document order: over `a + b` it visits everything at or
   * below the nodes of `a` before anything of `b`, and over one node it is
   * that node's own walk.
   */
  lemma {:induction false} BelowAppend(a: seq<Node>, b: seq<Node>, path: seq<string>)
    ensures Below(a + b, path) == Below(a, path) + Below(b, path)
    ensures forall c :: Below([c], path) == Subtree(c, path)
    decreases |a|
  {
    if a != [] {
      assert (a + b)[1..] == a[1..] + b;
      BelowAppend(a[1..], b, path);
    } else {
      assert a + b == b;
    }
    forall c ensures Below([c], path) == Subtree(c, path) {
      assert [c][1..] == [];
    }
  }

  /** The elements strictly below `e`, in document order; their paths start with `e`'s tag. */
  function Descendants(e: Node): seq<Hit> {
    match e
    case Text(_) => []
    case Element(t, _, cs) => Below(cs, [t])
  }

  /** A simple CSS selector: `t`, `p > t` or `a t`. */
  datatype Selector =
    | Tag(name: string)
    | ChildOf(parent: string, name: string)
    | Within(ancestor: string, name: string)

  predicate Matches(h: Hit, s: Selector) {
    && h.elem.Element?
    && h.elem.tag == s.name
    && match s
       case Tag(_) => true
       case ChildOf(p, _) => |h.path| > 0 && h.path[|h.path| - 1] == p
       case Within(a, _) => a in h.path
  }

  predicate MatchesAny(h: Hit, group: seq<Selector>) {
    exists i :: 0 <= i < |group| && Matches(h, group[i])
  }

  /** The elements of the hits that match one of the selectors, in order. */
  function Select(hits: seq<Hit>, group: seq<Selector>): (r: seq<Node>)
    ensures |r| <= |hits|
    ensures forall n :: n in r <==> exists h :: h in hits && MatchesAny(h, group) && h.elem == n
    decreases |hits|
  {
    if hits == [] then []
    else
      var rest := Select(hits[1..], group);
      assert forall h :: h in hits[1..] ==> h in hits;
      assert forall h :: h in hits ==> h == hits[0] || h in hits[1..];
      if MatchesAny(hits[0], group) then [hits[0].elem] + rest else rest
  }

  /** Selection keeps the walk's order: on `a + b` the matches in `a` come first, and one hit is kept exactly when it matches. */
  lemma {:induction false} SelectAppend(a: seq<Hit>, b: seq<Hit>, group: seq<Selector>)
    ensures Select(a + b, group) == Select(a, group) + Select(b, group)
    ensures forall h :: Select([h], group) == if MatchesAny(h, group) then [h.elem] else []
    decreases |a|
  {
    if a != [] {
      assert (a + b)[1..] == a[1..] + b;
      SelectAppend(a[1..], b, group);
    } else {
      assert a + b == b;
    }
    forall h ensures Select([h], group) == if MatchesAny(h, group) then [h.elem] else [] {
      assert [h][1..] == [];
    }
  }

  /** The first element selected is that of the first matching hit, and nothing is selected when nothing matches. */
  lemma {:induction false} SelectFirst(hits: seq<Hit>, group: seq<Selector>)
    ensures Select(hits, group) != [] ==>
      exists i :: 0 <= i < |hits| && MatchesAny(hits[i], group) && Select(hits, group)[0] == hits[i].elem
        && forall k :: 0 <= k < i ==> !MatchesAny(hits[k], group)
    ensures Select(hits, group) == [] <==> forall k :: 0 <= k < |hits| ==> !MatchesAny(hits[k], group)
    decreases |hits|
  {
    if hits != [] && !MatchesAny(hits[0], group) {
      SelectFirst(hits[1..], group);
      if Select(hits, group) != [] {
        var i :| 0 <= i < |hits[1..]| && MatchesAny(hits[1..][i], group) && Select(hits[1..], group)[0] == hits[1..][i].elem
          && forall k :: 0 <= k < i ==> !MatchesAny(hits[1..][k], group);
        assert hits[i + 1] == hits[1..][i];
        forall k | 0 <= k < i + 1 ensures !MatchesAny(hits[k], group) {
          if k > 0 { assert hits[k] == hits[1..][k - 1]; }
        }
      } else {
        forall k | 0 <= k < |hits| ensures !MatchesAny(hits[k], group) {
          if k > 0 { assert hits[k] == hits[1..][k - 1]; }
        }
      }
    } else if hits != [] {
      assert Select(hits, group)[0] == hits[0].elem;
    }
  }

  /** `e.querySelectorAll(group)`: matching descendants in document order. */
  function QueryAll(e: Node, group: seq<Selector>): seq<Node> {
    Select(Descendants(e), group)
  }

  /** `e.querySelector(group)`: the first matching descendant. */
  function Query(e: Node, group: seq<Selector>): Option<Node> {
    var all := QueryAll(e, group);
    if all == [] then None else Some(all[0])
  }

  /** `e.getElementsByTagName(t)`. */
  function ByTag(e: Node, t: string): seq<Node> {
    QueryAll(e, [Tag(t)])
  }

  /** `e.getElementsByTagName(t)[0]`; also ElementTree `e.find('.//t')`. */
  function FirstByTag(e: Node, t: string): Option<Node> {
    Query(e, [Tag(t)])
  }

  /** Document-level `getElementsByTagName(t)`: the document element itself is included. */
  function DocByTag(root: Node, t: string): seq<Node> {
    Select(Subtree(root, []), [Tag(t)])
  }

  /** Document-level `querySelector(t)`. */
  function DocFirstByTag(root: Node, t: string): Option<Node> {
    var all := DocByTag(root, t);
    if all == [] then None else Some(all[0])
  }

  /** Every element a tag query returns carries that tag. */
  lemma SelectTag(hits: seq<Hit>, t: string)
    ensures forall n :: n in Select(hits, [Tag(t)]) ==> n.Element? && n.tag == t
  {
    forall n | n in Select(hits, [Tag(t)]) ensures n.Element? && n.tag == t {
      var h :| h in hits && MatchesAny(h, [Tag(t)]) && h.elem == n;
    }
  }

  /** Every element a child (`p > t`) or ancestor (`a t`) query returns, a plain tag query returns too. */
  lemma SelectNarrower(hits: seq<Hit>, s: Selector)
    ensures forall n :: n in Select(hits, [s]) ==> n in Select(hits, [Tag(s.name)])
  {
    forall n | n in Select(hits, [s]) ensures n in Select(hits, [Tag(s.name)]) {
      var h :| h in hits && MatchesAny(h, [s]) && h.elem == n;
      var i :| 0 <= i < 1 && Matches(h, [s][i]);
      assert Matches(h, [Tag(s.name)][0]);
    }
  }

  // ---------------------------------------------------------------------
  // ElementTree child queries
  // ---------------------------------------------------------------------

  /** ElementTree `e.findall(t)`: the child elements tagged `t`, in order. */
  function FindAll(e: Node, t: string): (r: seq<Node>)
    ensures forall n :: n in r <==> n in ChildrenOf(e) && n.Element? && n.tag == t
  {
    FilterTag(ChildrenOf(e), t)
  }

  function ChildrenOf(e: Node): seq<Node> {
    if e.Element? then e.children else []
  }

  function FilterTag(cs: seq<Node>, t: string): (r: seq<Node>)
    ensures forall n :: n in r <==> n in cs && n.Element? && n.tag == t
    decreases |cs|
  {
    if cs == [] then []
    else
      var rest := FilterTag(cs[1..], t);
      assert forall n :: n in cs <==> n == cs[0] || n in cs[1..];
      if cs[0].Element? && cs[0].tag == t then [cs[0]] + rest else rest
  }

  /** The child filter keeps the children's order: on `a + b` the matches in `a` come first. */
  lemma {:induction false} FilterTagAppend(a: seq<Node>, b: seq<Node>, t: string)
    ensures FilterTag(a + b, t) == FilterTag(a, t) + FilterTag(b, t)
    decreases |a|
  {
    if a != [] {
      var ab := a + b;
      assert ab[0] == a[0] && ab[1..] == a[1..] + b;
      FilterTagAppend(a[1..], b, t);
    } else {
      assert a + b == b;
    }
  }

  /** One node is kept exactly when it is an element with the tag. */
  lemma FilterTagOne(c: Node, t: string)
    ensures FilterTag([c], t) == if c.Element? && c.tag == t then [c] else []
  {
    assert [c][1..] == [];
  }

  /** `find(t)` returns the first child tagged `t`, and nothing exactly when no child has that tag. */
  lemma {:induction false} FilterTagFirst(cs: seq<Node>, t: string)
    ensures FilterTag(cs, t) != [] ==>
      exists i :: 0 <= i < |cs| && cs[i] == FilterTag(cs, t)[0] && cs[i].Element? && cs[i].tag == t
        && forall k :: 0 <= k < i ==> !(cs[k].Element? && cs[k].tag == t)
    decreases |cs|
  {
    if cs != [] && !(cs[0].Element? && cs[0].tag == t) {
      FilterTagFirst(cs[1..], t);
      if FilterTag(cs, t) != [] {
        var i :| 0 <= i < |cs[1..]| && cs[1..][i] == FilterTag(cs[1..], t)[0] && cs[1..][i].Element? && cs[1..][i].tag == t
          && forall k :: 0 <= k < i ==> !(cs[1..][k].Element? && cs[1..][k].tag == t);
        assert cs[i + 1] == cs[1..][i];
        forall k | 0 <= k < i + 1 ensures !(cs[k].Element? && cs[k].tag == t) {
          if k > 0 { assert cs[k] == cs[1..][k - 1]; }
        }
      }
    }
  }

  /** ElementTree `e.find(t)`: the first child element tagged `t`. */
  function Find(e: Node, t: string): Option<Node> {
    var all := FindAll(e, t);
    if all == [] then None else Some(all[0])
  }

  /** ElementTree `e.findall('a/b')`: for each child `a` in order, its children tagged `b`. */
  function FindAllPath(e: Node, a: string, b: string): seq<Node> {
    FindAllUnder(FindAll(e, a), b)
  }

  function FindAllUnder(parents: seq<Node>, b: string): seq<Node>
    decreases |parents|
  {
    if parents == [] then [] else FindAll(parents[0], b) + FindAllUnder(parents[1..], b)
  }

  /** ElementTree `e.find(".//t[@name='v']")`: the first descendant tagged `t` whose `name` is `v`. */
  function FindNamed(e: Node, t: string, v: string): (r: Option<Node>)
    ensures r.Some? ==> r.value in ByTag(e, t) && Attr(r.value, "name") == Some(v)
  {
    FirstNamed(ByTag(e, t), v)
  }

  /** The first node of `ns` whose `name` attribute is `v`. */
  function FirstNamed(ns: seq<Node>, v: string): (r: Option<Node>)
    ensures r.Some? ==> r.value in ns && Attr(r.value, "name") == Some(v)
    ensures r.None? ==> forall n :: n in ns ==> Attr(n, "name") != Some(v)
    decreases |ns|
  {
    if ns == [] then None
    else if Attr(ns[0], "name") == Some(v) then Some(ns[0])
    else FirstNamed(ns[1..], v)
  }

  /** FirstNamed returns the earliest node named `v`: every node before it has another name or none. */
  lemma {:induction false} FirstNamedIsFirst(ns: seq<Node>, v: string)
    ensures FirstNamed(ns, v).Some? ==>
      exists i :: 0 <= i < |ns| && ns[i] == FirstNamed(ns, v).value && Attr(ns[i], "name") == Some(v)
        && forall k :: 0 <= k < i ==> Attr(ns[k], "name") != Some(v)
    decreases |ns|
  {
    if ns != [] && Attr(ns[0], "name") != Some(v) {
      FirstNamedIsFirst(ns[1..], v);
      if FirstNamed(ns, v).Some? {
        var i :| 0 <= i < |ns[1..]| && ns[1..][i] == FirstNamed(ns[1..], v).value && Attr(ns[1..][i], "name") == Some(v)
          && forall k :: 0 <= k < i ==> Attr(ns[1..][k], "name") != Some(v);
        assert ns[i + 1] == ns[1..][i];
        forall k | 0 <= k < i + 1 ensures Attr(ns[k], "name") != Some(v) {
          if k > 0 { assert ns[k] == ns[1..][k - 1]; }
        }
      }
    } else if ns != [] {
      assert ns[0] == FirstNamed(ns, v).value;
    }
  }

  /** A direct child of `e` is one of its descendants. */
  lemma ChildIsDescendant(e: Node, t: string)
    requires e.Element?
    ensures forall n :: n in FindAll(e, t) ==> n in ByTag(e, t)
  {
    forall n | n in FindAll(e, t) ensures n in ByTag(e, t) {
      var i :| 0 <= i < |e.children| && e.children[i] == n;
      var h := BelowHasChild(e.children, [e.tag], i);
      assert Matches(h, [Tag(t)][0]);
    }
  }

  lemma {:induction false} BelowHasChild(cs: seq<Node>, path: seq<string>, i: nat) returns (h: Hit)
    requires i < |cs| && cs[i].Element?
    ensures h in Below(cs, path) && h == Hit(path, cs[i])
    decreases |cs|
  {
    if i == 0 {
      h := Hit(path, cs[0]);
      assert Subtree(cs[0], path)[0] == h;
    } else {
      h := BelowHasChild(cs[1..], path, i - 1);
    }
  }

  /** The text of any descendant occurs inside the text of the element. */
  lemma {:induction false} SubtreeText(n: Node, path: seq<string>)
    ensures forall h :: h in Subtree(n, path) ==> Contains(TextContent(n), TextContent(h.elem))
    decreases n
  {
    match n
    case Text(_) =>
    case Element(t, _, cs) =>
      BelowText(cs, path + [t]);
      ContainsAt(TextContent(n), TextContent(n));
      assert OccursAt(TextContent(n), TextContent(n), 0);
  }

  lemma {:induction false} BelowText(cs: seq<Node>, path: seq<string>)
    ensures forall h :: h in Below(cs, path) ==> Contains(TextOfAll(cs), TextContent(h.elem))
    decreases cs
  {
    if cs != [] {
      SubtreeText(cs[0], path);
      BelowText(cs[1..], path);
      var whole := TextOfAll(cs);
      assert whole == TextContent(cs[0]) + TextOfAll(cs[1..]);
      forall h | h in Below(cs, path) ensures Contains(whole, TextContent(h.elem)) {
        if h in Subtree(cs[0], path) {
          ContainsInfix("", TextContent(cs[0]), TextOfAll(cs[1..]), TextContent(h.elem));
          assert "" + TextContent(cs[0]) + TextOfAll(cs[1..]) == whole;
        } else {
          ContainsInfix(TextContent(cs[0]), TextOfAll(cs[1..]), "", TextContent(h.elem));
          assert TextContent(cs[0]) + TextOfAll(cs[1..]) + "" == whole;
        }
      }
    }
  }

  /** The text of any node a query returns occurs inside the text of the element queried. */
  lemma QueryText(e: Node, group: seq<Selector>)
    ensures forall n :: n in QueryAll(e, group) ==> Contains(TextContent(e), TextContent(n))
  {
    if e.Element? {
      BelowText(e.children, [e.tag]);
    }
    forall n | n in QueryAll(e, group) ensures Contains(TextContent(e), TextContent(n)) {
      var h :| h in Descendants(e) && MatchesAny(h, group) && h.elem == n;
    }
  }
}
