/**
 * Building a JSON object entry by entry, as both extractors do with
 * `attributes[name] = def` / `attributes[name] = attr_def`: an element that
 * yields no entry is skipped, and a later entry under the same key replaces
 * an earlier one.
 */
module Keyed {
  import opened Wrappers
  import opened Json

  datatype Entry = Entry(key: string, value: Value)

  /** Storing one element's outcome: a produced entry is written over the object, a skipped one changes nothing. */
  function Store(m: map<string, Value>, e: Option<Entry>): map<string, Value> {
    match e
    case None => m
    case Some(x) => m[x.key := x.value]
  }

  /** The object left after storing the entries in order. */
  function KeyedMap(es: seq<Option<Entry>>): map<string, Value>
    decreases |es|
  {
    if es == [] then map[] else Store(KeyedMap(es[..|es| - 1]), es[|es| - 1])
  }

  /** Storing one more entry extends the object built from the entries before it. */
  lemma KeyedMapStep(es: seq<Option<Entry>>, i: nat)
    requires i < |es|
    ensures KeyedMap(es[..i + 1]) == Store(KeyedMap(es[..i]), es[i])
  {
    assert es[..i + 1][..i] == es[..i];
  }

  /** Storing one more entry after a list of them. */
  lemma KeyedMapAppend(es: seq<Option<Entry>>, e: Option<Entry>)
    ensures KeyedMap(es + [e]) == Store(KeyedMap(es), e)
  {
    assert (es + [e])[..|es|] == es;
  }

  /** The keys of the entries that were produced. */
  function KeysOf(es: seq<Option<Entry>>): set<string> {
    set i | 0 <= i < |es| && es[i].Some? :: es[i].value.key
  }

  /** The object's keys are exactly the keys of the entries that were produced. */
  lemma {:induction false} KeyedMapKeys(es: seq<Option<Entry>>)
    ensures KeyedMap(es).Keys == KeysOf(es)
    decreases |es|
  {
    if es != [] {
      var init := es[..|es| - 1];
      KeyedMapKeys(init);
      assert forall i :: 0 <= i < |init| ==> init[i] == es[i];
      if es[|es| - 1].Some? {
        assert KeysOf(es) == KeysOf(init) + {es[|es| - 1].value.key};
      } else {
        assert KeysOf(es) == KeysOf(init);
      }
    }
  }

  /**
   * When the i-th entry is produced exactly for the elements `stored`
   * accepts, under the key `key` gives, the object's keys are those keys.
   */
  lemma KeyedMapKeysOf<T>(elems: seq<T>, es: seq<Option<Entry>>, stored: T -> bool, key: T -> string)
    requires |es| == |elems|
    requires forall i :: 0 <= i < |es| ==> (es[i].Some? <==> stored(elems[i]))
    requires forall i :: 0 <= i < |es| && es[i].Some? ==> es[i].value.key == key(elems[i])
    ensures KeyedMap(es).Keys == set x | x in elems && stored(x) :: key(x)
  {
    KeyedMapKeys(es);
    var keys := set x | x in elems && stored(x) :: key(x);
    forall k | k in KeysOf(es) ensures k in keys {
      var i :| 0 <= i < |es| && es[i].Some? && es[i].value.key == k;
      assert elems[i] in elems;
    }
    forall x | x in elems && stored(x) ensures key(x) in KeysOf(es) {
      var i :| 0 <= i < |elems| && elems[i] == x;
      assert es[i].Some?;
    }
  }

  /** Under each key the object holds the value of the last entry with that key. */
  lemma {:induction false} KeyedMapLast(es: seq<Option<Entry>>, i: nat)
    requires i < |es| && es[i].Some?
    requires forall j :: i < j < |es| && es[j].Some? ==> es[j].value.key != es[i].value.key
    ensures es[i].value.key in KeyedMap(es)
    ensures KeyedMap(es)[es[i].value.key] == es[i].value.value
    decreases |es|
  {
    if i < |es| - 1 {
      var init := es[..|es| - 1];
      assert init[i] == es[i];
      KeyedMapLast(init, i);
    }
  }

  /** An object built from no entry at all is empty, and the converse. */
  lemma KeyedMapEmpty(es: seq<Option<Entry>>)
    ensures |KeyedMap(es)| == 0 <==> forall i :: 0 <= i < |es| ==> es[i].None?
  {
    KeyedMapKeys(es);
    if exists i :: 0 <= i < |es| && es[i].Some? {
      var i :| 0 <= i < |es| && es[i].Some?;
      assert es[i].value.key in KeyedMap(es).Keys;
    }
  }
}
