/**
 * Lists built by walking a sequence and keeping some elements, where each
 * kept element may depend on how many were kept before it.
 */
module Filtering {
  import opened Wrappers
  /** The elements `keep` accepts, in their original order. */
  function Filter<T>(xs: seq<T>, keep: T -> bool): (r: seq<T>)
    ensures |r| <= |xs|
    ensures forall x :: x in r ==> x in xs && keep(x)
    decreases |xs|
  {
    if xs == [] then []
    else
      var acc := Filter(xs[..|xs| - 1], keep);
      var x := xs[|xs| - 1];
      if keep(x) then acc + [x] else acc
  }

  /** Filtering keeps the order: on `a + b` the accepted elements of `a` come first. */
  lemma {:induction false} FilterAppend<T>(a: seq<T>, b: seq<T>, keep: T -> bool)
    ensures Filter(a + b, keep) == Filter(a, keep) + Filter(b, keep)
    decreases |b|
  {
    if b != [] {
      var ab := a + b;
      var x := b[|b| - 1];
      assert ab[..|ab| - 1] == a + b[..|b| - 1] && ab[|ab| - 1] == x;
      FilterAppend(a, b[..|b| - 1], keep);
    } else {
      assert a + b == a;
    }
  }

  /** Every accepted element is kept. */
  lemma {:induction false} FilterKeepsAccepted<T>(xs: seq<T>, keep: T -> bool)
    ensures forall i :: 0 <= i < |xs| && keep(xs[i]) ==> xs[i] in Filter(xs, keep)
    decreases |xs|
  {
    if xs != [] {
      var init := xs[..|xs| - 1];
      FilterKeepsAccepted(init, keep);
      forall i | 0 <= i < |xs| && keep(xs[i]) ensures xs[i] in Filter(xs, keep) {
        if i < |init| {
          assert xs[i] == init[i];
        }
      }
    }
  }

  /** One element stays exactly when it is accepted. */
  lemma FilterOne<T>(x: T, keep: T -> bool)
    ensures Filter([x], keep) == if keep(x) then [x] else []
  {
    assert [x][..0] == [];
  }

  /** Walks `xs` in order; each accepted element yields `f(x, n)`, where `n` counts the elements accepted before it. */
  function MapAccepted<T, U>(xs: seq<T>, keep: T -> bool, f: (T, nat) -> U): seq<U>
    decreases |xs|
  {
    if xs == [] then []
    else
      var acc := MapAccepted(xs[..|xs| - 1], keep, f);
      var x := xs[|xs| - 1];
      if keep(x) then acc + [f(x, |acc|)] else acc
  }

  /** The j-th output comes from the j-th accepted element, at position j: rejected elements take no position. */
  lemma {:induction false} MapAcceptedPositional<T, U>(xs: seq<T>, keep: T -> bool, f: (T, nat) -> U)
    ensures |MapAccepted(xs, keep, f)| == |Filter(xs, keep)|
    ensures forall j :: 0 <= j < |Filter(xs, keep)| ==> MapAccepted(xs, keep, f)[j] == f(Filter(xs, keep)[j], j)
    decreases |xs|
  {
    if xs != [] {
      MapAcceptedPositional(xs[..|xs| - 1], keep, f);
    }
  }

  // ---------------------------------------------------------------------
  // Steps that can fail: the first failure, in order, ends the walk
  // ---------------------------------------------------------------------

  /** All the results in order when every step succeeded, else the first failure. */
  function AllOk<U>(rs: seq<Result<U>>): Result<seq<U>>
    decreases |rs|
  {
    if rs == [] then Success([])
    else
      match AllOk(rs[..|rs| - 1])
      case Failure(e) => Failure(e)
      case Success(vs) =>
        match rs[|rs| - 1]
        case Failure(e) => Failure(e)
        case Success(v) => Success(vs + [v])
  }

  /** AllOk succeeds exactly when every step does, with their values; otherwise it reports the first failing step. */
  lemma {:induction false} AllOkSpec<U>(rs: seq<Result<U>>)
    ensures AllOk(rs).Success? <==> forall i :: 0 <= i < |rs| ==> rs[i].Success?
    ensures AllOk(rs).Success? ==>
      |AllOk(rs).value| == |rs| && forall i :: 0 <= i < |rs| ==> AllOk(rs).value[i] == rs[i].value
    ensures AllOk(rs).Failure? ==>
      exists i :: 0 <= i < |rs| && rs[i] == Failure(AllOk(rs).error) && forall k :: 0 <= k < i ==> rs[k].Success?
    decreases |rs|
  {
    if rs != [] {
      var init := rs[..|rs| - 1];
      AllOkSpec(init);
      assert forall i :: 0 <= i < |init| ==> init[i] == rs[i];
      if AllOk(init).Failure? {
        var i :| 0 <= i < |init| && init[i] == Failure(AllOk(init).error) && forall k :: 0 <= k < i ==> init[k].Success?;
        assert rs[i] == Failure(AllOk(rs).error);
      } else if rs[|rs| - 1].Failure? {
        assert rs[|rs| - 1] == Failure(AllOk(rs).error);
      }
    }
  }

  /** Once a prefix has failed, the whole walk fails the same way. */
  lemma {:induction false} AllOkPersists<U>(rs: seq<Result<U>>, k: nat)
    requires k <= |rs| && AllOk(rs[..k]).Failure?
    ensures AllOk(rs) == AllOk(rs[..k])
    decreases |rs|
  {
    if k < |rs| {
      var init := rs[..|rs| - 1];
      assert init[..k] == rs[..k];
      AllOkPersists(init, k);
    } else {
      assert rs[..k] == rs;
    }
  }

  /** One more step of AllOk. */
  lemma AllOkStep<U>(rs: seq<Result<U>>, i: nat)
    requires i < |rs|
    ensures AllOk(rs[..i + 1]) ==
      match AllOk(rs[..i])
      case Failure(e) => Failure(e)
      case Success(vs) =>
        match rs[i]
        case Failure(e) => Failure(e)
        case Success(v) => Success(vs + [v])
  {
    assert rs[..i + 1][..i] == rs[..i];
  }

  /** After a successful prefix, a successful step extends the values and a failing step is the outcome of the whole walk. */
  lemma AllOkNext<U>(rs: seq<Result<U>>, i: nat, vs: seq<U>)
    requires i < |rs| && AllOk(rs[..i]) == Success(vs)
    ensures rs[i].Success? ==> AllOk(rs[..i + 1]) == Success(vs + [rs[i].value])
    ensures rs[i].Failure? ==> AllOk(rs) == Failure(rs[i].error)
  {
    AllOkStep(rs, i);
    if rs[i].Failure? {
      AllOkPersists(rs, i + 1);
    }
  }

  /** MapAccepted for a step that can fail: the first failing accepted element ends the walk. */
  function MapAcceptedOrFail<T, U>(xs: seq<T>, keep: T -> bool, f: (T, nat) -> Result<U>): Result<seq<U>>
    decreases |xs|
  {
    if xs == [] then Success([])
    else
      match MapAcceptedOrFail(xs[..|xs| - 1], keep, f)
      case Failure(e) => Failure(e)
      case Success(acc) =>
        var x := xs[|xs| - 1];
        if !keep(x) then Success(acc)
        else
          match f(x, |acc|)
          case Failure(e) => Failure(e)
          case Success(v) => Success(acc + [v])
  }

  /** MapAcceptedOrFail is AllOk over the accepted elements, each at its position among them. */
  lemma {:induction false} MapAcceptedOrFailIsAllOk<T, U>(xs: seq<T>, keep: T -> bool, f: (T, nat) -> Result<U>)
    ensures var ys := Filter(xs, keep);
      MapAcceptedOrFail(xs, keep, f) == AllOk(seq(|ys|, j requires 0 <= j < |ys| => f(ys[j], j)))
    decreases |xs|
  {
    if xs != [] {
      var init := xs[..|xs| - 1];
      var x := xs[|xs| - 1];
      MapAcceptedOrFailIsAllOk(init, keep, f);
      var ys0 := Filter(init, keep);
      var ys := Filter(xs, keep);
      var rs0 := seq(|ys0|, j requires 0 <= j < |ys0| => f(ys0[j], j));
      var rs := seq(|ys|, j requires 0 <= j < |ys| => f(ys[j], j));
      if keep(x) {
        assert ys == ys0 + [x];
        assert rs[..|rs0|] == rs0;
        AllOkStep(rs, |rs0|);
        assert rs[..|rs0| + 1] == rs;
        if AllOk(rs0).Success? {
          AllOkSpec(rs0);
        }
      } else {
        assert ys == ys0;
        assert rs == rs0;
      }
    }
  }

  /** One more element: a failed prefix stays failed, a rejected element changes nothing, an accepted one runs the step at the next position. */
  lemma MapAcceptedOrFailStep<T, U>(xs: seq<T>, keep: T -> bool, f: (T, nat) -> Result<U>, j: nat)
    requires j < |xs|
    ensures MapAcceptedOrFail(xs[..j], keep, f).Success? && !keep(xs[j]) ==>
      MapAcceptedOrFail(xs[..j + 1], keep, f) == MapAcceptedOrFail(xs[..j], keep, f)
    ensures MapAcceptedOrFail(xs[..j], keep, f).Success? && keep(xs[j]) ==>
      var acc := MapAcceptedOrFail(xs[..j], keep, f).value;
      MapAcceptedOrFail(xs[..j + 1], keep, f)
        == (match f(xs[j], |acc|) case Failure(e) => Failure(e) case Success(v) => Success(acc + [v]))
  {
    assert xs[..j + 1][..j] == xs[..j];
  }

  /** Once a prefix has failed, the whole walk fails the same way. */
  lemma {:induction false} MapAcceptedOrFailPersists<T, U>(xs: seq<T>, keep: T -> bool, f: (T, nat) -> Result<U>, k: nat)
    requires k <= |xs| && MapAcceptedOrFail(xs[..k], keep, f).Failure?
    ensures MapAcceptedOrFail(xs, keep, f) == MapAcceptedOrFail(xs[..k], keep, f)
    decreases |xs|
  {
    if k < |xs| {
      var init := xs[..|xs| - 1];
      assert init[..k] == xs[..k];
      MapAcceptedOrFailPersists(init, keep, f, k);
    } else {
      assert xs[..k] == xs;
    }
  }

  /**
   * MapAcceptedOrFail succeeds exactly when the step succeeds on every
   * accepted element at its position, with those values in order; otherwise
   * it reports the failure of the first accepted element whose step fails.
   */
  lemma MapAcceptedOrFailSpec<T, U>(xs: seq<T>, keep: T -> bool, f: (T, nat) -> Result<U>)
    ensures var ys := Filter(xs, keep);
      MapAcceptedOrFail(xs, keep, f).Success? <==> forall j :: 0 <= j < |ys| ==> f(ys[j], j).Success?
    ensures var ys := Filter(xs, keep); var r := MapAcceptedOrFail(xs, keep, f);
      r.Success? ==> |r.value| == |ys| && forall j :: 0 <= j < |ys| ==> r.value[j] == f(ys[j], j).value
    ensures var ys := Filter(xs, keep); var r := MapAcceptedOrFail(xs, keep, f);
      r.Failure? ==> exists j :: 0 <= j < |ys| && f(ys[j], j) == Failure(r.error) && forall k :: 0 <= k < j ==> f(ys[k], k).Success?
  {
    var ys := Filter(xs, keep);
    var rs := seq(|ys|, j requires 0 <= j < |ys| => f(ys[j], j));
    MapAcceptedOrFailIsAllOk(xs, keep, f);
    AllOkSpec(rs);
    var r := MapAcceptedOrFail(xs, keep, f);
    if r.Failure? {
      var i :| 0 <= i < |rs| && rs[i] == Failure(AllOk(rs).error) && forall k :: 0 <= k < i ==> rs[k].Success?;
      assert f(ys[i], i) == Failure(r.error);
      assert forall k :: 0 <= k < i ==> rs[k] == f(ys[k], k);
    }
  }
}
