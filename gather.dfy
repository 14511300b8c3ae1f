/**
 * The shape shared by the parser's loops (homethermostatetl/ecobee.py:22-37,
 * 49-65): results are produced one after another and appended to `entries`,
 * and the first exception ends the whole call.
 */
module Gather {

  import opened Wrappers

  /** `f` applied to every element, in order. */
  function Map<A, B>(f: A -> B, xs: seq<A>): (r: seq<B>)
    ensures |r| == |xs|
  {
    if xs == [] then [] else Map(f, xs[..|xs| - 1]) + [f(xs[|xs| - 1])]
  }

  /** `Map` is computed element by element: its prefixes map the prefixes, and element `n` is `f` of element `n`. */
  lemma {:induction false} MapPrefix<A, B>(f: A -> B, xs: seq<A>, n: nat)
    requires n <= |xs|
    ensures Map(f, xs)[..n] == Map(f, xs[..n])
    ensures n < |xs| ==> Map(f, xs)[n] == f(xs[n])
  {
    if n < |xs| {
      var front := xs[..|xs| - 1];
      if n < |front| {
        MapPrefix(f, front, n);
        assert front[..n] == xs[..n] && front[n] == xs[n];
      } else {
        assert front == xs[..n];
      }
    } else {
      assert xs[..n] == xs;
    }
  }

  /** All values in order, or the first error: a loop that appends one value per step. */
  function All<T, E>(rs: seq<Result<T, E>>): Result<seq<T>, E> {
    if rs == [] then Ok([])
    else
      match All(rs[..|rs| - 1])
      case Err(e) => Err(e)
      case Ok(done) =>
        match rs[|rs| - 1]
        case Err(e) => Err(e)
        case Ok(v) => Ok(done + [v])
  }

  /** All value sequences concatenated in order, or the first error: a loop that extends by a batch per step. */
  function Flat<T, E>(rs: seq<Result<seq<T>, E>>): Result<seq<T>, E> {
    if rs == [] then Ok([])
    else
      match Flat(rs[..|rs| - 1])
      case Err(e) => Err(e)
      case Ok(done) =>
        match rs[|rs| - 1]
        case Err(e) => Err(e)
        case Ok(vs) => Ok(done + vs)
  }

  /** One more step of `All`: the value is appended, or the step's error ends the run. */
  lemma AllSnoc<T, E>(rs: seq<Result<T, E>>, n: nat)
    requires n < |rs| && All(rs[..n]).Ok?
    ensures rs[n].Ok? ==> All(rs[..n + 1]) == Ok(All(rs[..n]).value + [rs[n].value])
    ensures rs[n].Err? ==> All(rs[..n + 1]) == Err(rs[n].error)
  {
    assert rs[..n + 1][..n] == rs[..n];
  }

  /** One more step of `Flat`: the batch is appended, or the step's error ends the run. */
  lemma FlatSnoc<T, E>(rs: seq<Result<seq<T>, E>>, n: nat)
    requires n < |rs| && Flat(rs[..n]).Ok?
    ensures rs[n].Ok? ==> Flat(rs[..n + 1]) == Ok(Flat(rs[..n]).value + rs[n].value)
    ensures rs[n].Err? ==> Flat(rs[..n + 1]) == Err(rs[n].error)
  {
    assert rs[..n + 1][..n] == rs[..n];
  }

  /** `All` succeeds exactly when every step does, and then holds one value per step, in order. */
  lemma {:induction false} AllOk<T, E>(rs: seq<Result<T, E>>)
    ensures All(rs).Ok? <==> forall i :: 0 <= i < |rs| ==> rs[i].Ok?
    ensures All(rs).Ok? ==> |All(rs).value| == |rs| && forall i :: 0 <= i < |rs| ==> All(rs).value[i] == rs[i].value
  {
    if rs != [] {
      var front := rs[..|rs| - 1];
      AllOk(front);
      assert forall i :: 0 <= i < |front| ==> front[i] == rs[i];
    }
  }

  /** When `All` fails, it fails with the error of the first step that failed. */
  lemma {:induction false} AllErr<T, E>(rs: seq<Result<T, E>>)
    requires All(rs).Err?
    ensures exists i :: 0 <= i < |rs| && rs[i] == Err(All(rs).error) && forall j :: 0 <= j < i ==> rs[j].Ok?
  {
    var front := rs[..|rs| - 1];
    if All(front).Err? {
      AllErr(front);
      var i :| 0 <= i < |front| && front[i] == Err(All(front).error) && forall j :: 0 <= j < i ==> front[j].Ok?;
      assert rs[i] == front[i];
      assert forall j :: 0 <= j < i ==> rs[j] == front[j];
    } else {
      AllOk(front);
      assert forall j :: 0 <= j < |front| ==> rs[j] == front[j];
    }
  }

  /** `All` over a longer run of steps extends `All` over the first ones. */
  lemma {:induction false} AllPrefix<T, E>(rs: seq<Result<T, E>>, n: nat)
    requires n <= |rs|
    ensures All(rs[..n]).Err? ==> All(rs) == All(rs[..n])
  {
    if n < |rs| {
      AllPrefix(rs[..|rs| - 1], n);
      assert rs[..|rs| - 1][..n] == rs[..n];
    } else {
      assert rs[..n] == rs;
    }
  }

  /** `Flat` succeeds exactly when every step does. */
  lemma {:induction false} FlatOk<T, E>(rs: seq<Result<seq<T>, E>>)
    ensures Flat(rs).Ok? <==> forall i :: 0 <= i < |rs| ==> rs[i].Ok?
  {
    if rs != [] {
      var front := rs[..|rs| - 1];
      FlatOk(front);
      assert forall i :: 0 <= i < |front| ==> front[i] == rs[i];
    }
  }

  /**
   * The batches of `Flat` stand one after another: batch `b` starts right
   * after everything the batches before it produced.
   */
  lemma {:induction false} FlatAt<T, E>(rs: seq<Result<seq<T>, E>>, b: nat, j: nat)
    requires Flat(rs).Ok? && b < |rs|
    ensures Flat(rs[..b]).Ok? && rs[b].Ok?
    ensures j < |rs[b].value| ==>
              |Flat(rs[..b]).value| + j < |Flat(rs).value|
              && Flat(rs).value[|Flat(rs[..b]).value| + j] == rs[b].value[j]
  {
    var front := rs[..|rs| - 1];
    if b < |rs| - 1 {
      assert front[..b] == rs[..b] && front[b] == rs[b];
      FlatAt(front, b, j);
    } else {
      assert rs[..b] == front;
    }
  }

  /** `Flat` over a longer run of steps extends `Flat` over the first ones. */
  lemma {:induction false} FlatPrefix<T, E>(rs: seq<Result<seq<T>, E>>, n: nat)
    requires n <= |rs|
    ensures Flat(rs[..n]).Err? ==> Flat(rs) == Flat(rs[..n])
  {
    if n < |rs| {
      FlatPrefix(rs[..|rs| - 1], n);
      assert rs[..|rs| - 1][..n] == rs[..n];
    } else {
      assert rs[..n] == rs;
    }
  }

  /** When every batch holds `k` values, `Flat` holds `k` values per batch. */
  lemma {:induction false} FlatCount<T, E>(rs: seq<Result<seq<T>, E>>, k: nat)
    requires Flat(rs).Ok?
    requires forall i :: 0 <= i < |rs| && rs[i].Ok? ==> |rs[i].value| == k
    ensures |Flat(rs).value| == |rs| * k
  {
    if rs != [] {
      var front := rs[..|rs| - 1];
      assert forall i :: 0 <= i < |front| ==> front[i] == rs[i];
      FlatCount(front, k);
      assert |Flat(rs).value| == (|rs| - 1) * k + k;
    }
  }

  /**
   * The position of value `i` of batch `j` when every batch holds `k`
   * values: `j * k + i`, behind a name so that the product stays out of
   * the arithmetic of the contracts that use it.
   */
  function Slot(j: nat, k: nat, i: nat): nat {
    j * k + i
  }

  /** When every batch holds `k` values, value `i` of batch `j` stands at position `Slot(j, k, i)`. */
  lemma FlatUniformAt<T, E>(rs: seq<Result<seq<T>, E>>, k: nat, j: nat, i: nat)
    requires Flat(rs).Ok?
    requires forall b :: 0 <= b < |rs| && rs[b].Ok? ==> |rs[b].value| == k
    requires j < |rs| && i < k
    ensures rs[j].Ok? && |rs[j].value| == k
    ensures Slot(j, k, i) < |Flat(rs).value|
    ensures Flat(rs).value[Slot(j, k, i)] == rs[j].value[i]
  {
    FlatAt(rs, j, i);
    assert forall b :: 0 <= b < j ==> rs[..j][b] == rs[b];
    FlatCount(rs[..j], k);
  }
}
