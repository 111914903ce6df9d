/** Optional values and the Python exceptions the modelled scraper code can raise. */
module Wrappers {

  /** Python's `None` or a present value. */
  datatype Option<+T> = None | Some(value: T)

  /** The exception kinds raised by the record-normalisation code. */
  datatype PyError =
    | IndexError      // `[-1]` on an empty list
    | KeyError        // a missing dict key, DataFrame column or tag attribute
    | TypeError       // `str + None`, `None[...]`
    | AttributeError  // a method called on `None`
    | MergeError      // pandas merge with validate="one_to_one" on a repeated key

  /** A computation that either yields a value or raises. */
  datatype Result<+T> = Ok(value: T) | Err(error: PyError) {
    predicate IsFailure() { Err? }

    function PropagateFailure<U>(): Result<U>
      requires Err?
    {
      Err(error)
    }

    function Extract(): T
      requires Ok?
    {
      value
    }
  }

  /**
   * `for x in xs: out.append(f(x))` where `f` may raise: the results in order, or the
   * error of the first element that raises.
   */
  function Collect<T, U>(xs: seq<T>, f: T -> Result<U>): (r: Result<seq<U>>)
    ensures r.Ok? <==> forall k | 0 <= k < |xs| :: f(xs[k]).Ok?
    ensures r.Ok? ==> |r.value| == |xs| && forall k | 0 <= k < |xs| :: r.value[k] == f(xs[k]).value
    decreases |xs|
  {
    if xs == [] then Ok([])
    else
      var init := xs[..|xs| - 1];
      assert forall k | 0 <= k < |init| :: init[k] == xs[k];
      var done :- Collect(init, f);
      var last :- f(xs[|xs| - 1]);
      Ok(done + [last])
  }

  /** One more element: the loop either has already stopped, stops at it, or appends its result. */
  lemma CollectSnoc<T, U>(xs: seq<T>, x: T, f: T -> Result<U>)
    ensures Collect(xs + [x], f) ==
      if Collect(xs, f).Err? then Collect(xs, f)
      else if f(x).Err? then Err(f(x).error)
      else Ok(Collect(xs, f).value + [f(x).value])
  {
    assert (xs + [x])[..|xs|] == xs;
  }

  /** The first element whose call raises decides the result, whatever follows it. */
  lemma {:induction false} CollectStopsAt<T, U>(xs: seq<T>, f: T -> Result<U>, n: nat)
    requires n < |xs| && Collect(xs[..n], f).Ok? && f(xs[n]).Err?
    ensures Collect(xs, f) == Err(f(xs[n]).error)
    decreases |xs|
  {
    var init := xs[..|xs| - 1];
    if n < |init| {
      assert init[..n] == xs[..n] && init[n] == xs[n];
      CollectStopsAt(init, f, n);
    } else {
      assert init == xs[..n];
    }
  }
}
