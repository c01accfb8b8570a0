/** Option and Result types, and the Python exceptions the scraper raises or
    lets escape. An exception escaping a function is an `Err` value here. */
module Results {

  datatype Option<+T> = None | Some(value: T) {
    predicate IsFailure() { None? }
    function PropagateFailure<U>(): Option<U>
      requires None?
    {
      None
    }
    function Extract(): T
      requires Some?
    {
      value
    }
  }

  /** The Python exception classes that reach the caller of the core. */
  datatype Error =
    | ValueError(detail: string)          // float(), get_option_value, get_elem_type
    | AssertionError(detail: string)      // a failed `assert`
    | IndexError(detail: string)          // `[0]` / `[-1]` on an empty list
    | KeyError(key: string)               // a missing dict key or region
    | AttributeError(detail: string)      // an attribute looked up on None
    | TypeError(detail: string)           // re.search on None
    | NotImplementedError(detail: string)
    | UnboundLocalError(name: string)     // a local read before assignment
    | DebugException                      // raise Exception("DEBUG!")

  datatype Result<+T> = Ok(value: T) | Err(error: Error) {
    predicate IsFailure() { Err? }
    function PropagateFailure<U>(): Result<U>
      requires Err?
    {
      Err(error)
    }
    function Extract(): T
      requires Ok?
    {
      value
    }
  }

  /** `[f(x) for x in xs]` where `f` may raise: the first failing item
      decides the error. */
  function MapResult<A, B>(xs: seq<A>, f: A -> Result<B>): Result<seq<B>>
    decreases |xs|
  {
    if xs == [] then Ok([])
    else
      var init :- MapResult(xs[..|xs| - 1], f);
      var y :- f(xs[|xs| - 1]);
      Ok(init + [y])
  }

  /** The mapping succeeds exactly when every item does, and then gives the
      items' results in order; otherwise it fails with the error of the
      first item that fails. */
  lemma {:induction false} MapResultSpec<A, B>(xs: seq<A>, f: A -> Result<B>)
    ensures MapResult(xs, f).Ok? <==> forall i :: 0 <= i < |xs| ==> f(xs[i]).Ok?
    ensures MapResult(xs, f).Ok? ==>
      |MapResult(xs, f).value| == |xs|
      && forall i :: 0 <= i < |xs| ==> MapResult(xs, f).value[i] == f(xs[i]).value
    ensures MapResult(xs, f).Err? ==>
      exists i :: 0 <= i < |xs| && f(xs[i]).Err? && MapResult(xs, f).error == f(xs[i]).error
        && forall j :: 0 <= j < i ==> f(xs[j]).Ok?
    decreases |xs|
  {
    if xs != [] {
      var init := xs[..|xs| - 1];
      MapResultSpec(init, f);
      assert forall i :: 0 <= i < |init| ==> init[i] == xs[i];
      if MapResult(init, f).Err? {
        var i :| 0 <= i < |init| && f(init[i]).Err? && MapResult(init, f).error == f(init[i]).error
          && forall j :: 0 <= j < i ==> f(init[j]).Ok?;
        assert f(xs[i]).Err?;
      } else if f(xs[|xs| - 1]).Err? {
        assert forall j :: 0 <= j < |xs| - 1 ==> f(xs[j]).Ok?;
      }
    }
  }

  lemma MapResultSnoc<A, B>(xs: seq<A>, f: A -> Result<B>, i: nat)
    requires i < |xs|
    ensures MapResult(xs[..i + 1], f) ==
      var init :- MapResult(xs[..i], f);
      var y :- f(xs[i]);
      Ok(init + [y])
  {
    assert xs[..i + 1][..i] == xs[..i];
  }

  /** Once a prefix fails, the whole mapping fails the same way. */
  lemma {:induction false} MapResultKeepsError<A, B>(xs: seq<A>, f: A -> Result<B>, n: nat)
    requires n <= |xs| && MapResult(xs[..n], f).Err?
    ensures MapResult(xs, f) == MapResult(xs[..n], f)
    decreases |xs| - n
  {
    if n < |xs| {
      MapResultSnoc(xs, f, n);
      MapResultKeepsError(xs, f, n + 1);
    } else {
      assert xs[..n] == xs;
    }
  }
}
