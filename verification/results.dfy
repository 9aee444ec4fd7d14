/** Failure-compatible result types for the report and grid parsers.

    The parsers raise Python exceptions on malformed input; here every such
    exception is an explicit `Err` carrying the kind of the exception.
 */
module Results {

  datatype Option<+T> = None | Some(value: T)

  /** The Python exceptions the parsers can raise on malformed input. */
  datatype PyError =
    | IndexError          // a list index past the end
    | ValueError          // int() or float() rejected a token, or np.loadtxt a ragged table
    | UnpackError         // the ValueError of `a, b = xs` when len(xs) != 2
    | AssertionError      // a failed `assert`
    | UnboundLocalError   // a local read before any assignment
    | AttributeError      // `.items()` called on None
    | KeyError            // a dict lookup of a missing key

  datatype Result<+T> = Ok(value: T) | Err(error: PyError) {

    predicate IsFailure() {
      Err?
    }

    function PropagateFailure<U>(): Result<U>
      requires Err?
    {
      Err(error)
    }

    function Extract(): T
      requires Ok?
    {
      value
    }
  }

  /** No element occurs twice. */
  predicate Distinct<T(==)>(xs: seq<T>)
  {
    forall i, j :: 0 <= i < j < |xs| ==> xs[i] != xs[j]
  }

  /** Python's `xs[i]` for a non-negative index. */
  function Index<T>(xs: seq<T>, i: nat): (r: Result<T>)
    ensures r.Ok? <==> i < |xs|
    ensures r.Ok? ==> r.value == xs[i]
    ensures r.Err? ==> r.error == IndexError
  {
    if i < |xs| then Ok(xs[i]) else Err(IndexError)
  }

  /** Python's `a, b = xs`. */
  function Unpack2<T>(xs: seq<T>): (r: Result<(T, T)>)
    ensures r.Ok? <==> |xs| == 2
    ensures r.Ok? ==> r.value == (xs[0], xs[1])
    ensures r.Err? ==> r.error == UnpackError
  {
    if |xs| == 2 then Ok((xs[0], xs[1])) else Err(UnpackError)
  }

  /** Python's `xs[-1]` on a list known to be non-empty. */
  function Last<T>(xs: seq<T>): T
    requires |xs| > 0
  {
    xs[|xs| - 1]
  }

  /** Python's slice `xs[n:]`, which is empty when `n` is past the end. */
  function Drop<T>(xs: seq<T>, n: nat): (r: seq<T>)
    ensures n <= |xs| ==> r == xs[n..]
    ensures n > |xs| ==> r == []
  {
    if n <= |xs| then xs[n..] else []
  }

  /** `[f(x) for x in xs]`: stops at the first element `f` fails on. */
  function MapAll<A, B>(f: A -> Result<B>, xs: seq<A>): (r: Result<seq<B>>)
    ensures r.Ok? ==> |r.value| == |xs|
  {
    if xs == [] then Ok([])
    else
      var y :- f(xs[0]);
      var ys :- MapAll(f, xs[1..]);
      Ok([y] + ys)
  }

  /** Every element of a successful map is the image of the element in the same place. */
  lemma {:induction false} MapAllEach<A, B>(f: A -> Result<B>, xs: seq<A>, i: nat)
    requires MapAll(f, xs).Ok? && i < |xs|
    ensures f(xs[i]) == Ok(MapAll(f, xs).value[i])
    decreases i
  {
    if i > 0 {
      MapAllEach(f, xs[1..], i - 1);
    }
  }

  /** The map succeeds exactly when `f` succeeds on every element. */
  lemma {:induction false} MapAllOk<A, B>(f: A -> Result<B>, xs: seq<A>)
    ensures MapAll(f, xs).Ok? <==> forall i :: 0 <= i < |xs| ==> f(xs[i]).Ok?
    decreases |xs|
  {
    if xs != [] {
      MapAllOk(f, xs[1..]);
      assert forall i :: 1 <= i < |xs| ==> xs[i] == xs[1..][i - 1];
    }
  }

  /** A failing map fails with the error of the first element `f` fails on. */
  lemma {:induction false} MapAllFirstError<A, B>(f: A -> Result<B>, xs: seq<A>, i: nat)
    requires i < |xs| && f(xs[i]).Err?
    requires forall j :: 0 <= j < i ==> f(xs[j]).Ok?
    ensures MapAll(f, xs) == Err(f(xs[i]).error)
    decreases i
  {
    if i > 0 {
      assert forall j :: 0 <= j < i - 1 ==> xs[1..][j] == xs[j + 1];
      MapAllFirstError(f, xs[1..], i - 1);
    }
  }

  /** Mapping over a non-empty list maps its head, then its tail. */
  lemma MapAllCons<A, B>(f: A -> Result<B>, x: A, xs: seq<A>)
    ensures MapAll(f, [x] + xs) == (var y :- f(x); var ys :- MapAll(f, xs); Ok([y] + ys))
  {
    assert ([x] + xs)[0] == x && ([x] + xs)[1..] == xs;
  }

  /** A successful map over a non-empty list is the head's image before the tail's. */
  lemma MapAllUnfold<A, B>(f: A -> Result<B>, xs: seq<A>)
    requires xs != [] && MapAll(f, xs).Ok?
    ensures f(xs[0]).Ok? && MapAll(f, xs[1..]).Ok?
    ensures MapAll(f, xs).value == [f(xs[0]).value] + MapAll(f, xs[1..]).value
  {
  }

  /** When `f` only ever fails with `e`, so does the map. */
  lemma {:induction false} MapAllError<A, B>(f: A -> Result<B>, xs: seq<A>, e: PyError)
    requires forall i :: 0 <= i < |xs| && f(xs[i]).Err? ==> f(xs[i]).error == e
    ensures MapAll(f, xs).Err? ==> MapAll(f, xs).error == e
    decreases |xs|
  {
    if xs != [] {
      assert forall i :: 0 <= i < |xs| - 1 ==> xs[1..][i] == xs[i + 1];
      MapAllError(f, xs[1..], e);
    }
  }
}
