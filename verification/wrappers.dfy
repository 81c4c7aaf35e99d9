/** Failure-compatible result types shared by the codec and the command router. */
module Wrappers {

  /** A value that may be absent, such as an option missing from a section. */
  datatype Option<+T> = None | Some(value: T) {

    /** The value, or the given fallback when absent. */
    function GetOr(fallback: T): T {
      match this
      case Some(v) => v
      case None => fallback
    }
  }

  /** The outcome of an operation that Python would abort with an exception. */
  datatype Result<+T, +E> = Success(value: T) | Failure(error: E) {

    predicate IsFailure() {
      Failure?
    }

    function PropagateFailure<U>(): Result<U, E>
      requires Failure?
    {
      Failure(error)
    }

    function Extract(): T
      requires Success?
    {
      value
    }
  }
}

/** Small facts about sequences used by the store and the registry. */
module Seqs {

  /** No element occurs twice. */
  predicate Distinct<T(==)>(xs: seq<T>) {
    forall i, j :: 0 <= i < j < |xs| ==> xs[i] != xs[j]
  }

  /** Position of the first occurrence of x in xs. */
  function IndexOf<T(==)>(xs: seq<T>, x: T): (i: nat)
    requires x in xs
    ensures i < |xs| && xs[i] == x
    ensures x !in xs[..i]
  {
    if xs[0] == x then 0 else 1 + IndexOf(xs[1..], x)
  }

  lemma AppendAssoc<T>(a: seq<T>, b: seq<T>, c: seq<T>)
    ensures (a + b) + c == a + (b + c)
  {
  }

  lemma DistinctMiddle<T>(xs: seq<T>, x: T, ys: seq<T>)
    requires Distinct(xs + [x] + ys)
    ensures x !in xs
  {
    var zs := xs + [x] + ys;
    forall j | 0 <= j < |xs|
      ensures xs[j] != x
    {
      assert zs[j] == xs[j] && zs[|xs|] == x;
    }
  }

  lemma DistinctCons<T>(x: T, xs: seq<T>)
    ensures Distinct([x] + xs) <==> x !in xs && Distinct(xs)
  {
    var ys := [x] + xs;
    if x in xs {
      var j :| 0 <= j < |xs| && xs[j] == x;
      assert ys[0] == ys[j + 1];
    }
    if !Distinct(xs) {
      var i, j :| 0 <= i < j < |xs| && xs[i] == xs[j];
      assert ys[i + 1] == ys[j + 1];
    }
  }
}
