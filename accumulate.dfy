/**
 * The three list-building loops of the converter, as functions of the step they run on
 * each element. A step either yields a value or raises; the first step that raises aborts
 * the loop with its error (Python gives the exception to the caller and keeps no partial
 * list).
 *
 *   FilterMap:  for x in xs: v = f(x); if v is not None: out.append(v)
 *   MapAll:     for x in xs: out.append(f(x))
 *   FlatMap:    for x in xs: out.extend(f(x))
 *
 * Each is defined on the prefix of `xs` that has been run, so that a loop that has run
 * `xs[..i]` holds exactly the result of the function on `xs[..i]`.
 */
module Accumulate {
  import opened Wrappers

  // ---------------------------------------------------------------------------
  // Keep the values a step yields, skip the Nones

  /** The loop keeps at most one value per element. */
  function FilterMap<X, T, E>(f: X -> Result<Option<T>, E>, xs: seq<X>): (r: Result<seq<T>, E>)
    ensures r.Success? ==> |r.value| <= |xs|
    decreases |xs|
  {
    if xs == [] then Success([])
    else
      match FilterMap(f, xs[..|xs| - 1])
      case Failure(err) => Failure(err)
      case Success(vs) =>
        match f(xs[|xs| - 1])
        case Failure(err) => Failure(err)
        case Success(None) => Success(vs)
        case Success(Some(v)) => Success(vs + [v])
  }

  /** The elements of `xs` on which `f` yields a value, in order: the reference filter. */
  function Kept<X, T, E>(f: X -> Result<Option<T>, E>, xs: seq<X>): (r: seq<X>)
    ensures |r| <= |xs|
    decreases |xs|
  {
    if xs == [] then []
    else
      var last := xs[|xs| - 1];
      Kept(f, xs[..|xs| - 1]) + (if f(last).Success? && f(last).value.Some? then [last] else [])
  }

  /** One more iteration of the loop. */
  lemma FilterMapStep<X, T, E>(f: X -> Result<Option<T>, E>, xs: seq<X>, i: nat)
    requires i < |xs| && FilterMap(f, xs[..i]).Success?
    ensures FilterMap(f, xs[..i + 1]) ==
      match f(xs[i])
      case Failure(err) => Failure(err)
      case Success(None) => FilterMap(f, xs[..i])
      case Success(Some(v)) => Success(FilterMap(f, xs[..i]).value + [v])
  {
    assert xs[..i + 1][..i] == xs[..i];
  }

  /** A single element: the loop's result is what the step yields on it. */
  lemma FilterMapSingle<X, T, E>(f: X -> Result<Option<T>, E>, x: X)
    ensures FilterMap(f, [x]) ==
      match f(x)
      case Failure(err) => Failure(err)
      case Success(None) => Success([])
      case Success(Some(v)) => Success([v])
  {
    assert [x][..0] == [];
    if f(x).Success? && f(x).value.Some? {
      assert [] + [f(x).value.value] == [f(x).value.value];
    }
  }

  /** Once a prefix has failed, the whole loop fails with that error. */
  lemma {:induction false} FilterMapPrefixFailure<X, T, E>(f: X -> Result<Option<T>, E>, xs: seq<X>, j: nat)
    requires j <= |xs| && FilterMap(f, xs[..j]).Failure?
    ensures FilterMap(f, xs) == FilterMap(f, xs[..j])
    decreases |xs|
  {
    if j < |xs| {
      var init := xs[..|xs| - 1];
      assert init[..j] == xs[..j];
      FilterMapPrefixFailure(f, init, j);
    } else {
      assert xs[..j] == xs;
    }
  }

  /**
   * The loop succeeds exactly when no step raises; when one does, the error is that of the
   * first step that raises.
   */
  lemma {:induction false} FilterMapOutcome<X, T, E>(f: X -> Result<Option<T>, E>, xs: seq<X>)
    ensures FilterMap(f, xs).Success? <==> forall i :: 0 <= i < |xs| ==> f(xs[i]).Success?
    ensures FilterMap(f, xs).Failure? ==>
      exists i :: (0 <= i < |xs| && f(xs[i]) == Failure(FilterMap(f, xs).error) &&
                   forall j :: 0 <= j < i ==> f(xs[j]).Success?)
    decreases |xs|
  {
    if xs != [] {
      var init := xs[..|xs| - 1];
      FilterMapOutcome(f, init);
      forall i | 0 <= i < |init| ensures xs[i] == init[i] { }
    }
  }

  /**
   * On success the values are the filter-map of `f`: the k-th value is the one `f` yields on
   * the k-th element it does not skip.
   */
  lemma {:induction false} FilterMapValues<X, T, E>(f: X -> Result<Option<T>, E>, xs: seq<X>)
    requires FilterMap(f, xs).Success?
    ensures var vs := FilterMap(f, xs).value;
      |vs| == |Kept(f, xs)| && forall k :: 0 <= k < |vs| ==> f(Kept(f, xs)[k]) == Success(Some(vs[k]))
    decreases |xs|
  {
    if xs != [] {
      FilterMapValues(f, xs[..|xs| - 1]);
    }
  }

  // ---------------------------------------------------------------------------
  // Keep every value a step yields

  /** The loop yields exactly one value per element. */
  function MapAll<X, T, E>(f: X -> Result<T, E>, xs: seq<X>): (r: Result<seq<T>, E>)
    ensures r.Success? ==> |r.value| == |xs|
    decreases |xs|
  {
    if xs == [] then Success([])
    else
      match MapAll(f, xs[..|xs| - 1])
      case Failure(err) => Failure(err)
      case Success(vs) =>
        match f(xs[|xs| - 1])
        case Failure(err) => Failure(err)
        case Success(v) => Success(vs + [v])
  }

  /** One more iteration of the loop. */
  lemma MapAllStep<X, T, E>(f: X -> Result<T, E>, xs: seq<X>, i: nat)
    requires i < |xs| && MapAll(f, xs[..i]).Success?
    ensures MapAll(f, xs[..i + 1]) ==
      match f(xs[i])
      case Failure(err) => Failure(err)
      case Success(v) => Success(MapAll(f, xs[..i]).value + [v])
  {
    assert xs[..i + 1][..i] == xs[..i];
  }

  /** A single element: the loop yields the step's one value, or its error. */
  lemma MapAllSingle<X, T, E>(f: X -> Result<T, E>, x: X)
    ensures MapAll(f, [x]) ==
      match f(x)
      case Failure(err) => Failure(err)
      case Success(v) => Success([v])
  {
    assert [x][..0] == [];
    if f(x).Success? {
      assert [] + [f(x).value] == [f(x).value];
    }
  }

  /** Once a prefix has failed, the whole loop fails with that error. */
  lemma {:induction false} MapAllPrefixFailure<X, T, E>(f: X -> Result<T, E>, xs: seq<X>, j: nat)
    requires j <= |xs| && MapAll(f, xs[..j]).Failure?
    ensures MapAll(f, xs) == MapAll(f, xs[..j])
    decreases |xs|
  {
    if j < |xs| {
      var init := xs[..|xs| - 1];
      assert init[..j] == xs[..j];
      MapAllPrefixFailure(f, init, j);
    } else {
      assert xs[..j] == xs;
    }
  }

  /**
   * The loop succeeds exactly when no step raises; when one does, the error is that of the
   * first step that raises.
   */
  lemma {:induction false} MapAllOutcome<X, T, E>(f: X -> Result<T, E>, xs: seq<X>)
    ensures MapAll(f, xs).Success? <==> forall i :: 0 <= i < |xs| ==> f(xs[i]).Success?
    ensures MapAll(f, xs).Failure? ==>
      exists i :: (0 <= i < |xs| && f(xs[i]) == Failure(MapAll(f, xs).error) &&
                   forall j :: 0 <= j < i ==> f(xs[j]).Success?)
    decreases |xs|
  {
    if xs != [] {
      var init := xs[..|xs| - 1];
      MapAllOutcome(f, init);
      forall i | 0 <= i < |init| ensures xs[i] == init[i] { }
    }
  }

  /** On success there is one value per element, the i-th yielded by the i-th step. */
  lemma {:induction false} MapAllValues<X, T, E>(f: X -> Result<T, E>, xs: seq<X>)
    requires MapAll(f, xs).Success?
    ensures var vs := MapAll(f, xs).value;
      |vs| == |xs| && forall i :: 0 <= i < |xs| ==> f(xs[i]) == Success(vs[i])
    decreases |xs|
  {
    if xs != [] {
      var init := xs[..|xs| - 1];
      MapAllValues(f, init);
      forall i | 0 <= i < |init| ensures xs[i] == init[i] { }
    }
  }

  // ---------------------------------------------------------------------------
  // Concatenate the lists the steps yield

  function FlatMap<X, T, E>(f: X -> Result<seq<T>, E>, xs: seq<X>): Result<seq<T>, E>
    decreases |xs|
  {
    if xs == [] then Success([])
    else
      match FlatMap(f, xs[..|xs| - 1])
      case Failure(err) => Failure(err)
      case Success(vs) =>
        match f(xs[|xs| - 1])
        case Failure(err) => Failure(err)
        case Success(more) => Success(vs + more)
  }

  /** One more iteration of the loop. */
  lemma FlatMapStep<X, T, E>(f: X -> Result<seq<T>, E>, xs: seq<X>, i: nat)
    requires i < |xs| && FlatMap(f, xs[..i]).Success?
    ensures FlatMap(f, xs[..i + 1]) ==
      match f(xs[i])
      case Failure(err) => Failure(err)
      case Success(more) => Success(FlatMap(f, xs[..i]).value + more)
  {
    assert xs[..i + 1][..i] == xs[..i];
  }

  /** Once a prefix has failed, the whole loop fails with that error. */
  lemma {:induction false} FlatMapPrefixFailure<X, T, E>(f: X -> Result<seq<T>, E>, xs: seq<X>, j: nat)
    requires j <= |xs| && FlatMap(f, xs[..j]).Failure?
    ensures FlatMap(f, xs) == FlatMap(f, xs[..j])
    decreases |xs|
  {
    if j < |xs| {
      var init := xs[..|xs| - 1];
      assert init[..j] == xs[..j];
      FlatMapPrefixFailure(f, init, j);
    } else {
      assert xs[..j] == xs;
    }
  }

  /**
   * The loop succeeds exactly when no step raises; when one does, the error is that of the
   * first step that raises.
   */
  lemma {:induction false} FlatMapOutcome<X, T, E>(f: X -> Result<seq<T>, E>, xs: seq<X>)
    ensures FlatMap(f, xs).Success? <==> forall i :: 0 <= i < |xs| ==> f(xs[i]).Success?
    ensures FlatMap(f, xs).Failure? ==>
      exists i :: (0 <= i < |xs| && f(xs[i]) == Failure(FlatMap(f, xs).error) &&
                   forall j :: 0 <= j < i ==> f(xs[j]).Success?)
    decreases |xs|
  {
    if xs != [] {
      var init := xs[..|xs| - 1];
      FlatMapOutcome(f, init);
      forall i | 0 <= i < |init| ensures xs[i] == init[i] { }
    }
  }

  /** A single element yields exactly what its step yields. */
  lemma FlatMapSingle<X, T, E>(f: X -> Result<seq<T>, E>, x: X)
    ensures FlatMap(f, [x]) == f(x)
  {
    assert [x][..0] == [];
    if f(x).Success? {
      assert [] + f(x).value == f(x).value;
    }
  }

  /**
   * When both parts succeed, the values of `a + b` are those of `a` followed by those of `b`:
   * the order of the elements is the order of their values.
   */
  lemma {:induction false} FlatMapAppend<X, T, E>(f: X -> Result<seq<T>, E>, a: seq<X>, b: seq<X>)
    requires FlatMap(f, a).Success? && FlatMap(f, b).Success?
    ensures FlatMap(f, a + b) == Success(FlatMap(f, a).value + FlatMap(f, b).value)
    decreases |b|
  {
    if b == [] {
      assert a + b == a;
      assert FlatMap(f, a).value + [] == FlatMap(f, a).value;
    } else {
      var init, last := b[..|b| - 1], b[|b| - 1];
      var x, y, z := FlatMap(f, a).value, FlatMap(f, init).value, f(last).value;
      FlatMapAppend(f, a, init);
      assert (a + b)[..|a + b| - 1] == a + init;
      assert (a + b)[|a + b| - 1] == last;
      assert (x + y) + z == x + (y + z);
    }
  }
}
