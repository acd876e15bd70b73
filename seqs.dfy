/** `Array.prototype.filter` and a fused filter-then-map, over sequences. */
module Seqs {
  import opened Wrappers

  /** `xs.filter(keep)`, in order. */
  function Filter<T>(xs: seq<T>, keep: T -> bool): (r: seq<T>)
    ensures |r| <= |xs|
    ensures forall x :: x in r ==> x in xs && keep(x)
    decreases |xs|
  {
    if |xs| == 0 then []
    else (if keep(xs[0]) then [xs[0]] else []) + Filter(xs[1..], keep)
  }

  /** An element is kept exactly when it is in the sequence and passes the test. */
  lemma {:induction false} FilterMembership<T>(xs: seq<T>, keep: T -> bool, x: T)
    ensures x in Filter(xs, keep) <==> x in xs && keep(x)
    decreases |xs|
  {
    if |xs| > 0 {
      FilterMembership(xs[1..], keep, x);
      assert xs == [xs[0]] + xs[1..];
    }
  }

  /** Filtering distributes over concatenation, so the kept elements stay in their order. */
  lemma {:induction false} FilterAppend<T>(xs: seq<T>, ys: seq<T>, keep: T -> bool)
    ensures Filter(xs + ys, keep) == Filter(xs, keep) + Filter(ys, keep)
    decreases |xs|
  {
    if |xs| == 0 {
      assert xs + ys == ys;
    } else {
      assert (xs + ys)[1..] == xs[1..] + ys;
      FilterAppend(xs[1..], ys, keep);
    }
  }

  /** The first kept element is the first element of the sequence that passes the test. */
  lemma {:induction false} FilterHead<T>(xs: seq<T>, keep: T -> bool)
    ensures Filter(xs, keep) == [] <==> forall i :: 0 <= i < |xs| ==> !keep(xs[i])
    ensures Filter(xs, keep) != [] ==>
      exists i :: 0 <= i < |xs| && Filter(xs, keep)[0] == xs[i] && keep(xs[i])
        && forall j :: 0 <= j < i ==> !keep(xs[j])
    decreases |xs|
  {
    if |xs| > 0 {
      FilterHead(xs[1..], keep);
      if !keep(xs[0]) && Filter(xs, keep) != [] {
        var i :| 0 <= i < |xs| - 1 && Filter(xs[1..], keep)[0] == xs[1..][i] && keep(xs[1..][i])
          && forall j :: 0 <= j < i ==> !keep(xs[1..][j]);
        assert forall j :: 0 <= j < i + 1 ==> !keep(xs[j]) by {
          forall j | 0 <= j < i + 1 ensures !keep(xs[j]) {
            if j > 0 { assert xs[j] == xs[1..][j - 1]; }
          }
        }
      }
      if Filter(xs, keep) == [] {
        forall i | 0 <= i < |xs| ensures !keep(xs[i]) {
          if i > 0 { assert xs[i] == xs[1..][i - 1]; }
        }
      }
    }
  }

  /** Keeping every element keeps the whole sequence. */
  lemma {:induction false} FilterAll<T>(xs: seq<T>, keep: T -> bool)
    requires forall x :: x in xs ==> keep(x)
    ensures Filter(xs, keep) == xs
    decreases |xs|
  {
    if |xs| > 0 {
      FilterAll(xs[1..], keep);
      assert [xs[0]] + xs[1..] == xs;
    }
  }

  /** Keeping no element keeps nothing. */
  lemma {:induction false} FilterNone<T>(xs: seq<T>, keep: T -> bool)
    requires forall x :: x in xs ==> !keep(x)
    ensures Filter(xs, keep) == []
    decreases |xs|
  {
    if |xs| > 0 {
      FilterNone(xs[1..], keep);
    }
  }

  /** `xs.filter(test).map(convert)` fused: `f(x)` is `None` for the dropped elements and the converted value otherwise. */
  function FilterMap<T, U>(xs: seq<T>, f: T -> Option<U>): (r: seq<U>)
    ensures |r| <= |xs|
    decreases |xs|
  {
    if |xs| == 0 then []
    else (if f(xs[0]).Some? then [f(xs[0]).value] else []) + FilterMap(xs[1..], f)
  }

  /** A value is produced exactly when some element converts to it. */
  lemma {:induction false} FilterMapMembership<T, U>(xs: seq<T>, f: T -> Option<U>, y: U)
    ensures y in FilterMap(xs, f) <==> exists x :: x in xs && f(x) == Some(y)
    decreases |xs|
  {
    if |xs| > 0 {
      FilterMapMembership(xs[1..], f, y);
      if exists x :: x in xs && f(x) == Some(y) {
        var x :| x in xs && f(x) == Some(y);
        if x != xs[0] {
          assert x in xs[1..];
        }
      }
    }
  }

  /** Filtering and converting distributes over concatenation, so the results keep the order of their sources. */
  lemma {:induction false} FilterMapAppend<T, U>(xs: seq<T>, ys: seq<T>, f: T -> Option<U>)
    ensures FilterMap(xs + ys, f) == FilterMap(xs, f) + FilterMap(ys, f)
    decreases |xs|
  {
    if |xs| == 0 {
      assert xs + ys == ys;
    } else {
      var head := if f(xs[0]).Some? then [f(xs[0]).value] else [];
      assert (xs + ys)[0] == xs[0] && (xs + ys)[1..] == xs[1..] + ys;
      FilterMapAppend(xs[1..], ys, f);
      calc {
        FilterMap(xs + ys, f);
        head + FilterMap(xs[1..] + ys, f);
        head + (FilterMap(xs[1..], f) + FilterMap(ys, f));
        (head + FilterMap(xs[1..], f)) + FilterMap(ys, f);
      }
    }
  }

  /** A single element gives its converted value, or nothing. */
  lemma FilterMapSingleton<T, U>(x: T, f: T -> Option<U>)
    ensures FilterMap([x], f) == if f(x).Some? then [f(x).value] else []
  {
  }

  /**
   * `xs.filter(test).map(convert)` where converting may throw: `f(x)` is
   * `Success(None)` for a dropped element, `Success(Some(v))` for a converted
   * one and a `Failure` for a conversion that throws, and the first throw,
   * in order, ends the whole call.
   */
  function TryFilterMap<T, U>(xs: seq<T>, f: T -> Result<Option<U>>): (r: Result<seq<U>>)
    ensures r.Failure? <==> exists k :: 0 <= k < |xs| && f(xs[k]).Failure?
    decreases |xs|
  {
    if |xs| == 0 then Success([])
    else
      var rest := TryFilterMap(xs[1..], f);
      assert forall k :: 1 <= k < |xs| ==> xs[k] == xs[1..][k - 1];
      match f(xs[0])
      case Failure(e) => Failure(e)
      case Success(o) =>
        if rest.Failure? then Failure(rest.error)
        else Success((if o.Some? then [o.value] else []) + rest.value)
  }

  /** Without a throw, a value is produced exactly when some element converts to it. */
  lemma {:induction false} TryFilterMapMembership<T, U>(xs: seq<T>, f: T -> Result<Option<U>>, y: U)
    requires TryFilterMap(xs, f).Success?
    ensures y in TryFilterMap(xs, f).value <==> exists x :: x in xs && f(x) == Success(Some(y))
    decreases |xs|
  {
    if |xs| > 0 {
      assert TryFilterMap(xs[1..], f).Success?;
      TryFilterMapMembership(xs[1..], f, y);
      if exists x :: x in xs && f(x) == Success(Some(y)) {
        var x :| x in xs && f(x) == Success(Some(y));
        if x != xs[0] {
          assert x in xs[1..];
        }
      }
    }
  }

  /** Concatenation regroups freely; stated once so long concatenations can be regrouped in one step. */
  lemma Assoc<T>(a: seq<T>, b: seq<T>, c: seq<T>)
    ensures a + b + c == a + (b + c)
  {
  }
}
