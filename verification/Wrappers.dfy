/** Option and Result, used wherever the program returns `None` or raises. */
module Wrappers {
  datatype Option<+T> = None | Some(value: T)

  datatype Result<+T, +E> = Success(value: T) | Failure(error: E) {
    predicate IsFailure() {
      Failure?
    }

    function PropagateFailure<U>(): Result<U, E>
      requires Failure?
    {
      Failure(error)
    }

    function Extract(): T
      requires Success?
    {
      value
    }
  }

  /** Python's `d.get(k)`. */
  function Get<K, V>(m: map<K, V>, k: K): Option<V> {
    if k in m then Some(m[k]) else None
  }
}

/** List comprehensions with a condition. */
module Comprehension {
  import opened Wrappers

  function Filter<T(!new)>(s: seq<T>, keep: T -> bool): (r: seq<T>)
    ensures forall x :: x in r <==> x in s && keep(x)
  {
    if s == [] then [] else
    var rest := Filter(s[..|s| - 1], keep);
    var last := s[|s| - 1];
    assert s == s[..|s| - 1] + [last];
    if keep(last) then rest + [last] else rest
  }

  lemma FilterSnoc<T(!new)>(s: seq<T>, x: T, keep: T -> bool)
    ensures Filter(s + [x], keep) == Filter(s, keep) + if keep(x) then [x] else []
  {
    assert (s + [x])[..|s|] == s;
  }

  ghost predicate IsLast<T(!new)>(s: seq<T>, p: T -> bool, k: int) {
    0 <= k < |s| && p(s[k]) && forall j :: k < j < |s| ==> !p(s[j])
  }

  /** The last element that satisfies `p`. */
  function LastWhere<T(!new)>(s: seq<T>, p: T -> bool): (r: Option<T>)
    ensures r.None? <==> forall x :: x in s ==> !p(x)
    ensures r.Some? ==> exists k :: IsLast(s, p, k) && s[k] == r.value
  {
    if s == [] then None else
    var init, last := s[..|s| - 1], s[|s| - 1];
    assert s == init + [last];
    if p(last) then
      assert IsLast(s, p, |s| - 1);
      Some(last)
    else
      var r := LastWhere(init, p);
      assert forall k :: IsLast(init, p, k) ==> IsLast(s, p, k) && s[k] == init[k];
      r
  }

  lemma LastIsUnique<T(!new)>(s: seq<T>, p: T -> bool, k: int)
    requires IsLast(s, p, k)
    ensures LastWhere(s, p) == Some(s[k])
  {
    assert s[k] in s;
    var j :| IsLast(s, p, j) && s[j] == LastWhere(s, p).value;
  }

  lemma {:induction false} SameLast<T(!new)>(s: seq<T>, p: T -> bool, q: T -> bool)
    requires forall x :: x in s ==> p(x) == q(x)
    ensures LastWhere(s, p) == LastWhere(s, q)
  {
    if s != [] {
      SameLast(s[..|s| - 1], p, q);
      assert s[|s| - 1] in s;
    }
  }

  lemma {:induction false} FilterEndsInLast<T(!new)>(s: seq<T>, p: T -> bool)
    requires Filter(s, p) != []
    ensures LastWhere(s, p) == Some(Filter(s, p)[|Filter(s, p)| - 1])
  {
    if !p(s[|s| - 1]) {
      FilterEndsInLast(s[..|s| - 1], p);
    }
  }

  function Both<T>(p: T -> bool, q: T -> bool): T -> bool {
    (x: T) => p(x) && q(x)
  }

  lemma {:induction false} LastOfFilter<T(!new)>(s: seq<T>, keep: T -> bool, p: T -> bool)
    ensures LastWhere(Filter(s, keep), p) == LastWhere(s, Both(keep, p))
  {
    if s != [] {
      var init, last := s[..|s| - 1], s[|s| - 1];
      LastOfFilter(init, keep, p);
      if keep(last) {
        assert (Filter(init, keep) + [last])[..|Filter(init, keep)|] == Filter(init, keep);
      }
    }
  }

  lemma {:induction false} FilterConcat<T(!new)>(a: seq<T>, b: seq<T>, keep: T -> bool)
    ensures Filter(a + b, keep) == Filter(a, keep) + Filter(b, keep)
  {
    if b == [] {
      assert a + b == a;
    } else {
      assert (a + b)[..|a + b| - 1] == a + b[..|b| - 1];
      FilterConcat(a, b[..|b| - 1], keep);
    }
  }

  lemma {:induction false} FilterKeepsAll<T(!new)>(s: seq<T>, keep: T -> bool)
    requires forall x :: x in s ==> keep(x)
    ensures Filter(s, keep) == s
  {
    if s != [] {
      FilterKeepsAll(s[..|s| - 1], keep);
      assert s == s[..|s| - 1] + [s[|s| - 1]];
    }
  }

  lemma {:induction false} SameFilter<T(!new)>(s: seq<T>, p: T -> bool, q: T -> bool)
    requires forall x :: x in s ==> p(x) == q(x)
    ensures Filter(s, p) == Filter(s, q)
  {
    if s != [] {
      assert s == s[..|s| - 1] + [s[|s| - 1]];
      SameFilter(s[..|s| - 1], p, q);
    }
  }

  lemma {:induction false} FilterLength<T(!new)>(s: seq<T>, keep: T -> bool)
    ensures |Filter(s, keep)| <= |s|
    ensures |Filter(s, keep)| == |s| <==> forall x :: x in s ==> keep(x)
  {
    if s != [] {
      FilterLength(s[..|s| - 1], keep);
      assert s == s[..|s| - 1] + [s[|s| - 1]];
    }
  }

  lemma {:induction false} FiltersCommute<T(!new)>(s: seq<T>, f: T -> bool, g: T -> bool)
    ensures Filter(Filter(s, f), g) == Filter(Filter(s, g), f)
  {
    if s != [] {
      var init, last := s[..|s| - 1], s[|s| - 1];
      FiltersCommute(init, f, g);
      FilterSnoc(Filter(init, f), last, g);
      FilterSnoc(Filter(init, g), last, f);
    }
  }

  /** Two elements that stay keep their order. */
  lemma {:induction false} FilterKeepsPairs<T(!new)>(s: seq<T>, keep: T -> bool, i: nat, j: nat)
    requires i < j < |s| && keep(s[i]) && keep(s[j])
    ensures exists p, q :: 0 <= p < q < |Filter(s, keep)| && Filter(s, keep)[p] == s[i] && Filter(s, keep)[q] == s[j]
  {
    var init := s[..|s| - 1];
    var kept := Filter(init, keep);
    if j < |init| {
      FilterKeepsPairs(init, keep, i, j);
      var p, q :| 0 <= p < q < |kept| && kept[p] == init[i] && kept[q] == init[j];
      assert Filter(s, keep)[p] == s[i] && Filter(s, keep)[q] == s[j];
    } else {
      assert init[i] in kept;
      var p :| 0 <= p < |kept| && kept[p] == init[i];
      assert Filter(s, keep)[p] == s[i] && Filter(s, keep)[|kept|] == s[j];
    }
  }

  /** Two survivors stand in the order they had. */
  lemma {:induction false} FilterKeepsOrder<T(!new)>(s: seq<T>, keep: T -> bool, i: nat, j: nat)
    requires i < j < |Filter(s, keep)|
    ensures exists p, q :: 0 <= p < q < |s| && s[p] == Filter(s, keep)[i] && s[q] == Filter(s, keep)[j]
  {
    var init := s[..|s| - 1];
    var kept := Filter(init, keep);
    if j < |kept| {
      FilterKeepsOrder(init, keep, i, j);
      var p, q :| 0 <= p < q < |init| && init[p] == kept[i] && init[q] == kept[j];
      assert s[p] == Filter(s, keep)[i] && s[q] == Filter(s, keep)[j];
    } else {
      assert kept[i] in init;
      var p :| 0 <= p < |init| && init[p] == kept[i];
      assert s[p] == Filter(s, keep)[i] && s[|s| - 1] == Filter(s, keep)[j];
    }
  }
}
