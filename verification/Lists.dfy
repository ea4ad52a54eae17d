/** Ordered lists without repetition: filtering, first occurrences, and extending one list by
    what another adds. */
module Lists {

  /** Some element: the order in which a Go map is ranged over is unspecified. */
  method Any<T>(s: set<T>) returns (x: T)
    requires s != {}
    ensures x in s
  {
    x :| x in s;
  }

  lemma Element<T>(s: set<T>) returns (x: T)
    requires s != {}
    ensures x in s
  {
    x :| x in s;
  }

  predicate NoDup<T(==)>(xs: seq<T>) {
    xs == [] || (xs[|xs| - 1] !in xs[..|xs| - 1] && NoDup(xs[..|xs| - 1]))
  }

  /** No two positions hold the same element. */
  lemma {:induction false} NoDupPositions<T>(xs: seq<T>)
    requires NoDup(xs)
    ensures forall i, j :: 0 <= i < j < |xs| ==> xs[i] != xs[j]
  {
    if xs != [] {
      var front := xs[..|xs| - 1];
      NoDupPositions(front);
      assert forall i :: 0 <= i < |front| ==> xs[i] == front[i] && front[i] in front;
    }
  }

  lemma {:induction false} NoDupConcat<T>(xs: seq<T>, ys: seq<T>)
    requires NoDup(xs) && NoDup(ys) && forall y :: y in ys ==> y !in xs
    ensures NoDup(xs + ys)
  {
    if ys == [] {
      assert xs + ys == xs;
    } else {
      var front := ys[..|ys| - 1];
      NoDupConcat(xs, front);
      assert (xs + ys)[..|xs + ys| - 1] == xs + front;
    }
  }

  /** Keeps the elements that satisfy `keep`, in order. */
  function Filter<T(!new)>(xs: seq<T>, keep: T -> bool): (r: seq<T>)
    ensures forall x :: x in r <==> x in xs && keep(x)
  {
    if xs == [] then []
    else
      var n := |xs| - 1;
      var front := Filter(xs[..n], keep);
      assert xs == xs[..n] + [xs[n]];
      if keep(xs[n]) then front + [xs[n]] else front
  }

  lemma {:induction false} FilterNoDup<T(!new)>(xs: seq<T>, keep: T -> bool)
    requires NoDup(xs)
    ensures NoDup(Filter(xs, keep))
  {
    if xs != [] {
      FilterNoDup(xs[..|xs| - 1], keep);
    }
  }

  lemma {:induction false} FilterAll<T(!new)>(xs: seq<T>, keep: T -> bool)
    requires forall x :: x in xs ==> keep(x)
    ensures Filter(xs, keep) == xs
  {
    if xs != [] {
      FilterAll(xs[..|xs| - 1], keep);
    }
  }

  lemma {:induction false} FilterNone<T(!new)>(xs: seq<T>, keep: T -> bool)
    requires forall x :: x in xs ==> !keep(x)
    ensures Filter(xs, keep) == []
  {
    if xs != [] {
      FilterNone(xs[..|xs| - 1], keep);
    }
  }

  /** Filtering a concatenation is filtering its parts. */
  lemma {:induction false} FilterConcat<T(!new)>(xs: seq<T>, ys: seq<T>, keep: T -> bool)
    ensures Filter(xs + ys, keep) == Filter(xs, keep) + Filter(ys, keep)
  {
    if ys == [] {
      assert xs + ys == xs;
    } else {
      var n := |ys| - 1;
      assert (xs + ys)[..|xs + ys| - 1] == xs + ys[..n];
      FilterConcat(xs, ys[..n], keep);
    }
  }

  lemma {:induction false} FilterExt<T(!new)>(xs: seq<T>, p: T -> bool, q: T -> bool)
    requires forall x :: x in xs ==> p(x) == q(x)
    ensures Filter(xs, p) == Filter(xs, q)
  {
    if xs != [] {
      FilterExt(xs[..|xs| - 1], p, q);
    }
  }

  /** One more element of the prefix a filtering loop has handled. */
  lemma FilterStep<T(!new)>(xs: seq<T>, i: nat, keep: T -> bool)
    requires i < |xs|
    ensures Filter(xs[..i + 1], keep) == Filter(xs[..i], keep) + (if keep(xs[i]) then [xs[i]] else [])
  {
    assert xs[..i + 1][..i] == xs[..i];
  }

  function Cut<T>(xs: seq<T>, k: int): seq<T>
    requires 0 <= k < |xs|
  {
    xs[..k] + xs[k + 1..]
  }

  /** Cuts the unwanted elements below `n` one at a time, from the highest position down. */
  function CutEach<T>(xs: seq<T>, keep: T -> bool, n: nat): (r: seq<T>)
    requires n <= |xs|
    ensures |r| <= |xs|
    decreases n
  {
    if n == 0 then xs
    else if keep(xs[n - 1]) then CutEach(xs, keep, n - 1)
    else CutEach(Cut(xs, n - 1), keep, n - 1)
  }

  lemma FilterSkips<T(!new)>(xs: seq<T>, keep: T -> bool, k: nat)
    requires k < |xs| && !keep(xs[k])
    ensures Filter(xs[..k + 1], keep) == Filter(xs[..k], keep)
  {
    FilterStep(xs, k, keep);
  }

  lemma FilterSplit<T(!new)>(xs: seq<T>, keep: T -> bool, k: nat)
    requires k <= |xs|
    ensures Filter(xs, keep) == Filter(xs[..k], keep) + Filter(xs[k..], keep)
  {
    assert xs == xs[..k] + xs[k..];
    FilterConcat(xs[..k], xs[k..], keep);
  }

  lemma FilterCut<T(!new)>(xs: seq<T>, keep: T -> bool, k: nat)
    requires k < |xs| && !keep(xs[k])
    ensures Filter(Cut(xs, k), keep) == Filter(xs, keep)
  {
    FilterSkips(xs, keep, k);
    FilterSplit(xs, keep, k + 1);
    FilterConcat(xs[..k], xs[k + 1..], keep);
  }

  /** Cutting one at a time from the top is filtering. */
  lemma {:induction false} CutEachFilters<T(!new)>(xs: seq<T>, keep: T -> bool, n: nat)
    requires n <= |xs|
    requires forall i :: n <= i < |xs| ==> keep(xs[i])
    ensures CutEach(xs, keep, n) == Filter(xs, keep)
    decreases n
  {
    if n == 0 {
      FilterAll(xs, keep);
    } else if keep(xs[n - 1]) {
      CutEachFilters(xs, keep, n - 1);
    } else {
      FilterCut(xs, keep, n - 1);
      CutEachFilters(Cut(xs, n - 1), keep, n - 1);
    }
  }

  /** The first occurrence of every element, in order. */
  function Uniq<T(!new,==)>(xs: seq<T>): (r: seq<T>)
    ensures forall x :: x in r <==> x in xs
  {
    if xs == [] then []
    else
      var n := |xs| - 1;
      var front := Uniq(xs[..n]);
      assert xs == xs[..n] + [xs[n]];
      if xs[n] in front then front else front + [xs[n]]
  }

  lemma {:induction false} UniqNoDup<T(!new)>(xs: seq<T>)
    ensures NoDup(Uniq(xs))
    ensures NoDup(xs) ==> Uniq(xs) == xs
  {
    if xs != [] {
      UniqNoDup(xs[..|xs| - 1]);
    }
  }

  function In<T(==)>(xs: seq<T>): T -> bool {
    x => x in xs
  }

  function NotIn<T(==)>(xs: seq<T>): T -> bool {
    x => x !in xs
  }

  /** `xs` followed by the elements of `ys` it does not hold yet. */
  function Extend<T(!new,==)>(xs: seq<T>, ys: seq<T>): (r: seq<T>)
    ensures forall x :: x in r <==> x in xs || x in ys
    ensures xs <= r
  {
    xs + Filter(ys, NotIn(xs))
  }

  lemma ExtendNoDup<T(!new)>(xs: seq<T>, ys: seq<T>)
    requires NoDup(xs) && NoDup(ys)
    ensures NoDup(Extend(xs, ys))
  {
    FilterNoDup(ys, NotIn(xs));
    NoDupConcat(xs, Filter(ys, NotIn(xs)));
  }

  lemma UniqStep<T(!new)>(xs: seq<T>, i: nat, keep: T -> bool)
    requires i < |xs|
    ensures Filter(Uniq(xs[..i + 1]), keep) ==
      Filter(Uniq(xs[..i]), keep) + (if keep(xs[i]) && xs[i] !in Uniq(xs[..i]) then [xs[i]] else [])
  {
    var before := Uniq(xs[..i]);
    assert xs[..i + 1][..i] == xs[..i];
    if xs[i] !in before {
      FilterConcat(before, [xs[i]], keep);
      if keep(xs[i]) {
        FilterAll([xs[i]], keep);
      } else {
        FilterNone([xs[i]], keep);
      }
    }
  }

  /** One round of the loop below. */
  lemma FreshStep<T(!new)>(held: seq<T>, xs: seq<T>, i: nat)
    requires i < |xs|
    ensures Filter(Uniq(xs[..i + 1]), NotIn(held)) ==
      Filter(Uniq(xs[..i]), NotIn(held)) + (if xs[i] !in held && xs[i] !in xs[..i] then [xs[i]] else [])
  {
    UniqStep(xs, i, NotIn(held));
  }

  lemma SeenStep<T>(xs: seq<T>, i: nat)
    requires i < |xs|
    ensures forall x :: x in xs[..i + 1] <==> x in xs[..i] || x == xs[i]
  {
    assert xs[..i + 1] == xs[..i] + [xs[i]];
  }

  /** The elements of `xs` that are not held yet, each once: the loop with a `seen` set. */
  method Fresh<T(!new,==)>(held: seq<T>, xs: seq<T>) returns (r: seq<T>)
    ensures r == Filter(Uniq(xs), NotIn(held))
  {
    r := [];
    var seen := set x | x in held;
    for i := 0 to |xs|
      invariant r == Filter(Uniq(xs[..i]), NotIn(held))
      invariant forall x :: x in seen <==> x in held || x in xs[..i]
    {
      FreshStep(held, xs, i);
      SeenStep(xs, i);
      if xs[i] !in seen {
        seen := seen + {xs[i]};
        r := r + [xs[i]];
      }
    }
    assert xs[..|xs|] == xs;
  }

  /** The appending loop with a `seen` set. */
  method AppendNew<T(!new,==)>(xs: seq<T>, ys: seq<T>) returns (r: seq<T>)
    ensures r == Extend(xs, Uniq(ys))
  {
    var added := Fresh(xs, ys);
    r := xs + added;
  }
}
