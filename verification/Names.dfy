/** The model-name lists of a channel: trimmed, non-empty, duplicate-free, in a stable order. */
module Names {
  import opened Text
  import opened Lists

  /** The normal form every list operation works on. */
  predicate Normal(xs: seq<string>) {
    NoDup(xs) && forall x :: x in xs ==> x != "" && Trimmed(x, IsSpace)
  }

  const NonBlank: string -> bool := x => x != ""

  function TrimAll(xs: seq<string>): (r: seq<string>)
    ensures |r| == |xs|
    ensures forall i :: 0 <= i < |xs| ==> r[i] == TrimSpace(xs[i])
  {
    seq(|xs|, i requires 0 <= i < |xs| => TrimSpace(xs[i]))
  }

  function Normalize(xs: seq<string>): seq<string> {
    Uniq(Filter(TrimAll(xs), NonBlank))
  }

  /** Normalizing reaches the normal form and leaves a normal list alone. */
  lemma NormalizeNormal(xs: seq<string>)
    ensures Normal(Normalize(xs))
    ensures Normal(xs) ==> Normalize(xs) == xs
  {
    UniqNoDup(Filter(TrimAll(xs), NonBlank));
    if Normal(xs) {
      assert TrimAll(xs) == xs;
      FilterAll(xs, NonBlank);
    }
  }

  /** Exactly the non-blank names survive, each stripped of outer white space. */
  lemma NormalizeMember(xs: seq<string>, x: string)
    ensures x in Normalize(xs) <==> x != "" && exists i :: 0 <= i < |xs| && TrimSpace(xs[i]) == x
  {
    assert x in TrimAll(xs) <==> exists i :: 0 <= i < |xs| && TrimSpace(xs[i]) == x;
  }

  lemma NormalizeFree(xs: seq<string>, sep: char)
    requires Free(xs, sep)
    ensures Free(Normalize(xs), sep)
  {
    forall x | x in Normalize(xs) ensures sep !in x {
      NormalizeMember(xs, x);
      var i :| 0 <= i < |xs| && TrimSpace(xs[i]) == x;
      assert xs[i] in xs;
    }
  }

  function Merge(base: seq<string>, appended: seq<string>): seq<string> {
    Extend(Normalize(base), Normalize(appended))
  }

  function Subtract(base: seq<string>, removed: seq<string>): seq<string> {
    Filter(Normalize(base), NotIn(Normalize(removed)))
  }

  function Intersect(base: seq<string>, allowed: seq<string>): seq<string> {
    Filter(Normalize(base), In(Normalize(allowed)))
  }

  /** On normal lists the operations need no further normalizing, and keep the form. */
  lemma NormalMerge(base: seq<string>, appended: seq<string>)
    requires Normal(base) && Normal(appended)
    ensures Merge(base, appended) == Extend(base, appended) && Normal(Extend(base, appended))
  {
    NormalizeNormal(base);
    NormalizeNormal(appended);
    ExtendNoDup(base, appended);
  }

  lemma NormalFilter(base: seq<string>, keep: string -> bool)
    requires Normal(base)
    ensures Normal(Filter(base, keep))
  {
    FilterNoDup(base, keep);
  }

  lemma NormalSubtract(base: seq<string>, removed: seq<string>)
    requires Normal(base) && Normal(removed)
    ensures Subtract(base, removed) == Filter(base, NotIn(removed)) && Normal(Filter(base, NotIn(removed)))
  {
    NormalizeNormal(base);
    NormalizeNormal(removed);
    NormalFilter(base, NotIn(removed));
  }

  lemma NormalIntersect(base: seq<string>, allowed: seq<string>)
    ensures Normal(Intersect(base, allowed))
    ensures forall x :: x in Intersect(base, allowed) <==> x in Normalize(base) && x in Normalize(allowed)
  {
    NormalizeNormal(base);
    NormalFilter(Normalize(base), In(Normalize(allowed)));
  }

  /** The loop of `mergeModelNames` with its `seen` set. */
  method MergeModelNames(base: seq<string>, appended: seq<string>) returns (merged: seq<string>)
    ensures merged == Merge(base, appended)
  {
    merged := AppendNew(Normalize(base), Normalize(appended));
    NormalizeNormal(appended);
    UniqNoDup(Normalize(appended));
  }

  /** Adds win over removes: what `applySelectedModelChanges` computes. */
  function ApplySelected(origin: seq<string>, adds: seq<string>, removes: seq<string>): seq<string> {
    var a := Normalize(adds);
    Subtract(Merge(origin, a), Subtract(Normalize(removes), a))
  }

  /** The origin's order is kept, the genuinely new names follow in the order they were
      selected, and exactly the removed names that were not also added are dropped. */
  lemma ApplySelectedNormal(o: seq<string>, a: seq<string>, d: seq<string>)
    requires Normal(o) && Normal(a) && Normal(d)
    ensures ApplySelected(o, a, d) == Filter(o, x => x !in d || x in a) + Filter(a, NotIn(o))
    ensures Normal(ApplySelected(o, a, d))
    ensures forall x :: x in ApplySelected(o, a, d) <==> x in a || (x in o && x !in d)
  {
    NormalizeNormal(a);
    NormalizeNormal(d);
    NormalSubtract(d, a);
    var gone := Filter(d, NotIn(a));
    NormalMerge(o, a);
    NormalSubtract(Extend(o, a), gone);
    var extra := Filter(a, NotIn(o));
    FilterConcat(o, extra, NotIn(gone));
    FilterExt(o, NotIn(gone), x => x !in d || x in a);
    FilterAll(extra, NotIn(gone));
  }
}
