/** Choosing one price per model from many providers: the cheapest non-zero input cost, up to
    the comparison tolerance. */
module ModelsDev {
  import opened Options
  import opened Lists
  import opened RatioDiff

  datatype Cost = Cost(input: Option<real>, output: Option<real>, cacheRead: Option<real>)

  datatype Candidate = Candidate(provider: string, input: real, output: Option<real>, cacheRead: Option<real>)

  type Catalog = map<string, map<string, Cost>>

  /** `buildModelsDevCandidate`: no usable candidate without a non-negative input cost, with a
      negative output cost, or with a free input and a paid output. */
  function Build(provider: string, cost: Cost): (r: Option<Candidate>)
    ensures r.Some? ==> r.value.provider == provider && r.value.input >= 0.0 && cost.input == Some(r.value.input)
  {
    if cost.input.None? || cost.input.value < 0.0 then None
    else if cost.output.Some? && cost.output.value < 0.0 then None
    else if cost.input.value == 0.0 && cost.output.Some? && cost.output.value > 0.0 then None
    else
      var cacheRead := if cost.cacheRead.Some? && cost.cacheRead.value >= 0.0 then cost.cacheRead else None;
      Some(Candidate(provider, cost.input.value, cost.output, cacheRead))
  }

  /** Go's order on strings. */
  predicate Before(a: string, b: string) {
    b != "" && (a == "" || a[0] < b[0] || (a[0] == b[0] && Before(a[1..], b[1..])))
  }

  lemma {:induction false} BeforeIsTotal(a: string, b: string)
    ensures a == b || Before(a, b) || Before(b, a)
    ensures !(Before(a, b) && Before(b, a)) && !Before(a, a)
  {
    if a != "" && b != "" {
      BeforeIsTotal(a[1..], b[1..]);
      BeforeIsTotal(a[1..], a[1..]);
      assert a == [a[0]] + a[1..] && b == [b[0]] + b[1..];
    } else if a != "" {
      BeforeIsTotal(a[1..], a[1..]);
    }
  }

  lemma {:induction false} BeforeIsTransitive(a: string, b: string, c: string)
    requires Before(a, b) && Before(b, c)
    ensures Before(a, c)
  {
    if a != "" && a[0] == b[0] == c[0] {
      BeforeIsTransitive(a[1..], b[1..], c[1..]);
    }
  }

  /** The strings first differ at `k`, where the first one has ended or has the smaller character. */
  predicate BeforeAt(a: string, b: string, k: nat) {
    && k <= |a| && k < |b| && a[..k] == b[..k]
    && (k == |a| || a[k] < b[k])
  }

  lemma {:induction false} BeforeExactly(a: string, b: string)
    ensures Before(a, b) <==> exists k: nat :: BeforeAt(a, b, k)
  {
    if a == "" || b == "" || a[0] < b[0] {
      assert b != "" ==> BeforeAt(a, b, 0);
    } else if a[0] == b[0] {
      BeforeExactly(a[1..], b[1..]);
      forall k: nat ensures BeforeAt(a[1..], b[1..], k) <==> BeforeAt(a, b, k + 1) {
        BeforeShifts(a, b, k);
      }
      if k: nat :| BeforeAt(a, b, k) {
        assert k > 0;
        BeforeShifts(a, b, k - 1);
        assert BeforeAt(a[1..], b[1..], k - 1);
      }
    } else if k: nat :| BeforeAt(a, b, k) {
      assert a[..k][0] == b[..k][0];
    }
  }

  lemma BeforeShifts(a: string, b: string, k: nat)
    requires a != "" && b != "" && a[0] == b[0]
    ensures BeforeAt(a[1..], b[1..], k) <==> BeforeAt(a, b, k + 1)
  {
    if k + 1 <= |a| && k + 1 <= |b| {
      assert a[..k + 1] == [a[0]] + a[1..][..k] && b[..k + 1] == [b[0]] + b[1..][..k];
    }
  }

  predicate Negative(cost: Option<real>) {
    cost.Some? && cost.value < 0.0
  }

  /** A provider's cost is unusable exactly when its input is missing or negative, its output negative,
      or its input free and its output paid. A usable one is taken over as it is, except that a negative
      cache cost is dropped. */
  lemma UsableExactly(provider: string, cost: Cost)
    ensures var r := Build(provider, cost);
      && (r.None? <==>
            || cost.input.None? || Negative(cost.input) || Negative(cost.output)
            || (cost.input == Some(0.0) && cost.output.Some? && cost.output != Some(0.0)))
      && (r.Some? ==>
            && cost.input == Some(r.value.input) && r.value.output == cost.output && !Negative(r.value.cacheRead)
            && (r.value.cacheRead == cost.cacheRead || (Negative(cost.cacheRead) && r.value.cacheRead.None?)))
  {
  }

  /** `shouldReplaceModelsDevCandidate`. */
  predicate ShouldReplace(current: Candidate, next: Candidate) {
    var currentNonZero, nextNonZero := current.input > 0.0, next.input > 0.0;
    if currentNonZero != nextNonZero then nextNonZero
    else if nextNonZero && !NearlyEqual(next.input, current.input) then next.input < current.input
    else Before(next.provider, current.provider)
  }

  /** The selection over candidates in the order they are met. */
  function Select(cs: seq<Candidate>): (r: Option<Candidate>)
    ensures r.Some? <==> cs != []
    ensures r.Some? ==> r.value in cs
  {
    if cs == [] then None
    else
      var current, next := Select(cs[..|cs| - 1]), cs[|cs| - 1];
      assert cs == cs[..|cs| - 1] + [next];
      if current.None? || ShouldReplace(current.value, next) then Some(next) else current
  }

  /** Candidates of one model come from providers in sorted order. */
  predicate ByProvider(cs: seq<Candidate>) {
    forall i, j :: 0 <= i < j < |cs| ==> Before(cs[i].provider, cs[j].provider)
  }

  predicate Valid(cs: seq<Candidate>) {
    forall i :: 0 <= i < |cs| ==> cs[i].input >= 0.0
  }

  /** With sorted providers the tie-breaker never fires: a candidate is replaced only by a first
      non-zero price or by one cheaper by the whole tolerance. */
  lemma NoTieBreak(cs: seq<Candidate>)
    requires |cs| >= 2 && ByProvider(cs) && Valid(cs)
    ensures var current, next := Select(cs[..|cs| - 1]).value, cs[|cs| - 1];
      ShouldReplace(current, next) <==>
        next.input > 0.0 && (current.input == 0.0 || next.input <= current.input - EPSILON)
  {
    var front, next := cs[..|cs| - 1], cs[|cs| - 1];
    var current := Select(front).value;
    var i :| 0 <= i < |front| && front[i] == current;
    assert Before(cs[i].provider, next.provider);
    BeforeIsTotal(current.provider, next.provider);
    assert cs[i].input >= 0.0;
  }

  /** No drift: the choice is a candidate, is free only when all are, and is below every
      non-zero candidate plus the tolerance, however many providers there are. */
  lemma {:induction false} NoDrift(cs: seq<Candidate>)
    requires cs != [] && ByProvider(cs) && Valid(cs)
    ensures var r := Select(cs).value;
      && r in cs
      && (r.input > 0.0 <==> exists c :: c in cs && c.input > 0.0)
      && forall c :: c in cs && c.input > 0.0 ==> r.input < c.input + EPSILON
  {
    var front, next := cs[..|cs| - 1], cs[|cs| - 1];
    assert forall c :: c in cs <==> c in front || c == next;
    if front != [] {
      NoDrift(front);
      NoTieBreak(cs);
      var current := Select(front).value;
      var i :| 0 <= i < |front| && front[i] == current;
      assert cs[i].input >= 0.0 && cs[|cs| - 1].input >= 0.0;
    }
  }

  /** Once held, a price can only be replaced by a cheaper one by the whole tolerance. */
  lemma {:induction false} HeldUnlessCheaper(cs: seq<Candidate>, k: nat, floor: real)
    requires ByProvider(cs) && Valid(cs) && 0 < k <= |cs|
    requires floor > 0.0 && forall c :: c in cs && c.input > 0.0 ==> c.input >= floor
    requires floor <= Select(cs[..k]).value.input < floor + EPSILON
    ensures Select(cs).value == Select(cs[..k]).value
    decreases |cs|
  {
    if k < |cs| {
      var front := cs[..|cs| - 1];
      assert front[..k] == cs[..k];
      assert forall c :: c in front ==> c in cs;
      HeldUnlessCheaper(front, k, floor);
      NoTieBreak(cs);
      assert cs[|cs| - 1] in cs;
    } else {
      assert cs[..k] == cs;
    }
  }

  predicate CheapestFirstAt(cs: seq<Candidate>, k: nat) {
    && k < |cs| && cs[k].input > 0.0
    && (forall i :: 0 <= i < |cs| && cs[i].input > 0.0 ==> cs[i].input >= cs[k].input)
    && (forall i :: 0 <= i < k ==> cs[i].input != cs[k].input)
  }

  /** The scan holds a price that is dearer than `floor`, but by less than the tolerance. */
  predicate HoldsNear(held: Option<Candidate>, floor: real) {
    held.Some? && floor < held.value.input < floor + EPSILON
  }

  /** Meeting the cheapest price for the first time. */
  lemma FirstMeeting(cs: seq<Candidate>, k: nat)
    requires ByProvider(cs) && Valid(cs) && CheapestFirstAt(cs, k)
    ensures Select(cs[..k + 1]) == if HoldsNear(Select(cs[..k]), cs[k].input) then Select(cs[..k]) else Some(cs[k])
  {
    var upto := cs[..k + 1];
    assert upto[..k] == cs[..k] && upto[k] == cs[k];
    if k > 0 {
      NoTieBreak(upto);
      var held := Select(cs[..k]).value;
      var i :| 0 <= i < k && cs[..k][i] == held;
      assert held == cs[i];
    }
  }

  /** The choice is exactly the cheapest non-zero price unless, when that price was first met,
      the scan already held one dearer by less than the tolerance. */
  lemma CheapestExactly(cs: seq<Candidate>, k: nat)
    requires ByProvider(cs) && Valid(cs) && CheapestFirstAt(cs, k)
    ensures Select(cs).value.input == cs[k].input <==> !HoldsNear(Select(cs[..k]), cs[k].input)
  {
    FirstMeeting(cs, k);
    forall c | c in cs && c.input > 0.0 ensures c.input >= cs[k].input {
      var i :| 0 <= i < |cs| && cs[i] == c;
    }
    HeldUnlessCheaper(cs, k + 1, cs[k].input);
  }

  /** Why the providers are sorted: met in descending order, near-equal prices drift upwards
      past the tolerance. */
  lemma DriftsWhenUnsorted()
    ensures var c := (p: string, x: real) => Candidate(p, x, None, None);
      var cs := [c("c", 1.0), c("b", 1.0000000009), c("a", 1.0000000018)];
      Select(cs).value.input >= cs[0].input + EPSILON
  {
    var a, b, c := Candidate("a", 1.0000000018, None, None), Candidate("b", 1.0000000009, None, None), Candidate("c", 1.0, None, None);
    assert [c, b, a][..2] == [c, b] && [c, b][..1] == [c] && [c][..0] == [];
    assert Select([c]) == Some(c);
    assert Before("b", "c") && Before("a", "b");
    assert Select([c, b]) == Some(b);
  }

  /** Sorted providers keep it below the tolerance, but the cheapest may still lose: what is held
      when it is met is dearer by less than that. */
  lemma CheapestMayLose()
    ensures var c := (p: string, x: real) => Candidate(p, x, None, None);
      var cs := [c("a", 1.0000000005), c("b", 1.0)];
      ByProvider(cs) && Valid(cs) && Select(cs) == Some(cs[0])
  {
    var a, b := Candidate("a", 1.0000000005, None, None), Candidate("b", 1.0, None, None);
    assert [a, b][..1] == [a] && [a][..0] == [];
    assert Select([a]) == Some(a);
    assert Before("a", "b") && !Before("b", "a");
  }

  // ----- The selection over a whole catalog

  predicate IsFirst(keys: set<string>, m: string) {
    m in keys && forall x :: x in keys ==> x == m || Before(m, x)
  }

  lemma {:induction false} FirstExists(keys: set<string>)
    requires keys != {}
    ensures exists m :: IsFirst(keys, m)
  {
    var y := Lists.Element(keys);
    var rest := keys - {y};
    assert forall x :: x in keys ==> x == y || x in rest;
    if rest == {} {
      assert IsFirst(keys, y);
    } else {
      FirstExists(rest);
      var m :| IsFirst(rest, m);
      BeforeIsTotal(y, m);
      if Before(m, y) {
        assert IsFirst(keys, m);
      } else {
        forall x | x in rest && x != m ensures Before(y, x) {
          BeforeIsTransitive(y, m, x);
        }
        assert IsFirst(keys, y);
      }
    }
  }

  predicate SortedNames(xs: seq<string>) {
    forall i, j :: 0 <= i < j < |xs| ==> Before(xs[i], xs[j])
  }

  lemma FirstIsUnique(keys: set<string>, m: string, n: string)
    requires IsFirst(keys, m) && IsFirst(keys, n)
    ensures m == n
  {
    BeforeIsTotal(m, n);
  }

  function FirstOf(keys: set<string>): (m: string)
    requires keys != {}
    ensures IsFirst(keys, m)
  {
    FirstExists(keys);
    assert forall m, n :: IsFirst(keys, m) && IsFirst(keys, n) ==> m == n by {
      forall m, n | IsFirst(keys, m) && IsFirst(keys, n) ensures m == n {
        FirstIsUnique(keys, m, n);
      }
    }
    var m :| m in keys && IsFirst(keys, m);
    m
  }

  /** The keys of a map after `sort.Strings`. */
  function SortedKeys(keys: set<string>): (r: seq<string>)
    ensures SortedNames(r)
    ensures forall x :: x in r <==> x in keys
  {
    if keys == {} then []
    else
      var m := FirstOf(keys);
      var rest := SortedKeys(keys - {m});
      assert forall i :: 0 <= i < |rest| ==> rest[i] in rest;
      [m] + rest
  }

  /** The usable candidates of one model, provider by provider. */
  function CandidatesOf(catalog: Catalog, providers: seq<string>, model: string): (r: seq<Candidate>)
    requires forall p :: p in providers ==> p in catalog
    ensures Valid(r)
    ensures forall c :: c in r <==> exists p :: p in providers && model in catalog[p] && Build(p, catalog[p][model]) == Some(c)
  {
    if providers == [] then []
    else
      var p := providers[|providers| - 1];
      assert providers == providers[..|providers| - 1] + [p];
      var front := CandidatesOf(catalog, providers[..|providers| - 1], model);
      if model in catalog[p] && Build(p, catalog[p][model]).Some? then front + [Build(p, catalog[p][model]).value] else front
  }

  lemma {:induction false} CandidatesSorted(catalog: Catalog, providers: seq<string>, model: string)
    requires forall p :: p in providers ==> p in catalog
    requires SortedNames(providers)
    ensures ByProvider(CandidatesOf(catalog, providers, model))
  {
    if providers != [] {
      var n := |providers| - 1;
      var p, front := providers[n], CandidatesOf(catalog, providers[..n], model);
      CandidatesSorted(catalog, providers[..n], model);
      forall i | 0 <= i < |front| ensures Before(front[i].provider, p) {
        assert front[i] in front;
        var q :| q in providers[..n] && model in catalog[q] && Build(q, catalog[q][model]) == Some(front[i]);
        var j :| 0 <= j < n && providers[j] == q;
      }
    }
  }

  function Offer(catalog: Catalog, p: string, model: string): Option<Candidate>
    requires p in catalog
  {
    if model in catalog[p] then Build(p, catalog[p][model]) else None
  }

  /** One more offer for a model that may already have a choice. */
  function Met(current: Option<Candidate>, offer: Option<Candidate>): Option<Candidate> {
    if offer.None? then current
    else if current.None? || ShouldReplace(current.value, offer.value) then offer
    else current
  }

  lemma MetIsSelected(catalog: Catalog, earlier: seq<string>, p: string, model: string)
    requires p in catalog && forall q :: q in earlier ==> q in catalog
    ensures forall q :: q in earlier + [p] ==> q in catalog
    ensures Select(CandidatesOf(catalog, earlier + [p], model)) ==
      Met(Select(CandidatesOf(catalog, earlier, model)), Offer(catalog, p, model))
  {
    assert (earlier + [p])[..|earlier|] == earlier;
    var front := CandidatesOf(catalog, earlier, model);
    var offer := Offer(catalog, p, model);
    if offer.Some? {
      assert (front + [offer.value])[..|front|] == front;
    }
  }

  function Chosen(chosen: map<string, Candidate>, model: string): Option<Candidate> {
    if model in chosen then Some(chosen[model]) else None
  }

  /** One provider's models, in sorted order. */
  method MeetProvider(catalog: Catalog, provider: string, before: map<string, Candidate>)
    returns (chosen: map<string, Candidate>)
    requires provider in catalog
    ensures forall model :: Chosen(chosen, model) == Met(Chosen(before, model), Offer(catalog, provider, model))
  {
    chosen := before;
    var models := SortedKeys(catalog[provider].Keys);
    ghost var done: set<string> := {};
    for j := 0 to |models|
      invariant forall i :: j <= i < |models| ==> models[i] !in done
      invariant forall i :: 0 <= i < j ==> models[i] in done
      invariant forall model :: model in done ==> Chosen(chosen, model) == Met(Chosen(before, model), Offer(catalog, provider, model))
      invariant forall model :: model !in done ==> Chosen(chosen, model) == Chosen(before, model)
    {
      var name := models[j];
      assert name in models;
      NoRepeats(models, j);
      var candidate := Build(provider, catalog[provider][name]);
      if candidate.Some? {
        if name !in chosen || ShouldReplace(chosen[name], candidate.value) {
          chosen := chosen[name := candidate.value];
        }
      }
      done := done + {name};
    }
    forall model ensures Chosen(chosen, model) == Met(Chosen(before, model), Offer(catalog, provider, model)) {
      if model in catalog[provider] {
        assert model in models;
      }
    }
  }

  lemma NoRepeats(xs: seq<string>, j: nat)
    requires SortedNames(xs) && j < |xs|
    ensures forall i :: 0 <= i < |xs| && i != j ==> xs[i] != xs[j]
  {
    BeforeIsTotal(xs[j], xs[j]);
  }

  /** The choices, model by model, are those of the candidates met in provider order. */
  ghost predicate Chooses(catalog: Catalog, providers: seq<string>, chosen: map<string, Candidate>) {
    && (forall p :: p in providers ==> p in catalog)
    && forall model :: Chosen(chosen, model) == Select(CandidatesOf(catalog, providers, model))
  }

  datatype Selection = Selected(chosen: map<string, Candidate>) | EmptyResponse | NoValidEntries

  /** The selection loop of `convertModelsDevToRatioData`. */
  method SelectCandidates(catalog: Catalog) returns (r: Selection)
    ensures r.EmptyResponse? <==> catalog == map[]
    ensures r.NoValidEntries? ==> Chooses(catalog, SortedKeys(catalog.Keys), map[])
    ensures r.Selected? ==> r.chosen != map[] && Chooses(catalog, SortedKeys(catalog.Keys), r.chosen)
  {
    if |catalog| == 0 {
      return EmptyResponse;
    }
    var providers := SortedKeys(catalog.Keys);
    var chosen: map<string, Candidate> := map[];
    for i := 0 to |providers|
      invariant Chooses(catalog, providers[..i], chosen)
    {
      var provider := providers[i];
      assert providers[..i + 1] == providers[..i] + [provider];
      assert provider in providers;
      var before := chosen;
      chosen := MeetProvider(catalog, provider, before);
      forall model ensures Chosen(chosen, model) == Select(CandidatesOf(catalog, providers[..i] + [provider], model)) {
        MetIsSelected(catalog, providers[..i], provider, model);
      }
    }
    assert providers[..|providers|] == providers;
    if |chosen| == 0 {
      return NoValidEntries;
    }
    r := Selected(chosen);
  }

  /** For every catalog and model: the selection's price is one offered by some provider, is free
      only when every usable offer is, and undercuts every usable non-zero offer plus the
      tolerance. */
  lemma SelectionMeaning(catalog: Catalog, model: string)
    ensures var cs := CandidatesOf(catalog, SortedKeys(catalog.Keys), model);
      && ByProvider(cs)
      && (cs != [] ==>
            var r := Select(cs).value;
            && r.provider in catalog && model in catalog[r.provider]
            && Build(r.provider, catalog[r.provider][model]) == Some(r)
            && forall p :: p in catalog && model in catalog[p] && Build(p, catalog[p][model]).Some? ==>
                 var offer := Build(p, catalog[p][model]).value.input;
                 offer > 0.0 ==> 0.0 < r.input < offer + EPSILON)
  {
    var providers := SortedKeys(catalog.Keys);
    var cs := CandidatesOf(catalog, providers, model);
    CandidatesSorted(catalog, providers, model);
    if cs != [] {
      NoDrift(cs);
      var r := Select(cs).value;
      forall p | p in catalog && model in catalog[p] && Build(p, catalog[p][model]).Some?
        ensures var offer := Build(p, catalog[p][model]).value.input; offer > 0.0 ==> 0.0 < r.input < offer + EPSILON
      {
        var c := Build(p, catalog[p][model]).value;
        assert p in providers && c in cs;
      }
    }
  }
}
