/** Reconciling a channel's model list with what its upstream offers: detect pending changes,
    apply or ignore them, and detect again. */
module Upstream {
  import opened Text
  import opened Lists
  import opened Names

  /** `regexp.MatchString(pattern, name)` without an error. */
  type Matcher = (string, string) -> bool

  datatype Settings = Settings(
    checkEnabled: bool,
    autoSync: bool,
    ignored: seq<string>,
    detected: seq<string>,
    removed: seq<string>,
    lastCheck: int)

  /** A channel row: `models` is the comma-joined column. */
  datatype Channel = Channel(enabled: bool, models: string, settings: Settings)

  function GetModels(ch: Channel): seq<string> {
    Parse(ch.models, ',')
  }

  function LocalModels(ch: Channel): seq<string> {
    Normalize(GetModels(ch))
  }

  const REGEX_PREFIX := "regex:"

  predicate IgnoredBy(entry: string, name: string, matches: Matcher) {
    if REGEX_PREFIX <= entry then matches(TrimSpace(entry[|REGEX_PREFIX|..]), name) else entry == name
  }

  predicate Ignored(entries: seq<string>, name: string, matches: Matcher) {
    exists e :: e in entries && IgnoredBy(e, name, matches)
  }

  /** Offered upstream, not covered locally or as a redirect target, and not ignored. */
  function Wanted(local: seq<string>, ignored: seq<string>, mapping: map<string, string>, matches: Matcher): string -> bool {
    x => x !in local && x !in mapping.Values && !Ignored(ignored, x, matches)
  }

  /** No longer offered upstream, and not a redirect source. */
  function Stale(upstream: seq<string>, mapping: map<string, string>): string -> bool {
    x => x !in mapping.Keys && x !in upstream
  }

  /** `collectPendingUpstreamModelChangesFromModels`. */
  function Detect(local: seq<string>, upstream: seq<string>, ignored: seq<string>, mapping: map<string, string>, matches: Matcher)
    : (seq<string>, seq<string>)
  {
    var l, u := Normalize(local), Normalize(upstream);
    ( Normalize(Filter(u, Wanted(l, Normalize(ignored), mapping, matches))),
      Normalize(Filter(l, Stale(u, mapping))) )
  }

  lemma DetectNormal(local: seq<string>, upstream: seq<string>, ignored: seq<string>, mapping: map<string, string>, matches: Matcher)
    ensures var l, u := Normalize(local), Normalize(upstream);
      var wanted, stale := Wanted(l, Normalize(ignored), mapping, matches), Stale(u, mapping);
      && Detect(local, upstream, ignored, mapping, matches) == (Filter(u, wanted), Filter(l, stale))
      && Normal(Filter(u, wanted)) && Normal(Filter(l, stale))
  {
    var l, u := Normalize(local), Normalize(upstream);
    NormalizeNormal(local);
    NormalizeNormal(upstream);
    NormalFilter(u, Wanted(l, Normalize(ignored), mapping, matches));
    NormalFilter(l, Stale(u, mapping));
    NormalizeNormal(Filter(u, Wanted(l, Normalize(ignored), mapping, matches)));
    NormalizeNormal(Filter(l, Stale(u, mapping)));
  }

  /** An entry that starts with "regex:" ignores what the rest of it, trimmed, matches; any other ignores
      the name it spells. */
  lemma IgnoredMeans(entry: string, name: string, matches: Matcher)
    ensures IgnoredBy(entry, name, matches) <==>
      if |entry| >= 6 && entry[..6] == "regex:" then matches(TrimSpace(entry[6..]), name) else entry == name
  {
    assert |REGEX_PREFIX| == 6;
    assert REGEX_PREFIX <= entry <==> |entry| >= 6 && entry[..6] == REGEX_PREFIX;
  }

  /** What a detection proposes, name by name, from the lists as they are given. */
  lemma DetectMeans(local: seq<string>, upstream: seq<string>, ignored: seq<string>, mapping: map<string, string>, matches: Matcher, x: string)
    ensures var (adds, removes) := Detect(local, upstream, ignored, mapping, matches);
      && (x in adds <==>
            && x != "" && (exists i :: 0 <= i < |upstream| && TrimSpace(upstream[i]) == x)
            && (forall i :: 0 <= i < |local| ==> TrimSpace(local[i]) != x)
            && (forall source :: source in mapping ==> mapping[source] != x)
            && (forall e :: e in Normalize(ignored) ==> !IgnoredBy(e, x, matches)))
      && (x in removes <==>
            && x != "" && (exists i :: 0 <= i < |local| && TrimSpace(local[i]) == x)
            && (forall i :: 0 <= i < |upstream| ==> TrimSpace(upstream[i]) != x)
            && x !in mapping)
  {
    var l, u, g := Normalize(local), Normalize(upstream), Normalize(ignored);
    DetectNormal(local, upstream, ignored, mapping, matches);
    NormalizeMember(local, x);
    NormalizeMember(upstream, x);
    WantedMeans(l, g, mapping, matches, x);
    assert x in Filter(u, Wanted(l, g, mapping, matches)) <==> x in u && Wanted(l, g, mapping, matches)(x);
    assert x in Filter(l, Stale(u, mapping)) <==> x in l && Stale(u, mapping)(x);
  }

  lemma WantedMeans(l: seq<string>, g: seq<string>, mapping: map<string, string>, matches: Matcher, x: string)
    ensures Wanted(l, g, mapping, matches)(x) <==>
      && x !in l && (forall source :: source in mapping ==> mapping[source] != x)
      && (forall e :: e in g ==> !IgnoredBy(e, x, matches))
  {
  }

  // ----- Applying selected changes

  datatype Applied = Applied(
    channel: Channel,
    added: seq<string>,
    dropped: seq<string>,
    remaining: seq<string>,
    remainingRemoves: seq<string>,
    changed: bool)

  /** What `applyChannelUpstreamModelUpdates` does to a row. */
  function Apply(ch: Channel, addInput: seq<string>, ignoreInput: seq<string>, removeInput: seq<string>, now: int): Applied {
    var s := ch.settings;
    var pendingAdds, pendingRemoves := Normalize(s.detected), Normalize(s.removed);
    var adds := Intersect(addInput, pendingAdds);
    var ignores := Intersect(ignoreInput, pendingAdds);
    var removes := Subtract(Intersect(removeInput, pendingRemoves), adds);
    var origin := LocalModels(ch);
    var next := ApplySelected(origin, adds, removes);
    var merged := Merge(s.ignored, ignores);
    var remaining := Subtract(pendingAdds, adds + ignores);
    var remainingRemoves := Subtract(pendingRemoves, removes);
    var settings := s.(
      ignored := if adds != [] then Subtract(merged, adds) else merged,
      detected := remaining,
      removed := remainingRemoves,
      lastCheck := now);
    Applied(
      ch.(models := if origin != next then Join(next, ',') else ch.models, settings := settings),
      adds, removes, remaining, remainingRemoves, origin != next)
  }

  /** Pending adds split into added, ignored-but-not-added and remaining, and an added name is
      never ignored afterwards. */
  lemma ApplyAdds(ch: Channel, addInput: seq<string>, ignoreInput: seq<string>, removeInput: seq<string>, now: int)
    ensures var r := Apply(ch, addInput, ignoreInput, removeInput, now);
      var p, a, g := Normalize(ch.settings.detected), Normalize(addInput), Normalize(ignoreInput);
      && Normal(r.added) && Normal(r.remaining)
      && (forall x :: x in r.added <==> x in p && x in a)
      && (forall x :: x in r.remaining <==> x in p && x !in a && x !in g)
      && (forall x :: x in r.channel.settings.ignored <==>
            (x in Normalize(ch.settings.ignored) || (x in p && x in g)) && x !in r.added)
      && r.remaining == Filter(p, x => x !in a && x !in g)
      && r.channel.settings.detected == r.remaining
      && Normal(r.channel.settings.ignored)
  {
    var p := Normalize(ch.settings.detected);
    NormalizeNormal(ch.settings.detected);
    NormalizeNormal(p);
    var a, g := Normalize(addInput), Normalize(ignoreInput);
    var adds, ignores := Intersect(addInput, p), Intersect(ignoreInput, p);
    NormalIntersect(addInput, p);
    NormalIntersect(ignoreInput, p);
    RemainingAfter(p, adds, ignores);
    FilterExt(p, x => x !in adds && x !in ignores, x => x !in a && x !in g);
    IgnoredAfter(ch.settings.ignored, ignores, adds);
  }

  /** Pending removes split into dropped and remaining, and an added name is never dropped. */
  lemma ApplyRemoves(ch: Channel, addInput: seq<string>, ignoreInput: seq<string>, removeInput: seq<string>, now: int)
    ensures var r := Apply(ch, addInput, ignoreInput, removeInput, now);
      var q, d := Normalize(ch.settings.removed), Normalize(removeInput);
      && Normal(r.dropped) && Normal(r.remainingRemoves)
      && (forall x :: x in r.dropped <==> x in q && x in d && x !in r.added)
      && (forall x :: x in r.remainingRemoves <==> x in q && x !in r.dropped)
      && r.remainingRemoves == Filter(q, NotIn(r.dropped))
      && r.channel.settings.removed == r.remainingRemoves
  {
    var p, q := Normalize(ch.settings.detected), Normalize(ch.settings.removed);
    NormalizeNormal(ch.settings.removed);
    NormalizeNormal(q);
    var adds := Intersect(addInput, p);
    NormalIntersect(addInput, p);
    NormalIntersect(removeInput, q);
    NormalSubtract(Intersect(removeInput, q), adds);
    NormalSubtract(q, Subtract(Intersect(removeInput, q), adds));
  }

  /** The surviving models keep their order, the added ones follow in the order selected, and
      the column is rewritten only when the list changed. */
  lemma ApplyModels(ch: Channel, addInput: seq<string>, ignoreInput: seq<string>, removeInput: seq<string>, now: int)
    ensures var r := Apply(ch, addInput, ignoreInput, removeInput, now);
      var o := LocalModels(ch);
      var next := Filter(o, NotIn(r.dropped)) + Filter(r.added, NotIn(o));
      && Normal(next)
      && r.changed == (next != o)
      && r.channel.models == (if r.changed then Join(next, ',') else ch.models)
  {
    var r := Apply(ch, addInput, ignoreInput, removeInput, now);
    ApplyAdds(ch, addInput, ignoreInput, removeInput, now);
    ApplyRemoves(ch, addInput, ignoreInput, removeInput, now);
    var o := LocalModels(ch);
    NormalizeNormal(GetModels(ch));
    ApplySelectedNormal(o, r.added, r.dropped);
    FilterExt(o, x => x !in r.dropped || x in r.added, NotIn(r.dropped));
  }

  /** `append(addModels, ignoreModels...)` may repeat names; subtracting it still removes
      exactly those names. */
  lemma RemainingAfter(p: seq<string>, adds: seq<string>, ignores: seq<string>)
    requires Normal(p) && Normal(adds) && Normal(ignores)
    ensures Subtract(p, adds + ignores) == Filter(p, x => x !in adds && x !in ignores)
    ensures Normal(Subtract(p, adds + ignores))
  {
    NormalizeNormal(p);
    var both := adds + ignores;
    forall x ensures x in Normalize(both) <==> x in both {
      NormalizeMember(both, x);
      if x in both {
        var i :| 0 <= i < |both| && both[i] == x;
        assert TrimSpace(both[i]) == x;
      }
    }
    FilterExt(p, NotIn(Normalize(both)), x => x !in adds && x !in ignores);
    NormalFilter(p, NotIn(Normalize(both)));
  }

  lemma IgnoredAfter(ignored: seq<string>, ignores: seq<string>, adds: seq<string>)
    requires Normal(ignores) && Normal(adds)
    ensures var merged := Merge(ignored, ignores);
      var after := if adds != [] then Subtract(merged, adds) else merged;
      && Normal(after)
      && forall x :: x in after <==> (x in Normalize(ignored) || x in ignores) && x !in adds
  {
    NormalizeNormal(ignored);
    NormalizeNormal(ignores);
    NormalMerge(Normalize(ignored), ignores);
    NormalSubtract(Merge(ignored, ignores), adds);
  }

  // ----- Checking a channel

  datatype Fetched = Models(names: seq<string>) | FetchError

  datatype Checked = Checked(channel: Channel, changed: bool, autoAdded: nat, failed: bool)

  /** What `checkAndPersistChannelUpstreamModelUpdates` does to a row. */
  function Check(ch: Channel, fetched: Fetched, mapping: map<string, string>, matches: Matcher,
                 force: bool, allowAutoApply: bool, now: int, minInterval: int): Checked
  {
    var s := ch.settings;
    if !force && s.lastCheck > 0 && now - s.lastCheck < minInterval then Checked(ch, false, 0, false)
    else if fetched.FetchError? then Checked(ch.(settings := s.(lastCheck := now)), false, 0, true)
    else Record(ch, Detect(GetModels(ch), fetched.names, s.ignored, mapping, matches), allowAutoApply && s.autoSync, now)
  }

  /** Storing what a detection found: pending adds are merged at once under automatic sync. */
  function Record(ch: Channel, pending: (seq<string>, seq<string>), sync: bool, now: int): Checked {
    var s := ch.settings.(lastCheck := now, removed := pending.1);
    if sync && pending.0 != [] then
      var origin := LocalModels(ch);
      var merged := Merge(origin, pending.0);
      var grown := |merged| > |origin|;
      Checked(
        ch.(models := if grown then Join(merged, ',') else ch.models, settings := s.(detected := [])),
        grown, if grown then |merged| - |origin| else 0, false)
    else
      Checked(ch.(settings := s.(detected := pending.0)), false, 0, false)
  }

  /** An unforced check within the interval after the last one is over before it begins: nothing is
      fetched, written or reported. Any other check stores its time, keeps the ignore list, and after a
      failed fetch keeps everything else and reports the failure. */
  lemma CheckWaits(ch: Channel, fetched: Fetched, mapping: map<string, string>, matches: Matcher,
                   force: bool, allowAutoApply: bool, now: int, minInterval: int)
    ensures var r := Check(ch, fetched, mapping, matches, force, allowAutoApply, now, minInterval);
      var before, after := ch.settings, r.channel.settings;
      if !force && before.lastCheck >= 1 && before.lastCheck + minInterval > now then
        r.channel == ch && !r.changed && r.autoAdded == 0 && !r.failed
      else
        && after.lastCheck == now && after.ignored == before.ignored
        && after.checkEnabled == before.checkEnabled && after.autoSync == before.autoSync
        && r.channel.enabled == ch.enabled && r.failed == (fetched == FetchError)
        && (r.failed ==>
              && r.channel.models == ch.models && !r.changed && r.autoAdded == 0
              && after.detected == before.detected && after.removed == before.removed)
  {
    if fetched.Models? {
      RecordKeeps(ch, Detect(GetModels(ch), fetched.names, ch.settings.ignored, mapping, matches), allowAutoApply && ch.settings.autoSync, now);
    }
  }

  lemma RecordKeeps(ch: Channel, pending: (seq<string>, seq<string>), sync: bool, now: int)
    ensures var r := Record(ch, pending, sync, now);
      var before, after := ch.settings, r.channel.settings;
      && after.lastCheck == now && after.ignored == before.ignored
      && after.checkEnabled == before.checkEnabled && after.autoSync == before.autoSync
      && r.channel.enabled == ch.enabled && !r.failed
  {
  }

  /** What a check that gets the upstream's names stores and reports: the pending removes always; the
      pending adds either as pending, or, under automatic sync, behind the models. */
  lemma CheckStores(ch: Channel, upstream: seq<string>, mapping: map<string, string>, matches: Matcher,
                    force: bool, allowAutoApply: bool, now: int, minInterval: int)
    requires force || Due(ch, now, minInterval)
    ensures var r := Check(ch, Models(upstream), mapping, matches, force, allowAutoApply, now, minInterval);
      var (adds, removes) := Detect(GetModels(ch), upstream, ch.settings.ignored, mapping, matches);
      && r.channel.settings.removed == removes && !r.failed
      && if allowAutoApply && ch.settings.autoSync && adds != [] then
           && r.channel.models == Join(LocalModels(ch) + adds, ',') && r.channel.settings.detected == []
           && r.changed && r.autoAdded == |adds|
         else
           && r.channel.models == ch.models && r.channel.settings.detected == adds
           && !r.changed && r.autoAdded == 0
  {
    var adds := Detect(GetModels(ch), upstream, ch.settings.ignored, mapping, matches).0;
    DetectNormal(GetModels(ch), upstream, ch.settings.ignored, mapping, matches);
    AutoSyncModels(ch, adds);
  }

  // ----- Convergence

  /** A name that is offered, uncovered and ignored stays ignored by an entry that is not
      itself among the added names. */
  predicate IgnoresSurvive(l: seq<string>, u: seq<string>, g: seq<string>, adds: seq<string>, mapping: map<string, string>, matches: Matcher) {
    forall x :: x in u && x !in l && x !in mapping.Values && Ignored(g, x, matches) ==>
      exists e :: e in g && e !in adds && IgnoredBy(e, x, matches)
  }

  /** Reading back the column a list of model names was joined into. */
  lemma RejoinedModels(names: seq<string>)
    requires Normal(names)
    ensures Free(names, ',') ==> Normalize(Parse(Join(names, ','), ',')) == names
    ensures Free(Normalize(Parse(Join(names, ','), ',')), ',')
  {
    if Free(names, ',') {
      ParseJoin(names, ',');
      assert SolidEnds(names) by {
        if names != [] {
          assert names[0] in names && names[|names| - 1] in names;
        }
      }
      NormalizeNormal(names);
    }
    NormalizeFree(Parse(Join(names, ','), ','), ',');
  }

  /** What applying everything pending after a detection leaves behind. */
  lemma AfterFullApply(ch: Channel, adds: seq<string>, removes: seq<string>, now: int)
    requires Normal(adds) && Normal(removes)
    requires ch.settings.detected == adds && ch.settings.removed == removes
    requires forall x :: x in removes ==> x !in adds
    ensures var o := LocalModels(ch);
      var r := Apply(ch, adds, [], removes, now).channel;
      && (forall x :: x in Normalize(r.settings.ignored) <==> x in Normalize(ch.settings.ignored) && x !in adds)
      && (Free(adds, ',') ==> forall x :: x in LocalModels(r) <==> x in adds || (x in o && x !in removes))
      && Free(LocalModels(r), ',')
  {
    var o := LocalModels(ch);
    var r := Apply(ch, adds, [], removes, now);
    ApplyAdds(ch, adds, [], removes, now);
    ApplyRemoves(ch, adds, [], removes, now);
    ApplyModels(ch, adds, [], removes, now);
    NormalizeNormal(adds);
    NormalizeNormal(removes);
    NormalizeNormal([]);
    NormalizeNormal(r.channel.settings.ignored);
    NormalizeFree(GetModels(ch), ',');
    var next := Filter(o, NotIn(r.dropped)) + Filter(r.added, NotIn(o));
    assert forall x :: x in next <==> x in adds || (x in o && x !in removes);
    RejoinedModels(next);
    NormalizeFree(GetModels(r.channel), ',');
  }

  /** The second detection, in terms of the lists it works on. */
  lemma SecondDetection(u: seq<string>, l: seq<string>, g: seq<string>, l': seq<string>, g': seq<string>,
                        mapping: map<string, string>, matches: Matcher)
    requires var adds, removes := Filter(u, Wanted(l, g, mapping, matches)), Filter(l, Stale(u, mapping));
      && (forall x :: x in g' <==> x in g && x !in adds)
      && (Free(adds, ',') ==> forall x :: x in l' <==> x in adds || (x in l && x !in removes))
      && Free(l', ',')
    ensures var adds := Filter(u, Wanted(l, g, mapping, matches));
      Filter(u, Wanted(l', g', mapping, matches)) == [] && Filter(l', Stale(u, mapping)) == [] <==>
        Free(adds, ',') && IgnoresSurvive(l, u, g, adds, mapping, matches)
  {
    var adds := Filter(u, Wanted(l, g, mapping, matches));
    var wanted', stale' := Wanted(l', g', mapping, matches), Stale(u, mapping);
    if !Free(adds, ',') {
      var x :| x in adds && ',' in x;
      assert x !in l' && wanted'(x);
      assert x in Filter(u, wanted');
    } else if IgnoresSurvive(l, u, g, adds, mapping, matches) {
      forall x | x in u ensures !wanted'(x) {
        if x !in l' && x !in mapping.Values {
          var e :| e in g && e !in adds && IgnoredBy(e, x, matches);
          assert e in g';
        }
      }
      FilterNone(u, wanted');
      FilterNone(l', stale');
    } else {
      var x :| x in u && x !in l && x !in mapping.Values && Ignored(g, x, matches)
        && !exists e :: e in g && e !in adds && IgnoredBy(e, x, matches);
      assert x !in l' && wanted'(x);
      assert x in Filter(u, wanted');
    }
  }

  /** A forced check without automatic sync records what is detected and nothing else. */
  lemma CheckDetects(ch: Channel, upstream: seq<string>, mapping: map<string, string>, matches: Matcher, now: int, minInterval: int)
    ensures var c := Check(ch, Models(upstream), mapping, matches, true, false, now, minInterval).channel;
      var l, u, g := LocalModels(ch), Normalize(upstream), Normalize(ch.settings.ignored);
      && c.models == ch.models && c.settings.ignored == ch.settings.ignored
      && (c.settings.detected, c.settings.removed) == Detect(GetModels(ch), upstream, ch.settings.ignored, mapping, matches)
      && c.settings.detected == Filter(u, Wanted(l, g, mapping, matches)) && Normal(c.settings.detected)
      && c.settings.removed == Filter(l, Stale(u, mapping)) && Normal(c.settings.removed)
      && (forall x :: x in c.settings.removed ==> x !in c.settings.detected)
  {
    DetectNormal(GetModels(ch), upstream, ch.settings.ignored, mapping, matches);
  }

  /** Detecting, applying everything pending and detecting again finds nothing, exactly when no
      added name contains a comma and no added name was the only entry ignoring another one. */
  lemma ConvergesExactly(ch: Channel, upstream: seq<string>, mapping: map<string, string>, matches: Matcher, t0: int, t1: int, t2: int, minInterval: int)
    ensures var detected := Check(ch, Models(upstream), mapping, matches, true, false, t0, minInterval).channel;
      var applied := Apply(detected, detected.settings.detected, [], detected.settings.removed, t1).channel;
      var again := Check(applied, Models(upstream), mapping, matches, true, false, t2, minInterval).channel;
      again.settings.detected == [] && again.settings.removed == [] <==>
        var adds := Detect(GetModels(ch), upstream, ch.settings.ignored, mapping, matches).0;
        && Free(adds, ',')
        && IgnoresSurvive(LocalModels(ch), Normalize(upstream), Normalize(ch.settings.ignored), adds, mapping, matches)
  {
    var l, u, g := LocalModels(ch), Normalize(upstream), Normalize(ch.settings.ignored);
    var (adds, removes) := Detect(GetModels(ch), upstream, ch.settings.ignored, mapping, matches);
    CheckDetects(ch, upstream, mapping, matches, t0, minInterval);
    var detected := Check(ch, Models(upstream), mapping, matches, true, false, t0, minInterval).channel;
    var applied := Apply(detected, adds, [], removes, t1).channel;
    AfterFullApply(detected, adds, removes, t1);
    CheckDetects(applied, upstream, mapping, matches, t2, minInterval);
    SecondDetection(u, l, g, LocalModels(applied), Normalize(applied.settings.ignored), mapping, matches);
  }

  /** The everyday case: comma-free names and no upstream model named like a `regex:` entry. */
  lemma ConvergesForPlainNames(ch: Channel, upstream: seq<string>, mapping: map<string, string>, matches: Matcher, t0: int, t1: int, t2: int, minInterval: int)
    requires Free(upstream, ',')
    requires forall e :: e in Normalize(ch.settings.ignored) && REGEX_PREFIX <= e ==> e !in Normalize(upstream)
    ensures var detected := Check(ch, Models(upstream), mapping, matches, true, false, t0, minInterval).channel;
      var applied := Apply(detected, detected.settings.detected, [], detected.settings.removed, t1).channel;
      var again := Check(applied, Models(upstream), mapping, matches, true, false, t2, minInterval).channel;
      again.settings.detected == [] && again.settings.removed == []
  {
    var l, u, g := LocalModels(ch), Normalize(upstream), Normalize(ch.settings.ignored);
    var (adds, _) := Detect(GetModels(ch), upstream, ch.settings.ignored, mapping, matches);
    DetectNormal(GetModels(ch), upstream, ch.settings.ignored, mapping, matches);
    NormalizeFree(upstream, ',');
    forall x | x in u && x !in l && x !in mapping.Values && Ignored(g, x, matches)
      ensures exists e :: e in g && e !in adds && IgnoredBy(e, x, matches)
    {
      var e :| e in g && IgnoredBy(e, x, matches);
      if REGEX_PREFIX <= e {
        assert e !in adds;
      } else {
        assert e == x && x !in adds;
      }
    }
    ConvergesExactly(ch, upstream, mapping, matches, t0, t1, t2, minInterval);
  }

  /** Applying exactly the pending adds, by hand. */
  lemma ApplyOnlyAdds(ch: Channel, adds: seq<string>, now: int)
    requires Normal(adds) && ch.settings.detected == adds && Normal(ch.settings.removed)
    requires forall x :: x in adds ==> x !in LocalModels(ch)
    ensures var r := Apply(ch, adds, [], [], now);
      && r.added == adds && r.dropped == []
      && r.channel.settings.detected == [] && r.channel.settings.removed == ch.settings.removed
      && r.changed == (adds != [])
      && r.channel.models == (if adds != [] then Join(LocalModels(ch) + adds, ',') else ch.models)
  {
    var o, r := LocalModels(ch), Apply(ch, adds, [], [], now);
    ApplyAdds(ch, adds, [], [], now);
    ApplyRemoves(ch, adds, [], [], now);
    ApplyModels(ch, adds, [], [], now);
    NormalizeNormal(adds);
    NormalizeNormal(ch.settings.removed);
    FilterAll(adds, In(adds));
    FilterNone(adds, x => x !in adds && x !in Normalize([]));
    assert Normalize([]) == [];
    FilterNone(Normalize([]), In(ch.settings.removed));
    FilterAll(ch.settings.removed, NotIn(r.dropped));
    FilterAll(o, NotIn(r.dropped));
    FilterAll(adds, NotIn(o));
    assert adds == [] ==> o + adds == o;
  }

  /** Automatic sync leaves the same models as detecting without it and applying every pending
      add by hand. */
  lemma AutoSyncIsApplyingAdds(ch: Channel, upstream: seq<string>, mapping: map<string, string>, matches: Matcher, t0: int, t1: int, minInterval: int)
    requires ch.settings.autoSync
    ensures var auto := Check(ch, Models(upstream), mapping, matches, true, true, t0, minInterval);
      var manual := Check(ch, Models(upstream), mapping, matches, true, false, t0, minInterval).channel;
      var applied := Apply(manual, manual.settings.detected, [], [], t1);
      && auto.channel.models == applied.channel.models
      && auto.changed == applied.changed
      && auto.autoAdded == |applied.added|
      && auto.channel.settings.removed == applied.channel.settings.removed
      && auto.channel.settings.detected == applied.channel.settings.detected == []
  {
    var (adds, removes) := Detect(GetModels(ch), upstream, ch.settings.ignored, mapping, matches);
    DetectNormal(GetModels(ch), upstream, ch.settings.ignored, mapping, matches);
    var manual := Check(ch, Models(upstream), mapping, matches, true, false, t0, minInterval).channel;
    ApplyOnlyAdds(manual, adds, t1);
    AutoSyncModels(ch, adds);
  }

  /** Merging names the channel does not have yet appends them all. */
  lemma AutoSyncModels(ch: Channel, adds: seq<string>)
    requires Normal(adds) && forall x :: x in adds ==> x !in LocalModels(ch)
    ensures Merge(LocalModels(ch), adds) == LocalModels(ch) + adds && Normal(LocalModels(ch) + adds)
  {
    var o := LocalModels(ch);
    NormalizeNormal(GetModels(ch));
    NormalMerge(o, adds);
    FilterAll(adds, NotIn(o));
  }

  /** After an automatic sync the next detection finds nothing to add exactly when no added name
      contains a comma; the pending removes are then found again unchanged. */
  lemma AutoSyncConverges(ch: Channel, upstream: seq<string>, mapping: map<string, string>, matches: Matcher, t0: int, t1: int, minInterval: int)
    requires ch.settings.autoSync
    ensures var adds := Detect(GetModels(ch), upstream, ch.settings.ignored, mapping, matches).0;
      var first := Check(ch, Models(upstream), mapping, matches, true, true, t0, minInterval).channel;
      var again := Check(first, Models(upstream), mapping, matches, true, false, t1, minInterval).channel;
      && (again.settings.detected == [] <==> Free(adds, ','))
      && (Free(adds, ',') ==> again.settings.removed == first.settings.removed)
  {
    var (adds, removes) := Detect(GetModels(ch), upstream, ch.settings.ignored, mapping, matches);
    DetectNormal(GetModels(ch), upstream, ch.settings.ignored, mapping, matches);
    var first := Check(ch, Models(upstream), mapping, matches, true, true, t0, minInterval).channel;
    DetectNormal(GetModels(first), upstream, first.settings.ignored, mapping, matches);
    RecordedModels(ch, adds, removes, t0);
    DetectionAfterSync(Normalize(upstream), LocalModels(ch), Normalize(ch.settings.ignored), LocalModels(first), mapping, matches);
  }

  lemma RecordedModels(ch: Channel, adds: seq<string>, removes: seq<string>, now: int)
    requires Normal(adds) && forall x :: x in adds ==> x !in LocalModels(ch)
    ensures var synced := Record(ch, (adds, removes), true, now).channel;
      Free(LocalModels(synced), ',') && (Free(adds, ',') ==> LocalModels(synced) == LocalModels(ch) + adds)
  {
    var o, synced := LocalModels(ch), Record(ch, (adds, removes), true, now).channel;
    AutoSyncModels(ch, adds);
    NormalizeFree(GetModels(ch), ',');
    NormalizeFree(GetModels(synced), ',');
    RejoinedModels(o + adds);
    assert adds == [] ==> o + adds == o;
  }

  lemma DetectionAfterSync(u: seq<string>, l: seq<string>, g: seq<string>, l': seq<string>, mapping: map<string, string>, matches: Matcher)
    requires var adds := Filter(u, Wanted(l, g, mapping, matches));
      Free(l', ',') && (Free(adds, ',') ==> l' == l + adds)
    ensures var adds := Filter(u, Wanted(l, g, mapping, matches));
      && (Filter(u, Wanted(l', g, mapping, matches)) == [] <==> Free(adds, ','))
      && (Free(adds, ',') ==> Filter(l', Stale(u, mapping)) == Filter(l, Stale(u, mapping)))
  {
    var adds := Filter(u, Wanted(l, g, mapping, matches));
    if !Free(adds, ',') {
      var x :| x in adds && ',' in x;
      assert x in Filter(u, Wanted(l', g, mapping, matches));
    } else {
      FilterNone(u, Wanted(l', g, mapping, matches));
      FilterConcat(l, adds, Stale(u, mapping));
      FilterNone(adds, Stale(u, mapping));
    }
  }

  /** The bulk queries do not load the redirect mapping, so a bulk detection also proposes to
      remove redirect sources that a detection of the single channel keeps. */
  lemma BulkDetectionMissesRedirects(local: seq<string>, upstream: seq<string>, ignored: seq<string>, mapping: map<string, string>, matches: Matcher, x: string)
    ensures x in Detect(local, upstream, ignored, map[], matches).1 && x !in Detect(local, upstream, ignored, mapping, matches).1 <==>
      x in Normalize(local) && x !in Normalize(upstream) && x in mapping.Keys
  {
    DetectNormal(local, upstream, ignored, map[], matches);
    DetectNormal(local, upstream, ignored, mapping, matches);
  }

  /** And it proposes to add redirect targets that are offered and neither local nor ignored. */
  lemma BulkDetectionAddsTargets(local: seq<string>, upstream: seq<string>, ignored: seq<string>, mapping: map<string, string>, matches: Matcher, x: string)
    ensures x in Detect(local, upstream, ignored, map[], matches).0 && x !in Detect(local, upstream, ignored, mapping, matches).0 <==>
      x in Normalize(upstream) && x !in Normalize(local) && !Ignored(Normalize(ignored), x, matches) && x in mapping.Values
  {
    DetectNormal(local, upstream, ignored, map[], matches);
    DetectNormal(local, upstream, ignored, mapping, matches);
  }

  /** The two detections agree exactly when every local redirect source is still offered and every
      offered redirect target is local or ignored. */
  lemma BulkDetectionAgreesExactly(local: seq<string>, upstream: seq<string>, ignored: seq<string>, mapping: map<string, string>, matches: Matcher)
    ensures Detect(local, upstream, ignored, map[], matches) == Detect(local, upstream, ignored, mapping, matches) <==>
      && (forall x :: x in mapping.Keys && x in Normalize(local) ==> x in Normalize(upstream))
      && (forall x :: x in mapping.Values && x in Normalize(upstream) ==> x in Normalize(local) || Ignored(Normalize(ignored), x, matches))
  {
    var l, u, g := Normalize(local), Normalize(upstream), Normalize(ignored);
    var bulk, single := Detect(local, upstream, ignored, map[], matches), Detect(local, upstream, ignored, mapping, matches);
    if bulk == single {
      forall x ensures !(x in l && x !in u && x in mapping.Keys) {
        BulkDetectionMissesRedirects(local, upstream, ignored, mapping, matches, x);
      }
      forall x ensures !(x in u && x !in l && !Ignored(g, x, matches) && x in mapping.Values) {
        BulkDetectionAddsTargets(local, upstream, ignored, mapping, matches, x);
      }
    }
    if (forall x :: x in mapping.Keys && x in l ==> x in u)
       && (forall x :: x in mapping.Values && x in u ==> x in l || Ignored(g, x, matches)) {
      DetectNormal(local, upstream, ignored, map[], matches);
      DetectNormal(local, upstream, ignored, mapping, matches);
      FilterExt(u, Wanted(l, g, map[], matches), Wanted(l, g, mapping, matches));
      FilterExt(l, Stale(u, map[]), Stale(u, mapping));
    }
  }

  /** The interval guard lets an unforced check pass. */
  predicate Due(ch: Channel, now: int, minInterval: int) {
    ch.settings.lastCheck <= 0 || now - ch.settings.lastCheck >= minInterval
  }

  /** With automatic sync the background round then adds the target at once. */
  lemma BulkSyncAddsTarget(ch: Channel, upstream: seq<string>, mapping: map<string, string>, matches: Matcher, x: string, now: int, minInterval: int)
    requires Due(ch, now, minInterval) && ch.settings.autoSync && x in Normalize(upstream) && x !in LocalModels(ch) && ',' !in x
    requires !Ignored(Normalize(ch.settings.ignored), x, matches) && x in mapping.Values
    requires Free(upstream, ',')
    ensures x in LocalModels(Check(ch, Models(upstream), map[], matches, false, true, now, minInterval).channel)
    ensures x !in LocalModels(Check(ch, Models(upstream), mapping, matches, false, true, now, minInterval).channel)
  {
    SyncedModels(ch, upstream, map[], matches, now, minInterval);
    SyncedModels(ch, upstream, mapping, matches, now, minInterval);
    BulkDetectionAddsTargets(GetModels(ch), upstream, ch.settings.ignored, mapping, matches, x);
  }

  lemma DueCheck(ch: Channel, upstream: seq<string>, mapping: map<string, string>, matches: Matcher, now: int, minInterval: int)
    requires Due(ch, now, minInterval) && ch.settings.autoSync
    ensures Check(ch, Models(upstream), mapping, matches, false, true, now, minInterval)
      == Record(ch, Detect(GetModels(ch), upstream, ch.settings.ignored, mapping, matches), true, now)
  {
  }

  lemma SyncedModels(ch: Channel, upstream: seq<string>, mapping: map<string, string>, matches: Matcher, now: int, minInterval: int)
    requires Due(ch, now, minInterval) && ch.settings.autoSync && Free(upstream, ',')
    ensures LocalModels(Check(ch, Models(upstream), mapping, matches, false, true, now, minInterval).channel)
      == LocalModels(ch) + Detect(GetModels(ch), upstream, ch.settings.ignored, mapping, matches).0
  {
    var (adds, removes) := Detect(GetModels(ch), upstream, ch.settings.ignored, mapping, matches);
    DetectNormal(GetModels(ch), upstream, ch.settings.ignored, mapping, matches);
    NormalizeFree(upstream, ',');
    RecordedModels(ch, adds, removes, now);
    DueCheck(ch, upstream, mapping, matches, now, minInterval);
  }
}
