/** The channel table: the stored effect of checking and applying one channel, and of the bulk
    operations that page through the enabled channels. */
module ChannelStore {
  import opened Lists
  import opened Names
  import opened Paging
  import opened Upstream

  const IsEnabled: Channel -> bool := (ch: Channel) => ch.enabled

  /** One row of `ApplyAllChannelUpstreamModelUpdates`: everything pending is applied. */
  function ApplyVisit(now: int): Visitor<Channel, Applied> {
    (id: int, ch: Channel) =>
      var adds, removes := Normalize(ch.settings.detected), Normalize(ch.settings.removed);
      if !ch.settings.checkEnabled || (adds == [] && removes == []) then Skip
      else var r := Apply(ch, adds, [], removes, now); Done(r.channel, r)
  }

  /** One row of the bulk detection and of the background task. The bulk queries do not select
      the redirect mapping, so it is empty here. */
  function CheckVisit(fetch: int -> Fetched, matches: Matcher, force: bool, allowAutoApply: bool, now: int, minInterval: int)
    : Visitor<Channel, Checked>
  {
    (id: int, ch: Channel) =>
      if !ch.settings.checkEnabled then Skip
      else var r := Check(ch, fetch(id), map[], matches, force, allowAutoApply, now, minInterval); Done(r.channel, r)
  }

  function Succeeded(): Row<Checked> -> bool {
    (row: Row<Checked>) => !row.content.failed
  }

  /** The channels whose models could not be fetched. */
  function FailedIds(rows: seq<Row<Checked>>): (r: seq<int>)
    ensures forall id :: id in r <==> exists row :: row in rows && row.content.failed && row.id == id
  {
    if rows == [] then []
    else
      var last := rows[|rows| - 1];
      assert rows == rows[..|rows| - 1] + [last];
      FailedIds(rows[..|rows| - 1]) + if last.content.failed then [last.id] else []
  }

  /** The two lists that the handler keeps while it goes through the channels. */
  method SortOut(rows: seq<Row<Checked>>) returns (results: seq<Row<Checked>>, failed: seq<int>)
    ensures results == Filter(rows, Succeeded()) && failed == FailedIds(rows)
  {
    results, failed := [], [];
    for i := 0 to |rows|
      invariant results == Filter(rows[..i], Succeeded()) && failed == FailedIds(rows[..i])
    {
      FilterStep(rows, i, Succeeded());
      assert rows[..i + 1][..i] == rows[..i];
      if rows[i].content.failed {
        failed := failed + [rows[i].id];
      } else {
        results := results + [rows[i]];
      }
    }
    assert rows[..|rows|] == rows;
  }

  method RecordChannel(stored: Channel, pending: (seq<string>, seq<string>), sync: bool, now: int) returns (r: Checked)
    ensures r == Record(stored, pending, sync, now)
  {
    var channel := stored;
    var settings := channel.settings.(lastCheck := now);
    var changed, autoAdded := false, 0;
    if sync && |pending.0| > 0 {
      var origin := LocalModels(channel);
      var merged := MergeModelNames(origin, pending.0);
      if |merged| > |origin| {
        channel := channel.(models := Text.Join(merged, ','));
        autoAdded := |merged| - |origin|;
        changed := true;
      }
      settings := settings.(detected := []);
    } else {
      settings := settings.(detected := pending.0);
    }
    settings := settings.(removed := pending.1);
    r := Checked(channel.(settings := settings), changed, autoAdded, false);
  }

  class Table {
    var rows: map<int, Channel>

    constructor (rows: map<int, Channel>)
      ensures this.rows == rows
    {
      this.rows := rows;
    }

    /** `applyChannelUpstreamModelUpdates` on a stored channel. */
    method ApplyUpdates(id: int, addInput: seq<string>, ignoreInput: seq<string>, removeInput: seq<string>, now: int)
      returns (r: Applied)
      requires id in rows
      modifies this
      ensures r == Apply(old(rows[id]), addInput, ignoreInput, removeInput, now)
      ensures rows == old(rows)[id := r.channel]
    {
      var channel := rows[id];
      var settings := channel.settings;
      var pendingAdds := Normalize(settings.detected);
      var pendingRemoves := Normalize(settings.removed);
      var adds := Intersect(addInput, pendingAdds);
      var ignores := Intersect(ignoreInput, pendingAdds);
      var removes := Subtract(Intersect(removeInput, pendingRemoves), adds);
      var origin := LocalModels(channel);
      var next := ApplySelected(origin, adds, removes);
      var changed := origin != next;
      if changed {
        channel := channel.(models := Text.Join(next, ','));
      }
      var ignored := MergeModelNames(settings.ignored, ignores);
      if |adds| > 0 {
        ignored := Subtract(ignored, adds);
      }
      var remaining := Subtract(pendingAdds, adds + ignores);
      var remainingRemoves := Subtract(pendingRemoves, removes);
      settings := settings.(ignored := ignored, detected := remaining, removed := remainingRemoves, lastCheck := now);
      channel := channel.(settings := settings);
      rows := rows[id := channel];
      r := Applied(channel, adds, removes, remaining, remainingRemoves, changed);
    }

    /** `checkAndPersistChannelUpstreamModelUpdates` on a stored channel. */
    method CheckUpdates(id: int, fetched: Fetched, mapping: map<string, string>, matches: Matcher,
                        force: bool, allowAutoApply: bool, now: int, minInterval: int)
      returns (r: Checked)
      requires id in rows
      modifies this
      ensures r == Check(old(rows[id]), fetched, mapping, matches, force, allowAutoApply, now, minInterval)
      ensures rows == old(rows)[id := r.channel]
    {
      var channel := rows[id];
      var settings := channel.settings;
      if !force && settings.lastCheck > 0 && now - settings.lastCheck < minInterval {
        return Checked(channel, false, 0, false);
      }
      if fetched.FetchError? {
        channel := channel.(settings := settings.(lastCheck := now));
        rows := rows[id := channel];
        return Checked(channel, false, 0, true);
      }
      var pending := Detect(GetModels(channel), fetched.names, settings.ignored, mapping, matches);
      r := RecordUpdates(id, pending, allowAutoApply && settings.autoSync, now);
    }

    /** The storing half of the check. */
    method RecordUpdates(id: int, pending: (seq<string>, seq<string>), sync: bool, now: int) returns (r: Checked)
      requires id in rows
      modifies this
      ensures r == Record(old(rows[id]), pending, sync, now)
      ensures rows == old(rows)[id := r.channel]
    {
      r := RecordChannel(rows[id], pending, sync, now);
      rows := rows[id := r.channel];
    }

    /** `ApplyAllChannelUpstreamModelUpdates`. */
    method ApplyAll(batchSize: nat, now: int) returns (results: seq<Row<Applied>>)
      requires batchSize >= 1
      requires forall id :: id in rows && rows[id].enabled ==> id > 0
      modifies this
      ensures var ids := SortedIds(EnabledIds(old(rows), IsEnabled));
        && rows == VisitedRows(old(rows), ids, ApplyVisit(now))
        && (forall id :: id in ids ==> id in old(rows))
        && results == Reports(old(rows), ids, ApplyVisit(now))
    {
      var visited;
      rows, visited, results := ForEachEnabled(rows, IsEnabled, batchSize, ApplyVisit(now));
    }

    /** `DetectAllChannelUpstreamModelUpdates` (forced, no automatic sync) and one round of the
        background task (not forced, automatic sync allowed). */
    method DetectAll(batchSize: nat, fetch: int -> Fetched, matches: Matcher, force: bool, allowAutoApply: bool, now: int, minInterval: int)
      returns (results: seq<Row<Checked>>, failed: seq<int>)
      requires batchSize >= 1
      requires forall id :: id in rows && rows[id].enabled ==> id > 0
      modifies this
      ensures var ids := SortedIds(EnabledIds(old(rows), IsEnabled));
        var visit := CheckVisit(fetch, matches, force, allowAutoApply, now, minInterval);
        && rows == VisitedRows(old(rows), ids, visit)
        && (forall id :: id in ids ==> id in old(rows))
        && var reports := Reports(old(rows), ids, visit);
        && results == Filter(reports, Succeeded()) && failed == FailedIds(reports)
    {
      var visit := CheckVisit(fetch, matches, force, allowAutoApply, now, minInterval);
      forall id | id in rows && visit(id, rows[id]).Done?
        ensures IsEnabled(visit(id, rows[id]).content) == IsEnabled(rows[id])
      {
        CheckKeepsEnabled(rows[id], fetch(id), matches, force, allowAutoApply, now, minInterval);
      }
      var visited, reports;
      rows, visited, reports := ForEachEnabled(rows, IsEnabled, batchSize, visit);
      results, failed := SortOut(reports);
    }
  }

  /** A bulk check changes and reports the enabled channels that ask to be checked, each as a check of the
      single one without the redirect mapping does, and no others; those that could not be fetched are
      listed apart. */
  lemma BulkCheckReaches(rows: map<int, Channel>, fetch: int -> Fetched, matches: Matcher,
                         force: bool, allowAutoApply: bool, now: int, minInterval: int, id: int, report: Checked)
    requires id in rows
    ensures var ids := SortedIds(EnabledIds(rows, IsEnabled));
      var visit := CheckVisit(fetch, matches, force, allowAutoApply, now, minInterval);
      var single := Check(rows[id], fetch(id), map[], matches, force, allowAutoApply, now, minInterval);
      var reached := rows[id].enabled && rows[id].settings.checkEnabled;
      && VisitedRows(rows, ids, visit)[id] == (if reached then single.channel else rows[id])
      && (forall i :: i in ids ==> i in rows)
      && (Row(id, report) in Reports(rows, ids, visit) <==> reached && report == single)
      && (Row(id, report) in Filter(Reports(rows, ids, visit), Succeeded()) <==> reached && report == single && !single.failed)
      && (id in FailedIds(Reports(rows, ids, visit)) <==> reached && single.failed)
  {
    var ids := SortedIds(EnabledIds(rows, IsEnabled));
    var visit := CheckVisit(fetch, matches, force, allowAutoApply, now, minInterval);
    var single := Check(rows[id], fetch(id), map[], matches, force, allowAutoApply, now, minInterval);
    ReportsMeans(rows, ids, visit, Row(id, report));
    ReportsMeans(rows, ids, visit, Row(id, single));
    if id in FailedIds(Reports(rows, ids, visit)) {
      var row :| row in Reports(rows, ids, visit) && row.content.failed && row.id == id;
      ReportsMeans(rows, ids, visit, row);
    }
  }

  /** The bulk apply changes and reports the enabled channels that ask to be checked and have something
      pending, each as the application of all of it does, and no others. */
  lemma BulkApplyReaches(rows: map<int, Channel>, now: int, id: int, report: Applied)
    requires id in rows
    ensures var ids := SortedIds(EnabledIds(rows, IsEnabled));
      var pending := rows[id].settings;
      var single := Apply(rows[id], Normalize(pending.detected), [], Normalize(pending.removed), now);
      var reached := rows[id].enabled && pending.checkEnabled
        && exists x :: x in Normalize(pending.detected) || x in Normalize(pending.removed);
      && VisitedRows(rows, ids, ApplyVisit(now))[id] == (if reached then single.channel else rows[id])
      && (forall i :: i in ids ==> i in rows)
      && (Row(id, report) in Reports(rows, ids, ApplyVisit(now)) <==> reached && report == single)
  {
    var ids, pending := SortedIds(EnabledIds(rows, IsEnabled)), rows[id].settings;
    ReportsMeans(rows, ids, ApplyVisit(now), Row(id, report));
    SomePending(Normalize(pending.detected));
    SomePending(Normalize(pending.removed));
  }

  lemma SomePending(names: seq<string>)
    ensures names != [] <==> exists x :: x in names
  {
    if names != [] {
      assert names[0] in names;
    }
  }

  lemma CheckKeepsEnabled(ch: Channel, fetched: Fetched, matches: Matcher, force: bool, allowAutoApply: bool, now: int, minInterval: int)
    ensures Check(ch, fetched, map[], matches, force, allowAutoApply, now, minInterval).channel.enabled == ch.enabled
  {
  }

  lemma CommonElements<T(!new)>(xs: seq<T>, ys: seq<T>)
    ensures Filter(ys, In(xs)) == [] <==> forall x :: x in xs ==> x !in ys
  {
    var both := Filter(ys, In(xs));
    if both == [] {
      assert forall x :: x in xs && x in ys ==> x in both;
    } else {
      assert both[0] in both;
    }
  }

  lemma ApplyKeepsChecking(ch: Channel, adds: seq<string>, removes: seq<string>, now: int)
    ensures Apply(ch, adds, [], removes, now).channel.settings.checkEnabled == ch.settings.checkEnabled
  {
  }

  /** A second bulk apply skips a channel the first one changed exactly when no name was both
      pending to add and pending to remove; such a name was added and stays pending. */
  lemma ApplyAllLeavesNothing(ch: Channel, id: int, now: int, later: int)
    requires ApplyVisit(now)(id, ch).Done?
    ensures ApplyVisit(later)(id, ApplyVisit(now)(id, ch).content).Skip? <==>
      forall x :: x in Normalize(ch.settings.detected) ==> x !in Normalize(ch.settings.removed)
  {
    var adds, removes := Normalize(ch.settings.detected), Normalize(ch.settings.removed);
    StillPending(ch, adds, removes, now);
    ApplyKeepsChecking(ch, adds, removes, now);
    SkippedExactly(Apply(ch, adds, [], removes, now).channel, id, later);
    CommonElements(adds, removes);
  }

  lemma SkippedExactly(ch: Channel, id: int, now: int)
    ensures ApplyVisit(now)(id, ch).Skip? <==>
      !ch.settings.checkEnabled || (Normalize(ch.settings.detected) == [] && Normalize(ch.settings.removed) == [])
  {
  }

  lemma StillPending(ch: Channel, adds: seq<string>, removes: seq<string>, now: int)
    requires adds == Normalize(ch.settings.detected) && removes == Normalize(ch.settings.removed)
    ensures var s := Apply(ch, adds, [], removes, now).channel.settings;
      Normalize(s.detected) == [] && Normalize(s.removed) == Filter(removes, In(adds))
  {
    var r := Apply(ch, adds, [], removes, now);
    NormalizeNormal(ch.settings.detected);
    NormalizeNormal(ch.settings.removed);
    NormalizeNormal(adds);
    NormalizeNormal(removes);
    ApplyAdds(ch, adds, [], removes, now);
    ApplyRemoves(ch, adds, [], removes, now);
    FilterNone(adds, x => x !in adds && x !in Normalize([]));
    FilterExt(removes, NotIn(r.dropped), In(adds));
    NormalizeNormal(r.remaining);
    NormalizeNormal(r.remainingRemoves);
  }

  // ----- The code's own writers never leave work for a second apply

  /** No name is pending to be both added and removed. */
  predicate PendingDisjoint(ch: Channel) {
    forall x :: x in Normalize(ch.settings.detected) ==> x !in Normalize(ch.settings.removed)
  }

  /** What writes a channel's row: a check, an application of selected changes, or an edit of its models
      and its ignore list. */
  datatype Write =
    | Checks(fetched: Fetched, mapping: map<string, string>, matches: Matcher, force: bool, allowAutoApply: bool, now: int, minInterval: int)
    | Applies(adds: seq<string>, ignores: seq<string>, removes: seq<string>, now: int)
    | Edits(models: string, ignored: seq<string>)

  function Written(ch: Channel, w: Write): Channel {
    match w
    case Checks(fetched, mapping, matches, force, allowAutoApply, now, minInterval) =>
      Check(ch, fetched, mapping, matches, force, allowAutoApply, now, minInterval).channel
    case Applies(adds, ignores, removes, now) => Apply(ch, adds, ignores, removes, now).channel
    case Edits(models, ignored) => ch.(models := models, settings := ch.settings.(ignored := ignored))
  }

  function WrittenAll(ch: Channel, writes: seq<Write>): Channel {
    if writes == [] then ch else Written(WrittenAll(ch, writes[..|writes| - 1]), writes[|writes| - 1])
  }

  /** Each write works on the row that the earlier ones left. */
  lemma WrittenLast(ch: Channel, writes: seq<Write>, w: Write)
    ensures var before, after := WrittenAll(ch, writes), WrittenAll(ch, writes + [w]);
      && (w.Checks? ==>
            after == Check(before, w.fetched, w.mapping, w.matches, w.force, w.allowAutoApply, w.now, w.minInterval).channel)
      && (w.Applies? ==> after == Apply(before, w.adds, w.ignores, w.removes, w.now).channel)
      && (w.Edits? ==>
            && after.models == w.models && after.settings.ignored == w.ignored
            && after.settings.detected == before.settings.detected && after.settings.removed == before.settings.removed)
  {
    assert (writes + [w])[..|writes|] == writes;
  }

  lemma DetectedDisjoint(local: seq<string>, upstream: seq<string>, ignored: seq<string>, mapping: map<string, string>, matches: Matcher)
    ensures var (adds, removes) := Detect(local, upstream, ignored, mapping, matches);
      forall x :: x in Normalize(adds) ==> x !in Normalize(removes)
  {
    var (adds, removes) := Detect(local, upstream, ignored, mapping, matches);
    DetectNormal(local, upstream, ignored, mapping, matches);
    NormalizeNormal(adds);
    NormalizeNormal(removes);
  }

  lemma CheckKeepsDisjoint(ch: Channel, fetched: Fetched, mapping: map<string, string>, matches: Matcher,
                           force: bool, allowAutoApply: bool, now: int, minInterval: int)
    requires PendingDisjoint(ch)
    ensures PendingDisjoint(Check(ch, fetched, mapping, matches, force, allowAutoApply, now, minInterval).channel)
  {
    if fetched.Models? {
      DetectedDisjoint(GetModels(ch), fetched.names, ch.settings.ignored, mapping, matches);
    }
    assert Normalize([]) == [];
  }

  lemma ApplyKeepsDisjoint(ch: Channel, adds: seq<string>, ignores: seq<string>, removes: seq<string>, now: int)
    requires PendingDisjoint(ch)
    ensures PendingDisjoint(Apply(ch, adds, ignores, removes, now).channel)
  {
    var r := Apply(ch, adds, ignores, removes, now);
    ApplyAdds(ch, adds, ignores, removes, now);
    ApplyRemoves(ch, adds, ignores, removes, now);
    NormalizeNormal(r.remaining);
    NormalizeNormal(r.remainingRemoves);
  }

  lemma WriteKeepsDisjoint(ch: Channel, w: Write)
    requires PendingDisjoint(ch)
    ensures PendingDisjoint(Written(ch, w))
  {
    match w
    case Checks(fetched, mapping, matches, force, allowAutoApply, now, minInterval) =>
      CheckKeepsDisjoint(ch, fetched, mapping, matches, force, allowAutoApply, now, minInterval);
    case Applies(adds, ignores, removes, now) => ApplyKeepsDisjoint(ch, adds, ignores, removes, now);
    case Edits(_, _) =>
  }

  /** Over every sequence of checks, applications and edits the pending lists stay disjoint. */
  lemma {:induction false} PendingStaysDisjoint(ch: Channel, writes: seq<Write>)
    requires PendingDisjoint(ch)
    ensures PendingDisjoint(WrittenAll(ch, writes))
  {
    if writes != [] {
      PendingStaysDisjoint(ch, writes[..|writes| - 1]);
      WriteKeepsDisjoint(WrittenAll(ch, writes[..|writes| - 1]), writes[|writes| - 1]);
    }
  }

  /** So a second bulk apply finds nothing to do on a channel that started with nothing pending. */
  lemma SecondApplyFindsNothing(ch: Channel, writes: seq<Write>, id: int, now: int, later: int)
    requires ch.settings.detected == [] && ch.settings.removed == []
    requires ApplyVisit(now)(id, WrittenAll(ch, writes)).Done?
    ensures ApplyVisit(later)(id, ApplyVisit(now)(id, WrittenAll(ch, writes)).content).Skip?
  {
    assert Normalize([]) == [];
    PendingStaysDisjoint(ch, writes);
    ApplyAllLeavesNothing(WrittenAll(ch, writes), id, now, later);
  }

  /** Only a settings column written by other means can leave work: one with a name in both lists. */
  lemma OverlapLeavesWork(id: int, now: int, later: int)
    ensures var ch := Channel(true, "", Settings(true, false, [], ["x"], ["x"], 0));
      ApplyVisit(now)(id, ch).Done? && ApplyVisit(later)(id, ApplyVisit(now)(id, ch).content).Done?
  {
    var ch := Channel(true, "", Settings(true, false, [], ["x"], ["x"], 0));
    assert ["x"][..0] == [];
    NormalizeNormal(["x"]);
    ApplyAllLeavesNothing(ch, id, now, later);
  }
}
