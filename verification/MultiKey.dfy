/** A channel with many keys: the newline-joined key column, the per-index status, time and
    reason maps, and the management actions that edit and renumber them. */
module MultiKey {
  import opened Text
  import opened Options
  import opened Lists
  import opened Names

  const ENABLED := 1
  const MANUALLY_DISABLED := 2
  const AUTO_DISABLED := 3

  /** The stored columns. */
  datatype Info = Info(
    key: string,
    size: int,
    status: map<int, int>,
    time: map<int, int>,
    reason: map<int, string>)

  function Keys(info: Info): seq<string> {
    Parse(info.key, '\n')
  }

  function StatusOf(info: Info, i: int): int {
    if i in info.status then info.status[i] else ENABLED
  }

  /** One key with everything recorded about it. */
  datatype Entry = Entry(key: string, status: Option<int>, time: Option<int>, reason: Option<string>)

  function At<V>(m: map<int, V>, i: int): Option<V> {
    if i in m then Some(m[i]) else None
  }

  function EntryAt(info: Info, i: int): Entry
    requires 0 <= i < |Keys(info)|
  {
    Entry(Keys(info)[i], At(info.status, i), At(info.time, i), At(info.reason, i))
  }

  function View(info: Info): (r: seq<Entry>)
    ensures |r| == |Keys(info)|
    ensures forall i :: 0 <= i < |r| ==> r[i] == EntryAt(info, i)
  {
    seq(|Keys(info)|, i requires 0 <= i < |Keys(info)| => EntryAt(info, i))
  }

  /** The invariant of the maps: the size counts the keys, statuses are disabled ones of existing
      keys, and times and reasons belong to disabled keys. */
  predicate Tidy(info: Info) {
    && info.size == |Keys(info)|
    && (forall i :: i in info.status ==> 0 <= i < info.size && info.status[i] in {MANUALLY_DISABLED, AUTO_DISABLED})
    && info.time.Keys <= info.status.Keys
    && info.reason.Keys <= info.status.Keys
  }

  lemma SameMap<V>(a: map<int, V>, b: map<int, V>)
    requires forall i :: At(a, i) == At(b, i)
    ensures a == b
  {
    forall i ensures i in a <==> i in b {
      assert At(a, i) == At(b, i);
    }
    forall i | i in a ensures a[i] == b[i] {
      assert At(a, i) == At(b, i);
    }
  }

  /** `Channel.Update`: an empty key column keeps the stored one, the size is recounted, and
      statuses past it are dropped. Times and reasons are not cleaned. */
  function Update(info: Info, newKey: string): Info {
    var key := if newKey != "" then newKey else info.key;
    var n := |Parse(key, '\n')|;
    Info(key, n, Below(info.status, n), info.time, info.reason)
  }

  function Below(status: map<int, int>, n: int): map<int, int> {
    map i | i in status && i < n :: status[i]
  }

  lemma BelowAll(status: map<int, int>, n: int)
    requires forall i :: i in status ==> i < n
    ensures Below(status, n) == status
  {
  }

  // ----- Renumbering after a delete

  /** The surviving indices, in order. */
  function Kept(n: nat, keep: int -> bool): (r: seq<int>)
    ensures Within(r, n)
  {
    if n == 0 then [] else if keep(n - 1) then Kept(n - 1, keep) + [n - 1] else Kept(n - 1, keep)
  }

  predicate Within(kept: seq<int>, n: nat) {
    forall j :: 0 <= j < |kept| ==> 0 <= kept[j] < n
  }

  function Pick<T>(xs: seq<T>, kept: seq<int>): (r: seq<T>)
    requires Within(kept, |xs|)
    ensures |r| == |kept|
    ensures forall j :: 0 <= j < |kept| ==> r[j] == xs[kept[j]]
  {
    seq(|kept|, j requires 0 <= j < |kept| => xs[kept[j]])
  }

  lemma PickStep<T>(xs: seq<T>, kept: seq<int>, i: int)
    requires Within(kept, |xs|) && 0 <= i < |xs|
    ensures Within(kept + [i], |xs|) && Pick(xs, kept + [i]) == Pick(xs, kept) + [xs[i]]
  {
  }

  /** Index `j` takes over what index `kept[j]` had. */
  function Renumber<V>(m: map<int, V>, kept: seq<int>): (r: map<int, V>)
  {
    map j | 0 <= j < |kept| && kept[j] in m :: m[kept[j]]
  }

  lemma RenumberTakes<V>(m: map<int, V>, kept: seq<int>, i: int)
    requires i in m
    ensures Renumber(m, kept + [i]) == Renumber(m, kept)[|kept| := m[i]]
  {
  }

  lemma RenumberPasses<V>(m: map<int, V>, kept: seq<int>, i: int)
    requires i !in m
    ensures Renumber(m, kept + [i]) == Renumber(m, kept)
  {
  }

  /** The recorded statuses other than "enabled". */
  function Disabled(status: map<int, int>): map<int, int> {
    map i | i in status && status[i] != ENABLED :: status[i]
  }

  function OfDisabled<V>(m: map<int, V>, status: map<int, int>): map<int, V> {
    map i | i in m && i in Disabled(status) :: m[i]
  }

  function Without(k: int): int -> bool {
    i => i != k
  }

  function NotAuto(status: map<int, int>): int -> bool {
    i => !(i in status && status[i] == AUTO_DISABLED)
  }

  // ----- The actions

  datatype Outcome = Outcome(ok: bool, info: Info)

  function DisableKey(info: Info, index: Option<int>): Outcome {
    if index.None? || index.value < 0 || index.value >= info.size then Outcome(false, info)
    else Outcome(true, Update(info.(status := info.status[index.value := MANUALLY_DISABLED]), info.key))
  }

  function EnableKey(info: Info, index: Option<int>): Outcome {
    if index.None? || index.value < 0 || index.value >= info.size then Outcome(false, info)
    else
      var i := {index.value};
      Outcome(true, Update(info.(status := info.status - i, time := info.time - i, reason := info.reason - i), info.key))
  }

  function EnableAll(info: Info): Outcome {
    Outcome(true, Update(info.(status := map[], time := map[], reason := map[]), info.key))
  }

  function DisableAll(info: Info): Outcome {
    var status := info.status + map i | 0 <= i < info.size && StatusOf(info, i) == ENABLED :: MANUALLY_DISABLED;
    if forall i :: 0 <= i < info.size ==> StatusOf(info, i) != ENABLED then Outcome(false, info)
    else Outcome(true, Update(info.(status := status), info.key))
  }

  function DeleteKey(info: Info, index: Option<int>): Outcome {
    if index.None? || index.value < 0 || index.value >= info.size then Outcome(false, info)
    else
      var keys := Keys(info);
      var kept := Kept(|keys|, Without(index.value));
      if kept == [] then Outcome(false, info)
      else Outcome(true, Update(
        info.(status := Renumber(Disabled(info.status), kept),
              time := Renumber(info.time, kept),
              reason := Renumber(info.reason, kept)),
        Join(Pick(keys, kept), '\n')))
  }

  function DeleteDisabledKeys(info: Info): Outcome {
    var keys := Keys(info);
    var kept := Kept(|keys|, NotAuto(info.status));
    if |kept| == |keys| then Outcome(false, info)
    else Outcome(true, Update(
      info.(status := Renumber(Disabled(info.status), kept),
            time := Renumber(OfDisabled(info.time, info.status), kept),
            reason := Renumber(OfDisabled(info.reason, info.status), kept)),
      Join(Pick(keys, kept), '\n')))
  }

  // ----- Every action keeps the invariant

  lemma ParseFree(text: string, kept: seq<int>)
    requires Within(kept, |Parse(text, '\n')|)
    ensures Free(Pick(Parse(text, '\n'), kept), '\n')
  {
    var keys := Parse(text, '\n');
    var some := Pick(keys, kept);
    forall x | x in some ensures '\n' !in x {
      var j :| 0 <= j < |some| && some[j] == x;
      assert keys[kept[j]] in keys;
    }
  }

  lemma EditsKeepTidy(info: Info, index: Option<int>)
    requires Tidy(info)
    ensures Tidy(DisableKey(info, index).info)
    ensures Tidy(EnableKey(info, index).info)
    ensures Tidy(EnableAll(info).info)
    ensures Tidy(DisableAll(info).info)
  {
    DisablesKeepTidy(info, index);
  }

  lemma DisablesKeepTidy(info: Info, index: Option<int>)
    requires Tidy(info)
    ensures Tidy(DisableKey(info, index).info)
    ensures Tidy(DisableAll(info).info)
  {
  }

  /** What every edit of one status does to the entries. */
  lemma EditsShow(info: Info, k: int)
    requires Tidy(info) && 0 <= k < info.size
    ensures View(DisableKey(info, Some(k)).info) == View(info)[k := EntryAt(info, k).(status := Some(2))]
    ensures View(EnableKey(info, Some(k)).info) == View(info)[k := Entry(Keys(info)[k], None, None, None)]
  {
  }

  /** `enable_all_keys` leaves every key without a status, a time or a reason, whatever was recorded. */
  lemma EnableAllShows(info: Info)
    ensures var r := EnableAll(info);
      && r.ok && Keys(r.info) == Keys(info)
      && r.info.status == map[] && r.info.time == map[] && r.info.reason == map[]
      && forall i :: 0 <= i < |Keys(info)| ==> EntryAt(r.info, i) == Entry(Keys(info)[i], None, None, None)
  {
  }

  predicate EnabledAt(info: Info, i: int) {
    i !in info.status || info.status[i] == 1
  }

  /** `disable_all_keys` works if and only if some key is enabled; it then gives exactly the enabled keys
      the status 2 and changes nothing else. */
  lemma DisableAllShows(info: Info)
    requires info.size == |Keys(info)|
    ensures var r := DisableAll(info);
      && (r.ok <==> exists i :: 0 <= i < info.size && EnabledAt(info, i))
      && (!r.ok ==> r.info == info)
      && r.info.key == info.key
      && (r.ok ==> forall i :: 0 <= i < |Keys(info)| ==>
            EntryAt(r.info, i) == if EnabledAt(info, i) then EntryAt(info, i).(status := Some(2)) else EntryAt(info, i))
  {
    assert forall i :: StatusOf(info, i) == ENABLED <==> EnabledAt(info, i);
  }

  /** An action on one key needs an index within the keys, and a delete another key beside it; a refused
      action changes nothing. */
  lemma RefusedExactly(info: Info, index: Option<int>)
    requires info.size == |Keys(info)|
    ensures var named := index.Some? && 0 <= index.value < |Keys(info)|;
      && (DisableKey(info, index).ok <==> named)
      && (EnableKey(info, index).ok <==> named)
      && (DeleteKey(info, index).ok <==> named && |Keys(info)| >= 2)
    ensures forall r :: r in [DisableKey(info, index), EnableKey(info, index), DeleteKey(info, index), DeleteDisabledKeys(info)] ==>
      r.ok || r.info == info
  {
    if index.Some? && index.value >= 0 {
      KeptWithout(|Keys(info)|, index.value);
    }
  }

  /** The columns written for the surviving indices. */
  function Compacted(info: Info, kept: seq<int>): Info
    requires Within(kept, |Keys(info)|)
  {
    Update(
      info.(status := Renumber(info.status, kept), time := Renumber(info.time, kept), reason := Renumber(info.reason, kept)),
      Join(Pick(Keys(info), kept), '\n'))
  }

  lemma CompactedColumns(info: Info, kept: seq<int>)
    requires Within(kept, |Keys(info)|) && kept != []
    requires SolidEnds(Pick(Keys(info), kept))
    ensures var some := Pick(Keys(info), kept);
      Compacted(info, kept) == Info(Join(some, '\n'), |kept|,
        Renumber(info.status, kept), Renumber(info.time, kept), Renumber(info.reason, kept))
    ensures Keys(Compacted(info, kept)) == Pick(Keys(info), kept)
  {
    var some := Pick(Keys(info), kept);
    ParseFree(info.key, kept);
    ParseJoin(some, '\n');
    assert some != [];
    BelowAll(Renumber(info.status, kept), |kept|);
  }

  lemma CompactedTidy(info: Info, kept: seq<int>)
    requires Tidy(info) && Within(kept, |Keys(info)|) && kept != []
    requires SolidEnds(Pick(Keys(info), kept))
    ensures Tidy(Compacted(info, kept))
  {
    CompactedColumns(info, kept);
  }

  lemma CompactedEntry(info: Info, next: Info, kept: seq<int>, j: nat)
    requires Within(kept, |Keys(info)|) && j < |kept|
    requires Keys(next) == Pick(Keys(info), kept)
    requires next.status == Renumber(info.status, kept)
    requires next.time == Renumber(info.time, kept) && next.reason == Renumber(info.reason, kept)
    ensures EntryAt(next, j) == EntryAt(info, kept[j])
  {
  }

  /** After a delete with solid ends, each surviving key keeps its own status, time and reason
      under its new index. */
  lemma CompactedShows(info: Info, kept: seq<int>)
    requires Tidy(info) && Within(kept, |Keys(info)|) && kept != []
    requires SolidEnds(Pick(Keys(info), kept))
    ensures View(Compacted(info, kept)) == Pick(View(info), kept)
  {
    var next := Compacted(info, kept);
    CompactedColumns(info, kept);
    assert |View(next)| == |kept|;
    forall j | 0 <= j < |kept| ensures View(next)[j] == View(info)[kept[j]] {
      CompactedEntry(info, next, kept, j);
      assert View(info)[kept[j]] == EntryAt(info, kept[j]);
      assert View(next)[j] == EntryAt(next, j);
    }
  }

  lemma DisabledOfTidy(info: Info)
    requires Tidy(info)
    ensures Disabled(info.status) == info.status
    ensures OfDisabled(info.time, info.status) == info.time
    ensures OfDisabled(info.reason, info.status) == info.reason
  {
    assert forall i :: i in info.status ==> i in Disabled(info.status);
  }

  /** A written list reads back unchanged exactly when it is empty or its ends are not blank. */
  lemma RereadSolid(xs: seq<string>)
    ensures Reread(xs) == xs <==> SolidEnds(xs)
  {
  }

  /** Of the keys read from a column, one end is left by every delete of another key. */
  lemma OneEndStays(info: Info, k: nat)
    requires |Keys(info)| >= 2 && k < |Keys(info)|
    ensures Strip(Cut(Keys(info), k)) != []
  {
    var keys, some := Keys(info), Cut(Keys(info), k);
    ParseEnds(info.key, '\n');
    if k == 0 {
      assert some[|some| - 1] == keys[|keys| - 1] && some[|some| - 1] in some;
    } else {
      assert some[0] == keys[0] && some[0] in some;
    }
  }

  /** What `delete_key` writes, and what is read back: the other keys without the blank ones at
      either end. They read back unchanged exactly when the first and the last survivor are not
      blank; otherwise every later key moves under another index. */
  lemma DeleteReadsBack(info: Info, k: int)
    requires DeleteKey(info, Some(k)).ok && info.size == |Keys(info)|
    ensures var some, r := Cut(Keys(info), k), DeleteKey(info, Some(k)).info;
      && r.key == Join(some, '\n') && Keys(r) == Strip(some)
      && (Keys(r) == some <==> SolidEnds(some))
  {
    var kept, some := Kept(|Keys(info)|, Without(k)), Cut(Keys(info), k);
    KeptWithout(|Keys(info)|, k);
    PickWithout(Keys(info), kept, k);
    ParseFree(info.key, kept);
    ParseJoinReads(some, '\n');
    OneEndStays(info, k);
    RereadSolid(some);
  }

  /** `delete_key` cuts out one entry; the last key cannot be deleted. Each other key keeps its
      own status, time and reason exactly when the first and the last of them are not blank. */
  lemma DeleteKeyShows(info: Info, k: int)
    requires Tidy(info) && 0 <= k < info.size
    ensures DeleteKey(info, Some(k)).ok <==> info.size > 1
    ensures var some := Cut(Keys(info), k);
      var r := DeleteKey(info, Some(k));
      r.ok ==>
        && (View(r.info) == Cut(View(info), k) <==> SolidEnds(some))
        && (SolidEnds(some) ==> Tidy(r.info) && Keys(r.info) == some)
        && r.info.key == Join(some, '\n')
  {
    var n := |Keys(info)|;
    var kept := Kept(n, Without(k));
    KeptWithout(n, k);
    PickWithout(Keys(info), kept, k);
    PickWithout(View(info), kept, k);
    DisabledOfTidy(info);
    var r := DeleteKey(info, Some(k));
    if r.ok {
      DeleteReadsBack(info, k);
      if SolidEnds(Pick(Keys(info), kept)) {
        CompactedColumns(info, kept);
        CompactedTidy(info, kept);
        CompactedShows(info, kept);
      } else if View(r.info) == Cut(View(info), k) {
        CutKeys(info, r.info, k);
      }
    }
  }

  lemma CutKeys(info: Info, next: Info, k: nat)
    requires k < |Keys(info)| && View(next) == Cut(View(info), k)
    ensures Keys(next) == Cut(Keys(info), k)
  {
    assert |Keys(next)| == |View(next)| == |Cut(Keys(info), k)|;
    forall j | 0 <= j < |Keys(next)| ensures Keys(next)[j] == Cut(Keys(info), k)[j] {
      var i := if j < k then j else j + 1;
      assert View(next)[j] == EntryAt(next, j) && View(info)[i] == EntryAt(info, i);
    }
  }

  /** All indices but `k`, in order. */
  lemma {:induction false} KeptWithout(n: nat, k: nat)
    ensures var kept := Kept(n, Without(k));
      |kept| == (if k < n then n - 1 else n) && forall j :: 0 <= j < |kept| ==> kept[j] == if j < k then j else j + 1
  {
    if n > 0 {
      KeptWithout(n - 1, k);
    }
  }

  lemma PickWithout<T>(xs: seq<T>, kept: seq<int>, k: nat)
    requires k < |xs| && |kept| == |xs| - 1
    requires forall j :: 0 <= j < |kept| ==> kept[j] == if j < k then j else j + 1
    ensures Within(kept, |xs|) && Pick(xs, kept) == xs[..k] + xs[k + 1..]
  {
    var some := Pick(xs, kept);
    assert some[..k] == xs[..k];
    assert some[k..] == xs[k + 1..];
  }

  function NotAutoEntry(): Entry -> bool {
    (e: Entry) => e.status != Some(AUTO_DISABLED)
  }

  lemma EntryNotAuto(info: Info, i: nat)
    requires i < |Keys(info)|
    ensures i < |View(info)| && NotAutoEntry()(View(info)[i]) == NotAuto(info.status)(i)
  {
    assert View(info)[i] == EntryAt(info, i);
  }

  /** The survivors of a bulk delete are the entries that are not auto-disabled. */
  lemma PickNotAuto(info: Info, n: nat)
    requires n <= |Keys(info)|
    ensures Pick(View(info), Kept(n, NotAuto(info.status))) == Filter(View(info)[..n], NotAutoEntry())
  {
    PickFilter(View(info), NotAuto(info.status), NotAutoEntry(), n) by {
      forall i | 0 <= i < |View(info)| ensures NotAuto(info.status)(i) == NotAutoEntry()(View(info)[i]) {
        EntryNotAuto(info, i);
      }
    }
  }

  lemma {:induction false} PickFilter<T(!new)>(xs: seq<T>, index: int -> bool, keep: T -> bool, n: nat)
    requires n <= |xs| && forall i :: 0 <= i < |xs| ==> index(i) == keep(xs[i])
    ensures Pick(xs, Kept(n, index)) == Filter(xs[..n], keep)
  {
    if n > 0 {
      PickFilter(xs, index, keep, n - 1);
      FilterStep(xs, n - 1, keep);
      if keep(xs[n - 1]) {
        PickStep(xs, Kept(n - 1, index), n - 1);
      }
    }
  }

  lemma KeysOfAlive(info: Info, kept: seq<int>)
    requires Within(kept, |Keys(info)|)
    ensures |Pick(View(info), kept)| == |kept|
    ensures forall j :: 0 <= j < |kept| ==> Pick(View(info), kept)[j].key == Pick(Keys(info), kept)[j]
  {
    forall j | 0 <= j < |kept| ensures Pick(View(info), kept)[j].key == Pick(Keys(info), kept)[j] {
      assert View(info)[kept[j]] == EntryAt(info, kept[j]);
    }
  }

  lemma {:induction false} KeptAll(n: nat, keep: int -> bool)
    ensures |Kept(n, keep)| <= n
    ensures |Kept(n, keep)| == n <==> forall i :: 0 <= i < n ==> keep(i)
  {
    if n > 0 {
      KeptAll(n - 1, keep);
    }
  }

  function Alive(info: Info): seq<Entry> {
    Filter(View(info), NotAutoEntry())
  }

  /** There is something to delete exactly when some key is auto-disabled. */
  lemma DeleteDisabledApplies(info: Info)
    requires Tidy(info)
    ensures DeleteDisabledKeys(info).ok <==> exists i :: i in info.status && info.status[i] == 3
  {
    KeptAll(|Keys(info)|, NotAuto(info.status));
    assert forall i :: 0 <= i < info.size ==> NotAuto(info.status)(i) == !(i in info.status && info.status[i] == AUTO_DISABLED);
  }

  function Survivors(info: Info): (kept: seq<int>)
    ensures Within(kept, |Keys(info)|)
  {
    Kept(|Keys(info)|, NotAuto(info.status))
  }

  lemma BulkIsCompacted(info: Info)
    requires Tidy(info) && DeleteDisabledKeys(info).ok
    ensures DeleteDisabledKeys(info).info == Compacted(info, Survivors(info))
  {
    DisabledOfTidy(info);
  }

  lemma AliveIsPicked(info: Info)
    ensures Alive(info) == Pick(View(info), Survivors(info))
  {
    PickNotAuto(info, |Keys(info)|);
    assert View(info)[..|Keys(info)|] == View(info);
  }

  function AliveKeys(info: Info): seq<string> {
    Pick(Keys(info), Survivors(info))
  }

  /** Nothing, or one blank key, is written as the empty text, which means "not provided". */
  predicate WrittenEmpty(keys: seq<string>) {
    keys == [] || keys == [""]
  }

  /** What `delete_disabled_keys` writes and what is read back. The survivors are read back
      unchanged exactly when there are some and neither end is blank; nothing is deleted exactly
      when there is none or a lone blank one. */
  lemma DeleteDisabledReads(info: Info)
    requires DeleteDisabledKeys(info).ok
    ensures var alive, r := AliveKeys(info), DeleteDisabledKeys(info).info;
      && r.key == (if WrittenEmpty(alive) then info.key else Join(alive, '\n'))
      && Keys(r) == (if WrittenEmpty(alive) then Keys(info) else Reread(alive))
      && (Keys(r) == alive <==> alive != [] && SolidEnds(alive))
      && (r.key == info.key <==> WrittenEmpty(alive))
      && (Keys(r) == Keys(info) <==> WrittenEmpty(alive))
  {
    var alive := AliveKeys(info);
    KeptAll(|Keys(info)|, NotAuto(info.status));
    ParseFree(info.key, Survivors(info));
    ParseJoinReads(alive, '\n');
    RereadSolid(alive);
  }

  /** `delete_disabled_keys` leaves exactly the entries that are not auto-disabled, in order, if and
      only if there are some and the first and the last of them are not blank. */
  lemma DeleteDisabledShows(info: Info)
    requires Tidy(info) && DeleteDisabledKeys(info).ok
    ensures var alive, r := AliveKeys(info), DeleteDisabledKeys(info).info;
      && (View(r) == Alive(info) <==> alive != [] && SolidEnds(alive))
      && (alive != [] && SolidEnds(alive) ==> Tidy(r) && r.key == Join(Keys(r), '\n'))
  {
    var kept, r := Survivors(info), DeleteDisabledKeys(info).info;
    DeleteDisabledReads(info);
    AliveIsPicked(info);
    KeysOfAlive(info, kept);
    BulkIsCompacted(info);
    if kept != [] && SolidEnds(AliveKeys(info)) {
      CompactedColumns(info, kept);
      CompactedTidy(info, kept);
      CompactedShows(info, kept);
    } else if View(r) == Alive(info) {
      KeysOfView(r, kept, info);
    }
  }

  lemma KeysOfView(r: Info, kept: seq<int>, info: Info)
    requires Within(kept, |Keys(info)|) && View(r) == Pick(View(info), kept)
    ensures Keys(r) == Pick(Keys(info), kept)
  {
    KeysOfAlive(info, kept);
    assert |Keys(r)| == |View(r)| == |kept|;
    forall j | 0 <= j < |kept| ensures Keys(r)[j] == Pick(Keys(info), kept)[j] {
      assert View(r)[j] == EntryAt(r, j);
    }
  }

  /** When every key is auto-disabled the emptied key column reads as "not provided", so the
      delete leaves every key in place and enables them all. */
  lemma DeleteDisabledWithoutSurvivor(info: Info)
    requires Tidy(info) && DeleteDisabledKeys(info).ok && Alive(info) == []
    ensures var r := DeleteDisabledKeys(info).info;
      Tidy(r) && r.key == info.key && Keys(r) == Keys(info) && r.status == map[] && r.time == map[] && r.reason == map[]
  {
    AliveIsPicked(info);
    assert Survivors(info) == [] && Pick(Keys(info), Survivors(info)) == [];
  }

  /** A lone blank survivor does the same, but for the first key, which takes over the status,
      time and reason of the blank one. */
  lemma DeleteDisabledLoneBlank(info: Info)
    requires Tidy(info) && DeleteDisabledKeys(info).ok && AliveKeys(info) == [""]
    ensures var r, j := DeleteDisabledKeys(info).info, Survivors(info)[0];
      && Tidy(r) && r.key == info.key && Keys(r) == Keys(info)
      && EntryAt(r, 0) == EntryAt(info, j).(key := Keys(info)[0])
      && forall i :: 0 < i < |Keys(r)| ==> EntryAt(r, i) == Entry(Keys(info)[i], None, None, None)
  {
    DisabledOfTidy(info);
    DeleteDisabledReads(info);
    KeptAll(|Keys(info)|, NotAuto(info.status));
  }

  lemma MiddleKept(status: map<int, int>)
    requires status == map[0 := AUTO_DISABLED, 2 := AUTO_DISABLED]
    ensures Kept(3, NotAuto(status)) == [1] && Renumber(Disabled(status), [1]) == map[]
  {
    var keep := NotAuto(status);
    assert Kept(1, keep) == [] && Kept(2, keep) == [1];
  }

  lemma LoneBlank(info: Info)
    requires info == Info("a\n\nb", 3, map[0 := AUTO_DISABLED, 2 := AUTO_DISABLED], map[], map[])
    ensures Tidy(info) && Survivors(info) == [1] && AliveKeys(info) == [""] && DeleteDisabledKeys(info).ok
  {
    BlankInTheMiddle();
    MiddleKept(info.status);
  }

  /** In the keys "a", "", "b" with the first and the last auto-disabled the blank one survives
      alone: nothing is deleted and all are enabled. */
  lemma LoneBlankSurvives()
    ensures var info := Info("a\n\nb", 3, map[0 := AUTO_DISABLED, 2 := AUTO_DISABLED], map[], map[]);
      var r := DeleteDisabledKeys(info);
      Tidy(info) && Alive(info) != [] && r.ok && r.info.key == info.key && r.info.status == map[]
  {
    var info := Info("a\n\nb", 3, map[0 := AUTO_DISABLED, 2 := AUTO_DISABLED], map[], map[]);
    LoneBlank(info);
    MiddleKept(info.status);
    AliveIsPicked(info);
    DeleteDisabledReads(info);
  }

  lemma BlankInTheMiddle()
    ensures Parse("a\n\nb", '\n') == ["a", "", "b"]
  {
    var keys := ["a", "", "b"];
    assert keys[1..] == ["", "b"] && ["", "b"][1..] == ["b"];
    BlankInFront();
    assert Join(keys, '\n') == "a" + ['\n'] + "\nb" == "a\n\nb";
    ParseJoin(keys, '\n');
  }

  lemma BlankInFront()
    ensures Parse("\nb", '\n') == ["b"] && Join(["", "b"], '\n') == "\nb"
  {
    assert ["", "b"][1..] == ["b"];
    assert "\nb"[1..] == "b";
    SplitPiece("b", "", '\n');
  }

  // ----- When a delete keeps the columns tidy

  /** The part of the invariant that needs no assumption about the keys. */
  predicate Counted(info: Info) {
    && info.size == |Keys(info)|
    && (forall i :: i in info.status ==> 0 <= i < info.size && info.status[i] in {MANUALLY_DISABLED, AUTO_DISABLED})
  }

  /** `Update` cuts statuses at the keys read back, but not times and reasons. */
  lemma CompactedTidyExactly(info: Info, kept: seq<int>)
    requires Tidy(info) && Within(kept, |Keys(info)|)
    ensures var r := Compacted(info, kept);
      Tidy(r) <==>
        forall j :: 0 <= j < |kept| && (kept[j] in info.time || kept[j] in info.reason) ==> j < |Keys(r)|
  {
    var r := Compacted(info, kept);
    assert r.time == Renumber(info.time, kept) && r.reason == Renumber(info.reason, kept);
    if Tidy(r) {
      forall j | 0 <= j < |kept| && (kept[j] in info.time || kept[j] in info.reason) ensures j < |Keys(r)| {
        assert j in r.time || j in r.reason;
      }
    }
  }

  /** The new index of a kept index is the number of kept ones before it. */
  lemma {:induction false} KeptRank(n: nat, i: nat, keep: int -> bool)
    requires i < n && keep(i)
    ensures |Kept(i, keep)| < |Kept(n, keep)| && Kept(n, keep)[|Kept(i, keep)|] == i
  {
    if i < n - 1 {
      KeptRank(n - 1, i, keep);
    }
  }

  lemma {:induction false} KeptIs(n: nat, j: nat, keep: int -> bool)
    requires j < |Kept(n, keep)|
    ensures var i := Kept(n, keep)[j]; keep(i) && |Kept(i, keep)| == j
  {
    if j < |Kept(n - 1, keep)| {
      KeptIs(n - 1, j, keep);
    }
  }

  /** Times and reasons stay within the statuses exactly when each of them, at its new index, still
      belongs to a key that is read back. */
  lemma KeptTidyExactly(info: Info, keep: int -> bool)
    requires Tidy(info)
    ensures var r := Compacted(info, Kept(|Keys(info)|, keep));
      Tidy(r) <==>
        forall i: nat :: (i in info.time || i in info.reason) && keep(i) ==> |Kept(i, keep)| < |Keys(r)|
  {
    var kept := Kept(|Keys(info)|, keep);
    var r := Compacted(info, kept);
    CompactedTidyExactly(info, kept);
    if Tidy(r) {
      forall i: nat | (i in info.time || i in info.reason) && keep(i) ensures |Kept(i, keep)| < |Keys(r)| {
        KeptRank(|Keys(info)|, i, keep);
      }
    } else {
      var j :| 0 <= j < |kept| && (kept[j] in info.time || kept[j] in info.reason) && j >= |Keys(r)|;
      KeptIs(|Keys(info)|, j, keep);
    }
  }

  /** No time or reason recorded for a key other than `k` lies, at its new index, past the others
      without the blank ones at either end. */
  ghost predicate DeleteFits(info: Info, k: int)
    requires 0 <= k < |Keys(info)|
  {
    forall i: nat :: (i != k && (i in info.time || i in info.reason) ==>
      (if i < k then i else i - 1) < |Strip(Cut(Keys(info), k))|)
  }

  /** The same for a bulk delete, where the keys read back may be all of the old ones. */
  ghost predicate DeleteDisabledFits(info: Info) {
    var alive := AliveKeys(info);
    var n := if WrittenEmpty(alive) then info.size else |Reread(alive)|;
    forall i: nat :: ((i in info.time || i in info.reason) && StatusOf(info, i) != AUTO_DISABLED ==>
      |Kept(i, NotAuto(info.status))| < n)
  }

  /** After `delete_key` the columns are tidy exactly when no time or reason recorded for another
      key lies past the keys read back: the others without the blank ones at either end. */
  lemma DeleteTidyExactly(info: Info, k: int)
    requires Tidy(info) && DeleteKey(info, Some(k)).ok
    ensures Tidy(DeleteKey(info, Some(k)).info) <==> DeleteFits(info, k)
  {
    var kept := Kept(|Keys(info)|, Without(k));
    DisabledOfTidy(info);
    KeptTidyExactly(info, Without(k));
    DeleteReadsBack(info, k);
    forall i: nat ensures i != k ==> |Kept(i, Without(k))| == if i < k then i else i - 1 {
      KeptWithout(i, k);
    }
  }

  /** The same for `delete_disabled_keys`, where the keys read back may be all of the old ones. */
  lemma DeleteDisabledTidyExactly(info: Info)
    requires Tidy(info) && DeleteDisabledKeys(info).ok
    ensures Tidy(DeleteDisabledKeys(info).info) <==> DeleteDisabledFits(info)
  {
    BulkIsCompacted(info);
    KeptTidyExactly(info, NotAuto(info.status));
    DeleteDisabledReads(info);
  }

  // ----- Columns without blank keys

  predicate NoBlanks(keys: seq<string>) {
    forall i :: 0 <= i < |keys| ==> keys[i] != ""
  }

  lemma DeleteOne(info: Info, k: nat)
    requires Tidy(info) && NoBlanks(Keys(info)) && k < info.size && info.size > 1
    ensures var r := DeleteKey(info, Some(k)).info;
      Tidy(r) && NoBlanks(Keys(r)) && View(r) == Cut(View(info), k) && r.key == Join(Keys(r), '\n')
  {
    DeleteKeyShows(info, k);
    assert NoBlanks(Cut(Keys(info), k));
  }

  lemma AliveSolid(info: Info)
    requires NoBlanks(Keys(info))
    ensures NoBlanks(AliveKeys(info)) && SolidEnds(AliveKeys(info))
  {
  }
}
