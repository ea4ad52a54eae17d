/** `delete_disabled_keys` against `delete_key` for each auto-disabled key from the highest index
    down. Between single deletes the column is read back, and blank keys at its end are lost. */
module BulkDelete {
  import opened Text
  import opened Options
  import opened Lists
  import opened MultiKey

  // ----- Single deletes on a list whose blank end is lost at every reading

  function StripEnd<T>(xs: seq<T>, blank: T -> bool): (r: seq<T>)
    ensures r <= xs
    ensures r != [] ==> !blank(r[|r| - 1])
  {
    if xs != [] && blank(xs[|xs| - 1]) then StripEnd(xs[..|xs| - 1], blank) else xs
  }

  /** What the last write leaves: each unwanted element below `n` is cut from the list as read back,
      unless it is the only one. */
  function Each<T>(xs: seq<T>, n: nat, blank: T -> bool, keep: T -> bool): seq<T>
    decreases n
  {
    if n == 0 then xs
    else
      var read := StripEnd(xs, blank);
      if n <= |read| && !keep(read[n - 1]) && |read| > 1 then Each(Cut(read, n - 1), n - 1, blank, keep)
      else Each(xs, n - 1, blank, keep)
  }

  /** The blank elements at the front. */
  function Blanks<T>(xs: seq<T>, blank: T -> bool): (r: seq<T>)
    ensures r <= xs
  {
    if xs == [] || !blank(xs[0]) then [] else [xs[0]] + Blanks(xs[1..], blank)
  }

  /** How long the list is up to the last element that is neither blank nor unwanted. */
  function Solid<T>(xs: seq<T>, blank: T -> bool, keep: T -> bool): (n: nat)
    ensures n <= |xs|
    ensures n > 0 ==> !blank(xs[n - 1]) && keep(xs[n - 1])
    ensures forall i :: n <= i < |xs| ==> blank(xs[i]) || !keep(xs[i])
  {
    if xs == [] then 0
    else if !blank(xs[|xs| - 1]) && keep(xs[|xs| - 1]) then |xs|
    else Solid(xs[..|xs| - 1], blank, keep)
  }

  predicate AllKept<T>(xs: seq<T>, keep: T -> bool) {
    forall i :: 0 <= i < |xs| ==> keep(xs[i])
  }

  /** The list last written: the blank elements after the solid part survive only when nothing is cut
      below them, and the first element of a list without a solid part cannot be cut. */
  function LastWritten<T(!new)>(xs: seq<T>, blank: T -> bool, keep: T -> bool): seq<T>
    requires xs != []
  {
    var s := Solid(xs, blank, keep);
    if s == 0 then [xs[0]] + Blanks(xs[1..], blank)
    else if AllKept(xs[..s], keep) then xs[..s] + Blanks(xs[s..], blank)
    else Filter(xs[..s], keep)
  }

  lemma {:induction false} StripEndAll<T>(head: seq<T>, tail: seq<T>, blank: T -> bool)
    requires head != [] && !blank(head[|head| - 1])
    ensures StripEnd(head + tail, blank) == head + StripEnd(tail, blank)
  {
    if tail == [] {
      assert head + tail == head;
    } else {
      assert (head + tail)[..|head + tail| - 1] == head + tail[..|tail| - 1];
      StripEndAll(head, tail[..|tail| - 1], blank);
    }
  }

  /** Positions past the list as read back are passed over. */
  lemma {:induction false} EachSkips<T>(xs: seq<T>, n: nat, m: nat, blank: T -> bool, keep: T -> bool)
    requires |StripEnd(xs, blank)| <= m <= n
    ensures Each(xs, n, blank, keep) == Each(xs, m, blank, keep)
  {
    if m < n {
      EachSkips(xs, n - 1, m, blank, keep);
    }
  }

  lemma {:induction false} BlanksOfPrefix<T>(xs: seq<T>, p: nat, blank: T -> bool)
    requires p < |xs| && !blank(xs[p])
    ensures Blanks(xs[..p], blank) == Blanks(xs, blank)
  {
    if p > 0 && blank(xs[0]) {
      assert xs[..p][1..] == xs[1..][..p - 1];
      BlanksOfPrefix(xs[1..], p - 1, blank);
    }
  }

  lemma {:induction false} BlanksOfBlank<T>(xs: seq<T>, blank: T -> bool)
    requires StripEnd(xs, blank) == []
    ensures Blanks(xs, blank) == xs
  {
    AllBlank(xs, blank);
    if xs != [] {
      AllBlankStrips(xs[1..], blank);
      BlanksOfBlank(xs[1..], blank);
    }
  }

  lemma {:induction false} AllBlank<T>(xs: seq<T>, blank: T -> bool)
    requires StripEnd(xs, blank) == []
    ensures forall i :: 0 <= i < |xs| ==> blank(xs[i])
  {
    if xs != [] {
      AllBlank(xs[..|xs| - 1], blank);
    }
  }

  lemma {:induction false} AllBlankStrips<T>(xs: seq<T>, blank: T -> bool)
    requires forall i :: 0 <= i < |xs| ==> blank(xs[i])
    ensures StripEnd(xs, blank) == []
  {
    if xs != [] {
      AllBlankStrips(xs[..|xs| - 1], blank);
    }
  }

  lemma LastIsCut<T>(xs: seq<T>, read: seq<T>, blank: T -> bool, keep: T -> bool)
    requires read == StripEnd(xs, blank) && |read| > 1 && !keep(read[|read| - 1])
    ensures Each(xs, |read|, blank, keep) == Each(read[..|read| - 1], |read| - 1, blank, keep)
  {
    assert Cut(read, |read| - 1) == read[..|read| - 1];
  }

  /** The last non-blank element is cut, if it is unwanted and not the only one. */
  lemma EndStep<T>(head: seq<T>, rest: seq<T>, n: nat, blank: T -> bool, keep: T -> bool)
    requires head != [] && !blank(head[|head| - 1])
    requires var end := StripEnd(rest, blank); end != [] && !keep(end[|end| - 1])
    requires n >= |head| + |rest|
    ensures var p := |StripEnd(rest, blank)| - 1;
      Each(head + rest, n, blank, keep) == Each(head + rest[..p], |head| + p, blank, keep)
  {
    var end := StripEnd(rest, blank);
    var p, read := |end| - 1, head + end;
    StripEndAll(head, rest, blank);
    EachSkips(head + rest, n, |read|, blank, keep);
    LastIsCut(head + rest, read, blank, keep);
    assert read[..|read| - 1] == head + rest[..p];
  }

  predicate Removable<T>(xs: seq<T>, blank: T -> bool, keep: T -> bool) {
    forall i :: 0 <= i < |xs| ==> blank(xs[i]) || !keep(xs[i])
  }

  lemma EndRead<T>(rest: seq<T>, blank: T -> bool, keep: T -> bool)
    requires Removable(rest, blank, keep)
    ensures var end := StripEnd(rest, blank);
      end != [] ==>
        var p := |end| - 1;
        !keep(end[p]) && Removable(rest[..p], blank, keep) && Blanks(rest[..p], blank) == Blanks(rest, blank)
  {
    var end := StripEnd(rest, blank);
    if end != [] {
      assert rest[|end| - 1] == end[|end| - 1];
      BlanksOfPrefix(rest, |end| - 1, blank);
    }
  }

  lemma AllBlankEnd<T>(head: seq<T>, rest: seq<T>, n: nat, blank: T -> bool, keep: T -> bool)
    requires head != [] && !blank(head[|head| - 1]) && StripEnd(rest, blank) == [] && n >= |head|
    ensures Each(head + rest, n, blank, keep) == Each(head + Blanks(rest, blank), |head|, blank, keep)
  {
    StripEndAll(head, rest, blank);
    EachSkips(head + rest, n, |head|, blank, keep);
    BlanksOfBlank(rest, blank);
  }

  function EachOf<T>(blank: T -> bool, keep: T -> bool): (seq<T>, nat) -> seq<T> {
    (xs: seq<T>, n: nat) => Each(xs, n, blank, keep)
  }

  /** One step down the end of a list, above a non-blank element. */
  ghost predicate CutsEnd<T>(head: seq<T>, rest: seq<T>, n: nat, each: (seq<T>, nat) -> seq<T>, blank: T -> bool, keep: T -> bool) {
    Removable(rest, blank, keep) && n >= |head| + |rest| ==>
      var p := |StripEnd(rest, blank)| - 1;
      each(head + rest, n) ==
        if p < 0 then each(head + Blanks(rest, blank), |head|) else each(head + rest[..p], |head| + p)
  }

  lemma EndReached<T>(head: seq<T>, rest: seq<T>, n: nat, blank: T -> bool, keep: T -> bool)
    requires head != [] && !blank(head[|head| - 1]) && Removable(rest, blank, keep) && n >= |head| + |rest|
    ensures var p := |StripEnd(rest, blank)| - 1;
      Each(head + rest, n, blank, keep) ==
        if p < 0 then Each(head + Blanks(rest, blank), |head|, blank, keep)
        else Each(head + rest[..p], |head| + p, blank, keep)
  {
    EndRead(rest, blank, keep);
    if StripEnd(rest, blank) == [] {
      AllBlankEnd(head, rest, n, blank, keep);
    } else {
      EndStep(head, rest, n, blank, keep);
    }
  }

  lemma EachCutsEnd<T(!new)>(head: seq<T>, blank: T -> bool, keep: T -> bool)
    requires head != [] && !blank(head[|head| - 1])
    ensures forall rest: seq<T>, n: nat :: CutsEnd(head, rest, n, EachOf(blank, keep), blank, keep)
  {
    forall rest: seq<T>, n: nat ensures CutsEnd(head, rest, n, EachOf(blank, keep), blank, keep) {
      if Removable(rest, blank, keep) && n >= |head| + |rest| {
        EndReached(head, rest, n, blank, keep);
      }
    }
  }

  /** Above a non-blank element, blank and unwanted ones go, down to the blank ones next to it. */
  lemma {:induction false} EndIsCut<T(!new)>(head: seq<T>, rest: seq<T>, n: nat, each: (seq<T>, nat) -> seq<T>, blank: T -> bool, keep: T -> bool)
    requires forall tail: seq<T>, m: nat :: CutsEnd(head, tail, m, each, blank, keep)
    requires Removable(rest, blank, keep) && n >= |head| + |rest|
    ensures each(head + rest, n) == each(head + Blanks(rest, blank), |head|)
    decreases |rest|
  {
    var p := |StripEnd(rest, blank)| - 1;
    assert CutsEnd(head, rest, n, each, blank, keep);
    if p >= 0 {
      EndRead(rest, blank, keep);
      EndIsCut(head, rest[..p], |head| + p, each, blank, keep);
    }
  }

  lemma ReadIsRead<T>(xs: seq<T>, blank: T -> bool)
    ensures StripEnd(StripEnd(xs, blank), blank) == StripEnd(xs, blank)
  {
  }

  /** A cut is made on what is read back. */
  lemma CutOfRead<T>(xs: seq<T>, read: seq<T>, n: nat, blank: T -> bool, keep: T -> bool)
    requires read == StripEnd(xs, blank) && 0 < n <= |read| && |read| > 1 && !keep(read[n - 1])
    ensures Each(xs, n, blank, keep) == Each(read, n, blank, keep)
  {
    ReadIsRead(xs, blank);
  }

  lemma PassOfRead<T>(xs: seq<T>, read: seq<T>, n: nat, blank: T -> bool, keep: T -> bool)
    requires read == StripEnd(xs, blank) && 0 < n <= |read| && keep(read[n - 1])
    ensures Each(xs, n, blank, keep) == Each(xs, n - 1, blank, keep)
    ensures Each(read, n, blank, keep) == Each(read, n - 1, blank, keep)
    ensures AllKept(read[..n], keep) <==> AllKept(read[..n - 1], keep)
  {
    ReadIsRead(xs, blank);
  }

  /** With nothing to cut the list stays as it was written; otherwise it is cut as read back. */
  lemma {:induction false} EachOfRead<T>(xs: seq<T>, read: seq<T>, n: nat, blank: T -> bool, keep: T -> bool)
    requires read == StripEnd(xs, blank) && read != [] && keep(read[|read| - 1]) && n <= |read|
    ensures Each(xs, n, blank, keep) == if AllKept(read[..n], keep) then xs else Each(read, n, blank, keep)
  {
    if n > 0 {
      if keep(read[n - 1]) {
        PassOfRead(xs, read, n, blank, keep);
        EachOfRead(xs, read, n - 1, blank, keep);
      } else {
        assert read[..n][n - 1] == read[n - 1];
        CutOfRead(xs, read, n, blank, keep);
      }
    }
  }

  lemma EachStep<T>(xs: seq<T>, n: nat, blank: T -> bool, keep: T -> bool)
    requires xs != [] && !blank(xs[|xs| - 1]) && keep(xs[|xs| - 1]) && 0 < n <= |xs|
    ensures Each(xs, n, blank, keep) == Each(if keep(xs[n - 1]) then xs else Cut(xs, n - 1), n - 1, blank, keep)
    ensures !keep(xs[n - 1]) ==> var rest := Cut(xs, n - 1); |rest| >= n && rest[|rest| - 1] == xs[|xs| - 1]
  {
    assert StripEnd(xs, blank) == xs;
  }

  /** Below a last element that stays, nothing is lost between the cuts. */
  lemma {:induction false} EachCuts<T>(xs: seq<T>, n: nat, blank: T -> bool, keep: T -> bool)
    requires xs != [] && !blank(xs[|xs| - 1]) && keep(xs[|xs| - 1]) && n <= |xs|
    ensures Each(xs, n, blank, keep) == CutEach(xs, keep, n)
    decreases n
  {
    if n > 0 {
      EachStep(xs, n, blank, keep);
      if keep(xs[n - 1]) {
        EachCuts(xs, n - 1, blank, keep);
      } else {
        EachCuts(Cut(xs, n - 1), n - 1, blank, keep);
      }
    }
  }

  /** The end is cut down to the solid part, or to the first element, and the blank ones after it. */
  lemma EndLeaves<T(!new)>(xs: seq<T>, h: nat, blank: T -> bool, keep: T -> bool)
    requires 0 < h <= |xs| && !blank(xs[h - 1]) && Removable(xs[h..], blank, keep)
    ensures Each(xs, |xs|, blank, keep) == Each(xs[..h] + Blanks(xs[h..], blank), h, blank, keep)
    ensures StripEnd(xs[..h] + Blanks(xs[h..], blank), blank) == xs[..h]
  {
    var head, rest := xs[..h], xs[h..];
    assert xs == head + rest;
    EachCutsEnd(head, blank, keep);
    EndIsCut(head, rest, |xs|, EachOf(blank, keep), blank, keep);
    BlanksStrip(head, rest, blank);
  }

  lemma SolidLeaves<T(!new)>(left: seq<T>, head: seq<T>, blank: T -> bool, keep: T -> bool)
    requires StripEnd(left, blank) == head && head != [] && keep(head[|head| - 1])
    ensures Each(left, |head|, blank, keep) == if AllKept(head, keep) then left else Filter(head, keep)
  {
    EachOfRead(left, head, |head|, blank, keep);
    assert head[..|head|] == head;
    EachCuts(head, |head|, blank, keep);
    CutEachFilters(head, keep, |head|);
  }

  lemma FirstLeft<T(!new)>(xs: seq<T>, blank: T -> bool, keep: T -> bool)
    requires xs != [] && !blank(xs[0]) && Solid(xs, blank, keep) == 0
    ensures Each(xs, |xs|, blank, keep) == [xs[0]] + Blanks(xs[1..], blank)
  {
    var left := xs[..1] + Blanks(xs[1..], blank);
    EndLeaves(xs, 1, blank, keep);
    assert |StripEnd(left, blank)| == 1;
    assert Each(left, 1, blank, keep) == left;
    assert xs[..1] == [xs[0]];
  }

  lemma SolidLeft<T(!new)>(xs: seq<T>, s: nat, blank: T -> bool, keep: T -> bool)
    requires s == Solid(xs, blank, keep) && s > 0
    ensures Each(xs, |xs|, blank, keep) ==
      if AllKept(xs[..s], keep) then xs[..s] + Blanks(xs[s..], blank) else Filter(xs[..s], keep)
  {
    EndLeaves(xs, s, blank, keep);
    SolidLeaves(xs[..s] + Blanks(xs[s..], blank), xs[..s], blank, keep);
  }

  /** The closed form, for a list whose first element is not blank. */
  lemma EachLeaves<T(!new)>(xs: seq<T>, blank: T -> bool, keep: T -> bool)
    requires xs != [] && !blank(xs[0])
    ensures Each(xs, |xs|, blank, keep) == LastWritten(xs, blank, keep)
  {
    if Solid(xs, blank, keep) == 0 {
      FirstLeft(xs, blank, keep);
    } else {
      SolidLeft(xs, Solid(xs, blank, keep), blank, keep);
    }
  }

  lemma BlanksStrip<T>(head: seq<T>, rest: seq<T>, blank: T -> bool)
    requires head != [] && !blank(head[|head| - 1])
    ensures StripEnd(head + Blanks(rest, blank), blank) == head
  {
    BlanksAreBlank(rest, blank);
    AllBlankStrips(Blanks(rest, blank), blank);
    StripEndAll(head, Blanks(rest, blank), blank);
  }

  lemma {:induction false} BlanksAreBlank<T>(xs: seq<T>, blank: T -> bool)
    ensures forall x :: x in Blanks(xs, blank) ==> blank(x)
  {
    if xs != [] {
      BlanksAreBlank(xs[1..], blank);
    }
  }

  /** Every cut shortens the list, so an equally long one was not cut. */
  lemma {:induction false} EachShortens<T>(xs: seq<T>, n: nat, blank: T -> bool, keep: T -> bool)
    ensures var r := Each(xs, n, blank, keep); |r| <= |xs| && (|r| == |xs| ==> r == xs)
    decreases n
  {
    if n > 0 {
      var read := StripEnd(xs, blank);
      if n <= |read| && !keep(read[n - 1]) && |read| > 1 {
        EachShortens(Cut(read, n - 1), n - 1, blank, keep);
      } else {
        EachShortens(xs, n - 1, blank, keep);
      }
    }
  }

  // ----- The columns a list of entries is written as

  function BlankEntry(): Entry -> bool {
    (e: Entry) => e.key == ""
  }

  function KeysOf(es: seq<Entry>): (r: seq<string>)
    ensures |r| == |es| && forall i :: 0 <= i < |es| ==> r[i] == es[i].key
  {
    seq(|es|, i requires 0 <= i < |es| => es[i].key)
  }

  function Statuses(es: seq<Entry>): (r: seq<Option<int>>)
    ensures |r| == |es| && forall i :: 0 <= i < |es| ==> r[i] == es[i].status
  {
    seq(|es|, i requires 0 <= i < |es| => es[i].status)
  }

  function Times(es: seq<Entry>): (r: seq<Option<int>>)
    ensures |r| == |es| && forall i :: 0 <= i < |es| ==> r[i] == es[i].time
  {
    seq(|es|, i requires 0 <= i < |es| => es[i].time)
  }

  function Reasons(es: seq<Entry>): (r: seq<Option<string>>)
    ensures |r| == |es| && forall i :: 0 <= i < |es| ==> r[i] == es[i].reason
  {
    seq(|es|, i requires 0 <= i < |es| => es[i].reason)
  }

  /** The values there are, by index. */
  function Recorded<V>(at: seq<Option<V>>): map<int, V> {
    map j | 0 <= j < |at| && at[j].Some? :: at[j].value
  }

  /** The columns after `Update`, which drops statuses past the keys read back. */
  function Columns(es: seq<Entry>): Info {
    var n := |Reread(KeysOf(es))|;
    Info(Join(KeysOf(es), '\n'), n, Below(Recorded(Statuses(es)), n), Recorded(Times(es)), Recorded(Reasons(es)))
  }

  lemma RecordedAlike<V>(a: seq<Option<V>>, b: seq<Option<V>>)
    requires Recorded(a) == Recorded(b) && |a| == |b|
    ensures a == b
  {
    forall j | 0 <= j < |a| ensures a[j] == b[j] {
      assert j in Recorded(a) <==> a[j].Some?;
      assert j in Recorded(b) <==> b[j].Some?;
    }
  }

  lemma RenumberRecords<V>(m: map<int, V>, kept: seq<int>, at: seq<Option<V>>)
    requires |at| == |kept| && forall j :: 0 <= j < |kept| ==> at[j] == At(m, kept[j])
    ensures Renumber(m, kept) == Recorded(at)
  {
    var x, y := Renumber(m, kept), Recorded(at);
    assert forall j :: j in x <==> j in y;
    assert x.Keys == y.Keys;
  }

  predicate EntryOk(e: Entry) {
    '\n' !in e.key && (e.status.Some? ==> e.status.value in {MANUALLY_DISABLED, AUTO_DISABLED})
  }

  predicate EntriesOk(es: seq<Entry>) {
    forall e :: e in es ==> EntryOk(e)
  }

  lemma FreeKeys(es: seq<Entry>)
    requires EntriesOk(es)
    ensures Free(KeysOf(es), '\n')
  {
    forall x | x in KeysOf(es) ensures '\n' !in x {
      var i :| 0 <= i < |es| && KeysOf(es)[i] == x;
      assert es[i] in es;
    }
  }

  lemma ViewOk(info: Info)
    requires Counted(info)
    ensures EntriesOk(View(info))
  {
    forall e | e in View(info) ensures EntryOk(e) {
      var i :| 0 <= i < |View(info)| && View(info)[i] == e;
      assert e == EntryAt(info, i) && Keys(info)[i] in Keys(info);
    }
  }

  lemma PickedEntries(info: Info, kept: seq<int>)
    requires Within(kept, |Keys(info)|)
    ensures var es := Pick(View(info), kept);
      && KeysOf(es) == Pick(Keys(info), kept)
      && Renumber(info.status, kept) == Recorded(Statuses(es))
      && Renumber(info.time, kept) == Recorded(Times(es))
      && Renumber(info.reason, kept) == Recorded(Reasons(es))
  {
    var es := Pick(View(info), kept);
    KeysOfAlive(info, kept);
    assert forall j :: 0 <= j < |kept| ==> es[j] == View(info)[kept[j]] == EntryAt(info, kept[j]);
    RenumberRecords(info.status, kept, Statuses(es));
    RenumberRecords(info.time, kept, Times(es));
    RenumberRecords(info.reason, kept, Reasons(es));
  }

  lemma CompactedIsColumns(info: Info, kept: seq<int>)
    requires Within(kept, |Keys(info)|) && !WrittenEmpty(Pick(Keys(info), kept))
    ensures Compacted(info, kept) == Columns(Pick(View(info), kept))
  {
    PickedEntries(info, kept);
    ParseFree(info.key, kept);
    ParseJoinReads(Pick(Keys(info), kept), '\n');
  }

  lemma CountedDisabled(info: Info)
    requires Counted(info)
    ensures Disabled(info.status) == info.status
  {
    assert forall i :: i in info.status ==> i in Disabled(info.status);
  }

  lemma DeleteWrites(info: Info, k: nat)
    requires Counted(info) && k < info.size && info.size > 1
    ensures DeleteKey(info, Some(k)).info == Columns(Cut(View(info), k))
  {
    var kept := Kept(|Keys(info)|, Without(k));
    CountedDisabled(info);
    KeptWithout(|Keys(info)|, k);
    PickWithout(Keys(info), kept, k);
    PickWithout(View(info), kept, k);
    OneEndStays(info, k);
    CompactedIsColumns(info, kept);
  }

  lemma {:induction false} StripKeys(es: seq<Entry>)
    requires es != [] && es[0].key != ""
    ensures Strip(KeysOf(es)) == KeysOf(StripEnd(es, BlankEntry()))
    ensures StripEnd(es, BlankEntry()) != []
  {
    var n := |es| - 1;
    var keys := KeysOf(es);
    assert keys[0] == es[0].key && keys[n] == es[n].key;
    if es[n].key == "" {
      assert keys[..n] == KeysOf(es[..n]);
      StripKeys(es[..n]);
    }
  }

  lemma ColumnsKeys(es: seq<Entry>)
    requires EntriesOk(es) && es != [] && es[0].key != ""
    ensures Keys(Columns(es)) == KeysOf(StripEnd(es, BlankEntry()))
    ensures Columns(es).size == |StripEnd(es, BlankEntry())|
  {
    FreeKeys(es);
    StripKeys(es);
    ParseJoinReads(KeysOf(es), '\n');
  }

  lemma ColumnsCounted(es: seq<Entry>)
    requires EntriesOk(es) && es != [] && es[0].key != ""
    ensures Counted(Columns(es))
  {
    ColumnsKeys(es);
    assert forall i :: 0 <= i < |es| ==> es[i] in es;
  }

  lemma ColumnEntry(es: seq<Entry>, j: nat)
    requires j < |es| && j < |Keys(Columns(es))| && Columns(es).size == |Keys(Columns(es))|
    ensures EntryAt(Columns(es), j) == es[j].(key := Keys(Columns(es))[j])
  {
  }

  /** Written entries that start with a key are read back without the blank ones at the end. */
  lemma ColumnsRead(es: seq<Entry>)
    requires EntriesOk(es) && es != [] && es[0].key != ""
    ensures Counted(Columns(es)) && View(Columns(es)) == StripEnd(es, BlankEntry())
  {
    var r, read := Columns(es), StripEnd(es, BlankEntry());
    ColumnsKeys(es);
    ColumnsCounted(es);
    forall j | 0 <= j < |read| ensures View(r)[j] == read[j] {
      ColumnEntry(es, j);
      assert View(r)[j] == EntryAt(r, j);
    }
  }

  // ----- Single deletes on the columns

  function Deleting(): (Info, nat) -> Info {
    (info: Info, k: nat) => DeleteKey(info, Some(k)).info
  }

  /** A delete applied to every auto-disabled index below `n`, from the highest down. */
  function DeleteEachBelow(info: Info, n: nat, delete: (Info, nat) -> Info): Info
    decreases n
  {
    if n == 0 then info
    else if StatusOf(info, n - 1) == AUTO_DISABLED then DeleteEachBelow(delete(info, n - 1), n - 1, delete)
    else DeleteEachBelow(info, n - 1, delete)
  }

  /** The delete writes the other entries, and refuses the last key. */
  ghost predicate Writes(delete: (Info, nat) -> Info) {
    forall info: Info, k: nat :: (Counted(info) && k < info.size ==>
      delete(info, k) == if info.size > 1 then Columns(Cut(View(info), k)) else info)
  }

  lemma DeletingWrites()
    ensures Writes(Deleting())
  {
    forall info: Info, k: nat | Counted(info) && k < info.size
      ensures Deleting()(info, k) == if info.size > 1 then Columns(Cut(View(info), k)) else info
    {
      if info.size > 1 {
        DeleteWrites(info, k);
      } else {
        KeptWithout(1, 0);
      }
    }
  }

  lemma AutoEntry(info: Info, n: nat)
    requires Counted(info) && n > 0
    ensures StatusOf(info, n - 1) == AUTO_DISABLED <==> n <= |View(info)| && !NotAutoEntry()(View(info)[n - 1])
  {
    if n <= |View(info)| {
      assert View(info)[n - 1] == EntryAt(info, n - 1);
    }
  }

  /** What the columns stand for: the entries last written, as they are read back. */
  predicate StandsFor(info: Info, es: seq<Entry>) {
    Counted(info) && EntriesOk(es) && es != [] && es[0].key != "" && View(info) == StripEnd(es, BlankEntry())
  }

  lemma NextStands(info: Info, es: seq<Entry>, k: nat)
    requires StandsFor(info, es) && 0 < k < |View(info)|
    ensures var next := Cut(View(info), k); StandsFor(Columns(next), next)
  {
    ViewOk(info);
    ColumnsRead(Cut(View(info), k));
  }

  lemma CutStep(info: Info, n: nat, es: seq<Entry>)
    requires StandsFor(info, es) && n > 0 && StatusOf(info, n - 1) == AUTO_DISABLED && |View(info)| > 1
    ensures n <= |View(info)| <= |es|
    ensures Each(es, n, BlankEntry(), NotAutoEntry())
      == Each(Cut(View(info), n - 1), n - 1, BlankEntry(), NotAutoEntry())
  {
    AutoEntry(info, n);
  }

  lemma DeleteStep(info: Info, n: nat, delete: (Info, nat) -> Info)
    requires Writes(delete) && Counted(info)
    requires n > 0 && StatusOf(info, n - 1) == AUTO_DISABLED && |View(info)| > 1
    ensures n <= |View(info)|
    ensures DeleteEachBelow(info, n, delete) == DeleteEachBelow(Columns(Cut(View(info), n - 1)), n - 1, delete)
  {
    AutoEntry(info, n);
  }

  lemma PassStep(info: Info, n: nat, es: seq<Entry>, delete: (Info, nat) -> Info)
    requires Writes(delete) && StandsFor(info, es)
    requires n > 0 && (StatusOf(info, n - 1) != AUTO_DISABLED || |View(info)| <= 1)
    ensures DeleteEachBelow(info, n, delete) == DeleteEachBelow(info, n - 1, delete)
    ensures Each(es, n, BlankEntry(), NotAutoEntry()) == Each(es, n - 1, BlankEntry(), NotAutoEntry())
  {
    AutoEntry(info, n);
  }

  function Writing(): seq<Entry> -> Info {
    (es: seq<Entry>) => Columns(es)
  }

  /** Both steps at once. */
  predicate Follows(info: Info, n: nat, es: seq<Entry>, delete: (Info, nat) -> Info, write: seq<Entry> -> Info) {
    n > 0 && StandsFor(info, es) ==>
      if StatusOf(info, n - 1) == AUTO_DISABLED && |View(info)| > 1 then
        && n <= |View(info)| <= |es|
        && var next := Cut(View(info), n - 1);
        && DeleteEachBelow(info, n, delete) == DeleteEachBelow(write(next), n - 1, delete)
        && Each(es, n, BlankEntry(), NotAutoEntry()) == Each(next, n - 1, BlankEntry(), NotAutoEntry())
        && (n > 1 ==> StandsFor(write(next), next))
      else
        && DeleteEachBelow(info, n, delete) == DeleteEachBelow(info, n - 1, delete)
        && Each(es, n, BlankEntry(), NotAutoEntry()) == Each(es, n - 1, BlankEntry(), NotAutoEntry())
  }

  lemma DeletingFollows(info: Info, n: nat, es: seq<Entry>)
    ensures Follows(info, n, es, Deleting(), Writing())
  {
    DeletingWrites();
    if n > 0 && StandsFor(info, es) {
      if StatusOf(info, n - 1) == AUTO_DISABLED && |View(info)| > 1 {
        CutStep(info, n, es);
        DeleteStep(info, n, Deleting());
        if n > 1 {
          NextStands(info, es, n - 1);
        }
      } else {
        PassStep(info, n, es, Deleting());
      }
    }
  }

  /** On the columns, too, each delete cuts what is read back of what the one before has written. */
  lemma {:induction false} SingleDeletes(info: Info, n: nat, es: seq<Entry>, left: seq<Entry>, delete: (Info, nat) -> Info, write: seq<Entry> -> Info)
    requires forall i: Info, m: nat, xs: seq<Entry> :: Follows(i, m, xs, delete, write)
    requires (n > 0 ==> StandsFor(info, es)) && left == Each(es, n, BlankEntry(), NotAutoEntry())
    ensures DeleteEachBelow(info, n, delete) == if |left| == |es| then info else write(left)
    decreases n
  {
    if n > 0 {
      assert Follows(info, n, es, delete, write);
      if StatusOf(info, n - 1) == AUTO_DISABLED && |View(info)| > 1 {
        var next := Cut(View(info), n - 1);
        SingleDeletes(write(next), n - 1, next, left, delete, write);
        EachShortens(next, n - 1, BlankEntry(), NotAutoEntry());
      } else {
        SingleDeletes(info, n - 1, es, left, delete, write);
      }
    }
  }

  // ----- When both leave the same columns

  function Timed(es: seq<Entry>): (r: seq<Entry>)
    ensures |r| == |es| && forall i :: 0 <= i < |es| ==> r[i] == es[i].(status := None)
  {
    seq(|es|, i requires 0 <= i < |es| => es[i].(status := None))
  }

  /** Up to the last key that is neither blank nor auto-disabled. */
  function SolidPart(info: Info): nat {
    Solid(View(info), BlankEntry(), NotAutoEntry())
  }

  /** Nothing to delete; or there is such a key, and past it either no entry survives, if some key
      below it is deleted, or else the surviving ones carry the same times and reasons, one by one,
      as the blank ones that follow it directly. */
  predicate AgreePast(es: seq<Entry>, s: nat)
    requires s <= |es|
  {
    || AllKept(es, NotAutoEntry())
    || (s > 0
        && if AllKept(es[..s], NotAutoEntry())
           then Timed(Blanks(es[s..], BlankEntry())) == Timed(Filter(es[s..], NotAutoEntry()))
           else Filter(es[s..], NotAutoEntry()) == [])
  }

  predicate Agree(info: Info) {
    AgreePast(View(info), SolidPart(info))
  }

  /** Columns are the same exactly when the entries are, but for statuses past the keys read back. */
  lemma ColumnsAlike(a: seq<Entry>, b: seq<Entry>)
    requires EntriesOk(a) && EntriesOk(b) && a != [] && b != [] && Columns(a) == Columns(b)
    ensures Timed(a) == Timed(b)
  {
    FreeKeys(a);
    FreeKeys(b);
    JoinInjective(KeysOf(a), KeysOf(b), '\n');
    assert |a| == |KeysOf(a)| == |KeysOf(b)| == |b|;
    RecordedAlike(Times(a), Times(b));
    RecordedAlike(Reasons(a), Reasons(b));
    forall i | 0 <= i < |a| ensures Timed(a)[i] == Timed(b)[i] {
      assert KeysOf(a)[i] == KeysOf(b)[i] && Times(a)[i] == Times(b)[i] && Reasons(a)[i] == Reasons(b)[i];
    }
  }

  lemma AlikeColumns(a: seq<Entry>, b: seq<Entry>, n: nat)
    requires Timed(a) == Timed(b) && |Reread(KeysOf(a))| == n <= |a| && |a| == |b| && a[..n] == b[..n]
    ensures Columns(a) == Columns(b)
  {
    forall i | 0 <= i < |a| ensures a[i].key == b[i].key && a[i].time == b[i].time && a[i].reason == b[i].reason {
      assert Timed(a)[i] == Timed(b)[i];
    }
    assert KeysOf(a) == KeysOf(b) && Times(a) == Times(b) && Reasons(a) == Reasons(b);
    var x, y := Below(Recorded(Statuses(a)), n), Below(Recorded(Statuses(b)), n);
    forall i | 0 <= i < n ensures a[i].status == b[i].status {
      assert a[..n][i] == b[..n][i];
    }
    assert x.Keys == y.Keys;
    assert x == y;
  }

  /** The single deletes in closed form, for columns that hold more than line breaks. */
  lemma SinglesLeave(info: Info)
    requires Counted(info) && info.size > 0 && Keys(info) != [""]
    ensures var es := View(info);
      var left := LastWritten(es, BlankEntry(), NotAutoEntry());
      && es[0].key != "" && es[|es| - 1].key != ""
      && DeleteEachBelow(info, info.size, Deleting()) == (if |left| == |es| then info else Columns(left))
      && |left| <= |es|
  {
    var es := View(info);
    ParseEnds(info.key, '\n');
    assert es[0] == EntryAt(info, 0) && es[|es| - 1] == EntryAt(info, |es| - 1);
    assert StripEnd(es, BlankEntry()) == es;
    ViewOk(info);
    forall i: Info, m: nat, xs: seq<Entry> ensures Follows(i, m, xs, Deleting(), Writing()) {
      DeletingFollows(i, m, xs);
    }
    var left := Each(es, |es|, BlankEntry(), NotAutoEntry());
    SingleDeletes(info, |es|, es, left, Deleting(), Writing());
    EachLeaves(es, BlankEntry(), NotAutoEntry());
    EachShortens(es, |es|, BlankEntry(), NotAutoEntry());
  }

  /** The bulk delete writes the entries that are left. */
  lemma BulkLeaves(info: Info)
    requires Tidy(info) && DeleteDisabledKeys(info).ok && !WrittenEmpty(AliveKeys(info))
    ensures DeleteDisabledKeys(info).info == Columns(Alive(info)) && KeysOf(Alive(info)) == AliveKeys(info)
  {
    BulkIsCompacted(info);
    AliveIsPicked(info);
    CompactedIsColumns(info, Survivors(info));
    PickedEntries(info, Survivors(info));
  }

  // ----- The two results compared

  lemma FilterShortens<T(!new)>(xs: seq<T>, keep: T -> bool)
    ensures |Filter(xs, keep)| <= |xs|
    ensures |Filter(xs, keep)| == |xs| ==> AllKept(xs, keep)
  {
    if xs != [] {
      FilterShortens(xs[..|xs| - 1], keep);
    }
  }

  lemma AllKeptFilter<T(!new)>(xs: seq<T>, keep: T -> bool)
    requires AllKept(xs, keep)
    ensures Filter(xs, keep) == xs
  {
    FilterAll(xs, keep);
  }

  /** The survivors are those of the solid part and those past it. */
  lemma AliveSplits(info: Info)
    ensures var es, s := View(info), SolidPart(info);
      Alive(info) == Filter(es[..s], NotAutoEntry()) + Filter(es[s..], NotAutoEntry())
  {
    var es, s := View(info), SolidPart(info);
    assert es == es[..s] + es[s..];
    FilterConcat(es[..s], es[s..], NotAutoEntry());
  }

  lemma AliveOk(info: Info)
    requires Counted(info)
    ensures EntriesOk(Alive(info))
  {
    ViewOk(info);
  }

  /** Auto-disabled entries, all of them: the bulk delete applies. */
  lemma BulkApplies(info: Info)
    requires Tidy(info)
    ensures DeleteDisabledKeys(info).ok <==> !AllKept(View(info), NotAutoEntry())
  {
    DeleteDisabledApplies(info);
    var es := View(info);
    if i :| i in info.status && info.status[i] == AUTO_DISABLED {
      AutoEntry(info, i + 1);
    } else {
      forall i | 0 <= i < |es| ensures NotAutoEntry()(es[i]) {
        AutoEntry(info, i + 1);
      }
    }
  }

  /** A key that is neither blank nor auto-disabled survives, so something is written. */
  lemma SolidSurvives(info: Info)
    requires Counted(info) && SolidPart(info) > 0
    ensures !WrittenEmpty(AliveKeys(info)) && Alive(info) != []
  {
    var es, s := View(info), SolidPart(info);
    var e := es[s - 1];
    assert e in es && e in Alive(info);
    AliveIsPicked(info);
    KeysOfAlive(info, Survivors(info));
    var j :| 0 <= j < |Alive(info)| && Alive(info)[j] == e;
    assert AliveKeys(info)[j] != "";
  }

  lemma {:induction false} BlankKeysStrip(front: seq<Entry>, tail: seq<Entry>)
    requires front != [] && front[0].key != "" && front[|front| - 1].key != ""
    requires forall e :: e in tail ==> e.key == ""
    ensures |Reread(KeysOf(front + tail))| == |front|
  {
    var es := front + tail;
    StripEndAll(front, tail, BlankEntry());
    AllBlankStrips(tail, BlankEntry());
    StripKeys(es);
  }

  /** Nothing below the solid part is deleted: what remains past it decides. */
  lemma SameWhenKept(front: seq<Entry>, a: seq<Entry>, b: seq<Entry>)
    requires front != [] && front[0].key != "" && front[|front| - 1].key != ""
    requires EntriesOk(front) && EntriesOk(a) && EntriesOk(b)
    requires forall e :: e in a ==> e.key == ""
    ensures Columns(front + a) == Columns(front + b) <==> Timed(a) == Timed(b)
  {
    assert Timed(front + a) == Timed(front) + Timed(a);
    assert Timed(front + b) == Timed(front) + Timed(b);
    if Columns(front + a) == Columns(front + b) {
      ColumnsAlike(front + a, front + b);
      assert Timed(a) == Timed(front + a)[|front|..] && Timed(b) == Timed(front + b)[|front|..];
    }
    if Timed(a) == Timed(b) {
      BlankKeysStrip(front, a);
      assert |a| == |Timed(a)| == |Timed(b)| == |b|;
      AlikeColumns(front + a, front + b, |front|);
    }
  }

  lemma LastWrittenOk(es: seq<Entry>)
    requires EntriesOk(es) && es != []
    ensures EntriesOk(LastWritten(es, BlankEntry(), NotAutoEntry())) && LastWritten(es, BlankEntry(), NotAutoEntry()) != []
  {
    var s := Solid(es, BlankEntry(), NotAutoEntry());
    if s > 0 {
      assert es[s - 1] in es[..s] && es[s - 1] in Filter(es[..s], NotAutoEntry());
    }
  }

  lemma BlanksShorter(rest: seq<Entry>)
    requires rest != [] ==> rest[|rest| - 1].key != ""
    ensures rest != [] ==> |Blanks(rest, BlankEntry())| < |rest|
  {
    BlanksAreBlank(rest, BlankEntry());
    var r := Blanks(rest, BlankEntry());
    assert r != [] ==> r[|r| - 1] in r;
  }

  lemma KeptBelowBulk(info: Info, front: seq<Entry>, rest: seq<Entry>)
    requires Tidy(info) && SolidPart(info) > 0
    requires !AllKept(View(info), NotAutoEntry()) && AllKept(front, NotAutoEntry())
    requires front == View(info)[..SolidPart(info)] && rest == View(info)[SolidPart(info)..]
    ensures DeleteDisabledKeys(info).info == Columns(front + Filter(rest, NotAutoEntry()))
  {
    BulkApplies(info);
    SolidSurvives(info);
    BulkLeaves(info);
    AliveSplits(info);
    AllKeptFilter(front, NotAutoEntry());
  }

  /** The blank entries past the solid part are fewer than all of them. */
  lemma KeptBelowLeft(es: seq<Entry>, s: nat)
    requires es != [] && es[|es| - 1].key != "" && s == Solid(es, BlankEntry(), NotAutoEntry()) && s > 0
    requires !AllKept(es, NotAutoEntry()) && AllKept(es[..s], NotAutoEntry())
    ensures LastWritten(es, BlankEntry(), NotAutoEntry()) == es[..s] + Blanks(es[s..], BlankEntry())
    ensures s + |Blanks(es[s..], BlankEntry())| < |es|
  {
    assert es[..|es|] == es;
    BlanksShorter(es[s..]);
  }

  lemma KeptBelowSingles(info: Info)
    requires Counted(info) && info.size > 0 && Keys(info) != [""] && SolidPart(info) > 0
    requires !AllKept(View(info), NotAutoEntry()) && AllKept(View(info)[..SolidPart(info)], NotAutoEntry())
    ensures View(info)[0].key != ""
    ensures DeleteEachBelow(info, info.size, Deleting())
      == Columns(View(info)[..SolidPart(info)] + Blanks(View(info)[SolidPart(info)..], BlankEntry()))
  {
    var es := View(info);
    SinglesLeave(info);
    KeptBelowLeft(es, SolidPart(info));
    assert |LastWritten(es, BlankEntry(), NotAutoEntry())| < |es|;
  }

  lemma AgreeWhenKept(es: seq<Entry>, s: nat, a: seq<Entry>, b: seq<Entry>)
    requires 0 < s <= |es| && !AllKept(es, NotAutoEntry()) && AllKept(es[..s], NotAutoEntry())
    requires a == Blanks(es[s..], BlankEntry()) && b == Filter(es[s..], NotAutoEntry())
    ensures AgreePast(es, s) <==> Timed(a) == Timed(b)
  {
  }

  lemma TailsOk(es: seq<Entry>, s: nat, a: seq<Entry>, b: seq<Entry>)
    requires EntriesOk(es) && s <= |es|
    requires a == Blanks(es[s..], BlankEntry()) && b == Filter(es[s..], NotAutoEntry())
    ensures EntriesOk(es[..s]) && EntriesOk(a) && EntriesOk(b) && forall e :: e in a ==> e.key == ""
  {
    BlanksAreBlank(es[s..], BlankEntry());
  }

  /** No key below the solid part is deleted. */
  lemma KeptBelow(es: seq<Entry>, s: nat, front: seq<Entry>, a: seq<Entry>, b: seq<Entry>)
    requires EntriesOk(es) && 0 < s <= |es| && es[0].key != "" && es[s - 1].key != "" && front == es[..s]
    requires !AllKept(es, NotAutoEntry()) && AllKept(front, NotAutoEntry())
    requires a == Blanks(es[s..], BlankEntry()) && b == Filter(es[s..], NotAutoEntry())
    ensures Columns(front + b) == Columns(front + a) <==> AgreePast(es, s)
  {
    AgreeWhenKept(es, s, a, b);
    TailsOk(es, s, a, b);
    assert front[0] == es[0] && front[s - 1] == es[s - 1];
    SameWhenKept(front, a, b);
  }

  /** Some key below the solid part is deleted. */
  lemma CutBelow(info: Info)
    requires Tidy(info) && info.size > 0 && Keys(info) != [""]
    requires SolidPart(info) > 0 && !AllKept(View(info)[..SolidPart(info)], NotAutoEntry())
    ensures DeleteDisabledKeys(info).info == DeleteEachBelow(info, info.size, Deleting()) <==> Agree(info)
  {
    var es, s := View(info), SolidPart(info);
    var left, b := Filter(es[..s], NotAutoEntry()), Filter(es[s..], NotAutoEntry());
    assert !AllKept(es, NotAutoEntry()) by {
      var i :| 0 <= i < s && !NotAutoEntry()(es[..s][i]);
      assert es[i] == es[..s][i];
    }
    SinglesLeave(info);
    FilterShortens(es[..s], NotAutoEntry());
    BulkApplies(info);
    SolidSurvives(info);
    BulkLeaves(info);
    AliveSplits(info);
    ViewOk(info);
    LastWrittenOk(es);
    AliveOk(info);
    assert |Timed(left)| == |left| && |Timed(left + b)| == |left| + |b|;
    if b == [] {
      assert left + b == left;
    } else if Columns(left) == Columns(left + b) {
      ColumnsAlike(left, left + b);
    }
  }

  /** Without a key that is neither blank nor auto-disabled the single deletes end at the first key. */
  lemma SinglesEnd(info: Info)
    requires Counted(info) && info.size > 1 && SolidPart(info) == 0
    ensures var single := DeleteEachBelow(info, info.size, Deleting());
      0 < |Keys(single)| < info.size && Keys(single)[0] != ""
  {
    var es := View(info);
    ParseEnds(info.key, '\n');
    SinglesLeave(info);
    BlanksShorter(es[1..]);
    ViewOk(info);
    LastWrittenOk(es);
    var left := LastWritten(es, BlankEntry(), NotAutoEntry());
    ColumnsKeys(left);
    StripKeys(left);
  }

  /** And the bulk delete writes none. */
  lemma NothingSolid(info: Info)
    requires Tidy(info) && !AllKept(View(info), NotAutoEntry()) && SolidPart(info) == 0
    ensures DeleteDisabledKeys(info).info != DeleteEachBelow(info, info.size, Deleting())
  {
    BulkApplies(info);
    if info.size == 1 {
      OnlyKey(info);
    } else {
      SinglesEnd(info);
      DeleteDisabledReads(info);
      if !WrittenEmpty(AliveKeys(info)) {
        BlankSurvivors(info);
      }
    }
  }

  /** A single auto-disabled key stays disabled; the bulk delete enables it. */
  lemma OnlyKey(info: Info)
    requires Tidy(info) && info.size == 1 && !AllKept(View(info), NotAutoEntry())
    ensures DeleteDisabledKeys(info).info != DeleteEachBelow(info, info.size, Deleting())
  {
    DeletingWrites();
    AutoEntry(info, 1);
    BulkApplies(info);
    AliveSplits(info);
    FilterShortens(View(info), NotAutoEntry());
    assert Alive(info) == [];
    DeleteDisabledWithoutSurvivor(info);
    assert Deleting()(info, 0) == info;
    assert DeleteEachBelow(info, 1, Deleting()) == DeleteEachBelow(info, 0, Deleting());
  }

  lemma BlankSurvivors(info: Info)
    requires Counted(info) && SolidPart(info) == 0 && !WrittenEmpty(AliveKeys(info))
    ensures Reread(AliveKeys(info)) == [""]
  {
    var es := View(info);
    AliveIsPicked(info);
    KeysOfAlive(info, Survivors(info));
    forall x | x in AliveKeys(info) ensures x == "" {
      var j :| 0 <= j < |Alive(info)| && AliveKeys(info)[j] == x;
      assert Alive(info)[j] in Alive(info) && Alive(info)[j] in es;
      var i :| 0 <= i < |es| && es[i] == Alive(info)[j];
    }
  }

  lemma SolidKey(info: Info)
    requires SolidPart(info) > 0
    ensures |Keys(info)| > 0 && Keys(info) != [""]
  {
    var i := SolidPart(info) - 1;
    assert View(info)[i] == EntryAt(info, i);
  }

  /** The bulk delete leaves the same columns as deleting every auto-disabled key one at a time, from
      the highest index down, exactly when `Agree` holds of the entries before. */
  lemma BulkDeleteIsSingleDeletes(info: Info)
    requires Tidy(info)
    ensures DeleteDisabledKeys(info).info == DeleteEachBelow(info, info.size, Deleting()) <==> Agree(info)
  {
    var bulk, single := DeleteDisabledKeys(info).info, DeleteEachBelow(info, info.size, Deleting());
    BulkApplies(info);
    if AllKept(View(info), NotAutoEntry()) {
      NothingDeleted(info, info.size, Deleting());
    } else if SolidPart(info) == 0 {
      NothingSolid(info);
    } else {
      SolidKey(info);
      if AllKept(View(info)[..SolidPart(info)], NotAutoEntry()) {
        var front, rest := View(info)[..SolidPart(info)], View(info)[SolidPart(info)..];
        KeptBelowBulk(info, front, rest);
        KeptBelowSingles(info);
        ViewOk(info);
        KeptBelow(View(info), SolidPart(info), front, Blanks(rest, BlankEntry()), Filter(rest, NotAutoEntry()));
      } else {
        CutBelow(info);
      }
    }
  }

  lemma {:induction false} NothingDeleted(info: Info, n: nat, delete: (Info, nat) -> Info)
    requires Counted(info) && n <= info.size && AllKept(View(info), NotAutoEntry())
    ensures DeleteEachBelow(info, n, delete) == info
    decreases n
  {
    if n > 0 {
      AutoEntry(info, n);
      NothingDeleted(info, n - 1, delete);
    }
  }

  lemma NothingBlankPast(es: seq<Entry>, s: nat)
    requires s == Solid(es, BlankEntry(), NotAutoEntry()) && forall i :: 0 <= i < |es| ==> es[i].key != ""
    ensures Filter(es[s..], NotAutoEntry()) == [] && Blanks(es[s..], BlankEntry()) == []
  {
    var rest := es[s..];
    forall e | e in rest ensures !NotAutoEntry()(e) {
      var i :| 0 <= i < |rest| && rest[i] == e;
      assert BlankEntry()(es[s + i]) || !NotAutoEntry()(es[s + i]);
    }
    FilterNone(rest, NotAutoEntry());
  }

  /** Without blank keys the two agree exactly when there is nothing to delete or a survivor. */
  lemma AgreeWithoutBlanks(info: Info)
    requires NoBlanks(Keys(info))
    ensures Agree(info) <==> AllKept(View(info), NotAutoEntry()) || Alive(info) != []
  {
    var es, s := View(info), SolidPart(info);
    assert forall i :: 0 <= i < |es| ==> es[i] == EntryAt(info, i) && es[i].key != "";
    NothingBlankPast(es, s);
    AliveSplits(info);
    assert es[..0] == [];
    if s > 0 {
      assert es[s - 1] in es[..s];
    }
  }

  /** With blank keys they may differ: of "a", "", "b" with the last two auto-disabled, the bulk delete
      writes "a", and the single ones leave the line break that the blank key was lost with. */
  lemma BlankKeyIsLost()
    ensures var info := Info("a\n\nb", 3, map[1 := AUTO_DISABLED, 2 := AUTO_DISABLED], map[], map[]);
      Tidy(info) && DeleteDisabledKeys(info).info != DeleteEachBelow(info, info.size, Deleting())
  {
    var info := Info("a\n\nb", 3, map[1 := AUTO_DISABLED, 2 := AUTO_DISABLED], map[], map[]);
    BlankInTheMiddle();
    var a, b, c := EntryAt(info, 0), EntryAt(info, 1), EntryAt(info, 2);
    assert View(info) == [a, b, c];
    SolidOfThree(a, b, c);
    BulkDeleteIsSingleDeletes(info);
  }

  lemma SolidOfThree(a: Entry, b: Entry, c: Entry)
    requires a.key != "" && a.status == None && b.key == "" && c.key != ""
    requires b.status == c.status == Some(AUTO_DISABLED)
    ensures var es := [a, b, c];
      Solid(es, BlankEntry(), NotAutoEntry()) == 1 && !AgreePast(es, 1)
  {
    var es := [a, b, c];
    assert es[..2] == [a, b] && [a, b][..1] == [a] && es[..1] == [a] && es[1..] == [b, c] && [b, c][1..] == [c];
    assert Solid([a], BlankEntry(), NotAutoEntry()) == 1;
    assert Solid([a, b], BlankEntry(), NotAutoEntry()) == 1;
    assert Solid(es, BlankEntry(), NotAutoEntry()) == 1;
    assert !NotAutoEntry()(es[1]) && AllKept([a], NotAutoEntry());
    assert Blanks([b, c], BlankEntry()) == [b];
    FilterNone([b, c], NotAutoEntry());
    assert |Timed([b])| == 1 && |Timed([])| == 0;
  }

  /** A blank key lost on the way does no harm when it is to be deleted and a later delete rewrites the
      column: of "x", "a", "", "b" all but "a" are auto-disabled. */
  lemma LostYetAgree(x: Entry, a: Entry, b: Entry, c: Entry)
    requires x.key != "" && a.key != "" && b.key == "" && c.key != ""
    requires a.status == None && x.status == b.status == c.status == Some(AUTO_DISABLED)
    ensures var es := [x, a, b, c];
      && Solid(es, BlankEntry(), NotAutoEntry()) == 2 && AgreePast(es, 2)
      && |StripEnd(es[..3], BlankEntry())| == 2
  {
    var es := [x, a, b, c];
    assert es[..3] == [x, a, b] && [x, a, b][..2] == [x, a] && es[..2] == [x, a] && es[2..] == [b, c];
    assert Solid([x, a], BlankEntry(), NotAutoEntry()) == 2;
    assert Solid([x, a, b], BlankEntry(), NotAutoEntry()) == 2;
    assert StripEnd([x, a], BlankEntry()) == [x, a];
    assert !NotAutoEntry()([x, a][0]);
    FilterNone([b, c], NotAutoEntry());
  }
}
