/** Where a request body is kept, and the shared counters of open disk files and memory buffers. */
module DiskCache {
  import opened Options
  import opened Bytes
  import opened BodyStorage

  datatype Config = Config(enabled: bool, thresholdMB: int, maxSizeMB: int)

  datatype Stats = Stats(
    diskFiles: int, diskUsage: int, memoryBuffers: int, memoryUsage: int, diskHits: int, memoryHits: int)

  const NO_STATS := Stats(0, 0, 0, 0, 0, 0)

  function Threshold(config: Config): int {
    config.thresholdMB * 0x10_0000
  }

  function MaxSize(config: Config): int {
    config.maxSizeMB * 0x10_0000
  }

  predicate Available(config: Config, stats: Stats, size: int) {
    config.enabled && stats.diskUsage + size <= MaxSize(config)
  }

  function Clamp(n: int): int {
    if n < 0 then 0 else n
  }

  function DiskAdded(s: Stats, size: nat): Stats {
    s.(diskFiles := s.diskFiles + 1, diskUsage := s.diskUsage + size)
  }

  function DiskRemoved(s: Stats, size: nat): Stats {
    s.(diskFiles := Clamp(s.diskFiles - 1), diskUsage := Clamp(s.diskUsage - size))
  }

  function MemoryAdded(s: Stats, size: nat): Stats {
    s.(memoryBuffers := s.memoryBuffers + 1, memoryUsage := s.memoryUsage + size)
  }

  function MemoryRemoved(s: Stats, size: nat): Stats {
    s.(memoryBuffers := s.memoryBuffers - 1, memoryUsage := s.memoryUsage - size)
  }

  // ----- Opening a body

  /** How much of a body a reader limited to `maxBytes + 1` bytes gives; the sum is an int64. */
  function Taken(length: nat, maxBytes: int): (r: nat)
    ensures r <= length
  {
    var limit := Int64(maxBytes + 1);
    if limit <= 0 then 0 else if length <= limit then length else limit
  }

  /** Kept on disk by `CreateBodyStorage`. */
  predicate GoesToDisk(config: Config, stats: Stats, size: nat) {
    config.enabled && size >= Threshold(config) && Available(config, stats, size)
  }

  /** Sent straight to disk for its declared length. */
  predicate DeclaredForDisk(config: Config, stats: Stats, declared: int) {
    config.enabled && declared > 0 && declared >= Threshold(config) && Available(config, stats, declared)
  }

  datatype Opening = TooLarge | Opened(disk: bool, size: nat)

  function Open(config: Config, stats: Stats, length: nat, declared: int, maxBytes: int): Opening {
    var taken := Taken(length, maxBytes);
    if taken > maxBytes then TooLarge
    else Opened(DeclaredForDisk(config, stats, declared) || GoesToDisk(config, stats, taken), taken)
  }

  function StatsAfter(stats: Stats, opening: Opening): Stats {
    match opening
    case TooLarge => stats
    case Opened(true, size) => var s := DiskAdded(stats, size); s.(diskHits := s.diskHits + 1)
    case Opened(false, size) => var s := MemoryAdded(stats, size); s.(memoryHits := s.memoryHits + 1)
  }

  const MAX_INT64 := TWO_63 - 1

  /** A body is opened whole exactly when it fits, whichever way it goes; the one limit that does
      not work is the greatest int64, under which nothing is read. */
  lemma OpenedWholeExactly(config: Config, stats: Stats, length: nat, declared: int, maxBytes: int)
    requires IsInt64(maxBytes)
    ensures var opening := Open(config, stats, length, declared, maxBytes);
            && (opening.Opened? && opening.size == length <==> length <= maxBytes && (maxBytes < MAX_INT64 || length == 0))
            && (opening.TooLarge? <==> length > maxBytes && maxBytes < MAX_INT64)
  {
    assert maxBytes == MAX_INT64 ==> Int64(maxBytes + 1) == -TWO_63;
  }

  /** No more than one byte beyond the limit is read of a body, and all of it when it is shorter. */
  lemma ReadsAtMost(length: nat, maxBytes: int)
    requires IsInt64(maxBytes)
    ensures Taken(length, maxBytes) ==
      if maxBytes < 0 || maxBytes == MAX_INT64 then 0 else if length <= maxBytes then length else maxBytes + 1
  {
    assert maxBytes == MAX_INT64 ==> Int64(maxBytes + 1) == -TWO_63;
  }

  /** A body that fits is kept on disk exactly when the cache is enabled and either its declared length, if
      there is one, or its length reaches the threshold and fits beside what is stored; one of the two hit
      counters counts it. */
  lemma OpenedOnDiskExactly(config: Config, stats: Stats, length: nat, declared: int, maxBytes: int)
    requires IsInt64(maxBytes) && length <= maxBytes < MAX_INT64
    ensures var opening := Open(config, stats, length, declared, maxBytes);
            var after, disk := StatsAfter(stats, opening), opening.Opened? && opening.disk;
            var free := config.maxSizeMB * 1048576 - stats.diskUsage;
            var byDeclared := declared > 0 && config.thresholdMB * 1048576 <= declared <= free;
            var byLength := config.thresholdMB * 1048576 <= length <= free;
            && opening == Opened(disk, length)
            && (disk <==> config.enabled && (byDeclared || byLength))
            && after.diskHits == stats.diskHits + (if disk then 1 else 0)
            && after.memoryHits == stats.memoryHits + (if disk then 0 else 1)
  {
    OpenedWholeExactly(config, stats, length, declared, maxBytes);
  }

  /** The same for a body that is at hand. */
  lemma KeptOnDiskExactly(config: Config, stats: Stats, size: nat)
    ensures GoesToDisk(config, stats, size) <==>
      config.enabled && size >= config.thresholdMB * 1048576 && stats.diskUsage + size <= config.maxSizeMB * 1048576
  {
  }

  datatype Storage = Memory(memory: MemoryStorage) | Disk(disk: DiskStorage)

  class Cache {
    var config: Config
    var stats: Stats

    constructor (config: Config)
      ensures this.config == config && stats == NO_STATS
    {
      this.config, stats := config, NO_STATS;
    }

    method IncrementDiskFiles(size: nat)
      modifies this`stats
      ensures stats == DiskAdded(old(stats), size)
    {
      stats := stats.(diskFiles := stats.diskFiles + 1);
      stats := stats.(diskUsage := stats.diskUsage + size);
    }

    method DecrementDiskFiles(size: nat)
      modifies this`stats
      ensures stats == DiskRemoved(old(stats), size)
    {
      stats := stats.(diskFiles := stats.diskFiles - 1);
      if stats.diskFiles < 0 {
        stats := stats.(diskFiles := 0);
      }
      stats := stats.(diskUsage := stats.diskUsage - size);
      if stats.diskUsage < 0 {
        stats := stats.(diskUsage := 0);
      }
    }

    method NewMemoryStorage(data: seq<Byte>) returns (m: MemoryStorage)
      modifies this`stats
      ensures fresh(m) && fresh(m.reader) && m.Valid() && m.View() == Body(data, 0, false)
      ensures stats == MemoryAdded(old(stats), |data|)
    {
      stats := stats.(memoryBuffers := stats.memoryBuffers + 1, memoryUsage := stats.memoryUsage + |data|);
      m := new MemoryStorage(data);
    }

    method NewDiskStorage(data: seq<Byte>) returns (d: DiskStorage)
      modifies this`stats
      ensures fresh(d) && fresh(d.file) && d.Valid() && d.View() == Body(data, 0, false)
      ensures stats == DiskAdded(old(stats), |data|)
    {
      var file := new File();
      file.Write(data);
      var _, _ := file.Seek(0, 0);
      IncrementDiskFiles(|data|);
      d := new DiskStorage(file);
    }

    method CreateBodyStorage(data: seq<Byte>) returns (storage: Storage)
      modifies this`stats
      ensures storage.Disk? <==> GoesToDisk(config, old(stats), |data|)
      ensures match storage
              case Memory(m) => fresh(m) && fresh(m.reader) && m.Valid() && m.View() == Body(data, 0, false)
              case Disk(d) => fresh(d) && fresh(d.file) && d.Valid() && d.View() == Body(data, 0, false)
      ensures stats == if storage.Disk? then DiskAdded(old(stats), |data|) else MemoryAdded(old(stats), |data|)
    {
      if config.enabled && |data| >= Threshold(config) && Available(config, stats, |data|) {
        var d := NewDiskStorage(data);
        return Disk(d);
      }
      var m := NewMemoryStorage(data);
      return Memory(m);
    }

    /** `body` is all the reader has to give. */
    method CreateBodyStorageFromReader(body: seq<Byte>, declared: int, maxBytes: int) returns (storage: Option<Storage>)
      modifies this`stats
      ensures stats == StatsAfter(old(stats), Open(config, old(stats), |body|, declared, maxBytes))
      ensures match storage
              case None => Open(config, old(stats), |body|, declared, maxBytes).TooLarge?
              case Some(Memory(m)) =>
                && Open(config, old(stats), |body|, declared, maxBytes) == Opened(false, m.size)
                && fresh(m) && fresh(m.reader) && m.Valid() && m.View() == Body(body[..m.size], 0, false)
              case Some(Disk(d)) =>
                && Open(config, old(stats), |body|, declared, maxBytes) == Opened(true, d.size)
                && fresh(d) && fresh(d.file) && d.Valid() && d.View() == Body(body[..d.size], 0, false)
    {
      var data := body[..Taken(|body|, maxBytes)];
      if config.enabled && declared > 0 && declared >= Threshold(config) && Available(config, stats, declared) {
        if |data| > maxBytes {
          return None;
        }
        var d := NewDiskStorage(data);
        stats := stats.(diskHits := stats.diskHits + 1);
        return Some(Disk(d));
      }
      if |data| > maxBytes {
        return None;
      }
      var created := CreateBodyStorage(data);
      if created.Memory? {
        stats := stats.(memoryHits := stats.memoryHits + 1);
      } else {
        stats := stats.(diskHits := stats.diskHits + 1);
      }
      return Some(created);
    }

    method CloseMemory(m: MemoryStorage)
      requires m.Valid()
      modifies this`stats, m
      ensures m.Valid() && m.View() == old(m.View()).(closed := true)
      ensures stats == if old(m.closed) then old(stats) else MemoryRemoved(old(stats), m.size)
    {
      var first := m.Close();
      if first {
        stats := stats.(memoryBuffers := stats.memoryBuffers - 1, memoryUsage := stats.memoryUsage - m.size);
      }
    }

    method CloseDisk(d: DiskStorage)
      requires d.Valid()
      modifies this`stats, d
      ensures d.Valid() && d.View() == old(d.View()).(closed := true)
      ensures stats == if old(d.closed) then old(stats) else DiskRemoved(old(stats), d.size)
    {
      var first := d.Close();
      if first {
        DecrementDiskFiles(d.size);
      }
    }

    /** One sweep over the cache directory: every file that is old and can be removed is counted
        off with its size. */
    method CleanupOldDiskCacheFiles(files: seq<(nat, int)>, now: int, maxAge: int)
      modifies this`stats
      ensures stats == CleanedUp(old(stats), files, now, maxAge)
    {
      for i := 0 to |files|
        invariant CleanedUp(stats, files[i..], now, maxAge) == CleanedUp(old(stats), files, now, maxAge)
      {
        assert files[i..][1..] == files[i + 1..];
        var (size, modified) := files[i];
        if now - modified > maxAge {
          DecrementDiskFiles(size);
        }
      }
    }
  }

  /** `files` are the sizes and times of the files that can be removed. */
  function CleanedUp(stats: Stats, files: seq<(nat, int)>, now: int, maxAge: int): Stats
    decreases |files|
  {
    if files == [] then stats
    else
      CleanedUp(if now - files[0].1 > maxAge then DiskRemoved(stats, files[0].0) else stats, files[1..], now, maxAge)
  }

  /** The files last written before a time, and what they hold together. */
  function OldFiles(files: seq<(nat, int)>, before: int): nat {
    if files == [] then 0
    else OldFiles(files[..|files| - 1], before) + if files[|files| - 1].1 < before then 1 else 0
  }

  function OldSize(files: seq<(nat, int)>, before: int): nat {
    if files == [] then 0
    else OldSize(files[..|files| - 1], before) + if files[|files| - 1].1 < before then files[|files| - 1].0 else 0
  }

  lemma {:induction false} CleanedFront(stats: Stats, files: seq<(nat, int)>, now: int, maxAge: int)
    requires files != []
    ensures var last, before := files[|files| - 1], CleanedUp(stats, files[..|files| - 1], now, maxAge);
      CleanedUp(stats, files, now, maxAge) == if now - last.1 > maxAge then DiskRemoved(before, last.0) else before
    decreases |files|
  {
    if |files| > 1 {
      var first := if now - files[0].1 > maxAge then DiskRemoved(stats, files[0].0) else stats;
      assert files[1..][..|files| - 2] == files[..|files| - 1][1..];
      CleanedFront(first, files[1..], now, maxAge);
    }
  }

  /** A cleanup takes off the counters, down to zero, exactly the files last written more than `maxAge` ago. */
  lemma {:induction false} CleanupCountsOld(stats: Stats, files: seq<(nat, int)>, now: int, maxAge: int)
    requires stats.diskFiles >= 0 && stats.diskUsage >= 0
    ensures var r, n, size := CleanedUp(stats, files, now, maxAge), OldFiles(files, now - maxAge), OldSize(files, now - maxAge);
      && r.diskFiles == (if n <= stats.diskFiles then stats.diskFiles - n else 0)
      && r.diskUsage == (if size <= stats.diskUsage then stats.diskUsage - size else 0)
      && r == stats.(diskFiles := r.diskFiles, diskUsage := r.diskUsage)
  {
    if files != [] {
      CleanupCountsOld(stats, files[..|files| - 1], now, maxAge);
      CleanedFront(stats, files, now, maxAge);
    }
  }

  /** The events that a cleanup of some files is in a run. */
  function Cleanups(files: seq<(nat, int)>, now: int, maxAge: int): seq<Event> {
    if files == [] then []
    else
      var n := |files| - 1;
      Cleanups(files[..n], now, maxAge) + if now - files[n].1 > maxAge then [CleansUp(files[n].0)] else []
  }

  lemma FromMore(config: Config, w: World, run: seq<Event>, e: Event)
    ensures From(config, w, run + [e]) == Next(config, From(config, w, run), e)
  {
    assert (run + [e])[..|run|] == run;
  }

  lemma {:induction false} CleanupInRun(config: Config, w: World, files: seq<(nat, int)>, now: int, maxAge: int)
    ensures From(config, w, Cleanups(files, now, maxAge)) == w.(stats := CleanedUp(w.stats, files, now, maxAge))
  {
    if files != [] {
      var n := |files| - 1;
      CleanupInRun(config, w, files[..n], now, maxAge);
      CleanedFront(w.stats, files, now, maxAge);
      FromMore(config, w, Cleanups(files[..n], now, maxAge), CleansUp(files[n].0));
      assert Cleanups(files[..n], now, maxAge) + [] == Cleanups(files[..n], now, maxAge);
    }
  }

  // ----- Runs of overlapping opens, closes and cleanups

  datatype Item = Item(disk: bool, size: nat, closed: bool)

  /** A body on its way: sent to disk for its declared length, being read into memory, or, once read,
      being written to disk. The check of the free space lies behind the first and the last. */
  datatype Pending =
    | Declared(reserved: nat, length: nat, maxBytes: int)
    | Reading(length: nat, maxBytes: int)
    | Writing(size: nat)

  datatype World = World(stats: Stats, items: seq<Item>, pending: seq<Pending>)

  const NEW_WORLD := World(NO_STATS, [], [])

  datatype Event =
    | Starts(length: nat, declared: int, maxBytes: int)
    | Continues(body: nat)
    | Closes(item: nat)
    | CleansUp(size: nat)

  function Dropped<T>(xs: seq<T>, k: nat): seq<T>
    requires k < |xs|
  {
    xs[..k] + xs[k + 1..]
  }

  /** The `k`-th body is opened, on disk or in memory. */
  function Finished(w: World, k: nat, disk: bool, size: nat): World
    requires k < |w.pending|
  {
    World(StatsAfter(w.stats, Opened(disk, size)), w.items + [Item(disk, size, false)], Dropped(w.pending, k))
  }

  function Next(config: Config, w: World, e: Event): World {
    match e
    case Starts(length, declared, maxBytes) =>
      var p := if DeclaredForDisk(config, w.stats, declared) then Declared(declared, length, maxBytes) else Reading(length, maxBytes);
      w.(pending := w.pending + [p])
    case Continues(k) => if k < |w.pending| then Continued(config, w, k) else w
    case Closes(i) =>
      if i >= |w.items| || w.items[i].closed then w
      else
        w.(stats := if w.items[i].disk then DiskRemoved(w.stats, w.items[i].size) else MemoryRemoved(w.stats, w.items[i].size),
           items := w.items[i := w.items[i].(closed := true)])
    case CleansUp(size) => w.(stats := DiskRemoved(w.stats, size))
  }

  function Continued(config: Config, w: World, k: nat): World
    requires k < |w.pending|
  {
    match w.pending[k]
    case Declared(_, length, maxBytes) =>
      var taken := Taken(length, maxBytes);
      if taken > maxBytes then w.(pending := Dropped(w.pending, k)) else Finished(w, k, true, taken)
    case Reading(length, maxBytes) =>
      var taken := Taken(length, maxBytes);
      if taken > maxBytes then w.(pending := Dropped(w.pending, k))
      else if GoesToDisk(config, w.stats, taken) then w.(pending := w.pending[k := Writing(taken)])
      else Finished(w, k, false, taken)
    case Writing(size) => Finished(w, k, true, size)
  }

  function From(config: Config, w: World, run: seq<Event>): World {
    if run == [] then w else Next(config, From(config, w, run[..|run| - 1]), run[|run| - 1])
  }

  function After(config: Config, run: seq<Event>): World {
    From(config, NEW_WORLD, run)
  }

  /** Uninterrupted, the steps of one body are `CreateBodyStorageFromReader`. */
  lemma OneAtATime(config: Config, w: World, length: nat, declared: int, maxBytes: int)
    requires w.pending == []
    ensures var start := Next(config, w, Starts(length, declared, maxBytes));
      var mid := Next(config, start, Continues(0));
      var end := Next(config, mid, Continues(0));
      var opening := Open(config, w.stats, length, declared, maxBytes);
      end == World(StatsAfter(w.stats, opening),
                   if opening.TooLarge? then w.items else w.items + [Item(opening.disk, opening.size, false)], [])
  {
  }

  function Held(item: Item, disk: bool): nat {
    if item.disk == disk && !item.closed then 1 else 0
  }

  function HeldSize(item: Item, disk: bool): nat {
    if item.disk == disk && !item.closed then item.size else 0
  }

  /** How many storages of a kind are open. */
  function Count(items: seq<Item>, disk: bool): nat {
    if items == [] then 0 else Count(items[..|items| - 1], disk) + Held(items[|items| - 1], disk)
  }

  /** What the open storages of a kind hold together. */
  function Total(items: seq<Item>, disk: bool): nat {
    if items == [] then 0
    else Total(items[..|items| - 1], disk) + HeldSize(items[|items| - 1], disk)
  }

  lemma {:induction false} Replaced(items: seq<Item>, i: nat, item: Item, disk: bool)
    requires i < |items|
    ensures Count(items[i := item], disk) == Count(items, disk) - Held(items[i], disk) + Held(item, disk)
    ensures Total(items[i := item], disk) == Total(items, disk) - HeldSize(items[i], disk) + HeldSize(item, disk)
  {
    var n := |items| - 1;
    if i < n {
      assert items[i := item][..n] == items[..n][i := item];
      Replaced(items[..n], i, item, disk);
    } else {
      assert items[i := item][..n] == items[..n];
    }
  }

  lemma Appended(items: seq<Item>, item: Item, disk: bool)
    ensures Count(items + [item], disk) == Count(items, disk) + Held(item, disk)
    ensures Total(items + [item], disk) == Total(items, disk) + HeldSize(item, disk)
  {
    assert (items + [item])[..|items|] == items;
  }

  predicate MemoryExact(w: World) {
    w.stats.memoryBuffers == Count(w.items, false) && w.stats.memoryUsage == Total(w.items, false)
  }

  predicate DiskExact(w: World) {
    w.stats.diskFiles == Count(w.items, true) && w.stats.diskUsage == Total(w.items, true)
  }

  predicate DiskBounded(w: World) {
    0 <= w.stats.diskFiles <= Count(w.items, true) && 0 <= w.stats.diskUsage <= Total(w.items, true)
  }

  lemma NextKept(config: Config, w: World, e: Event)
    requires DiskBounded(w) && MemoryExact(w)
    ensures DiskBounded(Next(config, w, e)) && MemoryExact(Next(config, w, e))
    ensures DiskExact(w) && !e.CleansUp? ==> DiskExact(Next(config, w, e))
  {
    match e
    case Starts(_, _, _) =>
    case Continues(k) =>
      if k < |w.pending| {
        ContinuedKept(config, w, k);
      }
    case Closes(i) =>
      if i < |w.items| && !w.items[i].closed {
        ClosedKept(config, w, i);
      }
    case CleansUp(_) =>
  }

  /** A step of a body opens it, or changes nothing but its own record. */
  lemma ContinuedIs(config: Config, w: World, k: nat) returns (finished: bool, disk: bool, size: nat)
    requires k < |w.pending|
    ensures finished ==> Continued(config, w, k) == Finished(w, k, disk, size)
    ensures !finished ==> Continued(config, w, k) == w.(pending := Continued(config, w, k).pending)
  {
    finished, disk, size := false, false, 0;
    match w.pending[k]
    case Declared(_, length, maxBytes) =>
      finished, disk, size := Taken(length, maxBytes) <= maxBytes, true, Taken(length, maxBytes);
    case Reading(length, maxBytes) =>
      size := Taken(length, maxBytes);
      finished := size <= maxBytes && !GoesToDisk(config, w.stats, size);
    case Writing(length) => finished, disk, size := true, true, length;
  }

  lemma ContinuedKept(config: Config, w: World, k: nat)
    requires DiskBounded(w) && MemoryExact(w) && k < |w.pending|
    ensures var next := Continued(config, w, k);
            DiskBounded(next) && MemoryExact(next) && (DiskExact(w) ==> DiskExact(next))
  {
    var finished, disk, size := ContinuedIs(config, w, k);
    if finished {
      FinishedKept(w, k, disk, size);
    }
  }

  lemma FinishedKept(w: World, k: nat, disk: bool, size: nat)
    requires DiskBounded(w) && MemoryExact(w) && k < |w.pending|
    ensures var next := Finished(w, k, disk, size);
            DiskBounded(next) && MemoryExact(next) && (DiskExact(w) ==> DiskExact(next))
  {
    Appended(w.items, Item(disk, size, false), true);
    Appended(w.items, Item(disk, size, false), false);
  }

  lemma ClosedKept(config: Config, w: World, i: nat)
    requires DiskBounded(w) && MemoryExact(w) && i < |w.items| && !w.items[i].closed
    ensures var next := Next(config, w, Closes(i));
            DiskBounded(next) && MemoryExact(next) && (DiskExact(w) ==> DiskExact(next))
  {
    Replaced(w.items, i, w.items[i].(closed := true), true);
    Replaced(w.items, i, w.items[i].(closed := true), false);
  }

  /** Over every run the memory counters are exact, and the disk counters lie between zero and what
      the open disk storages come to. */
  lemma {:induction false} CountersBounded(config: Config, run: seq<Event>)
    ensures MemoryExact(After(config, run)) && DiskBounded(After(config, run))
  {
    if run != [] {
      CountersBounded(config, run[..|run| - 1]);
      NextKept(config, After(config, run[..|run| - 1]), run[|run| - 1]);
    }
  }

  /** How many storages of a kind there have been, open or not. */
  function Ever(items: seq<Item>, disk: bool): nat {
    if items == [] then 0
    else Ever(items[..|items| - 1], disk) + if items[|items| - 1].disk == disk then 1 else 0
  }

  lemma EverAppended(items: seq<Item>, item: Item, disk: bool)
    ensures Ever(items + [item], disk) == Ever(items, disk) + if item.disk == disk then 1 else 0
  {
    assert (items + [item])[..|items|] == items;
  }

  lemma {:induction false} EverReplaced(items: seq<Item>, i: nat, item: Item, disk: bool)
    requires i < |items| && item.disk == items[i].disk
    ensures Ever(items[i := item], disk) == Ever(items, disk)
  {
    var n := |items| - 1;
    if i < n {
      assert items[i := item][..n] == items[..n][i := item];
      EverReplaced(items[..n], i, item, disk);
    } else {
      assert items[i := item][..n] == items[..n];
    }
  }

  predicate HitsCounted(w: World) {
    w.stats.diskHits == Ever(w.items, true) && w.stats.memoryHits == Ever(w.items, false)
  }

  lemma NextHits(config: Config, w: World, e: Event)
    requires HitsCounted(w)
    ensures HitsCounted(Next(config, w, e))
  {
    if e.Continues? && e.body < |w.pending| {
      ContinuedHits(config, w, e.body);
    } else if e.Closes? && e.item < |w.items| {
      EverReplaced(w.items, e.item, w.items[e.item].(closed := true), true);
      EverReplaced(w.items, e.item, w.items[e.item].(closed := true), false);
    }
  }

  lemma ContinuedHits(config: Config, w: World, k: nat)
    requires HitsCounted(w) && k < |w.pending|
    ensures HitsCounted(Continued(config, w, k))
  {
    var finished, disk, size := ContinuedIs(config, w, k);
    if finished {
      EverAppended(w.items, Item(disk, size, false), true);
      EverAppended(w.items, Item(disk, size, false), false);
    }
  }

  /** Over every run, cleanups included, the two hit counters are the numbers of storages opened on disk and
      in memory. */
  lemma {:induction false} HitsExact(config: Config, run: seq<Event>)
    ensures var w := After(config, run);
      w.stats.diskHits == Ever(w.items, true) && w.stats.memoryHits == Ever(w.items, false)
  {
    if run != [] {
      HitsExact(config, run[..|run| - 1]);
      NextHits(config, After(config, run[..|run| - 1]), run[|run| - 1]);
    }
  }

  /** Without cleanups the disk counters are exact too. */
  lemma {:induction false} CountersExact(config: Config, run: seq<Event>)
    requires forall e :: e in run ==> !e.CleansUp?
    ensures DiskExact(After(config, run))
  {
    if run != [] {
      assert run[|run| - 1] in run;
      CountersExact(config, run[..|run| - 1]);
      CountersBounded(config, run[..|run| - 1]);
      NextKept(config, After(config, run[..|run| - 1]), run[|run| - 1]);
    }
  }

  /** ... so a close never brings a counter below zero and the clamp does nothing. */
  lemma ClampNeverFires(config: Config, run: seq<Event>, i: nat)
    requires forall e :: e in run ==> !e.CleansUp?
    requires var items := After(config, run).items; i < |items| && items[i].disk && !items[i].closed
    ensures var w := After(config, run);
            && w.stats.diskFiles >= 1 && w.stats.diskUsage >= w.items[i].size
            && Next(config, w, Closes(i)).stats
               == w.stats.(diskFiles := w.stats.diskFiles - 1, diskUsage := w.stats.diskUsage - w.items[i].size)
  {
    var w := After(config, run);
    CountersExact(config, run);
    Replaced(w.items, i, w.items[i].(closed := true), true);
  }

  lemma {:induction false} NoneHeld(items: seq<Item>, disk: bool)
    requires Count(items, disk) == 0
    ensures Total(items, disk) == 0
  {
    if items != [] {
      NoneHeld(items[..|items| - 1], disk);
    }
  }

  /** A cleanup step leaves exact counters exact only when no disk storage is open. */
  lemma CleanupExactly(config: Config, w: World, size: nat)
    requires DiskExact(w)
    ensures DiskExact(Next(config, w, CleansUp(size))) <==> Count(w.items, true) == 0
  {
    if Count(w.items, true) == 0 {
      NoneHeld(w.items, true);
    }
  }

  /** The counters are short by the one open storage whose file was cleaned up. */
  predicate ShortBy(w: World, i: nat) {
    && i < |w.items| && w.items[i].disk && !w.items[i].closed
    && w.stats.diskFiles == Count(w.items, true) - 1 && w.stats.diskUsage == Total(w.items, true) - w.items[i].size
  }

  lemma {:induction false} TwoHeld(items: seq<Item>, i: nat, j: nat)
    requires i < |items| && j < |items| && i != j && Held(items[i], true) == 1 && Held(items[j], true) == 1
    ensures Count(items, true) >= 2 && Total(items, true) >= items[i].size + items[j].size
  {
    var rest := items[i := items[i].(closed := true)];
    Replaced(items, i, rest[i], true);
    Replaced(rest, j, rest[j].(closed := true), true);
  }

  lemma ShortKept(config: Config, w: World, i: nat, e: Event)
    requires ShortBy(w, i) && !e.CleansUp? && e != Closes(i)
    ensures ShortBy(Next(config, w, e), i)
  {
    match e
    case Starts(_, _, _) =>
    case Continues(k) =>
      if k < |w.pending| {
        ShortContinued(config, w, i, k);
      }
    case Closes(j) =>
      if j < |w.items| && !w.items[j].closed {
        Replaced(w.items, j, w.items[j].(closed := true), true);
        if w.items[j].disk {
          TwoHeld(w.items, i, j);
        }
      }
  }

  lemma ShortFinished(w: World, i: nat, k: nat, disk: bool, size: nat)
    requires ShortBy(w, i) && k < |w.pending|
    ensures ShortBy(Finished(w, k, disk, size), i)
  {
    Appended(w.items, Item(disk, size, false), true);
  }

  lemma ShortContinued(config: Config, w: World, i: nat, k: nat)
    requires ShortBy(w, i) && k < |w.pending|
    ensures ShortBy(Continued(config, w, k), i)
  {
    var finished, disk, size := ContinuedIs(config, w, k);
    if finished {
      ShortFinished(w, i, k, disk, size);
    }
  }

  lemma {:induction false} StaysShort(config: Config, w: World, i: nat, run: seq<Event>)
    requires ShortBy(w, i) && forall e :: e in run ==> !e.CleansUp? && e != Closes(i)
    ensures ShortBy(From(config, w, run), i)
  {
    if run != [] {
      assert run[|run| - 1] in run;
      StaysShort(config, w, i, run[..|run| - 1]);
      ShortKept(config, From(config, w, run[..|run| - 1]), i, run[|run| - 1]);
    }
  }

  /** When a cleanup removes the file of an open storage, and the storage is closed after any further
      opens and closes, it is counted off twice. The clamp hides that exactly when no other disk storage
      is open at that close. */
  lemma CleanedThenClosed(config: Config, w: World, i: nat, run: seq<Event>)
    requires DiskExact(w) && i < |w.items| && w.items[i].disk && !w.items[i].closed
    requires forall e :: e in run ==> !e.CleansUp? && e != Closes(i)
    ensures var later := From(config, Next(config, w, CleansUp(w.items[i].size)), run);
            DiskExact(Next(config, later, Closes(i))) <==> Count(later.items, true) == 1
  {
    Replaced(w.items, i, w.items[i].(closed := true), true);
    StaysShort(config, Next(config, w, CleansUp(w.items[i].size)), i, run);
    var later := From(config, Next(config, w, CleansUp(w.items[i].size)), run);
    var items := later.items[i := later.items[i].(closed := true)];
    Replaced(later.items, i, items[i], true);
    if Count(later.items, true) == 1 {
      NoneHeld(items, true);
    }
  }

  /** Closing twice is closing once. */
  lemma CloseTwice(config: Config, w: World, i: nat)
    ensures Next(config, Next(config, w, Closes(i)), Closes(i)) == Next(config, w, Closes(i))
  {
  }

  // ----- The usage limit

  predicate NotUnderdeclared(e: Event) {
    e.Starts? && e.declared > 0 ==> e.length <= e.declared
  }

  /** What has passed the check of the free space and is not counted yet. */
  function Reserved(p: Pending): nat {
    match p
    case Declared(reserved, _, _) => reserved
    case Reading(_, _) => 0
    case Writing(size) => size
  }

  function InFlight(pending: seq<Pending>): nat {
    if pending == [] then 0 else InFlight(pending[..|pending| - 1]) + Reserved(pending[|pending| - 1])
  }

  lemma InFlightAppended(pending: seq<Pending>, p: Pending)
    ensures InFlight(pending + [p]) == InFlight(pending) + Reserved(p)
  {
    assert (pending + [p])[..|pending|] == pending;
  }

  lemma {:induction false} InFlightReplaced(pending: seq<Pending>, k: nat, p: Pending)
    requires k < |pending|
    ensures InFlight(pending[k := p]) == InFlight(pending) - Reserved(pending[k]) + Reserved(p)
    ensures InFlight(Dropped(pending, k)) == InFlight(pending) - Reserved(pending[k])
  {
    var n := |pending| - 1;
    var front := pending[..n];
    if k < n {
      InFlightReplaced(front, k, p);
      assert pending[k := p][..n] == front[k := p];
      assert Dropped(pending, k)[..n - 1] == Dropped(front, k);
    } else {
      assert pending[k := p][..n] == front;
      assert Dropped(pending, k) == front;
    }
  }

  /** The event is one that passes the check of the free space. */
  predicate Admits(config: Config, w: World, e: Event) {
    || (e.Starts? && DeclaredForDisk(config, w.stats, e.declared))
    || (e.Continues? && e.body < |w.pending| && w.pending[e.body].Reading?
        && GoesToDisk(config, w.stats, Taken(w.pending[e.body].length, w.pending[e.body].maxBytes)))
  }

  /** Whenever a body is admitted, at most `peak` bytes are in flight beside it. */
  predicate Beside(config: Config, run: seq<Event>, peak: nat) {
    run != [] ==>
      var front := run[..|run| - 1];
      && Beside(config, front, peak)
      && (Admits(config, After(config, front), run[|run| - 1]) ==> InFlight(After(config, front).pending) <= peak)
  }

  predicate Fits(p: Pending) {
    p.Declared? ==> p.length <= p.reserved
  }

  /** No more than the maximum, and what was in flight beside an admitted body. */
  predicate WithinBound(config: Config, w: World, peak: nat) {
    && w.stats.diskUsage >= 0
    && w.stats.diskUsage + InFlight(w.pending) <= MaxSize(config) + peak
    && forall k :: 0 <= k < |w.pending| ==> Fits(w.pending[k])
  }

  lemma BoundKept(config: Config, w: World, e: Event, peak: nat)
    requires WithinBound(config, w, peak) && NotUnderdeclared(e)
    requires Admits(config, w, e) ==> InFlight(w.pending) <= peak
    ensures WithinBound(config, Next(config, w, e), peak)
  {
    match e
    case Starts(length, declared, maxBytes) =>
      InFlightAppended(w.pending, Next(config, w, e).pending[|w.pending|]);
    case Continues(k) =>
      if k < |w.pending| {
        BoundContinued(config, w, k, peak);
      }
    case _ =>
  }

  lemma BoundContinued(config: Config, w: World, k: nat, peak: nat)
    requires WithinBound(config, w, peak) && k < |w.pending|
    requires Admits(config, w, Continues(k)) ==> InFlight(w.pending) <= peak
    ensures WithinBound(config, Continued(config, w, k), peak)
  {
    assert Fits(w.pending[k]);
    match w.pending[k]
    case Declared(_, _, _) => InFlightReplaced(w.pending, k, w.pending[k]);
    case Reading(length, maxBytes) => InFlightReplaced(w.pending, k, Writing(Taken(length, maxBytes)));
    case Writing(_) => InFlightReplaced(w.pending, k, w.pending[k]);
  }

  /** While no body is longer than declared, the disk usage exceeds the maximum at most by what was in
      flight when another body was admitted. */
  lemma {:induction false} UsageBound(config: Config, run: seq<Event>, peak: nat)
    requires MaxSize(config) >= 0 && (forall e :: e in run ==> NotUnderdeclared(e)) && Beside(config, run, peak)
    ensures WithinBound(config, After(config, run), peak)
  {
    if run != [] {
      assert run[|run| - 1] in run;
      UsageBound(config, run[..|run| - 1], peak);
      BoundKept(config, After(config, run[..|run| - 1]), run[|run| - 1], peak);
    }
  }

  /** No body is started while another is on its way. */
  predicate OneAfterAnother(config: Config, run: seq<Event>) {
    run != [] ==>
      var front := run[..|run| - 1];
      OneAfterAnother(config, front) && (run[|run| - 1].Starts? ==> After(config, front).pending == [])
  }

  lemma PendingStep(config: Config, w: World, e: Event)
    requires |w.pending| <= 1 && (e.Starts? ==> w.pending == [])
    ensures |Next(config, w, e).pending| <= 1
    ensures Admits(config, w, e) ==> InFlight(w.pending) == 0
  {
    if |w.pending| == 1 {
      assert w.pending[..0] == [];
    }
  }

  lemma {:induction false} NothingBeside(config: Config, run: seq<Event>)
    requires OneAfterAnother(config, run)
    ensures |After(config, run).pending| <= 1 && Beside(config, run, 0)
  {
    if run != [] {
      NothingBeside(config, run[..|run| - 1]);
      PendingStep(config, After(config, run[..|run| - 1]), run[|run| - 1]);
    }
  }

  /** So with bodies opened one after another and none longer than declared, the disk usage stays within
      the maximum. */
  lemma UsageWithinMaximum(config: Config, run: seq<Event>)
    requires MaxSize(config) >= 0 && (forall e :: e in run ==> NotUnderdeclared(e)) && OneAfterAnother(config, run)
    ensures After(config, run).stats.diskUsage <= MaxSize(config)
  {
    NothingBeside(config, run);
    UsageBound(config, run, 0);
  }

  lemma AfterMore(config: Config, run: seq<Event>, e: Event)
    ensures After(config, run + [e]) == Next(config, After(config, run), e)
  {
    FromMore(config, NEW_WORLD, run, e);
  }

  lemma BesideMore(config: Config, run: seq<Event>, e: Event, peak: nat)
    requires Beside(config, run, peak)
    requires Admits(config, After(config, run), e) ==> InFlight(After(config, run).pending) <= peak
    ensures Beside(config, run + [e], peak)
  {
    assert (run + [e])[..|run|] == run;
  }

  lemma OneAdmitted(config: Config, max: nat, maxBytes: int)
    requires DeclaredForDisk(config, NO_STATS, max)
    ensures After(config, [Starts(max, max, maxBytes)]) == World(NO_STATS, [], [Declared(max, max, maxBytes)])
    ensures Beside(config, [Starts(max, max, maxBytes)], max)
  {
    var run := [Starts(max, max, maxBytes)];
    assert run[..0] == [];
    assert From(config, NEW_WORLD, []) == NEW_WORLD;
    assert From(config, NEW_WORLD, run) == Next(config, NEW_WORLD, run[0]);
    assert Beside(config, [], max) && InFlight(NEW_WORLD.pending) == 0;
  }

  /** Both are admitted before either is counted. */
  lemma BothAdmitted(config: Config, max: nat, maxBytes: int)
    requires DeclaredForDisk(config, NO_STATS, max)
    ensures var full, p := Starts(max, max, maxBytes), Declared(max, max, maxBytes);
      && After(config, [full] + [full]) == World(NO_STATS, [], [p] + [p])
      && Beside(config, [full] + [full], max)
  {
    var full, p := Starts(max, max, maxBytes), Declared(max, max, maxBytes);
    OneAdmitted(config, max, maxBytes);
    AfterMore(config, [full], full);
    InFlightAppended([], p);
    assert [] + [p] == [p];
    BesideMore(config, [full], full, max);
  }

  /** Two bodies that overlap may both be admitted, and the bound is reached. */
  lemma OverlapExceeds(config: Config, maxBytes: int)
    requires config.enabled && 0 < MaxSize(config) <= maxBytes < MAX_INT64 && Threshold(config) <= MaxSize(config)
    ensures var full := Starts(MaxSize(config), MaxSize(config), maxBytes);
      var run := [full] + [full] + [Continues(0)] + [Continues(0)];
      && NotUnderdeclared(full) && Beside(config, run, MaxSize(config))
      && After(config, run).stats.diskUsage == MaxSize(config) + MaxSize(config)
  {
    var max := MaxSize(config);
    var full, p := Starts(max, max, maxBytes), Declared(max, max, maxBytes);
    var both := [full] + [full];
    BothAdmitted(config, max, maxBytes);
    OpenedWholeExactly(config, NO_STATS, max, max, maxBytes);
    AfterMore(config, both, Continues(0));
    BesideMore(config, both, Continues(0), max);
    assert Dropped([p] + [p], 0) == [p];
    AfterMore(config, both + [Continues(0)], Continues(0));
    BesideMore(config, both + [Continues(0)], Continues(0), max);
  }

  /** From any usage within the maximum, opening one body exceeds it exactly when the body is sent to
      disk for its declared length and is longer than the space left. */
  lemma OpenExceedsExactly(config: Config, stats: Stats, length: nat, declared: int, maxBytes: int)
    requires stats.diskUsage <= MaxSize(config)
    ensures var opening := Open(config, stats, length, declared, maxBytes);
      StatsAfter(stats, opening).diskUsage > MaxSize(config) <==>
        opening.Opened? && DeclaredForDisk(config, stats, declared) && stats.diskUsage + opening.size > MaxSize(config)
  {
  }

  /** One longer than declared may exceed it, by as much as the request limit allows. */
  lemma UnderdeclaredExceeds(config: Config, length: nat, declared: int, maxBytes: int)
    requires DeclaredForDisk(config, NO_STATS, declared)
    requires MaxSize(config) < length <= maxBytes < MAX_INT64
    ensures After(config, [Starts(length, declared, maxBytes), Continues(0)]).stats.diskUsage > MaxSize(config)
  {
    var start := Starts(length, declared, maxBytes);
    AfterMore(config, [], start);
    AfterMore(config, [start], Continues(0));
    assert [] + [start] == [start] && [start] + [Continues(0)] == [start, Continues(0)];
    OpenedWholeExactly(config, NO_STATS, length, declared, maxBytes);
  }
}
