/** The in-memory rate limiter: a bounded queue per key and a sweeper that forgets idle keys,
    against the full log of grants. */
module RateLimiter {
  import opened Lists

  /** What `Request` does to the queues: the verdict and the new queues. */
  function RequestStep(store: map<string, seq<int>>, key: string, limit: nat, duration: int, now: int): (bool, map<string, seq<int>>)
    requires NoEmptyQueue(store)
  {
    if key in store then
      var queue := store[key];
      if |queue| < limit then (true, store[key := queue + [now]])
      else if now - queue[0] >= duration then (true, store[key := queue[1..] + [now]])
      else (false, store)
    else (true, store[key := [now]])
  }

  predicate NoEmptyQueue(store: map<string, seq<int>>) {
    forall key :: key in store ==> store[key] != []
  }

  predicate Expired(queue: seq<int>, expiration: int, now: int) {
    |queue| == 0 || now - queue[|queue| - 1] > expiration
  }

  /** What one round of `clearExpiredItems` leaves. */
  function SweepStep(store: map<string, seq<int>>, expiration: int, now: int): map<string, seq<int>> {
    map key | key in store && !Expired(store[key], expiration, now) :: store[key]
  }

  class InMemoryRateLimiter {
    var store: map<string, seq<int>>
    const expiration: int

    predicate Valid()
      reads this
    {
      NoEmptyQueue(store)
    }

    constructor (expiration: int)
      ensures Valid() && store == map[] && this.expiration == expiration
    {
      this.expiration := expiration;
      store := map[];
    }

    method Request(key: string, limit: nat, duration: int, now: int) returns (granted: bool)
      requires Valid()
      modifies this
      ensures Valid()
      ensures (granted, store) == RequestStep(old(store), key, limit, duration, now)
    {
      if key in store {
        var queue := store[key];
        if |queue| < limit {
          store := store[key := queue + [now]];
          return true;
        } else if now - queue[0] >= duration {
          queue := queue[1..];
          store := store[key := queue + [now]];
          return true;
        } else {
          return false;
        }
      } else {
        var queue := [];
        queue := queue + [now];
        assert queue == [now];
        store := store[key := queue];
      }
      return true;
    }

    /** One round of the sweeper, over the keys in any order. */
    method ClearExpiredItems(now: int)
      requires Valid()
      modifies this
      ensures Valid()
      ensures store == SweepStep(old(store), expiration, now)
    {
      ghost var before := store;
      var todo := store.Keys;
      while todo != {}
        invariant todo <= before.Keys
        invariant forall key :: key in store <==> key in before && (key in todo || !Expired(before[key], expiration, now))
        invariant forall key :: key in store ==> store[key] == before[key]
        decreases todo
      {
        var key := Any(todo);
        todo := todo - {key};
        var queue := store[key];
        if |queue| == 0 || now - queue[|queue| - 1] > expiration {
          store := store - {key};
        }
      }
      assert store.Keys == SweepStep(before, expiration, now).Keys;
    }
  }

  // ----- Runs

  /** Every request brings its own limit and duration: one key is asked about under the limits of
      whichever group the caller belongs to. */
  datatype Event = Request(key: string, limit: nat, duration: int, time: int) | Sweep(time: int)

  /** The sweeper runs, forgetting what is older than the expiration in whole seconds, unless `Init`
      was given none. */
  datatype Config = Config(sweeping: bool, expiration: nat)

  datatype Run = Run(store: map<string, seq<int>>, verdicts: seq<bool>)

  function After(c: Config, before: Run, e: Event): (r: Run)
    requires NoEmptyQueue(before.store)
    ensures NoEmptyQueue(r.store) && |r.verdicts| == |before.verdicts| + 1
  {
    match e
    case Request(key, limit, duration, time) =>
      var (granted, store) := RequestStep(before.store, key, limit, duration, time);
      Run(store, before.verdicts + [granted])
    case Sweep(time) =>
      Run(if c.sweeping then SweepStep(before.store, c.expiration, time) else before.store, before.verdicts + [false])
  }

  /** The limiter's queues and verdicts after a list of events; a sweep has the verdict false. */
  function Implementation(c: Config, events: seq<Event>): (r: Run)
    ensures NoEmptyQueue(r.store) && |r.verdicts| == |events|
  {
    if events == [] then Run(map[], [])
    else After(c, Implementation(c, events[..|events| - 1]), events[|events| - 1])
  }

  /** The times at which `key` was granted. */
  function Grants(events: seq<Event>, verdicts: seq<bool>, key: string): seq<int>
    requires |events| == |verdicts|
  {
    if events == [] then []
    else
      var n := |events| - 1;
      var earlier := Grants(events[..n], verdicts[..n], key);
      if events[n].Request? && events[n].key == key && verdicts[n] then earlier + [events[n].time] else earlier
  }

  /** How many of the logged times are less than `duration` before `now`. */
  function Recent(log: seq<int>, now: int, duration: int): (n: nat)
    ensures n <= |log|
  {
    if log == [] then 0
    else Recent(log[..|log| - 1], now, duration) + if now - log[|log| - 1] < duration then 1 else 0
  }

  /** The limit in force: a limit of zero still lets one request through. */
  function Allowed(limit: nat): nat {
    if limit == 0 then 1 else limit
  }

  /** The specification: a request is granted when fewer than its limit were granted for its key
      within its last `duration` seconds, looking at the whole log. */
  function Specification(c: Config, events: seq<Event>): (verdicts: seq<bool>)
    ensures |verdicts| == |events|
  {
    if events == [] then []
    else
      var n := |events| - 1;
      var before := Specification(c, events[..n]);
      before + [LogGrants(events[..n], before, events[n])]
  }

  predicate LogGrants(events: seq<Event>, verdicts: seq<bool>, e: Event)
    requires |events| == |verdicts|
  {
    e.Request? && Recent(Grants(events, verdicts, e.key), e.time, e.duration) < Allowed(e.limit)
  }

  predicate Ordered(events: seq<Event>) {
    forall i, j :: 0 <= i <= j < |events| ==> events[i].time <= events[j].time
  }

  /** Nothing of the run lies after `clock`. */
  predicate Until(events: seq<Event>, clock: int) {
    Ordered(events) && forall i :: 0 <= i < |events| ==> events[i].time <= clock
  }

  // ----- Counting in the log

  /** `Recent` counts the positions of the log in the window, each once. */
  lemma {:induction false} RecentCounts(log: seq<int>, now: int, duration: int)
    ensures Recent(log, now, duration) == |set i | 0 <= i < |log| && now - log[i] < duration|
  {
    if log != [] {
      var n := |log| - 1;
      var all := set i | 0 <= i < |log| && now - log[i] < duration;
      var front := set i | 0 <= i < |log[..n]| && now - log[..n][i] < duration;
      RecentCounts(log[..n], now, duration);
      assert all == if now - log[n] < duration then front + {n} else front;
    }
  }

  lemma {:induction false} RecentConcat(a: seq<int>, b: seq<int>, now: int, duration: int)
    ensures Recent(a + b, now, duration) == Recent(a, now, duration) + Recent(b, now, duration)
  {
    if b == [] {
      assert a + b == a;
    } else {
      assert (a + b)[..|a + b| - 1] == a + b[..|b| - 1];
      RecentConcat(a, b[..|b| - 1], now, duration);
    }
  }

  lemma {:induction false} RecentNone(log: seq<int>, now: int, duration: int)
    requires forall i :: 0 <= i < |log| ==> now - log[i] >= duration
    ensures Recent(log, now, duration) == 0
  {
    if log != [] {
      RecentNone(log[..|log| - 1], now, duration);
    }
  }

  lemma {:induction false} RecentAll(log: seq<int>, now: int, duration: int)
    requires forall i :: 0 <= i < |log| ==> now - log[i] < duration
    ensures Recent(log, now, duration) == |log|
  {
    if log != [] {
      RecentAll(log[..|log| - 1], now, duration);
    }
  }

  lemma {:induction false} RecentShorter(log: seq<int>, now: int, shorter: int, duration: int)
    requires shorter <= duration
    ensures Recent(log, now, shorter) <= Recent(log, now, duration)
  {
    if log != [] {
      RecentShorter(log[..|log| - 1], now, shorter, duration);
    }
  }

  predicate Sorted(log: seq<int>) {
    forall i, j :: 0 <= i <= j < |log| ==> log[i] <= log[j]
  }

  /** At least `n` are in the window exactly when the `n`-th newest is. */
  lemma RecentAtLeast(log: seq<int>, n: nat, now: int, duration: int)
    requires Sorted(log) && n > 0
    ensures Recent(log, now, duration) >= n <==> n <= |log| && now - log[|log| - n] < duration
  {
    if n <= |log| {
      var k := |log| - n;
      assert log == log[..k] + log[k..];
      RecentConcat(log[..k], log[k..], now, duration);
      if now - log[k] < duration {
        NewerAreIn(log, k, now, duration);
      } else {
        assert log == log[..k + 1] + log[k + 1..];
        RecentConcat(log[..k + 1], log[k + 1..], now, duration);
        OlderAreOut(log, k, now, duration);
      }
    }
  }

  /** With one grant out of the window all up to it are. */
  lemma OlderAreOut(log: seq<int>, k: nat, now: int, duration: int)
    requires Sorted(log) && k < |log| && now - log[k] >= duration
    ensures Recent(log[..k + 1], now, duration) == 0
  {
    assert forall i :: 0 <= i <= k ==> log[i] <= log[k];
    RecentNone(log[..k + 1], now, duration);
  }

  /** With one grant in the window all from it on are. */
  lemma NewerAreIn(log: seq<int>, k: nat, now: int, duration: int)
    requires Sorted(log) && k < |log| && now - log[k] < duration
    ensures Recent(log[k..], now, duration) == |log| - k
  {
    forall i | 0 <= i < |log[k..]| ensures now - log[k..][i] < duration {
      assert log[k] <= log[k + i];
    }
    RecentAll(log[k..], now, duration);
  }

  // ----- One queue and one request

  function Queue(r: Run, key: string): seq<int> {
    if key in r.store then r.store[key] else []
  }

  predicate Granted(queue: seq<int>, limit: nat, duration: int, now: int) {
    queue == [] || |queue| < limit || now - queue[0] >= duration
  }

  function QueueAfter(queue: seq<int>, limit: nat, duration: int, now: int): seq<int> {
    if queue == [] || |queue| < limit then queue + [now]
    else if now - queue[0] >= duration then queue[1..] + [now]
    else queue
  }

  /** The queue is the newest part of the log of grants. */
  predicate Newest(queue: seq<int>, log: seq<int>, clock: int) {
    && Sorted(log) && (forall i :: 0 <= i < |log| ==> log[i] <= clock)
    && |queue| <= |log| && queue == log[|log| - |queue|..]
  }

  /** What the queue leaves out of the log is at least `age` old. */
  predicate LeftOutIsOld(queue: seq<int>, log: seq<int>, age: int, clock: int) {
    forall i :: 0 <= i < |log| - |queue| ==> clock - log[i] >= age
  }

  /** Whatever the queue has forgotten, the limiter never refuses what the log grants. */
  lemma RefusedByLog(queue: seq<int>, log: seq<int>, limit: nat, duration: int, now: int)
    requires Newest(queue, log, now) && !Granted(queue, limit, duration, now)
    ensures Recent(log, now, duration) >= Allowed(limit)
  {
    RecentAtLeast(log, |queue|, now, duration);
  }

  /** The queue holds more than the limit, its oldest entry is out of the window, but as many as the
      limit are in it: a queue filled under a higher limit. */
  predicate Slips(queue: seq<int>, limit: nat, duration: int, now: int) {
    && |queue| > Allowed(limit) && now - queue[0] >= duration
    && now - queue[|queue| - Allowed(limit)] < duration
  }

  lemma LeftOutDoesNotCount(queue: seq<int>, log: seq<int>, duration: int, now: int)
    requires Newest(queue, log, now) && LeftOutIsOld(queue, log, duration, now)
    ensures Recent(log, now, duration) == Recent(queue, now, duration)
  {
    var k := |log| - |queue|;
    assert log == log[..k] + queue;
    RecentConcat(log[..k], queue, now, duration);
    RecentNone(log[..k], now, duration);
  }

  /** When all that the queue leaves out is out of the window, a request is granted against the log
      exactly when it slips. */
  lemma SlipsExactly(queue: seq<int>, log: seq<int>, limit: nat, duration: int, now: int)
    requires Newest(queue, log, now) && LeftOutIsOld(queue, log, duration, now)
    ensures Granted(queue, limit, duration, now) && Recent(log, now, duration) >= Allowed(limit)
      <==> Slips(queue, limit, duration, now)
  {
    LeftOutDoesNotCount(queue, log, duration, now);
    SuffixSorted(log, |log| - |queue|);
    RecentAtLeast(queue, Allowed(limit), now, duration);
  }

  lemma SuffixSorted(log: seq<int>, k: nat)
    requires Sorted(log) && k <= |log|
    ensures Sorted(log[k..])
  {
  }

  /** A queue as long as the limit decides as the log does, whatever it leaves out; a shorter one does
      when that is out of the window. */
  lemma FullOrComplete(queue: seq<int>, log: seq<int>, limit: nat, duration: int, now: int)
    requires Newest(queue, log, now) && |queue| <= Allowed(limit)
    requires |queue| < Allowed(limit) ==> LeftOutIsOld(queue, log, duration, now)
    ensures Granted(queue, limit, duration, now) <==> Recent(log, now, duration) < Allowed(limit)
  {
    if |queue| < Allowed(limit) {
      LeftOutDoesNotCount(queue, log, duration, now);
    } else {
      RecentAtLeast(log, |queue|, now, duration);
    }
  }

  // ----- What holds of every queue after every run

  lemma RequestShows(before: Run, e: Event, c: Config)
    requires NoEmptyQueue(before.store) && e.Request?
    ensures var r, queue := After(c, before, e), Queue(before, e.key);
      && r.verdicts == before.verdicts + [Granted(queue, e.limit, e.duration, e.time)]
      && Queue(r, e.key) == QueueAfter(queue, e.limit, e.duration, e.time)
      && forall key :: key != e.key ==> Queue(r, key) == Queue(before, key)
  {
  }

  lemma SweepShows(before: Run, e: Event, c: Config)
    requires NoEmptyQueue(before.store) && e.Sweep?
    ensures var r := After(c, before, e);
      && r.verdicts == before.verdicts + [false]
      && forall key :: Queue(r, key) ==
           if c.sweeping && Expired(Queue(before, key), c.expiration, e.time) then [] else Queue(before, key)
  {
  }

  /** The log of actual grants. */
  function Log(c: Config, events: seq<Event>, key: string): seq<int> {
    Grants(events, Implementation(c, events).verdicts, key)
  }

  lemma LogStep(c: Config, events: seq<Event>, key: string)
    requires events != []
    ensures var n := |events| - 1;
      var e, front, r := events[n], events[..n], Implementation(c, events);
      && r == After(c, Implementation(c, front), e) && r.verdicts[..n] == Implementation(c, front).verdicts
      && Log(c, events, key) == Log(c, front, key)
           + if e.Request? && e.key == key && r.verdicts[n] then [e.time] else []
  {
  }

  /** How one event moves the queue and the log of one key. */
  predicate Moves(c: Config, e: Event, key: string, queue: seq<int>, log: seq<int>, queue': seq<int>, log': seq<int>) {
    if e.Request? && e.key == key then
      && queue' == QueueAfter(queue, e.limit, e.duration, e.time)
      && log' == log + if Granted(queue, e.limit, e.duration, e.time) then [e.time] else []
    else
      && log' == log
      && queue' == if e.Sweep? && c.sweeping && Expired(queue, c.expiration, e.time) then [] else queue
  }

  lemma KeyMoves(c: Config, events: seq<Event>, key: string)
    requires events != []
    ensures var front := events[..|events| - 1];
      Moves(c, events[|events| - 1], key,
            Queue(Implementation(c, front), key), Log(c, front, key),
            Queue(Implementation(c, events), key), Log(c, events, key))
  {
    var n := |events| - 1;
    var e, before := events[n], Implementation(c, events[..n]);
    LogStep(c, events, key);
    if e.Request? {
      RequestShows(before, e, c);
    } else {
      SweepShows(before, e, c);
    }
  }

  lemma NewestMoves(c: Config, e: Event, key: string, queue: seq<int>, log: seq<int>, queue': seq<int>, log': seq<int>)
    requires Moves(c, e, key, queue, log, queue', log') && Newest(queue, log, e.time)
    ensures Newest(queue', log', e.time)
  {
  }

  /** Over every run, whatever the limits, durations and sweeps, a queue is the newest part of the log. */
  lemma {:induction false} QueueIsNewest(c: Config, events: seq<Event>, key: string, clock: int)
    requires Until(events, clock)
    ensures Newest(Queue(Implementation(c, events), key), Log(c, events, key), clock)
  {
    if events != [] {
      var front, e := events[..|events| - 1], events[|events| - 1];
      QueueIsNewest(c, front, key, e.time);
      KeyMoves(c, events, key);
      NewestMoves(c, e, key, Queue(Implementation(c, front), key), Log(c, front, key),
                  Queue(Implementation(c, events), key), Log(c, events, key));
    }
  }

  /** A key with grants is only without a queue when the last of them is older than the expiration. */
  predicate EmptyIsOld(c: Config, queue: seq<int>, log: seq<int>, clock: int) {
    queue == [] && log != [] ==> c.sweeping && log[|log| - 1] + c.expiration < clock
  }

  lemma EmptyMoves(c: Config, e: Event, key: string, queue: seq<int>, log: seq<int>, queue': seq<int>, log': seq<int>)
    requires Moves(c, e, key, queue, log, queue', log') && Newest(queue, log, e.time)
    requires EmptyIsOld(c, queue, log, e.time)
    ensures EmptyIsOld(c, queue', log', e.time)
  {
    if queue != [] {
      assert queue[|queue| - 1] == log[|log| - 1];
    }
  }

  lemma {:induction false} EmptyStaysOld(c: Config, events: seq<Event>, key: string, clock: int)
    requires Until(events, clock)
    ensures EmptyIsOld(c, Queue(Implementation(c, events), key), Log(c, events, key), clock)
  {
    if events != [] {
      var front, e := events[..|events| - 1], events[|events| - 1];
      EmptyStaysOld(c, front, key, e.time);
      QueueIsNewest(c, front, key, e.time);
      KeyMoves(c, events, key);
      EmptyMoves(c, e, key, Queue(Implementation(c, front), key), Log(c, front, key),
                 Queue(Implementation(c, events), key), Log(c, events, key));
    }
  }

  /** Over every run, a round of the sweeper leaves exactly the keys whose last grant is not older than
      the expiration, with the queues they had. */
  lemma SweepForgetsExactly(c: Config, events: seq<Event>, key: string, time: int)
    requires Until(events, time)
    ensures var before, log := Implementation(c, events), Log(c, events, key);
      var swept := After(c, before, Sweep(time)).store;
      && (key in swept <==> log != [] && (c.sweeping ==> log[|log| - 1] + c.expiration >= time))
      && (key in swept ==> key in before.store && swept[key] == before.store[key])
  {
    var queue, log := Queue(Implementation(c, events), key), Log(c, events, key);
    QueueIsNewest(c, events, key, time);
    EmptyStaysOld(c, events, key, time);
    if queue != [] {
      assert queue[|queue| - 1] == log[|log| - 1];
    }
  }

  /** Every request for the key asks about at least `age` seconds. */
  predicate AsksFor(events: seq<Event>, key: string, age: int) {
    forall e :: e in events && e.Request? && e.key == key ==> e.duration >= age
  }

  lemma OldMoves(c: Config, e: Event, key: string, age: int, queue: seq<int>, log: seq<int>, queue': seq<int>, log': seq<int>)
    requires Moves(c, e, key, queue, log, queue', log') && Newest(queue, log, e.time)
    requires e.Request? && e.key == key ==> e.duration >= age
    requires c.sweeping ==> age <= c.expiration + 1
    requires LeftOutIsOld(queue, log, age, e.time)
    ensures LeftOutIsOld(queue', log', age, e.time)
  {
    if e.Sweep? && c.sweeping && queue != [] && Expired(queue, c.expiration, e.time) {
      assert queue[|queue| - 1] == log[|log| - 1];
    }
  }

  lemma {:induction false} LeftOutStaysOld(c: Config, events: seq<Event>, key: string, age: int, clock: int)
    requires Until(events, clock) && AsksFor(events, key, age) && (c.sweeping ==> age <= c.expiration + 1)
    ensures LeftOutIsOld(Queue(Implementation(c, events), key), Log(c, events, key), age, clock)
  {
    if events != [] {
      var front, e := events[..|events| - 1], events[|events| - 1];
      assert e in events;
      LeftOutStaysOld(c, front, key, age, e.time);
      QueueIsNewest(c, front, key, e.time);
      KeyMoves(c, events, key);
      OldMoves(c, e, key, age, Queue(Implementation(c, front), key), Log(c, front, key),
               Queue(Implementation(c, events), key), Log(c, events, key));
    }
  }

  /** No request for the key has a limit above `most`. */
  predicate AtMost(events: seq<Event>, key: string, most: nat) {
    forall e :: e in events && e.Request? && e.key == key ==> Allowed(e.limit) <= most
  }

  /** A queue never outgrows the largest limit its key was asked about with. */
  lemma {:induction false} QueueBound(c: Config, events: seq<Event>, key: string, most: nat)
    requires AtMost(events, key, most)
    ensures |Queue(Implementation(c, events), key)| <= most
  {
    if events != [] {
      assert events[|events| - 1] in events;
      QueueBound(c, events[..|events| - 1], key, most);
      KeyMoves(c, events, key);
    }
  }

  // ----- The limiter against the log, run by run

  /** Over every run, whatever the limits, durations and sweeps, a refused request is one that the log of
      actual grants refuses too. */
  lemma NeverRefusesMore(c: Config, events: seq<Event>, e: Event)
    requires Ordered(events + [e]) && e.Request?
    requires LogGrants(events, Implementation(c, events).verdicts, e)
    ensures After(c, Implementation(c, events), e).verdicts[|events|]
  {
    OrderedFront(events, e);
    QueueIsNewest(c, events, e.key, e.time);
    RequestShows(Implementation(c, events), e, c);
    var queue := Queue(Implementation(c, events), e.key);
    if !Granted(queue, e.limit, e.duration, e.time) {
      RefusedByLog(queue, Log(c, events, e.key), e.limit, e.duration, e.time);
    }
  }

  lemma OrderedFront(events: seq<Event>, e: Event)
    requires Ordered(events + [e])
    ensures Until(events, e.time)
  {
    var all := events + [e];
    forall i | 0 <= i < |events| ensures events[i].time <= e.time {
      assert all[i].time <= all[|events|].time;
    }
    forall i, j | 0 <= i <= j < |events| ensures events[i].time <= events[j].time {
      assert all[i].time <= all[j].time;
    }
  }

  lemma OrderedSplit(events: seq<Event>)
    requires Ordered(events) && events != []
    ensures Until(events[..|events| - 1], events[|events| - 1].time)
  {
    assert events == events[..|events| - 1] + [events[|events| - 1]];
    OrderedFront(events[..|events| - 1], events[|events| - 1]);
  }

  predicate SlipsAt(r: Run, e: Event) {
    e.Request? && Slips(Queue(r, e.key), e.limit, e.duration, e.time)
  }

  /** Some request of the run slips. */
  predicate SlipsIn(c: Config, events: seq<Event>) {
    events != []
    && (SlipsIn(c, events[..|events| - 1])
        || SlipsAt(Implementation(c, events[..|events| - 1]), events[|events| - 1]))
  }

  /** The durations a key is asked about with never rise (where they never change, say), and the
      sweeper does not forget within them. */
  predicate Reaching(c: Config, events: seq<Event>) {
    && (forall i, j :: 0 <= i <= j < |events| && events[i].Request? && events[j].Request? && events[i].key == events[j].key ==>
         events[i].duration >= events[j].duration)
    && (forall e :: e in events && e.Request? && c.sweeping ==> e.duration <= c.expiration + 1)
  }

  lemma ReachingFront(c: Config, events: seq<Event>)
    requires Reaching(c, events) && events != []
    ensures var n := |events| - 1;
      && Reaching(c, events[..n])
      && (events[n].Request? ==> AsksFor(events[..n], events[n].key, events[n].duration))
  {
    var n := |events| - 1;
    var front, e := events[..n], events[n];
    assert forall x :: x in front ==> x in events;
    if e.Request? {
      forall x | x in front && x.Request? && x.key == e.key ensures x.duration >= e.duration {
        var i :| 0 <= i < n && front[i] == x;
        assert events[i].duration >= events[n].duration;
      }
    }
  }

  lemma VerdictExactly(c: Config, events: seq<Event>)
    requires Ordered(events) && Reaching(c, events) && events != []
    ensures var n := |events| - 1;
      var front, e, r := events[..n], events[n], Implementation(c, events[..n]);
      Implementation(c, events).verdicts[n] == LogGrants(front, r.verdicts, e) <==> !SlipsAt(r, e)
  {
    var front, e := events[..|events| - 1], events[|events| - 1];
    var r := Implementation(c, front);
    if e.Request? {
      assert e in events;
      OrderedSplit(events);
      QueueIsNewest(c, front, e.key, e.time);
      ReachingFront(c, events);
      LeftOutStaysOld(c, front, e.key, e.duration, e.time);
      RequestShows(r, e, c);
      SlipsExactly(Queue(r, e.key), Log(c, front, e.key), e.limit, e.duration, e.time);
      if !Granted(Queue(r, e.key), e.limit, e.duration, e.time) {
        RefusedByLog(Queue(r, e.key), Log(c, front, e.key), e.limit, e.duration, e.time);
      }
    } else {
      SweepShows(r, e, c);
    }
  }

  /** With any limits, and durations that never rise, a run gets the log's verdicts exactly when none of
      its requests slips. */
  lemma {:induction false} RunAgreesExactly(c: Config, events: seq<Event>)
    requires Ordered(events) && Reaching(c, events)
    ensures Implementation(c, events).verdicts == Specification(c, events) <==> !SlipsIn(c, events)
  {
    if events != [] {
      var n := |events| - 1;
      var front := events[..n];
      OrderedSplit(events);
      ReachingFront(c, events);
      RunAgreesExactly(c, front);
      VerdictExactly(c, events);
      LastVerdict(c, events);
    }
  }

  /** All verdicts are the log's exactly when the earlier ones are and the last one is. */
  lemma LastVerdict(c: Config, events: seq<Event>)
    requires events != []
    ensures var n := |events| - 1;
      var front := events[..n];
      Implementation(c, events).verdicts == Specification(c, events) <==>
        && Implementation(c, front).verdicts == Specification(c, front)
        && Implementation(c, events).verdicts[n] == LogGrants(front, Implementation(c, front).verdicts, events[n])
  {
    var n := |events| - 1;
    var x, y := Implementation(c, events).verdicts, Specification(c, events);
    LogStep(c, events, "");
    assert x[..n] == Implementation(c, events[..n]).verdicts && y[..n] == Specification(c, events[..n]);
    assert x == x[..n] + [x[n]] && y == y[..n] + [y[n]];
  }

  /** Limits only ever rise. */
  predicate Rising(events: seq<Event>) {
    forall i, j :: 0 <= i <= j < |events| && events[i].Request? && events[j].Request? && events[i].key == events[j].key ==>
      events[i].limit <= events[j].limit
  }

  /** So a run in which the limits of a key never fall gets the log's verdicts. */
  lemma RisingLimitsAgree(c: Config, events: seq<Event>)
    requires Ordered(events) && Reaching(c, events) && Rising(events)
    ensures Implementation(c, events).verdicts == Specification(c, events)
  {
    NoSlipWhileRising(c, events);
    RunAgreesExactly(c, events);
  }

  lemma {:induction false} NoSlipWhileRising(c: Config, events: seq<Event>)
    requires Rising(events)
    ensures !SlipsIn(c, events)
  {
    if events != [] {
      var n := |events| - 1;
      var front, e := events[..n], events[n];
      assert Rising(front);
      NoSlipWhileRising(c, front);
      if e.Request? {
        forall x | x in front && x.Request? && x.key == e.key ensures Allowed(x.limit) <= Allowed(e.limit) {
          var i :| 0 <= i < n && front[i] == x;
          assert events[i].limit <= events[n].limit;
        }
        QueueBound(c, front, e.key, Allowed(e.limit));
      }
    }
  }

  // ----- One limit for each key

  /** With one limit in force a shorter queue has lost nothing but what the sweeper forgot. */
  predicate FullOrSwept(c: Config, queue: seq<int>, log: seq<int>, allowed: nat, clock: int) {
    && |queue| <= allowed
    && (|queue| < allowed && |queue| < |log| ==> c.sweeping)
    && (|queue| < allowed ==> LeftOutIsOld(queue, log, c.expiration + 1, clock))
  }

  lemma FullMoves(c: Config, e: Event, key: string, allowed: nat, queue: seq<int>, log: seq<int>, queue': seq<int>, log': seq<int>)
    requires Moves(c, e, key, queue, log, queue', log') && Newest(queue, log, e.time)
    requires (e.Request? && e.key == key ==> Allowed(e.limit) == allowed) && allowed > 0
    requires FullOrSwept(c, queue, log, allowed, e.time)
    ensures FullOrSwept(c, queue', log', allowed, e.time)
  {
    if e.Sweep? && c.sweeping && queue != [] && Expired(queue, c.expiration, e.time) {
      assert queue[|queue| - 1] == log[|log| - 1];
    }
  }

  predicate AlwaysAllowed(events: seq<Event>, key: string, allowed: nat) {
    forall e :: e in events && e.Request? && e.key == key ==> Allowed(e.limit) == allowed
  }

  lemma {:induction false} StaysFullOrSwept(c: Config, events: seq<Event>, key: string, allowed: nat, clock: int)
    requires Until(events, clock) && AlwaysAllowed(events, key, allowed) && allowed > 0
    ensures FullOrSwept(c, Queue(Implementation(c, events), key), Log(c, events, key), allowed, clock)
  {
    if events != [] {
      var front, e := events[..|events| - 1], events[|events| - 1];
      assert e in events;
      StaysFullOrSwept(c, front, key, allowed, e.time);
      QueueIsNewest(c, front, key, e.time);
      KeyMoves(c, events, key);
      FullMoves(c, e, key, allowed, Queue(Implementation(c, front), key), Log(c, front, key),
                Queue(Implementation(c, events), key), Log(c, events, key));
    }
  }

  // ----- Exactly which limits and durations may be mixed

  datatype Ask = Ask(limit: nat, duration: int)

  /** What the keys may be asked about with. */
  predicate Within(events: seq<Event>, asks: string -> set<Ask>) {
    forall e :: e in events && e.Request? ==> Ask(e.limit, e.duration) in asks(e.key)
  }

  /** No duration is two or more seconds past the expiration of a running sweeper; and one limit is in
      force, or no duration is positive. */
  predicate Steady(c: Config, asks: set<Ask>) {
    && (forall a :: a in asks && c.sweeping ==> a.duration <= c.expiration + 1)
    && (OneLimit(asks) || forall a :: a in asks ==> a.duration <= 0)
  }

  predicate OneLimit(asks: set<Ask>) {
    forall a, b :: a in asks && b in asks ==> Allowed(a.limit) == Allowed(b.limit)
  }

  /** A request without a positive duration is granted by both. */
  lemma FreeVerdict(queue: seq<int>, log: seq<int>, limit: nat, duration: int, now: int)
    requires Newest(queue, log, now) && duration <= 0
    ensures Granted(queue, limit, duration, now) && Recent(log, now, duration) < Allowed(limit)
  {
    assert queue != [] ==> queue[0] == log[|log| - |queue|];
    RecentNone(log, now, duration);
  }

  lemma FullVerdict(c: Config, queue: seq<int>, log: seq<int>, limit: nat, duration: int, now: int)
    requires Newest(queue, log, now) && FullOrSwept(c, queue, log, Allowed(limit), now)
    requires c.sweeping ==> duration <= c.expiration + 1
    ensures Granted(queue, limit, duration, now) <==> Recent(log, now, duration) < Allowed(limit)
  {
    FullOrComplete(queue, log, limit, duration, now);
  }

  lemma SteadyQueue(c: Config, events: seq<Event>, e: Event, asks: string -> set<Ask>)
    requires Until(events, e.time) && Within(events, asks) && e.Request?
    requires Ask(e.limit, e.duration) in asks(e.key) && Steady(c, asks(e.key))
    ensures Granted(Queue(Implementation(c, events), e.key), e.limit, e.duration, e.time) <==>
      Recent(Log(c, events, e.key), e.time, e.duration) < Allowed(e.limit)
  {
    var queue, log := Queue(Implementation(c, events), e.key), Log(c, events, e.key);
    QueueIsNewest(c, events, e.key, e.time);
    if e.duration <= 0 {
      FreeVerdict(queue, log, e.limit, e.duration, e.time);
    } else {
      forall x | x in events && x.Request? && x.key == e.key ensures Allowed(x.limit) == Allowed(e.limit) {
        assert Ask(x.limit, x.duration) in asks(e.key);
      }
      StaysFullOrSwept(c, events, e.key, Allowed(e.limit), e.time);
      FullVerdict(c, queue, log, e.limit, e.duration, e.time);
    }
  }

  lemma SteadyVerdict(c: Config, events: seq<Event>, asks: string -> set<Ask>)
    requires Ordered(events) && Within(events, asks) && events != []
    requires forall key :: Steady(c, asks(key))
    ensures var n := |events| - 1;
      Implementation(c, events).verdicts[n] == LogGrants(events[..n], Implementation(c, events[..n]).verdicts, events[n])
  {
    var front, e := events[..|events| - 1], events[|events| - 1];
    var r := Implementation(c, front);
    if e.Request? {
      OrderedSplit(events);
      assert e in events && Steady(c, asks(e.key));
      assert forall x :: x in front ==> x in events;
      SteadyQueue(c, front, e, asks);
      RequestShows(r, e, c);
    } else {
      SweepShows(r, e, c);
    }
  }

  lemma {:induction false} SteadyAgrees(c: Config, events: seq<Event>, asks: string -> set<Ask>)
    requires Ordered(events) && Within(events, asks)
    requires forall key :: Steady(c, asks(key))
    ensures Implementation(c, events).verdicts == Specification(c, events)
  {
    if events != [] {
      var front := events[..|events| - 1];
      OrderedSplit(events);
      assert forall x :: x in front ==> x in events;
      SteadyAgrees(c, front, asks);
      SteadyVerdict(c, events, asks);
      LastVerdict(c, events);
    }
  }

  // ----- The runs that go wrong

  function Asked(key: string, a: Ask, time: int): Event {
    Request(key, a.limit, a.duration, time)
  }

  function Repeated(time: int, n: nat): (r: seq<int>)
    ensures |r| == n && forall i :: 0 <= i < n ==> r[i] == time
  {
    seq(n, _ => time)
  }

  function Burst(key: string, a: Ask, time: int, n: nat): (r: seq<Event>)
    ensures |r| == n && forall i :: 0 <= i < n ==> r[i] == Asked(key, a, time)
  {
    seq(n, _ => Asked(key, a, time))
  }

  lemma OneMore(c: Config, front: seq<Event>, key: string, a: Ask, time: int)
    ensures var events, queue := front + [Asked(key, a, time)], Queue(Implementation(c, front), key);
      && Queue(Implementation(c, events), key) == QueueAfter(queue, a.limit, a.duration, time)
      && Log(c, events, key) == Log(c, front, key) + if Granted(queue, a.limit, a.duration, time) then [time] else []
  {
    var events := front + [Asked(key, a, time)];
    assert events[..|front|] == front;
    KeyMoves(c, events, key);
  }

  lemma BurstStep(front: seq<Event>, key: string, a: Ask, time: int, n: nat)
    requires n > 0
    ensures front + Burst(key, a, time, n) == (front + Burst(key, a, time, n - 1)) + [Asked(key, a, time)]
    ensures Repeated(time, n) == Repeated(time, n - 1) + [time]
  {
  }

  lemma Longer<T>(xs: seq<T>, ys: seq<T>, y: T)
    ensures (xs + ys) + [y] == xs + (ys + [y])
  {
  }

  lemma RoomStep(c: Config, front: seq<Event>, key: string, a: Ask, time: int)
    requires |Queue(Implementation(c, front), key)| < Allowed(a.limit)
    ensures var events := front + [Asked(key, a, time)];
      && Queue(Implementation(c, events), key) == Queue(Implementation(c, front), key) + [time]
      && Log(c, events, key) == Log(c, front, key) + [time]
  {
    OneMore(c, front, key, a, time);
  }

  /** While there is room for all, a burst is granted and queued. */
  lemma {:induction false} BurstQueued(c: Config, front: seq<Event>, key: string, a: Ask, time: int, n: nat)
    requires |Queue(Implementation(c, front), key)| + n <= Allowed(a.limit)
    ensures var events := front + Burst(key, a, time, n);
      && Queue(Implementation(c, events), key) == Queue(Implementation(c, front), key) + Repeated(time, n)
      && Log(c, events, key) == Log(c, front, key) + Repeated(time, n)
  {
    if n == 0 {
      assert front + Burst(key, a, time, n) == front;
    } else {
      var before := front + Burst(key, a, time, n - 1);
      BurstQueued(c, front, key, a, time, n - 1);
      BurstStep(front, key, a, time, n);
      RoomStep(c, before, key, a, time);
      Longer(Queue(Implementation(c, front), key), Repeated(time, n - 1), time);
      Longer(Log(c, front, key), Repeated(time, n - 1), time);
    }
  }

  /** Without a positive duration every request is granted. */
  lemma FreeStep(queue: seq<int>, a: Ask, time: int)
    requires a.duration <= 0 && forall t :: t in queue ==> t == time
    ensures Granted(queue, a.limit, a.duration, time)
    ensures forall t :: t in QueueAfter(queue, a.limit, a.duration, time) ==> t == time
  {
    if queue != [] {
      assert queue[0] in queue;
      assert forall t :: t in queue[1..] ==> t in queue;
    }
  }

  lemma {:induction false} BurstGranted(c: Config, key: string, a: Ask, time: int, n: nat)
    requires a.duration <= 0
    ensures Log(c, Burst(key, a, time, n), key) == Repeated(time, n)
    ensures forall t :: t in Queue(Implementation(c, Burst(key, a, time, n)), key) ==> t == time
  {
    if n > 0 {
      var front := Burst(key, a, time, n - 1);
      BurstGranted(c, key, a, time, n - 1);
      BurstStep([], key, a, time, n);
      assert [] + Burst(key, a, time, n) == Burst(key, a, time, n) && [] + front == front;
      FreeStep(Queue(Implementation(c, front), key), a, time);
      OneMore(c, front, key, a, time);
    }
  }

  /** A last request that is granted although its limit is reached. */
  lemma GrantedAgainstLog(c: Config, front: seq<Event>, key: string, a: Ask, time: int)
    requires Granted(Queue(Implementation(c, front), key), a.limit, a.duration, time)
    requires Recent(Log(c, front, key), time, a.duration) >= Allowed(a.limit)
    ensures var events := front + [Asked(key, a, time)]; Implementation(c, events).verdicts != Specification(c, events)
  {
    var events := front + [Asked(key, a, time)];
    assert events[..|front|] == front;
    RequestShows(Implementation(c, front), Asked(key, a, time), c);
    LastVerdict(c, events);
  }

  /** With a duration two or more seconds past the expiration, the sweeper makes the limiter forget
      grants that still count. */
  lemma SweptTooEarly(c: Config, key: string, a: Ask)
    requires c.sweeping && a.duration > c.expiration + 1
    ensures var late := c.expiration + 1;
      var events := Burst(key, a, 0, Allowed(a.limit)) + [Sweep(late)] + [Asked(key, a, late)];
      Ordered(events) && Implementation(c, events).verdicts != Specification(c, events)
  {
    var n, late := Allowed(a.limit), c.expiration + 1;
    var swept := Burst(key, a, 0, n) + [Sweep(late)];
    SweptEmpty(c, key, a, n);
    RecentAll(Repeated(0, n), late, a.duration);
    GrantedAgainstLog(c, swept, key, a, late);
    assert forall i :: 0 <= i < |swept| ==> swept[i].time == if i < n then 0 else late;
  }

  lemma SweptEmpty(c: Config, key: string, a: Ask, n: nat)
    requires c.sweeping && n <= Allowed(a.limit)
    ensures var swept := Burst(key, a, 0, n) + [Sweep(c.expiration + 1)];
      Queue(Implementation(c, swept), key) == [] && Log(c, swept, key) == Repeated(0, n)
  {
    var burst := Burst(key, a, 0, n);
    var swept := burst + [Sweep(c.expiration + 1)];
    BurstQueued(c, [], key, a, 0, n);
    assert [] + burst == burst && [] + Repeated(0, n) == Repeated(0, n);
    assert swept[..n] == burst;
    KeyMoves(c, swept, key);
  }

  /** With a lowered limit a queue filled under the higher one is full, but it is its oldest entry that
      is looked at, and more grants fall into the window than the lower limit allows. */
  lemma LoweredLimitGrantsMore(c: Config, key: string, low: Ask, high: Ask)
    requires Allowed(low.limit) < Allowed(high.limit) && low.duration > 0
    ensures var late := low.duration;
      var events := Burst(key, high, 0, 1) + Burst(key, high, late, Allowed(high.limit) - 1) + [Asked(key, low, late)];
      Ordered(events) && Implementation(c, events).verdicts != Specification(c, events)
  {
    var n, late := Allowed(high.limit) - 1, low.duration;
    var front := Burst(key, high, 0, 1) + Burst(key, high, late, n);
    HighBursts(c, key, high, late, n);
    RecentConcat([0], Repeated(late, n), late, late);
    RecentAll(Repeated(late, n), late, late);
    GrantedAgainstLog(c, front, key, low, late);
    HighBurstsOrdered(key, low, high, late, n);
  }

  lemma HighBurstsOrdered(key: string, low: Ask, high: Ask, late: int, n: nat)
    requires late >= 0
    ensures Ordered(Burst(key, high, 0, 1) + Burst(key, high, late, n) + [Asked(key, low, late)])
  {
    var events := Burst(key, high, 0, 1) + Burst(key, high, late, n) + [Asked(key, low, late)];
    assert forall i :: 0 <= i < |events| ==> events[i].time == if i == 0 then 0 else late;
  }

  lemma HighBursts(c: Config, key: string, high: Ask, late: int, n: nat)
    requires n + 1 <= Allowed(high.limit)
    ensures var events := Burst(key, high, 0, 1) + Burst(key, high, late, n);
      Queue(Implementation(c, events), key) == Log(c, events, key) == [0] + Repeated(late, n)
  {
    var first := Burst(key, high, 0, 1);
    BurstQueued(c, [], key, high, 0, 1);
    assert [] + first == first && [] + Repeated(0, 1) == [0];
    BurstQueued(c, first, key, high, late, n);
  }

  /** And requests without a positive duration fill the log past what the queue of a lower limit keeps. */
  lemma ShortQueueGrantsMore(c: Config, key: string, low: Ask, high: Ask)
    requires Allowed(low.limit) < Allowed(high.limit) && low.duration <= 0 < high.duration
    ensures var events := Burst(key, low, 0, Allowed(high.limit)) + [Asked(key, high, 0)];
      Ordered(events) && Implementation(c, events).verdicts != Specification(c, events)
  {
    var n := Allowed(high.limit);
    var front := Burst(key, low, 0, n);
    BurstGranted(c, key, low, 0, n);
    assert forall e :: e in front ==> e == Asked(key, low, 0);
    QueueBound(c, front, key, Allowed(low.limit));
    RecentAll(Repeated(0, n), 0, high.duration);
    GrantedAgainstLog(c, front, key, high, 0);
  }

  /** Over every ordered run that asks about each key only as `asks` says, the limiter decides as the full
      log does, exactly when what the keys may be asked about with is steady. */
  lemma RefinesExactly(c: Config, asks: string -> set<Ask>)
    ensures (forall events: seq<Event> :: Ordered(events) && Within(events, asks) ==>
               Implementation(c, events).verdicts == Specification(c, events)) <==>
      forall key :: Steady(c, asks(key))
  {
    if forall key :: Steady(c, asks(key)) {
      forall events: seq<Event> | Ordered(events) && Within(events, asks)
        ensures Implementation(c, events).verdicts == Specification(c, events)
      {
        SteadyAgrees(c, events, asks);
      }
    } else {
      var key :| !Steady(c, asks(key));
      var events := GoesWrong(c, key, asks(key));
      forall e | e in events && e.Request? ensures Ask(e.limit, e.duration) in asks(e.key) {
        assert e.key == key;
      }
    }
  }

  /** All requests ask about the one key, as `asks` allows. */
  predicate AsksOne(events: seq<Event>, key: string, asks: set<Ask>) {
    forall e :: e in events && e.Request? ==> e.key == key && Ask(e.limit, e.duration) in asks
  }

  lemma BurstAsks(key: string, a: Ask, time: int, n: nat, asks: set<Ask>)
    requires a in asks
    ensures AsksOne(Burst(key, a, time, n), key, asks) && AsksOne([Asked(key, a, time)], key, asks)
  {
  }

  lemma GoesWrong(c: Config, key: string, asks: set<Ask>) returns (events: seq<Event>)
    requires !Steady(c, asks)
    ensures Ordered(events) && Implementation(c, events).verdicts != Specification(c, events)
    ensures AsksOne(events, key, asks)
  {
    if a :| a in asks && c.sweeping && a.duration > c.expiration + 1 {
      var late := c.expiration + 1;
      events := Burst(key, a, 0, Allowed(a.limit)) + [Sweep(late)] + [Asked(key, a, late)];
      SweptTooEarly(c, key, a);
      BurstAsks(key, a, 0, Allowed(a.limit), asks);
      BurstAsks(key, a, late, 0, asks);
    } else {
      var low, high := Unequal(asks);
      events := MixedGoesWrong(c, key, low, high, asks);
    }
  }

  lemma LoweredAsks(key: string, low: Ask, high: Ask, asks: set<Ask>)
    requires low in asks && high in asks && Allowed(high.limit) > 0
    ensures AsksOne(Burst(key, high, 0, 1) + Burst(key, high, low.duration, Allowed(high.limit) - 1)
                    + [Asked(key, low, low.duration)], key, asks)
  {
    BurstAsks(key, high, 0, 1, asks);
    BurstAsks(key, high, low.duration, Allowed(high.limit) - 1, asks);
    BurstAsks(key, low, low.duration, 0, asks);
  }

  lemma ShortAsks(key: string, low: Ask, high: Ask, asks: set<Ask>)
    requires low in asks && high in asks
    ensures AsksOne(Burst(key, low, 0, Allowed(high.limit)) + [Asked(key, high, 0)], key, asks)
  {
    BurstAsks(key, low, 0, Allowed(high.limit), asks);
    BurstAsks(key, high, 0, 0, asks);
  }

  lemma MixedGoesWrong(c: Config, key: string, low: Ask, high: Ask, asks: set<Ask>) returns (events: seq<Event>)
    requires low in asks && high in asks && Allowed(low.limit) < Allowed(high.limit)
    requires low.duration > 0 || high.duration > 0
    ensures Ordered(events) && Implementation(c, events).verdicts != Specification(c, events)
    ensures AsksOne(events, key, asks)
  {
    var n := Allowed(high.limit);
    if low.duration > 0 {
      events := Burst(key, high, 0, 1) + Burst(key, high, low.duration, n - 1) + [Asked(key, low, low.duration)];
      LoweredLimitGrantsMore(c, key, low, high);
      LoweredAsks(key, low, high, asks);
    } else {
      events := Burst(key, low, 0, n) + [Asked(key, high, 0)];
      ShortQueueGrantsMore(c, key, low, high);
      ShortAsks(key, low, high, asks);
    }
  }

  /** Two different limits in force, with at least one positive duration between them. */
  lemma Unequal(asks: set<Ask>) returns (low: Ask, high: Ask)
    requires !OneLimit(asks) && exists p :: p in asks && p.duration > 0
    ensures low in asks && high in asks && Allowed(low.limit) < Allowed(high.limit)
    ensures low.duration > 0 || high.duration > 0
  {
    var a, b :| a in asks && b in asks && Allowed(a.limit) != Allowed(b.limit);
    var p :| p in asks && p.duration > 0;
    var other := if Allowed(p.limit) != Allowed(a.limit) then a else b;
    if Allowed(p.limit) < Allowed(other.limit) {
      low, high := p, other;
    } else {
      low, high := other, p;
    }
  }

  // ----- No window holds more grants than the largest limit allows

  /** The logged times in the half-open window of length `duration` from `start`. */
  function InWindow(log: seq<int>, start: int, duration: int): nat {
    if log == [] then 0
    else
      var t := log[|log| - 1];
      InWindow(log[..|log| - 1], start, duration) + if start <= t < start + duration then 1 else 0
  }

  /** It counts the positions of the log in the window, each once. */
  lemma {:induction false} WindowCounts(log: seq<int>, start: int, duration: int)
    ensures InWindow(log, start, duration) == |set i | 0 <= i < |log| && start <= log[i] < start + duration|
  {
    if log != [] {
      var n := |log| - 1;
      var all := set i | 0 <= i < |log| && start <= log[i] < start + duration;
      var front := set i | 0 <= i < |log[..n]| && start <= log[..n][i] < start + duration;
      WindowCounts(log[..n], start, duration);
      assert all == if start <= log[n] < start + duration then front + {n} else front;
    }
  }

  lemma {:induction false} WindowIsRecent(log: seq<int>, start: int, duration: int, now: int)
    requires now < start + duration
    ensures InWindow(log, start, duration) <= Recent(log, now, duration)
  {
    if log != [] {
      WindowIsRecent(log[..|log| - 1], start, duration, now);
    }
  }

  /** By the full-log rule, wherever a window starts that is no longer than any duration asked about, at
      most as many requests for a key are granted within it as its largest limit allows. */
  lemma {:induction false} WindowBound(c: Config, events: seq<Event>, key: string, most: nat, start: int, length: int)
    requires AtMost(events, key, most) && AsksFor(events, key, length)
    ensures InWindow(Grants(events, Specification(c, events), key), start, length) <= most
  {
    if events != [] {
      var n := |events| - 1;
      var before, after, e := Specification(c, events[..n]), Specification(c, events), events[n];
      assert e in events;
      WindowBound(c, events[..n], key, most, start, length);
      assert after[..n] == before;
      var log := Grants(events[..n], before, key);
      if e.Request? && e.key == key && after[n] {
        assert (log + [e.time])[..|log|] == log;
        if start <= e.time < start + length {
          WindowIsRecent(log, start, length, e.time);
          RecentShorter(log, e.time, length, e.duration);
        }
      }
    }
  }

  /** As many as are in the window are queued. */
  lemma RecentAreQueued(c: Config, events: seq<Event>, key: string, most: nat, length: int, now: int)
    requires Until(events, now) && AtMost(events, key, most) && AsksFor(events, key, length)
    requires c.sweeping ==> length <= c.expiration + 1
    ensures Recent(Log(c, events, key), now, length) <= most
  {
    QueueIsNewest(c, events, key, now);
    LeftOutStaysOld(c, events, key, length, now);
    LeftOutDoesNotCount(Queue(Implementation(c, events), key), Log(c, events, key), length, now);
    QueueBound(c, events, key, most);
  }

  /** A window's bound outlives one more grant when the grants still recent then keep it. */
  lemma WindowStep(log: seq<int>, log': seq<int>, t: int, start: int, length: int, most: nat)
    requires log' == log || log' == log + [t]
    requires InWindow(log, start, length) <= most && Recent(log', t, length) <= most
    ensures InWindow(log', start, length) <= most
  {
    if log' != log {
      assert log'[..|log|] == log;
      if t < start + length {
        WindowIsRecent(log', start, length, t);
      }
    }
  }

  lemma OrderedLast(events: seq<Event>)
    requires Ordered(events) && events != []
    ensures Until(events, events[|events| - 1].time)
  {
  }

  /** The limiter keeps the same bound over every run, however limits and durations change, unless its
      sweeper forgets within the window. */
  lemma {:induction false} LimiterWindowBound(c: Config, events: seq<Event>, key: string, most: nat, start: int, length: int)
    requires Ordered(events) && AtMost(events, key, most) && AsksFor(events, key, length)
    requires c.sweeping ==> length <= c.expiration + 1
    ensures InWindow(Log(c, events, key), start, length) <= most
  {
    if events != [] {
      var front, t := events[..|events| - 1], events[|events| - 1].time;
      LimiterWindowBound(c, front, key, most, start, length);
      LogStep(c, events, key);
      OrderedLast(events);
      RecentAreQueued(c, events, key, most, length, t);
      WindowStep(Log(c, front, key), Log(c, events, key), t, start, length, most);
    }
  }

  /** The documented limit is the limit in force exactly when it is positive: a limit of zero
      still grants the first request for a key. */
  lemma ZeroLimitGrantsOne(c: Config, key: string, limit: nat, duration: int, time: int)
    ensures Implementation(c, [Request(key, limit, duration, time)]).verdicts == [true]
    ensures Allowed(limit) == limit <==> limit > 0
  {
    assert [Request(key, limit, duration, time)][..0] == [];
  }
}
