/** The per-order lock: a global mutex guards a map from trade numbers to reference-counted
    mutexes. Any number of threads run `LockOrder`, a critical section and `UnlockOrder`; every
    statement that touches shared state is one atomic step. */
module OrderLock {
  type Tid = nat
  type Entry = nat

  /** The statements of `LockOrder` before it knows its entry. */
  datatype Seek = LockCreate | Lookup | Insert

  /** The rest of `LockOrder`, the critical section, and `UnlockOrder`, which looks the entry up
      again. */
  datatype Use =
    | Count | UnlockCreate | LockEntry
    | Critical
    | Find | UnlockEntry | LockCreateAgain | Uncount | Drop | UnlockCreateAgain

  /** Where a thread is: `seek` and `use` name its next statement. */
  datatype Pc =
    | Idle
    | Seeking(seek: Seek, tradeNo: string)
    | Using(use: Use, tradeNo: string, entry: Entry)

  datatype Mutex = Free | HeldBy(thread: Tid)

  /** `create` is the global mutex, `holders` the threads inside entry mutexes. */
  datatype State = State(
    create: Mutex,
    locks: map<string, Entry>,
    refs: map<Entry, int>,
    holders: map<Entry, Tid>,
    threads: map<Tid, Pc>)

  const INITIAL := State(Free, map[], map[], map[], map[])

  function At(s: State, t: Tid): Pc {
    if t in s.threads then s.threads[t] else Idle
  }

  function Goto(s: State, t: Tid, pc: Pc): State {
    s.(threads := s.threads[t := pc])
  }

  predicate CanStart(s: State, t: Tid) {
    At(s, t).Idle?
  }

  function Start(s: State, t: Tid, tradeNo: string): State {
    Goto(s, t, Seeking(LockCreate, tradeNo))
  }

  /** A thread waits only for the global mutex or for its entry's mutex. */
  predicate CanStep(s: State, t: Tid) {
    match At(s, t)
    case Idle => false
    case Seeking(at, _) => at.LockCreate? ==> s.create.Free?
    case Using(at, _, e) =>
      && (at.LockCreateAgain? ==> s.create.Free?)
      && (at.LockEntry? ==> e !in s.holders)
      && (at.Count? || at.Uncount? || at.Drop? ==> e in s.refs)
  }

  function Step(s: State, t: Tid): State
    requires CanStep(s, t)
  {
    Goto(Effect(s, t), t, Following(s, At(s, t)))
  }

  /** What the statement does to the shared state. */
  function Effect(s: State, t: Tid): State
    requires CanStep(s, t)
  {
    match At(s, t)
    case Seeking(at, n) =>
      (match at
       case LockCreate => s.(create := HeldBy(t))
       case Lookup => s
       case Insert => s.(refs := s.refs[|s.refs| := 0], locks := s.locks[n := |s.refs|]))
    case Using(at, n, e) =>
      match at
      case Count => s.(refs := s.refs[e := s.refs[e] + 1])
      case UnlockCreate => s.(create := Free)
      case LockEntry => s.(holders := s.holders[e := t])
      case Critical => s
      case Find => s
      case UnlockEntry => s.(holders := s.holders - {e})
      case LockCreateAgain => s.(create := HeldBy(t))
      case Uncount => s.(refs := s.refs[e := s.refs[e] - 1])
      case Drop => if s.refs[e] == 0 then s.(locks := s.locks - {n}) else s
      case UnlockCreateAgain => s.(create := Free)
  }

  /** Where the statement leads. */
  function Following(s: State, pc: Pc): Pc
    requires !pc.Idle?
  {
    match pc
    case Seeking(at, n) =>
      (match at
       case LockCreate => Seeking(Lookup, n)
       case Lookup => if n in s.locks then Using(Count, n, s.locks[n]) else Seeking(Insert, n)
       case Insert => Using(Count, n, |s.refs|))
    case Using(at, n, e) =>
      match at
      case Count => Using(UnlockCreate, n, e)
      case UnlockCreate => Using(LockEntry, n, e)
      case LockEntry => Using(Critical, n, e)
      case Critical => Using(Find, n, e)
      case Find => if n in s.locks then Using(UnlockEntry, n, s.locks[n]) else Idle
      case UnlockEntry => Using(LockCreateAgain, n, e)
      case LockCreateAgain => Using(Uncount, n, e)
      case Uncount => Using(Drop, n, e)
      case Drop => Using(UnlockCreateAgain, n, e)
      case UnlockCreateAgain => Idle
  }

  // ----- The invariant

  /** Under the global mutex. */
  predicate InCreate(pc: Pc) {
    match pc
    case Idle => false
    case Seeking(at, _) => !at.LockCreate?
    case Using(at, _, _) => at.Count? || at.UnlockCreate? || at.Uncount? || at.Drop? || at.UnlockCreateAgain?
  }

  /** Between the increment and the decrement of an entry's count. */
  predicate Counted(pc: Pc) {
    pc.Using? && !pc.use.Count? && !pc.use.Drop? && !pc.use.UnlockCreateAgain?
  }

  /** About to increment the count, or just past the decrement; both under the global mutex. */
  predicate Touching(pc: Pc) {
    pc.Using? && (pc.use.Count? || pc.use.Drop?)
  }

  /** Holding the entry's mutex. */
  predicate Inside(pc: Pc) {
    pc.Using? && (pc.use.Critical? || pc.use.Find? || pc.use.UnlockEntry?)
  }

  predicate Uses(pc: Pc, e: Entry) {
    Counted(pc) && pc.entry == e
  }

  function Users(threads: map<Tid, Pc>, e: Entry): set<Tid> {
    set t: Tid | t in threads && Uses(threads[t], e)
  }

  /** What holds of one thread. */
  predicate ThreadOk(s: State, t: Tid) {
    var pc := At(s, t);
    && (InCreate(pc) <==> s.create == HeldBy(t))
    && (Inside(pc) ==> pc.entry in s.holders && s.holders[pc.entry] == t)
    && (Counted(pc) || Touching(pc) ==> pc.tradeNo in s.locks && s.locks[pc.tradeNo] == pc.entry)
    && (pc.Seeking? && pc.seek.Insert? ==> pc.tradeNo !in s.locks)
  }

  /** What holds of one held entry mutex. */
  predicate HolderOk(s: State, e: Entry)
    requires e in s.holders
  {
    Inside(At(s, s.holders[e])) && At(s, s.holders[e]).entry == e
  }

  ghost predicate Threads(s: State) {
    forall t: Tid :: ThreadOk(s, t)
  }

  ghost predicate Holders(s: State) {
    forall e: Entry :: e in s.holders ==> HolderOk(s, e)
  }

  /** Entries are numbered as they are made, and no two trade numbers share one. */
  ghost predicate Entries(s: State) {
    && (forall e: Entry :: e in s.refs <==> e < |s.refs|)
    && (forall n :: n in s.locks ==> s.locks[n] in s.refs)
    && (forall n, m :: n in s.locks && m in s.locks && s.locks[n] == s.locks[m] ==> n == m)
  }

  ghost predicate Counts(s: State) {
    forall e: Entry :: e in s.refs ==> s.refs[e] == |Users(s.threads, e)|
  }

  /** A registered entry is counted, or the holder of the global mutex is touching it. */
  predicate Busy(s: State, n: string)
    requires n in s.locks
  {
    var e := s.locks[n];
    || (e in s.refs && s.refs[e] > 0)
    || (s.create.HeldBy? && Touching(At(s, s.create.thread)) && At(s, s.create.thread).entry == e)
  }

  ghost predicate NoLeftovers(s: State) {
    forall n :: n in s.locks ==> Busy(s, n)
  }

  ghost predicate Inv(s: State) {
    Threads(s) && Holders(s) && Entries(s) && Counts(s) && NoLeftovers(s)
  }

  lemma UsersMoved(threads: map<Tid, Pc>, t: Tid, pc: Pc, e: Entry)
    ensures Users(threads[t := pc], e) == if Uses(pc, e) then Users(threads, e) + {t} else Users(threads, e) - {t}
  {
  }

  lemma CountMoved(threads: map<Tid, Pc>, t: Tid, pc: Pc, e: Entry)
    ensures var was := if t in threads && Uses(threads[t], e) then 1 else 0;
            |Users(threads[t := pc], e)| == |Users(threads, e)| - was + (if Uses(pc, e) then 1 else 0)
  {
    UsersMoved(threads, t, pc, e);
  }

  lemma AUser(s: State, t: Tid, e: Entry)
    requires Counts(s) && e in s.refs && Uses(At(s, t), e)
    ensures s.refs[e] > 0
  {
    assert t in Users(s.threads, e);
  }

  lemma OwnSeek(s: State, t: Tid)
    requires ThreadOk(s, t) && CanStep(s, t) && At(s, t).Seeking?
    ensures ThreadOk(Step(s, t), t)
  {
  }

  lemma OwnUse(s: State, t: Tid)
    requires ThreadOk(s, t) && CanStep(s, t) && At(s, t).Using?
    ensures ThreadOk(Step(s, t), t)
  {
  }

  /** An entry someone claims stays registered through another thread's step. */
  lemma ClaimKept(s: State, t: Tid, u: Tid)
    requires Inv(s) && CanStep(s, t) && t != u
    ensures var pc := At(s, u);
            && (Counted(pc) || Touching(pc) ==>
                  pc.tradeNo in Effect(s, t).locks && Effect(s, t).locks[pc.tradeNo] == pc.entry)
            && (pc.Seeking? && pc.seek.Insert? ==> pc.tradeNo !in Effect(s, t).locks)
  {
    assert ThreadOk(s, t) && ThreadOk(s, u);
    if Counted(At(s, u)) {
      AUser(s, u, At(s, u).entry);
    }
    EffectLocks(s, t);
  }

  /** No thread's step disturbs another. */
  lemma OtherStep(s: State, t: Tid, u: Tid)
    requires Inv(s) && CanStep(s, t) && t != u
    ensures ThreadOk(Step(s, t), u)
  {
    assert ThreadOk(s, t) && ThreadOk(s, u);
    AtStep(s, t, u);
    EffectCreate(s, t);
    ClaimKept(s, t, u);
    EffectHolders(s, t);
  }

  /** The global mutex changes hands only between no one and the thread itself. */
  lemma EffectCreate(s: State, t: Tid)
    requires CanStep(s, t) && ThreadOk(s, t)
    ensures var next := Effect(s, t);
            || next.create == s.create
            || (s.create.Free? && next.create == HeldBy(t))
            || (s.create == HeldBy(t) && next.create.Free?)
  {
  }

  predicate Registers(s: State, t: Tid) {
    At(s, t).Seeking? && At(s, t).seek.Insert?
  }

  predicate Removes(s: State, t: Tid)
    requires CanStep(s, t)
  {
    At(s, t).Using? && At(s, t).use.Drop? && s.refs[At(s, t).entry] == 0
  }

  lemma EffectLocks(s: State, t: Tid)
    requires CanStep(s, t)
    ensures var pc, next := At(s, t), Effect(s, t);
            if Registers(s, t) then
              next.locks == s.locks[pc.tradeNo := |s.refs|] && next.refs == s.refs[|s.refs| := 0]
            else
              next.locks == (if Removes(s, t) then s.locks - {pc.tradeNo} else s.locks) && next.refs.Keys == s.refs.Keys
  {
    if At(s, t).Seeking? {
      assert Effect(s, t).locks == if Registers(s, t) then s.locks[At(s, t).tradeNo := |s.refs|] else s.locks;
    } else {
      EffectRefs(s, t);
    }
  }

  lemma EffectRefs(s: State, t: Tid)
    requires CanStep(s, t) && At(s, t).Using?
    ensures Effect(s, t).refs.Keys == s.refs.Keys
  {
    var e := At(s, t).entry;
    assert e in s.refs ==> s.refs[e := s.refs[e] + 1].Keys == s.refs.Keys && s.refs[e := s.refs[e] - 1].Keys == s.refs.Keys;
  }

  predicate Locks(pc: Pc) {
    pc.Using? && pc.use.LockEntry?
  }

  predicate Unlocks(pc: Pc) {
    pc.Using? && pc.use.UnlockEntry?
  }

  /** An entry mutex is taken by the one statement and freed by the other. */
  lemma EffectHolders(s: State, t: Tid)
    requires CanStep(s, t)
    ensures var pc, next := At(s, t), Effect(s, t);
            next.holders == if Locks(pc) then s.holders[pc.entry := t]
                            else if Unlocks(pc) then s.holders - {pc.entry} else s.holders
  {
  }

  lemma HoldersKept(s: State, t: Tid)
    requires Inv(s) && CanStep(s, t)
    ensures Holders(Step(s, t))
  {
    assert ThreadOk(s, t);
    var next := Step(s, t);
    forall e: Entry | e in next.holders ensures HolderOk(next, e) {
      var u := next.holders[e];
      EffectHolders(s, t);
      AtStep(s, t, u);
      assert e in s.holders ==> HolderOk(s, e);
    }
  }

  lemma EntriesKept(s: State, t: Tid)
    requires Inv(s) && CanStep(s, t)
    ensures Entries(Step(s, t))
  {
    assert ThreadOk(s, t);
    EffectLocks(s, t);
    if Registers(s, t) {
      EntryAdded(s, Effect(s, t), At(s, t).tradeNo);
    } else {
      EntriesFewer(s, Effect(s, t));
    }
  }

  lemma EntryAdded(s: State, next: State, n: string)
    requires Entries(s) && next.refs == s.refs[|s.refs| := 0] && next.locks == s.locks[n := |s.refs|]
    ensures Entries(next)
  {
    assert |s.refs| !in s.refs;
  }

  lemma EntriesFewer(s: State, next: State)
    requires Entries(s) && next.refs.Keys == s.refs.Keys && next.locks.Items <= s.locks.Items
    ensures Entries(next)
  {
    assert |next.refs| == |next.refs.Keys| && |s.refs| == |s.refs.Keys|;
    forall n | n in next.locks ensures n in s.locks && s.locks[n] == next.locks[n] {
      assert (n, next.locks[n]) in next.locks.Items;
    }
  }

  lemma CountsKept(s: State, t: Tid)
    requires Inv(s) && CanStep(s, t)
    ensures Counts(Step(s, t))
  {
    assert ThreadOk(s, t);
    var next := Step(s, t);
    forall e: Entry | e in next.refs ensures next.refs[e] == |Users(next.threads, e)| {
      CountMoved(s.threads, t, At(next, t), e);
      if e !in s.refs {
        NoUsers(s, e);
      }
    }
  }

  lemma NoUsers(s: State, e: Entry)
    requires Inv(s) && e !in s.refs
    ensures Users(s.threads, e) == {}
  {
    forall t: Tid ensures t !in Users(s.threads, e) {
      assert ThreadOk(s, t);
    }
  }

  lemma BusySeek(s: State, t: Tid, n: string)
    requires Inv(s) && CanStep(s, t) && At(s, t).Seeking? && n in Step(s, t).locks
    ensures Busy(Step(s, t), n)
  {
    assert ThreadOk(s, t);
    assert n in s.locks ==> Busy(s, n);
  }

  lemma EffectRefsAre(s: State, t: Tid)
    requires CanStep(s, t) && At(s, t).Using?
    ensures var pc := At(s, t);
            Effect(s, t).refs == if pc.use.Count? then s.refs[pc.entry := s.refs[pc.entry] + 1]
                                 else if pc.use.Uncount? then s.refs[pc.entry := s.refs[pc.entry] - 1] else s.refs
  {
  }

  /** Still counted, unless the last user has just uncounted itself and is about to look. */
  lemma CountedStays(s: State, t: Tid, n: string)
    requires Inv(s) && CanStep(s, t) && At(s, t).Using? && n in s.locks && n in Step(s, t).locks
    requires s.locks[n] in s.refs && s.refs[s.locks[n]] > 0
    ensures Busy(Step(s, t), n)
  {
    assert ThreadOk(s, t);
    EffectLocks(s, t);
    EffectRefsAre(s, t);
  }

  /** Still touched, unless the one touching it has just counted itself or dropped it. */
  lemma TouchedStays(s: State, t: Tid, n: string)
    requires Inv(s) && CanStep(s, t) && At(s, t).Using? && n in s.locks && n in Step(s, t).locks
    requires Busy(s, n) && s.locks[n] in s.refs && s.refs[s.locks[n]] <= 0
    ensures Busy(Step(s, t), n)
  {
    var h := s.create.thread;
    assert ThreadOk(s, t) && ThreadOk(s, h);
    EffectLocks(s, t);
    EffectRefsAre(s, t);
    EffectCreate(s, t);
    AtStep(s, t, h);
    CountIsNatural(s, s.locks[n]);
  }

  lemma CountIsNatural(s: State, e: Entry)
    requires Counts(s) && e in s.refs
    ensures s.refs[e] >= 0
  {
  }

  lemma BusyUse(s: State, t: Tid, n: string)
    requires Inv(s) && CanStep(s, t) && At(s, t).Using? && n in Step(s, t).locks
    ensures Busy(Step(s, t), n)
  {
    EffectLocks(s, t);
    assert n in s.locks && Busy(s, n);
    if s.refs[s.locks[n]] > 0 {
      CountedStays(s, t, n);
    } else {
      TouchedStays(s, t, n);
    }
  }

  lemma NoLeftoversKept(s: State, t: Tid)
    requires Inv(s) && CanStep(s, t)
    ensures NoLeftovers(Step(s, t))
  {
    forall n | n in Step(s, t).locks ensures Busy(Step(s, t), n) {
      if At(s, t).Seeking? {
        BusySeek(s, t, n);
      } else {
        BusyUse(s, t, n);
      }
    }
  }

  lemma StepKept(s: State, t: Tid)
    requires Inv(s) && CanStep(s, t)
    ensures Inv(Step(s, t))
  {
    forall u: Tid ensures ThreadOk(Step(s, t), u) {
      if u != t {
        OtherStep(s, t, u);
      } else if At(s, t).Seeking? {
        OwnSeek(s, t);
      } else {
        OwnUse(s, t);
      }
    }
    HoldersKept(s, t);
    EntriesKept(s, t);
    CountsKept(s, t);
    NoLeftoversKept(s, t);
  }

  lemma StartKept(s: State, t: Tid, tradeNo: string)
    requires Inv(s) && CanStart(s, t)
    ensures Inv(Start(s, t, tradeNo))
  {
    assert ThreadOk(s, t);
    var next := Start(s, t, tradeNo);
    forall u: Tid ensures ThreadOk(next, u) {
      assert ThreadOk(s, u);
    }
    forall e: Entry | e in next.holders ensures HolderOk(next, e) {
      assert HolderOk(s, e);
    }
    forall e: Entry | e in next.refs ensures next.refs[e] == |Users(next.threads, e)| {
      CountMoved(s.threads, t, At(next, t), e);
    }
    forall n | n in next.locks ensures Busy(next, n) {
      assert Busy(s, n);
    }
  }

  // ----- Runs

  datatype Action = Starts(thread: Tid, tradeNo: string) | Steps(thread: Tid)

  predicate Enabled(s: State, a: Action) {
    if a.Starts? then CanStart(s, a.thread) else CanStep(s, a.thread)
  }

  function Next(s: State, a: Action): State
    requires Enabled(s, a)
  {
    if a.Starts? then Start(s, a.thread, a.tradeNo) else Step(s, a.thread)
  }

  predicate Possible(s: State, run: seq<Action>)
    decreases |run|, 0
  {
    run == [] || (Possible(s, run[..|run| - 1]) && Enabled(After(s, run[..|run| - 1]), run[|run| - 1]))
  }

  function After(s: State, run: seq<Action>): State
    requires Possible(s, run)
    decreases |run|, 1
  {
    if run == [] then s else Next(After(s, run[..|run| - 1]), run[|run| - 1])
  }

  lemma {:induction false} RunKept(s: State, run: seq<Action>)
    requires Inv(s) && Possible(s, run)
    ensures Inv(After(s, run))
  {
    if run != [] {
      var before := run[..|run| - 1];
      RunKept(s, before);
      var a := run[|run| - 1];
      if a.Starts? {
        StartKept(After(s, before), a.thread, a.tradeNo);
      } else {
        StepKept(After(s, before), a.thread);
      }
    }
  }

  /** The state after some interleaving of any number of threads. */
  ghost predicate Reachable(s: State) {
    exists run :: Possible(INITIAL, run) && s == After(INITIAL, run)
  }

  lemma InitiallyInv()
    ensures Inv(INITIAL)
  {
    assert INITIAL.refs == map[] && INITIAL.locks == map[] && INITIAL.holders == map[];
    forall t: Tid ensures ThreadOk(INITIAL, t) {
      assert At(INITIAL, t) == Idle;
    }
  }

  lemma ReachableInv(s: State)
    requires Reachable(s)
    ensures Inv(s)
  {
    var run :| Possible(INITIAL, run) && s == After(INITIAL, run);
    InitiallyInv();
    RunKept(INITIAL, run);
  }

  // ----- What the lock promises

  /** From its increment to its decrement the thread is a user of the trade number. */
  predicate UserOf(pc: Pc, tradeNo: string) {
    Counted(pc) && pc.tradeNo == tradeNo
  }

  /** At most one thread holds the lock of an order. */
  lemma MutualExclusion(s: State, t: Tid, u: Tid)
    requires Reachable(s)
    requires Inside(At(s, t)) && Inside(At(s, u)) && At(s, t).tradeNo == At(s, u).tradeNo
    ensures t == u
  {
    ReachableInv(s);
    assert ThreadOk(s, t) && ThreadOk(s, u);
  }

  /** All users of an order share one mutex; users of different orders never do. */
  lemma OneMutexPerOrder(s: State, t: Tid, u: Tid)
    requires Reachable(s) && Counted(At(s, t)) && Counted(At(s, u))
    ensures At(s, t).entry == At(s, u).entry <==> At(s, t).tradeNo == At(s, u).tradeNo
  {
    ReachableInv(s);
    assert ThreadOk(s, t) && ThreadOk(s, u);
  }

  lemma UsersByOrder(s: State, n: string)
    requires Inv(s) && n in s.locks
    ensures forall t: Tid :: t in Users(s.threads, s.locks[n]) <==> UserOf(At(s, t), n)
  {
    forall t: Tid ensures t in Users(s.threads, s.locks[n]) <==> UserOf(At(s, t), n) {
      assert ThreadOk(s, t);
    }
  }

  /** The reference count of a registered entry is the number of users of its order. */
  lemma CountIsUsers(s: State, n: string)
    requires Reachable(s) && n in s.locks
    ensures s.locks[n] in s.refs
    ensures s.refs[s.locks[n]] == |set t: Tid | t in s.threads && UserOf(s.threads[t], n)|
  {
    ReachableInv(s);
    UsersByOrder(s, n);
    assert (set t: Tid | t in s.threads && UserOf(s.threads[t], n)) == Users(s.threads, s.locks[n]);
  }

  /** `UnlockOrder` always finds its entry, and unlocks a mutex its own thread holds. */
  lemma UnlockFindsItsOwn(s: State, t: Tid)
    requires Reachable(s) && Inside(At(s, t))
    ensures At(s, t).tradeNo in s.locks && s.locks[At(s, t).tradeNo] == At(s, t).entry
    ensures At(s, t).entry in s.holders && s.holders[At(s, t).entry] == t
    ensures At(s, t).use.Find? ==> At(Step(s, t), t) == Using(UnlockEntry, At(s, t).tradeNo, At(s, t).entry)
  {
    ReachableInv(s);
    assert ThreadOk(s, t);
  }

  /** An entry leaves the map exactly when the thread dropping it was the order's last user. */
  lemma DroppedWhenUnused(s: State, t: Tid)
    requires Reachable(s) && At(s, t).Using? && At(s, t).use.Drop?
    ensures CanStep(s, t)
    ensures At(s, t).tradeNo !in Step(s, t).locks <==> forall u: Tid :: !UserOf(At(s, u), At(s, t).tradeNo)
  {
    ReachableInv(s);
    assert ThreadOk(s, t);
    var n, e := At(s, t).tradeNo, At(s, t).entry;
    UsersByOrder(s, n);
    if u: Tid :| UserOf(At(s, u), n) {
      assert u in Users(s.threads, e);
    } else {
      assert forall u: Tid :: u in Users(s.threads, e) ==> UserOf(At(s, u), n);
      assert Users(s.threads, e) == {};
    }
  }

  ghost predicate Quiet(s: State) {
    forall t: Tid :: At(s, t).Idle?
  }

  lemma LeftBySomeone(s: State)
    requires Inv(s) && (s.locks != map[] || s.holders != map[] || s.create.HeldBy?)
    ensures !Quiet(s)
  {
    if s.create.HeldBy? {
      assert ThreadOk(s, s.create.thread);
      assert !At(s, s.create.thread).Idle?;
    } else if n :| n in s.locks {
      assert Busy(s, n);
      UsersByOrder(s, n);
      assert |Users(s.threads, s.locks[n])| > 0;
      var t :| t in Users(s.threads, s.locks[n]);
      assert !At(s, t).Idle?;
    } else {
      var e :| e in s.holders;
      assert HolderOk(s, e);
    }
  }

  /** With every thread idle nothing is left behind. */
  lemma NothingLeftBehind(s: State)
    requires Reachable(s) && Quiet(s)
    ensures s.locks == map[] && s.holders == map[] && s.create.Free?
  {
    ReachableInv(s);
    if s.locks != map[] || s.holders != map[] || s.create.HeldBy? {
      LeftBySomeone(s);
    }
  }

  /** No deadlock: while some thread is under way, some thread can step. */
  lemma SomeThreadCanStep(s: State, t: Tid)
    requires Reachable(s) && !At(s, t).Idle?
    ensures exists u: Tid :: CanStep(s, u)
  {
    ReachableInv(s);
    SomeoneCanStep(s, t);
  }

  lemma SomeoneCanStep(s: State, t: Tid)
    requires Inv(s) && !At(s, t).Idle?
    ensures exists u: Tid :: CanStep(s, u)
  {
    assert ThreadOk(s, t);
    if s.create.HeldBy? {
      var u := s.create.thread;
      assert ThreadOk(s, u);
      assert CanStep(s, u);
    } else if At(s, t).Using? && At(s, t).use.LockEntry? && At(s, t).entry in s.holders {
      assert HolderOk(s, At(s, t).entry);
      assert CanStep(s, s.holders[At(s, t).entry]);
    } else {
      assert CanStep(s, t);
    }
  }

  // ----- Everything winds down

  /** How many steps a thread can still take. */
  function Ahead(pc: Pc): nat {
    match pc
    case Idle => 0
    case Seeking(at, _) => if at.LockCreate? then 13 else if at.Lookup? then 12 else 11
    case Using(at, _, _) =>
      match at
      case Count => 10
      case UnlockCreate => 9
      case LockEntry => 8
      case Critical => 7
      case Find => 6
      case UnlockEntry => 5
      case LockCreateAgain => 4
      case Uncount => 3
      case Drop => 2
      case UnlockCreateAgain => 1
  }

  function AllAhead(s: State, threads: nat): nat {
    if threads == 0 then 0 else AllAhead(s, threads - 1) + Ahead(At(s, threads - 1))
  }

  lemma StepLowers(s: State, pc: Pc)
    requires !pc.Idle?
    ensures Ahead(Following(s, pc)) < Ahead(pc)
  {
  }

  lemma AtStep(s: State, t: Tid, u: Tid)
    requires CanStep(s, t)
    ensures At(Step(s, t), u) == if u == t then Following(s, At(s, t)) else At(s, u)
  {
  }

  lemma {:induction false} StepUsesUp(s: State, t: Tid, threads: nat)
    requires CanStep(s, t)
    ensures AllAhead(Step(s, t), threads) <= AllAhead(s, threads) - (if t < threads then 1 else 0)
  {
    if threads > 0 {
      StepUsesUp(s, t, threads - 1);
      AtStep(s, t, threads - 1);
      StepLowers(s, At(s, t));
    }
  }

  ghost predicate Among(s: State, threads: nat) {
    forall t: Tid :: !At(s, t).Idle? ==> t < threads
  }

  lemma {:induction false} OnlyStarted(s: State, a: Action, threads: nat)
    requires Among(s, threads) && a.Steps? && Enabled(s, a)
    ensures Among(Next(s, a), threads)
  {
    forall t: Tid | !At(Next(s, a), t).Idle? ensures t < threads {
      assert !At(s, t).Idle?;
    }
  }

  /** Without newcomers every schedule ends: the steps taken and the steps the threads still have
      ahead never exceed what they had ahead at first. */
  lemma {:induction false} EveryScheduleEnds(s: State, run: seq<Action>, threads: nat)
    requires Among(s, threads)
    requires Possible(s, run) && forall a :: a in run ==> a.Steps?
    ensures |run| + AllAhead(After(s, run), threads) <= AllAhead(s, threads)
    ensures Among(After(s, run), threads)
  {
    if run != [] {
      var before, a := run[..|run| - 1], run[|run| - 1];
      assert a in run;
      EveryScheduleEnds(s, before, threads);
      assert !At(After(s, before), a.thread).Idle?;
      StepUsesUp(After(s, before), a.thread, threads);
      OnlyStarted(After(s, before), a, threads);
    }
  }

  // ----- The shared variables and the statements that change them

  class OrderLocks {
    var create: Mutex
    var locks: map<string, Entry>
    var refs: map<Entry, int>
    var holders: map<Entry, Tid>
    var threads: map<Tid, Pc>

    constructor ()
      ensures Now() == INITIAL
    {
      create, locks, refs, holders, threads := Free, map[], map[], map[], map[];
    }

    function Now(): State
      reads this
    {
      State(create, locks, refs, holders, threads)
    }

    /** A call of `LockOrder` by an idle thread. */
    method Enter(t: Tid, tradeNo: string)
      requires CanStart(Now(), t)
      modifies this
      ensures Now() == Start(old(Now()), t, tradeNo)
    {
      threads := threads[t := Seeking(LockCreate, tradeNo)];
    }

    /** The next statement of a thread that is not blocked. */
    method Advance(t: Tid)
      requires CanStep(Now(), t)
      modifies this
      ensures Now() == Step(old(Now()), t)
    {
      var pc := threads[t];
      if pc.Seeking? {
        Seek(t, pc.seek, pc.tradeNo);
      } else {
        Use(t, pc.use, pc.tradeNo, pc.entry);
      }
    }

    /** `LockOrder` up to the point where the entry is known. */
    method Seek(t: Tid, at: Seek, n: string)
      requires CanStep(Now(), t) && At(Now(), t) == Seeking(at, n)
      modifies this
      ensures Now() == Step(old(Now()), t)
    {
      match at {
        case LockCreate =>
          create := HeldBy(t);
          threads := threads[t := Seeking(Lookup, n)];
        case Lookup =>
          if n in locks {
            threads := threads[t := Using(Count, n, locks[n])];
          } else {
            threads := threads[t := Seeking(Insert, n)];
          }
        case Insert =>
          var e := |refs|;
          refs := refs[e := 0];
          locks := locks[n := e];
          threads := threads[t := Using(Count, n, e)];
      }
    }

    /** The rest of `LockOrder`, and `UnlockOrder`. */
    method Use(t: Tid, at: Use, n: string, e: Entry)
      requires CanStep(Now(), t) && At(Now(), t) == Using(at, n, e)
      modifies this
      ensures Now() == Step(old(Now()), t)
    {
      var next := Using(UnlockCreateAgain, n, e);
      match at {
        case Count =>
          refs := refs[e := refs[e] + 1];
          next := Using(UnlockCreate, n, e);
        case UnlockCreate =>
          create := Free;
          next := Using(LockEntry, n, e);
        case LockEntry =>
          holders := holders[e := t];
          next := Using(Critical, n, e);
        case Critical =>
          next := Using(Find, n, e);
        case Find =>
          if n in locks {
            next := Using(UnlockEntry, n, locks[n]);
          } else {
            next := Idle;
          }
        case UnlockEntry =>
          holders := holders - {e};
          next := Using(LockCreateAgain, n, e);
        case LockCreateAgain =>
          create := HeldBy(t);
          next := Using(Uncount, n, e);
        case Uncount =>
          refs := refs[e := refs[e] - 1];
          next := Using(Drop, n, e);
        case Drop =>
          if refs[e] == 0 {
            locks := locks - {n};
          }
        case UnlockCreateAgain =>
          create := Free;
          next := Idle;
      }
      threads := threads[t := next];
    }
  }
}
