/** One redemption at a time per user. The lock of a user is a channel with one slot, made on first
    use by double-checked creation: look in the map, lock the creation mutex, look again, store.
    Any number of threads; every access to shared state is one step. */
module TryLock {
  type Tid = nat
  type Lock = nat

  datatype Seek = Load | LockCreate | LoadAgain | Store

  datatype Use = UnlockCreate | TryFill | Redeem | Drain

  datatype Pc =
    | Idle
    | Seeking(seek: Seek, user: int)
    | Using(use: Use, user: int, lock: Lock)

  datatype Mutex = Free | HeldBy(thread: Tid)

  /** `full` are the locks whose slot is taken; `made` counts the locks created so far. */
  datatype State = State(create: Mutex, locks: map<int, Lock>, made: nat, full: set<Lock>, threads: map<Tid, Pc>)

  const INITIAL := State(Free, map[], 0, {}, map[])

  function At(s: State, t: Tid): Pc {
    if t in s.threads then s.threads[t] else Idle
  }

  /** Only the creation mutex blocks; filling the slot fails at once when it is full. */
  predicate CanStep(s: State, t: Tid) {
    match At(s, t)
    case Idle => false
    case Seeking(at, _) => at.LockCreate? ==> s.create.Free?
    case Using(_, _, _) => true
  }

  function Effect(s: State, t: Tid): State {
    match At(s, t)
    case Idle => s
    case Seeking(at, user) =>
      (match at
       case Load => s
       case LockCreate => s.(create := HeldBy(t))
       case LoadAgain => s
       case Store => s.(locks := s.locks[user := s.made], made := s.made + 1))
    case Using(at, _, lock) =>
      match at
      case UnlockCreate => s.(create := Free)
      case TryFill => s.(full := s.full + {lock})
      case Redeem => s
      case Drain => s.(full := s.full - {lock})
  }

  function Following(s: State, pc: Pc): Pc
    requires !pc.Idle?
  {
    match pc
    case Seeking(at, user) =>
      (match at
       case Load => if user in s.locks then Using(TryFill, user, s.locks[user]) else Seeking(LockCreate, user)
       case LockCreate => Seeking(LoadAgain, user)
       case LoadAgain => if user in s.locks then Using(UnlockCreate, user, s.locks[user]) else Seeking(Store, user)
       case Store => Using(UnlockCreate, user, s.made))
    case Using(at, user, lock) =>
      match at
      case UnlockCreate => Using(TryFill, user, lock)
      case TryFill => if lock in s.full then Idle else Using(Redeem, user, lock)
      case Redeem => Using(Drain, user, lock)
      case Drain => Idle
  }

  datatype Action = Calls(thread: Tid, user: int) | Steps(thread: Tid)

  predicate Enabled(s: State, a: Action) {
    if a.Calls? then At(s, a.thread).Idle? else CanStep(s, a.thread)
  }

  function Next(s: State, a: Action): State
    requires Enabled(s, a)
  {
    if a.Calls? then s.(threads := s.threads[a.thread := Seeking(Load, a.user)])
    else Effect(s, a.thread).(threads := s.threads[a.thread := Following(s, At(s, a.thread))])
  }

  // ----- The invariant

  predicate InCreate(pc: Pc) {
    match pc
    case Idle => false
    case Seeking(at, _) => at.LoadAgain? || at.Store?
    case Using(at, _, _) => at.UnlockCreate?
  }

  /** Between a successful TryLock and Unlock. */
  predicate Inside(pc: Pc) {
    pc.Using? && (pc.use.Redeem? || pc.use.Drain?)
  }

  predicate ThreadOk(s: State, t: Tid) {
    var pc := At(s, t);
    && (InCreate(pc) <==> s.create == HeldBy(t))
    && (pc.Using? ==> pc.user in s.locks && s.locks[pc.user] == pc.lock)
    && (pc.Seeking? && pc.seek.Store? ==> pc.user !in s.locks)
    && (Inside(pc) ==> pc.lock in s.full)
  }

  predicate Apart(s: State, t: Tid, u: Tid) {
    Inside(At(s, t)) && Inside(At(s, u)) && At(s, t).lock == At(s, u).lock ==> t == u
  }

  ghost predicate Taken(s: State, lock: Lock) {
    exists t: Tid :: Inside(At(s, t)) && At(s, t).lock == lock
  }

  /** Locks are numbered as they are made, one for each user in the map. */
  ghost predicate Numbered(s: State) {
    && (forall user :: user in s.locks ==> s.locks[user] < s.made)
    && (forall user, other :: user in s.locks && other in s.locks && s.locks[user] == s.locks[other] ==> user == other)
    && |s.locks| == s.made
  }

  ghost predicate Inv(s: State) {
    && (forall t: Tid :: ThreadOk(s, t))
    && (forall t: Tid, u: Tid :: Apart(s, t, u))
    && (forall lock: Lock :: lock in s.full ==> Taken(s, lock))
    && Numbered(s)
  }

  lemma AtNext(s: State, a: Action, u: Tid)
    requires Enabled(s, a)
    ensures At(Next(s, a), u) ==
            if u != a.thread then At(s, u) else if a.Calls? then Seeking(Load, a.user) else Following(s, At(s, u))
  {
  }

  lemma OwnStep(s: State, t: Tid)
    requires ThreadOk(s, t) && Enabled(s, Steps(t))
    ensures ThreadOk(Next(s, Steps(t)), t)
  {
  }

  lemma OtherStep(s: State, t: Tid, u: Tid)
    requires Inv(s) && Enabled(s, Steps(t)) && t != u
    ensures ThreadOk(Next(s, Steps(t)), u)
  {
    assert ThreadOk(s, t) && ThreadOk(s, u) && Apart(s, t, u);
  }

  lemma ApartKept(s: State, a: Action, t: Tid, u: Tid)
    requires Inv(s) && Enabled(s, a)
    ensures Apart(Next(s, a), t, u)
  {
    AtNext(s, a, t);
    AtNext(s, a, u);
    assert ThreadOk(s, t) && ThreadOk(s, u) && Apart(s, t, u);
  }

  lemma TakenKept(s: State, a: Action, lock: Lock)
    requires Inv(s) && Enabled(s, a) && lock in Next(s, a).full
    ensures Taken(Next(s, a), lock)
  {
    assert ThreadOk(s, a.thread);
    var t := a.thread;
    AtNext(s, a, t);
    if lock in s.full {
      var u: Tid :| Inside(At(s, u)) && At(s, u).lock == lock;
      AtNext(s, a, u);
      assert Apart(s, t, u);
      assert Inside(At(Next(s, a), u)) && At(Next(s, a), u).lock == lock;
    } else {
      assert Inside(At(Next(s, a), t)) && At(Next(s, a), t).lock == lock;
    }
  }

  lemma NextKept(s: State, a: Action)
    requires Inv(s) && Enabled(s, a)
    ensures Inv(Next(s, a))
  {
    var next := Next(s, a);
    forall u: Tid ensures ThreadOk(next, u) {
      assert ThreadOk(s, u);
      if a.Calls? {
        AtNext(s, a, u);
      } else if u == a.thread {
        OwnStep(s, u);
      } else {
        OtherStep(s, a.thread, u);
      }
    }
    forall t: Tid, u: Tid ensures Apart(next, t, u) {
      ApartKept(s, a, t, u);
    }
    forall lock: Lock | lock in next.full ensures Taken(next, lock) {
      TakenKept(s, a, lock);
    }
    assert ThreadOk(s, a.thread);
  }

  // ----- Runs

  predicate Possible(s: State, run: seq<Action>)
    decreases |run|, 0
  {
    run == [] || (Possible(s, run[..|run| - 1]) && Enabled(After(s, run[..|run| - 1]), run[|run| - 1]))
  }

  function After(s: State, run: seq<Action>): State
    requires Possible(s, run)
    decreases |run|, 1
  {
    if run == [] then s else Next(After(s, run[..|run| - 1]), run[|run| - 1])
  }

  lemma {:induction false} RunKept(s: State, run: seq<Action>)
    requires Inv(s) && Possible(s, run)
    ensures Inv(After(s, run))
  {
    if run != [] {
      RunKept(s, run[..|run| - 1]);
      NextKept(After(s, run[..|run| - 1]), run[|run| - 1]);
    }
  }

  ghost predicate Reachable(s: State) {
    exists run :: Possible(INITIAL, run) && s == After(INITIAL, run)
  }

  lemma ReachableInv(s: State)
    requires Reachable(s)
    ensures Inv(s)
  {
    var run :| Possible(INITIAL, run) && s == After(INITIAL, run);
    assert Inv(INITIAL);
    RunKept(INITIAL, run);
  }

  // ----- What the lock promises

  /** Two threads hold the same lock object exactly when they serve the same user. */
  lemma OneLockPerUser(s: State, t: Tid, u: Tid)
    requires Reachable(s) && At(s, t).Using? && At(s, u).Using?
    ensures At(s, t).lock == At(s, u).lock <==> At(s, t).user == At(s, u).user
  {
    ReachableInv(s);
    assert ThreadOk(s, t) && ThreadOk(s, u);
  }

  /** At most one thread per user redeems. */
  lemma OneRedemptionPerUser(s: State, t: Tid, u: Tid)
    requires Reachable(s) && Inside(At(s, t)) && Inside(At(s, u)) && At(s, t).user == At(s, u).user
    ensures t == u
  {
    ReachableInv(s);
    assert ThreadOk(s, t) && ThreadOk(s, u) && Apart(s, t, u);
  }

  /** A caller is turned away exactly when another thread is redeeming for the same user. */
  lemma TurnedAwayExactly(s: State, t: Tid)
    requires Reachable(s) && At(s, t).Using? && At(s, t).use.TryFill?
    ensures At(Next(s, Steps(t)), t).Idle? <==> exists u: Tid :: Inside(At(s, u)) && At(s, u).user == At(s, t).user
  {
    ReachableInv(s);
    assert ThreadOk(s, t);
    assert forall u: Tid :: Inside(At(s, u)) ==> ThreadOk(s, u);
    assert At(s, t).lock in s.full ==> Taken(s, At(s, t).lock);
  }

  /** No lock is ever created in vain: as many are made as there are users in the map. */
  lemma OneCreationPerUser(s: State)
    requires Reachable(s)
    ensures s.made == |s.locks|
  {
    ReachableInv(s);
  }

  /** A user's lock is never replaced. */
  lemma {:induction false} LockIsKept(s: State, run: seq<Action>, user: int)
    requires Inv(s) && Possible(s, run) && user in s.locks
    ensures user in After(s, run).locks && After(s, run).locks[user] == s.locks[user]
  {
    if run != [] {
      LockIsKept(s, run[..|run| - 1], user);
      RunKept(s, run[..|run| - 1]);
      assert ThreadOk(After(s, run[..|run| - 1]), run[|run| - 1].thread);
    }
  }

  /** Unlock always finds its own token, and with everyone idle every slot is empty. */
  lemma SlotsAreReturned(s: State)
    requires Reachable(s)
    ensures forall t: Tid :: Inside(At(s, t)) ==> At(s, t).lock in s.full
    ensures (forall t: Tid :: At(s, t).Idle?) ==> s.full == {} && s.create.Free?
  {
    ReachableInv(s);
    assert forall t: Tid :: Inside(At(s, t)) ==> ThreadOk(s, t);
    if s.create.HeldBy? {
      assert ThreadOk(s, s.create.thread);
    }
    if forall t: Tid :: At(s, t).Idle? {
      assert forall lock: Lock :: lock in s.full ==> Taken(s, lock);
    }
  }

  /** No deadlock. */
  lemma SomeThreadCanStep(s: State, t: Tid)
    requires Reachable(s) && !At(s, t).Idle?
    ensures exists u: Tid :: CanStep(s, u)
  {
    ReachableInv(s);
    if s.create.HeldBy? {
      assert ThreadOk(s, s.create.thread);
      assert CanStep(s, s.create.thread);
    } else {
      assert CanStep(s, t);
    }
  }

  /** About to look for a known user's lock, or past having found it; never at the creation mutex. */
  predicate OnTheFastPath(pc: Pc, user: int) {
    pc == Idle || pc == Seeking(Load, user) || (pc.Using? && pc.user == user && !pc.use.UnlockCreate?)
  }

  /** A call for a user who has a lock never waits for the creation mutex, whatever the others do, and can
      take its next step at any time until it returns. */
  lemma {:induction false} KnownUserNeverWaits(s: State, run: seq<Action>, t: Tid, user: int)
    requires Inv(s) && Possible(s, run) && user in s.locks && At(s, t) == Seeking(Load, user)
    requires forall a :: a in run && a.Calls? ==> a.thread != t
    ensures var pc := At(After(s, run), t);
      && OnTheFastPath(pc, user) && (pc != Idle ==> CanStep(After(s, run), t))
      && (pc.Using? ==> pc.lock == s.locks[user])
  {
    if run != [] {
      var front, a := run[..|run| - 1], run[|run| - 1];
      assert a in run && forall x :: x in front ==> x in run;
      KnownUserNeverWaits(s, front, t, user);
      LockIsKept(s, front, user);
    }
  }

  lemma More(s: State, run: seq<Action>, now: State, a: Action) returns (longer: seq<Action>, next: State)
    requires Possible(s, run) && now == After(s, run) && Enabled(now, a)
    ensures longer == run + [a] && Possible(s, longer) && next == After(s, longer) == Next(now, a)
  {
    longer, next := run + [a], Next(now, a);
    assert longer[..|run|] == run;
  }

  /** Callers do get in, and are turned away: two threads call for one user, the first creates the lock and
      redeems, and the second finds the slot taken. */
  lemma SecondCallerIsTurnedAway(user: int) returns (run: seq<Action>, s: State)
    ensures Possible(INITIAL, run) && s == After(INITIAL, run)
    ensures Inside(At(s, 1)) && At(s, 1).user == user
    ensures At(s, 2) == Using(TryFill, user, 0) && At(Next(s, Steps(2)), 2) == Idle
  {
    run, s := More(INITIAL, [], INITIAL, Calls(1, user));
    run, s := More(INITIAL, run, s, Steps(1));
    assert At(s, 1) == Seeking(LockCreate, user);
    run, s := More(INITIAL, run, s, Steps(1));
    run, s := More(INITIAL, run, s, Steps(1));
    assert At(s, 1) == Seeking(Store, user);
    run, s := More(INITIAL, run, s, Steps(1));
    run, s := More(INITIAL, run, s, Steps(1));
    assert At(s, 1) == Using(TryFill, user, 0) && s.locks == map[user := 0];
    run, s := More(INITIAL, run, s, Steps(1));
    run, s := More(INITIAL, run, s, Calls(2, user));
    run, s := More(INITIAL, run, s, Steps(2));
  }

  // ----- The shared variables and the statements that change them

  class TopUpLocks {
    var create: Mutex
    var locks: map<int, Lock>
    var made: nat
    var full: set<Lock>
    var threads: map<Tid, Pc>

    constructor ()
      ensures Now() == INITIAL
    {
      create, locks, made, full, threads := Free, map[], 0, {}, map[];
    }

    function Now(): State
      reads this
    {
      State(create, locks, made, full, threads)
    }

    method TryLock(lock: Lock) returns (ok: bool)
      modifies this`full
      ensures ok == (lock !in old(full)) && full == old(full) + {lock}
    {
      ok := lock !in full;
      if ok {
        full := full + {lock};
      }
    }

    method Unlock(lock: Lock)
      modifies this`full
      ensures full == old(full) - {lock}
    {
      if lock in full {
        full := full - {lock};
      }
    }

    method Call(t: Tid, user: int)
      requires At(Now(), t).Idle?
      modifies this
      ensures Now() == Next(old(Now()), Calls(t, user))
    {
      threads := threads[t := Seeking(Load, user)];
    }

    /** The next statement of a thread that is not blocked. */
    method Advance(t: Tid)
      requires CanStep(Now(), t)
      modifies this
      ensures Now() == Next(old(Now()), Steps(t))
    {
      var pc := threads[t];
      match pc {
        case Seeking(at, user) =>
          GetTopUpLock(t, at, user);
        case Using(at, user, lock) =>
          match at {
            case UnlockCreate =>
              create := Free;
              threads := threads[t := Using(TryFill, user, lock)];
            case TryFill =>
              var ok := TryLock(lock);
              threads := threads[t := if ok then Using(Redeem, user, lock) else Idle];
            case Redeem =>
              threads := threads[t := Using(Drain, user, lock)];
            case Drain =>
              Unlock(lock);
              threads := threads[t := Idle];
          }
      }
    }

    method GetTopUpLock(t: Tid, at: Seek, user: int)
      requires CanStep(Now(), t) && At(Now(), t) == Seeking(at, user)
      modifies this
      ensures Now() == Next(old(Now()), Steps(t))
    {
      match at {
        case Load =>
          threads := threads[t := if user in locks then Using(TryFill, user, locks[user]) else Seeking(LockCreate, user)];
        case LockCreate =>
          create := HeldBy(t);
          threads := threads[t := Seeking(LoadAgain, user)];
        case LoadAgain =>
          threads := threads[t := if user in locks then Using(UnlockCreate, user, locks[user]) else Seeking(Store, user)];
        case Store =>
          var lock := made;
          made := made + 1;
          locks := locks[user := lock];
          threads := threads[t := Using(UnlockCreate, user, lock)];
      }
    }
  }
}
