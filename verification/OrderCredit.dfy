/** Crediting paid orders. Callbacks of the payment providers run concurrently: EpayNotify and
    the Stripe expiry under the order's lock, the Waffo failure without it. Every read and write
    of the database is one step, and every write may be refused, or be stored although it is
    reported as failed. */
module OrderCredit {
  import L = OrderLock
  import Lists
  import opened Options

  type Tid = L.Tid

  datatype Status = Pending | Success | Failed | Expired

  datatype Order = Order(user: int, amount: int, status: Status)

  datatype Outcome = Stored | Refused | Lost

  /** `credits` lists the orders whose amount has reached a user's quota, in that order. */
  datatype Db = Db(perUnit: real, orders: map<string, Order>, quota: map<int, int>, credits: seq<string>)

  /** What a handler does next; the order is the copy it has read and is about to write. */
  datatype Job =
    | Idle
    // EpayNotify, under the lock
    | Notified
    | SaveSuccess(copy: Order)
    | Credit(copy: Order)
    // sessionExpired, under the lock
    | SessionOver
    | SaveExpired(copy: Order)
    // handleWaffoPayment with a status other than success, not under the lock
    | PaymentFailed
    | SaveFailed(copy: Order)

  datatype Task = Task(tradeNo: string, job: Job)

  datatype System = System(lock: L.State, db: Db, tasks: map<Tid, Task>)

  function TaskOf(s: System, t: Tid): Task {
    if t in s.tasks then s.tasks[t] else Task("", Idle)
  }

  predicate Locked(job: Job) {
    job.Notified? || job.SaveSuccess? || job.Credit? || job.SessionOver? || job.SaveExpired?
  }

  /** The integer part of amount times unit: what `decimal` computes. */
  function Quota(amount: int, perUnit: real): int {
    var q := amount as real * perUnit;
    if q >= 0.0 then q.Floor else -(-q).Floor
  }

  function Balance(db: Db, user: int): int {
    if user in db.quota then db.quota[user] else 0
  }

  function Save(db: Db, n: string, order: Order, outcome: Outcome): Db {
    if outcome.Refused? then db else db.(orders := db.orders[n := order])
  }

  function AddQuota(db: Db, n: string, order: Order, outcome: Outcome): Db {
    var q := Quota(order.amount, db.perUnit);
    if outcome.Refused? || q < 0 then db
    else db.(quota := db.quota[order.user := Balance(db, order.user) + q], credits := db.credits + [n])
  }

  /** What a handler's next step does to the database. */
  function Effect(db: Db, task: Task, outcome: Outcome): Db {
    match task.job
    case SaveSuccess(copy) => Save(db, task.tradeNo, copy, outcome)
    case Credit(copy) => AddQuota(db, task.tradeNo, copy, outcome)
    case SaveExpired(copy) => Save(db, task.tradeNo, copy, outcome)
    case SaveFailed(copy) => Save(db, task.tradeNo, copy, outcome)
    case _ => db
  }

  /** What the handler does after it. A read that is refused finds no order. */
  function Following(db: Db, task: Task, outcome: Outcome): Job {
    var found := task.tradeNo in db.orders && !outcome.Refused?;
    match task.job
    case Notified =>
      if found && db.orders[task.tradeNo].status.Pending?
      then SaveSuccess(db.orders[task.tradeNo].(status := Success)) else Idle
    case SaveSuccess(copy) => if outcome.Stored? then Credit(copy) else Idle
    case SessionOver =>
      // an order that is no longer pending is reported, and overwritten all the same
      if found then SaveExpired(db.orders[task.tradeNo].(status := Expired)) else Idle
    case PaymentFailed =>
      if found && db.orders[task.tradeNo].status.Pending?
      then SaveFailed(db.orders[task.tradeNo].(status := Failed)) else Idle
    case _ => Idle
  }

  datatype Event =
    | Place(tradeNo: string, user: int, amount: int)
    | Receive(thread: Tid, tradeNo: string, job: Job)
    | LockStep(thread: Tid)
    | Handle(thread: Tid, outcome: Outcome)

  predicate Critical(s: System, t: Tid) {
    L.At(s.lock, t).Using? && L.At(s.lock, t).use.Critical?
  }

  predicate Enabled(s: System, e: Event) {
    match e
    // trade numbers are unique in the database
    case Place(n, _, _) => n !in s.db.orders
    case Receive(t, n, job) =>
      L.CanStart(s.lock, t) && TaskOf(s, t).job.Idle? && (job.Notified? || job.SessionOver? || job.PaymentFailed?)
    // the lock is released once the handler has returned
    case LockStep(t) => L.CanStep(s.lock, t) && (Critical(s, t) ==> TaskOf(s, t).job.Idle?)
    case Handle(t, _) => !TaskOf(s, t).job.Idle? && (Locked(TaskOf(s, t).job) ==> Critical(s, t))
  }

  function Next(s: System, e: Event): System
    requires Enabled(s, e)
  {
    match e
    case Place(n, user, amount) => s.(db := s.db.(orders := s.db.orders[n := Order(user, amount, Pending)]))
    case Receive(t, n, job) =>
      s.(lock := if Locked(job) then L.Start(s.lock, t, n) else s.lock, tasks := s.tasks[t := Task(n, job)])
    case LockStep(t) => s.(lock := L.Step(s.lock, t))
    case Handle(t, outcome) =>
      var task := TaskOf(s, t);
      s.(db := Effect(s.db, task, outcome),
         tasks := s.tasks[t := task.(job := Following(s.db, task, outcome))])
  }

  // ----- The invariant

  /** Until its handler is done a thread has not begun to release the lock. */
  predicate BeforeEnd(pc: L.Pc) {
    pc.Seeking? || (pc.Using? && (pc.use.Count? || pc.use.UnlockCreate? || pc.use.LockEntry? || pc.use.Critical?))
  }

  predicate SameParty(o: Order, p: Order) {
    o.user == p.user && o.amount == p.amount
  }

  /** The copy differs from the stored order in its status only, and never says pending. */
  predicate CopyOk(db: Db, n: string, copy: Order) {
    n in db.orders && SameParty(copy, db.orders[n]) && !copy.status.Pending?
  }

  predicate JobOk(db: Db, task: Task) {
    match task.job
    case SaveSuccess(copy) => CopyOk(db, task.tradeNo, copy) && task.tradeNo !in db.credits
    case Credit(copy) =>
      && CopyOk(db, task.tradeNo, copy) && task.tradeNo !in db.credits
      && !db.orders[task.tradeNo].status.Pending?
    case SaveExpired(copy) => CopyOk(db, task.tradeNo, copy)
    case SaveFailed(copy) => CopyOk(db, task.tradeNo, copy)
    case _ => true
  }

  /** Only inside the critical section has a locked handler read anything. */
  predicate Placed(lock: L.State, t: Tid, task: Task) {
    var pc := L.At(lock, t);
    Locked(task.job) ==>
      && BeforeEnd(pc) && pc.tradeNo == task.tradeNo
      && (task.job.Notified? || task.job.SessionOver? || (pc.Using? && pc.use.Critical?))
  }

  predicate TaskOk(s: System, t: Tid) {
    JobOk(s.db, TaskOf(s, t)) && Placed(s.lock, t, TaskOf(s, t))
  }

  predicate CreditOk(db: Db, n: string) {
    n in db.orders && !db.orders[n].status.Pending?
  }

  /** What the credited orders come to for one user. */
  function Sum(db: Db, credits: seq<string>, user: int): int {
    if credits == [] then 0
    else
      var n := credits[|credits| - 1];
      Sum(db, credits[..|credits| - 1], user)
      + if n in db.orders && db.orders[n].user == user then Quota(db.orders[n].amount, db.perUnit) else 0
  }

  ghost predicate DbOk(db: Db) {
    && Lists.NoDup(db.credits)
    && (forall n :: n in db.credits ==> CreditOk(db, n))
    && (forall user :: Balance(db, user) == Sum(db, db.credits, user))
  }

  ghost predicate Inv(s: System) {
    && L.Inv(s.lock)
    && DbOk(s.db)
    && (forall t: Tid :: TaskOk(s, t))
  }

  // ----- What every event keeps

  /** Orders are only added, or change their status away from pending. */
  ghost predicate Grows(db: Db, next: Db) {
    && next.perUnit == db.perUnit
    && (forall n :: n in db.orders ==>
          && n in next.orders && SameParty(db.orders[n], next.orders[n])
          && (next.orders[n].status.Pending? ==> db.orders[n].status.Pending?))
  }

  lemma {:induction false} SumGrows(db: Db, next: Db, credits: seq<string>, user: int)
    requires Grows(db, next) && forall n :: n in credits ==> n in db.orders
    ensures Sum(next, credits, user) == Sum(db, credits, user)
  {
    if credits != [] {
      assert credits[|credits| - 1] in credits;
      SumGrows(db, next, credits[..|credits| - 1], user);
    }
  }

  lemma SaveGrows(db: Db, n: string, copy: Order, outcome: Outcome)
    requires CopyOk(db, n, copy)
    ensures Grows(db, Save(db, n, copy, outcome))
  {
  }

  lemma EffectGrows(db: Db, task: Task, outcome: Outcome)
    requires JobOk(db, task)
    ensures Grows(db, Effect(db, task, outcome))
  {
    match task.job
    case SaveSuccess(copy) => SaveGrows(db, task.tradeNo, copy, outcome);
    case SaveExpired(copy) => SaveGrows(db, task.tradeNo, copy, outcome);
    case SaveFailed(copy) => SaveGrows(db, task.tradeNo, copy, outcome);
    case _ =>
  }

  /** Without a new credit a growing database stays in order. */
  lemma DbGrows(db: Db, next: Db)
    requires DbOk(db) && Grows(db, next) && next.credits == db.credits && next.quota == db.quota
    ensures DbOk(next)
  {
    assert forall n :: n in db.credits ==> CreditOk(db, n);
    forall user ensures Balance(next, user) == Sum(next, next.credits, user) {
      SumGrows(db, next, db.credits, user);
    }
  }

  lemma SumCredited(db: Db, next: Db, n: string, user: int)
    requires Grows(db, next) && next.credits == db.credits + [n] && CreditOk(db, n)
    requires forall m :: m in db.credits ==> m in db.orders
    ensures Sum(next, next.credits, user)
         == Sum(db, db.credits, user) + if db.orders[n].user == user then Quota(db.orders[n].amount, db.perUnit) else 0
  {
    assert next.credits[..|next.credits| - 1] == db.credits;
    SumGrows(db, next, db.credits, user);
  }

  lemma DbCredited(db: Db, n: string, copy: Order, outcome: Outcome)
    requires DbOk(db) && JobOk(db, Task(n, Credit(copy)))
    ensures DbOk(AddQuota(db, n, copy, outcome))
  {
    var next := AddQuota(db, n, copy, outcome);
    if next.credits != db.credits {
      assert next.credits[..|next.credits| - 1] == db.credits;
      forall m | m in next.credits ensures CreditOk(next, m) {
        assert m == n || CreditOk(db, m);
      }
      assert forall m :: m in db.credits ==> CreditOk(db, m);
      forall user ensures Balance(next, user) == Sum(next, next.credits, user) {
        assert Balance(db, user) == Sum(db, db.credits, user);
        SumCredited(db, next, n, user);
      }
    }
  }

  lemma DbKept(db: Db, task: Task, outcome: Outcome)
    requires DbOk(db) && JobOk(db, task)
    ensures DbOk(Effect(db, task, outcome))
  {
    if task.job.Credit? {
      DbCredited(db, task.tradeNo, task.job.copy, outcome);
    } else {
      EffectGrows(db, task, outcome);
      DbGrows(db, Effect(db, task, outcome));
    }
  }

  /** The handler's own job after a step: what it read is what is stored. */
  lemma OwnJob(db: Db, task: Task, outcome: Outcome)
    requires DbOk(db) && JobOk(db, task)
    ensures JobOk(Effect(db, task, outcome), task.(job := Following(db, task, outcome)))
  {
    var n := task.tradeNo;
    assert n in db.credits ==> CreditOk(db, n);
  }

  /** Another handler's job: it can only be upset by a credit for its own order. */
  lemma OtherJob(db: Db, next: Db, task: Task)
    requires JobOk(db, task) && Grows(db, next)
    requires task.tradeNo in next.credits && (task.job.SaveSuccess? || task.job.Credit?) ==> task.tradeNo in db.credits
    ensures JobOk(next, task)
  {
  }

  /** Two handlers inside critical sections of one order are the same thread. */
  lemma Alone(s: System, t: Tid, u: Tid)
    requires Inv(s) && Critical(s, t) && Critical(s, u)
    requires L.At(s.lock, t).tradeNo == L.At(s.lock, u).tradeNo
    ensures t == u
  {
    assert L.ThreadOk(s.lock, t) && L.ThreadOk(s.lock, u);
  }

  lemma HandleKept(s: System, t: Tid, outcome: Outcome)
    requires Inv(s) && Enabled(s, Handle(t, outcome))
    ensures Inv(Next(s, Handle(t, outcome)))
  {
    var next := Next(s, Handle(t, outcome));
    var task := TaskOf(s, t);
    assert TaskOk(s, t);
    DbKept(s.db, task, outcome);
    EffectGrows(s.db, task, outcome);
    OwnJob(s.db, task, outcome);
    forall u: Tid ensures TaskOk(next, u) {
      assert TaskOk(s, u);
      if u != t {
        assert TaskOf(next, u) == TaskOf(s, u);
        if task.job.Credit? && (TaskOf(s, u).job.SaveSuccess? || TaskOf(s, u).job.Credit?)
           && TaskOf(s, u).tradeNo == task.tradeNo {
          Alone(s, t, u);
        }
        OtherJob(s.db, next.db, TaskOf(s, u));
      }
    }
  }

  lemma LockStepKept(s: System, t: Tid)
    requires Inv(s) && Enabled(s, LockStep(t))
    ensures Inv(Next(s, LockStep(t)))
  {
    L.StepKept(s.lock, t);
    forall u: Tid ensures TaskOk(Next(s, LockStep(t)), u) {
      assert TaskOk(s, u);
      L.AtStep(s.lock, t, u);
    }
  }

  lemma PlaceKept(s: System, n: string, user: int, amount: int)
    requires Inv(s) && Enabled(s, Place(n, user, amount))
    ensures Inv(Next(s, Place(n, user, amount)))
  {
    var next := Next(s, Place(n, user, amount));
    DbGrows(s.db, next.db);
    forall u: Tid ensures TaskOk(next, u) {
      assert TaskOk(s, u);
      OtherJob(s.db, next.db, TaskOf(s, u));
    }
  }

  lemma ReceiveKept(s: System, t: Tid, n: string, job: Job)
    requires Inv(s) && Enabled(s, Receive(t, n, job))
    ensures Inv(Next(s, Receive(t, n, job)))
  {
    L.StartKept(s.lock, t, n);
    forall u: Tid ensures TaskOk(Next(s, Receive(t, n, job)), u) {
      assert TaskOk(s, u);
    }
  }

  lemma EventKept(s: System, e: Event)
    requires Inv(s) && Enabled(s, e)
    ensures Inv(Next(s, e))
  {
    match e
    case Place(n, user, amount) => PlaceKept(s, n, user, amount);
    case Receive(t, n, job) => ReceiveKept(s, t, n, job);
    case LockStep(t) => LockStepKept(s, t);
    case Handle(t, outcome) => HandleKept(s, t, outcome);
  }

  // ----- Runs

  function Initial(perUnit: real): System {
    System(L.INITIAL, Db(perUnit, map[], map[], []), map[])
  }

  predicate Possible(s: System, run: seq<Event>)
    decreases |run|, 0
  {
    run == [] || (Possible(s, run[..|run| - 1]) && Enabled(After(s, run[..|run| - 1]), run[|run| - 1]))
  }

  function After(s: System, run: seq<Event>): System
    requires Possible(s, run)
    decreases |run|, 1
  {
    if run == [] then s else Next(After(s, run[..|run| - 1]), run[|run| - 1])
  }

  lemma {:induction false} RunKept(s: System, run: seq<Event>)
    requires Inv(s) && Possible(s, run)
    ensures Inv(After(s, run))
  {
    if run != [] {
      RunKept(s, run[..|run| - 1]);
      EventKept(After(s, run[..|run| - 1]), run[|run| - 1]);
    }
  }

  ghost predicate Reachable(s: System) {
    exists perUnit, run :: Possible(Initial(perUnit), run) && s == After(Initial(perUnit), run)
  }

  lemma InitiallyInv(perUnit: real)
    ensures Inv(Initial(perUnit))
  {
    L.InitiallyInv();
    assert DbOk(Initial(perUnit).db);
  }

  lemma ReachableInv(s: System)
    requires Reachable(s)
    ensures Inv(s)
  {
    var perUnit, run :| Possible(Initial(perUnit), run) && s == After(Initial(perUnit), run);
    InitiallyInv(perUnit);
    RunKept(Initial(perUnit), run);
  }

  // ----- What the callbacks promise together

  /** No order is credited twice, whatever is replayed and however the handlers interleave. */
  lemma CreditedAtMostOnce(s: System, i: nat, j: nat)
    requires Reachable(s) && i < j < |s.db.credits|
    ensures s.db.credits[i] != s.db.credits[j]
  {
    ReachableInv(s);
    Lists.NoDupPositions(s.db.credits);
  }

  /** `k` is `x` without its fraction. */
  predicate IntegerPart(k: int, x: real) {
    if x >= 0.0 then k as real <= x < (k + 1) as real else (k - 1) as real < x <= k as real
  }

  lemma QuotaIsIntegerPart(amount: int, perUnit: real, k: int)
    ensures Quota(amount, perUnit) == k <==> IntegerPart(k, amount as real * perUnit)
  {
    var x := amount as real * perUnit;
    if x < 0.0 {
      assert IntegerPart(k, x) <==> IntegerPart(-k, -x);
    }
  }

  /** Amount times unit of an order. */
  function Worth(db: Db, n: string): real
    requires n in db.orders
  {
    db.orders[n].amount as real * db.perUnit
  }

  predicate Gives(db: Db, n: string, k: int) {
    n in db.orders && IntegerPart(k, Worth(db, n))
  }

  lemma QuotaGives(db: Db, n: string, k: int)
    requires n in db.orders
    ensures Gives(db, n, k) <==> k == Quota(db.orders[n].amount, db.perUnit)
  {
    QuotaIsIntegerPart(db.orders[n].amount, db.perUnit, k);
  }

  /** What a user gets of the amounts given for the credited orders, one each. */
  function Given(db: Db, credits: seq<string>, parts: seq<int>, user: int): int
    requires |parts| == |credits| && forall n :: n in credits ==> n in db.orders
  {
    if credits == [] then 0
    else
      var i := |credits| - 1;
      Given(db, credits[..i], parts[..i], user) + if db.orders[credits[i]].user == user then parts[i] else 0
  }

  /** What the credits come to when each gives the integer part of its order's amount times unit. */
  ghost predicate GivesParts(db: Db, credits: seq<string>, parts: seq<int>) {
    && |parts| == |credits| && (forall n :: n in credits ==> n in db.orders)
    && forall i :: 0 <= i < |parts| ==> Gives(db, credits[i], parts[i])
  }

  lemma PartIsQuota(db: Db, credits: seq<string>, parts: seq<int>, i: nat)
    requires GivesParts(db, credits, parts) && i < |parts|
    ensures credits[i] in db.orders && parts[i] == Quota(db.orders[credits[i]].amount, db.perUnit)
  {
    assert credits[i] in credits;
    QuotaGives(db, credits[i], parts[i]);
  }

  lemma PartsFront(db: Db, credits: seq<string>, parts: seq<int>)
    requires GivesParts(db, credits, parts) && credits != []
    ensures GivesParts(db, credits[..|credits| - 1], parts[..|credits| - 1])
  {
    var i := |credits| - 1;
    assert forall n :: n in credits[..i] ==> n in credits;
  }

  lemma {:induction false} SumIsGiven(db: Db, credits: seq<string>, parts: seq<int>, user: int)
    requires GivesParts(db, credits, parts)
    ensures Sum(db, credits, user) == Given(db, credits, parts, user)
  {
    if credits != [] {
      var i := |credits| - 1;
      PartsFront(db, credits, parts);
      SumIsGiven(db, credits[..i], parts[..i], user);
      PartIsQuota(db, credits, parts, i);
    }
  }

  function Parts(db: Db, credits: seq<string>): (r: seq<int>)
    requires forall n :: n in credits ==> n in db.orders
    ensures |r| == |credits|
  {
    if credits == [] then []
    else
      var i := |credits| - 1;
      assert credits[i] in credits;
      Parts(db, credits[..i]) + [Quota(db.orders[credits[i]].amount, db.perUnit)]
  }

  /** The integers to be given exist. */
  lemma {:induction false} PartsExist(db: Db, credits: seq<string>)
    requires forall n :: n in credits ==> n in db.orders
    ensures GivesParts(db, credits, Parts(db, credits))
  {
    if credits != [] {
      var i := |credits| - 1;
      assert credits[i] in credits && forall n :: n in credits[..i] ==> n in credits;
      PartsExist(db, credits[..i]);
      QuotaGives(db, credits[i], Quota(db.orders[credits[i]].amount, db.perUnit));
      var front := Parts(db, credits[..i]);
      forall j | 0 <= j < |credits| ensures Gives(db, credits[j], Parts(db, credits)[j]) {
        if j < i {
          assert Gives(db, credits[..i][j], front[j]);
        }
      }
    }
  }

  /** There is one choice of them. */
  lemma PartsUnique(db: Db, credits: seq<string>, parts: seq<int>, other: seq<int>)
    requires GivesParts(db, credits, parts) && GivesParts(db, credits, other)
    ensures parts == other
  {
    forall i | 0 <= i < |parts| ensures parts[i] == other[i] {
      PartIsQuota(db, credits, parts, i);
      PartIsQuota(db, credits, other, i);
    }
  }

  /** All the quota a user was given is the sum, over the orders credited to him, of the integer part of
      amount times unit. */
  lemma BalanceIsCreditedOrders(s: System, user: int) returns (parts: seq<int>)
    requires Reachable(s)
    ensures GivesParts(s.db, s.db.credits, parts)
    ensures Balance(s.db, user) == Given(s.db, s.db.credits, parts, user)
  {
    ReachableInv(s);
    assert forall n :: n in s.db.credits ==> CreditOk(s.db, n);
    parts := Parts(s.db, s.db.credits);
    PartsExist(s.db, s.db.credits);
    SumIsGiven(s.db, s.db.credits, parts, user);
  }

  /** What has left the pending state never comes back, and no order changes its owner or amount. */
  lemma {:induction false} PendingIsLeftForGood(s: System, run: seq<Event>)
    requires Inv(s) && Possible(s, run)
    ensures Grows(s.db, After(s, run).db)
  {
    if run != [] {
      var before, e := After(s, run[..|run| - 1]), run[|run| - 1];
      PendingIsLeftForGood(s, run[..|run| - 1]);
      RunKept(s, run[..|run| - 1]);
      if e.Handle? {
        assert TaskOk(before, e.thread);
        EffectGrows(before.db, TaskOf(before, e.thread), e.outcome);
      }
    }
  }

  /** A replayed notification for an order that is not pending does nothing at all. */
  lemma ReplayDoesNothing(s: System, t: Tid, outcome: Outcome)
    requires Reachable(s) && TaskOf(s, t).job.Notified? && Enabled(s, Handle(t, outcome))
    requires TaskOf(s, t).tradeNo in s.db.credits
    ensures Next(s, Handle(t, outcome)).db == s.db && TaskOf(Next(s, Handle(t, outcome)), t).job.Idle?
  {
    ReachableInv(s);
    assert CreditOk(s.db, TaskOf(s, t).tradeNo);
  }

  /** As long as a handler is under way something can happen. */
  lemma NeverStuck(s: System, t: Tid)
    requires Reachable(s) && (!TaskOf(s, t).job.Idle? || !L.At(s.lock, t).Idle?)
    ensures exists e: Event :: (e.LockStep? || e.Handle?) && Enabled(s, e)
  {
    ReachableInv(s);
    assert TaskOk(s, t);
    if !TaskOf(s, t).job.Idle? && !Locked(TaskOf(s, t).job) {
      assert Enabled(s, Handle(t, Stored));
    } else {
      L.SomeoneCanStep(s.lock, t);
      var u: Tid :| L.CanStep(s.lock, u);
      assert Enabled(s, LockStep(u)) || Enabled(s, Handle(u, Stored));
    }
  }

  // ----- When the status can be trusted

  /** No session expires and no payment fails. */
  predicate OnlyNotifies(run: seq<Event>) {
    forall e :: e in run && e.Receive? ==> e.job.Notified?
  }

  predicate NotifyTask(task: Task) {
    match task.job
    case Idle => true
    case Notified => true
    case SaveSuccess(copy) => copy.status.Success?
    case Credit(_) => true
    case _ => false
  }

  ghost predicate PendingOrSuccess(s: System) {
    && (forall n :: n in s.db.orders ==> s.db.orders[n].status.Pending? || s.db.orders[n].status.Success?)
    && (forall t: Tid :: NotifyTask(TaskOf(s, t)))
  }

  lemma NotifyHandled(s: System, t: Tid, outcome: Outcome)
    requires PendingOrSuccess(s) && Enabled(s, Handle(t, outcome))
    ensures PendingOrSuccess(Next(s, Handle(t, outcome)))
  {
    assert NotifyTask(TaskOf(s, t));
    forall u: Tid ensures NotifyTask(TaskOf(Next(s, Handle(t, outcome)), u)) {
      assert NotifyTask(TaskOf(s, u));
    }
  }

  lemma {:induction false} NotifiesKeep(s: System, run: seq<Event>)
    requires PendingOrSuccess(s) && Possible(s, run) && OnlyNotifies(run)
    ensures PendingOrSuccess(After(s, run))
  {
    if run != [] {
      var before, e := After(s, run[..|run| - 1]), run[|run| - 1];
      assert e in run;
      NotifiesKeep(s, run[..|run| - 1]);
      if e.Handle? {
        NotifyHandled(before, e.thread, e.outcome);
      } else {
        forall u: Tid ensures NotifyTask(TaskOf(After(s, run), u)) {
          assert NotifyTask(TaskOf(before, u));
        }
      }
    }
  }

  /** With notifications alone every credited order says success. */
  lemma CreditedSaysSuccess(perUnit: real, run: seq<Event>, n: string)
    requires Possible(Initial(perUnit), run) && OnlyNotifies(run)
    requires n in After(Initial(perUnit), run).db.credits
    ensures var db := After(Initial(perUnit), run).db;
            n in db.orders && db.orders[n].status.Success?
  {
    InitiallyInv(perUnit);
    RunKept(Initial(perUnit), run);
    NotifiesKeep(Initial(perUnit), run);
    assert CreditOk(After(Initial(perUnit), run).db, n);
  }

  /** No one may credit the order any more: it is not pending, and no handler is past its check. */
  ghost predicate Settled(s: System, n: string) {
    && n in s.db.orders && !s.db.orders[n].status.Pending?
    && (forall t: Tid :: TaskOf(s, t).tradeNo == n ==> !TaskOf(s, t).job.SaveSuccess? && !TaskOf(s, t).job.Credit?)
  }

  lemma SettledKept(s: System, e: Event, n: string)
    requires Inv(s) && Settled(s, n) && Enabled(s, e)
    ensures Settled(Next(s, e), n)
    ensures n in Next(s, e).db.credits <==> n in s.db.credits
  {
    var next := Next(s, e);
    if e.Handle? {
      assert TaskOk(s, e.thread);
      EffectGrows(s.db, TaskOf(s, e.thread), e.outcome);
    }
    forall t: Tid | TaskOf(next, t).tradeNo == n
      ensures !TaskOf(next, t).job.SaveSuccess? && !TaskOf(next, t).job.Credit?
    {
      assert TaskOf(s, t).tradeNo == n ==> !TaskOf(s, t).job.SaveSuccess? && !TaskOf(s, t).job.Credit?;
    }
  }

  /** A settled order stays as credited as it is: after a refused credit no replay makes up for it. */
  lemma {:induction false} SettledForGood(s: System, run: seq<Event>, n: string)
    requires Inv(s) && Settled(s, n) && Possible(s, run)
    ensures Settled(After(s, run), n)
    ensures n in After(s, run).db.credits <==> n in s.db.credits
  {
    if run != [] {
      SettledForGood(s, run[..|run| - 1], n);
      RunKept(s, run[..|run| - 1]);
      SettledKept(After(s, run[..|run| - 1]), run[|run| - 1], n);
    }
  }

  predicate CreditedBy(s: System, n: string, t: Tid) {
    TaskOf(s, t).tradeNo == n && TaskOf(s, t).job.Credit?
  }

  /** The order's success is stored but reported as failed, or its credit is refused. */
  predicate FaultAt(s: System, e: Event, n: string) {
    e.Handle? && TaskOf(s, e.thread).tradeNo == n &&
    match TaskOf(s, e.thread).job
    case SaveSuccess(_) => e.outcome.Lost?
    case Credit(copy) => e.outcome.Refused? || Quota(copy.amount, s.db.perUnit) < 0
    case _ => false
  }

  /** The run holds such an event. */
  predicate Faulty(s: System, run: seq<Event>, n: string)
    requires Possible(s, run)
  {
    run != [] && (Faulty(s, run[..|run| - 1], n) || FaultAt(After(s, run[..|run| - 1]), run[|run| - 1], n))
  }

  /** A paid order is credited, or its handler is about to. */
  ghost predicate Paid(s: System, n: string) {
    n in s.db.orders && s.db.orders[n].status.Success? ==> n in s.db.credits || exists t: Tid :: CreditedBy(s, n, t)
  }

  lemma PaidKept(s: System, e: Event, n: string)
    requires Inv(s) && PendingOrSuccess(s) && Paid(s, n)
    requires Enabled(s, e) && !FaultAt(s, e, n)
    ensures Paid(Next(s, e), n)
  {
    var next := Next(s, e);
    if e.Handle? {
      var t := e.thread;
      assert TaskOk(s, t) && NotifyTask(TaskOf(s, t));
      if TaskOf(s, t).tradeNo == n && TaskOf(s, t).job.SaveSuccess? {
        assert e.outcome.Stored? ==> CreditedBy(next, n, t);
      }
    }
    if u: Tid :| CreditedBy(s, n, u) {
      assert n in next.db.credits || CreditedBy(next, n, u);
    }
  }

  /** Only the faulty handler was past its check, so no one makes up for it. */
  lemma FaultSettles(s: System, e: Event, n: string)
    requires Inv(s) && Enabled(s, e) && FaultAt(s, e, n)
    ensures Settled(Next(s, e), n) && n !in Next(s, e).db.credits
  {
    var t, next := e.thread, Next(s, e);
    assert TaskOk(s, t);
    forall u: Tid | TaskOf(next, u).tradeNo == n
      ensures !TaskOf(next, u).job.SaveSuccess? && !TaskOf(next, u).job.Credit?
    {
      assert TaskOk(s, u);
      if u != t && (TaskOf(s, u).job.SaveSuccess? || TaskOf(s, u).job.Credit?) {
        Alone(s, t, u);
      }
    }
  }

  lemma {:induction false} FaultyIsSettled(s: System, run: seq<Event>, n: string)
    requires Inv(s) && Possible(s, run) && Faulty(s, run, n)
    ensures Settled(After(s, run), n) && n !in After(s, run).db.credits
  {
    var front := run[..|run| - 1];
    RunKept(s, front);
    if Faulty(s, front, n) {
      FaultyIsSettled(s, front, n);
      SettledKept(After(s, front), run[|run| - 1], n);
    } else {
      FaultSettles(After(s, front), run[|run| - 1], n);
    }
  }

  lemma {:induction false} FaultlessIsPaid(perUnit: real, run: seq<Event>, n: string)
    requires Possible(Initial(perUnit), run) && OnlyNotifies(run) && !Faulty(Initial(perUnit), run, n)
    ensures Paid(After(Initial(perUnit), run), n)
  {
    if run != [] {
      var front := run[..|run| - 1];
      FaultlessIsPaid(perUnit, front, n);
      InitiallyInv(perUnit);
      RunKept(Initial(perUnit), front);
      NotifiesKeep(Initial(perUnit), front);
      PaidKept(After(Initial(perUnit), front), run[|run| - 1], n);
    }
  }

  /** With notifications alone, once all handlers are done, an order says success without a credit
      exactly when the run holds a fault of its: a success stored but reported as failed, a refused
      credit, or a negative quota. */
  lemma UncreditedExactly(perUnit: real, run: seq<Event>, n: string)
    requires Possible(Initial(perUnit), run) && OnlyNotifies(run)
    requires forall t: Tid :: TaskOf(After(Initial(perUnit), run), t).job.Idle?
    ensures var db := After(Initial(perUnit), run).db;
            n in db.orders && db.orders[n].status.Success? && n !in db.credits <==> Faulty(Initial(perUnit), run, n)
  {
    InitiallyInv(perUnit);
    NotifiesKeep(Initial(perUnit), run);
    if Faulty(Initial(perUnit), run, n) {
      FaultyIsSettled(Initial(perUnit), run, n);
    } else {
      FaultlessIsPaid(perUnit, run, n);
    }
  }

  /** Only notifications, every write goes through, and nothing is negative. */
  predicate Faultless(e: Event) {
    match e
    case Place(_, _, amount) => amount >= 0
    case Receive(_, _, job) => job.Notified?
    case LockStep(_) => true
    case Handle(_, outcome) => outcome.Stored?
  }

  ghost predicate NoNegatives(db: Db) {
    db.perUnit >= 0.0 && forall n :: n in db.orders ==> db.orders[n].amount >= 0
  }

  lemma NoNegativesKept(s: System, e: Event, n: string)
    requires Inv(s) && NoNegatives(s.db) && Enabled(s, e) && Faultless(e)
    ensures NoNegatives(Next(s, e).db) && !FaultAt(s, e, n)
  {
    if e.Handle? {
      assert TaskOk(s, e.thread);
    }
  }

  lemma {:induction false} FaultlessKeeps(perUnit: real, run: seq<Event>, n: string)
    requires perUnit >= 0.0 && Possible(Initial(perUnit), run) && forall e :: e in run ==> Faultless(e)
    ensures NoNegatives(After(Initial(perUnit), run).db) && !Faulty(Initial(perUnit), run, n)
  {
    if run != [] {
      assert run[|run| - 1] in run;
      var front := run[..|run| - 1];
      FaultlessKeeps(perUnit, front, n);
      InitiallyInv(perUnit);
      RunKept(Initial(perUnit), front);
      NoNegativesKept(After(Initial(perUnit), front), run[|run| - 1], n);
    }
  }

  /** Without failures and interference, once all handlers are done the orders that say success
      are exactly the credited ones. */
  lemma SuccessIsCredited(perUnit: real, run: seq<Event>, n: string)
    requires perUnit >= 0.0 && Possible(Initial(perUnit), run) && forall e :: e in run ==> Faultless(e)
    requires forall t: Tid :: TaskOf(After(Initial(perUnit), run), t).job.Idle?
    ensures var db := After(Initial(perUnit), run).db;
            n in db.credits <==> n in db.orders && db.orders[n].status.Success?
  {
    FaultlessKeeps(perUnit, run, n);
    UncreditedExactly(perUnit, run, n);
    if n in After(Initial(perUnit), run).db.credits {
      CreditedSaysSuccess(perUnit, run, n);
    }
  }

  // ----- When it cannot

  /** Callbacks other than notifications are among `others`. */
  predicate Receives(run: seq<Event>, others: set<Job>) {
    forall e :: e in run && e.Receive? ==> e.job.Notified? || e.job in others
  }

  lemma ReceivesMore(run: seq<Event>, e: Event, others: set<Job>)
    requires Receives(run, others) && (e.Receive? ==> e.job.Notified? || e.job in others)
    ensures Receives(run + [e], others)
  {
  }

  lemma PossibleMore(s: System, run: seq<Event>, e: Event)
    requires Possible(s, run) && Enabled(After(s, run), e)
    ensures Possible(s, run + [e]) && After(s, run + [e]) == Next(After(s, run), e)
  {
    assert (run + [e])[..|run|] == run;
  }

  lemma Took(s: System, run: seq<Event>, now: System, e: Event, others: set<Job>) returns (longer: seq<Event>, next: System)
    requires Possible(s, run) && now == After(s, run) && Enabled(now, e)
    requires Receives(run, others) && (e.Receive? ==> e.job.Notified? || e.job in others)
    ensures longer == run + [e] && Receives(longer, others)
    ensures Possible(s, longer) && next == After(s, longer) && next == Next(now, e)
  {
    longer, next := run + [e], Next(now, e);
    ReceivesMore(run, e, others);
    PossibleMore(s, run, e);
  }

  predicate MayStep(s: System, t: Tid) {
    Critical(s, t) ==> TaskOf(s, t).job.Idle?
  }

  lemma GotoTwice(lock: L.State, t: Tid, p: L.Pc, q: L.Pc)
    ensures L.Goto(L.Goto(lock, t, p), t, q) == L.Goto(lock, t, q)
    ensures L.At(L.Goto(lock, t, p), t) == p
    ensures L.At(lock, t) == p && t in lock.threads ==> L.Goto(lock, t, p) == lock
  {
    assert lock.threads[t := p][t := q] == lock.threads[t := q];
  }

  /** One lock step of thread `t`, from `p` to `q`; the other threads are those of `lock`. */
  lemma TookStep(s: System, run: seq<Event>, now: System, t: Tid, lock: L.State, p: L.Pc, after: L.State, q: L.Pc, others: set<Job>)
    returns (longer: seq<Event>, next: System)
    requires Possible(s, run) && now == After(s, run) && Receives(run, others) && MayStep(now, t)
    requires now.lock == L.Goto(lock, t, p) && L.CanStep(now.lock, t)
    requires L.Effect(now.lock, t) == L.Goto(after, t, p) && L.Following(now.lock, p) == q
    ensures Possible(s, longer) && next == After(s, longer) && Receives(longer, others)
    ensures next == now.(lock := L.Goto(after, t, q))
  {
    GotoTwice(lock, t, p, q);
    GotoTwice(after, t, p, q);
    longer, next := Took(s, run, now, LockStep(t), others);
  }

  /** Lets thread `t` take a free lock that no one has registered. */
  lemma TookLock(s: System, run: seq<Event>, now: System, t: Tid, n: string, others: set<Job>)
    returns (longer: seq<Event>, next: System)
    requires Possible(s, run) && now == After(s, run) && Receives(run, others)
    requires now.lock.create.Free? && n !in now.lock.locks && |now.lock.refs| !in now.lock.holders
    requires L.At(now.lock, t) == L.Seeking(L.LockCreate, n)
    ensures Possible(s, longer) && next == After(s, longer) && Receives(longer, others)
    ensures next == now.(lock := Locks(now.lock, t, n))
  {
    var s0 := now.lock;
    var e := |s0.refs|;
    var held := s0.(create := L.HeldBy(t));
    var added := held.(refs := s0.refs[e := 0], locks := s0.locks[n := e]);
    GotoTwice(s0, t, L.Seeking(L.LockCreate, n), L.Idle);
    longer, next := TookStep(s, run, now, t, s0, L.Seeking(L.LockCreate, n), held, L.Seeking(L.Lookup, n), others);
    longer, next := TookStep(s, longer, next, t, held, L.Seeking(L.Lookup, n), held, L.Seeking(L.Insert, n), others);
    longer, next := TookStep(s, longer, next, t, held, L.Seeking(L.Insert, n), added, L.Using(L.Count, n, e), others);
    longer, next := TookEntry(s, longer, next, t, n, e, added, others);
    assert s0.refs[e := 0][e := 1] == s0.refs[e := 1];
  }

  function Locks(lock: L.State, t: Tid, n: string): L.State {
    var e := |lock.refs|;
    L.Goto(lock.(refs := lock.refs[e := 1], locks := lock.locks[n := e], holders := lock.holders[e := t]),
           t, L.Using(L.Critical, n, e))
  }

  lemma TookEntry(s: System, run: seq<Event>, now: System, t: Tid, n: string, e: L.Entry, lock: L.State, others: set<Job>)
    returns (longer: seq<Event>, next: System)
    requires Possible(s, run) && now == After(s, run) && Receives(run, others)
    requires now.lock == L.Goto(lock, t, L.Using(L.Count, n, e)) && e in lock.refs && e !in lock.holders
    ensures Possible(s, longer) && next == After(s, longer) && Receives(longer, others)
    ensures next == now.(lock := L.Goto(lock.(create := L.Free, refs := lock.refs[e := lock.refs[e] + 1],
                                              holders := lock.holders[e := t]), t, L.Using(L.Critical, n, e)))
  {
    var counted := lock.(refs := lock.refs[e := lock.refs[e] + 1]);
    var freed := counted.(create := L.Free);
    var inside := freed.(holders := freed.holders[e := t]);
    longer, next := TookStep(s, run, now, t, lock, L.Using(L.Count, n, e), counted, L.Using(L.UnlockCreate, n, e), others);
    longer, next := TookStep(s, longer, next, t, counted, L.Using(L.UnlockCreate, n, e), freed, L.Using(L.LockEntry, n, e), others);
    longer, next := TookStep(s, longer, next, t, freed, L.Using(L.LockEntry, n, e), inside, L.Using(L.Critical, n, e), others);
  }

  /** Lets the only user of an entry give it back. */
  lemma GaveBack(s: System, run: seq<Event>, now: System, t: Tid, n: string, e: L.Entry, lock: L.State, others: set<Job>)
    returns (longer: seq<Event>, next: System)
    requires Possible(s, run) && now == After(s, run) && Receives(run, others)
    requires now.lock == L.Goto(lock, t, L.Using(L.Critical, n, e)) && TaskOf(now, t).job.Idle?
    requires lock.create.Free? && n in lock.locks && lock.locks[n] == e && e in lock.refs && lock.refs[e] == 1
    ensures Possible(s, longer) && next == After(s, longer) && Receives(longer, others)
    ensures next == now.(lock := L.Goto(lock.(refs := lock.refs[e := 0], locks := lock.locks - {n},
                                              holders := lock.holders - {e}), t, L.Idle))
  {
    var left := lock.(holders := lock.holders - {e});
    longer, next := TookStep(s, run, now, t, lock, L.Using(L.Critical, n, e), lock, L.Using(L.Find, n, e), others);
    longer, next := TookStep(s, longer, next, t, lock, L.Using(L.Find, n, e), lock, L.Using(L.UnlockEntry, n, e), others);
    longer, next := TookStep(s, longer, next, t, lock, L.Using(L.UnlockEntry, n, e), left, L.Using(L.LockCreateAgain, n, e), others);
    longer, next := Uncounted(s, longer, next, t, n, e, left, others);
  }

  lemma Uncounted(s: System, run: seq<Event>, now: System, t: Tid, n: string, e: L.Entry, lock: L.State, others: set<Job>)
    returns (longer: seq<Event>, next: System)
    requires Possible(s, run) && now == After(s, run) && Receives(run, others)
    requires now.lock == L.Goto(lock, t, L.Using(L.LockCreateAgain, n, e))
    requires lock.create.Free? && e in lock.refs && lock.refs[e] == 1
    ensures Possible(s, longer) && next == After(s, longer) && Receives(longer, others)
    ensures next == now.(lock := L.Goto(lock.(refs := lock.refs[e := 0], locks := lock.locks - {n}), t, L.Idle))
  {
    var held := lock.(create := L.HeldBy(t));
    var uncounted := held.(refs := lock.refs[e := 0]);
    longer, next := TookStep(s, run, now, t, lock, L.Using(L.LockCreateAgain, n, e), held, L.Using(L.Uncount, n, e), others);
    longer, next := TookStep(s, longer, next, t, held, L.Using(L.Uncount, n, e), uncounted, L.Using(L.Drop, n, e), others);
    longer, next := Dropped(s, longer, next, t, n, e, uncounted, others);
  }

  lemma Dropped(s: System, run: seq<Event>, now: System, t: Tid, n: string, e: L.Entry, lock: L.State, others: set<Job>)
    returns (longer: seq<Event>, next: System)
    requires Possible(s, run) && now == After(s, run) && Receives(run, others)
    requires now.lock == L.Goto(lock, t, L.Using(L.Drop, n, e)) && e in lock.refs && lock.refs[e] == 0
    ensures Possible(s, longer) && next == After(s, longer) && Receives(longer, others)
    ensures next == now.(lock := L.Goto(lock.(create := L.Free, locks := lock.locks - {n}), t, L.Idle))
  {
    var dropped := lock.(locks := lock.locks - {n});
    longer, next := TookStep(s, run, now, t, lock, L.Using(L.Drop, n, e), dropped, L.Using(L.UnlockCreateAgain, n, e), others);
    longer, next := TookStep(s, longer, next, t, dropped, L.Using(L.UnlockCreateAgain, n, e), dropped.(create := L.Free), L.Idle, others);
  }

  /** An order is placed, a callback is read by thread 2 if it is a failure, and a notification on
      thread 1 takes the lock. */
  lemma NotifiedFirst(n: string, failure: bool) returns (run: seq<Event>, s: System)
    ensures var others := if failure then {PaymentFailed} else {};
            Possible(Initial(1.0), run) && s == After(Initial(1.0), run) && Receives(run, others)
    ensures s.db == Db(1.0, map[n := Order(7, 1, Pending)], map[], []) && TaskOf(s, 1) == Task(n, Notified)
    ensures TaskOf(s, 2) == if failure then Task(n, SaveFailed(Order(7, 1, Failed))) else Task("", Idle)
    ensures s.lock == Locks(L.Start(L.INITIAL, 1, n), 1, n)
  {
    var s0 := Initial(1.0);
    var others: set<Job> := if failure then {PaymentFailed} else {};
    run, s := Took(s0, [], s0, Place(n, 7, 1), others);
    if failure {
      run, s := Took(s0, run, s, Receive(2, n, PaymentFailed), others);
      run, s := Took(s0, run, s, Handle(2, Stored), others);
    }
    run, s := Took(s0, run, s, Receive(1, n, Notified), others);
    run, s := TookLock(s0, run, s, 1, n, others);
  }

  /** The notification saves success; then the credit goes through or not. */
  lemma PaidOnThreadOne(run: seq<Event>, s: System, n: string, outcome: Outcome, others: set<Job>)
    returns (longer: seq<Event>, next: System)
    requires Possible(Initial(1.0), run) && s == After(Initial(1.0), run) && Receives(run, others)
    requires Critical(s, 1) && TaskOf(s, 1) == Task(n, Notified)
    requires s.db == Db(1.0, map[n := Order(7, 1, Pending)], map[], [])
    ensures Possible(Initial(1.0), longer) && next == After(Initial(1.0), longer) && Receives(longer, others)
    ensures next.lock == s.lock && TaskOf(next, 1).job.Idle? && TaskOf(next, 2) == TaskOf(s, 2)
    ensures next.db.orders == map[n := Order(7, 1, Success)]
    ensures next.db.credits == if outcome.Refused? then [] else [n]
    ensures outcome.Refused? ==> Faulty(Initial(1.0), longer, n)
  {
    var s0 := Initial(1.0);
    longer, next := Took(s0, run, s, Handle(1, Stored), others);
    assert TaskOf(next, 1) == Task(n, SaveSuccess(Order(7, 1, Success)));
    longer, next := Took(s0, longer, next, Handle(1, Stored), others);
    assert TaskOf(next, 1) == Task(n, Credit(Order(7, 1, Success)));
    var before := longer;
    longer, next := Took(s0, longer, next, Handle(1, outcome), others);
    assert longer[..|longer| - 1] == before;
  }

  /** The unlocked failure handler reads pending, the order is paid and credited, and then the
      handler writes failed over it. */
  lemma CreditedMaySayFailed(n: string) returns (run: seq<Event>, s: System)
    ensures Possible(Initial(1.0), run) && s == After(Initial(1.0), run) && Receives(run, {PaymentFailed})
    ensures n in s.db.credits && n in s.db.orders && s.db.orders[n].status.Failed?
  {
    run, s := NotifiedFirst(n, true);
    run, s := PaidOnThreadOne(run, s, n, Stored, {PaymentFailed});
    run, s := Took(Initial(1.0), run, s, Handle(2, Stored), {PaymentFailed});
  }

  /** The order is paid and credited, the lock given back, and then its session expires. */
  lemma CreditedMaySayExpired(n: string) returns (run: seq<Event>, s: System)
    ensures Possible(Initial(1.0), run) && s == After(Initial(1.0), run) && Receives(run, {SessionOver})
    ensures n in s.db.credits && n in s.db.orders && s.db.orders[n].status.Expired?
  {
    var s0, others: set<Job> := Initial(1.0), {SessionOver};
    run, s := NotifiedFirst(n, false);
    run, s := PaidOnThreadOne(run, s, n, Stored, others);
    var lock := L.INITIAL.(refs := map[0 := 1], locks := map[n := 0], holders := map[0 := 1]);
    GotoTwice(lock, 1, L.Seeking(L.LockCreate, n), L.Using(L.Critical, n, 0));
    run, s := GaveBack(s0, run, s, 1, n, 0, lock, others);
    run, s := Took(s0, run, s, Receive(2, n, SessionOver), others);
    run, s := TookLock(s0, run, s, 2, n, others);
    run, s := ExpiredOnThreadTwo(run, s, n, others);
  }

  lemma ExpiredOnThreadTwo(run: seq<Event>, s: System, n: string, others: set<Job>) returns (longer: seq<Event>, next: System)
    requires Possible(Initial(1.0), run) && s == After(Initial(1.0), run) && Receives(run, others)
    requires Critical(s, 2) && TaskOf(s, 2) == Task(n, SessionOver) && n in s.db.orders
    ensures Possible(Initial(1.0), longer) && next == After(Initial(1.0), longer) && Receives(longer, others)
    ensures next.db.credits == s.db.credits && n in next.db.orders && next.db.orders[n].status.Expired?
  {
    longer, next := Took(Initial(1.0), run, s, Handle(2, Stored), others);
    assert TaskOf(next, 2) == Task(n, SaveExpired(s.db.orders[n].(status := Expired)));
    longer, next := Took(Initial(1.0), longer, next, Handle(2, Stored), others);
  }

  /** A run after which every credited order says success. */
  ghost predicate Trusted(perUnit: real, run: seq<Event>)
    requires Possible(Initial(perUnit), run)
  {
    var db := After(Initial(perUnit), run).db;
    forall n :: n in db.credits ==> n in db.orders && db.orders[n].status.Success?
  }

  /** Over all runs whose callbacks are notifications or among `others`, credited orders say success
      exactly when neither expiring sessions nor failing payments are among them. */
  lemma StatusTrustedExactly(others: set<Job>)
    ensures (forall perUnit, run :: Possible(Initial(perUnit), run) && Receives(run, others) ==> Trusted(perUnit, run)) <==>
      SessionOver !in others && PaymentFailed !in others
  {
    if SessionOver in others {
      var run, s := CreditedMaySayExpired("");
      assert Receives(run, others) && !Trusted(1.0, run);
    } else if PaymentFailed in others {
      var run, s := CreditedMaySayFailed("");
      assert Receives(run, others) && !Trusted(1.0, run);
    } else {
      forall perUnit, run | Possible(Initial(perUnit), run) && Receives(run, others) ensures Trusted(perUnit, run) {
        OnlyTheseReceived(perUnit, run, others);
        forall n | n in After(Initial(perUnit), run).db.credits
          ensures n in After(Initial(perUnit), run).db.orders && After(Initial(perUnit), run).db.orders[n].status.Success?
        {
          CreditedSaysSuccess(perUnit, run, n);
        }
      }
    }
  }

  /** Only the three kinds of callback can arrive. */
  lemma {:induction false} OnlyTheseReceived(perUnit: real, run: seq<Event>, others: set<Job>)
    requires Possible(Initial(perUnit), run) && Receives(run, others)
    requires SessionOver !in others && PaymentFailed !in others
    ensures OnlyNotifies(run)
  {
    if run != [] {
      var front, e := run[..|run| - 1], run[|run| - 1];
      assert e in run && run == front + [e];
      OnlyTheseReceived(perUnit, front, others);
    }
  }

  /** The credit is refused after the success was saved: the order stays paid and uncredited. */
  lemma PaidMayStayUncredited(n: string) returns (run: seq<Event>, s: System)
    ensures Possible(Initial(1.0), run) && s == After(Initial(1.0), run) && OnlyNotifies(run)
    ensures Settled(s, n) && s.db.orders[n].status.Success? && n !in s.db.credits
  {
    run, s := NotifiedFirst(n, false);
    run, s := PaidOnThreadOne(run, s, n, Refused, {});
    InitiallyInv(1.0);
    FaultyIsSettled(Initial(1.0), run, n);
  }

  /** An expiring session overwrites any status, that of a credited order too. */
  lemma ExpiryOverwrites(s: System, t: Tid)
    requires Reachable(s) && TaskOf(s, t).job.SessionOver? && Critical(s, t)
    requires TaskOf(s, t).tradeNo in s.db.orders
    ensures var n, read := TaskOf(s, t).tradeNo, Next(s, Handle(t, Stored));
            && Enabled(read, Handle(t, Stored))
            && var next := Next(read, Handle(t, Stored));
            && next.db.orders[n] == s.db.orders[n].(status := Expired)
            && next.db.credits == s.db.credits
  {
    var read := Next(s, Handle(t, Stored));
    assert TaskOf(read, t).job == SaveExpired(s.db.orders[TaskOf(s, t).tradeNo].(status := Expired));
    assert Critical(read, t);
  }

  // ----- The handlers as they are written, uninterrupted

  /** A handler's steps on end, one outcome each. */
  function Handled(db: Db, task: Task, outcomes: seq<Outcome>): Db
    decreases |outcomes|
  {
    if outcomes == [] then db
    else Handled(Effect(db, task, outcomes[0]), task.(job := Following(db, task, outcomes[0])), outcomes[1..])
  }

  lemma HandledMore(db: Db, task: Task, o: Outcome, rest: seq<Outcome>)
    ensures Handled(db, task, [o] + rest) == Handled(Effect(db, task, o), task.(job := Following(db, task, o)), rest)
  {
    assert ([o] + rest)[1..] == rest;
  }

  lemma {:induction false} HandledIdle(db: Db, n: string, outcomes: seq<Outcome>)
    ensures Handled(db, Task(n, Idle), outcomes) == db
  {
    if outcomes != [] {
      HandledIdle(db, n, outcomes[1..]);
    }
  }

  lemma HandledTwo(db: Db, task: Task, first: Outcome, second: Outcome)
    ensures var between := Effect(db, task, first);
            Handled(db, task, [first, second])
              == Effect(between, task.(job := Following(db, task, first)), second)
  {
    HandledMore(db, task, first, [second]);
    HandledMore(Effect(db, task, first), task.(job := Following(db, task, first)), second, []);
    assert [second] + [] == [second];
  }

  /** The same steps in the machine, by a thread that has the lock when its handler needs it. */
  function HandledBy(s: System, t: Tid, outcomes: seq<Outcome>): System
    requires Locked(TaskOf(s, t).job) ==> Critical(s, t)
    decreases |outcomes|
  {
    if outcomes == [] || TaskOf(s, t).job.Idle? then s
    else HandledBy(Next(s, Handle(t, outcomes[0])), t, outcomes[1..])
  }

  /** Handlers that run on end do to the database what their steps do. */
  lemma {:induction false} HandledInSystem(s: System, t: Tid, outcomes: seq<Outcome>)
    requires Locked(TaskOf(s, t).job) ==> Critical(s, t)
    ensures HandledBy(s, t, outcomes).db == Handled(s.db, TaskOf(s, t), outcomes)
    decreases |outcomes|
  {
    if TaskOf(s, t).job.Idle? {
      HandledIdle(s.db, TaskOf(s, t).tradeNo, outcomes);
    } else if outcomes != [] {
      HandledInSystem(Next(s, Handle(t, outcomes[0])), t, outcomes[1..]);
    }
  }

  /** The order is found, and still pending. */
  predicate FoundPending(db: Db, n: string, read: Outcome) {
    n in db.orders && db.orders[n].status == Pending && read != Refused
  }

  /** A notification does nothing unless it finds the order pending. Then the order says success, unless
      the save is refused; and only after a save that is not reported as failed the owner is given the
      integer part of amount times unit, unless that is refused or negative. */
  lemma NotificationMeans(db: Db, n: string, read: Outcome, save: Outcome, credit: Outcome, k: int)
    requires n in db.orders ==> IntegerPart(k, Worth(db, n))
    ensures var r := Handled(db, Task(n, Notified), [read, save, credit]);
      if !FoundPending(db, n, read) then r == db
      else
        var o := db.orders[n];
        var given := save == Stored && credit != Refused && k >= 0;
        && r.perUnit == db.perUnit
        && r.orders == (if save == Refused then db.orders else db.orders[n := Order(o.user, o.amount, Success)])
        && r.credits == (if given then db.credits + [n] else db.credits)
        && forall user :: Balance(r, user) == Balance(db, user) + if given && user == o.user then k else 0
  {
    NotificationSteps(db, n, read, save, credit);
    if FoundPending(db, n, read) {
      PaymentMeans(db, n, save, credit, k);
    }
  }

  /** The database after a notification that finds the order pending. */
  function PaidDb(db: Db, n: string, save: Outcome, credit: Outcome): Db
    requires n in db.orders
  {
    var topUp := db.orders[n].(status := Success);
    var saved := Save(db, n, topUp, save);
    if save == Stored then AddQuota(saved, n, topUp, credit) else saved
  }

  lemma PaymentMeans(db: Db, n: string, save: Outcome, credit: Outcome, k: int)
    requires n in db.orders && IntegerPart(k, Worth(db, n))
    ensures var r, o := PaidDb(db, n, save, credit), db.orders[n];
      var given := save == Stored && credit != Refused && k >= 0;
      && r.perUnit == db.perUnit
      && r.orders == (if save == Refused then db.orders else db.orders[n := Order(o.user, o.amount, Success)])
      && r.credits == (if given then db.credits + [n] else db.credits)
      && forall user :: Balance(r, user) == Balance(db, user) + if given && user == o.user then k else 0
  {
    var topUp := db.orders[n].(status := Success);
    CreditMeans(Save(db, n, topUp, save), n, topUp, credit, k);
  }

  lemma NotificationSteps(db: Db, n: string, read: Outcome, save: Outcome, credit: Outcome)
    ensures Handled(db, Task(n, Notified), [read, save, credit]) ==
      if FoundPending(db, n, read) then PaidDb(db, n, save, credit) else db
  {
    HandledMore(db, Task(n, Notified), read, [save, credit]);
    if FoundPending(db, n, read) {
      HandledTwo(db, Task(n, SaveSuccess(db.orders[n].(status := Success))), save, credit);
    } else {
      HandledIdle(db, n, [save, credit]);
    }
  }

  lemma CreditMeans(db: Db, n: string, o: Order, credit: Outcome, k: int)
    requires IntegerPart(k, o.amount as real * db.perUnit)
    ensures var r := AddQuota(db, n, o, credit);
      var given := credit != Refused && k >= 0;
      && r.perUnit == db.perUnit && r.orders == db.orders
      && r.credits == (if given then db.credits + [n] else db.credits)
      && forall user :: Balance(r, user) == Balance(db, user) + if given && user == o.user then k else 0
  {
    QuotaIsIntegerPart(o.amount, db.perUnit, k);
  }

  /** An expired session and a failed payment write their status over the order they find, the one
      whatever its status, the other only over a pending one; nothing else changes. */
  lemma FailuresMean(db: Db, n: string, read: Outcome, save: Outcome)
    ensures Handled(db, Task(n, SessionOver), [read, save]) ==
      if n in db.orders && read != Refused && save != Refused
      then Db(db.perUnit, db.orders[n := Order(db.orders[n].user, db.orders[n].amount, Expired)], db.quota, db.credits)
      else db
    ensures Handled(db, Task(n, PaymentFailed), [read, save]) ==
      if FoundPending(db, n, read) && save != Refused
      then Db(db.perUnit, db.orders[n := Order(db.orders[n].user, db.orders[n].amount, Failed)], db.quota, db.credits)
      else db
  {
    HandledTwo(db, Task(n, SessionOver), read, save);
    HandledTwo(db, Task(n, PaymentFailed), read, save);
  }

  class Callbacks {
    var db: Db

    /** The stored order, unless there is none or the read fails. */
    method Find(n: string, read: Outcome) returns (order: Option<Order>)
      ensures order == if n in db.orders && !read.Refused? then Some(db.orders[n]) else None
    {
      if n in db.orders && !read.Refused? {
        return Some(db.orders[n]);
      }
      return None;
    }

    method Update(n: string, order: Order, outcome: Outcome) returns (failed: bool)
      modifies this
      ensures db == Save(old(db), n, order, outcome) && failed == !outcome.Stored?
    {
      if !outcome.Refused? {
        db := db.(orders := db.orders[n := order]);
      }
      failed := !outcome.Stored?;
    }

    /** The guarded section of EpayNotify. */
    method EpayNotify(n: string, read: Outcome, save: Outcome, credit: Outcome)
      modifies this
      ensures db == Handled(old(db), Task(n, Notified), [read, save, credit])
    {
      HandledMore(db, Task(n, Notified), read, [save, credit]);
      var order := Find(n, read);
      if order.None? || !order.value.status.Pending? {
        HandledIdle(db, n, [save, credit]);
        return;
      }
      var topUp := order.value.(status := Success);
      HandledTwo(db, Task(n, SaveSuccess(topUp)), save, credit);
      var failed := Update(n, topUp, save);
      if failed {
        return;
      }
      var q := Quota(topUp.amount, db.perUnit);
      if q >= 0 && !credit.Refused? {
        db := db.(quota := db.quota[topUp.user := Balance(db, topUp.user) + q], credits := db.credits + [n]);
      }
    }

    /** The top-up branch of sessionExpired. */
    method SessionExpired(n: string, read: Outcome, save: Outcome)
      modifies this
      ensures db == Handled(old(db), Task(n, SessionOver), [read, save])
    {
      HandledTwo(db, Task(n, SessionOver), read, save);
      var order := Find(n, read);
      if order.None? {
        return;
      }
      var failed := Update(n, order.value.(status := Expired), save);
    }

    /** The branch of handleWaffoPayment for a payment that did not succeed. */
    method WaffoPaymentFailed(n: string, read: Outcome, save: Outcome)
      modifies this
      ensures db == Handled(old(db), Task(n, PaymentFailed), [read, save])
    {
      HandledTwo(db, Task(n, PaymentFailed), read, save);
      var order := Find(n, read);
      if order.Some? && order.value.status.Pending? {
        var failed := Update(n, order.value.(status := Failed), save);
      }
    }
  }
}
