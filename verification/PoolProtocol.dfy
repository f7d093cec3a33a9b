/**
 Every interleaving of any number of threads on the connection pool
 (src/database/DBManager.cpp:77-117, src/database/DBManager.h:61-67).

 A thread's program counter names the next thing it will do. The steps are as fine as
 the mutex makes them visible: taking the lock, each test of the deque, the wait, each
 kind of wake-up, the pop, the push and the notification are separate, and a thread
 that never slept may overtake one that was notified.
 */
module PoolProtocol {
  import opened Wrappers
  import opened ConnectionPool

  /** Why a waiting thread left the queue of the condition variable. */
  datatype Cause = Notified | Spurious | TimedOut

  /** `work` bounds the SQL statements the DAO call still has to run; `expired` says whether
      the deadline of the wait had passed. */
  datatype Pc =
    | Idle                                 // outside the DAOs
    | WantGet(work: nat)                   // wants the mutex in getConnection
    | FirstTest(work: nat)                 // holds it, before the first empty()
    | Sleeping(work: nat)                  // inside wait_for, mutex given up
    | Woken(cause: Cause, work: nat)       // left the queue, wants the mutex back
    | Retest(cause: Cause, work: nat)      // has it back, before the predicate
    | SecondTest(expired: bool, work: nat) // holds it, before the second empty()
    | Validating(conn: Conn, work: nat)    // popped a connection, checks or reconnects it
    | Holding(conn: Conn, work: nat)       // a live guard owns the connection
    | WantRelease(conn: Conn)              // in the guard's destructor, wants the mutex
    | Pushing(conn: Conn)                  // holds it, before push_back
    | Notifying                            // holds it, before notify_one
    | NoConnection                         // was given null: this DAO call fails

  datatype State = State(lock: Option<nat>, pool: seq<Conn>, pcs: seq<Pc>)

  datatype Step =
    | Arrive(t: nat, work: nat)
    | LockToGet(t: nat)
    | Test(t: nat)
    | Wake(t: nat, cause: Cause)
    | Relock(t: nat)
    | TestAgain(t: nat, late: bool)
    | Take(t: nat)
    | Validate(t: nat)
    | Execute(t: nat)
    | Leave(t: nat)
    | LockToRelease(t: nat)
    | Push(t: nat)
    | Notify(t: nat, woken: Option<nat>)
    | Fail(t: nat)

  predicate HasLock(pc: Pc) {
    pc.FirstTest? || pc.Retest? || pc.SecondTest? || pc.Pushing? || pc.Notifying?
  }

  predicate Enabled(s: State, step: Step) {
    step.t < |s.pcs| &&
    var pc := s.pcs[step.t];
    match step
    case Arrive(_, _) => pc.Idle?
    case LockToGet(_) => pc.WantGet? && s.lock.None?
    case Test(_) => pc.FirstTest?
    case Wake(_, cause) => pc.Sleeping? && cause != Notified
    case Relock(_) => pc.Woken? && s.lock.None?
    case TestAgain(_, _) => pc.Retest?
    case Take(_) => pc.SecondTest?
    case Validate(_) => pc.Validating?
    case Execute(_) => pc.Holding? && pc.work > 0
    case Leave(_) => pc.Holding?
    case LockToRelease(_) => pc.WantRelease? && s.lock.None?
    case Push(_) => pc.Pushing?
    case Notify(_, None) => pc.Notifying? && forall u :: 0 <= u < |s.pcs| ==> !s.pcs[u].Sleeping?
    case Notify(_, Some(u)) => pc.Notifying? && u < |s.pcs| && s.pcs[u].Sleeping?
    case Fail(_) => pc.NoConnection?
  }

  function Apply(s: State, step: Step): State
    requires Enabled(s, step)
  {
    var t, pc := step.t, s.pcs[step.t];
    match step
    case Arrive(_, work) => s.(pcs := s.pcs[t := WantGet(work)])
    case LockToGet(_) => State(Some(t), s.pool, s.pcs[t := FirstTest(pc.work)])
    case Test(_) =>
      if s.pool == [] then State(None, s.pool, s.pcs[t := Sleeping(pc.work)])
      else s.(pcs := s.pcs[t := SecondTest(false, pc.work)])
    case Wake(_, cause) => s.(pcs := s.pcs[t := Woken(cause, pc.work)])
    case Relock(_) => State(Some(t), s.pool, s.pcs[t := Retest(pc.cause, pc.work)])
    case TestAgain(_, late) =>
      // An empty deque sends the thread back to sleep unless its deadline has passed.
      if s.pool == [] && pc.cause != TimedOut && !late then
        State(None, s.pool, s.pcs[t := Sleeping(pc.work)])
      else s.(pcs := s.pcs[t := SecondTest(pc.cause == TimedOut || late, pc.work)])
    case Take(_) =>
      if s.pool == [] then State(None, s.pool, s.pcs[t := NoConnection])
      else State(None, s.pool[1..], s.pcs[t := Validating(s.pool[0], pc.work)])
    // A failed reconnect is caught and logged; the connection is handed out either way.
    case Validate(_) => s.(pcs := s.pcs[t := Holding(pc.conn, pc.work)])
    case Execute(_) => s.(pcs := s.pcs[t := Holding(pc.conn, pc.work - 1)])
    // A return and an exception both run the guard's destructor.
    case Leave(_) => s.(pcs := s.pcs[t := WantRelease(pc.conn)])
    case LockToRelease(_) => State(Some(t), s.pool, s.pcs[t := Pushing(pc.conn)])
    case Push(_) => State(s.lock, s.pool + [pc.conn], s.pcs[t := Notifying])
    case Notify(_, woken) =>
      var pcs := s.pcs[t := Idle];
      State(None, s.pool, if woken.None? then pcs
                          else pcs[woken.value := Woken(Notified, s.pcs[woken.value].work)])
    case Fail(_) => s.(pcs := s.pcs[t := Idle])
  }

  ghost predicate ValidRun(s: State, steps: seq<Step>)
    decreases steps
  {
    steps == [] || (Enabled(s, steps[0]) && ValidRun(Apply(s, steps[0]), steps[1..]))
  }

  ghost function AfterRun(s: State, steps: seq<Step>): State
    requires ValidRun(s, steps)
    decreases steps
  {
    if steps == [] then s else AfterRun(Apply(s, steps[0]), steps[1..])
  }

  // ---------------------------------------------------------------------------------
  // Sums over the threads
  // ---------------------------------------------------------------------------------

  function Sum(f: Pc -> nat, pcs: seq<Pc>): nat {
    if pcs == [] then 0 else f(pcs[0]) + Sum(f, pcs[1..])
  }

  lemma {:induction false} SumUpdate(f: Pc -> nat, pcs: seq<Pc>, t: nat, pc: Pc)
    requires t < |pcs|
    ensures Sum(f, pcs[t := pc]) + f(pcs[t]) == Sum(f, pcs) + f(pc)
  {
    if t == 0 {
      assert pcs[0 := pc][1..] == pcs[1..];
    } else {
      SumUpdate(f, pcs[1..], t - 1, pc);
      assert pcs[t := pc][1..] == pcs[1..][t - 1 := pc];
    }
  }

  lemma {:induction false} SumIsZero(f: Pc -> nat, pcs: seq<Pc>)
    ensures Sum(f, pcs) == 0 <==> forall t :: 0 <= t < |pcs| ==> f(pcs[t]) == 0
  {
    if pcs != [] {
      SumIsZero(f, pcs[1..]);
      assert pcs == [pcs[0]] + pcs[1..];
    }
  }

  lemma {:induction false} SumIncludes(f: Pc -> nat, pcs: seq<Pc>, t: nat)
    requires t < |pcs|
    ensures f(pcs[t]) <= Sum(f, pcs)
    ensures forall u :: 0 <= u < t ==> f(pcs[u]) + f(pcs[t]) <= Sum(f, pcs)
  {
    if t > 0 {
      SumIncludes(f, pcs[1..], t - 1);
      forall u | 0 < u < t ensures f(pcs[u]) + f(pcs[t]) <= Sum(f, pcs) {
        assert pcs[1..][u - 1] == pcs[u];
      }
    }
  }

  /** A connection in transit in getConnection, owned by a guard or being returned. */
  predicate Owns(pc: Pc, c: Conn) {
    (pc.Validating? || pc.Holding? || pc.WantRelease? || pc.Pushing?) && pc.conn == c
  }

  function OwnsOne(c: Conn): Pc -> nat {
    (pc: Pc) => if Owns(pc, c) then 1 else 0
  }

  /** How many threads own `c`. */
  function Owners(c: Conn, pcs: seq<Pc>): nat { Sum(OwnsOne(c), pcs) }

  // ---------------------------------------------------------------------------------
  // The invariant
  // ---------------------------------------------------------------------------------

  function Asleep(pc: Pc): nat { if pc.Sleeping? then 1 else 0 }

  /** Threads that a pooled connection is already promised to: those notified that have
      not yet run, and those now inside the mutex about to take or about to notify. */
  function Pending(pc: Pc): nat {
    if (pc.Woken? || pc.Retest?) && pc.cause == Notified then 1
    else if pc.SecondTest? || pc.Notifying? then 1
    else 0
  }

  ghost predicate LockInv(s: State) {
    forall t :: 0 <= t < |s.pcs| ==> (HasLock(s.pcs[t]) <==> s.lock == Some(t))
  }

  ghost predicate LockHeldInv(s: State) {
    s.lock.Some? ==> s.lock.value < |s.pcs|
  }

  ghost predicate Conserved(s: State, conns: seq<Conn>) {
    forall c: Conn :: multiset(s.pool)[c] + Owners(c, s.pcs) == multiset(conns)[c]
  }

  ghost predicate NoLostWakeup(s: State) {
    Sum(Asleep, s.pcs) > 0 ==> |s.pool| <= Sum(Pending, s.pcs)
  }

  /** A thread at its second test sees a connection, or its deadline has passed. */
  ghost predicate SecondTestInv(s: State) {
    forall t :: 0 <= t < |s.pcs| && s.pcs[t].SecondTest? && !s.pcs[t].expired ==> s.pool != []
  }

  ghost predicate Inv(s: State, conns: seq<Conn>) {
    LockInv(s) && LockHeldInv(s) && Conserved(s, conns) && NoLostWakeup(s) && SecondTestInv(s)
  }

  /** `threads` threads outside the DAOs and the pool as the constructor left it. */
  ghost predicate Initial(s: State, conns: seq<Conn>) {
    s.lock.None? && s.pool == conns && forall t :: 0 <= t < |s.pcs| ==> s.pcs[t].Idle?
  }

  lemma InitialInv(s: State, conns: seq<Conn>)
    requires Initial(s, conns)
    ensures Inv(s, conns)
  {
    forall c: Conn ensures Owners(c, s.pcs) == 0 {
      SumIsZero(OwnsOne(c), s.pcs);
    }
    SumIsZero(Asleep, s.pcs);
  }

  lemma LockStep(s: State, step: Step)
    requires LockInv(s) && LockHeldInv(s) && Enabled(s, step)
    ensures LockInv(Apply(s, step)) && LockHeldInv(Apply(s, step))
  {
  }

  lemma SecondTestStep(s: State, step: Step)
    requires LockInv(s) && SecondTestInv(s) && Enabled(s, step)
    ensures SecondTestInv(Apply(s, step))
  {
  }

  lemma PopCount(pool: seq<Conn>, c: Conn)
    requires pool != []
    ensures multiset(pool)[c] == multiset(pool[1..])[c] + if pool[0] == c then 1 else 0
  {
    assert pool == [pool[0]] + pool[1..];
  }

  lemma NotifyOwners(s: State, step: Step, c: Conn)
    requires Enabled(s, step) && step.Notify?
    ensures Owners(c, Apply(s, step).pcs) == Owners(c, s.pcs)
  {
    SumUpdate(OwnsOne(c), s.pcs, step.t, Idle);
    if step.woken.Some? {
      var u := step.woken.value;
      SumUpdate(OwnsOne(c), s.pcs[step.t := Idle], u, Apply(s, step).pcs[u]);
    }
  }

  /** Every other step moves one thread. */
  lemma StepMovesOne(s: State, step: Step)
    requires Enabled(s, step) && !step.Notify?
    ensures var s', t := Apply(s, step), step.t;
            |s'.pcs| == |s.pcs| && s'.pcs == s.pcs[t := s'.pcs[t]]
  {
  }

  /** Only a pop and a push touch the deque, or change what a thread owns. */
  lemma QuietStep(s: State, step: Step, c: Conn)
    requires Enabled(s, step) && !step.Notify? && !step.Take? && !step.Push?
    ensures Apply(s, step).pool == s.pool
    ensures Owns(Apply(s, step).pcs[step.t], c) == Owns(s.pcs[step.t], c)
  {
  }

  lemma TakeOrPush(s: State, step: Step, c: Conn)
    requires Enabled(s, step) && (step.Take? || step.Push?)
    ensures var s', t := Apply(s, step), step.t;
            multiset(s'.pool)[c] + OwnsOne(c)(s'.pcs[t]) == multiset(s.pool)[c] + OwnsOne(c)(s.pcs[t])
  {
    if step.Take? && s.pool != [] {
      PopCount(s.pool, c);
    }
  }

  lemma StepShape(s: State, step: Step, c: Conn)
    requires Enabled(s, step) && !step.Notify?
    ensures var s', t := Apply(s, step), step.t;
            multiset(s'.pool)[c] + OwnsOne(c)(s'.pcs[t]) == multiset(s.pool)[c] + OwnsOne(c)(s.pcs[t])
  {
    if step.Take? || step.Push? {
      TakeOrPush(s, step, c);
    } else {
      QuietStep(s, step, c);
    }
  }

  lemma OwnersStep(s: State, step: Step, c: Conn)
    requires Enabled(s, step)
    ensures var s' := Apply(s, step);
            multiset(s'.pool)[c] + Owners(c, s'.pcs) == multiset(s.pool)[c] + Owners(c, s.pcs)
  {
    if step.Notify? {
      NotifyOwners(s, step, c);
    } else {
      StepShape(s, step, c);
      StepMovesOne(s, step);
      SumUpdate(OwnsOne(c), s.pcs, step.t, Apply(s, step).pcs[step.t]);
    }
  }

  lemma ConservedStep(s: State, step: Step, conns: seq<Conn>)
    requires Conserved(s, conns) && Enabled(s, step)
    ensures Conserved(Apply(s, step), conns)
  {
    forall c: Conn
      ensures multiset(Apply(s, step).pool)[c] + Owners(c, Apply(s, step).pcs) == multiset(conns)[c]
    {
      OwnersStep(s, step, c);
    }
  }

  lemma NoLostWakeupStep(s: State, step: Step)
    requires LockInv(s) && NoLostWakeup(s) && Enabled(s, step)
    ensures NoLostWakeup(Apply(s, step))
  {
    var s', t := Apply(s, step), step.t;
    if step.Notify? && step.woken.Some? {
      var u := step.woken.value;
      SumUpdate(Asleep, s.pcs, t, Idle);
      SumUpdate(Pending, s.pcs, t, Idle);
      SumUpdate(Asleep, s.pcs[t := Idle], u, s'.pcs[u]);
      SumUpdate(Pending, s.pcs[t := Idle], u, s'.pcs[u]);
    } else {
      SumUpdate(Asleep, s.pcs, t, s'.pcs[t]);
      SumUpdate(Pending, s.pcs, t, s'.pcs[t]);
      if step.Notify? {
        SumIsZero(Asleep, s.pcs);
      }
    }
  }

  lemma StepKeepsInv(s: State, step: Step, conns: seq<Conn>)
    requires Inv(s, conns) && Enabled(s, step)
    ensures Inv(Apply(s, step), conns)
  {
    LockStep(s, step);
    ConservedStep(s, step, conns);
    NoLostWakeupStep(s, step);
    SecondTestStep(s, step);
  }

  /** Mutual exclusion, conservation and no lost wakeup hold throughout every run. */
  lemma {:induction false} InvAlways(s: State, steps: seq<Step>, conns: seq<Conn>)
    requires Inv(s, conns) && ValidRun(s, steps)
    ensures Inv(AfterRun(s, steps), conns)
    decreases steps
  {
    if steps != [] {
      StepKeepsInv(s, steps[0], conns);
      InvAlways(Apply(s, steps[0]), steps[1..], conns);
    }
  }

  ghost predicate Reachable(s: State, conns: seq<Conn>) {
    exists s0, steps :: Initial(s0, conns) && ValidRun(s0, steps) && s == AfterRun(s0, steps)
  }

  lemma ReachableInv(s: State, conns: seq<Conn>)
    requires Reachable(s, conns)
    ensures Inv(s, conns)
  {
    var s0, steps :| Initial(s0, conns) && ValidRun(s0, steps) && s == AfterRun(s0, steps);
    InitialInv(s0, conns);
    InvAlways(s0, steps, conns);
  }

  // ---------------------------------------------------------------------------------
  // Conservation and exclusivity
  // ---------------------------------------------------------------------------------

  lemma {:induction false} DistinctMultiplicity(conns: seq<Conn>, c: Conn)
    requires Distinct(conns)
    ensures multiset(conns)[c] <= 1
  {
    if conns != [] {
      assert conns == [conns[0]] + conns[1..];
      DistinctMultiplicity(conns[1..], c);
    }
  }

  lemma RepeatedMultiplicity(conns: seq<Conn>, i: nat, j: nat)
    requires i < j < |conns| && conns[i] == conns[j]
    ensures multiset(conns)[conns[i]] >= 2
  {
    assert conns == conns[..j] + conns[j..];
    assert conns[i] in conns[..j] && conns[j] in conns[j..];
    assert multiset(conns) == multiset(conns[..j]) + multiset(conns[j..]);
  }

  /** In every reachable state what is pooled or owned is exactly what the constructor
      pooled: each connection is once in the deque or has one owner, never both. */
  lemma Exclusivity(s: State, conns: seq<Conn>)
    requires Reachable(s, conns) && Distinct(conns)
    ensures forall c :: c in conns ==> multiset(s.pool)[c] + Owners(c, s.pcs) == 1
    ensures forall c: Conn :: c !in conns ==> c !in s.pool && Owners(c, s.pcs) == 0
    ensures Distinct(s.pool)
  {
    ReachableInv(s, conns);
    forall c: Conn ensures multiset(conns)[c] == if c in conns then 1 else 0 {
      DistinctMultiplicity(conns, c);
    }
    forall i, j | 0 <= i < j < |s.pool| ensures s.pool[i] != s.pool[j] {
      if s.pool[i] == s.pool[j] {
        RepeatedMultiplicity(s.pool, i, j);
        assert false;
      }
    }
  }

  /** The owner of a connection is its only owner. */
  lemma OneOwner(s: State, conns: seq<Conn>, t: nat, c: Conn)
    requires Reachable(s, conns) && Distinct(conns)
    requires t < |s.pcs| && Owns(s.pcs[t], c)
    ensures c in conns && c !in s.pool
    ensures forall u :: 0 <= u < |s.pcs| && u != t ==> !Owns(s.pcs[u], c)
  {
    Exclusivity(s, conns);
    SumIncludes(OwnsOne(c), s.pcs, t);
    assert OwnsOne(c)(s.pcs[t]) == 1 && Owners(c, s.pcs) == 1;
    forall u | 0 <= u < |s.pcs| && u != t ensures !Owns(s.pcs[u], c) {
      SumIncludes(OwnsOne(c), s.pcs, u);
      assert OwnsOne(c)(s.pcs[u]) + OwnsOne(c)(s.pcs[t]) <= Owners(c, s.pcs);
    }
  }

  // ---------------------------------------------------------------------------------
  // No lost wakeup
  // ---------------------------------------------------------------------------------

  function JustNotified(pc: Pc): nat { if pc.Woken? && pc.cause == Notified then 1 else 0 }

  lemma {:induction false} PendingWhenUnlocked(pcs: seq<Pc>)
    requires forall t :: 0 <= t < |pcs| ==> !HasLock(pcs[t])
    ensures Sum(Pending, pcs) == Sum(JustNotified, pcs)
  {
    if pcs != [] {
      PendingWhenUnlocked(pcs[1..]);
    }
  }

  /** Whenever somebody sleeps, at most as many connections are pooled as are promised.
      With the mutex free those promises are to notified threads that have not yet run, and
      with none of those the pool is empty. */
  lemma SleeperMeansPromisedOrEmpty(s: State, conns: seq<Conn>, sleeper: nat)
    requires Reachable(s, conns)
    requires sleeper < |s.pcs| && s.pcs[sleeper].Sleeping?
    ensures |s.pool| <= Sum(Pending, s.pcs)
    ensures s.lock.None? ==> |s.pool| <= Sum(JustNotified, s.pcs)
    ensures s.lock.None? && (forall t :: 0 <= t < |s.pcs| ==> JustNotified(s.pcs[t]) == 0) ==> s.pool == []
  {
    ReachableInv(s, conns);
    SumIsZero(Asleep, s.pcs);
    assert Asleep(s.pcs[sleeper]) == 1;
    if s.lock.None? {
      PendingWhenUnlocked(s.pcs);
      SumIsZero(JustNotified, s.pcs);
    }
  }

  // ---------------------------------------------------------------------------------
  // Who goes without a connection
  // ---------------------------------------------------------------------------------

  /** A thread is given null only by finding the deque empty after its deadline. */
  lemma NullOnlyAfterDeadline(s: State, conns: seq<Conn>, step: Step, t: nat)
    requires Reachable(s, conns) && Enabled(s, step)
    requires t < |s.pcs| && !s.pcs[t].NoConnection? && Apply(s, step).pcs[t].NoConnection?
    ensures step == Take(t) && s.pcs[t].SecondTest? && s.pcs[t].expired && s.pool == []
  {
    ReachableInv(s, conns);
  }

  /** A thread whose deadline has passed does not sleep again: it finds the deque empty and
      leaves without a connection, or takes the front one. */
  lemma ExpiredThreadLeaves(s: State, t: nat, late: bool)
    requires t < |s.pcs| && s.pcs[t].Retest? && (s.pcs[t].cause == TimedOut || late)
    ensures var s1 := Apply(s, TestAgain(t, late));
            && Enabled(s1, Take(t))
            && var s2 := Apply(s1, Take(t));
               && s2.lock.None?
               && (if s.pool == [] then s2.pcs[t] == NoConnection && s2.pool == []
                   else s2.pcs[t] == Validating(s.pool[0], s.pcs[t].work) && s2.pool == s.pool[1..])
  {
  }

  /** A step at which a deadline passes. */
  predicate Expires(step: Step) { (step.Wake? && step.cause == TimedOut) || (step.TestAgain? && step.late) }

  /** No deadline has passed, and nobody has gone without a connection. */
  predicate Prompt(pc: Pc) {
    match pc
    case Woken(cause, _) => cause != TimedOut
    case Retest(cause, _) => cause != TimedOut
    case SecondTest(expired, _) => !expired
    case NoConnection => false
    case _ => true
  }

  ghost predicate AllPrompt(s: State) { forall t :: 0 <= t < |s.pcs| ==> Prompt(s.pcs[t]) }

  lemma PromptStep(s: State, conns: seq<Conn>, step: Step)
    requires Inv(s, conns) && Enabled(s, step) && !Expires(step)
    requires AllPrompt(s)
    ensures AllPrompt(Apply(s, step))
  {
  }

  /** As long as no deadline passes, no call goes without a connection. */
  lemma {:induction false} NobodyFailsBeforeDeadline(s: State, conns: seq<Conn>, steps: seq<Step>)
    requires Inv(s, conns) && AllPrompt(s)
    requires ValidRun(s, steps) && forall k :: 0 <= k < |steps| ==> !Expires(steps[k])
    ensures forall t :: 0 <= t < |AfterRun(s, steps).pcs| ==> !AfterRun(s, steps).pcs[t].NoConnection?
    decreases steps
  {
    if steps != [] {
      PromptStep(s, conns, steps[0]);
      StepKeepsInv(s, steps[0], conns);
      NobodyFailsBeforeDeadline(Apply(s, steps[0]), conns, steps[1..]);
    }
  }

  function OwnsAny(pc: Pc): nat {
    if pc.Validating? || pc.Holding? || pc.WantRelease? || pc.Pushing? then 1 else 0
  }

  /** Pooled and owned connections, counted together. */
  function Total(s: State): nat { |s.pool| + Sum(OwnsAny, s.pcs) }

  lemma TotalStep(s: State, step: Step)
    requires Enabled(s, step)
    ensures Total(Apply(s, step)) == Total(s)
  {
    var s', t := Apply(s, step), step.t;
    if step.Notify? && step.woken.Some? {
      var u := step.woken.value;
      SumUpdate(OwnsAny, s.pcs, t, Idle);
      SumUpdate(OwnsAny, s.pcs[t := Idle], u, s'.pcs[u]);
    } else {
      SumUpdate(OwnsAny, s.pcs, t, s'.pcs[t]);
    }
  }

  lemma {:induction false} OwnersAtMostThreads(pcs: seq<Pc>)
    ensures Sum(OwnsAny, pcs) <= |pcs|
    ensures (exists t :: 0 <= t < |pcs| && OwnsAny(pcs[t]) == 0) ==> Sum(OwnsAny, pcs) < |pcs|
  {
    if pcs != [] {
      OwnersAtMostThreads(pcs[1..]);
      if t :| 0 <= t < |pcs| && OwnsAny(pcs[t]) == 0 {
        assert t > 0 ==> pcs[1..][t - 1] == pcs[t];
      }
    }
  }

  /** It has never waited and has not been given null. */
  predicate NeverWaited(pc: Pc) {
    !pc.Sleeping? && !pc.Woken? && !pc.Retest? && !pc.NoConnection? && (pc.SecondTest? ==> !pc.expired)
  }

  ghost predicate NobodyWaited(s: State) { forall t :: 0 <= t < |s.pcs| ==> NeverWaited(s.pcs[t]) }

  lemma NobodyWaitedStep(s: State, conns: seq<Conn>, step: Step)
    requires Inv(s, conns) && Enabled(s, step) && |s.pcs| <= Total(s)
    requires NobodyWaited(s)
    ensures NobodyWaited(Apply(s, step)) && |Apply(s, step).pcs| == |s.pcs|
  {
    if step.Test? {
      OwnersAtMostThreads(s.pcs);
      assert OwnsAny(s.pcs[step.t]) == 0;
    }
  }

  /** With no more threads than connections nobody ever sleeps or is given null, whatever
      the interleaving. */
  lemma {:induction false} EnoughConnections(s: State, conns: seq<Conn>, steps: seq<Step>)
    requires Inv(s, conns) && |s.pcs| <= Total(s) && NobodyWaited(s)
    requires ValidRun(s, steps)
    ensures forall t :: 0 <= t < |AfterRun(s, steps).pcs| ==>
              !AfterRun(s, steps).pcs[t].Sleeping? && !AfterRun(s, steps).pcs[t].NoConnection?
    decreases steps
  {
    if steps != [] {
      NobodyWaitedStep(s, conns, steps[0]);
      TotalStep(s, steps[0]);
      StepKeepsInv(s, steps[0], conns);
      EnoughConnections(Apply(s, steps[0]), conns, steps[1..]);
    }
  }

  /** From the start of the program, the two conditions under which nobody goes without. */
  lemma NobodyGoesWithout(s: State, conns: seq<Conn>, steps: seq<Step>)
    requires Initial(s, conns) && ValidRun(s, steps)
    ensures (forall k :: 0 <= k < |steps| ==> !Expires(steps[k])) ==>
              forall t :: 0 <= t < |AfterRun(s, steps).pcs| ==> !AfterRun(s, steps).pcs[t].NoConnection?
    ensures |s.pcs| <= |conns| ==>
              forall t :: 0 <= t < |AfterRun(s, steps).pcs| ==>
                !AfterRun(s, steps).pcs[t].Sleeping? && !AfterRun(s, steps).pcs[t].NoConnection?
  {
    InitialInv(s, conns);
    if forall k :: 0 <= k < |steps| ==> !Expires(steps[k]) {
      NobodyFailsBeforeDeadline(s, conns, steps);
    }
    if |s.pcs| <= |conns| {
      EnoughConnections(s, conns, steps);
    }
  }

  // ---------------------------------------------------------------------------------
  // First in, first out
  // ---------------------------------------------------------------------------------

  /** The connection a step hands to its thread, and the one it gives back. */
  function Given(s: State, step: Step): seq<Conn>
    requires Enabled(s, step)
  {
    var pc := Apply(s, step).pcs[step.t];
    if step.Take? && pc.Validating? then [pc.conn] else []
  }

  function GivenBack(s: State, step: Step): seq<Conn>
    requires Enabled(s, step)
  {
    if step.Push? then [s.pcs[step.t].conn] else []
  }

  ghost function AllGiven(s: State, steps: seq<Step>): seq<Conn>
    requires ValidRun(s, steps)
    decreases steps
  {
    if steps == [] then [] else Given(s, steps[0]) + AllGiven(Apply(s, steps[0]), steps[1..])
  }

  ghost function AllGivenBack(s: State, steps: seq<Step>): seq<Conn>
    requires ValidRun(s, steps)
    decreases steps
  {
    if steps == [] then [] else GivenBack(s, steps[0]) + AllGivenBack(Apply(s, steps[0]), steps[1..])
  }

  lemma StepIsFifo(s: State, step: Step)
    requires Enabled(s, step)
    ensures Given(s, step) + Apply(s, step).pool == s.pool + GivenBack(s, step)
  {
  }

  /** In every run, whatever the threads do, connections are handed out in the order they
      lay in the deque followed by the order they were given back in. */
  lemma {:induction false} PoolIsFifo(s: State, steps: seq<Step>)
    requires ValidRun(s, steps)
    ensures AllGiven(s, steps) + AfterRun(s, steps).pool == s.pool + AllGivenBack(s, steps)
    decreases steps
  {
    if steps != [] {
      var s1 := Apply(s, steps[0]);
      var given, back := AllGiven(s1, steps[1..]), AllGivenBack(s1, steps[1..]);
      StepIsFifo(s, steps[0]);
      PoolIsFifo(s1, steps[1..]);
      JoinFifo(Given(s, steps[0]), given, AfterRun(s1, steps[1..]).pool, s1.pool, back, s.pool, GivenBack(s, steps[0]));
    }
  }

  lemma JoinFifo(g: seq<Conn>, given: seq<Conn>, end: seq<Conn>, mid: seq<Conn>, back: seq<Conn>,
                 start: seq<Conn>, b: seq<Conn>)
    requires g + mid == start + b && given + end == mid + back
    ensures (g + given) + end == start + (b + back)
  {
    assert (g + given) + end == g + (given + end);
    assert g + (mid + back) == (g + mid) + back;
    assert (start + b) + back == start + (b + back);
  }

  // ---------------------------------------------------------------------------------
  // Progress
  // ---------------------------------------------------------------------------------

  /** Steps a thread takes by itself: not a new request, not a timeout, not a spurious
      wake-up. */
  predicate Internal(step: Step) { !step.Arrive? && !step.Wake? }

  predicate CanRun(pc: Pc) { !pc.Idle? && !pc.Sleeping? }

  ghost function NextStep(s: State, t: nat): (step: Step)
    requires t < |s.pcs| && CanRun(s.pcs[t])
    ensures Internal(step) && step.t == t
  {
    match s.pcs[t]
    case WantGet(_) => LockToGet(t)
    case FirstTest(_) => Test(t)
    case Woken(_, _) => Relock(t)
    case Retest(_, _) => TestAgain(t, false)
    case SecondTest(_, _) => Take(t)
    case Validating(_, _) => Validate(t)
    case Holding(_, _) => Leave(t)
    case WantRelease(_) => LockToRelease(t)
    case Pushing(_) => Push(t)
    case NoConnection => Fail(t)
    case Notifying =>
      if exists u :: 0 <= u < |s.pcs| && s.pcs[u].Sleeping? then
        var u :| 0 <= u < |s.pcs| && s.pcs[u].Sleeping?;
        Notify(t, Some(u))
      else Notify(t, None)
  }

  lemma AwakeCanMove(s: State, conns: seq<Conn>, t: nat)
    requires Inv(s, conns) && t < |s.pcs| && CanRun(s.pcs[t])
    ensures exists step :: Enabled(s, step) && Internal(step)
  {
    var u := if s.lock.Some? then s.lock.value else t;
    assert CanRun(s.pcs[u]);
    assert Enabled(s, NextStep(s, u));
  }

  lemma {:induction false} SomeOwner(pcs: seq<Pc>, c: Conn) returns (t: nat)
    requires Owners(c, pcs) > 0
    ensures t < |pcs| && Owns(pcs[t], c)
  {
    if Owns(pcs[0], c) {
      t := 0;
    } else {
      t := SomeOwner(pcs[1..], c);
      t := t + 1;
    }
  }

  /** With a non-empty pool configured, an empty deque means that some thread owns a
      connection; that thread is never one that waits for a connection. */
  lemma EmptyPoolHasHolder(s: State, conns: seq<Conn>) returns (t: nat)
    requires Reachable(s, conns) && conns != [] && s.pool == []
    ensures t < |s.pcs| && Owns(s.pcs[t], conns[0]) && CanRun(s.pcs[t])
    ensures !s.pcs[t].WantGet? && !s.pcs[t].Woken? && !s.pcs[t].Sleeping?
  {
    ReachableInv(s, conns);
    assert conns[0] in multiset(conns);
    t := SomeOwner(s.pcs, conns[0]);
  }

  /** Deadlock freedom, without relying on timeouts: while any thread is inside a DAO
      call, some thread can take a step of its own. */
  lemma SomebodyCanMove(s: State, conns: seq<Conn>, t: nat)
    requires Reachable(s, conns) && conns != []
    requires t < |s.pcs| && !s.pcs[t].Idle?
    ensures exists step :: Enabled(s, step) && Internal(step)
  {
    ReachableInv(s, conns);
    if u :| 0 <= u < |s.pcs| && CanRun(s.pcs[u]) {
      AwakeCanMove(s, conns, u);
    } else {
      assert s.lock.None?;
      SumIsZero(JustNotified, s.pcs);
      SleeperMeansPromisedOrEmpty(s, conns, t);
      var holder := EmptyPoolHasHolder(s, conns);
      assert false;
    }
  }

  /** A pool that opened no connection at all can only be left by timeouts: then a state
      with every thread asleep has no step of its own, and each sleeper can time out. */
  lemma AllAsleepNeedsTimeout(s: State, conns: seq<Conn>, t: nat)
    requires Reachable(s, conns) && t < |s.pcs| && s.pcs[t].Sleeping?
    requires forall u :: 0 <= u < |s.pcs| ==> !CanRun(s.pcs[u])
    ensures conns == []
    ensures forall step :: Enabled(s, step) ==> !Internal(step)
    ensures Enabled(s, Wake(t, TimedOut))
  {
    if conns != [] {
      SomebodyCanMove(s, conns, t);
    }
  }

  /** How far a thread is from being idle again. */
  function Rank(pc: Pc): nat {
    match pc
    case Idle => 0
    case NoConnection => 1
    case Notifying => 10
    case Pushing(_) => 11
    case WantRelease(_) => 12
    case Holding(_, work) => 13 + work
    case Validating(_, work) => 14 + work
    case SecondTest(_, work) => 15 + work
    case Retest(cause, work) => (if cause == TimedOut then 16 else 19) + work
    case Woken(cause, work) => (if cause == TimedOut then 17 else 20) + work
    case Sleeping(work) => 18 + work
    case FirstTest(work) => 21 + work
    case WantGet(work) => 22 + work
  }

  function Measure(s: State): nat { Sum(Rank, s.pcs) }

  /** What a step may add to the measure: only a new request and a spurious wake-up do. */
  function Allowance(step: Step): nat {
    match step
    case Arrive(_, work) => 23 + work
    case Wake(_, Spurious) => 3
    case _ => 0
  }

  lemma StepRank(s: State, step: Step)
    requires Enabled(s, step) && !step.Notify?
    ensures Rank(Apply(s, step).pcs[step.t]) + 1 <= Rank(s.pcs[step.t]) + Allowance(step)
  {
  }

  /** Every step that no newcomer or spurious wake-up pays for brings the pool nearer to rest. */
  lemma StepPays(s: State, step: Step)
    requires Enabled(s, step)
    ensures Measure(Apply(s, step)) + 1 <= Measure(s) + Allowance(step)
  {
    var s', t := Apply(s, step), step.t;
    if step.Notify? {
      SumUpdate(Rank, s.pcs, t, Idle);
      if step.woken.Some? {
        var u := step.woken.value;
        SumUpdate(Rank, s.pcs[t := Idle], u, s'.pcs[u]);
      }
    } else {
      StepRank(s, step);
      StepMovesOne(s, step);
      SumUpdate(Rank, s.pcs, t, s'.pcs[t]);
    }
  }

  function Allowances(steps: seq<Step>): nat {
    if steps == [] then 0 else Allowance(steps[0]) + Allowances(steps[1..])
  }

  /** No run is longer than its start, its new requests and its spurious wake-ups allow. */
  lemma {:induction false} RunsAreBounded(s: State, steps: seq<Step>)
    requires ValidRun(s, steps)
    ensures |steps| + Measure(AfterRun(s, steps)) <= Measure(s) + Allowances(steps)
    decreases steps
  {
    if steps != [] {
      StepPays(s, steps[0]);
      RunsAreBounded(Apply(s, steps[0]), steps[1..]);
    }
  }

  lemma {:induction false} RunExtends(s0: State, before: seq<Step>, steps: seq<Step>)
    requires ValidRun(s0, before) && ValidRun(AfterRun(s0, before), steps)
    ensures ValidRun(s0, before + steps)
    ensures AfterRun(s0, before + steps) == AfterRun(AfterRun(s0, before), steps)
    decreases before
  {
    if before == [] {
      assert before + steps == steps;
    } else {
      RunExtends(Apply(s0, before[0]), before[1..], steps);
      assert (before + steps)[1..] == before[1..] + steps;
    }
  }

  lemma ReachableClosed(s: State, conns: seq<Conn>, steps: seq<Step>)
    requires Reachable(s, conns) && ValidRun(s, steps)
    ensures Reachable(AfterRun(s, steps), conns)
  {
    var s0, before :| Initial(s0, conns) && ValidRun(s0, before) && s == AfterRun(s0, before);
    RunExtends(s0, before, steps);
  }

  /** Everybody gets out: once requests stop arriving, every run is finite, and one that
      cannot be continued leaves all threads idle with every connection back in the pool. */
  lemma PoolComesToRest(s: State, conns: seq<Conn>, steps: seq<Step>)
    requires Reachable(s, conns) && conns != [] && ValidRun(s, steps)
    requires Allowances(steps) == 0
    ensures |steps| <= Measure(s)
    ensures var s' := AfterRun(s, steps);
            (forall step :: Enabled(s', step) ==> !Internal(step)) ==>
              && (forall t :: 0 <= t < |s'.pcs| ==> s'.pcs[t].Idle?)
              && multiset(s'.pool) == multiset(conns)
  {
    RunsAreBounded(s, steps);
    ReachableClosed(s, conns, steps);
    var s' := AfterRun(s, steps);
    if forall step :: Enabled(s', step) ==> !Internal(step) {
      forall t | 0 <= t < |s'.pcs| ensures s'.pcs[t].Idle? {
        if !s'.pcs[t].Idle? {
          SomebodyCanMove(s', conns, t);
          assert false;
        }
      }
      ReachableInv(s', conns);
      forall c: Conn ensures multiset(s'.pool)[c] == multiset(conns)[c] {
        SumIsZero(OwnsOne(c), s'.pcs);
      }
    }
  }
}
