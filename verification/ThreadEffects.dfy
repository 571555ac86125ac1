/**
 What callers are told, and what that is worth: who gets a mutex or a unit of a semaphore, and which threads a call
 makes ready. Everything is said of the states before and after a step.
 */
module ThreadEffects {
  import opened ThreadState
  import opened ThreadProofs
  import opened ThreadTheorems
  import opened ThreadOutcomes
  import opened ThreadOrder
  import opened ThreadMutex

  // ---------------------------------------------------------------- mutexes

  /** The call `step` of the running thread is a lock or a trylock of mutex `m`. */
  predicate AsksFor(step: Step, m: Mutex) { (step.Lock? && step.m == m) || step == TryLock(m) }

  /**
   A lock or trylock of mutex `m` by thread `t` returns OK in this step: at once, or because `t` has the CPU again in
   the middle of a lock.
   */
  predicate Acquires(k: Sys, step: Step, k': Sys, m: Mutex, t: Tid) {
    && t == k'.sched.current && t in k'.result && k'.result[t] == OK
    && (if t == k.sched.current then AsksFor(step, m) else WaitsFor(k.resume, m, t))
  }

  /** Thread `t` gives mutex `m` up in this step: its unlock returns OK. */
  predicate GivesUp(k: Sys, step: Step, k': Sys, m: Mutex, t: Tid) {
    step == Unlock(m) && t == k.sched.current && t in k'.result && k'.result[t] == OK
  }

  /** Nobody has mutex `m`, or was woken up to be its next holder. */
  ghost predicate Free(k: Sys, m: Mutex) { m in k.sync.held && forall t :: !Holds(k.sync, k.wait, k.resume, m, t) }

  lemma FreeExactly(k: Sys, m: Mutex)
    requires Inv(k) && IsMutex(k, m)
    ensures Free(k, m) <==> k.sync.owner[m].None?
    ensures Free(k, m) ==> k.sync.held[m] == {}
  {
    assert MutexOk(k.sync, k.wait, k.resume, m);
    forall t | Free(k, m) ensures t !in k.sync.held[m] { assert !Holds(k.sync, k.wait, k.resume, m, t); }
    hide Holds;
  }

  /**
   A lock or a trylock that returns at once returns OK if and only if the mutex is free, and takes it then; otherwise it
   returns EBUSY and changes nothing.
   */
  lemma LockTells(k: Sys, step: Step, m: Mutex)
    requires Inv(k) && Enabled(k, step) && AsksFor(step, m) && Do(k, step).sched.current == k.sched.current
    ensures var k', t := Do(k, step), k.sched.current;
      && t in k'.result && (k'.result[t] == OK <==> Free(k, m))
      && m in k'.sync.held && m in k.sync.held && (k'.result[t] == OK ==> k'.sync.held[m] == {t})
      && (k'.result[t] != OK ==> k'.result[t] == EBUSY && k' == k.(result := k'.result))
  {
    FreeExactly(k, m);
    if Switches(k, step) { LeavesCpu(k, step); }
    hide Inv, Free, Switch;
  }

  /** A lock blocks if and only if the mutex is not free, and the caller is not named as its owner. */
  lemma LockBlocks(k: Sys, m: Mutex, timeout: Option<nat>)
    requires Inv(k) && Enabled(k, Lock(m, timeout))
    ensures Do(k, Lock(m, timeout)).sched.current != k.sched.current
      <==> !Free(k, m) && k.sync.owner[m] != Some(k.sched.current)
  {
    FreeExactly(k, m);
    if Switches(k, Lock(m, timeout)) { LeavesCpu(k, Lock(m, timeout)); } else { StepReady(k, Lock(m, timeout)); }
    hide Inv, Free, Do;
  }

  /** A thread that blocks is not the next one to run. */
  lemma LeavesCpu(k: Sys, step: Step)
    requires Inv(k) && Enabled(k, step) && Switches(k, step) && !step.Yield?
    ensures Do(k, step).sched.current == k.sched.ready[0] != k.sched.current
  {
    StepReady(k, step);
    assert k.sched.ready[0] in k.sched.ready;
    hide Do, ThreadsOk, QueuesOk, TimeoutsOk, SemasOk, MutexesOk;
  }

  /** The switch and the rest of the call of the resumed thread, as far as mutexes go. */
  lemma SwitchHeld(l: Sys, m: Mutex, u: Tid)
    requires l.sched.ready != [] && u == l.sched.ready[0] && m in l.sync.held && m in l.sync.owner
    ensures var k', taken := Switch(l), WaitsFor(l.resume, m, u) && WaitResult(l.wait, u) == OK;
      && k'.sched.current == u && m in k'.sync.held
      && k'.sync.held[m] == (if taken then l.sync.held[m] + {u} else l.sync.held[m])
      && (WaitsFor(l.resume, m, u) ==> u in k'.result && k'.result[u] == WaitResult(l.wait, u))
  {
    hide AfterSleep, AfterWait;
  }

  lemma SwitchHolds(k: Sys, step: Step, m: Mutex, t: Tid)
    requires Inv(k) && Enabled(k, step) && Switches(k, step) && IsMutex(k, m)
    ensures var k' := Do(k, step);
      m in k'.sync.held && (t in k'.sync.held[m] <==> Acquires(k, step, k', m, t) || t in k.sync.held[m])
  {
    hide Inv, Do, Left, Switch, Enabled, Switches;
    DoIsSwitch(k, step);
    LeftShape(k, step);
    LeftSync(k, step);
    var l := Left(k, step);
    SwitchHeld(l, m, l.sched.ready[0]);
    CurrentActive(k);
    if !step.Yield? { LeavesCpu(k, step); }
  }

  lemma LeftSync(k: Sys, step: Step)
    requires Enabled(k, step) && Switches(k, step)
    ensures Left(k, step).sync.held == k.sync.held && Left(k, step).sync.owner == k.sync.owner
  {}

  lemma UnlockHeld(k: Sys, m: Mutex)
    requires IsMutex(k, m)
    ensures var k', t := DoUnlock(k, m), k.sched.current;
      && k'.sched.current == t && t in k'.result && k'.result == k.result[t := k'.result[t]]
      && (k'.result[t] == OK <==> k.sync.owner[m] == Some(t)) && (k'.result[t] != OK ==> k'.result[t] == EPERM)
      && k'.sync.held == if k.sync.owner[m] == Some(t) then k.sync.held[m := k.sync.held[m] - {t}] else k.sync.held
  {
    var y := k.sync.(held := k.sync.held[m := k.sync.held[m] - {k.sched.current}]);
    var b := Return(k.(sync := y), OK);
    WakeupSync(b, OfMutex(m), 1, OK);
    WakeupSched(b, OfMutex(m), 1, OK);
    hide Wakeup;
  }

  lemma UpSync(k: Sys, s: Sema)
    requires IsSema(k, s)
    ensures var k' := Do(k, Up(s));
      k'.sync.held == k.sync.held && k'.sync.owner == k.sync.owner && k'.result == k.result
  {
    hide Wakeup, Do;
    var l := k.wait.queues[OfSema(s)];
    var y := k.sync.(value := k.sync.value[s := k.sync.value[s] + 1], ups := k.sync.ups[s := k.sync.ups[s] + 1]);
    UpIs(k, s);
    WakeupSync(k.(sync := if l == [] then y else Grant(y, s, l[0])), OfSema(s), 1, OK);
  }

  lemma QuietHeld(k: Sys, step: Step)
    requires Enabled(k, step) && !Switches(k, step) && !step.Lock? && !step.TryLock? && !step.Unlock?
    ensures Do(k, step).sync.held == k.sync.held
  {
    match step {
      case WakeupPlain(id, n, status) => WakeupSync(k, Plain(id), n, status);
      case Tick => FireDueSame(k.(clock := k.clock.(now := k.clock.now + k.clock.tick)));
      case Up(s) => UpSync(k, s);
      case _ => hide Wakeup, FireDue;
    }
  }

  lemma AskHolds(k: Sys, step: Step, p: Mutex, m: Mutex, t: Tid)
    requires Enabled(k, step) && !Switches(k, step) && AsksFor(step, p) && IsMutex(k, m)
    ensures var k' := Do(k, step);
      && k'.sched.current == k.sched.current && m in k'.sync.held
      && (t in k'.sync.held[m] <==> Acquires(k, step, k', m, t) || t in k.sync.held[m])
  {}

  /**
   Exactly the threads that are told OK have the mutex: a thread has it after a step if and only if its lock or trylock
   returned OK in that step, or it had it and did not give it up.
   */
  lemma HeldExactly(k: Sys, step: Step, m: Mutex, t: Tid)
    requires Inv(k) && Enabled(k, step) && IsMutex(k, m)
    ensures var k' := Do(k, step);
      && m in k'.sync.held
      && (t in k'.sync.held[m]
        <==> Acquires(k, step, k', m, t) || (t in k.sync.held[m] && !GivesUp(k, step, k', m, t)))
  {
    hide Inv, Do, DoUnlock;
    CurrentActive(k);
    if Switches(k, step) {
      SwitchHolds(k, step, m, t);
    } else {
      StepReady(k, step);
      match step {
        case Lock(p, _) => AskHolds(k, step, p, m, t);
        case TryLock(p) => AskHolds(k, step, p, m, t);
        case Unlock(p) => UnlockIs(k, p); UnlockHeld(k, p);
        case _ => QuietHeld(k, step);
      }
    }
  }

  /** A lock that was blocked returns OK if and only if its thread has the mutex then, and so if it was woken up. */
  lemma LockReturns(k: Sys, step: Step, m: Mutex, t: Tid)
    requires Inv(k) && Enabled(k, step) && IsMutex(k, m) && WaitsFor(k.resume, m, t)
    requires Do(k, step).sched.current == t
    ensures var k' := Do(k, step);
      && t in k'.result && m in k'.sync.held
      && (k'.result[t] == OK <==> t in k'.sync.held[m]) && (k'.result[t] == OK <==> t in k.wait.woken)
  {
    CurrentActive(k);
    StepReady(k, step);
    NotHeldYet(k, m, t);
    HeldExactly(k, step, m, t);
    hide Do;
    DoIsSwitch(k, step);
    LeftShape(k, step);
    LeftSync(k, step);
    SwitchHeld(Left(k, step), m, t);
    hide Inv, Left, Switch;
  }

  lemma NotHeldYet(k: Sys, m: Mutex, t: Tid)
    requires Inv(k) && IsMutex(k, m) && WaitsFor(k.resume, m, t)
    ensures t !in k.sync.held[m] && (t in k.wait.woken ==> k.wait.woken[t] == OK)
  {
    assert MutexOk(k.sync, k.wait, k.resume, m);
    hide SchedOk, ThreadsOk, TimeoutsOk, SemasOk, MutexesOk;
  }

  // ---------------------------------------------------------------- mutexes, over runs

  /**
   Between the step in which the lock or trylock of a thread returns OK, and its next unlock that does, no lock or
   trylock of another thread returns OK.
   */
  lemma NoSecondLock(ks: seq<Sys>, steps: seq<Step>, m: Mutex, t: Tid, u: Tid, i: nat, j: nat)
    requires IsRun(ks, steps) && i < j < |steps| && IsMutex(ks[i], m) && t != u
    requires Acquires(ks[i], steps[i], ks[i + 1], m, t)
    requires forall n :: i < n < j ==> !GivesUp(ks[n], steps[n], ks[n + 1], m, t)
    ensures !Acquires(ks[j], steps[j], ks[j + 1], m, u)
  {
    hide Inv, Acquires, GivesUp, IsStep;
    StillHeld(ks, steps, m, t, i, j);
    if Acquires(ks[j], steps[j], ks[j + 1], m, u) {
      RunKeeps(ks, steps, j);
      assert IsStep(ks[j], steps[j], ks[j + 1]);
      IsDo(ks[j], steps[j], ks[j + 1]);
      TakenStep(ks, steps, m, j, t);
      TakenStep(ks, steps, m, j, u);
      SameCurrent(ks[j], steps[j], m, t, u);
      RunKeeps(ks, steps, j + 1);
      AtMostOneHolder(ks[j + 1], m);
    }
  }

  lemma IsDo(k: Sys, step: Step, k': Sys)
    requires IsStep(k, step, k')
    ensures Enabled(k, step) && k' == Do(k, step)
  {}

  lemma SameCurrent(k: Sys, step: Step, m: Mutex, t: Tid, u: Tid)
    requires Enabled(k, step) && Acquires(k, step, Do(k, step), m, u) && t != u
    ensures !GivesUp(k, step, Do(k, step), m, t)
  {
    StepReady(k, step);
    hide Do;
  }

  lemma TakenStep(ks: seq<Sys>, steps: seq<Step>, m: Mutex, j: nat, t: Tid)
    requires IsRun(ks, steps) && j < |steps| && IsMutex(ks[j], m)
    ensures IsMutex(ks[j + 1], m)
    ensures t in ks[j + 1].sync.held[m]
      <==> (Acquires(ks[j], steps[j], ks[j + 1], m, t)
        || (t in ks[j].sync.held[m] && !GivesUp(ks[j], steps[j], ks[j + 1], m, t)))
  {
    hide Inv, Acquires, GivesUp, Allowed, Enabled;
    RunKeeps(ks, steps, j);
    assert IsStep(ks[j], steps[j], ks[j + 1]);
    assert ks[j + 1] == Do(ks[j], steps[j]);
    hide Do;
    HeldExactly(ks[j], steps[j], m, t);
    MutexStays(ks[j], steps[j], m);
  }

  lemma OwnersStay(k: Sys, step: Step, m: Mutex)
    requires Enabled(k, step) && m in k.sync.owner
    ensures m in Do(k, step).sync.owner
  {
    if Switches(k, step) {
      DoIsSwitch(k, step);
      LeftSync(k, step);
      SwitchOwner(Left(k, step), m);
      hide Do, Left, Switch;
    } else {
      match step {
        case WakeupPlain(id, n, status) => WakeupSync(k, Plain(id), n, status);
        case Tick => FireDueSame(k.(clock := k.clock.(now := k.clock.now + k.clock.tick)));
        case Up(s) => UpSync(k, s);
        case Unlock(p) => UnlockOwner(k, p, m);
        case _ => hide Wakeup, FireDue;
      }
    }
  }

  lemma SwitchOwner(l: Sys, m: Mutex)
    requires l.sched.ready != [] && m in l.sync.owner
    ensures m in Switch(l).sync.owner
  {
    hide AfterSleep, AfterWait, Dispatch;
  }

  lemma UnlockOwner(k: Sys, p: Mutex, m: Mutex)
    requires IsMutex(k, p) && m in k.sync.owner
    ensures m in DoUnlock(k, p).sync.owner
  {
    var y := k.sync.(held := k.sync.held[p := k.sync.held[p] - {k.sched.current}]);
    WakeupSync(Return(k.(sync := y), OK), OfMutex(p), 1, OK);
    hide Wakeup;
  }

  lemma MutexStays(k: Sys, step: Step, m: Mutex)
    requires Inv(k) && Enabled(k, step) && Allowed(k, step) && IsMutex(k, m)
    ensures IsMutex(Do(k, step), m)
  {
    hide Inv, Do, Enabled;
    HeldExactly(k, step, m, 0);
    QueuesStay(k, step, OfMutex(m));
    OwnersStay(k, step, m);
  }

  lemma {:induction false} StillHeld(ks: seq<Sys>, steps: seq<Step>, m: Mutex, t: Tid, i: nat, j: nat)
    requires IsRun(ks, steps) && i < j < |steps| && IsMutex(ks[i], m)
    requires Acquires(ks[i], steps[i], ks[i + 1], m, t)
    requires forall n :: i < n < j ==> !GivesUp(ks[n], steps[n], ks[n + 1], m, t)
    ensures IsMutex(ks[j], m) && t in ks[j].sync.held[m]
    decreases j
  {
    hide Inv, Acquires, GivesUp, IsStep;
    if j == i + 1 {
      TakenStep(ks, steps, m, i, t);
    } else {
      StillHeld(ks, steps, m, t, i, j - 1);
      TakenStep(ks, steps, m, j - 1, t);
    }
  }

  // ---------------------------------------------------------------- unlocking, and semaphores

  /**
   An unlock returns OK if and only if the caller is named as the owner, who then does not have the mutex any more: it
   is marked free if nobody waits, and otherwise the first waiter leaves the queue, to be told OK. Anyone else gets
   EPERM.
   */
  lemma UnlockTells(k: Sys, m: Mutex)
    requires Inv(k) && IsMutex(k, m)
    ensures var k', t, l := Do(k, Unlock(m)), k.sched.current, k.wait.queues[OfMutex(m)];
      && t in k'.result && IsMutex(k', m)
      && (if k.sync.owner[m] == Some(t)
          then k'.result[t] == OK && t !in k'.sync.held[m]
            && (if l == [] then k'.sync.owner[m].None? && k'.wait == k.wait
                else k'.sync.owner[m].Some? && Took(k.wait, k'.wait, OfMutex(m), 1, OK))
          else k'.result[t] == EPERM && k' == k.(result := k'.result))
  {
    UnlockIs(k, m);
    UnlockHeld(k, m);
    hide Do;
    assert QueuesOk(k.wait, k.resume);
    hide Inv;
    var y := k.sync.(held := k.sync.held[m := k.sync.held[m] - {k.sched.current}]);
    var b := Return(k.(sync := y), OK);
    WakeupTakes(b, OfMutex(m), 1, OK);
    WakeupSync(b, OfMutex(m), 1, OK);
    hide QueuesOk, Wakeup;
  }

  /** A trydown returns OK if and only if there is a unit, and takes it then; otherwise it returns EBUSY. */
  lemma TryDownTells(k: Sys, s: Sema)
    requires IsSema(k, s)
    ensures var k', t := Do(k, TryDown(s)), k.sched.current;
      && t in k'.result && s in k'.sync.value && (k'.result[t] == OK <==> k.sync.value[s] >= 1)
      && k'.sync.value[s] == (if k'.result[t] == OK then k.sync.value[s] - 1 else k.sync.value[s])
      && (k'.result[t] != OK ==> k'.result[t] == EBUSY && k' == k.(result := k'.result))
  {}

  /** A down returns at once if and only if there is a unit, and then it returns OK and took it. */
  lemma DownTells(k: Sys, s: Sema, timeout: Option<nat>)
    requires Inv(k) && Enabled(k, Down(s, timeout))
    ensures var k', t := Do(k, Down(s, timeout)), k.sched.current;
      && (k'.sched.current == t <==> k.sync.value[s] >= 1)
      && (k'.sched.current == t ==>
            t in k'.result && k'.result[t] == OK && s in k'.sync.value && k'.sync.value[s] == k.sync.value[s] - 1)
  {
    if Switches(k, Down(s, timeout)) { LeavesCpu(k, Down(s, timeout)); }
    hide Inv, Switch;
  }

  /**
   A call that does not give up the CPU takes off their queues, with their status, exactly the waiters it is about: as
   many as asked for from a queue of its own, the first of a semaphore, the first of a mutex that its caller owns.
   */
  lemma WakesExactly(k: Sys, step: Step)
    requires Inv(k) && Enabled(k, step) && !Switches(k, step)
    ensures var w, w', qs := k.wait, Do(k, step).wait, k.wait.queues;
      match step
      case WakeupPlain(id, n, status) => var m := |qs[Plain(id)]|;
        Took(w, w', Plain(id), if n <= m then n else m, status)
      case Up(s) => Took(w, w', OfSema(s), if qs[OfSema(s)] == [] then 0 else 1, OK)
      case Unlock(m) => var mine := k.sync.owner[m] == Some(k.sched.current);
        Took(w, w', OfMutex(m), if mine && qs[OfMutex(m)] != [] then 1 else 0, OK)
      case _ => w' == w
  {
    hide Inv, Wakeup, Took, DoUnlock, FireDue;
    match step {
      case WakeupPlain(id, n, status) =>
        Asleep(k, Plain(id));
        WakeupTakes(k, Plain(id), n, status);
      case Up(s) =>
        Asleep(k, OfSema(s));
        UpIs(k, s);
        var l := k.wait.queues[OfSema(s)];
        var y := k.sync.(value := k.sync.value[s := k.sync.value[s] + 1], ups := k.sync.ups[s := k.sync.ups[s] + 1]);
        WakeupTakes(k.(sync := if l == [] then y else Grant(y, s, l[0])), OfSema(s), 1, OK);
      case Unlock(m) =>
        UnlockTells(k, m);
        NoneTaken(k.wait, OfMutex(m));
      case Tick => FireDueSame(k.(clock := k.clock.(now := k.clock.now + k.clock.tick)));
      case _ =>
    }
  }

  lemma NoneTaken(w: Waiting, q: Queue)
    requires q in w.queues
    ensures Took(w, w, q, 0, OK)
  {
    assert w.queues[q][0..] == w.queues[q];
  }

  /**
   Nobody else is told anything: a call leaves its result with its caller if it returns at once, and with the thread
   that gets the CPU if that returns from a sleep or a wait.
   */
  lemma OnlyCallersTold(k: Sys, step: Step, u: Tid)
    requires Inv(k) && Enabled(k, step)
    requires if Switches(k, step) then !Inside(k, u) || Do(k, step).sched.current != u else u != k.sched.current
    ensures var k' := Do(k, step);
      (u in k'.result <==> u in k.result) && (u in k.result ==> k'.result[u] == k.result[u])
  {
    hide Inv, Do;
    if Switches(k, step) {
      SwitchTells(k, step, u);
    } else {
      match step {
        case WakeupPlain(id, n, status) => WakeupTellsNone(k, id, n, status);
        case Tick => TickTellsNone(k);
        case Up(s) => UpSync(k, s);
        case Unlock(m) => UnlockIs(k, m); UnlockHeld(k, m);
        case _ => OwnResult(k, step, u);
      }
    }
  }

  lemma WakeupTellsNone(k: Sys, id: nat, n: nat, status: Ret)
    requires Enabled(k, WakeupPlain(id, n, status))
    ensures Do(k, WakeupPlain(id, n, status)).result == k.result
  {
    WakeupSync(k, Plain(id), n, status);
    hide Wakeup;
  }

  lemma TickTellsNone(k: Sys)
    ensures Do(k, Tick).result == k.result
  {
    FireDueSame(k.(clock := k.clock.(now := k.clock.now + k.clock.tick)));
    hide FireDue;
  }

  lemma SwitchTells(k: Sys, step: Step, u: Tid)
    requires Inv(k) && Enabled(k, step) && Switches(k, step) && (!Inside(k, u) || Do(k, step).sched.current != u)
    ensures var k' := Do(k, step);
      (u in k'.result <==> u in k.result) && (u in k.result ==> k'.result[u] == k.result[u])
  {
    hide Inv, Do, Left, Switch, Enabled, Switches;
    CurrentActive(k);
    if !step.Yield? { LeavesCpu(k, step); }
    StepReady(k, step);
    DoIsSwitch(k, step);
    LeftShape(k, step);
    SwitchResult(Left(k, step), u);
  }

  lemma SwitchResult(l: Sys, u: Tid)
    requires l.sched.ready != [] && (!Inside(l, u) || l.sched.ready[0] != u)
    ensures var k' := Switch(l);
      && k'.sched.current == l.sched.ready[0]
      && (u in k'.result <==> u in l.result) && (u in l.result ==> k'.result[u] == l.result[u])
  {
    hide AfterCall, AfterSleep, AfterWait;
  }

  lemma OwnResult(k: Sys, step: Step, u: Tid)
    requires Enabled(k, step) && !Switches(k, step) && u != k.sched.current
    requires !step.WakeupPlain? && !step.Tick? && !step.Up? && !step.Unlock?
    ensures var k' := Do(k, step);
      (u in k'.result <==> u in k.result) && (u in k.result ==> k'.result[u] == k.result[u])
  {
    hide SetReadyRaced, Unblock;
  }

  // ---------------------------------------------------------------- who gets ready

  /** The threads that a step calls for, in order; those that are asleep, or new, get ready. */
  function Roused(k: Sys, step: Step): seq<Tid>
    requires Exists(k, step)
  {
    match step
    case WakeupPlain(id, n, _) => var l := k.wait.queues[Plain(id)]; l[..if n <= |l| then n else |l|]
    case Up(s) => var l := k.wait.queues[OfSema(s)]; if l == [] then [] else [l[0]]
    case Unlock(m) => var l := k.wait.queues[OfMutex(m)];
      if l == [] || k.sync.owner[m] != Some(k.sched.current) then [] else [l[0]]
    case ForceUnblock(t) => [t]
    case Enqueue(t, point, inside) => if BeforeWindow(k.sched.ready, point) then inside + [t] else [t] + inside
    case _ => []
  }

  /** Exactly the threads of `l` that were asleep or new are ready now, behind those that were, in the order of `l`. */
  predicate MadeReady(c: Sched, c': Sched, l: seq<Tid>) {
    && c'.current == c.current && c'.ready == c.ready + Sleepers(c.state, l) && c'.state.Keys == c.state.Keys
    && (forall u :: u in c.state ==> c'.state[u] == if u in Sleepers(c.state, l) then Ready else c.state[u])
  }

  lemma {:induction false} SleepersIn(state: map<Tid, Run>, l: seq<Tid>)
    ensures forall t ::
      t in Sleepers(state, l) <==> t in l && t in state && (state[t] == Blocked || state[t] == Created)
  {
    if l == [] {
    } else {
      SleepersIn(state, l[1..]);
      assert l == [l[0]] + l[1..];
    }
  }

  lemma OneReady(c: Sched, t: Tid)
    requires t in c.state && (c.state[t] == Blocked || c.state[t] == Ready || c.state[t] == Created)
    ensures MadeReady(c, SetReady(c, t), [t])
  {
    assert Sleepers(c.state, [t][1..]) == [];
  }

  lemma {:induction false} SleepersConcat(state: map<Tid, Run>, l: seq<Tid>, r: seq<Tid>)
    ensures Sleepers(state, l + r) == Sleepers(state, l) + Sleepers(state, r)
  {
    if l == [] {
      assert l + r == r;
    } else {
      SleepersConcat(state, l[1..], r);
      assert (l + r)[1..] == l[1..] + r;
    }
  }

  lemma MadeReadyMore(c: Sched, c1: Sched, c2: Sched, l: seq<Tid>, r: seq<Tid>)
    requires MadeReady(c, c1, l) && MadeReady(c1, c2, r) && forall t :: t in l ==> t !in r
    ensures MadeReady(c, c2, l + r)
  {
    SleepersIn(c.state, l);
    SleepersIn(c1.state, r);
    forall u | u in r ensures (u in c.state <==> u in c1.state) && (u in c.state ==> c.state[u] == c1.state[u]) {}
    SleepersFrame(c.state, c1.state, r);
    SleepersConcat(c.state, l, r);
    hide Sleepers;
  }

  lemma AsleepStill(k: Sys, q: Queue, status: Ret)
    requires q in k.wait.queues && k.wait.queues[q] != [] && NoDup(k.wait.queues[q])
    requires forall t :: t in k.wait.queues[q] ==>
      t in k.sched.state && (k.sched.state[t] == Blocked || k.sched.state[t] == Ready)
    ensures var b, l := TakeWaiter(k, q, status), k.wait.queues[q];
      && q in b.wait.queues && b.wait.queues[q] == l[1..] && b.sched == SetReady(k.sched, l[0])
      && NoDup(l[1..])
      && forall t :: t in l[1..] ==> t in b.sched.state && (b.sched.state[t] == Blocked || b.sched.state[t] == Ready)
  {
    assert forall t :: t in k.wait.queues[q][1..] ==> t in k.wait.queues[q];
  }

  lemma {:induction false} WakeupReady(k: Sys, q: Queue, n: nat, status: Ret)
    requires q in k.wait.queues && NoDup(k.wait.queues[q])
    requires forall t :: t in k.wait.queues[q] ==>
      t in k.sched.state && (k.sched.state[t] == Blocked || k.sched.state[t] == Ready)
    ensures var l := k.wait.queues[q];
      MadeReady(k.sched, Wakeup(k, q, n, status).sched, l[..if n <= |l| then n else |l|])
    decreases n
  {
    hide MadeReady, SetReady, Wakeup, TakeWaiter;
    var l := k.wait.queues[q];
    if n == 0 || l == [] {
      NoneWoken(k, q, n, status);
      assert l[..0] == [];
    } else {
      var b, r, m := TakeWaiter(k, q, status), l[1..], if n - 1 <= |l| - 1 then n - 1 else |l| - 1;
      assert l == [l[0]] + r && l[0] in l && l[0] !in r;
      OneReady(k.sched, l[0]);
      AsleepStill(k, q, status);
      WakeupReady(b, q, n - 1, status);
      assert l[..m + 1] == [l[0]] + r[..m];
      MadeReadyMore(k.sched, b.sched, Wakeup(b, q, n - 1, status).sched, [l[0]], r[..m]);
      WakeupOnce(k, q, n, status);
    }
  }

  lemma NoneWoken(k: Sys, q: Queue, n: nat, status: Ret)
    requires q in k.wait.queues && (n == 0 || k.wait.queues[q] == [])
    ensures MadeReady(k.sched, Wakeup(k, q, n, status).sched, [])
  {}

  /**
   A call that does not give up the CPU makes ready exactly the threads it calls for that are asleep, or new, in their
   order, behind those that were ready. (A tick does so with the threads whose timeouts are due, see
   `ThreadOrder.TickFires`.)
   */
  lemma ReadyExactly(k: Sys, step: Step)
    requires Inv(k) && Enabled(k, step) && !Switches(k, step) && !step.Tick? && !step.Create? && NotRaced(k, step)
    ensures MadeReady(k.sched, Do(k, step).sched, Roused(k, step))
  {
    hide Inv, MadeReady, Wakeup, DoUp, DoUnlock, SetReadyRaced, Unblock;
    match step {
      case WakeupPlain(id, n, status) =>
        Asleep(k, Plain(id));
        WakeupReady(k, Plain(id), n, status);
      case Up(s) => UpReady(k, s);
      case Unlock(m) => UnlockReady(k, m);
      case Enqueue(t, point, inside) => EnqueuedReady(k, t, point, inside);
      case ForceUnblock(t) => ForcedReady(k.sched, t);
      case _ => QuietReady(k, step);
    }
  }

  lemma QuietReady(k: Sys, step: Step)
    requires Enabled(k, step) && !Switches(k, step) && (step.Down? || step.TryDown? || step.Lock? || step.TryLock?)
    ensures MadeReady(k.sched, Do(k, step).sched, [])
  {}

  lemma Asleep(k: Sys, q: Queue)
    requires Inv(k) && q in k.wait.queues
    ensures NoDup(k.wait.queues[q])
    ensures forall t :: t in k.wait.queues[q] ==>
      t in k.sched.state && (k.sched.state[t] == Blocked || k.sched.state[t] == Ready)
  {
    forall t | t in k.wait.queues[q]
      ensures t in k.sched.state && (k.sched.state[t] == Blocked || k.sched.state[t] == Ready)
    {
      assert Waits(k.wait, k.resume, t, q);
      WaitersAreAsleep(k, t);
    }
  }

  lemma UpReady(k: Sys, s: Sema)
    requires Inv(k) && IsSema(k, s)
    ensures MadeReady(k.sched, Do(k, Up(s)).sched, Roused(k, Up(s)))
  {
    hide Inv, Do, MadeReady, Wakeup;
    Asleep(k, OfSema(s));
    var l := k.wait.queues[OfSema(s)];
    var y := k.sync.(value := k.sync.value[s := k.sync.value[s] + 1], ups := k.sync.ups[s := k.sync.ups[s] + 1]);
    UpIs(k, s);
    WakeupReady(k.(sync := if l == [] then y else Grant(y, s, l[0])), OfSema(s), 1, OK);
    if l == [] { assert l[..0] == []; } else { assert l[..1] == [l[0]]; }
  }

  lemma UnlockReady(k: Sys, m: Mutex)
    requires Inv(k) && IsMutex(k, m)
    ensures MadeReady(k.sched, Do(k, Unlock(m)).sched, Roused(k, Unlock(m)))
  {
    hide Inv, Do, Wakeup;
    Asleep(k, OfMutex(m));
    UnlockIs(k, m);
    var l := k.wait.queues[OfMutex(m)];
    if k.sync.owner[m] == Some(k.sched.current) && l != [] {
      var y := k.sync.(held := k.sync.held[m := k.sync.held[m] - {k.sched.current}]);
      WakeupReady(Return(k.(sync := y), OK), OfMutex(m), 1, OK);
      assert l[..1] == [l[0]];
    }
  }

  lemma ForcedReady(c: Sched, t: Tid)
    ensures MadeReady(c, Unblock(c, t), [t])
  {
    assert Sleepers(c.state, [t][1..]) == [];
  }

  lemma {:induction false} SleepersAll(state: map<Tid, Run>, l: seq<Tid>)
    requires forall t :: t in l ==> t in state && (state[t] == Blocked || state[t] == Created)
    ensures Sleepers(state, l) == l
  {
    if l == [] {
    } else {
      assert l == [l[0]] + l[1..];
      SleepersAll(state, l[1..]);
    }
  }

  lemma ForcedAll(c: Sched, ws: seq<Tid>)
    requires NoDup(ws) && forall u :: u in ws ==> u in c.state && c.state[u] == Blocked
    ensures MadeReady(c, ForceAll(c, ws), ws)
  {
    ForceAllShape(c, ws);
    SleepersAll(c.state, ws);
  }

  lemma EnqueuedReady(k: Sys, t: Tid, point: nat, ws: seq<Tid>)
    requires MayEnqueue(k, t, ws) && NotRaced(k, Enqueue(t, point, ws))
    ensures MadeReady(k.sched, SetReadyRaced(k.sched, t, point, ws), Roused(k, Enqueue(t, point, ws)))
  {
    var c := k.sched;
    OneReady(c, t);
    hide MadeReady, SetReady, ForceAll;
    if ws == [] {
      assert [t] + ws == [t] && ws + [t] == [t];
    } else if BeforeWindow(c.ready, point) {
      ForcedAll(c, ws);
      ForcedState(c, ws, t);
      OneReady(ForceAll(c, ws), t);
      MadeReadyMore(c, ForceAll(c, ws), SetReady(ForceAll(c, ws), t), ws, [t]);
    } else {
      SetState(c, t, ws);
      ForcedAll(SetReady(c, t), ws);
      MadeReadyMore(c, SetReady(c, t), ForceAll(SetReady(c, t), ws), [t], ws);
    }
  }

  lemma ForcedState(c: Sched, ws: seq<Tid>, t: Tid)
    requires NoDup(ws) && (forall u :: u in ws ==> u in c.state && c.state[u] == Blocked) && t !in ws && t in c.state
    ensures var d := ForceAll(c, ws); t in d.state && d.state[t] == c.state[t]
  {
    ForceAllShape(c, ws);
  }

  lemma SetState(c: Sched, t: Tid, ws: seq<Tid>)
    requires t !in ws && forall u :: u in ws ==> u in c.state && c.state[u] == Blocked
    ensures forall u :: u in ws ==> u in SetReady(c, t).state && SetReady(c, t).state[u] == Blocked
  {}

  /**
   A call that gives up the CPU leaves its thread ready behind the others if it yields, dead if it exits, and asleep
   otherwise; the first ready thread runs, and nothing else changes for the scheduler.
   */
  lemma HandsOverExactly(k: Sys, step: Step)
    requires Enabled(k, step) && Switches(k, step)
    ensures var c, c' := k.sched, Do(k, step).sched;
      var l := if step.Yield? then c.ready + [c.current] else c.ready;
      && l != [] && c'.current == l[0] && c'.ready == l[1..]
      && c'.state
        == c.state[c.current := if step.Yield? then Ready else if step.Exit? then Zombie else Blocked][l[0] := Running]
  {
    DoIsSwitch(k, step);
    assert Left(k, step).sched.state
      == k.sched.state[k.sched.current := if step.Yield? then Ready else if step.Exit? then Zombie else Blocked] by {
      hide Register;
    }
    hide Left, Do;
    assert Switch(Left(k, step)).sched == Dispatch(Left(k, step).sched) by { hide Dispatch; }
    hide Switch;
  }
}
