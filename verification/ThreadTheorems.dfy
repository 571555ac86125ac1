/**
 What holds over whole runs of the machine of `ThreadState`, whatever the threads do and whenever ticks come.
 */
module ThreadTheorems {
  import opened ThreadState
  import opened ThreadProofs

  // ---------------------------------------------------------------- runs

  /**
   What the code expects of a step: its object exists, the idle thread only yields, owners unlock what they hold, and no
   handler makes a thread ready in the middle of an enqueue that its caller left unprotected.
   */
  predicate Allowed(k: Sys, step: Step) {
    Exists(k, step) && IdleObeys(k, step) && UnlocksOwn(k, step) && NotRaced(k, step)
  }

  /** `ks[i + 1]` is the state after `steps[i]`. */
  ghost predicate IsRun(ks: seq<Sys>, steps: seq<Step>) {
    && |ks| == |steps| + 1 && Inv(ks[0])
    && (forall i :: 0 <= i < |steps| ==> IsStep(ks[i], steps[i], ks[i + 1]))
  }

  ghost predicate IsStep(k: Sys, step: Step, k': Sys) { Allowed(k, step) && Enabled(k, step) && k' == Do(k, step) }

  lemma RunPrefix(ks: seq<Sys>, steps: seq<Step>)
    requires IsRun(ks, steps) && steps != []
    ensures IsRun(ks[..|steps|], steps[..|steps| - 1])
    ensures IsStep(ks[|steps| - 1], steps[|steps| - 1], ks[|steps|])
  {
    var n := |steps| - 1;
    forall i | 0 <= i < n ensures IsStep(ks[..n + 1][i], steps[..n][i], ks[..n + 1][i + 1]) {
      assert IsStep(ks[i], steps[i], ks[i + 1]);
    }
    hide IsStep, Inv;
  }

  lemma IsStepKeeps(k: Sys, step: Step, k': Sys)
    requires Inv(k) && IsStep(k, step, k')
    ensures Inv(k')
  {
    hide Inv, Do, Enabled, IdleObeys, UnlocksOwn, NotRaced;
    StepKeeps(k, step);
  }

  /** Every state of a run satisfies the invariant. */
  lemma {:induction false} RunKeeps(ks: seq<Sys>, steps: seq<Step>, i: nat)
    requires IsRun(ks, steps) && i < |ks|
    ensures Inv(ks[i])
  {
    hide Inv, IsStep;
    if i == 0 {
    } else {
      RunKeeps(ks, steps, i - 1);
      IsStepKeeps(ks[i - 1], steps[i - 1], ks[i]);
    }
  }

  /**
   sos_reschedule always finds a thread: the idle thread is ready whenever another thread runs, and it only yields.
   So any step that is allowed can be taken.
   */
  lemma AThreadIsAlwaysReady(k: Sys, step: Step)
    requires Inv(k) && Allowed(k, step)
    ensures Enabled(k, step)
    ensures k.sched.current != k.sched.idle ==> k.sched.idle in k.sched.ready
  {
    if k.sched.current != k.sched.idle {
      assert k.sched.state[k.sched.idle] != Running;
      assert k.sched.idle in k.sched.ready;
    }
  }

  // ---------------------------------------------------------------- a machine to start from

  /** The initial thread runs, the idle thread is ready; semaphores have an initial value, mutexes are free. */
  function Start(init: Tid, idle: Tid, tick: nat, values: map<Sema, nat>, mutexes: set<Mutex>, plain: set<nat>): Sys {
    var queues :=
      (map s | s in values :: OfSema(s) := []) + (map m | m in mutexes :: OfMutex(m) := [])
        + (map p | p in plain :: Plain(p) := []);
    Sys(Sched(map[init := Running, idle := Ready], init, [idle], 1, idle),
        map[init := Active, idle := AtStart],
        Waiting(queues, map[]),
        Clock(0, tick, [], {}, map[], map[]),
        Sync(map s | s in values :: values[s], map m | m in mutexes :: None,
             map s | s in values :: values[s], map s | s in values :: 0, map s | s in values ::
               [], map m | m in mutexes :: {}),
        map[])
  }

  lemma StartInv(init: Tid, idle: Tid, tick: nat, values: map<Sema, nat>, mutexes: set<Mutex>, plain: set<nat>)
    requires init != idle
    ensures Inv(Start(init, idle, tick, values, mutexes, plain))
  {
    hide SchedOk, ThreadsOk, QueuesOk, TimeoutsOk, SemasOk, MutexesOk;
    var k := Start(init, idle, tick, values, mutexes, plain);
    StartThreads(k, init, idle);
    StartQueues(k);
    StartSync(init, idle, tick, values, mutexes, plain);
  }

  lemma StartThreads(k: Sys, init: Tid, idle: Tid)
    requires init != idle && k.sched == Sched(map[init := Running, idle := Ready], init, [idle], 1, idle)
    requires k.resume == map[init := Active, idle := AtStart] && k.wait.woken == map[]
    requires k.clock.actions == [] && k.clock.expired == {} && k.clock.tick >= 0
    ensures SchedOk(k.sched, {init}) && ThreadsOk(k, {init}) && TimeoutsOk(k.clock, k.resume)
  {}

  lemma StartQueues(k: Sys)
    requires k.wait.woken == map[] && (forall q :: q in k.wait.queues ==> k.wait.queues[q] == [])
    requires forall t :: t in k.resume ==> !k.resume[t].AtWait?
    ensures QueuesOk(k.wait, k.resume)
  {}

  lemma StartSync(init: Tid, idle: Tid, tick: nat, values: map<Sema, nat>, mutexes: set<Mutex>, plain: set<nat>)
    ensures var k := Start(init, idle, tick, values, mutexes, plain);
      SemasOk(k.sync, k.wait.queues) && MutexesOk(k.sync, k.wait, k.resume)
  {
    var k := Start(init, idle, tick, values, mutexes, plain);
    var y, w := k.sync, k.wait;
    forall s | s in y.value ensures SemaOk(y, w.queues, s) {}
    forall m | m in y.owner ensures MutexOk(y, w, k.resume, m) {
      assert forall t :: !Holds(y, w, k.resume, m, t);
      assert OfMutex(m) in w.queues && w.queues[OfMutex(m)] == [];
      hide Holds;
    }
  }

  // ---------------------------------------------------------------- mutual exclusion

  /**
   Mutual exclusion, and no wake-up is lost: whatever happened before, two threads never both hold a mutex;
   while a woken thread is about to take it over nobody holds it and no other is woken for it;
   and it is marked free exactly when it is, and then nobody waits.
   */
  lemma MutualExclusion(ks: seq<Sys>, steps: seq<Step>, i: nat, m: Mutex)
    requires IsRun(ks, steps) && i < |ks| && IsMutex(ks[i], m)
    ensures var y, w, resume := ks[i].sync, ks[i].wait, ks[i].resume;
      && (forall t, u :: t in y.held[m] && u in y.held[m] ==> t == u)
      && (forall t, u :: WokenFor(w, resume, m, t) && WokenFor(w, resume, m, u) ==> t == u)
      && (forall t, u :: t in y.held[m] && WokenFor(w, resume, m, u) ==> t == u)
      && (y.owner[m].None? <==> y.held[m] == {} && forall t :: !WokenFor(w, resume, m, t))
      && (w.queues[OfMutex(m)] != [] ==> y.held[m] != {} || exists t :: WokenFor(w, resume, m, t))
      && (forall t :: t in y.held[m] ==> y.owner[m] == Some(t))
  {
    hide Inv, IsStep;
    RunKeeps(ks, steps, i);
    AtMostOneHolder(ks[i], m);
  }

  lemma AtMostOneHolder(k: Sys, m: Mutex)
    requires Inv(k) && IsMutex(k, m)
    ensures var y, w, resume := k.sync, k.wait, k.resume;
      && (forall t, u :: t in y.held[m] && u in y.held[m] ==> t == u)
      && (forall t, u :: WokenFor(w, resume, m, t) && WokenFor(w, resume, m, u) ==> t == u)
      && (forall t, u :: t in y.held[m] && WokenFor(w, resume, m, u) ==> t == u)
      && (y.owner[m].None? <==> y.held[m] == {} && forall t :: !WokenFor(w, resume, m, t))
      && (w.queues[OfMutex(m)] != [] ==> y.held[m] != {} || exists t :: WokenFor(w, resume, m, t))
      && (forall t :: t in y.held[m] ==> y.owner[m] == Some(t))
  {
    var y, w, resume := k.sync, k.wait, k.resume;
    assert MutexOk(y, w, resume, m);
    hide Inv, Core, WokenFor;
    assert forall t :: t in y.held[m] ==> Holds(y, w, resume, m, t);
    assert forall t :: WokenFor(w, resume, m, t) ==> Holds(y, w, resume, m, t);
    assert forall t :: Holds(y, w, resume, m, t) ==> t in y.held[m] || WokenFor(w, resume, m, t);
    hide Holds;
  }

  // ---------------------------------------------------------------- the ready queue

  lemma {:induction false} WakeupSched(k: Sys, q: Queue, n: nat, status: Ret)
    ensures var c := Wakeup(k, q, n, status).sched; c.current == k.sched.current && k.sched.ready <= c.ready
    decreases n
  {
    if n == 0 || q !in k.wait.queues || k.wait.queues[q] == [] {
    } else {
      WakeupSched(TakeWaiter(k, q, status), q, n - 1, status);
    }
  }

  lemma {:induction false} FireDueSched(k: Sys)
    ensures var c := FireDue(k).sched; c.current == k.sched.current && k.sched.ready <= c.ready
    decreases |k.clock.actions|
  {
    if k.clock.actions == [] || k.clock.now < k.clock.actions[0].due {
    } else {
      FireDueSched(FireHead(k));
    }
  }

  lemma EnqueueReady(k: Sys, t: Tid, point: nat, ws: seq<Tid>)
    requires MayEnqueue(k, t, ws)
    ensures var c := SetReadyRaced(k.sched, t, point, ws); c.current == k.sched.current && k.sched.ready <= c.ready
  {
    if ws != [] {
      ForceAllShape(k.sched, ws);
      ForceAllShape(SetReady(k.sched, t), ws);
    }
  }

  /** What the machine looks like when the running thread has left the CPU. */
  function Left(k: Sys, step: Step): Sys
    requires Enabled(k, step) && Switches(k, step)
  {
    match step
    case Yield => LeaveReady(k)
    case Sleep(timeout) => LeaveBlocked(k, AtSleep(timeout.Some?), timeout)
    case Wait(id, timeout) => LeaveWaiting(k, Plain(id), timeout)
    case Down(s, timeout) => LeaveWaiting(k.(sync := k.sync.(value := k.sync.value[s := k.sync.value[s] - 1])),
      OfSema(s), timeout)
    case Lock(m, timeout) => LeaveWaiting(k, OfMutex(m), timeout)
    case _ => LeaveForGood(k)
  }

  lemma DoIsSwitch(k: Sys, step: Step)
    requires Enabled(k, step) && Switches(k, step)
    ensures Left(k, step).sched.ready == (if step.Yield? then k.sched.ready + [k.sched.current] else k.sched.ready)
    ensures Left(k, step).sched.ready != [] && Do(k, step) == Switch(Left(k, step))
  {
    hide Switch;
  }

  /**
   Without a switch the ready queue only grows at its tail; a switch takes its head and nothing is put before the rest.
   */
  lemma StepReady(k: Sys, step: Step)
    requires Enabled(k, step)
    ensures var c, c' := k.sched, Do(k, step).sched;
      && (!Switches(k, step) ==> c'.current == c.current && c.ready <= c'.ready)
      && (Switches(k, step) ==>
            var l := if step.Yield? then c.ready + [c.current] else c.ready;
            l != [] && c'.current == l[0] && c'.ready == l[1..])
  {
    if Switches(k, step) {
      DoIsSwitch(k, step);
      hide Do, Left;
    } else {
      match step {
        case WakeupPlain(id, n, status) => WakeupSched(k, Plain(id), n, status);
        case Tick => FireDueSched(k.(clock := k.clock.(now := k.clock.now + k.clock.tick)));
        case Up(s) =>
          var l := k.wait.queues[OfSema(s)];
          var y := k.sync.(value := k.sync.value[s := k.sync.value[s] + 1], ups := k.sync.ups[s := k.sync.ups[s] + 1]);
          WakeupSched(k.(sync := if l == [] then y else Grant(y, s, l[0])), OfSema(s), 1, OK);
        case Unlock(m) =>
          var y := k.sync.(held := k.sync.held[m := k.sync.held[m] - {k.sched.current}]);
          WakeupSched(Return(k.(sync := y), OK), OfMutex(m), 1, OK);
        case Enqueue(t, point, inside) => EnqueueReady(k, t, point, inside);
        case _ =>
          hide Wakeup, FireDue;
      }
    }
  }

  /** How often the CPU changed hands. */
  function CountSwitches(ks: seq<Sys>, steps: seq<Step>): nat
    requires |ks| == |steps| + 1
  {
    if steps == [] then 0
    else
      var n := |steps| - 1;
      CountSwitches(ks[..n + 1], steps[..n]) + (if Switches(ks[n], steps[n]) then 1 else 0)
  }

  /**
   FIFO fairness: the thread at position `p` of the ready queue moves up by one place with every context switch,
   and has the CPU after exactly `p + 1` of them, whatever mix of steps is taken.
   */
  lemma {:induction false} FifoFairness(ks: seq<Sys>, steps: seq<Step>, p: nat)
    requires IsRun(ks, steps) && p < |ks[0].sched.ready|
    ensures var t, last, c := ks[0].sched.ready[p], ks[|steps|], CountSwitches(ks, steps);
      && (c <= p ==> p - c < |last.sched.ready| && last.sched.ready[p - c] == t)
      && (c == p + 1 && Switches(ks[|steps| - 1], steps[|steps| - 1]) ==> last.sched.current == t)
    decreases |steps|
  {
    hide Do, Switches, Inv, Allowed, Enabled;
    if steps == [] {
    } else {
      var n := |steps| - 1;
      RunPrefix(ks, steps);
      FifoFairness(ks[..n + 1], steps[..n], p);
      StepReady(ks[n], steps[n]);
    }
  }

  // ---------------------------------------------------------------- semaphores

  /**
   The semaphore law, in every state of every run: as many threads wait as the value is negative, and what was
   granted plus what is left is what there was initially plus what was given.
   */
  lemma SemaphoreLaw(ks: seq<Sys>, steps: seq<Step>, i: nat, s: Sema)
    requires IsRun(ks, steps) && i < |ks| && IsSema(ks[i], s)
    ensures var y := ks[i].sync;
      && |ks[i].wait.queues[OfSema(s)]| == (if y.value[s] < 0 then -y.value[s] else 0)
      && (if y.value[s] > 0 then y.value[s] else 0) + |y.grants[s]| == y.initial[s] + y.ups[s]
      && (y.value[s] > 0 ==> ks[i].wait.queues[OfSema(s)] == [])
  {
    RunKeeps(ks, steps, i);
    assert SemaOk(ks[i].sync, ks[i].wait.queues, s);
  }
}
