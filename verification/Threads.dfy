/**
 The kernel's thread, scheduler, wait queue, timeout and synchronisation code, on the variables it updates in place.
 Each operation takes the step of `ThreadState` of the same name, so everything proved of the steps holds of the code.
 The assertions in the bodies are those of the source (SOS_ASSERT_FATAL), and the dead ends it halts in.
 */
module Threads {
  import opened ThreadState
  import opened ThreadProofs
  import opened ThreadTheorems
  import opened ThreadOutcomes
  import opened ThreadOrder

  lemma InsertSkip(l: seq<Action>, a: Action, i: nat)
    requires i < |l| && !(a.due < l[i].due) && InsertAction(l, a) == l[..i] + InsertAction(l[i..], a)
    ensures InsertAction(l, a) == l[..i + 1] + InsertAction(l[i + 1..], a)
  {
    hide InsertAction;
    var r, t := l[i..], InsertAction(l[i + 1..], a);
    InsertLater(r, a);
    assert r[1..] == l[i + 1..] && l[..i + 1] == l[..i] + [r[0]];
    assert l[..i] + ([r[0]] + t) == (l[..i] + [r[0]]) + t;
  }

  lemma InsertLater(r: seq<Action>, a: Action)
    requires r != [] && !(a.due < r[0].due)
    ensures InsertAction(r, a) == [r[0]] + InsertAction(r[1..], a)
  {}

  lemma InsertHere(l: seq<Action>, a: Action, i: nat)
    requires i <= |l| && (i == |l| || a.due < l[i].due) && InsertAction(l, a) == l[..i] + InsertAction(l[i..], a)
    ensures InsertAction(l, a) == l[..i] + [a] + l[i..]
  {
    assert InsertAction(l[i..], a) == [a] + l[i..];
  }

  lemma RemoveSkip(l: seq<Action>, t: Tid, i: nat)
    requires i < |l| && l[i].thread != t && WithoutAction(l, t) == l[..i] + WithoutAction(l[i..], t)
    ensures WithoutAction(l, t) == l[..i + 1] + WithoutAction(l[i + 1..], t)
  {
    assert l[..i + 1] == l[..i] + [l[i]] && l[i..][1..] == l[i + 1..];
    assert WithoutAction(l[i..], t) == [l[i]] + WithoutAction(l[i + 1..], t);
  }

  lemma RemoveHere(l: seq<Action>, t: Tid, i: nat)
    requires i < |l| && l[i].thread == t && WithoutAction(l, t) == l[..i] + WithoutAction(l[i..], t)
    ensures WithoutAction(l, t) == l[..i] + l[i + 1..]
  {
    assert l[i..][1..] == l[i + 1..];
  }

  lemma NotYet(l: seq<Action>, t: Tid, i: nat)
    requires HasAction(l, t) && i <= |l| && forall j :: 0 <= j < i ==> l[j].thread != t
    ensures i < |l|
  {}

  /** What the loop of a tick needs: the invariant, but for late actions. */
  ghost predicate FireOk(k: Sys) {
    SchedOk(k.sched, {k.sched.current}) && IdleOk(k.sched) && ThreadsOk(k, {k.sched.current})
      && TimeoutsOk(k.clock, k.resume)
  }

  lemma TickStart(k: Sys, b: Sys)
    requires Inv(k) && b == k.(clock := k.clock.(now := k.clock.now + k.clock.tick))
    ensures FireOk(b) && Do(k, Tick) == FireDue(b)
  {
    hide SchedOk, IdleOk, ThreadsOk, TimeoutsOk, QueuesOk, SemasOk, MutexesOk, FireDue;
    LaterTimeouts(k.clock, b.clock, k.resume);
    LaterThreads(k, b);
  }

  lemma LaterTimeouts(c: Clock, c': Clock, resume: map<Tid, Resume>)
    requires TimeoutsOk(c, resume) && c' == c.(now := c.now + c.tick)
    ensures TimeoutsOk(c', resume)
  {
    hide Timed, SortedActions, HasAction;
  }

  lemma LaterThreads(k: Sys, b: Sys)
    requires ThreadsOk(k, {k.sched.current}) && b == k.(clock := k.clock.(now := k.clock.now + k.clock.tick))
    ensures ThreadsOk(b, {b.sched.current})
  {
    forall u | u in b.sched.state
      ensures ThreadOk(b, {b.sched.current}, u)
    {
      assert ThreadOk(k, {k.sched.current}, u);
    }
  }

  lemma FireSteps(k: Sys)
    requires FireOk(k) && k.clock.actions != [] && !(k.clock.now < k.clock.actions[0].due)
    ensures FireOk(FireHead(k)) && FireDue(k) == FireDue(FireHead(k))
    ensures var t := k.clock.actions[0].thread;
      && t in k.sched.state && k.sched.state[t] != Zombie
      && HasAction(k.clock.actions, t) && t in k.clock.due && Max0(k.clock.due[t] - k.clock.now) == 0
      && (forall a :: a in k.clock.actions && a.thread == t ==> t in k.clock.due && k.clock.due[t] == a.due)
      && WithoutAction(k.clock.actions, t) == k.clock.actions[1..]
  {
    FireHeadKeeps(k);
    var t := k.clock.actions[0].thread;
    assert k.clock.actions[0] in k.clock.actions;
    assert HasAction(k.clock.actions, t);
    assert t in k.resume && Timed(k.resume[t]);
    WaitersAreAsleep(k, t);
  }

  lemma FireShorter(k: Sys)
    requires k.clock.actions != []
    ensures FireHead(k).clock.actions == k.clock.actions[1..]
  {}

  lemma FireEnds(k: Sys)
    requires k.clock.actions == [] || k.clock.now < k.clock.actions[0].due
    ensures FireDue(k) == k
  {}

  /** The running thread will go on later, as blocked or as the last of the ready threads. */
  function GivenUp(c: Sched, block: bool): Sched {
    if block then c.(state := c.state[c.current := Blocked])
    else c.(state := c.state[c.current := Ready], ready := c.ready + [c.current], nrThreads := c.nrThreads + 1)
  }

  function GaveUp(k: Sys, block: bool): Sys { k.(sched := GivenUp(k.sched, block)) }

  /** One thread runs and gives up the CPU. */
  ghost predicate CanPass(c: Sched, block: bool) {
    && c.current in c.state && c.state[c.current] == Running && c.nrThreads == |c.ready| && (block ==> c.ready != [])
    && (forall t :: t in c.ready ==> t in c.state && c.state[t] == Ready)
  }

  lemma DispatchCurrent(c: Sched)
    requires c.ready != []
    ensures Dispatch(c).current == c.ready[0]
  {}

  lemma StillThere(k: Sys)
    requires CanContinue(k)
    ensures k.sched.current in k.resume
  {}

  /** The resumed thread's timeout is either expired or still registered. */
  ghost predicate CanContinue(k: Sys) {
    var t := k.sched.current;
    && t in k.resume
    && (Timed(k.resume[t]) && t !in k.clock.expired ==> HasAction(k.clock.actions, t))
    && (t in k.clock.expired ==> t in k.clock.left && k.clock.left[t] == 0)
    && (forall a :: a in k.clock.actions ==> a.thread in k.clock.due && k.clock.due[a.thread] == a.due)
  }

  lemma ReadyToContinue(k: Sys)
    requires Core(k, {k.sched.current}, {})
    ensures CanContinue(k)
  {
    assert k.sched.current in k.sched.state;
    hide QueuesOk, SemasOk, MutexesOk, HasAction, SortedActions;
  }

  lemma InvPasses(k: Sys)
    requires Inv(k)
    ensures CanPass(k.sched, false) && (k.sched.current != k.sched.idle ==> CanPass(k.sched, true))
  {
    assert k.sched.current in k.sched.state && k.sched.state[k.sched.current] == Running;
    if k.sched.current != k.sched.idle {
      assert k.sched.state[k.sched.idle] == Ready;
      assert k.sched.idle in k.sched.ready;
    }
    hide ThreadsOk, QueuesOk, TimeoutsOk, SemasOk, MutexesOk;
  }

  /** What a step that gives up the CPU comes down to. */
  lemma Passes(k: Sys, step: Step)
    requires Inv(k) && Allowed(k, step) && Switches(k, step)
    ensures Enabled(k, step) && CanPass(k.sched, !step.Yield?)
    ensures Core(Left(k, step), {}, {}) && Left(k, step).sched.ready != [] && Do(k, step) == Switch(Left(k, step))
  {
    hide Inv, Core, Switch, Left, Do;
    InvPasses(k);
    AThreadIsAlwaysReady(k, step);
    LeftKeeps(k, step);
    DoIsSwitch(k, step);
  }

  lemma YieldShape(k: Sys)
    ensures LeaveReady(k) == GaveUp(k.(resume := k.resume[k.sched.current := AtYield]), false)
  {}

  lemma WaitShape(k: Sys, q: Queue, timeout: Option<nat>)
    requires q in k.wait.queues
    ensures LeaveWaiting(k, q, timeout) ==
      LeaveBlocked(k.(wait := k.wait.(queues := k.wait.queues[q := k.wait.queues[q] + [k.sched.current]])),
        AtWait(q, timeout.Some?), timeout)
  {
    hide Register;
  }

  lemma BlockShape(k: Sys, r: Resume, timeout: Option<nat>)
    ensures LeaveBlocked(k, r, timeout) ==
      GaveUp(k.(resume := k.resume[k.sched.current := r], clock := Register(k.clock, k.sched.current, timeout)), true)
    ensures Register(k.clock, k.sched.current, None) == k.clock
  {}

  class Kernel {
    // os/thread.c, os/sched.c
    var state: map<Tid, Run>
    var current: Tid
    var ready: seq<Tid>
    var nrThreads: int
    const idle: Tid
    /** On each thread's stack: where it goes on, and what its last call returned. */
    var resume: map<Tid, Resume>
    var result: map<Tid, Ret>
    // os/kwaitq.c
    var queues: map<Queue, seq<Tid>>
    var woken: map<Tid, Ret>
    // os/time.c, and the parameters of sleep_timeout
    var now: int
    var tick: int
    var actions: seq<Action>
    var expired: set<Tid>
    var left: map<Tid, int>
    ghost var due: map<Tid, int>
    // os/ksynch.c
    var value: map<Sema, int>
    var owner: map<Mutex, Option<Tid>>
    ghost var initial: map<Sema, int>
    ghost var ups: map<Sema, int>
    ghost var grants: map<Sema, seq<Tid>>
    ghost var held: map<Mutex, set<Tid>>

    /** The initial thread runs, the idle thread was created; semaphores and mutexes are initialised. */
    constructor (init: Tid, idleThread: Tid, resolution: nat, values: map<Sema, nat>, mutexes: set<Mutex>,
      plain: set<nat>)
      requires init != idleThread
      ensures St() == Start(init, idleThread, resolution, values, mutexes, plain) && Inv(St())
    {
      idle := idleThread;
      state, current, ready, nrThreads := map[init := Run.Running, idleThread := Run.Ready], init, [idleThread], 1;
      resume, result := map[init := Active, idleThread := AtStart], map[];
      queues := (map s | s in values :: OfSema(s) := []) + (map m | m in mutexes :: OfMutex(m) := [])
        + (map p | p in plain :: Plain(p) := []);
      woken := map[];
      now, tick, actions, expired, left, due := 0, resolution, [], {}, map[], map[];
      value, owner := map s | s in values :: values[s], map m | m in mutexes :: None;
      initial, ups, grants := map s | s in values :: values[s], map s | s in values :: 0, map s | s in values :: [];
      held := map m | m in mutexes :: {};
      new;
      hide Inv;
      StartInv(init, idleThread, resolution, values, mutexes, plain);
    }

    ghost function SchedSt(): Sched
      reads `state, `current, `ready, `nrThreads
    {
      Sched(state, current, ready, nrThreads, idle)
    }

    ghost function WaitSt(): Waiting
      reads `queues, `woken
    {
      Waiting(queues, woken)
    }

    ghost function ClockSt(): Clock
      reads `now, `tick, `actions, `expired, `left, `due
    {
      Clock(now, tick, actions, expired, left, due)
    }

    ghost function SyncSt(): Sync
      reads `value, `owner, `initial, `ups, `grants, `held
    {
      Sync(value, owner, initial, ups, grants, held)
    }

    ghost function St(): Sys
      reads this
    {
      Sys(SchedSt(), resume, WaitSt(), ClockSt(), SyncSt(), result)
    }

    // -------------------------------------------------------------- os/sched.c

    /** add_in_ready_queue. */
    method AddInReadyQueue(t: Tid, atTail: bool)
      requires t in state && state[t] in {Created, Running, Blocked}
      modifies `state, `ready, `nrThreads
      ensures ready == (if atTail then old(ready) + [t] else [t] + old(ready))
      ensures nrThreads == old(nrThreads) + 1 && state == old(state)[t := Ready]
    {
      if atTail { ready := ready + [t]; } else { ready := [t] + ready; }
      nrThreads := nrThreads + 1;
      state := state[t := Run.Ready];
    }

    /** sos_sched_set_ready. */
    method MakeReady(t: Tid)
      requires t in state && state[t] != Zombie
      modifies `state, `ready, `nrThreads
      ensures SchedSt() == SetReady(old(SchedSt()), t)
    {
      if state[t] == Run.Ready { return; }
      AddInReadyQueue(t, true);
    }

    /** sos_reschedule. The queue is never found empty, so the fatal error at its end is not reached. */
    method Reschedule(me: Tid, doYield: bool) returns (next: Tid)
      requires me in state && state[me] in {Zombie, Blocked, Running}
      requires nrThreads == |ready| && (state[me] == Running || ready != [])
      modifies `state, `ready, `nrThreads
      ensures var l := if old(state[me]) != Running then old(ready) else if doYield then old(ready) + [me]
        else [me] + old(ready);
        next == l[0] && ready == l[1..] && nrThreads == |ready|
      ensures state == if old(state[me]) == Running then old(state)[me := Ready] else old(state)
    {
      if state[me] == Zombie {
      } else if state[me] != Blocked {
        if doYield { AddInReadyQueue(me, true); } else { AddInReadyQueue(me, false); }
      }
      assert nrThreads > 0;
      next := ready[0];
      ready := ready[1..];
      nrThreads := nrThreads - 1;
    }

    // -------------------------------------------------------------- os/time.c

    /** _add_action, for a delay from now or a date; dates that are past are refused. */
    method AddAction(t: Tid, date: int, relative: bool) returns (r: Ret)
      modifies `actions, `due
      ensures r == if HasAction(old(actions), t) then EBUSY else if !relative && date < now then EINVAL else OK
      ensures ClockSt()
        == if r == OK then RegisterAt(old(ClockSt()), t, if relative then now + date else date) else old(ClockSt())
    {
      hide InsertAction;
      if HasAction(actions, t) { return EBUSY; }
      if !relative && date < now { return EINVAL; }
      var a := Action(t, if relative then now + date else date);
      var i := 0;
      assert actions[..0] + InsertAction(actions[0..], a)
        == InsertAction(actions, a) by { assert actions[0..] == actions; }
      while i < |actions| && !(a.due < actions[i].due)
        modifies {}
        invariant i <= |actions|
        invariant InsertAction(actions, a) == actions[..i] + InsertAction(actions[i..], a)
      {
        InsertSkip(actions, a, i);
        i := i + 1;
      }
      InsertHere(actions, a, i);
      actions := actions[..i] + [a] + actions[i..];
      due := due[t := a.due];
      r := OK;
    }

    /** _remove_action: what is left of the delay is reported. */
    method RemoveAction(t: Tid)
      requires HasAction(actions, t)
      requires forall a :: a in actions && a.thread == t ==> t in due && due[t] == a.due
      modifies `actions, `left
      ensures actions == WithoutAction(old(actions), t)
      ensures t in due && left == old(left)[t := Max0(due[t] - now)]
    {
      hide WithoutAction, HasAction;
      var i := 0;
      assert actions[..0] + WithoutAction(actions[0..], t)
        == WithoutAction(actions, t) by { assert actions[0..] == actions; }
      NotYet(actions, t, 0);
      while actions[i].thread != t
        modifies {}
        invariant i < |actions| && forall j :: 0 <= j < i ==> actions[j].thread != t
        invariant WithoutAction(actions, t) == actions[..i] + WithoutAction(actions[i..], t)
        decreases |actions| - i
      {
        RemoveSkip(actions, t, i);
        i := i + 1;
        NotYet(actions, t, i);
      }
      assert actions[i] in actions;
      if actions[i].due <= now { left := left[t := 0]; } else { left := left[t := actions[i].due - now]; }
      RemoveHere(actions, t, i);
      actions := actions[..i] + actions[i + 1..];
    }

    // -------------------------------------------------------------- os/thread.c

    /** sos_thread_force_unblock. */
    method ForceUnblockThread(t: Tid) returns (r: Ret)
      modifies `state, `ready, `nrThreads
      ensures SchedSt() == Unblock(old(SchedSt()), t)
      ensures r == if t !in old(state) then EINVAL else if old(state[t]) == Zombie then EFATAL else OK
    {
      if t !in state { return EINVAL; }
      r := OK;
      match state[t] {
        case Running =>
        case Ready =>
        case Zombie => r := EFATAL;
        case _ => MakeReady(t);
      }
    }

    /** sleep_timeout. The thread it wakes up is never dead. */
    method SleepTimeout(t: Tid)
      requires t in state && state[t] != Zombie
      modifies `state, `ready, `nrThreads, `expired
      ensures SchedSt() == Unblock(old(SchedSt()), t) && expired == old(expired) + {t}
    {
      expired := expired + {t};
      var r := ForceUnblockThread(t);
      assert r == OK;
    }

    /** The body of the loop of sos_time_do_tick: the first action leaves the list and its routine is called. */
    method FireFirst()
      requires FireOk(St()) && actions != [] && !(now < actions[0].due)
      modifies `state, `ready, `nrThreads, `expired, `actions, `left
      ensures St() == FireHead(old(St()))
    {
      hide FireOk, Unblock, FireDue;
      FireSteps(St());
      var t := actions[0].thread;
      RemoveAction(t);
      SleepTimeout(t);
    }

    /** sos_time_do_tick. */
    method DoTick()
      requires Inv(St())
      modifies `state, `ready, `nrThreads, `expired, `actions, `left, `now
      ensures IsStep(old(St()), Tick, St()) && Inv(St())
    {
      hide Inv, FireOk, FireDue, FireHead, Do;
      TickKeeps(St());
      now := now + tick;
      ghost var b := St();
      TickStart(old(St()), b);
      while actions != [] && !(now < actions[0].due)
        invariant FireOk(St()) && FireDue(St()) == FireDue(b)
        decreases |actions|
      {
        FireSteps(St());
        FireShorter(St());
        FireFirst();
      }
      FireEnds(St());
    }

    /** The end of sos_thread_sleep. */
    method SleepEnd(t: Tid, timed: bool) returns (r: Ret)
      requires t == current && t in resume && timed == Timed(resume[t]) && CanContinue(St())
      modifies `expired, `left, `actions
      ensures ClockSt() == if timed then AfterSleep(old(ClockSt()), t) else old(ClockSt())
      ensures r == if timed && t !in old(expired) then EINTR else OK
    {
      if !timed { return OK; }
      if t in expired {
        expired := expired - {t};
        assert left[t] == 0;
        r := OK;
      } else {
        RemoveAction(t);
        r := EINTR;
      }
    }

    /** The end of sos_kwaitq_wait. */
    method WaitEnd(t: Tid, q: Queue) returns (r: Ret)
      modifies `queues, `woken
      ensures WaitSt() == AfterWait(old(WaitSt()), t, q) && r == WaitResult(old(WaitSt()), t)
    {
      if t !in woken {
        if q in queues { queues := queues[q := Without(queues[q], t)]; }
        r := EINTR;
      } else {
        r := woken[t];
        woken := woken - {t};
      }
    }

    /** The end of sos_ksema_down and sos_kmutex_lock. */
    method SyncEnd(t: Tid, q: Queue, r: Ret)
      modifies `value, `owner, `held
      ensures SyncSt() == AfterCall(old(SyncSt()), t, q, r)
    {
      match q {
        case OfSema(s) =>
          if r != OK && s in value { value := value[s := value[s] + 1]; }
        case OfMutex(m) =>
          if r == OK && m in owner {
            owner := owner[m := Some(t)];
            held := Held(held, m, t);
          }
        case Plain(_) =>
      }
    }

    // -------------------------------------------------------------- the context switch

    /** _set_current. */
    method SetCurrent(t: Tid)
      requires t in state && state[t] == Ready
      modifies `state, `current
      ensures current == t && state == old(state)[t := Running]
    {
      current := t;
      state := state[t := Run.Running];
    }

    /** The end of sos_kwaitq_wait and of the call it was made for. */
    method CallEnd(t: Tid, q: Queue, timed: bool) returns (r: Ret)
      requires t == current && t in resume && resume[t] == AtWait(q, timed) && CanContinue(St())
      modifies `queues, `woken, `actions, `expired, `left, `value, `owner, `held
      ensures ClockSt() == FinishClock(old(ClockSt()), t, AtWait(q, timed))
      ensures WaitSt() == AfterWait(old(WaitSt()), t, q)
      ensures SyncSt() == AfterCall(old(SyncSt()), t, q, r)
      ensures r == WaitResult(old(WaitSt()), t)
    {
      hide CanContinue, AfterSleep, AfterWait, AfterCall, WaitResult;
      r := SleepEnd(t, timed);
      r := WaitEnd(t, q);
      SyncEnd(t, q, r);
    }

    /** The rest of the call of the running thread, and what it returns. */
    method ReturnFromCall(t: Tid)
      requires t == current && t in resume && CanContinue(St())
      modifies `result, `queues, `woken, `actions, `expired, `left, `value, `owner, `held
      ensures ClockSt() == FinishClock(old(ClockSt()), t, resume[t])
      ensures WaitSt() == FinishWait(old(WaitSt()), t, resume[t])
      ensures SyncSt() == FinishSync(old(SyncSt()), old(WaitSt()), t, resume[t])
      ensures result == FinishResult(old(St()), t, resume[t])
    {
      hide CanContinue, AfterSleep, AfterWait, AfterCall, WaitResult;
      match resume[t] {
        case AtSleep(timed) =>
          var r := SleepEnd(t, timed);
          result := result[t := r];
        case AtWait(q, timed) =>
          var r := CallEnd(t, q, timed);
          result := result[t := r];
        case _ =>
      }
    }

    /** What the thread that just got the CPU runs until it enables interrupts. */
    method Continue()
      requires current in resume && CanContinue(St())
      modifies `resume, `result, `queues, `woken, `actions, `expired, `left, `value, `owner, `held
      ensures St() == Finish(old(St()), current)
    {
      hide CanContinue, FinishClock, FinishWait, FinishSync, FinishResult;
      ReturnFromCall(current);
      resume := resume[current := Active];
    }

    /** _switch_to_next_thread up to the switch itself. */
    method PassCpu(block: bool)
      requires CanPass(SchedSt(), block)
      modifies `state, `ready, `nrThreads, `current
      ensures GivenUp(old(SchedSt()), block).ready != []
      ensures SchedSt() == Dispatch(GivenUp(old(SchedSt()), block))
    {
      assert ready != [] ==> ready[0] in ready && ready[0] != current && ready[0] in state && state[ready[0]] == Ready;
      var myself := current;
      if block { state := state[myself := Run.Blocked]; }
      var next := Reschedule(myself, !block);
      SetCurrent(next);
    }

    /**
     _switch_to_next_thread, from the moment the running thread has made known where it will go on
     to the moment the next thread enables interrupts.
     */
    method SwitchToNext(block: bool)
      requires CanPass(SchedSt(), block) && GaveUp(St(), block).sched.ready != []
      requires Core(GaveUp(St(), block), {}, {})
      modifies this
      ensures St() == Switch(GaveUp(old(St()), block))
    {
      hide Core, Finish, CanContinue, Dispatch;
      ghost var g := GaveUp(St(), block);
      DispatchKeeps(g);
      DispatchCurrent(g.sched);
      ReadyToContinue(g.(sched := Dispatch(g.sched)));
      PassCpu(block);
      StillThere(g.(sched := Dispatch(g.sched)));
      Continue();
    }

    // -------------------------------------------------------------- os/thread.c, the calls

    /** sos_thread_yield. */
    method Yield()
      requires Inv(St())
      modifies this
      ensures IsStep(old(St()), Step.Yield, St()) && Inv(St())
    {
      hide Inv, Core, Switch, Do, Left, Enabled, LeaveReady;
      Passes(St(), Step.Yield);
      YieldShape(St());
      assert Left(St(), Step.Yield) == LeaveReady(St()) by { YieldLeft(St()); }
      resume := resume[current := AtYield];
      SwitchToNext(false);
      IsStepKeeps(old(St()), Step.Yield, St());
    }

    /** sos_thread_sleep, from the running thread's call to the end of the context switch. */
    method Block(r: Resume, timeout: Option<nat>)
      requires CanPass(SchedSt(), true) && Core(LeaveBlocked(St(), r, timeout), {}, {}) && !HasAction(actions, current)
      modifies this
      ensures St() == Switch(LeaveBlocked(old(St()), r, timeout))
    {
      hide Core, Switch, RegisterAt, HasAction;
      BlockShape(St(), r, timeout);
      resume := resume[current := r];
      if timeout.Some? { var added := AddAction(current, timeout.value, true); }
      SwitchToNext(true);
    }

    /** sos_thread_sleep. */
    method Sleep(timeout: Option<nat>)
      requires Inv(St()) && Allowed(St(), Step.Sleep(timeout))
      modifies this
      ensures IsStep(old(St()), Step.Sleep(timeout), St()) && Inv(St())
    {
      hide Inv, Core, Switch, Do, Left, Enabled, LeaveBlocked, HasAction;
      Passes(St(), Step.Sleep(timeout));
      SleepLeft(St(), timeout);
      RunningHasNone(St());
      Block(AtSleep(timeout.Some?), timeout);
      IsStepKeeps(old(St()), Step.Sleep(timeout), St());
    }

    /** sos_thread_exit. The thread has no entry in any wait queue. */
    method Exit()
      requires Inv(St()) && Allowed(St(), Step.Exit)
      modifies this
      ensures IsStep(old(St()), Step.Exit, St()) && Inv(St())
    {
      hide Inv, Do, Enabled, CanContinue, Finish, CanPass;
      ghost var g := LeaveForGood(St());
      ExitPasses(St());
      assert forall q :: q in queues ==> current !in queues[q];
      LeavesForGood();
      assert St() == g.(sched := Dispatch(g.sched));
      Continue();
      IsStepKeeps(old(St()), Step.Exit, St());
    }

    /** The part of sos_thread_exit that the dying thread runs. */
    method LeavesForGood()
      requires CanPass(SchedSt(), true)
      modifies `state, `ready, `nrThreads, `current, `resume
      ensures LeaveForGood(old(St())).sched.ready != []
      ensures SchedSt() == Dispatch(LeaveForGood(old(St())).sched) && resume == LeaveForGood(old(St())).resume
    {
      assert ready[0] in ready && ready[0] != current && ready[0] in state && state[ready[0]] == Run.Ready;
      var myself := current;
      state := state[myself := Zombie];
      resume := resume[myself := Finished];
      var next := Reschedule(myself, false);
      SetCurrent(next);
    }

    /** sos_create_kernel_thread, up to the end of its critical section. */
    method AddThread(t: Tid)
      requires Inv(St()) && Allowed(St(), Step.Create(t))
      modifies `state, `resume
      ensures IsStep(old(St()), Step.Create(t), St()) && Inv(St())
    {
      hide Inv;
      state := state[t := Created];
      resume := resume[t := AtStart];
      assert St() == DoCreate(old(St()), t);
      IsStepKeeps(old(St()), Step.Create(t), St());
    }

    /** Interrupt handlers make the threads `ws` ready. */
    method HandlersRun(ws: seq<Tid>)
      modifies `state, `ready, `nrThreads
      ensures SchedSt() == ForceAll(old(SchedSt()), ws)
    {
      hide Unblock;
      var i := 0;
      assert ws[..0] == [];
      while i < |ws|
        invariant 0 <= i <= |ws| && SchedSt() == ForceAll(old(SchedSt()), ws[..i])
      {
        var r := ForceUnblockThread(ws[i]);
        assert ws[..i + 1][..i] == ws[..i];
        i := i + 1;
      }
      assert ws[..|ws|] == ws;
    }

    /**
     The call of sos_sched_set_ready at the end of sos_create_kernel_thread, which runs with interrupts as the caller
     had them. Handlers make the threads `inside` ready at `point`, which must not be in the window.
     */
    method StartThread(t: Tid, point: nat, inside: seq<Tid>)
      requires Inv(St()) && Allowed(St(), Enqueue(t, point, inside))
      modifies `state, `ready, `nrThreads
      ensures IsStep(old(St()), Enqueue(t, point, inside), St()) && Inv(St())
    {
      hide Inv, SetReady, ForceAll, Allowed, IsStep;
      ghost var k := St();
      StartShape(k, t, point, inside);
      if inside != [] && BeforeWindow(ready, point) {
        HandlersRun(inside);
        MakeReady(t);
      } else {
        MakeReady(t);
        if inside != [] { HandlersRun(inside); }
      }
      IsStepKeeps(old(St()), Enqueue(t, point, inside), St());
    }

    /** sos_create_kernel_thread, with handlers that make the threads `inside` ready during its last part. */
    method Create(t: Tid, point: nat, inside: seq<Tid>) returns (ghost k: Sys)
      requires Inv(St()) && Allowed(St(), Step.Create(t))
      requires Allowed(DoCreate(St(), t), Enqueue(t, point, inside))
      modifies `state, `ready, `nrThreads, `resume
      ensures IsStep(old(St()), Step.Create(t), k) && IsStep(k, Enqueue(t, point, inside), St()) && Inv(St())
    {
      hide Inv, Allowed, DoCreate;
      AddThread(t);
      k := St();
      StartThread(t, point, inside);
    }

    /** sos_thread_force_unblock, called from anywhere. */
    method ForceUnblock(t: Tid) returns (r: Ret)
      requires Inv(St()) && Allowed(St(), Step.ForceUnblock(t))
      modifies `state, `ready, `nrThreads
      ensures IsStep(old(St()), Step.ForceUnblock(t), St()) && Inv(St())
      ensures t in old(state) && (old(state[t]) == Blocked || old(state[t]) == Created) ==>
        ready == old(ready) + [t] && state == old(state)[t := Ready]
      ensures r == if t !in old(state) then EINVAL else if old(state[t]) == Zombie then EFATAL else OK
    {
      hide Inv;
      r := ForceUnblockThread(t);
      IsStepKeeps(old(St()), Step.ForceUnblock(t), St());
    }

    // -------------------------------------------------------------- os/kwaitq.c

    /** sos_kwaitq_wait, from the running thread's call to the end of the context switch. */
    method WaitOn(q: Queue, timeout: Option<nat>)
      requires q in queues && CanPass(SchedSt(), true) && Core(LeaveWaiting(St(), q, timeout), {}, {})
      requires !HasAction(actions, current)
      modifies this
      ensures St() == Switch(LeaveWaiting(old(St()), q, timeout))
    {
      hide Core, Switch, LeaveWaiting, LeaveBlocked, HasAction;
      WaitShape(St(), q, timeout);
      queues := queues[q := queues[q] + [current]];
      Block(AtWait(q, timeout.Some?), timeout);
    }

    method Wait(id: nat, timeout: Option<nat>)
      requires Inv(St()) && Allowed(St(), Step.Wait(id, timeout))
      modifies this
      ensures IsStep(old(St()), Step.Wait(id, timeout), St()) && Inv(St())
    {
      hide Inv, Core, Switch, Do, Left, Enabled, LeaveWaiting, HasAction;
      Passes(St(), Step.Wait(id, timeout));
      WaitLeft(St(), id, timeout);
      RunningHasNone(St());
      WaitOn(Plain(id), timeout);
      IsStepKeeps(old(St()), Step.Wait(id, timeout), St());
    }

    /** The body of the loop of sos_kwaitq_wakeup, for a waiter that is not the running thread. */
    method WakeFirst(q: Queue, status: Ret)
      requires q in queues && queues[q] != [] && queues[q][0] in state && state[queues[q][0]] != Zombie
      modifies `queues, `woken, `state, `ready, `nrThreads
      ensures St() == TakeWaiter(old(St()), q, status)
    {
      hide SetReady;
      var t := queues[q][0];
      MakeReady(t);
      assert SchedSt() == SetReady(old(SchedSt()), t);
      queues := queues[q := queues[q][1..]];
      woken := woken[t := status];
      assert WaitSt() == Waiting(old(queues)[q := old(queues)[q][1..]], old(woken)[t := status]);
    }

    /** sos_kwaitq_wakeup. It never finds the running thread in the queue, which it would look at forever. */
    method WakeUp(q: Queue, n: nat, status: Ret)
      requires Base(St()) && q in queues && (q.Plain? || status == OK)
      modifies `queues, `woken, `state, `ready, `nrThreads
      ensures St() == Wakeup(old(St()), q, n, status)
    {
      hide Base, Wakeup, TakeWaiter;
      var nbThreads := n;
      while queues[q] != []
        invariant q in queues && Base(St()) && 0 <= nbThreads
        invariant Wakeup(St(), q, nbThreads, status) == Wakeup(old(St()), q, n, status)
        decreases nbThreads
      {
        if nbThreads <= 0 { break; }
        FirstWaiter(St(), q);
        if state[queues[q][0]] == Run.Running {
          assert false;
        } else {
          TakeWaiterKeeps(St(), q, status);
          TakeShape(St(), q, status);
          WakeupOnce(St(), q, nbThreads, status);
          WakeFirst(q, status);
          nbThreads := nbThreads - 1;
        }
      }
      WakeupNone(St(), q, nbThreads, status);
    }

    method WakeUpPlain(id: nat, n: nat, status: Ret)
      requires Inv(St()) && Allowed(St(), Step.WakeupPlain(id, n, status))
      modifies `queues, `woken, `state, `ready, `nrThreads
      ensures IsStep(old(St()), Step.WakeupPlain(id, n, status), St()) && Inv(St())
    {
      hide Inv, Base, Wakeup;
      SplitInv(St());
      WakeUp(Plain(id), n, status);
      IsStepKeeps(old(St()), Step.WakeupPlain(id, n, status), St());
    }

    // -------------------------------------------------------------- os/ksynch.c

    /** The running thread gets semaphore `s` without waiting. */
    method GetSema(s: Sema)
      requires s in grants
      modifies `result, `grants
      ensures result == old(result)[current := OK] && SyncSt() == Grant(old(SyncSt()), s, current)
    {
      result := result[current := OK];
      grants := grants[s := grants[s] + [current]];
    }

    /** The running thread gets mutex `m` without waiting. */
    method GetMutex(m: Mutex)
      requires IsMutex(St(), m)
      modifies `owner, `held, `result
      ensures St() == TakeMutex(old(St()), m)
    {
      owner := owner[m := Some(current)];
      held := held[m := held[m] + {current}];
      result := result[current := OK];
    }

    /** sos_ksema_down. */
    method Down(s: Sema, timeout: Option<nat>)
      requires Inv(St()) && Allowed(St(), Step.Down(s, timeout))
      modifies this
      ensures IsStep(old(St()), Step.Down(s, timeout), St()) && Inv(St())
    {
      hide Inv, Core, Switch, Do, Left, LeaveWaiting, CanPass, Grant, HasAction;
      AThreadIsAlwaysReady(St(), Step.Down(s, timeout));
      DownIs(St(), s, timeout);
      RunningHasNone(St());
      value := value[s := value[s] - 1];
      if value[s] < 0 {
        WaitOn(OfSema(s), timeout);
      } else {
        GetSema(s);
      }
      IsStepKeeps(old(St()), Step.Down(s, timeout), St());
    }

    /** The critical section of sos_ksema_trydown. */
    method TryDownCall(s: Sema) returns (r: Ret)
      requires IsSema(St(), s)
      modifies `value, `result, `grants
      ensures r == if old(value)[s] >= 1 then OK else EBUSY
      ensures result == old(result)[current := r]
      ensures SyncSt() == if r == OK then Grant(old(SyncSt()).(value := old(value)[s := old(value)[s] - 1]), s, current)
        else old(SyncSt())
    {
      if value[s] >= 1 {
        value := value[s := value[s] - 1];
        grants := grants[s := grants[s] + [current]];
        r := OK;
      } else {
        r := EBUSY;
      }
      result := result[current := r];
    }

    /** sos_ksema_trydown. */
    method TryDown(s: Sema) returns (r: Ret)
      requires Inv(St()) && Allowed(St(), Step.TryDown(s))
      modifies `value, `result, `grants
      ensures IsStep(old(St()), Step.TryDown(s), St()) && Inv(St()) && current in result && r == result[current]
    {
      hide Inv;
      r := TryDownCall(s);
      assert St() == DoTryDown(old(St()), s);
      IsStepKeeps(old(St()), Step.TryDown(s), St());
    }

    /** The critical section of sos_ksema_up. */
    method UpCall(s: Sema)
      requires IsSema(St(), s) && Base(St())
      modifies `value, `ups, `grants, `queues, `woken, `state, `ready, `nrThreads
      ensures St() == DoUp(old(St()), s)
    {
      hide Base, Wakeup;
      value := value[s := value[s] + 1];
      ups := ups[s := ups[s] + 1];
      ghost var l := queues[OfSema(s)];
      grants := if l == [] then grants else grants[s := grants[s] + [l[0]]];
      BaseFrame(old(St()), St());
      WakeUp(OfSema(s), 1, OK);
    }

    /** sos_ksema_up. */
    method Up(s: Sema)
      requires Inv(St()) && Allowed(St(), Step.Up(s))
      modifies `value, `ups, `grants, `queues, `woken, `state, `ready, `nrThreads
      ensures IsStep(old(St()), Step.Up(s), St()) && Inv(St())
    {
      hide Inv, Base, DoUp;
      SplitInv(St());
      UpCall(s);
      IsStepKeeps(old(St()), Step.Up(s), St());
    }

    /** sos_kmutex_lock. */
    method Lock(m: Mutex, timeout: Option<nat>)
      requires Inv(St()) && Allowed(St(), Step.Lock(m, timeout))
      modifies this
      ensures IsStep(old(St()), Step.Lock(m, timeout), St()) && Inv(St())
    {
      hide Inv, Core, Switch, Do, Left, LeaveWaiting, CanPass, TakeMutex, HasAction;
      AThreadIsAlwaysReady(St(), Step.Lock(m, timeout));
      LockIs(St(), m, timeout);
      RunningHasNone(St());
      if owner[m] != None {
        if Some(current) == owner[m] {
          result := result[current := EBUSY];
        } else {
          WaitOn(OfMutex(m), timeout);
        }
      } else {
        GetMutex(m);
      }
      IsStepKeeps(old(St()), Step.Lock(m, timeout), St());
    }

    /** sos_kmutex_trylock. */
    method TryLock(m: Mutex) returns (r: Ret)
      requires Inv(St()) && Allowed(St(), Step.TryLock(m))
      modifies `owner, `held, `result
      ensures IsStep(old(St()), Step.TryLock(m), St()) && Inv(St()) && current in result && r == result[current]
    {
      hide Inv;
      r := TryLockCall(m);
      IsStepKeeps(old(St()), Step.TryLock(m), St());
    }

    /** The critical section of sos_kmutex_trylock. */
    method TryLockCall(m: Mutex) returns (r: Ret)
      requires IsMutex(St(), m)
      modifies `owner, `held, `result
      ensures St() == DoTryLock(old(St()), m) && r == if old(owner)[m] == None then OK else EBUSY
    {
      if owner[m] == None {
        GetMutex(m);
        r := OK;
      } else {
        r := EBUSY;
        result := result[current := r];
      }
    }

    /** The critical section of sos_kmutex_unlock. */
    method UnlockCall(m: Mutex) returns (r: Ret)
      requires IsMutex(St(), m) && Base(St())
      modifies `owner, `held, `result, `queues, `woken, `state, `ready, `nrThreads
      ensures St() == DoUnlock(old(St()), m) && current in result && r == result[current]
    {
      hide Base, Wakeup;
      if Some(current) != owner[m] {
        r := EPERM;
        result := result[current := r];
      } else {
        r := OK;
        result := result[current := r];
        held := held[m := held[m] - {current}];
        if queues[OfMutex(m)] == [] {
          owner := owner[m := None];
        } else {
          BaseFrame(old(St()), St());
          WakeUp(OfMutex(m), 1, OK);
        }
      }
    }

    /** sos_kmutex_unlock. */
    method Unlock(m: Mutex) returns (r: Ret)
      requires Inv(St()) && Allowed(St(), Step.Unlock(m))
      modifies `owner, `held, `result, `queues, `woken, `state, `ready, `nrThreads
      ensures IsStep(old(St()), Step.Unlock(m), St()) && Inv(St()) && current in result && r == result[current]
    {
      hide Inv, Base, DoUnlock;
      SplitInv(St());
      r := UnlockCall(m);
      IsStepKeeps(old(St()), Step.Unlock(m), St());
    }
  }

  /** The running thread waits for no timeout. */
  lemma RunningHasNone(k: Sys)
    requires Inv(k)
    ensures !HasAction(k.clock.actions, k.sched.current)
  {
    hide SchedOk, QueuesOk, SemasOk, MutexesOk, IdleOk, NotLate;
    assert k.sched.current in k.resume ==> k.resume[k.sched.current] == Active;
    hide HasAction, SortedActions;
  }

  lemma StartShape(k: Sys, t: Tid, point: nat, ws: seq<Tid>)
    requires Inv(k) && Allowed(k, Enqueue(t, point, ws))
    ensures t in k.sched.state && k.sched.state[t] != Zombie
    ensures var c := ForceAll(k.sched, ws); t in c.state && c.state[t] != Zombie
    ensures IsStep(k, Enqueue(t, point, ws), k.(sched := if ws == [] then SetReady(k.sched, t)
      else if BeforeWindow(k.sched.ready, point) then SetReady(ForceAll(k.sched, ws), t)
      else ForceAll(SetReady(k.sched, t), ws)))
  {
    ForceAllShape(k.sched, ws);
    hide Inv, SetReady, ForceAll;
  }

  /** A down that must wait lowers the value and waits; one that need not returns at once. */
  lemma DownIs(k: Sys, s: Sema, timeout: Option<nat>)
    requires Inv(k) && Allowed(k, Down(s, timeout)) && Enabled(k, Down(s, timeout))
    ensures var a := k.(sync := k.sync.(value := k.sync.value[s := k.sync.value[s] - 1]));
      && (k.sync.value[s] - 1 < 0 ==>
            CanPass(k.sched, true) && Core(LeaveWaiting(a, OfSema(s), timeout), {}, {})
            && LeaveWaiting(a, OfSema(s), timeout).sched.ready != []
              && Do(k, Down(s, timeout)) == Switch(LeaveWaiting(a, OfSema(s), timeout)))
      && (k.sync.value[s] - 1 >= 0 ==>
        Do(k, Down(s, timeout)) == Return(a.(sync := Grant(a.sync, s, k.sched.current)), OK))
  {
    hide Inv, Core, Switch, LeaveWaiting, CanPass;
    if k.sync.value[s] - 1 < 0 {
      Passes(k, Down(s, timeout));
    }
  }

  lemma LockIs(k: Sys, m: Mutex, timeout: Option<nat>)
    requires Inv(k) && Allowed(k, Lock(m, timeout)) && Enabled(k, Lock(m, timeout))
    ensures Do(k, Lock(m, timeout)) == DoLock(k, m, timeout)
    ensures k.sync.owner[m] != None && k.sync.owner[m] != Some(k.sched.current) ==>
      CanPass(k.sched, true) && Core(LeaveWaiting(k, OfMutex(m), timeout), {}, {})
        && LeaveWaiting(k, OfMutex(m), timeout).sched.ready != []
  {
    hide Inv, Core, Switch, LeaveWaiting, CanPass;
    if k.sync.owner[m] != None && k.sync.owner[m] != Some(k.sched.current) {
      Passes(k, Lock(m, timeout));
    }
  }

  lemma YieldLeft(k: Sys)
    requires Enabled(k, Yield)
    ensures Left(k, Yield) == LeaveReady(k)
  {}

  lemma SleepLeft(k: Sys, timeout: Option<nat>)
    requires Enabled(k, Sleep(timeout))
    ensures Left(k, Sleep(timeout)) == LeaveBlocked(k, AtSleep(timeout.Some?), timeout)
  {}

  lemma WaitLeft(k: Sys, id: nat, timeout: Option<nat>)
    requires Enabled(k, Wait(id, timeout))
    ensures Left(k, Wait(id, timeout)) == LeaveWaiting(k, Plain(id), timeout)
  {}

  /** What a thread that exits leaves behind, and the thread it leaves the CPU to. */
  lemma ExitPasses(k: Sys)
    requires Inv(k) && Allowed(k, Exit)
    ensures CanPass(k.sched, true) && LeaveForGood(k).sched.ready != []
    ensures forall q :: q in k.wait.queues ==> k.sched.current !in k.wait.queues[q]
    ensures var g := LeaveForGood(k);
      var d := g.(sched := Dispatch(g.sched));
      CanContinue(d) && d.sched.current in d.resume && Enabled(k, Exit) && Do(k, Exit) == Finish(d, d.sched.current)
  {
    hide Inv, Core, Do, Left, Enabled, CanContinue, Finish, HasAction, CanPass;
    Passes(k, Exit);
    ExitLeft(k);
    CurrentActive(k);
    NoTrace(k, k.sched.current);
    var g := LeaveForGood(k);
    DispatchKeeps(g);
    DispatchCurrent(g.sched);
    ReadyToContinue(g.(sched := Dispatch(g.sched)));
    StillThere(g.(sched := Dispatch(g.sched)));
  }

  lemma ExitLeft(k: Sys)
    requires Enabled(k, Exit)
    ensures Left(k, Exit) == LeaveForGood(k)
  {}

  lemma FirstWaiter(k: Sys, q: Queue)
    requires Base(k) && q in k.wait.queues && k.wait.queues[q] != []
    ensures var t := k.wait.queues[q][0];
      t in k.sched.state && (k.sched.state[t] == Blocked || k.sched.state[t] == Ready)
  {
    var t := k.wait.queues[q][0];
    assert Waits(k.wait, k.resume, t, q);
    hide SchedOk, ThreadsOk, TimeoutsOk, QueuesOk;
    WaitersAreAsleep(k, t);
  }

  lemma WakeupNone(k: Sys, q: Queue, n: nat, status: Ret)
    requires n == 0 || (q in k.wait.queues && k.wait.queues[q] == [])
    ensures Wakeup(k, q, n, status) == k
  {}
}
