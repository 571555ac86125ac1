/**
 How a sleep, a wait, a down or a lock ends, and in what order: statements from the call to its return,
 whatever the other threads and the timer do in between.
 */
module ThreadOutcomes {
  import opened ThreadState
  import opened ThreadProofs
  import opened ThreadTheorems

  // ---------------------------------------------------------------- one step, seen by a sleeping thread

  /** Thread `t` is inside a sleep or a wait. */
  predicate Inside(k: Sys, t: Tid) { t in k.resume && (k.resume[t].AtSleep? || k.resume[t].AtWait?) }

  /** Nothing that was recorded for `t` is lost. */
  predicate Stays(k: Sys, k': Sys, t: Tid)
    requires t in k.resume
  {
    && t in k'.resume && k'.resume[t] == k.resume[t]
    && (t in k.clock.due ==> t in k'.clock.due && k'.clock.due[t] == k.clock.due[t])
    && (t in k.wait.woken ==> t in k'.wait.woken && k'.wait.woken[t] == k.wait.woken[t])
    && (t in k.clock.expired ==> t in k'.clock.expired)
  }

  /** Thread `t` has the CPU again and its call returned; no trace of it is left in the timeouts and the queues. */
  ghost predicate Returns(k: Sys, k': Sys, t: Tid)
    requires t in k.resume
  {
    var r := k.resume[t];
    && t in k'.resume && k'.resume[t] == Active && k'.sched.current == t && k'.clock.now == k.clock.now
    && t in k'.result && k'.result[t] == CallResult(k, t, r)
    && (Timed(r) ==> t in k'.clock.left && (t in k.clock.due ==> k'.clock.left[t] == TimeLeft(k.clock, t)))
    && !HasAction(k'.clock.actions, t)
    && (forall q :: q in k'.wait.queues ==> t !in k'.wait.queues[q])
  }

  function CallResult(k: Sys, t: Tid, r: Resume): Ret {
    if r.AtWait? then WaitResult(k.wait, t)
    else if Timed(r) && t !in k.clock.expired then EINTR
    else OK
  }

  function TimeLeft(c: Clock, t: Tid): int
    requires t in c.due
  {
    if t in c.expired then 0 else Max0(c.due[t] - c.now)
  }

  function TimeoutOf(step: Step): Option<nat> {
    match step
    case Sleep(timeout) => timeout
    case Wait(_, timeout) => timeout
    case Down(_, timeout) => timeout
    case Lock(_, timeout) => timeout
    case _ => None
  }

  function QueueOf(step: Step): Option<Queue> {
    match step
    case Wait(id, _) => Some(Plain(id))
    case Down(s, _) => Some(OfSema(s))
    case Lock(m, _) => Some(OfMutex(m))
    case _ => None
  }

  /** Where the running thread goes on once it gave up the CPU in `step`. */
  function ResumeOf(step: Step): Resume {
    match step
    case Yield => AtYield
    case Sleep(timeout) => AtSleep(timeout.Some?)
    case Wait(id, timeout) => AtWait(Plain(id), timeout.Some?)
    case Down(s, timeout) => AtWait(OfSema(s), timeout.Some?)
    case Lock(m, timeout) => AtWait(OfMutex(m), timeout.Some?)
    case _ => Finished
  }

  lemma LeftShape(k: Sys, step: Step)
    requires Enabled(k, step) && Switches(k, step)
    ensures var l, c := Left(k, step), k.sched.current;
      && l.resume == k.resume[c := ResumeOf(step)] && l.clock == Register(k.clock, c, TimeoutOf(step))
      && l.wait.woken == k.wait.woken && l.result == k.result
      && (QueueOf(step).Some? ==> QueueOf(step).value in k.wait.queues)
      && l.wait.queues
        == (if QueueOf(step).Some? then k.wait.queues[QueueOf(step).value := k.wait.queues[QueueOf(step).value] + [c]]
          else k.wait.queues)
  {
    hide InsertAction;
  }

  lemma RegisterShape(c: Clock, t: Tid, timeout: Option<nat>)
    ensures var c' := Register(c, t, timeout);
      && c'.now == c.now && c'.expired == c.expired
      && (forall u :: u != t && u in c.due ==> u in c'.due && c'.due[u] == c.due[u])
  {
    hide InsertAction;
  }

  /** The state of the machine in the middle of a context switch satisfies the invariant, with no thread running. */
  lemma LeftKeeps(k: Sys, step: Step)
    requires Inv(k) && Enabled(k, step) && Switches(k, step) && IdleObeys(k, step)
    ensures Core(Left(k, step), {}, {})
  {
    hide Core, LeaveReady, LeaveBlocked, LeaveWaiting, LeaveForGood, JoinOk;
    match step {
      case Yield => LeaveReadyKeeps(k);
      case Sleep(timeout) => LeaveBlockedKeeps(k, timeout);
      case Wait(id, timeout) => PlainJoin(k, Plain(id)); assert k.(sync := k.sync)
        == k; LeaveWaitingKeeps(k, k.sync, Plain(id), timeout);
      case Down(s, timeout) => BlockSema(k, s);
        LeaveWaitingKeeps(k, k.sync.(value := k.sync.value[s := k.sync.value[s] - 1]), OfSema(s), timeout);
      case Lock(m, timeout) => PlainJoin(k, OfMutex(m)); assert k.(sync := k.sync)
        == k; LeaveWaitingKeeps(k, k.sync, OfMutex(m), timeout);
      case Exit => LeaveForGoodKeeps(k);
    }
  }

  lemma PlainJoin(k: Sys, q: Queue)
    requires Inv(k) && q in k.wait.queues && !q.OfSema?
    requires q.OfMutex? && q.m in k.sync.owner ==>
      k.sync.owner[q.m].Some? && k.sync.owner[q.m] != Some(k.sched.current)
    ensures JoinOk(k, k.sync, q)
  {
    SemasFrame(k.sync, k.wait.queues, k.sync, k.wait.queues[q := k.wait.queues[q] + [k.sched.current]]);
  }

  /** What the resumed thread finds. */
  lemma SwitchReturns(l: Sys, t: Tid)
    requires Core(l, {}, {}) && l.sched.ready != [] && t == l.sched.ready[0] && Inside(l, t)
    ensures Returns(l, Switch(l), t)
  {
    var k' := Switch(l);
    SwitchKeeps(l);
    if t in l.clock.expired { ExpiredIsZero(l, t); }
    SwitchShape(l, t);
    hide Switch, Core;
    NoTrace(k', t);
  }

  lemma NoTrace(k: Sys, t: Tid)
    requires Inv(k) && t in k.resume && k.resume[t] == Active
    ensures !HasAction(k.clock.actions, t) && (forall q :: q in k.wait.queues ==> t !in k.wait.queues[q])
  {
    hide SchedOk, ThreadsOk, SemasOk, MutexesOk, HasAction;
  }

  lemma ExpiredIsZero(l: Sys, t: Tid)
    requires Core(l, {}, {}) && t in l.clock.expired
    ensures t in l.clock.left && l.clock.left[t] == 0
  {
    hide SchedOk, ThreadsOk, QueuesOk, SemasOk, MutexesOk;
  }

  lemma SwitchShape(l: Sys, t: Tid)
    requires l.sched.ready != [] && t == l.sched.ready[0] && Inside(l, t)
    requires t in l.clock.expired ==> t in l.clock.left && l.clock.left[t] == 0
    ensures var k' := Switch(l);
      && t in k'.resume && k'.resume[t] == Active && k'.sched.current == t && k'.clock.now == l.clock.now
      && t in k'.result && k'.result[t] == CallResult(l, t, l.resume[t])
      && (Timed(l.resume[t]) ==> t in k'.clock.left && (t in l.clock.due ==> k'.clock.left[t] == TimeLeft(l.clock, t)))
  {
    hide WithoutAction, Without;
  }

  lemma SwitchStays(l: Sys, t: Tid)
    requires l.sched.ready != [] && t != l.sched.ready[0] && Inside(l, t)
    ensures Stays(l, Switch(l), t)
  {
    hide WithoutAction, Without, AfterCall;
  }

  lemma {:induction false} WakeupStays(k: Sys, q: Queue, n: nat, status: Ret, t: Tid)
    requires QueuesOk(k.wait, k.resume) && (q.Plain? || status == OK) && t in k.resume
    ensures Stays(k, Wakeup(k, q, n, status), t)
    decreases n
  {
    if n == 0 || q !in k.wait.queues || k.wait.queues[q] == [] {
    } else {
      var h := k.wait.queues[q][0];
      assert Waits(k.wait, k.resume, h, q);
      TakeQueues(k.wait, k.resume, q, status);
      hide QueuesOk;
      WakeupStays(TakeWaiter(k, q, status), q, n - 1, status, t);
    }
  }

  lemma {:induction false} FireDueStays(k: Sys, t: Tid)
    requires t in k.resume
    ensures Stays(k, FireDue(k), t)
    decreases |k.clock.actions|
  {
    if k.clock.actions == [] || k.clock.now < k.clock.actions[0].due {
    } else {
      FireDueStays(FireHead(k), t);
    }
  }

  lemma QuietStep(k: Sys, step: Step, t: Tid)
    requires QueuesOk(k.wait, k.resume) && Enabled(k, step) && !Switches(k, step) && t in k.resume && t in k.sched.state
    ensures Stays(k, Do(k, step), t)
  {
    match step {
      case WakeupPlain(id, n, status) => WakeupStays(k, Plain(id), n, status, t);
      case Tick => FireDueStays(k.(clock := k.clock.(now := k.clock.now + k.clock.tick)), t);
      case Up(s) =>
        var l := k.wait.queues[OfSema(s)];
        var y := k.sync.(value := k.sync.value[s := k.sync.value[s] + 1], ups := k.sync.ups[s := k.sync.ups[s] + 1]);
        WakeupStays(k.(sync := if l == [] then y else Grant(y, s, l[0])), OfSema(s), 1, OK, t);
      case Unlock(m) =>
        var y := k.sync.(held := k.sync.held[m := k.sync.held[m] - {k.sched.current}]);
        WakeupStays(Return(k.(sync := y), OK), OfMutex(m), 1, OK, t);
      case _ =>
        hide Wakeup, FireDue, QueuesOk;
    }
  }

  /** `l` records for thread `t` what `k` records. */
  predicate SameFor(k: Sys, l: Sys, t: Tid)
    requires t in k.resume
  {
    && t in l.resume && l.resume[t] == k.resume[t] && l.clock.now == k.clock.now
    && l.clock.expired == k.clock.expired && l.wait.woken == k.wait.woken
    && (t in k.clock.due ==> t in l.clock.due && l.clock.due[t] == k.clock.due[t])
  }

  /** Giving up the CPU changes nothing that is recorded for another thread. */
  lemma LeftStays(k: Sys, step: Step, t: Tid)
    requires Enabled(k, step) && Switches(k, step) && t != k.sched.current && t in k.resume
    ensures SameFor(k, Left(k, step), t)
  {
    LeftShape(k, step);
    RegisterShape(k.clock, k.sched.current, TimeoutOf(step));
    hide Left, Register, Enabled, Switches;
  }

  lemma SameForCarries(k: Sys, l: Sys, k': Sys, t: Tid)
    requires t in k.resume && SameFor(k, l, t)
    ensures Returns(l, k', t) ==> Returns(k, k', t)
    ensures Stays(l, k', t) ==> Stays(k, k', t)
  {
    hide HasAction;
  }

  lemma SwitchInside(k: Sys, step: Step, t: Tid)
    requires Inv(k) && Enabled(k, step) && IdleObeys(k, step) && Inside(k, t) && Switches(k, step)
    ensures Stays(k, Do(k, step), t) || Returns(k, Do(k, step), t)
  {
    hide Inv, Core, Do, Left, Switch, Enabled, Switches, IdleObeys, Returns, Stays;
    CurrentActive(k);
    var l := Left(k, step);
    LeftKeeps(k, step);
    LeftStays(k, step, t);
    DoIsSwitch(k, step);
    SameForCarries(k, l, Do(k, step), t);
    if l.sched.ready[0] == t { SwitchReturns(l, t); } else { SwitchStays(l, t); }
  }

  /**
   Each step either leaves a sleeping thread inside its call, with all that was recorded for it, or returns from it.
   */
  lemma StepInside(k: Sys, step: Step, t: Tid)
    requires Inv(k) && Enabled(k, step) && IdleObeys(k, step) && Inside(k, t)
    ensures Stays(k, Do(k, step), t) || Returns(k, Do(k, step), t)
  {
    if Switches(k, step) {
      SwitchInside(k, step, t);
    } else {
      assert t in k.sched.state && QueuesOk(k.wait, k.resume) by { hide Do; }
      hide Inv, Core, QueuesOk, Enabled, Do, Stays;
      QuietStep(k, step, t);
    }
  }

  // ---------------------------------------------------------------- from the call to the return

  /** In `ks[i]` thread `t` has not returned from the call it is in. */
  predicate NotBack(ks: seq<Sys>, t: Tid, i: int)
    requires 0 <= i < |ks|
  {
    t in ks[i].resume && ks[i].resume[t] != Active
  }

  lemma {:induction false} RunInside(ks: seq<Sys>, steps: seq<Step>, t: Tid, i: nat, j: nat)
    requires IsRun(ks, steps) && i <= j < |ks| && Inside(ks[i], t)
    requires forall x :: i <= x <= j ==> NotBack(ks, t, x)
    ensures Stays(ks[i], ks[j], t)
  {
    hide Inv, Do, Enabled, IdleObeys, UnlocksOwn;
    if i == j {
    } else {
      RunInside(ks, steps, t, i, j - 1);
      RunKeeps(ks, steps, j - 1);
      assert IsStep(ks[j - 1], steps[j - 1], ks[j]) && NotBack(ks, t, j);
      StepInside(ks[j - 1], steps[j - 1], t);
      hide HasAction;
    }
  }

  /** The step in which `t` comes back. */
  lemma RunReturns(ks: seq<Sys>, steps: seq<Step>, t: Tid, i: nat, j: nat)
    requires IsRun(ks, steps) && i < j < |ks| && Inside(ks[i], t)
    requires (forall x :: i <= x < j ==> NotBack(ks, t, x)) && !NotBack(ks, t, j)
    ensures Stays(ks[i], ks[j - 1], t) && Returns(ks[j - 1], ks[j], t)
  {
    hide Inv, Do, Enabled, IdleObeys, UnlocksOwn;
    RunInside(ks, steps, t, i, j - 1);
    RunKeeps(ks, steps, j - 1);
    assert IsStep(ks[j - 1], steps[j - 1], ks[j]);
    StepInside(ks[j - 1], steps[j - 1], t);
    hide Returns;
  }

  /** A thread that blocks is inside its call, and the date its timeout is due is recorded. */
  lemma Blocks(k: Sys, step: Step)
    requires Inv(k) && Enabled(k, step) && IdleObeys(k, step) && Switches(k, step) && !step.Yield? && !step.Exit?
    ensures var k', t := Do(k, step), k.sched.current;
      && t in k'.resume && k'.resume[t] == ResumeOf(step)
      && t !in k'.wait.woken && t !in k'.clock.expired
      && (TimeoutOf(step).Some? ==> t in k'.clock.due && k'.clock.due[t] == k.clock.now + TimeoutOf(step).value)
  {
    var l, t := Left(k, step), k.sched.current;
    CurrentActive(k);
    BlocksAlone(k);
    hide Inv, Core;
    LeftShape(k, step);
    DoIsSwitch(k, step);
    hide Do, Left, Enabled, Switches, InsertAction;
    SwitchStays(l, t);
    BlockedFresh(l, t);
    hide Register;
  }

  lemma BlocksAlone(k: Sys)
    requires Inv(k)
    ensures k.sched.current !in k.sched.ready && k.sched.current !in k.wait.woken && k.sched.current !in k.clock.expired
  {
    CurrentActive(k);
    assert k.sched.state[k.sched.current] == Running;
    hide SemasOk, MutexesOk;
  }

  lemma BlockedFresh(l: Sys, t: Tid)
    requires l.sched.ready != [] && t !in l.wait.woken && t !in l.clock.expired
    ensures t !in Switch(l).wait.woken && t !in Switch(l).clock.expired
  {
    hide WithoutAction, Without, AfterCall;
  }

  /**
   The contract of sos_thread_sleep with a timeout: a sleep of `d` that returns OK has lasted at least `d` and reports
   no time left; one that was interrupted reports what is left of `d`. Either way its timeout is not pending any more.
   */
  lemma SleepContract(ks: seq<Sys>, steps: seq<Step>, i: nat, j: nat, d: nat)
    requires IsRun(ks, steps) && i < j < |ks| && steps[i] == Sleep(Some(d))
    requires (forall x :: i < x < j ==> NotBack(ks, ks[i].sched.current, x)) && !NotBack(ks, ks[i].sched.current, j)
    ensures var t, start, end := ks[i].sched.current, ks[i].clock.now, ks[j].clock.now;
      && t in ks[j].result && (ks[j].result[t] == OK || ks[j].result[t] == EINTR)
      && (ks[j].result[t] == OK ==> end - start >= d)
      && t in ks[j].clock.left
      && ks[j].clock.left[t] == (if ks[j].result[t] == OK || end - start >= d then 0 else d - (end - start))
      && !HasAction(ks[j].clock.actions, t)
  {
    hide Do, Enabled, IdleObeys, UnlocksOwn, Inv, HasAction;
    var t := ks[i].sched.current;
    RunKeeps(ks, steps, i);
    assert IsStep(ks[i], steps[i], ks[i + 1]);
    assert Switches(ks[i], steps[i]);
    Blocks(ks[i], steps[i]);
    assert NotBack(ks, t, i + 1);
    RunReturns(ks, steps, t, i + 1, j);
    RunKeeps(ks, steps, j - 1);
    if t in ks[j - 1].clock.expired { ExpiredIsDue(ks[j - 1], t); }
  }

  lemma ExpiredIsDue(k: Sys, t: Tid)
    requires Inv(k) && t in k.clock.expired
    ensures t in k.clock.due && k.clock.due[t] <= k.clock.now
  {
    hide SchedOk, ThreadsOk, QueuesOk, SemasOk, MutexesOk;
  }

  /**
   The contract of sos_kwaitq_wait, hence of a down or a lock that blocks: it returns OK, or the wakeup status,
   if and only if a wakeup took its entry off the queue at some point before it runs again, even when
   its timeout had fired before; and it has left all queues.
   */
  lemma WaitContract(ks: seq<Sys>, steps: seq<Step>, i: nat, j: nat, x: nat)
    requires IsRun(ks, steps) && i < x < j < |ks| && QueueOf(steps[i]).Some? && Switches(ks[i], steps[i])
    requires (forall y :: i < y < j ==> NotBack(ks, ks[i].sched.current, y)) && !NotBack(ks, ks[i].sched.current, j)
    ensures var t := ks[i].sched.current;
      && t in ks[j].result
      && (t in ks[x].wait.woken ==> ks[j].result[t] == ks[x].wait.woken[t])
      && (t !in ks[j - 1].wait.woken ==> ks[j].result[t] == EINTR)
      && (forall q :: q in ks[j].wait.queues ==> t !in ks[j].wait.queues[q])
  {
    hide Do, Enabled, IdleObeys, UnlocksOwn, Inv, HasAction;
    var t := ks[i].sched.current;
    RunKeeps(ks, steps, i);
    assert IsStep(ks[i], steps[i], ks[i + 1]);
    Blocks(ks[i], steps[i]);
    assert NotBack(ks, t, i + 1);
    RunReturns(ks, steps, t, i + 1, j);
    RunInside(ks, steps, t, i + 1, x);
    RunReturns(ks, steps, t, x, j);
  }

  // ---------------------------------------------------------------- timeouts

  /**
   A timeout is not missed: whatever call it was given to, once its date is past, the thread is ready if it did not get
   the CPU already.
   */
  lemma TimeoutWakes(ks: seq<Sys>, steps: seq<Step>, i: nat, j: nat, d: nat)
    requires IsRun(ks, steps) && i < j < |ks| && Switches(ks[i], steps[i])
    requires (steps[i].Sleep? || steps[i].Wait? || steps[i].Down? || steps[i].Lock?) && steps[i].timeout == Some(d)
    requires forall x :: i < x <= j ==> NotBack(ks, ks[i].sched.current, x)
    requires ks[j].clock.now > ks[i].clock.now + d
    ensures ks[i].sched.current in ks[j].sched.ready
  {
    hide Do, Enabled, IdleObeys, UnlocksOwn, Inv, Switches;
    var t := ks[i].sched.current;
    RunKeeps(ks, steps, i);
    assert IsStep(ks[i], steps[i], ks[i + 1]);
    Blocks(ks[i], steps[i]);
    RunInside(ks, steps, t, i + 1, j);
    RunKeeps(ks, steps, j);
    PastIsReady(ks[j], t);
  }

  lemma PastIsReady(k: Sys, t: Tid)
    requires Inv(k) && Inside(k, t) && Timed(k.resume[t]) && t in k.clock.due && k.clock.due[t] < k.clock.now
    ensures t in k.sched.ready
  {
    WaitersAreAsleep(k, t);
    assert !HasAction(k.clock.actions, t);
    assert ThreadOk(k, {k.sched.current}, t);
    hide QueuesOk, SemasOk, MutexesOk;
  }
}
