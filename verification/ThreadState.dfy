/**
 Threads, the ready queue, wait queues, timeouts, semaphores and mutexes
 (os/thread.c, os/sched.c, os/kwaitq.c, os/time.c, os/ksynch.c), as a state machine.

 A step is what runs with interrupts disabled: one call of the running thread up to its return, or up to
 the context switch and then the rest of the call the resumed thread was in; or one timer interrupt.
 A `Sys` value is a snapshot of the machine between steps. `Threads.Kernel` takes the same steps in place.
 */
module ThreadState {

  type Tid = nat
  type Sema = nat
  type Mutex = nat

  datatype Option<+T> = None | Some(value: T)
  datatype Ret = OK | EINTR | EBUSY | EPERM | EFATAL | EINVAL

  /** sos_thread_state_t. */
  datatype Run = Created | Ready | Running | Blocked | Zombie

  /** The wait queues: one in each semaphore, one in each mutex, and those used on their own. */
  datatype Queue = OfSema(s: Sema) | OfMutex(m: Mutex) | Plain(id: nat)

  /**
   Where a thread goes on when it gets the CPU again: at its start routine, in sos_thread_yield,
   in sos_thread_sleep, or in sos_kwaitq_wait (called on behalf of the owner of the queue).
   */
  datatype Resume = Active | Finished | AtStart | AtYield | AtSleep(timed: bool) | AtWait(q: Queue, timed: bool)

  /** A timeout action of sleep_timeout: the thread to wake up and the date, in nanoseconds since boot. */
  datatype Action = Action(thread: Tid, due: int)

  /** Thread states, the running thread and the ready queue. */
  datatype Sched = Sched(state: map<Tid, Run>, current: Tid, ready: seq<Tid>, nrThreads: int, idle: Tid)

  /** The wait queues, and the entries a wakeup took off their queue, with the wakeup status. */
  datatype Waiting = Waiting(queues: map<Queue, seq<Tid>>, woken: map<Tid, Ret>)

  /**
   The date, the timeout actions, and the threads whose timeout fired. `left` is the delay stored in the last
   timeout action of each thread once it is off the list, which is the time its sleep reports as remaining; `due`
   records when the last timed sleep of each thread is due.
   */
  datatype Clock = Clock(now: int, tick: int, actions: seq<Action>, expired: set<Tid>, left: map<Tid, int>,
    due: map<Tid, int>)

  /**
   The fields of semaphores and mutexes. `initial`, `ups` and `grants` record the history of semaphores
   (who got them, in order); `held` records who got a mutex and has not released it.
   */
  datatype Sync = Sync(
    value: map<Sema, int>, owner: map<Mutex, Option<Tid>>,
    initial: map<Sema, int>, ups: map<Sema, int>, grants: map<Sema, seq<Tid>>, held: map<Mutex, set<Tid>>)

  /** `resume` is where each thread goes on, and `result` what its last call returned. */
  datatype Sys = Sys(sched: Sched, resume: map<Tid, Resume>, wait: Waiting, clock: Clock, sync: Sync, result: map<Tid,
    Ret>)

  predicate NoDup<T(==)>(s: seq<T>) { forall i, j :: 0 <= i < j < |s| ==> s[i] != s[j] }

  predicate Timed(r: Resume) { (r.AtSleep? || r.AtWait?) && r.timed }

  /** `l` without its only occurrence of `t`. */
  function Without(l: seq<Tid>, t: Tid): seq<Tid> {
    if l == [] then [] else if l[0] == t then l[1..] else [l[0]] + Without(l[1..], t)
  }

  function WithoutAction(l: seq<Action>, t: Tid): seq<Action> {
    if l == [] then [] else if l[0].thread == t then l[1..] else [l[0]] + WithoutAction(l[1..], t)
  }

  /** After the actions due at the same date or before. */
  function InsertAction(l: seq<Action>, a: Action): seq<Action> {
    if l == [] || a.due < l[0].due then [a] + l else [l[0]] + InsertAction(l[1..], a)
  }

  function Max0(v: int): int { if v > 0 then v else 0 }

  // ---------------------------------------------------------------- pieces of steps

  /** sos_sched_set_ready. */
  function SetReady(c: Sched, t: Tid): Sched {
    if t in c.state && c.state[t] == Ready then c
    else c.(state := c.state[t := Ready], ready := c.ready + [t], nrThreads := c.nrThreads + 1)
  }

  /** sos_thread_force_unblock. */
  function Unblock(c: Sched, t: Tid): Sched {
    if t in c.state && (c.state[t] == Blocked || c.state[t] == Created) then SetReady(c, t) else c
  }

  /** One round of sos_kwaitq_wakeup: the first waiter leaves the queue and is ready. */
  function TakeWaiter(k: Sys, q: Queue, status: Ret): Sys
    requires q in k.wait.queues && k.wait.queues[q] != []
  {
    var l := k.wait.queues[q];
    k.(sched := SetReady(k.sched, l[0]),
       wait := Waiting(k.wait.queues[q := l[1..]], k.wait.woken[l[0] := status]))
  }

  /** sos_kwaitq_wakeup: up to `n` waiters, in order. */
  function Wakeup(k: Sys, q: Queue, n: nat, status: Ret): Sys
    decreases n
  {
    if n == 0 || q !in k.wait.queues || k.wait.queues[q] == [] then k
    else Wakeup(TakeWaiter(k, q, status), q, n - 1, status)
  }

  /** The first ready thread gets the CPU. */
  function Dispatch(c: Sched): Sched
    requires c.ready != []
  {
    c.(state := c.state[c.ready[0] := Running], current := c.ready[0], ready := c.ready[1..],
      nrThreads := c.nrThreads - 1)
  }

  /** The rest of sos_thread_sleep, when it had a timeout. */
  function AfterSleep(c: Clock, t: Tid): Clock {
    if t in c.expired then c.(expired := c.expired - {t})
    else c.(actions := WithoutAction(c.actions, t),
      left := c.left[t := if t in c.due then Max0(c.due[t] - c.now) else 0])
  }

  /** What sos_kwaitq_wait returns to `t`. */
  function WaitResult(w: Waiting, t: Tid): Ret { if t in w.woken then w.woken[t] else EINTR }

  /** The rest of sos_kwaitq_wait: an entry nobody took off the queue is removed by the thread itself. */
  function AfterWait(w: Waiting, t: Tid, q: Queue): Waiting {
    if t in w.woken then w.(woken := w.woken - {t})
    else if q in w.queues then w.(queues := w.queues[q := Without(w.queues[q], t)])
    else w
  }

  function Held(held: map<Mutex, set<Tid>>, m: Mutex, t: Tid): map<Mutex, set<Tid>> {
    if m in held then held[m := held[m] + {t}] else held
  }

  /** The rest of sos_ksema_down or sos_kmutex_lock. */
  function AfterCall(y: Sync, t: Tid, q: Queue, ret: Ret): Sync {
    match q
    case OfSema(s) => if ret != OK && s in y.value then y.(value := y.value[s := y.value[s] + 1]) else y
    case OfMutex(m) => if ret == OK && m in y.owner then y.(owner := y.owner[m := Some(t)], held := Held(y.held, m, t))
      else y
    case Plain(_) => y
  }

  /** Where `t` goes on. */
  function At(resume: map<Tid, Resume>, t: Tid): Resume { if t in resume then resume[t] else AtStart }

  function FinishClock(c: Clock, t: Tid, r: Resume): Clock { if Timed(r) then AfterSleep(c, t) else c }

  function FinishWait(w: Waiting, t: Tid, r: Resume): Waiting { if r.AtWait? then AfterWait(w, t, r.q) else w }

  function FinishSync(y: Sync, w: Waiting, t: Tid, r: Resume): Sync {
    if r.AtWait? then AfterCall(y, t, r.q, WaitResult(w, t)) else y
  }

  /** What the call that `t` was in returns. */
  function FinishResult(k: Sys, t: Tid, r: Resume): map<Tid, Ret> {
    match r
    case AtSleep(timed) => k.result[t := if timed && t !in k.clock.expired then EINTR else OK]
    case AtWait(_, _) => k.result[t := WaitResult(k.wait, t)]
    case _ => k.result
  }

  /** What thread `t`, which just got the CPU, runs before interrupts are enabled again. */
  function Finish(k: Sys, t: Tid): Sys {
    var r := At(k.resume, t);
    Sys(k.sched, k.resume[t := Active], FinishWait(k.wait, t, r), FinishClock(k.clock, t, r),
        FinishSync(k.sync, k.wait, t, r), FinishResult(k, t, r))
  }

  /** The context switch and what the resumed thread does after it. */
  function Switch(k: Sys): Sys
    requires k.sched.ready != []
  {
    Finish(k.(sched := Dispatch(k.sched)), k.sched.ready[0])
  }

  /** The running thread leaves the CPU to run again later. */
  function LeaveReady(k: Sys): Sys {
    var t := k.sched.current;
    k.(sched := k.sched.(state := k.sched.state[t := Ready], ready := k.sched.ready + [t],
      nrThreads := k.sched.nrThreads + 1),
       resume := k.resume[t := AtYield])
  }

  /** An action of thread `t` at date `date`. */
  function RegisterAt(c: Clock, t: Tid, date: int): Clock {
    c.(actions := InsertAction(c.actions, Action(t, date)), due := c.due[t := date])
  }

  /** sos_time_register_action_relative by the running thread. */
  function Register(c: Clock, t: Tid, timeout: Option<nat>): Clock {
    if timeout.None? then c else RegisterAt(c, t, c.now + timeout.value)
  }

  /** The running thread blocks, after registering its timeout if it has one. */
  function LeaveBlocked(k: Sys, r: Resume, timeout: Option<nat>): Sys {
    var t := k.sched.current;
    k.(sched := k.sched.(state := k.sched.state[t := Blocked]),
       resume := k.resume[t := r],
       clock := Register(k.clock, t, timeout))
  }

  /** The running thread joins queue `q` and blocks. */
  function LeaveWaiting(k: Sys, q: Queue, timeout: Option<nat>): Sys
    requires q in k.wait.queues
  {
    LeaveBlocked(k, AtWait(q, timeout.Some?), timeout)
      .(wait := k.wait.(queues := k.wait.queues[q := k.wait.queues[q] + [k.sched.current]]))
  }

  function LeaveForGood(k: Sys): Sys {
    var t := k.sched.current;
    k.(sched := k.sched.(state := k.sched.state[t := Zombie]), resume := k.resume[t := Finished])
  }

  /** The first action of the list fires. */
  function FireHead(k: Sys): Sys
    requires k.clock.actions != []
  {
    var t := k.clock.actions[0].thread;
    k.(clock := k.clock.(actions := k.clock.actions[1..], expired := k.clock.expired + {t},
      left := k.clock.left[t := 0]),
       sched := Unblock(k.sched, t))
  }

  /** The loop of sos_time_do_tick. */
  function FireDue(k: Sys): Sys
    decreases |k.clock.actions|
  {
    if k.clock.actions == [] || k.clock.now < k.clock.actions[0].due then k else FireDue(FireHead(k))
  }

  function Return(k: Sys, r: Ret): Sys { k.(result := k.result[k.sched.current := r]) }

  // ---------------------------------------------------------------- steps

  predicate IsSema(k: Sys, s: Sema) {
    s in k.sync.value && OfSema(s) in k.wait.queues && s in k.sync.grants && s in k.sync.ups && s in k.sync.initial
  }

  predicate IsMutex(k: Sys, m: Mutex) { m in k.sync.owner && OfMutex(m) in k.wait.queues && m in k.sync.held }

  function Grant(y: Sync, s: Sema, t: Tid): Sync
    requires s in y.grants
  {
    y.(grants := y.grants[s := y.grants[s] + [t]])
  }

  /** sos_ksema_down. */
  function DoDown(k: Sys, s: Sema, timeout: Option<nat>): Sys
    requires IsSema(k, s) && (k.sync.value[s] - 1 < 0 ==> k.sched.ready != [])
  {
    var a := k.(sync := k.sync.(value := k.sync.value[s := k.sync.value[s] - 1]));
    if k.sync.value[s] - 1 < 0 then Switch(LeaveWaiting(a, OfSema(s), timeout))
    else Return(a.(sync := Grant(a.sync, s, k.sched.current)), OK)
  }

  /** sos_ksema_trydown. */
  function DoTryDown(k: Sys, s: Sema): Sys
    requires IsSema(k, s)
  {
    if k.sync.value[s] >= 1
    then Return(k.(sync := Grant(k.sync.(value := k.sync.value[s := k.sync.value[s] - 1]), s, k.sched.current)), OK)
    else Return(k, EBUSY)
  }

  /** sos_ksema_up. */
  function DoUp(k: Sys, s: Sema): Sys
    requires IsSema(k, s)
  {
    var l := k.wait.queues[OfSema(s)];
    var y := k.sync.(value := k.sync.value[s := k.sync.value[s] + 1], ups := k.sync.ups[s := k.sync.ups[s] + 1]);
    Wakeup(k.(sync := if l == [] then y else Grant(y, s, l[0])), OfSema(s), 1, OK)
  }

  function TakeMutex(k: Sys, m: Mutex): Sys
    requires IsMutex(k, m)
  {
    var t := k.sched.current;
    Return(k.(sync := k.sync.(owner := k.sync.owner[m := Some(t)], held := k.sync.held[m := k.sync.held[m] + {t}])), OK)
  }

  /** sos_kmutex_lock. */
  function DoLock(k: Sys, m: Mutex, timeout: Option<nat>): Sys
    requires IsMutex(k, m)
    requires (k.sync.owner[m].Some? && k.sync.owner[m] != Some(k.sched.current) ==> k.sched.ready != [])
  {
    if k.sync.owner[m].None? then TakeMutex(k, m)
    else if k.sync.owner[m] == Some(k.sched.current) then Return(k, EBUSY)
    else Switch(LeaveWaiting(k, OfMutex(m), timeout))
  }

  /** sos_kmutex_trylock. */
  function DoTryLock(k: Sys, m: Mutex): Sys
    requires IsMutex(k, m)
  {
    if k.sync.owner[m].None? then TakeMutex(k, m) else Return(k, EBUSY)
  }

  /** sos_kmutex_unlock. With waiters, the owner field is left alone and the first waiter will take it over. */
  function DoUnlock(k: Sys, m: Mutex): Sys
    requires IsMutex(k, m)
  {
    var t := k.sched.current;
    if k.sync.owner[m] != Some(t) then Return(k, EPERM)
    else
      var y := k.sync.(held := k.sync.held[m := k.sync.held[m] - {t}]);
      if k.wait.queues[OfMutex(m)] == [] then Return(k.(sync := y.(owner := y.owner[m := None])), OK)
      else Wakeup(Return(k.(sync := y), OK), OfMutex(m), 1, OK)
  }

  /** The first part of sos_create_kernel_thread, up to the end of its critical section: the thread exists. */
  function DoCreate(k: Sys, t: Tid): Sys {
    k.(sched := k.sched.(state := k.sched.state[t := Created]), resume := k.resume[t := AtStart])
  }

  // ---------------------------------------------------------------- the ready queue, with interrupts enabled

  /** Threads made ready one after the other, as interrupt handlers do. */
  function ForceAll(c: Sched, ws: seq<Tid>): Sched {
    if ws == [] then c else Unblock(ForceAll(c, ws[..|ws| - 1]), ws[|ws| - 1])
  }

  /**
   An interrupt at point `point` of sos_sched_set_ready hits the window of list_add_tail. On a list that is not empty
   the points are after the test (1) and after each of the four writes of the links (2 to 5); on an empty list, after
   the test (1), after the links of the new element (2, 3) and after the head (4). Point 0 is before the test. Next
   comes the increment of nr_threads, with one more point between its load and its store.
   */
  predicate InWindow(ready: seq<Tid>, point: nat) { if ready == [] then 1 <= point <= 3 else 2 <= point <= 4 }

  /**
   The interrupt comes between the load and the store of nr_threads, if the compiler makes two instructions of them.
   */
  predicate InCount(ready: seq<Tid>, point: nat) { point == if ready == [] then 5 else 6 }

  /** The interrupt comes before the window. */
  predicate BeforeWindow(ready: seq<Tid>, point: nat) { if ready == [] then point == 0 else point <= 1 }

  /** The queue that the `next` links make when handlers add `ws` in the window; `ThreadRace.RacedChain` derives it. */
  function RacedQueue(ready: seq<Tid>, t: Tid, point: nat, ws: seq<Tid>): seq<Tid> {
    if ready != [] && point <= 3 then ready + ws else ready + [t]
  }

  /** sos_sched_set_ready of thread `t`, interrupted at `point` by handlers that make the blocked threads `ws` ready. */
  function SetReadyRaced(c: Sched, t: Tid, point: nat, ws: seq<Tid>): Sched {
    if ws == [] then SetReady(c, t)
    else if BeforeWindow(c.ready, point) then SetReady(ForceAll(c, ws), t)
    else if InCount(c.ready, point) then ForceAll(SetReady(c, t), ws).(nrThreads := c.nrThreads + 1)
    else if !InWindow(c.ready, point) then ForceAll(SetReady(c, t), ws)
    else ForceAll(SetReady(c, t), ws).(ready := RacedQueue(c.ready, t, point, ws))
  }

  /** The last part of sos_create_kernel_thread may still be to come for `t`; handlers make blocked threads ready. */
  predicate MayEnqueue(k: Sys, t: Tid, ws: seq<Tid>) {
    && t in k.sched.state && t in k.resume && k.resume[t] == AtStart
    && (k.sched.state[t] == Created || (k.sched.state[t] == Ready && ws == []))
    && NoDup(ws) && t !in ws && (forall u :: u in ws ==> u in k.sched.state && k.sched.state[u] == Blocked)
  }

  datatype Step =
    | Yield
    | Sleep(timeout: Option<nat>)
    | Wait(id: nat, timeout: Option<nat>)
    | WakeupPlain(id: nat, n: nat, status: Ret)
    | Down(s: Sema, timeout: Option<nat>)
    | TryDown(s: Sema)
    | Up(s: Sema)
    | Lock(m: Mutex, timeout: Option<nat>)
    | TryLock(m: Mutex)
    | Unlock(m: Mutex)
    | Exit
    | Create(t: Tid)
    | Enqueue(t: Tid, point: nat, inside: seq<Tid>)
    | Tick
    | ForceUnblock(t: Tid)

  /** The step hands the CPU over. */
  predicate Switches(k: Sys, step: Step) {
    match step
    case Yield => true
    case Sleep(_) => true
    case Wait(_, _) => true
    case Exit => true
    case Down(s, _) => s in k.sync.value && k.sync.value[s] - 1 < 0
    case Lock(m, _) => m in k.sync.owner && k.sync.owner[m].Some? && k.sync.owner[m] != Some(k.sched.current)
    case _ => false
  }

  /** The object the step is about exists. */
  predicate Exists(k: Sys, step: Step) {
    match step
    case Wait(id, _) => Plain(id) in k.wait.queues
    case WakeupPlain(id, _, _) => Plain(id) in k.wait.queues
    case Down(s, _) => IsSema(k, s)
    case TryDown(s) => IsSema(k, s)
    case Up(s) => IsSema(k, s)
    case Lock(m, _) => IsMutex(k, m)
    case TryLock(m) => IsMutex(k, m)
    case Unlock(m) => IsMutex(k, m)
    case Create(t) => t !in k.sched.state
    case Enqueue(t, _, inside) => MayEnqueue(k, t, inside)
    case _ => true
  }

  /** The step can be taken: another thread is ready if the running one gives up the CPU. */
  predicate Enabled(k: Sys, step: Step) {
    Exists(k, step) && (Switches(k, step) && !step.Yield? ==> k.sched.ready != [])
  }

  function Do(k: Sys, step: Step): Sys
    requires Enabled(k, step)
  {
    match step
    case Yield => Switch(LeaveReady(k))
    case Sleep(timeout) => Switch(LeaveBlocked(k, AtSleep(timeout.Some?), timeout))
    case Wait(id, timeout) => Switch(LeaveWaiting(k, Plain(id), timeout))
    case WakeupPlain(id, n, status) => Wakeup(k, Plain(id), n, status)
    case Down(s, timeout) => DoDown(k, s, timeout)
    case TryDown(s) => DoTryDown(k, s)
    case Up(s) => DoUp(k, s)
    case Lock(m, timeout) => DoLock(k, m, timeout)
    case TryLock(m) => DoTryLock(k, m)
    case Unlock(m) => DoUnlock(k, m)
    case Exit => Switch(LeaveForGood(k))
    case Create(t) => DoCreate(k, t)
    case Enqueue(t, point, inside) => k.(sched := SetReadyRaced(k.sched, t, point, inside))
    case Tick => FireDue(k.(clock := k.clock.(now := k.clock.now + k.clock.tick)))
    case ForceUnblock(t) => k.(sched := Unblock(k.sched, t))
  }

  /**
   The idle thread gives up the CPU by yielding only; calls that do not block are free to it, and to handlers over it.
   */
  predicate IdleObeys(k: Sys, step: Step) { k.sched.current == k.sched.idle && Switches(k, step) ==> step.Yield? }

  /** A thread named as the owner of a mutex unlocks it only while it really holds it. */
  predicate UnlocksOwn(k: Sys, step: Step) {
    step.Unlock? && step.m in k.sync.owner && k.sync.owner[step.m] == Some(k.sched.current) ==>
      step.m in k.sync.held && k.sched.current in k.sync.held[step.m]
  }

  /**
   No interrupt handler makes a thread ready within the window of the enqueue that ends sos_create_kernel_thread. That
   part runs with interrupts as the caller had them: a caller that disables them, as os/kernel.c does, makes sure of it.
   */
  predicate NotRaced(k: Sys, step: Step) {
    step.Enqueue? ==>
      step.inside == [] || (!InWindow(k.sched.ready, step.point) && !InCount(k.sched.ready, step.point))
  }

  // ---------------------------------------------------------------- invariants

  /** Only the threads of `run` have the CPU; the ready queue is exactly the ready threads, once each. */
  ghost predicate SchedOk(c: Sched, run: set<Tid>) {
    && run <= {c.current}
    && (forall t :: t in c.state && c.state[t] == Running <==> t in run)
    && NoDup(c.ready) && c.nrThreads == |c.ready|
    && (forall t :: t in c.ready <==> t in c.state && c.state[t] == Ready)
  }

  /** The idle thread exists and is always running or ready. */
  predicate IdleOk(c: Sched) { c.idle in c.state && (c.state[c.idle] == Ready || c.state[c.idle] == Running) }

  /**
   Thread `t` is blocked only inside a sleep or a wait that nothing has ended yet, and new only before it ever ran.
   */
  predicate ThreadOk(k: Sys, act: set<Tid>, t: Tid)
    requires t in k.sched.state && t in k.resume
  {
    && (k.resume[t] == Active <==> t in act)
    && (k.sched.state[t] == Zombie <==> k.resume[t] == Finished)
    && (k.sched.state[t] == Created ==> k.resume[t] == AtStart)
    && (k.sched.state[t] == Blocked ==>
          (k.resume[t].AtSleep? || k.resume[t].AtWait?) && t !in k.wait.woken && t !in k.clock.expired)
  }

  ghost predicate ThreadsOk(k: Sys, act: set<Tid>) {
    && k.resume.Keys == k.sched.state.Keys
    && (forall t :: t in k.sched.state ==> ThreadOk(k, act, t))
  }

  /** Thread `t` is in a wait on `q` and nobody took its entry off. */
  predicate Waits(w: Waiting, resume: map<Tid, Resume>, t: Tid, q: Queue) {
    t in resume && resume[t].AtWait? && resume[t].q == q && t !in w.woken
  }

  /** Each wait queue holds exactly the threads that wait on it, once each. */
  ghost predicate QueuesOk(w: Waiting, resume: map<Tid, Resume>) {
    && (forall q :: q in w.queues ==> NoDup(w.queues[q]))
    && (forall q, t :: q in w.queues ==> (t in w.queues[q] <==> Waits(w, resume, t, q)))
    && (forall t :: t in w.woken ==> t in resume && resume[t].AtWait? && (resume[t].q.Plain? || w.woken[t] == OK))
    && (forall t :: t in resume && resume[t].AtWait? ==> resume[t].q in w.queues)
  }

  ghost predicate SortedActions(l: seq<Action>) {
    forall i, j :: 0 <= i < j < |l| ==> l[i].due <= l[j].due && l[i].thread != l[j].thread
  }

  predicate HasAction(l: seq<Action>, t: Tid) { exists a :: a in l && a.thread == t }

  /** Every thread in a timed sleep or wait that has not expired has one action, and there are no others. */
  ghost predicate TimeoutsOk(c: Clock, resume: map<Tid, Resume>) {
    && SortedActions(c.actions)
    && (forall t :: HasAction(c.actions, t) <==> t in resume && Timed(resume[t]) && t !in c.expired)
    && (forall a :: a in c.actions ==> a.thread in c.due && c.due[a.thread] == a.due)
    && (forall t :: t in c.expired ==>
      t in resume && Timed(resume[t]) && t in c.due && c.due[t] <= c.now && t in c.left && c.left[t] == 0)
    && 0 <= c.tick
  }

  /** No action is late. */
  predicate NotLate(c: Clock) { forall a :: a in c.actions ==> c.now <= a.due }

  /** The wait queue is as long as the value is negative, and nothing is granted that was not provided. */
  ghost predicate SemaOk(y: Sync, queues: map<Queue, seq<Tid>>, s: Sema)
    requires s in y.value
  {
    && OfSema(s) in queues && s in y.grants && s in y.ups && s in y.initial
    && |queues[OfSema(s)]| == Max0(-y.value[s])
    && Max0(y.value[s]) + |y.grants[s]| == y.initial[s] + y.ups[s]
  }

  ghost predicate SemasOk(y: Sync, queues: map<Queue, seq<Tid>>) { forall s :: s in y.value ==> SemaOk(y, queues, s) }

  /** Thread `t` was woken up to be the next holder of mutex `m`. */
  predicate WokenFor(w: Waiting, resume: map<Tid, Resume>, m: Mutex, t: Tid) {
    t in w.woken && t in resume && resume[t].AtWait? && resume[t].q == OfMutex(m)
  }

  /** Thread `t` has mutex `m`, or was woken up to be its next holder. */
  predicate Holds(y: Sync, w: Waiting, resume: map<Tid, Resume>, m: Mutex, t: Tid) {
    (m in y.held && t in y.held[m]) || WokenFor(w, resume, m, t)
  }

  /** Thread `t` is inside a lock of mutex `m`. */
  predicate WaitsFor(resume: map<Tid, Resume>, m: Mutex, t: Tid) {
    t in resume && resume[t].AtWait? && resume[t].q == OfMutex(m)
  }

  /**
   At most one holder, who is not inside a lock of it; the owner field is empty exactly when there is none; a waiter
   implies a holder.
   */
  ghost predicate MutexOk(y: Sync, w: Waiting, resume: map<Tid, Resume>, m: Mutex)
    requires m in y.owner
  {
    && OfMutex(m) in w.queues && m in y.held
    && (forall t, u :: Holds(y, w, resume, m, t) && Holds(y, w, resume, m, u) ==> t == u)
    && (y.owner[m].None? <==> forall t :: !Holds(y, w, resume, m, t))
    && (y.owner[m].None? ==> w.queues[OfMutex(m)] == [])
    && (forall t :: t in y.held[m] ==> y.owner[m] == Some(t) && !WaitsFor(resume, m, t))
  }

  ghost predicate MutexesOk(y: Sync, w: Waiting, resume: map<Tid, Resume>) {
    forall m :: m in y.owner ==> MutexOk(y, w, resume, m)
  }

  /** `run` are the threads that have the CPU, `act` those that are not inside a call. */
  ghost predicate Core(k: Sys, run: set<Tid>, act: set<Tid>) {
    && SchedOk(k.sched, run) && IdleOk(k.sched) && ThreadsOk(k, act) && QueuesOk(k.wait, k.resume)
    && TimeoutsOk(k.clock, k.resume) && NotLate(k.clock) && SemasOk(k.sync, k.wait.queues)
      && MutexesOk(k.sync, k.wait, k.resume)
  }

  /** The state between two steps. */
  ghost predicate Inv(k: Sys) { Core(k, {k.sched.current}, {k.sched.current}) }
}
