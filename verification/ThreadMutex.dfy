/**
 When sos_kmutex_unlock is safe. During a hand-over the owner field still names the thread that released the mutex,
 so that thread may release it a second time, and then two threads hold it.
 */
module ThreadMutex {
  import opened ThreadState
  import opened ThreadProofs
  import opened ThreadTheorems

  /** While the owner field names a thread that does not hold the mutex, another one was woken up to take it over. */
  lemma HandOverPending(k: Sys, m: Mutex) returns (u: Tid)
    requires Inv(k) && IsMutex(k, m) && k.sync.owner[m] == Some(k.sched.current) && k.sched.current !in k.sync.held[m]
    ensures WokenFor(k.wait, k.resume, m, u)
  {
    assert MutexOk(k.sync, k.wait, k.resume, m);
    hide Inv;
    u :| Holds(k.sync, k.wait, k.resume, m, u);
  }

  lemma TwoHold(y: Sync, w: Waiting, resume: map<Tid, Resume>, m: Mutex, u: Tid, v: Tid)
    requires m in y.owner && Holds(y, w, resume, m, u) && ((Holds(y, w, resume, m, v) && u != v) || y.owner[m].None?)
    ensures !MutexesOk(y, w, resume)
  {
    assert !MutexOk(y, w, resume, m) by { hide Holds; }
  }

  /** The second unlock wakes up another waiter, or marks the mutex free, while `u` is on its way. */
  lemma StaleUnlock(k: Sys, m: Mutex, u: Tid)
    requires IsMutex(k, m) && QueuesOk(k.wait, k.resume) && k.sync.owner[m] == Some(k.sched.current)
    requires WokenFor(k.wait, k.resume, m, u)
    ensures var k' := DoUnlock(k, m); !MutexesOk(k'.sync, k'.wait, k'.resume)
  {
    var k', l := DoUnlock(k, m), k.wait.queues[OfMutex(m)];
    if l == [] {
      TwoHold(k'.sync, k'.wait, k'.resume, m, u, u);
    } else {
      assert Waits(k.wait, k.resume, l[0], OfMutex(m));
      HandOverShape(k, m);
      hide DoUnlock, Wakeup, SetReady, QueuesOk;
      TwoHold(k'.sync, k'.wait, k'.resume, m, u, l[0]);
    }
  }

  lemma StaleUnlockBreaks(k: Sys, m: Mutex)
    requires Inv(k) && IsMutex(k, m) && k.sync.owner[m] == Some(k.sched.current) && k.sched.current !in k.sync.held[m]
    ensures !Inv(DoUnlock(k, m))
  {
    assert QueuesOk(k.wait, k.resume);
    var u := HandOverPending(k, m);
    hide DoUnlock, SchedOk, ThreadsOk, QueuesOk, TimeoutsOk, SemasOk, MutexesOk;
    StaleUnlock(k, m, u);
  }

  lemma UnlockIs(k: Sys, m: Mutex)
    requires Enabled(k, Unlock(m))
    ensures Do(k, Unlock(m)) == DoUnlock(k, m)
  {}

  /**
   An unlock keeps the machine in order if and only if the caller really holds the mutex whenever the owner field
   names it. (The field alone does not tell: it is left as it is during a hand-over.)
   */
  lemma UnlockExactly(k: Sys, m: Mutex)
    requires Inv(k) && IsMutex(k, m)
    ensures Inv(Do(k, Unlock(m))) <==> (k.sync.owner[m] == Some(k.sched.current) ==> k.sched.current in k.sync.held[m])
  {
    UnlockIs(k, m);
    if k.sync.owner[m] == Some(k.sched.current) && k.sched.current !in k.sync.held[m] {
      hide Inv, Do, DoUnlock;
      StaleUnlockBreaks(k, m);
    } else {
      hide Inv, Do, DoUnlock;
      UnlockKeeps(k, m);
    }
  }

  /** A snapshot of what matters in the example below: mutex 0, used by threads 0 and 2, while thread 1 is idle. */
  predicate Shot(k: Sys, current: Tid, ready: seq<Tid>, owner: Option<Tid>, held: set<Tid>, queue: seq<Tid>,
      woken: bool) {
    && k.sched.current == current && k.sched.ready == ready && k.sched.idle == 1
    && 0 in k.sync.owner && k.sync.owner[0] == owner && 0 in k.sync.held && k.sync.held[0] == held
    && OfMutex(0) in k.wait.queues && k.wait.queues[OfMutex(0)] == queue && (2 in k.wait.woken <==> woken)
    && (woken ==> k.wait.woken[2] == OK)
    && (0 in k.resume && (current == 0 || k.resume[0] == AtYield || k.resume[0] == AtStart))
    && (1 in k.resume && (current == 1 || k.resume[1] == AtYield || k.resume[1] == AtStart))
  }

  /** Thread 2 exists, and is in the given place and state. */
  predicate Second(k: Sys, r: Resume, s: Run) {
    2 in k.resume && k.resume[2] == r && 2 in k.sched.state && k.sched.state[2] == s
  }

  function Steps(): (s: seq<Step>)
    ensures |s| == 11
  {
    [Lock(0, None), Create(2), Enqueue(2, 0, []), Yield, Yield, Lock(0, None), Unlock(0), Unlock(0), Lock(0, None),
      Yield, Yield]
  }

  predicate Takes(k: Sys, step: Step) { Exists(k, step) && IdleObeys(k, step) && Enabled(k, step) }

  lemma Yields(k: Sys, next: Tid, rest: seq<Tid>, owner: Option<Tid>, held: set<Tid>, queue: seq<Tid>, woken: bool)
    requires k.sched.current != next && k.sched.ready == [next] + rest && At(k.resume, next) in {AtStart, AtYield}
    requires Shot(k, k.sched.current, k.sched.ready, owner, held, queue, woken)
    ensures Takes(k, Yield) && Shot(Do(k, Yield), next, rest + [k.sched.current], owner, held, queue, woken)
    ensures forall r, s :: k.sched.current != 2 && next != 2 && Second(k, r, s) ==> Second(Do(k, Yield), r, s)
  {
    assert k.sched.ready + [k.sched.current] == [next] + (rest + [k.sched.current]);
  }

  lemma Starts()
    ensures Shot(Start(0, 1, 10, map[], {0}, {}), 0, [1], None, {}, [], false)
    ensures 2 !in Start(0, 1, 10, map[], {0}, {}).sched.state
  {}

  lemma Locks(k: Sys, ready: seq<Tid>, woken: bool)
    requires Shot(k, 0, ready, None, {}, [], woken)
    ensures Takes(k, Lock(0, None)) && Shot(Do(k, Lock(0, None)), 0, ready, Some(0), {0}, [], woken)
    ensures Do(k, Lock(0, None)).sched == k.sched && Do(k, Lock(0, None)).resume == k.resume
  {}

  lemma Creates(k: Sys)
    requires Shot(k, 0, [1], Some(0), {0}, [], false) && 2 !in k.sched.state
    ensures Takes(k, Create(2)) && Shot(Do(k, Create(2)), 0, [1], Some(0), {0}, [], false)
    ensures Second(Do(k, Create(2)), AtStart, Created)
  {}

  lemma Enqueues(k: Sys)
    requires Shot(k, 0, [1], Some(0), {0}, [], false) && Second(k, AtStart, Created)
    ensures var k' := Do(k, Enqueue(2, 0, []));
      Takes(k, Enqueue(2, 0, [])) && Shot(k', 0, [1, 2], Some(0), {0}, [], false) && Second(k', AtStart, Ready)
  {
    assert [1] + [2] == [1, 2];
  }

  lemma ShotAt(k: Sys, current: Tid, ready: seq<Tid>, owner: Option<Tid>, held: set<Tid>, queue: seq<Tid>, woken: bool)
    requires Shot(k, current, ready, owner, held, queue, woken)
    ensures k.sched.current == current && k.sched.ready == ready
    ensures current != 1 ==> At(k.resume, 1) in {AtStart, AtYield}
  {}

  lemma SecondAt(k: Sys, r: Resume, s: Run)
    requires Second(k, r, s)
    ensures At(k.resume, 2) == r
  {}

  lemma FirstHalf() returns (ks: seq<Sys>)
    ensures |ks| == 7 && ks[0] == Start(0, 1, 10, map[], {0}, {})
    ensures forall i :: 0 <= i < 6 ==> Takes(ks[i], Steps()[i]) && ks[i + 1] == Do(ks[i], Steps()[i])
    ensures Shot(ks[6], 0, [1], Some(0), {0}, [2], false) && Second(ks[6], AtWait(OfMutex(0), false), Blocked)
  {
    hide Do, Start, Shot, Second, Exists, IdleObeys, Enabled;
    var k0 := Start(0, 1, 10, map[], {0}, {});
    Starts();
    Locks(k0, [1], false);
    var k1 := Do(k0, Lock(0, None));
    Creates(k1);
    var kc := Do(k1, Create(2));
    Enqueues(kc);
    var k2 := Do(kc, Enqueue(2, 0, []));
    ShotAt(k2, 0, [1, 2], Some(0), {0}, [], false);
    Yields(k2, 1, [2], Some(0), {0}, [], false);
    var k3 := Do(k2, Yield);
    assert [2] + [0] == [2, 0];
    ShotAt(k3, 1, [2, 0], Some(0), {0}, [], false);
    SecondAt(k3, AtStart, Ready);
    Yields(k3, 2, [0], Some(0), {0}, [], false);
    var k4 := Do(k3, Yield);
    assert [0] + [1] == [0, 1];
    Blocks0(k4);
    ks := [k0, k1, kc, k2, k3, k4, Do(k4, Lock(0, None))];
  }

  /** Thread 2 waits for the mutex that thread 0 holds. */
  lemma Blocks0(k: Sys)
    requires Shot(k, 2, [0, 1], Some(0), {0}, [], false)
    ensures Takes(k, Lock(0, None)) && Shot(Do(k, Lock(0, None)), 0, [1], Some(0), {0}, [2], false)
    ensures Second(Do(k, Lock(0, None)), AtWait(OfMutex(0), false), Blocked)
  {}

  lemma SecondHalf(k5: Sys) returns (ks: seq<Sys>)
    requires Shot(k5, 0, [1], Some(0), {0}, [2], false) && Second(k5, AtWait(OfMutex(0), false), Blocked)
    ensures |ks| == 6 && ks[0] == k5
    ensures forall i :: 0 <= i < 5 ==> Takes(ks[i], Steps()[i + 6]) && ks[i + 1] == Do(ks[i], Steps()[i + 6])
    ensures 0 in ks[5].sync.held && ks[5].sync.held[0] == {0, 2}
  {
    hide Do, Shot, Second, Exists, IdleObeys, Enabled;
    var r := AtWait(OfMutex(0), false);
    HandsOver(k5);
    var k6 := Do(k5, Unlock(0));
    UnlocksAgain(k6);
    var k7 := Do(k6, Unlock(0));
    Locks(k7, [1, 2], true);
    var k8 := Do(k7, Lock(0, None));
    SecondSame(k7, k8, r, Ready);
    ShotAt(k8, 0, [1, 2], Some(0), {0}, [], true);
    Yields(k8, 1, [2], Some(0), {0}, [], true);
    var k9 := Do(k8, Yield);
    assert [2] + [0] == [2, 0];
    TakesOver(k9);
    ks := [k5, k6, k7, k8, k9, Do(k9, Yield)];
  }

  lemma SecondSame(k: Sys, k': Sys, r: Resume, s: Run)
    requires Second(k, r, s) && k'.sched == k.sched && k'.resume == k.resume
    ensures Second(k', r, s)
  {}

  /** The second unlock by the old owner. */
  lemma UnlocksAgain(k: Sys)
    requires Shot(k, 0, [1, 2], Some(0), {}, [], true)
    ensures Takes(k, Unlock(0)) && Shot(Do(k, Unlock(0)), 0, [1, 2], None, {}, [], true)
    ensures Do(k, Unlock(0)).sched == k.sched && Do(k, Unlock(0)).resume == k.resume
    ensures forall r, s :: Second(k, r, s) ==> Second(Do(k, Unlock(0)), r, s)
  {}

  lemma HandsOver(k: Sys)
    requires Shot(k, 0, [1], Some(0), {0}, [2], false) && Second(k, AtWait(OfMutex(0), false), Blocked)
    ensures Takes(k, Unlock(0)) && Shot(Do(k, Unlock(0)), 0, [1, 2], Some(0), {}, [], true)
    ensures Second(Do(k, Unlock(0)), AtWait(OfMutex(0), false), Ready)
  {
    assert [2][1..] == [];
    HandOverShape(k, 0);
    hide Wakeup;
  }

  lemma TakesOver(k: Sys)
    requires Shot(k, 1, [2, 0], Some(0), {0}, [], true) && Second(k, AtWait(OfMutex(0), false), Ready)
    ensures Takes(k, Yield) && 0 in Do(k, Yield).sync.held && Do(k, Yield).sync.held[0] == {0, 2}
  {
    assert ([2, 0] + [1])[0] == 2;
  }

  /**
   The failing case: thread 0 locks, thread 2 waits, thread 0 unlocks twice (the second unlock finds itself still
   named as the owner, and the queue empty) and locks again; then both threads hold the mutex.
   */
  lemma TwoHolders() returns (ks: seq<Sys>)
    ensures |ks| == 12 && ks[0] == Start(0, 1, 10, map[], {0}, {})
    ensures forall i :: 0 <= i < 11 ==> Takes(ks[i], Steps()[i]) && ks[i + 1] == Do(ks[i], Steps()[i])
    ensures 0 in ks[11].sync.held && ks[11].sync.held[0] == {0, 2}
  {
    hide Do, Exists, IdleObeys, Enabled, Start, Shot, Second, Steps;
    var a := FirstHalf();
    var b := SecondHalf(a[6]);
    ks := a + b[1..];
    forall i | 0 <= i < 11 ensures Takes(ks[i], Steps()[i]) && ks[i + 1] == Do(ks[i], Steps()[i]) {
      if i >= 6 { assert ks[i] == b[i - 6] && ks[i + 1] == b[i - 5]; }
        else { assert ks[i] == a[i] && ks[i + 1] == a[i + 1]; }
    }
  }
}
