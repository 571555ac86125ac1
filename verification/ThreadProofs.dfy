/**
 Every step keeps the invariants of `ThreadState`. One lemma per piece of a step and per part of the invariant.
 */
module ThreadProofs {
  import opened ThreadState

  // ---------------------------------------------------------------- lists

  lemma {:induction false} WithoutFacts(l: seq<Tid>, t: Tid)
    requires NoDup(l)
    ensures NoDup(Without(l, t)) && (forall u :: u in Without(l, t) <==> u in l && u != t)
    ensures |Without(l, t)| == if t in l then |l| - 1 else |l|
  {
    if l != [] {
      var r := l[1..];
      assert l == [l[0]] + r;
      assert NoDup(r) && l[0] !in r;
      WithoutFacts(r, t);
    }
  }

  lemma {:induction false} WithoutActionFacts(l: seq<Action>, t: Tid)
    requires SortedActions(l)
    ensures SortedActions(WithoutAction(l, t))
    ensures forall a :: a in WithoutAction(l, t) <==> a in l && a.thread != t
  {
    if l != [] {
      var r := l[1..];
      assert l == [l[0]] + r;
      assert SortedActions(r);
      assert forall a :: a in r ==> l[0].due <= a.due && l[0].thread != a.thread;
      WithoutActionFacts(r, t);
      var w := WithoutAction(r, t);
      if l[0].thread != t {
        assert forall j :: 0 <= j < |w| ==> w[j] in w;
      }
    }
  }

  lemma {:induction false} InsertMembers(l: seq<Action>, a: Action)
    ensures forall b :: b in InsertAction(l, a) <==> b in l || b == a
  {
    if l == [] || a.due < l[0].due {
    } else {
      var r := l[1..];
      InsertMembers(r, a);
      assert forall b :: b in l <==> b == l[0] || b in r;
      var w := InsertAction(r, a);
      assert InsertAction(l, a) == [l[0]] + w;
      hide InsertAction;
    }
  }

  /** A sorted list stays sorted with an earlier action in front. */
  lemma SortedCons(h: Action, w: seq<Action>)
    requires SortedActions(w) && forall b :: b in w ==> h.due <= b.due && h.thread != b.thread
    ensures SortedActions([h] + w)
  {
    var l := [h] + w;
    forall i, j | 0 <= i < j < |l| ensures l[i].due <= l[j].due && l[i].thread != l[j].thread {
      assert l[j] == w[j - 1] && w[j - 1] in w;
    }
  }

  lemma SortedTail(l: seq<Action>)
    requires SortedActions(l) && l != []
    ensures SortedActions(l[1..]) && forall b :: b in l[1..] ==> l[0].due <= b.due && l[0].thread != b.thread
  {
    forall b | b in l[1..] ensures l[0].due <= b.due && l[0].thread != b.thread {
      var j :| 0 <= j < |l[1..]| && l[1..][j] == b;
      assert l[j + 1] == b;
    }
  }

  lemma {:induction false} InsertActionFacts(l: seq<Action>, a: Action)
    requires SortedActions(l) && !HasAction(l, a.thread)
    ensures SortedActions(InsertAction(l, a))
    ensures forall b :: b in InsertAction(l, a) <==> b in l || b == a
  {
    InsertMembers(l, a);
    if l == [] {
    } else {
      var r, h := l[1..], l[0];
      SortedTail(l);
      assert l == [h] + r && h in l;
      assert forall b :: b in l ==> b.thread != a.thread;
      hide SortedActions;
      if a.due < h.due {
        assert InsertAction(l, a) == [a] + l;
        SortedCons(a, l);
      } else {
        assert InsertAction(l, a) == [h] + InsertAction(r, a);
        hide InsertAction;
        InsertActionFacts(r, a);
        SortedCons(h, InsertAction(r, a));
      }
    }
  }

  // ---------------------------------------------------------------- getting the CPU

  lemma DispatchSched(c: Sched)
    requires SchedOk(c, {}) && c.ready != [] && IdleOk(c)
    ensures SchedOk(Dispatch(c), {c.ready[0]}) && IdleOk(Dispatch(c))
  {
    var t := c.ready[0];
    assert c.ready == [t] + c.ready[1..] && t in c.ready && t !in c.ready[1..];
  }

  lemma DispatchThreads(k: Sys)
    requires SchedOk(k.sched, {}) && ThreadsOk(k, {}) && k.sched.ready != []
    ensures ThreadsOk(k.(sched := Dispatch(k.sched)), {})
  {
    var k' := k.(sched := Dispatch(k.sched));
    var t := k.sched.ready[0];
    assert t in k.sched.ready;
    hide SchedOk, NoDup;
    forall u | u in k'.sched.state ensures ThreadOk(k', {}, u) { assert ThreadOk(k, {}, u); }
  }

  lemma DispatchKeeps(k: Sys)
    requires Core(k, {}, {}) && k.sched.ready != []
    ensures Core(k.(sched := Dispatch(k.sched)), {k.sched.ready[0]}, {})
  {
    DispatchSched(k.sched);
    DispatchThreads(k);
    hide *;
    hide SchedOk, IdleOk, ThreadsOk, QueuesOk, TimeoutsOk, NotLate, SemasOk, MutexesOk;
  }

  // ---------------------------------------------------------------- finishing the interrupted call

  lemma FinishThreads(k: Sys, t: Tid)
    requires SchedOk(k.sched, {t}) && ThreadsOk(k, {}) && t in k.resume
    ensures ThreadsOk(Finish(k, t), {t})
  {
    var k' := Finish(k, t);
    assert t in k.sched.state && k.sched.state[t] == Running;
    assert forall u :: u in k'.wait.woken ==> u in k.wait.woken;
    assert forall u :: u in k'.clock.expired ==> u in k.clock.expired;
    hide SchedOk;
    forall u | u in k'.sched.state ensures ThreadOk(k', {t}, u) { assert ThreadOk(k, {}, u); }
  }

  lemma FinishQueues(w: Waiting, resume: map<Tid, Resume>, t: Tid)
    requires QueuesOk(w, resume) && t in resume
    ensures QueuesOk(FinishWait(w, t, resume[t]), resume[t := Active])
  {
    var r, w' := resume[t], FinishWait(w, t, resume[t]);
    if r.AtWait? { WithoutFacts(w.queues[r.q], t); }
    hide Without;
    forall q, u | q in w'.queues ensures u in w'.queues[q] <==> Waits(w', resume[t := Active], u, q) {
      assert u in w.queues[q] <==> Waits(w, resume, u, q);
    }
    forall u | u in w'.woken ensures u != t && u in w.woken && w'.woken[u] == w.woken[u] {}
    hide NoDup, Waits, FinishWait;
  }

  lemma FinishTimeouts(c: Clock, resume: map<Tid, Resume>, t: Tid)
    requires TimeoutsOk(c, resume) && NotLate(c) && t in resume
    ensures TimeoutsOk(FinishClock(c, t, resume[t]), resume[t := Active]) && NotLate(FinishClock(c, t, resume[t]))
  {
    var r, c', resume' := resume[t], FinishClock(c, t, resume[t]), resume[t := Active];
    WithoutActionFacts(c.actions, t);
    hide WithoutAction, SortedActions;
    forall u ensures HasAction(c'.actions, u) <==> u in resume' && Timed(resume'[u]) && u !in c'.expired {
      assert HasAction(c.actions, u) <==> u in resume && Timed(resume[u]) && u !in c.expired;
      if HasAction(c.actions, u) && u != t {
        var a :| a in c.actions && a.thread == u;
        assert a in c'.actions;
      }
    }
    hide HasAction;
  }

  /** A waiter nobody woke up leaves the queue of its semaphore, and the value is put back. */
  lemma FinishSemas(y: Sync, w: Waiting, resume: map<Tid, Resume>, t: Tid)
    requires SemasOk(y, w.queues) && QueuesOk(w, resume) && t in resume
    ensures SemasOk(FinishSync(y, w, t, resume[t]), FinishWait(w, t, resume[t]).queues)
  {
    var r := resume[t];
    var y', w' := FinishSync(y, w, t, r), FinishWait(w, t, r);
    if r.AtWait? {
      WithoutFacts(w.queues[r.q], t);
      assert t in w.queues[r.q] <==> Waits(w, resume, t, r.q);
    }
    hide Without, QueuesOk;
    forall s | s in y'.value ensures SemaOk(y', w'.queues, s) { assert SemaOk(y, w.queues, s); }
  }

  /** A mutex stays in order as long as the same threads hold it and its owner field agrees. */
  lemma SameHolders(y: Sync, w: Waiting, resume: map<Tid, Resume>, y': Sync, w': Waiting, resume': map<Tid, Resume>,
      m: Mutex)
    requires m in y.owner && MutexOk(y, w, resume, m)
    requires m in y'.owner && m in y'.held && OfMutex(m) in w'.queues
    requires forall u :: Holds(y', w', resume', m, u) <==> Holds(y, w, resume, m, u)
    requires y'.owner[m].None? <==> y.owner[m].None?
    requires y'.owner[m].None? ==> w'.queues[OfMutex(m)] == []
    requires forall u :: u in y'.held[m] ==> y'.owner[m] == Some(u) && !WaitsFor(resume', m, u)
    ensures MutexOk(y', w', resume', m)
  {
    forall u, v | Holds(y', w', resume', m, u) && Holds(y', w', resume', m, v) ensures u == v {
      assert Holds(y, w, resume, m, u) && Holds(y, w, resume, m, v);
    }
    if forall u :: !Holds(y', w', resume', m, u) {
      assert forall u :: !Holds(y, w, resume, m, u);
    }
    hide Holds;
  }

  lemma FinishHolds(y: Sync, w: Waiting, resume: map<Tid, Resume>, t: Tid, m: Mutex, u: Tid)
    requires QueuesOk(w, resume) && t in resume && MutexesOk(y, w, resume) && m in y.owner
    ensures Holds(FinishSync(y, w, t, resume[t]), FinishWait(w, t, resume[t]), resume[t := Active], m, u)
      <==> Holds(y, w, resume, m, u)
  {
    assert MutexOk(y, w, resume, m);
  }

  /** The next holder puts its name in the owner field, which was not empty. */
  lemma FinishOwner(y: Sync, w: Waiting, resume: map<Tid, Resume>, t: Tid, m: Mutex)
    requires QueuesOk(w, resume) && t in resume && m in y.owner && MutexOk(y, w, resume, m)
    ensures var y', w' := FinishSync(y, w, t, resume[t]), FinishWait(w, t, resume[t]);
      && m in y'.owner && m in y'.held && OfMutex(m) in w'.queues
      && (y'.owner[m].None? <==> y.owner[m].None?)
      && (y'.owner[m].None? ==> w'.queues[OfMutex(m)] == [])
      && (forall u :: u in y'.held[m] ==> y'.owner[m] == Some(u) && !WaitsFor(resume[t := Active], m, u))
  {
    var r := resume[t];
    if r.AtWait? { WithoutFacts(w.queues[r.q], t); }
    if r.AtWait? && r.q == OfMutex(m) && t in w.woken {
      assert Holds(y, w, resume, m, t);
      assert forall u :: u in y.held[m] ==> Holds(y, w, resume, m, u);
    }
    hide Holds, Without, NoDup;
  }

  lemma FinishMutexes(y: Sync, w: Waiting, resume: map<Tid, Resume>, t: Tid)
    requires MutexesOk(y, w, resume) && QueuesOk(w, resume) && t in resume
    ensures MutexesOk(FinishSync(y, w, t, resume[t]), FinishWait(w, t, resume[t]), resume[t := Active])
  {
    var r := resume[t];
    var y', w' := FinishSync(y, w, t, r), FinishWait(w, t, r);
    forall m | m in y'.owner ensures MutexOk(y', w', resume[t := Active], m) {
      assert m in y.owner;
      assert MutexOk(y, w, resume, m);
      forall u
        ensures Holds(y', w', resume[t := Active], m, u) <==> Holds(y, w, resume, m, u)
      {
        FinishHolds(y, w, resume, t, m, u);
      }
      FinishOwner(y, w, resume, t, m);
      SameHolders(y, w, resume, y', w', resume[t := Active], m);
    }
  }

  lemma FinishKeeps(k: Sys, t: Tid)
    requires Core(k, {t}, {})
    ensures Core(Finish(k, t), {t}, {t})
  {
    assert t in k.resume by { assert t in k.sched.state; }
    FinishThreads(k, t);
    FinishQueues(k.wait, k.resume, t);
    FinishTimeouts(k.clock, k.resume, t);
    FinishSemas(k.sync, k.wait, k.resume, t);
    FinishMutexes(k.sync, k.wait, k.resume, t);
    hide SchedOk, IdleOk, ThreadsOk, QueuesOk, TimeoutsOk, NotLate, SemasOk, MutexesOk, FinishSync, FinishClock,
      FinishWait, FinishResult;
  }

  lemma SwitchKeeps(k: Sys)
    requires Core(k, {}, {}) && k.sched.ready != []
    ensures Inv(Switch(k)) && Switch(k).sched.current == k.sched.ready[0]
  {
    DispatchKeeps(k);
    var t, d := k.sched.ready[0], k.(sched := Dispatch(k.sched));
    FinishKeeps(d, t);
    hide Core;
  }

  // ---------------------------------------------------------------- giving up the CPU

  /** The running thread stops being active without joining a queue. */
  lemma LeaveQueues(w: Waiting, resume: map<Tid, Resume>, t: Tid, r: Resume)
    requires QueuesOk(w, resume) && t in resume && !resume[t].AtWait? && !r.AtWait?
    ensures QueuesOk(w, resume[t := r])
  {
    forall q, u ensures Waits(w, resume[t := r], u, q) <==> Waits(w, resume, u, q) {}
    hide Waits, NoDup;
  }

  lemma JoinQueues(w: Waiting, resume: map<Tid, Resume>, t: Tid, q: Queue, timed: bool)
    requires QueuesOk(w, resume) && t in resume && !resume[t].AtWait? && q in w.queues
    ensures QueuesOk(w.(queues := w.queues[q := w.queues[q] + [t]]), resume[t := AtWait(q, timed)])
  {
    var r := AtWait(q, timed);
    var w' := w.(queues := w.queues[q := w.queues[q] + [t]]);
    assert t !in w.woken && forall p :: p in w.queues ==> (t in w.queues[p] <==> Waits(w, resume, t, p));
    forall p, u | p in w'.queues ensures u in w'.queues[p] <==> Waits(w', resume[t := r], u, p) {
      assert u in w.queues[p] <==> Waits(w, resume, u, p);
    }
    hide Waits;
  }

  lemma LeaveTimeouts(c: Clock, resume: map<Tid, Resume>, t: Tid, r: Resume, timeout: Option<nat>)
    requires TimeoutsOk(c, resume) && NotLate(c) && t in resume && !Timed(resume[t]) && (Timed(r) <==> timeout.Some?)
    ensures TimeoutsOk(Register(c, t, timeout), resume[t := r]) && NotLate(Register(c, t, timeout))
  {
    var c', resume' := Register(c, t, timeout), resume[t := r];
    if timeout.Some? {
      assert !HasAction(c.actions, t);
      var a := Action(t, c.now + timeout.value);
      InsertActionFacts(c.actions, a);
      assert a in c'.actions;
      hide InsertAction, SortedActions;
      forall u ensures HasAction(c'.actions, u) <==> u in resume' && Timed(resume'[u]) && u !in c'.expired {
        assert HasAction(c.actions, u) <==> u in resume && Timed(resume[u]) && u !in c.expired;
        if HasAction(c.actions, u) {
          var b :| b in c.actions && b.thread == u;
          assert b in c'.actions;
        }
      }
      forall b | b in c.actions ensures b.thread != t { assert HasAction(c.actions, b.thread); }
      hide HasAction, Timed;
    } else {
      hide HasAction, SortedActions;
    }
  }

  lemma LeaveMutexes(y: Sync, w: Waiting, resume: map<Tid, Resume>, t: Tid, r: Resume)
    requires MutexesOk(y, w, resume) && t in resume && !resume[t].AtWait? && !r.AtWait?
    ensures MutexesOk(y, w, resume[t := r])
  {
    forall m, u ensures Holds(y, w, resume[t := r], m, u) <==> Holds(y, w, resume, m, u) {}
    forall m | m in y.owner ensures MutexOk(y, w, resume[t := r], m) {
      assert MutexOk(y, w, resume, m);
      SameHolders(y, w, resume, y, w, resume[t := r], m);
    }
  }

  lemma JoinMutexes(y: Sync, w: Waiting, resume: map<Tid, Resume>, t: Tid, q: Queue, timed: bool)
    requires MutexesOk(y, w, resume) && t in resume && !resume[t].AtWait? && q in w.queues && t !in w.woken
    requires q.OfMutex? && q.m in y.owner ==> y.owner[q.m].Some? && y.owner[q.m] != Some(t)
    ensures MutexesOk(y, w.(queues := w.queues[q := w.queues[q] + [t]]), resume[t := AtWait(q, timed)])
  {
    var w', resume' := w.(queues := w.queues[q := w.queues[q] + [t]]), resume[t := AtWait(q, timed)];
    forall m, u ensures Holds(y, w', resume', m, u) <==> Holds(y, w, resume, m, u) {}
    forall m | m in y.owner ensures MutexOk(y, w', resume', m) {
      assert MutexOk(y, w, resume, m);
      SameHolders(y, w, resume, y, w', resume', m);
    }
  }

  lemma LeaveThreads(k: Sys, k': Sys, t: Tid)
    requires ThreadsOk(k, {t}) && SchedOk(k.sched, {t}) && QueuesOk(k.wait, k.resume) && TimeoutsOk(k.clock, k.resume)
    requires t in k'.sched.state && k'.sched.state == k.sched.state[t := k'.sched.state[t]] && t in k'.resume
    requires k'.resume == k.resume[t := k'.resume[t]]
    requires k'.wait.woken == k.wait.woken && k'.clock.expired == k.clock.expired
    requires k'.resume[t] != Active && k'.sched.state[t] != Created
    requires (k'.sched.state[t] == Zombie <==> k'.resume[t] == Finished)
    requires k'.sched.state[t] == Blocked ==> k'.resume[t].AtSleep? || k'.resume[t].AtWait?
    ensures ThreadsOk(k', {})
  {
    assert t in k.sched.state;
    assert ThreadOk(k, {t}, t);
    assert t !in k.wait.woken && t !in k.clock.expired;
    hide SchedOk, QueuesOk, TimeoutsOk;
    forall u | u in k'.sched.state ensures ThreadOk(k', {}, u) { assert ThreadOk(k, {t}, u); }
  }

  lemma LeaveSched(c: Sched, t: Tid, s: Run)
    requires SchedOk(c, {t}) && s != Ready && s != Running
    ensures SchedOk(c.(state := c.state[t := s]), {})
  {}

  lemma LeaveReadySched(c: Sched)
    requires SchedOk(c, {c.current}) && IdleOk(c)
    ensures var c' :=
      c.(state := c.state[c.current := Ready], ready := c.ready + [c.current], nrThreads := c.nrThreads + 1);
      SchedOk(c', {}) && IdleOk(c')
  {}

  lemma LeaveReadyKeeps(k: Sys)
    requires Inv(k)
    ensures Core(LeaveReady(k), {}, {}) && LeaveReady(k).sched.ready != []
  {
    var t, k' := k.sched.current, LeaveReady(k);
    assert t in k.resume && k.resume[t] == Active by { assert t in k.sched.state; assert ThreadOk(k, {t}, t); }
    LeaveReadySched(k.sched);
    LeaveThreads(k, k', t);
    LeaveQueues(k.wait, k.resume, t, AtYield);
    LeaveTimeouts(k.clock, k.resume, t, AtYield, None);
    LeaveMutexes(k.sync, k.wait, k.resume, t, AtYield);
    hide SchedOk, ThreadsOk, QueuesOk, TimeoutsOk, NotLate, SemasOk, MutexesOk;
  }

  /** Any thread but the idle one may block. */
  lemma LeaveBlockedKeeps(k: Sys, timeout: Option<nat>)
    requires Inv(k) && k.sched.current != k.sched.idle
    ensures Core(LeaveBlocked(k, AtSleep(timeout.Some?), timeout), {}, {})
  {
    var t, r := k.sched.current, AtSleep(timeout.Some?);
    var k' := LeaveBlocked(k, r, timeout);
    assert t in k.resume && k.resume[t] == Active by { assert t in k.sched.state; assert ThreadOk(k, {t}, t); }
    LeaveSched(k.sched, t, Blocked);
    LeaveThreads(k, k', t);
    LeaveQueues(k.wait, k.resume, t, r);
    LeaveTimeouts(k.clock, k.resume, t, r, timeout);
    LeaveMutexes(k.sync, k.wait, k.resume, t, r);
    hide SchedOk, ThreadsOk, QueuesOk, TimeoutsOk, NotLate, SemasOk, MutexesOk, Register;
  }

  lemma LeaveForGoodKeeps(k: Sys)
    requires Inv(k) && k.sched.current != k.sched.idle
    ensures Core(LeaveForGood(k), {}, {})
  {
    var t, k' := k.sched.current, LeaveForGood(k);
    assert t in k.resume && k.resume[t] == Active by { assert t in k.sched.state; assert ThreadOk(k, {t}, t); }
    LeaveSched(k.sched, t, Zombie);
    LeaveThreads(k, k', t);
    LeaveQueues(k.wait, k.resume, t, Finished);
    LeaveTimeouts(k.clock, k.resume, t, Finished, None);
    LeaveMutexes(k.sync, k.wait, k.resume, t, Finished);
    hide SchedOk, ThreadsOk, QueuesOk, TimeoutsOk, NotLate, SemasOk, MutexesOk;
  }

  /** The semaphores once `q` has one more waiter, `y` being the fields of semaphores and mutexes at that point. */
  ghost predicate JoinOk(k: Sys, y: Sync, q: Queue)
    requires q in k.wait.queues
  {
    && y.owner == k.sync.owner && y.held == k.sync.held
    && (q.OfMutex? && q.m in y.owner ==> y.owner[q.m].Some? && y.owner[q.m] != Some(k.sched.current))
    && SemasOk(y, k.wait.queues[q := k.wait.queues[q] + [k.sched.current]])
  }

  lemma SameFields(y: Sync, y': Sync, w: Waiting, resume: map<Tid, Resume>)
    requires MutexesOk(y, w, resume) && y'.owner == y.owner && y'.held == y.held
    ensures MutexesOk(y', w, resume)
  {
    forall m, u ensures Holds(y', w, resume, m, u) <==> Holds(y, w, resume, m, u) {}
    forall m | m in y'.owner ensures MutexOk(y', w, resume, m) {
      assert MutexOk(y, w, resume, m);
      SameHolders(y, w, resume, y', w, resume, m);
    }
  }

  lemma LeaveWaitingKeeps(k: Sys, y: Sync, q: Queue, timeout: Option<nat>)
    requires Inv(k) && k.sched.current != k.sched.idle && q in k.wait.queues && JoinOk(k, y, q)
    ensures Core(LeaveWaiting(k.(sync := y), q, timeout), {}, {})
  {
    var t, r := k.sched.current, AtWait(q, timeout.Some?);
    var k' := LeaveWaiting(k.(sync := y), q, timeout);
    assert t in k.resume && k.resume[t] == Active by { assert t in k.sched.state; assert ThreadOk(k, {t}, t); }
    assert t !in k.wait.woken;
    LeaveSched(k.sched, t, Blocked);
    LeaveThreads(k, k', t);
    JoinQueues(k.wait, k.resume, t, q, timeout.Some?);
    LeaveTimeouts(k.clock, k.resume, t, r, timeout);
    SameFields(k.sync, y, k.wait, k.resume);
    JoinMutexes(y, k.wait, k.resume, t, q, timeout.Some?);
    hide SchedOk, ThreadsOk, QueuesOk, TimeoutsOk, NotLate, SemasOk, MutexesOk, Register;
  }

  // ---------------------------------------------------------------- waking up

  lemma SetReadySched(c: Sched, t: Tid)
    requires SchedOk(c, {c.current}) && IdleOk(c) && t != c.current
    ensures SchedOk(SetReady(c, t), {c.current}) && IdleOk(SetReady(c, t))
  {
    if t in c.state && c.state[t] == Ready {
    } else {
      assert t !in c.ready;
    }
  }

  /** Some part of the state makes thread `t` ready: only its own state may change. */
  lemma ReadyThreads(k: Sys, k': Sys, t: Tid)
    requires ThreadsOk(k, {k.sched.current}) && SchedOk(k.sched, {k.sched.current})
    requires t in k.sched.state && k'.sched == SetReady(k.sched, t) && k'.resume == k.resume
    requires t != k.sched.current && k.sched.state[t] != Zombie
    requires forall u :: u != t ==>
      (u in k.wait.woken <==> u in k'.wait.woken) && (u in k.clock.expired <==> u in k'.clock.expired)
    ensures ThreadsOk(k', {k.sched.current})
  {
    forall u | u in k'.sched.state
      ensures ThreadOk(k', {k.sched.current}, u)
    {
      assert ThreadOk(k, {k.sched.current}, u);
    }
  }

  /** A thread inside a wait is neither running nor dead, so the wakeup loop never finds one it must skip. */
  lemma WaitersAreAsleep(k: Sys, t: Tid)
    requires SchedOk(k.sched, {k.sched.current}) && ThreadsOk(k, {k.sched.current})
    requires t in k.resume && (k.resume[t].AtWait? || k.resume[t].AtSleep?)
    ensures t in k.sched.state && t != k.sched.current && (k.sched.state[t] == Blocked || k.sched.state[t] == Ready)
  {
    assert ThreadOk(k, {k.sched.current}, t);
  }

  lemma TakeQueues(w: Waiting, resume: map<Tid, Resume>, q: Queue, status: Ret)
    requires QueuesOk(w, resume) && q in w.queues && w.queues[q] != [] && (q.Plain? || status == OK)
    ensures QueuesOk(Waiting(w.queues[q := w.queues[q][1..]], w.woken[w.queues[q][0] := status]), resume)
  {
    var l := w.queues[q];
    var t, w' := l[0], Waiting(w.queues[q := l[1..]], w.woken[l[0] := status]);
    assert l == [t] + l[1..] && t in l && t !in l[1..];
    assert Waits(w, resume, t, q);
    forall p, u | p in w'.queues ensures u in w'.queues[p] <==> Waits(w', resume, u, p) {
      assert u in w.queues[p] <==> Waits(w, resume, u, p);
    }
    hide Waits;
  }

  /** Everything but the semaphores and the mutexes. */
  ghost predicate Base(k: Sys) {
    var t := k.sched.current;
    && SchedOk(k.sched, {t}) && IdleOk(k.sched) && ThreadsOk(k, {t}) && QueuesOk(k.wait, k.resume)
    && TimeoutsOk(k.clock, k.resume) && NotLate(k.clock)
  }

  lemma TakeWaiterKeeps(k: Sys, q: Queue, status: Ret)
    requires Base(k) && q in k.wait.queues && k.wait.queues[q] != [] && (q.Plain? || status == OK)
    ensures Base(TakeWaiter(k, q, status)) && TakeWaiter(k, q, status).sched.current == k.sched.current
  {
    var t, k' := k.wait.queues[q][0], TakeWaiter(k, q, status);
    assert Waits(k.wait, k.resume, t, q);
    WaitersAreAsleep(k, t);
    SetReadySched(k.sched, t);
    ReadyThreads(k, k', t);
    TakeQueues(k.wait, k.resume, q, status);
    hide SchedOk, ThreadsOk, QueuesOk, TimeoutsOk, NotLate, IdleOk;
  }

  /** A wakeup on a queue that is not a mutex's leaves the mutexes alone. */
  lemma TakeMutexes(y: Sync, w: Waiting, resume: map<Tid, Resume>, q: Queue, status: Ret)
    requires MutexesOk(y, w, resume) && QueuesOk(w, resume) && q in w.queues && w.queues[q] != [] && !q.OfMutex?
    ensures MutexesOk(y, Waiting(w.queues[q := w.queues[q][1..]], w.woken[w.queues[q][0] := status]), resume)
  {
    var t, w' := w.queues[q][0], Waiting(w.queues[q := w.queues[q][1..]], w.woken[w.queues[q][0] := status]);
    assert Waits(w, resume, t, q);
    forall m, u ensures Holds(y, w', resume, m, u) <==> Holds(y, w, resume, m, u) {}
    forall m | m in y.owner ensures MutexOk(y, w', resume, m) {
      assert MutexOk(y, w, resume, m);
      SameHolders(y, w, resume, y, w', resume, m);
    }
  }

  lemma SplitInv(k: Sys)
    ensures Inv(k) <==> Base(k) && SemasOk(k.sync, k.wait.queues) && MutexesOk(k.sync, k.wait, k.resume)
  {
    hide SchedOk, ThreadsOk, QueuesOk, TimeoutsOk, NotLate, IdleOk, SemasOk, MutexesOk;
  }

  lemma TakePlainKeeps(k: Sys, q: Queue, status: Ret)
    requires Inv(k) && q in k.wait.queues && k.wait.queues[q] != [] && q.Plain?
    ensures Inv(TakeWaiter(k, q, status))
  {
    var k' := TakeWaiter(k, q, status);
    SplitInv(k);
    TakeWaiterKeeps(k, q, status);
    TakeMutexes(k.sync, k.wait, k.resume, q, status);
    assert SemasOk(k'.sync, k'.wait.queues) by {
      forall s | s in k'.sync.value
        ensures SemaOk(k'.sync, k'.wait.queues, s)
      {
        assert SemaOk(k.sync, k.wait.queues, s);
      }
    }
    SplitInv(k');
    hide Inv, Base, SemasOk, MutexesOk, QueuesOk;
  }

  lemma {:induction false} WakeupPlainKeeps(k: Sys, id: nat, n: nat, status: Ret)
    requires Inv(k)
    ensures Inv(Wakeup(k, Plain(id), n, status))
    decreases n
  {
    hide Inv, TakeWaiter;
    var q := Plain(id);
    if n == 0 || q !in k.wait.queues || k.wait.queues[q] == [] {
    } else {
      TakePlainKeeps(k, q, status);
      WakeupPlainKeeps(TakeWaiter(k, q, status), id, n - 1, status);
    }
  }

  // ---------------------------------------------------------------- timer ticks

  lemma FireTimeouts(c: Clock, resume: map<Tid, Resume>)
    requires TimeoutsOk(c, resume) && c.actions != [] && c.actions[0].due <= c.now
    ensures TimeoutsOk(c.(actions := c.actions[1..], expired := c.expired + {c.actions[0].thread},
      left := c.left[c.actions[0].thread := 0]), resume)
  {
    var a := c.actions[0];
    var c' := c.(actions := c.actions[1..], expired := c.expired + {a.thread}, left := c.left[a.thread := 0]);
    assert c.actions == [a] + c'.actions && a in c.actions;
    assert HasAction(c.actions, a.thread);
    forall u ensures HasAction(c'.actions, u) <==> HasAction(c.actions, u) && u != a.thread {
      if HasAction(c.actions, u) && u != a.thread {
        var b :| b in c.actions && b.thread == u;
        assert b in c'.actions;
      }
    }
    assert SortedActions(c'.actions);
    hide HasAction, Timed, SortedActions;
  }

  /** A timeout makes a thread ready that is asleep, or finds it ready already: sleep_timeout never fails. */
  lemma FireHeadKeeps(k: Sys)
    requires SchedOk(k.sched, {k.sched.current}) && IdleOk(k.sched) && ThreadsOk(k, {k.sched.current})
    requires TimeoutsOk(k.clock, k.resume)
    requires k.clock.actions != [] && k.clock.actions[0].due <= k.clock.now
    ensures var k' := FireHead(k);
      SchedOk(k'.sched, {k.sched.current}) && IdleOk(k'.sched) && ThreadsOk(k', {k.sched.current})
        && TimeoutsOk(k'.clock, k'.resume)
    ensures FireHead(k).sched.current == k.sched.current
  {
    var t, k' := k.clock.actions[0].thread, FireHead(k);
    assert k.clock.actions[0] in k.clock.actions;
    assert HasAction(k.clock.actions, t);
    assert t in k.resume && Timed(k.resume[t]);
    WaitersAreAsleep(k, t);
    SetReadySched(k.sched, t);
    ReadyThreads(k, k', t);
    FireTimeouts(k.clock, k.resume);
  }

  lemma {:induction false} FireDueKeeps(k: Sys)
    requires SchedOk(k.sched, {k.sched.current}) && IdleOk(k.sched) && ThreadsOk(k, {k.sched.current})
    requires TimeoutsOk(k.clock, k.resume)
    ensures var k' := FireDue(k);
      && SchedOk(k'.sched, {k.sched.current}) && IdleOk(k'.sched) && ThreadsOk(k', {k.sched.current})
      && TimeoutsOk(k'.clock, k'.resume) && NotLate(k'.clock)
      && k'.sched.current == k.sched.current && k'.resume == k.resume && k'.wait == k.wait && k'.sync == k.sync
    decreases |k.clock.actions|
  {
    if k.clock.actions == [] {
    } else if k.clock.now < k.clock.actions[0].due {
      assert SortedActions(k.clock.actions);
      forall a | a in k.clock.actions ensures k.clock.now <= a.due {
        var i :| 0 <= i < |k.clock.actions| && k.clock.actions[i] == a;
        assert i == 0 || k.clock.actions[0].due <= k.clock.actions[i].due;
      }
    } else {
      FireHeadKeeps(k);
      hide SchedOk, IdleOk, ThreadsOk, TimeoutsOk, NotLate, Unblock;
      FireDueKeeps(FireHead(k));
    }
  }

  lemma TickKeeps(k: Sys)
    requires Inv(k)
    ensures Inv(FireDue(k.(clock := k.clock.(now := k.clock.now + k.clock.tick))))
  {
    var b := k.(clock := k.clock.(now := k.clock.now + k.clock.tick));
    assert TimeoutsOk(b.clock, b.resume) by { hide Timed, SortedActions, HasAction; }
    assert ThreadsOk(b, {b.sched.current}) by {
      forall u | u in b.sched.state
        ensures ThreadOk(b, {b.sched.current}, u)
      {
        assert ThreadOk(k, {k.sched.current}, u);
      }
    }
    hide SchedOk, IdleOk, ThreadsOk, TimeoutsOk, NotLate, SemasOk, MutexesOk, QueuesOk, FireDue;
    FireDueKeeps(b);
  }

  // ---------------------------------------------------------------- semaphores

  lemma UpSemas(y: Sync, queues: map<Queue, seq<Tid>>, s: Sema)
    requires SemasOk(y, queues) && s in y.value
    ensures OfSema(s) in queues && s in y.ups && s in y.grants
    ensures var y' := y.(value := y.value[s := y.value[s] + 1], ups := y.ups[s := y.ups[s] + 1]);
      var l := queues[OfSema(s)];
      if l == [] then SemasOk(y', queues) else SemasOk(Grant(y', s, l[0]), queues[OfSema(s) := l[1..]])
  {
    assert SemaOk(y, queues, s);
    var y0 := y.(value := y.value[s := y.value[s] + 1], ups := y.ups[s := y.ups[s] + 1]);
    var l := queues[OfSema(s)];
    var y' := if l == [] then y0 else Grant(y0, s, l[0]);
    var queues' := if l == [] then queues else queues[OfSema(s) := l[1..]];
    forall p | p in y'.value ensures SemaOk(y', queues', p) { assert SemaOk(y, queues, p); }
  }

  /** The fields of semaphores and mutexes while an up is under way. */
  function UpSync(k: Sys, s: Sema): Sync
    requires IsSema(k, s)
  {
    var l := k.wait.queues[OfSema(s)];
    var y := k.sync.(value := k.sync.value[s := k.sync.value[s] + 1], ups := k.sync.ups[s := k.sync.ups[s] + 1]);
    if l == [] then y else Grant(y, s, l[0])
  }

  lemma UpShape(k: Sys, s: Sema)
    requires IsSema(k, s)
    ensures var b, q := k.(sync := UpSync(k, s)), OfSema(s);
      DoUp(k, s) == if k.wait.queues[q] == [] then b else TakeWaiter(b, q, OK)
  {
    var b, q := k.(sync := UpSync(k, s)), OfSema(s);
    assert DoUp(k, s) == Wakeup(b, q, 1, OK);
    if k.wait.queues[q] != [] { assert Wakeup(TakeWaiter(b, q, OK), q, 0, OK) == TakeWaiter(b, q, OK); }
  }

  lemma UpKeeps(k: Sys, s: Sema)
    requires Inv(k) && IsSema(k, s)
    ensures Inv(DoUp(k, s))
  {
    hide Core, Base, Inv, SemasOk, MutexesOk, QueuesOk, DoUp, Wakeup, SetReady;
    var q, y, b := OfSema(s), UpSync(k, s), k.(sync := UpSync(k, s));
    SplitInv(k);
    UpShape(k, s);
    UpSemas(k.sync, k.wait.queues, s);
    SameFields(k.sync, y, k.wait, k.resume);
    BaseFrame(k, b);
    BaseQueues(b);
    if k.wait.queues[q] != [] {
      TakeWaiterKeeps(b, q, OK);
      TakeMutexes(y, k.wait, k.resume, q, OK);
    }
    SplitInv(DoUp(k, s));
  }

  lemma BaseQueues(k: Sys)
    requires Base(k)
    ensures QueuesOk(k.wait, k.resume)
  {}

  lemma BaseFrame(k: Sys, k': Sys)
    requires Base(k) && k'.sched == k.sched && k'.resume == k.resume && k'.wait == k.wait && k'.clock == k.clock
    ensures Base(k')
  {
    var t := k.sched.current;
    assert ThreadsOk(k', {t}) by {
      forall u | u in k'.sched.state ensures ThreadOk(k', {t}, u) { assert ThreadOk(k, {t}, u); }
    }
    hide SchedOk, ThreadsOk, QueuesOk, TimeoutsOk, NotLate, IdleOk;
  }

  /** A step that only changes the semaphore and mutex fields. */
  lemma SyncKeeps(k: Sys, y: Sync, r: map<Tid, Ret>)
    requires Inv(k) && SemasOk(y, k.wait.queues) && MutexesOk(y, k.wait, k.resume)
    ensures Inv(k.(sync := y, result := r))
  {
    SplitInv(k);
    BaseFrame(k, k.(sync := y, result := r));
    SplitInv(k.(sync := y, result := r));
    hide Base, Inv, SemasOk, MutexesOk;
  }

  lemma TakeSema(y: Sync, queues: map<Queue, seq<Tid>>, s: Sema, t: Tid)
    requires SemasOk(y, queues) && s in y.value && y.value[s] >= 1
    ensures s in y.grants && SemasOk(Grant(y.(value := y.value[s := y.value[s] - 1]), s, t), queues)
  {
    assert SemaOk(y, queues, s);
    var y' := Grant(y.(value := y.value[s := y.value[s] - 1]), s, t);
    forall p | p in y'.value ensures SemaOk(y', queues, p) { assert SemaOk(y, queues, p); }
  }

  lemma TryDownKeeps(k: Sys, s: Sema)
    requires Inv(k) && IsSema(k, s)
    ensures Inv(DoTryDown(k, s))
  {
    if k.sync.value[s] >= 1 {
      hide Inv;
      DownTakes(k, s);
    } else {
      SyncKeeps(k, k.sync, k.result[k.sched.current := EBUSY]);
    }
  }

  /** The value is lowered before the thread joins the queue; both changes together keep the semaphore in order. */
  lemma BlockSema(k: Sys, s: Sema)
    requires Inv(k) && IsSema(k, s) && k.sync.value[s] - 1 < 0
    ensures JoinOk(k, k.sync.(value := k.sync.value[s := k.sync.value[s] - 1]), OfSema(s))
  {
    var y := k.sync.(value := k.sync.value[s := k.sync.value[s] - 1]);
    var queues := k.wait.queues[OfSema(s) := k.wait.queues[OfSema(s)] + [k.sched.current]];
    assert SemasOk(k.sync, k.wait.queues);
    hide Core;
    forall p | p in y.value ensures SemaOk(y, queues, p) { assert SemaOk(k.sync, k.wait.queues, p); }
  }

  lemma DownTakes(k: Sys, s: Sema)
    requires Inv(k) && IsSema(k, s) && k.sync.value[s] >= 1
    ensures var y := Grant(k.sync.(value := k.sync.value[s := k.sync.value[s] - 1]), s, k.sched.current);
      Inv(k.(sync := y, result := k.result[k.sched.current := OK]))
  {
    var y := Grant(k.sync.(value := k.sync.value[s := k.sync.value[s] - 1]), s, k.sched.current);
    SplitInv(k);
    hide Core, Inv, Base, SemasOk, MutexesOk, Grant;
    TakeSema(k.sync, k.wait.queues, s, k.sched.current);
    GrantFields(k.sync, s, k.sched.current);
    SameFields(k.sync, y, k.wait, k.resume);
    SyncKeeps(k, y, k.result[k.sched.current := OK]);
  }

  lemma GrantFields(y: Sync, s: Sema, t: Tid)
    requires s in y.value && s in y.grants
    ensures var y' := Grant(y.(value := y.value[s := y.value[s] - 1]), s, t); y'.owner == y.owner && y'.held == y.held
  {}

  lemma DownKeeps(k: Sys, s: Sema, timeout: Option<nat>)
    requires Inv(k) && IsSema(k, s)
    requires k.sync.value[s] - 1 < 0 ==> k.sched.ready != [] && k.sched.current != k.sched.idle
    ensures Inv(DoDown(k, s, timeout))
  {
    hide Core, JoinOk, Inv, Switch;
    if k.sync.value[s] - 1 < 0 {
      var a := k.sync.(value := k.sync.value[s := k.sync.value[s] - 1]);
      BlockSema(k, s);
      LeaveWaitingKeeps(k, a, OfSema(s), timeout);
      SwitchKeeps(LeaveWaiting(k.(sync := a), OfSema(s), timeout));
    } else {
      DownTakes(k, s);
    }
  }

  // ---------------------------------------------------------------- mutexes

  lemma OwnMutex(y: Sync, w: Waiting, resume: map<Tid, Resume>, m: Mutex, t: Tid)
    requires MutexesOk(y, w, resume) && m in y.owner && y.owner[m].None? && !WaitsFor(resume, m, t)
    ensures m in y.held
    ensures MutexesOk(y.(owner := y.owner[m := Some(t)], held := y.held[m := y.held[m] + {t}]), w, resume)
  {
    assert MutexOk(y, w, resume, m);
    var y' := y.(owner := y.owner[m := Some(t)], held := y.held[m := y.held[m] + {t}]);
    forall u ensures Holds(y', w, resume, m, u) <==> u == t { assert !Holds(y, w, resume, m, u); }
    forall p | p in y'.owner ensures MutexOk(y', w, resume, p) {
      assert MutexOk(y, w, resume, p);
      if p != m {
        forall u ensures Holds(y', w, resume, p, u) <==> Holds(y, w, resume, p, u) {}
        SameHolders(y, w, resume, y', w, resume, p);
      } else {
        assert Holds(y', w, resume, m, t);
        hide WokenFor;
      }
    }
  }

  lemma TakeMutexKeeps(k: Sys, m: Mutex)
    requires Inv(k) && IsMutex(k, m) && k.sync.owner[m].None?
    ensures Inv(TakeMutex(k, m))
  {
    var t := k.sched.current;
    CurrentActive(k);
    OwnMutex(k.sync, k.wait, k.resume, m, t);
    var y := k.sync.(owner := k.sync.owner[m := Some(t)], held := k.sync.held[m := k.sync.held[m] + {t}]);
    assert SemasOk(y, k.wait.queues) by {
      forall s | s in y.value ensures SemaOk(y, k.wait.queues, s) { assert SemaOk(k.sync, k.wait.queues, s); }
    }
    hide Core;
    SyncKeeps(k, y, k.result[t := OK]);
  }

  lemma LockKeeps(k: Sys, m: Mutex, timeout: Option<nat>)
    requires Inv(k) && IsMutex(k, m)
    requires k.sync.owner[m].Some? && k.sync.owner[m] != Some(k.sched.current) ==>
      k.sched.ready != [] && k.sched.current != k.sched.idle
    ensures Inv(DoLock(k, m, timeout))
  {
    var t := k.sched.current;
    if k.sync.owner[m].None? {
      TakeMutexKeeps(k, m);
    } else if k.sync.owner[m] == Some(t) {
      SyncKeeps(k, k.sync, k.result[t := EBUSY]);
    } else {
      assert JoinOk(k, k.sync, OfMutex(m)) by {
        var queues := k.wait.queues[OfMutex(m) := k.wait.queues[OfMutex(m)] + [t]];
        forall s | s in k.sync.value ensures SemaOk(k.sync, queues, s) { assert SemaOk(k.sync, k.wait.queues, s); }
      }
      LeaveWaitingKeeps(k, k.sync, OfMutex(m), timeout);
      hide Core, JoinOk, Inv;
      assert k.(sync := k.sync) == k;
      SwitchKeeps(LeaveWaiting(k, OfMutex(m), timeout));
    }
  }

  lemma TryLockKeeps(k: Sys, m: Mutex)
    requires Inv(k) && IsMutex(k, m)
    ensures Inv(DoTryLock(k, m))
  {
    if k.sync.owner[m].None? { TakeMutexKeeps(k, m); }
      else { SyncKeeps(k, k.sync, k.result[k.sched.current := EBUSY]); }
  }

  /** The holder releases a mutex nobody waits for. */
  lemma FreeMutex(y: Sync, w: Waiting, resume: map<Tid, Resume>, m: Mutex, t: Tid)
    requires MutexesOk(y, w, resume) && m in y.owner && m in y.held && t in y.held[m]
    requires t in resume && !resume[t].AtWait?
    requires OfMutex(m) in w.queues && w.queues[OfMutex(m)] == []
    ensures MutexesOk(y.(owner := y.owner[m := None], held := y.held[m := y.held[m] - {t}]), w, resume)
  {
    assert MutexOk(y, w, resume, m);
    assert Holds(y, w, resume, m, t);
    var y' := y.(owner := y.owner[m := None], held := y.held[m := y.held[m] - {t}]);
    assert forall u :: Holds(y', w, resume, m, u) ==> Holds(y, w, resume, m, u) && u != t;
    forall p | p in y'.owner ensures MutexOk(y', w, resume, p) {
      assert MutexOk(y, w, resume, p);
      if p != m {
        forall u ensures Holds(y', w, resume, p, u) <==> Holds(y, w, resume, p, u) {}
        SameHolders(y, w, resume, y', w, resume, p);
      } else {
        assert forall u :: u in y'.held[m] ==> Holds(y', w, resume, m, u);
        hide Holds;
      }
    }
  }

  /** The holder hands a mutex over to the first waiter. */
  lemma HandOver(y: Sync, w: Waiting, resume: map<Tid, Resume>, m: Mutex, t: Tid)
    requires MutexesOk(y, w, resume) && QueuesOk(w, resume) && m in y.owner && m in y.held && t in y.held[m]
    requires t in resume && !resume[t].AtWait?
    requires OfMutex(m) in w.queues && w.queues[OfMutex(m)] != []
    ensures var l := w.queues[OfMutex(m)];
      MutexesOk(y.(held := y.held[m := y.held[m] - {t}]), Waiting(w.queues[OfMutex(m) := l[1..]], w.woken[l[0] := OK]),
        resume)
  {
    var l := w.queues[OfMutex(m)];
    var u, y', w' := l[0], y.(held := y.held[m := y.held[m] - {t}]),
      Waiting(w.queues[OfMutex(m) := l[1..]], w.woken[l[0] := OK]);
    assert MutexOk(y, w, resume, m);
    assert Holds(y, w, resume, m, t);
    assert u in l && Waits(w, resume, u, OfMutex(m));
    assert forall v :: v != u && Holds(y', w', resume, m, v) ==> Holds(y, w, resume, m, v) && v != t;
    assert forall v :: v in y'.held[m] ==> Holds(y, w, resume, m, v) && v != t;
    forall p | p in y'.owner ensures MutexOk(y', w', resume, p) {
      assert MutexOk(y, w, resume, p);
      if p != m {
        forall v ensures Holds(y', w', resume, p, v) <==> Holds(y, w, resume, p, v) {}
        SameHolders(y, w, resume, y', w', resume, p);
      } else {
        assert Holds(y', w', resume, m, u);
        assert y'.held[m] == {};
        hide Holds;
      }
    }
  }

  lemma UnlockKeeps(k: Sys, m: Mutex)
    requires Inv(k) && IsMutex(k, m) && UnlocksOwn(k, Unlock(m))
    ensures Inv(DoUnlock(k, m))
  {
    var t, q := k.sched.current, OfMutex(m);
    if k.sync.owner[m] != Some(t) {
      SyncKeeps(k, k.sync, k.result[t := EPERM]);
    } else {
      assert t in k.resume && k.resume[t] == Active by { assert t in k.sched.state; assert ThreadOk(k, {t}, t); }
      var y := k.sync.(held := k.sync.held[m := k.sync.held[m] - {t}]);
      if k.wait.queues[q] == [] {
        FreeMutex(k.sync, k.wait, k.resume, m, t);
        var y' := y.(owner := y.owner[m := None]);
        assert y' == k.sync.(owner := k.sync.owner[m := None], held := k.sync.held[m := k.sync.held[m] - {t}]);
        SemasFrame(k.sync, k.wait.queues, y', k.wait.queues);
        hide Core;
        SyncKeeps(k, y', k.result[t := OK]);
      } else {
        HandOverKeeps(k, m);
      }
    }
  }

  lemma SemasFrame(y: Sync, queues: map<Queue, seq<Tid>>, y': Sync, queues': map<Queue, seq<Tid>>)
    requires SemasOk(y, queues) && y'.value == y.value && y'.grants == y.grants && y'.ups == y.ups
    requires y'.initial == y.initial
    requires forall s :: OfSema(s) in queues ==> OfSema(s) in queues' && queues'[OfSema(s)] == queues[OfSema(s)]
    ensures SemasOk(y', queues')
  {
    forall s | s in y'.value ensures SemaOk(y', queues', s) { assert SemaOk(y, queues, s); }
  }

  lemma HandOverBase(k: Sys, b: Sys, q: Queue)
    requires Base(k) && b.sched == k.sched && b.resume == k.resume && b.wait == k.wait && b.clock == k.clock
    requires q in k.wait.queues && k.wait.queues[q] != []
    ensures Base(TakeWaiter(b, q, OK)) && QueuesOk(k.wait, k.resume)
  {
    BaseFrame(k, b);
    TakeWaiterKeeps(b, q, OK);
  }

  /** A hand-over is one wakeup, after the holder's name left the history of holders. */
  lemma HandOverShape(k: Sys, m: Mutex)
    requires IsMutex(k, m) && k.sync.owner[m] == Some(k.sched.current) && k.wait.queues[OfMutex(m)] != []
    ensures DoUnlock(k, m) == TakeWaiter(Return(k.(sync := Released(k.sync, m, k.sched.current)), OK), OfMutex(m), OK)
  {
    var b := Return(k.(sync := Released(k.sync, m, k.sched.current)), OK);
    assert DoUnlock(k, m) == Wakeup(b, OfMutex(m), 1, OK);
    assert Wakeup(TakeWaiter(b, OfMutex(m), OK), OfMutex(m), 0, OK) == TakeWaiter(b, OfMutex(m), OK);
  }

  function Released(y: Sync, m: Mutex, t: Tid): Sync
    requires m in y.held
  {
    y.(held := y.held[m := y.held[m] - {t}])
  }

  /** The running thread is inside no call. */
  lemma CurrentActive(k: Sys)
    requires Inv(k)
    ensures k.sched.current in k.resume && k.resume[k.sched.current] == Active
  {
    assert k.sched.current in k.sched.state;
    assert ThreadOk(k, {k.sched.current}, k.sched.current);
  }

  lemma HandOverKeeps(k: Sys, m: Mutex)
    requires Inv(k) && IsMutex(k, m) && k.sync.owner[m] == Some(k.sched.current) && k.wait.queues[OfMutex(m)] != []
    requires k.sched.current in k.sync.held[m]
    ensures Inv(DoUnlock(k, m))
  {
    hide Core, Base, Inv, SemasOk, MutexesOk, QueuesOk, DoUnlock, Wakeup, SetReady;
    var t, q, y := k.sched.current, OfMutex(m), Released(k.sync, m, k.sched.current);
    CurrentActive(k);
    SplitInv(k);
    HandOverBase(k, Return(k.(sync := y), OK), q);
    HandOver(k.sync, k.wait, k.resume, m, t);
    SemasFrame(k.sync, k.wait.queues, y, k.wait.queues[q := k.wait.queues[q][1..]]);
    HandOverShape(k, m);
    SplitInv(DoUnlock(k, m));
  }

  // ---------------------------------------------------------------- all steps

  /** A thread nobody waits for, and with no timeout. */
  lemma NewThreads(k: Sys, t: Tid)
    requires ThreadsOk(k, {k.sched.current}) && SchedOk(k.sched, {k.sched.current}) && t !in k.sched.state
    requires t !in k.wait.woken && t !in k.clock.expired
    ensures ThreadsOk(DoCreate(k, t), {k.sched.current})
  {
    var k', c := DoCreate(k, t), k.sched.current;
    forall u | u in k'.sched.state ensures ThreadOk(k', {c}, u) { if u != t { assert ThreadOk(k, {c}, u); } }
  }

  lemma NewWaits(k: Sys, resume: map<Tid, Resume>, t: Tid)
    requires QueuesOk(k.wait, k.resume) && MutexesOk(k.sync, k.wait, k.resume) && TimeoutsOk(k.clock, k.resume)
    requires t !in k.resume && resume == k.resume[t := AtStart]
    ensures QueuesOk(k.wait, resume) && MutexesOk(k.sync, k.wait, resume) && TimeoutsOk(k.clock, resume)
  {
    assert QueuesOk(k.wait, resume) by {
      forall q, u ensures Waits(k.wait, resume, u, q) <==> Waits(k.wait, k.resume, u, q) {}
      hide Waits, NoDup, MutexesOk, TimeoutsOk;
    }
    assert MutexesOk(k.sync, k.wait, resume) by {
      forall m, u ensures Holds(k.sync, k.wait, resume, m, u) <==> Holds(k.sync, k.wait, k.resume, m, u) {}
      forall m | m in k.sync.owner ensures MutexOk(k.sync, k.wait, resume, m) {
        assert MutexOk(k.sync, k.wait, k.resume, m);
        SameHolders(k.sync, k.wait, k.resume, k.sync, k.wait, resume, m);
      }
    }
    hide HasAction, SortedActions, QueuesOk, MutexesOk;
  }

  lemma CreateKeeps(k: Sys, t: Tid)
    requires Inv(k) && t !in k.sched.state
    ensures Inv(DoCreate(k, t))
  {
    assert t !in k.resume && t !in k.wait.woken && t !in k.clock.expired;
    CreateSched(k.sched, t);
    NewThreads(k, t);
    NewWaits(k, k.resume[t := AtStart], t);
    hide SchedOk, ThreadsOk, QueuesOk, TimeoutsOk, NotLate, SemasOk, MutexesOk, IdleOk;
  }

  lemma CreateSched(c: Sched, t: Tid)
    requires SchedOk(c, {c.current}) && IdleOk(c) && t !in c.state
    ensures var c' := c.(state := c.state[t := Created]); SchedOk(c', {c.current}) && IdleOk(c')
  {
    assert t !in c.ready;
  }

  /** Making a blocked or a new thread ready. */
  lemma ReadyKeeps(k: Sys, t: Tid)
    requires Inv(k) && t in k.sched.state && (k.sched.state[t] == Blocked || k.sched.state[t] == Created)
    ensures Inv(k.(sched := SetReady(k.sched, t)))
  {
    var k' := k.(sched := SetReady(k.sched, t));
    SetReadySched(k.sched, t);
    ReadyThreads(k, k', t);
    hide SchedOk, ThreadsOk, QueuesOk, TimeoutsOk, NotLate, SemasOk, MutexesOk, IdleOk;
  }

  lemma ForceUnblockKeeps(k: Sys, t: Tid)
    requires Inv(k)
    ensures Inv(k.(sched := Unblock(k.sched, t)))
  {
    hide Inv;
    if t in k.sched.state && (k.sched.state[t] == Blocked || k.sched.state[t] == Created) {
      ReadyKeeps(k, t);
    } else {
      assert k.(sched := Unblock(k.sched, t)) == k;
    }
  }

  // ---------------------------------------------------------------- enqueuing a new thread

  lemma {:induction false} ForceAllKeeps(k: Sys, ws: seq<Tid>)
    requires Inv(k)
    ensures Inv(k.(sched := ForceAll(k.sched, ws)))
    decreases |ws|
  {
    hide Inv, Unblock;
    if ws == [] {
      assert k.(sched := k.sched) == k;
    } else {
      var l := ws[..|ws| - 1];
      ForceAllKeeps(k, l);
      ForceUnblockKeeps(k.(sched := ForceAll(k.sched, l)), ws[|ws| - 1]);
    }
  }

  /** What becomes of the queue and of its count. */
  lemma {:induction false} ForceAllShape(c: Sched, ws: seq<Tid>)
    requires NoDup(ws) && forall u :: u in ws ==> u in c.state && c.state[u] == Blocked
    ensures var c' := ForceAll(c, ws);
      && c'.ready == c.ready + ws && c'.nrThreads == c.nrThreads + |ws| && c'.current == c.current
      && c'.state.Keys == c.state.Keys && forall u :: u in c.state ==> c'.state[u] == if u in ws then Ready
        else c.state[u]
    decreases |ws|
  {
    if ws == [] {
    } else {
      var l, w := ws[..|ws| - 1], ws[|ws| - 1];
      assert ws == l + [w] && w !in l && NoDup(l);
      ForceAllShape(c, l);
    }
  }

  lemma QueueCounts(k: Sys)
    requires Inv(k)
    ensures k.sched.nrThreads == |k.sched.ready|
  {
    hide ThreadsOk, QueuesOk, TimeoutsOk, SemasOk, MutexesOk;
  }

  /**
   An enqueue keeps the invariant if and only if no handler makes a thread ready within its window: otherwise a
   thread is in the count of the ready threads and not in the queue, or the other way round.
   */
  lemma EnqueueExactly(k: Sys, t: Tid, point: nat, ws: seq<Tid>)
    requires Inv(k) && MayEnqueue(k, t, ws)
    ensures Inv(Do(k, Enqueue(t, point, ws))) <==> NotRaced(k, Enqueue(t, point, ws))
  {
    hide Inv, SetReady, ForceAll;
    var c := k.sched;
    if NotRaced(k, Enqueue(t, point, ws)) {
      if ws == [] || !BeforeWindow(c.ready, point) {
        NewReady(k, t);
        if ws != [] { ForceAllKeeps(k.(sched := SetReady(c, t)), ws); }
      } else {
        ForceAllKeeps(k, ws);
        ForceAllShape(c, ws);
        NewReady(k.(sched := ForceAll(c, ws)), t);
      }
    } else {
      ReadyShape(c, t);
      ForceAllShape(SetReady(c, t), ws);
      QueueCounts(k);
      var k' := Do(k, Enqueue(t, point, ws));
      assert if InCount(c.ready, point) then k'.sched.nrThreads < |k'.sched.ready|
        else |k'.sched.ready| < k'.sched.nrThreads;
      if Inv(k') { QueueCounts(k'); }
    }
  }

  lemma ReadyShape(c: Sched, t: Tid)
    requires t in c.state && c.state[t] == Created
    ensures var c' := SetReady(c, t);
      c'.ready == c.ready + [t] && c'.nrThreads == c.nrThreads + 1 && c'.state == c.state[t := Ready]
  {}

  lemma NewReady(k: Sys, t: Tid)
    requires Inv(k) && t in k.sched.state && (k.sched.state[t] == Created || k.sched.state[t] == Ready)
    ensures Inv(k.(sched := SetReady(k.sched, t)))
  {
    hide Inv;
    if k.sched.state[t] == Created { ReadyKeeps(k, t); } else { assert k.(sched := SetReady(k.sched, t)) == k; }
  }

  lemma WaitKeeps(k: Sys, id: nat, timeout: Option<nat>)
    requires Inv(k) && Plain(id) in k.wait.queues && k.sched.current != k.sched.idle && k.sched.ready != []
    ensures Inv(Switch(LeaveWaiting(k, Plain(id), timeout)))
  {
    var q := Plain(id);
    SemasFrame(k.sync, k.wait.queues, k.sync, k.wait.queues[q := k.wait.queues[q] + [k.sched.current]]);
    LeaveWaitingKeeps(k, k.sync, q, timeout);
    assert k.(sync := k.sync) == k;
    hide Core, Inv;
    SwitchKeeps(LeaveWaiting(k, q, timeout));
  }

  /** Every step of every thread and every interrupt keeps the invariant. */
  lemma StepKeeps(k: Sys, step: Step)
    requires Inv(k) && Enabled(k, step) && IdleObeys(k, step) && UnlocksOwn(k, step) && NotRaced(k, step)
    ensures Inv(Do(k, step))
  {
    hide Core, Inv, Switch, LeaveReady, LeaveBlocked, LeaveForGood, LeaveWaiting, DoDown, DoTryDown, DoUp, DoLock,
      DoTryLock, DoUnlock, DoCreate;
    hide Wakeup, FireDue, Unblock, SetReadyRaced;
    match step {
      case Yield => LeaveReadyKeeps(k); SwitchKeeps(LeaveReady(k));
      case Sleep(timeout) =>
        LeaveBlockedKeeps(k, timeout);
        SleepReady(k, timeout);
        SwitchKeeps(LeaveBlocked(k, AtSleep(timeout.Some?), timeout));
      case Wait(id, timeout) => WaitKeeps(k, id, timeout);
      case WakeupPlain(id, n, status) => WakeupPlainKeeps(k, id, n, status);
      case Down(s, timeout) => DownKeeps(k, s, timeout);
      case TryDown(s) => TryDownKeeps(k, s);
      case Up(s) => UpKeeps(k, s);
      case Lock(m, timeout) => LockKeeps(k, m, timeout);
      case TryLock(m) => TryLockKeeps(k, m);
      case Unlock(m) => UnlockKeeps(k, m);
      case Exit => LeaveForGoodKeeps(k); ExitReady(k); SwitchKeeps(LeaveForGood(k));
      case Create(t) => CreateKeeps(k, t);
      case Enqueue(t, point, inside) => EnqueueExactly(k, t, point, inside);
      case Tick => TickKeeps(k);
      case ForceUnblock(t) => ForceUnblockKeeps(k, t);
    }
  }

  /** A step of the idle thread that hands the CPU over keeps the invariant if and only if it is a yield. */
  lemma IdleExactly(k: Sys, step: Step)
    requires Inv(k) && Enabled(k, step) && Switches(k, step) && k.sched.current == k.sched.idle
    ensures Inv(Do(k, step)) <==> step.Yield?
  {
    if step.Yield? {
      StepKeeps(k, step);
    } else {
      assert k.sched.ready[0] in k.sched.ready;
      assert k.sched.ready[0] != k.sched.idle;
      hide SchedOk, ThreadsOk, QueuesOk, TimeoutsOk, NotLate, SemasOk, MutexesOk;
      assert !IdleOk(Do(k, step).sched);
    }
  }

  lemma SleepReady(k: Sys, timeout: Option<nat>)
    ensures LeaveBlocked(k, AtSleep(timeout.Some?), timeout).sched.ready == k.sched.ready
  {}

  lemma ExitReady(k: Sys)
    ensures LeaveForGood(k).sched.ready == k.sched.ready
  {}
}
