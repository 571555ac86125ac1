/**
 Orders and counts: wait queues are FIFO, ticks fire what is due in order, grants are counted, and the one way a
 thread can break a mutex.
 */
module ThreadOrder {
  import opened ThreadState
  import opened ThreadProofs
  import opened ThreadTheorems
  import opened ThreadOutcomes

  // ---------------------------------------------------------------- timeouts

  function Threads(l: seq<Action>): seq<Tid> { if l == [] then [] else [l[0].thread] + Threads(l[1..]) }

  /** The threads of `l` that can be woken up, in order. */
  function Sleepers(state: map<Tid, Run>, l: seq<Tid>): seq<Tid> {
    if l == [] then []
    else if l[0] in state && (state[l[0]] == Blocked || state[l[0]] == Created) then [l[0]] + Sleepers(state, l[1..])
    else Sleepers(state, l[1..])
  }

  lemma {:induction false} SleepersFrame(state: map<Tid, Run>, state': map<Tid, Run>, l: seq<Tid>)
    requires forall t :: t in l ==> (t in state <==> t in state') && (t in state ==> state[t] == state'[t])
    ensures Sleepers(state, l) == Sleepers(state', l)
  {
    if l == [] {
    } else {
      assert l[0] in l && forall t :: t in l[1..] ==> t in l;
      SleepersFrame(state, state', l[1..]);
    }
  }

  lemma {:induction false} ThreadsMember(l: seq<Action>, t: Tid)
    ensures t in Threads(l) <==> HasAction(l, t)
  {
    if l == [] {
    } else {
      ThreadsMember(l[1..], t);
      if HasAction(l, t) && l[0].thread != t {
        var a :| a in l && a.thread == t;
        assert a in l[1..];
      }
      if HasAction(l[1..], t) {
        var a :| a in l[1..] && a.thread == t;
        assert a in l;
      }
      if l[0].thread == t { assert l[0] in l; }
      hide HasAction;
      assert Threads(l) == [l[0].thread] + Threads(l[1..]);
    }
  }

  /** A new action goes after all those that are due at the same date or before, and before all the others. */
  lemma {:induction false} InsertPlace(l: seq<Action>, a: Action) returns (n: nat)
    requires SortedActions(l)
    ensures n <= |l| && InsertAction(l, a) == l[..n] + [a] + l[n..]
    ensures (forall i :: 0 <= i < n ==> l[i].due <= a.due) && (forall i :: n <= i < |l| ==> a.due < l[i].due)
  {
    if l == [] || a.due < l[0].due {
      n := 0;
      assert l[..0] + [a] + l[0..] == [a] + l;
    } else {
      var r := l[1..];
      assert SortedActions(r);
      var m := InsertPlace(r, a);
      n := m + 1;
      assert l[..n] == [l[0]] + r[..m] && l[n..] == r[m..];
      forall i | n <= i < |l| ensures a.due < l[i].due { assert l[i] == r[i - 1]; }
    }
  }

  /** The dates that _add_action refuses are exactly those of which the list would have an action that is late. */
  lemma RegisterExactly(c: Clock, t: Tid, date: int)
    requires SortedActions(c.actions) && NotLate(c) && !HasAction(c.actions, t)
    ensures SortedActions(RegisterAt(c, t, date).actions) && HasAction(RegisterAt(c, t, date).actions, t)
    ensures NotLate(RegisterAt(c, t, date)) <==> c.now <= date
  {
    InsertActionFacts(c.actions, Action(t, date));
    hide InsertAction, SortedActions;
    assert Action(t, date) in RegisterAt(c, t, date).actions;
  }

  /** `fired` is what a tick at date `c.now` takes off the list of actions of `c`. */
  ghost predicate FiresExactly(c: Clock, c': Clock, fired: seq<Action>) {
    && c.actions == fired + c'.actions
    && (forall a :: a in fired ==> a.due <= c.now)
    && (forall a :: a in c'.actions ==> c.now < a.due)
    && (forall t :: t in c'.expired <==> t in c.expired || HasAction(fired, t))
  }

  lemma NoneDue(l: seq<Action>, now: int)
    requires SortedActions(l) && (l == [] || now < l[0].due)
    ensures forall a :: a in l ==> now < a.due
  {
    forall a | a in l ensures now < a.due {
      var i :| 0 <= i < |l| && l[i] == a;
      assert i == 0 || l[0].due <= l[i].due;
    }
  }

  lemma FireNone(k: Sys)
    requires SortedActions(k.clock.actions) && (k.clock.actions == [] || k.clock.now < k.clock.actions[0].due)
    ensures FireDue(k) == k && FiresExactly(k.clock, k.clock, [])
    ensures k.sched.ready == k.sched.ready + Sleepers(k.sched.state, Threads([]))
  {
    hide SortedActions, FireHead;
    NoneDue(k.clock.actions, k.clock.now);
    assert k.clock.actions == [] + k.clock.actions;
  }

  lemma FireHeadShape(k: Sys)
    requires SortedActions(k.clock.actions) && k.clock.actions != []
    ensures var t := k.clock.actions[0].thread;
      FireHead(k).clock
        == k.clock.(actions := k.clock.actions[1..], expired := k.clock.expired + {t}, left := k.clock.left[t := 0])
    ensures SortedActions(FireHead(k).clock.actions)
  {}

  lemma {:induction false} FireDueFires(k: Sys) returns (fired: seq<Action>)
    requires SortedActions(k.clock.actions)
    ensures FiresExactly(k.clock, FireDue(k).clock, fired)
    ensures FireDue(k).sched.ready == k.sched.ready + Sleepers(k.sched.state, Threads(fired))
    decreases |k.clock.actions|
  {
    hide FireDue, FireHead, Sleepers, Threads, FiresExactly, SortedActions;
    var l := k.clock.actions;
    if l == [] || k.clock.now < l[0].due {
      fired := [];
      FireNone(k);
    } else {
      var h := FireHead(k);
      FireHeadShape(k);
      var rest := FireDueFires(h);
      assert rest <= l[1..] by { FiresPrefix(h.clock, FireDue(h).clock, rest); }
      fired := [l[0]] + rest;
      FiredHead(k, rest);
      FiresCons(k.clock, h.clock, FireDue(h).clock, rest);
      FireDueOnce(k);
      ThreadsCons(l[0], rest);
    }
  }

  lemma FiresPrefix(c: Clock, c': Clock, fired: seq<Action>)
    requires FiresExactly(c, c', fired)
    ensures fired <= c.actions
  {}

  lemma ThreadsCons(a: Action, rest: seq<Action>)
    ensures Threads([a] + rest) == [a.thread] + Threads(rest)
  {
    assert ([a] + rest)[1..] == rest;
  }

  lemma FireDueOnce(k: Sys)
    requires k.clock.actions != [] && k.clock.actions[0].due <= k.clock.now
    ensures FireDue(k) == FireDue(FireHead(k))
  {}

  lemma FiresCons(c: Clock, h: Clock, c': Clock, rest: seq<Action>)
    requires c.actions != [] && c.actions[0].due <= c.now && FiresExactly(h, c', rest)
    requires h == c.(actions := c.actions[1..], expired := c.expired + {c.actions[0].thread},
      left := c.left[c.actions[0].thread := 0])
    ensures FiresExactly(c, c', [c.actions[0]] + rest)
  {
    var a := c.actions[0];
    assert c.actions == [a] + h.actions;
    forall t ensures HasAction([a] + rest, t) <==> t == a.thread || HasAction(rest, t) { HasHead(a, rest, t); }
    hide HasAction;
  }

  lemma HasHead(a: Action, rest: seq<Action>, t: Tid)
    ensures HasAction([a] + rest, t) <==> t == a.thread || HasAction(rest, t)
  {
    var l := [a] + rest;
    if t == a.thread { assert l[0] in l; }
    if HasAction(rest, t) {
      var b :| b in rest && b.thread == t;
      assert b in l;
    }
  }

  lemma FiredHead(k: Sys, rest: seq<Action>)
    requires SortedActions(k.clock.actions) && k.clock.actions != [] && rest <= k.clock.actions[1..]
    ensures var h, t := FireHead(k), k.clock.actions[0].thread;
      && h.sched.ready == k.sched.ready + Sleepers(k.sched.state, [t])
      && Sleepers(k.sched.state, [t] + Threads(rest))
        == Sleepers(k.sched.state, [t]) + Sleepers(h.sched.state, Threads(rest))
  {
    var h, l := FireHead(k), k.clock.actions;
    var t := l[0].thread;
    forall u | u in Threads(rest) ensures u != t {
      ThreadsMember(rest, u);
      var a :| a in rest && a.thread == u;
      var i :| 0 <= i < |rest| && rest[i] == a;
      assert l[i + 1] == a;
    }
    SleepersFrame(k.sched.state, h.sched.state, Threads(rest));
    assert ([t] + Threads(rest))[1..] == Threads(rest);
    hide Threads;
    assert Sleepers(k.sched.state, [t][1..]) == [];
  }

  /**
   A tick fires exactly the actions that are due, in the order of their dates and first registered first on ties,
   each once; the threads it wakes up join the ready queue in that order; later actions stay.
   */
  lemma TickFires(k: Sys) returns (fired: seq<Action>)
    requires Inv(k)
    ensures var k' := Do(k, Tick);
      && k'.clock.now == k.clock.now + k.clock.tick
      && k.clock.actions == fired + k'.clock.actions
      && (forall a :: a in fired ==> a.due <= k'.clock.now)
      && (forall a :: a in k'.clock.actions ==> k'.clock.now < a.due)
      && (forall t :: t in k'.clock.expired <==> t in k.clock.expired || HasAction(fired, t))
      && k'.sched.ready == k.sched.ready + Sleepers(k.sched.state, Threads(fired))
  {
    var b := k.(clock := k.clock.(now := k.clock.now + k.clock.tick));
    hide SchedOk, ThreadsOk, QueuesOk, SemasOk, MutexesOk, SortedActions, HasAction, Sleepers, Threads, FireDue;
    fired := FireDueFires(b);
    FireDueNow(b);
  }

  lemma {:induction false} FireDueNow(k: Sys)
    ensures FireDue(k).clock.now == k.clock.now
    decreases |k.clock.actions|
  {
    if k.clock.actions == [] || k.clock.now < k.clock.actions[0].due {
    } else {
      FireDueNow(FireHead(k));
    }
  }

  // ---------------------------------------------------------------- wait queues

  /** Thread `t` is ahead of thread `u` in `l`. */
  ghost predicate Before(l: seq<Tid>, t: Tid, u: Tid) { exists i, j :: 0 <= i < j < |l| && l[i] == t && l[j] == u }

  /** Those of `l` that are still in `l'` are in the same order. */
  ghost predicate Ordered(l: seq<Tid>, l': seq<Tid>) {
    forall t, u :: Before(l, t, u) && t in l' && u in l' ==> Before(l', t, u)
  }

  lemma OrderedTail(l: seq<Tid>)
    requires l != [] && NoDup(l)
    ensures Ordered(l, l[1..])
  {
    forall t, u | Before(l, t, u) && t in l[1..] && u in l[1..] ensures Before(l[1..], t, u) {
      var i, j :| 0 <= i < j < |l| && l[i] == t && l[j] == u;
      assert l[0] !in l[1..];
      assert l[1..][i - 1] == t && l[1..][j - 1] == u;
    }
  }

  lemma OrderedAppend(l: seq<Tid>, c: Tid)
    ensures Ordered(l, l + [c])
  {
    forall t, u | Before(l, t, u) ensures Before(l + [c], t, u) {
      var i, j :| 0 <= i < j < |l| && l[i] == t && l[j] == u;
      assert (l + [c])[i] == t && (l + [c])[j] == u;
    }
  }

  lemma {:induction false} OrderedWithout(l: seq<Tid>, c: Tid)
    requires NoDup(l)
    ensures Ordered(l, Without(l, c))
  {
    if l == [] {
    } else if l[0] == c {
      OrderedTail(l);
    } else {
      var r := l[1..];
      assert l == [l[0]] + r && NoDup(r) && l[0] !in r;
      OrderedWithout(r, c);
      WithoutFacts(r, c);
      OrderedCons(l[0], r, Without(r, c));
    }
  }

  lemma OrderedCons(h: Tid, r: seq<Tid>, w: seq<Tid>)
    requires Ordered(r, w) && h !in r && forall u :: u in w ==> u in r
    ensures Ordered([h] + r, [h] + w)
  {
    var l, l' := [h] + r, [h] + w;
    forall t, u | Before(l, t, u) && t in l' && u in l' ensures Before(l', t, u) {
      var i, j :| 0 <= i < j < |l| && l[i] == t && l[j] == u;
      assert u == r[j - 1] && u in w;
      if i == 0 {
        var x :| 0 <= x < |w| && w[x] == u;
        assert l'[0] == t && l'[x + 1] == u;
      } else {
        assert r[i - 1] == t && Before(r, t, u);
        assert Before(w, t, u);
        var x, y :| 0 <= x < y < |w| && w[x] == t && w[y] == u;
        assert l'[x + 1] == t && l'[y + 1] == u;
      }
    }
  }

  /** `w'` is `w` after a wakeup of `m` waiters of `q`. */
  ghost predicate Took(w: Waiting, w': Waiting, q: Queue, m: nat, status: Ret)
    requires q in w.queues && m <= |w.queues[q]|
  {
    var l := w.queues[q];
    && w'.queues == w.queues[q := l[m..]]
    && (forall t :: t in w'.woken <==> t in w.woken || t in l[..m])
    && (forall t :: t in w'.woken ==> w'.woken[t] == if t in l[..m] then status else w.woken[t])
  }

  lemma TookMore(w: Waiting, w': Waiting, q: Queue, m: nat, status: Ret)
    requires q in w.queues && NoDup(w.queues[q]) && m < |w.queues[q]|
    requires Took(Waiting(w.queues[q := w.queues[q][1..]], w.woken[w.queues[q][0] := status]), w', q, m, status)
    ensures Took(w, w', q, m + 1, status)
  {
    var l := w.queues[q];
    var r := l[1..];
    assert r[m..] == l[m + 1..] && l[..m + 1] == [l[0]] + r[..m];
    assert l[0] !in r;
    assert w.queues[q := r][q := r[m..]] == w.queues[q := l[m + 1..]];
  }

  /** A wakeup takes as many waiters as it is asked for, from the head of the queue, and gives each its status. */
  lemma {:induction false} WakeupTakes(k: Sys, q: Queue, n: nat, status: Ret)
    requires q in k.wait.queues && NoDup(k.wait.queues[q])
    ensures var l := k.wait.queues[q];
      Took(k.wait, Wakeup(k, q, n, status).wait, q, if n <= |l| then n else |l|, status)
    decreases n
  {
    hide Wakeup, Took, TakeWaiter;
    var l := k.wait.queues[q];
    if n == 0 || l == [] {
      TookNone(k, q, n, status);
    } else {
      var b := TakeWaiter(k, q, status);
      TakeShape(k, q, status);
      assert NoDup(l[1..]);
      WakeupTakes(b, q, n - 1, status);
      WakeupOnce(k, q, n, status);
      TookMore(k.wait, Wakeup(b, q, n - 1, status).wait, q, if n - 1 <= |l[1..]| then n - 1 else |l[1..]|, status);
    }
  }

  lemma TakeShape(k: Sys, q: Queue, status: Ret)
    requires q in k.wait.queues && k.wait.queues[q] != []
    ensures TakeWaiter(k, q, status).wait
      == Waiting(k.wait.queues[q := k.wait.queues[q][1..]], k.wait.woken[k.wait.queues[q][0] := status])
  {}

  lemma TookNone(k: Sys, q: Queue, n: nat, status: Ret)
    requires q in k.wait.queues && (n == 0 || k.wait.queues[q] == [])
    ensures Wakeup(k, q, n, status) == k && Took(k.wait, k.wait, q, 0, status)
  {
    assert k.wait.queues[q := k.wait.queues[q][0..]] == k.wait.queues;
    assert k.wait.queues[q][..0] == [];
  }

  lemma WakeupOnce(k: Sys, q: Queue, n: nat, status: Ret)
    requires n != 0 && q in k.wait.queues && k.wait.queues[q] != []
    ensures Wakeup(k, q, n, status) == Wakeup(TakeWaiter(k, q, status), q, n - 1, status)
  {}

  lemma OrderedDrop(l: seq<Tid>, m: nat)
    requires NoDup(l) && m <= |l|
    ensures Ordered(l, l[m..]) && forall t, u :: Before(l, t, u) && u in l[..m] ==> t in l[..m]
  {
    forall t, u | Before(l, t, u) && t in l[m..] && u in l[m..] ensures Before(l[m..], t, u) {
      var i, j :| 0 <= i < j < |l| && l[i] == t && l[j] == u;
      var x :| 0 <= x < |l[m..]| && l[m..][x] == t;
      assert l[m + x] == t && i == m + x;
      assert l[m..][i - m] == t && l[m..][j - m] == u;
    }
    forall t, u | Before(l, t, u) && u in l[..m] ensures t in l[..m] {
      var i, j :| 0 <= i < j < |l| && l[i] == t && l[j] == u;
      var x :| 0 <= x < m && l[x] == u;
      assert x == j;
      assert l[..m][i] == t;
    }
  }

  /** Queue `q` after a step: those that stay keep their order, and nobody is woken before those ahead of it. */
  ghost predicate Fair(k: Sys, k': Sys, q: Queue)
    requires q in k.wait.queues
  {
    && q in k'.wait.queues && Ordered(k.wait.queues[q], k'.wait.queues[q])
    && (forall t, u :: Before(k.wait.queues[q], t, u) && u in k'.wait.woken ==> t in k'.wait.woken)
  }

  lemma WakeupFair(k: Sys, p: Queue, n: nat, status: Ret, q: Queue)
    requires QueuesOk(k.wait, k.resume) && p in k.wait.queues && q in k.wait.queues
    ensures Fair(k, Wakeup(k, p, n, status), q)
  {
    var l, k' := k.wait.queues[p], Wakeup(k, p, n, status);
    WakeupTakes(k, p, n, status);
    if p != q { QueuesApart(k.wait, k.resume, p, q); }
    OrderedDrop(l, if n <= |l| then n else |l|);
    QuietFair(k.wait.queues[q]);
    WaitersNotWoken(k.wait, k.resume, q);
    hide QueuesOk, Wakeup, Ordered;
    forall t, u | Before(k.wait.queues[q], t, u) && u in k'.wait.woken ensures t in k'.wait.woken {
      assert u in k.wait.queues[q] && t in k.wait.queues[q];
    }
  }

  lemma QueuesApart(w: Waiting, resume: map<Tid, Resume>, p: Queue, q: Queue)
    requires QueuesOk(w, resume) && p in w.queues && q in w.queues && p != q
    ensures forall t :: t in w.queues[p] ==> t !in w.queues[q]
  {
    forall t | t in w.queues[p] ensures t !in w.queues[q] { assert Waits(w, resume, t, p) && !Waits(w, resume, t, q); }
  }

  lemma WaitersNotWoken(w: Waiting, resume: map<Tid, Resume>, q: Queue)
    requires QueuesOk(w, resume) && q in w.queues
    ensures forall t :: t in w.queues[q] ==> t !in w.woken
  {
    forall t | t in w.queues[q] ensures t !in w.woken { assert Waits(w, resume, t, q); }
  }

  lemma QuietFair(l: seq<Tid>)
    ensures Ordered(l, l)
  {}

  lemma OrderedTrans(a: seq<Tid>, b: seq<Tid>, c: seq<Tid>)
    requires Ordered(a, b) && Ordered(b, c) && forall t :: t in a ==> t in b
    ensures Ordered(a, c)
  {
    forall t, u | Before(a, t, u) && t in c && u in c ensures Before(c, t, u) { assert t in a && u in a; }
  }

  /** The thread that is resumed takes at most itself off a queue. */
  lemma FinishOrdered(w: Waiting, resume: map<Tid, Resume>, t: Tid, q: Queue)
    requires QueuesOk(w, resume) && q in w.queues
    ensures q in FinishWait(w, t, At(resume, t)).queues
    ensures Ordered(w.queues[q], FinishWait(w, t, At(resume, t)).queues[q])
    ensures forall u :: u in FinishWait(w, t, At(resume, t)).woken ==> u in w.woken
  {
    QuietFair(w.queues[q]);
    OrderedWithout(w.queues[q], t);
    hide Without, Ordered;
  }

  lemma SwitchOrdered(l: Sys, q: Queue)
    requires Core(l, {}, {}) && l.sched.ready != [] && q in l.wait.queues
    ensures q in Switch(l).wait.queues && Ordered(l.wait.queues[q], Switch(l).wait.queues[q])
    ensures forall u :: u in Switch(l).wait.woken ==> u in l.wait.woken
  {
    var t := l.sched.ready[0];
    assert QueuesOk(l.wait, l.resume);
    hide Core, QueuesOk, FinishClock, FinishSync, FinishResult, FinishWait, Ordered;
    FinishOrdered(l.wait, l.resume, t, q);
  }

  /** `l` is `k` with one more waiter at the tail of some queue, and `k'` is what a context switch makes of it. */
  lemma MidFair(k: Sys, l: Sys, k': Sys, q: Queue, c: Tid)
    requires q in k.wait.queues && q in l.wait.queues && q in k'.wait.queues && QueuesOk(k.wait, k.resume)
    requires l.wait.queues[q] == k.wait.queues[q] || l.wait.queues[q] == k.wait.queues[q] + [c]
    requires Ordered(l.wait.queues[q], k'.wait.queues[q]) && l.wait.woken == k.wait.woken
    requires forall u :: u in k'.wait.woken ==> u in l.wait.woken
    ensures Fair(k, k', q)
  {
    QuietFair(k.wait.queues[q]);
    OrderedAppend(k.wait.queues[q], c);
    WaitersNotWoken(k.wait, k.resume, q);
    BeforeIn(k.wait.queues[q]);
    hide Before, QueuesOk, Ordered;
    OrderedTrans(k.wait.queues[q], l.wait.queues[q], k'.wait.queues[q]);
  }

  lemma SwitchFair(k: Sys, step: Step, q: Queue)
    requires Inv(k) && Enabled(k, step) && IdleObeys(k, step) && Switches(k, step) && q in k.wait.queues
    ensures Fair(k, Do(k, step), q)
  {
    assert QueuesOk(k.wait, k.resume);
    hide Inv, Core, QueuesOk, Switch, Do, Left, Enabled, Switches, IdleObeys, Ordered, Fair, Register, ResumeOf;
    LeftKeeps(k, step);
    LeftShape(k, step);
    DoIsSwitch(k, step);
    SwitchOrdered(Left(k, step), q);
    MidFair(k, Left(k, step), Do(k, step), q, k.sched.current);
  }

  lemma BeforeIn(l: seq<Tid>)
    ensures forall t, u :: Before(l, t, u) ==> t in l && u in l
  {}

  lemma QuietStepFair(k: Sys, step: Step, q: Queue)
    requires QueuesOk(k.wait, k.resume) && Enabled(k, step) && !Switches(k, step) && q in k.wait.queues
    ensures Fair(k, Do(k, step), q)
  {
    QuietFair(k.wait.queues[q]);
    WaitersNotWoken(k.wait, k.resume, q);
    BeforeIn(k.wait.queues[q]);
    hide Ordered, Before, QueuesOk, Wakeup, FireDue;
    match step {
      case WakeupPlain(id, n, status) => WakeupFair(k, Plain(id), n, status, q);
      case Tick => FireDueSame(k.(clock := k.clock.(now := k.clock.now + k.clock.tick)));
      case Up(s) =>
        var l := k.wait.queues[OfSema(s)];
        var y := k.sync.(value := k.sync.value[s := k.sync.value[s] + 1], ups := k.sync.ups[s := k.sync.ups[s] + 1]);
        WakeupFair(k.(sync := if l == [] then y else Grant(y, s, l[0])), OfSema(s), 1, OK, q);
      case Unlock(m) =>
        var y := k.sync.(held := k.sync.held[m := k.sync.held[m] - {k.sched.current}]);
        WakeupFair(Return(k.(sync := y), OK), OfMutex(m), 1, OK, q);
      case _ =>
    }
  }

  lemma {:induction false} FireDueSame(k: Sys)
    ensures var k' := FireDue(k);
      k'.wait == k.wait && k'.sync == k.sync && k'.resume == k.resume && k'.result == k.result
    decreases |k.clock.actions|
  {
    if k.clock.actions == [] || k.clock.now < k.clock.actions[0].due {
    } else {
      FireDueSame(FireHead(k));
    }
  }

  lemma StepFair(k: Sys, step: Step, q: Queue)
    requires Inv(k) && Enabled(k, step) && IdleObeys(k, step) && q in k.wait.queues
    ensures Fair(k, Do(k, step), q)
  {
    if Switches(k, step) {
      SwitchFair(k, step, q);
    } else {
      assert QueuesOk(k.wait, k.resume);
      hide Inv, Fair, QueuesOk, Do;
      QuietStepFair(k, step, q);
    }
  }

  /** Both threads wait on `q` in `k`. */
  predicate BothWait(k: Sys, q: Queue, t: Tid, u: Tid) {
    q in k.wait.queues && t in k.wait.queues[q] && u in k.wait.queues[q]
  }

  /** Over any run, two threads that both keep waiting keep their order in the queue. */
  lemma {:induction false} NoOvertaking(ks: seq<Sys>, steps: seq<Step>, q: Queue, t: Tid, u: Tid, i: nat)
    requires IsRun(ks, steps) && i < |ks| && q in ks[0].wait.queues && Before(ks[0].wait.queues[q], t, u)
    requires forall j :: 0 <= j <= i ==> BothWait(ks[j], q, t, u)
    ensures q in ks[i].wait.queues && Before(ks[i].wait.queues[q], t, u)
  {
    hide Inv, Do, Enabled, IdleObeys, UnlocksOwn, Before;
    assert BothWait(ks[i], q, t, u);
    if i == 0 {
    } else {
      NoOvertaking(ks, steps, q, t, u, i - 1);
      RunKeeps(ks, steps, i - 1);
      assert IsStep(ks[i - 1], steps[i - 1], ks[i]);
      assert BothWait(ks[i - 1], q, t, u);
      StepFair(ks[i - 1], steps[i - 1], q);
    }
  }

  /**
   Wake-ups are FIFO: a thread that waits on `q` behind another one that keeps waiting is not woken up, so not
   granted the semaphore, nor handed the mutex, unless the one ahead is too.
   */
  lemma FifoWakeups(ks: seq<Sys>, steps: seq<Step>, q: Queue, t: Tid, u: Tid)
    requires IsRun(ks, steps) && steps != [] && q in ks[0].wait.queues && Before(ks[0].wait.queues[q], t, u)
    requires forall j :: 0 <= j < |steps| ==> BothWait(ks[j], q, t, u)
    ensures u in ks[|steps|].wait.woken ==> t in ks[|steps|].wait.woken
  {
    hide Inv, Do, Enabled, IdleObeys, UnlocksOwn, Before;
    var n := |steps| - 1;
    NoOvertaking(ks, steps, q, t, u, n);
    RunKeeps(ks, steps, n);
    assert IsStep(ks[n], steps[n], ks[n + 1]) && BothWait(ks[n], q, t, u);
    StepFair(ks[n], steps[n], q);
  }

  // ---------------------------------------------------------------- counting grants

  lemma {:induction false} WakeupSync(k: Sys, q: Queue, n: nat, status: Ret)
    ensures var k' := Wakeup(k, q, n, status); k'.sync == k.sync && k'.result == k.result && k'.clock == k.clock
    decreases n
  {
    if n == 0 || q !in k.wait.queues || k.wait.queues[q] == [] {
    } else {
      WakeupSync(TakeWaiter(k, q, status), q, n - 1, status);
    }
  }

  lemma SwitchHistory(l: Sys)
    requires l.sched.ready != []
    ensures var y, y' := l.sync, Switch(l).sync;
      y'.ups == y.ups && y'.grants == y.grants && y'.initial == y.initial && y'.value.Keys == y.value.Keys
  {
    hide Dispatch, Without, WithoutAction;
  }

  /**
   Thread `x` is the one that `step` grants semaphore `s`: the first waiter in an up, the caller in a down that succeeds
   at once.
   */
  predicate Granted(k: Sys, step: Step, k': Sys, s: Sema, x: Tid) {
    || (step == Up(s) && OfSema(s) in k.wait.queues && k.wait.queues[OfSema(s)] != []
      && x == k.wait.queues[OfSema(s)][0]
        && x in k'.wait.woken && k'.wait.woken[x] == OK)
    || ((step == TryDown(s) || (step.Down? && step.s == s && !Switches(k, step))) && x == k.sched.current
      && x in k'.result && k'.result[x] == OK)
  }

  ghost predicate Counts(k: Sys, step: Step, k': Sys, s: Sema)
    requires IsSema(k, s)
  {
    && IsSema(k', s) && k'.sync.initial == k.sync.initial
    && k'.sync.ups[s] == k.sync.ups[s] + (if step == Up(s) then 1 else 0)
    && ((k'.sync.grants[s] == k.sync.grants[s] && forall x :: !Granted(k, step, k', s, x))
        || exists x :: k'.sync.grants[s] == k.sync.grants[s] + [x] && Granted(k, step, k', s, x))
  }

  lemma QueuesStay(k: Sys, step: Step, q: Queue)
    requires Inv(k) && Enabled(k, step) && IdleObeys(k, step) && q in k.wait.queues
    ensures q in Do(k, step).wait.queues
  {
    hide Inv, Do, Enabled, IdleObeys, Ordered, Before;
    StepFair(k, step, q);
  }

  lemma LeftHistory(k: Sys, step: Step)
    requires Enabled(k, step) && Switches(k, step)
    ensures var y, y' := k.sync, Left(k, step).sync;
      y'.ups == y.ups && y'.grants == y.grants && y'.initial == y.initial && y'.value.Keys == y.value.Keys
  {
    hide Register;
  }

  lemma SwitchCounts(k: Sys, step: Step, s: Sema)
    requires Enabled(k, step) && Switches(k, step) && IsSema(k, s) && OfSema(s) in Do(k, step).wait.queues
    ensures Counts(k, step, Do(k, step), s)
  {
    hide Left, Do, Enabled, Switch, Counts;
    LeftHistory(k, step);
    DoIsSwitch(k, step);
    SwitchHistory(Left(k, step));
    SameCounts(k, step, Do(k, step), s);
  }

  lemma UpIs(k: Sys, s: Sema)
    requires IsSema(k, s)
    ensures var l := k.wait.queues[OfSema(s)];
      var y := k.sync.(value := k.sync.value[s := k.sync.value[s] + 1], ups := k.sync.ups[s := k.sync.ups[s] + 1]);
      Do(k, Up(s)) == Wakeup(k.(sync := if l == [] then y else Grant(y, s, l[0])), OfSema(s), 1, OK)
  {
    hide Wakeup;
  }

  lemma UpCounts(k: Sys, p: Sema, s: Sema)
    requires IsSema(k, p) && IsSema(k, s) && NoDup(k.wait.queues[OfSema(p)])
    ensures Counts(k, Up(p), Do(k, Up(p)), s)
  {
    hide Wakeup, Do, NoDup;
    var q, l, k' := OfSema(p), k.wait.queues[OfSema(p)], Do(k, Up(p));
    var y := k.sync.(value := k.sync.value[p := k.sync.value[p] + 1], ups := k.sync.ups[p := k.sync.ups[p] + 1]);
    var b := k.(sync := if l == [] then y else Grant(y, p, l[0]));
    WakeupSync(b, q, 1, OK);
    WakeupTakes(b, q, 1, OK);
    UpIs(k, p);
    if l != [] { assert l[0] in l[..1]; }
    if s == p && l != [] { assert Granted(k, Up(p), k', s, l[0]); }
  }

  /** The history of semaphore `s` stays as it is. */
  lemma SameCounts(k: Sys, step: Step, k': Sys, s: Sema)
    requires IsSema(k, s) && IsSema(k', s) && k'.sync.initial == k.sync.initial && k'.sync.ups == k.sync.ups
    requires k'.sync.grants == k.sync.grants && !step.Up? && step != TryDown(s)
    requires !(step.Down? && step.s == s && !Switches(k, step))
    ensures Counts(k, step, k', s)
  {}

  lemma DownCounts(k: Sys, step: Step, p: Sema, s: Sema)
    requires Enabled(k, step) && !Switches(k, step) && IsSema(k, s) && IsSema(k, p)
    requires step == TryDown(p) || (step.Down? && step.s == p)
    ensures Counts(k, step, Do(k, step), s)
  {
    if p == s && k.sync.value[s] >= 1 { assert Granted(k, step, Do(k, step), s, k.sched.current); }
  }

  lemma QuietHistory(k: Sys, step: Step)
    requires Enabled(k, step) && !Switches(k, step) && !step.Up? && !step.Down? && !step.TryDown?
    ensures var y, y' := k.sync, Do(k, step).sync;
      y'.ups == y.ups && y'.grants == y.grants && y'.initial == y.initial && y'.value == y.value
  {
    hide Wakeup, FireDue, SetReady, Unblock;
    match step {
      case WakeupPlain(id, n, status) => WakeupSync(k, Plain(id), n, status);
      case Tick => FireDueSame(k.(clock := k.clock.(now := k.clock.now + k.clock.tick)));
      case Unlock(m) =>
        var y := k.sync.(held := k.sync.held[m := k.sync.held[m] - {k.sched.current}]);
        WakeupSync(Return(k.(sync := y), OK), OfMutex(m), 1, OK);
      case _ =>
    }
  }

  lemma QuietCounts(k: Sys, step: Step, s: Sema)
    requires Enabled(k, step) && !Switches(k, step) && !step.Up? && IsSema(k, s) && OfSema(s) in Do(k, step).wait.queues
    ensures Counts(k, step, Do(k, step), s)
  {
    if step.Down? {
      DownCounts(k, step, step.s, s);
    } else if step.TryDown? {
      DownCounts(k, step, step.s, s);
    } else {
      hide Do, Counts, Enabled;
      QuietHistory(k, step);
      SameCounts(k, step, Do(k, step), s);
    }
  }

  /**
   Each step adds at most one grant to a semaphore: to the first waiter, which an up wakes up with OK, or to the caller
   of a down or trydown that returns OK at once. An up adds one unit, and nothing else changes the history.
   */
  lemma StepCounts(k: Sys, step: Step, s: Sema)
    requires Inv(k) && Enabled(k, step) && IdleObeys(k, step) && IsSema(k, s)
    ensures Counts(k, step, Do(k, step), s)
  {
    assert QueuesOk(k.wait, k.resume);
    hide Inv, Do, IdleObeys, Counts;
    QueuesStay(k, step, OfSema(s));
    if Switches(k, step) {
      SwitchCounts(k, step, s);
    } else if step.Up? {
      UpCounts(k, step.s, s);
    } else {
      QuietCounts(k, step, s);
    }
  }

  function CountUps(steps: seq<Step>, s: Sema): nat {
    if steps == [] then 0
    else CountUps(steps[..|steps| - 1], s) + (if steps[|steps| - 1] == Up(s) then 1 else 0)
  }

  /**
   Conservation over a run: what the semaphore was granted is what there was at the start, plus one per up since,
   minus what is left; so no unit is lost and none is granted twice.
   */
  lemma {:induction false} Conservation(ks: seq<Sys>, steps: seq<Step>, s: Sema)
    requires IsRun(ks, steps) && IsSema(ks[0], s)
    ensures var k, k' := ks[0], ks[|steps|];
      && IsSema(k', s)
      && Max0(k'.sync.value[s]) + |k'.sync.grants[s]| == Max0(k.sync.value[s]) + |k.sync.grants[s]| + CountUps(steps, s)
      && k.sync.grants[s] <= k'.sync.grants[s]
    decreases |steps|
  {
    hide Inv, Do, Enabled, IdleObeys, UnlocksOwn, IsSema, Granted;
    ConservedCount(ks, steps, s);
    RunKeeps(ks, steps, |steps|);
    SemaNow(ks[0], s);
    SemaNow(ks[|steps|], s);
  }

  lemma SemaNow(k: Sys, s: Sema)
    requires Inv(k) && IsSema(k, s)
    ensures Max0(k.sync.value[s]) + |k.sync.grants[s]| == k.sync.initial[s] + k.sync.ups[s]
  {
    assert SemaOk(k.sync, k.wait.queues, s);
  }

  lemma {:induction false} ConservedCount(ks: seq<Sys>, steps: seq<Step>, s: Sema)
    requires IsRun(ks, steps) && IsSema(ks[0], s)
    ensures var y, y' := ks[0].sync, ks[|steps|].sync;
      && IsSema(ks[|steps|], s) && y'.initial == y.initial
      && y'.ups[s] == y.ups[s] + CountUps(steps, s) && y.grants[s] <= y'.grants[s]
    decreases |steps|
  {
    hide Inv, Do, Enabled, IdleObeys, UnlocksOwn, Granted;
    if steps == [] {
    } else {
      var n := |steps| - 1;
      RunPrefix(ks, steps);
      ConservedCount(ks[..n + 1], steps[..n], s);
      RunKeeps(ks, steps, n);
      StepCounts(ks[n], steps[n], s);
    }
  }
}
