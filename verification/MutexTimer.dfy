/**
 * Where the timer may switch threads without harm to the wait list of
 * src/mutex.c: exactly everywhere except between the failed xchg and the call
 * of schedule(), and between the test of the wait list in mutex_unlock and the
 * store of its new head.
 */
module MutexTimer {
  import opened Options
  import opened MutexSteps

  /** Between calls, before an xchg, or inside the critical section. */
  predicate AtRest(pc: Pc) { pc.Outside? || pc.TestAndSet? || pc.Holding? }

  /** The positions at which a switch does no harm. */
  predicate Harmless(pc: Pc) {
    && !pc.MarkBlocked? && !pc.LoadHead? && !pc.LinkWaiter? && !pc.PushWaiter?
    && !pc.LoadWaiter? && !pc.LoadNext? && !pc.PopWaiter?
  }

  /** The timer switches only at the positions in `at`, and a blocked thread that calls schedule() finds a READY one. */
  predicate Confined(at: set<Pc>, m: Machine, a: Action)
    requires m.Valid()
  {
    var me := m.threads[m.current];
    match a
    case Timer(_) => me.pc in at
    case Run(to) => me.pc.CallSchedule? && me.life.Blocked? ==> to < |m.threads| && m.threads[to].life.Ready?
  }

  ghost predicate ConfinedRun(at: set<Pc>, m: Machine, actions: seq<Action>): (confined: bool)
    ensures confined ==> m.Valid()
    decreases |actions|
  {
    m.Valid() && (actions != [] ==> Confined(at, m, actions[0]) && ConfinedRun(at, Act(m, actions[0]), actions[1..]))
  }

  /** The lock is free, somebody is blocked on it, and nobody who could run is using the mutex. */
  ghost predicate Lost(m: Machine) {
    && m.word == 0 && m.current < |m.threads| && !m.threads[m.current].life.Blocked?
    && (exists t :: 0 <= t < |m.threads| && m.threads[t].life.Blocked?)
    && forall t :: 0 <= t < |m.threads| ==> m.threads[t].life.Blocked? || m.threads[t].pc.Outside?
  }

  /** A waiter nobody will wake, or a null waiter taken for one. */
  ghost predicate GoneWrong(m: Machine) {
    Lost(m) || exists t :: 0 <= t < |m.threads| && m.threads[t].pc.Astray?
  }

  // ---- The invariant ------------------------------------------------------------

  predicate InUnlock(pc: Pc) {
    pc.TestWaiters? || pc.LoadWaiter? || pc.LoadNext? || pc.PopWaiter? || pc.ClearLink? || pc.WakeWaiter?
  }

  /** Able to run, and about to retry the lock or to wake a waiter. */
  predicate Alert(m: Machine, t: nat) {
    && t < |m.threads| && !m.threads[t].life.Blocked?
    && (m.threads[t].pc.TestAndSet? || m.threads[t].pc.CallSchedule? || InUnlock(m.threads[t].pc))
  }

  /** Thread `u` has taken `t` off the list and not woken it yet. */
  predicate Popping(m: Machine, u: nat, t: nat) {
    u < |m.threads| && (m.threads[u].pc.ClearLink? || m.threads[u].pc.WakeWaiter?) && m.threads[u].waiter == Some(t)
  }

  ghost predicate Popped(m: Machine, t: nat) { exists u: nat :: Popping(m, u, t) }

  /** The current thread, marked BLOCKED and on its way onto the list. */
  predicate Joining(m: Machine, t: nat)
    requires m.Valid()
  {
    var pc := m.threads[m.current].pc;
    t == m.current && (pc.LoadHead? || pc.LinkWaiter? || pc.PushWaiter?)
  }

  /** Everybody but the current thread is where the timer or schedule() left it, and blocked only before a retry. */
  predicate OthersAt(at: set<Pc>, m: Machine)
    requires m.Valid()
  {
    forall t :: 0 <= t < |m.threads| && t != m.current ==>
      && (m.threads[t].pc in at || m.threads[t].pc.TestAndSet?) && !m.threads[t].pc.Astray?
      && !m.threads[t].life.Running?
      && (m.threads[t].life.Blocked? ==> m.threads[t].pc.TestAndSet? || m.threads[t].pc.CallSchedule?)
  }

  /** What the current thread's position says about the lock and the list `w`. */
  predicate CurrentIs(m: Machine, w: seq<nat>)
    requires m.Valid()
  {
    var me := m.threads[m.current];
    match me.pc
    case MarkBlocked => me.life.Running? && m.word != 0
    case LoadHead => me.life.Blocked? && m.word != 0
    case LinkWaiter => me.life.Blocked? && m.word != 0 && me.loaded == m.waiters
    case PushWaiter => me.life.Blocked? && m.word != 0 && me.waitNext == m.waiters
    case CallSchedule => !me.life.Ready?
    case LoadWaiter => me.life.Running? && w != []
    case LoadNext => me.life.Running? && w != [] && me.waiter == Some(w[0])
    case PopWaiter => me.life.Running? && w != [] && me.waiter == Some(w[0]) && me.loaded == Nth(w, 1)
    case Astray => false
    case _ => me.life.Running?
  }

  function Nth(w: seq<nat>, k: nat): Option<nat> { if k < |w| then Some(w[k]) else None }

  /** The list: from `waiters` along the links it visits exactly `w`, once each, and stops. */
  predicate ListIs(m: Machine, w: seq<nat>)
    requires m.Valid()
  {
    && (forall k :: 0 <= k < |w| ==> w[k] < |m.threads|)
    && (forall j, k :: 0 <= j < k < |w| ==> w[j] != w[k])
    && m.waiters == Nth(w, 0)
    && forall k {:trigger m.threads[w[k]]} :: 0 <= k < |w| ==> m.threads[w[k]].waitNext == Nth(w, k + 1)
  }

  /** It holds the blocked threads: all of them, but for one being put on and those taken off. */
  ghost predicate ListHolds(m: Machine, w: seq<nat>)
    requires m.Valid()
  {
    forall t :: 0 <= t < |m.threads| ==>
      (t in w <==> m.threads[t].life.Blocked? && !Popped(m, t) && !Joining(m, t))
  }

  /** A thread taken off is blocked, and by one unlock only. */
  ghost predicate PoppedOnce(m: Machine)
    requires m.Valid()
  {
    && (forall u: nat, t: nat :: Popping(m, u, t) ==>
          t < |m.threads| && m.threads[t].life.Blocked? && !Joining(m, t))
    && (forall u: nat, v: nat, t: nat :: Popping(m, u, t) && Popping(m, v, t) ==> u == v)
  }

  /** A free lock with waiters has somebody to retry it or to wake one. */
  ghost predicate Watched(m: Machine, w: seq<nat>) {
    m.word == 0 && w != [] ==> exists t: nat :: Alert(m, t)
  }

  ghost predicate Settled(at: set<Pc>, m: Machine, w: seq<nat>) {
    && m.Valid()
    && OthersAt(at, m) && CurrentIs(m, w) && ListIs(m, w) && ListHolds(m, w) && PoppedOnce(m) && Watched(m, w)
  }

  /** While anybody is blocked on a free lock, some thread that can run is about to retry or to wake. */
  lemma SomebodyActs(at: set<Pc>, m: Machine, w: seq<nat>, t: nat) returns (u: nat)
    requires Settled(at, m, w) && m.word == 0 && !m.threads[m.current].life.Blocked?
    requires t < |m.threads| && m.threads[t].life.Blocked?
    ensures u < |m.threads| && !m.threads[u].life.Blocked? && !m.threads[u].pc.Outside?
  {
    if Popped(m, t) {
      u :| Popping(m, u, t);
    } else {
      assert t in w;
      u :| Alert(m, u);
    }
  }

  lemma SettledIsNotWrong(at: set<Pc>, m: Machine, w: seq<nat>)
    requires Settled(at, m, w)
    ensures !GoneWrong(m)
  {
    hide ListIs, ListHolds, PoppedOnce, Watched;
    if m.word == 0 && !m.threads[m.current].life.Blocked? {
      forall t | 0 <= t < |m.threads| && m.threads[t].life.Blocked?
        ensures exists u :: 0 <= u < |m.threads| && !m.threads[u].life.Blocked? && !m.threads[u].pc.Outside?
      {
        var u := SomebodyActs(at, m, w, t);
      }
    }
  }

  lemma StartIsSettled(at: set<Pc>, n: nat)
    requires n > 0 && Outside in at
    ensures Settled(at, Start(n), [])
  {
  }

  // ---- Every step keeps it --------------------------------------------------------

  /** A switch moves no program counter and no pointer, blocks and unblocks nobody. */
  lemma SwitchEffect(m: Machine, to: nat)
    requires m.Valid()
    ensures (var m' := SwitchTo(m, to);
      && m'.Valid() && |m'.threads| == |m.threads| && m'.word == m.word && m'.waiters == m.waiters
      && forall t {:trigger m'.threads[t]} :: 0 <= t < |m.threads| ==>
           && m'.threads[t] == m.threads[t].(life := m'.threads[t].life)
           && (m'.threads[t].life.Blocked? <==> m.threads[t].life.Blocked?))
  {
  }

  /** Whatever changes only who runs keeps the list and those watching it. */
  lemma SamePositionsKeepList(m: Machine, m': Machine, w: seq<nat>)
    requires m.Valid() && m'.Valid() && ListIs(m, w) && ListHolds(m, w) && PoppedOnce(m) && Watched(m, w)
    requires |m'.threads| == |m.threads| && m'.word == m.word && m'.waiters == m.waiters
    requires forall t {:trigger m'.threads[t]} :: 0 <= t < |m.threads| ==>
               && m'.threads[t] == m.threads[t].(life := m'.threads[t].life)
               && (m'.threads[t].life.Blocked? <==> m.threads[t].life.Blocked?)
    requires forall t: nat :: !Joining(m, t) && !Joining(m', t)
    ensures ListIs(m', w) && ListHolds(m', w) && PoppedOnce(m') && Watched(m', w)
  {
    hide Machine.Valid, Joining;
    assert forall u: nat, t: nat :: Popping(m', u, t) == Popping(m, u, t);
    assert forall t: nat :: Popped(m', t) == Popped(m, t);
    assert forall t: nat :: Alert(m', t) == Alert(m, t);
    assert forall k :: 0 <= k < |w| ==> m'.threads[w[k]].waitNext == m.threads[w[k]].waitNext;
  }

  /** A switch that happens: the one left stays where it was, the one entered is RUNNING where it was left. */
  lemma SwitchedPlaces(at: set<Pc>, m: Machine, to: nat, w: seq<nat>)
    requires m.Valid() && OthersAt(at, m) && to < |m.threads| && m.threads[to].life.Ready? && to != m.current
    requires var me := m.threads[m.current];
             && (me.pc in at || me.pc.TestAndSet?) && !me.pc.Astray? && !me.life.Ready?
             && (me.life.Blocked? ==> me.pc.TestAndSet? || me.pc.CallSchedule?)
    requires forall pc :: pc in at ==> Harmless(pc)
    ensures (var m' := SwitchTo(m, to); m'.Valid() && OthersAt(at, m') && CurrentIs(m', w))
    ensures forall t: nat :: !Joining(SwitchTo(m, to), t)
  {
  }

  lemma SwitchKeepsPlaces(at: set<Pc>, m: Machine, to: nat, w: seq<nat>)
    requires m.Valid() && OthersAt(at, m) && CurrentIs(m, w) && m.threads[m.current].pc in at
    requires forall pc :: pc in at ==> Harmless(pc)
    ensures (var m' := SwitchTo(m, to); m'.Valid() && OthersAt(at, m') && CurrentIs(m', w))
    ensures forall t: nat :: !Joining(m, t) && !Joining(SwitchTo(m, to), t)
  {
    hide OthersAt;
    assert Harmless(m.threads[m.current].pc);
    if to < |m.threads| && m.threads[to].life.Ready? && to != m.current {
      SwitchedPlaces(at, m, to, w);
    }
  }

  lemma TimerKeepsSettled(at: set<Pc>, m: Machine, to: nat, w: seq<nat>)
    requires Settled(at, m, w) && m.threads[m.current].pc in at && forall pc :: pc in at ==> Harmless(pc)
    ensures Settled(at, SwitchTo(m, to), w)
  {
    hide SwitchTo, OthersAt, CurrentIs, ListIs, ListHolds, PoppedOnce, Watched, Joining, Machine.Valid;
    SwitchKeepsPlaces(at, m, to, w);
    SwitchEffect(m, to);
    SamePositionsKeepList(m, SwitchTo(m, to), w);
  }

  /** schedule() called by a thread that is on the list, or has been woken meanwhile. */
  lemma YieldKeepsSettled(at: set<Pc>, m: Machine, to: nat, w: seq<nat>)
    requires Settled(at, m, w) && m.threads[m.current].pc.CallSchedule? && Confined(at, m, Run(to))
    requires forall pc :: pc in at ==> Harmless(pc)
    ensures Settled(at, Instruction(m, to), w)
  {
    hide SwitchTo, OthersAt, CurrentIs, ListIs, ListHolds, PoppedOnce, Watched, Joining;
    YieldKeepsPlaces(at, m, to, w);
    ReadyToRetry(m, w);
    SwitchEffect(m.At(TestAndSet), to);
    SamePositionsKeepList(m.At(TestAndSet), Instruction(m, to), w);
  }

  lemma YieldKeepsPlaces(at: set<Pc>, m: Machine, to: nat, w: seq<nat>)
    requires m.Valid() && OthersAt(at, m) && CurrentIs(m, w) && m.threads[m.current].pc.CallSchedule?
    requires Confined(at, m, Run(to)) && forall pc :: pc in at ==> Harmless(pc)
    ensures (var m' := Instruction(m, to); m'.Valid() && OthersAt(at, m') && CurrentIs(m', w))
    ensures m.At(TestAndSet).Valid()
    ensures forall t: nat :: !Joining(m.At(TestAndSet), t) && !Joining(Instruction(m, to), t)
  {
    hide Harmless;
    var m1 := m.At(TestAndSet);
    assert OthersAt(at, m1);
    if to < |m.threads| && m.threads[to].life.Ready? && to != m.current {
      assert m1.threads[to].life.Ready?;
      SwitchedPlaces(at, m1, to, w);
    } else {
      assert Instruction(m, to) == m1;
    }
  }

  lemma ReadyToRetry(m: Machine, w: seq<nat>)
    requires m.Valid() && m.At(TestAndSet).Valid() && m.threads[m.current].pc.CallSchedule?
    requires ListIs(m, w) && ListHolds(m, w) && PoppedOnce(m) && Watched(m, w)
    ensures (var m' := m.At(TestAndSet); ListIs(m', w) && ListHolds(m', w) && PoppedOnce(m') && Watched(m', w))
  {
    var m' := m.At(TestAndSet);
    assert forall u: nat, t: nat :: Popping(m', u, t) == Popping(m, u, t);
    assert forall t: nat :: Popped(m', t) == Popped(m, t);
    assert forall t: nat :: Alert(m', t) == Alert(m, t);
  }

  /** The lock attempt, up to the store of the link. */
  lemma AttemptKeepsSettled(at: set<Pc>, m: Machine, to: nat, w: seq<nat>)
    requires Settled(at, m, w)
    requires var pc := m.threads[m.current].pc;
             pc.Outside? || pc.TestAndSet? || pc.MarkBlocked? || pc.LoadHead? || pc.LinkWaiter?
    ensures Settled(at, Instruction(m, to), w)
  {
    var m', c := Instruction(m, to), m.current;
    assert forall u: nat, t: nat :: Popping(m', u, t) == Popping(m, u, t);
    assert forall t: nat :: Popped(m', t) == Popped(m, t);
    assert forall t: nat :: t != c && Alert(m, t) ==> Alert(m', t);
    assert m.threads[c].pc.Outside? ==> Alert(m', c);
  }

  lemma PushKeepsList(at: set<Pc>, m: Machine, to: nat, w: seq<nat>)
    requires Settled(at, m, w) && m.threads[m.current].pc.PushWaiter?
    ensures Instruction(m, to).Valid() && ListIs(Instruction(m, to), [m.current] + w)
  {
    hide OthersAt, PoppedOnce, Watched;
    var m', w', c := Instruction(m, to), [m.current] + w, m.current;
    assert Joining(m, c) && c !in w;
    forall k | 0 <= k < |w'| ensures m'.threads[w'[k]].waitNext == Nth(w', k + 1) {
      if k > 0 {
        assert m.threads[w[k - 1]].waitNext == Nth(w, k) && w[k - 1] in w;
      }
    }
  }

  lemma PushKeepsSettled(at: set<Pc>, m: Machine, to: nat, w: seq<nat>)
    requires Settled(at, m, w) && m.threads[m.current].pc.PushWaiter?
    ensures Settled(at, Instruction(m, to), [m.current] + w)
  {
    hide ListIs;
    var m', w', c := Instruction(m, to), [m.current] + w, m.current;
    PushKeepsList(at, m, to, w);
    assert forall u: nat, t: nat :: Popping(m', u, t) == Popping(m, u, t);
    assert forall t: nat :: Popped(m', t) == Popped(m, t);
    assert Joining(m, c) && !Popped(m, c);
  }

  /** What changes only the current thread's position inside the unlock keeps the list. */
  lemma UnlockingKeepsList(m: Machine, m': Machine, w: seq<nat>)
    requires m.Valid() && m'.Valid() && ListIs(m, w) && ListHolds(m, w) && PoppedOnce(m)
    requires |m'.threads| == |m.threads| && m'.current == m.current && m'.waiters == m.waiters
    requires forall t {:trigger m'.threads[t]} :: 0 <= t < |m.threads| ==>
               && m'.threads[t].life == m.threads[t].life
               && (t in w ==> m'.threads[t].waitNext == m.threads[t].waitNext)
    requires forall u: nat, t: nat :: Popping(m', u, t) == Popping(m, u, t)
    requires forall t: nat :: !Joining(m, t) && !Joining(m', t)
    ensures ListIs(m', w) && ListHolds(m', w) && PoppedOnce(m')
  {
    hide Machine.Valid, Joining, Popping;
    assert forall t: nat :: Popped(m', t) == Popped(m, t);
    assert forall k :: 0 <= k < |w| ==> m'.threads[w[k]].waitNext == m.threads[w[k]].waitNext;
  }

  /** The unlock, up to the load of the new head. */
  lemma ReleaseKeepsSettled(at: set<Pc>, m: Machine, to: nat, w: seq<nat>)
    requires Settled(at, m, w)
    requires var pc := m.threads[m.current].pc; pc.Holding? || pc.TestWaiters? || pc.LoadWaiter? || pc.LoadNext?
    ensures Settled(at, Instruction(m, to), w)
  {
    hide ListHolds, PoppedOnce;
    var m', c := Instruction(m, to), m.current;
    assert w != [] ==> m.threads[w[0]].waitNext == Nth(w, 1) && Alert(m', c);
    UnlockingKeepsList(m, m', w);
  }

  lemma PopKeepsList(at: set<Pc>, m: Machine, to: nat, w: seq<nat>)
    requires Settled(at, m, w) && m.threads[m.current].pc.PopWaiter?
    ensures Instruction(m, to).Valid() && ListIs(Instruction(m, to), w[1..])
  {
    hide OthersAt, ListHolds, PoppedOnce, Watched;
    var m', w' := Instruction(m, to), w[1..];
    assert m.threads[w[0]].waitNext == Nth(w, 1);
    forall k | 0 <= k < |w'| ensures m'.threads[w'[k]].waitNext == Nth(w', k + 1) {
      assert m.threads[w[k + 1]].waitNext == Nth(w, k + 2);
    }
  }

  lemma PopKeepsSettled(at: set<Pc>, m: Machine, to: nat, w: seq<nat>)
    requires Settled(at, m, w) && m.threads[m.current].pc.PopWaiter?
    ensures Settled(at, Instruction(m, to), w[1..])
  {
    var m', w', c := Instruction(m, to), w[1..], m.current;
    PopKeepsList(at, m, to, w);
    assert w == [w[0]] + w' && w[0] !in w' && w[0] in w;
    assert forall u: nat, t: nat :: Popping(m', u, t) <==> Popping(m, u, t) || (u == c && t == w[0]);
    assert Popping(m', c, w[0]);
    assert forall t: nat :: Popped(m', t) <==> Popped(m, t) || t == w[0];
    assert Alert(m', c);
  }

  lemma PoppedIsOffTheList(at: set<Pc>, m: Machine, w: seq<nat>)
    requires Settled(at, m, w) && m.threads[m.current].pc.ClearLink?
    ensures (var x := m.threads[m.current].waiter.value;
             x !in w && m.threads[x].life.Blocked? && Popping(m, m.current, x))
  {
    assert Popping(m, m.current, m.threads[m.current].waiter.value);
    assert Popped(m, m.threads[m.current].waiter.value);
  }

  lemma ClearKeepsSettled(at: set<Pc>, m: Machine, to: nat, w: seq<nat>)
    requires Settled(at, m, w) && m.threads[m.current].pc.ClearLink?
    ensures Settled(at, Instruction(m, to), w)
  {
    hide ListIs, ListHolds, PoppedOnce;
    var m' := Instruction(m, to);
    PoppedIsOffTheList(at, m, w);
    assert Alert(m', m.current);
    UnlockingKeepsList(m, m', w);
  }

  lemma WakeEffect(m: Machine, to: nat)
    requires m.Valid() && m.threads[m.current].pc.WakeWaiter?
    ensures (var m', c, x := Instruction(m, to), m.current, m.threads[m.current].waiter.value;
      && m'.Valid() && |m'.threads| == |m.threads|
      && m'.word == m.word && m'.waiters == m.waiters && m'.current == c
      && (forall t {:trigger m'.threads[t]} :: 0 <= t < |m.threads| ==>
            && m'.threads[t].waitNext == m.threads[t].waitNext
            && m'.threads[t].life == if t == x then Ready else m.threads[t].life)
      && (forall u: nat, t: nat :: Popping(m', u, t) <==> Popping(m, u, t) && u != c)
      && (forall t: nat :: !Joining(m, t) && !Joining(m', t))
      && Popping(m, c, x))
  {
  }

  lemma WakeKeepsList(at: set<Pc>, m: Machine, to: nat, w: seq<nat>)
    requires Settled(at, m, w) && m.threads[m.current].pc.WakeWaiter?
    ensures (var m' := Instruction(m, to);
             m'.Valid() && ListIs(m', w) && ListHolds(m', w) && PoppedOnce(m') && Watched(m', w))
  {
    hide Instruction, OthersAt, CurrentIs, Joining;
    var m', x := Instruction(m, to), m.threads[m.current].waiter.value;
    WakeEffect(m, to);
    WokenIsAlert(at, m, to, w);
    assert forall t: nat :: Popped(m', t) <==> Popped(m, t) && t != x;
    assert forall k :: 0 <= k < |w| ==> m'.threads[w[k]].waitNext == m.threads[w[k]].waitNext;
  }

  lemma WokenIsAlert(at: set<Pc>, m: Machine, to: nat, w: seq<nat>)
    requires Settled(at, m, w) && m.threads[m.current].pc.WakeWaiter?
    ensures Alert(Instruction(m, to), m.threads[m.current].waiter.value)
  {
    hide ListIs, ListHolds, Watched;
    assert Popping(m, m.current, m.threads[m.current].waiter.value);
  }

  lemma WakeKeepsSettled(at: set<Pc>, m: Machine, to: nat, w: seq<nat>)
    requires Settled(at, m, w) && m.threads[m.current].pc.WakeWaiter? && Outside in at
    ensures Settled(at, Instruction(m, to), w)
  {
    hide ListIs, ListHolds, Watched;
    assert Popping(m, m.current, m.threads[m.current].waiter.value);
    WakeKeepsList(at, m, to, w);
  }

  lemma StepKeepsSettled(at: set<Pc>, m: Machine, a: Action, w: seq<nat>) returns (w': seq<nat>)
    requires Settled(at, m, w) && Confined(at, m, a)
    requires Outside in at && forall pc :: pc in at ==> Harmless(pc)
    ensures Settled(at, Act(m, a), w')
  {
    hide SwitchTo, Instruction, OthersAt, ListIs, ListHolds, PoppedOnce, Watched;
    w' := w;
    match a
    case Timer(to) => TimerKeepsSettled(at, m, to, w);
    case Run(to) =>
      match m.threads[m.current].pc
      case CallSchedule => YieldKeepsSettled(at, m, to, w);
      case PushWaiter => PushKeepsSettled(at, m, to, w); w' := [m.current] + w;
      case PopWaiter => PopKeepsSettled(at, m, to, w); w' := w[1..];
      case ClearLink => ClearKeepsSettled(at, m, to, w);
      case WakeWaiter => WakeKeepsSettled(at, m, to, w);
      case Holding => ReleaseKeepsSettled(at, m, to, w);
      case TestWaiters => ReleaseKeepsSettled(at, m, to, w);
      case LoadWaiter => ReleaseKeepsSettled(at, m, to, w);
      case LoadNext => ReleaseKeepsSettled(at, m, to, w);
      case Astray =>
      case _ => AttemptKeepsSettled(at, m, to, w);
  }

  lemma {:induction false} RunKeepsSettled(at: set<Pc>, m: Machine, actions: seq<Action>, w: seq<nat>)
    returns (w': seq<nat>)
    requires Settled(at, m, w) && ConfinedRun(at, m, actions)
    requires Outside in at && forall pc :: pc in at ==> Harmless(pc)
    ensures Settled(at, Exec(m, actions), w')
    decreases |actions|
  {
    hide Act, Confined, OthersAt, CurrentIs, ListIs, ListHolds, PoppedOnce, Watched, Harmless;
    w' := w;
    if actions != [] {
      w' := StepKeepsSettled(at, m, actions[0], w);
      w' := RunKeepsSettled(at, Act(m, actions[0]), actions[1..], w');
    }
  }

  /**
   * With the timer at harmless positions only: in every run of any number of threads the list visits
   * each thread on it once and stops, and it holds exactly the blocked threads, but for the current one
   * while it puts itself on and for those an unlock has taken off and is about to wake; and a free lock
   * with waiters has a thread that can run and is about to retry or to wake one.
   */
  lemma ListIsExact(at: set<Pc>, n: nat, actions: seq<Action>) returns (w: seq<nat>)
    requires n > 0 && Outside in at && (forall pc :: pc in at ==> Harmless(pc)) && ConfinedRun(at, Start(n), actions)
    ensures (var m := Exec(Start(n), actions);
      && m.Valid() && ListIs(m, w)
      && (forall t :: 0 <= t < |m.threads| ==>
            (t in w <==> m.threads[t].life.Blocked? && !Popped(m, t) && !Joining(m, t)))
      && (m.word == 0 && w != [] ==> exists t: nat :: Alert(m, t)))
  {
    StartIsSettled(at, n);
    w := RunKeepsSettled(at, Start(n), actions, []);
  }

  /**
   * In particular, with the timer kept out of the failed attempt and of the unlock altogether: whenever
   * the current thread is at rest the list holds each blocked thread once and no other, and a free lock
   * with waiters has an unblocked thread about to retry.
   */
  lemma RestingSwitchesStrandNobody(n: nat, actions: seq<Action>) returns (w: seq<nat>)
    requires n > 0 && ConfinedRun({Outside, TestAndSet, Holding}, Start(n), actions)
    ensures (var m := Exec(Start(n), actions);
      && m.Valid() && ListIs(m, w)
      && (AtRest(m.threads[m.current].pc) ==>
            && (forall t :: 0 <= t < |m.threads| ==> (t in w <==> m.threads[t].life.Blocked?))
            && (m.word == 0 && m.waiters.Some? ==>
                  exists t :: 0 <= t < |m.threads| && m.threads[t].pc.TestAndSet? && !m.threads[t].life.Blocked?)))
  {
    StartIsSettled({Outside, TestAndSet, Holding}, n);
    w := RunKeepsSettled({Outside, TestAndSet, Holding}, Start(n), actions, []);
    var m := Exec(Start(n), actions);
    if AtRest(m.threads[m.current].pc) { NobodyElseUnlocks(m, w); }
  }

  lemma NobodyElseUnlocks(m: Machine, w: seq<nat>)
    requires Settled({Outside, TestAndSet, Holding}, m, w) && AtRest(m.threads[m.current].pc)
    ensures forall t: nat :: !Popped(m, t) && !Joining(m, t)
    ensures forall t: nat :: Alert(m, t) ==> m.threads[t].pc.TestAndSet? && !m.threads[t].life.Blocked?
  {
  }

  // ---- Runs that go wrong -----------------------------------------------------------

  /** Some run confined to `at` leads from `m` to `m'`. */
  ghost predicate Leads(at: set<Pc>, m: Machine, m': Machine) {
    exists actions :: ConfinedRun(at, m, actions) && Exec(m, actions) == m'
  }

  lemma {:induction false} ConfinedConcat(at: set<Pc>, m: Machine, first: seq<Action>, second: seq<Action>)
    requires ConfinedRun(at, m, first) && ConfinedRun(at, Exec(m, first), second)
    ensures ConfinedRun(at, m, first + second)
    decreases |first|
  {
    hide Act, Machine.Valid, Confined;
    if first == [] {
      assert first + second == second;
    } else {
      ConfinedConcat(at, Act(m, first[0]), first[1..], second);
      assert (first + second)[1..] == first[1..] + second;
    }
  }

  lemma LeadsOn(at: set<Pc>, a: Machine, b: Machine, c: Machine)
    requires Leads(at, a, b) && Leads(at, b, c)
    ensures Leads(at, a, c)
  {
    hide ConfinedRun, Exec;
    var first :| ConfinedRun(at, a, first) && Exec(a, first) == b;
    var second :| ConfinedRun(at, b, second) && Exec(b, second) == c;
    ConfinedConcat(at, a, first, second);
    ExecConcat(a, first, second);
  }

  /** A run that visits the machines of `m`, one after another. */
  lemma {:induction false} Visits(at: set<Pc>, m: seq<Machine>, run: seq<Action>)
    requires |m| == |run| + 1
    requires forall i :: 0 <= i < |m| ==> m[i].Valid()
    requires forall i :: 0 <= i < |run| ==> Confined(at, m[i], run[i]) && Act(m[i], run[i]) == m[i + 1]
    ensures ConfinedRun(at, m[0], run) && Exec(m[0], run) == m[|run|] && Leads(at, m[0], m[|run|])
    decreases |run|
  {
    if run != [] {
      Visits(at, m[1..], run[1..]);
    }
  }

  const REST: set<Pc> := {Outside, TestAndSet, Holding}

  function Th(pc: Pc, life: Life): Thread { Thread(pc, life, None, None, None) }

  /** In the unlock, with thread 1 as the waiter. */
  function Un(pc: Pc, life: Life): Thread { Thread(pc, life, None, Some(1), None) }

  /** On the list before thread 1. */
  function Behind(pc: Pc, life: Life): Thread { Thread(pc, life, Some(1), None, Some(1)) }

  function Four(word: nat, waiters: Option<nat>, current: nat, a: Thread, b: Thread, c: Thread, d: Thread): Machine {
    Machine(word, waiters, [a, b, c, d], current)
  }

  /** Thread 0 takes the lock. */
  lemma OneHolds(at: set<Pc>)
    requires REST <= at
    ensures Leads(at, Start(4),
      Four(1, None, 1, Th(Holding, Ready), Th(Outside, Running), Th(Outside, Ready), Th(Outside, Ready)))
  {
    var m := [
      Four(0, None, 0, Th(Outside, Running), Th(Outside, Ready), Th(Outside, Ready), Th(Outside, Ready)),
      Four(0, None, 0, Th(TestAndSet, Running), Th(Outside, Ready), Th(Outside, Ready), Th(Outside, Ready)),
      Four(1, None, 0, Th(Holding, Running), Th(Outside, Ready), Th(Outside, Ready), Th(Outside, Ready)),
      Four(1, None, 1, Th(Holding, Ready), Th(Outside, Running), Th(Outside, Ready), Th(Outside, Ready))];
    assert Start(4) == m[0];
    Visits(at, m, [Run(0), Run(0), Timer(1)]);
  }

  /** Thread 1 finds it held. */
  lemma OneFails(at: set<Pc>)
    requires REST <= at
    requires Leads(at, Start(4),
      Four(1, None, 1, Th(Holding, Ready), Th(Outside, Running), Th(Outside, Ready), Th(Outside, Ready)))
    ensures Leads(at, Start(4),
      Four(1, None, 1, Th(Holding, Ready), Th(MarkBlocked, Running), Th(Outside, Ready), Th(Outside, Ready)))
  {
    var m := [
      Four(1, None, 1, Th(Holding, Ready), Th(Outside, Running), Th(Outside, Ready), Th(Outside, Ready)),
      Four(1, None, 1, Th(Holding, Ready), Th(TestAndSet, Running), Th(Outside, Ready), Th(Outside, Ready)),
      Four(1, None, 1, Th(Holding, Ready), Th(MarkBlocked, Running), Th(Outside, Ready), Th(Outside, Ready))];
    Visits(at, m, [Run(0), Run(0)]);
    LeadsOn(at, Start(4), m[0], m[2]);
  }

  /** Thread 1 marks itself and prepares its link. */
  lemma OneLinks(at: set<Pc>)
    requires REST <= at
    requires Leads(at, Start(4),
      Four(1, None, 1, Th(Holding, Ready), Th(MarkBlocked, Running), Th(Outside, Ready), Th(Outside, Ready)))
    ensures Leads(at, Start(4),
      Four(1, None, 1, Th(Holding, Ready), Th(PushWaiter, Blocked), Th(Outside, Ready), Th(Outside, Ready)))
  {
    var m := [
      Four(1, None, 1, Th(Holding, Ready), Th(MarkBlocked, Running), Th(Outside, Ready), Th(Outside, Ready)),
      Four(1, None, 1, Th(Holding, Ready), Th(LoadHead, Blocked), Th(Outside, Ready), Th(Outside, Ready)),
      Four(1, None, 1, Th(Holding, Ready), Th(LinkWaiter, Blocked), Th(Outside, Ready), Th(Outside, Ready)),
      Four(1, None, 1, Th(Holding, Ready), Th(PushWaiter, Blocked), Th(Outside, Ready), Th(Outside, Ready))];
    Visits(at, m, [Run(0), Run(0), Run(0)]);
    LeadsOn(at, Start(4), m[0], m[3]);
  }

  /** It becomes the head and yields to thread 0. */
  lemma OneQueues(at: set<Pc>)
    requires REST <= at
    requires Leads(at, Start(4),
      Four(1, None, 1, Th(Holding, Ready), Th(PushWaiter, Blocked), Th(Outside, Ready), Th(Outside, Ready)))
    ensures Leads(at, Start(4),
      Four(1, Some(1), 0, Th(Holding, Running), Th(TestAndSet, Blocked), Th(Outside, Ready), Th(Outside, Ready)))
  {
    var m := [
      Four(1, None, 1, Th(Holding, Ready), Th(PushWaiter, Blocked), Th(Outside, Ready), Th(Outside, Ready)),
      Four(1, Some(1), 1, Th(Holding, Ready), Th(CallSchedule, Blocked), Th(Outside, Ready), Th(Outside, Ready)),
      Four(1, Some(1), 0, Th(Holding, Running), Th(TestAndSet, Blocked), Th(Outside, Ready), Th(Outside, Ready))];
    Visits(at, m, [Run(0), Run(0)]);
    LeadsOn(at, Start(4), m[0], m[2]);
  }

  /** Thread 0 releases and finds a waiter. */
  lemma OneReleases(at: set<Pc>)
    requires REST <= at
    requires Leads(at, Start(4),
      Four(1, Some(1), 0, Th(Holding, Running), Th(TestAndSet, Blocked), Th(Outside, Ready), Th(Outside, Ready)))
    ensures Leads(at, Start(4),
      Four(0, Some(1), 0, Th(LoadWaiter, Running), Th(TestAndSet, Blocked), Th(Outside, Ready), Th(Outside, Ready)))
  {
    var m := [
      Four(1, Some(1), 0, Th(Holding, Running), Th(TestAndSet, Blocked), Th(Outside, Ready), Th(Outside, Ready)),
      Four(0, Some(1), 0, Th(TestWaiters, Running), Th(TestAndSet, Blocked), Th(Outside, Ready), Th(Outside, Ready)),
      Four(0, Some(1), 0, Th(LoadWaiter, Running), Th(TestAndSet, Blocked), Th(Outside, Ready), Th(Outside, Ready))];
    Visits(at, m, [Run(0), Run(0)]);
    LeadsOn(at, Start(4), m[0], m[2]);
  }

  /** Interrupted there, it sees thread 2 take the lock. */
  lemma AnotherLocks(at: set<Pc>)
    requires REST <= at && LoadWaiter in at
    requires Leads(at, Start(4),
      Four(0, Some(1), 0, Th(LoadWaiter, Running), Th(TestAndSet, Blocked), Th(Outside, Ready), Th(Outside, Ready)))
    ensures Leads(at, Start(4),
      Four(1, Some(1), 2, Th(LoadWaiter, Ready), Th(TestAndSet, Blocked), Th(Holding, Running), Th(Outside, Ready)))
  {
    var m := [
      Four(0, Some(1), 0, Th(LoadWaiter, Running), Th(TestAndSet, Blocked), Th(Outside, Ready), Th(Outside, Ready)),
      Four(0, Some(1), 2, Th(LoadWaiter, Ready), Th(TestAndSet, Blocked), Th(Outside, Running), Th(Outside, Ready)),
      Four(0, Some(1), 2, Th(LoadWaiter, Ready), Th(TestAndSet, Blocked), Th(TestAndSet, Running), Th(Outside, Ready)),
      Four(1, Some(1), 2, Th(LoadWaiter, Ready), Th(TestAndSet, Blocked), Th(Holding, Running), Th(Outside, Ready))];
    Visits(at, m, [Timer(2), Run(0), Run(0)]);
    LeadsOn(at, Start(4), m[0], m[3]);
  }

  /** Thread 2 releases it. */
  lemma AnotherReleases(at: set<Pc>)
    requires REST <= at
    requires Leads(at, Start(4),
      Four(1, Some(1), 2, Th(LoadWaiter, Ready), Th(TestAndSet, Blocked), Th(Holding, Running), Th(Outside, Ready)))
    ensures Leads(at, Start(4),
      Four(0, Some(1), 2, Th(LoadWaiter, Ready), Th(TestAndSet, Blocked), Un(LoadNext, Running), Th(Outside, Ready)))
  {
    var m := [
      Four(1, Some(1), 2, Th(LoadWaiter, Ready), Th(TestAndSet, Blocked), Th(Holding, Running), Th(Outside, Ready)),
      Four(0, Some(1), 2, Th(LoadWaiter, Ready), Th(TestAndSet, Blocked), Th(TestWaiters, Running), Th(Outside, Ready)),
      Four(0, Some(1), 2, Th(LoadWaiter, Ready), Th(TestAndSet, Blocked), Th(LoadWaiter, Running), Th(Outside, Ready)),
      Four(0, Some(1), 2, Th(LoadWaiter, Ready), Th(TestAndSet, Blocked), Un(LoadNext, Running), Th(Outside, Ready))];
    Visits(at, m, [Run(0), Run(0), Run(0)]);
    LeadsOn(at, Start(4), m[0], m[3]);
  }

  /** It takes the waiter off the list. */
  lemma AnotherPops(at: set<Pc>)
    requires REST <= at
    requires Leads(at, Start(4),
      Four(0, Some(1), 2, Th(LoadWaiter, Ready), Th(TestAndSet, Blocked), Un(LoadNext, Running), Th(Outside, Ready)))
    ensures Leads(at, Start(4),
      Four(0, None, 2, Th(LoadWaiter, Ready), Th(TestAndSet, Blocked), Un(WakeWaiter, Running), Th(Outside, Ready)))
  {
    var m := [
      Four(0, Some(1), 2, Th(LoadWaiter, Ready), Th(TestAndSet, Blocked), Un(LoadNext, Running), Th(Outside, Ready)),
      Four(0, Some(1), 2, Th(LoadWaiter, Ready), Th(TestAndSet, Blocked), Un(PopWaiter, Running), Th(Outside, Ready)),
      Four(0, None, 2, Th(LoadWaiter, Ready), Th(TestAndSet, Blocked), Un(ClearLink, Running), Th(Outside, Ready)),
      Four(0, None, 2, Th(LoadWaiter, Ready), Th(TestAndSet, Blocked), Un(WakeWaiter, Running), Th(Outside, Ready))];
    Visits(at, m, [Run(0), Run(0), Run(0)]);
    LeadsOn(at, Start(4), m[0], m[3]);
  }

  /** It wakes it, and thread 0 loads a null waiter. */
  lemma TheWaiterIsGone(at: set<Pc>)
    requires REST <= at
    requires Leads(at, Start(4),
      Four(0, None, 2, Th(LoadWaiter, Ready), Th(TestAndSet, Blocked), Un(WakeWaiter, Running), Th(Outside, Ready)))
    ensures Leads(at, Start(4),
      Four(0, None, 0, Th(Astray, Running), Th(TestAndSet, Ready), Th(Outside, Ready), Th(Outside, Ready)))
  {
    var m := [
      Four(0, None, 2, Th(LoadWaiter, Ready), Th(TestAndSet, Blocked), Un(WakeWaiter, Running), Th(Outside, Ready)),
      Four(0, None, 2, Th(LoadWaiter, Ready), Th(TestAndSet, Ready), Th(Outside, Running), Th(Outside, Ready)),
      Four(0, None, 0, Th(LoadWaiter, Running), Th(TestAndSet, Ready), Th(Outside, Ready), Th(Outside, Ready)),
      Four(0, None, 0, Th(Astray, Running), Th(TestAndSet, Ready), Th(Outside, Ready), Th(Outside, Ready))];
    Visits(at, m, [Run(0), Timer(0), Run(0)]);
    LeadsOn(at, Start(4), m[0], m[3]);
  }

  /** Thread 0 goes on to load the waiter. */
  lemma WaiterIsLoaded(at: set<Pc>)
    requires REST <= at
    requires Leads(at, Start(4),
      Four(0, Some(1), 0, Th(LoadWaiter, Running), Th(TestAndSet, Blocked), Th(Outside, Ready), Th(Outside, Ready)))
    ensures Leads(at, Start(4),
      Four(0, Some(1), 0, Un(LoadNext, Running), Th(TestAndSet, Blocked), Th(Outside, Ready), Th(Outside, Ready)))
  {
    var m := [
      Four(0, Some(1), 0, Th(LoadWaiter, Running), Th(TestAndSet, Blocked), Th(Outside, Ready), Th(Outside, Ready)),
      Four(0, Some(1), 0, Un(LoadNext, Running), Th(TestAndSet, Blocked), Th(Outside, Ready), Th(Outside, Ready))];
    Visits(at, m, [Run(0)]);
    LeadsOn(at, Start(4), m[0], m[1]);
  }

  /** It loads the next waiter: none. */
  lemma NextIsLoaded(at: set<Pc>)
    requires REST <= at
    requires Leads(at, Start(4),
      Four(0, Some(1), 0, Un(LoadNext, Running), Th(TestAndSet, Blocked), Th(Outside, Ready), Th(Outside, Ready)))
    ensures Leads(at, Start(4),
      Four(0, Some(1), 0, Un(PopWaiter, Running), Th(TestAndSet, Blocked), Th(Outside, Ready), Th(Outside, Ready)))
  {
    var m := [
      Four(0, Some(1), 0, Un(LoadNext, Running), Th(TestAndSet, Blocked), Th(Outside, Ready), Th(Outside, Ready)),
      Four(0, Some(1), 0, Un(PopWaiter, Running), Th(TestAndSet, Blocked), Th(Outside, Ready), Th(Outside, Ready))];
    Visits(at, m, [Run(0)]);
    LeadsOn(at, Start(4), m[0], m[1]);
  }

  /** Thread 0 loads what followed its waiter: none. */
  lemma OldNextIsLoaded(at: set<Pc>)
    requires REST <= at
    requires Leads(at, Start(4),
      Four(1, Some(3), 0, Un(LoadNext, Running), Th(TestAndSet, Blocked), Th(Holding, Ready), Behind(TestAndSet, Blocked)))
    ensures Leads(at, Start(4),
      Four(1, Some(3), 0, Un(PopWaiter, Running), Th(TestAndSet, Blocked), Th(Holding, Ready), Behind(TestAndSet, Blocked)))
  {
    var m := [
      Four(1, Some(3), 0, Un(LoadNext, Running), Th(TestAndSet, Blocked), Th(Holding, Ready), Behind(TestAndSet, Blocked)),
      Four(1, Some(3), 0, Un(PopWaiter, Running), Th(TestAndSet, Blocked), Th(Holding, Ready), Behind(TestAndSet, Blocked))];
    Visits(at, m, [Run(0)]);
    LeadsOn(at, Start(4), m[0], m[1]);
  }

  /** Interrupted there or one step later, it sees thread 2 take the lock. */
  lemma AnotherHolds(at: set<Pc>, u: Pc)
    requires REST <= at && u in at && (u.LoadNext? || u.PopWaiter?)
    requires Leads(at, Start(4),
      Four(0, Some(1), 0, Un(u, Running), Th(TestAndSet, Blocked), Th(Outside, Ready), Th(Outside, Ready)))
    ensures Leads(at, Start(4),
      Four(1, Some(1), 2, Un(u, Ready), Th(TestAndSet, Blocked), Th(Holding, Running), Th(Outside, Ready)))
  {
    var m := [
      Four(0, Some(1), 0, Un(u, Running), Th(TestAndSet, Blocked), Th(Outside, Ready), Th(Outside, Ready)),
      Four(0, Some(1), 2, Un(u, Ready), Th(TestAndSet, Blocked), Th(Outside, Running), Th(Outside, Ready)),
      Four(0, Some(1), 2, Un(u, Ready), Th(TestAndSet, Blocked), Th(TestAndSet, Running), Th(Outside, Ready)),
      Four(1, Some(1), 2, Un(u, Ready), Th(TestAndSet, Blocked), Th(Holding, Running), Th(Outside, Ready))];
    Visits(at, m, [Timer(2), Run(0), Run(0)]);
    LeadsOn(at, Start(4), m[0], m[3]);
  }

  /** Thread 3 finds it held. */
  lemma AThirdFails(at: set<Pc>, u: Pc)
    requires REST <= at && (u.LoadNext? || u.PopWaiter?)
    requires Leads(at, Start(4),
      Four(1, Some(1), 2, Un(u, Ready), Th(TestAndSet, Blocked), Th(Holding, Running), Th(Outside, Ready)))
    ensures Leads(at, Start(4),
      Four(1, Some(1), 3, Un(u, Ready), Th(TestAndSet, Blocked), Th(Holding, Ready), Th(MarkBlocked, Running)))
  {
    var m := [
      Four(1, Some(1), 2, Un(u, Ready), Th(TestAndSet, Blocked), Th(Holding, Running), Th(Outside, Ready)),
      Four(1, Some(1), 3, Un(u, Ready), Th(TestAndSet, Blocked), Th(Holding, Ready), Th(Outside, Running)),
      Four(1, Some(1), 3, Un(u, Ready), Th(TestAndSet, Blocked), Th(Holding, Ready), Th(TestAndSet, Running)),
      Four(1, Some(1), 3, Un(u, Ready), Th(TestAndSet, Blocked), Th(Holding, Ready), Th(MarkBlocked, Running))];
    Visits(at, m, [Timer(3), Run(0), Run(0)]);
    LeadsOn(at, Start(4), m[0], m[3]);
  }

  /** It prepares its link to thread 1. */
  lemma AThirdLinks(at: set<Pc>, u: Pc)
    requires REST <= at && (u.LoadNext? || u.PopWaiter?)
    requires Leads(at, Start(4),
      Four(1, Some(1), 3, Un(u, Ready), Th(TestAndSet, Blocked), Th(Holding, Ready), Th(MarkBlocked, Running)))
    ensures Leads(at, Start(4),
      Four(1, Some(1), 3, Un(u, Ready), Th(TestAndSet, Blocked), Th(Holding, Ready), Behind(PushWaiter, Blocked)))
  {
    var m := [
      Four(1, Some(1), 3, Un(u, Ready), Th(TestAndSet, Blocked), Th(Holding, Ready), Th(MarkBlocked, Running)),
      Four(1, Some(1), 3, Un(u, Ready), Th(TestAndSet, Blocked), Th(Holding, Ready), Th(LoadHead, Blocked)),
      Four(1, Some(1), 3, Un(u, Ready), Th(TestAndSet, Blocked), Th(Holding, Ready), Thread(LinkWaiter, Blocked, None, None, Some(1))),
      Four(1, Some(1), 3, Un(u, Ready), Th(TestAndSet, Blocked), Th(Holding, Ready), Behind(PushWaiter, Blocked))];
    Visits(at, m, [Run(0), Run(0), Run(0)]);
    LeadsOn(at, Start(4), m[0], m[3]);
  }

  /** It becomes the head, and thread 0 goes on. */
  lemma AThirdQueues(at: set<Pc>, u: Pc)
    requires REST <= at && (u.LoadNext? || u.PopWaiter?)
    requires Leads(at, Start(4),
      Four(1, Some(1), 3, Un(u, Ready), Th(TestAndSet, Blocked), Th(Holding, Ready), Behind(PushWaiter, Blocked)))
    ensures Leads(at, Start(4),
      Four(1, Some(3), 0, Un(u, Running), Th(TestAndSet, Blocked), Th(Holding, Ready), Behind(TestAndSet, Blocked)))
  {
    var m := [
      Four(1, Some(1), 3, Un(u, Ready), Th(TestAndSet, Blocked), Th(Holding, Ready), Behind(PushWaiter, Blocked)),
      Four(1, Some(3), 3, Un(u, Ready), Th(TestAndSet, Blocked), Th(Holding, Ready), Behind(CallSchedule, Blocked)),
      Four(1, Some(3), 0, Un(u, Running), Th(TestAndSet, Blocked), Th(Holding, Ready), Behind(TestAndSet, Blocked))];
    Visits(at, m, [Run(0), Run(0)]);
    LeadsOn(at, Start(4), m[0], m[2]);
  }

  /** Thread 0 stores the next waiter it had loaded as the head: thread 3 is off the list. */
  lemma HeadIsOverwritten(at: set<Pc>)
    requires REST <= at
    requires Leads(at, Start(4),
      Four(1, Some(3), 0, Un(PopWaiter, Running), Th(TestAndSet, Blocked), Th(Holding, Ready), Behind(TestAndSet, Blocked)))
    ensures Leads(at, Start(4),
      Four(1, None, 0, Th(Outside, Running), Th(TestAndSet, Ready), Th(Holding, Ready), Behind(TestAndSet, Blocked)))
  {
    var m := [
      Four(1, Some(3), 0, Un(PopWaiter, Running), Th(TestAndSet, Blocked), Th(Holding, Ready), Behind(TestAndSet, Blocked)),
      Four(1, None, 0, Un(ClearLink, Running), Th(TestAndSet, Blocked), Th(Holding, Ready), Behind(TestAndSet, Blocked)),
      Four(1, None, 0, Un(WakeWaiter, Running), Th(TestAndSet, Blocked), Th(Holding, Ready), Behind(TestAndSet, Blocked)),
      Four(1, None, 0, Th(Outside, Running), Th(TestAndSet, Ready), Th(Holding, Ready), Behind(TestAndSet, Blocked))];
    Visits(at, m, [Run(0), Run(0), Run(0)]);
    LeadsOn(at, Start(4), m[0], m[3]);
  }

  /** Thread 2 releases and finds nobody. */
  lemma TheHolderLeaves(at: set<Pc>)
    requires REST <= at
    requires Leads(at, Start(4),
      Four(1, None, 0, Th(Outside, Running), Th(TestAndSet, Ready), Th(Holding, Ready), Behind(TestAndSet, Blocked)))
    ensures Leads(at, Start(4),
      Four(0, None, 2, Th(Outside, Ready), Th(TestAndSet, Ready), Th(Outside, Running), Behind(TestAndSet, Blocked)))
  {
    var m := [
      Four(1, None, 0, Th(Outside, Running), Th(TestAndSet, Ready), Th(Holding, Ready), Behind(TestAndSet, Blocked)),
      Four(1, None, 2, Th(Outside, Ready), Th(TestAndSet, Ready), Th(Holding, Running), Behind(TestAndSet, Blocked)),
      Four(0, None, 2, Th(Outside, Ready), Th(TestAndSet, Ready), Th(TestWaiters, Running), Behind(TestAndSet, Blocked)),
      Four(0, None, 2, Th(Outside, Ready), Th(TestAndSet, Ready), Th(Outside, Running), Behind(TestAndSet, Blocked))];
    Visits(at, m, [Timer(2), Run(0), Run(0)]);
    LeadsOn(at, Start(4), m[0], m[3]);
  }

  /** So does thread 1 after it, and thread 3 stays blocked on a free lock. */
  lemma TheWokenLeaves(at: set<Pc>)
    requires REST <= at
    requires Leads(at, Start(4),
      Four(0, None, 2, Th(Outside, Ready), Th(TestAndSet, Ready), Th(Outside, Running), Behind(TestAndSet, Blocked)))
    ensures Leads(at, Start(4),
      Four(0, None, 1, Th(Outside, Ready), Th(Outside, Running), Th(Outside, Ready), Behind(TestAndSet, Blocked)))
  {
    var m := [
      Four(0, None, 2, Th(Outside, Ready), Th(TestAndSet, Ready), Th(Outside, Running), Behind(TestAndSet, Blocked)),
      Four(0, None, 1, Th(Outside, Ready), Th(TestAndSet, Running), Th(Outside, Ready), Behind(TestAndSet, Blocked)),
      Four(1, None, 1, Th(Outside, Ready), Th(Holding, Running), Th(Outside, Ready), Behind(TestAndSet, Blocked)),
      Four(0, None, 1, Th(Outside, Ready), Th(TestWaiters, Running), Th(Outside, Ready), Behind(TestAndSet, Blocked)),
      Four(0, None, 1, Th(Outside, Ready), Th(Outside, Running), Th(Outside, Ready), Behind(TestAndSet, Blocked))];
    Visits(at, m, [Timer(1), Run(0), Run(0), Run(0)]);
    LeadsOn(at, Start(4), m[0], m[4]);
  }

  /** An unlock by thread 0 does not see thread 1, which is blocked but not yet on the list. */
  lemma UnlockMissesJoiner(at: set<Pc>, u: Pc)
    requires REST <= at && (u.LoadHead? || u.LinkWaiter? || u.PushWaiter?)
    requires Leads(at, Start(4),
      Four(1, None, 0, Th(Holding, Running), Th(u, Blocked), Th(Outside, Ready), Th(Outside, Ready)))
    ensures Leads(at, Start(4),
      Four(0, None, 0, Th(Outside, Running), Th(u, Blocked), Th(Outside, Ready), Th(Outside, Ready)))
  {
    var m := [
      Four(1, None, 0, Th(Holding, Running), Th(u, Blocked), Th(Outside, Ready), Th(Outside, Ready)),
      Four(0, None, 0, Th(TestWaiters, Running), Th(u, Blocked), Th(Outside, Ready), Th(Outside, Ready)),
      Four(0, None, 0, Th(Outside, Running), Th(u, Blocked), Th(Outside, Ready), Th(Outside, Ready))];
    Visits(at, m, [Run(0), Run(0)]);
    LeadsOn(at, Start(4), m[0], m[2]);
  }

  /** So it is, interrupted at such a point, left blocked on a free lock. */
  lemma InterruptedWhileJoining(at: set<Pc>, u: Pc)
    requires REST <= at && u in at && (u.LoadHead? || u.LinkWaiter? || u.PushWaiter?)
    requires Leads(at, Start(4),
      Four(1, None, 1, Th(Holding, Ready), Th(u, Blocked), Th(Outside, Ready), Th(Outside, Ready)))
    ensures Leads(at, Start(4),
      Four(0, None, 0, Th(Outside, Running), Th(u, Blocked), Th(Outside, Ready), Th(Outside, Ready)))
  {
    var m := [
      Four(1, None, 1, Th(Holding, Ready), Th(u, Blocked), Th(Outside, Ready), Th(Outside, Ready)),
      Four(1, None, 0, Th(Holding, Running), Th(u, Blocked), Th(Outside, Ready), Th(Outside, Ready))];
    Visits(at, m, [Timer(0)]);
    LeadsOn(at, Start(4), m[0], m[1]);
    UnlockMissesJoiner(at, u);
  }

  /** Interrupted before it marks itself, it is not seen either. */
  lemma InterruptedBeforeMarking(at: set<Pc>)
    requires REST <= at && MarkBlocked in at
    requires Leads(at, Start(4),
      Four(1, None, 1, Th(Holding, Ready), Th(MarkBlocked, Running), Th(Outside, Ready), Th(Outside, Ready)))
    ensures Leads(at, Start(4),
      Four(0, None, 0, Th(Outside, Running), Th(MarkBlocked, Ready), Th(Outside, Ready), Th(Outside, Ready)))
  {
    var m := [
      Four(1, None, 1, Th(Holding, Ready), Th(MarkBlocked, Running), Th(Outside, Ready), Th(Outside, Ready)),
      Four(1, None, 0, Th(Holding, Running), Th(MarkBlocked, Ready), Th(Outside, Ready), Th(Outside, Ready)),
      Four(0, None, 0, Th(TestWaiters, Running), Th(MarkBlocked, Ready), Th(Outside, Ready), Th(Outside, Ready)),
      Four(0, None, 0, Th(Outside, Running), Th(MarkBlocked, Ready), Th(Outside, Ready), Th(Outside, Ready))];
    Visits(at, m, [Timer(0), Run(0), Run(0)]);
    LeadsOn(at, Start(4), m[0], m[3]);
  }

  /** It goes on to queue itself behind the free lock, */
  lemma JoinsAFreeLock(at: set<Pc>)
    requires REST <= at
    requires Leads(at, Start(4),
      Four(0, None, 0, Th(Outside, Running), Th(MarkBlocked, Ready), Th(Outside, Ready), Th(Outside, Ready)))
    ensures Leads(at, Start(4),
      Four(0, None, 1, Th(Outside, Ready), Th(LinkWaiter, Blocked), Th(Outside, Ready), Th(Outside, Ready)))
  {
    var m := [
      Four(0, None, 0, Th(Outside, Running), Th(MarkBlocked, Ready), Th(Outside, Ready), Th(Outside, Ready)),
      Four(0, None, 1, Th(Outside, Ready), Th(MarkBlocked, Running), Th(Outside, Ready), Th(Outside, Ready)),
      Four(0, None, 1, Th(Outside, Ready), Th(LoadHead, Blocked), Th(Outside, Ready), Th(Outside, Ready)),
      Four(0, None, 1, Th(Outside, Ready), Th(LinkWaiter, Blocked), Th(Outside, Ready), Th(Outside, Ready))];
    Visits(at, m, [Timer(1), Run(0), Run(0)]);
    LeadsOn(at, Start(4), m[0], m[3]);
  }

  /** and yields. */
  lemma WaitsForNobody(at: set<Pc>)
    requires REST <= at
    requires Leads(at, Start(4),
      Four(0, None, 1, Th(Outside, Ready), Th(LinkWaiter, Blocked), Th(Outside, Ready), Th(Outside, Ready)))
    ensures Leads(at, Start(4),
      Four(0, Some(1), 0, Th(Outside, Running), Th(TestAndSet, Blocked), Th(Outside, Ready), Th(Outside, Ready)))
  {
    var m := [
      Four(0, None, 1, Th(Outside, Ready), Th(LinkWaiter, Blocked), Th(Outside, Ready), Th(Outside, Ready)),
      Four(0, None, 1, Th(Outside, Ready), Th(PushWaiter, Blocked), Th(Outside, Ready), Th(Outside, Ready)),
      Four(0, Some(1), 1, Th(Outside, Ready), Th(CallSchedule, Blocked), Th(Outside, Ready), Th(Outside, Ready)),
      Four(0, Some(1), 0, Th(Outside, Running), Th(TestAndSet, Blocked), Th(Outside, Ready), Th(Outside, Ready))];
    Visits(at, m, [Run(0), Run(0), Run(0)]);
    LeadsOn(at, Start(4), m[0], m[3]);
  }

  // ---- The theorem --------------------------------------------------------------------

  /** Thread 1 in its failed attempt about to do `u`, while thread 0 holds the mutex. */
  function Joiner(u: Pc): Machine {
    Four(1, None, 1, Th(Holding, Ready), Th(u, if u.MarkBlocked? then Running else Blocked),
         Th(Outside, Ready), Th(Outside, Ready))
  }

  lemma JoinsOnce(at: set<Pc>, u: Pc, v: Pc)
    requires REST <= at && Leads(at, Start(4), Joiner(u))
    requires (u.MarkBlocked? && v.LoadHead?) || (u.LoadHead? && v.LinkWaiter?) || (u.LinkWaiter? && v.PushWaiter?)
    ensures Leads(at, Start(4), Joiner(v))
  {
    Visits(at, [Joiner(u), Joiner(v)], [Run(0)]);
    LeadsOn(at, Start(4), Joiner(u), Joiner(v));
  }

  /** It gets there blocked. */
  lemma JoiningAt(at: set<Pc>, u: Pc)
    requires REST <= at && (u.LoadHead? || u.LinkWaiter? || u.PushWaiter?)
    ensures Leads(at, Start(4), Four(1, None, 1, Th(Holding, Ready), Th(u, Blocked), Th(Outside, Ready), Th(Outside, Ready)))
  {
    hide Leads;
    OneHolds(at);
    OneFails(at);
    JoinsOnce(at, MarkBlocked, LoadHead);
    if !u.LoadHead? {
      JoinsOnce(at, LoadHead, LinkWaiter);
      if u.PushWaiter? {
        JoinsOnce(at, LinkWaiter, PushWaiter);
      }
    }
  }

  /** A switch inside the failed attempt can leave a thread blocked for ever. */
  lemma AttemptRun(at: set<Pc>, u: Pc) returns (bad: Machine)
    requires REST <= at && u in at && (u.MarkBlocked? || u.LoadHead? || u.LinkWaiter? || u.PushWaiter?)
    ensures Leads(at, Start(4), bad) && GoneWrong(bad)
  {
    hide Leads;
    if u.MarkBlocked? {
      OneHolds(at);
      OneFails(at);
      InterruptedBeforeMarking(at);
      JoinsAFreeLock(at);
      WaitsForNobody(at);
      bad := Four(0, Some(1), 0, Th(Outside, Running), Th(TestAndSet, Blocked), Th(Outside, Ready), Th(Outside, Ready));
    } else {
      JoiningAt(at, u);
      InterruptedWhileJoining(at, u);
      bad := Four(0, None, 0, Th(Outside, Running), Th(u, Blocked), Th(Outside, Ready), Th(Outside, Ready));
    }
    assert bad.threads[1].life.Blocked?;
  }

  lemma ToTheTest(at: set<Pc>)
    requires REST <= at
    ensures Leads(at, Start(4),
      Four(0, Some(1), 0, Th(LoadWaiter, Running), Th(TestAndSet, Blocked), Th(Outside, Ready), Th(Outside, Ready)))
  {
    OneHolds(at);
    OneFails(at);
    OneLinks(at);
    OneQueues(at);
    OneReleases(at);
  }

  /** A switch between the test of the list and the load of its head can lead to a null waiter. */
  lemma NullWaiterRun(at: set<Pc>) returns (bad: Machine)
    requires REST <= at && LoadWaiter in at
    ensures Leads(at, Start(4), bad) && GoneWrong(bad)
  {
    hide Leads;
    ToTheTest(at);
    AnotherLocks(at);
    AnotherReleases(at);
    AnotherPops(at);
    TheWaiterIsGone(at);
    bad := Four(0, None, 0, Th(Astray, Running), Th(TestAndSet, Ready), Th(Outside, Ready), Th(Outside, Ready));
    assert bad.threads[0].pc.Astray?;
  }

  /** A switch between that load and the store of the new head can drop a thread from the list. */
  lemma LostHeadRun(at: set<Pc>, u: Pc) returns (bad: Machine)
    requires REST <= at && u in at && (u.LoadNext? || u.PopWaiter?)
    ensures Leads(at, Start(4), bad) && GoneWrong(bad)
  {
    hide Leads;
    ToTheTest(at);
    WaiterIsLoaded(at);
    if u.PopWaiter? { NextIsLoaded(at); }
    AnotherHolds(at, u);
    AThirdFails(at, u);
    AThirdLinks(at, u);
    AThirdQueues(at, u);
    if u.LoadNext? { OldNextIsLoaded(at); }
    HeadIsOverwritten(at);
    TheHolderLeaves(at);
    TheWokenLeaves(at);
    bad := Four(0, None, 1, Th(Outside, Ready), Th(Outside, Running), Th(Outside, Ready), Behind(TestAndSet, Blocked));
    assert bad.threads[3].life.Blocked?;
  }

  /** With the timer confined to `at`, no run of any number of threads goes wrong. */
  ghost predicate Safe(at: set<Pc>) {
    forall n: nat, actions: seq<Action> {:trigger ConfinedRun(at, Start(n), actions)} ::
      n > 0 && ConfinedRun(at, Start(n), actions) ==> !GoneWrong(Exec(Start(n), actions))
  }

  lemma HarmlessIsSafe(at: set<Pc>)
    requires REST <= at && forall pc :: pc in at ==> Harmless(pc)
    ensures Safe(at)
  {
    hide GoneWrong, Harmless;
    forall n: nat, actions: seq<Action> | n > 0 && ConfinedRun(at, Start(n), actions)
      ensures !GoneWrong(Exec(Start(n), actions))
    {
      StartIsSettled(at, n);
      var w := RunKeepsSettled(at, Start(n), actions, []);
      SettledIsNotWrong(at, Exec(Start(n), actions), w);
    }
  }

  lemma LeadsToUnsafe(at: set<Pc>, bad: Machine)
    requires Leads(at, Start(4), bad) && GoneWrong(bad)
    ensures !Safe(at)
  {
    hide GoneWrong, Exec, ConfinedRun;
    var actions :| ConfinedRun(at, Start(4), actions) && Exec(Start(4), actions) == bad;
  }

  /**
   * The exact condition on the timer.  Let it switch at least between calls, before an xchg and inside
   * the critical section.  Then no run strands a waiter or follows a null one if and only if it never
   * switches at one of the seven other positions.
   */
  lemma TimerIsSafeExactlyWhen(at: set<Pc>)
    requires REST <= at
    ensures Safe(at) <==> forall pc :: pc in at ==> Harmless(pc)
  {
    hide Safe, GoneWrong, Leads;
    if u :| u in at && !Harmless(u) {
      var bad: Machine;
      if u.LoadWaiter? {
        bad := NullWaiterRun(at);
      } else if u.LoadNext? || u.PopWaiter? {
        bad := LostHeadRun(at, u);
      } else {
        bad := AttemptRun(at, u);
      }
      LeadsToUnsafe(at, bad);
    } else {
      HarmlessIsSafe(at);
    }
  }
}
