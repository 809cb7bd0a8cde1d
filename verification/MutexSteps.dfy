/**
 * src/mutex.c one memory access at a time, for any number of threads on one
 * processor, with the timer free to switch threads between any two accesses.
 * Mutual exclusion holds at this grain.  The wait list does not: a concrete run
 * shows a waiter nobody will wake.  Module MutexTimer says where the timer may switch.
 */
module MutexSteps {
  import opened Options

  /** Where a thread is; each label names the instruction it executes next. */
  datatype Pc =
    | Outside        // not using the mutex
    | TestAndSet     // test_and_set
    | MarkBlocked    // marks itself BLOCKED
    | LoadHead       // loads the head of the wait list
    | LinkWaiter     // stores it in its own link
    | PushWaiter     // becomes the head
    | CallSchedule   // gives up the processor
    | Holding        // returned from mutex_lock
    | TestWaiters    // after the releasing store: is anybody waiting?
    | LoadWaiter     // loads the first waiter
    | LoadNext       // loads the second
    | PopWaiter      // which becomes the head
    | ClearLink      // clears the first waiter's link
    | WakeWaiter     // makes it READY
    | Astray         // loaded a null waiter: whatever lies at address 0 becomes the head

  datatype Life = Ready | Running | Blocked

  datatype Thread = Thread(pc: Pc, life: Life, waitNext: Option<nat>, waiter: Option<nat>, loaded: Option<nat>)
  {
    /** All pointers lead to one of the `n` threads, and `waiter` is loaded wherever it is used. */
    predicate Sane(n: nat) {
      && (waitNext.Some? ==> waitNext.value < n)
      && (waiter.Some? ==> waiter.value < n)
      && (loaded.Some? ==> loaded.value < n)
      && (pc.LoadNext? || pc.PopWaiter? || pc.ClearLink? || pc.WakeWaiter? ==> waiter.Some?)
    }
  }

  datatype Machine = Machine(word: nat, waiters: Option<nat>, threads: seq<Thread>, current: nat)
  {
    predicate Valid() {
      && current < |threads|
      && (waiters.Some? ==> waiters.value < |threads|)
      && forall t :: 0 <= t < |threads| ==> threads[t].Sane(|threads|)
    }

    function Set(t: nat, thread: Thread): Machine
      requires t < |threads|
    {
      this.(threads := threads[t := thread])
    }

    /** The current thread's program counter moves to `pc`. */
    function At(pc: Pc): Machine
      requires current < |threads|
    {
      Set(current, threads[current].(pc := pc))
    }
  }

  /** schedule(): over to a READY thread; a RUNNING one left behind becomes READY. */
  function SwitchTo(m: Machine, to: nat): Machine
    requires m.Valid()
  {
    if to < |m.threads| && m.threads[to].life.Ready? && to != m.current then
      var me := m.threads[m.current];
      var m1 := m.Set(m.current, if me.life.Running? then me.(life := Ready) else me);
      m1.Set(to, m1.threads[to].(life := Running)).(current := to)
    else m
  }

  /** The current thread executes one instruction; `to` is the choice of schedule(), and the head a null waiter yields. */
  function Instruction(m: Machine, to: nat): Machine
    requires m.Valid()
  {
    var me := m.threads[m.current];
    match me.pc
    case Outside => m.At(TestAndSet)
    case TestAndSet => m.(word := 1).At(if m.word == 0 then Holding else MarkBlocked)
    case MarkBlocked => m.Set(m.current, me.(pc := LoadHead, life := Blocked))
    case LoadHead => m.Set(m.current, me.(pc := LinkWaiter, loaded := m.waiters))
    case LinkWaiter => m.Set(m.current, me.(pc := PushWaiter, waitNext := me.loaded))
    case PushWaiter => m.(waiters := Some(m.current)).At(CallSchedule)
    case CallSchedule => SwitchTo(m.At(TestAndSet), to)
    case Holding => m.(word := 0).At(TestWaiters)
    case TestWaiters => m.At(if m.waiters.Some? then LoadWaiter else Outside)
    case LoadWaiter => m.Set(m.current, me.(pc := if m.waiters.Some? then LoadNext else Astray, waiter := m.waiters))
    case LoadNext => m.Set(m.current, me.(pc := PopWaiter, loaded := m.threads[me.waiter.value].waitNext))
    case PopWaiter => m.(waiters := me.loaded).At(ClearLink)
    case ClearLink =>
      var m1 := m.At(WakeWaiter);
      m1.Set(me.waiter.value, m1.threads[me.waiter.value].(waitNext := None))
    case WakeWaiter =>
      var m1 := m.Set(m.current, me.(pc := Outside, waiter := None));
      m1.Set(me.waiter.value, m1.threads[me.waiter.value].(life := Ready))
    case Astray => m.(waiters := if to < |m.threads| then Some(to) else None).At(Outside)
  }

  /** One instruction of the current thread, or a timer interrupt that switches. */
  datatype Action = Run(to: nat) | Timer(to: nat)

  function Act(m: Machine, a: Action): Machine
    requires m.Valid()
  {
    match a
    case Run(to) => Instruction(m, to)
    case Timer(to) => SwitchTo(m, to)
  }

  /** Past a successful test_and_set and before its own releasing store. */
  predicate Holds(m: Machine, t: nat) {
    t < |m.threads| && m.threads[t].pc.Holding?
  }

  /** At most one holder, and the lock word is 1 exactly when there is one. */
  ghost predicate Exclusive(m: Machine) {
    && m.Valid() && m.word <= 1
    && (forall t: nat, u: nat :: Holds(m, t) && Holds(m, u) ==> t == u)
    && (m.word == 1 <==> exists t: nat :: Holds(m, t))
  }

  lemma SwitchKeepsHolders(m: Machine, to: nat)
    requires m.Valid()
    ensures SwitchTo(m, to).Valid() && SwitchTo(m, to).word == m.word
    ensures forall t: nat :: Holds(SwitchTo(m, to), t) == Holds(m, t)
  {
  }

  lemma SetKeepsValid(m: Machine, t: nat, thread: Thread)
    requires m.Valid() && t < |m.threads| && thread.Sane(|m.threads|)
    ensures m.Set(t, thread).Valid()
  {
  }

  lemma ActKeepsValid(m: Machine, a: Action)
    requires m.Valid()
    ensures Act(m, a).Valid()
  {
    hide SwitchTo;
    var me := m.threads[m.current];
    assert me.Sane(|m.threads|);
    match a
    case Timer(to) => SwitchKeepsHolders(m, to);
    case Run(to) =>
      match me.pc
      case CallSchedule => SwitchKeepsHolders(m.At(TestAndSet), to);
      case ClearLink => SetKeepsValid(m, m.current, me.(pc := WakeWaiter));
      case WakeWaiter => SetKeepsValid(m, m.current, me.(pc := Outside, waiter := None));
      case _ =>
  }

  /** Instructions other than the xchg and the releasing store move no holder and no lock word. */
  lemma HoldersChangeOnlyAtTheWord(m: Machine, a: Action)
    requires m.Valid()
    requires a.Run? ==> !m.threads[m.current].pc.TestAndSet? && !m.threads[m.current].pc.Holding?
    ensures Act(m, a).word == m.word && forall t: nat :: Holds(Act(m, a), t) == Holds(m, t)
  {
    hide SwitchTo;
    match a
    case Timer(to) => SwitchKeepsHolders(m, to);
    case Run(to) =>
      match m.threads[m.current].pc
      case CallSchedule => SwitchKeepsHolders(m.At(TestAndSet), to);
      case _ =>
  }

  lemma ActKeepsExclusive(m: Machine, a: Action)
    requires Exclusive(m)
    ensures Exclusive(Act(m, a))
  {
    ActKeepsValid(m, a);
    var m', c := Act(m, a), m.current;
    if a.Run? && m.threads[c].pc.TestAndSet? {
      assert forall t: nat :: t != c ==> Holds(m', t) == Holds(m, t);
      assert m.word == 0 ==> Holds(m', c);
    } else if a.Run? && m.threads[c].pc.Holding? {
      assert Holds(m, c);
      assert forall t: nat :: Holds(m', t) ==> Holds(m, t) && t != c;
    } else {
      HoldersChangeOnlyAtTheWord(m, a);
    }
  }

  ghost function Exec(m: Machine, actions: seq<Action>): Machine
    requires m.Valid()
    decreases |actions|
  {
    if actions == [] then m else ActKeepsValid(m, actions[0]); Exec(Act(m, actions[0]), actions[1..])
  }

  /** `n` threads, none of them using the free mutex, the first one running. */
  function Start(n: nat): Machine {
    Machine(0, None, seq(n, t => Thread(Outside, if t == 0 then Running else Ready, None, None, None)), 0)
  }

  lemma {:induction false} RunKeepsExclusive(m: Machine, actions: seq<Action>)
    requires Exclusive(m)
    ensures Exclusive(Exec(m, actions))
    decreases |actions|
  {
    if actions != [] {
      ActKeepsExclusive(m, actions[0]);
      RunKeepsExclusive(Act(m, actions[0]), actions[1..]);
    }
  }

  /** Mutual exclusion: in every run of any number of threads under any interleaving. */
  lemma MutualExclusion(n: nat, actions: seq<Action>)
    requires n > 0
    ensures Exclusive(Exec(Start(n), actions))
  {
    RunKeepsExclusive(Start(n), actions);
  }

  // ---- The wait list at this grain ---------------------------------------

  /** The lock is free, a blocked thread is on the wait list, and nobody else is using the mutex. */
  predicate Stranded(m: Machine) {
    && m.word == 0 && m.waiters.Some? && m.waiters.value < |m.threads|
    && m.threads[m.waiters.value].life.Blocked?
    && forall t :: 0 <= t < |m.threads| && t != m.waiters.value ==> m.threads[t].pc.Outside?
  }

  lemma {:induction false} ExecConcat(m: Machine, first: seq<Action>, second: seq<Action>)
    requires m.Valid()
    ensures Exec(m, first).Valid() && Exec(m, first + second) == Exec(Exec(m, first), second)
    decreases |first|
  {
    hide Act, Machine.Valid;
    if first == [] {
      assert first + second == second;
    } else {
      ActKeepsValid(m, first[0]);
      ExecConcat(Act(m, first[0]), first[1..], second);
      assert (first + second)[1..] == first[1..] + second;
    }
  }

  /** Two threads, neither holding a list pointer. */
  function Pair(word: nat, waiters: Option<nat>, pc0: Pc, life0: Life, pc1: Pc, life1: Life, current: nat): Machine {
    Machine(word, waiters, [Thread(pc0, life0, None, None, None), Thread(pc1, life1, None, None, None)], current)
  }

  /** Thread 0 takes the free lock; thread 1 finds it held and is preempted before it marks itself. */
  function Contend(): seq<Action> { [Run(0), Run(0), Timer(1), Run(0), Run(0), Timer(0)] }

  /** Thread 0 releases, sees an empty wait list and leaves. */
  function Release(): seq<Action> { [Run(0), Run(0), Timer(1)] }

  /** Thread 1 goes on: it queues itself behind a free lock and gives up the processor. */
  function Queue(): seq<Action> { [Run(0), Run(0), Run(0), Run(0), Run(0)] }

  /** A run that visits the machines of `m`, one after another. */
  lemma {:induction false} Follow(m: seq<Machine>, run: seq<Action>)
    requires |m| == |run| + 1
    requires forall i :: 0 <= i < |m| ==> m[i].Valid()
    requires forall i :: 0 <= i < |run| ==> Act(m[i], run[i]) == m[i + 1]
    ensures Exec(m[0], run) == m[|run|]
    decreases |run|
  {
    if run != [] {
      Follow(m[1..], run[1..]);
    }
  }

  lemma Contended()
    ensures Start(2).Valid()
    ensures Exec(Start(2), Contend()) == Pair(1, None, Holding, Running, MarkBlocked, Ready, 0)
  {
    var m := [
      Pair(0, None, Outside, Running, Outside, Ready, 0),
      Pair(0, None, TestAndSet, Running, Outside, Ready, 0),
      Pair(1, None, Holding, Running, Outside, Ready, 0),
      Pair(1, None, Holding, Ready, Outside, Running, 1),
      Pair(1, None, Holding, Ready, TestAndSet, Running, 1),
      Pair(1, None, Holding, Ready, MarkBlocked, Running, 1),
      Pair(1, None, Holding, Running, MarkBlocked, Ready, 0)];
    assert Start(2) == m[0];
    Follow(m, Contend());
  }

  lemma Released()
    ensures Exec(Pair(1, None, Holding, Running, MarkBlocked, Ready, 0), Release())
         == Pair(0, None, Outside, Ready, MarkBlocked, Running, 1)
  {
    var m := [
      Pair(1, None, Holding, Running, MarkBlocked, Ready, 0),
      Pair(0, None, TestWaiters, Running, MarkBlocked, Ready, 0),
      Pair(0, None, Outside, Running, MarkBlocked, Ready, 0),
      Pair(0, None, Outside, Ready, MarkBlocked, Running, 1)];
    Follow(m, Release());
  }

  lemma Queued()
    ensures Exec(Pair(0, None, Outside, Ready, MarkBlocked, Running, 1), Queue())
         == Pair(0, Some(1), Outside, Running, TestAndSet, Blocked, 0)
  {
    var m := [
      Pair(0, None, Outside, Ready, MarkBlocked, Running, 1),
      Pair(0, None, Outside, Ready, LoadHead, Blocked, 1),
      Pair(0, None, Outside, Ready, LinkWaiter, Blocked, 1),
      Pair(0, None, Outside, Ready, PushWaiter, Blocked, 1),
      Pair(0, Some(1), Outside, Ready, CallSchedule, Blocked, 1),
      Pair(0, Some(1), Outside, Running, TestAndSet, Blocked, 0)];
    Follow(m, Queue());
  }

  /**
   * The wake-up that is lost: a run of two threads that ends with the lock free,
   * a blocked thread on the wait list, and nobody inside lock or unlock to wake it.
   */
  lemma LostWakeup()
    ensures Stranded(Exec(Start(2), Contend() + Release() + Queue()))
  {
    Contended();
    Released();
    Queued();
    ExecConcat(Start(2), Contend(), Release());
    ExecConcat(Start(2), Contend() + Release(), Queue());
  }
}
