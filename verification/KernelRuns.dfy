/**
 * Whole runs of the kernel from scheduler_init: the invariant holds in every
 * reachable state, blocks plus free pages are conserved, every stack pointer
 * loaded is the right one, and a waiting thread waits until an unlock wakes it.
 */
module KernelRuns {
  import opened Options
  import opened PageSet
  import opened KernelState
  import opened KernelInvariant

  /** The static storage before scheduler_init: every field zero, and state 0 is READY. */
  function Zeroed(pages: Pages, locks: nat): State {
    State(seq(BLOCKS, _ => Slot(0, Ready, 0, 0, 0, 0, None)), [], None, None, 0, 0, false,
          pages, map[], seq(locks, _ => Lock(0, [])), map[], [])
  }

  function Cleared(slot: Slot): Slot {
    slot.(pid := 0, state := Dead, priority := 0, esp := 0, stackBase := 0)
  }

  /** The first loop of scheduler_init: the PCB pool is dead and cleared. */
  function ClearPcbs(s: State): State
    requires |s.slots| == BLOCKS
  {
    s.(slots := seq(BLOCKS, i requires 0 <= i < BLOCKS => if i < POOL then Cleared(s.slots[i]) else s.slots[i]))
  }

  function Blank(pages: Pages, locks: nat): State {
    ClearPcbs(Zeroed(pages, locks))
  }

  /** scheduler_init: the first process becomes idle, current and RUNNING. */
  function Boot(s: State, idleTask: nat): Option<State>
    requires |s.slots| == BLOCKS
  {
    var (s1, made) := CreateProcess(s, idleTask, 0);
    match made
    case None => None
    case Some(i) => Some(s1.(idle := made, current := made).With(i, Running))
  }

  lemma BlankIsShaped(pages: Pages, locks: nat)
    ensures Shape(Blank(pages, locks))
  {
    assert forall i: nat :: !Live(Blank(pages, locks), i);
  }

  /** The one process that a successful scheduler_init leaves behind. */
  ghost predicate Booted(s: State, before: Pages, stack: nat, idleTask: nat) {
    && |s.slots| == BLOCKS && s.queue == [0] && s.current == Some(0) && s.idle == Some(0)
    && s.slots[0] == Slot(1, Running, 0, stack + 4092, stack, 0, None)
    && (forall i :: 0 < i < POOL ==> s.slots[i].state.Dead? && s.slots[i].pid == 0)
    && s.nextPid == 1 && s.nextTid == 0 && !s.tcbReady
    && (s.pages, stack) == AllocPage(before) && stack != 0
    && (forall l :: 0 <= l < |s.locks| ==> s.locks[l] == Lock(0, []))
    && s.looping == map[] && s.log == [Created(0, stack + 4092, idleTask)]
  }

  lemma BootMakesIdle(pages: Pages, locks: nat, idleTask: nat)
    ensures var r, stack := Boot(Blank(pages, locks), idleTask), AllocPage(pages).1;
            && (r.None? <==> stack == 0)
            && (r.Some? ==> Booted(r.value, pages, stack, idleTask))
  {
    hide AllocPage;
    var s := Blank(pages, locks);
    assert s.slots[0].state.Dead? && s.slots[0].pid == 0;
    assert FirstDead(s.slots, 0, POOL, true) == Some(0);
  }

  lemma BootedIsSeated(s: State, pages: Pages, stack: nat, idleTask: nat)
    requires Booted(s, pages, stack, idleTask)
    ensures Shape(s) && Seated(s) && Roles(s) && Names(s)
  {
    hide AllocPage;
    assert forall i: nat :: i in s.queue <==> i == 0;
    assert forall i: nat :: Live(s, i) <==> i == 0;
  }

  lemma BootedOwnsItsStack(s: State, pages: Pages, stack: nat, idleTask: nat)
    requires Booted(s, pages, stack, idleTask) && Sound(pages)
    ensures Stacks(s)
  {
    hide AllocPage;
    AllocIsFresh(pages);
    assert forall i: nat :: i in s.queue <==> i == 0;
  }

  lemma BootedHasNoWaiters(s: State, pages: Pages, stack: nat, idleTask: nat)
    requires Booted(s, pages, stack, idleTask)
    ensures WaitLists(s) && NoStranded(s)
  {
    hide AllocPage;
    assert forall l: nat, i: nat :: l < |s.locks| ==> !Waits(s, l, i);
  }

  lemma BootedHasLoadedNothing(s: State, pages: Pages, stack: nat, idleTask: nat)
    requires Booted(s, pages, stack, idleTask)
    ensures Contexts(s)
  {
    hide AllocPage;
    assert s.log[..0] == [] && GoodLog(s.log[..0], s.idle);
  }

  /** scheduler_init fails exactly when no page can be allocated, and otherwise establishes the invariant. */
  lemma BootEstablishesInv(pages: Pages, locks: nat, idleTask: nat)
    requires Sound(pages)
    ensures var r := Boot(Blank(pages, locks), idleTask);
            && (r.None? <==> AllocPage(pages).1 == 0)
            && (r.Some? ==> Inv(r.value))
  {
    hide AllocPage, Booted, Boot, Shape, Seated, Roles, Stacks, Names, WaitLists, NoStranded, Contexts;
    BootMakesIdle(pages, locks, idleTask);
    var r, stack := Boot(Blank(pages, locks), idleTask), AllocPage(pages).1;
    if r.Some? {
      BootedIsSeated(r.value, pages, stack, idleTask);
      BootedOwnsItsStack(r.value, pages, stack, idleTask);
      BootedHasNoWaiters(r.value, pages, stack, idleTask);
      BootedHasLoadedNothing(r.value, pages, stack, idleTask);
    }
  }

  // ---- Runs --------------------------------------------------------------

  ghost predicate Lawful(s: State, ops: seq<Op>)
    decreases |ops|
  {
    ops == [] || (Allowed(s, ops[0]) && Lawful(Step(s, ops[0]), ops[1..]))
  }

  ghost function Exec(s: State, ops: seq<Op>): State
    requires Lawful(s, ops)
    decreases |ops|
  {
    if ops == [] then s else Exec(Step(s, ops[0]), ops[1..])
  }

  /** Reached by some lawful run from scheduler_init on some sound page set. */
  ghost predicate Reached(s: State) {
    exists pages, locks: nat, idleTask: nat, ops ::
      && Sound(pages) && Boot(Blank(pages, locks), idleTask).Some?
      && Lawful(Boot(Blank(pages, locks), idleTask).value, ops)
      && s == Exec(Boot(Blank(pages, locks), idleTask).value, ops)
  }

  lemma BootIsReached(pages: Pages, locks: nat, idleTask: nat)
    requires Sound(pages) && Boot(Blank(pages, locks), idleTask).Some?
    ensures Reached(Boot(Blank(pages, locks), idleTask).value)
  {
    hide Boot;
    var s := Boot(Blank(pages, locks), idleTask).value;
    assert Lawful(s, []) && s == Exec(s, []);
  }

  lemma StepIsMeaningful(s: State, op: Op)
    requires Allowed(s, op)
    ensures Meaningful(s, op)
  {
  }

  lemma {:induction false} RunKeepsInv(s: State, ops: seq<Op>)
    requires Inv(s) && Lawful(s, ops)
    ensures Inv(Exec(s, ops))
    decreases |ops|
  {
    if ops != [] {
      StepKeepsInv(s, ops[0]);
      RunKeepsInv(Step(s, ops[0]), ops[1..]);
    }
  }

  lemma ReachedKeepsInv(s: State)
    requires Reached(s)
    ensures Inv(s)
  {
    var pages, locks: nat, idleTask: nat, ops :|
      && Sound(pages) && Boot(Blank(pages, locks), idleTask).Some?
      && Lawful(Boot(Blank(pages, locks), idleTask).value, ops)
      && s == Exec(Boot(Blank(pages, locks), idleTask).value, ops);
    BootEstablishesInv(pages, locks, idleTask);
    RunKeepsInv(Boot(Blank(pages, locks), idleTask).value, ops);
  }

  // ---- Conservation ------------------------------------------------------

  ghost function LiveBlocks(s: State): set<nat>
    requires |s.slots| == BLOCKS
  {
    set i: nat | i < BLOCKS && Live(s, i)
  }

  ghost function Members(q: seq<nat>): set<nat> { set i: nat | i in q }

  lemma {:induction false} DistinctCount(q: seq<nat>)
    requires NoDup(q)
    ensures |Members(q)| == |q|
  {
    if q != [] {
      var rest, x := q[..|q| - 1], q[|q| - 1];
      DistinctCount(rest);
      assert q == rest + [x] && x !in rest;
      assert Members(q) == Members(rest) + {x};
    }
  }

  lemma LiveBlocksAreQueued(s: State)
    requires Shape(s)
    ensures |LiveBlocks(s)| == |s.queue|
  {
    DistinctCount(s.queue);
    assert LiveBlocks(s) == Members(s.queue);
  }

  function Wealth(s: State): nat { |s.pages.free| + |s.queue| }

  lemma RetireConserves(s: State, i: nat, slot: Slot)
    requires Shape(s) && Sound(s.pages) && i in s.queue && OwnsPage(s.pages, s.slots[i].stackBase)
    ensures Wealth(Retire(s, i, slot)) == Wealth(s)
  {
    WithoutIs(s.queue, i);
    FreeAddsOne(s.pages, s.slots[i].stackBase);
  }

  lemma CreateConserves(s: State, entry: nat, priority: nat)
    requires Sound(s.pages) && |s.slots| == BLOCKS
    ensures Wealth(CreateProcess(s, entry, priority).0) == Wealth(s)
  {
    AllocIsFresh(s.pages);
  }

  lemma SpawnConserves(s: State, parent: Option<nat>, entry: nat)
    requires Sound(s.pages) && |s.slots| == BLOCKS && (parent.Some? ==> parent.value < BLOCKS)
    ensures Wealth(CreateThread(s, parent, entry).0) == Wealth(s)
  {
    AllocIsFresh(s.pages);
  }

  lemma DeleteConserves(s: State, tid: nat)
    requires Shape(s) && Stacks(s)
    ensures Wealth(ThreadDelete(s, tid)) == Wealth(s)
  {
    EnsureTcbPoolKeepsShape(s);
    var t := EnsureTcbPool(s);
    var found := FindTid(t.slots, POOL, BLOCKS, tid);
    if found.Some? {
      assert Live(t, found.value);
      RetireConserves(t, found.value, t.slots[found.value].(state := Dead, stackBase := 0, tid := 0));
    }
  }

  lemma ScheduleConserves(s: State, esp: nat)
    requires s.WellFormed() && s.idle.Some?
    ensures Wealth(Schedule(s, esp)) == Wealth(s)
  {
  }

  lemma StepConserves(s: State, op: Op)
    requires Inv(s) && Allowed(s, op)
    ensures Wealth(Step(s, op)) == Wealth(s)
  {
    match op
    case Create(entry, priority) => CreateConserves(s, entry, priority);
    case New(entry) => CreateConserves(s, entry, 1);
    case Spawn(parent, entry) => SpawnConserves(s, parent, entry);
    case Tick(esp) => ScheduleConserves(s, esp);
    case Finish(esp) =>
      var i := s.current.value;
      RetireConserves(s, i, s.slots[i].(state := Dead, pid := 0, stackBase := 0, esp := 0));
    case Kill(pid) =>
      var found := FindPid(s, s.queue, pid);
      if found.Some? {
        RetireConserves(s, found.value, s.slots[found.value].(state := Dead, stackBase := 0, pid := 0));
      }
    case Delete(tid) => DeleteConserves(s, tid);
    case Acquire(l, esp) =>
      if s.locks[l].word != 0 {
        ScheduleConserves(Park(s, l), esp);
      }
    case Release(l) =>
    case Store(address, value) =>
  }

  /** Free pages plus live blocks never change, over any run. */
  lemma {:induction false} RunConserves(s: State, ops: seq<Op>)
    requires Inv(s) && Lawful(s, ops)
    ensures var s' := Exec(s, ops);
            Inv(s') && |s'.pages.free| + |LiveBlocks(s')| == |s.pages.free| + |LiveBlocks(s)|
    decreases |ops|
  {
    if ops != [] {
      StepConserves(s, ops[0]);
      StepKeepsInv(s, ops[0]);
      LiveBlocksAreQueued(s);
      LiveBlocksAreQueued(Step(s, ops[0]));
      RunConserves(Step(s, ops[0]), ops[1..]);
    }
  }

  /** create_process fails exactly when all 64 slots are live or no page is left, and then changes nothing. */
  lemma FailedCreateChangesNothing(s: State, entry: nat, priority: nat)
    requires Inv(s)
    ensures var (s', made) := CreateProcess(s, entry, priority);
            && (made.None? <==>
                  || (forall i: nat :: i < POOL ==> Live(s, i))
                  || (forall p: nat :: p < Reachable(s.pages.total) ==> p !in s.pages.free))
            && (made.None? ==> s' == s)
  {
    AllocIsFresh(s.pages);
    PickPcbIsDead(s);
  }

  /** No TCB is dead exactly when all 64 are live. */
  lemma NoDeadTcb(s: State)
    requires |s.slots| == BLOCKS
    ensures (var picked := FirstDead(EnsureTcbPool(s).slots, POOL, BLOCKS, false);
             picked.None? <==> forall i: nat :: POOL <= i < BLOCKS ==> Live(s, i))
  {
    hide FirstDead;
    var t := EnsureTcbPool(s);
    assert forall i: nat :: POOL <= i < BLOCKS ==> (Live(s, i) <==> !t.slots[i].state.Dead?);
    if !s.tcbReady {
      assert t.slots[POOL].state.Dead? && !Live(s, POOL);
    }
  }

  /** The same for create_thread, which may still mark the untouched TCB pool dead. */
  lemma FailedSpawnChangesNothing(s: State, parent: Option<nat>, entry: nat)
    requires Inv(s) && (parent.Some? ==> parent.value < BLOCKS)
    ensures var (s', made) := CreateThread(s, parent, entry);
            && (made.None? <==>
                  || (forall i: nat :: POOL <= i < BLOCKS ==> Live(s, i))
                  || (forall p: nat :: p < Reachable(s.pages.total) ==> p !in s.pages.free))
            && (made.None? ==> s' == EnsureTcbPool(s))
  {
    hide Contexts, WaitLists, NoStranded, Names, Seated, Shape, AllocPage, FirstDead, Live;
    AllocIsFresh(s.pages);
    NoDeadTcb(s);
  }

  // ---- When a removal is safe --------------------------------------------

  /** Those about to retry once a block has gone were so before, and are others. */
  lemma RetriersAfterRemoval(s: State, s': State, i: nat)
    requires |s.slots| == BLOCKS == |s'.slots| && s'.looping == s.looping - {i}
    requires forall t :: 0 <= t < BLOCKS && t != i ==> s'.slots[t].state.Blocked? == s.slots[t].state.Blocked?
    ensures forall l: nat, t: nat :: AboutToRetry(s', l, t) ==> AboutToRetry(s, l, t) && t != i
  {
  }

  /** What goes wrong otherwise: the queue loses current or idle, a wait list keeps a dead block, or a waiter is stranded. */
  lemma RetireBreaksInv(s: State, i: nat, slot: Slot)
    requires Inv(s) && i in s.queue && !Removable(s, i)
    ensures !Inv(Retire(s, i, slot))
  {
    hide Without, IndexOf, FreePage, Stacks, Names, Contexts;
    if s.current == Some(i) || s.idle == Some(i) {
      WithoutIs(s.queue, i);
      assert i !in Retire(s, i, slot).queue;
    } else if !OnNoWaitList(s, i) {
      DeadWaiterStays(s, i, slot);
    } else {
      RetriersAfterRemoval(s, Retire(s, i, slot), i);
    }
  }

  lemma DeadWaiterStays(s: State, i: nat, slot: Slot)
    requires |s.slots| == BLOCKS && i < BLOCKS && !OnNoWaitList(s, i)
    ensures !WaitLists(Retire(s, i, slot))
  {
    hide Without, FreePage;
    var s' := Retire(s, i, slot);
    var l: nat :| l < |s.locks| && i in s.locks[l].waiters;
    assert !Waits(s', l, i);
  }

  /** killprocess keeps the invariant exactly when its target, if there is one, may be removed. */
  lemma KillIsSafeExactlyWhen(s: State, pid: nat)
    requires Inv(s)
    ensures var found := FindPid(s, s.queue, pid);
            Inv(KillProcess(s, pid)) <==> (found.Some? ==> Removable(s, found.value))
  {
    hide Contexts, Stacks, Names, WaitLists, NoStranded, Retire, Removable;
    var found := FindPid(s, s.queue, pid);
    if found.Some? && !Removable(s, found.value) {
      RetireBreaksInv(s, found.value, s.slots[found.value].(state := Dead, stackBase := 0, pid := 0));
    } else {
      KillKeepsInv(s, pid);
    }
  }

  /** And so does thread_delete. */
  lemma DeleteIsSafeExactlyWhen(s: State, tid: nat)
    requires Inv(s)
    ensures var found := FindTid(EnsureTcbPool(s).slots, POOL, BLOCKS, tid);
            Inv(ThreadDelete(s, tid)) <==> (found.Some? ==> Removable(s, found.value))
  {
    hide Contexts, Stacks, Names, WaitLists, NoStranded, Retire, Removable;
    EnsureTcbPoolKeepsInv(s);
    var t := EnsureTcbPool(s);
    var found := FindTid(t.slots, POOL, BLOCKS, tid);
    if found.Some? && !Removable(s, found.value) {
      PoolKeepsRemovable(s, tid);
      RetireBreaksInv(t, found.value, t.slots[found.value].(state := Dead, stackBase := 0, tid := 0));
    } else {
      DeleteKeepsInv(s, tid);
    }
  }

  /** process_exit keeps it exactly when the caller is neither idle nor the last to retry a free lock with waiters. */
  lemma ExitIsSafeExactlyWhen(s: State, esp: nat)
    requires Inv(s)
    ensures Inv(Exit(s, esp)) <==> s.current != s.idle && !LastRetrier(s, s.current.value)
  {
    if s.current == s.idle {
      WithoutIs(s.queue, s.current.value);
      assert s.current.value !in Exit(s, esp).queue;
    } else if LastRetrier(s, s.current.value) {
      StrandedByExit(s, esp);
    } else {
      ExitKeepsInv(s, esp);
    }
  }

  lemma StrandedByExit(s: State, esp: nat)
    requires Inv(s) && s.current != s.idle && LastRetrier(s, s.current.value)
    ensures !NoStranded(Exit(s, esp))
  {
    RetriersAfterRemoval(s, Exit(s, esp), s.current.value);
  }

  /**
   * The pid that ps prints for a process makes killprocess remove that process and no other,
   * safely exactly when it is neither current nor idle.
   */
  lemma KillRemovesExactly(s: State, i: nat)
    requires Inv(s) && i < POOL && Live(s, i)
    ensures var s' := KillProcess(s, s.slots[i].pid);
            && LiveBlocks(s') == LiveBlocks(s) - {i}
            && (Inv(s') <==> s.current != Some(i) && s.idle != Some(i))
  {
    hide Contexts, Stacks, NoStranded;
    assert FindPid(s, s.queue, s.slots[i].pid) == Some(i);
    assert forall l: nat :: l < |s.locks| ==> !Waits(s, l, i);
    KillIsSafeExactlyWhen(s, s.slots[i].pid);
  }

  /** A pid is found exactly when a live block has it, and that block is a thread exactly when the pid is 0. */
  lemma KillHitsAThreadExactlyWhen(s: State, pid: nat)
    requires Inv(s)
    ensures var found := FindPid(s, s.queue, pid);
            && (found.Some? ==> (POOL <= found.value <==> pid == 0))
            && (found.Some? <==> exists i: nat :: Live(s, i) && s.slots[i].pid == pid)
  {
    hide Stacks, WaitLists, NoStranded, Contexts;
    assert forall i: nat :: i in s.queue ==> (s.slots[i].pid == 0 <==> POOL <= i);
    var found := FindPid(s, s.queue, pid);
    if found.Some? {
      assert Live(s, found.value);
    }
  }

  /** A nonzero pid kills the one process that has it, or nothing. */
  lemma NonzeroPidKillsItsProcess(s: State, pid: nat)
    requires Inv(s) && pid != 0
    ensures var found, s' := FindPid(s, s.queue, pid), KillProcess(s, pid);
            && (found.None? ==> s' == s)
            && (found.Some? ==>
                  && found.value < POOL && s.slots[found.value].pid == pid
                  && LiveBlocks(s') == LiveBlocks(s) - {found.value})
  {
    hide Stacks, WaitLists, NoStranded, Contexts, Names, Seated, Roles, Retire, LiveBlocks;
    KillHitsAThreadExactlyWhen(s, pid);
    var found := FindPid(s, s.queue, pid);
    if found.Some? {
      assert Live(s, found.value);
      KillRemovesExactly(s, found.value);
    }
  }

  // ---- Waiting -----------------------------------------------------------

  /** Still blocked on lock `l` and not running. */
  ghost predicate StillWaits(s: State, l: nat, t: nat)
    requires |s.slots| == BLOCKS
  {
    Waits(s, l, t) && s.current != Some(t)
  }

  lemma DispatchLeavesWaiting(s: State, next: nat, esp: nat, l: nat, t: nat)
    requires s.WellFormed() && s.current.Some? && next < BLOCKS && next != t && StillWaits(s, l, t)
    ensures StillWaits(Dispatch(s, next, esp), l, t)
  {
  }

  lemma ScheduleLeavesWaiting(s: State, esp: nat, l: nat, t: nat)
    requires s.WellFormed() && s.current.Some? && s.idle.Some? && s.idle != Some(t) && StillWaits(s, l, t)
    ensures |Schedule(s, esp).slots| == BLOCKS && StillWaits(Schedule(s, esp), l, t)
  {
    match FirstReady(s.slots, Rotation(s))
    case Some(next) => DispatchLeavesWaiting(s, next, esp, l, t);
    case None => DispatchLeavesWaiting(s, s.idle.value, esp, l, t);
  }

  lemma CreateLeavesWaiting(s: State, entry: nat, priority: nat, l: nat, t: nat)
    requires Shape(s) && StillWaits(s, l, t) && t in s.queue
    ensures StillWaits(CreateProcess(s, entry, priority).0, l, t)
  {
    PickPcbIsDead(s);
  }

  lemma NewLeavesWaiting(s: State, entry: nat, l: nat, t: nat)
    requires Shape(s) && StillWaits(s, l, t) && t in s.queue
    ensures |NewBlocked(s, entry).slots| == BLOCKS && StillWaits(NewBlocked(s, entry), l, t)
  {
    CreateLeavesWaiting(s, entry, 1, l, t);
  }

  lemma SpawnLeavesWaiting(s: State, parent: Option<nat>, entry: nat, l: nat, t: nat)
    requires Shape(s) && StillWaits(s, l, t) && t in s.queue && (parent.Some? ==> parent.value < BLOCKS)
    ensures |CreateThread(s, parent, entry).0.slots| == BLOCKS && StillWaits(CreateThread(s, parent, entry).0, l, t)
  {
    assert EnsureTcbPool(s).slots[t] == s.slots[t];
  }

  lemma RemovalLeavesWaiting(s: State, op: Op, l: nat, t: nat)
    requires Shape(s) && Roles(s) && WaitLists(s) && Waits(s, l, t)
    requires (op.Finish? || op.Kill? || op.Delete?) && Allowed(s, op)
    ensures StillWaits(Step(s, op), l, t)
  {
  }

  lemma UnlockEndsOneWait(s: State, k: nat, l: nat, t: nat)
    requires Shape(s) && Roles(s) && WaitLists(s) && k < |s.locks| && l < |s.locks| && Waits(s, l, t)
    ensures var s' := Unlock(s, k);
            if k == l && s.locks[l].waiters[0] == t
            then AboutToRetry(s', l, t) && s'.slots[t].state.Ready?
            else StillWaits(s', l, t)
  {
    var w := s.locks[k].waiters;
    assert t in s.locks[l].waiters;
    assert w != [] ==> Waits(s, k, w[0]);
  }

  lemma AttemptLeavesWaiting(s: State, k: nat, esp: nat, l: nat, t: nat)
    requires Shape(s) && Roles(s) && WaitLists(s) && MayLock(s, k) && Waits(s, l, t)
    ensures |LockAttempt(s, k, esp).slots| == BLOCKS && StillWaits(LockAttempt(s, k, esp), l, t)
  {
    if s.locks[k].word != 0 {
      ScheduleLeavesWaiting(Park(s, k), esp, l, t);
    }
  }

  /** One step ends a wait only by being the unlock that pops that very thread. */
  lemma WaitEndsByUnlock(s: State, op: Op, l: nat, t: nat)
    requires Shape(s) && Roles(s) && WaitLists(s) && Allowed(s, op) && l < |s.locks| && Waits(s, l, t)
    ensures var s' := Step(s, op);
            && |s'.slots| == BLOCKS
            && if op == Release(l) && s.locks[l].waiters[0] == t
               then AboutToRetry(s', l, t) && s'.slots[t].state.Ready?
               else StillWaits(s', l, t)
  {
    assert t in s.locks[l].waiters;
    match op
    case Create(entry, priority) => CreateLeavesWaiting(s, entry, priority, l, t);
    case New(entry) => NewLeavesWaiting(s, entry, l, t);
    case Spawn(parent, entry) => SpawnLeavesWaiting(s, parent, entry, l, t);
    case Tick(esp) => ScheduleLeavesWaiting(s, esp, l, t);
    case Finish(_) => RemovalLeavesWaiting(s, op, l, t);
    case Kill(_) => RemovalLeavesWaiting(s, op, l, t);
    case Delete(_) => RemovalLeavesWaiting(s, op, l, t);
    case Acquire(k, esp) => AttemptLeavesWaiting(s, k, esp, l, t);
    case Release(k) => UnlockEndsOneWait(s, k, l, t);
    case Store(_, _) =>
  }

  /** schedule() does not come back to a thread blocked in mutex_lock before an unlock wakes it. */
  lemma {:induction false} WaitLastsUntilUnlock(s: State, ops: seq<Op>, l: nat, t: nat)
    requires Inv(s) && Lawful(s, ops) && l < |s.locks| && Waits(s, l, t)
    requires Release(l) !in ops
    ensures Inv(Exec(s, ops)) && StillWaits(Exec(s, ops), l, t)
    decreases |ops|
  {
    if ops != [] {
      StepKeepsInv(s, ops[0]);
      WaitEndsByUnlock(s, ops[0], l, t);
      WaitLastsUntilUnlock(Step(s, ops[0]), ops[1..], l, t);
    }
  }

  // ---- Contexts ----------------------------------------------------------

  /** GoodLog read position by position. */
  lemma {:induction false} LoadsAreJustified(log: seq<Event>, idle: Option<nat>, k: nat)
    requires GoodLog(log, idle) && k < |log|
    ensures Justified(log[..k], log[k], idle)
  {
    var front := log[..|log| - 1];
    if k < |front| {
      LoadsAreJustified(front, idle, k);
      assert front[..k] == log[..k];
    }
  }

  /** Where block `i`'s latest event stands in the log. */
  lemma {:induction false} LastTouchAt(log: seq<Event>, i: nat) returns (c: nat)
    requires LastTouch(log, i).Some?
    ensures c < |log| && log[c] == LastTouch(log, i).value
    ensures forall j :: c < j < |log| ==> log[j].id != i
  {
    c := |log| - 1;
    if log[c].id != i {
      c := LastTouchAt(log[..c], i);
    }
  }

  /** Event `c` set the stack pointer that event `k` loads, and nothing concerned that block in between. */
  predicate SetFor(log: seq<Event>, c: nat, k: nat)
    requires c < k < |log|
  {
    && log[c].id == log[k].id && !log[c].Loaded? && log[c].esp == log[k].esp
    && forall j :: c < j < k ==> log[j].id != log[k].id
  }

  lemma LoadIsRight(log: seq<Event>, idle: Option<nat>, k: nat) returns (c: nat)
    requires GoodLog(log, idle) && k < |log| && log[k].Loaded?
    ensures c < k && SetFor(log, c, k)
    ensures log[c].Created? ==> log[k].eip == Some(log[c].entry) && (log[k].esp + 4) % 4096 == 0
    ensures idle == Some(log[k].id) ==> log[c].Saved?
  {
    hide GoodLog, LastTouch;
    LoadsAreJustified(log, idle, k);
    c := LastTouchAt(log[..k], log[k].id);
  }

  /**
   * In every reachable state, each stack pointer context_switch has loaded was set by the block's
   * own previous event: either its creation, and then this is its first dispatch, control went to its
   * entry function and the return left the stack pointer at the end of a page, or its most recent
   * switch-out.  So nothing is resumed twice, and idle is only ever resumed where it left off.
   */
  lemma EveryLoadIsRight(s: State, k: nat) returns (c: nat)
    requires Reached(s) && k < |s.log| && s.log[k].Loaded?
    ensures c < k && SetFor(s.log, c, k)
    ensures s.log[c].Created? ==> s.log[k].eip == Some(s.log[c].entry) && (s.log[k].esp + 4) % 4096 == 0
    ensures s.idle == Some(s.log[k].id) ==> s.log[c].Saved?
  {
    hide Reached, GoodLog, Shape, Seated, Stacks, Names, WaitLists, NoStranded, SetFor;
    ReachedKeepsInv(s);
    c := LoadIsRight(s.log, s.idle, k);
  }

  /** Between two loads of one block it was switched out, or died and was created anew. */
  lemma NothingIsResumedTwice(s: State, j: nat, k: nat)
    requires Reached(s) && j < k < |s.log|
    requires s.log[j].Loaded? && s.log[k].Loaded? && s.log[j].id == s.log[k].id
    ensures exists c :: j < c < k && s.log[c].id == s.log[k].id && !s.log[c].Loaded?
  {
    hide Reached;
    var c := EveryLoadIsRight(s, k);
    assert j != c;
    assert !(c < j < k);
  }
}
