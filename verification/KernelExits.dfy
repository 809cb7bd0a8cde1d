/**
 * Fairness however many blocks exit.  An exit restarts the round at idle, but
 * idle is the head of the queue: from the first exit on only blocks between the
 * head and the waiting one can run before it, and every exit removes one of them.
 */
module KernelExits {
  import opened Options
  import opened PageSet
  import opened KernelState
  import opened KernelInvariant
  import opened KernelRuns
  import opened KernelFairness

  /** Idle was queued first and is never removed. */
  ghost predicate IdleFirst(s: State) {
    s.queue != [] && s.idle == Some(s.queue[0])
  }

  lemma HeadStays(q: seq<nat>, x: nat)
    requires q != [] && q[0] != x
    ensures Without(q, x) != [] && Without(q, x)[0] == q[0]
  {
  }

  lemma SpawnKeepsIdleFirst(s: State, parent: Option<nat>, entry: nat)
    requires |s.slots| == BLOCKS && IdleFirst(s) && (parent.Some? ==> parent.value < BLOCKS)
    ensures IdleFirst(CreateThread(s, parent, entry).0)
  {
    hide AllocPage, FirstDead;
  }

  lemma RemovalKeepsIdleFirst(s: State, op: Op)
    requires Inv(s) && Allowed(s, op) && IdleFirst(s) && (op.Finish? || op.Kill? || op.Delete?)
    ensures IdleFirst(Step(s, op))
  {
    hide Without, Stacks, Names, WaitLists, NoStranded, Contexts, OnNoWaitList, LastRetrier, FreePage, FindPid, FindTid;
    match op
    case Finish(_) => HeadStays(s.queue, s.current.value);
    case Kill(pid) =>
      var found := FindPid(s, s.queue, pid);
      if found.Some? { HeadStays(s.queue, found.value); }
    case Delete(tid) =>
      var found := FindTid(EnsureTcbPool(s).slots, POOL, BLOCKS, tid);
      if found.Some? { HeadStays(s.queue, found.value); }
  }

  lemma CreationKeepsIdleFirst(s: State, op: Op)
    requires Meaningful(s, op) && IdleFirst(s) && (op.Create? || op.New? || op.Spawn?)
    ensures IdleFirst(Step(s, op))
  {
    hide AllocPage, FirstDead, CreateThread;
    match op
    case Spawn(parent, entry) => SpawnKeepsIdleFirst(s, parent, entry);
    case _ =>
  }

  /** Operations that only switch, lock, unlock or store leave the queue alone. */
  lemma QueueIsKept(s: State, op: Op)
    requires Meaningful(s, op) && (op.Tick? || op.Acquire? || op.Release? || op.Store?)
    ensures Step(s, op).queue == s.queue && Step(s, op).idle == s.idle
  {
    hide FirstReady, Rotation;
  }

  lemma StepKeepsIdleFirst(s: State, op: Op)
    requires Inv(s) && Allowed(s, op) && IdleFirst(s)
    ensures IdleFirst(Step(s, op))
  {
    hide Step, Inv;
    if op.Create? || op.New? || op.Spawn? {
      CreationKeepsIdleFirst(s, op);
    } else if op.Finish? || op.Kill? || op.Delete? {
      RemovalKeepsIdleFirst(s, op);
    } else {
      QueueIsKept(s, op);
    }
  }

  lemma {:induction false} RunKeepsIdleFirst(s: State, ops: seq<Op>)
    requires Inv(s) && Lawful(s, ops) && IdleFirst(s)
    ensures IdleFirst(Exec(s, ops))
    decreases |ops|
  {
    hide Inv, IdleFirst;
    if ops != [] {
      StepKeepsInv(s, ops[0]);
      StepKeepsIdleFirst(s, ops[0]);
      RunKeepsIdleFirst(Step(s, ops[0]), ops[1..]);
    }
  }

  lemma ReachedHasIdleFirst(s: State)
    requires Reached(s)
    ensures IdleFirst(s)
  {
    var pages, locks: nat, idleTask: nat, ops :|
      && Sound(pages) && Boot(Blank(pages, locks), idleTask).Some?
      && Lawful(Boot(Blank(pages, locks), idleTask).value, ops)
      && s == Exec(Boot(Blank(pages, locks), idleTask).value, ops);
    BootMakesIdle(pages, locks, idleTask);
    BootEstablishesInv(pages, locks, idleTask);
    RunKeepsIdleFirst(Boot(Blank(pages, locks), idleTask).value, ops);
  }

  // ---- The ranking function ------------------------------------------------

  /** 1 + 2 + ... + n. */
  function Triangle(n: nat): nat { if n == 0 then 0 else n + Triangle(n - 1) }

  lemma {:induction false} TriangleIs(n: nat)
    ensures 2 * Triangle(n) == n * (n + 1)
  {
    if n > 0 { TriangleIs(n - 1); }
  }

  lemma {:induction false} TriangleGrows(m: nat, n: nat)
    requires m <= n
    ensures Triangle(m) <= Triangle(n)
  {
    if m < n { TriangleGrows(m, n - 1); }
  }

  /** The current block stands before `b` on the queue. */
  predicate Ahead(s: State, b: nat)
    requires s.current.Some?
  {
    IndexOf(s.queue, s.current.value) < IndexOf(s.queue, b)
  }

  /** What exits may still cost `b`: one round over the blocks before it for each of those that could exit. */
  function Reserve(s: State, b: nat): nat
    requires s.current.Some?
  {
    var p := IndexOf(s.queue, b);
    if Ahead(s, b) then Triangle(p - 1) else Triangle(p)
  }

  /** `b` gets no farther back, and once the round has come round to before `b` it stays so. */
  ghost predicate KeepsOrder(s: State, s': State, b: nat)
    requires s.current.Some?
  {
    && s'.current.Some?
    && IndexOf(s'.queue, b) <= IndexOf(s.queue, b)
    && (Ahead(s, b) ==> Ahead(s', b))
  }

  lemma ReserveShrinks(s: State, s': State, b: nat)
    requires s.current.Some? && KeepsOrder(s, s', b)
    ensures Reserve(s', b) <= Reserve(s, b)
  {
    hide IndexOf;
    var p, p' := IndexOf(s.queue, b), IndexOf(s'.queue, b);
    TriangleGrows(p', p);
    if Ahead(s, b) {
      TriangleGrows(p' - 1, p - 1);
    } else if Ahead(s', b) {
      TriangleGrows(p' - 1, p);
    }
  }

  lemma SameQueueKeepsOrder(s: State, s': State, b: nat)
    requires s.current.Some? && s'.current == s.current && s'.queue == s.queue
    ensures KeepsOrder(s, s', b)
  {
  }

  lemma AppendKeepsOrder(s: State, s': State, made: Option<nat>, b: nat)
    requires Grows(s, s', made, b) && s.current.Some? && s.current.value in s.queue
    ensures KeepsOrder(s, s', b)
  {
    if made.Some? {
      IndexAfterAppend(s.queue, made.value, b);
      IndexAfterAppend(s.queue, made.value, s.current.value);
    } else {
      assert s'.queue == s.queue;
    }
  }

  lemma RemovalKeepsOrder(s: State, s': State, x: nat, b: nat)
    requires NoDup(s.queue) && s.current.Some? && s.current.value in s.queue && b in s.queue
    requires s'.queue == Without(s.queue, x) && s'.current == s.current && x != b && s.current != Some(x)
    ensures KeepsOrder(s, s', b)
  {
    hide IndexOf, Without, NoDup;
    IndexAfterRemoval(s.queue, x, b);
    IndexAfterRemoval(s.queue, x, s.current.value);
  }

  /** A shorter distance on the same queue: the round has not passed `b`. */
  lemma ForwardKeepsOrder(s: State, s': State, b: nat)
    requires s.current.Some? && s'.current.Some? && s'.queue == s.queue && s'.current != Some(b)
    requires s.current.value in s.queue && s'.current.value in s.queue && b in s.queue
    requires Distance(s', b) <= Distance(s, b)
    ensures KeepsOrder(s, s', b)
  {
    assert IndexOf(s.queue, s'.current.value) != IndexOf(s.queue, b);
  }

  // ---- How one operation changes the rank --------------------------------------

  lemma RetirementKeepsOrder(s: State, op: Op, b: nat)
    requires Inv(s) && Allowed(s, op) && (op.Kill? || op.Delete?) && b in s.queue && b in Step(s, op).queue
    ensures KeepsOrder(s, Step(s, op), b)
  {
    hide Without, IndexOf, Stacks, Names, WaitLists, NoStranded, Contexts, OnNoWaitList, LastRetrier, FreePage;
    hide KeepsOrder, FindPid, FindTid;
    var s' := Step(s, op);
    var found := if op.Kill? then FindPid(s, s.queue, op.pid)
                 else FindTid(EnsureTcbPool(s).slots, POOL, BLOCKS, op.tid);
    if found.Some? {
      WithoutIs(s.queue, found.value);
      RemovalKeepsOrder(s, s', found.value, b);
    } else {
      SameQueueKeepsOrder(s, s', b);
    }
  }

  lemma CreationKeepsOrder(s: State, op: Op, b: nat)
    requires Inv(s) && Allowed(s, op) && (op.Create? || op.New? || op.Spawn?) && b in s.queue && s.slots[b].state.Ready?
    ensures KeepsOrder(s, Step(s, op), b)
  {
    hide CreateProcess, CreateThread, NewBlocked, Stacks, Names, WaitLists, NoStranded, Contexts, KeepsOrder, Nearer;
    match op
    case Create(entry, priority) =>
      CreateBringsNearer(s, entry, priority, b);
      AppendKeepsOrder(s, Step(s, op), CreateProcess(s, entry, priority).1, b);
    case New(entry) =>
      NewBringsNearer(s, entry, b);
      AppendKeepsOrder(s, Step(s, op), CreateProcess(s, entry, 1).1, b);
    case Spawn(parent, entry) =>
      SpawnBringsNearer(s, parent, entry, b);
      AppendKeepsOrder(s, Step(s, op), CreateThread(s, parent, entry).1, b);
  }

  lemma StepKeepsOrder(s: State, op: Op, b: nat)
    requires Inv(s) && Allowed(s, op) && !op.Finish?
    requires b in s.queue && s.slots[b].state.Ready? && b in Step(s, op).queue
    ensures Step(s, op).current == Some(b) || KeepsOrder(s, Step(s, op), b)
  {
    hide Step, KeepsOrder, Stacks, Names, WaitLists, NoStranded, Contexts, Distance, IndexOf;
    if op.Create? || op.New? || op.Spawn? {
      CreationKeepsOrder(s, op, b);
    } else if op.Kill? || op.Delete? {
      RetirementKeepsOrder(s, op, b);
    } else {
      QueueIsKept(s, op);
      StepBringsNearer(s, op, b);
      if Step(s, op).current != Some(b) {
        ForwardKeepsOrder(s, Step(s, op), b);
      }
    }
  }

  /** The distance and what exits may still add to it. */
  ghost function Rank(s: State, b: nat): nat
    requires s.current.Some? && s.current.value in s.queue && b in s.queue
  {
    Distance(s, b) + Reserve(s, b)
  }

  /** The number of blocks an operation makes. */
  function Made(s: State, op: Op): nat
    requires Meaningful(s, op)
  {
    if op.Finish? then 0 else Delay(s, op)
  }

  /** `b` is current, or READY with a rank lowered by `gain` and raised by at most `owed`. */
  ghost predicate Lower(s: State, s': State, b: nat, gain: nat, owed: nat)
    requires s.current.Some? && s.current.value in s.queue && b in s.queue
  {
    && s'.WellFormed() && s'.current.Some? && s'.current.value in s'.queue
    && (s'.current == Some(b) ||
          (b in s'.queue && s'.slots[b].state.Ready? && Rank(s', b) + gain <= Rank(s, b) + owed))
  }

  /** An exit: the round restarts at the head, so every block before `b` comes round once more, but one is gone. */
  lemma ExitLowersRank(s: State, esp: nat, b: nat)
    requires Inv(s) && IdleFirst(s) && Allowed(s, Finish(esp))
    requires b in s.queue && s.slots[b].state.Ready? && s.current != Some(b)
    ensures Lower(s, Exit(s, esp), b, 0, 0)
  {
    hide Stacks, Names, WaitLists, NoStranded, Contexts, Without, IndexOf, FreePage, ContextSwitch;
    var s', c := Exit(s, esp), s.current.value;
    ExitKeepsInv(s, esp);
    StepKeepsIdleFirst(s, Finish(esp));
    WithoutIs(s.queue, c);
    IndexAfterRemoval(s.queue, c, b);
    ExitEffect(s, esp, b);
    if s'.current != Some(b) {
      ExitRank(s, s', b);
    }
  }

  lemma ExitEffect(s: State, esp: nat, b: nat)
    requires Inv(s) && s.current != s.idle && b in s.queue && s.slots[b].state.Ready? && s.current != Some(b)
    ensures (var s' := Exit(s, esp);
      && s'.queue == Without(s.queue, s.current.value) && s'.current == s.idle && s'.idle == s.idle
      && |s'.slots| == BLOCKS && (s.idle != Some(b) ==> s'.slots[b] == s.slots[b]))
  {
    hide Stacks, Names, WaitLists, NoStranded, Contexts, Without, FreePage;
  }

  lemma ExitRank(s: State, s': State, b: nat)
    requires s.current.Some? && s.current.value in s.queue && b in s.queue && s.current != Some(b)
    requires NoDup(s'.queue) && s'.current.Some? && s'.queue != [] && s'.current == Some(s'.queue[0])
    requires b in s'.queue && s'.current != Some(b)
    requires IndexOf(s'.queue, b) == IndexOf(s.queue, b) - if Ahead(s, b) then 1 else 0
    ensures Rank(s', b) <= Rank(s, b)
  {
    IndexInverts(s'.queue, 0);
    assert IndexOf(s'.queue, b) > 0;
  }

  lemma StepLowersRank(s: State, op: Op, b: nat)
    requires Inv(s) && IdleFirst(s) && Allowed(s, op) && s.current != Some(b)
    requires b in s.queue && s.slots[b].state.Ready? && b in Step(s, op).queue
    ensures Lower(s, Step(s, op), b, Calls(s, op), Made(s, op))
  {
    hide Reserve, Distance, KeepsOrder, Exit, Stacks, Names, WaitLists, NoStranded, Contexts;
    if op.Finish? {
      ExitLowersRank(s, op.esp, b);
    } else {
      StepBringsNearer(s, op, b);
      StepKeepsOrder(s, op, b);
      if Step(s, op).current != Some(b) {
        ReserveShrinks(s, Step(s, op), b);
      }
    }
  }

  // ---- The run -------------------------------------------------------------------

  ghost function TotalMade(s: State, ops: seq<Op>): nat
    requires Lawful(s, ops)
    decreases |ops|
  {
    if ops == [] then 0 else Made(s, ops[0]) + TotalMade(Step(s, ops[0]), ops[1..])
  }

  lemma {:induction false} RankRunsOut(s: State, ops: seq<Op>, b: nat)
    requires Inv(s) && IdleFirst(s) && Lawful(s, ops) && Kept(s, ops, b) && s.slots[b].state.Ready?
    requires TotalCalls(s, ops) >= Rank(s, b) + TotalMade(s, ops)
    ensures Dispatched(s, ops, b)
    decreases |ops|
  {
    hide Rank, Made, Calls, Step, Stacks, Names, WaitLists, NoStranded, Contexts, IdleFirst;
    if ops != [] && s.current != Some(b) {
      var s' := Step(s, ops[0]);
      StepLowersRank(s, ops[0], b);
      StepKeepsInv(s, ops[0]);
      StepKeepsIdleFirst(s, ops[0]);
      if s'.current != Some(b) {
        RankRunsOut(s', ops[1..], b);
      }
    } else if ops == [] {
      RankIsPositive(s, b);
    }
  }

  lemma RankIsPositive(s: State, b: nat)
    requires s.current.Some? && s.current.value in s.queue && b in s.queue
    ensures Rank(s, b) > 0
  {
  }

  /**
   * Fairness without regard to exits: a READY block that is not removed is dispatched within (its
   * circular distance + the number of blocks created meanwhile + p(p+1)/2) calls of schedule(), where p
   * is its index on the queue, however many other blocks exit, are removed, block or wake meanwhile.
   */
  lemma FairnessDespiteExits(s: State, ops: seq<Op>, b: nat)
    requires Inv(s) && IdleFirst(s) && Lawful(s, ops) && Kept(s, ops, b) && s.slots[b].state.Ready?
    requires (var p := IndexOf(s.queue, b);
              TotalCalls(s, ops) >= Distance(s, b) + TotalMade(s, ops) + p * (p + 1) / 2)
    ensures Dispatched(s, ops, b)
  {
    hide Inv, IdleFirst, Lawful, Kept, Dispatched, TotalCalls, TotalMade, IndexOf, Distance;
    var p := IndexOf(s.queue, b);
    TriangleIs(p);
    if p > 0 { TriangleGrows(p - 1, p); }
    RankRunsOut(s, ops, b);
  }
}
