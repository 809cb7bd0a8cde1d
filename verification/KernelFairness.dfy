/**
 * schedule() as a circular search, and round-robin fairness over whole runs
 * with the circular distance from the current block as ranking function.
 */
module KernelFairness {
  import opened Options
  import opened PageSet
  import opened KernelState
  import opened KernelInvariant
  import opened KernelRuns

  /** How many links schedule() follows from the current block to reach `b`. */
  function Distance(s: State, b: nat): (d: nat)
    requires s.current.Some? && s.current.value in s.queue && b in s.queue
    ensures 1 <= d <= |s.queue|
  {
    Gap(|s.queue|, IndexOf(s.queue, s.current.value), IndexOf(s.queue, b))
  }

  /** From position `p` forward to position `k` in a ring of `n`; a full turn when they are equal. */
  function Gap(n: nat, p: nat, k: nat): (d: nat)
    requires p < n && k < n
    ensures 1 <= d <= n
  {
    if k > p then k - p else k - p + n
  }

  /** The block `d` links after the current one, wrapping from the tail to the head. */
  function After(s: State, d: nat): nat
    requires s.current.Some? && s.current.value in s.queue && 1 <= d <= |s.queue|
  {
    var p := IndexOf(s.queue, s.current.value);
    if p + d < |s.queue| then s.queue[p + d] else s.queue[p + d - |s.queue|]
  }

  lemma RotationIsCircular(s: State)
    requires s.current.Some? && s.current.value in s.queue
    ensures |Rotation(s)| == |s.queue|
    ensures forall d :: 1 <= d <= |s.queue| ==> Rotation(s)[d - 1] == After(s, d)
    ensures forall k :: 0 <= k < |s.queue| ==> Rotation(s)[k] in s.queue
  {
  }

  lemma {:induction false} FirstReadyIsFirst(slots: seq<Slot>, order: seq<nat>) returns (e: nat)
    requires forall k :: 0 <= k < |order| ==> order[k] < |slots|
    ensures FirstReady(slots, order).Some? ==>
              && e < |order| && order[e] == FirstReady(slots, order).value
              && slots[order[e]].state.Ready?
              && forall k :: 0 <= k < e ==> !slots[order[k]].state.Ready?
    ensures FirstReady(slots, order).None? ==> forall k :: 0 <= k < |order| ==> !slots[order[k]].state.Ready?
  {
    e := 0;
    if order != [] && !slots[order[0]].state.Ready? {
      e := FirstReadyIsFirst(slots, order[1..]);
      assert forall k :: 1 <= k < |order| ==> order[k] == order[1..][k - 1];
      e := e + 1;
    }
  }

  /** `c` is READY and no block met before it on the way round is. */
  ghost predicate NearestReady(s: State, c: nat)
    requires s.WellFormed() && s.current.Some? && s.current.value in s.queue && c in s.queue
  {
    && s.slots[c].state.Ready?
    && forall d: nat :: 1 <= d < Distance(s, c) ==> !s.slots[After(s, d)].state.Ready?
  }

  lemma SearchIsCircular(s: State)
    requires s.WellFormed() && NoDup(s.queue) && s.current.Some? && s.current.value in s.queue
    requires FirstReady(s.slots, Rotation(s)).Some?
    ensures var c := FirstReady(s.slots, Rotation(s)).value;
            c in s.queue && NearestReady(s, c) && After(s, Distance(s, c)) == c
  {
    hide IndexOf, FirstReady, After, Distance, Rotation, NoDup;
    RotationIsCircular(s);
    var e := FirstReadyIsFirst(s.slots, Rotation(s));
    DistanceInverts(s, e + 1);
    forall d: nat | 1 <= d < e + 1 ensures !s.slots[After(s, d)].state.Ready? {
      assert Rotation(s)[d - 1] == After(s, d);
    }
  }

  /**
   * schedule() switches to the nearest READY block in circular order after
   * the current one; the current block stays only when it is idle and no
   * block is READY.
   */
  lemma ScheduleTakesNearestReady(s: State, esp: nat)
    requires Shape(s) && Seated(s)
    ensures var s' := Schedule(s, esp);
            && s'.current.Some? && s'.current.value in s.queue
            && (s'.current == s.current <==>
                  s.current == s.idle && forall b: nat :: b in s.queue ==> !s.slots[b].state.Ready?)
            && (s'.current != s.current ==> NearestReady(s, s'.current.value))
  {
    SearchFinds(s);
    if FirstReady(s.slots, Rotation(s)).Some? {
      SearchIsCircular(s);
    }
  }

  lemma IndexInverts(q: seq<nat>, k: nat)
    requires NoDup(q) && k < |q|
    ensures IndexOf(q, q[k]) == k
  {
  }

  lemma DistanceInverts(s: State, d: nat)
    requires NoDup(s.queue) && s.current.Some? && s.current.value in s.queue && 1 <= d <= |s.queue|
    ensures After(s, d) in s.queue && Distance(s, After(s, d)) == d
  {
    var p := IndexOf(s.queue, s.current.value);
    IndexInverts(s.queue, if p + d < |s.queue| then p + d else p + d - |s.queue|);
  }

  // ---- How one operation changes the distance ----------------------------

  lemma AfterDistance(s: State, b: nat)
    requires s.current.Some? && s.current.value in s.queue && b in s.queue
    ensures After(s, Distance(s, b)) == b
  {
  }

  /** Moving the current block forward to `c` brings everything beyond `c` nearer by as much. */
  lemma DistanceSplits(s: State, s': State, b: nat, c: nat)
    requires s.current.Some? && s.current.value in s.queue && b in s.queue && c in s.queue
    requires s'.queue == s.queue && s'.current == Some(c) && Distance(s, c) < Distance(s, b)
    ensures Distance(s', b) == Distance(s, b) - Distance(s, c)
  {
  }

  lemma ScheduleKeepsQueue(s: State, esp: nat, b: nat)
    requires s.WellFormed() && s.current.Some? && s.idle.Some? && b < BLOCKS && s.slots[b].state.Ready?
    ensures var s' := Schedule(s, esp);
            && s'.WellFormed() && s'.queue == s.queue && s'.current.Some?
            && (s'.current == Some(b) || s'.slots[b].state.Ready?)
  {
    match FirstReady(s.slots, Rotation(s))
    case Some(next) =>
      if s.current != Some(next) {
        DispatchEffect(s, next, esp);
      }
    case None =>
      if s.current != s.idle {
        DispatchEffect(s, s.idle.value, esp);
      }
  }

  lemma NearestIsNoFarther(s: State, b: nat, c: nat)
    requires s.WellFormed() && s.current.Some? && s.current.value in s.queue && b in s.queue && c in s.queue
    requires NearestReady(s, c) && s.slots[b].state.Ready?
    ensures c == b || Distance(s, c) < Distance(s, b)
  {
    AfterDistance(s, b);
    AfterDistance(s, c);
  }

  lemma ScheduleApproaches(s: State, esp: nat, b: nat)
    requires Shape(s) && Seated(s) && b in s.queue && s.slots[b].state.Ready?
    ensures var s' := Schedule(s, esp);
            && s'.WellFormed() && s'.queue == s.queue && s'.current.Some? && s'.current.value in s.queue
            && (s'.current == Some(b) || (s'.slots[b].state.Ready? && Distance(s', b) < Distance(s, b)))
  {
    ScheduleTakesNearestReady(s, esp);
    ScheduleKeepsQueue(s, esp, b);
    var s' := Schedule(s, esp);
    NearestIsNoFarther(s, b, s'.current.value);
    if s'.current.value != b {
      DistanceSplits(s, s', b, s'.current.value);
    }
  }

  lemma IndexAfterAppend(q: seq<nat>, x: nat, y: nat)
    requires y in q
    ensures IndexOf(q + [x], y) == IndexOf(q, y)
  {
    assert (q + [x])[IndexOf(q, y)] == y;
  }

  lemma AppendDelaysByOne(s: State, s': State, x: nat, b: nat)
    requires s.current.Some? && s.current.value in s.queue && b in s.queue
    requires s'.queue == s.queue + [x] && s'.current == s.current
    ensures Distance(s', b) <= Distance(s, b) + 1
  {
    IndexAfterAppend(s.queue, x, b);
    IndexAfterAppend(s.queue, x, s.current.value);
  }

  lemma RemovalNeverDelays(s: State, s': State, x: nat, b: nat)
    requires NoDup(s.queue) && s.current.Some? && s.current.value in s.queue && b in s.queue
    requires s'.queue == Without(s.queue, x) && s'.current == s.current
    requires x != b && s.current != Some(x)
    ensures s.current.value in s'.queue && b in s'.queue && Distance(s', b) <= Distance(s, b)
  {
    WithoutIs(s.queue, x);
    IndexAfterRemoval(s.queue, x, b);
    IndexAfterRemoval(s.queue, x, s.current.value);
  }

  lemma IndexAfterRemoval(q: seq<nat>, x: nat, y: nat)
    requires NoDup(q) && y in q && x != y
    ensures y in Without(q, x)
    ensures IndexOf(Without(q, x), y) == if IndexOf(q, x) < IndexOf(q, y) then IndexOf(q, y) - 1 else IndexOf(q, y)
  {
    WithoutIs(q, x);
    var k := if IndexOf(q, x) < IndexOf(q, y) then IndexOf(q, y) - 1 else IndexOf(q, y);
    assert Without(q, x)[k] == y;
    IndexInverts(Without(q, x), k);
  }

  // ---- Fairness ----------------------------------------------------------

  /** Does this operation call schedule()? */
  function Calls(s: State, op: Op): nat
    requires Meaningful(s, op)
  {
    match op
    case Tick(_) => 1
    case Acquire(l, _) => if s.locks[l].word != 0 then 1 else 0
    case _ => 0
  }

  /** 1 for a call that made a block, 0 for one that failed. */
  function One(made: Option<nat>): nat { if made.Some? then 1 else 0 }

  /** A new block may get in front by one; an exit restarts the round at idle. */
  function Delay(s: State, op: Op): nat
    requires Meaningful(s, op)
  {
    match op
    case Create(entry, priority) => One(CreateProcess(s, entry, priority).1)
    case New(entry) => One(CreateProcess(s, entry, 1).1)
    case Spawn(parent, entry) => One(CreateThread(s, parent, entry).1)
    case Finish(_) => |s.queue|
    case _ => 0
  }

  ghost function TotalCalls(s: State, ops: seq<Op>): nat
    requires Lawful(s, ops)
    decreases |ops|
  {
    if ops == [] then 0 else Calls(s, ops[0]) + TotalCalls(Step(s, ops[0]), ops[1..])
  }

  ghost function TotalDelay(s: State, ops: seq<Op>): nat
    requires Lawful(s, ops)
    decreases |ops|
  {
    if ops == [] then 0 else Delay(s, ops[0]) + TotalDelay(Step(s, ops[0]), ops[1..])
  }

  /** `b` is current at some point of the run. */
  ghost predicate Dispatched(s: State, ops: seq<Op>, b: nat)
    requires Lawful(s, ops)
    decreases |ops|
  {
    s.current == Some(b) || (ops != [] && Dispatched(Step(s, ops[0]), ops[1..], b))
  }

  /** `b` is never taken off the queue. */
  ghost predicate Kept(s: State, ops: seq<Op>, b: nat)
    requires Lawful(s, ops)
    decreases |ops|
  {
    b in s.queue && (ops != [] ==> Kept(Step(s, ops[0]), ops[1..], b))
  }

  /** `b` is current, or READY with `gain` calls made up for at the price of `owed` links. */
  ghost predicate Nearer(s: State, s': State, b: nat, gain: nat, owed: nat)
    requires s.current.Some? && s.current.value in s.queue && b in s.queue
  {
    && s'.WellFormed() && s'.current.Some? && s'.current.value in s'.queue
    && (s'.current == Some(b) ||
          (b in s'.queue && s'.slots[b].state.Ready? && Distance(s', b) + gain <= Distance(s, b) + owed))
  }

  /** The block made, if any, joined the queue at its tail; `b` and the current block are as before. */
  ghost predicate Grows(s: State, s': State, made: Option<nat>, b: nat) {
    && s.WellFormed() && s'.WellFormed() && s'.current == s.current
    && b in s.queue && s'.slots[b].state.Ready?
    && s'.queue == s.queue + if made.Some? then [made.value] else []
  }

  lemma GrowthBringsNearer(s: State, s': State, made: Option<nat>, b: nat)
    requires Grows(s, s', made, b) && s.current.Some? && s.current.value in s.queue
    ensures Nearer(s, s', b, 0, One(made))
  {
    hide Distance;
    if made.Some? {
      AppendDelaysByOne(s, s', made.value, b);
    } else {
      assert s'.queue == s.queue;
      SameDistance(s, s', b);
    }
  }

  lemma SameDistance(s: State, s': State, b: nat)
    requires s.current.Some? && s.current.value in s.queue && b in s.queue
    requires s'.queue == s.queue && s'.current == s.current
    ensures Distance(s', b) == Distance(s, b)
  {
  }

  lemma CreateBringsNearer(s: State, entry: nat, priority: nat, b: nat)
    requires Shape(s) && Seated(s) && b in s.queue && s.slots[b].state.Ready?
    ensures (var (s', made) := CreateProcess(s, entry, priority);
             Grows(s, s', made, b) && Nearer(s, s', b, 0, One(made)))
  {
    hide Nearer, AllocPage, FirstDead;
    PickPcbIsDead(s);
    var (s', made) := CreateProcess(s, entry, priority);
    GrowthBringsNearer(s, s', made, b);
  }

  lemma NewBringsNearer(s: State, entry: nat, b: nat)
    requires Shape(s) && Seated(s) && b in s.queue && s.slots[b].state.Ready?
    ensures (var s', made := NewBlocked(s, entry), CreateProcess(s, entry, 1).1;
             Grows(s, s', made, b) && Nearer(s, s', b, 0, One(made)))
  {
    hide Nearer, AllocPage, FirstDead;
    PickPcbIsDead(s);
    GrowthBringsNearer(s, NewBlocked(s, entry), CreateProcess(s, entry, 1).1, b);
  }

  lemma SpawnBringsNearer(s: State, parent: Option<nat>, entry: nat, b: nat)
    requires Shape(s) && Seated(s) && b in s.queue && s.slots[b].state.Ready?
    requires parent.Some? ==> parent.value < BLOCKS
    ensures (var (s', made) := CreateThread(s, parent, entry);
             Grows(s, s', made, b) && Nearer(s, s', b, 0, One(made)))
  {
    hide Nearer, AllocPage, FirstDead, NoDup;
    assert b < POOL || s.tcbReady;
    assert EnsureTcbPool(s).slots[b] == s.slots[b];
    var (s', made) := CreateThread(s, parent, entry);
    GrowthBringsNearer(s, s', made, b);
  }

  lemma RetireBringsNearer(s: State, x: nat, slot: Slot, b: nat)
    requires s.WellFormed() && NoDup(s.queue) && b in s.queue && s.slots[b].state.Ready?
    requires s.current.Some? && s.current.value in s.queue && x in s.queue && s.current != Some(x) && x != b
    ensures Nearer(s, Retire(s, x, slot), b, 0, 0)
  {
    hide Distance, IndexOf, Without, FreePage;
    WithoutInRange(s.queue, x, BLOCKS);
    RemovalNeverDelays(s, Retire(s, x, slot), x, b);
  }

  lemma KillBringsNearer(s: State, pid: nat, b: nat)
    requires Shape(s) && Roles(s) && b in s.queue && s.slots[b].state.Ready?
    requires Allowed(s, Kill(pid)) && b in KillProcess(s, pid).queue
    ensures Nearer(s, KillProcess(s, pid), b, 0, 0)
  {
    var found := FindPid(s, s.queue, pid);
    if found.Some? {
      WithoutIs(s.queue, found.value);
      RetireBringsNearer(s, found.value, s.slots[found.value].(state := Dead, stackBase := 0, pid := 0), b);
    }
  }

  lemma DeleteBringsNearer(s: State, tid: nat, b: nat)
    requires Shape(s) && Roles(s) && b in s.queue && s.slots[b].state.Ready?
    requires Allowed(s, Delete(tid)) && b in ThreadDelete(s, tid).queue
    ensures Nearer(s, ThreadDelete(s, tid), b, 0, 0)
  {
    EnsureTcbPoolKeepsShape(s);
    var t := EnsureTcbPool(s);
    var found := FindTid(t.slots, POOL, BLOCKS, tid);
    if found.Some? {
      var x := found.value;
      assert Live(t, x);
      WithoutIs(t.queue, x);
      RetireBringsNearer(t, x, t.slots[x].(state := Dead, stackBase := 0, tid := 0), b);
    }
  }

  lemma ExitBringsNearer(s: State, esp: nat, b: nat)
    requires Inv(s) && b in s.queue && s.slots[b].state.Ready? && Allowed(s, Finish(esp))
    ensures Nearer(s, Exit(s, esp), b, 0, |s.queue|)
  {
    hide Contexts, WaitLists, NoStranded, Names, Stacks, IndexOf;
    ExitKeepsInv(s, esp);
    WithoutIs(s.queue, s.current.value);
  }

  lemma AttemptBringsNearer(s: State, l: nat, esp: nat, b: nat)
    requires Shape(s) && Roles(s) && b in s.queue && s.slots[b].state.Ready? && MayLock(s, l)
    ensures Nearer(s, LockAttempt(s, l, esp), b, Calls(s, Acquire(l, esp)), 0)
  {
    if s.locks[l].word != 0 {
      ShapeCarriesOver(s, Park(s, l));
      ScheduleBringsNearer(Park(s, l), esp, b);
    }
  }

  lemma ScheduleBringsNearer(s: State, esp: nat, b: nat)
    requires Shape(s) && Seated(s) && b in s.queue && s.slots[b].state.Ready?
    ensures Nearer(s, Schedule(s, esp), b, 1, 0)
  {
    ScheduleApproaches(s, esp, b);
  }

  lemma StepBringsNearer(s: State, op: Op, b: nat)
    requires Inv(s) && Allowed(s, op) && b in s.queue && s.slots[b].state.Ready? && b in Step(s, op).queue
    ensures Nearer(s, Step(s, op), b, Calls(s, op), Delay(s, op))
  {
    hide Nearer, CreateProcess, CreateThread, NewBlocked, Schedule, Exit, KillProcess, ThreadDelete, LockAttempt, Unlock;
    match op
    case Create(entry, priority) => CreateBringsNearer(s, entry, priority, b);
    case New(entry) => NewBringsNearer(s, entry, b);
    case Spawn(parent, entry) => SpawnBringsNearer(s, parent, entry, b);
    case Tick(esp) => ScheduleBringsNearer(s, esp, b);
    case Finish(esp) => ExitBringsNearer(s, esp, b);
    case Kill(pid) => KillBringsNearer(s, pid, b);
    case Delete(tid) => DeleteBringsNearer(s, tid, b);
    case Acquire(l, esp) => AttemptBringsNearer(s, l, esp, b);
    case Release(l) => ReleaseBringsNearer(s, l, b);
    case Store(_, _) => StoreBringsNearer(s, op, b);
  }

  lemma StoreBringsNearer(s: State, op: Op, b: nat)
    requires Shape(s) && Seated(s) && op.Store? && b in s.queue && s.slots[b].state.Ready?
    ensures Nearer(s, Step(s, op), b, 0, 0)
  {
  }

  lemma ReleaseBringsNearer(s: State, l: nat, b: nat)
    requires Shape(s) && Roles(s) && l < |s.locks| && b in s.queue && s.slots[b].state.Ready?
    ensures Nearer(s, Unlock(s, l), b, 0, 0)
  {
  }

  /**
   * Round-robin fairness: a READY block that is not removed is dispatched
   * within (its circular distance + the number of blocks created meanwhile +
   * one round per exit) calls of schedule(), whatever the other blocks do.
   */
  lemma {:induction false} Fairness(s: State, ops: seq<Op>, b: nat)
    requires Inv(s) && Lawful(s, ops) && Kept(s, ops, b) && s.slots[b].state.Ready?
    requires TotalCalls(s, ops) >= Distance(s, b) + TotalDelay(s, ops)
    ensures Dispatched(s, ops, b)
    decreases |ops|
  {
    if ops != [] && s.current != Some(b) {
      var s' := Step(s, ops[0]);
      StepBringsNearer(s, ops[0], b);
      StepKeepsInv(s, ops[0]);
      if s'.current != Some(b) {
        Fairness(s', ops[1..], b);
      }
    }
  }

  /** A run of timer ticks, entered with these stack pointers. */
  function Ticks(esps: seq<nat>): seq<Op> { seq(|esps|, k requires 0 <= k < |esps| => Tick(esps[k])) }

  lemma {:induction false} TicksAreLawful(s: State, esps: seq<nat>, b: nat)
    requires Inv(s) && b in s.queue
    ensures Lawful(s, Ticks(esps)) && Kept(s, Ticks(esps), b)
    ensures TotalCalls(s, Ticks(esps)) == |esps| && TotalDelay(s, Ticks(esps)) == 0
    decreases |esps|
  {
    hide Inv;
    if esps != [] {
      TickKeepsQueue(s, esps[0]);
      assert Ticks(esps)[1..] == Ticks(esps[1..]);
      TicksAreLawful(Schedule(s, esps[0]), esps[1..], b);
    }
  }

  lemma TickKeepsQueue(s: State, esp: nat)
    requires Inv(s)
    ensures Allowed(s, Tick(esp)) && Inv(Step(s, Tick(esp))) && Step(s, Tick(esp)).queue == s.queue
  {
    StepKeepsInv(s, Tick(esp));
  }

  /** While only the timer runs, every READY block gets the processor within one tick per block on the queue. */
  lemma OneRoundReachesEveryReadyBlock(s: State, esps: seq<nat>, b: nat)
    requires Inv(s) && b in s.queue && s.slots[b].state.Ready? && |esps| >= |s.queue|
    ensures Lawful(s, Ticks(esps)) && Dispatched(s, Ticks(esps), b)
  {
    TicksAreLawful(s, esps, b);
    Fairness(s, Ticks(esps), b);
  }
}
