/**
 * A reachable state in which one woken thread alone stands between a free mutex
 * and its waiter: of three threads one takes the mutex, two wait for it, and the
 * first unlocks.
 */
module KernelWitness {
  import opened Machine32
  import opened Options
  import opened PageSet
  import opened KernelState
  import opened KernelInvariant
  import opened KernelRuns
  import opened RunQueue

  // ---- Reached states are closed under lawful steps -------------------------------

  lemma {:induction false} ExecAppend(s: State, ops: seq<Op>, op: Op)
    requires Lawful(s, ops) && Allowed(Exec(s, ops), op)
    ensures Lawful(s, ops + [op]) && Exec(s, ops + [op]) == Step(Exec(s, ops), op)
    decreases |ops|
  {
    hide Step;
    if ops == [] {
      assert [op][1..] == [];
      assert ops + [op] == [op];
    } else {
      ExecAppend(Step(s, ops[0]), ops[1..], op);
      assert (ops + [op])[1..] == ops[1..] + [op];
    }
  }

  lemma ReachedStep(s: State, op: Op)
    requires Reached(s) && Allowed(s, op)
    ensures Reached(Step(s, op)) && Inv(s) && Inv(Step(s, op))
  {
    hide Allowed, Step, Boot, Inv;
    ReachedKeepsInv(s);
    StepKeepsInv(s, op);
    var pages, locks: nat, idleTask: nat, ops :|
      && Sound(pages) && Boot(Blank(pages, locks), idleTask).Some?
      && Lawful(Boot(Blank(pages, locks), idleTask).value, ops)
      && s == Exec(Boot(Blank(pages, locks), idleTask).value, ops);
    ExecAppend(Boot(Blank(pages, locks), idleTask).value, ops, op);
    assert Lawful(Boot(Blank(pages, locks), idleTask).value, ops + [op]);
  }

  // ---- The state of the run ---------------------------------------------------------

  /** Idle in slot 0 and threads in slots 64, 65, 66 behind it, in the given states. */
  ghost predicate Lineup(s: State, current: nat, states: seq<ProcState>) {
    && Reached(s) && |s.slots| == BLOCKS
    && s.current == Some(current) && s.idle == Some(0)
    && 1 <= |states| <= 4 && s.queue == [0, 64, 65, 66][..|states|]
    && (forall k :: 0 <= k < |states| ==> s.slots[s.queue[k]].state == states[k])
    && s.nextTid == |states| - 1 && s.pages.total == 32 && |s.pages.free| == 4 - |states|
  }

  ghost predicate Mutex(s: State, word: nat, waiters: seq<nat>, looping: map<nat, nat>) {
    s.locks == [Lock(word, waiters)] && s.looping == looping
  }

  lemma Booting() returns (s: State)
    ensures Lineup(s, 0, [Running]) && Mutex(s, 0, [], map[])
  {
    hide Reached, Boot, AllocPage;
    var pages := Pages(32, {1, 2, 3, 4});
    AllocIsFresh(pages);
    assert 1 in pages.free && 1 < Reachable(pages.total);
    BootMakesIdle(pages, 1, 0);
    BootKeepsLocks(pages, 1, 0);
    BootIsReached(pages, 1, 0);
    s := Boot(Blank(pages, 1), 0).value;
    assert s.queue == [0, 64, 65, 66][..1];
  }

  lemma BootKeepsLocks(pages: Pages, locks: nat, idleTask: nat)
    requires Boot(Blank(pages, locks), idleTask).Some?
    ensures |Boot(Blank(pages, locks), idleTask).value.locks| == locks
  {
    hide FirstDead, AllocPage;
  }

  /** The first slot that is neither taken. */
  lemma NextSlot(s: State, k: nat)
    requires Inv(s) && 1 <= k <= 3 && s.queue == [0, 64, 65, 66][..k]
    ensures FirstDead(EnsureTcbPool(s).slots, POOL, BLOCKS, false) == Some(63 + k)
  {
    hide Contexts, WaitLists, NoStranded, Stacks, Names, Seated, FirstDead;
    var t := EnsureTcbPool(s);
    assert forall i: nat :: POOL <= i < BLOCKS ==> (i in s.queue <==> !t.slots[i].state.Dead?);
    assert forall i :: 64 <= i < 63 + k ==> i in s.queue by {
      assert s.queue[1..] == [64, 65, 66][..k - 1];
      assert k > 1 ==> s.queue[1] == 64;
      assert k > 2 ==> s.queue[2] == 65;
    }
    assert 63 + k !in s.queue;
    SkipTo(t.slots, POOL, BLOCKS, 63 + k);
  }

  lemma {:induction false} SkipTo(slots: seq<Slot>, lo: nat, hi: nat, i: nat)
    requires lo <= i < hi <= |slots| && slots[i].state.Dead?
    requires forall j :: lo <= j < i ==> !slots[j].state.Dead?
    ensures FirstDead(slots, lo, hi, false) == Some(i)
    decreases i - lo
  {
    if lo < i { SkipTo(slots, lo + 1, hi, i); }
  }

  lemma Spawning(s: State, states: seq<ProcState>) returns (s': State)
    requires Lineup(s, 0, states) && |states| <= 3 && Mutex(s, 0, [], map[])
    ensures Lineup(s', 0, states + [Ready]) && Mutex(s', 0, [], map[])
  {
    hide Reached, Inv;
    var k := |states|;
    var op := Spawn(None, 0);
    ReachedKeepsInv(s);
    SpawnEffect(s, k);
    ReachedStep(s, op);
    s' := Step(s, op);
  }

  lemma SpawnEffect(s: State, k: nat)
    requires Inv(s) && 1 <= k <= 3 && s.queue == [0, 64, 65, 66][..k]
    requires s.pages.total == 32 && s.pages.free != {} && s.nextTid == k - 1
    requires s.current == Some(0) && s.looping == map[]
    ensures Allowed(s, Spawn(None, 0))
    ensures (var s' := Step(s, Spawn(None, 0));
      && s'.queue == [0, 64, 65, 66][..k + 1] && s'.current == s.current && s'.idle == s.idle
      && s'.locks == s.locks && s'.looping == s.looping && s'.nextTid == k
      && |s'.slots| == BLOCKS && s'.slots[63 + k].state.Ready?
      && (forall i :: i in s.queue ==> s'.slots[i] == s.slots[i])
      && s'.pages.total == 32 && |s'.pages.free| + 1 == |s.pages.free|)
  {
    hide Contexts, WaitLists, NoStranded, Names, FirstDead, AllocPage;
    NextSlot(s, k);
    EnsureTcbPoolKeepsInv(s);
    AllocIsFresh(s.pages);
    var p: nat :| p in s.pages.free;
    assert p < Reachable(s.pages.total);
    assert [0, 64, 65, 66][..k + 1] == [0, 64, 65, 66][..k] + [63 + k];
    assert 63 + k !in s.queue;
  }

  // ---- Switching among the four -------------------------------------------------------

  const BLOCK: seq<nat> := [0, 64, 65, 66]

  /** All four are on the queue, in these states, and the one at position `c` is current. */
  ghost predicate Four(s: State, c: nat, states: seq<ProcState>)
    requires c < 4 && |states| == 4
  {
    && s.WellFormed() && s.queue == BLOCK && s.current == Some(BLOCK[c]) && s.idle == Some(0)
    && forall k :: 0 <= k < 4 ==> s.slots[BLOCK[k]].state == states[k]
  }

  /** The position after `c` on the ring. */
  function Next(c: nat): nat { if c == 3 then 0 else c + 1 }

  lemma RotationOfFour(s: State, c: nat)
    requires c < 4 && s.queue == BLOCK && s.current == Some(BLOCK[c])
    ensures |Rotation(s)| == 4 && Rotation(s)[0] == BLOCK[Next(c)]
    ensures forall k :: 0 <= k < 4 ==> Rotation(s)[k] in BLOCK
  {
    hide IndexOf;
    assert NoDup(BLOCK);
    IndexIs(BLOCK, c);
    assert Rotation(s) == BLOCK[c + 1..] + BLOCK[..c + 1];
  }

  lemma IndexIs(q: seq<nat>, i: nat)
    requires NoDup(q) && i < |q|
    ensures IndexOf(q, q[i]) == i
  {
  }

  /** The states after schedule(): the one left is READY if it was RUNNING, the one entered RUNNING. */
  function After(states: seq<ProcState>, c: nat): seq<ProcState>
    requires |states| == 4 && c < 4
  {
    states[c := if states[c].Running? then Ready else states[c]][Next(c) := Running]
  }

  /** schedule() goes one link on when the block there is READY. */
  lemma Scheduling(s: State, c: nat, states: seq<ProcState>)
    requires c < 4 && |states| == 4 && Four(s, c, states) && states[Next(c)].Ready?
    ensures (var s' := Schedule(s, 0);
      && Four(s', Next(c), After(states, c))
      && s'.locks == s.locks && s'.looping == s.looping && s'.nextTid == s.nextTid && s'.pages == s.pages)
  {
    hide Rotation, Dispatch;
    RotationOfFour(s, c);
    FirstReadyAt(s.slots, Rotation(s), 0);
    assert BLOCK[Next(c)] != BLOCK[c];
    DispatchEffect(s, BLOCK[Next(c)], 0);
  }

  lemma LineupIsFour(s: State, c: nat, states: seq<ProcState>)
    requires c < 4 && |states| == 4 && Lineup(s, BLOCK[c], states)
    ensures Four(s, c, states) && Inv(s)
  {
    ReachedKeepsInv(s);
  }

  lemma Ticking(s: State, c: nat, states: seq<ProcState>, word: nat, waiters: seq<nat>, looping: map<nat, nat>)
    returns (s': State)
    requires c < 4 && |states| == 4 && Lineup(s, BLOCK[c], states) && Mutex(s, word, waiters, looping)
    requires states[Next(c)].Ready?
    ensures Lineup(s', BLOCK[Next(c)], After(states, c)) && Mutex(s', word, waiters, looping)
  {
    hide Reached, Inv, Schedule;
    LineupIsFour(s, c, states);
    Scheduling(s, c, states);
    TickIsAllowed(s);
    ReachedStep(s, Tick(0));
    s' := Step(s, Tick(0));
  }

  lemma TickIsAllowed(s: State)
    requires Inv(s)
    ensures Allowed(s, Tick(0))
  {
  }

  lemma Taking(s: State, c: nat, states: seq<ProcState>) returns (s': State)
    requires 1 <= c < 4 && |states| == 4 && Lineup(s, BLOCK[c], states) && Mutex(s, 0, [], map[])
    ensures Lineup(s', BLOCK[c], states) && Mutex(s', 1, [], map[])
  {
    hide Reached, Inv;
    LineupIsFour(s, c, states);
    ReachedStep(s, Acquire(0, 0));
    s' := Step(s, Acquire(0, 0));
  }

  /** A failed attempt: queued, BLOCKED, and on to the next block. */
  lemma Waiting(s: State, c: nat, states: seq<ProcState>, waiters: seq<nat>, looping: map<nat, nat>)
    returns (s': State)
    requires 1 <= c < 4 && |states| == 4 && Lineup(s, BLOCK[c], states)
    requires Mutex(s, 1, waiters, looping) && BLOCK[c] !in looping && states[Next(c)].Ready?
    ensures Lineup(s', BLOCK[Next(c)], After(states[c := Blocked], c))
    ensures Mutex(s', 1, [BLOCK[c]] + waiters, looping[BLOCK[c] := 0])
  {
    hide Reached, Inv, Schedule;
    LineupIsFour(s, c, states);
    Scheduling(Park(s, 0), c, states[c := Blocked]);
    ReachedStep(s, Acquire(0, 0));
    s' := Step(s, Acquire(0, 0));
  }

  lemma Unlocking(s: State, states: seq<ProcState>, waiters: seq<nat>, looping: map<nat, nat>) returns (s': State)
    requires |states| == 4 && Lineup(s, 64, states) && 64 !in looping
    requires waiters != [] && waiters[0] == 66 && Mutex(s, 1, waiters, looping)
    ensures Lineup(s', 64, states[3 := Ready]) && Mutex(s', 0, waiters[1..], looping)
  {
    hide Reached, Inv;
    LineupIsFour(s, 1, states);
    ReachedStep(s, Release(0));
    s' := Step(s, Release(0));
  }

  /** All four made, the first thread runs, holds the mutex and is preempted. */
  lemma FirstHolds() returns (s: State)
    ensures Lineup(s, 65, [Ready, Ready, Running, Ready]) && Mutex(s, 1, [], map[])
  {
    hide Lineup, Mutex;
    s := Booting();
    s := Spawning(s, [Running]);
    assert [Running] + [Ready] == [Running, Ready];
    s := Spawning(s, [Running, Ready]);
    assert [Running, Ready] + [Ready] == [Running, Ready, Ready];
    s := Spawning(s, [Running, Ready, Ready]);
    assert [Running, Ready, Ready] + [Ready] == [Running, Ready, Ready, Ready];
    s := Ticking(s, 0, [Running, Ready, Ready, Ready], 0, [], map[]);
    assert After([Running, Ready, Ready, Ready], 0) == [Ready, Running, Ready, Ready];
    s := Taking(s, 1, [Ready, Running, Ready, Ready]);
    s := Ticking(s, 1, [Ready, Running, Ready, Ready], 1, [], map[]);
    assert After([Ready, Running, Ready, Ready], 1) == [Ready, Ready, Running, Ready];
  }

  /** The other two wait for it. */
  lemma OthersWait() returns (s: State)
    ensures Lineup(s, 0, [Running, Ready, Blocked, Blocked]) && Mutex(s, 1, [66, 65], map[65 := 0, 66 := 0])
  {
    hide Lineup, Mutex;
    s := FirstHolds();
    s := Waiting(s, 2, [Ready, Ready, Running, Ready], [], map[]);
    assert After([Ready, Ready, Running, Ready][2 := Blocked], 2) == [Ready, Ready, Blocked, Running];
    assert [65] + [] == [65] && map[][65 := 0] == map[65 := 0];
    s := Waiting(s, 3, [Ready, Ready, Blocked, Running], [65], map[65 := 0]);
    assert After([Ready, Ready, Blocked, Running][3 := Blocked], 3) == [Running, Ready, Blocked, Blocked];
    assert [66] + [65] == [66, 65] && map[65 := 0][66 := 0] == map[65 := 0, 66 := 0];
  }

  /** It unlocks: the thread it wakes alone would retry, and without it the other waiter is stranded. */
  lemma LastRetrierIsReachable() returns (s: State)
    ensures Reached(s) && Inv(s) && 66 in s.queue
    ensures LastRetrier(s, 66) && s.current != Some(66) && s.idle != Some(66) && OnNoWaitList(s, 66)
    ensures s.locks == [Lock(0, [65])] && s.slots[65].state.Blocked?
  {
    hide Reached, Inv;
    s := OthersWait();
    s := Ticking(s, 0, [Running, Ready, Blocked, Blocked], 1, [66, 65], map[65 := 0, 66 := 0]);
    assert After([Running, Ready, Blocked, Blocked], 0) == [Ready, Running, Blocked, Blocked];
    s := Unlocking(s, [Ready, Running, Blocked, Blocked], [66, 65], map[65 := 0, 66 := 0]);
    ReachedKeepsInv(s);
    assert s.queue == BLOCK && s.slots[BLOCK[2]].state.Blocked? && s.slots[BLOCK[3]].state.Ready?;
  }
}
