/**
 * The life of one block, in numbers: what a creation makes, where a first
 * dispatch puts the stack pointer, how a process made by newprocess sleeps until
 * it is removed, and that a removed block holds on to nothing.
 */
module KernelBlocks {
  import opened Machine32
  import opened Options
  import opened PageSet
  import opened KernelState
  import opened KernelInvariant
  import opened KernelRuns
  import opened KernelFairness
  import opened KernelLocks

  // ---- Birth -----------------------------------------------------------------

  /**
   * Block `b` was made out of a dead slot and the lowest free page: its entry address stands in the
   * last word of that page, its stack pointer points there, it is the queue's tail, and nothing else
   * has changed but the pid and tid counters.
   */
  ghost predicate Born(s: State, s': State, b: nat, entry: nat)
    requires |s.slots| == BLOCKS
  {
    && |s'.slots| == BLOCKS && b < BLOCKS && !Live(s, b) && Live(s', b)
    && (var base := s'.slots[b].stackBase;
        && base % 4096 == 0 && base / 4096 in s.pages.free
        && (forall q: nat :: q < base / 4096 ==> q !in s.pages.free)
        && s'.pages == Pages(s.pages.total, s.pages.free - {base / 4096})
        && s'.slots[b].esp + 4 == base + 4096)
    && s'.memory == s.memory[s'.slots[b].esp := entry]
    && s'.queue == s.queue + [b] && s'.current == s.current && s'.idle == s.idle
    && s'.locks == s.locks && s'.looping == s.looping
    && s'.log == s.log + [Created(b, s'.slots[b].esp, entry)]
    && forall i: nat :: i < BLOCKS && i in s.queue ==> s'.slots[i] == s.slots[i]
  }

  lemma {:induction false} FirstDeadIsFirst(slots: seq<Slot>, lo: nat, hi: nat, pidZero: bool, i: nat)
    requires lo <= i < hi <= |slots| && slots[i].state.Dead? && (pidZero ==> slots[i].pid == 0)
    ensures var r := FirstDead(slots, lo, hi, pidZero); r.Some? && r.value <= i
    decreases hi - lo
  {
    if lo < i { FirstDeadIsFirst(slots, lo + 1, hi, pidZero, i); }
  }

  /** alloc_pcb: the lowest dead PCB with pid 0 if there is one, otherwise the lowest dead one, otherwise none. */
  lemma PickedPcb(s: State, i: nat)
    requires |s.slots| == BLOCKS && i < 64 && s.slots[i].state.Dead?
    ensures PickPcb(s).Some?
    ensures var k := PickPcb(s).value;
            && k < 64 && s.slots[k].state.Dead?
            && (s.slots[i].pid == 0 ==> s.slots[k].pid == 0 && k <= i)
            && (s.slots[k].pid != 0 ==> k <= i)
  {
    if s.slots[i].pid == 0 {
      FirstDeadIsFirst(s.slots, 0, POOL, true, i);
    } else {
      FirstDeadIsFirst(s.slots, 0, POOL, false, i);
    }
  }

  /** Every dead PCB has pid 0, so the first pass of alloc_pcb finds the lowest one. */
  lemma LowestDeadPcb(s: State)
    requires Shape(s) && Names(s)
    ensures PickPcb(s).Some? ==> PickPcb(s).value < POOL && !Live(s, PickPcb(s).value)
    ensures PickPcb(s).Some? ==> forall i: nat :: i < PickPcb(s).value ==> Live(s, i)
  {
    hide Stacks, WaitLists, NoStranded, Contexts;
    PickPcbIsDead(s);
    forall i: nat | i < POOL && !Live(s, i) ensures PickPcb(s).Some? && PickPcb(s).value <= i {
      assert i !in s.queue;
      PickedPcb(s, i);
    }
  }

  lemma LowestPage(m: Pages)
    requires Sound(m) && AllocPage(m).1 != 0
    ensures (var (m', base) := AllocPage(m);
      && base % 4096 == 0 && base / 4096 in m.free && (forall q: nat :: q < base / 4096 ==> q !in m.free)
      && m' == Pages(m.total, m.free - {base / 4096}))
  {
  }

  /** create_process: the lowest dead PCB, the next pid, READY, with the priority given. */
  lemma CreatedProcess(s: State, entry: nat, priority: nat)
    requires Inv(s) && s.nextPid < WORD - 1
    ensures (var (s', made) := CreateProcess(s, entry, priority);
      made.Some? ==>
        && Born(s, s', made.value, entry) && made.value < POOL
        && (forall i: nat :: i < made.value ==> Live(s, i))
        && s'.nextPid == s'.slots[made.value].pid == s.nextPid + 1 && s'.nextTid == s.nextTid
        && s'.slots[made.value].state == Ready && s'.slots[made.value].priority == priority)
  {
    hide AllocPage, PickPcb, Stacks, WaitLists, NoStranded, Contexts;
    LowestDeadPcb(s);
    if AllocPage(s.pages).1 != 0 {
      SoundPages(s);
      LowestPage(s.pages);
    }
  }

  lemma SoundPages(s: State)
    requires Inv(s)
    ensures Sound(s.pages)
  {
  }

  /** newprocess: the same with priority 1, but BLOCKED before anything can run. */
  lemma CreatedBlocked(s: State, entry: nat)
    requires Inv(s) && s.nextPid < WORD - 1
    ensures (var s', made := NewBlocked(s, entry), CreateProcess(s, entry, 1).1;
      made.Some? ==>
        && Born(s, s', made.value, entry) && made.value < POOL
        && s'.nextPid == s'.slots[made.value].pid == s.nextPid + 1 && s'.nextTid == s.nextTid
        && s'.slots[made.value].state == Blocked && s'.slots[made.value].priority == 1)
  {
    hide CreateProcess, Stacks, WaitLists, NoStranded, Contexts, Names;
    CreatedProcess(s, entry, 1);
  }

  /** create_thread: the lowest dead TCB, the next tid, pid 0, READY, with its parent's priority or 1. */
  lemma CreatedThread(s: State, parent: Option<nat>, entry: nat)
    requires Inv(s) && s.nextTid < WORD - 1 && (parent.Some? ==> parent.value < BLOCKS)
    ensures (var (s', made) := CreateThread(s, parent, entry);
      made.Some? ==>
        && Born(s, s', made.value, entry) && POOL <= made.value
        && (forall i: nat :: POOL <= i < made.value ==> Live(s, i))
        && s'.nextTid == s.nextTid + 1 && s'.nextPid == s.nextPid
        && s'.slots[made.value] == Slot(0, Ready, if parent.Some? then s.slots[parent.value].priority else 1,
             s'.slots[made.value].esp, s'.slots[made.value].stackBase, s.nextTid + 1, parent))
  {
    hide AllocPage, FirstDead, Stacks, WaitLists, NoStranded, Contexts, Names;
    EnsureTcbPoolKeepsShape(s);
    LowestDeadTcb(s);
    if AllocPage(s.pages).1 != 0 {
      SoundPages(s);
      LowestPage(s.pages);
    }
  }

  lemma LowestDeadTcb(s: State)
    requires Shape(s)
    ensures (var r := FirstDead(EnsureTcbPool(s).slots, POOL, BLOCKS, false);
      r.Some? ==> !Live(s, r.value) && forall i: nat :: POOL <= i < r.value ==> Live(s, i))
  {
    EnsureTcbPoolKeepsShape(s);
    var t := EnsureTcbPool(s);
    assert forall i: nat :: Live(t, i) == Live(s, i);
    forall i: nat | POOL <= i < BLOCKS && !Live(s, i)
      ensures (var r := FirstDead(t.slots, POOL, BLOCKS, false); r.Some? && r.value <= i)
    {
      FirstDeadIsFirst(t.slots, POOL, BLOCKS, false, i);
    }
  }

  // ---- First dispatch ----------------------------------------------------------

  /** The 4096 bytes from `base` on are stack of no live block but `b`. */
  ghost predicate OwnBytes(s: State, b: nat, base: nat)
    requires s.WellFormed()
  {
    forall j: nat :: j in s.queue && j != b ==>
      s.slots[j].stackBase + 4096 <= base || base + 4096 <= s.slots[j].stackBase
  }

  lemma StacksAreApart(s: State, b: nat)
    requires Inv(s) && b in s.queue
    ensures OwnBytes(s, b, s.slots[b].stackBase)
  {
    hide Shape, Seated, Names, WaitLists, NoStranded, Contexts;
    forall j: nat | j in s.queue && j != b
      ensures s.slots[j].stackBase + 4096 <= s.slots[b].stackBase || s.slots[b].stackBase + 4096 <= s.slots[j].stackBase
    {
      assert OwnsPage(s.pages, s.slots[b].stackBase) && OwnsPage(s.pages, s.slots[j].stackBase);
    }
  }

  /**
   * The step has loaded the stack pointer of the new current block.  If the block has not run before,
   * control went to its entry function with the stack pointer, after the return, at the end of its page.
   */
  ghost predicate Entered(s: State, s': State)
    requires s'.WellFormed()
  {
    && s'.current.Some? && |s'.log| == |s.log| + 2
    && (var b, e := s'.current.value, s'.log[|s.log| + 1];
        && e.Loaded? && e.id == b
        && (LastTouch(s.log, b).Some? && LastTouch(s.log, b).value.Created? ==>
              && e.eip == Some(LastTouch(s.log, b).value.entry)
              && e.esp + 4 == s'.slots[b].stackBase + 4096))
  }

  lemma DispatchEnters(s: State, next: nat, esp: nat)
    requires Contexts(s) && Candidate(s, next)
    ensures Dispatch(s, next, esp).WellFormed() && Entered(s, Dispatch(s, next, esp))
  {
    assert Resumable(s, next);
  }

  lemma ScheduleEnters(s: State, esp: nat)
    requires Shape(s) && Seated(s) && Contexts(s) && Schedule(s, esp).current != s.current
    ensures Schedule(s, esp).WellFormed() && Entered(s, Schedule(s, esp))
  {
    hide Dispatch, Contexts, Entered, FirstReady;
    SearchFinds(s);
    var r := FirstReady(s.slots, Rotation(s));
    if r.Some? { DispatchEnters(s, r.value, esp); }
  }

  lemma AttemptEnters(s: State, l: nat, esp: nat)
    requires Inv(s) && MayLock(s, l) && LockAttempt(s, l, esp).current != s.current
    ensures LockAttempt(s, l, esp).WellFormed() && Entered(s, LockAttempt(s, l, esp))
  {
    hide Schedule, Contexts, Stacks, Names, WaitLists, NoStranded, Entered;
    ParkKeepsCore(s, l);
    ScheduleEnters(Park(s, l), esp);
    assert Entered(Park(s, l), LockAttempt(s, l, esp)) && Park(s, l).log == s.log;
    SameLogEnters(Park(s, l), s, LockAttempt(s, l, esp));
  }

  lemma SameLogEnters(s1: State, s: State, s': State)
    requires s'.WellFormed() && Entered(s1, s') && s1.log == s.log
    ensures Entered(s, s')
  {
  }

  lemma ExitEnters(s: State, esp: nat)
    requires Inv(s) && s.current != s.idle
    ensures Exit(s, esp).current == s.idle && Exit(s, esp).WellFormed() && Entered(s, Exit(s, esp))
  {
    hide Shape, Stacks, Names, WaitLists, NoStranded, FreePage, Without, GoodLog;
    assert Resumable(s, s.idle.value);
    WithoutInRange(s.queue, s.current.value, BLOCKS);
  }

  lemma UnlockKeepsCurrent(s: State, op: Op)
    requires Meaningful(s, op) && op.Release?
    ensures Step(s, op).current == s.current
  {
  }

  /**
   * Every switch in every lawful run: whichever block becomes current, its stack pointer has been loaded,
   * and on its first dispatch that leaves it at the end of its own page, all of which is below it and
   * belongs to no other live block.
   */
  lemma FirstDispatchHasAWholePage(s: State, op: Op)
    requires Reached(s) && Allowed(s, op) && Step(s, op).current != s.current
    ensures (var s' := Step(s, op);
      && s'.WellFormed() && Entered(s, s')
      && s'.current.value in s'.queue && OwnBytes(s', s'.current.value, s'.slots[s'.current.value].stackBase))
  {
    hide Reached, Schedule, LockAttempt, Exit, Entered, OwnBytes, CreateProcess, CreateThread, KillProcess, ThreadDelete;
    ReachedKeepsInv(s);
    StepKeepsInv(s, op);
    match op {
      case Tick(esp) => ScheduleEnters(s, esp);
      case Acquire(l, esp) => AttemptEnters(s, l, esp);
      case Finish(esp) => ExitEnters(s, esp);
      case Release(_) => UnlockKeepsCurrent(s, op);
      case _ => OthersKeepLocks(s, op);
    }
    StacksAreApart(Step(s, op), Step(s, op).current.value);
  }

  // ---- A process made by newprocess ----------------------------------------------

  /** On the queue, BLOCKED, and in no retry loop: on no wait list, so no unlock will find it. */
  ghost predicate Dormant(s: State, b: nat) {
    && s.WellFormed() && b in s.queue && s.slots[b].state.Blocked?
    && b !in s.looping && OnNoWaitList(s, b)
    && s.current != Some(b) && s.idle != Some(b)
  }

  /** The log has grown by events of other blocks. */
  ghost predicate Untouched(log: seq<Event>, log': seq<Event>, b: nat) {
    log <= log' && forall k :: |log| <= k < |log'| ==> log'[k].id != b
  }

  lemma DormantIs(s: State, b: nat)
    requires Inv(s) && b in s.queue && s.slots[b].state.Blocked? && b !in s.looping
    ensures Dormant(s, b)
  {
    hide Stacks, Names, NoStranded, Contexts;
    assert forall l: nat :: l < |s.locks| ==> !Waits(s, l, b);
  }

  /** The block's slot and its place in no retry loop are as before, and it has no new event. */
  ghost predicate Rests(s: State, s': State, b: nat) {
    && |s.slots| == |s'.slots| == BLOCKS && b < BLOCKS && s'.slots[b] == s.slots[b]
    && (b in s'.looping ==> b in s.looping) && Untouched(s.log, s'.log, b)
  }

  lemma DispatchRests(s: State, next: nat, esp: nat, b: nat)
    requires s.WellFormed() && s.current.Some? && next < BLOCKS && b < BLOCKS && next != b && s.current != Some(b)
    ensures Rests(s, Dispatch(s, next, esp), b)
  {
  }

  lemma ScheduleRests(s: State, esp: nat, b: nat)
    requires s.WellFormed() && s.current.Some? && s.idle.Some?
    requires b < BLOCKS && s.slots[b].state.Blocked? && s.current != Some(b) && s.idle != Some(b)
    ensures Rests(s, Schedule(s, esp), b)
  {
    hide Dispatch;
    match FirstReady(s.slots, Rotation(s))
    case Some(next) => DispatchRests(s, next, esp, b);
    case None => DispatchRests(s, s.idle.value, esp, b);
  }

  lemma CreateRests(s: State, entry: nat, priority: nat, b: nat)
    requires Shape(s) && b in s.queue
    ensures Rests(s, CreateProcess(s, entry, priority).0, b) && CreateProcess(s, entry, priority).1 != Some(b)
  {
    hide AllocPage, PickPcb;
    PickPcbIsDead(s);
  }

  lemma NewRests(s: State, entry: nat, b: nat)
    requires Shape(s) && b in s.queue
    ensures Rests(s, NewBlocked(s, entry), b)
  {
    hide CreateProcess;
    CreateRests(s, entry, 1, b);
  }

  lemma SpawnRests(s: State, parent: Option<nat>, entry: nat, b: nat)
    requires Shape(s) && b in s.queue && (parent.Some? ==> parent.value < BLOCKS)
    ensures Rests(s, CreateThread(s, parent, entry).0, b)
  {
    hide AllocPage, FirstDead;
    EnsureTcbPoolKeepsShape(s);
  }

  lemma RemovalRests(s: State, op: Op, b: nat)
    requires Shape(s) && Meaningful(s, op) && (op.Kill? || op.Delete?) && b in s.queue && b in Step(s, op).queue
    ensures Rests(s, Step(s, op), b)
  {
    hide IndexOf, Without, FreePage;
    WithoutIs(s.queue, b);
    EnsureTcbPoolKeepsShape(s);
    var found := if op.Kill? then FindPid(s, s.queue, op.pid)
                 else FindTid(EnsureTcbPool(s).slots, POOL, BLOCKS, op.tid);
    if found.Some? {
      WithoutIs(s.queue, found.value);
    }
  }

  lemma ExitRests(s: State, esp: nat, b: nat)
    requires Meaningful(s, Finish(esp)) && b < BLOCKS && s.current != Some(b) && s.idle != Some(b)
    ensures Rests(s, Exit(s, esp), b)
  {
    hide Without, FreePage;
  }

  lemma AttemptRests(s: State, l: nat, esp: nat, b: nat)
    requires Meaningful(s, Acquire(l, esp)) && Dormant(s, b)
    ensures Rests(s, LockAttempt(s, l, esp), b)
  {
    hide Schedule;
    if s.locks[l].word != 0 {
      ScheduleRests(Park(s, l), esp, b);
    }
  }

  lemma UnlockRests(s: State, l: nat, b: nat)
    requires Meaningful(s, Release(l)) && Dormant(s, b)
    ensures Rests(s, Unlock(s, l), b)
  {
    assert s.locks[l].waiters != [] ==> s.locks[l].waiters[0] in s.locks[l].waiters;
  }

  lemma StepRests(s: State, op: Op, b: nat)
    requires Inv(s) && Allowed(s, op) && Dormant(s, b) && b in Step(s, op).queue
    ensures Rests(s, Step(s, op), b)
  {
    hide CreateProcess, CreateThread, NewBlocked, Schedule, Exit, KillProcess, ThreadDelete, LockAttempt, Unlock;
    hide Seated, Stacks, Names, WaitLists, NoStranded, Contexts, Shape;
    match op
    case Create(entry, priority) => CreateRests(s, entry, priority, b);
    case New(entry) => NewRests(s, entry, b);
    case Spawn(parent, entry) => SpawnRests(s, parent, entry, b);
    case Tick(esp) => ScheduleRests(s, esp, b);
    case Finish(esp) => ExitRests(s, esp, b);
    case Kill(_) => RemovalRests(s, op, b);
    case Delete(_) => RemovalRests(s, op, b);
    case Acquire(l, esp) => AttemptRests(s, l, esp, b);
    case Release(l) => UnlockRests(s, l, b);
    case Store(_, _) =>
  }

  /** While it stays on the queue a dormant block stays dormant, is never current and has no event. */
  lemma {:induction false} DormantForEver(s: State, ops: seq<Op>, b: nat)
    requires Inv(s) && Lawful(s, ops) && Dormant(s, b) && Kept(s, ops, b)
    ensures !Dispatched(s, ops, b)
    ensures Dormant(Exec(s, ops), b) && Untouched(s.log, Exec(s, ops).log, b)
    decreases |ops|
  {
    hide Step, Allowed, Inv;
    if ops != [] {
      StepIsMeaningful(s, ops[0]);
      var s' := Step(s, ops[0]);
      StepRests(s, ops[0], b);
      StepKeepsInv(s, ops[0]);
      DormantIs(s', b);
      DormantForEver(s', ops[1..], b);
    }
  }

  /**
   * What newprocess promises, over whole runs: the process it makes is live and BLOCKED on no wait list,
   * and as long as it stays on the queue it is never current, no stack pointer of its is ever loaded or
   * saved, and it is still BLOCKED on no wait list.
   */
  lemma NewProcessNeverRuns(s: State, entry: nat, ops: seq<Op>, b: nat)
    requires Inv(s) && Lawful(s, ops) && ops != [] && ops[0] == New(entry)
    requires CreateProcess(s, entry, 1).1 == Some(b) && Kept(Step(s, ops[0]), ops[1..], b)
    ensures (var s1, s' := Step(s, ops[0]), Exec(s, ops);
      && |s1.slots| == BLOCKS && Live(s1, b) && b < POOL && Dormant(s1, b)
      && !Dispatched(s1, ops[1..], b)
      && Dormant(s', b) && Untouched(s1.log, s'.log, b))
  {
    hide Born, CreateProcess, NewBlocked, Stacks, Names, NoStranded, Contexts;
    CreatedBlocked(s, entry);
    StepKeepsInv(s, ops[0]);
    NewProcessIsDormant(s, entry, b);
    DormantForEver(Step(s, ops[0]), ops[1..], b);
  }

  lemma NewProcessIsDormant(s: State, entry: nat, b: nat)
    requires Inv(s) && Allowed(s, New(entry)) && CreateProcess(s, entry, 1).1 == Some(b)
    ensures (var s1 := NewBlocked(s, entry);
      |s1.slots| == BLOCKS && b < POOL && Live(s1, b) && Dormant(s1, b))
  {
    hide CreateProcess, NewBlocked, Stacks, Names, NoStranded, Contexts;
    CreatedBlocked(s, entry);
    NewKeepsInv(s, entry);
    assert b !in s.looping;
    DormantIs(NewBlocked(s, entry), b);
  }

  // ---- Removal -------------------------------------------------------------------

  /**
   * Block `i`, and nothing else, has left the queue and given its page back; its slot is DEAD and names
   * no page and no pid.  The others keep their slots, but for idle, which an exit makes RUNNING.
   */
  ghost predicate Removed(s: State, s': State, i: nat) {
    && s.WellFormed() && |s'.slots| == BLOCKS && i in s.queue
    && (var k := IndexOf(s.queue, i); s'.queue == s.queue[..k] + s.queue[k + 1..])
    && s'.pages == Pages(s.pages.total, s.pages.free + {s.slots[i].stackBase / 4096})
    && s'.slots[i].state.Dead? && s'.slots[i].stackBase == 0 && s'.slots[i].pid == 0
    && i !in s'.looping && s'.locks == s.locks
    && forall j: nat :: j in s.queue && j != i && (s'.current == s.current || s'.current != Some(j)) ==>
         s'.slots[j] == s.slots[j]
  }

  /** The first block on the queue with that pid. */
  lemma {:induction false} FindPidIsFirst(s: State, order: seq<nat>, pid: nat)
    requires forall k :: 0 <= k < |order| ==> order[k] < |s.slots|
    ensures var found := FindPid(s, order, pid);
            found.Some? ==> forall k :: 0 <= k < IndexOf(order, found.value) ==> s.slots[order[k]].pid != pid
  {
    if order != [] && s.slots[order[0]].pid != pid { FindPidIsFirst(s, order[1..], pid); }
  }

  /** killprocess removes the first block on the queue with that pid. */
  lemma KillRemoves(s: State, pid: nat)
    requires Inv(s)
    ensures (var found, s' := FindPid(s, s.queue, pid), KillProcess(s, pid);
      && (found.None? ==> s' == s)
      && (found.Some? ==>
            && Removed(s, s', found.value) && s'.current == s.current && s.slots[found.value].pid == pid
            && forall k :: 0 <= k < IndexOf(s.queue, found.value) ==> s.slots[s.queue[k]].pid != pid))
  {
    hide Seated, Names, WaitLists, NoStranded, Contexts, FindPid;
    FindPidIsFirst(s, s.queue, pid);
    var found := FindPid(s, s.queue, pid);
    if found.Some? { assert OwnsPage(s.pages, s.slots[found.value].stackBase); }
  }

  /** thread_delete removes the one live thread with that tid, and its slot forgets the tid. */
  lemma DeleteRemoves(s: State, tid: nat)
    requires Inv(s)
    ensures (var found, s' := FindTid(EnsureTcbPool(s).slots, POOL, BLOCKS, tid), ThreadDelete(s, tid);
      && (found.None? ==> s' == EnsureTcbPool(s))
      && (found.Some? ==>
            && Removed(s, s', found.value) && s'.current == s.current
            && s.slots[found.value].tid == tid && s'.slots[found.value].tid == 0))
  {
    hide WaitLists, NoStranded, Contexts;
    EnsureTcbPoolKeepsShape(s);
    var t := EnsureTcbPool(s);
    var found := FindTid(t.slots, POOL, BLOCKS, tid);
    if found.Some? {
      assert Live(t, found.value);
      assert OwnsPage(s.pages, s.slots[found.value].stackBase);
    }
  }

  /** process_exit removes the caller and leaves idle RUNNING. */
  lemma ExitRemoves(s: State, esp: nat)
    requires Inv(s) && s.current != s.idle
    ensures (var s' := Exit(s, esp);
      && Removed(s, s', s.current.value) && s'.current == s.idle == s'.idle
      && s'.slots[s.idle.value] == s.slots[s.idle.value].(state := Running))
  {
    hide Names, WaitLists, NoStranded, Contexts;
    assert OwnsPage(s.pages, s.slots[s.current.value].stackBase);
  }

  /** No dead block names a stack page. */
  ghost predicate Buried(s: State) {
    && |s.slots| == BLOCKS
    && forall i: nat :: i < BLOCKS && !Live(s, i) ==> s.slots[i].stackBase == 0
  }

  /** Live blocks stay live or are gone with their page. */
  ghost predicate KeepsBuried(s: State, s': State)
    requires |s.slots| == BLOCKS == |s'.slots|
  {
    forall i: nat :: i < BLOCKS && !Live(s', i) ==>
      s'.slots[i].stackBase == 0 || (!Live(s, i) && s'.slots[i].stackBase == s.slots[i].stackBase)
  }

  lemma CreateKeepsBuried(s: State, entry: nat, priority: nat)
    requires |s.slots| == BLOCKS
    ensures var (s', made) := CreateProcess(s, entry, priority);
            KeepsBuried(s, s') && (made.Some? ==> Live(s', made.value))
  {
    hide AllocPage, PickPcb;
  }

  lemma NewKeepsBuried(s: State, entry: nat)
    requires |s.slots| == BLOCKS
    ensures |NewBlocked(s, entry).slots| == BLOCKS && KeepsBuried(s, NewBlocked(s, entry))
  {
    hide CreateProcess;
    CreateKeepsBuried(s, entry, 1);
  }

  lemma SpawnKeepsBuried(s: State, parent: Option<nat>, entry: nat)
    requires Shape(s) && (parent.Some? ==> parent.value < BLOCKS)
    ensures |CreateThread(s, parent, entry).0.slots| == BLOCKS && KeepsBuried(s, CreateThread(s, parent, entry).0)
  {
    hide AllocPage, FirstDead;
    EnsureTcbPoolKeepsShape(s);
    var t := EnsureTcbPool(s);
    assert forall i: nat :: i < BLOCKS ==> t.slots[i].stackBase == s.slots[i].stackBase && Live(t, i) == Live(s, i);
  }

  lemma DeleteKeepsBuried(s: State, tid: nat)
    requires Shape(s)
    ensures |ThreadDelete(s, tid).slots| == BLOCKS && KeepsBuried(s, ThreadDelete(s, tid))
  {
    hide Without, FreePage;
    EnsureTcbPoolKeepsShape(s);
    var t := EnsureTcbPool(s);
    assert forall i: nat :: i < BLOCKS ==> t.slots[i].stackBase == s.slots[i].stackBase && Live(t, i) == Live(s, i);
  }

  lemma DispatchKeepsBuried(s: State, next: nat, esp: nat)
    requires s.WellFormed() && s.current.Some? && next < BLOCKS
    ensures |Dispatch(s, next, esp).slots| == BLOCKS && KeepsBuried(s, Dispatch(s, next, esp))
  {
  }

  lemma ScheduleKeepsBuried(s: State, esp: nat)
    requires s.WellFormed() && s.current.Some? && s.idle.Some?
    ensures |Schedule(s, esp).slots| == BLOCKS && KeepsBuried(s, Schedule(s, esp))
  {
    hide Dispatch, KeepsBuried;
    var r := FirstReady(s.slots, Rotation(s));
    DispatchKeepsBuried(s, if r.Some? then r.value else s.idle.value, esp);
    assert KeepsBuried(s, s) by { StaysBuried(s); }
  }

  lemma StaysBuried(s: State)
    requires |s.slots| == BLOCKS
    ensures KeepsBuried(s, s)
  {
  }

  lemma StepKeepsBuried(s: State, op: Op)
    requires Inv(s) && Allowed(s, op) && Buried(s)
    ensures Buried(Step(s, op))
  {
    hide CreateProcess, NewBlocked, CreateThread, Schedule, ThreadDelete, Without, FreePage, FindPid;
    hide Seated, Stacks, Names, WaitLists, NoStranded, Contexts;
    match op
    case Create(entry, priority) => CreateKeepsBuried(s, entry, priority);
    case New(entry) => NewKeepsBuried(s, entry);
    case Spawn(parent, entry) => SpawnKeepsBuried(s, parent, entry);
    case Tick(esp) => ScheduleKeepsBuried(s, esp);
    case Delete(tid) => DeleteKeepsBuried(s, tid);
    case Acquire(l, esp) => if s.locks[l].word != 0 { ScheduleKeepsBuried(Park(s, l), esp); }
    case _ =>
  }

  lemma {:induction false} RunKeepsBuried(s: State, ops: seq<Op>)
    requires Inv(s) && Lawful(s, ops) && Buried(s)
    ensures Buried(Exec(s, ops))
    decreases |ops|
  {
    hide Inv, Buried, Step, Allowed;
    if ops != [] {
      StepIsMeaningful(s, ops[0]);
      StepKeepsInv(s, ops[0]);
      StepKeepsBuried(s, ops[0]);
      RunKeepsBuried(Step(s, ops[0]), ops[1..]);
    }
  }

  /** In every reachable state no two blocks, live or dead, name one stack page, and no block names a free one. */
  lemma NoPageIsNamedTwice(s: State, i: nat, j: nat)
    requires Reached(s) && |s.slots| == BLOCKS && i < BLOCKS && j < BLOCKS && s.slots[i].stackBase != 0
    ensures Live(s, i) && s.slots[i].stackBase / 4096 !in s.pages.free
    ensures i != j ==> s.slots[i].stackBase != s.slots[j].stackBase
  {
    hide Boot, Exec, Lawful, Names, WaitLists, NoStranded, Contexts;
    var pages, locks: nat, idleTask: nat, ops :|
      && Sound(pages) && Boot(Blank(pages, locks), idleTask).Some?
      && Lawful(Boot(Blank(pages, locks), idleTask).value, ops)
      && s == Exec(Boot(Blank(pages, locks), idleTask).value, ops);
    BootEstablishesInv(pages, locks, idleTask);
    BootIsBuried(pages, locks, idleTask);
    RunKeepsBuried(Boot(Blank(pages, locks), idleTask).value, ops);
    ReachedKeepsInv(s);
    assert OwnsPage(s.pages, s.slots[i].stackBase);
  }

  lemma BootIsBuried(pages: Pages, locks: nat, idleTask: nat)
    requires Boot(Blank(pages, locks), idleTask).Some?
    ensures Buried(Boot(Blank(pages, locks), idleTask).value)
  {
    hide AllocPage;
  }
}
