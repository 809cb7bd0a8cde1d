/**
 * What every kernel operation keeps, and so what holds in every reachable
 * state: the shape of the run queue, who is running, who owns which stack
 * page, which names are in use, the wait lists, and the saved contexts.
 */
module KernelInvariant {
  import opened Machine32
  import opened Options
  import opened PageSet
  import opened KernelState

  ghost predicate NoDup(q: seq<nat>) {
    forall j, k :: 0 <= j < k < |q| ==> q[j] != q[k]
  }

  ghost predicate Live(s: State, i: nat)
    requires |s.slots| == BLOCKS
  {
    i < BLOCKS && !s.slots[i].state.Dead? && (i < POOL || s.tcbReady)
  }

  /** The queue lists every block that is not DEAD, exactly once. */
  ghost predicate Shape(s: State) {
    && s.WellFormed()
    && NoDup(s.queue)
    && forall i: nat :: i in s.queue <==> Live(s, i)
  }

  /** Current and idle are on the queue, nobody but current runs, idle waits READY. */
  ghost predicate Seated(s: State) {
    && s.WellFormed()
    && s.current.Some? && s.idle.Some? && s.idle.value < POOL
    && s.current.value in s.queue && s.idle.value in s.queue
    && (forall i: nat :: i in s.queue && s.slots[i].state.Running? ==> s.current == Some(i))
    && !s.slots[s.current.value].state.Ready?
    && (s.current != s.idle ==> s.slots[s.idle.value].state.Ready?)
    && (s.current == s.idle ==> s.slots[s.idle.value].state.Running?)
  }

  /** At operation boundaries the current block is RUNNING. */
  ghost predicate Roles(s: State) {
    Seated(s) && s.slots[s.current.value].state.Running?
  }

  ghost predicate OwnsPage(m: Pages, base: nat) {
    base % PAGE_SIZE == 0 && 0 < base / PAGE_SIZE < m.total && base / PAGE_SIZE !in m.free
  }

  /** Live blocks own pairwise distinct, aligned, nonzero pages marked used. */
  ghost predicate Stacks(s: State) {
    && s.WellFormed()
    && Sound(s.pages)
    && (forall i: nat :: i in s.queue ==> OwnsPage(s.pages, s.slots[i].stackBase))
    && (forall i: nat, j: nat :: i in s.queue && j in s.queue && i != j ==> s.slots[i].stackBase != s.slots[j].stackBase)
  }

  ghost predicate Names(s: State) {
    && s.WellFormed()
    && s.nextPid < WORD && s.nextTid < WORD
    && (forall i: nat :: i in s.queue && i < POOL ==> 0 < s.slots[i].pid <= s.nextPid)
    && (forall i: nat :: i in s.queue && POOL <= i ==> s.slots[i].pid == 0 && 0 < s.slots[i].tid <= s.nextTid)
    && (forall i: nat, j: nat :: i in s.queue && j in s.queue && i < j < POOL ==> s.slots[i].pid != s.slots[j].pid)
    && (forall i: nat, j: nat :: i in s.queue && j in s.queue && POOL <= i < j ==> s.slots[i].tid != s.slots[j].tid)
    && (forall i: nat :: i < POOL && i !in s.queue ==> s.slots[i].pid == 0)
  }

  /** In the retry loop of lock `l` and blocked there. */
  ghost predicate Waits(s: State, l: nat, i: nat)
    requires |s.slots| == BLOCKS
  {
    i in s.looping && s.looping[i] == l && i < BLOCKS && s.slots[i].state.Blocked?
  }

  /** Each wait list holds the threads blocked on that lock, once each, and no other. */
  ghost predicate WaitLists(s: State) {
    && s.WellFormed()
    && (forall l :: 0 <= l < |s.locks| ==> s.locks[l].word <= 1 && NoDup(s.locks[l].waiters))
    && (forall l: nat, i: nat :: l < |s.locks| ==> (i in s.locks[l].waiters <==> Waits(s, l, i)))
    && (forall i :: i in s.looping ==> POOL <= i < BLOCKS && i in s.queue && s.looping[i] < |s.locks|)
  }

  /** A thread already woken from lock `l` that has not retried yet. */
  ghost predicate AboutToRetry(s: State, l: nat, t: nat)
    requires |s.slots| == BLOCKS
  {
    t in s.looping && s.looping[t] == l && t < BLOCKS && !s.slots[t].state.Blocked?
  }

  ghost predicate NoStranded(s: State) {
    && s.WellFormed()
    && forall l: nat :: l < |s.locks| && s.locks[l].word == 0 && s.locks[l].waiters != [] ==>
         exists t :: AboutToRetry(s, l, t)
  }

  // ---- Saved contexts ----------------------------------------------------

  /** The latest event of block `i`, of whatever kind. */
  function LastTouch(log: seq<Event>, i: nat): (r: Option<Event>)
    ensures r.Some? ==> r.value.id == i && r.value in log
  {
    if log == [] then None
    else
      var e := log[|log| - 1];
      if e.id == i then Some(e) else LastTouch(log[..|log| - 1], i)
  }

  /** Popping the word at `esp` leaves the stack pointer at the end of a page. */
  predicate AtPageEnd(esp: nat) { (esp + 4) % 4096 == 0 }

  /**
   * A load takes what the block's latest event set and no load has taken yet; idle's is one it saved itself.
   * A first load returns to the entry function and leaves the stack pointer at the end of a page.
   */
  ghost predicate Justified(before: seq<Event>, e: Event, idle: Option<nat>) {
    e.Loaded? ==>
      var setter := LastTouch(before, e.id);
      && setter.Some? && !setter.value.Loaded?
      && setter.value.esp == e.esp
      && (setter.value.Created? ==> e.eip == Some(setter.value.entry) && AtPageEnd(e.esp))
      && (idle == Some(e.id) ==> setter.value.Saved?)
  }

  ghost predicate GoodLog(log: seq<Event>, idle: Option<nat>) {
    log == [] || (GoodLog(log[..|log| - 1], idle) && Justified(log[..|log| - 1], log[|log| - 1], idle))
  }

  /** A block that is not running can be resumed: its slot holds what was last set, and that has not been loaded yet. */
  ghost predicate Resumable(s: State, i: nat)
    requires |s.slots| == BLOCKS && i < BLOCKS
  {
    var setter := LastTouch(s.log, i);
    && setter.Some? && !setter.value.Loaded?
    && setter.value.esp == s.slots[i].esp
    && (setter.value.Created? ==>
          && s.slots[i].esp + 4 == s.slots[i].stackBase + 4096 && AtPageEnd(s.slots[i].esp)
          && s.slots[i].esp in s.memory && s.memory[s.slots[i].esp] == setter.value.entry)
    && (s.idle == Some(i) ==> setter.value.Saved?)
  }

  ghost predicate Contexts(s: State) {
    && s.WellFormed()
    && GoodLog(s.log, s.idle)
    && forall i: nat :: i in s.queue && s.current != Some(i) ==> Resumable(s, i)
  }

  /** Everything but the current block being RUNNING, which a failed lock attempt suspends. */
  ghost predicate Core(s: State) {
    Shape(s) && Seated(s) && Stacks(s) && Names(s) && WaitLists(s) && NoStranded(s) && Contexts(s)
  }

  ghost predicate Inv(s: State) {
    Roles(s) && Core(s)
  }

  // ---- Hypotheses on the callers ----------------------------------------

  ghost predicate Elsewhere(s: State, address: nat)
    requires s.WellFormed()
  {
    forall i: nat :: i in s.queue && s.current != Some(i) ==> address / PAGE_SIZE != s.slots[i].stackBase / PAGE_SIZE
  }

  ghost predicate OnNoWaitList(s: State, i: nat) {
    forall l :: 0 <= l < |s.locks| ==> i !in s.locks[l].waiters
  }

  /** Thread `i` is the only woken one still to retry some free lock that has waiters left. */
  ghost predicate LastRetrier(s: State, i: nat)
    requires |s.slots| == BLOCKS
  {
    && i in s.looping && s.looping[i] < |s.locks|
    && s.locks[s.looping[i]].word == 0 && s.locks[s.looping[i]].waiters != []
    && forall t: nat :: AboutToRetry(s, s.looping[i], t) ==> t == i
  }

  /** A block that may be removed from outside: not running, not idle, and no wait list depends on it. */
  ghost predicate Removable(s: State, i: nat)
    requires |s.slots| == BLOCKS
  {
    s.current != Some(i) && s.idle != Some(i) && OnNoWaitList(s, i) && !LastRetrier(s, i)
  }

  /**
   * What is asked of callers.  A thread inside mutex_lock does nothing but
   * retry; idle neither exits nor is removed; only threads lock; the pid and
   * tid counters do not wrap; running code writes no other block's stack.
   */
  ghost predicate Allowed(s: State, op: Op) {
    && Meaningful(s, op)
    && match op
       case Create(_, _) => s.current.value !in s.looping && s.nextPid < WORD - 1
       case New(_) => s.current.value !in s.looping && s.nextPid < WORD - 1
       case Spawn(_, _) => s.current.value !in s.looping && s.nextTid < WORD - 1
       case Tick(_) => true
       case Finish(_) => s.current.value !in s.looping && s.current != s.idle
       case Kill(pid) =>
         && s.current.value !in s.looping
         && (FindPid(s, s.queue, pid).Some? ==> Removable(s, FindPid(s, s.queue, pid).value))
       case Delete(tid) =>
         var found := FindTid(EnsureTcbPool(s).slots, POOL, BLOCKS, tid);
         && s.current.value !in s.looping
         && (found.Some? ==> Removable(s, found.value))
       case Acquire(l, _) =>
         && POOL <= s.current.value
         && (s.current.value in s.looping ==> s.looping[s.current.value] == l)
       case Release(_) => s.current.value !in s.looping
       case Store(address, _) => Elsewhere(s, address)
  }

  // ---- Removing one element ---------------------------------------------

  lemma WithoutIs(q: seq<nat>, x: nat)
    requires NoDup(q)
    ensures NoDup(Without(q, x))
    ensures forall y: nat :: y in Without(q, x) <==> y in q && y != x
    ensures |Without(q, x)| == if x in q then |q| - 1 else |q|
  {
    var i, r := IndexOf(q, x), Without(q, x);
    if i < |q| {
      forall y: nat ensures y in r <==> y in q && y != x {
        if y in q && y != x {
          var k := IndexOf(q, y);
          assert r[if k < i then k else k - 1] == y;
        }
      }
    }
  }

  lemma WithoutInRange(q: seq<nat>, x: nat, n: nat)
    requires forall k :: 0 <= k < |q| ==> q[k] < n
    ensures forall k :: 0 <= k < |Without(q, x)| ==> Without(q, x)[k] < n
  {
  }

  lemma WithoutAbsent(q: seq<nat>, x: nat)
    requires x !in q
    ensures Without(q, x) == q
  {
  }

  /** Names, stacks, the queue and the free pages are untouched. */
  ghost predicate SameIdentity(s: State, s': State) {
    && s.WellFormed() && s'.WellFormed()
    && s'.queue == s.queue && s'.pages == s.pages && s'.nextPid == s.nextPid && s'.nextTid == s.nextTid
    && forall i :: 0 <= i < BLOCKS ==>
         && s'.slots[i].pid == s.slots[i].pid
         && s'.slots[i].tid == s.slots[i].tid
         && s'.slots[i].stackBase == s.slots[i].stackBase
  }

  lemma OwnershipCarriesOver(s: State, s': State)
    requires Stacks(s) && Names(s) && SameIdentity(s, s')
    ensures Stacks(s') && Names(s')
  {
  }

  // ---- Admission ---------------------------------------------------------

  /** What a caller of Admit has prepared: a dead slot and a page taken off the free set. */
  ghost predicate Admissible(s: State, m: Pages, pid: nat, tid: nat, i: nat, slot: Slot) {
    && s.WellFormed() && i < BLOCKS && !Live(s, i) && (i < POOL || s.tcbReady)
    && (slot.state.Ready? || slot.state.Blocked?)
    && slot.esp + 4 == slot.stackBase + 4096
    && slot.stackBase % PAGE_SIZE == 0 && slot.stackBase / PAGE_SIZE in s.pages.free
    && m == s.pages.(free := s.pages.free - {slot.stackBase / PAGE_SIZE})
    && s.nextPid <= pid < WORD && s.nextTid <= tid < WORD
    && (i < POOL ==> s.nextPid < pid == slot.pid)
    && (POOL <= i ==> slot.pid == 0 && s.nextTid < tid == slot.tid)
  }

  function Admitted(s: State, m: Pages, pid: nat, tid: nat, i: nat, slot: Slot, entry: nat): State
    requires i < |s.slots|
  {
    Admit(s.(pages := m, nextPid := pid, nextTid := tid), i, slot, entry)
  }

  lemma AdmitKeepsShape(s: State, m: Pages, pid: nat, tid: nat, i: nat, slot: Slot, entry: nat)
    requires Shape(s) && Roles(s) && Admissible(s, m, pid, tid, i, slot)
    ensures var s' := Admitted(s, m, pid, tid, i, slot, entry);
            Shape(s') && Roles(s')
  {
    var s' := Admitted(s, m, pid, tid, i, slot, entry);
    assert i !in s.queue;
    assert forall j: nat :: j in s'.queue <==> j in s.queue || j == i;
  }

  lemma AdmitKeepsNames(s: State, m: Pages, pid: nat, tid: nat, i: nat, slot: Slot, entry: nat)
    requires Shape(s) && Names(s) && Admissible(s, m, pid, tid, i, slot)
    ensures Names(Admitted(s, m, pid, tid, i, slot, entry))
  {
    var s' := Admitted(s, m, pid, tid, i, slot, entry);
    assert i !in s.queue;
    assert forall j: nat :: j in s'.queue <==> j in s.queue || j == i;
  }

  lemma AdmitKeepsStacks(s: State, m: Pages, pid: nat, tid: nat, i: nat, slot: Slot, entry: nat)
    requires Shape(s) && Stacks(s) && Admissible(s, m, pid, tid, i, slot)
    ensures Stacks(Admitted(s, m, pid, tid, i, slot, entry))
  {
    var s' := Admitted(s, m, pid, tid, i, slot, entry);
    assert i !in s.queue;
    assert forall j: nat :: j in s'.queue <==> j in s.queue || j == i;
    assert forall j: nat :: j in s.queue ==> OwnsPage(s.pages, s.slots[j].stackBase);
  }

  lemma AdmitKeepsLocks(s: State, m: Pages, pid: nat, tid: nat, i: nat, slot: Slot, entry: nat)
    requires Shape(s) && WaitLists(s) && NoStranded(s) && Admissible(s, m, pid, tid, i, slot)
    ensures var s' := Admitted(s, m, pid, tid, i, slot, entry);
            WaitLists(s') && NoStranded(s')
  {
    var s' := Admitted(s, m, pid, tid, i, slot, entry);
    assert i !in s.looping;
    forall l: nat, j: nat | l < |s.locks| ensures Waits(s', l, j) == Waits(s, l, j) {
    }
    forall l: nat, t: nat | AboutToRetry(s, l, t) ensures AboutToRetry(s', l, t) {
    }
  }

  lemma LogGrows(log: seq<Event>, e: Event, idle: Option<nat>)
    requires GoodLog(log, idle) && Justified(log, e, idle)
    ensures GoodLog(log + [e], idle)
    ensures forall i: nat :: LastTouch(log + [e], i) == if e.id == i then Some(e) else LastTouch(log, i)
  {
    assert (log + [e])[..|log|] == log;
  }

  /** The new stack is another page than those in use, and its entry word is the last one on it. */
  lemma AdmitsAtPageEnd(s: State, m: Pages, pid: nat, tid: nat, i: nat, slot: Slot)
    requires Stacks(s) && Admissible(s, m, pid, tid, i, slot)
    ensures AtPageEnd(slot.esp)
    ensures forall j: nat :: j in s.queue ==> s.slots[j].stackBase != slot.stackBase
  {
    forall j: nat | j in s.queue ensures s.slots[j].stackBase != slot.stackBase {
      assert OwnsPage(s.pages, s.slots[j].stackBase);
    }
  }

  lemma AdmitKeepsContexts(s: State, m: Pages, pid: nat, tid: nat, i: nat, slot: Slot, entry: nat)
    requires Shape(s) && Roles(s) && Stacks(s) && Contexts(s) && Admissible(s, m, pid, tid, i, slot)
    ensures Contexts(Admitted(s, m, pid, tid, i, slot, entry))
  {
    hide AtPageEnd, Stacks, GoodLog, LastTouch;
    var s' := Admitted(s, m, pid, tid, i, slot, entry);
    assert i !in s.queue;
    AdmitsAtPageEnd(s, m, pid, tid, i, slot);
    LogGrows(s.log, Created(i, slot.esp, entry), s.idle);
    forall j: nat | j in s'.queue && s'.current != Some(j) ensures Resumable(s', j) {
      if j != i {
        assert j in s.queue && Resumable(s, j);
      }
    }
  }

  lemma AdmitKeepsInv(s: State, m: Pages, pid: nat, tid: nat, i: nat, slot: Slot, entry: nat)
    requires Inv(s) && Admissible(s, m, pid, tid, i, slot)
    ensures Inv(Admitted(s, m, pid, tid, i, slot, entry))
  {
    AdmitKeepsShape(s, m, pid, tid, i, slot, entry);
    AdmitKeepsNames(s, m, pid, tid, i, slot, entry);
    AdmitKeepsStacks(s, m, pid, tid, i, slot, entry);
    AdmitKeepsLocks(s, m, pid, tid, i, slot, entry);
    AdmitKeepsContexts(s, m, pid, tid, i, slot, entry);
  }

  /** Marking the untouched TCB pool dead changes no live block. */
  lemma EnsureTcbPoolKeepsShape(s: State)
    requires Shape(s)
    ensures var t := EnsureTcbPool(s);
            && Shape(t) && t.tcbReady && t == s.(slots := t.slots, tcbReady := true)
            && forall i :: 0 <= i < BLOCKS && (i < POOL || i in s.queue) ==> t.slots[i] == s.slots[i]
  {
    var t := EnsureTcbPool(s);
    assert forall i: nat :: Live(t, i) == Live(s, i);
  }

  /** The slot create_thread picks is on neither the queue nor a wait list; on first use every one is dead and nameless. */
  lemma DeadTcbIsFree(s: State)
    requires Shape(s) && WaitLists(s)
    ensures var t := EnsureTcbPool(s);
            && t == s.(slots := t.slots, tcbReady := true) && |t.slots| == BLOCKS
            && forall i :: POOL <= i < BLOCKS && t.slots[i].state.Dead? ==>
                 i !in s.queue && forall l :: 0 <= l < |s.locks| ==> i !in s.locks[l].waiters
    ensures var t := EnsureTcbPool(s);
            !s.tcbReady ==> forall i :: 64 <= i < 128 ==> t.slots[i].state.Dead? && t.slots[i].pid == t.slots[i].tid == 0
  {
    EnsureTcbPoolKeepsShape(s);
    var t := EnsureTcbPool(s);
    forall i, l | POOL <= i < BLOCKS && t.slots[i].state.Dead? && 0 <= l < |s.locks|
      ensures i !in s.queue && i !in s.locks[l].waiters
    {
      assert !Live(t, i);
      assert i in s.locks[l].waiters ==> Waits(s, l, i);
    }
  }

  /** Before the pool's first use no thread is live, so none waits. */
  lemma EnsureTcbPoolKeepsLocks(s: State)
    requires Shape(s) && WaitLists(s) && !s.tcbReady
    ensures WaitLists(EnsureTcbPool(s)) && NoStranded(EnsureTcbPool(s))
  {
    EnsureTcbPoolKeepsShape(s);
    var s' := EnsureTcbPool(s);
    assert forall i: nat :: i in s.queue ==> i < POOL;
    assert s.looping == map[];
    assert forall l: nat, j: nat :: l < |s.locks| ==> !Waits(s', l, j) && !Waits(s, l, j);
    assert forall l: nat :: l < |s.locks| && s.locks[l].waiters != [] ==> s.locks[l].waiters[0] in s.locks[l].waiters;
  }

  lemma EnsureTcbPoolKeepsInv(s: State)
    requires Inv(s)
    ensures Inv(EnsureTcbPool(s)) && EnsureTcbPool(s).queue == s.queue && EnsureTcbPool(s).tcbReady
    ensures forall i: nat :: i in s.queue ==> EnsureTcbPool(s).slots[i] == s.slots[i]
  {
    hide AtPageEnd, GoodLog, LastTouch, WaitLists, NoStranded;
    EnsureTcbPoolKeepsShape(s);
    var s' := EnsureTcbPool(s);
    if !s.tcbReady {
      EnsureTcbPoolKeepsLocks(s);
      forall i: nat | i in s'.queue && s'.current != Some(i) ensures Resumable(s', i) {
        assert Resumable(s, i);
      }
    }
  }

  lemma PickPcbIsDead(s: State)
    requires Shape(s)
    ensures PickPcb(s).None? <==> forall i: nat :: i < POOL ==> i in s.queue
    ensures PickPcb(s).Some? ==> PickPcb(s).value < POOL && PickPcb(s).value !in s.queue
  {
    assert forall i: nat :: i < POOL ==> (i in s.queue <==> !s.slots[i].state.Dead?);
  }

  /** A creation that succeeds admits the chosen slot; one that fails changes nothing. */
  lemma CreateAdmits(s: State, entry: nat, priority: nat, state: ProcState)
    returns (pages: Pages, pid: nat, i: nat, slot: Slot)
    requires Shape(s) && Sound(s.pages) && s.nextPid < WORD - 1 && s.nextTid < WORD
    requires state.Ready? || state.Blocked?
    ensures var (s', made) := CreateProcess(s, entry, priority);
            if made.None? then s' == s
            else
              && i == made.value && Admissible(s, pages, pid, s.nextTid, i, slot)
              && s'.With(i, state) == Admitted(s, pages, pid, s.nextTid, i, slot, entry)
  {
    PickPcbIsDead(s);
    AllocIsFresh(s.pages);
    var (s', made) := CreateProcess(s, entry, priority);
    pages, pid, i, slot := s'.pages, s'.nextPid, 0, s.slots[0];
    if made.Some? {
      i := made.value;
      slot := s'.slots[i].(state := state);
      assert s'.slots[i := slot] == s.slots[i := slot];
      assert Admissible(s, pages, pid, s.nextTid, i, slot);
    }
  }

  lemma CreateKeepsInv(s: State, entry: nat, priority: nat)
    requires Inv(s) && s.nextPid < WORD - 1
    ensures Inv(CreateProcess(s, entry, priority).0)
  {
    var pages, pid, i, slot := CreateAdmits(s, entry, priority, Ready);
    var (s', made) := CreateProcess(s, entry, priority);
    if made.Some? {
      AdmitKeepsInv(s, pages, pid, s.nextTid, i, slot, entry);
      assert s'.With(i, Ready) == s';
    }
  }

  lemma NewKeepsInv(s: State, entry: nat)
    requires Inv(s) && s.nextPid < WORD - 1
    ensures Inv(NewBlocked(s, entry))
  {
    var pages, pid, i, slot := CreateAdmits(s, entry, 1, Blocked);
    if CreateProcess(s, entry, 1).1.Some? {
      AdmitKeepsInv(s, pages, pid, s.nextTid, i, slot, entry);
    }
  }

  lemma SpawnAdmits(s: State, parent: Option<nat>, entry: nat)
    returns (pages: Pages, tid: nat, i: nat, slot: Slot)
    requires Shape(s) && Names(s) && Sound(s.pages) && s.tcbReady && s.nextTid < WORD - 1
    requires parent.Some? ==> parent.value < BLOCKS
    ensures var (s', made) := CreateThread(s, parent, entry);
            if made.None? then s' == s
            else
              && i == made.value && Admissible(s, pages, s.nextPid, tid, i, slot)
              && s' == Admitted(s, pages, s.nextPid, tid, i, slot, entry)
  {
    AllocIsFresh(s.pages);
    var stack;
    pages, stack := AllocPage(s.pages).0, AllocPage(s.pages).1;
    var free := FirstDead(s.slots, POOL, BLOCKS, false);
    i, tid := if free.Some? then free.value else 0, s.nextTid + 1;
    var priority := if parent.Some? then s.slots[parent.value].priority else 1;
    slot := Slot(0, Ready, priority, EntryFrame(stack), stack, tid, parent);
  }

  lemma SpawnKeepsInv(s: State, parent: Option<nat>, entry: nat)
    requires Inv(s) && s.nextTid < WORD - 1
    requires parent.Some? ==> parent.value < BLOCKS
    ensures Inv(CreateThread(s, parent, entry).0)
  {
    EnsureTcbPoolKeepsInv(s);
    var t := EnsureTcbPool(s);
    assert CreateThread(s, parent, entry) == CreateThread(t, parent, entry);
    var pages, tid, i, slot := SpawnAdmits(t, parent, entry);
    if CreateThread(t, parent, entry).1.Some? {
      AdmitKeepsInv(t, pages, t.nextPid, tid, i, slot, entry);
    }
  }

  // ---- Switching ---------------------------------------------------------

  ghost predicate SameMembers(q: seq<nat>, r: seq<nat>) {
    forall i: nat :: i in q <==> i in r
  }

  lemma RotationMembers(s: State)
    ensures SameMembers(Rotation(s), s.queue) && |Rotation(s)| == |s.queue|
  {
    if s.current.Some? && s.current.value in s.queue {
      var p := IndexOf(s.queue, s.current.value);
      assert s.queue == s.queue[..p + 1] + s.queue[p + 1..];
    }
  }

  /** A block that may be switched to. */
  ghost predicate Candidate(s: State, next: nat) {
    s.WellFormed() && next in s.queue && s.slots[next].state.Ready? && s.current.Some? && s.current != Some(next)
  }

  /** Only the two blocks' states and the stored stack pointer change. */
  lemma DispatchEffect(s: State, next: nat, esp: nat)
    requires s.WellFormed() && s.current.Some? && next < BLOCKS && s.current != Some(next)
    ensures var s', from := Dispatch(s, next, esp), s.current.value;
            && s'.WellFormed() && SameIdentity(s, s')
            && s' == s.(slots := s'.slots, current := Some(next), log := s'.log)
            && s'.slots[next] == s.slots[next].(state := Running)
            && s'.slots[from] == s.slots[from].(state := if s.slots[from].state.Running? then Ready else s.slots[from].state,
                                                esp := esp)
            && |s'.log| == |s.log| + 2 && s'.log[|s.log| + 1].Loaded? && s'.log[|s.log| + 1].esp == s.slots[next].esp
            && forall i :: 0 <= i < BLOCKS && i != from && i != next ==> s'.slots[i] == s.slots[i]
  {
  }

  lemma DispatchToSelf(s: State, esp: nat)
    requires s.WellFormed() && s.current.Some?
    ensures Dispatch(s, s.current.value, esp) == s
  {
  }

  lemma DispatchKeepsShape(s: State, next: nat, esp: nat)
    requires Shape(s) && Candidate(s, next)
    ensures Shape(Dispatch(s, next, esp))
  {
    var s' := Dispatch(s, next, esp);
    assert forall i: nat :: i < BLOCKS ==> s'.slots[i].state.Dead? == s.slots[i].state.Dead?;
  }

  lemma DispatchKeepsRoles(s: State, next: nat, esp: nat)
    requires Seated(s) && Candidate(s, next)
    ensures Roles(Dispatch(s, next, esp))
  {
  }

  lemma DispatchKeepsLocks(s: State, next: nat, esp: nat)
    requires WaitLists(s) && NoStranded(s) && Candidate(s, next)
    ensures WaitLists(Dispatch(s, next, esp)) && NoStranded(Dispatch(s, next, esp))
  {
    var s' := Dispatch(s, next, esp);
    forall l: nat, i: nat ensures Waits(s', l, i) == Waits(s, l, i) && AboutToRetry(s', l, i) == AboutToRetry(s, l, i) {
    }
  }

  lemma DispatchKeepsLog(s: State, next: nat, esp: nat)
    requires Contexts(s) && Candidate(s, next)
    ensures var s', from := Dispatch(s, next, esp), s.current.value;
            && GoodLog(s'.log, s.idle)
            && forall i: nat :: i != next ==>
                 LastTouch(s'.log, i) == if i == from then Some(Saved(from, esp)) else LastTouch(s.log, i)
  {
    hide AtPageEnd, GoodLog, LastTouch;
    var s', from := Dispatch(s, next, esp), s.current.value;
    assert Resumable(s, next);
    var e1, e2 := Saved(from, esp), s'.log[|s.log| + 1];
    LogGrows(s.log, e1, s.idle);
    LogGrows(s.log + [e1], e2, s.idle);
    assert s'.log == s.log + [e1] + [e2];
  }

  lemma DispatchKeepsContexts(s: State, next: nat, esp: nat)
    requires Contexts(s) && Candidate(s, next)
    ensures Contexts(Dispatch(s, next, esp))
  {
    hide AtPageEnd, GoodLog, LastTouch;
    var s', from := Dispatch(s, next, esp), s.current.value;
    DispatchKeepsLog(s, next, esp);
    forall i: nat | i in s'.queue && s'.current != Some(i) ensures Resumable(s', i) {
      if i != from {
        assert Resumable(s, i);
      }
    }
  }

  lemma DispatchKeepsCore(s: State, next: nat, esp: nat)
    requires Core(s) && Candidate(s, next)
    ensures Inv(Dispatch(s, next, esp))
  {
    DispatchKeepsShape(s, next, esp);
    DispatchKeepsRoles(s, next, esp);
    DispatchEffect(s, next, esp);
    OwnershipCarriesOver(s, Dispatch(s, next, esp));
    DispatchKeepsLocks(s, next, esp);
    DispatchKeepsContexts(s, next, esp);
  }

  /** The search always finds a block unless idle is current; the idle fallback is not needed. */
  lemma SearchFinds(s: State)
    requires Shape(s) && Seated(s)
    ensures var r := FirstReady(s.slots, Rotation(s));
            && (s.current != s.idle ==> r.Some?)
            && (r.Some? ==> Candidate(s, r.value))
            && (r.None? <==> forall i: nat :: i in s.queue ==> !s.slots[i].state.Ready?)
  {
    RotationMembers(s);
  }

  lemma ScheduleKeepsCore(s: State, esp: nat)
    requires Core(s)
    ensures Inv(Schedule(s, esp))
  {
    SearchFinds(s);
    var r := FirstReady(s.slots, Rotation(s));
    if r.Some? {
      DispatchKeepsCore(s, r.value, esp);
    }
  }

  // ---- Retirement --------------------------------------------------------

  ghost predicate Retirable(s: State, i: nat, slot: Slot) {
    && s.WellFormed() && i in s.queue && Removable(s, i)
    && slot.state.Dead? && slot.pid == 0
  }

  lemma RetireKeepsShape(s: State, i: nat, slot: Slot)
    requires Shape(s) && Roles(s) && Retirable(s, i, slot)
    ensures Shape(Retire(s, i, slot)) && Roles(Retire(s, i, slot))
  {
    hide Without, IndexOf, FreePage, OnNoWaitList, LastRetrier;
    WithoutIs(s.queue, i);
    WithoutInRange(s.queue, i, BLOCKS);
  }

  lemma RetireKeepsStacks(s: State, i: nat, slot: Slot)
    requires Shape(s) && Stacks(s) && Retirable(s, i, slot)
    ensures Stacks(Retire(s, i, slot))
  {
    WithoutIs(s.queue, i);
    FreeAddsOne(s.pages, s.slots[i].stackBase);
    var s' := Retire(s, i, slot);
    forall j: nat | j in s'.queue ensures OwnsPage(s'.pages, s'.slots[j].stackBase) {
      assert OwnsPage(s.pages, s.slots[j].stackBase) && OwnsPage(s.pages, s.slots[i].stackBase);
      assert s.slots[j].stackBase != s.slots[i].stackBase;
    }
  }

  lemma RetireKeepsNames(s: State, i: nat, slot: Slot)
    requires Shape(s) && Names(s) && Retirable(s, i, slot)
    ensures Names(Retire(s, i, slot))
  {
    hide Without, IndexOf, FreePage, OnNoWaitList, LastRetrier;
    WithoutIs(s.queue, i);
    WithoutInRange(s.queue, i, BLOCKS);
  }

  lemma RetireKeepsWaitLists(s: State, i: nat, slot: Slot)
    requires Shape(s) && WaitLists(s) && Retirable(s, i, slot)
    ensures WaitLists(Retire(s, i, slot))
  {
    WithoutIs(s.queue, i);
    var s' := Retire(s, i, slot);
    forall l: nat, j: nat | l < |s.locks| ensures j in s'.locks[l].waiters <==> Waits(s', l, j) {
      assert j in s.locks[l].waiters <==> Waits(s, l, j);
    }
  }

  /** Some other woken thread retries in place of the one removed. */
  lemma RetireKeepsNoStranded(s: State, i: nat, slot: Slot)
    requires WaitLists(s) && NoStranded(s) && Retirable(s, i, slot)
    ensures NoStranded(Retire(s, i, slot))
  {
    hide Without, IndexOf, FreePage;
    WithoutInRange(s.queue, i, BLOCKS);
    var s' := Retire(s, i, slot);
    forall l: nat | l < |s'.locks| && s'.locks[l].word == 0 && s'.locks[l].waiters != []
      ensures exists t :: AboutToRetry(s', l, t)
    {
      var u :| AboutToRetry(s, l, u);
      if u == i {
        var t: nat :| AboutToRetry(s, l, t) && t != i;
        assert AboutToRetry(s', l, t);
      } else {
        assert AboutToRetry(s', l, u);
      }
    }
  }

  lemma RetireKeepsContexts(s: State, i: nat, slot: Slot)
    requires Shape(s) && Contexts(s) && Retirable(s, i, slot)
    ensures Contexts(Retire(s, i, slot))
  {
    WithoutIs(s.queue, i);
    var s' := Retire(s, i, slot);
    forall j: nat | j in s'.queue && s'.current != Some(j) ensures Resumable(s', j) {
      assert Resumable(s, j);
    }
  }

  lemma RetireKeepsInv(s: State, i: nat, slot: Slot)
    requires Inv(s) && Retirable(s, i, slot)
    ensures Inv(Retire(s, i, slot))
  {
    RetireKeepsShape(s, i, slot);
    RetireKeepsStacks(s, i, slot);
    RetireKeepsNames(s, i, slot);
    RetireKeepsWaitLists(s, i, slot);
    RetireKeepsNoStranded(s, i, slot);
    RetireKeepsContexts(s, i, slot);
  }

  /** process_exit is a switch to idle followed by the removal of the block left. */
  lemma ExitIsSwitchThenRetire(s: State, esp: nat)
    requires s.WellFormed() && s.current.Some? && s.idle.Some? && s.current != s.idle
    requires s.slots[s.current.value].state.Running?
    ensures var s1 := Dispatch(s, s.idle.value, esp);
            var i := s.current.value;
            Exit(s, esp) == Retire(s1, i, s1.slots[i].(state := Dead, pid := 0, stackBase := 0))
  {
    var s1 := Dispatch(s, s.idle.value, esp);
    var i := s.current.value;
    assert Exit(s, esp).slots == s1.slots[i := s1.slots[i].(state := Dead, pid := 0, stackBase := 0)];
  }

  /** The stack pointer that process_exit clears is overwritten by context_switch anyway. */
  lemma ExitViaRetire(s: State, esp: nat)
    requires s.WellFormed() && s.current.Some? && s.idle.Some?
    ensures var i := s.current.value;
            var s1 := Retire(s, i, s.slots[i].(state := Dead, pid := 0, stackBase := 0));
            Exit(s, esp) == ContextSwitch(s1.(current := s.idle).With(s.idle.value, Running), i, s.idle.value, esp)
  {
    var i, k := s.current.value, s.idle.value;
    var a := s.slots[i].(state := Dead, pid := 0, stackBase := 0, esp := 0);
    var b := s.slots[i].(state := Dead, pid := 0, stackBase := 0);
    var left, right := s.slots[i := a], s.slots[i := b];
    left, right := left[k := left[k].(state := Running)], right[k := right[k].(state := Running)];
    assert left[i := left[i].(esp := esp)] == right[i := right[i].(esp := esp)];
  }

  lemma DispatchKeepsRetriers(s: State, next: nat, esp: nat)
    requires Shape(s) && Roles(s) && WaitLists(s) && Candidate(s, next)
    ensures (var s', i := Dispatch(s, next, esp), s.current.value;
             && s'.WellFormed() && s'.queue == s.queue && s'.current == Some(next) && s'.idle == s.idle
             && OnNoWaitList(s', i) && LastRetrier(s', i) == LastRetrier(s, i))
  {
    var s' := Dispatch(s, next, esp);
    assert forall l: nat :: l < |s.locks| ==> !Waits(s, l, s.current.value);
    assert forall l: nat, t: nat :: AboutToRetry(s', l, t) == AboutToRetry(s, l, t);
  }

  lemma ExitKeepsInv(s: State, esp: nat)
    requires Inv(s) && s.current != s.idle && !LastRetrier(s, s.current.value)
    ensures Inv(Exit(s, esp))
  {
    hide Exit, Dispatch, WaitLists, NoStranded, Stacks, Names, Contexts;
    var i, s1 := s.current.value, Dispatch(s, s.idle.value, esp);
    DispatchKeepsCore(s, s.idle.value, esp);
    DispatchKeepsRetriers(s, s.idle.value, esp);
    ExitIsSwitchThenRetire(s, esp);
    RetireKeepsInv(s1, i, s1.slots[i].(state := Dead, pid := 0, stackBase := 0));
  }

  lemma KillKeepsInv(s: State, pid: nat)
    requires Inv(s)
    requires FindPid(s, s.queue, pid).Some? ==> Removable(s, FindPid(s, s.queue, pid).value)
    ensures Inv(KillProcess(s, pid))
  {
    var found := FindPid(s, s.queue, pid);
    if found.Some? {
      RetireKeepsInv(s, found.value, s.slots[found.value].(state := Dead, stackBase := 0, pid := 0));
    }
  }

  /** Marking the pool leaves untouched what thread_delete's target may be. */
  lemma PoolKeepsRemovable(s: State, tid: nat)
    requires Inv(s)
    ensures (var t := EnsureTcbPool(s);
             var found := FindTid(t.slots, POOL, BLOCKS, tid);
             found.Some? ==> found.value in t.queue && (Removable(t, found.value) <==> Removable(s, found.value)))
  {
    hide Contexts, Stacks, Names, NoStranded;
    var t := EnsureTcbPool(s);
    assert forall i: nat :: POOL <= i < BLOCKS && !s.tcbReady ==> t.slots[i].state.Dead?;
  }

  lemma DeleteKeepsInv(s: State, tid: nat)
    requires Inv(s)
    requires var found := FindTid(EnsureTcbPool(s).slots, POOL, BLOCKS, tid);
             found.Some? ==> Removable(s, found.value)
    ensures Inv(ThreadDelete(s, tid))
  {
    hide Contexts, Stacks, WaitLists, NoStranded, Retire, Removable;
    EnsureTcbPoolKeepsInv(s);
    PoolKeepsRemovable(s, tid);
    var t := EnsureTcbPool(s);
    var found := FindTid(t.slots, POOL, BLOCKS, tid);
    if found.Some? {
      var i := found.value;
      RetireKeepsInv(t, i, t.slots[i].(state := Dead, stackBase := 0, tid := 0));
    }
  }

  // ---- Mutexes -----------------------------------------------------------

  /** The current block may try lock `l`: it is a thread and not in another lock's loop. */
  ghost predicate MayLock(s: State, l: nat) {
    && s.WellFormed() && s.current.Some? && l < |s.locks|
    && POOL <= s.current.value
    && (s.current.value in s.looping ==> s.looping[s.current.value] == l)
  }

  /** Only block states, locks and history of lock loops may differ. */
  ghost predicate SameButStates(s: State, s': State) {
    && s.WellFormed() && s'.WellFormed()
    && s' == s.(slots := s'.slots, locks := s'.locks, looping := s'.looping)
    && forall i :: 0 <= i < BLOCKS ==> s'.slots[i] == s.slots[i].(state := s'.slots[i].state)
  }

  lemma ContextsCarryOver(s: State, s': State)
    requires Contexts(s) && SameButStates(s, s')
    ensures Contexts(s')
  {
    forall i: nat | i in s'.queue && s'.current != Some(i) ensures Resumable(s', i) {
      assert Resumable(s, i);
    }
  }

  lemma ShapeCarriesOver(s: State, s': State)
    requires Shape(s) && SameButStates(s, s')
    requires forall i :: 0 <= i < BLOCKS ==> s'.slots[i].state.Dead? == s.slots[i].state.Dead?
    ensures Shape(s')
  {
    assert forall i: nat :: Live(s', i) == Live(s, i);
  }

  lemma ParkKeepsWaitLists(s: State, l: nat)
    requires Shape(s) && Roles(s) && WaitLists(s) && MayLock(s, l)
    ensures WaitLists(Park(s, l))
  {
    var c, s' := s.current.value, Park(s, l);
    assert !Waits(s, l, c);
    forall k: nat, i: nat | k < |s.locks|
      ensures i in s'.locks[k].waiters <==> Waits(s', k, i)
    {
      assert i in s.locks[k].waiters <==> Waits(s, k, i);
    }
  }

  lemma ParkKeepsNoStranded(s: State, l: nat)
    requires NoStranded(s) && MayLock(s, l)
    ensures NoStranded(Park(s, l))
  {
    var s' := Park(s, l);
    forall k: nat | k < |s.locks| && s'.locks[k].word == 0 && s'.locks[k].waiters != []
      ensures exists t :: AboutToRetry(s', k, t)
    {
      var t :| AboutToRetry(s, k, t);
      assert AboutToRetry(s', k, t);
    }
  }

  lemma ParkKeepsCore(s: State, l: nat)
    requires Inv(s) && MayLock(s, l)
    ensures Core(Park(s, l))
  {
    ParkKeepsWaitLists(s, l);
    ParkKeepsNoStranded(s, l);
    ShapeCarriesOver(s, Park(s, l));
    ContextsCarryOver(s, Park(s, l));
    OwnershipCarriesOver(s, Park(s, l));
  }

  lemma TakeKeepsLocks(s: State, l: nat)
    requires WaitLists(s) && NoStranded(s) && MayLock(s, l) && s.idle.Some? && s.locks[l].word == 0
    requires s.slots[s.current.value].state.Running?
    ensures WaitLists(LockAttempt(s, l, 0)) && NoStranded(LockAttempt(s, l, 0))
  {
    var s' := LockAttempt(s, l, 0);
    forall k: nat, i: nat ensures Waits(s', k, i) == Waits(s, k, i) {
    }
    forall k: nat | k < |s.locks| && s'.locks[k].word == 0 && s'.locks[k].waiters != []
      ensures exists t :: AboutToRetry(s', k, t)
    {
      var t :| AboutToRetry(s, k, t);
      assert AboutToRetry(s', k, t);
    }
  }

  lemma TakeKeepsInv(s: State, l: nat)
    requires Inv(s) && MayLock(s, l) && s.locks[l].word == 0
    ensures Inv(LockAttempt(s, l, 0))
  {
    var s' := LockAttempt(s, l, 0);
    TakeKeepsLocks(s, l);
    ShapeCarriesOver(s, s');
    OwnershipCarriesOver(s, s');
    ContextsCarryOver(s, s');
  }

  lemma UnlockKeepsWaitLists(s: State, l: nat)
    requires Shape(s) && WaitLists(s) && l < |s.locks|
    ensures WaitLists(Unlock(s, l))
  {
    var w, s' := s.locks[l].waiters, Unlock(s, l);
    if w != [] {
      assert Waits(s, l, w[0]);
      assert w == [w[0]] + w[1..];
    }
    forall k: nat, i: nat | k < |s.locks|
      ensures i in s'.locks[k].waiters <==> Waits(s', k, i)
    {
      assert i in s.locks[k].waiters <==> Waits(s, k, i);
    }
  }

  lemma UnlockKeepsNoStranded(s: State, l: nat)
    requires WaitLists(s) && NoStranded(s) && l < |s.locks|
    ensures NoStranded(Unlock(s, l))
  {
    var w, s' := s.locks[l].waiters, Unlock(s, l);
    assert w != [] ==> Waits(s, l, w[0]);
    forall k: nat | k < |s.locks| && s'.locks[k].word == 0 && s'.locks[k].waiters != []
      ensures exists t :: AboutToRetry(s', k, t)
    {
      if k == l {
        assert AboutToRetry(s', l, w[0]);
      } else {
        var t :| AboutToRetry(s, k, t);
        assert AboutToRetry(s', k, t);
      }
    }
  }

  lemma UnlockKeepsInv(s: State, l: nat)
    requires Inv(s) && l < |s.locks|
    ensures Inv(Unlock(s, l))
  {
    hide Contexts, NoStranded, Stacks, Names;
    var w := s.locks[l].waiters;
    assert w != [] ==> Waits(s, l, w[0]);
    UnlockKeepsWaitLists(s, l);
    UnlockKeepsNoStranded(s, l);
    ShapeCarriesOver(s, Unlock(s, l));
    ContextsCarryOver(s, Unlock(s, l));
    OwnershipCarriesOver(s, Unlock(s, l));
  }

  lemma StoreKeepsContexts(s: State, address: nat, value: nat)
    requires Stacks(s) && Contexts(s) && Elsewhere(s, address)
    ensures Contexts(s.(memory := s.memory[address := value]))
  {
    hide GoodLog, LastTouch;
    var s' := s.(memory := s.memory[address := value]);
    forall i: nat | i in s'.queue && s'.current != Some(i) ensures Resumable(s', i) {
      assert Resumable(s, i) && OwnsPage(s.pages, s.slots[i].stackBase);
    }
  }

  lemma StoreKeepsInv(s: State, address: nat, value: nat)
    requires Inv(s) && Elsewhere(s, address)
    ensures Inv(s.(memory := s.memory[address := value]))
  {
    var s' := s.(memory := s.memory[address := value]);
    StoreKeepsContexts(s, address, value);
    forall k: nat, i: nat ensures Waits(s', k, i) == Waits(s, k, i) && AboutToRetry(s', k, i) == AboutToRetry(s, k, i) {
    }
    assert forall i: nat :: Live(s', i) == Live(s, i);
  }

  // ---- Every step --------------------------------------------------------

  lemma StepKeepsInv(s: State, op: Op)
    requires Inv(s) && Allowed(s, op)
    ensures Inv(Step(s, op))
  {
    match op
    case Create(entry, priority) => CreateKeepsInv(s, entry, priority);
    case New(entry) => NewKeepsInv(s, entry);
    case Spawn(parent, entry) => SpawnKeepsInv(s, parent, entry);
    case Tick(esp) => ScheduleKeepsCore(s, esp);
    case Finish(esp) => ExitKeepsInv(s, esp);
    case Kill(pid) => KillKeepsInv(s, pid);
    case Delete(tid) => DeleteKeepsInv(s, tid);
    case Acquire(l, esp) =>
      if s.locks[l].word == 0 {
        TakeKeepsInv(s, l);
      } else {
        ParkKeepsCore(s, l);
        ScheduleKeepsCore(Park(s, l), esp);
      }
    case Release(l) => UnlockKeepsInv(s, l);
    case Store(address, value) => StoreKeepsInv(s, address, value);
  }
}
