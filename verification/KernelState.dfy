/**
 * The scheduler, the two block pools, the mutexes and the stack pages as one
 * value, and every kernel operation as a function on it
 * (src/scheduler.c, src/thread.c, src/mutex.c, src/context_switch.asm).
 *
 * A block is named by its slot: 0..63 are the entries of pcb_pool, 64..127 the
 * entries of tcb_pool.  A thread control block starts with a pcb_t and is cast
 * to it throughout, so both kinds are a Slot here.
 */
module KernelState {
  import opened Machine32
  import opened Options
  import opened PageSet

  const POOL: nat := 64
  const BLOCKS: nat := 128

  datatype ProcState = Ready | Running | Blocked | Dead

  datatype Slot = Slot(
    pid: nat, state: ProcState, priority: nat, esp: nat, stackBase: nat,
    tid: nat, parent: Option<nat>)

  /** The lock word and the wait list, most recent waiter first. */
  datatype Lock = Lock(word: nat, waiters: seq<nat>)

  /** What happened to a block's saved stack pointer. */
  datatype Event =
    | Created(id: nat, esp: nat, entry: nat)
    | Saved(id: nat, esp: nat)
    | Loaded(id: nat, esp: nat, eip: Option<nat>)

  /**
   * `looping` and `log` are history: the lock in whose retry loop a thread is
   * after a failed attempt, and the stack pointer events so far.
   */
  datatype State = State(
    slots: seq<Slot>, queue: seq<nat>, current: Option<nat>, idle: Option<nat>,
    nextPid: nat, nextTid: nat, tcbReady: bool,
    pages: Pages, memory: map<nat, nat>,
    locks: seq<Lock>, looping: map<nat, nat>, log: seq<Event>)
  {
    /** Every slot number stored anywhere in the state is a slot. */
    predicate WellFormed() {
      && |slots| == BLOCKS
      && (forall k :: 0 <= k < |queue| ==> queue[k] < BLOCKS)
      && (current.Some? ==> current.value < BLOCKS)
      && (idle.Some? ==> idle.value < BLOCKS)
      && (forall l, k :: 0 <= l < |locks| && 0 <= k < |locks[l].waiters| ==> locks[l].waiters[k] < BLOCKS)
    }

    function With(i: nat, state: ProcState): (s': State)
      requires i < |slots|
    {
      this.(slots := slots[i := slots[i].(state := state)])
    }
  }

  // ---- Queue order -------------------------------------------------------

  /** The position of `x` in `q`, or |q| when it is absent. */
  function IndexOf(q: seq<nat>, x: nat): (i: nat)
    ensures i <= |q|
    ensures i < |q| ==> q[i] == x
    ensures forall k :: 0 <= k < i ==> q[k] != x
    ensures x in q <==> i < |q|
  {
    if q == [] then 0 else if q[0] == x then 0 else 1 + IndexOf(q[1..], x)
  }

  function Without(q: seq<nat>, x: nat): seq<nat> {
    var i := IndexOf(q, x);
    if i < |q| then q[..i] + q[i + 1..] else q
  }

  /** The order in which schedule() visits the queue; the current block is last. */
  function Rotation(s: State): seq<nat> {
    if s.current.Some? && s.current.value in s.queue
    then var p := IndexOf(s.queue, s.current.value); s.queue[p + 1..] + s.queue[..p + 1]
    else s.queue
  }

  function FirstReady(slots: seq<Slot>, order: seq<nat>): (r: Option<nat>)
    requires forall k :: 0 <= k < |order| ==> order[k] < |slots|
    ensures r.Some? ==> r.value in order && slots[r.value].state.Ready?
    ensures r.None? ==> forall i :: i in order ==> !slots[i].state.Ready?
  {
    if order == [] then None
    else if slots[order[0]].state.Ready? then Some(order[0])
    else FirstReady(slots, order[1..])
  }

  // ---- Switching ---------------------------------------------------------

  /** context_switch: store the stack pointer, load the other one, return through it. */
  function ContextSwitch(s: State, from: nat, to: nat, esp: nat): State
    requires from < |s.slots| && to < |s.slots|
  {
    var slots := s.slots[from := s.slots[from].(esp := esp)];
    var loaded := slots[to].esp;
    var eip := if loaded in s.memory then Some(s.memory[loaded]) else None;
    s.(slots := slots, log := s.log + [Saved(from, esp), Loaded(to, loaded, eip)])
  }

  function Dispatch(s: State, next: nat, esp: nat): State
    requires s.WellFormed() && s.current.Some? && next < BLOCKS
  {
    var from := s.current.value;
    if next == from then s
    else
      var left := s.slots[from].(state := if s.slots[from].state.Running? then Ready else s.slots[from].state);
      var slots := s.slots[from := left][next := s.slots[next].(state := Running)];
      ContextSwitch(s.(slots := slots, current := Some(next)), from, next, esp)
  }

  /** schedule(), called with stack pointer `esp`. */
  function Schedule(s: State, esp: nat): State
    requires s.WellFormed() && (s.current.Some? ==> s.idle.Some?)
  {
    if s.current.None? then s
    else
      match FirstReady(s.slots, Rotation(s))
      case Some(next) => Dispatch(s, next, esp)
      case None => if s.current == s.idle then s else Dispatch(s, s.idle.value, esp)
  }

  // ---- Creation ----------------------------------------------------------

  /** The first slot in `[lo, hi)` that is DEAD (and has pid 0, when asked). */
  function FirstDead(slots: seq<Slot>, lo: nat, hi: nat, pidZero: bool): (r: Option<nat>)
    requires hi <= |slots|
    ensures r.Some? ==> lo <= r.value < hi && slots[r.value].state.Dead? && (pidZero ==> slots[r.value].pid == 0)
    ensures r.None? ==> forall i :: lo <= i < hi && slots[i].state.Dead? ==> pidZero && slots[i].pid != 0
    decreases hi - lo
  {
    if lo >= hi then None
    else if slots[lo].state.Dead? && (pidZero ==> slots[lo].pid == 0) then Some(lo)
    else FirstDead(slots, lo + 1, hi, pidZero)
  }

  /** alloc_pcb: a never-used slot first, then any dead one. */
  function PickPcb(s: State): Option<nat>
    requires |s.slots| == BLOCKS
  {
    match FirstDead(s.slots, 0, POOL, true)
    case Some(i) => Some(i)
    case None => FirstDead(s.slots, 0, POOL, false)
  }

  /** ensure_pool_init: the static TCB pool is marked dead on first use. */
  function EnsureTcbPool(s: State): State
    requires |s.slots| == BLOCKS
  {
    if s.tcbReady then s
    else s.(tcbReady := true,
            slots := seq(BLOCKS, i requires 0 <= i < BLOCKS =>
              if i < POOL then s.slots[i] else s.slots[i].(state := Dead, pid := 0, tid := 0)))
  }

  /** A block filled in, with its entry frame written, but not yet queued. */
  function Fill(s: State, i: nat, slot: Slot, entry: nat): State
    requires i < |s.slots|
  {
    s.(slots := s.slots[i := slot],
       memory := s.memory[slot.esp := entry],
       log := s.log + [Created(i, slot.esp, entry)])
  }

  /** A filled-in block goes to the queue's tail. */
  function Admit(s: State, i: nat, slot: Slot, entry: nat): State
    requires i < |s.slots|
  {
    Fill(s, i, slot, entry).(queue := s.queue + [i])
  }

  /** The address of the one word pushed on a new stack. */
  function EntryFrame(stack: nat): nat { stack + PAGE_SIZE - 4 }

  /** Slot `i` becomes a READY process on a new stack, unless no page is left. */
  function Populate(s: State, i: nat, entry: nat, priority: nat): (State, Option<nat>)
    requires i < |s.slots|
  {
    var (pages, stack) := AllocPage(s.pages);
    if stack == 0 then (s.(pages := pages), None)
    else
      var pid := (s.nextPid + 1) % WORD;
      var slot := s.slots[i].(pid := pid, state := Ready, priority := priority,
                              esp := EntryFrame(stack), stackBase := stack);
      (Admit(s.(pages := pages, nextPid := pid), i, slot, entry), Some(i))
  }

  function CreateProcess(s: State, entry: nat, priority: nat): (r: (State, Option<nat>))
    requires |s.slots| == BLOCKS
    ensures |r.0.slots| == BLOCKS && (r.1.Some? ==> r.1.value < POOL)
  {
    match PickPcb(s)
    case None => (s, None)
    case Some(i) => Populate(s, i, entry, priority)
  }

  /** The newprocess command: a process marked BLOCKED as soon as it exists. */
  function NewBlocked(s: State, entry: nat): State
    requires |s.slots| == BLOCKS
  {
    var (s', made) := CreateProcess(s, entry, 1);
    match made
    case None => s'
    case Some(i) => s'.With(i, Blocked)
  }

  /** Slot `i` becomes a READY thread on a new stack, unless no page is left. */
  function PopulateThread(s: State, i: nat, parent: Option<nat>, entry: nat): (State, Option<nat>)
    requires i < |s.slots| && (parent.Some? ==> parent.value < |s.slots|)
  {
    var (pages, stack) := AllocPage(s.pages);
    if stack == 0 then (s.(pages := pages), None)
    else
      var tid := (s.nextTid + 1) % WORD;
      var priority := if parent.Some? then s.slots[parent.value].priority else 1;
      var slot := Slot(0, Ready, priority, EntryFrame(stack), stack, tid, parent);
      (Admit(s.(pages := pages, nextTid := tid), i, slot, entry), Some(i))
  }

  function CreateThread(s: State, parent: Option<nat>, entry: nat): (State, Option<nat>)
    requires |s.slots| == BLOCKS && (parent.Some? ==> parent.value < BLOCKS)
  {
    var t := EnsureTcbPool(s);
    match FirstDead(t.slots, POOL, BLOCKS, false)
    case None => (t, None)
    case Some(i) => PopulateThread(t, i, parent, entry)
  }

  // ---- Removal -----------------------------------------------------------

  /** Off the queue, stack page returned, slot overwritten with `slot`; a dead block is in no retry loop. */
  function Retire(s: State, i: nat, slot: Slot): State
    requires i < |s.slots|
  {
    s.(slots := s.slots[i := slot],
       queue := Without(s.queue, i),
       pages := FreePage(s.pages, s.slots[i].stackBase),
       looping := s.looping - {i})
  }

  function Exit(s: State, esp: nat): State
    requires s.WellFormed() && s.current.Some? && s.idle.Some?
  {
    var dying, idle := s.current.value, s.idle.value;
    var s1 := Retire(s, dying, s.slots[dying].(state := Dead, pid := 0, stackBase := 0, esp := 0));
    ContextSwitch(s1.(current := Some(idle)).With(idle, Running), dying, idle, esp)
  }

  /** killprocess: the first block on the queue whose pid matches. */
  function FindPid(s: State, order: seq<nat>, pid: nat): (r: Option<nat>)
    requires forall k :: 0 <= k < |order| ==> order[k] < |s.slots|
    ensures r.Some? ==> r.value in order && s.slots[r.value].pid == pid
    ensures r.None? ==> forall i :: i in order ==> s.slots[i].pid != pid
  {
    if order == [] then None
    else if s.slots[order[0]].pid == pid then Some(order[0])
    else FindPid(s, order[1..], pid)
  }

  function KillProcess(s: State, pid: nat): State
    requires s.WellFormed()
  {
    match FindPid(s, s.queue, pid)
    case None => s
    case Some(i) => Retire(s, i, s.slots[i].(state := Dead, stackBase := 0, pid := 0))
  }

  function FindTid(slots: seq<Slot>, lo: nat, hi: nat, tid: nat): (r: Option<nat>)
    requires hi <= |slots|
    ensures r.Some? ==> lo <= r.value < hi && slots[r.value].tid == tid && !slots[r.value].state.Dead?
    ensures r.None? ==> forall i :: lo <= i < hi && slots[i].tid == tid ==> slots[i].state.Dead?
    decreases hi - lo
  {
    if lo >= hi then None
    else if slots[lo].tid == tid && !slots[lo].state.Dead? then Some(lo)
    else FindTid(slots, lo + 1, hi, tid)
  }

  /** thread_delete, from outside the thread. */
  function ThreadDelete(s: State, tid: nat): State
    requires s.WellFormed()
  {
    var t := EnsureTcbPool(s);
    match FindTid(t.slots, POOL, BLOCKS, tid)
    case None => t
    case Some(i) => Retire(t, i, t.slots[i].(state := Dead, stackBase := 0, tid := 0))
  }

  // ---- Mutexes -----------------------------------------------------------

  /** One pass through the loop of mutex_lock; before scheduler_init nobody is current and nobody is queued. */
  function LockAttempt(s: State, l: nat, esp: nat): State
    requires s.WellFormed() && l < |s.locks| && (s.current.Some? ==> s.idle.Some?)
  {
    var taken := s.(locks := s.locks[l := s.locks[l].(word := 1)]);
    if s.current.None? then taken
    else if s.locks[l].word == 0 then taken.(looping := s.looping - {s.current.value})
    else Schedule(Park(s, l), esp)
  }

  /** The failed attempt: the current block is BLOCKED and pushed on the wait list. */
  function Park(s: State, l: nat): (s': State)
    requires s.WellFormed() && l < |s.locks| && s.current.Some?
    ensures s'.WellFormed()
  {
    var c := s.current.value;
    s.With(c, Blocked).(locks := s.locks[l := Lock(1, [c] + s.locks[l].waiters)],
                        looping := s.looping[c := l])
  }

  function Unlock(s: State, l: nat): State
    requires s.WellFormed() && l < |s.locks|
  {
    var waiters := s.locks[l].waiters;
    if waiters == [] then s.(locks := s.locks[l := Lock(0, [])])
    else s.With(waiters[0], Ready).(locks := s.locks[l := Lock(0, waiters[1..])])
  }

  // ---- Runs --------------------------------------------------------------

  datatype Op =
    | Create(entry: nat, priority: nat)
    | New(entry: nat)
    | Spawn(parent: Option<nat>, entry: nat)
    | Tick(esp: nat)
    | Finish(esp: nat)
    | Kill(pid: nat)
    | Delete(tid: nat)
    | Acquire(l: nat, esp: nat)
    | Release(l: nat)
    | Store(address: nat, value: nat)

  /** Operands that denote something: slots and locks that exist. */
  predicate Meaningful(s: State, op: Op) {
    && s.WellFormed() && s.current.Some? && s.idle.Some?
    && match op
       case Spawn(parent, _) => parent.Some? ==> parent.value < BLOCKS
       case Acquire(l, _) => l < |s.locks|
       case Release(l) => l < |s.locks|
       case _ => true
  }

  function Step(s: State, op: Op): State
    requires Meaningful(s, op)
  {
    match op
    case Create(entry, priority) => CreateProcess(s, entry, priority).0
    case New(entry) => NewBlocked(s, entry)
    case Spawn(parent, entry) => CreateThread(s, parent, entry).0
    case Tick(esp) => Schedule(s, esp)
    case Finish(esp) => Exit(s, esp)
    case Kill(pid) => KillProcess(s, pid)
    case Delete(tid) => ThreadDelete(s, tid)
    case Acquire(l, esp) => LockAttempt(s, l, esp)
    case Release(l) => Unlock(s, l)
    case Store(address, value) => s.(memory := s.memory[address := value])
  }
}
