/**
 * The scheduler, threads and mutexes on the heap: linked control blocks
 * updated in place (src/scheduler.c, src/thread.c, src/mutex.c and the
 * killprocess and newprocess commands of src/shell.c).  The ghost state `s`
 * is the value the heap represents; every method moves it by the function of
 * KernelState that specifies the operation.
 */
module Scheduler {
  import opened Machine32
  import opened Options
  import opened PageSet
  import opened KernelState
  import KS = KernelState
  import opened KernelInvariant
  import opened RunQueue
  import opened KernelRuns
  import opened PhysicalMemory

  /** pcb_t and tcb_t: a thread's block starts with a process's and is cast to it. */
  class Block {
    const id: nat
    var pid: nat
    var state: ProcState
    var priority: nat
    var esp: nat
    var stackBase: nat
    var next: Block?
    var tid: nat
    var parent: Block?
    var waitNext: Block?

    ghost function View(): Slot
      reads `pid, `state, `priority, `esp, `stackBase, `tid, `parent
    {
      Slot(pid, state, priority, esp, stackBase, tid, if parent == null then None else Some(parent.id))
    }

    /** An entry of a zero-filled static pool: state 0 is READY. */
    constructor (id: nat)
      ensures this.id == id && next == null && waitNext == null
      ensures View() == Slot(0, Ready, 0, 0, 0, 0, None)
    {
      this.id := id;
      pid, state, priority, esp, stackBase, tid := 0, Ready, 0, 0, 0, 0;
      next, parent, waitNext := null, null, null;
    }

    /** The stores of create_process into a block. */
    method Become(pid: nat, priority: nat, esp: nat, stackBase: nat)
      modifies `pid, `state, `priority, `esp, `stackBase
      ensures View() == old(View()).(pid := pid, state := Ready, priority := priority, esp := esp, stackBase := stackBase)
    {
      this.pid, state, this.priority, this.esp, this.stackBase := pid, Ready, priority, esp, stackBase;
    }

    /** The stores of create_thread into a block. */
    method BecomeThread(tid: nat, parent: Block?, priority: nat, esp: nat, stackBase: nat)
      modifies `pid, `state, `priority, `esp, `stackBase, `tid, `parent
      ensures View() == Slot(0, Ready, priority, esp, stackBase, tid, if parent == null then None else Some(parent.id))
    {
      this.tid, this.parent, pid := tid, parent, 0;
      state, this.priority, this.esp, this.stackBase := Ready, priority, esp, stackBase;
    }

    /** The stores of scheduler_init into a block of the pool. */
    method Clear()
      modifies `pid, `state, `priority, `esp, `stackBase
      ensures View() == Cleared(old(View()))
    {
      pid, state, priority, esp, stackBase := 0, Dead, 0, 0, 0;
    }

    /** The stores of ensure_pool_init into a block of the pool. */
    method Forget()
      modifies `pid, `state, `tid
      ensures View() == old(View()).(state := Dead, pid := 0, tid := 0)
    {
      state, pid, tid := Dead, 0, 0;
    }

    /** The stores of killprocess and thread_delete into a block. */
    method BecomeDead(pid: nat, tid: nat)
      modifies `pid, `state, `stackBase, `tid
      ensures View() == old(View()).(state := Dead, stackBase := 0, pid := pid, tid := tid)
    {
      state, stackBase, this.pid, this.tid := Dead, 0, pid, tid;
    }
  }

  /** mutex_t. */
  class Mutex {
    var lock: nat
    var waiters: Block?

    constructor ()
      ensures lock == 0 && waiters == null
    {
      lock, waiters := 0, null;
    }

    /** xchg: stores 1 and returns what was there. */
    method TestAndSet() returns (before: nat)
      modifies this`lock
      ensures before == old(lock) && lock == 1
    {
      before := lock;
      lock := 1;
    }

    method Push(b: Block)
      modifies this`waiters, b`waitNext
      ensures waiters == b && b.waitNext == old(waiters)
    {
      b.waitNext := waiters;
      waiters := b;
    }

    method Pop() returns (b: Block)
      requires waiters != null
      modifies this`waiters, waiters`waitNext
      ensures b == old(waiters) && waiters == old(b.waitNext) && b.waitNext == null
    {
      b := waiters;
      waiters := b.waitNext;
      b.waitNext := null;
    }
  }

  method NewBlocks(n: nat) returns (pool: seq<Block>)
    ensures |pool| == n && fresh(set b | b in pool)
    ensures forall i :: 0 <= i < n ==>
              && pool[i].id == i && pool[i].next == null && pool[i].waitNext == null
              && pool[i].View() == Slot(0, Ready, 0, 0, 0, 0, None)
  {
    pool := [];
    for i := 0 to n
      invariant |pool| == i && fresh(set b | b in pool)
      invariant forall j :: 0 <= j < i ==>
                  && pool[j].id == j && pool[j].next == null && pool[j].waitNext == null
                  && pool[j].View() == Slot(0, Ready, 0, 0, 0, 0, None)
    {
      var b := new Block(i);
      pool := pool + [b];
    }
  }

  method NewMutexes(n: nat) returns (pool: seq<Mutex>)
    ensures |pool| == n && fresh(set m | m in pool)
    ensures forall l :: 0 <= l < n ==> pool[l].lock == 0 && pool[l].waiters == null
    ensures forall l, m :: 0 <= l < m < n ==> pool[l] != pool[m]
  {
    pool := [];
    for i := 0 to n
      invariant |pool| == i && fresh(set m | m in pool)
      invariant forall l :: 0 <= l < i ==> pool[l].lock == 0 && pool[l].waiters == null
      invariant forall l, m :: 0 <= l < m < i ==> pool[l] != pool[m]
    {
      var m := new Mutex();
      pool := pool + [m];
    }
  }

  class Kernel {
    const blocks: seq<Block>
    ghost const nodes: set<Block>
    const mutexes: seq<Mutex>
    const pmm: PageAllocator
    var runQueue: Block?
    var currentPcb: Block?
    var idlePcb: Block?
    var nextPid: nat
    var nextTid: nat
    var tcbPoolInitialized: bool
    var memory: map<nat, nat>
    ghost var s: State
    ghost var links: seq<Option<nat>>
    ghost var waitLinks: seq<Option<nat>>

    ghost function Ptr(o: Option<nat>): Block?
      requires |blocks| == BLOCKS && (o.Some? ==> o.value < BLOCKS)
    {
      if o.Some? then blocks[o.value] else null
    }

    ghost predicate Pool()
    {
      && |blocks| == BLOCKS
      && (forall i :: 0 <= i < BLOCKS ==> blocks[i].id == i && blocks[i] in nodes)
      && (forall b {:trigger b in nodes} :: b in nodes ==> b.id < BLOCKS && blocks[b.id] == b)
      && (forall l, m :: 0 <= l < m < |mutexes| ==> mutexes[l] != mutexes[m])
    }

    ghost predicate Slots(slots: seq<Slot>)
      requires Pool()
      reads nodes`pid, nodes`state, nodes`priority, nodes`esp, nodes`stackBase, nodes`tid, nodes`parent
    {
      |slots| == BLOCKS && forall i :: 0 <= i < BLOCKS ==> blocks[i].View() == slots[i]
    }

    /** The `next` fields, read as slot numbers. */
    ghost predicate NextFields()
      requires Pool()
      reads this`links, nodes`next
    {
      && |links| == BLOCKS
      && (forall i :: 0 <= i < BLOCKS && links[i].Some? ==> links[i].value < BLOCKS)
      && forall i {:trigger blocks[i].next} :: 0 <= i < BLOCKS ==> blocks[i].next == Ptr(links[i])
    }

    /** The run queue, as runQueue and the `next` fields spell it, is the list `q`. */
    ghost predicate Linked(q: seq<nat>)
      requires Pool()
      reads this`runQueue, this`links, nodes`next
    {
      && NextFields() && Chain(links, Nth(q, 0), q)
      && runQueue == Ptr(Nth(q, 0))
    }

    ghost function Name(b: Block?): Option<nat> {
      if b == null then None else Some(b.id)
    }

    /** The link of one block. */
    method SetNext(b: Block, n: Block?)
      requires Pool() && NextFields() && b in nodes && (n != null ==> n in nodes)
      modifies this`links, b`next
      ensures NextFields() && b.next == n && links == old(links)[b.id := Name(n)]
    {
      b.next := n;
      links := links[b.id := Name(n)];
    }

    /** Every mutex shows its lock word, and its wait list through the `waitNext` fields. */
    ghost predicate Waiting(locks: seq<Lock>)
      requires Pool()
      reads this`waitLinks, mutexes, nodes`waitNext
    {
      && |mutexes| == |locks| && |waitLinks| == BLOCKS && WaitChains(waitLinks, locks)
      && (forall i :: 0 <= i < BLOCKS && waitLinks[i].Some? ==> waitLinks[i].value < BLOCKS)
      && (forall i {:trigger blocks[i].waitNext} :: 0 <= i < BLOCKS ==> blocks[i].waitNext == Ptr(waitLinks[i]))
      && forall l :: 0 <= l < |locks| ==>
           mutexes[l].lock == locks[l].word && mutexes[l].waiters == Ptr(Nth(locks[l].waiters, 0))
    }

    ghost predicate Paged(pages: Pages)
      reads pmm, pmm.bitmap
    {
      pmm.Valid() && pmm.View() == pages
    }

    ghost predicate Scalars()
      requires |blocks| == BLOCKS && s.WellFormed()
      reads this
    {
      && nextPid == s.nextPid && nextTid == s.nextTid && tcbPoolInitialized == s.tcbReady && memory == s.memory
      && currentPcb == Ptr(s.current) && idlePcb == Ptr(s.idle)
    }

    ghost predicate Valid()
      reads this, nodes, mutexes, pmm, pmm.bitmap
    {
      && Pool() && s.WellFormed()
      && Slots(s.slots) && Linked(s.queue) && Waiting(s.locks) && Paged(s.pages) && Scalars()
    }

    constructor (pmm: PageAllocator, locks: nat)
      requires pmm.Valid()
      ensures Valid() && this.pmm == pmm
      ensures s == Zeroed(pmm.View(), locks)
    {
      hide Slots, Linked, Waiting;
      var pool := NewBlocks(BLOCKS);
      var cells := NewMutexes(locks);
      blocks, mutexes, this.pmm := pool, cells, pmm;
      nodes := set b | b in pool;
      runQueue, currentPcb, idlePcb := null, null, null;
      nextPid, nextTid, tcbPoolInitialized, memory := 0, 0, false, map[];
      s := Zeroed(pmm.View(), locks);
      links, waitLinks := seq(BLOCKS, _ => None), seq(BLOCKS, _ => None);
      new;
      ZeroedIsLinked();
      ZeroedIsWaiting();
      ZeroedIsSlots(locks);
    }

    lemma ZeroedIsSlots(locks: nat)
      requires Pool() && s.slots == Zeroed(s.pages, locks).slots
      requires forall i :: 0 <= i < BLOCKS ==> blocks[i].View() == Slot(0, Ready, 0, 0, 0, 0, None)
      ensures Slots(s.slots)
    {
    }

    lemma ZeroedIsLinked()
      requires Pool() && s.queue == [] && runQueue == null
      requires |links| == BLOCKS && forall i :: 0 <= i < BLOCKS ==> links[i] == None
      requires forall i {:trigger blocks[i].next} :: 0 <= i < BLOCKS ==> blocks[i].next == null
      ensures Linked(s.queue)
    {
      hide Chain;
      NoLinks(links, []);
    }

    lemma ZeroedIsWaiting()
      requires Pool() && |s.locks| == |mutexes| && forall l :: 0 <= l < |s.locks| ==> s.locks[l] == Lock(0, [])
      requires |waitLinks| == BLOCKS && forall i :: 0 <= i < BLOCKS ==> waitLinks[i] == None
      requires forall i {:trigger blocks[i].waitNext} :: 0 <= i < BLOCKS ==> blocks[i].waitNext == null
      requires forall l :: 0 <= l < |mutexes| ==> mutexes[l].lock == 0 && mutexes[l].waiters == null
      ensures Waiting(s.locks)
    {
      hide WaitChains;
      NoLinks(waitLinks, s.locks);
    }

    // ---- The run queue ---------------------------------------------------

    /** The walk to the last node in enqueue. */
    method Tail() returns (tail: Block)
      requires Pool() && Linked(s.queue) && s.queue != []
      ensures tail == blocks[s.queue[|s.queue| - 1]]
    {
      tail := runQueue;
      ghost var k := 0;
      while tail.next != null
        invariant k < |s.queue| && tail == blocks[s.queue[k]]
        decreases |s.queue| - k
      {
        assert links[s.queue[k]] == Nth(s.queue, k + 1);
        tail := tail.next;
        k := k + 1;
      }
      assert links[s.queue[k]] == Nth(s.queue, k + 1);
    }

    /** The links enqueue writes. */
    method LinkLast(pcb: Block)
      requires Pool() && Linked(s.queue) && pcb in nodes && pcb.id !in s.queue
      modifies this`runQueue, this`links, nodes`next
      ensures Linked(s.queue + [pcb.id])
    {
      hide Chain;
      Loose(links, Nth(s.queue, 0), s.queue, pcb.id);
      SetNext(pcb, null);
      assert links == old(links);
      if runQueue == null {
        assert s.queue == [] && s.queue + [pcb.id] == [pcb.id];
        AppendToEmpty(links, pcb.id);
        runQueue := pcb;
      } else {
        var tail := Tail();
        Append(links, s.queue, pcb.id);
        SetNext(tail, pcb);
      }
    }

    method Enqueue(pcb: Block)
      requires Valid() && pcb in nodes && pcb.id !in s.queue
      modifies this`runQueue, this`s, this`links, nodes`next
      ensures Valid()
      ensures s == old(s).(queue := old(s.queue) + [pcb.id])
    {
      hide Slots, Linked, Waiting, Paged;
      LinkLast(pcb);
      s := s.(queue := s.queue + [pcb.id]);
    }

    /** The walk to the node before `pcb` in dequeue; NULL when there is none. */
    method Before(pcb: Block) returns (prev: Block?, ghost i: nat)
      requires Pool() && Linked(s.queue) && pcb in nodes && runQueue != pcb
      ensures if prev == null then pcb.id !in s.queue
              else prev in nodes && 0 < i < |s.queue| && s.queue[i] == pcb.id && prev.id == s.queue[i - 1]
    {
      prev, i := runQueue, 0;
      while prev != null && prev.next != pcb
        invariant i <= |s.queue| && prev == Ptr(Nth(s.queue, i))
        invariant forall j :: 0 <= j <= i && j < |s.queue| ==> s.queue[j] != pcb.id
        decreases |s.queue| - i
      {
        assert links[s.queue[i]] == Nth(s.queue, i + 1);
        prev := prev.next;
        i := i + 1;
      }
      assert i < |s.queue| ==> links[s.queue[i]] == Nth(s.queue, i + 1);
      i := i + 1;
    }

    /** dequeue of the first node. */
    method DequeueHead(pcb: Block)
      requires Pool() && Linked(s.queue) && pcb in nodes && runQueue == pcb
      modifies this`runQueue, this`links, pcb`next
      ensures Linked(Without(s.queue, pcb.id))
    {
      hide Chain, Without, IndexOf;
      Unlink(links, s.queue, 0);
      runQueue := pcb.next;
      SetNext(pcb, null);
    }

    /** dequeue of the node after `prev`, at position `i`. */
    method DequeueAfter(prev: Block, pcb: Block, ghost i: nat)
      requires Pool() && Linked(s.queue) && pcb in nodes
      requires prev in nodes && 0 < i < |s.queue| && s.queue[i] == pcb.id && prev.id == s.queue[i - 1]
      modifies this`links, prev`next, pcb`next
      ensures Linked(Without(s.queue, pcb.id))
    {
      hide Chain, Without;
      Unlink(links, s.queue, i);
      SetNext(prev, pcb.next);
      SetNext(pcb, null);
    }

    /** The links dequeue writes. */
    method UnlinkNode(pcb: Block)
      requires Pool() && Linked(s.queue) && pcb in nodes
      modifies this`runQueue, this`links, nodes`next
      ensures Linked(Without(s.queue, pcb.id))
    {
      hide Chain, Without;
      if runQueue == pcb {
        DequeueHead(pcb);
      } else {
        var prev;
        ghost var i;
        prev, i := Before(pcb);
        if prev != null {
          DequeueAfter(prev, pcb, i);
        } else {
          WithoutAbsent(s.queue, pcb.id);
        }
      }
    }

    method Dequeue(pcb: Block)
      requires Valid() && pcb in nodes
      modifies this`runQueue, this`s, this`links, nodes`next
      ensures Valid()
      ensures s == old(s).(queue := Without(old(s.queue), pcb.id))
    {
      hide Slots, Linked, Waiting, Paged, Without;
      WithoutInRange(s.queue, pcb.id, BLOCKS);
      UnlinkNode(pcb);
      s := s.(queue := Without(s.queue, pcb.id));
    }

    // ---- schedule() ------------------------------------------------------

    /** The link schedule() follows: next, or the head at the tail. */
    method FollowLink(b: Block) returns (n: Block?)
      requires Pool() && Linked(s.queue) && b in nodes
      ensures n == Ptr(Follow(links, Nth(s.queue, 0), b.id))
    {
      n := b.next;
      if n == null {
        n := runQueue;
      }
    }

    /** The order in which schedule() meets the blocks, as a ring of links. */
    lemma RingOfLinks()
      requires Pool() && s.WellFormed() && Linked(s.queue) && s.current.Some?
      ensures |links| == BLOCKS && Circuit(links, Nth(s.queue, 0), Rotation(s))
      ensures Follow(links, Nth(s.queue, 0), s.current.value) == Nth(Rotation(s), 0)
      ensures forall k :: 0 <= k < |Rotation(s)| ==> Rotation(s)[k] < BLOCKS
    {
      hide Chain, Rotation;
      RotationIsCircuit(links, s);
    }

    /** The search loop of schedule(): a READY block, first in circular order, or NULL when there is none. */
    method NextReady() returns (next: Block?)
      requires Pool() && s.WellFormed() && Slots(s.slots) && Linked(s.queue)
      requires s.current.Some? && currentPcb == Ptr(s.current)
      ensures if next == null then FirstReady(s.slots, Rotation(s)) == None
              else next in nodes && next.state.Ready? && FirstReady(s.slots, Rotation(s)) == Some(next.id)
    {
      hide Linked, Circuit, Rotation, FirstReady, Follow;
      RingOfLinks();
      ghost var order, k := Rotation(s), 0;
      next := FollowLink(currentPcb);
      var start := next;
      while next != null && !next.state.Ready?
        invariant k <= |order| && next == Ptr(Nth(order, k)) && start == Ptr(Nth(order, 0))
        invariant forall j :: 0 <= j < k ==> !s.slots[order[j]].state.Ready?
        decreases |order| - k
      {
        CircuitStep(links, Nth(s.queue, 0), order, k);
        next := FollowLink(next);
        k := k + 1;
        if next == start {
          next := null;
          break;
        }
      }
      FirstReadyAt(s.slots, order, k);
    }

    /** The stack pointer after an operation entered with `esp`: the last one loaded, if any was. */
    ghost function StackPointer(before: State, esp: nat): nat
      reads this`s
    {
      if |s.log| > |before.log| && s.log[|s.log| - 1].Loaded? then s.log[|s.log| - 1].esp else esp
    }

    /** context_switch: stores ESP in the block left, loads it from the block entered. */
    method ContextSwitch(from: Block, to: Block, esp: nat) returns (loaded: nat)
      modifies from`esp
      ensures from.esp == esp && loaded == to.esp
    {
      from.esp := esp;
      loaded := to.esp;
    }

    /** The state of one block. */
    method SetState(b: Block, state: ProcState)
      requires Valid() && b in nodes
      modifies this`s, b`state
      ensures Valid() && b.state == state
      ensures s == old(s).With(b.id, state)
    {
      hide Linked, Waiting, Paged;
      b.state := state;
      s := s.With(b.id, state);
    }

    /** The stores of schedule() and context_switch into the two blocks. */
    method Swap(from: Block, next: Block, esp: nat) returns (sp: nat)
      requires from != next
      modifies from`state, next`state, from`esp
      ensures next.state == Running && from.esp == esp && sp == next.esp
      ensures from.state == if old(from.state).Running? then Ready else old(from.state)
    {
      if from.state.Running? {
        from.state := Ready;
      }
      next.state := Running;
      sp := ContextSwitch(from, next, esp);
    }

    /** The same, seen in the slots. */
    method SwapSlots(from: Block, next: Block, esp: nat) returns (sp: nat)
      requires Pool() && s.WellFormed() && Slots(s.slots) && from in nodes && next in nodes && from != next
      requires s.current == Some(from.id)
      modifies from`state, next`state, from`esp
      ensures Slots(Dispatch(s, next.id, esp).slots) && sp == s.slots[next.id].esp
    {
      hide Dispatch;
      DispatchEffect(s, next.id, esp);
      sp := Swap(from, next, esp);
    }

    /** The end of schedule(): the states, current_pcb and the stack pointers change over. */
    method Switch(next: Block, esp: nat) returns (sp: nat)
      requires Valid() && s.current.Some? && next in nodes && next != currentPcb
      modifies this`s, this`currentPcb, nodes`state, nodes`esp
      ensures Valid()
      ensures s == Dispatch(old(s), next.id, esp) && sp == StackPointer(old(s), esp)
    {
      hide Slots, Linked, Waiting, Paged, Dispatch;
      var from := currentPcb;
      assert s.current == Name(from);
      DispatchEffect(s, next.id, esp);
      sp := SwapSlots(from, next, esp);
      currentPcb := next;
      s := Dispatch(s, next.id, esp);
    }

    method Schedule(esp: nat) returns (sp: nat)
      requires Valid() && (s.current.Some? ==> s.idle.Some?)
      modifies this`s, this`currentPcb, nodes`state, nodes`esp
      ensures Valid()
      ensures s == KS.Schedule(old(s), esp) && sp == StackPointer(old(s), esp)
    {
      hide Chain, Rotation, FirstReady, WaitChains, Dispatch;
      if currentPcb == null {
        return esp;
      }
      assert s.current == Name(currentPcb) && s.idle == Name(idlePcb);
      DispatchToSelf(s, esp);
      var next := NextReady();
      if next == null || !next.state.Ready? {
        if currentPcb == idlePcb {
          return esp;
        }
        next := idlePcb;
      }
      if next == currentPcb {
        return esp;
      }
      sp := Switch(next, esp);
    }

    // ---- Creation --------------------------------------------------------

    /** alloc_pcb: two passes over the pool. */
    method AllocPcb() returns (b: Block?)
      requires Pool() && Slots(s.slots)
      ensures Name(b) == PickPcb(s) && (b != null ==> b in nodes)
    {
      for i := 0 to POOL
        invariant FirstDead(s.slots, 0, POOL, true) == FirstDead(s.slots, i, POOL, true)
      {
        if blocks[i].state.Dead? && blocks[i].pid == 0 {
          return blocks[i];
        }
      }
      for i := 0 to POOL
        invariant FirstDead(s.slots, 0, POOL, false) == FirstDead(s.slots, i, POOL, false)
      {
        if blocks[i].state.Dead? {
          return blocks[i];
        }
      }
      return null;
    }

    /** pmm_alloc_page on the kernel's page set. */
    method TakePage() returns (stack: nat)
      requires Valid()
      modifies this`s, pmm`freePages, pmm.bitmap
      ensures Valid()
      ensures (s.pages, stack) == PageSet.AllocPage(old(s.pages)) && s == old(s).(pages := s.pages)
    {
      hide Slots, Linked, Waiting, AllocPage;
      stack := pmm.AllocPage();
      s := s.(pages := pmm.View());
    }

    /** The word pushed on a new stack. */
    method PushEntry(sp: nat, entry: nat)
      requires Valid()
      modifies this`s, this`memory
      ensures Valid() && s == old(s).(memory := old(s.memory)[sp := entry])
    {
      hide Slots, Linked, Waiting, Paged;
      memory := memory[sp := entry];
      s := s.(memory := memory);
    }

    /** The next process number. */
    method TakePid() returns (pid: nat)
      requires Valid()
      modifies this`s, this`nextPid
      ensures Valid() && s == old(s).(nextPid := pid) && pid == (old(s.nextPid) + 1) % WORD
    {
      hide Slots, Linked, Waiting, Paged;
      nextPid := (nextPid + 1) % WORD;
      pid := nextPid;
      s := s.(nextPid := pid);
    }

    /** The next thread number. */
    method TakeTid() returns (tid: nat)
      requires Valid()
      modifies this`s, this`nextTid
      ensures Valid() && s == old(s).(nextTid := tid) && tid == (old(s.nextTid) + 1) % WORD
    {
      hide Slots, Linked, Waiting, Paged;
      nextTid := (nextTid + 1) % WORD;
      tid := nextTid;
      s := s.(nextTid := tid);
    }

    /** The fields of a new process. */
    method WriteProcess(pcb: Block, pid: nat, priority: nat, esp: nat, stack: nat)
      requires Valid() && pcb in nodes
      modifies this`s, pcb`pid, pcb`state, pcb`priority, pcb`esp, pcb`stackBase
      ensures Valid() && pcb.state == Ready && pcb.esp == esp && pcb.stackBase == stack
      ensures s == old(s).(slots := old(s.slots)[pcb.id :=
                old(s.slots)[pcb.id].(pid := pid, state := Ready, priority := priority, esp := esp, stackBase := stack)])
    {
      hide Linked, Waiting, Paged;
      pcb.Become(pid, priority, esp, stack);
      s := s.(slots := s.slots[pcb.id := pcb.View()]);
    }

    /** The fields of a new thread. */
    method WriteThread(tcb: Block, parent: Block?, tid: nat, priority: nat, esp: nat, stack: nat)
      requires Valid() && tcb in nodes && (parent != null ==> parent in nodes)
      modifies this`s, tcb`pid, tcb`state, tcb`priority, tcb`esp, tcb`stackBase, tcb`tid, tcb`parent
      ensures Valid() && tcb.state == Ready && tcb.esp == esp && tcb.stackBase == stack
      ensures s == old(s).(slots := old(s.slots)[tcb.id := Slot(0, Ready, priority, esp, stack, tid, Name(parent))])
    {
      hide Linked, Waiting, Paged;
      tcb.BecomeThread(tid, parent, priority, esp, stack);
      s := s.(slots := s.slots[tcb.id := tcb.View()]);
    }

    /** The block and the entry frame of create_process. */
    method FillProcess(pcb: Block, priority: nat, stack: nat, entry: nat)
      requires Valid() && pcb in nodes
      modifies this`s, this`memory, this`nextPid, pcb`pid, pcb`state, pcb`priority, pcb`esp, pcb`stackBase
      ensures Valid() && pcb.state == Ready && pcb.esp + 4 == pcb.stackBase + 4096
      ensures var pid := (old(s.nextPid) + 1) % WORD;
              s == Fill(old(s).(nextPid := pid), pcb.id,
                        old(s.slots)[pcb.id].(pid := pid, state := Ready, priority := priority,
                                              esp := EntryFrame(stack), stackBase := stack), entry)
    {
      hide Slots, Linked, Waiting, Paged;
      var sp := stack + PAGE_SIZE - 4;
      PushEntry(sp, entry);
      var pid := TakePid();
      WriteProcess(pcb, pid, priority, sp, stack);
      s := s.(log := s.log + [Created(pcb.id, sp, entry)]);
    }

    /** create_process once a slot is found. */
    method PopulateProcess(slot: Block, entry: nat, priority: nat) returns (pcb: Block?)
      requires Valid() && slot in nodes && slot.id !in s.queue
      modifies this, nodes, pmm`freePages, pmm.bitmap
      ensures Valid()
      ensures pcb != null ==> pcb.state == Ready && pcb.esp + 4 == pcb.stackBase + 4096
      ensures s == Populate(old(s), slot.id, entry, priority).0
      ensures Name(pcb) == Populate(old(s), slot.id, entry, priority).1 && (pcb != null ==> pcb in nodes)
    {
      hide AllocPage, Slots, Linked, Waiting, Paged;
      var stack := TakePage();
      if stack == 0 {
        return null;
      }
      FillProcess(slot, priority, stack, entry);
      Enqueue(slot);
      pcb := slot;
    }

    /** create_process. */
    method CreateProcess(entry: nat, priority: nat) returns (pcb: Block?)
      requires Valid() && Shape(s)
      modifies this, nodes, pmm`freePages, pmm.bitmap
      ensures Valid()
      ensures pcb != null ==> pcb.state == Ready && pcb.esp + 4 == pcb.stackBase + 4096
      ensures s == KS.CreateProcess(old(s), entry, priority).0
      ensures Name(pcb) == KS.CreateProcess(old(s), entry, priority).1 && (pcb != null ==> pcb in nodes)
    {
      hide PickPcb, Populate, Slots, Linked, Waiting, Paged;
      PickPcbIsDead(s);
      pcb := AllocPcb();
      if pcb != null {
        pcb := PopulateProcess(pcb, entry, priority);
      }
    }

    /** cmd_newprocess: a process that is BLOCKED before anything can run it. */
    method NewProcess(entry: nat) returns (pcb: Block?)
      requires Valid() && Shape(s)
      modifies this, nodes, pmm`freePages, pmm.bitmap
      ensures Valid()
      ensures pcb != null ==> pcb.state == Blocked
      ensures s == NewBlocked(old(s), entry)
      ensures Name(pcb) == KS.CreateProcess(old(s), entry, 1).1 && (pcb != null ==> pcb in nodes)
    {
      hide Slots, Linked, Waiting, Paged, KS.CreateProcess;
      pcb := CreateProcess(entry, 1);
      if pcb != null {
        SetState(pcb, Blocked);
      }
    }

    /** The loop of scheduler_init over the PCB pool. */
    method ClearBlocks()
      requires Pool() && Slots(s.slots)
      modifies nodes`pid, nodes`state, nodes`priority, nodes`esp, nodes`stackBase
      ensures Slots(ClearPcbs(s).slots)
    {
      for i := 0 to POOL
        modifies nodes`pid, nodes`state, nodes`priority, nodes`esp, nodes`stackBase
        invariant forall j {:trigger blocks[j]} :: 0 <= j < BLOCKS ==>
          (blocks[j].View() == if j < i then Cleared(s.slots[j]) else s.slots[j])
      {
        blocks[i].Clear();
      }
    }

    /** The PCB pool dead and cleared. */
    method ClearPcbPool()
      requires Valid()
      modifies this`s, nodes`pid, nodes`state, nodes`priority, nodes`esp, nodes`stackBase
      ensures Valid()
      ensures s == ClearPcbs(old(s))
    {
      hide Slots, Linked, Waiting, Paged;
      ClearBlocks();
      s := ClearPcbs(s);
    }

    /** scheduler_init on zero-filled storage; false where the source panics. */
    method SchedulerInit(idleTask: nat, ghost locks: nat) returns (ok: bool)
      requires Valid() && Sound(s.pages) && s == Zeroed(s.pages, locks)
      modifies this, nodes, pmm`freePages, pmm.bitmap
      ensures var booted := Boot(Blank(old(s.pages), locks), idleTask);
              if ok then Valid() && booted == Some(s) && Inv(s) else booted == None
    {
      hide Slots, Linked, Waiting, Paged, KS.CreateProcess, Inv;
      ClearPcbPool();
      assert s == Blank(old(s.pages), locks);
      BlankIsShaped(s.pages, locks);
      BootEstablishesInv(s.pages, locks, idleTask);
      var pcb := CreateProcess(idleTask, 0);
      ok := pcb != null;
      if pcb != null {
        MakeIdle(pcb);
      }
    }

    /** The end of scheduler_init: idle is current and RUNNING. */
    method MakeIdle(pcb: Block)
      requires Valid() && pcb in nodes
      modifies this`s, this`idlePcb, this`currentPcb, pcb`state
      ensures Valid()
      ensures s == old(s).(idle := Some(pcb.id), current := Some(pcb.id)).With(pcb.id, Running)
    {
      hide Linked, Waiting, Paged;
      idlePcb, currentPcb := pcb, pcb;
      pcb.state := Running;
      s := s.(idle := Some(pcb.id), current := Some(pcb.id)).With(pcb.id, Running);
    }

    // ---- Threads ---------------------------------------------------------

    /** The loop of ensure_pool_init. */
    method ForgetThreads()
      requires Pool() && Slots(s.slots) && !s.tcbReady
      modifies nodes`state, nodes`pid, nodes`tid
      ensures Slots(EnsureTcbPool(s).slots)
    {
      for i := POOL to BLOCKS
        modifies nodes`state, nodes`pid, nodes`tid
        invariant forall j {:trigger blocks[j]} :: 0 <= j < BLOCKS ==>
          (blocks[j].View() == if POOL <= j < i then s.slots[j].(state := Dead, pid := 0, tid := 0) else s.slots[j])
      {
        blocks[i].Forget();
      }
    }

    /** ensure_pool_init. */
    method EnsurePoolInit()
      requires Valid()
      modifies this`s, this`tcbPoolInitialized, nodes`state, nodes`pid, nodes`tid
      ensures Valid()
      ensures s == EnsureTcbPool(old(s))
    {
      hide Slots, Linked, Waiting, Paged;
      if tcbPoolInitialized {
        return;
      }
      ForgetThreads();
      tcbPoolInitialized := true;
      s := EnsureTcbPool(s);
    }

    /** alloc_tcb. */
    method AllocTcb() returns (b: Block?)
      requires Valid()
      modifies this`s, this`tcbPoolInitialized, nodes`state, nodes`pid, nodes`tid
      ensures Valid() && s == EnsureTcbPool(old(s))
      ensures Name(b) == FirstDead(s.slots, POOL, BLOCKS, false) && (b != null ==> b in nodes)
    {
      hide EnsureTcbPool, Linked, Waiting, Paged;
      EnsurePoolInit();
      for i := POOL to BLOCKS
        invariant FirstDead(s.slots, POOL, BLOCKS, false) == FirstDead(s.slots, i, BLOCKS, false)
      {
        if blocks[i].state.Dead? {
          return blocks[i];
        }
      }
      return null;
    }

    /** The wait link of a block that is on no wait list. */
    method ClearWaitNext(b: Block)
      requires Valid() && b in nodes
      requires forall l :: 0 <= l < |s.locks| ==> b.id !in s.locks[l].waiters
      modifies this`waitLinks, b`waitNext
      ensures Valid()
    {
      hide Slots, Linked, Paged, WaitChains;
      ResetKeepsChains(waitLinks, s.locks, b.id);
      b.waitNext := null;
      waitLinks := waitLinks[b.id := None];
    }

    /** The parent's priority, or 1 without a parent. */
    method PriorityUnder(parent: Block?) returns (priority: nat)
      requires Valid() && (parent != null ==> parent in nodes)
      ensures priority == if parent == null then 1 else s.slots[parent.id].priority
    {
      priority := if parent != null then parent.priority else 1;
    }

    /** The block and the entry frame of create_thread. */
    method FillThread(tcb: Block, parent: Block?, stack: nat, entry: nat)
      requires Valid() && tcb in nodes && (parent != null ==> parent in nodes)
      modifies this`s, this`memory, this`nextTid, tcb`pid, tcb`state, tcb`priority, tcb`esp, tcb`stackBase
      modifies tcb`tid, tcb`parent
      ensures Valid() && tcb.state == Ready && tcb.esp + 4 == tcb.stackBase + 4096
      ensures var tid := (old(s.nextTid) + 1) % WORD;
              var priority := if parent == null then 1 else old(s.slots)[parent.id].priority;
              s == Fill(old(s).(nextTid := tid), tcb.id,
                        Slot(0, Ready, priority, EntryFrame(stack), stack, tid, Name(parent)), entry)
    {
      hide Slots, Linked, Waiting, Paged;
      var sp := stack + PAGE_SIZE - 4;
      PushEntry(sp, entry);
      var tid := TakeTid();
      var priority := PriorityUnder(parent);
      WriteThread(tcb, parent, tid, priority, sp, stack);
      s := s.(log := s.log + [Created(tcb.id, sp, entry)]);
    }

    /** create_thread once a slot is found. */
    method FillAndQueueThread(tcb: Block, parent: Block?, entry: nat) returns (made: Block?)
      requires Valid() && tcb in nodes && tcb.id !in s.queue && (parent != null ==> parent in nodes)
      requires forall l :: 0 <= l < |s.locks| ==> tcb.id !in s.locks[l].waiters
      modifies this, nodes, pmm`freePages, pmm.bitmap
      ensures Valid()
      ensures made != null ==> made.state == Ready && made.esp + 4 == made.stackBase + 4096
      ensures s == PopulateThread(old(s), tcb.id, Name(parent), entry).0
      ensures Name(made) == PopulateThread(old(s), tcb.id, Name(parent), entry).1 && (made != null ==> made in nodes)
    {
      hide AllocPage, Slots, Linked, Waiting, Paged;
      var stack := TakePage();
      if stack == 0 {
        return null;
      }
      ClearWaitNext(tcb);
      FillThread(tcb, parent, stack, entry);
      Enqueue(tcb);
      made := tcb;
    }

    /** create_thread. */
    method CreateThread(parent: Block?, entry: nat) returns (tcb: Block?)
      requires Valid() && Shape(s) && WaitLists(s) && (parent != null ==> parent in nodes)
      modifies this, nodes, pmm`freePages, pmm.bitmap
      ensures Valid()
      ensures tcb != null ==> tcb.state == Ready && tcb.esp + 4 == tcb.stackBase + 4096
      ensures s == KS.CreateThread(old(s), Name(parent), entry).0
      ensures Name(tcb) == KS.CreateThread(old(s), Name(parent), entry).1 && (tcb != null ==> tcb in nodes)
    {
      hide EnsureTcbPool, FirstDead, PopulateThread, Slots, Linked, Waiting, Paged;
      DeadTcbIsFree(s);
      tcb := AllocTcb();
      if tcb != null {
        tcb := FillAndQueueThread(tcb, parent, entry);
      }
    }

    // ---- Removal ---------------------------------------------------------

    /** pmm_free_page on the kernel's page set. */
    method GivePage(address: nat)
      requires Valid()
      modifies this`s, pmm`freePages, pmm.bitmap
      ensures Valid()
      ensures s == old(s).(pages := PageSet.FreePage(old(s.pages), address))
    {
      hide Slots, Linked, Waiting, PageSet.FreePage;
      pmm.FreePage(address);
      s := s.(pages := pmm.View());
    }

    /** The stores of killprocess into the block; `stack` is the page it gives up. */
    method Bury(b: Block, ghost slot: Slot, pid: nat, tid: nat)
      requires Valid() && b in nodes
      requires slot == s.slots[b.id].(state := Dead, stackBase := 0, pid := pid, tid := tid)
      modifies this`s, b`state, b`stackBase, b`pid, b`tid
      ensures Valid()
      ensures s == old(s).(slots := old(s.slots)[b.id := slot], looping := old(s.looping) - {b.id})
    {
      hide Linked, Waiting, Paged;
      b.BecomeDead(pid, tid);
      s := s.(slots := s.slots[b.id := slot], looping := s.looping - {b.id});
    }

    /** DEAD, off the queue, page returned: what killprocess and thread_delete share. */
    method RetireBlock(b: Block, ghost slot: Slot, pid: nat, tid: nat)
      requires Valid() && b in nodes
      requires slot == s.slots[b.id].(state := Dead, stackBase := 0, pid := pid, tid := tid)
      modifies this, nodes, pmm`freePages, pmm.bitmap
      ensures Valid()
      ensures s == Retire(old(s), b.id, slot)
    {
      hide Linked, Waiting, Paged, Without, FreePage;
      var stack := b.stackBase;
      assert stack == s.slots[b.id].stackBase;
      Dequeue(b);
      GivePage(stack);
      Bury(b, slot, pid, tid);
    }

    /** The search of cmd_killprocess along the queue. */
    method FindOnQueue(pid: nat) returns (p: Block?)
      requires Valid()
      ensures Name(p) == FindPid(s, s.queue, pid) && (p != null ==> p in nodes)
    {
      hide NextFields, Waiting, Paged;
      p := runQueue;
      ghost var k := 0;
      while p != null
        invariant k <= |s.queue| && p == Ptr(Nth(s.queue, k))
        invariant FindPid(s, s.queue, pid) == FindPid(s, s.queue[k..], pid)
        decreases |s.queue| - k
      {
        if p.pid == pid {
          return;
        }
        p := NextOf(p, k);
        k := k + 1;
      }
    }

    method NextOf(b: Block, ghost k: nat) returns (n: Block?)
      requires Pool() && Linked(s.queue) && k < |s.queue| && b == Ptr(Nth(s.queue, k))
      ensures n == Ptr(Nth(s.queue, k + 1))
    {
      assert links[s.queue[k]] == Nth(s.queue, k + 1);
      n := b.next;
    }

    /** cmd_killprocess. */
    method KillProcess(pid: nat) returns (found: bool)
      requires Valid()
      modifies this, nodes, pmm`freePages, pmm.bitmap
      ensures Valid()
      ensures s == KS.KillProcess(old(s), pid)
      ensures found <==> FindPid(old(s), old(s.queue), pid).Some?
    {
      hide Linked, Waiting, Paged, FindPid, Retire;
      var p := FindOnQueue(pid);
      found := p != null;
      if p != null {
        RetireBlock(p, s.slots[p.id].(state := Dead, stackBase := 0, pid := 0), 0, p.tid);
      }
    }

    /** thread_delete. */
    method ThreadDelete(tid: nat) returns (found: bool)
      requires Valid()
      modifies this, nodes, pmm`freePages, pmm.bitmap
      ensures Valid()
      ensures s == KS.ThreadDelete(old(s), tid)
      ensures found <==> FindTid(EnsureTcbPool(old(s)).slots, POOL, BLOCKS, tid).Some?
    {
      hide EnsureTcbPool, FindTid, Retire, Linked, Waiting, Paged;
      EnsurePoolInit();
      var b := FindThread(tid);
      found := b != null;
      if b != null {
        RetireBlock(b, s.slots[b.id].(state := Dead, stackBase := 0, tid := 0), b.pid, 0);
      }
    }

    /** The search of thread_delete over the pool. */
    method FindThread(tid: nat) returns (b: Block?)
      requires Pool() && Slots(s.slots)
      ensures Name(b) == FindTid(s.slots, POOL, BLOCKS, tid) && (b != null ==> b in nodes)
    {
      for i := POOL to BLOCKS
        invariant FindTid(s.slots, POOL, BLOCKS, tid) == FindTid(s.slots, i, BLOCKS, tid)
      {
        if blocks[i].tid == tid && !blocks[i].state.Dead? {
          return blocks[i];
        }
      }
      return null;
    }

    /** The stores of process_exit and context_switch at its end. */
    method Leave(dying: Block, idle: Block, esp: nat) returns (sp: nat)
      modifies dying`esp, idle`state
      ensures dying.esp == esp && idle.state == Running && sp == idle.esp
    {
      dying.esp := 0;
      idle.state := Running;
      sp := ContextSwitch(dying, idle, esp);
    }

    /** The same, seen in the slots. */
    method LeaveSlots(dying: Block, idle: Block, esp: nat) returns (sp: nat)
      requires Pool() && Slots(s.slots) && dying in nodes && idle in nodes
      modifies dying`esp, idle`state
      ensures Slots(KS.ContextSwitch(s.With(idle.id, Running), dying.id, idle.id, esp).slots)
      ensures sp == KS.ContextSwitch(s.With(idle.id, Running), dying.id, idle.id, esp).slots[idle.id].esp
    {
      sp := Leave(dying, idle, esp);
    }

    /** The end of process_exit: over to idle. */
    method EnterIdle(dying: Block, esp: nat) returns (sp: nat)
      requires Valid() && s.idle.Some? && dying in nodes
      modifies this`s, this`currentPcb, nodes`state, nodes`esp
      ensures Valid()
      ensures s == KS.ContextSwitch(
          old(s).(current := old(s.idle)).With(old(s.idle.value), Running), dying.id, old(s.idle.value), esp)
      ensures sp == s.slots[s.idle.value].esp
    {
      hide Slots, Linked, Waiting, Paged;
      assert s.idle == Name(idlePcb);
      sp := LeaveSlots(dying, idlePcb, esp);
      currentPcb := idlePcb;
      s := KS.ContextSwitch(s.(current := s.idle).With(s.idle.value, Running), dying.id, s.idle.value, esp);
    }

    /** process_exit, which thread_exit calls too. */
    method ProcessExit(esp: nat) returns (sp: nat)
      requires Valid() && s.current.Some? && s.idle.Some?
      modifies this, nodes, pmm`freePages, pmm.bitmap
      ensures Valid()
      ensures s == Exit(old(s), esp) && sp == StackPointer(old(s), esp)
    {
      hide FreePage, Without, Exit, Linked, Waiting, Paged;
      ExitViaRetire(s, esp);
      var dying := currentPcb;
      assert s.current == Name(dying);
      RetireBlock(dying, s.slots[dying.id].(state := Dead, pid := 0, stackBase := 0), 0, dying.tid);
      sp := EnterIdle(dying, esp);
    }

    // ---- Mutexes ---------------------------------------------------------

    /** test_and_set on a lock of the kernel. */
    method TakeWord(m: Mutex, ghost l: nat) returns (before: nat)
      requires Valid() && l < |mutexes| && m == mutexes[l]
      modifies this`s, m`lock
      ensures Valid() && m.lock == 1
      ensures before == old(s.locks)[l].word
      ensures s == old(s).(locks := old(s.locks)[l := old(s.locks)[l].(word := 1)])
    {
      hide Slots, Linked, Paged, WaitChains;
      WordKeepsChains(waitLinks, s.locks, l, 1);
      before := m.TestAndSet();
      s := s.(locks := s.locks[l := s.locks[l].(word := 1)]);
    }

    /** The links that pushing a waiter writes. */
    method LinkWaiter(m: Mutex, ghost l: nat, b: Block)
      requires Pool() && s.WellFormed() && Waiting(s.locks) && l < |mutexes| && m == mutexes[l] && b in nodes
      requires s.locks[l].word == 1 && forall k :: 0 <= k < |s.locks| ==> b.id !in s.locks[k].waiters
      modifies this`waitLinks, m`waiters, nodes`waitNext
      ensures Waiting(s.locks[l := Lock(1, [b.id] + s.locks[l].waiters)])
    {
      hide WaitChains;
      PushKeepsChains(waitLinks, s.locks, l, b.id, 1);
      m.Push(b);
      waitLinks := waitLinks[b.id := Nth(s.locks[l].waiters, 0)];
    }

    /** The current block is pushed on the wait list. */
    method PushCurrent(m: Mutex, ghost l: nat)
      requires Valid() && l < |mutexes| && l < |s.locks| && m == mutexes[l] && s.current.Some? && s.locks[l].word == 1
      requires forall k :: 0 <= k < |s.locks| ==> s.current.value !in s.locks[k].waiters
      modifies this`s, this`waitLinks, m`waiters, nodes`waitNext
      ensures Valid()
      ensures var cur := old(s.current.value);
              s == old(s).(locks := old(s.locks)[l := Lock(1, [cur] + old(s.locks)[l].waiters)],
                           looping := old(s.looping)[cur := l])
    {
      hide Slots, Linked, Paged, Waiting;
      var cur := currentPcb;
      assert s.current == Name(cur);
      LinkWaiter(m, l, cur);
      s := s.(locks := s.locks[l := Lock(1, [cur.id] + s.locks[l].waiters)], looping := s.looping[cur.id := l]);
    }

    /** The failed attempt: BLOCKED, and pushed on the wait list. */
    method ParkCurrent(m: Mutex, ghost l: nat)
      requires Valid() && l < |mutexes| && m == mutexes[l] && s.current.Some? && s.locks[l].word == 1
      requires forall k :: 0 <= k < |s.locks| ==> s.current.value !in s.locks[k].waiters
      modifies this`s, this`waitLinks, m`waiters, nodes`state, nodes`waitNext
      ensures Valid()
      ensures s == Park(old(s), l)
    {
      hide Slots, Linked, Paged, WaitChains;
      assert s.current == Name(currentPcb);
      SetState(currentPcb, Blocked);
      PushCurrent(m, l);
    }

    /** One pass through the loop of mutex_lock; the loop leaves when `acquired`. */
    method LockOnce(m: Mutex, ghost l: nat, esp: nat) returns (acquired: bool, sp: nat)
      requires Valid() && l < |mutexes| && m == mutexes[l] && (s.current.Some? ==> s.idle.Some?)
      requires s.current.Some? ==> forall k :: 0 <= k < |s.locks| ==> s.current.value !in s.locks[k].waiters
      modifies this, m, nodes
      ensures Valid() && m.lock == 1
      ensures acquired <==> old(s.locks)[l].word == 0
      ensures s == LockAttempt(old(s), l, esp) && sp == StackPointer(old(s), esp)
    {
      hide Slots, Linked, WaitChains, Paged, KS.Schedule;
      var before := TakeWord(m, l);
      acquired, sp := before == 0, esp;
      if acquired {
        if currentPcb != null {
          s := s.(looping := s.looping - {s.current.value});
        }
      } else if currentPcb != null {
        assert Park(s, l) == Park(old(s), l);
        ParkCurrent(m, l);
        sp := Schedule(esp);
      } else {
        sp := ScheduleNobody(esp);
      }
    }

    /** schedule() before scheduler_init. */
    method ScheduleNobody(esp: nat) returns (sp: nat)
      requires Valid() && s.current.None?
      modifies this`s, this`currentPcb, nodes`state, nodes`esp
      ensures Valid() && s == old(s) && sp == esp
    {
      sp := Schedule(esp);
    }

    /** The releasing store. */
    method ClearWord(m: Mutex, ghost l: nat)
      requires Valid() && l < |mutexes| && m == mutexes[l]
      modifies this`s, m`lock
      ensures Valid() && m.lock == 0
      ensures s == old(s).(locks := old(s.locks)[l := old(s.locks)[l].(word := 0)])
    {
      hide Slots, Linked, Paged, WaitChains;
      WordKeepsChains(waitLinks, s.locks, l, 0);
      m.lock := 0;
      s := s.(locks := s.locks[l := s.locks[l].(word := 0)]);
    }

    /** The links that taking the first waiter off writes. */
    method UnlinkWaiter(m: Mutex, ghost l: nat) returns (waiter: Block)
      requires Pool() && s.WellFormed() && Waiting(s.locks) && l < |mutexes| && m == mutexes[l] && m.waiters != null
      modifies this`waitLinks, m`waiters, nodes`waitNext
      ensures s.locks[l].waiters != [] && waiter.id == s.locks[l].waiters[0] && waiter in nodes
      ensures Waiting(s.locks[l := Lock(s.locks[l].word, s.locks[l].waiters[1..])])
    {
      hide WaitChains;
      PopKeepsChains(waitLinks, s.locks, l, s.locks[l].word);
      waiter := m.Pop();
      waitLinks := waitLinks[waiter.id := None];
    }

    /** The first waiter leaves the list. */
    method PopWaiter(m: Mutex, ghost l: nat) returns (waiter: Block)
      requires Valid() && l < |mutexes| && m == mutexes[l] && m.waiters != null && l < |s.locks|
      modifies this`s, this`waitLinks, m`waiters, nodes`waitNext
      ensures Valid() && waiter in nodes
      ensures old(s.locks)[l].waiters != [] && waiter.id == old(s.locks)[l].waiters[0]
      ensures s == old(s).(locks := old(s.locks)[l := Lock(old(s.locks)[l].word, old(s.locks)[l].waiters[1..])])
    {
      hide Slots, Linked, Paged, Waiting;
      waiter := UnlinkWaiter(m, l);
      s := s.(locks := s.locks[l := Lock(s.locks[l].word, s.locks[l].waiters[1..])]);
    }

    /** The first waiter leaves the list and is READY. */
    method Wake(m: Mutex, ghost l: nat)
      requires Valid() && l < |mutexes| && m == mutexes[l] && m.waiters != null && s.locks[l].word == 0
      modifies this`s, this`waitLinks, m`waiters, nodes`state, nodes`waitNext
      ensures Valid()
      ensures s == Unlock(old(s), l)
    {
      hide Slots, Linked, Paged, WaitChains;
      var waiter := PopWaiter(m, l);
      SetState(waiter, Ready);
    }

    /** mutex_unlock: the lock word first, then one waiter made READY. */
    method Release(m: Mutex, ghost l: nat)
      requires Valid() && l < |mutexes| && m == mutexes[l]
      modifies this`s, this`waitLinks, m, nodes`state, nodes`waitNext
      ensures Valid() && m.lock == 0
      ensures s == Unlock(old(s), l)
    {
      hide Slots, Linked, Paged, WaitChains;
      ClearWord(m, l);
      assert Unlock(s, l) == Unlock(old(s), l);
      if m.waiters != null {
        Wake(m, l);
      } else {
        assert s.locks[l] == Lock(0, []);
      }
    }
  }
}
