/**
 * The lock words over whole runs: read off the calls that returned, not off the
 * code that sets them.  A mutex is taken from the return of one mutex_lock to the
 * next mutex_unlock, and in between nobody else's mutex_lock returns.
 */
module KernelLocks {
  import opened Options
  import opened PageSet
  import opened KernelState
  import opened KernelInvariant
  import opened KernelRuns

  /** This step is an attempt on `l` after which the caller goes on running, out of mutex_lock. */
  ghost predicate Returns(s: State, op: Op, l: nat)
    requires Meaningful(s, op)
  {
    && op.Acquire? && op.l == l
    && Step(s, op).current == s.current
    && s.current.value !in Step(s, op).looping
  }

  /** Is lock `l` held after the run: was its latest mutex_lock to return later than its latest mutex_unlock? */
  ghost predicate Held(s: State, ops: seq<Op>, l: nat, before: bool)
    requires Lawful(s, ops)
    decreases |ops|
  {
    if ops == [] then before
    else Held(Step(s, ops[0]), ops[1..], l, Returns(s, ops[0], l) || (before && ops[0] != Release(l)))
  }

  // ---- One step ------------------------------------------------------------

  /** Switching does not touch the locks or the history of lock loops. */
  lemma ScheduleKeepsLocks(s: State, esp: nat)
    requires s.WellFormed() && s.current.Some? && s.idle.Some?
    ensures Schedule(s, esp).locks == s.locks && Schedule(s, esp).looping == s.looping
  {
    hide FirstReady, Rotation;
  }

  lemma CreateKeepsLocks(s: State, entry: nat, priority: nat)
    requires s.WellFormed()
    ensures var s' := CreateProcess(s, entry, priority).0; s'.locks == s.locks && s'.current == s.current
  {
    hide AllocPage, PickPcb;
  }

  lemma NewKeepsLocks(s: State, entry: nat)
    requires s.WellFormed()
    ensures NewBlocked(s, entry).locks == s.locks && NewBlocked(s, entry).current == s.current
  {
    hide CreateProcess;
    CreateKeepsLocks(s, entry, 1);
  }

  lemma SpawnKeepsLocks(s: State, parent: Option<nat>, entry: nat)
    requires s.WellFormed() && (parent.Some? ==> parent.value < BLOCKS)
    ensures var s' := CreateThread(s, parent, entry).0; s'.locks == s.locks && s'.current == s.current
  {
    hide AllocPage, FirstDead;
  }

  lemma DeleteKeepsLocks(s: State, tid: nat)
    requires s.WellFormed()
    ensures ThreadDelete(s, tid).locks == s.locks && ThreadDelete(s, tid).current == s.current
  {
    hide FindTid, Without, FreePage;
  }

  /** Only the calls on a mutex change locks, and only they, the timer and an exit change the current block. */
  lemma OthersKeepLocks(s: State, op: Op)
    requires Meaningful(s, op) && !op.Acquire? && !op.Release?
    ensures Step(s, op).locks == s.locks
    ensures !op.Tick? && !op.Finish? ==> Step(s, op).current == s.current
  {
    hide CreateProcess, NewBlocked, CreateThread, Schedule, ThreadDelete, FindPid, Without, FreePage;
    match op
    case Create(entry, priority) => CreateKeepsLocks(s, entry, priority);
    case New(entry) => NewKeepsLocks(s, entry);
    case Spawn(parent, entry) => SpawnKeepsLocks(s, parent, entry);
    case Tick(esp) => ScheduleKeepsLocks(s, esp);
    case Delete(tid) => DeleteKeepsLocks(s, tid);
    case _ =>
  }

  /** An attempt leaves its word 1 and every other word alone, also before there is a current block. */
  lemma AttemptSetsWord(s: State, l: nat, esp: nat)
    requires s.WellFormed() && l < |s.locks| && (s.current.Some? ==> s.idle.Some?)
    ensures var s' := LockAttempt(s, l, esp);
            && |s'.locks| == |s.locks| && s'.locks[l].word == 1
            && forall k :: 0 <= k < |s.locks| && k != l ==> s'.locks[k] == s.locks[k]
  {
    hide Schedule;
    if s.current.Some? {
      ScheduleKeepsLocks(Park(s, l), esp);
    }
  }

  /** It returns exactly when the word was 0. */
  lemma AttemptReturnsExactlyWhen(s: State, l: nat, esp: nat)
    requires Inv(s) && Allowed(s, Acquire(l, esp))
    ensures Returns(s, Acquire(l, esp), l) <==> s.locks[l].word == 0
  {
    hide Schedule, Inv;
    if s.locks[l].word != 0 {
      ScheduleKeepsLocks(Park(s, l), esp);
    }
  }

  /** Every step: an attempt leaves the word 1, an unlock leaves it 0, and nothing else changes it. */
  lemma StepOnWord(s: State, op: Op, k: nat)
    requires Meaningful(s, op) && k < |s.locks|
    ensures var s' := Step(s, op);
            && |s'.locks| == |s.locks|
            && s'.locks[k].word == if op.Acquire? && op.l == k then 1 else if op == Release(k) then 0 else s.locks[k].word
  {
    hide Schedule;
    match op
    case Acquire(l, esp) => AttemptSetsWord(s, l, esp);
    case Release(l) =>
    case _ => OthersKeepLocks(s, op);
  }

  /** The word follows the calls that return by one step. */
  lemma StepFollowsCalls(s: State, op: Op, l: nat)
    requires Inv(s) && Allowed(s, op) && l < |s.locks|
    ensures var s' := Step(s, op);
            && |s'.locks| == |s.locks| && s'.locks[l].word <= 1
            && (s'.locks[l].word == 1 <==> Returns(s, op, l) || (s.locks[l].word == 1 && op != Release(l)))
  {
    hide Step, Returns, Contexts, Stacks, Names, NoStranded, Shape;
    StepOnWord(s, op, l);
    if op.Acquire? && op.l == l {
      AttemptReturnsExactlyWhen(s, l, op.esp);
    } else {
      OthersDoNotReturn(s, op, l);
    }
  }

  lemma OthersDoNotReturn(s: State, op: Op, l: nat)
    requires Meaningful(s, op) && !(op.Acquire? && op.l == l)
    ensures !Returns(s, op, l)
  {
    hide Step;
  }

  // ---- Runs ------------------------------------------------------------------

  /**
   * Over every lawful run a lock word is 1 exactly when the latest mutex_lock of that lock to return
   * came after its latest mutex_unlock.
   */
  lemma {:induction false} WordTellsTheCalls(s: State, ops: seq<Op>, l: nat)
    requires Inv(s) && Lawful(s, ops) && l < |s.locks|
    ensures var s' := Exec(s, ops);
            && l < |s'.locks| && s'.locks[l].word <= 1
            && (s'.locks[l].word == 1 <==> Held(s, ops, l, s.locks[l].word == 1))
    decreases |ops|
  {
    hide Step, Allowed, Returns, Contexts, Stacks, Names, NoStranded, Shape;
    if ops != [] {
      StepIsMeaningful(s, ops[0]);
      StepFollowsCalls(s, ops[0], l);
      StepKeepsInv(s, ops[0]);
      WordTellsTheCalls(Step(s, ops[0]), ops[1..], l);
    }
  }

  /** From scheduler_init on: no lock is held until a mutex_lock returns. */
  lemma WordTellsTheCallsSinceBoot(pages: Pages, locks: nat, idleTask: nat, ops: seq<Op>, l: nat)
    requires Sound(pages) && Boot(Blank(pages, locks), idleTask).Some? && l < locks
    requires Lawful(Boot(Blank(pages, locks), idleTask).value, ops)
    ensures var s0 := Boot(Blank(pages, locks), idleTask).value; var s := Exec(s0, ops);
            && |s0.locks| == locks && l < |s.locks|
            && (s.locks[l].word == 1 <==> Held(s0, ops, l, false))
  {
    hide Inv, Exec, Lawful, Held, AllocPage, FirstDead;
    BootEstablishesInv(pages, locks, idleTask);
    WordTellsTheCalls(Boot(Blank(pages, locks), idleTask).value, ops, l);
  }

  /** No attempt on `l` in the run returns. */
  ghost predicate NoneReturns(s: State, ops: seq<Op>, l: nat)
    requires Lawful(s, ops)
    decreases |ops|
  {
    ops != [] ==> !Returns(s, ops[0], l) && NoneReturns(Step(s, ops[0]), ops[1..], l)
  }

  /** Mutual exclusion over kernel runs: once a mutex_lock has returned none returns before the next mutex_unlock. */
  lemma {:induction false} TakenUntilReleased(s: State, ops: seq<Op>, l: nat)
    requires Inv(s) && Lawful(s, ops) && l < |s.locks| && s.locks[l].word == 1 && Release(l) !in ops
    ensures NoneReturns(s, ops, l)
    ensures var s' := Exec(s, ops); l < |s'.locks| && s'.locks[l].word == 1
    decreases |ops|
  {
    hide Step, Allowed, Returns, Contexts, Stacks, Names, NoStranded, Shape;
    if ops != [] {
      StepIsMeaningful(s, ops[0]);
      StepOnWord(s, ops[0], l);
      StepKeepsInv(s, ops[0]);
      if ops[0].Acquire? && ops[0].l == l {
        AttemptReturnsExactlyWhen(s, l, ops[0].esp);
      } else {
        OthersDoNotReturn(s, ops[0], l);
      }
      TakenUntilReleased(Step(s, ops[0]), ops[1..], l);
    }
  }

  /** Nobody tries lock `l` in the run. */
  predicate NobodyTries(ops: seq<Op>, l: nat) {
    forall k :: 0 <= k < |ops| ==> !(ops[k].Acquire? && ops[k].l == l)
  }

  lemma {:induction false} FreeUntilTried(s: State, ops: seq<Op>, l: nat)
    requires Inv(s) && Lawful(s, ops) && l < |s.locks| && s.locks[l].word == 0 && NobodyTries(ops, l)
    ensures var s' := Exec(s, ops); Inv(s') && l < |s'.locks| && s'.locks[l].word == 0
    decreases |ops|
  {
    hide Step, Allowed, Inv;
    if ops != [] {
      StepIsMeaningful(s, ops[0]);
      StepOnWord(s, ops[0], l);
      StepKeepsInv(s, ops[0]);
      FreeUntilTried(Step(s, ops[0]), ops[1..], l);
    }
  }

  /** An attempt on `l` now succeeds: the word becomes 1, the caller goes on running and is in no retry loop. */
  ghost predicate Takes(s: State, l: nat, esp: nat) {
    && Meaningful(s, Acquire(l, esp))
    && var s' := Step(s, Acquire(l, esp));
       && l < |s'.locks| && s'.locks[l].word == 1
       && s'.current == s.current && s.current.value !in s'.looping
       && s.current.value < |s'.slots| && s'.slots[s.current.value].state.Running?
  }

  lemma FreeLockIsTaken(s: State, l: nat, esp: nat)
    requires Inv(s) && Allowed(s, Acquire(l, esp)) && s.locks[l].word == 0
    ensures Takes(s, l, esp)
  {
    hide Inv, Schedule;
    AttemptSetsWord(s, l, esp);
    AttemptReturnsExactlyWhen(s, l, esp);
    CurrentRuns(s);
  }

  lemma CurrentRuns(s: State)
    requires Inv(s)
    ensures s.current.Some? && s.current.value < |s.slots| && s.slots[s.current.value].state.Running?
  {
  }

  /**
   * After mutex_unlock, with or without waiters and whatever runs meanwhile, the first thread to try
   * that mutex gets it.
   */
  lemma ReleasedLockIsTaken(s: State, ops: seq<Op>, l: nat)
    requires Inv(s) && Lawful(s, ops) && ops != [] && ops[0] == Release(l) && NobodyTries(ops, l)
    ensures forall esp: nat :: Allowed(Exec(s, ops), Acquire(l, esp)) ==> Takes(Exec(s, ops), l, esp)
  {
    hide Step, Inv, Allowed, Takes;
    StepIsMeaningful(s, Release(l));
    StepOnWord(s, Release(l), l);
    StepKeepsInv(s, Release(l));
    FreeUntilTried(Step(s, Release(l)), ops[1..], l);
    forall esp: nat | Allowed(Exec(s, ops), Acquire(l, esp)) ensures Takes(Exec(s, ops), l, esp) {
      FreeLockIsTaken(Exec(s, ops), l, esp);
    }
  }
}
