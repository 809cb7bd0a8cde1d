/** NULL-terminated linked lists over slot numbers: what enqueue and dequeue do to the links. */
module RunQueue {
  import opened Options
  import opened KernelState
  import opened KernelInvariant

  function Nth(q: seq<nat>, k: nat): Option<nat> {
    if k < |q| then Some(q[k]) else None
  }

  /** Following `links` from `head` visits exactly `q`, once each, and stops; other blocks have no link. */
  ghost predicate Chain(links: seq<Option<nat>>, head: Option<nat>, q: seq<nat>) {
    && NoDup(q) && (forall k :: 0 <= k < |q| ==> q[k] < |links|)
    && head == Nth(q, 0)
    && (forall k {:trigger links[q[k]]} :: 0 <= k < |q| ==> links[q[k]] == Nth(q, k + 1))
    && (forall i: nat {:trigger links[i]} :: i < |links| && i !in q ==> links[i] == None)
  }

  lemma LinkAt(links: seq<Option<nat>>, head: Option<nat>, q: seq<nat>, k: nat)
    requires Chain(links, head, q) && k < |q|
    ensures q[k] < |links| && links[q[k]] == Nth(q, k + 1)
  {
  }

  /** Zero-filled storage links nothing. */
  lemma NoLinks(links: seq<Option<nat>>, locks: seq<Lock>)
    requires forall i :: 0 <= i < |links| ==> links[i] == None
    requires forall l :: 0 <= l < |locks| ==> locks[l].waiters == []
    ensures Chain(links, None, []) && WaitChains(links, locks)
  {
  }

  lemma Loose(links: seq<Option<nat>>, head: Option<nat>, q: seq<nat>, x: nat)
    requires Chain(links, head, q) && x < |links| && x !in q
    ensures links[x] == None && head == Nth(q, 0)
    ensures forall k :: 0 <= k < |q| ==> q[k] < |links|
  {
  }

  lemma AppendToEmpty(links: seq<Option<nat>>, x: nat)
    requires Chain(links, None, []) && x < |links|
    ensures Chain(links, Some(x), [x])
  {
  }

  lemma Append(links: seq<Option<nat>>, q: seq<nat>, x: nat)
    requires Chain(links, Nth(q, 0), q) && q != [] && x < |links| && x !in q
    ensures Chain(links[q[|q| - 1] := Some(x)], Nth(q + [x], 0), q + [x]) && Nth(q + [x], 0) == Nth(q, 0)
  {
    var links', q' := links[q[|q| - 1] := Some(x)], q + [x];
    forall k | 0 <= k < |q'| ensures links'[q'[k]] == Nth(q', k + 1) {
      if k < |q| {
        assert links[q[k]] == Nth(q, k + 1);
      }
    }
  }

  lemma RemoveHead(links: seq<Option<nat>>, head: Option<nat>, q: seq<nat>)
    requires Chain(links, head, q) && q != []
    ensures Chain(links[q[0] := None], links[q[0]], q[1..])
  {
    forall k | 0 <= k < |q| - 1 ensures links[q[0] := None][q[1..][k]] == Nth(q[1..], k + 1) {
      assert links[q[k + 1]] == Nth(q, k + 2);
    }
    forall i: nat | i < |links| && i !in q[1..] ensures links[q[0] := None][i] == None {
      assert i in q ==> i == q[0];
    }
  }

  lemma RemoveAt(q: seq<nat>, i: nat)
    requires NoDup(q) && i < |q|
    ensures Without(q, q[i]) == q[..i] + q[i + 1..]
    ensures forall k :: 0 <= k < |q| - 1 ==> Without(q, q[i])[k] == q[if k < i then k else k + 1]
  {
    assert IndexOf(q, q[i]) == i;
  }

  lemma LinkAfterRemoval(links: seq<Option<nat>>, head: Option<nat>, q: seq<nat>, i: nat, k: nat)
    requires Chain(links, head, q) && 0 < i < |q| && k < |q| - 1
    ensures q[i] < |links| && q[i - 1] < |links|
    ensures (var r := q[..i] + q[i + 1..];
             r[k] < |links| && links[q[i - 1] := links[q[i]]][q[i] := None][r[k]] == Nth(r, k + 1))
  {
    hide Chain;
    var m := if k < i then k else k + 1;
    assert q[m] != q[i] && (m != i - 1 ==> q[m] != q[i - 1]) by { Distinct(links, head, q); }
    LinkAt(links, head, q, i - 1);
    LinkAt(links, head, q, i);
    LinkAt(links, head, q, m);
  }

  lemma Distinct(links: seq<Option<nat>>, head: Option<nat>, q: seq<nat>)
    requires Chain(links, head, q)
    ensures forall j, k :: 0 <= j < |q| && 0 <= k < |q| && j != k ==> q[j] != q[k]
  {
    assert forall j, k :: 0 <= j < k < |q| ==> q[j] != q[k];
  }

  lemma RemoveAfter(links: seq<Option<nat>>, head: Option<nat>, q: seq<nat>, i: nat)
    requires Chain(links, head, q) && 0 < i < |q|
    ensures Chain(links[q[i - 1] := links[q[i]]][q[i] := None], head, Without(q, q[i]))
  {
    hide Without, IndexOf, NoDup;
    var links', r := links[q[i - 1] := links[q[i]]][q[i] := None], Without(q, q[i]);
    RemoveAt(q, i);
    WithoutIs(q, q[i]);
    forall k | 0 <= k < |r|
      ensures r[k] < |links| && links'[r[k]] == Nth(r, k + 1)
    {
      LinkAfterRemoval(links, head, q, i, k);
    }
  }

  /** The links after taking out the node at position `i`. */
  function Unlinked(links: seq<Option<nat>>, q: seq<nat>, i: nat): seq<Option<nat>>
    requires i < |q| && q[i] < |links| && (i > 0 ==> q[i - 1] < |links|)
  {
    if i == 0 then links[q[0] := None] else links[q[i - 1] := links[q[i]]][q[i] := None]
  }

  lemma Unlink(links: seq<Option<nat>>, q: seq<nat>, i: nat)
    requires Chain(links, Nth(q, 0), q) && i < |q|
    ensures var r := Without(q, q[i]);
            && q[i] < |links| && (i > 0 ==> q[i - 1] < |links| && q[i - 1] != q[i] && links[q[i - 1]] == Some(q[i]))
            && Chain(Unlinked(links, q, i), Nth(r, 0), r)
            && Nth(r, 0) == if i == 0 then links[q[0]] else Nth(q, 0)
  {
    RemoveAt(q, i);
    if i > 0 {
      assert links[q[i - 1]] == Nth(q, i);
    }
    if i == 0 {
      RemoveHead(links, Nth(q, 0), q);
    } else {
      RemoveAfter(links, Nth(q, 0), q, i);
    }
  }

  /** Read back from the links, the queue is determined: a chain represents one order only. */
  lemma {:induction false} ChainIsUnique(links: seq<Option<nat>>, head: Option<nat>, q: seq<nat>, r: seq<nat>)
    requires Chain(links, head, q) && Chain(links, head, r)
    ensures q == r
    decreases |q|
  {
    if q != [] && r != [] {
      RemoveHead(links, head, q);
      RemoveHead(links, head, r);
      ChainIsUnique(links[q[0] := None], links[q[0]], q[1..], r[1..]);
      assert q == [q[0]] + q[1..] && r == [r[0]] + r[1..];
    }
  }

  // ---- The walk of schedule() --------------------------------------------

  /** The link schedule() follows from slot `i`: `next`, or the head at the tail. */
  function Follow(links: seq<Option<nat>>, head: Option<nat>, i: nat): Option<nat>
    requires i < |links|
  {
    if links[i] == None then head else links[i]
  }

  /** What schedule() needs of an order: distinct slots, each followed by the next, the last by the first. */
  ghost predicate Circuit(links: seq<Option<nat>>, head: Option<nat>, order: seq<nat>) {
    && (forall k :: 0 <= k < |order| ==> order[k] < |links|)
    && (forall k :: 0 < k < |order| ==> order[k] != order[0])
    && forall k :: 0 <= k < |order| ==>
         Follow(links, head, order[k]) == Nth(order, if k + 1 < |order| then k + 1 else 0)
  }

  lemma CircuitStep(links: seq<Option<nat>>, head: Option<nat>, order: seq<nat>, k: nat)
    requires Circuit(links, head, order) && k < |order|
    ensures order[k] < |links|
    ensures Follow(links, head, order[k]) == if k + 1 < |order| then Some(order[k + 1]) else Some(order[0])
    ensures k + 1 < |order| ==> order[k + 1] != order[0]
  {
  }

  lemma QueueIsCircuit(links: seq<Option<nat>>, q: seq<nat>)
    requires Chain(links, Nth(q, 0), q)
    ensures Circuit(links, Nth(q, 0), q)
  {
    forall k | 0 <= k < |q| ensures Follow(links, Nth(q, 0), q[k]) == Nth(q, if k + 1 < |q| then k + 1 else 0) {
      assert links[q[k]] == Nth(q, k + 1);
    }
  }

  /** A ring may be entered anywhere. */
  lemma TurnIsCircuit(links: seq<Option<nat>>, q: seq<nat>, p: nat)
    requires Chain(links, Nth(q, 0), q) && p < |q|
    ensures Circuit(links, Nth(q, 0), q[p + 1..] + q[..p + 1])
  {
    var order := q[p + 1..] + q[..p + 1];
    forall k | 0 <= k < |order|
      ensures order[k] < |links| && (k > 0 ==> order[k] != order[0])
      ensures Follow(links, Nth(q, 0), order[k]) == Nth(order, if k + 1 < |order| then k + 1 else 0)
    {
      var m := if p + 1 + k < |q| then p + 1 + k else p + 1 + k - |q|;
      assert order[k] == q[m] && links[q[m]] == Nth(q, m + 1);
      assert order[0] == if p + 1 < |q| then q[p + 1] else q[0];
    }
  }

  /** Following links from the current block walks the rotation, and after its end starts over. */
  lemma RotationIsCircuit(links: seq<Option<nat>>, s: State)
    requires Chain(links, Nth(s.queue, 0), s.queue) && s.current.Some? && s.current.value < |links|
    ensures Circuit(links, Nth(s.queue, 0), Rotation(s))
    ensures Follow(links, Nth(s.queue, 0), s.current.value) == Nth(Rotation(s), 0)
  {
    hide Chain, Circuit, IndexOf;
    var q := s.queue;
    if s.current.value in q {
      var p := IndexOf(q, s.current.value);
      TurnIsCircuit(links, q, p);
      LinkAt(links, Nth(q, 0), q, p);
    } else {
      QueueIsCircuit(links, q);
      Loose(links, Nth(q, 0), q, s.current.value);
    }
  }

  lemma {:induction false} FirstReadyAt(slots: seq<Slot>, order: seq<nat>, k: nat)
    requires k <= |order| && forall j :: 0 <= j < |order| ==> order[j] < |slots|
    requires forall j :: 0 <= j < k ==> !slots[order[j]].state.Ready?
    ensures k == |order| ==> FirstReady(slots, order) == None
    ensures k < |order| && slots[order[k]].state.Ready? ==> FirstReady(slots, order) == Some(order[k])
  {
    if k > 0 {
      assert forall j :: 0 <= j < |order| - 1 ==> order[1..][j] == order[j + 1];
      FirstReadyAt(slots, order[1..], k - 1);
    }
  }

  // ---- Wait lists --------------------------------------------------------

  /** One wait list: from `head` through the links, no block twice, and it stops. */
  ghost predicate WaitChain(links: seq<Option<nat>>, head: Option<nat>, w: seq<nat>) {
    && NoDup(w) && (forall k :: 0 <= k < |w| ==> w[k] < |links|)
    && head == Nth(w, 0)
    && forall k {:trigger links[w[k]]} :: 0 <= k < |w| ==> links[w[k]] == Nth(w, k + 1)
  }

  lemma WaitPush(links: seq<Option<nat>>, head: Option<nat>, w: seq<nat>, x: nat)
    requires WaitChain(links, head, w) && x < |links| && x !in w
    ensures WaitChain(links[x := head], Some(x), [x] + w)
  {
    forall k | 0 <= k < |w| + 1 ensures links[x := head][([x] + w)[k]] == Nth([x] + w, k + 1) {
      if k > 0 {
        assert links[w[k - 1]] == Nth(w, k);
      }
    }
  }

  lemma WaitPop(links: seq<Option<nat>>, head: Option<nat>, w: seq<nat>)
    requires WaitChain(links, head, w) && w != []
    ensures WaitChain(links[w[0] := None], links[w[0]], w[1..])
  {
    forall k | 0 <= k < |w| - 1 ensures links[w[0] := None][w[1..][k]] == Nth(w[1..], k + 1) {
      assert links[w[k + 1]] == Nth(w, k + 2);
    }
  }

  lemma WaitKeeps(links: seq<Option<nat>>, head: Option<nat>, w: seq<nat>, x: nat, o: Option<nat>)
    requires WaitChain(links, head, w) && x < |links| && x !in w
    ensures WaitChain(links[x := o], head, w)
  {
  }

  /** All wait lists through one set of links; no block is on two. */
  ghost predicate WaitChains(links: seq<Option<nat>>, locks: seq<Lock>) {
    && (forall l :: 0 <= l < |locks| ==> WaitChain(links, Nth(locks[l].waiters, 0), locks[l].waiters))
    && (forall l, m, x: nat :: 0 <= l < m < |locks| && x in locks[l].waiters ==> x !in locks[m].waiters)
  }

  lemma WordKeepsChains(links: seq<Option<nat>>, locks: seq<Lock>, l: nat, word: nat)
    requires WaitChains(links, locks) && l < |locks|
    ensures WaitChains(links, locks[l := locks[l].(word := word)])
  {
  }

  lemma PushKeepsChains(links: seq<Option<nat>>, locks: seq<Lock>, l: nat, x: nat, word: nat)
    requires WaitChains(links, locks) && l < |locks| && x < |links|
    requires forall m :: 0 <= m < |locks| ==> x !in locks[m].waiters
    ensures WaitChains(links[x := Nth(locks[l].waiters, 0)], locks[l := Lock(word, [x] + locks[l].waiters)])
  {
    var o := Nth(locks[l].waiters, 0);
    var locks' := locks[l := Lock(word, [x] + locks[l].waiters)];
    forall m: nat | m < |locks|
      ensures WaitChain(links[x := o], Nth(locks'[m].waiters, 0), locks'[m].waiters)
    {
      if m == l {
        WaitPush(links, o, locks[l].waiters, x);
      } else {
        WaitKeeps(links, Nth(locks[m].waiters, 0), locks[m].waiters, x, o);
      }
    }
  }

  lemma PopKeepsChains(links: seq<Option<nat>>, locks: seq<Lock>, l: nat, word: nat)
    requires WaitChains(links, locks) && l < |locks| && locks[l].waiters != []
    ensures var w := locks[l].waiters;
            WaitChains(links[w[0] := None], locks[l := Lock(word, w[1..])]) && links[w[0]] == Nth(w, 1)
  {
    var w := locks[l].waiters;
    var locks' := locks[l := Lock(word, w[1..])];
    WaitPop(links, Nth(w, 0), w);
    forall m: nat | m < |locks|
      ensures WaitChain(links[w[0] := None], Nth(locks'[m].waiters, 0), locks'[m].waiters)
    {
      if m != l {
        assert w[0] in locks[l].waiters;
        WaitKeeps(links, Nth(locks[m].waiters, 0), locks[m].waiters, w[0], None);
      }
    }
  }

  lemma ResetKeepsChains(links: seq<Option<nat>>, locks: seq<Lock>, x: nat)
    requires WaitChains(links, locks) && x < |links|
    requires forall m :: 0 <= m < |locks| ==> x !in locks[m].waiters
    ensures WaitChains(links[x := None], locks)
  {
    forall m: nat | m < |locks|
      ensures WaitChain(links[x := None], Nth(locks[m].waiters, 0), locks[m].waiters)
    {
      WaitKeeps(links, Nth(locks[m].waiters, 0), locks[m].waiters, x, None);
    }
  }
}
