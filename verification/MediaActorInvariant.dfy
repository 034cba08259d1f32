/** What every step of the media actor keeps. */
module MediaActorInvariant {
  import opened Options
  import opened MediaActorModel

  /** One free for a block that is gone and one release if it was retained; for
      a block still allocated no free, and no release yet. */
  ghost predicate Accounted(h: Heap, p: Address) {
    if p in h.blocks then
      var r := h.blocks[p];
      && p < h.next && CommandValid(r.command)
      && r.retained == (r.command.handle != 0 && r.command.hasRetain)
      && h.retains[p] == (if r.retained then 1 else 0)
      && h.frees[p] == 0 && h.releases[p] == 0
    else if p < h.next then
      h.frees[p] == 1 && h.retains[p] == h.releases[p] <= 1
    else
      h.frees[p] == 0 && h.retains[p] == 0 && h.releases[p] == 0
  }

  ghost predicate HeapLedger(h: Heap) {
    forall p: Address :: Accounted(h, p)
  }

  /** The answers a submitter that waits may find in its completed request. */
  predicate FinalStatus(status: Status) {
    status == Executed || status == ExecutionFailed || status == Stale || status == ShuttingDown
  }

  /** A block is completed once nobody will execute it, and then carries a final
      answer if its submitter still waits. */
  ghost predicate Settled(s: State, p: Address) {
    p in s.heap.blocks ==>
      && (s.heap.blocks[p].completed <==> !InUse(s, p))
      && (s.heap.blocks[p].completed && p in s.waiters ==> FinalStatus(s.heap.blocks[p].status))
  }

  ghost predicate Completion(s: State) {
    forall p: Address :: Settled(s, p)
  }

  function Ids(blocks: map<Address, Request>, q: seq<Address>): (ids: seq<nat>)
    requires forall p :: p in q ==> p in blocks
    ensures |ids| == |q|
    ensures forall i :: 0 <= i < |q| ==> ids[i] == blocks[q[i]].command.id
  {
    if q == [] then [] else [blocks[q[0]].command.id] + Ids(blocks, q[1..])
  }

  ghost predicate Increasing(ids: seq<nat>) {
    forall i, j :: 0 <= i < j < |ids| ==> ids[i] < ids[j]
  }

  /** Commands dequeued so far, then those queued, in one order. */
  function Order(s: State): seq<nat>
    requires Held(s)
  {
    s.popped + Ids(s.heap.blocks, s.queue)
  }

  ghost predicate Bounded(ids: seq<nat>, last: nat) {
    forall i :: 0 <= i < |ids| ==> 0 < ids[i] <= last
  }

  ghost predicate Ordered(s: State)
    requires Held(s)
  {
    && Increasing(Order(s))
    && Bounded(Order(s), s.health.lastId)
    && (s.current.Some? ==>
          && s.popped != []
          && s.popped[|s.popped| - 1] == s.heap.blocks[s.current.value].command.id)
  }

  function Normal(blocks: map<Address, Request>, q: seq<Address>): nat
    requires forall p :: p in q ==> p in blocks
  {
    if q == [] then 0
    else
      var last := blocks[q[|q| - 1]].command.kind;
      Normal(blocks, q[..|q| - 1]) + (if UsesReservedSlot(last) then 0 else 1)
  }

  ghost predicate Room(s: State)
    requires Held(s)
  {
    && s.config.reserved < s.config.capacity
    && |s.queue| <= s.config.capacity
    && Normal(s.heap.blocks, s.queue) <= s.config.capacity - s.config.reserved
    && |s.queue| <= s.health.maxDepth <= s.config.capacity
  }

  /** Commands the worker thread is executing, nested direct calls included. */
  function InExecution(s: State): nat {
    (if s.current.Some? then 1 else 0) + |s.direct|
  }

  ghost predicate Ledger(s: State) {
    && s.health.submitted == s.health.executed + s.health.rejectedStale + s.health.coalesced
                             + |s.queue| + InExecution(s) + s.drained
    && s.drained <= s.health.rejectedStopping
    && s.health.executionFailed <= s.health.executed
  }

  /** Flags follow the worker: nothing is queued or executing without one. */
  ghost predicate Threads(s: State) {
    && (s.life.running <==> WorkerAlive(s.life.phase))
    && (s.life.accepting ==> s.life.running && !s.life.stopping)
    && (s.life.dispatchEnabled ==> s.life.running && s.life.ready)
    && (s.life.phase == Finishing ==> s.life.stopping)
    && (s.life.phase != Looping ==> s.current == None)
    && (s.life.phase != Starting && s.life.phase != Looping ==> s.queue == [])
    && (s.direct != [] ==> WorkerAlive(s.life.phase))
    && (s.verdict != Unjudged ==> s.current.Some?)
    && (s.life.joining ==> s.life.phase != Absent)
  }

  /** All of it but Threads, which does not hold inside the rejection loop. */
  ghost predicate Core(s: State) {
    References(s) && HeapLedger(s.heap) && Completion(s) && Ordered(s) && Room(s) && Ledger(s)
  }

  ghost predicate Inv(s: State) {
    Core(s) && Threads(s)
  }

  // ------------------------------------------------------------------ the heap

  lemma CreateKeepsHeapLedger(h: Heap, c: Command, references: nat)
    requires HeapLedger(h) && CommandValid(c)
    ensures HeapLedger(Create(h, c, references))
  {
    forall p: Address ensures Accounted(Create(h, c, references), p) {
      assert Accounted(h, p);
    }
  }

  lemma FreeKeepsHeapLedger(h: Heap, p: Address)
    requires HeapLedger(h) && p in h.blocks
    ensures HeapLedger(Free(h, p))
  {
    forall q: Address ensures Accounted(Free(h, p), q) {
      assert Accounted(h, q);
    }
  }

  lemma DropKeepsHeapLedger(h: Heap, p: Address)
    requires HeapLedger(h) && p in h.blocks
    ensures HeapLedger(Drop(h, p))
  {
    FreeKeepsHeapLedger(h, p);
    if h.blocks[p].references > 1 {
      forall q: Address ensures Accounted(Drop(h, p), q) {
        assert Accounted(h, q);
      }
    }
  }

  lemma CompleteKeepsHeapLedger(h: Heap, p: Address, status: Status)
    requires HeapLedger(h) && p in h.blocks
    ensures HeapLedger(CompleteRequest(h, p, status))
  {
    var g := h.(blocks := h.blocks[p := h.blocks[p].(completed := true, status := status)]);
    forall q: Address ensures Accounted(g, q) {
      assert Accounted(h, q);
    }
    DropKeepsHeapLedger(g, p);
  }

  // ----------------------------------------------- how regions change the heap

  /** Every block but p is the same in both heaps. */
  ghost predicate Apart(g: Heap, h: Heap, p: Address) {
    && (forall q :: q != p ==> (q in g.blocks <==> q in h.blocks))
    && (forall q :: q != p && q in g.blocks ==> g.blocks[q] == h.blocks[q])
  }

  lemma DropChanges(h: Heap, p: Address)
    requires p in h.blocks
    ensures Apart(h, Drop(h, p), p) && Drop(h, p).next == h.next
    ensures p in Drop(h, p).blocks <==> h.blocks[p].references > 1
    ensures h.blocks[p].references > 1 ==>
      Drop(h, p).blocks[p] == h.blocks[p].(references := h.blocks[p].references - 1)
  {}

  lemma CompleteChanges(h: Heap, p: Address, status: Status)
    requires p in h.blocks
    ensures Apart(h, CompleteRequest(h, p, status), p) && CompleteRequest(h, p, status).next == h.next
    ensures p in CompleteRequest(h, p, status).blocks <==> h.blocks[p].references > 1
    ensures h.blocks[p].references > 1 ==>
      CompleteRequest(h, p, status).blocks[p]
      == h.blocks[p].(completed := true, status := status, references := h.blocks[p].references - 1)
  {
    DropChanges(h.(blocks := h.blocks[p := h.blocks[p].(completed := true, status := status)]), p);
  }

  // ----------------------------------------------------------------- sequences

  lemma {:induction false} NormalFrame(b: map<Address, Request>, c: map<Address, Request>, q: seq<Address>)
    requires forall p :: p in q ==> p in b && p in c && b[p].command.kind == c[p].command.kind
    ensures Normal(b, q) == Normal(c, q)
  {
    if q != [] { NormalFrame(b, c, q[..|q| - 1]); }
  }

  lemma {:induction false} NormalBound(b: map<Address, Request>, q: seq<Address>)
    requires forall p :: p in q ==> p in b
    ensures Normal(b, q) <= |q|
  {
    if q != [] { NormalBound(b, q[..|q| - 1]); }
  }

  lemma {:induction false} NormalTail(b: map<Address, Request>, q: seq<Address>)
    requires q != [] && forall p :: p in q ==> p in b
    ensures Normal(b, q[1..]) == Normal(b, q) - (if UsesReservedSlot(b[q[0]].command.kind) then 0 else 1)
  {
    var init := q[..|q| - 1];
    if |q| > 1 {
      NormalTail(b, init);
      assert init[1..] == q[1..][..|q| - 2];
    } else {
      assert init == [];
    }
  }

  lemma IdsHead(b: map<Address, Request>, q: seq<Address>)
    requires q != [] && forall p :: p in q ==> p in b
    ensures Ids(b, q) == [b[q[0]].command.id] + Ids(b, q[1..])
  {}

  lemma {:induction false} IdsFrame(b: map<Address, Request>, c: map<Address, Request>, q: seq<Address>)
    requires forall p :: p in q ==> p in b && p in c && b[p].command == c[p].command
    ensures Ids(b, q) == Ids(c, q)
  {}

  lemma IncreasingSnoc(ids: seq<nat>, last: nat)
    requires Increasing(ids) && Bounded(ids, last)
    ensures Increasing(ids + [last + 1]) && Bounded(ids + [last + 1], last + 1)
  {}

  lemma IncreasingCut(a: seq<nat>, x: nat, b: seq<nat>)
    requires Increasing(a + [x] + b)
    ensures Increasing(a + b)
  {
    var w := a + [x] + b;
    assert forall i :: 0 <= i < |a + b| ==> (a + b)[i] == w[if i < |a| then i else i + 1];
  }

  // ------------------------------------------------------------------- enqueue

  lemma EnqueueReferences(s: State, c: Command, wait: bool)
    requires References(s)
    ensures References(Enqueue(s, c, wait))
    ensures forall p :: p != s.heap.next ==> InUse(Enqueue(s, c, wait), p) == InUse(s, p)
  {
    var t, n := Enqueue(s, c, wait), s.heap.next;
    assert Counted(s, n);
    forall p: Address ensures Counted(t, p) {
      assert Counted(s, p);
    }
  }

  lemma EnqueueOrder(s: State, c: Command, wait: bool)
    requires References(s) && Ordered(s) && References(Enqueue(s, c, wait))
    ensures Ordered(Enqueue(s, c, wait))
  {
    var t, n := Enqueue(s, c, wait), s.heap.next;
    assert Counted(s, n);
    IncreasingSnoc(Order(s), s.health.lastId);
    assert Order(t) == Order(s) + [s.health.lastId + 1];
  }

  lemma EnqueueRoom(s: State, c: Command, wait: bool)
    requires References(s) && Room(s) && References(Enqueue(s, c, wait)) && !NoRoom(s, c.kind)
    ensures Room(Enqueue(s, c, wait))
  {
    var t := Enqueue(s, c, wait);
    assert Counted(s, s.heap.next);
    assert t.queue[..|s.queue|] == s.queue;
    NormalFrame(s.heap.blocks, t.heap.blocks, s.queue);
    NormalBound(s.heap.blocks, s.queue);
  }

  lemma EnqueueCompletion(s: State, c: Command, wait: bool)
    requires References(s) && Completion(s)
    ensures Completion(Enqueue(s, c, wait))
  {
    var t := Enqueue(s, c, wait);
    EnqueueReferences(s, c, wait);
    assert Counted(s, s.heap.next);
    forall p: Address ensures Settled(t, p) {
      assert Settled(s, p);
    }
  }

  lemma EnqueueKeepsInv(s: State, c: Command, wait: bool)
    requires Inv(s) && CommandValid(c) && s.life.accepting && !NoRoom(s, c.kind)
    ensures Inv(Enqueue(s, c, wait))
  {
    hide References, HeapLedger, Completion, Ordered, Room;
    CreateKeepsHeapLedger(s.heap, c.(id := s.health.lastId + 1), if wait then 2 else 1);
    EnqueueReferences(s, c, wait);
    EnqueueOrder(s, c, wait);
    EnqueueRoom(s, c, wait);
    EnqueueCompletion(s, c, wait);
  }

  // ------------------------------------------------------------------ coalesce

  lemma CoalesceReferences(s: State, c: Command)
    requires References(s) && TailAbsorbs(s, c)
    ensures References(Coalesce(s, c))
    ensures s.queue[|s.queue| - 1] !in s.waiters && s.heap.next !in s.heap.blocks
    ensures var gone := s.queue[|s.queue| - 1];
      forall p :: p != s.heap.next && p != gone ==>
        && InUse(Coalesce(s, c), p) == InUse(s, p)
        && (p in Coalesce(s, c).heap.blocks <==> p in s.heap.blocks)
        && (p in s.heap.blocks ==> Coalesce(s, c).heap.blocks[p] == s.heap.blocks[p])
  {
    var t, n, last := Coalesce(s, c), s.heap.next, |s.queue| - 1;
    var gone := s.queue[last];
    assert Counted(s, n) && Counted(s, gone);
    CompleteChanges(Create(s.heap, c.(id := s.health.lastId + 1), 1), gone, Accepted);
    assert t.queue == s.queue[..last] + [n] && s.queue == s.queue[..last] + [gone];
    forall p: Address ensures Counted(t, p) {
      assert Counted(s, p);
    }
  }

  lemma CoalesceOrder(s: State, c: Command)
    requires References(s) && Ordered(s) && TailAbsorbs(s, c) && References(Coalesce(s, c))
    ensures Ordered(Coalesce(s, c))
  {
    CoalesceReferences(s, c);
    var t, k := Coalesce(s, c), |Order(s)| - 1;
    CompleteChanges(Create(s.heap, c.(id := s.health.lastId + 1), 1), s.queue[|s.queue| - 1], Accepted);
    assert Counted(s, s.queue[|s.queue| - 1]);
    IncreasingSnoc(Order(s)[..k], s.health.lastId);
    assert Order(t) == Order(s)[..k] + [s.health.lastId + 1];
  }

  lemma CoalesceRoom(s: State, c: Command)
    requires References(s) && Room(s) && TailAbsorbs(s, c) && References(Coalesce(s, c))
    ensures Room(Coalesce(s, c))
  {
    CoalesceReferences(s, c);
    var t, last := Coalesce(s, c), |s.queue| - 1;
    CompleteChanges(Create(s.heap, c.(id := s.health.lastId + 1), 1), s.queue[last], Accepted);
    assert t.queue[..last] == s.queue[..last];
    NormalFrame(s.heap.blocks, t.heap.blocks, s.queue[..last]);
  }

  lemma CoalesceCompletion(s: State, c: Command)
    requires References(s) && Completion(s) && TailAbsorbs(s, c)
    ensures Completion(Coalesce(s, c))
  {
    CoalesceReferences(s, c);
    var t, gone := Coalesce(s, c), s.queue[|s.queue| - 1];
    assert Counted(s, s.heap.next) && Counted(s, gone);
    assert t.queue[|s.queue| - 1] == s.heap.next;
    assert !InUse(t, gone) by { assert t.queue[..|s.queue| - 1] == s.queue[..|s.queue| - 1]; }
    CompleteChanges(Create(s.heap, c.(id := s.health.lastId + 1), 1), gone, Accepted);
    forall p: Address ensures Settled(t, p) {
      assert Settled(s, p);
    }
  }

  lemma CoalesceKeepsInv(s: State, c: Command)
    requires Inv(s) && CommandValid(c) && s.life.accepting && TailAbsorbs(s, c)
    ensures Inv(Coalesce(s, c))
  {
    hide HeapLedger, Completion, Ordered, Room;
    CreateKeepsHeapLedger(s.heap, c.(id := s.health.lastId + 1), 1);
    CompleteKeepsHeapLedger(Create(s.heap, c.(id := s.health.lastId + 1), 1), s.queue[|s.queue| - 1], Accepted);
    CoalesceReferences(s, c);
    CoalesceOrder(s, c);
    CoalesceRoom(s, c);
    CoalesceCompletion(s, c);
  }

  // ------------------------------------------------------------------- discard

  lemma OtherFieldsKeepCore(s: State, t: State)
    requires Core(s) && Ledger(t)
    requires t.heap.blocks == s.heap.blocks && t.heap.next >= s.heap.next && HeapLedger(t.heap)
    requires t.queue == s.queue && t.current == s.current && t.waiters == s.waiters && t.config == s.config
    requires t.health.lastId >= s.health.lastId && t.health.maxDepth == s.health.maxDepth
    requires t.popped == s.popped
    ensures Core(t)
  {
    forall p: Address ensures Counted(t, p) {
      assert Counted(s, p);
    }
    forall p: Address ensures Settled(t, p) {
      assert Settled(s, p);
    }
    assert Order(t) == Order(s);
  }

  lemma DiscardKeepsInv(s: State, c: Command, health: Health)
    requires Inv(s) && CommandValid(c)
    requires health == s.health || health == s.health.(rejectedStopping := s.health.rejectedStopping + 1)
             || health == s.health.(rejectedFull := s.health.rejectedFull + 1)
    ensures Inv(Discard(s, c, health))
  {
    CreateKeepsHeapLedger(s.heap, c.(id := 0), 0);
    FreeKeepsHeapLedger(Create(s.heap, c.(id := 0), 0), s.heap.next);
    assert Counted(s, s.heap.next);
    assert Discard(s, c, health).heap.blocks == s.heap.blocks;
    OtherFieldsKeepCore(s, Discard(s, c, health));
  }

  lemma SubmitKeepsInv(s: State, c: Command, wait: bool, memoryOk: bool)
    requires Inv(s)
    ensures Inv(Submit(s, c, wait, memoryOk).0) && Submit(s, c, wait, memoryOk).0.config == s.config
  {
    hide Counted, Settled, Accounted, Increasing, Bounded;
    if !CommandValid(c) || !memoryOk {
    } else if !s.life.running {
      DiscardKeepsInv(s, c, s.health);
    } else if s.life.stopping || !s.life.accepting {
      DiscardKeepsInv(s, c, s.health.(rejectedStopping := s.health.rejectedStopping + 1));
    } else if !wait && TailAbsorbs(s, c) {
      CoalesceKeepsInv(s, c);
    } else if NoRoom(s, c.kind) {
      DiscardKeepsInv(s, c, s.health.(rejectedFull := s.health.rejectedFull + 1));
    } else {
      EnqueueKeepsInv(s, c, wait);
    }
  }

  // --------------------------------------------------------------------- leave

  lemma LeaveReferences(s: State, p: Address)
    requires References(s) && p in s.waiters
    ensures References(Leave(s, p).0)
    ensures p in Leave(s, p).0.heap.blocks <==> InUse(s, p)
  {
    var t := Leave(s, p).0;
    DropChanges(s.heap, p);
    assert Counted(s, p);
    forall q: Address ensures Counted(t, q) {
      assert Counted(s, q);
      assert InUse(t, q) == InUse(s, q);
    }
  }

  lemma LeaveKeepsInv(s: State, p: Address)
    requires Inv(s) && p in s.waiters
    ensures Inv(Leave(s, p).0) && Leave(s, p).0.config == s.config
  {
    var t := Leave(s, p).0;
    DropKeepsHeapLedger(s.heap, p);
    DropChanges(s.heap, p);
    LeaveReferences(s, p);
    NormalFrame(s.heap.blocks, t.heap.blocks, s.queue);
    IdsFrame(s.heap.blocks, t.heap.blocks, s.queue);
    forall q: Address ensures Settled(t, q) {
      assert Settled(s, q);
      assert InUse(t, q) == InUse(s, q);
    }
  }

  // ---------------------------------------------------------------- the worker

  lemma PopRequests(s: State)
    requires References(s) && Completion(s) && s.current == None && s.queue != []
    ensures References(Pop(s)) && Completion(Pop(s))
  {
    var t := Pop(s);
    TailIsDistinct(s.queue);
    forall q: Address ensures Counted(t, q) && Settled(t, q) {
      assert Counted(s, q) && Settled(s, q);
      assert InUse(t, q) == InUse(s, q);
    }
  }

  lemma PopOrder(s: State)
    requires Held(s) && Ordered(s) && s.queue != []
    ensures Held(Pop(s)) && Ordered(Pop(s))
  {
    hide Increasing, Bounded, Ids;
    var t := Pop(s);
    var head, rest := s.heap.blocks[s.queue[0]].command.id, Ids(s.heap.blocks, s.queue[1..]);
    assert Ids(s.heap.blocks, s.queue) == [head] + rest by { IdsHead(s.heap.blocks, s.queue); }
    assert Order(t) == s.popped + [head] + rest == s.popped + ([head] + rest) == Order(s);
  }

  lemma PopKeepsInv(s: State)
    requires Inv(s) && s.current == None && s.life.phase == Looping
    ensures Inv(Pop(s)) && Pop(s).config == s.config
  {
    if s.queue != [] {
      PopRequests(s);
      PopOrder(s);
      NormalTail(s.heap.blocks, s.queue);
    }
  }

  /** A request that leaves the worker or the queue completed: shared by the
      end of an execution and by the rejection loop. */
  lemma CompletionKeepsRequests(s: State, t: State, p: Address, status: Status)
    requires References(s) && HeapLedger(s.heap) && Completion(s)
    requires InUse(s, p) && t.heap == CompleteRequest(s.heap, p, status) && FinalStatus(status)
    requires t.waiters == s.waiters && !InUse(t, p)
    requires forall q: Address :: q != p ==> InUse(t, q) == InUse(s, q)
    requires Distinct(t.queue) && (t.current.Some? ==> t.current.value !in t.queue)
    ensures References(t) && HeapLedger(t.heap) && Completion(t)
  {
    CompleteKeepsHeapLedger(s.heap, p, status);
    CompleteChanges(s.heap, p, status);
    assert Counted(s, p);
    forall q: Address ensures Counted(t, q) && Settled(t, q) {
      assert Counted(s, q) && Settled(s, q);
    }
    assert forall q :: q in t.queue ==> InUse(t, q);
    assert t.current.Some? ==> InUse(t, t.current.value);
    assert forall q :: q in t.waiters ==> Counted(s, q);
  }

  lemma FinishKeepsInv(s: State, ok: bool)
    requires Inv(s) && s.current.Some?
    ensures Inv(Finish(s, ok)) && Finish(s, ok).config == s.config
  {
    var t, p := Finish(s, ok), s.current.value;
    CompleteChanges(s.heap, p, OutcomeStatus(s.verdict == Fresh, ok));
    CompletionKeepsRequests(s, t, p, OutcomeStatus(s.verdict == Fresh, ok));
    NormalFrame(s.heap.blocks, t.heap.blocks, s.queue);
    IdsFrame(s.heap.blocks, t.heap.blocks, s.queue);
    assert Order(t) == Order(s);
  }

  lemma RejectOneOrder(s: State)
    requires References(s) && Ordered(s) && s.queue != [] && References(RejectOne(s))
    ensures Ordered(RejectOne(s))
  {
    var t, p := RejectOne(s), s.queue[0];
    TailIsDistinct(s.queue);
    CompleteChanges(s.heap, p, ShuttingDown);
    IdsFrame(s.heap.blocks, t.heap.blocks, t.queue);
    var rest := Ids(s.heap.blocks, t.queue);
    assert Order(s) == s.popped + [s.heap.blocks[p].command.id] + rest;
    IncreasingCut(s.popped, s.heap.blocks[p].command.id, rest);
    assert forall i :: 0 <= i < |Order(t)| ==> Order(t)[i] == Order(s)[if i < |s.popped| then i else i + 1];
  }

  lemma RejectOneKeepsCore(s: State)
    requires Core(s) && s.queue != []
    ensures Core(RejectOne(s))
  {
    var t, p := RejectOne(s), s.queue[0];
    RejectOneKeepsReferences(s);
    TailIsDistinct(s.queue);
    CompleteChanges(s.heap, p, ShuttingDown);
    CompletionKeepsRequests(s, t, p, ShuttingDown);
    RejectOneOrder(s);
    NormalTail(s.heap.blocks, s.queue);
    NormalFrame(s.heap.blocks, t.heap.blocks, t.queue);
  }

  /** The rejection loop empties the queue and touches nothing but requests and
      counters: every queued request counts as rejected and as drained. */
  lemma {:induction false} RejectPendingDrains(s: State)
    requires Core(s)
    ensures var t := RejectPending(s);
      && Core(t) && t.queue == []
      && t.life == s.life && t.config == s.config && t.current == s.current && t.verdict == s.verdict
      && t.direct == s.direct && t.waiters == s.waiters && t.popped == s.popped
      && t.drained == s.drained + |s.queue|
      && t.health == s.health.(rejectedStopping := s.health.rejectedStopping + |s.queue|)
    decreases |s.queue|
  {
    if s.queue != [] {
      RejectOneKeepsCore(s);
      RejectPendingDrains(RejectOne(s));
    }
  }

  lemma InitializeKeepsInv(s: State, ok: bool)
    requires Inv(s) && s.life.phase == Starting && s.direct == []
    ensures Inv(Initialize(s, ok)) && Initialize(s, ok).config == s.config
  {
    if ok {
      OtherFieldsKeepCore(s, Initialize(s, ok));
    } else {
      var u := s.(life := s.life.(phase := Exited, ready := false, initFailed := true,
                                  dispatchEnabled := false, running := false, accepting := false));
      OtherFieldsKeepCore(s, u);
      RejectPendingDrains(u);
    }
  }

  lemma WindDownKeepsInv(s: State)
    requires Inv(s) && s.life.phase == Looping && s.current == None && s.life.stopping
    ensures Inv(WindDown(s)) && WindDown(s).config == s.config
  {
    var u := s.(life := s.life.(phase := Finishing));
    OtherFieldsKeepCore(s, u);
    RejectPendingDrains(u);
  }

  predicate MovesRequests(step: Step) {
    step.SubmitStep? || step.LeaveStep? || step.InitializeStep? || step.PopStep? || step.FinishStep?
    || step.WindDownStep?
  }

  lemma RequestStepKeepsInv(s: State, step: Step)
    requires Inv(s) && Enabled(s, step) && MovesRequests(step)
    ensures Inv(Apply(s, step)) && Apply(s, step).config == s.config
  {
    hide Inv;
    match step
    case SubmitStep(c, wait, memoryOk) => SubmitKeepsInv(s, c, wait, memoryOk);
    case LeaveStep(p) => LeaveKeepsInv(s, p);
    case InitializeStep(ok) => InitializeKeepsInv(s, ok);
    case PopStep => PopKeepsInv(s);
    case FinishStep(ok) => FinishKeepsInv(s, ok);
    case WindDownStep => WindDownKeepsInv(s);
  }

  lemma DirectStepKeepsInv(s: State, step: Step)
    requires Inv(s) && Enabled(s, step)
    requires step.DirectBeginStep? || step.DirectEndStep? || step.JudgeStep?
    ensures Inv(Apply(s, step)) && Apply(s, step).config == s.config
  {
    hide References, HeapLedger, Completion, Ordered, Room;
    OtherFieldsKeepCore(s, Apply(s, step));
  }

  lemma LifecycleStepKeepsInv(s: State, step: Step)
    requires Inv(s) && Enabled(s, step)
    requires step.ExitStep? || step.ActivateStep? || step.QuiesceStep? || step.StopStep?
             || step.StopOnWorkerStep? || step.JoinStep? || step.StartStep?
    ensures Inv(Apply(s, step)) && Apply(s, step).config == s.config
  {
    hide References, HeapLedger, Completion, Ordered, Room;
    OtherFieldsKeepCore(s, Apply(s, step));
  }

  /** Any enabled step of any thread keeps the invariant. */
  lemma StepKeepsInv(s: State, step: Step)
    requires Inv(s) && Enabled(s, step)
    ensures Inv(Apply(s, step)) && Apply(s, step).config == s.config
  {
    hide Inv;
    if MovesRequests(step) {
      RequestStepKeepsInv(s, step);
    } else if step.DirectBeginStep? || step.DirectEndStep? || step.JudgeStep? {
      DirectStepKeepsInv(s, step);
    } else {
      LifecycleStepKeepsInv(s, step);
    }
  }

  lemma InitialInv(config: Config)
    requires config.reserved < config.capacity
    ensures Inv(Initial(config))
  {
    forall p: Address ensures Counted(Initial(config), p) && Settled(Initial(config), p)
                              && Accounted(Initial(config).heap, p) {}
  }
}
