/** The media actor itself: a fixed ring of request addresses and the fields of
    struct MediaActor, each method one mutex-protected region. The ghost fields
    hold what lives on the stacks of the threads. */
module MediaActorRing {
  import opened Options
  import opened MediaActorModel
  import opened MediaActorInvariant

  /** The slot i places after the head; head + i < 2 * size. */
  function Slot(head: nat, i: nat, size: nat): nat {
    if head + i < size then head + i else head + i - size
  }

  ghost predicate RingOk(slots: seq<Option<Address>>, head: nat, count: nat) {
    && head < |slots| && count <= |slots|
    && forall i :: 0 <= i < count ==> slots[Slot(head, i, |slots|)].Some?
  }

  /** The queued addresses, oldest first. */
  ghost function RingContents(slots: seq<Option<Address>>, head: nat, count: nat): (q: seq<Address>)
    requires RingOk(slots, head, count)
    ensures |q| == count
    ensures forall i :: 0 <= i < count ==> q[i] == slots[Slot(head, i, |slots|)].value
  {
    seq(count, i requires 0 <= i < count && RingOk(slots, head, count) => slots[Slot(head, i, |slots|)].value)
  }

  /** The source's modulo is Slot. */
  lemma SlotIsModulo(head: nat, i: nat, size: nat)
    requires head < size && i <= size
    ensures (head + i) % size == Slot(head, i, size)
  {
    var x := head + i;
    var turns := x / size;
    assert x == turns * size + x % size;
    assert turns >= 2 ==> turns * size >= 2 * size;
  }

  lemma PushContents(slots: seq<Option<Address>>, head: nat, count: nat, p: Address)
    requires RingOk(slots, head, count) && count < |slots|
    ensures var after := slots[Slot(head, count, |slots|) := Some(p)];
      RingOk(after, head, count + 1) && RingContents(after, head, count + 1) == RingContents(slots, head, count) + [p]
  {}

  lemma PopContents(slots: seq<Option<Address>>, head: nat, count: nat)
    requires RingOk(slots, head, count) && count > 0
    ensures var after, next := slots[head := None], Slot(head, 1, |slots|);
      RingOk(after, next, count - 1) && RingContents(after, next, count - 1) == RingContents(slots, head, count)[1..]
  {
    assert forall i :: 0 <= i < count - 1 ==>
      Slot(Slot(head, 1, |slots|), i, |slots|) == Slot(head, i + 1, |slots|);
  }

  lemma ReplaceContents(slots: seq<Option<Address>>, head: nat, count: nat, p: Address)
    requires RingOk(slots, head, count) && count > 0
    ensures var after := slots[Slot(head, count - 1, |slots|) := Some(p)];
      RingOk(after, head, count) && RingContents(after, head, count) == RingContents(slots, head, count)[count - 1 := p]
  {}

  lemma TailSlot(slots: seq<Option<Address>>, head: nat, count: nat)
    requires RingOk(slots, head, count) && count > 0
    ensures |slots| > 0
    ensures var tail := (head + count - 1) % |slots|;
      tail == Slot(head, count - 1, |slots|) && slots[tail] == Some(RingContents(slots, head, count)[count - 1])
  {
    SlotIsModulo(head, count - 1, |slots|);
  }

  class MediaActor {
    const config: Config
    const queue: array<Option<Address>>
    var queueHead: nat
    var queueCount: nat
    var heap: Heap
    var life: Lifecycle
    var health: Health
    var currentCommandId: nat
    ghost var current: Option<Address>
    ghost var verdict: Verdict
    ghost var direct: seq<Command>
    ghost var waiters: set<Address>
    ghost var popped: seq<nat>
    ghost var drained: nat

    ghost predicate Ring()
      reads this, queue
    {
      queue.Length == config.capacity && RingOk(queue[..], queueHead, queueCount)
    }

    ghost function Contents(): (q: seq<Address>)
      requires Ring()
      reads this, queue
      ensures |q| == queueCount
    {
      RingContents(queue[..], queueHead, queueCount)
    }

    ghost function Abs(): State
      requires Ring()
      reads this, queue
    {
      State(config, heap, Contents(), current, verdict, direct, waiters, life, health, popped, drained)
    }

    ghost predicate Valid()
      reads this, queue
    {
      && Ring() && Inv(Abs())
      && (current == None ==> currentCommandId == 0)
      && (current.Some? ==> popped != [] && currentCommandId == popped[|popped| - 1] > 0)
    }

    constructor (config: Config)
      requires config.reserved < config.capacity
      ensures Valid() && fresh(queue) && Abs() == Initial(config)
    {
      this.config := config;
      queue := new Option<Address>[config.capacity](_ => None);
      queueHead, queueCount, currentCommandId := 0, 0, 0;
      heap := Heap(map[], 0, multiset{}, multiset{}, multiset{});
      life := Lifecycle(Absent, false, false, false, false, false, false, false, false);
      health := Health(0, 0, 0, 0, 0, 0, 0, 0, 0, 0, 0);
      current, verdict, direct, waiters, popped, drained := None, Unjudged, [], {}, [], 0;
      new;
      InitialInv(config);
      assert Contents() == [];
    }

    /** queue_push_locked. */
    method QueuePush(request: Address)
      requires Ring() && queueCount < config.capacity
      modifies this`queueCount, this`health, queue
      ensures Ring() && queueHead == old(queueHead)
      ensures Contents() == old(Contents()) + [request]
      ensures health == old(health).(
                maxDepth := if queueCount > old(health).maxDepth then queueCount else old(health).maxDepth)
    {
      PushContents(queue[..], queueHead, queueCount, request);
      SlotIsModulo(queueHead, queueCount, config.capacity);
      var tail := (queueHead + queueCount) % config.capacity;
      queue[tail] := Some(request);
      queueCount := queueCount + 1;
      if queueCount > health.maxDepth {
        health := health.(maxDepth := queueCount);
      }
    }

    /** queue_pop_locked. */
    method QueuePop() returns (request: Option<Address>)
      requires Ring()
      modifies this`queueHead, this`queueCount, queue
      ensures Ring()
      ensures old(Contents()) == [] ==> request == None && Contents() == []
      ensures old(Contents()) != [] ==>
                request == Some(old(Contents())[0]) && Contents() == old(Contents())[1..]
    {
      if queueCount == 0 {
        return None;
      }
      PopContents(queue[..], queueHead, queueCount);
      SlotIsModulo(queueHead, 1, config.capacity);
      request := queue[queueHead];
      queue[queueHead] := None;
      queueHead := (queueHead + 1) % config.capacity;
      queueCount := queueCount - 1;
    }

    /** actor_submit up to the point where a waiting submitter starts to wait. */
    method Submit(command: Command, wait: bool, memoryOk: bool) returns (outcome: Outcome)
      requires Valid()
      modifies this, queue
      ensures Valid()
      ensures (Abs(), outcome) == MediaActorModel.Submit(old(Abs()), command, wait, memoryOk)
    {
      hide Inv, Coalesce, Enqueue, Discard, TailAbsorbs, Held, RingOk, References;
      Facts(Abs());
      SubmitKeepsInv(Abs(), command, wait, memoryOk);
      if !CommandValid(command) {
        return Done(Invalid);
      }
      if !memoryOk {
        return Done(NoMemory);
      }
      if !life.running {
        CountRejection(command, health);
        return Done(NotRunning);
      }
      if life.stopping || !life.accepting {
        CountRejection(command, health.(rejectedStopping := health.rejectedStopping + 1));
        return Done(ShuttingDown);
      }
      if !wait && Replaceable(command.kind) && queueCount > 0 {
        var replaced := TryReplaceTail(command);
        if replaced {
          return Done(Accepted);
        }
      } else {
        NothingToReplace(Abs(), command, wait);
      }
      var normalCapacity := config.capacity - config.reserved;
      if queueCount >= config.capacity
         || (!UsesReservedSlot(command.kind) && queueCount >= normalCapacity) {
        CountRejection(command, health.(rejectedFull := health.rejectedFull + 1));
        return Done(QueueFull);
      }
      var request := EnqueueRequest(command, wait);
      return if wait then Pending(request) else Done(Accepted);
    }

    /** Counts a submission that is turned away and frees the request built for it. */
    method CountRejection(command: Command, counters: Health)
      requires Ring() && heap.next !in heap.blocks
      modifies this`heap, this`health
      ensures Ring() && Abs() == Discard(old(Abs()), command, counters)
    {
      health := counters;
      var request := heap.next;
      heap := Create(heap, command.(id := 0), 0);
      heap := Free(heap, request);
    }

    /** The end of the submit region: number the request and queue it. */
    method EnqueueRequest(command: Command, wait: bool) returns (request: Address)
      requires Ring() && queueCount < config.capacity
      modifies this`heap, this`health, this`queueCount, this`waiters, queue
      ensures Ring() && request == old(heap).next
      ensures Abs() == Enqueue(old(Abs()), command, wait)
    {
      request := heap.next;
      health := health.(lastId := health.lastId + 1, submitted := health.submitted + 1);
      heap := Create(heap, command.(id := health.lastId), if wait then 2 else 1);
      QueuePush(request);
      if wait {
        waiters := waiters + {request};
      }
    }

    /** The coalescing branch of actor_submit. */
    method TryReplaceTail(command: Command) returns (replaced: bool)
      requires Ring() && Held(Abs()) && queueCount > 0 && Replaceable(command.kind)
      modifies this`heap, this`health, queue
      ensures Ring() && replaced == TailAbsorbs(old(Abs()), command)
      ensures Abs() == if replaced then Coalesce(old(Abs()), command) else old(Abs())
    {
      hide RingOk, CompleteRequest, Slot;
      TailSlot(queue[..], queueHead, queueCount);
      var tail := (queueHead + queueCount - 1) % config.capacity;
      var queued := queue[tail].value;
      var block := heap.blocks[queued];
      if block.references != 1 || !CanReplace(block.command, command) {
        return false;
      }
      ReplaceContents(queue[..], queueHead, queueCount, heap.next);
      var request := heap.next;
      health := health.(lastId := health.lastId + 1, submitted := health.submitted + 1,
                        coalesced := health.coalesced + 1);
      heap := Create(heap, command.(id := health.lastId), 1);
      queue[tail] := Some(request);
      heap := CompleteRequest(heap, queued, Accepted);
      return true;
    }

    /** The region in which a waiting submitter leaves actor_submit. */
    method Leave(request: Address) returns (status: Status)
      requires Valid() && request in waiters
      modifies this`heap, this`health, this`waiters
      ensures Valid() && request !in waiters
      ensures (Abs(), status) == MediaActorModel.Leave(old(Abs()), request)
    {
      hide Inv;
      Facts(Abs());
      LeaveKeepsInv(Abs(), request);
      var block := heap.blocks[request];
      if block.completed {
        status := block.status;
      } else {
        health := health.(timedOut := health.timedOut + 1);
        status := Timeout;
      }
      heap := Drop(heap, request);
      waiters := waiters - {request};
    }

    /** The worker's dequeue region; the worker then holds the result. */
    method TakeRequest() returns (request: Option<Address>)
      requires Valid() && Enabled(Abs(), PopStep)
      modifies this, queue
      ensures Valid() && Abs() == Pop(old(Abs())) && request == current
      ensures request == None <==> old(Contents()) == []
    {
      hide Inv, References, RingOk;
      Facts(Abs());
      PopKeepsInv(Abs());
      if queueCount > 0 { PoppedId(Abs()); }
      request := QueuePop();
      if request.Some? {
        currentCommandId := heap.blocks[request.value].command.id;
        current, verdict := request, Unjudged;
        popped := popped + [currentCommandId];
      }
    }

    /** actor_execute_request after validate and execute returned. */
    method FinishRequest(request: Address, valid: bool, ok: bool)
      requires Valid() && current == Some(request) && verdict == (if valid then Fresh else Outdated)
      modifies this
      ensures Valid() && Abs() == Finish(old(Abs()), ok)
    {
      hide Inv, References, RingOk, CompleteRequest;
      Facts(Abs());
      FinishKeepsInv(Abs(), ok);
      var id := heap.blocks[request].command.id;
      if !valid {
        health := health.(rejectedStale := health.rejectedStale + 1);
      } else {
        health := health.(executed := health.executed + 1);
      }
      if valid && !ok {
        health := health.(executionFailed := health.executionFailed + 1);
      }
      health := health.(lastCompleted := id);
      currentCommandId := 0;
      current, verdict := None, Unjudged;
      heap := CompleteRequest(heap, request, if !valid then Stale else if ok then Executed else ExecutionFailed);
    }

    /** actor_reject_pending_locked, with the frees its callers make. */
    method RejectPending()
      requires Ring() && Core(Abs())
      modifies this`queueHead, this`queueCount, this`heap, this`health, this`drained, queue
      ensures Ring() && Core(Abs())
      ensures Abs() == MediaActorModel.RejectPending(old(Abs()))
    {
      hide HeapLedger, Completion, Ordered, Room, Ledger, CompleteRequest, RingOk;
      while queueCount > 0
        invariant Ring() && Core(Abs())
        invariant MediaActorModel.RejectPending(Abs()) == MediaActorModel.RejectPending(old(Abs()))
        decreases queueCount
      {
        ghost var before := Abs();
        RejectOneKeepsCore(before);
        var request := QueuePop();
        health := health.(rejectedStopping := health.rejectedStopping + 1);
        drained := drained + 1;
        heap := CompleteRequest(heap, request.value, ShuttingDown);
        assert Abs() == RejectOne(before);
      }
    }

    /** actor_initialize_worker, once the initialize callback returned. */
    method InitializeWorker(initialized: bool)
      requires Valid() && Enabled(Abs(), InitializeStep(initialized))
      modifies this, queue
      ensures Valid() && Abs() == Initialize(old(Abs()), initialized)
    {
      hide Core;
      InitializeKeepsInv(Abs(), initialized);
      life := life.(ready := initialized, initFailed := !initialized,
                    dispatchEnabled := initialized && life.dispatchRequested,
                    phase := if initialized then Looping else Exited);
      if !initialized {
        life := life.(running := false, accepting := false);
        OtherFieldsKeepCore(old(Abs()), Abs()) by { LedgerOf(old(Abs())); }
        RejectPending();
      }
    }

    /** The first region of actor_finish_worker. */
    method WindDownWorker()
      requires Valid() && Enabled(Abs(), WindDownStep)
      modifies this, queue
      ensures Valid() && Abs() == WindDown(old(Abs()))
    {
      hide Core;
      WindDownKeepsInv(Abs());
      life := life.(phase := Finishing);
      OtherFieldsKeepCore(old(Abs()), Abs()) by { LedgerOf(old(Abs())); }
      RejectPending();
    }

    /** What the validate callback answered for the request in hand. */
    ghost method Judge(valid: bool)
      requires Valid() && Enabled(Abs(), JudgeStep(valid))
      modifies this`verdict
      ensures Valid() && Abs() == Apply(old(Abs()), JudgeStep(valid))
    {
      hide Core;
      DirectStepKeepsInv(Abs(), JudgeStep(valid));
      verdict := if valid then Fresh else Outdated;
    }

    /** The first region of a waiting submit made on the worker thread. None
        means that the command may run. */
    method SubmitDirect(command: Command) returns (refusal: Option<Status>)
      requires Valid() && Enabled(Abs(), DirectBeginStep(command))
      modifies this`health, this`direct
      ensures Valid() && (Abs(), refusal) == DirectBegin(old(Abs()), command)
    {
      hide Core;
      DirectStepKeepsInv(Abs(), DirectBeginStep(command));
      if !CommandValid(command) {
        return Some(Invalid);
      }
      if !life.running {
        return Some(NotRunning);
      }
      if life.stopping || !life.accepting {
        health := health.(rejectedStopping := health.rejectedStopping + 1);
        return Some(ShuttingDown);
      }
      health := health.(lastId := health.lastId + 1, submitted := health.submitted + 1);
      direct := direct + [command.(id := health.lastId)];
      return None;
    }

    /** Its last region; `id` is the number the call was given. */
    method FinishDirect(id: nat, valid: bool, ok: bool) returns (status: Status)
      requires Valid() && direct != [] && id == direct[|direct| - 1].id
      modifies this`health, this`direct
      ensures Valid() && (Abs(), status) == DirectEnd(old(Abs()), valid, ok)
    {
      hide Core;
      DirectStepKeepsInv(Abs(), DirectEndStep(valid, ok));
      health := health.(lastCompleted := id);
      direct := direct[..|direct| - 1];
      if !valid {
        health := health.(rejectedStale := health.rejectedStale + 1);
        return Stale;
      }
      health := health.(executed := health.executed + 1);
      if !ok {
        health := health.(executionFailed := health.executionFailed + 1);
      }
      return if ok then Executed else ExecutionFailed;
    }

    /** The condition media_actor_wait_idle waits for and reports. */
    method IsIdle() returns (idle: bool)
      requires Valid()
      ensures idle == (Abs().queue == [] && Abs().current == None)
    {
      idle := queueCount == 0 && currentCommandId == 0;
    }

    method Start() returns (started: bool)
      requires Valid()
      modifies this`life
      ensures Valid() && Abs() == Apply(old(Abs()), StartStep)
      ensures started == life.running
    {
      hide Core;
      LifecycleStepKeepsInv(Abs(), StartStep);
      if life.running {
        return true;
      }
      if life.phase != Absent || queueCount != 0 {
        return false;
      }
      life := life.(stopping := false, accepting := true, dispatchRequested := !config.startSuspended,
                    running := true, ready := !config.hasInitialize, initFailed := false,
                    dispatchEnabled := !config.hasInitialize && !config.startSuspended, phase := Starting);
      return true;
    }

    method Activate() returns (active: bool)
      requires Valid()
      modifies this`life
      ensures Valid() && Abs() == Apply(old(Abs()), ActivateStep)
      ensures active <==> old(life.running && !life.stopping && !life.initFailed)
      ensures active ==> life.dispatchRequested && life.dispatchEnabled == life.ready
    {
      hide Core;
      LifecycleStepKeepsInv(Abs(), ActivateStep);
      active := life.running && !life.stopping && !life.initFailed;
      if active {
        life := life.(dispatchRequested := true, dispatchEnabled := life.ready);
      }
    }

    method Quiesce()
      requires Valid()
      modifies this`life
      ensures Valid() && Abs() == Apply(old(Abs()), QuiesceStep)
    {
      hide Core;
      LifecycleStepKeepsInv(Abs(), QuiesceStep);
      life := life.(accepting := false);
    }

    /** media_actor_stop up to the join; `joins` says whether there is a thread
        to wait for. On the worker thread itself nothing is joined. */
    method Stop(onWorker: bool) returns (joins: bool)
      requires Valid() && Enabled(Abs(), if onWorker then StopOnWorkerStep else StopStep)
      modifies this`life
      ensures Valid() && Abs() == Apply(old(Abs()), if onWorker then StopOnWorkerStep else StopStep)
      ensures joins ==> life.joining && life.stopping
    {
      hide Core;
      LifecycleStepKeepsInv(Abs(), if onWorker then StopOnWorkerStep else StopStep);
      if onWorker {
        life := life.(stopping := true, accepting := false);
        return false;
      }
      if life.phase == Absent {
        return false;
      }
      life := life.(joining := true, stopping := true, accepting := false);
      return true;
    }

    /** The last region of actor_finish_worker. */
    method ExitWorker()
      requires Valid() && Enabled(Abs(), ExitStep)
      modifies this`life
      ensures Valid() && Abs() == Apply(old(Abs()), ExitStep)
    {
      hide Core;
      LifecycleStepKeepsInv(Abs(), ExitStep);
      life := life.(running := false, accepting := false, dispatchRequested := false,
                    ready := false, dispatchEnabled := false, phase := Exited);
    }

    /** The last region of media_actor_stop. */
    method Join()
      requires Valid() && Enabled(Abs(), JoinStep)
      modifies this`life
      ensures Valid() && Abs() == Apply(old(Abs()), JoinStep)
    {
      hide Core;
      LifecycleStepKeepsInv(Abs(), JoinStep);
      life := life.(phase := Absent, joining := false, running := false);
    }
  }

  lemma Facts(s: State)
    requires Inv(s)
    ensures References(s) && Held(s) && s.heap.next !in s.heap.blocks
  {
    assert Counted(s, s.heap.next);
  }

  lemma LedgerOf(s: State)
    requires Inv(s)
    ensures Core(s) && Ledger(s) && HeapLedger(s.heap)
  {}

  lemma NothingToReplace(s: State, c: Command, wait: bool)
    requires Held(s) && (wait || !Replaceable(c.kind) || s.queue == [])
    ensures wait || !TailAbsorbs(s, c)
  {}

  lemma PoppedId(s: State)
    requires Inv(s) && s.queue != []
    ensures s.heap.blocks[s.queue[0]].command.id > 0
  {
    assert Order(s)[|s.popped|] == s.heap.blocks[s.queue[0]].command.id;
  }
}
