/** The media actor (source/player/core/media_actor.c) as a state machine.

    One step is one mutex-protected region, or one callback outcome between two
    regions. Steps of submitters, waiters, the worker and the thread that stops
    the actor may come in any order their own control flow allows. Heap blocks
    are named by addresses that are never handed out twice; freeing a block
    removes it from `blocks`, so reading a freed block is a lookup outside the
    map's domain. */
module MediaActorModel {
  import opened Options

  type Address = nat

  // NoKind stands for every number outside the enumeration.
  datatype Kind =
    | NoKind | Open | Play | Pause | Stop | StopAny | SeekTarget | SeekMs
    | SetVolume | SetMute | ShowOsd | BindStream | ReleaseLease | Quiesce | Shutdown

  datatype Producer = Unknown | App | Ui | Dlna | Iptv | AirPlayVideo | AirPlayMirror | Test

  // `handle` is the opaque pointer (0 is NULL); the flags say which hooks are set.
  datatype Command = Command(
    id: nat, kind: Kind, producer: Producer, token: nat, generation: nat,
    text: string, metadata: string, value: int, flag: bool,
    handle: nat, hasRetain: bool, hasRelease: bool)

  datatype Status =
    | Accepted | Executed | ExecutionFailed | Invalid | NotRunning
    | QueueFull | NoMemory | Timeout | ShuttingDown | Stale

  datatype Request = Request(
    command: Command, completed: bool, status: Status, references: nat, retained: bool)

  /** The C heap. The multisets count the calls made for each block so far. */
  datatype Heap = Heap(
    blocks: map<Address, Request>, next: Address,
    frees: multiset<Address>, retains: multiset<Address>, releases: multiset<Address>)

  datatype Health = Health(
    submitted: nat, executed: nat, executionFailed: nat, rejectedFull: nat,
    rejectedStopping: nat, rejectedStale: nat, coalesced: nat, timedOut: nat,
    lastId: nat, lastCompleted: nat, maxDepth: nat)

  // Where the worker thread is. Absent: no thread. Exited: returned, not joined.
  datatype Phase = Absent | Starting | Looping | Finishing | Exited

  datatype Lifecycle = Lifecycle(
    phase: Phase, joining: bool, running: bool, stopping: bool, accepting: bool,
    dispatchRequested: bool, dispatchEnabled: bool, ready: bool, initFailed: bool)

  datatype Config = Config(capacity: nat, reserved: nat, hasInitialize: bool, startSuspended: bool)

  datatype Verdict = Unjudged | Fresh | Outdated

  /** `popped` lists the ids dequeued for execution, `drained` counts requests
      rejected out of the queue; both only serve to state properties of runs. */
  datatype State = State(
    config: Config, heap: Heap,
    queue: seq<Address>, current: Option<Address>, verdict: Verdict,
    direct: seq<Command>, waiters: set<Address>,
    life: Lifecycle, health: Health,
    popped: seq<nat>, drained: nat)

  datatype Outcome = Done(status: Status) | Pending(address: Address)

  // ---------------------------------------------------------------- commands

  predicate CommandValid(c: Command) {
    c.kind != NoKind && c.hasRetain == c.hasRelease
  }

  predicate UsesReservedSlot(kind: Kind) {
    kind == StopAny || kind == ReleaseLease || kind == Quiesce || kind == Shutdown
  }

  predicate Replaceable(kind: Kind) {
    kind == SeekMs || kind == SetVolume || kind == SetMute
  }

  predicate CanReplace(queued: Command, replacement: Command) {
    queued.kind == replacement.kind && queued.producer == replacement.producer &&
    queued.token == replacement.token && queued.generation == replacement.generation
  }

  // ----------------------------------------------------------------- the heap

  /** request_create, and the two fields set when the request is queued. */
  function Create(h: Heap, c: Command, references: nat): Heap {
    var r := Request(c, false, Accepted, references, c.handle != 0 && c.hasRetain);
    Heap(h.blocks[h.next := r], h.next + 1, h.frees,
         if r.retained then h.retains + multiset{h.next} else h.retains, h.releases)
  }

  /** request_free. */
  function Free(h: Heap, p: Address): Heap
    requires p in h.blocks
  {
    var r := h.blocks[p];
    Heap(h.blocks - {p}, h.next, h.frees + multiset{p}, h.retains,
         if r.retained && r.command.hasRelease then h.releases + multiset{p} else h.releases)
  }

  /** Gives up one reference; the block goes when the last one does. */
  function Drop(h: Heap, p: Address): Heap
    requires p in h.blocks
  {
    var r := h.blocks[p];
    if r.references <= 1 then Free(h, p)
    else h.(blocks := h.blocks[p := r.(references := r.references - 1)])
  }

  /** request_complete_locked, together with the free its caller makes when
      this was the last reference. */
  function CompleteRequest(h: Heap, p: Address, status: Status): Heap
    requires p in h.blocks
  {
    Drop(h.(blocks := h.blocks[p := h.blocks[p].(completed := true, status := status)]), p)
  }

  // --------------------------------------------------------------- references

  /** Every address a thread may follow is that of an allocated block. */
  predicate Held(s: State) {
    && (forall p :: p in s.queue ==> p in s.heap.blocks)
    && (s.current.Some? ==> s.current.value in s.heap.blocks)
    && (forall p :: p in s.waiters ==> p in s.heap.blocks)
  }

  predicate Distinct(q: seq<Address>) {
    forall i, j :: 0 <= i < j < |q| ==> q[i] != q[j]
  }

  predicate InUse(s: State, p: Address) {
    p in s.queue || s.current == Some(p)
  }

  /** Who still needs a block: the queue or the worker, and its waiting submitter. */
  function Expected(s: State, p: Address): nat {
    (if InUse(s, p) then 1 else 0) + (if p in s.waiters then 1 else 0)
  }

  ghost predicate Counted(s: State, p: Address) {
    p in s.heap.blocks ==> p < s.heap.next && s.heap.blocks[p].references == Expected(s, p) > 0
  }

  /** The reference counts are exact, and no allocated block is unreferenced. */
  ghost predicate References(s: State) {
    && Held(s)
    && Distinct(s.queue)
    && (s.current.Some? ==> s.current.value !in s.queue)
    && (forall p: Address :: Counted(s, p))
  }

  // ------------------------------------------------------------------- regions

  predicate TailAbsorbs(s: State, c: Command)
    requires Held(s)
  {
    && Replaceable(c.kind) && s.queue != []
    && var tail := s.heap.blocks[s.queue[|s.queue| - 1]];
       tail.references == 1 && CanReplace(tail.command, c)
  }

  predicate NoRoom(s: State, kind: Kind) {
    || |s.queue| >= s.config.capacity
    || (!UsesReservedSlot(kind) && |s.queue| >= s.config.capacity - s.config.reserved)
  }

  /** actor_submit from a thread other than the worker, or without waiting, up
      to the point where the lock is given up after queueing. */
  function Submit(s: State, c: Command, wait: bool, memoryOk: bool): (State, Outcome)
    requires Held(s)
  {
    if !CommandValid(c) then (s, Done(Invalid))
    else if !memoryOk then (s, Done(NoMemory))
    else if !s.life.running then (Discard(s, c, s.health), Done(NotRunning))
    else if s.life.stopping || !s.life.accepting then
      (Discard(s, c, s.health.(rejectedStopping := s.health.rejectedStopping + 1)), Done(ShuttingDown))
    else if !wait && TailAbsorbs(s, c) then (Coalesce(s, c), Done(Accepted))
    else if NoRoom(s, c.kind) then
      (Discard(s, c, s.health.(rejectedFull := s.health.rejectedFull + 1)), Done(QueueFull))
    else (Enqueue(s, c, wait), if wait then Pending(s.heap.next) else Done(Accepted))
  }

  /** A request built before the lock was taken and freed without being queued. */
  function Discard(s: State, c: Command, health: Health): State {
    s.(heap := Free(Create(s.heap, c.(id := 0), 0), s.heap.next), health := health)
  }

  /** The new request takes the tail's place; the old tail completes. */
  function Coalesce(s: State, c: Command): State
    requires Held(s) && TailAbsorbs(s, c)
  {
    var id := s.health.lastId + 1;
    s.(heap := CompleteRequest(Create(s.heap, c.(id := id), 1), s.queue[|s.queue| - 1], Accepted),
       queue := s.queue[|s.queue| - 1 := s.heap.next],
       health := s.health.(lastId := id, submitted := s.health.submitted + 1,
                           coalesced := s.health.coalesced + 1))
  }

  function Enqueue(s: State, c: Command, wait: bool): State {
    var id := s.health.lastId + 1;
    s.(heap := Create(s.heap, c.(id := id), if wait then 2 else 1),
       queue := s.queue + [s.heap.next],
       waiters := if wait then s.waiters + {s.heap.next} else s.waiters,
       health := s.health.(
         lastId := id, submitted := s.health.submitted + 1,
         maxDepth := if |s.queue| + 1 > s.health.maxDepth then |s.queue| + 1 else s.health.maxDepth))
  }

  /** The region in which a waiting submitter leaves: its request completed, or
      its deadline passed first. */
  function Leave(s: State, p: Address): (State, Status)
    requires p in s.heap.blocks
  {
    var r := s.heap.blocks[p];
    (s.(heap := Drop(s.heap, p), waiters := s.waiters - {p},
        health := if r.completed then s.health else s.health.(timedOut := s.health.timedOut + 1)),
     if r.completed then r.status else Timeout)
  }

  function CountOutcome(h: Health, id: nat, valid: bool, ok: bool): Health {
    var g := h.(lastCompleted := id);
    if !valid then g.(rejectedStale := h.rejectedStale + 1)
    else g.(executed := h.executed + 1, executionFailed := h.executionFailed + (if ok then 0 else 1))
  }

  function OutcomeStatus(valid: bool, ok: bool): Status {
    if !valid then Stale else if ok then Executed else ExecutionFailed
  }

  /** The re-entrant path: a waiting submit made on the worker thread. */
  function DirectBegin(s: State, c: Command): (State, Option<Status>) {
    if !CommandValid(c) then (s, Some(Invalid))
    else if !s.life.running then (s, Some(NotRunning))
    else if s.life.stopping || !s.life.accepting then
      (s.(health := s.health.(rejectedStopping := s.health.rejectedStopping + 1)), Some(ShuttingDown))
    else
      var id := s.health.lastId + 1;
      (s.(direct := s.direct + [c.(id := id)],
          health := s.health.(lastId := id, submitted := s.health.submitted + 1)), None)
  }

  function DirectEnd(s: State, valid: bool, ok: bool): (State, Status)
    requires s.direct != []
  {
    var top := |s.direct| - 1;
    (s.(direct := s.direct[..top], health := CountOutcome(s.health, s.direct[top].id, valid, ok)),
     OutcomeStatus(valid, ok))
  }

  /** The worker dequeues; nothing happens on an empty queue. */
  function Pop(s: State): State
    requires Held(s)
  {
    if s.queue == [] then s
    else s.(queue := s.queue[1..], current := Some(s.queue[0]), verdict := Unjudged,
            popped := s.popped + [s.heap.blocks[s.queue[0]].command.id])
  }

  /** The region of actor_execute_request that reports the outcome. */
  function Finish(s: State, ok: bool): State
    requires Held(s) && s.current.Some?
  {
    var p := s.current.value;
    var valid := s.verdict == Fresh;
    s.(heap := CompleteRequest(s.heap, p, OutcomeStatus(valid, ok)),
       current := None, verdict := Unjudged,
       health := CountOutcome(s.health, s.heap.blocks[p].command.id, valid, ok))
  }

  /** One turn of actor_reject_pending_locked. */
  function RejectOne(s: State): State
    requires Held(s) && s.queue != []
  {
    s.(heap := CompleteRequest(s.heap, s.queue[0], ShuttingDown),
       queue := s.queue[1..],
       health := s.health.(rejectedStopping := s.health.rejectedStopping + 1),
       drained := s.drained + 1)
  }

  /** actor_reject_pending_locked: when the worker fails to initialise, and when
      it winds down. */
  ghost function RejectPending(s: State): State
    requires References(s)
    decreases |s.queue|
  {
    if s.queue == [] then s
    else
      RejectOneKeepsReferences(s);
      RejectPending(RejectOne(s))
  }

  lemma RejectOneKeepsReferences(s: State)
    requires References(s) && s.queue != []
    ensures References(RejectOne(s))
  {
    TailIsDistinct(s.queue);
    var p, t := s.queue[0], RejectOne(s);
    assert Counted(s, p);
    forall q: Address ensures Counted(t, q) {
      assert Counted(s, q);
      assert q != p ==> InUse(t, q) == InUse(s, q);
    }
    assert forall q :: q in s.waiters ==> Counted(s, q);
  }

  lemma OtherFieldsKeepReferences(s: State, t: State)
    requires References(s)
    requires t.heap == s.heap && t.queue == s.queue && t.current == s.current && t.waiters == s.waiters
    ensures References(t)
  {
    forall p: Address ensures Counted(t, p) {
      assert Counted(s, p);
    }
  }

  lemma TailIsDistinct(q: seq<Address>)
    requires q != [] && Distinct(q)
    ensures Distinct(q[1..]) && q[0] !in q[1..]
    ensures forall p :: p in q <==> p == q[0] || p in q[1..]
  {
    assert q == [q[0]] + q[1..];
  }

  // --------------------------------------------------------------------- steps

  datatype Step =
    | SubmitStep(command: Command, wait: bool, memoryOk: bool)
    | LeaveStep(address: Address)
    | DirectBeginStep(command: Command)
    | DirectEndStep(valid: bool, ok: bool)
    | InitializeStep(ok: bool)
    | PopStep
    | JudgeStep(valid: bool)
    | FinishStep(ok: bool)
    | WindDownStep
    | ExitStep
    | ActivateStep
    | QuiesceStep
    | StopStep
    | StopOnWorkerStep
    | JoinStep
    | StartStep

  predicate WorkerAlive(phase: Phase) {
    phase == Starting || phase == Looping || phase == Finishing
  }

  /** Control flow of the thread that takes the step. A waiter may leave at any
      time: whether its deadline has passed is the environment's choice. */
  predicate Enabled(s: State, step: Step) {
    match step
    case SubmitStep(_, _, _) => true
    case LeaveStep(p) => p in s.waiters
    case DirectBeginStep(_) => WorkerAlive(s.life.phase)
    case DirectEndStep(_, _) => s.direct != []
    case InitializeStep(ok) => s.life.phase == Starting && s.direct == [] && (s.config.hasInitialize || ok)
    case PopStep => s.life.phase == Looping && s.direct == [] && s.current == None
                    && !s.life.stopping && s.life.dispatchEnabled
    case JudgeStep(_) => s.current.Some? && s.verdict == Unjudged && s.direct == []
    case FinishStep(_) => s.current.Some? && s.verdict != Unjudged && s.direct == []
    case WindDownStep => s.life.phase == Looping && s.direct == [] && s.current == None && s.life.stopping
    case ExitStep => s.life.phase == Finishing && s.direct == []
    case ActivateStep => true
    case QuiesceStep => true
    case StopStep => !s.life.joining
    case StopOnWorkerStep => WorkerAlive(s.life.phase)
    case JoinStep => s.life.joining && s.life.phase == Exited
    case StartStep => true
  }

  ghost function Apply(s: State, step: Step): State
    requires References(s) && Enabled(s, step)
  {
    match step
    case SubmitStep(c, wait, memoryOk) => Submit(s, c, wait, memoryOk).0
    case LeaveStep(p) => Leave(s, p).0
    case DirectBeginStep(c) => DirectBegin(s, c).0
    case DirectEndStep(valid, ok) => DirectEnd(s, valid, ok).0
    case InitializeStep(ok) => Initialize(s, ok)
    case PopStep => Pop(s)
    case JudgeStep(valid) => s.(verdict := if valid then Fresh else Outdated)
    case FinishStep(ok) => Finish(s, ok)
    case WindDownStep => WindDown(s)
    case ExitStep => s.(life := Exit(s.life))
    case ActivateStep => s.(life := Activate(s.life))
    case QuiesceStep => s.(life := s.life.(accepting := false))
    case StopStep => s.(life := RequestStop(s.life))
    case StopOnWorkerStep => s.(life := s.life.(stopping := true, accepting := false))
    case JoinStep => s.(life := s.life.(phase := Absent, joining := false, running := false))
    case StartStep => if s.queue == [] then s.(life := Start(s.life, s.config)) else s
  }

  ghost function Initialize(s: State, ok: bool): State
    requires References(s)
  {
    if ok then
      s.(life := s.life.(phase := Looping, ready := true, initFailed := false,
                         dispatchEnabled := s.life.dispatchRequested))
    else
      var t := s.(life := s.life.(phase := Exited, ready := false, initFailed := true,
                                  dispatchEnabled := false, running := false, accepting := false));
      OtherFieldsKeepReferences(s, t);
      RejectPending(t)
  }

  ghost function WindDown(s: State): State
    requires References(s)
  {
    var t := s.(life := s.life.(phase := Finishing));
    OtherFieldsKeepReferences(s, t);
    RejectPending(t)
  }

  function Exit(l: Lifecycle): Lifecycle {
    l.(phase := Exited, running := false, accepting := false, dispatchRequested := false,
       ready := false, dispatchEnabled := false)
  }

  function Activate(l: Lifecycle): Lifecycle {
    if l.running && !l.stopping && !l.initFailed
    then l.(dispatchRequested := true, dispatchEnabled := l.ready)
    else l
  }

  function RequestStop(l: Lifecycle): Lifecycle {
    if l.phase == Absent then l else l.(joining := true, stopping := true, accepting := false)
  }

  function Start(l: Lifecycle, c: Config): Lifecycle {
    if l.running || l.phase != Absent then l
    else
      l.(stopping := false, accepting := true, dispatchRequested := !c.startSuspended,
         running := true, ready := !c.hasInitialize, initFailed := false,
         dispatchEnabled := !c.hasInitialize && !c.startSuspended, phase := Starting)
  }

  /** media_actor_create. */
  function Initial(config: Config): State {
    State(config, Heap(map[], 0, multiset{}, multiset{}, multiset{}),
          [], None, Unjudged, [], {},
          Lifecycle(Absent, false, false, false, false, false, false, false, false),
          Health(0, 0, 0, 0, 0, 0, 0, 0, 0, 0, 0), [], 0)
  }
}
