/** How a player command carries its lease (source/player/core/session.c): from
    the public request to the actor's queue, and from the queue to the check the
    worker makes before it executes. */
module LeaseValidation {
  import opened Options
  import opened MediaActorModel
  import opened MediaActorInvariant
  import A = MediaActorModel
  import Runs = MediaActorRuns
  import O = Ownership

  // AnyKind and AnySource stand for numbers outside the enumerations.
  datatype PlayerKind =
    | AnyKind | OpenMedia | PlayMedia | PauseMedia | StopMedia | StopAnyMedia | SeekTo
    | SeekToMs | Volume | Mute | Osd | Release

  datatype Source =
    | AnySource | AppSource | UiSource | DlnaSource | IptvSource | VideoSource | MirrorSource

  // NULL strings are None.
  datatype PlayerRequest = PlayerRequest(
    kind: PlayerKind, source: Source, lease: O.Lease,
    uri: Option<string>, metadata: Option<string>, text: Option<string>, value: int, flag: bool)

  function ActorKind(kind: PlayerKind): Kind {
    match kind
    case AnyKind => NoKind
    case OpenMedia => Open
    case PlayMedia => Play
    case PauseMedia => Pause
    case StopMedia => Stop
    case StopAnyMedia => StopAny
    case SeekTo => SeekTarget
    case SeekToMs => SeekMs
    case Volume => SetVolume
    case Mute => SetMute
    case Osd => ShowOsd
    case Release => ReleaseLease
  }

  function ActorProducer(source: Source): Producer {
    match source
    case AnySource => Unknown
    case AppSource => App
    case UiSource => Ui
    case DlnaSource => Dlna
    case IptvSource => Iptv
    case VideoSource => AirPlayVideo
    case MirrorSource => AirPlayMirror
  }

  function SourceOwner(source: Source): O.Owner {
    match source
    case DlnaSource => O.Dlna
    case IptvSource => O.Iptv
    case VideoSource => O.AirPlayVideo
    case MirrorSource => O.AirPlayMirror
    case _ => O.NoOwner
  }

  /** player_owner_from_actor_producer. */
  function OwnerFromProducer(producer: Producer): O.Owner {
    match producer
    case Dlna => O.Dlna
    case Iptv => O.Iptv
    case AirPlayVideo => O.AirPlayVideo
    case AirPlayMirror => O.AirPlayMirror
    case _ => O.NoOwner
  }

  /** player_command_request_valid. */
  predicate RequestValid(r: PlayerRequest) {
    if ActorKind(r.kind) == NoKind || ActorProducer(r.source) == Unknown then false
    else if r.kind == OpenMedia && (r.uri == None || r.uri == Some("")) then false
    else if (r.kind == SeekTo || r.kind == Osd) && r.text == None then false
    else if SourceOwner(r.source) == O.NoOwner then
      r.kind != StopMedia || r.source == AppSource || r.source == UiSource
    else if r.kind == StopAnyMedia then false
    else r.lease.owner == SourceOwner(r.source) && r.lease.generation != 0
  }

  function OrEmpty(s: Option<string>): string {
    if s.Some? then s.value else ""
  }

  function ToCommand(r: PlayerRequest): Command {
    Command(0, ActorKind(r.kind), ActorProducer(r.source), r.lease.token, r.lease.generation,
            OrEmpty(if r.kind == OpenMedia then r.uri else r.text), OrEmpty(r.metadata),
            r.value, r.flag, 0, false, false)
  }

  /** player_validate_actor_command. */
  predicate Allowed(r: O.Registry, c: Command) {
    var owner := OwnerFromProducer(c.producer);
    owner == O.NoOwner || O.Validates(r, O.Lease(owner, c.token, c.generation))
  }

  datatype Submission = Refused(status: Status) | Submitted(outcome: Outcome)

  /** player_submit_command, with the actor's state after it. */
  function PlayerSubmit(r: O.Registry, initialized: bool, s: State, request: PlayerRequest,
                        wait: bool, memoryOk: bool): (State, Submission)
    requires Held(s)
  {
    if !RequestValid(request) then (s, Refused(Invalid))
    else if SourceOwner(request.source) != O.NoOwner && !O.Validates(r, request.lease) then (s, Refused(Stale))
    else if !initialized then (s, Refused(NotRunning))
    else
      var (t, outcome) := Submit(s, ToCommand(request), wait, memoryOk);
      (t, Submitted(outcome))
  }

  /** Seen through the actor's producer a source keeps its owner, so a protocol's
      command is checked against exactly the lease in its request, now or at any
      later registry state, and a command of the application is never stale. */
  lemma CommandCarriesItsLease(request: PlayerRequest, r: O.Registry)
    requires RequestValid(request)
    ensures OwnerFromProducer(ActorProducer(request.source)) == SourceOwner(request.source)
    ensures SourceOwner(request.source) != O.NoOwner ==>
      (Allowed(r, ToCommand(request)) <==> O.Validates(r, request.lease))
    ensures SourceOwner(request.source) == O.NoOwner ==> Allowed(r, ToCommand(request))
    ensures CommandValid(ToCommand(request))
    ensures ToCommand(request).kind == StopAny ==> OwnerFromProducer(ToCommand(request).producer) == O.NoOwner
    ensures request.source == AppSource <==> ToCommand(request).producer == App
    ensures request.source == UiSource <==> ToCommand(request).producer == Ui
  {}

  predicate TakenIn(outcome: Outcome) {
    outcome.Pending? || outcome.status == Accepted
  }

  /** A command that was taken in stands last in the queue, even if coalesced. */
  ghost predicate StandsLast(s: State, t: State, c: Command) {
    && t.queue != [] && t.queue[|t.queue| - 1] == s.heap.next && s.heap.next in t.heap.blocks
    && t.heap.blocks[s.heap.next].command == c.(id := s.health.lastId + 1)
  }

  lemma SubmittedStandsLast(s: State, c: Command, wait: bool, memoryOk: bool)
    requires References(s)
    ensures var (t, outcome) := Submit(s, c, wait, memoryOk);
      TakenIn(outcome) ==> StandsLast(s, t, c)
  {
    hide Expected, InUse, Distinct, CompleteRequest;
    assert Counted(s, s.heap.next);
    if s.queue != [] {
      assert Counted(s, s.queue[|s.queue| - 1]);
      var h := Create(s.heap, c.(id := s.health.lastId + 1), 1);
      CompleteChanges(h, s.queue[|s.queue| - 1], Accepted);
    }
  }

  /** What the actor takes in was allowed when it was submitted, and is queued
      last under its own producer and lease. */
  lemma AcceptedStandsLast(r: O.Registry, initialized: bool, s: State, request: PlayerRequest,
                           wait: bool, memoryOk: bool)
    requires References(s)
    ensures var (t, submission) := PlayerSubmit(r, initialized, s, request, wait, memoryOk);
      submission.Submitted? && TakenIn(submission.outcome) ==>
        StandsLast(s, t, ToCommand(request)) && Allowed(r, ToCommand(request))
  {
    hide References, Submit, StandsLast, Allowed, ToCommand;
    if RequestValid(request) { CommandCarriesItsLease(request, r); }
    SubmittedStandsLast(s, ToCommand(request), wait, memoryOk);
  }

  // ------------------------------------------------ the actor and the registry

  /** The worker's checks read the registry; everything else of the two components
      mixes freely. `verdicts` is what the check has answered for each re-entrant
      call on the worker's stack. */
  datatype System = System(actor: State, registry: O.Registry, verdicts: seq<Option<bool>>)

  datatype SystemStep = ActorStep(actorStep: A.Step) | OwnershipStep(ownershipStep: O.Step) | JudgeDirectStep

  ghost predicate Enabled(s: System, step: SystemStep) {
    match step
    case ActorStep(a) =>
      && References(s.actor) && A.Enabled(s.actor, a)
      && (a.JudgeStep? ==> a.valid == Allowed(s.registry, s.actor.heap.blocks[s.actor.current.value].command))
      && (a.DirectEndStep? ==> s.verdicts != [] && s.verdicts[|s.verdicts| - 1] == Some(a.valid))
    case OwnershipStep(_) => true
    case JudgeDirectStep =>
      s.actor.direct != [] && |s.verdicts| == |s.actor.direct| && s.verdicts[|s.verdicts| - 1] == None
  }

  /** A new call has not been judged; a call that ends takes its verdict along. */
  function Stacked(verdicts: seq<Option<bool>>, depth: nat): seq<Option<bool>> {
    if depth > |verdicts| then verdicts + [None] else verdicts[..depth]
  }

  ghost function Apply(s: System, step: SystemStep): System
    requires Enabled(s, step)
  {
    match step
    case ActorStep(a) =>
      var t := A.Apply(s.actor, a);
      s.(actor := t, verdicts := Stacked(s.verdicts, |t.direct|))
    case OwnershipStep(o) => s.(registry := O.Apply(s.registry, o))
    case JudgeDirectStep =>
      var top := |s.verdicts| - 1;
      s.(verdicts := s.verdicts[top := Some(Allowed(s.registry, s.actor.direct[top]))])
  }

  ghost predicate Reaches(s: System, steps: seq<SystemStep>, t: System)
    decreases |steps|
  {
    if steps == [] then s == t
    else Enabled(s, steps[0]) && Reaches(Apply(s, steps[0]), steps[1..], t)
  }

  ghost predicate Reachable(s: System) {
    exists config: Config, steps: seq<SystemStep> ::
      config.reserved < config.capacity && Reaches(System(Initial(config), O.EMPTY, []), steps, s)
  }

  ghost predicate SystemInv(s: System) {
    && Inv(s.actor) && O.Inv(s.registry)
    && |s.verdicts| == |s.actor.direct| && NumberedBefore(s.actor.direct, s.actor.health.lastId)
  }

  ghost predicate NumberedBefore(direct: seq<Command>, lastId: nat) {
    forall k :: 0 <= k < |direct| ==> direct[k].id <= lastId
  }

  /** The stack of re-entrant calls grows by a newly numbered call, or shrinks. */
  lemma DirectMoves(s: State, a: A.Step)
    requires Inv(s) && A.Enabled(s, a)
    ensures var t := A.Apply(s, a);
      && t.health.lastId >= s.health.lastId
      && (|| t.direct == s.direct
          || (a.DirectBeginStep? && t.direct == s.direct + [a.command.(id := s.health.lastId + 1)]
              && t.health.lastId == s.health.lastId + 1)
          || (a.DirectEndStep? && s.direct != [] && t.direct == s.direct[..|s.direct| - 1]))
  {
    hide HeapLedger, Completion, Ordered, Room, Ledger;
    match a
    case SubmitStep(c, wait, memoryOk) => SubmitKeepsStack(s, c, wait, memoryOk);
    case InitializeStep(ok) => if !ok { RejectingKeepsStack(s, a); }
    case WindDownStep => RejectingKeepsStack(s, a);
    case _ =>
  }

  lemma SubmitKeepsStack(s: State, c: Command, wait: bool, memoryOk: bool)
    requires References(s)
    ensures var t := Submit(s, c, wait, memoryOk).0; t.direct == s.direct && t.health.lastId >= s.health.lastId
  {
    hide References, Create, CompleteRequest;
  }

  lemma RejectingKeepsStack(s: State, a: A.Step)
    requires Inv(s) && A.Enabled(s, a) && (a == InitializeStep(false) || a == WindDownStep)
    ensures var t := A.Apply(s, a); t.direct == s.direct && t.health.lastId == s.health.lastId
  {
    var life := if a == WindDownStep then s.life.(phase := Finishing)
                else s.life.(phase := Exited, ready := false, initFailed := true,
                             dispatchEnabled := false, running := false, accepting := false);
    OtherFieldsKeepCore(s, s.(life := life));
    RejectPendingDrains(s.(life := life));
  }

  lemma StepKeepsSystemInv(s: System, step: SystemStep)
    requires SystemInv(s) && Enabled(s, step)
    ensures SystemInv(Apply(s, step)) && s.registry.log <= Apply(s, step).registry.log
  {
    match step
    case ActorStep(a) =>
      StepKeepsInv(s.actor, a);
      DirectMoves(s.actor, a);
      hide Inv, O.Inv, A.Apply, A.Enabled;
    case OwnershipStep(o) => O.StepKeepsInv(s.registry, o);
    case JudgeDirectStep =>
  }

  lemma {:induction false} RunKeepsSystemInv(s: System, steps: seq<SystemStep>, t: System)
    requires SystemInv(s) && Reaches(s, steps, t)
    ensures SystemInv(t) && s.registry.log <= t.registry.log
    decreases |steps|
  {
    if steps != [] {
      StepKeepsSystemInv(s, steps[0]);
      RunKeepsSystemInv(Apply(s, steps[0]), steps[1..], t);
    }
  }

  lemma ReachableSystemInv(s: System)
    requires Reachable(s)
    ensures SystemInv(s)
  {
    var config: Config, steps: seq<SystemStep> :|
      config.reserved < config.capacity && Reaches(System(Initial(config), O.EMPTY, []), steps, s);
    InitialInv(config);
    RunKeepsSystemInv(System(Initial(config), O.EMPTY, []), steps, s);
  }

  // --------------------------------------------------------- retired leases

  predicate Carries(c: Command, lease: O.Lease) {
    OwnerFromProducer(c.producer) == lease.owner && c.token == lease.token && c.generation == lease.generation
  }

  /** The worker's command, if dequeued after the first n and under this lease,
      was not found fresh. */
  ghost predicate NotFresh(s: State, lease: O.Lease, n: nat)
    requires Held(s)
  {
    s.current.Some? && |s.popped| > n && Carries(s.heap.blocks[s.current.value].command, lease) ==>
      s.verdict != Fresh
  }

  /** Steps that leave the worker with the command, verdict and history it has. */
  predicate LeavesWorker(step: A.Step) {
    !step.PopStep? && !step.JudgeStep? && !step.FinishStep?
  }

  ghost predicate SameWork(s: State, t: State)
    requires Held(s) && Held(t)
  {
    && t.current == s.current && t.verdict == s.verdict && t.popped == s.popped
    && (s.current.Some? ==> t.heap.blocks[s.current.value].command == s.heap.blocks[s.current.value].command)
  }

  lemma SubmitKeepsWork(s: State, c: Command, wait: bool, memoryOk: bool)
    requires References(s)
    ensures var t := Submit(s, c, wait, memoryOk).0;
      Held(t) ==> SameWork(s, t)
  {
    hide Expected, InUse, Distinct, CompleteRequest;
    assert Counted(s, s.heap.next);
    if CommandValid(c) && TailAbsorbs(s, c) {
      CompleteChanges(Create(s.heap, c.(id := s.health.lastId + 1), 1), s.queue[|s.queue| - 1], Accepted);
    }
  }

  lemma OtherStepsKeepWork(s: State, step: A.Step)
    requires Inv(s) && A.Enabled(s, step) && LeavesWorker(step)
    ensures Held(A.Apply(s, step)) && SameWork(s, A.Apply(s, step))
  {
    hide HeapLedger, Completion, Ordered, Room, Ledger;
    StepKeepsInv(s, step);
    match step
    case SubmitStep(c, wait, memoryOk) => SubmitKeepsWork(s, c, wait, memoryOk);
    case LeaveStep(p) => DropChanges(s.heap, p);
    case InitializeStep(ok) => if !ok { RejectingKeepsWork(s, step); }
    case WindDownStep => RejectingKeepsWork(s, step);
    case _ =>
  }

  lemma RejectingKeepsWork(s: State, step: A.Step)
    requires Inv(s) && A.Enabled(s, step) && (step == InitializeStep(false) || step == WindDownStep)
    ensures Held(A.Apply(s, step)) && SameWork(s, A.Apply(s, step))
  {
    StepKeepsInv(s, step);
    var life := if step == WindDownStep then s.life.(phase := Finishing)
                else s.life.(phase := Exited, ready := false, initFailed := true,
                             dispatchEnabled := false, running := false, accepting := false);
    OtherFieldsKeepCore(s, s.(life := life));
    RejectPendingDrains(s.(life := life));
  }

  lemma StepKeepsNotFresh(s: System, step: SystemStep, lease: O.Lease, n: nat)
    requires SystemInv(s) && Enabled(s, step) && lease.owner != O.NoOwner
    requires s.registry.current != lease && NotFresh(s.actor, lease, n)
    ensures Held(Apply(s, step).actor) && NotFresh(Apply(s, step).actor, lease, n)
  {
    StepKeepsSystemInv(s, step);
    match step
    case OwnershipStep(_) =>
    case JudgeDirectStep =>
    case ActorStep(a) => if LeavesWorker(a) { OtherStepsKeepWork(s.actor, a); }
  }

  /** A retired lease, in force again only after a whole cycle of generations. */
  lemma {:induction false} RetiredStaysNotFresh(s: System, steps: seq<SystemStep>, t: System, j: nat, n: nat)
    requires SystemInv(s) && Reaches(s, steps, t)
    requires j < |s.registry.log| && s.registry.log[j] != O.NO_LEASE
    requires s.registry.current != s.registry.log[j] && NotFresh(s.actor, s.registry.log[j], n)
    requires |t.registry.log| - 1 - j < O.CYCLE
    ensures SystemInv(t) && NotFresh(t.actor, s.registry.log[j], n)
    decreases |steps|
  {
    RunKeepsSystemInv(s, steps, t);
    if steps != [] {
      var u, lease := Apply(s, steps[0]), s.registry.log[j];
      assert O.Issued(s.registry.log, j);
      StepKeepsSystemInv(s, steps[0]);
      StepKeepsNotFresh(s, steps[0], lease, n);
      RunKeepsSystemInv(u, steps[1..], t);
      if steps[0].OwnershipStep? {
        O.RetiredStaysRetired(s.registry, [steps[0].ownershipStep], j);
      }
      RetiredStaysNotFresh(u, steps[1..], t, j, n);
    }
  }

  /** Once a lease was replaced, released or reset, a queued command that carries
      it and is dequeued later is never found fresh: while fewer than 2^32 - 1
      generations were issued since the lease was, its turn ends by counting it
      as stale, with nothing executed. */
  lemma RetiredLeaseNeverExecutes(s: System, steps: seq<SystemStep>, t: System, j: nat, ok: bool)
    requires Reachable(s) && Reaches(s, steps, t)
    requires j < |s.registry.log| && s.registry.log[j] != O.NO_LEASE
    requires !O.Validates(s.registry, s.registry.log[j])
    requires |t.registry.log| - 1 - j < O.CYCLE
    requires t.actor.current.Some? && |t.actor.popped| > |s.actor.popped|
    ensures References(t.actor)
    ensures Carries(t.actor.heap.blocks[t.actor.current.value].command, s.registry.log[j]) ==>
      && t.actor.verdict != Fresh
      && Finish(t.actor, ok).health.rejectedStale == t.actor.health.rejectedStale + 1
      && Finish(t.actor, ok).health.executed == t.actor.health.executed
  {
    ReachableSystemInv(s);
    assert O.Issued(s.registry.log, j);
    RetiredStaysNotFresh(s, steps, t, j, |s.actor.popped|);
  }

  // ------------------------------------------------- the same for re-entrant calls

  /** No call on the stack numbered after n that carries the lease was found
      fresh. */
  ghost predicate NestedNotFresh(s: System, lease: O.Lease, n: nat) {
    && |s.verdicts| == |s.actor.direct|
    && forall k :: 0 <= k < |s.verdicts| && s.actor.direct[k].id > n && Carries(s.actor.direct[k], lease) ==>
         s.verdicts[k] != Some(true)
  }

  lemma StepKeepsNestedNotFresh(s: System, step: SystemStep, lease: O.Lease, n: nat)
    requires SystemInv(s) && Enabled(s, step) && lease.owner != O.NoOwner
    requires s.registry.current != lease && NestedNotFresh(s, lease, n)
    ensures NestedNotFresh(Apply(s, step), lease, n)
  {
    hide Inv, O.Inv, A.Apply, A.Enabled, References;
    if step.ActorStep? {
      DirectMoves(s.actor, step.actorStep);
    }
  }

  lemma {:induction false} RetiredStaysNestedNotFresh(
    s: System, steps: seq<SystemStep>, t: System, j: nat, n: nat)
    requires SystemInv(s) && Reaches(s, steps, t)
    requires j < |s.registry.log| && s.registry.log[j] != O.NO_LEASE
    requires s.registry.current != s.registry.log[j] && NestedNotFresh(s, s.registry.log[j], n)
    requires |t.registry.log| - 1 - j < O.CYCLE
    ensures SystemInv(t) && NestedNotFresh(t, s.registry.log[j], n)
    decreases |steps|
  {
    RunKeepsSystemInv(s, steps, t);
    if steps != [] {
      var u, lease := Apply(s, steps[0]), s.registry.log[j];
      assert O.Issued(s.registry.log, j);
      StepKeepsSystemInv(s, steps[0]);
      StepKeepsNestedNotFresh(s, steps[0], lease, n);
      RunKeepsSystemInv(u, steps[1..], t);
      if steps[0].OwnershipStep? {
        O.RetiredStaysRetired(s.registry, [steps[0].ownershipStep], j);
      }
      hide Inv, A.Apply, A.Enabled, References, NestedNotFresh;
      RetiredStaysNestedNotFresh(u, steps[1..], t, j, n);
    }
  }

  /** A re-entrant call made after its lease was retired is never found fresh
      either, however long it waits for its check and whatever calls it nests
      with: when it ends it answers STALE and is counted so, with nothing
      executed. */
  lemma RetiredLeaseNeverExecutesNested(s: System, steps: seq<SystemStep>, t: System, j: nat, valid: bool, ok: bool)
    requires Reachable(s) && Reaches(s, steps, t)
    requires j < |s.registry.log| && s.registry.log[j] != O.NO_LEASE
    requires !O.Validates(s.registry, s.registry.log[j])
    requires |t.registry.log| - 1 - j < O.CYCLE
    requires Enabled(t, ActorStep(DirectEndStep(valid, ok)))
    ensures t.actor.direct != []
    ensures var call := t.actor.direct[|t.actor.direct| - 1];
      call.id > s.actor.health.lastId && Carries(call, s.registry.log[j]) ==>
        var (u, status) := DirectEnd(t.actor, valid, ok);
        && status == Stale && u.health.executed == t.actor.health.executed
        && u.health.rejectedStale == t.actor.health.rejectedStale + 1
  {
    ReachableSystemInv(s);
    assert O.Issued(s.registry.log, j);
    RetiredStaysNestedNotFresh(s, steps, t, j, s.actor.health.lastId);
    hide Inv, O.Inv, References, Reaches;
  }

  // ------------------------------------------------------------- what is executed

  /** One call of the playback backend or, for a lease, of the registry. */
  datatype Call =
    | SetMedia(uri: string, metadata: string, thenPlay: bool) | PlayIt | PauseIt | StopIt
    | SeekText(target: string) | SeekTime(ms: int) | VolumeTo(volume: int) | MuteTo(mute: bool)
    | ShowText(osd: string, duration: int) | BindTo(handle: nat, audio: bool) | LetGo(lease: O.Lease)
    | NoCall(ok: bool)

  /** player_execute_actor_command. */
  function CallOf(c: Command): Call {
    match c.kind
    case Open => SetMedia(c.text, c.metadata, c.flag)
    case Play => PlayIt
    case Pause => PauseIt
    case Stop => StopIt
    case StopAny => StopIt
    case Quiesce => StopIt
    case SeekTarget => SeekText(c.text)
    case SeekMs => SeekTime(c.value)
    case SetVolume => VolumeTo(c.value)
    case SetMute => MuteTo(c.flag)
    case ShowOsd => ShowText(c.text, c.value)
    case BindStream => BindTo(c.handle, c.flag)
    case ReleaseLease => LetGo(O.Lease(OwnerFromProducer(c.producer), c.token, c.generation))
    case Shutdown => NoCall(true)
    case NoKind => NoCall(false)
  }

  /** Every valid request ends in the call it is named after, with its own
      arguments, and a release lets go of exactly the request's lease. */
  lemma RequestReachesBackend(r: PlayerRequest)
    requires RequestValid(r)
    ensures CallOf(ToCommand(r)) ==
      match r.kind
      case OpenMedia => SetMedia(r.uri.value, OrEmpty(r.metadata), r.flag)
      case PlayMedia => PlayIt
      case PauseMedia => PauseIt
      case StopMedia => StopIt
      case StopAnyMedia => StopIt
      case SeekTo => SeekText(r.text.value)
      case SeekToMs => SeekTime(r.value)
      case Volume => VolumeTo(r.value)
      case Mute => MuteTo(r.flag)
      case Osd => ShowText(r.text.value, r.value)
      case Release => LetGo(if SourceOwner(r.source) != O.NoOwner then r.lease
                            else O.Lease(O.NoOwner, r.lease.token, r.lease.generation))
      case AnyKind => NoCall(false)
  {}

  /** The commands that no request makes: to quiesce stops playback, to shut down
      asks nothing of the backend, a stream is bound as it comes, and an unknown
      kind fails. */
  lemma OtherCommandsReach(c: Command)
    ensures c.kind == Quiesce ==> CallOf(c) == CallOf(c.(kind := Stop)) == StopIt
    ensures c.kind == Shutdown ==> CallOf(c) == NoCall(true)
    ensures c.kind == BindStream ==> CallOf(c) == BindTo(c.handle, c.flag)
    ensures CallOf(c) == NoCall(false) <==> c.kind == NoKind
  {}

  /** A well-formed request of a real kind and source: its arguments are there, a
      protocol names a lease of its own, and stopping whoever plays is left to the
      application. */
  predicate WellFormed(r: PlayerRequest) {
    && r.kind != AnyKind && r.source != AnySource
    && (r.kind == OpenMedia ==> r.uri.Some? && r.uri.value != "")
    && (r.kind in {SeekTo, Osd} ==> r.text.Some?)
    && (r.source == DlnaSource ==> r.lease.owner == O.Dlna)
    && (r.source == IptvSource ==> r.lease.owner == O.Iptv)
    && (r.source == VideoSource ==> r.lease.owner == O.AirPlayVideo)
    && (r.source == MirrorSource ==> r.lease.owner == O.AirPlayMirror)
    && (r.source !in {AppSource, UiSource} ==> r.lease.generation != 0 && r.kind != StopAnyMedia)
  }

  /** Exactly when a request is taken in by an accepting actor with a slot free
      for any command: it is well formed and, from a protocol, its lease is in
      force. */
  lemma TakenExactly(r: O.Registry, s: State, request: PlayerRequest, wait: bool)
    requires References(s) && s.life.running && s.life.accepting && !s.life.stopping
    requires |s.queue| + s.config.reserved < s.config.capacity
    ensures var submission := PlayerSubmit(r, true, s, request, wait, true).1;
      submission.Submitted? && TakenIn(submission.outcome) <==>
        WellFormed(request) && (request.source in {AppSource, UiSource} || r.current == request.lease)
  {
    hide References, Coalesce, Enqueue, Discard, TailAbsorbs;
    if RequestValid(request) { CommandCarriesItsLease(request, r); }
  }
}
