/** The resource half of the coordinator (source/app/protocol_coordinator.c): who
    starts and stops the services. One step is one locked region or one call of a
    service's start or stop; the main thread (start, tick, stop), a worker thread
    per service and the resource worker take steps in any order, while other
    threads change the desired mode at any time. */
module ServiceLifecycle {
  import opened Options
  import M = MediaCoordinator
  import O = Ownership

  // 0 is IPTV, 1 is DLNA, 2 is AirPlay; services start in this order.
  type Index = i: nat | i < 3 witness 0
  const AIRPLAY: Index := 2

  datatype ServiceState = Disabled | Stopped | Starting | Running | Failed

  /** `cleanup` is stop_after_start_attempt. */
  datatype Call = StartCall(ok: bool, cleanup: bool) | StopCall

  /** Where a service's start worker is; Done has set start_finished. */
  datatype Worker = NoThread | Launched | Called(ok: bool) | Marked(ok: bool) | Told | Done

  /** `calls` is history: the service's start and stop calls, in order. */
  datatype Service = Service(
    enabled: bool, cleanup: bool, state: ServiceState, stopRequired: bool, worker: Worker, calls: seq<Call>)

  const ABSENT := Service(false, false, Disabled, false, NoThread, [])

  type Services = s: seq<Service> | |s| == 3 witness [ABSENT, ABSENT, ABSENT]
  type Flags = s: seq<bool> | |s| == 3 witness [false, false, false]

  /** Positions inside one turn of the stopping loop or of the starting loop. */
  datatype StopAt =
    | ScanStop | GateStop(seen: ServiceState) | AimStop(seen: ServiceState)
    | AskStop | DoStop(required: bool) | ClearFlag | TellStopped

  datatype StartAt =
    | ScanStart | GateStart(found: ServiceState) | AimStart(found: ServiceState)
    | AskStart | GateCall | TellStarting | DoStart | MarkStart(ok: bool) | TellStart(ok: bool) | EndStart(ok: bool)

  /** Where the resource worker is. A stop is part of the first loop, or else
      clears the ground for a start. */
  datatype Point =
    | Idle | Suspend
    | InStop(i: Index, first: bool, stop: StopAt)
    | InStart(i: Index, start: StartAt)
    | AimFinal | Resume | Finish(completed: bool) | Returned

  /** `overlapped` is history: an AirPlay status poll wrote during this run. */
  datatype Resource = Resource(at: Point, target: M.Mode, success: bool, overlapped: bool)

  datatype TickAt =
    | ReapServices | ReapResource | SerialTick | Decide | Launch(target: M.Mode) | Poll | PollReport

  datatype HaltAt =
    | JoinResource | JoinService(i: Index) | CopyFlags
    | StopService(i: Index, required: Flags) | TellService(i: Index, required: Flags) | FinishStop | ClearAll

  datatype Main = Ready | SerialStart | InTick(tick: TickAt) | InHalt(halt: HaltAt)

  datatype Life = Down | Up | Stopping

  datatype Goal = Goal(desired: M.Mode, applied: M.Mode, failed: bool)

  datatype Coordinator = Coordinator(
    services: Services, serial: bool, exclusive: bool, next: nat, life: Life,
    main: Main, resource: Resource, goal: Goal)

  const IDLE := Resource(Idle, M.Home, true, false)

  const INITIAL := Coordinator([ABSENT, ABSENT, ABSENT], false, false, 0, Down, Ready, IDLE,
                               Goal(M.Home, M.Home, false))

  // ------------------------------------------------------------------- helpers

  /** coordinator_resource_service_required. */
  predicate Required(mode: M.Mode, i: Index, enabled: bool) {
    enabled &&
    (i == 0 || mode == M.Home || (i == 1 && mode == M.DlnaExclusive) || (i == 2 && mode == M.AirPlayExclusive))
  }

  predicate Matches(mode: M.Mode, i: Index, s: Service) {
    s.state == if !s.enabled then Disabled else if Required(mode, i, true) then Running else Stopped
  }

  /** coordinator_resource_services_match_locked. */
  predicate ServicesMatch(services: Services, mode: M.Mode) {
    Matches(mode, 0, services[0]) && Matches(mode, 1, services[1]) && Matches(mode, 2, services[2])
  }

  /** In place for an owner of the player: IPTV runs beside everything, DLNA only
      for itself, AirPlay only for its two kinds of stream, and all of them while
      nobody owns it. What is not enabled is disabled, what is not in place is
      stopped. */
  predicate Serves(services: Services, owner: O.Owner) {
    && Stands(services[0], true)
    && Stands(services[1], owner in {O.NoOwner, O.Dlna})
    && Stands(services[2], owner in {O.NoOwner, O.AirPlayVideo, O.AirPlayMirror})
  }

  predicate Stands(s: Service, up: bool) {
    s.state == if !s.enabled then Disabled else if up then Running else Stopped
  }

  /** The match test accepts exactly what serves the owner of the mode. */
  lemma MatchServes(services: Services, owner: O.Owner)
    ensures ServicesMatch(services, M.ModeForOwner(owner)) <==> Serves(services, owner)
  {}

  predicate NoWorkers(services: Services) {
    services[0].worker == NoThread && services[1].worker == NoThread && services[2].worker == NoThread
  }

  /** protocol_coordinator_set_service_state. */
  function SetState(s: Service, life: Life, state: ServiceState): Service {
    if life == Down then s else s.(state := state)
  }

  function Log(s: Service, call: Call): Service {
    s.(calls := s.calls + [call])
  }

  function SetService(c: Coordinator, i: Index, s: Service): Coordinator {
    c.(services := c.services[i := s])
  }

  // ------------------------------------------------------------ service workers

  /** The next thing coordinator_service_worker_run does to its service. */
  function Worked(s: Service, life: Life, ok: bool): Service {
    match s.worker
    case Launched => Log(s, StartCall(ok, s.cleanup)).(worker := Called(ok))
    case Called(started) => s.(stopRequired := started || s.cleanup, worker := Marked(started))
    case Marked(started) => SetState(s, life, if started then Running else Failed).(worker := Told)
    case Told => s.(worker := Done)
    case _ => s
  }

  // ------------------------------------------------------------ resource worker

  function At(c: Coordinator, at: Point): Coordinator {
    c.(resource := c.resource.(at := at))
  }

  function AfterStop(i: Index): Point {
    if i == 0 then InStart(0, ScanStart) else InStop(i - 1, true, ScanStop)
  }

  function AfterStart(i: Index): Point {
    if i == 2 then AimFinal else InStart(i + 1, ScanStart)
  }

  predicate Aimed(c: Coordinator) {
    c.goal.desired == c.resource.target
  }

  function Fail(c: Coordinator): Coordinator {
    c.(resource := c.resource.(success := false))
  }

  /** coordinator_resource_stop_service and the loop around it: what a position
      does to the service, and where it leads. */
  function StopEffect(s: Service, life: Life, stop: StopAt): Service {
    match stop
    case DoStop(required) => if required then Log(s, StopCall) else s
    case ClearFlag => s.(stopRequired := false)
    case TellStopped => SetState(s, life, Stopped)
    case _ => s
  }

  function AfterStopping(c: Coordinator, i: Index, first: bool, stop: StopAt): Point {
    var s := c.services[i];
    match stop
    case ScanStop => InStop(i, first, GateStop(s.state))
    case GateStop(seen) => if c.life == Up then InStop(i, first, AimStop(seen)) else Finish(false)
    case AimStop(seen) =>
      if !Aimed(c) then Finish(false)
      else if seen == Disabled || seen == Stopped || Required(c.resource.target, i, s.enabled) then AfterStop(i)
      else InStop(i, first, AskStop)
    case AskStop => InStop(i, first, DoStop(s.stopRequired))
    case DoStop(_) => InStop(i, first, ClearFlag)
    case ClearFlag => InStop(i, first, TellStopped)
    case TellStopped => if first then AfterStop(i) else InStart(i, GateCall)
  }

  /** coordinator_resource_start_service and the loop around it. */
  function StartEffect(s: Service, life: Life, start: StartAt, ok: bool): Service {
    match start
    case TellStarting => SetState(s, life, Starting)
    case DoStart => Log(s, StartCall(ok, s.cleanup))
    case MarkStart(started) => s.(stopRequired := started || s.cleanup)
    case TellStart(started) => SetState(s, life, if started then Running else Failed)
    case _ => s
  }

  function AfterStarting(c: Coordinator, i: Index, start: StartAt, ok: bool): Point {
    var s := c.services[i];
    match start
    case ScanStart => InStart(i, GateStart(s.state))
    case GateStart(found) => if c.life == Up then InStart(i, AimStart(found)) else Finish(false)
    case AimStart(found) =>
      if !Aimed(c) then Finish(false)
      else if !Required(c.resource.target, i, s.enabled) || found == Running then AfterStart(i)
      else InStart(i, AskStart)
    case AskStart => if s.stopRequired then InStop(i, false, AskStop) else InStart(i, GateCall)
    case GateCall => InStart(i, if c.life == Up then TellStarting else EndStart(false))
    case TellStarting => InStart(i, DoStart)
    case DoStart => InStart(i, MarkStart(ok))
    case MarkStart(started) => InStart(i, TellStart(started))
    case TellStart(started) => InStart(i, EndStart(started))
    case EndStart(_) => AfterStart(i)
  }

  /** The next thing coordinator_resource_worker_run does; `ok` is what the call
      it makes there answers, if it makes one. */
  function ResourceStep(c: Coordinator, ok: bool): Coordinator {
    match c.resource.at
    case Idle => c
    case Returned => c
    case Suspend => At(if c.resource.target != M.Home && !ok then Fail(c) else c, InStop(2, true, ScanStop))
    case InStop(i, first, stop) =>
      At(SetService(c, i, StopEffect(c.services[i], c.life, stop)), AfterStopping(c, i, first, stop))
    case InStart(i, start) =>
      At(SetService(if start == EndStart(false) then Fail(c) else c, i, StartEffect(c.services[i], c.life, start, ok)),
         AfterStarting(c, i, start, ok))
    case AimFinal => At(c, if Aimed(c) then Resume else Finish(false))
    case Resume => At(if c.resource.target == M.Home && !ok then Fail(c) else c, Finish(true))
    case Finish(completed) =>
      At(c.(goal := if !completed then c.goal
                    else if c.resource.success then c.goal.(applied := c.resource.target, failed := false)
                    else c.goal.(failed := true)), Returned)
  }

  // ---------------------------------------------------------------- main thread

  function FirstFrom(services: Services, k: nat): (i: nat)
    ensures k <= i || i == 3
    ensures i <= 3 && (i < 3 ==> services[i].state != Disabled)
    ensures forall j :: k <= j < i ==> services[j].state == Disabled
    decreases 3 - k
  {
    if k >= 3 then 3 else if services[k].state != Disabled then k else FirstFrom(services, k + 1)
  }

  /** coordinator_launch_next_serial_worker. */
  function LaunchSerial(c: Coordinator): Coordinator {
    if c.life != Up || !c.serial || !NoWorkers(c.services) then c
    else
      var i := FirstFrom(c.services, c.next);
      if i == 3 then c.(next := 3) else SetService(c, i, c.services[i].(worker := Launched)).(next := i + 1)
  }

  function Reaped(s: Service): Service {
    if s.worker == Done then s.(worker := NoThread) else s
  }

  function Configured(s: Service, enabled: bool, cleanup: bool, launch: bool): Service {
    Service(enabled, cleanup, if enabled then Starting else Disabled, s.stopRequired,
            if enabled && launch then Launched else NoThread, s.calls)
  }

  function Start(c: Coordinator, enabled: Flags, cleanup: Flags, serial: bool, exclusive: bool): Coordinator {
    var s := c.services;
    Coordinator([Configured(s[0], enabled[0], cleanup[0], !serial), Configured(s[1], enabled[1], cleanup[1], !serial),
                 Configured(s[2], enabled[2], cleanup[2], !serial)],
                serial, exclusive, 0, Up, if serial then SerialStart else Ready, c.resource,
                Goal(M.Home, M.Home, false))
  }

  /** The guard of coordinator_launch_resource_worker; `due` says that the retry
      time of a failed transition has come. */
  predicate TransitionWanted(c: Coordinator, due: bool) {
    && c.exclusive && c.resource.at == Idle && c.life == Up
    && !(c.goal.desired == c.goal.applied && ServicesMatch(c.services, c.goal.desired))
    && (c.goal.failed ==> due)
  }

  function Halted(s: Service): Service {
    if s.state == Disabled then s else s.(state := Stopped)
  }

  function Forgotten(s: Service): Service {
    s.(enabled := false, stopRequired := false)
  }

  function AfterService(i: Index, required: Flags): HaltAt {
    if i == 0 then FinishStop else StopService(i - 1, required)
  }

  /** The next thing protocol_coordinator_tick does; a poll answers None or a state. */
  function TickOnce(c: Coordinator, tick: TickAt, due: bool, poll: Option<ServiceState>): Coordinator {
    var s := c.services;
    match tick
    case ReapServices => c.(services := [Reaped(s[0]), Reaped(s[1]), Reaped(s[2])], main := InTick(ReapResource))
    case ReapResource => (if c.resource.at == Returned then At(c, Idle) else c).(main := InTick(SerialTick))
    case SerialTick => LaunchSerial(c).(main := InTick(Decide))
    case Decide => c.(main := InTick(if TransitionWanted(c, due) then Launch(c.goal.desired) else Poll))
    case Launch(target) =>
      if !NoWorkers(s) then c.(main := InTick(Poll))
      else c.(resource := Resource(Suspend, target, true, false), goal := c.goal.(failed := false),
              main := InTick(Poll))
    case Poll => c.(main := if c.life == Up && s[AIRPLAY].stopRequired then InTick(PollReport) else Ready)
    case PollReport =>
      (if poll.None? then c
       else SetService(c, AIRPLAY, SetState(s[AIRPLAY], c.life, poll.value)).
              (resource := c.resource.(overlapped := true))).(main := Ready)
  }

  /** The next thing protocol_coordinator_stop does. */
  function HaltOnce(c: Coordinator, halt: HaltAt): Coordinator {
    var s := c.services;
    match halt
    case JoinResource => At(c, Idle).(main := InHalt(JoinService(0)))
    case JoinService(i) =>
      SetService(c, i, s[i].(worker := NoThread)).(main := InHalt(if i == 2 then CopyFlags else JoinService(i + 1)))
    case CopyFlags => c.(main := InHalt(StopService(2, [s[0].stopRequired, s[1].stopRequired, s[2].stopRequired])))
    case StopService(i, required) =>
      if required[i] then SetService(c, i, Log(s[i], StopCall)).(main := InHalt(TellService(i, required)))
      else c.(main := InHalt(AfterService(i, required)))
    case TellService(i, required) =>
      SetService(c, i, SetState(s[i], c.life, Stopped)).(main := InHalt(AfterService(i, required)))
    case FinishStop =>
      c.(services := [Halted(s[0]), Halted(s[1]), Halted(s[2])], life := Down,
         goal := Goal(M.Home, M.Home, false), main := InHalt(ClearAll))
    case ClearAll =>
      c.(services := [Forgotten(s[0]), Forgotten(s[1]), Forgotten(s[2])], serial := false, exclusive := false,
         next := 0, resource := IDLE, main := Ready)
  }

  function MainStep(c: Coordinator, due: bool, poll: Option<ServiceState>): Coordinator {
    match c.main
    case Ready => c
    case SerialStart => LaunchSerial(c).(main := Ready)
    case InTick(tick) => TickOnce(c, tick, due, poll)
    case InHalt(halt) => HaltOnce(c, halt)
  }

  /** coordinator_set_desired_resource_mode; the cancellation it may signal to a
      start in progress only shows in how that start ends. */
  function Desired(goal: Goal, target: M.Mode): Goal {
    if goal.desired == target then goal else goal.(desired := target, failed := false)
  }

  // ----------------------------------------------------------------------- runs

  datatype Step =
    | StartStep(enabled: Flags, cleanup: Flags, serial: bool, exclusive: bool)
    | TickStep
    | StopStep
    | MainStepOf(due: bool, poll: Option<ServiceState>)
    | ServiceStepOf(i: Index, ok: bool)
    | ResourceStepOf(ok: bool)
    | DesireStep(mode: M.Mode)

  predicate PollAnswer(poll: Option<ServiceState>) {
    poll.None? || poll.value == Running || poll.value == Starting || poll.value == Failed
  }

  /** Control flow: joins wait, and one thread calls start, tick and stop. */
  predicate Enabled(c: Coordinator, step: Step) {
    match step
    case StartStep(_, _, _, _) => c.main == Ready && c.life == Down
    case TickStep => c.main == Ready
    case StopStep => c.main == Ready && c.life == Up
    case MainStepOf(_, poll) =>
      && c.main != Ready && PollAnswer(poll)
      && (c.main == InHalt(JoinResource) ==> c.resource.at == Idle || c.resource.at == Returned)
      && (c.main.InHalt? && c.main.halt.JoinService? ==>
            c.services[c.main.halt.i].worker == NoThread || c.services[c.main.halt.i].worker == Done)
    case ServiceStepOf(i, _) => c.services[i].worker != NoThread && c.services[i].worker != Done
    case ResourceStepOf(_) => c.resource.at != Idle && c.resource.at != Returned
    case DesireStep(_) => true
  }

  function Apply(c: Coordinator, step: Step): Coordinator {
    match step
    case StartStep(enabled, cleanup, serial, exclusive) => Start(c, enabled, cleanup, serial, exclusive)
    case TickStep => c.(main := InTick(ReapServices))
    case StopStep => c.(life := Stopping, main := InHalt(JoinResource))
    case MainStepOf(due, poll) => MainStep(c, due, poll)
    case ServiceStepOf(i, ok) => SetService(c, i, Worked(c.services[i], c.life, ok))
    case ResourceStepOf(ok) => ResourceStep(c, ok)
    case DesireStep(mode) => c.(goal := Desired(c.goal, if c.exclusive then mode else M.Home))
  }

  ghost predicate Reaches(c: Coordinator, steps: seq<Step>, t: Coordinator)
    decreases |steps|
  {
    if steps == [] then c == t
    else Enabled(c, steps[0]) && Reaches(Apply(c, steps[0]), steps[1..], t)
  }

  ghost predicate Reachable(c: Coordinator) {
    exists steps: seq<Step> :: Reaches(INITIAL, steps, c)
  }
}
