/** What every run of the service threads keeps. */
module ServiceRuns {
  import opened Options
  import opened ServiceLifecycle
  import M = MediaCoordinator

  predicate NeedsStop(call: Call) {
    call.StartCall? && (call.ok || call.cleanup)
  }

  /** The last start has not been followed by the stop it needs. */
  predicate Owed(calls: seq<Call>) {
    calls != [] && NeedsStop(calls[|calls| - 1])
  }

  ghost predicate InTurn(calls: seq<Call>, i: nat)
    requires i < |calls|
  {
    calls[i] == StopCall <==> i > 0 && NeedsStop(calls[i - 1])
  }

  /** A stop comes exactly after each start that needs one. */
  ghost predicate Paired(calls: seq<Call>) {
    forall i :: 0 <= i < |calls| ==> InTurn(calls, i)
  }

  lemma PairedSnoc(calls: seq<Call>, call: Call)
    requires Paired(calls) && (call == StopCall <==> Owed(calls))
    ensures Paired(calls + [call]) && Owed(calls + [call]) == NeedsStop(call)
  {
    var w := calls + [call];
    forall i | 0 <= i < |w| ensures InTurn(w, i) {
      if i < |calls| {
        assert InTurn(calls, i) && w[i] == calls[i];
      }
      if 0 < i { assert w[i - 1] == calls[i - 1]; }
    }
  }

  // ------------------------------------------------------------------ invariant

  predicate Quiet(state: ServiceState) {
    state == Disabled || state == Stopped
  }

  /** What a position of the resource worker in the stop of a service, or in its
      start, says about that service. */
  ghost predicate StopOk(stop: StopAt, s: Service) {
    match stop
    case ScanStop => true
    case GateStop(seen) => (Quiet(seen) ==> !Owed(s.calls)) && (seen != Disabled ==> s.enabled)
    case AimStop(seen) => (Quiet(seen) ==> !Owed(s.calls)) && (seen != Disabled ==> s.enabled)
    case AskStop => s.enabled
    case DoStop(required) => s.enabled && required == Owed(s.calls)
    case ClearFlag => s.enabled && !Owed(s.calls)
    case TellStopped => s.enabled && !Owed(s.calls)
  }

  ghost predicate StartOk(start: StartAt, s: Service) {
    match start
    case ScanStart => true
    case GateStart(_) => true
    case AimStart(_) => true
    case AskStart => s.enabled
    case GateCall => s.enabled && !Owed(s.calls)
    case TellStarting => s.enabled && !Owed(s.calls)
    case DoStart => s.enabled && !Owed(s.calls) && !Quiet(s.state)
    case MarkStart(ok) => s.enabled && !Quiet(s.state) && Owed(s.calls) == (ok || s.cleanup)
    case TellStart(_) => s.enabled
    case EndStart(_) => true
  }

  ghost predicate ResourceOk(at: Point, i: Index, s: Service) {
    && (at.InStop? && at.i == i ==> StopOk(at.stop, s))
    && (at.InStart? && at.i == i ==> StartOk(at.start, s))
  }

  /** What the stopping main thread's position says about service i. */
  ghost predicate HaltOk(halt: HaltAt, i: Index, s: Service) {
    match halt
    case StopService(k, required) => Owed(s.calls) == (i <= k && required[i])
    case TellService(k, required) => Owed(s.calls) == (i < k && required[i]) && (i == k ==> s.enabled)
    case FinishStop => !Owed(s.calls)
    case ClearAll => !Owed(s.calls)
    case _ => true
  }

  /** Some thread has called start or stop of service i but not yet set its flag. */
  predicate FlagBehind(at: Point, main: Main, i: Index, s: Service) {
    || s.worker.Called?
    || (at.InStop? && at.i == i && at.stop.ClearFlag?)
    || (at.InStart? && at.i == i && at.start.MarkStart?)
    || (main.InHalt? && HaltBehind(main.halt, i))
  }

  predicate HaltBehind(halt: HaltAt, i: Index) {
    || (halt.StopService? && i > halt.i)
    || (halt.TellService? && i >= halt.i)
    || halt == FinishStop || halt == ClearAll
  }

  ghost predicate WorkerOk(s: Service) {
    && (s.worker != NoThread ==> s.enabled && !Quiet(s.state))
    && (s.worker == Launched ==> !Owed(s.calls))
    && (s.worker.Called? ==> Owed(s.calls) == (s.worker.ok || s.cleanup))
  }

  /** Not launched yet by a serial startup. */
  ghost predicate Waiting(s: Service) {
    s.worker == NoThread && !Owed(s.calls) && (s.enabled ==> !Quiet(s.state))
  }

  /** What holds of a service wherever the threads are. */
  ghost predicate Basic(s: Service, life: Life) {
    && Paired(s.calls) && WorkerOk(s)
    && (Quiet(s.state) ==> !Owed(s.calls))
    && (life != Down ==> (s.enabled <==> s.state != Disabled))
    && (life == Down ==> s.worker == NoThread && !Owed(s.calls))
  }

  ghost predicate FlagOk(at: Point, main: Main, i: Index, s: Service) {
    FlagBehind(at, main, i, s) || s.stopRequired == Owed(s.calls)
  }

  ghost predicate ServiceOk(c: Coordinator, i: Index) {
    var s := c.services[i];
    && Basic(s, c.life) && FlagOk(c.resource.at, c.main, i, s)
    && ResourceOk(c.resource.at, i, s) && (c.main.InHalt? ==> HaltOk(c.main.halt, i, s))
    && (c.serial && c.life == Up && i >= c.next ==> Waiting(s))
  }

  predicate Joined(halt: HaltAt, i: Index) {
    if halt.JoinService? then i < halt.i else halt != JoinResource
  }

  /** How the threads stand to each other. */
  ghost predicate ThreadsOk(c: Coordinator) {
    && (c.resource.at != Idle ==> NoWorkers(c.services) && (c.serial ==> c.next >= 3) && c.life != Down)
    && (c.main.InTick? ==> TickOk(c, c.main.tick))
    && (c.life == Stopping <==> c.main.InHalt? && c.main.halt != ClearAll)
    && (c.main == SerialStart ==> c.life == Up)
    && (c.main.InHalt? ==> HaltedOk(c, c.main.halt))
  }

  ghost predicate TickOk(c: Coordinator, tick: TickAt) {
    && (tick.Decide? || tick.Launch? ==> (c.serial && c.life == Up && NoWorkers(c.services) ==> c.next >= 3))
    && (tick.Launch? ==> c.life == Up && c.resource.at == Idle)
    && (tick == PollReport ==> c.life == Up && c.services[AIRPLAY].enabled)
  }

  ghost predicate HaltedOk(c: Coordinator, halt: HaltAt) {
    && (halt == ClearAll ==> c.life == Down)
    && (halt != JoinResource ==> c.resource.at == Idle)
    && (Joined(halt, 0) ==> c.services[0].worker == NoThread)
    && (Joined(halt, 1) ==> c.services[1].worker == NoThread)
    && (Joined(halt, 2) ==> c.services[2].worker == NoThread)
  }

  /** Services from this one on have been through the first loop. */
  function ClearedFrom(at: Point): nat {
    match at
    case Idle => 3
    case Suspend => 3
    case InStop(i, first, _) => if first then i + 1 else 0
    case Finish(completed) => if completed then 0 else 3
    case Returned => 3
    case _ => 0
  }

  predicate Excluded(c: Coordinator, i: Index) {
    !Required(c.resource.target, i, c.services[i].enabled)
  }

  /** Service i, if the target excludes it and the first loop has passed it, is down. */
  ghost predicate DownIfExcluded(c: Coordinator, i: Index) {
    ClearedFrom(c.resource.at) <= i && Excluded(c, i) ==> !Owed(c.services[i].calls)
  }

  /** The worker goes on with a start only of what its target requires, and stops
      only what it excludes, but for clearing the ground. */
  ghost predicate Directed(c: Coordinator) {
    var at := c.resource.at;
    && (at.InStart? && !at.start.ScanStart? && !at.start.GateStart? && !at.start.AimStart? ==> !Excluded(c, at.i))
    && (at.InStop? && (at.stop.AskStop? || at.stop.DoStop? || at.stop.ClearFlag? || at.stop.TellStopped?) ==>
          (at.first <==> Excluded(c, at.i)))
    && (at.InStop? && (at.stop.ScanStop? || at.stop.GateStop? || at.stop.AimStop?) ==> at.first)
  }

  ghost predicate Inv(c: Coordinator) {
    && (forall i: Index :: ServiceOk(c, i) && DownIfExcluded(c, i))
    && ThreadsOk(c) && Directed(c)
  }

  // -------------------------------------------------------------- service workers

  lemma WorkedKeepsBasic(s: Service, life: Life, ok: bool)
    requires Basic(s, life)
    ensures Basic(Worked(s, life, ok), life)
    ensures Worked(s, life, ok).enabled == s.enabled
  {
    hide Paired;
    if s.worker == Launched {
      PairedSnoc(s.calls, StartCall(ok, s.cleanup));
    }
  }

  lemma WorkedKeepsFlag(main: Main, i: Index, s: Service, life: Life, ok: bool)
    requires Basic(s, life) && FlagOk(Idle, main, i, s) && s.worker != NoThread
    ensures FlagOk(Idle, main, i, Worked(s, life, ok))
  {
    hide Paired, HaltBehind;
  }

  lemma WorkerStepKeepsInv(c: Coordinator, i: Index, ok: bool)
    requires Inv(c) && Enabled(c, ServiceStepOf(i, ok))
    ensures Inv(Apply(c, ServiceStepOf(i, ok)))
  {
    hide Basic, FlagOk, StopOk, StartOk;
    var t := Apply(c, ServiceStepOf(i, ok));
    assert ServiceOk(c, i);
    WorkedKeepsBasic(c.services[i], c.life, ok);
    WorkedKeepsFlag(c.main, i, c.services[i], c.life, ok);
    forall j: Index ensures ServiceOk(t, j) && DownIfExcluded(t, j) {
      assert ServiceOk(c, j);
    }
  }

  // -------------------------------------------------------------- resource worker

  lemma StopEffectKeepsBasic(s: Service, life: Life, stop: StopAt)
    requires Basic(s, life) && StopOk(stop, s) && s.worker == NoThread && life != Down
    ensures Basic(StopEffect(s, life, stop), life)
    ensures stop.DoStop? ==> !Owed(StopEffect(s, life, stop).calls)
    ensures !stop.DoStop? ==> StopEffect(s, life, stop).calls == s.calls
  {
    hide Paired;
    if stop.DoStop? && stop.required {
      PairedSnoc(s.calls, StopCall);
    }
  }

  lemma StartEffectKeepsBasic(s: Service, life: Life, start: StartAt, ok: bool)
    requires Basic(s, life) && StartOk(start, s) && s.worker == NoThread && life != Down
    ensures Basic(StartEffect(s, life, start, ok), life)
    ensures start.DoStart? ==> Owed(StartEffect(s, life, start, ok).calls) == (ok || s.cleanup)
    ensures !start.DoStart? ==> StartEffect(s, life, start, ok).calls == s.calls
  {
    hide Paired;
    if start.DoStart? {
      PairedSnoc(s.calls, StartCall(ok, s.cleanup));
    }
  }

  /** What a running resource worker leaves to the rest. */
  ghost predicate Alone(c: Coordinator, i: Index) {
    && c.life != Down && c.services[i].worker == NoThread && (c.serial ==> c.next >= 3)
    && (c.main.InHalt? ==> c.main.halt == JoinResource)
  }

  lemma StopStepOk(c: Coordinator, i: Index, first: bool, stop: StopAt, ok: bool)
    requires ServiceOk(c, i) && Alone(c, i) && c.resource.at == InStop(i, first, stop)
    ensures ServiceOk(ResourceStep(c, ok), i)
  {
    hide Paired, Waiting;
    StopEffectKeepsBasic(c.services[i], c.life, stop);
  }

  lemma StartStepOk(c: Coordinator, i: Index, start: StartAt, ok: bool)
    requires ServiceOk(c, i) && Alone(c, i) && c.resource.at == InStart(i, start)
    ensures ServiceOk(ResourceStep(c, ok), i)
  {
    hide Paired, Waiting;
    StartEffectKeepsBasic(c.services[i], c.life, start, ok);
  }

  predicate Busy(at: Point, j: Index) {
    (at.InStop? || at.InStart?) && at.i == j
  }

  /** All that a step of the resource worker changes besides the service it is at. */
  ghost predicate OnlyResource(c: Coordinator, t: Coordinator, j: Index) {
    && t.serial == c.serial && t.next == c.next && t.life == c.life && t.main == c.main
    && t.resource.target == c.resource.target && t.resource.at != Idle
    && t.services[j].enabled == c.services[j].enabled && t.services[j].worker == c.services[j].worker
    && (!Busy(c.resource.at, j) ==> t.services[j] == c.services[j] && Fresh(t.resource.at, j))
  }

  /** The worker is not at service j, or has just come to it. */
  predicate Fresh(at: Point, j: Index) {
    Busy(at, j) ==> (at.InStop? && at.stop == ScanStop) || (at.InStart? && at.start == ScanStart)
  }

  lemma StoppingMoves(c: Coordinator, i: Index, first: bool, stop: StopAt, j: Index)
    requires j != i
    ensures Fresh(AfterStopping(c, i, first, stop), j) && AfterStopping(c, i, first, stop) != Idle
  {}

  lemma StartingMoves(c: Coordinator, i: Index, start: StartAt, ok: bool, j: Index)
    requires j != i
    ensures Fresh(AfterStarting(c, i, start, ok), j) && AfterStarting(c, i, start, ok) != Idle
  {}

  lemma EffectsKeepIdentity(s: Service, life: Life, stop: StopAt, start: StartAt, ok: bool)
    ensures var t := StopEffect(s, life, stop); t.enabled == s.enabled && t.worker == s.worker
    ensures var t := StartEffect(s, life, start, ok); t.enabled == s.enabled && t.worker == s.worker
  {}

  lemma StopStepFrame(c: Coordinator, ok: bool, i: Index, first: bool, stop: StopAt, j: Index)
    requires c.resource.at == InStop(i, first, stop)
    ensures OnlyResource(c, ResourceStep(c, ok), j)
  {
    hide Required, AfterStopping, StopEffect, Fresh;
    EffectsKeepIdentity(c.services[i], c.life, stop, ScanStart, ok);
    StoppingMoves(c, i, first, stop, if j != i then j else if i == 0 then 1 else 0);
  }

  lemma StartStepFrame(c: Coordinator, ok: bool, i: Index, start: StartAt, j: Index)
    requires c.resource.at == InStart(i, start)
    ensures OnlyResource(c, ResourceStep(c, ok), j)
  {
    hide Required, AfterStarting, StartEffect, Fresh;
    EffectsKeepIdentity(c.services[i], c.life, ScanStop, start, ok);
    StartingMoves(c, i, start, ok, if j != i then j else if i == 0 then 1 else 0);
  }

  lemma OtherStepFrame(c: Coordinator, ok: bool, j: Index)
    requires Enabled(c, ResourceStepOf(ok)) && !c.resource.at.InStop? && !c.resource.at.InStart?
    ensures OnlyResource(c, ResourceStep(c, ok), j)
  {}

  lemma ResourceStepFrame(c: Coordinator, ok: bool, j: Index)
    requires Enabled(c, ResourceStepOf(ok))
    ensures OnlyResource(c, ResourceStep(c, ok), j)
  {
    hide OnlyResource, ResourceStep;
    var at := c.resource.at;
    if at.InStop? {
      StopStepFrame(c, ok, at.i, at.first, at.stop, j);
    } else if at.InStart? {
      StartStepFrame(c, ok, at.i, at.start, j);
    } else {
      OtherStepFrame(c, ok, j);
    }
  }

  lemma ResourceStepKeepsService(c: Coordinator, ok: bool, j: Index)
    requires ServiceOk(c, j) && Alone(c, j) && Enabled(c, ResourceStepOf(ok))
    ensures ServiceOk(ResourceStep(c, ok), j)
  {
    var at := c.resource.at;
    if at.InStop? && at.i == j {
      hide ServiceOk, ResourceStep;
      StopStepOk(c, j, at.first, at.stop, ok);
    } else if at.InStart? && at.i == j {
      hide ServiceOk, ResourceStep;
      StartStepOk(c, j, at.start, ok);
    } else {
      hide Basic, HaltOk, Waiting, ResourceStep, HaltBehind;
      ResourceStepFrame(c, ok, j);
    }
  }

  lemma StopStepKeepsExclusion(c: Coordinator, ok: bool, i: Index, first: bool, stop: StopAt, j: Index)
    requires ServiceOk(c, i) && DownIfExcluded(c, j) && Directed(c) && c.life != Down
    requires c.resource.at == InStop(i, first, stop)
    ensures DownIfExcluded(ResourceStep(c, ok), j) && Directed(ResourceStep(c, ok))
  {
    hide Basic, FlagOk, HaltOk, Waiting, Required;
    StopStepFrame(c, ok, i, first, stop, j);
    StopStepFrame(c, ok, i, first, stop, i);
  }

  lemma StartStepKeepsExclusion(c: Coordinator, ok: bool, i: Index, start: StartAt, j: Index)
    requires DownIfExcluded(c, j) && Directed(c) && c.resource.at == InStart(i, start)
    ensures DownIfExcluded(ResourceStep(c, ok), j) && Directed(ResourceStep(c, ok))
  {
    hide Required;
    StartStepFrame(c, ok, i, start, j);
    StartStepFrame(c, ok, i, start, i);
  }

  lemma OtherStepKeepsExclusion(c: Coordinator, ok: bool, j: Index)
    requires Enabled(c, ResourceStepOf(ok)) && !c.resource.at.InStop? && !c.resource.at.InStart?
    requires DownIfExcluded(c, j) && Directed(c)
    ensures DownIfExcluded(ResourceStep(c, ok), j) && Directed(ResourceStep(c, ok))
  {
    hide Required;
  }

  lemma ResourceStepKeepsInv(c: Coordinator, ok: bool)
    requires Inv(c) && Enabled(c, ResourceStepOf(ok))
    ensures Inv(ResourceStep(c, ok))
  {
    hide ServiceOk, DownIfExcluded, Directed, ResourceStep, TickOk;
    var t, at := ResourceStep(c, ok), c.resource.at;
    forall j: Index ensures ServiceOk(t, j) && DownIfExcluded(t, j) && Directed(t) && OnlyResource(c, t, j) {
      assert ServiceOk(c, j) && DownIfExcluded(c, j);
      ResourceStepFrame(c, ok, j);
      ResourceStepKeepsService(c, ok, j);
      if at.InStop? {
        assert ServiceOk(c, at.i);
        StopStepKeepsExclusion(c, ok, at.i, at.first, at.stop, j);
      } else if at.InStart? {
        StartStepKeepsExclusion(c, ok, at.i, at.start, j);
      } else {
        OtherStepKeepsExclusion(c, ok, j);
      }
    }
    assert ServiceOk(t, 0);
    ThreadsFollowResource(c, t);
  }

  lemma ThreadsFollowResource(c: Coordinator, t: Coordinator)
    requires ThreadsOk(c) && c.resource.at != Idle && (forall j: Index :: OnlyResource(c, t, j))
    requires c.main.InHalt? ==> c.main.halt == JoinResource
    ensures ThreadsOk(t)
  {
    hide Fresh;
    assert OnlyResource(c, t, 0) && OnlyResource(c, t, 1) && OnlyResource(c, t, 2);
  }

  // ----------------------------------------------------------------- main thread

  lemma ReapsEach(c: Coordinator, due: bool, poll: Option<ServiceState>, j: Index)
    requires c.main == InTick(ReapServices)
    ensures var t := MainStep(c, due, poll);
      t == c.(services := t.services, main := InTick(ReapResource)) && t.services[j] == Reaped(c.services[j])
  {
    assert j == 0 || j == 1 || j == 2;
  }

  lemma ReapKeepsService(c: Coordinator, due: bool, poll: Option<ServiceState>, j: Index)
    requires ServiceOk(c, j) && c.main == InTick(ReapServices)
    ensures ServiceOk(MainStep(c, due, poll), j)
  {
    hide Paired, MainStep;
    ReapsEach(c, due, poll, j);
  }

  lemma PollKeepsService(c: Coordinator, due: bool, poll: Option<ServiceState>, j: Index)
    requires ServiceOk(c, j) && ThreadsOk(c) && PollAnswer(poll) && c.main == InTick(PollReport)
    ensures ServiceOk(MainStep(c, due, poll), j)
  {
    hide Paired;
  }

  lemma TickKeepsService(c: Coordinator, due: bool, poll: Option<ServiceState>, j: Index)
    requires ServiceOk(c, j) && ThreadsOk(c)
    requires c.main.InTick? && c.main.tick != SerialTick && c.main.tick != ReapServices && c.main.tick != PollReport
    ensures ServiceOk(MainStep(c, due, poll), j)
  {
    hide Basic, StopOk, StartOk, TransitionWanted;
  }

  lemma LaunchKeepsService(c: Coordinator, j: Index)
    requires ServiceOk(c, j) && ThreadsOk(c)
    ensures ServiceOk(LaunchSerial(c), j)
  {
    hide Paired, StopOk, StartOk;
  }

  /** A launch leaves everything as it is, a started worker or no service to start. */
  lemma LaunchDecides(c: Coordinator)
    requires ThreadsOk(c)
    ensures var t := LaunchSerial(c);
      && t == c.(services := t.services, next := t.next)
      && (c.serial && c.life == Up && NoWorkers(t.services) ==> t.next >= 3)
      && (t.services == c.services || c.resource.at == Idle)
      && (t.services != c.services ==> c.life == Up)
  {}

  lemma AirPlayEnabled(c: Coordinator)
    requires ServiceOk(c, AIRPLAY) && c.life == Up && c.main.InTick? && c.services[AIRPLAY].stopRequired
    ensures c.services[AIRPLAY].enabled
  {
    hide Paired;
  }

  lemma ReapKeepsThreads(c: Coordinator, due: bool, poll: Option<ServiceState>)
    requires ThreadsOk(c) && c.main == InTick(ReapServices)
    ensures ThreadsOk(MainStep(c, due, poll))
  {
    ReapsEach(c, due, poll, 0);
    ReapsEach(c, due, poll, 1);
    ReapsEach(c, due, poll, 2);
    hide MainStep;
  }

  lemma SerialKeepsThreads(c: Coordinator, due: bool, poll: Option<ServiceState>)
    requires ThreadsOk(c) && (c.main == InTick(SerialTick) || c.main == SerialStart)
    ensures ThreadsOk(MainStep(c, due, poll))
  {
    hide LaunchSerial;
    LaunchDecides(c);
  }

  lemma TickKeepsThreads(c: Coordinator, due: bool, poll: Option<ServiceState>)
    requires ThreadsOk(c) && ServiceOk(c, AIRPLAY)
    requires c.main.InTick? && c.main.tick != SerialTick && c.main.tick != ReapServices
    ensures ThreadsOk(MainStep(c, due, poll))
  {
    hide ServiceOk, Required;
    if c.life == Up && c.services[AIRPLAY].stopRequired { AirPlayEnabled(c); }
  }

  ghost predicate SameCalls(c: Coordinator, t: Coordinator, i: Index) {
    t.services[i].calls == c.services[i].calls && t.services[i].enabled == c.services[i].enabled
  }

  /** A step outside the resource worker that calls nothing, unless it has just
      been joined or launched. */
  ghost predicate Spares(c: Coordinator, t: Coordinator) {
    && (forall i: Index :: SameCalls(c, t, i))
    && ((t.resource.at == c.resource.at && t.resource.target == c.resource.target)
        || t.resource.at == Idle || t.resource.at == Suspend)
  }

  lemma ExclusionFollows(c: Coordinator, t: Coordinator)
    requires (forall j: Index :: DownIfExcluded(c, j)) && Directed(c) && Spares(c, t)
    ensures (forall j: Index :: DownIfExcluded(t, j)) && Directed(t)
  {
    forall j: Index ensures DownIfExcluded(t, j) {
      assert DownIfExcluded(c, j) && SameCalls(c, t, j);
    }
    if c.resource.at.InStop? || c.resource.at.InStart? {
      assert SameCalls(c, t, c.resource.at.i);
    }
  }

  lemma TickSpares(c: Coordinator, due: bool, poll: Option<ServiceState>)
    requires !c.main.InHalt?
    ensures Spares(c, MainStep(c, due, poll))
  {
    hide TransitionWanted, NoWorkers, LaunchSerial;
    if c.main == SerialStart || c.main == InTick(SerialTick) {
      LaunchSpares(c, due, poll);
    } else if c.main == InTick(ReapServices) {
      hide Reaped, SetState;
      forall i: Index ensures SameCalls(c, MainStep(c, due, poll), i) { ReapSpares(c, due, poll, i); }
    } else {
      hide Reaped, FirstFrom;
    }
  }

  lemma ReapSpares(c: Coordinator, due: bool, poll: Option<ServiceState>, i: Index)
    requires c.main == InTick(ReapServices)
    ensures SameCalls(c, MainStep(c, due, poll), i)
  {
    ReapsEach(c, due, poll, i);
  }

  lemma LaunchSpares(c: Coordinator, due: bool, poll: Option<ServiceState>)
    requires c.main == SerialStart || c.main == InTick(SerialTick)
    ensures Spares(c, MainStep(c, due, poll))
  {}

  lemma TickKeepsInv(c: Coordinator, due: bool, poll: Option<ServiceState>)
    requires Inv(c) && Enabled(c, MainStepOf(due, poll)) && !c.main.InHalt?
    ensures Inv(MainStep(c, due, poll))
  {
    hide ServiceOk, DownIfExcluded, ThreadsOk, Directed, MainStep, Spares;
    var t := MainStep(c, due, poll);
    assert ServiceOk(c, AIRPLAY);
    forall j: Index ensures DownIfExcluded(c, j) { assert ServiceOk(c, j); }
    forall j: Index ensures ServiceOk(t, j) {
      assert ServiceOk(c, j);
      TickKeepsOneService(c, due, poll, j);
    }
    TickSpares(c, due, poll);
    ExclusionFollows(c, t);
    if c.main == SerialStart || c.main == InTick(SerialTick) {
      SerialKeepsThreads(c, due, poll);
    } else if c.main == InTick(ReapServices) {
      ReapKeepsThreads(c, due, poll);
    } else {
      TickKeepsThreads(c, due, poll);
    }
  }

  lemma TickKeepsOneService(c: Coordinator, due: bool, poll: Option<ServiceState>, j: Index)
    requires ServiceOk(c, j) && ThreadsOk(c) && Enabled(c, MainStepOf(due, poll)) && !c.main.InHalt?
    ensures ServiceOk(MainStep(c, due, poll), j)
  {
    if c.main == SerialStart || c.main == InTick(SerialTick) {
      hide Basic, StopOk, StartOk, LaunchSerial, ThreadsOk;
      LaunchKeepsService(c, j);
      LaunchDecides(c);
    } else if c.main == InTick(ReapServices) {
      hide ServiceOk;
      ReapKeepsService(c, due, poll, j);
    } else if c.main == InTick(PollReport) {
      hide ServiceOk;
      PollKeepsService(c, due, poll, j);
    } else {
      hide ServiceOk;
      TickKeepsService(c, due, poll, j);
    }
  }

  // -------------------------------------------------------------------- stopping

  lemma HaltedEach(c: Coordinator, i: Index)
    ensures [Halted(c.services[0]), Halted(c.services[1]), Halted(c.services[2])][i] == Halted(c.services[i])
    ensures [Forgotten(c.services[0]), Forgotten(c.services[1]), Forgotten(c.services[2])][i]
            == Forgotten(c.services[i])
    ensures [c.services[0].stopRequired, c.services[1].stopRequired, c.services[2].stopRequired][i]
            == c.services[i].stopRequired
  {
    assert i == 0 || i == 1 || i == 2;
  }

  lemma JoinKeepsService(c: Coordinator, j: Index)
    requires ServiceOk(c, j) && ThreadsOk(c) && c.main.InHalt?
    requires c.main.halt == JoinResource || c.main.halt.JoinService? || c.main.halt.CopyFlags?
    requires Enabled(c, MainStepOf(false, None))
    ensures ServiceOk(HaltOnce(c, c.main.halt), j)
  {
    hide Paired;
    HaltedEach(c, j);
  }

  lemma StopKeepsService(c: Coordinator, j: Index)
    requires ServiceOk(c, j) && ThreadsOk(c) && c.main.InHalt?
    requires c.main.halt.StopService? || c.main.halt.TellService?
    ensures ServiceOk(HaltOnce(c, c.main.halt), j)
  {
    hide Paired, StopOk, StartOk;
    assert j == 0 || j == 1 || j == 2;
    if c.main.halt.StopService? && c.main.halt.i == j && c.main.halt.required[j] {
      PairedSnoc(c.services[j].calls, StopCall);
    }
  }

  lemma EndKeepsService(c: Coordinator, j: Index)
    requires ServiceOk(c, j) && ThreadsOk(c)
    requires c.main == InHalt(FinishStop) || c.main == InHalt(ClearAll)
    ensures ServiceOk(HaltOnce(c, c.main.halt), j)
  {
    hide Paired, StopOk, StartOk;
    HaltedEach(c, j);
  }

  lemma HaltKeepsThreads(c: Coordinator)
    requires ThreadsOk(c) && c.main.InHalt? && Enabled(c, MainStepOf(false, None))
    ensures ThreadsOk(HaltOnce(c, c.main.halt)) && HaltOnce(c, c.main.halt).resource.at == Idle
  {}

  lemma HaltKeepsInv(c: Coordinator, due: bool, poll: Option<ServiceState>)
    requires Inv(c) && Enabled(c, MainStepOf(due, poll)) && c.main.InHalt?
    ensures Inv(MainStep(c, due, poll))
  {
    hide ServiceOk, ThreadsOk, HaltOnce;
    var t, halt := HaltOnce(c, c.main.halt), c.main.halt;
    forall j: Index ensures ServiceOk(t, j) && DownIfExcluded(t, j) {
      assert ServiceOk(c, j);
      HaltKeepsThreads(c);
      if halt == JoinResource || halt.JoinService? || halt.CopyFlags? {
        JoinKeepsService(c, j);
      } else if halt.StopService? || halt.TellService? {
        StopKeepsService(c, j);
      } else {
        EndKeepsService(c, j);
      }
    }
    HaltKeepsThreads(c);
  }

  // ------------------------------------------------------------------- every step

  lemma StartKeepsInv(c: Coordinator, enabled: Flags, cleanup: Flags, serial: bool, exclusive: bool)
    requires Inv(c) && c.main == Ready && c.life == Down
    ensures Inv(Start(c, enabled, cleanup, serial, exclusive))
  {
    hide Paired, StopOk, StartOk;
    var t := Start(c, enabled, cleanup, serial, exclusive);
    forall j: Index ensures ServiceOk(t, j) && DownIfExcluded(t, j) {
      assert ServiceOk(c, j) && (j == 0 || j == 1 || j == 2);
      assert t.services[j] == Configured(c.services[j], enabled[j], cleanup[j], !serial);
    }
  }

  lemma RequestKeepsInv(c: Coordinator, step: Step)
    requires Inv(c) && Enabled(c, step) && (step.TickStep? || step.StopStep? || step.DesireStep?)
    ensures Inv(Apply(c, step))
  {
    hide Paired, StopOk, StartOk;
    var t := Apply(c, step);
    forall j: Index ensures ServiceOk(t, j) && DownIfExcluded(t, j) {
      assert ServiceOk(c, j) && DownIfExcluded(c, j);
    }
  }

  lemma StepKeepsInv(c: Coordinator, step: Step)
    requires Inv(c) && Enabled(c, step)
    ensures Inv(Apply(c, step))
  {
    hide Inv;
    match step
    case StartStep(enabled, cleanup, serial, exclusive) => StartKeepsInv(c, enabled, cleanup, serial, exclusive);
    case MainStepOf(due, poll) =>
      if c.main.InHalt? { HaltKeepsInv(c, due, poll); } else { TickKeepsInv(c, due, poll); }
    case ServiceStepOf(i, ok) => WorkerStepKeepsInv(c, i, ok);
    case ResourceStepOf(ok) => ResourceStepKeepsInv(c, ok);
    case _ => RequestKeepsInv(c, step);
  }

  lemma {:induction false} RunKeepsInv(c: Coordinator, steps: seq<Step>, t: Coordinator)
    requires Inv(c) && Reaches(c, steps, t)
    ensures Inv(t)
    decreases |steps|
  {
    hide Inv;
    if steps != [] {
      StepKeepsInv(c, steps[0]);
      RunKeepsInv(Apply(c, steps[0]), steps[1..], t);
    }
  }

  lemma ReachableInv(c: Coordinator)
    requires Reachable(c)
    ensures Inv(c)
  {
    var steps: seq<Step> :| Reaches(INITIAL, steps, c);
    assert Inv(INITIAL);
    RunKeepsInv(INITIAL, steps, c);
  }
}
