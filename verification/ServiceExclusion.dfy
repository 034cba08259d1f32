/** What the runs of the service threads add up to: how start and stop calls
    pair, and which services a finished transition has left running. */
module ServiceExclusion {
  import opened Options
  import opened ServiceLifecycle
  import opened ServiceRuns
  import M = MediaCoordinator
  import O = Ownership

  // ------------------------------------------------------------------ call pairing

  /** Start and stop calls alternate as they must, and the flag says whether a
      stop is outstanding whenever no thread is between a call and its record. */
  lemma CallsPair(c: Coordinator, i: Index)
    requires Reachable(c)
    ensures Paired(c.services[i].calls)
    ensures FlagBehind(c.resource.at, c.main, i, c.services[i])
            || c.services[i].stopRequired == Owed(c.services[i].calls)
  {
    ReachableInv(c);
    assert ServiceOk(c, i);
  }

  /** start is called only while no stop is outstanding, neither in fact nor by
      the flag. */
  lemma StartsOnlyWhenDown(c: Coordinator, i: Index, ok: bool)
    requires Reachable(c)
    requires c.services[i].worker == Launched || c.resource.at == InStart(i, DoStart)
    ensures !Owed(c.services[i].calls) && !c.services[i].stopRequired
  {
    ReachableInv(c);
    assert ServiceOk(c, i);
  }

  /** Nothing was called, or stop was, or start by one of the two threads at the
      position where it calls start. */
  ghost predicate Called(c: Coordinator, step: Step, i: Index, calls: seq<Call>) {
    var s := c.services[i];
    || calls == s.calls
    || calls == s.calls + [StopCall]
    || (calls == s.calls + [StartCall(true, s.cleanup)] && CallsStart(c, step, i))
    || (calls == s.calls + [StartCall(false, s.cleanup)] && CallsStart(c, step, i))
  }

  predicate CallsStart(c: Coordinator, step: Step, i: Index) {
    || (step.ServiceStepOf? && step.i == i && c.services[i].worker == Launched)
    || (step.ResourceStepOf? && c.resource.at == InStart(i, DoStart))
  }

  lemma StoppingCalls(c: Coordinator, ok: bool, i: Index)
    requires c.resource.at.InStop? && c.resource.at.i == i
    ensures Called(c, ResourceStepOf(ok), i, ResourceStep(c, ok).services[i].calls)
  {
    hide AfterStopping, CallsStart;
  }

  lemma StartingCalls(c: Coordinator, ok: bool, i: Index)
    requires c.resource.at.InStart? && c.resource.at.i == i
    ensures Called(c, ResourceStepOf(ok), i, ResourceStep(c, ok).services[i].calls)
  {
    hide AfterStarting;
  }

  lemma ResourceCalls(c: Coordinator, ok: bool, i: Index)
    requires Enabled(c, ResourceStepOf(ok))
    ensures Called(c, ResourceStepOf(ok), i, ResourceStep(c, ok).services[i].calls)
  {
    hide ResourceStep, Called, Fresh;
    if c.resource.at.InStop? && c.resource.at.i == i {
      StoppingCalls(c, ok, i);
    } else if c.resource.at.InStart? && c.resource.at.i == i {
      StartingCalls(c, ok, i);
    } else {
      ResourceStepFrame(c, ok, i);
      NothingCalled(c, ResourceStepOf(ok), i);
    }
  }

  lemma NothingCalled(c: Coordinator, step: Step, i: Index)
    ensures Called(c, step, i, c.services[i].calls)
  {}

  lemma StopCalls(c: Coordinator, step: Step, i: Index)
    requires c.main.InHalt? && (c.main.halt.StopService? || c.main.halt.TellService?)
    ensures Called(c, step, i, HaltOnce(c, c.main.halt).services[i].calls)
  {
    hide CallsStart;
  }

  lemma OtherHaltCalls(c: Coordinator, i: Index)
    requires c.main.InHalt? && !c.main.halt.StopService? && !c.main.halt.TellService?
    ensures HaltOnce(c, c.main.halt).services[i].calls == c.services[i].calls
  {
    HaltedEach(c, i);
  }

  lemma StartCalls(c: Coordinator, enabled: Flags, cleanup: Flags, serial: bool, exclusive: bool, i: Index)
    ensures Start(c, enabled, cleanup, serial, exclusive).services[i].calls == c.services[i].calls
  {
    assert i == 0 || i == 1 || i == 2;
  }

  /** No step calls anything else, and stop is called only when one is outstanding. */
  lemma CallsComeFrom(c: Coordinator, step: Step, i: Index)
    requires Reachable(c) && Enabled(c, step)
    ensures Called(c, step, i, Apply(c, step).services[i].calls)
    ensures Apply(c, step).services[i].calls == c.services[i].calls + [StopCall] ==> Owed(c.services[i].calls)
  {
    hide Inv, ServiceOk, ResourceStep, HaltOnce, TickOnce, Start;
    var calls, t := c.services[i].calls, Apply(c, step);
    ReachableInv(c);
    StepKeepsInv(c, step);
    StaysPaired(t, i);
    if t.services[i].calls == calls + [StopCall] {
      assert InTurn(t.services[i].calls, |calls|);
      assert |calls| > 0 ==> t.services[i].calls[|calls| - 1] == calls[|calls| - 1];
    }
    match step
    case StartStep(enabled, cleanup, serial, exclusive) => StartCalls(c, enabled, cleanup, serial, exclusive, i);
    case ResourceStepOf(ok) => ResourceCalls(c, ok, i);
    case MainStepOf(due, poll) =>
      if c.main.InHalt? && (c.main.halt.StopService? || c.main.halt.TellService?) {
        StopCalls(c, step, i);
      } else if c.main.InHalt? {
        OtherHaltCalls(c, i);
      } else {
        TickSpares(c, due, poll);
        assert SameCalls(c, t, i);
      }
    case _ =>
  }

  lemma StaysPaired(c: Coordinator, i: Index)
    requires Inv(c)
    ensures Paired(c.services[i].calls)
  {
    assert ServiceOk(c, i);
  }

  /** When protocol_coordinator_stop has returned, nothing is outstanding. */
  lemma StopLeavesNothing(c: Coordinator, i: Index)
    requires Reachable(c) && c.main == Ready && c.life == Down
    ensures !Owed(c.services[i].calls) && !c.services[i].stopRequired
    ensures c.services[i].worker == NoThread && c.resource.at == Idle
  {
    ReachableInv(c);
    assert ServiceOk(c, i);
  }

  /** So then every start that succeeded was followed at once by a stop: no
      other call of this service came between, and no stop came without one. */
  lemma EveryStartIsStopped(c: Coordinator, i: Index, k: nat)
    requires Reachable(c) && c.main == Ready && c.life == Down && k < |c.services[i].calls|
    ensures var calls := c.services[i].calls;
      && (NeedsStop(calls[k]) ==> k + 1 < |calls| && calls[k + 1] == StopCall)
      && (calls[k] == StopCall ==> k > 0 && NeedsStop(calls[k - 1]))
  {
    StopLeavesNothing(c, i);
    CallsPair(c, i);
    var calls := c.services[i].calls;
    assert InTurn(calls, k);
    if k + 1 < |calls| { assert InTurn(calls, k + 1); }
  }

  function Count(calls: seq<Call>, stops: bool): nat {
    if calls == [] then 0
    else
      var last := calls[|calls| - 1];
      Count(calls[..|calls| - 1], stops) + (if (if stops then last == StopCall else NeedsStop(last)) then 1 else 0)
  }

  /** Stops and the starts that need one are equally many, but for the last. */
  lemma {:induction false} PairedCounts(calls: seq<Call>)
    requires Paired(calls)
    ensures Count(calls, false) == Count(calls, true) + (if Owed(calls) then 1 else 0)
  {
    if calls != [] {
      var init := calls[..|calls| - 1];
      forall i | 0 <= i < |init| ensures InTurn(init, i) {
        assert InTurn(calls, i);
      }
      PairedCounts(init);
      assert InTurn(calls, |calls| - 1);
    }
  }

  /** A service worker and the resource worker never exist together. */
  lemma OneKindOfWorker(c: Coordinator)
    requires Reachable(c) && c.resource.at != Idle
    ensures NoWorkers(c.services)
  {
    ReachableInv(c);
  }

  // -------------------------------------------------------------------- exclusion

  /** A transition calls start only for what its target requires, and at that
      moment everything the target excludes is down. */
  lemma ExclusiveStart(c: Coordinator, i: Index, j: Index)
    requires Reachable(c) && c.resource.at == InStart(i, DoStart)
    ensures Required(c.resource.target, i, c.services[i].enabled)
    ensures !Required(c.resource.target, j, c.services[j].enabled) ==> !Owed(c.services[j].calls)
  {
    ReachableInv(c);
    assert ServiceOk(c, j) && DownIfExcluded(c, j);
  }

  function StartedTo(at: Point): nat {
    match at
    case InStart(i, _) => i
    case InStop(i, first, _) => if first then 0 else i
    case AimFinal => 3
    case Resume => 3
    case Finish(completed) => if completed then 3 else 0
    case _ => 0
  }

  /** What the worker has read of service j, or told of it, is still so. */
  ghost predicate Seen(at: Point, j: Index, state: ServiceState) {
    && (at.InStop? && at.i == j && at.stop.GateStop? ==> at.stop.seen == state)
    && (at.InStop? && at.i == j && at.stop.AimStop? ==> at.stop.seen == state)
    && (at.InStart? && at.i == j && at.start.GateStart? ==> at.start.found == state)
    && (at.InStart? && at.i == j && at.start.AimStart? ==> at.start.found == state)
    && (at.InStart? && at.i == j && at.start == EndStart(true) ==> state == Running)
  }

  /** As far as the run has come without a status poll writing in between. */
  ghost predicate StateOk(c: Coordinator, j: Index) {
    var r, s := c.resource, c.services[j];
    !r.overlapped ==>
      && (ClearedFrom(r.at) <= j && Excluded(c, j) ==> s.state == if s.enabled then Stopped else Disabled)
      && (r.success && j < StartedTo(r.at) && !Excluded(c, j) ==> s.state == Running)
      && Seen(r.at, j, s.state)
  }

  ghost predicate StatesOk(c: Coordinator) {
    forall j: Index :: StateOk(c, j)
  }

  lemma StopStepKeepsState(c: Coordinator, ok: bool, i: Index, first: bool, stop: StopAt, j: Index)
    requires Directed(c) && ServiceOk(c, i) && StateOk(c, j) && c.life != Down
    requires c.resource.at == InStop(i, first, stop)
    ensures StateOk(ResourceStep(c, ok), j)
  {
    hide Paired, FlagOk, HaltOk, Waiting, Required;
  }

  lemma StartStepKeepsState(c: Coordinator, ok: bool, i: Index, start: StartAt, j: Index)
    requires Directed(c) && StateOk(c, j) && c.life != Down && c.resource.at == InStart(i, start)
    ensures StateOk(ResourceStep(c, ok), j)
  {
    hide Required;
  }

  lemma OtherStepKeepsState(c: Coordinator, ok: bool, j: Index)
    requires Enabled(c, ResourceStepOf(ok)) && !c.resource.at.InStop? && !c.resource.at.InStart?
    requires StateOk(c, j)
    ensures StateOk(ResourceStep(c, ok), j)
  {
    hide Required;
  }

  lemma ResourceStepKeepsState(c: Coordinator, ok: bool, j: Index)
    requires Inv(c) && StateOk(c, j) && Enabled(c, ResourceStepOf(ok))
    ensures StateOk(ResourceStep(c, ok), j)
  {
    hide StateOk, ResourceStep;
    var at := c.resource.at;
    if at.InStop? {
      assert ServiceOk(c, at.i);
      StopStepKeepsState(c, ok, at.i, at.first, at.stop, j);
    } else if at.InStart? {
      StartStepKeepsState(c, ok, at.i, at.start, j);
    } else {
      OtherStepKeepsState(c, ok, j);
    }
  }

  lemma TickStates(c: Coordinator, due: bool, poll: Option<ServiceState>, j: Index)
    requires !c.main.InHalt? && c.main != InTick(PollReport)
    ensures MainStep(c, due, poll).services[j].state == c.services[j].state
    ensures MainStep(c, due, poll).resource == c.resource || Unsettled(MainStep(c, due, poll).resource.at)
  {
    hide TransitionWanted, NoWorkers;
    if c.main == InTick(ReapServices) {
      ReapsEach(c, due, poll, j);
    }
  }

  predicate Unsettled(at: Point) {
    at == Idle || at == Suspend
  }

  /** The main thread writes a state beside a running transition only by a poll. */
  lemma MainStepKeepsState(c: Coordinator, due: bool, poll: Option<ServiceState>, j: Index)
    requires StateOk(c, j) && ThreadsOk(c) && Enabled(c, MainStepOf(due, poll))
    ensures StateOk(MainStep(c, due, poll), j)
  {
    hide Required, MainStep, ThreadsOk;
    if c.main.InHalt? {
      HaltedIsIdle(c, due, poll);
    } else if c.main == InTick(PollReport) {
      PollOverlaps(c, due, poll, j);
    } else {
      TickStates(c, due, poll, j);
      TickSpares(c, due, poll);
      assert SameCalls(c, MainStep(c, due, poll), j);
    }
  }

  lemma HaltedIsIdle(c: Coordinator, due: bool, poll: Option<ServiceState>)
    requires ThreadsOk(c) && c.main.InHalt? && Enabled(c, MainStepOf(due, poll))
    ensures MainStep(c, due, poll).resource.at == Idle
  {
    hide HaltOnce;
    HaltKeepsThreads(c);
  }

  lemma PollOverlaps(c: Coordinator, due: bool, poll: Option<ServiceState>, j: Index)
    requires StateOk(c, j) && c.main == InTick(PollReport)
    ensures StateOk(MainStep(c, due, poll), j)
  {}

  lemma StepKeepsStates(c: Coordinator, step: Step)
    requires Inv(c) && StatesOk(c) && Enabled(c, step)
    ensures StatesOk(Apply(c, step))
  {
    hide Inv, MainStep, ResourceStep, ServiceOk, Worked;
    forall j: Index ensures StateOk(Apply(c, step), j) {
      assert StateOk(c, j);
      match step
      case StartStep(_, _, _, _) => DownIsIdle(c);
      case MainStepOf(due, poll) => ThreadsStand(c); MainStepKeepsState(c, due, poll, j);
      case ServiceStepOf(i, _) => DownIsIdle(c);
      case ResourceStepOf(ok) => ResourceStepKeepsState(c, ok, j);
      case _ =>
    }
  }

  lemma ThreadsStand(c: Coordinator)
    requires Inv(c)
    ensures ThreadsOk(c)
  {}

  lemma DownIsIdle(c: Coordinator)
    requires Inv(c)
    ensures c.life == Down || !NoWorkers(c.services) ==> c.resource.at == Idle
  {}

  lemma {:induction false} RunKeepsStates(c: Coordinator, steps: seq<Step>, t: Coordinator)
    requires Inv(c) && StatesOk(c) && Reaches(c, steps, t)
    ensures StatesOk(t)
    decreases |steps|
  {
    hide Inv, StatesOk;
    if steps != [] {
      StepKeepsInv(c, steps[0]);
      StepKeepsStates(c, steps[0]);
      RunKeepsStates(Apply(c, steps[0]), steps[1..], t);
    }
  }

  lemma ReachableStates(c: Coordinator)
    requires Reachable(c)
    ensures Inv(c) && StatesOk(c)
  {
    var steps: seq<Step> :| Reaches(INITIAL, steps, c);
    assert Inv(INITIAL) && StatesOk(INITIAL);
    RunKeepsStates(INITIAL, steps, c);
    ReachableInv(c);
  }

  /** When a transition completes successfully and no AirPlay status poll wrote a
      state in the meantime, the services are exactly as its target wants them,
      and outside HOME mode DLNA and AirPlay do not both run. */
  lemma SuccessMatchesTarget(c: Coordinator, ok: bool)
    requires Reachable(c)
    requires c.resource.at == Finish(true) && c.resource.success && !c.resource.overlapped
    ensures var t := ResourceStep(c, ok);
      && t.goal.applied == t.resource.target && !t.goal.failed && ServicesMatch(t.services, t.goal.applied)
      && (t.goal.applied != M.Home ==> t.services[1].state != Running || t.services[2].state != Running)
      && forall owner: O.Owner :: M.ModeForOwner(owner) == t.goal.applied ==> Serves(t.services, owner)
  {
    forall owner: O.Owner { MatchServes(c.services, owner); }
    ReachableStates(c);
    assert StateOk(c, 0) && StateOk(c, 1) && StateOk(c, 2);
    assert ServiceOk(c, 0) && ServiceOk(c, 1) && ServiceOk(c, 2);
  }

  /** Even beside polls and after failed starts, a transition to another mode
      than HOME that got past its first loop has DLNA or AirPlay down. */
  lemma NeverBothUp(c: Coordinator)
    requires Reachable(c) && c.resource.target != M.Home
    requires c.resource.at.InStart? || c.resource.at == AimFinal || c.resource.at == Resume
             || c.resource.at == Finish(true)
    ensures !Owed(c.services[1].calls) || !Owed(c.services[2].calls)
  {
    ReachableInv(c);
    assert ServiceOk(c, 1) && ServiceOk(c, 2) && DownIfExcluded(c, 1) && DownIfExcluded(c, 2);
  }
}
