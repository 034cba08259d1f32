/** That the service machine gets somewhere: with nobody interfering, the resource
    worker's steps add up to the loops of ResourceWorker, and one tick brings the
    services in line with the mode desired. */
module ServiceConvergence {
  import opened Options
  import opened ServiceLifecycle
  import opened ServiceRuns
  import opened ResourceWorker
  import M = MediaCoordinator
  import O = Ownership
  import T = TerminalRelease

  /** Steps of the main thread, of start workers and of the resource worker, with no
      poll answered. */
  predicate Smooth(step: Step) {
    || step.ResourceStepOf? || step == TickStep || step == MainStepOf(true, None)
    || (step.ServiceStepOf? && step.ok)
  }

  ghost predicate SmoothRun(c: Coordinator, steps: seq<Step>, t: Coordinator) {
    Reaches(c, steps, t) && forall k :: 0 <= k < |steps| ==> Smooth(steps[k])
  }

  ghost predicate Leads(c: Coordinator, t: Coordinator) {
    exists steps: seq<Step> :: SmoothRun(c, steps, t)
  }

  lemma Stays(c: Coordinator)
    ensures Leads(c, c)
  {
    assert SmoothRun(c, [], c);
  }

  lemma {:induction false} ReachesOneMore(c: Coordinator, steps: seq<Step>, t: Coordinator, step: Step)
    requires Reaches(c, steps, t) && Enabled(t, step)
    ensures Reaches(c, steps + [step], Apply(t, step))
    decreases |steps|
  {
    hide Enabled, Apply;
    if steps == [] {
      assert (steps + [step])[1..] == [];
    } else {
      ReachesOneMore(Apply(c, steps[0]), steps[1..], t, step);
      assert (steps + [step])[1..] == steps[1..] + [step];
    }
  }

  lemma Goes(c: Coordinator, t: Coordinator, step: Step)
    requires Leads(c, t) && Enabled(t, step) && Smooth(step)
    ensures Leads(c, Apply(t, step))
  {
    hide Enabled, Apply;
    var steps: seq<Step> :| SmoothRun(c, steps, t);
    ReachesOneMore(c, steps, t, step);
    assert SmoothRun(c, steps + [step], Apply(t, step));
  }

  lemma Works(c: Coordinator, t: Coordinator, ok: bool) returns (u: Coordinator)
    requires Leads(c, t) && t.resource.at != Idle && t.resource.at != Returned
    ensures Leads(c, u) && u == ResourceStep(t, ok)
  {
    hide ResourceStep, Leads;
    Goes(c, t, ResourceStepOf(ok));
    u := ResourceStep(t, ok);
  }

  /** The worker at a position of its transition, which is still wanted. */
  predicate Aiming(c: Coordinator, at: Point) {
    c.life == Up && Aimed(c) && c.resource.at == at
  }

  function Moved(c: Coordinator, i: Index, s: Service, at: Point): Coordinator {
    At(SetService(c, i, s), at)
  }

  // ------------------------------------------------------------- one turn of a loop

  /** From asking whether a stop is outstanding to the report. */
  lemma StopsService(c0: Coordinator, c: Coordinator, i: Index, first: bool) returns (t: Coordinator)
    requires Leads(c0, c) && Aiming(c, InStop(i, first, AskStop))
    ensures Leads(c0, t)
    ensures t == Moved(c, i, BroughtDown(c.services[i]), if first then AfterStop(i) else InStart(i, GateCall))
  {
    hide Leads;
    t := Works(c0, c, true);
    t := Works(c0, t, true);
    t := Works(c0, t, true);
    t := Works(c0, t, true);
  }

  lemma StopTurnRuns(c0: Coordinator, c: Coordinator, i: Index) returns (t: Coordinator)
    requires Leads(c0, c) && Aiming(c, InStop(i, true, ScanStop))
    ensures Leads(c0, t)
    ensures t == Moved(c, i, StopTurn(c.resource.target, i, c.services[i]), AfterStop(i))
  {
    hide Leads, BroughtDown;
    t := Works(c0, c, true);
    t := Works(c0, t, true);
    t := Works(c0, t, true);
    assert t == Moved(c, i, c.services[i], t.resource.at);
    if StopsIt(c.resource.target, i, c.services[i]) {
      t := StopsService(c0, t, i, true);
    }
  }

  /** From the test before the call to the end of the turn; a start that fails
      fails the transition. */
  lemma StartsService(c0: Coordinator, c: Coordinator, i: Index, ok: bool) returns (t: Coordinator)
    requires Leads(c0, c) && Aiming(c, InStart(i, GateCall)) && !c.services[i].stopRequired
    ensures Leads(c0, t)
    ensures t == Moved(if ok then c else Fail(c), i, BroughtUp(c.services[i], ok), AfterStart(i))
  {
    hide Leads;
    t := Calls(c0, c, i, ok);
    t := Marks(c0, t, i, ok);
  }

  lemma Calls(c0: Coordinator, c: Coordinator, i: Index, ok: bool) returns (t: Coordinator)
    requires Leads(c0, c) && Aiming(c, InStart(i, GateCall))
    ensures Leads(c0, t)
    ensures var s := c.services[i];
      t == Moved(c, i, Log(s.(state := Starting), StartCall(ok, s.cleanup)), InStart(i, MarkStart(ok)))
  {
    hide Leads;
    t := Works(c0, c, ok);
    t := Works(c0, t, ok);
    t := Works(c0, t, ok);
  }

  lemma Marks(c0: Coordinator, c: Coordinator, i: Index, ok: bool) returns (t: Coordinator)
    requires Leads(c0, c) && Aiming(c, InStart(i, MarkStart(ok)))
    ensures Leads(c0, t)
    ensures var s := c.services[i];
      t == Moved(if ok then c else Fail(c), i,
                 s.(stopRequired := ok || s.cleanup, state := if ok then Running else Failed), AfterStart(i))
  {
    hide Leads;
    t := Works(c0, c, ok);
    t := Works(c0, t, ok);
    t := Works(c0, t, ok);
  }

  lemma StartTurnRuns(c0: Coordinator, c: Coordinator, i: Index, ok: bool) returns (t: Coordinator)
    requires Leads(c0, c) && Aiming(c, InStart(i, ScanStart))
    ensures Leads(c0, t)
    ensures var s, target := c.services[i], c.resource.target;
      t == Moved(if StartsIt(target, i, s) && !ok then Fail(c) else c, i, StartTurn(target, i, s, ok), AfterStart(i))
  {
    hide Leads, BroughtUp, BroughtDown;
    t := Looks(c0, c, i, ok);
    if StartsIt(c.resource.target, i, c.services[i]) {
      t := Works(c0, t, ok);
      var s := c.services[i];
      if s.stopRequired {
        t := StopsService(c0, t, i, false);
        UpAfterDown(s, ok);
      }
      t := StartsService(c0, t, i, ok);
    }
  }

  /** The reads before it. */
  lemma Looks(c0: Coordinator, c: Coordinator, i: Index, ok: bool) returns (t: Coordinator)
    requires Leads(c0, c) && Aiming(c, InStart(i, ScanStart))
    ensures Leads(c0, t)
    ensures var s := c.services[i];
      t == Moved(c, i, s, if StartsIt(c.resource.target, i, s) then InStart(i, AskStart) else AfterStart(i))
  {
    hide Leads;
    t := Works(c0, c, ok);
    t := Works(c0, t, ok);
    t := Works(c0, t, ok);
  }

  lemma UpAfterDown(s: Service, ok: bool)
    requires s.stopRequired
    ensures !BroughtDown(s).stopRequired && BroughtUp(BroughtDown(s), ok) == BroughtUp(s, ok)
  {}

  // ------------------------------------------------------------- a whole transition

  /** Every start that the transition makes succeeds. */
  ghost predicate AllStart(target: M.Mode, services: Services, starts: Index -> bool) {
    forall i: Index :: StartsIt(target, i, services[i]) ==> starts(i)
  }

  lemma StopLoopRuns(c0: Coordinator, c: Coordinator) returns (t: Coordinator)
    requires Leads(c0, c) && Aiming(c, InStop(2, true, ScanStop))
    ensures Leads(c0, t) && Aiming(t, InStart(0, ScanStart))
    ensures forall i: Index :: t.services[i] == StopTurn(c.resource.target, i, c.services[i])
    ensures t == c.(services := t.services, resource := c.resource.(at := InStart(0, ScanStart)))
  {
    hide Leads, StopTurn;
    t := StopTurnRuns(c0, c, 2);
    t := StopTurnRuns(c0, t, 1);
    t := StopTurnRuns(c0, t, 0);
  }

  predicate Answered(target: M.Mode, i: Index, s: Service, ok: bool) {
    StartsIt(target, i, s) ==> ok
  }

  /** The worker after a turn of the second loop. */
  function Turned(c: Coordinator, i: Index, ok: bool): Coordinator {
    var s, target := c.services[i], c.resource.target;
    c.(services := c.services[i := StartTurn(target, i, s, ok)],
       resource := c.resource.(at := AfterStart(i), success := c.resource.success && Answered(target, i, s, ok)))
  }

  lemma TurnRuns(c0: Coordinator, c: Coordinator, i: Index, ok: bool) returns (t: Coordinator)
    requires Leads(c0, c) && Aiming(c, InStart(i, ScanStart))
    ensures Leads(c0, t) && t == Turned(c, i, ok)
  {
    hide Leads, StartTurn, StartsIt;
    t := StartTurnRuns(c0, c, i, ok);
  }

  lemma StartLoopRuns(c0: Coordinator, c: Coordinator, starts: Index -> bool) returns (t: Coordinator)
    requires Leads(c0, c) && Aiming(c, InStart(0, ScanStart))
    ensures Leads(c0, t) && Aiming(t, AimFinal)
    ensures forall i: Index :: t.services[i] == StartTurn(c.resource.target, i, c.services[i], starts(i))
    ensures t == c.(services := t.services, resource := c.resource.(at := AimFinal, success := t.resource.success))
    ensures t.resource.success <==> c.resource.success && AllStart(c.resource.target, c.services, starts)
  {
    hide Leads, StartTurn, Answered, StartsIt, AllStart;
    t := TurnRuns(c0, c, 0, starts(0));
    t := TurnRuns(c0, t, 1, starts(1));
    t := TurnRuns(c0, t, 2, starts(2));
    AllAnswered(c.resource.target, c.services, starts);
  }

  lemma AllAnswered(target: M.Mode, services: Services, starts: Index -> bool)
    ensures AllStart(target, services, starts) <==>
      Answered(target, 0, services[0], starts(0)) && Answered(target, 1, services[1], starts(1))
      && Answered(target, 2, services[2], starts(2))
  {
    hide StartsIt;
  }

  /** Both loops of the worker, service by service. */
  lemma LoopsRun(c0: Coordinator, c: Coordinator, starts: Index -> bool) returns (t: Coordinator)
    requires Leads(c0, c) && Aiming(c, InStop(2, true, ScanStop))
    ensures Leads(c0, t) && Aiming(t, AimFinal)
    ensures forall i: Index :: t.services[i] == AfterTransition(c.resource.target, i, c.services[i], starts(i))
    ensures t == c.(services := t.services, resource := c.resource.(at := AimFinal, success := t.resource.success))
    ensures t.resource.success <==> c.resource.success && AllStart(c.resource.target, c.services, starts)
  {
    var u := StopLoopRuns(c0, c);
    forall i: Index { StopsNotStarted(c.resource.target, i, c.services[i]); }
    hide Leads, StopTurn, StartTurn, StartsIt;
    t := StartLoopRuns(c0, u, starts);
  }

  lemma StopsNotStarted(target: M.Mode, i: Index, s: Service)
    ensures StartsIt(target, i, StopTurn(target, i, s)) <==> StartsIt(target, i, s)
  {}

  /** Undisturbed, whatever the calls answer, the steps of the resource worker do to
      each service what the loops do, and give the same result: success exactly if
      all starts and the background callback succeed, and only then a mode applied. */
  lemma TransitionRuns(c0: Coordinator, c: Coordinator, starts: Index -> bool, suspendOk: bool, resumeOk: bool)
    returns (t: Coordinator)
    requires Leads(c0, c) && Aiming(c, Suspend) && c.resource.success
    ensures Leads(c0, t) && t.resource.at == Returned && t.life == Up && t.main == c.main
    ensures forall i: Index :: t.services[i] == AfterTransition(c.resource.target, i, c.services[i], starts(i))
    ensures var target := c.resource.target;
      var result := (if target == M.Home then resumeOk else suspendOk) && AllStart(target, c.services, starts);
      t.goal == if result then Goal(c.goal.desired, target, false) else c.goal.(failed := true)
  {
    hide Leads, AfterTransition, AllStart;
    t := Works(c0, c, suspendOk);
    t := LoopsRun(c0, t, starts);
    t := Works(c0, t, true);
    t := Works(c0, t, resumeOk);
    t := Works(c0, t, true);
  }

  /** A transition whose target is no longer desired, or that finds the coordinator
      stopping, ends at its next test without a result. */
  lemma SupersededEnds(c0: Coordinator, c: Coordinator) returns (t: Coordinator)
    requires Leads(c0, c)
    requires (!Aimed(c) && c.resource.at.InStop? && c.resource.at.stop.AimStop?)
             || (!Aimed(c) && c.resource.at.InStart? && c.resource.at.start.AimStart?)
             || (!Aimed(c) && c.resource.at == AimFinal)
             || (c.life != Up && c.resource.at.InStop? && c.resource.at.stop.GateStop?)
             || (c.life != Up && c.resource.at.InStart? && c.resource.at.start.GateStart?)
    ensures Leads(c0, t) && t == c.(resource := c.resource.(at := Returned))
  {
    hide Leads;
    t := Works(c0, c, true);
    assert t.services == c.services;
    t := Works(c0, t, true);
  }

  // ------------------------------------------------------------------------ a tick

  /** Between two ticks, when startup is over and no worker is at work. */
  ghost predicate AtRest(c: Coordinator) {
    && c.main == Ready && c.life == Up && c.exclusive && NoWorkers(c.services) && (c.serial ==> c.next == 3)
    && (c.resource.at == Idle || c.resource.at == Returned)
    && forall i: Index :: c.services[i].enabled <==> c.services[i].state != Disabled
  }

  /** What is desired is applied and in place. */
  predicate InLine(c: Coordinator) {
    c.goal.applied == c.goal.desired && ServicesMatch(c.services, c.goal.desired)
  }

  lemma TickStarts(c: Coordinator) returns (t: Coordinator)
    requires AtRest(c)
    ensures Leads(c, t)
    ensures t == c.(main := InTick(Decide), resource := if c.resource.at == Returned then t.resource else c.resource)
    ensures t.resource == c.resource.(at := Idle)
  {
    Stays(c);
    hide Leads;
    Goes(c, c, TickStep);
    t := Apply(c, TickStep);
    Goes(c, t, MainStepOf(true, None));
    t := Apply(t, MainStepOf(true, None));
    assert t.services == c.services;
    Goes(c, t, MainStepOf(true, None));
    t := Apply(t, MainStepOf(true, None));
    Goes(c, t, MainStepOf(true, None));
    t := Apply(t, MainStepOf(true, None));
  }

  /** The end of the tick, with or without a status poll. */
  lemma TickEnds(c0: Coordinator, c: Coordinator) returns (t: Coordinator)
    requires Leads(c0, c) && c.main == InTick(Poll)
    ensures Leads(c0, t) && t == c.(main := Ready)
  {
    hide Leads;
    Goes(c0, c, MainStepOf(true, None));
    t := Apply(c, MainStepOf(true, None));
    if t.main != Ready {
      Goes(c0, t, MainStepOf(true, None));
      t := Apply(t, MainStepOf(true, None));
    }
  }

  lemma TransitionLands(target: M.Mode, before: Services, after: Services)
    requires forall i: Index :: before[i].enabled <==> before[i].state != Disabled
    requires forall i: Index :: after[i] == AfterTransition(target, i, before[i], true)
    ensures ServicesMatch(after, target)
  {
    var starts: Index -> bool := (i: Index) => true;
    TransitionMatches(target, before, starts);
    assert Matches(target, 0, after[0]) && Matches(target, 1, after[1]) && Matches(target, 2, after[2]);
  }

  /** From rest, one tick and the worker it launches, if every call succeeds and
      nobody interferes, bring the services in line with the mode desired: exactly
      those of its owner are up. */
  lemma TickConverges(c: Coordinator) returns (t: Coordinator)
    requires AtRest(c)
    ensures Leads(c, t) && t.main == Ready && t.goal.desired == c.goal.desired && InLine(t)
    ensures t.resource.at == Idle || t.resource.at == Returned
    ensures InLine(c) ==> t.services == c.services && t.goal == c.goal
    ensures !InLine(c) ==> !t.goal.failed
    ensures T.ResourceReady(t) || t.goal.failed
    ensures forall owner: O.Owner :: M.ModeForOwner(owner) == c.goal.desired ==> Serves(t.services, owner)
  {
    assert NoWorkers(c.services);
    hide Leads, Serves, ServicesMatch, AfterTransition;
    t := TickStarts(c);
    Goes(c, t, MainStepOf(true, None));
    t := Apply(t, MainStepOf(true, None));
    if InLine(c) {
      t := TickEnds(c, t);
    } else {
      Goes(c, t, MainStepOf(true, None));
      t := Apply(t, MainStepOf(true, None));
      t := TickEnds(c, t);
      t := TransitionRuns(c, t, (i: Index) => true, true, true);
      TransitionLands(c.goal.desired, c.services, t.services);
    }
    forall owner: O.Owner { MatchServes(t.services, owner); }
  }

  /** A transition under way has not failed yet. */
  predicate Hopeful(c: Coordinator) {
    c.goal.failed ==> c.resource.at == Idle || c.resource.at == Returned
  }

  lemma ResourceKeepsHope(c: Coordinator, ok: bool)
    requires Hopeful(c) && c.resource.at != Idle && c.resource.at != Returned
    ensures Hopeful(ResourceStep(c, ok))
  {
    hide StopEffect, StartEffect, AfterStopping, AfterStarting;
  }

  lemma TickKeepsHope(c: Coordinator, tick: TickAt, due: bool, poll: Option<ServiceState>)
    requires Hopeful(c)
    ensures Hopeful(TickOnce(c, tick, due, poll))
  {
    hide FirstFrom, TransitionWanted, Reaped, SetState, NoWorkers;
  }

  lemma StepKeepsHope(c: Coordinator, step: Step)
    requires Hopeful(c) && Enabled(c, step)
    ensures Hopeful(Apply(c, step))
  {
    hide ResourceStep, TickOnce, FirstFrom, Worked, Configured, Halted, Forgotten, SetState;
    match step
    case ResourceStepOf(ok) => ResourceKeepsHope(c, ok);
    case MainStepOf(due, poll) =>
      if c.main.InTick? { TickKeepsHope(c, c.main.tick, due, poll); }
    case _ =>
  }

  lemma {:induction false} RunKeepsHope(c: Coordinator, steps: seq<Step>, t: Coordinator)
    requires Hopeful(c) && Reaches(c, steps, t)
    ensures Hopeful(t)
    decreases |steps|
  {
    hide Hopeful, Enabled, Apply;
    if steps != [] {
      StepKeepsHope(c, steps[0]);
      RunKeepsHope(Apply(c, steps[0]), steps[1..], t);
    }
  }

  /** In every run a launch clears the failure of the transition before it, so
      nobody who waits for this one is told of that. */
  lemma FailureIsOfTheLast(c: Coordinator)
    requires Reachable(c) && c.goal.failed
    ensures c.resource.at == Idle || c.resource.at == Returned
  {
    var steps: seq<Step> :| Reaches(INITIAL, steps, c);
    RunKeepsHope(INITIAL, steps, c);
  }

  // -------------------------------------------------------------------- the startup

  /** During startup: up to `next` every enabled service is running or its worker
      has been launched; in a serial startup the later ones still wait. */
  predicate Started(s: Service, reached: bool) {
    if !s.enabled then s.state == Disabled && s.worker == NoThread
    else if !reached then s.state == Starting && s.worker == NoThread
    else (s.state == Running && (s.worker == NoThread || s.worker == Done))
         || (s.state == Starting && s.worker == Launched)
  }

  predicate Startup(c: Coordinator) {
    && c.main == Ready && c.life == Up && c.goal == Goal(M.Home, M.Home, false) && c.resource.at == Idle
    && c.next <= 3
    && Started(c.services[0], !c.serial || c.next > 0)
    && Started(c.services[1], !c.serial || c.next > 1)
    && Started(c.services[2], !c.serial || c.next > 2)
  }

  lemma MainGoes(c0: Coordinator, c: Coordinator) returns (t: Coordinator)
    requires Leads(c0, c) && Enabled(c, MainStepOf(true, None))
    ensures Leads(c0, t) && t == MainStep(c, true, None)
  {
    hide Leads, MainStep;
    Goes(c0, c, MainStepOf(true, None));
    t := MainStep(c, true, None);
  }

  lemma WorkerGoes(c0: Coordinator, c: Coordinator, i: Index) returns (t: Coordinator)
    requires Leads(c0, c) && c.services[i].worker != NoThread && c.services[i].worker != Done
    ensures Leads(c0, t) && t == SetService(c, i, Worked(c.services[i], c.life, true))
  {
    hide Leads, Worked;
    Goes(c0, c, ServiceStepOf(i, true));
    t := SetService(c, i, Worked(c.services[i], c.life, true));
  }

  /** A start worker, once launched, starts its service. */
  lemma WorkerRuns(c0: Coordinator, c: Coordinator, i: Index) returns (t: Coordinator)
    requires Leads(c0, c) && c.life == Up && c.services[i].worker == Launched
    ensures Leads(c0, t)
    ensures var s := c.services[i];
      t == SetService(c, i, s.(worker := Done, state := Running, stopRequired := true,
                               calls := s.calls + [StartCall(true, s.cleanup)]))
  {
    hide Leads;
    t := WorkerGoes(c0, c, i);
    t := WorkerGoes(c0, t, i);
    t := WorkerGoes(c0, t, i);
    t := WorkerGoes(c0, t, i);
  }

  predicate Quiet(s: Service) {
    s.worker == NoThread || s.worker == Done
  }

  lemma MaybeRuns(c0: Coordinator, c: Coordinator, i: Index) returns (t: Coordinator)
    requires Leads(c0, c) && Startup(c)
    ensures Leads(c0, t) && Startup(t) && Quiet(t.services[i])
    ensures t == c.(services := c.services[i := t.services[i]]) && t.services[i].enabled == c.services[i].enabled
  {
    hide Leads;
    t := c;
    if c.services[i].worker == Launched { t := WorkerRuns(c0, c, i); }
  }

  /** All workers launched so far run to their end. */
  lemma WorkersRun(c0: Coordinator, c: Coordinator) returns (t: Coordinator)
    requires Leads(c0, c) && Startup(c)
    ensures Leads(c0, t) && Startup(t) && t == c.(services := t.services)
    ensures forall i: Index :: Quiet(t.services[i]) && t.services[i].enabled == c.services[i].enabled
  {
    hide Leads, Startup;
    t := MaybeRuns(c0, c, 0);
    t := MaybeRuns(c0, t, 1);
    t := MaybeRuns(c0, t, 2);
  }

  /** A tick of the startup joins the workers that are done and launches the next
      one of a serial startup. */
  lemma StartupTick(c0: Coordinator, c: Coordinator) returns (t: Coordinator)
    requires Leads(c0, c) && Startup(c) && forall i: Index :: Quiet(c.services[i])
    ensures Leads(c0, t) && Startup(t)
    ensures t == c.(services := t.services, next := t.next)
    ensures forall i: Index :: t.services[i].enabled == c.services[i].enabled
    ensures c.serial ==> t.next == 3 || t.next > c.next
    ensures !c.serial || c.next >= 3 ==> NoWorkers(t.services)
  {
    hide Leads;
    Goes(c0, c, TickStep);
    t := Apply(c, TickStep);
    t := MainGoes(c0, t);
    t := MainGoes(c0, t);
    assert t.main == InTick(SerialTick) && Joined(c, t);
    var joined := t;
    t := MainGoes(c0, t);
    LaunchesNext(c, joined, t);
    hide Joined;
    NotWantedAlone(c, t);
    t := Resumes(c0, t);
    t := TickEnds(c0, t);
  }

  /** Past the point where a transition might be launched. */
  lemma Resumes(c0: Coordinator, c: Coordinator) returns (t: Coordinator)
    requires Leads(c0, c) && c.main == InTick(Decide) && (TransitionWanted(c, true) ==> !NoWorkers(c.services))
    ensures Leads(c0, t) && t == c.(main := InTick(Poll))
  {
    hide Leads, TransitionWanted;
    t := MainGoes(c0, c);
    if t.main != InTick(Poll) {
      t := MainGoes(c0, t);
    }
  }

  lemma LaunchesNext(c: Coordinator, joined: Coordinator, t: Coordinator)
    requires Startup(c) && forall i: Index :: Quiet(c.services[i])
    requires joined.main == InTick(SerialTick) && Joined(c, joined) && t == MainStep(joined, true, None)
    ensures t.main == InTick(Decide) && NextLaunched(c, t)
  {
    assert Quiet(c.services[0]) && Quiet(c.services[1]) && Quiet(c.services[2]);
    assert NoWorkers(joined.services) && Startup(joined.(main := Ready));
    hide Reaped, Quiet;
    if c.serial {
      LaunchIsNext(joined.(main := Ready));
    } else {
      AllUp(joined.(main := Ready));
    }
  }

  /** A serial launch reaches the next enabled service, or the end. */
  lemma LaunchIsNext(c: Coordinator)
    requires Startup(c) && NoWorkers(c.services) && c.serial
    ensures var t := LaunchSerial(c);
      && Startup(t) && t == c.(services := t.services, next := t.next)
      && t.services[0].enabled == c.services[0].enabled && t.services[1].enabled == c.services[1].enabled
      && t.services[2].enabled == c.services[2].enabled
      && (t.next == 3 || t.next > c.next) && (c.next >= 3 ==> NoWorkers(t.services))
      && (NoWorkers(t.services) ==> ServicesMatch(t.services, M.Home))
  {}

  predicate Joined(c: Coordinator, t: Coordinator) {
    t == c.(services := [Reaped(c.services[0]), Reaped(c.services[1]), Reaped(c.services[2])], main := t.main)
  }

  /** After the serial part of the tick. */
  predicate NextLaunched(c: Coordinator, t: Coordinator) {
    && t == c.(services := t.services, next := t.next, main := t.main)
    && Startup(t.(main := Ready))
    && t.services[0].enabled == c.services[0].enabled && t.services[1].enabled == c.services[1].enabled
    && t.services[2].enabled == c.services[2].enabled
    && (c.serial ==> t.next == 3 || t.next > c.next)
    && (!c.serial || c.next >= 3 ==> NoWorkers(t.services))
    && (NoWorkers(t.services) ==> ServicesMatch(t.services, M.Home))
  }

  /** No transition is launched: a service that is not running has its worker. */
  lemma NotWantedAlone(c: Coordinator, t: Coordinator)
    requires Startup(c) && NextLaunched(c, t) && t.main == InTick(Decide)
    ensures TransitionWanted(t, true) ==> !NoWorkers(t.services)
  {}

  /** From the start, serial or not: if every start succeeds, a few ticks have all
      enabled services running and no worker left. */
  lemma StartupCompletes(c: Coordinator) returns (t: Coordinator)
    requires Startup(c)
    ensures Leads(c, t) && Startup(t) && NoWorkers(t.services) && (t.serial ==> t.next == 3)
    ensures forall i: Index ::
      t.services[i].enabled == c.services[i].enabled
      && t.services[i].state == if c.services[i].enabled then Running else Disabled
    ensures t.exclusive == c.exclusive && (t.exclusive ==> AtRest(t) && InLine(t))
  {
    Stays(c);
    hide Leads, Startup;
    t := WorkersRun(c, c);
    t := StartupTick(c, t);
    t := WorkersRun(c, t);
    t := StartupTick(c, t);
    t := WorkersRun(c, t);
    t := StartupTick(c, t);
    t := WorkersRun(c, t);
    t := StartupTick(c, t);
    AllUp(t);
  }

  lemma AllUp(c: Coordinator)
    requires Startup(c) && NoWorkers(c.services) && (c.serial ==> c.next >= 3)
    ensures forall i: Index :: c.services[i].state == if c.services[i].enabled then Running else Disabled
    ensures ServicesMatch(c.services, M.Home)
    ensures c.main == Ready && c.life == Up && c.resource.at == Idle && c.goal == Goal(M.Home, M.Home, false)
    ensures c.next <= 3
  {}

  /** A start does lead there: what is enabled is launched, in a serial startup by
      one step of the starting thread. */
  lemma StartStarts(c: Coordinator, enabled: Flags, cleanup: Flags, serial: bool, exclusive: bool)
    returns (t: Coordinator)
    requires c.resource.at == Idle && c.main == Ready && c.life == Down
    ensures Leads(Start(c, enabled, cleanup, serial, exclusive), t) && Startup(t)
    ensures forall i: Index :: t.services[i].enabled == enabled[i]
    ensures t.exclusive == exclusive && t.serial == serial
  {
    t := Start(c, enabled, cleanup, serial, exclusive);
    Stays(t);
    hide Leads;
    if serial {
      assert NoWorkers(t.services) && Startup(t.(main := Ready));
      LaunchIsNext(t.(main := Ready));
      t := MainGoes(t, t);
    }
  }

  // ----------------------------------------------------------------------- the stop

  /** From rest a stop runs to its end: everything outstanding is stopped, nothing
      is enabled any more, and the coordinator is as it was before its first start. */
  lemma StopCompletes(c: Coordinator) returns (t: Coordinator)
    requires AtRest(c) && forall i: Index :: c.services[i].stopRequired ==> c.services[i].enabled
    ensures Leads(Apply(c, StopStep), t) && t == INITIAL.(services := t.services) && NoWorkers(t.services)
    ensures forall i: Index ::
      && !t.services[i].enabled && !t.services[i].stopRequired
      && t.services[i].state == (if c.services[i].state == Disabled then Disabled else Stopped)
      && t.services[i].calls == c.services[i].calls + if c.services[i].stopRequired then [StopCall] else []
  {
    var c0 := Apply(c, StopStep);
    hide Leads, Apply;
    t := StopJoins(c);
    t := HaltsAll(c0, t, c.services);
    t := StopEnds(c0, t);
    assert NoWorkers(c.services);
  }

  lemma HaltsAll(c0: Coordinator, c: Coordinator, services: Services) returns (t: Coordinator)
    requires Leads(c0, c) && c.services == services && c.life == Stopping
    requires c.main == InHalt(StopService(
      2, [services[0].stopRequired, services[1].stopRequired, services[2].stopRequired]))
    ensures Leads(c0, t) && t.main == InHalt(FinishStop)
    ensures forall i: Index :: t.services[i] == HaltedNow(services[i])
  {
    hide Leads;
    t := HaltsService(c0, c, 2);
    t := HaltsService(c0, t, 1);
    t := HaltsService(c0, t, 0);
  }

  /** What the stopping loop does to a service. */
  function HaltedNow(s: Service): Service {
    if s.stopRequired then s.(calls := s.calls + [StopCall], state := Stopped) else s
  }

  lemma StopEnds(c0: Coordinator, c: Coordinator) returns (t: Coordinator)
    requires Leads(c0, c) && c.main == InHalt(FinishStop)
    ensures Leads(c0, t) && t == INITIAL.(services := t.services)
    ensures forall i: Index :: t.services[i] == Forgotten(Halted(c.services[i]))
  {
    hide Leads, Forgotten, Halted;
    t := MainGoes(c0, c);
    t := MainGoes(c0, t);
  }

  /** Nobody is left to join, and the flags are copied. */
  lemma StopJoins(c: Coordinator) returns (t: Coordinator)
    requires AtRest(c)
    ensures Leads(Apply(c, StopStep), t) && t.services == c.services && t.life == Stopping
    ensures t.main == InHalt(StopService(
      2, [c.services[0].stopRequired, c.services[1].stopRequired, c.services[2].stopRequired]))
  {
    var c0 := Apply(c, StopStep);
    Stays(c0);
    hide Leads;
    assert c0.services == c.services && c0.life == Stopping;
    t := MainGoes(c0, c0);
    assert t.services == c.services;
    hide Apply, AtRest;
    t := JoinsService(c0, t, 0);
    t := JoinsService(c0, t, 1);
    t := JoinsService(c0, t, 2);
    t := MainGoes(c0, t);
  }

  lemma JoinsService(c0: Coordinator, c: Coordinator, i: Index) returns (t: Coordinator)
    requires Leads(c0, c) && c.main == InHalt(JoinService(i)) && NoWorkers(c.services)
    ensures Leads(c0, t) && t == c.(main := InHalt(if i == 2 then CopyFlags else JoinService(i + 1)))
  {
    hide Leads;
    t := MainGoes(c0, c);
    assert t.services == c.services;
  }

  lemma HaltsService(c0: Coordinator, c: Coordinator, i: Index) returns (t: Coordinator)
    requires Leads(c0, c) && c.main.InHalt? && c.main.halt.StopService? && c.main.halt.i == i && c.life == Stopping
    ensures Leads(c0, t)
    ensures var s, required := c.services[i], c.main.halt.required;
      t == SetService(c, i, if required[i] then s.(calls := s.calls + [StopCall], state := Stopped) else s)
             .(main := InHalt(if i == 0 then FinishStop else StopService(i - 1, required)))
  {
    hide Leads;
    t := MainGoes(c0, c);
    if c.main.halt.required[i] {
      t := MainGoes(c0, t);
    }
  }
}
