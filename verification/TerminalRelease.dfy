/** Media half and resource half of the coordinator (source/app/protocol_coordinator.c)
    as the one object they are: a playback observation reads, under the same lock,
    whether the services stand as the desired mode wants them. Here anybody may
    observe, claim and set the mode at any time, and a tick is that of the resource
    half; the order that the program's threads keep is in MainLoop. */
module TerminalRelease {
  import opened Options
  import C = MediaCoordinator
  import L = ServiceLifecycle
  import R = ServiceRuns
  import S = MediaSession
  import O = Ownership

  /** `seen` is history: the resource half at each observation of `media`. */
  datatype System = System(media: C.Coordinator, services: L.Coordinator, seen: seq<L.Coordinator>)

  const INITIAL := System(C.INITIAL, L.INITIAL, [])

  predicate TransitionActive(c: L.Coordinator) {
    c.resource.at != L.Idle && c.resource.at != L.Returned
  }

  /** resource_ready of protocol_coordinator_observe_playback. */
  predicate ResourceReady(c: L.Coordinator) {
    && c.goal.desired == c.goal.applied && !TransitionActive(c) && !c.goal.failed
    && L.ServicesMatch(c.services, c.goal.desired)
  }

  // ------------------------------------------------------------------------ runs

  datatype Step = MediaStep(media: C.Step) | ServiceStep(services: L.Step)

  /** Mode, restart and exclusivity are changed by the steps of the resource
      half, and an observation finds the resources as they are. */
  predicate Enabled(s: System, step: Step) {
    match step
    case MediaStep(m) =>
      && C.Enabled(s.media, m) && !m.DesireStep? && !m.RestartStep? && !m.EndStopStep?
      && (m.ObserveStep? ==> m.ready == ResourceReady(s.services))
    case ServiceStep(l) => L.Enabled(s.services, l)
  }

  /** What a step of the resource half does to the media half. */
  function MediaPart(c: L.Coordinator, step: L.Step): Option<C.Step> {
    match step
    case DesireStep(mode) => Some(C.DesireStep(mode))
    case StartStep(_, _, _, exclusive) => Some(C.RestartStep(exclusive))
    case MainStepOf(_, _) =>
      if c.main == L.InHalt(L.FinishStop) then Some(C.RestartStep(c.exclusive))
      else if c.main == L.InHalt(L.ClearAll) then Some(C.EndStopStep)
      else None
    case _ => None
  }

  function WithMedia(s: System, step: C.Step): System {
    var media := C.Apply(s.media, step);
    s.(media := media,
       seen := if media.observations == [] then []
               else if |media.observations| > |s.media.observations| then s.seen + [s.services]
               else s.seen)
  }

  function Apply(s: System, step: Step): System {
    match step
    case MediaStep(m) => WithMedia(s, m)
    case ServiceStep(l) =>
      var media := MediaPart(s.services, l);
      (if media.Some? then WithMedia(s, media.value) else s).(services := L.Apply(s.services, l))
  }

  ghost predicate Reaches(s: System, steps: seq<Step>, t: System)
    decreases |steps|
  {
    if steps == [] then s == t
    else Enabled(s, steps[0]) && Reaches(Apply(s, steps[0]), steps[1..], t)
  }

  ghost predicate Reachable(s: System) {
    exists steps: seq<Step> :: Reaches(INITIAL, steps, s)
  }

  // ------------------------------------------------------------------- invariant

  ghost predicate SeenFollows(obs: seq<C.Observation>, seen: seq<L.Coordinator>) {
    && |seen| == |obs|
    && forall k :: 0 <= k < |obs| ==> R.Inv(seen[k]) && (obs[k].ready <==> ResourceReady(seen[k]))
  }

  /** Both halves keep their invariants and agree on what they share. */
  ghost predicate Inv(s: System) {
    && C.Inv(s.media) && R.Inv(s.services)
    && s.media.desired == s.services.goal.desired && s.media.exclusive == s.services.exclusive
    && SeenFollows(s.media.observations, s.seen)
  }

  /** A step adds at most one observation, and only an observation does. */
  lemma ObservationsFollow(c: C.Coordinator, step: C.Step)
    ensures var before, after := c.observations, C.Apply(c, step).observations;
      || after == before
      || after == []
      || (step.ObserveStep? && after == before + [C.Observation(step.now, step.active, step.terminal, step.ready)])
  {
    hide O.Apply, S.Transition;
  }

  lemma MediaKeepsSeen(s: System, step: C.Step)
    requires R.Inv(s.services) && SeenFollows(s.media.observations, s.seen)
    requires step.ObserveStep? ==> step.ready == ResourceReady(s.services)
    ensures var t := WithMedia(s, step); SeenFollows(t.media.observations, t.seen)
  {
    ObservationsFollow(s.media, step);
    hide R.Inv, C.Apply, ResourceReady;
  }

  lemma MediaKeepsShared(c: C.Coordinator, step: C.Step)
    requires !step.DesireStep? && !step.RestartStep? && !step.EndStopStep?
    ensures C.Apply(c, step).desired == c.desired && C.Apply(c, step).exclusive == c.exclusive
  {
    hide O.Apply, S.Transition;
  }

  lemma ResourceKeepsShared(c: L.Coordinator, ok: bool)
    ensures L.ResourceStep(c, ok).goal.desired == c.goal.desired && L.ResourceStep(c, ok).exclusive == c.exclusive
  {
    hide L.StopEffect, L.StartEffect, L.AfterStopping, L.AfterStarting;
  }

  lemma TickKeepsShared(c: L.Coordinator, due: bool, poll: Option<L.ServiceState>)
    requires c.main.InTick?
    ensures var t := L.TickOnce(c, c.main.tick, due, poll);
      t.goal.desired == c.goal.desired && t.exclusive == c.exclusive
  {
    hide L.FirstFrom, L.TransitionWanted, L.Reaped, L.SetState;
  }

  lemma LaunchKeepsShared(c: L.Coordinator)
    ensures L.LaunchSerial(c).goal == c.goal && L.LaunchSerial(c).exclusive == c.exclusive
  {}

  /** What the media half does beside it agrees with each step of this half. */
  lemma ServicesKeepShared(c: L.Coordinator, step: L.Step, media: C.Coordinator)
    requires media.desired == c.goal.desired && media.exclusive == c.exclusive
    ensures var t := L.Apply(c, step);
      var part := MediaPart(c, step);
      var m := if part.Some? then C.Apply(media, part.value) else media;
      m.desired == t.goal.desired && m.exclusive == t.exclusive
  {
    hide L.ResourceStep, L.TickOnce, L.Worked, L.FirstFrom, L.Configured, L.LaunchSerial, L.Halted, L.Forgotten;
    LaunchKeepsShared(c);
    match step
    case ResourceStepOf(ok) => ResourceKeepsShared(c, ok);
    case MainStepOf(due, poll) =>
      if c.main.InTick? { TickKeepsShared(c, due, poll); }
    case _ =>
  }

  lemma StepKeepsInv(s: System, step: Step)
    requires Inv(s) && Enabled(s, step)
    ensures Inv(Apply(s, step))
  {
    hide C.Inv, R.Inv, SeenFollows, L.Apply, C.Apply, ResourceReady;
    match step
    case MediaStep(m) =>
      C.StepKeepsInv(s.media, m);
      MediaKeepsShared(s.media, m);
      MediaKeepsSeen(s, m);
    case ServiceStep(l) =>
      R.StepKeepsInv(s.services, l);
      ServicesKeepShared(s.services, l, s.media);
      var part := MediaPart(s.services, l);
      if part.Some? {
        C.StepKeepsInv(s.media, part.value);
        MediaKeepsSeen(s, part.value);
      }
  }

  lemma {:induction false} RunKeepsInv(s: System, steps: seq<Step>, t: System)
    requires Inv(s) && Reaches(s, steps, t)
    ensures Inv(t)
    decreases |steps|
  {
    if steps != [] {
      StepKeepsInv(s, steps[0]);
      RunKeepsInv(Apply(s, steps[0]), steps[1..], t);
    }
  }

  lemma ReachableInv(s: System)
    requires Reachable(s)
    ensures Inv(s)
  {
    var steps: seq<Step> :| Reaches(INITIAL, steps, s);
    assert C.Inv(C.INITIAL) by {
      assert C.Reaches(C.INITIAL, [], C.INITIAL);
      C.ReachableInv(C.INITIAL);
    }
    assert R.Inv(L.INITIAL) by {
      assert L.Reaches(L.INITIAL, [], L.INITIAL);
      R.ReachableInv(L.INITIAL);
    }
    RunKeepsInv(INITIAL, steps, s);
  }

  // ------------------------------------------------------------------ the release

  /** Exactly the services a mode wants are up; the disabled ones never are. */
  ghost predicate UpExactly(services: L.Services, mode: C.Mode) {
    forall i: L.Index :: services[i].state == L.Running <==> L.Required(mode, i, services[i].enabled)
  }

  /** No transition under way, the last one a success, and up exactly what the
      desired mode wants. */
  ghost predicate Settled(c: L.Coordinator) {
    && (c.resource.at == L.Idle || c.resource.at == L.Returned)
    && !c.goal.failed && c.goal.applied == c.goal.desired
    && L.ServicesMatch(c.services, c.goal.desired) && UpExactly(c.services, c.goal.desired)
  }

  lemma MatchIsUp(services: L.Services, mode: C.Mode)
    requires L.ServicesMatch(services, mode)
    ensures UpExactly(services, mode)
  {
    forall i: L.Index ensures services[i].state == L.Running <==> L.Required(mode, i, services[i].enabled) {
      assert L.Matches(mode, i, services[i]);
    }
  }

  lemma ReadyIsSettled(c: L.Coordinator)
    requires ResourceReady(c)
    ensures Settled(c)
  {
    MatchIsUp(c.services, c.goal.desired);
  }

  /** Both modes ask for the same of the enabled services. */
  ghost predicate SameServices(services: L.Services, mode: C.Mode, other: C.Mode) {
    forall i: L.Index :: services[i].enabled ==> (L.Required(mode, i, true) <==> L.Required(other, i, true))
  }

  lemma SettledForExactly(c: L.Coordinator, mode: C.Mode)
    requires Settled(c)
    ensures L.ServicesMatch(c.services, mode) <==> SameServices(c.services, mode, c.goal.desired)
  {
    hide L.Required;
    forall i: L.Index
      ensures L.Matches(mode, i, c.services[i]) <==>
        (c.services[i].enabled ==> (L.Required(mode, i, true) <==> L.Required(c.goal.desired, i, true)))
    {
      assert L.Matches(c.goal.desired, i, c.services[i]);
    }
  }

  /** From the i-th observation on, at least the grace period ago, every terminal
      one found the services settled. */
  ghost predicate SettledSince(obs: seq<C.Observation>, seen: seq<L.Coordinator>, i: nat, now: nat) {
    && i < |obs| == |seen| && obs[i].terminal && obs[i].now + C.RELEASE_GRACE_MS <= now
    && forall k :: i <= k < |obs| && obs[k].terminal ==> Settled(seen[k])
  }

  /** A lease that was never seen playing is given up only after the grace period
      in which every terminal observation, this one too, found up exactly the
      services of the mode then desired. */
  lemma ReleaseFoundServicesSettled(s: System, active: bool, terminal: bool, now: nat)
    requires Reachable(s)
    ensures var step := C.ObserveStep(active, terminal, now, ResourceReady(s.services));
      var release := C.Observe(s.media, active, terminal, now, step.ready).1;
      var t := Apply(s, MediaStep(step));
      release.Some? ==>
        && terminal && release.value == s.media.session.lease
        && (C.SawActive(t.media.observations)
            || (Settled(s.services)
                && exists i: nat :: SettledSince(t.media.observations, t.seen, i, now)))
  {
    ReachableInv(s);
    var step := C.ObserveStep(active, terminal, now, ResourceReady(s.services));
    var t := Apply(s, MediaStep(step));
    StepKeepsInv(s, MediaStep(step));
    Released(s, t, step);
  }

  lemma Released(s: System, t: System, step: C.Step)
    requires step.ObserveStep? && step.ready == ResourceReady(s.services) && C.Inv(s.media) && C.Inv(t.media)
    requires t == WithMedia(s, step) && SeenFollows(t.media.observations, t.seen)
    requires SeenFollows(s.media.observations, s.seen)
    ensures var release := C.Observe(s.media, step.active, step.terminal, step.now, step.ready).1;
      release.Some? ==>
        && step.terminal && release.value == s.media.session.lease
        && (C.SawActive(t.media.observations)
            || (Settled(s.services)
                && exists i: nat :: SettledSince(t.media.observations, t.seen, i, step.now)))
  {
    hide R.Inv, ResourceReady, Settled, O.Inv, S.Inv;
    var obs, seen := t.media.observations, t.seen;
    var release := C.Observe(s.media, step.active, step.terminal, step.now, step.ready).1;
    if release.Some? && !C.SawActive(obs) {
      var i: nat :| C.Starts(obs, i) && obs[i].now == t.media.readyMs;
      forall k | i <= k < |obs| && obs[k].terminal ensures Settled(seen[k]) {
        ReadyIsSettled(seen[k]);
      }
      var last := |obs| - 1;
      assert obs[last] == C.Observation(step.now, step.active, step.terminal, step.ready);
      assert seen[last] == s.services;
      assert SettledSince(obs, seen, i, step.now);
    }
  }

  /** It found the lease's own services in place if and only if its mode asks for
      the same enabled services as the one then desired. */
  lemma ReleaseFoundOwnServicesExactly(s: System, active: bool, terminal: bool, now: nat)
    requires Reachable(s)
    ensures var step := C.ObserveStep(active, terminal, now, ResourceReady(s.services));
      var release := C.Observe(s.media, active, terminal, now, step.ready).1;
      release.Some? && !C.SawActive(Apply(s, MediaStep(step)).media.observations) ==>
        (L.Serves(s.services.services, release.value.owner) <==>
         SameServices(s.services.services, C.ModeForOwner(release.value.owner), s.media.desired))
  {
    ReleaseFoundServicesSettled(s, active, terminal, now);
    ReachableInv(s);
    var release := C.Observe(s.media, active, terminal, now, ResourceReady(s.services)).1;
    if release.Some? && Settled(s.services) {
      SettledForExactly(s.services, C.ModeForOwner(release.value.owner));
      L.MatchServes(s.services.services, release.value.owner);
    }
  }

  // ---------------------------------------------------------- the lease's own mode

  /** The mode desired is that of the session's lease. */
  predicate Own(c: C.Coordinator) {
    c.exclusive ==> c.desired == C.ModeForOwner(c.session.lease.owner)
  }

  /** Nobody else changes the session's lease or the mode: reports of playback,
      registry, observations, workers, and ticks but for their sync. */
  predicate Quiet(s: System, step: Step) {
    match step
    case MediaStep(m) => !(m.EventStep? && m.allowAuthority && C.Authority(m.event.kind))
    case ServiceStep(l) => !l.DesireStep? && !l.StartStep? && !s.services.main.InHalt?
  }

  ghost predicate QuietAlong(s: System, steps: seq<Step>)
    decreases |steps|
  {
    steps != [] ==> Quiet(s, steps[0]) && QuietAlong(Apply(s, steps[0]), steps[1..])
  }

  lemma ReportKeepsLease(c: C.Coordinator, e: S.Event, allow: bool, now: nat)
    requires S.Inv(c.session) && !(allow && C.Authority(e.kind))
    ensures C.ApplyEvent(c, e, allow, now).0.session.lease == c.session.lease
  {
    S.LeaseChangesOnlyForward(c.session, e);
  }

  lemma QuietKeepsOwn(s: System, step: Step)
    requires Inv(s) && Enabled(s, step) && Quiet(s, step) && Own(s.media)
    ensures Own(Apply(s, step).media)
  {
    hide L.Apply, L.Enabled, C.TimersFollow, R.Inv, O.Inv, S.Transition, ResourceReady;
    if step.MediaStep? {
      MediaKeepsShared(s.media, step.media);
      if step.media.EventStep? {
        ReportKeepsLease(s.media, step.media.event, step.media.allowAuthority, step.media.now);
      }
    }
  }

  lemma {:induction false} QuietRunKeepsOwn(s: System, steps: seq<Step>, t: System)
    requires Inv(s) && Reaches(s, steps, t) && QuietAlong(s, steps) && Own(s.media)
    ensures Own(t.media)
    decreases |steps|
  {
    hide Inv, Enabled, Apply, Quiet, Own;
    if steps != [] {
      QuietKeepsOwn(s, steps[0]);
      StepKeepsInv(s, steps[0]);
      QuietRunKeepsOwn(Apply(s, steps[0]), steps[1..], t);
    }
  }

  /** After a sync that converged, as long as no other thread changes the session
      or the mode, a lease never seen playing is given up only while exactly the
      services of its own mode are up. */
  lemma QuietReleaseFoundOwnServices(s: System, steps: seq<Step>, t: System, active: bool, terminal: bool, now: nat)
    requires Reachable(s) && C.Converged(s.media) && Reaches(s, steps, t) && QuietAlong(s, steps)
    ensures var step := C.ObserveStep(active, terminal, now, ResourceReady(t.services));
      var release := C.Observe(t.media, active, terminal, now, step.ready).1;
      release.Some? && !C.SawActive(Apply(t, MediaStep(step)).media.observations) ==>
        UpExactly(t.services.services, C.ModeForOwner(release.value.owner))
        && L.Serves(t.services.services, release.value.owner)
  {
    ReachableInv(s);
    QuietRunKeepsOwn(s, steps, t);
    RunKeepsInv(s, steps, t);
    var step := C.ObserveStep(active, terminal, now, ResourceReady(t.services));
    StepKeepsInv(t, MediaStep(step));
    Released(t, Apply(t, MediaStep(step)), step);
    var release := C.Observe(t.media, active, terminal, now, step.ready).1;
    if release.Some? { L.MatchServes(t.services.services, release.value.owner); }
    hide R.Inv, ResourceReady, O.Inv, S.Inv, C.TimersFollow, UpExactly, SettledSince, L.ServicesMatch, L.Serves;
  }

  /** One step changes the registry by at most one of its operations. */
  lemma RegistryMoves(s: System, step: Step)
    ensures var r, t := s.media.registry, Apply(s, step).media.registry;
      t == if step.MediaStep? && step.media.RegistryStep? then O.Apply(r, step.media.step) else r
  {
    hide L.Apply, S.Transition, ResourceReady, O.Apply;
  }
}
