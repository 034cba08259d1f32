/** What follows for every run: whose services are up when a lease is given up,
    and how an interrupted sync ends. */
module MainLoopRuns {
  import opened Options
  import opened MainLoop
  import opened MainLoopInvariant
  import C = MediaCoordinator
  import L = ServiceLifecycle
  import R = ServiceRuns
  import T = TerminalRelease
  import S = MediaSession
  import O = Ownership

  // ------------------------------------------------------------------------ runs

  lemma StepKeepsInv(s: System, step: Step)
    requires Inv(s) && Enabled(s, step) && Timely(s)
    ensures Inv(Apply(s, step))
  {
    hide Inv, T.Apply, L.Enabled, Timely;
    match step
    case Work(l) => WorkKeepsInv(s, l);
    case Observe(active, terminal, now) => ObserveKeepsInv(s, active, terminal, now);
    case Report(e, now) => ReportKeepsInv(s, e, now);
    case Hold(now) => HoldKeepsInv(s, now);
    case Sync(now) => SyncKeepsInv(s, now);
    case _ => RegistryStepKeepsInv(s, step);
  }

  lemma {:induction false} RunKeepsInv(s: System, steps: seq<Step>, t: System)
    requires Inv(s) && Reaches(s, steps, t) && TimelyAlong(s, steps)
    ensures Inv(t) && Timely(t)
    decreases |steps|
  {
    hide Inv, Enabled, Apply, Timely;
    if steps != [] {
      StepKeepsInv(s, steps[0]);
      RunKeepsInv(Apply(s, steps[0]), steps[1..], t);
    }
  }

  lemma InitialInv()
    ensures Inv(INITIAL)
  {
    assert T.Inv(T.INITIAL) by {
      assert T.Reaches(T.INITIAL, [], T.INITIAL);
      T.ReachableInv(T.INITIAL);
    }
    hide T.Inv;
  }

  lemma ReachableInv(s: System)
    requires TimelyReachable(s)
    ensures Inv(s) && Timely(s)
  {
    var steps: seq<Step> :| Reaches(INITIAL, steps, s) && TimelyAlong(INITIAL, steps);
    InitialInv();
    RunKeepsInv(INITIAL, steps, s);
  }

  // ------------------------------------------------------ few issues are recent

  /** Leases in the hands of the threads were issued. */
  ghost predicate Issued(s: System) {
    var log := s.base.media.registry.log;
    && (s.holder.TellClaim? || s.holder.DesireOwn? ==> s.holder.lease in log && s.holder.lease != O.NO_LEASE)
    && (s.sync.ReadSession? || s.sync.Tell? || s.sync.SetMode? ==> s.sync.current in log + [O.NO_LEASE])
  }

  lemma StepKeepsBase(s: System, step: Step)
    requires T.Inv(s.base) && Issued(s) && Enabled(s, step)
    ensures T.Inv(Apply(s, step).base)
  {
    var b := BaseStep(s, step);
    if b.Some? {
      assert T.Enabled(s.base, b.value) by { hide T.Inv, L.Enabled, T.ResourceReady; }
      T.StepKeepsInv(s.base, b.value);
    }
    hide T.Inv, T.Apply, T.Enabled, Enabled, Issued;
  }

  lemma StepKeepsIssued(s: System, step: Step)
    requires O.Inv(s.base.media.registry) && Issued(s) && Enabled(s, step)
    ensures Issued(Apply(s, step)) && |s.base.media.registry.log| <= |Apply(s, step).base.media.registry.log|
  {
    var r, b := s.base.media.registry, BaseStep(s, step);
    if b.Some? { T.RegistryMoves(s.base, b.value); }
    if step.Claim? || step.Withdraw? || step.GiveUp? { O.StepKeepsInv(r, b.value.media.step); }
    hide T.Apply, L.Enabled, NextTurns;
  }

  lemma IssuedIsTimely(s: System)
    requires T.Inv(s.base) && Issued(s) && |s.base.media.registry.log| <= WINDOW
    ensures Timely(s)
  {
    hide R.Inv, C.TimersFollow, O.Inv, T.SeenFollows;
  }

  lemma RegistryInv(b: T.System)
    requires T.Inv(b)
    ensures O.Inv(b.media.registry)
  {}

  lemma {:induction false} FewRunIsTimely(s: System, steps: seq<Step>, t: System)
    requires T.Inv(s.base) && Issued(s) && Reaches(s, steps, t) && |t.base.media.registry.log| <= WINDOW
    ensures TimelyAlong(s, steps) && |s.base.media.registry.log| <= WINDOW
    decreases |steps|
  {
    hide T.Inv, Issued, Enabled, Apply, Timely;
    if steps != [] {
      StepKeepsBase(s, steps[0]);
      RegistryInv(s.base);
      StepKeepsIssued(s, steps[0]);
      FewRunIsTimely(Apply(s, steps[0]), steps[1..], t);
    }
    IssuedIsTimely(s);
  }

  /** None is ever that old before 2^31 generations have been issued at all. */
  lemma FewIssuesAreTimely(s: System)
    requires Reachable(s) && |s.base.media.registry.log| <= WINDOW
    ensures TimelyReachable(s)
  {
    var steps: seq<Step> :| Reaches(INITIAL, steps, s);
    InitialInv();
    FewRunIsTimely(INITIAL, steps, s);
  }

  // ----------------------------------------------------------------- the release

  /** Every terminal observation after the i-th, that one at least the grace
      period ago, found the services in place for this owner, if it came after a
      tick. */
  ghost predicate OwnSince(s: System, owner: O.Owner, i: nat, now: nat) {
    var obs, seen := s.base.media.observations, s.base.seen;
    && i < |obs| == |seen| == |s.turns| && obs[i].terminal && obs[i].now + C.RELEASE_GRACE_MS <= now
    && forall k :: i < k < |obs| && obs[k].terminal && s.turns[k] ==> L.Serves(seen[k].services, owner)
  }

  /** Whatever the other threads do in between, and wherever they interrupt the
      ticks: if the caller has ticked since its last observation, as the main loop
      does, a lease never seen playing is given up only while exactly the services
      of its own mode are up, and were at each such observation before. */
  lemma ReleaseFoundOwnServices(s: System, active: bool, terminal: bool, now: nat)
    requires TimelyReachable(s)
    requires Enabled(s, Observe(active, terminal, now)) && s.ticked
    ensures var release := C.Observe(s.base.media, active, terminal, now, T.ResourceReady(s.base.services)).1;
      var t := Apply(s, Observe(active, terminal, now));
      release.Some? ==>
        && terminal && release.value == s.base.media.session.lease
        && (C.SawActive(t.base.media.observations)
            || (L.Serves(s.base.services.services, release.value.owner)
                && exists i: nat :: OwnSince(t, release.value.owner, i, now)))
  {
    ReachableInv(s);
    var t := Apply(s, Observe(active, terminal, now));
    ObserveKeepsInv(s, active, terminal, now);
    var step := C.ObserveStep(active, terminal, now, T.ResourceReady(s.base.services));
    T.Released(s.base, t.base, step);
    var release := C.Observe(s.base.media, active, terminal, now, step.ready).1;
    var obs := t.base.media.observations;
    if release.Some? && !C.SawActive(obs) {
      var i: nat :| T.SettledSince(obs, t.base.seen, i, now);
      OwnFromSettled(s, t, i, active, terminal, now);
    }
  }

  lemma OwnFromSettled(s: System, t: System, i: nat, active: bool, terminal: bool, now: nat)
    requires Inv(s) && Inv(t) && s.ticked && t == Apply(s, Observe(active, terminal, now))
    requires C.Observe(s.base.media, active, terminal, now, T.ResourceReady(s.base.services)).1.Some?
    requires T.Settled(s.base.services) && T.SettledSince(t.base.media.observations, t.base.seen, i, now)
    ensures var owner := s.base.media.session.lease.owner;
      L.Serves(s.base.services.services, owner) && OwnSince(t, owner, i, now)
  {
    hide C.Inv, T.ResourceReady, T.UpExactly, SyncOk, HolderOk, O.Inv, L.ServicesMatch, L.Serves;
    var owner := s.base.media.session.lease.owner;
    forall services: L.Services { L.MatchServes(services, owner); }
    var c, obs := s.base.media, t.base.media.observations;
    assert obs == c.observations + [C.Observation(now, active, terminal, T.ResourceReady(s.base.services))];
    assert obs[|obs| - 1].now == now;
    assert i < |c.observations| && c.exclusive;
    assert T.Own(c);
  }

  /** The end of a sync, whatever ran between its regions: if the lease it read is
      still in force, session, active media and mode agree with the registry. */
  lemma InterruptedSyncConverges(s: System, now: nat)
    requires TimelyReachable(s) && s.sync.SetMode?
    ensures InForce(s.base.media.registry, s.sync.current) ==> C.Converged(Apply(s, Sync(now)).base.media)
  {
    ReachableInv(s);
    DesireDoes(s.base, C.ModeForOwner(s.sync.current.owner));
    hide T.Apply, R.Inv, C.TimersFollow;
  }

  // ---------------------------------------------------------------- without ticks

  lemma {:induction false} ReachesOneMore(s: System, steps: seq<Step>, t: System, step: Step)
    requires Reaches(s, steps, t) && Enabled(t, step)
    ensures Reaches(s, steps + [step], Apply(t, step))
    decreases |steps|
  {
    hide Enabled, Apply;
    if steps == [] {
      assert (steps + [step])[1..] == [];
    } else {
      ReachesOneMore(Apply(s, steps[0]), steps[1..], t, step);
      assert (steps + [step])[1..] == steps[1..] + [step];
    }
  }

  lemma Then(s: System, step: Step) returns (t: System)
    requires Reachable(s) && Enabled(s, step)
    ensures Reachable(t) && t == Apply(s, step)
  {
    hide Enabled, Apply;
    var steps: seq<Step> :| Reaches(INITIAL, steps, s);
    ReachesOneMore(INITIAL, steps, s, step);
    t := Apply(s, step);
  }

  /** AirPlay alone is enabled, its start worker somewhere; nobody has claimed. */
  ghost predicate OnlyAirPlay(s: System, worker: L.Worker, state: L.ServiceState) {
    && Reachable(s) && s.base.media == C.Restarted(C.INITIAL, true)
    && s.sync == NotSyncing && s.holder == Free && s.turns == [] && s.base.seen == []
    && AirPlayAt(s.base.services, worker, state)
  }

  ghost predicate AirPlayAt(c: L.Coordinator, worker: L.Worker, state: L.ServiceState) {
    && c.goal == L.Goal(C.Home, C.Home, false) && c.resource.at == L.Idle && c.life == L.Up && c.main == L.Ready
    && c.services[L.AIRPLAY].worker == worker
    && forall i: L.Index ::
         c.services[i].enabled == (i == 2) && c.services[i].state == if i == 2 then state else L.Disabled
  }

  lemma AirPlayLaunched() returns (s: System)
    ensures OnlyAirPlay(s, L.Launched, L.Starting)
  {
    assert Reaches(INITIAL, [], INITIAL);
    s := Then(INITIAL, Work(L.StartStep([false, false, true], [false, false, false], false, true)));
  }

  /** One step of its start worker. */
  lemma AirPlayWorks(s: System, worker: L.Worker, state: L.ServiceState) returns (t: System)
    requires OnlyAirPlay(s, worker, state) && worker != L.NoThread && worker != L.Done
    ensures var after := L.Worked(s.base.services.services[L.AIRPLAY], L.Up, true);
      OnlyAirPlay(t, after.worker, after.state)
  {
    t := Then(s, Work(L.ServiceStepOf(2, true)));
    hide Reachable;
  }

  lemma AirPlayRuns() returns (s: System)
    ensures OnlyAirPlay(s, L.Told, L.Running)
  {
    hide Reachable, C.Restarted;
    s := AirPlayLaunched();
    s := AirPlayWorks(s, L.Launched, L.Starting);
    s := AirPlayWorks(s, L.Called(true), L.Starting);
    s := AirPlayWorks(s, L.Marked(true), L.Starting);
  }

  /** Then a DLNA thread has claimed the player and told the session. */
  ghost predicate DlnaTold(s: System, lease: O.Lease) {
    && Reachable(s) && s.holder == DesireOwn(lease) && lease.owner == O.Dlna && s.sync == NotSyncing
    && AirPlayAt(s.base.services, L.Told, L.Running)
    && var c := s.base.media;
       && c.activeMedia == c.session.lease == c.registry.current == lease && c.observedGeneration == lease.generation
       && c.exclusive && !c.seenActive && c.readyMs == 0 && c.observations == [] && s.base.seen == []
  }

  lemma DlnaClaims() returns (s: System, lease: O.Lease)
    ensures DlnaTold(s, lease)
  {
    s := AirPlayRuns();
    hide L.Apply, L.Enabled, C.Observe, AirPlayAt, Reachable;
    s := Then(s, Claim(O.Dlna, 7));
    lease := s.base.media.registry.current;
    assert lease == O.Lease(O.Dlna, 7, 1) && s.holder == TellClaim(lease);
    s := Then(s, Hold(1));
  }

  lemma AirPlayIsReady(c: L.Coordinator)
    requires AirPlayAt(c, L.Told, L.Running)
    ensures T.ResourceReady(c)
  {}

  /** Why it has to tick. A claim reaches the session before its thread sets the
      mode. If that thread pauses there and nobody ticks between two observations
      the grace period apart, the lease is given up with another service up than
      its own: the run is one claim, told, and one observation before this one. */
  lemma ReleaseWithoutTick() returns (s: System, lease: O.Lease)
    ensures Reachable(s) && Enabled(s, Observe(false, true, 1001)) && !s.ticked && s.base.seen == [s.base.services]
    ensures lease.owner == O.Dlna && s.holder == DesireOwn(lease) && InForce(s.base.media.registry, lease)
    ensures C.Observe(s.base.media, false, true, 1001, T.ResourceReady(s.base.services)).1 == Some(lease)
    ensures !C.SawActive(s.base.media.observations)
    ensures s.base.services.services[L.AIRPLAY].state == L.Running
    ensures !L.Serves(s.base.services.services, lease.owner)
  {
    s, lease := DlnaClaims();
    AirPlayIsReady(s.base.services);
    hide L.Apply, L.Enabled, O.Apply, C.ApplyEvent, T.ResourceReady, Reachable;
    s := Then(s, Observe(false, true, 1));
    assert s.base.media.observations == [C.Observation(1, false, true, true)];
  }
}
