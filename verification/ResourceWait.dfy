/** Waiting until the services of a claimed lease are in place
    (source/app/protocol_coordinator.c), while everything else goes on. */
module ResourceWait {
  import opened Options
  import C = MediaCoordinator
  import L = ServiceLifecycle
  import R = ServiceRuns
  import T = TerminalRelease
  import O = Ownership

  /** What protocol_coordinator_media_wait_resources takes for ready. */
  predicate WaitReady(s: T.System, lease: O.Lease) {
    var own := C.ModeForOwner(lease.owner);
    && s.media.activeMedia == lease
    && (s.media.exclusive ==>
          && s.services.goal.applied == own && !T.TransitionActive(s.services)
          && L.ServicesMatch(s.services.services, own))
  }

  lemma {:induction false} LogGrowsAlong(s: T.System, steps: seq<T.Step>, t: T.System)
    requires T.Reaches(s, steps, t)
    ensures |s.media.registry.log| <= |t.media.registry.log|
    decreases |steps|
  {
    hide T.Apply, T.Enabled;
    if steps != [] {
      T.RegistryMoves(s, steps[0]);
      LogGrowsAlong(T.Apply(s, steps[0]), steps[1..], t);
    }
  }

  lemma {:induction false} RetiredStaysRetired(s: T.System, steps: seq<T.Step>, t: T.System, j: nat)
    requires T.Inv(s) && T.Reaches(s, steps, t) && j < |s.media.registry.log| && s.media.registry.log[j] != O.NO_LEASE
    requires s.media.registry.current != s.media.registry.log[j]
    requires |t.media.registry.log| - 1 - j < O.CYCLE
    ensures s.media.registry.log <= t.media.registry.log && t.media.registry.current != s.media.registry.log[j]
    decreases |steps|
  {
    if steps != [] {
      var u := T.Apply(s, steps[0]);
      LogGrowsAlong(u, steps[1..], t);
      T.StepKeepsInv(s, steps[0]);
      T.RegistryMoves(s, steps[0]);
      hide T.Apply, T.Enabled, R.Inv, C.SessionFollows, C.TimersFollow, T.SeenFollows;
      if steps[0].MediaStep? && steps[0].media.RegistryStep? {
        var o := steps[0].media.step;
        assert O.Run(s.media.registry, [o]) == O.Apply(s.media.registry, o) by { assert [o][1..] == []; }
        O.StepKeepsInv(s.media.registry, o);
        O.RetiredStaysRetired(s.media.registry, [o], j);
      }
      RetiredStaysRetired(u, steps[1..], t, j);
    }
  }

  /** A mode other than HOME has not both DLNA and AirPlay. */
  lemma OwnIsExclusive(services: L.Services, mode: C.Mode)
    requires T.UpExactly(services, mode) && mode != C.Home
    ensures !(services[1].state == L.Running && services[L.AIRPLAY].state == L.Running)
  {
    assert services[1].state == L.Running ==> L.Required(mode, 1, services[1].enabled);
    assert services[L.AIRPLAY].state == L.Running ==> L.Required(mode, L.AIRPLAY, services[L.AIRPLAY].enabled);
  }

  /** When the wait for a lease answers true, having found it ready at s and then
      validated it at t, it was in force at s in registry and session alike, and
      exactly its own mode's services were up, so not both DLNA and AirPlay. */
  lemma WaitFoundOwnServices(s: T.System, steps: seq<T.Step>, t: T.System, lease: O.Lease, j: nat)
    requires T.Reachable(s) && T.Reaches(s, steps, t)
    requires WaitReady(s, lease) && O.Validates(t.media.registry, lease)
    requires j < |s.media.registry.log| && s.media.registry.log[j] == lease
    requires |t.media.registry.log| - 1 - j < O.CYCLE
    ensures s.media.registry.current == s.media.session.lease == lease
    ensures s.media.exclusive ==>
      && T.UpExactly(s.services.services, C.ModeForOwner(lease.owner))
      && (s.services.resource.at == L.Idle || s.services.resource.at == L.Returned)
      && L.Serves(s.services.services, lease.owner)
      && !(s.services.services[1].state == L.Running && s.services.services[L.AIRPLAY].state == L.Running)
  {
    T.ReachableInv(s);
    if s.media.registry.current != lease { RetiredStaysRetired(s, steps, t, j); }
    hide T.Reaches, R.Inv, C.TimersFollow, O.Inv, L.ServicesMatch, T.UpExactly;
    if s.media.exclusive {
      T.MatchIsUp(s.services.services, C.ModeForOwner(lease.owner));
      L.MatchServes(s.services.services, lease.owner);
      OwnIsExclusive(s.services.services, C.ModeForOwner(lease.owner));
    }
  }
}
