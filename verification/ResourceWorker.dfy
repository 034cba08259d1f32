/** The resource worker of source/app/protocol_coordinator.c as the code runs it
    when no other thread acts in between; ServiceLifecycle has the
    interleavings. */
module ResourceWorker {
  import opened ServiceLifecycle
  import opened ServiceRuns
  import M = MediaCoordinator
  import O = Ownership

  /** All effects of coordinator_resource_stop_service on its service. */
  function BroughtDown(s: Service): Service {
    var called := StopEffect(s, Up, DoStop(s.stopRequired));
    StopEffect(StopEffect(called, Up, ClearFlag), Up, TellStopped)
  }

  /** All effects of coordinator_resource_start_service. */
  function BroughtUp(s: Service, ok: bool): Service {
    var clear := if s.stopRequired then BroughtDown(s) else s;
    var told := StartEffect(clear, Up, TellStarting, ok);
    var called := StartEffect(told, Up, DoStart, ok);
    StartEffect(StartEffect(called, Up, MarkStart(ok), ok), Up, TellStart(ok), ok)
  }

  predicate StopsIt(target: M.Mode, i: Index, s: Service) {
    s.state != Disabled && s.state != ServiceState.Stopped && !Required(target, i, s.enabled)
  }

  predicate StartsIt(target: M.Mode, i: Index, s: Service) {
    Required(target, i, s.enabled) && s.state != Running
  }

  function StopTurn(target: M.Mode, i: Index, s: Service): Service {
    if StopsIt(target, i, s) then BroughtDown(s) else s
  }

  function StartTurn(target: M.Mode, i: Index, s: Service, ok: bool): Service {
    if StartsIt(target, i, s) then BroughtUp(s, ok) else s
  }

  /** What a whole transition does to one service. */
  function AfterTransition(target: M.Mode, i: Index, s: Service, ok: bool): Service {
    StartTurn(target, i, StopTurn(target, i, s), ok)
  }

  class ServiceTable {
    const services: array<Service>
    var applied: M.Mode
    var failed: bool

    ghost predicate Valid()
      reads this
    {
      services.Length == 3
    }

    constructor (initial: Services)
      ensures Valid() && fresh(services) && services[..] == initial
    {
      services := new Service[3](i requires 0 <= i < 3 => initial[i]);
      applied, failed := M.Home, false;
      new;
      assert services[..] == initial;
    }

    method SetState(i: Index, state: ServiceState)
      requires Valid()
      modifies services
      ensures services[..] == old(services[..])[i := old(services[i]).(state := state)]
    {
      services[i] := services[i].(state := state);
    }

    /** coordinator_resource_stop_service. */
    method StopService(i: Index)
      requires Valid()
      modifies services
      ensures services[..] == old(services[..])[i := BroughtDown(old(services[i]))]
    {
      var stopRequired := services[i].stopRequired;
      if stopRequired {
        services[i] := services[i].(calls := services[i].calls + [StopCall]);
      }
      services[i] := services[i].(stopRequired := false);
      SetState(i, ServiceState.Stopped);
    }

    /** coordinator_resource_start_service; `ok` is what start answers. */
    method StartService(i: Index, ok: bool) returns (started: bool)
      requires Valid()
      modifies services
      ensures services[..] == old(services[..])[i := BroughtUp(old(services[i]), ok)] && started == ok
    {
      var cleanupRequired := services[i].stopRequired;
      if cleanupRequired {
        StopService(i);
      }
      SetState(i, Starting);
      started := ok;
      services[i] := services[i].(calls := services[i].calls + [StartCall(ok, services[i].cleanup)]);
      services[i] := services[i].(stopRequired := started || services[i].cleanup);
      SetState(i, if started then Running else Failed);
    }

    /** The first loop, from the last service to the first. */
    method StopExcluded(target: M.Mode)
      requires Valid()
      modifies services
      ensures forall i: Index :: services[i] == StopTurn(target, i, old(services[i]))
    {
      hide BroughtDown, Required;
      var left := 3;
      while left > 0
        invariant 0 <= left <= 3
        invariant forall i: Index :: i >= left ==> services[i] == StopTurn(target, i, old(services[i]))
        invariant forall i: Index :: i < left ==> services[i] == old(services[i])
      {
        left := left - 1;
        var s := services[left];
        if s.state != Disabled && s.state != ServiceState.Stopped && !Required(target, left, s.enabled) {
          StopService(left);
          assert forall i: Index :: services[i] == services[..][i];
        }
      }
    }

    /** The second loop, in startup order. */
    method StartRequired(target: M.Mode, starts: Index -> bool) returns (success: bool)
      requires Valid()
      modifies services
      ensures forall i: Index :: services[i] == StartTurn(target, i, old(services[i]), starts(i))
      ensures success <==> forall i: Index :: StartsIt(target, i, old(services[i])) ==> starts(i)
    {
      hide BroughtUp, Required;
      success := true;
      var index := 0;
      while index < 3
        invariant 0 <= index <= 3
        invariant forall i: Index :: i < index ==> services[i] == StartTurn(target, i, old(services[i]), starts(i))
        invariant forall i: Index :: i >= index ==> services[i] == old(services[i])
        invariant success <==> forall i: Index :: i < index && StartsIt(target, i, old(services[i])) ==> starts(i)
      {
        var s := services[index];
        if Required(target, index, s.enabled) && s.state != Running {
          var started := StartService(index, starts(index));
          assert forall i: Index :: services[i] == services[..][i];
          if !started {
            success := false;
          }
        }
        index := index + 1;
      }
    }

    /** coordinator_resource_worker_run; `suspendOk` and `resumeOk` are what the
        background network's callback answers. */
    method RunTransition(target: M.Mode, starts: Index -> bool, suspendOk: bool, resumeOk: bool)
      returns (result: bool)
      requires Valid()
      modifies this, services
      ensures Valid()
      ensures forall i: Index :: services[i] == AfterTransition(target, i, old(services[i]), starts(i))
      ensures result <==>
        && (if target == M.Home then resumeOk else suspendOk)
        && forall i: Index :: StartsIt(target, i, old(services[i])) ==> starts(i)
      ensures failed == !result && applied == if result then target else old(applied)
      ensures result && (forall i: Index :: old(services[i]).enabled <==> old(services[i]).state != Disabled) ==>
        forall owner: O.Owner :: M.ModeForOwner(owner) == target ==> Serves(services[..], owner)
    {
      ghost var before := services[..];
      var success := target == M.Home || suspendOk;
      StopExcluded(target);
      assert forall i: Index :: StartsIt(target, i, services[i]) <==> StartsIt(target, i, old(services[i]));
      var started := StartRequired(target, starts);
      success := success && started && (target != M.Home || resumeOk);
      if success {
        applied, failed := target, false;
      } else {
        failed := true;
      }
      result := success;
      if success && forall i: Index :: before[i].enabled <==> before[i].state != Disabled {
        TransitionServes(target, before, services[..], starts);
      }
    }
  }

  /** Undisturbed, a transition whose starts succeed leaves exactly the services
      its target requires running. */
  lemma TransitionMatches(target: M.Mode, services: Services, starts: Index -> bool)
    requires forall i: Index :: services[i].enabled <==> services[i].state != Disabled
    requires forall i: Index :: StartsIt(target, i, services[i]) ==> starts(i)
    ensures forall i: Index :: Matches(target, i, AfterTransition(target, i, services[i], starts(i)))
  {}

  lemma TransitionServes(target: M.Mode, before: Services, after: Services, starts: Index -> bool)
    requires forall i: Index :: before[i].enabled <==> before[i].state != Disabled
    requires forall i: Index :: StartsIt(target, i, before[i]) ==> starts(i)
    requires forall i: Index :: after[i] == AfterTransition(target, i, before[i], starts(i))
    ensures forall owner: O.Owner :: M.ModeForOwner(owner) == target ==> Serves(after, owner)
  {
    TransitionMatches(target, before, starts);
    assert Matches(target, 0, after[0]) && Matches(target, 1, after[1]) && Matches(target, 2, after[2]);
    forall owner: O.Owner { MatchServes(after, owner); }
  }

  /** It keeps start and stop calls paired, and the flags right. */
  lemma TransitionKeepsPairs(target: M.Mode, i: Index, s: Service, ok: bool)
    requires Paired(s.calls) && s.stopRequired == Owed(s.calls)
    ensures var t := AfterTransition(target, i, s, ok); Paired(t.calls) && t.stopRequired == Owed(t.calls)
  {
    hide Paired;
    var clear := if s.stopRequired then s.calls + [StopCall] else s.calls;
    if s.stopRequired { PairedSnoc(s.calls, StopCall); }
    PairedSnoc(clear, StartCall(ok, s.cleanup));
  }
}
