/** The media half of the coordinator (source/app/protocol_coordinator.c): how
    its session follows the ownership registry, and when an observed end of
    playback gives the lease up. Every step is one region under the
    coordinator's or the registry's lock; steps of different threads mix. */
module MediaCoordinator {
  import opened Options
  import opened Ownership
  import opened MediaSession
  import O = Ownership
  import S = MediaSession

  const RELEASE_GRACE_MS: nat := 1000

  datatype Mode = Home | IptvExclusive | DlnaExclusive | AirPlayExclusive

  function ModeForOwner(owner: Owner): Mode {
    match owner
    case Iptv => IptvExclusive
    case Dlna => DlnaExclusive
    case AirPlayVideo => AirPlayExclusive
    case AirPlayMirror => AirPlayExclusive
    case NoOwner => Home
  }

  /** One call of observe_playback while a lease was in place; `ready` is what it
      found of the exclusive resources. */
  datatype Observation = Observation(now: nat, active: bool, terminal: bool, ready: bool)

  /** `observations` is history: those made since the session's lease changed. */
  datatype Coordinator = Coordinator(
    registry: Registry, session: Session, activeMedia: Lease,
    observedGeneration: nat, seenActive: bool, claimMs: nat, readyMs: nat,
    desired: Mode, exclusive: bool,
    observations: seq<Observation>)

  // -------------------------------------------------------------------- regions

  predicate Authority(kind: EventKind) {
    kind == ClaimedEvent || kind == ReleasedEvent || kind == ResetEvent
  }

  /** coordinator_apply_media_event. */
  function ApplyEvent(c: Coordinator, e: Event, allowAuthority: bool, now: nat): (Coordinator, Status) {
    if !allowAuthority && Authority(e.kind) then (c, InvalidEvent)
    else
      var (t, status) := Transition(c.session, e);
      if status != Applied then (c, status)
      else if t.phase == Idle then
        (c.(session := t, activeMedia := t.lease, observedGeneration := 0, seenActive := false,
            claimMs := 0, readyMs := 0, observations := []), Applied)
      else if t.lease.generation != c.session.lease.generation then
        (c.(session := t, activeMedia := t.lease, observedGeneration := t.lease.generation, seenActive := false,
            claimMs := now, readyMs := 0, observations := []), Applied)
      else (c.(session := t, activeMedia := t.lease), Applied)
  }

  function SetDesired(c: Coordinator, mode: Mode): Coordinator {
    c.(desired := if c.exclusive then mode else Home)
  }

  /** coordinator_sync_active_media, when nothing else runs in between. */
  function Sync(c: Coordinator, now: nat): Coordinator {
    var current, observed := c.registry.current, c.session.lease;
    var has := current.owner != NoOwner;
    var changed := if has then observed != current else observed.owner != NoOwner;
    var t := if !changed then c
             else ApplyEvent(c, if has then Event(ClaimedEvent, current) else Event(ReleasedEvent, observed),
                             true, now).0;
    SetDesired(t, ModeForOwner(current.owner))
  }

  /** The locked region of protocol_coordinator_observe_playback, and the lease
      it decides to give up. */
  function Observe(c: Coordinator, active: bool, terminal: bool, now: nat, ready: bool)
    : (Coordinator, Option<Lease>)
  {
    if !c.exclusive || c.activeMedia.owner == NoOwner then (c, None)
    else
      var moved := c.observedGeneration != c.activeMedia.generation;
      var seen := active || (c.seenActive && !moved);
      var readyMs := if active then 0
                     else if !terminal || seen then c.readyMs
                     else if !ready then 0
                     else if c.readyMs == 0 then now
                     else c.readyMs;
      var t := c.(observedGeneration := c.activeMedia.generation, seenActive := seen, readyMs := readyMs,
                  claimMs := if moved then now else c.claimMs,
                  observations := c.observations + [Observation(now, active, terminal, ready)]);
      (t, if terminal && (seen || (readyMs > 0 && now >= readyMs && now - readyMs >= RELEASE_GRACE_MS))
          then Some(c.activeMedia) else None)
  }

  /** coordinator_set_active_media(NULL): the end of the session's own lease. */
  function ClearActiveMedia(c: Coordinator, now: nat): Coordinator {
    ApplyEvent(c, Event(ReleasedEvent, c.session.lease), true, now).0
  }

  /** protocol_coordinator_media_begin from its transition region on. */
  function Begin(c: Coordinator, owner: Owner, token: nat, accepts: bool, now: nat): Coordinator {
    var previous := c.registry.current;
    if owner == NoOwner || !accepts
       || (c.exclusive && previous.owner != NoOwner && ModeForOwner(previous.owner) != ModeForOwner(owner))
    then c
    else
      var claimed := c.(registry := Claimed(c.registry, owner, token));
      SetDesired(ApplyEvent(claimed, Event(ClaimedEvent, claimed.registry.current), true, now).0,
                 ModeForOwner(owner))
  }

  /** protocol_coordinator_media_release. */
  function ReleaseMedia(c: Coordinator, lease: Lease, now: nat): Coordinator {
    if lease != c.registry.current then c
    else SetDesired(ClearActiveMedia(c.(registry := Released(c.registry, lease)), now), Home)
  }

  /** protocol_coordinator_observe_playback as a whole, uninterrupted. */
  function ObserveAndRelease(c: Coordinator, active: bool, terminal: bool, now: nat, ready: bool): Coordinator {
    var reported := if active && c.registry.current.owner != NoOwner
                    then ApplyEvent(c, Event(ActiveEvent, c.registry.current), false, now).0 else c;
    var (t, release) := Observe(reported, active, terminal, now, ready);
    if release == None then t
    else ReleaseMedia(ApplyEvent(t, Event(Ended, release.value), false, now).0, release.value, now)
  }

  // ------------------------------------------------------------------------ runs

  datatype Step =
    | RegistryStep(step: O.Step)
    | EventStep(event: Event, allowAuthority: bool, now: nat)
    | ObserveStep(active: bool, terminal: bool, now: nat, ready: bool)
    | DesireStep(mode: Mode)
    | RestartStep(exclusive: bool)
    | EndStopStep

  /** A CLAIMED event may be late, but it carries a lease that was once issued. */
  predicate Enabled(c: Coordinator, step: Step) {
    step.EventStep? && step.event.kind == ClaimedEvent ==> step.event.lease in c.registry.log
  }

  function Restarted(c: Coordinator, exclusive: bool): Coordinator {
    Coordinator(c.registry, Fresh(0), NO_LEASE, 0, false, 0, 0, Home, exclusive, [])
  }

  function Apply(c: Coordinator, step: Step): Coordinator {
    match step
    case RegistryStep(s) => c.(registry := O.Apply(c.registry, s))
    case EventStep(e, allow, now) => ApplyEvent(c, e, allow, now).0
    case ObserveStep(active, terminal, now, ready) => Observe(c, active, terminal, now, ready).0
    case DesireStep(mode) => SetDesired(c, mode)
    case RestartStep(exclusive) => Restarted(c, exclusive)
    case EndStopStep => c.(exclusive := false)
  }

  ghost predicate Reaches(c: Coordinator, steps: seq<Step>, t: Coordinator)
    decreases |steps|
  {
    if steps == [] then c == t
    else Enabled(c, steps[0]) && Reaches(Apply(c, steps[0]), steps[1..], t)
  }

  const INITIAL := Coordinator(O.EMPTY, Fresh(0), NO_LEASE, 0, false, 0, 0, Home, false, [])

  ghost predicate Reachable(c: Coordinator) {
    exists steps: seq<Step> :: Reaches(INITIAL, steps, c)
  }

  // ------------------------------------------------------------------- invariant

  ghost predicate SessionFollows(c: Coordinator) {
    && S.Inv(c.session)
    && c.activeMedia == c.session.lease
    && c.observedGeneration == c.session.lease.generation
    && (c.session.lease != NO_LEASE ==> c.session.lease in c.registry.log)
  }

  /** Every terminal observation from the i-th on found the resources ready. */
  ghost predicate ReadySince(obs: seq<Observation>, i: nat) {
    forall k :: i <= k < |obs| && obs[k].terminal ==> obs[k].ready
  }

  ghost predicate SawActive(obs: seq<Observation>) {
    exists i :: 0 <= i < |obs| && obs[i].active
  }

  ghost predicate Starts(obs: seq<Observation>, i: nat) {
    i < |obs| && obs[i].terminal && obs[i].ready && ReadySince(obs, i)
  }

  ghost predicate TimersFollow(c: Coordinator) {
    && (c.seenActive <==> SawActive(c.observations))
    && (c.seenActive ==> c.readyMs == 0)
    && (c.readyMs > 0 ==> exists i: nat :: Starts(c.observations, i) && c.observations[i].now == c.readyMs)
    && (Nondecreasing(c.observations) && !c.seenActive ==>
          forall i: nat :: Starts(c.observations, i) ==> 0 < c.readyMs <= c.observations[i].now)
  }

  ghost predicate Nondecreasing(obs: seq<Observation>) {
    forall i, k :: 0 <= i <= k < |obs| ==> 0 < obs[i].now <= obs[k].now
  }

  ghost predicate Inv(c: Coordinator) {
    O.Inv(c.registry) && SessionFollows(c) && TimersFollow(c)
  }

  lemma EventKeepsInv(c: Coordinator, e: Event, allowAuthority: bool, now: nat)
    requires Inv(c) && (e.kind == ClaimedEvent ==> e.lease in c.registry.log)
    ensures Inv(ApplyEvent(c, e, allowAuthority, now).0)
  {
    TransitionKeepsInv(c.session, e);
    LeaseChangesOnlyForward(c.session, e);
  }

  /** The coordinator's session hears every event that may be told it, and no
      other; nothing else of the coordinator but its copies of the lease and its
      timers changes, and these only with the lease. */
  lemma SessionHears(c: Coordinator, e: Event, allowAuthority: bool, now: nat)
    requires Inv(c)
    ensures var (t, status) := ApplyEvent(c, e, allowAuthority, now);
      var hears := allowAuthority || e.kind !in {ClaimedEvent, ReleasedEvent, ResetEvent};
      && t.session == (if hears then Transition(c.session, e).0 else c.session)
      && status == (if hears then Transition(c.session, e).1 else InvalidEvent)
      && t.registry == c.registry && t.desired == c.desired && t.exclusive == c.exclusive
      && t.activeMedia == t.session.lease
      && (t.session.lease == c.session.lease && c.session.lease != NO_LEASE ==>
            t.seenActive == c.seenActive && t.readyMs == c.readyMs && t.claimMs == c.claimMs)
      && (t.session.lease != c.session.lease ==>
            !t.seenActive && t.readyMs == 0 && t.claimMs == if t.session.lease == NO_LEASE then 0 else now)
  {
    TransitionKeepsInv(c.session, e);
    LeaseChangesOnlyForward(c.session, e);
    hide TimersFollow, O.Inv;
  }

  /** Appending an observation keeps a streak unless it is terminal and unready. */
  lemma StartsSnoc(obs: seq<Observation>, o: Observation, i: nat)
    ensures i < |obs| ==> (Starts(obs + [o], i) <==> Starts(obs, i) && (o.terminal ==> o.ready))
    ensures i == |obs| ==> (Starts(obs + [o], i) <==> o.terminal && o.ready)
  {
    var w := obs + [o];
    assert w[|obs|] == o;
    assert forall k :: 0 <= k < |obs| ==> w[k] == obs[k];
  }

  lemma ObserveKeepsInv(c: Coordinator, active: bool, terminal: bool, now: nat, ready: bool)
    requires Inv(c)
    ensures Inv(Observe(c, active, terminal, now, ready).0)
  {
    if c.exclusive && c.activeMedia.owner != NoOwner {
      var t, n := Observe(c, active, terminal, now, ready).0, |c.observations|;
      var o := Observation(now, active, terminal, ready);
      assert t.observations[n] == o && forall k :: 0 <= k < n ==> t.observations[k] == c.observations[k];
      assert SawActive(t.observations) <==> SawActive(c.observations) || active;
      if t.readyMs > 0 {
        var i: nat := n;
        if c.readyMs > 0 {
          i :| Starts(c.observations, i) && c.observations[i].now == c.readyMs;
        }
        StartsSnoc(c.observations, o, i);
        assert Starts(t.observations, i) && t.observations[i].now == t.readyMs;
      }
      if Nondecreasing(t.observations) && !t.seenActive {
        ObserveTimerEarly(c, o);
      }
    }
  }

  lemma ObserveTimerEarly(c: Coordinator, o: Observation)
    requires Inv(c) && c.exclusive && c.activeMedia.owner != NoOwner && !o.active && !c.seenActive
    requires Nondecreasing(c.observations + [o])
    ensures var t := Observe(c, o.active, o.terminal, o.now, o.ready).0;
      forall i: nat :: Starts(t.observations, i) ==> 0 < t.readyMs <= t.observations[i].now
  {
    var t, n := Observe(c, o.active, o.terminal, o.now, o.ready).0, |c.observations|;
    assert t.observations == c.observations + [o];
    forall i: nat | Starts(t.observations, i) ensures 0 < t.readyMs <= t.observations[i].now {
      StartsSnoc(c.observations, o, i);
      assert 0 < t.observations[i].now <= t.observations[n].now;
      if c.readyMs > 0 {
        var k: nat :| Starts(c.observations, k) && c.observations[k].now == c.readyMs;
        assert t.observations[k].now <= t.observations[n].now;
      }
      if i < n {
        assert forall k :: 0 <= k < n ==> t.observations[k] == c.observations[k];
        assert Nondecreasing(c.observations);
      }
    }
  }

  lemma StepKeepsInv(c: Coordinator, step: Step)
    requires Inv(c) && Enabled(c, step)
    ensures Inv(Apply(c, step))
  {
    match step
    case RegistryStep(s) => O.StepKeepsInv(c.registry, s);
    case EventStep(e, allow, now) => EventKeepsInv(c, e, allow, now);
    case ObserveStep(active, terminal, now, ready) => ObserveKeepsInv(c, active, terminal, now, ready);
    case _ =>
  }

  lemma {:induction false} RunKeepsInv(c: Coordinator, steps: seq<Step>, t: Coordinator)
    requires Inv(c) && Reaches(c, steps, t)
    ensures Inv(t)
    decreases |steps|
  {
    if steps != [] {
      StepKeepsInv(c, steps[0]);
      RunKeepsInv(Apply(c, steps[0]), steps[1..], t);
    }
  }

  lemma ReachableInv(c: Coordinator)
    requires Reachable(c)
    ensures Inv(c)
  {
    var steps: seq<Step> :| Reaches(INITIAL, steps, c);
    RunKeepsInv(INITIAL, steps, c);
  }

  // ----------------------------------------------------------------- convergence

  /** The session agrees with the registry. */
  ghost predicate Converged(c: Coordinator) {
    && c.session.lease == c.registry.current && c.activeMedia == c.registry.current
    && (c.registry.current == NO_LEASE ==> c.session.phase == Idle)
    && c.desired == if c.exclusive then ModeForOwner(c.registry.current.owner) else Home
  }

  /** Exactly when one uninterrupted sync brings a reachable coordinator into
      agreement with the registry. */
  lemma SyncConvergesExactly(c: Coordinator, now: nat)
    requires Reachable(c)
    ensures Converged(Sync(c, now)) <==>
      || c.registry.current == NO_LEASE || c.session.lease == c.registry.current
      || c.session.lease == NO_LEASE
      || GenerationNewer(c.registry.current.generation, c.session.lease.generation)
  {
    ReachableInv(c);
    var current := c.registry.current;
    if current != NO_LEASE {
      assert Issued(c.registry.log, |c.registry.log| - 1);
      assert LeaseValid(current);
    }
  }

  /** It does so from every reachable state in which the session's lease is at
      most 2^31 - 2 generations old, late events and releases behind the
      coordinator's back included. */
  lemma SyncConverges(c: Coordinator, now: nat, j: nat)
    requires Reachable(c)
    requires c.session.lease == NO_LEASE
             || (j < |c.registry.log| && c.registry.log[j] == c.session.lease
                 && |c.registry.log| - 1 - j <= 0x7FFF_FFFE)
    ensures Converged(Sync(c, now)) && Sync(c, now).registry == c.registry
  {
    ReachableInv(c);
    SyncConvergesExactly(c, now);
    var last := |c.registry.log| - 1;
    if c.registry.current != NO_LEASE && c.session.lease != NO_LEASE && c.session.lease != c.registry.current {
      assert Issued(c.registry.log, j) && Issued(c.registry.log, last);
      NewerExactly(j + 1, last - j);
    }
  }

  lemma {:induction false} ReachesOneMore(c: Coordinator, steps: seq<Step>, t: Coordinator, step: Step)
    requires Reaches(c, steps, t) && Enabled(t, step)
    ensures Reaches(c, steps + [step], Apply(t, step))
    decreases |steps|
  {
    if steps == [] {
      assert (steps + [step])[1..] == [];
    } else {
      ReachesOneMore(Apply(c, steps[0]), steps[1..], t, step);
      assert (steps + [step])[1..] == steps[1..] + [step];
    }
  }

  lemma Then(c: Coordinator, step: Step) returns (t: Coordinator)
    requires Reachable(c) && Enabled(c, step)
    ensures Reachable(t) && t == Apply(c, step)
  {
    var steps: seq<Step> :| Reaches(INITIAL, steps, c);
    ReachesOneMore(INITIAL, steps, c, step);
    t := Apply(c, step);
  }

  /** n claims that the session does not hear of. */
  lemma {:induction false} ClaimUnheard(c: Coordinator, n: nat) returns (t: Coordinator)
    requires Reachable(c) && c.registry.current != NO_LEASE
    ensures Reachable(t) && t.session == c.session && t.registry.current != NO_LEASE
    ensures |t.registry.log| == |c.registry.log| + n
  {
    if n == 0 {
      t := c;
    } else {
      t := ClaimUnheard(c, n - 1);
      t := Then(t, RegistryStep(ClaimStep(Dlna, 0)));
    }
  }

  /** A lag of 2^31 generations is too long, and a run gets there: the session
      takes the lease in force for an old one, and a sync changes nothing. */
  lemma HalfACycleIsTooOld(now: nat) returns (c: Coordinator)
    ensures Reachable(c) && c.registry.current != NO_LEASE
    ensures !Converged(Sync(c, now)) && Sync(c, now).session == c.session
  {
    assert Reaches(INITIAL, [], INITIAL);
    c := Then(INITIAL, RegistryStep(ClaimStep(Dlna, 0)));
    var first := c.registry.current;
    assert first == Lease(Dlna, 0, 1) && c.registry.log == [first];
    c := Then(c, EventStep(Event(ClaimedEvent, first), true, 0));
    assert c.session.lease == first;
    c := ClaimUnheard(c, 0x8000_0000);
    ReachableInv(c);
    assert Issued(c.registry.log, |c.registry.log| - 1);
    assert Generation(1) == 1;
    NewerExactly(1, 0x8000_0000);
    SyncConvergesExactly(c, now);
  }

  // ---------------------------------------------------------------- auto-release

  /** Playback was seen active, or some terminal observation at least the grace
      period ago found the resources ready and so did every one since. */
  ghost predicate Justified(obs: seq<Observation>, now: nat) {
    || SawActive(obs)
    || exists i: nat :: Starts(obs, i) && obs[i].now + RELEASE_GRACE_MS <= now
  }

  /** A lease is given up only on a terminal observation, only while it is the
      session's lease, and only when justified by what was observed under it. */
  lemma AutoReleaseIsJustified(c: Coordinator, active: bool, terminal: bool, now: nat, ready: bool)
    requires Reachable(c)
    ensures var (t, release) := Observe(c, active, terminal, now, ready);
      release.Some? ==>
        terminal && release.value == c.session.lease != NO_LEASE && Justified(t.observations, now)
  {
    ReachableInv(c);
    ObserveKeepsInv(c, active, terminal, now, ready);
  }

  /** And, on a clock that runs forward from a positive time, whenever justified. */
  lemma AutoReleaseExactly(c: Coordinator, active: bool, terminal: bool, now: nat, ready: bool)
    requires Reachable(c) && Nondecreasing(Observe(c, active, terminal, now, ready).0.observations)
    ensures var (t, release) := Observe(c, active, terminal, now, ready);
      release.Some? <==>
        c.exclusive && c.session.lease != NO_LEASE && terminal && Justified(t.observations, now)
  {
    ReachableInv(c);
    AutoReleaseIsJustified(c, active, terminal, now, ready);
    ObserveKeepsInv(c, active, terminal, now, ready);
  }

  /** Whatever happened between the decision and the release, a newer claim is
      not touched: within a full cycle of generations no other lease is equal. */
  lemma AutoReleaseSparesNewerOwner(r: Registry, j: nat)
    requires O.Inv(r) && j < |r.log| && r.log[j] != NO_LEASE
    requires j < |r.log| - 1 < j + CYCLE
    ensures Released(r, r.log[j]) == r
  {
    var last := |r.log| - 1;
    assert Issued(r.log, j) && Issued(r.log, last);
    SameGeneration(j + 1, last + 1);
  }

  /** The receivers that share the player's resources. */
  predicate SameFamily(a: Owner, b: Owner) {
    a == b || (a in {AirPlayVideo, AirPlayMirror} && b in {AirPlayVideo, AirPlayMirror})
  }

  /** Exactly when a begin claims the player: for a real owner, while media is
      accepted, and with exclusive resources only from nobody or its own family. */
  lemma BeginsExactly(c: Coordinator, owner: Owner, token: nat, accepts: bool, now: nat)
    requires Reachable(c)
    ensures var t := Begin(c, owner, token, accepts, now);
      var claims := owner != NoOwner && accepts
                    && (!c.exclusive || c.registry.current == NO_LEASE || SameFamily(c.registry.current.owner, owner));
      && (claims ==> t.registry == Claimed(c.registry, owner, token) && |t.registry.log| == |c.registry.log| + 1)
      && (!claims ==> t == c)
  {
    ReachableInv(c);
    if c.registry.current != NO_LEASE {
      assert Issued(c.registry.log, |c.registry.log| - 1);
    }
  }

  lemma ReportActivates(c: Coordinator, now: nat)
    requires Inv(c) && c.session.lease == c.registry.current
    ensures var t := ApplyEvent(c, Event(ActiveEvent, c.registry.current), false, now).0;
      && t.registry == c.registry && t.session.lease == c.session.lease && t.desired == c.desired
      && (c.session.lease != NO_LEASE && !Closed(c.session.phase) ==> t.session.phase == Active)
  {
    hide TimersFollow, O.Inv;
  }

  lemma GivingUpEnds(c: Coordinator, now: nat)
    requires Inv(c) && c.session.lease == c.registry.current != NO_LEASE
    ensures var ended := ApplyEvent(c, Event(Ended, c.registry.current), false, now).0;
      var t := ReleaseMedia(ended, c.registry.current, now);
      Converged(t) && t.registry.current == NO_LEASE
  {
    hide TimersFollow, O.Inv;
  }

  /** A whole observation: an active report under the lease in force makes an open
      session active, and a decision to give that lease up leaves nobody with the
      player; otherwise the registry stays. */
  lemma ObservationEnds(c: Coordinator, active: bool, terminal: bool, now: nat, ready: bool)
    requires Reachable(c) && c.session.lease == c.registry.current
    ensures var t := ObserveAndRelease(c, active, terminal, now, ready);
      var reported := if active then ApplyEvent(c, Event(ActiveEvent, c.registry.current), false, now).0 else c;
      if Observe(reported, active, terminal, now, ready).1.Some? then Converged(t) && t.registry.current == NO_LEASE
      else
        && t.registry == c.registry && t.session.lease == c.session.lease && t.desired == c.desired
        && (active && c.session.lease != NO_LEASE && !Closed(c.session.phase) ==> t.session.phase == Active)
        && (!active ==> t.session == c.session)
  {
    ReachableInv(c);
    ReportActivates(c, now);
    EventKeepsInv(c, Event(ActiveEvent, c.registry.current), false, now);
    var reported := if active then ApplyEvent(c, Event(ActiveEvent, c.registry.current), false, now).0 else c;
    ObserveKeepsInv(reported, active, terminal, now, ready);
    var t := Observe(reported, active, terminal, now, ready).0;
    assert reported.activeMedia == reported.session.lease;
    var report := Event(ActiveEvent, c.registry.current);
    assert c.registry.current.owner == NoOwner ==> ApplyEvent(c, report, false, now).0 == c;
    hide TimersFollow, O.Inv, ApplyEvent, S.Inv, ReleaseMedia, Converged;
    if c.registry.current != NO_LEASE { GivingUpEnds(t, now); }
  }

  /** Begin and release, uninterrupted, leave session and registry in agreement. */
  lemma BeginConverges(c: Coordinator, owner: Owner, token: nat, accepts: bool, now: nat, j: nat)
    requires Reachable(c) && Begin(c, owner, token, accepts, now) != c
    requires c.session.lease == NO_LEASE
             || (j < |c.registry.log| && c.registry.log[j] == c.session.lease
                 && |c.registry.log| - j <= 0x7FFF_FFFE)
    ensures Converged(Begin(c, owner, token, accepts, now))
    ensures var t := Begin(c, owner, token, accepts, now);
      t.session.phase == Preparing && t.registry.current.owner == owner && t.registry.current.token == token
  {
    ReachableInv(c);
    var r := Claimed(c.registry, owner, token);
    O.StepKeepsInv(c.registry, ClaimStep(owner, token));
    assert Issued(r.log, |c.registry.log|);
    if c.session.lease != NO_LEASE {
      assert Issued(c.registry.log, j);
      NewerExactly(j + 1, |c.registry.log| - j);
    }
  }

  lemma ReleaseConverges(c: Coordinator, lease: Lease, now: nat)
    requires Reachable(c) && lease == c.registry.current
    ensures Converged(ReleaseMedia(c, lease, now)) && ReleaseMedia(c, lease, now).session.lease == NO_LEASE
  {
    ReachableInv(c);
  }

  // ----------------------------------------------------------------- the struct

  class CoordinatorCell {
    const ownership: PlayerOwnership
    const session: SessionCell
    var activeMedia: Lease
    var observedGeneration: nat
    var seenActive: bool
    var claimMs: nat
    var readyMs: nat
    var desired: Mode
    var exclusive: bool
    ghost var observations: seq<Observation>

    ghost function Abs(): Coordinator
      reads this, ownership, session
    {
      Coordinator(ownership.Abs(), session.Abs(), activeMedia, observedGeneration, seenActive,
                  claimMs, readyMs, desired, exclusive, observations)
    }

    ghost predicate Valid()
      reads this, ownership, session
    {
      ownership.Valid()
    }

    constructor ()
      ensures Valid() && fresh(ownership) && fresh(session) && Abs() == INITIAL
    {
      ownership := new PlayerOwnership();
      session := new SessionCell();
      activeMedia, observedGeneration, seenActive := NO_LEASE, 0, false;
      claimMs, readyMs, desired, exclusive, observations := 0, 0, Home, false, [];
    }

    /** coordinator_apply_media_event. */
    method HandleEvent(event: Event, allowAuthority: bool, now: nat) returns (status: Status)
      requires Valid()
      modifies this, session
      ensures Valid() && (Abs(), status) == ApplyEvent(old(Abs()), event, allowAuthority, now)
    {
      if !allowAuthority
         && (event.kind == ClaimedEvent || event.kind == ReleasedEvent || event.kind == ResetEvent) {
        return InvalidEvent;
      }
      var previousGeneration := session.lease.generation;
      status := session.Handle(event);
      if status == Applied {
        activeMedia := session.lease;
        if session.phase == Idle {
          observedGeneration, seenActive, claimMs, readyMs := 0, false, 0, 0;
          observations := [];
        } else if session.lease.generation != previousGeneration {
          observedGeneration, seenActive, claimMs, readyMs := session.lease.generation, false, now, 0;
          observations := [];
        }
      }
    }

    method SetDesiredMode(mode: Mode)
      requires Valid()
      modifies this`desired
      ensures Valid() && Abs() == SetDesired(old(Abs()), mode)
    {
      desired := if exclusive then mode else Home;
    }

    method SyncActiveMedia(now: nat)
      requires Valid()
      modifies this, session
      ensures Valid() && Abs() == Sync(old(Abs()), now)
    {
      var current := ownership.current;
      var hasCurrent := current.owner != NoOwner;
      var observed := session.lease;
      var changed := if hasCurrent
                     then observed.owner != current.owner || observed.token != current.token
                          || observed.generation != current.generation
                     else observed.owner != NoOwner;
      if changed {
        var event := if hasCurrent then Event(ClaimedEvent, current) else Event(ReleasedEvent, observed);
        var _ := HandleEvent(event, true, now);
      }
      SetDesiredMode(if hasCurrent then ModeForOwner(current.owner) else Home);
    }

    /** The answer says whether the claim was made; `accepts` is the lifecycle. */
    method MediaBegin(owner: Owner, token: nat, accepts: bool, now: nat) returns (begun: bool, lease: Lease)
      requires Valid()
      modifies this, session, ownership
      ensures Valid() && Abs() == Begin(old(Abs()), owner, token, accepts, now)
      ensures begun ==> lease == ownership.current && lease.owner == owner && lease.token == token
      ensures !begun ==> Abs() == old(Abs())
    {
      lease := NO_LEASE;
      if owner == NoOwner {
        return false, lease;
      }
      var previous := ownership.current;
      var hasPrevious := previous.owner != NoOwner;
      if !accepts || (exclusive && hasPrevious && ModeForOwner(previous.owner) != ModeForOwner(owner)) {
        return false, lease;
      }
      var claimed;
      claimed, lease, previous := ownership.Claim(owner, token);
      var _ := HandleEvent(Event(ClaimedEvent, lease), true, now);
      SetDesiredMode(ModeForOwner(owner));
      return true, lease;
    }

    method MediaRelease(lease: Lease, now: nat) returns (released: bool)
      requires Valid()
      modifies this, session, ownership
      ensures Valid() && Abs() == ReleaseMedia(old(Abs()), lease, now)
      ensures released <==> lease == old(ownership.current)
    {
      released := ownership.Release(lease);
      if released {
        var _ := HandleEvent(Event(ReleasedEvent, session.lease), true, now);
        SetDesiredMode(Home);
      }
    }

    /** `resourceReady` is what the exclusive services look like at this moment. */
    method ObservePlayback(active: bool, terminal: bool, now: nat, resourceReady: bool)
      requires Valid()
      modifies this, session, ownership
      ensures Valid() && Abs() == ObserveAndRelease(old(Abs()), active, terminal, now, resourceReady)
    {
      hide ApplyEvent, ReleaseMedia, O.Inv;
      if active && ownership.current.owner != NoOwner {
        var _ := HandleEvent(Event(ActiveEvent, ownership.current), false, now);
      }
      var release := false;
      if exclusive && activeMedia.owner != NoOwner {
        if observedGeneration != activeMedia.generation {
          observedGeneration, seenActive, claimMs := activeMedia.generation, false, now;
        }
        if active {
          seenActive, readyMs := true, 0;
        }
        if !active && terminal && !seenActive {
          if !resourceReady {
            readyMs := 0;
          } else if readyMs == 0 {
            readyMs := now;
          }
        }
        release := terminal
                   && (seenActive || (readyMs > 0 && now >= readyMs && now - readyMs >= RELEASE_GRACE_MS));
        observations := observations + [Observation(now, active, terminal, resourceReady)];
      }
      if release {
        var lease := activeMedia;
        var _ := HandleEvent(Event(Ended, lease), false, now);
        var _ := MediaRelease(lease, now);
      }
    }
  }
}
