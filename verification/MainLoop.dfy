/** The threads around the coordinator (source/app/protocol_coordinator.c). The
    main thread observes playback and ticks; a tick synchronises the session with
    the registry in four regions, between which other threads run. Those claim
    and release the player under the transition lock, one at a time. */
module MainLoop {
  import opened Options
  import C = MediaCoordinator
  import L = ServiceLifecycle
  import T = TerminalRelease
  import S = MediaSession
  import O = Ownership

  /** Where coordinator_sync_active_media is; a lease of no owner is none. */
  datatype SyncAt =
    | NotSyncing | ReadRegistry | ReadSession(current: O.Lease) | Tell(current: O.Lease, observed: O.Lease)
    | SetMode(current: O.Lease)

  /** Where the thread is that holds the transition lock: in media_begin after its
      claim, or in one of the releases after the registry let go. */
  datatype Holder =
    | Free | TellClaim(lease: O.Lease) | DesireOwn(lease: O.Lease)
    | ReadCleared | TellRelease(observed: O.Lease) | DesireHome

  /** History: `ticked` says that a tick has set the mode since the last
      observation, and `turns` what it said at each observation made since the
      session's lease changed. */
  datatype System = System(base: T.System, sync: SyncAt, holder: Holder, ticked: bool, turns: seq<bool>)

  const INITIAL := System(T.INITIAL, NotSyncing, Free, true, [])

  // ------------------------------------------------------------------------ steps

  /** Withdraw is a release or reset of the registry outside the transition lock,
      as by a queued command that releases its lease. */
  datatype Step =
    | Work(work: L.Step)
    | Observe(active: bool, terminal: bool, now: nat)
    | Report(event: S.Event, now: nat)
    | Withdraw(withdrawal: O.Step)
    | Claim(owner: O.Owner, token: nat)
    | GiveUp(lease: O.Lease)
    | Hold(now: nat)
    | Sync(now: nat)

  /** The observing thread is the ticking one, and a tick goes on after its sync. */
  predicate Enabled(s: System, step: Step) {
    var c := s.base.services;
    match step
    case Work(l) =>
      L.Enabled(c, l) && !l.DesireStep? && (l.MainStepOf? && c.main == L.InTick(L.Decide) ==> s.sync == NotSyncing)
    case Observe(_, _, _) => c.main == L.Ready
    case Report(e, _) => !C.Authority(e.kind)
    case Withdraw(w) => !w.ClaimStep?
    case Claim(owner, _) => s.holder == Free && owner != O.NoOwner
    case GiveUp(lease) => s.holder == Free
    case Hold(_) => s.holder != Free
    case Sync(_) => s.sync != NotSyncing
  }

  /** What a step does to the two halves of the coordinator. */
  function BaseStep(s: System, step: Step): Option<T.Step> {
    match step
    case Work(l) => Some(T.ServiceStep(l))
    case Observe(active, terminal, now) =>
      Some(T.MediaStep(C.ObserveStep(active, terminal, now, T.ResourceReady(s.base.services))))
    case Report(e, now) => Some(T.MediaStep(C.EventStep(e, false, now)))
    case Withdraw(w) => Some(T.MediaStep(C.RegistryStep(w)))
    case Claim(owner, token) => Some(T.MediaStep(C.RegistryStep(O.ClaimStep(owner, token))))
    case GiveUp(lease) => Some(T.MediaStep(C.RegistryStep(O.ReleaseStep(lease))))
    case Hold(now) => HoldStep(s.holder, now)
    case Sync(now) => SyncStep(s.sync, now)
  }

  function Authoritative(kind: S.EventKind, lease: O.Lease, now: nat): T.Step {
    T.MediaStep(C.EventStep(S.Event(kind, lease), true, now))
  }

  function HoldStep(holder: Holder, now: nat): Option<T.Step> {
    match holder
    case TellClaim(lease) => Some(Authoritative(S.ClaimedEvent, lease, now))
    case DesireOwn(lease) => Some(T.ServiceStep(L.DesireStep(C.ModeForOwner(lease.owner))))
    case TellRelease(observed) => Some(Authoritative(S.ReleasedEvent, observed, now))
    case DesireHome => Some(T.ServiceStep(L.DesireStep(C.Home)))
    case _ => None
  }

  function SyncStep(sync: SyncAt, now: nat): Option<T.Step> {
    match sync
    case Tell(current, observed) =>
      if current.owner != O.NoOwner then
        if observed != current then Some(Authoritative(S.ClaimedEvent, current, now)) else None
      else if observed.owner != O.NoOwner then Some(Authoritative(S.ReleasedEvent, observed, now))
      else None
    case SetMode(current) => Some(T.ServiceStep(L.DesireStep(C.ModeForOwner(current.owner))))
    case _ => None
  }

  function NextHolder(s: System, step: Step): Holder {
    var media := s.base.media;
    match step
    case Claim(owner, token) => TellClaim(O.Claimed(media.registry, owner, token).current)
    case GiveUp(lease) => if lease == media.registry.current then ReadCleared else Free
    case Hold(_) =>
      (match s.holder
       case TellClaim(lease) => DesireOwn(lease)
       case ReadCleared => TellRelease(media.session.lease)
       case TellRelease(_) => DesireHome
       case _ => Free)
    case _ => s.holder
  }

  function NextSync(s: System, step: Step): SyncAt {
    match step
    case Work(l) => if l.MainStepOf? && s.base.services.main == L.InTick(L.SerialTick) then ReadRegistry else s.sync
    case Sync(_) =>
      (match s.sync
       case ReadRegistry => ReadSession(s.base.media.registry.current)
       case ReadSession(current) => Tell(current, s.base.media.session.lease)
       case Tell(current, _) => SetMode(current)
       case _ => NotSyncing)
    case _ => s.sync
  }

  function NextTicked(s: System, step: Step): bool {
    if step.Observe? then false else s.ticked || (step.Sync? && s.sync.SetMode?)
  }

  function NextTurns(s: System, base: T.System): seq<bool> {
    var before, after := s.base.media.observations, base.media.observations;
    if after == [] then [] else if |after| > |before| then s.turns + [s.ticked] else s.turns
  }

  function Apply(s: System, step: Step): System {
    var b := BaseStep(s, step);
    var base := if b.Some? then T.Apply(s.base, b.value) else s.base;
    System(base, NextSync(s, step), NextHolder(s, step), NextTicked(s, step), NextTurns(s, base))
  }

  ghost predicate Reaches(s: System, steps: seq<Step>, t: System)
    decreases |steps|
  {
    if steps == [] then s == t
    else Enabled(s, steps[0]) && Reaches(Apply(s, steps[0]), steps[1..], t)
  }

  ghost predicate Reachable(s: System) {
    exists steps: seq<Step> :: Reaches(INITIAL, steps, s)
  }

  // As many generations in a row as the serial comparison puts in order.
  const WINDOW: nat := 0x7FFF_FFFF

  /** No lease, or one of the last ones issued. */
  ghost predicate Recent(r: O.Registry, lease: O.Lease) {
    lease == O.NO_LEASE || exists i :: 0 <= i < |r.log| && |r.log| <= i + WINDOW && r.log[i] == lease
  }

  /** Neither the session's lease nor that of a sync under way is 2^31 issues old. */
  ghost predicate Timely(s: System) {
    var r := s.base.media.registry;
    && Recent(r, s.base.media.session.lease)
    && (s.sync.ReadSession? ==> Recent(r, s.sync.current))
    && (s.sync.Tell? ==> Recent(r, s.sync.current))
    && (s.sync.SetMode? ==> Recent(r, s.sync.current))
  }

  ghost predicate TimelyAlong(s: System, steps: seq<Step>)
    decreases |steps|
  {
    Timely(s) && (steps != [] ==> TimelyAlong(Apply(s, steps[0]), steps[1..]))
  }

  /** By a run in which none ever was. */
  ghost predicate TimelyReachable(s: System) {
    exists steps: seq<Step> :: Reaches(INITIAL, steps, s) && TimelyAlong(INITIAL, steps)
  }
}
