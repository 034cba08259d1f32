/** What the main thread and the threads that claim and release keep between them
    while a sync is under way. */
module MainLoopInvariant {
  import opened Options
  import opened MainLoop
  import C = MediaCoordinator
  import L = ServiceLifecycle
  import T = TerminalRelease
  import S = MediaSession
  import O = Ownership

  // ------------------------------------------------------------------- invariant

  predicate Newer(a: O.Lease, b: O.Lease) {
    S.GenerationNewer(a.generation, b.generation)
  }

  predicate InForce(r: O.Registry, lease: O.Lease) {
    lease != O.NO_LEASE && r.current == lease
  }

  /** No lease was issued after this one, and the recent ones look older. */
  ghost predicate Newest(r: O.Registry, lease: O.Lease) {
    && lease != O.NO_LEASE && lease in r.log && (r.current == lease || r.current == O.NO_LEASE)
    && forall i :: 0 <= i < |r.log| && |r.log| <= i + WINDOW ==> NotAfter(r.log[i], lease)
  }

  predicate NotAfter(other: O.Lease, lease: O.Lease) {
    other == O.NO_LEASE || other == lease || (Newer(lease, other) && !Newer(other, lease))
  }

  /** What was read is not from before the session's lease. */
  predicate Since(current: O.Lease, lease: O.Lease) {
    current == O.NO_LEASE || current == lease || Newer(current, lease)
  }

  /** Of a sync under way, when `observed` says that the session's lease has been
      observed: then it has been the session's since before the tick. */
  ghost predicate SyncOk(r: O.Registry, lease: O.Lease, observed: bool, sync: SyncAt) {
    match sync
    case ReadSession(current) => observed ==> Since(current, lease)
    case Tell(current, seen) =>
      && (observed ==> seen == lease && Since(current, lease))
      && (InForce(r, current) && seen == current ==> lease == current)
    case SetMode(current) =>
      (observed ==> current == lease) && (InForce(r, current) ==> lease == current)
    case _ => true
  }

  /** The present or last tick found a lease in the registry. */
  predicate Found(sync: SyncAt, ticked: bool) {
    ticked || (sync.ReadSession? && sync.current != O.NO_LEASE)
    || (sync.Tell? && sync.current != O.NO_LEASE) || (sync.SetMode? && sync.current != O.NO_LEASE)
  }

  /** What the sync has still to tell is this lease or none. */
  predicate TellsOnly(sync: SyncAt, lease: O.Lease) {
    && (sync.ReadSession? ==> sync.current == lease || sync.current == O.NO_LEASE)
    && (sync.Tell? ==> sync.current == lease || sync.current == O.NO_LEASE)
  }

  ghost predicate HolderOk(
    r: O.Registry, lease: O.Lease, observed: bool, sync: SyncAt, ticked: bool, holder: Holder)
  {
    match holder
    case Free => true
    case TellClaim(x) => Newest(r, x)
    case DesireOwn(x) => Newest(r, x) && (lease == x || (lease == O.NO_LEASE && TellsOnly(sync, x)))
    case ReadCleared => r.current == O.NO_LEASE
    case TellRelease(seen) => r.current == O.NO_LEASE && (observed && Found(sync, ticked) ==> seen == lease)
    case DesireHome => r.current == O.NO_LEASE && !(observed && Found(sync, ticked))
  }

  /** The part about the threads, on the values it depends on. */
  ghost predicate Core(
    r: O.Registry, lease: O.Lease, observed: bool, own: bool, sync: SyncAt, holder: Holder, ticked: bool)
  {
    && O.Inv(r) && (observed ==> lease != O.NO_LEASE)
    && SyncOk(r, lease, observed, sync) && HolderOk(r, lease, observed, sync, ticked, holder)
    && (observed && ticked ==> own)
  }

  ghost predicate TurnsOk(c: C.Coordinator, seen: seq<L.Coordinator>, turns: seq<bool>) {
    && |turns| == |seen| == |c.observations|
    && forall k :: 1 <= k < |turns| && turns[k] ==> seen[k].goal.desired == C.ModeForOwner(c.session.lease.owner)
  }

  ghost predicate CoreOf(s: System) {
    var c := s.base.media;
    Core(c.registry, c.session.lease, c.observations != [], T.Own(c), s.sync, s.holder, s.ticked)
  }

  ghost predicate Inv(s: System) {
    && T.Inv(s.base) && CoreOf(s) && TurnsOk(s.base.media, s.base.seen, s.turns)
    && (s.sync != NotSyncing ==> s.base.services.main == L.InTick(L.Decide))
  }

  // ----------------------------------------------------------- leases in order

  lemma NewerOneWay(a: nat, b: nat)
    requires a < O.TWO_TO_32 && b < O.TWO_TO_32 && S.GenerationNewer(b, a)
    ensures !S.GenerationNewer(a, b)
  {
    assert (b - a) % O.TWO_TO_32 == if b >= a then b - a else b - a + O.TWO_TO_32;
    assert (a - b) % O.TWO_TO_32 == if a >= b then a - b else a - b + O.TWO_TO_32;
  }

  /** Within the window the serial comparison is the order of issue. */
  lemma InOrder(r: O.Registry, i: nat, k: nat)
    requires O.Inv(r) && i <= k < |r.log| <= i + WINDOW
    requires r.log[i] != O.NO_LEASE && r.log[k] != O.NO_LEASE
    ensures r.log[i] == r.log[k] <==> i == k
    ensures Newer(r.log[k], r.log[i]) <==> i < k
    ensures !Newer(r.log[i], r.log[k])
  {
    assert O.Issued(r.log, i) && O.Issued(r.log, k);
    O.SameGeneration(i + 1, k + 1);
    S.NewerExactly(i + 1, k - i);
    hide S.GenerationNewer;
    if i < k { NewerOneWay(r.log[i].generation, r.log[k].generation); }
  }

  lemma CurrentIsNewest(r: O.Registry)
    requires O.Inv(r) && r.current != O.NO_LEASE
    ensures Newest(r, r.current)
  {
    var last := |r.log| - 1;
    forall i | 0 <= i < |r.log| && |r.log| <= i + WINDOW ensures NotAfter(r.log[i], r.current) {
      if r.log[i] != O.NO_LEASE { InOrder(r, i, last); }
    }
    hide Newer;
  }

  lemma IssuedValid(r: O.Registry, lease: O.Lease)
    requires O.Inv(r) && lease in r.log && lease != O.NO_LEASE
    ensures S.LeaseValid(lease)
  {
    var i :| 0 <= i < |r.log| && r.log[i] == lease;
    assert O.Issued(r.log, i);
  }

  // --------------------------------------------- what keeps Core, on its values

  /** The session's lease after a CLAIMED event for a known lease, and after a
      RELEASED event. */
  function AfterClaim(lease: O.Lease, x: O.Lease): O.Lease {
    if lease == O.NO_LEASE || Newer(x, lease) then x else lease
  }

  function AfterRelease(lease: O.Lease, x: O.Lease): O.Lease {
    if x == lease then O.NO_LEASE else lease
  }

  lemma WithdrawalKeepsCore(
    r: O.Registry, w: O.Step, lease: O.Lease, observed: bool, own: bool, sync: SyncAt, holder: Holder, ticked: bool)
    requires Core(r, lease, observed, own, sync, holder, ticked) && !w.ClaimStep?
    ensures Core(O.Apply(r, w), lease, observed, own, sync, holder, ticked)
  {
    O.StepKeepsInv(r, w);
  }

  ghost predicate SyncRecent(r: O.Registry, sync: SyncAt) {
    && (sync.ReadSession? ==> Recent(r, sync.current))
    && (sync.Tell? ==> Recent(r, sync.current))
    && (sync.SetMode? ==> Recent(r, sync.current))
  }

  /** A new lease is not one of the recent ones. */
  lemma ClaimIsNew(r: O.Registry, owner: O.Owner, token: nat, x: O.Lease)
    requires O.Inv(r) && owner != O.NoOwner && Recent(r, x)
    ensures x != O.Claimed(r, owner, token).current
  {
    if x != O.NO_LEASE {
      var i :| 0 <= i < |r.log| && |r.log| <= i + WINDOW && r.log[i] == x;
      assert O.Issued(r.log, i);
      O.NextIsNext(|r.log|);
      O.SameGeneration(i + 1, |r.log| + 1);
    }
  }

  lemma ClaimKeepsCore(
    r: O.Registry, owner: O.Owner, token: nat, lease: O.Lease, observed: bool, own: bool, sync: SyncAt, ticked: bool)
    requires Core(r, lease, observed, own, sync, Free, ticked) && owner != O.NoOwner && SyncRecent(r, sync)
    ensures var t := O.Claimed(r, owner, token);
      Core(t, lease, observed, own, sync, TellClaim(t.current), ticked)
  {
    var t := O.Claimed(r, owner, token);
    O.StepKeepsInv(r, O.ClaimStep(owner, token));
    CurrentIsNewest(t);
    if sync.Tell? || sync.SetMode? { ClaimIsNew(r, owner, token, sync.current); }
    hide Newer, Recent, Newest;
  }

  lemma GivingUpKeepsCore(
    r: O.Registry, x: O.Lease, lease: O.Lease, observed: bool, own: bool, sync: SyncAt, ticked: bool)
    requires Core(r, lease, observed, own, sync, Free, ticked)
    ensures Core(O.Released(r, x), lease, observed, own, sync, if x == r.current then ReadCleared else Free, ticked)
  {
    O.StepKeepsInv(r, O.ReleaseStep(x));
  }

  lemma TellingClaimKeepsCore(
    r: O.Registry, x: O.Lease, lease: O.Lease, observed: bool, own: bool, sync: SyncAt, ticked: bool)
    requires Core(r, lease, observed, own, sync, TellClaim(x), ticked) && Recent(r, lease)
    ensures var next := AfterClaim(lease, x);
      Core(r, next, observed && next == lease, own, sync, DesireOwn(x), ticked)
  {
    hide Newer, O.Inv;
  }

  lemma DesiringKeepsCore(
    r: O.Registry, lease: O.Lease, observed: bool, own: bool, now: bool, sync: SyncAt, holder: Holder, ticked: bool)
    requires Core(r, lease, observed, own, sync, holder, ticked)
    requires (holder.DesireOwn? && (lease == holder.lease ==> now)) || holder.DesireHome?
    ensures Core(r, lease, observed, now, sync, Free, ticked)
  {}

  lemma TellingReleaseKeepsCore(
    r: O.Registry, x: O.Lease, lease: O.Lease, observed: bool, own: bool, sync: SyncAt, ticked: bool)
    requires Core(r, lease, observed, own, sync, TellRelease(x), ticked)
    ensures var next := AfterRelease(lease, x);
      Core(r, next, observed && next == lease, own, sync, DesireHome, ticked)
  {}

  lemma ReadingKeepsCore(
    r: O.Registry, lease: O.Lease, observed: bool, own: bool, sync: SyncAt, holder: Holder, ticked: bool)
    requires Core(r, lease, observed, own, sync, holder, ticked) && Recent(r, lease)
    ensures sync == ReadRegistry ==> Core(r, lease, observed, own, ReadSession(r.current), holder, ticked)
    ensures sync.ReadSession? ==> Core(r, lease, observed, own, Tell(sync.current, lease), holder, ticked)
  {
    if r.current != O.NO_LEASE { CurrentIsNewest(r); }
    hide Newer, O.Inv;
  }

  /** The session's lease after the event that a sync tells, if any. */
  function AfterTell(lease: O.Lease, current: O.Lease, seen: O.Lease): O.Lease {
    if current.owner != O.NoOwner then (if seen != current then AfterClaim(lease, current) else lease)
    else if seen.owner != O.NoOwner then AfterRelease(lease, seen)
    else lease
  }

  lemma SyncTellingKeepsCore(
    r: O.Registry, lease: O.Lease, observed: bool, own: bool, current: O.Lease, seen: O.Lease, holder: Holder,
    ticked: bool)
    requires Core(r, lease, observed, own, Tell(current, seen), holder, ticked)
    requires Recent(r, current) && Recent(r, lease)
    ensures var next := AfterTell(lease, current, seen);
      Core(r, next, observed && next == lease, own, SetMode(current), holder, ticked)
  {
    if current != O.NO_LEASE { IssuedValid(r, current); }
    if lease != O.NO_LEASE { IssuedValid(r, lease); }
    if InForce(r, current) { CurrentIsNewest(r); }
    hide Newer, O.Inv;
  }

  lemma SettingKeepsCore(
    r: O.Registry, lease: O.Lease, observed: bool, own: bool, now: bool, current: O.Lease, holder: Holder, ticked: bool)
    requires Core(r, lease, observed, own, SetMode(current), holder, ticked) && (lease == current ==> now)
    ensures Core(r, lease, observed, now, NotSyncing, holder, true)
  {}

  lemma ObservingKeepsCore(
    r: O.Registry, lease: O.Lease, observed: bool, own: bool, holder: Holder, ticked: bool, after: bool)
    requires Core(r, lease, observed, own, NotSyncing, holder, ticked) && (after ==> observed || lease != O.NO_LEASE)
    ensures Core(r, lease, after, own, NotSyncing, holder, false)
  {}

  lemma RestartingKeepsCore(
    r: O.Registry, lease: O.Lease, observed: bool, own: bool, now: bool, holder: Holder, ticked: bool)
    requires Core(r, lease, observed, own, NotSyncing, holder, ticked)
    ensures Core(r, O.NO_LEASE, false, now, NotSyncing, holder, ticked)
  {}

  lemma TickingKeepsCore(
    r: O.Registry, lease: O.Lease, observed: bool, own: bool, holder: Holder, ticked: bool)
    requires Core(r, lease, observed, own, NotSyncing, holder, ticked)
    ensures Core(r, lease, observed, own, ReadRegistry, holder, ticked)
  {}

  // -------------------------------------------------- what the steps do to them

  lemma EventDoes(c: C.Coordinator, e: S.Event, allow: bool, now: nat)
    requires C.Inv(c) && (c.session.lease == O.NO_LEASE ==> c.observations == [])
    ensures var t := C.ApplyEvent(c, e, allow, now).0;
      && t.registry == c.registry && t.desired == c.desired && t.exclusive == c.exclusive
      && t.observations == if t.session.lease == c.session.lease then c.observations else []
  {
    S.TransitionKeepsInv(c.session, e);
    S.LeaseChangesOnlyForward(c.session, e);
    hide C.TimersFollow, O.Inv;
  }

  lemma ClaimEventDoes(c: C.Coordinator, x: O.Lease, now: nat)
    requires C.Inv(c) && x != O.NO_LEASE && x in c.registry.log
    ensures C.ApplyEvent(c, S.Event(S.ClaimedEvent, x), true, now).0.session.lease == AfterClaim(c.session.lease, x)
  {
    IssuedValid(c.registry, x);
    if c.session.lease != O.NO_LEASE { IssuedValid(c.registry, c.session.lease); }
    hide C.TimersFollow, O.Inv, S.GenerationNewer;
  }

  lemma ReleaseEventDoes(c: C.Coordinator, x: O.Lease, now: nat)
    requires C.Inv(c)
    ensures C.ApplyEvent(c, S.Event(S.ReleasedEvent, x), true, now).0.session.lease == AfterRelease(c.session.lease, x)
  {
    hide C.TimersFollow, O.Inv;
  }

  lemma ReportDoes(c: C.Coordinator, e: S.Event, now: nat)
    requires C.Inv(c) && !C.Authority(e.kind)
    ensures C.ApplyEvent(c, e, false, now).0.session.lease == c.session.lease
  {
    S.LeaseChangesOnlyForward(c.session, e);
    hide C.TimersFollow, O.Inv;
  }

  /** A step that observes nothing keeps the turns or, with another lease, clears
      them. */
  lemma TurnsKept(s: System, base: T.System)
    requires TurnsOk(s.base.media, s.base.seen, s.turns) && T.SeenFollows(base.media.observations, base.seen)
    requires base.media.observations == []
             || (base.media.observations == s.base.media.observations && base.seen == s.base.seen
                 && base.media.session.lease == s.base.media.session.lease)
    ensures TurnsOk(base.media, base.seen, NextTurns(s, base))
  {
    hide T.ResourceReady;
  }

  /** A region that changes the session through an event, and the mode not. */
  lemma EventKeepsRest(s: System, step: Step, e: S.Event, allow: bool, now: nat)
    requires Inv(s) && BaseStep(s, step) == Some(T.MediaStep(C.EventStep(e, allow, now)))
    requires e.kind == S.ClaimedEvent ==> e.lease in s.base.media.registry.log
    ensures var t := Apply(s, step);
      && T.Inv(t.base) && TurnsOk(t.base.media, t.base.seen, t.turns)
      && t.base.media.registry == s.base.media.registry && t.base.services == s.base.services
      && (t.base.media.session.lease == s.base.media.session.lease ==> T.Own(t.base.media) == T.Own(s.base.media))
      && (t.base.media.observations != [] <==>
            s.base.media.observations != [] && t.base.media.session.lease == s.base.media.session.lease)
  {
    var m := T.MediaStep(C.EventStep(e, allow, now));
    T.StepKeepsInv(s.base, m);
    EventDoes(s.base.media, e, allow, now);
    hide C.Inv, C.ApplyEvent, T.SeenFollows, Core;
    TurnsKept(s, T.Apply(s.base, m));
  }

  lemma DesireDoes(b: T.System, mode: C.Mode)
    requires T.Inv(b)
    ensures var t := T.Apply(b, T.ServiceStep(L.DesireStep(mode)));
      && T.Inv(t) && t.media == C.SetDesired(b.media, mode) && t.seen == b.seen
      && t.services.main == b.services.main
  {
    T.StepKeepsInv(b, T.ServiceStep(L.DesireStep(mode)));
    hide C.Inv, T.ResourceReady;
  }

  lemma RegistryDoes(b: T.System, step: O.Step)
    requires T.Inv(b)
    ensures var t := T.Apply(b, T.MediaStep(C.RegistryStep(step)));
      && T.Inv(t) && t.media == b.media.(registry := O.Apply(b.media.registry, step)) && t.seen == b.seen
      && t.services == b.services
  {
    T.StepKeepsInv(b, T.MediaStep(C.RegistryStep(step)));
    hide C.Inv, T.ResourceReady, O.Apply;
  }

  lemma RegistryStepKeepsInv(s: System, step: Step)
    requires Inv(s) && Enabled(s, step) && (step.Withdraw? || step.Claim? || step.GiveUp?) && Timely(s)
    ensures Inv(Apply(s, step))
  {
    hide T.Inv, Core, L.Enabled, T.Apply;
    var c := s.base.media;
    var lease, observed, own := c.session.lease, c.observations != [], T.Own(c);
    match step
    case Withdraw(w) =>
      RegistryDoes(s.base, w);
      WithdrawalKeepsCore(c.registry, w, lease, observed, own, s.sync, s.holder, s.ticked);
    case Claim(owner, token) =>
      RegistryDoes(s.base, O.ClaimStep(owner, token));
      ClaimKeepsCore(c.registry, owner, token, lease, observed, own, s.sync, s.ticked);
    case GiveUp(x) =>
      RegistryDoes(s.base, O.ReleaseStep(x));
      GivingUpKeepsCore(c.registry, x, lease, observed, own, s.sync, s.ticked);
  }

  lemma HolderTellsKeepsInv(s: System, now: nat)
    requires Inv(s) && (s.holder.TellClaim? || s.holder.TellRelease?) && Timely(s)
    ensures Inv(Apply(s, Hold(now)))
  {
    var c := s.base.media;
    var lease, observed, own := c.session.lease, c.observations != [], T.Own(c);
    match s.holder
    case TellClaim(x) =>
      EventKeepsRest(s, Hold(now), S.Event(S.ClaimedEvent, x), true, now);
      ClaimEventDoes(c, x, now);
      TellingClaimKeepsCore(c.registry, x, lease, observed, own, s.sync, s.ticked);
      hide T.Inv, C.ApplyEvent, Core, TurnsOk;
    case TellRelease(x) =>
      EventKeepsRest(s, Hold(now), S.Event(S.ReleasedEvent, x), true, now);
      ReleaseEventDoes(c, x, now);
      TellingReleaseKeepsCore(c.registry, x, lease, observed, own, s.sync, s.ticked);
      hide T.Inv, C.ApplyEvent, Core, TurnsOk;
  }

  lemma HolderDesiresKeepsInv(s: System, now: nat)
    requires Inv(s) && (s.holder.DesireOwn? || s.holder == DesireHome)
    ensures Inv(Apply(s, Hold(now)))
  {
    var c := s.base.media;
    var mode := match s.holder case DesireOwn(x) => C.ModeForOwner(x.owner) case _ => C.Home;
    DesireDoes(s.base, mode);
    DesiringKeepsCore(c.registry, c.session.lease, c.observations != [], T.Own(c), T.Own(C.SetDesired(c, mode)),
                      s.sync, s.holder, s.ticked);
    hide T.Inv, Core, T.Apply;
  }

  lemma HoldKeepsInv(s: System, now: nat)
    requires Inv(s) && s.holder != Free && Timely(s)
    ensures Inv(Apply(s, Hold(now)))
  {
    if s.holder.DesireOwn? || s.holder == DesireHome {
      HolderDesiresKeepsInv(s, now);
    } else if s.holder.TellClaim? || s.holder.TellRelease? {
      HolderTellsKeepsInv(s, now);
    } else {
      hide T.Inv;
    }
  }

  lemma SyncKeepsInv(s: System, now: nat)
    requires Inv(s) && s.sync != NotSyncing && Timely(s)
    ensures Inv(Apply(s, Sync(now)))
  {
    var c := s.base.media;
    var lease, observed, own := c.session.lease, c.observations != [], T.Own(c);
    match s.sync
    case Tell(current, seen) => SyncTellKeepsInv(s, now, current, seen);
    case SetMode(current) =>
      var mode := C.ModeForOwner(current.owner);
      DesireDoes(s.base, mode);
      SettingKeepsCore(c.registry, lease, observed, own, T.Own(C.SetDesired(c, mode)), current, s.holder, s.ticked);
      hide T.Inv, Core, T.Apply;
    case _ =>
      ReadingKeepsCore(c.registry, lease, observed, own, s.sync, s.holder, s.ticked);
      hide T.Inv, Core;
  }

  lemma SyncTellKeepsInv(s: System, now: nat, current: O.Lease, seen: O.Lease)
    requires Inv(s) && s.sync == Tell(current, seen) && Timely(s)
    ensures Inv(Apply(s, Sync(now)))
  {
    var c := s.base.media;
    var observed := c.observations != [];
    SyncTellingKeepsCore(c.registry, c.session.lease, observed, T.Own(c), current, seen, s.holder, s.ticked);
    if SyncStep(s.sync, now).Some? { SyncTells(s, now, current, seen); }
    hide T.Inv, C.ApplyEvent, Core, TurnsOk, Newer;
  }

  lemma SyncTells(s: System, now: nat, current: O.Lease, seen: O.Lease)
    requires Inv(s) && s.sync == Tell(current, seen) && Timely(s) && SyncStep(s.sync, now).Some?
    ensures var c, t := s.base.media, Apply(s, Sync(now));
      && T.Inv(t.base) && TurnsOk(t.base.media, t.base.seen, t.turns)
      && t.base.media.registry == c.registry && t.base.services == s.base.services
      && t.base.media.session.lease == AfterTell(c.session.lease, current, seen)
      && (t.base.media.session.lease == c.session.lease ==> T.Own(t.base.media) == T.Own(c))
      && (t.base.media.observations != [] <==>
            c.observations != [] && t.base.media.session.lease == c.session.lease)
  {
    if current.owner != O.NoOwner {
      EventKeepsRest(s, Sync(now), S.Event(S.ClaimedEvent, current), true, now);
      ClaimEventDoes(s.base.media, current, now);
    } else {
      EventKeepsRest(s, Sync(now), S.Event(S.ReleasedEvent, seen), true, now);
      ReleaseEventDoes(s.base.media, seen, now);
    }
    hide T.Inv, C.ApplyEvent, Core, TurnsOk, Newer;
  }

  lemma ReportKeepsInv(s: System, e: S.Event, now: nat)
    requires Inv(s) && !C.Authority(e.kind)
    ensures Inv(Apply(s, Report(e, now)))
  {
    EventKeepsRest(s, Report(e, now), e, false, now);
    ReportDoes(s.base.media, e, now);
    hide T.Inv, C.ApplyEvent, Core, TurnsOk;
  }

  lemma ObserveDoes(b: T.System, active: bool, terminal: bool, now: nat)
    requires T.Inv(b)
    ensures var t := T.Apply(b, T.MediaStep(C.ObserveStep(active, terminal, now, T.ResourceReady(b.services))));
      && T.Inv(t) && t.services == b.services
      && t.media.registry == b.media.registry && t.media.session == b.media.session
      && t.media.desired == b.media.desired && t.media.exclusive == b.media.exclusive
      && if b.media.exclusive && b.media.session.lease.owner != O.NoOwner
         then t.seen == b.seen + [b.services] && |t.media.observations| == |b.media.observations| + 1
         else t.seen == b.seen && t.media.observations == b.media.observations
  {
    T.StepKeepsInv(b, T.MediaStep(C.ObserveStep(active, terminal, now, T.ResourceReady(b.services))));
    hide C.TimersFollow, O.Inv, S.Inv, T.ResourceReady;
  }

  lemma ObserveKeepsInv(s: System, active: bool, terminal: bool, now: nat)
    requires Inv(s) && s.base.services.main == L.Ready
    ensures Inv(Apply(s, Observe(active, terminal, now)))
  {
    var c, t := s.base.media, Apply(s, Observe(active, terminal, now));
    ObserveDoes(s.base, active, terminal, now);
    ObservingKeepsCore(c.registry, c.session.lease, c.observations != [], T.Own(c), s.holder, s.ticked,
                       t.base.media.observations != []);
    assert TurnsOk(t.base.media, t.base.seen, t.turns) by {
      hide C.Inv;
      if s.ticked && c.observations != [] { assert T.Own(c); }
    }
    hide T.Inv, Core, TurnsOk, T.Apply;
  }

  /** A step of the resource half leaves the media half alone, restarts it, or
      ends its exclusivity. */
  lemma WorkDoes(b: T.System, l: L.Step)
    requires T.Inv(b) && L.Enabled(b.services, l) && !l.DesireStep?
    ensures var t, main := T.Apply(b, T.ServiceStep(l)), b.services.main;
      && T.Inv(t) && t.media.registry == b.media.registry
      && (|| (t.media == b.media && t.seen == b.seen)
          || (t.media == b.media.(exclusive := false) && t.seen == b.seen)
          || (t.media.session.lease == O.NO_LEASE && t.media.observations == [] && main != L.InTick(L.Decide)))
  {
    T.StepKeepsInv(b, T.ServiceStep(l));
    RestartsIdle(b.services, l);
    assert b.media.observations == [] ==> b.seen == [];
    hide T.Inv, L.Apply, L.Enabled, T.MediaPart;
  }

  lemma RestartsIdle(c: L.Coordinator, l: L.Step)
    requires L.Enabled(c, l) && !l.DesireStep?
    ensures var part := T.MediaPart(c, l);
      part == None || part == Some(C.EndStopStep)
      || (part.Some? && part.value.RestartStep? && c.main != L.InTick(L.Decide))
  {}

  lemma MainMoves(c: L.Coordinator, l: L.Step)
    requires L.Enabled(c, l)
    ensures !l.MainStepOf? && c.main == L.InTick(L.Decide) ==> L.Apply(c, l).main == c.main
    ensures l.MainStepOf? && c.main == L.InTick(L.SerialTick) ==> L.Apply(c, l).main == L.InTick(L.Decide)
  {
    hide L.StopEffect, L.StartEffect, L.AfterStopping, L.AfterStarting, L.Worked, L.HaltOnce;
  }

  lemma WorkKeepsInv(s: System, l: L.Step)
    requires Inv(s) && Enabled(s, Work(l))
    ensures Inv(Apply(s, Work(l)))
  {
    var c, t := s.base.media, Apply(s, Work(l));
    WorkDoes(s.base, l);
    MainMoves(s.base.services, l);
    assert t.base.services == L.Apply(s.base.services, l);
    TurnsKept(s, t.base) by { hide C.Inv, T.ResourceReady, T.Apply, L.Apply; }
    hide T.Inv, Core, T.Apply, L.Apply, L.Enabled, TurnsOk;
    var observed := c.observations != [];
    if t.base.media.session.lease != c.session.lease {
      RestartingKeepsCore(c.registry, c.session.lease, observed, T.Own(c), T.Own(t.base.media), s.holder, s.ticked);
    }
    if t.sync != s.sync {
      TickingKeepsCore(c.registry, c.session.lease, observed, T.Own(c), s.holder, s.ticked);
    }
  }
}
