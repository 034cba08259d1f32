/** The session state machine (source/app/protocol_media_session.c): the
    coordinator's own copy of the lease, with what playback reported for it. */
module MediaSession {
  import opened Options
  import opened Ownership

  datatype Phase = Idle | Preparing | Loading | Active | Stopping | Failed
  datatype Playback = PlaybackUnknown | Playing | Paused
  datatype Control = ControlUnknown | Attached | Detached

  datatype EventKind =
    | ClaimedEvent | LoadRequested | ActiveEvent | PlayingEvent | PausedEvent | ControlAttached
    | ControlDetached | StopRequested | Ended | FailedEvent | ReleasedEvent | ResetEvent

  datatype Event = Event(kind: EventKind, lease: Lease)

  datatype Session = Session(lease: Lease, phase: Phase, playback: Playback, control: Control, revision: nat)

  datatype Status = Applied | NoChange | StaleEvent | InvalidEvent

  /** protocol_media_session_init, for the revision given. */
  function Fresh(revision: nat): Session {
    Session(NO_LEASE, Idle, PlaybackUnknown, ControlUnknown, revision)
  }

  predicate LeaseValid(lease: Lease) {
    lease.owner != NoOwner && lease.generation != 0
  }

  /** The signed 32-bit difference of two generations is positive. */
  predicate GenerationNewer(candidate: nat, current: nat) {
    var difference := (candidate - current) % TWO_TO_32;
    var signed := if difference >= 0x8000_0000 then difference - TWO_TO_32 else difference;
    signed > 0
  }

  function NextRevision(revision: nat): nat {
    var next := (revision + 1) % TWO_TO_32;
    if next == 0 then 1 else next
  }

  function Bumped(s: Session): Session {
    s.(revision := NextRevision(s.revision))
  }

  function ApplyClaim(s: Session, lease: Lease): (Session, Status) {
    if !LeaseValid(lease) then (s, InvalidEvent)
    else if s.lease == lease then (s, NoChange)
    else if s.lease.generation != 0 && !GenerationNewer(lease.generation, s.lease.generation) then (s, StaleEvent)
    else (Bumped(Session(lease, Preparing, PlaybackUnknown, ControlUnknown, s.revision)), Applied)
  }

  function ApplyReset(s: Session): (Session, Status) {
    if s.phase == Idle && s.lease.owner == NoOwner then (s, NoChange)
    else (Bumped(Fresh(s.revision)), Applied)
  }

  predicate Closed(phase: Phase) {
    phase == Stopping || phase == Failed
  }

  /** The new fields of an event on the current lease; None when it is refused. */
  datatype Change = Refused | Change(phase: Phase, playback: Playback, control: Control)

  function Effect(s: Session, kind: EventKind): Change {
    match kind
    case LoadRequested => if Closed(s.phase) then Refused else Change(Loading, PlaybackUnknown, s.control)
    case ActiveEvent => if Closed(s.phase) then Refused else Change(Active, s.playback, s.control)
    case PlayingEvent => if Closed(s.phase) then Refused else Change(Active, Playing, s.control)
    case PausedEvent => if Closed(s.phase) then Refused else Change(Active, Paused, s.control)
    case ControlAttached => if Closed(s.phase) then Refused else Change(s.phase, s.playback, Attached)
    case ControlDetached => if Closed(s.phase) then Refused else Change(s.phase, s.playback, Detached)
    case StopRequested => Change(Stopping, s.playback, s.control)
    case Ended => Change(Stopping, s.playback, s.control)
    case FailedEvent => if s.phase == Stopping then Refused else Change(Failed, s.playback, s.control)
    case _ => Refused
  }

  function Transition(s: Session, e: Event): (Session, Status) {
    if e.kind == ResetEvent then ApplyReset(s)
    else if e.kind == ClaimedEvent then ApplyClaim(s, e.lease)
    else if !LeaseValid(e.lease) || s.lease != e.lease then (s, StaleEvent)
    else if e.kind == ReleasedEvent then ApplyReset(s)
    else
      var change := Effect(s, e.kind);
      if change == Refused then (s, InvalidEvent)
      else
        var t := s.(phase := change.phase, playback := change.playback, control := change.control);
        if t == s then (s, NoChange) else (Bumped(t), Applied)
  }

  // --------------------------------------------------------------- what it keeps

  ghost predicate Inv(s: Session) {
    && (s.phase == Idle <==> s.lease == NO_LEASE)
    && (s.lease != NO_LEASE ==> LeaseValid(s.lease))
    && (s.phase == Idle ==> s.playback == PlaybackUnknown && s.control == ControlUnknown)
    && (s.playback != PlaybackUnknown ==> s.phase == Active || Closed(s.phase))
  }

  lemma TransitionKeepsInv(s: Session, e: Event)
    requires Inv(s)
    ensures Inv(Transition(s, e).0)
  {}

  /** The answer tells the truth: APPLIED exactly when the session changed, and
      then the revision is a different, nonzero one. */
  lemma AppliedMeansChanged(s: Session, e: Event)
    requires s.revision < TWO_TO_32
    ensures var (t, status) := Transition(s, e);
      && (status == Applied <==> t != s)
      && (status == Applied ==> 0 < t.revision < TWO_TO_32 && t.revision != s.revision)
  {}

  /** The revision goes up by one with every change and stays with every other
      event, 1 following 2^32 - 1. */
  lemma RevisionCountsChanges(s: Session, e: Event)
    requires Inv(s) && s.revision < TWO_TO_32
    ensures var t := Transition(s, e).0;
      t.revision == if t.lease == s.lease && t.phase == s.phase && t.playback == s.playback && t.control == s.control
                    then s.revision
                    else if s.revision == 0xFFFF_FFFF then 1 else s.revision + 1
  {}

  /** Only a claim of a newer lease, or the end of the current one, changes the
      session's lease; an event for any other lease leaves it untouched. */
  lemma LeaseChangesOnlyForward(s: Session, e: Event)
    requires Inv(s)
    ensures var t := Transition(s, e).0;
      t.lease != s.lease ==>
        || (e.kind == ClaimedEvent && t.lease == e.lease
            && (s.lease == NO_LEASE || GenerationNewer(e.lease.generation, s.lease.generation)))
        || (e.kind == ReleasedEvent && e.lease == s.lease && t.lease == NO_LEASE)
        || (e.kind == ResetEvent && t.lease == NO_LEASE)
    ensures e.kind != ClaimedEvent && e.kind != ResetEvent && e.lease != s.lease ==> Transition(s, e).0 == s
  {}

  function RunEvents(s: Session, events: seq<Event>): Session
    decreases |events|
  {
    if events == [] then s else RunEvents(Transition(s, events[0]).0, events[1..])
  }

  /** Under one lease a session that stopped stays stopped, and one that failed
      can only still be stopped: late playback reports do not revive it. */
  lemma {:induction false} ClosedStaysClosed(s: Session, events: seq<Event>)
    requires Inv(s) && Closed(s.phase)
    requires forall e :: e in events ==> e.kind != ClaimedEvent && e.kind != ReleasedEvent && e.kind != ResetEvent
    ensures var t := RunEvents(s, events);
      && t.lease == s.lease && Closed(t.phase) && (s.phase == Stopping ==> t.phase == Stopping)
      && t.playback == s.playback && t.control == s.control
    decreases |events|
  {
    if events != [] {
      assert events[0] in events;
      TransitionKeepsInv(s, events[0]);
      ClosedStaysClosed(Transition(s, events[0]).0, events[1..]);
    }
  }

  // ------------------------------------------------------------ what it shows

  /** The last event for the lease that is of one of these kinds. */
  function LastOf(events: seq<Event>, lease: Lease, kinds: set<EventKind>): Option<EventKind> {
    if events == [] then None
    else
      var later := LastOf(events[1..], lease, kinds);
      if later.Some? then later
      else if events[0].lease == lease && events[0].kind in kinds then Some(events[0].kind)
      else None
  }

  /** The events before the session closes. */
  function Opening(events: seq<Event>, lease: Lease): seq<Event> {
    if events == [] || (events[0].lease == lease && events[0].kind in {StopRequested, Ended, FailedEvent}) then []
    else [events[0]] + Opening(events[1..], lease)
  }

  /** What a session shows is what was reported last for its lease while it was
      open: playback by loading, playing and paused reports, control by attaching
      and detaching; and its phase follows playback until it fails or stops. */
  ghost predicate Shows(s: Session, events: seq<Event>, t: Session) {
    var heard := if Closed(s.phase) then [] else Opening(events, s.lease);
    && t.lease == s.lease
    && t.playback == (match LastOf(heard, s.lease, {LoadRequested, PlayingEvent, PausedEvent})
                      case None => s.playback
                      case Some(kind) => if kind == PlayingEvent then Playing
                                         else if kind == PausedEvent then Paused else PlaybackUnknown)
    && t.control == (match LastOf(heard, s.lease, {ControlAttached, ControlDetached})
                     case None => s.control
                     case Some(kind) => if kind == ControlAttached then Attached else Detached)
    && t.phase == (if LastOf(events, s.lease, {StopRequested, Ended}).Some? then Stopping
                   else if Closed(s.phase) then s.phase
                   else if LastOf(events, s.lease, {FailedEvent}).Some? then Failed
                   else match LastOf(heard, s.lease, {LoadRequested, ActiveEvent, PlayingEvent, PausedEvent})
                        case None => s.phase
                        case Some(kind) => if kind == LoadRequested then Loading else Active)
  }

  lemma {:induction false} SessionShowsReports(s: Session, events: seq<Event>)
    requires LeaseValid(s.lease)
    requires forall e :: e in events ==> e.kind != ClaimedEvent && e.kind != ReleasedEvent && e.kind != ResetEvent
    ensures Shows(s, events, RunEvents(s, events))
    decreases |events|
  {
    if events != [] {
      var e, u := events[0], Transition(s, events[0]).0;
      assert e in events;
      SessionShowsReports(u, events[1..]);
      assert Opening(events, s.lease) != [] ==> Opening(events, s.lease)[1..] == Opening(events[1..], s.lease);
    }
  }

  /** After a claim nothing is left of the lease before, so it shows only what was
      reported since. */
  lemma ClaimStartsAfresh(s: Session, lease: Lease, events: seq<Event>)
    requires Transition(s, Event(ClaimedEvent, lease)).1 == Applied
    requires forall e :: e in events ==> e.kind != ClaimedEvent && e.kind != ReleasedEvent && e.kind != ResetEvent
    ensures var claimed := Transition(s, Event(ClaimedEvent, lease)).0;
      && claimed.lease == lease && claimed.phase == Preparing
      && claimed.playback == PlaybackUnknown && claimed.control == ControlUnknown
      && Shows(claimed, events, RunEvents(claimed, events))
  {
    SessionShowsReports(Transition(s, Event(ClaimedEvent, lease)).0, events);
  }

  // ------------------------------------------------------------ newer generations

  /** Exactly which later issues generation_newer accepts, d issues after the
      n-th and less than a full cycle on: up to 2^31 - 2 of them always, and one
      more when no wrap past zero lies between. */
  lemma NewerExactly(n: nat, d: nat)
    requires n > 0 && d < CYCLE
    ensures GenerationNewer(Generation(n + d), Generation(n)) <==>
      1 <= d <= 0x7FFF_FFFE || (d == 0x7FFF_FFFF && Generation(n) < Generation(n + d))
  {
    var a := (n - 1) % CYCLE;
    assert (n + d - 1) % CYCLE == if a + d < CYCLE then a + d else a + d - CYCLE by {
      assert n - 1 == (n - 1) / CYCLE * CYCLE + a;
    }
    var difference := Generation(n + d) - Generation(n);
    assert difference % TWO_TO_32 == if a + d < CYCLE then d else d + 1;
  }

  // ------------------------------------------------------------- the session struct

  class SessionCell {
    var lease: Lease
    var phase: Phase
    var playback: Playback
    var control: Control
    var revision: nat

    function Abs(): Session
      reads this
    {
      Session(lease, phase, playback, control, revision)
    }

    constructor ()
      ensures Abs() == Fresh(0)
    {
      lease, phase, playback, control, revision := NO_LEASE, Idle, PlaybackUnknown, ControlUnknown, 0;
    }

    /** protocol_media_session_init. */
    method Initialize()
      modifies this
      ensures Abs() == Fresh(0)
    {
      lease, phase, playback, control, revision := NO_LEASE, Idle, PlaybackUnknown, ControlUnknown, 0;
    }

    method BumpRevision()
      modifies this`revision
      ensures revision == NextRevision(old(revision))
    {
      revision := (revision + 1) % TWO_TO_32;
      if revision == 0 {
        revision := revision + 1;
      }
    }

    method ResetSession() returns (status: Status)
      modifies this
      ensures (Abs(), status) == ApplyReset(old(Abs()))
    {
      if phase == Idle && lease.owner == NoOwner {
        return NoChange;
      }
      lease, phase, playback, control := NO_LEASE, Idle, PlaybackUnknown, ControlUnknown;
      BumpRevision();
      return Applied;
    }

    method ClaimSession(claim: Lease) returns (status: Status)
      modifies this
      ensures (Abs(), status) == ApplyClaim(old(Abs()), claim)
    {
      if !LeaseValid(claim) {
        return InvalidEvent;
      }
      if lease == claim {
        return NoChange;
      }
      if lease.generation != 0 && !GenerationNewer(claim.generation, lease.generation) {
        return StaleEvent;
      }
      lease := claim;
      phase, playback, control := Preparing, PlaybackUnknown, ControlUnknown;
      BumpRevision();
      return Applied;
    }

    /** protocol_media_session_transition. */
    method Handle(event: Event) returns (status: Status)
      modifies this
      ensures (Abs(), status) == Transition(old(Abs()), event)
    {
      if event.kind == ResetEvent {
        status := ResetSession();
        return;
      }
      if event.kind == ClaimedEvent {
        status := ClaimSession(event.lease);
        return;
      }
      if !LeaseValid(event.lease) || lease != event.lease {
        return StaleEvent;
      }
      var changed := false;
      match event.kind {
        case LoadRequested =>
          if phase == Stopping || phase == Failed { return InvalidEvent; }
          changed := phase != Loading || playback != PlaybackUnknown;
          phase, playback := Loading, PlaybackUnknown;
        case ActiveEvent =>
          if phase == Stopping || phase == Failed { return InvalidEvent; }
          changed := phase != Active;
          phase := Active;
        case PlayingEvent =>
          if phase == Stopping || phase == Failed { return InvalidEvent; }
          changed := phase != Active || playback != Playing;
          phase, playback := Active, Playing;
        case PausedEvent =>
          if phase == Stopping || phase == Failed { return InvalidEvent; }
          changed := phase != Active || playback != Paused;
          phase, playback := Active, Paused;
        case ControlAttached =>
          if phase == Stopping || phase == Failed { return InvalidEvent; }
          changed := control != Attached;
          control := Attached;
        case ControlDetached =>
          if phase == Stopping || phase == Failed { return InvalidEvent; }
          changed := control != Detached;
          control := Detached;
        case StopRequested =>
          changed := phase != Stopping;
          phase := Stopping;
        case Ended =>
          changed := phase != Stopping;
          phase := Stopping;
        case FailedEvent =>
          if phase == Stopping { return InvalidEvent; }
          changed := phase != Failed;
          phase := Failed;
        case ReleasedEvent =>
          status := ResetSession();
          return;
        case _ =>
      }
      if !changed {
        return NoChange;
      }
      BumpRevision();
      return Applied;
    }
  }
}
