/** The lock-free operation slots of one subsystem (source/app/network_diagnostics.c).
    One step is one atomic access, and the accesses of any number of begins, ends
    and snapshots mix in any order. Operation identifiers come from a counter
    that all subsystems share. */
module NetworkDiagnostics {
  const SLOTS: nat := 8
  const RESERVED: nat := 0xFFFF_FFFF_FFFF_FFFF

  /** `filler` is history: who reserved the slot last. */
  datatype Slot = Slot(token: nat, start: nat, op: nat, filler: nat)

  const FREE := Slot(0, 0, 0, 0)

  type Place = i: nat | i < SLOTS witness 0
  type Slots = q: seq<Slot> | |q| == SLOTS witness [FREE, FREE, FREE, FREE, FREE, FREE, FREE, FREE]

  datatype Where = NoSlot | In(i: Place)

  /** Where network_diagnostics_operation_begin is. */
  datatype BeginAt =
    | Taken | Added | Scan(next: nat) | Filling(i: Place) | StartStored(i: Place) | OpStored(i: Place)
    | Overflowing | Returned(slot: Where)

  datatype Begin = Begin(start: nat, op: nat, at: BeginAt)

  /** Where network_diagnostics_operation_end is. Copies of a token may be ended
      any number of times, also at once. */
  datatype EndAt = Entered | Won | Ended(counted: bool)

  datatype End = End(id: nat, at: EndAt)

  datatype ReadAt = LoadToken | LoadStart | LoadOp | Confirm | Finished

  /** A snapshot at slot i: what it loaded there, and the oldest operation so far. */
  datatype Reader = Reader(
    i: Place, at: ReadAt, id: nat, start: nat, op: nat, oldest: nat, token: nat, operation: nat)

  datatype Counters = Counters(active: int, count: nat, overflows: nat)

  /** `begins` holds every begin made so far by identifier; `winner` says which
      end call took an identifier out of its slot, `subtracted` which identifiers
      were taken off the active count. */
  datatype State = State(
    slots: Slots, next: nat, counters: Counters,
    begins: map<nat, Begin>, ends: map<nat, End>, readers: map<nat, Reader>,
    winner: map<nat, nat>, subtracted: multiset<nat>)

  const INITIAL := State([FREE, FREE, FREE, FREE, FREE, FREE, FREE, FREE], 0, Counters(0, 0, 0),
                         map[], map[], map[], map[], multiset{})

  // ---------------------------------------------------------------------- begin

  function AfterBegin(slots: Slots, at: BeginAt): BeginAt {
    match at
    case Taken => Added
    case Added => Scan(0)
    case Scan(i) => if i >= SLOTS then Overflowing else if slots[i].token == 0 then Filling(i) else Scan(i + 1)
    case Filling(i) => StartStored(i)
    case StartStored(i) => OpStored(i)
    case OpStored(i) => Returned(In(i))
    case Overflowing => Returned(NoSlot)
    case Returned(_) => at
  }

  /** The slots after the next access of begin `id`: a compare-and-swap while it
      searches, then three stores. */
  function BeginSlots(slots: Slots, id: nat, b: Begin): Slots {
    match b.at
    case Scan(i) =>
      if i < SLOTS && slots[i].token == 0 then slots[i := slots[i].(token := RESERVED, filler := id)] else slots
    case Filling(i) => slots[i := slots[i].(start := b.start)]
    case StartStored(i) => slots[i := slots[i].(op := b.op)]
    case OpStored(i) => slots[i := slots[i].(token := id)]
    case _ => slots
  }

  function BeginCounters(c: Counters, at: BeginAt): Counters {
    match at
    case Taken => c.(active := c.active + 1)
    case Added => c.(count := c.count + 1)
    case Overflowing => c.(overflows := c.overflows + 1)
    case _ => c
  }

  function BeginStep(s: State, id: nat): State
    requires id in s.begins
  {
    var b := s.begins[id];
    s.(begins := s.begins[id := b.(at := AfterBegin(s.slots, b.at))],
       slots := BeginSlots(s.slots, id, b), counters := BeginCounters(s.counters, b.at))
  }

  // ------------------------------------------------------------------------ end

  /** The slot an ended token names, if it has one. */
  function SlotOf(s: State, id: nat): Where
    requires id in s.begins
  {
    if s.begins[id].at.Returned? then s.begins[id].at.slot else NoSlot
  }

  function EndStep(s: State, call: nat): State
    requires call in s.ends && s.ends[call].id in s.begins
  {
    var id := s.ends[call].id;
    match s.ends[call].at
    case Entered =>
      var slot := SlotOf(s, id);
      if slot == NoSlot then s.(ends := s.ends[call := End(id, Won)])
      else if s.slots[slot.i].token == id then
        s.(ends := s.ends[call := End(id, Won)], slots := s.slots[slot.i := s.slots[slot.i].(token := 0)],
           winner := s.winner[id := call])
      else s.(ends := s.ends[call := End(id, Ended(false))])
    case Won =>
      s.(ends := s.ends[call := End(id, Ended(true))], subtracted := s.subtracted + multiset{id},
         counters := s.counters.(active := s.counters.active - 1))
    case Ended(_) => s
  }

  // ------------------------------------------------------------------- snapshot

  function NextSlot(r: Reader): Reader {
    if r.i + 1 < SLOTS then r.(i := r.i + 1, at := LoadToken) else r.(at := Finished)
  }

  function ReadStep(s: State, r: Reader): Reader {
    var slot := s.slots[r.i];
    match r.at
    case LoadToken =>
      if slot.token == 0 || slot.token == RESERVED then NextSlot(r) else r.(at := LoadStart, id := slot.token)
    case LoadStart => r.(at := LoadOp, start := slot.start)
    case LoadOp => r.(at := Confirm, op := slot.op)
    case Confirm =>
      NextSlot(if slot.token == r.id && (r.oldest == 0 || r.start < r.oldest)
               then r.(oldest := r.start, token := r.id, operation := r.op) else r)
    case Finished => r
  }

  // ----------------------------------------------------------------------- runs

  /** SkipStep is another subsystem's begin, taking an identifier. */
  datatype Step =
    | TakeStep(start: nat, op: nat) | SkipStep | BeginStepOf(id: nat)
    | EnterStep(call: nat, ended: nat) | EndStepOf(call: nat)
    | OpenStep(reader: nat) | ReadStepOf(reader: nat)

  /** The operation kind is valid, a token is ended after its begin returned it, and the 64-bit identifiers
      do not run out. */
  predicate Enabled(s: State, step: Step) {
    match step
    case TakeStep(_, op) => s.next + 1 < RESERVED && 0 < op <= 7
    case SkipStep => s.next + 1 < RESERVED
    case BeginStepOf(id) => id in s.begins
    case EnterStep(call, id) => call !in s.ends && id in s.begins && s.begins[id].at.Returned?
    case EndStepOf(call) => call in s.ends && s.ends[call].id in s.begins
    case OpenStep(reader) => reader !in s.readers
    case ReadStepOf(reader) => reader in s.readers
  }

  function Apply(s: State, step: Step): State
    requires Enabled(s, step)
  {
    match step
    case TakeStep(start, op) => s.(next := s.next + 1, begins := s.begins[s.next + 1 := Begin(start, op, Taken)])
    case SkipStep => s.(next := s.next + 1)
    case BeginStepOf(id) => BeginStep(s, id)
    case EnterStep(call, id) => s.(ends := s.ends[call := End(id, Entered)])
    case EndStepOf(call) => EndStep(s, call)
    case OpenStep(reader) => s.(readers := s.readers[reader := Reader(0, LoadToken, 0, 0, 0, 0, 0, 0)])
    case ReadStepOf(reader) => s.(readers := s.readers[reader := ReadStep(s, s.readers[reader])])
  }

  ghost predicate Reaches(s: State, steps: seq<Step>, t: State)
    decreases |steps|
  {
    if steps == [] then s == t
    else Enabled(s, steps[0]) && Reaches(Apply(s, steps[0]), steps[1..], t)
  }

  ghost predicate Reachable(s: State) {
    exists steps: seq<Step> :: Reaches(INITIAL, steps, s)
  }

  // ------------------------------------------------------------------ invariant

  predicate Published(slot: Slot) {
    slot.token != 0 && slot.token != RESERVED
  }

  /** A published slot shows one begin, whole. */
  ghost predicate SlotOk(s: State, i: Place) {
    var slot := s.slots[i];
    Published(slot) ==>
      && slot.token in s.begins && slot.token !in s.winner && s.begins[slot.token].at == Returned(In(i))
      && slot.start == s.begins[slot.token].start && slot.op == s.begins[slot.token].op
  }

  ghost predicate Fills(s: State, id: nat, i: Place) {
    s.slots[i].token == RESERVED && s.slots[i].filler == id
  }

  ghost predicate PlaceOk(s: State, id: nat, b: Begin) {
    match b.at
    case Filling(i) => Fills(s, id, i)
    case StartStored(i) => Fills(s, id, i) && s.slots[i].start == b.start
    case OpStored(i) => Fills(s, id, i) && s.slots[i].start == b.start && s.slots[i].op == b.op
    case Returned(slot) =>
      if slot == NoSlot then id !in s.winner
      else (id in s.winner || s.slots[slot.i].token == id) && WinnerOk(s, id)
    case _ => true
  }

  /** Only the end call that emptied the slot subtracts, and once. */
  ghost predicate WinnerOk(s: State, id: nat) {
    s.subtracted[id] ==
      if id in s.winner && s.winner[id] in s.ends && s.ends[s.winner[id]] == End(id, Ended(true)) then 1 else 0
  }

  ghost predicate BeginOk(s: State, id: nat) {
    id in s.begins ==>
      && 0 < id <= s.next && PlaceOk(s, id, s.begins[id])
      && (!s.begins[id].at.Returned? ==> id !in s.winner && s.subtracted[id] == 0)
  }

  ghost predicate EndAtOk(s: State, id: nat, call: nat, at: EndAt) {
    match at
    case Entered => id !in s.winner || s.winner[id] != call
    case Won => id in s.winner && s.winner[id] == call
    case Ended(counted) => id in s.winner && (counted <==> s.winner[id] == call)
  }

  ghost predicate EndOk(s: State, call: nat) {
    call in s.ends ==>
      var id := s.ends[call].id;
      && id in s.begins && s.begins[id].at.Returned?
      && (s.begins[id].at.slot.In? ==> EndAtOk(s, id, call, s.ends[call].at))
      && (s.begins[id].at.slot == NoSlot ==> s.ends[call].at != Ended(false))
  }

  ghost predicate OneBegin(s: State, id: nat, start: nat, op: nat) {
    id in s.begins && s.begins[id].start == start && s.begins[id].op == op
  }

  /** What a snapshot holds is one begin's, and so is what it is loading if the
      slot still shows the token. */
  ghost predicate ReaderOk(s: State, r: Reader) {
    && (r.token != 0 ==> OneBegin(s, r.token, r.oldest, r.operation))
    && (r.at == LoadStart || r.at == LoadOp || r.at == Confirm ==>
          r.id != 0 && r.id != RESERVED && r.id in s.begins && s.begins[r.id].at == Returned(In(r.i)))
    && (r.at == LoadOp || r.at == Confirm ==> s.slots[r.i].token == r.id ==> r.start == s.slots[r.i].start)
    && (r.at == Confirm ==> s.slots[r.i].token == r.id ==> r.op == s.slots[r.i].op)
  }

  ghost predicate ReadersOk(s: State) {
    forall r: nat :: r in s.readers ==> ReaderOk(s, s.readers[r])
  }

  function Begun(s: State): set<nat> {
    set id | id in s.begins && s.begins[id].at != Taken
  }

  ghost predicate CountersOk(s: State) {
    && s.counters.active == |Begun(s)| - |s.subtracted|
    && (forall id: nat :: id in s.subtracted ==> id in Begun(s))
  }

  ghost predicate WonBy(s: State, id: nat)
    requires id in s.winner
  {
    id in s.begins && s.winner[id] in s.ends && s.ends[s.winner[id]].id == id
  }

  ghost predicate Inv(s: State) {
    && s.next < RESERVED
    && (forall i: Place :: SlotOk(s, i))
    && (forall id: nat :: BeginOk(s, id))
    && (forall call: nat :: EndOk(s, call))
    && ReadersOk(s) && CountersOk(s)
    && (forall id: nat :: id in s.winner ==> WonBy(s, id))
  }

  // --------------------------------------------------------------------- begins

  lemma BeginKeepsSlot(s: State, id: nat, i: Place)
    requires id in s.begins && BeginOk(s, id) && SlotOk(s, i) && s.next < RESERVED
    ensures SlotOk(BeginStep(s, id), i)
  {
    hide BeginCounters, WinnerOk;
  }

  lemma BeginKeepsItself(s: State, id: nat)
    requires id in s.begins && BeginOk(s, id)
    ensures BeginOk(BeginStep(s, id), id)
  {
    hide BeginCounters;
  }

  /** A begin changes its own record, and a slot only if that is free or filled
      by itself. */
  ghost predicate OnlyOwn(s: State, t: State, id: nat) {
    && t.ends == s.ends && t.winner == s.winner && t.subtracted == s.subtracted && t.next == s.next
    && t.readers == s.readers && id in t.begins && t.begins == s.begins[id := t.begins[id]]
  }

  lemma BeginFrame(s: State, id: nat)
    requires id in s.begins
    ensures OnlyOwn(s, BeginStep(s, id), id)
  {
    hide AfterBegin, BeginSlots, BeginCounters;
  }

  lemma BeginSparesSlot(s: State, id: nat, i: Place)
    requires id in s.begins && BeginOk(s, id)
    ensures BeginStep(s, id).slots[i] == s.slots[i] || s.slots[i].token == 0 || Fills(s, id, i)
    ensures BeginStep(s, id).slots[i] == s.slots[i]
            || BeginStep(s, id).slots[i].token == RESERVED
            || (BeginStep(s, id).slots[i].token == id && !s.begins[id].at.Returned?)
  {
    hide WinnerOk;
  }

  function PlaceOf(at: BeginAt): Place {
    match at
    case Filling(i) => i
    case StartStored(i) => i
    case OpStored(i) => i
    case Returned(In(i)) => i
    case _ => 0
  }

  lemma BeginKeepsOther(s: State, id: nat, other: nat)
    requires id in s.begins && BeginOk(s, id) && BeginOk(s, other) && s.next < RESERVED && other != id
    ensures BeginOk(BeginStep(s, id), other)
  {
    hide BeginStep;
    BeginFrame(s, id);
    if other in s.begins { BeginSparesSlot(s, id, PlaceOf(s.begins[other].at)); }
  }

  lemma BeginKeepsEnd(s: State, id: nat, call: nat)
    requires id in s.begins && EndOk(s, call)
    ensures EndOk(BeginStep(s, id), call)
  {
    hide BeginSlots, BeginCounters;
  }

  lemma BeginKeepsReader(s: State, id: nat, r: Reader)
    requires id in s.begins && BeginOk(s, id) && BeginOk(s, r.id) && ReaderOk(s, r) && s.next < RESERVED
    ensures ReaderOk(BeginStep(s, id), r)
  {
    BeginFrame(s, id);
    BeginSparesSlot(s, id, r.i);
    BeginKeepsRecord(s, id);
    hide BeginStep, BeginOk;
  }

  lemma BeginKeepsRecord(s: State, id: nat)
    requires id in s.begins
    ensures var t := BeginStep(s, id);
      && id in t.begins && t.begins[id].start == s.begins[id].start && t.begins[id].op == s.begins[id].op
      && (s.begins[id].at.Returned? ==> t.begins[id].at == s.begins[id].at)
  {
    hide BeginSlots, BeginCounters;
  }

  lemma BeginCounts(s: State, id: nat)
    requires id in s.begins
    ensures var t := BeginStep(s, id);
      && t.counters.active == s.counters.active + (if s.begins[id].at == Taken then 1 else 0)
      && id in t.begins && t.begins[id].at != Taken
  {
    hide BeginSlots;
  }

  lemma BeginKeepsCounters(s: State, id: nat)
    requires id in s.begins && CountersOk(s) && BeginOk(s, id)
    ensures CountersOk(BeginStep(s, id))
  {
    BeginFrame(s, id);
    BeginCounts(s, id);
    hide BeginStep, BeginOk;
    var t := BeginStep(s, id);
    if s.begins[id].at == Taken {
      assert Begun(t) == Begun(s) + {id};
    } else {
      assert Begun(t) == Begun(s);
    }
  }

  lemma BeginKeepsInv(s: State, id: nat)
    requires Inv(s) && id in s.begins
    ensures Inv(BeginStep(s, id))
  {
    hide SlotOk, EndOk, ReaderOk, CountersOk, PlaceOk, BeginStep, Fills;
    var t := BeginStep(s, id);
    assert BeginOk(s, id);
    BeginFrame(s, id);
    BeginKeepsCounters(s, id);
    forall i: Place ensures SlotOk(t, i) { assert SlotOk(s, i); BeginKeepsSlot(s, id, i); }
    forall other: nat ensures BeginOk(t, other) {
      assert BeginOk(s, other);
      if other == id { BeginKeepsItself(s, id); } else { BeginKeepsOther(s, id, other); }
    }
    forall call: nat ensures EndOk(t, call) { assert EndOk(s, call); BeginKeepsEnd(s, id, call); }
    forall r: nat | r in t.readers ensures ReaderOk(t, t.readers[r]) {
      assert BeginOk(s, s.readers[r].id);
      BeginKeepsReader(s, id, s.readers[r]);
    }
  }

  // ----------------------------------------------------------------------- ends

  /** An identifier still in its slot has not been taken out. */
  ghost predicate InSlot(s: State, id: nat) {
    id in s.begins && SlotOf(s, id).In? && s.slots[SlotOf(s, id).i].token == id ==> id !in s.winner
  }

  lemma EndKeepsSlot(s: State, call: nat, i: Place)
    requires call in s.ends && EndOk(s, call) && SlotOk(s, i)
    requires s.ends[call].id in s.begins && BeginOk(s, s.ends[call].id)
    ensures SlotOk(EndStep(s, call), i)
  {
    hide PlaceOk;
  }

  lemma EndKeepsBegin(s: State, call: nat, other: nat)
    requires call in s.ends && EndOk(s, call) && BeginOk(s, other) && s.next < RESERVED
    requires BeginOk(s, s.ends[call].id) && InSlot(s, s.ends[call].id)
    ensures BeginOk(EndStep(s, call), other)
  {}

  lemma EndKeepsEnd(s: State, call: nat, other: nat)
    requires call in s.ends && EndOk(s, call) && EndOk(s, other)
    requires BeginOk(s, s.ends[call].id) && InSlot(s, s.ends[call].id)
    ensures EndOk(EndStep(s, call), other)
  {}

  lemma EndKeepsReader(s: State, call: nat, r: Reader)
    requires call in s.ends && EndOk(s, call) && ReaderOk(s, r)
    ensures ReaderOk(EndStep(s, call), r)
  {}

  lemma EndKeepsCounters(s: State, call: nat)
    requires call in s.ends && EndOk(s, call) && CountersOk(s)
    ensures CountersOk(EndStep(s, call))
  {
    assert Begun(EndStep(s, call)) == Begun(s);
  }

  lemma EndKeepsInv(s: State, call: nat)
    requires Inv(s) && call in s.ends && s.ends[call].id in s.begins
    ensures Inv(EndStep(s, call))
  {
    hide ReaderOk, CountersOk, PlaceOk, EndAtOk;
    var t, id := EndStep(s, call), s.ends[call].id;
    assert EndOk(s, call) && BeginOk(s, id);
    if SlotOf(s, id).In? { assert SlotOk(s, SlotOf(s, id).i); }
    EndKeepsCounters(s, call);
    EndKeepsAll(s, call);
  }

  lemma EndKeepsAll(s: State, call: nat)
    requires Inv(s) && call in s.ends && s.ends[call].id in s.begins && InSlot(s, s.ends[call].id)
    ensures var t := EndStep(s, call);
      && (forall i: Place :: SlotOk(t, i)) && (forall id: nat :: BeginOk(t, id))
      && (forall other: nat :: EndOk(t, other)) && ReadersOk(t)
  {
    hide SlotOk, BeginOk, ReaderOk, CountersOk, InSlot;
    var t := EndStep(s, call);
    assert EndOk(s, call) && BeginOk(s, s.ends[call].id);
    hide EndOk;
    forall i: Place ensures SlotOk(t, i) { assert SlotOk(s, i); EndKeepsSlot(s, call, i); }
    forall id: nat ensures BeginOk(t, id) { assert BeginOk(s, id); EndKeepsBegin(s, call, id); }
    forall other: nat ensures EndOk(t, other) { assert EndOk(s, other); EndKeepsEnd(s, call, other); }
    forall r: nat | r in t.readers ensures ReaderOk(t, t.readers[r]) { EndKeepsReader(s, call, s.readers[r]); }
  }

  // ------------------------------------------------------------------ every step

  lemma ReadKeepsReader(s: State, r: Reader)
    requires ReaderOk(s, r) && SlotOk(s, r.i)
    ensures ReaderOk(s, ReadStep(s, r))
  {}

  /** Steps that take an identifier or enter an end. */
  lemma EntryKeepsInv(s: State, step: Step)
    requires Inv(s) && Enabled(s, step) && (step.TakeStep? || step.SkipStep? || step.EnterStep?)
    ensures Inv(Apply(s, step))
  {
    var t := Apply(s, step);
    if step.TakeStep? { assert BeginOk(s, s.next + 1); }
    assert Begun(t) == Begun(s);
    forall i: Place ensures SlotOk(t, i) { assert SlotOk(s, i); }
    forall id: nat ensures BeginOk(t, id) { assert BeginOk(s, id); }
    forall call: nat ensures EndOk(t, call) { assert EndOk(s, call); }
    forall r: nat | r in t.readers ensures ReaderOk(t, t.readers[r]) {}
  }

  lemma SnapshotKeepsInv(s: State, step: Step)
    requires Inv(s) && Enabled(s, step) && (step.OpenStep? || step.ReadStepOf?)
    ensures Inv(Apply(s, step))
  {
    hide ReadStep;
    var t := Apply(s, step);
    assert Begun(t) == Begun(s);
    forall i: Place ensures SlotOk(t, i) { assert SlotOk(s, i); }
    forall id: nat ensures BeginOk(t, id) { assert BeginOk(s, id); }
    forall call: nat ensures EndOk(t, call) { assert EndOk(s, call); }
    forall r: nat | r in t.readers ensures ReaderOk(t, t.readers[r]) {
      if step == ReadStepOf(r) {
        assert SlotOk(s, s.readers[r].i);
        ReadKeepsReader(s, s.readers[r]);
      }
    }
  }

  lemma StepKeepsInv(s: State, step: Step)
    requires Inv(s) && Enabled(s, step)
    ensures Inv(Apply(s, step))
  {
    hide Inv;
    match step
    case BeginStepOf(id) => BeginKeepsInv(s, id);
    case EndStepOf(call) => EndKeepsInv(s, call);
    case OpenStep(_) => SnapshotKeepsInv(s, step);
    case ReadStepOf(_) => SnapshotKeepsInv(s, step);
    case _ => EntryKeepsInv(s, step);
  }

  lemma {:induction false} RunKeepsInv(s: State, steps: seq<Step>, t: State)
    requires Inv(s) && Reaches(s, steps, t)
    ensures Inv(t)
    decreases |steps|
  {
    hide Inv;
    if steps != [] {
      StepKeepsInv(s, steps[0]);
      RunKeepsInv(Apply(s, steps[0]), steps[1..], t);
    }
  }

  lemma InitialInv()
    ensures Inv(INITIAL)
  {
    assert Begun(INITIAL) == {};
  }

  lemma ReachableInv(s: State)
    requires Reachable(s)
    ensures Inv(s)
  {
    var steps: seq<Step> :| Reaches(INITIAL, steps, s);
    InitialInv();
    RunKeepsInv(INITIAL, steps, s);
  }

  // ---------------------------------------------------------------- every run

  /** A snapshot never mixes two operations: the token, start time and kind it
      reports come from one call of begin. */
  lemma SnapshotShowsOneBegin(s: State, reader: nat)
    requires Reachable(s) && reader in s.readers && s.readers[reader].token != 0
    ensures var r := s.readers[reader];
      && r.token in s.begins && s.begins[r.token].start == r.oldest && s.begins[r.token].op == r.operation
  {
    ReachableInv(s);
    assert ReaderOk(s, s.readers[reader]);
  }

  predicate Live(s: State, id: nat) {
    id in s.begins && s.begins[id].at.Returned? && s.begins[id].at.slot.In? && id !in s.winner
  }

  /** A token with a slot keeps it to itself until an end takes it out. */
  lemma LiveTokensHoldDistinctSlots(s: State, a: nat, b: nat)
    requires Reachable(s) && Live(s, a) && Live(s, b)
    ensures s.begins[a].at.slot == s.begins[b].at.slot <==> a == b
    ensures s.slots[s.begins[a].at.slot.i].token == a
  {
    ReachableInv(s);
    assert BeginOk(s, a) && BeginOk(s, b);
  }

  /** A token with a slot is subtracted at most once however often it is ended,
      and exactly once when an end of it has finished and none is under way. */
  lemma SlotTokenSubtractedOnce(s: State, id: nat, call: nat)
    requires Reachable(s) && id in s.begins && s.begins[id].at.Returned? && s.begins[id].at.slot.In?
    ensures s.subtracted[id] <= 1
    ensures (call in s.ends && s.ends[call].id == id && s.ends[call].at.Ended?
             && forall other :: other in s.ends && s.ends[other].id == id ==> s.ends[other].at.Ended?)
            ==> s.subtracted[id] == 1
  {
    ReachableInv(s);
    assert BeginOk(s, id) && EndOk(s, call);
    if id in s.winner { assert WonBy(s, id) && EndOk(s, s.winner[id]); }
  }

  // ------------------------------------------------------------ the active count

  function Outstanding(s: State): set<nat> {
    set id | id in Begun(s) && s.subtracted[id] == 0
  }

  function Support(m: multiset<nat>, ids: set<nat>): set<nat> {
    set id | id in ids && m[id] > 0
  }

  ghost predicate NoneTwice(m: multiset<nat>, ids: set<nat>) {
    forall id :: id in ids ==> m[id] <= 1
  }

  lemma {:induction false} SizeOfSupport(m: multiset<nat>, ids: set<nat>)
    requires forall id :: id in m ==> id in ids
    ensures |m| >= |Support(m, ids)|
    ensures |m| == |Support(m, ids)| <==> NoneTwice(m, ids)
    decreases |m|
  {
    if m == multiset{} {
      assert Support(m, ids) == {};
    } else {
      var x :| x in m;
      var rest := m - multiset{x};
      assert m == rest + multiset{x};
      SizeOfSupport(rest, ids);
      if m[x] == 1 {
        assert Support(rest, ids) == Support(m, ids) - {x};
        assert forall id :: id in ids && id != x ==> rest[id] == m[id];
      } else {
        assert Support(rest, ids) == Support(m, ids);
        assert m[x] > 1;
      }
    }
  }

  /** active_operations counts the operations begun and not yet ended exactly
      when no identifier was subtracted twice. */
  lemma ActiveCountsOutstanding(s: State)
    requires Reachable(s)
    ensures s.counters.active <= |Outstanding(s)|
    ensures s.counters.active == |Outstanding(s)| <==> NoneTwice(s.subtracted, Begun(s))
  {
    ReachableInv(s);
    SizeOfSupport(s.subtracted, Begun(s));
    assert Outstanding(s) == Begun(s) - Support(s.subtracted, Begun(s));
    assert |Begun(s) - Support(s.subtracted, Begun(s))| == |Begun(s)| - |Support(s.subtracted, Begun(s))|;
  }
}
