/** What each call of source/app/network_diagnostics.c comes to when its atomic
    accesses are not interrupted: the calls of DiagnosticSlots. And what its
    counters count however they are. */
module DiagnosticsAlone {
  import opened NetworkDiagnostics
  import D = DiagnosticSlots

  ghost predicate Leads(s: State, t: State) {
    exists steps: seq<Step> :: Reaches(s, steps, t)
  }

  lemma Stays(s: State)
    ensures Leads(s, s)
  {
    assert Reaches(s, [], s);
  }

  lemma {:induction false} ReachesOneMore(s: State, steps: seq<Step>, t: State, step: Step)
    requires Reaches(s, steps, t) && Enabled(t, step)
    ensures Reaches(s, steps + [step], Apply(t, step))
    decreases |steps|
  {
    hide Enabled, Apply;
    if steps == [] {
      assert (steps + [step])[1..] == [];
    } else {
      ReachesOneMore(Apply(s, steps[0]), steps[1..], t, step);
      assert (steps + [step])[1..] == steps[1..] + [step];
    }
  }

  lemma Goes(s: State, t: State, step: Step) returns (u: State)
    requires Leads(s, t) && Enabled(t, step)
    ensures Leads(s, u) && u == Apply(t, step)
  {
    hide Enabled, Apply;
    var steps: seq<Step> :| Reaches(s, steps, t);
    ReachesOneMore(s, steps, t, step);
    u := Apply(t, step);
  }

  // -------------------------------------------------------------------- one begin

  /** The first free slot, or none. */
  ghost predicate FirstFree(slots: Slots, slot: Where) {
    match slot
    case NoSlot => forall k: Place :: slots[k].token != 0
    case In(i) => slots[i].token == 0 && forall k: Place :: k < i ==> slots[k].token != 0
  }

  ghost predicate Scanned(slots: Slots, n: nat) {
    forall k: Place :: k < n ==> slots[k].token != 0
  }

  lemma BeginsStep(s0: State, s: State, id: nat) returns (t: State)
    requires Leads(s0, s) && id in s.begins
    ensures Leads(s0, t) && t == BeginStep(s, id)
  {
    hide Leads, BeginStep;
    t := Goes(s0, s, BeginStepOf(id));
  }

  /** From its search on, a begin fills the first free slot or counts an overflow. */
  lemma {:induction false} SearchAlone(s0: State, s: State, id: nat, n: nat) returns (t: State, slot: Where)
    requires Leads(s0, s) && id in s.begins && s.begins[id].at == Scan(n) && n <= SLOTS && Scanned(s.slots, n)
    ensures Leads(s0, t) && FirstFree(s.slots, slot)
    ensures var b := s.begins[id];
      t == s.(begins := s.begins[id := Begin(b.start, b.op, Returned(slot))],
              slots := if slot.In? then s.slots[slot.i := Slot(id, b.start, b.op, id)] else s.slots,
              counters := if slot.In? then s.counters else s.counters.(overflows := s.counters.overflows + 1))
    decreases SLOTS - n
  {
    hide Leads;
    t := BeginsStep(s0, s, id);
    if n >= SLOTS {
      t := BeginsStep(s0, t, id);
      slot := NoSlot;
    } else if s.slots[n].token == 0 {
      t := FillAlone(s0, t, id, n);
      slot := In(n);
      assert t.slots == s.slots[n := Slot(id, s.begins[id].start, s.begins[id].op, id)];
    } else {
      var u := t;
      t, slot := SearchAlone(s0, u, id, n + 1);
      assert t.begins == s.begins[id := t.begins[id]];
    }
  }

  lemma FillAlone(s0: State, s: State, id: nat, i: Place) returns (t: State)
    requires Leads(s0, s) && id in s.begins && s.begins[id].at == Filling(i)
    ensures Leads(s0, t)
    ensures var b := s.begins[id];
      t == s.(begins := s.begins[id := Begin(b.start, b.op, Returned(In(i)))],
              slots := s.slots[i := Slot(id, b.start, b.op, s.slots[i].filler)])
  {
    hide Leads;
    t := BeginsStep(s0, s, id);
    t := BeginsStep(s0, t, id);
    t := BeginsStep(s0, t, id);
    assert t.begins == s.begins[id := t.begins[id]];
    assert t.slots == s.slots[i := t.slots[i]];
  }

  /** A whole begin draws the next identifier, counts itself and one more active
      operation, and takes the first free slot; without one it counts an overflow. */
  lemma BeginAlone(s: State, start: nat, op: nat) returns (t: State, slot: Where)
    requires s.next + 1 < RESERVED && 0 < op <= 7
    ensures Leads(s, t) && FirstFree(s.slots, slot)
    ensures var id, c := s.next + 1, s.counters;
      t == s.(next := id, begins := s.begins[id := Begin(start, op, Returned(slot))],
              slots := if slot.In? then s.slots[slot.i := Slot(id, start, op, id)] else s.slots,
              counters := Counters(c.active + 1, c.count + 1, c.overflows + if slot.In? then 0 else 1))
  {
    Stays(s);
    hide Leads;
    var id := s.next + 1;
    t := Goes(s, s, TakeStep(start, op));
    t := BeginsStep(s, t, id);
    t := BeginsStep(s, t, id);
    var u := t;
    t, slot := SearchAlone(s, u, id, 0);
    assert t.begins == s.begins[id := t.begins[id]];
  }

  // ---------------------------------------------------------------------- one end

  /** A whole end takes its operation off the active count and out of its slot,
      unless another copy of the token has taken it out before. */
  lemma EndAlone(s: State, call: nat, id: nat) returns (t: State)
    requires call !in s.ends && id in s.begins && s.begins[id].at.Returned?
    ensures Leads(s, t) && call in t.ends
    ensures var slot := s.begins[id].at.slot;
      var counts := slot.In? ==> s.slots[slot.i].token == id;
      && t.ends == s.ends[call := End(id, Ended(counts))] && t.begins == s.begins && t.next == s.next
      && t.counters == s.counters.(active := s.counters.active - if counts then 1 else 0)
      && t.slots == if counts && slot.In? then s.slots[slot.i := s.slots[slot.i].(token := 0)] else s.slots
  {
    Stays(s);
    hide Leads;
    t := Goes(s, s, EnterStep(call, id));
    var u := t;
    t := EndsStep(s, u, call);
    EntryWins(u, call);
    t := EndsStep(s, t, call);
    assert t.ends == s.ends[call := t.ends[call]];
  }

  /** The first access of an end decides whether it counts. */
  lemma EntryWins(s: State, call: nat)
    requires call in s.ends && s.ends[call].at == Entered && s.ends[call].id in s.begins
    ensures var id, t := s.ends[call].id, EndStep(s, call);
      var slot := SlotOf(s, id);
      var counts := slot.In? ==> s.slots[slot.i].token == id;
      && t.ends == s.ends[call := End(id, if counts then Won else Ended(false))]
      && t.begins == s.begins && t.next == s.next && t.counters == s.counters
      && t.slots == if counts && slot.In? then s.slots[slot.i := s.slots[slot.i].(token := 0)] else s.slots
  {
  }

  lemma EndsStep(s0: State, s: State, call: nat) returns (t: State)
    requires Leads(s0, s) && call in s.ends && s.ends[call].id in s.begins
    ensures Leads(s0, t) && t == EndStep(s, call)
  {
    hide Leads, EndStep;
    t := Goes(s0, s, EndStepOf(call));
  }

  // ----------------------------------------------------------------- one snapshot

  function ReportOf(r: Reader): D.Report {
    D.Report(r.token, r.operation, r.oldest)
  }

  lemma ReadsStep(s0: State, s: State, reader: nat) returns (t: State)
    requires Leads(s0, s) && reader in s.readers
    ensures Leads(s0, t) && t == s.(readers := s.readers[reader := ReadStep(s, s.readers[reader])])
  {
    hide Leads, ReadStep;
    t := Goes(s0, s, ReadStepOf(reader));
  }

  /** What the loop has seen of the first n slots; `k` is the slot it reports. */
  ghost predicate Sees(slots: Slots, n: nat, k: int, r: Reader)
    requires n <= SLOTS
  {
    && -1 <= k < n
    && (k < 0 ==> ReportOf(r) == D.Report(0, 0, 0) && forall j :: 0 <= j < n ==> !Published(slots[j]))
    && (k >= 0 ==> D.Shows(slots, k, ReportOf(r)))
    && (k >= 0 && D.ClockWorks(slots) ==>
          forall j :: 0 <= j < n && Published(slots[j]) ==> r.oldest <= slots[j].start)
  }

  /** The accesses to one slot. */
  lemma SlotAlone(s0: State, s: State, reader: nat, k: int) returns (t: State, next: int)
    requires Leads(s0, s) && reader in s.readers && s.readers[reader].at == LoadToken
    requires Sees(s.slots, s.readers[reader].i, k, s.readers[reader])
    ensures Leads(s0, t) && reader in t.readers && t == s.(readers := t.readers)
    ensures var i, r := s.readers[reader].i, t.readers[reader];
      && Sees(s.slots, i + 1, next, r)
      && if i + 1 < SLOTS then r.at == LoadToken && r.i == i + 1 else r.at == Finished
  {
    hide Leads, D.ClockWorks;
    var r := s.readers[reader];
    var slot := s.slots[r.i];
    t := ReadsStep(s0, s, reader);
    next := k;
    if Published(slot) {
      t := ReadsStep(s0, t, reader);
      t := ReadsStep(s0, t, reader);
      t := ReadsStep(s0, t, reader);
      if r.oldest == 0 || slot.start < r.oldest { next := r.i; }
    }
    SlotSeen(s.slots, r, k, t.readers[reader], next);
  }

  lemma SlotSeen(slots: Slots, r: Reader, k: int, after: Reader, next: int)
    requires Sees(slots, r.i, k, r)
    requires var slot := slots[r.i];
      if Published(slot) && (r.oldest == 0 || slot.start < r.oldest)
      then next == r.i && ReportOf(after) == D.Report(slot.token, slot.op, slot.start)
      else next == k && ReportOf(after) == ReportOf(r)
    ensures Sees(slots, r.i + 1, next, after)
  {
    if k >= 0 && D.ClockWorks(slots) { assert slots[k].start > 0; }
  }

  lemma {:induction false} LoopAlone(s0: State, s: State, reader: nat, k: int) returns (t: State)
    requires Leads(s0, s) && reader in s.readers && s.readers[reader].at == LoadToken
    requires Sees(s.slots, s.readers[reader].i, k, s.readers[reader])
    ensures Leads(s0, t) && reader in t.readers && t == s.(readers := t.readers)
    ensures t.readers[reader].at == Finished && D.Reports(s.slots, ReportOf(t.readers[reader]))
    decreases SLOTS - s.readers[reader].i
  {
    hide Leads, ReadStep;
    var next;
    t, next := SlotAlone(s0, s, reader, k);
    if t.readers[reader].at == LoadToken {
      t := LoopAlone(s0, t, reader, next);
    } else {
      SeenIsReported(s.slots, next, t.readers[reader]);
    }
  }

  lemma SeenIsReported(slots: Slots, k: int, r: Reader)
    requires Sees(slots, SLOTS, k, r)
    ensures D.Reports(slots, ReportOf(r))
  {
    if k < 0 {
      assert forall j :: 0 <= j < |slots| ==> !Published(slots[j]);
    } else {
      assert Published(slots[k]);
    }
    if D.ClockWorks(slots) {
      forall j | D.Shows(slots, j, ReportOf(r)) ensures D.Oldest(slots, j) {
        assert k >= 0;
      }
    }
  }

  /** A whole snapshot reports the oldest operation, and changes nothing else. */
  lemma SnapshotAlone(s: State, reader: nat) returns (t: State)
    requires reader !in s.readers
    ensures Leads(s, t) && reader in t.readers && t == s.(readers := t.readers)
    ensures t.readers[reader].at == Finished && D.Reports(s.slots, ReportOf(t.readers[reader]))
  {
    Stays(s);
    hide Leads;
    t := Goes(s, s, OpenStep(reader));
    t := LoopAlone(s, t, reader, -1);
  }

  // ------------------------------------------------------------------ the counters

  ghost function CountedBegins(s: State): set<nat> {
    set id | id in s.begins && s.begins[id].at != Taken && s.begins[id].at != Added
  }

  ghost function Overflowed(s: State): set<nat> {
    set id | id in s.begins && s.begins[id].at == Returned(NoSlot)
  }

  ghost predicate Counts(s: State) {
    && s.counters.count == |CountedBegins(s)| && s.counters.overflows == |Overflowed(s)|
    && forall id :: id in s.begins ==> id <= s.next
  }

  lemma BeginStepCountsItself(s: State, id: nat)
    requires id in s.begins
    ensures CountedBegins(BeginStep(s, id)) ==
            if s.begins[id].at == Added then CountedBegins(s) + {id} else CountedBegins(s)
  {
    hide BeginSlots, BeginCounters;
  }

  lemma BeginStepOverflows(s: State, id: nat)
    requires id in s.begins
    ensures Overflowed(BeginStep(s, id)) ==
            if s.begins[id].at == Overflowing then Overflowed(s) + {id} else Overflowed(s)
  {
    hide BeginSlots, BeginCounters;
  }

  lemma BeginStepCounts(s: State, id: nat)
    requires Counts(s) && id in s.begins
    ensures Counts(BeginStep(s, id))
  {
    BeginStepCountsItself(s, id);
    BeginStepOverflows(s, id);
    assert s.begins[id].at == Added ==> id !in CountedBegins(s);
    assert s.begins[id].at == Overflowing ==> id !in Overflowed(s);
    hide BeginSlots, AfterBegin, CountedBegins, Overflowed;
  }

  lemma StepCounts(s: State, step: Step)
    requires Counts(s) && Enabled(s, step)
    ensures Counts(Apply(s, step))
  {
    var t := Apply(s, step);
    hide BeginStep, ReadStep;
    if step.BeginStepOf? {
      BeginStepCounts(s, step.id);
    } else {
      assert CountedBegins(t) == CountedBegins(s);
      assert Overflowed(t) == Overflowed(s);
    }
  }

  lemma {:induction false} RunCounts(s: State, steps: seq<Step>, t: State)
    requires Counts(s) && Reaches(s, steps, t)
    ensures Counts(t)
    decreases |steps|
  {
    hide Counts, Enabled, Apply;
    if steps != [] {
      StepCounts(s, steps[0]);
      RunCounts(Apply(s, steps[0]), steps[1..], t);
    }
  }

  /** However calls interleave, the operation count is the begins that have counted
      themselves, and the overflow count those that returned without a slot. */
  lemma CountsExactly(s: State)
    requires Reachable(s)
    ensures s.counters.count == |CountedBegins(s)| && s.counters.overflows == |Overflowed(s)|
  {
    var steps: seq<Step> :| Reaches(INITIAL, steps, s);
    assert CountedBegins(INITIAL) == {} && Overflowed(INITIAL) == {};
    RunCounts(INITIAL, steps, s);
  }
}
