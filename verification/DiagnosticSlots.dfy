/** One subsystem's operation slots as source/app/network_diagnostics.c updates
    them, each call run without interruption; NetworkDiagnostics has the
    interleavings. */
module DiagnosticSlots {
  import opened NetworkDiagnostics

  datatype Token = Token(id: nat, op: nat, start: nat, slot: Where, active: bool)

  datatype Report = Report(token: nat, operation: nat, oldest: nat)

  /** The report a snapshot owes: none without a published slot; else it is the
      start, token and kind of one, and while all start times are positive (as a
      working clock makes them) of the first among the oldest. */
  ghost predicate Reports(slots: seq<Slot>, r: Report) {
    && ((forall k :: 0 <= k < |slots| ==> !Published(slots[k])) ==> r == Report(0, 0, 0))
    && ((exists k :: 0 <= k < |slots| && Published(slots[k])) ==> exists k :: Shows(slots, k, r))
    && (ClockWorks(slots) ==> forall k :: Shows(slots, k, r) ==> Oldest(slots, k))
  }

  ghost predicate Shows(slots: seq<Slot>, k: int, r: Report) {
    0 <= k < |slots| && Published(slots[k]) && r == Report(slots[k].token, slots[k].op, slots[k].start)
  }

  ghost predicate ClockWorks(slots: seq<Slot>) {
    forall k :: 0 <= k < |slots| && Published(slots[k]) ==> slots[k].start > 0
  }

  ghost predicate Oldest(slots: seq<Slot>, k: int)
    requires 0 <= k < |slots|
  {
    forall j :: 0 <= j < |slots| && Published(slots[j]) ==> slots[k].start <= slots[j].start
  }

  class SubsystemSlots {
    const slots: array<Slot>
    var active: int
    var count: nat
    var overflows: nat

    ghost predicate Valid()
      reads this
    {
      slots.Length == SLOTS
    }

    constructor ()
      ensures Valid() && fresh(slots) && active == 0 && count == 0 && overflows == 0
      ensures forall i :: 0 <= i < SLOTS ==> slots[i] == FREE
    {
      slots := new Slot[SLOTS](_ => FREE);
      active, count, overflows := 0, 0, 0;
    }

    /** `id` is the identifier drawn from the shared counter. */
    method OperationBegin(op: nat, id: nat, now: nat) returns (token: Token)
      requires Valid() && 0 < id < RESERVED
      modifies this, slots
      ensures Valid() && (0 < op <= 7 <==> token.active)
      ensures !token.active ==> slots[..] == old(slots[..]) && active == old(active) && count == old(count)
      ensures token.active ==>
        token == Token(id, op, now, token.slot, true) && active == old(active) + 1 && count == old(count) + 1
      ensures token.active && token.slot.In? ==>
        && old(slots[token.slot.i].token) == 0
        && (forall k :: 0 <= k < token.slot.i ==> old(slots[k].token) != 0)
        && slots[..] == old(slots[..])[token.slot.i := Slot(id, now, op, id)]
        && overflows == old(overflows)
      ensures token.active && token.slot == NoSlot ==>
        && (forall k :: 0 <= k < SLOTS ==> old(slots[k].token) != 0)
        && slots[..] == old(slots[..]) && overflows == old(overflows) + 1
    {
      token := Token(0, 0, 0, NoSlot, false);
      if op == 0 || op > 7 {
        return;
      }
      token := Token(id, op, now, NoSlot, true);
      active := active + 1;
      count := count + 1;
      var index := 0;
      while index < SLOTS && token.slot == NoSlot
        invariant index <= SLOTS && Valid()
        invariant active == old(active) + 1 && count == old(count) + 1 && overflows == old(overflows)
        invariant token == Token(id, op, now, token.slot, true)
        invariant token.slot == NoSlot ==>
          slots[..] == old(slots[..]) && forall k :: 0 <= k < index ==> old(slots[k].token) != 0
        invariant token.slot.In? ==>
          && old(slots[token.slot.i].token) == 0
          && (forall k :: 0 <= k < token.slot.i ==> old(slots[k].token) != 0)
          && slots[..] == old(slots[..])[token.slot.i := Slot(id, now, op, id)]
      {
        if slots[index].token == 0 {
          slots[index] := slots[index].(token := RESERVED, filler := id);
          slots[index] := slots[index].(start := now);
          slots[index] := slots[index].(op := op);
          slots[index] := slots[index].(token := id);
          token := token.(slot := In(index));
        }
        index := index + 1;
      }
      if token.slot == NoSlot {
        overflows := overflows + 1;
      }
    }

    /** The caller's copy comes back marked as ended; an operation already taken
        out of its slot through another copy is not subtracted again. */
    method OperationEnd(token: Token) returns (ended: Token)
      requires Valid()
      modifies this`active, slots
      ensures Valid() && ended == token.(active := false)
      ensures var counts := token.active && (token.slot.In? ==> old(slots[token.slot.i].token) == token.id);
        && active == (if counts then old(active) - 1 else old(active))
        && slots[..] == if counts && token.slot.In?
                        then old(slots[..])[token.slot.i := old(slots[token.slot.i]).(token := 0)]
                        else old(slots[..])
    {
      ended := token.(active := false);
      if !token.active {
        return;
      }
      if token.slot.In? {
        var i := token.slot.i;
        if slots[i].token != token.id {
          return;
        }
        slots[i] := slots[i].(token := 0);
      }
      active := active - 1;
    }

    /** The loop of network_diagnostics_get_snapshot. */
    method OldestActive() returns (report: Report)
      requires Valid()
      ensures Reports(slots[..], report)
    {
      report := Report(0, 0, 0);
      ghost var shown := -1;
      var index := 0;
      while index < SLOTS
        invariant index <= SLOTS && shown < index
        invariant shown < 0 ==>
          report == Report(0, 0, 0) && forall k :: 0 <= k < index ==> !Published(slots[k])
        invariant shown >= 0 ==> Shows(slots[..], shown, report)
        invariant shown >= 0 && ClockWorks(slots[..]) ==>
          forall k :: 0 <= k < index && Published(slots[k]) ==> report.oldest <= slots[k].start
      {
        var slot := slots[index];
        if slot.token != 0 && slot.token != RESERVED {
          if report.oldest == 0 || slot.start < report.oldest {
            report := Report(slot.token, slot.op, slot.start);
            shown := index;
          }
        }
        index := index + 1;
      }
    }
  }
}
