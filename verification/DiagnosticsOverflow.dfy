/** Operations that find no free slot (source/app/network_diagnostics.c): nothing
    marks such a token as ended but the flag in the caller's copy. */
module DiagnosticsOverflow {
  import opened NetworkDiagnostics

  /** The finished end calls that subtracted this identifier. */
  function CountedCalls(s: State, id: nat): set<nat> {
    set call | call in s.ends && s.ends[call] == End(id, Ended(true))
  }

  ghost predicate CallsCounted(s: State) {
    forall id: nat :: s.subtracted[id] == |CountedCalls(s, id)|
  }

  lemma EndKeepsCallsCounted(s: State, call: nat)
    requires CallsCounted(s) && Enabled(s, EndStepOf(call))
    ensures CallsCounted(EndStep(s, call))
  {
    var t := EndStep(s, call);
    forall id: nat ensures t.subtracted[id] == |CountedCalls(t, id)| {
      assert s.subtracted[id] == |CountedCalls(s, id)|;
      if s.ends[call] == End(id, Won) {
        assert CountedCalls(t, id) == CountedCalls(s, id) + {call};
      } else {
        assert CountedCalls(t, id) == CountedCalls(s, id);
      }
    }
  }

  /** The other steps finish no end call. */
  lemma OthersEndNothing(s: State, step: Step)
    requires Enabled(s, step) && !step.EndStepOf?
    ensures Apply(s, step).subtracted == s.subtracted
    ensures Apply(s, step).ends == s.ends
            || (step.EnterStep? && step.call !in s.ends
                && Apply(s, step).ends == s.ends[step.call := End(step.ended, Entered)])
  {}

  lemma StepKeepsCallsCounted(s: State, step: Step)
    requires CallsCounted(s) && Enabled(s, step)
    ensures CallsCounted(Apply(s, step))
  {
    if step.EndStepOf? {
      EndKeepsCallsCounted(s, step.call);
    } else {
      var t := Apply(s, step);
      OthersEndNothing(s, step);
      hide Apply;
      forall id: nat ensures t.subtracted[id] == |CountedCalls(t, id)| {
        assert CountedCalls(t, id) == CountedCalls(s, id);
      }
    }
  }

  lemma {:induction false} RunKeepsCallsCounted(s: State, steps: seq<Step>, t: State)
    requires CallsCounted(s) && Reaches(s, steps, t)
    ensures CallsCounted(t)
    decreases |steps|
  {
    hide CallsCounted;
    if steps != [] {
      StepKeepsCallsCounted(s, steps[0]);
      RunKeepsCallsCounted(Apply(s, steps[0]), steps[1..], t);
    }
  }

  /** A token was subtracted as often as end calls of it were counted. */
  lemma EndsAreCounted(s: State, id: nat)
    requires Reachable(s)
    ensures s.subtracted[id] == |CountedCalls(s, id)|
  {
    var steps: seq<Step> :| Reaches(INITIAL, steps, s);
    assert forall other: nat :: CountedCalls(INITIAL, other) == {};
    RunKeepsCallsCounted(INITIAL, steps, s);
  }

  /** active_operations is right, the number of operations begun and not ended,
      exactly when no token that found no slot was ended through two copies. */
  lemma ActiveIsRightExactly(s: State)
    requires Reachable(s)
    ensures s.counters.active == |Outstanding(s)| <==>
      forall id :: id in s.begins && s.begins[id].at == Returned(NoSlot) ==> |CountedCalls(s, id)| <= 1
  {
    ActiveCountsOutstanding(s);
    ReachableInv(s);
    forall id ensures s.subtracted[id] == |CountedCalls(s, id)| { EndsAreCounted(s, id); }
    forall id | id in Begun(s) && s.begins[id].at != Returned(NoSlot) ensures s.subtracted[id] <= 1 {
      SubtractedOnceWithSlot(s, id);
    }
    assert forall id :: id in s.begins && s.begins[id].at == Returned(NoSlot) ==> id in Begun(s);
  }

  lemma SubtractedOnceWithSlot(s: State, id: nat)
    requires Reachable(s) && id in s.begins && s.begins[id].at != Returned(NoSlot)
    ensures s.subtracted[id] <= 1
  {
    if s.begins[id].at.Returned? {
      SlotTokenSubtractedOnce(s, id, 0);
    } else {
      ReachableInv(s);
      assert BeginOk(s, id);
    }
  }

  // -------------------------------------------------------- a run that overflows

  lemma {:induction false} OneMore(s: State, steps: seq<Step>, t: State, step: Step)
    requires Reaches(s, steps, t) && Enabled(t, step)
    ensures Reaches(s, steps + [step], Apply(t, step))
    decreases |steps|
  {
    if steps == [] {
      assert (steps + [step])[1..] == [];
    } else {
      OneMore(Apply(s, steps[0]), steps[1..], t, step);
      assert (steps + [step])[1..] == steps[1..] + [step];
    }
  }

  lemma Then(s: State, step: Step) returns (t: State)
    requires Reachable(s) && Enabled(s, step)
    ensures Reachable(t) && t == Apply(s, step)
  {
    var steps: seq<Step> :| Reaches(INITIAL, steps, s);
    OneMore(INITIAL, steps, s, step);
    t := Apply(s, step);
  }

  /** n operations have been begun, one after the other, in the first n slots. */
  ghost predicate Filled(s: State, n: nat) {
    && n <= SLOTS && s.next == n && s.ends == map[] && s.counters.active == n
    && s.subtracted == multiset{}
    && (forall i: Place :: s.slots[i].token == 0 <==> i >= n)
  }

  /** A begin on its own reaches the first free slot, or past the last. */
  lemma Search(s: State, n: nat) returns (t: State, id: nat)
    requires Reachable(s) && Filled(s, n)
    ensures Reachable(t) && id == n + 1 && id in t.begins && t.begins[id].at == Scan(n)
    ensures Filled(t.(next := n, counters := t.counters.(active := n)), n)
    ensures t.next == n + 1 && t.counters.active == n + 1
  {
    id := n + 1;
    t := Then(s, TakeStep(1, 1));
    t := Then(t, BeginStepOf(id));
    t := Then(t, BeginStepOf(id));
    var k: nat := 0;
    while k < n
      invariant Reachable(t) && k <= n && id in t.begins && t.begins[id].at == Scan(k)
      invariant t.slots == s.slots && t.ends == s.ends && t.subtracted == s.subtracted
      invariant t.next == n + 1 && t.counters.active == n + 1
    {
      t := Then(t, BeginStepOf(id));
      k := k + 1;
    }
  }

  lemma FillNext(s: State, n: nat) returns (t: State)
    requires Reachable(s) && Filled(s, n) && n < SLOTS
    ensures Reachable(t) && Filled(t, n + 1)
  {
    var id;
    t, id := Search(s, n);
    t := Then(t, BeginStepOf(id));
    t := Then(t, BeginStepOf(id));
    t := Then(t, BeginStepOf(id));
    t := Then(t, BeginStepOf(id));
  }

  lemma Overflow() returns (t: State, id: nat)
    ensures Reachable(t) && id in t.begins && t.begins[id].at == Returned(NoSlot)
    ensures t.ends == map[] && t.subtracted == multiset{}
  {
    t := INITIAL;
    assert Reaches(INITIAL, [], t);
    var n: nat := 0;
    while n < SLOTS
      invariant n <= SLOTS && Reachable(t) && Filled(t, n)
    {
      t := FillNext(t, n);
      n := n + 1;
    }
    t, id := Search(t, SLOTS);
    t := Then(t, BeginStepOf(id));
    t := Then(t, BeginStepOf(id));
  }

  lemma EndOnce(s: State, id: nat, call: nat) returns (t: State)
    requires Reachable(s) && id in s.begins && s.begins[id].at == Returned(NoSlot) && call !in s.ends
    ensures Reachable(t) && t.begins == s.begins && t.ends == s.ends[call := End(id, Ended(true))]
    ensures t.subtracted == s.subtracted + multiset{id}
  {
    t := Then(s, EnterStep(call, id));
    t := Then(t, EndStepOf(call));
    t := Then(t, EndStepOf(call));
  }

  /** When all slots are taken, two copies of one token are both subtracted, and
      the active count falls below the operations outstanding. */
  lemma OverflowedTokenIsSubtractedTwice()
    ensures exists s: State, id: nat ::
      Reachable(s) && id in s.begins && s.subtracted[id] == 2 && s.counters.active < |Outstanding(s)|
  {
    var s, id := Overflow();
    s := EndOnce(s, id, 0);
    s := EndOnce(s, id, 1);
    assert s.subtracted[id] == 2 && id in Begun(s);
    ActiveCountsOutstanding(s);
  }
}
