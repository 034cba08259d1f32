/** Properties of every run of the media actor. */
module MediaActorRuns {
  import opened Options
  import opened MediaActorModel
  import opened MediaActorInvariant

  ghost predicate Reaches(s: State, steps: seq<Step>, t: State)
    decreases |steps|
  {
    if steps == [] then s == t
    else References(s) && Enabled(s, steps[0]) && Reaches(Apply(s, steps[0]), steps[1..], t)
  }

  ghost predicate Reachable(s: State) {
    exists config: Config, steps: seq<Step> ::
      config.reserved < config.capacity && Reaches(Initial(config), steps, s)
  }

  lemma {:induction false} RunKeepsInv(s: State, steps: seq<Step>, t: State)
    requires Inv(s) && Reaches(s, steps, t)
    ensures Inv(t) && t.config == s.config
    decreases |steps|
  {
    if steps != [] {
      StepKeepsInv(s, steps[0]);
      RunKeepsInv(Apply(s, steps[0]), steps[1..], t);
    }
  }

  lemma ReachableInv(s: State)
    requires Reachable(s)
    ensures Inv(s)
  {
    var config: Config, steps: seq<Step> :|
      config.reserved < config.capacity && Reaches(Initial(config), steps, s);
    InitialInv(config);
    RunKeepsInv(Initial(config), steps, s);
  }

  lemma {:induction false} ReachesOneMore(s: State, steps: seq<Step>, t: State, step: Step)
    requires Reaches(s, steps, t) && References(t) && Enabled(t, step)
    ensures Reaches(s, steps + [step], Apply(t, step))
    decreases |steps|
  {
    if steps == [] {
      assert (steps + [step])[1..] == [];
    } else {
      ReachesOneMore(Apply(s, steps[0]), steps[1..], t, step);
      assert (steps + [step])[1..] == steps[1..] + [step];
    }
  }

  /** No thread is ever about to follow an address that was freed, so every step
      its control flow allows can be taken and leads to a reachable state. */
  lemma StepsAreMemorySafe(s: State, step: Step)
    requires Reachable(s) && Enabled(s, step)
    ensures References(s) && Reachable(Apply(s, step))
  {
    ReachableInv(s);
    var config: Config, steps: seq<Step> :|
      config.reserved < config.capacity && Reaches(Initial(config), steps, s);
    ReachesOneMore(Initial(config), steps, s, step);
  }

  lemma ReferencesExact(s: State, p: Address)
    requires Reachable(s) && p in s.heap.blocks
    ensures s.heap.blocks[p].references ==
            (if p in s.queue || s.current == Some(p) then 1 else 0) + (if p in s.waiters then 1 else 0)
  {
    ReachableInv(s);
    assert Counted(s, p);
  }

  /** A block is freed at most once, exactly when it is gone, and its opaque is
      released then if and only if it was retained. */
  lemma FreedOnce(s: State, p: Address)
    requires Reachable(s) && p < s.heap.next
    ensures s.heap.frees[p] == (if p in s.heap.blocks then 0 else 1)
    ensures s.heap.retains[p] <= 1
    ensures s.heap.releases[p] == (if p in s.heap.blocks then 0 else s.heap.retains[p])
  {
    ReachableInv(s);
    assert Accounted(s.heap, p);
  }

  /** Once the worker is gone and the last waiter has left, everything has been
      given back. */
  lemma NothingLeaks(s: State)
    requires Reachable(s) && !WorkerAlive(s.life.phase) && s.waiters == {}
    ensures s.heap.blocks == map[]
    ensures forall p: Address :: p < s.heap.next ==>
      s.heap.frees[p] == 1 && s.heap.releases[p] == s.heap.retains[p]
  {
    ReachableInv(s);
    forall p: Address ensures p !in s.heap.blocks {
      assert Counted(s, p);
    }
    forall p: Address | p < s.heap.next
      ensures s.heap.frees[p] == 1 && s.heap.releases[p] == s.heap.retains[p]
    {
      FreedOnce(s, p);
    }
  }

  /** media_actor_submit_wait answers with an outcome or a timeout, never with
      ACCEPTED, and with an outcome once nobody can execute the request. */
  lemma WaitAnswers(s: State, p: Address)
    requires Reachable(s) && p in s.waiters
    ensures p in s.heap.blocks
    ensures var status := Leave(s, p).1; FinalStatus(status) || status == Timeout
    ensures Leave(s, p).1 == Timeout <==> (p in s.queue || s.current == Some(p))
    ensures !WorkerAlive(s.life.phase) ==> FinalStatus(Leave(s, p).1)
  {
    ReachableInv(s);
    assert Counted(s, p) && Settled(s, p);
  }

  /** Nor does it answer ACCEPTED before it comes to wait: a waiting submission is
      refused for a reason, or pending with its submitter among the waiters; made
      on the worker thread it is refused, or runs and answers with its outcome. */
  lemma WaitNeverAnswersAccepted(s: State, c: Command, memoryOk: bool, valid: bool, ok: bool)
    requires Reachable(s)
    ensures Held(s)
    ensures var (t, outcome) := Submit(s, c, true, memoryOk);
      && outcome != Done(Accepted)
      && (outcome.Pending? ==> outcome.address == s.heap.next && outcome.address in t.waiters)
    ensures DirectBegin(s, c).1 != Some(Accepted)
    ensures s.direct != [] ==> FinalStatus(DirectEnd(s, valid, ok).1)
  {
    ReachableInv(s);
  }

  lemma CommandLedger(s: State)
    requires Reachable(s)
    ensures s.health.submitted ==
      s.health.executed + s.health.rejectedStale + s.health.coalesced
      + |s.queue| + (if s.current.Some? then 1 else 0) + |s.direct| + s.drained
    ensures s.drained <= s.health.rejectedStopping && s.health.executionFailed <= s.health.executed
  {
    ReachableInv(s);
  }

  /** Dequeued ids increase strictly, and all queued ids come after them. */
  lemma DequeueOrder(s: State)
    requires Reachable(s)
    ensures Held(s) && Increasing(s.popped + Ids(s.heap.blocks, s.queue))
    ensures forall x :: x in s.popped + Ids(s.heap.blocks, s.queue) ==> 0 < x <= s.health.lastId
  {
    ReachableInv(s);
  }

  lemma NormalCommandsLeaveRoom(s: State)
    requires Reachable(s)
    ensures Held(s) && Normal(s.heap.blocks, s.queue) <= s.config.capacity - s.config.reserved
    ensures |s.queue| <= s.health.maxDepth <= s.config.capacity
  {
    ReachableInv(s);
  }

  /** An urgent command finds the queue full only when the reserved slots are
      all taken by urgent commands. */
  lemma UrgentFullOnlyBehindUrgent(s: State, c: Command, wait: bool, memoryOk: bool)
    requires Reachable(s) && UsesReservedSlot(c.kind)
    ensures Held(s)
    ensures Submit(s, c, wait, memoryOk).1 == Done(QueueFull) ==>
      |s.queue| - Normal(s.heap.blocks, s.queue) >= s.config.reserved
  {
    ReachableInv(s);
  }

  // ----------------------------------------------------------------- quiescing

  /** What media_actor_wait_idle tests. */
  predicate Idle(s: State) {
    s.queue == [] && s.current == None
  }

  ghost predicate Quiesced(s: State) {
    Idle(s) && !s.life.accepting
  }

  lemma QuiescedStep(s: State, step: Step)
    requires Inv(s) && Quiesced(s) && Enabled(s, step) && step != StartStep
    ensures var t := Apply(s, step);
      && Inv(t) && Quiesced(t) && t.popped == s.popped && t.health.submitted == s.health.submitted
      && t.health.coalesced == s.health.coalesced && t.drained == s.drained
  {
    StepKeepsInv(s, step);
    if step == InitializeStep(false) {
      var u := s.(life := s.life.(phase := Exited, ready := false, initFailed := true,
                                  dispatchEnabled := false, running := false, accepting := false));
      OtherFieldsKeepCore(s, u);
      RejectPendingDrains(u);
    } else if step == WindDownStep {
      OtherFieldsKeepCore(s, s.(life := s.life.(phase := Finishing)));
      RejectPendingDrains(s.(life := s.life.(phase := Finishing)));
    }
  }

  /** After media_actor_quiesce, an idle actor stays idle until it is started
      again: no run dequeues or accepts anything, and what finishes is only the
      nested calls already on the worker's stack. */
  lemma {:induction false} QuiescedStaysIdle(s: State, steps: seq<Step>, t: State)
    requires Inv(s) && Quiesced(s) && Reaches(s, steps, t) && StartStep !in steps
    ensures Quiesced(t) && t.popped == s.popped && t.health.submitted == s.health.submitted
    ensures t.health.executed + t.health.rejectedStale + |t.direct|
            == s.health.executed + s.health.rejectedStale + |s.direct|
    decreases |steps|
  {
    if steps != [] {
      QuiescedStep(s, steps[0]);
      var u := Apply(s, steps[0]);
      QuiescedStaysIdle(u, steps[1..], t);
    }
  }

  /** What media_actor_wait_idle reports is true: nothing executes. */
  predicate Honest(s: State) {
    Idle(s) ==> InExecution(s) == 0
  }

  /** A re-entrant call is accepted while the worker holds no dequeued command and
      the queue is empty, as from the initialize or pump_events callback. */
  predicate UnseenCall(s: State, step: Step) {
    step.DirectBeginStep? && Idle(s) && DirectBegin(s, step.command).1 == None
  }

  /** Idleness stops being told truthfully exactly at such a call. */
  lemma HonestExactly(s: State, step: Step)
    requires Inv(s) && Honest(s) && Enabled(s, step)
    ensures Honest(Apply(s, step)) <==> !UnseenCall(s, step)
  {
    hide HeapLedger, Completion, Ordered, Room;
    match step
    case SubmitStep(c, wait, memoryOk) => SubmitKeepsDirect(s, c, wait, memoryOk);
    case InitializeStep(ok) => if !ok { RejectingFindsNoWork(s, step); }
    case WindDownStep => RejectingFindsNoWork(s, step);
    case _ =>
  }

  lemma SubmitKeepsDirect(s: State, c: Command, wait: bool, memoryOk: bool)
    requires Held(s)
    ensures var t := Submit(s, c, wait, memoryOk).0; t.direct == s.direct && t.current == s.current
    ensures Submit(s, c, wait, memoryOk).0.queue == [] ==> s.queue == []
  {}

  lemma RejectingFindsNoWork(s: State, step: Step)
    requires Inv(s) && Enabled(s, step) && (step == InitializeStep(false) || step == WindDownStep)
    ensures s.current == None && Apply(s, step).current == None && Apply(s, step).direct == []
  {
    hide HeapLedger, Completion, Ordered, Room;
    var u := if step == WindDownStep then s.(life := s.life.(phase := Finishing))
             else s.(life := s.life.(phase := Exited, ready := false, initFailed := true,
                                     dispatchEnabled := false, running := false, accepting := false));
    OtherFieldsKeepCore(s, u);
    RejectPendingDrains(u);
  }

  ghost predicate HonestAlong(s: State, steps: seq<Step>)
    decreases |steps|
  {
    && Honest(s)
    && (steps != [] ==>
          References(s) && Enabled(s, steps[0]) && HonestAlong(Apply(s, steps[0]), steps[1..]))
  }

  ghost predicate NoUnseenCall(s: State, steps: seq<Step>)
    decreases |steps|
  {
    steps != [] ==>
      && References(s) && Enabled(s, steps[0])
      && !UnseenCall(s, steps[0]) && NoUnseenCall(Apply(s, steps[0]), steps[1..])
  }

  lemma {:induction false} HonestAlongExactly(s: State, steps: seq<Step>, t: State)
    requires Inv(s) && Honest(s) && Reaches(s, steps, t)
    ensures HonestAlong(s, steps) <==> NoUnseenCall(s, steps)
    decreases |steps|
  {
    hide Inv, Honest, UnseenCall;
    if steps != [] {
      HonestExactly(s, steps[0]);
      StepKeepsInv(s, steps[0]);
      if !UnseenCall(s, steps[0]) {
        HonestAlongExactly(Apply(s, steps[0]), steps[1..], t);
      }
    }
  }

  /** media_actor_wait_idle tests current_command_id, which the re-entrant path
      never sets. It tells the truth throughout a run exactly when no re-entrant
      call was accepted at an idle moment. */
  lemma IdleReportedTruthfully(config: Config, steps: seq<Step>, t: State)
    requires config.reserved < config.capacity && Reaches(Initial(config), steps, t)
    ensures HonestAlong(Initial(config), steps) <==> NoUnseenCall(Initial(config), steps)
  {
    InitialInv(config);
    HonestAlongExactly(Initial(config), steps, t);
  }

  /** And such a call is possible: idleness is reported while it runs. */
  lemma IdleMissesDirectCalls()
    ensures exists s: State :: Reachable(s) && Idle(s) && InExecution(s) == 1
  {
    hide References;
    var config := Config(1, 0, false, false);
    var play := Command(0, Play, App, 0, 0, "", "", 0, false, 0, false, false);
    var s0 := Initial(config);
    assert Reaches(s0, [], s0);
    StepsAreMemorySafe(s0, StartStep);
    var s1 := Apply(s0, StartStep);
    StepsAreMemorySafe(s1, InitializeStep(true));
    var s2 := Apply(s1, InitializeStep(true));
    StepsAreMemorySafe(s2, DirectBeginStep(play));
    var s3 := Apply(s2, DirectBeginStep(play));
    assert Reachable(s3) && Idle(s3) && InExecution(s3) == 1;
  }
}
