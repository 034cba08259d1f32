/** What the media actor tells its submitters and counts about them, compared with
    a story kept beside the run: what the callbacks answered, what was drained, and
    what was asked of the lifecycle. */
module MediaActorAnswers {
  import opened Options
  import opened MediaActorModel
  import opened MediaActorInvariant
  import opened MediaActorRuns

  /** The end of one command, queued or re-entrant. */
  datatype Report = Report(id: nat, valid: bool, ok: bool)

  /** `judged` and `ended` hold what validate and execute answered for a request,
      `refused` the submissions refused so far, `timeouts` the waiters that left
      early, `deepest` the longest the queue has been, and `activated` whether the
      worker was activated since it started. */
  datatype Story = Story(
    judged: map<Address, bool>, ended: map<Address, bool>, drained: set<Address>, drainedCount: nat,
    reports: seq<Report>, refused: seq<Status>, coalesced: nat, timeouts: nat, deepest: nat, activated: bool)

  const BLANK := Story(map[], map[], {}, 0, [], [], 0, 0, 0, false)

  // ------------------------------------------------------------------- the story

  /** What a step adds to the story, read off its label and the requests in hand. */
  function Next(s: State, step: Step, h: Story): Story
    requires Held(s)
  {
    match step
    case SubmitStep(c, wait, memoryOk) =>
      var outcome := Submit(s, c, wait, memoryOk).1;
      if outcome.Done? && outcome.status != Accepted then h.(refused := h.refused + [outcome.status])
      else if outcome.Done? && Replaces(s, c) then h.(coalesced := h.coalesced + 1)
      else h.(deepest := if |s.queue| + 1 > h.deepest then |s.queue| + 1 else h.deepest)
    case LeaveStep(p) => if p in h.ended || p in h.drained then h else h.(timeouts := h.timeouts + 1)
    case DirectBeginStep(c) =>
      var refusal := DirectBegin(s, c).1;
      if refusal.Some? then h.(refused := h.refused + [refusal.value]) else h
    case DirectEndStep(valid, ok) =>
      if s.direct == [] then h
      else h.(reports := h.reports + [Report(s.direct[|s.direct| - 1].id, valid, ok)])
    case JudgeStep(valid) =>
      if s.current.None? then h else h.(judged := h.judged[s.current.value := valid])
    case FinishStep(ok) =>
      if s.current.None? || s.current.value !in h.judged then h
      else
        var p := s.current.value;
        h.(ended := h.ended[p := ok],
           reports := h.reports + [Report(s.heap.blocks[p].command.id, h.judged[p], ok)])
    case InitializeStep(ok) => if ok then h else Drains(s, h)
    case WindDownStep => Drains(s, h)
    case ActivateStep => h.(activated := h.activated || (s.life.running && !s.life.stopping && !s.life.initFailed))
    case StartStep =>
      if s.life.running || s.life.phase != Absent || s.queue != [] then h else h.(activated := false)
    case _ => h
  }

  function Drains(s: State, h: Story): Story {
    h.(drained := h.drained + (set p | p in s.queue), drainedCount := h.drainedCount + |s.queue|)
  }

  /** An asynchronous command takes the place of the newest one: both are a seek in
      milliseconds, a volume or a mute command of one producer under one lease, and
      nobody waits for the newest. */
  predicate Replaces(s: State, c: Command)
    requires Held(s)
  {
    && s.queue != [] && s.queue[|s.queue| - 1] !in s.waiters
    && var tail := s.heap.blocks[s.queue[|s.queue| - 1]].command;
       && c.kind in {SeekMs, SetVolume, SetMute} && tail.kind == c.kind
       && tail.producer == c.producer && tail.token == c.token && tail.generation == c.generation
  }

  // ------------------------------------------------------------------- invariant

  /** What a completed request carries for its submitter. */
  predicate Carries(r: Request, status: Status) {
    r.completed && r.status == status
  }

  ghost predicate AnswerOk(s: State, h: Story, p: Address)
    requires Held(s)
  {
    p in s.waiters ==>
      var r := s.heap.blocks[p];
      && !(p in h.ended && p in h.drained)
      && (p in h.ended ==> p in h.judged && Carries(r, if !h.judged[p] then Stale
                                                       else if h.ended[p] then Executed else ExecutionFailed))
      && (p in h.drained ==> Carries(r, ShuttingDown))
      && (p !in h.ended && p !in h.drained ==> InUse(s, p))
  }

  ghost predicate WorkOk(s: State, h: Story, p: Address) {
    && (p in s.queue ==> p !in h.judged && p !in h.ended && p !in h.drained)
    && (s.current == Some(p) ==>
          && p !in h.ended && p !in h.drained
          && (s.verdict == Unjudged <==> p !in h.judged)
          && (p in h.judged ==> (s.verdict == Fresh <==> h.judged[p])))
    && (p >= s.heap.next ==> p !in h.judged && p !in h.ended && p !in h.drained)
  }

  ghost predicate Told(s: State, h: Story)
    requires Held(s)
  {
    && (forall p: Address :: AnswerOk(s, h, p))
    && (forall p: Address :: WorkOk(s, h, p))
  }

  /** How many reports, or refusals, say so. */
  function Executions(rs: seq<Report>): nat {
    if rs == [] then 0 else Executions(rs[..|rs| - 1]) + if rs[|rs| - 1].valid then 1 else 0
  }

  function Failures(rs: seq<Report>): nat {
    if rs == [] then 0
    else Failures(rs[..|rs| - 1]) + if rs[|rs| - 1].valid && !rs[|rs| - 1].ok then 1 else 0
  }

  function Count(statuses: seq<Status>, status: Status): nat {
    multiset(statuses)[status]
  }

  ghost predicate Finished(health: Health, h: Story) {
    && health.executed == Executions(h.reports)
    && health.executionFailed == Failures(h.reports)
    && health.rejectedStale == |h.reports| - Executions(h.reports)
    && health.lastCompleted == if h.reports == [] then 0 else h.reports[|h.reports| - 1].id
  }

  ghost predicate Rejected(health: Health, h: Story) {
    && health.rejectedFull == Count(h.refused, QueueFull)
    && health.rejectedStopping == Count(h.refused, ShuttingDown) + h.drainedCount
    && health.timedOut == h.timeouts
  }

  /** Every counter of the actor's health counts what its name says. */
  ghost predicate Counters(health: Health, h: Story) {
    && Finished(health, h) && Rejected(health, h)
    && health.coalesced == h.coalesced && health.maxDepth == h.deepest
  }

  /** Commands are dispatched once the worker is ready and was started active or
      activated since. */
  ghost predicate Dispatch(s: State, h: Story) {
    && (s.life.dispatchEnabled <==> s.life.ready && s.life.dispatchRequested)
    && (WorkerAlive(s.life.phase) ==> (s.life.dispatchRequested <==> !s.config.startSuspended || h.activated))
    && (s.life.phase == Looping ==> s.life.ready)
  }

  // ------------------------------------------------------------ answers, by region

  /** A region that leaves waiters, queue and hands alone but for p. */
  lemma OthersStay(s: State, t: State, h: Story, g: Story, p: Address)
    requires Held(s) && Held(t) && Told(s, h) && Apart(s.heap, t.heap, p) && s.heap.next <= t.heap.next
    requires forall q :: q != p ==> (q in t.waiters <==> q in s.waiters)
    requires forall q :: q != p ==> (q in t.queue <==> q in s.queue)
    requires forall q :: q != p ==> (t.current == Some(q) <==> s.current == Some(q))
    requires t.current == s.current ==> t.verdict == s.verdict
    requires forall q :: q != p ==>
      && (q in g.judged <==> q in h.judged) && (q in h.judged ==> g.judged[q] == h.judged[q])
      && (q in g.ended <==> q in h.ended) && (q in h.ended ==> g.ended[q] == h.ended[q])
      && (q in g.drained <==> q in h.drained)
    ensures forall q: Address :: q != p ==> AnswerOk(t, g, q) && WorkOk(t, g, q)
  {
    forall q: Address | q != p ensures AnswerOk(t, g, q) && WorkOk(t, g, q) {
      assert AnswerOk(s, h, q) && WorkOk(s, h, q);
    }
  }

  lemma EnqueueTells(s: State, h: Story, c: Command, wait: bool)
    requires References(s) && Told(s, h)
    ensures var t := Enqueue(s, c, wait); Held(t) && Told(t, h)
  {
    var t, n := Enqueue(s, c, wait), s.heap.next;
    assert Counted(s, n);
    OthersStay(s, t, h, h, n);
    assert WorkOk(s, h, n);
  }

  lemma CoalesceTells(s: State, h: Story, c: Command)
    requires References(s) && Told(s, h) && TailAbsorbs(s, c)
    ensures var t := Coalesce(s, c); Held(t) && Told(t, h)
  {
    var t, n, last := Coalesce(s, c), s.heap.next, |s.queue| - 1;
    var p := s.queue[last];
    CoalesceReferences(s, c);
    assert Counted(s, n) && Counted(s, p) && p !in s.waiters;
    CompleteChanges(Create(s.heap, c.(id := s.health.lastId + 1), 1), p, Accepted);
    assert p !in t.queue by { TailOnce(s.queue, last, n); }
    assert forall q :: q != p && q != n ==> (q in t.queue <==> q in s.queue) by { TailOnce(s.queue, last, n); }
    hide CompleteRequest, Create, References;
    forall q: Address ensures AnswerOk(t, h, q) && WorkOk(t, h, q) {
      assert AnswerOk(s, h, q) && WorkOk(s, h, q) && WorkOk(s, h, n);
    }
  }

  lemma TailOnce(q: seq<Address>, last: nat, n: Address)
    requires Distinct(q) && last == |q| - 1 && n !in q
    ensures q[last] !in q[last := n] && n in q[last := n]
    ensures forall x :: x != q[last] && x != n ==> (x in q[last := n] <==> x in q)
  {
    assert q == q[..last] + [q[last]] && q[last := n] == q[..last] + [n];
  }

  lemma DiscardTells(s: State, h: Story, c: Command, health: Health)
    requires References(s) && Told(s, h)
    ensures var t := Discard(s, c, health); Held(t) && Told(t, h)
  {
    var t, n := Discard(s, c, health), s.heap.next;
    assert Counted(s, n);
    OthersStay(s, t, h, h, n);
    assert WorkOk(s, h, n);
  }

  /** Only what was judged, ended and drained matters for the answers. */
  lemma SameTold(s: State, h: Story, g: Story)
    requires Held(s) && Told(s, h) && g.judged == h.judged && g.ended == h.ended && g.drained == h.drained
    ensures Told(s, g)
  {
    forall p: Address ensures AnswerOk(s, g, p) && WorkOk(s, g, p) {
      assert AnswerOk(s, h, p) && WorkOk(s, h, p);
    }
  }

  lemma SubmitTold(s: State, h: Story, c: Command, wait: bool, memoryOk: bool)
    requires References(s) && Told(s, h)
    ensures var t := Submit(s, c, wait, memoryOk).0; Held(t) && Told(t, h)
  {
    assert Held(s);
    hide Discard, Coalesce, Enqueue, References, Told, Held, NoRoom, TailAbsorbs, CommandValid;
    if !CommandValid(c) || !memoryOk {
    } else if !s.life.running {
      DiscardTells(s, h, c, s.health);
    } else if s.life.stopping || !s.life.accepting {
      DiscardTells(s, h, c, s.health.(rejectedStopping := s.health.rejectedStopping + 1));
    } else if !wait && TailAbsorbs(s, c) {
      CoalesceTells(s, h, c);
    } else if NoRoom(s, c.kind) {
      DiscardTells(s, h, c, s.health.(rejectedFull := s.health.rejectedFull + 1));
    } else {
      EnqueueTells(s, h, c, wait);
    }
  }

  lemma SubmitTells(s: State, h: Story, c: Command, wait: bool, memoryOk: bool)
    requires References(s) && Told(s, h)
    ensures var t := Submit(s, c, wait, memoryOk).0;
      Held(t) && Told(t, Next(s, SubmitStep(c, wait, memoryOk), h))
  {
    SubmitTold(s, h, c, wait, memoryOk);
    assert Held(s);
    hide Submit, References, Told, Replaces;
    SameTold(Submit(s, c, wait, memoryOk).0, h, Next(s, SubmitStep(c, wait, memoryOk), h));
  }

  lemma LeaveTells(s: State, h: Story, p: Address)
    requires References(s) && Told(s, h) && p in s.waiters
    ensures var t := Leave(s, p).0; Held(t) && Told(t, Next(s, LeaveStep(p), h))
  {
    var t, g := Leave(s, p).0, Next(s, LeaveStep(p), h);
    LeaveReferences(s, p);
    DropChanges(s.heap, p);
    OthersStay(s, t, h, g, p);
    assert WorkOk(s, h, p);
  }

  lemma PopTells(s: State, h: Story)
    requires References(s) && Told(s, h) && s.current == None
    ensures var t := Pop(s); Held(t) && Told(t, h)
  {
    if s.queue != [] {
      TailIsDistinct(s.queue);
      var t, p := Pop(s), s.queue[0];
      forall q: Address ensures AnswerOk(t, h, q) && WorkOk(t, h, q) {
        assert AnswerOk(s, h, q) && WorkOk(s, h, q) && WorkOk(s, h, p);
      }
    }
  }

  lemma JudgeTells(s: State, h: Story, valid: bool)
    requires References(s) && Told(s, h) && s.current.Some? && s.verdict == Unjudged
    ensures var t := s.(verdict := if valid then Fresh else Outdated);
      Held(t) && Told(t, Next(s, JudgeStep(valid), h))
  {
    var t, g, p := s.(verdict := if valid then Fresh else Outdated), Next(s, JudgeStep(valid), h), s.current.value;
    OthersStayJudged(s, t, h, g, p);
    assert AnswerOk(s, h, p) && WorkOk(s, h, p) && Counted(s, p);
  }

  lemma OthersStayJudged(s: State, t: State, h: Story, g: Story, p: Address)
    requires Held(s) && Told(s, h) && t == s.(verdict := t.verdict) && s.current == Some(p)
    requires p in g.judged && g == h.(judged := h.judged[p := g.judged[p]])
    ensures forall q: Address :: q != p ==> AnswerOk(t, g, q) && WorkOk(t, g, q)
  {
    forall q: Address | q != p ensures AnswerOk(t, g, q) && WorkOk(t, g, q) {
      assert AnswerOk(s, h, q) && WorkOk(s, h, q);
    }
  }

  lemma FinishTells(s: State, h: Story, ok: bool)
    requires References(s) && Told(s, h) && s.current.Some? && s.verdict != Unjudged && References(Finish(s, ok))
    ensures Told(Finish(s, ok), Next(s, FinishStep(ok), h))
  {
    var t, g, p := Finish(s, ok), Next(s, FinishStep(ok), h), s.current.value;
    assert AnswerOk(s, h, p) && WorkOk(s, h, p) && Counted(s, p);
    CompleteChanges(s.heap, p, OutcomeStatus(s.verdict == Fresh, ok));
    hide CompleteRequest, References;
    OthersStay(s, t, h, g, p);
  }

  // ----------------------------------------------------------------- the rejection

  lemma {:induction false} RejectingTells(s: State)
    requires Core(s)
    ensures var t := RejectPending(s);
      && t.heap.next == s.heap.next
      && forall p :: p in s.waiters ==>
           && p in t.heap.blocks
           && if p in s.queue then Carries(t.heap.blocks[p], ShuttingDown)
              else t.heap.blocks[p] == s.heap.blocks[p]
    decreases |s.queue|
  {
    if s.queue != [] {
      var u, first := RejectOne(s), s.queue[0];
      RejectOneKeepsCore(s);
      RejectingTells(u);
      TailIsDistinct(s.queue);
      CompleteChanges(s.heap, first, ShuttingDown);
      RejectPendingDrains(u);
      hide CompleteRequest, HeapLedger, Completion, Ordered, Room, Ledger;
      forall p | p in s.waiters
        ensures p in u.heap.blocks && (p == first ==> Carries(u.heap.blocks[p], ShuttingDown))
        ensures p != first ==> u.heap.blocks[p] == s.heap.blocks[p]
      {
        assert Counted(s, p);
      }
    }
  }

  lemma DrainingTells(s: State, u: State, h: Story)
    requires Core(s) && Core(u) && Told(s, h) && s.current == None && u.life != s.life
    requires u.heap == s.heap && u.queue == s.queue && u.current == s.current && u.waiters == s.waiters
    ensures var t := RejectPending(u); Held(t) && Told(t, Drains(s, h))
  {
    RejectingTells(u);
    RejectPendingDrains(u);
    hide HeapLedger, Completion, Ordered, Room, Ledger, RejectPending;
    var t, g := RejectPending(u), Drains(s, h);
    forall p: Address ensures AnswerOk(t, g, p) && WorkOk(t, g, p) {
      assert AnswerOk(s, h, p) && WorkOk(s, h, p) && Counted(s, p);
    }
  }

  // -------------------------------------------------------------------- all steps

  lemma StepTells(s: State, step: Step, h: Story)
    requires Inv(s) && Enabled(s, step) && Told(s, h)
    ensures Held(Apply(s, step)) && Told(Apply(s, step), Next(s, step, h))
  {
    StepKeepsInv(s, step);
    hide HeapLedger, Completion, Ordered, Room, Ledger, Told, Submit, Finish, Leave, Pop;
    match step
    case SubmitStep(c, wait, memoryOk) => SubmitTells(s, h, c, wait, memoryOk);
    case LeaveStep(p) => LeaveTells(s, h, p);
    case PopStep => PopTells(s, h);
    case JudgeStep(valid) => JudgeTells(s, h, valid);
    case FinishStep(ok) => FinishTells(s, h, ok);
    case InitializeStep(ok) => if ok { OtherTells(s, step, h); } else { StopTells(s, step, h); }
    case WindDownStep => StopTells(s, step, h);
    case _ => OtherTells(s, step, h);
  }

  /** The state in which the rejection loop starts. */
  function Stopped(s: State, step: Step): State {
    if step == WindDownStep then s.(life := s.life.(phase := Finishing))
    else s.(life := s.life.(phase := Exited, ready := false, initFailed := true,
                            dispatchEnabled := false, running := false, accepting := false))
  }

  predicate Stops(step: Step) {
    step == InitializeStep(false) || step == WindDownStep
  }

  lemma StoppingRejects(s: State, step: Step)
    requires Inv(s) && Enabled(s, step) && Stops(step)
    ensures var u := Stopped(s, step); Core(u) && Apply(s, step) == RejectPending(u)
  {
    OtherFieldsKeepCore(s, Stopped(s, step));
  }

  lemma StopTells(s: State, step: Step, h: Story)
    requires Inv(s) && Enabled(s, step) && Told(s, h) && Stops(step)
    ensures Held(Apply(s, step)) && Told(Apply(s, step), Next(s, step, h))
  {
    StoppingRejects(s, step);
    hide HeapLedger, Completion, Ordered, Room, Ledger;
    DrainingTells(s, Stopped(s, step), h);
  }

  lemma SameWaiters(s: State, t: State, h: Story, g: Story)
    requires Held(s) && Told(s, h) && g.judged == h.judged && g.ended == h.ended && g.drained == h.drained
    requires t.heap == s.heap && t.queue == s.queue && t.current == s.current && t.verdict == s.verdict
    requires t.waiters == s.waiters
    ensures Held(t) && Told(t, g)
  {
    forall p: Address ensures AnswerOk(t, g, p) && WorkOk(t, g, p) {
      assert AnswerOk(s, h, p) && WorkOk(s, h, p);
    }
  }

  lemma OtherTells(s: State, step: Step, h: Story)
    requires Inv(s) && Enabled(s, step) && Told(s, h)
    requires step.DirectBeginStep? || step.DirectEndStep? || step == ExitStep || step == ActivateStep
             || step == QuiesceStep || step == StopStep || step == StopOnWorkerStep || step == JoinStep
             || step == StartStep || step == InitializeStep(true)
    ensures Held(Apply(s, step)) && Told(Apply(s, step), Next(s, step, h))
  {
    assert Held(s);
    var t, g := Apply(s, step), Next(s, step, h);
    assert t.heap == s.heap && t.queue == s.queue && t.current == s.current && t.verdict == s.verdict
           && t.waiters == s.waiters by { hide Inv, References, Held, Told, Next; }
    assert g.judged == h.judged && g.ended == h.ended && g.drained == h.drained by {
      hide Inv, References, Held, Told, Apply;
    }
    hide *;
    SameWaiters(s, t, h, g);
  }

  // ---------------------------------------------------------------- the counters

  lemma ReportCounts(rs: seq<Report>, r: Report)
    ensures Executions(rs + [r]) == Executions(rs) + if r.valid then 1 else 0
    ensures Failures(rs + [r]) == Failures(rs) + if r.valid && !r.ok then 1 else 0
  {
    assert (rs + [r])[..|rs|] == rs;
  }

  lemma ReplacesIsAbsorbs(s: State, c: Command)
    requires References(s)
    ensures Replaces(s, c) <==> TailAbsorbs(s, c)
  {
    if s.queue != [] { assert Counted(s, s.queue[|s.queue| - 1]); }
  }

  /** What a submission does to the counters, by what it answers. */
  lemma SubmitHealth(s: State, c: Command, wait: bool, memoryOk: bool)
    requires Held(s)
    ensures var (t, outcome) := Submit(s, c, wait, memoryOk);
      && t.health.executed == s.health.executed && t.health.executionFailed == s.health.executionFailed
      && t.health.rejectedStale == s.health.rejectedStale && t.health.lastCompleted == s.health.lastCompleted
      && t.health.timedOut == s.health.timedOut && t.life == s.life && t.config == s.config
      && t.health.rejectedFull == s.health.rejectedFull + (if outcome == Done(QueueFull) then 1 else 0)
      && t.health.rejectedStopping == s.health.rejectedStopping + (if outcome == Done(ShuttingDown) then 1 else 0)
      && t.health.coalesced == s.health.coalesced + (if outcome == Done(Accepted) && TailAbsorbs(s, c) then 1 else 0)
      && t.health.maxDepth ==
         if (outcome.Pending? || (outcome == Done(Accepted) && !TailAbsorbs(s, c))) && |s.queue| >= s.health.maxDepth
         then |s.queue| + 1 else s.health.maxDepth
  {
    hide Create, CompleteRequest, Free, NoRoom, CommandValid, TailAbsorbs;
  }

  lemma RefusalCounts(refused: seq<Status>, status: Status, counted: Status)
    ensures Count(refused + [status], counted) == Count(refused, counted) + if status == counted then 1 else 0
  {}

  lemma SubmitCounts(s: State, h: Story, c: Command, wait: bool, memoryOk: bool)
    requires References(s) && Counters(s.health, h)
    ensures Counters(Submit(s, c, wait, memoryOk).0.health, Next(s, SubmitStep(c, wait, memoryOk), h))
  {
    ReplacesIsAbsorbs(s, c);
    SubmitHealth(s, c, wait, memoryOk);
    SubmitRejects(s, h, c, wait, memoryOk);
    assert Held(s);
    hide References, Submit, Replaces, TailAbsorbs, Executions, Failures, Rejected;
  }

  lemma SubmitRejects(s: State, h: Story, c: Command, wait: bool, memoryOk: bool)
    requires Held(s) && Rejected(s.health, h)
    ensures Rejected(Submit(s, c, wait, memoryOk).0.health, Next(s, SubmitStep(c, wait, memoryOk), h))
  {
    SubmitHealth(s, c, wait, memoryOk);
    hide Submit, Replaces, TailAbsorbs, Held, Count;
    var outcome := Submit(s, c, wait, memoryOk).1;
    if outcome.Done? { RefusedCounts(h.refused, outcome.status); }
  }

  lemma RefusedCounts(refused: seq<Status>, status: Status)
    ensures Count(refused + [status], QueueFull) == Count(refused, QueueFull) + if status == QueueFull then 1 else 0
    ensures Count(refused + [status], ShuttingDown)
            == Count(refused, ShuttingDown) + if status == ShuttingDown then 1 else 0
  {
    RefusalCounts(refused, status, QueueFull);
    RefusalCounts(refused, status, ShuttingDown);
  }

  lemma StepCounts(s: State, step: Step, h: Story)
    requires Inv(s) && Enabled(s, step) && Told(s, h) && Counters(s.health, h)
    ensures Counters(Apply(s, step).health, Next(s, step, h))
  {
    hide Counters, Told;
    match step
    case SubmitStep(c, wait, memoryOk) => SubmitCounts(s, h, c, wait, memoryOk);
    case LeaveStep(p) => LeaveCounts(s, h, p);
    case FinishStep(ok) => FinishCounts(s, h, ok);
    case DirectBeginStep(_) => DirectCounts(s, step, h);
    case DirectEndStep(_, _) => DirectCounts(s, step, h);
    case InitializeStep(ok) => if ok { OthersCount(s, step, h); } else { StopCounts(s, step, h); }
    case WindDownStep => StopCounts(s, step, h);
    case _ => OthersCount(s, step, h);
  }

  lemma DirectCounts(s: State, step: Step, h: Story)
    requires References(s) && Enabled(s, step) && Counters(s.health, h)
    requires step.DirectBeginStep? || step.DirectEndStep?
    ensures Counters(Apply(s, step).health, Next(s, step, h))
  {
    assert Held(s);
    hide References, Held, Counters, DirectBegin, DirectEnd, Next;
    if step.DirectBeginStep? {
      DirectBeginCounts(s, h, step.command);
    } else {
      DirectEndCounts(s, h, step.valid, step.ok);
    }
  }

  lemma DirectEndCounts(s: State, h: Story, valid: bool, ok: bool)
    requires Held(s) && Counters(s.health, h) && s.direct != []
    ensures Counters(DirectEnd(s, valid, ok).0.health, Next(s, DirectEndStep(valid, ok), h))
  {
    hide Executions, Failures, Count, Held;
    ReportCounts(h.reports, Report(s.direct[|s.direct| - 1].id, valid, ok));
  }

  lemma DirectBeginCounts(s: State, h: Story, c: Command)
    requires Held(s) && Counters(s.health, h)
    ensures Counters(DirectBegin(s, c).0.health, Next(s, DirectBeginStep(c), h))
  {
    hide Executions, Failures, Count, Held;
    var refusal := DirectBegin(s, c).1;
    if refusal.Some? { RefusedCounts(h.refused, refusal.value); }
  }

  lemma OthersCount(s: State, step: Step, h: Story)
    requires References(s) && Enabled(s, step) && Counters(s.health, h) && !Stops(step)
    requires !step.SubmitStep? && !step.LeaveStep? && !step.FinishStep?
    requires !step.DirectBeginStep? && !step.DirectEndStep?
    ensures Counters(Apply(s, step).health, Next(s, step, h))
  {
    assert Held(s);
    hide References, Executions, Failures, Count;
  }

  lemma LeaveCounts(s: State, h: Story, p: Address)
    requires Inv(s) && Told(s, h) && Counters(s.health, h) && p in s.waiters
    ensures Counters(Leave(s, p).0.health, Next(s, LeaveStep(p), h))
  {
    assert AnswerOk(s, h, p) && Settled(s, p);
    hide HeapLedger, Ordered, Room, Ledger, Drop, Executions, Failures;
  }

  lemma FinishCounts(s: State, h: Story, ok: bool)
    requires Inv(s) && Told(s, h) && Counters(s.health, h) && s.current.Some? && s.verdict != Unjudged
    ensures Counters(Finish(s, ok).health, Next(s, FinishStep(ok), h))
  {
    var p := s.current.value;
    assert WorkOk(s, h, p);
    ReportCounts(h.reports, Report(s.heap.blocks[p].command.id, h.judged[p], ok));
    hide HeapLedger, Ordered, Room, Ledger, Completion, CompleteRequest, Executions, Failures;
  }

  lemma DrainCounts(s: State, h: Story)
    requires Counters(s.health, h)
    ensures Counters(s.health.(rejectedStopping := s.health.rejectedStopping + |s.queue|), Drains(s, h))
  {
    hide Executions, Failures, Count;
  }

  lemma StopHealth(s: State, step: Step)
    requires Inv(s) && Enabled(s, step) && Stops(step)
    ensures Apply(s, step).health == s.health.(rejectedStopping := s.health.rejectedStopping + |s.queue|)
  {
    StoppingRejects(s, step);
    RejectPendingDrains(Stopped(s, step));
    hide HeapLedger, Completion, Ordered, Room, References;
  }

  lemma StopCounts(s: State, step: Step, h: Story)
    requires Inv(s) && Enabled(s, step) && Counters(s.health, h) && Stops(step)
    ensures Counters(Apply(s, step).health, Next(s, step, h))
  {
    StopHealth(s, step);
    DrainCounts(s, h);
    hide Apply, Core, Counters, Drains;
  }

  // ------------------------------------------------------------------ the lifecycle

  lemma StepDispatches(s: State, step: Step, h: Story)
    requires Inv(s) && Enabled(s, step) && Dispatch(s, h)
    ensures Dispatch(Apply(s, step), Next(s, step, h))
  {
    hide Dispatch;
    if Stops(step) {
      StopDispatches(s, step, h);
    } else if step.SubmitStep? || step.LeaveStep? || step.FinishStep? || step == PopStep {
      RequestsDispatch(s, step, h);
    } else {
      LifeDispatches(s, step, h);
    }
  }

  lemma StopDispatches(s: State, step: Step, h: Story)
    requires Inv(s) && Enabled(s, step) && Dispatch(s, h) && Stops(step)
    ensures Dispatch(Apply(s, step), Next(s, step, h))
  {
    StoppingRejects(s, step);
    RejectPendingDrains(Stopped(s, step));
    hide HeapLedger, Completion, Ordered, Room, Ledger;
  }

  lemma RequestsDispatch(s: State, step: Step, h: Story)
    requires References(s) && Enabled(s, step) && Dispatch(s, h)
    requires step.SubmitStep? || step.LeaveStep? || step.FinishStep? || step == PopStep
    ensures Dispatch(Apply(s, step), Next(s, step, h))
  {
    assert Held(s);
    if step.SubmitStep? { SubmitHealth(s, step.command, step.wait, step.memoryOk); }
    hide References, Drop, CompleteRequest, Submit, CountOutcome;
  }

  lemma LifeDispatches(s: State, step: Step, h: Story)
    requires Inv(s) && Enabled(s, step) && Dispatch(s, h) && !Stops(step)
    requires !step.SubmitStep? && !step.LeaveStep? && !step.FinishStep? && step != PopStep
    ensures Dispatch(Apply(s, step), Next(s, step, h))
  {
    assert Held(s) && Threads(s);
    hide References, HeapLedger, Completion, Ordered, Room, Ledger;
  }

  // ------------------------------------------------------------------------- runs

  ghost predicate Tells(s: State, h: Story, steps: seq<Step>, t: State, g: Story)
    decreases |steps|
  {
    if steps == [] then s == t && h == g
    else
      && References(s) && Enabled(s, steps[0])
      && Tells(Apply(s, steps[0]), Next(s, steps[0], h), steps[1..], t, g)
  }

  ghost predicate StoryOk(s: State, h: Story) {
    Inv(s) && Told(s, h) && Counters(s.health, h) && Dispatch(s, h)
  }

  lemma {:induction false} RunKeepsStory(s: State, h: Story, steps: seq<Step>, t: State, g: Story)
    requires StoryOk(s, h) && Tells(s, h, steps, t, g)
    ensures StoryOk(t, g)
    decreases |steps|
  {
    hide Inv, Told, Counters, Dispatch, Next, Apply;
    if steps != [] {
      StepKeepsInv(s, steps[0]);
      StepTells(s, steps[0], h);
      StepCounts(s, steps[0], h);
      StepDispatches(s, steps[0], h);
      RunKeepsStory(Apply(s, steps[0]), Next(s, steps[0], h), steps[1..], t, g);
    }
  }

  lemma RunStory(config: Config, steps: seq<Step>, t: State, h: Story)
    requires config.reserved < config.capacity && Tells(Initial(config), BLANK, steps, t, h)
    ensures StoryOk(t, h)
  {
    InitialStory(config);
    hide StoryOk, Initial;
    RunKeepsStory(Initial(config), BLANK, steps, t, h);
  }

  lemma InitialStory(config: Config)
    requires config.reserved < config.capacity
    ensures StoryOk(Initial(config), BLANK)
  {
    InitialInv(config);
    hide Inv;
  }

  /** A waiter is told what became of its command: EXECUTED exactly when validate
      let it pass and execute succeeded, EXECUTION_FAILED when execute failed, STALE
      when validate refused, SHUTTING_DOWN when it was drained, and a timeout when
      none of that has happened yet. */
  lemma WaiterIsToldTheTruth(config: Config, steps: seq<Step>, t: State, h: Story, p: Address)
    requires config.reserved < config.capacity && Tells(Initial(config), BLANK, steps, t, h) && p in t.waiters
    ensures p in t.heap.blocks
    ensures var answer := Leave(t, p).1;
      && (answer == Executed <==> p in h.ended && p in h.judged && h.judged[p] && h.ended[p])
      && (answer == ExecutionFailed <==> p in h.ended && p in h.judged && h.judged[p] && !h.ended[p])
      && (answer == Stale <==> p in h.ended && p in h.judged && !h.judged[p])
      && (answer == ShuttingDown <==> p in h.drained)
      && (answer == Timeout <==> p !in h.ended && p !in h.drained)
  {
    RunStory(config, steps, t, h);
    assert AnswerOk(t, h, p) && Settled(t, p);
    hide HeapLedger, Ordered, Room, Ledger;
  }

  /** A re-entrant call is told the same of its own validate and execute. */
  lemma NestedIsToldTheTruth(s: State, valid: bool, ok: bool)
    requires s.direct != []
    ensures var answer := DirectEnd(s, valid, ok).1;
      && (answer == Stale <==> !valid) && (answer == Executed <==> valid && ok)
      && (answer == ExecutionFailed <==> valid && !ok)
  {}

  /** The actor's counters are what happened in the run. */
  lemma HealthIsTheStory(config: Config, steps: seq<Step>, t: State, h: Story)
    requires config.reserved < config.capacity && Tells(Initial(config), BLANK, steps, t, h)
    ensures Counters(t.health, h)
  {
    RunStory(config, steps, t, h);
  }

  /** Exactly when the worker, in its loop with nothing in hand, may dequeue. */
  lemma DispatchesExactly(config: Config, steps: seq<Step>, t: State, h: Story)
    requires config.reserved < config.capacity && Tells(Initial(config), BLANK, steps, t, h)
    requires t.life.phase == Looping && t.current == None && t.direct == []
    ensures Enabled(t, PopStep) <==> !t.life.stopping && (!t.config.startSuspended || h.activated)
  {
    RunStory(config, steps, t, h);
    hide Told, Counters, Core;
  }

  /** What a submission is answered: taken in exactly when it is well formed, there
      is memory, the actor accepts, and it replaces the newest command or finds a
      free slot, the last `reserved` ones being for four kinds only. */
  lemma AnsweredExactly(s: State, c: Command, wait: bool, memoryOk: bool)
    requires Reachable(s)
    ensures Held(s)
    ensures var outcome := Submit(s, c, wait, memoryOk).1;
      var formed := c.kind != NoKind && (c.hasRetain <==> c.hasRelease);
      var room := |s.queue| < s.config.capacity
                  && (c.kind in {StopAny, ReleaseLease, Quiesce, Shutdown}
                      || |s.queue| + s.config.reserved < s.config.capacity);
      && (outcome == Done(Invalid) <==> !formed)
      && (outcome == Done(NoMemory) <==> formed && !memoryOk)
      && (outcome == Done(NotRunning) <==> formed && memoryOk && !s.life.running)
      && (outcome == Done(ShuttingDown) <==> formed && memoryOk && s.life.running && !s.life.accepting)
      && (outcome == Done(QueueFull) <==>
            formed && memoryOk && s.life.accepting && !room && !(!wait && Replaces(s, c)))
      && (outcome == Done(Accepted) <==>
            formed && memoryOk && s.life.accepting && !wait && (room || Replaces(s, c)))
      && (outcome == Pending(s.heap.next) <==> formed && memoryOk && s.life.accepting && wait && room)
  {
    ReachableInv(s);
    ReplacesIsAbsorbs(s, c);
    hide References, HeapLedger, Completion, Ordered, Ledger, Discard, Coalesce, Enqueue, Replaces, TailAbsorbs;
  }
}
