/** What coalescing does to the mock backend (source/player/backend/mock.c), which
    refuses a seek to a negative position. */
module MockSeeks {
  import opened Options
  import opened MediaActorModel
  import opened MediaActorInvariant
  import opened MediaActorRuns
  import opened Coalescing

  datatype MockPlayer = MockPlayer(hasMedia: bool, duration: int, position: int, volume: int, mute: bool)

  /** mock_seek_ms, mock_set_volume and mock_set_mute; other commands as given. */
  function MockExecute(other: (MockPlayer, Command) -> MockPlayer): (MockPlayer, Command) -> MockPlayer {
    (m: MockPlayer, c: Command) =>
      match c.kind
      case SeekMs =>
        if !m.hasMedia || c.value < 0 then m
        else m.(position := if m.duration > 0 && c.value > m.duration then m.duration else c.value)
      case SetVolume => m.(volume := if c.value < 0 then 0 else if c.value > 100 then 100 else c.value)
      case SetMute => m.(mute := c.flag)
      case _ => other(m, c)
  }

  /** The volume becomes the nearest one from 0 to 100, the mute flag what it is
      told, and the position the nearest one within the media, if it is told a
      position at all; every other command is left to the backend's own. */
  lemma MockDoes(other: (MockPlayer, Command) -> MockPlayer, m: MockPlayer, c: Command, v: int)
    ensures var n := MockExecute(other)(m, c);
      && (c.kind == SetVolume ==>
            0 <= n.volume <= 100 && n == m.(volume := n.volume)
            && (0 <= v <= 100 ==> Distance(n.volume, c.value) <= Distance(v, c.value)))
      && (c.kind == SetMute ==> n == m.(mute := c.flag))
      && (c.kind == SeekMs && m.hasMedia && c.value >= 0 ==>
            n == m.(position := n.position) && 0 <= n.position
            && (if m.duration > 0
                then n.position <= m.duration
                     && (0 <= v <= m.duration ==> Distance(n.position, c.value) <= Distance(v, c.value))
                else n.position == c.value))
      && (c.kind == SeekMs && (!m.hasMedia || c.value < 0) ==> n == m)
      && (c.kind !in {SeekMs, SetVolume, SetMute} ==> n == other(m, c))
  {}

  function Distance(a: int, b: int): nat {
    if a < b then b - a else a - b
  }

  function Always(): (Producer, nat, nat) -> bool { (p: Producer, t: nat, g: nat) => true }

  // ----------------------------------------------------------------- one batch

  /** For every player and validator the batch has the effect of c. */
  ghost predicate Means(other: (MockPlayer, Command) -> MockPlayer, batch: seq<Command>, c: Command) {
    forall m: MockPlayer, v: (Producer, nat, nat) -> bool ::
      Drain(MockExecute(other), v, m, batch) == Drain(MockExecute(other), v, m, [c])
  }

  /** No valid seek of the batch gave way to a negative one. */
  predicate KeepsSeek(batch: seq<Command>, c: Command) {
    c.kind == SeekMs && c.value < 0 ==> forall i :: 0 <= i < |batch| ==> batch[i].value < 0
  }

  lemma {:induction false} ValidSeekMoves(
    other: (MockPlayer, Command) -> MockPlayer, batch: seq<Command>, m: MockPlayer)
    requires forall i :: 0 <= i < |batch| ==> batch[i].kind == SeekMs
    requires m.hasMedia && m.duration == 0
    requires m.position >= 0 || exists i :: 0 <= i < |batch| && batch[i].value >= 0
    ensures Drain(MockExecute(other), Always(), m, batch).position >= 0
  {
    if batch != [] {
      var next := MockExecute(other)(m, batch[0]);
      assert forall i :: 1 <= i < |batch| ==> batch[i] == batch[1..][i - 1];
      ValidSeekMoves(other, batch[1..], next);
    }
  }

  lemma NegativeSeekStays(other: (MockPlayer, Command) -> MockPlayer, m: MockPlayer, c: Command)
    requires c.kind == SeekMs && c.value < 0
    ensures Drain(MockExecute(other), Always(), m, [c]) == m
  {
    assert [c][1..] == [];
    assert MockExecute(other)(m, c) == m;
  }

  lemma KeptSeeksAbsorb(other: (MockPlayer, Command) -> MockPlayer, batch: seq<Command>, c: Command)
    requires Stands(batch, c) && KeepsSeek(batch, c)
    ensures LastAbsorbs(MockExecute(other), batch)
  {
    forall i | 0 <= i < |batch| - 1 ensures Absorbs(MockExecute(other), batch[i], c) {
      assert Replaceable(batch[i].kind) && CanReplace(batch[i], c);
    }
  }

  /** A coalesced batch means to the mock backend what its last command means
      exactly when no valid seek in it gave way to a negative one. */
  lemma BatchExactly(other: (MockPlayer, Command) -> MockPlayer, batch: seq<Command>, c: Command)
    requires Stands(batch, c)
    ensures Means(other, batch, c) <==> KeepsSeek(batch, c)
  {
    if KeepsSeek(batch, c) {
      KeptSeeksAbsorb(other, batch, c);
      forall m: MockPlayer, v: (Producer, nat, nat) -> bool
        ensures Drain(MockExecute(other), v, m, batch) == Drain(MockExecute(other), v, m, [c])
      {
        BatchMeansItsLast(MockExecute(other), v, m, batch, c);
      }
    } else {
      var away := MockPlayer(true, 0, -1, 0, false);
      assert forall i :: 0 <= i < |batch| - 1 ==> CanReplace(batch[i], c);
      ValidSeekMoves(other, batch, away);
      NegativeSeekStays(other, away, c);
      assert Drain(MockExecute(other), Always(), away, batch) != Drain(MockExecute(other), Always(), away, [c]);
    }
  }

  // ---------------------------------------------------------------- a whole run

  ghost predicate AllMean(other: (MockPlayer, Command) -> MockPlayer, batches: seq<seq<Command>>) {
    forall i :: 0 <= i < |batches| && batches[i] != [] ==> Means(other, batches[i], batches[i][|batches[i]| - 1])
  }

  ghost predicate AllKeep(batches: seq<seq<Command>>) {
    forall i :: 0 <= i < |batches| && batches[i] != [] ==> KeepsSeek(batches[i], batches[i][|batches[i]| - 1])
  }

  /** An asynchronous seek to a negative position takes the place of a queued seek
      to a valid one. */
  predicate LosesSeek(s: State, step: Step)
    requires Held(s)
  {
    && step.SubmitStep? && Coalesces(s, step.command, step.wait, step.memoryOk)
    && step.command.kind == SeekMs
    && step.command.value < 0 <= s.heap.blocks[s.queue[|s.queue| - 1]].command.value
  }

  predicate Coalesces(s: State, c: Command, wait: bool, memoryOk: bool)
    requires Held(s)
  {
    && CommandValid(c) && memoryOk && s.life.running && !s.life.stopping && s.life.accepting
    && !wait && TailAbsorbs(s, c)
  }

  lemma AllKeepAppend(a: seq<seq<Command>>, b: seq<seq<Command>>)
    ensures AllKeep(a + b) <==> AllKeep(a) && AllKeep(b)
  {
    assert forall i :: 0 <= i < |a| ==> (a + b)[i] == a[i];
    assert forall i :: 0 <= i < |b| ==> (a + b)[|a| + i] == b[i];
  }

  lemma GrownKeeps(queued: seq<seq<Command>>, cs: seq<Command>, was: Command, now: Command)
    requires AllStand(queued, cs + [was]) && CanReplace(was, now) && AllKeep(queued)
    ensures AllKeep(Grown(queued, now)) <==> !(now.kind == SeekMs && now.value < 0 <= was.value)
  {
    var k := |cs|;
    var grown := queued[k] + [now];
    assert Stands(queued[k], (cs + [was])[k]) && grown[|grown| - 1] == now;
    assert forall i :: 0 <= i < k ==> queued[..k][i] == queued[i];
    AllKeepAppend(queued[..k], [grown]);
    assert AllKeep([grown]) <==> KeepsSeek(grown, now) by { assert [grown][0] == grown; }
    assert forall i :: 0 <= i < |queued[k]| ==> grown[i] == queued[k][i];
    assert queued[k][|queued[k]| - 1] == was && KeepsSeek(queued[k], was);
  }

  lemma SubmitKeepsSeeks(s: State, c: Command, wait: bool, memoryOk: bool, r: Record)
    requires References(s) && Held(s) && Faithful(s, r) && AllKeep(Batches(s, r))
    requires Coalesces(s, c, wait, memoryOk) ==> References(Coalesce(s, c))
    ensures AllKeep(Batches(Submit(s, c, wait, memoryOk).0, Follow(s, SubmitStep(c, wait, memoryOk), r)))
      <==> !LosesSeek(s, SubmitStep(c, wait, memoryOk))
  {
    hide AllKeep, Commands, Flatten, AllStand, Grown, References, Create, CompleteRequest;
    var done := r.ended + if s.current.Some? then [r.running] else [];
    AllKeepAppend(done, r.queued);
    if Coalesces(s, c, wait, memoryOk) {
      CoalesceCommands(s, c);
      var last := |s.queue| - 1;
      var earlier, tail := Commands(s.heap.blocks, s.queue[..last]), s.heap.blocks[s.queue[last]].command;
      GrownKeeps(r.queued, earlier, tail, Stamped(s, c));
      AllKeepAppend(done, Grown(r.queued, Stamped(s, c)));
    } else {
      OneKeeps(Stamped(s, c));
      AllKeepAppend(r.queued, [[Stamped(s, c)]]);
      AllKeepAppend(done, r.queued + [[Stamped(s, c)]]);
    }
  }

  lemma OneKeeps(c: Command)
    ensures AllKeep([[c]])
  {}

  /** Work moves on, and its batch with it. */
  lemma WorkKeepsBatches(s: State, step: Step, r: Record)
    requires Inv(s) && Enabled(s, step) && Faithful(s, r) && (step.PopStep? || step.FinishStep?)
    ensures Batches(Apply(s, step), Follow(s, step, r)) == Batches(s, r)
  {
    hide AllStand, Flatten;
    if step.PopStep? && s.queue != [] {
      QueuedBatches(s, r);
      assert r.queued == [r.queued[0]] + r.queued[1..];
    }
  }

  lemma QueuedBatches(s: State, r: Record)
    requires Held(s) && Faithful(s, r)
    ensures |r.queued| == |s.queue|
  {
    CommandsCount(s.heap.blocks, s.queue);
  }

  lemma {:induction false} CommandsCount(b: map<Address, Request>, q: seq<Address>)
    requires forall p :: p in q ==> p in b
    ensures |Commands(b, q)| == |q|
  {
    if q != [] { CommandsCount(b, q[1..]); }
  }

  lemma RejectionKeepsSeeks(s: State, step: Step, r: Record)
    requires Inv(s) && Enabled(s, step) && AllKeep(Batches(s, r))
    requires step == InitializeStep(false) || step == WindDownStep
    ensures AllKeep(Batches(Apply(s, step), Follow(s, step, r)))
  {
    hide AllKeep, Apply, Flatten;
    RejectingFindsNoWork(s, step);
    AllKeepAppend(r.ended, r.queued);
    hide Inv;
    assert Batches(s, r) == r.ended + r.queued;
    assert Batches(Apply(s, step), Follow(s, step, r)) == r.ended;
  }

  /** All batches keep their seeks after a step exactly when it lost none. */
  lemma StepKeepsSeeks(s: State, step: Step, r: Record)
    requires Inv(s) && Enabled(s, step) && Faithful(s, r) && AllKeep(Batches(s, r))
    ensures AllKeep(Batches(Apply(s, step), Follow(s, step, r))) <==> !LosesSeek(s, step)
  {
    hide Faithful, AllKeep, Inv, References, Submit, Batches;
    InvParts(s);
    StepKeepsInv(s, step);
    InvParts(Apply(s, step));
    match step
    case SubmitStep(c, wait, memoryOk) =>
      if Coalesces(s, c, wait, memoryOk) { CoalescingIsSubmit(s, c, wait, memoryOk); }
      SubmitKeepsSeeks(s, c, wait, memoryOk, r);
    case PopStep => WorkKeepsBatches(s, step, r);
    case FinishStep(_) => WorkKeepsBatches(s, step, r);
    case InitializeStep(ok) => if ok { OtherKeepsBatches(s, step, r); } else { RejectionKeepsSeeks(s, step, r); }
    case WindDownStep => RejectionKeepsSeeks(s, step, r);
    case _ => OtherKeepsBatches(s, step, r);
  }

  lemma CoalescingIsSubmit(s: State, c: Command, wait: bool, memoryOk: bool)
    requires Held(s) && Coalesces(s, c, wait, memoryOk)
    ensures Submit(s, c, wait, memoryOk).0 == Coalesce(s, c)
  {}

  lemma OtherKeepsBatches(s: State, step: Step, r: Record)
    requires References(s) && Enabled(s, step)
    requires !step.SubmitStep? && !step.PopStep? && !step.FinishStep? && !step.WindDownStep?
    requires step != InitializeStep(false)
    ensures Batches(Apply(s, step), Follow(s, step, r)) == Batches(s, r)
  {
    hide References, Drop, RejectPending;
  }

  /** Every batch means its last command at this and every later point of the run. */
  ghost predicate MeansAlong(
    other: (MockPlayer, Command) -> MockPlayer, s: State, r: Record, steps: seq<Step>)
    decreases |steps|
  {
    && AllMean(other, Batches(s, r))
    && (steps != [] ==>
          && References(s) && Enabled(s, steps[0])
          && MeansAlong(other, Apply(s, steps[0]), Follow(s, steps[0], r), steps[1..]))
  }

  ghost predicate NoSeekLost(s: State, steps: seq<Step>)
    decreases |steps|
  {
    steps != [] ==>
      && References(s) && Enabled(s, steps[0])
      && !LosesSeek(s, steps[0]) && NoSeekLost(Apply(s, steps[0]), steps[1..])
  }

  lemma BatchesExactly(other: (MockPlayer, Command) -> MockPlayer, s: State, r: Record)
    requires Held(s) && Faithful(s, r)
    ensures AllMean(other, Batches(s, r)) <==> AllKeep(Batches(s, r))
    ensures AllKeep(Batches(s, r)) ==> AllAbsorb(MockExecute(other), Batches(s, r))
  {
    FaithfulAhead(s, r);
    var batches, cs := Batches(s, r), r.finished + Ahead(s);
    hide Commands, Flatten, Faithful, Means, KeepsSeek, LastAbsorbs, Batches;
    forall i | 0 <= i < |batches|
      ensures Stands(batches[i], cs[i])
      ensures Means(other, batches[i], cs[i]) <==> KeepsSeek(batches[i], cs[i])
      ensures KeepsSeek(batches[i], cs[i]) ==> LastAbsorbs(MockExecute(other), batches[i])
    {
      BatchExactly(other, batches[i], cs[i]);
      if KeepsSeek(batches[i], cs[i]) { KeptSeeksAbsorb(other, batches[i], cs[i]); }
    }
  }

  lemma {:induction false} MeansAlongExactly(
    other: (MockPlayer, Command) -> MockPlayer, s: State, r: Record, steps: seq<Step>, t: State, q: Record)
    requires Inv(s) && Faithful(s, r) && AllKeep(Batches(s, r)) && Recorded(s, r, steps, t, q)
    ensures MeansAlong(other, s, r, steps) <==> NoSeekLost(s, steps)
    ensures NoSeekLost(s, steps) ==> Inv(t) && Faithful(t, q) && AllKeep(Batches(t, q))
    decreases |steps|
  {
    hide Inv, Faithful, AllKeep, AllMean, Batches, LosesSeek, AllAbsorb;
    InvParts(s);
    BatchesExactly(other, s, r);
    if steps != [] {
      var u, v := Apply(s, steps[0]), Follow(s, steps[0], r);
      StepKeepsInv(s, steps[0]);
      StepFaithful(s, steps[0], r);
      StepKeepsSeeks(s, steps[0], r);
      InvParts(u);
      BatchesExactly(other, u, v);
      if !LosesSeek(s, steps[0]) {
        MeansAlongExactly(other, u, v, steps[1..], t, q);
      }
    }
  }

  /** In a run of the actor on the mock backend every batch of coalesced commands
      means its last command, at every point and for every player and validator,
      exactly when no asynchronous seek to a negative position ever took the place
      of a queued seek to a valid one. */
  lemma CoalescingFaithfulExactly(
    other: (MockPlayer, Command) -> MockPlayer, config: Config, steps: seq<Step>, t: State, r: Record)
    requires config.reserved < config.capacity && Recorded(Initial(config), EMPTY, steps, t, r)
    ensures MeansAlong(other, Initial(config), EMPTY, steps) <==> NoSeekLost(Initial(config), steps)
  {
    InitialInv(config);
    InitialFaithful(config);
    MeansAlongExactly(other, Initial(config), EMPTY, steps, t, r);
  }

  /** And then coalescing preserves the meaning of all accepted submissions. */
  lemma MeaningKeptWithoutLostSeeks(
    other: (MockPlayer, Command) -> MockPlayer, valid: (Producer, nat, nat) -> bool, m: MockPlayer,
    config: Config, steps: seq<Step>, t: State, r: Record)
    requires config.reserved < config.capacity && Recorded(Initial(config), EMPTY, steps, t, r)
    requires NoSeekLost(Initial(config), steps)
    ensures Held(t)
    ensures Drain(MockExecute(other), valid, m, r.finished + Ahead(t)) == Drain(MockExecute(other), valid, m, r.log)
  {
    hide Inv, Faithful, AllAbsorb, NoSeekLost, Recorded, Commands;
    InitialInv(config);
    InitialFaithful(config);
    assert AllKeep(Batches(Initial(config), EMPTY));
    MeansAlongExactly(other, Initial(config), EMPTY, steps, t, r);
    InvParts(t);
    BatchesExactly(other, t, r);
    BatchesPreserveMeaning(MockExecute(other), valid, m, t, r);
  }

  // ---------------------------------------------------------------- a lost seek

  /** Two asynchronous commands of one kind on an empty queue leave the second. */
  lemma SecondReplacesFirst(s: State, a: Command, c: Command)
    requires Inv(s) && s.life.accepting && s.queue == [] && s.current == None
    requires CommandValid(a) && Replaceable(a.kind) && CommandValid(c) && CanReplace(a, c)
    ensures var t := Submit(s, a, false, true).0;
      && Inv(t) && Submit(t, c, false, true).1 == Done(Accepted)
      && t.health.lastId == s.health.lastId + 1
      && var u := Submit(t, c, false, true).0;
         Inv(u) && u.current == None && Commands(u.heap.blocks, u.queue) == [Stamped(t, c)]
    ensures Submit(s, a, false, true).1 == Done(Accepted)
    ensures var r := Follow(s, SubmitStep(a, false, true), EMPTY);
      && r.log == [Stamped(s, a)] && r.finished == []
      && var q := Follow(Submit(s, a, false, true).0, SubmitStep(c, false, true), r);
         q.log == [Stamped(s, a), Stamped(Submit(s, a, false, true).0, c)] && q.finished == []
  {
    hide Flatten, Grown;
    SubmitKeepsInv(s, a, false, true);
    var t := Submit(s, a, false, true).0;
    assert t == Enqueue(s, a, false);
    assert Counted(s, s.heap.next);
    assert TailAbsorbs(t, c);
    SubmitKeepsInv(t, c, false, true);
    CoalesceCommands(t, c);
    assert Commands(t.heap.blocks, t.queue[..0]) == [];
  }

  /** Started, then given two such commands. */
  lemma TwoCommandRun(a: Command, c: Command) returns (steps: seq<Step>, t: State, r: Record)
    requires CommandValid(a) && Replaceable(a.kind) && CommandValid(c) && CanReplace(a, c)
    ensures Recorded(Initial(Config(2, 0, false, false)), EMPTY, steps, t, r)
    ensures Held(t) && r.finished == [] && t.current == None
    ensures r.log == [a.(id := 1), c.(id := 2)] && Commands(t.heap.blocks, t.queue) == [c.(id := 2)]
  {
    hide Inv, Submit, Follow, Commands;
    var s0 := Initial(Config(2, 0, false, false));
    var first, second := SubmitStep(a, false, true), SubmitStep(c, false, true);
    InitialInv(s0.config);
    InvParts(s0);
    StepKeepsInv(s0, StartStep);
    var s1 := Apply(s0, StartStep);
    InvParts(s1);
    SecondReplacesFirst(s1, a, c);
    var s2, r2 := Apply(s1, first), Follow(s1, first, EMPTY);
    InvParts(s2);
    t, r := Apply(s2, second), Follow(s2, second, r2);
    InvParts(t);
    assert Recorded(t, r, [], t, r);
    assert Recorded(s2, r2, [second], t, r);
    assert ([first] + [second])[1..] == [second];
    assert Recorded(s1, EMPTY, [first] + [second], t, r);
    steps := [StartStep] + ([first] + [second]);
    assert steps[1..] == [first] + [second];
    QuietFollow(s0);
  }

  /** Such a run: two asynchronous seeks, the second negative. The queue will
      leave the player where it was; the submissions would have moved it. */
  lemma NegativeSeekLosesItsPredecessor(other: (MockPlayer, Command) -> MockPlayer)
    returns (steps: seq<Step>, t: State, r: Record, m: MockPlayer)
    ensures Recorded(Initial(Config(2, 0, false, false)), EMPTY, steps, t, r) && Held(t)
    ensures Drain(MockExecute(other), Always(), m, r.finished + Ahead(t))
            != Drain(MockExecute(other), Always(), m, r.log)
  {
    hide Recorded, Commands, Drain, MockExecute, Held;
    var a := Command(0, SeekMs, Ui, 0, 0, "", "", 5000, false, 0, false, false);
    var c := a.(value := -1);
    steps, t, r := TwoCommandRun(a, c);
    m := MockPlayer(true, 0, 0, 50, false);
    assert r.finished + Ahead(t) == [c.(id := 2)];
    DrainTwo(other, m, a.(id := 1), c.(id := 2));
  }

  lemma QuietFollow(s: State)
    requires Held(s)
    ensures Follow(s, StartStep, EMPTY) == EMPTY
  {}

  lemma DrainTwo(other: (MockPlayer, Command) -> MockPlayer, m: MockPlayer, a: Command, c: Command)
    requires a.kind == c.kind == SeekMs && m.hasMedia && m.duration == 0
    requires a.value >= 0 > c.value && a.value != m.position
    ensures Drain(MockExecute(other), Always(), m, [c]) == m
    ensures Drain(MockExecute(other), Always(), m, [a, c]) == m.(position := a.value)
  {
    var moved := m.(position := a.value);
    assert MockExecute(other)(m, a) == moved && MockExecute(other)(moved, c) == moved;
    assert [a, c][1..] == [c] && [c][1..] == [];
    assert Drain(MockExecute(other), Always(), moved, [c]) == moved;
  }
}
