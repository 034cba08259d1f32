/** Coalescing preserves meaning: what the queue would do to the player is what
    the submissions it accepted would have done, one by one. */
module Coalescing {
  import opened Options
  import opened MediaActorModel
  import opened MediaActorInvariant
  import opened MediaActorRuns

  /** A record kept beside a run. `log` has every submission the queue accepted,
      less those rejected at shutdown; the batches say which of them each
      finished, running or queued command stands for. */
  datatype Record = Record(
    log: seq<Command>, finished: seq<Command>,
    ended: seq<seq<Command>>, running: seq<Command>, queued: seq<seq<Command>>)

  const EMPTY := Record([], [], [], [], [])

  function Flatten(batches: seq<seq<Command>>): seq<Command> {
    if batches == [] then [] else batches[0] + Flatten(batches[1..])
  }

  function Commands(blocks: map<Address, Request>, q: seq<Address>): (cs: seq<Command>)
    requires forall p :: p in q ==> p in blocks
  {
    if q == [] then [] else [blocks[q[0]].command] + Commands(blocks, q[1..])
  }

  /** The submission as the queue stores it. */
  function Stamped(s: State, c: Command): Command {
    c.(id := s.health.lastId + 1)
  }

  /** The last batch takes in one more command. */
  function Grown(queued: seq<seq<Command>>, c: Command): seq<seq<Command>> {
    if queued == [] then [] else
    var last := |queued| - 1;
    queued[..last] + [queued[last] + [c]]
  }

  function Follow(s: State, step: Step, r: Record): Record
    requires Held(s)
  {
    match step
    case SubmitStep(c, wait, memoryOk) =>
      if !CommandValid(c) || !memoryOk || !s.life.running || s.life.stopping || !s.life.accepting then r
      else if !wait && TailAbsorbs(s, c) then
        r.(log := r.log + [Stamped(s, c)], queued := Grown(r.queued, Stamped(s, c)))
      else if NoRoom(s, c.kind) then r
      else r.(log := r.log + [Stamped(s, c)], queued := r.queued + [[Stamped(s, c)]])
    case PopStep =>
      if s.queue == [] || r.queued == [] then r
      else r.(running := r.queued[0], queued := r.queued[1..])
    case FinishStep(_) =>
      if s.current == None then r
      else r.(finished := r.finished + [s.heap.blocks[s.current.value].command],
              ended := r.ended + [r.running], running := [])
    case InitializeStep(ok) =>
      if ok then r else r.(log := Flatten(r.ended) + r.running, queued := [])
    case WindDownStep => r.(log := Flatten(r.ended) + r.running, queued := [])
    case _ => r
  }

  /** A batch and the one command left of it. */
  ghost predicate Stands(batch: seq<Command>, c: Command) {
    && batch != [] && batch[|batch| - 1] == c
    && forall i :: 0 <= i < |batch| - 1 ==> Replaceable(batch[i].kind) && CanReplace(batch[i], c)
  }

  ghost predicate AllStand(batches: seq<seq<Command>>, cs: seq<Command>) {
    |batches| == |cs| && forall i :: 0 <= i < |cs| ==> Stands(batches[i], cs[i])
  }

  ghost predicate Faithful(s: State, r: Record)
    requires Held(s)
  {
    && AllStand(r.queued, Commands(s.heap.blocks, s.queue))
    && AllStand(r.ended, r.finished)
    && (if s.current.Some? then Stands(r.running, s.heap.blocks[s.current.value].command) else r.running == [])
    && r.log == Flatten(r.ended) + r.running + Flatten(r.queued)
  }

  // --------------------------------------------------------------- sequences

  lemma {:induction false} FlattenAppend(a: seq<seq<Command>>, b: seq<seq<Command>>)
    ensures Flatten(a + b) == Flatten(a) + Flatten(b)
  {
    if a == [] {
      assert a + b == b;
    } else {
      FlattenAppend(a[1..], b);
      assert (a + b)[0] == a[0] && (a + b)[1..] == a[1..] + b;
      assert a[0] + (Flatten(a[1..]) + Flatten(b)) == a[0] + Flatten(a[1..]) + Flatten(b);
    }
  }

  lemma FlattenOne(x: seq<Command>)
    ensures Flatten([x]) == x
  {
    assert [x][1..] == [];
  }

  lemma {:induction false} CommandsFrame(b: map<Address, Request>, c: map<Address, Request>, q: seq<Address>)
    requires forall p :: p in q ==> p in b && p in c && b[p].command == c[p].command
    ensures Commands(b, q) == Commands(c, q)
  {
    if q != [] { CommandsFrame(b, c, q[1..]); }
  }

  lemma {:induction false} CommandsSnoc(b: map<Address, Request>, q: seq<Address>, p: Address)
    requires forall x :: x in q + [p] ==> x in b
    ensures forall x :: x in q ==> x in b
    ensures Commands(b, q + [p]) == Commands(b, q) + [b[p].command]
  {
    assert forall x :: x in q ==> x in q + [p];
    if q != [] {
      assert (q + [p])[1..] == q[1..] + [p];
      CommandsSnoc(b, q[1..], p);
    } else {
      assert q + [p] == [p];
    }
  }

  lemma AllStandAppend(a: seq<seq<Command>>, xs: seq<Command>, b: seq<seq<Command>>, ys: seq<Command>)
    requires AllStand(a, xs) && AllStand(b, ys)
    ensures AllStand(a + b, xs + ys)
  {
    forall i | 0 <= i < |xs + ys| ensures Stands((a + b)[i], (xs + ys)[i]) {
      if i < |xs| { assert Stands(a[i], xs[i]); } else { assert Stands(b[i - |xs|], ys[i - |xs|]); }
    }
  }

  lemma GrownStands(queued: seq<seq<Command>>, cs: seq<Command>, was: Command, now: Command)
    requires AllStand(queued, cs + [was]) && Replaceable(was.kind) && CanReplace(was, now)
    ensures AllStand(Grown(queued, now), cs + [now])
    ensures Flatten(Grown(queued, now)) == Flatten(queued) + [now]
  {
    var k := |cs|;
    assert Stands(queued[k], (cs + [was])[k]);
    forall i | 0 <= i < k ensures Stands(queued[..k][i], cs[i]) {
      assert Stands(queued[i], (cs + [was])[i]);
    }
    assert Stands(queued[k] + [now], now);
    AllStandAppend(queued[..k], cs, [queued[k] + [now]], [now]);
    FlattenAppend(queued[..k], [queued[k]]);
    FlattenAppend(queued[..k], [queued[k] + [now]]);
    FlattenOne(queued[k]);
    FlattenOne(queued[k] + [now]);
    assert queued == queued[..k] + [queued[k]];
  }

  // ------------------------------------------------------------------ the steps

  lemma EnqueueCommands(s: State, c: Command, wait: bool)
    requires References(s)
    ensures Held(Enqueue(s, c, wait))
    ensures Commands(Enqueue(s, c, wait).heap.blocks, Enqueue(s, c, wait).queue)
            == Commands(s.heap.blocks, s.queue) + [Stamped(s, c)]
    ensures s.heap.next !in s.heap.blocks
  {
    var t := Enqueue(s, c, wait);
    assert Counted(s, s.heap.next);
    CommandsSnoc(t.heap.blocks, s.queue, s.heap.next);
    CommandsFrame(s.heap.blocks, t.heap.blocks, s.queue);
  }

  lemma EnqueueFaithful(s: State, c: Command, wait: bool, r: Record)
    requires References(s) && Faithful(s, r)
    ensures Held(Enqueue(s, c, wait))
    ensures Faithful(Enqueue(s, c, wait),
                     r.(log := r.log + [Stamped(s, c)], queued := r.queued + [[Stamped(s, c)]]))
  {
    hide Commands, Flatten;
    var d := Stamped(s, c);
    EnqueueCommands(s, c, wait);
    assert Stands([d], d);
    AllStandAppend(r.queued, Commands(s.heap.blocks, s.queue), [[d]], [d]);
    FlattenAppend(r.queued, [[d]]);
    FlattenOne([d]);
  }

  lemma CoalesceCommands(s: State, c: Command)
    requires References(s) && TailAbsorbs(s, c) && References(Coalesce(s, c))
    ensures var t, last := Coalesce(s, c), |s.queue| - 1;
      && (forall p :: p in s.queue[..last] ==> p in s.heap.blocks)
      && var cs := Commands(s.heap.blocks, s.queue[..last]);
         && Commands(s.heap.blocks, s.queue) == cs + [s.heap.blocks[s.queue[last]].command]
         && Commands(t.heap.blocks, t.queue) == cs + [Stamped(s, c)]
  {
    var t, last := Coalesce(s, c), |s.queue| - 1;
    var init := s.queue[..last];
    CoalesceReferences(s, c);
    assert Counted(s, s.heap.next) && Counted(s, s.queue[last]);
    CompleteChanges(Create(s.heap, Stamped(s, c), 1), s.queue[last], Accepted);
    assert s.queue == init + [s.queue[last]] && t.queue == init + [s.heap.next];
    CommandsSnoc(s.heap.blocks, init, s.queue[last]);
    CommandsSnoc(t.heap.blocks, init, s.heap.next);
    CommandsFrame(s.heap.blocks, t.heap.blocks, init);
  }

  lemma CoalesceFaithful(s: State, c: Command, r: Record)
    requires References(s) && Faithful(s, r) && TailAbsorbs(s, c) && References(Coalesce(s, c))
    ensures Faithful(Coalesce(s, c),
                     r.(log := r.log + [Stamped(s, c)], queued := Grown(r.queued, Stamped(s, c))))
  {
    hide Commands, Flatten, AllStand, Grown;
    var t, last := Coalesce(s, c), |s.queue| - 1;
    CoalesceReferences(s, c);
    CoalesceCommands(s, c);
    GrownStands(r.queued, Commands(s.heap.blocks, s.queue[..last]),
                s.heap.blocks[s.queue[last]].command, Stamped(s, c));
  }

  lemma InvParts(s: State)
    requires Inv(s)
    ensures References(s) && Held(s)
  {}

  /** Same queue and worker, same commands in both. */
  lemma FrameFaithful(s: State, t: State, r: Record)
    requires Held(s) && Held(t) && Faithful(s, r)
    requires t.queue == s.queue && t.current == s.current
    requires forall p :: p in s.heap.blocks && p in t.heap.blocks && InUse(s, p) ==>
               t.heap.blocks[p].command == s.heap.blocks[p].command
    ensures Faithful(t, r)
  {
    CommandsFrame(s.heap.blocks, t.heap.blocks, s.queue);
  }

  lemma SubmitFaithful(s: State, c: Command, wait: bool, memoryOk: bool, r: Record)
    requires Inv(s) && Faithful(s, r)
    ensures Held(Submit(s, c, wait, memoryOk).0)
    ensures Faithful(Submit(s, c, wait, memoryOk).0, Follow(s, SubmitStep(c, wait, memoryOk), r))
  {
    SubmitKeepsInv(s, c, wait, memoryOk);
    var t := Submit(s, c, wait, memoryOk).0;
    InvParts(t);
    if !CommandValid(c) || !memoryOk {
    } else if !s.life.running || s.life.stopping || !s.life.accepting {
      assert Counted(s, s.heap.next);
      FrameFaithful(s, t, r);
    } else if !wait && TailAbsorbs(s, c) {
      CoalesceFaithful(s, c, r);
    } else if NoRoom(s, c.kind) {
      assert Counted(s, s.heap.next);
      FrameFaithful(s, t, r);
    } else {
      EnqueueFaithful(s, c, wait, r);
    }
  }

  lemma PopFaithful(s: State, r: Record)
    requires Held(s) && s.current == None && Faithful(s, r)
    ensures Faithful(Pop(s), Follow(s, PopStep, r))
  {
    hide Stands;
    if s.queue != [] {
      var cs := Commands(s.heap.blocks, s.queue);
      assert cs[1..] == Commands(s.heap.blocks, s.queue[1..]);
      assert Stands(r.queued[0], cs[0]);
      assert Flatten(r.queued) == r.queued[0] + Flatten(r.queued[1..]);
    }
  }

  lemma FinishFaithful(s: State, ok: bool, r: Record)
    requires References(s) && s.current.Some? && Faithful(s, r) && Held(Finish(s, ok))
    ensures Faithful(Finish(s, ok), Follow(s, FinishStep(ok), r))
  {
    hide Commands, Flatten, AllStand;
    var t, p := Finish(s, ok), s.current.value;
    CompleteChanges(s.heap, p, OutcomeStatus(s.verdict == Fresh, ok));
    CommandsFrame(s.heap.blocks, t.heap.blocks, s.queue);
    AllStandOne(r.running, s.heap.blocks[p].command);
    AllStandAppend(r.ended, r.finished, [r.running], [s.heap.blocks[p].command]);
    FlattenAppend(r.ended, [r.running]);
    FlattenOne(r.running);
  }

  lemma AllStandOne(batch: seq<Command>, c: Command)
    requires Stands(batch, c)
    ensures AllStand([batch], [c])
  {}

  /** Shutdown: the worker holds nothing and the queue comes out empty. */
  lemma RejectionFaithful(s: State, step: Step, r: Record)
    requires Inv(s) && Enabled(s, step) && Faithful(s, r)
    requires step == InitializeStep(false) || step == WindDownStep
    ensures Held(Apply(s, step)) && Faithful(Apply(s, step), Follow(s, step, r))
  {
    var u := if step == WindDownStep then s.(life := s.life.(phase := Finishing))
             else s.(life := s.life.(phase := Exited, ready := false, initFailed := true,
                                     dispatchEnabled := false, running := false, accepting := false));
    OtherFieldsKeepCore(s, u);
    RejectPendingDrains(u);
  }

  lemma StepFaithful(s: State, step: Step, r: Record)
    requires Inv(s) && Enabled(s, step) && Faithful(s, r)
    ensures Held(Apply(s, step)) && Faithful(Apply(s, step), Follow(s, step, r))
  {
    hide Inv, Faithful, References;
    InvParts(s);
    StepKeepsInv(s, step);
    var t := Apply(s, step);
    InvParts(t);
    match step
    case SubmitStep(c, wait, memoryOk) => SubmitFaithful(s, c, wait, memoryOk, r);
    case PopStep => PopFaithful(s, r);
    case FinishStep(ok) => FinishFaithful(s, ok, r);
    case LeaveStep(p) => DropChanges(s.heap, p); FrameFaithful(s, t, r);
    case InitializeStep(ok) =>
      if ok { FrameFaithful(s, t, r); } else { RejectionFaithful(s, step, r); }
    case WindDownStep => RejectionFaithful(s, step, r);
    case _ => FrameFaithful(s, t, r);
  }

  // -------------------------------------------------------------------- meaning

  /** Runs the commands in order; the validator sees what
      player_validate_actor_command looks at, and does not change meanwhile. */
  function Drain<P>(exec: (P, Command) -> P, valid: (Producer, nat, nat) -> bool,
                    player: P, cs: seq<Command>): P
  {
    if cs == [] then player
    else
      var c := cs[0];
      Drain(exec, valid, if valid(c.producer, c.token, c.generation) then exec(player, c) else player, cs[1..])
  }

  /** Among these commands, a later seek, volume or mute command leaves no trace
      of an earlier one that it may replace. */
  ghost predicate Absorbing<P(!new)>(exec: (P, Command) -> P, cs: seq<Command>) {
    forall player: P, a: Command, b: Command ::
      a in cs && b in cs && Replaceable(a.kind) && CanReplace(a, b) ==>
        exec(exec(player, a), b) == exec(player, b)
  }

  lemma {:induction false} DrainAppend<P>(exec: (P, Command) -> P, valid: (Producer, nat, nat) -> bool,
                                          player: P, a: seq<Command>, b: seq<Command>)
    ensures Drain(exec, valid, player, a + b) == Drain(exec, valid, Drain(exec, valid, player, a), b)
  {
    if a == [] {
      assert a + b == b;
    } else {
      var c := a[0];
      var next := if valid(c.producer, c.token, c.generation) then exec(player, c) else player;
      assert (a + b)[1..] == a[1..] + b;
      DrainAppend(exec, valid, next, a[1..], b);
    }
  }

  ghost predicate Absorbs<P(!new)>(exec: (P, Command) -> P, a: Command, c: Command) {
    forall player: P {:trigger exec(exec(player, a), c)} :: exec(exec(player, a), c) == exec(player, c)
  }

  /** Within one batch the last command leaves no trace of those before it. */
  ghost predicate LastAbsorbs<P(!new)>(exec: (P, Command) -> P, batch: seq<Command>) {
    forall i :: 0 <= i < |batch| - 1 ==> Absorbs(exec, batch[i], batch[|batch| - 1])
  }

  ghost predicate AllAbsorb<P(!new)>(exec: (P, Command) -> P, batches: seq<seq<Command>>) {
    forall i :: 0 <= i < |batches| ==> LastAbsorbs(exec, batches[i])
  }

  lemma {:induction false} BatchMeansItsLast<P(!new)>(
    exec: (P, Command) -> P, valid: (Producer, nat, nat) -> bool, player: P, batch: seq<Command>, c: Command)
    requires LastAbsorbs(exec, batch) && Stands(batch, c)
    ensures Drain(exec, valid, player, batch) == Drain(exec, valid, player, [c])
  {
    var a := batch[0];
    var next := if valid(a.producer, a.token, a.generation) then exec(player, a) else player;
    if |batch| > 1 {
      var rest := batch[1..];
      assert forall i :: 0 <= i < |rest| ==> rest[i] == batch[i + 1];
      assert Stands(rest, c) && LastAbsorbs(exec, rest);
      BatchMeansItsLast(exec, valid, next, rest, c);
      assert [c][1..] == [];
      assert Absorbs(exec, a, c) && exec(exec(player, a), c) == exec(player, c);
    } else {
      assert batch == [c];
    }
  }

  lemma {:induction false} BatchesMeanTheirCommands<P(!new)>(
    exec: (P, Command) -> P, valid: (Producer, nat, nat) -> bool, player: P,
    batches: seq<seq<Command>>, cs: seq<Command>)
    requires AllAbsorb(exec, batches) && AllStand(batches, cs)
    ensures Drain(exec, valid, player, Flatten(batches)) == Drain(exec, valid, player, cs)
  {
    if cs != [] {
      assert Stands(batches[0], cs[0]);
      BatchMeansItsLast(exec, valid, player, batches[0], cs[0]);
      var next := Drain(exec, valid, player, batches[0]);
      DrainAppend(exec, valid, player, batches[0], Flatten(batches[1..]));
      DrainAppend(exec, valid, player, [cs[0]], cs[1..]);
      assert [cs[0]] + cs[1..] == cs;
      hide Stands, LastAbsorbs;
      BatchesMeanTheirCommands(exec, valid, next, batches[1..], cs[1..]);
    }
  }

  lemma {:induction false} InFlatten(batches: seq<seq<Command>>, i: nat, c: Command)
    requires i < |batches| && c in batches[i]
    ensures c in Flatten(batches)
  {
    if i > 0 { InFlatten(batches[1..], i - 1, c); }
  }

  /** If the whole history absorbs, so does every batch of it. */
  lemma AbsorbingBatches<P(!new)>(exec: (P, Command) -> P, batches: seq<seq<Command>>, cs: seq<Command>)
    requires Absorbing(exec, Flatten(batches)) && AllStand(batches, cs)
    ensures AllAbsorb(exec, batches)
  {
    forall i | 0 <= i < |batches| ensures LastAbsorbs(exec, batches[i]) {
      var batch := batches[i];
      assert Stands(batch, cs[i]);
      forall k | 0 <= k < |batch| - 1 ensures Absorbs(exec, batch[k], batch[|batch| - 1]) {
        InFlatten(batches, i, batch[k]);
        InFlatten(batches, i, batch[|batch| - 1]);
      }
    }
  }

  // ----------------------------------------------------------------------- runs

  ghost predicate Recorded(s: State, r: Record, steps: seq<Step>, t: State, q: Record)
    decreases |steps|
  {
    if steps == [] then s == t && r == q
    else
      && References(s) && Enabled(s, steps[0])
      && Recorded(Apply(s, steps[0]), Follow(s, steps[0], r), steps[1..], t, q)
  }

  lemma {:induction false} RunFaithful(s: State, r: Record, steps: seq<Step>, t: State, q: Record)
    requires Inv(s) && Faithful(s, r) && Recorded(s, r, steps, t, q)
    ensures Inv(t) && Faithful(t, q)
    decreases |steps|
  {
    if steps != [] {
      StepKeepsInv(s, steps[0]);
      StepFaithful(s, steps[0], r);
      RunFaithful(Apply(s, steps[0]), Follow(s, steps[0], r), steps[1..], t, q);
    }
  }

  /** The record's log grows by exactly the submissions that were accepted. */
  lemma LogIsAcceptances(s: State, c: Command, wait: bool, memoryOk: bool, r: Record)
    requires Held(s)
    ensures var outcome := Submit(s, c, wait, memoryOk).1;
      Follow(s, SubmitStep(c, wait, memoryOk), r).log
      == if outcome == Done(Accepted) || outcome.Pending? then r.log + [Stamped(s, c)] else r.log
  {}

  /** What the worker still has to do, the command in its hands first. */
  function Ahead(s: State): seq<Command>
    requires Held(s)
  {
    (if s.current.Some? then [s.heap.blocks[s.current.value].command] else [])
    + Commands(s.heap.blocks, s.queue)
  }

  /** The accepted submissions, by the command that each batch has come to. */
  function Batches(s: State, r: Record): seq<seq<Command>> {
    r.ended + (if s.current.Some? then [r.running] else []) + r.queued
  }

  /** The commands finished so far followed by those ahead take the player where
      the accepted submissions, uncoalesced and in order, would have, if only the
      last command of each batch absorbs those coalesced into it. */
  lemma BatchesPreserveMeaning<P(!new)>(
    exec: (P, Command) -> P, valid: (Producer, nat, nat) -> bool, player: P, t: State, r: Record)
    requires Held(t) && Faithful(t, r) && AllAbsorb(exec, Batches(t, r))
    ensures Drain(exec, valid, player, r.finished + Ahead(t)) == Drain(exec, valid, player, r.log)
  {
    hide AllAbsorb;
    FaithfulAhead(t, r);
    BatchesMeanTheirCommands(exec, valid, player, Batches(t, r), r.finished + Ahead(t));
  }

  /** At every point of every run, for every player in which a later seek, volume
      or mute command absorbs an earlier one and every validator. */
  lemma CoalescingPreservesMeaning<P(!new)>(
    exec: (P, Command) -> P, valid: (Producer, nat, nat) -> bool, player: P,
    config: Config, steps: seq<Step>, t: State, r: Record)
    requires config.reserved < config.capacity
    requires Recorded(Initial(config), EMPTY, steps, t, r) && Absorbing(exec, r.log)
    ensures Held(t)
    ensures Drain(exec, valid, player, r.finished + Ahead(t)) == Drain(exec, valid, player, r.log)
  {
    hide Inv, Commands, AllStand, Absorbing, AllAbsorb, Faithful;
    InitialInv(config);
    InitialFaithful(config);
    RunFaithful(Initial(config), EMPTY, steps, t, r);
    InvParts(t);
    FaithfulAhead(t, r);
    AbsorbingBatches(exec, Batches(t, r), r.finished + Ahead(t));
    BatchesPreserveMeaning(exec, valid, player, t, r);
  }

  lemma InitialFaithful(config: Config)
    ensures Faithful(Initial(config), EMPTY)
  {}

  lemma FaithfulAhead(s: State, r: Record)
    requires Held(s) && Faithful(s, r)
    ensures AllStand(Batches(s, r), r.finished + Ahead(s)) && r.log == Flatten(Batches(s, r))
  {
    hide Commands, AllStand, Flatten;
    var held := if s.current.Some? then [r.running] else [];
    var hand := if s.current.Some? then [s.heap.blocks[s.current.value].command] else [];
    assert AllStand(held, hand) by {
      if s.current.Some? { AllStandOne(r.running, hand[0]); } else { AllStandNone(); }
    }
    AllStandAppend(r.ended, r.finished, held, hand);
    AllStandAppend(r.ended + held, r.finished + hand, r.queued, Commands(s.heap.blocks, s.queue));
    assert r.finished + Ahead(s) == r.finished + hand + Commands(s.heap.blocks, s.queue);
    FlattenAppend(r.ended, held);
    FlattenAppend(r.ended + held, r.queued);
    assert Flatten(held) == r.running by {
      if s.current.Some? { FlattenOne(r.running); } else { FlattenNone(); }
    }
  }

  lemma AllStandNone()
    ensures AllStand([], [])
  {}

  lemma FlattenNone()
    ensures Flatten([]) == []
  {}
}
