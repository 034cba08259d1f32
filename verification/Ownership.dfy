/** Who owns the player (source/player/core/ownership.c): one current lease,
    stamped with a 32-bit generation that skips zero when it wraps. */
module Ownership {
  const TWO_TO_32: nat := 0x1_0000_0000
  // Generations run through 1 .. 2^32 - 1 and start again.
  const CYCLE: nat := 0xFFFF_FFFF

  datatype Owner = NoOwner | Dlna | Iptv | AirPlayVideo | AirPlayMirror

  datatype Lease = Lease(owner: Owner, token: nat, generation: nat)

  const NO_LEASE := Lease(NoOwner, 0, 0)

  /** `log` is history: the leases issued so far, NO_LEASE for a generation that
      a reset used up. */
  datatype Registry = Registry(current: Lease, nextGeneration: nat, log: seq<Lease>)

  const EMPTY := Registry(NO_LEASE, 0, [])

  /** next_generation, in 32-bit arithmetic. */
  function NextGeneration(g: nat): nat {
    var next := (g + 1) % TWO_TO_32;
    if next == 0 then (next + 1) % TWO_TO_32 else next
  }

  function Claimed(r: Registry, owner: Owner, token: nat): Registry {
    if owner == NoOwner then r else
    var lease := Lease(owner, token, NextGeneration(r.nextGeneration));
    Registry(lease, lease.generation, r.log + [lease])
  }

  predicate Validates(r: Registry, lease: Lease) {
    lease.owner != NoOwner && lease.generation != 0 && lease == r.current
  }

  function Released(r: Registry, lease: Lease): Registry {
    if lease == r.current then r.(current := NO_LEASE) else r
  }

  function ReleasedCurrent(r: Registry, owner: Owner, token: nat): Registry {
    if r.current.owner == owner && r.current.token == token then r.(current := NO_LEASE) else r
  }

  function AfterReset(r: Registry): Registry {
    Registry(NO_LEASE, NextGeneration(r.nextGeneration), r.log + [NO_LEASE])
  }

  // ----------------------------------------------------------------------- runs

  datatype Step =
    | ClaimStep(owner: Owner, token: nat)
    | ReleaseStep(lease: Lease)
    | ReleaseCurrentStep(ownerHeld: Owner, tokenHeld: nat)
    | ResetStep

  function Apply(r: Registry, step: Step): Registry {
    match step
    case ClaimStep(owner, token) => Claimed(r, owner, token)
    case ReleaseStep(lease) => Released(r, lease)
    case ReleaseCurrentStep(owner, token) => ReleasedCurrent(r, owner, token)
    case ResetStep => AfterReset(r)
  }

  function Run(r: Registry, steps: seq<Step>): Registry
    decreases |steps|
  {
    if steps == [] then r else Run(Apply(r, steps[0]), steps[1..])
  }

  /** The generation of the n-th issue; 0 before the first. */
  function Generation(n: nat): nat {
    if n == 0 then 0 else (n - 1) % CYCLE + 1
  }

  lemma NextIsNext(n: nat)
    ensures NextGeneration(Generation(n)) == Generation(n + 1)
  {
    if n > 0 {
      assert n % CYCLE == if (n - 1) % CYCLE == CYCLE - 1 then 0 else (n - 1) % CYCLE + 1;
    }
  }

  ghost predicate Issued(log: seq<Lease>, i: nat)
    requires i < |log|
  {
    log[i] == NO_LEASE || (log[i].owner != NoOwner && log[i].generation == Generation(i + 1))
  }

  /** A lease in force is the latest one issued. */
  ghost predicate Inv(r: Registry) {
    && r.nextGeneration == Generation(|r.log|)
    && (forall i :: 0 <= i < |r.log| ==> Issued(r.log, i))
    && (r.current != NO_LEASE ==> r.log != [] && r.current == r.log[|r.log| - 1])
  }

  lemma StepKeepsInv(r: Registry, step: Step)
    requires Inv(r)
    ensures Inv(Apply(r, step)) && r.log <= Apply(r, step).log
  {
    var t := Apply(r, step);
    NextIsNext(|r.log|);
    forall i | 0 <= i < |t.log| ensures Issued(t.log, i) {
      if i < |r.log| { assert Issued(r.log, i); }
    }
  }

  lemma {:induction false} RunKeepsInv(r: Registry, steps: seq<Step>)
    requires Inv(r)
    ensures Inv(Run(r, steps)) && r.log <= Run(r, steps).log
    decreases |steps|
  {
    if steps != [] {
      StepKeepsInv(r, steps[0]);
      RunKeepsInv(Apply(r, steps[0]), steps[1..]);
    }
  }

  lemma SameGeneration(j: nat, k: nat)
    requires 0 < j <= k
    ensures Generation(j) == Generation(k) <==> (k - j) % CYCLE == 0
  {
    var a, b := j - 1, k - 1;
    assert b == (b / CYCLE) * CYCLE + b % CYCLE && a == (a / CYCLE) * CYCLE + a % CYCLE;
    if b % CYCLE == a % CYCLE {
      assert b - a == (b / CYCLE - a / CYCLE) * CYCLE;
    }
  }

  /** Exactly when a lease, once issued, validates: the lease in force was issued
      a whole number of 2^32 - 1 generations later, to the same owner and token. */
  lemma ValidatesExactly(steps: seq<Step>, j: nat)
    requires var r := Run(EMPTY, steps); j < |r.log| && r.log[j] != NO_LEASE
    ensures var r, last := Run(EMPTY, steps), |Run(EMPTY, steps).log| - 1;
      Validates(r, r.log[j]) <==>
        && r.current != NO_LEASE && (last - j) % CYCLE == 0
        && r.log[last].owner == r.log[j].owner && r.log[last].token == r.log[j].token
  {
    RunKeepsInv(EMPTY, steps);
    var r := Run(EMPTY, steps);
    var last := |r.log| - 1;
    assert Issued(r.log, j) && Issued(r.log, last);
    SameGeneration(j + 1, last + 1);
  }

  lemma {:induction false} RetiredStaysRetired(r: Registry, steps: seq<Step>, j: nat)
    requires Inv(r) && j < |r.log| && r.log[j] != NO_LEASE && r.current != r.log[j]
    requires |Run(r, steps).log| - 1 - j < CYCLE
    ensures Run(r, steps).current != r.log[j]
    decreases |steps|
  {
    if steps != [] {
      var t := Apply(r, steps[0]);
      StepKeepsInv(r, steps[0]);
      RunKeepsInv(t, steps[1..]);
      var last := |t.log| - 1;
      assert Issued(r.log, j) && Issued(t.log, last);
      if last > j { SameGeneration(j + 1, last + 1); }
      RetiredStaysRetired(t, steps[1..], j);
    }
  }

  /** A lease that was replaced, released or reset at some point of a run does
      not validate again while fewer than 2^32 - 1 generations have been issued
      since it was. */
  lemma NoRevivedLease(before: seq<Step>, after: seq<Step>, j: nat)
    requires var r := Run(EMPTY, before);
      j < |r.log| && r.log[j] != NO_LEASE && !Validates(r, r.log[j])
    requires |Run(Run(EMPTY, before), after).log| - 1 - j < CYCLE
    ensures !Validates(Run(Run(EMPTY, before), after), Run(EMPTY, before).log[j])
  {
    RunKeepsInv(EMPTY, before);
    var r := Run(EMPTY, before);
    assert Issued(r.log, j);
    RetiredStaysRetired(r, after, j);
  }

  /** A release ends the lease it names, by itself or by owner and token, and no
      other; a reset ends whatever is in force and uses up a generation. */
  lemma EndsExactly(r: Registry, lease: Lease, owner: Owner, token: nat)
    requires Inv(r) && lease != NO_LEASE
    ensures r.current == lease ==> Released(r, lease).current == NO_LEASE
    ensures r.current != lease ==> Released(r, lease) == r
    ensures owner != NoOwner && r.current.owner == owner && r.current.token == token ==>
      ReleasedCurrent(r, owner, token).current == NO_LEASE
    ensures r.current.owner != owner || r.current.token != token ==> ReleasedCurrent(r, owner, token) == r
    ensures AfterReset(r).current == NO_LEASE && AfterReset(r).log == r.log + [NO_LEASE]
    ensures !Validates(Released(r, lease), lease) && !Validates(AfterReset(r), lease)
    ensures Released(r, lease).log == ReleasedCurrent(r, owner, token).log == r.log
  {}

  // ------------------------------------------------------------------ the globals

  class PlayerOwnership {
    var current: Lease
    var nextGeneration: nat
    ghost var log: seq<Lease>

    ghost function Abs(): Registry
      reads this
    {
      Registry(current, nextGeneration, log)
    }

    ghost predicate Valid()
      reads this
    {
      Inv(Abs())
    }

    constructor ()
      ensures Valid() && Abs() == EMPTY
    {
      current, nextGeneration, log := NO_LEASE, 0, [];
    }

    method TakeGeneration() returns (generation: nat)
      modifies this`nextGeneration
      ensures generation == nextGeneration == NextGeneration(old(nextGeneration))
    {
      nextGeneration := (nextGeneration + 1) % TWO_TO_32;
      if nextGeneration == 0 {
        nextGeneration := (nextGeneration + 1) % TWO_TO_32;
      }
      generation := nextGeneration;
    }

    /** player_ownership_claim; the lease and its predecessor when it succeeds. */
    method Claim(owner: Owner, token: nat) returns (claimed: bool, lease: Lease, previous: Lease)
      requires Valid()
      modifies this
      ensures Valid() && Abs() == Claimed(old(Abs()), owner, token)
      ensures claimed <==> owner != NoOwner
      ensures claimed ==> lease == current && previous == old(current) && Validates(Abs(), lease)
    {
      StepKeepsInv(Abs(), ClaimStep(owner, token));
      NextIsNext(|log|);
      if owner == NoOwner {
        return false, NO_LEASE, NO_LEASE;
      }
      previous := current;
      var generation := TakeGeneration();
      current := Lease(owner, token, generation);
      log := log + [current];
      return true, current, previous;
    }

    method Validate(lease: Lease) returns (valid: bool)
      ensures valid == Validates(Abs(), lease)
    {
      if lease.owner == NoOwner || lease.generation == 0 {
        return false;
      }
      valid := lease == current;
    }

    method Release(lease: Lease) returns (released: bool)
      requires Valid()
      modifies this`current
      ensures Valid() && Abs() == Released(old(Abs()), lease)
      ensures released <==> lease == old(current)
    {
      StepKeepsInv(Abs(), ReleaseStep(lease));
      released := lease == current;
      if released {
        current := NO_LEASE;
      }
    }

    method ReleaseCurrent(owner: Owner, token: nat) returns (released: bool)
      requires Valid()
      modifies this`current
      ensures Valid() && Abs() == ReleasedCurrent(old(Abs()), owner, token)
      ensures released <==> old(current).owner == owner && old(current).token == token
    {
      StepKeepsInv(Abs(), ReleaseCurrentStep(owner, token));
      released := current.owner == owner && current.token == token;
      if released {
        current := NO_LEASE;
      }
    }

    method Reset()
      requires Valid()
      modifies this
      ensures Valid() && Abs() == AfterReset(old(Abs()))
    {
      StepKeepsInv(Abs(), ResetStep);
      current := NO_LEASE;
      var _ := TakeGeneration();
      log := log + [NO_LEASE];
    }
  }
}
