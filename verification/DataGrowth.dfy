/** Growing catalog arrays within a byte budget (source/iptv/data.h). */
module DataGrowth {
  const INT_MAX: nat := 0x7FFF_FFFF

  /** The most elements the budget allows. */
  function Maximum(elementSize: nat, byteLimit: nat): (m: nat)
    ensures elementSize > 0 ==> m * elementSize <= byteLimit
  {
    var fit := if elementSize > 0 then byteLimit / elementSize else 0;
    if fit > INT_MAX - 3 then
      ProductGrows(INT_MAX - 3, fit, elementSize);
      INT_MAX - 3
    else fit
  }

  /** No larger number of elements fits the budget and an int with room to spare. */
  lemma MaximumIsLargest(elementSize: nat, byteLimit: nat, k: nat)
    requires elementSize > 0
    ensures k <= Maximum(elementSize, byteLimit) <==> k * elementSize <= byteLimit && k <= INT_MAX - 3
    ensures Maximum(0, byteLimit) == 0
  {
    var fit := byteLimit / elementSize;
    assert fit * elementSize <= byteLimit < fit * elementSize + elementSize;
    if k <= fit { ProductGrows(k, fit, elementSize); } else { ProductGrows(fit + 1, k, elementSize); }
    assert (fit + 1) * elementSize == fit * elementSize + elementSize;
  }

  lemma ProductGrows(a: nat, b: nat, c: nat)
    requires a <= b
    ensures a * c <= b * c
  {}

  /** A list of elements that iptv_data_reserve makes room for. `moved` counts
      the elements copied by reallocations. */
  class DataList {
    const elementSize: nat
    const byteLimit: nat
    var items: array<int>
    var count: nat
    var failed: bool
    ghost var moved: nat

    ghost function Max(): nat {
      Maximum(elementSize, byteLimit)
    }

    /** Until the budget caps the capacity, the moves of all doublings together
        are fewer than the capacity; in any case fewer than twice the elements. */
    ghost predicate Valid()
      reads this, items
    {
      && count <= items.Length <= Max()
      && (if count == 0 then moved == 0 else moved < 2 * count)
      && (items.Length == 0 || items.Length == Max() || moved < items.Length)
    }

    ghost function Contents(): seq<int>
      requires count <= items.Length
      reads this, items
    {
      items[..count]
    }

    constructor (elementSize: nat, byteLimit: nat)
      ensures Valid() && count == 0 && !failed && items.Length == 0 && fresh(items)
      ensures this.elementSize == elementSize && this.byteLimit == byteLimit
    {
      this.elementSize, this.byteLimit := elementSize, byteLimit;
      items := new int[0];
      count, failed, moved := 0, false, 0;
    }

    /** The capacity after reserving: doubled until it covers the need, but never
        over the budget. */
    method NextCapacity(needed: nat, maximum: nat) returns (next: nat)
      requires items.Length < needed <= maximum
      ensures needed <= next <= maximum
      ensures items.Length > 0 && needed == items.Length + 1 ==>
        next == maximum || next == 2 * items.Length
      ensures items.Length > 0 ==> next == maximum || next < 2 * needed
      ensures items.Length == 0 ==> next == maximum || next < 2 * needed || next == 16
    {
      next := if items.Length > 0 then items.Length else if maximum < 16 then maximum else 16;
      ghost var first := next;
      while next < needed
        invariant 0 < next <= maximum
        invariant next == first || next == maximum || (next < 2 * needed && next >= 2 * first)
        invariant next == first || next == maximum || next == 2 * first || next / 2 >= 2 * first
        invariant needed == first + 1 ==> next == first || next == maximum || next == 2 * first
        decreases maximum - next
      {
        next := if next > maximum / 2 then maximum else next * 2;
      }
    }

    /** iptv_data_reserve. A failure leaves the old allocation as it was. */
    method Reserve(needed: nat, memoryOk: bool)
      requires count <= items.Length <= Max()
      modifies this`items, this`failed, this`moved
      ensures count <= items.Length <= Max() && Contents() == old(Contents())
      ensures failed <==> old(failed) || (needed > old(items.Length) && (needed > Max() || !memoryOk))
      ensures failed || needed <= old(items.Length) ==> items == old(items) && moved == old(moved)
      ensures !failed && needed > old(items.Length) ==>
        && fresh(items) && needed <= items.Length && moved == old(moved) + old(items.Length)
        && (items.Length == Max() || items.Length < 2 * needed || items.Length == 16)
        && (old(items.Length) > 0 && needed == old(items.Length) + 1 ==>
              items.Length == Max() || items.Length == 2 * old(items.Length))
      ensures elementSize > 0 ==> items.Length * elementSize <= byteLimit
    {
      ProductGrows(items.Length, Max(), elementSize);
      if failed || needed <= items.Length {
        return;
      }
      var maximum := Maximum(elementSize, byteLimit);
      if needed > maximum {
        failed := true;
        return;
      }
      var next := NextCapacity(needed, maximum);
      if !memoryOk {
        failed := true;
        return;
      }
      ghost var kept := Contents();
      var replacement := new int[next];
      forall i | 0 <= i < items.Length {
        replacement[i] := items[i];
      }
      moved := moved + items.Length;
      items := replacement;
      ProductGrows(next, maximum, elementSize);
      assert Contents() == kept;
    }

    /** How the catalog appends one element. */
    method Append(x: int, memoryOk: bool) returns (ok: bool)
      requires Valid()
      modifies this, items
      ensures Valid() && ok == !failed
      ensures Contents() == if ok then old(Contents()) + [x] else old(Contents())
      ensures ok <==> !old(failed) && (old(count) < old(items.Length) || (old(count) < Max() && memoryOk))
      ensures fresh(items) || items == old(items)
    {
      Reserve(count + 1, memoryOk);
      if failed {
        return false;
      }
      items[count] := x;
      count := count + 1;
      return true;
    }

    /** Any run of appends, failing or not, moves fewer than twice the elements
        it leaves in the list. */
    method AppendAll(xs: seq<int>, memoryOk: nat -> bool)
      requires Valid()
      modifies this, items
      ensures Valid() && (count > 0 ==> moved < 2 * count)
      ensures exists n :: 0 <= n <= |xs| && Contents() == old(Contents()) + xs[..n] && (n < |xs| ==> failed)
    {
      var i := 0;
      ghost var n := 0;
      while i < |xs|
        invariant i <= |xs| && n <= i && Valid() && (n < i ==> failed)
        invariant Contents() == old(Contents()) + xs[..n]
        invariant fresh(items) || items == old(items)
      {
        var ok := Append(xs[i], memoryOk(i));
        if ok {
          n := n + 1;
        }
        i := i + 1;
      }
    }
  }
}
