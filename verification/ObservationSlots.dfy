/** Capacity permits with one age record each (observation.rs). Every access happens under one mutex. */
module ObservationSlots {
  import opened Machine

  /**
   * The shared slot state. An age record is the identity of the permit it belongs to, and `issued` hands out
   * identities. `faulted` is set where the source would panic or fail an assertion.
   */
  datatype Slots = Slots(capacity: nat, inUse: nat, pending: seq<nat>, issued: nat, faulted: bool)

  function Start(capacity: nat): Slots { Slots(capacity, 0, [], 0, false) }

  predicate CanAcquire(slots: Slots) { slots.inUse < slots.capacity }

  /** The permit acquired next. */
  function NextPermit(slots: Slots): nat { slots.issued }

  function Acquire(slots: Slots): Slots {
    slots.(inUse := slots.inUse + 1, pending := slots.pending + [slots.issued], issued := slots.issued + 1)
  }

  /** `Vec::swap_remove`. */
  function SwapRemove<T>(s: seq<T>, i: nat): seq<T>
    requires i < |s|
  {
    s[i := s[|s| - 1]][..|s| - 1]
  }

  /** First position of `a`, or the length. */
  function Position(s: seq<nat>, a: nat): (i: nat)
    ensures i <= |s| && (i < |s| ==> s[i] == a) && a !in s[..i]
  {
    if s == [] then 0
    else if s[0] == a then 0
    else
      var i := Position(s[1..], a);
      assert s[..1 + i] == [s[0]] + s[1..][..i];
      1 + i
  }

  /** Dropping permit `a`: its record must exist, and the count must be positive. */
  function Release(slots: Slots, a: nat): Slots {
    var at := Position(slots.pending, a);
    if at == |slots.pending| || slots.inUse == 0 then slots.(faulted := true)
    else slots.(inUse := slots.inUse - 1, pending := SwapRemove(slots.pending, at))
  }

  /** The slots account for exactly the permits in `live`: one record each, counted, within capacity, no fault. */
  ghost predicate Accounts(slots: Slots, live: multiset<nat>) {
    && !slots.faulted
    && slots.inUse == |slots.pending| <= slots.capacity
    && multiset(slots.pending) == live
    && (forall a | a in live :: live[a] == 1 && a < slots.issued)
  }

  lemma SwapRemoveMultiset<T>(s: seq<T>, i: nat)
    requires i < |s|
    ensures multiset(SwapRemove(s, i)) == multiset(s) - multiset{s[i]}
  {
    var last := |s| - 1;
    assert s == s[..last] + [s[last]];
    if i < last {
      assert s[..last] == s[..i] + [s[i]] + s[i + 1..last];
      assert SwapRemove(s, i) == s[..i] + [s[last]] + s[i + 1..last];
    } else {
      assert SwapRemove(s, i) == s[..last];
    }
  }

  lemma AcquireAccounts(slots: Slots, live: multiset<nat>)
    requires Accounts(slots, live) && CanAcquire(slots)
    ensures NextPermit(slots) !in live
    ensures Accounts(Acquire(slots), live + multiset{NextPermit(slots)})
  {
  }

  /** A live permit always finds its record, so dropping it cannot panic. */
  lemma ReleaseAccounts(slots: Slots, live: multiset<nat>, a: nat)
    requires Accounts(slots, live) && a in live
    ensures Accounts(Release(slots, a), live - multiset{a})
    ensures Release(slots, a).capacity == slots.capacity && Release(slots, a).issued == slots.issued
  {
    assert a in slots.pending;
    var at := Position(slots.pending, a);
    SwapRemoveMultiset(slots.pending, at);
  }

  /** The slot state as the source keeps it: a counter and a vector updated in place. */
  class SlotTable {
    const capacity: nat
    var inUse: nat
    var pending: seq<nat>
    var issued: nat

    ghost function View(): Slots reads this { Slots(capacity, inUse, pending, issued, false) }

    ghost predicate Valid() reads this { Accounts(View(), multiset(pending)) }

    constructor (capacity: NonZero32)
      ensures Valid() && View() == Start(capacity)
    {
      this.capacity, inUse, pending, issued := capacity, 0, [], 0;
    }

    /** Succeeds exactly below capacity, with an identity no live permit has. */
    method TryAcquire() returns (permit: Option<nat>)
      requires Valid()
      modifies this
      ensures Valid()
      ensures permit.Some? <==> |old(pending)| < capacity
      ensures permit.Some? ==> permit.value !in old(pending) && View() == Acquire(old(View()))
      ensures permit.Some? ==> pending == old(pending) + [permit.value]
      ensures permit.None? ==> View() == old(View())
    {
      if inUse >= capacity { return None; }
      AcquireAccounts(View(), multiset(pending));
      permit := Some(issued);
      pending := pending + [issued];
      inUse, issued := inUse + 1, issued + 1;
    }

    /** Removes the record of one live permit and no other; the order of the rest may change. */
    method Drop(permit: nat)
      requires Valid() && permit in pending
      modifies this
      ensures Valid() && View() == Release(old(View()), permit)
      ensures multiset(pending) == old(multiset(pending)) - multiset{permit} && permit !in pending
    {
      ReleaseAccounts(View(), multiset(pending), permit);
      assert multiset(pending)[permit] == 1;
      var at := 0;
      while pending[at] != permit
        invariant at < |pending| && permit !in pending[..at]
        decreases |pending| - at
      {
        assert permit in pending[at + 1..];
        at := at + 1;
      }
      assert at == Position(pending, permit);
      pending := SwapRemove(pending, at);
      inUse := inUse - 1;
      assert multiset(pending)[permit] == 0;
    }
  }
}
