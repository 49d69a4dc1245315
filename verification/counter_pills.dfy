/** The plus/minus buttons of the review screen
    (src/components/CounterPills.tsx). Each button patches the counts of the
    current draft through the store's `set`. */
module CounterPills {
  import opened Wrappers
  import Math
  import Store

  datatype Bucket = Bottles | Cups | Utensils

  function Count(t: Math.Tally, b: Bucket): int {
    match b
    case Bottles => t.bottle
    case Cups => t.cup
    case Utensils => t.utensils
  }

  /** `{...counts, [type]: v}` */
  function WithCount(t: Math.Tally, b: Bucket, v: int): (r: Math.Tally)
    ensures Count(r, b) == v
    ensures forall o :: o != b ==> Count(r, o) == Count(t, o)
  {
    match b
    case Bottles => t.(bottle := v)
    case Cups => t.(cup := v)
    case Utensils => t.(utensils := v)
  }

  function Max(a: int, b: int): int {
    if a < b then b else a
  }

  /** `updateCount(type, delta)`. Without a draft the component renders
      nothing, so there is nothing to press and the slot is unchanged. */
  function UpdateCount(slot: Option<Store.Draft>, b: Bucket, delta: int,
                       freshId: string, now: string): (r: Option<Store.Draft>)
    ensures slot.None? ==> r == slot
    ensures slot.Some? ==> r.Some?
    ensures slot.Some? ==> Count(r.value.counts, b) == Max(0, Count(slot.value.counts, b) + delta)
    ensures slot.Some? ==> forall o :: o != b ==> Count(r.value.counts, o) == Count(slot.value.counts, o)
    ensures slot.Some? ==> r.value == slot.value.(counts := r.value.counts)
  {
    match slot
    case None => None
    case Some(d) =>
      var newCount := Max(0, Count(d.counts, b) + delta);
      Store.Set(slot, Store.NoFields.(counts := Some(WithCount(d.counts, b, newCount))), freshId, now)
  }

  predicate CountsNonNegative(t: Math.Tally) {
    t.bottle >= 0 && t.cup >= 0 && t.utensils >= 0
  }

  /** Buttons never drive a count below zero. */
  lemma UpdateKeepsCountsNonNegative(slot: Option<Store.Draft>, b: Bucket, delta: int, freshId: string, now: string)
    requires slot.Some? && CountsNonNegative(slot.value.counts)
    ensures CountsNonNegative(UpdateCount(slot, b, delta, freshId, now).value.counts)
  {
    var r := UpdateCount(slot, b, delta, freshId, now);
    assert Count(r.value.counts, Bottles) >= 0;
    assert Count(r.value.counts, Cups) >= 0;
    assert Count(r.value.counts, Utensils) >= 0;
  }

  /** Plus then minus restores the draft exactly, when the count was not
      negative to begin with. */
  lemma PlusThenMinusRestores(slot: Option<Store.Draft>, b: Bucket,
                              id1: string, now1: string, id2: string, now2: string)
    requires slot.Some? && Count(slot.value.counts, b) >= 0
    ensures UpdateCount(UpdateCount(slot, b, 1, id1, now1), b, -1, id2, now2) == slot
  {
    var r := UpdateCount(UpdateCount(slot, b, 1, id1, now1), b, -1, id2, now2);
    var t, u := slot.value.counts, r.value.counts;
    assert Count(u, b) == Count(t, b);
    assert forall o :: Count(u, o) == Count(t, o);
    assert u.bottle == t.bottle by { assert Count(u, Bottles) == Count(t, Bottles); }
    assert u.cup == t.cup by { assert Count(u, Cups) == Count(t, Cups); }
    assert u.utensils == t.utensils by { assert Count(u, Utensils) == Count(t, Utensils); }
  }
}
