/** The fill-level slider of the review screen
    (src/components/FillGauge.tsx). It works with a hard-coded capacity of
    120 liters. */
module FillGauge {
  import opened Wrappers
  import Math
  import Store
  import CounterPills

  const GaugeLiters: int := 120

  /** The liters figure agrees with the fill level, as the slider sets it. */
  predicate LitersConsistent(d: Store.Draft) {
    d.litersEst == Math.LitersFromFill(d.fillPercent, GaugeLiters)
  }

  /** The slider's `onChange`, given the integer `parseInt` read from it. */
  function OnSliderChange(slot: Option<Store.Draft>, value: int,
                          freshId: string, now: string): (r: Option<Store.Draft>)
    ensures slot.None? ==> r == slot
    ensures slot.Some? ==> r.Some? && r.value.fillPercent == value && LitersConsistent(r.value)
    ensures slot.Some? ==> r.value == slot.value.(fillPercent := value, litersEst := r.value.litersEst)
    ensures slot.Some? && 0 <= value <= 100 ==> 0 <= r.value.litersEst <= GaugeLiters
  {
    match slot
    case None => None
    case Some(_) =>
      Store.Set(slot, Store.NoFields.(fillPercent := Some(value),
                                       litersEst := Some(Math.LitersFromFill(value, GaugeLiters))),
                freshId, now)
  }

  /** The "Estimated: …L / 120L" figure; none when there is no draft. */
  function DisplayedLiters(slot: Option<Store.Draft>): (r: Option<int>)
    ensures slot.None? <==> r.None?
    ensures r.Some? ==> 0 <= r.value <= GaugeLiters
    ensures r.Some? ==> r.value == Math.LitersFromFill(slot.value.fillPercent, GaugeLiters)
    ensures r.Some? && LitersConsistent(slot.value) ==> r.value == slot.value.litersEst
  {
    match slot
    case None => None
    case Some(d) => Some(Math.LitersFromFill(d.fillPercent, GaugeLiters))
  }

  /** After the slider moved, the displayed figure is the stored estimate. */
  lemma SliderThenDisplayAgree(slot: Option<Store.Draft>, value: int, freshId: string, now: string)
    requires slot.Some?
    ensures DisplayedLiters(OnSliderChange(slot, value, freshId, now))
            == Some(OnSliderChange(slot, value, freshId, now).value.litersEst)
  {
  }

  /** Adjusting a count keeps the fill level and liters figure consistent. */
  lemma CountUpdatePreservesConsistency(slot: Option<Store.Draft>, b: CounterPills.Bucket, delta: int,
                                        freshId: string, now: string)
    requires slot.Some? && LitersConsistent(slot.value)
    ensures LitersConsistent(CounterPills.UpdateCount(slot, b, delta, freshId, now).value)
  {
  }
}
