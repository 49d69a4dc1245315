/** The save action of the review screen (src/components/ReviewCard.tsx):
    turn the draft into an inspection, validate it, hand it to the
    persistence collaborator, and empty the draft slot only on success.
    `saveInspection` is an oracle outcome. */
module ReviewCard {
  import opened Wrappers
  import Store
  import Schemas

  /** The inspection built from a draft: every field copied, the image
      renamed to `imageAnonymizedDataUrl`. */
  function ToInspection(d: Store.Draft): Schemas.Inspection {
    Schemas.Inspection(d.id, d.createdAt, d.municipalityId, d.counts,
                       d.fillPercent, d.litersEst, d.imgDataUrl)
  }

  function ToDraft(i: Schemas.Inspection): Store.Draft {
    Store.Draft(i.id, i.createdAt, i.municipalityId, i.counts,
                i.fillPercent, i.litersEst, i.imageAnonymizedDataUrl)
  }

  /** The mapping loses nothing: it is undone by the reverse renaming. */
  lemma InspectionMappingRoundTrip(d: Store.Draft, i: Schemas.Inspection)
    ensures ToDraft(ToInspection(d)) == d
    ensures ToInspection(ToDraft(i)) == i
    ensures ToInspection(d).imageAnonymizedDataUrl == d.imgDataUrl
  {
  }

  /** What `onSave` leaves behind: the slot, the records passed to
      `saveInspection`, whether an alert was raised, whether it navigated
      to the admin list. */
  datatype SaveResult = SaveResult(
    slot: Option<Store.Draft>,
    saved: seq<Schemas.Inspection>,
    alerted: bool,
    navigated: bool)

  function OnSave(slot: Option<Store.Draft>, save: Outcome<string>): (r: SaveResult)
    ensures slot.None? ==> r == SaveResult(slot, [], false, false)
    ensures |r.saved| <= 1
    ensures r.saved != [] <==> slot.Some? && Schemas.Parse(ToInspection(slot.value)).Ok?
    ensures r.saved != [] ==> r.saved[0] == ToInspection(slot.value)
    ensures r.slot.None? <==> slot.None? || (r.saved != [] && save.Pass?)
    ensures r.slot.Some? ==> r.slot == slot
    ensures r.navigated <==> slot.Some? && r.slot.None?
    ensures r.alerted <==> slot.Some? && r.slot.Some?
  {
    match slot
    case None => SaveResult(slot, [], false, false)
    case Some(d) =>
      match Schemas.Parse(ToInspection(d))
      case Err(_) => SaveResult(slot, [], true, false)
      case Ok(inspection) =>
        match save
        case Pass => SaveResult(Store.Reset(slot), [inspection], false, true)
        case Fail(_) => SaveResult(slot, [inspection], true, false)
  }

  /** A draft whose image was never set (the default empty string) is never
      saved and stays in the slot. */
  lemma DraftWithoutImageNeverSaved(d: Store.Draft, save: Outcome<string>)
    requires d.imgDataUrl == ""
    ensures OnSave(Some(d), save).saved == []
    ensures OnSave(Some(d), save).slot == Some(d)
  {
    Schemas.EmptyImageRejected(ToInspection(d));
  }
}
