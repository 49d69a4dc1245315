/** The single-slot draft store `useDraft` (src/lib/store.ts): it holds at
    most one unsaved inspection, `set` shallow-merges a partial record into
    it, and `reset` empties it. The fresh `uuid()` and `new Date()` values
    that `set` evaluates on every call are parameters. */
module Store {
  import opened Wrappers
  import Math
  import Constants

  datatype Draft = Draft(
    id: string,
    createdAt: string,
    municipalityId: string,
    counts: Math.Tally,
    fillPercent: int,
    litersEst: int,
    imgDataUrl: string)

  /** `Partial<DraftInspection>`: a field is either named (`Some`) or absent. */
  datatype Patch = Patch(
    id: Option<string>,
    createdAt: Option<string>,
    municipalityId: Option<string>,
    counts: Option<Math.Tally>,
    fillPercent: Option<int>,
    litersEst: Option<int>,
    imgDataUrl: Option<string>)

  const NoFields := Patch(None, None, None, None, None, None, None)

  /** The record `set` starts from when the slot is empty. */
  function Defaults(freshId: string, now: string): (d: Draft)
    ensures d.id == freshId && d.createdAt == now
    ensures d.municipalityId == Constants.GetDefaultMunicipality().id
    ensures d.counts == Math.Tally(0, 0, 0) && d.fillPercent == 0 && d.litersEst == 0 && d.imgDataUrl == ""
  {
    Draft(freshId, now, Constants.GetDefaultMunicipality().id, Math.NoCounts, 0, 0, "")
  }

  /** Object spread `{...base, ...p}`: named fields win, the others are kept. */
  function Merge(base: Draft, p: Patch): Draft {
    Draft(
      p.id.GetOr(base.id),
      p.createdAt.GetOr(base.createdAt),
      p.municipalityId.GetOr(base.municipalityId),
      p.counts.GetOr(base.counts),
      p.fillPercent.GetOr(base.fillPercent),
      p.litersEst.GetOr(base.litersEst),
      p.imgDataUrl.GetOr(base.imgDataUrl))
  }

  /** Every field named in `p` has its value in `d`; every other field has
      the value it had in `base`. */
  ghost predicate Overrides(d: Draft, base: Draft, p: Patch) {
    && d.id == (if p.id.Some? then p.id.value else base.id)
    && d.createdAt == (if p.createdAt.Some? then p.createdAt.value else base.createdAt)
    && d.municipalityId == (if p.municipalityId.Some? then p.municipalityId.value else base.municipalityId)
    && d.counts == (if p.counts.Some? then p.counts.value else base.counts)
    && d.fillPercent == (if p.fillPercent.Some? then p.fillPercent.value else base.fillPercent)
    && d.litersEst == (if p.litersEst.Some? then p.litersEst.value else base.litersEst)
    && d.imgDataUrl == (if p.imgDataUrl.Some? then p.imgDataUrl.value else base.imgDataUrl)
  }

  /** `set(p)`: defaults, then the current draft, then the patch. */
  function Set(slot: Option<Draft>, p: Patch, freshId: string, now: string): (r: Option<Draft>)
    ensures r.Some?
    ensures slot.None? ==> Overrides(r.value, Defaults(freshId, now), p)
    ensures slot.Some? ==> Overrides(r.value, slot.value, p)
    ensures slot.Some? && p.id.None? && p.createdAt.None?
            ==> r.value.id == slot.value.id && r.value.createdAt == slot.value.createdAt
  {
    Some(Merge(slot.GetOr(Defaults(freshId, now)), p))
  }

  /** `reset()` empties the slot whatever it held. */
  function Reset(slot: Option<Draft>): (r: Option<Draft>)
    ensures r.None?
  {
    None
  }

  /** Applying the same patch twice is the same as applying it once, whatever
      fresh values the second call draws. */
  lemma SetIdempotent(slot: Option<Draft>, p: Patch, id1: string, now1: string, id2: string, now2: string)
    ensures Set(Set(slot, p, id1, now1), p, id2, now2) == Set(slot, p, id1, now1)
  {
  }

  /** Field-level last write wins: `q` named fields override `p`'s. */
  function Combine(p: Patch, q: Patch): Patch {
    Patch(
      if q.id.Some? then q.id else p.id,
      if q.createdAt.Some? then q.createdAt else p.createdAt,
      if q.municipalityId.Some? then q.municipalityId else p.municipalityId,
      if q.counts.Some? then q.counts else p.counts,
      if q.fillPercent.Some? then q.fillPercent else p.fillPercent,
      if q.litersEst.Some? then q.litersEst else p.litersEst,
      if q.imgDataUrl.Some? then q.imgDataUrl else p.imgDataUrl)
  }

  /** Two successive `set` calls act as one `set` of the combined patch; the
      second call's fresh id and timestamp are never used. */
  lemma SetSetIsCombinedSet(slot: Option<Draft>, p: Patch, q: Patch,
                            id1: string, now1: string, id2: string, now2: string)
    ensures Set(Set(slot, p, id1, now1), q, id2, now2) == Set(slot, Combine(p, q), id1, now1)
  {
  }

  /** The scenario of a fill-only patch followed by a counts-only patch: the
      first starts from zero counts, and the second keeps the fill level. */
  lemma FillThenCountsExample(id1: string, now1: string, id2: string, now2: string)
    ensures var s1 := Set(None, NoFields.(fillPercent := Some(40)), id1, now1);
            && s1.value.counts == Math.Tally(0, 0, 0) && s1.value.fillPercent == 40
            && Set(s1, NoFields.(counts := Some(Math.Tally(1, 0, 0))), id2, now2).value.fillPercent == 40
  {
  }
}
