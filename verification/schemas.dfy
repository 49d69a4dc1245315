/** `InspectionSchema` (src/lib/schemas.ts) as a validator: the record shape
    of a finalized inspection and the constraints `parse` enforces. */
module Schemas {
  import opened Wrappers
  import Strings
  import Math

  datatype Inspection = Inspection(
    id: string,
    createdAt: string,
    municipalityId: string,
    counts: Math.Tally,
    fillPercent: int,
    litersEst: int,
    imageAnonymizedDataUrl: string)

  const DataImagePrefix: string := "data:image/"

  /** The constraints the schema checks; zod reports every failed one. */
  datatype Issue = FillBelowMin | FillAboveMax | LitersBelowMin | ImageNotDataUrl

  function Issues(i: Inspection): (r: seq<Issue>)
    ensures FillBelowMin in r <==> i.fillPercent < 0
    ensures FillAboveMax in r <==> i.fillPercent > 100
    ensures LitersBelowMin in r <==> i.litersEst < 0
    ensures ImageNotDataUrl in r <==> !Strings.StartsWith(i.imageAnonymizedDataUrl, DataImagePrefix)
  {
    (if i.fillPercent < 0 then [FillBelowMin] else [])
    + (if i.fillPercent > 100 then [FillAboveMax] else [])
    + (if i.litersEst < 0 then [LitersBelowMin] else [])
    + (if Strings.StartsWith(i.imageAnonymizedDataUrl, DataImagePrefix) then [] else [ImageNotDataUrl])
  }

  /** `InspectionSchema.parse`: the record itself when every constraint
      holds, otherwise the list of violated constraints. The counts carry
      no range constraint. */
  function Parse(i: Inspection): (r: Result<Inspection, seq<Issue>>)
    ensures r.Ok? <==> (0 <= i.fillPercent <= 100 && i.litersEst >= 0
                       && Strings.StartsWith(i.imageAnonymizedDataUrl, DataImagePrefix))
    ensures r.Ok? ==> r.value == i
    ensures r.Err? ==> |r.error| > 0
  {
    var issues := Issues(i);
    if |issues| == 0 then Ok(i) else
      assert issues[0] in issues;
      Err(issues)
  }

  /** Negative counts pass the schema. */
  lemma NegativeCountsAccepted(i: Inspection)
    requires 0 <= i.fillPercent <= 100 && i.litersEst >= 0
    requires Strings.StartsWith(i.imageAnonymizedDataUrl, DataImagePrefix)
    ensures Parse(i.(counts := Math.Tally(-1, -5, -100))).Ok?
  {
  }

  /** An image that is not a data URL, the empty string included, fails. */
  lemma EmptyImageRejected(i: Inspection)
    requires i.imageAnonymizedDataUrl == ""
    ensures Parse(i).Err? && ImageNotDataUrl in Parse(i).error
  {
  }
}
