/** Fixed configuration of the application: the basket capacity, the object
    classes the detector reports, and the list of municipalities a capture
    can be filed under (src/lib/constants.ts). */
module Constants {
  import opened Wrappers

  /** Capacity of a full basket, in liters. */
  const BasketMaxLiters: int := 120

  /** Labels of the detector that the application counts. */
  const DetectClasses: seq<string> := ["bottle", "cup", "fork", "knife", "spoon"]

  predicate IsDetectClass(cls: string): (r: bool)
    ensures r <==> cls == "bottle" || cls == "cup" || cls == "fork" || cls == "knife" || cls == "spoon"
  {
    cls in DetectClasses
  }

  /** A municipality; its colour theme is presentation only and is not part
      of the model. */
  datatype Municipality = Municipality(id: string, name: string, region: string, description: Option<string>)

  const Municipalities: seq<Municipality> := [
    Municipality("demo-miami", "Miami", "South Florida", Some("Miami-Dade County coastal areas")),
    Municipality("demo-hallandale", "Hallandale Beach", "South Florida", Some("Broward County beachfront")),
    Municipality("demo-key-biscayne", "Key Biscayne", "South Florida", Some("Island municipality")),
    Municipality("demo-fort-lauderdale", "Fort Lauderdale", "South Florida", Some("Venice of America")),
    Municipality("demo-miami-beach", "Miami Beach", "South Florida", Some("Art Deco Historic District")),
    Municipality("demo-coral-gables", "Coral Gables", "South Florida", Some("The City Beautiful"))
  ]

  /** `Array.prototype.find` on the id: the first element carrying `id`. */
  function FindById(ms: seq<Municipality>, id: string): (r: Option<Municipality>)
    ensures r.None? <==> forall i :: 0 <= i < |ms| ==> ms[i].id != id
    ensures r.Some? ==> exists i :: 0 <= i < |ms| && ms[i] == r.value && r.value.id == id
                                   && forall j :: 0 <= j < i ==> ms[j].id != id
    decreases |ms|
  {
    if |ms| == 0 then None
    else if ms[0].id == id then Some(ms[0])
    else
      var r := FindById(ms[1..], id);
      assert forall i :: 0 < i < |ms| ==> ms[i] == ms[1..][i - 1];
      r
  }

  function GetMunicipality(id: string): (r: Option<Municipality>)
    ensures r.Some? ==> r.value.id == id && r.value in Municipalities
    ensures r.None? <==> forall m :: m in Municipalities ==> m.id != id
  {
    FindById(Municipalities, id)
  }

  function GetDefaultMunicipality(): (m: Municipality)
    ensures m == Municipalities[0] && m.id == "demo-miami"
  {
    Municipalities[0]
  }

  /** No two municipalities share an id, so lookup by id is unambiguous. */
  lemma MunicipalityIdsDistinct()
    ensures forall i, j :: 0 <= i < j < |Municipalities| ==> Municipalities[i].id != Municipalities[j].id
  {
    var ids := seq(|Municipalities|, k requires 0 <= k < |Municipalities| => Municipalities[k].id);
    assert ids[0][5] == 'm' && ids[1][5] == 'h' && ids[2][5] == 'k';
    assert ids[3][5] == 'f' && ids[4][5] == 'm' && ids[5][5] == 'c';
    assert |ids[0]| == 10 && |ids[4]| == 16;
  }

  /** Every listed municipality is found by its own id. */
  lemma GetMunicipalityFindsEach(i: int)
    requires 0 <= i < |Municipalities|
    ensures GetMunicipality(Municipalities[i].id) == Some(Municipalities[i])
  {
    MunicipalityIdsDistinct();
  }
}
