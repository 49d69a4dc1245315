/** Fill-level scaling and per-class counting (src/lib/math.ts). */
module Math {
  import Constants

  function Clamp(fillPercent: int): (c: int)
    ensures 0 <= c <= 100
    ensures 0 <= fillPercent <= 100 ==> c == fillPercent
  {
    if fillPercent < 0 then 0 else if fillPercent > 100 then 100 else fillPercent
  }

  /** The liters estimate `Math.round(clamp(fillPercent) / 100 * maxLiters)`,
      with the product taken as an exact rational: `floor(x + 1/2)` of
      `x = c*M/100` is `floor((2*c*M + 100) / 200)`. The source rounds a
      binary floating-point product instead, which can differ at an exact
      half; at capacities 100 and 120 there is none. */
  function LitersFromFill(fillPercent: int, maxLiters: int): (r: int)
    // r is the integer nearest to Clamp(fillPercent) * maxLiters / 100, halves rounded up
    ensures 200 * r <= 2 * Clamp(fillPercent) * maxLiters + 100 < 200 * r + 200
    ensures fillPercent <= 0 ==> r == 0
    ensures fillPercent >= 100 ==> r == maxLiters
    ensures maxLiters >= 0 ==> 0 <= r <= maxLiters
  {
    var c := Clamp(fillPercent);
    RoundedShareBounds(c, c * maxLiters, maxLiters);
    (2 * (c * maxLiters) + 100) / 200
  }

  /** The bounds of the rounded share `p = c * m` of a capacity `m`. */
  lemma RoundedShareBounds(c: int, p: int, m: int)
    requires 0 <= c <= 100 && p == c * m
    ensures c == 0 ==> (2 * p + 100) / 200 == 0
    ensures c == 100 ==> (2 * p + 100) / 200 == m
    ensures m >= 0 ==> 0 <= (2 * p + 100) / 200 <= m
  {
    if m >= 0 {
      MulMonotone(0, c, m);
      MulMonotone(c, 100, m);
    }
  }

  lemma MulMonotone(a: int, b: int, m: int)
    requires a <= b && m >= 0
    ensures a * m <= b * m
  {
    assert b * m - a * m == (b - a) * m;
  }

  lemma HalvedPercentMonotone(x: int, y: int)
    requires x <= y
    ensures x / 200 <= y / 200
  {
  }

  /** More fill never means fewer liters, for a non-negative capacity. */
  lemma LitersMonotone(p1: int, p2: int, maxLiters: int)
    requires p1 <= p2 && maxLiters >= 0
    ensures LitersFromFill(p1, maxLiters) <= LitersFromFill(p2, maxLiters)
  {
    var c1, c2 := Clamp(p1), Clamp(p2);
    MulMonotone(c1, c2, maxLiters);
    HalvedPercentMonotone(2 * (c1 * maxLiters) + 100, 2 * (c2 * maxLiters) + 100);
  }

  /** At the capacities the app uses, 100 and 120 liters, the exact
      product `clamp(fill) × capacity / 100` is never an exact half, so
      floating-point rounding and exact rounding agree there. */
  lemma {:induction false} NoHalfAtUsedCapacities(fillPercent: int)
    ensures (Clamp(fillPercent) * 100) % 100 != 50
    ensures (Clamp(fillPercent) * 120) % 100 != 50
  {
    var c := Clamp(fillPercent);
    assert c * 100 == 100 * c;
    assert c * 120 == 100 * c + 20 * (c % 5) + 100 * (c / 5);
  }

  /** The values pinned by the unit tests (tests/unit/math.test.ts). */
  lemma LitersFromFillExamples()
    ensures LitersFromFill(-10, 100) == 0
    ensures LitersFromFill(50, 100) == 50
    ensures LitersFromFill(150, 100) == 100
  {
  }

  /** The three buckets a detection label can fall into. */
  datatype Tally = Tally(bottle: int, cup: int, utensils: int)

  const NoCounts := Tally(0, 0, 0)

  predicate IsUtensil(cls: string) {
    cls in ["fork", "knife", "spoon"]
  }

  /** One iteration of the counting loop: at most one bucket grows by one. */
  function CountLabel(t: Tally, cls: string): Tally {
    if cls == "bottle" then t.(bottle := t.bottle + 1)
    else if cls == "cup" then t.(cup := t.cup + 1)
    else if IsUtensil(cls) then t.(utensils := t.utensils + 1)
    else t
  }

  /** `tallyByClass`: the counting loop over the labels, in order. */
  function TallyByClass(labels: seq<string>): (t: Tally)
    ensures 0 <= t.bottle && 0 <= t.cup && 0 <= t.utensils
    ensures t.bottle + t.cup + t.utensils <= |labels|
    decreases |labels|
  {
    if |labels| == 0 then NoCounts
    else CountLabel(TallyByClass(labels[..|labels| - 1]), labels[|labels| - 1])
  }

  /** `t` holds, bucket by bucket, the occurrences of its labels in `m`. */
  predicate CountsOf(t: Tally, m: multiset<string>) {
    && t.bottle == m["bottle"]
    && t.cup == m["cup"]
    && t.utensils == m["fork"] + m["knife"] + m["spoon"]
  }

  /** Each bucket counts exactly the occurrences of its labels; every other
      label is ignored. */
  lemma {:induction false} TallyCountsOccurrences(labels: seq<string>)
    ensures CountsOf(TallyByClass(labels), multiset(labels))
    decreases |labels|
  {
    if |labels| > 0 {
      var init := labels[..|labels| - 1];
      var last := labels[|labels| - 1];
      TallyCountsOccurrences(init);
      SnocMultiset(labels);
      CountLabelStep(TallyByClass(init), multiset(init), last);
    }
  }

  lemma SnocMultiset<T>(xs: seq<T>)
    requires |xs| > 0
    ensures multiset(xs) == multiset(xs[..|xs| - 1]) + multiset{xs[|xs| - 1]}
  {
    assert xs == xs[..|xs| - 1] + [xs[|xs| - 1]];
  }

  /** Counting one more label keeps the tally equal to the occurrences. */
  lemma CountLabelStep(t: Tally, m: multiset<string>, cls: string)
    requires CountsOf(t, m)
    ensures CountsOf(CountLabel(t, cls), m + multiset{cls})
  {
    assert "bottle" != "cup" && "bottle" != "fork" && "bottle" != "knife" && "bottle" != "spoon";
    assert "cup" != "fork" && "cup" != "knife" && "cup" != "spoon";
  }

  /** The tally does not depend on the order of the detections. */
  lemma TallyPermutationInvariant(a: seq<string>, b: seq<string>)
    requires multiset(a) == multiset(b)
    ensures TallyByClass(a) == TallyByClass(b)
  {
    TallyCountsOccurrences(a);
    TallyCountsOccurrences(b);
  }

  function AddTallies(s: Tally, t: Tally): Tally {
    Tally(s.bottle + t.bottle, s.cup + t.cup, s.utensils + t.utensils)
  }

  /** The tally a multiset of labels determines. */
  function TallyOf(m: multiset<string>): Tally {
    Tally(m["bottle"], m["cup"], m["fork"] + m["knife"] + m["spoon"])
  }

  lemma TallyOfUnion(ma: multiset<string>, mb: multiset<string>)
    ensures TallyOf(ma + mb) == AddTallies(TallyOf(ma), TallyOf(mb))
  {
  }

  /** Counting two batches one after the other adds their tallies. */
  lemma {:induction false} TallyAppend(a: seq<string>, b: seq<string>)
    ensures TallyByClass(a + b) == AddTallies(TallyByClass(a), TallyByClass(b))
  {
    TallyCountsOccurrences(a);
    TallyCountsOccurrences(b);
    TallyCountsOccurrences(a + b);
    assert TallyByClass(a) == TallyOf(multiset(a));
    assert TallyByClass(b) == TallyOf(multiset(b));
    assert TallyByClass(a + b) == TallyOf(multiset(a + b));
    assert multiset(a + b) == multiset(a) + multiset(b);
    TallyOfUnion(multiset(a), multiset(b));
  }

  /** Number of labels that belong to the recognized classes. */
  function CountRecognized(labels: seq<string>): nat
    decreases |labels|
  {
    if |labels| == 0 then 0
    else CountRecognized(labels[..|labels| - 1])
         + (if Constants.IsDetectClass(labels[|labels| - 1]) then 1 else 0)
  }

  /** The three buckets together hold exactly the recognized labels. */
  lemma {:induction false} TallyTotalIsRecognized(labels: seq<string>)
    ensures var t := TallyByClass(labels); t.bottle + t.cup + t.utensils == CountRecognized(labels)
    ensures CountRecognized(labels) <= |labels|
    decreases |labels|
  {
    if |labels| > 0 {
      TallyTotalIsRecognized(labels[..|labels| - 1]);
    }
  }

  /** The example pinned by tests/unit/math.test.ts. */
  lemma TallyExample()
    ensures TallyByClass(["fork", "spoon", "bottle"]) == Tally(1, 0, 2)
  {
    var s := ["fork", "spoon", "bottle"];
    assert s[..2] == ["fork", "spoon"];
    assert s[..2][..1] == ["fork"];
    assert ["fork"][..0] == [];
  }
}
