/**
  The life-cycle-assessment calculator shared by the four LCA pages: a material and
  an energy source are picked from two factor tables, each of the four impacts is
  material factor * material amount + energy factor * energy amount, and each impact
  is banded into a score from 1 to 10. The results table lists the four metrics in a
  fixed order; metric names are sanitised for the PDF report by writing the subscript
  digits as plain digits.
*/
module Lca {

  /** One row of a factor table: impact per kg of material or per kWh of energy. */
  datatype Factors = Factors(co2: real, water: real, energy: real, acidification: real)

  const MaterialImpacts: map<string, Factors> := map[
    "Ammonia" := Factors(2.38, 1.8, 38.0, 0.022),
    "Ethylene" := Factors(1.75, 1.2, 78.0, 0.015),
    "PVC" := Factors(2.8, 1.7, 62.0, 0.028)]

  const EnergyImpacts: map<string, Factors> := map[
    "Coal" := Factors(1.02, 0.004, 3.6, 0.0012),
    "Natural Gas" := Factors(0.49, 0.002, 3.6, 0.0003),
    "Solar" := Factors(0.05, 0.001, 3.6, 0.0001)]

  /** The choices the two pickers offer, in table order. */
  const MaterialNames: seq<string> := ["Ammonia", "Ethylene", "PVC"]
  const EnergyNames: seq<string> := ["Coal", "Natural Gas", "Solar"]

  /** The four metric names of the results table, in order. */
  const Metrics: seq<string> := ["CO₂ Emissions", "Water Use", "Energy Demand", "Acidification"]

  datatype Impacts = Impacts(co2: real, water: real, energy: real, acid: real)

  datatype Scores = Scores(co2: int, water: int, energy: int, acid: int)

  /** A result value with its unit, before it is formatted to a fixed number of decimals. */
  datatype Measure = Measure(amount: real, unit: string)

  /** One row of the results table. */
  datatype ResultRow = ResultRow(metric: string, value: Measure, score: int)

  predicate NonNegative(f: Factors) {
    f.co2 >= 0.0 && f.water >= 0.0 && f.energy >= 0.0 && f.acidification >= 0.0
  }

  /** Both pickers offer exactly the keys of their tables, so every lookup succeeds, and every factor is non-negative. */
  lemma {:induction false} TablesWellFormed()
    ensures forall m :: m in MaterialNames <==> m in MaterialImpacts
    ensures forall e :: e in EnergyNames <==> e in EnergyImpacts
    ensures forall m :: m in MaterialImpacts ==> NonNegative(MaterialImpacts[m])
    ensures forall e :: e in EnergyImpacts ==> NonNegative(EnergyImpacts[e])
  {
    assert MaterialImpacts.Keys == {"Ammonia", "Ethylene", "PVC"};
    assert EnergyImpacts.Keys == {"Coal", "Natural Gas", "Solar"};
  }

  // ---------------------------------------------------------------- impacts

  /** The share of one impact due to one input: factor * amount. */
  function Contribution(factor: real, amount: real): real {
    factor * amount
  }

  /** A non-negative factor gives a contribution that does not decrease with the amount, and is 0 for amount 0. */
  lemma {:induction false} ContributionMonotone(factor: real, a: real, b: real)
    requires factor >= 0.0 && 0.0 <= a <= b
    ensures 0.0 <= Contribution(factor, a) <= Contribution(factor, b)
    ensures a == 0.0 ==> Contribution(factor, a) == 0.0
  {
    assert factor * (b - a) >= 0.0;
    assert factor * a >= 0.0;
  }

  /** The four impacts of materialAmount kg of `material` made with energyAmount kWh of `energyType`. */
  function CalculateImpact(material: string, materialAmount: real, energyType: string, energyAmount: real): Impacts
    requires material in MaterialImpacts && energyType in EnergyImpacts
  {
    var m, e := MaterialImpacts[material], EnergyImpacts[energyType];
    Impacts(
      Contribution(m.co2, materialAmount) + Contribution(e.co2, energyAmount),
      Contribution(m.water, materialAmount) + Contribution(e.water, energyAmount),
      Contribution(m.energy, materialAmount) + Contribution(e.energy, energyAmount),
      Contribution(m.acidification, materialAmount) + Contribution(e.acidification, energyAmount))
  }

  predicate ImpactsLe(a: Impacts, b: Impacts) {
    a.co2 <= b.co2 && a.water <= b.water && a.energy <= b.energy && a.acid <= b.acid
  }

  /** With non-negative amounts every impact is non-negative, and no impact decreases when either amount grows. */
  lemma {:induction false} ImpactsMonotone(material: string, energyType: string, ma: real, ma': real, ea: real, ea': real)
    requires material in MaterialImpacts && energyType in EnergyImpacts
    requires 0.0 <= ma <= ma' && 0.0 <= ea <= ea'
    ensures ImpactsLe(Impacts(0.0, 0.0, 0.0, 0.0), CalculateImpact(material, ma, energyType, ea))
    ensures ImpactsLe(CalculateImpact(material, ma, energyType, ea), CalculateImpact(material, ma', energyType, ea'))
  {
    TablesWellFormed();
    var m, e := MaterialImpacts[material], EnergyImpacts[energyType];
    ContributionMonotone(m.co2, ma, ma');
    ContributionMonotone(m.water, ma, ma');
    ContributionMonotone(m.energy, ma, ma');
    ContributionMonotone(m.acidification, ma, ma');
    ContributionMonotone(e.co2, ea, ea');
    ContributionMonotone(e.water, ea, ea');
    ContributionMonotone(e.energy, ea, ea');
    ContributionMonotone(e.acidification, ea, ea');
  }

  /** Zero amounts give zero impacts, whatever the material and energy source. */
  lemma {:induction false} ZeroAmountsZeroImpacts(material: string, energyType: string)
    requires material in MaterialImpacts && energyType in EnergyImpacts
    ensures CalculateImpact(material, 0.0, energyType, 0.0) == Impacts(0.0, 0.0, 0.0, 0.0)
  {
    TablesWellFormed();
    var m, e := MaterialImpacts[material], EnergyImpacts[energyType];
    ContributionMonotone(m.co2, 0.0, 0.0);
    ContributionMonotone(m.water, 0.0, 0.0);
    ContributionMonotone(m.energy, 0.0, 0.0);
    ContributionMonotone(m.acidification, 0.0, 0.0);
    ContributionMonotone(e.co2, 0.0, 0.0);
    ContributionMonotone(e.water, 0.0, 0.0);
    ContributionMonotone(e.energy, 0.0, 0.0);
    ContributionMonotone(e.acidification, 0.0, 0.0);
  }

  // ---------------------------------------------------------------- scores

  /** Python's int() of a float: truncation toward zero. */
  function Trunc(x: real): (t: int)
    ensures x >= 0.0 ==> t as real <= x < t as real + 1.0
    ensures x < 0.0 ==> t as real - 1.0 < x <= t as real
  {
    if x >= 0.0 then x.Floor else -((-x).Floor)
  }

  /** min(int(x) + 1, 10). */
  function Band(x: real): int {
    var t := Trunc(x) + 1;
    if t < 10 then t else 10
  }

  /**
    Band never exceeds 10 and is at least 1 exactly when x > -1; for x >= 0 a score
    k below 10 means k - 1 <= x < k, and 10 means x >= 9.
  */
  lemma {:induction false} BandRange(x: real)
    ensures Band(x) <= 10
    ensures Band(x) >= 1 <==> x > -1.0
    ensures x >= 0.0 ==>
      (Band(x) == 10 <==> x >= 9.0) &&
      (Band(x) < 10 ==> (Band(x) - 1) as real <= x < Band(x) as real)
  {
    var t := Trunc(x);
    if x >= 0.0 {
      assert t >= 0;
    } else if x > -1.0 {
      assert t == 0 by {
        assert t as real - 1.0 < x <= t as real;
        assert -1.0 < t as real < 1.0;
      }
    } else {
      assert t <= -1;
    }
  }

  /** Band does not decrease as x grows. */
  lemma {:induction false} BandMonotone(x: real, y: real)
    requires x <= y
    ensures Band(x) <= Band(y)
  {
    var tx, ty := Trunc(x), Trunc(y);
    if 0.0 <= x {
      assert tx as real <= x <= y < ty as real + 1.0;
    } else if y < 0.0 {
      assert tx as real - 1.0 < x <= y <= ty as real;
    } else {
      assert tx <= 0 <= ty;
    }
  }

  /** The four scores: CO2 and water per 2 units, energy per 50, acidification per 0.01. */
  function ScoreImpacts(i: Impacts): Scores {
    Scores(Band(i.co2 / 2.0), Band(i.water / 2.0), Band(i.energy / 50.0), Band(i.acid * 100.0))
  }

  predicate ScoresInRange(s: Scores) {
    1 <= s.co2 <= 10 && 1 <= s.water <= 10 && 1 <= s.energy <= 10 && 1 <= s.acid <= 10
  }

  predicate ScoresLe(a: Scores, b: Scores) {
    a.co2 <= b.co2 && a.water <= b.water && a.energy <= b.energy && a.acid <= b.acid
  }

  /** With non-negative amounts every score lies in 1..10, and no score decreases when either amount grows. */
  lemma {:induction false} ScoresMonotone(material: string, energyType: string, ma: real, ma': real, ea: real, ea': real)
    requires material in MaterialImpacts && energyType in EnergyImpacts
    requires 0.0 <= ma <= ma' && 0.0 <= ea <= ea'
    ensures ScoresInRange(ScoreImpacts(CalculateImpact(material, ma, energyType, ea)))
    ensures ScoresLe(ScoreImpacts(CalculateImpact(material, ma, energyType, ea)),
                     ScoreImpacts(CalculateImpact(material, ma', energyType, ea')))
  {
    var a := CalculateImpact(material, ma, energyType, ea);
    var b := CalculateImpact(material, ma', energyType, ea');
    ImpactsMonotone(material, energyType, ma, ma', ea, ea');
    BandRange(a.co2 / 2.0);
    BandRange(a.water / 2.0);
    BandRange(a.energy / 50.0);
    BandRange(a.acid * 100.0);
    BandMonotone(a.co2 / 2.0, b.co2 / 2.0);
    BandMonotone(a.water / 2.0, b.water / 2.0);
    BandMonotone(a.energy / 50.0, b.energy / 50.0);
    BandMonotone(a.acid * 100.0, b.acid * 100.0);
  }

  /** Zero amounts give every score 1. */
  lemma {:induction false} ZeroAmountsLowestScores(material: string, energyType: string)
    requires material in MaterialImpacts && energyType in EnergyImpacts
    ensures ScoreImpacts(CalculateImpact(material, 0.0, energyType, 0.0)) == Scores(1, 1, 1, 1)
  {
    ZeroAmountsZeroImpacts(material, energyType);
  }

  // ---------------------------------------------------------------- results table

  /** The results table: the four metrics in fixed order, each with its value and unit and its score. */
  function ResultTable(i: Impacts): seq<ResultRow> {
    var s := ScoreImpacts(i);
    [ResultRow(Metrics[0], Measure(i.co2, "kg"), s.co2),
     ResultRow(Metrics[1], Measure(i.water, "m³"), s.water),
     ResultRow(Metrics[2], Measure(i.energy, "MJ"), s.energy),
     ResultRow(Metrics[3], Measure(i.acid, "kg SO₂-eq"), s.acid)]
  }

  /**
    The table always has the four metrics in order, each row carrying its own impact,
    and for non-negative amounts every score in 1..10.
  */
  lemma {:induction false} ResultTableShape(material: string, energyType: string, ma: real, ea: real)
    requires material in MaterialImpacts && energyType in EnergyImpacts
    requires 0.0 <= ma && 0.0 <= ea
    ensures var i := CalculateImpact(material, ma, energyType, ea);
      var t := ResultTable(i);
      |t| == |Metrics| == 4 &&
      (forall k :: 0 <= k < 4 ==> t[k].metric == Metrics[k] && 1 <= t[k].score <= 10) &&
      [t[0].value.amount, t[1].value.amount, t[2].value.amount, t[3].value.amount] == [i.co2, i.water, i.energy, i.acid]
  {
    ScoresMonotone(material, energyType, ma, ma, ea, ea);
  }

  // ---------------------------------------------------------------- metric names

  /** Python's s.replace(from, to) for one-character strings. */
  function Replace(s: string, from: char, to: char): (r: string)
    ensures |r| == |s|
    ensures forall i :: 0 <= i < |s| ==> r[i] == if s[i] == from then to else s[i]
  {
    if |s| == 0 then "" else [if s[0] == from then to else s[0]] + Replace(s[1..], from, to)
  }

  /** The metric name as written to the PDF: subscript two and three as plain digits. */
  function Sanitize(metric: string): string {
    Replace(Replace(metric, '₂', '2'), '₃', '3')
  }

  /**
    Sanitising keeps the length, changes only the two subscript digits, each into its
    plain digit, and leaves no subscript behind; a second pass changes nothing.
  */
  lemma {:induction false} SanitizeSpec(metric: string)
    ensures var r := Sanitize(metric);
      |r| == |metric| &&
      (forall i :: 0 <= i < |metric| ==>
        r[i] == (if metric[i] == '₂' then '2' else if metric[i] == '₃' then '3' else metric[i])) &&
      (forall i :: 0 <= i < |r| ==> r[i] != '₂' && r[i] != '₃') &&
      Sanitize(r) == r
  {
    var r := Sanitize(metric);
    assert Sanitize(r) == r by {
      var q := Sanitize(r);
      assert |q| == |r|;
      forall i | 0 <= i < |r|
        ensures q[i] == r[i]
      {
        assert r[i] != '₂' && r[i] != '₃';
      }
    }
  }

  /** A name without subscript digits is left as it is. */
  lemma {:induction false} SanitizePlain(metric: string)
    requires forall i :: 0 <= i < |metric| ==> metric[i] != '₂' && metric[i] != '₃'
    ensures Sanitize(metric) == metric
  {
    SanitizeSpec(metric);
  }
}
