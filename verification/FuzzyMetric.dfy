/**
  The fuzzy link metric of the controller (controller-server/digraph/mamdani-fuzzy-model-metric.c) over the
  reals: fuzzification, rules, mean of maxima.
 */
module FuzzyMetric {
  import opened NeighborReports

  const MAX_ETX_METRIC := 100
  const THRESHOLD_BATTERY_ROUTE := 5

  type Input = x: real | x >= 0.0 witness 0.0
  type Scale = f: real | 0.0 <= f <= 2.0 witness 0.0
  type Three = s: seq<real> | |s| == 3 witness [0.0, 0.0, 0.0]
  type Five = s: seq<real> | |s| == 5 witness [0.0, 0.0, 0.0, 0.0, 0.0]
  type Shape = k: nat | k < 5
  type ShapeOrEnd = k: nat | k <= 5

  function Min(a: real, b: real): real {
    if a < b then a else b
  }

  function Max(a: real, b: real): real {
    if a > b then a else b
  }

  // ---------------------------------------------------------------- the model

  /** Small, average and long for the transmission metric; low, average and high for energy: the same three shapes. */
  function Fuzzy(x: real): Three {
    [if 0.0 <= x <= 20.0 then 1.0 else if 20.0 < x <= 40.0 then (40.0 - x) / 20.0 else 0.0,
     if 20.0 <= x <= 40.0 then (x - 20.0) / 20.0
     else if 40.0 < x <= 60.0 then 1.0
     else if 60.0 < x <= 80.0 then (80.0 - x) / 20.0
     else 0.0,
     if 60.0 <= x <= 80.0 then (x - 60.0) / 20.0 else if x > 80.0 then 1.0 else 0.0]
  }

  /** eval_rules: the strengths of very bad, bad, average, good and very good. */
  function Rules(t: Three, e: Three): Five {
    [Max(Min(t[2], e[0]), 0.0),
     Max(Min(t[1], e[0]), Min(t[2], e[1])),
     Max(Max(Min(t[0], e[0]), Min(t[1], e[1])), Min(t[2], e[2])),
     Max(Min(t[0], e[1]), Min(t[1], e[2])),
     Max(Min(t[0], e[2]), 0.0)]
  }

  function Peak(m: seq<real>): (p: real)
    ensures p >= 0.0 && forall i :: 0 <= i < |m| ==> m[i] <= p
    ensures p == 0.0 || exists i :: 0 <= i < |m| && m[i] == p
  {
    if m == [] then 0.0
    else
      var p := Peak(m[..|m| - 1]);
      if m[|m| - 1] > p then m[|m| - 1] else p
  }

  /** The centre of the part of each output shape that reaches up to strength `r`. */
  function Centre(k: Shape, r: real): real {
    match k
    case 0 => (r * 25.0 + 75.0 + 100.0) / 2.0
    case 1 => (r * 25.0 + 50.0 + (100.0 - r * 25.0)) / 2.0
    case 2 => (r * 25.0 + 25.0 + (75.0 - r * 25.0)) / 2.0
    case 3 => (r * 25.0 + (50.0 - r * 25.0)) / 2.0
    case 4 => (25.0 - r * 25.0) / 2.0
  }

  /** Sum and number of the centres of the strongest shapes. */
  function Maxima(m: Five, p: real, k: ShapeOrEnd): (r: (real, nat))
    ensures r.1 > 0 <==> exists i :: 0 <= i < k && m[i] == p
  {
    if k == 0 then (0.0, 0)
    else
      var (sum, n) := Maxima(m, p, k - 1);
      if m[k - 1] == p then (sum + Centre(k - 1, m[k - 1]), n + 1) else (sum, n)
  }

  ghost predicate NonNegative(m: seq<real>) {
    forall i :: 0 <= i < |m| ==> m[i] >= 0.0
  }

  /** get_mean_of_maximum; there is always something to divide by. */
  function Mean(m: Five): real
    requires NonNegative(m)
  {
    var (sum, n) := Maxima(m, Peak(m), 5);
    assert n > 0 by {
      assert Peak(m) == 0.0 ==> m[0] == Peak(m);
    }
    sum / n as real
  }

  /** The scaled transmission metric. */
  function Scaled(etx: nat): real {
    if etx >= MAX_ETX_METRIC then MAX_WEIGHT as real
    else etx as real / MAX_ETX_METRIC as real * MAX_WEIGHT as real
  }

  function ScaledEnergy(energy: nat): real {
    energy as real / MAX_BATTERY_LEVEL as real * MAX_WEIGHT as real
  }

  lemma RulesNonNegative(t: Three, e: Three)
    requires NonNegative(t) && NonNegative(e)
    ensures NonNegative(Rules(t, e))
  {
  }

  function Strengths(x: real, y: real): (m: Five)
    ensures NonNegative(m)
  {
    RulesNonNegative(Fuzzy(x), Fuzzy(y));
    Rules(Fuzzy(x), Fuzzy(y))
  }

  /** get_weight for an energy of one byte: the threshold is computed in integers. */
  function Weight(energy: nat, etx: nat): int {
    if energy < MAX_BATTERY_LEVEL * THRESHOLD_BATTERY_ROUTE / 100 then MAX_WEIGHT
    else
      var w := Mean(Strengths(Scaled(etx), ScaledEnergy(energy)));
      (if w < 1.0 then 1.0 else w).Floor
  }

  // ---------------------------------------------------------------- the closed form

  /** Position of an input on the scale of the three memberships. */
  function Position(x: Input): Scale {
    if x <= 20.0 then 0.0
    else if x <= 40.0 then (x - 20.0) / 20.0
    else if x <= 60.0 then 1.0
    else if x <= 80.0 then (x - 40.0) / 20.0
    else 2.0
  }

  /** How much level `i` is taken by position `f`. */
  function Member(f: real, i: nat): real {
    var d := if f < i as real then i as real - f else f - i as real;
    if d < 1.0 then 1.0 - d else 0.0
  }

  /** Each input is split between at most two neighbouring memberships that sum to one. */
  lemma MembershipsSumToOne(x: Input)
    ensures Fuzzy(x)[0] + Fuzzy(x)[1] + Fuzzy(x)[2] == 1.0 && NonNegative(Fuzzy(x))
    ensures forall i :: 0 <= i < 3 ==> Fuzzy(x)[i] == Member(Position(x), i)
    ensures Fuzzy(x)[0] == 0.0 || Fuzzy(x)[2] == 0.0
  {
  }

  /** The level next to a position, with ties between two levels. */
  datatype Near = At(level: nat) | Between(level: nat)

  function NearOf(f: Scale): (n: Near)
    ensures n.level <= (if n.At? then 2 else 1)
  {
    if f < 0.5 then At(0)
    else if f == 0.5 then Between(0)
    else if f < 1.5 then At(1)
    else if f == 1.5 then Between(1)
    else At(2)
  }

  /** The mean of maxima in closed form: one output shape, or two or three tied at one half. */
  function Closed(f: Scale, h: Scale): real {
    var (a, b) := (NearOf(f), NearOf(h));
    var k := 2 + b.level - a.level;
    match (a, b)
    case (At(i), At(j)) => Centre(k, Min(Member(f, i), Member(h, j)))
    case (Between(_), At(_)) => (Centre(k, 0.5) + Centre(k - 1, 0.5)) / 2.0
    case (At(_), Between(_)) => (Centre(k, 0.5) + Centre(k + 1, 0.5)) / 2.0
    case (Between(_), Between(_)) => (Centre(k - 1, 0.5) + Centre(k, 0.5) + Centre(k + 1, 0.5)) / 3.0
  }

  /** The closed form rises with the transmission metric and falls with energy, across all ties. */
  lemma ClosedRises(f: Scale, g: Scale, h: Scale)
    requires f <= g
    ensures Closed(f, h) <= Closed(g, h)
  {
  }

  lemma ClosedFalls(f: Scale, h: Scale, g: Scale)
    requires h <= g
    ensures Closed(f, g) <= Closed(f, h)
  {
  }

  lemma ClosedInRange(f: Scale, h: Scale)
    ensures 0.0 <= Closed(f, h) <= 100.0
  {
  }

  // ---------------------------------------------------------------- the code meets the closed form

  /** The same rules on positions. */
  function AtPosition(f: Scale, h: Scale): (m: Five)
    ensures NonNegative(m)
  {
    var t := [Member(f, 0), Member(f, 1), Member(f, 2)];
    var e := [Member(h, 0), Member(h, 1), Member(h, 2)];
    RulesNonNegative(t, e);
    Rules(t, e)
  }

  lemma StrengthsAreAtPosition(x: Input, y: Input)
    ensures Strengths(x, y) == AtPosition(Position(x), Position(y))
  {
    MembershipsSumToOne(x);
    MembershipsSumToOne(y);
    assert Fuzzy(x) == [Member(Position(x), 0), Member(Position(x), 1), Member(Position(x), 2)];
    assert Fuzzy(y) == [Member(Position(y), 0), Member(Position(y), 1), Member(Position(y), 2)];
  }

  function Term(m: Five, p: real, k: Shape): (real, int) {
    if m[k] == p then (Centre(k, p), 1) else (0.0, 0)
  }

  lemma MaximaUnfolded(m: Five, p: real)
    ensures var (sum, n) := Maxima(m, p, 5);
            && sum == Term(m, p, 0).0 + Term(m, p, 1).0 + Term(m, p, 2).0 + Term(m, p, 3).0 + Term(m, p, 4).0
            && n == Term(m, p, 0).1 + Term(m, p, 1).1 + Term(m, p, 2).1 + Term(m, p, 3).1 + Term(m, p, 4).1
  {
    assert Maxima(m, p, 0) == (0.0, 0);
    assert Maxima(m, p, 2).0 == Term(m, p, 0).0 + Term(m, p, 1).0;
    assert Maxima(m, p, 4).0 == Maxima(m, p, 2).0 + Term(m, p, 2).0 + Term(m, p, 3).0;
  }

  /** The strength of the strongest rule at two positions. */
  function Strongest(a: Near, b: Near, f: real, h: real): real {
    if a.At? && b.At? then Min(Member(f, a.level), Member(h, b.level)) else 0.5
  }

  /** The near level takes more than one half, or two near levels take one half each. */
  ghost predicate Profile(m: Three, n: Near) {
    && n.level <= (if n.At? then 2 else 1)
    && forall l :: 0 <= l < 3 ==>
      if n.At? && l == n.level then m[l] > 0.5
      else if n.Between? && (l == n.level || l == n.level + 1) then m[l] == 0.5
      else 0.0 <= m[l] < 0.5
  }

  lemma MembersFitProfile(f: Scale)
    ensures Profile([Member(f, 0), Member(f, 1), Member(f, 2)], NearOf(f))
  {
  }

  lemma RulesStayBelow(t: Three, e: Three, a: Near, b: Near, k: Shape)
    requires Profile(t, a) && Profile(e, b)
    ensures Rules(t, e)[k] <= if a.At? && b.At? then Min(t[a.level], e[b.level]) else 0.5
  {
  }

  lemma RulesReach(t: Three, e: Three, a: Near, b: Near, k: Shape)
    requires Profile(t, a) && Profile(e, b)
    ensures var p := if a.At? && b.At? then Min(t[a.level], e[b.level]) else 0.5;
            && p >= 0.5
            && (Rules(t, e)[k] == p <==>
                2 + b.level - a.level - (if a.Between? then 1 else 0) <= k
                && k <= 2 + b.level - a.level + (if b.Between? then 1 else 0))
  {
  }

  /** The strongest rules are those of the near levels, and they fire with at least one half. */
  lemma StrongestRules(f: Scale, h: Scale, k: Shape)
    ensures var (a, b) := (NearOf(f), NearOf(h));
            var p := Strongest(a, b, f, h);
            && p >= 0.5 && AtPosition(f, h)[k] <= p
            && (AtPosition(f, h)[k] == p <==>
                2 + b.level - a.level - (if a.Between? then 1 else 0) <= k
                && k <= 2 + b.level - a.level + (if b.Between? then 1 else 0))
  {
    hide Member;
    hide Rules;
    MembersFitProfile(f);
    MembersFitProfile(h);
    var t, e := [Member(f, 0), Member(f, 1), Member(f, 2)], [Member(h, 0), Member(h, 1), Member(h, 2)];
    RulesStayBelow(t, e, NearOf(f), NearOf(h), k);
    RulesReach(t, e, NearOf(f), NearOf(h), k);
  }

  /** One, two or three neighbouring maxima. */
  lemma MeanOfRange(m: Five, p: real, lo: Shape, hi: Shape)
    requires NonNegative(m) && Peak(m) == p && lo <= hi <= lo + 2
    requires forall k: Shape :: (m[k] == p <==> lo <= k <= hi)
    ensures Mean(m) ==
            if hi == lo then Centre(lo, p)
            else if hi == lo + 1 then (Centre(lo, p) + Centre(hi, p)) / 2.0
            else (Centre(lo, p) + Centre(lo + 1, p) + Centre(hi, p)) / 3.0
  {
    hide Centre;
    MaximaUnfolded(m, p);
  }

  /** The mean of maxima is the closed form. */
  lemma MeanIsClosed(f: Scale, h: Scale)
    ensures Peak(AtPosition(f, h)) >= 0.5
    ensures Mean(AtPosition(f, h)) == Closed(f, h)
  {
    hide AtPosition;
    hide Member;
    hide Centre;
    hide Mean;
    var m := AtPosition(f, h);
    var (a, b) := (NearOf(f), NearOf(h));
    var p := Strongest(a, b, f, h);
    forall k: Shape
      ensures p >= 0.5 && m[k] <= p
      ensures m[k] == p <==>
              2 + b.level - a.level - (if a.Between? then 1 else 0) <= k
              && k <= 2 + b.level - a.level + (if b.Between? then 1 else 0)
    {
      StrongestRules(f, h, k);
    }
    var k := 2 + b.level - a.level;
    assert m[k] == p;
    assert Peak(m) == p;
    MeanOfRange(m, p, k - (if a.Between? then 1 else 0), k + (if b.Between? then 1 else 0));
  }

  // ---------------------------------------------------------------- the theorem

  /** Some rule fires with strength at least one half, whatever the inputs. */
  lemma SomeRuleFires(x: Input, y: Input)
    ensures exists i :: 0 <= i < 5 && Strengths(x, y)[i] >= 0.5
  {
    StrengthsAreAtPosition(x, y);
    MeanIsClosed(Position(x), Position(y));
    var m := Strengths(x, y);
    var i :| 0 <= i < 5 && m[i] == Peak(m);
  }

  lemma WeightIsClosed(energy: nat, etx: nat)
    requires energy >= 12
    ensures var w := Closed(Position(Scaled(etx)), Position(ScaledEnergy(energy)));
            Weight(energy, etx) == (if w < 1.0 then 1.0 else w).Floor
  {
    StrengthsAreAtPosition(Scaled(etx), ScaledEnergy(energy));
    MeanIsClosed(Position(Scaled(etx)), Position(ScaledEnergy(energy)));
  }

  /** Every weight lies between 1 and 100, so the digraph built with it has positive weights. */
  lemma FuzzyIsGoodMetric()
    ensures GoodMetric(Weight)
  {
    forall energy: nat, etx: nat ensures 1 <= Weight(energy, etx) <= 100 {
      if energy >= 12 {
        WeightIsClosed(energy, etx);
        ClosedInRange(Position(Scaled(etx)), Position(ScaledEnergy(energy)));
      }
    }
  }

  /** The weight never falls as the transmission metric grows and never rises as energy grows. */
  lemma WeightIsMonotone(energy: nat, energy': nat, etx: nat, etx': nat)
    requires energy <= energy' && etx <= etx'
    ensures Weight(energy', etx) <= Weight(energy, etx')
  {
    FuzzyIsGoodMetric();
    if energy >= 12 {
      WeightIsClosed(energy', etx);
      WeightIsClosed(energy, etx');
      var f, g := Position(Scaled(etx)), Position(Scaled(etx'));
      var h, h' := Position(ScaledEnergy(energy)), Position(ScaledEnergy(energy'));
      ScalesRise(etx, etx');
      ScalesRise(energy, energy');
      ClosedFalls(f, h, h');
      ClosedRises(f, g, h);
    }
  }

  lemma ScalesRise(a: nat, b: nat)
    requires a <= b
    ensures Position(Scaled(a)) <= Position(Scaled(b)) && Position(ScaledEnergy(a)) <= Position(ScaledEnergy(b))
  {
  }

  // ---------------------------------------------------------------- in place

  /** The global arrays of the model. */
  class FuzzyModel {
    const etxFuzz: array<real>
    const energyFuzz: array<real>
    const metricFuzz: array<real>

    ghost predicate Valid()
      reads this
    {
      && etxFuzz.Length == energyFuzz.Length == 3 && metricFuzz.Length == 5
      && etxFuzz != energyFuzz && etxFuzz != metricFuzz && energyFuzz != metricFuzz
    }

    constructor ()
      ensures Valid() && fresh(etxFuzz) && fresh(energyFuzz) && fresh(metricFuzz)
    {
      etxFuzz, energyFuzz, metricFuzz := new real[3], new real[3], new real[5];
    }

    /** etx_fuzzification and energy_fuzzification have the same code on different arrays. */
    static method Fuzzify(m: array<real>, x: real)
      requires m.Length == 3
      modifies m
      ensures m[..] == Fuzzy(x)
    {
      m[0], m[1], m[2] := 0.0, 0.0, 0.0;
      if x >= 0.0 && x <= 20.0 {
        m[0] := 1.0;
      } else if x > 20.0 && x <= 40.0 {
        m[0] := (40.0 - x) / 20.0;
      }
      if x >= 20.0 && x <= 40.0 {
        m[1] := (x - 20.0) / 20.0;
      } else if x > 40.0 && x <= 60.0 {
        m[1] := 1.0;
      } else if x > 60.0 && x <= 80.0 {
        m[1] := (80.0 - x) / 20.0;
      }
      if x >= 60.0 && x <= 80.0 {
        m[2] := (x - 60.0) / 20.0;
      } else if x > 80.0 {
        m[2] := 1.0;
      }
    }

    method EvalRules()
      requires Valid()
      modifies metricFuzz
      ensures metricFuzz[..] == Rules(etxFuzz[..], energyFuzz[..])
    {
      metricFuzz[0] := Max(Min(etxFuzz[2], energyFuzz[0]), 0.0);
      metricFuzz[1] := Max(Min(etxFuzz[1], energyFuzz[0]), Min(etxFuzz[2], energyFuzz[1]));
      metricFuzz[2] := Max(Min(etxFuzz[0], energyFuzz[0]), Min(etxFuzz[1], energyFuzz[1]));
      metricFuzz[2] := Max(metricFuzz[2], Min(etxFuzz[2], energyFuzz[2]));
      metricFuzz[3] := Max(Min(etxFuzz[0], energyFuzz[1]), Min(etxFuzz[1], energyFuzz[2]));
      metricFuzz[4] := Max(Min(etxFuzz[0], energyFuzz[2]), 0.0);
    }

    /** get_mean_of_maximum: the largest strength, then the mean of the centres that reach it. */
    method MeanOfMaximum() returns (mean: real)
      requires Valid() && NonNegative(metricFuzz[..])
      ensures mean == Mean(metricFuzz[..])
    {
      var maxValue := 0.0;
      for i := 0 to 5
        invariant maxValue == Peak(metricFuzz[..i])
      {
        assert metricFuzz[..i + 1][..i] == metricFuzz[..i];
        if metricFuzz[i] > maxValue {
          maxValue := metricFuzz[i];
        }
      }
      assert metricFuzz[..5] == metricFuzz[..];
      var mom, quantity := SumMaxima(maxValue);
      assert quantity > 0 by {
        assert maxValue == 0.0 ==> metricFuzz[..][0] == maxValue;
      }
      mean := mom / quantity as real;
    }

    /** The five tests against the largest strength. */
    method SumMaxima(maxValue: real) returns (mom: real, quantity: nat)
      requires Valid()
      ensures (mom, quantity) == Maxima(metricFuzz[..], maxValue, 5)
    {
      hide Centre;
      mom, quantity := 0.0, 0;
      if metricFuzz[0] == maxValue {
        mom := mom + Centre(0, metricFuzz[0]);
        quantity := quantity + 1;
      }
      assert (mom, quantity) == Maxima(metricFuzz[..], maxValue, 1);
      if metricFuzz[1] == maxValue {
        mom := mom + Centre(1, metricFuzz[1]);
        quantity := quantity + 1;
      }
      assert (mom, quantity) == Maxima(metricFuzz[..], maxValue, 2);
      if metricFuzz[2] == maxValue {
        mom := mom + Centre(2, metricFuzz[2]);
        quantity := quantity + 1;
      }
      assert (mom, quantity) == Maxima(metricFuzz[..], maxValue, 3);
      if metricFuzz[3] == maxValue {
        mom := mom + Centre(3, metricFuzz[3]);
        quantity := quantity + 1;
      }
      assert (mom, quantity) == Maxima(metricFuzz[..], maxValue, 4);
      if metricFuzz[4] == maxValue {
        mom := mom + Centre(4, metricFuzz[4]);
        quantity := quantity + 1;
      }
      assert (mom, quantity) == Maxima(metricFuzz[..], maxValue, 5);
    }

    /** get_weight. */
    method GetWeight(energy: nat, etx: nat) returns (weight: int)
      requires Valid()
      modifies etxFuzz, energyFuzz, metricFuzz
      ensures weight == Weight(energy, etx)
    {
      if energy < MAX_BATTERY_LEVEL * THRESHOLD_BATTERY_ROUTE / 100 {
        return MAX_WEIGHT;
      }
      var x := if etx >= MAX_ETX_METRIC then 1.0 * MAX_WEIGHT as real
               else etx as real / MAX_ETX_METRIC as real * MAX_WEIGHT as real;
      var y := energy as real / (MAX_BATTERY_LEVEL as real * 1.0) * MAX_WEIGHT as real;
      Fuzzify(etxFuzz, x);
      Fuzzify(energyFuzz, y);
      EvalRules();
      assert metricFuzz[..] == Strengths(x, y);
      var w := MeanOfMaximum();
      if w < 1.0 {
        w := 1.0;
      }
      weight := w.Floor;
    }
  }
}
