/**
  What the fuzzy weight means: the output shapes as membership functions over 0 to 100, the weight as the mean
  of the midpoints of those parts of the strongest shapes that reach their strength.
 */
module FuzzyShapes {
  import opened FuzzyMetric

  // ---------------------------------------------------------------- the output shapes

  type Score = x: real | 0.0 <= x <= 100.0 witness 0.0
  type Strength = r: real | 0.0 < r <= 1.0 witness 1.0

  /** From 0 at `a` up to 1 at `a + 25`. */
  function Up(x: real, a: real): real {
    if x <= a then 0.0 else if x < a + 25.0 then (x - a) / 25.0 else 1.0
  }

  /** From 1 at `a` down to 0 at `a + 25`. */
  function Down(x: real, a: real): real {
    if x <= a then 1.0 else if x < a + 25.0 then (a + 25.0 - x) / 25.0 else 0.0
  }

  /** How much a score is very bad, bad, average, good or very good. */
  function Output(k: Shape, x: Score): real {
    match k
    case 0 => Up(x, 75.0)
    case 1 => if x <= 75.0 then Up(x, 50.0) else Down(x, 75.0)
    case 2 => if x <= 50.0 then Up(x, 25.0) else Down(x, 50.0)
    case 3 => if x <= 25.0 then Up(x, 0.0) else Down(x, 25.0)
    case 4 => Down(x, 0.0)
  }

  /** The scores at which shape `k` reaches strength `r`. */
  ghost predicate IsCut(k: Shape, r: Strength, lo: Score, hi: Score) {
    lo <= hi && forall x: Score :: Output(k, x) >= r <==> lo <= x <= hi
  }

  lemma CutIsUnique(k: Shape, r: Strength, lo: Score, hi: Score, lo': Score, hi': Score)
    requires IsCut(k, r, lo, hi) && IsCut(k, r, lo', hi')
    ensures lo == lo' && hi == hi'
  {
    assert Output(k, lo) >= r && Output(k, hi) >= r && Output(k, lo') >= r && Output(k, hi') >= r;
  }

  /** The centre the code computes is the midpoint of that interval, for every shape and strength. */
  lemma CentreIsMidpoint(k: Shape, r: Strength) returns (lo: Score, hi: Score)
    ensures IsCut(k, r, lo, hi) && Centre(k, r) == (lo + hi) / 2.0
  {
    match k
    case 0 => lo, hi := 75.0 + 25.0 * r, 100.0;
    case 1 => lo, hi := 50.0 + 25.0 * r, 100.0 - 25.0 * r;
    case 2 => lo, hi := 25.0 + 25.0 * r, 75.0 - 25.0 * r;
    case 3 => lo, hi := 25.0 * r, 50.0 - 25.0 * r;
    case 4 => lo, hi := 0.0, 25.0 - 25.0 * r;
  }

  lemma CutExists(k: Shape, r: Strength)
    ensures exists lo: Score, hi: Score :: IsCut(k, r, lo, hi)
  {
    var lo, hi := CentreIsMidpoint(k, r);
  }

  /** The middle of the scores at which shape `k` reaches strength `r`. */
  ghost function Midpoint(k: Shape, r: Strength): real {
    CutExists(k, r);
    var lo: Score, hi: Score :| IsCut(k, r, lo, hi);
    (lo + hi) / 2.0
  }

  lemma MidpointIsCentre(k: Shape, r: Strength)
    ensures Midpoint(k, r) == Centre(k, r)
  {
    var lo, hi := CentreIsMidpoint(k, r);
    CutExists(k, r);
    var lo': Score, hi': Score :| IsCut(k, r, lo', hi') && Midpoint(k, r) == (lo' + hi') / 2.0;
    CutIsUnique(k, r, lo, hi, lo', hi');
  }

  // ---------------------------------------------------------------- the mean

  /** No shape is stronger. */
  ghost predicate IsStrongest(m: Five, k: Shape) {
    forall i: Shape :: m[i] <= m[k]
  }

  /** Midpoint and count of shape `k`, as far as it is one of the strongest. */
  ghost function Share(m: Five, r: Strength, k: Shape): (real, real) {
    if m[k] == r then (Midpoint(k, r), 1.0) else (0.0, 0.0)
  }

  /** The sum of the midpoints of all shapes of strength `r`. */
  ghost function SumOfMidpoints(m: Five, r: Strength): real {
    Share(m, r, 0).0 + Share(m, r, 1).0 + Share(m, r, 2).0 + Share(m, r, 3).0 + Share(m, r, 4).0
  }

  /** How many shapes have strength `r`. */
  ghost function CountOfShapes(m: Five, r: Strength): real {
    Share(m, r, 0).1 + Share(m, r, 1).1 + Share(m, r, 2).1 + Share(m, r, 3).1 + Share(m, r, 4).1
  }

  /** The mean of maxima is the mean of the midpoints of the strongest shapes. */
  lemma MeanIsMeanOfMidpoints(m: Five, k: Shape)
    requires NonNegative(m) && IsStrongest(m, k) && 0.0 < m[k] <= 1.0
    ensures CountOfShapes(m, m[k]) >= 1.0
    ensures Mean(m) == SumOfMidpoints(m, m[k]) / CountOfShapes(m, m[k])
  {
    hide Centre;
    hide Midpoint;
    var p := m[k];
    assert Peak(m) == p;
    MaximaUnfolded(m, p);
    forall i: Shape ensures Share(m, p, i).0 == Term(m, p, i).0 && Share(m, p, i).1 == Term(m, p, i).1 as real {
      MidpointIsCentre(i, p);
    }
  }

  // ---------------------------------------------------------------- the rules

  /**
    A rule fires as far as both its conditions hold; level `i` of the metric and `j` of energy give shape
    2 + j - i.
   */
  ghost predicate FiresAtMost(t: Three, e: Three, i: int, j: int, k: Shape, r: real) {
    0 <= i < 3 && 0 <= j < 3 && 2 + j - i == k ==> t[i] <= r || e[j] <= r
  }

  ghost predicate Fires(t: Three, e: Three, i: int, j: int, k: Shape, r: real) {
    0 <= i < 3 && 0 <= j < 3 && 2 + j - i == k && t[i] >= r && e[j] >= r
  }

  /** The strength of a shape is the largest of its rules: none fires stronger, and one fires as strong. */
  lemma StrongestRuleCounts(t: Three, e: Three, k: Shape)
    requires NonNegative(t) && NonNegative(e)
    ensures forall i, j :: FiresAtMost(t, e, i, j, k, Rules(t, e)[k])
    ensures exists i, j :: Fires(t, e, i, j, k, Rules(t, e)[k])
  {
    var r := Rules(t, e)[k];
    if k <= 2 {
      assert Fires(t, e, 2 - k, 0, k, r) || Fires(t, e, 3 - k, 1, k, r) || Fires(t, e, 4 - k, 2, k, r);
    } else {
      assert Fires(t, e, 0, k - 2, k, r) || Fires(t, e, 1, k - 1, k, r);
    }
  }

  // ---------------------------------------------------------------- the weight

  lemma ScaledIsCut(energy: nat, etx: nat)
    ensures Scaled(etx) == (if etx >= 100 then 100 else etx) as real
    ensures ScaledEnergy(energy) == energy as real * 100.0 / 255.0
  {
  }

  /** The strongest of five. */
  lemma StrongestExists(m: Five) returns (k: Shape)
    ensures IsStrongest(m, k)
  {
    k := 0;
    if m[1] > m[k] { k := 1; }
    if m[2] > m[k] { k := 2; }
    if m[3] > m[k] { k := 3; }
    if m[4] > m[k] { k := 4; }
  }

  lemma StrengthsFit(x: Input, y: Input, k: Shape)
    requires IsStrongest(Strengths(x, y), k)
    ensures NonNegative(Strengths(x, y)) && 0.5 <= Strengths(x, y)[k] <= 1.0
  {
    SomeRuleFires(x, y);
    MembershipsSumToOne(x);
    MembershipsSumToOne(y);
  }

  /** The part of a weight that is rounded: the mean of midpoints of the strongest shapes. */
  ghost predicate IsMeanOfMidpoints(m: Five, w: real) {
    exists k: Shape :: IsStrongest(m, k) && 0.0 < m[k] <= 1.0 &&
      CountOfShapes(m, m[k]) > 0.0 && w == SumOfMidpoints(m, m[k]) / CountOfShapes(m, m[k])
  }

  /** Below energy 12 the largest weight; else the mean of the midpoints, at least 1, without its fraction. */
  lemma WeightIsMeanOfMidpoints(energy: nat, etx: nat) returns (w: real)
    ensures energy < 12 ==> Weight(energy, etx) == 100
    ensures energy >= 12 ==>
              && IsMeanOfMidpoints(Strengths(Scaled(etx), ScaledEnergy(energy)), w)
              && Weight(energy, etx) == (if w < 1.0 then 1 else w.Floor)
  {
    hide Mean;
    hide Strengths;
    hide SumOfMidpoints;
    hide CountOfShapes;
    var m := Strengths(Scaled(etx), ScaledEnergy(energy));
    var k := StrongestExists(m);
    StrengthsFit(Scaled(etx), ScaledEnergy(energy), k);
    MeanIsMeanOfMidpoints(m, k);
    w := Mean(m);
  }

  /** Inputs that belong to one level each give the value of the one shape: 100, 75, 50, 25 or 1. */
  lemma WeightAtLevels(energy: nat, etx: nat, i: nat, j: nat)
    requires energy >= 12 && i < 3 && j < 3
    requires Fuzzy(Scaled(etx))[i] == 1.0 && Fuzzy(ScaledEnergy(energy))[j] == 1.0
    ensures Weight(energy, etx) == if i == 0 && j == 2 then 1 else 50 + 25 * (i - j)
  {
    hide Weight;
    hide Closed;
    var x, y := Scaled(etx), ScaledEnergy(energy);
    WeightIsClosed(energy, etx);
    LevelIsPosition(x, i);
    LevelIsPosition(y, j);
    ClosedAtLevels(i, j);
  }

  lemma LevelIsPosition(x: Input, i: nat)
    requires i < 3 && Fuzzy(x)[i] == 1.0
    ensures Position(x) == i as real
  {
    MembershipsSumToOne(x);
  }

  lemma ClosedAtLevels(i: nat, j: nat)
    requires i < 3 && j < 3
    ensures Closed(i as real, j as real) == 50.0 + 25.0 * (i as real - j as real)
  {
  }
}
