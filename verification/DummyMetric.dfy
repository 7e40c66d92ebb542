/** The metric of the configured build (controller-server/digraph/dummy-metric.c) over the reals. */
module DummyMetric {
  import opened NeighborReports

  const WEIGHT_ETX := 1.0
  const WEIGHT_ENERGY := 0.0

  function Weight(energy: nat, etx: nat): int {
    if energy < MAX_BATTERY_LEVEL * 5 / 100 then MAX_WEIGHT
    else
      var etxPart := if etx >= 100 then 1.0 else etx as real / 100.0;
      var energyPart := 1.0 - energy as real / MAX_BATTERY_LEVEL as real;
      var weight := ((etxPart * WEIGHT_ETX + energyPart * WEIGHT_ENERGY) * MAX_WEIGHT as real).Floor;
      if weight == 0 then 1 else weight
  }

  /** The configured weights: the transmission metric itself, between 1 and 100, and 100 below energy 12. */
  lemma DummyIsGoodMetric(energy: nat, etx: nat)
    ensures GoodMetric(Weight)
    ensures energy >= 12 ==> Weight(energy, etx) == if etx == 0 then 1 else if etx >= 100 then 100 else etx
    ensures energy < 12 ==> Weight(energy, etx) == 100
  {
    forall e: nat, x: nat
      ensures 1 <= Weight(e, x) <= MAX_WEIGHT
      ensures e >= 12 ==> Weight(e, x) == if x == 0 then 1 else if x >= 100 then 100 else x
    {
      var part := if x >= 100 then 1.0 else x as real / 100.0;
      assert part * 100.0 == (if x >= 100 then 100 else x) as real;
    }
  }
}
