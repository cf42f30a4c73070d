/**
 * The heuristic risk engine: one pass over the ward censuses accumulates the
 * global occupancy, the wards flagged critical and a weighted discharge
 * forecast, and a three-step decision classifies the hospital's risk.
 */
module MlEngine {
  import opened Census
  import HospitalData

  /** What one run of the engine reports. */
  datatype MLPrediction = MLPrediction(
    calculatedRisk: RiskLevel,
    predictedDischarges: int,
    criticalServices: seq<ServiceType>,
    systemStressScore: real)

  /** A ward's own occupancy ratio (blocked beds not counted), 0 for a ward without beds. */
  function OccupancyRate(s: ServiceData): real
  {
    Ratio(s.occupiedBeds, s.totalBeds)
  }

  /** The critical-ward rule: above 95% occupancy, or an emergency ward with more than 10 waiting. */
  predicate IsCritical(s: ServiceData)
  {
    OccupancyRate(s) > 0.95 || (s.name == Urgencia && s.pendingAdmission > 10)
  }

  /** The critical-ward rule in integer terms: a ward with beds and 100*occupied > 95*total, or the emergency rule. */
  lemma IsCriticalCrossMultiplied(s: ServiceData)
    ensures IsCritical(s) <==>
      (s.totalBeds > 0 && 100 * s.occupiedBeds > 95 * s.totalBeds)
      || (s.name == Urgencia && s.pendingAdmission > 10)
  {
    if s.totalBeds > 0 {
      RatioAbove(s.occupiedBeds, s.totalBeds, 0.95);
    }
  }

  /** Names of the flagged wards, in input order, one entry per flagged row. */
  function CriticalServices(services: seq<ServiceData>): (names: seq<ServiceType>)
    ensures |names| <= |services|
    ensures forall n :: n in names <==>
      exists i :: 0 <= i < |services| && IsCritical(services[i]) && services[i].name == n
  {
    if services == [] then []
    else
      var last := services[|services| - 1];
      var init := services[..|services| - 1];
      assert forall i :: 0 <= i < |init| ==> init[i] == services[i];
      CriticalServices(init) + (if IsCritical(last) then [last.name] else [])
  }

  /** Flagging is done row by row, so the list for a concatenation is the concatenation of the lists. */
  lemma {:induction false} CriticalServicesAppend(a: seq<ServiceData>, b: seq<ServiceData>)
    ensures CriticalServices(a + b) == CriticalServices(a) + CriticalServices(b)
    decreases |b|
  {
    if b == [] {
      assert a + b == a;
    } else {
      var b' := b[..|b| - 1];
      assert (a + b)[..|a + b| - 1] == a + b';
      CriticalServicesAppend(a, b');
    }
  }

  /** Number of census rows that the critical-ward rule flags. */
  function CountCritical(services: seq<ServiceData>): nat
  {
    if services == [] then 0
    else CountCritical(services[..|services| - 1]) + (if IsCritical(services[|services| - 1]) then 1 else 0)
  }

  /** Every flagged row contributes exactly one entry, even when two rows share a ward kind. */
  lemma {:induction false} CriticalServicesOnePerRow(services: seq<ServiceData>)
    ensures |CriticalServices(services)| == CountCritical(services)
    decreases |services|
  {
    if services != [] {
      CriticalServicesOnePerRow(services[..|services| - 1]);
    }
  }

  /** Historical turnover factor per ward kind: 1.2 for Medicina, 0.8 for UPC, 1.0 otherwise. */
  function TurnoverFactor(name: ServiceType): real
  {
    if name == Upc then 0.8 else if name == Medicina then 1.2 else 1.0
  }

  /** One ward's forecast: its probable discharges scaled by the factor, rounded before summing. */
  function WardForecast(s: ServiceData): int
  {
    Round(s.probableDischarges as real * TurnoverFactor(s.name))
  }

  /** The per-ward rounding in integer terms: within half a discharge of p*6/5, p*4/5 or p. */
  lemma WardForecastExact(s: ServiceData)
    ensures var p, r := s.probableDischarges, WardForecast(s);
      if s.name == Medicina then 10 * r - 5 <= 12 * p < 10 * r + 5
      else if s.name == Upc then 10 * r - 5 <= 8 * p < 10 * r + 5
      else r == p
  {
  }

  /** A Medicina ward with 8 probable discharges contributes round(9.6) = 10. */
  lemma WardForecastMedicinaEight(s: ServiceData)
    requires s.name == Medicina && s.probableDischarges == 8
    ensures WardForecast(s) == 10
  {
  }

  /** Sum of the per-ward rounded forecasts, added in input order. */
  function WeightedDischarges(services: seq<ServiceData>): int
  {
    if services == [] then 0
    else WeightedDischarges(services[..|services| - 1]) + WardForecast(services[|services| - 1])
  }

  /** Without Medicina or UPC wards the weighted forecast equals the plain sum of probable discharges. */
  lemma {:induction false} WeightedDischargesUnweighted(services: seq<ServiceData>)
    requires forall i :: 0 <= i < |services| ==> services[i].name != Medicina && services[i].name != Upc
    ensures WeightedDischarges(services) == Total(services, ProbableDischarges)
    decreases |services|
  {
    if services != [] {
      WeightedDischargesUnweighted(services[..|services| - 1]);
    }
  }

  /** Global occupied-over-capacity ratio; blocked beds are not counted; 0 with no capacity. */
  function StressScore(services: seq<ServiceData>): real
  {
    Ratio(Total(services, OccupiedBeds), Total(services, TotalBeds))
  }

  /** The "0 to 1" promise, which holds only when every ward has 0 <= occupied <= total. */
  lemma StressScoreInUnitInterval(services: seq<ServiceData>)
    requires forall i :: 0 <= i < |services| ==> 0 <= services[i].occupiedBeds <= services[i].totalBeds
    ensures 0.0 <= StressScore(services) <= 1.0
  {
    TotalNonNegative(services, OccupiedBeds);
    TotalBoundedBy(services, OccupiedBeds, TotalBeds);
    RatioUnit(Total(services, OccupiedBeds), Total(services, TotalBeds));
  }

  /** The decision: High above 0.92 or with Urgencia critical, else Medium above 0.85, else Low. */
  function RiskOf(global: real, critical: seq<ServiceType>): RiskLevel
  {
    if global > 0.92 || Urgencia in critical then High
    else if global > 0.85 then Medium
    else Low
  }

  /** The three classes, each characterised by the thresholds alone. */
  lemma RiskClasses(global: real, critical: seq<ServiceType>)
    ensures RiskOf(global, critical) == High <==> global > 0.92 || Urgencia in critical
    ensures RiskOf(global, critical) == Medium <==> !(global > 0.92 || Urgencia in critical) && global > 0.85
    ensures RiskOf(global, critical) == Low <==> global <= 0.85 && Urgencia !in critical
  {
  }

  /** For a fixed list of critical wards, a higher global ratio never lowers the risk. */
  lemma RiskMonotone(g1: real, g2: real, critical: seq<ServiceType>)
    requires g1 <= g2
    ensures Rank(RiskOf(g1, critical)) <= Rank(RiskOf(g2, critical))
  {
  }

  /** A critical ward other than Urgencia does not raise the risk by itself. */
  lemma RiskIgnoresOtherCriticalWards(global: real, critical: seq<ServiceType>)
    requires Urgencia !in critical
    ensures RiskOf(global, critical) == RiskOf(global, [])
  {
  }

  /** What the loop adds for row i to each of the quantities it accumulates. */
  lemma PrefixStep(services: seq<ServiceData>, i: nat)
    requires i < |services|
    ensures Total(services[..i + 1], OccupiedBeds) == Total(services[..i], OccupiedBeds) + services[i].occupiedBeds
    ensures Total(services[..i + 1], TotalBeds) == Total(services[..i], TotalBeds) + services[i].totalBeds
    ensures CriticalServices(services[..i + 1]) ==
      CriticalServices(services[..i]) + (if IsCritical(services[i]) then [services[i].name] else [])
    ensures WeightedDischarges(services[..i + 1]) == WeightedDischarges(services[..i]) + WardForecast(services[i])
  {
    assert services[..i + 1][..i] == services[..i];
  }

  /**
   * `runHeuristicModel`: one pass over the wards with running totals, then
   * the risk assigned in two overriding steps.
   */
  method RunHeuristicModel(services: seq<ServiceData>) returns (p: MLPrediction)
    ensures p.systemStressScore == StressScore(services)
    ensures p.criticalServices == CriticalServices(services)
    ensures p.predictedDischarges == WeightedDischarges(services)
    ensures p.calculatedRisk == RiskOf(StressScore(services), CriticalServices(services))
  {
    var totalOccupancy := 0;
    var totalCapacity := 0;
    var criticalServices: seq<ServiceType> := [];
    var weightedDischargePrediction := 0;

    var i := 0;
    while i < |services|
      invariant 0 <= i <= |services|
      invariant totalOccupancy == Total(services[..i], OccupiedBeds)
      invariant totalCapacity == Total(services[..i], TotalBeds)
      invariant criticalServices == CriticalServices(services[..i])
      invariant weightedDischargePrediction == WeightedDischarges(services[..i])
    {
      var s := services[i];
      PrefixStep(services, i);
      var occupancyRate := if s.totalBeds > 0 then s.occupiedBeds as real / s.totalBeds as real else 0.0;
      assert occupancyRate == OccupancyRate(s);
      totalOccupancy := totalOccupancy + s.occupiedBeds;
      totalCapacity := totalCapacity + s.totalBeds;

      if occupancyRate > 0.95 || (s.name == Urgencia && s.pendingAdmission > 10) {
        criticalServices := criticalServices + [s.name];
      }

      var turnoverFactor := 1.0;
      if s.name == Medicina { turnoverFactor := 1.2; }
      if s.name == Upc { turnoverFactor := 0.8; }
      assert turnoverFactor == TurnoverFactor(s.name);

      weightedDischargePrediction := weightedDischargePrediction + Round(s.probableDischarges as real * turnoverFactor);
      i := i + 1;
    }
    assert services[..i] == services;

    var globalOccupancy := if totalCapacity > 0 then totalOccupancy as real / totalCapacity as real else 0.0;
    assert globalOccupancy == StressScore(services);

    var risk := Low;
    if globalOccupancy > 0.85 { risk := Medium; }
    if globalOccupancy > 0.92 || Urgencia in criticalServices { risk := High; }

    p := MLPrediction(risk, weightedDischargePrediction, criticalServices, globalOccupancy);
  }

  /** Six rows of which only the first is critical list exactly that ward. */
  lemma CriticalOfSixFirstOnly(s: seq<ServiceData>)
    requires |s| == 6 && IsCritical(s[0])
    requires forall i :: 1 <= i < 6 ==> !IsCritical(s[i])
    ensures CriticalServices(s) == [s[0].name]
  {
    assert CriticalServices(s[..1]) == [s[0].name] by { assert s[..1][..0] == []; }
    assert CriticalServices(s[..2]) == [s[0].name] by { assert s[..2][..1] == s[..1]; }
    assert CriticalServices(s[..3]) == [s[0].name] by { assert s[..3][..2] == s[..2]; }
    assert CriticalServices(s[..4]) == [s[0].name] by { assert s[..4][..3] == s[..3]; }
    assert CriticalServices(s[..5]) == [s[0].name] by { assert s[..5][..4] == s[..4]; }
    assert s == s[..5] + [s[5]];
  }

  /** The weighted forecast over six rows, written out. */
  lemma WeightedOfSix(s: seq<ServiceData>)
    requires |s| == 6
    ensures WeightedDischarges(s) == WardForecast(s[0]) + WardForecast(s[1]) + WardForecast(s[2])
      + WardForecast(s[3]) + WardForecast(s[4]) + WardForecast(s[5])
  {
    assert WeightedDischarges(s[..1]) == WardForecast(s[0]) by { assert s[..1][..0] == []; }
    assert WeightedDischarges(s[..2]) == WeightedDischarges(s[..1]) + WardForecast(s[1]) by { assert s[..2][..1] == s[..1]; }
    assert WeightedDischarges(s[..3]) == WeightedDischarges(s[..2]) + WardForecast(s[2]) by { assert s[..3][..2] == s[..2]; }
    assert WeightedDischarges(s[..4]) == WeightedDischarges(s[..3]) + WardForecast(s[3]) by { assert s[..4][..3] == s[..3]; }
    assert WeightedDischarges(s[..5]) == WeightedDischarges(s[..4]) + WardForecast(s[4]) by { assert s[..5][..4] == s[..4]; }
    assert s == s[..5] + [s[5]];
  }

  /** On the initial census the critical-ward rule flags Urgencia (15 waiting) and nothing else. */
  lemma CriticalOfInitialData()
    ensures CriticalServices(HospitalData.InitialServiceData) == [Urgencia]
  {
    var s := HospitalData.InitialServiceData;
    forall i | 0 <= i < |s|
      ensures IsCritical(s[i]) <==> i == 0
    {
      IsCriticalCrossMultiplied(s[i]);
    }
    CriticalOfSixFirstOnly(s);
  }

  /** On the initial census the weighted forecast is 2 + 10 + 5 + 1 + 4 + 2 = 24. */
  lemma WeightedOfInitialData()
    ensures WeightedDischarges(HospitalData.InitialServiceData) == 24
  {
    var s := HospitalData.InitialServiceData;
    WeightedOfSix(s);
    WardForecastMedicinaEight(s[1]);
    assert WardForecast(s[3]) == 1;
  }

  /** On the initial census the engine flags Urgencia alone, reports High risk and forecasts 24 discharges. */
  lemma EngineOnInitialData()
    ensures var s := HospitalData.InitialServiceData;
      && CriticalServices(s) == [Urgencia]
      && WeightedDischarges(s) == 24
      && StressScore(s) * 202.0 == 178.0
      && RiskOf(StressScore(s), CriticalServices(s)) == High
  {
    var s := HospitalData.InitialServiceData;
    TotalOfSix(s, OccupiedBeds);
    TotalOfSix(s, TotalBeds);
    CriticalOfInitialData();
    WeightedOfInitialData();
  }

  /** The dashboard's unweighted discharge total (22) and the engine's weighted forecast (24) differ on the initial census. */
  lemma DischargeTotalsDiffer()
    ensures HospitalData.GetTotalStats(HospitalData.InitialServiceData).discharges == 22
    ensures WeightedDischarges(HospitalData.InitialServiceData) == 24
  {
    HospitalData.TotalStatsOfInitialData();
    EngineOnInitialData();
  }

  /** Running the engine on the initial census. */
  method RunOnInitialData() returns (p: MLPrediction)
    ensures p.calculatedRisk == High
    ensures p.criticalServices == [Urgencia]
    ensures p.predictedDischarges == 24
    ensures p.systemStressScore * 202.0 == 178.0
  {
    p := RunHeuristicModel(HospitalData.InitialServiceData);
    EngineOnInitialData();
  }
}
