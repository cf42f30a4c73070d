/**
 * The dashboard's census aggregation: a ward's effective occupancy percentage
 * and the hospital-wide totals. Here blocked beds count as occupied.
 */
module HospitalData {
  import opened Census

  /** The census snapshot the application starts from. */
  const InitialServiceData: seq<ServiceData> := [
    ServiceData("urg", Urgencia, 45, 42, 1, 2, 15),
    ServiceData("med", Medicina, 60, 55, 3, 8, 4),
    ServiceData("cir", Cirugia, 40, 35, 0, 5, 2),
    ServiceData("upc", Upc, 20, 18, 1, 1, 3),
    ServiceData("pab", Pabellon, 12, 8, 0, 4, 0),
    ServiceData("tra", Traumatologia, 25, 20, 0, 2, 1)
  ]

  /**
   * The initial census lists each ward kind once, and no ward has more occupied and
   * blocked beds than beds.
   */
  lemma InitialCensusConsistent()
    ensures |InitialServiceData| == 6
    ensures forall i, j :: 0 <= i < j < |InitialServiceData| ==> InitialServiceData[i].name != InitialServiceData[j].name
    ensures forall i :: 0 <= i < |InitialServiceData| ==>
      0 <= InitialServiceData[i].occupiedBeds
      && InitialServiceData[i].occupiedBeds + InitialServiceData[i].blockedBeds <= InitialServiceData[i].totalBeds
  {
  }

  /**
   * `Math.round((n / d) * 100)` for a non-zero denominator: the whole percentage nearest
   * to 100n/d, halves rounded up. Computed exactly on integers, with the sign moved
   * to the numerator so that the division is by a positive number.
   */
  function Percent(n: int, d: int): (r: int)
    requires d != 0
    ensures var num, den := if d > 0 then n else -n, if d > 0 then d else -d;
      2 * den * r - den <= 200 * num < 2 * den * r + den
  {
    if d > 0 then (200 * n + d) / (2 * d) else (-200 * n - d) / (-2 * d)
  }

  /** A numerator no larger than a positive denominator gives at most 100%. */
  lemma PercentAtMost100(n: int, d: int)
    requires 0 < d && n <= d
    ensures Percent(n, d) <= 100
  {
    var r := Percent(n, d);
    assert 2 * d * r - d <= 200 * n <= 200 * d;
    assert d * (2 * r - 201) <= 0;
    NonPositiveFactor(d, 2 * r - 201);
  }

  lemma NonPositiveFactor(d: int, x: int)
    requires d > 0 && d * x <= 0
    ensures x <= 0
  {
  }

  /** The nearest whole percentage for 183 of 202 beds is 91: 90.59... rounds up. */
  lemma PercentOfInitialData()
    ensures Percent(183, 202) == 91
  {
  }

  /** `calculateOccupancy`: effective occupancy (occupied + blocked) in percent, 0 for a ward with zero beds. */
  function CalculateOccupancy(service: ServiceData): (r: int)
    ensures service.totalBeds == 0 ==> r == 0
    ensures service.totalBeds > 0 ==>
      var t, n := service.totalBeds, service.occupiedBeds + service.blockedBeds;
      2 * t * r - t <= 200 * n < 2 * t * r + t
    ensures service.totalBeds < 0 ==>
      var t, n := -service.totalBeds, -(service.occupiedBeds + service.blockedBeds);
      2 * t * r - t <= 200 * n < 2 * t * r + t
  {
    if service.totalBeds == 0 then 0
    else Percent(service.occupiedBeds + service.blockedBeds, service.totalBeds)
  }

  /** The dashboard totals. */
  datatype TotalStats = TotalStats(
    totalBeds: int,
    occupied: int,
    blocked: int,
    occupancyRate: int,
    pending: int,
    discharges: int)

  /** `getTotalStats`: five plain sums, and the effective occupancy over all wards in percent. */
  function GetTotalStats(services: seq<ServiceData>): (r: TotalStats)
    ensures r.totalBeds == Total(services, TotalBeds) && r.occupied == Total(services, OccupiedBeds)
    ensures r.blocked == Total(services, BlockedBeds) && r.pending == Total(services, PendingAdmission)
    ensures r.discharges == Total(services, ProbableDischarges)
    ensures r.totalBeds <= 0 ==> r.occupancyRate == 0
    ensures r.totalBeds > 0 ==>
      2 * r.totalBeds * r.occupancyRate - r.totalBeds <= 200 * (r.occupied + r.blocked)
      < 2 * r.totalBeds * r.occupancyRate + r.totalBeds
  {
    var totalBeds := Total(services, TotalBeds);
    var occupied := Total(services, OccupiedBeds);
    var blocked := Total(services, BlockedBeds);
    var pending := Total(services, PendingAdmission);
    var discharges := Total(services, ProbableDischarges);
    var effectiveOccupancy := occupied + blocked;
    if totalBeds > 0 then
      TotalStats(totalBeds, occupied, blocked, Percent(effectiveOccupancy, totalBeds), pending, discharges)
    else
      TotalStats(totalBeds, occupied, blocked, 0, pending, discharges)
  }

  /** An empty census gives all zeros. */
  lemma TotalStatsEmpty()
    ensures GetTotalStats([]) == TotalStats(0, 0, 0, 0, 0, 0)
  {
  }

  /** The totals do not depend on the order in which the wards are listed. */
  lemma TotalStatsPermutation(a: seq<ServiceData>, b: seq<ServiceData>)
    requires multiset(a) == multiset(b)
    ensures GetTotalStats(a) == GetTotalStats(b)
  {
    TotalPermutation(a, b, TotalBeds);
    TotalPermutation(a, b, OccupiedBeds);
    TotalPermutation(a, b, BlockedBeds);
    TotalPermutation(a, b, PendingAdmission);
    TotalPermutation(a, b, ProbableDischarges);
  }

  /** The hospital-wide rate never exceeds 100% when occupied + blocked beds fit in the capacity. */
  lemma OccupancyRateAtMost100(services: seq<ServiceData>)
    requires Total(services, OccupiedBeds) + Total(services, BlockedBeds) <= Total(services, TotalBeds)
    ensures GetTotalStats(services).occupancyRate <= 100
  {
    var s := GetTotalStats(services);
    if s.totalBeds > 0 {
      PercentAtMost100(s.occupied + s.blocked, s.totalBeds);
    }
  }

  /**
   * For one ward the hospital-wide rate is that ward's own rate, provided it does not
   * have a negative bed count (the two guards differ there: `=== 0` against `> 0`).
   */
  lemma TotalStatsOfOneWard(s: ServiceData)
    requires s.totalBeds >= 0
    ensures GetTotalStats([s]).occupancyRate == CalculateOccupancy(s)
  {
    TotalOfOne(s, TotalBeds);
    TotalOfOne(s, OccupiedBeds);
    TotalOfOne(s, BlockedBeds);
  }

  /** A ward with a negative bed count is where the two guards disagree. */
  lemma TotalStatsOfNegativeWard()
    ensures var s := ServiceData("x", Cirugia, -2, 1, 0, 0, 0);
      CalculateOccupancy(s) == -50 && GetTotalStats([s]).occupancyRate == 0
  {
    var s := ServiceData("x", Cirugia, -2, 1, 0, 0, 0);
    TotalOfOne(s, TotalBeds);
    TotalOfOne(s, OccupiedBeds);
    TotalOfOne(s, BlockedBeds);
  }

  /** The figures the dashboard shows for the initial census. */
  lemma TotalStatsOfInitialData()
    ensures GetTotalStats(InitialServiceData) == TotalStats(202, 178, 5, 91, 25, 22)
  {
    var s := InitialServiceData;
    TotalOfSix(s, TotalBeds);
    TotalOfSix(s, OccupiedBeds);
    TotalOfSix(s, BlockedBeds);
    TotalOfSix(s, PendingAdmission);
    TotalOfSix(s, ProbableDischarges);
    PercentOfInitialData();
  }
}
