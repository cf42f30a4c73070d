/**
 * The census records shared by the scoring engine and the dashboard
 * aggregation: ward kinds, risk levels, one ward's bed counts, and the
 * left-to-right sum of one field over a list of wards.
 */
module Census {

  /** The six ward kinds of the hospital. */
  datatype ServiceType = Urgencia | Medicina | Cirugia | Upc | Pabellon | Traumatologia

  /** The three risk classes: Bajo, Medio, Crítico. */
  datatype RiskLevel = Low | Medium | High

  /** Position of a risk level in the order Low < Medium < High. */
  function Rank(r: RiskLevel): (n: nat)
    ensures n <= 2
    ensures n == 0 <==> r == Low
    ensures n == 2 <==> r == High
  {
    match r
    case Low => 0
    case Medium => 1
    case High => 2
  }

  /**
   * One ward's census. The counts are plain integers: the data-entry form
   * does not clamp them, so nothing here assumes them non-negative or
   * occupied + blocked <= total.
   */
  datatype ServiceData = ServiceData(
    id: string,
    name: ServiceType,
    totalBeds: int,
    occupiedBeds: int,
    blockedBeds: int,
    probableDischarges: int,
    pendingAdmission: int)

  /** The numeric fields of a census row that the reductions add up. */
  datatype Field = TotalBeds | OccupiedBeds | BlockedBeds | ProbableDischarges | PendingAdmission

  function FieldOf(s: ServiceData, f: Field): int
  {
    match f
    case TotalBeds => s.totalBeds
    case OccupiedBeds => s.occupiedBeds
    case BlockedBeds => s.blockedBeds
    case ProbableDischarges => s.probableDischarges
    case PendingAdmission => s.pendingAdmission
  }

  /** `services.reduce((acc, s) => acc + s.<f>, 0)`: folds from the left, so the last row is added last. */
  function Total(services: seq<ServiceData>, f: Field): int
  {
    if services == [] then 0
    else Total(services[..|services| - 1], f) + FieldOf(services[|services| - 1], f)
  }

  lemma {:induction false} TotalAppend(a: seq<ServiceData>, b: seq<ServiceData>, f: Field)
    ensures Total(a + b, f) == Total(a, f) + Total(b, f)
    decreases |b|
  {
    if b == [] {
      assert a + b == a;
    } else {
      var b' := b[..|b| - 1];
      assert (a + b)[..|a + b| - 1] == a + b';
      TotalAppend(a, b', f);
    }
  }

  /** Removing the row at position k takes exactly that row's field off the sum. */
  lemma TotalRemove(b: seq<ServiceData>, k: nat, f: Field)
    requires k < |b|
    ensures Total(b, f) == Total(b[..k] + b[k + 1..], f) + FieldOf(b[k], f)
  {
    assert b == b[..k] + [b[k]] + b[k + 1..];
    TotalAppend(b[..k] + [b[k]], b[k + 1..], f);
    TotalAppend(b[..k], [b[k]], f);
    TotalAppend(b[..k], b[k + 1..], f);
    assert [b[k]][..0] == [];
  }

  /** Cutting the element at position k out of a list takes one copy of it off the multiset. */
  lemma MultisetRemove(b: seq<ServiceData>, k: nat)
    requires k < |b|
    ensures multiset(b[..k] + b[k + 1..]) == multiset(b) - multiset{b[k]}
  {
    assert b == b[..k] + [b[k]] + b[k + 1..];
  }

  lemma MultisetLast(a: seq<ServiceData>)
    requires a != []
    ensures multiset(a[..|a| - 1]) == multiset(a) - multiset{a[|a| - 1]}
  {
    assert a == a[..|a| - 1] + [a[|a| - 1]];
  }

  /** The sum does not depend on the order of the wards. */
  lemma {:induction false} TotalPermutation(a: seq<ServiceData>, b: seq<ServiceData>, f: Field)
    requires multiset(a) == multiset(b)
    ensures Total(a, f) == Total(b, f)
    decreases |a|
  {
    if a != [] {
      var x := a[|a| - 1];
      var a' := a[..|a| - 1];
      MultisetLast(a);
      assert x in multiset(b);
      var k :| 0 <= k < |b| && b[k] == x;
      MultisetRemove(b, k);
      TotalPermutation(a', b[..k] + b[k + 1..], f);
      TotalRemove(b, k, f);
    }
  }

  /** The sum over six rows, written out; used to evaluate the initial census. */
  lemma TotalOfSix(s: seq<ServiceData>, f: Field)
    requires |s| == 6
    ensures Total(s, f) == FieldOf(s[0], f) + FieldOf(s[1], f) + FieldOf(s[2], f)
      + FieldOf(s[3], f) + FieldOf(s[4], f) + FieldOf(s[5], f)
  {
    assert Total(s[..1], f) == FieldOf(s[0], f) by { assert s[..1][..0] == []; }
    assert Total(s[..2], f) == Total(s[..1], f) + FieldOf(s[1], f) by { assert s[..2][..1] == s[..1]; }
    assert Total(s[..3], f) == Total(s[..2], f) + FieldOf(s[2], f) by { assert s[..3][..2] == s[..2]; }
    assert Total(s[..4], f) == Total(s[..3], f) + FieldOf(s[3], f) by { assert s[..4][..3] == s[..3]; }
    assert Total(s[..5], f) == Total(s[..4], f) + FieldOf(s[4], f) by { assert s[..5][..4] == s[..4]; }
    assert s == s[..5] + [s[5]];
  }

  /** The sum over a single row is that row's field. */
  lemma TotalOfOne(s: ServiceData, f: Field)
    ensures Total([s], f) == FieldOf(s, f)
  {
    assert [s][..0] == [];
  }

  /** Adding rows whose field is at most another field's keeps the sums in the same order. */
  lemma {:induction false} TotalBoundedBy(services: seq<ServiceData>, lo: Field, hi: Field)
    requires forall i :: 0 <= i < |services| ==> FieldOf(services[i], lo) <= FieldOf(services[i], hi)
    ensures Total(services, lo) <= Total(services, hi)
    decreases |services|
  {
    if services != [] {
      TotalBoundedBy(services[..|services| - 1], lo, hi);
    }
  }

  /** A sum of non-negative fields is non-negative. */
  lemma {:induction false} TotalNonNegative(services: seq<ServiceData>, f: Field)
    requires forall i :: 0 <= i < |services| ==> 0 <= FieldOf(services[i], f)
    ensures 0 <= Total(services, f)
    decreases |services|
  {
    if services != [] {
      TotalNonNegative(services[..|services| - 1], f);
    }
  }

  /** `Math.round`: the nearest integer, halves rounded up (towards +infinity). */
  function Round(x: real): (r: int)
    ensures r as real - 0.5 <= x < r as real + 0.5
  {
    (x + 0.5).Floor
  }

  /** `n / d` as the engine computes a ratio, with 0 for a capacity that is not positive. */
  function Ratio(n: int, d: int): (q: real)
    ensures d > 0 ==> q * d as real == n as real
    ensures d <= 0 ==> q == 0.0
  {
    if d > 0 then n as real / d as real else 0.0
  }

  /** With a positive denominator, comparing a ratio with a threshold is comparing cross products. */
  lemma RatioAbove(n: int, d: int, t: real)
    requires d > 0
    ensures Ratio(n, d) > t <==> n as real > t * d as real
  {
    var q := Ratio(n, d);
    if q > t {
      assert q * d as real > t * d as real;
    } else {
      assert q * d as real <= t * d as real;
    }
  }

  /** The ratio of two non-negative counts with the numerator at most the denominator lies in [0, 1]. */
  lemma RatioUnit(n: int, d: int)
    requires 0 <= n <= d
    ensures 0.0 <= Ratio(n, d) <= 1.0
  {
  }
}
