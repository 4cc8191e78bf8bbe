/**
  Triple sums over the index box of an array, the building block of the
  zero-padded correlation. A `Summand` names the term being summed (a
  defunctionalised lambda), so that lemmas about sums are first-order.
 */
module LagSums {
  import opened Arrays3

  datatype Summand =
    /** `a[p + d] * a[p]`: one component's product at separation `d`. */
    | Lagged(a: Array3, dx: int, dy: int, dz: int)
    /** `x[p + d] * x[p] + y[p + d] * y[p] + z[p + d] * z[p]`: the dot product of a vector field with its shifted self. */
    | LaggedDot(x: Array3, y: Array3, z: Array3, dx: int, dy: int, dz: int)
    /** `v` for every `p` whose shifted index `p + d` is still inside `box`. */
    | Overlap(box: Shape, dx: int, dy: int, dz: int, v: real)

  /** The index box the sum ranges over. */
  function Box(t: Summand): Shape {
    match t
    case Lagged(a, _, _, _) => a.shape
    case LaggedDot(x, _, _, _, _, _) => x.shape
    case Overlap(s, _, _, _, _) => s
  }

  /** Both `p` and `p + d` lie inside an array of shape `s` (zero padding drops every other pair). */
  predicate Pair(s: Shape, i: int, j: int, k: int, dx: int, dy: int, dz: int) {
    InBox(s, i, j, k) && InBox(s, i + dx, j + dy, k + dz)
  }

  /** Three valid arrays of one shape. */
  predicate SameShape3(x: Array3, y: Array3, z: Array3) {
    x.Valid() && y.Valid() && z.Valid() && x.shape == y.shape && y.shape == z.shape
  }

  function Term(t: Summand, i: int, j: int, k: int): real {
    match t
    case Lagged(a, dx, dy, dz) =>
      if a.Valid() && Pair(a.shape, i, j, k, dx, dy, dz)
      then a.At(i + dx, j + dy, k + dz) * a.At(i, j, k) else 0.0
    case LaggedDot(x, y, z, dx, dy, dz) =>
      if SameShape3(x, y, z) && Pair(x.shape, i, j, k, dx, dy, dz)
      then x.At(i + dx, j + dy, k + dz) * x.At(i, j, k)
         + y.At(i + dx, j + dy, k + dz) * y.At(i, j, k)
         + z.At(i + dx, j + dy, k + dz) * z.At(i, j, k)
      else 0.0
    case Overlap(s, dx, dy, dz, v) =>
      if Pair(s, i, j, k, dx, dy, dz) then v else 0.0
  }

  /** Sum of `Term(t, i, j, k)` over `k < n`. */
  function SumK(t: Summand, i: int, j: int, n: nat): real {
    if n == 0 then 0.0 else SumK(t, i, j, n - 1) + Term(t, i, j, n - 1)
  }

  /** Sum over `j < n` of the full `k` sums. */
  function SumJ(t: Summand, i: int, n: nat): real {
    if n == 0 then 0.0 else SumJ(t, i, n - 1) + SumK(t, i, n - 1, Box(t).nz)
  }

  /** Sum over `i < n` of the full `j` sums. */
  function SumI(t: Summand, n: nat): real {
    if n == 0 then 0.0 else SumI(t, n - 1) + SumJ(t, n - 1, Box(t).ny)
  }

  /** The sum of the term over the whole index box. */
  function Total(t: Summand): real {
    SumI(t, Box(t).nx)
  }

  // ------------------------------------------------------------------ linearity

  lemma {:induction false} SumKLinear(t: Summand, a: Summand, b: Summand, c: Summand, i: int, j: int, n: nat)
    requires forall k | 0 <= k < n :: Term(t, i, j, k) == Term(a, i, j, k) + Term(b, i, j, k) + Term(c, i, j, k)
    ensures SumK(t, i, j, n) == SumK(a, i, j, n) + SumK(b, i, j, n) + SumK(c, i, j, n)
  {
    if n > 0 { SumKLinear(t, a, b, c, i, j, n - 1); }
  }

  lemma {:induction false} SumJLinear(t: Summand, a: Summand, b: Summand, c: Summand, i: int, n: nat)
    requires Box(t).nz == Box(a).nz == Box(b).nz == Box(c).nz
    requires forall j, k | 0 <= j < n && 0 <= k < Box(t).nz ::
      Term(t, i, j, k) == Term(a, i, j, k) + Term(b, i, j, k) + Term(c, i, j, k)
    ensures SumJ(t, i, n) == SumJ(a, i, n) + SumJ(b, i, n) + SumJ(c, i, n)
  {
    if n > 0 {
      SumJLinear(t, a, b, c, i, n - 1);
      SumKLinear(t, a, b, c, i, n - 1, Box(t).nz);
    }
  }

  lemma {:induction false} SumILinear(t: Summand, a: Summand, b: Summand, c: Summand, n: nat)
    requires n <= Box(t).nx && Box(t) == Box(a) == Box(b) == Box(c)
    requires forall i, j, k | 0 <= i < n && InBox(Box(t), i, j, k) ::
      Term(t, i, j, k) == Term(a, i, j, k) + Term(b, i, j, k) + Term(c, i, j, k)
    ensures SumI(t, n) == SumI(a, n) + SumI(b, n) + SumI(c, n)
  {
    if n > 0 {
      SumILinear(t, a, b, c, n - 1);
      var m := n - 1;
      forall j, k | 0 <= j < Box(t).ny && 0 <= k < Box(t).nz
        ensures Term(t, m, j, k) == Term(a, m, j, k) + Term(b, m, j, k) + Term(c, m, j, k)
      {
        assert InBox(Box(t), m, j, k);
      }
      SumJLinear(t, a, b, c, n - 1, Box(t).ny);
    }
  }

  /** A sum whose term is, index by index, the sum of three terms is the sum of their sums. */
  lemma TotalLinear(t: Summand, a: Summand, b: Summand, c: Summand)
    requires Box(t) == Box(a) == Box(b) == Box(c)
    requires forall i, j, k | InBox(Box(t), i, j, k) ::
      Term(t, i, j, k) == Term(a, i, j, k) + Term(b, i, j, k) + Term(c, i, j, k)
    ensures Total(t) == Total(a) + Total(b) + Total(c)
  {
    SumILinear(t, a, b, c, Box(t).nx);
  }

  // ------------------------------------------------------------------ sign

  lemma {:induction false} SumKNonnegative(t: Summand, i: int, j: int, n: nat)
    requires forall k | 0 <= k < n :: Term(t, i, j, k) >= 0.0
    ensures SumK(t, i, j, n) >= 0.0
    ensures SumK(t, i, j, n) == 0.0 ==> forall k | 0 <= k < n :: Term(t, i, j, k) == 0.0
  {
    if n > 0 { SumKNonnegative(t, i, j, n - 1); }
  }

  lemma {:induction false} SumJNonnegative(t: Summand, i: int, n: nat)
    requires forall j, k | 0 <= j < n && 0 <= k < Box(t).nz :: Term(t, i, j, k) >= 0.0
    ensures SumJ(t, i, n) >= 0.0
    ensures SumJ(t, i, n) == 0.0 ==> forall j, k | 0 <= j < n && 0 <= k < Box(t).nz :: Term(t, i, j, k) == 0.0
  {
    if n > 0 {
      SumJNonnegative(t, i, n - 1);
      SumKNonnegative(t, i, n - 1, Box(t).nz);
    }
  }

  lemma {:induction false} SumINonnegative(t: Summand, n: nat)
    requires n <= Box(t).nx
    requires forall i, j, k | 0 <= i < n && InBox(Box(t), i, j, k) :: Term(t, i, j, k) >= 0.0
    ensures SumI(t, n) >= 0.0
    ensures SumI(t, n) == 0.0 ==> forall i, j, k | 0 <= i < n && InBox(Box(t), i, j, k) :: Term(t, i, j, k) == 0.0
  {
    if n > 0 {
      SumINonnegative(t, n - 1);
      var m := n - 1;
      forall j, k | 0 <= j < Box(t).ny && 0 <= k < Box(t).nz ensures Term(t, m, j, k) >= 0.0 {
        assert InBox(Box(t), m, j, k);
      }
      SumJNonnegative(t, n - 1, Box(t).ny);
    }
  }

  /** A sum of non-negative terms is non-negative, and is zero only if every term is. */
  lemma TotalNonnegative(t: Summand)
    requires forall i, j, k | InBox(Box(t), i, j, k) :: Term(t, i, j, k) >= 0.0
    ensures Total(t) >= 0.0
    ensures Total(t) == 0.0 ==> forall i, j, k | InBox(Box(t), i, j, k) :: Term(t, i, j, k) == 0.0
  {
    SumINonnegative(t, Box(t).nx);
  }

  lemma {:induction false} SumKZero(t: Summand, i: int, j: int, n: nat)
    requires forall k | 0 <= k < n :: Term(t, i, j, k) == 0.0
    ensures SumK(t, i, j, n) == 0.0
  {
    if n > 0 { SumKZero(t, i, j, n - 1); }
  }

  lemma {:induction false} SumJZero(t: Summand, i: int, n: nat)
    requires forall j, k | 0 <= j < n && 0 <= k < Box(t).nz :: Term(t, i, j, k) == 0.0
    ensures SumJ(t, i, n) == 0.0
  {
    if n > 0 {
      SumJZero(t, i, n - 1);
      SumKZero(t, i, n - 1, Box(t).nz);
    }
  }

  /** A sum of zero terms is zero. */
  lemma {:induction false} TotalZero(t: Summand, n: nat)
    requires n <= Box(t).nx
    requires forall i, j, k | 0 <= i < n && InBox(Box(t), i, j, k) :: Term(t, i, j, k) == 0.0
    ensures SumI(t, n) == 0.0
  {
    if n > 0 {
      TotalZero(t, n - 1);
      SumJZero(t, n - 1, Box(t).ny);
    }
  }

  // ------------------------------------------------------------------ counting overlaps

  /** Number of `k < n` with both `k` and `k + d` in `[0, size)`. */
  function Hits(n: nat, size: nat, d: int): nat {
    if n == 0 then 0
    else Hits(n - 1, size, d) + (if 0 <= n - 1 < size && 0 <= n - 1 + d < size then 1 else 0)
  }

  /** Number of positions of an axis of length `size` that stay on the axis when shifted by `d`: `max(0, size - |d|)`. */
  function Overlap1(size: nat, d: int): nat {
    if d >= 0 then (if d < size then size - d else 0)
    else (if -d < size then size + d else 0)
  }

  function Max(a: int, b: int): int { if a >= b then a else b }
  function Min(a: int, b: int): int { if a <= b then a else b }

  lemma {:induction false} HitsClosedForm(n: nat, size: nat, d: int)
    requires n <= size
    ensures Hits(n, size, d) == Max(0, Min(n, size - d) - Max(0, -d))
  {
    if n > 0 { HitsClosedForm(n - 1, size, d); }
  }

  /** Counting along a whole axis gives the overlap length. */
  lemma HitsFullAxis(size: nat, d: int)
    ensures Hits(size, size, d) == Overlap1(size, d)
  {
    HitsClosedForm(size, size, d);
  }

  /** `x` added up `n` times. */
  function Times(x: real, n: nat): real {
    if n == 0 then 0.0 else Times(x, n - 1) + x
  }

  /** Repeated addition is multiplication. */
  lemma {:induction false} TimesIsProduct(x: real, n: nat)
    ensures Times(x, n) == x * (n as real)
  {
    if n > 0 {
      TimesIsProduct(x, n - 1);
      assert x * ((n - 1) as real) + x == x * (n as real);
    }
  }

  /** A sum of copies of `x` can only be positive when `x` is. */
  lemma {:induction false} TimesPositiveFactor(x: real, n: nat)
    requires Times(x, n) > 0.0
    ensures x > 0.0
  {
    if x <= 0.0 { TimesNonpositive(x, n); }
  }

  lemma {:induction false} TimesNonpositive(x: real, n: nat)
    requires x <= 0.0
    ensures Times(x, n) <= 0.0
  {
    if n > 0 { TimesNonpositive(x, n - 1); }
  }

  /** Adding a positive value up more times gives more. */
  lemma {:induction false} TimesStrictlyMonotone(x: real, m: nat, n: nat)
    requires x > 0.0 && m < n
    ensures Times(x, m) < Times(x, n)
  {
    if m < n - 1 { TimesStrictlyMonotone(x, m, n - 1); }
  }

  /** `v` summed along one `k` row: `v` times the count of `k` positions. */
  function RowWeight(s: Shape, dz: int, v: real): real {
    Times(v, Hits(s.nz, s.nz, dz))
  }

  /** `v` summed over one `(j, k)` plane. */
  function PlaneWeight(s: Shape, dy: int, dz: int, v: real): real {
    Times(RowWeight(s, dz, v), Hits(s.ny, s.ny, dy))
  }

  /** The `k` sum of an overlap term is `v` times the count of `k` positions, when `i` and `j` pair up. */
  lemma {:induction false} SumKOverlap(s: Shape, dx: int, dy: int, dz: int, v: real, i: int, j: int, n: nat)
    ensures SumK(Overlap(s, dx, dy, dz, v), i, j, n)
         == if 0 <= i < s.nx && 0 <= i + dx < s.nx && 0 <= j < s.ny && 0 <= j + dy < s.ny
            then Times(v, Hits(n, s.nz, dz)) else 0.0
  {
    if n > 0 {
      SumKOverlap(s, dx, dy, dz, v, i, j, n - 1);
    }
  }

  lemma {:induction false} SumJOverlap(s: Shape, dx: int, dy: int, dz: int, v: real, i: int, n: nat)
    ensures SumJ(Overlap(s, dx, dy, dz, v), i, n)
         == if 0 <= i < s.nx && 0 <= i + dx < s.nx then Times(RowWeight(s, dz, v), Hits(n, s.ny, dy)) else 0.0
  {
    if n > 0 {
      SumJOverlap(s, dx, dy, dz, v, i, n - 1);
      SumKOverlap(s, dx, dy, dz, v, i, n - 1, s.nz);
    }
  }

  lemma {:induction false} SumIOverlap(s: Shape, dx: int, dy: int, dz: int, v: real, n: nat)
    ensures SumI(Overlap(s, dx, dy, dz, v), n) == Times(PlaneWeight(s, dy, dz, v), Hits(n, s.nx, dx))
  {
    if n > 0 {
      SumIOverlap(s, dx, dy, dz, v, n - 1);
      SumJOverlap(s, dx, dy, dz, v, n - 1, s.ny);
    }
  }

  /** Summing `v` over the overlapping positions gives `v` times the product of the per-axis overlaps. */
  lemma TotalOverlap(s: Shape, dx: int, dy: int, dz: int, v: real)
    ensures Total(Overlap(s, dx, dy, dz, v))
         == Times(Times(Times(v, Overlap1(s.nz, dz)), Overlap1(s.ny, dy)), Overlap1(s.nx, dx))
  {
    SumIOverlap(s, dx, dy, dz, v, s.nx);
    HitsFullAxis(s.nx, dx);
    HitsFullAxis(s.ny, dy);
    HitsFullAxis(s.nz, dz);
  }

  /** Two sums over one box whose terms agree index by index are equal. */
  lemma TotalCongruent(t: Summand, u: Summand)
    requires Box(t) == Box(u)
    requires forall i, j, k | InBox(Box(t), i, j, k) :: Term(t, i, j, k) == Term(u, i, j, k)
    ensures Total(t) == Total(u)
  {
    var zero := Overlap(Box(t), 0, 0, 0, 0.0);
    TotalZero(zero, Box(t).nx);
    TotalLinear(t, u, zero, zero);
  }
}
