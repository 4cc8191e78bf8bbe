/**
  Properties of the per-snapshot correlation cube: where zero separation sits,
  what the centre value is, the vector cube as a dot-product lag sum, when the
  normalisation is defined, and what it gives for a constant field.
 */
module AutocorrelationFacts {
  import opened Arrays3
  import opened LagSums
  import opened Autocorrelation

  /** The centre index of a non-empty array stands for zero separation on every axis. */
  lemma CentreIsZeroLag(s: Shape)
    requires NonEmpty(s)
    ensures Lag(CenterX(s), s.nx) == 0 && Lag(CenterY(s), s.ny) == 0 && Lag(CenterZ(s), s.nz) == 0
  {
  }

  /** A field that is zero everywhere has an autocorrelation that is zero everywhere. */
  lemma AutocorrelateOfZero(a: Array3)
    requires a.Valid() && AllZero(a)
    ensures AllZero(Autocorrelate(a))
  {
    forall i, j, k | InBox(a.shape, i, j, k) ensures Autocorrelate(a).At(i, j, k) == 0.0 {
      TotalZero(LagTerm(a, i, j, k), a.shape.nx);
    }
  }

  lemma SquareNonnegative(x: real)
    ensures x * x >= 0.0
    ensures x != 0.0 ==> x * x > 0.0
  {
    if x > 0.0 {
      assert x * x > 0.0;
    } else if x < 0.0 {
      var y := -x;
      assert y * y > 0.0;
      assert x * x == y * y;
    }
  }

  /** Each zero-lag term is a square: non-negative, and zero only where the field is. */
  lemma EnergyTerms(a: Array3)
    requires a.Valid()
    ensures forall i, j, k | InBox(a.shape, i, j, k) :: Term(Lagged(a, 0, 0, 0), i, j, k) >= 0.0
    ensures (forall i, j, k | InBox(a.shape, i, j, k) :: Term(Lagged(a, 0, 0, 0), i, j, k) == 0.0) <==> AllZero(a)
  {
    var t := Lagged(a, 0, 0, 0);
    forall i, j, k | InBox(a.shape, i, j, k)
      ensures Term(t, i, j, k) >= 0.0
      ensures Term(t, i, j, k) == 0.0 <==> a.At(i, j, k) == 0.0
    {
      assert Term(t, i, j, k) == a.At(i, j, k) * a.At(i, j, k);
      SquareNonnegative(a.At(i, j, k));
    }
  }

  /** The zero-lag sum `sum a[q] * a[q]` is non-negative, and zero exactly when the field is zero everywhere. */
  lemma EnergySum(a: Array3)
    requires a.Valid()
    ensures Total(Lagged(a, 0, 0, 0)) >= 0.0
    ensures Total(Lagged(a, 0, 0, 0)) == 0.0 <==> AllZero(a)
  {
    var t := Lagged(a, 0, 0, 0);
    EnergyTerms(a);
    TotalNonnegative(t);
    if AllZero(a) {
      TotalZero(t, a.shape.nx);
    }
  }

  /** The centre entry of the autocorrelation is the zero-separation sum. */
  lemma CentreIsZeroLagSum(a: Array3)
    requires a.Valid() && NonEmpty(a.shape)
    ensures Autocorrelate(a).Center() == Total(Lagged(a, 0, 0, 0))
  {
    CentreEntry(a);
    CentreTermIsZeroLag(a);
  }

  lemma CentreEntry(a: Array3)
    requires a.Valid() && NonEmpty(a.shape)
    ensures Autocorrelate(a).Center() == Total(LagTerm(a, CenterX(a.shape), CenterY(a.shape), CenterZ(a.shape)))
  {
    CenterInBox(a.shape);
  }

  lemma CentreTermIsZeroLag(a: Array3)
    requires NonEmpty(a.shape)
    ensures Total(LagTerm(a, CenterX(a.shape), CenterY(a.shape), CenterZ(a.shape))) == Total(Lagged(a, 0, 0, 0))
  {
    assert LagTerm(a, CenterX(a.shape), CenterY(a.shape), CenterZ(a.shape)) == Lagged(a, 0, 0, 0);
  }

  /**
    The zero-lag value is the energy `sum a[q]^2` of the field: never negative,
    and zero exactly when the field is zero everywhere.
   */
  lemma CentreIsEnergy(a: Array3)
    requires a.Valid() && NonEmpty(a.shape)
    ensures Autocorrelate(a).Center() >= 0.0
    ensures Autocorrelate(a).Center() == 0.0 <==> AllZero(a)
  {
    CentreIsZeroLagSum(a);
    EnergySum(a);
  }

  /** The three-component sum is the lag sum of the dot product `v(q + m) . v(q)` of the vector field with itself. */
  lemma VectorIsDotProduct(x: Array3, y: Array3, z: Array3, i: int, j: int, k: int)
    requires SameShape3(x, y, z) && InBox(x.shape, i, j, k)
    ensures VectorAutocorrelate(x, y, z).At(i, j, k)
         == Total(LaggedDot(x, y, z, Lag(i, x.shape.nx), Lag(j, x.shape.ny), Lag(k, x.shape.nz)))
  {
    var s := x.shape;
    DotSumSplits(x, y, z, Lag(i, s.nx), Lag(j, s.ny), Lag(k, s.nz));
  }

  /** The dot-product lag sum is the sum of the three per-component lag sums. */
  lemma DotSumSplits(x: Array3, y: Array3, z: Array3, dx: int, dy: int, dz: int)
    requires SameShape3(x, y, z)
    ensures Total(LaggedDot(x, y, z, dx, dy, dz))
         == Total(Lagged(x, dx, dy, dz)) + Total(Lagged(y, dx, dy, dz)) + Total(Lagged(z, dx, dy, dz))
  {
    TotalLinear(LaggedDot(x, y, z, dx, dy, dz), Lagged(x, dx, dy, dz), Lagged(y, dx, dy, dz), Lagged(z, dx, dy, dz));
  }

  /** The zero-lag value of a vector field is its total `|v|^2`: never negative, and zero exactly when every component is zero. */
  lemma VectorCentreIsEnergy(x: Array3, y: Array3, z: Array3)
    requires SameShape3(x, y, z) && NonEmpty(x.shape)
    ensures VectorAutocorrelate(x, y, z).Center() >= 0.0
    ensures VectorAutocorrelate(x, y, z).Center() == 0.0 <==> (AllZero(x) && AllZero(y) && AllZero(z))
  {
    CentreIsEnergy(x);
    CentreIsEnergy(y);
    CentreIsEnergy(z);
    VectorCentre(x, y, z);
  }

  lemma VectorCentre(x: Array3, y: Array3, z: Array3)
    requires SameShape3(x, y, z) && NonEmpty(x.shape)
    ensures VectorAutocorrelate(x, y, z).Center()
         == Autocorrelate(x).Center() + Autocorrelate(y).Center() + Autocorrelate(z).Center()
  {
    CenterInBox(x.shape);
  }

  /**
    The normalised autocorrelation of a field is undefined exactly when the field
    is zero everywhere, and in that case every entry divided is `0 / 0`.
   */
  lemma NormaliseUndefinedIffZero(a: Array3)
    requires a.Valid() && NonEmpty(a.shape)
    ensures Normalise(Autocorrelate(a)).NaNCube? <==> AllZero(a)
    ensures AllZero(a) ==> AllZero(Autocorrelate(a))
  {
    CentreIsEnergy(a);
    if AllZero(a) { AutocorrelateOfZero(a); }
  }

  /** Same for a vector field: undefined exactly when all three components are zero everywhere. */
  lemma VectorNormaliseUndefinedIffZero(x: Array3, y: Array3, z: Array3)
    requires SameShape3(x, y, z) && NonEmpty(x.shape)
    ensures Normalise(VectorAutocorrelate(x, y, z)).NaNCube? <==> (AllZero(x) && AllZero(y) && AllZero(z))
  {
    VectorCentreIsEnergy(x, y, z);
  }

  /** The lag sum of a field with the constant value `c` is `c^2` times the product of the per-axis overlaps. */
  lemma LagSumOfConstant(a: Array3, c: real, dx: int, dy: int, dz: int)
    requires a.Valid()
    requires forall i, j, k | InBox(a.shape, i, j, k) :: a.At(i, j, k) == c
    ensures Total(Lagged(a, dx, dy, dz))
         == Times(Times(Times(c * c, Overlap1(a.shape.nz, dz)), Overlap1(a.shape.ny, dy)), Overlap1(a.shape.nx, dx))
  {
    TotalCongruent(Lagged(a, dx, dy, dz), Overlap(a.shape, dx, dy, dz, c * c));
    TotalOverlap(a.shape, dx, dy, dz, c * c);
  }

  /** The autocorrelation of a field with the constant value `c` is `c^2` times the product of the per-axis overlaps. */
  lemma AutocorrelateOfConstant(a: Array3, c: real, i: int, j: int, k: int)
    requires a.Valid() && InBox(a.shape, i, j, k)
    requires forall i, j, k | InBox(a.shape, i, j, k) :: a.At(i, j, k) == c
    ensures Autocorrelate(a).At(i, j, k)
         == Times(Times(Times(c * c, Overlap1(a.shape.nz, Lag(k, a.shape.nz))), Overlap1(a.shape.ny, Lag(j, a.shape.ny))),
                  Overlap1(a.shape.nx, Lag(i, a.shape.nx)))
  {
    LagSumOfConstant(a, c, Lag(i, a.shape.nx), Lag(j, a.shape.ny), Lag(k, a.shape.nz));
  }

  /** The centre value for a field with the constant value `c` is `c^2 * nx * ny * nz`. */
  lemma CentreOfConstant(a: Array3, c: real)
    requires a.Valid() && NonEmpty(a.shape)
    requires forall i, j, k | InBox(a.shape, i, j, k) :: a.At(i, j, k) == c
    ensures Autocorrelate(a).Center() == Times(Times(Times(c * c, a.shape.nz), a.shape.ny), a.shape.nx)
  {
    CentreIsZeroLagSum(a);
    LagSumOfConstant(a, c, 0, 0, 0);
    assert Overlap1(a.shape.nx, 0) == a.shape.nx && Overlap1(a.shape.ny, 0) == a.shape.ny && Overlap1(a.shape.nz, 0) == a.shape.nz;
  }

  /** The normalised autocorrelation of a non-zero constant field is defined. */
  lemma NormalisedConstantIsFinite(a: Array3, c: real)
    requires a.Valid() && NonEmpty(a.shape) && c != 0.0
    requires forall i, j, k | InBox(a.shape, i, j, k) :: a.At(i, j, k) == c
    ensures Normalise(Autocorrelate(a)).Finite?
  {
    ConstantIsNotZero(a, c);
    CentreIsEnergy(a);
  }

  lemma ConstantCentrePositive(a: Array3, c: real)
    requires a.Valid() && NonEmpty(a.shape) && c != 0.0
    requires forall i, j, k | InBox(a.shape, i, j, k) :: a.At(i, j, k) == c
    ensures Autocorrelate(a).Center() > 0.0
  {
    ConstantIsNotZero(a, c);
    CentreIsEnergy(a);
  }

  lemma ConstantIsNotZero(a: Array3, c: real)
    requires a.Valid() && NonEmpty(a.shape) && c != 0.0
    requires forall i, j, k | InBox(a.shape, i, j, k) :: a.At(i, j, k) == c
    ensures !AllZero(a)
  {
    var s := a.shape;
    CenterInBox(s);
    assert a.At(CenterX(s), CenterY(s), CenterZ(s)) == c;
  }

  /**
    A constant non-zero field does not give a cube of ones: the lag sum is
    zero-padded, so at the lowest x index (lag -nx/2) only nx - nx/2 of the nx
    planes overlap, and the normalised value there falls short of 1.
   */
  lemma ConstantFieldNotAllOnes(a: Array3, c: real)
    requires a.Valid() && NonEmpty(a.shape) && a.shape.nx >= 2 && c != 0.0
    requires forall i, j, k | InBox(a.shape, i, j, k) :: a.At(i, j, k) == c
    ensures Normalise(Autocorrelate(a)).Finite?
    ensures Normalise(Autocorrelate(a)).cube.At(0, CenterY(a.shape), CenterZ(a.shape)) != 1.0
  {
    var s := a.shape;
    ConstantCentrePositive(a, c);
    CentreOfConstant(a, c);
    AutocorrelateOfConstant(a, c, 0, CenterY(s), CenterZ(s));
    EdgePlaneWeight(s, c * c);
    var r := Autocorrelate(a);
    QuotientBelowOne(Normalise(r).cube.At(0, CenterY(s), CenterZ(s)), r.At(0, CenterY(s), CenterZ(s)), r.Center());
  }

  lemma QuotientBelowOne(x: real, value: real, centre: real)
    requires centre > 0.0 && value < centre && x == value / centre
    ensures x != 1.0
  {
  }

  /** At the lowest x index and the central y and z, fewer planes overlap than at the centre. */
  lemma EdgePlaneWeight(s: Shape, w: real)
    requires NonEmpty(s) && s.nx >= 2
    requires Times(Times(Times(w, s.nz), s.ny), s.nx) > 0.0
    ensures Times(Times(Times(w, Overlap1(s.nz, Lag(CenterZ(s), s.nz))), Overlap1(s.ny, Lag(CenterY(s), s.ny))), Overlap1(s.nx, Lag(0, s.nx)))
          < Times(Times(Times(w, s.nz), s.ny), s.nx)
  {
    assert Overlap1(s.nz, Lag(CenterZ(s), s.nz)) == s.nz;
    assert Overlap1(s.ny, Lag(CenterY(s), s.ny)) == s.ny;
    assert Overlap1(s.nx, Lag(0, s.nx)) == s.nx - s.nx / 2 < s.nx;
    TimesPositiveFactor(Times(Times(w, s.nz), s.ny), s.nx);
    TimesStrictlyMonotone(Times(Times(w, s.nz), s.ny), s.nx - s.nx / 2, s.nx);
  }
}
