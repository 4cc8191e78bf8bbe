/**
  The per-snapshot correlation cube: `scipy.signal.correlate(f, f, mode='same')`
  written out as its zero-padded lag sum, the component sum used for vector
  fields, and the division by the zero-lag value. The properties of these
  definitions are proved in module `AutocorrelationFacts`.
 */
module Autocorrelation {
  import opened Arrays3
  import opened LagSums

  /** The separation that output index `i` stands for on an axis of length `n`: zero separation sits at `n / 2`. */
  function Lag(i: int, n: nat): int {
    i - n / 2
  }

  /** The lag sum of `a` with itself for the separation that index `(i, j, k)` stands for. */
  function LagTerm(a: Array3, i: int, j: int, k: int): Summand {
    Lagged(a, Lag(i, a.shape.nx), Lag(j, a.shape.ny), Lag(k, a.shape.nz))
  }

  /**
    `signal.correlate(a, a, mode='same')`: a cube of the input's shape whose
    entry at index `p` is the sum, over every `q` with `q` and `q + m` inside
    the array, of `a[q + m] * a[q]`, where `m` is the separation `p` stands for.
   */
  function Autocorrelate(a: Array3): (r: Array3)
    requires a.Valid()
    ensures r.Valid() && r.shape == a.shape
    ensures forall i, j, k | InBox(a.shape, i, j, k) :: r.At(i, j, k) == Total(LagTerm(a, i, j, k))
  {
    Build(a.shape, (i, j, k) => Total(LagTerm(a, i, j, k)))
  }

  /** `corr_x + corr_y + corr_z`: the sum of the three per-component autocorrelations. */
  function VectorAutocorrelate(x: Array3, y: Array3, z: Array3): (r: Array3)
    requires SameShape3(x, y, z)
    ensures r.Valid() && r.shape == x.shape
    ensures forall i, j, k | InBox(x.shape, i, j, k) ::
      r.At(i, j, k) == Autocorrelate(x).At(i, j, k) + Autocorrelate(y).At(i, j, k) + Autocorrelate(z).At(i, j, k)
  {
    Add3(Autocorrelate(x), Autocorrelate(y), Autocorrelate(z))
  }

  /** A field is zero everywhere. */
  ghost predicate AllZero(a: Array3)
    requires a.Valid()
  {
    forall i, j, k | InBox(a.shape, i, j, k) :: a.At(i, j, k) == 0.0
  }

  /** The outcome of dividing a cube by its centre value. */
  datatype Normalised =
    /** The cube divided by a non-zero centre value. */
    | Finite(cube: Array3)
    /** The centre value was zero: for an autocorrelation every entry is then `0 / 0`, which numpy turns into NaN. */
    | NaNCube(shape: Shape)

  /** `corr / corr[nx // 2, ny // 2, nz // 2]`. */
  function Normalise(r: Array3): (n: Normalised)
    requires r.Valid() && NonEmpty(r.shape)
    ensures n.Finite? <==> r.Center() != 0.0
    ensures n.Finite? ==> n.cube.Valid() && n.cube.shape == r.shape && n.cube.Center() == 1.0
    ensures n.Finite? ==> forall i, j, k | InBox(r.shape, i, j, k) :: n.cube.At(i, j, k) == r.At(i, j, k) / r.Center()
    ensures n.NaNCube? ==> n.shape == r.shape
  {
    var c := r.Center();
    if c == 0.0 then NaNCube(r.shape)
    else
      DividedCentreIsOne(r);
      Finite(Divide(r, c))
  }

  /** Dividing a cube by its non-zero centre value puts 1 at the centre. */
  lemma DividedCentreIsOne(r: Array3)
    requires r.Valid() && NonEmpty(r.shape) && r.Center() != 0.0
    ensures Divide(r, r.Center()).Center() == 1.0
  {
    var s := r.shape;
    CenterInBox(s);
    var c := r.Center();
    assert c == r.At(CenterX(s), CenterY(s), CenterZ(s));
    var x := Divide(r, c).At(CenterX(s), CenterY(s), CenterZ(s));
    assert x == r.At(CenterX(s), CenterY(s), CenterZ(s)) / c;
  }
}
