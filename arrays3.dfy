/**
  Dense three-dimensional arrays of reals: the numpy arrays the correlation
  pipeline reads from a snapshot and computes with. An array carries its shape
  explicitly, so an array with an empty axis still knows its other extents.
 */
module Arrays3 {

  datatype Shape = Shape(nx: nat, ny: nat, nz: nat)

  /** `(i, j, k)` is an index of an array of shape `s`. */
  predicate InBox(s: Shape, i: int, j: int, k: int) {
    0 <= i < s.nx && 0 <= j < s.ny && 0 <= k < s.nz
  }

  /** The shape with its axis order reversed, as `np.transpose(a, (2, 1, 0))` gives it. */
  function Reversed(s: Shape): Shape {
    Shape(s.nz, s.ny, s.nx)
  }

  /** No axis is empty. */
  predicate NonEmpty(s: Shape) {
    s.nx > 0 && s.ny > 0 && s.nz > 0
  }

  /** `np.array(a.shape) // 2`: the index every component uses as zero separation. */
  function CenterX(s: Shape): nat { s.nx / 2 }
  function CenterY(s: Shape): nat { s.ny / 2 }
  function CenterZ(s: Shape): nat { s.nz / 2 }

  lemma CenterInBox(s: Shape)
    requires NonEmpty(s)
    ensures InBox(s, CenterX(s), CenterY(s), CenterZ(s))
  {
  }

  datatype Array3 = Array3(shape: Shape, cells: seq<seq<seq<real>>>) {

    /** The nested cells have exactly the extents the shape names. */
    predicate Valid() {
      && |cells| == shape.nx
      && (forall i | 0 <= i < |cells| :: |cells[i]| == shape.ny)
      && (forall i, j | 0 <= i < |cells| && 0 <= j < |cells[i]| :: |cells[i][j]| == shape.nz)
    }

    function At(i: int, j: int, k: int): real
      requires Valid() && InBox(shape, i, j, k)
    {
      cells[i][j][k]
    }

    /** The value at the centre index. */
    function Center(): real
      requires Valid() && NonEmpty(shape)
    {
      At(CenterX(shape), CenterY(shape), CenterZ(shape))
    }
  }

  /** The array of shape `s` whose value at each index is `f` of that index. */
  function Build(s: Shape, f: (int, int, int) -> real): (r: Array3)
    ensures r.Valid() && r.shape == s
    ensures forall i, j, k | InBox(s, i, j, k) :: r.At(i, j, k) == f(i, j, k)
  {
    Array3(s, BuildRows(s, f, s.nx))
  }

  function BuildRows(s: Shape, f: (int, int, int) -> real, n: nat): (rows: seq<seq<seq<real>>>)
    ensures |rows| == n
    ensures forall i | 0 <= i < n :: |rows[i]| == s.ny
    ensures forall i, j | 0 <= i < n && 0 <= j < s.ny :: |rows[i][j]| == s.nz
    ensures forall i, j, k | 0 <= i < n && 0 <= j < s.ny && 0 <= k < s.nz :: rows[i][j][k] == f(i, j, k)
  {
    if n == 0 then [] else BuildRows(s, f, n - 1) + [BuildPlane(s, f, n - 1, s.ny)]
  }

  function BuildPlane(s: Shape, f: (int, int, int) -> real, i: int, n: nat): (plane: seq<seq<real>>)
    ensures |plane| == n
    ensures forall j | 0 <= j < n :: |plane[j]| == s.nz
    ensures forall j, k | 0 <= j < n && 0 <= k < s.nz :: plane[j][k] == f(i, j, k)
  {
    if n == 0 then [] else BuildPlane(s, f, i, n - 1) + [BuildLine(s, f, i, n - 1, s.nz)]
  }

  function BuildLine(s: Shape, f: (int, int, int) -> real, i: int, j: int, n: nat): (line: seq<real>)
    ensures |line| == n
    ensures forall k | 0 <= k < n :: line[k] == f(i, j, k)
  {
    if n == 0 then [] else BuildLine(s, f, i, j, n - 1) + [f(i, j, n - 1)]
  }

  /** Two valid arrays with the same shape and the same values are the same array. */
  lemma Extensionality(a: Array3, b: Array3)
    requires a.Valid() && b.Valid() && a.shape == b.shape
    requires forall i, j, k | InBox(a.shape, i, j, k) :: a.At(i, j, k) == b.At(i, j, k)
    ensures a == b
  {
    forall i | 0 <= i < a.shape.nx ensures a.cells[i] == b.cells[i] {
      forall j | 0 <= j < a.shape.ny ensures a.cells[i][j] == b.cells[i][j] {
        assert |a.cells[i][j]| == |b.cells[i][j]| == a.shape.nz;
        forall k | 0 <= k < a.shape.nz ensures a.cells[i][j][k] == b.cells[i][j][k] {
          assert a.At(i, j, k) == b.At(i, j, k);
        }
      }
    }
  }

  /** `np.transpose(a, (2, 1, 0))`: the native (z, y, x) layout read as (x, y, z). */
  function Transpose(a: Array3): (r: Array3)
    requires a.Valid()
    ensures r.Valid() && r.shape == Reversed(a.shape)
    ensures forall i, j, k | InBox(r.shape, i, j, k) :: r.At(i, j, k) == a.At(k, j, i)
  {
    Build(Reversed(a.shape), (i, j, k) => if InBox(a.shape, k, j, i) then a.At(k, j, i) else 0.0)
  }

  /** Transposing twice gives back the original array. */
  lemma TransposeInvolution(a: Array3)
    requires a.Valid()
    ensures Transpose(Transpose(a)) == a
  {
    var t := Transpose(a);
    var tt := Transpose(t);
    forall i, j, k | InBox(a.shape, i, j, k) ensures tt.At(i, j, k) == a.At(i, j, k) {
      assert tt.At(i, j, k) == t.At(k, j, i);
    }
    Extensionality(tt, a);
  }

  /** `a + b + c` for arrays of one shape. */
  function Add3(a: Array3, b: Array3, c: Array3): (r: Array3)
    requires a.Valid() && b.Valid() && c.Valid()
    requires a.shape == b.shape == c.shape
    ensures r.Valid() && r.shape == a.shape
    ensures forall i, j, k | InBox(a.shape, i, j, k) :: r.At(i, j, k) == a.At(i, j, k) + b.At(i, j, k) + c.At(i, j, k)
  {
    Build(a.shape, (i, j, k) => if InBox(a.shape, i, j, k) then a.At(i, j, k) + b.At(i, j, k) + c.At(i, j, k) else 0.0)
  }

  /** `a / d` for a non-zero divisor. */
  function Divide(a: Array3, d: real): (r: Array3)
    requires a.Valid() && d != 0.0
    ensures r.Valid() && r.shape == a.shape
    ensures forall i, j, k | InBox(a.shape, i, j, k) :: r.At(i, j, k) == a.At(i, j, k) / d
  {
    Build(a.shape, (i, j, k) => if InBox(a.shape, i, j, k) then a.At(i, j, k) / d else 0.0)
  }
}
