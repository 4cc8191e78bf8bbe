/**
  Which entries of the averaged cube reach the plots, and which physical
  extents and labels they are drawn against: the three central 2D cuts of
  `plot_2d_slices` and the three half-axis profiles of `plot_1d_slices`.
  Drawing itself is matplotlib's; only its index convention is modelled:
  `imshow(m, extent=[l, r, b, t])` runs the column index of `m` along the
  horizontal axis (from `l` to `r`) and the row index along the vertical one.
 */
module Slices {
  import opened Arrays3
  import opened Autocorrelation

  datatype Axis = X | Y | Z

  /** The box lengths `Lx, Ly, Lz`. */
  datatype Lengths = Lengths(lx: real, ly: real, lz: real)

  function Length(len: Lengths, a: Axis): real {
    match a
    case X => len.lx
    case Y => len.ly
    case Z => len.lz
  }

  function Size(s: Shape, a: Axis): nat {
    match a
    case X => s.nx
    case Y => s.ny
    case Z => s.nz
  }

  /** `(np.array(corr.shape) // 2)[a]`. */
  function Centre(s: Shape, a: Axis): nat {
    Size(s, a) / 2
  }

  /** Coordinate `a` of an index triple. */
  function Component(q: (int, int, int), a: Axis): int {
    match a
    case X => q.0
    case Y => q.1
    case Z => q.2
  }

  // ------------------------------------------------------------------ 2D cuts

  /** An `imshow` extent `[left, right, bottom, top]`. */
  datatype Extent = Extent(left: real, right: real, bottom: real, top: real)

  /**
    One panel of `plot_2d_slices`: the axis held at its centre index, whether
    the cut is transposed before it is drawn, the extent, and the axes the
    horizontal and vertical labels name.
   */
  datatype Panel = Panel(cut: Axis, transposed: bool, extent: Extent, xlabel: Axis, ylabel: Axis)

  /** The index that runs along the rows of `corr[c, :, :]`, `corr[:, c, :]` or `corr[:, :, c]`. */
  function CutRows(cut: Axis): Axis {
    match cut
    case X => Y
    case Y => X
    case Z => X
  }

  /** The index that runs along the columns of the cut. */
  function CutColumns(cut: Axis): Axis {
    match cut
    case X => Z
    case Y => Z
    case Z => Y
  }

  /** The axis whose index runs down the rows of the drawn matrix: drawn vertically. */
  function RowAxis(p: Panel): Axis {
    if p.transposed then CutColumns(p.cut) else CutRows(p.cut)
  }

  /** The axis whose index runs along the columns of the drawn matrix: drawn horizontally. */
  function ColumnAxis(p: Panel): Axis {
    if p.transposed then CutRows(p.cut) else CutColumns(p.cut)
  }

  lemma PanelAxesDistinct(p: Panel)
    ensures RowAxis(p) != ColumnAxis(p) && RowAxis(p) != p.cut && ColumnAxis(p) != p.cut
  {
  }

  /** The index triple that holds `cut` at its centre and puts `r` on `rowAxis` and `c` on `colAxis`. */
  function Place(s: Shape, cut: Axis, rowAxis: Axis, colAxis: Axis, r: int, c: int): (q: (int, int, int))
    requires cut != rowAxis && cut != colAxis && rowAxis != colAxis
    ensures Component(q, cut) == Centre(s, cut)
    ensures Component(q, rowAxis) == r && Component(q, colAxis) == c
  {
    var cx := if cut == X then Centre(s, X) else if rowAxis == X then r else c;
    var cy := if cut == Y then Centre(s, Y) else if rowAxis == Y then r else c;
    var cz := if cut == Z then Centre(s, Z) else if rowAxis == Z then r else c;
    (cx, cy, cz)
  }

  /** The matrix a panel hands to `imshow`: the central cut, transposed if the panel says so. */
  function Image(corr: Array3, p: Panel): (m: seq<seq<real>>)
    requires corr.Valid() && NonEmpty(corr.shape)
    ensures |m| == Size(corr.shape, RowAxis(p))
    ensures forall r | 0 <= r < |m| :: |m[r]| == Size(corr.shape, ColumnAxis(p))
    ensures forall r, c | 0 <= r < |m| && 0 <= c < Size(corr.shape, ColumnAxis(p)) ::
      var q := Place(corr.shape, p.cut, RowAxis(p), ColumnAxis(p), r, c);
      InBox(corr.shape, q.0, q.1, q.2) && m[r][c] == corr.At(q.0, q.1, q.2)
  {
    var s := corr.shape;
    PanelAxesDistinct(p);
    var rows := Size(s, RowAxis(p));
    var cols := Size(s, ColumnAxis(p));
    seq(rows, r requires 0 <= r < rows =>
      seq(cols, c requires 0 <= c < cols =>
        var q := Place(s, p.cut, RowAxis(p), ColumnAxis(p), r, c);
        assert InBox(s, q.0, q.1, q.2) by { PlaceInBox(s, p, r, c); }
        corr.At(q.0, q.1, q.2)))
  }

  lemma PlaceInBox(s: Shape, p: Panel, r: int, c: int)
    requires NonEmpty(s) && 0 <= r < Size(s, RowAxis(p)) && 0 <= c < Size(s, ColumnAxis(p))
    requires p.cut != RowAxis(p) && p.cut != ColumnAxis(p) && RowAxis(p) != ColumnAxis(p)
    ensures var q := Place(s, p.cut, RowAxis(p), ColumnAxis(p), r, c); InBox(s, q.0, q.1, q.2)
  {
  }

  /** `[-L1/2, L1/2, -L2/2, L2/2]` for the horizontal axis `h` and the vertical axis `v`. */
  function Centred(len: Lengths, h: Axis, v: Axis): Extent {
    Extent(-Length(len, h) / 2.0, Length(len, h) / 2.0, -Length(len, v) / 2.0, Length(len, v) / 2.0)
  }

  /** The three panels of `plot_2d_slices` as written. */
  function PanelsAsWritten(len: Lengths): seq<Panel> {
    [ Panel(X, false, Extent(-len.ly / 2.0, len.ly / 2.0, -len.lz / 2.0, len.lz / 2.0), Y, Z),
      Panel(Y, false, Extent(-len.lx / 2.0, len.lx / 2.0, -len.lz / 2.0, len.lz / 2.0), X, Z),
      Panel(Z, true, Extent(-len.ly / 2.0, len.ly / 2.0, -len.lx / 2.0, len.lx / 2.0), Y, X) ]
  }

  /**
    As written, the panels cut x, y and z in turn; each extent is plus and
    minus half the box length of the axes its labels name, and only the z cut
    is transposed, with its extents swapped to y horizontal and x vertical.
   */
  lemma PanelsAsWrittenGeometry(len: Lengths)
    ensures |PanelsAsWritten(len)| == 3
    ensures PanelsAsWritten(len)[0].cut == X && PanelsAsWritten(len)[1].cut == Y && PanelsAsWritten(len)[2].cut == Z
    ensures forall p | p in PanelsAsWritten(len) :: p.extent == Centred(len, p.xlabel, p.ylabel)
    ensures forall p | p in PanelsAsWritten(len) :: p.transposed <==> p.cut == Z
    ensures PanelsAsWritten(len)[2].extent == Centred(len, Y, X)
  {
  }

  /**
    As written, every panel draws along its horizontal axis the index its
    vertical label names and the other way round: `imshow` puts columns
    horizontally, and each label pair assumes the rows are.
   */
  lemma PanelsAsWrittenSwapLabels(len: Lengths)
    ensures forall p | p in PanelsAsWritten(len) :: ColumnAxis(p) == p.ylabel && RowAxis(p) == p.xlabel
    ensures forall p | p in PanelsAsWritten(len) :: ColumnAxis(p) != p.xlabel
  {
  }

  /** The panels with each label naming the axis drawn there: the x and y cuts transposed, the z cut not. */
  function Panels(len: Lengths): seq<Panel> {
    [ Panel(X, true, Extent(-len.ly / 2.0, len.ly / 2.0, -len.lz / 2.0, len.lz / 2.0), Y, Z),
      Panel(Y, true, Extent(-len.lx / 2.0, len.lx / 2.0, -len.lz / 2.0, len.lz / 2.0), X, Z),
      Panel(Z, false, Extent(-len.ly / 2.0, len.ly / 2.0, -len.lx / 2.0, len.lx / 2.0), Y, X) ]
  }

  /**
    In the corrected panels the horizontal label names the axis whose index
    runs horizontally and the vertical label the one that runs vertically, the
    extents are half the box length of those axes either side of zero, and
    the labels and extents are the ones the source chose.
   */
  lemma PanelsLabelled(len: Lengths)
    ensures |Panels(len)| == 3
    ensures forall n | 0 <= n < 3 :: Panels(len)[n].cut == PanelsAsWritten(len)[n].cut
    ensures forall n | 0 <= n < 3 ::
      Panels(len)[n].extent == PanelsAsWritten(len)[n].extent
      && Panels(len)[n].xlabel == PanelsAsWritten(len)[n].xlabel
      && Panels(len)[n].ylabel == PanelsAsWritten(len)[n].ylabel
    ensures forall p | p in Panels(len) :: ColumnAxis(p) == p.xlabel && RowAxis(p) == p.ylabel
    ensures forall p | p in Panels(len) :: p.extent == Centred(len, ColumnAxis(p), RowAxis(p))
  {
  }

  // ------------------------------------------------------------------ 1D profiles

  /** `corr[cx:, cy, cz]` and its y and z counterparts: the profile from the centre to the last index along `a`. */
  function Profile(corr: Array3, a: Axis): (r: seq<real>)
    requires corr.Valid() && NonEmpty(corr.shape)
    ensures |r| == Size(corr.shape, a) - Size(corr.shape, a) / 2
    ensures forall d | 0 <= d < |r| :: r[d] == ProfileAt(corr, a, d)
  {
    var n := Size(corr.shape, a) - Size(corr.shape, a) / 2;
    seq(n, d requires 0 <= d < n => ProfileAt(corr, a, d))
  }

  /** The profile sample `d` cells past the centre along `a`. */
  function ProfileAt(corr: Array3, a: Axis, d: nat): (v: real)
    requires corr.Valid() && NonEmpty(corr.shape) && d < Size(corr.shape, a) - Size(corr.shape, a) / 2
    ensures var q := Along(corr.shape, a, Centre(corr.shape, a) + d);
      InBox(corr.shape, q.0, q.1, q.2) && v == corr.At(q.0, q.1, q.2)
  {
    var q := Along(corr.shape, a, Centre(corr.shape, a) + d);
    corr.At(q.0, q.1, q.2)
  }

  /** The index triple at the centre on every axis except `a`, where it is `p`. */
  function Along(s: Shape, a: Axis, p: int): (q: (int, int, int))
    ensures Component(q, a) == p
    ensures a != X ==> q.0 == Centre(s, X)
    ensures a != Y ==> q.1 == Centre(s, Y)
    ensures a != Z ==> q.2 == Centre(s, Z)
    ensures NonEmpty(s) && 0 <= p < Size(s, a) ==> InBox(s, q.0, q.1, q.2)
  {
    match a
    case X => (p, Centre(s, Y), Centre(s, Z))
    case Y => (Centre(s, X), p, Centre(s, Z))
    case Z => (Centre(s, X), Centre(s, Y), p)
  }

  /** `np.linspace(start, stop, num)`: `num` evenly spaced values, the last one exactly `stop`. */
  function Linspace(start: real, stop: real, num: nat): (r: seq<real>)
    ensures |r| == num
    ensures num > 0 ==> r[0] == start
    ensures num > 1 ==> r[num - 1] == stop
  {
    if num == 0 then []
    else if num == 1 then [start]
    else
      var step := (stop - start) / ((num - 1) as real);
      seq(num, k requires 0 <= k < num => if k == num - 1 then stop else start + (k as real) * step)
  }

  /** `np.linspace(0, L/2, N//2)`: the coordinates each profile is plotted against, as written. */
  function CoordinatesAsWritten(l: real, n: nat): (r: seq<real>)
    ensures |r| == n / 2
    ensures n >= 2 ==> r[0] == 0.0
    ensures n >= 4 ==> r[|r| - 1] == l / 2.0
  {
    Linspace(0.0, l / 2.0, n / 2)
  }

  /**
   * The coordinate count `n` is the root grid size `RootGridSize` along the axis, not the cube's own extent.
   * As written, the profile and its coordinates have the same length exactly when `n // 2` is the
   * number of samples from the centre on.
   */
  lemma ProfileLengthsAgree(corr: Array3, a: Axis, l: real, n: nat)
    requires corr.Valid() && NonEmpty(corr.shape)
    ensures |Profile(corr, a)| == |CoordinatesAsWritten(l, n)| <==>
      n / 2 == Size(corr.shape, a) - Size(corr.shape, a) / 2
  {
  }

  /**
   * On a root-resolution cube (the root grid size `n` equal to the cube's extent along the axis), the profile
   * and its coordinates as written have the same length exactly when that size is even.
   */
  lemma ProfileLengthsAgreeIffEven(corr: Array3, a: Axis, l: real, n: nat)
    requires corr.Valid() && NonEmpty(corr.shape) && n == Size(corr.shape, a)
    ensures |Profile(corr, a)| == |CoordinatesAsWritten(l, n)| <==> n % 2 == 0
  {
    ProfileLengthsAgree(corr, a, l, n);
  }

  /** On a 3-cell root-resolution axis the profile has two samples but only one coordinate, so `plt.plot` is handed unequal lengths. */
  lemma OddAxisProfileMismatch(corr: Array3, a: Axis, l: real, n: nat)
    requires corr.Valid() && NonEmpty(corr.shape) && n == Size(corr.shape, a) == 3
    ensures |Profile(corr, a)| == 2
    ensures |CoordinatesAsWritten(l, n)| == 1
  {
  }

  /** The separation that index `p` of an axis with `n` cells and length `l` stands for. */
  function Separation(l: real, n: nat, p: int): real
    requires n > 0
  {
    (Lag(p, n) as real) * (l / (n as real))
  }

  /** On a 4-cell axis of length 4 the second sample is plotted at 2, though it stands for a separation of 1. */
  lemma CoordinatesAsWrittenStretched()
    ensures CoordinatesAsWritten(4.0, 4) == [0.0, 2.0]
    ensures Separation(4.0, 4, 4 / 2 + 1) == 1.0
  {
    assert Lag(3, 4) == 1;
  }

  /** The coordinates of the profile samples: sample `d` sits `d` cells from the centre. */
  function Coordinates(l: real, n: nat): (r: seq<real>)
    requires n > 0
    ensures |r| == n - n / 2 && r[0] == 0.0
  {
    seq(n - n / 2, d requires 0 <= d < n - n / 2 => (d as real) * l / (n as real))
  }

  /** The corrected coordinates match the profile sample for sample, each the separation its sample stands for. */
  lemma CoordinatesMatchProfile(corr: Array3, a: Axis, l: real)
    requires corr.Valid() && NonEmpty(corr.shape)
    ensures |Coordinates(l, Size(corr.shape, a))| == |Profile(corr, a)|
    ensures forall d | 0 <= d < |Profile(corr, a)| ::
      Coordinates(l, Size(corr.shape, a))[d] == Separation(l, Size(corr.shape, a), Centre(corr.shape, a) + d)
  {
    var n := Size(corr.shape, a);
    forall d | 0 <= d < |Profile(corr, a)|
      ensures Coordinates(l, n)[d] == Separation(l, n, Centre(corr.shape, a) + d)
    {
      var m := Lag(Centre(corr.shape, a) + d, n);
      assert m == d;
      assert (m as real) == (d as real);
      CoordinateAt(l, n, d);
    }
  }

  lemma CoordinateAt(l: real, n: nat, d: nat)
    requires 0 <= d < n - n / 2
    ensures Coordinates(l, n)[d] == (d as real) * (l / (n as real))
  {
    Scale(d as real, l, n as real);
  }

  lemma Scale(d: real, l: real, n: real)
    requires n > 0.0
    ensures d * l / n == d * (l / n)
  {
  }
}
