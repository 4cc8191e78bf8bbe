/**
  The correlation driver functions: choosing the snapshots of a time window
  (`find_files`) and averaging the normalised per-snapshot autocorrelation cubes
  (`calculate_correlation`). Reading an `.athdf` file is the parameter `read`,
  which gives `None` when the reader raises (or the file has no `Time`).
 */
module Correlation {
  import opened Wrappers
  import opened Arrays3
  import opened LagSums
  import opened Autocorrelation
  import Sorting

  /** What `athena_read.athdf` gives for one file: its time and its named arrays in native (z, y, x) order. */
  datatype Snapshot = Snapshot(time: real, fields: map<string, Array3>)

  /** `t1 <= time and (t2 is None or time <= t2)`. */
  datatype Window = Window(t1: real, t2: Option<real>)

  predicate InWindow(w: Window, t: real) {
    w.t1 <= t && (w.t2.None? || t <= w.t2.value)
  }

  /** The file is readable and its time lies in the window. */
  predicate Selected(read: string -> Option<Snapshot>, w: Window, f: string) {
    read(f).Some? && InWindow(w, read(f).value.time)
  }

  /** The time a file is sorted by (files that cannot be read never reach the sort). */
  function TimeOf(read: string -> Option<Snapshot>, f: string): real {
    if read(f).Some? then read(f).value.time else 0.0
  }

  /** The matched files that are selected, in the order the pattern match listed them. */
  function Kept(matches: seq<string>, read: string -> Option<Snapshot>, w: Window): (r: seq<string>)
    ensures forall f | f in r :: f in matches && Selected(read, w, f)
    ensures forall f | f in matches && Selected(read, w, f) :: f in r
  {
    if matches == [] then []
    else
      var rest := Kept(matches[..|matches| - 1], read, w);
      var f := matches[|matches| - 1];
      assert matches == matches[..|matches| - 1] + [f];
      if Selected(read, w, f) then rest + [f] else rest
  }

  /** One more matched file is kept at the end exactly when it is selected. */
  lemma KeptAppend(matches: seq<string>, f: string, read: string -> Option<Snapshot>, w: Window)
    ensures Kept(matches + [f], read, w) == if Selected(read, w, f) then Kept(matches, read, w) + [f] else Kept(matches, read, w)
  {
    assert (matches + [f])[..|matches|] == matches;
  }

  /** Ordering by snapshot time, as a relation `Sorting.Sort` accepts. */
  function TimeOrder(read: string -> Option<Snapshot>): (le: (string, string) -> bool)
    ensures Sorting.TotalPreorder(le)
    ensures forall a, b :: le(a, b) == (TimeOf(read, a) <= TimeOf(read, b))
  {
    (a: string, b: string) => TimeOf(read, a) <= TimeOf(read, b)
  }

  datatype FindResult =
    /** No file matched the name pattern: the source returns a bare `[]`. */
    | NoMatch
    /** The selected files by time, with the first and last time (both `0` when none was selected). */
    | Found(files: seq<string>, tStart: real, tEnd: real)

  /** The filtering loop of `find_files`: the selected files in match order, with their times. */
  method SelectFiles(matches: seq<string>, read: string -> Option<Snapshot>, w: Window) returns (filteredFiles: seq<string>, times: seq<real>)
    ensures filteredFiles == Kept(matches, read, w)
    ensures |times| == |filteredFiles| && forall i | 0 <= i < |times| :: times[i] == TimeOf(read, filteredFiles[i])
  {
    filteredFiles := [];
    times := [];
    var n := 0;
    while n < |matches|
      invariant 0 <= n <= |matches|
      invariant filteredFiles == Kept(matches[..n], read, w)
      invariant |times| == |filteredFiles|
      invariant forall i | 0 <= i < |times| :: times[i] == TimeOf(read, filteredFiles[i])
    {
      var file := matches[n];
      assert matches[..n + 1] == matches[..n] + [file];
      KeptAppend(matches[..n], file, read, w);
      var data := read(file);
      if data.Some? {
        var time := data.value.time;
        if w.t1 <= time && (w.t2.None? || time <= w.t2.value) {
          filteredFiles := filteredFiles + [file];
          times := times + [time];
        }
      }
      n := n + 1;
    }
    assert matches[..n] == matches;
  }

  /** Sorted by `TimeOrder` is sorted by time. */
  lemma SortedByTime(files: seq<string>, read: string -> Option<Snapshot>)
    requires Sorting.SortedBy(files, TimeOrder(read))
    ensures forall i, j | 0 <= i < j < |files| :: TimeOf(read, files[i]) <= TimeOf(read, files[j])
  {
    forall i, j | 0 <= i < j < |files| ensures TimeOf(read, files[i]) <= TimeOf(read, files[j]) {
      assert TimeOrder(read)(files[i], files[j]);
    }
  }

  /** The `argsort` step: the files by time, with the first and last time (`0` for none). */
  method SortByTime(files: seq<string>, read: string -> Option<Snapshot>) returns (sortedFiles: seq<string>, tStart: real, tEnd: real)
    ensures multiset(sortedFiles) == multiset(files)
    ensures forall i, j | 0 <= i < j < |sortedFiles| :: TimeOf(read, sortedFiles[i]) <= TimeOf(read, sortedFiles[j])
    ensures tStart == (if sortedFiles == [] then 0.0 else TimeOf(read, sortedFiles[0]))
    ensures tEnd == (if sortedFiles == [] then 0.0 else TimeOf(read, sortedFiles[|sortedFiles| - 1]))
  {
    sortedFiles := Sorting.Sort(files, TimeOrder(read));
    SortedByTime(sortedFiles, read);
    var sortedTimes := seq(|sortedFiles|, i requires 0 <= i < |sortedFiles| => TimeOf(read, sortedFiles[i]));
    tStart, tEnd := 0.0, 0.0;
    if sortedTimes != [] {
      tStart, tEnd := sortedTimes[0], sortedTimes[|sortedTimes| - 1];
    }
  }

  /**
    `find_files`: `matches` is the pattern match's file list. Files whose read
    fails are skipped; the rest are kept when their time is in the window and
    then ordered by time.
   */
  method FindFiles(matches: seq<string>, read: string -> Option<Snapshot>, w: Window) returns (r: FindResult)
    ensures r.NoMatch? <==> matches == []
    ensures r.Found? ==> multiset(r.files) == multiset(Kept(matches, read, w))
    ensures r.Found? ==> forall i, j | 0 <= i < j < |r.files| :: TimeOf(read, r.files[i]) <= TimeOf(read, r.files[j])
    ensures r.Found? ==> r.tStart == (if r.files == [] then 0.0 else TimeOf(read, r.files[0]))
    ensures r.Found? ==> r.tEnd == (if r.files == [] then 0.0 else TimeOf(read, r.files[|r.files| - 1]))
  {
    if matches == [] {
      return NoMatch;
    }
    var filteredFiles, times := SelectFiles(matches, read, w);
    var sortedFiles, tStart, tEnd := SortByTime(filteredFiles, read);
    return Found(sortedFiles, tStart, tEnd);
  }

  /** Every file `FindFiles` returns was readable and has its time in the window. */
  lemma FoundFilesSelected(matches: seq<string>, read: string -> Option<Snapshot>, w: Window, files: seq<string>)
    requires multiset(files) == multiset(Kept(matches, read, w))
    ensures forall f | f in files :: f in matches && Selected(read, w, f)
    ensures forall f | f in matches && Selected(read, w, f) :: f in files
  {
    forall f | f in files ensures f in matches && Selected(read, w, f) {
      assert f in multiset(files);
    }
    forall f | f in matches && Selected(read, w, f) ensures f in files {
      assert f in multiset(Kept(matches, read, w));
    }
  }

  // ------------------------------------------------------------------ per-snapshot cube

  /**
    The three component arrays, transposed to (x, y, z), when every name is
    present, valid and of one shape. Components of different shapes give
    `None` here, although numpy's broadcasting would still add some of them
    (a length-1 axis against a longer one): the model does not broadcast.
   */
  function Components(s: Snapshot, names: seq<string>): (r: Option<(Array3, Array3, Array3)>)
    requires |names| == 3
    ensures r.Some? ==> SameShape3(r.value.0, r.value.1, r.value.2)
  {
    if names[0] in s.fields && names[1] in s.fields && names[2] in s.fields
       && SameShape3(s.fields[names[0]], s.fields[names[1]], s.fields[names[2]])
    then Some((Transpose(s.fields[names[0]]), Transpose(s.fields[names[1]]), Transpose(s.fields[names[2]])))
    else None
  }

  /** All three names are keys of the snapshot. */
  predicate HasAll(s: Snapshot, names: seq<string>)
    requires |names| == 3
  {
    names[0] in s.fields && names[1] in s.fields && names[2] in s.fields
  }

  /**
    The magnetic field's component names: `Bcc1..3` first, and `B1..3` only
    when one of those is missing (the `KeyError` fallback).
   */
  function MagneticNames(s: Snapshot): (r: Option<seq<string>>)
    ensures r == Some(["Bcc1", "Bcc2", "Bcc3"]) <==> HasAll(s, ["Bcc1", "Bcc2", "Bcc3"])
    ensures r == Some(["B1", "B2", "B3"]) <==> !HasAll(s, ["Bcc1", "Bcc2", "Bcc3"]) && HasAll(s, ["B1", "B2", "B3"])
    ensures r.None? <==> !HasAll(s, ["Bcc1", "Bcc2", "Bcc3"]) && !HasAll(s, ["B1", "B2", "B3"])
  {
    if HasAll(s, ["Bcc1", "Bcc2", "Bcc3"]) then Some(["Bcc1", "Bcc2", "Bcc3"])
    else if HasAll(s, ["B1", "B2", "B3"]) then Some(["B1", "B2", "B3"])
    else None
  }

  /** The normalised autocorrelation of a vector field given by three component names. */
  function VectorCube(s: Snapshot, names: seq<string>): (r: Option<Normalised>)
    requires |names| == 3
    ensures r.Some? ==> HasAll(s, names)
  {
    match Components(s, names)
    case None => None
    case Some((x, y, z)) =>
      if NonEmpty(x.shape) then Some(Normalise(VectorAutocorrelate(x, y, z))) else None
  }

  /**
    The cube one snapshot contributes for `var`, or `None` when it contributes
    nothing: a missing name or an array without cells at the centre index
    raises inside the loop and the file is skipped; components of different
    shapes are skipped as well (see `Components`); and a `var` other than
    `rho`, `vel` and `B` matches no branch.
   */
  function SnapshotCube(s: Snapshot, v: string): (r: Option<Normalised>)
    ensures v != "rho" && v != "vel" && v != "B" ==> r.None?
    ensures v == "rho" && r.Some? ==> "rho" in s.fields
    ensures v == "vel" && r.Some? ==> HasAll(s, ["vel1", "vel2", "vel3"])
  {
    if v == "rho" then
      if "rho" in s.fields && s.fields["rho"].Valid() && NonEmpty(s.fields["rho"].shape)
      then Some(Normalise(Autocorrelate(Transpose(s.fields["rho"])))) else None
    else if v == "vel" then VectorCube(s, ["vel1", "vel2", "vel3"])
    else if v == "B" then
      match MagneticNames(s)
      case None => None
      case Some(names) => VectorCube(s, names)
    else None
  }

  /** The cube a file contributes: nothing when it cannot be read. */
  function FileCube(read: string -> Option<Snapshot>, f: string, v: string): (r: Option<Normalised>)
    ensures read(f).None? ==> r.None?
  {
    if read(f).Some? then SnapshotCube(read(f).value, v) else None
  }

  /** `all_correlations`: the cubes of the files that produced one, in file order. */
  function Cubes(files: seq<string>, v: string, read: string -> Option<Snapshot>): (r: seq<Normalised>)
    ensures |r| <= |files|
  {
    if files == [] then []
    else
      var rest := Cubes(files[..|files| - 1], v, read);
      match FileCube(read, files[|files| - 1], v)
      case None => rest
      case Some(c) => rest + [c]
  }

  // ------------------------------------------------------------------ averaging

  datatype Outcome =
    /** `None`: no file, or no file produced a cube. */
    | NoCorrelation
    /** The elementwise mean of the cubes. */
    | Mean(cube: Array3)
    /** Some cube was all NaN, so every entry of the mean is NaN. */
    | NaNMean(shape: Shape)
    /** The cubes have different shapes: `np.mean` raises and the exception is not caught. */
    | Inhomogeneous

  function ShapeOf(n: Normalised): Shape {
    match n
    case Finite(c) => c.shape
    case NaNCube(s) => s
  }

  predicate ValidCube(n: Normalised) {
    n.Finite? ==> n.cube.Valid()
  }

  predicate AllValid(cubes: seq<Normalised>) {
    forall c | c in cubes :: ValidCube(c)
  }

  /** Every cube has shape `s`. */
  predicate Shaped(cubes: seq<Normalised>, s: Shape) {
    forall c | c in cubes :: ShapeOf(c) == s
  }

  predicate SameShapes(cubes: seq<Normalised>) {
    cubes != [] ==> Shaped(cubes, ShapeOf(cubes[0]))
  }

  predicate AnyNaN(cubes: seq<Normalised>) {
    exists c | c in cubes :: c.NaNCube?
  }

  /** The value of a cube at an index, for cubes that have one there. */
  function Entry(n: Normalised, i: int, j: int, k: int): real {
    if n.Finite? && n.cube.Valid() && InBox(n.cube.shape, i, j, k) then n.cube.At(i, j, k) else 0.0
  }

  /** The sum of the cubes' values at one index. */
  function SumAt(cubes: seq<Normalised>, i: int, j: int, k: int): real {
    if cubes == [] then 0.0 else SumAt(cubes[..|cubes| - 1], i, j, k) + Entry(cubes[|cubes| - 1], i, j, k)
  }

  /** `np.mean(all_correlations, axis=0)` behind the `if all_correlations` test. */
  function MeanOf(cubes: seq<Normalised>): (r: Outcome)
    requires AllValid(cubes)
    ensures r.NoCorrelation? <==> cubes == []
    ensures r.Inhomogeneous? <==> cubes != [] && !SameShapes(cubes)
    ensures r.NaNMean? <==> cubes != [] && SameShapes(cubes) && AnyNaN(cubes)
    ensures r.NaNMean? ==> r.shape == ShapeOf(cubes[0])
    ensures r.Mean? ==> cubes != [] && SameShapes(cubes) && !AnyNaN(cubes)
    ensures r.Mean? ==> r.cube.Valid() && r.cube.shape == ShapeOf(cubes[0])
    ensures r.Mean? ==> forall i, j, k | InBox(r.cube.shape, i, j, k) ::
      r.cube.At(i, j, k) == SumAt(cubes, i, j, k) / (|cubes| as real)
  {
    if cubes == [] then NoCorrelation
    else if !SameShapes(cubes) then Inhomogeneous
    else if AnyNaN(cubes) then NaNMean(ShapeOf(cubes[0]))
    else
      Mean(Build(ShapeOf(cubes[0]), (i, j, k) => SumAt(cubes, i, j, k) / (|cubes| as real)))
  }

  /** The loop of `calculate_correlation`: the cube of every file that produces one, in file order. */
  method CollectCubes(files: seq<string>, v: string, read: string -> Option<Snapshot>) returns (allCorrelations: seq<Normalised>)
    ensures allCorrelations == Cubes(files, v, read)
  {
    allCorrelations := [];
    var n := 0;
    while n < |files|
      invariant 0 <= n <= |files|
      invariant allCorrelations == Cubes(files[..n], v, read)
    {
      var corr := FileCube(read, files[n], v);
      CubesStep(files, n, v, read);
      if corr.Some? {
        allCorrelations := allCorrelations + [corr.value];
      }
      n := n + 1;
    }
    assert files[..n] == files;
  }

  /** One more file of the list visited: its cube, if any, is appended. */
  lemma CubesStep(files: seq<string>, n: int, v: string, read: string -> Option<Snapshot>)
    requires 0 <= n < |files|
    ensures Cubes(files[..n + 1], v, read) ==
      if FileCube(read, files[n], v).Some? then Cubes(files[..n], v, read) + [FileCube(read, files[n], v).value] else Cubes(files[..n], v, read)
  {
    assert files[..n + 1] == files[..n] + [files[n]];
    if FileCube(read, files[n], v).Some? {
      ProducedFileAppended(files[..n], files[n], v, read);
    } else {
      FailedFileIgnored(files[..n], files[n], v, read);
    }
  }

  /**
    `calculate_correlation`: visit the files in order, append the cube of
    every file that produces one, and average what was appended.
   */
  method CalculateCorrelation(files: seq<string>, v: string, read: string -> Option<Snapshot>) returns (r: Outcome)
    ensures AllValid(Cubes(files, v, read))
    ensures r == MeanOf(Cubes(files, v, read))
  {
    CubesValid(files, v, read);
    if files == [] {
      return NoCorrelation;
    }
    var allCorrelations := CollectCubes(files, v, read);
    r := MeanOf(allCorrelations);
  }

  // ------------------------------------------------------------------ properties

  /** Every cube a snapshot contributes is a normalisation: valid, non-empty, and 1 at its centre when finite. */
  predicate Centred(n: Normalised) {
    && ValidCube(n)
    && NonEmpty(ShapeOf(n))
    && (n.Finite? ==> n.cube.Center() == 1.0)
  }

  predicate AllCentred(cubes: seq<Normalised>) {
    forall c | c in cubes :: Centred(c)
  }

  lemma NormaliseCentred(r: Array3)
    requires r.Valid() && NonEmpty(r.shape)
    ensures Centred(Normalise(r))
  {
  }

  lemma VectorCubeCentred(s: Snapshot, names: seq<string>)
    requires |names| == 3
    ensures VectorCube(s, names).Some? ==> Centred(VectorCube(s, names).value)
  {
    match Components(s, names)
    case None =>
    case Some((x, y, z)) =>
      if NonEmpty(x.shape) {
        NormaliseCentred(VectorAutocorrelate(x, y, z));
      }
  }

  lemma SnapshotCubeCentred(s: Snapshot, v: string)
    ensures SnapshotCube(s, v).Some? ==> Centred(SnapshotCube(s, v).value)
  {
    if v == "rho" {
      if "rho" in s.fields && s.fields["rho"].Valid() && NonEmpty(s.fields["rho"].shape) {
        NormaliseCentred(Autocorrelate(Transpose(s.fields["rho"])));
      }
    } else if v == "vel" {
      VectorCubeCentred(s, ["vel1", "vel2", "vel3"]);
    } else if v == "B" && MagneticNames(s).Some? {
      VectorCubeCentred(s, MagneticNames(s).value);
    }
  }

  lemma {:induction false} CubesCentred(files: seq<string>, v: string, read: string -> Option<Snapshot>)
    ensures AllCentred(Cubes(files, v, read))
  {
    if files != [] {
      CubesCentred(files[..|files| - 1], v, read);
      var f := files[|files| - 1];
      if read(f).Some? { SnapshotCubeCentred(read(f).value, v); }
    }
  }

  lemma CubesValid(files: seq<string>, v: string, read: string -> Option<Snapshot>)
    ensures AllValid(Cubes(files, v, read))
  {
    CubesCentred(files, v, read);
  }

  /** Summing the centre values of cubes that are all 1 there gives their number. */
  lemma {:induction false} SumOfCentres(cubes: seq<Normalised>, s: Shape)
    requires NonEmpty(s)
    requires AllCentred(cubes) && !AnyNaN(cubes) && Shaped(cubes, s)
    ensures SumAt(cubes, CenterX(s), CenterY(s), CenterZ(s)) == |cubes| as real
  {
    if cubes != [] {
      var last := cubes[|cubes| - 1];
      assert last in cubes;
      var init := cubes[..|cubes| - 1];
      assert forall c | c in init :: c in cubes;
      SumOfCentres(init, s);
      CenterInBox(s);
    }
  }

  /** The averaged cube is exactly 1 at the centre index. */
  lemma MeanCentreIsOne(files: seq<string>, v: string, read: string -> Option<Snapshot>)
    ensures AllValid(Cubes(files, v, read))
    ensures var r := MeanOf(Cubes(files, v, read)); r.Mean? ==> NonEmpty(r.cube.shape) && r.cube.Center() == 1.0
  {
    CubesCentred(files, v, read);
    MeanOfCentred(Cubes(files, v, read));
  }

  /** The mean of cubes that are 1 at their centre is 1 at its centre. */
  lemma MeanOfCentred(cubes: seq<Normalised>)
    requires AllCentred(cubes)
    ensures AllValid(cubes)
    ensures var r := MeanOf(cubes); r.Mean? ==> NonEmpty(r.cube.shape) && r.cube.Center() == 1.0
  {
    var r := MeanOf(cubes);
    if r.Mean? {
      var s := r.cube.shape;
      assert cubes[0] in cubes;
      SumOfCentres(cubes, s);
      MeanAtCentre(cubes);
      MeanOfCount(r.cube.Center(), |cubes| as real, SumAt(cubes, CenterX(s), CenterY(s), CenterZ(s)));
    }
  }

  /** The mean's centre value times the number of cubes is the sum of their centre values. */
  lemma MeanAtCentre(cubes: seq<Normalised>)
    requires AllValid(cubes) && MeanOf(cubes).Mean? && NonEmpty(MeanOf(cubes).cube.shape)
    ensures var s := MeanOf(cubes).cube.shape;
      MeanOf(cubes).cube.Center() == SumAt(cubes, CenterX(s), CenterY(s), CenterZ(s)) / (|cubes| as real)
  {
    CenterInBox(MeanOf(cubes).cube.shape);
  }

  lemma MeanOfCount(x: real, n: real, sum: real)
    requires n > 0.0 && x == sum / n && sum == n
    ensures x == 1.0
  {
  }

  /** A file that yields no cube (unreadable, or lacking the fields) changes nothing. */
  lemma FailedFileIgnored(files: seq<string>, f: string, v: string, read: string -> Option<Snapshot>)
    requires FileCube(read, f, v).None?
    ensures Cubes(files + [f], v, read) == Cubes(files, v, read)
  {
    var all := files + [f];
    assert all[..|all| - 1] == files && all[|all| - 1] == f;
  }

  /** A file that yields a cube adds exactly that cube. */
  lemma ProducedFileAppended(files: seq<string>, f: string, v: string, read: string -> Option<Snapshot>)
    requires FileCube(read, f, v).Some?
    ensures Cubes(files + [f], v, read) == Cubes(files, v, read) + [FileCube(read, f, v).value]
  {
    var all := files + [f];
    assert all[..|all| - 1] == files && all[|all| - 1] == f;
  }

  /** Any `var` other than `rho`, `vel` and `B` produces no cube, so the result is `None`. */
  lemma {:induction false} UnknownVariableGivesNone(files: seq<string>, v: string, read: string -> Option<Snapshot>)
    requires v != "rho" && v != "vel" && v != "B"
    ensures Cubes(files, v, read) == []
    ensures AllValid(Cubes(files, v, read))
    ensures MeanOf(Cubes(files, v, read)).NoCorrelation?
  {
    if files != [] { UnknownVariableGivesNone(files[..|files| - 1], v, read); }
  }

  /** The magnetic field falls back to `B1..3` only when a `Bcc` name is missing. */
  lemma MagneticFallback(s: Snapshot)
    ensures HasAll(s, ["Bcc1", "Bcc2", "Bcc3"]) ==> SnapshotCube(s, "B") == VectorCube(s, ["Bcc1", "Bcc2", "Bcc3"])
    ensures !HasAll(s, ["Bcc1", "Bcc2", "Bcc3"]) && HasAll(s, ["B1", "B2", "B3"]) ==> SnapshotCube(s, "B") == VectorCube(s, ["B1", "B2", "B3"])
    ensures !HasAll(s, ["Bcc1", "Bcc2", "Bcc3"]) && !HasAll(s, ["B1", "B2", "B3"]) ==> SnapshotCube(s, "B").None?
  {
  }

  // ------------------------------------------------------------------ order independence

  lemma {:induction false} SumAtRemove(t: seq<Normalised>, p: nat, i: int, j: int, k: int)
    requires p < |t|
    ensures SumAt(t, i, j, k) == SumAt(t[..p] + t[p + 1..], i, j, k) + Entry(t[p], i, j, k)
  {
    if p < |t| - 1 {
      var init := t[..|t| - 1];
      SumAtRemove(init, p, i, j, k);
      assert init[..p] + init[p + 1..] == (t[..p] + t[p + 1..])[..|t| - 2];
    } else {
      assert t[..p] + t[p + 1..] == t[..|t| - 1];
    }
  }

  /** Taking the last element off `s` and a matching element out of `t` keeps the two permutations of each other. */
  lemma RemoveMatching<T>(s: seq<T>, t: seq<T>, p: nat)
    requires multiset(s) == multiset(t) && s != [] && p < |t| && t[p] == s[|s| - 1]
    ensures multiset(s[..|s| - 1]) == multiset(t[..p] + t[p + 1..])
  {
    var x := t[p];
    assert t == t[..p] + [x] + t[p + 1..];
    assert s == s[..|s| - 1] + [x];
    assert multiset(s[..|s| - 1]) == multiset(s) - multiset{x};
    assert multiset(t[..p] + t[p + 1..]) == multiset(t) - multiset{x};
  }

  /** The sum at an index depends only on which cubes there are, not on their order. */
  lemma {:induction false} SumAtPermutation(s: seq<Normalised>, t: seq<Normalised>, i: int, j: int, k: int)
    requires multiset(s) == multiset(t)
    ensures SumAt(s, i, j, k) == SumAt(t, i, j, k)
  {
    if s != [] {
      var x := s[|s| - 1];
      assert x in multiset(t);
      var p :| 0 <= p < |t| && t[p] == x;
      var rest := t[..p] + t[p + 1..];
      RemoveMatching(s, t, p);
      SumAtPermutation(s[..|s| - 1], rest, i, j, k);
      SumAtRemove(t, p, i, j, k);
    }
  }

  /**
    The outcome depends only on which cubes were produced, not on the order of
    the files: in particular the unspecified order `np.argsort` gives files of
    equal time cannot change the result.
   */
  lemma MeanOrderIndependent(s: seq<Normalised>, t: seq<Normalised>)
    requires AllValid(s) && multiset(s) == multiset(t)
    ensures AllValid(t)
    ensures MeanOf(s) == MeanOf(t)
  {
    assert forall c | c in t :: c in s by {
      forall c | c in t ensures c in s { assert c in multiset(t); }
    }
    assert forall c | c in s :: c in t by {
      forall c | c in s ensures c in t { assert c in multiset(s); }
    }
    assert |s| == |multiset(s)| == |t|;
    if s != [] {
      assert s[0] in t && t[0] in s;
      if SameShapes(s) {
        assert SameShapes(t);
      }
      if SameShapes(t) {
        assert SameShapes(s);
      }
      if MeanOf(s).Mean? {
        var a := MeanOf(s).cube;
        var b := MeanOf(t).cube;
        forall i, j, k | InBox(a.shape, i, j, k) ensures a.At(i, j, k) == b.At(i, j, k) {
          SumAtPermutation(s, t, i, j, k);
        }
        Extensionality(a, b);
      }
    }
  }

}
