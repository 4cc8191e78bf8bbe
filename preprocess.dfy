/**
  The preprocessing step that gathers the fields of a run: the shear
  parameter from the `athinput` text (`get_qshear`), the box lengths from the
  root-grid arrays (`get_box`), and the snapshot selection behind
  `output2turbulence`. Files are given as their contents: the `athinput`
  lines, the grid arrays, and the `read` function of module `Correlation`.
 */
module Preprocess {
  import opened Wrappers
  import opened Strings
  import opened Arrays3
  import opened Correlation
  import Sorting

  // ------------------------------------------------------------------ get_qshear

  const SectionMarker: string := "<orbital_advection>"

  /** Some line before `q` opens the orbital-advection section. */
  predicate SectionOpenBefore(lines: seq<string>, q: int)
    requires 0 <= q <= |lines|
  {
    exists s | 0 <= s < q :: Contains(lines[s], SectionMarker)
  }

  /**
    Line `q` is one the loop parses: it mentions `qshear`, it is not itself a
    marker line (a marker line only sets the flag), and a marker line came
    earlier. The flag is never cleared, so a later section also qualifies.
   */
  predicate QshearLine(lines: seq<string>, q: int)
    requires 0 <= q < |lines|
  {
    && !Contains(lines[q], SectionMarker)
    && Contains(lines[q], "qshear")
    && SectionOpenBefore(lines, q)
  }

  /**
    `line.split('=')[1].split('#')[0].strip()`: the text after the first `=`,
    cut at the next `=` or `#` and stripped; `None` when the line has no `=`
    (the `IndexError` the function catches).
   */
  function ValueText(line: string): (r: Option<string>)
    ensures r.Some? <==> '=' in line
    ensures r.Some? ==> '=' !in r.value && '#' !in r.value
    ensures r.Some? ==> r.value == [] || (r.value[0] !in Whitespace && r.value[|r.value| - 1] !in Whitespace)
  {
    var parts := Split(line, '=');
    if |parts| < 2 then
      SplitJoin(line, '=');
      None
    else
      SplitPiecesFree(line, '=');
      var piece := Split(parts[1], '#')[0];
      SplitPiecesFree(parts[1], '#');
      Some(Strip(piece))
  }

  /** For a line `key = value # comment`, the value text is the stripped value. */
  lemma ValueTextOfAssignment(key: string, value: string, comment: string)
    requires '=' !in key && '=' !in value && '#' !in value && '=' !in comment
    ensures ValueText(key + "=" + value + "#" + comment) == Some(Strip(value))
  {
    var line := key + "=" + value + "#" + comment;
    assert line == key + ['='] + (value + "#" + comment);
    SplitCons(key, '=', value + "#" + comment);
    assert '=' !in value + "#" + comment;
    assert Split(value + "#" + comment, '=') == [value + "#" + comment];
    assert value + "#" + comment == value + ['#'] + comment;
    SplitCons(value, '#', comment);
  }

  /**
    `get_qshear` on the lines of the `athinput` file: the value text of the
    first line the loop parses, or `None` when there is none.
   */
  method GetQshear(lines: seq<string>) returns (r: Option<string>)
    ensures (forall q | 0 <= q < |lines| :: !QshearLine(lines, q)) ==> r.None?
    ensures forall q | 0 <= q < |lines| && QshearLine(lines, q) && (forall p | 0 <= p < q :: !QshearLine(lines, p)) ::
      r == ValueText(lines[q])
  {
    var foundSection := false;
    var n := 0;
    while n < |lines|
      invariant 0 <= n <= |lines|
      invariant foundSection <==> SectionOpenBefore(lines, n)
      invariant forall p | 0 <= p < n :: !QshearLine(lines, p)
    {
      var line := lines[n];
      if Contains(line, SectionMarker) {
        foundSection := true;
        n := n + 1;
        continue;
      }
      if foundSection && Contains(line, "qshear") {
        assert QshearLine(lines, n);
        r := ValueText(line);
        forall q | 0 <= q < |lines| && QshearLine(lines, q) && (forall p | 0 <= p < q :: !QshearLine(lines, p))
          ensures q == n
        {
        }
        return;
      }
      n := n + 1;
    }
    return None;
  }

  // ------------------------------------------------------------------ get_box

  /**
    `get_box` on the arrays of the reference snapshot: `[x1max - x1min,
    x2max - x2min, x3max - x3min]` from the first two entries of each
    `RootGridX*` array. `None` when a key is missing or the unpacking fails:
    `a[:-1]` must leave exactly two entries, and `RootGridSize` three.
   */
  function GetBox(grid: map<string, seq<real>>): (r: Option<seq<real>>)
    ensures r.Some? <==>
      && "RootGridX1" in grid && |grid["RootGridX1"]| == 3
      && "RootGridX2" in grid && |grid["RootGridX2"]| == 3
      && "RootGridX3" in grid && |grid["RootGridX3"]| == 3
      && "RootGridSize" in grid && |grid["RootGridSize"]| == 3
    ensures r.Some? ==> (
      && |r.value| == 3
      && r.value[0] + grid["RootGridX1"][0] == grid["RootGridX1"][1]
      && r.value[1] + grid["RootGridX2"][0] == grid["RootGridX2"][1]
      && r.value[2] + grid["RootGridX3"][0] == grid["RootGridX3"][1])
  {
    if && "RootGridX1" in grid && |grid["RootGridX1"]| == 3
       && "RootGridX2" in grid && |grid["RootGridX2"]| == 3
       && "RootGridX3" in grid && |grid["RootGridX3"]| == 3
       && "RootGridSize" in grid && |grid["RootGridSize"]| == 3
    then
      var x1 := grid["RootGridX1"][..2];
      var x2 := grid["RootGridX2"][..2];
      var x3 := grid["RootGridX3"][..2];
      Some([x1[1] - x1[0], x2[1] - x2[0], x3[1] - x3[0]])
    else None
  }

  /** The last entry of a `RootGridX*` array (the cell-size ratio) never matters. */
  lemma GetBoxIgnoresRatio(grid: map<string, seq<real>>, key: string, ratio: real)
    requires key in grid && |grid[key]| == 3
    ensures GetBox(grid[key := grid[key][..2] + [ratio]]) == GetBox(grid)
  {
    var g := grid[key := grid[key][..2] + [ratio]];
    assert g[key][..2] == grid[key][..2];
    assert forall k | k in grid && k != key :: k in g && g[k] == grid[k];
  }

  // ------------------------------------------------------------------ output2turbulence

  /** The seven arrays the loop reads from a snapshot; a missing one is the `KeyError` it skips. */
  predicate Complete(s: Snapshot) {
    && "rho" in s.fields
    && "vel1" in s.fields && "vel2" in s.fields && "vel3" in s.fields
    && "Bcc1" in s.fields && "Bcc2" in s.fields && "Bcc3" in s.fields
  }

  /** Readable, in the window, and complete. */
  predicate Stored(read: string -> Option<Snapshot>, w: Window, f: string) {
    Selected(read, w, f) && Complete(read(f).value)
  }

  /** The files whose snapshots are stored, in the order visited. */
  function StoredFiles(files: seq<string>, read: string -> Option<Snapshot>, w: Window): (r: seq<string>)
    ensures forall f | f in r :: f in files && Stored(read, w, f)
    ensures forall f | f in files && Stored(read, w, f) :: f in r
  {
    if files == [] then []
    else
      var rest := StoredFiles(files[..|files| - 1], read, w);
      var f := files[|files| - 1];
      assert files == files[..|files| - 1] + [f];
      if Stored(read, w, f) then rest + [f] else rest
  }

  /** A vector field: its three components, each transposed to (x, y, z). */
  datatype Vector = Vector(x: Array3, y: Array3, z: Array3)

  /** The lists handed to `Turbulence`: densities, velocities, magnetic fields and times, index-aligned. */
  datatype Fields = Fields(rhos: seq<Array3>, vs: seq<Vector>, bs: seq<Vector>, times: seq<real>)

  /** `np.transpose(a, (2, 1, 0))` on whatever array the snapshot holds. */
  function Transposed(a: Array3): Array3 {
    if a.Valid() then Transpose(a) else a
  }

  function VectorOf(x: Array3, y: Array3, z: Array3): Vector {
    Vector(Transposed(x), Transposed(y), Transposed(z))
  }

  /** The fields the loop appends for one complete snapshot. */
  function Rho(s: Snapshot): Array3 requires Complete(s) { Transposed(s.fields["rho"]) }
  function Velocity(s: Snapshot): Vector requires Complete(s) { VectorOf(s.fields["vel1"], s.fields["vel2"], s.fields["vel3"]) }
  function Magnetic(s: Snapshot): Vector requires Complete(s) { VectorOf(s.fields["Bcc1"], s.fields["Bcc2"], s.fields["Bcc3"]) }

  /** The lists with the fields of one more complete snapshot appended. */
  function Appended(fs: Fields, s: Snapshot): Fields
    requires Complete(s)
  {
    Fields(fs.rhos + [Rho(s)], fs.vs + [Velocity(s)], fs.bs + [Magnetic(s)], fs.times + [s.time])
  }

  /** The stored lists line up with `files`: entry `i` of each comes from the snapshot of `files[i]`. */
  predicate AlignedWith(fs: Fields, files: seq<string>, read: string -> Option<Snapshot>) {
    && |fs.rhos| == |files| && |fs.vs| == |files| && |fs.bs| == |files| && |fs.times| == |files|
    && forall i | 0 <= i < |files| :: AlignedAt(fs, files, read, i)
  }

  predicate AlignedAt(fs: Fields, files: seq<string>, read: string -> Option<Snapshot>, i: int)
    requires 0 <= i < |files| && |fs.rhos| == |files| && |fs.vs| == |files| && |fs.bs| == |files| && |fs.times| == |files|
  {
    && read(files[i]).Some? && Complete(read(files[i]).value)
    && fs.times[i] == read(files[i]).value.time
    && fs.rhos[i] == Rho(read(files[i]).value)
    && fs.vs[i] == Velocity(read(files[i]).value)
    && fs.bs[i] == Magnetic(read(files[i]).value)
  }

  /** Appending the fields of one more complete snapshot keeps the lists aligned with the files. */
  lemma AlignedAppend(fs: Fields, names: seq<string>, read: string -> Option<Snapshot>, f: string)
    requires AlignedWith(fs, names, read) && read(f).Some? && Complete(read(f).value)
    ensures AlignedWith(Appended(fs, read(f).value), names + [f], read)
  {
    var r := Appended(fs, read(f).value);
    var ns := names + [f];
    forall i | 0 <= i < |ns| ensures AlignedAt(r, ns, read, i) {
      if i < |names| {
        assert AlignedAt(fs, names, read, i);
        assert ns[i] == names[i];
      }
    }
  }

  /** The lists the loop builds over `files`, visited in order. */
  function StoredFields(files: seq<string>, read: string -> Option<Snapshot>, w: Window): (r: Fields)
    ensures AlignedWith(r, StoredFiles(files, read, w), read)
  {
    if files == [] then Fields([], [], [], [])
    else
      var init := files[..|files| - 1];
      var fs := StoredFields(init, read, w);
      var f := files[|files| - 1];
      assert files == init + [f];
      if Stored(read, w, f) then
        AlignedAppend(fs, StoredFiles(init, read, w), read, f);
        Appended(fs, read(f).value)
      else fs
  }

  /** One more file visited: its fields are appended when its snapshot is stored, and nothing changes otherwise. */
  lemma StoredFieldsAppend(files: seq<string>, f: string, read: string -> Option<Snapshot>, w: Window)
    ensures var fs := StoredFields(files, read, w);
      StoredFields(files + [f], read, w) == if Stored(read, w, f) then Appended(fs, read(f).value) else fs
    ensures |StoredFiles(files + [f], read, w)| == |StoredFiles(files, read, w)| + if Stored(read, w, f) then 1 else 0
  {
    assert (files + [f])[..|files|] == files;
  }

  /** One pass of the loop: read the file and append its fields when the snapshot is in the window and complete. */
  method Visit(file: string, read: string -> Option<Snapshot>, w: Window,
               rhos: seq<Array3>, vs: seq<Vector>, bs: seq<Vector>, times: seq<real>)
    returns (rhos': seq<Array3>, vs': seq<Vector>, bs': seq<Vector>, times': seq<real>)
    ensures Fields(rhos', vs', bs', times') ==
      if Stored(read, w, file) then Appended(Fields(rhos, vs, bs, times), read(file).value) else Fields(rhos, vs, bs, times)
  {
    rhos', vs', bs', times' := rhos, vs, bs, times;
    var data := read(file);
    if data.Some? {
      var time := data.value.time;
      if w.t1 <= time && (w.t2.None? || time <= w.t2.value) {
        var f := data.value.fields;
        if "rho" in f && "vel1" in f && "vel2" in f && "vel3" in f && "Bcc1" in f && "Bcc2" in f && "Bcc3" in f {
          rhos' := rhos + [Transposed(f["rho"])];
          vs' := vs + [Vector(Transposed(f["vel1"]), Transposed(f["vel2"]), Transposed(f["vel3"]))];
          bs' := bs + [Vector(Transposed(f["Bcc1"]), Transposed(f["Bcc2"]), Transposed(f["Bcc3"]))];
          times' := times + [time];
        }
      }
    }
  }

  /** The loop of `output2turbulence` over the sorted file list. */
  method StoreAll(outnFiles: seq<string>, read: string -> Option<Snapshot>, w: Window) returns (fs: Fields)
    ensures fs == StoredFields(outnFiles, read, w)
    ensures |fs.times| == |StoredFiles(outnFiles, read, w)|
  {
    var rhos: seq<Array3> := [];
    var vs: seq<Vector> := [];
    var bs: seq<Vector> := [];
    var times: seq<real> := [];
    var n := 0;
    while n < |outnFiles|
      invariant 0 <= n <= |outnFiles|
      invariant Fields(rhos, vs, bs, times) == StoredFields(outnFiles[..n], read, w)
      invariant |times| == |StoredFiles(outnFiles[..n], read, w)|
    {
      var file := outnFiles[n];
      assert outnFiles[..n + 1] == outnFiles[..n] + [file];
      StoredFieldsAppend(outnFiles[..n], file, read, w);
      rhos, vs, bs, times := Visit(file, read, w, rhos, vs, bs, times);
      n := n + 1;
    }
    assert outnFiles[..n] == outnFiles;
    fs := Fields(rhos, vs, bs, times);
  }

  /**
    `output2turbulence`'s selection: visit the matched files in name order and
    store the fields of each readable, in-window, complete snapshot. `None`
    when nothing matched or nothing was stored.
   */
  method Output2Turbulence(matches: seq<string>, read: string -> Option<Snapshot>, w: Window) returns (r: Option<Fields>)
    ensures r.None? <==> StoredFiles(Sorting.SortNames(matches), read, w) == []
    ensures r.Some? ==> r.value == StoredFields(Sorting.SortNames(matches), read, w)
  {
    var outnFiles := Sorting.SortNames(matches);
    if outnFiles == [] {
      return None;
    }
    var fs := StoreAll(outnFiles, read, w);
    if fs.times == [] {
      return None;
    }
    return Some(fs);
  }

  /** Every stored entry comes from the snapshot of a stored file, at the same position. */
  lemma StoredFieldsAligned(matches: seq<string>, read: string -> Option<Snapshot>, w: Window, i: int)
    requires 0 <= i < |StoredFiles(Sorting.SortNames(matches), read, w)|
    ensures var files := StoredFiles(Sorting.SortNames(matches), read, w);
      var fs := StoredFields(Sorting.SortNames(matches), read, w);
      && files[i] in matches && Stored(read, w, files[i])
      && var s := read(files[i]).value;
      && fs.times[i] == s.time && fs.rhos[i] == Rho(s) && fs.vs[i] == Velocity(s) && fs.bs[i] == Magnetic(s)
  {
    var files := StoredFiles(Sorting.SortNames(matches), read, w);
    assert files[i] in files;
    assert multiset(Sorting.SortNames(matches)) == multiset(matches);
    assert files[i] in multiset(matches);
    assert AlignedAt(StoredFields(Sorting.SortNames(matches), read, w), files, read, i);
  }

  /** Names in `sorted()` order. */
  predicate NameSorted(s: seq<string>) {
    forall i, j | 0 <= i < j < |s| :: StrLe(s[i], s[j])
  }

  /** The stored files keep the name order of the list they were taken from. */
  lemma {:induction false} StoredInNameOrder(files: seq<string>, read: string -> Option<Snapshot>, w: Window)
    requires NameSorted(files)
    ensures NameSorted(StoredFiles(files, read, w))
  {
    if files != [] {
      var init := files[..|files| - 1];
      StoredInNameOrder(init, read, w);
      var rest := StoredFiles(init, read, w);
      var f := files[|files| - 1];
      assert files == init + [f];
      if Stored(read, w, f) {
        var r := rest + [f];
        forall i, j | 0 <= i < j < |r| ensures StrLe(r[i], r[j]) {
          if j < |rest| {
            assert r[i] == rest[i] && r[j] == rest[j];
            assert StrLe(rest[i], rest[j]);
          } else {
            assert r[i] == rest[i] && r[i] in rest;
            var k :| 0 <= k < |init| && init[k] == r[i];
            assert files[k] == r[i] && files[|files| - 1] == r[j];
            assert StrLe(files[k], files[|files| - 1]);
          }
        }
        assert StoredFiles(files, read, w) == r;
      }
    }
  }

  /** The stored snapshots, and so the recorded times, are in file-name order. */
  lemma StoredFilesSortedByName(matches: seq<string>, read: string -> Option<Snapshot>, w: Window)
    ensures NameSorted(StoredFiles(Sorting.SortNames(matches), read, w))
  {
    StoredInNameOrder(Sorting.SortNames(matches), read, w);
  }

  /** There is no `B1..3` fallback: a snapshot without `Bcc1` is never stored. */
  lemma NoMagneticFallback(read: string -> Option<Snapshot>, w: Window, f: string)
    requires read(f).Some? && "Bcc1" !in read(f).value.fields
    ensures !Stored(read, w, f)
  {
  }
}
