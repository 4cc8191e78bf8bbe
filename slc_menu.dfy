/**
  The slice-plot menu: five options (output format, quantity, slice
  direction, colour map, confirm) cycled with Left and Right, the colour range
  computed from the snapshots of the chosen format, and the values exported
  to the plotting script.
 */
module SlcMenu {
  import opened Wrappers
  import opened Strings
  import opened Extrema
  import opened Menus
  import Sorting

  const OptionCount: nat := 5
  const VarOptions: seq<string> := ["rho", "vel1", "vel2", "vel3", "Bcc1", "Bcc2", "Bcc3"]
  const DirOptions: seq<string> := ["x", "y", "z"]
  const CmapOptions: seq<string> := ["RdBu", "seismic", "bwr", "coolwarm"]

  /** The loop's variables between two keys. */
  datatype State = State(
    option: int,
    formatIndex: int, outputFormat: string,
    varIndex: int, variable: string,
    dirIndex: int, dir: string,
    cmapIndex: int, cmap: string)

  datatype Transition = Continue(state: State) | Launch(state: State) | Quit | Interrupt

  /** The cursor is on an option and each value is the entry its index names. */
  predicate Inv(formats: seq<string>, s: State) {
    && 0 <= s.option < OptionCount
    && 0 <= s.formatIndex < |formats| && s.outputFormat == formats[s.formatIndex]
    && 0 <= s.varIndex < |VarOptions| && s.variable == VarOptions[s.varIndex]
    && 0 <= s.dirIndex < |DirOptions| && s.dir == DirOptions[s.dirIndex]
    && 0 <= s.cmapIndex < |CmapOptions| && s.cmap == CmapOptions[s.cmapIndex]
  }

  /**
    The values before the first key: the first of the formats (never empty,
    as `OutputFormats` gives them), `rho`, `x`, `RdBu`.
   */
  function Initial(formats: seq<string>): (s: State)
    requires formats != []
    ensures Inv(formats, s)
    ensures s.option == 0 && s.outputFormat == formats[0] && s.variable == "rho" && s.dir == "x" && s.cmap == "RdBu"
  {
    State(0, 0, formats[0], 0, "rho", 0, "x", 0, "RdBu")
  }

  /** Left (`forward` false) or Right (`forward` true) on option 0 to 3. */
  function Cycle(formats: seq<string>, s: State, forward: bool): (r: State)
    requires Inv(formats, s)
    ensures Inv(formats, r) && r.option == s.option
  {
    if s.option == 0 then
      var i := Turn(s.formatIndex, |formats|, forward);
      s.(formatIndex := i, outputFormat := formats[i])
    else if s.option == 1 then
      var i := Turn(s.varIndex, |VarOptions|, forward);
      s.(varIndex := i, variable := VarOptions[i])
    else if s.option == 2 then
      var i := Turn(s.dirIndex, |DirOptions|, forward);
      s.(dirIndex := i, dir := DirOptions[i])
    else if s.option == 3 then
      var i := Turn(s.cmapIndex, |CmapOptions|, forward);
      s.(cmapIndex := i, cmap := CmapOptions[i])
    else s
  }

  /** One pass of the loop. */
  function Step(formats: seq<string>, s: State, key: Key): (t: Transition)
    requires Inv(formats, s)
    ensures t.Continue? || t.Launch? ==> Inv(formats, t.state)
    ensures t.Launch? <==> key == Enter && s.option == 4
    ensures t.Quit? <==> key == Escape
    ensures t.Interrupt? <==> key == CtrlC
  {
    match key
    case Up => Continue(s.(option := Previous(s.option, OptionCount)))
    case Down => Continue(s.(option := Next(s.option, OptionCount)))
    case Left => Continue(Cycle(formats, s, false))
    case Right => Continue(Cycle(formats, s, true))
    case Enter => if s.option == 4 then Launch(s) else Continue(s)
    case Escape => Quit
    case CtrlC => Interrupt
    case _ => Continue(s)
  }

  /** On any option, Right then Left gives back the state. */
  lemma CycleInverse(formats: seq<string>, s: State)
    requires Inv(formats, s)
    ensures Step(formats, s, Right).Continue? && Step(formats, Step(formats, s, Right).state, Left) == Continue(s)
  {
    var u := Cycle(formats, s, true);
    if s.option == 0 {
      PreviousNextInverse(s.formatIndex, |formats|);
    } else if s.option == 1 {
      PreviousNextInverse(s.varIndex, |VarOptions|);
    } else if s.option == 2 {
      PreviousNextInverse(s.dirIndex, |DirOptions|);
    } else if s.option == 3 {
      PreviousNextInverse(s.cmapIndex, |CmapOptions|);
    }
    assert Step(formats, u, Left) == Continue(Cycle(formats, u, false));
  }

  /** Right on the last direction comes back to `x`, and Left on `x` goes to `z`. */
  lemma DirectionWraps(formats: seq<string>, s: State)
    requires Inv(formats, s) && s.option == 2
    ensures s.dir == "z" ==> Step(formats, s, Right).state.dir == "x"
    ensures s.dir == "x" ==> Step(formats, s, Left).state.dir == "z"
  {
    assert Step(formats, s, Right) == Continue(Cycle(formats, s, true));
    assert Step(formats, s, Left) == Continue(Cycle(formats, s, false));
  }

  /** `dir_num`: the axis number the plotting script expects. */
  function DirNum(dir: string): string {
    if dir == "x" then "1" else if dir == "y" then "2" else "3"
  }

  /** Each direction of the menu is sent as its position, counted from one. */
  lemma DirNumIsAxis(i: int)
    requires 0 <= i < |DirOptions|
    ensures DirNum(DirOptions[i]) == [('1' as int + i) as char]
  {
  }

  // ------------------------------------------------------------------ colour range

  /** The minimum, maximum and mean of one field of one snapshot. */
  datatype Stats = Stats(min: real, max: real, mean: real)

  /** The statistics of the fields one snapshot holds, by name. */
  type Snapshot = map<string, Stats>

  /** The statistics of `variable` in the files that read and hold it, in file order. */
  function Found(files: seq<string>, variable: string, read: string -> Option<Snapshot>): (r: seq<Stats>)
    ensures |r| <= |files|
  {
    if files == [] then []
    else
      var prev := Found(files[..|files| - 1], variable, read);
      var data := read(files[|files| - 1]);
      if data.Some? && variable in data.value then prev + [data.value[variable]] else prev
  }

  /** A file that does not read, or lacks the quantity, adds nothing. */
  lemma FoundAppend(files: seq<string>, f: string, variable: string, read: string -> Option<Snapshot>)
    ensures var data := read(f);
      Found(files + [f], variable, read) == Found(files, variable, read) + (if data.Some? && variable in data.value then [data.value[variable]] else [])
  {
    assert (files + [f])[..|files|] == files;
  }

  function Mins(found: seq<Stats>): (r: seq<real>)
    ensures |r| == |found|
  {
    if found == [] then [] else Mins(found[..|found| - 1]) + [found[|found| - 1].min]
  }

  function Maxs(found: seq<Stats>): (r: seq<real>)
    ensures |r| == |found|
  {
    if found == [] then [] else Maxs(found[..|found| - 1]) + [found[|found| - 1].max]
  }

  /** Entry `i` of `Mins` and `Maxs` is the minimum and maximum of snapshot `i`. */
  lemma {:induction false} MinsMaxsAt(found: seq<Stats>, i: int)
    requires 0 <= i < |found|
    ensures Mins(found)[i] == found[i].min && Maxs(found)[i] == found[i].max
  {
    if i < |found| - 1 {
      MinsMaxsAt(found[..|found| - 1], i);
    }
  }

  function SumMeans(found: seq<Stats>): real {
    if found == [] then 0.0 else SumMeans(found[..|found| - 1]) + found[|found| - 1].mean
  }

  /** One more snapshot adds its minimum, maximum and mean at the end. */
  lemma StatsAppend(found: seq<Stats>, st: Stats)
    ensures Mins(found + [st]) == Mins(found) + [st.min]
    ensures Maxs(found + [st]) == Maxs(found) + [st.max]
    ensures SumMeans(found + [st]) == SumMeans(found) + st.mean
  {
    assert (found + [st])[..|found|] == found;
  }

  /** The density range: centred on `avg`, wide enough to reach both `lo` and `hi`. */
  function RhoRange(lo: real, hi: real, avg: real): (r: (real, real))
    ensures r.1 - avg == avg - r.0
    ensures r.0 <= lo && hi <= r.1
    ensures r.1 - avg == hi - avg || avg - r.0 == avg - lo
  {
    var delta := Larger(hi - avg, avg - lo);
    (avg - delta, avg + delta)
  }

  /** The range of any other quantity: symmetric about zero, wide enough to reach both `lo` and `hi`. */
  function ZeroCentredRange(lo: real, hi: real): (r: (real, real))
    ensures r.0 == -r.1 && r.1 >= 0.0
    ensures r.0 <= lo && hi <= r.1
    ensures r.1 == Abs(lo) || r.1 == Abs(hi)
  {
    var maxDelta := Larger(Abs(hi), Abs(lo));
    (-maxDelta, maxDelta)
  }

  /**
    The colour range of `calculate_data_range`: `(-1, 1)` without an Athena++
    path or without any snapshot holding the quantity; for the density, the
    range about the mean of the snapshot means; otherwise the range about zero.
   */
  function DataRange(athenaPath: string, variable: string, found: seq<Stats>): (r: (real, real))
    ensures athenaPath == [] || found == [] ==> r == (-1.0, 1.0)
  {
    if athenaPath == [] || found == [] then (-1.0, 1.0)
    else
      var lo := Min(Mins(found));
      var hi := Max(Maxs(found));
      if variable == "rho" then RhoRange(lo, hi, SumMeans(found) / |found| as real)
      else ZeroCentredRange(lo, hi)
  }

  /** The range encloses the minimum and the maximum of every snapshot that holds the quantity. */
  lemma DataRangeEncloses(athenaPath: string, variable: string, found: seq<Stats>, i: int)
    requires athenaPath != [] && 0 <= i < |found|
    ensures DataRange(athenaPath, variable, found).0 <= found[i].min
    ensures found[i].max <= DataRange(athenaPath, variable, found).1
  {
    MinsMaxsAt(found, i);
    MinIsSmallest(Mins(found));
    MaxIsLargest(Maxs(found));
  }

  /** The density range is symmetric about the mean of the snapshot means; any other range about zero. */
  lemma DataRangeCentre(athenaPath: string, variable: string, found: seq<Stats>)
    requires athenaPath != [] && found != []
    ensures var r := DataRange(athenaPath, variable, found);
      variable == "rho" ==> (r.0 + r.1) / 2.0 == SumMeans(found) / |found| as real
    ensures var r := DataRange(athenaPath, variable, found);
      variable != "rho" ==> r.0 == -r.1
  {
  }

  /**
    The loop of `calculate_data_range` over the files: the minimum and maximum
    of each snapshot that holds the quantity and, for the density, the sum and
    number of the means.
   */
  method Collect(files: seq<string>, variable: string, read: string -> Option<Snapshot>)
    returns (minValues: seq<real>, maxValues: seq<real>, sumValues: real, count: nat)
    ensures minValues == Mins(Found(files, variable, read)) && maxValues == Maxs(Found(files, variable, read))
    ensures variable == "rho" ==> sumValues == SumMeans(Found(files, variable, read)) && count == |Found(files, variable, read)|
  {
    var isRho := variable == "rho";
    minValues, maxValues, sumValues, count := [], [], 0.0, 0;
    var n := 0;
    while n < |files|
      invariant 0 <= n <= |files|
      invariant minValues == Mins(Found(files[..n], variable, read))
      invariant maxValues == Maxs(Found(files[..n], variable, read))
      invariant isRho ==> sumValues == SumMeans(Found(files[..n], variable, read))
      invariant isRho ==> count == |Found(files[..n], variable, read)|
    {
      FoundAppend(files[..n], files[n], variable, read);
      assert files[..n + 1] == files[..n] + [files[n]];
      var data := read(files[n]);
      if data.Some? && variable in data.value {
        var varData := data.value[variable];
        StatsAppend(Found(files[..n], variable, read), varData);
        minValues := minValues + [varData.min];
        maxValues := maxValues + [varData.max];
        if isRho {
          sumValues := sumValues + varData.mean;
          count := count + 1;
        }
      }
      n := n + 1;
    }
    assert files[..n] == files;
  }

  /** The formula of `calculate_data_range` on the collected values. */
  method RangeOfValues(variable: string, minValues: seq<real>, maxValues: seq<real>, sumValues: real, count: nat)
    returns (vmin: real, vmax: real)
    requires minValues != [] && maxValues != []
    ensures variable == "rho" && count > 0 ==> (vmin, vmax) == RhoRange(Min(minValues), Max(maxValues), sumValues / count as real)
    ensures variable == "rho" && count == 0 ==> (vmin, vmax) == RhoRange(Min(minValues), Max(maxValues), (Min(minValues) + Max(maxValues)) / 2.0)
    ensures variable != "rho" ==> (vmin, vmax) == ZeroCentredRange(Min(minValues), Max(maxValues))
  {
    var minValue := Min(minValues);
    var maxValue := Max(maxValues);
    if variable == "rho" {
      var avgRho := if count > 0 then sumValues / count as real else (minValue + maxValue) / 2.0;
      var deltaRho := Larger(maxValue - avgRho, avgRho - minValue);
      vmin, vmax := avgRho - deltaRho, avgRho + deltaRho;
    } else {
      var maxDelta := Larger(Abs(maxValue), Abs(minValue));
      vmin, vmax := -maxDelta, maxDelta;
    }
  }

  /** `calculate_data_range`: the range of the collected values, or `(-1, 1)`. */
  method CalculateDataRange(files: seq<string>, variable: string, athenaPath: string, read: string -> Option<Snapshot>)
    returns (vmin: real, vmax: real)
    ensures (vmin, vmax) == DataRange(athenaPath, variable, Found(files, variable, read))
  {
    if athenaPath == [] {
      return -1.0, 1.0;
    }
    var minValues, maxValues, sumValues, count := Collect(files, variable, read);
    ghost var found := Found(files, variable, read);
    if minValues != [] && maxValues != [] {
      vmin, vmax := RangeOfValues(variable, minValues, maxValues, sumValues, count);
      return;
    }
    assert found == [];
    return -1.0, 1.0;
  }

  // ------------------------------------------------------------------ the loop and the launch

  datatype Outcome = Waiting(state: State) | Launched(state: State) | Cancelled | Interrupted

  /**
    The keys applied one after the other from `s`: every key is handed to
    `Step` until Ctrl+C interrupts or one launches (from the confirm option, towards the plot) or quits; keys after that are
    never read. `Waiting` holds the state reached when the keys run out first.
   */
  function Drive(formats: seq<string>, s: State, keys: seq<Key>): (o: Outcome)
    requires Inv(formats, s)
    ensures o.Waiting? ==> Inv(formats, o.state)
    ensures o.Launched? ==> Inv(formats, o.state) && o.state.option == 4 && Enter in keys
    ensures o.Cancelled? ==> Escape in keys
    ensures o.Interrupted? ==> CtrlC in keys
    decreases |keys|
  {
    if keys == [] then Waiting(s)
    else
      match Step(formats, s, keys[0])
      case Continue(next) => Drive(formats, next, keys[1..])
      case Launch(next) => Launched(next)
      case Quit => Cancelled
      case Interrupt => Interrupted
  }

  /** Ctrl+C ends the menu in every state, and nothing is launched. */
  lemma CtrlCEndsMenu(formats: seq<string>, s: State, keys: seq<Key>)
    requires Inv(formats, s)
    ensures Drive(formats, s, [CtrlC] + keys) == Interrupted
  {
    assert ([CtrlC] + keys)[0] == CtrlC;
  }

  /**
    Reading more keys only continues a menu that is still waiting: after
    `keys` it goes on from the state reached, and once it has launched or
    quit, later keys change nothing.
   */
  lemma {:induction false} DriveAppend(formats: seq<string>, s: State, keys: seq<Key>, more: seq<Key>)
    requires Inv(formats, s)
    ensures Drive(formats, s, keys).Waiting? ==> Drive(formats, s, keys + more) == Drive(formats, Drive(formats, s, keys).state, more)
    ensures !Drive(formats, s, keys).Waiting? ==> Drive(formats, s, keys + more) == Drive(formats, s, keys)
    decreases |keys|
  {
    if keys != [] {
      assert (keys + more)[0] == keys[0] && (keys + more)[1..] == keys[1..] + more;
      match Step(formats, s, keys[0])
      case Continue(next) => DriveAppend(formats, next, keys[1..], more);
      case Launch(_) =>
      case Quit =>
      case Interrupt =>
    } else {
      assert keys + more == more;
    }
  }

  /**
    The key loop over the keys read, in order: its outcome is `Drive` of the
    keys from the initial state. It stops at the first key that launches or
    quits.
   */
  method Run(formats: seq<string>, keys: seq<Key>) returns (o: Outcome)
    requires formats != []
    ensures o == Drive(formats, Initial(formats), keys)
  {
    var s := Initial(formats);
    var n := 0;
    while n < |keys|
      invariant 0 <= n <= |keys|
      invariant Inv(formats, s)
      invariant Drive(formats, Initial(formats), keys) == Drive(formats, s, keys[n..])
    {
      assert keys[n..][0] == keys[n] && keys[n..][1..] == keys[n + 1..];
      var t := Step(formats, s, keys[n]);
      match t {
        case Continue(next) =>
          s := next;
        case Launch(next) =>
          return Launched(next);
        case Quit =>
          return Cancelled;
        case Interrupt =>
          return Interrupted;
      }
      n := n + 1;
    }
    return Waiting(s);
  }

  /** `ATHENA_PATH` and the `SLC_*` values exported before the plotting script runs. */
  datatype Env = Env(athenaPath: string, outputFormat: string, variable: string, dir: string,
                     colormap: string, caseDir: string, vmin: real, vmax: real)

  /** What follows the loop: no snapshot of the format, no `ATHENA_PATH` (the script exits), or the values exported. */
  datatype Script = NoFiles | NoAthenaPath | Plot(files: seq<string>, env: Env)

  /**
    The steps after the loop: the files of the chosen format in sorted order
    (`matched` is what the glob pattern of the format found in `outputs`), the
    Athena++ path, the direction number and the colour range.
   */
  method Prepare(s: State, matched: seq<string>, athenaPath: Option<string>, caseDir: string, read: string -> Option<Snapshot>)
    returns (l: Script)
    ensures matched == [] ==> l == NoFiles
    ensures matched != [] && athenaPath.None? ==> l == NoAthenaPath
    ensures l.Plot? ==> athenaPath.Some? && multiset(l.files) == multiset(matched)
    ensures l.Plot? ==> forall i, j | 0 <= i < j < |l.files| :: StrLe(l.files[i], l.files[j])
    ensures l.Plot? ==> l.env.dir == DirNum(s.dir) && l.env.outputFormat == s.outputFormat && l.env.variable == s.variable
    ensures l.Plot? ==> athenaPath.Some? && (l.env.vmin, l.env.vmax) == DataRange(athenaPath.value, s.variable, Found(l.files, s.variable, read))
    ensures matched != [] && athenaPath.Some? ==> l.Plot?
    ensures l.Plot? ==> l.env.athenaPath == athenaPath.value && l.env.colormap == s.cmap && l.env.caseDir == caseDir
  {
    var files := Sorting.SortNames(matched);
    if files == [] {
      return NoFiles;
    }
    if athenaPath.None? {
      return NoAthenaPath;
    }
    var vmin, vmax := CalculateDataRange(files, s.variable, athenaPath.value, read);
    return Plot(files, Env(athenaPath.value, s.outputFormat, s.variable, DirNum(s.dir), s.cmap, caseDir, vmin, vmax));
  }
}
