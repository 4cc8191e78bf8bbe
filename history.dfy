/**
  The history-file plots: the variable names read from the header of the
  `.hst` file, the data column each name is drawn from, and the upper limit
  of the linear axis. The file is given as its lines and, separately, as the
  numeric table below the two header lines.
 */
module History {
  import opened Wrappers
  import opened Strings
  import opened Extrema

  // ------------------------------------------------------------------ header

  /**
    The second line, stripped of whitespace and then of `#` and space at both
    ends, split on whitespace. `None` when the file has fewer than two lines
    (the `IndexError` that ends the script).
   */
  function HeaderItems(lines: seq<string>): (r: Option<seq<string>>)
    ensures r.Some? <==> |lines| >= 2
    ensures r.Some? ==> r.value == SplitWhitespace(StripChars(Strip(lines[1]), {'#', ' '}))
    ensures r.Some? ==> forall i | 0 <= i < |r.value| :: r.value[i] != [] && forall c | c in r.value[i] :: !IsSpace(c)
  {
    if |lines| < 2 then None else Some(SplitWhitespace(StripChars(Strip(lines[1]), {'#', ' '})))
  }

  /** The text after the first `=` of an item. */
  function AfterEquals(item: string): (r: string)
    requires '=' in item
    ensures exists p | 0 <= p < |item| :: item[p] == '=' && '=' !in item[..p] && r == item[p + 1..]
  {
    var p := IndexOf(item, '=');
    item[p + 1..]
  }

  /** The names the items yield, in order: one per item holding `=`. */
  function Names(items: seq<string>): (r: seq<string>)
    ensures |r| <= |items|
  {
    if items == [] then []
    else
      var last := items[|items| - 1];
      Names(items[..|items| - 1]) + (if '=' in last then [AfterEquals(last)] else [])
  }

  /** The number of items holding `=`. */
  function WithEquals(items: seq<string>): nat {
    if items == [] then 0
    else WithEquals(items[..|items| - 1]) + (if '=' in items[|items| - 1] then 1 else 0)
  }

  /**
    The loop over `header_items[1:]`: the first item, the time column's, is
    skipped; every later item holding `=` yields the text after its first `=`.
   */
  method VarNames(headerItems: seq<string>) returns (varNames: seq<string>)
    ensures headerItems == [] ==> varNames == []
    ensures headerItems != [] ==> varNames == Names(headerItems[1..])
  {
    varNames := [];
    if headerItems == [] {
      return;
    }
    var items := headerItems[1..];
    var n := 0;
    while n < |items|
      invariant 0 <= n <= |items|
      invariant varNames == Names(items[..n])
    {
      var item := items[n];
      assert items[..n + 1] == items[..n] + [item];
      NamesAppend(items[..n], item);
      var pos := if '=' in item then IndexOf(item, '=') else -1;
      if pos != -1 {
        varNames := varNames + [item[pos + 1..]];
      }
      n := n + 1;
    }
    assert items[..n] == items;
  }

  /** Exactly one name per item holding `=`. */
  lemma {:induction false} NamesCount(items: seq<string>)
    ensures |Names(items)| == WithEquals(items)
  {
    if items != [] {
      NamesCount(items[..|items| - 1]);
    }
  }

  /** Every name is the text after the first `=` of some item, and items without `=` yield nothing. */
  lemma {:induction false} NamesFromItems(items: seq<string>, i: int)
    requires 0 <= i < |Names(items)|
    ensures exists k | 0 <= k < |items| :: '=' in items[k] && Names(items)[i] == AfterEquals(items[k])
  {
    var init := items[..|items| - 1];
    var last := items[|items| - 1];
    if i < |Names(init)| {
      NamesFromItems(init, i);
      var k :| 0 <= k < |init| && '=' in init[k] && Names(init)[i] == AfterEquals(init[k]);
      assert items[k] == init[k];
    } else {
      assert Names(items)[i] == AfterEquals(last);
    }
  }

  /** An item without `=` is skipped; one with it appends its value. */
  lemma NamesAppend(items: seq<string>, item: string)
    ensures '=' !in item ==> Names(items + [item]) == Names(items)
    ensures '=' in item ==> Names(items + [item]) == Names(items) + [AfterEquals(item)]
  {
    assert (items + [item])[..|items|] == items;
  }

  // ------------------------------------------------------------------ columns

  /** Every row of the table has `width` entries. */
  predicate Rectangular(data: seq<seq<real>>, width: nat) {
    forall r | 0 <= r < |data| :: |data[r]| == width
  }

  /** Column `c` of the table (`data[:, c]`). */
  function Column(data: seq<seq<real>>, c: nat): (r: seq<real>)
    requires forall t | 0 <= t < |data| :: c < |data[t]|
    ensures |r| == |data| && forall t | 0 <= t < |data| :: r[t] == data[t][c]
  {
    seq(|data|, t requires 0 <= t < |data| => data[t][c])
  }

  /** The table without its first column (`data[:, 1:]`). */
  function DropTime(data: seq<seq<real>>): (r: seq<seq<real>>)
    requires forall t | 0 <= t < |data| :: |data[t]| >= 1
    ensures |r| == |data| && forall t | 0 <= t < |data| :: r[t] == data[t][1..]
  {
    seq(|data|, t requires 0 <= t < |data| => data[t][1..])
  }

  /**
    Column 0 of the table is the time and the remaining columns are the
    variables: every row is its time followed by its row of `var_data_list`,
    and column `i` of `var_data_list` is data column `i + 1`, so name `i` is
    drawn against data column `i + 1`.
   */
  lemma VariableColumn(data: seq<seq<real>>, width: nat, i: nat)
    requires Rectangular(data, width) && i + 1 < width
    ensures Rectangular(DropTime(data), width - 1)
    ensures forall t | 0 <= t < |data| :: data[t] == [Column(data, 0)[t]] + DropTime(data)[t]
    ensures Column(DropTime(data), i) == Column(data, i + 1)
  {
    forall t | 0 <= t < |data| ensures data[t] == [Column(data, 0)[t]] + DropTime(data)[t] {
      assert data[t] == [data[t][0]] + data[t][1..];
    }
  }

  // ------------------------------------------------------------------ linear limit

  /** `1.2 * np.max(var_data[len(var_data) // 2:])`: 1.2 times the largest value of the second half. */
  method LinearUpper(column: seq<real>) returns (top: real)
    requires column != []
    ensures top == 1.2 * Max(column[|column| / 2..])
  {
    var start := |column| / 2;
    var linearMax := column[start];
    var n := start + 1;
    while n < |column|
      invariant start < n <= |column|
      invariant linearMax == Max(column[start..n])
    {
      assert column[start..n + 1][..n - start] == column[start..n];
      linearMax := if column[n] > linearMax then column[n] else linearMax;
      n := n + 1;
    }
    assert column[start..n] == column[start..];
    top := linearMax * 1.2;
  }

  /** The limit lies at 1.2 times a value of the second half, and at or above 1.2 times each of them. */
  lemma LinearUpperBounds(column: seq<real>, t: int)
    requires |column| / 2 <= t < |column|
    ensures 1.2 * column[t] <= 1.2 * Max(column[|column| / 2..])
    ensures exists u | |column| / 2 <= u < |column| :: Max(column[|column| / 2..]) == column[u]
  {
    var h := column[|column| / 2..];
    MaxIsLargest(h);
    assert column[t] == h[t - |column| / 2];
    var u :| 0 <= u < |h| && h[u] == Max(h);
    assert column[u + |column| / 2] == Max(h);
  }

  // ------------------------------------------------------------------ plots

  /** One plot: its name, the times and the values drawn against them, and the upper limit of the linear axis, if any. */
  datatype Plot = Plot(name: string, times: seq<real>, values: seq<real>, upper: Option<real>)

  /** The plot the loop draws for name `i`. */
  predicate PlotOf(p: Plot, name: string, data: seq<seq<real>>, width: nat, i: nat)
    requires Rectangular(data, width) && i + 1 < width && data != []
  {
    && p.name == name
    && p.times == Column(data, 0)
    && p.values == Column(data, i + 1)
    && (i == 0 ==> p.upper.None?)
    && (i > 0 ==> p.upper == Some(1.2 * Max(Column(data, i + 1)[|data| / 2..])))
  }

  /** One pass of the plotting loop: column `i` of `var_data_list`, and the linear limit from the second plot on. */
  method PlotFor(name: string, data: seq<seq<real>>, width: nat, i: nat) returns (plot: Plot)
    requires Rectangular(data, width) && i + 1 < width && data != []
    ensures PlotOf(plot, name, data, width, i)
  {
    var timeData := Column(data, 0);
    var varDataList := DropTime(data);
    VariableColumn(data, width, i);
    var varData := Column(varDataList, i);
    ghost var column := Column(data, i + 1);
    assert varData == column;
    if i == 0 {
      plot := Plot(name, timeData, varData, None);
    } else {
      assert |varData| == |data|;
      var top := LinearUpper(varData);
      plot := Plot(name, timeData, varData, Some(top));
    }
  }

  /**
    The plots saved to disk, in order, and whether the loop reached its end
    (`complete`) or stopped at the `IndexError` of a name with no column left.
   */
  datatype Saved = Saved(plots: seq<Plot>, complete: bool)

  /**
    The plotting loop: plot `i` draws column `i + 1` under name `i`; the
    first plot has one linear axis from 0, every later one has a second
    linear axis up to `LinearUpper` of its column. Each plot is saved before
    the next name is looked at, so when a name has no column left the loop
    stops there with the `width - 1` plots already saved.
   */
  method Plots(varNames: seq<string>, data: seq<seq<real>>, width: nat) returns (r: Saved)
    requires Rectangular(data, width) && width >= 1 && data != []
    ensures r.complete <==> |varNames| < width
    ensures |r.plots| == if r.complete then |varNames| else width - 1
    ensures forall i | 0 <= i < |r.plots| :: i < |varNames| && i + 1 < width && PlotOf(r.plots[i], varNames[i], data, width, i)
  {
    var plots: seq<Plot> := [];
    var i := 0;
    while i < |varNames|
      invariant 0 <= i <= |varNames|
      invariant i > 0 ==> i < width
      invariant |plots| == i
      invariant forall p | 0 <= p < i :: p + 1 < width && PlotOf(plots[p], varNames[p], data, width, p)
    {
      if i + 1 >= width {
        return Saved(plots, false);
      }
      var plot := PlotFor(varNames[i], data, width, i);
      plots := plots + [plot];
      i := i + 1;
    }
    return Saved(plots, true);
  }

  /**
    The script from the file's lines and table: the header gives the names,
    the names give the plots. `np.loadtxt` returns a one-dimensional array
    for a table of no rows, one row or one column, so `data[:, 0]` raises
    before the header is read; that, and a missing header line, end the
    script before any plot is saved (`None`). Otherwise the plots saved by
    the loop, one per name up to the first name without a column.
   */
  method HistoryPlots(lines: seq<string>, data: seq<seq<real>>, width: nat) returns (r: Option<Saved>)
    requires Rectangular(data, width)
    ensures r.None? <==> |data| < 2 || width < 2 || |lines| < 2
    ensures r.Some? ==> var items := HeaderItems(lines).value;
      var names := if items == [] then [] else Names(items[1..]);
      && (r.value.complete <==> |names| < width)
      && |r.value.plots| == (if r.value.complete then |names| else width - 1)
      && forall i | 0 <= i < |r.value.plots| :: i < |names| && i + 1 < width && PlotOf(r.value.plots[i], names[i], data, width, i)
  {
    if |data| < 2 || width < 2 {
      return None;
    }
    var header := HeaderItems(lines);
    if header.None? {
      return None;
    }
    var names := VarNames(header.value);
    var saved := Plots(names, data, width);
    return Some(saved);
  }
}
