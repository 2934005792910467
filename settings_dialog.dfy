/**
 * The graph settings dialog: series selection, the series swap of the
 * reorder buttons, unit conversion of the selected series, the cached
 * statistics report and the bookkeeping around a math operation. Text
 * parsing of the factor and bias fields is a parameter (`Option<F64>`: a
 * field that parses may still read as not-a-number), and
 * the report text is kept as its entries (label and statistics), without
 * the number formatting.
 */
module Settings {
  import opened Common
  import opened Series
  import opened Graph
  import MathOps
  import Statistics

  // ---------------------------------------------------------------------
  // Selection
  // ---------------------------------------------------------------------

  /** The number of check boxes that have a series. */
  function Boxes(selected: seq<bool>, series: seq<DataSeries>): (m: nat)
    ensures m <= |selected| && m <= |series|
    ensures m == |selected| || m == |series|
  {
    if |selected| <= |series| then |selected| else |series|
  }

  /** A check box that is ticked. */
  function IsChecked(b: bool): bool { b }

  /** `ids` are, one for one, the ids of the series at positions `ks`. */
  predicate IdsAt(ids: seq<nat>, ks: seq<nat>, series: seq<DataSeries>)
  {
    |ids| == |ks| && forall k :: 0 <= k < |ks| ==> ks[k] < |series| && ids[k] == series[ks[k]].id
  }

  /** One more box with a series: the ids gain its id exactly when the
      positions gain its index, so the correspondence is kept. */
  lemma IdsAtStep(ids: seq<nat>, ks: seq<nat>, series: seq<DataSeries>, n: nat, checked: bool,
                  ids2: seq<nat>, ks2: seq<nat>)
    requires IdsAt(ids, ks, series) && n < |series|
    requires ids2 == ids + (if checked then [series[n].id] else [])
    requires ks2 == ks + (if checked then [n] else [])
    ensures IdsAt(ids2, ks2, series)
  {
  }

  /** `get_selected_ids`: the ids of the checked series, in series order;
      check boxes past the last series are ignored. What it selects is
      stated by `SelectedIdsByIndices` and `SelectedIdsMembers`. */
  function SelectedIds(selected: seq<bool>, series: seq<DataSeries>): (ids: seq<nat>)
    ensures |ids| <= |selected|
  {
    if selected == [] then []
    else
      var n := |selected| - 1;
      SelectedIds(selected[..n], series) + (if selected[n] && n < |series| then [series[n].id] else [])
  }

  /** One more check box adds its series' id when it is ticked and has a
      series. */
  lemma SelectedIdsSnoc(selected: seq<bool>, series: seq<DataSeries>)
    requires selected != []
    ensures var n := |selected| - 1;
      SelectedIds(selected, series) ==
        SelectedIds(selected[..n], series) + (if selected[n] && n < |series| then [series[n].id] else [])
  {
  }

  /** The selected ids are the ids of the series at the ticked positions,
      in ascending position order; positions past the last series are
      ignored. */
  lemma SelectedIdsByIndices(selected: seq<bool>, series: seq<DataSeries>)
    ensures IdsAt(SelectedIds(selected, series), KeptIndices(selected[..Boxes(selected, series)], IsChecked), series)
  {
    if |selected| <= |series| {
      SelectedIdsUpTo(selected, series);
      assert selected[..|selected|] == selected;
    } else {
      SelectedIdsExtraBoxes(selected, series);
      SelectedIdsUpTo(selected[..|series|], series);
    }
  }

  /** With no more boxes than series, the ids correspond to the ticked
      positions. */
  lemma {:induction false} SelectedIdsUpTo(selected: seq<bool>, series: seq<DataSeries>)
    requires |selected| <= |series|
    ensures IdsAt(SelectedIds(selected, series), KeptIndices(selected, IsChecked), series)
  {
    if selected != [] {
      var n := |selected| - 1;
      SelectedIdsUpTo(selected[..n], series);
      SelectedIdsSnoc(selected, series);
      KeptSnoc(selected, IsChecked);
      IdsAtStep(SelectedIds(selected[..n], series), KeptIndices(selected[..n], IsChecked), series, n, selected[n],
                SelectedIds(selected, series), KeptIndices(selected, IsChecked));
    }
  }

  /** Check boxes past the last series add no id. */
  lemma {:induction false} SelectedIdsExtraBoxes(selected: seq<bool>, series: seq<DataSeries>)
    requires |selected| >= |series|
    ensures SelectedIds(selected, series) == SelectedIds(selected[..|series|], series)
  {
    if |selected| == |series| {
      assert selected[..|series|] == selected;
    } else {
      var n := |selected| - 1;
      SelectedIdsSnoc(selected, series);
      SelectedIdsExtraBoxes(selected[..n], series);
      assert selected[..n][..|series|] == selected[..|series|];
    }
  }

  /** The selected ids are the ids of the series whose box is ticked, and
      only those. */
  lemma SelectedIdsMembers(selected: seq<bool>, series: seq<DataSeries>)
    ensures forall i :: 0 <= i < |selected| && i < |series| && selected[i] ==> series[i].id in SelectedIds(selected, series)
    ensures forall id :: id in SelectedIds(selected, series) ==>
      exists i :: 0 <= i < |selected| && i < |series| && selected[i] && series[i].id == id
  {
    var m := Boxes(selected, series);
    var ks := KeptIndices(selected[..m], IsChecked);
    var ids := SelectedIds(selected, series);
    SelectedIdsByIndices(selected, series);
    forall i | 0 <= i < |selected| && i < |series| && selected[i]
      ensures series[i].id in ids
    {
      assert IsChecked(selected[..m][i]);
      var k :| 0 <= k < |ks| && ks[k] == i;
      assert ids[k] == series[i].id;
    }
    forall id | id in ids
      ensures exists i :: 0 <= i < |selected| && i < |series| && selected[i] && series[i].id == id
    {
      var k :| 0 <= k < |ids| && ids[k] == id;
      assert IsChecked(selected[..m][ks[k]]);
      assert selected[ks[k]] && series[ks[k]].id == id;
    }
  }

  /** With every box checked, the ids are those of the first series, in
      order. */
  lemma {:induction false} AllSelectedIds(selected: seq<bool>, series: seq<DataSeries>)
    requires |selected| <= |series| && forall i :: 0 <= i < |selected| ==> selected[i]
    ensures |SelectedIds(selected, series)| == |selected|
    ensures forall i :: 0 <= i < |selected| ==> SelectedIds(selected, series)[i] == series[i].id
  {
    if selected != [] {
      var n := |selected| - 1;
      assert forall i :: 0 <= i < n ==> selected[..n][i] == selected[i];
      AllSelectedIds(selected[..n], series);
      SelectedIdsSnoc(selected, series);
      var init := SelectedIds(selected[..n], series);
      assert SelectedIds(selected, series) == init + [series[n].id];
    }
  }

  /** Only the first `|selected|` series matter. */
  lemma {:induction false} SelectedIdsPrefix(selected: seq<bool>, series: seq<DataSeries>, n: nat)
    requires |selected| <= n <= |series|
    ensures SelectedIds(selected, series) == SelectedIds(selected, series[..n])
  {
    if selected != [] {
      SelectedIdsPrefix(selected[..|selected| - 1], series, n);
    }
  }

  /** Every selected id names a series. */
  lemma SelectedIdsFound(selected: seq<bool>, series: seq<DataSeries>, id: nat)
    requires id in SelectedIds(selected, series)
    ensures FindSeries(series, id).Some?
  {
    SelectedIdsMembers(selected, series);
    var i :| 0 <= i < |selected| && i < |series| && selected[i] && series[i].id == id;
  }

  /** `Vec::resize(n, false)`. */
  function Resized(selected: seq<bool>, n: nat): (r: seq<bool>)
    ensures |r| == n
    ensures forall i :: 0 <= i < n ==> r[i] == (i < |selected| && selected[i])
  {
    if n <= |selected| then selected[..n] else selected + seq(n - |selected|, _ => false)
  }

  // ---------------------------------------------------------------------
  // Series swap
  // ---------------------------------------------------------------------

  /** `slice::swap(a, b)`. */
  function Swapped<T>(s: seq<T>, a: nat, b: nat): (r: seq<T>)
    requires a < |s| && b < |s|
    ensures |r| == |s| && r[a] == s[b] && r[b] == s[a]
    ensures forall i :: 0 <= i < |s| && i != a && i != b ==> r[i] == s[i]
  {
    s[a := s[b]][b := s[a]]
  }

  /** A swap is its own inverse and keeps the elements. */
  lemma SwapInvolution<T>(s: seq<T>, a: nat, b: nat)
    requires a < |s| && b < |s|
    ensures Swapped(Swapped(s, a, b), a, b) == s
    ensures multiset(Swapped(s, a, b)) == multiset(s)
  {
    SwapTwice(s, a, b);
    SwapKeepsElements(s, a, b);
  }

  /** Swapping the same two places twice restores the sequence. */
  lemma SwapTwice<T>(s: seq<T>, a: nat, b: nat)
    requires a < |s| && b < |s|
    ensures Swapped(Swapped(s, a, b), a, b) == s
  {
    var r := Swapped(Swapped(s, a, b), a, b);
    assert forall i :: 0 <= i < |s| ==> r[i] == s[i];
  }

  /** A swap rearranges the elements and loses none. */
  lemma SwapKeepsElements<T>(s: seq<T>, a: nat, b: nat)
    requires a < |s| && b < |s|
    ensures multiset(Swapped(s, a, b)) == multiset(s)
  {
    if a == b {
      assert Swapped(s, a, b) == s;
    } else {
      var t := s[a := s[b]];
      assert multiset(t) == multiset(s) - multiset{s[a]} + multiset{s[b]};
      assert Swapped(s, a, b) == t[b := s[a]];
    }
  }

  /** Swapping the check boxes along with the series keeps the same series
      selected. */
  lemma SwapKeepsSelection(selected: seq<bool>, series: seq<DataSeries>, a: nat, b: nat)
    requires |selected| == |series| && a < |series| && b < |series|
    ensures forall id :: id in SelectedIds(Swapped(selected, a, b), Swapped(series, a, b)) <==> id in SelectedIds(selected, series)
  {
    var sel2, ser2 := Swapped(selected, a, b), Swapped(series, a, b);
    SelectedIdsMembers(selected, series);
    SelectedIdsMembers(sel2, ser2);
    forall id | id in SelectedIds(selected, series)
      ensures id in SelectedIds(sel2, ser2)
    {
      var i :| 0 <= i < |selected| && i < |series| && selected[i] && series[i].id == id;
      var j := if i == a then b else if i == b then a else i;
      assert sel2[j] && ser2[j].id == id;
    }
    forall id | id in SelectedIds(sel2, ser2)
      ensures id in SelectedIds(selected, series)
    {
      var i :| 0 <= i < |sel2| && i < |ser2| && sel2[i] && ser2[i].id == id;
      var j := if i == a then b else if i == b then a else i;
      assert selected[j] && series[j].id == id;
    }
  }

  // ---------------------------------------------------------------------
  // Unit conversion
  // ---------------------------------------------------------------------

  /** `(v + bias) * factor`; a not-a-number operand gives not-a-number. */
  function ConvertValue(v: F64, bias: F64, factor: F64): (r: F64)
    ensures r.Fin? <==> v.Fin? && bias.Fin? && factor.Fin?
    ensures r.Fin? ==> r.v == (v.v + bias.v) * factor.v
  {
    FMul(FAdd(v, bias), factor)
  }

  /** Converting with bias `-bias·factor` and factor `1/factor` undoes a
      conversion. */
  lemma ConvertValueInverse(v: F64, bias: real, factor: real)
    requires factor != 0.0
    ensures ConvertValue(ConvertValue(v, Fin(bias), Fin(factor)), Fin(-bias * factor), Fin(1.0 / factor)) == v
  {
    if v.Fin? {
      var w := (v.v + bias) * factor;
      assert w + -bias * factor == v.v * factor;
      assert v.v * factor * (1.0 / factor) == v.v;
    }
  }

  /** The label with its unit suffix replaced: the text before the first
      " (", then " (unit)". */
  function Relabel(name: string, unit: string): string
  {
    PrefixBefore(name, " (") + " (" + unit + ")"
  }

  /** `split(sep).next()` of a string finds the first occurrence. */
  lemma PrefixBeforeIsFirst(t: string, sep: string, p: nat)
    requires |sep| > 0 && OccursAt(t, sep, p)
    requires forall k :: 0 <= k < p ==> !OccursAt(t, sep, k)
    ensures PrefixBefore(t, sep) == t[..p]
  {
    var r := PrefixBefore(t, sep);
    if |r| < p {
      assert OccursAt(t, sep, |r|);
    }
  }

  /** Converting twice leaves a single unit suffix: that of the second
      conversion. */
  lemma RelabelTwice(name: string, u1: string, u2: string)
    ensures Relabel(Relabel(name, u1), u2) == Relabel(name, u2)
  {
    var sep := " (";
    var p := PrefixBefore(name, sep);
    var t := p + sep + u1 + ")";
    assert t[|p|..|p| + 2] == sep;
    forall k | 0 <= k < |p|
      ensures !OccursAt(t, sep, k)
    {
      if k + 2 <= |p| {
        assert t[k..k + 2] == p[k..k + 2] == name[k..k + 2];
        assert !OccursAt(name, sep, k);
        assert k + 2 <= |name|;
        assert name[k..k + 2] != sep;
      } else {
        assert k + 1 == |p|;
        assert t[k + 1] == ' ';
        assert k + 2 <= |t| && t[k..k + 2][1] == t[k + 1] != sep[1];
      }
    }
    PrefixBeforeIsFirst(t, sep, |p|);
    assert t[..|p|] == p;
  }

  /** One selected series after the conversion. */
  function Converted(s: DataSeries, bias: F64, factor: F64, unit: string): (r: DataSeries)
    ensures |r.y| == |s.y| && forall i :: 0 <= i < |s.y| ==> r.y[i] == ConvertValue(s.y[i], bias, factor)
    ensures r.name == Relabel(s.name, unit) && r.unit == unit && r.needsResample
    ensures r.(y := s.y, name := s.name, unit := s.unit, needsResample := s.needsResample) == s
  {
    s.(y := seq(|s.y|, i requires 0 <= i < |s.y| => ConvertValue(s.y[i], bias, factor)),
       name := Relabel(s.name, unit), unit := unit, needsResample := true)
  }

  /** Converting back restores every y value. */
  lemma ConvertedInverse(s: DataSeries, bias: real, factor: real, u1: string, u2: string)
    requires factor != 0.0
    ensures Converted(Converted(s, Fin(bias), Fin(factor), u1), Fin(-bias * factor), Fin(1.0 / factor), u2).y == s.y
  {
    var back := Converted(Converted(s, Fin(bias), Fin(factor), u1), Fin(-bias * factor), Fin(1.0 / factor), u2);
    forall i | 0 <= i < |s.y|
      ensures back.y[i] == s.y[i]
    {
      ConvertValueInverse(s.y[i], bias, factor);
    }
  }

  /** The conversion applies only when both numbers parse, the unit name is
      not empty and the factor is not zero (a not-a-number factor is not zero,
      so it applies and turns every converted value into not-a-number). */
  predicate ConversionApplies(factor: Option<F64>, bias: Option<F64>, unit: string)
  {
    factor.Some? && bias.Some? && unit != [] && factor.value != Fin(0.0)
  }

  /** Converts the series whose id is selected. */
  method ConvertSelected(series: seq<DataSeries>, ids: seq<nat>, bias: F64, factor: F64, unit: string)
    returns (r: seq<DataSeries>)
    ensures |r| == |series|
    ensures forall k :: 0 <= k < |series| ==>
      r[k] == if series[k].id in ids then Converted(series[k], bias, factor, unit) else series[k]
  {
    r := series;
    for k := 0 to |series|
      invariant |r| == |series|
      invariant forall j :: 0 <= j < k ==>
        r[j] == if series[j].id in ids then Converted(series[j], bias, factor, unit) else series[j]
      invariant forall j :: k <= j < |series| ==> r[j] == series[j]
    {
      if r[k].id in ids {
        r := r[k := Converted(r[k], bias, factor, unit)];
      }
    }
  }

  // ---------------------------------------------------------------------
  // Statistics report
  // ---------------------------------------------------------------------

  /** One block of the report: the series label and its statistics, `None`
      for "No valid numeric data". */
  datatype ReportEntry = ReportEntry(name: string, stats: Option<Statistics.SeriesStats>)

  /** The series whose id is among `ids`, in series order. */
  function Picked(series: seq<DataSeries>, ids: seq<nat>): seq<DataSeries>
  {
    if series == [] then []
    else
      var n := |series| - 1;
      Picked(series[..n], ids) + (if series[n].id in ids then [series[n]] else [])
  }

  /** Entry `e` reports series `s`: its label, and the statistics of its
      finite values, or none when it has none. */
  ghost predicate Reports(e: ReportEntry, s: DataSeries)
  {
    && e.name == s.name
    && (e.stats.None? <==> Finite(s.y) == [])
    && (e.stats.Some? ==>
          && Statistics.Describes(e.stats.value, Finite(s.y))
          && exists sorted :: Statistics.Summarises(e.stats.value, Finite(s.y), sorted))
  }

  /** `report` is the report for `ids`: one entry per picked series, in
      series order. */
  ghost predicate IsReport(report: seq<ReportEntry>, series: seq<DataSeries>, ids: seq<nat>)
  {
    |report| == |Picked(series, ids)| && forall k :: 0 <= k < |report| ==> Reports(report[k], Picked(series, ids)[k])
  }

  /** The report: one entry per selected series, in series order. */
  method StatsReport(series: seq<DataSeries>, ids: seq<nat>) returns (report: seq<ReportEntry>)
    ensures |report| == |Picked(series, ids)|
    ensures forall k :: 0 <= k < |report| ==>
      var s := Picked(series, ids)[k];
      report[k].name == s.name
      && (report[k].stats.None? <==> Finite(s.y) == [])
      && (report[k].stats.Some? ==> report[k].stats.value.count == |Finite(s.y)|)
      && (report[k].stats.Some? ==> Statistics.Describes(report[k].stats.value, Finite(s.y)))
    ensures IsReport(report, series, ids)
  {
    report := [];
    for i := 0 to |series|
      invariant IsReport(report, series[..i], ids)
    {
      assert series[..i + 1][..i] == series[..i];
      assert series[..i + 1][i] == series[i];
      if series[i].id in ids {
        var st, sorted := Statistics.Compute(series[i].y);
        assert Reports(ReportEntry(series[i].name, st), series[i]);
        report := report + [ReportEntry(series[i].name, st)];
      }
    }
    assert series[..|series|] == series;
  }

  /** The report is rebuilt when nothing is cached or the selection
      changed. */
  predicate NeedRecompute(cache: Option<(seq<nat>, seq<ReportEntry>)>, ids: seq<nat>)
  {
    cache.None? || cache.value.0 != ids
  }

  // ---------------------------------------------------------------------
  // Math
  // ---------------------------------------------------------------------

  /** The operands of "Apply Math": the series of the first and of the
      second selected id, in that order. */
  function MathOperands(selected: seq<bool>, series: seq<DataSeries>): (p: (DataSeries, DataSeries))
    requires |SelectedIds(selected, series)| == 2
    ensures exists k :: 0 <= k < |series| && series[k] == p.0
    ensures exists k :: 0 <= k < |series| && series[k] == p.1
    ensures p.0.id == SelectedIds(selected, series)[0] && p.1.id == SelectedIds(selected, series)[1]
  {
    var ids := SelectedIds(selected, series);
    SelectedIdsFound(selected, series, ids[0]);
    SelectedIdsFound(selected, series, ids[1]);
    (series[FindSeries(series, ids[0]).value], series[FindSeries(series, ids[1]).value])
  }

  /** The series a successful operation adds: titled "s1 op s2", in the
      shared unit or "units", coloured for the graph's series counter. */
  function MathSeries(s1: DataSeries, s2: DataSeries, op: MathOps.MathOp, res: MathOps.MathResult,
                      id: nat, counter: nat): DataSeries
  {
    NewSeries(id, s1.name + " " + MathOps.Symbol(op) + " " + s2.name, res.x, res.y, ColorForIndex(counter),
              if s1.unit == s2.unit then s1.unit else "units")
  }

  /** The axes after adding a series with unit `unit`. */
  function WithAxisFor(axes: map<string, AxisState>, unit: string): map<string, AxisState>
  {
    if unit in axes then axes else axes[unit := AxisFor(unit)]
  }

  // ---------------------------------------------------------------------
  // Dialog state
  // ---------------------------------------------------------------------

  /** The tolerance within which "Apply Math" pairs x values. */
  const MathTolerance: real := 0.00001

  class SettingsDialogState {
    const graphId: nat
    var selectedSeries: seq<bool>
    var mathOp: MathOps.MathOp
    var mathError: string
    var unitNewName: string
    var unitFactor: string
    var unitBias: string
    /** The ids the report was made for, and the report. */
    var statsCache: Option<(seq<nat>, seq<ReportEntry>)>

    /** `SettingsDialogState::new`: nothing selected, factor 1, bias 0. */
    constructor (graphId: nat, seriesCount: nat)
      ensures this.graphId == graphId
      ensures |selectedSeries| == seriesCount && forall i :: 0 <= i < seriesCount ==> !selectedSeries[i]
      ensures mathOp == MathOps.Add && mathError == [] && unitNewName == []
      ensures unitFactor == "1.0" && unitBias == "0.0" && statsCache.None?
    {
      this.graphId := graphId;
      selectedSeries := seq(seriesCount, _ => false);
      mathOp := MathOps.Add;
      mathError := [];
      unitNewName := [];
      unitFactor := "1.0";
      unitBias := "0.0";
      statsCache := None;
    }

    /** The swap of the reorder buttons: the series always, the check
        boxes only when both positions have one. */
    method ApplySwap(g: GraphState, a: nat, b: nat)
      requires a < |g.series| && b < |g.series|
      modifies g`series, this`selectedSeries
      ensures g.series == Swapped(old(g.series), a, b)
      ensures a < |old(selectedSeries)| && b < |old(selectedSeries)| ==> selectedSeries == Swapped(old(selectedSeries), a, b)
      ensures !(a < |old(selectedSeries)| && b < |old(selectedSeries)|) ==> selectedSeries == old(selectedSeries)
    {
      g.series := Swapped(g.series, a, b);
      if a < |selectedSeries| && b < |selectedSeries| {
        selectedSeries := Swapped(selectedSeries, a, b);
      }
    }

    /** The check boxes follow the number of series. */
    method SyncSelection(n: nat)
      modifies this`selectedSeries
      ensures selectedSeries == Resized(old(selectedSeries), n)
    {
      if |selectedSeries| != n {
        selectedSeries := Resized(selectedSeries, n);
      } else {
        assert selectedSeries == Resized(selectedSeries, n);
      }
    }

    /** "Apply Conversion", with the parsed factor and bias. */
    method ApplyConversion(g: GraphState, factor: Option<F64>, bias: Option<F64>)
      modifies g`series
      ensures !ConversionApplies(factor, bias, unitNewName) ==> g.series == old(g.series)
      ensures ConversionApplies(factor, bias, unitNewName) ==>
        var ids := SelectedIds(selectedSeries, old(g.series));
        |g.series| == |old(g.series)|
        && forall k :: 0 <= k < |g.series| ==>
          g.series[k] == if old(g.series)[k].id in ids then Converted(old(g.series)[k], bias.value, factor.value, unitNewName) else old(g.series)[k]
    {
      if ConversionApplies(factor, bias, unitNewName) {
        var ids := SelectedIds(selectedSeries, g.series);
        g.series := ConvertSelected(g.series, ids, bias.value, factor.value, unitNewName);
      }
    }

    /** The statistics panel: an empty selection clears the cache, a changed
        selection rebuilds the report. */
    method ShowStats(g: GraphState) returns (recomputed: bool)
      modifies this`statsCache
      ensures var ids := SelectedIds(selectedSeries, g.series);
        && (ids == [] ==> statsCache.None? && !recomputed)
        && (ids != [] ==> (recomputed <==> NeedRecompute(old(statsCache), ids)))
        && (ids != [] ==> statsCache.Some? && statsCache.value.0 == ids && !NeedRecompute(statsCache, ids))
        && (ids != [] && !recomputed ==> statsCache == old(statsCache))
        && (recomputed ==> |statsCache.value.1| == |Picked(g.series, ids)|)
        && (recomputed ==> IsReport(statsCache.value.1, g.series, ids))
    {
      var ids := SelectedIds(selectedSeries, g.series);
      if ids == [] {
        statsCache := None;
        return false;
      }
      recomputed := NeedRecompute(statsCache, ids);
      if recomputed {
        var report := StatsReport(g.series, ids);
        statsCache := Some((ids, report));
      }
    }

    /** "Apply Math" with exactly two series selected: on success the result
        is added as a new series (id `nextId`) with an unchecked box and the
        error is cleared; on failure the error is shown and nothing else
        changes. */
    method ApplyMath(g: GraphState, clicked: bool, nextId: nat) returns (ghost order: seq<nat>)
      requires forall k :: 0 <= k < |g.series| ==> |g.series[k].y| >= |g.series[k].x|
      modifies g`series, g`seriesCounter, g`yAxes, this`mathError, this`selectedSeries
      ensures var ids := SelectedIds(old(selectedSeries), old(g.series));
        !clicked || |ids| != 2 ==>
          g.series == old(g.series) && mathError == old(mathError) && selectedSeries == old(selectedSeries)
          && g.seriesCounter == old(g.seriesCounter) && g.yAxes == old(g.yAxes)
      ensures var ids := SelectedIds(old(selectedSeries), old(g.series));
        clicked && |ids| == 2 ==>
          var ops := MathOperands(old(selectedSeries), old(g.series));
          && MathOps.SortsX2(ops.1.x, order)
          && var r := MathOps.Joined(ops.0.x, ops.0.y, ops.1.x, ops.1.y, mathOp, MathTolerance, order);
          && (r.Err? ==>
                && g.series == old(g.series) && g.seriesCounter == old(g.seriesCounter) && g.yAxes == old(g.yAxes)
                && mathError == r.error && selectedSeries == old(selectedSeries))
          && (r.Ok? ==>
                var added := MathSeries(ops.0, ops.1, mathOp, r.value, nextId, old(g.seriesCounter));
                && g.series == old(g.series) + [added]
                && g.seriesCounter == old(g.seriesCounter) + 1
                && g.yAxes == WithAxisFor(old(g.yAxes), added.unit)
                && mathError == [] && selectedSeries == old(selectedSeries) + [false])
    {
      order := [];
      var ids := SelectedIds(selectedSeries, g.series);
      if !clicked || |ids| != 2 {
        return;
      }
      SelectedIdsFound(selectedSeries, g.series, ids[0]);
      SelectedIdsFound(selectedSeries, g.series, ids[1]);
      var i1, i2 := FindSeries(g.series, ids[0]), FindSeries(g.series, ids[1]);
      var s1, s2 := g.series[i1.value], g.series[i2.value];
      assert (s1, s2) == MathOperands(selectedSeries, g.series);
      var r;
      r, order := MathOps.PerformMath(s1.x, s1.y, s2.x, s2.y, mathOp, MathTolerance);
      if r.Ok? {
        var unit := if s1.unit == s2.unit then s1.unit else "units";
        var title := s1.name + " " + MathOps.Symbol(mathOp) + " " + s2.name;
        var ns := NewSeries(nextId, title, r.value.x, r.value.y, ColorForIndex(g.seriesCounter), unit);
        assert ns == MathSeries(s1, s2, mathOp, r.value, nextId, g.seriesCounter);
        assert Colored(ns, g.seriesCounter) == ns;
        g.AddSeries(ns);
        mathError := [];
        selectedSeries := selectedSeries + [false];
      } else {
        mathError := r.error;
      }
    }
  }
}
