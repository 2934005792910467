/**
 * The data selection dialog shown after a file is loaded: which columns it
 * offers, and the column selection its OK button produces. Whether a cell
 * reads as a number (`trim().parse::<f64>()` succeeding) is the predicate
 * `numeric`, given by the caller.
 */
module DataSelection {
  import opened Common

  /** At most this many cells of a column are sampled. */
  const SampleSize: nat := 100

  /** How many cells of `cells` read as numbers. */
  function NumericCount(cells: seq<string>, numeric: string -> bool): (c: nat)
    ensures c <= |cells|
  {
    if cells == [] then 0
    else NumericCount(cells[..|cells| - 1], numeric) + (if numeric(cells[|cells| - 1]) then 1 else 0)
  }

  /** The first cells of a column, at most `SampleSize` of them. */
  function Sample(cells: seq<string>): (s: seq<string>)
    ensures |s| == if |cells| < SampleSize then |cells| else SampleSize
    ensures s == cells[..|s|]
  {
    if |cells| < SampleSize then cells else cells[..SampleSize]
  }

  /** A column is offered when its lower-cased name contains "time", or when
      at least half of its sampled cells read as numbers; an empty column
      without "time" in its name is not offered. */
  predicate IsUsable(name: string, cells: seq<string>, numeric: string -> bool)
  {
    Contains(Lower(name), "time")
    || (var s := Sample(cells); |s| > 0 && 2 * NumericCount(s, numeric) >= |s|)
  }

  /** The usable columns among the first `n`, ascending. */
  function UsableColumns(names: seq<string>, data: seq<seq<string>>, numeric: string -> bool, n: nat): (r: seq<nat>)
    requires n <= |names| && |data| == |names|
    ensures forall i, j :: 0 <= i < j < |r| ==> r[i] < r[j]
    ensures forall k :: 0 <= k < |r| ==> r[k] < n
    ensures forall c: nat :: c in r <==> c < n && IsUsable(names[c], data[c], numeric)
  {
    if n == 0 then []
    else
      var r := UsableColumns(names, data, numeric, n - 1);
      assert forall k :: 0 <= k < |r| ==> r[k] in r && r[k] < n - 1;
      r + (if IsUsable(names[n - 1], data[n - 1], numeric) then [n - 1] else [])
  }

  /** The indices of the checked boxes, mapped through the offered columns,
      in order. */
  function CheckedColumns(checked: seq<bool>, usable: seq<nat>): (r: seq<nat>)
    requires |checked| <= |usable|
    ensures |r| <= |checked|
    ensures forall i :: 0 <= i < |checked| && checked[i] ==> usable[i] in r
    ensures forall c :: c in r ==> exists i :: 0 <= i < |checked| && checked[i] && usable[i] == c
    ensures r == [] <==> forall i :: 0 <= i < |checked| ==> !checked[i]
  {
    if checked == [] then []
    else
      var n := |checked| - 1;
      var init := CheckedColumns(checked[..n], usable);
      assert forall c :: c in init ==> exists i :: 0 <= i < |checked| && checked[i] && usable[i] == c by {
        forall c | c in init
          ensures exists i :: 0 <= i < |checked| && checked[i] && usable[i] == c
        {
          var i :| 0 <= i < n && checked[..n][i] && usable[i] == c;
          assert checked[i] == checked[..n][i];
        }
      }
      assert forall i :: 0 <= i < n ==> checked[..n][i] == checked[i];
      init + (if checked[n] then [usable[n]] else [])
  }

  /** Checked columns of strictly increasing offered columns are strictly
      increasing too. */
  lemma {:induction false} CheckedColumnsAscending(checked: seq<bool>, usable: seq<nat>)
    requires |checked| <= |usable|
    requires forall i, j :: 0 <= i < j < |usable| ==> usable[i] < usable[j]
    ensures forall a, b :: 0 <= a < b < |CheckedColumns(checked, usable)| ==>
      CheckedColumns(checked, usable)[a] < CheckedColumns(checked, usable)[b]
  {
    if checked != [] {
      var n := |checked| - 1;
      CheckedColumnsAscending(checked[..n], usable);
      var init := CheckedColumns(checked[..n], usable);
      var r := CheckedColumns(checked, usable);
      assert r == init + (if checked[n] then [usable[n]] else []);
      forall a, b | 0 <= a < b < |r|
        ensures r[a] < r[b]
      {
        if b >= |init| {
          assert r[a] == init[a] && init[a] in init;
          var i :| 0 <= i < n && checked[..n][i] && usable[i] == init[a];
        }
      }
    }
  }

  /** The columns the dialog offers: the usable ones, or all columns when
      none is usable. */
  function OfferedColumns(names: seq<string>, data: seq<seq<string>>, numeric: string -> bool): (r: seq<nat>)
    requires |data| == |names|
    ensures forall i, j :: 0 <= i < j < |r| ==> r[i] < r[j]
    ensures forall k :: 0 <= k < |r| ==> r[k] < |names|
    ensures UsableColumns(names, data, numeric, |names|) != [] ==> r == UsableColumns(names, data, numeric, |names|)
    ensures UsableColumns(names, data, numeric, |names|) == [] ==> |r| == |names| && forall k :: 0 <= k < |r| ==> r[k] == k
  {
    var u := UsableColumns(names, data, numeric, |names|);
    if u == [] then seq(|names|, i => i) else u
  }

  /** `ColumnSelection`: what OK hands to the application. */
  datatype ColumnSelection = ColumnSelection(graphId: nat, xCol: nat, yCols: seq<nat>, zCol: Option<nat>)

  class DataSelectionState {
    const columns: seq<string>
    const columnData: seq<seq<string>>
    const targetGraphId: nat
    /** Indices into `usableColumns`. */
    var selectedX: nat
    var selectedY: seq<bool>
    var selectedZ: Option<nat>
    const usableColumns: seq<nat>

    /** The selections index the offered columns. */
    predicate Valid()
      reads this
    {
      |selectedY| == |usableColumns|
      && (usableColumns != [] ==> selectedX < |usableColumns|)
      && (selectedZ.Some? ==> selectedZ.value < |usableColumns|)
      && forall i :: 0 <= i < |usableColumns| ==> usableColumns[i] < |columns|
    }

    /** `DataSelectionState::new`: the usable columns, or every column when
        none is usable; nothing checked, the first offered column as x and
        no z. */
    constructor (columns: seq<string>, columnData: seq<seq<string>>, targetGraphId: nat, numeric: string -> bool)
      requires |columnData| == |columns|
      ensures Valid()
      ensures this.columns == columns && this.columnData == columnData && this.targetGraphId == targetGraphId
      ensures usableColumns == OfferedColumns(columns, columnData, numeric)
      ensures selectedX == 0 && selectedZ.None?
      ensures forall i :: 0 <= i < |selectedY| ==> !selectedY[i]
    {
      this.columns := columns;
      this.columnData := columnData;
      this.targetGraphId := targetGraphId;
      var usable := OfferedColumns(columns, columnData, numeric);
      usableColumns := usable;
      selectedX := 0;
      selectedY := seq(|usable|, _ => false);
      selectedZ := None;
    }

    /** The OK button: a selection only when some y column is checked, with
        every index mapped through the offered columns. */
    function OkResult(): (r: Option<ColumnSelection>)
      reads this
      requires Valid()
      ensures r.Some? <==> exists i :: 0 <= i < |selectedY| && selectedY[i]
      ensures r.Some? ==> r.value.graphId == targetGraphId && r.value.xCol == usableColumns[selectedX]
      ensures r.Some? ==> r.value.yCols == CheckedColumns(selectedY, usableColumns)
      ensures r.Some? ==> r.value.zCol == if selectedZ.None? then None else Some(usableColumns[selectedZ.value])
      ensures r.Some? ==> r.value.xCol < |columns| && forall c :: c in r.value.yCols ==> c < |columns|
    {
      var ys := CheckedColumns(selectedY, usableColumns);
      if ys == [] then None
      else
        var z := if selectedZ.None? then None else Some(usableColumns[selectedZ.value]);
        Some(ColumnSelection(targetGraphId, usableColumns[selectedX], ys, z))
    }
  }
}
