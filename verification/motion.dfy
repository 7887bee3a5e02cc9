/** The motion-regressor merger (`motion_noise`), shared by both first-level
    scripts up to how many trailing time points each drops: every column of a
    run's nuisance file becomes a named regressor appended to that run's bundle. */
module Motion {
  import opened Results
  import opened Lists
  import opened Text
  import opened Tables
  import opened Design

  /** The canonical names of the first 17 nuisance channels. */
  const FixedNames: seq<string> := [
    "Pitch (rad)", "Roll (rad)", "Yaw (rad)", "Tx (mm)", "Ty (mm)", "Tz (mm)",
    "Pitch_1d", "Roll_1d", "Yaw_1d", "Tx_1d", "Ty_1d", "Tz_1d",
    "Norm (mm)", "LG_1stOrd", "LG_2ndOrd", "LG_3rdOrd", "LG_4thOrd"]

  /** The name list built for a file with `width` columns: the fixed names,
      then `out_1`, `out_2`, ... for each column beyond the 17th. */
  function NameList(width: nat): (names: seq<string>)
    ensures |names| >= width
  {
    FixedNames + (if width > 17 then seq(width - 17, k requires 0 <= k => "out_" + Show(k + 1)) else [])
  }

  /** The name of channel `z`, stated without the list: fixed for the first 17,
      then `out_<z - 16>`. */
  function ChannelName(z: nat): string {
    if z < |FixedNames| then FixedNames[z] else "out_" + Show(z - 16)
  }

  /** The names of the first `width` channels. */
  function ChannelNames(width: nat): (names: seq<string>)
    ensures |names| == width
    ensures forall z :: 0 <= z < width ==> names[z] == ChannelName(z)
  {
    seq(width, z requires 0 <= z => ChannelName(z))
  }

  /** `cols` are the columns of `t` with the last `trim` rows dropped. */
  ghost predicate ColumnsOf<V>(cols: seq<seq<V>>, t: Table<V>, trim: nat)
    requires WellShaped(t) && t.Rows?
  {
    var kept := Trimmed(t.rows, trim);
    && |cols| == |t.rows[0]|
    && (forall z :: 0 <= z < |cols| ==> |cols[z]| == |kept|)
    && (forall z, i :: 0 <= z < |cols| && 0 <= i < |kept| ==> cols[z][i] == t.rows[i][z])
  }

  /** One nuisance file reduced to its channels: names and sample columns. */
  datatype NoiseFile<V> = NoiseFile(names: seq<string>, columns: seq<seq<V>>)

  /** The rows kept after dropping the last `trim`: `a[:-trim]` for `trim` >= 1
      (GLM1.2 passes 3). A `trim` of 0 stands for no slicing at all, as in GLM2,
      which uses the array whole; it is not Python's `a[:-0]`, which keeps nothing. */
  function Trimmed<V>(rows: seq<seq<V>>, trim: nat): (kept: seq<seq<V>>)
    ensures |kept| == if |rows| >= trim then |rows| - trim else 0
    ensures forall i :: 0 <= i < |kept| ==> kept[i] == rows[i]
  {
    if |rows| >= trim then rows[..|rows| - trim] else []
  }

  /** `a.shape[1]` and `a[:, z].tolist()` for each column `z`: only a
      two-dimensional array has a second dimension. */
  function ReadNoise<V>(t: Table<V>, trim: nat): (r: Result<NoiseFile<V>>)
    requires WellShaped(t)
    ensures r.Success? <==> t.Rows?
    ensures r.Success? ==>
      && |r.value.names| == |r.value.columns| == |t.rows[0]|
      && (forall z :: 0 <= z < |t.rows[0]| ==> r.value.names[z] == ChannelName(z))
      && (forall z :: 0 <= z < |t.rows[0]| ==> |r.value.columns[z]| == |Trimmed(t.rows, trim)|)
      && (forall z, i :: 0 <= z < |t.rows[0]| && 0 <= i < |Trimmed(t.rows, trim)| ==> r.value.columns[z][i] == t.rows[i][z])
  {
    match t
    case Rows(rows) =>
      var kept := Trimmed(rows, trim);
      var width := |rows[0]|;
      var names := NameList(width);
      assert forall z :: 0 <= z < width ==> names[z] == ChannelName(z);
      Success(NoiseFile(names[..width], seq(width, z requires 0 <= z < width => Col(kept, z))))
    case _ => Failure(IndexError("tuple index out of range"))
  }

  /** The first loop: every file is read, in order, before any bundle is touched. */
  function ReadAll<V>(files: seq<Table<V>>, trim: nat): (r: Result<seq<NoiseFile<V>>>)
    requires forall j :: 0 <= j < |files| ==> WellShaped(files[j])
    ensures r.Success? <==> forall j :: 0 <= j < |files| ==> files[j].Rows?
    ensures r.Success? ==> |r.value| == |files|
    ensures r.Success? ==> forall j :: 0 <= j < |files| ==> Success(r.value[j]) == ReadNoise(files[j], trim)
  {
    if files == [] then Success([])
    else
      var first :- ReadNoise(files[0], trim);
      var rest :- ReadAll(files[1..], trim);
      assert forall j :: 1 <= j < |files| ==> files[1..][j - 1] == files[j];
      Success([first] + rest)
  }

  /** The second loop's body for one bundle: missing regressor lists start
      empty, then the file's channels are appended in column order. */
  function AppendNoise<V>(b: Bunch<V>, n: NoiseFile<V>): Bunch<V> {
    b.(regressorNames := Some(OrEmpty(b.regressorNames) + n.names),
       regressors := Some(OrEmpty(b.regressors) + n.columns))
  }

  /** `after` is `before` with the channels of nuisance file `t` appended:
      timing untouched, earlier regressors kept as a prefix, one regressor per
      column holding that column's samples with the last `trim` rows dropped. */
  ghost predicate MergedFrom<V>(after: Bunch<V>, before: Bunch<V>, t: Table<V>, trim: nat)
    requires WellShaped(t) && t.Rows?
  {
    var width := |t.rows[0]|;
    var oldNames := OrEmpty(before.regressorNames);
    var oldRegs := OrEmpty(before.regressors);
    && after.conditions == before.conditions
    && after.onsets == before.onsets
    && after.durations == before.durations
    && after.amplitudes == before.amplitudes
    && after.tmod == before.tmod
    && after.pmod == before.pmod
    && after.regressorNames == Some(oldNames + ChannelNames(width))
    && after.regressors.Some?
    && |after.regressors.value| == |oldRegs| + width
    && after.regressors.value[..|oldRegs|] == oldRegs
    && ColumnsOf(after.regressors.value[|oldRegs|..], t, trim)
  }

  lemma AppendNoiseMerges<V>(b: Bunch<V>, t: Table<V>, trim: nat, n: NoiseFile<V>)
    requires WellShaped(t) && ReadNoise(t, trim) == Success(n)
    ensures MergedFrom(AppendNoise(b, n), b, t, trim)
  {
    var after := AppendNoise(b, n);
    var oldRegs := OrEmpty(b.regressors);
    assert after.regressors.value[|oldRegs|..] == n.columns;
    assert n.names == ChannelNames(|t.rows[0]|);
  }

  /** `motion_noise(subjinfo, files)` with the last `trim` rows of every file
      dropped. It fails when a file is not two-dimensional, or when there are
      fewer files than bundles; files beyond the bundles are read and ignored. */
  function Merge<V>(subjinfo: ListOr<Bunch<V>>, files: ListOr<Table<V>>, trim: nat): (r: Result<seq<Bunch<V>>>)
    requires forall j :: 0 <= j < |AsList(files)| ==> WellShaped(AsList(files)[j])
    ensures r.Success? <==>
      && (forall j :: 0 <= j < |AsList(files)| ==> AsList(files)[j].Rows?)
      && |AsList(subjinfo)| <= |AsList(files)|
    ensures r.Success? ==> |r.value| == |AsList(subjinfo)|
    ensures r.Success? ==> forall j :: 0 <= j < |r.value| ==>
      MergedFrom(r.value[j], AsList(subjinfo)[j], AsList(files)[j], trim)
  {
    var bundles := AsList(subjinfo);
    var noise :- ReadAll(AsList(files), trim);
    if |noise| < |bundles| then Failure(IndexError("list index out of range"))
    else
      var merged := seq(|bundles|, j requires 0 <= j < |bundles| => AppendNoise(bundles[j], noise[j]));
      assert forall j :: 0 <= j < |bundles| ==> MergedFrom(merged[j], bundles[j], AsList(files)[j], trim) by {
        forall j | 0 <= j < |bundles| {
          AppendNoiseMerges(bundles[j], AsList(files)[j], trim, noise[j]);
        }
      }
      Success(merged)
  }

  lemma FixedNamesNotOut(z: nat)
    requires z < |FixedNames|
    ensures |FixedNames[z]| > 0 && FixedNames[z][0] != 'o'
  {
  }

  /** Every appended channel gets a different name: the fixed names are
      distinct, none begins with `out_`, and `out_<k>` names differ by number. */
  lemma ChannelNamesDistinct(z1: nat, z2: nat)
    requires z1 != z2
    ensures ChannelName(z1) != ChannelName(z2)
  {
    if z1 >= 17 && z2 >= 17 {
      if ChannelName(z1) == ChannelName(z2) {
        PrefixCancel("out_", Show(z1 - 16), Show(z2 - 16));
        ShowInjective(z1 - 16, z2 - 16);
      }
    } else if z1 < 17 && z2 >= 17 {
      FixedNamesNotOut(z1);
      assert ChannelName(z2)[0] == 'o';
    } else if z1 >= 17 && z2 < 17 {
      FixedNamesNotOut(z2);
      assert ChannelName(z1)[0] == 'o';
    }
  }
}
