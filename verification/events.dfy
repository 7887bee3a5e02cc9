/** The behavioural-event loader's per-table step: turning one parsed event
    file into one condition record (name with onsets, durations, amplitudes). */
module Events {
  import opened Results
  import opened Tables

  /** The parsed event files of one subject, keyed by run number and by the
      category the file name carries (`run<r>_<category>.txt`). */
  type EventFiles = map<(nat, string), Table<real>>

  predicate WellShapedFiles(files: EventFiles) {
    forall key :: key in files ==> WellShaped(files[key])
  }

  /** Reading `run<run>_<category>.txt`; an absent file is an I/O error. */
  function Read(files: EventFiles, run: nat, category: string): (r: Result<Table<real>>)
    ensures r.Success? <==> (run, category) in files
    ensures r.Success? ==> r.value == files[(run, category)]
  {
    if (run, category) in files then Success(files[(run, category)])
    else Failure(MissingFile(run, category))
  }

  /** The run's file for `category` exists and is not empty (`size > 0`). */
  predicate NonEmptyFile(files: EventFiles, run: nat, category: string)
    requires WellShapedFiles(files)
  {
    (run, category) in files && Size(files[(run, category)]) > 0
  }

  /** One experimental condition for one run. */
  datatype Condition = Condition(name: string, onsets: seq<real>, durations: seq<real>, amplitudes: seq<real>)

  /** A condition has one onset, one duration and one amplitude per trial. */
  predicate Parallel(c: Condition) {
    |c.onsets| == |c.durations| == |c.amplitudes|
  }

  /** The condition whose timing columns 0, 1 and 2 are read from `rows`. */
  function Timing(name: string, rows: seq<seq<real>>): (c: Condition)
    requires forall i :: 0 <= i < |rows| ==> |rows[i]| >= 3
    ensures Parallel(c) && |c.onsets| == |rows|
  {
    Condition(name, Col(rows, 0), Col(rows, 1), Col(rows, 2))
  }

  /** `map(float, t[:, 0])`, `map(float, t[:, 1])`, `map(float, t[:, 2])`:
      the table is indexed as two-dimensional whatever its shape. A well-shaped
      two-dimensional array always has column 1, so only columns 0 and 2 can fail. */
  function TableTiming(name: string, t: Table<real>): (r: Result<Condition>)
    requires WellShaped(t)
    ensures r.Success? <==> MultiRow(t)
    ensures r.Success? ==> HasTimingColumns(t) && r.value == Timing(name, EventRows(t))
  {
    var onsets :- Column(t, 0);
    var amplitudes :- Column(t, 2);
    Success(Condition(name, onsets, Column(t, 1).value, amplitudes))
  }

  /** `if t.size == 3: [float(t[0])], [float(t[1])], [float(t[2])]`, else the
      first three columns: a one-dimensional array of three cells (one row of
      three, or one column of three lines) becomes singleton lists. */
  function SizeAwareTiming(name: string, t: Table<real>): (r: Result<Condition>)
    requires WellShaped(t)
    ensures r.Success? <==> OneOrMoreRows(t)
    ensures r.Success? ==> HasTimingColumns(t) && r.value == Timing(name, EventRows(t))
  {
    SizeThree(t);
    if Size(t) == 3 then
      Success(Condition(name, [t.cells[0]], [t.cells[1]], [t.cells[2]]))
    else
      TableTiming(name, t)
  }
}
