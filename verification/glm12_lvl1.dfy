/** The first-level helpers of model GLM1.2: one trial category
    (`all_before_B`, split into correct and incorrect trials) plus the
    remaining trials, six runs per subject. */
module Glm12Lvl1 {
  import opened Results
  import opened Lists
  import opened Tables
  import opened Events
  import opened Design
  import opened Naming
  import opened Motion

  const Corr: string := "all_before_B_corr"
  const Incorr: string := "all_before_B_incorr"
  const Remaining: string := "all_remaining"

  /** The `all_before_B` category: the correct condition always, the incorrect
      one only when its file is not empty. The correct table is always indexed
      as two-dimensional; only the incorrect table may instead be a
      one-dimensional array of three cells (a one-row file of three cells or a
      three-line file of one column). */
  function CategoryConditions(category: string, corr: Table<real>, incorr: Table<real>): (r: Result<seq<Condition>>)
    requires WellShaped(corr) && WellShaped(incorr)
    ensures r.Success? <==> MultiRow(corr) && (Size(incorr) == 0 || OneOrMoreRows(incorr))
    ensures r.Success? ==> |r.value| == (if Size(incorr) > 0 then 2 else 1)
    ensures r.Success? ==> HasTimingColumns(corr) && r.value[0] == Timing(category + "_corr", EventRows(corr))
    ensures r.Success? && Size(incorr) > 0 ==>
      HasTimingColumns(incorr) && r.value[1] == Timing(category + "_incorr", EventRows(incorr))
  {
    if Size(incorr) > 0 then
      var c :- TableTiming(category + "_corr", corr);
      var i :- SizeAwareTiming(category + "_incorr", incorr);
      Success([c, i])
    else
      var c :- TableTiming(category + "_corr", corr);
      Success([c])
  }

  /** The three files of a run exist and have the shapes the loader can index. */
  predicate RunLoadable(files: EventFiles, run: nat)
    requires WellShapedFiles(files)
  {
    && (run, Corr) in files && (run, Incorr) in files && (run, Remaining) in files
    && MultiRow(files[(run, Corr)])
    && (Size(files[(run, Incorr)]) == 0 || OneOrMoreRows(files[(run, Incorr)]))
    && MultiRow(files[(run, Remaining)])
  }

  /** The condition names of a run, depending on whether incorrect trials occurred. */
  function ExpectedConditions(incorrect: bool): seq<string> {
    if incorrect then [Corr, Incorr, Remaining] else [Corr, Remaining]
  }

  /** `b` is the bundle the loader builds for run `run`. */
  ghost predicate RecordsRun<V>(b: Bunch<V>, files: EventFiles, run: nat)
    requires WellShapedFiles(files)
  {
    && b.conditions == ExpectedConditions(NonEmptyFile(files, run, Incorr))
    && |b.onsets| == |b.durations| == |b.amplitudes| == |b.conditions|
    && (forall k :: 0 <= k < |b.conditions| ==> RecordsTiming(b, k, files, run))
    && b.tmod == None && b.pmod == None && b.regressorNames == None && b.regressors == None
  }

  /** One iteration of the run loop: read the three files, build the category's
      conditions, append the remaining trials, and flatten into one bundle. */
  function RunBundle<V>(files: EventFiles, run: nat): (r: Result<Bunch<V>>)
    requires WellShapedFiles(files)
    ensures r.Success? <==> RunLoadable(files, run)
    ensures r.Success? ==> RecordsRun(r.value, files, run)
  {
    var corr :- Read(files, run, Corr);
    var incorr :- Read(files, run, Incorr);
    var remaining :- Read(files, run, Remaining);
    var before :- CategoryConditions("all_before_B", corr, incorr);
    var rest :- TableTiming(Remaining, remaining);
    FlattenTwo(before, [rest]);
    var conds := Flatten([before, [rest]]);
    var b: Bunch<V> := Assemble(conds);
    assert "all_before_B" + "_corr" == Corr && "all_before_B" + "_incorr" == Incorr;
    assert b.conditions == ExpectedConditions(Size(incorr) > 0) by {
      assert |conds| == |b.conditions|;
      if Size(incorr) > 0 {
        assert conds == [before[0], before[1], rest];
      } else {
        assert conds == [before[0], rest];
      }
    }
    assert forall k :: 0 <= k < |b.conditions| ==> RecordsTiming(b, k, files, run);
    Success(b)
  }

  /** The six bundles of a subject, in run order 1 to 6. */
  ghost predicate IsSubjectInfo<V>(files: EventFiles, bundles: seq<Bunch<V>>)
    requires WellShapedFiles(files)
  {
    |bundles| == 6 && forall i :: 0 <= i < 6 ==> RecordsRun(bundles[i], files, i + 1)
  }

  /** `subjectinfo(subject_id)` over the subject's parsed files: each run's
      bundle is inserted at index `run`, which, past the end, appends. */
  method SubjectInfo<V>(files: EventFiles) returns (r: Result<seq<Bunch<V>>>)
    requires WellShapedFiles(files)
    ensures r.Success? <==> forall run :: 1 <= run <= 6 ==> RunLoadable(files, run)
    ensures r.Success? ==> IsSubjectInfo(files, r.value)
  {
    var output: seq<Bunch<V>> := [];
    var run := 1;
    while run < 7
      invariant 1 <= run <= 7
      invariant |output| == run - 1
      invariant forall k :: 1 <= k < run ==> RunLoadable(files, k)
      invariant forall i :: 0 <= i < |output| ==> RecordsRun(output[i], files, i + 1)
    {
      var b := RunBundle<V>(files, run);
      if b.Failure? {
        return Failure(b.error);
      }
      InsertPastEndAppends(output, run, b.value);
      output := Insert(output, run, b.value);
      run := run + 1;
    }
    return Success(output);
  }

  /** `['all_corr_minus_all_incorr', 'T', [corr, incorr], [1, -1]]` */
  const CorrMinusIncorr: Contrast := Pair("all_corr_minus_all_incorr", Corr, Incorr, 1.0, -1.0)
  /** `['all_incorr_minus_all_corr', 'T', [corr, incorr], [-1, 1]]` */
  const IncorrMinusCorr: Contrast := Pair("all_incorr_minus_all_corr", Corr, Incorr, -1.0, 1.0)

  predicate BothPresent(conds: seq<string>) {
    Corr in conds && Incorr in conds
  }

  /** The contrasts of one run: the omnibus contrast, one per condition in
      condition order, then the two difference contrasts when both variants of
      `all_before_B` are present. */
  function RunContrasts(conds: seq<string>): (r: seq<Contrast>)
    requires |conds| > 0
    ensures |r| == 1 + |conds| + (if BothPresent(conds) then 2 else 0)
    ensures r[0] == Omnibus(conds)
    ensures r[1..1 + |conds|] == Singles(conds)
    ensures r[1 + |conds|..] == if BothPresent(conds) then [CorrMinusIncorr, IncorrMinusCorr] else []
  {
    [Omnibus(conds)] + Singles(conds)
      + (if BothPresent(conds) then [CorrMinusIncorr, IncorrMinusCorr] else [])
  }

  /** Contrast `k` of a run, located in the part of the list it belongs to. */
  lemma RunContrastAt(conds: seq<string>, k: nat)
    requires |conds| > 0 && k < |RunContrasts(conds)|
    ensures k == 0 ==> RunContrasts(conds)[k] == Omnibus(conds)
    ensures 1 <= k <= |conds| ==> RunContrasts(conds)[k] == Contrast(conds[k - 1], TTest, [conds[k - 1]], [1.0])
    ensures k == |conds| + 1 ==> RunContrasts(conds)[k] == CorrMinusIncorr
    ensures k == |conds| + 2 ==> RunContrasts(conds)[k] == IncorrMinusCorr
  {
    var r := RunContrasts(conds);
    if 1 <= k <= |conds| {
      assert r[k] == r[1..1 + |conds|][k - 1];
    } else if k > |conds| {
      assert r[k] == r[1 + |conds|..][k - 1 - |conds|];
    }
  }

  /** Every contrast of a run refers only to conditions of that run, with one
      weight per referenced condition. */
  lemma RunContrastsWellFormed(conds: seq<string>)
    requires |conds| > 0
    ensures forall k :: 0 <= k < |RunContrasts(conds)| ==> WellFormed(RunContrasts(conds)[k], conds)
  {
    forall k | 0 <= k < |RunContrasts(conds)|
      ensures WellFormed(RunContrasts(conds)[k], conds)
    {
      RunContrastAt(conds, k);
      LeadingContrastsWellFormed(conds);
    }
  }

  /** `get_contrasts(subject_id, info)`: one contrast list per bundle; a bundle
      without conditions divides by zero. */
  function GetContrasts<V>(info: seq<Bunch<V>>): (r: Result<seq<seq<Contrast>>>)
    ensures r.Success? <==> forall i :: 0 <= i < |info| ==> |info[i].conditions| > 0
    ensures r.Success? ==> |r.value| == |info|
    ensures r.Success? ==> forall i :: 0 <= i < |info| ==> r.value[i] == RunContrasts(info[i].conditions)
  {
    if info == [] then Success([])
    else if |info[0].conditions| == 0 then Failure(ZeroDivisionError)
    else
      var rest :- GetContrasts(info[1..]);
      assert forall i :: 1 <= i < |info| ==> info[1..][i - 1] == info[i];
      Success([RunContrasts(info[0].conditions)] + rest)
  }

  /** A contrast between the correct and incorrect variants exists exactly
      when the run has both. */
  lemma DifferenceContrastGated(conds: seq<string>)
    requires |conds| > 0
    ensures (exists k :: 0 <= k < |RunContrasts(conds)| && RunContrasts(conds)[k].conditions == [Corr, Incorr])
        <==> BothPresent(conds)
  {
    var r := RunContrasts(conds);
    if BothPresent(conds) {
      RunContrastAt(conds, 1 + |conds|);
      assert r[1 + |conds|].conditions == [Corr, Incorr];
    }
    RunContrastsWellFormed(conds);
    forall k | 0 <= k < |r| && r[k].conditions == [Corr, Incorr]
      ensures BothPresent(conds)
    {
      assert WellFormed(r[k], conds);
      assert r[k].conditions[0] == Corr && r[k].conditions[1] == Incorr;
    }
  }

  /** The two difference contrasts are each other's negation and their weights sum to 0. */
  lemma DifferenceContrastsOpposite()
    ensures IncorrMinusCorr.conditions == CorrMinusIncorr.conditions
    ensures IncorrMinusCorr.weights == Negate(CorrMinusIncorr.weights)
    ensures Sum(CorrMinusIncorr.weights) == 0.0 && Sum(IncorrMinusCorr.weights) == 0.0
  {
    assert CorrMinusIncorr.weights[1..][1..] == [];
    assert IncorrMinusCorr.weights[1..][1..] == [];
  }

  /** `motion_noise(subjinfo, files)` for GLM1.2: the last three time points of
      every nuisance file are dropped before its columns become regressors. */
  function MotionNoise<V>(subjinfo: ListOr<Bunch<V>>, files: ListOr<Table<V>>): (r: Result<seq<Bunch<V>>>)
    requires forall j :: 0 <= j < |AsList(files)| ==> WellShaped(AsList(files)[j])
    ensures r.Success? <==>
      && (forall j :: 0 <= j < |AsList(files)| ==> AsList(files)[j].Rows?)
      && |AsList(subjinfo)| <= |AsList(files)|
    ensures r.Success? ==> |r.value| == |AsList(subjinfo)|
    ensures r.Success? ==> forall j :: 0 <= j < |r.value| ==>
      MergedFrom(r.value[j], AsList(subjinfo)[j], AsList(files)[j], 3)
  {
    Merge(subjinfo, files, 3)
  }

  /** A run bundle built by the loader has both `all_before_B` variants
      exactly when its incorrect file is not empty. */
  lemma RunConditionsGate<V>(b: Bunch<V>, files: EventFiles, run: nat)
    requires WellShapedFiles(files) && RecordsRun(b, files, run)
    ensures |b.conditions| > 0
    ensures BothPresent(b.conditions) <==> NonEmptyFile(files, run, Incorr)
    ensures |b.conditions| == if NonEmptyFile(files, run, Incorr) then 3 else 2
  {
    if !NonEmptyFile(files, run, Incorr) {
      assert b.conditions == [Corr, Remaining];
      assert Incorr != Corr && Incorr != Remaining;
    } else {
      assert b.conditions[0] == Corr && b.conditions[1] == Incorr;
    }
  }

  /** For the bundles `subjectinfo` builds, every run gets 3 contrasts without
      incorrect trials and 6 with them, and four name substitutions per contrast. */
  lemma ContrastsForSubjectInfo<V>(files: EventFiles, bundles: seq<Bunch<V>>)
    requires WellShapedFiles(files) && IsSubjectInfo(files, bundles)
    ensures GetContrasts(bundles).Success?
    ensures forall i: nat :: i < 6 ==>
      |GetContrasts(bundles).value[i]| == if NonEmptyFile(files, i + 1, Incorr) then 6 else 3
    ensures forall i: nat :: i < 6 ==>
      |GetSubs(GetContrasts(bundles).value)[i]| == 4 * |GetContrasts(bundles).value[i]|
  {
    forall i: nat | i < 6
      ensures |bundles[i].conditions| > 0
      ensures |RunContrasts(bundles[i].conditions)| == if NonEmptyFile(files, i + 1, Incorr) then 6 else 3
    {
      RunConditionsGate(bundles[i], files, i + 1);
    }
    var cons := GetContrasts(bundles).value;
    forall i: nat | i < 6
      ensures |cons[i]| == if NonEmptyFile(files, i + 1, Incorr) then 6 else 3
    {
      assert cons[i] == RunContrasts(bundles[i].conditions);
    }
  }
}
