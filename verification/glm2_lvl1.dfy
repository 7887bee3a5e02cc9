/** The first-level helpers of model GLM2: two trial categories (`fixed` and
    `cond`), each split into correct and incorrect trials, plus the baseline
    trials, six runs per subject. */
module Glm2Lvl1 {
  import opened Results
  import opened Lists
  import opened Text
  import opened Tables
  import opened Events
  import opened Design
  import opened Naming
  import opened Motion

  const FixedCorr: string := "fixed_corr"
  const FixedIncorr: string := "fixed_incorr"
  const CondCorr: string := "cond_corr"
  const CondIncorr: string := "cond_incorr"
  const AllBL: string := "all_BL"

  /** One trial category: the correct condition always, the incorrect one only
      when its file is not empty. When both exist either table may be a
      one-dimensional array of three cells (a one-row file of three cells or a
      three-line file of one column) or a two-dimensional table with at least
      three columns; when only the correct one exists it is indexed as
      two-dimensional. */
  function CategoryConditions(category: string, corr: Table<real>, incorr: Table<real>): (r: Result<seq<Condition>>)
    requires WellShaped(corr) && WellShaped(incorr)
    ensures r.Success? <==>
      if Size(incorr) > 0 then OneOrMoreRows(corr) && OneOrMoreRows(incorr) else MultiRow(corr)
    ensures r.Success? ==> |r.value| == (if Size(incorr) > 0 then 2 else 1)
    ensures r.Success? ==> HasTimingColumns(corr) && r.value[0] == Timing(category + "_corr", EventRows(corr))
    ensures r.Success? && Size(incorr) > 0 ==>
      HasTimingColumns(incorr) && r.value[1] == Timing(category + "_incorr", EventRows(incorr))
  {
    if Size(incorr) > 0 then
      var c :- SizeAwareTiming(category + "_corr", corr);
      var i :- SizeAwareTiming(category + "_incorr", incorr);
      Success([c, i])
    else
      var c :- TableTiming(category + "_corr", corr);
      Success([c])
  }

  /** The shapes one category's pair of files must have. */
  predicate CategoryLoadable(corr: Table<real>, incorr: Table<real>)
    requires WellShaped(corr) && WellShaped(incorr)
  {
    if Size(incorr) > 0 then OneOrMoreRows(corr) && OneOrMoreRows(incorr) else MultiRow(corr)
  }

  /** The five files of a run exist and have the shapes the loader can index. */
  predicate RunLoadable(files: EventFiles, run: nat)
    requires WellShapedFiles(files)
  {
    && (run, FixedCorr) in files && (run, FixedIncorr) in files
    && (run, CondCorr) in files && (run, CondIncorr) in files && (run, AllBL) in files
    && CategoryLoadable(files[(run, FixedCorr)], files[(run, FixedIncorr)])
    && CategoryLoadable(files[(run, CondCorr)], files[(run, CondIncorr)])
    && MultiRow(files[(run, AllBL)])
  }

  /** The condition names of a run, given which incorrect files are not empty. */
  function ExpectedConditions(fixedIncorrect: bool, condIncorrect: bool): seq<string> {
    [FixedCorr] + (if fixedIncorrect then [FixedIncorr] else [])
      + [CondCorr] + (if condIncorrect then [CondIncorr] else [])
      + [AllBL]
  }

  /** `b` is the bundle the loader builds for run `run`. */
  ghost predicate RecordsRun<V>(b: Bunch<V>, files: EventFiles, run: nat)
    requires WellShapedFiles(files)
  {
    && b.conditions == ExpectedConditions(NonEmptyFile(files, run, FixedIncorr), NonEmptyFile(files, run, CondIncorr))
    && |b.onsets| == |b.durations| == |b.amplitudes| == |b.conditions|
    && (forall k :: 0 <= k < |b.conditions| ==> RecordsTiming(b, k, files, run))
    && b.tmod == None && b.pmod == None && b.regressorNames == None && b.regressors == None
  }

  lemma CategoryNames()
    ensures "fixed" + "_corr" == FixedCorr && "fixed" + "_incorr" == FixedIncorr
    ensures "cond" + "_corr" == CondCorr && "cond" + "_incorr" == CondIncorr
  {
  }

  /** The conditions of a category are read from the run's files of the same names. */
  lemma CategoryReadFrom(files: EventFiles, run: nat, category: string)
    requires WellShapedFiles(files)
    requires category == "fixed" || category == "cond"
    requires (run, category + "_corr") in files && (run, category + "_incorr") in files
    ensures var r := CategoryConditions(category, files[(run, category + "_corr")], files[(run, category + "_incorr")]);
      r.Success? ==> forall k :: 0 <= k < |r.value| ==> ReadFrom(r.value[k], files, run)
  {
  }

  /** The names of conditions in order. */
  function Names(conds: seq<Condition>): (names: seq<string>)
    ensures |names| == |conds|
    ensures forall k :: 0 <= k < |conds| ==> names[k] == conds[k].name
  {
    seq(|conds|, k requires 0 <= k < |conds| => conds[k].name)
  }

  lemma NamesOfRun(fixed: seq<Condition>, cond: seq<Condition>, rest: Condition, fi: bool, ci: bool)
    requires |fixed| == (if fi then 2 else 1) && |cond| == (if ci then 2 else 1)
    requires fixed[0].name == FixedCorr && (fi ==> fixed[1].name == FixedIncorr)
    requires cond[0].name == CondCorr && (ci ==> cond[1].name == CondIncorr)
    requires rest.name == AllBL
    ensures Names(fixed + cond + [rest]) == ExpectedConditions(fi, ci)
  {
    var conds := fixed + cond + [rest];
    var e := ExpectedConditions(fi, ci);
    assert |conds| == |e|;
    forall k | 0 <= k < |e| ensures Names(conds)[k] == e[k] {
      if k < |fixed| {
        assert conds[k] == fixed[k];
      } else if k < |fixed| + |cond| {
        assert conds[k] == cond[k - |fixed|];
      }
    }
  }

  lemma ConcatReadFrom(a: seq<Condition>, b: seq<Condition>, c: Condition, files: EventFiles, run: nat)
    requires forall k :: 0 <= k < |a| ==> ReadFrom(a[k], files, run)
    requires forall k :: 0 <= k < |b| ==> ReadFrom(b[k], files, run)
    requires ReadFrom(c, files, run)
    ensures forall k :: 0 <= k < |a + b + [c]| ==> ReadFrom((a + b + [c])[k], files, run)
  {
    var s := a + b + [c];
    forall k | 0 <= k < |s| ensures ReadFrom(s[k], files, run) {
      if k < |a| {
        assert s[k] == a[k];
      } else if k < |a| + |b| {
        assert s[k] == b[k - |a|];
      }
    }
  }

  /** The five files of a run are all present. */
  predicate RunFilesPresent(files: EventFiles, run: nat) {
    && (run, FixedCorr) in files && (run, FixedIncorr) in files
    && (run, CondCorr) in files && (run, CondIncorr) in files && (run, AllBL) in files
  }

  /** The loop body after the five files are read. */
  function BuildRun<V>(files: EventFiles, run: nat): (r: Result<Bunch<V>>)
    requires WellShapedFiles(files) && RunFilesPresent(files, run)
    ensures r.Success? <==> RunLoadable(files, run)
    ensures r.Success? ==> RecordsRun(r.value, files, run)
  {
    CategoryNames();
    var fixed :- CategoryConditions("fixed", files[(run, FixedCorr)], files[(run, FixedIncorr)]);
    var cond :- CategoryConditions("cond", files[(run, CondCorr)], files[(run, CondIncorr)]);
    var rest :- TableTiming(AllBL, files[(run, AllBL)]);
    FlattenThree(fixed, cond, [rest]);
    var conds := Flatten([fixed, cond, [rest]]);
    CategoryReadFrom(files, run, "fixed");
    CategoryReadFrom(files, run, "cond");
    ConcatReadFrom(fixed, cond, rest, files, run);
    AssembleRecords<V>(conds, files, run);
    NamesOfRun(fixed, cond, rest, NonEmptyFile(files, run, FixedIncorr), NonEmptyFile(files, run, CondIncorr));
    var b: Bunch<V> := Assemble(conds);
    assert b.conditions == Names(conds);
    Success(b)
  }

  /** One iteration of the run loop: read the five files, build both
      categories' conditions, append the baseline, and flatten into one bundle. */
  function RunBundle<V>(files: EventFiles, run: nat): (r: Result<Bunch<V>>)
    requires WellShapedFiles(files)
    ensures r.Success? <==> RunLoadable(files, run)
    ensures r.Success? ==> RecordsRun(r.value, files, run)
  {
    var _ :- Read(files, run, FixedCorr);
    var _ :- Read(files, run, FixedIncorr);
    var _ :- Read(files, run, CondCorr);
    var _ :- Read(files, run, CondIncorr);
    var _ :- Read(files, run, AllBL);
    BuildRun(files, run)
  }

  /** The six bundles of a subject, in run order 1 to 6. */
  ghost predicate IsSubjectInfo<V>(files: EventFiles, bundles: seq<Bunch<V>>)
    requires WellShapedFiles(files)
  {
    |bundles| == 6 && forall i :: 0 <= i < 6 ==> RecordsRun(bundles[i], files, i + 1)
  }

  /** `subjectinfo(subject_id)` over the subject's parsed files: each run's
      bundle is inserted at index `run`, which, past the end, appends. */
  method SubjectInfo<V>(files: EventFiles) returns (r: Result<seq<Bunch<V>>>)
    requires WellShapedFiles(files)
    ensures r.Success? <==> forall run :: 1 <= run <= 6 ==> RunLoadable(files, run)
    ensures r.Success? ==> IsSubjectInfo(files, r.value)
  {
    var output: seq<Bunch<V>> := [];
    var run := 1;
    while run < 7
      invariant 1 <= run <= 7
      invariant |output| == run - 1
      invariant forall k :: 1 <= k < run ==> RunLoadable(files, k)
      invariant forall i :: 0 <= i < |output| ==> RecordsRun(output[i], files, i + 1)
    {
      var b := RunBundle<V>(files, run);
      if b.Failure? {
        return Failure(b.error);
      }
      InsertPastEndAppends(output, run, b.value);
      output := Insert(output, run, b.value);
      run := run + 1;
    }
    return Success(output);
  }

  /** `a - b` with weights [1, -1], `b - a` with [-1, 1], and their mean with [1/2, 1/2]. */
  function PairGroup(a: string, b: string, aMinusB: string, bMinusA: string, mean: string): seq<Contrast> {
    [Pair(aMinusB, a, b, 1.0, -1.0), Pair(bMinusA, a, b, -1.0, 1.0), Pair(mean, a, b, 0.5, 0.5)]
  }

  const FixedGroup: seq<Contrast> :=
    PairGroup(FixedCorr, FixedIncorr, "fixedCorr_minus_fixedIncorr", "fixedIncorr_minus_fixedCorr", "all_fixed")
  const CondGroup: seq<Contrast> :=
    PairGroup(CondCorr, CondIncorr, "condCorr_minus_condIncorr", "condIncorr_minus_condCorr", "all_cond")
  const CorrGroup: seq<Contrast> :=
    PairGroup(FixedCorr, CondCorr, "fixedCorr_minus_condCorr", "condCorr_minus_fixedCorr", "all_corr")
  const IncorrGroup: seq<Contrast> :=
    PairGroup(FixedIncorr, CondIncorr, "fixedIncorr_minus_condIncorr", "condIncorr_minus_fixedIncorr", "all_incorr")

  /** The four conditions in the order the four-condition contrasts list them. */
  const AllFour: seq<string> := [FixedCorr, CondCorr, FixedIncorr, CondIncorr]

  const FourGroup: seq<Contrast> := [
    Contrast("allCorr_minus_allIncorr", TTest, AllFour, [0.5, 0.5, -0.5, -0.5]),
    Contrast("allIncorr_minus_allCorr", TTest, AllFour, [-0.5, -0.5, 0.5, 0.5]),
    Contrast("allFixed_minus_allCond", TTest, AllFour, [0.5, -0.5, 0.5, -0.5]),
    Contrast("allCond_minus_allFixed", TTest, AllFour, [-0.5, 0.5, -0.5, 0.5])]

  function Gate(present: bool, group: seq<Contrast>): seq<Contrast> {
    if present then group else []
  }

  predicate Has2(conds: seq<string>, a: string, b: string) {
    a in conds && b in conds
  }

  predicate HasAllFour(conds: seq<string>) {
    FixedCorr in conds && CondCorr in conds && FixedIncorr in conds && CondIncorr in conds
  }

  /** The gated groups, in the order fixed pair, cond pair, correct pair,
      incorrect pair, four-condition group. */
  function Extras(conds: seq<string>): seq<Contrast> {
    Gate(Has2(conds, FixedCorr, FixedIncorr), FixedGroup)
      + Gate(Has2(conds, CondCorr, CondIncorr), CondGroup)
      + Gate(Has2(conds, FixedCorr, CondCorr), CorrGroup)
      + Gate(Has2(conds, FixedIncorr, CondIncorr), IncorrGroup)
      + Gate(HasAllFour(conds), FourGroup)
  }

  /** The contrasts of one run: the omnibus contrast, one per condition in
      condition order, then the gated groups. */
  function RunContrasts(conds: seq<string>): (r: seq<Contrast>)
    requires |conds| > 0
    ensures |r| == 1 + |conds| + |Extras(conds)|
    ensures r[0] == Omnibus(conds)
    ensures r[1..1 + |conds|] == Singles(conds)
    ensures r[1 + |conds|..] == Extras(conds)
  {
    [Omnibus(conds)] + Singles(conds) + Extras(conds)
  }

  /** `get_contrasts(subject_id, info)`: one contrast list per bundle; a bundle
      without conditions divides by zero. */
  function GetContrasts<V>(info: seq<Bunch<V>>): (r: Result<seq<seq<Contrast>>>)
    ensures r.Success? <==> forall i :: 0 <= i < |info| ==> |info[i].conditions| > 0
    ensures r.Success? ==> |r.value| == |info|
    ensures r.Success? ==> forall i :: 0 <= i < |info| ==> r.value[i] == RunContrasts(info[i].conditions)
  {
    if info == [] then Success([])
    else if |info[0].conditions| == 0 then Failure(ZeroDivisionError)
    else
      var rest :- GetContrasts(info[1..]);
      assert forall i :: 1 <= i < |info| ==> info[1..][i - 1] == info[i];
      Success([RunContrasts(info[0].conditions)] + rest)
  }

  /** A pair group only uses its two conditions. */
  lemma PairGroupWellFormed(a: string, b: string, n1: string, n2: string, n3: string, conds: seq<string>)
    requires Has2(conds, a, b)
    ensures AllWellFormed(PairGroup(a, b, n1, n2, n3), conds)
  {
  }

  lemma FourGroupWellFormed(conds: seq<string>)
    requires HasAllFour(conds)
    ensures AllWellFormed(FourGroup, conds)
  {
    forall k | 0 <= k < |FourGroup| ensures WellFormed(FourGroup[k], conds) {
      assert FourGroup[k].conditions == AllFour;
    }
  }

  /** Every gated contrast refers only to conditions of the run. */
  lemma ExtrasWellFormed(conds: seq<string>)
    ensures AllWellFormed(Extras(conds), conds)
  {
    var g1 := Gate(Has2(conds, FixedCorr, FixedIncorr), FixedGroup);
    var g2 := Gate(Has2(conds, CondCorr, CondIncorr), CondGroup);
    var g3 := Gate(Has2(conds, FixedCorr, CondCorr), CorrGroup);
    var g4 := Gate(Has2(conds, FixedIncorr, CondIncorr), IncorrGroup);
    var g5 := Gate(HasAllFour(conds), FourGroup);
    if Has2(conds, FixedCorr, FixedIncorr) {
      PairGroupWellFormed(FixedCorr, FixedIncorr, "fixedCorr_minus_fixedIncorr", "fixedIncorr_minus_fixedCorr", "all_fixed", conds);
    }
    if Has2(conds, CondCorr, CondIncorr) {
      PairGroupWellFormed(CondCorr, CondIncorr, "condCorr_minus_condIncorr", "condIncorr_minus_condCorr", "all_cond", conds);
    }
    if Has2(conds, FixedCorr, CondCorr) {
      PairGroupWellFormed(FixedCorr, CondCorr, "fixedCorr_minus_condCorr", "condCorr_minus_fixedCorr", "all_corr", conds);
    }
    if Has2(conds, FixedIncorr, CondIncorr) {
      PairGroupWellFormed(FixedIncorr, CondIncorr, "fixedIncorr_minus_condIncorr", "condIncorr_minus_fixedIncorr", "all_incorr", conds);
    }
    if HasAllFour(conds) {
      FourGroupWellFormed(conds);
    }
    AllWellFormedConcat(g1, g2, conds);
    AllWellFormedConcat(g1 + g2, g3, conds);
    AllWellFormedConcat(g1 + g2 + g3, g4, conds);
    AllWellFormedConcat(g1 + g2 + g3 + g4, g5, conds);
  }

  /** Every contrast of a run refers only to conditions of that run, with one
      weight per referenced condition. */
  lemma RunContrastsWellFormed(conds: seq<string>)
    requires |conds| > 0
    ensures AllWellFormed(RunContrasts(conds), conds)
  {
    LeadingContrastsWellFormed(conds);
    ExtrasWellFormed(conds);
    AllWellFormedConcat([Omnibus(conds)], Singles(conds), conds);
    AllWellFormedConcat([Omnibus(conds)] + Singles(conds), Extras(conds), conds);
  }

  /** The condition pairs the scripts compare, in the order their groups are appended. */
  const ComparedPairs: seq<(string, string)> :=
    [(FixedCorr, FixedIncorr), (CondCorr, CondIncorr), (FixedCorr, CondCorr), (FixedIncorr, CondIncorr)]

  lemma ExtraInRun(conds: seq<string>, c: Contrast)
    requires |conds| > 0 && c in Extras(conds)
    ensures c in RunContrasts(conds)
  {
    var r := RunContrasts(conds);
    assert r[1 + |conds|..] == Extras(conds);
  }

  lemma RunContrastWellFormed(conds: seq<string>, c: Contrast)
    requires |conds| > 0 && c in RunContrasts(conds)
    ensures WellFormed(c, conds)
  {
    RunContrastsWellFormed(conds);
  }

  /** The first contrast of the group of each compared pair is in `Extras` when the pair is present. */
  lemma PairInExtras(conds: seq<string>, a: string, b: string) returns (c: Contrast)
    requires (a, b) in ComparedPairs && Has2(conds, a, b)
    ensures c in Extras(conds) && c.conditions == [a, b]
  {
    var g1 := Gate(Has2(conds, FixedCorr, FixedIncorr), FixedGroup);
    var g2 := Gate(Has2(conds, CondCorr, CondIncorr), CondGroup);
    var g3 := Gate(Has2(conds, FixedCorr, CondCorr), CorrGroup);
    var g4 := Gate(Has2(conds, FixedIncorr, CondIncorr), IncorrGroup);
    var g5 := Gate(HasAllFour(conds), FourGroup);
    assert Extras(conds) == g1 + g2 + g3 + g4 + g5;
    if (a, b) == ComparedPairs[0] {
      c := g1[0];
    } else if (a, b) == ComparedPairs[1] {
      c := g2[0];
    } else if (a, b) == ComparedPairs[2] {
      c := g3[0];
    } else {
      c := g4[0];
    }
  }

  /** A contrast between the two conditions of a compared pair exists exactly
      when the run has both conditions. */
  lemma PairContrastGated(conds: seq<string>, a: string, b: string)
    requires |conds| > 0
    requires (a, b) in ComparedPairs
    ensures (exists c :: c in RunContrasts(conds) && c.conditions == [a, b]) <==> Has2(conds, a, b)
  {
    if Has2(conds, a, b) {
      var c := PairInExtras(conds, a, b);
      ExtraInRun(conds, c);
    }
    forall c | c in RunContrasts(conds) && c.conditions == [a, b] ensures Has2(conds, a, b) {
      RunContrastWellFormed(conds, c);
      assert c.conditions[0] == a && c.conditions[1] == b;
    }
  }

  /** The four-condition contrasts exist exactly when all four conditions do. */
  lemma FourContrastsGated(conds: seq<string>)
    requires |conds| > 0
    ensures (exists c :: c in RunContrasts(conds) && c.conditions == AllFour) <==> HasAllFour(conds)
  {
    if HasAllFour(conds) {
      var e := Extras(conds);
      assert e[|e| - 4..] == FourGroup;
      assert FourGroup[0] in e;
      ExtraInRun(conds, FourGroup[0]);
    }
    forall c | c in RunContrasts(conds) && c.conditions == AllFour ensures HasAllFour(conds) {
      RunContrastWellFormed(conds, c);
      assert AllFour[0] in conds && AllFour[1] in conds && AllFour[2] in conds && AllFour[3] in conds;
    }
  }

  /** Within a pair group, `b - a` negates `a - b`, both sum to 0, and the mean
      weighs each condition 1/2, summing to 1. */
  lemma PairGroupWeights(a: string, b: string, n1: string, n2: string, n3: string)
    ensures var g := PairGroup(a, b, n1, n2, n3);
      && g[1].weights == Negate(g[0].weights)
      && Sum(g[1].weights) == -Sum(g[0].weights)
      && Sum(g[0].weights) == 0.0 && Sum(g[1].weights) == 0.0
      && g[2].weights == [0.5, 0.5] && Sum(g[2].weights) == 1.0
  {
    var g := PairGroup(a, b, n1, n2, n3);
    SumTwo(1.0, -1.0);
    SumNegate(g[0].weights);
    SumTwo(0.5, 0.5);
  }

  /** Each four-condition contrast weighs every condition by 1/2 or -1/2, the
      weights sum to 0, and the contrasts come in negated pairs. */
  lemma FourGroupWeights()
    ensures forall k :: 0 <= k < 4 ==> Sum(FourGroup[k].weights) == 0.0
    ensures forall k, i :: 0 <= k < 4 && 0 <= i < 4 ==>
      FourGroup[k].weights[i] == 0.5 || FourGroup[k].weights[i] == -0.5
    ensures FourGroup[1].weights == Negate(FourGroup[0].weights)
    ensures FourGroup[3].weights == Negate(FourGroup[2].weights)
  {
    SumFour(0.5, 0.5, -0.5, -0.5);
    SumNegate(FourGroup[0].weights);
    SumFour(0.5, -0.5, 0.5, -0.5);
    SumNegate(FourGroup[2].weights);
  }

  /** Which conditions a run lists, given which incorrect files are not empty. */
  lemma ExpectedPresent(fi: bool, ci: bool)
    ensures var e := ExpectedConditions(fi, ci);
      && |e| == 3 + (if fi then 1 else 0) + (if ci then 1 else 0)
      && FixedCorr in e && CondCorr in e
      && (FixedIncorr in e <==> fi) && (CondIncorr in e <==> ci)
  {
    var e := ExpectedConditions(fi, ci);
    assert e[0] == FixedCorr;
    assert FixedIncorr != FixedCorr && FixedIncorr != CondCorr && FixedIncorr != AllBL;
    assert CondIncorr != FixedCorr && CondIncorr != CondCorr && CondIncorr != AllBL;
    assert CondIncorr != FixedIncorr;
  }

  lemma ExtrasCount(conds: seq<string>)
    ensures |Extras(conds)| ==
      (if Has2(conds, FixedCorr, FixedIncorr) then 3 else 0)
      + (if Has2(conds, CondCorr, CondIncorr) then 3 else 0)
      + (if Has2(conds, FixedCorr, CondCorr) then 3 else 0)
      + (if Has2(conds, FixedIncorr, CondIncorr) then 3 else 0)
      + (if HasAllFour(conds) then 4 else 0)
  {
  }

  /** A run gets 7 contrasts with no incorrect trials, 11 with incorrect trials
      in one category and 22 with both. */
  lemma RunContrastCount(fi: bool, ci: bool)
    ensures |RunContrasts(ExpectedConditions(fi, ci))| ==
      if fi && ci then 22 else if fi || ci then 11 else 7
  {
    ExpectedPresent(fi, ci);
    ExtrasCount(ExpectedConditions(fi, ci));
  }

  /** For the bundles `subjectinfo` builds, `get_contrasts` succeeds and gives
      each run 7, 11 or 22 contrasts, so every contrast number fits the
      two-digit padding. */
  lemma ContrastsForSubjectInfo<V>(files: EventFiles, bundles: seq<Bunch<V>>)
    requires WellShapedFiles(files) && IsSubjectInfo(files, bundles)
    ensures GetContrasts(bundles).Success?
    ensures forall i :: 0 <= i < 6 ==>
      |GetContrasts(bundles).value[i]| ==
        if NonEmptyFile(files, i + 1, FixedIncorr) && NonEmptyFile(files, i + 1, CondIncorr) then 22
        else if NonEmptyFile(files, i + 1, FixedIncorr) || NonEmptyFile(files, i + 1, CondIncorr) then 11
        else 7
    ensures forall i, n :: 0 <= i < 6 && 1 <= n <= |GetContrasts(bundles).value[i]| ==> |Pad2(n)| == 2
  {
    forall i | 0 <= i < 6
      ensures |bundles[i].conditions| > 0
      ensures |RunContrasts(bundles[i].conditions)| ==
        if NonEmptyFile(files, i + 1, FixedIncorr) && NonEmptyFile(files, i + 1, CondIncorr) then 22
        else if NonEmptyFile(files, i + 1, FixedIncorr) || NonEmptyFile(files, i + 1, CondIncorr) then 11
        else 7
    {
      var fi, ci := NonEmptyFile(files, i + 1, FixedIncorr), NonEmptyFile(files, i + 1, CondIncorr);
      ExpectedPresent(fi, ci);
      RunContrastCount(fi, ci);
    }
  }

  /** `motion_noise(subjinfo, files)` for GLM2: every row of each nuisance file
      becomes a sample; nothing is dropped. */
  function MotionNoise<V>(subjinfo: ListOr<Bunch<V>>, files: ListOr<Table<V>>): (r: Result<seq<Bunch<V>>>)
    requires forall j :: 0 <= j < |AsList(files)| ==> WellShaped(AsList(files)[j])
    ensures r.Success? <==>
      && (forall j :: 0 <= j < |AsList(files)| ==> AsList(files)[j].Rows?)
      && |AsList(subjinfo)| <= |AsList(files)|
    ensures r.Success? ==> |r.value| == |AsList(subjinfo)|
    ensures r.Success? ==> forall j :: 0 <= j < |r.value| ==>
      MergedFrom(r.value[j], AsList(subjinfo)[j], AsList(files)[j], 0)
  {
    Merge(subjinfo, files, 0)
  }
}
