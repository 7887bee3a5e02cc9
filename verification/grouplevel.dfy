/** The helpers shared by the group-level scripts of models GLM1 and GLM2:
    counting copes, unwrapping a one-element list, the output-name
    substitutions of the data sink, and the contrast names the group analysis
    iterates over, which must name contrasts the first level produced. */
module GroupLevel {
  import opened Results
  import opened Lists
  import opened Text
  import opened Events
  import opened Design
  import Glm12Lvl1
  import Glm2Lvl1

  /** `get_len = lambda x: len(x)`: the number of copes handed to the
      second-level model. */
  function GetLen<T>(x: seq<T>): (n: nat)
    ensures n == |x|
    ensures n == 0 <==> x == []
  {
    |x|
  }

  /** `pickfirst(func)`: the first element of a list, or a non-list value
      unchanged; an empty list raises IndexError. */
  function PickFirst<T>(v: ListOr<T>): (r: Result<T>)
    ensures r.Success? <==> |AsList(v)| > 0
    ensures r.Success? ==> r.value == AsList(v)[0]
    ensures v.Single? ==> r == Success(v.item)
  {
    match v
    case Single(x) => Success(x)
    case Many(items) => if items == [] then Failure(IndexError("list index out of range")) else Success(items[0])
  }

  /** A value and the one-element list holding it pick the same element, and
      extra elements after the first are ignored. */
  lemma PickFirstIgnoresRest<T>(x: T, rest: seq<T>)
    ensures PickFirst(Single(x)) == PickFirst(Many([x])) == PickFirst(Many([x] + rest)) == Success(x)
  {
  }

  /** The three threshold-stage prefixes of the group-level outputs, in the
      order their pairs are appended. */
  const ThresholdKinds: seq<string> := ["_z2pval", "_cluster", "_fdr"]

  /** `range(0, 23)`: the iteration indices the threshold keys carry. */
  const ThresholdCount: nat := 23

  function ThresholdPair(kind: string, i: nat): (string, string) {
    (kind + Show(i), "")
  }

  /** The key for a two-digit index starts with the key for its leading digit:
      `_z2pval1` is a prefix of `_z2pval10` to `_z2pval19`, and likewise for the
      other threshold directories. */
  lemma ThresholdKeyExtends(a: nat, i: nat, d: nat)
    requires a < |ThresholdKinds| && 1 <= i && d < 10
    ensures ThresholdPair(ThresholdKinds[a], 10 * i + d).0 == ThresholdPair(ThresholdKinds[a], i).0 + Show(d)
  {
  }

  function Triple(i: nat): seq<(string, string)> {
    [ThresholdPair(ThresholdKinds[0], i), ThresholdPair(ThresholdKinds[1], i), ThresholdPair(ThresholdKinds[2], i)]
  }

  /** An index among the last three of `3 * n` lies in triple `n - 1`. */
  lemma InLastTriple(k: nat, n: nat)
    requires n > 0 && 3 * (n - 1) <= k < 3 * n
    ensures k / 3 == n - 1 && k % 3 == k - 3 * (n - 1)
  {
  }

  /** The pairs for the indices below `n`: pair `k` maps prefix `k % 3`
      followed by index `k / 3` to the empty string. */
  function ThresholdSubs(n: nat): (r: seq<(string, string)>)
    ensures |r| == 3 * n
    ensures forall k :: 0 <= k < |r| ==> r[k] == ThresholdPair(ThresholdKinds[k % 3], k / 3)
  {
    if n == 0 then []
    else
      var prev := ThresholdSubs(n - 1);
      var r := prev + Triple(n - 1);
      assert forall k :: |prev| <= k < |r| ==> k / 3 == n - 1 && k % 3 == k - |prev| by {
        forall k | |prev| <= k < |r| ensures k / 3 == n - 1 && k % 3 == k - |prev| {
          InLastTriple(k, n);
        }
      }
      r
  }

  /** `get_substitutions(contrast)`: pairs for `_contrast<c>` and `output`, then for
      every threshold-stage directory name with indices 0 to 22; every
      replacement is the empty string. */
  function GetSubstitutions(contrast: string): (r: seq<(string, string)>)
    ensures |r| == 2 + 3 * ThresholdCount
    ensures r[0] == ("_contrast" + contrast, "") && r[1] == ("output", "")
    ensures forall k :: 2 <= k < |r| ==> r[k] == ThresholdPair(ThresholdKinds[(k - 2) % 3], (k - 2) / 3)
    ensures forall k :: 0 <= k < |r| ==> r[k].1 == ""
  {
    var t := ThresholdSubs(ThresholdCount);
    var r := [("_contrast" + contrast, ""), ("output", "")] + t;
    assert forall k :: 2 <= k < |r| ==> r[k] == t[k - 2];
    r
  }

  /** The three prefixes are told apart by their second character. */
  lemma ThresholdKindsDiffer(a: nat, b: nat, x: string, y: string)
    requires a < 3 && b < 3 && a != b
    ensures (ThresholdKinds[a] + x)[1] != (ThresholdKinds[b] + y)[1]
  {
  }

  /** A threshold key determines its prefix and its index. */
  lemma ThresholdKeyInjective(a: nat, n: nat, b: nat, m: nat)
    requires a < 3 && b < 3
    requires ThresholdKinds[a] + Show(n) == ThresholdKinds[b] + Show(m)
    ensures a == b && n == m
  {
    if a != b {
      ThresholdKindsDiffer(a, b, Show(n), Show(m));
    } else {
      PrefixCancel(ThresholdKinds[a], Show(n), Show(m));
      ShowInjective(n, m);
    }
  }

  lemma DivModThreeDistinct(k1: nat, k2: nat)
    requires k1 != k2
    ensures k1 % 3 != k2 % 3 || k1 / 3 != k2 / 3
  {
  }

  /** The contrast key differs from every threshold key in its third character. */
  lemma ContrastKeyNotThreshold(contrast: string, a: nat, i: nat)
    requires a < 3
    ensures ("_contrast" + contrast) != ThresholdKinds[a] + Show(i)
  {
    assert ("_contrast" + contrast)[2] == 'o';
    assert (ThresholdKinds[a] + Show(i))[2] == ThresholdKinds[a][2];
  }

  /** No two substitutions share a key, whatever the contrast name. */
  lemma SubstitutionKeysDistinct(contrast: string, k1: nat, k2: nat)
    requires k1 < k2 < 2 + 3 * ThresholdCount
    ensures GetSubstitutions(contrast)[k1].0 != GetSubstitutions(contrast)[k2].0
  {
    var r := GetSubstitutions(contrast);
    if k1 == 0 && k2 == 1 {
      assert r[0].0[0] != r[1].0[0];
    } else if k1 <= 1 {
      var a, i := (k2 - 2) % 3, (k2 - 2) / 3;
      assert r[k2].0 == ThresholdKinds[a] + Show(i);
      if k1 == 0 {
        ContrastKeyNotThreshold(contrast, a, i);
      } else {
        assert r[k2].0[0] == '_';
      }
    } else {
      DivModThreeDistinct(k1 - 2, k2 - 2);
      if r[k1].0 == r[k2].0 {
        ThresholdKeyInjective((k1 - 2) % 3, (k1 - 2) / 3, (k2 - 2) % 3, (k2 - 2) / 3);
      }
    }
  }

  lemma ThirdOf(a: nat, i: nat)
    requires a < 3
    ensures (3 * i + a) % 3 == a && (3 * i + a) / 3 == i
  {
  }

  /** Each threshold prefix has a key exactly for the indices 0 to 22. */
  lemma ThresholdKeysCover(contrast: string, a: nat, i: nat)
    requires a < 3
    ensures (exists k :: 0 <= k < |GetSubstitutions(contrast)| && GetSubstitutions(contrast)[k].0 == ThresholdKinds[a] + Show(i))
        <==> i < ThresholdCount
  {
    var r := GetSubstitutions(contrast);
    if i < ThresholdCount {
      var k := 2 + 3 * i + a;
      ThirdOf(a, i);
      assert k - 2 == 3 * i + a;
      assert (k - 2) % 3 == a && (k - 2) / 3 == i;
      assert r[k] == ThresholdPair(ThresholdKinds[a], i);
      assert ThresholdPair(ThresholdKinds[a], i).0 == ThresholdKinds[a] + Show(i);
      assert r[k].0 == ThresholdKinds[a] + Show(i);
      assert exists k :: 0 <= k < |GetSubstitutions(contrast)| && GetSubstitutions(contrast)[k].0 == ThresholdKinds[a] + Show(i);
    }
    forall k | 0 <= k < |r| && r[k].0 == ThresholdKinds[a] + Show(i)
      ensures i < ThresholdCount
    {
      ThresholdKeyIndex(contrast, k, a, i);
    }
  }

  /** The pair whose key is prefix `a` followed by `i` sits at `2 + 3 * i + a`. */
  lemma ThresholdKeyIndex(contrast: string, k: nat, a: nat, i: nat)
    requires a < 3 && k < |GetSubstitutions(contrast)|
    requires GetSubstitutions(contrast)[k].0 == ThresholdKinds[a] + Show(i)
    ensures k == 2 + 3 * i + a && i < ThresholdCount
  {
    var r := GetSubstitutions(contrast);
    if k == 0 {
      ContrastKeyNotThreshold(contrast, a, i);
    } else if k == 1 {
      OutputNotThreshold(a, i);
    } else {
      ThresholdKeyInjective((k - 2) % 3, (k - 2) / 3, a, i);
    }
  }

  lemma OutputNotThreshold(a: nat, i: nat)
    requires a < 3
    ensures "output" != ThresholdKinds[a] + Show(i)
  {
    assert (ThresholdKinds[a] + Show(i))[0] == '_';
  }

  /** Some contrast of a run carries the name `name`. */
  predicate Produced(cs: seq<Contrast>, name: string) {
    exists k :: 0 <= k < |cs| && cs[k].name == name
  }

  /** The contrast names the GLM1 group analysis iterates over. */
  const Glm1Contrasts: seq<string> :=
    ["all_before_B_corr", "all_before_B_incorr", "all_corr_minus_all_incorr", "all_incorr_minus_all_corr", "all_remaining"]

  /** The contrast names the GLM2 group analysis iterates over. */
  const Glm2Contrasts: seq<string> := ["fixedCorr_minus_condCorr", "condCorr_minus_fixedCorr"]

  /** In a GLM1.2 run, a contrast named after a condition exists only when the
      run has that condition. */
  lemma NamedSingle(conds: seq<string>, name: string)
    requires |conds| > 0
    requires name == Glm12Lvl1.Corr || name == Glm12Lvl1.Incorr || name == Glm12Lvl1.Remaining
    requires Produced(Glm12Lvl1.RunContrasts(conds), name)
    ensures name in conds
  {
    var r := Glm12Lvl1.RunContrasts(conds);
    var k :| 0 <= k < |r| && r[k].name == name;
    Glm12Lvl1.RunContrastAt(conds, k);
  }

  lemma ConditionProduced(conds: seq<string>, name: string)
    requires name in conds
    ensures Produced(Glm12Lvl1.RunContrasts(conds), name)
  {
    var j :| 0 <= j < |conds| && conds[j] == name;
    Glm12Lvl1.RunContrastAt(conds, j + 1);
  }

  lemma Glm1NamesFromConditions(conds: seq<string>)
    requires |conds| > 0
    requires Glm12Lvl1.Corr in conds && Glm12Lvl1.Incorr in conds && Glm12Lvl1.Remaining in conds
    ensures forall i :: 0 <= i < |Glm1Contrasts| ==> Produced(Glm12Lvl1.RunContrasts(conds), Glm1Contrasts[i])
  {
    var r := Glm12Lvl1.RunContrasts(conds);
    var n := |conds|;
    forall i | 0 <= i < |Glm1Contrasts| ensures Produced(r, Glm1Contrasts[i]) {
      if i == 0 || i == 1 || i == 4 {
        ConditionProduced(conds, Glm1Contrasts[i]);
      } else {
        Glm12Lvl1.RunContrastAt(conds, n + i - 1);
        assert r[n + i - 1].name == Glm1Contrasts[i];
      }
    }
  }

  /** Every GLM1 group-level contrast exists in a GLM1.2 first-level run exactly
      when the run has the correct, incorrect and remaining conditions. */
  lemma Glm1ContrastsProduced(conds: seq<string>)
    requires |conds| > 0
    ensures (forall i :: 0 <= i < |Glm1Contrasts| ==> Produced(Glm12Lvl1.RunContrasts(conds), Glm1Contrasts[i]))
        <==> Glm12Lvl1.Corr in conds && Glm12Lvl1.Incorr in conds && Glm12Lvl1.Remaining in conds
  {
    var r := Glm12Lvl1.RunContrasts(conds);
    if Glm12Lvl1.Corr in conds && Glm12Lvl1.Incorr in conds && Glm12Lvl1.Remaining in conds {
      Glm1NamesFromConditions(conds);
    }
    if forall i :: 0 <= i < |Glm1Contrasts| ==> Produced(r, Glm1Contrasts[i]) {
      assert Produced(r, Glm1Contrasts[0]) && Produced(r, Glm1Contrasts[1]) && Produced(r, Glm1Contrasts[4]);
      NamedSingle(conds, Glm12Lvl1.Corr);
      NamedSingle(conds, Glm12Lvl1.Incorr);
      NamedSingle(conds, Glm12Lvl1.Remaining);
    }
  }

  /** For the bundles GLM1.2's `subjectinfo` builds, a run has every contrast
      the GLM1 group analysis asks for exactly when it had incorrect trials. */
  lemma Glm1ContrastsForSubjectInfo<V>(files: EventFiles, bundles: seq<Bunch<V>>)
    requires WellShapedFiles(files) && Glm12Lvl1.IsSubjectInfo(files, bundles)
    ensures Glm12Lvl1.GetContrasts(bundles).Success?
    ensures forall i :: 0 <= i < 6 ==>
      ((forall j :: 0 <= j < |Glm1Contrasts| ==> Produced(Glm12Lvl1.GetContrasts(bundles).value[i], Glm1Contrasts[j]))
        <==> NonEmptyFile(files, i + 1, Glm12Lvl1.Incorr))
  {
    Glm12Lvl1.ContrastsForSubjectInfo(files, bundles);
    forall i | 0 <= i < 6
      ensures (forall j :: 0 <= j < |Glm1Contrasts| ==> Produced(Glm12Lvl1.RunContrasts(bundles[i].conditions), Glm1Contrasts[j]))
        <==> NonEmptyFile(files, i + 1, Glm12Lvl1.Incorr)
    {
      var conds := bundles[i].conditions;
      Glm12Lvl1.RunConditionsGate(bundles[i], files, i + 1);
      assert conds[0] == Glm12Lvl1.Corr && conds[|conds| - 1] == Glm12Lvl1.Remaining;
      Glm1ContrastsProduced(conds);
    }
  }

  /** Without both correct conditions no gated GLM2 contrast carries either
      group-level name. */
  lemma ExtraNotGlm2Named(conds: seq<string>, c: Contrast)
    requires !Glm2Lvl1.Has2(conds, Glm2Lvl1.FixedCorr, Glm2Lvl1.CondCorr)
    requires c in Glm2Lvl1.Extras(conds)
    ensures c.name !in Glm2Contrasts
  {
    var g1 := Glm2Lvl1.Gate(Glm2Lvl1.Has2(conds, Glm2Lvl1.FixedCorr, Glm2Lvl1.FixedIncorr), Glm2Lvl1.FixedGroup);
    var g2 := Glm2Lvl1.Gate(Glm2Lvl1.Has2(conds, Glm2Lvl1.CondCorr, Glm2Lvl1.CondIncorr), Glm2Lvl1.CondGroup);
    var g4 := Glm2Lvl1.Gate(Glm2Lvl1.Has2(conds, Glm2Lvl1.FixedIncorr, Glm2Lvl1.CondIncorr), Glm2Lvl1.IncorrGroup);
    var g5 := Glm2Lvl1.Gate(Glm2Lvl1.HasAllFour(conds), Glm2Lvl1.FourGroup);
    assert Glm2Lvl1.Extras(conds) == g1 + g2 + g4 + g5;
    assert c in Glm2Lvl1.FixedGroup || c in Glm2Lvl1.CondGroup || c in Glm2Lvl1.IncorrGroup || c in Glm2Lvl1.FourGroup;
  }

  /** With both correct conditions the correct pair group names both contrasts. */
  lemma CorrGroupProduced(conds: seq<string>, j: nat)
    requires |conds| > 0 && j < |Glm2Contrasts|
    requires Glm2Lvl1.Has2(conds, Glm2Lvl1.FixedCorr, Glm2Lvl1.CondCorr)
    ensures Produced(Glm2Lvl1.RunContrasts(conds), Glm2Contrasts[j])
  {
    var r := Glm2Lvl1.RunContrasts(conds);
    var g1 := Glm2Lvl1.Gate(Glm2Lvl1.Has2(conds, Glm2Lvl1.FixedCorr, Glm2Lvl1.FixedIncorr), Glm2Lvl1.FixedGroup);
    var g2 := Glm2Lvl1.Gate(Glm2Lvl1.Has2(conds, Glm2Lvl1.CondCorr, Glm2Lvl1.CondIncorr), Glm2Lvl1.CondGroup);
    var g4 := Glm2Lvl1.Gate(Glm2Lvl1.Has2(conds, Glm2Lvl1.FixedIncorr, Glm2Lvl1.CondIncorr), Glm2Lvl1.IncorrGroup);
    var g5 := Glm2Lvl1.Gate(Glm2Lvl1.HasAllFour(conds), Glm2Lvl1.FourGroup);
    assert Glm2Lvl1.Extras(conds) == g1 + g2 + Glm2Lvl1.CorrGroup + g4 + g5;
    var c := Glm2Lvl1.CorrGroup[j];
    assert c.name == Glm2Contrasts[j] && c in Glm2Lvl1.Extras(conds);
    Glm2Lvl1.ExtraInRun(conds, c);
    var k :| 0 <= k < |r| && r[k] == c;
  }

  /** A condition of a GLM2 run names its own single-condition contrast. */
  lemma Glm2ConditionProduced(conds: seq<string>, name: string)
    requires |conds| > 0 && name in conds
    ensures Produced(Glm2Lvl1.RunContrasts(conds), name)
  {
    var r := Glm2Lvl1.RunContrasts(conds);
    var i :| 0 <= i < |conds| && conds[i] == name;
    assert r[1..1 + |conds|][i] == Singles(conds)[i];
    assert r[i + 1].name == name;
  }

  /** A GLM2 group-level name that is not a condition can only come from the
      correct pair group, which needs both correct conditions. */
  lemma Glm2NamedFromCorrGroup(conds: seq<string>, k: nat)
    requires |conds| > 0 && k < |Glm2Lvl1.RunContrasts(conds)|
    requires Glm2Lvl1.RunContrasts(conds)[k].name in Glm2Contrasts
    requires Glm2Lvl1.RunContrasts(conds)[k].name !in conds
    ensures Glm2Lvl1.Has2(conds, Glm2Lvl1.FixedCorr, Glm2Lvl1.CondCorr)
  {
    var r := Glm2Lvl1.RunContrasts(conds);
    var n := |conds|;
    if n < k && !Glm2Lvl1.Has2(conds, Glm2Lvl1.FixedCorr, Glm2Lvl1.CondCorr) {
      assert r[1 + n..][k - 1 - n] == r[k];
      ExtraNotGlm2Named(conds, r[k]);
    }
  }

  /** A GLM2 group-level contrast name exists in a run exactly when the run
      has both correct conditions, or when the name is itself a condition of
      the run (its single-condition contrast then carries it). */
  lemma Glm2ContrastNamed(conds: seq<string>, j: nat)
    requires |conds| > 0 && j < |Glm2Contrasts|
    ensures Produced(Glm2Lvl1.RunContrasts(conds), Glm2Contrasts[j])
        <==> Glm2Lvl1.Has2(conds, Glm2Lvl1.FixedCorr, Glm2Lvl1.CondCorr) || Glm2Contrasts[j] in conds
  {
    var r := Glm2Lvl1.RunContrasts(conds);
    var name := Glm2Contrasts[j];
    if Glm2Lvl1.Has2(conds, Glm2Lvl1.FixedCorr, Glm2Lvl1.CondCorr) {
      CorrGroupProduced(conds, j);
    } else if name in conds {
      Glm2ConditionProduced(conds, name);
    }
    if Produced(r, name) && name !in conds {
      var k :| 0 <= k < |r| && r[k].name == name;
      Glm2NamedFromCorrGroup(conds, k);
    }
  }

  /** Both GLM2 group-level contrasts exist in a run exactly when the run has
      both correct conditions, or both names are themselves conditions of it. */
  lemma Glm2ContrastsProduced(conds: seq<string>)
    requires |conds| > 0
    ensures (forall j :: 0 <= j < |Glm2Contrasts| ==> Produced(Glm2Lvl1.RunContrasts(conds), Glm2Contrasts[j]))
        <==> (Glm2Lvl1.Has2(conds, Glm2Lvl1.FixedCorr, Glm2Lvl1.CondCorr)
              || (Glm2Contrasts[0] in conds && Glm2Contrasts[1] in conds))
  {
    Glm2ContrastNamed(conds, 0);
    Glm2ContrastNamed(conds, 1);
  }

  /** For the bundles GLM2's `subjectinfo` builds, every run has both contrasts
      the GLM2 group analysis asks for. */
  lemma Glm2ContrastsForSubjectInfo<V>(files: EventFiles, bundles: seq<Bunch<V>>)
    requires WellShapedFiles(files) && Glm2Lvl1.IsSubjectInfo(files, bundles)
    ensures Glm2Lvl1.GetContrasts(bundles).Success?
    ensures forall i, j :: 0 <= i < 6 && 0 <= j < |Glm2Contrasts| ==>
      Produced(Glm2Lvl1.GetContrasts(bundles).value[i], Glm2Contrasts[j])
  {
    Glm2Lvl1.ContrastsForSubjectInfo(files, bundles);
    forall i | 0 <= i < 6
      ensures forall j :: 0 <= j < |Glm2Contrasts| ==> Produced(Glm2Lvl1.RunContrasts(bundles[i].conditions), Glm2Contrasts[j])
    {
      var fi, ci := NonEmptyFile(files, i + 1, Glm2Lvl1.FixedIncorr), NonEmptyFile(files, i + 1, Glm2Lvl1.CondIncorr);
      Glm2Lvl1.ExpectedPresent(fi, ci);
      Glm2ContrastsProduced(bundles[i].conditions);
    }
  }
}
