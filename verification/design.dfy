/** The records handed to the external model-specification step: the per-run
    bundle of conditions and nuisance regressors, and contrast specifications,
    together with the contrast blocks both first-level scripts share. */
module Design {
  import opened Results
  import opened Lists
  import opened Tables
  import opened Events

  /** A parametric modulator as the design-specification step accepts it. It
      only gives the Bunch's `pmod` slot its type: both scripts leave that slot
      `None`. */
  datatype ParametricModulator = ParametricModulator(name: seq<string>, param: seq<seq<real>>, poly: seq<nat>)

  /** One run's design: condition names with parallel timing lists, and optional
      nuisance regressors whose samples have the opaque type `V`. */
  datatype Bunch<V> = Bunch(
    conditions: seq<string>,
    onsets: seq<seq<real>>,
    durations: seq<seq<real>>,
    amplitudes: seq<seq<real>>,
    tmod: Option<seq<nat>>,
    pmod: Option<seq<ParametricModulator>>,
    regressorNames: Option<seq<string>>,
    regressors: Option<seq<seq<V>>>)

  /** The bundle built from a run's conditions, with no modulation and no regressors. */
  function Assemble<V>(conds: seq<Condition>): (b: Bunch<V>)
    ensures |b.conditions| == |b.onsets| == |b.durations| == |b.amplitudes| == |conds|
    ensures forall i :: 0 <= i < |conds| ==>
      && b.conditions[i] == conds[i].name
      && b.onsets[i] == conds[i].onsets
      && b.durations[i] == conds[i].durations
      && b.amplitudes[i] == conds[i].amplitudes
    ensures b.tmod == None && b.pmod == None && b.regressorNames == None && b.regressors == None
  {
    Bunch(
      seq(|conds|, i requires 0 <= i < |conds| => conds[i].name),
      seq(|conds|, i requires 0 <= i < |conds| => conds[i].onsets),
      seq(|conds|, i requires 0 <= i < |conds| => conds[i].durations),
      seq(|conds|, i requires 0 <= i < |conds| => conds[i].amplitudes),
      None, None, None, None)
  }

  /** Condition `k` of `b` carries columns 0, 1 and 2 of the run's file of the
      same name, a one-row file read as a table of height one. */
  ghost predicate RecordsTiming<V>(b: Bunch<V>, k: nat, files: EventFiles, run: nat)
    requires k < |b.conditions| == |b.onsets| == |b.durations| == |b.amplitudes|
  {
    && (run, b.conditions[k]) in files
    && var t := files[(run, b.conditions[k])];
    && HasTimingColumns(t)
    && b.onsets[k] == Col(EventRows(t), 0)
    && b.durations[k] == Col(EventRows(t), 1)
    && b.amplitudes[k] == Col(EventRows(t), 2)
  }

  /** Condition `c` holds the timing columns of the run's file named after it. */
  ghost predicate ReadFrom(c: Condition, files: EventFiles, run: nat) {
    && (run, c.name) in files
    && HasTimingColumns(files[(run, c.name)])
    && c == Timing(c.name, EventRows(files[(run, c.name)]))
  }

  /** A bundle assembled from conditions read from a run's files records them. */
  lemma AssembleRecords<V>(conds: seq<Condition>, files: EventFiles, run: nat)
    requires forall k :: 0 <= k < |conds| ==> ReadFrom(conds[k], files, run)
    ensures forall k :: 0 <= k < |conds| ==> RecordsTiming(Assemble<V>(conds), k, files, run)
  {
  }

  /** The statistic of a contrast; the scripts only request t-tests. */
  datatype Statistic = TTest

  /** `[name, 'T', conditions, weights]` */
  datatype Contrast = Contrast(name: string, stat: Statistic, conditions: seq<string>, weights: seq<real>)

  /** A contrast the model fit can use for a run with conditions `present`: one
      weight per referenced condition, and every referenced condition present. */
  predicate WellFormed(c: Contrast, present: seq<string>) {
    && |c.weights| == |c.conditions|
    && forall k :: 0 <= k < |c.conditions| ==> c.conditions[k] in present
  }

  /** Every contrast of `cs` is well formed for conditions `present`. */
  predicate AllWellFormed(cs: seq<Contrast>, present: seq<string>) {
    forall k :: 0 <= k < |cs| ==> WellFormed(cs[k], present)
  }

  lemma AllWellFormedConcat(a: seq<Contrast>, b: seq<Contrast>, present: seq<string>)
    requires AllWellFormed(a, present) && AllWellFormed(b, present)
    ensures AllWellFormed(a + b, present)
  {
    forall k | 0 <= k < |a + b| ensures WellFormed((a + b)[k], present) {
      if k >= |a| {
        assert (a + b)[k] == b[k - |a|];
      }
    }
  }

  /** `['AllVsBase', 'T', conditions, [1. / n] * n]` */
  function Omnibus(conds: seq<string>): (c: Contrast)
    requires |conds| > 0
    ensures c.name == "AllVsBase" && c.conditions == conds
    ensures |c.weights| == |conds|
    ensures forall k :: 0 <= k < |conds| ==> c.weights[k] * |conds| as real == 1.0
    ensures Sum(c.weights) == 1.0
  {
    EqualWeightsSumToOne(|conds|);
    Contrast("AllVsBase", TTest, conds, Repeat(1.0 / |conds| as real, |conds|))
  }

  /** `[cond, 'T', [cond], [1]]` for each condition, in condition order. */
  function Singles(conds: seq<string>): (r: seq<Contrast>)
    ensures |r| == |conds|
    ensures forall k :: 0 <= k < |conds| ==> r[k] == Contrast(conds[k], TTest, [conds[k]], [1.0])
  {
    seq(|conds|, k requires 0 <= k < |conds| => Contrast(conds[k], TTest, [conds[k]], [1.0]))
  }

  /** The omnibus contrast and the single-condition contrasts only refer to
      conditions of the run, with one weight per condition. */
  lemma LeadingContrastsWellFormed(conds: seq<string>)
    requires |conds| > 0
    ensures WellFormed(Omnibus(conds), conds)
    ensures forall k :: 0 <= k < |conds| ==> WellFormed(Singles(conds)[k], conds)
  {
  }

  /** `[name, 'T', [a, b], weights]` */
  function Pair(name: string, a: string, b: string, wa: real, wb: real): Contrast {
    Contrast(name, TTest, [a, b], [wa, wb])
  }
}
