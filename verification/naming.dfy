/** The first-level output-name substitution builder (`get_subs`), which both
    first-level scripts define identically: four find/replace pairs per contrast
    that rename the numbered statistic images after the contrast. */
module Naming {
  import opened Text
  import opened Design

  /** The four statistic images written per contrast, in the order the pairs are built. */
  const OutputKinds: seq<string> := ["cope", "varcope", "zstat", "tstat"]

  /** `('cope%d.' % i, 'cope%02d_%s.' % (i, name))` for the image kind `kind`. */
  function SubPair(kind: string, index: nat, name: string): (string, string) {
    (kind + Show(index) + ".", kind + Pad2(index) + "_" + name + ".")
  }

  /** The four pairs for the contrast with 1-based index `index`. */
  function Quad(index: nat, name: string): seq<(string, string)> {
    [SubPair("cope", index, name), SubPair("varcope", index, name),
     SubPair("zstat", index, name), SubPair("tstat", index, name)]
  }

  /** The pairs for one run: pair `k` renames image kind `k % 4` of contrast
      `k / 4` (1-based index `k / 4 + 1`) after that contrast's name. */
  function RunSubs(cons: seq<Contrast>): (r: seq<(string, string)>)
    ensures |r| == 4 * |cons|
    ensures forall k :: 0 <= k < |r| ==> r[k] == SubPair(OutputKinds[k % 4], k / 4 + 1, cons[k / 4].name)
  {
    if cons == [] then []
    else
      var prev := RunSubs(cons[..|cons| - 1]);
      var r := prev + Quad(|cons|, cons[|cons| - 1].name);
      assert forall k :: 0 <= k < |prev| ==> cons[..|cons| - 1][k / 4] == cons[k / 4];
      assert forall k :: |prev| <= k < |r| ==> k / 4 == |cons| - 1 && k % 4 == k - |prev| by {
        forall k | |prev| <= k < |r| ensures k / 4 == |cons| - 1 && k % 4 == k - |prev| {
          InLastQuad(k, |cons|);
        }
      }
      r
  }

  /** `get_subs(cons)`: one list of pairs per run, in run order. */
  function GetSubs(cons: seq<seq<Contrast>>): (r: seq<seq<(string, string)>>)
    ensures |r| == |cons|
    ensures forall i :: 0 <= i < |cons| ==> |r[i]| == 4 * |cons[i]|
    ensures forall i :: 0 <= i < |cons| ==> r[i] == RunSubs(cons[i])
  {
    seq(|cons|, i requires 0 <= i < |cons| => RunSubs(cons[i]))
  }

  /** An index among the last four of `4 * n` lies in quadruple `n - 1`. */
  lemma InLastQuad(k: nat, n: nat)
    requires n > 0 && 4 * (n - 1) <= k < 4 * n
    ensures k / 4 == n - 1 && k % 4 == k - 4 * (n - 1)
  {
  }

  /** The four kinds are told apart by their first character. */
  lemma KindsDiffer(a: nat, b: nat, x: string, y: string)
    requires a < 4 && b < 4 && a != b
    ensures (OutputKinds[a] + x)[0] != (OutputKinds[b] + y)[0]
  {
  }

  /** A key determines its image kind and its contrast number. */
  lemma KeyInjective(a: nat, n: nat, b: nat, m: nat)
    requires a < 4 && b < 4
    requires OutputKinds[a] + Show(n) + "." == OutputKinds[b] + Show(m) + "."
    ensures a == b && n == m
  {
    SuffixCancel(OutputKinds[a] + Show(n), OutputKinds[b] + Show(m), ".");
    if a != b {
      KindsDiffer(a, b, Show(n), Show(m));
    } else {
      PrefixCancel(OutputKinds[a], Show(n), Show(m));
      ShowInjective(n, m);
    }
  }

  lemma DivModDistinct(k1: nat, k2: nat)
    requires k1 != k2
    ensures k1 % 4 != k2 % 4 || k1 / 4 != k2 / 4
  {
  }

  /** The `cope` key of a contrast is a substring of its `varcope` key, and the
      replacements differ by the same `var` prefix: replacing the `cope` key
      inside a `varcope` name already yields the intended `varcope` name. */
  lemma VarcopeExtendsCope(index: nat, name: string)
    ensures SubPair("varcope", index, name).0 == "var" + SubPair("cope", index, name).0
    ensures SubPair("varcope", index, name).1 == "var" + SubPair("cope", index, name).1
  {
  }

  /** No two pairs of a run have the same key. */
  lemma RunSubKeysDistinct(cons: seq<Contrast>, k1: nat, k2: nat)
    requires k1 < k2 < 4 * |cons|
    ensures RunSubs(cons)[k1].0 != RunSubs(cons)[k2].0
  {
    var a1, n1 := SubKeyAt(cons, k1);
    var a2, n2 := SubKeyAt(cons, k2);
    DivModDistinct(k1, k2);
    if RunSubs(cons)[k1].0 == RunSubs(cons)[k2].0 {
      KeyInjective(a1, n1, a2, n2);
    }
  }

  /** The key of pair `k` names image kind `k % 4` and contrast number `k / 4 + 1`. */
  lemma SubKeyAt(cons: seq<Contrast>, k: nat) returns (a: nat, n: nat)
    requires k < 4 * |cons|
    ensures a == k % 4 && n == k / 4 + 1 && a < 4
    ensures RunSubs(cons)[k].0 == OutputKinds[a] + Show(n) + "."
  {
    a, n := k % 4, k / 4 + 1;
    assert RunSubs(cons)[k] == SubPair(OutputKinds[a], n, cons[k / 4].name);
  }

  lemma FirstOfQuad(n: nat, c: nat)
    requires 1 <= n <= c
    ensures (4 * (n - 1)) % 4 == 0 && (4 * (n - 1)) / 4 + 1 == n && 4 * (n - 1) < 4 * c
  {
  }

  /** A pair whose key is `cope<n>.` belongs to contrast number n. */
  lemma CopeKeyNumber(cons: seq<Contrast>, k: nat, n: nat)
    requires k < |RunSubs(cons)|
    requires RunSubs(cons)[k].0 == "cope" + Show(n) + "."
    ensures k % 4 == 0 && n == k / 4 + 1 && 1 <= n <= |cons|
  {
    var a, i := k % 4, k / 4;
    assert RunSubs(cons)[k] == SubPair(OutputKinds[a], i + 1, cons[i].name);
    assert "cope" == OutputKinds[0];
    KeyInjective(a, i + 1, 0, n);
  }

  /** The key `cope<n>.` occurs in a run's pairs exactly for the contrast
      numbers 1 to the number of contrasts. */
  lemma CopeKeysCoverContrasts(cons: seq<Contrast>, n: nat)
    ensures (exists k :: 0 <= k < |RunSubs(cons)| && RunSubs(cons)[k].0 == "cope" + Show(n) + ".")
        <==> 1 <= n <= |cons|
  {
    var r := RunSubs(cons);
    if 1 <= n <= |cons| {
      var k := 4 * (n - 1);
      FirstOfQuad(n, |cons|);
      assert r[k] == SubPair(OutputKinds[0], n, cons[n - 1].name);
      assert r[k].0 == "cope" + Show(n) + ".";
      assert 0 <= k < |r|;
      assert exists k :: 0 <= k < |RunSubs(cons)| && RunSubs(cons)[k].0 == "cope" + Show(n) + ".";
    }
    forall k | 0 <= k < |r| && r[k].0 == "cope" + Show(n) + "."
      ensures 1 <= n <= |cons|
    {
      CopeKeyNumber(cons, k, n);
    }
  }

  /** Key and replacement of every pair carry the same contrast number, once
      unpadded and once zero-padded, and the replacement ends in the contrast's name. */
  lemma PairIndexAgrees(cons: seq<Contrast>, k: nat)
    requires k < 4 * |cons|
    ensures var kind := OutputKinds[k % 4];
      && RunSubs(cons)[k].0 == kind + Show(k / 4 + 1) + "."
      && RunSubs(cons)[k].1 == kind + Pad2(k / 4 + 1) + "_" + cons[k / 4].name + "."
      && ParseNat(Pad2(k / 4 + 1)) == ParseNat(Show(k / 4 + 1)) == k / 4 + 1
  {
    ParsePad2(k / 4 + 1);
    ParseShow(k / 4 + 1);
  }
}
