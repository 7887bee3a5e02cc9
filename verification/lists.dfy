/** Python list idioms the scripts rely on. */
module Lists {

  /** A value that is either a Python list or a single non-list value. */
  datatype ListOr<T> = Single(item: T) | Many(items: seq<T>)

  /** `if not isinstance(x, list): x = [x]` */
  function AsList<T>(v: ListOr<T>): (r: seq<T>)
    ensures v.Single? ==> r == [v.item]
    ensures v.Many? ==> r == v.items
  {
    match v
    case Single(x) => [x]
    case Many(xs) => xs
  }

  /** `s.insert(i, x)` for a non-negative index `i`: an index past the end appends. */
  function Insert<T>(s: seq<T>, i: nat, x: T): seq<T> {
    var k := if i <= |s| then i else |s|;
    s[..k] + [x] + s[k..]
  }

  /** Inserting at an index no smaller than the length is an append. */
  lemma InsertPastEndAppends<T>(s: seq<T>, i: nat, x: T)
    requires |s| <= i
    ensures Insert(s, i, x) == s + [x]
  {
    assert s[..|s|] == s;
  }

  /** `[el for sublist in groups for el in sublist]` */
  function Flatten<T>(groups: seq<seq<T>>): seq<T> {
    if groups == [] then [] else groups[0] + Flatten(groups[1..])
  }

  lemma FlattenTwo<T>(a: seq<T>, b: seq<T>)
    ensures Flatten([a, b]) == a + b
  {
    assert [a, b][1..] == [b];
    assert [b][1..] == [];
    assert Flatten([b]) == b + Flatten([b][1..]);
  }

  lemma FlattenThree<T>(a: seq<T>, b: seq<T>, c: seq<T>)
    ensures Flatten([a, b, c]) == a + b + c
  {
    assert [a, b, c][1..] == [b, c];
    FlattenTwo(b, c);
  }

  /** `[x] * n` */
  function Repeat<T>(x: T, n: nat): (r: seq<T>)
    ensures |r| == n
    ensures forall i :: 0 <= i < n ==> r[i] == x
  {
    seq(n, _ => x)
  }

  function Sum(s: seq<real>): real {
    if s == [] then 0.0 else s[0] + Sum(s[1..])
  }

  /** Elementwise negation of a weight vector. */
  function Negate(s: seq<real>): (r: seq<real>)
    ensures |r| == |s|
    ensures forall i :: 0 <= i < |s| ==> r[i] == -s[i]
  {
    seq(|s|, i requires 0 <= i < |s| => -s[i])
  }

  lemma {:induction false} SumRepeat(x: real, n: nat)
    ensures Sum(Repeat(x, n)) == n as real * x
  {
    if n > 0 {
      assert Repeat(x, n)[1..] == Repeat(x, n - 1);
      SumRepeat(x, n - 1);
    }
  }

  /** `[1. / n] * n` sums to 1 for every positive n. */
  lemma EqualWeightsSumToOne(n: nat)
    requires n > 0
    ensures Sum(Repeat(1.0 / n as real, n)) == 1.0
  {
    SumRepeat(1.0 / n as real, n);
  }

  lemma SumTwo(x: real, y: real)
    ensures Sum([x, y]) == x + y
  {
    assert [y][1..] == [];
    assert Sum([y]) == y + Sum([]);
    assert [x, y][1..] == [y];
  }

  lemma SumFour(w: real, x: real, y: real, z: real)
    ensures Sum([w, x, y, z]) == w + x + y + z
  {
    assert [w, x, y, z][1..] == [x, y, z];
    assert [x, y, z][1..] == [y, z];
    SumTwo(y, z);
  }

  lemma {:induction false} SumNegate(s: seq<real>)
    ensures Sum(Negate(s)) == -Sum(s)
  {
    if s != [] {
      assert Negate(s)[1..] == Negate(s[1..]);
      SumNegate(s[1..]);
    }
  }
}
