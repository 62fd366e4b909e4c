/**
 Resource lists and quantity arithmetic.

 A resource list maps a resource name (such as "nvidia.com/gpu" or "cpu") to a
 quantity. Looking up a name that is absent yields the zero quantity, so a
 missing entry contributes nothing to any sum. Quantities are whole numbers and
 are modelled as unbounded integers.
 */
module Quantities {

  /** Quantity per resource name; an absent name stands for zero. */
  type ResourceList = map<string, int>

  /** The resource name under which GPUs are advertised and requested. */
  const GpuResource: string := "nvidia.com/gpu"

  /** The quantity of resource `name` in `rl`, zero when the list has no entry for it. */
  function Value(rl: ResourceList, name: string): int
  {
    if name in rl then rl[name] else 0
  }

  /** The sum of `f` over the elements of `s`, accumulated front to back. */
  function Sum<T>(s: seq<T>, f: T -> int): int
  {
    if |s| == 0 then 0 else Sum(s[..|s| - 1], f) + f(s[|s| - 1])
  }

  /** Adding one element at the end adds its measure to the sum. */
  lemma SumSnoc<T>(s: seq<T>, x: T, f: T -> int)
    ensures Sum(s + [x], f) == Sum(s, f) + f(x)
  {
    assert (s + [x])[..|s|] == s;
  }

  /** One step of a front-to-back accumulation over a prefix. */
  lemma SumPrefixStep<T>(s: seq<T>, k: int, f: T -> int)
    requires 0 <= k < |s|
    ensures Sum(s[..k + 1], f) == Sum(s[..k], f) + f(s[k])
  {
    assert s[..k + 1] == s[..k] + [s[k]];
    SumSnoc(s[..k], s[k], f);
  }

  /** Sums are additive over concatenation: accumulation can be split anywhere. */
  lemma {:induction false} SumAppend<T>(a: seq<T>, b: seq<T>, f: T -> int)
    ensures Sum(a + b, f) == Sum(a, f) + Sum(b, f)
    decreases |b|
  {
    if |b| == 0 {
      assert a + b == a;
    } else {
      var b', x := b[..|b| - 1], b[|b| - 1];
      assert b == b' + [x];
      assert a + b == (a + b') + [x];
      SumAppend(a, b', f);
      SumSnoc(a + b', x, f);
      SumSnoc(b', x, f);
    }
  }

  /** Two sequences whose elements have pairwise equal measures have equal sums. */
  lemma {:induction false} SumPointwise<T, U>(s: seq<T>, f: T -> int, t: seq<U>, g: U -> int)
    requires |s| == |t|
    requires forall i :: 0 <= i < |s| ==> f(s[i]) == g(t[i])
    ensures Sum(s, f) == Sum(t, g)
    decreases |s|
  {
    if |s| > 0 {
      var n := |s| - 1;
      assert f(s[n]) == g(t[n]);
      SumPointwise(s[..n], f, t[..n], g);
    }
  }

  /** Elements of measure zero contribute nothing to a sum. */
  lemma {:induction false} SumOfZeros<T>(s: seq<T>, f: T -> int)
    requires forall i :: 0 <= i < |s| ==> f(s[i]) == 0
    ensures Sum(s, f) == 0
    decreases |s|
  {
    if |s| > 0 {
      var n := |s| - 1;
      assert f(s[n]) == 0;
      SumOfZeros(s[..n], f);
    }
  }

  /** An element of a permuted sequence can be taken out of it, leaving a
      permutation of the rest: the sequence is `t[..k] + [x] + t[k + 1..]`. */
  lemma TakeOut<T>(s: seq<T>, t: seq<T>) returns (k: int)
    requires |s| > 0 && multiset(s) == multiset(t)
    ensures 0 <= k < |t| && t[k] == s[|s| - 1]
    ensures t == t[..k] + [t[k]] + t[k + 1..]
    ensures multiset(s[..|s| - 1]) == multiset(t[..k] + t[k + 1..])
  {
    var n := |s| - 1;
    assert s == s[..n] + [s[n]];
    assert s[n] in multiset(t);
    k :| 0 <= k < |t| && t[k] == s[n];
    assert t == t[..k] + [t[k]] + t[k + 1..];
    var rest := t[..k] + t[k + 1..];
    assert multiset(t) == multiset(rest) + multiset{s[n]};
    assert multiset(s) == multiset(s[..n]) + multiset{s[n]};
    assert multiset(s[..n]) == multiset(s) - multiset{s[n]};
    assert multiset(rest) == multiset(t) - multiset{s[n]};
  }
}
