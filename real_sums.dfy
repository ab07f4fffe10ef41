/** Sums of real sequences, the model of `np.sum` and of Python's `sum`. */
module RealSums {

  /** `np.zeros(n)`. */
  function Zeros(n: nat): (r: seq<real>)
    ensures |r| == n
    ensures forall k :: 0 <= k < n ==> r[k] == 0.0
  {
    seq(n, _ => 0.0)
  }

  function Sum(s: seq<real>): real
  {
    if |s| == 0 then 0.0 else s[0] + Sum(s[1..])
  }

  lemma {:induction false} SumAppend(a: seq<real>, b: seq<real>)
    ensures Sum(a + b) == Sum(a) + Sum(b)
  {
    if |a| == 0 {
      assert a + b == b;
    } else {
      assert (a + b)[1..] == a[1..] + b;
      SumAppend(a[1..], b);
    }
  }

  /** The sum of the first k + 1 elements is the sum of the first k plus the k-th. */
  lemma SumPrefixStep(s: seq<real>, k: nat)
    requires k < |s|
    ensures Sum(s[..k + 1]) == Sum(s[..k]) + s[k]
  {
    assert s[..k + 1] == s[..k] + [s[k]];
    SumAppend(s[..k], [s[k]]);
    assert [s[k]][1..] == [];
  }

  /** Sum of a sequence of zeros. */
  lemma {:induction false} SumZeros(s: seq<real>)
    requires forall k :: 0 <= k < |s| ==> s[k] == 0.0
    ensures Sum(s) == 0.0
  {
    if |s| > 0 {
      SumZeros(s[1..]);
    }
  }

  /** Sum is linear: it distributes over an elementwise sum. */
  lemma {:induction false} SumPointwiseAdd(a: seq<real>, b: seq<real>, c: seq<real>)
    requires |a| == |b| == |c|
    requires forall k :: 0 <= k < |c| ==> c[k] == a[k] + b[k]
    ensures Sum(c) == Sum(a) + Sum(b)
  {
    if |c| > 0 {
      SumPointwiseAdd(a[1..], b[1..], c[1..]);
    }
  }
}
