/** Sequence helpers standing in for the numpy primitives the simulator uses:
    boolean-mask selection, `astype(int)`, `argmax`, `sum` and `cumsum`. */
module SeqUtil {

  datatype Option<T> = None | Some(value: T)

  /** `astype(int)` on a float: truncation toward zero. */
  function Trunc(x: real): (r: int)
    ensures 0.0 <= x ==> 0 <= r && r as real <= x < r as real + 1.0
    ensures x < 0.0 ==> r <= 0 && r as real - 1.0 < x <= r as real
  {
    if x >= 0.0 then x.Floor else -((-x).Floor)
  }

  function Min(a: real, b: real): (r: real)
    ensures r <= a && r <= b && (r == a || r == b)
  {
    if a <= b then a else b
  }

  function Max(a: real, b: real): (r: real)
    ensures a <= r && b <= r && (r == a || r == b)
  {
    if a >= b then a else b
  }

  // ---------------------------------------------------------------------------
  // Boolean masks: `s[mask]` and `s[~mask]`
  // ---------------------------------------------------------------------------

  /** `astype(int)` applied to every entry. */
  function TruncAll(s: seq<real>): (r: seq<int>)
    ensures |r| == |s|
    ensures forall i :: 0 <= i < |s| ==> r[i] == Trunc(s[i])
  {
    seq(|s|, i requires 0 <= i < |s| => Trunc(s[i]))
  }

  /** `~mask` */
  function Negate(m: seq<bool>): (r: seq<bool>)
    ensures |r| == |m|
    ensures forall i :: 0 <= i < |m| ==> r[i] == !m[i]
  {
    seq(|m|, i requires 0 <= i < |m| => !m[i])
  }

  /** `s[mask]`: the elements of `s` whose mask entry is true, in order. */
  function Select<T>(s: seq<T>, m: seq<bool>): (r: seq<T>)
    requires |s| == |m|
    ensures |r| <= |s|
    decreases |s|
  {
    if |s| == 0 then []
    else (if m[0] then [s[0]] else []) + Select(s[1..], m[1..])
  }

  /** Selection distributes over concatenation, so it keeps the order of `s`. */
  lemma {:induction false} SelectAppend<T>(s1: seq<T>, m1: seq<bool>, s2: seq<T>, m2: seq<bool>)
    requires |s1| == |m1| && |s2| == |m2|
    ensures Select(s1 + s2, m1 + m2) == Select(s1, m1) + Select(s2, m2)
    decreases |s1|
  {
    if |s1| == 0 {
      assert s1 + s2 == s2 && m1 + m2 == m2;
    } else {
      var s, m := s1 + s2, m1 + m2;
      assert s[0] == s1[0] && m[0] == m1[0];
      assert s[1..] == s1[1..] + s2;
      assert m[1..] == m1[1..] + m2;
      SelectAppend(s1[1..], m1[1..], s2, m2);
      calc {
        Select(s, m);
        (if m[0] then [s[0]] else []) + Select(s[1..], m[1..]);
        (if m1[0] then [s1[0]] else []) + (Select(s1[1..], m1[1..]) + Select(s2, m2));
      }
    }
  }

  /** Every selected element comes from a position whose mask entry is true. */
  lemma {:induction false} SelectFrom<T>(s: seq<T>, m: seq<bool>, x: T)
    requires |s| == |m|
    requires x in Select(s, m)
    ensures exists i :: 0 <= i < |s| && m[i] && s[i] == x
    decreases |s|
  {
    if m[0] && x == s[0] {
    } else {
      assert x in Select(s[1..], m[1..]);
      SelectFrom(s[1..], m[1..], x);
      var i :| 0 <= i < |s[1..]| && m[1..][i] && s[1..][i] == x;
      assert m[i + 1] && s[i + 1] == x;
    }
  }

  /** Selection only keeps elements of `s`. */
  lemma SelectSubset<T>(s: seq<T>, m: seq<bool>)
    requires |s| == |m|
    ensures forall x :: x in Select(s, m) ==> x in s
  {
    forall x | x in Select(s, m) ensures x in s {
      SelectFrom(s, m, x);
    }
  }

  /** Every position whose mask entry is true is selected. */
  lemma {:induction false} SelectKeeps<T>(s: seq<T>, m: seq<bool>, i: nat)
    requires |s| == |m| && i < |s| && m[i]
    ensures s[i] in Select(s, m)
    decreases i
  {
    if i > 0 {
      SelectKeeps(s[1..], m[1..], i - 1);
    }
  }

  /** A mask and its negation split `s` into two parts whose multisets add up to `s`'s. */
  lemma {:induction false} SelectPartition<T>(s: seq<T>, m: seq<bool>)
    requires |s| == |m|
    ensures multiset(Select(s, m)) + multiset(Select(s, Negate(m))) == multiset(s)
    ensures |Select(s, m)| + |Select(s, Negate(m))| == |s|
    decreases |s|
  {
    if |s| > 0 {
      assert Negate(m)[1..] == Negate(m[1..]);
      SelectPartition(s[1..], m[1..]);
      assert s == [s[0]] + s[1..];
    }
  }

  function Zip<A, B>(a: seq<A>, b: seq<B>): (r: seq<(A, B)>)
    requires |a| == |b|
    ensures |r| == |a|
    ensures forall i :: 0 <= i < |a| ==> r[i].0 == a[i] && r[i].1 == b[i]
  {
    seq(|a|, i requires 0 <= i < |a| => (a[i], b[i]))
  }

  /** Masking two parallel columns with one mask keeps their rows together. */
  lemma {:induction false} SelectZip<A, B>(a: seq<A>, b: seq<B>, m: seq<bool>)
    requires |a| == |b| == |m|
    ensures |Select(a, m)| == |Select(b, m)|
    ensures Select(Zip(a, b), m) == Zip(Select(a, m), Select(b, m))
    decreases |a|
  {
    if |a| > 0 {
      assert Zip(a, b)[1..] == Zip(a[1..], b[1..]);
      SelectZip(a[1..], b[1..], m[1..]);
    }
  }

  lemma ZipAppend<A, B>(a1: seq<A>, b1: seq<B>, a2: seq<A>, b2: seq<B>)
    requires |a1| == |b1| && |a2| == |b2|
    ensures Zip(a1 + a2, b1 + b2) == Zip(a1, b1) + Zip(a2, b2)
  {
  }

  // ---------------------------------------------------------------------------
  // argmax
  // ---------------------------------------------------------------------------

  /** numpy's `argmax`: the first index attaining the maximum, found by a
      left-to-right scan that moves only on a strictly larger value. */
  function FirstArgmax(s: seq<real>): (k: nat)
    requires |s| > 0
    ensures k < |s|
    ensures forall j :: 0 <= j < |s| ==> s[j] <= s[k]
    ensures forall j :: 0 <= j < k ==> s[j] < s[k]
    decreases |s|
  {
    if |s| == 1 then 0
    else
      var k := FirstArgmax(s[..|s| - 1]);
      if s[|s| - 1] > s[k] then |s| - 1 else k
  }

  /** The two properties of `FirstArgmax` single out its index. */
  lemma FirstArgmaxUnique(s: seq<real>, k: nat)
    requires k < |s|
    requires forall j :: 0 <= j < |s| ==> s[j] <= s[k]
    requires forall j :: 0 <= j < k ==> s[j] < s[k]
    ensures FirstArgmax(s) == k
  {
  }

  /** On a strictly increasing sequence the maximum is the last entry. */
  lemma {:induction false} FirstArgmaxIncreasing(s: seq<real>)
    requires |s| > 0
    requires forall j :: 0 <= j < |s| - 1 ==> s[j] < s[j + 1]
    ensures FirstArgmax(s) == |s| - 1
    decreases |s|
  {
    if |s| > 1 {
      var p := s[..|s| - 1];
      FirstArgmaxIncreasing(p);
      assert s[|s| - 2] < s[|s| - 1];
    }
  }

  /** `argmax` computed by a loop over the sequence. */
  method ArgmaxIndex(s: seq<real>) returns (k: nat)
    requires |s| > 0
    ensures k == FirstArgmax(s)
  {
    k := 0;
    var j := 1;
    while j < |s|
      invariant 1 <= j <= |s|
      invariant k == FirstArgmax(s[..j])
    {
      assert s[..j + 1][..j] == s[..j];
      if s[j] > s[k] {
        k := j;
      }
      j := j + 1;
    }
    assert s[..j] == s;
  }

  // ---------------------------------------------------------------------------
  // Sums
  // ---------------------------------------------------------------------------

  function Sum(s: seq<real>): real
    decreases |s|
  {
    if |s| == 0 then 0.0 else s[0] + Sum(s[1..])
  }

  function SumNat(s: seq<nat>): nat
    decreases |s|
  {
    if |s| == 0 then 0 else s[0] + SumNat(s[1..])
  }

  lemma {:induction false} SumAppend(a: seq<real>, b: seq<real>)
    ensures Sum(a + b) == Sum(a) + Sum(b)
    decreases |a|
  {
    if |a| == 0 {
      assert a + b == b;
    } else {
      assert (a + b)[1..] == a[1..] + b;
      SumAppend(a[1..], b);
    }
  }

  /** Raising one entry by one raises the total by one. */
  lemma {:induction false} SumNatIncrement(s: seq<nat>, i: nat)
    requires i < |s|
    ensures SumNat(s[i := s[i] + 1]) == SumNat(s) + 1
    decreases i
  {
    if i > 0 {
      assert s[i := s[i] + 1][1..] == s[1..][i - 1 := s[i] + 1];
      SumNatIncrement(s[1..], i - 1);
    }
  }

  /** numpy's `cumsum`: each entry adds the next value to the running total. */
  function CumSum(s: seq<real>): (r: seq<real>)
    ensures |r| == |s|
    decreases |s|
  {
    if |s| == 0 then []
    else
      var prefix := CumSum(s[..|s| - 1]);
      prefix + [(if |s| == 1 then 0.0 else prefix[|s| - 2]) + s[|s| - 1]]
  }

  /** Entry `i` of the running total is the sum of the first `i + 1` values. */
  lemma {:induction false} CumSumIsPrefixSum(s: seq<real>, i: nat)
    requires i < |s|
    ensures CumSum(s)[i] == Sum(s[..i + 1])
    decreases |s|
  {
    var prefix := s[..|s| - 1];
    if i < |s| - 1 {
      CumSumIsPrefixSum(prefix, i);
      assert prefix[..i + 1] == s[..i + 1];
    } else if i > 0 {
      CumSumIsPrefixSum(prefix, i - 1);
      assert prefix[..i] == s[..i];
      assert s[..i + 1] == s[..i] + [s[i]];
      SumAppend(s[..i], [s[i]]);
    } else {
      assert s[..1] == [s[0]];
    }
  }

  /** The last entry of a running total is the total. */
  lemma CumSumLast(s: seq<real>)
    requires |s| > 0
    ensures CumSum(s)[|s| - 1] == Sum(s)
  {
    CumSumIsPrefixSum(s, |s| - 1);
    assert s[..|s|] == s;
  }
}
