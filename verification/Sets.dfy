/** Sizes of sets of numbers, used wherever the kernel counts cells, tasks, bits or blocks. */
module Sets {

  ghost predicate Distinct<T>(f: seq<T>) {
    forall i, j :: 0 <= i < j < |f| ==> f[i] != f[j]
  }

  ghost function Elems<T>(f: seq<T>): set<T> {
    set x | x in f
  }

  /** The set {0, ..., n - 1}. */
  ghost function Below(n: nat): (r: set<int>)
    ensures |r| == n
    ensures forall x :: x in r <==> 0 <= x < n
  {
    if n == 0 then {} else Below(n - 1) + {n - 1}
  }

  lemma {:induction false} ElemsSize<T>(f: seq<T>)
    requires Distinct(f)
    ensures |Elems(f)| == |f|
  {
    if f != [] {
      var init, last := f[..|f| - 1], f[|f| - 1];
      ElemsSize(init);
      assert last !in Elems(init);
      assert Elems(f) == Elems(init) + {last};
    }
  }

  lemma {:induction false} SubsetSize<T>(a: set<T>, b: set<T>)
    requires a <= b
    ensures |a| <= |b|
  {
    if a != {} {
      var x :| x in a;
      SubsetSize(a - {x}, b - {x});
    }
  }

  /** Pigeonhole: distinct numbers below `n` are at most `n` many. */
  lemma DistinctBound(f: seq<int>, n: nat)
    requires Distinct(f) && forall k :: 0 <= k < |f| ==> 0 <= f[k] < n
    ensures |f| <= n
  {
    ElemsSize(f);
    SubsetSize(Elems(f), Below(n));
  }
}
