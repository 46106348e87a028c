// Datatypes and facts about collections that several modules share.
module Prelude {

  datatype Option<+T> = None | Some(value: T)

  predicate StrictlyIncreasing(s: seq<int>) {
    forall i, j | 0 <= i < j < |s| :: s[i] < s[j]
  }

  lemma AppendIncreasing(s: seq<int>, x: int)
    requires StrictlyIncreasing(s)
    requires s == [] || s[|s| - 1] < x
    ensures StrictlyIncreasing(s + [x])
  {
    forall i, j | 0 <= i < j < |s + [x]| ensures (s + [x])[i] < (s + [x])[j] {
      if j == |s| && i < |s| - 1 {
        assert s[i] < s[|s| - 1];
      }
    }
  }

  /** `t` is `s` with only the elements at the strictly increasing positions `at` kept. */
  ghost predicate SelectedAt<T(!new)>(s: seq<T>, at: seq<int>, t: seq<T>) {
    && StrictlyIncreasing(at)
    && |t| == |at|
    && (forall k | 0 <= k < |at| :: 0 <= at[k] < |s| && t[k] == s[at[k]])
  }

  /** A subset has no more elements, and as many only when it is the whole set. */
  lemma SubsetSize<T>(a: set<T>, b: set<T>)
    requires a <= b
    ensures |a| <= |b|
    ensures |a| == |b| ==> a == b
  {
    assert b == a + (b - a);
    assert |b| == |a| + |b - a|;
  }
}
