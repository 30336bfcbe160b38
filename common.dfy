/** Small shared vocabulary: optional values, integer minimum, ordered subsequences. */
module Common {

  /** The conventional Some/None datatype, used for parse results that may fail. */
  datatype Option<+T> = None | Some(value: T)

  function Min(a: int, b: int): int
  {
    if a < b then a else b
  }

  /** `a` can be obtained from `b` by deleting elements; the order of what remains is kept. */
  ghost predicate Subsequence<T>(a: seq<T>, b: seq<T>)
    decreases |b|
  {
    if |b| == 0 then |a| == 0
    else
      (|a| > 0 && a[|a| - 1] == b[|b| - 1] && Subsequence(a[..|a| - 1], b[..|b| - 1]))
      || Subsequence(a, b[..|b| - 1])
  }

  /** Appending an element to the larger sequence only keeps a subsequence. */
  lemma SubsequenceSkip<T>(a: seq<T>, b: seq<T>, x: T)
    requires Subsequence(a, b)
    ensures Subsequence(a, b + [x])
  {
    assert (b + [x])[..|b|] == b;
  }

  /** Appending the same element to both sides keeps a subsequence. */
  lemma SubsequenceKeep<T>(a: seq<T>, b: seq<T>, x: T)
    requires Subsequence(a, b)
    ensures Subsequence(a + [x], b + [x])
  {
    assert (a + [x])[..|a|] == a;
    assert (b + [x])[..|b|] == b;
  }

  /** Every element of a subsequence occurs in the larger sequence. */
  lemma {:induction false} SubsequenceMembers<T>(a: seq<T>, b: seq<T>, x: T)
    requires Subsequence(a, b)
    requires x in a
    ensures x in b
    decreases |b|
  {
    if |b| > 0 {
      if |a| > 0 && a[|a| - 1] == b[|b| - 1] && Subsequence(a[..|a| - 1], b[..|b| - 1]) {
        if x != a[|a| - 1] {
          assert a == a[..|a| - 1] + [a[|a| - 1]];
          SubsequenceMembers(a[..|a| - 1], b[..|b| - 1], x);
        }
      } else {
        SubsequenceMembers(a, b[..|b| - 1], x);
      }
    }
  }

  /** The empty sequence is a subsequence of everything. */
  lemma {:induction false} SubsequenceEmpty<T>(b: seq<T>)
    ensures Subsequence([], b)
    decreases |b|
  {
    if |b| > 0 {
      SubsequenceEmpty(b[..|b| - 1]);
    }
  }
}
