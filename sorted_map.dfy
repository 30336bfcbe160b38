/**
 * A `std::map<std::string, V>` as a strictly key-sorted association list. Iterating a
 * `std::map` visits its keys in increasing `std::less<std::string>` order; keeping the entries
 * in that order makes every loop over such a map a loop over this sequence.
 */
module SortedMap {
  import opened Common
  import opened Strings

  type Entries<V> = seq<(string, V)>

  /** Keys strictly increase from left to right (so no key occurs twice). */
  ghost predicate Sorted<V>(m: Entries<V>)
  {
    forall i, j :: 0 <= i < j < |m| ==> Less(m[i].0, m[j].0)
  }

  function Keys<V>(m: Entries<V>): set<string>
  {
    set i | 0 <= i < |m| :: m[i].0
  }

  /** Lookup: the value stored under `k`, if any. */
  function Get<V>(m: Entries<V>, k: string): Option<V>
  {
    if |m| == 0 then None
    else if m[0].0 == k then Some(m[0].1)
    else Get(m[1..], k)
  }

  lemma {:induction false} GetDefinedIffKey<V>(m: Entries<V>, k: string)
    ensures Get(m, k).Some? <==> k in Keys(m)
  {
    if |m| > 0 {
      GetDefinedIffKey(m[1..], k);
      assert Keys(m) == {m[0].0} + Keys(m[1..]) by {
        forall x | x in Keys(m) ensures x in {m[0].0} + Keys(m[1..]) {
          var i :| 0 <= i < |m| && m[i].0 == x;
          if i > 0 { assert m[1..][i - 1].0 == x; }
        }
        forall x | x in Keys(m[1..]) ensures x in Keys(m) {
          var i :| 0 <= i < |m[1..]| && m[1..][i].0 == x;
          assert m[i + 1].0 == x;
        }
      }
    }
  }

  /** `std::map::operator[]` assignment: replace the value under `k`, or insert `k` in order. */
  function Put<V>(m: Entries<V>, k: string, v: V): (r: Entries<V>)
    requires Sorted(m)
    ensures Sorted(r)
    ensures Keys(r) == Keys(m) + {k}
    ensures Get(r, k) == Some(v)
    ensures forall k' :: k' != k ==> Get(r, k') == Get(m, k')
    decreases |m|
  {
    if |m| == 0 || Less(k, m[0].0) then
      InsertFront(m, k, v);
      [(k, v)] + m
    else if m[0].0 == k then
      ReplaceFront(m, v);
      [(k, v)] + m[1..]
    else
      var rest := Put(m[1..], k, v);
      LessTotal(k, m[0].0);
      KeepFront(m, k, rest);
      [m[0]] + rest
  }

  /** A key below every key of a sorted map goes in front. */
  lemma InsertFront<V>(m: Entries<V>, k: string, v: V)
    requires Sorted(m) && (|m| == 0 || Less(k, m[0].0))
    ensures Sorted([(k, v)] + m)
    ensures Keys([(k, v)] + m) == Keys(m) + {k}
  {
    var r := [(k, v)] + m;
    KeysOfCons((k, v), m);
    forall i, j | 0 <= i < j < |r| ensures Less(r[i].0, r[j].0) {
      if i == 0 && j > 1 { LessTransitive(k, m[0].0, m[j - 1].0); }
    }
  }

  /** Replacing the first value keeps the keys. */
  lemma ReplaceFront<V>(m: Entries<V>, v: V)
    requires Sorted(m) && |m| > 0
    ensures Sorted([(m[0].0, v)] + m[1..])
    ensures Keys([(m[0].0, v)] + m[1..]) == Keys(m)
  {
    KeysOfCons(m[0], m[1..]);
    KeysOfCons((m[0].0, v), m[1..]);
    assert [m[0]] + m[1..] == m;
  }

  /** Keeping the first entry in front of the rest, updated with a larger key. */
  lemma KeepFront<V>(m: Entries<V>, k: string, rest: Entries<V>)
    requires Sorted(m) && |m| > 0 && Less(m[0].0, k)
    requires Sorted(rest) && Keys(rest) == Keys(m[1..]) + {k}
    ensures Sorted([m[0]] + rest)
    ensures Keys([m[0]] + rest) == Keys(m) + {k}
  {
    KeysOfCons(m[0], rest);
    KeysOfCons(m[0], m[1..]);
    assert [m[0]] + m[1..] == m;
    FirstBelowRest(m, k, rest);
    ConsSorted(m[0], rest);
  }

  /** Every key of the updated rest lies above the first key. */
  lemma FirstBelowRest<V>(m: Entries<V>, k: string, rest: Entries<V>)
    requires Sorted(m) && |m| > 0 && Less(m[0].0, k)
    requires Keys(rest) == Keys(m[1..]) + {k}
    ensures forall j :: 0 <= j < |rest| ==> Less(m[0].0, rest[j].0)
  {
    forall j | 0 <= j < |rest| ensures Less(m[0].0, rest[j].0) {
      assert rest[j].0 in Keys(rest);
      if rest[j].0 != k {
        var i :| 0 <= i < |m[1..]| && m[1..][i].0 == rest[j].0;
        assert m[i + 1].0 == rest[j].0;
      }
    }
  }

  /** An entry below every key of a sorted map may go in front of it. */
  lemma ConsSorted<V>(e: (string, V), rest: Entries<V>)
    requires Sorted(rest) && forall j :: 0 <= j < |rest| ==> Less(e.0, rest[j].0)
    ensures Sorted([e] + rest)
  {
    var c := [e] + rest;
    forall i, j | 0 <= i < j < |c| ensures Less(c[i].0, c[j].0) {
      assert c[j] == rest[j - 1];
      if i > 0 {
        assert c[i] == rest[i - 1];
      }
    }
  }

  lemma KeysOfCons<V>(e: (string, V), m: Entries<V>)
    ensures Keys([e] + m) == {e.0} + Keys(m)
  {
    var c := [e] + m;
    forall x | x in Keys(c) ensures x in {e.0} + Keys(m) {
      var i :| 0 <= i < |c| && c[i].0 == x;
      if i > 0 { assert m[i - 1].0 == x; }
    }
    forall x | x in Keys(m) ensures x in Keys(c) {
      var i :| 0 <= i < |m| && m[i].0 == x;
      assert c[i + 1].0 == x;
    }
    assert c[0].0 == e.0;
  }

  /** Inserting into an empty map. */
  lemma PutEmpty<V>(k: string, v: V)
    ensures Put([], k, v) == [(k, v)]
  {
  }

  /** A key below every key goes to the front. */
  lemma PutFront<V>(m: Entries<V>, k: string, v: V)
    requires Sorted(m) && |m| > 0 && Less(k, m[0].0)
    ensures Put(m, k, v) == [(k, v)] + m
  {
    LessIrreflexive(k);
  }

  /** A key above the first key is inserted into the rest. */
  lemma PutPastFirst<V>(m: Entries<V>, k: string, v: V)
    requires Sorted(m) && |m| > 0 && Less(m[0].0, k)
    ensures Put(m, k, v) == [m[0]] + Put(m[1..], k, v)
  {
    LessIrreflexive(k);
    LessAsymmetric(m[0].0, k);
  }

  /** A key above the only key goes after it. */
  lemma PutSecond<V>(k1: string, v1: V, k2: string, v2: V)
    requires Less(k1, k2)
    ensures Put([(k1, v1)], k2, v2) == [(k1, v1), (k2, v2)]
  {
    PutPastFirst([(k1, v1)], k2, v2);
    PutEmpty(k2, v2);
    assert [(k1, v1)][1..] == [];
  }

  /** A key above both keys goes last. */
  lemma PutThird<V>(k1: string, v1: V, k2: string, v2: V, k3: string, v3: V)
    requires Less(k1, k2) && Less(k2, k3)
    ensures Put([(k1, v1), (k2, v2)], k3, v3) == [(k1, v1), (k2, v2), (k3, v3)]
  {
    LessTransitive(k1, k2, k3);
    var m := [(k1, v1), (k2, v2)];
    PutPastFirst(m, k3, v3);
    assert m[1..] == [(k2, v2)];
    PutSecond(k2, v2, k3, v3);
  }
}
