// Small definitions shared by the model files: optional values, the byte-wise
// string order of the daemon, and small facts about maps, sets and sequences.
module Common {

  datatype Option<+T> = None | Some(value: T)

  /** Strict lexicographic order of strings, the order of `<` on daemon strings. */
  predicate StrLess(a: string, b: string) {
    && b != []
    && (a == [] || a[0] < b[0] || (a[0] == b[0] && StrLess(a[1..], b[1..])))
  }

  lemma {:induction false} StrLessIrreflexive(a: string)
    ensures !StrLess(a, a)
  {
    if a != [] { StrLessIrreflexive(a[1..]); }
  }

  lemma {:induction false} StrLessTransitive(a: string, b: string, c: string)
    requires StrLess(a, b) && StrLess(b, c)
    ensures StrLess(a, c)
  {
    if a != [] && a[0] == b[0] && b[0] == c[0] {
      StrLessTransitive(a[1..], b[1..], c[1..]);
    }
  }

  lemma {:induction false} StrLessTotal(a: string, b: string)
    requires a != b
    ensures StrLess(a, b) || StrLess(b, a)
  {
    if a != [] && b != [] && a[0] == b[0] {
      assert a == [a[0]] + a[1..] && b == [b[0]] + b[1..];
      StrLessTotal(a[1..], b[1..]);
    }
  }

  lemma WithoutKeys<K, V>(m: map<K, V>, k: K)
    ensures (m - {k}).Keys == m.Keys - {k}
    ensures k in m ==> |m - {k}| == |m| - 1
  {
    assert (m - {k}).Keys == m.Keys - {k};
  }

  /** Moving one key from a map to a disjoint one does not change their union. */
  lemma MoveKey<K, V>(m: map<K, V>, acc: map<K, V>, k: K)
    requires k in m && m.Keys !! acc.Keys
    ensures (m - {k}).Keys !! acc[k := m[k]].Keys
    ensures acc[k := m[k]] + (m - {k}) == acc + m
  {
    assert (m - {k}).Keys == m.Keys - {k};
    var l, r := acc[k := m[k]] + (m - {k}), acc + m;
    assert l.Keys == r.Keys;
    forall j | j in l ensures l[j] == r[j] {
      if j == k { assert k !in m - {k}; } else if j in m { assert j in m - {k}; }
    }
  }

  lemma Regroup<T>(a: seq<T>, b: seq<T>, c: seq<T>)
    ensures (a + b) + c == a + (b + c)
  {
  }

  lemma {:induction false} SubsetSize<T>(a: set<T>, b: set<T>)
    requires a <= b
    ensures |a| <= |b|
  {
    if a != {} {
      var x :| x in a;
      SubsetSize(a - {x}, b - {x});
    }
  }
}
