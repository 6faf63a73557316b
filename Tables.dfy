/** Row-order operations on tables seen as sequences of records: selection by a
    mask, and keeping the first row of each key. */
module Tables {

  import opened Etl

  /** `a` is obtained from `b` by deleting rows: every row of `a` is a row of
      `b`, and rows keep their relative order. */
  predicate Subsequence<T(==)>(a: seq<T>, b: seq<T>)
    decreases |b|
  {
    if b == [] then a == []
    else Subsequence(a, b[1..]) || (a != [] && a[0] == b[0] && Subsequence(a[1..], b[1..]))
  }

  /** Boolean-mask selection `df[mask]`: the rows satisfying `p`, in order. */
  function Filter<T(!new)>(s: seq<T>, p: T -> bool): (r: seq<T>)
    ensures |r| <= |s|
    ensures forall x :: x in r <==> x in s && p(x)
    ensures Subsequence(r, s)
  {
    if s == [] then []
    else if p(s[0]) then [s[0]] + Filter(s[1..], p)
    else Filter(s[1..], p)
  }

  /** The selection keeps every copy of a row that satisfies `p` and no copy
      of one that does not. */
  lemma {:induction false} FilterCount<T(!new)>(s: seq<T>, p: T -> bool)
    ensures forall x :: multiset(Filter(s, p))[x] == if p(x) then multiset(s)[x] else 0
  {
    if s != [] {
      assert s == [s[0]] + s[1..];
      FilterCount(s[1..], p);
    }
  }

  /** The set of keys of the rows of `s`. */
  function KeySet<T, K>(s: seq<T>, key: T -> K): set<K>
  {
    if s == [] then {} else {key(s[0])} + KeySet(s[1..], key)
  }

  lemma {:induction false} KeySetMembers<T, K>(s: seq<T>, key: T -> K, k: K)
    ensures k in KeySet(s, key) <==> exists i :: 0 <= i < |s| && key(s[i]) == k
  {
    if s != [] {
      KeySetMembers(s[1..], key, k);
      if k in KeySet(s[1..], key) {
        var i :| 0 <= i < |s[1..]| && key(s[1..][i]) == k;
        assert key(s[i + 1]) == k;
      }
      if exists i :: 0 <= i < |s| && key(s[i]) == k {
        var i :| 0 <= i < |s| && key(s[i]) == k;
        if i > 0 {
          assert key(s[1..][i - 1]) == k;
        }
      }
    }
  }

  /** No two rows of `s` share a key. */
  predicate DistinctKeys<T, K(==)>(s: seq<T>, key: T -> K)
  {
    forall i, j :: 0 <= i < j < |s| ==> key(s[i]) != key(s[j])
  }

  /** The first row of `s` whose key is `k`, if there is one. */
  function FirstWithKey<T, K(==)>(s: seq<T>, key: T -> K, k: K): (r: Option<T>)
    ensures r.Some? <==> k in KeySet(s, key)
    ensures r.Some? ==> r.value in s && key(r.value) == k
  {
    if s == [] then None
    else if key(s[0]) == k then Some(s[0])
    else FirstWithKey(s[1..], key, k)
  }

  /** The first row of each key not already in `seen`, in input order: pandas
      `groupby(key).head(1)` and `drop_duplicates(subset=key, keep='first')`. */
  function KeepFirstBy<T(!new), K(==)>(s: seq<T>, key: T -> K, seen: set<K>): (r: seq<T>)
    ensures Subsequence(r, s)
    ensures DistinctKeys(r, key)
    ensures forall i :: 0 <= i < |r| ==> key(r[i]) !in seen
    ensures KeySet(r, key) == KeySet(s, key) - seen
    ensures forall x :: x in r ==> FirstWithKey(s, key, key(x)) == Some(x)
  {
    if s == [] then []
    else if key(s[0]) in seen then KeepFirstBy(s[1..], key, seen)
    else
      var rest := KeepFirstBy(s[1..], key, seen + {key(s[0])});
      assert forall i :: 0 <= i < |rest| ==> key(rest[i]) != key(s[0]);
      [s[0]] + rest
  }

  /** Reference reading of `head(1)` per group, independent of `KeepFirstBy`:
      a row survives exactly when no earlier row has its key. */
  function FirstRowsRef<T, K(==)>(s: seq<T>, key: T -> K): seq<T>
    decreases |s|
  {
    if s == [] then []
    else
      var earlier := s[..|s| - 1];
      var last := s[|s| - 1];
      FirstRowsRef(earlier, key) + (if key(last) in KeySet(earlier, key) then [] else [last])
  }

  /** Appending one row to the input appends it to the output exactly when its
      key has been neither seen nor met before. */
  lemma {:induction false} KeepFirstBySnoc<T(!new), K>(a: seq<T>, x: T, key: T -> K, seen: set<K>)
    ensures KeepFirstBy(a + [x], key, seen)
         == KeepFirstBy(a, key, seen) + (if key(x) in seen + KeySet(a, key) then [] else [x])
    decreases |a|, 1
  {
    if a == [] {
      assert a + [x] == [x];
      assert [x][1..] == [];
    } else if key(a[0]) in seen {
      KeepFirstBySnocSeen(a, x, key, seen);
    } else {
      KeepFirstBySnocNew(a, x, key, seen);
    }
  }

  /** KeepFirstBySnoc when the first row's key was already seen. */
  lemma {:induction false} KeepFirstBySnocSeen<T(!new), K>(a: seq<T>, x: T, key: T -> K, seen: set<K>)
    requires a != [] && key(a[0]) in seen
    ensures KeepFirstBy(a + [x], key, seen)
         == KeepFirstBy(a, key, seen) + (if key(x) in seen + KeySet(a, key) then [] else [x])
    decreases |a|, 0
  {
    var t := a[1..];
    assert (a + [x])[0] == a[0];
    assert (a + [x])[1..] == t + [x];
    assert KeySet(a, key) == {key(a[0])} + KeySet(t, key);
    KeepFirstBySnoc(t, x, key, seen);
    assert seen + KeySet(a, key) == seen + KeySet(t, key);
  }

  /** KeepFirstBySnoc when the first row's key is new. */
  lemma {:induction false} KeepFirstBySnocNew<T(!new), K>(a: seq<T>, x: T, key: T -> K, seen: set<K>)
    requires a != [] && key(a[0]) !in seen
    ensures KeepFirstBy(a + [x], key, seen)
         == KeepFirstBy(a, key, seen) + (if key(x) in seen + KeySet(a, key) then [] else [x])
    decreases |a|, 0
  {
    var t := a[1..];
    var seen' := seen + {key(a[0])};
    assert (a + [x])[0] == a[0];
    assert (a + [x])[1..] == t + [x];
    assert KeySet(a, key) == {key(a[0])} + KeySet(t, key);
    assert seen' + KeySet(t, key) == seen + KeySet(a, key);
    KeepFirstBySnoc(t, x, key, seen');
    var tail: seq<T> := if key(x) in seen + KeySet(a, key) then [] else [x];
    var rest := KeepFirstBy(t, key, seen');
    assert [a[0]] + (rest + tail) == ([a[0]] + rest) + tail;
  }

  /** The first-row reduction is the reference reading: row i is kept iff no
      row before it shares its key. */
  lemma {:induction false} KeepFirstMatchesRef<T(!new), K>(s: seq<T>, key: T -> K)
    ensures KeepFirstBy(s, key, {}) == FirstRowsRef(s, key)
    decreases |s|
  {
    if s != [] {
      var earlier := s[..|s| - 1];
      assert s == earlier + [s[|s| - 1]];
      KeepFirstMatchesRef(earlier, key);
      KeepFirstBySnoc(earlier, s[|s| - 1], key, {});
      assert {} + KeySet(earlier, key) == KeySet(earlier, key);
    }
  }

  /** Rows with distinct keys have as many keys as rows. */
  lemma {:induction false} DistinctKeysCount<T, K>(s: seq<T>, key: T -> K)
    requires DistinctKeys(s, key)
    ensures |KeySet(s, key)| == |s|
  {
    if s != [] {
      assert DistinctKeys(s[1..], key) by {
        forall i, j | 0 <= i < j < |s[1..]| ensures key(s[1..][i]) != key(s[1..][j]) {
          assert s[1..][i] == s[i + 1] && s[1..][j] == s[j + 1];
        }
      }
      DistinctKeysCount(s[1..], key);
      KeySetMembers(s[1..], key, key(s[0]));
      assert key(s[0]) !in KeySet(s[1..], key);
    }
  }

  /** Keeping the first row of each key leaves one row per distinct key. */
  lemma KeepFirstByCount<T(!new), K>(s: seq<T>, key: T -> K)
    ensures |KeepFirstBy(s, key, {})| == |KeySet(s, key)|
  {
    var r := KeepFirstBy(s, key, {});
    DistinctKeysCount(r, key);
    assert KeySet(s, key) - {} == KeySet(s, key);
  }

  /** Per-row projection `df[[...]]` or `.apply`, in row order. */
  function MapRows<A, B>(s: seq<A>, f: A -> B): (r: seq<B>)
    ensures |r| == |s| && forall i :: 0 <= i < |s| ==> r[i] == f(s[i])
  {
    if s == [] then [] else [f(s[0])] + MapRows(s[1..], f)
  }

  /** Projecting rows keeps a deletion of rows a deletion of rows. */
  lemma {:induction false} SubsequenceMap<A, B>(a: seq<A>, b: seq<A>, f: A -> B)
    requires Subsequence(a, b)
    ensures Subsequence(MapRows(a, f), MapRows(b, f))
    decreases |b|
  {
    if b != [] {
      if Subsequence(a, b[1..]) {
        SubsequenceMap(a, b[1..], f);
      } else {
        SubsequenceMap(a[1..], b[1..], f);
      }
    }
  }

  /** A projected row is the image of some row, and every row has its image. */
  lemma MapRowsMembers<A, B>(s: seq<A>, f: A -> B, y: B)
    ensures y in MapRows(s, f) <==> exists x :: x in s && y == f(x)
  {
    var r := MapRows(s, f);
    if y in r {
      var i :| 0 <= i < |r| && r[i] == y;
      assert s[i] in s;
    }
    if exists x :: x in s && y == f(x) {
      var x :| x in s && y == f(x);
      var i :| 0 <= i < |s| && s[i] == x;
      assert r[i] == y;
    }
  }

  /** A deletion of rows from a deletion of rows is a deletion of rows. */
  lemma {:induction false} SubsequenceTrans<T>(a: seq<T>, b: seq<T>, c: seq<T>)
    requires Subsequence(a, b) && Subsequence(b, c)
    ensures Subsequence(a, c)
    decreases |c|
  {
    if c != [] {
      if Subsequence(b, c[1..]) {
        SubsequenceTrans(a, b, c[1..]);
      } else if Subsequence(a, b[1..]) {
        SubsequenceTrans(a, b[1..], c[1..]);
      } else {
        SubsequenceTrans(a[1..], b[1..], c[1..]);
      }
    }
  }
}
