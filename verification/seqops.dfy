/**
 * The list transformations the application writes with `filter`, `map`,
 * `find` and `findIndex`, over any element type and any key.
 */
module SeqOps {
  import opened Wrappers

  /** `s.filter(x => key(x) !== k)`: the elements whose key is not `k`, in their order. */
  function RemoveWhere<T(==), K(==)>(s: seq<T>, key: T -> K, k: K): (r: seq<T>)
    ensures |r| <= |s|
    ensures forall i | 0 <= i < |r| :: key(r[i]) != k
    ensures forall x | x in s && key(x) != k :: x in r
    ensures forall x | x in r :: x in s
  {
    if s == [] then []
    else if key(s[0]) == k then RemoveWhere(s[1..], key, k)
    else [s[0]] + RemoveWhere(s[1..], key, k)
  }

  /** Filtering keeps the relative order: it distributes over concatenation. */
  lemma {:induction false} RemoveWhereConcat<T, K>(a: seq<T>, b: seq<T>, key: T -> K, k: K)
    ensures RemoveWhere(a + b, key, k) == RemoveWhere(a, key, k) + RemoveWhere(b, key, k)
  {
    if a == [] {
      assert a + b == b;
    } else {
      assert (a + b)[0] == a[0] && (a + b)[1..] == a[1..] + b;
      RemoveWhereConcat(a[1..], b, key, k);
    }
  }

  /** When no element has the key, nothing is removed. */
  lemma {:induction false} RemoveWhereAbsent<T, K>(s: seq<T>, key: T -> K, k: K)
    requires forall i | 0 <= i < |s| :: key(s[i]) != k
    ensures RemoveWhere(s, key, k) == s
  {
    if s != [] {
      RemoveWhereAbsent(s[1..], key, k);
    }
  }

  /** Removing the same key twice removes nothing more. */
  lemma RemoveWhereIdempotent<T, K>(s: seq<T>, key: T -> K, k: K)
    ensures RemoveWhere(RemoveWhere(s, key, k), key, k) == RemoveWhere(s, key, k)
  {
    RemoveWhereAbsent(RemoveWhere(s, key, k), key, k);
  }

  /** `s.map(x => key(x) === k ? v : x)`: every element with the key is replaced by `v`. */
  function ReplaceWhere<T, K(==)>(s: seq<T>, key: T -> K, k: K, v: T): (r: seq<T>)
    ensures |r| == |s|
    ensures forall i | 0 <= i < |s| :: r[i] == if key(s[i]) == k then v else s[i]
  {
    if s == [] then []
    else [if key(s[0]) == k then v else s[0]] + ReplaceWhere(s[1..], key, k, v)
  }

  /** `s.findIndex(x => key(x) === k)`: the first position holding the key, or -1. */
  function FindIndex<T, K(==)>(s: seq<T>, key: T -> K, k: K): (r: int)
    ensures -1 <= r < |s|
    ensures r >= 0 ==> key(s[r]) == k
    ensures forall i | 0 <= i < |s| && (r < 0 || i < r) :: key(s[i]) != k
  {
    if s == [] then -1
    else if key(s[0]) == k then 0
    else
      var j := FindIndex(s[1..], key, k);
      if j < 0 then -1 else j + 1
  }

  /** `s.find(x => key(x) === k)`: the first element holding the key, if any. */
  function FindFirst<T, K(==)>(s: seq<T>, key: T -> K, k: K): (r: Option<T>)
    ensures r.None? <==> forall i | 0 <= i < |s| :: key(s[i]) != k
    ensures r.Some? ==> exists i | 0 <= i < |s| :: s[i] == r.value && key(s[i]) == k && forall j | 0 <= j < i :: key(s[j]) != k
  {
    if s == [] then None
    else if key(s[0]) == k then Some(s[0])
    else
      var r := FindFirst(s[1..], key, k);
      assert r.Some? ==> exists i | 1 <= i < |s| :: s[i] == r.value && key(s[i]) == k && forall j | 0 <= j < i :: key(s[j]) != k by {
        if r.Some? {
          var i :| 0 <= i < |s[1..]| && s[1..][i] == r.value && key(s[1..][i]) == k && forall j | 0 <= j < i :: key(s[1..][j]) != k;
          assert s[i + 1] == r.value && forall j | 0 <= j < i + 1 :: key(s[j]) != k;
        }
      }
      r
  }

  /** `find` returns the element at the position `findIndex` reports. */
  lemma FindFirstAtFindIndex<T, K>(s: seq<T>, key: T -> K, k: K)
    ensures var i := FindIndex(s, key, k);
            FindFirst(s, key, k) == if i < 0 then None else Some(s[i])
  {
    var i := FindIndex(s, key, k);
    var r := FindFirst(s, key, k);
    if r.Some? {
      var j :| 0 <= j < |s| && s[j] == r.value && key(s[j]) == k && forall m | 0 <= m < j :: key(s[m]) != k;
      assert i == j;
    }
  }

  /** `s.filter((_, i) => i !== k)`: the element at position `k`, if there is one, is dropped. */
  function RemoveAt<T>(s: seq<T>, k: nat): (r: seq<T>)
    ensures k < |s| ==> |r| == |s| - 1 && r[..k] == s[..k] && r[k..] == s[k + 1..]
    ensures k >= |s| ==> r == s
  {
    if s == [] then []
    else if k == 0 then s[1..]
    else [s[0]] + RemoveAt(s[1..], k - 1)
  }
}
