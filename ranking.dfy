/**
 * `ORDER BY similarity DESC LIMIT k` as the storage engine evaluates it. The engine promises
 * no order among equal scores; this model fixes one (stable, by insertion order) and the
 * lemmas below state only what holds for every order.
 */
module Ranking {

  function Min(a: int, b: int): int { if a <= b then a else b }

  predicate SortedDesc<T>(s: seq<T>, key: T -> int) {
    forall i, j :: 0 <= i < j < |s| ==> key(s[i]) >= key(s[j])
  }

  /** Puts x after every leading element that scores at least as high as x. */
  function InsertDesc<T>(x: T, s: seq<T>, key: T -> int): (r: seq<T>)
    ensures |r| == |s| + 1
  {
    if s == [] then [x]
    else if key(s[0]) >= key(x) then [s[0]] + InsertDesc(x, s[1..], key)
    else [x] + s
  }

  lemma {:induction false} InsertDescElements<T>(x: T, s: seq<T>, key: T -> int)
    ensures multiset(InsertDesc(x, s, key)) == multiset(s) + multiset{x}
  {
    if s != [] && key(s[0]) >= key(x) {
      InsertDescElements(x, s[1..], key);
      assert s == [s[0]] + s[1..];
    }
  }

  /** Inserting into a descending sequence keeps it descending. */
  lemma {:induction false} InsertDescSorted<T>(x: T, s: seq<T>, key: T -> int)
    requires SortedDesc(s, key)
    ensures SortedDesc(InsertDesc(x, s, key), key)
  {
    if s != [] && key(s[0]) >= key(x) {
      var rest := InsertDesc(x, s[1..], key);
      InsertDescSorted(x, s[1..], key);
      InsertDescElements(x, s[1..], key);
      forall j | 0 <= j < |rest| ensures key(rest[j]) <= key(s[0]) {
        assert rest[j] in multiset(rest);
        assert rest[j] == x || rest[j] in multiset(s[1..]);
        if rest[j] != x {
          var k :| 0 <= k < |s[1..]| && s[1..][k] == rest[j];
          assert s[k + 1] == rest[j];
        }
      }
      assert InsertDesc(x, s, key) == [s[0]] + rest;
    }
  }

  /** Sorts by descending key; equal keys keep their original order. */
  function SortDesc<T>(s: seq<T>, key: T -> int): (r: seq<T>)
    ensures |r| == |s|
  {
    if s == [] then []
    else InsertDesc(s[|s| - 1], SortDesc(s[..|s| - 1], key), key)
  }

  lemma {:induction false} SortDescSpec<T>(s: seq<T>, key: T -> int)
    ensures multiset(SortDesc(s, key)) == multiset(s)
    ensures SortedDesc(SortDesc(s, key), key)
  {
    if s != [] {
      var init := s[..|s| - 1];
      SortDescSpec(init, key);
      InsertDescElements(s[|s| - 1], SortDesc(init, key), key);
      InsertDescSorted(s[|s| - 1], SortDesc(init, key), key);
      assert s == init + [s[|s| - 1]];
    }
  }

  /** The first k of the descending order: what `ORDER BY ... DESC LIMIT k` returns. */
  function TopK<T>(s: seq<T>, k: nat, key: T -> int): seq<T> {
    SortDesc(s, key)[..Min(k, |s|)]
  }

  /**
   * The top-k selection has min(k, |s|) elements, drawn from s, in descending order,
   * and no element left out scores higher than any element kept.
   */
  lemma TopKSpec<T>(s: seq<T>, k: nat, key: T -> int)
    ensures |TopK(s, k, key)| == Min(k, |s|)
    ensures multiset(TopK(s, k, key)) <= multiset(s)
    ensures SortedDesc(TopK(s, k, key), key)
    ensures forall x, i :: x in multiset(s) - multiset(TopK(s, k, key)) && 0 <= i < |TopK(s, k, key)|
              ==> key(x) <= key(TopK(s, k, key)[i])
  {
    var sorted := SortDesc(s, key);
    SortDescSpec(s, key);
    var m := Min(k, |s|);
    var top := sorted[..m];
    assert sorted == top + sorted[m..];
    assert multiset(s) == multiset(top) + multiset(sorted[m..]);
    forall x, i | x in multiset(s) - multiset(top) && 0 <= i < |top| ensures key(x) <= key(top[i]) {
      assert x in multiset(sorted[m..]);
      var j :| 0 <= j < |sorted[m..]| && sorted[m..][j] == x;
      assert sorted[m + j] == x;
    }
  }
}
