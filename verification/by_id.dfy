/** Lists of records keyed by an id, and the three updates the caches, hooks
    and views apply to them: put a record in front, replace the records with
    a given id (`list.map(x => x.id === y.id ? y : x)`), and drop the records
    with a given id (`list.filter(x => x.id !== id)`). */
module ById {

  /** Some record of `s` has id `k`. */
  predicate HasKey<T, K(==)>(s: seq<T>, k: K, key: T -> K)
  {
    exists i :: 0 <= i < |s| && key(s[i]) == k
  }

  /** `s.map(x => key(x) === k ? y : x)`; the callers pass either the new
      record's own id or the id being edited. */
  function Replace<T, K(==)>(s: seq<T>, k: K, y: T, key: T -> K): (r: seq<T>)
    ensures |r| == |s|
    ensures forall i :: 0 <= i < |s| ==> r[i] == if key(s[i]) == k then y else s[i]
    ensures key(y) == k ==> forall i :: 0 <= i < |s| ==> key(r[i]) == key(s[i])
  {
    seq(|s|, i requires 0 <= i < |s| => if key(s[i]) == k then y else s[i])
  }

  /** `s.findIndex(x => key(x) === k)`: the first position with id `k`, or -1. */
  function IndexOfKey<T, K(==)>(s: seq<T>, k: K, key: T -> K): (i: int)
    ensures -1 <= i < |s|
    ensures i == -1 <==> !HasKey(s, k, key)
    ensures i >= 0 ==> key(s[i]) == k && forall j :: 0 <= j < i ==> key(s[j]) != k
  {
    if s == [] then -1
    else if key(s[0]) == k then 0
    else
      var j := IndexOfKey(s[1..], k, key);
      assert forall m :: 0 <= m < |s[1..]| ==> s[1..][m] == s[m + 1];
      if j == -1 then -1 else j + 1
  }

  /** `s.filter(x => key(x) !== k)`. */
  function Remove<T, K(==)>(s: seq<T>, k: K, key: T -> K): (r: seq<T>)
    ensures |r| <= |s|
    ensures forall i :: 0 <= i < |r| ==> key(r[i]) != k && r[i] in s
    ensures forall i :: 0 <= i < |s| && key(s[i]) != k ==> s[i] in r
  {
    if s == [] then []
    else
      var last := s[|s| - 1];
      Remove(s[..|s| - 1], k, key) + (if key(last) != k then [last] else [])
  }

  /** Removal distributes over concatenation, so the records that stay keep
      their relative order. */
  lemma {:induction false} RemoveAppend<T, K>(a: seq<T>, b: seq<T>, k: K, key: T -> K)
    ensures Remove(a + b, k, key) == Remove(a, k, key) + Remove(b, k, key)
    decreases |b|
  {
    if b == [] {
      assert a + b == a;
    } else {
      var b' := b[..|b| - 1];
      assert (a + b)[..|a + b| - 1] == a + b';
      RemoveAppend(a, b', k, key);
    }
  }

  /** Removing an id no record has changes nothing. */
  lemma {:induction false} RemoveAbsent<T, K>(s: seq<T>, k: K, key: T -> K)
    requires !HasKey(s, k, key)
    ensures Remove(s, k, key) == s
    decreases |s|
  {
    if s != [] {
      var p := s[..|s| - 1];
      var last := s[|s| - 1];
      assert !HasKey(p, k, key) by {
        forall i | 0 <= i < |p|
          ensures key(p[i]) != k
        {
          assert p[i] == s[i];
        }
      }
      RemoveAbsent(p, k, key);
      assert key(last) != k;
      assert Remove(s, k, key) == p + [last];
      assert p + [last] == s;
    }
  }

  /** Removing the same id twice changes nothing the second time. */
  lemma {:induction false} RemoveIdempotent<T, K>(s: seq<T>, k: K, key: T -> K)
    ensures Remove(Remove(s, k, key), k, key) == Remove(s, k, key)
  {
    var r := Remove(s, k, key);
    assert !HasKey(r, k, key);
    RemoveAbsent(r, k, key);
  }

  /** Removing the id of a record just put in front of a list that did not
      have that id gives the list back. */
  lemma RemovePrepended<T, K>(s: seq<T>, y: T, key: T -> K)
    requires !HasKey(s, key(y), key)
    ensures Remove([y] + s, key(y), key) == s
  {
    RemoveAppend([y], s, key(y), key);
    RemoveAbsent(s, key(y), key);
    assert [y][..0] == [];
  }

  /** Removing the id of the one record that has it leaves the records before
      and after it, joined. */
  lemma RemoveOnly<T, K>(pre: seq<T>, y: T, post: seq<T>, key: T -> K)
    requires !HasKey(pre, key(y), key) && !HasKey(post, key(y), key)
    ensures Remove(pre + [y] + post, key(y), key) == pre + post
  {
    var k := key(y);
    var a := pre + [y];
    assert a[..|a| - 1] == pre;
    RemoveAbsent(pre, k, key);
    assert Remove(a, k, key) == pre;
    RemoveAbsent(post, k, key);
    RemoveAppend(a, post, k, key);
  }

  /** Replacing by an id no record has changes nothing. */
  lemma ReplaceAbsent<T, K>(s: seq<T>, k: K, y: T, key: T -> K)
    requires !HasKey(s, k, key)
    ensures Replace(s, k, y, key) == s
  {
    var r := Replace(s, k, y, key);
    forall i | 0 <= i < |s|
      ensures r[i] == s[i]
    {
      assert key(s[i]) != k;
    }
  }

  /** Replacing twice with the same record under its own id is replacing once. */
  lemma ReplaceIdempotent<T, K>(s: seq<T>, y: T, key: T -> K)
    ensures Replace(Replace(s, key(y), y, key), key(y), y, key) == Replace(s, key(y), y, key)
  {
  }
}
