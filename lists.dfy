// `Array.prototype.filter` and counting, which several components use on their lists.

module Lists {

  /** `s.filter(keep)`. */
  function Filter<T>(s: seq<T>, keep: T -> bool): (r: seq<T>)
    ensures |r| <= |s|
  {
    if s == [] then [] else (if keep(s[0]) then [s[0]] else []) + Filter(s[1..], keep)
  }

  /** The filter keeps exactly the elements that pass the test. */
  lemma {:induction false} FilterMembers<T>(s: seq<T>, keep: T -> bool)
    ensures forall x :: x in Filter(s, keep) <==> x in s && keep(x)
  {
    if s != [] {
      FilterMembers(s[1..], keep);
      assert s == [s[0]] + s[1..];
    }
  }

  /** The filter works piece by piece, so the order of the survivors is kept. */
  lemma {:induction false} FilterAppend<T>(a: seq<T>, b: seq<T>, keep: T -> bool)
    ensures Filter(a + b, keep) == Filter(a, keep) + Filter(b, keep)
  {
    if a == [] {
      assert a + b == b;
    } else {
      var head := if keep(a[0]) then [a[0]] else [];
      var ab := a + b;
      assert ab[0] == a[0] && ab[1..] == a[1..] + b;
      assert Filter(ab, keep) == head + Filter(a[1..] + b, keep);
      FilterAppend(a[1..], b, keep);
      assert Filter(a, keep) == head + Filter(a[1..], keep);
    }
  }

  /** A list whose elements all pass comes back unchanged. */
  lemma {:induction false} FilterKeepsAll<T>(s: seq<T>, keep: T -> bool)
    requires forall i :: 0 <= i < |s| ==> keep(s[i])
    ensures Filter(s, keep) == s
  {
    if s != [] {
      FilterKeepsAll(s[1..], keep);
    }
  }

  /** Number of elements that pass the test. */
  function CountWhere<T>(s: seq<T>, keep: T -> bool): nat
  {
    |Filter(s, keep)|
  }

  lemma {:induction false} CountWhereAppend<T>(a: seq<T>, b: seq<T>, keep: T -> bool)
    ensures CountWhere(a + b, keep) == CountWhere(a, keep) + CountWhere(b, keep)
  {
    FilterAppend(a, b, keep);
  }

  /** A test that nothing passes counts nothing. */
  lemma {:induction false} CountWhereNone<T>(s: seq<T>, keep: T -> bool)
    requires forall x :: !keep(x)
    ensures CountWhere(s, keep) == 0
  {
    if s != [] {
      CountWhereNone(s[1..], keep);
    }
  }

  lemma CountWhereOne<T>(x: T, keep: T -> bool)
    ensures CountWhere([x], keep) == if keep(x) then 1 else 0
  {
    assert [x][1..] == [];
  }

  /** Two tests that never both pass count, together, what their disjunction counts. */
  lemma {:induction false} CountWhereUnion<T>(s: seq<T>, p: T -> bool, q: T -> bool, either: T -> bool)
    requires forall x :: either(x) == (p(x) || q(x))
    requires forall x :: !(p(x) && q(x))
    ensures CountWhere(s, either) == CountWhere(s, p) + CountWhere(s, q)
  {
    if s != [] {
      CountWhereUnion(s[1..], p, q, either);
    }
  }

  /** If some element passes, the count is positive, and conversely. */
  lemma {:induction false} CountWherePositive<T>(s: seq<T>, keep: T -> bool)
    ensures CountWhere(s, keep) > 0 <==> exists i :: 0 <= i < |s| && keep(s[i])
  {
    if s != [] && !keep(s[0]) {
      CountWherePositive(s[1..], keep);
      if exists i :: 0 <= i < |s| && keep(s[i]) {
        var i :| 0 <= i < |s| && keep(s[i]);
        assert keep(s[1..][i - 1]);
      }
      if exists j :: 0 <= j < |s| - 1 && keep(s[1..][j]) {
        var j :| 0 <= j < |s| - 1 && keep(s[1..][j]);
        assert keep(s[j + 1]);
      }
    }
  }
}
