/** `Array.prototype.sort(compare)`, which is stable (ECMAScript 2019 and
    later), as a stable insertion sort over a JavaScript comparator: a result
    below zero puts its first argument first, above zero its second, and zero
    keeps the two in input order. */
module Sorting {
  import opened Seqs

  /** The comparator behaves as a total preorder on the elements of `s`: the
      sign flips with the arguments, and "not after" is transitive. */
  ghost predicate Consistent<T>(cmp: (T, T) -> real, s: seq<T>) {
    && (forall a, b {:trigger Flips(cmp, a, b)} | a in s && b in s :: Flips(cmp, a, b))
    && (forall a, b, c {:trigger Chains(cmp, a, b, c)} | a in s && b in s && c in s :: Chains(cmp, a, b, c))
  }

  /** Swapping the arguments flips the sign. */
  ghost predicate Flips<T>(cmp: (T, T) -> real, a: T, b: T) {
    cmp(a, b) < 0.0 <==> cmp(b, a) > 0.0
  }

  /** "Not after" is transitive through `b`. */
  ghost predicate Chains<T>(cmp: (T, T) -> real, a: T, b: T, c: T) {
    cmp(a, b) <= 0.0 && cmp(b, c) <= 0.0 ==> cmp(a, c) <= 0.0
  }

  /** No element is placed after one that should follow it. */
  ghost predicate Sorted<T>(s: seq<T>, cmp: (T, T) -> real) {
    forall i, j | 0 <= i < j < |s| :: cmp(s[i], s[j]) <= 0.0
  }

  /** The elements that compare equal to `z`: one tie class of the comparator. */
  function Ties<T>(cmp: (T, T) -> real, z: T): T -> bool {
    y => cmp(y, z) == 0.0
  }

  /** Puts `x` before the first element it need not follow. */
  function Insert<T>(x: T, s: seq<T>, cmp: (T, T) -> real): (r: seq<T>)
    ensures |r| == |s| + 1
    decreases |s|
  {
    if |s| == 0 || cmp(x, s[0]) <= 0.0 then [x] + s
    else [s[0]] + Insert(x, s[1..], cmp)
  }

  /** The stable sort of `s` under `cmp`. */
  function Sort<T>(s: seq<T>, cmp: (T, T) -> real): (r: seq<T>)
    ensures |r| == |s|
    decreases |s|
  {
    if |s| == 0 then []
    else Insert(s[0], Sort(s[1..], cmp), cmp)
  }

  lemma {:induction false} InsertPermutes<T>(x: T, s: seq<T>, cmp: (T, T) -> real)
    ensures multiset(Insert(x, s, cmp)) == multiset{x} + multiset(s)
    decreases |s|
  {
    if |s| > 0 && cmp(x, s[0]) > 0.0 {
      InsertPermutes(x, s[1..], cmp);
      assert s == [s[0]] + s[1..];
    }
  }

  /** The sort is a permutation of its input. */
  lemma {:induction false} SortPermutes<T>(s: seq<T>, cmp: (T, T) -> real)
    ensures multiset(Sort(s, cmp)) == multiset(s)
    decreases |s|
  {
    if |s| > 0 {
      SortPermutes(s[1..], cmp);
      InsertPermutes(s[0], Sort(s[1..], cmp), cmp);
      assert s == [s[0]] + s[1..];
    }
  }

  lemma ConsistentSub<T>(cmp: (T, T) -> real, s: seq<T>, t: seq<T>)
    requires Consistent(cmp, s)
    requires forall y | y in t :: y in s
    ensures Consistent(cmp, t)
  {
  }

  /** Prepending an element that need not follow any element keeps a sequence sorted. */
  lemma SortedCons<T>(x: T, s: seq<T>, cmp: (T, T) -> real)
    requires Sorted(s, cmp)
    requires forall y | y in s :: cmp(x, y) <= 0.0
    ensures Sorted([x] + s, cmp)
  {
    var r := [x] + s;
    forall i, j | 0 <= i < j < |r| ensures cmp(r[i], r[j]) <= 0.0 {
      if i == 0 {
        assert r[j] in s;
      } else {
        assert r[i] == s[i - 1] && r[j] == s[j - 1];
      }
    }
  }

  /** `x` need not follow the head of a sorted sequence, hence none of its elements. */
  lemma BeforeAll<T>(x: T, s: seq<T>, cmp: (T, T) -> real)
    requires |s| > 0 && cmp(x, s[0]) <= 0.0
    requires Sorted(s, cmp)
    requires Consistent(cmp, [x] + s)
    ensures forall y | y in s :: cmp(x, y) <= 0.0
  {
    forall y | y in s ensures cmp(x, y) <= 0.0 {
      var k :| 0 <= k < |s| && s[k] == y;
      if k > 0 {
        assert x in [x] + s && s[0] in [x] + s && y in [x] + s;
        assert Chains(cmp, x, s[0], y);
      }
    }
  }

  /** The head of a sorted sequence need not follow an `x` that must follow it,
      nor anything else in the sequence. */
  lemma HeadBeforeAll<T>(x: T, s: seq<T>, t: seq<T>, cmp: (T, T) -> real)
    requires |s| > 0 && cmp(x, s[0]) > 0.0
    requires Sorted(s, cmp)
    requires Consistent(cmp, [x] + s)
    requires multiset(t) == multiset{x} + multiset(s[1..])
    ensures forall y | y in t :: cmp(s[0], y) <= 0.0
  {
    assert x in [x] + s && s[0] in [x] + s;
    assert Flips(cmp, s[0], x);
    forall y | y in t ensures cmp(s[0], y) <= 0.0 {
      assert y in multiset(t);
      if y != x {
        assert y in multiset(s[1..]);
        var k :| 1 <= k < |s| && s[k] == y;
      }
    }
  }

  lemma {:induction false} InsertSorted<T>(x: T, s: seq<T>, cmp: (T, T) -> real)
    requires Sorted(s, cmp)
    requires Consistent(cmp, [x] + s)
    ensures Sorted(Insert(x, s, cmp), cmp)
    decreases |s|
  {
    if |s| == 0 {
      SortedCons(x, s, cmp);
    } else if cmp(x, s[0]) <= 0.0 {
      BeforeAll(x, s, cmp);
      SortedCons(x, s, cmp);
    } else {
      ConsistentSub(cmp, [x] + s, [x] + s[1..]);
      InsertSorted(x, s[1..], cmp);
      InsertPermutes(x, s[1..], cmp);
      HeadBeforeAll(x, s, Insert(x, s[1..], cmp), cmp);
      SortedCons(s[0], Insert(x, s[1..], cmp), cmp);
    }
  }

  /** Under a consistent comparator the result is in order. */
  lemma {:induction false} SortSorted<T>(s: seq<T>, cmp: (T, T) -> real)
    requires Consistent(cmp, s)
    ensures Sorted(Sort(s, cmp), cmp)
    decreases |s|
  {
    if |s| > 0 {
      ConsistentSub(cmp, s, s[1..]);
      SortSorted(s[1..], cmp);
      SortPermutes(s[1..], cmp);
      var t := Sort(s[1..], cmp);
      forall y | y in [s[0]] + t ensures y in s {
        if y != s[0] {
          assert y in multiset(t);
        }
      }
      ConsistentSub(cmp, s, [s[0]] + t);
      InsertSorted(s[0], t, cmp);
    }
  }

  lemma {:induction false} InsertStable<T>(x: T, s: seq<T>, cmp: (T, T) -> real, z: T)
    requires Consistent(cmp, [x, z] + s)
    ensures Filter(Insert(x, s, cmp), Ties(cmp, z))
         == (if Ties(cmp, z)(x) then [x] else []) + Filter(s, Ties(cmp, z))
    decreases |s|
  {
    var tie := Ties(cmp, z);
    if |s| == 0 || cmp(x, s[0]) <= 0.0 {
      assert Insert(x, s, cmp) == [x] + s;
      FilterAppend([x], s, tie);
      FilterSingle(x, tie);
    } else {
      ConsistentDropThird(cmp, x, z, s);
      InsertStable(x, s[1..], cmp, z);
      TiesExclusive(cmp, x, z, s);
      InsertStableStep(x, s, cmp, z);
    }
  }

  lemma InsertAfterHead<T>(x: T, s: seq<T>, cmp: (T, T) -> real)
    requires |s| > 0 && cmp(x, s[0]) > 0.0
    ensures Insert(x, s, cmp) == [s[0]] + Insert(x, s[1..], cmp)
  {
  }

  lemma InsertStableStep<T>(x: T, s: seq<T>, cmp: (T, T) -> real, z: T)
    requires |s| > 0 && cmp(x, s[0]) > 0.0
    requires !(Ties(cmp, z)(x) && Ties(cmp, z)(s[0]))
    requires Filter(Insert(x, s[1..], cmp), Ties(cmp, z))
          == (if Ties(cmp, z)(x) then [x] else []) + Filter(s[1..], Ties(cmp, z))
    ensures Filter(Insert(x, s, cmp), Ties(cmp, z))
         == (if Ties(cmp, z)(x) then [x] else []) + Filter(s, Ties(cmp, z))
  {
    var tie := Ties(cmp, z);
    var t := Insert(x, s[1..], cmp);
    InsertAfterHead(x, s, cmp);
    FilterCons(s[0], t, tie);
    FilterCons(s[0], s[1..], tie);
    assert s == [s[0]] + s[1..];
    if tie(x) {
      assert Filter(s, tie) == Filter(s[1..], tie);
      assert Filter(Insert(x, s, cmp), tie) == Filter(t, tie);
    } else {
      assert Filter(t, tie) == Filter(s[1..], tie);
      assert Filter(Insert(x, s, cmp), tie) == Filter(s, tie);
    }
  }

  /** `x` is placed after `s[0]` only when the two do not tie, so they cannot
      both tie with `z`. */
  lemma TiesExclusive<T>(cmp: (T, T) -> real, x: T, z: T, s: seq<T>)
    requires |s| > 0 && cmp(x, s[0]) > 0.0
    requires Consistent(cmp, [x, z] + s)
    ensures !(Ties(cmp, z)(x) && Ties(cmp, z)(s[0]))
  {
    var all := [x, z] + s;
    assert x in all && z in all && s[0] in all;
    assert Flips(cmp, s[0], z) && Flips(cmp, z, s[0]);
    assert Chains(cmp, x, z, s[0]);
  }

  lemma ConsistentDropThird<T>(cmp: (T, T) -> real, x: T, z: T, s: seq<T>)
    requires |s| > 0
    requires Consistent(cmp, [x, z] + s)
    ensures Consistent(cmp, [x, z] + s[1..])
  {
    ConsistentSub(cmp, [x, z] + s, [x, z] + s[1..]);
  }

  /** Stability: within each tie class the input order is kept. */
  lemma {:induction false} SortStable<T>(s: seq<T>, cmp: (T, T) -> real, z: T)
    requires Consistent(cmp, [z] + s)
    ensures Filter(Sort(s, cmp), Ties(cmp, z)) == Filter(s, Ties(cmp, z))
    decreases |s|
  {
    if |s| > 0 {
      var tie := Ties(cmp, z);
      ConsistentSub(cmp, [z] + s, [z] + s[1..]);
      SortStable(s[1..], cmp, z);
      SortPermutes(s[1..], cmp);
      var t := Sort(s[1..], cmp);
      forall y | y in [s[0], z] + t ensures y in [z] + s {
        if y != s[0] && y != z {
          assert y in multiset(t);
        }
      }
      ConsistentSub(cmp, [z] + s, [s[0], z] + t);
      InsertStable(s[0], t, cmp, z);
      assert s == [s[0]] + s[1..];
      FilterAppend([s[0]], s[1..], tie);
    }
  }
}
