/** The array operations of JavaScript that the pipeline chains: `filter`,
    `filter(Boolean)` over slots that may be `null`, and `slice(0, n)`. */
module Seqs {
  import opened Wrappers

  /** `s.filter(keep)`: the elements `keep` accepts, each as often as in `s`. */
  function Filter<T>(s: seq<T>, keep: T -> bool): (r: seq<T>)
    ensures |r| <= |s|
    decreases |s|
  {
    if |s| == 0 then []
    else (if keep(s[0]) then [s[0]] else []) + Filter(s[1..], keep)
  }

  /** One step of the filter: the head is kept when accepted. */
  lemma FilterCons<T>(x: T, s: seq<T>, keep: T -> bool)
    ensures Filter([x] + s, keep) == (if keep(x) then [x] else []) + Filter(s, keep)
  {
    assert ([x] + s)[0] == x;
    assert ([x] + s)[1..] == s;
  }

  /** The filter keeps exactly the accepted elements, each with its multiplicity. */
  lemma {:induction false} FilterCounts<T>(s: seq<T>, keep: T -> bool)
    ensures forall x | x in s :: multiset(Filter(s, keep))[x] == if keep(x) then multiset(s)[x] else 0
    ensures forall x :: x in Filter(s, keep) <==> x in s && keep(x)
    decreases |s|
  {
    if |s| > 0 {
      FilterCounts(s[1..], keep);
      assert s == [s[0]] + s[1..];
    }
  }

  /** Filtering preserves relative order: it distributes over concatenation. */
  lemma {:induction false} FilterAppend<T>(a: seq<T>, b: seq<T>, keep: T -> bool)
    ensures Filter(a + b, keep) == Filter(a, keep) + Filter(b, keep)
    decreases |a|
  {
    if |a| == 0 {
      assert a + b == b;
    } else {
      var head := if keep(a[0]) then [a[0]] else [];
      assert (a + b)[0] == a[0];
      assert (a + b)[1..] == a[1..] + b;
      assert Filter(a + b, keep) == head + Filter(a[1..] + b, keep);
      FilterAppend(a[1..], b, keep);
      assert Filter(a, keep) == head + Filter(a[1..], keep);
      assert head + (Filter(a[1..], keep) + Filter(b, keep))
          == (head + Filter(a[1..], keep)) + Filter(b, keep);
    }
  }

  /** The filter of a one-element sequence. */
  lemma FilterSingle<T>(x: T, keep: T -> bool)
    ensures Filter([x], keep) == if keep(x) then [x] else []
  {
    assert [x][1..] == [];
  }

  /** The filter of a prefix is a prefix of the filter. */
  lemma FilterPrefix<T>(a: seq<T>, b: seq<T>, keep: T -> bool)
    requires a <= b
    ensures Filter(a, keep) <= Filter(b, keep)
  {
    assert b == a + b[|a|..];
    FilterAppend(a, b[|a|..], keep);
  }

  /** `slots.filter(Boolean)`: the values of the non-`null` slots, in order. */
  function Somes<T>(slots: seq<Option<T>>): (r: seq<T>)
    ensures |r| <= |slots|
    decreases |slots|
  {
    if |slots| == 0 then []
    else (if slots[0].Some? then [slots[0].value] else []) + Somes(slots[1..])
  }

  /** Exactly the values of the non-`null` slots are kept, each as often as
      it occurs. */
  lemma {:induction false} SomesMembers<T>(slots: seq<Option<T>>)
    ensures forall o | o in slots && o.Some? :: multiset(Somes(slots))[o.value] == multiset(slots)[o]
    ensures forall x | x in Somes(slots) :: Some(x) in slots
    ensures forall o | o in slots && o.Some? :: o.value in Somes(slots)
    decreases |slots|
  {
    if |slots| > 0 {
      SomesMembers(slots[1..]);
      assert slots == [slots[0]] + slots[1..];
    }
  }

  /** The slot a kept value comes from. */
  lemma SomesIndex<T>(slots: seq<Option<T>>, x: T) returns (k: nat)
    requires x in Somes(slots)
    ensures k < |slots| && slots[k] == Some(x)
  {
    SomesMembers(slots);
    assert Some(x) in slots;
    k :| 0 <= k < |slots| && slots[k] == Some(x);
  }

  /** Dropping `null` slots preserves relative order. */
  lemma {:induction false} SomesAppend<T>(a: seq<Option<T>>, b: seq<Option<T>>)
    ensures Somes(a + b) == Somes(a) + Somes(b)
    decreases |a|
  {
    if |a| == 0 {
      assert a + b == b;
    } else {
      var head := if a[0].Some? then [a[0].value] else [];
      assert (a + b)[0] == a[0];
      assert (a + b)[1..] == a[1..] + b;
      assert Somes(a + b) == head + Somes(a[1..] + b);
      SomesAppend(a[1..], b);
      assert Somes(a) == head + Somes(a[1..]);
      assert head + (Somes(a[1..]) + Somes(b)) == (head + Somes(a[1..])) + Somes(b);
    }
  }

  /** `s.slice(0, n)`. */
  function Take<T>(s: seq<T>, n: nat): (r: seq<T>)
    ensures |r| == if |s| <= n then |s| else n
    ensures r <= s
  {
    if |s| <= n then s else s[..n]
  }
}
