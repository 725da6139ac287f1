/** Column sorting and the run guard of listecrypto.js: `sortTable` orders
    the body rows by one `data-*` attribute and re-appends them, each header
    click flips the direction, and a run needs two dates in order. */
module ColumnSort {
  import opened Wrappers
  import opened JsNumber
  import opened JsString
  import opened Seqs
  import opened Sorting

  /** `a.dataset[key]`: the attribute's string, or `undefined`. */
  type Attribute = Option<string>

  /** The comparator of `sortTable`: -1, 1 or 0 by string order, reversed
      when `asc` is false. A comparison with `undefined` is false both ways,
      so such a pair compares as 0. */
  function Compare(vA: Attribute, vB: Attribute, asc: bool): (r: real)
    ensures r == -1.0 || r == 0.0 || r == 1.0
    ensures r == 0.0 <==> vA.None? || vB.None? || vA == vB
    ensures vA.Some? && vB.Some? ==>
      (r < 0.0 <==> (if asc then StrLess(vA.value, vB.value) else StrLess(vB.value, vA.value)))
  {
    if vA.None? || vB.None? then 0.0
    else
      StrOrder(vA.value, vB.value);
      if StrLess(vA.value, vB.value) then (if asc then -1.0 else 1.0)
      else if StrLess(vB.value, vA.value) then (if asc then 1.0 else -1.0)
      else 0.0
  }

  /** String order is a strict total order. */
  lemma StrOrder(a: string, b: string)
    ensures !(StrLess(a, b) && StrLess(b, a))
    ensures a == b ==> !StrLess(a, b)
    ensures a != b ==> StrLess(a, b) || StrLess(b, a)
  {
    StrLessAsymmetric(a, b);
    StrLessIrreflexive(a);
    if a != b {
      StrLessTotal(a, b);
    }
  }

  /** Descending is ascending with the sign reversed, and swapping the two
      keys reverses the sign too. */
  lemma CompareSigns(vA: Attribute, vB: Attribute, asc: bool)
    ensures Compare(vA, vB, false) == -Compare(vA, vB, true)
    ensures Compare(vB, vA, asc) == -Compare(vA, vB, asc)
  {
    if vA.Some? && vB.Some? {
      StrLessAsymmetric(vA.value, vB.value);
    }
  }

  /** A row of the table body, with its `data-*` attributes. */
  class RowNode {
    const dataset: map<string, string>

    constructor(dataset: map<string, string>)
      ensures this.dataset == dataset
    {
      this.dataset := dataset;
    }
  }

  /** The attribute `key` of a row. */
  function AttributeOf(r: RowNode, key: string): Attribute {
    if key in r.dataset then Some(r.dataset[key]) else None
  }

  /** The comparator `sortTable` passes to `rows.sort`. */
  function RowOrder(key: string, asc: bool): (RowNode, RowNode) -> real {
    (a: RowNode, b: RowNode) => Compare(AttributeOf(a, key), AttributeOf(b, key), asc)
  }

  /** When every row has the attribute, the comparator is a consistent
      order on them. */
  lemma RowOrderConsistent(rows: seq<RowNode>, key: string, asc: bool)
    requires forall r | r in rows :: key in r.dataset
    ensures Consistent(RowOrder(key, asc), rows)
  {
    var cmp := RowOrder(key, asc);
    forall a, b | a in rows && b in rows ensures Flips(cmp, a, b) {
      CompareSigns(AttributeOf(a, key), AttributeOf(b, key), asc);
    }
    forall a, b, c | a in rows && b in rows && c in rows ensures Chains(cmp, a, b, c) {
      var x, y, z := a.dataset[key], b.dataset[key], c.dataset[key];
      if cmp(a, b) <= 0.0 && cmp(b, c) <= 0.0 && x != z {
        if asc {
          if x != y && y != z { StrLessTransitive(x, y, z); }
          StrLessAsymmetric(x, z);
        } else {
          if x != y && y != z { StrLessTransitive(z, y, x); }
          StrLessAsymmetric(z, x);
        }
      }
    }
  }

  /** Sorting on an attribute every row has orders the rows by string order
      of that attribute, ascending with `asc` and descending without. */
  lemma SortTableOrder(rows: seq<RowNode>, key: string, asc: bool)
    requires forall r | r in rows :: key in r.dataset
    ensures var s := Sort(rows, RowOrder(key, asc));
      forall i, j | 0 <= i < j < |s| && key in s[i].dataset && key in s[j].dataset ::
        if asc then !StrLess(s[j].dataset[key], s[i].dataset[key])
        else !StrLess(s[i].dataset[key], s[j].dataset[key])
  {
    var cmp := RowOrder(key, asc);
    var s := Sort(rows, cmp);
    RowOrderConsistent(rows, key, asc);
    SortSorted(rows, cmp);
    SortPermutes(rows, cmp);
    forall i, j | 0 <= i < j < |s| && key in s[i].dataset && key in s[j].dataset
      ensures if asc then !StrLess(s[j].dataset[key], s[i].dataset[key])
              else !StrLess(s[i].dataset[key], s[j].dataset[key])
    {
      assert cmp(s[i], s[j]) <= 0.0;
      StrOrder(s[i].dataset[key], s[j].dataset[key]);
    }
  }

  /** No element occurs twice. */
  ghost predicate Distinct<T>(s: seq<T>) {
    forall x | x in s :: multiset(s)[x] == 1
  }

  /** A table body: its rows, in document order; a node is a child once. */
  class TableBody {
    var rows: seq<RowNode>

    ghost predicate Valid()
      reads this
    {
      Distinct(rows)
    }

    constructor(rows: seq<RowNode>)
      requires Distinct(rows)
      ensures Valid() && this.rows == rows
    {
      this.rows := rows;
    }

    /** `tbody.appendChild(r)`: `r` moves to the end (or is added there). */
    method AppendChild(r: RowNode)
      requires Valid()
      modifies this
      ensures Valid()
      ensures rows == Remove(old(rows), r) + [r]
    {
      RemoveThenAppend(rows, r);
      rows := Remove(rows, r) + [r];
    }

    /** `sortTable(table, key, asc)`: sorts a copy of the rows with the
        comparator, then appends each row in that order, which leaves the body
        in sorted order. */
    method SortTable(key: string, asc: bool)
      requires Valid()
      modifies this
      ensures Valid()
      ensures rows == Sort(old(rows), RowOrder(key, asc))
    {
      var sorted := Sort(rows, RowOrder(key, asc));
      ghost var original := rows;
      SortPermutes(original, RowOrder(key, asc));
      ReappendStart(original, sorted);
      ReappendEnd(original, sorted);
      for i := 0 to |sorted|
        invariant Valid()
        invariant rows == RemoveAll(original, sorted[..i]) + sorted[..i]
      {
        AppendChild(sorted[i]);
        AppendStep(original, sorted, i);
      }
    }
  }

  /** `s.filter((x) => x !== r)`. */
  function Remove<T(==)>(s: seq<T>, r: T): (t: seq<T>)
    ensures |t| <= |s|
    decreases |s|
  {
    if |s| == 0 then []
    else (if s[0] == r then [] else [s[0]]) + Remove(s[1..], r)
  }

  /** The elements of `s` that are not in `gone`, in order. */
  function RemoveAll<T(==)>(s: seq<T>, gone: seq<T>): (t: seq<T>)
    decreases |s|
  {
    if |s| == 0 then []
    else (if s[0] in gone then [] else [s[0]]) + RemoveAll(s[1..], gone)
  }

  lemma {:induction false} RemoveAppend<T>(a: seq<T>, b: seq<T>, r: T)
    ensures Remove(a + b, r) == Remove(a, r) + Remove(b, r)
    decreases |a|
  {
    if |a| == 0 {
      assert a + b == b;
    } else {
      var head := if a[0] == r then [] else [a[0]];
      assert (a + b)[0] == a[0] && (a + b)[1..] == a[1..] + b;
      assert Remove(a + b, r) == head + Remove(a[1..] + b, r);
      RemoveAppend(a[1..], b, r);
    }
  }

  /** `Remove` drops every occurrence of `r` and nothing else. */
  lemma {:induction false} RemoveCounts<T>(s: seq<T>, r: T)
    ensures multiset(Remove(s, r)) == multiset(s)[r := 0]
    decreases |s|
  {
    if |s| > 0 {
      RemoveCounts(s[1..], r);
      assert s == [s[0]] + s[1..];
    }
  }

  /** Moving a row to the end keeps the rows free of repeats. */
  lemma RemoveThenAppend<T>(s: seq<T>, r: T)
    requires Distinct(s)
    ensures Distinct(Remove(s, r) + [r])
  {
    var t := Remove(s, r) + [r];
    RemoveCounts(s, r);
    forall x | x in t ensures multiset(t)[x] == 1 {
      assert x in multiset(t);
      assert x != r ==> x in multiset(s);
    }
  }

  lemma {:induction false} RemoveAbsent<T>(s: seq<T>, r: T)
    requires r !in s
    ensures Remove(s, r) == s
    decreases |s|
  {
    if |s| > 0 {
      RemoveAbsent(s[1..], r);
    }
  }

  lemma {:induction false} RemoveAllStep<T>(s: seq<T>, gone: seq<T>, r: T)
    ensures Remove(RemoveAll(s, gone), r) == RemoveAll(s, gone + [r])
    decreases |s|
  {
    if |s| > 0 {
      RemoveAllStep(s[1..], gone, r);
      var head := if s[0] in gone then [] else [s[0]];
      RemoveAppend(head, RemoveAll(s[1..], gone), r);
    }
  }

  lemma {:induction false} RemoveNothing<T>(s: seq<T>)
    ensures RemoveAll(s, []) == s
    decreases |s|
  {
    if |s| > 0 {
      RemoveNothing(s[1..]);
    }
  }

  lemma {:induction false} RemoveEverything<T>(s: seq<T>, gone: seq<T>)
    requires forall x | x in s :: x in gone
    ensures RemoveAll(s, gone) == []
    decreases |s|
  {
    if |s| > 0 {
      RemoveEverything(s[1..], gone);
    }
  }

  /** In a sequence without repeats, an element does not occur before its
      own position. */
  lemma NotBefore<T>(s: seq<T>, i: nat)
    requires Distinct(s) && i < |s|
    ensures s[i] !in s[..i]
  {
    assert s == s[..i] + [s[i]] + s[i + 1..];
    assert multiset(s) == multiset(s[..i]) + multiset{s[i]} + multiset(s[i + 1..]);
    assert s[i] in s;
  }

  /** One iteration of the re-append loop: appending `sorted[i]` extends the
      appended prefix by one and removes that row from the rest. */
  lemma AppendStep<T>(original: seq<T>, sorted: seq<T>, i: nat)
    requires Distinct(sorted)
    requires i < |sorted|
    ensures Remove(RemoveAll(original, sorted[..i]) + sorted[..i], sorted[i]) + [sorted[i]]
         == RemoveAll(original, sorted[..i + 1]) + sorted[..i + 1]
  {
    var r := sorted[i];
    RemoveAppend(RemoveAll(original, sorted[..i]), sorted[..i], r);
    NotBefore(sorted, i);
    RemoveAbsent(sorted[..i], r);
    RemoveAllStep(original, sorted[..i], r);
    assert sorted[..i + 1] == sorted[..i] + [r];
  }

  /** Before the re-append loop nothing has moved. */
  lemma ReappendStart<T>(original: seq<T>, sorted: seq<T>)
    ensures RemoveAll(original, sorted[..0]) + sorted[..0] == original
  {
    assert sorted[..0] == [];
    RemoveNothing(original);
  }

  /** Once every row of a permutation has been appended, the body holds
      exactly that permutation, without repeats. */
  lemma ReappendEnd<T>(original: seq<T>, sorted: seq<T>)
    requires Distinct(original) && multiset(original) == multiset(sorted)
    ensures Distinct(sorted)
    ensures RemoveAll(original, sorted[..|sorted|]) + sorted[..|sorted|] == sorted
  {
    DistinctPermutation(original, sorted);
    assert sorted[..|sorted|] == sorted;
    RemoveEverything(original, sorted);
  }

  /** A permutation of a sequence without repeats has none either. */
  lemma DistinctPermutation<T>(s: seq<T>, t: seq<T>)
    requires Distinct(s) && multiset(s) == multiset(t)
    ensures Distinct(t)
    ensures forall x | x in s :: x in t
  {
    forall x | x in t ensures multiset(t)[x] == 1 {
      assert x in multiset(t);
    }
    forall x | x in s ensures x in t {
      assert x in multiset(s);
    }
  }

  /** A column header: the attribute it sorts on and the direction of its
      next sort, ascending at first. */
  class HeaderCell {
    const key: string
    var asc: bool

    constructor(key: string)
      ensures this.key == key && asc
    {
      this.key := key;
      asc := true;
    }

    /** The click handler: sorts the body in the current direction, then
        flips the direction for the next click. */
    method Click(body: TableBody)
      requires body.Valid()
      modifies this, body
      ensures body.Valid()
      ensures body.rows == Sort(old(body.rows), RowOrder(key, old(asc)))
      ensures asc == !old(asc)
    {
      body.SortTable(key, asc);
      asc := !asc;
    }
  }

  /** Why a run did not start, or the two timestamps it starts with. */
  datatype RunDecision = MissingDate | EndNotAfterStart | Run(startTS: Num, endTS: Num)

  /** The guard of the run handler over the two input strings and their
      timestamps: both dates must be given, and the run is refused when the
      end is not after the start. A timestamp that is NaN makes that
      comparison false, so it does not refuse the run. */
  function CheckDates(start: string, end: string, startTS: Num, endTS: Num): (d: RunDecision)
    ensures d.MissingDate? <==> start == "" || end == ""
    ensures d.EndNotAfterStart? <==>
      start != "" && end != "" && IsFinite(startTS) && IsFinite(endTS) && endTS.value <= startTS.value
    ensures d.Run? ==> d.startTS == startTS && d.endTS == endTS
    ensures d.Run? && IsFinite(startTS) && IsFinite(endTS) ==> endTS.value > startTS.value
  {
    if start == "" || end == "" then MissingDate
    else if IsFinite(startTS) && IsFinite(endTS) && endTS.value <= startTS.value then EndNotAfterStart
    else Run(startTS, endTS)
  }
}
