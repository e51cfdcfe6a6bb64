/**
 The in-memory sort of a list of documents: `Array.prototype.sort` once per requested field.
 ECMA-262, section 23.1.3.30, requires that sort to be stable; an insertion sort stands for it.
 */
module StableSort {
  import opened Wrappers

  type Field = string

  /** A document as far as sorting and totalling see it: its numeric fields. */
  type Doc = map<Field, real>

  datatype Direction = Ascending | Descending

  datatype SortKey = SortKey(field: Field, direction: Direction)

  /**
   The comparator, positive when `a` goes after `b`. A missing field makes the difference NaN,
   which the sort takes for zero.
   */
  function Compare(key: SortKey, a: Doc, b: Doc): real {
    if key.field !in a || key.field !in b then 0.0
    else if key.direction == Ascending then a[key.field] - b[key.field]
    else b[key.field] - a[key.field]
  }

  /**
   A consistent comparator in the sense of section 23.1.3.30: "does not go after" is transitive on
   the list. Without this the standard leaves the order to the implementation.
   */
  ghost predicate Consistent(key: SortKey, docs: seq<Doc>) {
    forall a, b, c :: a in docs && b in docs && c in docs ==>
      (Compare(key, a, b) <= 0.0 && Compare(key, b, c) <= 0.0 ==> Compare(key, a, c) <= 0.0)
  }

  /**
   The comparator is consistent exactly when the field is in every document of the list, or those
   documents that have it all agree on its value.
   */
  lemma ConsistentExactly(key: SortKey, docs: seq<Doc>)
    ensures Consistent(key, docs) <==>
              || (forall d :: d in docs ==> key.field in d)
              || (forall a, b :: a in docs && b in docs && key.field in a && key.field in b ==>
                    a[key.field] == b[key.field])
  {
    if Consistent(key, docs) {
      forall d, a, b | d in docs && a in docs && b in docs && key.field !in d && key.field in a && key.field in b
        ensures a[key.field] == b[key.field]
      {
        assert Compare(key, a, d) == Compare(key, d, b) == Compare(key, b, d) == Compare(key, d, a) == 0.0;
        assert Compare(key, a, b) <= 0.0 && Compare(key, b, a) <= 0.0;
      }
    }
  }

  // ---------------------------------------------------------------- one pass

  /** `x` put behind the last element that does not go after it. */
  function Insert(key: SortKey, sorted: seq<Doc>, x: Doc): seq<Doc> {
    if sorted == [] then [x]
    else
      var last := sorted[|sorted| - 1];
      if Compare(key, last, x) > 0.0 then Insert(key, sorted[..|sorted| - 1], x) + [last]
      else sorted + [x]
  }

  function Sorted(key: SortKey, docs: seq<Doc>): seq<Doc> {
    if docs == [] then [] else Insert(key, Sorted(key, docs[..|docs| - 1]), docs[|docs| - 1])
  }

  lemma {:induction false} InsertPermutes(key: SortKey, sorted: seq<Doc>, x: Doc)
    ensures multiset(Insert(key, sorted, x)) == multiset(sorted) + multiset{x}
    ensures |Insert(key, sorted, x)| == |sorted| + 1
  {
    if sorted != [] {
      var k := |sorted| - 1;
      InsertPermutes(key, sorted[..k], x);
      assert sorted == sorted[..k] + [sorted[k]];
    }
  }

  lemma {:induction false} SortedPermutes(key: SortKey, docs: seq<Doc>)
    ensures multiset(Sorted(key, docs)) == multiset(docs)
    ensures |Sorted(key, docs)| == |docs|
  {
    if docs != [] {
      var k := |docs| - 1;
      SortedPermutes(key, docs[..k]);
      InsertPermutes(key, Sorted(key, docs[..k]), docs[k]);
      assert docs == docs[..k] + [docs[k]];
      assert multiset(docs) == multiset(docs[..k]) + multiset{docs[k]};
    }
  }

  /** Every earlier document is related to every later one. */
  ghost predicate Pairwise(r: (Doc, Doc) -> bool, docs: seq<Doc>) {
    forall i, j :: 0 <= i < j < |docs| ==> r(docs[i], docs[j])
  }

  /** First by the key, then, on a tie, by `r`. */
  function Refine(key: SortKey, r: (Doc, Doc) -> bool): (Doc, Doc) -> bool {
    (a, b) => Compare(key, a, b) < 0.0 || (Compare(key, a, b) == 0.0 && r(a, b))
  }

  lemma SameElements(docs: seq<Doc>, other: seq<Doc>, key: SortKey)
    requires multiset(docs) == multiset(other)
    ensures forall d :: d in docs <==> d in other
    ensures Consistent(key, docs) ==> Consistent(key, other)
  {
    forall d ensures d in docs <==> d in other {
      assert d in docs <==> d in multiset(docs);
      assert d in other <==> d in multiset(other);
    }
    forall i | 0 <= i < |other| ensures other[i] in docs {
    }
  }

  lemma CompareFlips(key: SortKey, a: Doc, b: Doc)
    ensures Compare(key, a, b) == -Compare(key, b, a)
  {
  }

  lemma ConsistentAmong(key: SortKey, docs: seq<Doc>, some: seq<Doc>)
    requires Consistent(key, docs) && forall i :: 0 <= i < |some| ==> some[i] in docs
    ensures Consistent(key, some)
  {
  }

  /** `x` goes in front of the last element: everything before that element now is related to it. */
  lemma BeforeLast(key: SortKey, r: (Doc, Doc) -> bool, front: seq<Doc>, last: Doc, x: Doc)
    requires Pairwise(Refine(key, r), front + [last]) && Compare(key, last, x) > 0.0
    ensures forall i :: 0 <= i < |Insert(key, front, x)| ==> Refine(key, r)(Insert(key, front, x)[i], last)
  {
    var result := Insert(key, front, x);
    InsertPermutes(key, front, x);
    CompareFlips(key, x, last);
    forall i | 0 <= i < |result| ensures Refine(key, r)(result[i], last) {
      assert result[i] in multiset(result);
      if result[i] != x {
        assert result[i] in multiset(front);
        var j :| 0 <= j < |front| && front[j] == result[i];
        assert Refine(key, r)((front + [last])[j], (front + [last])[|front|]);
      }
    }
  }

  lemma {:induction false} InsertRefines(key: SortKey, r: (Doc, Doc) -> bool, sorted: seq<Doc>, x: Doc)
    requires Consistent(key, sorted + [x]) && Pairwise(Refine(key, r), sorted)
    requires forall i :: 0 <= i < |sorted| ==> r(sorted[i], x)
    ensures Pairwise(Refine(key, r), Insert(key, sorted, x))
  {
    if sorted != [] {
      var k := |sorted| - 1;
      var front, last := sorted[..k], sorted[k];
      assert sorted == front + [last];
      if Compare(key, last, x) > 0.0 {
        ConsistentAmong(key, sorted + [x], front + [x]);
        InsertRefines(key, r, front, x);
        BeforeLast(key, r, front, last, x);
        InsertPermutes(key, front, x);
      } else {
        forall i | 0 <= i < |sorted| ensures Refine(key, r)(sorted[i], x) {
          assert i < k ==> Refine(key, r)(sorted[i], last);
          CompareFlips(key, last, last);
          assert sorted[i] in sorted + [x] && last in sorted + [x] && x in sorted + [x];
        }
      }
    }
  }

  /** What is related to a last element still is when the elements before it are permuted. */
  lemma RelatedToLast(r: (Doc, Doc) -> bool, front: seq<Doc>, permuted: seq<Doc>, x: Doc)
    requires Pairwise(r, front + [x]) && multiset(permuted) == multiset(front)
    ensures forall j :: 0 <= j < |permuted| ==> r(permuted[j], x)
  {
    forall j | 0 <= j < |permuted| ensures r(permuted[j], x) {
      assert permuted[j] in multiset(front);
      var i :| 0 <= i < |front| && front[i] == permuted[j];
      assert r((front + [x])[i], (front + [x])[|front|]);
    }
  }

  lemma PairwiseFront(r: (Doc, Doc) -> bool, front: seq<Doc>, x: Doc)
    requires Pairwise(r, front + [x])
    ensures Pairwise(r, front)
  {
    forall i, j | 0 <= i < j < |front| ensures r(front[i], front[j]) {
      assert r((front + [x])[i], (front + [x])[j]);
    }
  }

  /** One stable pass refines whatever relation the input already respects. */
  lemma {:induction false} SortedRefines(key: SortKey, r: (Doc, Doc) -> bool, docs: seq<Doc>)
    requires Consistent(key, docs) && Pairwise(r, docs)
    ensures Pairwise(Refine(key, r), Sorted(key, docs))
  {
    if docs != [] {
      var front, x := docs[..|docs| - 1], docs[|docs| - 1];
      assert docs == front + [x];
      PairwiseFront(r, front, x);
      ConsistentAmong(key, docs, front);
      SortedRefines(key, r, front);
      SortedPermutes(key, front);
      var sorted := Sorted(key, front);
      RelatedToLast(r, front, sorted, x);
      assert multiset(sorted + [x]) == multiset(front + [x]);
      SameElements(front + [x], sorted + [x], key);
      InsertRefines(key, r, sorted, x);
    }
  }

  // ---------------------------------------------------------------- when one pass orders a list

  /** No document goes after a later one. */
  ghost predicate InOrder(key: SortKey, docs: seq<Doc>) {
    forall i, j :: 0 <= i < j < |docs| ==> Compare(key, docs[i], docs[j]) <= 0.0
  }

  lemma ConsistentOrders(key: SortKey, docs: seq<Doc>)
    requires Consistent(key, docs)
    ensures InOrder(key, Sorted(key, docs))
  {
    var r := (a, b) => true;
    SortedRefines(key, r, docs);
    forall i, j | 0 <= i < j < |Sorted(key, docs)|
      ensures Compare(key, Sorted(key, docs)[i], Sorted(key, docs)[j]) <= 0.0
    {
      assert Refine(key, r)(Sorted(key, docs)[i], Sorted(key, docs)[j]);
    }
  }

  ghost predicate Precedes(docs: seq<Doc>, a: Doc, b: Doc) {
    exists i, j :: 0 <= i < j < |docs| && docs[i] == a && docs[j] == b
  }

  /** Insertion never swaps two elements that are already in place. */
  lemma {:induction false} InsertKeeps(key: SortKey, sorted: seq<Doc>, x: Doc, a: Doc, b: Doc)
    requires Precedes(sorted, a, b)
    ensures Precedes(Insert(key, sorted, x), a, b)
  {
    var k := |sorted| - 1;
    var i, j :| 0 <= i < j < |sorted| && sorted[i] == a && sorted[j] == b;
    var result := Insert(key, sorted, x);
    if Compare(key, sorted[k], x) > 0.0 {
      var front := Insert(key, sorted[..k], x);
      InsertPermutes(key, sorted[..k], x);
      if j < k {
        assert sorted[..k][i] == a && sorted[..k][j] == b;
        InsertKeeps(key, sorted[..k], x, a, b);
        var i', j' :| 0 <= i' < j' < |front| && front[i'] == a && front[j'] == b;
        assert result[i'] == a && result[j'] == b;
      } else {
        assert sorted[..k][i] in multiset(front);
        var i' :| 0 <= i' < |front| && front[i'] == a;
        assert result[i'] == a && result[|front|] == b;
      }
    } else {
      assert result[i] == a && result[j] == b;
    }
  }

  lemma {:induction false} SortedKeeps(key: SortKey, docs: seq<Doc>, more: seq<Doc>, a: Doc, b: Doc)
    requires Precedes(Sorted(key, docs), a, b)
    ensures Precedes(Sorted(key, docs + more), a, b)
  {
    if more == [] {
      assert docs + more == docs;
    } else {
      var front, x := docs + more[..|more| - 1], more[|more| - 1];
      SortedKeeps(key, docs, more[..|more| - 1], a, b);
      assert docs + more == front + [x] && (front + [x])[..|front|] == front;
      InsertKeeps(key, Sorted(key, front), x, a, b);
    }
  }

  /** A document without the field keeps its neighbours from being compared. */
  lemma Blocked(key: SortKey, a: Doc, d: Doc, b: Doc)
    requires key.field !in d
    ensures Sorted(key, [a, d, b]) == [a, d, b]
  {
    assert [a, d, b][..2] == [a, d] && [a, d][..1] == [a] && [a][..0] == [];
    assert Sorted(key, [a]) == [a];
    assert Sorted(key, [a, d]) == [a, d];
  }

  lemma TakeOut(docs: seq<Doc>, x: Doc) returns (rest: seq<Doc>)
    requires x in docs
    ensures multiset(docs) == multiset{x} + multiset(rest)
    ensures forall y :: y in docs && y != x ==> y in rest
  {
    var i :| 0 <= i < |docs| && docs[i] == x;
    rest := docs[..i] + docs[i + 1..];
    assert docs == docs[..i] + [x] + docs[i + 1..];
  }

  lemma Misfits(key: SortKey, docs: seq<Doc>) returns (a: Doc, d: Doc, b: Doc)
    requires !Consistent(key, docs)
    ensures a in docs && d in docs && b in docs && key.field !in d
    ensures Compare(key, a, b) > 0.0
  {
    ConsistentExactly(key, docs);
    d :| d in docs && key.field !in d;
    a, b :| a in docs && b in docs && key.field in a && key.field in b && a[key.field] != b[key.field];
    if Compare(key, a, b) <= 0.0 {
      a, b := b, a;
    }
  }

  lemma BringToFront(docs: seq<Doc>, a: Doc, d: Doc, b: Doc) returns (rest: seq<Doc>)
    requires a in docs && d in docs && b in docs && a != d && a != b && d != b
    ensures multiset([a, d, b] + rest) == multiset(docs)
  {
    var rest1 := TakeOut(docs, a);
    var rest2 := TakeOut(rest1, d);
    rest := TakeOut(rest2, b);
    assert multiset([a, d, b]) == multiset{a, d, b};
    assert multiset([a, d, b] + rest) == multiset([a, d, b]) + multiset(rest);
  }

  /** With an inconsistent comparator some arrangement of the list does not come out in order. */
  lemma InconsistentFails(key: SortKey, docs: seq<Doc>) returns (arranged: seq<Doc>)
    requires !Consistent(key, docs)
    ensures multiset(arranged) == multiset(docs) && !InOrder(key, Sorted(key, arranged))
  {
    var a, d, b := Misfits(key, docs);
    var rest := BringToFront(docs, a, d, b);
    arranged := [a, d, b] + rest;
    KeptOutOfOrder(key, a, d, b, rest);
  }

  lemma KeptOutOfOrder(key: SortKey, a: Doc, d: Doc, b: Doc, rest: seq<Doc>)
    requires key.field !in d && Compare(key, a, b) > 0.0
    ensures !InOrder(key, Sorted(key, [a, d, b] + rest))
  {
    Blocked(key, a, d, b);
    assert [a, d, b][0] == a && [a, d, b][2] == b;
    SortedKeeps(key, [a, d, b], rest, a, b);
  }

  /**
   One pass puts every arrangement of a list in order exactly when the comparator is consistent
   on it: by ConsistentExactly, when the field is everywhere or does not vary.
   */
  lemma OrdersExactly(key: SortKey, docs: seq<Doc>)
    ensures (forall arranged: seq<Doc> :: multiset(arranged) == multiset(docs) ==> InOrder(key, Sorted(key, arranged)))
        <==> Consistent(key, docs)
  {
    if Consistent(key, docs) {
      forall arranged: seq<Doc> | multiset(arranged) == multiset(docs) ensures InOrder(key, Sorted(key, arranged)) {
        SameElements(docs, arranged, key);
        ConsistentOrders(key, arranged);
      }
    } else {
      var arranged := InconsistentFails(key, docs);
    }
  }

  /** A list that an ascending sort leaves as it is, with 2 in front of 1. */
  lemma MissingFieldBlocks()
    ensures var docs := [map["v" := 2.0], map[], map["v" := 1.0]];
            && Sorted(SortKey("v", Ascending), docs) == docs
            && !InOrder(SortKey("v", Ascending), docs)
  {
    Blocked(SortKey("v", Ascending), map["v" := 2.0], map[], map["v" := 1.0]);
    assert Compare(SortKey("v", Ascending), map["v" := 2.0], map["v" := 1.0]) > 0.0;
  }

  // ---------------------------------------------------------------- all passes

  /** The keys in the order of `Object.keys(sort)`: one pass each, so the last one dominates. */
  function SortedBy(keys: seq<SortKey>, docs: seq<Doc>): seq<Doc> {
    if keys == [] then docs else Sorted(keys[|keys| - 1], SortedBy(keys[..|keys| - 1], docs))
  }

  /** Lexicographic by the keys from the last to the first, then by `r`. */
  function Lexicographic(keys: seq<SortKey>, r: (Doc, Doc) -> bool): (Doc, Doc) -> bool {
    if keys == [] then r else Refine(keys[|keys| - 1], Lexicographic(keys[..|keys| - 1], r))
  }

  lemma {:induction false} SortedByPermutes(keys: seq<SortKey>, docs: seq<Doc>)
    ensures multiset(SortedBy(keys, docs)) == multiset(docs) && |SortedBy(keys, docs)| == |docs|
  {
    if keys != [] {
      var k := |keys| - 1;
      SortedByPermutes(keys[..k], docs);
      SortedPermutes(keys[k], SortedBy(keys[..k], docs));
    }
  }

  /**
   For any number of fields: sorting once per field gives a permutation that is ordered by the
   fields from the last requested to the first, each in its own direction, and any relation
   between earlier and later documents of the input still holds between tied ones.
   */
  lemma {:induction false} SortedByLexicographic(keys: seq<SortKey>, r: (Doc, Doc) -> bool, docs: seq<Doc>)
    requires Pairwise(r, docs) && forall i :: 0 <= i < |keys| ==> Consistent(keys[i], docs)
    ensures multiset(SortedBy(keys, docs)) == multiset(docs)
    ensures Pairwise(Lexicographic(keys, r), SortedBy(keys, docs))
  {
    SortedByPermutes(keys, docs);
    if keys != [] {
      var k := |keys| - 1;
      SortedByLexicographic(keys[..k], r, docs);
      SameElements(docs, SortedBy(keys[..k], docs), keys[k]);
      SortedRefines(keys[k], Lexicographic(keys[..k], r), SortedBy(keys[..k], docs));
    }
  }

  // ---------------------------------------------------------------- in terms of the field values

  /** The field is in every document, or those documents that have it agree on its value. */
  ghost predicate Sortable(field: Field, docs: seq<Doc>) {
    || (forall d :: d in docs ==> field in d)
    || (forall a, b :: a in docs && b in docs && field in a && field in b ==> a[field] == b[field])
  }

  ghost predicate AllSortable(keys: seq<SortKey>, docs: seq<Doc>) {
    forall i :: 0 <= i < |keys| ==> Sortable(keys[i].field, docs)
  }

  /**
   `a` may stand before `b`: by the last field, upwards for Ascending and downwards for Descending; where
   that does not tell them apart by the field before it, and so on; in the end by `r`.
   */
  ghost predicate Before(keys: seq<SortKey>, r: (Doc, Doc) -> bool, a: Doc, b: Doc) {
    if keys == [] then r(a, b)
    else
      var n := |keys| - 1;
      var field := keys[n].field;
      if field in a && field in b && a[field] != b[field]
      then (if keys[n].direction == Descending then a[field] > b[field] else a[field] < b[field])
      else Before(keys[..n], r, a, b)
  }

  lemma {:induction false} LexicographicIsBefore(keys: seq<SortKey>, r: (Doc, Doc) -> bool, a: Doc, b: Doc)
    ensures Lexicographic(keys, r)(a, b) <==> Before(keys, r, a, b)
  {
    if keys != [] {
      LexicographicIsBefore(keys[..|keys| - 1], r, a, b);
    }
  }

  /**
   For any number of fields that can be sorted by: the list is ordered by field values, from the last
   field to the first, and documents that no field tells apart stand as they stood, whatever `r` says
   about their old places.
   */
  lemma SortedByFields(keys: seq<SortKey>, r: (Doc, Doc) -> bool, docs: seq<Doc>)
    requires forall i, j :: 0 <= i < j < |docs| ==> r(docs[i], docs[j])
    requires AllSortable(keys, docs)
    ensures multiset(SortedBy(keys, docs)) == multiset(docs)
    ensures forall i, j :: 0 <= i < j < |SortedBy(keys, docs)| ==>
              Before(keys, r, SortedBy(keys, docs)[i], SortedBy(keys, docs)[j])
  {
    forall i | 0 <= i < |keys| ensures Consistent(keys[i], docs) {
      ConsistentExactly(keys[i], docs);
    }
    SortedByLexicographic(keys, r, docs);
    var sorted := SortedBy(keys, docs);
    forall i, j | 0 <= i < j < |sorted| ensures Before(keys, r, sorted[i], sorted[j]) {
      assert Lexicographic(keys, r)(sorted[i], sorted[j]);
      LexicographicIsBefore(keys, r, sorted[i], sorted[j]);
    }
  }

  /** Ordered by field values, from the last field to the first. */
  ghost predicate InFieldOrder(keys: seq<SortKey>, docs: seq<Doc>) {
    forall i, j :: 0 <= i < j < |docs| ==> Before(keys, (a, b) => true, docs[i], docs[j])
  }

  lemma SortedInFieldOrder(keys: seq<SortKey>, docs: seq<Doc>)
    ensures multiset(SortedBy(keys, docs)) == multiset(docs)
    ensures AllSortable(keys, docs) ==> InFieldOrder(keys, SortedBy(keys, docs))
  {
    SortedByPermutes(keys, docs);
    if AllSortable(keys, docs) {
      SortedByFields(keys, (a, b) => true, docs);
    }
  }

  /** By the last field alone: upwards or downwards, in plain comparisons. */
  lemma SortedByLastField(keys: seq<SortKey>, docs: seq<Doc>)
    requires keys != [] && AllSortable(keys, docs)
    ensures var field, sorted := keys[|keys| - 1].field, SortedBy(keys, docs);
            forall i, j :: 0 <= i < j < |sorted| && field in sorted[i] && field in sorted[j] ==>
              if keys[|keys| - 1].direction == Ascending
              then sorted[i][field] <= sorted[j][field]
              else sorted[i][field] >= sorted[j][field]
  {
    SortedByFields(keys, (a, b) => true, docs);
  }

  // ---------------------------------------------------------------- in place

  /** Moves the element at `i` to its place among the sorted elements before it. */
  method InsertInPlace(values: array<Doc>, key: SortKey, i: nat)
    requires i < values.Length
    modifies values
    ensures values[..i + 1] == Insert(key, old(values[..i]), old(values[i]))
    ensures values[i + 1..] == old(values[i + 1..])
  {
    ghost var before := values[..i];
    var x := values[i];
    var j := i;
    while j > 0 && Compare(key, values[j - 1], x) > 0.0
      invariant 0 <= j <= i
      invariant forall m :: 0 <= m < j ==> values[m] == before[m]
      invariant forall m :: j < m <= i ==> values[m] == before[m - 1]
      invariant forall m :: j <= m < i ==> Compare(key, before[m], x) > 0.0
      invariant forall m :: i < m < values.Length ==> values[m] == old(values[m])
    {
      values[j] := values[j - 1];
      j := j - 1;
    }
    values[j] := x;
    InsertsAt(key, before, x, j);
    Reassemble(values[..i + 1], before, x, j);
  }

  /** A sequence given element by element as `before` with `x` inserted at `j`. */
  lemma Reassemble(s: seq<Doc>, before: seq<Doc>, x: Doc, j: nat)
    requires j <= |before| && |s| == |before| + 1 && s[j] == x
    requires forall m :: 0 <= m < j ==> s[m] == before[m]
    requires forall m :: j < m < |s| ==> s[m] == before[m - 1]
    ensures s == before[..j] + [x] + before[j..]
  {
  }

  /** Where insertion puts `x`: behind the last element that does not go after it. */
  lemma {:induction false} InsertsAt(key: SortKey, sorted: seq<Doc>, x: Doc, j: nat)
    requires j <= |sorted|
    requires forall m :: j <= m < |sorted| ==> Compare(key, sorted[m], x) > 0.0
    requires j == 0 || Compare(key, sorted[j - 1], x) <= 0.0
    ensures Insert(key, sorted, x) == sorted[..j] + [x] + sorted[j..]
  {
    if j < |sorted| {
      var k := |sorted| - 1;
      InsertsAt(key, sorted[..k], x, j);
      assert sorted[..k][..j] == sorted[..j];
      assert sorted[j..] == sorted[..k][j..] + [sorted[k]];
    } else {
      assert sorted[..j] == sorted;
    }
  }

  /** `values.sort(...)` for one field. */
  method SortInPlace(values: array<Doc>, key: SortKey)
    modifies values
    ensures values[..] == Sorted(key, old(values[..]))
  {
    ghost var input := values[..];
    for i := 0 to values.Length
      invariant values[..i] == Sorted(key, input[..i])
      invariant values[i..] == input[i..]
    {
      assert values[i] == values[i..][0] == input[i];
      assert values[i + 1..] == values[i..][1..] == input[i + 1..];
      InsertInPlace(values, key, i);
      assert input[..i + 1][..i] == input[..i];
    }
    assert values[..] == values[..values.Length] && input == input[..values.Length];
  }

  /** One pass per field. */
  method SortByEach(values: array<Doc>, keys: seq<SortKey>)
    modifies values
    ensures values[..] == SortedBy(keys, old(values[..]))
  {
    for i := 0 to |keys|
      invariant values[..] == SortedBy(keys[..i], old(values[..]))
    {
      assert keys[..i + 1][..i] == keys[..i];
      SortInPlace(values, keys[i]);
    }
    assert keys[..|keys|] == keys;
  }

  /** sortArrayOfObject; `None` stands for a request without a sort. */
  method SortArrayOfObject(values: array<Doc>, sort: Option<seq<SortKey>>)
    modifies values
    ensures values[..] == if sort.Some? then SortedBy(sort.value, old(values[..])) else old(values[..])
    ensures multiset(values[..]) == multiset(old(values[..]))
    ensures sort.Some? && AllSortable(sort.value, old(values[..])) ==> InFieldOrder(sort.value, values[..])
  {
    if sort.None? {
      return;
    }
    SortedInFieldOrder(sort.value, values[..]);
    SortByEach(values, sort.value);
  }
}
