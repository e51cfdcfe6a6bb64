/** The referee list: totals over all documents, then sorting, then one page of the result. */
module RefereePages {
  import opened Permutations
  import opened StableSort
  import opened Wrappers

  const DEFAULT_LIMIT: int := 10
  const DEFAULT_PAGE: int := 1

  const TOTAL_TOKEN_SOLD: Field := "totalTokenSold"
  const TOTAL_VOLUME: Field := "totalVolume"
  const TOTAL_MEMBER: Field := "totalMember"

  /** `page` and `limit` are absent or integers; zero is falsy like an absent value. */
  datatype Request = Request(limit: Option<int>, page: Option<int>, sort: Option<seq<SortKey>>)

  /** `value || fallback`. */
  function OrElse(value: Option<int>, fallback: int): int {
    if value.Some? && value.value != 0 then value.value else fallback
  }

  /** A default parameter: it only replaces `undefined`. */
  function Default(value: Option<int>, fallback: int): int {
    if value.Some? then value.value else fallback
  }

  // ---------------------------------------------------------------- slices and ceilings

  function ClampIndex(i: int, n: nat): nat {
    if i < 0 then (if n + i < 0 then 0 else n + i) else if i > n then n else i
  }

  /** `Array.prototype.slice`: negative positions count from the end, the rest is clamped. */
  function Slice(docs: seq<Doc>, start: int, end: int): seq<Doc> {
    var from, to := ClampIndex(start, |docs|), ClampIndex(end, |docs|);
    if from < to then docs[from..to] else []
  }

  function GetDataByPaging(docs: seq<Doc>, limit: int, page: int): seq<Doc> {
    Slice(docs, (page - 1) * limit, if page * limit > 1 then page * limit else 1)
  }

  /** `Math.ceil(n / d)`, for a divisor of either sign. */
  function CeilDiv(n: nat, d: int): int
    requires d != 0
  {
    if d > 0 then (n + d - 1) / d else -(n / -d)
  }

  lemma FloorBounds(n: int, d: int)
    requires d >= 1
    ensures n / d * d <= n < n / d * d + d
  {
  }

  lemma TimesOrdered(a: int, b: int, d: int)
    requires a <= b && d >= 1
    ensures a * d <= b * d
  {
  }

  lemma CeilDivPositive(n: nat, limit: int, p: int)
    requires limit >= 1
    ensures p < CeilDiv(n, limit) <==> p * limit < n
  {
    var c := CeilDiv(n, limit);
    FloorBounds(n + limit - 1, limit);
    if p < c {
      TimesOrdered(p + 1, c, limit);
      assert (p + 1) * limit == p * limit + limit;
    } else {
      TimesOrdered(c, p, limit);
    }
  }

  lemma CeilDivNegative(n: nat, d: int, p: int)
    requires d >= 1
    ensures p < CeilDiv(n, -d) <==> p * -d > n
  {
    var q := n / d;
    FloorBounds(n, d);
    assert CeilDiv(n, -d) == -q && p * -d == -p * d;
    if p < -q {
      TimesOrdered(q + 1, -p, d);
      assert (q + 1) * d == q * d + d;
    } else {
      TimesOrdered(-p, q, d);
    }
  }

  /** The ceiling in multiplications: page `p` is below it exactly when it does not reach the end. */
  lemma CeilDivBounds(n: nat, limit: int, p: int)
    requires limit != 0
    ensures p < CeilDiv(n, limit) <==> if limit > 0 then p * limit < n else p * limit > n
  {
    if limit > 0 {
      CeilDivPositive(n, limit, p);
    } else {
      CeilDivNegative(n, -limit, p);
      assert - -limit == limit;
    }
  }

  function Min(a: int, b: int): int {
    if a < b then a else b
  }

  lemma PageIsRange(docs: seq<Doc>, limit: int, page: int)
    requires limit >= 1 && page >= 1
    ensures 0 <= (page - 1) * limit < page * limit
    ensures GetDataByPaging(docs, limit, page) ==
            docs[Min((page - 1) * limit, |docs|)..Min(page * limit, |docs|)]
  {
    assert (page - 1) * limit >= 0;
    assert page * limit == (page - 1) * limit + limit;
  }

  /** Positions below zero count from the end, and positions beyond either end are cut off there. */
  lemma SliceMeaning(docs: seq<Doc>, start: int, end: int)
    ensures 0 <= start <= end <= |docs| ==> Slice(docs, start, end) == docs[start..end]
    ensures 0 <= end <= start ==> Slice(docs, start, end) == []
    ensures start < 0 ==> Slice(docs, start, end) == Slice(docs, if |docs| + start > 0 then |docs| + start else 0, end)
    ensures end < 0 ==> Slice(docs, start, end) == Slice(docs, start, if |docs| + end > 0 then |docs| + end else 0)
    ensures end > |docs| ==> Slice(docs, start, end) == Slice(docs, start, |docs|)
  {
  }

  /** A slice that ends behind the first document and starts at the head or `back` documents before the end. */
  lemma FirstOnly(docs: seq<Doc>, back: int)
    requires back >= 0
    ensures Slice(docs, -back, 1) == if docs != [] && (back == 0 || |docs| <= back) then [docs[0]] else []
  {
  }

  lemma SignOfProduct(a: int, b: int)
    ensures a > 0 && b < 0 ==> a * b < 0
    ensures a < 0 && b < 0 ==> a * b > 0
  {
  }

  /**
   A page or limit below zero: nothing if both are, otherwise the first document when the list is no
   longer than the distance counted from its end, and nothing when it is longer.
   */
  lemma NegativePaging(docs: seq<Doc>, limit: int, page: int)
    requires limit != 0 && page != 0 && (limit < 0 || page < 0)
    ensures limit < 0 && page < 0 ==> GetDataByPaging(docs, limit, page) == []
    ensures limit > 0 || page > 0 ==>
              GetDataByPaging(docs, limit, page) ==
              if docs != [] && (page == 1 || |docs| <= (1 - page) * limit) then [docs[0]] else []
  {
    var back := (1 - page) * limit;
    assert (page - 1) * limit == -back;
    if limit < 0 && page < 0 {
      SignOfProduct(page, limit);
      assert (page - 1) * limit == page * limit - limit;
      SliceMeaning(docs, (page - 1) * limit, page * limit);
    } else {
      SignOfProduct(page, limit);
      SignOfProduct(limit, page);
      SignOfProduct(limit, page - 1);
      SignOfProduct(page - 1, limit);
      FirstOnly(docs, back);
    }
  }

  /** The first `k` pages, one after the other. */
  function Pages(docs: seq<Doc>, limit: int, k: nat): seq<Doc> {
    if k == 0 then [] else Pages(docs, limit, k - 1) + GetDataByPaging(docs, limit, k)
  }

  lemma {:induction false} PagesArePrefix(docs: seq<Doc>, limit: int, k: nat)
    requires limit >= 1
    ensures 0 <= k * limit && Pages(docs, limit, k) == docs[..Min(k * limit, |docs|)]
  {
    if k > 0 {
      PagesArePrefix(docs, limit, k - 1);
      PageIsRange(docs, limit, k);
    }
  }

  /** All pages together are the list, and there is a next page exactly when the next slice is not empty. */
  lemma PagesCover(docs: seq<Doc>, limit: int, page: int)
    requires limit >= 1 && page >= 1
    ensures CeilDiv(|docs|, limit) >= 0 && Pages(docs, limit, CeilDiv(|docs|, limit)) == docs
    ensures page < CeilDiv(|docs|, limit) <==> GetDataByPaging(docs, limit, page + 1) != []
    ensures page <= CeilDiv(|docs|, limit) <==> GetDataByPaging(docs, limit, page) != []
  {
    var c := CeilDiv(|docs|, limit);
    CeilDivBounds(|docs|, limit, -1);
    CeilDivBounds(|docs|, limit, c);
    PagesArePrefix(docs, limit, c);
    CeilDivBounds(|docs|, limit, page);
    CeilDivBounds(|docs|, limit, page - 1);
    PageIsRange(docs, limit, page);
    PageIsRange(docs, limit, page + 1);
  }

  // ---------------------------------------------------------------- totals

  /** `item?.field || 0`. */
  function ValueOf(doc: Doc, field: Field): real {
    if field in doc then doc[field] else 0.0
  }

  function Total(docs: seq<Doc>, field: Field): real {
    if docs == [] then 0.0 else Total(docs[..|docs| - 1], field) + ValueOf(docs[|docs| - 1], field)
  }

  lemma {:induction false} TotalConcat(docs: seq<Doc>, more: seq<Doc>, field: Field)
    ensures Total(docs + more, field) == Total(docs, field) + Total(more, field)
  {
    if more == [] {
      assert docs + more == docs;
    } else {
      TotalConcat(docs, more[..|more| - 1], field);
      assert (docs + more)[..|docs + more| - 1] == docs + more[..|more| - 1];
    }
  }

  /** A document anywhere in the list adds its value, or nothing when it lacks the field. */
  lemma TotalInserted(front: seq<Doc>, doc: Doc, back: seq<Doc>, field: Field)
    ensures Total([], field) == 0.0
    ensures Total(front + [doc] + back, field) ==
            Total(front + back, field) + if field in doc then doc[field] else 0.0
  {
    TotalConcat(front + [doc], back, field);
    TotalConcat(front, [doc], field);
    TotalConcat(front, back, field);
    assert [doc][..0] == [];
  }

  lemma {:induction false} TotalPermuted(docs: seq<Doc>, other: seq<Doc>, field: Field)
    requires multiset(docs) == multiset(other)
    ensures Total(docs, field) == Total(other, field)
  {
    if docs == [] {
      assert |other| == |multiset(other)| == 0;
    } else {
      var last := docs[|docs| - 1];
      var i := LocateLast(docs, other);
      var rest := other[..i] + other[i + 1..];
      TotalPermuted(docs[..|docs| - 1], rest, field);
      TotalConcat(other[..i], other[i + 1..], field);
      TotalConcat(other[..i] + [last], other[i + 1..], field);
      TotalConcat(other[..i], [last], field);
      assert Total([last], field) == ValueOf(last, field) by {
        assert [last][..0] == [];
      }
    }
  }

  /** The totals of the first `k` pages added up. */
  ghost function TotalOfPages(docs: seq<Doc>, limit: int, k: nat, field: Field): real {
    if k == 0 then 0.0
    else TotalOfPages(docs, limit, k - 1, field) + Total(GetDataByPaging(docs, limit, k), field)
  }

  lemma {:induction false} TotalOfPagesIsTotal(docs: seq<Doc>, limit: int, k: nat, field: Field)
    ensures TotalOfPages(docs, limit, k, field) == Total(Pages(docs, limit, k), field)
  {
    if k > 0 {
      TotalOfPagesIsTotal(docs, limit, k - 1, field);
      TotalConcat(Pages(docs, limit, k - 1), GetDataByPaging(docs, limit, k), field);
    }
  }

  /** The total reported for the unsorted list is what the pages of the sorted list add up to. */
  lemma TotalsMatchPages(docs: seq<Doc>, keys: seq<SortKey>, limit: int, field: Field)
    requires limit >= 1
    ensures CeilDiv(|docs|, limit) >= 0
    ensures Total(docs, field) == TotalOfPages(SortedBy(keys, docs), limit, CeilDiv(|docs|, limit), field)
  {
    SortedByPermutes(keys, docs);
    PagesCover(SortedBy(keys, docs), limit, 1);
    TotalPermuted(docs, SortedBy(keys, docs), field);
    TotalOfPagesIsTotal(SortedBy(keys, docs), limit, CeilDiv(|docs|, limit), field);
  }

  // ---------------------------------------------------------------- the result object

  /** The documents in the order in which they are cut into pages. */
  function Ordered(docs: seq<Doc>, request: Option<Request>): seq<Doc> {
    if request.Some? && request.value.sort.Some? then SortedBy(request.value.sort.value, docs) else docs
  }

  /** Without a sort the list stays as it is; with one it is rearranged, by the values of the fields. */
  lemma OrderedMeans(docs: seq<Doc>, request: Option<Request>)
    ensures request.None? || request.value.sort.None? ==> Ordered(docs, request) == docs
    ensures multiset(Ordered(docs, request)) == multiset(docs)
    ensures request.Some? && request.value.sort.Some? && AllSortable(request.value.sort.value, docs) ==>
              InFieldOrder(request.value.sort.value, Ordered(docs, request))
  {
    if request.Some? && request.value.sort.Some? {
      SortedInFieldOrder(request.value.sort.value, docs);
    }
  }

  function LimitOf(request: Option<Request>): (limit: int)
    ensures limit != 0
  {
    if request.Some? then OrElse(request.value.limit, DEFAULT_LIMIT) else DEFAULT_LIMIT
  }

  function PageOf(request: Option<Request>): int {
    if request.Some? then OrElse(request.value.page, DEFAULT_PAGE) else DEFAULT_PAGE
  }

  /** `requestData?.limit && requestData?.page`. */
  predicate IsPaged(request: Option<Request>) {
    request.Some? && OrElse(request.value.limit, 0) != 0 && OrElse(request.value.page, 0) != 0
  }

  /** The page and the limit that updateInfoPage works with: only an absent one is replaced. */
  ghost function CurrentPage(request: Option<Request>): int {
    if request.Some? && request.value.page.Some? then request.value.page.value else 1
  }

  ghost function CurrentLimit(request: Option<Request>): int {
    if request.Some? && request.value.limit.Some? then request.value.limit.value else 10
  }

  /** How many documents stand before the current page. */
  ghost function Skipped(request: Option<Request>): int {
    (CurrentPage(request) - 1) * CurrentLimit(request)
  }

  /** Absent and zero fall back to 10 documents and to page 1, and leave the list whole. */
  lemma RequestDefaults(request: Option<Request>)
    ensures request.None? ==> LimitOf(request) == 10 && PageOf(request) == 1 && !IsPaged(request)
    ensures request.Some? ==>
              var limit, page := request.value.limit, request.value.page;
              && LimitOf(request) == (if limit == None || limit == Some(0) then 10 else limit.value)
              && PageOf(request) == (if page == None || page == Some(0) then 1 else page.value)
              && (IsPaged(request) <==> limit != None && limit != Some(0) && page != None && page != Some(0))
  {
  }

  /** What is left of the ordered list: one page, if the request names one. */
  ghost function Shown(docs: seq<Doc>, request: Option<Request>): seq<Doc> {
    if && request.Some?
       && request.value.limit.Some? && request.value.limit.value != 0
       && request.value.page.Some? && request.value.page.value != 0
    then GetDataByPaging(docs, request.value.limit.value, request.value.page.value)
    else docs
  }

  lemma NextPageExists(docs: seq<Doc>, request: Option<Request>)
    ensures LimitOf(request) >= 1 && PageOf(request) >= 1 ==>
              (PageOf(request) < CeilDiv(|docs|, LimitOf(request)) <==>
               GetDataByPaging(docs, LimitOf(request), PageOf(request) + 1) != [])
  {
    if LimitOf(request) >= 1 && PageOf(request) >= 1 {
      PagesCover(docs, LimitOf(request), PageOf(request));
    }
  }

  class RefereeList {
    var docs: array<Doc>
    var totalTokenSold: real
    var totalVolume: real
    var totalMembers: real
    var totalDocs: nat
    var limit: int
    var page: int
    var totalLines: nat
    var pagingCounter: int
    var hasPrevPage: bool
    var hasNextPage: bool
    var totalPages: int
    var nextPage: int
    var prevPage: int

    constructor (docs: array<Doc>)
      ensures this.docs == docs
    {
      this.docs := docs;
    }

    /** The page information is that of `curr` among the pages from `start` to `totalPages`, behind `before` documents. */
    ghost predicate InfoFits(curr: int, start: int, before: int)
      reads this
    {
      && (hasPrevPage <==> curr > start)
      && (hasNextPage <==> curr < totalPages)
      && start <= prevPage && nextPage <= totalPages
      && (hasPrevPage ==> prevPage == curr - 1)
      && (hasNextPage ==> nextPage == curr + 1)
      && (!hasPrevPage ==> prevPage == start)
      && (!hasNextPage ==> nextPage == totalPages)
      && pagingCounter >= 1
      && (pagingCounter == before || (pagingCounter == 1 && before <= 0))
    }

    /** updateInfoPage. */
    method UpdateInfoPage(currPage: Option<int>, startPage: int, endPage: int, limit: Option<int>)
      modifies this`pagingCounter, this`hasPrevPage, this`hasNextPage, this`totalPages, this`nextPage, this`prevPage
      ensures totalPages == endPage
      ensures var curr := if currPage.Some? then currPage.value else 1;
              InfoFits(curr, startPage, (curr - 1) * if limit.Some? then limit.value else 10)
    {
      var curr := Default(currPage, DEFAULT_PAGE);
      var before := (curr - 1) * Default(limit, DEFAULT_LIMIT);
      pagingCounter := if before > 0 then before else 1;
      hasPrevPage := curr > startPage;
      hasNextPage := curr < endPage;
      totalPages := endPage;
      nextPage := if curr + 1 < endPage then curr + 1 else endPage;
      prevPage := if curr - 1 > startPage then curr - 1 else startPage;
    }

    /** The `reduce` at the head of getTotalUserInfo. */
    method SumFields() returns (sold: real, volume: real, members: real)
      ensures sold == Total(docs[..], "totalTokenSold")
      ensures volume == Total(docs[..], "totalVolume")
      ensures members == Total(docs[..], "totalMember")
    {
      sold, volume, members := 0.0, 0.0, 0.0;
      for i := 0 to docs.Length
        invariant sold == Total(docs[..i], TOTAL_TOKEN_SOLD)
        invariant volume == Total(docs[..i], TOTAL_VOLUME)
        invariant members == Total(docs[..i], TOTAL_MEMBER)
      {
        assert docs[..i + 1][..i] == docs[..i];
        sold := sold + ValueOf(docs[i], TOTAL_TOKEN_SOLD);
        volume := volume + ValueOf(docs[i], TOTAL_VOLUME);
        members := members + ValueOf(docs[i], TOTAL_MEMBER);
      }
      assert docs[..docs.Length] == docs[..];
    }

    /** The page and limit of the request, and the page information that follows from them. */
    method FillPageInfo(request: Option<Request>)
      modifies this`totalDocs, this`totalLines, this`limit, this`page
      modifies this`pagingCounter, this`hasPrevPage, this`hasNextPage, this`totalPages, this`nextPage, this`prevPage
      ensures totalDocs == totalLines == docs.Length
      ensures limit == LimitOf(request) && page == PageOf(request) && totalPages == CeilDiv(docs.Length, limit)
      ensures InfoFits(CurrentPage(request), 1, Skipped(request))
      ensures limit >= 1 && page >= 1 && (request.Some? ==> request.value.page != Some(0)) ==>
                && (hasNextPage <==> GetDataByPaging(docs[..], limit, page + 1) != [])
                && (hasPrevPage <==> page > 1)
    {
      var pages := CeilDiv(docs.Length, LimitOf(request));
      NextPageExists(docs[..], request);
      totalDocs := docs.Length;
      limit := LimitOf(request);
      page := PageOf(request);
      totalLines := docs.Length;
      if request.Some? {
        UpdateInfoPage(request.value.page, 1, pages, request.value.limit);
      } else {
        UpdateInfoPage(None, 1, pages, None);
      }
    }

    /** The sort of a request, if it has one. */
    method SortDocs(request: Option<Request>)
      modifies docs
      ensures docs[..] == Ordered(old(docs[..]), request)
    {
      if request.Some? {
        SortArrayOfObject(docs, request.value.sort);
      }
    }

    /** `result.docs = getDataByPaging(...)`. */
    method CutPage(request: Option<Request>)
      modifies this`docs
      ensures docs[..] == Shown(old(docs[..]), request)
    {
      if IsPaged(request) {
        var slice := GetDataByPaging(docs[..], request.value.limit.value, request.value.page.value);
        docs := new Doc[|slice|](i requires 0 <= i < |slice| => slice[i]);
        assert docs[..] == slice;
      }
    }

    /**
     getTotalUserInfo. For a page and a limit of at least 1 the documents left are that page of the
     ordered list, and there is a next page exactly when the page after it is not empty.
     */
    method GetTotalUserInfo(request: Option<Request>)
      modifies this, docs
      ensures totalTokenSold == Total(old(docs[..]), "totalTokenSold")
      ensures totalVolume == Total(old(docs[..]), "totalVolume")
      ensures totalMembers == Total(old(docs[..]), "totalMember")
      ensures totalDocs == totalLines == old(docs.Length)
      ensures docs[..] == Shown(Ordered(old(docs[..]), request), request)
      ensures limit == LimitOf(request) && page == PageOf(request) && totalPages == CeilDiv(totalDocs, limit)
      ensures InfoFits(CurrentPage(request), 1, Skipped(request))
      ensures limit >= 1 && page >= 1 && (request.Some? ==> request.value.page != Some(0)) ==>
                && (hasNextPage <==> GetDataByPaging(Ordered(old(docs[..]), request), limit, page + 1) != [])
                && (hasPrevPage <==> page > 1)
    {
      totalTokenSold, totalVolume, totalMembers := SumFields();
      SortDocs(request);
      FillPageInfo(request);
      CutPage(request);
    }
  }
}
