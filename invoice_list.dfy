/** The invoice list's client-side arithmetic: the number of pages, the window
    of at most five page buttons, the filter state and how a control changes
    it, the Previous/Next targets and the "Showing X to Y of Z" line. */
module InvoiceListView {
  import opened Invoices
  import opened InvoiceQuery

  /** Math.ceil(total / limit) for a record count and a positive page size. */
  function TotalPages(total: nat, limit: int): (r: nat)
    requires limit >= 1
    ensures r == 0 <==> total == 0
    ensures total <= r * limit
    ensures r >= 1 ==> (r - 1) * limit < total
  {
    var r := (total + limit - 1) / limit;
    DivBounds(total + limit - 1, limit);
    r
  }

  /** Euclidean division pinned down by its two bounds. */
  lemma DivBounds(n: nat, d: int)
    requires d >= 1
    ensures (n / d) * d <= n < (n / d) * d + d
  {
  }

  /** The start of the window, stated independently of the loop: with five
      pages or fewer, all of them; otherwise the page two before the
      current one, pushed back inside 1 .. totalPages - 4. */
  function WindowStart(page: int, totalPages: nat): (r: int)
  {
    if totalPages <= 5 then 1 else Max(1, Min(page - 2, totalPages - 4))
  }

  /** getPageNumbers(): the buttons shown for page `page` of `total` records. */
  method GetPageNumbers(page: int, total: nat, limit: int) returns (pages: seq<int>)
    requires limit >= 1
    ensures |pages| == Min(5, TotalPages(total, limit))
    ensures forall k :: 0 <= k < |pages| ==> pages[k] == WindowStart(page, TotalPages(total, limit)) + k
    ensures pages != [] ==> 1 <= pages[0] && pages[|pages| - 1] <= TotalPages(total, limit)
    ensures 1 <= page <= TotalPages(total, limit) ==> page in pages
  {
    var totalPages := TotalPages(total, limit);
    pages := [];
    var maxVisible := 5;
    var start := Max(1, page - maxVisible / 2);
    var end := Min(totalPages, start + maxVisible - 1);
    if end - start < maxVisible - 1 {
      start := Max(1, end - maxVisible + 1);
    }
    assert start == WindowStart(page, totalPages);
    assert end - start + 1 == Min(5, totalPages);
    var i := start;
    while i <= end
      invariant start <= i <= end + 1
      invariant |pages| == i - start
      invariant forall k :: 0 <= k < |pages| ==> pages[k] == start + k
    {
      pages := pages + [i];
      i := i + 1;
    }
    if 1 <= page <= totalPages {
      assert pages[page - start] == page;
    }
  }

  /** The current page sits in the middle of the window whenever it is at
      least three pages from either end. */
  lemma WindowCentred(page: int, totalPages: nat)
    requires 3 <= page <= totalPages - 2
    ensures WindowStart(page, totalPages) == page - 2
  {
  }

  /** The filter state the list keeps and sends as the query string. */
  datatype Filters = Filters(
    page: int,
    limit: int,
    sortBy: string,
    sortOrder: string,
    status: string,
    search: string)

  /** The filter state the list starts with: page 1 of 10, newest upload
      first, no status, no search. */
  const InitialFilters := Filters(1, 10, "uploadDate", "desc", "", "")

  /** The first fetch, made with the initial filters, answers with the whole
      store's count and its most recently uploaded records: at most ten, each
      one uploaded no earlier than any record left for later pages. */
  lemma FirstFetchShowsNewest(all: seq<Invoice>)
    ensures var f := InitialFilters;
      var q := QueryParams(f.page, f.limit, UploadDate, Desc, f.status, f.search);
      var p := Query(all, q);
      p.total == |all| && |p.data| == Min(10, |all|) &&
      multiset(Ordered(all, q)) == multiset(all) &&
      (forall i :: 0 <= i < |p.data| ==> p.data[i] == Ordered(all, q)[i]) &&
      (forall i, j :: 0 <= i < |p.data| <= j < |all| ==>
        p.data[i].uploadDate >= Ordered(all, q)[j].uploadDate)
  {
    var q := QueryParams(1, 10, UploadDate, Desc, "", "");
    var o := Ordered(all, q);
    assert Matching(all, q) == all;
    SortSorted(all, UploadDate, Desc);
    forall i, j | 0 <= i < j < |o| ensures o[i].uploadDate >= o[j].uploadDate {
      PrecedesIsKeyOrder(UploadDate, Desc, o[i], o[j]);
    }
  }

  /** One call of handleFilterChange(key, value), by key. */
  datatype FilterChange =
    | SetPage(n: int)
    | SetLimit(n: int)
    | SetSortBy(s: string)
    | SetSortOrder(s: string)
    | SetStatus(s: string)
    | SetSearch(s: string)

  /** handleFilterChange: set the one key; the page becomes the given number
      for the page key and 1 for every other key. */
  function HandleFilterChange(f: Filters, c: FilterChange): (r: Filters)
    ensures r.page == (if c.SetPage? then c.n else 1)
    ensures r.limit == (if c.SetLimit? then c.n else f.limit)
    ensures r.sortBy == (if c.SetSortBy? then c.s else f.sortBy)
    ensures r.sortOrder == (if c.SetSortOrder? then c.s else f.sortOrder)
    ensures r.status == (if c.SetStatus? then c.s else f.status)
    ensures r.search == (if c.SetSearch? then c.s else f.search)
  {
    match c
    case SetPage(n) => f.(page := n)
    case SetLimit(n) => f.(limit := n, page := 1)
    case SetSortBy(s) => f.(sortBy := s, page := 1)
    case SetSortOrder(s) => f.(sortOrder := s, page := 1)
    case SetStatus(s) => f.(status := s, page := 1)
    case SetSearch(s) => f.(search := s, page := 1)
  }

  /** Repeating a change changes nothing more. */
  lemma FilterChangeIdempotent(f: Filters, c: FilterChange)
    ensures HandleFilterChange(HandleFilterChange(f, c), c) == HandleFilterChange(f, c)
  {
  }

  /** A page chosen after another filter change sticks; a page chosen before
      one is lost, as if it had never been chosen. */
  lemma FilterThenPage(f: Filters, c: FilterChange, n: int)
    requires !c.SetPage?
    ensures HandleFilterChange(HandleFilterChange(f, c), SetPage(n)).page == n
    ensures HandleFilterChange(HandleFilterChange(f, SetPage(n)), c) == HandleFilterChange(f, c)
  {
  }

  /** A filter change other than the page always shows the first page of the
      new results: the query starts at offset 0. */
  lemma FilterChangeRestartsAtFirstRecord(f: Filters, c: FilterChange)
    requires !c.SetPage? && f.limit >= 1 && (c.SetLimit? ==> c.n >= 1)
    ensures Offset(HandleFilterChange(f, c).page, HandleFilterChange(f, c).limit) == 0
  {
  }

  /** The Previous button's target. */
  function PrevTarget(page: int): (r: int)
    ensures r >= 1
    ensures page > 1 ==> r == page - 1
    ensures page <= 1 ==> r == 1
  {
    Max(1, page - 1)
  }

  /** The Next button's target. */
  function NextTarget(page: int, total: nat, limit: int): (r: int)
    requires limit >= 1
    ensures r <= TotalPages(total, limit)
    ensures page < TotalPages(total, limit) ==> r == page + 1
    ensures page >= TotalPages(total, limit) ==> r == TotalPages(total, limit)
  {
    Min(TotalPages(total, limit), page + 1)
  }

  predicate PrevDisabled(page: int)
  {
    page == 1
  }

  predicate NextDisabled(page: int, total: nat, limit: int)
    requires limit >= 1
  {
    page >= TotalPages(total, limit)
  }

  /** The pagination bar appears only when there is more than one page. */
  predicate ShowsPagination(total: nat, limit: int)
  {
    total > limit
  }

  lemma PaginationMeansSeveralPages(total: nat, limit: int)
    requires limit >= 1 && ShowsPagination(total, limit)
    ensures TotalPages(total, limit) >= 2
  {
  }

  /** From a page inside the range, both buttons lead to a page inside the
      range, an enabled button moves by exactly one, and a disabled one
      would lead nowhere new. */
  lemma TargetsStayInRange(page: int, total: nat, limit: int)
    requires limit >= 1 && ShowsPagination(total, limit)
    requires 1 <= page <= TotalPages(total, limit)
    ensures 1 <= PrevTarget(page) <= TotalPages(total, limit)
    ensures 1 <= NextTarget(page, total, limit) <= TotalPages(total, limit)
    ensures !PrevDisabled(page) <==> PrevTarget(page) == page - 1
    ensures !NextDisabled(page, total, limit) <==> NextTarget(page, total, limit) == page + 1
    ensures PrevDisabled(page) <==> PrevTarget(page) == page
    ensures NextDisabled(page, total, limit) <==> NextTarget(page, total, limit) == page
  {
    PaginationMeansSeveralPages(total, limit);
  }

  datatype Range = Range(from: int, to: int)

  /** "Showing from to to of total": from is 0 on an empty page. */
  function ShowingRange(page: int, limit: int, shown: nat, total: nat): (r: Range)
    ensures shown == 0 ==> r.from == 0
    ensures shown > 0 ==> r.from == (page - 1) * limit + 1
    ensures r.to <= total && r.to <= page * limit
    ensures r.to == total || r.to == page * limit
  {
    Range(if shown > 0 then (page - 1) * limit + 1 else 0, Min(page * limit, total))
  }

  /** On a page the query returned, the line counts exactly the records
      shown: from is one past the page's offset and to is the offset plus
      the number of records on the page. */
  lemma ShowingMatchesQuery(all: seq<Invoice>, q: QueryParams)
    requires q.page >= 1 && q.limit >= 1
    requires Query(all, q).data != []
    ensures var p := Query(all, q);
      var r := ShowingRange(q.page, q.limit, |p.data|, p.total);
      r.from == Offset(q.page, q.limit) + 1 &&
      r.to == Offset(q.page, q.limit) + |p.data| &&
      r.to - r.from + 1 == |p.data| && r.to <= p.total
  {
    var p := Query(all, q);
    var off := Offset(q.page, q.limit);
    assert q.page * q.limit == off + q.limit by {
      OffsetStep(q.page, q.limit);
      assert Offset(q.page + 1, q.limit) == q.page * q.limit;
    }
  }

  /** invoices.data.some(status is Processing or Pending): the list keeps
      refreshing while this holds. */
  predicate HasActive(data: seq<Invoice>)
  {
    exists k :: 0 <= k < |data| && IsActive(data[k].status)
  }

  /** The auto-refresh stops exactly when every record shown is Processed or Failed. */
  lemma RefreshStopsWhenAllTerminal(data: seq<Invoice>)
    ensures !HasActive(data) <==> forall k :: 0 <= k < |data| ==> IsTerminal(data[k].status)
  {
    forall k | 0 <= k < |data| {
      ActiveIsNotTerminal(data[k].status);
    }
  }
}
