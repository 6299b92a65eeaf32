/** getPaginated: status filter, then case-insensitive search, then sort by one
    of the four fields the list view offers, then one page of the result. */
module InvoiceQuery {
  import opened Invoices
  import opened Text
  import opened Seqs

  datatype SortField = UploadDate | Amount | ClientName | FileName
  datatype SortOrder = Asc | Desc

  /** One query. `status` and `search` are the empty string when absent: both
      are only applied when truthy. */
  datatype QueryParams = QueryParams(
    page: int,
    limit: int,
    sortBy: SortField,
    sortOrder: SortOrder,
    status: string,
    search: string)

  datatype Page = Page(data: seq<Invoice>, total: int, page: int, limit: int)

  function Min(a: int, b: int): (r: int) { if a <= b then a else b }
  function Max(a: int, b: int): (r: int) { if a >= b then a else b }

  // ---------------------------------------------------------------- filters

  predicate HasStatus(inv: Invoice, status: string)
  {
    StatusName(inv.status) == status
  }

  function StatusFilter(s: seq<Invoice>, status: string): (r: seq<Invoice>)
  {
    if status == "" then s else Filter(s, inv => HasStatus(inv, status))
  }

  /** The record's lower-cased file name or client name contains the
      lower-cased search text. */
  predicate MatchesSearch(inv: Invoice, search: string)
  {
    Contains(Lower(inv.fileName), Lower(search)) || Contains(Lower(inv.clientName), Lower(search))
  }

  function SearchFilter(s: seq<Invoice>, search: string): (r: seq<Invoice>)
  {
    if search == "" then s else Filter(s, inv => MatchesSearch(inv, search))
  }

  /** With a status given, the records kept are exactly those with that status. */
  lemma StatusFilterExact(s: seq<Invoice>, status: string)
    requires status != ""
    ensures forall x :: x in StatusFilter(s, status) <==> x in s && StatusName(x.status) == status
  {
  }

  /** Without a status, every record is kept, in its place. */
  lemma StatusFilterAbsent(s: seq<Invoice>)
    ensures StatusFilter(s, "") == s
  {
  }

  /** A status string that names none of the four statuses keeps nothing. */
  lemma StatusFilterUnknown(s: seq<Invoice>, status: string)
    requires status !in {"", "Pending", "Processing", "Processed", "Failed"}
    ensures StatusFilter(s, status) == []
  {
  }

  /** With search text, a record is kept iff one of its two names contains the
      text, ignoring ASCII case, as a contiguous run. */
  lemma SearchFilterExact(s: seq<Invoice>, search: string, x: Invoice)
    requires search != ""
    ensures x in SearchFilter(s, search) <==>
      x in s &&
      ((exists i: nat :: OccursAt(Lower(x.fileName), Lower(search), i)) ||
       (exists i: nat :: OccursAt(Lower(x.clientName), Lower(search), i)))
  {
    ContainsIff(Lower(x.fileName), Lower(search));
    ContainsIff(Lower(x.clientName), Lower(search));
  }

  /** Searching for the empty string would keep everything anyway. */
  lemma SearchEmptyKeepsAll(s: seq<Invoice>)
    ensures Filter(s, inv => MatchesSearch(inv, "")) == s
  {
    forall i | 0 <= i < |s| ensures MatchesSearch(s[i], "") {
      ContainsEmpty(Lower(s[i].fileName));
    }
    FilterAll(s, inv => MatchesSearch(inv, ""));
  }

  // ---------------------------------------------------------------- sorting

  /** `aValue > bValue` for the chosen field; dates compare as instants,
      strings character by character (by code point). */
  predicate Greater(f: SortField, a: Invoice, b: Invoice)
  {
    match f
    case UploadDate => a.uploadDate > b.uploadDate
    case Amount => a.amount > b.amount
    case ClientName => StrLt(b.clientName, a.clientName)
    case FileName => StrLt(b.fileName, a.fileName)
  }

  /** The comparator handed to Array.prototype.sort: 1 puts `a` after `b`,
      -1 before. It never answers 0. */
  function Compare(f: SortField, o: SortOrder, a: Invoice, b: Invoice): (r: int)
    ensures r == 1 || r == -1
  {
    if o == Asc then (if Greater(f, a, b) then 1 else -1)
    else (if Greater(f, b, a) then 1 else -1)
  }

  /** `a` may stand before `b`: the comparator does not ask to swap them. */
  predicate Precedes(f: SortField, o: SortOrder, a: Invoice, b: Invoice)
  {
    Compare(f, o, a, b) < 0
  }

  /** The key order, non-strict, of one field. */
  predicate KeyLe(f: SortField, a: Invoice, b: Invoice)
  {
    match f
    case UploadDate => a.uploadDate <= b.uploadDate
    case Amount => a.amount <= b.amount
    case ClientName => a.clientName == b.clientName || StrLt(a.clientName, b.clientName)
    case FileName => a.fileName == b.fileName || StrLt(a.fileName, b.fileName)
  }

  /** "May precede" is the key order for asc and its converse for desc. */
  lemma PrecedesIsKeyOrder(f: SortField, o: SortOrder, a: Invoice, b: Invoice)
    ensures o == Asc ==> (Precedes(f, o, a, b) <==> KeyLe(f, a, b))
    ensures o == Desc ==> (Precedes(f, o, a, b) <==> KeyLe(f, b, a))
  {
    if f == ClientName {
      StrLtTrichotomy(a.clientName, b.clientName);
    } else if f == FileName {
      StrLtTrichotomy(a.fileName, b.fileName);
    }
  }

  /** The comparator is antisymmetric on distinct keys and answers -1 both
      ways on equal keys, so ties are left to the sort algorithm. */
  lemma CompareOnTies(f: SortField, o: SortOrder, a: Invoice, b: Invoice)
    ensures KeyLe(f, a, b) && KeyLe(f, b, a) ==> Compare(f, o, a, b) == -1 && Compare(f, o, b, a) == -1
    ensures !(KeyLe(f, a, b) && KeyLe(f, b, a)) ==> Compare(f, o, a, b) == -Compare(f, o, b, a)
  {
    PrecedesIsKeyOrder(f, o, a, b);
    PrecedesIsKeyOrder(f, o, b, a);
    if f == ClientName {
      StrLtTrichotomy(a.clientName, b.clientName);
    } else if f == FileName {
      StrLtTrichotomy(a.fileName, b.fileName);
    }
  }

  lemma PrecedesTotal(f: SortField, o: SortOrder, a: Invoice, b: Invoice)
    ensures Precedes(f, o, a, b) || Precedes(f, o, b, a)
  {
    if f == ClientName {
      StrLtTrichotomy(a.clientName, b.clientName);
    } else if f == FileName {
      StrLtTrichotomy(a.fileName, b.fileName);
    }
  }

  lemma PrecedesTransitive(f: SortField, o: SortOrder, a: Invoice, b: Invoice, c: Invoice)
    requires Precedes(f, o, a, b) && Precedes(f, o, b, c)
    ensures Precedes(f, o, a, c)
  {
    PrecedesIsKeyOrder(f, o, a, b);
    PrecedesIsKeyOrder(f, o, b, c);
    PrecedesIsKeyOrder(f, o, a, c);
    match f
    case ClientName =>
      if o == Asc {
        if a.clientName != b.clientName && b.clientName != c.clientName {
          StrLtTransitive(a.clientName, b.clientName, c.clientName);
        }
      } else {
        if a.clientName != b.clientName && b.clientName != c.clientName {
          StrLtTransitive(c.clientName, b.clientName, a.clientName);
        }
      }
    case FileName =>
      if o == Asc {
        if a.fileName != b.fileName && b.fileName != c.fileName {
          StrLtTransitive(a.fileName, b.fileName, c.fileName);
        }
      } else {
        if a.fileName != b.fileName && b.fileName != c.fileName {
          StrLtTransitive(c.fileName, b.fileName, a.fileName);
        }
      }
    case UploadDate =>
    case Amount =>
  }

  /** Every pair, in order, is one the comparator would leave as it is. */
  ghost predicate SortedBy(s: seq<Invoice>, f: SortField, o: SortOrder)
  {
    forall i, j :: 0 <= i < j < |s| ==> Precedes(f, o, s[i], s[j])
  }

  /** Inserts `x` before the first element it may precede. */
  function Insert(x: Invoice, s: seq<Invoice>, f: SortField, o: SortOrder): (r: seq<Invoice>)
    ensures multiset(r) == multiset(s) + multiset{x}
  {
    if s == [] then [x]
    else if Precedes(f, o, x, s[0]) then [x] + s
    else
      assert s == [s[0]] + s[1..];
      [s[0]] + Insert(x, s[1..], f, o)
  }

  /** The sort the query applies. Which of several records with equal keys
      comes first is fixed here (input order); the engine's sort does not
      promise that order, and the page contents stated by `Query` follow it. */
  function Sort(s: seq<Invoice>, f: SortField, o: SortOrder): (r: seq<Invoice>)
    ensures multiset(r) == multiset(s)
  {
    if s == [] then []
    else
      assert s == [s[0]] + s[1..];
      Insert(s[0], Sort(s[1..], f, o), f, o)
  }

  lemma {:induction false} InsertSorted(x: Invoice, s: seq<Invoice>, f: SortField, o: SortOrder)
    requires SortedBy(s, f, o)
    ensures SortedBy(Insert(x, s, f, o), f, o)
  {
    var r := Insert(x, s, f, o);
    if s == [] {
    } else if Precedes(f, o, x, s[0]) {
      forall j | 0 < j < |r| ensures Precedes(f, o, x, r[j]) {
        if j > 1 {
          PrecedesTransitive(f, o, x, s[0], s[j - 1]);
        }
      }
    } else {
      PrecedesTotal(f, o, x, s[0]);
      var t := Insert(x, s[1..], f, o);
      InsertSorted(x, s[1..], f, o);
      forall j | 0 <= j < |t| ensures Precedes(f, o, s[0], t[j]) {
        InsertMember(x, s[1..], f, o, t[j]);
        if t[j] != x {
          var k :| 0 <= k < |s[1..]| && s[1..][k] == t[j];
          assert s[k + 1] == t[j];
        }
      }
      assert r == [s[0]] + t;
    }
  }

  /** What an insertion holds: the inserted record and the old ones. */
  lemma InsertMember(x: Invoice, s: seq<Invoice>, f: SortField, o: SortOrder, y: Invoice)
    requires y in Insert(x, s, f, o)
    ensures y == x || y in s
  {
    assert y in multiset(Insert(x, s, f, o));
  }

  lemma {:induction false} SortSorted(s: seq<Invoice>, f: SortField, o: SortOrder)
    ensures SortedBy(Sort(s, f, o), f, o)
  {
    if s != [] {
      SortSorted(s[1..], f, o);
      InsertSorted(s[0], Sort(s[1..], f, o), f, o);
    }
  }

  // ---------------------------------------------------------------- the query

  /** The records that pass both filters, in store order. */
  function Matching(all: seq<Invoice>, q: QueryParams): (r: seq<Invoice>)
  {
    SearchFilter(StatusFilter(all, q.status), q.search)
  }

  /** The matching records, sorted. */
  function Ordered(all: seq<Invoice>, q: QueryParams): (r: seq<Invoice>)
    ensures multiset(r) == multiset(Matching(all, q))
    ensures |r| == |Matching(all, q)|
  {
    var m := Matching(all, q);
    assert |multiset(Sort(m, q.sortBy, q.sortOrder))| == |multiset(m)|;
    Sort(m, q.sortBy, q.sortOrder)
  }

  /** Array.prototype.slice(start, start + limit): clamps both ends to the length. */
  function Slice(s: seq<Invoice>, start: int, limit: int): (r: seq<Invoice>)
    requires start >= 0 && limit >= 1
    ensures |r| == Min(limit, Max(0, |s| - start))
    ensures forall i :: 0 <= i < |r| ==> r[i] == s[start + i]
  {
    var lo := Min(start, |s|);
    var hi := Min(start + limit, |s|);
    s[lo..hi]
  }

  /** Where page `page` starts: `(page - 1) * limit`. */
  function Offset(page: int, limit: int): (r: nat)
    requires page >= 1 && limit >= 1
    ensures r == (page - 1) * limit
  {
    MulNonNegative(page - 1, limit);
    (page - 1) * limit
  }

  /** The next page starts one page length further on. */
  lemma OffsetStep(page: int, limit: int)
    requires page >= 1 && limit >= 1
    ensures Offset(page + 1, limit) == Offset(page, limit) + limit
  {
    assert page * limit == (page - 1) * limit + limit;
  }

  lemma MulNonNegative(a: int, b: int)
    requires a >= 0 && b >= 0
    ensures a * b >= 0
  {
  }

  function Query(all: seq<Invoice>, q: QueryParams): (r: Page)
    requires q.page >= 1 && q.limit >= 1
    ensures r.total == |Matching(all, q)|
    ensures r.page == q.page && r.limit == q.limit
    ensures |r.data| == Min(q.limit, Max(0, r.total - Offset(q.page, q.limit)))
    ensures forall i :: 0 <= i < |r.data| ==> r.data[i] == Ordered(all, q)[Offset(q.page, q.limit) + i]
  {
    var ordered := Ordered(all, q);
    Page(Slice(ordered, Offset(q.page, q.limit), q.limit), |ordered|, q.page, q.limit)
  }

  /** Every record on the page passes the filters and comes from the store. */
  lemma QuerySound(all: seq<Invoice>, q: QueryParams, x: Invoice)
    requires q.page >= 1 && q.limit >= 1
    requires x in Query(all, q).data
    ensures x in all
    ensures q.status != "" ==> StatusName(x.status) == q.status
    ensures q.search != "" ==> MatchesSearch(x, q.search)
  {
    var r := Query(all, q);
    var i :| 0 <= i < |r.data| && r.data[i] == x;
    var ordered := Ordered(all, q);
    assert x == ordered[Offset(q.page, q.limit) + i];
    assert x in multiset(ordered);
    assert x in Matching(all, q);
  }

  /** The page is in the requested order. */
  lemma QueryPageSorted(all: seq<Invoice>, q: QueryParams)
    requires q.page >= 1 && q.limit >= 1
    ensures SortedBy(Query(all, q).data, q.sortBy, q.sortOrder)
  {
    SortSorted(Matching(all, q), q.sortBy, q.sortOrder);
    var o := Ordered(all, q);
    var start := Offset(q.page, q.limit);
    var lo := Min(start, |o|);
    var hi := Min(start + q.limit, |o|);
    SortedSlice(o, lo, hi, q.sortBy, q.sortOrder);
    assert Query(all, q).data == o[lo..hi];
  }

  /** Any slice of a sorted sequence is sorted. */
  lemma SortedSlice(s: seq<Invoice>, lo: int, hi: int, f: SortField, o: SortOrder)
    requires 0 <= lo <= hi <= |s| && SortedBy(s, f, o)
    ensures SortedBy(s[lo..hi], f, o)
  {
    forall i, j | 0 <= i < j < hi - lo ensures Precedes(f, o, s[lo..hi][i], s[lo..hi][j]) {
      assert s[lo..hi][i] == s[lo + i] && s[lo..hi][j] == s[lo + j];
    }
  }

  /** The total does not depend on which page is asked for or how long pages are. */
  lemma QueryTotalIndependentOfPage(all: seq<Invoice>, q: QueryParams, page: int, limit: int)
    requires q.page >= 1 && q.limit >= 1 && page >= 1 && limit >= 1
    ensures Query(all, q.(page := page, limit := limit)).total == Query(all, q).total
  {
  }

  /** A page that starts at or past the end of the matches is empty. */
  lemma QueryPastEnd(all: seq<Invoice>, q: QueryParams)
    requires q.page >= 1 && q.limit >= 1
    requires Offset(q.page, q.limit) >= Query(all, q).total
    ensures Query(all, q).data == []
  {
  }

  /** Every page before the last one that has records is full. */
  lemma QueryFullPage(all: seq<Invoice>, q: QueryParams)
    requires q.page >= 1 && q.limit >= 1
    requires Offset(q.page, q.limit) + q.limit <= Query(all, q).total
    ensures |Query(all, q).data| == q.limit
  {
  }

  /** The next page goes on where this one ends: paging neither skips nor
      repeats a record. */
  lemma QueryNextPageContinues(all: seq<Invoice>, q: QueryParams, i: int)
    requires q.page >= 1 && q.limit >= 1
    requires 0 <= i < |Query(all, q.(page := q.page + 1)).data|
    ensures Offset(q.page, q.limit) + q.limit + i < |Ordered(all, q)|
    ensures Query(all, q.(page := q.page + 1)).data[i] == Ordered(all, q)[Offset(q.page, q.limit) + q.limit + i]
  {
    var q2 := q.(page := q.page + 1);
    OrderedIgnoresPage(all, q, q.page + 1);
    OffsetStep(q.page, q.limit);
    var o := Ordered(all, q);
    var s := Offset(q.page, q.limit) + q.limit;
    var d := Query(all, q2).data;
    assert Offset(q2.page, q2.limit) == s;
    assert s + i < |o|;
    assert d[i] == o[s + i];
  }

  /** Which records a query matches, and their order, do not depend on the page. */
  lemma OrderedIgnoresPage(all: seq<Invoice>, q: QueryParams, page: int)
    ensures Ordered(all, q.(page := page)) == Ordered(all, q)
  {
    assert Matching(all, q.(page := page)) == Matching(all, q);
  }
}
