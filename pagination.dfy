/** The page projection done on every render: which slice of the filtered
    list is shown, the rank printed in each row, the page count and the
    enablement of the two navigation buttons. */
module Pagination {
  import opened Coins

  /** Rows shown per page. */
  const CoinsPerPage: nat := 10

  function Min(a: int, b: int): int {
    if a <= b then a else b
  }

  /** `Math.ceil(n / coinsPerPage)`: the fewest pages that hold `n` records.
      An empty list has zero pages (the code does not round this up to 1). */
  function TotalPages(n: nat): (r: nat)
    ensures n <= r * CoinsPerPage
    ensures n > 0 ==> (r - 1) * CoinsPerPage < n
    ensures r == 0 <==> n == 0
  {
    (n + CoinsPerPage - 1) / CoinsPerPage
  }

  /** The largest page number the controller can hold: the last page, or
      page 1 when there are no pages at all. */
  function LastPage(n: nat): nat {
    if TotalPages(n) == 0 then 1 else TotalPages(n)
  }

  /** Index in the filtered list of the first row of page `page`. */
  function PageStart(page: int): int {
    (page - 1) * CoinsPerPage
  }

  /** `filtered.slice(start, start + coinsPerPage)`: JavaScript clamps both
      ends to the length of the list. */
  function PageSlice(s: seq<Coin>, page: int): (r: seq<Coin>)
    requires page >= 1
    ensures |r| <= CoinsPerPage
    ensures PageStart(page) < |s| ==> |r| == Min(CoinsPerPage, |s| - PageStart(page))
    ensures PageStart(page) >= |s| ==> r == []
    ensures forall i :: 0 <= i < |r| ==> r[i] == s[PageStart(page) + i]
  {
    var start := PageStart(page);
    var end := start + CoinsPerPage;
    s[Min(start, |s|)..Min(end, |s|)]
  }

  /** One rendered table row: the rank printed in its first cell and the
      record it shows. */
  datatype Row = Row(rank: int, coin: Coin)

  /** The rows of page `page`; the row at index `i` of the slice is ranked
      `start + i + 1`. */
  function PageRows(s: seq<Coin>, page: int): (rows: seq<Row>)
    requires page >= 1
    ensures |rows| == |PageSlice(s, page)|
    ensures forall i :: 0 <= i < |rows| ==> rows[i].rank == PageStart(page) + i + 1
    ensures forall i :: 0 <= i < |rows| ==>
              1 <= rows[i].rank <= |s| && rows[i].coin == s[rows[i].rank - 1]
  {
    var slice := PageSlice(s, page);
    seq(|slice|, i requires 0 <= i < |slice| => Row(PageStart(page) + i + 1, slice[i]))
  }

  /** `prevPageBtn.disabled`: on a page the controller can hold, the button
      is disabled exactly when there is no earlier page. */
  predicate PrevDisabled(page: int)
    ensures page >= 1 ==> (PrevDisabled(page) <==> page - 1 < 1)
  {
    page == 1
  }

  /** `nextPageBtn.disabled`: on a page the controller can hold, the button
      is disabled exactly when there is no later page. */
  predicate NextDisabled(page: int, n: nat)
    ensures 1 <= page <= LastPage(n) ==> (NextDisabled(page, n) <==> page + 1 > TotalPages(n))
  {
    page == TotalPages(n) || n == 0
  }

  /** Everything one render writes to the table: the rows, the two numbers of
      "Page X of Y" and the disabled state of the two buttons. */
  datatype PageView = PageView(rows: seq<Row>, page: int, totalPages: nat,
                               prevDisabled: bool, nextDisabled: bool)

  /** One render of page `page` of `s`: at most ten rows, each showing the
      record at its rank's position, the page count that holds every
      record, and Prev and Next disabled exactly when no earlier or later
      page exists (on the pages the controller can hold). */
  function Render(s: seq<Coin>, page: int): (v: PageView)
    requires page >= 1
    ensures |v.rows| <= CoinsPerPage && v.page == page
    ensures forall i :: 0 <= i < |v.rows| ==>
              1 <= v.rows[i].rank <= |s| && v.rows[i].coin == s[v.rows[i].rank - 1]
    ensures |s| <= v.totalPages * CoinsPerPage
    ensures v.prevDisabled <==> page == 1
    ensures page <= LastPage(|s|) ==> (v.nextDisabled <==> page >= v.totalPages)
  {
    PageView(PageRows(s, page), page, TotalPages(|s|),
             PrevDisabled(page), NextDisabled(page, |s|))
  }

  /** Every record of the filtered list is shown on exactly one page, in
      exactly one row, and that row's rank is its position in the list
      plus one. */
  lemma RecordOnItsPage(s: seq<Coin>, k: int)
    requires 0 <= k < |s|
    ensures 1 <= k / CoinsPerPage + 1 <= TotalPages(|s|)
    ensures k % CoinsPerPage < |PageRows(s, k / CoinsPerPage + 1)|
    ensures PageRows(s, k / CoinsPerPage + 1)[k % CoinsPerPage] == Row(k + 1, s[k])
    ensures forall p, i :: p >= 1 && 0 <= i < |PageRows(s, p)| && PageRows(s, p)[i].rank == k + 1 ==>
              p == k / CoinsPerPage + 1 && i == k % CoinsPerPage
  {
  }

  /** The controller's page numbers stay within 1 .. LastPage(n); in that
      range a button is disabled exactly when its click handler would leave
      the page unchanged (Prev moves only above page 1, Next only below the
      page count). */
  lemma ButtonsMatchHandlers(page: int, n: nat)
    requires 1 <= page <= LastPage(n)
    ensures PrevDisabled(page) <==> !(page > 1)
    ensures NextDisabled(page, n) <==> !(page < TotalPages(n))
  {
  }

  /** The first page never offers Prev and the last page never offers Next;
      a list with no records renders no rows, "Page 1 of 0" and both
      buttons disabled. */
  lemma RenderBoundaries(s: seq<Coin>)
    ensures Render(s, 1).prevDisabled
    ensures |s| > 0 ==> Render(s, TotalPages(|s|)).nextDisabled
    ensures s == [] ==> Render(s, 1) == PageView([], 1, 0, true, true)
  {
  }

  /** A full load of 100 records: page 1 shows ranks 1 to 10 over the first
      ten records, "Page 1 of 10", Prev disabled and Next enabled. */
  lemma FirstPageOfHundred(s: seq<Coin>)
    requires |s| == 100
    ensures Render(s, 1).totalPages == 10
    ensures Render(s, 1).prevDisabled && !Render(s, 1).nextDisabled
    ensures |Render(s, 1).rows| == 10
    ensures forall i :: 0 <= i < 10 ==> Render(s, 1).rows[i] == Row(i + 1, s[i])
  {
  }
}
