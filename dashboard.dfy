/** The view-state controller: the loaded records, the records the search
    box keeps, and the page the table shows, with the handlers that change
    them. */
module Dashboard {
  import opened Text
  import opened Coins
  import opened Search
  import opened Pagination

  class ViewState {
    /** `allCoinsData`: every record of the last successful load. */
    var all: seq<Coin>
    /** `filteredCoinsData`: the records the current search term keeps. */
    var filtered: seq<Coin>
    /** `currentPage`, counted from 1. */
    var page: int

    /** The page is a valid page of the filtered list (page 1 when it is
        empty) and the filtered list is an order-preserving selection from
        the loaded records. So the table never shows an empty page while
        the filter keeps some record. */
    ghost predicate Valid()
      reads this
      ensures Valid() ==> filtered == [] || PageStart(page) < |filtered|
    {
      1 <= page <= LastPage(|filtered|) && IsSubsequence(filtered, all)
    }

    /** What a completed render of the current state shows. */
    function View(): PageView
      reads this
      requires Valid()
    {
      Render(filtered, page)
    }

    /** The state before any load: nothing loaded, page 1. */
    constructor ()
      ensures Valid()
      ensures all == [] && filtered == [] && page == 1
    {
      all := [];
      filtered := [];
      page := 1;
    }

    /** A successful load replaces the records and shows all of them. The
        page number is left as it was, so the state stays valid exactly when
        that page still exists. */
    method Load(data: seq<Coin>)
      modifies this
      ensures all == data && filtered == data && page == old(page)
      ensures Valid() <==> 1 <= old(page) <= LastPage(|data|)
    {
      all := data;
      filtered := all;
      SubsequenceRefl(all);
    }

    /** A keystroke in the search box: keep the records whose lower-cased
        name or symbol contains the lower-cased query, and go to page 1. */
    method Filter(query: string)
      modifies this
      ensures Valid()
      ensures all == old(all) && page == 1
      ensures filtered == FilterCoins(all, LowerStr(query))
    {
      var searchTerm := LowerStr(query);
      filtered := FilterCoins(all, searchTerm);
      FilterIsSubsequence(all, searchTerm);
      page := 1;
    }

    /** The Prev button: go back one page unless already on page 1. */
    method Prev()
      requires Valid()
      modifies this
      ensures Valid()
      ensures all == old(all) && filtered == old(filtered)
      ensures page == if old(page) > 1 then old(page) - 1 else old(page)
    {
      if page > 1 {
        page := page - 1;
      }
    }

    /** The Next button: go forward one page unless already on the last. */
    method Next()
      requires Valid()
      modifies this
      ensures Valid()
      ensures all == old(all) && filtered == old(filtered)
      ensures page == if old(page) < TotalPages(|old(filtered)|) then old(page) + 1 else old(page)
    {
      var totalPages := TotalPages(|filtered|);
      if page < totalPages {
        page := page + 1;
      }
    }

    /** A click on the row at index `row` of the table: look its identifier
        up among all loaded records (not only the filtered ones) and take the
        first record that carries it. A shown row always finds a record with
        its identifier, and with unique identifiers it finds the very record
        the row shows. */
    method ClickRow(row: int) returns (selected: Option<Coin>)
      requires Valid()
      requires 0 <= row < |View().rows|
      ensures selected == FindById(all, View().rows[row].coin.id)
      ensures selected.Some? && selected.value.id == View().rows[row].coin.id
      ensures UniqueIds(all) ==> selected == Some(View().rows[row].coin)
    {
      var rows := PageRows(filtered, page);
      var coinId := rows[row].coin.id;
      selected := FindById(all, coinId);
      assert rows[row].coin in filtered;
      SubsequenceMembers(filtered, all);
      FindByIdMember(all, rows[row].coin);
    }
  }
}
