/** The dashboard's page arithmetic (main.js:361-366 in actualRender, repeated at
    main.js:431-436 in handleKeyPress): a fixed-length wallet list is shown five
    wallets per page. */
module Paging {

  /** `walletsPerPage` (main.js:50). */
  const WalletsPerPage: nat := 5

  /** `startIndex = currentPage * walletsPerPage`. */
  function StartIndex(page: int): (start: int)
    ensures start % WalletsPerPage == 0 && start / WalletsPerPage == page
    ensures page >= 0 ==> start >= 0
  {
    page * WalletsPerPage
  }

  /** `endIndex = Math.min(startIndex + walletsPerPage, wallets.length)`. */
  function EndIndex(page: int, count: nat): (end: int)
    ensures end <= count && end <= StartIndex(page) + WalletsPerPage
    ensures end == count || end == StartIndex(page) + WalletsPerPage
  {
    var upper := StartIndex(page) + WalletsPerPage;
    if upper < count then upper else count
  }

  /** `totalPages = Math.ceil(wallets.length / walletsPerPage)`: the least number of
      pages that holds every wallet. */
  function TotalPages(count: nat): (pages: nat)
    ensures pages * WalletsPerPage >= count
    ensures pages == 0 || (pages - 1) * WalletsPerPage < count
    ensures pages == 0 <==> count == 0
  {
    (count + WalletsPerPage - 1) / WalletsPerPage
  }

  /** The rows drawn for a page are the wallets of that page and no others: every index
      of the list lies on exactly the page that `TotalPages` counts for it, and a page
      below `TotalPages` is never empty. */
  lemma PagePartition(count: nat, i: nat, page: int)
    requires i < count && 0 <= page
    ensures StartIndex(page) <= i < EndIndex(page, count) <==> page == i / WalletsPerPage
    ensures i / WalletsPerPage < TotalPages(count)
    ensures page < TotalPages(count) ==> StartIndex(page) < EndIndex(page, count)
  {
    var t := TotalPages(count);
    if page < t {
      assert (t - 1) * WalletsPerPage < count;
      assert page * WalletsPerPage <= (t - 1) * WalletsPerPage;
    }
  }
}
