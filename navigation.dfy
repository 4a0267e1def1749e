/** Keyboard navigation over the wallet list (`WalletDashboard.handleKeyPress`,
    main.js:430-453): the selection moves within a page with up/down, and left/right
    move a whole page and put the selection on the new page's first row. */
module Navigation {
  import opened Paging

  /** The key names the handler reacts to; any other key is `Other`. */
  datatype Key = Up | Down | Left | Right | Other

  /** The dashboard's view fields `selectedIndex` and `currentPage`. */
  datatype View = View(selected: int, page: int)

  /** The view invariant: the page exists and the selection is one of its rows. */
  predicate InPage(v: View, count: nat)
  {
    0 <= v.page < TotalPages(count) &&
    StartIndex(v.page) <= v.selected < EndIndex(v.page, count)
  }

  /** The view after one key press over a list of `count` wallets. */
  function Press(v: View, count: nat, key: Key): (r: View)
    ensures InPage(v, count) ==> InPage(r, count)
    // up and down keep the page and move the selection by one row, or do nothing
    ensures key == Up || key == Down ==> r.page == v.page
    ensures key == Up && r != v ==> r.selected == v.selected - 1
    ensures key == Down && r != v ==> r.selected == v.selected + 1
    // left and right move one page and select that page's first row, or do nothing
    ensures key == Left && r != v ==> r == View(StartIndex(v.page - 1), v.page - 1)
    ensures key == Right && r != v ==> r == View(StartIndex(v.page + 1), v.page + 1)
    // the edges: first row, last row, first page, last page
    ensures key == Up && v.selected <= StartIndex(v.page) ==> r == v
    ensures key == Down && v.selected >= EndIndex(v.page, count) - 1 ==> r == v
    ensures key == Left && v.page <= 0 ==> r == v
    ensures key == Right && v.page >= TotalPages(count) - 1 ==> r == v
    ensures key == Other ==> r == v
    // away from the edges every arrow key moves the view
    ensures key == Up && v.selected > StartIndex(v.page) ==> r == v.(selected := v.selected - 1)
    ensures key == Down && v.selected < EndIndex(v.page, count) - 1 ==> r == v.(selected := v.selected + 1)
    ensures key == Left && v.page > 0 ==> r == View(StartIndex(v.page - 1), v.page - 1)
    ensures key == Right && v.page < TotalPages(count) - 1 ==> r == View(StartIndex(v.page + 1), v.page + 1)
  {
    var start := StartIndex(v.page);
    var end := EndIndex(v.page, count);
    var total := TotalPages(count);
    if key == Up && v.selected > start then
      v.(selected := v.selected - 1)
    else if key == Down && v.selected < end - 1 then
      v.(selected := v.selected + 1)
    else if key == Left && v.page > 0 then
      View(StartIndex(v.page - 1), v.page - 1)
    else if key == Right && v.page < total - 1 then
      assert (total - 1) * WalletsPerPage < count;
      View(StartIndex(v.page + 1), v.page + 1)
    else
      v
  }

  /** The view after a sequence of key presses, in order. */
  function PressAll(v: View, count: nat, keys: seq<Key>): View
    decreases |keys|
  {
    if keys == [] then v else PressAll(Press(v, count, keys[0]), count, keys[1..])
  }

  /** The dashboard starts at row 0 of page 0; with at least one wallet, no sequence of
      key presses takes the selection off the current page or the page off the list. */
  lemma {:induction false} NavigationKeepsSelectionOnPage(count: nat, keys: seq<Key>)
    requires count >= 1
    ensures InPage(PressAll(View(0, 0), count, keys), count)
  {
    PressAllPreservesInPage(View(0, 0), count, keys);
  }

  /** Every key sequence preserves the view invariant. */
  lemma {:induction false} PressAllPreservesInPage(v: View, count: nat, keys: seq<Key>)
    requires InPage(v, count)
    ensures InPage(PressAll(v, count, keys), count)
    decreases |keys|
  {
    if keys != [] {
      PressAllPreservesInPage(Press(v, count, keys[0]), count, keys[1..]);
    }
  }

  /** With no wallets every key is ignored: the view stays at row 0 of page 0. */
  lemma {:induction false} EmptyListIgnoresKeys(keys: seq<Key>)
    ensures PressAll(View(0, 0), 0, keys) == View(0, 0)
    decreases |keys|
  {
    if keys != [] {
      EmptyListIgnoresKeys(keys[1..]);
    }
  }
}
