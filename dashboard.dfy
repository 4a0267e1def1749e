/** The dashboard's view state as the `WalletDashboard` object keeps it: the selection
    and the page (main.js:48-49), and the throttle's `lastRender` and pending
    `renderTimeout` (main.js:55-56). The wallet list is fixed once the wallets are loaded,
    so the view keeps only its length. */
module Dashboard {
  import opened Common
  import opened Paging
  import opened Navigation
  import Throttle

  class WalletDashboard {
    const walletCount: nat
    var selectedIndex: int
    var currentPage: int
    var lastRender: int
    /** When the pending deferred paint is due; `None` when none is pending. */
    var renderDeadline: Option<int>

    /** The selection and page as a navigation view. */
    function ViewState(): View
      reads this
    {
      View(selectedIndex, currentPage)
    }

    /** The throttle's state as the pure throttle sees it. */
    function RenderState(): Throttle.State
      reads this
    {
      Throttle.State(lastRender, renderDeadline)
    }

    /** A dashboard over `count` wallets, on row 0 of page 0, never painted. */
    constructor (count: nat)
      ensures walletCount == count
      ensures ViewState() == View(0, 0) && RenderState() == Throttle.Initial
      ensures count >= 1 ==> InPage(ViewState(), walletCount)
    {
      walletCount := count;
      selectedIndex, currentPage := 0, 0;
      lastRender, renderDeadline := 0, None;
    }

    /** `actualRender()` at time `now`, as far as the throttle is concerned: the paint is
        recorded; the text it writes to the terminal is not modelled. */
    method ActualRender(now: int)
      modifies this`lastRender
      ensures lastRender == now
    {
      lastRender := now;
    }

    /** `renderDashboard()` at time `now`. */
    method RenderDashboard(now: int)
      modifies this`lastRender, this`renderDeadline
      ensures RenderState() == Throttle.Request(old(RenderState()), now)
      ensures Throttle.PaintsNow(old(RenderState()), now) <==> lastRender == now && old(lastRender) != now
    {
      if now - lastRender < Throttle.MinRenderInterval {
        renderDeadline := Some(now + Throttle.MinRenderInterval);
        return;
      }
      ActualRender(now);
    }

    /** The event loop at time `now` runs the deferred paint when it is due. */
    method RunDueTimer(now: int)
      modifies this`lastRender, this`renderDeadline
      ensures RenderState() == Throttle.Fire(old(RenderState()), now)
    {
      if renderDeadline.Some? && renderDeadline.value <= now {
        renderDeadline := None;
        ActualRender(now);
      }
    }

    /** `handleKeyPress` at time `now`: the view moves as `Press` says, and a render is
        requested exactly when the view changed. */
    method HandleKeyPress(key: Key, now: int)
      modifies this
      ensures ViewState() == Press(old(ViewState()), walletCount, key)
      ensures InPage(old(ViewState()), walletCount) ==> InPage(ViewState(), walletCount)
      ensures RenderState() ==
        if ViewState() != old(ViewState()) then Throttle.Request(old(RenderState()), now)
        else old(RenderState())
    {
      var startIndex := StartIndex(currentPage);
      var endIndex := EndIndex(currentPage, walletCount);
      var totalPages: int := TotalPages(walletCount);
      if key == Up && selectedIndex > startIndex {
        selectedIndex := selectedIndex - 1;
        RenderDashboard(now);
      } else if key == Down && selectedIndex < endIndex - 1 {
        selectedIndex := selectedIndex + 1;
        RenderDashboard(now);
      } else if key == Left && currentPage > 0 {
        currentPage := currentPage - 1;
        selectedIndex := currentPage * WalletsPerPage;
        RenderDashboard(now);
      } else if key == Right && currentPage < totalPages - 1 {
        currentPage := currentPage + 1;
        selectedIndex := currentPage * WalletsPerPage;
        RenderDashboard(now);
      }
    }
  }
}
