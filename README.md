# LayerEdge light-node dashboard — a Dafny model

This project models the core of the LayerEdge light-node bot (`main.js`). The bot
loads private keys and proxies from two text files, registers one wallet per usable
key, and bootstraps each wallet's node. The bootstrap claims the reward, checks the
node's status (retrying up to twenty times), activates the node when it is not
running, and reads its points. After a successful bootstrap a refresh timer
re-reads the points. The bot shows everything on a paged terminal dashboard with a
render throttle and arrow-key navigation.

The model has these modules, one per file:

- `Common`: `Option`, `Result`, the `Failure` an Error carries (code, HTTP status,
  message), and `Reply`, the outcome of one request (an answer or a thrown Error).
- `Paging` and `Navigation`: the page arithmetic (five wallets per page) and
  `handleKeyPress` as a pure function on the view. Its lemmas show that no key
  sequence moves the selection off the current page, and that an empty list ignores
  every key.
- `Throttle`: `renderDashboard` as a pure state machine over time. `Run` replays a
  sequence of render requests and timer firings and returns the paint times. The
  event loop's timers appear only where a sequence lists them, so the burst lemmas
  assume requests in time order and no deferred paint falling due during the burst.
- `Dashboard`: the `WalletDashboard` object's view and throttle fields. Its methods
  are proved against `Navigation.Press` and the throttle functions.
- `Statuses`: the seven status strings the bot assigns and the workflow's
  transitions between them.
- `Display`: `getStatusColor` and the shortened wallet address.
- `Remote`: `checkNodeStatus` as a loop method, proved against the `StatusCheck`
  function. Also `checkPoints`, `updatePoints` and `signAndStart`.
- `Loading`: splitting, trimming and filtering the two files, and pairing keys with
  proxies by position.
- `Sessions`: the mutable per-wallet stats record (`WalletStats`), `ProxyManager`,
  and the `Registry` of wallets. `Registry` holds `initialize`, `claimReward`,
  `startPing` and the refresh tick.

The model reproduces these behaviours of the code as written:

- A status reply whose `startTimestamp` is missing reads as "running", because
  `undefined !== null`.
- `checkNodeStatus` with `retries = 0` settles to `undefined`.
- Only the last failed attempt is classified: a timeout code wins over a 404.
- `checkPoints` reads a missing or zero `nodePoints` as 0. A zero reading then keeps
  the points already shown (`result.nodePoints || stats.points`).
- The boolean that `signAndStart` returns is never looked at. Only its Error stops
  the bootstrap.
- `checkNodeStatus` and `checkPoints` only throw fresh Errors with no `response`. So
  the HTTP-status switch in the `catch` of `updatePoints` never fires there
  (`UpdatePoints`). Its own behaviour on an Error that does carry a status is
  modelled separately (`UpdatePointsCatch`).
- "Activation Failed" has a colour but is never assigned (`StatusColours`).
- A key whose wallet cannot be built is skipped, but it still uses up the proxy at
  its position.
- The proxy file's blank-line filter is redundant with the later trim-and-filter
  (`NonBlankRedundant`).
- An immediate paint does not cancel a deferred paint that is already pending. So
  two paints can come less than 100 ms apart
  (`DeferredPaintCanFollowImmediatePaint`).

Remote outcomes, the current time and key derivation (`new Wallet(key).address`) are
parameters. A wallet's ghost `trail` records every status assigned to it. The
record invariant says this trail is a walk of the workflow that starts at Starting.
The registry invariant says a wallet with a refresh timer shows Active or Error, and
a wallet without one shows Starting or Error.

## Model

| member | source | states |
|---|---|---|
| Paging.StartIndex | main.js:361 | a page's first row is a multiple of five, and dividing it by five gives back the page |
| Paging.EndIndex | main.js:362-365 | the row after a page's last is the list length or five rows past the page's first, whichever is smaller |
| Paging.TotalPages | main.js:366 | `Math.ceil(count / 5)`: the least number of pages that holds every wallet; zero exactly when there are no wallets |
| Paging.PagePartition | main.js:361-366 | wallet `i` is drawn on exactly page `i / 5`, that page is below the page count, and no page below the page count is empty |
| Navigation.Press | main.js:430-453 | away from the page's edges, up/down move the selection by exactly one row and keep the page; away from the first or last page, left/right move one page and select its first row; at each edge, and for any other key, the view is unchanged; the view invariant is preserved |
| Navigation.PressAllPreservesInPage | main.js:430-453 | every key sequence keeps the page in range and the selection on that page |
| Navigation.NavigationKeepsSelectionOnPage | main.js:430-453 | from the initial view (row 0, page 0) and with at least one wallet, no key sequence takes the selection off the page |
| Navigation.EmptyListIgnoresKeys | main.js:430-453 | with no wallets, every key sequence leaves the view at row 0 of page 0 |
| Throttle.Request | main.js:341-351 | a request paints at once exactly when the last paint is at least 100 ms old and then keeps any pending timer; otherwise it keeps the last paint time and replaces the pending timer with one due 100 ms later; the last paint time never goes back |
| Throttle.Fire | main.js:346-348 | a due timer paints at that time and is no longer pending; otherwise nothing changes; afterwards no timer is due |
| Throttle.RequestPaintsOrDefers | main.js:340-352 | a request paints at once exactly when the last paint is at least 100 ms old; otherwise it leaves exactly one deferred paint, due 100 ms later, replacing any pending one |
| Throttle.BurstPaintsOnce | main.js:340-352 | a burst of requests in time order, within 100 ms of a first request that paints while no deferred paint is pending, gives exactly that one paint, and leaves one deferred paint due 100 ms after the last request |
| Throttle.DeferredBurst | main.js:342-349 | requests in time order, within 100 ms of the last paint and before any pending deferred paint is due, paint nothing, and the last of them sets the pending deadline |
| Throttle.LastRenderIsLastPaint | main.js:340-355 | after any sequence of requests and timer firings, `lastRender` is the time of the latest paint, whoever made it |
| Throttle.PaintsInOrder | main.js:340-355 | events in time order give paints in time order, none before the last paint |
| Throttle.ImmediatePaintsSpaced | main.js:341-351 | in any sequence of requests and timer firings, a request adds its own time to the paints exactly when it comes at least 100 ms after the latest paint before it, whether a request or a timer made that paint; otherwise it adds no paint |
| Throttle.TimerPaintDefersLaterRequest | main.js:340-355 | paints at 1000 and, deferred, at 1150 make a request at 1200 wait until 1300 |
| Throttle.BurstPaintsTwice | main.js:340-355 | a burst in time order that starts with no deferred paint pending, followed by the due timer, gives exactly two paints: at the first request and 100 ms after the last one |
| Throttle.DeferredPaintCanFollowImmediatePaint | main.js:342-351 | an immediate paint leaves a pending deferred paint in place, so paints at 1000, 1120 and 1150 come less than 100 ms apart |
| Dashboard.WalletDashboard.constructor | main.js:48-57 | starts at row 0 of page 0, never painted, with no paint pending |
| Dashboard.WalletDashboard.ActualRender | main.js:355 | a paint records its time as `lastRender` |
| Dashboard.WalletDashboard.RenderDashboard | main.js:340-352 | the new throttle state is `Throttle.Request` of the old one; `lastRender` moves to now exactly when the request paints at once |
| Dashboard.WalletDashboard.RunDueTimer | main.js:346-348 | a due deferred paint paints and is no longer pending; otherwise nothing changes (`Throttle.Fire`) |
| Dashboard.WalletDashboard.HandleKeyPress | main.js:430-453 | the view moves as `Navigation.Press` says and keeps its invariant; a render is requested exactly when the view changed |
| Display.StatusColour | main.js:410-428 | the task-failed colour is chosen exactly for "Activation Failed"; the reset colour exactly for strings that are no status label |
| Display.StatusColours | main.js:410-428 | each assigned status gets its colour: Active success, Error failure, Activated complete, the four bootstrap steps in progress; no assigned status is "Activation Failed" |
| Display.ShortAddress | main.js:373 | six leading characters, "...", four trailing ones: thirteen characters that start and end as the address does when it has at least ten |
| Remote.FirstAnswer | main.js:218-223 | the index of the first answered attempt among the allowed ones, every earlier attempt having failed, or the bound when all failed |
| Remote.ClassifyStatusFailure | main.js:225-233 | a timeout code gives "Connection timeout", else a 404 "Node not found", else "Check status failed: " and the message; the new Error has no code and no response |
| Remote.StatusCheck | main.js:217-238 | settles to `undefined` exactly when `retries` is 0; a rejection has no response and a non-empty message |
| Remote.StatusCheckResolvedIff | main.js:218-236 | the check settles to a boolean exactly when some allowed attempt is answered |
| Remote.StatusCheckFirstAnswerDecides | main.js:220-223 | the first answer decides: running unless `startTimestamp` is `null`, so a missing timestamp reads as running |
| Remote.OnlyLastFailureCounts | main.js:224-233 | when every attempt fails, only the last failure decides the Error |
| Remote.SucceedsOnLastAttempt | main.js:217-236 | nineteen failures and an answer on the twentieth attempt still settle on that answer |
| Remote.CheckNodeStatus | main.js:217-238 | the loop settles to `StatusCheck`, and makes one request per attempt up to the first answer, or all `retries` |
| Remote.PointsOrZero | main.js:245 | a missing or zero `nodePoints` reads as 0; a non-zero reading is returned as it is |
| Remote.CheckPoints | main.js:240-249 | succeeds exactly when the request is answered, with the reading or 0; otherwise "Check points failed: " and the message |
| Remote.UpdatePointsCatch | main.js:260-273 | an Error with a response is replaced by status (500, 504, 403, other); one without a response is rethrown unchanged |
| Remote.UpdatePoints | main.js:251-275 | a running node gives `CheckPoints`; a rejected check its Error unchanged; a node not running "Node not running"; every Error has no response and a message |
| Remote.SignAndStart | main.js:196-215 | answered exactly when the request is; the boolean is whether the reply message is "node action executed successfully"; otherwise "Node activation failed: " and the message |
| Loading.Split | main.js:69 | at least one line, and no line contains a line break |
| Loading.JoinSplit | main.js:69 | joining the split lines gives back the text |
| Loading.SplitJoin | main.js:69 | splitting the join of lines without line breaks gives back the lines |
| Loading.Trim | main.js:70 | the result is a slice of the line with only white space before and after it, and starts and ends with a non-space |
| Loading.TrimEmptyIff | main.js:27 | a line trims to empty exactly when it is all white space |
| Loading.TrimIdempotent | main.js:70 | trimming a trimmed line changes nothing |
| Loading.TrimAll | main.js:70 | line `k` of the result is line `k` trimmed |
| Loading.LongerThan | main.js:71 | every kept line is longer than the minimum |
| Loading.LongerThanAppend | main.js:71 | the filter keeps lines in order and with their multiplicity: filtering two blocks one after the other is filtering them together |
| Loading.LongerThanKeeps | main.js:71 | every line longer than the minimum is kept |
| Loading.LongerThanFrom | main.js:71 | every kept line is one of the lines |
| Loading.Cleaned | main.js:68-71 | trim then filter: no more lines than the input, each longer than the minimum |
| Loading.KeyLines | main.js:68-71 | every private key kept is longer than 30 characters |
| Loading.CleanedKeepsLong | main.js:68-71 | every line whose trimmed form is long enough is kept, trimmed |
| Loading.CleanedFromLines | main.js:68-74 | every kept line is the trimmed form of some line |
| Loading.CleanedTrimmed | main.js:68-74 | every kept line is already trimmed |
| Loading.ReadProxies | main.js:24-34 | a failed read gives no proxies; every line read has something besides white space |
| Loading.ValidProxies | main.js:72-74 | the proxies paired with keys: none after a failed read, otherwise the file's lines trimmed with empty ones dropped, so none is empty |
| Loading.NonBlank | main.js:27 | every kept proxy line has something besides white space |
| Loading.NonBlankRedundant | main.js:72-74 | the blank-line filter of the proxy reader changes nothing the later trim-and-filter would not |
| Loading.ProxyAt | main.js:83 | `validProxies[i]`: the proxy at position `i` when `i` is within the list, otherwise none |
| Loading.Assign | main.js:79-96 | registrations are in key order, each for a key whose wallet can be built, holding that key's address and the proxy at the key's position |
| Loading.AssignStep | main.js:79-96 | one more key adds nothing when its wallet cannot be built, else appends its registration and address and becomes the latest for that address |
| Loading.AssignComplete | main.js:79-98 | every key whose wallet can be built is registered |
| Loading.NoWalletsIff | main.js:108-110 | nothing is registered exactly when no key gives a wallet |
| Loading.AllValidPositional | main.js:83 | when every key gives a wallet, wallet `i` gets proxy `i`, or none past the end of the list |
| Loading.ThreeWalletsOneProxy | main.js:83 | three wallets and one proxy: the first gets it, the other two none |
| Loading.LatestKeys | main.js:86-89 | the keyed maps hold exactly the registered addresses |
| Loading.LatestEntries | main.js:86-89 | each entry is a registration made for that address |
| Loading.LatestIsLast | main.js:86-89 | for an address, the maps hold its last registration |
| Sessions.MergePoints | main.js:310 | the logical-or merge of the new reading with the points shown: a non-zero reading replaces the points, a zero one keeps them |
| Sessions.WalletStats.constructor | main.js:89-96 | a record shows Starting, "-", 0, no error, its proxy and "-", with nothing assigned since |
| Sessions.WalletStats.Enter | main.js:290 | `stats.status = s`: the record shows `s`, which is appended to its history of statuses |
| Sessions.WalletStats.Fail | main.js:314-315 | Error with the message; the ping time, points and claim time stay |
| Sessions.WalletStats.Refresh | main.js:309-312 | Active, no error, the ping time, the reading merged by `MergePoints`; the claim time stays |
| Sessions.ProxyManager.constructor | main.js:20-22 | starts with no proxies |
| Sessions.ProxyManager.GetProxy | main.js:40-42 | a wallet never given a proxy has none |
| Sessions.ProxyManager.SetProxy | main.js:36-38 | the wallet now has that proxy and every other wallet keeps its own |
| Sessions.Bootstrap | main.js:284-315 | a failed bootstrap always has a message; without a key it fails with "Private key not found"; a status check that rejects gives its Error; a running node, or a stopped node whose activation is answered, gives the result of `updatePoints`; a stopped node whose activation throws gives "Node activation failed: " and the message |
| Sessions.ActivatedNodeRefreshes | main.js:297-311 | a node that is not running and whose activation request is answered goes through Checking Status, Claiming, Activating and Activated, settles to the result of `updatePoints`, and ends in Active exactly when that succeeds |
| Sessions.BootstrapIgnoresClaimAndActionResult | main.js:294-301 | the claim's reply and the message of an answered node action never change what the bootstrap settles to |
| Sessions.FailedActivationStops | main.js:297-301 | a node that is not running and whose activation request fails ends the bootstrap with "Node activation failed: " and the message, after Checking Status, Claiming and Activating |
| Sessions.BootstrapWalk | main.js:290-315 | the statuses a bootstrap assigns continue the workflow from Starting or Error, and end in Active exactly when it succeeds and in Error exactly when it fails |
| Sessions.RunningNodeSkipsActivation | main.js:296-308 | a running node is never shown Activating or Activated: Checking Status, Claiming, then Active or Error |
| Sessions.SettledValid | main.js:284-318 | a bootstrap on a valid record showing Starting or Error leaves it valid, showing Active on success and Error on failure |
| Sessions.Registry.constructor | main.js:46-59 | no wallets, keys, records, timers or proxies |
| Sessions.Registry.AddRecord | main.js:89-96 | a fresh record with the proxy replaces any earlier one for the address |
| Sessions.Registry.Register | main.js:85-96 | the address is pushed, and the key, proxy map and records now mirror this registration as the latest for the address |
| Sessions.Registry.RegisterKey | main.js:80-103 | after key `i`, the registry holds the registrations of the first `i + 1` keys |
| Sessions.Registry.RegisterAll | main.js:79-106 | the registry holds `Assign` of all cleaned keys: the addresses in order, each address's latest key, proxy and a fresh record |
| Sessions.Registry.Initialize | main.js:61-117 | the wallets and maps are those of the cleaned keys paired with the non-blank proxies by position; every record is as created; no timers; fatal exactly when no wallet was registered |
| Sessions.Registry.ClaimReward | main.js:173-194 | shows Claiming, sets the claim time exactly when the reply reports success, and never fails |
| Sessions.Registry.TryBootstrap | main.js:285-308 | settles to `Bootstrap`, assigns the statuses of `Steps` and ends showing the last of them (or the old status when there are none), sets the claim time on a successful claim, and leaves the error, ping time and points alone |
| Sessions.Registry.RunBootstrap | main.js:284-318 | succeeds exactly when `Bootstrap` does, and leaves the record `Settled`: statuses of `Path`, the claim stamped with the claim-time clock reading, then either the reading with the later ping-time reading or the Error with its message |
| Sessions.Registry.StartPing | main.js:277-338 | a wallet with a timer is left alone; otherwise the bootstrap runs, leaving the record `Settled` with separate claim-time and ping-time clock readings, and the timer is armed exactly when it succeeds; the registry invariant is kept |
| Sessions.Registry.RefreshTick | main.js:320-332 | Active with the merged reading when `updatePoints` succeeds, Error with its message when it fails; claim time unchanged; the invariant is kept |
| Sessions.FreshRegistryValid | main.js:89-96 | records all as created and no timers make a valid registry |

## Left out

- Reading `data.txt` and `proxy.txt` is not modelled: their text is a parameter. A failed read of the proxy file is `None`. A failed read of the key file leads to `process.exit(1)`, which is not modelled.
- Key derivation and message signing with ethers are not modelled: derivation is the `derive` parameter, and a signing failure is a failed node-action reply.
- The axios clients (`getApi`, `getDashboardApi`), their headers, proxy agents and client-side retry options are not modelled: each request's outcome is an input `Reply`.
- Timers and clocks are not modelled: the 2-second wait between status attempts, the 5-second grace period after activation and the 12-hour refresh interval are not timed. Each clock reading is a parameter: the bootstrap takes two, one for the claim time and one for the ping time, and the model does not relate them.
- Sessions.Registry.Initialize: runs the registrations one after another and does not start the bootstraps. In the source, each wallet's `startPing` starts as soon as that wallet is registered and all run concurrently under `Promise.all`; the model runs each bootstrap on its own with `StartPing`.
- Sessions.Registry.Initialize: requires an empty registry, as after construction; `initialize` is only ever called once, on a new dashboard.
- Sessions.Registry.StartPing: does not request renders. The throttle is modelled on its own (`Throttle`, `Dashboard`).
- Sessions.Registry.RefreshTick: does not request renders, for the same reason.
- The terminal output of `actualRender` (banner, colours, row text) is not modelled. The page arithmetic, the row selection, the status colour and the short address are.
- The keypress wiring, Ctrl+C, `SIGINT` and the exit handler are not modelled.
- Error logging to the console is not modelled.
- Loading.KeyLines: measures line length in characters, while `line.length > 30` counts UTF-16 code units. A key line with characters outside the Basic Multilingual Plane can be long enough for the source and too short for the model, and then every later key is paired with a different proxy position. Key files hold hexadecimal keys, so the model keeps the simpler measure.
- Display.ShortAddress: `substr` counts UTF-16 code units and the model counts characters; the two agree for the ASCII addresses ethers produces.
