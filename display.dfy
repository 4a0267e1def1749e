/** The two pure helpers of the dashboard's paint: the colour chosen for a status
    (`getStatusColor`, main.js:410-428) and the shortened wallet address
    (main.js:373). */
module Display {
  import Statuses

  /** The colour categories of the palette that `getStatusColor` picks from. */
  datatype Colour = Success | Failure | TaskComplete | TaskFailed | TaskInProgress | Reset

  /** `getStatusColor(status)`: defined for every string. */
  function StatusColour(status: string): (c: Colour)
    ensures c == TaskFailed <==> status == "Activation Failed"
    ensures c == Reset <==>
      status != "Activation Failed" && forall s: Statuses.Status :: status != Statuses.Label(s)
  {
    match status
    case "Active" => assert status == Statuses.Label(Statuses.Active); Success
    case "Error" => assert status == Statuses.Label(Statuses.Error); Failure
    case "Activated" => assert status == Statuses.Label(Statuses.Activated); TaskComplete
    case "Activation Failed" => TaskFailed
    case "Starting" => assert status == Statuses.Label(Statuses.Starting); TaskInProgress
    case "Checking Status" => assert status == Statuses.Label(Statuses.CheckingStatus); TaskInProgress
    case "Activating" => assert status == Statuses.Label(Statuses.Activating); TaskInProgress
    case "Claiming" => assert status == Statuses.Label(Statuses.Claiming); TaskInProgress
    case _ => Reset
  }

  /** The colour of each status the bot assigns: Active is a success, Error a failure,
      Activated a completed task, and the four steps of bootstrap are tasks in progress.
      "Activation Failed" has a colour but is no status the bot ever assigns, so no row is
      ever drawn in the task-failed colour. */
  lemma StatusColours(s: Statuses.Status)
    ensures StatusColour(Statuses.Label(s)) ==
      match s
      case Active => Success
      case Error => Failure
      case Activated => TaskComplete
      case _ => TaskInProgress
    ensures Statuses.Label(s) != "Activation Failed"
    ensures StatusColour(Statuses.Label(s)) != TaskFailed
  {
  }

  /** The first `n` characters of `s`, or all of it when shorter (`s.substr(0, n)`). */
  function Prefix(s: string, n: nat): string
  {
    if |s| <= n then s else s[..n]
  }

  /** The last `n` characters of `s`, or all of it when shorter (`s.substr(-n)`). */
  function Suffix(s: string, n: nat): string
  {
    if |s| <= n then s else s[|s| - n..]
  }

  /** `${wallet.substr(0, 6)}...${wallet.substr(-4)}`: the first six characters, three
      dots and the last four. An address of at least ten characters shortens to thirteen
      characters that start and end as the address does; a shorter one keeps all its
      characters on both sides. */
  function ShortAddress(wallet: string): (r: string)
    ensures |r| == (if |wallet| < 6 then |wallet| else 6) + 3 + (if |wallet| < 4 then |wallet| else 4)
    ensures |wallet| >= 10 ==>
      |r| == 13 && r[..6] == wallet[..6] && r[6..9] == "..." && r[9..] == wallet[|wallet| - 4..]
    ensures |wallet| < 4 ==> r == wallet + "..." + wallet
  {
    Prefix(wallet, 6) + "..." + Suffix(wallet, 4)
  }
}
