/** The status a wallet's stats record shows (the strings assigned at main.js:90, 176,
    290, 298, 302, 311, 314, 326 and 330) and the transitions the session workflow makes
    between them. */
module Statuses {

  datatype Status = Starting | CheckingStatus | Claiming | Activating | Activated | Active | Error

  /** The string the bot stores in `stats.status` and shows on the dashboard. */
  function Label(s: Status): string
  {
    match s
    case Starting => "Starting"
    case CheckingStatus => "Checking Status"
    case Claiming => "Claiming"
    case Activating => "Activating"
    case Activated => "Activated"
    case Active => "Active"
    case Error => "Error"
  }

  /** The transitions of the session workflow: bootstrap runs Starting, Checking Status,
      Claiming, optionally Activating and Activated, and ends in Active or Error (a missing
      private key fails at once); refresh ticks move between Active and Error. The step from
      Error to Checking Status is there because `startPing` would run the bootstrap again on
      a wallet whose bootstrap failed; the program itself never does so, since `initialize`
      starts each registration's bootstrap once, on a fresh record. */
  predicate Next(a: Status, b: Status)
  {
    match a
    case Starting => b == CheckingStatus || b == Error
    case CheckingStatus => b == Claiming
    case Claiming => b == Activating || b == Active || b == Error
    case Activating => b == Activated || b == Error
    case Activated => b == Active || b == Error
    case Active => b == Active || b == Error
    case Error => b == CheckingStatus || b == Active || b == Error
  }

  /** A history of statuses in which every change is a transition of the workflow. */
  predicate IsWalk(trail: seq<Status>)
  {
    forall i :: 0 <= i < |trail| - 1 ==> Next(trail[i], trail[i + 1])
  }

  /** Extending a walk by a walk that starts with a transition from its last status. */
  lemma WalkConcat(a: seq<Status>, b: seq<Status>)
    requires IsWalk(a) && IsWalk(b) && a != [] && b != []
    requires Next(a[|a| - 1], b[0])
    ensures IsWalk(a + b)
  {
    forall i | 0 <= i < |a + b| - 1
      ensures Next((a + b)[i], (a + b)[i + 1])
    {
      if i >= |a| {
        assert (a + b)[i] == b[i - |a|] && (a + b)[i + 1] == b[i - |a| + 1];
      }
    }
  }
}
