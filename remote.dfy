/** The bot's remote calls and their error policy: the bounded status-check retry
    (`checkNodeStatus`, main.js:217-238), the points read (`checkPoints`,
    main.js:240-249), their composition (`updatePoints`, main.js:251-275) and node
    activation (`signAndStart`, main.js:196-215). Each request's outcome is an input
    `Reply`; the HTTP client, the signing key and the waits between attempts are not
    modelled. */
module Remote {
  import opened Common

  /** The default `retries` of `checkNodeStatus` (main.js:217). */
  const Retries: nat := 20

  /** `response.data?.data?.startTimestamp` of a node-status reply: missing (`undefined`),
      `null`, or a time. */
  datatype StartTimestamp = Missing | Null | Started(time: int)

  /** What `checkNodeStatus` settles to: a boolean, `undefined` when the loop makes no
      attempt, or a thrown Error. */
  datatype Check = Resolved(running: bool) | Undefined | Rejected(failure: Failure)

  /** Whether the status check settled to a truthy value, as `if (!isRunning)` reads it. */
  predicate Truthy(c: Check)
  {
    c == Resolved(true)
  }

  /** The index of the first answered request among the first `bound` replies, or
      `bound` when every one of them failed. */
  function FirstAnswer<T>(replies: seq<Reply<T>>, bound: nat): (k: nat)
    requires bound <= |replies|
    ensures k <= bound
    ensures k < bound ==> replies[k].Answer?
    ensures forall j :: 0 <= j < k ==> replies[j].Thrown?
  {
    if bound == 0 then 0
    else
      var k := FirstAnswer(replies, bound - 1);
      if k < bound - 1 then k
      else if replies[bound - 1].Answer? then bound - 1
      else bound
  }

  /** Whether a transport failure is a timeout (main.js:226). */
  predicate IsTimeout(f: Failure)
  {
    f.code == Some("ETIMEDOUT") || f.code == Some("ECONNABORTED")
  }

  /** The Error thrown when the last attempt fails (main.js:226-232): a timeout code wins
      over a 404 response, and anything else keeps the underlying message. The result is
      a fresh Error, so it never carries a code or a response. */
  function ClassifyStatusFailure(f: Failure): (r: Failure)
    ensures r.code.None? && r.response.None? && |r.message| > 0
    ensures IsTimeout(f) ==> r.message == "Connection timeout"
    ensures !IsTimeout(f) && f.response == Some(404) ==> r.message == "Node not found"
    ensures !IsTimeout(f) && f.response != Some(404) ==> r.message == "Check status failed: " + f.message
  {
    if IsTimeout(f) then Raised("Connection timeout")
    else if f.response == Some(404) then Raised("Node not found")
    else Raised("Check status failed: " + f.message)
  }

  /** What `checkNodeStatus(wallet, retries)` settles to when its successive requests get
      `replies`: the first answer decides (`startTimestamp !== null`), earlier failures are
      swallowed, and only a failure of the last allowed attempt is reported. */
  function StatusCheck(replies: seq<Reply<StartTimestamp>>, retries: nat): (c: Check)
    requires retries <= |replies|
    ensures c.Undefined? <==> retries == 0
    ensures c.Rejected? ==> c.failure.response.None? && |c.failure.message| > 0
  {
    var k := FirstAnswer(replies, retries);
    if k < retries then Resolved(replies[k].payload != Null)
    else if retries == 0 then Undefined
    else Rejected(ClassifyStatusFailure(replies[retries - 1].failure))
  }

  /** The check settles to a boolean exactly when some allowed attempt is answered. */
  lemma StatusCheckResolvedIff(replies: seq<Reply<StartTimestamp>>, retries: nat)
    requires retries <= |replies|
    ensures StatusCheck(replies, retries).Resolved? <==> exists j :: 0 <= j < retries && replies[j].Answer?
  {
  }

  /** The status check stops at the first answer, which is read as "running" unless its
      timestamp is `null` (a missing timestamp reads as running, since
      `undefined !== null`). */
  lemma StatusCheckFirstAnswerDecides(replies: seq<Reply<StartTimestamp>>, retries: nat, k: nat)
    requires retries <= |replies| && k < retries
    requires replies[k].Answer? && forall j :: 0 <= j < k ==> replies[j].Thrown?
    ensures StatusCheck(replies, retries) == Resolved(replies[k].payload != Null)
    ensures replies[k].payload == Missing ==> StatusCheck(replies, retries) == Resolved(true)
  {
  }

  /** When every attempt fails, the check rejects with the classification of the last
      failure alone: any two runs whose last failures agree settle the same way. */
  lemma {:induction false} OnlyLastFailureCounts(a: seq<Reply<StartTimestamp>>, b: seq<Reply<StartTimestamp>>, retries: nat)
    requires 0 < retries <= |a| && retries <= |b|
    requires forall j :: 0 <= j < retries ==> a[j].Thrown? && b[j].Thrown?
    requires a[retries - 1] == b[retries - 1]
    ensures StatusCheck(a, retries) == StatusCheck(b, retries)
    ensures StatusCheck(a, retries) == Rejected(ClassifyStatusFailure(a[retries - 1].failure))
  {
  }

  /** A node that fails the first nineteen status requests and answers the twentieth is
      still found: the check settles on that answer. */
  lemma SucceedsOnLastAttempt(replies: seq<Reply<StartTimestamp>>)
    requires |replies| >= Retries
    requires forall j :: 0 <= j < Retries - 1 ==> replies[j].Thrown?
    requires replies[Retries - 1].Answer?
    ensures StatusCheck(replies, Retries) == Resolved(replies[Retries - 1].payload != Null)
  {
    StatusCheckFirstAnswerDecides(replies, Retries, Retries - 1);
  }

  /** `checkNodeStatus(wallet, retries)`: at most `retries` requests, one after another,
      stopping at the first answer. `attempts` is the number of requests made. */
  method CheckNodeStatus(replies: seq<Reply<StartTimestamp>>, retries: nat) returns (c: Check, attempts: nat)
    requires retries <= |replies|
    ensures c == StatusCheck(replies, retries)
    ensures attempts == if c.Resolved? then FirstAnswer(replies, retries) + 1 else retries
  {
    attempts := 0;
    var i := 0;
    while i < retries
      invariant 0 <= i <= retries && attempts == i
      invariant retries > 0 ==> i < retries
      invariant forall j :: 0 <= j < i ==> replies[j].Thrown?
    {
      attempts := attempts + 1;
      match replies[i]
      case Answer(data) =>
        return Resolved(data != Null), attempts;
      case Thrown(error) =>
        if i == retries - 1 {
          return Rejected(ClassifyStatusFailure(error)), attempts;
        }
        // the 2-second wait before the next attempt is not modelled
      i := i + 1;
    }
    assert retries == 0;
    c := Undefined;
  }

  /** The `nodePoints` field of a wallet-details reply, or `None` when it is missing. */
  type NodePoints = Option<int>

  /** `response.data?.data?.nodePoints || 0`: a missing or zero reading is 0. */
  function PointsOrZero(p: NodePoints): (points: int)
    ensures points != 0 ==> p == Some(points)
    ensures p.None? ==> points == 0
    ensures p.Some? && p.value != 0 ==> points == p.value
  {
    if p.Some? && p.value != 0 then p.value else 0
  }

  /** `checkPoints(wallet)`: the reading, or a fresh Error naming the failure. */
  function CheckPoints(reply: Reply<NodePoints>): (r: Result<int>)
    ensures r.Ok? <==> reply.Answer?
    ensures r.Ok? ==> r.value == PointsOrZero(reply.payload)
    ensures r.Err? ==> r.error == Raised("Check points failed: " + reply.failure.message)
  {
    match reply
    case Answer(p) => Ok(PointsOrZero(p))
    case Thrown(error) => Err(Raised("Check points failed: " + error.message))
  }

  /** The `catch` of `updatePoints` (main.js:260-273): an Error that carries a response
      is replaced according to its HTTP status; one without a response is rethrown as it
      is. */
  function UpdatePointsCatch(f: Failure): (r: Failure)
    ensures f.response.None? ==> r == f
    ensures f.response.Some? ==> r.response.None? && r.code.None?
    ensures f.response == Some(500) ==> r.message == "Internal Server Error"
    ensures f.response == Some(504) ==> r.message == "Gateway Timeout"
    ensures f.response == Some(403) ==> r.message == "Node not activated"
    ensures f.response.Some? && f.response.value !in {500, 504, 403} ==>
      r.message == "Update points failed: " + f.message
  {
    match f.response
    case Some(status) =>
      if status == 500 then Raised("Internal Server Error")
      else if status == 504 then Raised("Gateway Timeout")
      else if status == 403 then Raised("Node not activated")
      else Raised("Update points failed: " + f.message)
    case None => f
  }

  /** `updatePoints(wallet)`: check the node is running (twenty attempts), then read the
      points. The inner calls only ever throw fresh Errors without a response, so the
      HTTP-status switch of its `catch` never changes what they threw. */
  function UpdatePoints(statusReplies: seq<Reply<StartTimestamp>>, pointsReply: Reply<NodePoints>): (r: Result<int>)
    requires Retries <= |statusReplies|
    ensures var c := StatusCheck(statusReplies, Retries);
      (Truthy(c) ==> r == CheckPoints(pointsReply)) &&
      (c.Rejected? ==> r == Err(c.failure)) &&
      (c == Resolved(false) ==> r == Err(Raised("Node not running")))
    ensures r.Err? ==> r.error.response.None? && |r.error.message| > 0
  {
    var c := StatusCheck(statusReplies, Retries);
    var attempt :=
      if c.Rejected? then Err(c.failure)
      else if !Truthy(c) then Err(Raised("Node not running"))
      else CheckPoints(pointsReply);
    match attempt
    case Ok(points) => Ok(points)
    case Err(error) => Err(UpdatePointsCatch(error))
  }

  /** The literal message of a successful node-action reply (main.js:211). */
  const ActionExecuted := "node action executed successfully"

  /** `signAndStart(wallet, privateKey)`: whether the reply reports the node action as
      executed, or a fresh Error naming the failure of signing or of the request. */
  function SignAndStart(reply: Reply<string>): (r: Result<bool>)
    ensures r.Ok? <==> reply.Answer?
    ensures r.Ok? ==> (r.value <==> reply.payload == ActionExecuted)
    ensures r.Err? ==> r.error == Raised("Node activation failed: " + reply.failure.message)
  {
    match reply
    case Answer(message) => Ok(message == ActionExecuted)
    case Thrown(error) => Err(Raised("Node activation failed: " + error.message))
  }
}
