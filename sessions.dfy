/** The per-wallet session: the stats record each wallet owns (main.js:89-96), the
    proxy map (`ProxyManager`, main.js:19-43), and the registry the dashboard keeps of
    wallets, keys, stats records and armed refresh timers (main.js:47-54), with the
    operations that fill and update it: `initialize` (main.js:61-117), `claimReward`
    (main.js:173-194), `startPing` (main.js:277-338) and the refresh tick
    (main.js:320-332). One wallet's workflow runs at a time; remote outcomes and the
    current time are inputs. */
module Sessions {
  import opened Common
  import opened Statuses
  import opened Remote
  import opened Loading

  /** A time shown in a stats record: "-" until set, then the time it was set. */
  datatype Stamp = Never | At(time: int)

  /** `result.nodePoints || stats.points`: a zero reading keeps the points shown. */
  function MergePoints(previous: int, reading: int): (points: int)
    ensures reading != 0 ==> points == reading
    ensures reading == 0 ==> points == previous
  {
    if reading != 0 then reading else previous
  }

  /** One wallet's stats record, updated in place by that wallet's workflow only. */
  class WalletStats {
    var status: Status
    var lastPing: Stamp
    var points: int
    var error: Option<string>
    const proxy: Option<string>
    var lastClaim: Stamp
    /** Every status assigned so far, in order. */
    ghost var trail: seq<Status>

    /** The record's invariant: its statuses form a walk of the workflow from Starting,
        Active shows no error, and Error always shows a non-empty message. */
    ghost predicate Valid()
      reads this
    {
      |trail| >= 1 && trail[0] == Starting && trail[|trail| - 1] == status && IsWalk(trail) &&
      (status == Active ==> error.None?) &&
      (status == Error ==> error.Some? && |error.value| > 0)
    }

    /** The record as `initialize` creates it: `Starting / "-" / 0 / null / proxy / "-"`,
        with nothing assigned since. */
    ghost predicate Initial()
      reads this
    {
      status == Starting && trail == [Starting] && lastPing == Never && points == 0 &&
      error == None && lastClaim == Never
    }

    constructor (proxy: Option<string>)
      ensures Initial() && this.proxy == proxy
    {
      status, lastPing, points, error, lastClaim := Starting, Never, 0, None, Never;
      this.proxy := proxy;
      trail := [Starting];
    }

    /** `stats.status = s`. */
    method Enter(s: Status)
      modifies this`status, this`trail
      ensures status == s && trail == old(trail) + [s]
    {
      status := s;
      trail := trail + [s];
    }

    /** A failed step (main.js:314-315 and 330-331): `status = "Error"`, `error = message`;
        the last ping, the points and the claim time stay as they were. */
    method Fail(message: string)
      modifies this
      ensures status == Error && error == Some(message) && trail == old(trail) + [Error]
      ensures lastPing == old(lastPing) && points == old(points) && lastClaim == old(lastClaim)
    {
      Enter(Error);
      error := Some(message);
    }

    /** A successful points refresh (main.js:309-312 and 324-327): the ping time, the
        merged reading, Active and no error; the claim time stays as it was. */
    method Refresh(reading: int, now: int)
      modifies this
      ensures status == Active && error == None && trail == old(trail) + [Active]
      ensures lastPing == At(now) && points == MergePoints(old(points), reading)
      ensures lastClaim == old(lastClaim)
    {
      lastPing := At(now);
      points := MergePoints(points, reading);
      Enter(Active);
      error := None;
    }
  }

  /** `ProxyManager`: a plain map from wallet address to its proxy. */
  class ProxyManager {
    var proxies: map<string, Option<string>>

    constructor ()
      ensures proxies == map[]
    {
      proxies := map[];
    }

    /** `getProxy(wallet)`: `undefined` for a wallet never given a proxy. */
    function GetProxy(wallet: string): (p: Option<string>)
      reads this
      ensures wallet !in proxies ==> p == None
    {
      if wallet in proxies then proxies[wallet] else None
    }

    /** `setProxy(wallet, proxy)`: the wallet now has that proxy, every other wallet
        keeps its own. */
    method SetProxy(wallet: string, proxy: Option<string>)
      modifies this
      ensures proxies == old(proxies)[wallet := proxy]
      ensures GetProxy(wallet) == proxy
      ensures forall w :: w != wallet ==> GetProxy(w) == old(GetProxy(w))
    {
      proxies := proxies[wallet := proxy];
    }
  }

  /** The remote outcomes one bootstrap sees, in the order it asks: the claim (whether
      `response.data.success` is truthy), the status check's successive requests, the
      node-action request (its reply message; a signing failure is a failure of this
      request), and, for `updatePoints`, its own status check and the points read. */
  datatype BootstrapReplies = BootstrapReplies(
    claim: Reply<bool>,
    status: seq<Reply<StartTimestamp>>,
    activation: Reply<string>,
    refreshStatus: seq<Reply<StartTimestamp>>,
    points: Reply<NodePoints>)

  /** Enough status replies for every attempt the two status checks may make. */
  predicate Complete(r: BootstrapReplies)
  {
    Retries <= |r.status| && Retries <= |r.refreshStatus|
  }

  /** Bootstrap activates the node when its status check settles to a falsy value. */
  predicate Activates(r: BootstrapReplies)
    requires Complete(r)
  {
    var c := StatusCheck(r.status, Retries);
    !c.Rejected? && !Truthy(c)
  }

  /** What the bootstrap settles to: the points reading, or the Error that stopped it.
      The claim never stops it, and the result of the node action is not looked at. */
  function Bootstrap(hasKey: bool, r: BootstrapReplies): (result: Result<int>)
    requires Complete(r)
    ensures result.Err? ==> |result.error.message| > 0
    ensures !hasKey ==> result == Err(Raised("Private key not found"))
    ensures hasKey && StatusCheck(r.status, Retries).Rejected? ==>
      result == Err(StatusCheck(r.status, Retries).failure)
    ensures hasKey && Truthy(StatusCheck(r.status, Retries)) ==>
      result == UpdatePoints(r.refreshStatus, r.points)
    ensures hasKey && Activates(r) && r.activation.Thrown? ==>
      result == Err(Raised("Node activation failed: " + r.activation.failure.message))
    ensures hasKey && Activates(r) && r.activation.Answer? ==>
      result == UpdatePoints(r.refreshStatus, r.points)
  {
    if !hasKey then Err(Raised("Private key not found"))
    else
      var c := StatusCheck(r.status, Retries);
      if c.Rejected? then Err(c.failure)
      else if Activates(r) && SignAndStart(r.activation).Err? then Err(SignAndStart(r.activation).error)
      else UpdatePoints(r.refreshStatus, r.points)
  }

  /** Neither the claim's reply nor the message of an answered node action changes what
      the bootstrap settles to: a failed claim never aborts it, and the boolean
      `signAndStart` returns is never looked at. */
  lemma BootstrapIgnoresClaimAndActionResult(hasKey: bool, r: BootstrapReplies, message: string, claim: Reply<bool>)
    requires Complete(r) && r.activation.Answer?
    ensures Bootstrap(hasKey, r) == Bootstrap(hasKey, r.(activation := Answer(message), claim := claim))
  {
  }

  /** A node that is not running and whose activation request fails stops the bootstrap
      with the activation Error; the points are not read. */
  lemma FailedActivationStops(r: BootstrapReplies)
    requires Complete(r) && StatusCheck(r.status, Retries) == Resolved(false) && r.activation.Thrown?
    ensures Bootstrap(true, r) == Err(Raised("Node activation failed: " + r.activation.failure.message))
    ensures Path(true, r) == [CheckingStatus, Claiming, Activating, Error]
  {
  }

  /** A node that is not running and whose activation request is answered goes through
      Activating and Activated, and the bootstrap settles to the points reading. */
  lemma ActivatedNodeRefreshes(r: BootstrapReplies)
    requires Complete(r) && StatusCheck(r.status, Retries) == Resolved(false) && r.activation.Answer?
    ensures Bootstrap(true, r) == UpdatePoints(r.refreshStatus, r.points)
    ensures Path(true, r) ==
      [CheckingStatus, Claiming, Activating, Activated,
       if UpdatePoints(r.refreshStatus, r.points).Ok? then Active else Error]
  {
  }

  /** The statuses the `try` block of bootstrap assigns before it settles, in order. */
  function Steps(hasKey: bool, r: BootstrapReplies): seq<Status>
    requires Complete(r)
  {
    if !hasKey then []
    else
      [CheckingStatus, Claiming] +
      (if Activates(r) then [Activating] + (if SignAndStart(r.activation).Ok? then [Activated] else []) else [])
  }

  /** The statuses the bootstrap assigns, in order: its steps, then Active or Error. */
  function Path(hasKey: bool, r: BootstrapReplies): seq<Status>
    requires Complete(r)
  {
    Steps(hasKey, r) + [if Bootstrap(hasKey, r).Ok? then Active else Error]
  }

  /** The record `s` after a bootstrap that found it with statuses `trail`, claim time
      `lastClaim`, ping time `lastPing` and `points`: the bootstrap's statuses were added,
      the claim time is set by a successful claim, and the record shows the outcome —
      Active, no error, the ping time and the merged reading on success; Error with its
      message, the old ping time and points on failure. The clock is read twice: at
      `claimTime` when the claim succeeds, and at `pingTime` after the points are read. */
  ghost predicate Settled(s: WalletStats, trail: seq<Status>, lastClaim: Stamp, lastPing: Stamp, points: int,
                          hasKey: bool, r: BootstrapReplies, claimTime: int, pingTime: int)
    requires Complete(r)
    reads s
  {
    var outcome := Bootstrap(hasKey, r);
    s.trail == trail + Path(hasKey, r) &&
    s.lastClaim == (if hasKey && r.claim == Answer(true) then At(claimTime) else lastClaim) &&
    (outcome.Ok? ==>
      s.status == Active && s.error == None && s.lastPing == At(pingTime) &&
      s.points == MergePoints(points, outcome.value)) &&
    (outcome.Err? ==>
      s.status == Error && s.error == Some(outcome.error.message) &&
      s.lastPing == lastPing && s.points == points)
  }

  /** The bootstrap's statuses follow the workflow from Starting and end in Active exactly
      when it succeeds. `StartPing` would also run it on a record that shows Error (a
      wallet without a refresh timer whose bootstrap failed), so the lemma allows that
      start too, although `initialize` starts each registration's bootstrap only once. */
  lemma BootstrapWalk(trail: seq<Status>, hasKey: bool, r: BootstrapReplies)
    requires Complete(r) && IsWalk(trail) && |trail| >= 1
    requires trail[|trail| - 1] == Starting || trail[|trail| - 1] == Error
    ensures IsWalk(trail + Path(hasKey, r))
    ensures var path := Path(hasKey, r);
      |path| >= 1 && (path[|path| - 1] == Active <==> Bootstrap(hasKey, r).Ok?) &&
      (path[|path| - 1] == Error <==> Bootstrap(hasKey, r).Err?)
  {
    var path := Path(hasKey, r);
    assert IsWalk(path) by {
      if hasKey {
        forall i | 0 <= i < |path| - 1
          ensures Next(path[i], path[i + 1])
        {
        }
      }
    }
    WalkConcat(trail, path);
  }

  /** A node already running at the first check is never activated: bootstrap goes from
      Claiming straight to refreshing the points. */
  lemma RunningNodeSkipsActivation(r: BootstrapReplies)
    requires Complete(r) && Truthy(StatusCheck(r.status, Retries))
    ensures Activating !in Path(true, r) && Activated !in Path(true, r)
    ensures Path(true, r) ==
      [CheckingStatus, Claiming, if UpdatePoints(r.refreshStatus, r.points).Ok? then Active else Error]
  {
  }

  /** A bootstrap run on a valid record that shows Starting or Error leaves it valid,
      showing Active when the bootstrap succeeded and Error when it failed. */
  lemma SettledValid(s: WalletStats, trail: seq<Status>, lastClaim: Stamp, lastPing: Stamp, points: int,
                     hasKey: bool, r: BootstrapReplies, claimTime: int, pingTime: int)
    requires Complete(r) && Settled(s, trail, lastClaim, lastPing, points, hasKey, r, claimTime, pingTime)
    requires |trail| >= 1 && trail[0] == Starting && IsWalk(trail)
    requires trail[|trail| - 1] == Starting || trail[|trail| - 1] == Error
    ensures s.Valid()
    ensures s.status == (if Bootstrap(hasKey, r).Ok? then Active else Error)
  {
    BootstrapWalk(trail, hasKey, r);
  }

  /** Every registered wallet has the key, the proxy and a record holding the proxy of
      its latest registration in `latest`. */
  ghost predicate Mirrored(keys: map<string, string>, proxies: map<string, Option<string>>,
                           stats: map<string, WalletStats>, latest: map<string, Registration>)
  {
    stats.Keys == latest.Keys && keys.Keys == latest.Keys && proxies.Keys == latest.Keys &&
    forall a :: a in latest ==>
      keys[a] == latest[a].key && proxies[a] == latest[a].proxy && stats[a].proxy == latest[a].proxy
  }

  /** Storing a registration in all three maps keeps them mirroring the latest
      registrations. */
  lemma MirroredStore(keys: map<string, string>, proxies: map<string, Option<string>>,
                      stats: map<string, WalletStats>, latest: map<string, Registration>,
                      reg: Registration, record: WalletStats)
    requires Mirrored(keys, proxies, stats, latest) && record.proxy == reg.proxy
    ensures Mirrored(keys[reg.address := reg.key], proxies[reg.address := reg.proxy],
                     stats[reg.address := record], latest[reg.address := reg])
  {
  }

  /** A wallet with a refresh timer is Active or Error; one without is Starting or Error
      (its bootstrap has not run, or failed). */
  predicate TimerFits(armed: bool, status: Status)
  {
    if armed then status == Active || status == Error else status == Starting || status == Error
  }

  /** The dashboard's registry of wallets. */
  class Registry {
    /** `wallets`: the addresses, in the order they were registered. */
    var wallets: seq<string>
    var privateKeys: map<string, string>
    /** `walletStats`. */
    var stats: map<string, WalletStats>
    /** The wallets that have a refresh timer (`pingIntervals`). */
    var armed: set<string>
    const proxyManager: ProxyManager

    /** Distinct wallets own distinct stats records. */
    ghost predicate Distinct()
      reads this
    {
      forall a, b :: a in stats && b in stats && a != b ==> stats[a] != stats[b]
    }

    /** One record per wallet, each valid and with a status that fits whether the wallet
        has a refresh timer; only registered wallets have one. */
    ghost predicate Valid()
      reads this, stats.Values
    {
      Distinct() && armed <= stats.Keys &&
      (forall a :: a in stats ==> stats[a].Valid()) &&
      (forall a :: a in stats ==> TimerFits(a in armed, stats[a].status))
    }

    /** The dashboard as constructed (main.js:46-59): nothing registered. */
    constructor ()
      ensures Valid() && fresh(proxyManager)
      ensures wallets == [] && privateKeys == map[] && stats == map[] && armed == {}
      ensures proxyManager.proxies == map[]
    {
      wallets, privateKeys, stats, armed := [], map[], map[], {};
      proxyManager := new ProxyManager();
    }

    /** The registry mirrors `latest`: see `Mirrored`. */
    ghost predicate Mirrors(latest: map<string, Registration>)
      reads this, proxyManager
    {
      Mirrored(privateKeys, proxyManager.proxies, stats, latest)
    }

    /** Every record is as `initialize` creates it. */
    ghost predicate Pristine()
      reads this, stats.Values
    {
      forall a :: a in stats ==> stats[a].Initial()
    }

    /** `walletStats.set(address, {...})` (main.js:89-96): a fresh record holding the
        proxy, in place of any earlier one. */
    method AddRecord(address: string, proxy: Option<string>) returns (record: WalletStats)
      requires Pristine() && Distinct()
      modifies this`stats
      ensures Pristine() && Distinct()
      ensures stats == old(stats)[address := record] && fresh(record) && record.proxy == proxy
    {
      record := new WalletStats(proxy);
      stats := stats[address := record];
    }

    /** One registration of `initialize` (main.js:85-96): the address is pushed, its key
        and proxy are set, and it gets a fresh record in place of any earlier one. */
    method Register(reg: Registration, ghost latest: map<string, Registration>)
      requires Pristine() && Distinct() && Mirrors(latest)
      modifies this`wallets, this`privateKeys, this`stats, proxyManager
      ensures Pristine() && Distinct() && Mirrors(latest[reg.address := reg])
      ensures wallets == old(wallets) + [reg.address]
    {
      wallets := wallets + [reg.address];
      privateKeys := privateKeys[reg.address := reg.key];
      proxyManager.SetProxy(reg.address, reg.proxy);
      var record := AddRecord(reg.address, reg.proxy);
      MirroredStore(old(privateKeys), old(proxyManager.proxies), old(stats), latest, reg, record);
    }

    /** The registry holds the registrations of the first `n` keys. */
    ghost predicate Registered(keys: seq<string>, proxies: seq<string>, derive: string -> Option<string>, n: nat)
      requires n <= |keys|
      reads this, proxyManager
    {
      var regs := Assign(keys, proxies, derive, n);
      wallets == Addresses(regs) && Mirrors(Latest(regs))
    }

    /** One key of `initialize` (main.js:80-103): registered when its wallet can be
        built, otherwise reported and skipped, its position's proxy going unused. */
    method RegisterKey(keys: seq<string>, proxies: seq<string>, derive: string -> Option<string>, i: nat)
      requires i < |keys| && Registered(keys, proxies, derive, i) && Pristine() && Distinct()
      modifies this`wallets, this`privateKeys, this`stats, proxyManager
      ensures Registered(keys, proxies, derive, i + 1) && Pristine() && Distinct()
    {
      AssignStep(keys, proxies, derive, i);
      match derive(keys[i]) {
        case None =>
        case Some(address) =>
          Register(Registration(address, keys[i], i, ProxyAt(proxies, i)), Latest(Assign(keys, proxies, derive, i)));
      }
    }

    /** The loop of `initialize` (main.js:79-104) over the cleaned keys: every key whose
        wallet can be built (`derive` stands for `new Wallet(key).address`) is registered
        with the proxy at the key's position and a fresh stats record; a key that gives no
        wallet is skipped. */
    method RegisterAll(keys: seq<string>, proxies: seq<string>, derive: string -> Option<string>)
      requires stats == map[] && armed == {} && proxyManager.proxies == map[]
      modifies this`wallets, this`privateKeys, this`stats, proxyManager
      ensures Pristine() && Distinct() && Registered(keys, proxies, derive, |keys|)
    {
      wallets := [];
      privateKeys := map[];
      assert Assign(keys, proxies, derive, 0) == [];
      var i := 0;
      while i < |keys|
        invariant 0 <= i <= |keys|
        invariant Registered(keys, proxies, derive, i) && Pristine() && Distinct()
      {
        RegisterKey(keys, proxies, derive, i);
        i := i + 1;
      }
    }

    /** The registration part of `initialize`: the keys of the key file, cleaned, and
        the non-blank proxies are registered by position. Registering nothing is fatal.
        Starting each wallet's bootstrap is `StartPing`. */
    method Initialize(keyText: string, proxyText: Option<string>, derive: string -> Option<string>)
      returns (fatal: bool)
      requires stats == map[] && armed == {} && proxyManager.proxies == map[]
      modifies this, proxyManager
      ensures Valid() && Pristine() && armed == {}
      ensures var keys := KeyLines(keyText);
        var regs := Assign(keys, ValidProxies(proxyText), derive, |keys|);
        wallets == Addresses(regs) && Mirrors(Latest(regs))
      ensures fatal <==> wallets == []
    {
      RegisterAll(KeyLines(keyText), ValidProxies(proxyText), derive);
      FreshRegistryValid(this);
      fatal := |wallets| == 0;
    }

    /** `claimReward(wallet)`: shows Claiming, and records the claim time when the reply
        reports success. It never throws: a failed request only yields `false`. */
    method ClaimReward(wallet: string, reply: Reply<bool>, now: int) returns (claimed: bool)
      requires wallet in stats
      modifies stats[wallet]
      ensures claimed <==> reply == Answer(true)
      ensures var s := stats[wallet];
        s.status == Claiming && s.trail == old(s.trail) + [Claiming] &&
        s.lastClaim == (if claimed then At(now) else old(s.lastClaim)) &&
        s.lastPing == old(s.lastPing) && s.points == old(s.points) && s.error == old(s.error)
    {
      var s := stats[wallet];
      s.Enter(Claiming);
      match reply
      case Answer(success) =>
        if success {
          s.lastClaim := At(now);
          return true;
        }
        return false;
      case Thrown(_) =>
        // the failure is only logged
        return false;
    }

    /** The `try` block of `startPing` (main.js:285-308) up to its result: the record
        goes through the statuses of `Steps` and the claim time may be set; the result is
        the outcome of `Bootstrap`. */
    method TryBootstrap(wallet: string, privateKey: string, r: BootstrapReplies, claimTime: int)
      returns (outcome: Result<int>)
      requires wallet in stats && Complete(r)
      modifies stats[wallet]
      ensures outcome == Bootstrap(privateKey != "", r)
      ensures var s := stats[wallet];
        s.trail == old(s.trail) + Steps(privateKey != "", r) &&
        s.lastClaim == (if privateKey != "" && r.claim == Answer(true) then At(claimTime) else old(s.lastClaim)) &&
        s.lastPing == old(s.lastPing) && s.points == old(s.points)
      ensures var s := stats[wallet];
        var steps := Steps(privateKey != "", r);
        s.status == (if steps == [] then old(s.status) else steps[|steps| - 1]) &&
        s.error == old(s.error)
    {
      var s := stats[wallet];
      if privateKey == "" {
        return Err(Raised("Private key not found"));
      }
      s.Enter(CheckingStatus);
      var _ := ClaimReward(wallet, r.claim, claimTime);
      var running, _ := CheckNodeStatus(r.status, Retries);
      if running.Rejected? {
        return Err(running.failure);
      }
      if !Truthy(running) {
        s.Enter(Activating);
        var activation := SignAndStart(r.activation);
        if activation.Err? {
          return Err(activation.error);
        }
        s.Enter(Activated);
        // the 5-second grace period is not modelled
      }
      outcome := UpdatePoints(r.refreshStatus, r.points);
    }

    /** The bootstrap of `startPing` (main.js:284-318): the `try` block, then either its
        last assignments (Active, the ping time and the merged reading) or the `catch`
        (Error with the message). The claim is stamped with the clock reading `claimTime`
        and the ping with the later reading `pingTime`. */
    method RunBootstrap(wallet: string, privateKey: string, r: BootstrapReplies, claimTime: int, pingTime: int)
      returns (ok: bool)
      requires wallet in stats && Complete(r)
      modifies stats[wallet]
      ensures ok == Bootstrap(privateKey != "", r).Ok?
      ensures var s := stats[wallet];
        Settled(s, old(s.trail), old(s.lastClaim), old(s.lastPing), old(s.points), privateKey != "", r, claimTime, pingTime)
    {
      var outcome := TryBootstrap(wallet, privateKey, r, claimTime);
      var s := stats[wallet];
      match outcome {
        case Ok(points) =>
          s.Refresh(points, pingTime);
        case Err(failure) =>
          s.Fail(failure.message);
      }
      ok := outcome.Ok?;
    }

    /** `startPing(wallet)`: a wallet that already has a refresh timer is left alone;
        otherwise the bootstrap runs, and only when it succeeds is the wallet armed. */
    method StartPing(wallet: string, r: BootstrapReplies, claimTime: int, pingTime: int)
      requires Valid() && wallet in stats && Complete(r)
      modifies stats[wallet], this`armed
      ensures Valid()
      ensures old(wallet in armed) ==> armed == old(armed) && unchanged(stats[wallet])
      ensures wallet !in old(armed) ==>
        var hasKey := wallet in privateKeys && privateKeys[wallet] != "";
        var s := stats[wallet];
        Settled(s, old(s.trail), old(s.lastClaim), old(s.lastPing), old(s.points), hasKey, r, claimTime, pingTime) &&
        armed == (if Bootstrap(hasKey, r).Ok? then old(armed) + {wallet} else old(armed))
    {
      if wallet !in armed {
        var s := stats[wallet];
        var privateKey := if wallet in privateKeys then privateKeys[wallet] else "";
        assert s.Valid() && TimerFits(false, s.status);
        ghost var trail, lastClaim, lastPing, points := s.trail, s.lastClaim, s.lastPing, s.points;
        var ok := RunBootstrap(wallet, privateKey, r, claimTime, pingTime);
        SettledValid(s, trail, lastClaim, lastPing, points, privateKey != "", r, claimTime, pingTime);
        if ok {
          armed := armed + {wallet};
        }
        forall a | a in stats
          ensures stats[a].Valid() && TimerFits(a in armed, stats[a].status)
        {
          if a != wallet {
            assert stats[a] != s;
            assert old(stats[a].Valid() && TimerFits(a in armed, stats[a].status));
          }
        }
      }
    }

    /** One tick of a wallet's refresh timer: `updatePoints` again, Active with the new
        reading on success, Error with the message on failure. The timer stays armed
        either way and the claim time is untouched. */
    method RefreshTick(wallet: string, statusReplies: seq<Reply<StartTimestamp>>, pointsReply: Reply<NodePoints>, now: int)
      requires Valid() && wallet in armed && Retries <= |statusReplies|
      modifies stats[wallet]
      ensures Valid()
      ensures var result := UpdatePoints(statusReplies, pointsReply);
        var s := stats[wallet];
        s.trail == old(s.trail) + [s.status] && s.lastClaim == old(s.lastClaim) &&
        (result.Ok? ==>
          s.status == Active && s.error == None && s.lastPing == At(now) &&
          s.points == MergePoints(old(s.points), result.value)) &&
        (result.Err? ==>
          s.status == Error && s.error == Some(result.error.message) &&
          s.lastPing == old(s.lastPing) && s.points == old(s.points))
    {
      var s := stats[wallet];
      assert s.Valid() && TimerFits(true, s.status);
      var result := UpdatePoints(statusReplies, pointsReply);
      match result {
        case Ok(reading) =>
          s.Refresh(reading, now);
        case Err(failure) =>
          s.Fail(failure.message);
      }
      WalkConcat(old(s.trail), [s.status]);
      assert s.Valid() && TimerFits(true, s.status);
    }
  }

  /** A registry whose records are all as created and none of whose wallets has a refresh
      timer is valid. */
  lemma FreshRegistryValid(registry: Registry)
    requires registry.Pristine() && registry.Distinct() && registry.armed == {}
    ensures registry.Valid()
  {
    forall a | a in registry.stats
      ensures registry.stats[a].Valid() && TimerFits(false, registry.stats[a].status)
    {
      assert registry.stats[a].Initial();
    }
  }
}
