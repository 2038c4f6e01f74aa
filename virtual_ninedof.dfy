/** The nine-degrees-of-freedom virtualizer: it gives one process at a time
    exclusive use of a downstream sensor driver. A request made while another
    process owns the driver is remembered in the requester's grant record and
    forwarded, in process-table order, when the owner's reading arrives.

    The downstream driver is outside the model: forwarding a command is an
    event on the trace, and the status it answers is a parameter. */
module VirtualNineDof {
  import opened Kernel

  /** The per-process grant record. */
  datatype NineDofApp = NineDofApp(callback: Option<Callback>, pendingCommand: bool, command: nat, arg1: nat)

  const DefaultApp := NineDofApp(None, false, 0, 0)

  /** What the virtualizer does outside itself, in order. */
  datatype Event =
    | Forward(command: nat, arg1: nat, appId: AppId)  // the downstream driver's `command`
    | Scheduled(upcall: Upcall)

  /** The first slot at or after `i` holding a queued request. */
  function FirstPending(apps: Grant<NineDofApp>, i: nat): (k: Option<nat>)
    requires i <= |apps|
    ensures k.Some? ==> i <= k.value < |apps| && apps[k.value].Some? && apps[k.value].value.pendingCommand
    decreases |apps| - i
  {
    if i == |apps| then None
    else if apps[i].Some? && apps[i].value.pendingCommand then Some(i)
    else FirstPending(apps, i + 1)
  }

  predicate Pending(apps: Grant<NineDofApp>, k: nat)
    requires k < |apps|
  {
    apps[k].Some? && apps[k].value.pendingCommand
  }

  /** The drain picks the queued request of the lowest slot, and there is one
      to pick exactly when some request is queued. */
  lemma {:induction false} FirstPendingIsLowest(apps: Grant<NineDofApp>, i: nat)
    requires i <= |apps|
    ensures var k := FirstPending(apps, i);
      (k.Some? ==> i <= k.value < |apps| && Pending(apps, k.value) &&
                   forall j :: i <= j < k.value ==> !Pending(apps, j)) &&
      (k.None? <==> forall j :: i <= j < |apps| ==> !Pending(apps, j))
    decreases |apps| - i
  {
    if i < |apps| && !Pending(apps, i) {
      FirstPendingIsLowest(apps, i + 1);
    }
  }

  /** The owner's record after its reading was delivered: its request flag is
      cleared (a default record is allocated if it had none). */
  function Released(apps: Grant<NineDofApp>, owner: Option<AppId>): (r: Grant<NineDofApp>)
    ensures |r| == |apps|
  {
    if owner.Some? && CanEnter(apps, owner.value) then
      apps[owner.value := Some(Entered(apps, owner.value, DefaultApp).(pendingCommand := false))]
    else apps
  }

  /** The upcall delivering the reading to the owner, if it subscribed. */
  function ReleaseEvents(apps: Grant<NineDofApp>, owner: Option<AppId>, a1: nat, a2: nat, a3: nat): seq<Event>
  {
    if owner.Some? && CanEnter(apps, owner.value) && Entered(apps, owner.value, DefaultApp).callback.Some? then
      [Scheduled(Upcall(Entered(apps, owner.value, DefaultApp).callback.value, a1, a2, a3))]
    else []
  }

  class NineDof {
    var apps: Grant<NineDofApp>
    var currentApp: Option<AppId>
    ghost var trace: seq<Event>

    constructor (processes: nat)
      ensures apps == seq(processes, _ => None) && currentApp == None && trace == []
    {
      apps := seq(processes, _ => None);
      currentApp := None;
      trace := [];
    }

    /** enqueue_command: with no owner the caller becomes the owner and its
        command goes to the downstream driver, whose answer (`status`) is
        returned, even when it is a failure; with an owner the command is
        stored in the caller's record, replacing any earlier one, and 0 is
        returned. -1 when the process has no grant. */
    method EnqueueCommand(commandNum: nat, arg1: nat, appId: AppId, status: int) returns (r: int)
      modifies this
      ensures !CanEnter(old(apps), appId) ==>
        r == -1 && apps == old(apps) && currentApp == old(currentApp) && trace == old(trace)
      ensures CanEnter(old(apps), appId) && old(currentApp).None? ==>
        r == status && currentApp == Some(appId) &&
        apps == old(apps)[appId := Some(Entered(old(apps), appId, DefaultApp))] &&
        trace == old(trace) + [Forward(commandNum, arg1, appId)]
      ensures CanEnter(old(apps), appId) && old(currentApp).Some? ==>
        r == 0 && currentApp == old(currentApp) && trace == old(trace) &&
        apps == old(apps)[appId := Some(Entered(old(apps), appId, DefaultApp).(
          pendingCommand := true, command := commandNum, arg1 := arg1))]
    {
      if !CanEnter(apps, appId) {
        return -1;
      }
      var app := Entered(apps, appId, DefaultApp);
      if currentApp.None? {
        apps := apps[appId := Some(app)];
        currentApp := Some(appId);
        trace := trace + [Forward(commandNum, arg1, appId)];
        r := status;
      } else {
        apps := apps[appId := Some(app.(pendingCommand := true, command := commandNum, arg1 := arg1))];
        r := 0;
      }
    }

    /** The drain loop: forward the first queued request and make its process
        the owner. The downstream driver's answer is discarded. */
    method StartFirstPending()
      modifies this
      ensures var k := FirstPending(old(apps), 0);
        (k.None? ==> apps == old(apps) && currentApp == old(currentApp) && trace == old(trace)) &&
        (k.Some? ==> (currentApp == k &&
           apps == old(apps)[k.value := Some(old(apps)[k.value].value.(pendingCommand := false))] &&
           trace == old(trace) +
             [Forward(old(apps)[k.value].value.command, old(apps)[k.value].value.arg1, k.value)]))
    {
      var i := 0;
      while i < |apps|
        invariant i <= |apps|
        invariant FirstPending(apps, i) == FirstPending(old(apps), 0)
        invariant apps == old(apps) && currentApp == old(currentApp) && trace == old(trace)
        decreases |apps| - i
      {
        if apps[i].Some? && apps[i].value.pendingCommand {
          var app := apps[i].value;
          apps := apps[i := Some(app.(pendingCommand := false))];
          currentApp := Some(i);
          trace := trace + [Forward(app.command, app.arg1, i)];
          return;
        }
        i := i + 1;
      }
    }

    /** The downstream driver's reading arrived: deliver it to the owner and
        release the driver, then forward the first queued request. */
    method Callback(a1: nat, a2: nat, a3: nat)
      modifies this
      ensures var rel := Released(old(apps), old(currentApp));
        var k := FirstPending(rel, 0);
        var up := ReleaseEvents(old(apps), old(currentApp), a1, a2, a3);
        (k.None? ==> apps == rel && currentApp == None && trace == old(trace) + up) &&
        (k.Some? ==> (currentApp == k &&
           apps == rel[k.value := Some(rel[k.value].value.(pendingCommand := false))] &&
           trace == old(trace) + up + [Forward(rel[k.value].value.command, rel[k.value].value.arg1, k.value)]))
    {
      if currentApp.Some? {
        var owner := currentApp.value;
        currentApp := None;
        if CanEnter(apps, owner) {
          var app := Entered(apps, owner, DefaultApp);
          apps := apps[owner := Some(app.(pendingCommand := false))];
          if app.callback.Some? {
            trace := trace + [Scheduled(Upcall(app.callback.value, a1, a2, a3))];
          }
        }
      }
      StartFirstPending();
    }

    method Subscribe(subscribeNum: nat, cb: Callback) returns (r: int)
      modifies this`apps
      ensures subscribeNum == 0 && CanEnter(old(apps), cb.appId) ==>
        r == 0 && apps == old(apps)[cb.appId := Some(Entered(old(apps), cb.appId, DefaultApp).(callback := Some(cb)))]
      ensures subscribeNum != 0 || !CanEnter(old(apps), cb.appId) ==> r == -1 && apps == old(apps)
    {
      if subscribeNum != 0 || !CanEnter(apps, cb.appId) {
        return -1;
      }
      var app := Entered(apps, cb.appId, DefaultApp);
      apps := apps[cb.appId := Some(app.(callback := Some(cb)))];
      r := 0;
    }

    /** 0 reports that the driver exists; 1 (acceleration) and 100
        (magnetometer) are enqueued; anything else is -1. */
    method Command(commandNum: nat, arg1: nat, appId: AppId, status: int) returns (r: int)
      modifies this
      ensures commandNum !in {1, 100} ==>
        r == (if commandNum == 0 then 0 else -1) &&
        apps == old(apps) && currentApp == old(currentApp) && trace == old(trace)
      ensures commandNum in {1, 100} && !CanEnter(old(apps), appId) ==>
        r == -1 && apps == old(apps) && currentApp == old(currentApp) && trace == old(trace)
      ensures commandNum in {1, 100} && CanEnter(old(apps), appId) && old(currentApp).None? ==>
        r == status && currentApp == Some(appId) &&
        apps == old(apps)[appId := Some(Entered(old(apps), appId, DefaultApp))] &&
        trace == old(trace) + [Forward(commandNum, arg1, appId)]
      ensures commandNum in {1, 100} && CanEnter(old(apps), appId) && old(currentApp).Some? ==>
        r == 0 && currentApp == old(currentApp) && trace == old(trace) &&
        apps == old(apps)[appId := Some(Entered(old(apps), appId, DefaultApp).(
          pendingCommand := true, command := commandNum, arg1 := arg1))]
    {
      if commandNum == 0 {
        r := 0;
      } else if commandNum == 1 || commandNum == 100 {
        r := EnqueueCommand(commandNum, arg1, appId, status);
      } else {
        r := -1;
      }
    }
  }

  /** Across a callback no queued request is lost and none is forwarded
      twice: the released owner's request is dropped, the forwarded process
      was queued and leaves the queue, every other process keeps its queued
      request, and nothing is forwarded only when no other process was queued. */
  lemma CallbackForwardsEachRequestOnce(apps: Grant<NineDofApp>, owner: Option<AppId>)
    ensures var rel := Released(apps, owner);
      var k := FirstPending(rel, 0);
      var after := if k.Some? then rel[k.value := Some(rel[k.value].value.(pendingCommand := false))] else rel;
      |after| == |apps| &&
      (owner.Some? && owner.value < |apps| ==> !Pending(after, owner.value)) &&
      (k.Some? ==> Some(k.value) != owner && Pending(apps, k.value) && !Pending(after, k.value)) &&
      (k.None? ==> forall j :: 0 <= j < |apps| && Some(j) != owner ==> !Pending(apps, j)) &&
      (forall j :: 0 <= j < |apps| && Some(j) != owner && Some(j) != k ==> Pending(after, j) == Pending(apps, j))
  {
    var rel := Released(apps, owner);
    FirstPendingIsLowest(rel, 0);
    forall j | 0 <= j < |apps| && Some(j) != owner
      ensures Pending(rel, j) == Pending(apps, j)
    {
      assert rel[j] == apps[j];
    }
  }
}
