/**
 Registration of devices by HWID: all or nothing across the user's nodes, the device
 limit in every reachable state, and what a rolled-back registration leaves behind.
 One request is taken as atomic.
 */
module Devices {
  import opened Wrappers
  import opened Decimal
  import opened Entities
  import opened XrayConfig
  import opened Rendering
  import opened ConfigApply
  import opened Requests
  import opened Agreement
  import opened Rollbacks
  import opened Runs

  // ---------- all or nothing ----------

  /** The node runs a configuration that lets the device in. */
  ghost predicate Admits(sys: System, n: NodeId, u: User, d: Device) {
    n in sys.deployed && AkfaClient(u, d) in sys.deployed[n].clients
  }

  /**
   A registration either leaves the database untouched, or the device is in the table
   and every node the user may use has received a configuration that admits it.
   */
  lemma NewDeviceAllOrNothing(sys: System, req: Request, attempts: NodeId -> Attempt)
    requires ValidDb(sys.db) && req.RegisterDevice? && req.hwid != Some("")
    ensures var next := Step(sys, req, attempts);
            || next.db == sys.db
            || exists u :: && u in next.db.users && u.id == req.u && req.hwid.Some? && NewDevice(req) in u.devices
                           && forall n :: n in EffectiveNodeIds(u, next.db.profiles) ==>
                              Admits(next, n, u, NewDevice(req))
  {
    var plan := PlanOf(sys.db, req);
    var next := Step(sys, req, attempts);
    if plan.Push? && !RollsBack(sys, req, attempts) {
      var i := FindUser(sys.db.users, req.u).value;
      var u, d := plan.db.users[i], NewDevice(req);
      var planned := System(plan.db, sys.deployed);
      forall n | n in EffectiveNodeIds(u, next.db.profiles)
        ensures Admits(next, n, u, d)
      {
        assert n in plan.targets;
        RegistrationIsRendered(planned, plan.targets, attempts, n, i, d);
      }
      assert u in next.db.users && d in u.devices;
    }
  }

  /**
   Removing a device or resetting them either leaves the database untouched, or every
   node the user may use has been sent a configuration without the removed devices.
   */
  lemma RemovedDeviceIsGoneEverywhere(sys: System, req: Request, attempts: NodeId -> Attempt, gone: Device, n: NodeId)
    requires ValidDb(sys.db) && (req.RemoveDevice? || req.ResetDevices?)
    requires FindUser(sys.db.users, req.u).Some?
    requires var u := sys.db.users[FindUser(sys.db.users, req.u).value];
             gone in u.devices && (req.RemoveDevice? ==> gone.id == req.d) && n in EffectiveNodeIds(u, sys.db.profiles)
    ensures var next := Step(sys, req, attempts);
            || next.db == sys.db
            || (n in next.deployed
                && forall c :: c in next.deployed[n].clients && c.ClientEntry? ==>
                   c.email != Some(DeviceEmail(req.u, gone.id)))
  {
    if PlanOf(sys.db, req).Push? && !RollsBack(sys, req, attempts) {
      CommittedPush(sys, req, attempts);
      NoRowAfterRemoval(sys.db, req, gone);
      PushedWithoutRow(System(PlanOf(sys.db, req).db, sys.deployed), PlanOf(sys.db, req).targets, attempts, n, req.u,
                       gone.id);
    }
  }

  /** A removal that commits has been applied at every node of the user. */
  lemma CommittedPush(sys: System, req: Request, attempts: NodeId -> Attempt)
    requires (req.RemoveDevice? || req.ResetDevices?) && PlanOf(sys.db, req).Push? && !RollsBack(sys, req, attempts)
    ensures var plan := PlanOf(sys.db, req);
            var planned := System(plan.db, sys.deployed);
            && Step(sys, req, attempts) == AfterApply(planned, plan.targets, false, attempts)
            && plan.targets == EffectiveNodeIds(sys.db.users[FindUser(sys.db.users, req.u).value], sys.db.profiles)
            && forall n :: n in plan.targets ==>
               n in planned.db.nodes && StepAt(planned, n, false, attempts).status == ResultSuccess
  {
    RevocablePlan(sys.db, req);
  }

  lemma PushedWithoutRow(planned: System, targets: set<NodeId>, attempts: NodeId -> Attempt, n: NodeId, id: UserId,
                         d: DeviceId)
    requires n in targets && n in planned.db.nodes && StepAt(planned, n, false, attempts).status == ResultSuccess
    requires NoRow(planned.db.users, id, d)
    ensures var after := AfterApply(planned, targets, false, attempts);
            n in after.deployed && forall c :: c in after.deployed[n].clients && c.ClientEntry? ==>
                c.email != Some(DeviceEmail(id, d))
  {
    var after := AfterApply(planned, targets, false, attempts);
    SuccessIsDeployed(planned, targets, false, attempts, n);
    forall c | c in after.deployed[n].clients && c.ClientEntry?
      ensures c.email != Some(DeviceEmail(id, d))
    {
      NoRowNoClient(after.db, n, id, d, c);
    }
  }

  lemma NoRowAfterRemoval(db: Db, req: Request, gone: Device)
    requires ValidDb(db) && (req.RemoveDevice? || req.ResetDevices?) && FindUser(db.users, req.u).Some?
    requires gone in db.users[FindUser(db.users, req.u).value].devices && (req.RemoveDevice? ==> gone.id == req.d)
    requires PlanOf(db, req).Push?
    ensures NoRow(PlanOf(db, req).db.users, req.u, gone.id)
  {
    var i := FindUser(db.users, req.u).value;
    RevocablePlan(db, req);
    assert db.users[i] in db.users;
    if req.RemoveDevice? {
      RemovedIdIsGone(db.users[i].devices, FindDevice(db.users[i].devices, req.d).value);
    }
    SetUserNoRow(db, i, PlanOf(db, req).db.users[i], gone.id);
  }

  lemma RemovedIdIsGone(devices: seq<Device>, k: nat)
    requires k < |devices| && forall i, j :: 0 <= i < j < |devices| ==> devices[i].id != devices[j].id
    ensures forall e :: e in RemoveAt(devices, k) ==> e.id != devices[k].id
  {
  }

  lemma SetUserNoRow(db: Db, i: nat, u: User, d: DeviceId)
    requires ValidDb(db) && i < |db.users| && u.id == db.users[i].id && forall e :: e in u.devices ==> e.id != d
    ensures NoRow(SetUser(db, i, u).users, u.id, d)
  {
    var users := SetUser(db, i, u).users;
    assert forall k :: 0 <= k < |users| && k != i ==> users[k].id != u.id;
  }

  /**
   A rolled-back registration is undone in the database only.  A server that did not let
   the device in before does so afterwards, although no row mentions it, exactly when its
   attempt applied the new configuration or failed leaving one with the device.
   */
  lemma RollbackLeavesGhostClient(sys: System, req: Request, attempts: NodeId -> Attempt, n: NodeId)
    requires ValidDb(sys.db) && ValidLists(sys.db.profiles) && req.RegisterDevice? && FreshDevice(sys.db, req)
    requires RollsBack(sys, req, attempts)
    requires n in PlanOf(sys.db, req).targets && n in sys.db.nodes
    requires !Admits(sys, n, Registrant(sys.db, req), NewDevice(req))
    ensures Step(sys, req, attempts).db == sys.db
    ensures Admits(Step(sys, req, attempts), n, Registrant(sys.db, req), NewDevice(req)) <==>
            && sys.db.nodes[n].status == NodeStatus.Online && HasInstalledXray(sys.db.nodes[n])
            && LeavesClient(attempts(n).outcome, AkfaClient(Registrant(sys.db, req), NewDevice(req)))
  {
    var plan := PlanOf(sys.db, req);
    var planned := System(plan.db, sys.deployed);
    RevocablePlan(sys.db, req);
    if sys.db.nodes[n].status == NodeStatus.Online && HasInstalledXray(sys.db.nodes[n]) {
      AttemptLeaves(planned, n, attempts);
      if attempts(n).outcome.Applied? {
        RegistrationIsRendered(planned, plan.targets, attempts, n, FindUser(sys.db.users, req.u).value, NewDevice(req));
      }
    }
  }

  function Registrant(db: Db, req: Request): User
    requires req.RegisterDevice? && PlanOf(db, req).Push?
  {
    db.users[FindUser(db.users, req.u).value]
  }

  /** The outcome of an attempt on the new configuration leaves the client on the server. */
  predicate LeavesClient(outcome: Outcome, c: ClientEntry) {
    match outcome
    case Applied => true
    case Rejected(leaves, _) => leaves.Some? && c in leaves.value.clients
    case TimedOut(leaves) => leaves.Some? && c in leaves.value.clients
    case NotStarted => false
  }

  lemma RegistrationIsRendered(planned: System, targets: set<NodeId>, attempts: NodeId -> Attempt, n: NodeId, i: nat,
                               d: Device)
    requires forall m :: m in planned.db.nodes ==> planned.db.nodes[m].id == m
    requires n in targets && n in planned.db.nodes && i < |planned.db.users|
    requires StepAt(planned, n, false, attempts).status == ResultSuccess
    requires var u := planned.db.users[i];
             d in u.devices && Serves(d) && u.status == UserStatus.Active
                 && n in EffectiveNodeIds(u, planned.db.profiles)
    ensures Admits(AfterApply(planned, targets, false, attempts), n, planned.db.users[i], d)
  {
    SuccessIsDeployed(planned, targets, false, attempts, n);
    RenderedClientsIncludeOwn(AfterApply(planned, targets, false, attempts).db, n, planned.db.users[i], d);
  }

  // ---------- the device limit ----------

  /** Where the active devices with a HWID stand in the list. */
  ghost function ActivePlaces(devices: seq<Device>): set<int> {
    set i | 0 <= i < |devices|
            && devices[i].status == DeviceStatus.Active && devices[i].hwidHash.Some? && devices[i].hwidHash.value != ""
  }

  lemma PlacesOneMore(devices: seq<Device>)
    requires devices != []
    ensures var init, n := devices[..|devices| - 1], |devices| - 1;
            n !in ActivePlaces(init) && ActivePlaces(devices) ==
            ActivePlaces(init) + (if Serves(devices[n]) then {n} else {})
  {
  }

  /** The number the code compares with the limit is the number of active devices with a HWID. */
  lemma {:induction false} CountIsOfPlaces(devices: seq<Device>)
    ensures |ServingDevices(devices)| == |ActivePlaces(devices)|
  {
    if devices != [] {
      CountIsOfPlaces(devices[..|devices| - 1]);
      PlacesOneMore(devices);
    }
  }

  /** No user exceeds the limit, and no two devices of a user share a HWID hash. */
  ghost predicate WithinLimit(u: User) {
    && |ActivePlaces(u.devices)| <= u.deviceLimit
    && forall i, j :: 0 <= i < j < |u.devices| && u.devices[i].hwidHash.Some? ==>
       u.devices[i].hwidHash != u.devices[j].hwidHash
  }

  ghost predicate LimitsHold(users: seq<User>) {
    forall u :: u in users ==> WithinLimit(u)
  }

  lemma RemovalKeepsLimit(u: User, k: nat)
    requires k < |u.devices| && WithinLimit(u)
    ensures WithinLimit(u.(devices := RemoveAt(u.devices, k)))
  {
    RemovalCount(u.devices, k);
    CountIsOfPlaces(u.devices);
    CountIsOfPlaces(RemoveAt(u.devices, k));
  }

  lemma RegistrationKeepsLimit(u: User, hwid: string, id: DeviceId, uuid: string)
    requires WithinLimit(u) && ActiveDevicesCount(BeforeRegistration(u, hwid)) < u.deviceLimit
    ensures WithinLimit(Registered(u, hwid, id, uuid))
  {
    var before := BeforeRegistration(u, hwid);
    var found := FindHwid(u.devices, hwid);
    if found.Some? {
      RemovalKeepsLimit(u, found.value);
    }
    HwidIsFree(u, hwid);
    OneMorePlace(before.devices, Device(id, uuid, DeviceStatus.Active, Some(hwid)));
    CountIsOfPlaces(before.devices);
    NewHwidKeepsLimit(before, Device(id, uuid, DeviceStatus.Active, Some(hwid)));
  }

  lemma OneMorePlace(devices: seq<Device>, d: Device)
    ensures |ActivePlaces(devices + [d])| <= |ActivePlaces(devices)| + 1
  {
    CountIsOfPlaces(devices);
    CountIsOfPlaces(devices + [d]);
    ServingAppend(devices, [d]);
    ServingOne(d);
  }

  lemma NewHwidKeepsLimit(u: User, d: Device)
    requires WithinLimit(u) && |ActivePlaces(u.devices + [d])| <= u.deviceLimit
    requires forall e :: e in u.devices ==> e.hwidHash != d.hwidHash
    ensures WithinLimit(u.(devices := u.devices + [d]))
  {
    assert forall i :: 0 <= i < |u.devices| ==> u.devices[i] in u.devices;
  }

  lemma HwidIsFree(u: User, hwid: string)
    requires WithinLimit(u)
    ensures forall d :: d in BeforeRegistration(u, hwid).devices ==> d.hwidHash != Some(hwid)
  {
    var found := FindHwid(u.devices, hwid);
    if found.Some? {
      var k := found.value;
      assert forall i :: 0 <= i < |u.devices| && i != k ==> u.devices[i].hwidHash != Some(hwid);
    }
  }

  lemma PlanKeepsLimits(db: Db, req: Request)
    requires LimitsHold(db.users)
    ensures PlanOf(db, req).Push? ==> LimitsHold(PlanOf(db, req).db.users)
    ensures PlanOf(db, req).Commit? ==> LimitsHold(PlanOf(db, req).db.users)
  {
    var plan := PlanOf(db, req);
    if (plan.Push? || plan.Commit?) && plan.db != db {
      if req.CreateUser? {
        NewUserWithinLimit(db, req);
      } else if ChangesDevicesOrUser(req) {
        UserRequestKeepsLimit(db, req);
      } else {
        OtherRequestKeepsLimits(db, req);
      }
    }
  }

  lemma NewUserWithinLimit(db: Db, req: Request)
    requires LimitsHold(db.users) && req.CreateUser? && PlanOf(db, req).Push?
    ensures LimitsHold(PlanOf(db, req).db.users)
  {
    var u := WithPayload(db, NewUser(req.u), req.payload);
    assert WithinLimit(u);
    forall v | v in db.users + [u]
      ensures WithinLimit(v)
    {
      assert v == u || v in db.users;
    }
  }

  lemma UserRowKeepsLimit(db: Db, req: Request, i: nat)
    requires LimitsHold(db.users) && ChangesDevicesOrUser(req) && !req.CreateUser?
    requires (PlanOf(db, req).Push? || PlanOf(db, req).Commit?) && PlanOf(db, req).db != db
    requires FindUser(db.users, req.u) == Some(i)
    ensures i < |PlanOf(db, req).db.users| && WithinLimit(PlanOf(db, req).db.users[i])
  {
    assert db.users[i] in db.users;
    if req.RegisterDevice? {
      RegisteredRowKeepsLimit(db, req, i);
    } else if req.RemoveDevice? || req.ResetDevices? {
      FewerDevicesKeepLimit(db, req, i);
    } else {
      PayloadKeepsLimit(db, req, i);
    }
  }

  lemma FewerDevicesKeepLimit(db: Db, req: Request, i: nat)
    requires LimitsHold(db.users) && (req.RemoveDevice? || req.ResetDevices?) && FindUser(db.users, req.u) == Some(i)
    requires (PlanOf(db, req).Push? || PlanOf(db, req).Commit?) && PlanOf(db, req).db != db
    ensures i < |PlanOf(db, req).db.users| && WithinLimit(PlanOf(db, req).db.users[i])
  {
    assert db.users[i] in db.users;
    if req.RemoveDevice? {
      RemovalKeepsLimit(db.users[i], FindDevice(db.users[i].devices, req.d).value);
    } else {
      assert ActivePlaces([]) == {};
    }
  }

  lemma PayloadKeepsLimit(db: Db, req: Request, i: nat)
    requires LimitsHold(db.users) && (req.UpdateUser? || req.DeleteUser?) && FindUser(db.users, req.u) == Some(i)
    requires (PlanOf(db, req).Push? || PlanOf(db, req).Commit?) && PlanOf(db, req).db != db
    ensures i < |PlanOf(db, req).db.users| && WithinLimit(PlanOf(db, req).db.users[i])
  {
    assert db.users[i] in db.users;
    CountIsOfPlaces(db.users[i].devices);
  }

  lemma RegisteredRowKeepsLimit(db: Db, req: Request, i: nat)
    requires LimitsHold(db.users) && req.RegisterDevice? && FindUser(db.users, req.u) == Some(i)
    requires (PlanOf(db, req).Push? || PlanOf(db, req).Commit?) && PlanOf(db, req).db != db
    ensures i < |PlanOf(db, req).db.users| && WithinLimit(PlanOf(db, req).db.users[i])
  {
    assert db.users[i] in db.users;
    RegistrationKeepsLimit(db.users[i], req.hwid.value, req.newId, req.uuid);
  }

  lemma UserRequestKeepsLimit(db: Db, req: Request)
    requires LimitsHold(db.users) && ChangesDevicesOrUser(req) && !req.CreateUser?
    requires (PlanOf(db, req).Push? || PlanOf(db, req).Commit?) && PlanOf(db, req).db != db
    ensures LimitsHold(PlanOf(db, req).db.users)
  {
    var plan := PlanOf(db, req);
    var i := FindUser(db.users, req.u).value;
    var u := db.users[i];
    assert u in db.users;
    var u' := plan.db.users[i];
    assert plan.db == SetUser(db, i, u');
    UserRowKeepsLimit(db, req, i);
    forall v | v in plan.db.users
      ensures WithinLimit(v)
    {
      assert v == u' || v in db.users;
    }
  }

  lemma OtherRequestKeepsLimits(db: Db, req: Request)
    requires LimitsHold(db.users) && !ChangesDevicesOrUser(req) && PlanOf(db, req).Push?
    ensures LimitsHold(PlanOf(db, req).db.users)
  {
    var users := PlanOf(db, req).db.users;
    assert |users| == |db.users| && forall i :: 0 <= i < |users| ==>
        users[i].devices == db.users[i].devices && users[i].deviceLimit == db.users[i].deviceLimit by {
      OtherRequestKeepsDevices(db, req);
    }
    forall v | v in users
      ensures WithinLimit(v)
    {
      var i :| 0 <= i < |users| && users[i] == v;
      assert db.users[i] in db.users;
    }
  }

  lemma OtherRequestKeepsDevices(db: Db, req: Request)
    requires !ChangesDevicesOrUser(req) && PlanOf(db, req).Push?
    ensures var users := PlanOf(db, req).db.users;
            |users| == |db.users| && forall i :: 0 <= i < |users| ==>
              users[i].devices == db.users[i].devices && users[i].deviceLimit == db.users[i].deviceLimit
  {
    if req.ResetTraffic? || req.EnableUser? || req.DisableUser? {
      var i := FindUser(db.users, req.u).value;
      assert PlanOf(db, req).db == SetUser(db, i, db.users[i].(status := PlanOf(db, req).db.users[i].status));
    } else {
      LinkRequestKeepsDevices(db, req);
    }
  }

  lemma LinkRequestKeepsDevices(db: Db, req: Request)
    requires !ChangesDevicesOrUser(req) && !req.ResetTraffic? && !req.EnableUser? && !req.DisableUser?
             && PlanOf(db, req).Push?
    ensures var users := PlanOf(db, req).db.users;
            |users| == |db.users| && forall i :: 0 <= i < |users| ==>
              users[i].devices == db.users[i].devices && users[i].deviceLimit == db.users[i].deviceLimit
  {
  }

  /** In every reachable state each user stays within the limit and holds each HWID at most once. */
  lemma {:induction false} LimitsOverRuns(sys: System, events: seq<Event>)
    requires LimitsHold(sys.db.users)
    ensures LimitsHold(Run(sys, events).db.users)
  {
    if events != [] {
      var init, last := events[..|events| - 1], events[|events| - 1];
      LimitsOverRuns(sys, init);
      PlanKeepsLimits(Run(sys, init).db, last.req);
    }
  }
}
