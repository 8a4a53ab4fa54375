/**
 What the requests of the panel answer and write, in terms of the rows alone: when a
 registration or a payload is refused, what the new row holds, and that user names stay unique.
 */
module RequestEffects {
  import opened Wrappers
  import opened Entities
  import opened XrayConfig
  import opened Rendering
  import opened ConfigApply
  import opened Requests
  import opened Agreement
  import opened Rollbacks
  import opened Runs
  import opened Devices

  lemma FindsTheUser(db: Db, i: nat)
    requires ValidDb(db) && i < |db.users|
    ensures FindUser(db.users, db.users[i].id) == Some(i)
  {
    assert db.users[i] in db.users;
  }

  // ---------- registration ----------

  /** A device of the HWID that is in use. */
  predicate InUse(devices: seq<Device>, hwid: string) {
    exists d :: d in devices && d.hwidHash == Some(hwid) && d.status == DeviceStatus.Active
  }

  /** The old list without the row of this HWID, if there is one, and the new device at the end. */
  ghost predicate MakesRoom(devices: seq<Device>, hwid: string, added: Device, after: seq<Device>) {
    || (after == devices + [added] && forall d :: d in devices ==> d.hwidHash != Some(hwid))
    || exists k :: && 0 <= k < |devices| && devices[k].hwidHash == Some(hwid)
                   && after == devices[..k] + devices[k + 1..] + [added]
  }

  /**
   A registration by a HWID that is not in use is refused exactly when as many devices as the limit
   allows are active, or the user has no node; a revoked device of the HWID gives way to the new one.
   */
  lemma RegistrationRefusedExactlyWhen(db: Db, i: nat, req: Request)
    requires ValidDb(db) && LimitsHold(db.users) && i < |db.users|
    requires req.RegisterDevice? && req.u == db.users[i].id
    ensures var u, plan := db.users[i], PlanOf(db, req);
            && (plan == Refused(404) <==> u.status != UserStatus.Active)
            && (u.status == UserStatus.Active && (!req.open || req.hwid.None?) ==> plan == Refused(403))
            && (u.status == UserStatus.Active && req.open && req.hwid.Some? && InUse(u.devices, req.hwid.value) ==>
                  plan == Commit(db))
            && (u.status == UserStatus.Active && req.open && req.hwid.Some? && !InUse(u.devices, req.hwid.value) ==>
                  (if |ActivePlaces(u.devices)| >= u.deviceLimit || (forall n :: n !in EffectiveNodeIds(u, db.profiles))
                   then plan == Refused(403)
                   else IsRegistration(db, i, req, plan)))
  {
    var u := db.users[i];
    FindsTheUser(db, i);
    assert u in db.users;
    if u.status == UserStatus.Active && req.open && req.hwid.Some? {
      HwidFound(u, req.hwid.value);
      if !InUse(u.devices, req.hwid.value) {
        RoomCount(u, req.hwid.value);
        RoomIsMade(u, req.hwid.value, req.newId, req.uuid);
        assert EffectiveNodeIds(BeforeRegistration(u, req.hwid.value), db.profiles) == EffectiveNodeIds(u, db.profiles);
      }
    }
  }

  /** Pushed to all nodes of the user, all of which have to take it, with only the device list of the user changed. */
  ghost predicate IsRegistration(db: Db, i: nat, req: Request, plan: Plan)
    requires i < |db.users| && req.RegisterDevice? && req.hwid.Some?
  {
    var u := db.users[i];
    && plan.Push? && plan == Push(plan.db, EffectiveNodeIds(u, db.profiles), false, true, None)
    && plan.db.profiles == db.profiles && plan.db.nodes == db.nodes && |plan.db.users| == |db.users|
    && plan.db.users == db.users[i := u.(devices := plan.db.users[i].devices)]
    && MakesRoom(u.devices, req.hwid.value,
                 Device(req.newId, req.uuid, DeviceStatus.Active, req.hwid), plan.db.users[i].devices)
  }

  lemma HwidFound(u: User, hwid: string)
    requires WithinLimit(u)
    ensures var found := FindHwid(u.devices, hwid);
            InUse(u.devices, hwid) <==> found.Some? && u.devices[found.value].status == DeviceStatus.Active
  {
    var found := FindHwid(u.devices, hwid);
    if found.Some? {
      assert u.devices[found.value] in u.devices;
    }
    if InUse(u.devices, hwid) {
      var d :| d in u.devices && d.hwidHash == Some(hwid) && d.status == DeviceStatus.Active;
      var k :| 0 <= k < |u.devices| && u.devices[k] == d;
      assert k == found.value;
    }
  }

  lemma RoomCount(u: User, hwid: string)
    requires WithinLimit(u) && !InUse(u.devices, hwid)
    ensures ActiveDevicesCount(BeforeRegistration(u, hwid)) == |ActivePlaces(u.devices)|
  {
    var found := FindHwid(u.devices, hwid);
    CountIsOfPlaces(u.devices);
    HwidFound(u, hwid);
    if found.Some? {
      RemovalCount(u.devices, found.value);
    }
  }

  lemma RoomIsMade(u: User, hwid: string, id: DeviceId, uuid: string)
    ensures MakesRoom(u.devices, hwid, Device(id, uuid, DeviceStatus.Active, Some(hwid)),
                      Registered(u, hwid, id, uuid).devices)
  {
    var found := FindHwid(u.devices, hwid);
    if found.Some? {
      var k := found.value;
      assert Registered(u, hwid, id, uuid).devices ==
             u.devices[..k] + u.devices[k + 1..] + [Device(id, uuid, DeviceStatus.Active, Some(hwid))];
    }
  }

  /** Removing a device takes out that row alone; resetting them takes out every row. */
  lemma DevicesLeft(db: Db, i: nat, req: Request)
    requires ValidDb(db) && i < |db.users|
    requires (req.RemoveDevice? || req.ResetDevices?) && req.u == db.users[i].id
    ensures var u, plan := db.users[i], PlanOf(db, req);
            if if req.RemoveDevice? then forall d :: d in u.devices ==> d.id != req.d else u.devices == []
            then plan == Commit(db)
            else
              && !plan.Refused? && i < |plan.db.users|
              && plan.db == db.(users := db.users[i := u.(devices := plan.db.users[i].devices)])
              && (req.ResetDevices? ==> plan.db.users[i].devices == [])
              && (req.RemoveDevice? ==>
                    exists k :: && 0 <= k < |u.devices| && u.devices[k].id == req.d
                                && plan.db.users[i].devices == u.devices[..k] + u.devices[k + 1..])
              && (plan.Commit? <==> forall n :: n !in EffectiveNodeIds(u, db.profiles))
              && (plan.Push? ==> plan == Push(plan.db, EffectiveNodeIds(u, db.profiles), false, true, None))
  {
    var u := db.users[i];
    FindsTheUser(db, i);
    if req.RemoveDevice? {
      var found := FindDevice(u.devices, req.d);
      if found.Some? {
        assert u.devices[found.value] in u.devices;
        PlanOfDevices(db, i, RemoveAt(u.devices, found.value));
      }
    } else {
      PlanOfDevices(db, i, []);
    }
  }

  lemma PlanOfDevices(db: Db, i: nat, devices: seq<Device>)
    requires i < |db.users|
    ensures var u, plan := db.users[i], PlanDevices(db, i, devices);
            && !plan.Refused? && plan.db == db.(users := db.users[i := u.(devices := devices)])
            && (plan.Commit? <==> forall n :: n !in EffectiveNodeIds(u, db.profiles))
            && (plan.Push? ==> plan == Push(plan.db, EffectiveNodeIds(u, db.profiles), false, true, None))
  {
    var u := db.users[i];
    assert EffectiveNodeIds(u.(devices := devices), db.profiles) == EffectiveNodeIds(u, db.profiles);
  }

  // ---------- user payloads ----------

  /** A node that a payload may name. */
  predicate Known(db: Db, p: UserPayload, n: NodeId) {
    n in p.allowedNodeIds && n in db.nodes && db.nodes[n].status != NodeStatus.Deleted
  }

  predicate Inherits(db: Db, p: UserPayload, n: NodeId) {
    p.profileId.Some? && p.profileId.value in db.profiles && n in db.profiles[p.profileId.value].allowedNodes
  }

  /** The nodes an active user gets who would otherwise have none. */
  ghost predicate Fallback(db: Db, p: UserPayload, n: NodeId) {
    && n in db.nodes && db.nodes[n].status == NodeStatus.Online && p.status == UserStatus.Active
    && forall m :: !Known(db, p, m) && !Inherits(db, p, m)
  }

  /** The nodes a payload gives: those it names, else those of its profile, else every online one. */
  ghost predicate Gives(db: Db, p: UserPayload, n: NodeId) {
    Known(db, p, n) || Fallback(db, p, n) || (Inherits(db, p, n) && forall m :: !Known(db, p, m))
  }

  lemma PayloadNodes(db: Db, p: UserPayload, n: NodeId)
    ensures n in PayloadNodeIds(db, p) <==> Known(db, p, n) || Fallback(db, p, n)
    ensures n in PayloadEffectiveIds(db, p) <==> Gives(db, p, n)
  {
    var known := set m | m in p.allowedNodeIds && m in db.nodes && db.nodes[m].status != NodeStatus.Deleted;
    var inherited := ProfileNodeIds(PayloadProfile(db, p));
    assert forall m :: m in known <==> Known(db, p, m);
    assert forall m :: m in inherited <==> Inherits(db, p, m);
    assert known == {} <==> forall m :: m !in known;
    assert inherited == {} <==> forall m :: m !in inherited;
  }

  /**
   A payload that passes the schema and the other checks is refused exactly for a primary node that it does
   not give: the check that an active user has a node at all never fires.
   */
  lemma PayloadRefusedExactlyWhen(db: Db, p: UserPayload)
    ensures PayloadRefused(db, p) <==> p.primaryNodeId.Some? && !Gives(db, p, p.primaryNodeId.value)
  {
    if p.primaryNodeId.Some? {
      PayloadNodes(db, p, p.primaryNodeId.value);
    }
  }

  predicate NameTaken(users: seq<User>, name: string) {
    exists u :: u in users && u.username == name
  }

  /** A new user is refused for its limit, for a name that exists, and for a primary node it is not given. */
  lemma CreationRefusedExactlyWhen(db: Db, req: Request)
    requires req.CreateUser? && forall u :: u in db.users ==> u.id != req.u
    ensures var p, plan := req.payload, PlanOf(db, req);
            && (plan == Refused(409) <==> 1 <= p.deviceLimit <= 100 && NameTaken(db.users, p.username))
            && (plan == Refused(422) <==>
                || !(1 <= p.deviceLimit <= 100)
                || (!NameTaken(db.users, p.username) && p.primaryNodeId.Some? && !Gives(db, p, p.primaryNodeId.value)))
            && (!plan.Push? ==> plan == Refused(409) || plan == Refused(422))
  {
    PayloadRefusedExactlyWhen(db, req.payload);
    assert UsernameTaken(db.users, req.payload.username, None) <==> NameTaken(db.users, req.payload.username);
  }

  /** An update is refused for its limit, for the name of another user, and for fewer devices than are active. */
  lemma UpdateRefusedExactlyWhen(db: Db, i: nat, req: Request)
    requires ValidDb(db) && i < |db.users| && req.UpdateUser? && req.u == db.users[i].id
    ensures var p, u, plan := req.payload, db.users[i], PlanOf(db, req);
            var schema := 1 <= p.deviceLimit <= 100;
            var another := exists j :: 0 <= j < |db.users| && j != i && db.users[j].username == p.username;
            var tooFew := p.deviceLimit < |ActivePlaces(u.devices)|;
            && (plan == Refused(409) <==> schema && another)
            && (plan == Refused(400) <==> schema && !another && tooFew)
            && (plan == Refused(422) <==>
                || !schema
                || (!another && !tooFew && p.primaryNodeId.Some? && !Gives(db, p, p.primaryNodeId.value)))
            && (!plan.Push? ==> plan == Refused(409) || plan == Refused(400) || plan == Refused(422))
  {
    FindsTheUser(db, i);
    PayloadRefusedExactlyWhen(db, req.payload);
    CountIsOfPlaces(db.users[i].devices);
    AnotherHasTheName(db, i, req.payload.username);
  }

  lemma AnotherHasTheName(db: Db, i: nat, name: string)
    requires ValidDb(db) && i < |db.users|
    ensures UsernameTaken(db.users, name, Some(db.users[i].id)) <==>
            exists j :: 0 <= j < |db.users| && j != i && db.users[j].username == name
  {
    if UsernameTaken(db.users, name, Some(db.users[i].id)) {
      var u :| u in db.users && u.username == name && Some(u.id) != Some(db.users[i].id);
      var j :| 0 <= j < |db.users| && db.users[j] == u;
    }
    if j :| 0 <= j < |db.users| && j != i && db.users[j].username == name {
      assert db.users[j] in db.users && db.users[j].id != db.users[i].id;
    }
  }

  /**
   The row of an accepted payload: its fields, the nodes it names or falls back to as sorted links, and a
   primary node, the given one or else the first link.
   */
  ghost predicate RowOfPayload(db: Db, p: UserPayload, row: User) {
    && row.username == p.username && row.status == p.status && row.deviceLimit == p.deviceLimit
    && row.departmentId == p.departmentId && row.profileId == p.profileId
    && (forall n :: n in row.nodeLinks <==> Known(db, p, n) || Fallback(db, p, n))
    && (forall j, k :: 0 <= j < k < |row.nodeLinks| ==> row.nodeLinks[j] < row.nodeLinks[k])
    && row.primaryNodeId == (if p.primaryNodeId.Some? then p.primaryNodeId
                             else if row.nodeLinks == [] then None else Some(row.nodeLinks[0]))
  }

  lemma PayloadIsWritten(db: Db, u: User, p: UserPayload)
    requires !PayloadRefused(db, p)
    ensures var row := WithPayload(db, u, p);
            RowOfPayload(db, p, row) && row.id == u.id && row.devices == u.devices
  {
    var row, ids := WithPayload(db, u, p), PayloadNodeIds(db, p);
    LinksAreSet(row);
    forall n
      ensures n in row.nodeLinks <==> Known(db, p, n) || Fallback(db, p, n)
    {
      PayloadNodes(db, p, n);
      assert n in row.nodeLinks <==> n in SeqSet(row.nodeLinks);
    }
    if row.nodeLinks != [] {
      FirstIsMin(row.nodeLinks, ids);
    }
  }

  lemma FirstIsMin(links: seq<NodeId>, ids: set<NodeId>)
    requires links != [] && SeqSet(links) == ids && forall j, k :: 0 <= j < k < |links| ==> links[j] < links[k]
    ensures ids != {} && Min(ids) == links[0]
  {
    assert links[0] in SeqSet(links);
    assert Min(ids) in SeqSet(links);
  }

  /** A created user has the row of the payload and no devices, at the end of the table. */
  lemma CreationWrites(db: Db, req: Request)
    requires req.CreateUser? && PlanOf(db, req).Push?
    ensures var plan := PlanOf(db, req);
            && plan == Push(plan.db, plan.targets, false, false, None) && |plan.db.users| == |db.users| + 1
            && plan.db == db.(users := db.users + [plan.db.users[|db.users|]])
            && plan.db.users[|db.users|].id == req.u && plan.db.users[|db.users|].devices == []
            && RowOfPayload(db, req.payload, plan.db.users[|db.users|])
            && (forall n :: n in plan.targets <==> Gives(db, req.payload, n))
  {
    PayloadIsWritten(db, NewUser(req.u), req.payload);
    forall n
      ensures n in PlanOf(db, req).targets <==> Gives(db, req.payload, n)
    {
      PayloadNodes(db, req.payload, n);
    }
  }

  /** An updated user has the row of the payload with the devices it had. */
  lemma UpdateWrites(db: Db, i: nat, req: Request)
    requires ValidDb(db) && i < |db.users| && req.UpdateUser? && req.u == db.users[i].id && PlanOf(db, req).Push?
    ensures var plan := PlanOf(db, req);
            && plan == Push(plan.db, plan.targets, false, false, None)
            && |plan.db.users| == |db.users| && plan.db == db.(users := db.users[i := plan.db.users[i]])
            && plan.db.users[i].id == req.u && plan.db.users[i].devices == db.users[i].devices
            && RowOfPayload(db, req.payload, plan.db.users[i])
            && (forall n :: n in plan.targets <==>
                  n in EffectiveNodeIds(db.users[i], db.profiles) || Gives(db, req.payload, n))
  {
    FindsTheUser(db, i);
    PayloadIsWritten(db, db.users[i], req.payload);
    forall n
      ensures n in PlanOf(db, req).targets <==>
              n in EffectiveNodeIds(db.users[i], db.profiles) || Gives(db, req.payload, n)
    {
      PayloadNodes(db, req.payload, n);
    }
  }

  // ---------- status requests ----------

  /** The status that a request about one user writes. */
  predicate StatusAfter(before: UserStatus, req: Request, after: UserStatus) {
    && (req.EnableUser? ==> after == UserStatus.Active)
    && (req.DisableUser? ==> after == UserStatus.Disabled)
    && (req.DeleteUser? ==> after == UserStatus.Deleted)
    && (req.ResetTraffic? ==>
          after == if before == UserStatus.TrafficLimited then UserStatus.Active else before)
  }

  /** Only the status of that user changes; a deletion pushes to its nodes, the others to its explicit ones. */
  lemma StatusIsWritten(db: Db, i: nat, req: Request)
    requires ValidDb(db) && i < |db.users|
    requires (req.EnableUser? || req.DisableUser? || req.DeleteUser? || req.ResetTraffic?) && req.u == db.users[i].id
    ensures var u, plan := db.users[i], PlanOf(db, req);
            if req.DeleteUser? && u.status == UserStatus.Deleted then plan == Commit(db)
            else
              && plan.Push? && plan == Push(plan.db, plan.targets, false, false, None) && |plan.db.users| == |db.users|
              && plan.db == db.(users := db.users[i := u.(status := plan.db.users[i].status)])
              && StatusAfter(u.status, req, plan.db.users[i].status)
              && forall n :: n in plan.targets <==>
                   if req.DeleteUser? then n in EffectiveNodeIds(u, db.profiles) else n in u.nodeLinks
  {
    FindsTheUser(db, i);
  }

  predicate AboutOneUser(req: Request) {
    req.UpdateUser? || req.DeleteUser? || req.EnableUser? || req.DisableUser? || req.ResetTraffic?
        || req.RegisterDevice? || req.RemoveDevice? || req.ResetDevices?
  }

  /** A user that does not exist is refused, but for a payload that the schema refuses before. */
  lemma UnknownUserIsRefused(db: Db, req: Request)
    requires AboutOneUser(req) && forall u :: u in db.users ==> u.id != req.u
    ensures PlanOf(db, req) ==
            Refused(if req.UpdateUser? && !(1 <= req.payload.deviceLimit <= 100) then 422 else 404)
  {
  }

  // ---------- user names ----------

  ghost predicate UniqueNames(users: seq<User>) {
    forall i, j :: 0 <= i < j < |users| ==> users[i].username != users[j].username
  }

  /** Row by row, the id and the name are the old ones. */
  ghost predicate SameNames(users: seq<User>, users': seq<User>) {
    |users'| == |users| && forall i :: 0 <= i < |users| ==>
      users'[i].id == users[i].id && users'[i].username == users[i].username
  }

  lemma LinkRequestsKeepNames(db: Db, req: Request)
    requires PlanOf(db, req).Push? && !AboutOneUser(req) && !req.CreateUser?
    ensures SameNames(db.users, PlanOf(db, req).db.users)
  {
    if req.AddNodeToUsers? || req.RemoveNodeFromUsers? {
      BulkKeepsNames(db, req);
    } else if req.ReplaceNode? || req.DeleteNode? {
      DetachKeepsNames(db, req);
    } else {
      UsersUntouched(db, req);
    }
  }

  lemma BulkKeepsNames(db: Db, req: Request)
    requires PlanOf(db, req).Push? && (req.AddNodeToUsers? || req.RemoveNodeFromUsers?)
    ensures SameNames(db.users, PlanOf(db, req).db.users)
  {
  }

  lemma DetachKeepsNames(db: Db, req: Request)
    requires PlanOf(db, req).Push? && (req.ReplaceNode? || req.DeleteNode?)
    ensures SameNames(db.users, PlanOf(db, req).db.users)
  {
    if req.ReplaceNode? {
      DetachedNames(db, req.n, Some(req.replacement));
    } else {
      DetachedNames(db, req.n, None);
      DeletionDetaches(db, req);
    }
  }

  lemma DetachedNames(db: Db, n: NodeId, m: Option<NodeId>)
    ensures m.Some? ==> SameNames(db.users, ReplaceInDb(db, n, m.value).users)
    ensures m.None? ==> SameNames(db.users, DetachFromDb(db, n).users)
  {
  }

  lemma UsersUntouched(db: Db, req: Request)
    requires PlanOf(db, req).Push? && !AboutOneUser(req) && !req.CreateUser?
    requires !req.AddNodeToUsers? && !req.RemoveNodeFromUsers? && !req.ReplaceNode? && !req.DeleteNode?
    ensures PlanOf(db, req).db.users == db.users
  {
  }

  lemma UserRequestsKeepNames(db: Db, req: Request)
    requires ValidDb(db) && AboutOneUser(req) && !req.UpdateUser? && !PlanOf(db, req).Refused?
    ensures SameNames(db.users, PlanOf(db, req).db.users)
  {
    var i := FindUser(db.users, req.u).value;
    if req.RegisterDevice? {
      RegistrationKeepsNames(db, i, req);
    } else if req.RemoveDevice? || req.ResetDevices? {
      DevicesLeft(db, i, req);
    } else {
      StatusIsWritten(db, i, req);
    }
  }

  lemma RegistrationKeepsNames(db: Db, i: nat, req: Request)
    requires req.RegisterDevice? && FindUser(db.users, req.u) == Some(i) && !PlanOf(db, req).Refused?
    ensures SameNames(db.users, PlanOf(db, req).db.users)
  {
  }

  lemma CreatedNameIsNew(db: Db, req: Request)
    requires UniqueNames(db.users) && req.CreateUser? && PlanOf(db, req).Push?
    ensures UniqueNames(PlanOf(db, req).db.users)
  {
    CreationWrites(db, req);
    CreationRefusedExactlyWhen(db, req);
    NewNameKeepsUnique(db.users, PlanOf(db, req).db.users[|db.users|]);
  }

  lemma NewNameKeepsUnique(users: seq<User>, u: User)
    requires UniqueNames(users) && !NameTaken(users, u.username)
    ensures UniqueNames(users + [u])
  {
    assert forall j :: 0 <= j < |users| ==> users[j] in users;
  }

  lemma UpdatedNameIsFree(db: Db, req: Request)
    requires ValidDb(db) && UniqueNames(db.users) && req.UpdateUser? && PlanOf(db, req).Push?
    ensures UniqueNames(PlanOf(db, req).db.users)
  {
    var i := FindUser(db.users, req.u).value;
    UpdateRefusedExactlyWhen(db, i, req);
    UpdateWrites(db, i, req);
    FreeNameKeepsUnique(db.users, i, PlanOf(db, req).db.users[i]);
  }

  lemma FreeNameKeepsUnique(users: seq<User>, i: nat, u: User)
    requires UniqueNames(users) && i < |users|
    requires !exists j :: 0 <= j < |users| && j != i && users[j].username == u.username
    ensures UniqueNames(users[i := u])
  {
  }

  lemma PlanKeepsNames(db: Db, req: Request)
    requires ValidDb(db) && UniqueNames(db.users) && !PlanOf(db, req).Refused?
    ensures UniqueNames(PlanOf(db, req).db.users)
  {
    if req.CreateUser? {
      CreatedNameIsNew(db, req);
    } else if req.UpdateUser? {
      UpdatedNameIsFree(db, req);
    } else if AboutOneUser(req) {
      UserRequestsKeepNames(db, req);
    } else if PlanOf(db, req).Push? {
      LinkRequestsKeepNames(db, req);
    }
  }

  /** A request leaves the users of its plan, or those there were. */
  lemma StepWritesPlan(sys: System, req: Request, attempts: NodeId -> Attempt)
    ensures var users := Step(sys, req, attempts).db.users;
            users == sys.db.users || (!PlanOf(sys.db, req).Refused? && users == PlanOf(sys.db, req).db.users)
  {
  }

  lemma StepKeepsNames(sys: System, req: Request, attempts: NodeId -> Attempt)
    requires ValidDb(sys.db) && UniqueNames(sys.db.users)
    ensures UniqueNames(Step(sys, req, attempts).db.users)
  {
    StepWritesPlan(sys, req, attempts);
    if !PlanOf(sys.db, req).Refused? {
      PlanKeepsNames(sys.db, req);
    }
  }

  /** In every reachable state no two users have the same name. */
  lemma {:induction false} NamesOverRuns(sys: System, events: seq<Event>)
    requires ValidDb(sys.db) && ValidLists(sys.db.profiles) && FreshRun(sys, events) && UniqueNames(sys.db.users)
    ensures UniqueNames(Run(sys, events).db.users)
  {
    if events != [] {
      var init, last := events[..|events| - 1], events[|events| - 1];
      assert events == init + [last];
      FreshPrefix(sys, init, last);
      NamesOverRuns(sys, init);
      ValidOverRuns(sys, init);
      StepKeepsNames(Run(sys, init), last.req, last.attempts);
    }
  }
}
