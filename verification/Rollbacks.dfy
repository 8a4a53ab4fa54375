/**
 Requests that roll back: registration and removal of devices.  The database is
 restored but the servers are not, and whether a server still runs what it ran is
 decided by the outcome of its attempt.
 */
module Rollbacks {
  import opened Wrappers
  import opened Decimal
  import opened Entities
  import opened XrayConfig
  import opened Rendering
  import opened ConfigApply
  import opened Requests
  import opened Agreement

  // ---------- devices without a row ----------

  function NewDevice(req: Request): Device
    requires req.RegisterDevice? && req.hwid.Some?
  {
    Device(req.newId, req.uuid, DeviceStatus.Active, req.hwid)
  }

  lemma RenderedClientsIncludeOwn(db: Db, n: NodeId, u: User, d: Device)
    requires n in db.nodes && db.nodes[n].id == n && db.nodes[n].status == NodeStatus.Online && Render(db, n).Success?
    requires u in db.users && u.status == UserStatus.Active && d in u.devices && Serves(d)
             && n in EffectiveNodeIds(u, db.profiles)
    ensures AkfaClient(u, d) in Render(db, n).value.clients
  {
    AkfaClientsMembers(db.users, db.profiles, db.nodes[n], AkfaClient(u, d));
  }

  ghost predicate NoRow(users: seq<User>, id: UserId, d: DeviceId) {
    forall u :: u in users && u.id == id ==> forall e :: e in u.devices ==> e.id != d
  }

  lemma NoRowNoOwnClient(users: seq<User>, profiles: map<ProfileId, Profile>, node: Node, id: UserId, d: DeviceId,
                         c: ClientEntry)
    requires NoRow(users, id, d)
    requires c in AkfaClients(users, profiles, node)
    ensures c.ClientEntry? && c.email != Some(DeviceEmail(id, d))
  {
    var u, e := OwnerOfClient(users, profiles, node, c);
    if DeviceEmail(u.id, e.id) == DeviceEmail(id, d) {
      DeviceEmailInjective(u.id, e.id, id, d);
    }
  }

  /** No client of the configuration carries the statistics key of a device that has no row. */
  lemma NoRowNoClient(db: Db, n: NodeId, id: UserId, d: DeviceId, c: ClientEntry)
    requires n in db.nodes && Render(db, n).Success?
    requires NoRow(db.users, id, d)
    requires c in Render(db, n).value.clients && c.ClientEntry?
    ensures c.email != Some(DeviceEmail(id, d))
  {
    var node := db.nodes[n];
    var akfa := AkfaClients(db.users, db.profiles, node);
    assert DeviceEmail(id, d)[..|EMAIL_PREFIX|] == EMAIL_PREFIX;
    assert c in MergeImportedSafeClients(node, akfa);
    if c in akfa {
      NoRowNoOwnClient(db.users, db.profiles, node, id, d, c);
    } else {
      assert !IsAkfaEmail(c.email);
    }
  }

  // ---------- what an attempt of a rolled-back request leaves ----------

  /** The id of a new device is new, and its HWID hash, a digest, is not empty. */
  predicate FreshDevice(db: Db, req: Request) {
    req.RegisterDevice? ==> req.hwid != Some("") && forall u, d :: u in db.users && d in u.devices ==> d.id != req.newId
  }

  /** The request takes a device away that its user's servers let in. */
  predicate RemovesServing(db: Db, req: Request)
    requires req.RemoveDevice? || req.ResetDevices?
  {
    exists u, d :: && u in db.users && u.id == req.u && u.status == UserStatus.Active
                   && d in u.devices && Serves(d) && (req.RemoveDevice? ==> d.id == req.d)
  }

  predicate KeepsKeys(node: Node, attempt: Attempt) {
    var c := Prepared(node, attempt).credentials;
    c.privateKey == node.credentials.privateKey && c.shortId == node.credentials.shortId
  }

  /** What can be read off the outcome of the attempt: the server is as it was. */
  predicate OutcomeHarmless(sys: System, req: Request, n: NodeId, attempt: Attempt)
    requires n in sys.db.nodes
  {
    match attempt.outcome
    case NotStarted => true
    case Rejected(leaves, _) => leaves == Live(sys, n)
    case TimedOut(leaves) => leaves == Live(sys, n)
    case Applied =>
      (req.RemoveDevice? || req.ResetDevices?) && !RemovesServing(sys.db, req) && KeepsKeys(sys.db.nodes[n], attempt)
  }

  /** Besides the clients and rules, a configuration holds the keys it was rendered with. */
  lemma KeysInRendering(users: seq<User>, profiles: map<ProfileId, Profile>, node: Node, c: Credentials)
    requires RenderServerConfig(users, profiles, node).Success? && c.privateKey != ""
    ensures var config := RenderServerConfig(users, profiles, node).value;
            && config.privateKey == node.credentials.privateKey && config.shortId == node.credentials.shortId
            && RenderServerConfig(users, profiles, node.(credentials := c)) ==
               Success(config.(privateKey := c.privateKey, shortId := c.shortId))
  {
    SameClients(users, profiles, users, profiles, node, node.(credentials := c));
  }

  /** The plans that can roll back. */
  lemma RevocablePlan(db: Db, req: Request)
    requires PlanOf(db, req).Push? && PlanOf(db, req).mustSucceed
    ensures req.RegisterDevice? || req.RemoveDevice? || req.ResetDevices?
    ensures var plan := PlanOf(db, req);
            && FindUser(db.users, req.u).Some? && !plan.allowNonOnline
            && var i := FindUser(db.users, req.u).value;
               var u, u' := db.users[i], plan.db.users[i];
               && plan.db == SetUser(db, i, u') && u' == u.(devices := u'.devices)
               && plan.targets == EffectiveNodeIds(u, db.profiles)
               && (req.RegisterDevice? ==>
                   u.status == UserStatus.Active && req.hwid.Some? && NewDevice(req) in u'.devices)
               && (req.ResetDevices? ==> u'.devices == [])
               && (req.RemoveDevice? ==> FindDevice(u.devices, req.d).Some?
                                         && u'.devices == RemoveAt(u.devices, FindDevice(u.devices, req.d).value))
  {
  }

  lemma {:induction false} ServingAppend(a: seq<Device>, b: seq<Device>)
    ensures ServingDevices(a + b) == ServingDevices(a) + ServingDevices(b)
  {
    if b == [] {
      assert a + b == a;
    } else {
      assert (a + b)[..|a + b| - 1] == a + b[..|b| - 1];
      ServingAppend(a, b[..|b| - 1]);
    }
  }

  lemma ServingOne(d: Device)
    ensures ServingDevices([d]) == if Serves(d) then [d] else []
  {
    assert [d][..0] == [];
  }

  lemma ServingAround(a: seq<Device>, d: Device, b: seq<Device>)
    ensures |ServingDevices(a + b)| == |ServingDevices(a + ([d] + b))| - (if Serves(d) then 1 else 0)
    ensures !Serves(d) ==> ServingDevices(a + b) == ServingDevices(a + ([d] + b))
  {
    ServingAppend(a, [d] + b);
    ServingAppend([d], b);
    ServingAppend(a, b);
    ServingOne(d);
  }

  /** Removing one device lowers the count by one if it was serving, and changes nothing otherwise. */
  lemma RemovalCount(devices: seq<Device>, k: nat)
    requires k < |devices|
    ensures |ServingDevices(RemoveAt(devices, k))| == |ServingDevices(devices)| - (if Serves(devices[k]) then 1 else 0)
    ensures !Serves(devices[k]) ==> ServingDevices(RemoveAt(devices, k)) == ServingDevices(devices)
  {
    var a, d, b := devices[..k], devices[k], devices[k + 1..];
    assert devices == a + ([d] + b);
    ServingAround(a, d, b);
  }

  lemma PartAfterRemoval(u: User, devices: seq<Device>, ps: map<ProfileId, Profile>, node: Node)
    requires node.status == NodeStatus.Online && ValidLists(ps) && node.id in EffectiveNodeIds(u, ps)
    requires |ServingDevices(devices)| == |ServingDevices(u.devices)| ==>
             ServingDevices(devices) == ServingDevices(u.devices)
    ensures SamePart(u, ps, u.(devices := devices), ps, node) <==>
            u.status != UserStatus.Active || ServingDevices(devices) == ServingDevices(u.devices)
  {
    SamePartWhen(u, ps, u.(devices := devices), ps, node);
    assert u.status == UserStatus.Active ==> |UserClients(u, ps, node)| == |ServingDevices(u.devices)|;
    assert u.status == UserStatus.Active ==>
           |UserClients(u.(devices := devices), ps, node)| == |ServingDevices(devices)|;
  }

  /** Whether the removal takes a serving device away, by the serving devices of the user. */
  lemma RemovesServingExactly(db: Db, req: Request)
    requires ValidDb(db) && (req.RemoveDevice? || req.ResetDevices?)
    requires PlanOf(db, req).Push? && PlanOf(db, req).mustSucceed
    ensures FindUser(db.users, req.u).Some?
    ensures var i := FindUser(db.users, req.u).value;
            var before, after := ServingDevices(db.users[i].devices),
                ServingDevices(PlanOf(db, req).db.users[i].devices);
            && (RemovesServing(db, req) <==> db.users[i].status == UserStatus.Active && after != before)
            && (|after| == |before| ==> after == before)
  {
    RevocablePlan(db, req);
    var i := FindUser(db.users, req.u).value;
    var u := db.users[i];
    assert u in db.users && forall v :: v in db.users && v.id == req.u ==> v == u;
    if req.RemoveDevice? {
      OneDeviceServes(u.devices, req.d);
    } else {
      SomeDeviceServes(u.devices);
    }
  }

  lemma OneDeviceServes(devices: seq<Device>, id: DeviceId)
    requires FindDevice(devices, id).Some?
    requires forall i, j :: 0 <= i < j < |devices| ==> devices[i].id != devices[j].id
    ensures var before, after := ServingDevices(devices),
            ServingDevices(RemoveAt(devices, FindDevice(devices, id).value));
            && ((exists d :: d in devices && Serves(d) && d.id == id) <==> after != before)
            && (|after| == |before| ==> after == before)
  {
    var k := FindDevice(devices, id).value;
    RemovalCount(devices, k);
    assert devices[k] in devices && forall d :: d in devices && d.id == id ==> d == devices[k];
  }

  lemma SomeDeviceServes(devices: seq<Device>)
    ensures (exists d :: d in devices && Serves(d)) <==> ServingDevices(devices) != []
  {
    if ServingDevices(devices) != [] {
      assert ServingDevices(devices)[0] in ServingDevices(devices);
    }
  }

  lemma RemovalRenders(db: Db, req: Request, n: NodeId)
    requires ValidDb(db) && ValidLists(db.profiles) && (req.RemoveDevice? || req.ResetDevices?)
    requires PlanOf(db, req).Push? && PlanOf(db, req).mustSucceed && n in PlanOf(db, req).targets
    requires n in db.nodes && db.nodes[n].status == NodeStatus.Online && Render(db, n).Success?
    ensures PlanOf(db, req).db.nodes == db.nodes && PlanOf(db, req).db.profiles == db.profiles
    ensures Render(PlanOf(db, req).db, n) == Render(db, n) <==> !RemovesServing(db, req)
  {
    RevocablePlan(db, req);
    RemovesServingExactly(db, req);
    var db', i := PlanOf(db, req).db, FindUser(db.users, req.u).value;
    PartAfterRemoval(db.users[i], db'.users[i].devices, db.profiles, db.nodes[n]);
    OneUserChanges(db, i, db'.users[i], n);
  }

  /** When one row changes, the rendering changes exactly if the part of that user does. */
  lemma OneUserChanges(db: Db, i: nat, u: User, n: NodeId)
    requires ValidDb(db) && i < |db.users| && u.id == db.users[i].id && n in db.nodes && Render(db, n).Success?
    ensures Render(SetUser(db, i, u), n) == Render(db, n) <==>
            SamePart(db.users[i], db.profiles, u, db.profiles, db.nodes[n])
  {
    var db' := SetUser(db, i, u);
    assert forall j :: 0 <= j < |db.users| && j != i ==> db'.users[j] == db.users[j];
    RenderDeterminesParts(db, db', n);
  }

  /** An attempt that renders: the configuration it applies, and what an outcome leaves live. */
  lemma AttemptLeaves(planned: System, n: NodeId, attempts: NodeId -> Attempt)
    requires n in planned.db.nodes && ValidLists(planned.db.profiles)
    requires planned.db.nodes[n].status == NodeStatus.Online && HasInstalledXray(planned.db.nodes[n])
    ensures var db, node := planned.db, Prepared(planned.db.nodes[n], attempts(n));
            var rendered := RenderServerConfig(db.users, db.profiles, node);
            && rendered.Success?
            && StepAt(planned, n, false, attempts).live ==
               match attempts(n).outcome
               case NotStarted => Live(planned, n)
               case Rejected(leaves, _) => leaves
               case TimedOut(leaves) => leaves
               case Applied => Some(rendered.value)
  {
    var prepared := Prepared(planned.db.nodes[n], attempts(n));
    var db := planned.db.(nodes := planned.db.nodes[n := prepared]);
    forall u | u in db.users
      ensures BlockedOf(u, db.profiles).Success?
    {
      ListIsValid(u, db.profiles);
    }
    RenderFailsExactlyWhen(db, n);
  }

  /** A registered device is in every configuration rendered for its nodes, and in none rendered before. */
  lemma RegistrationChangesRendering(db: Db, req: Request, n: NodeId, attempt: Attempt)
    requires ValidDb(db) && req.RegisterDevice? && FreshDevice(db, req)
    requires n in db.nodes && db.nodes[n].status == NodeStatus.Online
    ensures var plan := PlanOf(db, req);
            plan.Push? && plan.mustSucceed && n in plan.targets && Render(db, n).Success? ==>
            RenderServerConfig(plan.db.users, plan.db.profiles, Prepared(db.nodes[n], attempt)) != Render(db, n)
  {
    var plan := PlanOf(db, req);
    if plan.Push? && plan.mustSucceed && n in plan.targets && Render(db, n).Success? {
      RevocablePlan(db, req);
      var i := FindUser(db.users, req.u).value;
      var db' := plan.db.(nodes := db.nodes[n := Prepared(db.nodes[n], attempt)]);
      var u, c := db'.users[i], AkfaClient(db'.users[i], NewDevice(req));
      if Render(db', n).Success? {
        RenderedClientsIncludeOwn(db', n, u, NewDevice(req));
      }
      if c in Render(db, n).value.clients {
        NoRowNoClient(db, n, req.u, req.newId, c);
      }
    }
  }

  /**
   On a counted target of a request that rolls back, the server runs what it ran before
   exactly when the outcome of its attempt is harmless.
   */
  lemma LiveKeptExactly(sys: System, req: Request, attempts: NodeId -> Attempt, n: NodeId)
    requires InSync(sys) && ValidDb(sys.db) && ValidLists(sys.db.profiles) && FreshDevice(sys.db, req)
    requires PlanOf(sys.db, req).Push? && PlanOf(sys.db, req).mustSucceed
    requires n in PlanOf(sys.db, req).targets && n in sys.db.nodes && Counts(sys, n)
    ensures var plan := PlanOf(sys.db, req);
            var after := LiveAfter(System(plan.db, sys.deployed), plan.targets, plan.allowNonOnline, attempts, n);
            after == Live(sys, n) <==> OutcomeHarmless(sys, req, n, attempts(n))
  {
    var plan := PlanOf(sys.db, req);
    var planned := System(plan.db, sys.deployed);
    RevocablePlan(sys.db, req);
    assert NodeInSync(sys, n);
    AttemptLeaves(planned, n, attempts);
    if attempts(n).outcome.Applied? {
      AppliedKeepsExactly(sys, req, attempts(n), n);
    }
  }

  lemma AppliedKeepsExactly(sys: System, req: Request, attempt: Attempt, n: NodeId)
    requires ValidDb(sys.db) && ValidLists(sys.db.profiles) && FreshDevice(sys.db, req)
    requires PlanOf(sys.db, req).Push? && PlanOf(sys.db, req).mustSucceed
    requires n in PlanOf(sys.db, req).targets && n in sys.db.nodes && sys.db.nodes[n].status == NodeStatus.Online
    requires RunsItsConfig(sys, n) && attempt.outcome.Applied?
    ensures var db' := PlanOf(sys.db, req).db;
            RenderServerConfig(db'.users, db'.profiles, Prepared(sys.db.nodes[n], attempt)) == Render(sys.db, n) <==>
            OutcomeHarmless(sys, req, n, attempt)
  {
    RevocablePlan(sys.db, req);
    if req.RegisterDevice? {
      RegistrationChangesRendering(sys.db, req, n, attempt);
    } else {
      AppliedRemovalKeepsExactly(sys.db, req, attempt, n);
    }
  }

  lemma AppliedRemovalKeepsExactly(db: Db, req: Request, attempt: Attempt, n: NodeId)
    requires ValidDb(db) && ValidLists(db.profiles) && (req.RemoveDevice? || req.ResetDevices?)
    requires PlanOf(db, req).Push? && PlanOf(db, req).mustSucceed && n in PlanOf(db, req).targets
    requires n in db.nodes && db.nodes[n].status == NodeStatus.Online && Render(db, n).Success?
    ensures var db' := PlanOf(db, req).db;
            RenderServerConfig(db'.users, db'.profiles, Prepared(db.nodes[n], attempt)) == Render(db, n) <==>
            !RemovesServing(db, req) && KeepsKeys(db.nodes[n], attempt)
  {
    var node, users := db.nodes[n], PlanOf(db, req).db.users;
    var c := Prepared(node, attempt).credentials;
    RemovalRenders(db, req, n);
    RenderFailsExactlyWhen(db, n);
    KeysInRendering(db.users, db.profiles, node, node.credentials);
    OnlyKeysDiffer(users, db.profiles, node, c, Render(db, n).value);
  }

  lemma OnlyKeysDiffer(users: seq<User>, profiles: map<ProfileId, Profile>, node: Node, c: Credentials, config: Config)
    requires c.privateKey != "" && node.credentials.privateKey != ""
    requires config.privateKey == node.credentials.privateKey && config.shortId == node.credentials.shortId
    ensures RenderServerConfig(users, profiles, node.(credentials := c)) == Success(config) <==>
            && RenderServerConfig(users, profiles, node) == Success(config)
            && c.privateKey == node.credentials.privateKey && c.shortId == node.credentials.shortId
  {
    if RenderServerConfig(users, profiles, node).Success? {
      KeysInRendering(users, profiles, node, c);
    }
    if RenderServerConfig(users, profiles, node.(credentials := c)).Success? {
      KeysInRendering(users, profiles, node.(credentials := c), node.credentials);
    }
    assert node.(credentials := c).(credentials := node.credentials) == node;
  }
}
