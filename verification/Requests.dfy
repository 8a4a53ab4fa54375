/**
 The requests of the admin and public API that change what is deployed
 (`backend/app/api/entities.py`), as functions of the database: what they write,
 which nodes they push to, and when they refuse or roll back.
 */
module Requests {
  import opened Wrappers
  import opened DomainLists
  import opened Entities
  import opened XrayConfig
  import opened ConfigApply

  // ---------- sets of node ids ----------

  ghost predicate IsMin(m: nat, s: set<nat>) {
    m in s && forall x :: x in s ==> m <= x
  }

  lemma {:induction false} MinExists(s: set<nat>)
    requires s != {}
    ensures exists m :: IsMin(m, s)
  {
    var x :| x in s;
    var rest := s - {x};
    if rest == {} {
      assert s == {x};
      assert IsMin(x, s);
    } else {
      MinExists(rest);
      var y :| IsMin(y, rest);
      var m := if x < y then x else y;
      forall z | z in s
        ensures m <= z
      {
        assert z == x || z in rest;
      }
      assert IsMin(m, s);
    }
  }

  function Min(s: set<nat>): (m: nat)
    requires s != {}
    ensures IsMin(m, s)
  {
    MinExists(s);
    assert exists m :: IsMin(m, s);
    var m :| m in s && forall x :: x in s ==> m <= x;
    m
  }

  /** `sorted(ids)` */
  function Sorted(ids: set<nat>): (r: seq<nat>)
    ensures SeqSet(r) == ids
    ensures forall i, j :: 0 <= i < j < |r| ==> r[i] < r[j]
  {
    if ids == {} then []
    else
      var m := Min(ids);
      var rest := Sorted(ids - {m});
      assert forall x :: x in rest ==> x in SeqSet(rest);
      [m] + rest
  }

  // ---------- one user ----------

  function ExplicitOrProfile(u: User, profiles: map<ProfileId, Profile>): set<NodeId> {
    if SeqSet(u.nodeLinks) != {} then SeqSet(u.nodeLinks) else ProfileNodeIds(ProfileOf(u, profiles))
  }

  function SetNodeAccess(u: User, ids: set<NodeId>, primary: Option<NodeId>): User {
    var chosen := if ids == {} then primary
                  else if primary.Some? && primary.value in ids then primary
                  else Some(Min(ids));
    u.(nodeLinks := Sorted(ids), primaryNodeId := chosen)
  }

  function AddNode(u: User, profiles: map<ProfileId, Profile>, n: NodeId): User {
    var current := ExplicitOrProfile(u, profiles);
    if n in current then u
    else SetNodeAccess(u, current + {n}, if u.primaryNodeId.Some? then u.primaryNodeId else Some(n))
  }

  function RemoveNode(u: User, profiles: map<ProfileId, Profile>, n: NodeId): User {
    var current := ExplicitOrProfile(u, profiles);
    if n !in current then u
    else
      var left := current - {n};
      var primary := if u.primaryNodeId != Some(n) then u.primaryNodeId else if left != {} then Some(Min(left))
          else None;
      SetNodeAccess(u, left, primary)
  }

  function DetachNode(u: User, n: NodeId, replacement: Option<NodeId>): User {
    if n !in u.nodeLinks then u
    else
      var next := SeqSet(u.nodeLinks) - {n} + (if replacement.Some? then {replacement.value} else {});
      if next == SeqSet(u.nodeLinks) then u
      else SetNodeAccess(u, next, if replacement.Some? then replacement else u.primaryNodeId)
  }

  function ClearOrReplacePrimary(u: User, profiles: map<ProfileId, Profile>, n: NodeId,
                                 replacement: Option<NodeId>): User {
    if u.primaryNodeId != Some(n) then u
    else if replacement.Some? then u.(primaryNodeId := replacement)
    else
      var fallback := ExplicitOrProfile(u, profiles) - {n};
      u.(primaryNodeId := if fallback == {} then None else Some(Min(fallback)))
  }

  function MapUsers(users: seq<User>, f: User -> User): (r: seq<User>)
    ensures |r| == |users|
    ensures forall i :: 0 <= i < |users| ==> r[i] == f(users[i])
  {
    seq(|users|, i requires 0 <= i < |users| => f(users[i]))
  }

  // ---------- one profile ----------

  /** `list(dict.fromkeys(ids))`: the first occurrence of each id. */
  function Dedup(ids: seq<NodeId>): (r: seq<NodeId>)
    ensures forall x :: x in r <==> x in ids
    ensures forall i, j :: 0 <= i < j < |r| ==> r[i] != r[j]
  {
    if ids == [] then []
    else
      var init, last := ids[..|ids| - 1], ids[|ids| - 1];
      assert ids == init + [last];
      if last in Dedup(init) then Dedup(init) else Dedup(init) + [last]
  }

  function Without(ids: seq<NodeId>, n: NodeId): (r: seq<NodeId>)
    ensures forall x :: x in r <==> x in ids && x != n
  {
    if ids == [] then []
    else (if ids[0] == n then [] else [ids[0]]) + Without(ids[1..], n)
  }

  function DropFromProfile(p: Profile, n: NodeId, replacement: Option<NodeId>): Profile {
    if n !in p.allowedNodes then p
    else
      var next := Without(Dedup(p.allowedNodes), n);
      p.(allowedNodes := if replacement.Some? && replacement.value !in next then next + [replacement.value] else next)
  }

  function AddToProfile(p: Profile, n: NodeId): Profile {
    if n in p.allowedNodes then p else p.(allowedNodes := Dedup(p.allowedNodes) + [n])
  }

  function DropFromProfiles(profiles: map<ProfileId, Profile>, n: NodeId, replacement: Option<NodeId>): map<ProfileId,
      Profile> {
    map p | p in profiles :: DropFromProfile(profiles[p], n, replacement)
  }

  // ---------- bulk selections ----------

  datatype Bulk =
    | AllActive
    | ByDepartment(department: Option<nat>)
    | ByProfile(profile: Option<ProfileId>)
    | Selected(ids: seq<UserId>)
    | UnknownScope

  predicate BulkAccepted(bulk: Bulk) {
    match bulk
    case AllActive => true
    case ByDepartment(d) => d.Some?
    case ByProfile(p) => p.Some?
    case Selected(ids) => ids != []
    case UnknownScope => false
  }

  predicate Targeted(u: User, bulk: Bulk) {
    && u.status != UserStatus.Deleted
    && match bulk
       case AllActive => u.status == UserStatus.Active
       case ByDepartment(d) => u.departmentId == d
       case ByProfile(p) => u.profileId == p
       case Selected(ids) => u.id in ids
       case UnknownScope => false
  }

  function BulkAdd(u: User, profiles: map<ProfileId, Profile>, bulk: Bulk, n: NodeId): User {
    if Targeted(u, bulk) then AddNode(u, profiles, n) else u
  }

  function BulkRemove(u: User, profiles: map<ProfileId, Profile>, bulk: Bulk, n: NodeId): User {
    if Targeted(u, bulk) then RemoveNode(u, profiles, n) else u
  }

  // ---------- user payloads ----------

  datatype UserPayload = UserPayload(
    username: string,
    status: UserStatus,
    deviceLimit: int,
    departmentId: Option<nat>,
    profileId: Option<ProfileId>,
    allowedNodeIds: seq<NodeId>,
    primaryNodeId: Option<NodeId>)

  /** The bounds of the request schema. */
  predicate SchemaAccepts(p: UserPayload) {
    1 <= p.deviceLimit <= 100
  }

  function OnlineNodeIds(db: Db): set<NodeId> {
    set n | n in db.nodes && db.nodes[n].status == NodeStatus.Online
  }

  function PayloadProfile(db: Db, p: UserPayload): Option<Profile> {
    if p.profileId.Some? && p.profileId.value in db.profiles then Some(db.profiles[p.profileId.value]) else None
  }

  /** Requested nodes that exist, or every online node for an active user who would have none. */
  function PayloadNodeIds(db: Db, p: UserPayload): set<NodeId> {
    var known := set n | n in p.allowedNodeIds && n in db.nodes && db.nodes[n].status != NodeStatus.Deleted;
    if known == {} && ProfileNodeIds(PayloadProfile(db, p)) == {} && p.status == UserStatus.Active
    then OnlineNodeIds(db) else known
  }

  function PayloadEffectiveIds(db: Db, p: UserPayload): set<NodeId> {
    if PayloadNodeIds(db, p) != {} then PayloadNodeIds(db, p) else ProfileNodeIds(PayloadProfile(db, p))
  }

  predicate PayloadRefused(db: Db, p: UserPayload) {
    || (p.status == UserStatus.Active && PayloadEffectiveIds(db, p) == {} && OnlineNodeIds(db) != {})
    || (p.primaryNodeId.Some? && p.primaryNodeId.value !in PayloadEffectiveIds(db, p))
  }

  function WithPayload(db: Db, u: User, p: UserPayload): User {
    SetNodeAccess(
      u.(username := p.username, status := p.status, deviceLimit := p.deviceLimit,
         departmentId := p.departmentId, profileId := p.profileId),
      PayloadNodeIds(db, p), p.primaryNodeId)
  }

  function ActiveDevicesCount(u: User): nat {
    |ServingDevices(u.devices)|
  }

  // ---------- lookups ----------

  function FindUser(users: seq<User>, id: UserId): (r: Option<nat>)
    ensures r.Some? ==> r.value < |users| && users[r.value].id == id
    ensures r.None? ==> forall u :: u in users ==> u.id != id
  {
    if users == [] then None
    else if users[|users| - 1].id == id then Some(|users| - 1)
    else FindUser(users[..|users| - 1], id)
  }

  function FindDevice(devices: seq<Device>, id: DeviceId): (r: Option<nat>)
    ensures r.Some? ==> r.value < |devices| && devices[r.value].id == id
    ensures r.None? ==> forall d :: d in devices ==> d.id != id
  {
    if devices == [] then None
    else if devices[|devices| - 1].id == id then Some(|devices| - 1)
    else FindDevice(devices[..|devices| - 1], id)
  }

  function FindHwid(devices: seq<Device>, hwid: string): (r: Option<nat>)
    ensures r.Some? ==> r.value < |devices| && devices[r.value].hwidHash == Some(hwid)
    ensures r.None? ==> forall d :: d in devices ==> d.hwidHash != Some(hwid)
  {
    if devices == [] then None
    else if devices[|devices| - 1].hwidHash == Some(hwid) then Some(|devices| - 1)
    else FindHwid(devices[..|devices| - 1], hwid)
  }

  function RemoveAt<T>(s: seq<T>, i: nat): seq<T>
    requires i < |s|
  {
    s[..i] + s[i + 1..]
  }

  // ---------- requests ----------

  datatype Request =
    | DisableNode(n: NodeId)
    | MaintenanceNode(n: NodeId)
    | EnableNode(n: NodeId)
    | ApplyNodeConfig(n: NodeId, generated: Generated)
    | UpdateNode(n: NodeId, name: string, location: Option<string>, port: int, sni: string, generated: Generated)
    | AddNodeToProfile(n: NodeId, p: ProfileId)
    | RemoveNodeFromProfile(n: NodeId, p: ProfileId)
    | AddNodeToUsers(n: NodeId, bulk: Bulk)
    | RemoveNodeFromUsers(n: NodeId, bulk: Bulk)
    | ReplaceNode(n: NodeId, replacement: NodeId)
    | DeleteNode(n: NodeId, force: bool)
    | UpdateProfile(p: ProfileId, profile: Profile)
    | CreateUser(u: UserId, payload: UserPayload)
    | UpdateUser(u: UserId, payload: UserPayload)
    | DeleteUser(u: UserId)
    | EnableUser(u: UserId)
    | DisableUser(u: UserId)
    | ResetTraffic(u: UserId)
    | RegisterDevice(u: UserId, hwid: Option<string>, open: bool, newId: DeviceId, uuid: string)
    | RemoveDevice(u: UserId, d: DeviceId)
    | ResetDevices(u: UserId)

  /**
   What a request does before anything remote happens.  `mustSucceed` rolls the
   database back unless every target succeeds; `deletes` is soft-deleted after the push.
   */
  datatype Plan =
    | Refused(status: nat)
    | Commit(db: Db)
    | Push(db: Db, targets: set<NodeId>, allowNonOnline: bool, mustSucceed: bool, deletes: Option<NodeId>)

  function SetStatus(db: Db, n: NodeId, s: NodeStatus): Db
    requires n in db.nodes
  {
    db.(nodes := db.nodes[n := db.nodes[n].(status := s)])
  }

  function NodeInUse(db: Db, n: NodeId): bool {
    || (exists u :: u in db.users && u.status != UserStatus.Deleted && n in u.nodeLinks)
    || (exists u :: u in db.users && u.status != UserStatus.Deleted && u.primaryNodeId == Some(n))
    || (exists p :: p in db.profiles && n in db.profiles[p].allowedNodes)
  }

  function ReplaceInDb(db: Db, n: NodeId, m: NodeId): Db {
    var profiles := DropFromProfiles(db.profiles, n, Some(m));
    var users := MapUsers(db.users, u => ClearOrReplacePrimary(DetachNode(u, n, Some(m)), profiles, n, Some(m)));
    db.(users := users, profiles := profiles)
  }

  function DetachFromDb(db: Db, n: NodeId): Db {
    var profiles := DropFromProfiles(db.profiles, n, None);
    var users := MapUsers(db.users, u => ClearOrReplacePrimary(DetachNode(u, n, None), profiles, n, None));
    db.(users := users, profiles := profiles)
  }

  function SetUser(db: Db, i: nat, u: User): Db
    requires i < |db.users|
  {
    db.(users := db.users[i := u])
  }

  function UsernameTaken(users: seq<User>, username: string, except: Option<UserId>): bool {
    exists u :: u in users && u.username == username && Some(u.id) != except
  }

  function NewUser(id: UserId): User {
    User(id, "", UserStatus.Active, 5, None, None, [], None, [])
  }

  /** The device that a request for a new HWID adds; a revoked one with the same HWID makes room first. */
  function BeforeRegistration(u: User, hwid: string): User {
    var found := FindHwid(u.devices, hwid);
    if found.Some? then u.(devices := RemoveAt(u.devices, found.value)) else u
  }

  function Registered(u: User, hwid: string, id: DeviceId, uuid: string): User {
    var before := BeforeRegistration(u, hwid);
    before.(devices := before.devices + [Device(id, uuid, DeviceStatus.Active, Some(hwid))])
  }

  function PlanRegistration(db: Db, i: nat, hwid: string, id: DeviceId, uuid: string): Plan
    requires i < |db.users|
  {
    var u := db.users[i];
    var found := FindHwid(u.devices, hwid);
    if found.Some? && u.devices[found.value].status == DeviceStatus.Active then Commit(db)
    else
      var before := BeforeRegistration(u, hwid);
      if ActiveDevicesCount(before) >= u.deviceLimit then Refused(403)
      else if EffectiveNodeIds(before, db.profiles) == {} then Refused(403)
      else Push(SetUser(db, i, Registered(u, hwid, id, uuid)), EffectiveNodeIds(before, db.profiles), false, true, None)
  }

  /** Removing devices pushes to the user's nodes, or just commits when there are none. */
  function PlanDevices(db: Db, i: nat, devices: seq<Device>): Plan
    requires i < |db.users|
  {
    var u := db.users[i].(devices := devices);
    if EffectiveNodeIds(u, db.profiles) == {} then Commit(SetUser(db, i, u))
    else Push(SetUser(db, i, u), EffectiveNodeIds(u, db.profiles), false, true, None)
  }

  function PlanStatus(db: Db, id: UserId, status: UserStatus): Plan {
    match FindUser(db.users, id)
    case None => Refused(404)
    case Some(i) =>
      Push(SetUser(db, i, db.users[i].(status := status)), SeqSet(db.users[i].nodeLinks), false, false, None)
  }

  function PlanNodeStatus(db: Db, n: NodeId, s: NodeStatus, allowNonOnline: bool): Plan {
    if n !in db.nodes || db.nodes[n].status == NodeStatus.Deleted then Refused(404)
    else Push(SetStatus(db, n, s), {n}, allowNonOnline, false, None)
  }

  function PlanOf(db: Db, req: Request): Plan {
    match req
    case DisableNode(n) => PlanNodeStatus(db, n, NodeStatus.Disabled, true)
    case MaintenanceNode(n) => PlanNodeStatus(db, n, NodeStatus.Maintenance, true)
    case EnableNode(n) => PlanNodeStatus(db, n, NodeStatus.Online, false)
    case ApplyNodeConfig(n, generated) =>
      if n !in db.nodes then Refused(404)
      else
        var node := db.nodes[n].(credentials := EnsureCredentials(db.nodes[n].credentials, generated));
        Push(db.(nodes := db.nodes[n := node]), {n}, true, false, None)
    case UpdateNode(n, name, location, port, sni, generated) =>
      if n !in db.nodes then Refused(404)
      else
        var node := db.nodes[n].(name := name, location := location, port := port, sni := sni,
                                 credentials := EnsureCredentials(db.nodes[n].credentials, generated));
        Push(db.(nodes := db.nodes[n := node]), {n}, false, false, None)
    case AddNodeToProfile(n, p) =>
      if n !in db.nodes || db.nodes[n].status == NodeStatus.Deleted || p !in db.profiles then Refused(404)
      else Push(db.(profiles := db.profiles[p := AddToProfile(db.profiles[p], n)]), {n}, false, false, None)
    case RemoveNodeFromProfile(n, p) =>
      if n !in db.nodes || p !in db.profiles then Refused(404)
      else Push(db.(profiles := db.profiles[p := DropFromProfile(db.profiles[p], n, None)]), {n}, false, false, None)
    case AddNodeToUsers(n, bulk) =>
      if n !in db.nodes || db.nodes[n].status == NodeStatus.Deleted then Refused(404)
      else if !BulkAccepted(bulk) then Refused(422)
      else
        var users := MapUsers(db.users, u => BulkAdd(u, db.profiles, bulk, n));
        Push(db.(users := users), {n}, false, false, None)
    case RemoveNodeFromUsers(n, bulk) =>
      if n !in db.nodes then Refused(404)
      else if !BulkAccepted(bulk) then Refused(422)
      else
        var users := MapUsers(db.users, u => BulkRemove(u, db.profiles, bulk, n));
        Push(db.(users := users), {n}, false, false, None)
    case ReplaceNode(n, m) =>
      if n !in db.nodes || m !in db.nodes then Refused(404)
      else if n == m || db.nodes[m].status == NodeStatus.Deleted then Refused(422)
      else Push(ReplaceInDb(db, n, m), {n, m}, true, false, None)
    case DeleteNode(n, force) =>
      if n !in db.nodes then Refused(404)
      else if db.nodes[n].status == NodeStatus.Deleted then Commit(db)
      else if !force && NodeInUse(db, n) then Refused(409)
      else Push(SetStatus(DetachFromDb(db, n), n, NodeStatus.Disabled), {n}, true, false, Some(n))
    case UpdateProfile(p, profile) =>
      if Normalized(profile.blockedDomains).Failure? then Refused(422)
      else if p !in db.profiles then Refused(404)
      else
        var stored := profile.(blockedDomains := Normalized(profile.blockedDomains).value);
        var touched := SeqSet(db.profiles[p].allowedNodes) + SeqSet(profile.allowedNodes);
        var targets := if touched != {} then touched
                       else set n | n in db.nodes && db.nodes[n].status != NodeStatus.Deleted;
        Push(db.(profiles := db.profiles[p := stored]), targets, false, false, None)
    case CreateUser(id, payload) =>
      if !SchemaAccepts(payload) then Refused(422)
      else if UsernameTaken(db.users, payload.username, None) || FindUser(db.users, id).Some? then Refused(409)
      else if PayloadRefused(db, payload) then Refused(422)
      else Push(db.(users := db.users + [WithPayload(db, NewUser(id), payload)]), PayloadEffectiveIds(db, payload),
                false, false, None)
    case UpdateUser(id, payload) =>
      if !SchemaAccepts(payload) then Refused(422)
      else
      (match FindUser(db.users, id)
       case None => Refused(404)
       case Some(i) =>
         var u := db.users[i];
         if UsernameTaken(db.users, payload.username, Some(id)) then Refused(409)
         else if payload.deviceLimit < ActiveDevicesCount(u) then Refused(400)
         else if PayloadRefused(db, payload) then Refused(422)
         else Push(SetUser(db, i, WithPayload(db, u, payload)),
                   EffectiveNodeIds(u, db.profiles) + PayloadEffectiveIds(db, payload), false, false, None))
    case DeleteUser(id) =>
      (match FindUser(db.users, id)
       case None => Refused(404)
       case Some(i) =>
         var u := db.users[i];
         if u.status == UserStatus.Deleted then Commit(db)
         else Push(SetUser(db, i, u.(status := UserStatus.Deleted)), EffectiveNodeIds(u, db.profiles), false, false,
                   None))
    case EnableUser(id) => PlanStatus(db, id, UserStatus.Active)
    case DisableUser(id) => PlanStatus(db, id, UserStatus.Disabled)
    case ResetTraffic(id) =>
      (match FindUser(db.users, id)
       case None => Refused(404)
       case Some(i) =>
         PlanStatus(db, id, if db.users[i].status == UserStatus.TrafficLimited then UserStatus.Active
                    else db.users[i].status))
    case RegisterDevice(id, hwid, open, newId, uuid) =>
      (match FindUser(db.users, id)
       case None => Refused(404)
       case Some(i) =>
         if db.users[i].status != UserStatus.Active then Refused(404)
         else if !open || hwid.None? then Refused(403)
         else PlanRegistration(db, i, hwid.value, newId, uuid))
    case RemoveDevice(id, d) =>
      (match FindUser(db.users, id)
       case None => Refused(404)
       case Some(i) =>
         match FindDevice(db.users[i].devices, d)
         case None => Commit(db)
         case Some(k) => PlanDevices(db, i, RemoveAt(db.users[i].devices, k)))
    case ResetDevices(id) =>
      (match FindUser(db.users, id)
       case None => Refused(404)
       case Some(i) => if db.users[i].devices == [] then Commit(db) else PlanDevices(db, i, []))
  }

  /** What a profile update writes, and where it pushes. */
  lemma ProfilePlan(db: Db, p: ProfileId, profile: Profile)
    requires p in db.profiles && Normalized(profile.blockedDomains).Success?
    ensures var stored := profile.(blockedDomains := Normalized(profile.blockedDomains).value);
            var touched := SeqSet(db.profiles[p].allowedNodes) + SeqSet(profile.allowedNodes);
            PlanOf(db, UpdateProfile(p, profile)) ==
            Push(db.(profiles := db.profiles[p := stored]),
                 if touched != {} then touched
                 else set n | n in db.nodes && db.nodes[n].status != NodeStatus.Deleted, false, false, None)
  {
  }

  // ---------- a whole request ----------

  predicate EveryTargetSucceeded(sys: System, targets: set<NodeId>, allowNonOnline: bool, attempts: NodeId -> Attempt) {
    forall n :: n in targets ==> n in sys.db.nodes && StepAt(sys, n, allowNonOnline, attempts).status == ResultSuccess
  }

  predicate RollsBack(sys: System, req: Request, attempts: NodeId -> Attempt) {
    var plan := PlanOf(sys.db, req);
    plan.Push? && plan.mustSucceed
    && !EveryTargetSucceeded(System(plan.db, sys.deployed), plan.targets, plan.allowNonOnline, attempts)
  }

  /** The state after a request: a rollback restores the database, never the servers. */
  function Step(sys: System, req: Request, attempts: NodeId -> Attempt): System {
    match PlanOf(sys.db, req)
    case Refused(_) => sys
    case Commit(db) => sys.(db := db)
    case Push(db, targets, allow, mustSucceed, deletes) =>
      var pushed := AfterApply(System(db, sys.deployed), targets, allow, attempts);
      if RollsBack(sys, req, attempts) then pushed.(db := sys.db)
      else if deletes.Some? && deletes.value in pushed.db.nodes
      then pushed.(db := SetStatus(pushed.db, deletes.value, NodeStatus.Deleted))
      else pushed
  }

  lemma PushedStep(sys: System, req: Request, attempts: NodeId -> Attempt, db: Db, targets: set<NodeId>, allow: bool)
    requires PlanOf(sys.db, req) == Push(db, targets, allow, false, None)
    ensures Step(sys, req, attempts) == AfterApply(System(db, sys.deployed), targets, allow, attempts)
  {
  }

  lemma PushedDelete(sys: System, req: Request, attempts: NodeId -> Attempt, db: Db, n: NodeId)
    requires PlanOf(sys.db, req) == Push(db, {n}, true, false, Some(n)) && n in db.nodes
    ensures var pushed := AfterApply(System(db, sys.deployed), {n}, true, attempts);
            n in pushed.db.nodes
                && Step(sys, req, attempts) == pushed.(db := SetStatus(pushed.db, n, NodeStatus.Deleted))
  {
  }
}
