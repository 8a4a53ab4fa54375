/**
 Incremental deployment agrees with re-rendering every node: a request pushes to a
 set of affected nodes only, and every online node with Xray keeps running what the
 database renders for it, unless its last attempt is on record as failed.
 */
module Agreement {
  import opened Wrappers
  import opened DomainLists
  import opened Entities
  import opened XrayConfig
  import opened Rendering
  import opened ConfigApply
  import opened Requests

  // ---------- the invariant ----------

  ghost predicate RunsItsConfig(sys: System, n: NodeId)
    requires n in sys.db.nodes
  {
    n in sys.deployed && Render(sys.db, n) == Success(sys.deployed[n])
  }

  /** The nodes the panel believes in: online, with Xray, and without a failure on record. */
  predicate Counts(sys: System, n: NodeId)
    requires n in sys.db.nodes
  {
    var node := sys.db.nodes[n];
    node.status == NodeStatus.Online && HasInstalledXray(node) && node.lastApply != ApplyFailed
  }

  ghost predicate NodeInSync(sys: System, n: NodeId)
    requires n in sys.db.nodes
  {
    Counts(sys, n) ==> RunsItsConfig(sys, n)
  }

  ghost predicate InSync(sys: System) {
    forall n :: n in sys.db.nodes ==> NodeInSync(sys, n)
  }

  // ---------- which nodes a request disturbs without pushing to them ----------

  /** The user's explicit links are exactly `{n}`, and its profile offers `m` once they are gone. */
  predicate FallsBackTo(u: User, profiles: map<ProfileId, Profile>, n: NodeId, m: NodeId) {
    && u.status == UserStatus.Active
    && SeqSet(u.nodeLinks) == {n}
    && m in ProfileNodeIds(ProfileOf(u, profiles))
    && ServingDevices(u.devices) != []
  }

  /** The user reaches `m` through its profile only, with a device to show there. */
  predicate InheritsShown(u: User, profiles: map<ProfileId, Profile>, m: NodeId) {
    && u.nodeLinks == []
    && m in ProfileNodeIds(ProfileOf(u, profiles))
    && ServingDevices(u.devices) != []
  }

  /** What a caller can check beforehand: node `m` is outside the pushed set and yet changes. */
  predicate Disturbs(db: Db, req: Request, m: NodeId) {
    match req
    case RemoveNodeFromUsers(n, bulk) =>
      exists u :: u in db.users && Targeted(u, bulk) && FallsBackTo(u, db.profiles, n, m)
    case DeleteNode(n, force) =>
      exists u :: u in db.users && FallsBackTo(u, db.profiles, n, m)
    case EnableUser(id) =>
      exists u :: u in db.users && u.id == id && u.status != UserStatus.Active && InheritsShown(u, db.profiles, m)
    case DisableUser(id) =>
      exists u :: u in db.users && u.id == id && u.status == UserStatus.Active && InheritsShown(u, db.profiles, m)
    case ResetTraffic(id) =>
      exists u :: u in db.users && u.id == id && u.status == UserStatus.TrafficLimited
          && InheritsShown(u, db.profiles, m)
    case UpdateProfile(p, profile) =>
      p in db.profiles && Normalized(profile.blockedDomains) != Normalized(db.profiles[p].blockedDomains)
      && exists u :: u in db.users && u.profileId == Some(p) && u.nodeLinks != [] && Shows(u, db.profiles, m)
    case _ => false
  }

  /** Each user of the new table shows on `m` exactly as before. */
  predicate UserKept(u: User, ps: map<ProfileId, Profile>, u': User, ps': map<ProfileId, Profile>, m: NodeId) {
    && u.id == u'.id
    && Shows(u, ps, m) == Shows(u', ps', m)
    && (Shows(u, ps, m) ==>
        ServingDevices(u.devices) == ServingDevices(u'.devices) && BlockedOf(u, ps) == BlockedOf(u', ps'))
  }

  lemma KeptUsersKeepRender(db: Db, db': Db, m: NodeId)
    requires m in db.nodes && m in db'.nodes && db.nodes[m] == db'.nodes[m]
    requires db.nodes[m].id == m && db.nodes[m].status == NodeStatus.Online
    requires ValidLists(db.profiles) && ValidLists(db'.profiles)
    requires |db.users| == |db'.users|
    requires forall i :: 0 <= i < |db.users| ==> UserKept(db.users[i], db.profiles, db'.users[i], db'.profiles, m)
    ensures Render(db, m) == Render(db', m)
  {
    forall i | 0 <= i < |db.users|
      ensures SamePart(db.users[i], db.profiles, db'.users[i], db'.profiles, db.nodes[m])
    {
      SamePartWhen(db.users[i], db.profiles, db'.users[i], db'.profiles, db.nodes[m]);
    }
    SamePartsSameRender(db, db', m);
  }

  // ---------- user by user: who is kept ----------

  lemma AddKeeps(u: User, ps: map<ProfileId, Profile>, n: NodeId, m: NodeId)
    requires m != n
    ensures UserKept(u, ps, AddNode(u, ps, n), ps, m)
  {
    var u' := AddNode(u, ps, n);
    LinksAreSet(u);
    LinksAreSet(u');
    if u' != u {
      assert SeqSet(u'.nodeLinks) == ExplicitOrProfile(u, ps) + {n};
    }
  }

  lemma LinksAreSet(u: User)
    ensures SeqSet(u.nodeLinks) == {} <==> u.nodeLinks == []
  {
    if u.nodeLinks != [] {
      assert u.nodeLinks[0] in SeqSet(u.nodeLinks);
    }
  }

  lemma RemoveKeepsUnlessFallback(u: User, ps: map<ProfileId, Profile>, n: NodeId, m: NodeId)
    requires m != n
    ensures UserKept(u, ps, RemoveNode(u, ps, n), ps, m) <==> !FallsBackTo(u, ps, n, m)
  {
    var u' := RemoveNode(u, ps, n);
    LinksAreSet(u);
    LinksAreSet(u');
    if u' != u {
      assert SeqSet(u'.nodeLinks) == ExplicitOrProfile(u, ps) - {n};
    }
  }

  lemma DroppedProfile(p: Profile, n: NodeId, replacement: Option<NodeId>, m: NodeId)
    requires m != n && replacement != Some(m)
    ensures m in DropFromProfile(p, n, replacement).allowedNodes <==> m in p.allowedNodes
    ensures DropFromProfile(p, n, replacement).blockedDomains == p.blockedDomains
  {
  }

  lemma DetachKeepsUnlessFallback(u: User, ps: map<ProfileId, Profile>, n: NodeId, replacement: Option<NodeId>,
                                  m: NodeId)
    requires m != n && replacement != Some(m) && replacement != Some(n)
    ensures var ps' := DropFromProfiles(ps, n, replacement);
            var u' := ClearOrReplacePrimary(DetachNode(u, n, replacement), ps', n, replacement);
            UserKept(u, ps, u', ps', m) <==> !(replacement.None? && FallsBackTo(u, ps, n, m))
  {
    var ps' := DropFromProfiles(ps, n, replacement);
    var d := DetachNode(u, n, replacement);
    LinksAreSet(u);
    LinksAreSet(d);
    DetachedLinks(u, n, replacement);
    if ProfileOf(u, ps).Some? {
      DroppedProfile(ProfileOf(u, ps).value, n, replacement, m);
    }
    PrimaryDoesNotMatter(u, ps, d, ClearOrReplacePrimary(d, ps', n, replacement), ps', m);
    DetachedKept(u, ps, d, ps', n, replacement, m);
  }

  lemma DetachedLinks(u: User, n: NodeId, replacement: Option<NodeId>)
    ensures SeqSet(DetachNode(u, n, replacement).nodeLinks) ==
            if n in u.nodeLinks then SeqSet(u.nodeLinks) - {n} + (if replacement.Some? then {replacement.value} else {})
            else SeqSet(u.nodeLinks)
  {
  }

  lemma PrimaryDoesNotMatter(u: User, ps: map<ProfileId, Profile>, d: User, d': User, ps': map<ProfileId, Profile>,
                             m: NodeId)
    requires d' == d.(primaryNodeId := d'.primaryNodeId)
    ensures UserKept(u, ps, d', ps', m) <==> UserKept(u, ps, d, ps', m)
  {
  }

  lemma DetachedKept(u: User, ps: map<ProfileId, Profile>, d: User, ps': map<ProfileId, Profile>, n: NodeId,
                     replacement: Option<NodeId>, m: NodeId)
    requires m != n && replacement != Some(m) && replacement != Some(n)
    requires d == DetachNode(u, n, replacement) && ps' == DropFromProfiles(ps, n, replacement)
    requires SeqSet(d.nodeLinks) == if n in u.nodeLinks then
             SeqSet(u.nodeLinks) - {n} + (if replacement.Some? then {replacement.value} else {})
                                    else SeqSet(u.nodeLinks)
    requires (SeqSet(u.nodeLinks) == {} <==> u.nodeLinks == []) && (SeqSet(d.nodeLinks) == {} <==> d.nodeLinks == [])
    requires ProfileOf(u, ps).Some? ==>
               var p, p' := ProfileOf(u, ps).value, DropFromProfile(ProfileOf(u, ps).value, n, replacement);
               (m in p'.allowedNodes <==> m in p.allowedNodes) && p'.blockedDomains == p.blockedDomains
    ensures UserKept(u, ps, d, ps', m) <==> !(replacement.None? && FallsBackTo(u, ps, n, m))
  {
  }

  // ---------- request by request ----------

  ghost predicate AllKept(db: Db, db': Db, m: NodeId) {
    && |db.users| == |db'.users|
    && forall i :: 0 <= i < |db.users| ==> UserKept(db.users[i], db.profiles, db'.users[i], db'.profiles, m)
  }

  /** Apart from links, primary node and status, the user rows are the same. */
  ghost predicate SameDevices(db: Db, db': Db) {
    && |db.users| == |db'.users|
    && forall i :: 0 <= i < |db.users| ==>
       db.users[i].id == db'.users[i].id && db.users[i].devices == db'.users[i].devices
  }

  predicate ChangesDevicesOrUser(req: Request) {
    req.CreateUser? || req.UpdateUser? || req.DeleteUser? || req.RegisterDevice? || req.RemoveDevice?
        || req.ResetDevices?
  }

  /** Requests that write nothing but one node row. */
  predicate WritesOnlyNode(req: Request) {
    req.DisableNode? || req.MaintenanceNode? || req.EnableNode? || req.ApplyNodeConfig? || req.UpdateNode?
  }

  lemma NodeRequestsKeep(db: Db, req: Request, m: NodeId)
    requires WritesOnlyNode(req)
    requires PlanOf(db, req).Push?
    ensures AllKept(db, PlanOf(db, req).db, m) && SameDevices(db, PlanOf(db, req).db)
  {
  }

  lemma ProfileMembershipKeeps(db: Db, req: Request, m: NodeId)
    requires req.AddNodeToProfile? || req.RemoveNodeFromProfile?
    requires PlanOf(db, req).Push? && m != req.n
    ensures AllKept(db, PlanOf(db, req).db, m) && SameDevices(db, PlanOf(db, req).db)
  {
    DroppedProfile(db.profiles[req.p], req.n, None, m);
  }

  lemma BulkAddKeeps(db: Db, req: Request, m: NodeId)
    requires req.AddNodeToUsers? && PlanOf(db, req).Push? && m != req.n
    ensures AllKept(db, PlanOf(db, req).db, m) && SameDevices(db, PlanOf(db, req).db)
  {
    var db' := PlanOf(db, req).db;
    forall i | 0 <= i < |db.users|
      ensures UserKept(db.users[i], db.profiles, db'.users[i], db'.profiles, m)
              && db.users[i].devices == db'.users[i].devices
    {
      AddKeeps(db.users[i], db.profiles, req.n, m);
    }
  }

  lemma BulkRemoveKeepsExactly(db: Db, req: Request, m: NodeId)
    requires req.RemoveNodeFromUsers? && PlanOf(db, req).Push? && m != req.n
    ensures AllKept(db, PlanOf(db, req).db, m) <==> !Disturbs(db, req, m)
    ensures SameDevices(db, PlanOf(db, req).db)
  {
    var db' := PlanOf(db, req).db;
    forall i | 0 <= i < |db.users|
      ensures UserKept(db.users[i], db.profiles, db'.users[i], db'.profiles, m) <==>
              !(Targeted(db.users[i], req.bulk) && FallsBackTo(db.users[i], db.profiles, req.n, m))
      ensures db.users[i].devices == db'.users[i].devices
    {
      RemoveKeepsUnlessFallback(db.users[i], db.profiles, req.n, m);
    }
    EveryOrSome(db.users,
                i requires 0 <= i < |db.users| => UserKept(db.users[i], db.profiles, db'.users[i], db'.profiles, m),
                u => Targeted(u, req.bulk) && FallsBackTo(u, db.profiles, req.n, m));
  }

  /** Row by row "kept unless bad" adds up to "all kept unless some row is bad". */
  lemma EveryOrSome(users: seq<User>, kept: int --> bool, bad: User -> bool)
    requires forall i :: 0 <= i < |users| ==> kept.requires(i)
    requires forall i :: 0 <= i < |users| ==> (kept(i) <==> !bad(users[i]))
    ensures (forall i :: 0 <= i < |users| ==> kept(i)) <==> !exists u :: u in users && bad(u)
  {
    if forall i :: 0 <= i < |users| ==> kept(i) {
      forall u | u in users
        ensures !bad(u)
      {
        var i :| 0 <= i < |users| && users[i] == u;
        assert kept(i);
      }
    } else {
      var i :| 0 <= i < |users| && !kept(i);
      assert users[i] in users && bad(users[i]);
    }
  }

  lemma ReplaceKeeps(db: Db, req: Request, m: NodeId)
    requires req.ReplaceNode? && PlanOf(db, req).Push? && m != req.n && m != req.replacement
    ensures AllKept(db, PlanOf(db, req).db, m) && SameDevices(db, PlanOf(db, req).db)
  {
    var db' := PlanOf(db, req).db;
    forall i | 0 <= i < |db.users|
      ensures UserKept(db.users[i], db.profiles, db'.users[i], db'.profiles, m)
              && db.users[i].devices == db'.users[i].devices
    {
      DetachKeepsUnlessFallback(db.users[i], db.profiles, req.n, Some(req.replacement), m);
    }
  }

  lemma DetachKeepsExactly(db: Db, n: NodeId, m: NodeId)
    requires m != n
    ensures SameDevices(db, DetachFromDb(db, n))
    ensures AllKept(db, DetachFromDb(db, n), m) <==> !exists u :: u in db.users && FallsBackTo(u, db.profiles, n, m)
  {
    var db' := DetachFromDb(db, n);
    forall i | 0 <= i < |db.users|
      ensures UserKept(db.users[i], db.profiles, db'.users[i], db'.profiles, m) <==>
              !FallsBackTo(db.users[i], db.profiles, n, m)
      ensures db.users[i].id == db'.users[i].id && db.users[i].devices == db'.users[i].devices
    {
      DetachKeepsUnlessFallback(db.users[i], db.profiles, n, None, m);
    }
    EveryOrSome(db.users,
                i requires 0 <= i < |db.users| => UserKept(db.users[i], db.profiles, db'.users[i], db'.profiles, m),
                u => FallsBackTo(u, db.profiles, n, m));
  }

  lemma DeleteKeepsExactly(db: Db, req: Request, m: NodeId)
    requires req.DeleteNode? && PlanOf(db, req).Push? && m != req.n
    ensures AllKept(db, PlanOf(db, req).db, m) <==> !Disturbs(db, req, m)
    ensures SameDevices(db, PlanOf(db, req).db)
  {
    DetachKeepsExactly(db, req.n, m);
    DeletionDetaches(db, req);
  }

  lemma DeletionDetaches(db: Db, req: Request)
    requires req.DeleteNode? && PlanOf(db, req).Push?
    ensures PlanOf(db, req).db == SetStatus(DetachFromDb(db, req.n), req.n, NodeStatus.Disabled)
  {
  }

  /** Deleting a node that is not in use needs no guard: only deleted users can still link to it. */
  lemma UnforcedDeleteDisturbsNothing(db: Db, n: NodeId, m: NodeId)
    requires PlanOf(db, DeleteNode(n, false)).Push?
    ensures !Disturbs(db, DeleteNode(n, false), m)
  {
    forall u | u in db.users
      ensures !FallsBackTo(u, db.profiles, n, m)
    {
      assert n in u.nodeLinks <==> n in SeqSet(u.nodeLinks);
    }
  }

  lemma StatusKeepsExactly(db: Db, id: UserId, status: UserStatus, m: NodeId)
    requires ValidDb(db) && PlanStatus(db, id, status).Push? && m !in PlanStatus(db, id, status).targets
    ensures SameDevices(db, PlanStatus(db, id, status).db)
    ensures AllKept(db, PlanStatus(db, id, status).db, m) <==>
            !exists u :: && u in db.users && u.id == id
                         && (u.status == UserStatus.Active) != (status == UserStatus.Active)
                         && InheritsShown(u, db.profiles, m)
  {
    var k := FindUser(db.users, id).value;
    var u := db.users[k];
    assert forall v :: v in db.users && v.id == id ==> v == u;
    var db' := PlanStatus(db, id, status).db;
    LinksAreSet(u);
    assert UserKept(u, db.profiles, db'.users[k], db.profiles, m) <==>
           !((u.status == UserStatus.Active) != (status == UserStatus.Active) && InheritsShown(u, db.profiles, m));
    assert forall i :: 0 <= i < |db.users| && i != k ==> db'.users[i] == db.users[i];
  }

  lemma StatusRequestsKeepExactly(db: Db, req: Request, m: NodeId)
    requires ValidDb(db) && (req.EnableUser? || req.DisableUser? || req.ResetTraffic?)
    requires PlanOf(db, req).Push? && m !in PlanOf(db, req).targets
    ensures SameDevices(db, PlanOf(db, req).db)
    ensures AllKept(db, PlanOf(db, req).db, m) <==> !Disturbs(db, req, m)
  {
    match req
    case EnableUser(id) => StatusKeepsExactly(db, id, UserStatus.Active, m);
    case DisableUser(id) => StatusKeepsExactly(db, id, UserStatus.Disabled, m);
    case ResetTraffic(id) =>
      var u := db.users[FindUser(db.users, id).value];
      assert forall v :: v in db.users && v.id == id ==> v == u;
      StatusKeepsExactly(db, id, if u.status == UserStatus.TrafficLimited then UserStatus.Active else u.status, m);
  }

  lemma UpdateProfileKeepsExactly(db: Db, req: Request, m: NodeId)
    requires ValidLists(db.profiles)
    requires req.UpdateProfile? && PlanOf(db, req).Push? && m !in PlanOf(db, req).targets && m in db.nodes
    requires db.nodes[m].status == NodeStatus.Online
    ensures SameDevices(db, PlanOf(db, req).db)
    ensures AllKept(db, PlanOf(db, req).db, m) <==> !Disturbs(db, req, m)
  {
    var db' := PlanOf(db, req).db;
    NormalizeIdempotent(req.profile.blockedDomains);
    var before := db.profiles[req.p];
    assert m !in before.allowedNodes && m !in db'.profiles[req.p].allowedNodes;
    var differs := Normalized(req.profile.blockedDomains) != Normalized(before.blockedDomains);
    forall i | 0 <= i < |db.users|
      ensures UserKept(db.users[i], db.profiles, db'.users[i], db'.profiles, m) <==>
              !(differs && db.users[i].profileId == Some(req.p) && db.users[i].nodeLinks != []
                && Shows(db.users[i], db.profiles, m))
    {
      var u := db.users[i];
      if u.profileId == Some(req.p) {
        assert BlockedOf(u, db.profiles) == Normalized(before.blockedDomains);
        assert BlockedOf(u, db'.profiles) == Normalized(req.profile.blockedDomains);
      }
    }
    EveryOrSome(db.users,
                i requires 0 <= i < |db.users| => UserKept(db.users[i], db.profiles, db'.users[i], db'.profiles, m),
                (u: User) => differs && u.profileId == Some(req.p) && u.nodeLinks != [] && Shows(u, db.profiles, m));
  }

  /** Requests about one user's devices or row push to every node where the user was or is shown. */
  lemma UserRequestsKeep(db: Db, req: Request, m: NodeId)
    requires ChangesDevicesOrUser(req) && !req.CreateUser?
    requires (PlanOf(db, req).Push? && m !in PlanOf(db, req).targets) || PlanOf(db, req).Commit?
    ensures AllKept(db, PlanOf(db, req).db, m)
  {
    var db' := PlanOf(db, req).db;
    if db' != db {
      FoundUser(db, req);
      var i := FindUser(db.users, req.u).value;
      UserRequestHidesUser(db, req, i, m);
      HiddenRowKeeps(db, i, db'.users[i], m);
    }
  }

  lemma FoundUser(db: Db, req: Request)
    requires ChangesDevicesOrUser(req) && !req.CreateUser? && (PlanOf(db, req).Push? || PlanOf(db, req).Commit?)
    ensures FindUser(db.users, req.u).Some?
  {
  }

  lemma HiddenRowKeeps(db: Db, i: nat, u: User, m: NodeId)
    requires i < |db.users| && u.id == db.users[i].id
    requires !Shows(db.users[i], db.profiles, m) && !Shows(u, db.profiles, m)
    ensures AllKept(db, SetUser(db, i, u), m)
  {
  }

  lemma UserRequestHidesUser(db: Db, req: Request, i: nat, m: NodeId)
    requires ChangesDevicesOrUser(req) && !req.CreateUser?
    requires FindUser(db.users, req.u) == Some(i)
    requires (PlanOf(db, req).Push? && m !in PlanOf(db, req).targets)
             || (PlanOf(db, req).Commit? && PlanOf(db, req).db != db)
    ensures var db' := PlanOf(db, req).db;
            !Shows(db.users[i], db.profiles, m) && !Shows(db'.users[i], db.profiles, m)
                && db.users[i].id == db'.users[i].id
            && db' == SetUser(db, i, db'.users[i])
  {
    var u, db' := db.users[i], PlanOf(db, req).db;
    if req.UpdateUser? {
      var u' := WithPayload(db, u, req.payload);
      LinksAreSet(u');
      assert EffectiveNodeIds(u', db.profiles) == PayloadEffectiveIds(db, req.payload);
    }
  }

  /** A new user has no devices yet, so it shows nowhere. */
  lemma NewUserShowsNowhere(db: Db, req: Request, m: NodeId)
    requires req.CreateUser? && PlanOf(db, req).Push?
    requires ValidLists(db.profiles) && m in db.nodes && db.nodes[m].id == m
    ensures Render(PlanOf(db, req).db, m) == Render(db, m)
  {
    var db' := PlanOf(db, req).db;
    var u := db'.users[|db.users|];
    assert db'.users[..|db.users|] == db.users;
    assert ServingDevices(u.devices) == [];
    assert Clients(u, []) == [] && Emails(u, []) == [];
    ListIsValid(u, db.profiles);
    assert UserRules(u, db.profiles, m) == Success([]);
    var rules := ServerBlockRules(db.users, db.profiles, m);
    assert rules.Success? ==> rules.value + [] == rules.value;
    var clients := AkfaClients(db.users, db.profiles, db.nodes[m]);
    assert clients + [] == clients;
  }

  // ---------- affected-set soundness, and exactly where it stops ----------

  lemma KeptExactly(db: Db, req: Request, m: NodeId)
    requires ValidDb(db) && ValidLists(db.profiles)
    requires PlanOf(db, req).Push? && !req.CreateUser?
    requires m in db.nodes && m !in PlanOf(db, req).targets && db.nodes[m].status == NodeStatus.Online
    ensures AllKept(db, PlanOf(db, req).db, m) <==> !Disturbs(db, req, m)
    ensures !ChangesDevicesOrUser(req) ==> SameDevices(db, PlanOf(db, req).db)
  {
    match req
    case DisableNode(_) => NodeRequestsKeep(db, req, m);
    case MaintenanceNode(_) => NodeRequestsKeep(db, req, m);
    case EnableNode(_) => NodeRequestsKeep(db, req, m);
    case ApplyNodeConfig(_, _) => NodeRequestsKeep(db, req, m);
    case UpdateNode(_, _, _, _, _, _) => NodeRequestsKeep(db, req, m);
    case AddNodeToProfile(_, _) => ProfileMembershipKeeps(db, req, m);
    case RemoveNodeFromProfile(_, _) => ProfileMembershipKeeps(db, req, m);
    case AddNodeToUsers(_, _) => BulkAddKeeps(db, req, m);
    case RemoveNodeFromUsers(_, _) => BulkRemoveKeepsExactly(db, req, m);
    case ReplaceNode(_, _) => ReplaceKeeps(db, req, m);
    case DeleteNode(_, _) => DeleteKeepsExactly(db, req, m);
    case UpdateProfile(_, _) => UpdateProfileKeepsExactly(db, req, m);
    case EnableUser(_) => StatusRequestsKeepExactly(db, req, m);
    case DisableUser(_) => StatusRequestsKeepExactly(db, req, m);
    case ResetTraffic(_) => StatusRequestsKeepExactly(db, req, m);
    case UpdateUser(_, _) => UserRequestsKeep(db, req, m);
    case DeleteUser(_) => UserRequestsKeep(db, req, m);
    case RegisterDevice(_, _, _, _, _) => UserRequestsKeep(db, req, m);
    case RemoveDevice(_, _) => UserRequestsKeep(db, req, m);
    case ResetDevices(_) => UserRequestsKeep(db, req, m);
  }

  /** A request writes node rows only of its targets, and keeps the stored lists valid. */
  lemma PlanFrame(db: Db, req: Request)
    requires ValidLists(db.profiles)
    ensures var plan := PlanOf(db, req);
            plan.Push? ==> && plan.db.nodes.Keys == db.nodes.Keys && ValidLists(plan.db.profiles)
                           && (forall m :: m in db.nodes && m !in plan.targets ==> plan.db.nodes[m] == db.nodes[m])
    ensures var plan := PlanOf(db, req);
            plan.Commit? ==> plan.db.nodes == db.nodes && plan.db.profiles == db.profiles
  {
    var plan := PlanOf(db, req);
    match req
    case ReplaceNode(n, m) => DetachFrame(db, req, n, Some(m));
    case DeleteNode(n, _) => DetachFrame(db, req, n, None);
    case UpdateProfile(_, _) => StoredProfileFrame(db, req);
    case AddNodeToProfile(_, _) =>
    case RemoveNodeFromProfile(_, _) =>
    case _ => RowRequestFrame(db, req);
  }

  /** Requests that leave the profiles alone. */
  lemma RowRequestFrame(db: Db, req: Request)
    requires !req.ReplaceNode? && !req.DeleteNode? && !req.UpdateProfile?
    requires !req.AddNodeToProfile? && !req.RemoveNodeFromProfile?
    ensures var plan := PlanOf(db, req);
            && (plan.Push? ==> && plan.db.profiles == db.profiles && plan.db.nodes.Keys == db.nodes.Keys
                               && (forall m :: m in db.nodes && m !in plan.targets ==> plan.db.nodes[m] == db.nodes[m]))
            && (plan.Commit? ==> plan.db.profiles == db.profiles && plan.db.nodes == db.nodes)
  {
    if WritesOnlyNode(req) {
      NodeRowFrame(db, req);
    } else {
      UserRowsFrame(db, req);
    }
  }

  lemma NodeRowFrame(db: Db, req: Request)
    requires WritesOnlyNode(req)
    ensures var plan := PlanOf(db, req);
            && !plan.Commit?
            && (plan.Push? ==> && plan.db.profiles == db.profiles && plan.db.nodes.Keys == db.nodes.Keys
                               && (forall m :: m in db.nodes && m !in plan.targets ==> plan.db.nodes[m] == db.nodes[m]))
  {
  }

  lemma UserRowsFrame(db: Db, req: Request)
    requires !WritesOnlyNode(req) && !req.ReplaceNode? && !req.DeleteNode? && !req.UpdateProfile?
    requires !req.AddNodeToProfile? && !req.RemoveNodeFromProfile?
    ensures var plan := PlanOf(db, req);
            !plan.Refused? ==> plan.db.profiles == db.profiles && plan.db.nodes == db.nodes
  {
  }

  lemma StoredProfileFrame(db: Db, req: Request)
    requires ValidLists(db.profiles) && req.UpdateProfile?
    ensures var plan := PlanOf(db, req);
            plan.Push? ==> plan.db.nodes == db.nodes && ValidLists(plan.db.profiles)
  {
    if PlanOf(db, req).Push? {
      NormalizeIdempotent(req.profile.blockedDomains);
    }
  }

  lemma DetachFrame(db: Db, req: Request, n: NodeId, replacement: Option<NodeId>)
    requires ValidLists(db.profiles) && (req.ReplaceNode? || req.DeleteNode?) && req.n == n
    requires req.ReplaceNode? ==> replacement == Some(req.replacement)
    requires req.DeleteNode? ==> replacement == None
    ensures var plan := PlanOf(db, req);
            plan.Push? ==> && plan.db.nodes.Keys == db.nodes.Keys && ValidLists(plan.db.profiles)
                           && (forall m :: m in db.nodes && m !in plan.targets ==> plan.db.nodes[m] == db.nodes[m])
  {
    DroppedListsValid(db.profiles, n, replacement);
  }

  lemma DroppedListsValid(ps: map<ProfileId, Profile>, n: NodeId, replacement: Option<NodeId>)
    requires ValidLists(ps)
    ensures ValidLists(DropFromProfiles(ps, n, replacement))
  {
    var ps' := DropFromProfiles(ps, n, replacement);
    assert forall p :: p in ps ==> ps'[p].blockedDomains == ps[p].blockedDomains;
  }

  /**
   Affected-set soundness with its exact limit: an online node outside the pushed set
   renders the same configuration before and after unless the request disturbs it.
   */
  lemma AffectedSetIsExact(db: Db, req: Request, m: NodeId)
    requires ValidDb(db) && ValidLists(db.profiles) && PlanOf(db, req).Push?
    requires m in db.nodes && m !in PlanOf(db, req).targets && db.nodes[m].status == NodeStatus.Online
    requires db.nodes[m].credentials.privateKey != ""
    ensures m in PlanOf(db, req).db.nodes
    ensures Render(PlanOf(db, req).db, m) == Render(db, m) <==> !Disturbs(db, req, m)
  {
    PlanFrame(db, req);
    if !Disturbs(db, req, m) {
      OutsideTargetsUnchanged(db, req, m);
    } else {
      KeptExactly(db, req, m);
      var db' := PlanOf(db, req).db;
      assert !ChangesDevicesOrUser(req);
      var i :| 0 <= i < |db.users| && !UserKept(db.users[i], db.profiles, db'.users[i], db'.profiles, m);
      SamePartWhen(db.users[i], db.profiles, db'.users[i], db'.profiles, db.nodes[m]);
      forall u | u in db.users
        ensures BlockedOf(u, db.profiles).Success?
      {
        ListIsValid(u, db.profiles);
      }
      RenderFailsExactlyWhen(db, m);
      RenderDeterminesParts(db, db', m);
    }
  }

  lemma OutsideTargetsUnchanged(db: Db, req: Request, m: NodeId)
    requires ValidDb(db) && ValidLists(db.profiles) && PlanOf(db, req).Push?
    requires m in db.nodes && m !in PlanOf(db, req).targets && db.nodes[m].status == NodeStatus.Online
    requires !Disturbs(db, req, m)
    ensures m in PlanOf(db, req).db.nodes && PlanOf(db, req).db.nodes[m] == db.nodes[m]
    ensures Render(PlanOf(db, req).db, m) == Render(db, m)
  {
    PlanFrame(db, req);
    if req.CreateUser? {
      NewUserShowsNowhere(db, req, m);
    } else {
      KeptExactly(db, req, m);
      KeptUsersKeepRender(db, PlanOf(db, req).db, m);
    }
  }
}
