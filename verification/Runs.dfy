/**
 Whole runs of requests: the agreement between the database and the servers, the
 exact conditions under which one request keeps it, and what is left behind when a
 request rolls back after some servers were already written.
 */
module Runs {
  import opened Wrappers
  import opened Entities
  import opened XrayConfig
  import opened Rendering
  import opened ConfigApply
  import opened Requests
  import opened Agreement
  import opened Rollbacks

  // ---------- one push ----------

  /**
   Pushing with `allow_non_online` brings a draft, failed or offline node online; harmless only if
   nobody belongs there.
   */
  predicate FlipSafe(db: Db, n: NodeId, allowNonOnline: bool)
    requires n in db.nodes
  {
    var node := db.nodes[n];
    || KeepsStatus(node.status) || !allowNonOnline || !HasInstalledXray(node)
    || AkfaClients(db.users, db.profiles, node.(status := NodeStatus.Online)) == []
  }

  /** Rendering before and after a node goes online differs only in its own clients. */
  lemma OnlineRendering(users: seq<User>, profiles: map<ProfileId, Profile>, node: Node, online: Node)
    requires online ==
             node.(status := NodeStatus.Online, logShowsXray := online.logShowsXray, lastApply := online.lastApply)
    requires node.status != NodeStatus.Online && RenderServerConfig(users, profiles, node).Success?
    ensures RenderServerConfig(users, profiles, online) == RenderServerConfig(users, profiles, node) <==>
            AkfaClients(users, profiles, online) == []
  {
    NoClientsUnlessOnline(users, profiles, node);
    var akfa := AkfaClients(users, profiles, online);
    AkfaClientsAreMarked(users, profiles, online);
    if RenderServerConfig(users, profiles, online) == RenderServerConfig(users, profiles, node) {
      MergeDeterminesOwn(node, akfa, []);
    }
  }

  lemma OnlyStatusMatters(users: seq<User>, profiles: map<ProfileId, Profile>, a: Node, b: Node)
    requires a.id == b.id && a.status == b.status
    ensures AkfaClients(users, profiles, a) == AkfaClients(users, profiles, b)
  {
    SameClients(users, profiles, users, profiles, a, b);
  }

  /**
   The exact limit of a push to a node that is neither online, disabled, in
   maintenance nor deleted: a successful apply leaves it online, and it runs what the
   database renders for it exactly when it has no clients of its own.
   */
  lemma FlipIsExact(sys: System, targets: set<NodeId>, attempts: NodeId -> Attempt, n: NodeId)
    requires n in targets && n in sys.db.nodes && !KeepsStatus(sys.db.nodes[n].status)
    requires StepAt(sys, n, true, attempts).status == ResultSuccess
    ensures var after := AfterApply(sys, targets, true, attempts);
            && after.db.nodes[n].status == NodeStatus.Online
            && (RunsItsConfig(after, n) <==>
                AkfaClients(sys.db.users, sys.db.profiles, sys.db.nodes[n].(status := NodeStatus.Online)) == [])
  {
    var node := sys.db.nodes[n];
    var step := StepAt(sys, n, true, attempts);
    var prepared := Prepared(node, attempts(n));
    OnlyStatusMatters(sys.db.users, sys.db.profiles, step.node, node.(status := NodeStatus.Online));
    OnlineRendering(sys.db.users, sys.db.profiles, prepared, step.node);
  }

  /**
   A target of a push ends in sync: written with its own rendering, skipped, or on record
   as failed.  The one exception is a successful push that brings a node with clients online.
   */
  lemma TargetInSyncExactly(sys: System, targets: set<NodeId>, allow: bool, attempts: NodeId -> Attempt, n: NodeId)
    requires n in targets && n in sys.db.nodes
    ensures NodeInSync(AfterApply(sys, targets, allow, attempts), n) <==> TargetSafe(sys, n, allow, attempts)
  {
    if StepAt(sys, n, allow, attempts).status != ResultSuccess {
      WithoutSuccessInSync(sys, targets, allow, attempts, n);
    } else if KeepsStatus(sys.db.nodes[n].status) {
      AppliedInSync(sys, targets, allow, attempts, n);
    } else {
      FlippedInSyncExactly(sys, targets, allow, attempts, n);
    }
  }

  lemma WithoutSuccessInSync(sys: System, targets: set<NodeId>, allow: bool, attempts: NodeId -> Attempt, n: NodeId)
    requires n in targets && n in sys.db.nodes && StepAt(sys, n, allow, attempts).status != ResultSuccess
    ensures NodeInSync(AfterApply(sys, targets, allow, attempts), n)
  {
    WithoutSuccessNotCounted(sys.db.users, sys.db.profiles, sys.db.nodes[n], Live(sys, n), allow, attempts(n));
    assert !Counts(AfterApply(sys, targets, allow, attempts), n);
  }

  /** A skipped node was not online or has no Xray, and a failure is on record. */
  lemma WithoutSuccessNotCounted(users: seq<User>, profiles: map<ProfileId, Profile>, node: Node, live: Option<Config>,
                                 allow: bool, attempt: Attempt)
    requires ApplyNode(users, profiles, node, live, allow, attempt).status != ResultSuccess
    ensures var next := ApplyNode(users, profiles, node, live, allow, attempt).node;
            next.status != NodeStatus.Online || !HasInstalledXray(next) || next.lastApply == ApplyFailed
  {
  }

  lemma AppliedInSync(sys: System, targets: set<NodeId>, allow: bool, attempts: NodeId -> Attempt, n: NodeId)
    requires n in targets && n in sys.db.nodes && StepAt(sys, n, allow, attempts).status == ResultSuccess
    requires KeepsStatus(sys.db.nodes[n].status)
    ensures NodeInSync(AfterApply(sys, targets, allow, attempts), n) && TargetSafe(sys, n, allow, attempts)
  {
    SuccessIsDeployed(sys, targets, allow, attempts, n);
  }

  lemma FlippedInSyncExactly(sys: System, targets: set<NodeId>, allow: bool, attempts: NodeId -> Attempt, n: NodeId)
    requires n in targets && n in sys.db.nodes && StepAt(sys, n, allow, attempts).status == ResultSuccess
    requires !KeepsStatus(sys.db.nodes[n].status)
    ensures NodeInSync(AfterApply(sys, targets, allow, attempts), n) <==> TargetSafe(sys, n, allow, attempts)
  {
    FlipIsExact(sys, targets, attempts, n);
  }

  lemma OthersKeepTheirs(sys: System, targets: set<NodeId>, allow: bool, attempts: NodeId -> Attempt, n: NodeId)
    requires n !in targets && n in sys.db.nodes
    ensures var after := AfterApply(sys, targets, allow, attempts);
            NodeInSync(after, n) == NodeInSync(sys, n) && after.db.nodes[n] == sys.db.nodes[n]
                && Live(after, n) == Live(sys, n)
  {
    var after := AfterApply(sys, targets, allow, attempts);
    assert LiveAfter(sys, targets, allow, attempts, n) == Live(sys, n);
    assert n in after.deployed <==> n in sys.deployed;
    assert Render(after.db, n) == Render(sys.db, n);
  }

  // ---------- one request ----------

  /** The attempts of a rolled-back request left every counted target as it was. */
  predicate RollbackHarmless(sys: System, req: Request, attempts: NodeId -> Attempt)
    requires PlanOf(sys.db, req).Push?
  {
    forall n :: n in PlanOf(sys.db, req).targets && n in sys.db.nodes && Counts(sys, n) ==>
      OutcomeHarmless(sys, req, n, attempts(n))
  }

  /** The side conditions of one request, each the guard of a branch that would break agreement. */
  predicate Admissible(sys: System, req: Request, attempts: NodeId -> Attempt) {
    var plan := PlanOf(sys.db, req);
    plan.Push? ==>
      if RollsBack(sys, req, attempts) then RollbackHarmless(sys, req, attempts)
      else
        && (forall m :: m in sys.db.nodes && m !in plan.targets && Counts(sys, m) ==> !Disturbs(sys.db, req, m))
        && (forall n :: n in plan.targets && n in plan.db.nodes ==>
              TargetSafe(System(plan.db, sys.deployed), n, plan.allowNonOnline, attempts))
  }

  /** The push does not bring a node with clients online. */
  predicate TargetSafe(planned: System, n: NodeId, allow: bool, attempts: NodeId -> Attempt)
    requires n in planned.db.nodes
  {
    FlipSafe(planned.db, n, allow) || StepAt(planned, n, allow, attempts).status != ResultSuccess
  }

  /**
   What a rollback leaves: the database is restored, and agreement survives exactly when
   the attempt at every counted target did not start, failed leaving what was live, or
   applied the removal of devices that were not let in.
   */
  lemma RollbackIsExact(sys: System, req: Request, attempts: NodeId -> Attempt)
    requires InSync(sys) && ValidDb(sys.db) && ValidLists(sys.db.profiles) && FreshDevice(sys.db, req)
    requires RollsBack(sys, req, attempts)
    ensures Step(sys, req, attempts).db == sys.db
    ensures InSync(Step(sys, req, attempts)) <==> RollbackHarmless(sys, req, attempts)
  {
    forall n | n in sys.db.nodes
      ensures NodeInSync(Step(sys, req, attempts), n) <==>
              (n in PlanOf(sys.db, req).targets && Counts(sys, n) ==> OutcomeHarmless(sys, req, n, attempts(n)))
    {
      RolledBackNode(sys, req, attempts, n);
    }
  }

  lemma RolledBackNode(sys: System, req: Request, attempts: NodeId -> Attempt, n: NodeId)
    requires InSync(sys) && ValidDb(sys.db) && ValidLists(sys.db.profiles) && FreshDevice(sys.db, req)
    requires RollsBack(sys, req, attempts) && n in sys.db.nodes
    ensures Step(sys, req, attempts).db == sys.db
    ensures NodeInSync(Step(sys, req, attempts), n) <==>
            (n in PlanOf(sys.db, req).targets && Counts(sys, n) ==> OutcomeHarmless(sys, req, n, attempts(n)))
  {
    var plan := PlanOf(sys.db, req);
    var next := Step(sys, req, attempts);
    PlanFrame(sys.db, req);
    assert NodeInSync(sys, n);
    assert Render(next.db, n) == Render(sys.db, n);
    assert Live(next, n) == LiveAfter(System(plan.db, sys.deployed), plan.targets, plan.allowNonOnline, attempts, n);
    assert NodeInSync(next, n) <==> (Counts(sys, n) ==> Live(next, n) == Live(sys, n));
    if n in plan.targets && Counts(sys, n) {
      LiveKeptExactly(sys, req, attempts, n);
    }
  }

  /** An outside node stays in agreement exactly when it does not count or is not disturbed. */
  lemma OutsideInSyncExactly(sys: System, req: Request, attempts: NodeId -> Attempt, m: NodeId)
    requires InSync(sys) && ValidDb(sys.db) && ValidLists(sys.db.profiles) && PlanOf(sys.db, req).Push?
    requires m in sys.db.nodes && m !in PlanOf(sys.db, req).targets
    ensures var plan := PlanOf(sys.db, req);
            var after := AfterApply(System(plan.db, sys.deployed), plan.targets, plan.allowNonOnline, attempts);
            m in after.db.nodes && (NodeInSync(after, m) <==> (Counts(sys, m) ==> !Disturbs(sys.db, req, m)))
  {
    var plan := PlanOf(sys.db, req);
    PlanFrame(sys.db, req);
    OthersKeepTheirs(System(plan.db, sys.deployed), plan.targets, plan.allowNonOnline, attempts, m);
    if Counts(sys, m) {
      assert NodeInSync(sys, m);
      RenderFailsExactlyWhen(sys.db, m);
      AffectedSetIsExact(sys.db, req, m);
    }
  }

  lemma TargetsInSyncExactly(planned: System, targets: set<NodeId>, allow: bool, attempts: NodeId -> Attempt)
    ensures var after := AfterApply(planned, targets, allow, attempts);
            (forall n :: n in targets && n in after.db.nodes ==> NodeInSync(after, n)) <==>
            (forall n :: n in targets && n in planned.db.nodes ==> TargetSafe(planned, n, allow, attempts))
  {
    forall n | n in targets && n in planned.db.nodes
      ensures NodeInSync(AfterApply(planned, targets, allow, attempts), n) <==> TargetSafe(planned, n, allow, attempts)
    {
      TargetInSyncExactly(planned, targets, allow, attempts, n);
    }
  }

  lemma OutsidersInSyncExactly(sys: System, req: Request, attempts: NodeId -> Attempt)
    requires InSync(sys) && ValidDb(sys.db) && ValidLists(sys.db.profiles) && PlanOf(sys.db, req).Push?
    ensures var plan := PlanOf(sys.db, req);
            var after := AfterApply(System(plan.db, sys.deployed), plan.targets, plan.allowNonOnline, attempts);
            && after.db.nodes.Keys == sys.db.nodes.Keys
            && ((forall m :: m in after.db.nodes && m !in plan.targets ==> NodeInSync(after, m)) <==>
                (forall m :: m in sys.db.nodes && m !in plan.targets && Counts(sys, m) ==> !Disturbs(sys.db, req, m)))
  {
    var plan := PlanOf(sys.db, req);
    PlanFrame(sys.db, req);
    forall m | m in sys.db.nodes && m !in plan.targets
      ensures var after := AfterApply(System(plan.db, sys.deployed), plan.targets, plan.allowNonOnline, attempts);
              m in after.db.nodes && (NodeInSync(after, m) <==> (Counts(sys, m) ==> !Disturbs(sys.db, req, m)))
    {
      OutsideInSyncExactly(sys, req, attempts, m);
    }
  }

  lemma PushKeepsSyncExactly(sys: System, req: Request, attempts: NodeId -> Attempt)
    requires InSync(sys) && ValidDb(sys.db) && ValidLists(sys.db.profiles)
    requires PlanOf(sys.db, req).Push? && !RollsBack(sys, req, attempts)
    ensures var plan := PlanOf(sys.db, req);
            InSync(AfterApply(System(plan.db, sys.deployed), plan.targets, plan.allowNonOnline, attempts)) <==>
            Admissible(sys, req, attempts)
  {
    var plan := PlanOf(sys.db, req);
    TargetsInSyncExactly(System(plan.db, sys.deployed), plan.targets, plan.allowNonOnline, attempts);
    OutsidersInSyncExactly(sys, req, attempts);
  }

  lemma CommitKeepsSync(sys: System, req: Request, attempts: NodeId -> Attempt)
    requires InSync(sys) && ValidDb(sys.db) && ValidLists(sys.db.profiles) && PlanOf(sys.db, req).Commit?
    ensures InSync(Step(sys, req, attempts))
  {
    PlanFrame(sys.db, req);
    var next := Step(sys, req, attempts);
    forall n | n in next.db.nodes
      ensures NodeInSync(next, n)
    {
      assert NodeInSync(sys, n);
      if sys.db.nodes[n].status == NodeStatus.Online && next.db != sys.db {
        UserRequestsKeep(sys.db, req, n);
        KeptUsersKeepRender(sys.db, next.db, n);
      }
    }
  }

  /** Marking a pushed node deleted neither adds nor removes a disagreement: its status no longer counts. */
  lemma DeletionKeepsSync(after: System, n: NodeId)
    requires n in after.db.nodes && after.db.nodes[n].status != NodeStatus.Online
    ensures InSync(after.(db := SetStatus(after.db, n, NodeStatus.Deleted))) <==> InSync(after)
  {
    var next := after.(db := SetStatus(after.db, n, NodeStatus.Deleted));
    forall m | m in after.db.nodes
      ensures NodeInSync(next, m) <==> NodeInSync(after, m)
    {
      if m != n {
        assert Render(next.db, m) == Render(after.db, m);
      }
    }
  }

  /** One request, committed or rolled back, keeps agreement if and only if it is admissible. */
  lemma StepKeepsSyncExactly(sys: System, req: Request, attempts: NodeId -> Attempt)
    requires InSync(sys) && ValidDb(sys.db) && ValidLists(sys.db.profiles) && FreshDevice(sys.db, req)
    ensures InSync(Step(sys, req, attempts)) <==> Admissible(sys, req, attempts)
  {
    var plan := PlanOf(sys.db, req);
    if plan.Commit? {
      CommitKeepsSync(sys, req, attempts);
    } else if plan.Push? {
      if RollsBack(sys, req, attempts) {
        RollbackIsExact(sys, req, attempts);
      } else {
        PushKeepsSyncExactly(sys, req, attempts);
        PushedStepSync(sys, req, attempts);
      }
    }
  }

  lemma PushedStepSync(sys: System, req: Request, attempts: NodeId -> Attempt)
    requires PlanOf(sys.db, req).Push? && !RollsBack(sys, req, attempts)
    ensures var plan := PlanOf(sys.db, req);
            InSync(Step(sys, req, attempts)) <==>
            InSync(AfterApply(System(plan.db, sys.deployed), plan.targets, plan.allowNonOnline, attempts))
  {
    if PlanOf(sys.db, req).deletes.Some? {
      DeletedStepSync(sys, req, attempts);
    } else {
      PushWithoutDeletion(sys, req, attempts);
    }
  }

  lemma PushWithoutDeletion(sys: System, req: Request, attempts: NodeId -> Attempt)
    requires PlanOf(sys.db, req).Push? && PlanOf(sys.db, req).deletes.None? && !RollsBack(sys, req, attempts)
    ensures var plan := PlanOf(sys.db, req);
            Step(sys, req, attempts) ==
            AfterApply(System(plan.db, sys.deployed), plan.targets, plan.allowNonOnline, attempts)
  {
  }

  lemma DeletedStepSync(sys: System, req: Request, attempts: NodeId -> Attempt)
    requires PlanOf(sys.db, req).Push? && PlanOf(sys.db, req).deletes.Some?
    ensures var plan := PlanOf(sys.db, req);
            InSync(Step(sys, req, attempts)) <==>
            InSync(AfterApply(System(plan.db, sys.deployed), plan.targets, plan.allowNonOnline, attempts))
  {
    DeletePlan(sys.db, req);
    var db := PlanOf(sys.db, req).db;
    PushedDelete(sys, req, attempts, db, req.n);
    PushedStaysOff(System(db, sys.deployed), req.n, attempts);
    DeletionKeepsSync(AfterApply(System(db, sys.deployed), {req.n}, true, attempts), req.n);
  }

  lemma PushedStaysOff(planned: System, n: NodeId, attempts: NodeId -> Attempt)
    requires n in planned.db.nodes && planned.db.nodes[n].status == NodeStatus.Disabled
    ensures var after := AfterApply(planned, {n}, true, attempts);
            n in after.db.nodes && after.db.nodes[n].status == NodeStatus.Disabled
  {
  }

  /** The one plan that marks a node deleted pushes to it as disabled. */
  lemma DeletePlan(db: Db, req: Request)
    requires PlanOf(db, req).Push? && PlanOf(db, req).deletes.Some?
    ensures req.DeleteNode?
    ensures var plan := PlanOf(db, req);
            && plan == Push(plan.db, {req.n}, true, false, Some(req.n))
            && req.n in plan.db.nodes && plan.db.nodes[req.n].status == NodeStatus.Disabled
  {
  }

  // ---------- validity is kept ----------

  lemma PlanKeepsUsersValid(db: Db, req: Request)
    requires ValidDb(db) && ValidLists(db.profiles) && FreshDevice(db, req)
    ensures PlanOf(db, req).Push? ==> ValidDb(PlanOf(db, req).db)
    ensures PlanOf(db, req).Commit? ==> ValidDb(PlanOf(db, req).db)
  {
    var plan := PlanOf(db, req);
    if plan.Push? || plan.Commit? {
      if ChangesDevicesOrUser(req) {
        UserRequestKeepsValid(db, req);
      } else if plan.Push? {
        OtherRequestKeepsRows(db, req);
        forall i, j, k | 0 <= i < |plan.db.users| && 0 <= j < k < |plan.db.users[i].devices|
          ensures plan.db.users[i].devices[j].id != plan.db.users[i].devices[k].id
        {
          assert db.users[i] in db.users;
        }
        forall u, j, k | u in plan.db.users && 0 <= j < k < |u.devices|
          ensures u.devices[j].id != u.devices[k].id
        {
          var i :| 0 <= i < |plan.db.users| && plan.db.users[i] == u;
        }
      }
    }
  }

  lemma OtherRequestKeepsRows(db: Db, req: Request)
    requires ValidDb(db) && !ChangesDevicesOrUser(req) && PlanOf(db, req).Push?
    ensures SameDevices(db, PlanOf(db, req).db)
    ensures forall n :: n in PlanOf(db, req).db.nodes ==> PlanOf(db, req).db.nodes[n].id == n
  {
    PlanKeepsNodeIds(db, req);
    PlanKeepsDevices(db, req);
  }

  lemma PlanKeepsNodeIds(db: Db, req: Request)
    requires ValidDb(db) && PlanOf(db, req).Push?
    ensures forall n :: n in PlanOf(db, req).db.nodes ==> PlanOf(db, req).db.nodes[n].id == n
  {
    if WritesNode(req) {
      assert forall m :: m in db.nodes && m != req.n ==> PlanOf(db, req).db.nodes[m] == db.nodes[m];
    } else {
      NodesUntouched(db, req);
    }
  }

  predicate WritesNode(req: Request) {
    WritesOnlyNode(req) || req.DeleteNode?
  }

  lemma NodesUntouched(db: Db, req: Request)
    requires PlanOf(db, req).Push? && !WritesNode(req)
    ensures PlanOf(db, req).db.nodes == db.nodes
  {
  }

  lemma PlanKeepsDevices(db: Db, req: Request)
    requires !ChangesDevicesOrUser(req) && PlanOf(db, req).Push?
    ensures SameDevices(db, PlanOf(db, req).db)
  {
    match req
    case EnableUser(id) => RowsOfStatus(db, id, UserStatus.Active);
    case DisableUser(id) => RowsOfStatus(db, id, UserStatus.Disabled);
    case ResetTraffic(id) =>
      var u := db.users[FindUser(db.users, id).value];
      RowsOfStatus(db, id, if u.status == UserStatus.TrafficLimited then UserStatus.Active else u.status);
    case AddNodeToUsers(_, _) => RowsOfBulk(db, req);
    case RemoveNodeFromUsers(_, _) => RowsOfBulk(db, req);
    case ReplaceNode(n, m) => RowsOfDetach(db, n, Some(m));
    case DeleteNode(n, _) => RowsOfDetach(db, n, None);
    case _ =>
  }

  lemma RowsOfStatus(db: Db, id: UserId, status: UserStatus)
    requires PlanStatus(db, id, status).Push?
    ensures SameDevices(db, PlanStatus(db, id, status).db)
  {
  }

  lemma RowsOfBulk(db: Db, req: Request)
    requires (req.AddNodeToUsers? || req.RemoveNodeFromUsers?) && PlanOf(db, req).Push?
    ensures SameDevices(db, PlanOf(db, req).db)
  {
  }

  lemma RowsOfDetach(db: Db, n: NodeId, replacement: Option<NodeId>)
    ensures replacement.Some? ==> SameDevices(db, ReplaceInDb(db, n, replacement.value))
    ensures replacement.None? ==> SameDevices(db, DetachFromDb(db, n))
  {
  }

  lemma RemoveAtMembers<T>(s: seq<T>, i: nat)
    requires i < |s|
    ensures forall x :: x in RemoveAt(s, i) ==> x in s
  {
  }

  ghost predicate DistinctDevices(devices: seq<Device>) {
    forall i, j :: 0 <= i < j < |devices| ==> devices[i].id != devices[j].id
  }

  lemma SetUserKeepsValid(db: Db, i: nat, u: User)
    requires ValidDb(db) && i < |db.users| && u.id == db.users[i].id && DistinctDevices(u.devices)
    ensures ValidDb(SetUser(db, i, u))
  {
    var users := SetUser(db, i, u).users;
    forall v | v in users
      ensures DistinctDevices(v.devices)
    {
      assert v == u || v in db.users;
    }
  }

  lemma NewUserKeepsValid(db: Db, u: User)
    requires ValidDb(db) && u.devices == [] && forall v :: v in db.users ==> v.id != u.id
    ensures ValidDb(db.(users := db.users + [u]))
  {
    var users := db.users + [u];
    forall v | v in users
      ensures DistinctDevices(v.devices)
    {
      assert v == u || v in db.users;
    }
  }

  lemma RemoveKeepsDistinct(devices: seq<Device>, k: nat)
    requires k < |devices| && DistinctDevices(devices)
    ensures DistinctDevices(RemoveAt(devices, k))
  {
  }

  lemma RegisteredKeepsDistinct(u: User, hwid: string, newId: DeviceId, uuid: string)
    requires DistinctDevices(u.devices) && forall d :: d in u.devices ==> d.id != newId
    ensures DistinctDevices(Registered(u, hwid, newId, uuid).devices)
  {
    var found := FindHwid(u.devices, hwid);
    if found.Some? {
      RemoveAtMembers(u.devices, found.value);
      RemoveKeepsDistinct(u.devices, found.value);
    }
  }

  lemma UserRequestKeepsValid(db: Db, req: Request)
    requires ValidDb(db) && ChangesDevicesOrUser(req) && FreshDevice(db, req)
    requires PlanOf(db, req).Push? || PlanOf(db, req).Commit?
    ensures ValidDb(PlanOf(db, req).db)
  {
    var plan := PlanOf(db, req);
    if req.CreateUser? {
      NewUserKeepsValid(db, WithPayload(db, NewUser(req.u), req.payload));
    } else if plan.db != db {
      var i := FindUser(db.users, req.u).value;
      var u := db.users[i];
      assert u in db.users;
      var u' := plan.db.users[i];
      assert plan.db == SetUser(db, i, u') && u'.id == u.id;
      if req.RegisterDevice? {
        RegisteredRowDistinct(db, req, i);
      } else if req.RemoveDevice? {
        RemoveKeepsDistinct(u.devices, FindDevice(u.devices, req.d).value);
      }
      SetUserKeepsValid(db, i, u');
    }
  }

  lemma RegisteredRowDistinct(db: Db, req: Request, i: nat)
    requires ValidDb(db) && req.RegisterDevice? && FreshDevice(db, req) && FindUser(db.users, req.u) == Some(i)
    requires PlanOf(db, req).Push? && PlanOf(db, req).db != db
    ensures i < |PlanOf(db, req).db.users| && DistinctDevices(PlanOf(db, req).db.users[i].devices)
  {
    assert db.users[i] in db.users;
    RegisteredKeepsDistinct(db.users[i], req.hwid.value, req.newId, req.uuid);
  }

  lemma PushKeepsValid(sys: System, targets: set<NodeId>, allow: bool, attempts: NodeId -> Attempt)
    requires ValidDb(sys.db)
    ensures ValidDb(AfterApply(sys, targets, allow, attempts).db)
    ensures AfterApply(sys, targets, allow, attempts).db.profiles == sys.db.profiles
  {
    var after := AfterApply(sys, targets, allow, attempts);
    assert after.db.users == sys.db.users;
    forall n | n in after.db.nodes
      ensures after.db.nodes[n].id == n
    {
      PushKeepsId(sys, targets, allow, attempts, n);
    }
  }

  lemma PushKeepsId(sys: System, targets: set<NodeId>, allow: bool, attempts: NodeId -> Attempt, n: NodeId)
    requires n in sys.db.nodes
    ensures AfterApply(sys, targets, allow, attempts).db.nodes[n].id == sys.db.nodes[n].id
  {
  }

  lemma StatusKeepsValid(db: Db, n: NodeId, s: NodeStatus)
    requires ValidDb(db) && n in db.nodes
    ensures ValidDb(SetStatus(db, n, s)) && SetStatus(db, n, s).profiles == db.profiles
  {
  }

  lemma StepKeepsValid(sys: System, req: Request, attempts: NodeId -> Attempt)
    requires ValidDb(sys.db) && ValidLists(sys.db.profiles) && FreshDevice(sys.db, req)
    ensures ValidDb(Step(sys, req, attempts).db) && ValidLists(Step(sys, req, attempts).db.profiles)
  {
    var plan := PlanOf(sys.db, req);
    PlanKeepsUsersValid(sys.db, req);
    PlanFrame(sys.db, req);
    if plan.Push? && !RollsBack(sys, req, attempts) {
      PushKeepsValid(System(plan.db, sys.deployed), plan.targets, plan.allowNonOnline, attempts);
      var pushed := AfterApply(System(plan.db, sys.deployed), plan.targets, plan.allowNonOnline, attempts);
      if plan.deletes.Some? && plan.deletes.value in pushed.db.nodes {
        StatusKeepsValid(pushed.db, plan.deletes.value, NodeStatus.Deleted);
      }
    }
  }

  // ---------- runs ----------

  datatype Event = Event(req: Request, attempts: NodeId -> Attempt)

  ghost function Run(sys: System, events: seq<Event>): System {
    if events == [] then sys
    else
      var last := events[|events| - 1];
      Step(Run(sys, events[..|events| - 1]), last.req, last.attempts)
  }

  ghost predicate FreshRun(sys: System, events: seq<Event>) {
    forall i :: 0 <= i < |events| ==> FreshDevice(Run(sys, events[..i]).db, events[i].req)
  }

  ghost predicate AdmissibleRun(sys: System, events: seq<Event>) {
    forall i :: 0 <= i < |events| ==> Admissible(Run(sys, events[..i]), events[i].req, events[i].attempts)
  }

  ghost predicate InSyncThroughout(sys: System, events: seq<Event>) {
    forall i :: 0 <= i <= |events| ==> InSync(Run(sys, events[..i]))
  }

  lemma FreshPrefix(sys: System, init: seq<Event>, last: Event)
    ensures FreshRun(sys, init + [last]) <==> FreshRun(sys, init) && FreshDevice(Run(sys, init).db, last.req)
  {
    var events := init + [last];
    assert forall i :: 0 <= i <= |init| ==> init[..i] == events[..i];
    assert init[..|init|] == init;
    assert forall i :: 0 <= i < |init| ==> init[i] == events[i];
  }

  lemma AdmissiblePrefix(sys: System, init: seq<Event>, last: Event)
    ensures AdmissibleRun(sys, init + [last]) <==>
            AdmissibleRun(sys, init) && Admissible(Run(sys, init), last.req, last.attempts)
  {
    var events := init + [last];
    assert forall i :: 0 <= i <= |init| ==> init[..i] == events[..i];
    assert init[..|init|] == init;
    assert forall i :: 0 <= i < |init| ==> init[i] == events[i];
  }

  lemma InSyncPrefix(sys: System, init: seq<Event>, last: Event)
    ensures InSyncThroughout(sys, init + [last]) <==> InSyncThroughout(sys, init) && InSync(Run(sys, init + [last]))
    ensures InSyncThroughout(sys, init) ==> InSync(Run(sys, init))
  {
    var events := init + [last];
    assert forall i :: 0 <= i <= |init| ==> init[..i] == events[..i];
    assert init[..|init|] == init && events[..|events|] == events;
  }

  /** Over every run the rows stay valid. */
  lemma {:induction false} ValidOverRuns(sys: System, events: seq<Event>)
    requires ValidDb(sys.db) && ValidLists(sys.db.profiles) && FreshRun(sys, events)
    ensures ValidDb(Run(sys, events).db) && ValidLists(Run(sys, events).db.profiles)
  {
    if events != [] {
      var init, last := events[..|events| - 1], events[|events| - 1];
      assert events == init + [last];
      FreshPrefix(sys, init, last);
      ValidOverRuns(sys, init);
      StepKeepsValid(Run(sys, init), last.req, last.attempts);
    }
  }

  lemma EmptyRunAgrees(sys: System)
    requires InSync(sys)
    ensures InSyncThroughout(sys, []) && AdmissibleRun(sys, [])
  {
    var none: seq<Event> := [];
    assert none[..0] == [];
  }

  lemma AgreementOneMore(sys: System, init: seq<Event>, last: Event)
    requires InSync(sys) && ValidDb(sys.db) && ValidLists(sys.db.profiles) && FreshRun(sys, init + [last])
    requires InSyncThroughout(sys, init) <==> AdmissibleRun(sys, init)
    ensures InSyncThroughout(sys, init + [last]) <==> AdmissibleRun(sys, init + [last])
  {
    FreshPrefix(sys, init, last);
    AdmissiblePrefix(sys, init, last);
    InSyncPrefix(sys, init, last);
    ValidOverRuns(sys, init);
    if InSyncThroughout(sys, init) {
      assert Run(sys, init + [last]) == Step(Run(sys, init), last.req, last.attempts) by {
        assert (init + [last])[..|init|] == init;
      }
      StepKeepsSyncExactly(Run(sys, init), last.req, last.attempts);
    }
  }

  /**
   Agreement over every run: however attempts succeed or fail along the way, each
   online node with Xray runs what the current database renders for it, or its last
   attempt is on record as failed, throughout the run if and only if every request in
   it is admissible.
   */
  lemma {:induction false} AgreementOverRuns(sys: System, events: seq<Event>)
    requires InSync(sys) && ValidDb(sys.db) && ValidLists(sys.db.profiles) && FreshRun(sys, events)
    ensures InSyncThroughout(sys, events) <==> AdmissibleRun(sys, events)
  {
    if events == [] {
      EmptyRunAgrees(sys);
    } else {
      var init, last := events[..|events| - 1], events[|events| - 1];
      assert events == init + [last];
      FreshPrefix(sys, init, last);
      AgreementOverRuns(sys, init);
      AgreementOneMore(sys, init, last);
    }
  }
}
