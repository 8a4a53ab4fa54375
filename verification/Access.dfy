/**
 What agreement means for the people concerned: which devices the servers let in, over
 whole runs, and what switching a node off does.
 */
module Access {
  import opened Wrappers
  import opened Decimal
  import opened Entities
  import opened XrayConfig
  import opened ConfigApply
  import opened Requests
  import opened Rendering
  import opened Agreement
  import opened Rollbacks
  import opened Runs
  import opened ClientRouting

  predicate IsOwnClient(c: ClientEntry) {
    c.ClientEntry? && IsAkfaEmail(c.email)
  }

  /** The nodes a user may use, from the rows alone: explicit links, or else the list of the profile. */
  predicate MayUse(u: User, profiles: map<ProfileId, Profile>, n: NodeId) {
    if u.nodeLinks != [] then n in u.nodeLinks
    else u.profileId.Some? && u.profileId.value in profiles && n in profiles[u.profileId.value].allowedNodes
  }

  /** An active device with a HWID of an active user that may use the node. */
  predicate Entitled(u: User, d: Device, profiles: map<ProfileId, Profile>, n: NodeId) {
    && u.status == UserStatus.Active && MayUse(u, profiles, n)
    && d.status == DeviceStatus.Active && d.hwidHash.Some? && d.hwidHash.value != ""
  }

  /** The entry of an entitled device. */
  ghost predicate HasAccess(db: Db, n: NodeId, c: ClientEntry) {
    exists u, d :: && u in db.users && d in u.devices && Entitled(u, d, db.profiles, n)
                   && c == ClientEntry(d.uuid, Some(DeviceEmail(u.id, d.id)), "xtls-rprx-vision")
  }

  lemma {:induction false} ForeignIsNotOwn(imported: seq<ClientEntry>, akfa: seq<ClientEntry>, c: ClientEntry)
    requires IsOwnClient(c)
    ensures c !in ForeignClients(imported, akfa)
  {
    if imported != [] {
      ForeignIsNotOwn(imported[1..], akfa, c);
    }
  }

  /** The own clients of a rendered configuration, whatever the server was taken over with. */
  lemma RenderedOwnClients(db: Db, n: NodeId, c: ClientEntry)
    requires n in db.nodes && Render(db, n).Success? && IsOwnClient(c)
    ensures c in Render(db, n).value.clients <==> c in AkfaClients(db.users, db.profiles, db.nodes[n])
  {
    var node := db.nodes[n];
    var akfa := AkfaClients(db.users, db.profiles, node);
    assert Render(db, n).value.clients == MergeImportedSafeClients(node, akfa);
    if node.importedClients.Some? {
      ForeignIsNotOwn(node.importedClients.value, akfa, c);
    }
  }

  /**
   Over every run, a counted server lets in exactly the entitled devices: nobody is
   forgotten on it and nobody is left behind.
   */
  lemma ServersAdmitExactly(sys: System, events: seq<Event>, n: NodeId, c: ClientEntry)
    requires InSync(sys) && ValidDb(sys.db) && ValidLists(sys.db.profiles)
    requires FreshRun(sys, events) && AdmissibleRun(sys, events)
    requires n in Run(sys, events).db.nodes && Counts(Run(sys, events), n) && IsOwnClient(c)
    ensures var now := Run(sys, events);
            n in now.deployed && (c in now.deployed[n].clients <==> HasAccess(now.db, n, c))
  {
    AgreementOverRuns(sys, events);
    ValidOverRuns(sys, events);
    assert events[..|events|] == events;
    InSyncAdmitsExactly(Run(sys, events), n, c);
  }

  lemma InSyncAdmitsExactly(now: System, n: NodeId, c: ClientEntry)
    requires InSync(now) && ValidDb(now.db) && n in now.db.nodes && Counts(now, n) && IsOwnClient(c)
    ensures n in now.deployed && (c in now.deployed[n].clients <==> HasAccess(now.db, n, c))
  {
    assert NodeInSync(now, n);
    RenderedOwnClients(now.db, n, c);
    AccessIsRendered(now.db, n, c);
  }

  lemma AccessIsRendered(db: Db, n: NodeId, c: ClientEntry)
    requires ValidDb(db) && n in db.nodes
    ensures c in AkfaClients(db.users, db.profiles, db.nodes[n]) <==>
            db.nodes[n].status == NodeStatus.Online && HasAccess(db, n, c)
  {
    AkfaClientsMembers(db.users, db.profiles, db.nodes[n], c);
    if HasAccess(db, n, c) {
      var u, d :| && u in db.users && d in u.devices && Entitled(u, d, db.profiles, n)
                  && c == ClientEntry(d.uuid, Some(DeviceEmail(u.id, d.id)), "xtls-rprx-vision");
      EffectiveIsMayUse(u, db.profiles, n);
    }
    if c in AkfaClients(db.users, db.profiles, db.nodes[n]) {
      var u, d := OwnerOfClient(db.users, db.profiles, db.nodes[n], c);
      EffectiveIsMayUse(u, db.profiles, n);
      assert Entitled(u, d, db.profiles, n);
    }
  }

  lemma EffectiveIsMayUse(u: User, profiles: map<ProfileId, Profile>, n: NodeId)
    ensures n in EffectiveNodeIds(u, profiles) <==> MayUse(u, profiles, n)
  {
  }

  /**
   Over every run, a counted server lets a device in, under the device's name and with its key, exactly
   if the device is entitled: never a revoked one, one without a HWID, or one of a user that is not active.
   */
  lemma DeviceAdmittedExactly(sys: System, events: seq<Event>, n: NodeId, u: User, d: Device)
    requires InSync(sys) && ValidDb(sys.db) && ValidLists(sys.db.profiles)
    requires FreshRun(sys, events) && AdmissibleRun(sys, events)
    requires n in Run(sys, events).db.nodes && Counts(Run(sys, events), n)
    requires u in Run(sys, events).db.users && d in u.devices
    ensures n in Run(sys, events).deployed
    ensures var clients := Run(sys, events).deployed[n].clients;
            && (Entitled(u, d, Run(sys, events).db.profiles, n) <==>
                exists c :: c in clients && c.ClientEntry? && c.email == Some(DeviceEmail(u.id, d.id)))
            && (forall c :: c in clients && c.ClientEntry? && c.email == Some(DeviceEmail(u.id, d.id)) ==>
                  c.uuid == d.uuid && c.flow == "xtls-rprx-vision")
  {
    var now := Run(sys, events);
    AgreementOverRuns(sys, events);
    ValidOverRuns(sys, events);
    assert events[..|events|] == events;
    AdmittedInSync(now, n, u, d);
  }

  /** A revoked device, one without a HWID, and one whose user is not active or may not use the node: nowhere let in. */
  lemma RevokedIsNeverAdmitted(sys: System, events: seq<Event>, n: NodeId, u: User, d: Device, c: ClientEntry)
    requires InSync(sys) && ValidDb(sys.db) && ValidLists(sys.db.profiles)
    requires FreshRun(sys, events) && AdmissibleRun(sys, events)
    requires n in Run(sys, events).db.nodes && Counts(Run(sys, events), n)
    requires u in Run(sys, events).db.users && d in u.devices
    requires || d.status == DeviceStatus.Revoked || d.hwidHash.None? || d.hwidHash.value == ""
             || u.status != UserStatus.Active || !MayUse(u, Run(sys, events).db.profiles, n)
    ensures n in Run(sys, events).deployed
    ensures c in Run(sys, events).deployed[n].clients && c.ClientEntry? ==> c.email != Some(DeviceEmail(u.id, d.id))
  {
    DeviceAdmittedExactly(sys, events, n, u, d);
  }

  /** Over every run, a counted server refuses an entitled device exactly the blocked hosts of its user's profile. */
  lemma DeviceRefusedExactly(sys: System, events: seq<Event>, n: NodeId, u: User, d: Device, host: string)
    requires InSync(sys) && ValidDb(sys.db) && ValidLists(sys.db.profiles)
    requires FreshRun(sys, events) && AdmissibleRun(sys, events)
    requires n in Run(sys, events).db.nodes && Counts(Run(sys, events), n)
    requires u in Run(sys, events).db.users && d in u.devices
    ensures n in Run(sys, events).deployed
    ensures var profiles := Run(sys, events).db.profiles;
            RefusesFor(Run(sys, events).deployed[n].rules, DeviceEmail(u.id, d.id), host) <==>
            && Entitled(u, d, profiles, n) && u.profileId.Some? && u.profileId.value in profiles
            && HostBlocked(Some(profiles[u.profileId.value]), host)
  {
    var now := Run(sys, events);
    AgreementOverRuns(sys, events);
    ValidOverRuns(sys, events);
    assert events[..|events|] == events;
    RefusedInSync(now, n, u, d, host);
  }

  lemma RefusedInSync(now: System, n: NodeId, u: User, d: Device, host: string)
    requires InSync(now) && ValidDb(now.db) && n in now.db.nodes && Counts(now, n)
    requires u in now.db.users && d in u.devices
    ensures n in now.deployed
    ensures RefusesFor(now.deployed[n].rules, DeviceEmail(u.id, d.id), host) <==>
            && Entitled(u, d, now.db.profiles, n) && u.profileId.Some? && u.profileId.value in now.db.profiles
            && HostBlocked(Some(now.db.profiles[u.profileId.value]), host)
  {
    assert NodeInSync(now, n);
    ServerBlocksTheSameHosts(now.db, n, u, d, host);
    EffectiveIsMayUse(u, now.db.profiles, n);
  }

  lemma AdmittedInSync(now: System, n: NodeId, u: User, d: Device)
    requires InSync(now) && ValidDb(now.db) && n in now.db.nodes && Counts(now, n)
    requires u in now.db.users && d in u.devices
    ensures n in now.deployed
    ensures Entitled(u, d, now.db.profiles, n) <==> exists c ::
              c in now.deployed[n].clients && c.ClientEntry? && c.email == Some(DeviceEmail(u.id, d.id))
    ensures forall c ::
              c in now.deployed[n].clients && c.ClientEntry? && c.email == Some(DeviceEmail(u.id, d.id)) ==>
                c.uuid == d.uuid && c.flow == "xtls-rprx-vision"
  {
    assert NodeInSync(now, n);
    RenderedAdmitsExactly(now.db, n, u, d);
  }

  /** A rendered configuration has an entry of the device's name exactly for an entitled device of an online node. */
  lemma RenderedAdmitsExactly(db: Db, n: NodeId, u: User, d: Device)
    requires ValidDb(db) && n in db.nodes && Render(db, n).Success? && u in db.users && d in u.devices
    ensures db.nodes[n].status == NodeStatus.Online && Entitled(u, d, db.profiles, n) <==> exists c ::
              c in Render(db, n).value.clients && c.ClientEntry? && c.email == Some(DeviceEmail(u.id, d.id))
    ensures forall c ::
              c in Render(db, n).value.clients && c.ClientEntry? && c.email == Some(DeviceEmail(u.id, d.id)) ==>
                c.uuid == d.uuid && c.flow == "xtls-rprx-vision"
  {
    var clients := Render(db, n).value.clients;
    var own := ClientEntry(d.uuid, Some(DeviceEmail(u.id, d.id)), "xtls-rprx-vision");
    DeviceEmailIsOwn(u.id, d.id);
    RenderedOwnClients(db, n, own);
    AccessIsRendered(db, n, own);
    forall c | c in clients && c.ClientEntry? && c.email == Some(DeviceEmail(u.id, d.id))
      ensures db.nodes[n].status == NodeStatus.Online && Entitled(u, d, db.profiles, n) && c == own
    {
      RenderedOwnClients(db, n, c);
      AccessIsRendered(db, n, c);
      EntryIsOfDevice(db, n, u, d, c);
    }
  }

  lemma DeviceEmailIsOwn(u: UserId, d: DeviceId)
    ensures IsAkfaEmail(Some(DeviceEmail(u, d)))
  {
    assert DeviceEmail(u, d)[..|EMAIL_PREFIX|] == EMAIL_PREFIX;
  }

  /** The name of an entry tells its device. */
  lemma EntryIsOfDevice(db: Db, n: NodeId, u: User, d: Device, c: ClientEntry)
    requires ValidDb(db) && u in db.users && d in u.devices && HasAccess(db, n, c)
    requires c.ClientEntry? && c.email == Some(DeviceEmail(u.id, d.id))
    ensures Entitled(u, d, db.profiles, n)
    ensures c == ClientEntry(d.uuid, Some(DeviceEmail(u.id, d.id)), "xtls-rprx-vision")
  {
    var v, e :| && v in db.users && e in v.devices && Entitled(v, e, db.profiles, n)
                && c == ClientEntry(e.uuid, Some(DeviceEmail(v.id, e.id)), "xtls-rprx-vision");
    DeviceEmailInjective(u.id, d.id, v.id, e.id);
    assert v == u && e == d;
  }

  /**
   What one request brings about: a server that took its push lets in exactly the devices entitled by the
   rows the request wrote, whether servers and database agreed before or not.
   */
  lemma PushAdmitsExactly(sys: System, req: Request, attempts: NodeId -> Attempt, n: NodeId, u: User, d: Device)
    requires ValidDb(sys.db) && ValidLists(sys.db.profiles) && FreshDevice(sys.db, req)
    requires PlanOf(sys.db, req).Push? && PlanOf(sys.db, req).deletes.None? && !RollsBack(sys, req, attempts)
    requires var plan := PlanOf(sys.db, req);
             && n in plan.targets && n in plan.db.nodes && KeepsStatus(plan.db.nodes[n].status)
             && StepAt(System(plan.db, sys.deployed), n, plan.allowNonOnline, attempts).status == ResultSuccess
    requires u in Step(sys, req, attempts).db.users && d in u.devices
    ensures var next := Step(sys, req, attempts);
            && n in next.db.nodes && n in next.deployed
            && (next.db.nodes[n].status == NodeStatus.Online && Entitled(u, d, next.db.profiles, n) <==>
                exists c ::
                  c in next.deployed[n].clients && c.ClientEntry? && c.email == Some(DeviceEmail(u.id, d.id)))
  {
    var plan, next := PlanOf(sys.db, req), Step(sys, req, attempts);
    PushWithoutDeletion(sys, req, attempts);
    SuccessIsDeployed(System(plan.db, sys.deployed), plan.targets, plan.allowNonOnline, attempts, n);
    StepKeepsValid(sys, req, attempts);
    RenderedAdmitsExactly(next.db, n, u, d);
  }

  predicate SwitchesOff(req: Request) {
    req.DisableNode? || req.MaintenanceNode? || req.DeleteNode?
  }

  lemma SwitchedOffPlan(db: Db, req: Request)
    requires SwitchesOff(req) && PlanOf(db, req).Push?
    ensures req.n in db.nodes
    ensures var plan := PlanOf(db, req);
            && plan.targets == {req.n} && plan.allowNonOnline && !plan.mustSucceed && req.n in plan.db.nodes
            && plan.db.nodes[req.n].status in {NodeStatus.Disabled, NodeStatus.Maintenance}
            && (HasInstalledXray(db.nodes[req.n]) ==> HasInstalledXray(plan.db.nodes[req.n]))
            && (plan.deletes.Some? ==> plan.deletes == Some(req.n))
  {
  }

  /** With valid lists and generated keys an attempt that is applied succeeds, whatever the status of the node. */
  lemma AppliedSucceeds(planned: System, n: NodeId, attempts: NodeId -> Attempt)
    requires n in planned.db.nodes && ValidLists(planned.db.profiles)
    requires HasInstalledXray(planned.db.nodes[n]) && attempts(n).outcome.Applied?
    ensures StepAt(planned, n, true, attempts).status == ResultSuccess
  {
    var db := planned.db.(nodes := planned.db.nodes[n := Prepared(planned.db.nodes[n], attempts(n))]);
    forall u | u in db.users
      ensures BlockedOf(u, db.profiles).Success?
    {
      ListIsValid(u, db.profiles);
    }
    RenderFailsExactlyWhen(db, n);
  }

  /** A node that is disabled, put in maintenance or deleted, with its push applied, lets no device in any more. */
  lemma SwitchedOffServesNobody(sys: System, req: Request, attempts: NodeId -> Attempt, c: ClientEntry)
    requires ValidLists(sys.db.profiles) && SwitchesOff(req) && PlanOf(sys.db, req).Push?
    requires req.n in sys.db.nodes && HasInstalledXray(sys.db.nodes[req.n]) && attempts(req.n).outcome.Applied?
    requires IsOwnClient(c)
    ensures var next := Step(sys, req, attempts);
            && req.n in next.deployed && c !in next.deployed[req.n].clients
            && req.n in next.db.nodes && next.db.nodes[req.n].status != NodeStatus.Online
  {
    var plan := PlanOf(sys.db, req);
    SwitchedOffPlan(sys.db, req);
    var planned := System(plan.db, sys.deployed);
    var pushed := AfterApply(planned, {req.n}, true, attempts);
    PlanFrame(sys.db, req);
    AppliedSucceeds(planned, req.n, attempts);
    SuccessIsDeployed(planned, {req.n}, true, attempts, req.n);
    NoClientsUnlessOnline(pushed.db.users, pushed.db.profiles, pushed.db.nodes[req.n]);
    RenderedOwnClients(pushed.db, req.n, c);
    assert Step(sys, req, attempts).deployed == pushed.deployed;
  }
}
