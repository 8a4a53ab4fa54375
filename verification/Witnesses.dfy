/**
 One input for each failure that the other modules state by its condition: requests that
 disturb a node they do not push to, a push that brings a node with clients online, a
 rollback that leaves a client behind, and a profile that strands a primary node.
 */
module Witnesses {
  import opened Wrappers
  import opened DomainLists
  import opened Entities
  import opened XrayConfig
  import opened Rendering
  import opened ConfigApply
  import opened Requests
  import opened Agreement
  import opened Rollbacks
  import opened Runs
  import Devices
  import NodeReferences

  // ---------- a small database ----------

  const KEYS: Generated := Credentials("private", "public", "id")

  function ServerRow(n: NodeId, status: NodeStatus): Node {
    Node(n, "", None, 443, "", KEYS, AkfaOwned, None, None, status, true, false, ApplySuccess)
  }

  function OneDevice(): seq<Device> {
    [Device(5, "", DeviceStatus.Active, Some("hash"))]
  }

  function Person(status: UserStatus, links: seq<NodeId>, devices: seq<Device>): User {
    User(3, "", status, 1, None, Some(9), links, None, devices)
  }

  function OfferingOf(nodes: seq<NodeId>): Profile {
    Profile(FullTunnel, [], [], nodes)
  }

  /** One user, one profile, and two nodes. */
  function SmallDb(u: User, offered: seq<NodeId>, a: Node, b: Node): (db: Db)
    requires a.id != b.id && |u.devices| <= 1
    ensures ValidDb(db) && ValidLists(db.profiles)
  {
    Db([u], map[9 := OfferingOf(offered)], map[a.id := a, b.id := b])
  }

  function OnlineDb(u: User, offered: seq<NodeId>, a: NodeId, b: NodeId): Db
    requires a != b && |u.devices| <= 1
  {
    SmallDb(u, offered, ServerRow(a, NodeStatus.Online), ServerRow(b, NodeStatus.Online))
  }

  lemma OneDeviceServes()
    ensures ServingDevices(OneDevice()) == OneDevice() && ServingDevices([]) == []
  {
    assert OneDevice()[..0] == [];
  }

  // ---------- requests that disturb a node outside their targets ----------

  /** The hypotheses of `AffectedSetIsExact`, and a node whose rendering changes without a push. */
  ghost predicate Disturbed(db: Db, req: Request, m: NodeId) {
    && ValidDb(db) && ValidLists(db.profiles) && PlanOf(db, req).Push?
    && m in db.nodes && m !in PlanOf(db, req).targets && db.nodes[m].status == NodeStatus.Online
    && m in PlanOf(db, req).db.nodes && Render(PlanOf(db, req).db, m) != Render(db, m)
  }

  lemma DisturbsMeansDisturbed(u: User, offered: seq<NodeId>, a: NodeId, b: NodeId, req: Request, m: NodeId)
    requires a != b && |u.devices| <= 1 && (m == a || m == b)
    requires var db := OnlineDb(u, offered, a, b);
             PlanOf(db, req).Push? && m !in PlanOf(db, req).targets && Disturbs(db, req, m)
    ensures Disturbed(OnlineDb(u, offered, a, b), req, m)
  {
    AffectedSetIsExact(OnlineDb(u, offered, a, b), req, m);
  }

  /** A user whose only explicit node goes falls back to the profile. */
  lemma RemovalDisturbs(a: NodeId, b: NodeId)
    requires a != b
    ensures exists db, bulk :: Disturbed(db, RemoveNodeFromUsers(a, bulk), b)
  {
    var u := Person(UserStatus.Active, [a], OneDevice());
    var db, req := OnlineDb(u, [a, b], a, b), RemoveNodeFromUsers(a, AllActive);
    OneDeviceServes();
    assert u in db.users && FallsBackTo(u, db.profiles, a, b);
    DisturbsMeansDisturbed(u, [a, b], a, b, req, b);
  }

  lemma DeletionDisturbs(a: NodeId, b: NodeId)
    requires a != b
    ensures exists db :: Disturbed(db, DeleteNode(a, true), b)
  {
    var u := Person(UserStatus.Active, [a], OneDevice());
    var db := OnlineDb(u, [a, b], a, b);
    OneDeviceServes();
    assert u in db.users && FallsBackTo(u, db.profiles, a, b);
    DisturbsMeansDisturbed(u, [a, b], a, b, DeleteNode(a, true), b);
  }

  /** Status requests push to explicit links only, and a user may have none. */
  lemma EnablingDisturbs(a: NodeId, b: NodeId)
    requires a != b
    ensures exists db :: Disturbed(db, EnableUser(3), a)
  {
    InheritingUser(UserStatus.Disabled, a, b);
    DisturbsMeansDisturbed(Person(UserStatus.Disabled, [], OneDevice()), [a], a, b, EnableUser(3), a);
  }

  lemma DisablingDisturbs(a: NodeId, b: NodeId)
    requires a != b
    ensures exists db :: Disturbed(db, DisableUser(3), a)
  {
    InheritingUser(UserStatus.Active, a, b);
    DisturbsMeansDisturbed(Person(UserStatus.Active, [], OneDevice()), [a], a, b, DisableUser(3), a);
  }

  lemma ResettingDisturbs(a: NodeId, b: NodeId)
    requires a != b
    ensures exists db :: Disturbed(db, ResetTraffic(3), a)
  {
    InheritingUser(UserStatus.TrafficLimited, a, b);
    DisturbsMeansDisturbed(Person(UserStatus.TrafficLimited, [], OneDevice()), [a], a, b, ResetTraffic(3), a);
  }

  lemma InheritingUser(status: UserStatus, a: NodeId, b: NodeId)
    requires a != b
    ensures var u := Person(status, [], OneDevice());
            var db := OnlineDb(u, [a], a, b);
            u in db.users && InheritsShown(u, db.profiles, a) && FindUser(db.users, 3) == Some(0)
  {
    OneDeviceServes();
    FoundAlone(Person(status, [], OneDevice()));
  }

  lemma FoundAlone(u: User)
    ensures FindUser([u], u.id) == Some(0)
  {
    assert [u][..0] == [];
  }

  lemma LabelsStep(c: char, s: string)
    ensures Labels([c] + s) == if c == '.' then [""] + Labels(s) else [[c] + Labels(s)[0]] + Labels(s)[1..]
  {
    assert ([c] + s)[1..] == s;
  }

  /** `a.b` is a domain, and normalises to itself. */
  lemma SmallDomain()
    ensures Check("a.b").None? && Clean("a.b") == "a.b"
  {
    SmallLabels();
    assert NoSpace("a.b");
    assert Lower("a.b") == "a.b";
  }

  lemma SmallLabels()
    ensures Labels("a.b") == ["a", "b"]
  {
    LabelsStep('b', "");
    assert "b" == ['b'] + "";
    assert Labels("b") == ["b"];
    LabelsStep('.', "b");
    assert ".b" == ['.'] + "b";
    assert Labels(".b") == ["", "b"];
    LabelsStep('a', ".b");
    assert "a.b" == ['a'] + ".b";
    assert ['a'] + "" == "a" && ["", "b"][1..] == ["b"];
  }

  lemma SmallListIsNormal()
    ensures Normalized(["a.b"]) == Success(["a.b"])
  {
    SmallDomain();
    var one := ["a.b"];
    var none: seq<string> := [];
    assert one[..|one| - 1] == none && none + ["a.b"] == one;
    assert Normalized(one) == Extended(none, "a.b");
  }

  /** A profile update pushes to the profile's nodes, and a user of the profile may have explicit ones. */
  lemma UpdateDisturbs(a: NodeId, b: NodeId)
    requires a != b
    ensures exists db, profile :: Disturbed(db, UpdateProfile(9, profile), a)
  {
    var u := Person(UserStatus.Active, [a], OneDevice());
    var db, profile := OnlineDb(u, [b], a, b), Profile(FullTunnel, [], ["a.b"], [b]);
    OneDeviceServes();
    SmallListIsNormal();
    assert u in db.users && Shows(u, db.profiles, a);
    UpdatePlan(db, [b], profile);
    DisturbsMeansDisturbed(u, [b], a, b, UpdateProfile(9, profile), a);
  }

  lemma UpdatePlan(db: Db, offered: seq<NodeId>, profile: Profile)
    requires 9 in db.profiles && db.profiles[9] == OfferingOf(offered) && profile.allowedNodes == offered != []
    requires Normalized(profile.blockedDomains) == Success(["a.b"])
    ensures var plan := PlanOf(db, UpdateProfile(9, profile)); plan.Push? && plan.targets == SeqSet(offered)
    ensures Normalized(profile.blockedDomains) != Normalized(db.profiles[9].blockedDomains)
  {
    assert offered[0] in SeqSet(offered);
    ProfilePlan(db, 9, profile);
    assert Normalized(db.profiles[9].blockedDomains) == Success([]);
  }

  // ---------- a flip ----------

  /** The push to `a` succeeds and brings it online, where the user has a client. */
  lemma FlippedNodeHasClient(u: User, sys: System, a: NodeId, attempts: NodeId -> Attempt)
    requires sys.db.users == [u] && ValidLists(sys.db.profiles) && u.status == UserStatus.Active
    requires u.nodeLinks == [a] && u.devices == OneDevice()
    requires a in sys.db.nodes && sys.db.nodes[a] == ServerRow(a, NodeStatus.Offline)
             && attempts(a) == Attempt(KEYS, Applied)
    ensures !TargetSafe(sys, a, true, attempts)
  {
    var node := sys.db.nodes[a];
    var online := node.(status := NodeStatus.Online);
    assert OneDevice()[0] in u.devices && u in sys.db.users;
    AkfaClientsMembers(sys.db.users, sys.db.profiles, online, AkfaClient(u, OneDevice()[0]));
    PushSucceeds(u, sys, a, attempts);
  }

  lemma PushSucceeds(u: User, sys: System, a: NodeId, attempts: NodeId -> Attempt)
    requires sys.db.users == [u] && ValidLists(sys.db.profiles) && a in sys.db.nodes
    requires sys.db.nodes[a] == ServerRow(a, NodeStatus.Offline) && attempts(a) == Attempt(KEYS, Applied)
    ensures StepAt(sys, a, true, attempts).status == ResultSuccess
  {
    assert Prepared(sys.db.nodes[a], attempts(a)) == sys.db.nodes[a];
    ListIsValid(u, sys.db.profiles);
    RenderFailsExactlyWhen(sys.db, a);
  }

  /** Applying to an offline node with a client leaves it online and out of agreement. */
  lemma FlipHappens(a: NodeId, b: NodeId) returns (sys: System, req: Request, attempts: NodeId -> Attempt)
    requires a != b
    ensures InSync(sys) && ValidDb(sys.db) && ValidLists(sys.db.profiles) && FreshDevice(sys.db, req)
    ensures !InSync(Step(sys, req, attempts))
  {
    var u := Person(UserStatus.Active, [a], OneDevice());
    var db := SmallDb(u, [], ServerRow(a, NodeStatus.Offline), ServerRow(b, NodeStatus.Disabled));
    sys, req, attempts := System(db, map[]), ApplyNodeConfig(a, KEYS), (n: NodeId) => Attempt(KEYS, Applied);
    assert PlanOf(db, req) == Push(db, {a}, true, false, None) by {
      assert db.nodes[a := db.nodes[a]] == db.nodes;
    }
    FlippedNodeHasClient(u, sys, a, attempts);
    assert a in PlanOf(db, req).targets;
    StepKeepsSyncExactly(sys, req, attempts);
  }

  // ---------- a ghost client ----------

  /** One of two servers takes the new device, the other does not start: the rollback leaves the device on the first. */
  lemma GhostClientHappens(a: NodeId, b: NodeId) returns (sys: System, req: Request, attempts: NodeId -> Attempt)
    requires a != b
    ensures InSync(sys) && ValidDb(sys.db) && ValidLists(sys.db.profiles) && FreshDevice(sys.db, req)
    ensures req.RegisterDevice? && RollsBack(sys, req, attempts) && Step(sys, req, attempts).db == sys.db
    ensures var u, d := Devices.Registrant(sys.db, req), NewDevice(req);
            !Devices.Admits(sys, a, u, d) && Devices.Admits(Step(sys, req, attempts), a, u, d)
  {
    var u := Person(UserStatus.Active, [a, b], []);
    var db := SmallDb(u, [], Failing(a), Failing(b));
    sys, req := System(db, map[]), RegisterDevice(3, Some("hash"), true, 5, "");
    attempts := (n: NodeId) => Attempt(KEYS, if n == a then Applied else NotStarted);
    FirstDevicePlan(u, db, req, a, b);
    assert StepAt(System(PlanOf(db, req).db, map[]), b, false, attempts).status == ResultFailed;
    assert b in PlanOf(db, req).targets;
    Devices.RollbackLeavesGhostClient(sys, req, attempts, a);
  }

  /** Online, but with a failure on record, so that nothing is claimed for it. */
  function Failing(n: NodeId): Node {
    ServerRow(n, NodeStatus.Online).(lastApply := ApplyFailed)
  }

  lemma FirstDevicePlan(u: User, db: Db, req: Request, a: NodeId, b: NodeId)
    requires a != b && u == Person(UserStatus.Active, [a, b], []) && db == SmallDb(u, [], Failing(a), Failing(b))
    requires req == RegisterDevice(3, Some("hash"), true, 5, "")
    ensures FindUser(db.users, 3) == Some(0)
    ensures var plan := PlanOf(db, req);
            plan.Push? && plan.mustSucceed && !plan.allowNonOnline && plan.targets == {a, b}
                && plan.db.nodes == db.nodes
  {
    assert db.users[..0] == [];
    assert EffectiveNodeIds(u, db.profiles) == {a, b};
    assert BeforeRegistration(u, "hash") == u;
  }

  // ---------- a stranded primary node ----------

  /** Taking the node out of the profile leaves it the primary of a user who can no longer use it. */
  lemma StrandingHappens(a: NodeId, b: NodeId) returns (db: Db, req: Request)
    requires a != b
    ensures PlanOf(db, req).Push? && NodeReferences.PrimariesKnown(db)
    ensures !NodeReferences.PrimariesKnown(PlanOf(db, req).db)
  {
    var u := Person(UserStatus.Active, [], OneDevice()).(primaryNodeId := Some(a));
    db := SmallDb(u, [a], ServerRow(a, NodeStatus.Online), ServerRow(b, NodeStatus.Online));
    req := RemoveNodeFromProfile(a, 9);
    assert u in db.users && NodeReferences.StrandsUser(u, req);
    NodeReferences.PrimariesKnownExactly(db, req);
  }
}
