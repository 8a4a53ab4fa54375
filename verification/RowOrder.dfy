/**
 Queries without ORDER BY may return the users, and the devices of a user, in another order at
 every push.  Rendering in another order permutes the clients, the rules and the e-mails of a rule
 and changes nothing else, so agreement holds up to their order however the rows come.
 */
module RowOrder {
  import opened Wrappers
  import DomainLists
  import opened Decimal
  import opened Entities
  import opened XrayConfig
  import opened ConfigApply
  import opened Rendering
  import opened Requests
  import opened Agreement
  import opened Runs

  // ---------- a list of parts, one for each row ----------

  function Flat<A, B>(rows: seq<A>, part: A -> seq<B>): seq<B> {
    if rows == [] then [] else Flat(rows[..|rows| - 1], part) + part(rows[|rows| - 1])
  }

  lemma {:induction false} FlatAppend<A, B>(a: seq<A>, b: seq<A>, part: A -> seq<B>)
    ensures Flat(a + b, part) == Flat(a, part) + Flat(b, part)
  {
    if b == [] {
      assert a + b == a;
    } else {
      var init, last := b[..|b| - 1], b[|b| - 1];
      FlatAppend(a, init, part);
      assert (a + b)[..|a + b| - 1] == a + init;
      Associate(Flat(a, part), Flat(init, part), part(last));
    }
  }

  lemma Associate<T>(a: seq<T>, b: seq<T>, c: seq<T>)
    ensures (a + b) + c == a + (b + c)
  {
  }

  lemma FlatWithout<A, B>(rows: seq<A>, i: nat, part: A -> seq<B>)
    requires i < |rows|
    ensures multiset(Flat(rows, part)) == multiset(Flat(rows[..i] + rows[i + 1..], part)) + multiset(part(rows[i]))
  {
    var front, one, back := rows[..i], [rows[i]], rows[i + 1..];
    assert rows == front + (one + back);
    assert one[..0] == [] && Flat(one, part) == part(rows[i]);
    FlatAppend(front, one + back, part);
    FlatAppend(one, back, part);
    FlatAppend(front, back, part);
    MultisetAround(Flat(front, part), part(rows[i]), Flat(back, part));
  }

  lemma MultisetAround<B>(a: seq<B>, b: seq<B>, c: seq<B>)
    ensures multiset(a + (b + c)) == multiset(a + c) + multiset(b)
  {
  }

  lemma WithoutOne<A>(rows: seq<A>, i: nat)
    requires i < |rows|
    ensures multiset(rows) == multiset(rows[..i] + rows[i + 1..]) + multiset{rows[i]}
  {
    assert rows == rows[..i] + ([rows[i]] + rows[i + 1..]);
  }

  lemma {:induction false} FlatPermutes<A, B>(s: seq<A>, t: seq<A>, part: A -> seq<B>)
    requires multiset(s) == multiset(t)
    ensures multiset(Flat(s, part)) == multiset(Flat(t, part))
    decreases |s|
  {
    if s == [] {
      assert |multiset(t)| == 0 && t == [];
    } else {
      var init, last := s[..|s| - 1], s[|s| - 1];
      WithoutOne(s, |s| - 1);
      assert s[..|s| - 1] + s[|s|..] == init;
      assert last in multiset(t);
      var j :| 0 <= j < |t| && t[j] == last;
      WithoutOne(t, j);
      assert multiset(init) == multiset(s) - multiset{last} == multiset(t[..j] + t[j + 1..]);
      FlatPermutes(init, t[..j] + t[j + 1..], part);
      FlatWithout(t, j, part);
    }
  }

  lemma {:induction false} FlatAlike<A, B>(s: seq<A>, t: seq<A>, part: A -> seq<B>)
    requires |s| == |t| && forall i :: 0 <= i < |s| ==> multiset(part(s[i])) == multiset(part(t[i]))
    ensures multiset(Flat(s, part)) == multiset(Flat(t, part))
  {
    if s != [] {
      FlatAlike(s[..|s| - 1], t[..|t| - 1], part);
    }
  }

  // ---------- the same rows in another order ----------

  predicate SameUser(u: User, w: User) {
    w == u.(devices := w.devices) && multiset(w.devices) == multiset(u.devices)
  }

  /** User by user the same devices, and the users themselves in any order. */
  ghost predicate SameRows(us: seq<User>, us': seq<User>) {
    exists ws: seq<User> :: |ws| == |us| && multiset(ws) == multiset(us')
      && forall i :: 0 <= i < |us| ==> SameUser(us[i], ws[i])
  }

  // ---------- one configuration ----------

  /** A rule without the order of its e-mails. */
  datatype Unordered = Unordered(emails: multiset<string>, domains: seq<DomainLists.Regexp>)

  function WithoutOrder(rules: seq<BlockRule>): seq<Unordered> {
    seq(|rules|, i requires 0 <= i < |rules| => Unordered(multiset(rules[i].emails), rules[i].domains))
  }

  /** The same configuration but for the order of clients, of rules and of the e-mails in a rule. */
  predicate SameUpToOrder(a: Config, b: Config) {
    && a == b.(clients := a.clients, rules := a.rules)
    && multiset(a.clients) == multiset(b.clients) && multiset(WithoutOrder(a.rules)) == multiset(WithoutOrder(b.rules))
  }

  // ---------- what one user contributes ----------

  function ClientOf(u: User): Device -> seq<ClientEntry> {
    (d: Device) => if Serves(d) then [AkfaClient(u, d)] else []
  }

  function EmailOf(u: User): Device -> seq<string> {
    (d: Device) => if Serves(d) then [DeviceEmail(u.id, d.id)] else []
  }

  lemma {:induction false} ServingClientsAreFlat(u: User, devices: seq<Device>)
    ensures Clients(u, ServingDevices(devices)) == Flat(devices, ClientOf(u))
    ensures Emails(u, ServingDevices(devices)) == Flat(devices, EmailOf(u))
  {
    if devices != [] {
      var init, last := devices[..|devices| - 1], devices[|devices| - 1];
      ServingClientsAreFlat(u, init);
      ClientsAppend(u, ServingDevices(init), if Serves(last) then [last] else []);
    }
  }

  lemma ClientsAppend(u: User, a: seq<Device>, b: seq<Device>)
    ensures Clients(u, a + b) == Clients(u, a) + Clients(u, b) && Emails(u, a + b) == Emails(u, a) + Emails(u, b)
  {
  }

  function ClientsOn(profiles: map<ProfileId, Profile>, node: Node): User -> seq<ClientEntry> {
    (u: User) => UserClients(u, profiles, node)
  }

  /** The rules of a user, none if the user's list is refused. */
  function RulesOn(profiles: map<ProfileId, Profile>, n: NodeId): User -> seq<Unordered> {
    (u: User) => if UserRules(u, profiles, n).Success? then WithoutOrder(UserRules(u, profiles, n).value) else []
  }

  lemma SameDevicesSameClients(u: User, a: seq<Device>, b: seq<Device>)
    requires multiset(a) == multiset(b)
    ensures multiset(Clients(u, ServingDevices(a))) == multiset(Clients(u, ServingDevices(b)))
    ensures multiset(Emails(u, ServingDevices(a))) == multiset(Emails(u, ServingDevices(b)))
  {
    ServingClientsAreFlat(u, a);
    ServingClientsAreFlat(u, b);
    FlatPermutes(a, b, ClientOf(u));
    FlatPermutes(a, b, EmailOf(u));
  }

  lemma SameUserSameClients(u: User, w: User, profiles: map<ProfileId, Profile>, node: Node)
    requires SameUser(u, w)
    ensures multiset(UserClients(u, profiles, node)) == multiset(UserClients(w, profiles, node))
  {
    SameDevicesSameClients(u, u.devices, w.devices);
    assert Clients(w, ServingDevices(w.devices)) == Clients(u, ServingDevices(w.devices));
  }

  /** The rules of a user with these e-mails and matchers. */
  function OneRule(emails: seq<string>, matchers: seq<DomainLists.Regexp>): seq<BlockRule> {
    if matchers != [] && emails != [] then [BlockRule(emails, matchers)] else []
  }

  lemma OneRuleInAnyOrder(a: seq<string>, b: seq<string>, matchers: seq<DomainLists.Regexp>)
    requires multiset(a) == multiset(b)
    ensures WithoutOrder(OneRule(a, matchers)) == WithoutOrder(OneRule(b, matchers))
  {
    assert |multiset(a)| == |a| && |multiset(b)| == |b|;
  }

  lemma SameUserSameRules(u: User, w: User, profiles: map<ProfileId, Profile>, n: NodeId)
    requires SameUser(u, w)
    ensures UserRules(u, profiles, n).Success? == UserRules(w, profiles, n).Success?
    ensures RulesOn(profiles, n)(u) == RulesOn(profiles, n)(w)
  {
    var a, b := Emails(u, ServingDevices(u.devices)), Emails(w, ServingDevices(w.devices));
    SameDevicesSameClients(u, u.devices, w.devices);
    assert b == Emails(u, ServingDevices(w.devices));
    var matchers := DomainLists.BlockedDomainMatchers(BlockedDomainsOf(ProfileOf(u, profiles)));
    if u.status == UserStatus.Active && n in EffectiveNodeIds(u, profiles) && matchers.Success? {
      OneRuleInAnyOrder(a, b, matchers.value);
      assert UserRules(u, profiles, n).value == OneRule(a, matchers.value);
      assert UserRules(w, profiles, n).value == OneRule(b, matchers.value);
    }
  }

  lemma {:induction false} ClientsAreFlat(users: seq<User>, profiles: map<ProfileId, Profile>, node: Node)
    ensures AkfaClients(users, profiles, node) == Flat(users, ClientsOn(profiles, node))
  {
    if users != [] {
      ClientsAreFlat(users[..|users| - 1], profiles, node);
    }
  }

  predicate RulesSucceed(users: seq<User>, profiles: map<ProfileId, Profile>, n: NodeId) {
    forall i :: 0 <= i < |users| ==> UserRules(users[i], profiles, n).Success?
  }

  lemma {:induction false} RulesSucceedExactly(users: seq<User>, profiles: map<ProfileId, Profile>, n: NodeId)
    ensures ServerBlockRules(users, profiles, n).Success? <==> RulesSucceed(users, profiles, n)
  {
    if users != [] {
      RulesSucceedExactly(users[..|users| - 1], profiles, n);
      LastSucceeds(users, profiles, n);
    }
  }

  lemma LastSucceeds(users: seq<User>, profiles: map<ProfileId, Profile>, n: NodeId)
    requires users != []
    ensures RulesSucceed(users, profiles, n) <==>
            RulesSucceed(users[..|users| - 1], profiles, n) && UserRules(users[|users| - 1], profiles, n).Success?
  {
    assert forall i :: 0 <= i < |users| - 1 ==> users[..|users| - 1][i] == users[i];
  }

  lemma {:induction false} RulesAreFlat(users: seq<User>, profiles: map<ProfileId, Profile>, n: NodeId)
    requires ServerBlockRules(users, profiles, n).Success?
    ensures WithoutOrder(ServerBlockRules(users, profiles, n).value) == Flat(users, RulesOn(profiles, n))
  {
    if users != [] {
      var init, last := users[..|users| - 1], users[|users| - 1];
      RulesAreFlat(init, profiles, n);
      WithoutOrderAppend(ServerBlockRules(init, profiles, n).value, UserRules(last, profiles, n).value);
    }
  }

  lemma WithoutOrderAppend(a: seq<BlockRule>, b: seq<BlockRule>)
    ensures WithoutOrder(a + b) == WithoutOrder(a) + WithoutOrder(b)
  {
  }

  lemma ForeignClientsPermute(imported: seq<ClientEntry>, a: seq<ClientEntry>, b: seq<ClientEntry>)
    requires multiset(a) == multiset(b)
    ensures ForeignClients(imported, a) == ForeignClients(imported, b)
  {
    assert forall c :: c in a <==> c in multiset(a);
    assert forall c :: c in b <==> c in multiset(b);
    if imported != [] {
      ForeignClientsPermute(imported[1..], a, b);
    }
  }

  lemma AssemblyPermutes(node: Node, a: seq<ClientEntry>, b: seq<ClientEntry>, r: seq<BlockRule>, s: seq<BlockRule>)
    requires multiset(a) == multiset(b) && multiset(WithoutOrder(r)) == multiset(WithoutOrder(s))
    ensures Assemble(node, a, r).Success? == Assemble(node, b, s).Success?
    ensures Assemble(node, a, r).Success? ==> SameUpToOrder(Assemble(node, a, r).value, Assemble(node, b, s).value)
  {
    if node.importedClients.Some? {
      ForeignClientsPermute(node.importedClients.value, a, b);
    }
    var c, d := MergeImportedSafeClients(node, a), MergeImportedSafeClients(node, b);
    assert multiset(c) == multiset(d);
    assert forall x :: x in c <==> x in multiset(c);
    assert forall x :: x in d <==> x in multiset(d);
  }

  lemma SuccessIsShared(us: seq<User>, us': seq<User>, profiles: map<ProfileId, Profile>, n: NodeId)
    requires multiset(us) == multiset(us') && RulesSucceed(us, profiles, n)
    ensures RulesSucceed(us', profiles, n)
  {
    forall i | 0 <= i < |us'|
      ensures UserRules(us'[i], profiles, n).Success?
    {
      assert us'[i] in multiset(us);
      var j :| 0 <= j < |us| && us[j] == us'[i];
    }
  }

  lemma SuccessUserByUser(us: seq<User>, ws: seq<User>, profiles: map<ProfileId, Profile>, n: NodeId)
    requires |ws| == |us| && forall i :: 0 <= i < |us| ==> SameUser(us[i], ws[i])
    ensures RulesSucceed(us, profiles, n) <==> RulesSucceed(ws, profiles, n)
  {
    forall i | 0 <= i < |us|
      ensures UserRules(us[i], profiles, n).Success? == UserRules(ws[i], profiles, n).Success?
    {
      SameUserSameRules(us[i], ws[i], profiles, n);
    }
  }

  lemma SuccessInAnyOrder(us: seq<User>, ws: seq<User>, us': seq<User>, profiles: map<ProfileId, Profile>, n: NodeId)
    requires |ws| == |us| && multiset(ws) == multiset(us')
    requires forall i :: 0 <= i < |us| ==> SameUser(us[i], ws[i])
    ensures ServerBlockRules(us, profiles, n).Success? == ServerBlockRules(us', profiles, n).Success?
  {
    RulesSucceedExactly(us, profiles, n);
    RulesSucceedExactly(us', profiles, n);
    SuccessUserByUser(us, ws, profiles, n);
    if RulesSucceed(ws, profiles, n) {
      SuccessIsShared(ws, us', profiles, n);
    }
    if RulesSucceed(us', profiles, n) {
      SuccessIsShared(us', ws, profiles, n);
    }
  }

  lemma PartsInAnyOrder(us: seq<User>, ws: seq<User>, us': seq<User>, profiles: map<ProfileId, Profile>, node: Node)
    requires |ws| == |us| && multiset(ws) == multiset(us')
    requires forall i :: 0 <= i < |us| ==> SameUser(us[i], ws[i])
    ensures multiset(AkfaClients(us, profiles, node)) == multiset(AkfaClients(us', profiles, node))
    ensures multiset(Flat(us, RulesOn(profiles, node.id))) == multiset(Flat(us', RulesOn(profiles, node.id)))
  {
    forall i | 0 <= i < |us|
      ensures multiset(UserClients(us[i], profiles, node)) == multiset(UserClients(ws[i], profiles, node))
      ensures RulesOn(profiles, node.id)(us[i]) == RulesOn(profiles, node.id)(ws[i])
    {
      SameUserSameClients(us[i], ws[i], profiles, node);
      SameUserSameRules(us[i], ws[i], profiles, node.id);
    }
    FlatAlike(us, ws, ClientsOn(profiles, node));
    FlatAlike(us, ws, RulesOn(profiles, node.id));
    FlatPermutes(ws, us', ClientsOn(profiles, node));
    FlatPermutes(ws, us', RulesOn(profiles, node.id));
    ClientsAreFlat(us, profiles, node);
    ClientsAreFlat(us', profiles, node);
  }

  /** Rendering the rows in another order fails alike, and otherwise gives the same but for order. */
  lemma RowOrderIsImmaterial(us: seq<User>, us': seq<User>, profiles: map<ProfileId, Profile>, node: Node)
    requires SameRows(us, us')
    ensures var r, r' := RenderServerConfig(us, profiles, node), RenderServerConfig(us', profiles, node);
            r.Success? == r'.Success? && (r.Success? ==> SameUpToOrder(r.value, r'.value))
  {
    var ws: seq<User> :| |ws| == |us| && multiset(ws) == multiset(us')
      && forall i :: 0 <= i < |us| ==> SameUser(us[i], ws[i]);
    SuccessInAnyOrder(us, ws, us', profiles, node.id);
    PartsInAnyOrder(us, ws, us', profiles, node);
    var r, r' := ServerBlockRules(us, profiles, node.id), ServerBlockRules(us', profiles, node.id);
    if r.Success? {
      RulesAreFlat(us, profiles, node.id);
      RulesAreFlat(us', profiles, node.id);
      AssemblyPermutes(node, AkfaClients(us, profiles, node), AkfaClients(us', profiles, node), r.value, r'.value);
    }
  }

  // ---------- one attempt, one push, one request ----------

  predicate SameLive(a: Option<Config>, b: Option<Config>) {
    a.Some? == b.Some? && (a.Some? ==> SameUpToOrder(a.value, b.value))
  }

  /** The row and the outcome do not depend on the order, and neither does the server up to it. */
  lemma AttemptInAnyOrder(us: seq<User>, us': seq<User>, profiles: map<ProfileId, Profile>, node: Node,
                          live: Option<Config>, live': Option<Config>, allow: bool, attempt: Attempt)
    requires SameRows(us, us') && SameLive(live, live')
    ensures var a, b := ApplyNode(us, profiles, node, live, allow, attempt),
                        ApplyNode(us', profiles, node, live', allow, attempt);
            a.node == b.node && a.status == b.status && SameLive(a.live, b.live)
  {
    RowOrderIsImmaterial(us, us', profiles, Prepared(node, attempt));
    var r, r' := RenderServerConfig(us, profiles, Prepared(node, attempt)),
                 RenderServerConfig(us', profiles, Prepared(node, attempt));
    AttemptedInAnyOrder(node, r, r', live, live', allow, attempt);
  }

  lemma AttemptedInAnyOrder(node: Node, r: Result<Config, RenderError>, r': Result<Config, RenderError>,
                            live: Option<Config>, live': Option<Config>, allow: bool, attempt: Attempt)
    requires r.Success? == r'.Success? && (r.Success? ==> SameUpToOrder(r.value, r'.value)) && SameLive(live, live')
    ensures var a, b := Attempted(node, r, live, allow, attempt), Attempted(node, r', live', allow, attempt);
            a.node == b.node && a.status == b.status && SameLive(a.live, b.live)
  {
  }

  /** What every server runs when each push reads the rows in an order of its own. */
  type Servers = NodeId -> Option<Config>

  ghost predicate SameServers(sys: System, servers: Servers) {
    forall n :: SameLive(Live(sys, n), servers(n))
  }

  ghost predicate WrittenInSomeOrder(sys: System, n: NodeId, allow: bool, attempt: Attempt, before: Option<Config>,
                                     after: Option<Config>)
    requires n in sys.db.nodes
  {
    exists us: seq<User> :: SameRows(sys.db.users, us)
      && after == ApplyNode(us, sys.db.profiles, sys.db.nodes[n], before, allow, attempt).live
  }

  ghost predicate PushedInSomeOrder(sys: System, targets: set<NodeId>, allow: bool, attempts: NodeId -> Attempt,
                                    before: Servers, after: Servers)
  {
    forall n ::
      if n in targets && n in sys.db.nodes then WrittenInSomeOrder(sys, n, allow, attempts(n), before(n), after(n))
      else after(n) == before(n)
  }

  lemma PushInAnyOrder(sys: System, targets: set<NodeId>, allow: bool, attempts: NodeId -> Attempt, before: Servers,
                       after: Servers)
    requires SameServers(sys, before) && PushedInSomeOrder(sys, targets, allow, attempts, before, after)
    ensures SameServers(AfterApply(sys, targets, allow, attempts), after)
  {
    forall n
      ensures SameLive(Live(AfterApply(sys, targets, allow, attempts), n), after(n))
    {
      assert SameLive(Live(sys, n), before(n));
      LiveIsLiveAfter(sys, targets, allow, attempts, n);
      if n in targets && n in sys.db.nodes {
        assert WrittenInSomeOrder(sys, n, allow, attempts(n), before(n), after(n));
        var us: seq<User> :| SameRows(sys.db.users, us)
          && after(n) == ApplyNode(us, sys.db.profiles, sys.db.nodes[n], before(n), allow, attempts(n)).live;
        AttemptInAnyOrder(sys.db.users, us, sys.db.profiles, sys.db.nodes[n], Live(sys, n), before(n), allow,
                          attempts(n));
      }
    }
  }

  lemma LiveIsLiveAfter(sys: System, targets: set<NodeId>, allow: bool, attempts: NodeId -> Attempt, n: NodeId)
    ensures Live(AfterApply(sys, targets, allow, attempts), n) == LiveAfter(sys, targets, allow, attempts, n)
  {
  }

  ghost predicate ServedInSomeOrder(sys: System, req: Request, attempts: NodeId -> Attempt, before: Servers,
                                    after: Servers)
  {
    match PlanOf(sys.db, req)
    case Push(db, targets, allow, _, _) =>
      PushedInSomeOrder(System(db, sys.deployed), targets, allow, attempts, before, after)
    case _ => forall n :: after(n) == before(n)
  }

  lemma RequestInAnyOrder(sys: System, req: Request, attempts: NodeId -> Attempt, before: Servers, after: Servers)
    requires SameServers(sys, before) && ServedInSomeOrder(sys, req, attempts, before, after)
    ensures SameServers(Step(sys, req, attempts), after)
  {
    StepDeploys(sys, req, attempts);
    var plan := PlanOf(sys.db, req);
    if plan.Push? {
      var planned := System(plan.db, sys.deployed);
      SameServersDeployed(sys, planned, before);
      PushInAnyOrder(planned, plan.targets, plan.allowNonOnline, attempts, before, after);
      SameServersDeployed(AfterApply(planned, plan.targets, plan.allowNonOnline, attempts), Step(sys, req, attempts),
                          after);
    } else {
      assert forall n :: after(n) == before(n);
      SameServersStill(sys, before, after);
      SameServersDeployed(sys, Step(sys, req, attempts), after);
    }
  }

  /** What servers run after a request is what its push left, committed or not. */
  lemma StepDeploys(sys: System, req: Request, attempts: NodeId -> Attempt)
    ensures var plan := PlanOf(sys.db, req);
            Step(sys, req, attempts).deployed ==
            if plan.Push?
            then AfterApply(System(plan.db, sys.deployed), plan.targets, plan.allowNonOnline, attempts).deployed
            else sys.deployed
  {
  }

  lemma SameServersDeployed(sys: System, other: System, servers: Servers)
    requires SameServers(sys, servers) && other.deployed == sys.deployed
    ensures SameServers(other, servers)
  {
    forall n
      ensures SameLive(Live(other, n), servers(n))
    {
      assert SameLive(Live(sys, n), servers(n));
    }
  }

  lemma SameServersStill(sys: System, before: Servers, after: Servers)
    requires SameServers(sys, before) && forall n :: after(n) == before(n)
    ensures SameServers(sys, after)
  {
    forall n
      ensures SameLive(Live(sys, n), after(n))
    {
      assert SameLive(Live(sys, n), before(n));
    }
  }

  // ---------- over runs ----------

  /** The servers along a run whose pushes each read the rows in some order. */
  ghost predicate IsServed(sys: System, events: seq<Event>, servers: seq<Servers>) {
    && |servers| == |events| + 1 && SameServers(sys, servers[0])
    && forall i :: 0 <= i < |events| ==>
         ServedInSomeOrder(Run(sys, events[..i]), events[i].req, events[i].attempts, servers[i], servers[i + 1])
  }

  lemma ServedOneMore(sys: System, events: seq<Event>, servers: seq<Servers>, i: nat)
    requires IsServed(sys, events, servers) && i < |events| && SameServers(Run(sys, events[..i]), servers[i])
    ensures SameServers(Run(sys, events[..i + 1]), servers[i + 1])
  {
    var e := events[i];
    RequestInAnyOrder(Run(sys, events[..i]), e.req, e.attempts, servers[i], servers[i + 1]);
    assert events[..i + 1][..i] == events[..i] && events[..i + 1][i] == e;
  }

  lemma {:induction false} RunInAnyOrder(sys: System, events: seq<Event>, servers: seq<Servers>, k: nat)
    requires IsServed(sys, events, servers) && k <= |events|
    ensures SameServers(Run(sys, events[..k]), servers[k])
  {
    if k > 0 {
      RunInAnyOrder(sys, events, servers, k - 1);
      ServedOneMore(sys, events, servers, k - 1);
    } else {
      assert events[..0] == [];
    }
  }

  /** The server runs what the database renders for the node, up to the order of clients and rules. */
  ghost predicate RunsUpToOrder(db: Db, n: NodeId, live: Option<Config>)
    requires n in db.nodes
  {
    live.Some? && Render(db, n).Success? && SameUpToOrder(Render(db, n).value, live.value)
  }

  /**
   Over every admissible run, in whatever order each push reads the rows, every online node with
   Xray and without a failure on record runs the current rendering up to the order of its parts.
   */
  lemma AgreementInAnyOrder(sys: System, events: seq<Event>, servers: seq<Servers>, k: nat, n: NodeId)
    requires InSync(sys) && ValidDb(sys.db) && ValidLists(sys.db.profiles) && FreshRun(sys, events)
    requires AdmissibleRun(sys, events) && IsServed(sys, events, servers) && k <= |events|
    requires n in Run(sys, events[..k]).db.nodes && Counts(Run(sys, events[..k]), n)
    ensures RunsUpToOrder(Run(sys, events[..k]).db, n, servers[k](n))
  {
    AgreementOverRuns(sys, events);
    RunInAnyOrder(sys, events, servers, k);
    var now := Run(sys, events[..k]);
    assert InSync(now) && NodeInSync(now, n);
    assert SameLive(Live(now, n), servers[k](n));
  }
}
