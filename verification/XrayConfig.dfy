/**
 Rendering of server configurations and of the client's routing rules
 (`backend/app/services/xray_config.py`).
 */
module XrayConfig {
  import opened Wrappers
  import opened Decimal
  import opened DomainLists
  import opened Entities

  const FLOW := "xtls-rprx-vision"

  // ---------- who may use which node ----------

  function ProfileOf(u: User, profiles: map<ProfileId, Profile>): Option<Profile> {
    if u.profileId.Some? && u.profileId.value in profiles then Some(profiles[u.profileId.value]) else None
  }

  function ProfileNodeIds(profile: Option<Profile>): set<NodeId> {
    if profile.Some? then SeqSet(profile.value.allowedNodes) else {}
  }

  function BlockedDomainsOf(profile: Option<Profile>): seq<string> {
    if profile.Some? then profile.value.blockedDomains else []
  }

  /** Explicit links win; without any, the nodes of the profile. */
  function EffectiveNodeIds(u: User, profiles: map<ProfileId, Profile>): set<NodeId> {
    if u.nodeLinks != [] then SeqSet(u.nodeLinks) else ProfileNodeIds(ProfileOf(u, profiles))
  }

  predicate Serves(d: Device) {
    d.status.Active? && d.hwidHash.Some? && d.hwidHash.value != ""
  }

  function ServingDevices(devices: seq<Device>): (r: seq<Device>)
    ensures forall d :: d in r <==> d in devices && Serves(d)
  {
    if devices == [] then []
    else
      var init, last := devices[..|devices| - 1], devices[|devices| - 1];
      assert devices == init + [last];
      ServingDevices(init) + if Serves(last) then [last] else []
  }

  function AkfaClient(u: User, d: Device): ClientEntry {
    ClientEntry(d.uuid, Some(DeviceEmail(u.id, d.id)), FLOW)
  }

  function Emails(u: User, devices: seq<Device>): seq<string> {
    seq(|devices|, i requires 0 <= i < |devices| => DeviceEmail(u.id, devices[i].id))
  }

  function Clients(u: User, devices: seq<Device>): seq<ClientEntry> {
    seq(|devices|, i requires 0 <= i < |devices| => AkfaClient(u, devices[i]))
  }

  // ---------- one user's part of a node's configuration ----------

  function UserClients(u: User, profiles: map<ProfileId, Profile>, node: Node): seq<ClientEntry> {
    if node.status == NodeStatus.Online && u.status == UserStatus.Active && node.id in EffectiveNodeIds(u, profiles)
    then Clients(u, ServingDevices(u.devices))
    else []
  }

  function UserRules(u: User, profiles: map<ProfileId, Profile>, nodeId: NodeId): Result<seq<BlockRule>, RenderError> {
    if u.status != UserStatus.Active || nodeId !in EffectiveNodeIds(u, profiles) then Success([])
    else
      match BlockedDomainMatchers(BlockedDomainsOf(ProfileOf(u, profiles)))
      case Failure(e) => Failure(BadDomain(e))
      case Success(matchers) =>
        var emails := Emails(u, ServingDevices(u.devices));
        Success(if matchers != [] && emails != [] then [BlockRule(emails, matchers)] else [])
  }

  // ---------- the whole configuration ----------

  function AkfaClients(users: seq<User>, profiles: map<ProfileId, Profile>, node: Node): seq<ClientEntry> {
    if users == [] then []
    else AkfaClients(users[..|users| - 1], profiles, node) + UserClients(users[|users| - 1], profiles, node)
  }

  function ServerBlockRules(users: seq<User>, profiles: map<ProfileId, Profile>, nodeId: NodeId)
    : Result<seq<BlockRule>, RenderError>
  {
    if users == [] then Success([])
    else
      match ServerBlockRules(users[..|users| - 1], profiles, nodeId)
      case Failure(e) => Failure(e)
      case Success(rules) =>
        match UserRules(users[|users| - 1], profiles, nodeId)
        case Failure(e) => Failure(e)
        case Success(more) => Success(rules + more)
  }

  predicate IsAkfaEmail(email: Option<string>) {
    email.Some? && EMAIL_PREFIX <= email.value
  }

  /** A baseline client that AKFA does not own. */
  predicate IsForeign(c: ClientEntry, akfa: seq<ClientEntry>) {
    && c.ClientEntry?
    && !IsAkfaEmail(c.email)
    && forall a :: a in akfa && a.ClientEntry? ==> a.email != c.email
  }

  function ForeignClients(imported: seq<ClientEntry>, akfa: seq<ClientEntry>): (r: seq<ClientEntry>)
    ensures forall c :: c in r <==> c in imported && IsForeign(c, akfa)
  {
    if imported == [] then []
    else
      var rest := ForeignClients(imported[1..], akfa);
      if IsForeign(imported[0], akfa) then [imported[0]] + rest else rest
  }

  function MergeImportedSafeClients(node: Node, akfa: seq<ClientEntry>): seq<ClientEntry> {
    if node.managedMode != ImportedSafe || node.importedClients.None? then akfa
    else ForeignClients(node.importedClients.value, akfa) + akfa
  }

  function Validate(config: Config): Option<RenderError> {
    if config.privateKey == "" then Some(NoPrivateKey)
    else if exists c ::
        c in config.clients && c.ClientEntry? && IsAkfaEmail(c.email) && c.flow != FLOW then Some(WrongFlow)
    else None
  }

  /** The configuration around a list of own clients and a list of rules. */
  function Assemble(node: Node, akfa: seq<ClientEntry>, rules: seq<BlockRule>): Result<Config, RenderError> {
    var tag := if node.inboundTag.Some? && node.inboundTag.value != "" then node.inboundTag.value else "vless-reality";
    var config := Config(tag, node.port, node.sni, node.credentials.privateKey, node.credentials.shortId,
                         MergeImportedSafeClients(node, akfa), rules);
    match Validate(config)
    case Some(e) => Failure(e)
    case None => Success(config)
  }

  function RenderServerConfig(users: seq<User>, profiles: map<ProfileId, Profile>, node: Node): Result<Config,
      RenderError> {
    match ServerBlockRules(users, profiles, node.id)
    case Failure(e) => Failure(e)
    case Success(rules) => Assemble(node, AkfaClients(users, profiles, node), rules)
  }

  function Render(db: Db, n: NodeId): Result<Config, RenderError>
    requires n in db.nodes
  {
    RenderServerConfig(db.users, db.profiles, db.nodes[n])
  }

  /** What a rendering takes from the node row, whoever its users are. */
  lemma NodeInRendering(users: seq<User>, profiles: map<ProfileId, Profile>, node: Node)
    requires RenderServerConfig(users, profiles, node).Success?
    ensures var config := RenderServerConfig(users, profiles, node).value;
            && config.port == node.port && config.sni == node.sni
            && config.privateKey == node.credentials.privateKey && config.shortId == node.credentials.shortId
            && config.inboundTag == (match node.inboundTag
                                     case None => "vless-reality"
                                     case Some(tag) => if tag != "" then tag else "vless-reality")
  {
    var rules := ServerBlockRules(users, profiles, node.id);
    assert RenderServerConfig(users, profiles, node) ==
           Assemble(node, AkfaClients(users, profiles, node), rules.value);
  }

  // ---------- the loops of the source ----------

  function UserPairs(u: User, devices: seq<Device>): seq<(User, Device)> {
    var serving := ServingDevices(devices);
    seq(|serving|, i requires 0 <= i < |serving| => (u, serving[i]))
  }

  function ActivePairs(users: seq<User>, profiles: map<ProfileId, Profile>, node: Node): seq<(User, Device)> {
    if users == [] then []
    else
      var u := users[|users| - 1];
      ActivePairs(users[..|users| - 1], profiles, node)
      + if node.status == NodeStatus.Online && u.status == UserStatus.Active && node.id in EffectiveNodeIds(u, profiles)
        then UserPairs(u, u.devices) else []
  }

  method ActiveHwidDevicesForNode(users: seq<User>, profiles: map<ProfileId, Profile>, node: Node)
    returns (pairs: seq<(User, Device)>)
    ensures pairs == ActivePairs(users, profiles, node)
  {
    pairs := [];
    if node.status != NodeStatus.Online {
      NoPairsUnlessOnline(users, profiles, node);
      return;
    }
    for i := 0 to |users|
      invariant pairs == ActivePairs(users[..i], profiles, node)
    {
      assert users[..i + 1][..i] == users[..i];
      var user := users[i];
      if user.status != UserStatus.Active || node.id !in EffectiveNodeIds(user, profiles) {
        continue;
      }
      pairs := AppendDevices(pairs, user);
    }
    assert users[..|users|] == users;
  }

  method AppendDevices(pairs: seq<(User, Device)>, user: User) returns (r: seq<(User, Device)>)
    ensures r == pairs + UserPairs(user, user.devices)
  {
    r := pairs;
    for j := 0 to |user.devices|
      invariant r == pairs + UserPairs(user, user.devices[..j])
    {
      assert user.devices[..j + 1][..j] == user.devices[..j];
      var device := user.devices[j];
      if device.status == DeviceStatus.Active && device.hwidHash.Some? && device.hwidHash.value != "" {
        r := r + [(user, device)];
      }
    }
    assert user.devices[..|user.devices|] == user.devices;
  }

  lemma {:induction false} NoPairsUnlessOnline(users: seq<User>, profiles: map<ProfileId, Profile>, node: Node)
    requires node.status != NodeStatus.Online
    ensures ActivePairs(users, profiles, node) == []
  {
    if users != [] {
      NoPairsUnlessOnline(users[..|users| - 1], profiles, node);
    }
  }

  /** The collected pairs: users and their devices that may use the node. */
  lemma {:induction false} PairsMembers(users: seq<User>, profiles: map<ProfileId, Profile>, node: Node, u: User,
                                        d: Device)
    ensures (u, d) in ActivePairs(users, profiles, node) <==>
            && u in users && d in u.devices
            && d.status == DeviceStatus.Active && d.hwidHash.Some? && d.hwidHash.value != ""
            && node.status == NodeStatus.Online && u.status == UserStatus.Active
            && node.id in EffectiveNodeIds(u, profiles)
  {
    if users != [] {
      var init, last := users[..|users| - 1], users[|users| - 1];
      assert users == init + [last];
      PairsMembers(init, profiles, node, u, d);
      var serving, pairs := ServingDevices(last.devices), UserPairs(last, last.devices);
      if (u, d) in pairs {
        var i :| 0 <= i < |pairs| && pairs[i] == (u, d);
        assert serving[i] in serving;
      }
      if u == last && d in serving {
        var i :| 0 <= i < |serving| && serving[i] == d;
        assert pairs[i] == (u, d);
      }
    }
  }

  /** `[{...} for user, device in pairs]` */
  function ClientsFor(pairs: seq<(User, Device)>): seq<ClientEntry> {
    seq(|pairs|, i requires 0 <= i < |pairs| => AkfaClient(pairs[i].0, pairs[i].1))
  }

  lemma ClientsForAppend(a: seq<(User, Device)>, b: seq<(User, Device)>)
    ensures ClientsFor(a + b) == ClientsFor(a) + ClientsFor(b)
  {
  }

  /** The rendered client list is the comprehension over the collected pairs. */
  lemma {:induction false} ClientsOfPairs(users: seq<User>, profiles: map<ProfileId, Profile>, node: Node)
    ensures ClientsFor(ActivePairs(users, profiles, node)) == AkfaClients(users, profiles, node)
  {
    if users != [] {
      var init, last := users[..|users| - 1], users[|users| - 1];
      var visible := node.status == NodeStatus.Online && last.status == UserStatus.Active
                     && node.id in EffectiveNodeIds(last, profiles);
      var more := if visible then UserPairs(last, last.devices) else [];
      ClientsOfPairs(init, profiles, node);
      ClientsForAppend(ActivePairs(init, profiles, node), more);
      assert ClientsFor(more) == UserClients(last, profiles, node);
    }
  }

  method ServerBlockedDomainRules(users: seq<User>, profiles: map<ProfileId, Profile>, node: Node)
    returns (r: Result<seq<BlockRule>, RenderError>)
    ensures r == ServerBlockRules(users, profiles, node.id)
  {
    var rules: seq<BlockRule> := [];
    for i := 0 to |users|
      invariant ServerBlockRules(users[..i], profiles, node.id) == Success(rules)
    {
      assert users[..i + 1][..i] == users[..i];
      assert rules + [] == rules;
      var user := users[i];
      if user.status != UserStatus.Active || node.id !in EffectiveNodeIds(user, profiles) {
        continue;
      }
      var matchers := BlockedDomainMatchers(BlockedDomainsOf(ProfileOf(user, profiles)));
      if matchers.Failure? {
        RuleFailureSticks(users, profiles, node.id, i + 1);
        return Failure(BadDomain(matchers.error));
      }
      var emails := Emails(user, ServingDevices(user.devices));
      if matchers.value != [] && emails != [] {
        rules := rules + [BlockRule(emails, matchers.value)];
      }
    }
    assert users[..|users|] == users;
    return Success(rules);
  }

  lemma {:induction false} RuleFailureSticks(users: seq<User>, profiles: map<ProfileId, Profile>, nodeId: NodeId,
                                             n: nat)
    requires n <= |users|
    requires ServerBlockRules(users[..n], profiles, nodeId).Failure?
    ensures ServerBlockRules(users, profiles, nodeId) == ServerBlockRules(users[..n], profiles, nodeId)
  {
    if n == |users| {
      assert users[..n] == users;
    } else {
      assert users[..|users| - 1][..n] == users[..n];
      RuleFailureSticks(users[..|users| - 1], profiles, nodeId, n);
    }
  }

  // ---------- membership ----------

  lemma {:induction false} NoClientsUnlessOnline(users: seq<User>, profiles: map<ProfileId, Profile>, node: Node)
    requires node.status != NodeStatus.Online
    ensures AkfaClients(users, profiles, node) == []
  {
    if users != [] {
      NoClientsUnlessOnline(users[..|users| - 1], profiles, node);
    }
  }

  /** The AKFA clients of a node: one entry for each active device with a HWID of its active users. */
  lemma {:induction false} AkfaClientsMembers(users: seq<User>, profiles: map<ProfileId, Profile>, node: Node,
                                              c: ClientEntry)
    ensures c in AkfaClients(users, profiles, node) <==>
            exists u, d ::
              && u in users && d in u.devices
              && d.status == DeviceStatus.Active && d.hwidHash.Some? && d.hwidHash.value != ""
              && node.status == NodeStatus.Online && u.status == UserStatus.Active
              && node.id in EffectiveNodeIds(u, profiles)
              && c == ClientEntry(d.uuid, Some(DeviceEmail(u.id, d.id)), "xtls-rprx-vision")
  {
    if users != [] {
      var init, last := users[..|users| - 1], users[|users| - 1];
      assert users == init + [last];
      AkfaClientsMembers(init, profiles, node, c);
      var serving := ServingDevices(last.devices);
      if c in UserClients(last, profiles, node) {
        var i :| 0 <= i < |serving| && Clients(last, serving)[i] == c;
        assert serving[i] in serving && c == AkfaClient(last, serving[i]);
      }
      forall d | d in last.devices && Serves(d)
        ensures AkfaClient(last, d) in Clients(last, serving)
      {
        assert d in serving;
        var i :| 0 <= i < |serving| && serving[i] == d;
        assert Clients(last, serving)[i] == AkfaClient(last, d);
      }
    }
  }

  /** The row behind a rendered client. */
  lemma OwnerOfClient(users: seq<User>, profiles: map<ProfileId, Profile>, node: Node, c: ClientEntry)
      returns (u: User, d: Device)
    requires c in AkfaClients(users, profiles, node)
    ensures u in users && d in u.devices && u.status == UserStatus.Active
    ensures d.status == DeviceStatus.Active && d.hwidHash.Some? && d.hwidHash.value != ""
    ensures node.status == NodeStatus.Online && node.id in EffectiveNodeIds(u, profiles)
    ensures c == ClientEntry(d.uuid, Some(DeviceEmail(u.id, d.id)), "xtls-rprx-vision")
  {
    AkfaClientsMembers(users, profiles, node, c);
    u, d :| && u in users && d in u.devices
            && d.status == DeviceStatus.Active && d.hwidHash.Some? && d.hwidHash.value != ""
            && node.status == NodeStatus.Online && u.status == UserStatus.Active
            && node.id in EffectiveNodeIds(u, profiles)
            && c == ClientEntry(d.uuid, Some(DeviceEmail(u.id, d.id)), "xtls-rprx-vision");
  }

  lemma {:induction false} AkfaClientsAreMarked(users: seq<User>, profiles: map<ProfileId, Profile>, node: Node)
    ensures forall c :: c in AkfaClients(users, profiles, node) ==>
            c.ClientEntry? && IsAkfaEmail(c.email) && c.flow == FLOW
  {
    forall c | c in AkfaClients(users, profiles, node)
      ensures c.ClientEntry? && IsAkfaEmail(c.email) && c.flow == FLOW
    {
      AkfaClientsMembers(users, profiles, node, c);
      var u, d := OwnerOfClient(users, profiles, node, c);
      assert DeviceEmail(u.id, d.id)[..|EMAIL_PREFIX|] == EMAIL_PREFIX;
    }
  }

  /** Rendering fails exactly on a missing key or on a stored domain list that no longer validates. */
  lemma RenderFailsExactlyWhen(db: Db, n: NodeId)
    requires n in db.nodes
    ensures Render(db, n).Failure? <==>
            || db.nodes[n].credentials.privateKey == ""
            || exists u ::
               && u in db.users && u.status == UserStatus.Active && db.nodes[n].id in EffectiveNodeIds(u, db.profiles)
                           && Normalized(BlockedDomainsOf(ProfileOf(u, db.profiles))).Failure?
  {
    var node := db.nodes[n];
    AkfaClientsAreMarked(db.users, db.profiles, node);
    RulesFailExactlyWhen(db.users, db.profiles, node.id);
  }

  lemma {:induction false} RulesFailExactlyWhen(users: seq<User>, profiles: map<ProfileId, Profile>, nodeId: NodeId)
    ensures ServerBlockRules(users, profiles, nodeId).Failure? <==>
            exists u :: && u in users && u.status == UserStatus.Active && nodeId in EffectiveNodeIds(u, profiles)
                        && Normalized(BlockedDomainsOf(ProfileOf(u, profiles))).Failure?
  {
    if users != [] {
      var init, last := users[..|users| - 1], users[|users| - 1];
      assert users == init + [last];
      RulesFailExactlyWhen(init, profiles, nodeId);
    }
  }
}
