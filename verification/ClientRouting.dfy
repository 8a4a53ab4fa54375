/**
 Routing rules of the client configuration: BitTorrent and blocked domains are refused
 before any direct rule is looked at, and the rest goes direct or through the proxy.
 */
module ClientRouting {
  import opened Wrappers
  import opened Decimal
  import opened DomainLists
  import opened Entities
  import opened XrayConfig

  datatype Outbound = Block | Direct | Proxy

  datatype ClientRule =
    | TorrentRule(outbound: Outbound)
    | BlockedRule(domains: seq<Regexp>, outbound: Outbound)
    | DirectRule(patterns: seq<string>, outbound: Outbound)
    | InboundRule(outbound: Outbound)

  datatype Connection = Connection(host: string, bittorrent: bool)

  /** Constant tables of the panel: the default direct list and the zone rules of the RU profile. */
  datatype Tables = Tables(defaultDirect: seq<string>, zoneRules: seq<string>)

  function DirectDomainRules(profile: Option<Profile>, tables: Tables): seq<ClientRule> {
    if profile.None? || profile.value.routingMode == FullTunnel then []
    else
      var domains := if profile.value.directDomains == [] then tables.defaultDirect else profile.value.directDomains;
      [DirectRule(if profile.value.routingMode == RuDirect then tables.zoneRules + domains else domains, Direct)]
  }

  function BlockedDomainRules(profile: Option<Profile>): Result<seq<ClientRule>, DomainError> {
    match BlockedDomainMatchers(BlockedDomainsOf(profile))
    case Failure(e) => Failure(e)
    case Success(matchers) => Success(if matchers == [] then [] else [BlockedRule(matchers, Block)])
  }

  function ClientRules(profile: Option<Profile>, tables: Tables): Result<seq<ClientRule>, DomainError> {
    match BlockedDomainRules(profile)
    case Failure(e) => Failure(e)
    case Success(blocked) => Success([TorrentRule(Block)] + blocked + DirectDomainRules(profile, tables)
                                     + [InboundRule(Proxy)])
  }

  /** How Xray reads the entries of a direct list is left to the environment. */
  ghost predicate RuleMatches(r: ClientRule, c: Connection, isDirect: (seq<string>, string) -> bool) {
    match r
    case TorrentRule(_) => c.bittorrent
    case BlockedRule(domains, _) => exists i :: 0 <= i < |domains| && Matches(domains[i], c.host)
    case DirectRule(patterns, _) => isDirect(patterns, c.host)
    case InboundRule(_) => true
  }

  ghost function FirstMatch(rules: seq<ClientRule>, c: Connection,
                            isDirect: (seq<string>, string) -> bool): Option<Outbound> {
    if rules == [] then None
    else if RuleMatches(rules[0], c, isDirect) then Some(rules[0].outbound)
    else FirstMatch(rules[1..], c, isDirect)
  }

  lemma MatchersCoverDomains(values: seq<string>, host: string)
    requires Normalized(values).Success?
    ensures var ms := BlockedDomainMatchers(values).value;
            (exists i :: 0 <= i < |ms| && Matches(ms[i], host)) <==>
                exists d :: d in Normalized(values).value && UnderDomain(host, d)
  {
    var domains := Normalized(values).value;
    var ms := BlockedDomainMatchers(values).value;
    forall i | 0 <= i < |domains|
      ensures Matches(ms[i], host) <==> UnderDomain(host, domains[i])
    {
      MatcherIsExact(domains[i], host);
    }
    if i :| 0 <= i < |ms| && Matches(ms[i], host) {
      assert domains[i] in domains && UnderDomain(host, domains[i]);
    }
    if d :| d in domains && UnderDomain(host, d) {
      var i :| 0 <= i < |domains| && domains[i] == d;
      assert Matches(ms[i], host);
    }
  }

  /**
   Blocking wins: for every profile and every direct list, a connection is refused
   exactly when it is BitTorrent or its host is a blocked domain or lies under one.
   */
  lemma BlockingWins(profile: Option<Profile>, tables: Tables, c: Connection, isDirect: (seq<string>, string) -> bool)
    requires Normalized(BlockedDomainsOf(profile)).Success?
    ensures FirstMatch(ClientRules(profile, tables).value, c, isDirect) == Some(Block) <==>
            c.bittorrent || exists d :: d in Normalized(BlockedDomainsOf(profile)).value && UnderDomain(c.host, d)
  {
    var blocked := BlockedDomainRules(profile).value;
    var tail := DirectDomainRules(profile, tables) + [InboundRule(Proxy)];
    BlockedThenTail(profile, tail, c, isDirect);
    Regrouped([TorrentRule(Block)], blocked, DirectDomainRules(profile, tables), [InboundRule(Proxy)]);
    TorrentFirst(ClientRules(profile, tables).value, blocked + tail, c, isDirect);
  }

  lemma Regrouped(a: seq<ClientRule>, b: seq<ClientRule>, c: seq<ClientRule>, d: seq<ClientRule>)
    ensures a + b + c + d == a + (b + (c + d))
  {
  }

  lemma TorrentFirst(rules: seq<ClientRule>, rest: seq<ClientRule>, c: Connection,
                     isDirect: (seq<string>, string) -> bool)
    requires rules == [TorrentRule(Block)] + rest
    ensures FirstMatch(rules, c, isDirect) == if c.bittorrent then Some(Block) else FirstMatch(rest, c, isDirect)
  {
    assert rules[1..] == rest;
  }

  lemma BlockedThenTail(profile: Option<Profile>, tail: seq<ClientRule>, c: Connection,
                        isDirect: (seq<string>, string) -> bool)
    requires Normalized(BlockedDomainsOf(profile)).Success?
    requires forall i :: 0 <= i < |tail| ==> tail[i].outbound != Block
    ensures FirstMatch(BlockedDomainRules(profile).value + tail, c, isDirect) == Some(Block) <==>
            exists d :: d in Normalized(BlockedDomainsOf(profile)).value && UnderDomain(c.host, d)
  {
    MatchersCoverDomains(BlockedDomainsOf(profile), c.host);
    TailNeverBlocks(tail, c, isDirect);
    var blocked := BlockedDomainRules(profile).value;
    if blocked == [] {
      assert blocked + tail == tail;
    } else {
      assert (blocked + tail)[1..] == tail && (blocked + tail)[0] == blocked[0];
    }
  }

  lemma {:induction false} TailNeverBlocks(rules: seq<ClientRule>, c: Connection,
                                           isDirect: (seq<string>, string) -> bool)
    requires forall i :: 0 <= i < |rules| ==> rules[i].outbound != Block
    ensures FirstMatch(rules, c, isDirect) != Some(Block)
  {
    if rules != [] {
      TailNeverBlocks(rules[1..], c, isDirect);
    }
  }

  /** The host is a blocked domain of the profile or lies under one. */
  ghost predicate HostBlocked(profile: Option<Profile>, host: string) {
    && profile.Some? && Normalized(profile.value.blockedDomains).Success?
    && exists d :: d in Normalized(profile.value.blockedDomains).value && UnderDomain(host, d)
  }

  /** What is sent past the proxy: hosts of the profile's direct list, of the default list when that is empty. */
  ghost predicate GoesDirect(profile: Option<Profile>, tables: Tables, host: string,
                             isDirect: (seq<string>, string) -> bool) {
    && profile.Some? && profile.value.routingMode != FullTunnel
    && var zones := if profile.value.routingMode == RuDirect then tables.zoneRules else [];
       var own := profile.value.directDomains;
       isDirect(zones + (if own == [] then tables.defaultDirect else own), host)
  }

  /** A connection that is not refused goes direct exactly for a direct host, and through the proxy otherwise. */
  lemma RestGoesDirectExactlyWhen(profile: Option<Profile>, tables: Tables, c: Connection,
                                  isDirect: (seq<string>, string) -> bool)
    requires Normalized(BlockedDomainsOf(profile)).Success?
    ensures var way := FirstMatch(ClientRules(profile, tables).value, c, isDirect);
            && (way == Some(Block) <==> c.bittorrent || HostBlocked(profile, c.host))
            && (way == Some(Direct) <==>
                !c.bittorrent && !HostBlocked(profile, c.host) && GoesDirect(profile, tables, c.host, isDirect))
            && (way == Some(Proxy) <==>
                !c.bittorrent && !HostBlocked(profile, c.host) && !GoesDirect(profile, tables, c.host, isDirect))
  {
    BlockingWins(profile, tables, c, isDirect);
    var blocked := BlockedDomainRules(profile).value;
    var tail := DirectDomainRules(profile, tables) + [InboundRule(Proxy)];
    Regrouped([TorrentRule(Block)], blocked, DirectDomainRules(profile, tables), [InboundRule(Proxy)]);
    TorrentFirst(ClientRules(profile, tables).value, blocked + tail, c, isDirect);
    DirectThenProxy(profile, tables, c, isDirect);
    if !HostBlocked(profile, c.host) {
      NotBlockedFallsThrough(profile, tail, c, isDirect);
    }
  }

  lemma DirectThenProxy(profile: Option<Profile>, tables: Tables, c: Connection,
                        isDirect: (seq<string>, string) -> bool)
    ensures FirstMatch(DirectDomainRules(profile, tables) + [InboundRule(Proxy)], c, isDirect) ==
            Some(if GoesDirect(profile, tables, c.host, isDirect) then Direct else Proxy)
  {
    var direct := DirectDomainRules(profile, tables);
    if direct == [] {
      assert direct + [InboundRule(Proxy)] == [InboundRule(Proxy)];
    } else {
      var rules := direct + [InboundRule(Proxy)];
      assert rules[1..] == [InboundRule(Proxy)];
      assert profile.value.routingMode != RuDirect ==> forall own: seq<string> :: [] + own == own;
    }
  }

  lemma NotBlockedFallsThrough(profile: Option<Profile>, tail: seq<ClientRule>, c: Connection,
                               isDirect: (seq<string>, string) -> bool)
    requires Normalized(BlockedDomainsOf(profile)).Success? && !HostBlocked(profile, c.host)
    ensures FirstMatch(BlockedDomainRules(profile).value + tail, c, isDirect) == FirstMatch(tail, c, isDirect)
  {
    MatchersCoverDomains(BlockedDomainsOf(profile), c.host);
    var blocked := BlockedDomainRules(profile).value;
    if blocked == [] {
      assert blocked + tail == tail;
    } else {
      assert (blocked + tail)[1..] == tail && (blocked + tail)[0] == blocked[0];
    }
  }

  // ---------- the server's rules ----------

  /** A rule of the list that names the e-mail refuses the host. */
  ghost predicate RefusesFor(rules: seq<BlockRule>, email: string, host: string) {
    exists r, i :: r in rules && email in r.emails && 0 <= i < |r.domains| && Matches(r.domains[i], host)
  }

  /** One user's rules refuse a device exactly the blocked hosts of the user's profile. */
  lemma OwnRulesRefuse(u: User, profiles: map<ProfileId, Profile>, n: NodeId, d: DeviceId, host: string)
    requires UserRules(u, profiles, n).Success?
    ensures RefusesFor(UserRules(u, profiles, n).value, DeviceEmail(u.id, d), host) <==>
            && u.status == UserStatus.Active && n in EffectiveNodeIds(u, profiles)
            && HostBlocked(ProfileOf(u, profiles), host)
            && exists e :: e in u.devices && e.id == d
                           && e.status == DeviceStatus.Active && e.hwidHash.Some? && e.hwidHash.value != ""
  {
    if u.status == UserStatus.Active && n in EffectiveNodeIds(u, profiles) {
      var values := BlockedDomainsOf(ProfileOf(u, profiles));
      MatchersCoverDomains(values, host);
      EmailsOfServing(u, d);
      var ms, emails := BlockedDomainMatchers(values).value, Emails(u, ServingDevices(u.devices));
      if i :| 0 <= i < |ms| && Matches(ms[i], host) && DeviceEmail(u.id, d) in emails {
        assert BlockRule(emails, ms) in UserRules(u, profiles, n).value;
      }
    }
  }

  lemma EmailsOfServing(u: User, d: DeviceId)
    ensures DeviceEmail(u.id, d) in Emails(u, ServingDevices(u.devices)) <==>
            exists e :: e in u.devices && e.id == d
                        && e.status == DeviceStatus.Active && e.hwidHash.Some? && e.hwidHash.value != ""
  {
    var serving := ServingDevices(u.devices);
    var emails := Emails(u, serving);
    if DeviceEmail(u.id, d) in emails {
      var i :| 0 <= i < |emails| && emails[i] == DeviceEmail(u.id, d);
      DeviceEmailInjective(u.id, d, u.id, serving[i].id);
      assert serving[i] in serving;
    }
    if e :| e in serving && e.id == d {
      var i :| 0 <= i < |serving| && serving[i] == e;
      assert emails[i] == DeviceEmail(u.id, d);
    }
  }

  /** The rules of the others never name the device. */
  lemma OtherRulesSilent(u: User, profiles: map<ProfileId, Profile>, n: NodeId, id: UserId, d: DeviceId, host: string)
    requires UserRules(u, profiles, n).Success? && u.id != id
    ensures !RefusesFor(UserRules(u, profiles, n).value, DeviceEmail(id, d), host)
  {
    var emails := Emails(u, ServingDevices(u.devices));
    if DeviceEmail(id, d) in emails {
      var i :| 0 <= i < |emails| && emails[i] == DeviceEmail(id, d);
      DeviceEmailInjective(id, d, u.id, ServingDevices(u.devices)[i].id);
    }
  }

  lemma RefusesEither(a: seq<BlockRule>, b: seq<BlockRule>, email: string, host: string)
    ensures RefusesFor(a + b, email, host) <==> RefusesFor(a, email, host) || RefusesFor(b, email, host)
  {
    assert forall r :: r in a + b <==> r in a || r in b;
  }

  lemma {:induction false} OthersSilent(users: seq<User>, profiles: map<ProfileId, Profile>, n: NodeId, id: UserId,
                                        d: DeviceId, host: string)
    requires forall i :: 0 <= i < |users| ==> users[i].id != id
    requires ServerBlockRules(users, profiles, n).Success?
    ensures !RefusesFor(ServerBlockRules(users, profiles, n).value, DeviceEmail(id, d), host)
  {
    if users != [] {
      var init, last := users[..|users| - 1], users[|users| - 1];
      OthersSilent(init, profiles, n, id, d, host);
      OtherRulesSilent(last, profiles, n, id, d, host);
      RefusesEither(ServerBlockRules(init, profiles, n).value, UserRules(last, profiles, n).value, DeviceEmail(id, d),
                    host);
    }
  }

  /** Of all the rules, those of a device's own user decide about it. */
  lemma {:induction false} RulesOfUser(users: seq<User>, profiles: map<ProfileId, Profile>, n: NodeId, k: nat,
                                       d: DeviceId, host: string)
    requires k < |users| && forall i, j :: 0 <= i < j < |users| ==> users[i].id != users[j].id
    requires ServerBlockRules(users, profiles, n).Success? && UserRules(users[k], profiles, n).Success?
    ensures RefusesFor(ServerBlockRules(users, profiles, n).value, DeviceEmail(users[k].id, d), host) <==>
            RefusesFor(UserRules(users[k], profiles, n).value, DeviceEmail(users[k].id, d), host)
  {
    var init, last, email := users[..|users| - 1], users[|users| - 1], DeviceEmail(users[k].id, d);
    RefusesEither(ServerBlockRules(init, profiles, n).value, UserRules(last, profiles, n).value, email, host);
    if k == |users| - 1 {
      OthersSilent(init, profiles, n, last.id, d, host);
    } else {
      RulesOfUser(init, profiles, n, k, d, host);
      OtherRulesSilent(last, profiles, n, users[k].id, d, host);
    }
  }

  lemma RulesOfRendering(db: Db, n: NodeId, u: User)
    requires n in db.nodes && db.nodes[n].id == n && Render(db, n).Success? && u in db.users
    ensures ServerBlockRules(db.users, db.profiles, n) == Success(Render(db, n).value.rules)
    ensures UserRules(u, db.profiles, n).Success?
  {
    RenderFailsExactlyWhen(db, n);
  }

  /**
   A rendered configuration refuses a device exactly the hosts that the rules of its user's client
   refuse: those of the profile's blocked domains, for the devices that the server lets in.
   */
  lemma ServerBlocksTheSameHosts(db: Db, n: NodeId, u: User, d: Device, host: string)
    requires ValidDb(db) && n in db.nodes && Render(db, n).Success? && u in db.users && d in u.devices
    ensures RefusesFor(Render(db, n).value.rules, DeviceEmail(u.id, d.id), host) <==>
            && u.status == UserStatus.Active && n in EffectiveNodeIds(u, db.profiles)
            && d.status == DeviceStatus.Active && d.hwidHash.Some? && d.hwidHash.value != ""
            && HostBlocked(ProfileOf(u, db.profiles), host)
  {
    var k :| 0 <= k < |db.users| && db.users[k] == u;
    RulesOfRendering(db, n, u);
    RulesOfUser(db.users, db.profiles, n, k, d.id, host);
    OwnRulesRefuseDevice(u, db.profiles, n, d, host);
  }

  lemma OwnRulesRefuseDevice(u: User, profiles: map<ProfileId, Profile>, n: NodeId, d: Device, host: string)
    requires UserRules(u, profiles, n).Success? && d in u.devices
    requires forall i, j :: 0 <= i < j < |u.devices| ==> u.devices[i].id != u.devices[j].id
    ensures RefusesFor(UserRules(u, profiles, n).value, DeviceEmail(u.id, d.id), host) <==>
            && u.status == UserStatus.Active && n in EffectiveNodeIds(u, profiles)
            && d.status == DeviceStatus.Active && d.hwidHash.Some? && d.hwidHash.value != ""
            && HostBlocked(ProfileOf(u, profiles), host)
  {
    OwnRulesRefuse(u, profiles, n, d.id, host);
    assert forall e :: e in u.devices && e.id == d.id ==> e == d;
  }

  /** No rule is rendered without a device or without a domain, which would be read as one about all of them. */
  lemma {:induction false} RulesAreAboutSomething(users: seq<User>, profiles: map<ProfileId, Profile>, n: NodeId)
    requires ServerBlockRules(users, profiles, n).Success?
    ensures forall r :: r in ServerBlockRules(users, profiles, n).value ==> r.emails != [] && r.domains != []
  {
    if users != [] {
      RulesAreAboutSomething(users[..|users| - 1], profiles, n);
    }
  }

  lemma ClientRulesAreAboutSomething(profile: Option<Profile>, tables: Tables)
    requires Normalized(BlockedDomainsOf(profile)).Success?
    ensures forall r :: r in ClientRules(profile, tables).value && r.BlockedRule? ==> r.domains != []
    ensures profile.None? || profile.value.routingMode == FullTunnel ==>
              forall r :: r in ClientRules(profile, tables).value ==> !r.DirectRule?
  {
  }
}
