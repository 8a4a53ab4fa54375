/**
 What a rendered server configuration says about the users it was rendered from: it
 is a concatenation of one part per user, and the parts can be read back.
 */
module Rendering {
  import opened Wrappers
  import opened Decimal
  import opened DomainLists
  import opened Entities
  import opened XrayConfig

  /** Every stored block list validates, as the profile schema enforces on write. */
  ghost predicate ValidLists(profiles: map<ProfileId, Profile>) {
    forall p :: p in profiles ==> Normalized(profiles[p].blockedDomains).Success?
  }

  /** The user puts at least one client on node `m` (when `m` is online). */
  predicate Shows(u: User, profiles: map<ProfileId, Profile>, m: NodeId) {
    u.status == UserStatus.Active && m in EffectiveNodeIds(u, profiles) && ServingDevices(u.devices) != []
  }

  /** Two versions of a user contribute the same to a node. */
  predicate SamePart(u: User, ps: map<ProfileId, Profile>, u': User, ps': map<ProfileId, Profile>, node: Node) {
    UserClients(u, ps, node) == UserClients(u', ps', node) && UserRules(u, ps, node.id) == UserRules(u', ps', node.id)
  }

  function BlockedOf(u: User, profiles: map<ProfileId, Profile>): Result<seq<string>, DomainError> {
    Normalized(BlockedDomainsOf(ProfileOf(u, profiles)))
  }

  lemma ListIsValid(u: User, profiles: map<ProfileId, Profile>)
    requires ValidLists(profiles)
    ensures BlockedOf(u, profiles).Success?
  {
    if ProfileOf(u, profiles).Some? {
      assert u.profileId.value in profiles;
    }
  }

  /** On an online node a part is decided by visibility, serving devices and the normalised block list. */
  lemma SamePartWhen(u: User, ps: map<ProfileId, Profile>, u': User, ps': map<ProfileId, Profile>, node: Node)
    requires node.status == NodeStatus.Online && ValidLists(ps) && ValidLists(ps') && u.id == u'.id
    ensures Shows(u, ps, node.id) != Shows(u', ps', node.id) ==>
              UserClients(u, ps, node) != UserClients(u', ps', node)
    ensures !Shows(u, ps, node.id) && !Shows(u', ps', node.id) ==> SamePart(u, ps, u', ps', node)
    ensures Shows(u, ps, node.id) && Shows(u', ps', node.id)
            && ServingDevices(u.devices) == ServingDevices(u'.devices) ==>
              (SamePart(u, ps, u', ps', node) <==> BlockedOf(u, ps) == BlockedOf(u', ps'))
  {
    HiddenPart(u, ps, node);
    HiddenPart(u', ps', node);
    if Shows(u, ps, node.id) && Shows(u', ps', node.id) && ServingDevices(u.devices) == ServingDevices(u'.devices) {
      ShownPartWhen(u, ps, u', ps', node);
    }
  }

  /** A user shows clients exactly when visible with a serving device, and otherwise has no rule either. */
  lemma HiddenPart(u: User, ps: map<ProfileId, Profile>, node: Node)
    requires node.status == NodeStatus.Online && ValidLists(ps)
    ensures UserClients(u, ps, node) == [] <==> !Shows(u, ps, node.id)
    ensures !Shows(u, ps, node.id) ==> UserRules(u, ps, node.id) == Success([])
  {
    ListIsValid(u, ps);
    var serving := ServingDevices(u.devices);
    assert |Clients(u, serving)| == |serving| && |Emails(u, serving)| == |serving|;
  }

  lemma ShownPartWhen(u: User, ps: map<ProfileId, Profile>, u': User, ps': map<ProfileId, Profile>, node: Node)
    requires node.status == NodeStatus.Online && ValidLists(ps) && ValidLists(ps') && u.id == u'.id
    requires Shows(u, ps, node.id) && Shows(u', ps', node.id) && ServingDevices(u.devices) == ServingDevices(u'.devices)
    ensures SamePart(u, ps, u', ps', node) <==> BlockedOf(u, ps) == BlockedOf(u', ps')
  {
    ListIsValid(u, ps);
    ListIsValid(u', ps');
    var serving := ServingDevices(u.devices);
    assert Clients(u, serving) == Clients(u', serving);
    assert Emails(u, serving) == Emails(u', serving);
    MatchersDetermineDomains(BlockedOf(u, ps).value, BlockedOf(u', ps').value);
    if SamePart(u, ps, u', ps', node) {
      SameRulesMeansSameMatchers(u, ps, u', ps', node);
    }
  }

  lemma SameRulesMeansSameMatchers(u: User, ps: map<ProfileId, Profile>, u': User, ps': map<ProfileId, Profile>,
                                   node: Node)
    requires ValidLists(ps) && ValidLists(ps') && u.id == u'.id
    requires Shows(u, ps, node.id) && Shows(u', ps', node.id)
    requires ServingDevices(u.devices) == ServingDevices(u'.devices)
    requires UserRules(u, ps, node.id) == UserRules(u', ps', node.id)
    ensures BlockedDomainMatchers(BlockedDomainsOf(ProfileOf(u, ps))) ==
            BlockedDomainMatchers(BlockedDomainsOf(ProfileOf(u', ps')))
  {
    ListIsValid(u, ps);
    ListIsValid(u', ps');
    var emails := Emails(u, ServingDevices(u.devices));
    assert |emails| == |ServingDevices(u.devices)|;
    var a := BlockedDomainMatchers(BlockedDomainsOf(ProfileOf(u, ps))).value;
    var b := BlockedDomainMatchers(BlockedDomainsOf(ProfileOf(u', ps'))).value;
    var ra, rb := UserRules(u, ps, node.id).value, UserRules(u', ps', node.id).value;
    assert a != [] ==> ra[0].domains == a;
    assert b != [] ==> rb[0].domains == b;
  }

  lemma MatchersDetermineDomains(a: seq<string>, b: seq<string>)
    ensures a == b <==>
            seq(|a|, i requires 0 <= i < |a| => DomainMatcher(a[i])) ==
                seq(|b|, i requires 0 <= i < |b| => DomainMatcher(b[i]))
  {
    var ma := seq(|a|, i requires 0 <= i < |a| => DomainMatcher(a[i]));
    var mb := seq(|b|, i requires 0 <= i < |b| => DomainMatcher(b[i]));
    if ma == mb {
      assert |a| == |b|;
      forall i | 0 <= i < |a|
        ensures a[i] == b[i]
      {
        assert ma[i] == mb[i];
      }
    }
  }

  // ---------- equal parts give equal configurations ----------

  lemma {:induction false} SameClients(us: seq<User>, ps: map<ProfileId, Profile>, us': seq<User>, ps': map<ProfileId,
                                       Profile>,
                                       node: Node, node': Node)
    requires |us| == |us'|
    requires forall i :: 0 <= i < |us| ==> UserClients(us[i], ps, node) == UserClients(us'[i], ps', node')
    ensures AkfaClients(us, ps, node) == AkfaClients(us', ps', node')
  {
    if us != [] {
      SameClients(us[..|us| - 1], ps, us'[..|us'| - 1], ps', node, node');
    }
  }

  lemma {:induction false} SameRules(us: seq<User>, ps: map<ProfileId, Profile>, us': seq<User>, ps': map<ProfileId,
                                     Profile>, n: NodeId)
    requires |us| == |us'|
    requires forall i :: 0 <= i < |us| ==> UserRules(us[i], ps, n) == UserRules(us'[i], ps', n)
    ensures ServerBlockRules(us, ps, n) == ServerBlockRules(us', ps', n)
  {
    if us != [] {
      SameRules(us[..|us| - 1], ps, us'[..|us'| - 1], ps', n);
    }
  }

  // ---------- equal configurations have equal parts ----------

  ghost predicate OwnsClient(id: UserId, c: ClientEntry) {
    c.ClientEntry? && exists d :: c.email == Some(DeviceEmail(id, d))
  }

  ghost predicate OwnsRule(id: UserId, r: BlockRule) {
    r.emails != [] && exists d :: r.emails[0] == DeviceEmail(id, d)
  }

  lemma OwnerIsUnique(a: UserId, b: UserId, c: ClientEntry, r: BlockRule)
    requires a != b
    ensures !(OwnsClient(a, c) && OwnsClient(b, c))
    ensures !(OwnsRule(a, r) && OwnsRule(b, r))
  {
    if OwnsClient(a, c) && OwnsClient(b, c) {
      var d :| c.email == Some(DeviceEmail(a, d));
      var e :| c.email == Some(DeviceEmail(b, e));
      DeviceEmailInjective(a, d, b, e);
    }
    if OwnsRule(a, r) && OwnsRule(b, r) {
      var d :| r.emails[0] == DeviceEmail(a, d);
      var e :| r.emails[0] == DeviceEmail(b, e);
      DeviceEmailInjective(a, d, b, e);
    }
  }

  /** If one side of the cut holds only marked elements and the other none, the cut can be found again. */
  lemma SplitMarked<T>(x: seq<T>, a: seq<T>, y: seq<T>, b: seq<T>, marked: T -> bool)
    requires x + a == y + b
    requires forall e :: e in a || e in b ==> marked(e)
    requires forall e :: e in x || e in y ==> !marked(e)
    ensures x == y && a == b
  {
    var s := x + a;
    assert forall i :: 0 <= i < |x| ==> s[i] == x[i] && !marked(s[i]);
    assert forall i :: |x| <= i < |s| ==> s[i] == a[i - |x|] && marked(s[i]);
    assert forall i :: 0 <= i < |y| ==> s[i] == y[i] && !marked(s[i]);
    assert forall i :: |y| <= i < |s| ==> s[i] == b[i - |y|] && marked(s[i]);
    assert |x| < |s| ==> marked(s[|x|]);
    assert |y| < |s| ==> marked(s[|y|]);
    assert |x| == |y|;
    assert x == s[..|x|] && y == s[..|y|] && a == s[|x|..] && b == s[|y|..];
  }

  ghost predicate SameDistinctIds(us: seq<User>, us': seq<User>) {
    && |us| == |us'|
    && (forall i :: 0 <= i < |us| ==> us[i].id == us'[i].id)
    && (forall i, j :: 0 <= i < j < |us| ==> us[i].id != us[j].id)
  }

  lemma OwnClients(u: User, ps: map<ProfileId, Profile>, node: Node)
    ensures forall c :: c in UserClients(u, ps, node) ==> OwnsClient(u.id, c)
  {
    forall c | c in UserClients(u, ps, node)
      ensures OwnsClient(u.id, c)
    {
      var serving := ServingDevices(u.devices);
      var i :| 0 <= i < |serving| && Clients(u, serving)[i] == c;
      assert c.email == Some(DeviceEmail(u.id, serving[i].id));
    }
  }

  lemma OwnRules(u: User, ps: map<ProfileId, Profile>, n: NodeId)
    ensures UserRules(u, ps, n).Success? ==> forall r :: r in UserRules(u, ps, n).value ==> OwnsRule(u.id, r)
  {
    var serving := ServingDevices(u.devices);
    if serving != [] {
      assert Emails(u, serving)[0] == DeviceEmail(u.id, serving[0].id);
    }
  }

  /** Nothing rendered for other users belongs to `id`. */
  lemma {:induction false} OthersDoNotOwn(us: seq<User>, ps: map<ProfileId, Profile>, node: Node, id: UserId)
    requires forall i :: 0 <= i < |us| ==> us[i].id != id
    ensures forall c :: c in AkfaClients(us, ps, node) ==> !OwnsClient(id, c)
    ensures ServerBlockRules(us, ps, node.id).Success? ==>
              forall r :: r in ServerBlockRules(us, ps, node.id).value ==> !OwnsRule(id, r)
  {
    if us != [] {
      var init, last := us[..|us| - 1], us[|us| - 1];
      OthersDoNotOwn(init, ps, node, id);
      OwnClients(last, ps, node);
      OwnRules(last, ps, node.id);
      forall c | c in UserClients(last, ps, node)
        ensures !OwnsClient(id, c)
      {
        OwnerIsUnique(last.id, id, c, BlockRule([], []));
      }
      if UserRules(last, ps, node.id).Success? {
        forall r | r in UserRules(last, ps, node.id).value
          ensures !OwnsRule(id, r)
        {
          OwnerIsUnique(last.id, id, NotAnObject, r);
        }
      }
    }
  }

  lemma LastClientsApart(us: seq<User>, ps: map<ProfileId, Profile>, us': seq<User>, ps': map<ProfileId, Profile>,
                         node: Node)
    requires us != [] && SameDistinctIds(us, us')
    requires AkfaClients(us, ps, node) == AkfaClients(us', ps', node)
    ensures AkfaClients(us[..|us| - 1], ps, node) == AkfaClients(us'[..|us'| - 1], ps', node)
    ensures UserClients(us[|us| - 1], ps, node) == UserClients(us'[|us'| - 1], ps', node)
  {
    var init, last := us[..|us| - 1], us[|us| - 1];
    var init', last' := us'[..|us'| - 1], us'[|us'| - 1];
    OwnClients(last, ps, node);
    OwnClients(last', ps', node);
    OthersDoNotOwn(init, ps, node, last.id);
    OthersDoNotOwn(init', ps', node, last.id);
    SplitMarked(AkfaClients(init, ps, node), UserClients(last, ps, node),
                AkfaClients(init', ps', node), UserClients(last', ps', node), c => OwnsClient(last.id, c));
  }

  lemma ClientsDetermineParts(us: seq<User>, ps: map<ProfileId, Profile>, us': seq<User>, ps': map<ProfileId,
                              Profile>, node: Node)
    requires SameDistinctIds(us, us')
    requires AkfaClients(us, ps, node) == AkfaClients(us', ps', node)
    ensures forall i :: 0 <= i < |us| ==> UserClients(us[i], ps, node) == UserClients(us'[i], ps', node)
  {
    forall i | 0 <= i < |us|
      ensures UserClients(us[i], ps, node) == UserClients(us'[i], ps', node)
    {
      ClientsDeterminePart(us, ps, us', ps', node, i);
    }
  }

  lemma {:induction false} ClientsDeterminePart(us: seq<User>, ps: map<ProfileId, Profile>, us': seq<User>,
                                                ps': map<ProfileId, Profile>,
                                                node: Node, i: nat)
    requires SameDistinctIds(us, us') && i < |us|
    requires AkfaClients(us, ps, node) == AkfaClients(us', ps', node)
    ensures UserClients(us[i], ps, node) == UserClients(us'[i], ps', node)
  {
    LastClientsApart(us, ps, us', ps', node);
    if i < |us| - 1 {
      ClientsDeterminePart(us[..|us| - 1], ps, us'[..|us'| - 1], ps', node, i);
    }
  }

  lemma {:induction false} RulesDetermineParts(us: seq<User>, ps: map<ProfileId, Profile>, us': seq<User>,
                                               ps': map<ProfileId, Profile>, node: Node)
    requires SameDistinctIds(us, us')
    requires ServerBlockRules(us, ps, node.id).Success?
    requires ServerBlockRules(us, ps, node.id) == ServerBlockRules(us', ps', node.id)
    ensures forall i :: 0 <= i < |us| ==> UserRules(us[i], ps, node.id) == UserRules(us'[i], ps', node.id)
  {
    if us != [] {
      var n := node.id;
      var init, last := us[..|us| - 1], us[|us| - 1];
      var init', last' := us'[..|us'| - 1], us'[|us'| - 1];
      OwnRules(last, ps, n);
      OwnRules(last', ps', n);
      OthersDoNotOwn(init, ps, node, last.id);
      OthersDoNotOwn(init', ps', node, last.id);
      SplitMarked(ServerBlockRules(init, ps, n).value, UserRules(last, ps, n).value,
                  ServerBlockRules(init', ps', n).value, UserRules(last', ps', n).value, r => OwnsRule(last.id, r));
      RulesDetermineParts(init, ps, init', ps', node);
      assert forall i :: 0 <= i < |init| ==> us[i] == init[i] && us'[i] == init'[i];
    }
  }

  // ---------- imported clients ----------

  /** Own clients never hide a foreign one: the e-mail prefix already tells them apart. */
  lemma {:induction false} ForeignIgnoresOwn(imported: seq<ClientEntry>, akfa: seq<ClientEntry>)
    requires forall c :: c in akfa ==> c.ClientEntry? && IsAkfaEmail(c.email)
    ensures ForeignClients(imported, akfa) == ForeignClients(imported, [])
  {
    if imported != [] {
      ForeignIgnoresOwn(imported[1..], akfa);
    }
  }

  lemma MergeDeterminesOwn(node: Node, a: seq<ClientEntry>, b: seq<ClientEntry>)
    requires forall c :: c in a || c in b ==> c.ClientEntry? && IsAkfaEmail(c.email)
    requires MergeImportedSafeClients(node, a) == MergeImportedSafeClients(node, b)
    ensures a == b
  {
    if node.managedMode == ImportedSafe && node.importedClients.Some? {
      var imported := node.importedClients.value;
      ForeignIgnoresOwn(imported, a);
      ForeignIgnoresOwn(imported, b);
      var f := ForeignClients(imported, []);
      assert a == (f + a)[|f|..] && b == (f + b)[|f|..];
    }
  }

  /**
   A configuration can be rendered again to the same text exactly when no user's part
   has changed.
   */
  lemma RenderDeterminesParts(db: Db, db': Db, n: NodeId)
    requires n in db.nodes && n in db'.nodes && db.nodes[n] == db'.nodes[n]
    requires SameDistinctIds(db.users, db'.users)
    requires Render(db, n).Success?
    ensures Render(db, n) == Render(db', n) <==>
            forall i :: 0 <= i < |db.users| ==>
                SamePart(db.users[i], db.profiles, db'.users[i], db'.profiles, db.nodes[n])
  {
    var node := db.nodes[n];
    if Render(db, n) == Render(db', n) {
      AkfaClientsAreMarked(db.users, db.profiles, node);
      AkfaClientsAreMarked(db'.users, db'.profiles, node);
      MergeDeterminesOwn(node, AkfaClients(db.users, db.profiles, node), AkfaClients(db'.users, db'.profiles, node));
      ClientsDetermineParts(db.users, db.profiles, db'.users, db'.profiles, node);
      RulesDetermineParts(db.users, db.profiles, db'.users, db'.profiles, node);
    }
    if forall i :: 0 <= i < |db.users| ==> SamePart(db.users[i], db.profiles, db'.users[i], db'.profiles, node) {
      SamePartsSameRender(db, db', n);
    }
  }

  lemma SamePartsSameRender(db: Db, db': Db, n: NodeId)
    requires n in db.nodes && n in db'.nodes && db.nodes[n] == db'.nodes[n]
    requires |db.users| == |db'.users|
    requires forall i :: 0 <= i < |db.users| ==>
             SamePart(db.users[i], db.profiles, db'.users[i], db'.profiles, db.nodes[n])
    ensures Render(db, n) == Render(db', n)
  {
    SameClients(db.users, db.profiles, db'.users, db'.profiles, db.nodes[n], db'.nodes[n]);
    SameRules(db.users, db.profiles, db'.users, db'.profiles, db.nodes[n].id);
  }
}
