/**
 What the requests about nodes and profiles answer and write, in terms of the rows alone: whose
 links, primary nodes and profile lists change and how, and what becomes of the node row.
 */
module NodeEffects {
  import opened Wrappers
  import opened DomainLists
  import opened Entities
  import opened XrayConfig
  import opened ConfigApply
  import opened Requests
  import opened Agreement

  // ---------- the nodes of users and profiles ----------

  /** Whom a bulk request is about. */
  predicate Chosen(u: User, bulk: Bulk) {
    && u.status != UserStatus.Deleted
    && (bulk.AllActive? ==> u.status == UserStatus.Active)
    && (bulk.ByDepartment? ==> u.departmentId == bulk.department)
    && (bulk.ByProfile? ==> u.profileId == bulk.profile)
    && (bulk.Selected? ==> u.id in bulk.ids)
    && !bulk.UnknownScope?
  }

  /** Nothing but links and primary node differs. */
  predicate SameButNodes(u: User, u': User) {
    u' == u.(nodeLinks := u'.nodeLinks, primaryNodeId := u'.primaryNodeId)
  }

  ghost predicate SortedLinks(u: User) {
    forall j, k :: 0 <= j < k < |u.nodeLinks| ==> u.nodeLinks[j] < u.nodeLinks[k]
  }

  /** The least node of a set, or none. */
  ghost predicate IsLeast(primary: Option<NodeId>, ids: set<NodeId>) {
    if primary.None? then forall n :: n !in ids
    else primary.value in ids && forall n :: n in ids ==> primary.value <= n
  }

  lemma MinIsLeast(ids: set<NodeId>)
    ensures IsLeast(if ids == {} then None else Some(Min(ids)), ids)
  {
  }

  /** Adding a node gives it to exactly the chosen users, besides what they could use before. */
  lemma AdditionWrites(db: Db, req: Request, i: nat)
    requires req.AddNodeToUsers? && PlanOf(db, req).Push? && i < |db.users|
    ensures var plan := PlanOf(db, req);
            && plan == Push(db.(users := plan.db.users), {req.n}, false, false, None) && |plan.db.users| == |db.users|
            && var u, u' := db.users[i], plan.db.users[i];
            if !Chosen(u, req.bulk) || req.n in EffectiveNodeIds(u, db.profiles) then u' == u
            else
              && SameButNodes(u, u') && SortedLinks(u')
              && (forall m :: m in u'.nodeLinks <==> m in EffectiveNodeIds(u, db.profiles) || m == req.n)
              && (u.primaryNodeId.None? ==> u'.primaryNodeId == Some(req.n))
              && (u.primaryNodeId.Some? && u.primaryNodeId.value in u'.nodeLinks ==>
                    u'.primaryNodeId == u.primaryNodeId)
              && (u.primaryNodeId.Some? && u.primaryNodeId.value !in u'.nodeLinks ==>
                    IsLeast(u'.primaryNodeId, SeqSet(u'.nodeLinks)))
  {
    var u := db.users[i];
    LinksAreSet(u);
    assert Targeted(u, req.bulk) <==> Chosen(u, req.bulk);
    MinIsLeast(ExplicitOrProfile(u, db.profiles) + {req.n});
  }

  /** Taking a node away takes it from exactly the chosen users that could use it. */
  lemma RemovalWrites(db: Db, req: Request, i: nat)
    requires req.RemoveNodeFromUsers? && PlanOf(db, req).Push? && i < |db.users|
    ensures var plan := PlanOf(db, req);
            && plan == Push(db.(users := plan.db.users), {req.n}, false, false, None) && |plan.db.users| == |db.users|
            && var u, u' := db.users[i], plan.db.users[i];
            if !Chosen(u, req.bulk) || req.n !in EffectiveNodeIds(u, db.profiles) then u' == u
            else
              && SameButNodes(u, u') && SortedLinks(u')
              && (forall m :: m in u'.nodeLinks <==> m in EffectiveNodeIds(u, db.profiles) && m != req.n)
              && (u.primaryNodeId == Some(req.n) ==> IsLeast(u'.primaryNodeId, SeqSet(u'.nodeLinks)))
              && (u.primaryNodeId.Some? && u.primaryNodeId.value in u'.nodeLinks ==>
                    u'.primaryNodeId == u.primaryNodeId)
  {
    var u := db.users[i];
    LinksAreSet(u);
    assert Targeted(u, req.bulk) <==> Chosen(u, req.bulk);
    MinIsLeast(ExplicitOrProfile(u, db.profiles) - {req.n});
  }

  /** A profile's list is as it was but for `n`, which is left out, and `m`, which is in it afterwards. */
  ghost predicate ListChanged(p: Profile, p': Profile, n: Option<NodeId>, m: Option<NodeId>) {
    && p' == p.(allowedNodes := p'.allowedNodes)
    && forall k :: k in p'.allowedNodes <==> m == Some(k) || (k in p.allowedNodes && n != Some(k))
  }

  lemma ListIsChanged(p: Profile, n: NodeId, m: Option<NodeId>)
    requires m != Some(n)
    ensures if n in p.allowedNodes then ListChanged(p, DropFromProfile(p, n, m), Some(n), m)
            else DropFromProfile(p, n, m) == p
  {
  }

  /** A profile is offered one node more, or one less; every other profile stays. */
  lemma ProfileListWrites(db: Db, req: Request)
    requires (req.AddNodeToProfile? || req.RemoveNodeFromProfile?) && PlanOf(db, req).Push?
    ensures var plan := PlanOf(db, req);
            && req.p in db.profiles && req.p in plan.db.profiles
            && plan == Push(db.(profiles := db.profiles[req.p := plan.db.profiles[req.p]]), {req.n}, false, false, None)
            && (req.AddNodeToProfile? ==>
                  ListChanged(db.profiles[req.p], plan.db.profiles[req.p], None, Some(req.n)))
            && (req.RemoveNodeFromProfile? ==>
                  ListChanged(db.profiles[req.p], plan.db.profiles[req.p], Some(req.n), None))
  {
    if req.RemoveNodeFromProfile? {
      ListIsChanged(db.profiles[req.p], req.n, None);
    }
  }

  /** The new node takes the place of the old one in every link, list and primary, and nothing else changes. */
  lemma ReplacementWrites(db: Db, req: Request, i: nat)
    requires req.ReplaceNode? && PlanOf(db, req).Push? && i < |db.users|
    ensures var plan, m := PlanOf(db, req), req.replacement;
            && plan == Push(plan.db, {req.n, m}, true, false, None) && |plan.db.users| == |db.users|
            && plan.db.nodes == db.nodes
            && var u, u' := db.users[i], plan.db.users[i];
               SameButNodes(u, u')
               && (req.n in u.nodeLinks ==>
                     && SortedLinks(u') && u'.primaryNodeId == Some(m)
                     && forall k :: k in u'.nodeLinks <==> k == m || (k in u.nodeLinks && k != req.n))
               && (req.n !in u.nodeLinks ==>
                     && u'.nodeLinks == u.nodeLinks
                     && u'.primaryNodeId == if u.primaryNodeId == Some(req.n) then Some(m) else u.primaryNodeId)
  {
    var u := db.users[i];
    if req.n in u.nodeLinks {
      var next := SeqSet(u.nodeLinks) - {req.n} + {req.replacement};
      assert req.n in SeqSet(u.nodeLinks) && req.n !in next;
    }
  }

  /** In a replacement or deletion every profile that names the node changes its list, and no other. */
  lemma DetachedProfiles(db: Db, req: Request, p: ProfileId)
    requires (req.ReplaceNode? || req.DeleteNode?) && PlanOf(db, req).Push? && p in db.profiles
    ensures var profiles, m := PlanOf(db, req).db.profiles, if req.ReplaceNode? then Some(req.replacement) else None;
            && profiles.Keys == db.profiles.Keys
            && if req.n in db.profiles[p].allowedNodes then ListChanged(db.profiles[p], profiles[p], Some(req.n), m)
               else profiles[p] == db.profiles[p]
  {
    var m := if req.ReplaceNode? then Some(req.replacement) else None;
    assert PlanOf(db, req).db.profiles == DropFromProfiles(db.profiles, req.n, m);
    ListIsChanged(db.profiles[p], req.n, m);
  }

  /**
   A deletion takes the node out of every link, and gives a user whose primary node it was the least node
   that is left; it is pushed as disabled and marked deleted afterwards.
   */
  lemma DeletionWrites(db: Db, req: Request, i: nat)
    requires req.DeleteNode? && PlanOf(db, req).Push? && i < |db.users|
    ensures var plan := PlanOf(db, req);
            && plan == Push(plan.db, {req.n}, true, false, Some(req.n)) && |plan.db.users| == |db.users|
            && req.n in db.nodes
            && plan.db.nodes == db.nodes[req.n := db.nodes[req.n].(status := NodeStatus.Disabled)]
            && var u, u' := db.users[i], plan.db.users[i];
               SameButNodes(u, u')
               && (req.n !in u.nodeLinks ==> u'.nodeLinks == u.nodeLinks)
               && (req.n in u.nodeLinks ==>
                     SortedLinks(u') && forall k :: k in u'.nodeLinks <==> k in u.nodeLinks && k != req.n)
               && (u.primaryNodeId == Some(req.n) ==>
                     IsLeast(u'.primaryNodeId, EffectiveNodeIds(u', plan.db.profiles)))
  {
    DeletionDetaches(db, req);
    DetachedProfilesDrop(db, req.n);
    DetachedUserLeast(db.users[i], DropFromProfiles(db.profiles, req.n, None), req.n);
  }

  lemma DetachedProfilesDrop(db: Db, n: NodeId)
    ensures var profiles := DropFromProfiles(db.profiles, n, None);
            forall p :: p in profiles ==> n !in profiles[p].allowedNodes
  {
  }

  lemma DetachedUserLeast(u: User, profiles: map<ProfileId, Profile>, n: NodeId)
    requires forall p :: p in profiles ==> n !in profiles[p].allowedNodes
    ensures var u' := ClearOrReplacePrimary(DetachNode(u, n, None), profiles, n, None);
            && SameButNodes(u, u')
            && (n !in u.nodeLinks ==> u'.nodeLinks == u.nodeLinks)
            && (n in u.nodeLinks ==>
                  SortedLinks(u') && forall k :: k in u'.nodeLinks <==> k in u.nodeLinks && k != n)
            && (u.primaryNodeId == Some(n) ==> IsLeast(u'.primaryNodeId, EffectiveNodeIds(u', profiles)))
  {
    var d := DetachNode(u, n, None);
    LinksAreSet(u);
    LinksAreSet(d);
    if n in u.nodeLinks {
      var next := SeqSet(u.nodeLinks) - {n};
      assert n in SeqSet(u.nodeLinks) && n !in next && next + {} == next;
      assert SeqSet(d.nodeLinks) == next;
      MinIsLeast(next);
    }
    var u' := ClearOrReplacePrimary(d, profiles, n, None);
    assert ExplicitOrProfile(d, profiles) - {n} == EffectiveNodeIds(u', profiles) by {
      assert n !in ExplicitOrProfile(d, profiles);
    }
    MinIsLeast(ExplicitOrProfile(d, profiles) - {n});
  }

  // ---------- node rows ----------

  /** Given keys stay; a missing one of the pair brings a new pair, a missing short id a new one. */
  predicate KeysFilled(c: Credentials, generated: Credentials, c': Credentials) {
    && (c.privateKey != "" && c.publicKey != "" ==> c'.privateKey == c.privateKey && c'.publicKey == c.publicKey)
    && (c.privateKey == "" || c.publicKey == "" ==>
          c'.privateKey == generated.privateKey && c'.publicKey == generated.publicKey)
    && c'.shortId == if c.shortId != "" then c.shortId else generated.shortId
  }

  lemma KeysAreFilled(c: Credentials, generated: Generated)
    ensures KeysFilled(c, generated, EnsureCredentials(c, generated))
  {
  }

  /** A request about one node writes that row only: its status, its keys, or the fields given. */
  lemma NodeRowWrites(db: Db, req: Request)
    requires WritesOnlyNode(req) && PlanOf(db, req).Push?
    ensures var plan := PlanOf(db, req);
            && req.n in db.nodes && req.n in plan.db.nodes
            && plan == Push(db.(nodes := db.nodes[req.n := plan.db.nodes[req.n]]), {req.n},
                            req.DisableNode? || req.MaintenanceNode? || req.ApplyNodeConfig?, false, None)
            && var row, row' := db.nodes[req.n], plan.db.nodes[req.n];
               match req {
                 case DisableNode(_) => row' == row.(status := NodeStatus.Disabled)
                 case MaintenanceNode(_) => row' == row.(status := NodeStatus.Maintenance)
                 case EnableNode(_) => row' == row.(status := NodeStatus.Online)
                 case ApplyNodeConfig(_, generated) =>
                   row' == row.(credentials := row'.credentials)
                   && KeysFilled(row.credentials, generated, row'.credentials)
                 case UpdateNode(_, name, location, port, sni, generated) =>
                   && row'.name == name && row'.location == location && row'.port == port && row'.sni == sni
                   && row == row'.(name := row.name, location := row.location, port := row.port, sni := row.sni,
                                   credentials := row.credentials)
                   && KeysFilled(row.credentials, generated, row'.credentials)
               }
  {
  }

  /** Which requests about nodes are refused, and how. */
  lemma NodeRefusedExactlyWhen(db: Db, req: Request)
    requires WritesOnlyNode(req) || req.AddNodeToUsers? || req.RemoveNodeFromUsers? || req.ReplaceNode?
             || req.DeleteNode?
    ensures var plan := PlanOf(db, req);
            var gone := req.n !in db.nodes || db.nodes[req.n].status == NodeStatus.Deleted;
            match req {
              case ApplyNodeConfig(_, _) => if req.n in db.nodes then plan.Push? else plan == Refused(404)
              case UpdateNode(_, _, _, _, _, _) => if req.n in db.nodes then plan.Push? else plan == Refused(404)
              case AddNodeToUsers(_, bulk) =>
                if gone then plan == Refused(404) else if Unclear(bulk) then plan == Refused(422) else plan.Push?
              case RemoveNodeFromUsers(_, bulk) =>
                if req.n !in db.nodes then plan == Refused(404)
                else if Unclear(bulk) then plan == Refused(422) else plan.Push?
              case ReplaceNode(_, m) =>
                if req.n !in db.nodes || m !in db.nodes then plan == Refused(404)
                else if m == req.n || db.nodes[m].status == NodeStatus.Deleted then plan == Refused(422) else plan.Push?
              case DeleteNode(_, force) =>
                if req.n !in db.nodes then plan == Refused(404)
                else if db.nodes[req.n].status == NodeStatus.Deleted then plan == Commit(db)
                else if !force && IsUsed(db, req.n) then plan == Refused(409) else plan.Push?
              case _ => if gone then plan == Refused(404) else plan.Push?
            }
  {
    if req.DeleteNode? {
      UsedIsInUse(db, req.n);
    }
  }

  /** A bulk request that does not say whom it is about. */
  predicate Unclear(bulk: Bulk) {
    bulk.UnknownScope? || bulk == ByDepartment(None) || bulk == ByProfile(None) || bulk == Selected([])
  }

  /** A user that is not deleted links to the node or has it as primary, or a profile lists it. */
  ghost predicate IsUsed(db: Db, n: NodeId) {
    || (exists i :: && 0 <= i < |db.users| && db.users[i].status != UserStatus.Deleted
                    && (n in db.users[i].nodeLinks || db.users[i].primaryNodeId == Some(n)))
    || (exists p :: p in db.profiles && n in db.profiles[p].allowedNodes)
  }

  lemma UsedIsInUse(db: Db, n: NodeId)
    ensures NodeInUse(db, n) <==> IsUsed(db, n)
  {
    if NodeInUse(db, n) && forall p :: p in db.profiles ==> n !in db.profiles[p].allowedNodes {
      var u :| && u in db.users && u.status != UserStatus.Deleted
               && (n in u.nodeLinks || u.primaryNodeId == Some(n));
      var i :| 0 <= i < |db.users| && db.users[i] == u;
    }
  }

  /** An update of a profile stores what was sent, with its blocked domains cleaned, or is refused for them. */
  lemma ProfileUpdateWrites(db: Db, req: Request)
    requires req.UpdateProfile?
    ensures var plan, sent := PlanOf(db, req), req.profile;
            if Normalized(sent.blockedDomains).Failure? then plan == Refused(422)
            else if req.p !in db.profiles then plan == Refused(404)
            else
              && plan.Push? && plan == Push(plan.db, plan.targets, false, false, None) && req.p in plan.db.profiles
              && plan.db == db.(profiles := db.profiles[req.p := plan.db.profiles[req.p]])
              && var stored, before := plan.db.profiles[req.p], db.profiles[req.p];
                 stored.routingMode == sent.routingMode && stored.directDomains == sent.directDomains
                 && stored.allowedNodes == sent.allowedNodes && Distinct(stored.blockedDomains)
                 && (forall d :: d in stored.blockedDomains <==>
                       d != "" && exists raw :: raw in sent.blockedDomains && Clean(raw) == d)
                 && forall n :: n in plan.targets <==>
                      || n in before.allowedNodes || n in sent.allowedNodes
                      || (before.allowedNodes == [] == sent.allowedNodes && n in db.nodes
                          && db.nodes[n].status != NodeStatus.Deleted)
  {
    NormalizedMeaning(req.profile.blockedDomains);
    if req.p in db.profiles {
      var touched := SeqSet(db.profiles[req.p].allowedNodes) + SeqSet(req.profile.allowedNodes);
      assert touched == {} <==> db.profiles[req.p].allowedNodes == [] == req.profile.allowedNodes by {
        if db.profiles[req.p].allowedNodes != [] {
          assert db.profiles[req.p].allowedNodes[0] in touched;
        }
        if req.profile.allowedNodes != [] {
          assert req.profile.allowedNodes[0] in touched;
        }
      }
    }
  }
}
