/**
 Who refers to which node: replacing or deleting one leaves no dangling reference,
 and a user's primary node stays one of the user's own nodes, with the exact
 requests that break this.
 */
module NodeReferences {
  import opened Wrappers
  import opened Entities
  import opened XrayConfig
  import opened ConfigApply
  import opened Requests
  import opened Agreement
  import opened Runs

  // ---------- no dangling references ----------

  ghost predicate Unreferenced(db: Db, n: NodeId) {
    && (forall u :: u in db.users ==> n !in u.nodeLinks && u.primaryNodeId != Some(n))
    && (forall p :: p in db.profiles ==> n !in db.profiles[p].allowedNodes)
  }

  lemma DetachedUser(u: User, ps: map<ProfileId, Profile>, n: NodeId, replacement: Option<NodeId>)
    requires replacement != Some(n)
    ensures var u' := ClearOrReplacePrimary(DetachNode(u, n, replacement), ps, n, replacement);
            n !in u'.nodeLinks && u'.primaryNodeId != Some(n)
  {
    var d := DetachNode(u, n, replacement);
    if n in u.nodeLinks {
      var next := SeqSet(u.nodeLinks) - {n} + (if replacement.Some? then {replacement.value} else {});
      assert n in SeqSet(u.nodeLinks) && n !in next;
      assert SeqSet(d.nodeLinks) == next;
    }
    assert n !in d.nodeLinks;
  }

  /** After a replacement or a deletion nothing refers to the old node any more. */
  lemma OldNodeIsUnreferenced(sys: System, req: Request, attempts: NodeId -> Attempt)
    requires (req.ReplaceNode? || req.DeleteNode?) && PlanOf(sys.db, req).Push?
    ensures Unreferenced(Step(sys, req, attempts).db, req.n)
  {
    var replacement := if req.ReplaceNode? then Some(req.replacement) else None;
    var db := Step(sys, req, attempts).db;
    var ps := DropFromProfiles(sys.db.profiles, req.n, replacement);
    assert db.profiles == ps && |db.users| == |sys.db.users|;
    forall i | 0 <= i < |db.users|
      ensures req.n !in db.users[i].nodeLinks && db.users[i].primaryNodeId != Some(req.n)
    {
      DetachedUser(sys.db.users[i], ps, req.n, replacement);
    }
  }

  /** A deleted node is out of every user's reach, whatever the servers answered. */
  lemma DeletedNodeIsUnreachable(sys: System, req: Request, attempts: NodeId -> Attempt)
    requires req.DeleteNode? && PlanOf(sys.db, req).Push?
    ensures var db := Step(sys, req, attempts).db;
            && db.nodes[req.n].status == NodeStatus.Deleted
            && forall u :: u in db.users ==> req.n !in EffectiveNodeIds(u, db.profiles)
  {
    OldNodeIsUnreferenced(sys, req, attempts);
  }

  // ---------- the primary node ----------

  /** The primary node is absent or one of the nodes the user may use. */
  predicate PrimaryKnown(u: User, profiles: map<ProfileId, Profile>) {
    u.primaryNodeId.Some? ==> u.primaryNodeId.value in EffectiveNodeIds(u, profiles)
  }

  ghost predicate PrimariesKnown(db: Db) {
    forall u :: u in db.users ==> PrimaryKnown(u, db.profiles)
  }

  /** The requests that take a profile's node away without looking at primary nodes. */
  predicate Strands(db: Db, req: Request) {
    exists u :: u in db.users && StrandsUser(u, req)
  }

  lemma AccessKnowsPrimary(u: User, ids: set<NodeId>, primary: Option<NodeId>, profiles: map<ProfileId, Profile>)
    requires ids != {} || primary.None? || primary.value in ProfileNodeIds(ProfileOf(u, profiles))
    ensures PrimaryKnown(SetNodeAccess(u, ids, primary), profiles)
  {
    LinksAreSet(SetNodeAccess(u, ids, primary));
  }

  lemma AddKnowsPrimary(u: User, ps: map<ProfileId, Profile>, n: NodeId)
    requires PrimaryKnown(u, ps)
    ensures PrimaryKnown(AddNode(u, ps, n), ps)
  {
    var current := ExplicitOrProfile(u, ps);
    if n !in current {
      AccessKnowsPrimary(u, current + {n}, if u.primaryNodeId.Some? then u.primaryNodeId else Some(n), ps);
    }
  }

  lemma RemoveKnowsPrimary(u: User, ps: map<ProfileId, Profile>, n: NodeId)
    requires PrimaryKnown(u, ps)
    ensures PrimaryKnown(RemoveNode(u, ps, n), ps)
  {
    var current := ExplicitOrProfile(u, ps);
    LinksAreSet(u);
    if n in current {
      var left := current - {n};
      var primary := if u.primaryNodeId != Some(n) then u.primaryNodeId else if left != {} then Some(Min(left))
          else None;
      assert u.primaryNodeId.Some? ==> u.primaryNodeId.value == n || u.primaryNodeId.value in left;
      AccessKnowsPrimary(u, left, primary, ps);
    }
  }

  lemma DetachKnowsPrimary(u: User, ps: map<ProfileId, Profile>, n: NodeId, replacement: Option<NodeId>)
    requires PrimaryKnown(u, ps) && replacement != Some(n)
    ensures var ps' := DropFromProfiles(ps, n, replacement);
            PrimaryKnown(ClearOrReplacePrimary(DetachNode(u, n, replacement), ps', n, replacement), ps')
  {
    var ps' := DropFromProfiles(ps, n, replacement);
    var d := DetachNode(u, n, replacement);
    LinksAreSet(u);
    LinksAreSet(d);
    var next := SeqSet(u.nodeLinks) - {n} + (if replacement.Some? then {replacement.value} else {});
    if n in u.nodeLinks {
      assert n in SeqSet(u.nodeLinks) && SeqSet(d.nodeLinks) == next;
    }
    if ProfileOf(u, ps).Some? {
      var p := ProfileOf(u, ps).value;
      assert forall m :: m in p.allowedNodes && m != n ==> m in DropFromProfile(p, n, replacement).allowedNodes;
    }
  }

  lemma PayloadKnowsPrimary(db: Db, u: User, p: UserPayload)
    requires !PayloadRefused(db, p)
    ensures PrimaryKnown(WithPayload(db, u, p), db.profiles)
  {
    var base := u.(username := p.username, status := p.status, deviceLimit := p.deviceLimit,
                   departmentId := p.departmentId, profileId := p.profileId);
    AccessKnowsPrimary(base, PayloadNodeIds(db, p), p.primaryNodeId, db.profiles);
  }

  predicate StrandsUser(u: User, req: Request) {
    || (req.RemoveNodeFromProfile? && u.nodeLinks == [] && u.profileId == Some(req.p) && u.primaryNodeId == Some(req.n))
    || (req.UpdateProfile? && u.nodeLinks == [] && u.profileId == Some(req.p)
        && u.primaryNodeId.Some? && u.primaryNodeId.value !in req.profile.allowedNodes)
  }

  predicate EditsLinks(req: Request) {
    req.AddNodeToUsers? || req.RemoveNodeFromUsers? || req.ReplaceNode? || req.DeleteNode? || req.UpdateUser?
        || req.CreateUser?
  }

  predicate EditsProfile(req: Request) {
    req.AddNodeToProfile? || req.RemoveNodeFromProfile? || req.UpdateProfile?
  }

  lemma RowUntouched(db: Db, req: Request, i: nat)
    requires PlanOf(db, req).Push? && !EditsLinks(req) && i < |db.users|
    ensures var plan := PlanOf(db, req);
            && |plan.db.users| == |db.users|
            && plan.db.users[i].nodeLinks == db.users[i].nodeLinks
            && plan.db.users[i].primaryNodeId == db.users[i].primaryNodeId
            && plan.db.users[i].profileId == db.users[i].profileId
            && (!EditsProfile(req) ==> plan.db.profiles == db.profiles)
  {
  }

  lemma ProfileRowKeepsPrimary(db: Db, req: Request, u: User)
    requires PlanOf(db, req).Push? && EditsProfile(req) && PrimaryKnown(u, db.profiles)
    ensures PrimaryKnown(u, PlanOf(db, req).db.profiles) <==> !StrandsUser(u, req)
  {
  }

  /** Row by row: what the plan of a request does to `PrimaryKnown`. */
  lemma RowKeepsPrimary(db: Db, req: Request, i: nat)
    requires PlanOf(db, req).Push? && !req.CreateUser? && i < |db.users|
    requires |PlanOf(db, req).db.users| == |db.users|
    requires PrimaryKnown(db.users[i], db.profiles)
    ensures PrimaryKnown(PlanOf(db, req).db.users[i], PlanOf(db, req).db.profiles) <==> !StrandsUser(db.users[i], req)
  {
    if EditsLinks(req) {
      LinkRowKeepsPrimary(db, req, i);
    } else {
      RowUntouched(db, req, i);
      if EditsProfile(req) {
        ProfileRowKeepsPrimary(db, req, db.users[i]);
      }
    }
  }

  lemma LinkRowKeepsPrimary(db: Db, req: Request, i: nat)
    requires PlanOf(db, req).Push? && EditsLinks(req) && !req.CreateUser? && i < |db.users|
    requires |PlanOf(db, req).db.users| == |db.users|
    requires PrimaryKnown(db.users[i], db.profiles)
    ensures PrimaryKnown(PlanOf(db, req).db.users[i], PlanOf(db, req).db.profiles)
  {
    if req.ReplaceNode? || req.DeleteNode? {
      DetachedRowKeepsPrimary(db, req, i);
    } else if req.UpdateUser? {
      PayloadKnowsPrimary(db, db.users[i], req.payload);
    } else {
      BulkRowKeepsPrimary(db, req, i);
    }
  }

  lemma DetachedRowKeepsPrimary(db: Db, req: Request, i: nat)
    requires PlanOf(db, req).Push? && (req.ReplaceNode? || req.DeleteNode?) && i < |db.users|
    requires |PlanOf(db, req).db.users| == |db.users|
    requires PrimaryKnown(db.users[i], db.profiles)
    ensures PrimaryKnown(PlanOf(db, req).db.users[i], PlanOf(db, req).db.profiles)
  {
    DetachKnowsPrimary(db.users[i], db.profiles, req.n, if req.ReplaceNode? then Some(req.replacement) else None);
  }

  lemma BulkRowKeepsPrimary(db: Db, req: Request, i: nat)
    requires PlanOf(db, req).Push? && (req.AddNodeToUsers? || req.RemoveNodeFromUsers?) && i < |db.users|
    requires |PlanOf(db, req).db.users| == |db.users|
    requires PrimaryKnown(db.users[i], db.profiles)
    ensures PrimaryKnown(PlanOf(db, req).db.users[i], PlanOf(db, req).db.profiles)
  {
    if req.AddNodeToUsers? {
      AddKnowsPrimary(db.users[i], db.profiles, req.n);
    } else {
      RemoveKnowsPrimary(db.users[i], db.profiles, req.n);
    }
  }

  /** Every request keeps primary nodes known, except exactly when it strands one. */
  lemma PrimariesKnownExactly(db: Db, req: Request)
    requires PrimariesKnown(db) && PlanOf(db, req).Push?
    ensures PrimariesKnown(PlanOf(db, req).db) <==> !Strands(db, req)
  {
    var db' := PlanOf(db, req).db;
    if req.CreateUser? {
      NewUserKnowsPrimary(db, req);
    } else {
      assert |db'.users| == |db.users|;
      forall i | 0 <= i < |db.users|
        ensures PrimaryKnown(db'.users[i], db'.profiles) <==> !StrandsUser(db.users[i], req)
      {
        assert db.users[i] in db.users;
        RowKeepsPrimary(db, req, i);
      }
      EveryOrSome(db.users, i requires 0 <= i < |db.users| => PrimaryKnown(db'.users[i], db'.profiles),
                  u => StrandsUser(u, req));
      assert PrimariesKnown(db') <==> forall i :: 0 <= i < |db.users| ==> PrimaryKnown(db'.users[i], db'.profiles);
    }
  }

  lemma NewUserKnowsPrimary(db: Db, req: Request)
    requires PrimariesKnown(db) && PlanOf(db, req).Push? && req.CreateUser?
    ensures PrimariesKnown(PlanOf(db, req).db) && !Strands(db, req)
  {
    var db' := PlanOf(db, req).db;
    PayloadKnowsPrimary(db, NewUser(req.u), req.payload);
    forall u | u in db'.users
      ensures PrimaryKnown(u, db'.profiles)
    {
      assert u in db.users || u == WithPayload(db, NewUser(req.u), req.payload);
    }
  }

  lemma CommitKeepsPrimaries(db: Db, req: Request)
    requires PrimariesKnown(db) && PlanOf(db, req).Commit?
    ensures PrimariesKnown(PlanOf(db, req).db)
  {
    var db' := PlanOf(db, req).db;
    if db' != db {
      var i := FindUser(db.users, req.u).value;
      assert db.users[i] in db.users && db' == SetUser(db, i, db'.users[i]);
      forall u | u in db'.users
        ensures PrimaryKnown(u, db'.profiles)
      {
        assert u in db.users || u == db'.users[i];
      }
    }
  }

  /** Over every run without such a request, whatever the servers answer. */
  lemma {:induction false} PrimariesOverRuns(sys: System, events: seq<Event>)
    requires PrimariesKnown(sys.db)
    requires forall i :: 0 <= i < |events| ==> !Strands(Run(sys, events[..i]).db, events[i].req)
    ensures PrimariesKnown(Run(sys, events).db)
  {
    if events != [] {
      var init, last := events[..|events| - 1], events[|events| - 1];
      forall i | 0 <= i < |init|
        ensures !Strands(Run(sys, init[..i]).db, init[i].req)
      {
        assert init[..i] == events[..i] && init[i] == events[i];
      }
      PrimariesOverRuns(sys, init);
      var db := Run(sys, init).db;
      if PlanOf(db, last.req).Push? {
        PrimariesKnownExactly(db, last.req);
        assert init == events[..|events| - 1];
      } else if PlanOf(db, last.req).Commit? {
        CommitKeepsPrimaries(db, last.req);
      }
    }
  }

  /**
   `replace` makes the new node primary for everyone who had an explicit link to the
   old one, not only for those whose primary it was.
   */
  lemma ReplacementBecomesPrimaryExactly(u: User, ps: map<ProfileId, Profile>, n: NodeId, m: NodeId)
    requires n != m
    ensures var u' := ClearOrReplacePrimary(DetachNode(u, n, Some(m)), ps, n, Some(m));
            u'.primaryNodeId == Some(m) <==>
                n in u.nodeLinks || u.primaryNodeId == Some(n) || u.primaryNodeId == Some(m)
  {
    if n in u.nodeLinks {
      var next := SeqSet(u.nodeLinks) - {n} + {m};
      assert n in SeqSet(u.nodeLinks) && n !in next;
    }
  }

  /** Taking a node away from a user works unless it is the user's only node and the profile offers it. */
  lemma RemovalTakesEffectExactly(u: User, ps: map<ProfileId, Profile>, n: NodeId)
    ensures n !in EffectiveNodeIds(RemoveNode(u, ps, n), ps) <==>
            !(ExplicitOrProfile(u, ps) == {n} && n in ProfileNodeIds(ProfileOf(u, ps)))
  {
    var u' := RemoveNode(u, ps, n);
    LinksAreSet(u);
    LinksAreSet(u');
    if u' != u {
      assert SeqSet(u'.nodeLinks) == ExplicitOrProfile(u, ps) - {n};
    }
  }
}
