/**
 The control plane as the source runs it: tables that requests write step by step,
 a session that commits or rolls back, and servers that are pushed to one by one.
 Every request is proved to do exactly what `Requests.Step` says.
 */
module ControlPlane {
  import opened Wrappers
  import opened DomainLists
  import opened Entities
  import opened XrayConfig
  import opened ConfigApply
  import opened Requests

  datatype Response = Error(status: nat) | Done(results: seq<NodeApplyResult>)

  class Panel {
    var users: seq<User>
    var profiles: map<ProfileId, Profile>
    var nodes: map<NodeId, Node>
    /** What the database would be restored to. */
    var committed: Db
    /** What the servers run; no rollback reaches them. */
    var deployed: map<NodeId, Config>

    constructor (db: Db, running: map<NodeId, Config>)
      ensures Clean() && State() == System(db, running)
    {
      users, profiles, nodes := db.users, db.profiles, db.nodes;
      committed, deployed := db, running;
    }

    function Tables(): Db
      reads this
    {
      Db(users, profiles, nodes)
    }

    function State(): System
      reads this
    {
      System(Tables(), deployed)
    }

    /** Nothing is pending: between requests the tables are what was last committed. */
    predicate Clean()
      reads this
    {
      committed == Tables()
    }

    method CommitSession()
      modifies this`committed
      ensures Clean()
    {
      committed := Tables();
    }

    method RollbackSession()
      modifies this`users, this`profiles, this`nodes
      ensures Tables() == old(committed) && Clean()
    {
      users, profiles, nodes := committed.users, committed.profiles, committed.nodes;
    }

    // ---------- config_apply.py ----------

    method Leave(n: NodeId, live: Option<Config>)
      modifies this`deployed
      ensures Live(State(), n) == live
      ensures forall m :: m != n ==> Live(State(), m) == Live(old(State()), m)
    {
      deployed := if live.Some? then deployed[n := live.value] else deployed - {n};
    }

    /** What an attempt does once the configuration has been rendered. */
    method Attempted(n: NodeId, prepared: Node, config: Config, outcome: Outcome)
        returns (node: Node, status: ResultStatus)
      modifies this`deployed
      ensures outcome.Applied? ==>
                && node == prepared.(status := if KeepsStatus(prepared.status) then prepared.status
                                     else NodeStatus.Online,
                                     logShowsXray := true, lastApply := ApplySuccess)
                && status == ResultSuccess && Live(State(), n) == Some(config)
      ensures outcome.Rejected? ==>
                && node == prepared.(logShowsXray := outcome.logShowsXray, lastApply := ApplyFailed)
                && status == ResultFailed && Live(State(), n) == outcome.leaves
      ensures outcome.TimedOut? ==>
                node == prepared.(lastApply := ApplyFailed) && status == ResultFailed
                    && Live(State(), n) == outcome.leaves
      ensures forall m :: m != n ==> Live(State(), m) == Live(old(State()), m)
    {
      node, status := prepared, ResultFailed;
      match outcome
      case Applied =>
        Leave(n, Some(config));
        node := node.(logShowsXray := true);
        if node.status !in {NodeStatus.Online, NodeStatus.Disabled, NodeStatus.Maintenance, NodeStatus.Deleted} {
          node := node.(status := NodeStatus.Online);
        }
        node := node.(lastApply := ApplySuccess);
        status := ResultSuccess;
      case Rejected(leaves, shows) =>
        Leave(n, leaves);
        node := node.(logShowsXray := shows);
        node := node.(lastApply := ApplyFailed);
      case TimedOut(leaves) =>
        Leave(n, leaves);
        node := node.(lastApply := ApplyFailed);
      case NotStarted =>
    }

    /** One node under its timeout (`_apply_node`, `_mark_failed`). */
    method ApplyOne(n: NodeId, allowNonOnline: bool, attempts: NodeId -> Attempt) returns (result: NodeApplyResult)
      requires n in nodes
      modifies this`nodes, this`deployed
      ensures OneAttempt(old(State()), n, allowNonOnline, attempts, State())
      ensures result == NodeApplyResult(n, StepAt(old(State()), n, allowNonOnline, attempts).status)
    {
      var node := nodes[n];
      var status := ResultFailed;
      if attempts(n).outcome.NotStarted? {
        node := node.(lastApply := ApplyFailed);
      } else if (node.status != NodeStatus.Online && !allowNonOnline) || !HasInstalledXray(node) {
        status := ResultSkipped;
      } else {
        node := node.(credentials := EnsureCredentials(node.credentials, attempts(n).generated));
        var rendered := RenderServerConfig(users, profiles, node);
        if rendered.Failure? {
          node := node.(lastApply := ApplyFailed);
        } else {
          node, status := Attempted(n, node, rendered.value, attempts(n).outcome);
        }
      }
      nodes := nodes[n := node];
      result := NodeApplyResult(n, status);
    }

    /** The loop over the target nodes, in whatever order the query returns them. */
    method ApplyToNodes(nodeIds: set<NodeId>, allowNonOnline: bool, attempts: NodeId -> Attempt)
      returns (results: seq<NodeApplyResult>)
      modifies this`nodes, this`deployed
      ensures State() == AfterApply(old(State()), nodeIds, allowNonOnline, attempts)
      ensures ResultsOf(old(State()), nodeIds, allowNonOnline, attempts, results)
    {
      ghost var start := State();
      results := [];
      var todo := set n | n in nodeIds && n in nodes;
      ghost var done: set<NodeId> := {};
      while todo != {}
        invariant todo + done == (set n | n in nodeIds && n in start.db.nodes) && todo !! done
        invariant Progress(start, done, allowNonOnline, attempts, State())
        invariant ResultsOf(start, done, allowNonOnline, attempts, results)
        decreases todo
      {
        var n :| n in todo;
        ghost var before := State();
        var result := ApplyOne(n, allowNonOnline, attempts);
        ProgressByOne(start, done, allowNonOnline, attempts, before, n, State());
        ResultsExtend(start, done, allowNonOnline, attempts, results, result);
        results := results + [result];
        todo := todo - {n};
        done := done + {n};
      }
      assert done == set n | n in nodeIds && n in start.db.nodes;
      ProgressDone(start, nodeIds, allowNonOnline, attempts, State());
      assert ResultsOf(start, nodeIds, allowNonOnline, attempts, results);
    }

    /** `apply_config_for_user` with `require_success`: whether the change may be committed. */
    method ApplyForUser(nodeIds: set<NodeId>, attempts: NodeId -> Attempt)
        returns (ok: bool, results: seq<NodeApplyResult>)
      modifies this`nodes, this`deployed
      ensures State() == AfterApply(old(State()), nodeIds, false, attempts)
      ensures ok <==> EveryTargetSucceeded(old(State()), nodeIds, false, attempts)
    {
      results := ApplyToNodes(nodeIds, false, attempts);
      var missing := |nodeIds| - Count(results, ResultSuccess);
      ok := !(missing > 0 || Count(results, ResultFailed) > 0 || Count(results, ResultSkipped) > 0);
      SuccessByCounting(old(State()), nodeIds, false, attempts, results);
    }

    /** A push that commits whatever the servers answer. */
    method PushAndCommit(nodeIds: set<NodeId>, allowNonOnline: bool, attempts: NodeId -> Attempt) returns (r: Response)
      modifies this
      ensures State() == AfterApply(old(State()), nodeIds, allowNonOnline, attempts) && Clean()
      ensures r.Done? && ResultsOf(old(State()), nodeIds, allowNonOnline, attempts, r.results)
    {
      var results := ApplyToNodes(nodeIds, allowNonOnline, attempts);
      CommitSession();
      r := Done(results);
    }

    // ---------- loops over users and profiles ----------

    method SetUserNodeAccess(i: nat, ids: set<NodeId>, primary: Option<NodeId>)
      requires i < |users|
      modifies this`users
      ensures users == old(users)[i := SetNodeAccess(old(users)[i], ids, primary)]
    {
      var links: seq<NodeId> := [];
      var sorted := Sorted(ids);
      for k := 0 to |sorted|
        invariant links == sorted[..k]
      {
        links := links + [sorted[k]];
      }
      assert sorted[..|sorted|] == sorted;
      var user := users[i].(nodeLinks := links);
      if ids != {} {
        user := user.(primaryNodeId := if primary.Some? && primary.value in ids then primary else Some(Min(ids)));
      } else {
        user := user.(primaryNodeId := primary);
      }
      users := users[i := user];
    }

    method DetachNodeFromUsers(n: NodeId, replacement: Option<NodeId>)
      modifies this`users
      ensures |users| == |old(users)|
      ensures forall k :: 0 <= k < |users| ==> users[k] == DetachNode(old(users)[k], n, replacement)
    {
      for i := 0 to |users|
        invariant |users| == |old(users)|
        invariant forall k :: 0 <= k < i ==> users[k] == DetachNode(old(users)[k], n, replacement)
        invariant forall k :: i <= k < |users| ==> users[k] == old(users)[k]
      {
        if n in users[i].nodeLinks {
          var current := SeqSet(users[i].nodeLinks);
          var next := current - {n};
          if replacement.Some? {
            next := next + {replacement.value};
          }
          assert next == SeqSet(users[i].nodeLinks) - {n} + (if replacement.Some? then {replacement.value} else {});
          if next != current {
            SetUserNodeAccess(i, next, if replacement.Some? then replacement else users[i].primaryNodeId);
          }
        }
      }
    }

    method RemoveNodeFromProfiles(n: NodeId, replacement: Option<NodeId>)
      modifies this`profiles
      ensures profiles == DropFromProfiles(old(profiles), n, replacement)
    {
      var todo := profiles.Keys;
      while todo != {}
        invariant todo <= profiles.Keys == old(profiles).Keys
        invariant forall p :: p in profiles ==>
                    profiles[p] == if p in todo then old(profiles)[p]
                        else DropFromProfile(old(profiles)[p], n, replacement)
        decreases todo
      {
        var p :| p in todo;
        todo := todo - {p};
        var current := Dedup(profiles[p].allowedNodes);
        if n !in current {
          continue;
        }
        var next := Without(current, n);
        if replacement.Some? && replacement.value !in next {
          next := next + [replacement.value];
        }
        profiles := profiles[p := profiles[p].(allowedNodes := next)];
      }
    }

    method ClearOrReplacePrimaryNodes(n: NodeId, replacement: Option<NodeId>)
      modifies this`users
      ensures |users| == |old(users)|
      ensures forall k :: 0 <= k < |users| ==>
              users[k] == ClearOrReplacePrimary(old(users)[k], profiles, n, replacement)
    {
      for i := 0 to |users|
        invariant |users| == |old(users)|
        invariant forall k :: 0 <= k < i ==> users[k] == ClearOrReplacePrimary(old(users)[k], profiles, n, replacement)
        invariant forall k :: i <= k < |users| ==> users[k] == old(users)[k]
      {
        if users[i].primaryNodeId == Some(n) {
          if replacement.Some? {
            users := users[i := users[i].(primaryNodeId := replacement)];
          } else {
            var fallback := ExplicitOrProfile(users[i], profiles) - {n};
            users := users[i := users[i].(primaryNodeId := if fallback != {} then Some(Min(fallback)) else None)];
          }
        }
      }
    }

    method AddToTargeted(n: NodeId, bulk: Bulk)
      modifies this`users
      ensures |users| == |old(users)| && forall k :: 0 <= k < |users| ==>
              users[k] == BulkAdd(old(users)[k], profiles, bulk, n)
    {
      for i := 0 to |users|
        invariant |users| == |old(users)|
        invariant forall k :: 0 <= k < i ==> users[k] == BulkAdd(old(users)[k], profiles, bulk, n)
        invariant forall k :: i <= k < |users| ==> users[k] == old(users)[k]
      {
        if Targeted(users[i], bulk) {
          var current := ExplicitOrProfile(users[i], profiles);
          if n in current {
            continue;
          }
          current := current + {n};
          SetUserNodeAccess(i, current, if users[i].primaryNodeId.Some? then users[i].primaryNodeId else Some(n));
        }
      }
    }

    method RemoveFromTargeted(n: NodeId, bulk: Bulk)
      modifies this`users
      ensures |users| == |old(users)| && forall k :: 0 <= k < |users| ==>
              users[k] == BulkRemove(old(users)[k], profiles, bulk, n)
    {
      for i := 0 to |users|
        invariant |users| == |old(users)|
        invariant forall k :: 0 <= k < i ==> users[k] == BulkRemove(old(users)[k], profiles, bulk, n)
        invariant forall k :: i <= k < |users| ==> users[k] == old(users)[k]
      {
        if Targeted(users[i], bulk) {
          var current := ExplicitOrProfile(users[i], profiles);
          if n !in current {
            continue;
          }
          current := current - {n};
          var primary := users[i].primaryNodeId;
          if primary == Some(n) {
            primary := if current != {} then Some(Min(current)) else None;
          }
          SetUserNodeAccess(i, current, primary);
        }
      }
    }

    /** The three steps that take a node out of the database. */
    method Detach(n: NodeId, replacement: Option<NodeId>)
      modifies this`users, this`profiles
      ensures replacement.None? ==> Tables() == DetachFromDb(old(Tables()), n)
      ensures replacement.Some? ==> Tables() == ReplaceInDb(old(Tables()), n, replacement.value)
    {
      DetachNodeFromUsers(n, replacement);
      RemoveNodeFromProfiles(n, replacement);
      ClearOrReplacePrimaryNodes(n, replacement);
      assert replacement.None? ==> users == DetachFromDb(old(Tables()), n).users;
      assert replacement.Some? ==> users == ReplaceInDb(old(Tables()), n, replacement.value).users;
    }

    // ---------- node requests ----------

    method ReplaceNode(n: NodeId, m: NodeId, attempts: NodeId -> Attempt) returns (r: Response)
      requires Clean()
      modifies this
      ensures Clean() && State() == Step(old(State()), Request.ReplaceNode(n, m), attempts)
      ensures forall c :: r == Error(c) <==> PlanOf(old(Tables()), Request.ReplaceNode(n, m)) == Refused(c)
    {
      if n !in nodes || m !in nodes {
        return Error(404);
      }
      if n == m || nodes[m].status == NodeStatus.Deleted {
        return Error(422);
      }
      Detach(n, Some(m));
      r := PushAndCommit({n, m}, true, attempts);
    }

    method DeleteNode(n: NodeId, force: bool, attempts: NodeId -> Attempt) returns (r: Response)
      requires Clean()
      modifies this
      ensures Clean() && State() == Step(old(State()), Request.DeleteNode(n, force), attempts)
      ensures forall c :: r == Error(c) <==> PlanOf(old(Tables()), Request.DeleteNode(n, force)) == Refused(c)
    {
      if n !in nodes {
        return Error(404);
      }
      if nodes[n].status == NodeStatus.Deleted {
        return Done([]);
      }
      if !force && NodeInUse(Tables(), n) {
        return Error(409);
      }
      Detach(n, None);
      nodes := nodes[n := nodes[n].(status := NodeStatus.Disabled)];
      assert PlanOf(old(Tables()), Request.DeleteNode(n, force)) == Push(Tables(), {n}, true, false, Some(n));
      PushedDelete(old(State()), Request.DeleteNode(n, force), attempts, Tables(), n);
      var results := ApplyToNodes({n}, true, attempts);
      nodes := nodes[n := nodes[n].(status := NodeStatus.Deleted)];
      CommitSession();
      r := Done(results);
    }

    method AddNodeToUsers(n: NodeId, bulk: Bulk, attempts: NodeId -> Attempt) returns (r: Response)
      requires Clean()
      modifies this
      ensures Clean() && State() == Step(old(State()), Request.AddNodeToUsers(n, bulk), attempts)
      ensures forall c :: r == Error(c) <==> PlanOf(old(Tables()), Request.AddNodeToUsers(n, bulk)) == Refused(c)
    {
      if n !in nodes || nodes[n].status == NodeStatus.Deleted {
        return Error(404);
      }
      if !BulkAccepted(bulk) {
        return Error(422);
      }
      AddToTargeted(n, bulk);
      assert users == MapUsers(old(users), u => BulkAdd(u, old(profiles), bulk, n));
      PushedStep(old(State()), Request.AddNodeToUsers(n, bulk), attempts, Tables(), {n}, false);
      r := PushAndCommit({n}, false, attempts);
    }

    method RemoveNodeFromUsers(n: NodeId, bulk: Bulk, attempts: NodeId -> Attempt) returns (r: Response)
      requires Clean()
      modifies this
      ensures Clean() && State() == Step(old(State()), Request.RemoveNodeFromUsers(n, bulk), attempts)
      ensures forall c :: r == Error(c) <==> PlanOf(old(Tables()), Request.RemoveNodeFromUsers(n, bulk)) == Refused(c)
    {
      if n !in nodes {
        return Error(404);
      }
      if !BulkAccepted(bulk) {
        return Error(422);
      }
      RemoveFromTargeted(n, bulk);
      assert users == MapUsers(old(users), u => BulkRemove(u, old(profiles), bulk, n));
      PushedStep(old(State()), Request.RemoveNodeFromUsers(n, bulk), attempts, Tables(), {n}, false);
      r := PushAndCommit({n}, false, attempts);
    }

    method AddNodeToProfile(n: NodeId, p: ProfileId, attempts: NodeId -> Attempt) returns (r: Response)
      requires Clean()
      modifies this
      ensures Clean() && State() == Step(old(State()), Request.AddNodeToProfile(n, p), attempts)
      ensures forall c :: r == Error(c) <==> PlanOf(old(Tables()), Request.AddNodeToProfile(n, p)) == Refused(c)
    {
      if n !in nodes || nodes[n].status == NodeStatus.Deleted || p !in profiles {
        return Error(404);
      }
      var current := Dedup(profiles[p].allowedNodes);
      if n !in current {
        profiles := profiles[p := profiles[p].(allowedNodes := current + [n])];
      }
      assert profiles == old(profiles)[p := AddToProfile(old(profiles)[p], n)];
      r := PushAndCommit({n}, false, attempts);
    }

    method RemoveNodeFromProfile(n: NodeId, p: ProfileId, attempts: NodeId -> Attempt) returns (r: Response)
      requires Clean()
      modifies this
      ensures Clean() && State() == Step(old(State()), Request.RemoveNodeFromProfile(n, p), attempts)
      ensures forall c :: r == Error(c) <==> PlanOf(old(Tables()), Request.RemoveNodeFromProfile(n, p)) == Refused(c)
    {
      if n !in nodes || p !in profiles {
        return Error(404);
      }
      var current := Dedup(profiles[p].allowedNodes);
      if n in current {
        profiles := profiles[p := profiles[p].(allowedNodes := Without(current, n))];
      }
      assert profiles == old(profiles)[p := DropFromProfile(old(profiles)[p], n, None)];
      r := PushAndCommit({n}, false, attempts);
    }

    method ChangeNodeStatus(n: NodeId, s: NodeStatus, attempts: NodeId -> Attempt) returns (r: Response)
      requires Clean() && s in {NodeStatus.Online, NodeStatus.Disabled, NodeStatus.Maintenance}
      modifies this
      ensures Clean()
      ensures State() == Step(old(State()), if s == NodeStatus.Online then EnableNode(n)
                                            else if s == NodeStatus.Disabled then DisableNode(n)
                                                else MaintenanceNode(n), attempts)
      ensures r.Error? <==> n !in old(nodes) || old(nodes)[n].status == NodeStatus.Deleted
      ensures r.Error? ==> r == Error(404)
    {
      if n !in nodes || nodes[n].status == NodeStatus.Deleted {
        return Error(404);
      }
      nodes := nodes[n := nodes[n].(status := s)];
      r := PushAndCommit({n}, s != NodeStatus.Online, attempts);
    }

    /** The keys are made before the push, and a failed push is reported after the commit. */
    method ApplyConfig(n: NodeId, generated: Generated, attempts: NodeId -> Attempt) returns (r: Response)
      requires Clean()
      modifies this
      ensures Clean() && State() == Step(old(State()), ApplyNodeConfig(n, generated), attempts)
      ensures r == Error(404) <==> n !in old(nodes)
      ensures n in old(nodes) ==>
                var planned := System(PlanOf(old(Tables()), ApplyNodeConfig(n, generated)).db, old(deployed));
                && (r.Error? <==> StepAt(planned, n, true, attempts).status == ResultFailed)
                && (r.Error? ==> r == Error(502))
    {
      if n !in nodes {
        return Error(404);
      }
      nodes := nodes[n := nodes[n].(credentials := EnsureCredentials(nodes[n].credentials, generated))];
      ghost var planned := State();
      PushedStep(old(State()), ApplyNodeConfig(n, generated), attempts, Tables(), {n}, true);
      r := PushAndCommit({n}, true, attempts);
      FailedOnlyTarget(planned, n, attempts, r.results);
      if Count(r.results, ResultFailed) > 0 {
        return Error(502);
      }
    }

    lemma FailedOnlyTarget(sys: System, n: NodeId, attempts: NodeId -> Attempt, results: seq<NodeApplyResult>)
      requires n in sys.db.nodes && ResultsOf(sys, {n}, true, attempts, results)
      ensures Count(results, ResultFailed) > 0 <==> StepAt(sys, n, true, attempts).status == ResultFailed
    {
      CountIsCardinality(results, ResultFailed);
      var i :| 0 <= i < |results| && results[i].nodeId == n;
      assert forall m :: m in NodesWith(results, ResultFailed) ==> m == n;
      assert NodesWith(results, ResultFailed) == if results[i].status == ResultFailed then {n} else {};
    }

    /**
     Stores the normalized profile; the nodes of the old and new list are affected, or every node if
     there are none.
     */
    method StoreProfile(p: ProfileId, profile: Profile) returns (affected: set<NodeId>)
      requires p in profiles && Normalized(profile.blockedDomains).Success?
      modifies this`profiles
      ensures PlanOf(old(Tables()), Request.UpdateProfile(p, profile)) == Push(Tables(), affected, false, false, None)
    {
      ProfilePlan(Tables(), p, profile);
      affected := SeqSet(profiles[p].allowedNodes);
      profiles := profiles[p := profile.(blockedDomains := Normalized(profile.blockedDomains).value)];
      affected := affected + SeqSet(profile.allowedNodes);
      if affected == {} {
        affected := set n | n in nodes && nodes[n].status != NodeStatus.Deleted;
      }
    }

    method UpdateProfile(p: ProfileId, profile: Profile, attempts: NodeId -> Attempt) returns (r: Response)
      requires Clean()
      modifies this
      ensures Clean() && State() == Step(old(State()), Request.UpdateProfile(p, profile), attempts)
      ensures forall c :: r == Error(c) <==> PlanOf(old(Tables()), Request.UpdateProfile(p, profile)) == Refused(c)
    {
      UpdateRefused(Tables(), p, profile);
      var normalized := NormalizeBlockedDomains(profile.blockedDomains);
      if normalized.Failure? {
        return Error(422);
      }
      if p !in profiles {
        return Error(404);
      }
      r := PushProfile(p, profile, attempts);
    }

    lemma UpdateRefused(db: Db, p: ProfileId, profile: Profile)
      ensures PlanOf(db, Request.UpdateProfile(p, profile)).Refused? <==>
              Normalized(profile.blockedDomains).Failure? || p !in db.profiles
    {
    }

    method PushProfile(p: ProfileId, profile: Profile, attempts: NodeId -> Attempt) returns (r: Response)
      requires Normalized(profile.blockedDomains).Success? && p in profiles
      modifies this
      ensures Clean() && State() == Step(old(State()), Request.UpdateProfile(p, profile), attempts)
      ensures r.Done?
    {
      var affected := StoreProfile(p, profile);
      PushedStep(old(State()), Request.UpdateProfile(p, profile), attempts, Tables(), affected, false);
      r := PushAndCommit(affected, false, attempts);
    }

    // ---------- user requests ----------

    method CreateUser(id: UserId, payload: UserPayload, attempts: NodeId -> Attempt) returns (r: Response)
      requires Clean()
      modifies this
      ensures Clean() && State() == Step(old(State()), Request.CreateUser(id, payload), attempts)
      ensures forall c :: r == Error(c) <==> PlanOf(old(Tables()), Request.CreateUser(id, payload)) == Refused(c)
    {
      if !SchemaAccepts(payload) {
        return Error(422);
      }
      if UsernameTaken(users, payload.username, None) || FindUser(users, id).Some? {
        return Error(409);
      }
      if PayloadRefused(Tables(), payload) {
        return Error(422);
      }
      var affected := PayloadEffectiveIds(Tables(), payload);
      var allowed := PayloadNodeIds(Tables(), payload);
      users := users
          + [NewUser(id).(username := payload.username, status := payload.status, deviceLimit := payload.deviceLimit,
                                     departmentId := payload.departmentId, profileId := payload.profileId)];
      SetUserNodeAccess(|users| - 1, allowed, payload.primaryNodeId);
      assert users == old(users) + [WithPayload(old(Tables()), NewUser(id), payload)];
      r := PushAndCommit(affected, false, attempts);
    }

    method ChangeUserStatus(id: UserId, enable: bool, attempts: NodeId -> Attempt) returns (r: Response)
      requires Clean()
      modifies this
      ensures Clean() && State() == Step(old(State()), if enable then EnableUser(id) else DisableUser(id), attempts)
      ensures r.Error? <==> FindUser(old(users), id).None?
      ensures r.Error? ==> r == Error(404)
    {
      var found := FindUser(users, id);
      if found.None? {
        return Error(404);
      }
      var i := found.value;
      var affected := SeqSet(users[i].nodeLinks);
      users := users[i := users[i].(status := if enable then UserStatus.Active else UserStatus.Disabled)];
      r := PushAndCommit(affected, false, attempts);
    }

    method UpdateUser(id: UserId, payload: UserPayload, attempts: NodeId -> Attempt) returns (r: Response)
      requires Clean()
      modifies this
      ensures Clean() && State() == Step(old(State()), Request.UpdateUser(id, payload), attempts)
      ensures forall c :: r == Error(c) <==> PlanOf(old(Tables()), Request.UpdateUser(id, payload)) == Refused(c)
    {
      if !SchemaAccepts(payload) {
        return Error(422);
      }
      var found := FindUser(users, id);
      if found.None? {
        return Error(404);
      }
      var i := found.value;
      if UsernameTaken(users, payload.username, Some(id)) {
        return Error(409);
      }
      if payload.deviceLimit < ActiveDevicesCount(users[i]) {
        return Error(400);
      }
      if PayloadRefused(Tables(), payload) {
        return Error(422);
      }
      var affected := EffectiveNodeIds(users[i], profiles) + PayloadEffectiveIds(Tables(), payload);
      var allowed := PayloadNodeIds(Tables(), payload);
      var user := users[i].(username := payload.username, status := payload.status, deviceLimit := payload.deviceLimit,
                            departmentId := payload.departmentId, profileId := payload.profileId);
      users := users[i := user];
      SetUserNodeAccess(i, allowed, payload.primaryNodeId);
      assert users == old(users)[i := WithPayload(old(Tables()), old(users)[i], payload)];
      r := PushAndCommit(affected, false, attempts);
    }

    method DeleteUser(id: UserId, attempts: NodeId -> Attempt) returns (r: Response)
      requires Clean()
      modifies this
      ensures Clean() && State() == Step(old(State()), Request.DeleteUser(id), attempts)
      ensures r.Error? <==> FindUser(old(users), id).None?
      ensures r.Error? ==> r == Error(404)
    {
      var found := FindUser(users, id);
      if found.None? {
        return Error(404);
      }
      var i := found.value;
      var affected := EffectiveNodeIds(users[i], profiles);
      if users[i].status == UserStatus.Deleted {
        return Done([]);
      }
      users := users[i := users[i].(status := UserStatus.Deleted)];
      r := PushAndCommit(affected, false, attempts);
    }

    // ---------- devices ----------

    /** Write the devices of a user and push, rolling back unless every node took it. */
    method PushDevices(i: nat, devices: seq<Device>, attempts: NodeId -> Attempt) returns (r: Response)
      requires Clean() && i < |users|
      modifies this
      ensures Clean()
      ensures var u := old(users)[i].(devices := devices);
              var planned := System(SetUser(old(Tables()), i, u), old(deployed));
              var targets := EffectiveNodeIds(u, old(profiles));
              && (targets == {} ==> State() == planned && r.Done?)
              && (targets != {} ==>
                    var pushed := AfterApply(planned, targets, false, attempts);
                    if EveryTargetSucceeded(planned, targets, false, attempts) then State() == pushed && r.Done?
                    else State() == pushed.(db := old(Tables())) && r == Error(503))
    {
      users := users[i := users[i].(devices := devices)];
      var targets := EffectiveNodeIds(users[i], profiles);
      if targets == {} {
        CommitSession();
        return Done([]);
      }
      var ok, results := ApplyForUser(targets, attempts);
      if !ok {
        RollbackSession();
        return Error(503);
      }
      CommitSession();
      r := Done(results);
    }

    /** `GET /sub/{token}` for one user, one HWID and one moment. */
    method Subscribe(id: UserId, hwid: Option<string>, open: bool, newId: DeviceId, uuid: string,
                     attempts: NodeId -> Attempt)
      returns (r: Response)
      requires Clean()
      modifies this
      ensures Clean() && State() == Step(old(State()), RegisterDevice(id, hwid, open, newId, uuid), attempts)
      ensures r.Done? <==>
              var req := RegisterDevice(id, hwid, open, newId, uuid);
              !PlanOf(old(Tables()), req).Refused? && !RollsBack(old(State()), req, attempts)
      ensures r.Error? ==>
                var req := RegisterDevice(id, hwid, open, newId, uuid);
                if RollsBack(old(State()), req, attempts) then r == Error(503)
                else PlanOf(old(Tables()), req) == Refused(r.status)
    {
      var found := FindUser(users, id);
      if found.None? || users[found.value].status != UserStatus.Active {
        return Error(404);
      }
      if !open || hwid.None? {
        return Error(403);
      }
      var i := found.value;
      var existing := FindHwid(users[i].devices, hwid.value);
      if existing.Some? && users[i].devices[existing.value].status == DeviceStatus.Active {
        return Done([]);
      }
      r := RegisterNew(i, hwid.value, newId, uuid, attempts);
      RegistrationStep(old(State()), RegisterDevice(id, hwid, open, newId, uuid), attempts, i);
    }

    /** What a registration that gets past the checks does, in terms of its plan. */
    lemma RegistrationStep(sys: System, req: Request, attempts: NodeId -> Attempt, i: nat)
      requires req.RegisterDevice? && req.open && req.hwid.Some? && FindUser(sys.db.users, req.u) == Some(i)
      requires sys.db.users[i].status == UserStatus.Active
      requires PlanRegistration(sys.db, i, req.hwid.value, req.newId, req.uuid).Push? ||
               PlanRegistration(sys.db, i, req.hwid.value, req.newId, req.uuid).Refused?
      ensures PlanOf(sys.db, req) == PlanRegistration(sys.db, i, req.hwid.value, req.newId, req.uuid)
      ensures var plan := PlanOf(sys.db, req);
              plan.Push? ==>
                var planned := System(plan.db, sys.deployed);
                var pushed := AfterApply(planned, plan.targets, false, attempts);
                && (RollsBack(sys, req, attempts) <==> !EveryTargetSucceeded(planned, plan.targets, false, attempts))
                && Step(sys, req, attempts) == if RollsBack(sys, req, attempts) then pushed.(db := sys.db) else pushed
      ensures PlanOf(sys.db, req).Refused? ==> Step(sys, req, attempts) == sys && !RollsBack(sys, req, attempts)
    {
    }

    /** A new HWID: a revoked device of the same HWID makes room, then the limit, the nodes, the push. */
    method RegisterNew(i: nat, hwid: string, newId: DeviceId, uuid: string, attempts: NodeId -> Attempt)
        returns (r: Response)
      requires Clean() && i < |users|
      requires FindHwid(users[i].devices, hwid).Some? ==>
                 users[i].devices[FindHwid(users[i].devices, hwid).value].status != DeviceStatus.Active
      modifies this
      ensures Clean()
      ensures var plan := PlanRegistration(old(Tables()), i, hwid, newId, uuid);
              && (plan.Push? || plan.Refused?)
              && (plan.Refused? ==> r == Error(plan.status) && State() == old(State()))
              && (plan.Push? ==>
                    var planned := System(plan.db, old(deployed));
                    var pushed := AfterApply(planned, plan.targets, false, attempts);
                    && (r.Done? <==> EveryTargetSucceeded(planned, plan.targets, false, attempts))
                    && (r.Error? ==> r == Error(503))
                    && State() == if r.Done? then pushed else pushed.(db := old(Tables())))
    {
      var existing := FindHwid(users[i].devices, hwid);
      if existing.Some? {
        users := users[i := users[i].(devices := RemoveAt(users[i].devices, existing.value))];
      }
      assert users == old(users)[i := BeforeRegistration(old(users)[i], hwid)];
      if ActiveDevicesCount(users[i]) >= users[i].deviceLimit || EffectiveNodeIds(users[i], profiles) == {} {
        RollbackSession();
        return Error(403);
      }
      var affected := EffectiveNodeIds(users[i], profiles);
      var device := Device(newId, uuid, DeviceStatus.Active, Some(hwid));
      users := users[i := users[i].(devices := users[i].devices + [device])];
      assert users == old(users)[i := Registered(old(users)[i], hwid, newId, uuid)];
      var ok, results := ApplyForUser(affected, attempts);
      if !ok {
        RollbackSession();
        return Error(503);
      }
      CommitSession();
      r := Done(results);
    }

    method RemoveUserDevice(id: UserId, d: DeviceId, attempts: NodeId -> Attempt) returns (r: Response)
      requires Clean()
      modifies this
      ensures Clean() && State() == Step(old(State()), RemoveDevice(id, d), attempts)
      ensures r == Error(503) <==> RollsBack(old(State()), RemoveDevice(id, d), attempts)
      ensures r == Error(404) <==> PlanOf(old(Tables()), RemoveDevice(id, d)).Refused?
    {
      var found := FindUser(users, id);
      if found.None? {
        return Error(404);
      }
      var device := FindDevice(users[found.value].devices, d);
      if device.None? {
        return Done([]);
      }
      r := PushDevices(found.value, RemoveAt(users[found.value].devices, device.value), attempts);
    }

    method ResetUserDevices(id: UserId, attempts: NodeId -> Attempt) returns (r: Response)
      requires Clean()
      modifies this
      ensures Clean() && State() == Step(old(State()), ResetDevices(id), attempts)
      ensures r == Error(503) <==> RollsBack(old(State()), ResetDevices(id), attempts)
      ensures r == Error(404) <==> PlanOf(old(Tables()), ResetDevices(id)).Refused?
    {
      var found := FindUser(users, id);
      if found.None? {
        return Error(404);
      }
      if users[found.value].devices == [] {
        return Done([]);
      }
      r := PushDevices(found.value, [], attempts);
    }
  }
}
