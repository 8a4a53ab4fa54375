/**
 Pushing rendered configurations to a set of nodes
 (`backend/app/services/config_apply.py`).  What a remote attempt does is decided by
 the environment: every attempt may succeed, be rejected or time out, and a failed
 one may leave any configuration behind.
 */
module ConfigApply {
  import opened Wrappers
  import opened Entities
  import opened XrayConfig
  import Rendering
  import opened Sums

  /** The database together with what each server is running. */
  datatype System = System(db: Db, deployed: map<NodeId, Config>)

  datatype Outcome =
    | Applied
    | Rejected(leaves: Option<Config>, logShowsXray: bool)
    | TimedOut(leaves: Option<Config>)
    | NotStarted

  /** What the key generator returns. */
  type Generated = c: Credentials | c.privateKey != "" && c.publicKey != "" && c.shortId != ""
    witness Credentials("private", "public", "id")

  /** One attempt: the keys that would be generated if the node has none, and what happens remotely. */
  datatype Attempt = Attempt(generated: Generated, outcome: Outcome)

  datatype ResultStatus = ResultSuccess | ResultFailed | ResultSkipped
  datatype NodeApplyResult = NodeApplyResult(nodeId: NodeId, status: ResultStatus)

  predicate HasInstalledXray(node: Node) {
    node.xrayInstalled || node.logShowsXray || node.lastApply == ApplySuccess
  }

  function EnsureCredentials(c: Credentials, generated: Credentials): Credentials {
    var keyed := if c.privateKey == "" || c.publicKey == ""
                 then c.(privateKey := generated.privateKey, publicKey := generated.publicKey) else c;
    if keyed.shortId == "" then keyed.(shortId := generated.shortId) else keyed
  }

  /** The row with the keys that an attempt renders with. */
  function Prepared(node: Node, attempt: Attempt): Node {
    node.(credentials := EnsureCredentials(node.credentials, attempt.generated))
  }

  /** Statuses that a successful apply leaves alone; any other becomes online. */
  predicate KeepsStatus(s: NodeStatus) {
    s == NodeStatus.Online || s == NodeStatus.Disabled || s == NodeStatus.Maintenance || s == NodeStatus.Deleted
  }

  /** What one attempt makes of the node row, of the server, and of the summary. */
  datatype NodeStep = NodeStep(node: Node, live: Option<Config>, status: ResultStatus)

  function ApplyNode(users: seq<User>, profiles: map<ProfileId, Profile>, node: Node, live: Option<Config>,
                     allowNonOnline: bool, attempt: Attempt): NodeStep
  {
    Attempted(node, RenderServerConfig(users, profiles, Prepared(node, attempt)), live, allowNonOnline, attempt)
  }

  /** An attempt with what rendering gives, if it comes to that. */
  function Attempted(node: Node, rendered: Result<Config, RenderError>, live: Option<Config>, allowNonOnline: bool,
                     attempt: Attempt): NodeStep
  {
    if attempt.outcome.NotStarted? then NodeStep(node.(lastApply := ApplyFailed), live, ResultFailed)
    else if node.status != NodeStatus.Online && !allowNonOnline then NodeStep(node, live, ResultSkipped)
    else if !HasInstalledXray(node) then NodeStep(node, live, ResultSkipped)
    else
      var prepared := Prepared(node, attempt);
      match rendered
      case Failure(_) => NodeStep(prepared.(lastApply := ApplyFailed), live, ResultFailed)
      case Success(config) =>
        match attempt.outcome
        case Applied =>
          var status := if KeepsStatus(node.status) then node.status else NodeStatus.Online;
          NodeStep(prepared.(status := status, logShowsXray := true, lastApply := ApplySuccess), Some(config),
                   ResultSuccess)
        case Rejected(leaves, shows) =>
          NodeStep(prepared.(logShowsXray := shows, lastApply := ApplyFailed), leaves, ResultFailed)
        case TimedOut(leaves) => NodeStep(prepared.(lastApply := ApplyFailed), leaves, ResultFailed)
  }

  /**
   An attempt succeeds exactly when it is applied at a node with Xray that is online or may be pushed to
   all the same, and rendering does not fail; it is skipped exactly for the two conditions on the node.
   Its result, the row and the server fit together.
   */
  lemma AttemptedExactlyWhen(node: Node, rendered: Result<Config, RenderError>, live: Option<Config>, allow: bool,
                             attempt: Attempt)
    ensures var step, outcome := Attempted(node, rendered, live, allow, attempt), attempt.outcome;
            var installed := node.xrayInstalled || node.logShowsXray || node.lastApply == ApplySuccess;
            var started := !outcome.NotStarted? && (node.status == NodeStatus.Online || allow) && installed;
            var tried := started && rendered.Success?;
            && (step.status == ResultSuccess <==> tried && outcome.Applied?)
            && (step.status == ResultSkipped <==> !started && !outcome.NotStarted?)
            && step.live == (if !tried then live
                             else match outcome {
                               case Applied => Some(rendered.value)
                               case Rejected(leaves, _) => leaves
                               case TimedOut(leaves) => leaves
                               case NotStarted => live
                             })
            && RowAfter(node, attempt, started, tried, step)
  {
  }

  /** The row after an attempt: its keys, whether the log shows Xray, its success or failure, and its status. */
  predicate RowAfter(node: Node, attempt: Attempt, started: bool, tried: bool, step: NodeStep) {
    && step.node == node.(status := step.node.status, credentials := step.node.credentials,
                          logShowsXray := step.node.logShowsXray, lastApply := step.node.lastApply)
    && step.node.credentials == (if started then EnsureCredentials(node.credentials, attempt.generated)
                                 else node.credentials)
    && step.node.logShowsXray == (if tried && attempt.outcome.Applied? then true
                                  else if tried && attempt.outcome.Rejected? then attempt.outcome.logShowsXray
                                  else node.logShowsXray)
    && step.node.lastApply == (match step.status case ResultSuccess => ApplySuccess
                                                 case ResultFailed => ApplyFailed
                                                 case ResultSkipped => node.lastApply)
    && step.node.status ==
       if step.status == ResultSuccess
          && node.status !in {NodeStatus.Disabled, NodeStatus.Maintenance, NodeStatus.Deleted}
       then NodeStatus.Online else node.status
  }

  function Live(sys: System, n: NodeId): Option<Config> {
    if n in sys.deployed then Some(sys.deployed[n]) else None
  }

  function StepAt(sys: System, n: NodeId, allowNonOnline: bool, attempts: NodeId -> Attempt): NodeStep
    requires n in sys.db.nodes
  {
    ApplyNode(sys.db.users, sys.db.profiles, sys.db.nodes[n], Live(sys, n), allowNonOnline, attempts(n))
  }

  function LiveAfter(sys: System, targets: set<NodeId>, allowNonOnline: bool, attempts: NodeId -> Attempt, n: NodeId)
    : Option<Config>
  {
    if n in targets && n in sys.db.nodes then StepAt(sys, n, allowNonOnline, attempts).live else Live(sys, n)
  }

  /** The state after pushing to `targets`: every target is handled once, on its own row only. */
  function AfterApply(sys: System, targets: set<NodeId>, allowNonOnline: bool, attempts: NodeId -> Attempt): System {
    var nodes := map n | n in sys.db.nodes ::
                   if n in targets then StepAt(sys, n, allowNonOnline, attempts).node else sys.db.nodes[n];
    var deployed := map n | n in sys.deployed.Keys + sys.db.nodes.Keys
        && LiveAfter(sys, targets, allowNonOnline, attempts, n).Some?
                      :: LiveAfter(sys, targets, allowNonOnline, attempts, n).value;
    System(sys.db.(nodes := nodes), deployed)
  }

  /** The state moved by exactly one attempt, on node `n`. */
  ghost predicate OneAttempt(before: System, n: NodeId, allowNonOnline: bool, attempts: NodeId -> Attempt,
                             after: System)
    requires n in before.db.nodes
  {
    var step := StepAt(before, n, allowNonOnline, attempts);
    && after.db == before.db.(nodes := before.db.nodes[n := step.node])
    && Live(after, n) == step.live
    && forall m :: m != n ==> Live(after, m) == Live(before, m)
  }

  /** The nodes in `done` have had their attempt, the others are as at the start. */
  ghost predicate Progress(start: System, done: set<NodeId>, allowNonOnline: bool, attempts: NodeId -> Attempt,
                           now: System) {
    && now.db.users == start.db.users && now.db.profiles == start.db.profiles
       && now.db.nodes.Keys == start.db.nodes.Keys
    && (forall n :: n in start.db.nodes ==>
          now.db.nodes[n] == if n in done then StepAt(start, n, allowNonOnline, attempts).node else start.db.nodes[n])
    && forall n :: Live(now, n) == LiveAfter(start, done, allowNonOnline, attempts, n)
  }

  lemma ProgressByOne(start: System, done: set<NodeId>, allowNonOnline: bool, attempts: NodeId -> Attempt,
                      before: System, n: NodeId, after: System)
    requires Progress(start, done, allowNonOnline, attempts, before) && n in start.db.nodes && n !in done
    requires OneAttempt(before, n, allowNonOnline, attempts, after)
    ensures StepAt(before, n, allowNonOnline, attempts) == StepAt(start, n, allowNonOnline, attempts)
    ensures Progress(start, done + {n}, allowNonOnline, attempts, after)
  {
    assert Live(before, n) == LiveAfter(start, done, allowNonOnline, attempts, n) == Live(start, n);
    forall m
      ensures Live(after, m) == LiveAfter(start, done + {n}, allowNonOnline, attempts, m)
    {
      assert Live(before, m) == LiveAfter(start, done, allowNonOnline, attempts, m);
    }
  }

  /** Once every target has had its attempt the state is `AfterApply`. */
  lemma ProgressDone(sys: System, targets: set<NodeId>, allowNonOnline: bool, attempts: NodeId -> Attempt,
                     after: System)
    requires Progress(sys, (set n | n in targets && n in sys.db.nodes), allowNonOnline, attempts, after)
    ensures after == AfterApply(sys, targets, allowNonOnline, attempts)
  {
    var done := set n | n in targets && n in sys.db.nodes;
    var expected := AfterApply(sys, targets, allowNonOnline, attempts);
    assert after.db.nodes == expected.db.nodes;
    forall n
      ensures n in after.deployed <==> n in expected.deployed
      ensures n in after.deployed ==> after.deployed[n] == expected.deployed[n]
    {
      assert Live(after, n) == LiveAfter(sys, done, allowNonOnline, attempts, n) ==
             LiveAfter(sys, targets, allowNonOnline, attempts, n);
    }
    assert after.deployed == expected.deployed;
  }

  // ---------- the summary ----------

  function Count(results: seq<NodeApplyResult>, status: ResultStatus): nat {
    if results == [] then 0
    else Count(results[..|results| - 1], status) + if results[|results| - 1].status == status then 1 else 0
  }

  /** One result per known target, each with the status of its own attempt. */
  ghost predicate ResultsOf(sys: System, targets: set<NodeId>, allowNonOnline: bool, attempts: NodeId -> Attempt,
                            results: seq<NodeApplyResult>)
  {
    && (forall i, j :: 0 <= i < j < |results| ==> results[i].nodeId != results[j].nodeId)
    && (forall i :: 0 <= i < |results| ==>
          && results[i].nodeId in targets && results[i].nodeId in sys.db.nodes
          && results[i].status == StepAt(sys, results[i].nodeId, allowNonOnline, attempts).status)
    && (forall n :: n in targets && n in sys.db.nodes ==> exists i :: 0 <= i < |results| && results[i].nodeId == n)
  }

  /** Reporting one more node. */
  lemma ResultsExtend(sys: System, done: set<NodeId>, allowNonOnline: bool, attempts: NodeId -> Attempt,
                      results: seq<NodeApplyResult>, last: NodeApplyResult)
    requires ResultsOf(sys, done, allowNonOnline, attempts, results)
    requires last.nodeId !in done && last.nodeId in sys.db.nodes
    requires last.status == StepAt(sys, last.nodeId, allowNonOnline, attempts).status
    ensures ResultsOf(sys, done + {last.nodeId}, allowNonOnline, attempts, results + [last])
  {
    var all := results + [last];
    assert all[|results|] == last;
    forall n | n in done && n in sys.db.nodes
      ensures exists i :: 0 <= i < |all| && all[i].nodeId == n
    {
      var i :| 0 <= i < |results| && results[i].nodeId == n;
      assert all[i].nodeId == n;
    }
  }

  function NodesWith(results: seq<NodeApplyResult>, status: ResultStatus): (r: set<NodeId>)
    ensures forall n :: n in r <==>
            exists i :: 0 <= i < |results| && results[i].nodeId == n && results[i].status == status
  {
    if results == [] then {}
    else
      var init, last := results[..|results| - 1], results[|results| - 1];
      assert forall i :: 0 <= i < |init| ==> init[i] == results[i];
      NodesWith(init, status) + if last.status == status then {last.nodeId} else {}
  }

  /** Counting results counts nodes, because no node is reported twice. */
  lemma {:induction false} CountIsCardinality(results: seq<NodeApplyResult>, status: ResultStatus)
    requires forall i, j :: 0 <= i < j < |results| ==> results[i].nodeId != results[j].nodeId
    ensures Count(results, status) == |NodesWith(results, status)|
  {
    if results != [] {
      var init, last := results[..|results| - 1], results[|results| - 1];
      CountIsCardinality(init, status);
      assert last.nodeId !in NodesWith(init, status);
    }
  }

  /** `require_success` of `apply_config_for_user`. */
  predicate AllSucceeded(nodeIds: set<NodeId>, results: seq<NodeApplyResult>) {
    && |nodeIds| - Count(results, ResultSuccess) <= 0
    && Count(results, ResultFailed) == 0
    && Count(results, ResultSkipped) == 0
  }

  /**
   The success test by counting is right: it passes exactly when every requested node
   exists and its attempt succeeded.
   */
  lemma SuccessByCounting(sys: System, nodeIds: set<NodeId>, allowNonOnline: bool, attempts: NodeId -> Attempt,
                          results: seq<NodeApplyResult>)
    requires ResultsOf(sys, nodeIds, allowNonOnline, attempts, results)
    ensures AllSucceeded(nodeIds, results) <==>
            forall n :: n in nodeIds ==>
                n in sys.db.nodes && StepAt(sys, n, allowNonOnline, attempts).status == ResultSuccess
  {
    var good := NodesWith(results, ResultSuccess);
    CountIsCardinality(results, ResultSuccess);
    CountIsCardinality(results, ResultFailed);
    CountIsCardinality(results, ResultSkipped);
    assert good <= nodeIds;
    if AllSucceeded(nodeIds, results) {
      SubsetOfSameSize(good, nodeIds);
    }
    if forall n :: n in nodeIds ==>
        n in sys.db.nodes && StepAt(sys, n, allowNonOnline, attempts).status == ResultSuccess {
      assert good == nodeIds;
      assert NodesWith(results, ResultFailed) == {};
      assert NodesWith(results, ResultSkipped) == {};
    }
  }

  /**
   A reported success means that the server runs what was rendered from the row it had
   then, which is what the database renders for it, unless the push brings it online.
   */
  lemma SuccessIsDeployed(sys: System, targets: set<NodeId>, allowNonOnline: bool, attempts: NodeId -> Attempt,
                          n: NodeId)
    requires n in targets && n in sys.db.nodes
    ensures StepAt(sys, n, allowNonOnline, attempts).status == ResultSuccess ==>
              RunsWhatWasRendered(sys, AfterApply(sys, targets, allowNonOnline, attempts), n, attempts(n))
  {
    var step := StepAt(sys, n, allowNonOnline, attempts);
    if step.status == ResultSuccess && KeepsStatus(sys.db.nodes[n].status) {
      SameRendering(sys.db.users, sys.db.profiles, Prepared(sys.db.nodes[n], attempts(n)), step.node);
    }
  }

  ghost predicate RunsWhatWasRendered(sys: System, after: System, n: NodeId, attempt: Attempt)
    requires n in sys.db.nodes
  {
    && n in after.db.nodes && n in after.deployed
    && RenderServerConfig(sys.db.users, sys.db.profiles, Prepared(sys.db.nodes[n], attempt)) ==
       Result.Success(after.deployed[n])
    && (KeepsStatus(sys.db.nodes[n].status) ==> Render(after.db, n) == Result.Success(after.deployed[n]))
  }

  /** Rendering reads neither the log nor the last apply status of a node. */
  lemma SameRendering(users: seq<User>, profiles: map<ProfileId, Profile>, a: Node, b: Node)
    requires b == a.(logShowsXray := b.logShowsXray, lastApply := b.lastApply)
    ensures RenderServerConfig(users, profiles, a) == RenderServerConfig(users, profiles, b)
  {
    Rendering.SameClients(users, profiles, users, profiles, a, b);
  }
}
