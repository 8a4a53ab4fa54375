/**
 Background installs: the two shared maps of backend/app/services/node_action_jobs.py,
 the four short sections that run under the lock, and the worker thread of each job as a
 program counter. A run is any interleaving of start requests and worker steps.
 */
module InstallJobs {
  import opened Wrappers
  import Entities

  type NodeId = Entities.NodeId
  type JobId = nat

  datatype JobStatus = Pending | Running | Success | Failed

  datatype Job = Job(
    node: NodeId,
    status: JobStatus,
    step: string,
    logs: seq<string>,
    error: Option<string>,
    result: Option<string>)

  /** The arguments of `_update_job`: a field that is not given stays as it is. */
  datatype Update = Update(
    status: Option<JobStatus>,
    step: Option<string>,
    error: Option<string>,
    result: Option<string>)

  predicate Active(status: JobStatus) {
    status == Pending || status == Running
  }

  /** The two module-level maps. */
  datatype Registry = Registry(jobs: map<JobId, Job>, runningByNode: map<NodeId, JobId>)

  /** The job a start request would be answered with instead of a new one. */
  function Existing(r: Registry, node: NodeId): Option<JobId> {
    if node in r.runningByNode && r.runningByNode[node] in r.jobs && Active(r.jobs[r.runningByNode[node]].status)
    then Some(r.runningByNode[node])
    else None
  }

  function Opened(r: Registry, node: NodeId, id: JobId): Registry {
    if Existing(r, node).Some? then r
    else Registry(r.jobs[id := Job(node, Pending, "Connecting to the server", [], None, None)],
                  r.runningByNode[node := id])
  }

  function WithUpdate(job: Job, u: Update): Job {
    job.(status := u.status.GetOr(job.status),
         step := u.step.GetOr(job.step),
         error := if u.error.Some? then u.error else job.error,
         result := if u.result.Some? then u.result else job.result)
  }

  function Updated(r: Registry, id: JobId, u: Update): Registry {
    if id !in r.jobs then r else r.(jobs := r.jobs[id := WithUpdate(r.jobs[id], u)])
  }

  function Logged(r: Registry, id: JobId, entry: string, step: Option<string>): Registry {
    if id !in r.jobs then r
    else
      var job := r.jobs[id];
      r.(jobs := r.jobs[id := job.(logs := job.logs + [entry], step := if step.Some? then step.value else job.step)])
  }

  function Released(r: Registry, id: JobId): Registry {
    if id in r.jobs && r.jobs[id].node in r.runningByNode && r.runningByNode[r.jobs[id].node] == id
    then r.(runningByNode := r.runningByNode - {r.jobs[id].node})
    else r
  }

  /** The running map names known jobs, each under its own node. */
  ghost predicate ValidRegistry(r: Registry) {
    forall n :: n in r.runningByNode ==> r.runningByNode[n] in r.jobs && r.jobs[r.runningByNode[n]].node == n
  }

  /** No job is lost, none changes its node, and no log loses an entry. */
  ghost predicate Grows(before: Registry, after: Registry) {
    forall id :: id in before.jobs ==>
      && id in after.jobs && after.jobs[id].node == before.jobs[id].node && before.jobs[id].logs <= after.jobs[id].logs
  }

  /** Apart from `id`, nothing changes. */
  ghost predicate OthersKept(before: Registry, after: Registry, id: JobId) {
    && (forall j :: j in before.jobs && j != id ==> j in after.jobs && after.jobs[j] == before.jobs[j])
    && (forall n :: n in before.runningByNode && before.runningByNode[n] != id ==>
          n in after.runningByNode && after.runningByNode[n] == before.runningByNode[n])
  }

  /** The module state, each method being one section under the lock. */
  class Jobs {
    var jobs: map<JobId, Job>
    var runningByNode: map<NodeId, JobId>

    ghost function State(): Registry
      reads this
    {
      Registry(jobs, runningByNode)
    }

    method StartInstallJob(node: NodeId, newId: JobId) returns (id: JobId, started: bool)
      requires newId !in jobs
      modifies this
      ensures State() == Opened(old(State()), node, newId)
      ensures started == Existing(old(State()), node).None?
      ensures id == if started then newId else Existing(old(State()), node).value
      ensures id in jobs && Active(jobs[id].status)
      ensures old(ValidRegistry(State())) ==> ValidRegistry(State()) && jobs[id].node == node
      ensures Grows(old(State()), State())
    {
      if node in runningByNode {
        var existing := runningByNode[node];
        if existing in jobs && Active(jobs[existing].status) {
          return existing, false;
        }
      }
      jobs := jobs[newId := Job(node, Pending, "Connecting to the server", [], None, None)];
      runningByNode := runningByNode[node := newId];
      return newId, true;
    }

    method UpdateJob(id: JobId, status: Option<JobStatus>, step: Option<string>, error: Option<string>,
                     result: Option<string>)
      modifies this
      ensures State() == Updated(old(State()), id, Update(status, step, error, result))
      ensures old(ValidRegistry(State())) ==> ValidRegistry(State())
      ensures Grows(old(State()), State()) && OthersKept(old(State()), State(), id)
    {
      if id !in jobs {
        return;
      }
      var job := jobs[id];
      if status.Some? {
        job := job.(status := status.value);
      }
      if step.Some? {
        job := job.(step := step.value);
      }
      if error.Some? {
        job := job.(error := error);
      }
      if result.Some? {
        job := job.(result := result);
      }
      jobs := jobs[id := job];
    }

    method AppendLog(id: JobId, entry: string, step: Option<string>)
      modifies this
      ensures State() == Logged(old(State()), id, entry, step)
      ensures old(ValidRegistry(State())) ==> ValidRegistry(State())
      ensures Grows(old(State()), State()) && OthersKept(old(State()), State(), id)
    {
      if id !in jobs {
        return;
      }
      var job := jobs[id];
      job := job.(logs := job.logs + [entry]);
      if step.Some? {
        job := job.(step := step.value);
      }
      jobs := jobs[id := job];
    }

    /** The `finally` block of the worker. */
    method Release(id: JobId)
      requires id in jobs
      modifies this
      ensures State() == Released(old(State()), id)
      ensures old(ValidRegistry(State())) ==> ValidRegistry(State())
      ensures jobs == old(jobs) && OthersKept(old(State()), State(), id)
      ensures forall n :: n in runningByNode && n == jobs[id].node ==> runningByNode[n] != id
    {
      var node := jobs[id].node;
      if node in runningByNode && runningByNode[node] == id {
        runningByNode := runningByNode - {node};
      }
    }
  }

  // ---------- workers ----------

  /**
   Where a worker is: before and after it looked its job up, before the session is open,
   inside `try`, inside `except Exception`, inside `finally` (where an exception that is no
   `Exception` goes directly), past the last section under the lock,
   or stopped without reaching it (opening or closing the session raised, or the process
   was killed).
   */
  datatype Place = Created | Fetched | Marked | Working | Handling | Leaving | Finished | Dead

  datatype System = System(registry: Registry, workers: map<JobId, Place>)

  datatype Event =
    | Start(node: NodeId, id: JobId)
    | Fetch(id: JobId)
    | MarkRunning(id: JobId)
    | OpenSession(id: JobId)
    | Log(id: JobId, entry: string, step: Option<string>)
    | NodeMissing(id: JobId)
    | Installed(id: JobId, row: string)
    | NotInstalled(id: JobId, reason: string, row: string)
    | Interrupt(id: JobId)
    | Raise(id: JobId)
    | HandlerReturns(id: JobId, reason: string)
    | HandlerRaises(id: JobId)
    | Leave(id: JobId)
    | Die(id: JobId)

  predicate At(s: System, id: JobId, place: Place) {
    id in s.workers && s.workers[id] == place
  }

  function Moved(s: System, id: JobId, registry: Registry, place: Place): System {
    System(registry, s.workers[id := place])
  }

  /** An event that the worker's place does not allow changes nothing; a new job's id is new. */
  predicate Enabled(s: System, e: Event) {
    match e
    case Start(_, id) => id !in s.registry.jobs
    case Fetch(id) => At(s, id, Created)
    case MarkRunning(id) => At(s, id, Fetched)
    case OpenSession(id) => At(s, id, Marked)
    case Log(id, _, _) => At(s, id, Working)
    case NodeMissing(id) => At(s, id, Working)
    case Installed(id, _) => At(s, id, Working)
    case NotInstalled(id, _, _) => At(s, id, Working)
    case Interrupt(id) => At(s, id, Working)
    case Raise(id) => At(s, id, Working)
    case HandlerReturns(id, _) => At(s, id, Handling)
    case HandlerRaises(id) => At(s, id, Handling)
    case Leave(id) => At(s, id, Leaving)
    case Die(id) => id in s.workers && s.workers[id] != Finished
  }

  function Progress(status: JobStatus, step: string): Update {
    Update(Some(status), Some(step), None, None)
  }

  function Failure(reason: string, row: Option<string>): Update {
    Update(Some(Failed), Some("Installation not finished"), Some(reason), row)
  }

  function After(s: System, e: Event): System {
    if !Enabled(s, e) then s else
    var r := s.registry;
    match e
    case Start(node, id) =>
      System(Opened(r, node, id), if Existing(r, node).Some? then s.workers else s.workers[id := Created])
    case Fetch(id) => Moved(s, id, r, Fetched)
    case MarkRunning(id) => Moved(s, id, Updated(r, id, Progress(Running, "Connecting to the server")), Marked)
    case OpenSession(id) => Moved(s, id, r, Working)
    case Log(id, entry, step) => Moved(s, id, Logged(r, id, entry, step), Working)
    case NodeMissing(id) => Moved(s, id, Updated(r, id, Failure("Node not found", None)), Leaving)
    case Installed(id, row) =>
      var done := Update(Some(JobStatus.Success), Some("Installation finished"), None, Some(row));
      Moved(s, id, Updated(r, id, done), Leaving)
    case NotInstalled(id, why, row) => Moved(s, id, Updated(r, id, Failure(why, Some(row))), Leaving)
    case Interrupt(id) => Moved(s, id, r, Leaving)
    case Raise(id) => Moved(s, id, r, Handling)
    case HandlerReturns(id, why) => Moved(s, id, Updated(r, id, Failure(why, None)), Leaving)
    case HandlerRaises(id) => Moved(s, id, r, Leaving)
    case Leave(id) => Moved(s, id, Released(r, id), Finished)
    case Die(id) => Moved(s, id, r, Dead)
  }

  const EMPTY := System(Registry(map[], map[]), map[])

  function Run(s: System, events: seq<Event>): System {
    if events == [] then s else After(Run(s, events[..|events| - 1]), events[|events| - 1])
  }

  // ---------- what every run keeps ----------

  predicate ActiveJob(s: System, id: JobId) {
    id in s.registry.jobs && Active(s.registry.jobs[id].status)
  }

  /** `id` is the job that the running map names for its node. */
  predicate Registered(s: System, id: JobId)
    requires id in s.registry.jobs
  {
    var node := s.registry.jobs[id].node;
    node in s.registry.runningByNode && s.registry.runningByNode[node] == id
  }

  /** The worker is gone and the map entry removed, but the job still reads running. */
  predicate Abandoned(s: System, id: JobId) {
    ActiveJob(s, id) && At(s, id, Finished)
  }

  predicate StatusFitsPlace(status: JobStatus, place: Place) {
    match place
    case Created | Fetched => status == Pending
    case Marked | Working | Handling => status == Running
    case Leaving | Finished | Dead => true
  }

  ghost predicate Inv(s: System) {
    && s.workers.Keys == s.registry.jobs.Keys
    && (forall n :: n in s.registry.runningByNode ==>
          s.registry.runningByNode[n] in s.registry.jobs && s.registry.jobs[s.registry.runningByNode[n]].node == n)
    && (forall j :: j in s.workers ==> StatusFitsPlace(s.registry.jobs[j].status, s.workers[j]))
    && (forall j :: ActiveJob(s, j) && !At(s, j, Finished) ==> Registered(s, j))
    && (forall j :: j in s.registry.jobs && At(s, j, Finished) ==> !Registered(s, j))
  }

  /** Only job `id` and its worker change, neither to or from the end, and the running map stays. */
  ghost predicate Touches(s: System, after: System, id: JobId) {
    && id in s.workers && id in s.registry.jobs && id in after.registry.jobs
    && after.registry.jobs == s.registry.jobs[id := after.registry.jobs[id]]
    && after.registry.jobs[id].node == s.registry.jobs[id].node
    && after.registry.runningByNode == s.registry.runningByNode
    && id in after.workers && after.workers == s.workers[id := after.workers[id]]
    && s.workers[id] != Finished && after.workers[id] != Finished
    && StatusFitsPlace(after.registry.jobs[id].status, after.workers[id])
    && (Active(after.registry.jobs[id].status) ==> Active(s.registry.jobs[id].status))
  }

  lemma WorkerStepTouches(s: System, e: Event)
    requires Inv(s) && Enabled(s, e) && !e.Start? && !e.Leave?
    ensures Touches(s, After(s, e), e.id)
  {
  }

  lemma TouchKeepsInv(s: System, after: System, id: JobId)
    requires Inv(s) && Touches(s, after, id)
    ensures Inv(after)
  {
    assert forall j :: j in s.registry.jobs ==> Registered(s, j) == Registered(after, j);
  }

  lemma StartKeepsInv(s: System, node: NodeId, id: JobId)
    requires Inv(s)
    ensures Inv(After(s, Start(node, id)))
  {
    if id !in s.registry.jobs && Existing(s.registry, node).None? {
      OpenedKeepsInv(s, node, id);
    }
  }

  lemma OpenedKeepsInv(s: System, node: NodeId, id: JobId)
    requires Inv(s) && id !in s.registry.jobs && Existing(s.registry, node).None?
    ensures Inv(System(Opened(s.registry, node, id), s.workers[id := Created]))
  {
    var after := System(Opened(s.registry, node, id), s.workers[id := Created]);
    assert after.workers.Keys == after.registry.jobs.Keys;
    forall j | j in after.registry.jobs
      ensures ActiveJob(after, j) && !At(after, j, Finished) ==> Registered(after, j)
      ensures At(after, j, Finished) ==> !Registered(after, j)
    {
      OpenedKeepsJob(s, node, id, j);
    }
  }

  lemma OpenedKeepsJob(s: System, node: NodeId, id: JobId, j: JobId)
    requires Inv(s) && id !in s.registry.jobs && Existing(s.registry, node).None?
    requires j == id || j in s.registry.jobs
    ensures var after := System(Opened(s.registry, node, id), s.workers[id := Created]);
            && j in after.registry.jobs
            && (ActiveJob(after, j) && !At(after, j, Finished) ==> Registered(after, j))
            && (At(after, j, Finished) ==> !Registered(after, j))
  {
    if j != id && ActiveJob(s, j) && !At(s, j, Finished) {
      assert Registered(s, j);
    }
  }

  lemma LeaveKeepsInv(s: System, id: JobId)
    requires Inv(s)
    ensures Inv(After(s, Leave(id)))
  {
  }

  lemma StepKeepsInv(s: System, e: Event)
    requires Inv(s)
    ensures Inv(After(s, e))
  {
    if e.Start? {
      StartKeepsInv(s, e.node, e.id);
    } else if e.Leave? {
      LeaveKeepsInv(s, e.id);
    } else if Enabled(s, e) {
      WorkerStepTouches(s, e);
      TouchKeepsInv(s, After(s, e), e.id);
    }
  }

  lemma {:induction false} InvOverRuns(events: seq<Event>)
    ensures Inv(Run(EMPTY, events))
  {
    if events != [] {
      InvOverRuns(events[..|events| - 1]);
      StepKeepsInv(Run(EMPTY, events[..|events| - 1]), events[|events| - 1]);
    }
  }

  predicate LeftActive(s: System, id: JobId) {
    (At(s, id, Leaving) || At(s, id, Finished)) && ActiveJob(s, id)
  }

  lemma OnlyUnrecordedFailuresAbandon(s: System, e: Event, id: JobId)
    requires Inv(s) && !LeftActive(s, id) && LeftActive(After(s, e), id)
    ensures e == HandlerRaises(id) || e == Interrupt(id)
  {
  }

  /** The job's failure was not recorded: its handler raised, or an exception passed the handler by. */
  predicate Unrecorded(events: seq<Event>, id: JobId) {
    HandlerRaises(id) in events || Interrupt(id) in events
  }

  /** A job is abandoned only by a failure that was not recorded. */
  lemma {:induction false} AbandonedByUnrecordedFailure(events: seq<Event>, id: JobId)
    requires LeftActive(Run(EMPTY, events), id)
    ensures Unrecorded(events, id)
  {
    if events != [] {
      var earlier := events[..|events| - 1];
      var s := Run(EMPTY, earlier);
      InvOverRuns(earlier);
      if LeftActive(s, id) {
        AbandonedByUnrecordedFailure(earlier, id);
      } else {
        OnlyUnrecordedFailuresAbandon(s, events[|events| - 1], id);
      }
    }
  }

  ghost predicate Exclusive(s: System, node: NodeId) {
    forall a, b ::
        ActiveJob(s, a) && ActiveJob(s, b) && s.registry.jobs[a].node == node == s.registry.jobs[b].node ==> a == b
  }

  /** Two jobs of a node are active together only if the failure of one of them was not recorded. */
  lemma TwoActiveNeedAnUnrecordedFailure(events: seq<Event>, a: JobId, b: JobId)
    requires var s := Run(EMPTY, events);
             a != b && ActiveJob(s, a) && ActiveJob(s, b) && s.registry.jobs[a].node == s.registry.jobs[b].node
    ensures Unrecorded(events, a) || Unrecorded(events, b)
  {
    InvOverRuns(events);
    if At(Run(EMPTY, events), a, Finished) {
      AbandonedByUnrecordedFailure(events, a);
    } else {
      AbandonedByUnrecordedFailure(events, b);
    }
  }

  /** Install mutual exclusion over every interleaving in which every failure is recorded. */
  lemma InstallsExcludeEachOther(events: seq<Event>, node: NodeId)
    requires forall id :: !Unrecorded(events, id)
    ensures Exclusive(Run(EMPTY, events), node)
    ensures forall id :: ActiveJob(Run(EMPTY, events), id) ==> Registered(Run(EMPTY, events), id)
  {
    var s := Run(EMPTY, events);
    InvOverRuns(events);
    forall id | ActiveJob(s, id)
      ensures Registered(s, id)
    {
      if At(s, id, Finished) {
        AbandonedByUnrecordedFailure(events, id);
      }
    }
  }

  /** A start request on a node keeps its installs exclusive unless it opens a job beside an abandoned one. */
  lemma StartIsExclusiveExactly(s: System, node: NodeId, id: JobId)
    requires Inv(s) && Exclusive(s, node) && id !in s.registry.jobs
    ensures Exclusive(After(s, Start(node, id)), node) <==>
            Existing(s.registry, node).Some? || !exists j :: Abandoned(s, j) && s.registry.jobs[j].node == node
  {
    var after := After(s, Start(node, id));
    if Existing(s.registry, node).None? {
      if j :| Abandoned(s, j) && s.registry.jobs[j].node == node {
        assert ActiveJob(after, j) && ActiveJob(after, id);
      }
    }
  }

  /** Whenever a handler runs, its raising lets the next request open a second job beside its own. */
  lemma RaisingHandlerBreaksExclusion(s: System, a: JobId, b: JobId)
    requires Inv(s) && At(s, a, Handling) && b !in s.registry.jobs
    ensures var node := s.registry.jobs[a].node;
            !Exclusive(After(After(After(s, HandlerRaises(a)), Leave(a)), Start(node, b)), node)
  {
    var node := s.registry.jobs[a].node;
    var after := After(After(After(s, HandlerRaises(a)), Leave(a)), Start(node, b));
    assert Registered(s, a);
    assert ActiveJob(after, a) && ActiveJob(after, b);
  }

  lemma RunStep(s: System, events: seq<Event>, e: Event)
    ensures Run(s, events + [e]) == After(Run(s, events), e)
  {
    assert (events + [e])[..|events|] == events;
  }

  lemma MarkedIsReached(node: NodeId, a: JobId) returns (events: seq<Event>)
    ensures var s := Run(EMPTY, events);
            At(s, a, Marked) && s.registry.jobs.Keys == {a} && s.registry.jobs[a].node == node
  {
    events := [Start(node, a)] + [Fetch(a)] + [MarkRunning(a)];
    assert [] + [Start(node, a)] == [Start(node, a)];
    RunStep(EMPTY, [], Start(node, a));
    RunStep(EMPTY, [Start(node, a)], Fetch(a));
    RunStep(EMPTY, [Start(node, a)] + [Fetch(a)], MarkRunning(a));
  }

  /** A first install of a node can get as far as its failure handler. */
  lemma HandlerIsReached(node: NodeId, a: JobId) returns (events: seq<Event>)
    ensures var s := Run(EMPTY, events);
            At(s, a, Handling) && s.registry.jobs.Keys == {a} && s.registry.jobs[a].node == node
  {
    var begun := MarkedIsReached(node, a);
    events := begun + [OpenSession(a)] + [Raise(a)];
    RunStep(EMPTY, begun, OpenSession(a));
    RunStep(EMPTY, begun + [OpenSession(a)], Raise(a));
  }

  /** A run of the code in which two jobs of one node are active together. */
  lemma TwoInstallsAtOnce(node: NodeId, a: JobId, b: JobId)
    requires a != b
    ensures exists events :: !Exclusive(Run(EMPTY, events), node)
  {
    var begun := HandlerIsReached(node, a);
    InvOverRuns(begun);
    RaisingHandlerBreaksExclusion(Run(EMPTY, begun), a, b);
    RunStep(EMPTY, begun, HandlerRaises(a));
    RunStep(EMPTY, begun + [HandlerRaises(a)], Leave(a));
    RunStep(EMPTY, begun + [HandlerRaises(a)] + [Leave(a)], Start(node, b));
    assert !Exclusive(Run(EMPTY, begun + [HandlerRaises(a)] + [Leave(a)] + [Start(node, b)]), node);
  }

  // ---------- status and cleanup ----------

  predicate Forward(before: JobStatus, after: JobStatus) {
    || before == after
    || (before == Pending && after == Running)
    || (before == Running && (after == JobStatus.Success || after == Failed))
  }

  /** One step moves a status forward, keeps the node of a job, and only adds to its log. */
  lemma StatusMovesForward(s: System, e: Event, id: JobId)
    requires Inv(s) && id in s.registry.jobs
    ensures id in After(s, e).registry.jobs
    ensures var before, after := s.registry.jobs[id], After(s, e).registry.jobs[id];
            Forward(before.status, after.status) && before.node == after.node && before.logs <= after.logs
  {
    JobsOtherwiseKept(s, e, id);
    if Enabled(s, e) && !e.Start? && !e.Leave? && e.id == id {
      OwnJobMovesForward(s, e);
    }
  }

  /** Only the steps of its own worker change a job. */
  lemma JobsOtherwiseKept(s: System, e: Event, id: JobId)
    requires Inv(s) && id in s.registry.jobs
    ensures id in After(s, e).registry.jobs
    ensures !Enabled(s, e) || e.Start? || e.Leave? || e.id != id ==>
            After(s, e).registry.jobs[id] == s.registry.jobs[id]
  {
    if Enabled(s, e) && !e.Start? && !e.Leave? {
      WorkerStepTouches(s, e);
    }
  }

  lemma OwnJobMovesForward(s: System, e: Event)
    requires Inv(s) && Enabled(s, e) && !e.Start? && !e.Leave?
    ensures e.id in s.registry.jobs && e.id in After(s, e).registry.jobs
    ensures var before, after := s.registry.jobs[e.id], After(s, e).registry.jobs[e.id];
            && Forward(before.status, after.status) && before.node == after.node && before.logs <= after.logs
            && (!Active(before.status) ==> after == before)
  {
  }

  lemma FinishedJobStays(s: System, e: Event, id: JobId)
    requires Inv(s) && id in s.registry.jobs && !Active(s.registry.jobs[id].status)
    ensures id in After(s, e).registry.jobs && After(s, e).registry.jobs[id] == s.registry.jobs[id]
  {
    JobsOtherwiseKept(s, e, id);
    if Enabled(s, e) && !e.Start? && !e.Leave? && e.id == id {
      OwnJobMovesForward(s, e);
    }
  }

  /** A finished job stays as it is over the rest of the run, logs included. */
  lemma {:induction false} FinishedForGood(s: System, events: seq<Event>, id: JobId)
    requires Inv(s) && id in s.registry.jobs && !Active(s.registry.jobs[id].status)
    ensures Inv(Run(s, events))
    ensures id in Run(s, events).registry.jobs && Run(s, events).registry.jobs[id] == s.registry.jobs[id]
  {
    if events != [] {
      var earlier := events[..|events| - 1];
      FinishedForGood(s, earlier, id);
      StepKeepsInv(Run(s, earlier), events[|events| - 1]);
      FinishedJobStays(Run(s, earlier), events[|events| - 1], id);
    }
  }

  // ---------- what a status says about the run ----------

  /** Event `i` of the run is `e`, and it happened: its worker was where the event needs it. */
  ghost predicate Took(events: seq<Event>, i: int, e: Event) {
    0 <= i < |events| && events[i] == e && Enabled(Run(EMPTY, events[..i]), e)
  }

  predicate EndsJob(e: Event, id: JobId) {
    e.id == id && (e.NodeMissing? || e.Installed? || e.NotInstalled? || e.HandlerReturns?)
  }

  /** The job shows the end that the event brought. */
  predicate Shows(job: Job, e: Event) {
    match e
    case Installed(_, row) =>
      && job.status == JobStatus.Success && job.result == Some(row) && job.error == None
      && job.step == "Installation finished"
    case NotInstalled(_, why, row) => job.status == Failed && job.error == Some(why) && job.result == Some(row)
    case HandlerReturns(_, why) => job.status == Failed && job.error == Some(why) && job.result == None
    case NodeMissing(_) => job.status == Failed && job.error == Some("Node not found") && job.result == None
    case _ => false
  }

  /** An active job has no error and no result yet, and has begun to run if it was marked. */
  predicate Unended(job: Job, marked: bool) {
    job.error == None && job.result == None && job.status == if marked then Running else Pending
  }

  ghost predicate WasMarked(events: seq<Event>, id: JobId) {
    exists i :: Took(events, i, MarkRunning(id))
  }

  /** What is known of job `id` after the run: its end if it had one, and otherwise that it had none. */
  ghost predicate Told(events: seq<Event>, id: JobId) {
    var s := Run(EMPTY, events);
    && (forall i :: Took(events, i, MarkRunning(id)) ==> id in s.registry.jobs)
    && (forall i, e :: Took(events, i, e) && EndsJob(e, id) ==>
          id in s.registry.jobs && Shows(s.registry.jobs[id], e))
    && (id in s.registry.jobs && Active(s.registry.jobs[id].status) ==>
          Unended(s.registry.jobs[id], WasMarked(events, id)))
    && (id in s.registry.jobs && !Active(s.registry.jobs[id].status) ==>
          exists i, e :: Took(events, i, e) && EndsJob(e, id))
  }

  lemma TookBefore(init: seq<Event>, last: Event, i: int, e: Event)
    ensures Took(init + [last], i, e) <==>
            Took(init, i, e) || (i == |init| && e == last && Enabled(Run(EMPTY, init), e))
  {
    var events := init + [last];
    if 0 <= i < |init| {
      assert events[..i] == init[..i];
    }
    assert events[..|init|] == init;
  }

  /** An enabled end of the job shows in it. */
  lemma EndShows(s: System, e: Event)
    requires Inv(s) && Enabled(s, e) && EndsJob(e, e.id) && e.id in s.registry.jobs
    requires s.registry.jobs[e.id].error == None && s.registry.jobs[e.id].result == None
    ensures e.id in After(s, e).registry.jobs && Shows(After(s, e).registry.jobs[e.id], e)
  {
  }

  /** Any other event leaves an active job unended. */
  lemma OtherKeepsUnended(s: System, e: Event, id: JobId, marked: bool)
    requires Inv(s) && id in s.registry.jobs && Active(s.registry.jobs[id].status)
    requires Unended(s.registry.jobs[id], marked) && !(Enabled(s, e) && EndsJob(e, id))
    ensures id in After(s, e).registry.jobs
    ensures Unended(After(s, e).registry.jobs[id], marked || (Enabled(s, e) && e == MarkRunning(id)))
  {
    JobsOtherwiseKept(s, e, id);
  }

  /** An end needs an active job. */
  lemma EndIsOfActive(s: System, e: Event, id: JobId)
    requires Inv(s) && Enabled(s, e) && (EndsJob(e, id) || e == MarkRunning(id))
    ensures id in s.registry.jobs && Active(s.registry.jobs[id].status)
  {
    assert id in s.workers;
  }

  lemma ToldOfNew(init: seq<Event>, last: Event, id: JobId)
    requires Told(init, id) && Inv(Run(EMPTY, init)) && id !in Run(EMPTY, init).registry.jobs
    ensures Told(init + [last], id)
  {
    var s := Run(EMPTY, init);
    RunStep(EMPTY, init, last);
    forall i, e | Took(init + [last], i, e) && (EndsJob(e, id) || e == MarkRunning(id))
      ensures false
    {
      TookBefore(init, last, i, e);
      if i == |init| {
        EndIsOfActive(s, e, id);
      }
    }
    NewJobIsUnended(s, last, id);
  }

  lemma NewJobIsUnended(s: System, e: Event, id: JobId)
    requires Inv(s) && id !in s.registry.jobs
    ensures id in After(s, e).registry.jobs ==> Unended(After(s, e).registry.jobs[id], false)
  {
    if Enabled(s, e) && !e.Start? {
      assert e.id in s.workers;
    }
  }

  lemma ToldOfEnding(init: seq<Event>, last: Event, id: JobId)
    requires Told(init, id) && Inv(Run(EMPTY, init)) && Enabled(Run(EMPTY, init), last) && EndsJob(last, id)
    ensures Told(init + [last], id)
  {
    var s := Run(EMPTY, init);
    RunStep(EMPTY, init, last);
    EndIsOfActive(s, last, id);
    EndShows(s, last);
    TookBefore(init, last, |init|, last);
    forall i, e | Took(init + [last], i, e) && EndsJob(e, id)
      ensures e == last
    {
      TookBefore(init, last, i, e);
    }
  }

  lemma ToldOfActive(init: seq<Event>, last: Event, id: JobId)
    requires Told(init, id) && Inv(Run(EMPTY, init)) && ActiveJob(Run(EMPTY, init), id)
    requires !(Enabled(Run(EMPTY, init), last) && EndsJob(last, id))
    ensures Told(init + [last], id)
  {
    var s := Run(EMPTY, init);
    RunStep(EMPTY, init, last);
    OtherKeepsUnended(s, last, id, WasMarked(init, id));
    MarkedOneMore(init, last, id);
    forall i, e | Took(init + [last], i, e) && EndsJob(e, id)
      ensures false
    {
      TookBefore(init, last, i, e);
    }
  }

  lemma MarkedOneMore(init: seq<Event>, last: Event, id: JobId)
    ensures WasMarked(init + [last], id) <==>
            WasMarked(init, id) || (Enabled(Run(EMPTY, init), last) && last == MarkRunning(id))
  {
    forall i
      ensures Took(init + [last], i, MarkRunning(id)) <==>
              Took(init, i, MarkRunning(id))
              || (i == |init| && MarkRunning(id) == last && Enabled(Run(EMPTY, init), last))
    {
      TookBefore(init, last, i, MarkRunning(id));
    }
    assert Took(init + [last], |init|, MarkRunning(id)) <==>
           MarkRunning(id) == last && Enabled(Run(EMPTY, init), last);
  }

  lemma ToldOfEnded(init: seq<Event>, last: Event, id: JobId)
    requires Told(init, id) && Inv(Run(EMPTY, init))
    requires id in Run(EMPTY, init).registry.jobs && !ActiveJob(Run(EMPTY, init), id)
    ensures Told(init + [last], id)
  {
    var s := Run(EMPTY, init);
    RunStep(EMPTY, init, last);
    FinishedJobStays(s, last, id);
    var k, end :| Took(init, k, end) && EndsJob(end, id);
    TookBefore(init, last, k, end);
    forall i, e | Took(init + [last], i, e) && EndsJob(e, id)
      ensures Shows(s.registry.jobs[id], e)
    {
      TookBefore(init, last, i, e);
      if i == |init| {
        EndIsOfActive(s, e, id);
      }
    }
  }

  lemma ToldOnce(init: seq<Event>, last: Event, id: JobId)
    requires Told(init, id) && Inv(Run(EMPTY, init))
    ensures Told(init + [last], id)
  {
    var s := Run(EMPTY, init);
    if id !in s.registry.jobs {
      ToldOfNew(init, last, id);
    } else if Enabled(s, last) && EndsJob(last, id) {
      ToldOfEnding(init, last, id);
    } else if ActiveJob(s, id) {
      ToldOfActive(init, last, id);
    } else {
      ToldOfEnded(init, last, id);
    }
  }

  lemma {:induction false} EveryJobIsTold(events: seq<Event>, id: JobId)
    ensures Told(events, id)
  {
    if events != [] {
      var init, last := events[..|events| - 1], events[|events| - 1];
      assert events == init + [last];
      EveryJobIsTold(init, id);
      InvOverRuns(init);
      ToldOnce(init, last, id);
    }
  }

  /**
   Over every interleaving, a job reads success exactly if its installation came to its end well, failed
   exactly if a failure was recorded, and running exactly if it was marked and neither has happened.
   */
  lemma StatusTellsTheEnd(events: seq<Event>, id: JobId)
    requires id in Run(EMPTY, events).registry.jobs
    ensures var job := Run(EMPTY, events).registry.jobs[id];
            && (job.status == JobStatus.Success <==> exists i, row :: Took(events, i, Installed(id, row)))
            && (job.status == Failed <==> exists i, e :: Took(events, i, e) && EndsJob(e, id) && !e.Installed?)
            && (job.status == Running <==>
                (exists i :: Took(events, i, MarkRunning(id))) && !exists i, e :: Took(events, i, e) && EndsJob(e, id))
  {
    EveryJobIsTold(events, id);
    var job := Run(EMPTY, events).registry.jobs[id];
    EndIsInTheJob(events, id);
    if !Active(job.status) {
      var i, e :| Took(events, i, e) && EndsJob(e, id);
      assert e.Installed? ==> Took(events, i, Installed(id, e.row));
    }
  }

  /** An ended job has the row, the reason or both, as the event that ended it brought them. */
  lemma EndIsInTheJob(events: seq<Event>, id: JobId)
    requires id in Run(EMPTY, events).registry.jobs
    ensures var job := Run(EMPTY, events).registry.jobs[id];
            && (forall i, row :: Took(events, i, Installed(id, row)) ==>
                  job.status == JobStatus.Success && job.result == Some(row) && job.error == None)
            && (forall i, why, row :: Took(events, i, NotInstalled(id, why, row)) ==>
                  job.status == Failed && job.error == Some(why) && job.result == Some(row))
            && (forall i, why :: Took(events, i, HandlerReturns(id, why)) ==>
                  job.status == Failed && job.error == Some(why) && job.result == None)
            && (forall i :: Took(events, i, NodeMissing(id)) ==>
                  job.status == Failed && job.error == Some("Node not found") && job.result == None)
  {
    EveryJobIsTold(events, id);
  }

  /** The event was a step of this job: its opening, or an event of its worker other than a log entry. */
  predicate IsStepOf(s: System, e: Event, id: JobId) {
    e.id == id && !e.Log? && Enabled(s, e) && (e.Start? ==> Existing(s.registry, e.node).None?)
  }

  ghost function StepsOf(events: seq<Event>, id: JobId): seq<Event> {
    if events == [] then []
    else
      var init, last := events[..|events| - 1], events[|events| - 1];
      StepsOf(init, id) + if IsStepOf(Run(EMPTY, init), last, id) then [last] else []
  }

  /** The order of the source: what may come after a step of a worker. A worker may stop before any step. */
  predicate MayFollow(a: Event, b: Event) {
    match b
    case Start(_, _) => false
    case Fetch(_) => a.Start?
    case MarkRunning(_) => a.Fetch?
    case OpenSession(_) => a.MarkRunning?
    case Log(_, _, _) => false
    case NodeMissing(_) => a.OpenSession?
    case Installed(_, _) => a.OpenSession?
    case NotInstalled(_, _, _) => a.OpenSession?
    case Interrupt(_) => a.OpenSession?
    case Raise(_) => a.OpenSession?
    case HandlerReturns(_, _) => a.Raise?
    case HandlerRaises(_) => a.Raise?
    case Leave(_) =>
      a.NodeMissing? || a.Installed? || a.NotInstalled? || a.Interrupt? || a.HandlerReturns? || a.HandlerRaises?
    case Die(_) => !a.Leave?
  }

  function PlaceAfter(e: Event): Place {
    match e
    case Start(_, _) => Created
    case Fetch(_) => Fetched
    case MarkRunning(_) => Marked
    case OpenSession(_) => Working
    case Log(_, _, _) => Working
    case Raise(_) => Handling
    case Leave(_) => Finished
    case Die(_) => Dead
    case _ => Leaving
  }

  /** Where the worker is tells its last step. */
  ghost predicate StepsFit(s: System, steps: seq<Event>, id: JobId) {
    && (steps == [] <==> id !in s.workers)
    && (steps != [] ==> steps[0].Start? && At(s, id, PlaceAfter(steps[|steps| - 1])))
    && forall k :: 0 <= k < |steps| - 1 ==> MayFollow(steps[k], steps[k + 1])
  }

  lemma NextStep(s: System, e: Event, last: Event)
    requires At(s, e.id, PlaceAfter(last)) && !last.Log? && !e.Log? && !e.Start? && Enabled(s, e)
    ensures MayFollow(last, e) && At(After(s, e), e.id, PlaceAfter(e))
  {
  }

  lemma FirstStep(s: System, e: Event, id: JobId)
    requires Inv(s) && IsStepOf(s, e, id) && (e.Start? || id !in s.workers)
    ensures e.Start? && id !in s.workers && At(After(s, e), id, Created)
  {
    assert id in s.workers <==> id in s.registry.jobs;
  }

  lemma NoStepOf(s: System, e: Event, id: JobId)
    requires Inv(s) && !IsStepOf(s, e, id)
    ensures id in After(s, e).workers <==> id in s.workers
    ensures id in s.workers ==> After(s, e).workers[id] == s.workers[id]
  {
    assert id in s.workers <==> id in s.registry.jobs;
  }

  lemma StepFits(s: System, e: Event, steps: seq<Event>, id: JobId)
    requires Inv(s) && StepsFit(s, steps, id)
    requires forall k :: 0 <= k < |steps| ==> steps[k].id == id && !steps[k].Log?
    ensures StepsFit(After(s, e), steps + (if IsStepOf(s, e, id) then [e] else []), id)
  {
    if !IsStepOf(s, e, id) {
      NoStepOf(s, e, id);
      assert steps + [] == steps;
    } else if steps == [] {
      FirstStep(s, e, id);
    } else if e.Start? {
      FirstStep(s, e, id);
      assert false;
    } else {
      NextStep(s, e, steps[|steps| - 1]);
    }
  }

  /** The steps of a job, in any interleaving with the others, are its opening and the program of the worker. */
  lemma {:induction false} WorkersKeepTheOrder(events: seq<Event>, id: JobId)
    ensures StepsFit(Run(EMPTY, events), StepsOf(events, id), id)
    ensures forall k :: 0 <= k < |StepsOf(events, id)| ==>
              StepsOf(events, id)[k].id == id && !StepsOf(events, id)[k].Log?
  {
    if events != [] {
      var init, last := events[..|events| - 1], events[|events| - 1];
      WorkersKeepTheOrder(init, id);
      InvOverRuns(init);
      StepFits(Run(EMPTY, init), last, StepsOf(init, id), id);
    }
  }

  /** The entries of the log events of a job, in order. */
  ghost function Entries(events: seq<Event>, id: JobId): seq<string> {
    if events == [] then []
    else
      var init, last := events[..|events| - 1], events[|events| - 1];
      Entries(init, id)
      + (if last.Log? && last.id == id && At(Run(EMPTY, init), id, Working) then [last.entry] else [])
  }

  /** Over every interleaving, the log of a job holds the entries of its own log events, in order. */
  lemma {:induction false} LogHoldsItsEntries(events: seq<Event>, id: JobId)
    ensures var jobs := Run(EMPTY, events).registry.jobs;
            Entries(events, id) == if id in jobs then jobs[id].logs else []
  {
    if events != [] {
      var init, last := events[..|events| - 1], events[|events| - 1];
      LogHoldsItsEntries(init, id);
      InvOverRuns(init);
      LogOneMore(Run(EMPTY, init), last, id);
    }
  }

  lemma LogOneMore(s: System, e: Event, id: JobId)
    requires Inv(s)
    ensures var before := if id in s.registry.jobs then s.registry.jobs[id].logs else [];
            var jobs := After(s, e).registry.jobs;
            (if id in jobs then jobs[id].logs else []) ==
            before + (if e.Log? && e.id == id && At(s, id, Working) then [e.entry] else [])
  {
    if id in s.registry.jobs {
      JobsOtherwiseKept(s, e, id);
    } else {
      NewJobLog(s, e, id);
    }
  }

  /** The step that an event tells the user. */
  function StepTold(e: Event): Option<string> {
    match e
    case Start(_, _) => Some("Connecting to the server")
    case MarkRunning(_) => Some("Connecting to the server")
    case Log(_, _, step) => step
    case Installed(_, _) => Some("Installation finished")
    case NodeMissing(_) => Some("Installation not finished")
    case NotInstalled(_, _, _) => Some("Installation not finished")
    case HandlerReturns(_, _) => Some("Installation not finished")
    case _ => None
  }

  /** The step that the last event of the job told. */
  ghost function LastTold(events: seq<Event>, id: JobId): Option<string> {
    if events == [] then None
    else
      var init, last := events[..|events| - 1], events[|events| - 1];
      var s := Run(EMPTY, init);
      var happened := last.id == id && Enabled(s, last) && (last.Start? ==> Existing(s.registry, last.node).None?);
      if happened && StepTold(last).Some? then StepTold(last) else LastTold(init, id)
  }

  /** Over every interleaving, the step of a job is the one told last. */
  lemma {:induction false} StepIsLastTold(events: seq<Event>, id: JobId)
    ensures var jobs := Run(EMPTY, events).registry.jobs;
            LastTold(events, id) == if id in jobs then Some(jobs[id].step) else None
  {
    if events != [] {
      var init, last := events[..|events| - 1], events[|events| - 1];
      StepIsLastTold(init, id);
      InvOverRuns(init);
      StepOneMore(Run(EMPTY, init), last, id);
    }
  }

  lemma StepOneMore(s: System, e: Event, id: JobId)
    requires Inv(s)
    ensures var before := if id in s.registry.jobs then Some(s.registry.jobs[id].step) else None;
            var jobs := After(s, e).registry.jobs;
            var happened := e.id == id && Enabled(s, e) && (e.Start? ==> Existing(s.registry, e.node).None?);
            (if id in jobs then Some(jobs[id].step) else None) ==
            (if happened && StepTold(e).Some? then StepTold(e) else before)
  {
    assert id in s.workers <==> id in s.registry.jobs;
    if id in s.registry.jobs {
      JobsOtherwiseKept(s, e, id);
    }
  }

  lemma NewJobLog(s: System, e: Event, id: JobId)
    requires Inv(s) && id !in s.registry.jobs
    ensures !At(s, id, Working)
    ensures id in After(s, e).registry.jobs ==> After(s, e).registry.jobs[id].logs == []
  {
    if Enabled(s, e) && !e.Start? {
      assert e.id in s.workers;
    }
  }

  /** A late worker's cleanup removes no other job from the running map. */
  lemma CleanupEvictsNoOther(s: System, late: JobId, other: JobId)
    requires Inv(s) && late != other && other in s.registry.jobs && Registered(s, other)
    ensures Registered(After(s, Leave(late)), other)
  {
  }

  /** After the cleanup of a job that ended, the node accepts a new one exactly if no newer job is active. */
  lemma NodeIsFreeAfterCleanup(s: System, id: JobId, newId: JobId)
    requires Inv(s) && At(s, id, Leaving) && !ActiveJob(s, id) && newId !in s.registry.jobs
    ensures var node, after := s.registry.jobs[id].node, After(s, Leave(id));
            newId in After(after, Start(node, newId)).registry.jobs <==>
            !exists j :: ActiveJob(s, j) && !At(s, j, Finished) && s.registry.jobs[j].node == node
  {
  }

  lemma DeadStaysDead(s: System, e: Event, id: JobId)
    requires Inv(s) && At(s, id, Dead) && ActiveJob(s, id)
    ensures At(After(s, e), id, Dead) && After(s, e).registry.jobs[id] == s.registry.jobs[id]
  {
  }

  /**
   A worker that stops before the end leaves its job active for good: over every later
   run, each start request on the node is answered with that job.
   */
  lemma {:induction false} DeadWorkerBlocksItsNode(s: System, events: seq<Event>, id: JobId)
    requires Inv(s) && At(s, id, Dead) && ActiveJob(s, id)
    ensures Inv(Run(s, events)) && At(Run(s, events), id, Dead)
    ensures id in Run(s, events).registry.jobs && Run(s, events).registry.jobs[id] == s.registry.jobs[id]
    ensures Existing(Run(s, events).registry, s.registry.jobs[id].node) == Some(id)
  {
    if events != [] {
      var earlier := events[..|events| - 1];
      DeadWorkerBlocksItsNode(s, earlier, id);
      StepKeepsInv(Run(s, earlier), events[|events| - 1]);
      DeadStaysDead(Run(s, earlier), events[|events| - 1], id);
    }
    assert Registered(Run(s, events), id);
  }
}
