/**
 * `AmbariHostGroupImpl`: the member spec chosen at `init`, the grow path of
 * `resizeByDelta` and the reduction of a failed extra-services task to one
 * `ExtraServiceException`.
 *
 * The cluster around the group (`getAmbariCluster()`) is a value: the nodes
 * whose hosts files are rewritten, whether the cluster is complete, and the
 * outcomes the extra-services tasks and the host registration produce.
 */
module HostGroup {
  import opened Wrappers
  import opened Throwables
  import opened ParallelTasks
  import opened Entities

  // ---------------------------------------------------------------------------
  // init: the member spec

  /** Entity specs, as far as the host group builds them. */
  datatype Spec =
    | AgentSpec                        // AmbariAgentImpl.createAgentSpec(...)
    | SameServerSpec(children: seq<Spec>)
    | SiblingSpec(name: string)        // the configured `siblingSpec`, opaque here

  /** The member spec `init` installs: a bare agent, or an agent and the sibling on one server. */
  function MemberSpec(siblingSpec: Option<string>): (s: Spec)
    ensures s == AgentSpec <==> siblingSpec.None?
    ensures siblingSpec.Some? ==> s.SameServerSpec? && s.children == [AgentSpec, SiblingSpec(siblingSpec.value)]
  {
    match siblingSpec
    case None => AgentSpec
    case Some(s) => SameServerSpec([AgentSpec, SiblingSpec(s)])
  }

  /** `e` is an entity created from `s`; a sibling holds no Ambari agent. */
  predicate Realises(e: Entity, s: Spec)
    decreases s, 1
  {
    match s
    case AgentSpec => e.AgentEntity?
    case SameServerSpec(cs) => e.Container? && RealisesAll(e.children, cs)
    case SiblingSpec(_) => e.Container? && AgentsInAll(e.children) == []
  }

  predicate RealisesAll(es: seq<Entity>, ss: seq<Spec>)
    decreases ss, 0
  {
    |es| == |ss| && forall i | 0 <= i < |ss| :: Realises(es[i], ss[i])
  }

  /** Every member built from the member spec, with or without a sibling, holds exactly one agent. */
  lemma MemberHoldsOneAgent(e: Entity, siblingSpec: Option<string>)
    requires Realises(e, MemberSpec(siblingSpec))
    ensures |AgentsIn(e)| == 1
  {
    match siblingSpec
    case None =>
    case Some(s) =>
      var cs := e.children;
      assert Realises(cs[0], AgentSpec) && Realises(cs[1], SiblingSpec(s));
      assert cs == [cs[0]] + [cs[1]];
      AgentsInAllConcat([cs[0]], [cs[1]]);
      assert AgentsInAll([cs[1]]) == AgentsIn(cs[1]);
  }

  /** So the agents found among `n` new members number exactly `n`. */
  lemma {:induction false} NewMembersYieldOneAgentEach(grown: seq<Entity>, siblingSpec: Option<string>)
    requires forall i | 0 <= i < |grown| :: Realises(grown[i], MemberSpec(siblingSpec))
    ensures |AgentsInAll(grown)| == |grown|
    decreases |grown|
  {
    if |grown| > 0 {
      MemberHoldsOneAgent(grown[0], siblingSpec);
      NewMembersYieldOneAgentEach(grown[1..], siblingSpec);
    }
  }

  // ---------------------------------------------------------------------------
  // runExtraServicesTasks: one ExtraServiceException per failed task

  /**
   * The catch block of `runExtraServicesTasks`: rethrow the root cause when it
   * is an `ExtraServiceException`, otherwise wrap the caught exception's own
   * message in a new one.
   */
  function ReduceFailure(ex: Exn): (r: Exn)
    ensures r.kind == ExtraServiceError && r.cause.None?
  {
    var root := RootCause(ex);
    RootCauseIsDeepest(ex);
    if root.Some? && root.value.kind == ExtraServiceError then root.value
    else ServiceError(ex.message)
  }

  /** A service error at the bottom of a cause chain is rethrown as that very exception. */
  lemma ReduceRethrowsServiceRoot(ex: Exn)
    requires ex.cause.Some? && Deepest(ex).kind == ExtraServiceError
    ensures ReduceFailure(ex) == Deepest(ex)
  {
    RootCauseIsDeepest(ex);
  }

  /** Any other failure, causeless ones included, becomes a new service error with the outer message. */
  lemma ReduceWrapsOuterMessage(ex: Exn)
    requires ex.cause.None? || Deepest(ex).kind != ExtraServiceError
    ensures ReduceFailure(ex) == ServiceError(ex.message)
  {
    RootCauseIsDeepest(ex);
  }

  /** `runExtraServicesTasks`: wait for the task; on failure throw exactly one service error. */
  function RunExtraServicesTasks(run: ParallelRun): (r: Option<Exn>)
    ensures r.None? <==> run.Joined? && forall j | 0 <= j < |run.items| :: run.items[j].Succeeded?
    ensures r.Some? ==> r.value.kind == ExtraServiceError
  {
    match Get(run)
    case None => None
    case Some(ex) => Some(ReduceFailure(ex))
  }

  /**
   * When the first failing item's root cause is a service error, the caller
   * sees exactly that exception; otherwise a new service error carrying the
   * `ExecutionException` message, which is the failing item's `toString()`.
   */
  lemma RunReportsFirstFailure(items: seq<ItemOutcome>, i: nat)
    requires i < |items| && items[i].Raised?
    requires forall j | 0 <= j < i :: items[j].Succeeded?
    ensures Deepest(items[i].exn).kind == ExtraServiceError ==>
      RunExtraServicesTasks(Joined(items)) == Some(Deepest(items[i].exn))
    ensures Deepest(items[i].exn).kind != ExtraServiceError ==>
      RunExtraServicesTasks(Joined(items)) == Some(ServiceError(Describe(items[i].exn)))
  {
    var f := items[i].exn;
    GetReportsFirstFailure(items, i);
    var ex := Exn(ExecutionError, Describe(f), Some(f));
    WrappedRootCause(ExecutionError, Describe(f), f);
    if Deepest(f).kind == ExtraServiceError {
      ReduceRethrowsServiceRoot(ex);
    } else {
      ReduceWrapsOuterMessage(ex);
    }
  }

  /** An interrupted wait has no cause, so it becomes a service error with the interruption's message. */
  lemma RunInterrupted(message: string)
    ensures RunExtraServicesTasks(Interrupted(message)) == Some(ServiceError(message))
  {
    ReduceWrapsOuterMessage(Exn(InterruptedError, message, None));
  }

  // ---------------------------------------------------------------------------
  // resizeByDelta

  datatype ScalePhase = PreScale | PostScale

  /** The observable steps of a grow, in the order they are attempted. */
  datatype ScaleEvent =
    | SetHosts(nodes: seq<string>, addressSensor: string)   // EtcHostsManager.setHostsOnMachines
    | Pre(agents: seq<Agent>)                                // "Pre-scale tasks"
    | Add(hostGroup: string, agents: seq<Agent>)             // addHostsToHostGroup
    | Post(agents: seq<Agent>)                               // "Post-scale tasks"

  /** How a call ends: it returns the entities, or it throws. */
  datatype Completion = Returned(entities: seq<Entity>) | Threw(exn: Exn)

  datatype ResizeOutcome = ResizeOutcome(trace: seq<ScaleEvent>, completion: Completion)

  datatype AmbariHostGroup = AmbariHostGroup(displayName: string, etcHostAddress: string)

  /**
   * The enclosing cluster, as the grow path uses it: its Ambari nodes, the
   * completeness check, the outcome of the extra-services task of each phase
   * for a given agent list, and the error (if any) of host registration.
   */
  datatype AmbariCluster = AmbariCluster(
    ambariNodes: seq<string>,
    complete: bool,
    scaleTasks: (ScalePhase, seq<Agent>) -> ParallelRun,
    addHostsToHostGroup: (string, seq<Agent>) -> Option<Exn>)

  /** The full sequence a grow of a complete cluster goes through. */
  function GrowTrace(g: AmbariHostGroup, cluster: AmbariCluster, agents: seq<Agent>): seq<ScaleEvent> {
    [SetHosts(cluster.ambariNodes, g.etcHostAddress), Pre(agents), Add(g.displayName, agents), Post(agents)]
  }

  predicate IsPrefix<T(==)>(xs: seq<T>, ys: seq<T>) {
    |xs| <= |ys| && xs == ys[..|xs|]
  }

  /**
   * `resizeByDelta(delta)` after the superclass has returned `grown`. A
   * non-positive delta does nothing more; a positive one rewrites the hosts
   * files of every Ambari node and, only on a complete cluster, runs the
   * pre-scale tasks, registers the new agents and runs the post-scale tasks,
   * stopping at the first failure.
   */
  function ResizeByDelta(g: AmbariHostGroup, delta: int, grown: seq<Entity>, cluster: AmbariCluster): (r: ResizeOutcome)
    ensures delta <= 0 ==> r == ResizeOutcome([], Returned(grown))
    ensures delta > 0 ==> 1 <= |r.trace| && r.trace[0] == SetHosts(cluster.ambariNodes, g.etcHostAddress)
    ensures IsPrefix(r.trace, GrowTrace(g, cluster, AgentsInAll(grown)))
    ensures r.completion.Returned? ==> r.completion.entities == grown
    ensures r.completion.Threw? ==> delta > 0 && cluster.complete && 2 <= |r.trace|
    ensures 2 <= |r.trace| < 4 ==> r.completion.Threw?
  {
    if delta <= 0 then ResizeOutcome([], Returned(grown))
    else
      var setHosts := SetHosts(cluster.ambariNodes, g.etcHostAddress);
      if !cluster.complete then ResizeOutcome([setHosts], Returned(grown))
      else
        var agents := AgentsInAll(grown);
        var pre := RunExtraServicesTasks(cluster.scaleTasks(PreScale, agents));
        if pre.Some? then ResizeOutcome([setHosts, Pre(agents)], Threw(pre.value))
        else
          var added := cluster.addHostsToHostGroup(g.displayName, agents);
          if added.Some? then ResizeOutcome([setHosts, Pre(agents), Add(g.displayName, agents)], Threw(added.value))
          else
            var post := RunExtraServicesTasks(cluster.scaleTasks(PostScale, agents));
            var trace := GrowTrace(g, cluster, agents);
            if post.Some? then ResizeOutcome(trace, Threw(post.value)) else ResizeOutcome(trace, Returned(grown))
  }

  /** A grow of an incomplete cluster rewrites the hosts files and stops there, without an error. */
  lemma IncompleteClusterSkipsHooks(g: AmbariHostGroup, delta: int, grown: seq<Entity>, cluster: AmbariCluster)
    requires delta > 0 && !cluster.complete
    ensures ResizeByDelta(g, delta, grown, cluster) ==
      ResizeOutcome([SetHosts(cluster.ambariNodes, g.etcHostAddress)], Returned(grown))
  {
  }

  /** Hooks and registration happen exactly when a positive delta meets a complete cluster. */
  lemma HooksRunOnlyOnCompleteGrow(g: AmbariHostGroup, delta: int, grown: seq<Entity>, cluster: AmbariCluster)
    ensures var t := ResizeByDelta(g, delta, grown, cluster).trace;
      (exists k | 0 <= k < |t| :: t[k].Pre?) <==> delta > 0 && cluster.complete
  {
    var t := ResizeByDelta(g, delta, grown, cluster).trace;
    if delta > 0 && cluster.complete {
      assert t[1].Pre?;
    }
  }

  /**
   * When the pre-scale task and the registration both succeed, the grow goes
   * through all four steps over the new agents, and it returns the entities
   * exactly when the post-scale task succeeds; otherwise it throws what that
   * task reported.
   */
  lemma SuccessfulCompleteGrow(g: AmbariHostGroup, delta: int, grown: seq<Entity>, cluster: AmbariCluster)
    requires delta > 0 && cluster.complete
    requires RunExtraServicesTasks(cluster.scaleTasks(PreScale, AgentsInAll(grown))).None?
    requires cluster.addHostsToHostGroup(g.displayName, AgentsInAll(grown)).None?
    ensures var r := ResizeByDelta(g, delta, grown, cluster);
      var post := RunExtraServicesTasks(cluster.scaleTasks(PostScale, AgentsInAll(grown)));
      r.trace == GrowTrace(g, cluster, AgentsInAll(grown)) &&
      (r.completion == Returned(grown) <==> post.None?) &&
      (r.completion.Threw? ==> post == Some(r.completion.exn))
  {
  }

  /** Conversely, a grow of a complete cluster that returns normally went through all four steps. */
  lemma ReturnedGrowRanAllSteps(g: AmbariHostGroup, delta: int, grown: seq<Entity>, cluster: AmbariCluster)
    requires delta > 0 && cluster.complete
    requires ResizeByDelta(g, delta, grown, cluster).completion.Returned?
    ensures ResizeByDelta(g, delta, grown, cluster).trace == GrowTrace(g, cluster, AgentsInAll(grown))
  {
  }

  /** The pre-scale, registration and post-scale steps all see the same agents: those of this resize only. */
  lemma HooksScopedToNewAgents(g: AmbariHostGroup, delta: int, grown: seq<Entity>, cluster: AmbariCluster)
    ensures var t := ResizeByDelta(g, delta, grown, cluster).trace;
      forall k | 0 <= k < |t| && !t[k].SetHosts? :: t[k].agents == AgentsInAll(grown)
  {
    var t := ResizeByDelta(g, delta, grown, cluster).trace;
    assert IsPrefix(t, GrowTrace(g, cluster, AgentsInAll(grown)));
  }

  /**
   * A failed pre-scale task is what the caller sees, and neither registration
   * nor the post-scale task runs.
   */
  lemma PreScaleFailureStops(g: AmbariHostGroup, delta: int, grown: seq<Entity>, cluster: AmbariCluster)
    requires delta > 0 && cluster.complete
    requires RunExtraServicesTasks(cluster.scaleTasks(PreScale, AgentsInAll(grown))).Some?
    ensures var r := ResizeByDelta(g, delta, grown, cluster);
      r.trace == [SetHosts(cluster.ambariNodes, g.etcHostAddress), Pre(AgentsInAll(grown))] &&
      r.completion == Threw(RunExtraServicesTasks(cluster.scaleTasks(PreScale, AgentsInAll(grown))).value)
  {
  }

  /** A failed registration is what the caller sees, and the post-scale task does not run. */
  lemma RegistrationFailureStops(g: AmbariHostGroup, delta: int, grown: seq<Entity>, cluster: AmbariCluster)
    requires delta > 0 && cluster.complete
    requires RunExtraServicesTasks(cluster.scaleTasks(PreScale, AgentsInAll(grown))).None?
    requires cluster.addHostsToHostGroup(g.displayName, AgentsInAll(grown)).Some?
    ensures var r := ResizeByDelta(g, delta, grown, cluster);
      |r.trace| == 3 && r.trace[2] == Add(g.displayName, AgentsInAll(grown)) &&
      r.completion == Threw(cluster.addHostsToHostGroup(g.displayName, AgentsInAll(grown)).value)
  {
  }

  /**
   * A service error raised by the first failing item of the pre-scale task
   * reaches the caller of `resizeByDelta` as that very exception, and the
   * hosts are never registered.
   */
  lemma PreScaleServiceErrorSurfaces(g: AmbariHostGroup, delta: int, grown: seq<Entity>, cluster: AmbariCluster,
                                     items: seq<ItemOutcome>, i: nat)
    requires delta > 0 && cluster.complete
    requires cluster.scaleTasks(PreScale, AgentsInAll(grown)) == Joined(items)
    requires i < |items| && items[i].Raised? && forall j | 0 <= j < i :: items[j].Succeeded?
    requires Deepest(items[i].exn).kind == ExtraServiceError
    ensures var r := ResizeByDelta(g, delta, grown, cluster);
      r.completion == Threw(Deepest(items[i].exn)) &&
      forall k | 0 <= k < |r.trace| :: !r.trace[k].Add? && !r.trace[k].Post?
  {
    RunReportsFirstFailure(items, i);
  }
}
