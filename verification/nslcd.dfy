/**
 * The nslcd extra service (`NslcdImpl`): no configuration of its own, and a
 * pre-deploy hook that installs `ed` on the Ambari servers.
 */
module Nslcd {
  import opened Wrappers
  import opened Throwables
  import opened ParallelTasks
  import opened BashCommands
  import opened ExtraServices

  /** `NslcdServerRequirementsFunction`: sets no error key or description. */
  const ServerRequirementsTask := ServiceTask([InstallExecutable("ed")], None, None)

  /** `getAmbariConfig` contributes nothing. */
  function AmbariConfigOf(): (config: AmbariConfig)
    ensures |config| == 0
  {
    map[]
  }

  /**
   * `preClusterDeploy`: the requirements task over the servers only, waited
   * for; either checked exception becomes a service error with its message.
   */
  function PreClusterDeploy(cluster: ClusterNodes, submit: TaskRun -> ParallelRun): (h: HookResult)
    ensures h.runs == [TaskRun(ServerRequirementsTask, cluster.servers)]
    ensures h.error.None? <==> Get(submit(TaskRun(ServerRequirementsTask, cluster.servers))).None?
    ensures h.error.Some? ==>
      h.error.value == ServiceError(Get(submit(TaskRun(ServerRequirementsTask, cluster.servers))).value.message)
  {
    SubmitAndWait(TaskRun(ServerRequirementsTask, cluster.servers), submit)
  }

  /** `postClusterDeploy` does nothing. */
  function PostClusterDeploy(cluster: ClusterNodes, submit: TaskRun -> ParallelRun): (h: HookResult)
    ensures h.runs == [] && h.error.None?
  {
    NoOp
  }

  /** No nslcd task ever targets an agent: whatever the agents are, the hooks touch the servers only. */
  lemma NslcdNeverTargetsAgents(servers: seq<string>, agents1: seq<string>, agents2: seq<string>,
                                submit: TaskRun -> ParallelRun)
    ensures PreClusterDeploy(ClusterNodes(servers, agents1), submit).runs
         == PreClusterDeploy(ClusterNodes(servers, agents2), submit).runs
    ensures forall r | r in PreClusterDeploy(ClusterNodes(servers, agents1), submit).runs :: r.targets == servers
  {
  }

  /** An interrupted wait and a failed execution both surface as a service error with the same message. */
  lemma NslcdFailuresKeepMessage(cluster: ClusterNodes, submit: TaskRun -> ParallelRun, message: string)
    requires submit(TaskRun(ServerRequirementsTask, cluster.servers)) == Interrupted(message)
    ensures PreClusterDeploy(cluster, submit).error == Some(ServiceError(message))
  {
  }

  /** Unlike the Kerberos tasks, the nslcd task carries no error key or description. */
  lemma TaskHasNoErrorKey(cluster: ClusterNodes, submit: TaskRun -> ParallelRun)
    ensures forall r | r in PreClusterDeploy(cluster, submit).runs :: r.task.errorKey.None? && r.task.errorDescription.None?
  {
  }
}
