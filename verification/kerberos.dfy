/**
 * The Kerberos extra service (`Kerberos`, `KerberosImpl`): its config keys,
 * the `krb5-config` category it contributes, and the post-deploy hook that
 * edits `kadm5.acl` on the servers and then `krb5.conf` on the agents.
 */
module Kerberos {
  import opened Wrappers
  import opened Throwables
  import opened ParallelTasks
  import opened BashCommands
  import opened ExtraServices

  // ---------------------------------------------------------------------------
  // Config keys

  const KdbPassword := ConfigKey("kdb.password", "kdb.password", "KDB password", None)
  const KdcAdminPassword := ConfigKey("kdc.admin.password", "kdc.adminpassword", "kdc admin password", None)
  const KdcRealm := ConfigKey("kdc.realm", "kdc.realm", "kdc.realm", Some("HORTOWORKS.COM"))
  const KdcAdmin := ConfigKey("kdc.admin", "kdc.admin", "kdc.admin", Some("admin/admin"))
  const KdcDomain := ConfigKey("kdc.domain", "kdc.domain", "kdc.domain", Some("hortoworks.com"))

  const Krb5Category := "krb5-config"

  /** The keys of the contributed category. */
  const Krb5Keys: set<string> := {"kdb.password", "kdc.adminpassword", "KDC_REALM", "kdc.admin", "KDC_DOMAIN"}

  // ---------------------------------------------------------------------------
  // getAmbariConfig

  /**
   * `getOrGeneratePassword`: a configured, non-empty password is kept;
   * otherwise `randomId` stands for `Identifiers.makeRandomId(12)`.
   */
  function GetOrGeneratePassword(settings: Settings, key: ConfigKey, randomId: string): (password: string)
    requires |randomId| == 12
    ensures |password| > 0
    ensures match GetConfig(settings, key)
      case Some(v) => (|v| > 0 ==> password == v) && (v == "" ==> password == randomId)
      case None => password == randomId
  {
    var configured := GetConfig(settings, key);
    if configured.None? || configured.value == "" then randomId else configured.value
  }

  /**
   * `getAmbariConfig`: one category, `krb5-config`, with the two passwords
   * (configured or generated) and the realm, admin and domain settings.
   * `kdbId` and `adminId` are the random ids drawn for the two passwords.
   */
  function AmbariConfigOf(settings: Settings, kdbId: string, adminId: string): (config: AmbariConfig)
    requires |kdbId| == 12 && |adminId| == 12
    ensures config.Keys == {Krb5Category}
    ensures config[Krb5Category].Keys == Krb5Keys
    ensures |config[Krb5Category]["kdb.password"]| > 0 && |config[Krb5Category]["kdc.adminpassword"]| > 0
    ensures config[Krb5Category]["kdb.password"] == GetOrGeneratePassword(settings, KdbPassword, kdbId)
    ensures config[Krb5Category]["kdc.adminpassword"] == GetOrGeneratePassword(settings, KdcAdminPassword, adminId)
    ensures Some(config[Krb5Category]["KDC_REALM"]) == GetConfig(settings, KdcRealm)
    ensures Some(config[Krb5Category]["kdc.admin"]) == GetConfig(settings, KdcAdmin)
    ensures Some(config[Krb5Category]["KDC_DOMAIN"]) == GetConfig(settings, KdcDomain)
  {
    map[Krb5Category := map[
      "kdb.password" := GetOrGeneratePassword(settings, KdbPassword, kdbId),
      "kdc.adminpassword" := GetOrGeneratePassword(settings, KdcAdminPassword, adminId),
      "KDC_REALM" := GetConfig(settings, KdcRealm).value,
      "kdc.admin" := GetConfig(settings, KdcAdmin).value,
      "KDC_DOMAIN" := GetConfig(settings, KdcDomain).value]]
  }

  /**
   * Nothing configured: both passwords are generated (neither key has a
   * default) and realm, admin and domain take their defaults.
   */
  lemma UnconfiguredKerberos(kdbId: string, adminId: string)
    requires |kdbId| == 12 && |adminId| == 12
    ensures AmbariConfigOf(map[], kdbId, adminId) == map[Krb5Category := map[
      "kdb.password" := kdbId,
      "kdc.adminpassword" := adminId,
      "KDC_REALM" := "HORTOWORKS.COM",
      "kdc.admin" := "admin/admin",
      "KDC_DOMAIN" := "hortoworks.com"]]
  {
  }

  /**
   * The admin password is read from the key named `kdc.admin.password` and,
   * through `@SetFromFlag`, from the flag `kdc.adminpassword`, which is also
   * the name it is written under in `krb5-config`.
   */
  lemma AdminPasswordReadFromNameOrFlag(password: string, kdbId: string, adminId: string)
    requires |kdbId| == 12 && |adminId| == 12 && |password| > 0
    ensures AmbariConfigOf(map["kdc.admin.password" := password], kdbId, adminId)[Krb5Category]["kdc.adminpassword"] == password
    ensures AmbariConfigOf(map["kdc.adminpassword" := password], kdbId, adminId)[Krb5Category]["kdc.adminpassword"] == password
    ensures AmbariConfigOf(map["kdc.adminpassword" := password], kdbId, adminId)[Krb5Category]["kdb.password"] == kdbId
  {
  }

  // ---------------------------------------------------------------------------
  // Cluster-deploy hooks

  /** `AmbariServerDNSLookUpFunction`: let admin/admin administer the KDC. */
  const AclTask := ServiceTask(
    [Sudo(Raw("echo principal admin/admin >> /var/kerberos/krb5kdc/kadm5.acl"))],
    Some("kerberos.acl"), Some("Error configuring kadm5.acl"))

  /** `AmbariAgentRequirementsFunction`: turn on DNS lookup of realm and KDC in `krb5.conf`. */
  const Krb5Task := ServiceTask(
    [Sudo(Raw("sed -i 's| dns_lookup_realm = false| dns_lookup_realm = true|g' /etc/krb5.conf")),
     Sudo(Raw("sed -i 's| dns_lookup_kdc = false| dns_lookup_kdc = true|g' /etc/krb5.conf"))],
    Some("kerberos.krb5"), Some("Error configuring krb5.conf"))

  /** `preClusterDeploy` does nothing. */
  function PreClusterDeploy(cluster: ClusterNodes, submit: TaskRun -> ParallelRun): (h: HookResult)
    ensures h.runs == [] && h.error.None?
  {
    NoOp
  }

  /**
   * `postClusterDeploy`: the ACL task over the servers, waited for, then the
   * krb5 task over the agents; the first failure ends the hook.
   */
  function PostClusterDeploy(cluster: ClusterNodes, submit: TaskRun -> ParallelRun): (h: HookResult)
    ensures 1 <= |h.runs| <= 2
    ensures h.runs[0] == TaskRun(AclTask, cluster.servers)
    ensures |h.runs| == 2 ==> h.runs[1] == TaskRun(Krb5Task, cluster.agents)
    ensures h.error.Some? ==> h.error.value.kind == ExtraServiceError
  {
    AndThen(SubmitAndWait(TaskRun(AclTask, cluster.servers), submit),
            SubmitAndWait(TaskRun(Krb5Task, cluster.agents), submit))
  }

  /**
   * A failed ACL task means the krb5 task never runs, and the hook throws a
   * service error with the message `get()` threw.
   */
  lemma AclFailureStopsHook(cluster: ClusterNodes, submit: TaskRun -> ParallelRun)
    requires Get(submit(TaskRun(AclTask, cluster.servers))).Some?
    ensures var h := PostClusterDeploy(cluster, submit);
      h.runs == [TaskRun(AclTask, cluster.servers)] &&
      h.error == Some(ServiceError(Get(submit(TaskRun(AclTask, cluster.servers))).value.message))
  {
  }

  /**
   * A failed krb5 task after a successful ACL task: both tasks were
   * submitted, servers first, and the hook throws a service error with the
   * message the second `get()` threw.
   */
  lemma Krb5FailureEndsHook(cluster: ClusterNodes, submit: TaskRun -> ParallelRun)
    requires Get(submit(TaskRun(AclTask, cluster.servers))).None?
    requires Get(submit(TaskRun(Krb5Task, cluster.agents))).Some?
    ensures var h := PostClusterDeploy(cluster, submit);
      h.runs == [TaskRun(AclTask, cluster.servers), TaskRun(Krb5Task, cluster.agents)] &&
      h.error == Some(ServiceError(Get(submit(TaskRun(Krb5Task, cluster.agents))).value.message))
  {
  }

  /**
   * The hook returns normally exactly when both tasks ran to completion with
   * every item succeeding; then both were submitted, servers first.
   */
  lemma PostClusterDeploySucceeds(cluster: ClusterNodes, submit: TaskRun -> ParallelRun)
    ensures var h := PostClusterDeploy(cluster, submit);
      h.error.None? <==>
        Get(submit(TaskRun(AclTask, cluster.servers))).None? && Get(submit(TaskRun(Krb5Task, cluster.agents))).None?
    ensures var h := PostClusterDeploy(cluster, submit);
      h.error.None? ==> h.runs == [TaskRun(AclTask, cluster.servers), TaskRun(Krb5Task, cluster.agents)]
  {
  }

  /**
   * Unlike `runExtraServicesTasks`, this hook does not look for a service
   * error at the root: even when the failing server raised one, the caller
   * gets a new service error carrying the `ExecutionException` message.
   */
  lemma ServiceErrorIsRewrapped(cluster: ClusterNodes, submit: TaskRun -> ParallelRun, items: seq<ItemOutcome>, i: nat)
    requires submit(TaskRun(AclTask, cluster.servers)) == Joined(items)
    requires i < |items| && items[i].Raised? && forall j | 0 <= j < i :: items[j].Succeeded?
    ensures PostClusterDeploy(cluster, submit).error == Some(ServiceError(Describe(items[i].exn)))
  {
    GetReportsFirstFailure(items, i);
  }

  /** The server task reports under `kerberos.acl`, the agent task under `kerberos.krb5`. */
  lemma TaskErrorKeys(cluster: ClusterNodes, submit: TaskRun -> ParallelRun)
    ensures var h := PostClusterDeploy(cluster, submit);
      h.runs[0].task.errorKey == Some("kerberos.acl") &&
      (|h.runs| == 2 ==> h.runs[1].task.errorKey == Some("kerberos.krb5"))
  {
  }
}
