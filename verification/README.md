# brooklyn-ambari orchestration core in Dafny

A model of three pieces of sequential logic in the Brooklyn entities that install and scale an Ambari-managed Hadoop cluster:

- **Host-group growth** (`AmbariHostGroupImpl`). `resizeByDelta` rewrites the hosts files of every Ambari node. On a complete cluster it then runs the extra services' pre-scale tasks, registers the new agents with their host group, and runs the post-scale tasks. It stops at the first failure. `runExtraServicesTasks` turns a failed parallel task into exactly one `ExtraServiceException`. The module also collects the agents among a list of entities, collects the agents' FQDNs, and picks the member spec at `init`.
- **Install commands** (`AmbariInstallCommands`). It picks the Hortonworks repository URL template from the machine's OS version and fills its two `%s` placeholders with the major and full Ambari version. It writes to the fixed repository-list paths, tries apt, yum and zypper in that order, and builds the two-command `setHostname` script.
- **Extra-service plugins** (`Kerberos`, `KerberosImpl`, `NslcdImpl`). This covers their config keys and defaults, the config map they contribute, the order of their cluster-deploy hooks and the tasks those hooks submit, and how `ExecutionException` and `InterruptedException` become `ExtraServiceException`.

Everything is a pure function over immutable values. Collaborators whose code is not part of this model are arguments:

- the enclosing `AmbariCluster`: its Ambari nodes, the completeness check, the outcome of each parallel task, and the host registration;
- the entities the superclass's resize returns;
- the random ids used for generated passwords.

Files, one module each:

| file | module | models |
|---|---|---|
| wrappers.dfy | Wrappers | `Option`, standing in for nullable references |
| java_text.dfy | JavaText | `startsWith`, `endsWith`, `String.format` with `%s` and `%%` |
| throwables.dfy | Throwables | exceptions with cause chains; commons-lang `getRootCause` |
| parallel_tasks.dfy | ParallelTasks | a parallel task after `Future.get()` |
| entities.dfy | Entities | agents and containers; `getAmbariAgents`, `getHostFQDNs` |
| host_group.dfy | HostGroup | `init` member spec, `runExtraServicesTasks`, `resizeByDelta` |
| bash_commands.dfy | BashCommands | `BashCommands` helpers as symbolic commands |
| install_commands.dfy | InstallCommands | `AmbariInstallCommands` |
| extra_services.dfy | ExtraServices | config keys, config maps, submitting and waiting for a task |
| kerberos.dfy | Kerberos | `Kerberos`, `KerberosImpl` |
| nslcd.dfy | Nslcd | `NslcdImpl` |

Modelling assumptions that the source does not settle:

- The code that builds and runs a parallel task (`createExtraServicesParallelTask`, `parallelListenerTask`, `Entities.submit`) is not part of this model. `ParallelTasks.Get` assumes every item runs to an outcome before `get()` returns. It then assumes `get()` throws an `ExecutionException` whose cause is the first failing item, in item order. That exception's message is the cause's `toString()`, as Java's `ExecutionException(Throwable)` constructor does. An interrupted wait throws a causeless `InterruptedException`.
- `BashCommands` helpers are free constructors of `BashCommands.Cmd`. So two commands are equal only when they were built the same way, which is stronger than treating the helpers as unknown string functions. No shell text is produced.
- Entity trees hold agents only as leaves, and a sibling spec holds no agent. Under that assumption, "an agent contributes itself, any other entity contributes its agent descendants" is the same as taking the agent descendants of each entity.

## Model

| member | source | states |
|---|---|---|
| Entities.GetAmbariAgents | ambari/src/main/java/io/brooklyn/ambari/hostgroup/AmbariHostGroupImpl.java:117-128 | the builder loop yields exactly the agents found entity by entity, each agent entity contributing itself |
| Entities.AgentsInAllConcat | ambari/src/main/java/io/brooklyn/ambari/hostgroup/AmbariHostGroupImpl.java:117-128 | collecting agents distributes over concatenation of entity lists, so entity order is kept |
| Entities.GetHostFQDNs | ambari/src/main/java/io/brooklyn/ambari/hostgroup/AmbariHostGroupImpl.java:64-74 | the loop yields the non-null FQDNs of the descendant agents, and no more of them than there are agents |
| Entities.KnownFqdnsExact | ambari/src/main/java/io/brooklyn/ambari/hostgroup/AmbariHostGroupImpl.java:64-74 | a string is returned iff some agent reports it as its FQDN; the count is at most the number of agents |
| Entities.KnownFqdnsConcat | ambari/src/main/java/io/brooklyn/ambari/hostgroup/AmbariHostGroupImpl.java:64-74 | FQDN collection distributes over concatenation, so descendant order is kept |
| HostGroup.MemberSpec | ambari/src/main/java/io/brooklyn/ambari/hostgroup/AmbariHostGroupImpl.java:54-62 | without a sibling spec the member spec is a bare agent; with one it is a SameServer entity holding an agent and then the sibling |
| HostGroup.MemberHoldsOneAgent | ambari/src/main/java/io/brooklyn/ambari/hostgroup/AmbariHostGroupImpl.java:54-62 | a member built from the spec `init` installs, bare agent or agent-plus-sibling, holds exactly one agent |
| HostGroup.NewMembersYieldOneAgentEach | ambari/src/main/java/io/brooklyn/ambari/hostgroup/AmbariHostGroupImpl.java:130-138 | so the agents found among n new members number exactly n |
| Throwables.WrappedRootCause | ambari/src/main/java/io/brooklyn/ambari/hostgroup/AmbariHostGroupImpl.java:108-109 | wrapping an exception (as `ExecutionException` does) leaves getRootCause at the wrapped exception's deepest cause |
| Throwables.RootCauseIsDeepest | ambari/src/main/java/io/brooklyn/ambari/hostgroup/AmbariHostGroupImpl.java:108-109 | getRootCause is null iff the exception has no cause, and otherwise is the bottom of the cause chain |
| ParallelTasks.Get | ambari/src/main/java/io/brooklyn/ambari/hostgroup/AmbariHostGroupImpl.java:104-107 | waiting throws nothing iff the wait was not interrupted and every item succeeded; what it throws is an ExecutionException or InterruptedException |
| ParallelTasks.GetReportsFirstFailure | ambari/src/main/java/io/brooklyn/ambari/hostgroup/AmbariHostGroupImpl.java:104-107 | the ExecutionException's cause is the first failing item and its message that item's description |
| HostGroup.ReduceFailure | ambari/src/main/java/io/brooklyn/ambari/hostgroup/AmbariHostGroupImpl.java:107-113 | every caught failure becomes a single causeless ExtraServiceException |
| HostGroup.ReduceRethrowsServiceRoot | ambari/src/main/java/io/brooklyn/ambari/hostgroup/AmbariHostGroupImpl.java:108-110 | a root cause that is an ExtraServiceException is rethrown as that very exception |
| HostGroup.ReduceWrapsOuterMessage | ambari/src/main/java/io/brooklyn/ambari/hostgroup/AmbariHostGroupImpl.java:111-112 | otherwise, also when there is no cause, a new ExtraServiceException carries the caught exception's own message |
| HostGroup.RunExtraServicesTasks | ambari/src/main/java/io/brooklyn/ambari/hostgroup/AmbariHostGroupImpl.java:103-115 | a task fails iff some item failed or the wait was interrupted, and then exactly one ExtraServiceException is thrown |
| HostGroup.RunReportsFirstFailure | ambari/src/main/java/io/brooklyn/ambari/hostgroup/AmbariHostGroupImpl.java:103-115 | the first failing item's root service error is rethrown unchanged; any other failure is wrapped with the ExecutionException message (the item's toString, not the root's message) |
| HostGroup.RunInterrupted | ambari/src/main/java/io/brooklyn/ambari/hostgroup/AmbariHostGroupImpl.java:107-113 | an interrupted wait becomes a service error with the interruption's message |
| HostGroup.ResizeByDelta | ambari/src/main/java/io/brooklyn/ambari/hostgroup/AmbariHostGroupImpl.java:83-101 | delta <= 0 does nothing extra and returns the superclass's entities; delta > 0 first sets hosts on all Ambari nodes; the trace is always a prefix of SetHosts, Pre, Add, Post; only the hook or registration steps can throw, and a trace cut short ends in a throw |
| HostGroup.IncompleteClusterSkipsHooks | ambari/src/main/java/io/brooklyn/ambari/hostgroup/AmbariHostGroupImpl.java:86-98 | growing an incomplete cluster sets the hosts files and returns normally with no hooks and no registration |
| HostGroup.HooksRunOnlyOnCompleteGrow | ambari/src/main/java/io/brooklyn/ambari/hostgroup/AmbariHostGroupImpl.java:86-91 | the pre-scale task runs iff delta > 0 and the cluster is complete |
| HostGroup.SuccessfulCompleteGrow | ambari/src/main/java/io/brooklyn/ambari/hostgroup/AmbariHostGroupImpl.java:89-96 | once the pre-scale task and the registration succeed, the trace is SetHosts, Pre, Add(display name), Post over the new agents; the entities are returned iff the post-scale task succeeds, and otherwise its service error is thrown |
| HostGroup.ReturnedGrowRanAllSteps | ambari/src/main/java/io/brooklyn/ambari/hostgroup/AmbariHostGroupImpl.java:89-96 | a grow of a complete cluster that returns normally went through SetHosts, Pre, Add, Post |
| HostGroup.HooksScopedToNewAgents | ambari/src/main/java/io/brooklyn/ambari/hostgroup/AmbariHostGroupImpl.java:89-93 | pre-scale, registration and post-scale all get the agents found among the entities this resize returned |
| HostGroup.PreScaleFailureStops | ambari/src/main/java/io/brooklyn/ambari/hostgroup/AmbariHostGroupImpl.java:90-96 | a failed pre-scale task is thrown to the caller; registration and post-scale never run |
| HostGroup.RegistrationFailureStops | ambari/src/main/java/io/brooklyn/ambari/hostgroup/AmbariHostGroupImpl.java:92-96 | a failed registration is thrown to the caller; post-scale never runs |
| HostGroup.PreScaleServiceErrorSurfaces | ambari/src/main/java/io/brooklyn/ambari/hostgroup/AmbariHostGroupImpl.java:90-113 | a service error raised by a pre-scale item reaches the resize caller as that exception, and no host is registered |
| JavaText.Format | ambari/src/main/java/io/brooklyn/ambari/AmbariInstallCommands.java:74-74 | String.format succeeds iff every conversion is %s or %% and there are at least as many arguments as %s conversions |
| JavaText.FormatEscape | ambari/src/main/java/io/brooklyn/ambari/AmbariInstallCommands.java:74-74 | %% writes one literal % and takes no argument |
| JavaText.EscapedPlaceholderIsText | ambari/src/main/java/io/brooklyn/ambari/AmbariInstallCommands.java:74-74 | "%%s" formats to the text "%s" whatever the arguments |
| JavaText.FormatRejectsOtherConversions | ambari/src/main/java/io/brooklyn/ambari/AmbariInstallCommands.java:74-74 | any conversion other than %s and %% (for example %d) makes String.format fail |
| JavaText.FormatTwo | ambari/src/main/java/io/brooklyn/ambari/AmbariInstallCommands.java:35-44 | a two-placeholder template takes its first argument at the first %s and its second at the second |
| InstallCommands.MajorVersion | ambari/src/main/java/io/brooklyn/ambari/AmbariInstallCommands.java:106-108 | the major version is the version's first character followed by ".x" |
| InstallCommands.RepoUrl | ambari/src/main/java/io/brooklyn/ambari/AmbariInstallCommands.java:35-44 | the URL starts with base/os-dir/ and ends with the full version and the list file, with room for exactly the major version and "/updates/" between |
| InstallCommands.FillPattern | ambari/src/main/java/io/brooklyn/ambari/AmbariInstallCommands.java:35-44 | String.format of a repository template with the major version and the full version succeeds and gives base/os/major/updates/version/list-file |
| InstallCommands.RepoUrlsDistinct | ambari/src/main/java/io/brooklyn/ambari/AmbariInstallCommands.java:35-44 | two different templates whose OS directories have the same length (centos7/6/5, ubuntu14/12) never give the same URL for one version |
| InstallCommands.RepoUrlDeterminesVersion | ambari/src/main/java/io/brooklyn/ambari/AmbariInstallCommands.java:74-74 | no two versions give the same URL for one template |
| InstallCommands.AptUrlChoice | ambari/src/main/java/io/brooklyn/ambari/AmbariInstallCommands.java:64-74 | apt downloads the Ubuntu 14 URL iff the OS version starts with "14", the Ubuntu 12 URL otherwise |
| InstallCommands.YumUrlChoice | ambari/src/main/java/io/brooklyn/ambari/AmbariInstallCommands.java:79-91 | yum downloads CentOS 7 iff the OS version starts with "7", CentOS 6 iff it starts with "6", CentOS 5 iff neither |
| InstallCommands.OsVersion | ambari/src/main/java/io/brooklyn/ambari/AmbariInstallCommands.java:98-104 | a null machine or null OS details reads as ""; otherwise the result is the reported OS version |
| InstallCommands.UnknownOsFallsBack | ambari/src/main/java/io/brooklyn/ambari/AmbariInstallCommands.java:98-104 | a null machine or null OS details reads as "", which selects Ubuntu 12 and CentOS 5 |
| InstallCommands.SetupAptRepo | ambari/src/main/java/io/brooklyn/ambari/AmbariInstallCommands.java:64-77 | guarded by apt-get; its only download is the chosen Ubuntu URL to /etc/apt/sources.list.d/ambari.list |
| InstallCommands.SetupYumRepo | ambari/src/main/java/io/brooklyn/ambari/AmbariInstallCommands.java:79-91 | guarded by yum; its only download is the chosen CentOS URL to /etc/yum.repos.d/ambari.repo |
| InstallCommands.SetupZypperRepo | ambari/src/main/java/io/brooklyn/ambari/AmbariInstallCommands.java:94-96 | guarded by zypper; its only download is the SUSE 11 URL to /etc/zypp/repos.d/ambari.repo |
| InstallCommands.RepositoriesCommand | ambari/src/main/java/io/brooklyn/ambari/AmbariInstallCommands.java:60-62 | three alternatives guarded by apt-get, yum, zypper in that order |
| InstallCommands.InstallAmbariRequirements | ambari/src/main/java/io/brooklyn/ambari/AmbariInstallCommands.java:52-58 | a chain of four: curl, ntp, an ntp service start, and last the repository-list setup |
| InstallCommands.RepositoriesSetupOrder | ambari/src/main/java/io/brooklyn/ambari/AmbariInstallCommands.java:60-95 | the alternatives are guarded by apt-get, yum, zypper in that order and download to the apt, yum and zypper list paths |
| InstallCommands.RequirementsChainDownloads | ambari/src/main/java/io/brooklyn/ambari/AmbariInstallCommands.java:52-58 | curl, ntp and the ntp service start download nothing, so the chain downloads exactly what its repository step does |
| InstallCommands.RequirementsDownloadOnlyRepoLists | ambari/src/main/java/io/brooklyn/ambari/AmbariInstallCommands.java:52-58 | the requirements script downloads nothing beyond the repository list |
| InstallCommands.SetHostname | ambari/src/main/java/io/brooklyn/ambari/AmbariInstallCommands.java:110-119 | two commands: a /bin/sh script echoing the FQDN written to the location, then chmod a+x of that location |
| InstallCommands.SetHostnameInjective | ambari/src/main/java/io/brooklyn/ambari/AmbariInstallCommands.java:110-119 | the two commands determine the FQDN and the location |
| ExtraServices.SubmitAndWait | ambari/src/main/java/io/brooklyn/ambari/service/NslcdImpl.java:54-63 | a hook's task fails iff waiting threw, and then the hook throws a service error with the same message |
| ExtraServices.GetConfig | ambari/src/main/java/io/brooklyn/ambari/service/Kerberos.java:30-43 | a key reads the value supplied under its name, else under its @SetFromFlag flag, else its default; null only when none of the three exists |
| Kerberos.GetOrGeneratePassword | ambari/src/main/java/io/brooklyn/ambari/service/KerberosImpl.java:59-67 | a configured non-empty password is kept; a null or empty one is replaced by the 12-character id; the result is never empty |
| Kerberos.AmbariConfigOf | ambari/src/main/java/io/brooklyn/ambari/service/KerberosImpl.java:46-57 | one category "krb5-config" with exactly the five keys; realm, admin and domain are the configured values; passwords are non-empty; "kdb.password" is KDB_PASSWORD's password and "kdc.adminpassword" is KDC_ADMIN_PASSWORD's, each configured or generated from its own id |
| Kerberos.UnconfiguredKerberos | ambari/src/main/java/io/brooklyn/ambari/service/Kerberos.java:30-43 | with nothing configured both passwords are generated and realm, admin, domain are HORTOWORKS.COM, admin/admin, hortoworks.com |
| Kerberos.AdminPasswordReadFromNameOrFlag | ambari/src/main/java/io/brooklyn/ambari/service/Kerberos.java:33-34 | the admin password is read when supplied under the key name "kdc.admin.password" or under its flag "kdc.adminpassword", and supplying it does not change the KDB password |
| Kerberos.PreClusterDeploy | ambari/src/main/java/io/brooklyn/ambari/service/KerberosImpl.java:70-73 | submits nothing and never throws |
| Kerberos.PostClusterDeploy | ambari/src/main/java/io/brooklyn/ambari/service/KerberosImpl.java:76-87 | the ACL task over the servers comes first, the krb5 task over the agents second; any error is a service error |
| Kerberos.AclFailureStopsHook | ambari/src/main/java/io/brooklyn/ambari/service/KerberosImpl.java:77-86 | a failed ACL task means the krb5 task never runs, and the hook throws a service error with the same message |
| Kerberos.Krb5FailureEndsHook | ambari/src/main/java/io/brooklyn/ambari/service/KerberosImpl.java:77-86 | after a successful ACL task, a failed krb5 task leaves both tasks submitted in order and throws a service error with the second get()'s message |
| Kerberos.PostClusterDeploySucceeds | ambari/src/main/java/io/brooklyn/ambari/service/KerberosImpl.java:77-86 | the hook returns normally iff both tasks succeed, and then both ran in order |
| Kerberos.ServiceErrorIsRewrapped | ambari/src/main/java/io/brooklyn/ambari/service/KerberosImpl.java:84-86 | a service error from a server item is not rethrown as is; a new one carries the ExecutionException message |
| Kerberos.TaskErrorKeys | ambari/src/main/java/io/brooklyn/ambari/service/KerberosImpl.java:89-115 | the server task's error key is kerberos.acl and the agent task's is kerberos.krb5 |
| Nslcd.AmbariConfigOf | ambari/src/main/java/io/brooklyn/ambari/service/NslcdImpl.java:46-48 | contributes the empty map |
| Nslcd.PreClusterDeploy | ambari/src/main/java/io/brooklyn/ambari/service/NslcdImpl.java:51-64 | one task over the servers; fails iff waiting threw, then as a service error with that message |
| Nslcd.PostClusterDeploy | ambari/src/main/java/io/brooklyn/ambari/service/NslcdImpl.java:66-69 | submits nothing and never throws |
| Nslcd.NslcdNeverTargetsAgents | ambari/src/main/java/io/brooklyn/ambari/service/NslcdImpl.java:54-55 | the hook's tasks target the servers only and do not depend on the agents |
| Nslcd.NslcdFailuresKeepMessage | ambari/src/main/java/io/brooklyn/ambari/service/NslcdImpl.java:57-63 | an interrupted wait becomes a service error with the same message |
| Nslcd.TaskHasNoErrorKey | ambari/src/main/java/io/brooklyn/ambari/service/NslcdImpl.java:71-82 | the nslcd task sets no error key and no error description |

## Left out

- SSH execution and the shell text of `BashCommands` (`sudo`, `chainGroup`, `alternatives`, `ifExecutableElse1`, `installExecutable`, `commandToDownloadUrlAs`, `INSTALL_CURL`): these are library code. They are symbolic constructors here.
- Concurrency: `Entities.submit`, `Future.get` and `parallelListenerTask` are replaced by a finished run. A run is either an interruption or one outcome per item. Which item fails first in wall-clock time is not modelled; "first" means first in item order.
- `AmbariCluster` internals (`isClusterComplete`, `addHostsToHostGroup`, `getAmbariNodes`, `createExtraServicesParallelTask`) and `EtcHostsManager`: their code is not part of this model. They are fields of `HostGroup.AmbariCluster` or trace events. Failures of `setHostsOnMachines` are not modelled.
- `AbstractExtraServicesTask` is not part of this model. How its error key and description reach an exception is not modelled; the keys are recorded on the task values only.
- The pre- and post-host-group-scale hooks of the Kerberos and nslcd plugins are inherited from a base class that is not part of this model.
- `Identifiers.makeRandomId(12)` is a 12-character argument. Repeated `getAmbariConfig` calls are not claimed to return the same password, because the code registers a sensor for a generated password but never stores the value.
- Entity-spec construction in `init` is reduced to which spec is chosen. `getAmbariCluster`'s ancestor lookup is replaced by passing the cluster in.
- The shrink path of `resizeByDelta` delegates to `DynamicClusterImpl`, which is not part of this model. Only its returned entities appear.
- Null strings: exception messages, OS versions and configuration values are always non-null strings here (a missing FQDN is an `Option`). A null OS version, which makes `startsWith` throw, and an explicitly null configuration value, which makes `ImmutableMap.put` throw, are not modelled.
- InstallCommands.RepoUrlsDistinct: only compares templates whose OS directories have equal length; suse11 against the others is not stated, because those pairs are never alternatives for the same package manager.
- JavaText.Format: only `%s` and `%%` are modelled. Every other conversion is a failure, although Java accepts some of them (`%n`, `%d` with a number, indexed arguments). The templates of this model use none of them.
- ExtraServices.GetConfig: when a value is supplied under both a key's name and its flag, the name wins. Brooklyn's precedence between the two is not part of this model.
- InstallCommands.MajorVersion: requires a non-empty version. The source throws `StringIndexOutOfBoundsException` on an empty one, and that exception is not modelled.
- `AmbariServer` (a REST/effector interface), `AmbariConfigAndSensors` (constants only) and the `AmbariServerImpl` JSON test are outside the modelled core.
