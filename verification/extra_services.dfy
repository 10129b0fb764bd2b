/**
 * What the extra-service plugins share: string config keys with optional
 * defaults, the config map they contribute to Ambari, and the parallel
 * tasks their hooks submit and wait for.
 */
module ExtraServices {
  import opened Wrappers
  import opened Throwables
  import opened ParallelTasks
  import opened BashCommands

  /** A `ConfigKey<String>`: its name, the flag that also sets it, a description and a default. */
  datatype ConfigKey = ConfigKey(name: string, flag: string, description: string, defaultValue: Option<string>)

  /**
   * The values supplied to the entity: each under a config key's name or
   * under the `@SetFromFlag` flag that also sets that key.
   */
  type Settings = map<string, string>

  /**
   * `getConfig(key)`: the value supplied under the key's name, else the one
   * supplied under its flag, else the key's default (null when it has none).
   */
  function GetConfig(settings: Settings, key: ConfigKey): (v: Option<string>)
    ensures v.None? <==> key.name !in settings && key.flag !in settings && key.defaultValue.None?
    ensures key.name in settings ==> v == Some(settings[key.name])
    ensures key.name !in settings && key.flag in settings ==> v == Some(settings[key.flag])
    ensures v.Some? && v != key.defaultValue ==>
      (key.name in settings && settings[key.name] == v.value) || (key.flag in settings && settings[key.flag] == v.value)
  {
    if key.name in settings then Some(settings[key.name])
    else if key.flag in settings then Some(settings[key.flag])
    else key.defaultValue
  }

  /** The configuration a plugin contributes: category, then key, then value. */
  type AmbariConfig = map<string, map<string, string>>

  /** An `AbstractExtraServicesTask`: the commands it runs on each target and its error key and description. */
  datatype ServiceTask = ServiceTask(
    commands: seq<Cmd>,
    errorKey: Option<string>,
    errorDescription: Option<string>)

  /** One parallel task submitted over a list of targets (servers or agents, by id). */
  datatype TaskRun = TaskRun(task: ServiceTask, targets: seq<string>)

  /** The Ambari servers and agents of the cluster a hook is given. */
  datatype ClusterNodes = ClusterNodes(servers: seq<string>, agents: seq<string>)

  /** What a hook did: the tasks it submitted, in order, and the exception it threw, if any. */
  datatype HookResult = HookResult(runs: seq<TaskRun>, error: Option<Exn>)

  /** A hook that submits nothing and returns normally. */
  const NoOp := HookResult([], None)

  /**
   * Submit a task, wait for it, and turn an `ExecutionException` or
   * `InterruptedException` into an `ExtraServiceException` with the same
   * message, as both plugins' catch blocks do.
   */
  function SubmitAndWait(run: TaskRun, submit: TaskRun -> ParallelRun): (h: HookResult)
    ensures h.runs == [run]
    ensures h.error.None? <==> Get(submit(run)).None?
    ensures h.error.Some? ==>
      h.error.value.kind == ExtraServiceError && h.error.value.message == Get(submit(run)).value.message
  {
    match Get(submit(run))
    case None => HookResult([run], None)
    case Some(ex) => HookResult([run], Some(ServiceError(ex.message)))
  }

  /** Run `second` only if `first` returned normally. */
  function AndThen(first: HookResult, second: HookResult): (h: HookResult)
    ensures first.error.Some? ==> h == first
    ensures first.error.None? ==> h.runs == first.runs + second.runs && h.error == second.error
  {
    if first.error.Some? then first else HookResult(first.runs + second.runs, second.error)
  }
}
