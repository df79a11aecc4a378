/** Abstract operating-system state the telemetry controller reads and writes:
    scheduled tasks, services, the fault oracle that stands in for the
    `try`/`catch` around each switching sub-step, and the log events the
    controller emits.
    Every message of the controller is logged at the informational level, so
    an event carries no level. */
module OsModel {

  /** Zero-or-one value: a lookup that may find nothing. */
  datatype Option<+T> = None | Some(value: T)

  /** A scheduled task as the task scheduler reports it. */
  datatype Task = Task(name: string, path: string, enabled: bool)

  /** The run states a service controller can report. */
  datatype RunState =
    | Stopped | StartPending | StopPending | Running
    | ContinuePending | PausePending | Paused

  /** How a service behaves at boot. */
  datatype StartMode = Boot | System | Automatic | Manual | Disabled

  /** A service as the service manager reports it. */
  datatype Service = Service(
    serviceName: string,
    displayName: string,
    runState: RunState,
    startMode: StartMode)

  /** The OS calls that mutate a task or a service; each one may fault. */
  datatype Mutation = SetTaskEnabled | StopService | StartService | ChangeStartMode

  /** Fault oracle: the pair (i, m) is present when mutation m on the i-th
      item of a batch faults (throws, or its wait for the target status fails). */
  type Faults = set<(nat, Mutation)>

  predicate Faulted(faults: Faults, index: nat, m: Mutation) {
    (index, m) in faults
  }

  /** The service manager starts only a service that is stopped and whose
      start mode is not Disabled; a paused or pending one is refused as
      already running. The start mode rule is why the enable path fixes the
      start mode first. */
  predicate CanStart(s: Service) {
    s.runState == Stopped && s.startMode != Disabled
  }

  /** Composite projection of a service: fully enabled. */
  predicate ServiceEnabled(s: Service) {
    s.runState == Running && s.startMode == Automatic
  }

  /** Composite projection of a service: fully disabled. */
  predicate ServiceDisabled(s: Service) {
    s.runState == Stopped && s.startMode == Disabled
  }

  /** One line of the controller's log, as a tagged value. */
  datatype Event =
      // discovery
    | FailedToFindTask(pattern: string)
    | FoundTask(name: string)
    | TaskReported(enabled: bool)
    | FailedToFindService(serviceName: string)
    | FoundService(displayName: string, serviceName: string)
    | ServiceReported(enabled: bool)
      // disabling services
    | DisabledService(displayName: string, serviceName: string)
    | FailedToDisableService(displayName: string, serviceName: string)
    | DisabledServiceStartup(displayName: string, serviceName: string)
    | FailedToDisableServiceStartup(displayName: string, serviceName: string)
      // enabling services
    | EnabledAutomaticStartup(displayName: string, serviceName: string)
    | FailedToEnableAutomaticStartup(displayName: string, serviceName: string)
    | EnabledService(displayName: string, serviceName: string)
    | FailedToStartService(displayName: string, serviceName: string)
      // tasks
    | DisabledTask(path: string)
    | FailedToDisableTask(path: string)
    | EnabledTask(path: string)
    | FailedToEnableTask(path: string)
}
