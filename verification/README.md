# Disable-Nvidia-Telemetry: the controller core in Dafny

This project models the discovery and enable/disable logic of the
`NvidiaController` class of Disable-Nvidia-Telemetry. That logic finds a fixed
set of NVIDIA telemetry scheduled tasks and services and switches them on or
off one by one. Every switch is compare-before-write and every outcome
becomes one log line. In the four switching operations each sub-step sits
behind its own failure boundary: a task's flag write, a start-mode change,
or a stop or start together with its wait. Discovery is less guarded.
`FindTask` (`NvidiaController.cs:26`) and the `ServiceController`
constructor (line 61) are outside any `try`. In service discovery only
lines 66-74 sit inside a `try`: the status read, the `Add` and the
found-service lines.

The operating system is abstract state:
- a task is `Task(name, path, enabled)`;
- a service is `Service(serviceName, displayName, runState, startMode)`, with
  every run state and start mode the .NET service API can report.

The OS calls are oracles passed in as parameters:
- task lookup is a function `string -> Option<Task>` standing for the task
  scheduler's pattern search;
- service lookup is a function `string -> Option<Service>` standing for
  "open a service controller and read its status", which answers `None` when
  that read faults;
- mutation faults are a set of `(item index, mutation)` pairs. A pair in the
  set means that mutation on that item throws. This stands for the
  `try`/`catch` around each sub-step.

The log is a sequence of tagged `Event` values. All of them are informational
in the source, so events carry no level.

Each operation is a pure function that returns `(new items, log events)`:
- `OsModel` holds the state, the fault oracle and the events.
- `Batch` holds the left fold shared by the four enable/disable operations,
  with its per-item, fixpoint and isolation lemmas.
- `Discovery` holds the catalog (`NvTmMon_*`, `NvTmRep_*`, `NvTmRepOnLogon_*`,
  `NvTelemetryContainer`) and the two discovery operations.
- `TaskTransitions` and `ServiceTransitions` hold the four batch operations.

One rule of the service manager is part of the model (`OsModel.CanStart`):
it starts only a service that is stopped and whose start mode is not
Disabled. A paused or pending service is refused, so the enable path logs a
failed start for it on every run. The start-mode half of the rule is why the
enable path's order matters. It sets the start mode first, then starts the
service, and a failed start-mode write on a Disabled service makes the start
fail too.

Two behaviours of the code that a reader might not expect:
- Discovery reports a service as "Enabled" exactly when it is running. The
  start mode is not read (`NvidiaController.cs:66-73`). The composite projection
  "running and Automatic" (`OsModel.ServiceEnabled`) is used only to state
  where the enable path ends.
- Disabling stops a service only when it is `Running`. A paused or pending
  service keeps its run state, so it ends with start mode Disabled but is not
  `Stopped` (`ServiceTransitions.DisableServicesReachesTarget`).

## Model

| member | source | states |
|---|---|---|
| Discovery.Scan | DisableNvidiaTelemetry/Utilities/NvidiaController.cs:24-44 | the discovery loop (of tasks here, and of services at lines 59-82) returns at most one value per catalog name and logs nothing when logging is off |
| Discovery.ScanResolves | DisableNvidiaTelemetry/Utilities/NvidiaController.cs:24-44 | the discovery loop (of tasks here, and of services at lines 59-82) returns exactly the values the names resolve to, in catalog order; unresolved names are skipped, with or without logging |
| Discovery.ScanLog | DisableNvidiaTelemetry/Utilities/NvidiaController.cs:28-40 | for task discovery and for service discovery (lines 70-80), with logging on, the log is each name's lines in catalog order: the "failed to find" lines for a miss, the "found" lines for a hit |
| Discovery.ScanLogLength | DisableNvidiaTelemetry/Utilities/NvidiaController.cs:28-40 | for either discovery loop, with two lines per hit and one per miss, the log has one line per name plus one per value found |
| Discovery.GetTelemetryTasks | DisableNvidiaTelemetry/Utilities/NvidiaController.cs:18-47 | task discovery logs nothing when logging is off |
| Discovery.GetTelemetryTasksSpec | DisableNvidiaTelemetry/Utilities/NvidiaController.cs:20-46 | the result is the tasks of `NvTmMon_*`, `NvTmRep_*`, `NvTmRepOnLogon_*` that resolve, in that order, and does not depend on logging; with logging the log is the three patterns' lines in order and has 3 + (tasks found) lines |
| Discovery.GetTelemetryTasksMembers | DisableNvidiaTelemetry/Utilities/NvidiaController.cs:24-43 | a task is returned iff some catalog pattern resolves to it |
| Discovery.TwoOfThreeTasksScenario | DisableNvidiaTelemetry/Utilities/NvidiaController.cs:28-42 | when only the monitor and logon-reporter patterns resolve, two tasks come back and the log holds exactly one "failed to find" line, for the reporter pattern |
| Discovery.GetTelemetryServices | DisableNvidiaTelemetry/Utilities/NvidiaController.cs:53-85 | service discovery logs nothing when logging is off |
| Discovery.GetTelemetryServicesSpec | DisableNvidiaTelemetry/Utilities/NvidiaController.cs:59-81 | `NvTelemetryContainer` is returned iff reading its status does not fault, independent of logging; with logging a found service logs its names and "enabled" iff it is running, and a missing one logs one "failed to find" line |
| Discovery.ServiceReportIgnoresStartMode | DisableNvidiaTelemetry/Utilities/NvidiaController.cs:66-73 | changing a service's start mode does not change what discovery logs about it |
| Batch.Run | DisableNvidiaTelemetry/Utilities/NvidiaController.cs:133-148 | each of the four batch loops (this one and lines 93-123, 157-188, 197-213) yields one outcome per input item |
| Batch.RunPerItem | DisableNvidiaTelemetry/Utilities/NvidiaController.cs:133-148 | each of the four batch loops (this one and lines 93-123, 157-188, 197-213) treats every item as its step treats it alone, and its log is the per-item logs in order |
| Batch.RunFixpoint | DisableNvidiaTelemetry/Utilities/NvidiaController.cs:133-148 | in any of the four batch loops (this one and lines 93-123, 157-188, 197-213), a batch whose every item is already at the step's target is unchanged and logs nothing |
| Batch.RunIsolation | DisableNvidiaTelemetry/Utilities/NvidiaController.cs:133-148 | in any of the four batch loops (this one and lines 93-123, 157-188, 197-213), steps that agree on every item but k give batches that agree on every item but k |
| Batch.RunIsolationLog | DisableNvidiaTelemetry/Utilities/NvidiaController.cs:133-148 | in any of the four batch loops (this one and lines 93-123, 157-188, 197-213), steps that agree on every item but k give logs that share the lines before and after item k and differ only in item k's own lines |
| TaskTransitions.DisableTelemetryTasks | DisableNvidiaTelemetry/Utilities/NvidiaController.cs:131-149 | every task keeps its name and path and ends disabled, unless it was enabled and its write faulted, in which case it stays enabled |
| TaskTransitions.DisableTasksLog | DisableNvidiaTelemetry/Utilities/NvidiaController.cs:135-147 | the log is the tasks' lines in order: none for a disabled task, one success line for a write that went through, one failure line for a write that faulted |
| TaskTransitions.DisableTasksAtTarget | DisableNvidiaTelemetry/Utilities/NvidiaController.cs:137-141 | a batch of disabled tasks gets no write and no log line, whatever faults are armed |
| TaskTransitions.DisableTasksIdempotent | DisableNvidiaTelemetry/Utilities/NvidiaController.cs:133-148 | disabling again after a run without faults changes nothing and logs nothing |
| TaskTransitions.DisableTasksFaultIsolation | DisableNvidiaTelemetry/Utilities/NvidiaController.cs:133-148 | a write fault on task k keeps task k's flag and swaps its success line for a failure line; all other tasks and log lines are unchanged |
| TaskTransitions.EnableTelemetryTasks | DisableNvidiaTelemetry/Utilities/NvidiaController.cs:195-214 | missing entries stay missing; every task keeps its name and path and ends enabled unless its write faulted |
| TaskTransitions.EnableTasksLog | DisableNvidiaTelemetry/Utilities/NvidiaController.cs:197-213 | the log is the entries' lines in order: none for a missing entry or an enabled task, one success or one failure line otherwise |
| TaskTransitions.EnableTasksAtTarget | DisableNvidiaTelemetry/Utilities/NvidiaController.cs:199-206 | a batch of enabled tasks and missing entries gets no write and no log line |
| TaskTransitions.EnableTasksIdempotent | DisableNvidiaTelemetry/Utilities/NvidiaController.cs:197-213 | enabling again after a run without faults changes nothing and logs nothing |
| TaskTransitions.EnableTasksFaultIsolation | DisableNvidiaTelemetry/Utilities/NvidiaController.cs:197-213 | a write fault on entry k keeps entry k and swaps its success line for a failure line; everything else is unchanged |
| TaskTransitions.TasksRoundTrip | DisableNvidiaTelemetry/Utilities/NvidiaController.cs:133-213 | enabled tasks come back unchanged from disable-then-enable, with exactly one success line per task in each direction |
| ServiceTransitions.DisableTelemetryServices | DisableNvidiaTelemetry/Utilities/NvidiaController.cs:91-124 | a disable batch yields one service per input service |
| ServiceTransitions.DisableServiceSubSteps | DisableNvidiaTelemetry/Utilities/NvidiaController.cs:95-122 | running the stop sub-step and then the start-mode sub-step gives the outcome and lines of judging each on the original service: a stop is tried iff it was running, a start-mode write iff its mode was not Disabled, and a faulted stop does not prevent the start-mode write |
| ServiceTransitions.DisableServicesEffect | DisableNvidiaTelemetry/Utilities/NvidiaController.cs:93-123 | every service keeps its names; a running one ends stopped unless the stop faulted; its start mode ends Disabled unless that write faulted; the log is each service's stop line then start-mode line, in batch order |
| ServiceTransitions.DisableServicesAtTarget | DisableNvidiaTelemetry/Utilities/NvidiaController.cs:97-116 | services not running and already Disabled get no mutation and no log line |
| ServiceTransitions.DisableServicesIdempotent | DisableNvidiaTelemetry/Utilities/NvidiaController.cs:93-123 | disabling again after a run without faults changes nothing and logs nothing |
| ServiceTransitions.DisableServicesFaultIsolation | DisableNvidiaTelemetry/Utilities/NvidiaController.cs:93-123 | a fault in either sub-step of service k changes only service k's outcome and lines; all other services and lines are unchanged |
| ServiceTransitions.DisableServicesReachesTarget | DisableNvidiaTelemetry/Utilities/NvidiaController.cs:95-122 | without faults every service ends Disabled and not running; a running or stopped one ends fully disabled |
| ServiceTransitions.EnableTelemetryServices | DisableNvidiaTelemetry/Utilities/NvidiaController.cs:155-189 | an enable batch yields one service per input service |
| ServiceTransitions.EnableServiceSubSteps | DisableNvidiaTelemetry/Utilities/NvidiaController.cs:159-187 | the start-mode sub-step runs first and the start sees the mode it left: a mode write is tried iff the mode was not Automatic, a start iff the service was not running, even after a faulted mode write; the start fails when it faults, when the service was not stopped, or when a Disabled service's mode write faulted |
| ServiceTransitions.EnableServicesEffect | DisableNvidiaTelemetry/Utilities/NvidiaController.cs:157-188 | every service keeps its names; its start mode ends Automatic unless that write faulted; a stopped one ends running iff its start does not fault and its resulting mode is not Disabled; a paused or pending one keeps its run state; the log is each service's start-mode line then start line, in batch order |
| ServiceTransitions.EnableServicesReachesTarget | DisableNvidiaTelemetry/Utilities/NvidiaController.cs:159-187 | without faults every service ends with start mode Automatic; a running or stopped one ends running, including one that started out Disabled; a paused or pending one keeps its run state |
| ServiceTransitions.EnableServicesAtTarget | DisableNvidiaTelemetry/Utilities/NvidiaController.cs:161-176 | running services with start mode Automatic get no mutation and no log line |
| ServiceTransitions.EnableServicesIdempotent | DisableNvidiaTelemetry/Utilities/NvidiaController.cs:157-188 | enabling again after a run without faults changes nothing, under any faults; it logs nothing iff no service was paused or pending, since such a service is refused its start again |
| ServiceTransitions.EnableServicesFaultIsolation | DisableNvidiaTelemetry/Utilities/NvidiaController.cs:157-188 | a fault in either sub-step of service k changes only service k's outcome and lines |
| ServiceTransitions.ServiceDisableEnableScenario | DisableNvidiaTelemetry/Utilities/NvidiaController.cs:93-188 | a running Automatic service is disabled with two mutations and two success lines (stop, then start mode); disabling again does nothing; enabling restores it with two success lines |
| ServiceTransitions.DisableEnabledServices | DisableNvidiaTelemetry/Utilities/NvidiaController.cs:93-123 | without faults, running Automatic services end stopped with start mode Disabled, and the log is each service's stop and start-mode success lines in batch order |
| ServiceTransitions.EnableParkedServices | DisableNvidiaTelemetry/Utilities/NvidiaController.cs:157-188 | without faults, services that a disable left stopped and Disabled end running and Automatic, and the log is each service's start-mode and start success lines in batch order |
| ServiceTransitions.ServicesRoundTrip | DisableNvidiaTelemetry/Utilities/NvidiaController.cs:93-188 | a batch of running Automatic services comes back unchanged from disable-then-enable; without faults the disable log is each service's stop and start-mode success lines, and the enable log is its start-mode and start success lines, in batch order |

## Left out

- Real OS interaction is left out. Task pattern matching, service-controller construction, `Start`/`Stop` and the start-mode helper are oracles or fault-set entries. The start-mode helper (`ServiceHelper`) is not part of this model.
- The blocking `WaitForStatus` calls (lines 100 and 179) are left out. They take no timeout and may block indefinitely. A stop or start and its wait form one sub-step, which either succeeds or faults.
- A faulted sub-step leaves its item unchanged. The model does not cover a stop or start that took effect before its wait failed.
- In the transitions only mutations fault. Reading a task's flag or a service's run state or start mode is a read of the snapshot and never faults. In the source, such a read that throws inside a `try` goes to the failure line, like a failed write.
- Reading the names and paths that the log lines print never faults in the model. In the source every line reads the item again: the success lines read it inside the `try` (lines 101, 115, 140, 165, 180, 205), and the failure lines read it inside the `catch` (lines 107, 121, 146, 171, 186, 211), where nothing guards them. A throw there, such as a service deleted after discovery, ends the whole `foreach`: the rest of the batch is skipped and logs nothing. The per-item isolation of the `*FaultIsolation` lemmas holds only when no such read throws.
- `null` entries in the task-disable batch cannot be expressed: its input is a sequence of tasks, not of optional tasks. The source has no null check there, and its `catch` block would throw again on `task.Path`.
- A logging call that throws inside the `try` of service discovery, after the service was added, is left out. Logging is infallible in the model.
- log4net, message text and the log level (always informational) are left out. Events are tagged values that carry the names and paths the messages print.
- The `TelemetryTask`/`TelemetryService` wrapper classes are not part of this model. Discovery returns the plain `Task`/`Service` records.
- Batch items are value snapshots, not live handles. In the source the lists hold `Task` and `ServiceController` objects (lines 91, 131, 155, 195). If an entry is repeated, its second pass sees the first pass's write: a task passed twice to the disable loop logs one "Disabled task" line, where the model logs two. Discovery never produces a repeated entry, because the three task patterns have disjoint prefixes and there is one service name. The model's lookup oracle is arbitrary, so its contracts do not rely on that.
- A throwing task lookup is left out. `FindTask` (line 26), and a read of a found task's name or flag (lines 38-39), sit outside any `try`. When one of them throws, `GetTelemetryTasks` ends with that exception and the tasks found so far are lost. The model's `find` is total and answers `None` for a task that is not found. Likewise a throwing `ServiceController` constructor (line 61) would end service discovery; the model's query answers `None` only for the caught status read.
