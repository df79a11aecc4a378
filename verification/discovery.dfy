/** Discovery: resolve the fixed catalog of task patterns and service names
    through lookup oracles, in catalog order. A name that resolves to nothing
    is skipped; it is never an error. Log lines are produced only when the
    caller asks for them. */
module Discovery {
  import opened OsModel
  import Batch

  /** The scheduled-task patterns of the monitor, the reporter and the
      logon reporter. */
  const MonitorTask := "NvTmMon_*"
  const ReporterTask := "NvTmRep_*"
  const LogonReporterTask := "NvTmRepOnLogon_*"
  const TaskPatterns: seq<string> := [MonitorTask, ReporterTask, LogonReporterTask]

  /** The one telemetry service. */
  const TelemetryContainer := "NvTelemetryContainer"
  const ServiceNames: seq<string> := [TelemetryContainer]

  /** What one lookup contributes to the result. */
  function Found<V>(o: Option<V>): seq<V>
  {
    match o
    case None => []
    case Some(v) => [v]
  }

  /** Reference definition of the result: the values the names resolve to,
      in the names' order. */
  function Resolved<V>(names: seq<string>, lookup: string -> Option<V>): seq<V>
  {
    if |names| == 0 then [] else Found(lookup(names[0])) + Resolved(names[1..], lookup)
  }

  /** The lines logged for one name: `missing` when the lookup finds
      nothing, `found` when it finds a value. */
  function Lines<V>(name: string, o: Option<V>, found: V -> seq<Event>,
                    missing: string -> seq<Event>): seq<Event>
  {
    match o
    case None => missing(name)
    case Some(v) => found(v)
  }

  /** The discovery loop: looks each name up in order, keeps what is found,
      and logs each attempt when `logging` is set. */
  function Scan<V>(names: seq<string>, lookup: string -> Option<V>, found: V -> seq<Event>,
                   missing: string -> seq<Event>, logging: bool): (r: (seq<V>, seq<Event>))
    ensures |r.0| <= |names|
    ensures !logging ==> r.1 == []
  {
    if |names| == 0 then ([], [])
    else
      var n := |names| - 1;
      var prior := Scan(names[..n], lookup, found, missing, logging);
      var o := lookup(names[n]);
      var lines := if logging then Lines(names[n], o, found, missing) else [];
      (prior.0 + Found(o), prior.1 + lines)
  }

  lemma {:induction false} ResolvedAppend<V>(a: seq<string>, b: seq<string>, lookup: string -> Option<V>)
    ensures Resolved(a + b, lookup) == Resolved(a, lookup) + Resolved(b, lookup)
  {
    if |a| == 0 {
      assert a + b == b;
    } else {
      assert (a + b)[1..] == a[1..] + b;
      ResolvedAppend(a[1..], b, lookup);
    }
  }

  /** The discovery loop returns exactly the reference result, whether or
      not it logs. */
  lemma {:induction false} ScanResolves<V>(names: seq<string>, lookup: string -> Option<V>,
                                          found: V -> seq<Event>, missing: string -> seq<Event>,
                                          logging: bool)
    ensures Scan(names, lookup, found, missing, logging).0 == Resolved(names, lookup)
  {
    if |names| > 0 {
      var n := |names| - 1;
      ScanResolves(names[..n], lookup, found, missing, logging);
      assert names == names[..n] + [names[n]];
      ResolvedAppend(names[..n], [names[n]], lookup);
      assert Resolved([names[n]], lookup) == Found(lookup(names[n])) + Resolved([], lookup);
    }
  }

  /** A value is in the reference result iff some name resolves to it. */
  lemma {:induction false} ResolvedMembers<V>(names: seq<string>, lookup: string -> Option<V>, v: V)
    ensures v in Resolved(names, lookup) <==>
              exists i :: 0 <= i < |names| && lookup(names[i]) == Some(v)
  {
    if |names| > 0 {
      ResolvedMembers(names[1..], lookup, v);
      if v in Resolved(names[1..], lookup) {
        var i :| 0 <= i < |names[1..]| && lookup(names[1..][i]) == Some(v);
        assert lookup(names[i + 1]) == Some(v);
      }
      if exists i :: 0 <= i < |names| && lookup(names[i]) == Some(v) {
        var i :| 0 <= i < |names| && lookup(names[i]) == Some(v);
        if i > 0 {
          assert lookup(names[1..][i - 1]) == Some(v);
        }
      }
    }
  }

  /** With logging on, the log is the per-name lines in the names' order. */
  lemma {:induction false} ScanLog<V>(names: seq<string>, lookup: string -> Option<V>,
                                     found: V -> seq<Event>, missing: string -> seq<Event>)
    ensures Scan(names, lookup, found, missing, true).1 ==
              Batch.Flatten(seq(|names|, i requires 0 <= i < |names| =>
                                           Lines(names[i], lookup(names[i]), found, missing)))
  {
    var segments := seq(|names|, i requires 0 <= i < |names| =>
                                   Lines(names[i], lookup(names[i]), found, missing));
    if |names| > 0 {
      var n := |names| - 1;
      ScanLog(names[..n], lookup, found, missing);
      var prior := seq(n, i requires 0 <= i < n => Lines(names[..n][i], lookup(names[..n][i]), found, missing));
      assert segments == prior + [segments[n]];
      Batch.FlattenAppend(prior, [segments[n]]);
      Batch.FlattenSingle(segments[n]);
    }
  }

  /** With logging on, a found value costs two lines and a missing one one
      line, so the log has one line per name plus one per value found. */
  lemma {:induction false} ScanLogLength<V>(names: seq<string>, lookup: string -> Option<V>,
                                           found: V -> seq<Event>, missing: string -> seq<Event>)
    requires forall v :: |found(v)| == 2
    requires forall name :: |missing(name)| == 1
    ensures var r := Scan(names, lookup, found, missing, true);
            |r.1| == |names| + |r.0|
  {
    if |names| > 0 {
      var n := |names| - 1;
      ScanLogLength(names[..n], lookup, found, missing);
      match lookup(names[n]) {
        case None => assert |missing(names[n])| == 1;
        case Some(v) => assert |found(v)| == 2;
      }
    }
  }

  /** The two lines logged for a task that was found. */
  function FoundTaskLines(t: Task): seq<Event>
  {
    [FoundTask(t.name), TaskReported(t.enabled)]
  }

  function MissingTaskLines(pattern: string): seq<Event>
  {
    [FailedToFindTask(pattern)]
  }

  /** Looks up the telemetry tasks; `find` stands for the task scheduler's
      pattern search. */
  function GetTelemetryTasks(find: string -> Option<Task>, logging: bool): (r: (seq<Task>, seq<Event>))
    ensures !logging ==> r.1 == []
  {
    Scan(TaskPatterns, find, FoundTaskLines, MissingTaskLines, logging)
  }

  /** The tasks found are those of the monitor, reporter and logon reporter
      patterns that resolve, in that order, the same with or without
      logging; with logging each pattern adds its lines in the same order. */
  lemma GetTelemetryTasksSpec(find: string -> Option<Task>, logging: bool)
    ensures var r := GetTelemetryTasks(find, logging);
            && r.0 == Found(find("NvTmMon_*")) + Found(find("NvTmRep_*"))
                      + Found(find("NvTmRepOnLogon_*"))
            && r.0 == GetTelemetryTasks(find, !logging).0
            && (logging ==>
                  r.1 == Lines("NvTmMon_*", find("NvTmMon_*"), FoundTaskLines, MissingTaskLines)
                         + Lines("NvTmRep_*", find("NvTmRep_*"), FoundTaskLines, MissingTaskLines)
                         + Lines("NvTmRepOnLogon_*", find("NvTmRepOnLogon_*"),
                                 FoundTaskLines, MissingTaskLines))
            && (logging ==> |r.1| == 3 + |r.0|)
  {
    ScanResolves(TaskPatterns, find, FoundTaskLines, MissingTaskLines, logging);
    ScanResolves(TaskPatterns, find, FoundTaskLines, MissingTaskLines, !logging);
    assert TaskPatterns[1..][1..][1..] == [];
    ScanLog(TaskPatterns, find, FoundTaskLines, MissingTaskLines);
    var segments := seq(3, i requires 0 <= i < 3 =>
                             Lines(TaskPatterns[i], find(TaskPatterns[i]), FoundTaskLines, MissingTaskLines));
    assert segments == [segments[0]] + [segments[1]] + [segments[2]];
    Batch.FlattenAppend([segments[0]] + [segments[1]], [segments[2]]);
    Batch.FlattenAppend([segments[0]], [segments[1]]);
    Batch.FlattenSingle(segments[0]);
    Batch.FlattenSingle(segments[1]);
    Batch.FlattenSingle(segments[2]);
    ScanLogLength(TaskPatterns, find, FoundTaskLines, MissingTaskLines);
  }

  /** A task is found iff some catalog pattern resolves to it. */
  lemma GetTelemetryTasksMembers(find: string -> Option<Task>, logging: bool, t: Task)
    ensures t in GetTelemetryTasks(find, logging).0 <==>
              exists i :: 0 <= i < |TaskPatterns| && find(TaskPatterns[i]) == Some(t)
  {
    ScanResolves(TaskPatterns, find, FoundTaskLines, MissingTaskLines, logging);
    ResolvedMembers(TaskPatterns, find, t);
  }

  /** Two of the three patterns resolve: two tasks come back and the log
      holds one "failed to find" line, for the pattern that did not. */
  lemma TwoOfThreeTasksScenario(find: string -> Option<Task>, monitor: Task, logon: Task)
    requires find(MonitorTask) == Some(monitor)
    requires find(ReporterTask) == None
    requires find(LogonReporterTask) == Some(logon)
    ensures GetTelemetryTasks(find, true) ==
              ([monitor, logon],
               [FoundTask(monitor.name), TaskReported(monitor.enabled),
                FailedToFindTask("NvTmRep_*"),
                FoundTask(logon.name), TaskReported(logon.enabled)])
  {
    GetTelemetryTasksSpec(find, true);
    assert Found(find(MonitorTask)) + Found(find(ReporterTask)) + Found(find(LogonReporterTask))
           == [monitor] + [] + [logon];
    assert Lines(ReporterTask, find(ReporterTask), FoundTaskLines, MissingTaskLines)
           == [FailedToFindTask(ReporterTask)];
    assert Lines(MonitorTask, find(MonitorTask), FoundTaskLines, MissingTaskLines)
           == FoundTaskLines(monitor);
    assert Lines(LogonReporterTask, find(LogonReporterTask), FoundTaskLines, MissingTaskLines)
           == FoundTaskLines(logon);
    var r := GetTelemetryTasks(find, true);
    assert r.0 == [monitor, logon];
    assert r.1 == FoundTaskLines(monitor) + [FailedToFindTask(ReporterTask)] + FoundTaskLines(logon);
    assert r.1 == [FoundTask(monitor.name), TaskReported(monitor.enabled),
                   FailedToFindTask("NvTmRep_*"),
                   FoundTask(logon.name), TaskReported(logon.enabled)];
  }

  /** The two lines logged for a service that was found: its names, and
      "enabled" exactly when it is running (the start mode is not read). */
  function FoundServiceLines(s: Service): seq<Event>
  {
    [FoundService(s.displayName, s.serviceName), ServiceReported(s.runState == Running)]
  }

  function MissingServiceLines(name: string): seq<Event>
  {
    [FailedToFindService(name)]
  }

  /** Looks up the telemetry services; `query` stands for opening a service
      controller and reading its status, and answers None when that faults
      (absent service and unreadable service alike). */
  function GetTelemetryServices(query: string -> Option<Service>, logging: bool): (r: (seq<Service>, seq<Event>))
    ensures !logging ==> r.1 == []
  {
    Scan(ServiceNames, query, FoundServiceLines, MissingServiceLines, logging)
  }

  /** The telemetry container is returned iff reading it does not fault; with
      logging, a found service is reported enabled iff it is running, and a
      missing one adds one "failed to find" line. */
  lemma GetTelemetryServicesSpec(query: string -> Option<Service>, logging: bool)
    ensures var r := GetTelemetryServices(query, logging);
            && r.0 == Found(query("NvTelemetryContainer"))
            && r.0 == GetTelemetryServices(query, !logging).0
            && (logging ==>
                  r.1 == match query("NvTelemetryContainer")
                         case None => [FailedToFindService("NvTelemetryContainer")]
                         case Some(s) => [FoundService(s.displayName, s.serviceName),
                                          ServiceReported(s.runState == Running)])
  {
    ScanResolves(ServiceNames, query, FoundServiceLines, MissingServiceLines, logging);
    ScanResolves(ServiceNames, query, FoundServiceLines, MissingServiceLines, !logging);
    assert ServiceNames[..0] == [];
  }

  /** The same query with every found service's start mode replaced. */
  function WithStartMode(query: string -> Option<Service>, mode: StartMode): string -> Option<Service>
  {
    name => match query(name)
            case None => None
            case Some(s) => Some(s.(startMode := mode))
  }

  /** Discovery's log does not depend on the start mode: a stopped service
      set to Automatic and a running service set to Disabled are reported by
      their run state alone. */
  lemma ServiceReportIgnoresStartMode(query: string -> Option<Service>, mode: StartMode, logging: bool)
    ensures GetTelemetryServices(WithStartMode(query, mode), logging).1 ==
              GetTelemetryServices(query, logging).1
  {
    GetTelemetryServicesSpec(query, logging);
    GetTelemetryServicesSpec(WithStartMode(query, mode), logging);
  }
}
