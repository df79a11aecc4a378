/** Disabling and enabling scheduled tasks: one compare-before-write per task,
    each write guarded by its own failure boundary. */
module TaskTransitions {
  import opened OsModel
  import Batch

  /** The log line, if any, that one iteration of the disable loop writes:
      nothing for a disabled task, otherwise a success or a failure line. */
  function DisableLine(t: Task, fault: bool): seq<Event>
  {
    if !t.enabled then []
    else if fault then [FailedToDisableTask(t.path)]
    else [DisabledTask(t.path)]
  }

  /** One iteration of the disable loop: only an enabled task is written,
      and a faulted write leaves it as it was. */
  function DisableTask(t: Task, fault: bool): (Task, seq<Event>)
  {
    (if t.enabled && !fault then t.(enabled := false) else t, DisableLine(t, fault))
  }

  function DisableStep(faults: Faults): (Task, nat) -> (Task, seq<Event>)
  {
    (t: Task, i: nat) => DisableTask(t, Faulted(faults, i, SetTaskEnabled))
  }

  /** Disables every task of the batch that is enabled. The input holds no
      missing entries: the operation does not check for them. */
  function DisableTelemetryTasks(tasks: seq<Task>, faults: Faults): (r: (seq<Task>, seq<Event>))
    ensures |r.0| == |tasks|
    // only the flag changes, and it ends false unless the write faulted
    ensures forall i :: 0 <= i < |tasks| ==>
              r.0[i] == tasks[i].(enabled := tasks[i].enabled && Faulted(faults, i, SetTaskEnabled))
  {
    Batch.RunPerItem(tasks, DisableStep(faults));
    Batch.Run(tasks, DisableStep(faults))
  }

  /** The log is the tasks' lines in batch order: nothing for a task already
      disabled, one success line for a task whose write went through, one
      failure line for a task whose write faulted. */
  lemma DisableTasksLog(tasks: seq<Task>, faults: Faults)
    ensures var segments := Batch.Segments(tasks, DisableStep(faults));
            && DisableTelemetryTasks(tasks, faults).1 == Batch.Flatten(segments)
            && forall i :: 0 <= i < |tasks| ==>
                 segments[i] == DisableLine(tasks[i], Faulted(faults, i, SetTaskEnabled))
  {
    Batch.RunPerItem(tasks, DisableStep(faults));
  }

  /** A batch of disabled tasks is left alone: no write, no log line, so no
      fault can touch it. */
  lemma DisableTasksAtTarget(tasks: seq<Task>, faults: Faults)
    requires forall i :: 0 <= i < |tasks| ==> !tasks[i].enabled
    ensures DisableTelemetryTasks(tasks, faults) == (tasks, [])
  {
    Batch.RunFixpoint(tasks, DisableStep(faults));
  }

  /** Disabling a second time after a run without faults changes nothing
      and logs nothing. */
  lemma DisableTasksIdempotent(tasks: seq<Task>, again: Faults)
    ensures var once := DisableTelemetryTasks(tasks, {}).0;
            DisableTelemetryTasks(once, again) == (once, [])
  {
    DisableTasksAtTarget(DisableTelemetryTasks(tasks, {}).0, again);
  }

  /** A fault on the write of task k keeps task k's flag and turns its
      success line into a failure line; every other task, and every other
      line of the log, is as it would have been without that fault. */
  lemma DisableTasksFaultIsolation(tasks: seq<Task>, faults: Faults, k: nat)
    requires k < |tasks|
    ensures var base := DisableTelemetryTasks(tasks, faults);
            var hit := DisableTelemetryTasks(tasks, faults + {(k, SetTaskEnabled)});
            var before := Batch.LogBefore(tasks, DisableStep(faults), k);
            var after := Batch.LogAfter(tasks, DisableStep(faults), k);
            && (forall i :: 0 <= i < |tasks| && i != k ==> hit.0[i] == base.0[i])
            && hit.0[k] == tasks[k]
            && base.1 == before + DisableLine(tasks[k], Faulted(faults, k, SetTaskEnabled)) + after
            && hit.1 == before + DisableLine(tasks[k], true) + after
  {
    var faults' := faults + {(k, SetTaskEnabled)};
    forall i | 0 <= i < |tasks| && i != k
      ensures DisableStep(faults)(tasks[i], i) == DisableStep(faults')(tasks[i], i)
    {
      assert Faulted(faults, i, SetTaskEnabled) == Faulted(faults', i, SetTaskEnabled);
    }
    Batch.RunIsolation(tasks, DisableStep(faults), DisableStep(faults'), k);
    Batch.RunIsolationLog(tasks, DisableStep(faults), DisableStep(faults'), k);
  }

  /** The log line, if any, that one iteration of the enable loop writes:
      nothing for a missing entry or an enabled task, otherwise a success or
      a failure line. */
  function EnableLine(entry: Option<Task>, fault: bool): seq<Event>
  {
    match entry
    case None => []
    case Some(t) =>
      if t.enabled then []
      else if fault then [FailedToEnableTask(t.path)]
      else [EnabledTask(t.path)]
  }

  /** One iteration of the enable loop: a missing entry is skipped, only a
      disabled task is written, and a faulted write leaves it as it was. */
  function EnableTask(entry: Option<Task>, fault: bool): (Option<Task>, seq<Event>)
  {
    var outcome := match entry
      case Some(t) => if !t.enabled && !fault then Some(t.(enabled := true)) else entry
      case None => None;
    (outcome, EnableLine(entry, fault))
  }

  function EnableStep(faults: Faults): (Option<Task>, nat) -> (Option<Task>, seq<Event>)
  {
    (t: Option<Task>, i: nat) => EnableTask(t, Faulted(faults, i, SetTaskEnabled))
  }

  /** Enables every task of the batch that is disabled; missing entries stay
      missing. */
  function EnableTelemetryTasks(tasks: seq<Option<Task>>, faults: Faults): (r: (seq<Option<Task>>, seq<Event>))
    ensures |r.0| == |tasks|
    ensures forall i :: 0 <= i < |tasks| && tasks[i].None? ==> r.0[i].None?
    // only the flag changes, and it ends true unless the write faulted
    ensures forall i :: 0 <= i < |tasks| && tasks[i].Some? ==>
              r.0[i] == Some(tasks[i].value.(enabled := tasks[i].value.enabled
                                                        || !Faulted(faults, i, SetTaskEnabled)))
  {
    Batch.RunPerItem(tasks, EnableStep(faults));
    Batch.Run(tasks, EnableStep(faults))
  }

  /** The log is the entries' lines in batch order: nothing for a missing
      entry or an enabled task, one success or one failure line otherwise. */
  lemma EnableTasksLog(tasks: seq<Option<Task>>, faults: Faults)
    ensures var segments := Batch.Segments(tasks, EnableStep(faults));
            && EnableTelemetryTasks(tasks, faults).1 == Batch.Flatten(segments)
            && forall i :: 0 <= i < |tasks| ==>
                 segments[i] == EnableLine(tasks[i], Faulted(faults, i, SetTaskEnabled))
  {
    Batch.RunPerItem(tasks, EnableStep(faults));
  }

  /** A batch of enabled tasks and missing entries is left alone. */
  lemma EnableTasksAtTarget(tasks: seq<Option<Task>>, faults: Faults)
    requires forall i :: 0 <= i < |tasks| ==> tasks[i].None? || tasks[i].value.enabled
    ensures EnableTelemetryTasks(tasks, faults) == (tasks, [])
  {
    Batch.RunFixpoint(tasks, EnableStep(faults));
  }

  /** Enabling a second time after a run without faults changes nothing and
      logs nothing. */
  lemma EnableTasksIdempotent(tasks: seq<Option<Task>>, again: Faults)
    ensures var once := EnableTelemetryTasks(tasks, {}).0;
            EnableTelemetryTasks(once, again) == (once, [])
  {
    EnableTasksAtTarget(EnableTelemetryTasks(tasks, {}).0, again);
  }

  /** A fault on the write of entry k keeps entry k and turns its success
      line into a failure line; everything else is unaffected. */
  lemma EnableTasksFaultIsolation(tasks: seq<Option<Task>>, faults: Faults, k: nat)
    requires k < |tasks|
    ensures var base := EnableTelemetryTasks(tasks, faults);
            var hit := EnableTelemetryTasks(tasks, faults + {(k, SetTaskEnabled)});
            var before := Batch.LogBefore(tasks, EnableStep(faults), k);
            var after := Batch.LogAfter(tasks, EnableStep(faults), k);
            && (forall i :: 0 <= i < |tasks| && i != k ==> hit.0[i] == base.0[i])
            && hit.0[k] == tasks[k]
            && base.1 == before + EnableLine(tasks[k], Faulted(faults, k, SetTaskEnabled)) + after
            && hit.1 == before + EnableLine(tasks[k], true) + after
  {
    var faults' := faults + {(k, SetTaskEnabled)};
    forall i | 0 <= i < |tasks| && i != k
      ensures EnableStep(faults)(tasks[i], i) == EnableStep(faults')(tasks[i], i)
    {
      assert Faulted(faults, i, SetTaskEnabled) == Faulted(faults', i, SetTaskEnabled);
    }
    Batch.RunIsolation(tasks, EnableStep(faults), EnableStep(faults'), k);
    Batch.RunIsolationLog(tasks, EnableStep(faults), EnableStep(faults'), k);
  }

  /** The entries of a batch of resolved tasks. */
  function Present(tasks: seq<Task>): (r: seq<Option<Task>>)
  {
    seq(|tasks|, i requires 0 <= i < |tasks| => Some(tasks[i]))
  }

  /** Enabled tasks survive disable-then-enable unchanged, at the cost of
      exactly one write (and one success line) per task in each direction. */
  lemma TasksRoundTrip(tasks: seq<Task>)
    requires forall i :: 0 <= i < |tasks| ==> tasks[i].enabled
    ensures var off := DisableTelemetryTasks(tasks, {});
            var on := EnableTelemetryTasks(Present(off.0), {});
            && on.0 == Present(tasks)
            && off.1 == seq(|tasks|, i requires 0 <= i < |tasks| => DisabledTask(tasks[i].path))
            && on.1 == seq(|tasks|, i requires 0 <= i < |tasks| => EnabledTask(tasks[i].path))
  {
    var off := DisableTelemetryTasks(tasks, {});
    DisableTasksLog(tasks, {});
    EnableTasksLog(Present(off.0), {});
    OneLineEach(Batch.Segments(tasks, DisableStep({})),
                seq(|tasks|, i requires 0 <= i < |tasks| => DisabledTask(tasks[i].path)));
    OneLineEach(Batch.Segments(Present(off.0), EnableStep({})),
                seq(|tasks|, i requires 0 <= i < |tasks| => EnabledTask(tasks[i].path)));
  }

  lemma {:induction false} OneLineEach(segments: seq<seq<Event>>, lines: seq<Event>)
    requires |segments| == |lines|
    requires forall i :: 0 <= i < |segments| ==> segments[i] == [lines[i]]
    ensures Batch.Flatten(segments) == lines
  {
    if |segments| > 0 {
      OneLineEach(segments[1..], lines[1..]);
      assert lines == [lines[0]] + lines[1..];
    }
  }
}
