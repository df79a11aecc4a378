/** Disabling and enabling services. Each service goes through two sub-steps,
    each behind its own failure boundary: disabling stops the service and
    then sets its start mode to Disabled; enabling sets its start mode to
    Automatic and then starts it. */
module ServiceTransitions {
  import opened OsModel
  import Batch

  /** Disable, first sub-step: stop a running service (and wait for it). */
  function StopSubStep(s: Service, fault: bool): (Service, seq<Event>)
  {
    if s.runState != Running then (s, [])
    else if fault then (s, [FailedToDisableService(s.displayName, s.serviceName)])
    else (s.(runState := Stopped), [DisabledService(s.displayName, s.serviceName)])
  }

  /** Disable, second sub-step: set the start mode to Disabled unless it is. */
  function DisableStartupSubStep(s: Service, fault: bool): (Service, seq<Event>)
  {
    if s.startMode == Disabled then (s, [])
    else if fault then (s, [FailedToDisableServiceStartup(s.displayName, s.serviceName)])
    else (s.(startMode := Disabled), [DisabledServiceStartup(s.displayName, s.serviceName)])
  }

  /** One iteration of the disable loop: both sub-steps, in that order, the
      second one on the service the first one left. */
  function DisableService(s: Service, stopFault: bool, startupFault: bool): (Service, seq<Event>)
  {
    var stopped := StopSubStep(s, stopFault);
    var disabled := DisableStartupSubStep(stopped.0, startupFault);
    (disabled.0, stopped.1 + disabled.1)
  }

  function DisableStep(faults: Faults): (Service, nat) -> (Service, seq<Event>)
  {
    (s: Service, i: nat) =>
      DisableService(s, Faulted(faults, i, StopService), Faulted(faults, i, ChangeStartMode))
  }

  /** Stops every running service of the batch and sets every start mode to
      Disabled. */
  function DisableTelemetryServices(services: seq<Service>, faults: Faults): (r: (seq<Service>, seq<Event>))
    ensures |r.0| == |services|
  {
    Batch.Run(services, DisableStep(faults))
  }

  /** Where disabling leaves one service, each sub-step judged on the
      service as it was: a running service is stopped unless the stop
      faulted; the start mode ends Disabled unless that write faulted. */
  function DisableOutcome(s: Service, stopFault: bool, startupFault: bool): Service
  {
    s.(runState := if s.runState == Running && !stopFault then Stopped else s.runState,
       startMode := if startupFault then s.startMode else Disabled)
  }

  /** The log lines disabling writes for one service: the stop line, present
      iff the service was running, then the start mode line, present iff the
      start mode was not Disabled. */
  function DisableLines(s: Service, stopFault: bool, startupFault: bool): seq<Event>
  {
    var dn, sn := s.displayName, s.serviceName;
    (if s.runState != Running then []
     else if stopFault then [FailedToDisableService(dn, sn)]
     else [DisabledService(dn, sn)])
    +
    (if s.startMode == Disabled then []
     else if startupFault then [FailedToDisableServiceStartup(dn, sn)]
     else [DisabledServiceStartup(dn, sn)])
  }

  /** The two disable sub-steps do not interfere: running them in sequence
      gives the outcome and the lines of judging each on the original
      service, so a faulted stop does not keep the start mode from being
      changed. */
  lemma DisableServiceSubSteps(s: Service, stopFault: bool, startupFault: bool)
    ensures DisableService(s, stopFault, startupFault) ==
              (DisableOutcome(s, stopFault, startupFault), DisableLines(s, stopFault, startupFault))
  {
  }

  /** Disabling a batch treats every service on its own: each ends as
      `DisableOutcome` says and contributes `DisableLines`, in batch order. */
  lemma DisableServicesEffect(services: seq<Service>, faults: Faults)
    ensures var r := DisableTelemetryServices(services, faults);
            var segments := Batch.Segments(services, DisableStep(faults));
            && (forall i :: 0 <= i < |services| ==>
                  r.0[i] == DisableOutcome(services[i], Faulted(faults, i, StopService),
                                           Faulted(faults, i, ChangeStartMode)))
            && r.1 == Batch.Flatten(segments)
            && (forall i :: 0 <= i < |services| ==>
                  segments[i] == DisableLines(services[i], Faulted(faults, i, StopService),
                                              Faulted(faults, i, ChangeStartMode)))
  {
    Batch.RunPerItem(services, DisableStep(faults));
    forall i | 0 <= i < |services| {
      DisableServiceSubSteps(services[i], Faulted(faults, i, StopService),
                             Faulted(faults, i, ChangeStartMode));
    }
  }

  /** A service that is not running and is already Disabled is left alone,
      whatever faults are armed. A paused or pending service is not stopped. */
  lemma DisableServicesAtTarget(services: seq<Service>, faults: Faults)
    requires forall i :: 0 <= i < |services| ==>
               services[i].runState != Running && services[i].startMode == Disabled
    ensures DisableTelemetryServices(services, faults) == (services, [])
  {
    forall i | 0 <= i < |services|
      ensures DisableStep(faults)(services[i], i) == (services[i], [])
    {
      var s, a, b := services[i], Faulted(faults, i, StopService), Faulted(faults, i, ChangeStartMode);
      DisableServiceSubSteps(s, a, b);
      assert DisableOutcome(s, a, b) == s;
      assert DisableLines(s, a, b) == [];
    }
    Batch.RunFixpoint(services, DisableStep(faults));
  }

  /** Without faults every service ends with start mode Disabled and not
      running; one that was running or stopped ends fully disabled. */
  lemma DisableServicesReachesTarget(services: seq<Service>)
    ensures var r := DisableTelemetryServices(services, {});
            forall i :: 0 <= i < |services| ==>
              && r.0[i].startMode == Disabled
              && r.0[i].runState != Running
              && (services[i].runState == Running || services[i].runState == Stopped
                  ==> ServiceDisabled(r.0[i]))
  {
    DisableServicesEffect(services, {});
  }

  /** Disabling a second time after a run without faults changes nothing
      and logs nothing. */
  lemma DisableServicesIdempotent(services: seq<Service>, again: Faults)
    ensures var once := DisableTelemetryServices(services, {}).0;
            DisableTelemetryServices(once, again) == (once, [])
  {
    DisableServicesReachesTarget(services);
    DisableServicesAtTarget(DisableTelemetryServices(services, {}).0, again);
  }

  /** A fault in either sub-step of service k affects only service k: every
      other service, and every other service's log lines, are as they would
      have been without it. */
  lemma DisableServicesFaultIsolation(services: seq<Service>, faults: Faults, k: nat, m: Mutation)
    requires k < |services|
    ensures var faults' := faults + {(k, m)};
            var base := DisableTelemetryServices(services, faults);
            var hit := DisableTelemetryServices(services, faults');
            var before := Batch.LogBefore(services, DisableStep(faults), k);
            var after := Batch.LogAfter(services, DisableStep(faults), k);
            && (forall i :: 0 <= i < |services| && i != k ==> hit.0[i] == base.0[i])
            && hit.0[k] == DisableOutcome(services[k], Faulted(faults', k, StopService),
                                          Faulted(faults', k, ChangeStartMode))
            && base.1 == before + DisableLines(services[k], Faulted(faults, k, StopService),
                                               Faulted(faults, k, ChangeStartMode)) + after
            && hit.1 == before + DisableLines(services[k], Faulted(faults', k, StopService),
                                              Faulted(faults', k, ChangeStartMode)) + after
  {
    var faults' := faults + {(k, m)};
    forall i | 0 <= i < |services| && i != k
      ensures DisableStep(faults)(services[i], i) == DisableStep(faults')(services[i], i)
    {
      assert Faulted(faults, i, StopService) == Faulted(faults', i, StopService);
      assert Faulted(faults, i, ChangeStartMode) == Faulted(faults', i, ChangeStartMode);
    }
    Batch.RunIsolation(services, DisableStep(faults), DisableStep(faults'), k);
    Batch.RunIsolationLog(services, DisableStep(faults), DisableStep(faults'), k);
    Batch.RunPerItem(services, DisableStep(faults'));
    DisableServiceSubSteps(services[k], Faulted(faults, k, StopService),
                           Faulted(faults, k, ChangeStartMode));
    DisableServiceSubSteps(services[k], Faulted(faults', k, StopService),
                           Faulted(faults', k, ChangeStartMode));
  }

  /** Enable, first sub-step: set the start mode to Automatic unless it is. */
  function EnableStartupSubStep(s: Service, fault: bool): (Service, seq<Event>)
  {
    if s.startMode == Automatic then (s, [])
    else if fault then (s, [FailedToEnableAutomaticStartup(s.displayName, s.serviceName)])
    else (s.(startMode := Automatic), [EnabledAutomaticStartup(s.displayName, s.serviceName)])
  }

  /** Enable, second sub-step: start a service that is not running (and wait
      for it). The service manager refuses to start a Disabled service. */
  function StartSubStep(s: Service, fault: bool): (Service, seq<Event>)
  {
    if s.runState == Running then (s, [])
    else if fault || !CanStart(s) then (s, [FailedToStartService(s.displayName, s.serviceName)])
    else (s.(runState := Running), [EnabledService(s.displayName, s.serviceName)])
  }

  /** One iteration of the enable loop: both sub-steps, in that order, the
      second one on the service the first one left. */
  function EnableService(s: Service, startupFault: bool, startFault: bool): (Service, seq<Event>)
  {
    var automatic := EnableStartupSubStep(s, startupFault);
    var started := StartSubStep(automatic.0, startFault);
    (started.0, automatic.1 + started.1)
  }

  function EnableStep(faults: Faults): (Service, nat) -> (Service, seq<Event>)
  {
    (s: Service, i: nat) =>
      EnableService(s, Faulted(faults, i, ChangeStartMode), Faulted(faults, i, StartService))
  }

  /** Sets every start mode to Automatic and starts every service that is not
      running. */
  function EnableTelemetryServices(services: seq<Service>, faults: Faults): (r: (seq<Service>, seq<Event>))
    ensures |r.0| == |services|
  {
    Batch.Run(services, EnableStep(faults))
  }

  /** Where enabling leaves one service: the start mode ends Automatic unless
      that write faulted; a stopped service ends running iff its start does
      not fault and the start mode it then has is not Disabled; a service in
      any other state keeps its run state. */
  function EnableOutcome(s: Service, startupFault: bool, startFault: bool): Service
  {
    var mode := if startupFault then s.startMode else Automatic;
    s.(startMode := mode,
       runState := if s.runState == Stopped && !startFault && mode != Disabled then Running else s.runState)
  }

  /** The log lines enabling writes for one service: the start mode line,
      present iff the start mode was not Automatic, then the start line,
      present iff the service was not running, even when the start mode write
      faulted. The start fails when it faults, when the service was not
      stopped, or when it was Disabled and the start mode write faulted. */
  function EnableLines(s: Service, startupFault: bool, startFault: bool): seq<Event>
  {
    var dn, sn := s.displayName, s.serviceName;
    (if s.startMode == Automatic then []
     else if startupFault then [FailedToEnableAutomaticStartup(dn, sn)]
     else [EnabledAutomaticStartup(dn, sn)])
    +
    (if s.runState == Running then []
     else if startFault || s.runState != Stopped || (startupFault && s.startMode == Disabled) then
       [FailedToStartService(dn, sn)]
     else [EnabledService(dn, sn)])
  }

  /** Running the enable sub-steps in sequence gives the outcome and lines
      above: the start is attempted whenever the service is not running, and
      it sees the start mode the first sub-step left. */
  lemma EnableServiceSubSteps(s: Service, startupFault: bool, startFault: bool)
    ensures EnableService(s, startupFault, startFault) ==
              (EnableOutcome(s, startupFault, startFault), EnableLines(s, startupFault, startFault))
  {
  }

  /** Enabling a batch treats every service on its own: each ends as
      `EnableOutcome` says and contributes `EnableLines`, in batch order. */
  lemma EnableServicesEffect(services: seq<Service>, faults: Faults)
    ensures var r := EnableTelemetryServices(services, faults);
            var segments := Batch.Segments(services, EnableStep(faults));
            && (forall i :: 0 <= i < |services| ==>
                  r.0[i] == EnableOutcome(services[i], Faulted(faults, i, ChangeStartMode),
                                          Faulted(faults, i, StartService)))
            && r.1 == Batch.Flatten(segments)
            && (forall i :: 0 <= i < |services| ==>
                  segments[i] == EnableLines(services[i], Faulted(faults, i, ChangeStartMode),
                                             Faulted(faults, i, StartService)))
  {
    Batch.RunPerItem(services, EnableStep(faults));
    forall i | 0 <= i < |services| {
      EnableServiceSubSteps(services[i], Faulted(faults, i, ChangeStartMode),
                            Faulted(faults, i, StartService));
    }
  }

  /** A running service with start mode Automatic is left alone, whatever
      faults are armed. */
  lemma EnableServicesAtTarget(services: seq<Service>, faults: Faults)
    requires forall i :: 0 <= i < |services| ==> ServiceEnabled(services[i])
    ensures EnableTelemetryServices(services, faults) == (services, [])
  {
    forall i | 0 <= i < |services|
      ensures EnableStep(faults)(services[i], i) == (services[i], [])
    {
      var s, a, b := services[i], Faulted(faults, i, ChangeStartMode), Faulted(faults, i, StartService);
      EnableServiceSubSteps(s, a, b);
      assert EnableOutcome(s, a, b) == s;
      assert EnableLines(s, a, b) == [];
    }
    Batch.RunFixpoint(services, EnableStep(faults));
  }

  /** Without faults every service ends with start mode Automatic, and one
      that was running or stopped ends running, including one that started
      out Disabled: the start mode is corrected before the start is
      attempted. A paused or pending service keeps its run state. */
  lemma EnableServicesReachesTarget(services: seq<Service>)
    ensures var r := EnableTelemetryServices(services, {});
            forall i :: 0 <= i < |services| ==>
              && r.0[i].startMode == Automatic
              && (services[i].runState == Running || services[i].runState == Stopped
                  ==> ServiceEnabled(r.0[i]))
              && (services[i].runState != Stopped ==> r.0[i].runState == services[i].runState)
  {
    EnableServicesEffect(services, {});
  }

  /** Enabling a second time after a run without faults changes nothing. It
      logs nothing iff no service was paused or pending: such a service is
      refused its start again, and logs the failure again. */
  lemma EnableServicesIdempotent(services: seq<Service>, again: Faults)
    ensures var once := EnableTelemetryServices(services, {}).0;
            var twice := EnableTelemetryServices(once, again);
            && twice.0 == once
            && (twice.1 == [] <==>
                  forall i :: 0 <= i < |services| ==>
                    services[i].runState == Running || services[i].runState == Stopped)
  {
    var once := EnableTelemetryServices(services, {}).0;
    EnableServicesReachesTarget(services);
    EnableServicesEffect(once, again);
    var segments := Batch.Segments(once, EnableStep(again));
    forall i | 0 <= i < |services|
      ensures EnableTelemetryServices(once, again).0[i] == once[i]
      ensures segments[i] == [] <==> services[i].runState == Running || services[i].runState == Stopped
    {
      var a, b := Faulted(again, i, ChangeStartMode), Faulted(again, i, StartService);
      assert EnableOutcome(once[i], a, b) == once[i];
    }
    Batch.FlattenEmpty(segments);
  }

  /** A fault in either sub-step of service k affects only service k. */
  lemma EnableServicesFaultIsolation(services: seq<Service>, faults: Faults, k: nat, m: Mutation)
    requires k < |services|
    ensures var faults' := faults + {(k, m)};
            var base := EnableTelemetryServices(services, faults);
            var hit := EnableTelemetryServices(services, faults');
            var before := Batch.LogBefore(services, EnableStep(faults), k);
            var after := Batch.LogAfter(services, EnableStep(faults), k);
            && (forall i :: 0 <= i < |services| && i != k ==> hit.0[i] == base.0[i])
            && hit.0[k] == EnableOutcome(services[k], Faulted(faults', k, ChangeStartMode),
                                         Faulted(faults', k, StartService))
            && base.1 == before + EnableLines(services[k], Faulted(faults, k, ChangeStartMode),
                                              Faulted(faults, k, StartService)) + after
            && hit.1 == before + EnableLines(services[k], Faulted(faults', k, ChangeStartMode),
                                             Faulted(faults', k, StartService)) + after
  {
    var faults' := faults + {(k, m)};
    forall i | 0 <= i < |services| && i != k
      ensures EnableStep(faults)(services[i], i) == EnableStep(faults')(services[i], i)
    {
      assert Faulted(faults, i, ChangeStartMode) == Faulted(faults', i, ChangeStartMode);
      assert Faulted(faults, i, StartService) == Faulted(faults', i, StartService);
    }
    Batch.RunIsolation(services, EnableStep(faults), EnableStep(faults'), k);
    Batch.RunIsolationLog(services, EnableStep(faults), EnableStep(faults'), k);
    Batch.RunPerItem(services, EnableStep(faults'));
    EnableServiceSubSteps(services[k], Faulted(faults, k, ChangeStartMode),
                          Faulted(faults, k, StartService));
    EnableServiceSubSteps(services[k], Faulted(faults', k, ChangeStartMode),
                          Faulted(faults', k, StartService));
  }

  /** A running service with start mode Automatic: disabling without faults
      performs two mutations (stop, then start mode) and logs two success
      lines; disabling again performs none; enabling restores it with two
      mutations and two success lines. */
  lemma ServiceDisableEnableScenario(s: Service)
    requires ServiceEnabled(s)
    ensures var off := DisableTelemetryServices([s], {});
            && off == ([s.(runState := Stopped, startMode := Disabled)],
                       [DisabledService(s.displayName, s.serviceName),
                        DisabledServiceStartup(s.displayName, s.serviceName)])
            && DisableTelemetryServices(off.0, {}) == (off.0, [])
            && EnableTelemetryServices(off.0, {}) ==
                 ([s], [EnabledAutomaticStartup(s.displayName, s.serviceName),
                        EnabledService(s.displayName, s.serviceName)])
  {
    var dn, sn := s.displayName, s.serviceName;
    var off := DisableTelemetryServices([s], {});
    DisableServicesEffect([s], {});
    assert Batch.Segments([s], DisableStep({})) == [DisableLines(s, false, false)];
    Batch.FlattenSingle(DisableLines(s, false, false));
    assert off.1 == [DisabledService(dn, sn), DisabledServiceStartup(dn, sn)];
    var s' := s.(runState := Stopped, startMode := Disabled);
    assert off.0 == [s'];
    DisableServicesAtTarget(off.0, {});
    var on := EnableTelemetryServices([s'], {});
    EnableServicesEffect([s'], {});
    assert Batch.Segments([s'], EnableStep({})) == [EnableLines(s', false, false)];
    Batch.FlattenSingle(EnableLines(s', false, false));
    assert on.1 == [EnabledAutomaticStartup(dn, sn), EnabledService(dn, sn)];
    assert on.0 == [s];
  }

  /** The services as a fault-free disable leaves fully enabled ones. */
  function Parked(services: seq<Service>): seq<Service>
  {
    seq(|services|, i requires 0 <= i < |services| =>
          services[i].(runState := Stopped, startMode := Disabled))
  }

  /** Each service's two success lines when it is disabled: stop, then start mode. */
  function DisabledPairs(services: seq<Service>): seq<seq<Event>>
  {
    seq(|services|, i requires 0 <= i < |services| =>
          [DisabledService(services[i].displayName, services[i].serviceName),
           DisabledServiceStartup(services[i].displayName, services[i].serviceName)])
  }

  /** Each service's two success lines when it is enabled: start mode, then start. */
  function EnabledPairs(services: seq<Service>): seq<seq<Event>>
  {
    seq(|services|, i requires 0 <= i < |services| =>
          [EnabledAutomaticStartup(services[i].displayName, services[i].serviceName),
           EnabledService(services[i].displayName, services[i].serviceName)])
  }

  /** Disabling fully enabled services without faults stops them and sets
      their start mode to Disabled, with two success lines each. */
  lemma DisableEnabledServices(services: seq<Service>)
    requires forall i :: 0 <= i < |services| ==> ServiceEnabled(services[i])
    ensures DisableTelemetryServices(services, {}) == (Parked(services), Batch.Flatten(DisabledPairs(services)))
  {
    var off := DisableTelemetryServices(services, {});
    DisableServicesEffect(services, {});
    forall i | 0 <= i < |services|
      ensures off.0[i] == Parked(services)[i]
      ensures Batch.Segments(services, DisableStep({}))[i] == DisabledPairs(services)[i]
    {
      assert !Faulted({}, i, StopService) && !Faulted({}, i, ChangeStartMode);
    }
    assert off.0 == Parked(services);
    assert Batch.Segments(services, DisableStep({})) == DisabledPairs(services);
  }

  /** Enabling the services a fault-free disable left behind restores them,
      with two success lines each. */
  lemma EnableParkedServices(services: seq<Service>)
    requires forall i :: 0 <= i < |services| ==> ServiceEnabled(services[i])
    ensures EnableTelemetryServices(Parked(services), {}) == (services, Batch.Flatten(EnabledPairs(services)))
  {
    var parked := Parked(services);
    var on := EnableTelemetryServices(parked, {});
    EnableServicesEffect(parked, {});
    forall i | 0 <= i < |services|
      ensures on.0[i] == services[i]
      ensures Batch.Segments(parked, EnableStep({}))[i] == EnabledPairs(services)[i]
    {
      assert !Faulted({}, i, ChangeStartMode) && !Faulted({}, i, StartService);
    }
    assert on.0 == services;
    assert Batch.Segments(parked, EnableStep({})) == EnabledPairs(services);
  }

  /** Fully enabled services come back unchanged from disable-then-enable,
      with two success lines per service in each direction: stop then start
      mode, and start mode then start. */
  lemma ServicesRoundTrip(services: seq<Service>)
    requires forall i :: 0 <= i < |services| ==> ServiceEnabled(services[i])
    ensures var off := DisableTelemetryServices(services, {});
            var on := EnableTelemetryServices(off.0, {});
            && on.0 == services
            && off.1 == Batch.Flatten(DisabledPairs(services))
            && on.1 == Batch.Flatten(EnabledPairs(services))
  {
    DisableEnabledServices(services);
    EnableParkedServices(services);
  }
}
