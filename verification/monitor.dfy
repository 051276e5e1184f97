/** The two triggers that drive setup attempts, the start-up state, and runs
    of trigger events. Both triggers are handled on the main run loop, so
    they are modelled as events applied one at a time; the one-second delay
    and the five-second period are not modelled. */
module Monitor {
  import opened Optional
  import opened Devices
  import opened Bridge

  /** The default-output query: the selected device, or the registry's
      unknown identifier when the query fails. */
  function DefaultOutputDevice(env: Environment): (r: DeviceId)
    ensures env.defaultOutput.None? ==> r == Unknown
    ensures env.defaultOutput.Some? ==> r == env.defaultOutput.value
  {
    Coalesce(env.defaultOutput, Unknown)
  }

  /** The default output is the device the state knows as the loopback. */
  predicate BlackHoleSelected(env: Environment, s: BridgeState) {
    DefaultOutputDevice(env) == s.blackHoleId
  }

  /** The delayed check after a default-output change: a setup attempt
      whenever the loopback is selected, even over an active bridge; no
      effect at all otherwise, so switching away tears nothing down. */
  function DelayedChangeCheck(env: Environment, s: BridgeState): (r: BridgeState)
    ensures !BlackHoleSelected(env, s) ==> r == s
    ensures BlackHoleSelected(env, s) ==> (r.isBridgeActive <==> SetupSucceeds(env))
    ensures r.volume == s.volume
    ensures Consistent(s) ==> Consistent(r)
  {
    if DefaultOutputDevice(env) == s.blackHoleId then TrySetupBridge(env, s) else s
  }

  /** The heartbeat: forces a setup attempt only when the loopback is
      selected and the bridge is not active; otherwise it leaves the state
      alone. An attempt it makes that succeeds activates the bridge. */
  function HeartbeatTick(env: Environment, s: BridgeState): (r: BridgeState)
    ensures r != s ==> BlackHoleSelected(env, s) && !s.isBridgeActive
    ensures s.isBridgeActive ==> r == s
    ensures BlackHoleSelected(env, s) && !s.isBridgeActive ==>
      (r.isBridgeActive <==> SetupSucceeds(env))
    ensures r.volume == s.volume
    ensures Consistent(s) ==> Consistent(r)
  {
    if DefaultOutputDevice(env) == s.blackHoleId && !s.isBridgeActive then TrySetupBridge(env, s) else s
  }

  /** The state at start-up: the loopback looked up once (identifier 0 when
      it is absent), the monitor not looked up yet, gain 0.5, inactive, and
      freshly created engines. */
  function InitialState(devices: seq<Device>): (r: BridgeState)
    ensures !r.isBridgeActive && r.volume == 0.5 && r.dellId == 0
    ensures Resolve(devices, BlackHoleFragment).Some? ==> Some(r.blackHoleId) == Resolve(devices, BlackHoleFragment)
    ensures Resolve(devices, BlackHoleFragment).None? ==> r.blackHoleId == 0
    ensures r.graph.Stopped() && Consistent(r)
  {
    BridgeState(Coalesce(Resolve(devices, BlackHoleFragment), 0), 0, InitialVolume, false, FreshGraph)
  }

  /** One trigger firing, with the environment it observes. */
  datatype Event = DefaultOutputChanged(env: Environment) | Heartbeat(env: Environment)

  /** The main run loop handling one trigger. */
  function Apply(s: BridgeState, e: Event): (r: BridgeState) {
    match e
    case DefaultOutputChanged(env) => DelayedChangeCheck(env, s)
    case Heartbeat(env) => HeartbeatTick(env, s)
  }

  /** The state after the main run loop has handled the given triggers one
      at a time, in order. The bridge only ends up active if it already was
      or some event's environment lets a setup attempt go all the way
      through. */
  function Run(s: BridgeState, events: seq<Event>): (r: BridgeState)
    ensures r.isBridgeActive ==>
      s.isBridgeActive || exists k :: 0 <= k < |events| && SetupSucceeds(events[k].env)
    decreases |events|
  {
    if |events| == 0 then s
    else
      var r := Run(Apply(s, events[0]), events[1..]);
      assert forall k :: 0 <= k < |events[1..]| ==> events[1..][k] == events[k + 1];
      assert r.isBridgeActive && !Apply(s, events[0]).isBridgeActive ==>
        exists k :: 0 <= k < |events| && SetupSucceeds(events[k].env);
      assert Apply(s, events[0]).isBridgeActive && !s.isBridgeActive ==> SetupSucceeds(events[0].env);
      r
  }

  /** Whatever the triggers do, a bridge flagged active always sits on a
      complete graph started by the last attempt: the invariant holds at
      start-up and every event keeps it. */
  lemma {:induction false} RunPreservesConsistency(s: BridgeState, events: seq<Event>)
    requires Consistent(s)
    ensures Consistent(Run(s, events))
    decreases |events|
  {
    if |events| > 0 {
      RunPreservesConsistency(Apply(s, events[0]), events[1..]);
    }
  }

  /** The gain is never changed by any sequence of triggers. */
  lemma {:induction false} RunKeepsVolume(s: BridgeState, events: seq<Event>)
    ensures Run(s, events).volume == s.volume
    decreases |events|
  {
    if |events| > 0 {
      RunKeepsVolume(Apply(s, events[0]), events[1..]);
    }
  }

  /** A run starting from the start-up state never shows an active bridge
      over an incomplete graph. */
  lemma RunFromStartIsConsistent(devices: seq<Device>, events: seq<Event>)
    ensures Consistent(Run(InitialState(devices), events))
  {
    RunPreservesConsistency(InitialState(devices), events);
  }

  /** The default output answered by the query, when the query succeeds, is
      a real device, never the unknown identifier. */
  predicate ReportsRealDefault(e: Event) {
    e.env.defaultOutput.Some? && e.env.defaultOutput.value != Unknown
  }

  /** While the state's loopback identifier is still the unknown value 0 and
      every default-output query answers with a real device, neither trigger
      ever fires: the state, including its inactive flag, never changes. */
  lemma NoAttemptWhileBlackHoleIdUnknown(s: BridgeState, events: seq<Event>)
    requires s.blackHoleId == Unknown
    requires forall k :: 0 <= k < |events| ==> ReportsRealDefault(events[k])
    ensures Run(s, events) == s
  {
    forall k | 0 <= k < |events|
      ensures DefaultOutputDevice(events[k].env) != s.blackHoleId
    {
      assert ReportsRealDefault(events[k]);
    }
    SwitchingAwayKeepsBridge(s, events);
  }

  /** A cold start without the loopback device never heals: even after the
      devices appear and the loopback is selected, as long as the default
      query keeps answering, no trigger attempts a setup and the bridge stays
      inactive. */
  lemma ColdStartWithoutBlackHoleStaysInactive(devices: seq<Device>, events: seq<Event>)
    requires Resolve(devices, BlackHoleFragment).None?
    requires forall k :: 0 <= k < |events| ==> ReportsRealDefault(events[k])
    ensures !Run(InitialState(devices), events).isBridgeActive
  {
    NoAttemptWhileBlackHoleIdUnknown(InitialState(devices), events);
  }

  /** Recovery: once the state knows the loopback's identifier and it is
      selected, a heartbeat in an environment where setup goes through
      activates the bridge, and a following heartbeat leaves it as it is. */
  lemma HeartbeatHeals(env: Environment, s: BridgeState)
    requires BlackHoleSelected(env, s) && SetupSucceeds(env)
    ensures HeartbeatTick(env, s).isBridgeActive
    ensures HeartbeatTick(env, HeartbeatTick(env, s)) == HeartbeatTick(env, s)
  {
  }

  /** A repeated heartbeat in an unchanged environment changes nothing more
      than the first one did. */
  lemma HeartbeatIdempotent(env: Environment, s: BridgeState)
    ensures HeartbeatTick(env, HeartbeatTick(env, s)) == HeartbeatTick(env, s)
  {
    var once := HeartbeatTick(env, s);
    if once != s && BlackHoleSelected(env, once) && !once.isBridgeActive {
      SetupIdempotent(env, s);
    }
  }

  /** Unlike the heartbeat, the delayed change check rebuilds an active
      bridge, so a failing rebuild takes a working bridge down. */
  lemma ChangeCheckCanDropActiveBridge(env: Environment, s: BridgeState)
    requires s.isBridgeActive && BlackHoleSelected(env, s) && !SetupSucceeds(env)
    ensures !DelayedChangeCheck(env, s).isBridgeActive
    ensures HeartbeatTick(env, s) == s
  {
  }

  /** Switching the default output away from the loopback, however often,
      leaves an active bridge active and untouched. */
  lemma {:induction false} SwitchingAwayKeepsBridge(s: BridgeState, events: seq<Event>)
    requires forall k :: 0 <= k < |events| ==> DefaultOutputDevice(events[k].env) != s.blackHoleId
    ensures Run(s, events) == s
    decreases |events|
  {
    if |events| > 0 {
      assert Apply(s, events[0]) == s;
      assert forall k :: 0 <= k < |events[1..]| ==> events[1..][k] == events[k + 1];
      SwitchingAwayKeepsBridge(s, events[1..]);
    }
  }
}
