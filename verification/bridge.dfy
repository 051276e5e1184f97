/** The bridge controller: the state it owns and one setup attempt, which
    tears the routing graph down, re-resolves both devices and rebuilds the
    graph. Every call into the audio engine is replaced by its outcome, read
    from an environment. */
module Bridge {
  import opened Optional
  import opened Devices

  /** Name fragments of the loopback capture device and of the monitor
      whose speakers play the captured audio. */
  const BlackHoleFragment: string := "BlackHole"
  const DellFragment: string := "U2723QE"

  /** Playback gain. It is only carried from the state to the player, never
      computed, so an exact real stands in for the 32-bit float. */
  type Volume = real

  const InitialVolume: Volume := 0.5
  /** The gain a freshly created player node starts with. */
  const PlayerDefaultVolume: Volume := 1.0

  /** The result of a call that may throw. */
  datatype CallOutcome = Succeeds | Throws

  /** Everything one setup attempt reads from outside: the devices the
      registry enumerates, the answer of the default-output query (none when
      the query fails), and the outcome of each throwing engine call. */
  datatype Environment = Environment(
    devices: seq<Device>,
    defaultOutput: Option<DeviceId>,
    setOutputDevice: CallOutcome,
    setInputDevice: CallOutcome,
    startOutputEngine: CallOutcome,
    startInputEngine: CallOutcome)

  /** What the engines and the player node currently hold: the hardware
      device bound to each engine's I/O unit, whether the player is attached
      and connected to the output mixer, whether a capture tap is installed,
      what is running, and the player's gain. */
  datatype Graph = Graph(
    outputUnitDevice: DeviceId,
    inputUnitDevice: DeviceId,
    playerConnected: bool,
    tapInstalled: bool,
    outputRunning: bool,
    inputRunning: bool,
    playerPlaying: bool,
    playerVolume: Volume)
  {
    /** Nothing runs: no engine, no player. */
    predicate Stopped() {
      !outputRunning && !inputRunning && !playerPlaying
    }
  }

  /** A graph as the engines are created: no device explicitly assigned to
      either unit (`Unknown` here stands for "follows the system default"),
      nothing attached, no tap, nothing running. */
  const FreshGraph: Graph :=
    Graph(Unknown, Unknown, false, false, false, false, false, PlayerDefaultVolume)

  /** The controller's state: the two resolved identifiers, the gain, the
      activity flag and the graph it owns. */
  datatype BridgeState = BridgeState(
    blackHoleId: DeviceId,
    dellId: DeviceId,
    volume: Volume,
    isBridgeActive: bool,
    graph: Graph)

  /** The bridge is only ever flagged active over a complete graph that the
      last attempt started: both engines and the player were started (the
      flags record the program's own calls; an engine stopping on its own is
      not modelled), each engine is bound to the device
      recorded in the state, the capture tap feeds the connected player, and
      the player plays at the state's gain. */
  predicate Consistent(s: BridgeState) {
    s.isBridgeActive ==>
      && s.graph.outputRunning && s.graph.inputRunning && s.graph.playerPlaying
      && s.graph.playerConnected && s.graph.tapInstalled
      && s.graph.outputUnitDevice == s.dellId
      && s.graph.inputUnitDevice == s.blackHoleId
      && s.graph.playerVolume == s.volume
  }

  /** Two states agree on everything a setup attempt does not reset first:
      identifiers, gain, device bindings, connection, tap and player gain. */
  predicate SameConfiguration(a: BridgeState, b: BridgeState) {
    && a.blackHoleId == b.blackHoleId
    && a.dellId == b.dellId
    && a.volume == b.volume
    && a.graph.outputUnitDevice == b.graph.outputUnitDevice
    && a.graph.inputUnitDevice == b.graph.inputUnitDevice
    && a.graph.playerConnected == b.graph.playerConnected
    && a.graph.tapInstalled == b.graph.tapInstalled
    && a.graph.playerVolume == b.graph.playerVolume
  }

  /** Both target devices are present in the enumeration. */
  predicate BothResolve(env: Environment) {
    Resolve(env.devices, BlackHoleFragment).Some? && Resolve(env.devices, DellFragment).Some?
  }

  /** None of the four throwing calls throws. */
  predicate AllCallsSucceed(env: Environment) {
    && env.setOutputDevice == Succeeds
    && env.setInputDevice == Succeeds
    && env.startOutputEngine == Succeeds
    && env.startInputEngine == Succeeds
  }

  /** A setup attempt in this environment goes all the way through. */
  predicate SetupSucceeds(env: Environment) {
    BothResolve(env) && AllCallsSucceed(env)
  }

  /** The teardown that opens every attempt: stop the player and both
      engines and clear the activity flag; nothing else is touched. */
  function Teardown(s: BridgeState): (r: BridgeState)
    ensures !r.isBridgeActive && r.graph.Stopped()
    ensures SameConfiguration(r, s)
  {
    s.(isBridgeActive := false,
       graph := s.graph.(playerPlaying := false, inputRunning := false, outputRunning := false))
  }

  /** The guarded block of an attempt, entered with the freshly resolved
      identifiers already stored: bind the output unit, bind the input unit,
      connect the player and install the tap, start the output engine, start
      the input engine, then play at the stored gain and flag the bridge
      active. A throw abandons the rest of the block and keeps whatever the
      calls before it did. */
  function ConfigureGraph(env: Environment, s: BridgeState): (r: BridgeState)
    requires !s.isBridgeActive && s.graph.Stopped()
    ensures r.isBridgeActive <==> AllCallsSucceed(env)
    ensures r.blackHoleId == s.blackHoleId && r.dellId == s.dellId && r.volume == s.volume
    ensures env.setOutputDevice == Succeeds ==> r.graph.outputUnitDevice == s.dellId
    ensures env.setOutputDevice == Throws ==> r == s
    ensures r.graph.outputRunning ==> r.graph.inputUnitDevice == s.blackHoleId && r.graph.tapInstalled
    ensures Consistent(r)
  {
    if env.setOutputDevice == Throws then s
    else
      var bound := s.graph.(outputUnitDevice := s.dellId);
      if env.setInputDevice == Throws then s.(graph := bound)
      else
        var wired := bound.(inputUnitDevice := s.blackHoleId, playerConnected := true, tapInstalled := true);
        if env.startOutputEngine == Throws then s.(graph := wired)
        else
          var outputUp := wired.(outputRunning := true);
          if env.startInputEngine == Throws then s.(graph := outputUp)
          else
            s.(graph := outputUp.(inputRunning := true, playerPlaying := true, playerVolume := s.volume),
               isBridgeActive := true)
  }

  /** One setup attempt: teardown, resolution of both devices, and, only when
      both are found, storing their identifiers and rebuilding the graph.
      When a device is missing the attempt stops right after the teardown. */
  function TrySetupBridge(env: Environment, s: BridgeState): (r: BridgeState)
    ensures r.isBridgeActive <==> SetupSucceeds(env)
    ensures r.volume == s.volume
    ensures !BothResolve(env) ==>
      && r.blackHoleId == s.blackHoleId && r.dellId == s.dellId
      && r.graph.Stopped() && SameConfiguration(r, s)
    ensures BothResolve(env) ==>
      && Some(r.blackHoleId) == Resolve(env.devices, BlackHoleFragment)
      && Some(r.dellId) == Resolve(env.devices, DellFragment)
    ensures Consistent(r)
  {
    var stopped := Teardown(s);
    match (Resolve(env.devices, BlackHoleFragment), Resolve(env.devices, DellFragment))
    case (Some(bh), Some(dell)) =>
      ConfigureGraph(env, stopped.(blackHoleId := bh, dellId := dell))
    case _ => stopped
  }

  /** The prior activity of the bridge plays no part: states that differ only
      in what was running, and in whether they were flagged active, lead to
      the same state after an attempt. */
  lemma SetupForgetsPriorActivity(env: Environment, s1: BridgeState, s2: BridgeState)
    requires SameConfiguration(s1, s2)
    ensures TrySetupBridge(env, s1) == TrySetupBridge(env, s2)
  {
    assert Teardown(s1) == Teardown(s2);
  }

  /** When both devices resolve, what the attempt leaves behind (identifiers,
      activity, running engines and player) is fixed by the environment
      alone, whatever the state before it. */
  lemma ResolvedSetupIgnoresPriorState(env: Environment, s1: BridgeState, s2: BridgeState)
    requires BothResolve(env)
    ensures var r1, r2 := TrySetupBridge(env, s1), TrySetupBridge(env, s2);
      && r1.blackHoleId == r2.blackHoleId && r1.dellId == r2.dellId
      && r1.isBridgeActive == r2.isBridgeActive
      && r1.graph.outputRunning == r2.graph.outputRunning
      && r1.graph.inputRunning == r2.graph.inputRunning
      && r1.graph.playerPlaying == r2.graph.playerPlaying
  {
  }

  /** Two consecutive attempts in an unchanged environment end in the same
      state as one. */
  lemma SetupIdempotent(env: Environment, s: BridgeState)
    ensures TrySetupBridge(env, TrySetupBridge(env, s)) == TrySetupBridge(env, s)
  {
  }

  /** No failure path releases what was started before the throw: when only
      the input engine fails to start, the output engine stays running while
      the bridge is flagged inactive. */
  lemma InputStartFailureLeavesOutputRunning(env: Environment, s: BridgeState)
    requires BothResolve(env)
    requires env.setOutputDevice == Succeeds && env.setInputDevice == Succeeds
    requires env.startOutputEngine == Succeeds && env.startInputEngine == Throws
    ensures var r := TrySetupBridge(env, s);
      !r.isBridgeActive && r.graph.outputRunning && !r.graph.inputRunning && !r.graph.playerPlaying
  {
  }
}
