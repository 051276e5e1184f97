# Monitor audio bridge: reconnection state machine

This project models the core of a small macOS program that bridges a virtual
loopback device ("BlackHole") to the speakers of a monitor ("U2723QE"). It
covers the program's reconnection logic:

- **Device resolution** (`Devices`). `getDeviceID` returns the first
  enumerated device whose display name contains a fragment, ignoring case.
  A device whose name query fails is skipped.
- **One setup attempt** (`Bridge.TrySetupBridge`). The attempt runs in a
  fixed order: teardown, resolution of both devices, storing their
  identifiers, binding the engines' units, wiring the player and the capture
  tap, starting both engines, then playing and flagging the bridge active.
  It has an early return when a device is missing and a catch path when an
  engine call throws.
- **The two triggers** (`Monitor`).
  - The delayed check after a default-output change runs a setup attempt
    whenever the loopback is selected.
  - The heartbeat runs one only when the loopback is selected and the
    bridge is inactive.
  - Both run on the main run loop, so they are modelled as events applied
    one at a time (`Monitor.Run`).

Every operating-system and audio-engine call becomes an input of an
`Environment`:

- the enumerated devices and the answer of each device's name query;
- the answer of the default-output query;
- whether each of the four throwing calls succeeds or throws. These are the
  two `setDeviceID` calls and the two engine `start` calls.

Engine calls that cannot throw always take effect in the model: `attach`,
`connect`, `removeTap`/`installTap`, `play` and setting the volume. The
engines and the player node are modelled as a small record (`Bridge.Graph`),
so that teardown and partial failure have something to act on.

Behaviour of the code worth knowing:

- The stored identifiers are not updated when either lookup fails. Each
  attempt rescans the hardware because identifiers can change (comment at
  main.swift:50). But the early return comes before the assignment, so the
  identifiers keep their previous values.
- A throw does not stop what was already started. If only the input engine
  fails to start, the output engine stays running while the bridge is
  flagged inactive (`Bridge.InputStartFailureLeavesOutputRunning`).
- The heartbeat forces a reconnect when BlackHole is selected but the bridge
  is not running (comment at main.swift:101). "Selected" means the default
  output equals the stored `blackHoleID` (main.swift:94, 103).
  - That identifier starts at 0 (main.swift:7), the registry's "unknown"
    identifier. Start-up overwrites it only when BlackHole is present
    (main.swift:115), and otherwise only a setup attempt does.
  - So when BlackHole is absent at start-up, and the default-output query
    keeps answering with a real device, neither trigger ever fires. The
    bridge stays inactive even after the devices appear
    (`Monitor.ColdStartWithoutBlackHoleStaysInactive`).
- The delayed change check rebuilds a bridge that is already active. A
  rebuild that fails therefore takes a working bridge down
  (`Monitor.ChangeCheckCanDropActiveBridge`).

## Model

| member | source | states |
|---|---|---|
| `Text.LocalizedCaseInsensitiveContains` | main.swift:29 | The offset-by-offset search answers true exactly when some offset of the name holds the fragment up to ASCII case. An empty fragment is never found. |
| `Text.ContainsIgnoresCaseOfHay` | main.swift:29 | Lower-casing the device name first never changes whether it contains the fragment. |
| `Text.ContainsIgnoresCaseOfNeedle` | main.swift:29 | Lower-casing the fragment first never changes whether a name contains it. |
| `Text.TypicalNamesMatch` | main.swift:51-52 | "BlackHole 2ch" and "blackhole 16ch" contain "BlackHole", and "DELL U2723QE" contains "U2723QE". A name without the fragment does not contain it. |
| `Devices.DisplayName` | main.swift:25-28 | A failed name query gives no name, a successful query without a string gives the empty name, and otherwise the name is the reported string. |
| `Devices.NamelessDeviceNeverMatches` | main.swift:28-29 | A device whose name query succeeds without a string is never a candidate for any fragment. |
| `Devices.Resolve` | main.swift:23-32 | The result is absent exactly when no device's readable name contains the fragment. When present, it is the identifier of a device that matches while no device before it does. |
| `Devices.FirstMatchIsResolved` | main.swift:23-32 | Whenever a position holds the first matching device in enumeration order, resolution returns that device's identifier. |
| `Devices.ResolveAppend` | main.swift:23-32 | Devices enumerated after a match never change the result. When the front of the list has no match, the rest of the list decides. |
| `Devices.FailedNameQueryIsSkipped` | main.swift:27-30 | Inserting a device whose name query fails anywhere in the list never changes the result. |
| `Devices.GetDeviceId` | main.swift:17-33 | The enumeration loop with its early return computes exactly the first-match resolution. |
| `Bridge.Teardown` | main.swift:45-48 | After teardown the player and both engines are stopped and the bridge is inactive. Identifiers, gain, device bindings, wiring and player gain are unchanged. |
| `Bridge.ConfigureGraph` | main.swift:60-81 | The bridge ends up active exactly when all four throwing calls succeed. A throw from the first binding leaves the state unchanged. A running output engine implies the input unit is bound and the tap installed. The result is always consistent. |
| `Bridge.TrySetupBridge` | main.swift:44-82 | An attempt leaves the bridge active exactly when both lookups succeed and all four throwing calls succeed. The gain is never changed. If a lookup fails, the identifiers and configuration keep their previous values and everything is stopped. If both lookups succeed, the identifiers are the resolved ones, even when a later call throws. An active result always sits on a complete graph that this attempt started and bound to the resolved devices. |
| `Bridge.SetupForgetsPriorActivity` | main.swift:44-58 | Two states that differ only in what was running, and in whether they were flagged active, lead to the same state after an attempt. |
| `Bridge.ResolvedSetupIgnoresPriorState` | main.swift:51-81 | When both devices resolve, the environment alone fixes the identifiers, the activity flag and what runs after the attempt. |
| `Bridge.SetupIdempotent` | main.swift:44-82 | Two consecutive attempts in an unchanged environment give the same state as one. |
| `Bridge.InputStartFailureLeavesOutputRunning` | main.swift:73-81 | When only the input engine's start throws, the bridge is inactive, the output engine keeps running, and the input engine and player are stopped. |
| `Monitor.DefaultOutputDevice` | main.swift:35-41 | A failed default-output query yields the unknown identifier. Otherwise it yields the reported device. |
| `Monitor.DelayedChangeCheck` | main.swift:93-97 | The state is unchanged unless the default output equals the stored loopback identifier. When it does, the bridge ends up active exactly when the attempt goes through, even if it was already active. The gain and the consistency invariant are kept. |
| `Monitor.HeartbeatTick` | main.swift:102-107 | The heartbeat changes the state only if the loopback is selected and the bridge is inactive, so it never touches an active bridge. In that case the bridge ends up active exactly when the attempt goes through. The gain and the consistency invariant are kept. |
| `Monitor.InitialState` | main.swift:113-115 | The start-up state is inactive, with gain 0.5 and monitor identifier 0. The loopback identifier is the first "BlackHole" match, or 0 when there is none. Nothing is running. |
| `Monitor.Run` | main.swift:85-107 | The run loop handles the two triggers one at a time, in order (main.swift:121). The bridge ends up active only if it already was, or if some event's environment lets both lookups and all four throwing calls succeed. |
| `Monitor.RunPreservesConsistency` | main.swift:85-107 | Any sequence of trigger events keeps the rule that an active bridge sits on a complete graph that the last attempt started and bound to the stored devices. |
| `Monitor.RunKeepsVolume` | main.swift:85-107 | No sequence of trigger events changes the gain. |
| `Monitor.RunFromStartIsConsistent` | main.swift:113-117 | Every state reachable from start-up satisfies the consistency invariant. |
| `Monitor.NoAttemptWhileBlackHoleIdUnknown` | main.swift:93-107 | While the stored loopback identifier is 0 and every default-output query answers with a real device, no trigger changes the state. |
| `Monitor.ColdStartWithoutBlackHoleStaysInactive` | main.swift:113-115 | When the loopback is absent at start-up and the default-output query keeps answering, the bridge stays inactive for every later sequence of triggers. |
| `Monitor.HeartbeatHeals` | main.swift:102-107 | When the stored loopback is selected and setup would go through, one heartbeat activates the bridge, and a second heartbeat leaves the state as it is. |
| `Monitor.HeartbeatIdempotent` | main.swift:102-107 | Two heartbeats in an unchanged environment give the same state as one. |
| `Monitor.ChangeCheckCanDropActiveBridge` | main.swift:93-97 | Suppose the bridge is active, the loopback is selected, and setup would fail. Then the delayed check makes the bridge inactive, while a heartbeat would have left it alone. |
| `Monitor.SwitchingAwayKeepsBridge` | main.swift:93-107 | Events whose default output is not the stored loopback leave the state, active or not, exactly as it was. |

## Left out

- The device-registry queries themselves (main.swift:18-22, 24-27, 35-40). Their answers are inputs: the device list, each device's name-query result and the default-output answer. The size computation of the identifier buffer is part of these queries.
- The locale-dependent case folding of `localizedCaseInsensitiveContains`, modelled as ASCII lower-casing. An empty search string is never found, as the platform's range search reports no range for it.
- Audio formats and the connection of the player to the mixer with the output format (main.swift:64-66). Only their effect (player connected) is kept, and they are assumed never to fail.
- The real-time tap closure that schedules captured buffers on the player (main.swift:69-71). It is audio-thread hand-off with nothing to state; only "tap installed" is kept.
- Timing: the 1-second delay before the change check and the 5-second heartbeat period (main.swift:93, 102). Triggers are discrete events applied in sequence.
- The listener registration with its retained opaque pointer (main.swift:87-92, 98-99). This is memory-management plumbing; each notification is modelled by the check it schedules.
- Floating-point volume: the gain is an exact value that is carried, never computed.
- Console output, the keyboard event tap (not present in the file), process start-up messages and the run loop itself (main.swift:118-121). `Monitor.Run` models only the order in which the run loop handles triggers.
- Concurrency: the two triggers never interleave with each other, because both run on the main run loop. The model applies events one at a time.
- Engines that stop on their own are not modelled. AVAudioEngine can stop by itself on a hardware configuration change, such as the monitor being unplugged or a sample-rate change. The graph's running flags record only what the program's own calls started and stopped, so `Bridge.Consistent` states what the last attempt started, not what is running now.
- One device snapshot per trigger event. Both lookups of an attempt read the same device list. In the code, each `getDeviceID` call enumerates the registry again (main.swift:51-52, 18-22), so a device plugged in or removed between the two lookups is not represented.
