# Verified model of a user-space Media Redundancy Protocol daemon

This project models the protocol core of a user-space implementation of the Media Redundancy
Protocol (MRP, IEC 62439-2): the machines of the ring manager (MRM), ring client (MRC),
interconnection manager (MIM) and interconnection client (MIC) with their timers, the ring that they
form, the byte format of their frames, and the netlink attributes by which the daemon talks to the
kernel.

`dafny verify dfyconfig.toml` checks the whole project.

## How the model is built

- **One instance as a value.** `Types.dfy`, `RingMachine.dfy`, `InterMachine.dfy` and `Node.dfy` give an
  instance as a value `Node(cfg, ring, inter)`, the step that an event makes it take (`Node.Step`) and
  what it sends on the way (`Node.Out`). Events are link changes, CFM defects, received frames and timer
  expiries. A timer is `Idle` or `Armed(repeat, due)`. `Setup.dfy` adds and destroys instances and
  defines runs. All statements about runs are proved on these values.
- **One instance as the program keeps it.** `Instance.dfy` is the class `Mrp` whose methods follow the
  handlers of `state_machine.c` and `timer.c`: members are updated one after the other with frames sent in
  between, and branches with the same statements are merged. Each handler is proved to make the transition
  and to send the frames of the value model, `Handle` does so for every event and `Run` for sequences of
  them. Ports are objects on the heap (`Ports.dfy`), reached through the references `pPort` and `sPort`
  that the machines redirect; that these stay the two original ports is part of `Valid`.
- **Whole-run theorems.** `Mrm.dfy`, `Mrc.dfy` and `Inter.dfy` (invariants, countdown, teardown),
  `Telemetry.dfy`, `Recovery.dfy`, `Detection.dfy` and `InterDetection.dfy` (when a loss is detected, on ring
  and interconnection), `Stability.dfy` (how long a ring stays closed), `SyncFlush.dfy` (simultaneous flush),
  `MicAnnounce.dfy` and `Monitor.dfy` (countdowns of interconnection clients and demoted managers),
  `Duties.dfy` (the frames that a machine owes its neighbours), `Crossing.dfy` (what is taken in and passed
  on, and the way of interconnect frames from end to end).
- **Networks.** `Election.dfy` (auto-manager election over a lossy, duplicating, reordering network),
  `RingNet.dfy` (absorption and loop safety in a ring of N nodes), `AutoRing.dfy` (election inside a ring),
  `Healing.dfy` (closing and opening of a ring by frames that go round),
  `Circulation.dfy` (rings in which a frame is not absorbed).
- **Bytes.** `EtherAddr.dfy`, `Frames.dfy` and `FrameBuffer.dfy` (MRP frames), `Attributes.dfy` and
  `NetlinkMessage.dfy` (netlink attributes).

A *fixed-role manager* below is an instance with ring role MRM, without auto-manager support and
without the role MIM. The last condition is needed: the OPTION case of `mrp_should_process` falls
through to the InTest case, so a manager that is also MIM obeys TestMgrNAck frames
(`Election.DemotedIff`).

## What the code does that a reader may not expect

The model keeps these, and the theorems are stated so that they hold in spite of them.

- The forwarding code reads the interconnection id of every interconnect frame through the InTest
  layout. In all other interconnect frames those two bytes are the start of the source address.
- A demoted auto-manager stores the priority of a heard manager without swapping its bytes (the model
  is for a little-endian host).
- Frames of unknown type are relayed by managers too, even to a blocked port. A ring absorbs them in one
  direction exactly if some node does not let them by (`Circulation.UnknownCirculates`, `UnknownAbsorbed`).
- `no_tc` is cleared right after it is set and is false after every step.
- In LC mode `mrp_destroy` leaves the InTest timer of an interconnection manager running, and the CCM timer
  of an instance without an interconnection role (`InterInvariants.TeardownIff`).
- The complaint of the attribute parser about a remainder reads a length field where the walk stopped, which
  can be outside the input (`Attributes.SafeLengths`).
- Arming a running topology timer anew announces a full burst but leaves the counter as it is, so the manager
  flushes earlier than it has just announced (`SyncFlush.RearmedInstant`).
- An unknown recovery profile keeps the previous intervals and multiplies them by the time factor again.
- The option TLV of a TestMgrNAck claims two bytes fewer than it has; the sub-TLV of a TestPropagate
  claims two bytes more.
- The comments above the interconnect writers list the source address before the id of InTest frames;
  the structure has the id first, and the model follows the structure.
- Frames for a port that is down are composed and consume a sequence number. Distinctness of
  sequence numbers is therefore a statement about composed frames.
- `addattr_nest` ignores that its attribute did not fit (`NetlinkMessage.PatchWithin`).

## Assumptions

- Timer intervals and repetition counts are positive (`ConfigRaw.Ok`; `Recovery.ProfilesOk` shows it for
  the known profiles). Times are microseconds; products that the program forms in 32 bits are reduced
  explicitly (`U32`).
- The addresses of an instance do not change while it exists. Setting a port state, a role or flushing
  always succeeds; a flush is an entry in the output.
- Every handler runs as one step. A step's frames are its result, each marked with whether its port is up.
- A ring role other than MRM and MRC does not occur after `mrp_create`.
- The value model takes frames as they are read. How bytes are read is `MrpFrames.ReadFrame`; what becomes of
  frames that are too short for their fields is `RecvFrame`. No handler looks at the fields `port_role`,
  `state` and `transitions`, so an unknown port role is read as the interconnection one.

## Model

| member | source | states |
|---|---|---|
| `Election.BeatsIsStrictOrder` | state_machine.c:1048-1059 | The order by priority and then address is irreflexive, transitive and, for distinct addresses, total. |
| `Election.BestIffWinner` | state_machine.c:1048-1059 | The best auto-manager is the one with the smallest priority number and, among equals, the smaller byte where the addresses first differ. |
| `Election.OutAttributed` | state_machine.c:1061-1070 | Every test frame a node emits names that node; every denial it emits answers a test frame that was not better than the node itself and names its sender; everything else it passes on is the frame it received. |
| `Election.OnlyNackDemotes` | state_machine.c:1313-1359 | Of all events, only a TestMgrNAck that names the node turns a manager into a client. |
| `Election.DemotedIff` | state_machine.c:1658-1663 | A manager becomes a client if and only if it lets through a TestMgrNAck that names it and is not its own, outside AC_STAT1, and it has auto-manager support or the role MIM. |
| `Duties.DeniesIff` | state_machine.c:1061-1069 | An auto-manager that is manager denies, on both ring ports, exactly the foreign test frames whose sender does not win against it by priority number and address bytes. |
| `Duties.GivingInTells` | state_machine.c:1327-1340 | A manager that gives in tells both neighbours the better of the manager that denied it and the one it knew. |
| `Duties.GivesInto` | state_machine.c:1335-1358 | A manager that gives in has the ports of the client state it enters, DE_IDLE with one link and PT_IDLE with two; it stops announcing and its test timer goes on to watch. |
| `Duties.AutoManagerFlushes` | state_machine.c:1111-1127 | An auto-manager that is manager flushes when another manager's MRP_TopologyChange says so. |
| `Monitor.Watches` | state_machine.c:1071-1079 | Exactly a winning test frame of a node other than the known manager, or the confirmed own TestPropagate, resets the monitor of a demoted auto-manager; only its test timer advances it. |
| `Monitor.Notes` | state_machine.c:1361-1383 | The priority of another manager is noted with its bytes exchanged; the confirmation of its own TestPropagate makes the node take over priority and address from that frame. |
| `Monitor.Promotes` | timer.c:56-85 | Without such frames the node is a client up to the expiry that finds the monitor above its maximum, and exactly that one makes it manager again, in the state that its links ask for. |
| `Election.HonestKept` | state_machine.c:1061-1069 | One step of any node keeps: every denial in flight was sent by a node strictly better than the one it names. |
| `Election.HonestRun` | state_machine.c:1061-1069 | The same in every state of every run of any number of nodes, under loss, duplication and reordering. |
| `Election.DeniedByBetter` | state_machine.c:1313-1359 | In any honest network, a step that makes a manager a client was caused by a denial from a strictly better auto-manager. |
| `Election.DemotedByBetter` | state_machine.c:1313-1359 | Whenever in a run a node stops being manager, an auto-manager that is strictly better has denied it. |
| `Election.NoDemotionCycle` | state_machine.c:1300-1359 | A chain of demotions, at whatever steps of a run, never comes back to the node it started from. |
| `Election.BestExists` | state_machine.c:1048-1059 | Among nodes with distinct addresses, if there is an auto-manager, one auto-manager beats all others. |
| `Election.BestStaysManager` | state_machine.c:1313-1359 | The auto-manager with the smallest priority number, and among equals the smallest address byte by byte, is manager in every state of every run, whatever the other nodes are. |
| `Election.ManagerExists` | state_machine.c:213-245 | A network with at least one auto-manager, all of which start as managers, and any other nodes always has that one as a manager, whatever the network does. |
| `Healing.ClientPassesTest` | state_machine.c:1731-1757 | A client with both links up hands a test frame from one ring port to the other exactly once and is itself unchanged. |
| `Healing.ClientPasses` | state_machine.c:1611-1622 | A client with both links up passes every ring frame that is no option from either port to the other, blocked or not, keeps both links and is affected by a topology change alone. |
| `Healing.ManagerTests` | timer.c:28-32 | An expired test timer in CHK_RO sends the test frame out of both ring ports and leaves the manager in CHK_RO. |
| `Healing.ManagerCloses` | state_machine.c:1024-1038 | Its own test frame, on either port, takes the manager to CHK_RC with the secondary port blocked. |
| `Healing.RelayAround` | state_machine.c:1712-1757 | By induction over the ring: such a frame is carried through all clients on its way, each exactly once, and reaches the manager. |
| `Healing.RingHeals` | state_machine.c:1007-1046 | In a ring of any size with all links up, one test-timer expiry and lossless relaying in either direction take the frame through every client once and back to the other port of the manager, and leave the manager in CHK_RC with a blocked secondary port and all clients unchanged. |
| `Healing.ReportOpens` | state_machine.c:1275-1283 | MRP_LinkDown on either port, the blocked one included, makes a reacting manager in CHK_RC open its secondary port, enter CHK_RO and make everybody flush at once. |
| `Healing.LossOpens` | state_machine.c:2109-2186 | In a ring of any size, when a client loses a link, its MRP_LinkDown travels the other way round through every client on the way, reaches the manager and opens the ring there, whichever way that is. |
| `RingNet.RelayIsForwarding` | state_machine.c:1926-1949 | Nothing is relayed but the frame just received, and only by the forwarding decision. |
| `RingNet.NeverBack` | state_machine.c:1722-1733 | A frame never leaves through the port it came in on. |
| `RingNet.RingFrameRelay` | state_machine.c:1735-1762 | A ring frame is relayed by clients only, from one ring port to the other, never to or from an interconnection port. |
| `RingNet.InFrameRelay` | state_machine.c:1764-1786 | A manager of which one ring port does not forward passes no interconnect frame between its ring ports, whatever its interconnection role. |
| `RingNet.Absorption` | state_machine.c:1735-1884 | In every run of a ring of N nodes, whatever frames are put on its links and whatever the other nodes are, a frame leaves at most N ring ports, at most its distance from the manager: ring frames if one node is manager whenever it acts, interconnect frames if that manager also has a ring port that does not forward. |
| `RingNet.FixedManagerAbsorbs` | state_machine.c:1764-1786 | With a fixed-role manager the bound holds for ring frames in every run and for interconnect frames in every run in which the manager is not in CHK_RO. |
| `AutoRing.AutoRun` | state_machine.c:1061-1069 | Inside a ring, too, denials stay honest and the best auto-manager stays manager. |
| `AutoRing.AutoManagersAbsorb` | state_machine.c:1735-1762 | In every run of a ring with auto-managers and honest frames, the best auto-manager is manager throughout and no ring frame leaves more ring ports than its distance from it. |
| `Circulation.Circulates` | state_machine.c:1878-1884 | In a ring whose nodes are all in a condition in which they hand a frame on and stay in that condition, the frame reaches any number of hops in some run. |
| `Circulation.UnknownCirculates` | state_machine.c:1733-1884 | A frame of unknown type goes round for ever in a ring whose nodes let it in by a forwarding port and out by a port that is up, whatever their roles. |
| `Circulation.UnknownAbsorbed` | state_machine.c:1595-1632 | The other half: one node that, whenever it acts, receives on a port that does not forward or has the other port down bounds the journey of every frame of unknown type in that direction by its distance from it, in every run. |
| `Circulation.ClosedRingLetsUnknownBy` | state_machine.c:1720-1731 | Such nodes are a manager in CHK_RO, a manager in CHK_RC that is entered by its primary port, and a client in PT_IDLE. |
| `Circulation.InFrameCirculates` | state_machine.c:1764-1786 | With the manager in CHK_RO every interconnect frame goes round for ever in a closed ring without interconnection roles, InTopologyChange included: the condition of absorption cannot be dropped. |
| `Circulation.TestCirculates` | state_machine.c:1744-1757 | Without a manager a test frame goes round for ever. |
| `RingNet.ManagerRun` | state_machine.c:1987-2066 | A fixed-role manager keeps its whole-run invariant inside the ring, under every interleaving of the events of all nodes. |
| `RingNet.LoopSafety` | state_machine.c:1987-2066 | In every state of every run all ring ports of all nodes forward at once only while the manager is in CHK_RO. |
| `Detection.NextNearKept` | timer.c:360-365 | After every event the next expiry of the test timer is at most one interval away, plus one short interval if an extra test was added. |
| `Detection.DeadlineKept` | timer.c:33-51 | No event other than its own test frame moves the instant by which a manager in CHK_RC gives up. |
| `Detection.DetectionBound` | state_machine.c:1263-1296 | A fixed-role manager in CHK_RC that gets none of its own test frames has its next event within testMax * (testInterval + testShort), whatever frames flood it. |
| `Detection.LeavesInTime` | timer.c:33-47 | If no own test frame comes before an event later than that, the manager has been outside CHK_RC on the way. |
| `Detection.ProfileBounds` | state_machine.c:2469-2525 | Unscaled, that bound is below 500, 200, 30 and 10 ms for the four profiles. |
| `Recovery.ProfilesOk` | state_machine.c:2462-2588 | Every known profile leaves positive intervals and counts for every time factor for which no product exceeds 32 bits. |
| `Recovery.RingDurations` | state_machine.c:2469-2531 | Per ring profile and time factor: how long a burst, the announcement of a link and the wait for test frames take. |
| `Recovery.InDurations` | state_machine.c:2541-2577 | The same per interconnection profile, with the polls of LC mode. |
| `SyncFlush.BurstStarts` | state_machine.c:598-611 | A fixed-role manager whose idle topology timer gets armed, other than by an InTopologyChange frame, starts from a full counter, awaits its flush after topoMax intervals and has announced them on both ring ports. |
| `SyncFlush.InTopoStarts` | state_machine.c:1473-1477 | An InTopologyChange frame with a nonzero interval on either ring port starts a full burst, too, but announces topoMax times its own interval on both ring ports. |
| `SyncFlush.InTopoAnnounces` | state_machine.c:1473-1477 | That announcement, if it fits the field, names the last millisecond before the manager's flush if and only if both intervals agree up to the millisecond. |
| `SyncFlush.OthersLeave` | state_machine.c:1987-2066 | Of all events, only three arm a running topology timer anew (loss of the primary link in CHK_RO or CHK_RC, an own test frame in CHK_RO without reaction to link changes, one missed test frame too many); every other one leaves timer and counter alone. |
| `SyncFlush.BurstProgress` | timer.c:102-126 | Over every run without such an event, whatever else is interleaved, after j expiries of the topology timer taken when due the next is due after j + 1 intervals and the counter has fallen by j. |
| `SyncFlush.BurstInstant` | timer.c:102-126 | The expiry after j others comes at the instant with span - 1 - j intervals to go. |
| `SyncFlush.BurstFrames` | timer.c:110-122 | On such runs the expiry with `left` intervals to go announces exactly `left` intervals on both ring ports; the last one flushes at the flush instant, stops the timer and refills the counter. |
| `SyncFlush.RearmAnnounces` | timer.c:33-47 | Each of the three events announces topoMax intervals again without refilling the counter, so that the manager flushes after one interval more than the counter says. |
| `SyncFlush.RearmedInstant` | state_machine.c:598-611 | The renewed announcement names the last millisecond before the flush if and only if both instants agree up to the millisecond; from intervals of a millisecond on, if and only if the counter was full. |
| `SyncFlush.RearmReachable` | state_machine.c:2027-2058 | From any closed ring three events lead to a re-arming loss of a link with a counter that is not full. |
| `SyncFlush.ClientHears` | state_machine.c:1144-1168 | A client with a ring link that receives an interval flushes exactly when it has passed, whatever it had scheduled before, and stays such a client. |
| `SyncFlush.FrameInstant` | state_machine.c:567-570 | For a burst below 65536 ms, send instant plus announced interval lies in the last millisecond before the manager's flush, and on it for whole-millisecond intervals. |
| `SyncFlush.SynchronisedFlush` | timer.c:463-469 | For a burst below 65536 ms, one announcement delivered without delay makes the client flush within the last millisecond before the manager, and at the same instant for whole-millisecond intervals. |
| `SyncFlush.ManagerAndClient` | timer.c:102-126 | The same for the frames of every topology expiry in any uninterrupted run of the manager, test expiries and received frames in between included. |
| `SyncFlush.AnySubsetSuffices` | state_machine.c:1132-1169 | For a burst below 65536 ms: after any announcements on any ring ports, in any order and with repetitions and flushes in between, the last one heard makes the client flush within the last millisecond before the manager, at the same instant for whole-millisecond intervals, at once or by the next expiry of its flush timer. |
| `MrcInvariants.MrcInvKept` | state_machine.c:2071-2186 | Every event keeps the table of a client without auto-manager support. |
| `MrcInvariants.MrcRun` | state_machine.c:2071-2186 | On every run: AC_STAT1 iff no ring link, DE or DE_IDLE iff only the primary link, PT or PT_IDLE iff both; primary forwarding iff not AC_STAT1, secondary iff PT_IDLE; link-up timer iff PT, link-down timer iff DE; the countdown within its maximum. |
| `MrcInvariants.EntersPt` | state_machine.c:2093-2101 | The second ring link takes the client to PT with a full countdown, announced at once by exactly one MRP_LinkUp on the first port. |
| `MrcInvariants.EntersDe` | state_machine.c:2109-2186 | Loss of either of two ring links takes the client to DE with a full countdown and the other port as primary, announced by exactly one MRP_LinkDown on that port, on the wire. |
| `MrcInvariants.OthersLeave` | state_machine.c:2071-2186 | In PT and DE only a change of the ring links and MRP_TopologyChange end the countdown early; every other event leaves timer, count, state and ports alone. |
| `MrcInvariants.CountsDown` | timer.c:128-191 | On every run without those, whatever else is interleaved, after j expiries the countdown stands at linkMax - j, the timer is due one interval later, and state and ports are as they were. |
| `MrcInvariants.Instant` | timer.c:128-191 | On such runs expiry j + 1 comes after j + 1 intervals. |
| `MrcInvariants.Announces` | timer.c:141-180 | It is announced by exactly one MRP_LinkUp or MRP_LinkDown of linkMax - 1 - j intervals on the primary port, on the wire, down to zero. |
| `MrcInvariants.Settles` | timer.c:151-191 | The expiry after the last announcement is silent and stops the timer; after a link came up it opens the secondary port and reaches PT_IDLE, after a loss DE_IDLE with that port blocked. |
| `MrcInvariants.AnswerSettles` | state_machine.c:1151-1164 | MRP_TopologyChange on either ring port ends the countdown at once, in the same two states. |
| `MrmInvariants.MrmInvKept` | state_machine.c:1987-2066 | Every event keeps the manager's table, heartbeat and counters, and moves the transition count exactly when CHK_RC is left. |
| `MrmInvariants.FixedMrmAdded` | state_machine.c:247-276 | Adding an instance as manager establishes the invariant, whichever links are up. |
| `MrmInvariants.MrmRun` | state_machine.c:1007-1046 | On every run: both ports blocked in AC_STAT1, only the primary forwarding in PRM_UP and CHK_RC, both in CHK_RO; the test timer runs iff not AC_STAT1; an idle topology timer has a full counter; the miss counter stays within testMax - 1; no_tc is never set. |
| `MrmInvariants.LinksRun` | state_machine.c:1987-2066 | On every run, repeated link events included: AC_STAT1 iff no ring link is up, PRM_UP iff only the primary, CHK_RO or CHK_RC iff both; unless an own test frame arrives in PRM_UP. |
| `MrmInvariants.LinksAdded` | state_machine.c:247-276 | So it is when `mrp_add` returns. |
| `Duties.ExpiryTests` | timer.c:22-54 | Whenever the test timer of a manager with a link expires, test frames with its state and count leave by both ring ports. |
| `Duties.ArmingTests` | state_machine.c:544-548 | So they do whenever a received frame makes it arm the test timer. |
| `Duties.LinkTests` | state_machine.c:1994-2025 | And when its first or second ring link comes up. |
| `Duties.LinkFramePrompts` | state_machine.c:1200-1273 | A reported link change makes the manager test both neighbours and test again after the short interval, in PRM_UP with blocking clients after the normal one, once between two expiries; nothing else changes. |
| `Duties.LinkFrameFlushes` | state_machine.c:1212-1220 | In PRM_UP, where clients cannot block, everybody flushes on a reported link. |
| `Duties.LinkFrameCloses` | state_machine.c:1243-1261 | In CHK_RO, where clients cannot block, a reported link closes the ring at once. |
| `Duties.ClosingTells` | state_machine.c:1243-1261 | Then both neighbours are tested and everybody flushes. |
| `Duties.ClosingAnnounces` | state_machine.c:1034-1035 | A reacting manager that finds its ring closed makes everybody flush at once, by both ring ports. |
| `Duties.ReactingFlushes` | state_machine.c:1275-1296 | So does one that hears of a link change in CHK_RC. |
| `Duties.InTopoFlushes` | state_machine.c:1473-1477 | So does any manager that hears of an interconnect topology change without delay, unless it is announcing. |
| `Stability.SeenClears` | state_machine.c:1039-1044 | An own test frame in CHK_RC clears the miss counter and the ring stays closed. |
| `Stability.OthersStay` | timer.c:33-51 | No other event opens a closed ring but the loss of a link, its report while reacting, or one miss too many; only expiries of the test timer count as misses. |
| `Stability.StaysClosed` | state_machine.c:1039-1044 | On every run without lost or reported links, a closed ring stays closed with its secondary port blocked as long as at most testMax - 1 expiries lie between own test frames; the counter says how many. |
| `Stability.MissedOpens` | timer.c:34-46 | One miss more opens the secondary port and enters CHK_RO. |
| `Stability.EntryClears` | state_machine.c:1016-1037 | Whenever CHK_RC is entered, no miss is counted yet. |
| `Telemetry.OutReports` | state_machine.c:512-518 | Every test frame of a step carries the state and count from before the step, also when it is composed in the middle of a transition. |
| `Telemetry.RunCounted` | timer.c:33-47 | On every run of a fixed-role manager each step moves the transition count by one modulo 2^16 if it leaves CHK_RC and not otherwise. |
| `Telemetry.CountsExits` | timer.c:45-46 | The transition count is the number of exits from CHK_RC so far, modulo 2^16. |
| `Telemetry.TestTelemetry` | state_machine.c:493-518 | Every MRP_Test frame of a whole run says CLOSED iff the manager is in CHK_RC and carries the number of exits from CHK_RC so far, modulo 2^16. |
| `Telemetry.AddTelemetry` | state_machine.c:268-273 | The test frames that `mrp_add` itself makes a manager send say OPEN and count no exits. |
| `InterInvariants.InterInvKept` | state_machine.c:2191-2369 | Every event keeps the interconnection invariant, under any ring role and in both modes. |
| `InterInvariants.InterRun` | state_machine.c:1410-1444 | On every run: the interconnection port of a MIM forwards iff CHK_IO and of a MIC iff IP_IDLE; link-up timer of a MIC iff PT, link-down timer only in AC_STAT1; miss counter within its limit within the configured maximum; no interconnection timer without a role; polling and CCM timers only in LC mode; the port exists whenever there is a role. |
| `InterDetection.InOpens` | timer.c:205-221 | In RC mode, from CHK_IC on without own InTest frame, loss or report, exactly the expiry after as many others as there are chances left reaches CHK_IO with the port forwarding; up to it the port is blocked. |
| `InterDetection.InOpensInTime` | timer.c:205-221 | Whatever else is received, reports that raise the limit included, after inTestMax + 1 expiries without own InTest frame CHK_IO has been reached. |
| `InterDetection.InStaysClosed` | state_machine.c:1434-1437 | The port stays blocked as long as at most inTestMax - 1 expiries lie between own InTest frames, the own link holds and no loss is reported. |
| `InterDetection.InDetectionBound` | timer.c:193-226 | On a clock: an event later than (inTestMax + 1) * inTestInterval without own InTest frame finds the manager outside CHK_IC. |
| `InterDetection.InNearRun` | timer.c:407-412 | In every state of a timed run the InTest timer of an interconnection manager with a link is due within one interval. |
| `InterDetection.InNearAdded` | state_machine.c:310-337 | So it is when `mrp_add` returns. |
| `InterDetection.InProfileBounds` | state_machine.c:2541-2573 | Unscaled, that bound is below 500 and 200 ms for the two interconnection profiles. |
| `InterDetection.SeenCloses` | state_machine.c:1413-1433 | An own InTest frame blocks an open port and starts counting anew. |
| `InterDetection.LinkStarts` | state_machine.c:2191-2270 | The own link that comes up starts observation with the port blocked; one that is lost ends it; a repeated report changes nothing. |
| `InterDetection.BlockedPortHears` | state_machine.c:1624-1629 | At its blocked interconnection port a manager takes up own InTest frames and reports with its id, with their full effect. |
| `InterDetection.BlockedPortFlushes` | state_machine.c:1479-1488 | There it also schedules a flush for a topology change from elsewhere, or flushes at once. |
| `InterDetection.BlockedPortDrops` | state_machine.c:1624-1629 | All other frames are without effect there. |
| `InterDetection.RingPortHears` | state_machine.c:1611-1622 | A reported loss opens the port also if it arrives at a blocked ring port. |
| `InterDetection.BlockedRingPortDrops` | state_machine.c:1611-1622 | InTest frames, polls and frames of unknown type are without effect at a blocked ring port. |
| `Duties.InExpiryTests` | timer.c:193-226 | Whenever the InTest timer of a manager with a link expires, InTest frames with its state and count leave by all three ports. |
| `Duties.InLinkTests` | state_machine.c:2198-2231 | So they do when its link comes up in RC mode, and after an announcement when it is lost. |
| `Duties.InArmingAnnounces` | state_machine.c:890-902 | Whenever a received frame makes it arm the InTopo timer, inTopoMax intervals are announced on all three ports. |
| `Duties.InFrameTests` | state_machine.c:1413-1433 | An own InTest frame that closes the interconnection, or a reported link while it is open, makes InTest frames leave by all three ports. |
| `Duties.InFrameArms` | state_machine.c:1536-1540 | It arms the InTest timer for the next ones. |
| `Duties.InTopoExpiry` | timer.c:228-252 | An expiry of the InTopo timer announces what the counter says and counts down; the last one flushes, stops the timer and refills the counter. |
| `Duties.PollStarts` | state_machine.c:2233-2241 | In LC mode the own link that comes up starts a countdown of inStatusMax polls, with a poll at once on both ring ports. |
| `Duties.PollStops` | state_machine.c:2252-2270 | The loss of the own link stops the polls in CHK_IO and in no other state. |
| `Duties.PollExpiry` | timer.c:317-343 | An expiry of the polling timer polls on both ring ports, counts down and arms the timer an interval later unless nothing is left modulo 2^32; the last one stops the timer without a poll. |
| `MicAnnounce.Begins` | state_machine.c:2278-2369 | The link of an interconnection client that comes up enters PT, one that is lost AC_STAT1 with the port blocked; both announce the full count on all three ports, in RC and LC mode. |
| `MicAnnounce.OthersLeave` | state_machine.c:1489-1508 | Only a further change of the link and an InTopologyChange frame end the countdown early. |
| `MicAnnounce.CountsDown` | timer.c:254-315 | On every run without those, whatever else is interleaved, after j expiries the countdown stands at inLinkMax - j and the timer is due one interval later. |
| `MicAnnounce.Instant` | timer.c:254-315 | Expiry j + 1 comes after j + 1 intervals. |
| `MicAnnounce.Announces` | timer.c:268-277 | It announces inLinkMax - 1 - j intervals on all three ports. |
| `MicAnnounce.Settles` | timer.c:278-284 | The expiry after the last announcement is silent and stops the timer; after a link came up it opens the port and reaches IP_IDLE. |
| `MicAnnounce.AnswerOpens` | state_machine.c:1497-1503 | An InTopologyChange frame opens the port at once. |
| `MicAnnounce.AnswerEnds` | state_machine.c:1493-1496 | One with the own id ends the announcement of a loss; others leave it. |
| `Crossing.AdmittedIff` | state_machine.c:1608-1631 | Exactly which frames a port takes in by its state: a blocked ring port no InTest, poll or unknown frame, a blocked interconnection port only InTest, link and topology changes. |
| `Crossing.RingPassesIff` | state_machine.c:1735-1757 | A ring frame leaves by a port exactly if it came in by the other ring port of a client, and an option only if that has auto-manager support. |
| `Crossing.UnknownPassesIff` | state_machine.c:1722-1733 | A frame of unknown type leaves by every other port exactly if it came in by a forwarding one. |
| `Crossing.InPassesIff` | state_machine.c:1764-1876 | An interconnect frame leaves by another port exactly if neither role stops it: round the ring not at a manager that cuts it nor at a client that takes the id for its own; at interconnection nodes by kind of frame and direction. |
| `Crossing.InterCloses` | state_machine.c:1841-1846 | The InTest frame of a manager in CHK_IO that leaves by its interconnection port is carried by every node of any way through interconnection clients, blocked ones included, and ring nodes, and blocks the port when it arrives at a ring port of the manager. |
| `Crossing.InterLossOpens` | state_machine.c:1848-1854 | An interconnection client that loses its link sends a report that every node of any such way carries, by blocked ports too, and that opens the port of the manager. |
| `InterInvariants.TeardownIff` | timer.c:488-508 | From any reachable state `mrp_destroy` stops all timers if and only if the mode is RC, or the role is MIC, or the role is MIM and its InTest timer is idle. |
| `InterInvariants.TeardownHistory` | timer.c:488-508 | The same in terms of what has happened: in LC mode an interconnection manager loses no timer if and only if no InTest frame with its id was taken outside CHK_IC and no InLinkUp frame with its id in CHK_IO. |
| `InterInvariants.ArmedIff` | state_machine.c:1410-1459 | In LC mode exactly these frames start the InTest timer, and nothing stops it. |
| `InterInvariants.CcmRun` | state_machine.c:2804-2808 | In LC mode the CCM timer runs in every reachable state. |
| `InterInvariants.TeardownRun` | state_machine.c:2697-2724 | In RC mode no timer survives `mrp_destroy`, from any reachable state. |
| `InterInvariants.TeardownLeakInLc` | timer.c:500-506 | In LC mode an interconnection manager that has seen one InTest frame with its id keeps its InTest timer through `mrp_destroy`. |
| `InterInvariants.CcmLeakInLc` | timer.c:496-507 | In LC mode an instance without an interconnection role keeps its CCM timer through `mrp_destroy`, from the moment it is added. |
| `MrpSetup.AddedKeeps` | state_machine.c:2871-2880 | A property of instances that no event can break, if the role setters establish it, holds when `mrp_add` returns, after the link events it raises. |
| `MrpPorts.RingPorts.BecomePrimary` | state_machine.c:2003-2005 | The two assignments that make the other port primary keep the references distinct and within the two original ring ports, and exchange what they lead to. |
| `MrpPorts.RingPorts.StepDown` | state_machine.c:2028-2030 | So do the two assignments that retire the primary port. |
| `MrpPorts.RingPorts.SetState` | state_machine.c:56-69 | Setting the state of a port through whichever name changes that port alone. |
| `MrpPorts.SwapIn` | state_machine.c:2003-2005 | Exchanging the references is the swap of the value model. |
| `MrpInstance.Mrp.Handle` | state_machine.c:2372-2436 | Any event makes the mutable instance take exactly the step of the value model and send exactly its frames; afterwards p_port and s_port are still the two original ring ports and distinct, the interconnection invariant holds, and no missing interconnection port was touched. |
| `MrpInstance.Mrp.Run` | mrp_server.c:101-101 | Over every sequence of events: the references stay the two original ring ports and distinct, and the states and frames are those of a run of the value model, so that all run theorems hold of the program. |
| `MrpInstance.Mrp.RunManager` | state_machine.c:1987-2066 | A fixed-role manager, run on any events through all its swaps: both references original and distinct, the port behind p_port forwarding iff not AC_STAT1 and the one behind s_port iff CHK_RO. |
| `MrpInstance.Mrp.Recv` | state_machine.c:1952-1982 | A frame is dropped, or relayed and then processed, in that order, on the port objects. |
| `MrpInstance.Mrp.ShouldDrop` | state_machine.c:1595-1632 | The conditions on port, state and type, written out type by type, drop exactly what the value model drops. |
| `MrpInstance.Mrp.ShouldProcess` | state_machine.c:1637-1680 | The switch with its missing break lets through exactly the frames that the value model processes. |
| `MrpInstance.Mrp.RecvFrame` | state_machine.c:1926-1982 | A frame of any length in the receive buffer: relayed as that buffer says and processed as the copy says, which ends with the frame or, if it was relayed, with the Ethernet minimum. |
| `MrpInstance.Mrp.RecvWholeFrame` | state_machine.c:1926-1982 | From 42 bytes on this is the step of the value model for the frame read from the bytes. |
| `MrpInstance.Mrp.ChooseForwarding` | state_machine.c:1712-1876 | The branch-by-branch choice of outgoing ports equals the forwarding plan that the ring theorems reason about. |
| `MrpInstance.Mrp.RecvRingLink` | state_machine.c:1185-1298 | The early exits of the link-change handler, state by state, equal the value model's closed form. |
| `MrpInstance.Mrp.MrmPortLink` | state_machine.c:1987-2066 | The manager's reaction to a link change: the two assignments to p_port and s_port, the port states set through them and the frames sent after the swap make the value model's transition. |
| `MrpInstance.Mrp.MrcPortLink` | state_machine.c:2071-2186 | The client's reaction to a link change, likewise through the two references. |
| `MrpInstance.Mrp.Add` | state_machine.c:2871-2880 | All role setters of `mrp_add`, with the link events they raise, give the instance that the run theorems start from. |
| `EtherAddr.MacEqualIsEquality` | utils.c:162-168 | The comparison by 16-bit words is equality of addresses. |
| `EtherAddr.SpelledInjective` | utils.c:170-179 | Different addresses become different numbers. |
| `EtherAddr.SpelledOrder` | utils.c:170-179 | The order of the numbers is the order of the bytes, the first counting most. |
| `EtherAddr.EtherAddrToU64` | utils.c:170-179 | The loop computes the big-endian number of the address and stays within 48 bits. |
| `MrpFrames.RingBodies` | state_machine.c:493-652 | Test, TopologyChange and LinkChange structures are read back field by field. |
| `MrpFrames.OptionBodies` | state_machine.c:1313-1403 | TestMgrNAck and TestPropagate are read back through OUI, sub-option and sub-TLV. |
| `MrpFrames.InBodies` | state_machine.c:845-990 | InTopologyChange, InLinkChange and InLinkStatus are read back, and the id read by the forwarding code is the start of the source address. |
| `MrpFrames.InTestBody` | state_machine.c:783-823 | InTest is read back, and here the id read by the forwarding code is the id. |
| `MrpFrames.WireParts` | state_machine.c:397-486 | Type, claimed length and first structure lie at the fixed offsets of the readers in every composed frame. |
| `MrpFrames.FrontBytes` | state_machine.c:22-25 | By position: group address 01:15:4E:00:00 and 1, 2, 3 or 4 by kind of frame, source address, 88 E3 and version 1. |
| `MrpFrames.BackBytes` | state_machine.c:448-457 | By position behind the sequence number: sixteen bytes FF and two bytes 0. |
| `MrpFrames.FrameRoundTrip` | state_machine.c:1952-1976 | Every frame that can be composed is read back as composed, with its sequence number, through padding. |
| `MrpFrames.DecidedIff` | state_machine.c:1939-1947 | The received bytes alone decide what the readers see if and only if there are at least 42 of them. |
| `MrpFrames.ForwardingIdRead` | state_machine.c:387-392 | The id by which a composed interconnect frame is forwarded is the one the value model uses. |
| `MrpFrames.ForwardingIdOfBytes` | state_machine.c:1764-1766 | In any received interconnect frame the id read by the forwarding code is the one the value model uses. |
| `MrpFrames.FrameSize` | state_machine.c:473-486 | A frame has 60 to 66 bytes on the wire and never exceeds its 200-byte buffer. |
| `MrpFrames.TlvWalk` | state_machine.c:673-698 | The length of the first TLV leads to the common TLV if and only if the frame is not a TestMgrNAck. |
| `MrpFrames.IntervalRoundTrip` | state_machine.c:567-569 | An interval is recovered, floored to a millisecond, if and only if it is below 65536 ms. |
| `MrpFrames.RawPriority` | state_machine.c:1078-1078 | The priority that a demoted auto-manager stores is the byte-swapped one. |
| `FrameBuffer.FrameBuf.Put` | utils.c:145-150 | Cursor and size advance together and the old cursor is returned. |
| `FrameBuffer.FrameBuf.Fill` | state_machine.c:510-518 | Members stored one behind the other follow what was there before. |
| `FrameBuffer.FrameBuf.Append` | utils.c:145-150 | Reserving and filling a structure of one member appends its bytes and leaves the rest of the buffer zero. |
| `FrameBuffer.FrameBuf.Pad` | state_machine.c:475-476 | Padding extends the frame by zero bytes to the Ethernet minimum. |
| `FrameBuffer.Composer.NextSeq` | state_machine.c:371-375 | The sequence number is incremented with wrap-around and then used. |
| `FrameBuffer.Composer.PutRingTest` | state_machine.c:509-518 | The member stores of the MRP_Test writer give the specified structure. |
| `FrameBuffer.Composer.PutRingTopo` | state_machine.c:565-570 | So do those of the MRP_TopologyChange writer. |
| `FrameBuffer.Composer.PutRingLink` | state_machine.c:628-636 | And of the MRP_LinkChange writer. |
| `FrameBuffer.Composer.PutInTest` | state_machine.c:799-808 | And of the MRP_InTest writer, whose id comes first. |
| `FrameBuffer.Composer.PutInTopo` | state_machine.c:856-861 | And of the MRP_InTopologyChange writer. |
| `FrameBuffer.Composer.PutInLink` | state_machine.c:920-928 | And of the MRP_InLinkChange writer. |
| `FrameBuffer.Composer.PutInLinkStatus` | state_machine.c:970-975 | And of the MRP_InLinkStatusPoll writer. |
| `FrameBuffer.Composer.PutOption` | state_machine.c:681-695 | OUI, sub-option, sub-TLV header and body in this order. |
| `FrameBuffer.Composer.PutCommon` | state_machine.c:448-457 | The common TLV takes the next sequence number, then comes the end TLV. |
| `FrameBuffer.Composer.Compose` | state_machine.c:493-522 | The puts of a writer fit the buffer and give the specified payload. |
| `FrameBuffer.Composer.Send` | state_machine.c:473-533 | What is handed to the socket is the specified frame, padded, with the next sequence number. |
| `FrameBuffer.Composer.SendAll` | state_machine.c:371-375 | The frames of one writer, one after the other, are the ones whose sequence numbers are compared below. |
| `FrameBuffer.IdsAt` | state_machine.c:371-375 | The k-th number after `last` is last + 1 + k modulo 2^16. |
| `FrameBuffer.SeqIdsRepeat` | state_machine.c:368-375 | Two frames that the writer sends in a run carry the same sequence number if and only if a multiple of 65536 lies between them, as read from the bytes. |
| `FrameBuffer.SentComposable` | state_machine.c:493-990 | Everything the machines send on any event has a writer. |
| `FrameBuffer.Transported` | state_machine.c:1952-1976 | What one instance sends on any event, a receiver of the bytes takes up as the same frame. |
| `Attributes.EncodesShort` | libnetlink.c:1215-1235 | Only a tree all of whose lengths fit in 16 bits has an encoding. |
| `Attributes.AlignIsMask` | include/uapi/linux/rtnetlink.h:202-203 | Rounding up to the next multiple of four is what the mask of RTA_ALIGN computes. |
| `Attributes.EncodedPlaced` | include/uapi/linux/rtnetlink.h:202-212 | An encoded attribute passes RTA_OK, RTA_NEXT leads behind it, and type and payload are its own. |
| `Attributes.LevelWalk` | libnetlink.c:1361-1377 | The walk over a written level visits exactly its attributes, in order, and leaves no remainder. |
| `Attributes.LevelRoundTrip` | libnetlink.c:1361-1377 | Parsing a written level for a type yields nothing iff no attribute has it, otherwise the first one that has it, with its exact payload or its children as another level, and remainder 0. |
| `Attributes.PathRoundTrip` | libnetlink.c:1361-1377 | Following a path of types down a tree of any depth, in bytes, finds what the tree holds there. |
| `Attributes.WalkInBounds` | include/uapi/linux/rtnetlink.h:204-208 | On arbitrary bytes every attribute that the walk looks at lies within the input; the remainder is above -4. |
| `Attributes.SafeLengths` | libnetlink.c:1373-1375 | Whatever the bytes are, all reads of the parser, the length field in its complaint included, are within an input of length n if and only if n is a multiple of four, 2 or 3. |
| `Attributes.OverrunReadsOutside` | libnetlink.c:1373-1375 | For every other length there is an input whose complaint reads outside it. |
| `Attributes.FiveBytesOverrun` | libnetlink.c:1373-1375 | For the bytes 5 0 0 0 0 the walk stops at offset 8 and the complaint reads there. |
| `Attributes.NoRemainderIff` | libnetlink.c:1367-1375 | Bytes leave no remainder if and only if they are some written level. |
| `NetlinkMessage.Message.AddAttr` | libnetlink.c:1215-1235 | Appends the attribute if and only if it fits, otherwise changes nothing; bytes outside it are untouched. |
| `NetlinkMessage.Message.AddNest` | libnetlink.c:1251-1257 | Opens a nested attribute at the aligned end; without room nothing changes, although the position is still returned. |
| `NetlinkMessage.Message.NestEnd` | libnetlink.c:1259-1263 | Patches the length of a nested attribute and nothing else; a place behind the buffer, which a failed `addattr_nest` can return, changes no byte of it. |
| `NetlinkMessage.Message.EmptyNest` | libnetlink.c:1251-1263 | The pair of opening and closing patches within the message if and only if there was room, and then the nested attribute is complete. |
| `NetlinkMessage.PatchWithin` | libnetlink.c:1251-1263 | The pair writes within an aligned bound if and only if there was room, and within any other bound also two or three bytes before its end. |
| `NetlinkMessage.Message.Write` | libnetlink.c:1215-1263 | Every attribute tree that fits is written so that the parser's view of it is the tree. |
| `NetlinkMessage.Message.WriteAll` | libnetlink.c:1215-1263 | So is every level of attributes. |
| `NetlinkMessage.ParseFlags` | libnetlink.c:1361-1377 | The table holds the first visited attribute of every type, with the flag stripped, and the complaint is about exactly the remainder and the length field where the walk stopped; the loop ends on arbitrary bytes. |
| `NetlinkMessage.ParseOne` | libnetlink.c:1379-1391 | Finds the first attribute of exactly the given type, or none, and complains only in the second case. |

## Left out

- MrpInstance.Mrp.Handle: the scalar members of the instance are grouped in two records that are reassigned member by member.
- MrpInstance.Mrp.RecvFrame: not link-change frames of 14 to 16 bytes whose type byte differs between the two buffers; their handlers read the type again, from the copy.
- FrameBuffer.Composer.Compose: one writer with a put per frame kind stands for the nine `mrp_send_*` functions; allocation never fails.
- Detection.DetectionBound: bounds the instants of events and assumes that an expired test timer is not overtaken; that the event loop gets to run is not modelled.
- Convergence of the auto-manager election and port tables of auto-managers over whole runs: the code does not keep them. Promotion from PT leaves the link-up timer running, and a TestMgrNAck stops the topology timer without refilling its counter.
- Processing of IN_LINK_STATUS frames: `mrp_should_process` never lets one through.
- Other attribute writers (`addattr8` to `addattrstrz`, `addraw_l`, the rta_ and compat variants): argument copying around the modelled ones.
- Netlink requests, dumps, talks and listening, and the construction of the MRP requests in `ifdriver_netlink.c`: conversation with the kernel.
- Sockets, packet filter, event loop, signals, command line, D-Bus, CFM offload and the kernel bridge drivers: input and output only.
- The registry of instances, lookup by interface, mutexes, `mrp_get`, `mrp_mac_change`, failure paths of `mrp_add` and release of memory.
- Logging and rate limiting.
