# Verified model of the satellite network simulator

This project models the discrete parts of the simulator and of its Python scripts, and proves what they keep over whole
runs. `dafny verify dfyconfig.toml` checks all of it.

- **Links.** Laser and ground-link devices are READY/BUSY machines over a drop-tail queue, placed in a simulator with a
  clock and a multiset of pending events (`SimulatorCore`, `TransmitMachine`). The device and channel classes
  (`PointToPointLaser`, `GslLink`) are updated in place as in C++ and refine that machine, field by field and event by
  event. A run is any sequence of Sends, due completions and passing time; packet sizes, transmission times and
  propagation delays are arbitrary functions. `WireOrder` treats delivery order on a wire whose delay changes.
- **Utilization.** `UtilizationTracker` and `LaserRuns` show that the interval accounting of the laser device measures the
  time packets were on air, `UtilizationReport` that the written report is a lossless tiling of it.
- **Forwarding.** `ForwardingState` validates and writes the incremental files into the arbiters, `ForwardingSchedule`
  reloads them over time and replays them independently into the dictionary of `path_truth.py`, `PathTruth` walks that
  dictionary, and `PacketForwarding` shows that packets take the path the walk returns.
- **Time.** `JulianDates`, `LeapSeconds` and `GregorianDates` model the `JulianDate` class with its unsigned 32-bit fields;
  `Sgp4Ext` models the second calendar, of the orbit library, in exact arithmetic; `Calendar` is what they share.
- **Schedulers and numbering.** `TcpFlows`, `UdpBursts` and `UdpBurstRuns`, `Shells`.

## What the proofs show about the code

- `GregorianDate` fails for all of 1992. The header (`ns3/contrib/satellite/model/julian-date.h:67-69`) promises 1992 to
  2099, but the unsigned `year - 1993` wraps, so that no month is found and the day shown exceeds 31
  (`GregorianDates.NoDateIn1992`). The exact condition for a right date is a day of 8401 or later
  (`GregorianDates.ShownDateIsRight`).
- The leap-second search is a lower bound: an entry counts only from the day after it. The table
  (`ns3/contrib/satellite/model/iers-data.cc:4640`) lists the days from which the new offsets hold (912 is 1 July 1972), so
  on these days the offset used is one second too small (`LeapSeconds.TaiMinusUtcCounts`).
- One second of TAI or TT per entry does not survive the way to UTC and back (`LeapSeconds.ScaleRoundTrip`), and a date set
  in that second is printed one second late (`GregorianDates.SetThenShow`). The cause is that UTC days of 86400000
  milliseconds have no name for it: these instants are exactly the ones that no UTC instant stands for
  (`LeapSeconds.ShownExactly`).
- "Not all time is accounted for" in `TrackUtilization` can never be reported (`UtilizationTracker.NeverReported`). A call
  is right exactly if it passes the opposite of the state the device has been in (`UtilizationTracker.CallIsRightExactly`),
  and the calls of the device always do, also after a `FinalizeUtilization` in mid-run. But that call leaves the recorded
  flag reversed, so that a second `FinalizeUtilization` credits the time since the first to the wrong side unless a
  transmission has begun or ended in between, or no time has passed (`LaserRuns.FinalizeTwice`).
- Packets on a laser wire can overtake each other. For ends that close in so that the delay shrinks by at most b per
  nanosecond, delivery is in order on all wires and in all runs if and only if b <= 1 and b times the time any packet
  keeps the device BUSY is at most the time any other does (`WireOrder.FifoExactly`). Satellites close in at rates far
  below 1, so in practice only very different packet lengths can overtake.
- `walk` and the arbiters agree exactly for packets whose source and target differ
  (`PacketForwarding.ForwardingAgreesExactly`). For a packet to its own node `walk` returns the one-node path without
  looking at the tables, whereas `RouteOutput` asks the arbiter of the source
  (`ns3/contrib/basic-sim/model/core/ipv4-arbiter-routing.cc:156-160`), whose own entry decides
  (`PacketForwarding.SelfPacketDiffers`).
- A missing entry is -1 to `walk` but aborts the simulation; the theorem keeps the two apart.

## Conventions

An abort, a failed assertion and an uncaught exception all end the program and are the result `Abort`. Events due at the
same instant may fire in any order. `d / 365.25` is `4 * d / 1461` rounded down, which is exact for 32-bit `d`. The
update interval and the tracking interval must be positive where a statement divides by them. The gap between the
packets of a burst is computed in exact arithmetic. A propagation delay is an exact real number rounded to whole
nanoseconds. A `Time` is a whole number of nanoseconds, and its whole days and milliseconds are exact quotients;
`GetDays` of ns-3 returns a double, which can round up just below a whole day.

## Model

| member | source | states |
|---|---|---|
| `TransmitMachine.EveryRun` | ns3/contrib/satellite-network/model/point-to-point-laser-net-device.cc:241-305 | In every possible run of a device (any Sends, sizes, waits): no state assertion fails; BUSY iff a current packet iff exactly one pending TransmitComplete, due at its start plus transmission time plus interframe gap; READY implies an empty queue; accepted = queued + in service + completed; packets go on the wire once each, in acceptance order, each only after transmission time and gap of the one before; the device is BUSY exactly during these times |
| `TransmitMachine.StepInv` | ns3/contrib/satellite-network/model/gsl-net-device.cc:244-310 | Each Send, completion and passing of time keeps the transmit-machine invariant and hits no assertion |
| `TransmitMachine.RunInv` | ns3/contrib/satellite-network/model/gsl-net-device.cc:244-310 | The invariant holds after any sequence of possible steps from any state that has it |
| `TransmitMachine.AcceptedExactly` | ns3/contrib/satellite-network/model/point-to-point-laser-net-device.cc:527-578 | A Send is accepted if and only if the link is up and the queue has room, and then the packet joins the accepted ones; otherwise nothing does |
| `TransmitMachine.BacklogShrinks` | ns3/contrib/satellite-network/model/gsl-net-device.cc:275-310 | Without Sends, completions still owed plus completions fired is constant |
| `TransmitMachine.DrainExactly` | ns3/contrib/satellite-network/model/gsl-net-device.cc:275-310 | Without Sends, a BUSY device is READY again if and only if exactly queue length + 1 completions fired, and never more fire |
| `TransmitMachine.DrainPossible` | ns3/contrib/satellite-network/model/gsl-net-device.cc:275-310 | From every reachable state some run without Sends empties the queue: the device is never stuck |
| `WireOrder.FifoDelivery` | ns3/contrib/satellite-network/model/point-to-point-laser-channel.cc:87-113 | In every run, with an exact delay that shrinks by at most b <= 1 per nanosecond and is rounded to whole nanoseconds: of two packets of the run, the earlier does not arrive after the later if b times the time it keeps the device BUSY is at most the time the later does |
| `WireOrder.FifoExactly` | ns3/contrib/satellite-network/model/point-to-point-laser-channel.cc:87-113 | For every link, every kind of packets and every rate b: all wires within that rate deliver every run in order if and only if b <= 1 and that condition holds between any two packets of the kind, or no packet gets on the wire |
| `WireOrder.NoOvertaking` | ns3/contrib/satellite-network/model/point-to-point-laser-channel.cc:103-108 | The arrival inequality, after rounding, for two transmissions that do not overlap on the wire |
| `WireOrder.Overtaking` | ns3/contrib/satellite-network/model/point-to-point-laser-channel.cc:103-108 | Wherever the condition fails for two packets, on any attached link and for any rate, there is a wire within the rate and a run in which the second overtakes the first, by at least a whole nanosecond |
| `WireOrder.RunAccepts` | ns3/contrib/satellite-network/model/point-to-point-laser-net-device.cc:527-578 | Only packets that were sent, on an attached link with room, are ever accepted |
| `PointToPointLaser.PointToPointLaserChannel.Attach` | ns3/contrib/satellite-network/model/point-to-point-laser-channel.cc:66-85 | Attaching two different devices makes each the peer of the other |
| `PointToPointLaser.PointToPointLaserChannel.TransmitStart` | ns3/contrib/satellite-network/model/point-to-point-laser-channel.cc:87-113 | Exactly one reception is scheduled, at the other end, after the transmission time and the delay of this instant |
| `PointToPointLaser.PointToPointLaserNetDevice.EnableUtilizationTracking` | ns3/contrib/satellite-network/model/point-to-point-laser-net-device.cc:695-705 | Tracking starts with empty counters at interval 0 |
| `PointToPointLaser.PointToPointLaserNetDevice.CatchUpIntervals` | ns3/contrib/satellite-network/model/point-to-point-laser-net-device.cc:713-738 | The catch-up loop over the fields closes the same intervals as the accounting, and reports an imbalance exactly when that does |
| `PointToPointLaser.PointToPointLaserNetDevice.TrackUtilization` | ns3/contrib/satellite-network/model/point-to-point-laser-net-device.cc:707-748 | A tracking call on the fields is one of the accounting, and aborts exactly when that does; SimulateUntracked and SimulateUtilization say what the calls amount to, without and with tracking |
| `PointToPointLaser.PointToPointLaserNetDevice.FinalizeUtilization` | ns3/contrib/satellite-network/model/point-to-point-laser-net-device.cc:752-756 | Finalizing is one more tracking call with the opposite state, and returns the vector |
| `PointToPointLaser.PointToPointLaserNetDevice.TransmitStart` | ns3/contrib/satellite-network/model/point-to-point-laser-net-device.cc:241-270 | Puts one packet on the wire: new state, tracking call, and both scheduled events |
| `PointToPointLaser.PointToPointLaserNetDevice.TransmitComplete` | ns3/contrib/satellite-network/model/point-to-point-laser-net-device.cc:272-305 | Ends the transmission and starts the next queued packet, if any; the whole new state, the tracking calls and the scheduled events |
| `PointToPointLaser.PointToPointLaserNetDevice.Send` | ns3/contrib/satellite-network/model/point-to-point-laser-net-device.cc:527-578 | Refuses when the link is down or the queue full, queues when BUSY, transmits when READY; the whole new state and every scheduled event |
| `UtilizationTracker.CatchUpAgrees` | ns3/contrib/satellite-network/model/point-to-point-laser-net-device.cc:709-738 | If calls alternate, closing intervals never aborts and every closed interval holds the true busy share |
| `UtilizationTracker.TrackAgrees` | ns3/contrib/satellite-network/model/point-to-point-laser-net-device.cc:707-748 | A call that changes the state keeps the counters and all entries equal to the on/off history |
| `UtilizationTracker.CatchUpNeverAborts` | ns3/contrib/satellite-network/model/point-to-point-laser-net-device.cc:725-729 | From balanced counters the imbalance abort does not fire, whatever state is passed, and the counters stay balanced |
| `UtilizationTracker.NeverReported` | ns3/contrib/satellite-network/model/point-to-point-laser-net-device.cc:695-756 | For any sequence of tracking and finalizing calls after tracking is enabled, with any states and times, the imbalance abort never fires: it detects nothing |
| `UtilizationTracker.CallsWithoutTracking` | ns3/contrib/satellite-network/model/point-to-point-laser-net-device.cc:707-756 | Without tracking, any sequence of tracking and finalizing calls leaves every field as it is and never aborts |
| `UtilizationTracker.TrackIgnoresOn` | ns3/contrib/satellite-network/model/point-to-point-laser-net-device.cc:707-748 | The recorded flag has no influence on a call: only the state passed decides what is credited |
| `UtilizationTracker.CallIsRightExactly` | ns3/contrib/satellite-network/model/point-to-point-laser-net-device.cc:707-748 | The books are right after a call if and only if it passes the opposite of the state the device has been in, or no time has passed since the last call |
| `UtilizationTracker.FinalizeIsRightExactly` | ns3/contrib/satellite-network/model/point-to-point-laser-net-device.cc:752-756 | FinalizeUtilization is right if and only if the recorded flag is the state the device has been in, or no time has passed |
| `UtilizationTracker.CallAfterFinalizeIsRight` | ns3/contrib/satellite-network/model/point-to-point-laser-net-device.cc:707-756 | After FinalizeUtilization the recorded flag is the opposite of the state of the device, and the next call of the device is right all the same |
| `UtilizationTracker.SecondFinalize` | ns3/contrib/satellite-network/model/point-to-point-laser-net-device.cc:752-756 | A second FinalizeUtilization with no call in between is right if and only if no time has passed |
| `LaserRuns.LaserStepInv` | ns3/contrib/satellite-network/model/point-to-point-laser-net-device.cc:241-305 | The transmit machine makes the tracking calls strictly alternate: the recorded state is BUSY/READY after every step |
| `LaserRuns.LaserRunInv` | ns3/contrib/satellite-network/model/point-to-point-laser-net-device.cc:241-305 | The same over whole runs, and tracking does not disturb the device |
| `LaserRuns.UtilizationOfEveryRun` | ns3/contrib/satellite-network/model/point-to-point-laser-net-device.cc:695-756 | For every run and interval, finalizing at any instant leaves floor(now / I) entries, and entry k times I is the number of nanoseconds in [kI, (k+1)I) during which a packet was on air |
| `LaserRuns.UtilizationDuringRun` | ns3/contrib/satellite-network/model/point-to-point-laser-net-device.cc:707-748 | Without finalizing: one correct entry for every interval closed by the last tracking call |
| `LaserRuns.FinalizeTwice` | ns3/contrib/satellite-network/model/point-to-point-laser-net-device.cc:707-756 | In every run finalized in the middle, the run goes on undisturbed, and finalizing it again is right if and only if a transmission has begun or ended in between, or no time has passed |
| `LaserRuns.RunWithoutTracking` | ns3/contrib/satellite-network/model/point-to-point-laser-net-device.cc:241-305 | Without tracking, every possible run is that of the transmit machine alone, the accounting stays as it is and nothing aborts |
| `PointToPointLaser.SimulateUtilization` | ns3/contrib/satellite-network/model/point-to-point-laser-net-device.cc:241-305 | The device object under an event loop: any possible script, then FinalizeUtilization, never aborts and leaves in m_utilization the on-air share of each whole interval; the receptions added to the event queue are exactly those of the transmissions, at the peer, at their arrival times |
| `PointToPointLaser.SimulateUntracked` | ns3/contrib/satellite-network/model/point-to-point-laser-net-device.cc:241-305 | The device object under an event loop with tracking off and any possible script: nothing aborts, all fields of the accounting are unchanged, the device is where the run is, and the receptions added to the event queue are exactly those of the transmissions |
| `PointToPointLaser.StartedWasSent` | ns3/contrib/satellite-network/model/point-to-point-laser-net-device.cc:527-578 | Every packet put on the wire is one given to Send, with its identity kept and its size grown by the two bytes of the PPP header |
| `PointToPointLaser.ReceptionsInOrder` | ns3/contrib/satellite-network/model/point-to-point-laser-channel.cc:87-113 | Where the condition for delivery in order holds, the times of these pending receptions ascend in sending order |
| `UtilizationReport.CollectRows` | ns3/contrib/satellite-network/model/topology-satellite-network.cc:451-475 | The rows tile [0, n I) without gap or overlap, adjacent rows differ, and expanding them gives the vector back |
| `UtilizationReport.CompressionIsUnique` | ns3/contrib/satellite-network/model/topology-satellite-network.cc:451-475 | No other rows have these three properties: the report is determined by the vector |
| `UtilizationReport.WeightIsTotal` | ns3/contrib/satellite-network/model/topology-satellite-network.cc:451-475 | Row lengths times values sum to interval length times entries |
| `UtilizationReport.ReportConservesBusyTime` | ns3/contrib/satellite-network/model/topology-satellite-network.cc:444-475 | The row-weighted sum is the total busy time over the whole intervals |
| `UtilizationReport.ReportOfEveryRun` | ns3/contrib/satellite-network/model/topology-satellite-network.cc:444-475 | For every run, the row-weighted sum of the report written at its end is the time packets were on air, over the whole intervals |
| `GslLink.AttachAll` | ns3/contrib/satellite-network/model/gsl-channel.cc:130-139 | The address map is the registry of the devices in their order; with distinct addresses every device is found under its own |
| `GslLink.GSLChannel.Attach` | ns3/contrib/satellite-network/model/gsl-channel.cc:130-139 | The address map and the device list after one attachment |
| `GslLink.GSLChannel.TransmitStart` | ns3/contrib/satellite-network/model/gsl-channel.cc:66-128 | Exactly one reception is scheduled, at the device registered under the destination, after the transmission time plus the delay between the nodes of sender and receiver at this instant; aborts exactly for an unknown destination or one on another system |
| `GslLink.GSLNetDevice.TransmitStart` | ns3/contrib/satellite-network/model/gsl-net-device.cc:244-273 | Puts one (packet, destination) pair on the channel and schedules its completion |
| `GslLink.GSLNetDevice.TransmitComplete` | ns3/contrib/satellite-network/model/gsl-net-device.cc:275-310 | The heads of both queues leave together as one pair; aborts exactly when its destination is not reachable |
| `GslLink.GSLNetDevice.Send` | ns3/contrib/satellite-network/model/gsl-net-device.cc:508-563 | The two queues act as one queue of pairs with the drop-tail and READY/BUSY behaviour of the transmit machine |
| `GslLink.SimulateHandovers` | ns3/contrib/satellite-network/model/gsl-net-device.cc:244-310 | For all devices of a channel together and any possible interleaving, with registered destinations: nothing aborts, both queues of each device have equal length, each packet it accepted is handed to the channel once, in acceptance order, with the destination of its own Send, for receipt at the device registered there, and the pending receptions grow by exactly those of what was handed over |
| `GslLink.SimulateAttached` | ns3/contrib/satellite-network/model/gsl-channel.cc:66-139 | All devices of a channel, attached under distinct addresses on one system, and any possible script of Sends to addresses among them: nothing aborts, each packet put on the channel is received at the attached device whose address its Send named, at start plus transmission time plus delay between the two nodes, and nothing else is received |
| `GslLink.StartedWasSent` | ns3/contrib/satellite-network/model/gsl-net-device.cc:508-563 | Every packet and destination put on the channel were given together to one Send |
| `ForwardingState.AcceptedEntryIsGood` | ns3/contrib/satellite-network/helper/arbiter-single-forward-helper.cc:98-142 | The checks on one line imply that its entry is a drop or joins two existing interfaces of one kind, and for a laser names the device that really receives |
| `ForwardingState.AcceptsExactly` | ns3/contrib/satellite-network/helper/arbiter-single-forward-helper.cc:98-154 | A line is accepted if and only if its nodes exist and its entry is a drop or joins two existing interfaces of one kind, with the wire of a laser leading to the device it names |
| `ForwardingState.FileAcceptedExactly` | ns3/contrib/satellite-network/helper/arbiter-single-forward-helper.cc:84-157 | A file is accepted if and only if all its lines are such, whatever the tables hold |
| `ForwardingState.UpdateKeepsTablesGood` | ns3/contrib/satellite-network/helper/arbiter-single-forward-helper.cc:84-157 | Every accepted file keeps the table invariant |
| `ForwardingState.LastWriteWins` | ns3/contrib/satellite-network/helper/arbiter-single-forward-helper.cc:84-157 | After an accepted file an entry is that of its last line, or unchanged if no line names it |
| `ForwardingState.ArbiterSingleForward.SetSingleForwardState` | ns3/contrib/satellite-network/model/arbiter-single-forward.cc:53-56 | Overwrites one entry, and refuses -2 values |
| `ForwardingState.InitialEmptyForwardingState` | ns3/contrib/satellite-network/helper/arbiter-single-forward-helper.cc:53-64 | The square table of invalid entries |
| `ForwardingState.ArbiterSingleForwardHelper.constructor` | ns3/contrib/satellite-network/helper/arbiter-single-forward-helper.cc:29-43 | One arbiter per node, each with its row of the empty table |
| `ForwardingSchedule.CreateHelper` | ns3/contrib/satellite-network/helper/arbiter-single-forward-helper.cc:24-51 | The whole constructor: empty tables, then the load of time 0, which aborts exactly when that file is missing or refused |
| `ForwardingState.ArbiterSingleForwardHelper.UpdateForwardingState` | ns3/contrib/satellite-network/helper/arbiter-single-forward-helper.cc:66-180 | Over the arbiter objects: succeeds exactly when the file exists and every line passes (which lines do is AcceptsExactly), the tables then are the written ones, and the next load is planned exactly when the run is not static and not over |
| `ForwardingSchedule.TablesAtEveryInstant` | ns3/contrib/satellite-network/helper/arbiter-single-forward-helper.cc:169-177 | At every instant t before the end the files 0, I, ..., floor(t / I) I have each been loaded once, in order, and the tables are their replay |
| `ForwardingSchedule.StaticTables` | ns3/contrib/satellite-network/helper/arbiter-single-forward-helper.cc:169-177 | A static run loads only the file of time 0 |
| `ForwardingSchedule.LoadSucceedsExactly` | ns3/contrib/satellite-network/helper/arbiter-single-forward-helper.cc:66-180 | A load succeeds if and only if its file exists and all its lines are good ones |
| `ForwardingSchedule.ReplaySucceedsExactly` | ns3/contrib/satellite-network/helper/arbiter-single-forward-helper.cc:66-180 | Any sequence of loads succeeds if and only if each of its files is good |
| `ForwardingSchedule.SimulateUntil` | ns3/contrib/satellite-network/helper/arbiter-single-forward-helper.cc:66-180 | The helper object under an event loop up to t: it aborts exactly if one of the files for 0, I, ..., floor(t / I) I is missing or has a line that is not good; otherwise its arbiters hold the replay of these files |
| `ForwardingSchedule.ReplayFile` | scripts/path_truth.py:33-36 | The dictionary after one file is the fold of its lines |
| `ForwardingSchedule.ReplaysAgree` | scripts/path_truth.py:33-36 | From the same files the arbiters and the dictionary hold the same next hops, and the dictionary has no entry where the tables are unset |
| `ForwardingSchedule.ReplayIsGood` | ns3/contrib/satellite-network/helper/arbiter-single-forward-helper.cc:84-157 | The table invariant holds after any accepted sequence of files |
| `SatelliteTopology.WireConnects` | ns3/contrib/satellite-network/model/point-to-point-laser-channel.cc:66-85 | The wire of a channel leads from either of its two devices to the other |
| `PathTruth.Walk` | scripts/path_truth.py:46-53 | Returns a path of at most 200 steps that follows next hops to the target, and None only if there is none |
| `PathTruth.PathIsUnique` | scripts/path_truth.py:46-53 | There is at most one arriving path |
| `PathTruth.PathRepeatsNoNode` | scripts/path_truth.py:46-53 | A returned path repeats no node |
| `PathTruth.BoundRejectsOnlyFailures` | scripts/path_truth.py:46-53 | With at most bound + 1 nodes (201 for path_truth.py) a path is returned if and only if the target is reached at all; otherwise the trajectory stops at a drop or missing entry, or circles |
| `PathTruth.VizPathAgrees` | scripts/viz_path.py:76-83 | viz_path.py returns the same path whenever path_truth.py does, and beyond that exactly the paths of 201 to 500 steps |
| `PathTruth.PathTruthWalk` | scripts/path_truth.py:46-53 | The walk of path_truth.py returns the path to the target if there is one of at most 200 steps, and else None |
| `PathTruth.VizPathWalk` | scripts/viz_path.py:76-83 | The walk of viz_path.py returns the path to the target if there is one of at most 500 steps, and else None |
| `PacketForwarding.PopulateArpCaches` | ns3/contrib/satellite-network/model/topology-satellite-network.cc:413-442 | With unique addresses, every interface but the loopbacks is cached with its own MAC, and nothing else |
| `PacketForwarding.HopFollowsTable` | ns3/contrib/satellite-network/model/arbiter-satnet.cc:41-79 | A hop over either kind of link arrives on the stored interface of the stored next node, drops exactly on a stored drop, and aborts exactly on an unset entry |
| `PacketForwarding.GatewayIsNextInterface` | ns3/contrib/satellite-network/model/arbiter-satnet.cc:41-79 | The gateway an arbiter names is the address of the interface where the packet then arrives, and the own interface it names is one of the node, on the same kind of link |
| `PacketForwarding.JourneyMatches` | ns3/contrib/satellite-network/model/arbiter-satnet.cc:41-79 | Hop by hop, a packet follows the trajectory of the dictionary |
| `PacketForwarding.FateIsExact` | ns3/contrib/satellite-network/model/arbiter-satnet.cc:41-79 | A fate fits the dictionary for one trajectory only: delivered, dropped and aborted each if and only if that trajectory ends in this way within the hops |
| `PacketForwarding.ForwardingFollowsWalk` | scripts/path_truth.py:33-53 | A packet visits exactly the nodes walk returns from the same files; it is dropped if and only if its trajectory meets a stored -1 within 200 hops, and the run aborts if and only if it meets a missing entry |
| `PacketForwarding.SelfPacketDiffers` | ns3/contrib/basic-sim/model/core/ipv4-arbiter-routing.cc:139-168 | To walk a node has reached itself; the packet is not delivered there, but dropped, aborted or sent on by the own entry of the node |
| `PacketForwarding.ForwardingAgreesExactly` | scripts/path_truth.py:46-53 | Wherever walk returns a path, the packet takes it if and only if source and target differ |
| `PacketForwarding.AttachedAreRegistered` | ns3/contrib/satellite-network/model/gsl-channel.cc:130-139 | With unique MAC addresses the channel finds every attached GSL device under its own address, whatever the order of attachment |
| `PacketForwarding.PacketsFollowWalkAtEveryInstant` | scripts/path_truth.py:33-53 | At every instant t of every non-static run, packets follow the walk over the dictionary built from the files for 0, I, ..., floor(t / I) I |
| `Calendar.FormulaCountsDays` | ns3/contrib/satellite/model/sgp4ext.cpp:571-575 | The closed formula counts days: start of year, days before the month, day |
| `Calendar.FormulaAdvancesByOne` | ns3/contrib/satellite/model/sgp4ext.cpp:571-575 | The count advances by exactly one from each day to the next, across month and year ends |
| `Calendar.DayCountIsInjective` | ns3/contrib/satellite/model/sgp4ext.cpp:571-575 | No two dates share a count |
| `Sgp4Ext.Days2mdhms` | ns3/contrib/satellite/model/sgp4ext.cpp:617-648 | Month and day split the day of the year, and the time of day is the fraction |
| `Sgp4Ext.GuessIsClose` | ns3/contrib/satellite/model/sgp4ext.cpp:704-716 | The guessed year is never low and at most one high |
| `Sgp4Ext.Invjday` | ns3/contrib/satellite/model/sgp4ext.cpp:690-720 | Every instant gets a valid date and time whose Julian date it is |
| `Sgp4Ext.JdayIsInjective` | ns3/contrib/satellite/model/sgp4ext.cpp:565-577 | No two valid dates and times share a Julian date |
| `Sgp4Ext.JdayThenInvjday` | ns3/contrib/satellite/model/sgp4ext.cpp:690-720 | invjday undoes jday |
| `Sgp4Ext.JdayCountsDays` | ns3/contrib/satellite/model/sgp4ext.cpp:565-577 | jday advances by one per day and gives 2440587.5 on 1 January 1970 |
| `JulianDates.ArithmeticIsModular` | ns3/contrib/satellite/model/julian-date.cc:253-303 | Both mutually recursive operators stay normalised, for either sign, and are arithmetic on total milliseconds modulo 2^32 days |
| `JulianDates.AddSubCancel` | ns3/contrib/satellite/model/julian-date.cc:253-303 | (a + t) - t = a and (a - t) + t = a for every Time |
| `JulianDates.AddDifference` | ns3/contrib/satellite/model/julian-date.cc:311-318 | a + (b - a) = b |
| `JulianDates.DayBetween` | ns3/contrib/satellite/model/julian-date.cc:311-318 | Successive days are 86400000000000 nanoseconds apart |
| `JulianDates.PlainArithmetic` | ns3/contrib/satellite/model/julian-date.cc:253-303 | The result is unbounded integer arithmetic if and only if it stays in the range of the fields |
| `JulianDates.UnitsOfTime` | ns3/contrib/satellite/model/julian-date.cc:253-309 | 86400000000000 nanoseconds are one day and 1000000 one millisecond: adding them goes to the same time of the next day and to the next millisecond, across the end of a day and of the last day |
| `JulianDates.Truncates` | ns3/contrib/satellite/model/julian-date.cc:253-309 | The milliseconds of a Time are its whole millions of nanoseconds, towards zero |
| `JulianDates.ComparisonsAgree` | ns3/contrib/satellite/model/julian-date.cc:320-366 | All six comparisons agree with the sign of the difference |
| `LeapSeconds.TaiMinusUtcCounts` | ns3/contrib/satellite/model/julian-date.cc:388-397 | The offset is the base plus the number of entries strictly before the day: on the day of an entry it is one second less than with the entry counted |
| `LeapSeconds.ShownTotals` | ns3/contrib/satellite/model/julian-date.cc:486-509 | A stored instant is shown unchanged in UTC, ahead by the base and one second for every entry before its day in TAI, and by 32184 milliseconds more in TT |
| `LeapSeconds.StoredTotals` | ns3/contrib/satellite/model/julian-date.cc:458-510 | An instant of TAI or TT is stored earlier by that same offset of the day it is stored on, less one second in the window after an entry |
| `LeapSeconds.LowerBoundNextDay` | ns3/contrib/satellite/model/julian-date.cc:388-397 | From one day to the next the leap-second search moves by one exactly after an entry, else not |
| `LeapSeconds.ScaleRoundTrip` | ns3/contrib/satellite/model/julian-date.cc:458-510 | From TAI or TT to UTC and back is the identity if and only if the instant is outside the one-second window after an entry; inside, the result is exactly one second ahead |
| `LeapSeconds.UtcRoundTrip` | ns3/contrib/satellite/model/julian-date.cc:458-510 | From UTC to TAI or TT and back is always the identity |
| `LeapSeconds.WindowAfterEveryEntry` | ns3/contrib/satellite/model/julian-date.cc:486-509 | After each entry d there is such a window, the 1000 milliseconds of day d + 1 from the old offset on, and there are no others |
| `LeapSeconds.ShownExactly` | ns3/contrib/satellite/model/julian-date.cc:458-510 | The instants in the windows are exactly those of TAI and TT that no UTC instant stands for |
| `LeapSeconds.ShownInstantsAreDistinct` | ns3/contrib/satellite/model/julian-date.cc:115-128 | Different UTC instants show as different instants of a scale |
| `GregorianDates.JulianDate.SetDate` | ns3/contrib/satellite/model/julian-date.cc:217-251 | The stored instant is the day count and time of day, converted to UTC; no 32-bit intermediate wraps |
| `GregorianDates.JulianDate.Show` | ns3/contrib/satellite/model/julian-date.cc:115-119 | The shown date and time are those of the stored instant shifted to the scale; by how much is LeapSeconds.ShownTotals |
| `GregorianDates.JulianDate.AddAssign` | ns3/contrib/satellite/model/julian-date.cc:273-277 | The object stays normalised and on its scale, its total milliseconds grow by those of the Time modulo 2^32 days, and subtracting the Time restores it |
| `GregorianDates.JulianDate.SubAssign` | ns3/contrib/satellite/model/julian-date.cc:305-309 | The same for subtraction: total milliseconds shrink by those of the Time modulo 2^32 days, and adding the Time restores the object |
| `GregorianDates.MonthAndDay` | ns3/contrib/satellite/model/julian-date.cc:428-442 | The month loop splits the day of the year; past the end of the year it leaves the month uninitialised and the excess as the day |
| `GregorianDates.GregorianDate` | ns3/contrib/satellite/model/julian-date.cc:414-456 | The date computed in the unsigned arithmetic of the code, for every day, with an arbitrary month where the code sets none |
| `GregorianDates.GuessIsRight` | ns3/contrib/satellite/model/julian-date.cc:422-426 | From 1993 on the guessed year is the year of the day |
| `GregorianDates.DaysToDateToDays` | ns3/contrib/satellite/model/julian-date.cc:414-456 | From 1993 on every day gets a valid date whose count is that day |
| `GregorianDates.DateToDaysToDate` | ns3/contrib/satellite/model/julian-date.cc:244-247 | Every date from 1993 to 2099 is what its count is shown as |
| `GregorianDates.NoDateIn1992` | ns3/contrib/satellite/model/julian-date.cc:425-442 | On every day of 1992 the unsigned difference wraps, and the day shown exceeds 31: no date, whatever the uninitialised month holds |
| `GregorianDates.WrongYearBefore1992` | ns3/contrib/satellite/model/julian-date.cc:418-423 | Before 1992 the year shown is millions of years off |
| `GregorianDates.ShownDateIsRight` | ns3/contrib/satellite/model/julian-date.cc:414-456 | The shown date is valid and counts back to its day if and only if the day is 1 January 1993 or later |
| `GregorianDates.SetThenShow` | ns3/contrib/satellite/model/julian-date.cc:115-128 | SetDate followed by ToString gives the date back if and only if its year is after 1992 and it is outside the one-second window, for UTC, TAI and TT and every usable table |
| `GregorianDates.JdayAgrees` | ns3/contrib/satellite/model/julian-date.cc:244-247 | The day count of SetDate is the Julian date of jday, from 2440587.5 |
| `GregorianDates.BothCalendarsAgree` | ns3/contrib/satellite/model/sgp4ext.cpp:690-720 | From 1993 on invjday and GregorianDate show every instant as the same date and time |
| `TcpFlows.ReadSchedule` | ns3/contrib/basic-sim/helper/apps/tcp-flow-schedule-reader.cc:73-126 | Accepts exactly the lines numbered from 0 whose flows join two different endpoints, with no negative field, ascending starts and each start before the end, and returns them unchanged |
| `TcpFlows.FilterSchedule` | ns3/contrib/basic-sim/helper/apps/tcp-flow-scheduler.cc:94-105 | The schedule-order subsequence of the flows whose source is a node of this system |
| `TcpFlows.EveryFlowOnce` | ns3/contrib/basic-sim/helper/apps/tcp-flow-scheduler.cc:94-105 | Over all systems every flow is started exactly once, for every assignment |
| `TcpFlows.FilterKeepsStartable` | ns3/contrib/basic-sim/helper/apps/tcp-flow-scheduler.cc:94-105 | Any order-preserving filter keeps what the chain of starts needs |
| `TcpFlows.TcpFlowScheduler.constructor` | ns3/contrib/basic-sim/helper/apps/tcp-flow-scheduler.cc:141-143 | The first start is scheduled, if there is one |
| `TcpFlows.TcpFlowScheduler.StartNextFlow` | ns3/contrib/basic-sim/helper/apps/tcp-flow-scheduler.cc:26-55 | One application is added for flow i, and the start of the next is scheduled |
| `TcpFlows.TcpFlowScheduler.WriteResults` | ns3/contrib/basic-sim/helper/apps/tcp-flow-scheduler.cc:178-182 | Row i pairs entry i with application i; throws exactly when an application is missing |
| `TcpFlows.EveryRunStartsFlowsInOrder` | ns3/contrib/basic-sim/helper/apps/tcp-flow-scheduler.cc:26-55 | In every run over an accepted and filtered schedule the time assertion never fails, flows start once each, in order, at their own start time and before the end, and all have started by the end |
| `TcpFlows.SimulateFlows` | ns3/contrib/basic-sim/helper/apps/tcp-flow-scheduler.cc:26-55 | The scheduler object under an event loop until the end: row i of the results is entry i with the application started for it at its start time |
| `UdpBursts.ReadSchedule` | ns3/contrib/basic-sim/helper/apps/udp-burst-schedule-reader.cc:29-88 | Accepts exactly the lines numbered from 0 whose bursts join two different endpoints, with a positive rate, no negative field, ascending starts and each start before the end, and returns them unchanged |
| `UdpBursts.UdpBurstApplication.RegisterOutgoingBurst` | ns3/contrib/basic-sim/model/apps/udp-burst-application.cc:76-91 | Refuses a burst of another node or one starting before the last registered; otherwise appends it |
| `UdpBursts.UdpBurstApplication.RegisterIncomingBurst` | ns3/contrib/basic-sim/model/apps/udp-burst-application.cc:93-104 | Refuses a burst to another node; otherwise appends it |
| `UdpBursts.UdpBurstScheduler.constructor` | ns3/contrib/basic-sim/helper/apps/udp-burst-scheduler.cc:91-121 | One application per owned endpoint, with exactly its bursts, none refused; both lists in registration order, every burst paired with the application of its own node |
| `UdpBursts.UdpBurstScheduler.Setup` | ns3/contrib/basic-sim/helper/apps/udp-burst-scheduler.cc:95-117 | What one endpoint adds |
| `UdpBursts.RegisteredIsOwned` | ns3/contrib/basic-sim/helper/apps/udp-burst-scheduler.cc:91-121 | Registration visits each burst this system is responsible for exactly once |
| `UdpBursts.UdpBurstApplication.StartApplication` | ns3/contrib/basic-sim/model/apps/udp-burst-application.cc:129-132 | The start of the first burst is scheduled, if there is one |
| `UdpBursts.UdpBurstApplication.BurstSendOut` | ns3/contrib/basic-sim/model/apps/udp-burst-application.cc:157-172 | One packet is sent and counted now, and the next is scheduled after the gap exactly if it is still within the burst; the gap is that of GapKeepsRate |
| `UdpBursts.GapKeepsRate` | ns3/contrib/basic-sim/model/apps/udp-burst-application.cc:167-168 | The gap is the least whole number of nanoseconds that keeps packets of 1500 bytes within the target rate: with it the bits due are at least those of a packet, with a nanosecond less they are not |
| `UdpBursts.UdpBurstApplication.StartNextBurst` | ns3/contrib/basic-sim/model/apps/udp-burst-application.cc:136-155 | Throws exactly if no burst is due; otherwise sends the first packet of the next burst and schedules the start of the one after it |
| `UdpBurstRuns.EveryBurstIsSent` | ns3/contrib/basic-sim/model/apps/udp-burst-application.cc:136-172 | In every run over bursts from an accepted schedule StartNextBurst never throws, and at every instant each burst has sent exactly its packets due by then, packet k at start + k gap, never above its target rate |
| `UdpBurstRuns.RateIsKept` | ns3/contrib/basic-sim/model/apps/udp-burst-application.cc:157-172 | At any instant the packets of a burst after its first are covered, at 12000 bits each, by its rate times the time since its start |
| `UdpBurstRuns.PacketsAre` | ns3/contrib/basic-sim/model/apps/udp-burst-application.cc:164-170 | A burst has max(1, duration / gap rounded up) packets: packet k exists if and only if k = 0 or k gap < duration |
| `UdpBurstRuns.RegisteredIsStartable` | ns3/contrib/basic-sim/helper/apps/udp-burst-schedule-reader.cc:29-88 | What any application gets from an accepted schedule fulfils what the runs need |
| `UdpBurstRuns.SimulateBursts` | ns3/contrib/basic-sim/model/apps/udp-burst-application.cc:112-172 | The application object under an event loop: at its end the records and counters are those of the packets due by then, within the target rate |
| `UdpBursts.SortById` | ns3/contrib/basic-sim/helper/apps/udp-burst-scheduler.cc:164-173 | The list sorted by id, pairs kept together |
| `UdpBursts.SortedIsUnique` | ns3/contrib/basic-sim/helper/apps/udp-burst-scheduler.cc:164-173 | Ids are distinct, so every sort gives the same order |
| `UdpBursts.UdpBurstScheduler.SortResponsibilities` | ns3/contrib/basic-sim/helper/apps/udp-burst-scheduler.cc:164-173 | After the sort each list is the schedule-order subsequence of the owned bursts |
| `UdpBursts.RunScheduler` | ns3/contrib/basic-sim/helper/apps/udp-burst-scheduler.cc:91-121 | From an accepted schedule to the sorted lists: outgoing by source, incoming by target |
| `UdpBursts.EveryBurstOnce` | ns3/contrib/basic-sim/helper/apps/udp-burst-scheduler.cc:91-121 | Over all systems every burst is outgoing exactly once and incoming exactly once, for every assignment |
| `UdpBursts.UndistributedHasAll` | ns3/contrib/basic-sim/helper/apps/udp-burst-scheduler.cc:91-121 | Without distribution both lists are the whole schedule |
| `Shells.WriteShells` | scripts/gen_state.py:147-171 | Satellite s is line s of the file and is named after the shell whose id range contains s |
| `Shells.RangesAreDisjoint` | scripts/gen_state.py:147-162 | A satellite is in at most one shell |
| `Shells.SomeShellContains` | scripts/gen_state.py:147-162 | A satellite is in some shell |
| `Shells.PlacesInShell` | scripts/gen_state.py:147-171 | A shell holds exactly one satellite for each orbit and each place on it, numbered orbit by orbit |
| `Shells.SkipEmpty` | scripts/gen_state.py:232-234 | Moves to the shell that contains the next satellite; runs past the list exactly when there is none |
| `Shells.ReadLimits` | scripts/gen_state.py:228-237 | Every satellite gets the limits of its shell, empty shells included, and the index runs past the list if and only if there are more satellites than the shells have |
| `Shells.WriteThenRead` | scripts/gen_state.py:147-237 | The two numberings agree: read back after being written, every satellite has the limits of the shell it is named after |

## Left out

- Orbit propagation, coordinate transformations, positions and distances: floating-point trigonometry. Delays are
  arbitrary functions of time, with only the bounds a statement names.
- The contents of the leap-second table: any strictly ascending list whose offsets stay below a day.
- UT1 and GPS time, `GetDouble` and `SetDate(double)`: UT1 depends on rounded per-day values, and GPS time tests the day
  change with an offset that lacks its 19 seconds, so neither has a clean round trip.
- GregorianDates.JulianDate.SetDate: takes a parsed date that exists in the calendar, with whole milliseconds; a rejected
  year is a precondition, and the rounding of a fractional second, which can give 1000 milliseconds, is not modelled.
- Sgp4Ext.Invjday: exact arithmetic, without the two nudges of 1e-11 days and 8.64e-7 seconds.
- JulianDates.ArithmeticIsModular: days of a `Time` are the exact quotient; the double that `GetDays` returns can round up
  for a Time less than a millisecond short of a large whole number of days.
- JulianDates.AddDifference: days up to 106750, beyond which a 64-bit count of nanoseconds overflows.
- ForwardingState.ArbiterSingleForwardHelper.UpdateForwardingState: after an abort the tables are left unspecified.
- PacketForwarding.ForwardingFollowsWalk: no queue drops, one system, and tables that do not change in flight; the IP stack
  between two hops, with its hop limit, is not modelled.
- PacketForwarding.PopulateArpCaches: one cache for all nodes, without entry lifetimes.
- UtilizationReport.CollectRows: the rows of one device before they are formatted; the loop over devices is left out.
- UdpBursts.SortById: an insertion sort in place of `std::sort`; distinct ids leave only one result.
- UdpBursts.UdpBurstScheduler.constructor: starts from the parsed schedule; addresses and precise logging are left out.
- Shells.WriteShells: names and ids; the orbital elements, checksums and links of the satellites are left out.
- UdpBursts.UdpBurstApplication.BurstSendOut: a packet is an instant in a record; headers, sockets and receivers are left
  out, as is stopping the application.
- `Attach` and `NotifyLinkUp` of the devices, the receive path with its error model, protocol numbers, MPI.
- Reading files, splitting lines, number parsing, output formatting, logging, traces and attributes.
- The constellation generator library, the IPv4, TCP and UDP stacks, Pingmesh, statistics of flows and bursts.
