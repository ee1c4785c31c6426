# Verified model of the WiFi manager and network glue

A Dafny model of the stateful parts of a WiFi microcontroller's software: the DHCP server of its soft
access point, the event loop and the station connection machine that runs on it, the builder and the
parsers of the supplicant's configuration, a small DNS responder, the hand-off of transmit buffers to
the driver, and the bit-field helpers. `dafny verify dfyconfig.toml` checks it all.

## How it is organised

Code that updates tables, lists and fields in place is a class or a method over arrays, proved equal to
a function on values; what the system promises is then proved about those functions, over every run.

| files | what they hold |
|---|---|
| `Leases`, `LeaseServer`, `LeaseRuns`, `LeaseOffers`, `LeaseReplies` | the lease table: one function per message; the arrays that refine it; what every run keeps; when an offer is honoured; what each message means on table entries and in numbers |
| `DhcpOptions`, `DhcpPackets` | the option writer and parser (section 2 of RFC 2132); packets as events and replies |
| `TimerQueue`, `TimerRuns`, `EventLoop` | the sorted timer list with wrapping 32-bit times; its runs; the loop object |
| `Station`, `StationMachine` | the six-phase connection machine as functions, and as an object on top of the event loop |
| `StationEffects` | what each message and timer does to it, in plain numbers |
| `StationRuns`, `StationDhcp`, `StationTimers` | its invariants, its link-up safety, and its timers as a run of the event loop |
| `StationRetry`, `StationAttempts`, `StationStuck` | its bounded retrying, one move and whole attempts, and one run that goes wrong |
| `KeyMgmt`, `NetworkConfig`, `Splitting` | key-management names both ways, the configuration string and its tokeniser |
| `NetworkReading` | an independent reader of SET_NETWORK arguments, and what it reads from the configuration |
| `Dnsd` | the DNS responder against an independent reader of RFC 1035 messages |
| `TxBuffers` | reference counts, chain copies and segment tables of packet buffers |
| `BitField` | fields of up to eight bits in a byte array |

## Where the obvious claim is false

Each of these is proved with the exact condition under which the code does meet the claim.

- An offer made in a slot still marked deleted can be lost to other clients, for a newcomer as for a returning
  client (a daemon start marks every client, `LeaseOffers.RestartMarks`), and an address with another third
  octet than the boot address is never acknowledged: an offer is honoured in every run if and only if neither
  is the case (`LeaseOffers.OfferHonouredIff`).
- A started server acknowledges what it offers to newcomers if the pool keeps to one third octet up to the address
  behind it (`LeaseReplies.NewcomerServed`); an address passes the filter exactly if it has that octet
  (`LeaseReplies.PoolPassesIff`).
- An overload option that comes first is never obeyed: the code of the option behind it, or the end mark, decides
  whether the file field is searched (`DhcpOptions.OverloadMisread`).
- A DISCOVER that is refused has the previous reply sent again (`LeaseRuns.RefusedDiscoverResends`).
- Inserting a timer by raw 32-bit time keeps the list ordered if and only if nothing pending belongs to an
  earlier period of the clock and, if something belongs to a later one, some timer of the new one's own period
  is due after it (`TimerQueue.InsertOrderedIff`, with an example in `TimerQueue.WrapMisorders`). A timer of
  more than 2^31 ms fires early (`TimerQueue.ComparisonRightIff`).
- A blocked connect is not woken when the attempt ends by a disconnect command, a reset or a failure report
  during the scan, and only then (`StationRuns.CallerForgottenIff`); a second command during linking takes the
  first caller's latch (`StationRuns.SecondCommandTakesLatch`). A caller that waits for a scan is woken by a failed
  scan only while the machine is connected, and by nothing but a reset while a link is being set up
  (`StationEffects.ScanCallerWokenIff`).
- A lost link is rescanned if and only if no delayed retry was left marked (`StationRuns.LinkLossRescansIff`);
  a run that leaves the mark behind exists (`StationStuck.LostLinkNotRebuilt`).
- The check for a changed network reports a change for every network whose suites contain WPA-PSK-SHA256, the
  default suites included, because the parser does not know that name (`NetworkConfig.ConfiguredUnchangedIff`).
- The settings string reaches the supplicant as meant if and only if the network name holds neither ';' nor
  NUL and a passphrase that is used holds no ';' (`NetworkConfig.ArgumentsSurviveIff`).
- The DNS responder finds the end of every name except the root (`Dnsd.WalkedRightIff`).

## Model

| member | source | states |
|---|---|---|
| Leases.FreshAddress | src/lwip/port/dhcpd.c:207-236 | the address chosen is the least one in the pool that is not excluded, not in the ARP table and not leased; 0 exactly when there is none |
| Leases.PickSlot | src/lwip/port/dhcpd.c:362-379 | a free slot if there is one, else a deleted one; none exactly when all slots are in use |
| LeaseServer.Server.constructor | src/lwip/port/dhcpd.c:595-643 | memory at boot is the abstract boot state; without wrap the pool starts one behind the interface address, has one address more than slots, and the boot address is the next one |
| LeaseServer.Server.FindLeaseByMac | src/lwip/port/dhcpd.c:238-249 | the scan finds the first slot of a client |
| LeaseServer.Server.FindLeaseByAddr | src/lwip/port/dhcpd.c:163-174 | the scan tells whether any slot carries the address |
| LeaseServer.Server.FindDeclinedAddr | src/lwip/port/dhcpd.c:176-186 | the scan finds the address on the decline list |
| LeaseServer.Server.FindAddress | src/lwip/port/dhcpd.c:207-236 | the scanning loop computes the least eligible address |
| LeaseServer.Server.FindSlot | src/lwip/port/dhcpd.c:362-379 | the slot loop, which remembers the last deleted slot, finds the slot meant |
| LeaseServer.Server.HandleDiscover | src/lwip/port/dhcpd.c:337-398 | the tables, reply buffer and result after a DISCOVER are those of the abstract step |
| LeaseServer.Server.HandleRequest | src/lwip/port/dhcpd.c:400-513 | the same for a REQUEST: ACK, NAK or silence, and the deleted mark cleared by an ACK only |
| LeaseServer.Server.HandleRelease | src/lwip/port/dhcpd.c:515-527 | a RELEASE marks the client's slot deleted only when it names this server |
| LeaseServer.Server.HandleDecline | src/lwip/port/dhcpd.c:529-553 | a DECLINE adds the address once, if it names this server and there is room |
| LeaseServer.Server.DeleteByMac | src/lwip/port/dhcpd.c:288-305 | the client's first slot is marked deleted, nothing else changes |
| LeaseServer.Server.Start | src/lwip/port/dhcpd.c:730-748 | a daemon start clears the decline list, recomputes the pool, to the same numbers, and marks every used slot deleted |
| LeaseServer.Server.FindAddrByMac | src/lwip/port/dhcpd.c:251-261 | other modules are told an address only if it is leased, not deleted and not declined |
| LeaseServer.Server.Handle | src/lwip/port/dhcpd.c:645-694 | every message moves the arrays exactly as the abstract step, so every run theorem holds of them |
| LeaseRuns.StepKeepsInv | src/lwip/port/dhcpd.c:337-553 | every step keeps: nonzero clients distinct, nonzero addresses distinct, an empty slot has no address, declined addresses distinct |
| LeaseRuns.RunKeepsInv | src/lwip/port/dhcpd.c:337-553 | so does every run |
| LeaseRuns.RunKeepsPool | src/lwip/port/dhcpd.c:595-624 | in every run at one interface address, every leased address lies in the pool, is not the gateway and does not end in 0 or 255 |
| LeaseRuns.NoSharedAddressFromBoot | src/lwip/port/dhcpd.c:337-553 | from boot, in every run, no two slots share a nonzero address or a client |
| LeaseRuns.StepKeepsHold | src/lwip/port/dhcpd.c:337-553 | every step but the named exceptions leaves a client its acknowledged address and offers it to nobody else |
| LeaseRuns.AckedAddressIsExclusive | src/lwip/port/dhcpd.c:400-513 | after an ACK of a nonzero address no later packet offers or acknowledges it to another client, until a release, a deletion, a restart, or the client's own DISCOVER after a decline |
| LeaseRuns.EndedHoldIsGone | src/lwip/port/dhcpd.c:288-305 | each of those exceptions really ends the hold |
| LeaseOffers.SelectAckedIff | src/lwip/port/dhcpd.c:400-449 | exactly when a selecting REQUEST is acknowledged |
| LeaseOffers.HoldSurvivesForeigners | src/lwip/port/dhcpd.c:337-553 | a held address survives every sequence of steps by others |
| LeaseOffers.DeletedSlotIsStolen | src/lwip/port/dhcpd.c:362-384 | a client whose slot is the next to be picked is thrown out by the next newcomer |
| LeaseOffers.MarkedIsLost | src/lwip/port/dhcpd.c:362-384 | from any table, others have a sequence of steps that throws out a client in a marked slot, however many slots would be picked before it |
| LeaseOffers.OfferPlaced | src/lwip/port/dhcpd.c:351-388 | what every DISCOVER that is not refused offers, and the slot, address and mark the client then has |
| LeaseOffers.RestartMarks | src/lwip/port/dhcpd.c:738-742 | after a daemon start every client with an address is in a marked slot |
| LeaseOffers.OfferHonouredIff | src/lwip/port/dhcpd.c:337-449 | any offer of a nonzero address, to a newcomer or a returning client, is honoured after every sequence of steps by others if and only if its slot was not marked deleted before and it passes the third-octet filter |
| LeaseReplies.KnownClientOffered | src/lwip/port/dhcpd.c:351-388 | a DISCOVER of a client with an undeclined entry is answered by an offer of that entry's address, and changes no table |
| LeaseReplies.NewcomerPlacedInOneSlot | src/lwip/port/dhcpd.c:362-388 | a newcomer gets one slot, an unused one if there is one and otherwise a marked one, which keeps its mark, and the least address of the pool that does not end in 0 or 255, is not the gateway and neither in ARP nor leased; nothing else changes |
| LeaseReplies.RequestAnsweredIff | src/lwip/port/dhcpd.c:400-513 | for every client address and requested address: silence exactly for another third octet than the boot address; an ACK of x exactly if the table has x for the client and x is requested, or nothing (or 0) is requested and the client address is x; a NAK exactly otherwise |
| LeaseReplies.RenewalAcknowledged | src/lwip/port/dhcpd.c:456-489 | a client that names its address by the client address field alone is renewed |
| LeaseReplies.RequestClearsMark | src/lwip/port/dhcpd.c:445-483 | an ACK takes the deleted mark off the client's slot, and nothing else in the tables ever changes by a REQUEST |
| LeaseReplies.ReleaseMarks | src/lwip/port/dhcpd.c:515-527 | a RELEASE that names this server, and a deletion, mark exactly the client's slot; any other RELEASE does nothing |
| LeaseReplies.DeclineRecorded | src/lwip/port/dhcpd.c:529-553 | after a DECLINE an address is on the list exactly if it was, or it is the one declined to this server and there was room |
| LeaseReplies.StartMarks | src/lwip/port/dhcpd.c:730-748 | a daemon start marks exactly the slots with a client and empties the decline list |
| LeaseReplies.PoolMeans | src/lwip/port/dhcpd.c:595-643 | started at ip with n slots, exactly the addresses ip + 1 to ip + 1 + n are assignable, but for the gateway's and those that end in 0 or 255 |
| LeaseReplies.PoolPassesIff | src/lwip/port/dhcpd.c:668-679 | a REQUEST for a pool address passes the filter exactly if it has the third octet of ip + 2 + n |
| LeaseReplies.ServesFromStart | src/lwip/port/dhcpd.c:595-748 | from boot, and after every daemon start, every run without another start leaves the server with that pool |
| LeaseReplies.NewcomerServed | src/lwip/port/dhcpd.c:337-449 | such a server, with a pool in one third octet, offers a newcomer an address of the pool and, in an unmarked slot, acknowledges it after any steps by others, with no condition on the boot address |
| LeaseRuns.DiscoverAfterDecline | src/lwip/port/dhcpd.c:351-384 | after a decline the client's DISCOVER always finds a slot, gets another address, and the declined one leaves table and list |
| LeaseRuns.AddressFoundByCounting | src/lwip/port/dhcpd.c:207-236 | a pool with more usable addresses (not excluded, not in ARP) than slots always has a free one |
| LeaseRuns.PoolNeverExhausted | src/lwip/port/dhcpd.c:595-624 | the configured pool of slots + 1 addresses is never exhausted when none is excluded or in ARP |
| LeaseRuns.RefusedDiscoverResends | src/lwip/port/dhcpd.c:656-666 | exactly when a DISCOVER is refused; then nothing changes and the old reply goes out again |
| LeaseRuns.ReplyMatchesTable | src/lwip/port/dhcpd.c:381-449 | every offer and acknowledgement, but for the one sent again, carries the address the table has for its client |
| DhcpOptions.AddOption | src/lwip/port/dhcpd.c:132-161 | an option is written at the end mark with the mark moved behind it; one that does not fit leaves the area unchanged and returns 0 |
| DhcpOptions.AddedSays | src/lwip/port/dhcpd.c:132-161 | an area that says a list of options says that list and the new option afterwards, exactly when it fits |
| DhcpOptions.LookOnce | src/lwip/port/dhcpd.c:76-128 | one look at an option as coded: found, skipped, on to the next field, or the overload option with its two wrong indices |
| DhcpOptions.PickupOption | src/lwip/port/dhcpd.c:60-130 | the parsing loop ends on every byte sequence and computes the specified lookup |
| DhcpOptions.EndRead | src/lwip/port/dhcpd.c:108-122 | an end mark leads from the options to the 128-byte file field at 108 and from there to the 64-byte server name at 44, by the two low bits of the overload byte |
| DhcpOptions.OptionRead | src/lwip/port/dhcpd.c:76-128 | in each of the three fields an option that ends inside the field is found or stepped over |
| DhcpOptions.OverloadMisread | src/lwip/port/dhcpd.c:99-106 | an overload option that comes first is not obeyed, whatever its value: for a code the options lack, the file field is searched exactly if the code behind it is odd |
| DhcpOptions.PickupReadsBack | src/lwip/port/dhcpd.c:60-130 | on an area that says a list of options the parser finds the first one of the code, or none |
| DhcpOptions.OptionsRoundTrip | src/lwip/port/dhcpd.c:60-161 | after any sequence of add calls, the parser returns for every code the bytes of the first accepted call with it, and nothing for a code not added |
| DhcpOptions.DistinctRoundTrip | src/lwip/port/dhcpd.c:60-161 | with distinct codes every accepted call reads back byte for byte |
| DhcpPackets.ProcessAllIsRun | src/lwip/port/dhcpd.c:645-728 | any sequence of datagrams, malformed ones included, and calls is a run of the table, with the same states and the same packets sent in the same order |
| DhcpPackets.NoSharedAddressOnTheWire | src/lwip/port/dhcpd.c:645-694 | hence no sequence of datagrams makes two clients share an address |
| DhcpPackets.AckedAddressIsExclusiveOnTheWire | src/lwip/port/dhcpd.c:645-728 | once a datagram is answered by an ACK of a nonzero address, no packet brought about by later datagrams offers or acknowledges it to another client until the hold is ended |
| DhcpPackets.BuildReply | src/lwip/port/dhcpd.c:307-335 | a reply's option area says exactly the options of its kind, in order |
| DhcpPackets.GrantReadable | src/lwip/port/dhcpd.c:307-335 | a client that parses an OFFER or ACK reads the type, server, lease time, mask, router, name server and domain that were meant |
| DhcpPackets.NakReadable | src/lwip/port/dhcpd.c:496-510 | from a NAK it reads type and server and nothing else |
| DhcpPackets.DecodeRequest | src/lwip/port/dhcpd.c:668-679 | a client's REQUEST datagram is decoded to the event it means |
| DhcpPackets.DatagramMeans | src/lwip/port/dhcpd.c:645-694 | every datagram with well-formed options is decoded by its type: 1, 3, 4, 7 to DISCOVER, REQUEST, DECLINE, RELEASE, with bytes 28 to 33 as hardware address, bytes 12 to 15 as client address and options 50 and 54 as they were said; anything else to nothing |
| DhcpPackets.HandshakeCompletes | src/lwip/port/dhcpd.c:337-449 | DISCOVER, OFFER, REQUEST datagram, ACK: a client offered an address in a slot that is not marked gets and then holds it, whatever others do in between |
| TimerQueue.TimeAfterEqIff | src/rtos/rtos_wrapper/wrapper_os.h:94-97 | the wrapped comparison is right within half a clock period |
| TimerQueue.ComparisonRightIff | src/rtos/rtos_wrapper/wrapper_os.h:94-97 | for times less than one period apart it is right if and only if they are within half a period |
| TimerQueue.SafeInsertOrdered | src/wifi_manager/wifi_eloop.c:253-287 | a wrap-safe insertion keeps the list in order of deadline, then registration |
| TimerQueue.UnsafeInsertDisordered | src/wifi_manager/wifi_eloop.c:276 | any other insertion breaks the order |
| TimerQueue.InsertOrderedIff | src/wifi_manager/wifi_eloop.c:253-287 | the order is kept if and only if the insertion is wrap-safe |
| TimerQueue.WrapMisorders | src/wifi_manager/wifi_eloop.c:276 | two timers around the wrap of the clock are misordered |
| TimerQueue.WaitIsExact | src/wifi_manager/wifi_eloop.c:417-448 | the loop waits exactly until the earliest deadline: never past it, never without bound while a timer is pending |
| TimerRuns.RunConserves | src/wifi_manager/wifi_eloop.c:253-409 | every run of register, cancel, handle and clock steps conserves the timers |
| TimerRuns.EachTimerAccountedOnce | src/wifi_manager/wifi_eloop.c:253-409 | each registered timer is, at every moment, pending, fired or cancelled: exactly one of them, exactly once |
| TimerRuns.RunDisciplined | src/wifi_manager/wifi_eloop.c:387-409 | in runs with wrap-safe registrations that look at the head timer within 2^31 ms of its deadline: the pending and the fired timers are ordered, everything fired is ahead of everything pending, and no timer fires early |
| TimerRuns.FiringOrder | src/wifi_manager/wifi_eloop.c:387-409 | in every such run any two timers that fire do so in order of deadline, equal deadlines in order of registration |
| TimerRuns.HandleFiresEarliest | src/wifi_manager/wifi_eloop.c:387-409 | one call fires exactly the earliest timer when it is due, and otherwise nothing |
| EventLoop.Eloop.Link | src/wifi_manager/wifi_eloop.c:264-283 | the walk links a timer where the abstract insertion puts it |
| EventLoop.Eloop.TimeoutRegister | src/wifi_manager/wifi_eloop.c:253-287 | the list moves as the abstract queue, by one timer with the given handler, contexts and wrapped time; refused, and unchanged, after termination or without memory |
| EventLoop.Eloop.TimeoutCancel | src/wifi_manager/wifi_eloop.c:309-334 | one pass removes exactly the timers of the handler with equal contexts, or any where the wildcard is given, and returns their number |
| EventLoop.Eloop.TimeoutIsRegistered | src/wifi_manager/wifi_eloop.c:361-379 | found if and only if a timer with exactly this handler and these contexts is pending |
| EventLoop.Eloop.TimeoutHandle | src/wifi_manager/wifi_eloop.c:387-409 | the head timer is unlinked and handed out exactly when it is due |
| EventLoop.Eloop.NextWait | src/wifi_manager/wifi_eloop.c:417-448 | the wait computed is the specified one |
| EventLoop.Eloop.EventRegister | src/wifi_manager/wifi_eloop.c:114-136 | a handler is added last for its event, other events keep theirs; refused, and unchanged, after termination or without memory |
| EventLoop.Eloop.EventUnregister | src/wifi_manager/wifi_eloop.c:144-167 | the oldest handler of the event goes, other events keep theirs in order |
| EventLoop.Eloop.EventDispatch | src/wifi_manager/wifi_eloop.c:212-242 | the handlers registered for the event run in order, and none for the loop's own events |
| StationMachine.Machine.HandleIdle | src/wifi_manager/wifi_management.c:865-912 | the idle phase updates every field as the abstract step |
| StationMachine.Machine.HandleScan | src/wifi_manager/wifi_management.c:1012-1037 | so does the scan phase, the fall-through to failure included |
| StationMachine.Machine.HandleConnect | src/wifi_manager/wifi_management.c:1038-1083 | and the connect phase |
| StationMachine.Machine.HandleHandshake | src/wifi_manager/wifi_management.c:1084-1130 | and the handshake phase |
| StationMachine.Machine.HandleDhcp | src/wifi_manager/wifi_management.c:1131-1175 | and the address wait |
| StationMachine.Machine.HandleConnected | src/wifi_manager/wifi_management.c:1176-1287 | and the connected phase |
| StationMachine.Machine.HandleMessage | src/wifi_manager/wifi_management.c:856-1299 | every message moves the object exactly as the abstract step |
| StationMachine.Machine.TakeMessage | src/wifi_manager/wifi_management.c:1507-1566 | the oldest message is taken and handled |
| StationMachine.Machine.ScheduleRetry | src/wifi_manager/wifi_management.c:529-542 | the retry timer is registered once, with the back-off in 32-bit arithmetic |
| StationMachine.Machine.RollBack | src/wifi_manager/wifi_management.c:488-503 | an armed roaming rollback is used up once and sends one connect command |
| StationMachine.Machine.DhcpPolling | src/wifi_manager/wifi_management.c:229-257 | the address poller's effect, its 8-bit counter included |
| StationMachine.Machine.LinkPolling | src/wifi_manager/wifi_management.c:323-363 | the link poller's effect |
| StationMachine.Machine.ConnectRetry | src/wifi_manager/wifi_management.c:373-384 | the retry timer's effect, the unguarded decrement included |
| StationMachine.Machine.FireTimer | src/wifi_manager/wifi_eloop.c:387-409 | the head timer is fired on the event loop's list as in the abstract machine |
| StationRuns.StepFits | src/wifi_manager/wifi_management.c:856-1299 | every message keeps: at most one retry timer and one address poller, each only in its phases, retries left while a retry is pending |
| StationRuns.FireFits | src/wifi_manager/wifi_management.c:229-384 | so does every timer |
| StationRuns.StepWalks | src/wifi_manager/wifi_management.c:661-854 | the phases entered by each message, and the published station state, phase by phase |
| StationRuns.ApplySound | src/wifi_manager/wifi_management.c:856-1299 | every move keeps timers, phases, mirror and wake-up accounts |
| StationRuns.RunSound | src/wifi_manager/wifi_management.c:1507-1566 | so does every run |
| StationRuns.OneRetryTimer | src/wifi_manager/wifi_management.c:373-384 | in every run at most one retry timer is pending, only while linking, and then the retry count is positive: the decrement never wraps |
| StationRuns.LinkOnlyThroughAllPhases | src/wifi_manager/wifi_management.c:661-854 | in every run the connected phase follows scan, connect, handshake and address wait directly, and the published state mirrors the phase |
| StationRuns.WakeUpsAccounted | src/wifi_manager/wifi_management.c:109-162 | in every run: CONN_DONE posts at most blocked connects plus refused commands, SCAN_DONE posts at most blocked scans, each link announced exactly once |
| StationRuns.CallerForgottenIff | src/wifi_manager/wifi_management.c:1012-1175 | for every message in a linking phase, by the message and the state before it: exactly when a caller blocked on the link is still waiting afterwards |
| StationRuns.SecondCommandTakesLatch | src/wifi_manager/wifi_management.c:544-555 | the whole effect of a command during linking: one failure posted, the waiting caller's latch consumed, nothing else changed |
| StationRuns.LinkLossRescansIff | src/wifi_manager/wifi_management.c:1217-1238 | after reason 11, 12, 15 or 16 a scan is started if and only if no delayed retry was left marked; otherwise nothing is pending |
| StationRuns.BackOffGrows | src/wifi_manager/wifi_management.c:511-542 | the pause between retries never shrinks and stays between the base interval and the cap |
| StationRuns.NoTimersLeft | src/wifi_manager/wifi_management.c:661-688 | counting: a machine whose counts are zero has no timer pending |
| StationEffects.DisconnectionMeans | src/wifi_manager/wifi_management.c:1217-1238 | a connected machine records the reason of every disconnection; 11, 12, 15 and 16 lead to the scan phase with 99 of 100 retries, 2500 ms apart, every other reason to idle; no timer is left |
| StationEffects.ConnectCommandMeans | src/wifi_manager/wifi_management.c:880-885 | a connect command to an idle or connected machine takes its configuration over and scans with 2 of 3 retries, 2000 ms apart |
| StationEffects.AutoConnectMeans | src/wifi_manager/wifi_management.c:886-894 | an auto-connect takes over name and channel of the stored network and scans with the roaming budget, or begins nothing |
| StationEffects.ResetMeans | src/wifi_manager/wifi_management.c:858-864 | the whole state after the first event or a reset |
| StationEffects.ProgressMeans | src/wifi_manager/wifi_management.c:1012-1130 | each success on the way enters the next phase and changes nothing but the access point, a failure reported at once, and 200 polls of the address, the first in 100 ms |
| StationEffects.TimerStarted | src/wifi_manager/wifi_eloop.c:253-287 | a timer started by the machine is one more in its list, due after the given time |
| StationEffects.LinkUpMeans | src/wifi_manager/wifi_management.c:1151-1155 | the whole effect of an address: reason, roaming marks and retry timer cleared, the waiting caller told or a success event sent |
| StationEffects.RetryMeans | src/wifi_manager/wifi_management.c:1062-1079 | a broken attempt with retries left goes back to the scan phase without a scan, marked, with one retry timer and nothing else pending |
| StationEffects.GiveUpMeans | src/wifi_manager/wifi_management.c:488-503 | the last attempt leaves the machine idle without timers, the caller told once, and one connect command to the remembered access point if roaming was under way |
| StationEffects.StopMeans | src/wifi_manager/wifi_management.c:1012-1240 | a disconnect command in any phase but idle, or a failure report during the scan, stops everything and tells nobody |
| StationEffects.OthersIgnored | src/wifi_manager/wifi_management.c:856-1299 | every event outside the list of its phase leaves the machine as it is |
| StationEffects.ScanCallerWokenIff | src/wifi_manager/wifi_management.c:865-1216 | exactly which messages wake a caller that waits for a scan |
| StationEffects.PollingScanMeans | src/wifi_manager/wifi_management.c:414-486 | what each outcome of a scan for a better access point leads to |
| StationEffects.LinkPollMeans | src/wifi_manager/wifi_management.c:323-363 | each look at a weak link: every 3000 ms, with a scan for the first ten and then every tenth |
| StationEffects.PollsRunOut | src/wifi_manager/wifi_management.c:229-257 | without an address the poller asks 200 times, 100 ms apart, and the last one reports the failure |
| StationEffects.RetryFires | src/wifi_manager/wifi_management.c:373-384 | the retry timer takes one try off the budget and scans |
| StationEffects.BackOffIs | src/wifi_manager/wifi_management.c:529-542 | the pauses in milliseconds: 2000 after a command; 2500 for the first 31 tries after a lost link, then 2500 more with each up to 300000 |
| StationTimers.StepTimers | src/wifi_manager/wifi_management.c:661-1299 | the exact timer operations of every message, in order |
| StationTimers.RunTimers | src/wifi_manager/wifi_management.c:229-384 | the timers after any run are what those operations make of them |
| StationTimers.TimersAreARun | src/wifi_manager/wifi_eloop.c:253-409 | in every run the machine's timers are those of a run of the event loop, with its conservation, and when that run is tame with its firing order |
| StationTimers.FailureSchedules | src/wifi_manager/wifi_management.c:529-542 | a failed attempt with retries left and none pending schedules one after its back-off |
| StationTimers.RetryWaitsOut | src/wifi_manager/wifi_management.c:373-384 | in every run, wherever the 32-bit clock wraps, a scheduled retry does not begin before its back-off has passed |
| StationDhcp.PathClean | src/wifi_manager/wifi_management.c:1084-1175 | entering new phases keeps stale address news and stale associations out of the queue |
| StationDhcp.RunClean | src/wifi_manager/wifi_management.c:229-257 | so does every run with a driver that reports an association only after a connect request |
| StationDhcp.LinkOnFreshAddress | src/wifi_manager/wifi_management.c:1131-1175 | in every such run the connected phase is entered only by a success message that the poller of the current address wait has sent |
| StationRetry.MoveKeeps | src/wifi_manager/wifi_management.c:1025-1079 | when everything fails, each effective move lowers the work left and keeps scans and wake-ups accounted for |
| StationAttempts.RunKeeps | src/wifi_manager/wifi_management.c:1025-1079 | every such run keeps them accounted for and has boundedly many moves that bring the attempt on |
| StationAttempts.NeverStuck | src/wifi_manager/wifi_management.c:373-384 | short of rest there is always a message, a timer or an outstanding answer |
| StationAttempts.StartAttempts | src/wifi_manager/wifi_management.c:511-527 | a command, an auto-connect and a lost link each start with their full retry budget and one scan |
| StationRetry.FailedPrefixed | src/wifi_manager/wifi_management.c:1151-1172 | a failed attempt does the same whether or not a failure of the address poller is still in the queue |
| StationAttempts.StepAppends | src/wifi_manager/wifi_management.c:856-1299 | whatever waits in the queue, a message is handled the same, and the one message at most that its handling posts goes behind |
| StationAttempts.MoveProceeds | src/wifi_manager/wifi_management.c:1025-1079 | the same for each move with frames in the queue, which change nothing |
| StationAttempts.FailingLinkEnds | src/wifi_manager/wifi_management.c:488-542 | when every attempt fails, by an answer in any phase, a report of the driver during the address wait or a wait that runs out, with frames coming in at any time, the machine comes to rest in idle after boundedly many useful moves, with exactly 3 scans started after a command and 100 after an auto-connect or a lost link, 3 more if a rollback was armed, and a blocked caller woken exactly once |
| StationStuck.LostLinkNotRebuilt | src/wifi_manager/wifi_management.c:1217-1238 | a permitted run reaches a connected machine whose next link loss leaves it without scan and timer |
| KeyMgmt.PrintNames | src/wifi_manager/wifi_wpa.c:3297-3353 | the names of a set are written after blanks with ';' and NUL, within the budget and nowhere else; -1 exactly when they do not fit |
| KeyMgmt.ParseKeyMgmt | src/wifi_manager/wifi_wpa.c:3208-3262 | the parser that cuts words in place computes the union of the words' meanings, all ones for an unknown word or none |
| KeyMgmt.WordsOfText | src/wifi_manager/wifi_wpa.c:3297-3324 | the words of the printed text are the printed names in order |
| KeyMgmt.MeaningOfName | src/wifi_manager/wifi_wpa.c:45-68 | which printed names the parser knows, and what each stands for |
| KeyMgmt.PrintParse | src/wifi_manager/wifi_wpa.c:3208-3324 | print then parse gives the same set with PRE_RSN added exactly when PSK is there, for every set of known suites and for no other |
| KeyMgmt.CountLeadingZeros | src/macsw/export/co_math.h:113-168 | the narrowing steps count the leading zeros of every 32-bit word |
| KeyMgmt.LeadingZerosOfSet | src/macsw/export/co_math.h:170-182 | the leading zeros of a set's word tell exactly its greatest member |
| KeyMgmt.NetworkUnchangedIff | src/wifi_manager/wifi_wpa.c:1085-1094 | exactly when the comparison of leading zeros finds a configured network unchanged |
| KeyMgmt.DefaultSuitesAlwaysChanged | src/wifi_manager/wifi_wpa.c:1370-1381 | for the default suites of a passphrase it always reports a change |
| NetworkConfig.Copy | src/wifi_manager/wifi_wpa.c:1362-1374 | a piece may use up what is left; written + left stays the budget |
| NetworkConfig.Format | src/wifi_manager/wifi_wpa.c:1405-1412 | a formatted piece must leave room for its NUL; written + left stays the budget |
| NetworkConfig.PutSuites | src/wifi_manager/wifi_wpa.c:1362-1432 | network name, protocol and suites are appended exactly when supported and fitting |
| NetworkConfig.PutAllCiphers | src/wifi_manager/wifi_wpa.c:1434-1496 | the cipher arguments, left out for the supplicant's default |
| NetworkConfig.PutKey | src/wifi_manager/wifi_wpa.c:1498-1548 | the key and frame-protection arguments |
| NetworkConfig.PutRest | src/wifi_manager/wifi_wpa.c:1550-1568 | the access point address, decided by its first three bytes, and the hidden-network flag |
| NetworkConfig.Build | src/wifi_manager/wifi_wpa.c:1346-1622 | the builder succeeds exactly when the settings are supported and the text with its NUL fits 384 bytes, and then holds the meant arguments |
| NetworkConfig.NextToken | src/wifi_manager/wifi_wpa.c:1007-1019 | each call cuts the next word between semicolons out of the buffer |
| NetworkConfig.CreateNetwork | src/wifi_manager/wifi_wpa.c:987-1034 | the tokens are sent in order up to the first that is refused or whose command is too long; success only if all are taken; a failure after the network was added removes the interface |
| NetworkConfig.WordsOfJoined | src/wifi_manager/wifi_wpa.c:1007-1019 | splitting undoes joining for clean arguments |
| NetworkConfig.SplitExactlyIff | src/wifi_manager/wifi_wpa.c:1007-1019 | arguments come back as they were if and only if none holds a semicolon or NUL |
| NetworkConfig.ArgumentsSurviveIff | src/wifi_manager/wifi_wpa.c:1346-1622 | the supplicant is sent exactly the meant arguments if and only if the name and a used passphrase are clean |
| NetworkReading.ArgumentsRead | src/wifi_manager/wifi_wpa.c:1346-1622 | an independent reader with its own word tables recovers from the arguments: the network name, RSN only or not, the suites, the pairwise and group ciphers each under its own word (TKIP and CCMP when absent), the key and its kind, protected frames required or optional by the setting, and the six address bytes |
| NetworkReading.SuitesMean | src/wifi_manager/wifi_wpa.c:1375-1432 | the suites in numbers: the defaults of a short and of a long passphrase, WEP for the pre-RSN suite alone, and otherwise those wished for that are supported |
| NetworkReading.SupportedIff | src/wifi_manager/wifi_wpa.c:1418-1466 | settings are refused exactly if no suite is left, or ciphers are needed and no pairwise or no group cipher is left |
| NetworkConfig.Configure | src/wifi_manager/wifi_wpa.c:1346-1633 | builder and tokeniser together, for every setting: what is sent, clean or not, when nothing is sent, when success is reported and when the interface is removed |
| NetworkConfig.ConfiguredUnchangedIff | src/wifi_manager/wifi_wpa.c:1085-1094 | a network the builder configured is later found unchanged if and only if its suites leave out WPA-PSK-SHA256 and any OWE the parser was built without |
| Splitting.WordAt | src/wifi_manager/wifi_wpa.c:3216-3224 | a maximal run of non-separators is the next word |
| Splitting.WordsAreSolid | src/wifi_manager/wifi_wpa.c:1007-1019 | words are not empty and hold no separator and no foreign character |
| Dnsd.GetQueryNameLen | src/lwip/port/dnsd.c:92-105 | the loop measures the specified walk over a name, in 16 bits |
| Dnsd.HandleQuery | src/lwip/port/dnsd.c:107-182 | for every received datagram, shorter than a header or not, whose walk stays inside the receive buffer: -1, 0 or the reply, within the buffer limit; exactly the flag bytes below 8 are looked at |
| Dnsd.AnswerMessage | src/lwip/port/dnsd.c:107-182 | every well-formed message in the buffer: 0 for a nonzero opcode or a response (-1 if longer than the reply buffer), -1 for a query whose answers might not fit, 0 for a query exactly if it has no address question, and otherwise a reply of query + 16 bytes per address question that the independent reader reads as the same questions and the records owed |
| Dnsd.AppendAnswers | src/lwip/port/dnsd.c:145-174 | one pass appends the answers of the address questions and counts them |
| Dnsd.NameWalked | src/lwip/port/dnsd.c:92-105 | the walk finds the end of every uncompressed name that is not the root |
| Dnsd.WalkedRightIff | src/lwip/port/dnsd.c:92-105 | and of the root never |
| Dnsd.AnswersAreEntries | src/lwip/port/dnsd.c:145-174 | for well-formed questions the answers are one entry per address question, in order |
| Dnsd.QuestionsRead | src/lwip/port/dnsd.c:131-133 | an independent reader of the message format reads encoded questions back |
| Dnsd.RecordsRead | src/lwip/port/dnsd.c:155-165 | and the entries as records under the names their pointers lead to |
| Dnsd.ReplyIsRight | src/lwip/port/dnsd.c:107-182 | for every well-formed query the reply has the same header with QR and count set, the same questions, and per address question one A record with that name, TTL 300 and the interface address; its length is query + 16 per answer |
| TxBuffers.Pool.Free | src/lwip/port/wifi_netif.c:667-674 | releasing a chain removes buffers as their last reference goes |
| TxBuffers.Pool.Cat | src/lwip/port/wifi_netif.c:179 | the tail joins the chain and every recorded length grows by it |
| TxBuffers.ReleasedWholly | src/lwip/port/wifi_netif.c:173-191 | releasing a chain nobody else refers to removes exactly that chain |
| TxBuffers.Pool.Copy | src/lwip/port/wifi_netif.c:163-186 | a chain is copied buffer by buffer with the same bytes; all is given back when the allocator runs dry |
| TxBuffers.Pool.Output | src/lwip/port/wifi_netif.c:151-215 | the driver gets one reference to a chain with the same bytes, or every live buffer and count is as before; exactly when which |
| TxBuffers.Pool.Info | src/lwip/port/wifi_netif.c:609-659 | success exactly when 348 bytes of headroom are there and some first k buffers, k being 1 or at most the number allowed, match the recorded length in 16 bits; the shortest such prefix is listed, and the headroom moves into the data |
| TxBuffers.MatchesIff | src/lwip/port/wifi_netif.c:609-659 | for a chain with the right recorded length that means: all bytes are in the buffers within the limit, and the listed lengths sum to the total |
| TxBuffers.Pool.TxFree | src/lwip/port/wifi_netif.c:667-674 | the headroom is given up and one reference released |
| TxBuffers.Pool.SendAndComplete | src/lwip/port/wifi_netif.c:151-215 | hand-off, listing and release together conserve every buffer, byte and reference; listing succeeds exactly when the first max buffers, at least one, hold every byte |
| BitField.ValGetBits | src/macsw/export/co_utils.h:465-488 | bit k of the value read is bit lsb + k of the flat bit sequence, also across two bytes |
| BitField.ValSet | src/macsw/export/co_utils.h:500-524 | exactly the bits of the field change, to those of the value |
| BitField.GetAfterSet | src/macsw/export/co_utils.h:465-524 | a written field reads back as the value's low bits |
| BitField.ReadBackModulo | src/macsw/export/co_utils.h:465-524 | that is, the value modulo 2^width |
| BitField.MaskNumber | src/macsw/export/co_utils.h:465-488 | the low mask of a width is the number 2^width - 1, which is how the program forms it |
| BitField.DisjointFieldsIndependent | src/macsw/export/co_utils.h:465-524 | writing one field leaves every disjoint one, in the same byte or not |
| BitField.BitIsSetFlat | src/macsw/export/co_utils.h:535-538 | the single-bit test reads the flat bit |
| BitField.BitSet | src/macsw/export/co_utils.h:566-569 | exactly the named bit becomes one |
| BitField.BitClr | src/macsw/export/co_utils.h:579-582 | exactly the named bit becomes zero |

## Left out

DHCP server
- LeaseServer.Server.constructor: the model has N slots and M decline entries instead of 4 and 1; the slot index is a signed byte, so N is below 128.
- LeaseServer.Server.HandleDiscover: with a pool that ends at 255.255.255.255 and no eligible address left in it, the scan's counter starts again at 0 and leaves the pool; that one call is excluded.
- LeaseServer.Server.FindAddress: excludes the same scan, which then need not end.
- LeaseServer.Server.Handle: excludes the same call.
- Leases.FreshAddress: the ARP table is an arbitrary set of addresses given with each message.
- DhcpPackets.DecodeRequest: an option shorter than its field reads the missing bytes as zero; the program leaves them uninitialised.
- DhcpOptions.PickupOption: the overload option is followed as coded, so two bytes behind the packet must be readable; a correct overload is not modelled.
- DhcpPackets.BuildReply: the option area alone; the fixed fields of a reply, copied from the request or constant, would only add easy members.
- DhcpPackets.ProcessAllIsRun: a datagram is given as the memory from its payload on, 550 bytes of it, because the program parses without looking at the datagram's length.
- DhcpOptions.OptionsRoundTrip: pad, end and overload are not options that can be added and found, so adding them is excluded.
- Lease expiry and host names (stored, never used), sockets and the daemon itself, a delete while the daemon is stopped, and a start while its socket is open.

Event loop
- TimerQueue.TimeAfterEqIff: the signed subtraction is taken to wrap in two's complement.
- TimerRuns.RunDisciplined: excludes a clock wrap among live deadlines and a head timer more than 2^31 ms from its deadline when it is looked at; `TimerQueue.InsertOrderedIff` and `TimerQueue.ComparisonRightIff` say exactly what these break.
- Critical sections, timers registered by other tasks while the loop is blocked, handlers that unregister events during dispatch; the deadline and the number of a timer are bookkeeping added to state its order.

Station machine
- StationMachine.Machine.HandleMessage: station mode only, without WPS, for the build without the full supplicant but with 802.11r; mode switching, the exchange of frames behind the handshake, the choice among scan results and the ownership of message parameters are not modelled; answers of the driver are parameters.
- StationMachine.Machine.Send: the queue holds 24 messages and drops when full; urgent posts and the wait-queue size of the RTOS wrapper are not modelled.
- StationMachine.Machine.FireTimer: the event loop is taken not to be terminated, and to have memory for a timer.
- StationDhcp.RunClean: address successes come from the poller alone, and the driver reports an association only while a connect request is outstanding or the link is up, one undelivered report at a time; all other messages, reports of scans included, are unconstrained.
- StationAttempts.FailingLinkEnds: each outstanding operation is answered once, with at most one report per address wait, while the poller runs, and no user command intervenes; a frame comes in only while the queue has room for three messages more, since a full queue drops what the machine itself posts; the limit is the bounded roaming budget, not the unlimited one, which is switched off.
- The soft access point's two-state machine, provisioning, WPS, monitor mode.

Configuration
- NetworkConfig.Build: without enterprise and SAE-PK arguments, which are switched off; the allocation of the text and the interface-type check are left out; the recorded passphrase length is taken to be its string length.
- NetworkConfig.CreateNetwork: the supplicant's answers, the number it gives the network and the size of the command buffer are parameters; a failure of the removal itself is not modelled.
- KeyMgmt.NetworkUnchangedIff: the supplicant is taken to hand the key-management text back unchanged, within the 63 characters that are read; the checks of address, name and key before it are left out.
- KeyMgmt.ParseKeyMgmt: whether OWE and FT-PSK are known depends on the build, so both are parameters.

DNS responder
- Dnsd.HandleQuery: a message whose names lead out of the receive buffer is left out, since the program then reads whatever memory follows. The buffer is at most 16 KiB, the range of a compression pointer.
- Dnsd.ReplyIsRight: additional records behind the questions are not part of a well-formed query here; the program would put its answers behind them.

Buffers
- TxBuffers.Pool.Output: which datagrams must be copied is a parameter, and so are the state of the interface and the driver's decision.
- TxBuffers.Pool.SendAndComplete: the driver is taken to list the chain it was handed and to release it, and to leave the headroom's bytes as they were; the chain's headroom and recorded length are taken to be right.
- TxBuffers.Pool.Alloc: the stack's allocator, `pbuf_cat`, `pbuf_ref` and `pbuf_free` follow their documented effect; their sources are not part of this model.

Helpers
- BitField.ValGetBits: widths of 1 to 8, as the byte-wide value allows.
- Alignment macros, minimum and maximum, unaligned accessors and random numbers.
