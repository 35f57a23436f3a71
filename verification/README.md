# NetworkManager plugin: verified model

The NetworkManager plugin watches network interfaces for the rest of a device: it caches their IP addresses, publishes
events to subscribers, monitors whether the internet is reachable, and acknowledges power transitions. This project
models the stateful parts of the plugin in Dafny 4.11 and proves what they keep over whole runs.

`dafny verify dfyconfig.toml` checks everything.

## How it is built

Each concurrent part is written twice and the two are tied together:

* a state machine: a `State` value, an `Action` for every step that a lock, an atomic or a single thread makes
  indivisible, `Enabled`, `Step`, `CanRun` and `Final`. A run is any sequence of enabled actions, so a lemma about
  `Final(INIT, acts)` is a statement about every interleaving;
* a class with the source's fields, whose methods are the source's operations. Each method's `ensures` equates the
  abstract value of the object after the call with `Step` (or a sequence of steps) of the value before it, so every
  lemma about runs is a lemma about the object.

Code that runs on one thread is a method with its loop, proved equal to a function, and lemmas about that function.

A libnm callback is several actions, and other threads may act between any two of them. `Callbacks.dfy` describes such a
callback as a list of operations and an interleaving as a list of turns, each taken by the callback or by somebody else;
`Play` says where the turns lead. The methods of the callback class give the other threads a moment before every action
(`OtherThreads`, which performs whatever an arbitrary schedule asks of them) and ensure that the outcome is a `Play` of
their operations, so the lemmas about all plays are about them.

| file | part of the plugin |
|---|---|
| `EventSystem.dfy`, `NetworkEvents.dfy`, `NetworkManager.dfy` | event queue, subscriber registry, dispatch, IP cache map |
| `Subscribers.dfy` | who is registered, in which order, and what one hears after leaving |
| `Links.dfy` | connected and enabled flags, the default interface |
| `IpCache.dfy`, `StringOrder.dfy` | reading a libnm device into a cache entry, looking an address up |
| `IpLookup.dfy` | the same end to end: the answer in terms of the device |
| `Callbacks.dfy`, `GnomeEvents.dfy` | the libnm callbacks, interleaved with everything else: refresh, state change, device added and removed |
| `PowerClient.dfy`, `PowerRadio.dfy` | the PowerManager pre-change protocol; what it does to Wi-Fi and why |
| `Connectivity.dfy`, `ConnectivityPasses.dfy`, `ResponseVote.dfy`, `Endpoints.dfy` | the connectivity monitor, its vote, its endpoint file |
| `StunCodec.dfy`, `StunClient.dfy`, `StunAnswers.dfy` | classic STUN messages, the bind loop, and which address it answers with |
| `Wps.dfy`, `WpsOutcome.dfy` | the WPS push-button loop and how it ends |
| `StaticAddress.dfy` | netmasks and the static address check of the RDK backend |
| `Wrappers.dfy`, `Sequences.dfy` | `Option`, and two facts about concatenation |

## Where the code does less than it seems to promise

Each of these is proved with a concrete input or run, beside the condition under which the code does keep the property.

* `deviceRemovedCB` reports REMOVED before it reports the addresses lost. Whatever other threads do, a subscriber told of
  the removal still holds addresses exactly if one was cached when the callback began (`RemovalEndToEnd`;
  `RemovalReportedTooEarly` is a run in which that happens). State changes are free of this (`DownReportsComeLast`,
  `DownEndToEnd`).
* The comment in `powerThreadLoop` says PowerManager is never left waiting. A stopped session completes exactly what was
  announced before its drain (`StopCompletesExactly`), and a completion is sent only if the session that makes it has
  registered. So an event that arrives after the drain waits for the next session, and it, or any other event such a
  session handles, is never acknowledged if that session failed to register (`LeftOverEventUnacknowledged`).
  `AllSentIff` says exactly when all completions are sent over a run; `AllSentIffUntainted` gives the condition in terms
  of what comes in: no PRE_CHANGE may come to a worker whose session failed to register. `AllHeardIff` says exactly when
  PowerManager has heard of everything once a session is over.
* Once FULLY_CONNECTED is stored after the initial phase, the connectivity monitor makes no more tests, whatever the
  network does, until somebody asks or the interfaces go down (`FullyConnectedRests`). Any other stored state is tested
  again, and a change is reported by the next pass (`ChangeNoticed`, `NewStatusSettles`).
* A connectivity pass can change the stored internet state without a report (`SilentChangeIff`, for any calls that come
  between its two steps; `SilentChangeReachable`). And a lost connection can go unnoticed: in the initial phase a failed
  test only sets the retry count back to 1, so neither the stored state nor the reports change (`UnnoticedLossIff`
  says exactly when), for any number of failed tests (`LossStaysUnnoticed`; `LossUnnoticedFromStart` is a run after which
  the monitor goes on saying FULLY_CONNECTED).
* The default interface can move to eth0 without a connectivity check being asked for: exactly if Ethernet came up, or
  stayed up, without becoming the default, and Wi-Fi then goes down or acquires an address, or another interface acquires
  one next to it (`UncheckedMoveInRunIff`, over any run of reports; `EthernetTakesOverUnchecked` is such a run).
* The decoded STUN transaction id is not the encoded one (`IdNotPreserved`): the id loop advances two indices at once.
  It survives exactly if its bytes repeat in the pattern the loop picks them in (`IdPreservedIff`).
* The port of a decoded STUN address is stored in `sin_port` as a number, without `htons`. A reader of the socket address
  gets the right one exactly on a big-endian machine or if both bytes are equal (`PortInSocketAddressIff`,
  `DefaultPortSwapped`). `bind` itself uses only the address.
* `bind` can serve an address that was obtained with other settings (`StaleSettings`): the settings are stored before
  the attempt, and a failed attempt leaves the old result in place. `StaleIff` says exactly when, in terms of the calls
  made. And the loop adds 2000 for each wait and compares the sum with the timeout, whose default is 30, so a second
  attempt is possible if and only if the timeout is above 2000 (`OneAttemptIff`).
* Endpoints are checked for length before `c_str()` cuts them at a NUL, so a restart can drop one (`NulLosesEndpoint`);
  `RestartAfterSetIff` gives the exact condition for any list.
* After triggering, the WPS loop looks at the device in two more passes, not three as its comments say: the counter is
  set to 7 and the loop then advances it to 8 (`RunShape`).

## Model

| member | source | states |
|---|---|---|
| EventSystem.ReferenceBalance | plugin/NetworkManagerImplementation.cpp:120-154 | over every interleaving, the references held on a subscriber are one if it is registered plus one per snapshot entry not yet released; a running callback always has one, even if it unregistered meanwhile; outside a dispatch only registrations hold references; no callback is registered, or in a snapshot, twice; the payload access never throws |
| EventSystem.DispatchInOrder | plugin/NetworkManagerImplementation.cpp:702-746 | the events taken off the queue are a prefix of the events put on it, in lock order, and the queue is exactly the rest |
| EventSystem.DeliveredExactlyOnce | plugin/NetworkManagerImplementation.cpp:748-844 | what a subscriber registered throughout receives, then what it is still owed, is what it was owed before followed by every event pushed: each once, in order, whoever else registers, unregisters or enqueues |
| EventSystem.ReceivesThePushedLog | plugin/NetworkManagerImplementation.cpp:702-844 | for a subscriber that registers first, what it has received and has coming is everything ever pushed: its n-th call carries the n-th event |
| Subscribers.OnTheListIff | plugin/NetworkManagerImplementation.cpp:120-154 | after any run a subscriber is on the list if and only if the last of its registrations and unregistrations is a registration |
| Subscribers.ListInOrderOfJoining | plugin/NetworkManagerImplementation.cpp:120-154 | the list is in the order in which its members joined, whoever has left or returned meanwhile |
| Subscribers.NothingAfterLeaving | plugin/NetworkManagerImplementation.cpp:139-154 | from an unregistration on, until it registers again, a subscriber gets exactly what a dispatch in progress still owes it: one event at most, and nothing if none is in progress |
| EventSystem.SwapReplay | plugin/NetworkManagerImplementation.cpp:1608-1619 | replaying the events of a swap turns the old cache's key set into the new one's, for all interfaces and families, and each event is news |
| EventSystem.LogFollowsCache | plugin/gnome/NetworkManagerGnomeEvents.cpp:184-199 | a view in step with the cache stays in step over any run, by replaying what is pushed and what a refresh has still to report |
| EventSystem.LogAndCacheAgree | plugin/gnome/NetworkManagerGnomeEvents.cpp:85-200 | for every address: reports strictly alternate beginning with ACQUIRED, and the replay of pushed and unsent events contains it exactly if the cache does |
| EventSystem.SubscriberTracksCache | plugin/NetworkManagerImplementation.cpp:941-980 | end to end from any reachable point: delivered events, then queued ones, then those of a refresh in progress replay to the cache's keys; with nothing in flight the subscriber's own view is the cache |
| EventSystem.EndToEnd | plugin/NetworkManagerImplementation.cpp:702-844 | the same from the start, for a subscriber with an empty view |
| EventSystem.RefreshIsARun | plugin/gnome/NetworkManagerGnomeEvents.cpp:184-199 | an uninterrupted refresh is a run of the state machine: one swap, then one emission per event |
| NetworkEvents.LegalAlternates | plugin/gnome/NetworkManagerGnomeEvents.cpp:188-199 | in a log where every event is news, the reports of one address alternate and the last tells whether it is present |
| NetworkEvents.AlternatingIsLegal | plugin/gnome/NetworkManagerGnomeEvents.cpp:188-199 | conversely, alternation of every address makes every event news |
| NetworkEvents.DiffReplay | plugin/gnome/NetworkManagerGnomeEvents.cpp:188-199 | ACQUIRED for new and LOST for vanished keys replay to exactly the new key set and touch nothing else |
| NetworkEvents.DiffEventsInOrder | plugin/gnome/NetworkManagerGnomeEvents.cpp:190-199 | the reports of a refresh come in one order: ACQUIRED before LOST, and strictly ascending addresses in each |
| StringOrder.LessIff | plugin/NetworkManagerImplementation.cpp:1608-1619 | the order of the keys: a proper prefix first, else the smaller character where two texts first differ |
| NetworkManager.NetworkManagerImplementation.Register | plugin/NetworkManagerImplementation.cpp:120-134 | the Register step: no duplicates, one reference taken |
| NetworkManager.NetworkManagerImplementation.Unregister | plugin/NetworkManagerImplementation.cpp:139-154 | the Unregister step: the one entry erased, its reference released, order of the others kept |
| NetworkManager.NetworkManagerImplementation.EnqueueEvent | plugin/NetworkManagerImplementation.cpp:702-716 | appends to the queue unless a stop has been requested, and changes nothing else |
| NetworkManager.NetworkManagerImplementation.PopEvent | plugin/NetworkManagerImplementation.cpp:731-736 | takes the oldest event |
| NetworkManager.NetworkManagerImplementation.SnapshotCallbacks | plugin/NetworkManagerImplementation.cpp:757-762 | snapshots the registered callbacks with one reference each |
| NetworkManager.NetworkManagerImplementation.BeginCall | plugin/NetworkManagerImplementation.cpp:770-773 | calls the next callback of the snapshot with the event; the callback is referenced |
| NetworkManager.NetworkManagerImplementation.EndCall | plugin/NetworkManagerImplementation.cpp:770-773 | releases the snapshot's reference after the call |
| NetworkManager.NetworkManagerImplementation.EndDispatch | plugin/NetworkManagerImplementation.cpp:844-844 | a dispatch leaves exactly the references of the registrations |
| NetworkManager.NetworkManagerImplementation.ReportIPAddressChange | plugin/NetworkManagerImplementation.cpp:941-980 | enqueues the address event of the refresh in progress; updates the flags and the default interface and asks for a connectivity check as AfterReport and AsksForCheck say |
| NetworkManager.NetworkManagerImplementation.ReportInterfaceStateChange | plugin/NetworkManagerImplementation.cpp:846-913 | enqueues the event with its own payload type; updates the flags and the default interface and asks for a connectivity check as AfterReport and AsksForCheck say |
| NetworkManager.NetworkManagerImplementation.ReportActiveInterfaceChange | plugin/NetworkManagerImplementation.cpp:915-939 | enqueues the event with its own payload type and marks the interface connected and enabled |
| NetworkManager.NetworkManagerImplementation.ReportWiFiStateChange | plugin/NetworkManagerImplementation.cpp:1354-1379 | enqueues the event with its own payload type; Wi-Fi counts as connected exactly in the connected state |
| Links.UncheckedMoveIff | plugin/NetworkManagerImplementation.cpp:849-972 | a report moves the default interface without asking for a check if and only if eth0 is connected without being the default and Wi-Fi goes down, or another interface acquires an address while both are connected; it then moves to eth0 |
| Links.PassedOverIff | plugin/NetworkManagerImplementation.cpp:849-972 | told from the reports alone, which histories leave eth0 connected and not the default: it was passed over when it came up or when a third interface acquired an address, and no report since has settled the default |
| Links.UncheckedMoveInRunIff | plugin/NetworkManagerImplementation.cpp:849-972 | over any run of reports from the start: the next one moves the default without asking for a check if and only if eth0 had been passed over and Wi-Fi goes down, or another interface acquires an address with Wi-Fi up |
| Links.EthernetTakesOverUnchecked | plugin/NetworkManagerImplementation.cpp:941-972 | a run in which it happens: the default moves from wlan0 to eth0 |
| Links.DefaultFromReports | plugin/NetworkManagerImplementation.cpp:849-972 | the default interface is the one set by the last report that sets it: wlan0 when eth0 goes down; eth0, if up, when wlan0 goes down; and when an address is acquired, eth0 if both are up then, else that interface |
| Links.EnabledFromReports | plugin/NetworkManagerImplementation.cpp:849-972 | an interface counts as enabled exactly if it was ever announced as added, up or active, or has acquired an address |
| Links.AsksIff | plugin/NetworkManagerImplementation.cpp:849-972 | over any run of reports, which report asks for a connectivity check |
| NetworkManager.NetworkManagerImplementation.SwapIpCache | plugin/NetworkManagerImplementation.cpp:1608-1619 | stores the entry and returns the old global keys |
| NetworkManager.NetworkManagerImplementation.LookupIpCache | plugin/NetworkManagerImplementation.cpp:1594-1606 | answers exactly for a valid entry: the preferred address with its prefix, all other fields of the entry, and the family asked for |
| IpCache.ToIPAddress | plugin/NetworkManagerImplementation.cpp:1621-1671 | the loop with its early exit yields the least non-MAC-based global address, else the least MAC-based one, else none, with its prefix |
| IpCache.BuildSnapshot | plugin/gnome/NetworkManagerGnomeEvents.cpp:105-182 | the entry built from a device; a device that is down gives the empty entry |
| IpCache.SortAddresses | plugin/gnome/NetworkManagerGnomeEvents.cpp:136-161 | the loop sorts every listed address by its scope alone, a repeated one keeping its first prefix |
| IpCache.EachAddressInOneSet | plugin/gnome/NetworkManagerGnomeEvents.cpp:144-160 | each listed address is in exactly one of the global, link-local and unique-local sets, and nothing else is stored (section 2.5.6 of RFC 4291, section 3.1 of RFC 4193) |
| IpCache.ListingOrderIrrelevant | plugin/gnome/NetworkManagerGnomeEvents.cpp:136-161 | for distinct addresses the stored sets, prefixes and kinds do not depend on the order libnm listed them |
| IpCache.PreferredOfListing | plugin/NetworkManagerImplementation.cpp:1647-1669 | the lookup in terms of the device: the least listed global address that is not MAC-based, else the least MAC-based one, with the prefix listed for it |
| IpCache.ScopesDisjoint | plugin/NetworkManagerImplementation.cpp:1531-1543 | fe80::/10 and fc00::/7 are disjoint, so the order of the tests is irrelevant |
| IpCache.MacBasedDeterminesMac | plugin/NetworkManagerImplementation.cpp:1566-1592 | an address matches at most one MAC: the EUI-64 form loses nothing |
| IpLookup.ScopeByRange | plugin/NetworkManagerImplementation.cpp:1524-1592 | scopes by address range (169.254.0.0/16, fe80::/10, fc00::/7), and MAC-based by bytes: ff:fe in the middle and the universal/local bit the other way round |
| IpLookup.Eui64Example | plugin/NetworkManagerImplementation.cpp:1575-1583 | the example of appendix A of RFC 4291 |
| IpLookup.AddressHandedOut | plugin/NetworkManagerImplementation.cpp:1647-1669 | the address handed out for a device: a listed one that is neither link-local nor unique-local, one that does not give the MAC away if there is any such, the first of these in string order, with the prefix of its first entry; empty if there is none |
| IpLookup.ServersHandedOut | plugin/NetworkManagerImplementation.cpp:1640-1646 | gateway and servers as libnm lists them, the first name server primary, the second secondary; automatic if the method is auto or dhcp |
| IpLookup.UlaHandedOut | plugin/NetworkManagerImplementation.cpp:1643-1643 | the first listed unique-local address in string order, or none |
| IpLookup.VersionHandedOut | plugin/NetworkManagerImplementation.cpp:1626-1640 | the version told from a sample address is that of the family, if the listed addresses are of it |
| IpLookup.ValidIff | plugin/gnome/NetworkManagerGnomeEvents.cpp:105-181 | there is an answer exactly for a device that is not down and has a configuration |
| GnomeEvents.GnomeNetworkManagerEvents.RefreshIpFamilyCache | plugin/gnome/NetworkManagerGnomeEvents.cpp:85-200 | for a tracked interface stores the snapshot and reports exactly the difference, whatever other threads do between these actions; otherwise nothing |
| GnomeEvents.GnomeNetworkManagerEvents.ReportDifference | plugin/gnome/NetworkManagerGnomeEvents.cpp:190-199 | one diff loop reports one event per key of the difference, ascending, interleaved with anything other threads do |
| GnomeEvents.GnomeNetworkManagerEvents.DeviceStateChangeCb | plugin/gnome/NetworkManagerGnomeEvents.cpp:271-466 | in any interleaving, the sequence of refreshes and reports for each reason and state, with the Wi-Fi and interface states of StatesTold told and no others; the static disabled flags; afterwards Wi-Fi counts as connected exactly in IP_CONFIG and ACTIVATED without special reason if a Wi-Fi state was told, and Ethernet counts as connected after PREPARE, as not connected after the lower states, and is left alone otherwise |
| GnomeEvents.StatesTold | plugin/gnome/NetworkManagerGnomeEvents.cpp:281-459 | for every Wi-Fi and interface state, the exact device states and reasons for which a state change tells it, and that it tells nothing else |
| GnomeEvents.FlagRemembers | plugin/gnome/NetworkManagerGnomeEvents.cpp:273-274 | the static flags: set exactly if the interface was taken away and has not been brought back since |
| Callbacks.ToldAsListed | plugin/gnome/NetworkManagerGnomeEvents.cpp:271-466 | whatever other threads do, a callback tells what is on its list, in order |
| GnomeEvents.GnomeNetworkManagerEvents.DeviceAddedCB | plugin/gnome/NetworkManagerGnomeEvents.cpp:468-526 | ADDED, then both families refreshed, for tracked interfaces, in any interleaving |
| GnomeEvents.GnomeNetworkManagerEvents.DeviceRemovedCB | plugin/gnome/NetworkManagerGnomeEvents.cpp:528-582 | REMOVED, then both families emptied, in any interleaving |
| Callbacks.DownReachesEmptyView | plugin/gnome/NetworkManagerGnomeEvents.cpp:184-199 | for any callback that empties both families before it says down, and any interleaving: the call that brings a registered subscriber that report finds its view without an address of the interface |
| GnomeEvents.DownReportsComeLast | plugin/gnome/NetworkManagerGnomeEvents.cpp:317-425 | in any interleaving with other threads, whenever a state change is about to report LINK_DOWN or REMOVED, the events pushed before replay to no address of the interface in either family |
| GnomeEvents.DownReachesSubscriberLast | plugin/gnome/NetworkManagerGnomeEvents.cpp:319-341 | when a subscriber registered throughout is called with that report, however long it was queued, its own view shows no address of the interface |
| GnomeEvents.DownReachesSubscriber | plugin/gnome/NetworkManagerGnomeEvents.cpp:413-425 | a case of it: eth0 is disconnected, and the one subscriber is called with the report after everything else |
| GnomeEvents.DownEndToEnd | plugin/gnome/NetworkManagerGnomeEvents.cpp:413-425 | the same from the start, for a subscriber with an empty view and any run that contains the callback |
| GnomeEvents.RemovalReportComesFirst | plugin/gnome/NetworkManagerGnomeEvents.cpp:532-573 | in any interleaving, a removal report finds the replay empty if and only if nothing was cached when the callback began |
| GnomeEvents.RemovalEndToEnd | plugin/gnome/NetworkManagerGnomeEvents.cpp:532-573 | seen from a subscriber registered from the start: when the removal report reaches it, its own view is empty if and only if nothing was cached when the callback began |
| GnomeEvents.RemovalLeavesNoAddress | plugin/gnome/NetworkManagerGnomeEvents.cpp:564-573 | once the removal callback is done the replay is empty |
| GnomeEvents.RemovalReportedTooEarly | plugin/gnome/NetworkManagerGnomeEvents.cpp:532-573 | a run from the start to a moment when the removal may be reported next although the replay still holds an address |
| PowerClient.AcksConserved | plugin/NetworkManagerPowerClient.cpp:183-250 | over every run, the ids completed, then those in flight, then those queued are the PRE_CHANGE ids announced, in order; the proxy is held at every completion and while the worker runs |
| PowerClient.AllAcksSent | plugin/NetworkManagerPowerClient.cpp:80-92 | while registrations succeed, every completion reaches PowerManager |
| PowerClient.AllSentIff | plugin/NetworkManagerPowerClient.cpp:80-92 | over every run, all completions are sent if and only if no PRE_CHANGE is completed in a session whose registration failed |
| PowerClient.AllSentIffUntainted | plugin/NetworkManagerPowerClient.cpp:80-92 | all completions are sent if no PRE_CHANGE comes to a worker whose session failed to register, and, once no worker is at work, only if |
| PowerClient.LeftOverEventUnacknowledged | plugin/NetworkManagerPowerClient.cpp:133-151 | a run in which a completion is skipped because the session failed to register |
| PowerClient.StopLeavesNoneWaiting | plugin/NetworkManagerPowerClient.cpp:192-208 | once a stopping worker has exited, the ids completed begin with everything announced while it was at work; it does not say that they were sent |
| PowerClient.StopCompletesExactly | plugin/NetworkManagerPowerClient.cpp:192-208 | the ids completed are those announced before the drain, so all announced if and only if nothing arrived after it; those from the drain on are sent exactly if this session registered |
| PowerClient.AllHeardIff | plugin/NetworkManagerPowerClient.cpp:80-92 | once a session is over PowerManager has heard of everything announced if and only if no PRE_CHANGE was completed unregistered before the drain, this session registered or had nothing left, and nothing arrived after it |
| PowerClient.DelayPrecedesCompletion | plugin/NetworkManagerPowerClient.cpp:263-282 | whatever happens between the parts of a notification: each delay was requested for the event announced next, at most once per event, before that event was completed |
| PowerClient.ReconnectsOnlyAfterSleep | plugin/NetworkManagerImplementation.cpp:1403-1522 | each attempt to reconnect Wi-Fi follows a disconnect for sleep that no reconnect has undone |
| PowerRadio.HandlingWifi | plugin/NetworkManagerImplementation.cpp:1403-1485 | handling an event tries to take Wi-Fi down exactly for a PRE_CHANGE into deep sleep without network standby while Wi-Fi is up, and to bring it back exactly for one out of deep sleep after Wi-Fi was taken down, with a last SSID; and what it remembers |
| PowerRadio.HandlingLeases | plugin/NetworkManagerImplementation.cpp:1487-1522 | a scan and leases exactly after a wakeup with network standby, on the interfaces that are up, and nothing else |
| PowerRadio.OnlyHandling | plugin/NetworkManagerPowerClient.cpp:192-208 | nothing but handling an event touches Wi-Fi, draining in particular does not |
| PowerRadio.EventsAsAnnounced | plugin/NetworkManagerPowerClient.cpp:256-304 | over every run, each event held is one that was announced, as it was announced, with the standby mode asked for on its arrival, or for a CHANGED the one asked for last |
| PowerRadio.EveryDisconnectWasDue | plugin/NetworkManagerPowerClient.cpp:215-247 | over every run, each attempt to take Wi-Fi down was made in handling one announced PRE_CHANGE into deep sleep without network standby |
| PowerRadio.DelayIff | plugin/NetworkManagerPowerClient.cpp:269-273 | a delay is requested exactly for a change into deep sleep without network standby, while registered |
| PowerClient.NetworkManagerPowerClient.OperationalUp | plugin/NetworkManagerPowerClient.cpp:109-120 | acquires, registers, then starts the worker; nothing if the proxy is held |
| PowerClient.NetworkManagerPowerClient.JoinAndRelease | plugin/NetworkManagerPowerClient.cpp:124-130 | joins before it releases |
| PowerClient.NetworkManagerPowerClient.BeginPreChange | plugin/NetworkManagerPowerClient.cpp:256-267 | asks for the standby mode, false without a proxy, and caches it |
| PowerClient.NetworkManagerPowerClient.DelayPreChange | plugin/NetworkManagerPowerClient.cpp:269-273 | requests a delay before deep sleep without network standby, if there is a proxy and a client id |
| PowerClient.NetworkManagerPowerClient.QueuePreChange | plugin/NetworkManagerPowerClient.cpp:275-282 | enqueues the event with the standby mode asked for |
| PowerClient.NetworkManagerPowerClient.OnPowerModeChanged | plugin/NetworkManagerPowerClient.cpp:288-304 | enqueues a CHANGED event with the cached standby mode and no transaction |
| PowerClient.NetworkManagerPowerClient.ProcessEvent | plugin/NetworkManagerPowerClient.cpp:215-247 | completes a PRE_CHANGE once, after delegating it or at once; never a CHANGED, which only asks for a scan and leases after a wakeup with network standby |
| PowerClient.NetworkManagerPowerClient.DrainQueue | plugin/NetworkManagerPowerClient.cpp:196-200 | the drain loop takes the whole queue in order |
| Connectivity.InvRun | plugin/NetworkManagerConnectivity.cpp:672-788 | kept over every run: a retry count n of two or more means the last n - 1 passes tested and agree with the stored state; the stored state is reported, NO_INTERNET or about to be reported; the stored portal URI is the latest found |
| Connectivity.LeavesInitialPhaseAfterThree | plugin/NetworkManagerConnectivity.cpp:711-743 | the initial phase ends only after three consecutive passes tested and gave one status, not NO_INTERNET, whatever calls and interface flaps came before |
| Connectivity.InitialPhaseConverges | plugin/NetworkManagerConnectivity.cpp:711-775 | on a steady network it ends after exactly TestsNeeded passes, at most four, with that status stored and reported last |
| Connectivity.ReportsChained | plugin/NetworkManagerConnectivity.cpp:656-670 | each report's previous state is the current state of the report before; at pass boundaries the stored state is the last reported or NO_INTERNET |
| Connectivity.CaptiveURIIsCurrent | plugin/NetworkManagerConnectivity.cpp:583-593 | a portal URI handed out is that of the latest test that found one; between passes the last report is then CAPTIVE_PORTAL |
| Connectivity.CaptiveURIHandedOut | plugin/NetworkManagerConnectivity.cpp:583-593 | while CAPTIVE_PORTAL is stored there has been a test that found a portal, and the URI of the latest is handed out; otherwise none is |
| Connectivity.SilentChangeIff | plugin/NetworkManagerConnectivity.cpp:682-775 | whatever calls come between deciding and notifying: exactly when a pass changes the stored state without a report, and that the new state is then NO_INTERNET |
| Connectivity.SilentChangeReachable | plugin/NetworkManagerConnectivity.cpp:691-698 | such a pass occurs |
| Connectivity.UnnoticedLossIff | plugin/NetworkManagerConnectivity.cpp:711-775 | in the initial phase, whatever calls come in between, a failed test after another stored state leaves the state and the reports as they were if and only if no notification is pending, the retry count is not zero and no call is accepted |
| Connectivity.LossStaysUnnoticed | plugin/NetworkManagerConnectivity.cpp:711-736 | without calls from outside that is so for any number of failed tests |
| Connectivity.LossUnnoticedFromStart | plugin/NetworkManagerConnectivity.cpp:711-736 | a run from the start after which the monitor says FULLY_CONNECTED however many tests fail |
| ConnectivityPasses.TestsIff | plugin/NetworkManagerConnectivity.cpp:682-769 | whatever calls come in between, exactly when a pass runs a test |
| ConnectivityPasses.ReportsIff | plugin/NetworkManagerConnectivity.cpp:682-775 | exactly when a pass makes a report, in every phase, and that it is of the state it leaves stored |
| ConnectivityPasses.ChangeNoticed | plugin/NetworkManagerConnectivity.cpp:745-775 | a test after the initial phase: the status found is stored; another one than the stored is reported and starts the initial phase again |
| ConnectivityPasses.NewStatusSettles | plugin/NetworkManagerConnectivity.cpp:711-775 | a new steady status is stored and reported by the next pass and settled by the fourth |
| ConnectivityPasses.LossAfterwardsNoticed | plugin/NetworkManagerConnectivity.cpp:745-775 | a connection lost after the initial phase is reported by the next test |
| ConnectivityPasses.FullyConnectedRests | plugin/NetworkManagerConnectivity.cpp:748-751 | while FULLY_CONNECTED is stored after the initial phase, no number of passes tests or changes anything |
| ConnectivityPasses.RestartReports | plugin/NetworkManagerConnectivity.cpp:617-679 | after a restart the first pass reports the state it leaves, whatever was stored before |
| Connectivity.ConnectivityMonitor.DecidePass | plugin/NetworkManagerConnectivity.cpp:682-769 | the loop body up to the notification, branch by branch |
| Connectivity.ConnectivityMonitor.NotifyPass | plugin/NetworkManagerConnectivity.cpp:771-775 | the notification and its effects |
| Connectivity.ConnectivityMonitor.SwitchToInitialCheck | plugin/NetworkManagerConnectivity.cpp:629-654 | sets both flags, or refuses without an instance or default interface |
| Connectivity.ConnectivityMonitor.StopConnectivityMonitor | plugin/NetworkManagerConnectivity.cpp:617-627 | the state after the thread has been joined |
| Connectivity.ConnectivityMonitor.StartConnectivityMonitor | plugin/NetworkManagerConnectivity.cpp:672-679 | the state a new thread begins its loop with |
| Connectivity.ConnectivityMonitor.GetCaptivePortalURI | plugin/NetworkManagerConnectivity.cpp:583-593 | the stored URI while the state is CAPTIVE_PORTAL, else empty |
| ResponseVote.CheckInternetStateFromResponseCode | plugin/NetworkManagerConnectivity.cpp:493-540 | the verdict of the most frequent code, the first seen among equals, exactly if twice its count reaches the number of responses; else NO_INTERNET |
| ResponseVote.VerdictUnique | plugin/NetworkManagerConnectivity.cpp:498-513 | that description leaves one verdict |
| ResponseVote.VerdictByCode | plugin/NetworkManagerConnectivity.cpp:514-538 | 204 is full connection, 200 limited, 302 and 511 a captive portal, anything else none |
| ResponseVote.Unanimous | plugin/NetworkManagerConnectivity.cpp:493-540 | endpoints that all answer alike decide |
| ResponseVote.OrderMattersIff | plugin/NetworkManagerConnectivity.cpp:498-507 | some two orders of the same responses give different verdicts if and only if two codes with different meanings hold exactly half each |
| Endpoints.EndpointManager.constructor | plugin/NetworkManagerConnectivity.cpp:123-146 | reads, filters and stores the lines of the file |
| Endpoints.EndpointManager.SetConnectivityMonitorEndpoints | plugin/NetworkManagerConnectivity.cpp:97-121 | keeps the long enough endpoints, cut at a NUL, and writes them to the file; an empty list changes nothing |
| Endpoints.EndpointManager.WriteEndpointsToFile | plugin/NetworkManagerConnectivity.cpp:60-75 | one line per endpoint, or nothing if the file cannot be opened |
| Endpoints.LinesUndoWritten | plugin/NetworkManagerConnectivity.cpp:130-137 | splitting undoes writing for newline-free entries |
| Endpoints.FilterIdempotent | plugin/NetworkManagerConnectivity.cpp:135-136 | the length filter is idempotent |
| Endpoints.StoredEntries | plugin/NetworkManagerConnectivity.cpp:106-112 | all entries longer than three characters are stored, no others, in order, each up to its first NUL |
| Endpoints.KeptLines | plugin/NetworkManagerConnectivity.cpp:132-137 | the same of the lines of the file, whole |
| Endpoints.FileText | plugin/NetworkManagerConnectivity.cpp:62-67 | one line per endpoint, each ended by a line feed |
| Endpoints.ReloadIff | plugin/NetworkManagerConnectivity.cpp:123-146 | for a NUL-free list, loading undoes writing if and only if every entry is longer than three characters and has no newline |
| Endpoints.RestartAfterSetIff | plugin/NetworkManagerConnectivity.cpp:97-146 | the exact condition under which a restart after setting any list keeps it, whether or not the file could be written |
| Endpoints.RestartKeepsEndpoints | plugin/NetworkManagerConnectivity.cpp:97-146 | over any run of sets that reach the file and restarts, without newlines or NULs, a restart loads exactly the list held |
| Endpoints.NulLosesEndpoint | plugin/NetworkManagerConnectivity.cpp:108-109 | an endpoint that a NUL costs |
| StunCodec.Encode | plugin/NetworkManagerStunClient.cpp:267-280 | the bytes of a message |
| StunCodec.DecodeMessage | plugin/NetworkManagerStunClient.cpp:720-749 | the decoder's loops, including the id loop that advances two indices |
| StunCodec.DecodeAttr | plugin/NetworkManagerStunClient.cpp:751-760 | one attribute, or a read past the buffer |
| StunCodec.MessageRoundTrip | plugin/NetworkManagerStunClient.cpp:267-280 | decoding an encoded binding response returns its type, length and attributes and ends at the buffer's end; the size is 20 plus the sum of 4 + value size (sections 11.1 and 11.2 of RFC 3489) |
| StunCodec.HeaderOnWire | plugin/NetworkManagerStunClient.cpp:267-272 | type, length and id on the wire, high bytes first (section 11.1 of RFC 3489) |
| StunCodec.AttributeOnWire | plugin/NetworkManagerStunClient.cpp:273-279 | where each attribute lies, and its type, length and value, without padding (section 11.2 of RFC 3489) |
| StunCodec.OtherTypesUnsupported | plugin/NetworkManagerStunClient.cpp:733-743 | every other type is refused after four bytes |
| StunCodec.UnsupportedIff | plugin/NetworkManagerStunClient.cpp:733-743 | a buffer is refused by its type exactly if it does not begin with 01 01 |
| StunCodec.DecodeThenEncode | plugin/NetworkManagerStunClient.cpp:738-739 | the other direction: re-encoding what a buffer decoded to gives the buffer back outside the id field |
| StunCodec.IdPreservedIff | plugin/NetworkManagerStunClient.cpp:734-735 | the id survives if and only if each of its bytes equals the one the loop picks for it |
| StunCodec.IdNotPreserved | plugin/NetworkManagerStunClient.cpp:734-735 | a message whose id does not survive |
| StunCodec.FindAttribute | plugin/NetworkManagerStunClient.cpp:254-264 | the first attribute of the type, or none if there is none |
| StunCodec.AddressRoundTrip | plugin/NetworkManagerStunClient.cpp:678-702 | the decoded mapped address, with the port as a number, is the one written, whatever lies beyond it (section 11.2.1 of RFC 3489) |
| StunCodec.AddressFromWire | plugin/NetworkManagerStunClient.cpp:678-702 | what the bytes of an address attribute are read as |
| StunCodec.PortInSocketAddressIff | plugin/NetworkManagerStunClient.cpp:685-694 | the port a reader of the socket address gets is the decoded one if and only if the machine is big-endian or both bytes of the port are equal |
| StunCodec.DefaultPortSwapped | plugin/NetworkManagerStunClient.cpp:685-694 | 3478 comes out as 38413 on a little-endian machine |
| StunCodec.LongValuesDecide | plugin/NetworkManagerStunClient.cpp:678-702 | what lies beyond the value matters only if it is shorter than its family needs |
| StunClient.LoopBounds | plugin/NetworkManagerStunClient.cpp:398-416 | from any attempt on: an attempt is begun only while those before it have not used the timeout up |
| StunClient.SleepBounds | plugin/NetworkManagerStunClient.cpp:406-416 | from any attempt on: no sleep is negative or above 32, and every attempt but the first sleeps at most once |
| StunClient.BindBounds | plugin/NetworkManagerStunClient.cpp:392-441 | at most 30 attempts, no sleep above 32, accumulated time below the timeout plus 2000 |
| StunClient.AnswerIsLatest | plugin/NetworkManagerStunClient.cpp:323-386 | after any history of calls a true answer is the latest address decoded in the client's lifetime, comes from this call if any setting changed, and is younger than the cache timeout if served from the cache |
| StunClient.StaleSettings | plugin/NetworkManagerStunClient.cpp:366-381 | an answer obtained with other settings |
| StunClient.FailureKeepsOldAnswer | plugin/NetworkManagerStunClient.cpp:366-381 | the whole family: an answered call, then an unanswered one with other settings, which is served the old address when repeated in time |
| StunClient.StaleIff | plugin/NetworkManagerStunClient.cpp:323-386 | a true answer is stale if and only if the call is served from the cache and the last call that got an address afresh was made with other settings |
| StunClient.OneAttemptIff | plugin/NetworkManagerStunClient.cpp:398-404 | whatever happens there is only one attempt, if and only if the timeout is at most 2000 |
| StunAnswers.FreshAnswer | plugin/NetworkManagerStunClient.cpp:389-441 | a call not served from the cache answers true if and only if some reply it looks at holds an IPv4 or IPv6 address in its first MAPPED-ADDRESS; the answer, which is also what is cached, is that of the last such reply. Which replies are looked at depends only on a fixed timetable, the timeout, and attempts that throw |
| StunAnswers.FirstReplyDecides | plugin/NetworkManagerStunClient.cpp:389-424 | with a timeout below 4000, such as the default, the first MAPPED-ADDRESS of the first reply is the answer, whatever other attributes there are |
| StunAnswers.RepeatServedIff | plugin/NetworkManagerStunClient.cpp:366-381 | a repeated call is served from the cache exactly if caching is on and the attempt that found the address is younger than the cache timeout, and then answers the same |
| StunAnswers.SleepsMade | plugin/NetworkManagerStunClient.cpp:406-416 | the sleeps, exactly: one for each later attempt whose reply comes in time, doubling from 1 to 32, the last cut to what is left of the timeout |
| StunClient.Client.Bind | plugin/NetworkManagerStunClient.cpp:314-460 | the answer, the stored result and the sleeps made are those of BindStep |
| StunClient.Client.Configure | plugin/NetworkManagerStunClient.cpp:323-361 | stores the six settings; dirty exactly if one differs |
| Wps.RunShape | plugin/gnome/NetworkManagerGnomeWIFI.cpp:2046-2266 | whatever the device answers, a run is CONNECTING, some scans, and one of six endings; at most 12 passes, at most one activation, at most two passes after it; a failure is reported exactly if WPS did not complete |
| Wps.TwelvePassesReached | plugin/gnome/NetworkManagerGnomeWIFI.cpp:2218-2219 | 12 passes occur, although the counter stops at 10 |
| WpsOutcome.OutcomeIff | plugin/gnome/NetworkManagerGnomeWIFI.cpp:2046-2281 | from what the device and the access points answer, without the loop and its counter: exactly when WPS completes, which results are published, when a connection is activated and when one is taken down |
| Wps.WpsProcess | plugin/gnome/NetworkManagerGnomeWIFI.cpp:2027-2281 | the loop, with its counter set back, terminates and has the effects of the pass function |
| StaticAddress.NetmaskToPrefix | plugin/rdk/NetworkManagerRDKProxy.cpp:673-698 | the number of leading ones among the 32 binary digits of the word assembled from any four numbers |
| StaticAddress.DottedValue | plugin/rdk/NetworkManagerRDKProxy.cpp:682-685 | for octets up to 255 that word is the number they are the base-256 digits of |
| StaticAddress.TableInverted | plugin/rdk/NetworkManagerRDKProxy.cpp:820-854 | NetmaskToPrefix inverts CIDR_PREFIXES for every prefix from 0 to 32 |
| StaticAddress.MaskOctets | plugin/rdk/NetworkManagerRDKProxy.cpp:891-934 | the mask sent holds the octets of the table entry, the first in the highest place |
| StaticAddress.CheckStatic | plugin/rdk/NetworkManagerRDKProxy.cpp:884-929 | accepted exactly if both addresses parse, differ, are in one network and neither is its broadcast address |
| StaticAddress.UsablePrefixes | plugin/rdk/NetworkManagerRDKProxy.cpp:899-924 | some pair of addresses is accepted if and only if the prefix is at most 30 |
| StaticAddress.SetIPSettings | plugin/rdk/NetworkManagerRDKProxy.cpp:857-966 | exactly when settings are sent, what each field holds, cut at 16 characters, and which result code each refusal gives |

## Assumptions

* Answers of libnm, `inet_pton`, MAC parsing, the clock, curl, sockets and the IARM bus are arbitrary parameters.
* In the gnome backend only the libnm thread swaps cache entries and emits address events, and its callbacks are
  serialised. Any other thread may enqueue any other event at any time.
* An event is dropped only if a stop has been requested; one whose producer looked at the flag earlier may still be
  queued after it. The end-to-end statements are about runs without a stop.
* `Interface()` of the PowerManager link is non-null, and lifecycle calls of the power client are serialised.
* Pre-change notifications come one at a time; between the parts of one anything else may happen. They may come at any
  time, also in a session without a client id, in which the code has not registered for them.
* libnm does not change what it says about a device while a callback runs: its main loop is the same thread.
* Pointers the callbacks test for null (device, instance) are not null, except `_instance` in the connectivity monitor.
* Exceptions are enabled in `bind`, and the clock counts milliseconds.
* A connectivity pass is two steps, so calls from other threads may come between the decision and the notification.

## Left out

- NetworkManager.NetworkManagerImplementation.ReportWiFiStateChange: starting and stopping the Wi-Fi signal monitor is not modelled.
- StunCodec.MessageRoundTrip: does not claim the transaction id, which the code does not preserve; IdPreservedIff says when it does.
- StunCodec.DecodeMessage: a read past the buffer, undefined in C++, ends the decoding as Overrun; in the id loop the bytes read there are arbitrary.
- StunClient.Client.Bind: bytes read beyond a short address attribute, undefined in C++, are arbitrary; the socket is not modelled.
- StaticAddress.NetmaskToPrefix: what `sscanf` makes of a text is a parameter.
- PowerClient.NetworkManagerPowerClient.ProcessEvent: the optional Ethernet handling around deep sleep is not modelled.
- Connectivity.ConnectivityMonitor.DecidePass: timeouts and intervals are not modelled.
- ResponseVote.CheckInternetStateFromResponseCode: the share of a code is exact, not a `float`.
- GnomeEvents.GnomeNetworkManagerEvents.DeviceAddedCB: attaching and detaching signal handlers is not modelled.
- GnomeEvents.GnomeNetworkManagerEvents.OtherThreads: between two actions of a callback the other threads do a finite list of actions, taken from an arbitrary schedule; actions that are impossible at that moment are skipped.
- Wakeups of condition variables, fairness and real time: safety and bounded progress only.
- The JSON-RPC and legacy layers, ping and trace parsers, UPnP and command-line tools: field copying and text parsing.
- The other Wi-Fi manager operations and the secret agent: sequences of libnm calls.
- The IP address cache of the RDK backend in `GetIPSettings`: it is not invalidated by address changes, so it has no agreement property to prove.
- Logging, telemetry and manufacturer data.
