/** NetworkManagerImplementation: the queue, the registry and the IP cache as the fields of one object.
    Each public method is one step of the event pipeline. */
module NetworkManager {
  import opened Wrappers
  import opened NetworkEvents
  import opened IpCache
  import opened EventSystem
  import opened Links

  class NetworkManagerImplementation {
    var eventQueue: seq<Event>
    var eventThreadStop: bool
    var notificationCallbacks: seq<Subscriber>
    var ipCacheMap: CacheMap
    /** The event thread's program counter and locals. */
    var worker: Worker
    var links: Links

    ghost var refs: multiset<Subscriber>
    ghost var unsent: seq<Event>
    ghost var pushed: seq<Event>
    ghost var popped: seq<Event>

    ghost function Abs(): State
      reads this
    {
      State(eventQueue, eventThreadStop, notificationCallbacks, refs, worker, ipCacheMap, unsent, pushed, popped)
    }

    ghost predicate Valid()
      reads this
    {
      Inv(Abs()) && Logged(Abs())
    }

    constructor ()
      ensures Valid() && Abs() == INIT && links == ALL_DOWN
    {
      eventQueue, eventThreadStop, notificationCallbacks, ipCacheMap, worker := [], false, [], map[], Waiting;
      refs, unsent, pushed, popped := multiset{}, [], [], [];
      links := ALL_DOWN;
      new;
      assert CachedKeys(ipCacheMap) == {};
    }

    method Register(notification: Subscriber)
      requires Valid()
      modifies this`notificationCallbacks, this`refs
      ensures Valid() && Abs() == Step(old(Abs()), EventSystem.Register(notification))
    {
      ghost var after := Step(Abs(), EventSystem.Register(notification));
      InvStep(Abs(), EventSystem.Register(notification));
      LoggedStep(Abs(), EventSystem.Register(notification));
      if notification !in notificationCallbacks {
        notificationCallbacks := notificationCallbacks + [notification];
        refs := refs + multiset{notification};
      }
      assert Abs() == after;
    }

    method Unregister(notification: Subscriber)
      requires Valid()
      modifies this`notificationCallbacks, this`refs
      ensures Valid() && Abs() == Step(old(Abs()), EventSystem.Unregister(notification))
    {
      ghost var after := Step(Abs(), EventSystem.Unregister(notification));
      InvStep(Abs(), EventSystem.Unregister(notification));
      LoggedStep(Abs(), EventSystem.Unregister(notification));
      EraseCallback(notification);
      assert Abs() == after;
    }

    method EraseCallback(notification: Subscriber)
      modifies this`notificationCallbacks, this`refs
      ensures notification !in old(notificationCallbacks) ==>
                notificationCallbacks == old(notificationCallbacks) && refs == old(refs)
      ensures notification in old(notificationCallbacks) ==>
                && notificationCallbacks == Without(old(notificationCallbacks), notification)
                && refs == old(refs) - multiset{notification}
    {
      var itr := FindCallback(notification);
      if itr < |notificationCallbacks| {
        WithoutAt(notificationCallbacks, notification, itr);
        refs := refs - multiset{notification};
        notificationCallbacks := notificationCallbacks[..itr] + notificationCallbacks[itr + 1..];
      }
    }

    method FindCallback(notification: Subscriber) returns (itr: nat)
      ensures itr <= |notificationCallbacks|
      ensures itr < |notificationCallbacks| ==>
                notificationCallbacks[itr] == notification && notification !in notificationCallbacks[..itr]
      ensures itr == |notificationCallbacks| <==> notification !in notificationCallbacks
    {
      itr := 0;
      while itr < |notificationCallbacks| && notificationCallbacks[itr] != notification
        invariant itr <= |notificationCallbacks|
        invariant notification !in notificationCallbacks[..itr]
      {
        itr := itr + 1;
      }
    }

    // -------------------------------------------------------------------------
    // Producers
    // -------------------------------------------------------------------------

    /** Look at the stop flag, then push under the lock. */
    method EnqueueEvent(event: Event)
      modifies this`eventQueue, this`pushed
      ensures Abs() == if old(eventThreadStop) then old(Abs()) else Push(old(Abs()), event)
    {
      if eventThreadStop {
        return;
      }
      PushEvent(event);
    }

    method PushEvent(event: Event)
      modifies this`eventQueue, this`pushed
      ensures Abs() == Push(old(Abs()), event)
    {
      eventQueue := eventQueue + [event];
      pushed := pushed + [event];
    }

    /** Called by the libnm thread for the next event of the refresh in progress. */
    method ReportIPAddressChange(iface: string, ipversion: string, ipaddress: string, status: IPStatus)
      returns (checkAsked: bool)
      requires Valid()
      requires unsent != [] && unsent[0] == IpEvent(iface, ipversion, ipaddress, status)
      modifies this`eventQueue, this`pushed, this`unsent, this`links
      ensures Valid() && Abs() == Step(old(Abs()), Emit(old(eventThreadStop)))
      ensures links == AfterReport(old(links), IpReport(iface, status))
      ensures checkAsked == AsksForCheck(old(links), IpReport(iface, status))
    {
      InvStep(Abs(), Emit(eventThreadStop));
      LoggedStep(Abs(), Emit(eventThreadStop));
      checkAsked := LinkAcquired(iface, status);
      EnqueueEvent(Event(NM_ON_IPADDRESS_CHANGE, IPAddressChangeData(iface, ipversion, ipaddress, status)));
      unsent := unsent[1..];
    }

    /** The head of ReportIPAddressChange. */
    method LinkAcquired(iface: string, status: IPStatus) returns (checkAsked: bool)
      modifies this`links
      ensures links == AfterReport(old(links), IpReport(iface, status))
      ensures checkAsked == AsksForCheck(old(links), IpReport(iface, status))
    {
      checkAsked := false;
      if status == IP_ACQUIRED {
        LinkConnected(iface);
        if links.ethConnected && links.wlanConnected {
          links := links.(defaultIface := "eth0");
        } else {
          links := links.(defaultIface := iface);
        }
        if links.defaultIface == iface {
          checkAsked := true;
        }
      }
    }

    method LinkConnected(iface: string)
      modifies this`links
      ensures links == Connected(old(links), iface)
    {
      if iface == "eth0" {
        links := links.(ethConnected := true, ethEnabled := true);
      } else if iface == "wlan0" {
        links := links.(wlanConnected := true, wlanEnabled := true);
      }
    }

    /** All other enqueue sites: each builds the payload type that goes with its event. */
    method ReportOther(event: Event)
      requires Valid() && Paired(event) && !IsIpEvent(event)
      modifies this`eventQueue, this`pushed
      ensures Valid() && Abs() == Step(old(Abs()), Report(event, eventThreadStop))
    {
      InvStep(Abs(), Report(event, eventThreadStop));
      LoggedStep(Abs(), Report(event, eventThreadStop));
      EnqueueEvent(event);
    }

    method ReportInterfaceStateChange(state: InterfaceState, iface: string) returns (checkAsked: bool)
      requires Valid()
      modifies this`eventQueue, this`pushed, this`links
      ensures Valid() && Abs() == Step(old(Abs()), Report(InterfaceEvent(state, iface), eventThreadStop))
      ensures links == AfterReport(old(links), InterfaceReport(state, iface))
      ensures checkAsked == AsksForCheck(old(links), InterfaceReport(state, iface))
    {
      checkAsked := LinkChanged(state, iface);
      ReportOther(Event(NM_ON_INTERFACESTATE_CHANGE, InterfaceStateChangeData(state, iface)));
    }

    /** The head of ReportInterfaceStateChange. */
    method LinkChanged(state: InterfaceState, iface: string) returns (checkAsked: bool)
      modifies this`links
      ensures links == AfterReport(old(links), InterfaceReport(state, iface))
      ensures checkAsked == AsksForCheck(old(links), InterfaceReport(state, iface))
    {
      checkAsked := false;
      if state == INTERFACE_LINK_DOWN || state == INTERFACE_REMOVED {
        if iface == "eth0" {
          links := links.(ethConnected := false, defaultIface := "wlan0");
          checkAsked := true;
        } else if iface == "wlan0" {
          links := links.(wlanConnected := false);
          if links.ethConnected {
            links := links.(defaultIface := "eth0");
          }
          checkAsked := links.defaultIface == iface;
        }
      }
      if state == INTERFACE_LINK_UP {
        LinkConnected(iface);
      }
      if state == INTERFACE_ADDED {
        if iface == "eth0" {
          links := links.(ethEnabled := true);
        } else if iface == "wlan0" {
          links := links.(wlanEnabled := true);
        }
      }
    }

    method ReportActiveInterfaceChange(prev: string, curr: string)
      requires Valid()
      modifies this`eventQueue, this`pushed, this`links
      ensures Valid() && Abs() == Step(old(Abs()), Report(Event(NM_ON_ACTIVEINTERFACE_CHANGE,
                                                                ActiveInterfaceChangeData(prev, curr)),
                                                          eventThreadStop))
      ensures links == AfterReport(old(links), ActiveReport(curr))
    {
      LinkConnected(curr);
      ReportOther(Event(NM_ON_ACTIVEINTERFACE_CHANGE, ActiveInterfaceChangeData(prev, curr)));
    }

    method ReportInternetStatusChange(prev: InternetStatus, curr: InternetStatus, iface: string)
      requires Valid()
      modifies this`eventQueue, this`pushed
      ensures Valid() && Abs() == Step(old(Abs()), Report(Event(NM_ON_INTERNETSTATUS_CHANGE,
                                                                InternetStatusChangeData(prev, curr, iface)),
                                                          eventThreadStop))
    {
      ReportOther(Event(NM_ON_INTERNETSTATUS_CHANGE, InternetStatusChangeData(prev, curr, iface)));
    }

    method ReportAvailableSSIDs(jsonOfFilterScanResults: string)
      requires Valid()
      modifies this`eventQueue, this`pushed
      ensures Valid() && Abs() == Step(old(Abs()), Report(Event(NM_ON_AVAILABLESSIDS,
                                                                AvailableSSIDsData(jsonOfFilterScanResults)),
                                                          eventThreadStop))
    {
      ReportOther(Event(NM_ON_AVAILABLESSIDS, AvailableSSIDsData(jsonOfFilterScanResults)));
    }

    method ReportWiFiStateChange(state: WiFiState)
      requires Valid()
      modifies this`eventQueue, this`pushed, this`links
      ensures Valid() && Abs() == Step(old(Abs()), Report(WifiEvent(state), eventThreadStop))
      ensures links == AfterReport(old(links), WifiReport(state))
    {
      if state == WIFI_STATE_CONNECTED {
        links := links.(wlanConnected := true);
      } else {
        links := links.(wlanConnected := false);
      }
      ReportOther(Event(NM_ON_WIFISTATE_CHANGE, WiFiStateChangeData(state)));
    }

    method ReportWiFiSignalQualityChange(ssid: string, strength: int, noise: int, snr: int, quality: WiFiSignalQuality)
      requires Valid()
      modifies this`eventQueue, this`pushed
      ensures var data := WiFiSignalQualityChangeData(ssid, strength, noise, snr, quality);
              Valid() && Abs() == Step(old(Abs()), Report(Event(NM_ON_WIFISIGNALQUALITY_CHANGE, data), eventThreadStop))
    {
      ReportOther(Event(NM_ON_WIFISIGNALQUALITY_CHANGE,
                        WiFiSignalQualityChangeData(ssid, strength, noise, snr, quality)));
    }

    // -------------------------------------------------------------------------
    // The IP cache
    // -------------------------------------------------------------------------

    /** The old keys; from here on the caller owes the events of the difference. */
    method SwapIpCache(iface: string, ipFamily: string, newCache: IpFamilyCache) returns (oldKeys: set<string>)
      requires Valid() && unsent == []
      modifies this`ipCacheMap, this`unsent
      ensures Valid() && Abs() == Step(old(Abs()), Swap(CacheKey(iface, ipFamily), newCache))
      ensures oldKeys == old(GlobalKeys(ipCacheMap, CacheKey(iface, ipFamily)))
    {
      var key := CacheKey(iface, ipFamily);
      ghost var s := Abs();
      InvStep(s, Swap(key, newCache));
      LoggedStep(s, Swap(key, newCache));
      oldKeys := CollectKeys(if key in ipCacheMap then ipCacheMap[key] else EMPTY_CACHE);
      ipCacheMap := ipCacheMap[key := newCache];
      unsent := Step(s, Swap(key, newCache)).unsent;
    }

    static method CollectKeys(cache: IpFamilyCache) returns (keys: set<string>)
      ensures keys == cache.globalAddresses.Keys
    {
      keys := {};
      var todo := cache.globalAddresses.Keys;
      while todo != {}
        invariant todo <= cache.globalAddresses.Keys
        invariant keys == cache.globalAddresses.Keys - todo
        decreases todo
      {
        var a :| a in todo;
        keys := keys + {a};
        todo := todo - {a};
      }
    }

    method LookupIpCache(inet: Inet, iface: string, ipFamily: string) returns (found: Option<IPAddress>)
      ensures found.Some? <==> CacheKey(iface, ipFamily) in ipCacheMap && ipCacheMap[CacheKey(iface, ipFamily)].valid
      ensures found.Some? ==>
                found.value == AddressOf(inet, ipCacheMap[CacheKey(iface, ipFamily)]).(ipversion := ipFamily)
    {
      var key := CacheKey(iface, ipFamily);
      if key in ipCacheMap && ipCacheMap[key].valid {
        var out := ToIPAddress(inet, ipCacheMap[key]);
        found := Some(out.(ipversion := ipFamily));
      } else {
        found := None;
      }
    }

    // -------------------------------------------------------------------------
    // The event thread, one indivisible step at a time
    // -------------------------------------------------------------------------

    method RequestStop()
      requires Valid()
      modifies this`eventThreadStop
      ensures Valid() && Abs() == Step(old(Abs()), EventSystem.RequestStop)
    {
      InvStep(Abs(), EventSystem.RequestStop);
      LoggedStep(Abs(), EventSystem.RequestStop);
      eventThreadStop := true;
    }

    /** Under m_eventMutex, with the queue not empty and no stop requested. */
    method PopEvent()
      requires Valid() && Enabled(Abs(), Pop)
      modifies this`eventQueue, this`popped, this`worker
      ensures Valid() && Abs() == Step(old(Abs()), Pop)
    {
      InvStep(Abs(), Pop);
      LoggedStep(Abs(), Pop);
      var eventData := eventQueue[0];
      eventQueue := eventQueue[1..];
      popped := popped + [eventData];
      worker := Popped(eventData);
    }

    /** The head of dispatchEvent: snapshot the callbacks with a reference each, then pick the payload. */
    method SnapshotCallbacks()
      requires Valid() && worker.Popped?
      modifies this`refs, this`worker
      ensures Valid() && Abs() == Step(old(Abs()), Snapshot)
    {
      InvStep(Abs(), Snapshot);
      LoggedStep(Abs(), Snapshot);
      var event := worker.event;
      var callbacks := AddRefAll();
      worker := if Paired(event) then Dispatching(event, callbacks, false) else Terminated;
    }

    method AddRefAll() returns (callbacks: seq<Subscriber>)
      modifies this`refs
      ensures callbacks == notificationCallbacks && refs == old(refs) + multiset(notificationCallbacks)
    {
      callbacks := [];
      var i := 0;
      while i < |notificationCallbacks|
        invariant 0 <= i <= |notificationCallbacks|
        invariant callbacks == notificationCallbacks[..i]
        invariant refs == old(refs) + multiset(notificationCallbacks[..i])
      {
        assert notificationCallbacks[..i + 1] == notificationCallbacks[..i] + [notificationCallbacks[i]];
        refs := refs + multiset{notificationCallbacks[i]};
        callbacks := callbacks + [notificationCallbacks[i]];
        i := i + 1;
      }
      assert notificationCallbacks[..i] == notificationCallbacks;
    }

    method BeginCall() returns (callback: Subscriber, event: Event)
      requires Valid() && Enabled(Abs(), Call)
      modifies this`worker
      ensures Valid() && Abs() == Step(old(Abs()), Call)
      ensures Delivered(old(Abs()), Call, callback) == [event] && refs[callback] > 0
    {
      InvStep(Abs(), Call);
      LoggedStep(Abs(), Call);
      callback, event := worker.todo[0], worker.event;
      OnceEach(worker.todo, callback);
      worker := worker.(running := true);
    }

    /** The callback has returned: release the snapshot's reference. */
    method EndCall()
      requires Valid() && Enabled(Abs(), Return)
      modifies this`refs, this`worker
      ensures Valid() && Abs() == Step(old(Abs()), Return)
    {
      InvStep(Abs(), Return);
      LoggedStep(Abs(), Return);
      refs := refs - multiset{worker.todo[0]};
      worker := worker.(todo := worker.todo[1..], running := false);
    }

    method EndDispatch()
      requires Valid() && Enabled(Abs(), Finish)
      modifies this`worker
      ensures Valid() && Abs() == Step(old(Abs()), Finish)
      ensures refs == multiset(notificationCallbacks)
    {
      InvStep(Abs(), Finish);
      LoggedStep(Abs(), Finish);
      worker := Waiting;
    }

    // -------------------------------------------------------------------------
    // Any other thread than libnm's
    // -------------------------------------------------------------------------

    /** Take an action if it is possible now. A producer that looked at the stop flag earlier may still push. */
    method ActElsewhere(a: Action) returns (done: bool)
      requires Valid()
      modifies this`eventQueue, this`eventThreadStop, this`notificationCallbacks, this`worker
      modifies this`refs, this`pushed, this`popped
      ensures Valid()
      ensures done ==> Foreign(a) && Enabled(old(Abs()), a) && Abs() == Step(old(Abs()), a)
      ensures !done ==> Abs() == old(Abs())
    {
      done := true;
      match a
      case Register(who) => Register(who);
      case Unregister(who) => Unregister(who);
      case Report(event, dropped) => done := ReportElsewhere(event, dropped);
      case RequestStop => RequestStop();
      case Swap(_, _) => done := false;
      case Emit(_) => done := false;
      case _ => done := DispatchElsewhere(a);
    }

    method ReportElsewhere(event: Event, dropped: bool) returns (done: bool)
      requires Valid()
      modifies this`eventQueue, this`pushed
      ensures Valid()
      ensures done ==> Enabled(old(Abs()), Report(event, dropped)) && Abs() == Step(old(Abs()), Report(event, dropped))
      ensures !done ==> Abs() == old(Abs())
    {
      done := Paired(event) && !IsIpEvent(event) && (dropped ==> eventThreadStop);
      if done {
        InvStep(Abs(), Report(event, dropped));
        LoggedStep(Abs(), Report(event, dropped));
        if !dropped {
          PushEvent(event);
        }
      }
    }

    /** The event thread. */
    method DispatchElsewhere(a: Action) returns (done: bool)
      requires Valid() && (a.Pop? || a.Snapshot? || a.Call? || a.Return? || a.Finish?)
      modifies this`eventQueue, this`worker, this`refs, this`popped
      ensures Valid()
      ensures done ==> Enabled(old(Abs()), a) && Abs() == Step(old(Abs()), a)
      ensures !done ==> Abs() == old(Abs())
    {
      done := false;
      if a.Pop? {
        if worker.Waiting? && !eventThreadStop && eventQueue != [] {
          PopEvent();
          done := true;
        }
      } else if a.Snapshot? {
        if worker.Popped? {
          SnapshotCallbacks();
          done := true;
        }
      } else if worker.Dispatching? {
        if a.Call? && worker.todo != [] && !worker.running {
          var _, _ := BeginCall();
          done := true;
        } else if a.Return? && worker.todo != [] && worker.running {
          EndCall();
          done := true;
        } else if a.Finish? && worker.todo == [] {
          EndDispatch();
          done := true;
        }
      }
    }
  }
}
