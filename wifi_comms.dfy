/**
 * The WiFi station bring-up of components/wifi_comms: a retry counter and
 * an event group driven by the WiFi and IP event handlers, the choice of
 * result once connect_wifi wakes, and the flash (NVS) initialisation that
 * init_wifi_comms runs first.
 *
 * The WiFi driver, the event loop and the flash driver are not modelled:
 * the events they deliver and the codes they return are inputs, and each
 * esp_wifi_connect call is only counted.
 */
module WifiComms {
  import opened CText

  const MaxFailures: int := 10   // disconnects answered with a reconnect before giving up
  const WifiSuccess: bv32 := 1   // 1 << 0
  const WifiFailure: bv32 := 2   // 1 << 1

  /** The events the two handlers can be called with. */
  datatype Event =
    | StaStart          // WIFI_EVENT_STA_START
    | StaDisconnected   // WIFI_EVENT_STA_DISCONNECTED
    | OtherWifiEvent    // any other WIFI_EVENT id
    | GotIp             // IP_EVENT_STA_GOT_IP

  /**
   * s_retry_num, the two bits of wifi_event_group the firmware uses
   * (success, failure), and how many times esp_wifi_connect was called.
   */
  datatype Link = Link(retry: int, success: bool, failure: bool, connects: nat)

  predicate ValidLink(l: Link)
  {
    0 <= l.retry <= MaxFailures
  }

  /** The value of the event group's bits, as xEventGroupWaitBits returns it. */
  function Bits(l: Link): (bits: bv32)
    ensures bits & WifiSuccess != 0 <==> l.success
    ensures bits & WifiFailure != 0 <==> l.failure
  {
    (if l.success then WifiSuccess else 0) | (if l.failure then WifiFailure else 0)
  }

  /** xEventGroupWaitBits on SUCCESS | FAILURE keeps waiting while neither bit is set. */
  predicate Waiting(l: Link)
  {
    !l.success && !l.failure
  }

  /** The two status bits are distinct single bits, and waiting means neither is set. */
  lemma StatusBits(l: Link)
    ensures WifiSuccess != WifiFailure && WifiSuccess & WifiFailure == 0
    ensures WifiSuccess == 1 << 0 && WifiFailure == 1 << 1
    ensures Waiting(l) <==> Bits(l) & (WifiSuccess | WifiFailure) == 0
  {
    if l.success { assert Bits(l) & WifiSuccess != 0; }
    if l.failure { assert Bits(l) & WifiFailure != 0; }
  }

  /**
   * What the handlers do with one event: a start connects, a disconnect
   * reconnects and counts while fewer than MaxFailures were counted and
   * otherwise sets FAILURE, getting an address clears the count and sets
   * SUCCESS, and any other event does nothing.
   */
  function Deliver(l: Link, e: Event): (n: Link)
    ensures ValidLink(l) ==> ValidLink(n)
    ensures l.connects <= n.connects <= l.connects + 1
    ensures n.success <==> l.success || e == GotIp
    ensures n.failure <==> l.failure || (e == StaDisconnected && l.retry >= MaxFailures)
    ensures n.connects == l.connects + 1 <==> e == StaStart || (e == StaDisconnected && l.retry < MaxFailures)
    ensures n.retry == (if e == GotIp then 0 else if e == StaDisconnected && l.retry < MaxFailures then l.retry + 1 else l.retry)
  {
    match e
    case StaStart => l.(connects := l.connects + 1)
    case StaDisconnected =>
      if l.retry < MaxFailures then l.(retry := l.retry + 1, connects := l.connects + 1)
      else l.(failure := true)
    case OtherWifiEvent => l
    case GotIp => l.(retry := 0, success := true)
  }

  /** The event handlers, all run in order. */
  function Run(l: Link, events: seq<Event>): (n: Link)
    ensures ValidLink(l) ==> ValidLink(n)
    ensures l.success ==> n.success
    ensures l.failure ==> n.failure
    decreases |events|
  {
    if events == [] then l else Run(Deliver(l, events[0]), events[1..])
  }

  function Disconnects(n: nat): (es: seq<Event>)
    ensures |es| == n && forall i :: 0 <= i < n ==> es[i] == StaDisconnected
  {
    seq(n, _ => StaDisconnected)
  }

  /**
   * A run of n disconnects from a valid state with no bit set: the counter
   * climbs to at most MaxFailures, a reconnect is issued for each counted one,
   * and FAILURE is set exactly when more than MaxFailures - retry of them come.
   */
  lemma {:induction false} DisconnectRun(l: Link, n: nat)
    requires ValidLink(l) && !l.success && !l.failure
    ensures Run(l, Disconnects(n)).retry == if l.retry + n <= MaxFailures then l.retry + n else MaxFailures
    ensures Run(l, Disconnects(n)).connects ==
      l.connects + (if l.retry + n <= MaxFailures then n else MaxFailures - l.retry)
    ensures Run(l, Disconnects(n)).failure <==> l.retry + n > MaxFailures
    ensures !Run(l, Disconnects(n)).success
    decreases n
  {
    if n > 0 {
      var d := Deliver(l, StaDisconnected);
      assert Disconnects(n)[1..] == Disconnects(n - 1);
      if l.retry < MaxFailures {
        DisconnectRun(d, n - 1);
      } else {
        FailureStays(d, n - 1);
      }
    }
  }

  /** At the limit, further disconnects change nothing: FAILURE stays set and no reconnect is issued. */
  lemma {:induction false} FailureStays(l: Link, n: nat)
    requires l.retry == MaxFailures && l.failure
    ensures Run(l, Disconnects(n)) == l
    decreases n
  {
    if n > 0 {
      assert Disconnects(n)[1..] == Disconnects(n - 1);
      assert Deliver(l, StaDisconnected) == l;
      FailureStays(l, n - 1);
    }
  }

  /** How the wait of connect_wifi ends: woken with the state at that moment, or still waiting. */
  datatype Wait = Woken(link: Link) | StillWaiting(link: Link)

  /**
   * xEventGroupWaitBits with portMAX_DELAY while the handlers take the
   * events in order: it returns at the first state with SUCCESS or FAILURE
   * set; events after that are not part of the wait.
   */
  function WaitBits(l: Link, events: seq<Event>): (w: Wait)
    ensures w.Woken? <==> !Waiting(w.link)
    ensures ValidLink(l) ==> ValidLink(w.link)
    decreases |events|
  {
    if !Waiting(l) then Woken(l)
    else if events == [] then StillWaiting(l)
    else WaitBits(Deliver(l, events[0]), events[1..])
  }

  /** The if-chain of connect_wifi on the bits the wait returned. */
  function ConnectStatus(bits: bv32): (status: bv32)
    ensures status == WifiSuccess || status == WifiFailure
    ensures status == WifiSuccess <==> bits & WifiSuccess != 0
  {
    if bits & WifiSuccess != 0 then WifiSuccess
    else if bits & WifiFailure != 0 then WifiFailure
    else WifiFailure
  }

  /** SUCCESS wins when both bits are set; FAILURE alone, or no bit, gives FAILURE. */
  lemma ConnectStatusCases()
    ensures ConnectStatus(WifiSuccess | WifiFailure) == WifiSuccess
    ensures ConnectStatus(WifiFailure) == WifiFailure
    ensures ConnectStatus(0) == WifiFailure
  {
  }

  /** The first state of connect_wifi: s_retry_num as it was, a new event group with no bit set. */
  function Fresh(retry: int): Link
  {
    Link(retry, false, false, 0)
  }

  /**
   * connect_wifi with s_retry_num at retry on entry: the handlers run on
   * events, and the result is read off the bits the wait returned; None
   * while the wait has not returned.
   */
  function ConnectWifi(retry: int, events: seq<Event>): (r: (Option<bv32>, Link))
    ensures r.0.Some? <==> !Waiting(r.1)
    ensures r.0.Some? ==> (r.0.value == WifiSuccess <==> r.1.success)
    ensures r.0.Some? ==> (r.0.value == WifiFailure <==> !r.1.success && r.1.failure)
    ensures 0 <= retry <= MaxFailures ==> ValidLink(r.1)
  {
    match WaitBits(Fresh(retry), events)
    case Woken(l) => (Some(ConnectStatus(Bits(l))), l)
    case StillWaiting(l) => (None, l)
  }

  /** While no bit is set the wait goes on through the disconnects the counter still answers. */
  lemma {:induction false} WaitThroughDisconnects(l: Link, n: nat, rest: seq<Event>)
    requires ValidLink(l) && Waiting(l) && l.retry + n <= MaxFailures
    ensures WaitBits(l, Disconnects(n) + rest) ==
      WaitBits(l.(retry := l.retry + n, connects := l.connects + n), rest)
    decreases n
  {
    if n > 0 {
      assert (Disconnects(n) + rest)[1..] == Disconnects(n - 1) + rest;
      WaitThroughDisconnects(Deliver(l, StaDisconnected), n - 1, rest);
    } else {
      assert Disconnects(n) + rest == rest;
    }
  }

  /**
   * Start, then the access point refuses every attempt: connect_wifi gives
   * FAILURE after exactly MaxFailures - retry + 1 disconnects, having issued
   * one connect plus one reconnect per counted disconnect.
   */
  lemma GivesUp(retry: int, rest: seq<Event>)
    requires 0 <= retry <= MaxFailures
    ensures
      var r := ConnectWifi(retry, [StaStart] + Disconnects(MaxFailures - retry + 1) + rest);
      r.0 == Some(WifiFailure) && r.1 == Link(MaxFailures, false, true, 1 + MaxFailures - retry)
  {
    var n := MaxFailures - retry;
    var es := [StaStart] + Disconnects(n + 1) + rest;
    assert es[1..] == Disconnects(n) + ([StaDisconnected] + rest) by {
      assert Disconnects(n + 1) == Disconnects(n) + [StaDisconnected];
    }
    WaitThroughDisconnects(Link(retry, false, false, 1), n, [StaDisconnected] + rest);
    assert ([StaDisconnected] + rest)[1..] == rest;
  }

  /**
   * Start, some disconnects the counter still answers, then an address:
   * connect_wifi gives SUCCESS and the counter is back to 0.
   */
  lemma ConnectsAfterRetries(retry: int, n: nat, rest: seq<Event>)
    requires 0 <= retry && retry + n <= MaxFailures
    ensures
      var r := ConnectWifi(retry, [StaStart] + Disconnects(n) + [GotIp] + rest);
      r.0 == Some(WifiSuccess) && r.1 == Link(0, true, false, 1 + n)
  {
    var es := [StaStart] + Disconnects(n) + [GotIp] + rest;
    assert es[1..] == Disconnects(n) + ([GotIp] + rest);
    WaitThroughDisconnects(Link(retry, false, false, 1), n, [GotIp] + rest);
    assert ([GotIp] + rest)[1..] == rest;
  }

  /** The handler state as the firmware keeps it: s_retry_num and the event group. */
  class WifiLink {
    var retry: int
    var success: bool
    var failure: bool
    var connects: nat

    ghost predicate Valid()
      reads this
    {
      0 <= retry <= MaxFailures
    }

    /** The handler state as a value. */
    function State(): Link
      reads this
    {
      Link(retry, success, failure, connects)
    }

    /** Boot: s_retry_num is 0; xEventGroupCreate gives an empty group. */
    constructor ()
      ensures Valid() && State() == Fresh(0)
    {
      retry := 0;
      success := false;
      failure := false;
      connects := 0;
    }

    /** wifi_event_handler. */
    method WifiEventHandler(e: Event)
      requires Valid() && e != GotIp
      modifies this
      ensures Valid()
      ensures State() == Deliver(old(State()), e)
    {
      if e == StaStart {
        connects := connects + 1;
      } else if e == StaDisconnected {
        if retry < MaxFailures {
          connects := connects + 1;
          retry := retry + 1;
        } else {
          failure := true;
        }
      }
    }

    /** ip_event_handler. */
    method IpEventHandler(e: Event)
      requires Valid() && e == GotIp
      modifies this
      ensures Valid()
      ensures State() == Deliver(old(State()), e)
    {
      retry := 0;
      success := true;
    }

    /**
     * connect_wifi: a fresh event group, then the handlers take the events
     * the event loop delivers until the wait sees SUCCESS or FAILURE; the
     * result follows the if-chain on the bits. None: still waiting once the
     * given events are used up.
     */
    method ConnectWifiTask(events: seq<Event>) returns (status: Option<bv32>)
      requires Valid()
      modifies this
      ensures Valid()
      ensures (status, State()) == ConnectWifi(old(retry), events)
    {
      success := false;
      failure := false;
      connects := 0;
      var i := 0;
      while i < |events| && Waiting(State())
        invariant Valid() && 0 <= i <= |events|
        invariant WaitBits(State(), events[i..]) == WaitBits(Fresh(old(retry)), events)
        decreases |events| - i
      {
        assert events[i..][1..] == events[i + 1..];
        if events[i] == GotIp {
          IpEventHandler(events[i]);
        } else {
          WifiEventHandler(events[i]);
        }
        i := i + 1;
      }
      if !Waiting(State()) {
        status := Some(ConnectStatus(Bits(State())));
      } else {
        status := None;
      }
    }
  }

  // ---------------------------------------------------------------------
  // init_wifi_comms: flash initialisation
  // ---------------------------------------------------------------------

  /** The esp_err_t codes the flash calls can return, as far as the firmware tells them apart. */
  datatype EspErr = EspOk | NvsNoFreePages | NvsNewVersionFound | OtherError(code: int)

  predicate NeedsErase(e: EspErr)
  {
    e == NvsNoFreePages || e == NvsNewVersionFound
  }

  /** How flash initialisation ended: ready (after an erase or not), or aborted by ESP_ERROR_CHECK. */
  datatype NvsOutcome = Ready(erased: bool) | Aborted(err: EspErr)

  /**
   * nvs_flash_init, and when it reports a full or newer-format partition,
   * nvs_flash_erase and one more nvs_flash_init; any code other than ESP_OK
   * that is checked aborts. first, erase and second are what the three calls
   * would return.
   */
  function InitNvs(first: EspErr, erase: EspErr, second: EspErr): (o: NvsOutcome)
    ensures o.Ready? && !o.erased <==> first == EspOk
    ensures o.Ready? && o.erased <==> NeedsErase(first) && erase == EspOk && second == EspOk
    ensures !NeedsErase(first) && first != EspOk ==> o == Aborted(first)
    ensures NeedsErase(first) && erase != EspOk ==> o == Aborted(erase)
    ensures NeedsErase(first) && erase == EspOk && second != EspOk ==> o == Aborted(second)
  {
    if NeedsErase(first) then
      if erase != EspOk then Aborted(erase)
      else if second != EspOk then Aborted(second)
      else Ready(true)
    else if first != EspOk then Aborted(first)
    else Ready(false)
  }

  /** The second init is tried at most once: when the first needs no erase, the others do not matter. */
  lemma InitNvsNoRetry(first: EspErr, erase: EspErr, second: EspErr, erase': EspErr, second': EspErr)
    requires !NeedsErase(first)
    ensures InitNvs(first, erase, second) == InitNvs(first, erase', second')
  {
  }

  /** Even when the retried init asks for another erase, there is no second erase: it aborts. */
  lemma InitNvsOneErase(first: EspErr, second: EspErr)
    requires NeedsErase(first) && NeedsErase(second)
    ensures InitNvs(first, EspOk, second) == Aborted(second)
  {
  }
}
