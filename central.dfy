/** The heart-rate central: the module-wide state of the sample (the
    connection `default_conn` and the two parameter blocks handed to the
    GATT client, `discover_params` and `subscribe_params`) and the callbacks
    the Bluetooth host stack runs on it. The stack itself is not modelled:
    each call into it is recorded in a ghost trace of requests, and what it
    returns is a parameter of the callback that makes the call. */
module HeartRateCentral {
  import opened Types
  import opened AdData
  import opened EirFilter

  /** The 16-bit UUIDs of the three static `struct bt_uuid` objects. */
  const BT_UUID_HRS_MEASUREMENT: uint16 := 0x2A37
  const BT_UUID_GATT_CCC: uint16 := 0x2902
  /** The CCC descriptor value that enables notifications. */
  const BT_GATT_CCC_NOTIFY: uint16 := 0x0001
  /** `EALREADY`, which `bt_gatt_subscribe` returns negated when the
      subscription already exists. */
  const EALREADY: int := 120

  /** Which of the three static UUID objects `discover_params.uuid` points
      at: `&hrs`, `&hrm` or `&ccc`. The pointer identity is the phase of
      the discovery. */
  datatype UuidRef = Hrs | Hrm | Ccc

  /** The UUID value each object holds. */
  function UuidValue(u: UuidRef): (v: uint16)
  {
    match u
    case Hrs => BT_UUID_HRS
    case Hrm => BT_UUID_HRS_MEASUREMENT
    case Ccc => BT_UUID_GATT_CCC
  }

  /** `discover_params.type`: the GATT procedure the stack runs (Bluetooth
      Core Specification, Vol 3, Part G, sections 4.4.2, 4.6 and 4.7). */
  datatype DiscoverType = Primary | Characteristic | Descriptor

  /** The functions of this file that the parameter blocks can point at. */
  datatype Callback = DiscoverCb | SubscribeCb

  datatype DiscoverParams = DiscoverParams(
    uuid: Option<UuidRef>,
    func: Option<Callback>,
    startHandle: uint16,
    endHandle: uint16,
    kind: DiscoverType)

  datatype SubscribeParams = SubscribeParams(
    valueHandle: uint16,
    value: uint16,
    func: Option<Callback>)

  /** A connection object of the stack; only its identity matters here. */
  datatype Conn = Conn(id: nat)

  /** An advertiser's LE address, passed through to the stack. */
  datatype Addr = Addr(addrType: byte, val: seq<byte>)

  /** The duplicate-filter argument of `bt_start_scanning`. */
  datatype DupFilter = DupEnable | DupDisable

  /** What `discover_func` returns to the stack. */
  datatype IterAction = IterContinue | IterStop

  /** One call into the host stack, with the arguments it was given. The
      parameter blocks are passed by pointer; the request records their
      contents at the time of the call. */
  datatype Request =
    | Discover(conn: Option<Conn>, params: DiscoverParams)
    | Subscribe(conn: Option<Conn>, cccHandle: uint16, sub: SubscribeParams)
    | StopScan
    | StartScan(filter: DupFilter)
    | CreateLe(addr: Addr)
    | Put(released: Conn)

  /** The zero-initialised `discover_params` of a static variable: a NULL
      UUID and callback, handles 0, and the first discovery type. */
  function ZeroDiscover(): (dp: DiscoverParams)
  {
    DiscoverParams(None, None, 0, 0, Primary)
  }

  /** The discovery type each phase runs. */
  function KindFor(u: UuidRef): (k: DiscoverType)
  {
    match u
    case Hrs => Primary
    case Hrm => Characteristic
    case Ccc => Descriptor
  }

  /** How far the discovery has got: NULL before the first connection, then
      the service, the characteristic and the descriptor phases. */
  function Rank(dp: DiscoverParams): (n: nat)
  {
    match dp.uuid
    case None => 0
    case Some(Hrs) => 1
    case Some(Hrm) => 2
    case Some(Ccc) => 3
  }

  /** `discover_params` is either still zero, or armed: it points back at
      `discover_func`, searches up to the last handle, and its type matches
      its UUID. */
  ghost predicate WellPhased(dp: DiscoverParams)
  {
    match dp.uuid
    case None => dp == ZeroDiscover()
    case Some(u) => dp.func == Some(DiscoverCb) && dp.endHandle == 0xFFFF && dp.kind == KindFor(u)
  }

  /** The parameters of the latest discover request in a trace. */
  function LastDiscover(t: seq<Request>): (last: Option<DiscoverParams>)
  {
    if t == [] then None
    else if t[|t| - 1].Discover? then Some(t[|t| - 1].params)
    else LastDiscover(t[..|t| - 1])
  }

  /** A request is one the sample may issue after the requests `before`:
      every discover is armed, and every subscribe asks for notifications,
      on behalf of `subscribe_func`, for the value handle just before the
      start of the descriptor search issued last. */
  ghost predicate RequestOk(before: seq<Request>, r: Request)
  {
    match r
    case Discover(_, dp) => dp.uuid.Some? && WellPhased(dp)
    case Subscribe(_, _, sp) =>
      sp.value == BT_GATT_CCC_NOTIFY && sp.func == Some(SubscribeCb) &&
      LastDiscover(before).Some? && LastDiscover(before).value.uuid == Some(Ccc) &&
      LastDiscover(before).value.startHandle == AddU16(sp.valueHandle, 1)
    case _ => true
  }

  ghost predicate TraceOk(t: seq<Request>)
  {
    t == [] || (TraceOk(t[..|t| - 1]) && RequestOk(t[..|t| - 1], t[|t| - 1]))
  }

  /** Appending one request to a trace. */
  lemma TraceAppend(t: seq<Request>, r: Request)
    ensures (t + [r])[..|t|] == t
    ensures TraceOk(t + [r]) <==> TraceOk(t) && RequestOk(t, r)
    ensures LastDiscover(t + [r]) == if r.Discover? then Some(r.params) else LastDiscover(t)
  {
    assert (t + [r])[..|t|] == t;
  }

  class Central {
    /** `default_conn`: the connection this sample created, or NULL. */
    var defaultConn: Option<Conn>
    /** `discover_params`, which the stack reads on each discover request. */
    var discoverParams: DiscoverParams
    /** `subscribe_params`, which the stack reads on the subscribe request. */
    var subscribeParams: SubscribeParams
    /** The requests issued to the stack so far, oldest first. */
    ghost var trace: seq<Request>

    /** The state keeps its phases consistent: the UUID and the discovery
        type move together; the parameter block equals the one of the last
        discover request, so it is never changed behind a request; in the
        descriptor phase the value handle is the one just before the
        descriptor search; and every request issued so far was well formed. */
    ghost predicate Valid()
      reads this
    {
      WellPhased(discoverParams) &&
      (discoverParams.uuid.Some? ==> LastDiscover(trace) == Some(discoverParams)) &&
      (discoverParams.uuid == Some(Ccc) ==> discoverParams.startHandle == AddU16(subscribeParams.valueHandle, 1)) &&
      TraceOk(trace)
    }

    /** The static variables as the program starts: all zero. */
    constructor ()
      ensures Valid()
      ensures defaultConn == None && discoverParams == ZeroDiscover()
      ensures subscribeParams == SubscribeParams(0, 0, None) && trace == []
    {
      defaultConn := None;
      discoverParams := ZeroDiscover();
      subscribeParams := SubscribeParams(0, 0, None);
      trace := [];
    }

    /** `eir_found` on one element of the advertisement of `addr`. It asks
        the walk to go on, changing nothing, unless the element is a 16-bit
        UUID list of whole UUIDs naming the Heart Rate service; a UUID
        list of odd payload length is reported as malformed. On a match it
        stops scanning, keeps going when that fails (reporting the
        failure), creates a connection to `addr`, stores the result
        (`created`, NULL when the stack cannot create one) in
        `default_conn`, and asks the walk to stop. `logged` says whether a
        line is reported. */
    method EirFound(eir: Eir, addr: Addr, stopErr: int, created: Option<Conn>) returns (cont: bool, logged: bool)
      requires Valid()
      modifies this
      ensures Valid()
      ensures cont == EirContinues(eir)
      ensures discoverParams == old(discoverParams) && subscribeParams == old(subscribeParams)
      ensures cont ==> defaultConn == old(defaultConn) && trace == old(trace)
      ensures !cont ==> defaultConn == created && trace == old(trace) + [StopScan, CreateLe(addr)]
      ensures logged == (MalformedList(eir) || (!cont && stopErr != 0))
    {
      cont, logged := true, false;
      if eir.kind == BT_EIR_UUID16_SOME || eir.kind == BT_EIR_UUID16_ALL {
        if (eir.len - 1) % 2 != 0 {
          logged := true;
          return;
        }
        var found := ScanForHrs(eir);
        if found {
          TraceAppend(trace, StopScan);
          trace := trace + [StopScan];
          logged := stopErr != 0;
          TraceAppend(trace, CreateLe(addr));
          trace := trace + [CreateLe(addr)];
          defaultConn := created;
          cont := false;
        }
      }
    }

    /** `device_found`: walks the advertising data of `addr` with
        `eir_found` as the callback. `eir_found` changes state only when it
        answers `false`, which ends the walk, so the walk is run with its
        answer and its effect is applied to the element it stopped at.
        `logged` says whether any line is reported: a malformed structure
        that ends the walk, a malformed UUID list on the way, or a failure
        to stop scanning. */
    method DeviceFound(addr: Addr, ad: seq<byte>, stopErr: int, created: Option<Conn>) returns (logged: bool)
      requires |ad| <= 255
      requires Valid()
      modifies this
      ensures Valid()
      ensures discoverParams == old(discoverParams) && subscribeParams == old(subscribeParams)
      ensures Walk(ad, EirContinues).1 == Stopped ==>
                defaultConn == created && trace == old(trace) + [StopScan, CreateLe(addr)]
      ensures Walk(ad, EirContinues).1 != Stopped ==>
                defaultConn == old(defaultConn) && trace == old(trace)
      ensures logged == (Walk(ad, EirContinues).1 == Malformed ||
                         (exists e :: e in Walk(ad, EirContinues).0 && MalformedList(e)) ||
                         (Walk(ad, EirContinues).1 == Stopped && stopErr != 0))
    {
      var visited, end := AdParse(ad, EirContinues);
      logged := end == Malformed || exists e :: e in visited && MalformedList(e);
      if end == Stopped {
        WalkAnswers(ad, EirContinues);
        var cont, stopLogged := EirFound(visited[|visited| - 1], addr, stopErr, created);
        logged := logged || stopLogged;
      }
    }

    /** `connected`: for the connection this sample created, starts the
        discovery afresh (primary service by the Heart Rate UUID over the
        whole handle range) and issues one discover request; `logged` says
        the request's failure is reported. Any other connection changes
        nothing. */
    method Connected(conn: Conn, err: int) returns (logged: bool)
      requires Valid()
      modifies this
      ensures Valid()
      ensures defaultConn == old(defaultConn) && subscribeParams == old(subscribeParams)
      ensures Some(conn) == old(defaultConn) ==>
                discoverParams == DiscoverParams(Some(Hrs), Some(DiscoverCb), 0x0001, 0xFFFF, Primary) &&
                trace == old(trace) + [Discover(defaultConn, discoverParams)] &&
                logged == (err != 0)
      ensures Some(conn) != old(defaultConn) ==>
                discoverParams == old(discoverParams) && trace == old(trace) && !logged
    {
      logged := false;
      if Some(conn) == defaultConn {
        discoverParams := DiscoverParams(Some(Hrs), Some(DiscoverCb), 0x0001, 0xFFFF, Primary);
        TraceAppend(trace, Discover(defaultConn, discoverParams));
        trace := trace + [Discover(defaultConn, discoverParams)];
        logged := err != 0;
      }
    }

    /** `discover_func`, run by the stack for an attribute found at
        `handle` by the discovery `discover_params` describes; `err` is what
        the one request it issues returns. From the service phase it moves
        to the characteristic phase from `handle + 1`; from the
        characteristic phase to the descriptor phase from `handle + 2`,
        taking `handle + 1` as the value handle; both issue one discover
        request. Otherwise it subscribes at the descriptor `handle` for
        notifications, staying in the descriptor phase, and an
        already-existing subscription is not reported as a failure. Handle
        arithmetic wraps at 16 bits, the end of the search range never
        changes, the phase never moves back, and it always stops the
        stack's iteration. */
    method DiscoverFunc(handle: uint16, err: int) returns (action: IterAction, logged: bool)
      requires Valid()
      requires discoverParams.func == Some(DiscoverCb)
      modifies this
      ensures Valid()
      ensures action == IterStop
      ensures defaultConn == old(defaultConn)
      ensures discoverParams.endHandle == old(discoverParams.endHandle)
      ensures Rank(discoverParams) >= Rank(old(discoverParams))
      ensures old(discoverParams.uuid) == Some(Hrs) ==>
                discoverParams == old(discoverParams).(uuid := Some(Hrm), startHandle := AddU16(handle, 1), kind := Characteristic) &&
                subscribeParams == old(subscribeParams) &&
                trace == old(trace) + [Discover(defaultConn, discoverParams)] &&
                logged == (err != 0)
      ensures old(discoverParams.uuid) == Some(Hrm) ==>
                discoverParams == old(discoverParams).(uuid := Some(Ccc), startHandle := AddU16(handle, 2), kind := Descriptor) &&
                subscribeParams == old(subscribeParams).(valueHandle := AddU16(handle, 1)) &&
                trace == old(trace) + [Discover(defaultConn, discoverParams)] &&
                logged == (err != 0)
      ensures old(discoverParams.uuid) == Some(Ccc) ==>
                discoverParams == old(discoverParams) &&
                subscribeParams == old(subscribeParams).(func := Some(SubscribeCb), value := BT_GATT_CCC_NOTIFY) &&
                trace == old(trace) + [Subscribe(defaultConn, handle, subscribeParams)] &&
                logged == (err != 0 && err != -EALREADY)
    {
      action := IterStop;
      if discoverParams.uuid == Some(Hrs) {
        discoverParams := discoverParams.(uuid := Some(Hrm), startHandle := AddU16(handle, 1), kind := Characteristic);
        TraceAppend(trace, Discover(defaultConn, discoverParams));
        trace := trace + [Discover(defaultConn, discoverParams)];
        logged := err != 0;
      } else if discoverParams.uuid == Some(Hrm) {
        discoverParams := discoverParams.(uuid := Some(Ccc), startHandle := AddU16(handle, 2), kind := Descriptor);
        subscribeParams := subscribeParams.(valueHandle := AddU16(handle, 1));
        TraceAppend(trace, Discover(defaultConn, discoverParams));
        trace := trace + [Discover(defaultConn, discoverParams)];
        logged := err != 0;
      } else {
        subscribeParams := subscribeParams.(func := Some(SubscribeCb), value := BT_GATT_CCC_NOTIFY);
        TraceAppend(trace, Subscribe(defaultConn, handle, subscribeParams));
        trace := trace + [Subscribe(defaultConn, handle, subscribeParams)];
        logged := err != 0 && err != -EALREADY;
      }
    }

    /** `disconnected`: a connection other than `default_conn` changes
        nothing. For `default_conn` it releases the connection, clears
        `default_conn` and restarts scanning with duplicate filtering
        disabled (`logged` says a failure to start is reported); the
        discovery parameters are left as they were. */
    method Disconnected(conn: Conn, err: int) returns (logged: bool)
      requires Valid()
      modifies this
      ensures Valid()
      ensures discoverParams == old(discoverParams) && subscribeParams == old(subscribeParams)
      ensures old(defaultConn) != Some(conn) ==>
                defaultConn == old(defaultConn) && trace == old(trace) && !logged
      ensures old(defaultConn) == Some(conn) ==>
                defaultConn == None && trace == old(trace) + [Put(conn), StartScan(DupDisable)] &&
                logged == (err != 0)
    {
      logged := false;
      if defaultConn != Some(conn) {
        return;
      }
      TraceAppend(trace, Put(conn));
      trace := trace + [Put(conn)];
      defaultConn := None;
      TraceAppend(trace, StartScan(DupDisable));
      trace := trace + [StartScan(DupDisable)];
      logged := err != 0;
    }
  }

  /** The advertisement of a sensor that lists only the Heart Rate service
      makes `eir_found` stop the walk at its one structure. */
  lemma HeartRateAdvertisementStops()
    ensures Walk([3, BT_EIR_UUID16_ALL, 0x0D, 0x18], EirContinues) ==
              ([Element(3, BT_EIR_UUID16_ALL, [0x0D, 0x18])], Stopped)
  {
    var ad: seq<byte> := [3, BT_EIR_UUID16_ALL, 0x0D, 0x18];
    var eir: Eir := Element(3, BT_EIR_UUID16_ALL, [0x0D, 0x18]);
    assert Uuid16At(Payload(eir), 0) == BT_UUID_HRS;
    assert ad[2..] == [0x0D, 0x18];
    assert First(ad) == eir && !EirContinues(eir);
  }

  /** A connected sensor with the service declaration at 0x10, the
      measurement characteristic declaration at 0x20 and its CCC descriptor
      at 0x25, every request succeeding except that the subscription
      already exists: the sample issues three discover requests and then
      one subscribe request, for the value handle 0x21, and reports no
      failure. */
  method HeartRateDiscovery(c: Central, conn: Conn) returns (reported: bool)
    requires c.Valid() && c.defaultConn == Some(conn)
    modifies c
    ensures c.Valid()
    ensures !reported
    ensures c.trace == old(c.trace) + [
      Discover(Some(conn), DiscoverParams(Some(Hrs), Some(DiscoverCb), 0x0001, 0xFFFF, Primary)),
      Discover(Some(conn), DiscoverParams(Some(Hrm), Some(DiscoverCb), 0x0011, 0xFFFF, Characteristic)),
      Discover(Some(conn), DiscoverParams(Some(Ccc), Some(DiscoverCb), 0x0022, 0xFFFF, Descriptor)),
      Subscribe(Some(conn), 0x25, SubscribeParams(0x21, BT_GATT_CCC_NOTIFY, Some(SubscribeCb)))]
  {
    var action, logged;
    reported := c.Connected(conn, 0);
    action, logged := c.DiscoverFunc(0x10, 0);
    reported := reported || logged;
    action, logged := c.DiscoverFunc(0x20, 0);
    reported := reported || logged;
    action, logged := c.DiscoverFunc(0x25, -EALREADY);
    reported := reported || logged;
  }

  /** A disconnect in the descriptor phase, then a late attribute callback
      for the discovery of the old connection: `disconnected` leaves
      `discover_params` armed, so `discover_func` still subscribes, on a
      NULL connection. */
  method LateMatchAfterDisconnect(c: Central, conn: Conn, handle: uint16)
    requires c.Valid() && c.defaultConn == Some(conn) && c.discoverParams.uuid == Some(Ccc)
    modifies c
    ensures c.Valid() && c.defaultConn == None
    ensures c.trace == old(c.trace) + [Put(conn), StartScan(DupDisable),
      Subscribe(None, handle, old(c.subscribeParams).(func := Some(SubscribeCb), value := BT_GATT_CCC_NOTIFY))]
  {
    var logged := c.Disconnected(conn, 0);
    var action;
    action, logged := c.DiscoverFunc(handle, 0);
  }
}
