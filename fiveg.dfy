/**
 * The 5G modem platform driver: a memory-mapped register window, the
 * `antenna_power` attribute backed by one register byte, a UDP socket used for
 * one announcement datagram, an rfkill switch, and the probe/remove lifecycle
 * that acquires these in a fixed order and rolls them back through goto labels.
 *
 * Kernel services are foreign calls: each one is an abstract step whose
 * success or failure is an input (the `...Faults` records), and whose effect is
 * recorded as an event in a ghost log. The multiset of live resources is a
 * function of that log, so each path's releases can be stated and proved.
 */
module FiveG {
  import opened Wrappers

  newtype Byte = x: int | 0 <= x < 256

  /** A kernel error code, as carried by an ERR_PTR or returned by a parser. */
  type ErrorCode = e: int | -4095 <= e < 0 witness -1

  const ICCID_REGISTER_OFFSET: nat := 0x100
  const ICCID_LENGTH: nat := 20
  const ANTENNA_POWER_REGISTER_OFFSET: nat := 0x200
  /** The smallest register window that holds every offset the driver touches. */
  const WINDOW_MIN: nat := ANTENNA_POWER_REGISTER_OFFSET + 1

  const ENOMEM: int := 12
  const ENODEV: int := 19
  const EINVAL: int := 22
  const AF_INET: int := 2

  /** The management endpoint's port; its address text "192.168.1.100" is parsed by in4_pton. */
  const SERVER_PORT: int := 8944
  /** The bring-up announcement; its length is what strlen gives. */
  const ANNOUNCEMENT: string := "5G Driver - For ARM or X86 [in test]\n"

  // ---------------------------------------------------------------------------
  // Decimal text, as "%u" prints it, and its reading back
  // ---------------------------------------------------------------------------

  function Digit(d: nat): (c: char)
    requires d < 10
    ensures '0' <= c <= '9'
  {
    ('0' as int + d) as char
  }

  predicate IsDecimal(s: string)
  {
    forall i :: 0 <= i < |s| ==> '0' <= s[i] <= '9'
  }

  /** The decimal digits of `n`, most significant first, without leading zeros. */
  function DecimalText(n: nat): (r: string)
    ensures |r| >= 1 && IsDecimal(r)
    ensures r[0] == '0' <==> n == 0
    decreases n
  {
    if n < 10 then [Digit(n)] else DecimalText(n / 10) + [Digit(n % 10)]
  }

  /** The number a string of decimal digits denotes: the reference reading of DecimalText. */
  function DecimalValue(s: string): nat
    requires IsDecimal(s)
    decreases |s|
  {
    if s == [] then 0 else 10 * DecimalValue(s[..|s| - 1]) + (s[|s| - 1] as int - '0' as int)
  }

  lemma {:induction false} DecimalRoundTrip(n: nat)
    ensures DecimalValue(DecimalText(n)) == n
    decreases n
  {
    if n >= 10 {
      DecimalRoundTrip(n / 10);
      var prefix := DecimalText(n / 10);
      assert (prefix + [Digit(n % 10)])[..|prefix|] == prefix;
    }
  }

  // ---------------------------------------------------------------------------
  // The antenna_power attribute, on the contents of the register window
  // ---------------------------------------------------------------------------

  /** What antenna_power_show writes into its buffer for a register byte `power`. */
  function ShowText(power: Byte): (text: string)
    ensures 2 <= |text| <= 4 && text[|text| - 1] == '\n'
    ensures text[0] == '0' ==> |text| == 2
    ensures IsDecimal(text[..|text| - 1])
    ensures DecimalValue(text[..|text| - 1]) == power as nat
  {
    var digits := DecimalText(power as nat);
    DecimalRoundTrip(power as nat);
    assert (digits + "\n")[..|digits|] == digits;
    assert |digits| <= 3 by {
      if power >= 10 {
        assert |DecimalText(power as nat / 10)| <= 2 by {
          if power >= 100 { assert DecimalText(power as nat / 100) == [Digit(power as nat / 100)]; }
        }
      }
    }
    digits + "\n"
  }

  /** The outcome of kstrtoul(buf, 0, &value): an error code or the parsed value. */
  datatype ParseResult = ParseError(code: ErrorCode) | Parsed(value: nat)

  /** The register window after antenna_power_store has handled `parsed`. */
  function StoreWindow(window: seq<Byte>, parsed: ParseResult): (r: seq<Byte>)
    requires |window| > ANTENNA_POWER_REGISTER_OFFSET
    ensures |r| == |window|
    ensures forall i :: 0 <= i < |r| && i != ANTENNA_POWER_REGISTER_OFFSET ==> r[i] == window[i]
    ensures parsed.Parsed? && parsed.value <= 1 ==> r[ANTENNA_POWER_REGISTER_OFFSET] as nat == parsed.value
    ensures r[ANTENNA_POWER_REGISTER_OFFSET] != window[ANTENNA_POWER_REGISTER_OFFSET] ==>
              parsed.Parsed? && parsed.value <= 1
  {
    match parsed
    case ParseError(_) => window
    case Parsed(v) =>
      if v == 0 then window[ANTENNA_POWER_REGISTER_OFFSET := 0]
      else if v == 1 then window[ANTENNA_POWER_REGISTER_OFFSET := 1]
      else window
  }

  /** What antenna_power_store returns: the parse error, or the whole `count` consumed. */
  function StoreResult(parsed: ParseResult, count: nat): (r: int)
    ensures r < 0 <==> parsed.ParseError?
    ensures parsed.ParseError? ==> r == parsed.code
    ensures parsed.Parsed? ==> r == count
  {
    if parsed.ParseError? then parsed.code else count
  }

  /** Writing "0" or "1" is read back as that digit; any other write, parsed or not, leaves the reading as it was. */
  lemma StoreThenShow(window: seq<Byte>, parsed: ParseResult)
    requires |window| > ANTENNA_POWER_REGISTER_OFFSET
    ensures parsed == Parsed(0) ==> ShowText(StoreWindow(window, parsed)[ANTENNA_POWER_REGISTER_OFFSET]) == "0\n"
    ensures parsed == Parsed(1) ==> ShowText(StoreWindow(window, parsed)[ANTENNA_POWER_REGISTER_OFFSET]) == "1\n"
    ensures !(parsed.Parsed? && parsed.value <= 1) ==>
              StoreWindow(window, parsed) == window &&
              ShowText(StoreWindow(window, parsed)[ANTENNA_POWER_REGISTER_OFFSET]) == ShowText(window[ANTENNA_POWER_REGISTER_OFFSET])
  {
  }

  /** rfkill set_block callback: both branches are empty, so every request is accepted and nothing changes. */
  function RfkillSetBlock(data: Conn?, blocked: bool): (accepted: bool)
    ensures accepted
  {
    true
  }

  // ---------------------------------------------------------------------------
  // Resources and the event log
  // ---------------------------------------------------------------------------

  datatype Resource =
    | IccidBuffer         // the kmalloc'd ICCID text
    | ConnRecord          // the kzalloc'd struct fiveg_connection
    | Mapping             // the devm-managed register mapping
    | RfkillSwitch        // rfkill_alloc / rfkill_destroy
    | RfkillRegistration  // rfkill_register / rfkill_unregister
    | Socket              // sock_create_kern / sock_release
    | PowerAttribute      // device_create_file / device_remove_file

  datatype Event =
    | Acquire(res: Resource)
    | Release(res: Resource)
    | ReadIccid(mapped: bool)   // the ICCID scan, and whether base_register was mapped then
    | Send(len: nat, ret: int)  // one kernel_sendmsg call and its result
    | SetDrvdata

  ghost function Step(live: multiset<Resource>, e: Event): multiset<Resource>
  {
    match e
    case Acquire(r) => live + multiset{r}
    case Release(r) => live - multiset{r}
    case _ => live
  }

  /** The live resources after the events `t`, starting from `live`. */
  ghost function Replay(live: multiset<Resource>, t: seq<Event>): multiset<Resource>
    decreases |t|
  {
    if t == [] then live else Replay(Step(live, t[0]), t[1..])
  }

  /** Every release in `t` releases a resource that is live at that point. */
  ghost predicate Sound(live: multiset<Resource>, t: seq<Event>)
    decreases |t|
  {
    t == [] || ((t[0].Release? ==> t[0].res in live) && Sound(Step(live, t[0]), t[1..]))
  }

  /** Acquiring `rs`, in that order. */
  ghost function Acquires(rs: seq<Resource>): seq<Event>
    decreases |rs|
  {
    if rs == [] then [] else [Acquire(rs[0])] + Acquires(rs[1..])
  }

  /** Releasing `rs`, in that order. */
  ghost function Releases(rs: seq<Resource>): seq<Event>
    decreases |rs|
  {
    if rs == [] then [] else [Release(rs[0])] + Releases(rs[1..])
  }

  lemma Peel(live: multiset<Resource>, e: Event, t: seq<Event>)
    ensures Replay(live, [e] + t) == Replay(Step(live, e), t)
    ensures Sound(live, [e] + t) <==> (e.Release? ==> e.res in live) && Sound(Step(live, e), t)
  {
    assert ([e] + t)[1..] == t;
  }

  lemma {:induction false} ReplayAppend(live: multiset<Resource>, a: seq<Event>, b: seq<Event>)
    ensures Replay(live, a + b) == Replay(Replay(live, a), b)
    ensures Sound(live, a + b) <==> Sound(live, a) && Sound(Replay(live, a), b)
    decreases |a|
  {
    if a != [] {
      assert (a + b)[1..] == a[1..] + b;
      ReplayAppend(Step(live, a[0]), a[1..], b);
    } else {
      assert a + b == b;
    }
  }

  lemma {:induction false} AcquiresNet(live: multiset<Resource>, rs: seq<Resource>)
    ensures Sound(live, Acquires(rs))
    ensures Replay(live, Acquires(rs)) == live + multiset(rs)
    decreases |rs|
  {
    if rs != [] {
      Peel(live, Acquire(rs[0]), Acquires(rs[1..]));
      AcquiresNet(live + multiset{rs[0]}, rs[1..]);
      assert rs == [rs[0]] + rs[1..];
    }
  }

  /** Releasing resources that are all held is sound and leaves exactly the rest held. */
  lemma {:induction false} ReleasesNet(live: multiset<Resource>, rs: seq<Resource>)
    requires multiset(rs) <= live
    ensures Sound(live, Releases(rs))
    ensures Replay(live, Releases(rs)) == live - multiset(rs)
    decreases |rs|
  {
    if rs != [] {
      assert rs == [rs[0]] + rs[1..];
      Peel(live, Release(rs[0]), Releases(rs[1..]));
      ReleasesNet(live - multiset{rs[0]}, rs[1..]);
    }
  }

  /** `s` backwards: the order in which a stack discipline undoes the steps `s`. */
  function Reverse<T>(s: seq<T>): (r: seq<T>)
    ensures |r| == |s| && forall i :: 0 <= i < |s| ==> r[i] == s[|s| - 1 - i]
    decreases |s|
  {
    if s == [] then [] else Reverse(s[1..]) + [s[0]]
  }

  /** Acquiring `a` and then releasing `b`, where `b` holds only what `a` acquired. */
  lemma AcquireThenRelease(live: multiset<Resource>, a: seq<Resource>, b: seq<Resource>)
    requires multiset(b) <= multiset(a)
    ensures Sound(live, Acquires(a) + Releases(b))
    ensures Replay(live, Acquires(a) + Releases(b)) == live + multiset(a) - multiset(b)
  {
    ReplayAppend(live, Acquires(a), Releases(b));
    AcquiresNet(live, a);
    ReleasesNet(live + multiset(a), b);
  }

  /** Acquiring `a` and then releasing the same resources leaves the live resources as they were. */
  lemma UndoNet(live: multiset<Resource>, a: seq<Resource>, b: seq<Resource>)
    requires multiset(b) == multiset(a)
    ensures Sound(live, Acquires(a) + Releases(b))
    ensures Replay(live, Acquires(a) + Releases(b)) == live
  {
    AcquireThenRelease(live, a, b);
    assert live + multiset(a) - multiset(a) == live;
  }

  // ---------------------------------------------------------------------------
  // fiveg_connect
  // ---------------------------------------------------------------------------

  datatype IPv4 = IPv4(a: Byte, b: Byte, c: Byte, d: Byte)

  /** struct sockaddr_in: family, port (byte order not modelled) and address. */
  datatype SockAddr = SockAddr(family: int, port: int, ip: IPv4)

  const ZERO_ADDR: SockAddr := SockAddr(0, 0, IPv4(0, 0, 0, 0))

  /** The outcomes of the kernel calls fiveg_connect makes. */
  datatype ConnectFaults = ConnectFaults(
    rfkillAllocated: bool,  // rfkill_alloc returned a switch
    registerRet: int,       // rfkill_register's result
    socketRet: int,         // sock_create_kern's result
    address: Option<IPv4>   // in4_pton's parse of the address text
  )

  predicate SocketCreated(f: ConnectFaults)
  {
    f.rfkillAllocated && f.registerRet >= 0 && f.socketRet >= 0
  }

  /** fiveg_connect's return value: the first failing step's error, or 0. */
  function ConnectResult(f: ConnectFaults): (r: int)
    ensures r <= 0
    ensures r == 0 <==> SocketCreated(f) && f.address.Some?
    ensures !f.rfkillAllocated ==> r == -ENOMEM
    ensures f.rfkillAllocated && f.registerRet < 0 ==> r == f.registerRet
    ensures f.rfkillAllocated && f.registerRet >= 0 && f.socketRet < 0 ==> r == f.socketRet
    ensures SocketCreated(f) && f.address.None? ==> r == -EINVAL
  {
    if !f.rfkillAllocated then -ENOMEM
    else if f.registerRet < 0 then f.registerRet
    else if f.socketRet < 0 then f.socketRet
    else if f.address.None? then -EINVAL
    else 0
  }

  /** The acquisitions and rollback releases of fiveg_connect, in the code's order. */
  ghost function ConnectTrace(f: ConnectFaults): seq<Event>
  {
    if !f.rfkillAllocated then []
    else if f.registerRet < 0 then [Acquire(RfkillSwitch), Release(RfkillSwitch)]
    else if f.socketRet < 0 then
      [Acquire(RfkillSwitch), Acquire(RfkillRegistration), Release(RfkillRegistration), Release(RfkillSwitch)]
    else if f.address.None? then
      [Acquire(RfkillSwitch), Acquire(RfkillRegistration), Acquire(Socket),
       Release(Socket), Release(RfkillRegistration), Release(RfkillSwitch)]
    else [Acquire(RfkillSwitch), Acquire(RfkillRegistration), Acquire(Socket)]
  }

  /** fiveg_connect is all-or-nothing: a failure leaves no rfkill and no socket behind, success holds all three. */
  lemma ConnectAllOrNothing(live: multiset<Resource>, f: ConnectFaults)
    ensures Sound(live, ConnectTrace(f))
    ensures ConnectResult(f) == 0 ==>
              Replay(live, ConnectTrace(f)) == live + multiset{RfkillSwitch, RfkillRegistration, Socket}
    ensures ConnectResult(f) != 0 ==> Replay(live, ConnectTrace(f)) == live
  {
    if !f.rfkillAllocated {
    } else if f.registerRet < 0 {
      RegisterFailedNet(live, f);
    } else if f.socketRet < 0 {
      SocketFailedNet(live, f);
    } else if f.address.None? {
      AddressFailedNet(live, f);
    } else {
      ConnectedNet(live, f);
    }
  }

  lemma RegisterFailedNet(live: multiset<Resource>, f: ConnectFaults)
    requires f.rfkillAllocated && f.registerRet < 0
    ensures Sound(live, ConnectTrace(f)) && Replay(live, ConnectTrace(f)) == live
  {
    assert ConnectTrace(f) == Acquires([RfkillSwitch]) + Releases([RfkillSwitch]);
    UndoNet(live, [RfkillSwitch], [RfkillSwitch]);
  }

  lemma SocketFailedNet(live: multiset<Resource>, f: ConnectFaults)
    requires f.rfkillAllocated && f.registerRet >= 0 && f.socketRet < 0
    ensures Sound(live, ConnectTrace(f)) && Replay(live, ConnectTrace(f)) == live
  {
    var held := [RfkillSwitch, RfkillRegistration];
    assert ConnectTrace(f) == Acquires(held) + Releases([RfkillRegistration, RfkillSwitch]);
    UndoNet(live, held, [RfkillRegistration, RfkillSwitch]);
  }

  lemma AddressFailedNet(live: multiset<Resource>, f: ConnectFaults)
    requires SocketCreated(f) && f.address.None?
    ensures Sound(live, ConnectTrace(f)) && Replay(live, ConnectTrace(f)) == live
  {
    var held := [RfkillSwitch, RfkillRegistration, Socket];
    assert ConnectTrace(f) == Acquires(held) + Releases([Socket, RfkillRegistration, RfkillSwitch]);
    UndoNet(live, held, [Socket, RfkillRegistration, RfkillSwitch]);
  }

  lemma ConnectedNet(live: multiset<Resource>, f: ConnectFaults)
    requires SocketCreated(f) && f.address.Some?
    ensures Sound(live, ConnectTrace(f))
    ensures Replay(live, ConnectTrace(f)) == live + multiset{RfkillSwitch, RfkillRegistration, Socket}
  {
    var held := [RfkillSwitch, RfkillRegistration, Socket];
    assert ConnectTrace(f) == Acquires(held);
    AcquiresNet(live, held);
  }

  /** The radio resources fiveg_connect acquired before it stopped (at a failing step or at the end), in order. */
  function ConnectAcquired(f: ConnectFaults): (rs: seq<Resource>)
    ensures |rs| <= 3 && rs == [RfkillSwitch, RfkillRegistration, Socket][..|rs|]
    ensures |rs| == 3 <==> SocketCreated(f)
  {
    if !f.rfkillAllocated then []
    else if f.registerRet < 0 then [RfkillSwitch]
    else if f.socketRet < 0 then [RfkillSwitch, RfkillRegistration]
    else [RfkillSwitch, RfkillRegistration, Socket]
  }

  /** Every rollback in fiveg_connect undoes exactly what was acquired, newest first. */
  lemma ConnectRollbackIsLifo(f: ConnectFaults)
    ensures ConnectResult(f) == 0 ==> ConnectTrace(f) == Acquires(ConnectAcquired(f))
    ensures ConnectResult(f) != 0 ==>
              ConnectTrace(f) == Acquires(ConnectAcquired(f)) + Releases(Reverse(ConnectAcquired(f)))
  {
    if !f.rfkillAllocated {
    } else if f.registerRet < 0 {
      assert Reverse([RfkillSwitch]) == [RfkillSwitch];
    } else if f.socketRet < 0 {
      assert Reverse([RfkillSwitch, RfkillRegistration]) == [RfkillRegistration, RfkillSwitch];
    } else if f.address.None? {
      assert Reverse([RfkillSwitch, RfkillRegistration, Socket]) == [Socket, RfkillRegistration, RfkillSwitch];
      assert ConnectTrace(f) ==
             Acquires([RfkillSwitch, RfkillRegistration, Socket]) + Releases([Socket, RfkillRegistration, RfkillSwitch]);
    } else {
      assert ConnectTrace(f) == Acquires([RfkillSwitch, RfkillRegistration, Socket]);
    }
  }

  /** fiveg_connect only acquires and releases rfkill and the socket; in particular it sends nothing. */
  lemma ConnectTouchesOnlyRadio(f: ConnectFaults)
    ensures forall e :: e in ConnectTrace(f) ==>
              (e.Acquire? || e.Release?) && e.res in {RfkillSwitch, RfkillRegistration, Socket}
  {
  }

  // ---------------------------------------------------------------------------
  // fiveg_probe and fiveg_remove
  // ---------------------------------------------------------------------------

  /** devm_ioremap_resource's result: a mapping or an ERR_PTR. */
  datatype MapResult = Mapped | MapError(code: ErrorCode)

  /** The outcomes of the kernel calls fiveg_probe makes. */
  datatype ProbeFaults = ProbeFaults(
    iccidAllocated: bool,   // kmalloc of the ICCID buffer
    connAllocated: bool,    // kzalloc of the conn record
    resourcePresent: bool,  // platform_get_resource found the memory resource
    mapping: MapResult,     // devm_ioremap_resource
    connect: ConnectFaults, // the calls inside fiveg_connect
    sendRet: int,           // kernel_sendmsg's result for the announcement
    createFileRet: int      // device_create_file's result
  )

  /** Probe gets as far as mapping the register window. */
  predicate ReachesMap(f: ProbeFaults)
  {
    f.connAllocated && f.resourcePresent
  }

  /** Probe gets as far as the announcement send. */
  predicate ReachesSend(f: ProbeFaults)
  {
    ReachesMap(f) && f.mapping.Mapped? && ConnectResult(f.connect) == 0
  }

  /** fiveg_probe's return value. A short send (0 <= sendRet < len) is not a failure. */
  function ProbeResult(f: ProbeFaults): (r: int)
    ensures r == 0 <==> ReachesSend(f) && f.sendRet >= 0 && f.createFileRet == 0
  {
    if !f.connAllocated then -ENOMEM
    else if !f.resourcePresent then -ENODEV
    else if f.mapping.MapError? then f.mapping.code
    else if ConnectResult(f.connect) < 0 then ConnectResult(f.connect)
    else if f.sendRet < 0 then f.sendRet
    else f.createFileRet
  }

  /** Each failure of fiveg_probe returns the error of the first step that failed. */
  lemma ProbeErrors(f: ProbeFaults)
    ensures !f.connAllocated ==> ProbeResult(f) == -ENOMEM
    ensures f.connAllocated && !f.resourcePresent ==> ProbeResult(f) == -ENODEV
    ensures ReachesMap(f) && f.mapping.MapError? ==> ProbeResult(f) == f.mapping.code
    ensures ReachesMap(f) && f.mapping.Mapped? && ConnectResult(f.connect) != 0 ==>
              ProbeResult(f) == ConnectResult(f.connect)
    ensures ReachesSend(f) && f.sendRet < 0 ==> ProbeResult(f) == f.sendRet
    ensures ReachesSend(f) && f.sendRet >= 0 ==> ProbeResult(f) == f.createFileRet
  {
  }

  /** A short announcement send is not a failure: probe goes on to create the attribute. */
  lemma ShortSendAccepted(f: ProbeFaults)
    requires ReachesSend(f) && 0 <= f.sendRet < |ANNOUNCEMENT|
    ensures ProbeResult(f) == f.createFileRet
  {
  }

  ghost function IccidTrace(allocOk: bool, mapped: bool): seq<Event>
  {
    if allocOk then [Acquire(IccidBuffer), ReadIccid(mapped), Release(IccidBuffer)] else []
  }

  /** The err_rfkill label: rfkill is released before the socket, then conn is freed. */
  ghost const ERR_RFKILL: seq<Event> :=
    [Release(RfkillRegistration), Release(RfkillSwitch), Release(Socket), Release(ConnRecord)]

  /** fiveg_probe from the conn allocation through a fiveg_connect call it reaches. */
  ghost function ConnectedTrace(f: ProbeFaults): seq<Event>
  {
    [Acquire(ConnRecord), Acquire(Mapping)] + ConnectTrace(f.connect)
  }

  /** The steps of fiveg_probe after the announcement send. */
  ghost function AfterSendTrace(f: ProbeFaults): seq<Event>
  {
    if f.sendRet < 0 || f.createFileRet != 0 then ERR_RFKILL
    else [Acquire(PowerAttribute), SetDrvdata]
  }

  /** The steps of fiveg_probe after the ICCID report, in the code's order. */
  ghost function BringUpTrace(f: ProbeFaults): seq<Event>
  {
    if !f.connAllocated then []
    else if !ReachesMap(f) || f.mapping.MapError? then [Acquire(ConnRecord), Release(ConnRecord)]
    else if ConnectResult(f.connect) < 0 then ConnectedTrace(f) + [Release(ConnRecord)]
    else ConnectedTrace(f) + [Send(|ANNOUNCEMENT|, f.sendRet)] + AfterSendTrace(f)
  }

  /** The events of one fiveg_probe call; `mapped` is whether base_register was mapped when it started. */
  ghost function ProbeTrace(f: ProbeFaults, mapped: bool): seq<Event>
  {
    IccidTrace(f.iccidAllocated, mapped) + BringUpTrace(f)
  }

  /** The events of one fiveg_remove call, given which of conn's pointers are set. */
  ghost function RemoveTrace(hasRfkill: bool, hasSocket: bool): seq<Event>
  {
    [Release(PowerAttribute)] +
    (if hasRfkill then [Release(RfkillRegistration), Release(RfkillSwitch)] else []) +
    (if hasSocket then [Release(Socket), Release(ConnRecord)] else [])
  }

  /** What fiveg_probe holds once the announcement has been sent. */
  ghost const HELD: multiset<Resource> :=
    multiset{ConnRecord, Mapping, RfkillSwitch, RfkillRegistration, Socket}

  /** What a successful probe leaves held. */
  ghost const BOUND: multiset<Resource> := HELD + multiset{PowerAttribute}

  /** The resources err_rfkill releases, in its order. */
  ghost const ERR_RFKILL_ORDER: seq<Resource> := [RfkillRegistration, RfkillSwitch, Socket, ConnRecord]

  /** The resources a remove after a successful probe releases, in its order. */
  ghost const REMOVE_ORDER: seq<Resource> := [PowerAttribute, RfkillRegistration, RfkillSwitch, Socket, ConnRecord]

  lemma RollbackOrder()
    ensures ERR_RFKILL == Releases(ERR_RFKILL_ORDER)
    ensures RemoveTrace(true, true) == Releases(REMOVE_ORDER)
  {
  }

  /**
   * err_rfkill does not undo in reverse order: rfkill was acquired before the
   * socket but is released first.
   */
  lemma ErrRfkillNotReversed()
    ensures ERR_RFKILL_ORDER != Reverse([ConnRecord, RfkillSwitch, RfkillRegistration, Socket])
    ensures ERR_RFKILL_ORDER == [RfkillRegistration, RfkillSwitch] + Reverse([ConnRecord, Socket])
  {
    assert Reverse([ConnRecord, RfkillSwitch, RfkillRegistration, Socket])[0] == Socket;
  }

  lemma HeldArithmetic(live: multiset<Resource>)
    ensures live + multiset{ConnRecord, Mapping} + multiset{RfkillSwitch, RfkillRegistration, Socket} == live + HELD
    ensures live + HELD + multiset{PowerAttribute} == live + BOUND
  {
  }

  lemma RollbackArithmetic(live: multiset<Resource>)
    ensures multiset(ERR_RFKILL_ORDER) <= live + HELD
    ensures live + HELD - multiset(ERR_RFKILL_ORDER) == live + multiset{Mapping}
  {
  }

  lemma RemoveArithmetic(live: multiset<Resource>)
    ensures multiset(REMOVE_ORDER) <= live + BOUND
    ensures live + BOUND - multiset(REMOVE_ORDER) == live + multiset{Mapping}
  {
  }

  /** The ICCID buffer is freed as soon as it has been printed. */
  lemma IccidBufferFreed(live: multiset<Resource>, allocOk: bool, mapped: bool)
    ensures Sound(live, IccidTrace(allocOk, mapped))
    ensures Replay(live, IccidTrace(allocOk, mapped)) == live
  {
    if allocOk {
      var held := live + multiset{IccidBuffer};
      Peel(live, Acquire(IccidBuffer), [ReadIccid(mapped), Release(IccidBuffer)]);
      Peel(held, ReadIccid(mapped), [Release(IccidBuffer)]);
      Peel(held, Release(IccidBuffer), []);
    }
  }

  /**
   * Net effect of fiveg_probe on the live resources: on success it holds the conn
   * record, the mapping, rfkill (allocated and registered), the socket and the
   * attribute; on every failure everything it acquired is released again except
   * the devm-managed mapping, which stays for the platform to release. No step
   * releases anything it does not hold.
   */
  lemma ProbeNetEffect(live: multiset<Resource>, f: ProbeFaults, mapped: bool)
    ensures Sound(live, ProbeTrace(f, mapped))
    ensures ProbeResult(f) == 0 ==> Replay(live, ProbeTrace(f, mapped)) == live + BOUND
    ensures ProbeResult(f) != 0 ==>
              Replay(live, ProbeTrace(f, mapped)) ==
              live + (if ReachesMap(f) && f.mapping.Mapped? then multiset{Mapping} else multiset{})
  {
    IccidBufferFreed(live, f.iccidAllocated, mapped);
    ReplayAppend(live, IccidTrace(f.iccidAllocated, mapped), BringUpTrace(f));
    BringUpNetEffect(live, f);
  }

  lemma BringUpNetEffect(live: multiset<Resource>, f: ProbeFaults)
    ensures Sound(live, BringUpTrace(f))
    ensures ProbeResult(f) == 0 ==> Replay(live, BringUpTrace(f)) == live + BOUND
    ensures ProbeResult(f) != 0 ==>
              Replay(live, BringUpTrace(f)) ==
              live + (if ReachesMap(f) && f.mapping.Mapped? then multiset{Mapping} else multiset{})
  {
    if !f.connAllocated {
    } else if !ReachesMap(f) || f.mapping.MapError? {
      UnmappedNet(live, f);
    } else if ConnectResult(f.connect) < 0 {
      ConnectFailedNet(live, f);
    } else if f.sendRet < 0 || f.createFileRet != 0 {
      SendFailedNet(live, f);
    } else {
      BoundNet(live, f);
    }
  }

  lemma UnmappedNet(live: multiset<Resource>, f: ProbeFaults)
    requires f.connAllocated && (!ReachesMap(f) || f.mapping.MapError?)
    ensures Sound(live, BringUpTrace(f)) && Replay(live, BringUpTrace(f)) == live
  {
    assert BringUpTrace(f) == Acquires([ConnRecord]) + Releases([ConnRecord]);
    UndoNet(live, [ConnRecord], [ConnRecord]);
  }

  lemma ConnectedNetInProbe(live: multiset<Resource>, f: ProbeFaults)
    requires ReachesMap(f) && f.mapping.Mapped?
    ensures Sound(live, ConnectedTrace(f))
    ensures ConnectResult(f.connect) == 0 ==> Replay(live, ConnectedTrace(f)) == live + HELD
    ensures ConnectResult(f.connect) != 0 ==>
              Replay(live, ConnectedTrace(f)) == live + multiset{ConnRecord, Mapping}
  {
    assert [Acquire(ConnRecord), Acquire(Mapping)] == Acquires([ConnRecord, Mapping]);
    AcquiresNet(live, [ConnRecord, Mapping]);
    ConnectAllOrNothing(live + multiset{ConnRecord, Mapping}, f.connect);
    ReplayAppend(live, [Acquire(ConnRecord), Acquire(Mapping)], ConnectTrace(f.connect));
    HeldArithmetic(live);
  }

  lemma ConnectFailedNet(live: multiset<Resource>, f: ProbeFaults)
    requires ReachesMap(f) && f.mapping.Mapped? && ConnectResult(f.connect) < 0
    ensures Sound(live, BringUpTrace(f))
    ensures Replay(live, BringUpTrace(f)) == live + multiset{Mapping}
  {
    ConnectedNetInProbe(live, f);
    ReplayAppend(live, ConnectedTrace(f), [Release(ConnRecord)]);
    Peel(live + multiset{ConnRecord, Mapping}, Release(ConnRecord), []);
  }

  /** Up to and including the announcement send, fiveg_probe holds everything but the attribute. */
  lemma AnnouncedNet(live: multiset<Resource>, f: ProbeFaults)
    requires ReachesSend(f)
    ensures Sound(live, BringUpTrace(f)) <==> Sound(live + HELD, AfterSendTrace(f))
    ensures Replay(live, BringUpTrace(f)) == Replay(live + HELD, AfterSendTrace(f))
  {
    var sent := [Send(|ANNOUNCEMENT|, f.sendRet)];
    ConnectedNetInProbe(live, f);
    ReplayAppend(live, ConnectedTrace(f), sent);
    Peel(live + HELD, sent[0], []);
    ReplayAppend(live, ConnectedTrace(f) + sent, AfterSendTrace(f));
  }

  lemma SendFailedNet(live: multiset<Resource>, f: ProbeFaults)
    requires ReachesSend(f) && (f.sendRet < 0 || f.createFileRet != 0)
    ensures Sound(live, BringUpTrace(f))
    ensures Replay(live, BringUpTrace(f)) == live + multiset{Mapping}
  {
    AnnouncedNet(live, f);
    RollbackArithmetic(live);
    ReleasesNet(live + HELD, ERR_RFKILL_ORDER);
    RollbackOrder();
  }

  lemma BoundNet(live: multiset<Resource>, f: ProbeFaults)
    requires ReachesSend(f) && f.sendRet >= 0 && f.createFileRet == 0
    ensures Sound(live, BringUpTrace(f))
    ensures Replay(live, BringUpTrace(f)) == live + BOUND
  {
    AnnouncedNet(live, f);
    HeldArithmetic(live);
    Peel(live + HELD, Acquire(PowerAttribute), [SetDrvdata]);
    Peel(live + BOUND, SetDrvdata, []);
  }

  /**
   * The rollback paths of fiveg_probe: the mapping is never released by the
   * driver; the attribute is never created and drvdata never set on a failing
   * path; every failure after the conn allocation ends by freeing conn; a failure
   * at the send or at the attribute goes through err_rfkill, which releases rfkill
   * (unregister, destroy), then the socket, then conn.
   */
  lemma ProbeRollback(f: ProbeFaults, mapped: bool)
    ensures Release(Mapping) !in ProbeTrace(f, mapped)
    ensures ProbeResult(f) != 0 ==>
              Acquire(PowerAttribute) !in ProbeTrace(f, mapped) && SetDrvdata !in ProbeTrace(f, mapped)
    ensures ProbeResult(f) != 0 && f.connAllocated ==>
              ProbeTrace(f, mapped)[|ProbeTrace(f, mapped)| - 1] == Release(ConnRecord)
    ensures ProbeResult(f) != 0 && ReachesSend(f) ==>
              ProbeTrace(f, mapped)[|ProbeTrace(f, mapped)| - 4..] == ERR_RFKILL
  {
    var iccid := IccidTrace(f.iccidAllocated, mapped);
    var t := BringUpTrace(f);
    assert ProbeTrace(f, mapped) == iccid + t;
    BringUpRollback(f);
    if |t| >= 4 {
      assert (iccid + t)[|iccid + t| - 4..] == t[|t| - 4..];
    }
  }

  lemma BringUpRollback(f: ProbeFaults)
    ensures Release(Mapping) !in BringUpTrace(f)
    ensures ProbeResult(f) != 0 ==> Acquire(PowerAttribute) !in BringUpTrace(f) && SetDrvdata !in BringUpTrace(f)
    ensures ProbeResult(f) != 0 && f.connAllocated ==>
              |BringUpTrace(f)| >= 2 && BringUpTrace(f)[|BringUpTrace(f)| - 1] == Release(ConnRecord)
    ensures ProbeResult(f) != 0 && ReachesSend(f) ==>
              |BringUpTrace(f)| >= 4 && BringUpTrace(f)[|BringUpTrace(f)| - 4..] == ERR_RFKILL
  {
    if ReachesMap(f) && f.mapping.Mapped? {
      ConnectTouchesOnlyRadio(f.connect);
      var front := ConnectedTrace(f);
      if ConnectResult(f.connect) < 0 {
        assert BringUpTrace(f) == front + [Release(ConnRecord)];
      } else {
        var sent := front + [Send(|ANNOUNCEMENT|, f.sendRet)];
        assert BringUpTrace(f) == sent + AfterSendTrace(f);
        assert (sent + AfterSendTrace(f))[|sent|..] == AfterSendTrace(f);
      }
    }
  }

  /** A probe that gets past fiveg_connect makes exactly one send, of the announcement; an earlier failure makes none. */
  lemma ProbeAnnouncesOnce(f: ProbeFaults, mapped: bool)
    ensures multiset(ProbeTrace(f, mapped))[Send(|ANNOUNCEMENT|, f.sendRet)] == if ReachesSend(f) then 1 else 0
    ensures forall e :: e in ProbeTrace(f, mapped) && e.Send? ==> e == Send(|ANNOUNCEMENT|, f.sendRet)
  {
    var announce := Send(|ANNOUNCEMENT|, f.sendRet);
    var iccid := IccidTrace(f.iccidAllocated, mapped);
    assert Quiet(iccid);
    QuietCount(iccid, announce);
    assert ProbeTrace(f, mapped) == iccid + BringUpTrace(f);
    BringUpAnnounces(f);
  }

  lemma BringUpAnnounces(f: ProbeFaults)
    ensures multiset(BringUpTrace(f))[Send(|ANNOUNCEMENT|, f.sendRet)] == if ReachesSend(f) then 1 else 0
    ensures forall e :: e in BringUpTrace(f) && e.Send? ==> e == Send(|ANNOUNCEMENT|, f.sendRet)
  {
    if ReachesSend(f) {
      AnnouncedOnce(f);
    } else {
      BringUpQuiet(f);
      QuietCount(BringUpTrace(f), Send(|ANNOUNCEMENT|, f.sendRet));
    }
  }

  lemma AnnouncedOnce(f: ProbeFaults)
    requires ReachesSend(f)
    ensures multiset(BringUpTrace(f))[Send(|ANNOUNCEMENT|, f.sendRet)] == 1
    ensures forall e :: e in BringUpTrace(f) && e.Send? ==> e == Send(|ANNOUNCEMENT|, f.sendRet)
  {
    var announce := Send(|ANNOUNCEMENT|, f.sendRet);
    ConnectedQuiet(f);
    QuietCount(ConnectedTrace(f), announce);
    AfterSendQuiet(f);
    QuietCount(AfterSendTrace(f), announce);
    assert BringUpTrace(f) == ConnectedTrace(f) + [announce] + AfterSendTrace(f);
  }

  /** `t` makes no send. */
  ghost predicate Quiet(t: seq<Event>)
  {
    forall e :: e in t ==> !e.Send?
  }

  lemma QuietCount(t: seq<Event>, e: Event)
    requires Quiet(t) && e.Send?
    ensures multiset(t)[e] == 0
  {
  }

  lemma ConnectedQuiet(f: ProbeFaults)
    ensures Quiet(ConnectedTrace(f))
  {
    ConnectTouchesOnlyRadio(f.connect);
  }

  lemma AfterSendQuiet(f: ProbeFaults)
    ensures Quiet(AfterSendTrace(f))
  {
  }

  lemma BringUpQuiet(f: ProbeFaults)
    requires !ReachesSend(f)
    ensures Quiet(BringUpTrace(f))
  {
    if ReachesMap(f) && f.mapping.Mapped? {
      ConnectedQuiet(f);
    }
  }

  /** After a successful probe, one remove releases everything probe acquired except the devm-managed mapping. */
  lemma ProbeThenRemove(live: multiset<Resource>, f: ProbeFaults, mapped: bool)
    requires ProbeResult(f) == 0
    ensures Sound(live, ProbeTrace(f, mapped) + RemoveTrace(true, true))
    ensures Replay(live, ProbeTrace(f, mapped) + RemoveTrace(true, true)) == live + multiset{Mapping}
  {
    ProbeNetEffect(live, f, mapped);
    ReplayAppend(live, ProbeTrace(f, mapped), RemoveTrace(true, true));
    RemoveReleasesBound(live);
  }

  lemma RemoveReleasesBound(live: multiset<Resource>)
    ensures Sound(live + BOUND, RemoveTrace(true, true))
    ensures Replay(live + BOUND, RemoveTrace(true, true)) == live + multiset{Mapping}
  {
    RemoveArithmetic(live);
    ReleasesNet(live + BOUND, REMOVE_ORDER);
    RollbackOrder();
  }

  /**
   * Teardown is not idempotent: fiveg_remove leaves drvdata pointing at the freed
   * conn with its rfkill and socket pointers still set, so a second call
   * unregisters rfkill again, although the registration is no longer held. This
   * holds whether or not removing the attribute a second time is harmless: even
   * without that first release, the rest of the second remove is unsound.
   */
  lemma SecondRemoveReleasesAgain(live: multiset<Resource>)
    requires RfkillRegistration !in live
    ensures !Sound(live + BOUND, RemoveTrace(true, true) + RemoveTrace(true, true))
    ensures !Sound(live + multiset{Mapping}, RemoveTrace(true, true)[1..])
  {
    var again := RemoveTrace(true, true);
    var rest := Releases(REMOVE_ORDER[2..]);
    RemoveReleasesBound(live);
    ReplayAppend(live + BOUND, again, again);
    RollbackOrder();
    assert REMOVE_ORDER[1..][1..] == REMOVE_ORDER[2..];
    assert again == [Release(PowerAttribute)] + ([Release(RfkillRegistration)] + rest);
    assert again[1..] == [Release(RfkillRegistration)] + rest;
    Peel(live + multiset{Mapping}, Release(PowerAttribute), [Release(RfkillRegistration)] + rest);
    Peel(live + multiset{Mapping} - multiset{PowerAttribute}, Release(RfkillRegistration), rest);
    Peel(live + multiset{Mapping}, Release(RfkillRegistration), rest);
  }

  // ---------------------------------------------------------------------------
  // The driver's state: globals, the conn record and the register window
  // ---------------------------------------------------------------------------

  /** struct fiveg_connection; a pointer field is modelled by whether it is set. */
  class Conn {
    var sock: bool
    var rfkill: bool
    var serverAddr: SockAddr

    /** kzalloc: every field starts zeroed. */
    constructor ()
      ensures !sock && !rfkill && serverAddr == ZERO_ADDR
    {
      sock := false;
      rfkill := false;
      serverAddr := ZERO_ADDR;
    }
  }

  class Driver {
    /** The device's register window, which base_register maps. */
    const regs: array<Byte>
    /**
     * base_register refers to a live devm mapping of the window. Remove does not
     * change it; the platform core's devres release (ReleaseDevres) unmaps it.
     */
    var mapped: bool
    /** The global conn pointer. */
    var conn: Conn?
    /** The platform device's drvdata. */
    var drvdata: Conn?
    /** The antenna_power attribute file exists. */
    var attrPresent: bool
    /** Every kernel effect so far, oldest first. */
    ghost var log: seq<Event>

    ghost predicate Valid()
      reads this
    {
      regs.Length >= WINDOW_MIN
    }

    /** The resources the driver holds, as the log gives them. */
    ghost function Live(): multiset<Resource>
      reads this
    {
      Replay(multiset{}, log)
    }

    /** Module load: base_register and conn start as NULL. */
    constructor (window: array<Byte>)
      requires window.Length >= WINDOW_MIN
      ensures Valid() && regs == window
      ensures !mapped && conn == null && drvdata == null && !attrPresent && log == []
    {
      regs := window;
      mapped := false;
      conn := null;
      drvdata := null;
      attrPresent := false;
      log := [];
    }

    /** fiveg_get_iccid: NULL when kmalloc fails, else the 20 ICCID register bytes and a NUL. */
    method GetIccid(allocOk: bool) returns (iccid: array?<Byte>)
      requires Valid()
      ensures iccid != null <==> allocOk
      ensures iccid != null ==>
                iccid[..] == regs[ICCID_REGISTER_OFFSET..ICCID_REGISTER_OFFSET + ICCID_LENGTH] + [0]
    {
      if !allocOk {
        return null;
      }
      iccid := new Byte[ICCID_LENGTH + 1];
      var i := 0;
      while i < ICCID_LENGTH
        invariant 0 <= i <= ICCID_LENGTH
        invariant forall j :: 0 <= j < i ==> iccid[j] == regs[ICCID_REGISTER_OFFSET + j]
      {
        iccid[i] := regs[ICCID_REGISTER_OFFSET + i];
        i := i + 1;
      }
      iccid[ICCID_LENGTH] := 0;
    }

    /** antenna_power_show: the live byte at 0x200 in decimal, then a newline. */
    function AntennaPowerShow(): (text: string)
      reads this, regs
      requires Valid()
      ensures text == ShowText(regs[ANTENNA_POWER_REGISTER_OFFSET])
      ensures DecimalValue(text[..|text| - 1]) == regs[ANTENNA_POWER_REGISTER_OFFSET] as nat
    {
      ShowText(regs[ANTENNA_POWER_REGISTER_OFFSET])
    }

    /** antenna_power_store, given kstrtoul's outcome for the written text. */
    method AntennaPowerStore(parsed: ParseResult, count: nat) returns (ret: int)
      requires Valid()
      modifies regs
      ensures regs[..] == StoreWindow(old(regs[..]), parsed)
      ensures ret == StoreResult(parsed, count)
    {
      match parsed
      case ParseError(code) =>
        return code;
      case Parsed(value) =>
        if value == 0 {
          regs[ANTENNA_POWER_REGISTER_OFFSET] := 0;
        } else if value == 1 {
          regs[ANTENNA_POWER_REGISTER_OFFSET] := 1;
        }
        return count;
    }

    /** fiveg_send_data: kernel_sendmsg's result `sent` is returned as it is, a short count included. */
    method SendData(c: Conn, len: nat, sent: int) returns (ret: int)
      requires c.sock
      modifies this`log
      ensures ret == sent
      ensures log == old(log) + [Send(len, sent)]
    {
      log := log + [Send(len, sent)];
      ret := sent;
    }

    /** fiveg_connect on the record `c`. */
    method Connect(c: Conn, port: int, faults: ConnectFaults) returns (ret: int)
      modifies this`log, c
      ensures ret == ConnectResult(faults)
      ensures log == old(log) + ConnectTrace(faults)
      ensures c.rfkill == faults.rfkillAllocated
      ensures c.sock == (old(c.sock) || SocketCreated(faults))
      ensures c.serverAddr ==
                if !SocketCreated(faults) then old(c.serverAddr)
                else if faults.address.None? then SockAddr(AF_INET, port, ZERO_ADDR.ip)
                else SockAddr(AF_INET, port, faults.address.value)
    {
      c.rfkill := faults.rfkillAllocated;
      if !c.rfkill {
        return -ENOMEM;
      }
      log := log + [Acquire(RfkillSwitch)];

      ret := faults.registerRet;
      if ret < 0 {
        log := log + [Release(RfkillSwitch)];
        return;
      }
      log := log + [Acquire(RfkillRegistration)];

      ret := faults.socketRet;
      if ret < 0 {
        log := log + [Release(RfkillRegistration), Release(RfkillSwitch)];
        return;
      }
      c.sock := true;
      log := log + [Acquire(Socket)];

      c.serverAddr := SockAddr(AF_INET, port, ZERO_ADDR.ip);
      if faults.address.None? {
        log := log + [Release(Socket), Release(RfkillRegistration), Release(RfkillSwitch)];
        return -EINVAL;
      }
      c.serverAddr := c.serverAddr.(ip := faults.address.value);
      return 0;
    }

    /**
     * fiveg_probe. The ICCID is read before the window is mapped, so the read
     * goes through whatever base_register holds at entry.
     */
    method Probe(f: ProbeFaults) returns (ret: int)
      requires Valid()
      modifies this
      ensures Valid()
      ensures ret == ProbeResult(f)
      ensures log == old(log) + ProbeTrace(f, old(mapped))
      ensures mapped == if ReachesMap(f) then f.mapping.Mapped? else old(mapped)
      ensures f.connAllocated <==> conn != null
      ensures conn != null ==> fresh(conn)
      ensures ret == 0 ==>
                drvdata == conn && attrPresent && conn != null && conn.rfkill && conn.sock &&
                conn.serverAddr == SockAddr(AF_INET, SERVER_PORT, f.connect.address.value)
      ensures ret != 0 ==> drvdata == old(drvdata) && attrPresent == old(attrPresent)
    {
      ReportIccid(f.iccidAllocated);
      ret := BringUp(f);
      assert log == old(log) + IccidTrace(f.iccidAllocated, old(mapped)) + BringUpTrace(f);
    }

    /** The ICCID report at the start of fiveg_probe: read it, print it, free the buffer. */
    method ReportIccid(allocOk: bool)
      requires Valid()
      modifies this`log
      ensures log == old(log) + IccidTrace(allocOk, mapped)
    {
      var iccid := GetIccid(allocOk);
      if iccid != null {
        log := log + [Acquire(IccidBuffer), ReadIccid(mapped), Release(IccidBuffer)];
      }
    }

    /** fiveg_probe from the conn allocation on, with its err_rfkill and err_free_conn rollbacks. */
    method BringUp(f: ProbeFaults) returns (ret: int)
      requires Valid()
      modifies this
      ensures Valid()
      ensures ret == ProbeResult(f)
      ensures log == old(log) + BringUpTrace(f)
      ensures mapped == if ReachesMap(f) then f.mapping.Mapped? else old(mapped)
      ensures f.connAllocated <==> conn != null
      ensures conn != null ==> fresh(conn)
      ensures ret == 0 ==>
                drvdata == conn && attrPresent && conn != null && conn.rfkill && conn.sock &&
                conn.serverAddr == SockAddr(AF_INET, SERVER_PORT, f.connect.address.value)
      ensures ret != 0 ==> drvdata == old(drvdata) && attrPresent == old(attrPresent)
    {
      ghost var start := log;
      if !f.connAllocated {
        conn := null;
        return -ENOMEM;
      }
      var c := new Conn();
      conn := c;
      log := log + [Acquire(ConnRecord)];

      if !f.resourcePresent {
        ret := -ENODEV;
        log := log + [Release(ConnRecord)];
        return;
      }

      if f.mapping.MapError? {
        mapped := false;
        ret := f.mapping.code;
        log := log + [Release(ConnRecord)];
        return;
      }
      mapped := true;
      log := log + [Acquire(Mapping)];

      ret := Connect(c, SERVER_PORT, f.connect);
      assert log == start + ConnectedTrace(f);
      if ret < 0 {
        log := log + [Release(ConnRecord)];
        return;
      }

      ret := SendData(c, |ANNOUNCEMENT|, f.sendRet);
      ghost var announced := log;
      assert announced == start + (ConnectedTrace(f) + [Send(|ANNOUNCEMENT|, f.sendRet)]);
      if ret < 0 {
        log := log + ERR_RFKILL;
        return;
      }

      ret := f.createFileRet;
      if ret != 0 {
        log := log + ERR_RFKILL;
        return;
      }
      attrPresent := true;
      log := log + [Acquire(PowerAttribute)];

      drvdata := c;
      log := log + [SetDrvdata];
      return 0;
    }

    /**
     * fiveg_remove: the attribute is always removed; rfkill is released when conn
     * and its rfkill pointer are set; the socket is released and conn freed only
     * when conn and its socket pointer are set. drvdata is left as it was.
     */
    method Remove()
      requires Valid()
      modifies this
      ensures Valid()
      ensures log == old(log) + RemoveTrace(old(drvdata) != null && old(drvdata.rfkill),
                                            old(drvdata) != null && old(drvdata.sock))
      ensures !attrPresent
      ensures drvdata == old(drvdata) && conn == old(conn) && mapped == old(mapped)
    {
      var c := drvdata;
      attrPresent := false;
      log := log + [Release(PowerAttribute)];

      if c != null && c.rfkill {
        log := log + [Release(RfkillRegistration), Release(RfkillSwitch)];
      }

      if c != null && c.sock {
        log := log + [Release(Socket), Release(ConnRecord)];
      }
    }

    /**
     * The platform core's devres release, after remove or after a failed probe:
     * the devm-managed mapping, if live, is unmapped. base_register keeps its
     * now stale value, which the driver never clears.
     */
    method ReleaseDevres()
      modifies this`mapped, this`log
      ensures !mapped
      ensures log == old(log) + (if old(mapped) then [Release(Mapping)] else [])
    {
      if mapped {
        log := log + [Release(Mapping)];
        mapped := false;
      }
    }
  }

  /**
   * A second fiveg_remove, as a second unbind without a new probe would run it:
   * drvdata and conn's pointers are as the first call left them, so the same
   * releases are logged twice.
   */
  method RemoveTwice(d: Driver)
    requires d.Valid()
    modifies d
    ensures d.log == old(d.log) +
                     RemoveTrace(old(d.drvdata) != null && old(d.drvdata.rfkill), old(d.drvdata) != null && old(d.drvdata.sock)) +
                     RemoveTrace(old(d.drvdata) != null && old(d.drvdata.rfkill), old(d.drvdata) != null && old(d.drvdata.sock))
  {
    d.Remove();
    d.Remove();
  }

  /**
   * The platform core binding the driver (probe), unbinding it (remove) when
   * that succeeded, and then releasing the device's devm resources: whichever
   * step failed, nothing the cycle acquired is left, and base_register is no
   * longer mapped for the next bind.
   */
  method BindUnbind(d: Driver, f: ProbeFaults) returns (ret: int)
    requires d.Valid() && !d.mapped
    modifies d
    ensures ret == ProbeResult(f)
    ensures d.log == old(d.log) + BindUnbindTrace(f)
    ensures Sound(old(d.Live()), BindUnbindTrace(f))
    ensures d.Live() == old(d.Live())
    ensures !d.mapped
    ensures ret == 0 ==> !d.attrPresent
  {
    ghost var before := d.log;
    ret := d.Probe(f);
    ghost var probed := d.log;
    assert probed == before + ProbeTrace(f, false);
    if ret == 0 {
      d.Remove();
    }
    ghost var unbound := d.log;
    assert unbound == before + (ProbeTrace(f, false) + UnbindTrace(f));
    d.ReleaseDevres();
    assert d.log == unbound + DevresTrace(f);
    assert d.log == before + BindUnbindTrace(f);
    BindUnbindNet(Replay(multiset{}, before), f);
    ReplayAppend(multiset{}, before, BindUnbindTrace(f));
  }

  /** The remove the platform core runs after a successful probe. */
  ghost function UnbindTrace(f: ProbeFaults): seq<Event>
  {
    if ProbeResult(f) == 0 then RemoveTrace(true, true) else []
  }

  /** The devres release: the mapping, when probe made it. */
  ghost function DevresTrace(f: ProbeFaults): seq<Event>
  {
    if ReachesMap(f) && f.mapping.Mapped? then [Release(Mapping)] else []
  }

  /** One bind/unbind cycle from an unmapped device. */
  ghost function BindUnbindTrace(f: ProbeFaults): seq<Event>
  {
    (ProbeTrace(f, false) + UnbindTrace(f)) + DevresTrace(f)
  }

  /** Whichever step of the probe fails, a bind/unbind cycle is sound and returns every resource it acquired. */
  lemma BindUnbindNet(live: multiset<Resource>, f: ProbeFaults)
    ensures Sound(live, BindUnbindTrace(f))
    ensures Replay(live, BindUnbindTrace(f)) == live
  {
    DriverCycleNet(live, f);
    ReplayAppend(live, ProbeTrace(f, false) + UnbindTrace(f), DevresTrace(f));
    DevresNet(live, f);
  }

  /** What the driver's own probe and remove leave: the mapping, when probe made it. */
  lemma DriverCycleNet(live: multiset<Resource>, f: ProbeFaults)
    ensures Sound(live, ProbeTrace(f, false) + UnbindTrace(f))
    ensures Replay(live, ProbeTrace(f, false) + UnbindTrace(f)) ==
              live + (if ReachesMap(f) && f.mapping.Mapped? then multiset{Mapping} else multiset{})
  {
    if ProbeResult(f) == 0 {
      ProbeThenRemove(live, f, false);
    } else {
      ProbeNetEffect(live, f, false);
      assert ProbeTrace(f, false) + UnbindTrace(f) == ProbeTrace(f, false);
    }
  }

  lemma DevresNet(live: multiset<Resource>, f: ProbeFaults)
    ensures Sound(live + (if ReachesMap(f) && f.mapping.Mapped? then multiset{Mapping} else multiset{}), DevresTrace(f))
    ensures Replay(live + (if ReachesMap(f) && f.mapping.Mapped? then multiset{Mapping} else multiset{}), DevresTrace(f)) == live
  {
    if ReachesMap(f) && f.mapping.Mapped? {
      Peel(live + multiset{Mapping}, Release(Mapping), []);
      assert live + multiset{Mapping} - multiset{Mapping} == live;
    }
  }
}
