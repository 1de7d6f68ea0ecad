# fiveg: a verified model of the 5G modem platform driver

The `fiveg` driver is a Linux platform driver for a 5G modem. It maps the modem's
register window and reads the SIM's ICCID from it. It exposes the antenna power
register as the `antenna_power` sysfs attribute. It allocates and registers a
cellular rfkill switch, opens a UDP socket to a fixed management endpoint
(192.168.1.100, port 8944) and sends one announcement datagram. Probe acquires
these resources in a fixed order and undoes them through goto labels when a step
fails; remove tears them down.

This project models that core in Dafny (`fiveg.dfy`, module `FiveG`; `wrappers.dfy`
holds the `Option` type):

- The register window is an `array<Byte>` owned by a `Driver` object. The
  driver's globals (`base_register`, `conn`), the platform device's drvdata and
  the attribute's existence are fields of that object. `struct fiveg_connection`
  is the class `Conn`; its pointer fields are booleans meaning "set".
- Kernel services are foreign calls. Whether each one succeeds is an input,
  bundled per operation in `ConnectFaults` and `ProbeFaults`. Each call appends an
  event (`Acquire`, `Release`, `Send`, `ReadIccid`, `SetDrvdata`) to a ghost log.
- The multiset of live resources is a function of the log (`Replay`). `Sound`
  says no event releases something that is not held at that point.
- Every state-changing method is specified by a trace function
  (`log == old(log) + ProbeTrace(f, old(mapped))`). The lemmas about the trace
  functions state what each failure path releases and in what order.

Where the driver's stated intent and its code differ, the model follows the code:

- Teardown is not idempotent. `fiveg_remove` never clears drvdata or the pointers
  inside the freed conn, so a second call removes the attribute, unregisters and
  destroys rfkill, releases the socket and frees conn again (`RemoveTwice`,
  `SecondRemoveReleasesAgain`).
- Rollback is not strictly in reverse order. The `err_rfkill` label releases
  rfkill before the socket that was created after it (`ErrRfkillNotReversed`).
  Inside `fiveg_connect` the rollbacks are in reverse order
  (`ConnectRollbackIsLifo`).
- The ICCID is read before the window is mapped. The read is recorded with
  whether `base_register` referred to a live mapping at that moment. On a first
  probe it did not. `Remove` alone does not unmap the window; the platform core's
  devres release does (`ReleaseDevres`), and a bind/unbind cycle through
  `BindUnbind` includes it, so a later probe again reads unmapped.

## Model

| member | source | states |
|---|---|---|
| FiveG.Driver.constructor | fiveg.c:73-74 | At module load base_register is unmapped, conn and drvdata are NULL, no attribute exists and nothing has been acquired. |
| FiveG.Driver.GetIccid | fiveg.c:99-115 | When kmalloc fails the result is NULL. Otherwise the result is a 21-byte buffer holding register bytes 0x100..0x113 followed by a NUL. The register window is not written. |
| FiveG.DecimalText | fiveg.c:170 | The "%u" text of a number is a non-empty run of decimal digits with no leading zero. |
| FiveG.DecimalRoundTrip | fiveg.c:170 | Reading the "%u" text of n back as a decimal number gives n. |
| FiveG.ShowText | fiveg.c:168-171 | The show text is 2 to 4 characters long and ends in a newline. What comes before the newline is decimal and denotes the register byte, and it is the single digit 0 when it starts with 0. |
| FiveG.Driver.AntennaPowerShow | fiveg.c:168-171 | The attribute reads the live byte at 0x200 and shows its decimal value and a newline. No register changes. |
| FiveG.StoreWindow | fiveg.c:177-185 | Only byte 0x200 can change. A parsed 0 or 1 is written there. A parse error or any other value leaves the window as it was. |
| FiveG.StoreResult | fiveg.c:177-187 | The result is negative exactly when parsing failed, and it is then the parse error. A parsed value of any size returns count. |
| FiveG.Driver.AntennaPowerStore | fiveg.c:173-188 | The window after the call is StoreWindow of the window before it, and the return value is StoreResult. |
| FiveG.StoreThenShow | fiveg.c:168-188 | After storing "0" or "1", show reads back "0\n" or "1\n". After any other store the window and the shown text are unchanged. |
| FiveG.Driver.SendData | fiveg.c:76-97 | kernel_sendmsg's result is returned as it is: a negative error, or a byte count that may be short. Exactly one send is logged. |
| FiveG.RfkillSetBlock | fiveg.c:157-166 | Every block or unblock request is accepted, and no state changes. |
| FiveG.ConnectResult | fiveg.c:117-155 | fiveg_connect returns 0 exactly when rfkill is allocated and registered, the socket is created and the address parses. A failed allocation returns -ENOMEM and a bad address returns -EINVAL; other failures pass on the failing call's error. |
| FiveG.ConnectAcquired | fiveg.c:119-134 | The radio resources fiveg_connect acquired before it stopped (at a failing step or at the end) are a prefix of (switch, registration, socket), and all three exactly when the socket was created. |
| FiveG.ConnectAllOrNothing | fiveg.c:117-155 | No step of fiveg_connect releases something it does not hold. On failure the live resources are as before the call; on success they are those plus the rfkill switch, its registration and the socket. |
| FiveG.ConnectRollbackIsLifo | fiveg.c:124-153 | On success fiveg_connect only acquires. On failure it acquires a prefix and then releases that prefix in reverse order. |
| FiveG.ConnectTouchesOnlyRadio | fiveg.c:117-155 | fiveg_connect only acquires or releases the rfkill switch, its registration and the socket, and sends nothing. |
| FiveG.Driver.Connect | fiveg.c:117-155 | The return value is ConnectResult and the log grows by ConnectTrace. conn->rfkill is set exactly when rfkill_alloc succeeded, and conn->sock once the socket exists. These pointers stay set after a rollback. server_addr is AF_INET with the port; the parsed address is copied in only on success. |
| FiveG.ProbeResult | fiveg.c:206-254 | fiveg_probe returns 0 exactly when every step up to the announcement succeeds, the send is not negative and the attribute is created. |
| FiveG.ProbeErrors | fiveg.c:206-254 | Otherwise fiveg_probe returns the first failure: -ENOMEM when kzalloc fails, -ENODEV when the resource is missing, the ERR_PTR code when mapping fails, fiveg_connect's error, the negative send result, or device_create_file's result. |
| FiveG.ShortSendAccepted | fiveg.c:229-238 | A short, non-negative announcement send does not fail the probe: the result is device_create_file's. |
| FiveG.IccidBufferFreed | fiveg.c:198-204 | The ICCID buffer is released right after it is printed, so the report leaves the live resources unchanged. |
| FiveG.Driver.ReportIccid | fiveg.c:198-204 | The ICCID report logs an allocate, read and free when kmalloc succeeds, and nothing otherwise. The read is recorded with whether base_register referred to a live mapping then. |
| FiveG.BringUpNetEffect | fiveg.c:206-254 | From the conn allocation on, no step releases something not held. On success conn, the mapping, rfkill, its registration, the socket and the attribute are held. On failure only the mapping, when it was made, remains. |
| FiveG.ProbeNetEffect | fiveg.c:192-255 | The same net effect holds for the whole of fiveg_probe, ICCID report included. |
| FiveG.ProbeRollback | fiveg.c:211-254 | The driver never releases the mapping. A failing probe never creates the attribute and never sets drvdata. Every failure after kzalloc ends by freeing conn. A send or attribute failure ends with rfkill unregister, rfkill destroy, socket release, kfree. |
| FiveG.ErrRfkillNotReversed | fiveg.c:244-249 | err_rfkill's release order is not the reverse of the acquisition order: the rfkill pair goes before the socket. |
| FiveG.ProbeAnnouncesOnce | fiveg.c:222-232 | A probe that gets past fiveg_connect makes exactly one send, of the announcement's strlen bytes. An earlier failure makes none, and no other send occurs. |
| FiveG.Driver.BringUp | fiveg.c:206-254 | fiveg_probe from kzalloc on returns ProbeResult and logs BringUpTrace. base_register is mapped or ERR_PTR as devm_ioremap_resource decided. conn is set exactly when kzalloc succeeded. On success drvdata is conn, the attribute exists and conn holds rfkill, the socket and the server address. On failure drvdata and the attribute are unchanged. |
| FiveG.Driver.Probe | fiveg.c:192-255 | The whole fiveg_probe: the ICCID report, then BringUp, with the same result and state guarantees and the log grown by ProbeTrace. |
| FiveG.Driver.Remove | fiveg.c:257-273 | The attribute is always removed. rfkill is released when conn and conn->rfkill are set. The socket is released and conn freed only when conn and conn->sock are set. drvdata, conn and base_register are left as they were. |
| FiveG.RemoveReleasesBound | fiveg.c:257-273 | A remove after a successful probe releases only resources that are held, and leaves only the mapping. |
| FiveG.ProbeThenRemove | fiveg.c:192-273 | A successful probe followed by one remove is sound and leaves only the devm-managed mapping of what the pair acquired. |
| FiveG.Driver.ReleaseDevres | fiveg.c:217 | The platform core's devres release unmaps the window mapped by devm_ioremap_resource: a live mapping is released once, and base_register no longer refers to one. |
| FiveG.RemoveTwice | fiveg.c:257-273 | Two removes in a row log the same teardown twice: the second is driven by the drvdata and conn pointers the first left in place. |
| FiveG.SecondRemoveReleasesAgain | fiveg.c:257-273 | A second remove after the first is not sound, and not only because of the attribute: even leaving that aside, it unregisters rfkill again though the registration is no longer held, because drvdata still points at the freed conn with its pointers set. |
| FiveG.BindUnbindNet | fiveg.c:275-281 | Binding, unbinding when binding succeeded, and the platform core's devres release are sound together and return every resource the cycle acquired, the mapping included, whichever step failed. |
| FiveG.BindUnbind | fiveg.c:275-281 | The platform core's probe, then remove on success, then its devres release, starting from an unmapped window: the result is ProbeResult, no resource is released that is not held, the live resources are as before, the window ends unmapped and the attribute is gone after a successful pair. |

## Left out

- Kernel service internals are not modelled. This covers kmalloc, kzalloc, platform_get_resource, devm_ioremap_resource, rfkill_alloc, rfkill_register, rfkill_unregister, rfkill_destroy, sock_create_kern, sock_release, kernel_sendmsg, device_create_file, device_remove_file and platform_get/set_drvdata. Each is an abstract step: its outcome is an input and its effect is a logged event.
- kstrtoul's parsing (base auto-detection, overflow) and in4_pton's parsing are library code. Their outcomes are inputs: a `ParseResult` and an `Option<IPv4>`.
- The address text and the port are constants of the driver; only the parse outcome is an input.
- sprintf is modelled only as decimal digits plus a newline, and the show result is that text, not its length.
- The byte order of htons is not modelled: the port is stored as a number.
- printk and dev_err logging are not modelled.
- The module metadata macros are not modelled.
- The message header built for kernel_sendmsg is not modelled, nor the datagram's contents beyond its length.
- The ICCID read before mapping is modelled as a read of the register window, plus an event recording that base_register was not mapped. The model does not capture what an unmapped read would do.
- Concurrency is not modelled: sysfs show and store, and rfkill callbacks, running alongside remove. The driver has no locking to model.
- The platform core's devres release is modelled only as the unmapping of the window (`ReleaseDevres`), run by `BindUnbind` after remove or a failed probe.
- Radio hardware effects are not modelled. set_block has empty branches, so only its result is modelled.
- FiveG.Driver.SendData: requires conn->sock to be set. The driver only calls it after fiveg_connect succeeded, and a NULL socket would not be a modelled error path.
- FiveG.Driver.constructor: requires the mapped window to reach offset 0x200 (WINDOW_MIN = 0x201 bytes). fiveg_probe never checks the resource's size (fiveg.c:211-221), so a smaller resource would make the reads at 0x100..0x113 and the access at 0x200 fall outside the mapping; the model does not capture that out-of-bounds access.
