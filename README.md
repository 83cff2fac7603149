# Bluetooth LE central (heart-rate sample): a Dafny model

This project models the logic of the Zephyr Bluetooth `central` sample
(`samples/bluetooth/central/src/main.c`). The sample scans for advertisers,
picks one whose advertising data lists the Heart Rate service, connects, and
then walks the peer's GATT database in three discovery steps. First it finds
the primary service. Then it finds the Heart Rate Measurement
characteristic. Then it finds that characteristic's Client Characteristic
Configuration (CCC) descriptor, and it subscribes to notifications through it.

The model has four modules:

- `Types` (`types.dfy`): octets, 16-bit handles and UUIDs, wrap-around
  addition in `uint16_t`, and little-endian composition (`sys_le16_to_cpu`
  applied to two copied octets).
- `AdData` (`ad_data.dfy`): `ad_parse`, the walker over advertising data in
  the format of the Bluetooth Core Specification, Vol 3, Part C, section 11.
  `Walk` is its specification as a function. `AdParse` is the loop, proved
  equal to `Walk`. Lemmas state its framing, how it ends, and what it does on
  well-formed, terminated and truncated buffers.
- `EirFilter` (`eir_filter.dfy`): the decision `eir_found` returns to the
  walker, the UUID loop, and the loop exactly as written (see Findings).
- `HeartRateCentral` (`central.dfy`): a class `Central` holding the sample's
  globals `default_conn`, `discover_params` and `subscribe_params`. Its
  methods are the callbacks `eir_found`, `device_found`, `connected`,
  `discover_func` and `disconnected`. A ghost `trace` records every request
  made to the host stack, with its arguments. The invariant `Valid()` ties
  the phase, the discovery type, the value handle and the trace together.

The phase of the discovery is the pointer `discover_params.uuid`, which
points at one of the static UUID objects `hrs`, `hrm` or `ccc`. The model
writes it as `Option<UuidRef>`, with `UuidRef = Hrs | Hrm | Ccc`. `None`
stands for the NULL of the zero-initialised static, before the first
connection.

Calls into the host stack (`bt_gatt_discover`, `bt_gatt_subscribe`,
`bt_start_scanning`, `bt_stop_scanning`, `bt_conn_create_le`, `bt_conn_put`)
are not modelled. Each call is appended to the trace. Its result is a
parameter of the callback that makes the call: an arbitrary `int` error
code, or for `bt_conn_create_le` an optional connection. In the source the
error codes only choose whether a failure line is printed. Each callback
returns as its `logged` out-parameter whether it prints a failure line or an
"AD malformed" line.

`ad_parse` takes a callback. The model passes `eir_found`'s answer as a pure
function `EirContinues`. `eir_found` changes state only on the branch that
answers `false`, and that answer ends the walk. So `DeviceFound` runs the
walk with that answer, then applies `EirFound` to the element the walk
stopped at. With the loop bound of the Finding below, the state and the
trace are the same as in the source.

Three behaviours of the code that a reader might not expect, which the
model keeps:

- `disconnected` (main.c:219-239) leaves `discover_params` as it was.
- Nothing discards a discovery callback that arrives after a disconnect.
  `LateMatchAfterDisconnect` shows `discover_func` then subscribing on a
  NULL connection.
- After subscribing, `discover_params.uuid` stays `&ccc`. There is no
  separate subscribed phase.

## Model

| member | source | states |
|---|---|---|
| `Types.AddU16` | samples/bluetooth/central/src/main.c:85 | handle arithmetic is in `uint16_t`: the sum is exact below 65536 and wraps to `a + k - 65536` above |
| `Types.LeU16Injective` | samples/bluetooth/central/src/main.c:159-160 | two octet pairs decode little-endian to the same 16-bit value if and only if they are the same pair |
| `EirFilter.HrsOctets` | samples/bluetooth/central/src/main.c:159-160 | the only octet pair that decodes to the Heart Rate UUID 0x180D is `0D 18` |
| `AdData.AdParse` | samples/bluetooth/central/src/main.c:177-204 | the cursor loop returns exactly the elements `Walk` visits and the way `Walk` ends; with `p + len` equal to the buffer length and `p` equal to the octets of the visited elements at every step |
| `AdData.WalkFrames` | samples/bluetooth/central/src/main.c:183-202 | every visited element has a length of at least 1, lies back to back with the one before it from offset 0, and fits in the octets that remain; the consumed octets never exceed the buffer |
| `AdData.WalkEnds` | samples/bluetooth/central/src/main.c:186-195 | a used-up buffer is consumed exactly; a zero length octet, or a structure that overruns the buffer or has fewer than 2 octets left, is the first unconsumed octet, and no callback is made on it |
| `AdData.WalkAnswers` | samples/bluetooth/central/src/main.c:197-199 | the walk ends as "stopped" if and only if the callback answered `false` on the last visited element; it answered `true` on every earlier one |
| `AdData.WalkEncoded` | samples/bluetooth/central/src/main.c:183-203 | with a callback that never stops, encoded structures followed by any octets are visited one element each, in order, with their type and payload, and the walk then goes on as on the trailing octets alone |
| `AdData.WalkWellFormed` | samples/bluetooth/central/src/main.c:183-203 | on a well-formed buffer with a callback that never stops, every structure is visited exactly once, in buffer order, and the walk uses up the buffer |
| `AdData.WalkTerminated` | samples/bluetooth/central/src/main.c:186-189 | structures followed by a zero length octet are visited, and the walk ends at the terminator whatever follows it |
| `AdData.WalkTruncated` | samples/bluetooth/central/src/main.c:191-195 | structures followed by one whose declared length overruns the buffer are visited, the walk ends as malformed, and the truncated one is never handed out |
| `EirFilter.ScanForHrs` | samples/bluetooth/central/src/main.c:158-171 | the UUID loop, bounded by the payload length `len - 1`, finds the Heart Rate UUID if and only if some whole little-endian entry of the payload equals 0x180D |
| `EirFilter.ScanAsWritten` | samples/bluetooth/central/src/main.c:158-160 | the loop with the bound `i < len` as written: it reads past the advertising data only when the data ends before octet `len + 1`, and it matches only on a pair it compares, at `i`, `i + 2`, ..., that decodes to 0x180D |
| `EirFilter.AsWrittenComparesOneExtraPair` | samples/bluetooth/central/src/main.c:158-160 | the loop bounded by `len` agrees with the intended one on the payload, then compares one more pair: the two octets after the payload, or octets beyond the advertising data |
| `EirFilter.AsWrittenFalseMatch` | samples/bluetooth/central/src/main.c:158-169 | on a UUID list that does not name the Heart Rate service and is followed by at least two octets, the loop as written matches if and only if those two octets are `0D 18`, such as the header of a structure of length 13 and type 0x18 |
| `EirFilter.AsWrittenMatchesNextHeader` | samples/bluetooth/central/src/main.c:158-170 | on a list naming only 0x0201 followed by a structure of length 13 and type 0x18, the loop as written matches 0x180D, while the list does not name it |
| `EirFilter.AsWrittenReadsPastLastStructure` | samples/bluetooth/central/src/main.c:158-160 | on a UUID list that ends the advertising data, the loop as written reads past the data |
| `HeartRateCentral.Central.constructor` | samples/bluetooth/central/src/main.c:49-67 | the statics start zeroed: no connection, a NULL UUID and callback in `discover_params`, a zero `subscribe_params`, an empty trace; the invariant holds |
| `HeartRateCentral.Central.EirFound` | samples/bluetooth/central/src/main.c:142-175 | answers "continue" with no change for a non-UUID16-list type or an odd-length payload, reporting the odd-length list as malformed; on a Heart Rate match it requests stop-scan then connect to the advertiser, stores the new connection (or NULL) in `default_conn`, answers "stop", and a failed stop-scan is only reported |
| `HeartRateCentral.Central.DeviceFound` | samples/bluetooth/central/src/main.c:206-217 | walking a report with `eir_found` connects to the advertiser exactly when the walk stops on a Heart Rate list, and otherwise changes nothing; it reports a line exactly when the walk ends on a malformed structure, passes an odd-length UUID list, or fails to stop scanning |
| `HeartRateCentral.Central.Connected` | samples/bluetooth/central/src/main.c:118-140 | only for `default_conn`: resets discovery to the Heart Rate primary service over handles 0x0001 to 0xFFFF and issues one discover request; any other connection changes nothing |
| `HeartRateCentral.Central.DiscoverFunc` | samples/bluetooth/central/src/main.c:77-116 | service phase to characteristic phase from `h + 1`; characteristic phase to descriptor phase from `h + 2` with value handle `h + 1`; one discover request each; otherwise one notify subscribe at `h`, with `-EALREADY` not reported; handles wrap at 16 bits, the end handle never changes, the phase never moves back, and the answer is always "stop" |
| `HeartRateCentral.Central.Disconnected` | samples/bluetooth/central/src/main.c:219-239 | any connection other than `default_conn` changes nothing; for `default_conn` it releases it, clears `default_conn`, restarts scanning with duplicate filtering disabled, and leaves the discovery parameters as they were |
| `HeartRateCentral.HeartRateAdvertisementStops` | samples/bluetooth/central/src/main.c:150-169 | an advertisement whose one structure is a complete UUID16 list `0D 18` makes the walk stop at that structure |
| `HeartRateCentral.HeartRateDiscovery` | samples/bluetooth/central/src/main.c:83-137 | service at 0x10, characteristic at 0x20 and CCC at 0x25 give three discover requests, then one subscribe request for value handle 0x21, with no failure reported |
| `HeartRateCentral.LateMatchAfterDisconnect` | samples/bluetooth/central/src/main.c:103-111 | after a disconnect in the CCC phase, a late attribute callback still issues a subscribe request, on a NULL connection |

## Findings

| source | as written | input that shows it | evidently intended | confidence | as-written member | corrected member |
|---|---|---|---|---|---|---|
| samples/bluetooth/central/src/main.c:158 | the UUID loop runs while `i < eir->len`; the payload has `len - 1` octets and the guard at line 153 makes that even, so the last pair read is `data[len-1]`, `data[len]`, both after the payload | advertising data `03 03 01 02 0D 18` plus 12 more octets: the list names only 0x0201, but the next structure's length and type octets read as 0x180D, so the sample connects | bound `i < eir->len - 1`, the payload length | high (not executed) | `EirFilter.ScanAsWritten`, `EirFilter.AsWrittenMatchesNextHeader` | `EirFilter.ScanForHrs` |

`EirFilter.ScanAsWritten` is the loop as written.
`EirFilter.AsWrittenFalseMatch` says which following structures make it
match falsely. `EirFilter.AsWrittenReadsPastLastStructure` shows the second symptom: on the
last structure the loop reads past the advertising data.
`EirFilter.AsWrittenComparesOneExtraPair` shows that the extra pair is the
whole difference. The rest of the model (`EirContinues`, `EirFound`,
`DeviceFound`) uses the corrected bound.

## Left out

- `main` / `mainloop` (main.c:246-276): stack enable, callback registration, the first scan start and the sleep loop. This is plumbing with no logic.
- `subscribe_func` (main.c:69-75) and all `printk` and address formatting: these only log. The model keeps only whether a failure or an "AD malformed" line is printed, as `logged`. The informational lines (device, AD element, attribute, connected, disconnected) are not modelled.
- The host stack's internals: discovery, subscription, scanning, connection creation and release. Each call is a trace entry, and its result is a parameter.
- Connection reference counting (`bt_conn_put`) is recorded as a `Put` request but not counted.
- The order and timing of callback delivery: each callback is one atomic step.
- `HeartRateCentral.Central.DiscoverFunc` requires that `discover_params.func` is `discover_func`: the stack only calls the callback stored in the parameters of a discover request.
- `AdData.AdParse` returns the visited elements and how the walk ended. `ad_parse` returns nothing; these are observations of its behaviour.
- Header constants are taken from the Bluetooth assigned numbers and from Zephyr's headers, which are not part of this model: AD types 0x02 and 0x03, UUIDs 0x180D, 0x2A37 and 0x2902, notify value 0x0001, `EALREADY` 120. The zero value of `discover_params.type` is taken to be the primary-service type.
- The heart-rate measurement payload: the code never parses it.
