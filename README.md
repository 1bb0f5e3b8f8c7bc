# RSSI beacon receiver: a Dafny model

This project models the ESP32 firmware of a BLE beacon receiver. The firmware follows the path from a received
advertisement to a line reported over HTTP:

- `AdData` models the advertising-data format (Bluetooth Core Specification, Volume 3, Part C, section 11). Its
  `Lookup` is a first-match lookup standing in for the ESP-IDF call `esp_ble_resolve_adv_data`, and `Parse`/`FirstOfType`
  is an independent reference definition of the same lookup.
- `BeaconBle` models `ble_is_beacon` and `ble_beacon_decode`. The decode is a method on a `Received` object that
  writes the record's fields in place, with early returns.
- `BeaconApp` models the GAP callback `esp_gap_cb`. The static cycle counter `packetGroup` and the 20-slot `heardBeacons`
  array become the `Scanner` and `HeardList` classes, and `isInList` becomes the loop `HeardList.Contains`. It also models
  one pass of the `vBeaconRXTask` loop (`RxCycle`). Each method is proved against a pure step function
  (`Step`/`OnResult`), and the properties are proved about that function.
- `Queues.SightingQueue` models the FreeRTOS queue of capacity 10 (`BEACON_QUEUE_LEN`). Its send never blocks.
- `WiFi` models `event_handler`, with the CONNECTED/FAILED bits as a `bv32` and the counter `s_retry_num`.
  `WiFiWaitUntillConnected` is modelled as a guard.
- `DatabaseApp` models the query string `rssi_submit?pkGroup=..&uuid=..&rssi=..&deviceID=..` (a query component,
  RFC 3986 section 3.4) and the older three-field form. It also models the drain loop `databaseContact`.
- `Http` models the request text of `http_send_request`: a request line (RFC 1945 section 5.1) and a Host header
  (RFC 7230 section 5.4) in a 100-byte buffer. It also models the function's return code.
- `Text` models `%d`, `snprintf`'s return value and truncation, and splitting. The round-trip lemmas use it.

The outcomes of the network calls (DNS, socket, connect, write) are parameters (`NetOutcome`). So are the status codes
of the Bluetooth stack's events, and the prior contents of freshly allocated memory (`garbage`, `blocks`).

The request's fixed part is 45 characters against a 100-byte buffer, so a query longer than 54 characters is never
sent (`RequestFits`, `DeliverSpec`, `LongRecordUndeliverable`). Such queries arise once the cycle counter reaches
100000 with a three-digit UUID byte and a three-character rssi, or 10000 with a three-digit UUID byte and a four-character rssi.

## Model

| member | source | states |
|---|---|---|
| AdData.ParseEncode | main/beaconBLE.c:32 | Encoding a list of well-formed AD structures and parsing the octets gives back the same list. |
| AdData.LookupFromParse | main/beaconBLE.c:32 | Octet-level lookup from any offset equals the first-of-type lookup over the structures parsed from that offset. |
| AdData.LookupSpec | main/beaconBLE.c:32 | The lookup yields nothing iff no structure has the type; otherwise it yields the data of the first structure of that type, verbatim. |
| AdData.LookupFound | main/beaconBLE.c:32 | If some parsed structure has the type, the lookup finds something. |
| AdData.LookupFromShort | main/beaconBLE.c:28 | A found section is shorter than 255 octets, so its length fits the `uint8_t len`. |
| AdData.FirstOfTypeSpec | main/beaconBLE.c:32 | The reference lookup is None iff no structure has the type, and otherwise it returns the data at the unique first index of that type. |
| BeaconBle.IsBeaconIff | main/beaconBLE.c:24-39 | A payload is a beacon iff its first manufacturer-data structure has exactly the data FF FF 'F' 'H'. |
| BeaconBle.NoMsdNotBeacon | main/beaconBLE.c:32-33 | A payload with no manufacturer-data structure is not a beacon. |
| BeaconBle.DecodeFieldsSpec | main/beaconBLE.c:41-85 | Decoding succeeds with fields f iff the first 0xFF, 0x16 and 0x0A sections are f.msd (4 octets), f.uuid (4 octets) and [f.txPower]. |
| BeaconBle.DecodeIntoSpec | main/beaconBLE.c:47-82 | Decode never writes rssi, packetGroup or deviceID. On success all three fields are copied verbatim. With no MSD section, or one of the wrong size, nothing is written. With a good MSD but a bad UUID only msd is written. With good MSD and UUID but a bad TX power, msd and uuid are written and txPower keeps its old value. |
| BeaconBle.BeaconPassesMsdStep | main/beaconBLE.c:33-49 | A payload `ble_is_beacon` accepts passes decode's first step; its MSD section is the 4-octet tag. |
| BeaconBle.Received.Alloc | main/beaconApp.c:150-151 | A freshly allocated record holds whatever the memory held (`garbage`). |
| BeaconBle.Received.Decode | main/beaconBLE.c:41-85 | Returns ESP_OK exactly when the value-level decode succeeds, otherwise ESP_FAIL. The record becomes exactly the partial write of the sections checked before the first failure. |
| BeaconBle.BeaconAdvDecodes | main/beaconBLE.h:31 | An advertisement built from the tag, a UUID and a TX power is a beacon, and decodes to exactly those fields. |
| BeaconBle.NoUuidAdvFailsDecode | main/beaconBLE.c:59-69 | A beacon advertisement without a service-data section is accepted by `ble_is_beacon` but fails decode at the UUID step. |
| Wrappers.ToInt8 | main/beaconApp.c:160 | The `int` rssi stored into the record's `int8_t` keeps values from -128 to 127 and otherwise agrees with them modulo 2^8. |
| Wrappers.ToInt32 | main/beaconApp.c:161 | The `unsigned int` counter stored into the record's `int` keeps values below 2^31, turns larger ones negative, and agrees with them modulo 2^32. |
| BeaconApp.HeardList.constructor | main/beaconApp.c:118 | The static list starts empty. |
| BeaconApp.HeardList.Reset | main/beaconApp.c:135 | Resetting zeroes every slot and empties the list. |
| BeaconApp.HeardList.Contains | main/beaconApp.c:206-217 | Returns true iff some index below `size` holds `id`, i.e. iff `id` is among the heard ids. |
| BeaconApp.HeardList.Append | main/beaconApp.c:172 | With a free slot, the id is stored at index `size` and the list grows by exactly that id. |
| BeaconApp.Scanner.constructor | main/beaconApp.c:117-118 | The callback's state starts at cycle 0 with an empty list, feeding the given queue. |
| BeaconApp.Scanner.OnGapEvent | main/beaconApp.c:115-204 | Handling an event leaves the class state equal to `Step` of the old state and keeps the list and queue bounds. |
| BeaconApp.Scanner.OnInquiryResult | main/beaconApp.c:145-189 | Handling an inquiry result leaves the class state equal to `OnResult` of the old state. |
| BeaconApp.ScanStart | main/beaconApp.c:129-138 | A successful scan start adds exactly 1 (mod 2^32) to the cycle and empties the list, leaving the queue alone. A failed start changes nothing. |
| BeaconApp.OtherEventsIgnored | main/beaconApp.c:121-203 | Parameter-set, stop, other events and non-inquiry results change neither cycle, list nor queue. |
| BeaconApp.OnResultCases | main/beaconApp.c:145-181 | A result either changes nothing or, for a decodable beacon with a new last UUID byte and room in the list, appends that byte and tries to enqueue the decoded record. That record carries the rssi, the cycle and device 1. Non-beacons, failed decodes and already-heard ids change nothing. |
| BeaconApp.EnqueuedRecordsDecoded | main/beaconApp.c:158-162 | Whatever the callback adds to the queue is the decoded record of the advertisement, stamped with rssi, cycle and device id. |
| BeaconApp.FullQueueDrops | main/beaconApp.c:172-181 | On a full queue the record is dropped and the queue is unchanged, but the id stays heard. |
| BeaconApp.StepInv | main/beaconApp.c:41 | Every event keeps the list within 20 distinct ids and the queue within 10. |
| BeaconApp.RunInv | main/beaconApp.c:41 | Every run of events keeps that bound. |
| BeaconApp.ResultIdempotent | main/beaconApp.c:164-169 | Handling the same scan result twice is the same as handling it once. |
| BeaconApp.ThreeAdvertsOneSighting | main/beaconApp.c:164-169 | Three identical advertisements in a row have the effect of one. |
| BeaconApp.AtMostOncePerCycle | main/beaconApp.c:129-191 | After a successful start, what was queued before is kept. The records queued in the cycle have pairwise distinct last UUID bytes and carry the new cycle's id. |
| BeaconApp.FreshBeaconsFill | main/beaconApp.c:165-181 | Distinct new beacons, up to the list's 20 slots, are all recorded as heard, and fill the queue in arrival order up to 10; the rest are dropped. |
| BeaconApp.AsWrittenOverflowsList | main/beaconApp.c:172 | As written, a 21st distinct beacon in a cycle makes the list 21 long (a write at index 20). The corrected callback refuses it. |
| BeaconApp.AsWrittenEnqueuesUndecoded | main/beaconApp.c:159 | As written, a beacon without service data is queued with the UUID and TX power the memory held. The corrected callback queues nothing. |
| BeaconApp.RxCycle | main/beaconApp.c:89-104 | Nothing happens unless Wi-Fi is connected. Otherwise the scan events run start, results, stop, then the drain empties the queue with one attempt per queued record, in order. |
| Queues.SightingQueue.constructor | main/main.c:26 | A new queue is empty with the given capacity. |
| Queues.SightingQueue.MessagesWaiting | main/databaseApp.c:108 | Reports the number of queued items, at most the capacity. |
| Queues.SightingQueue.TrySend | main/beaconApp.c:176 | Succeeds iff the queue was not full, and then appends the item; otherwise the queue is unchanged. |
| Queues.SightingQueue.TryReceive | main/databaseApp.c:111 | Fails iff the queue is empty; otherwise returns the oldest item and removes it. |
| WiFi.HandleBits | main/WiFi.c:67-86 | A disconnect leaves FAILED set, CONNECTED clear and the counter one higher. A new address leaves CONNECTED set, FAILED clear and the counter 0. |
| WiFi.HandleExclusive | main/WiFi.c:54-87 | Each handled event keeps CONNECTED and FAILED not both set. |
| WiFi.RunExclusive | main/WiFi.c:54-87 | Any run of events keeps CONNECTED and FAILED not both set. |
| WiFi.InitialExclusive | main/WiFi.c:97 | The event group starts with both bits clear, and no run of events from there sets both. |
| WiFi.IgnoredUnchanged | main/WiFi.c:61-76 | STA_START, other Wi-Fi event ids and other IP event ids leave bits and counter unchanged. |
| WiFi.RetryUnbounded | main/WiFi.c:32-73 | k disconnects in a row add exactly k to the counter and leave FAILED set and CONNECTED clear. More than WIFI_MAX_RETRY of them carry the counter past it, and each is still answered by the delayed reconnect. |
| WiFi.WiFiStation.constructor | main/WiFi.c:56-97 | The station starts with both bits clear and the counter 0. |
| WiFi.WiFiStation.SetBits | main/WiFi.c:69 | Sets the masked bits and nothing else. |
| WiFi.WiFiStation.ClearBits | main/WiFi.c:70 | Clears the masked bits and nothing else. |
| WiFi.WiFiStation.EventHandler | main/WiFi.c:54-87 | The new state is `Handle` of the old state and the event. The driver call is a connect on STA_START and a 5000 ms delay then connect on a disconnect. |
| WiFi.WiFiStation.WaitUntilConnected | main/WiFi.c:176-183 | The caller may go on iff CONNECTED is set; the wait changes nothing. |
| WiFi.DisconnectBlocksWait | main/WiFi.c:67-70 | After a disconnect the next wait does not pass. |
| Text.DecRoundTrip | main/databaseApp.c:119 | The `%d` text of any integer reads back as that integer. |
| Text.DecChars | main/databaseApp.c:119 | `%d` text is non-empty and holds only digits and a minus sign. |
| Text.DecLengthSmall | main/databaseApp.c:119 | The `%d` text of an int8 has at most 4 characters, of a uint8 at most 3, of an int32 at most 11. |
| Text.Snprintf | main/http.c:46-47 | `snprintf` returns the full text's length and keeps a prefix shorter than the size. The prefix is the whole text iff the text is shorter than the size; otherwise it is exactly the first size - 1 characters. |
| Text.SplitJoin | main/databaseApp.c:119 | Joining separator-free pieces and splitting at the separator gives back the pieces. |
| Http.RequestText | main/http.c:46 | The request text is 28 characters plus the path, host and port. |
| Http.SendRequest | main/http.c:32-92 | Returns 1 or -1. It returns 1 iff the text fits in 100 bytes and every network step succeeds. Too long means -1 before any network call. On 1, exactly the text was written. |
| DatabaseApp.QueryRoundTrip | main/databaseApp.c:119 | The query string reads back as exactly the cycle, last UUID byte, rssi and device id. |
| DatabaseApp.ExampleQuery | main/databaseApp.c:119 | Cycle 3, UUID byte 42, rssi -67 and device 1 format to `rssi_submit?pkGroup=3&uuid=42&rssi=-67&deviceID=1`. |
| DatabaseApp.QueryExtendsV1 | main/databaseApp.c:70 | The four-field string is the older three-field string plus `&deviceID=<d>`. |
| DatabaseApp.QueryLength | main/databaseApp.c:119-120 | A query string is at most 64 characters, below the 80-byte buffer. |
| DatabaseApp.AsWrittenMissesTruncation | main/databaseApp.c:120 | With the test as written, an 80-character text passes although only 79 characters were kept. |
| DatabaseApp.ParamsRejectedIffTruncated | main/databaseApp.c:120 | With `>=`, a text passes iff the buffer holds all of it. |
| DatabaseApp.AsWrittenCheckAgrees | main/databaseApp.c:119-124 | On every query string the firmware formats, neither form of the test rejects it. |
| DatabaseApp.DeliverSpec | main/databaseApp.c:117-135 | Every sighting is tried once with its full query string, and reaches the server iff the query is at most 54 characters and the network succeeds. |
| DatabaseApp.LongRecordUndeliverable | main/databaseApp.c:130 | A record of cycle 100000, UUID byte 200, rssi -67 has a 55-character query and is refused before any network call. |
| DatabaseApp.Report | main/databaseApp.c:117-135 | One pass of the drain loop's body tries the record once with its full query string. The send succeeds iff the query is at most 54 characters and every network step succeeds, and then exactly the request for that query was written. |
| DatabaseApp.DatabaseContact | main/databaseApp.c:95-138 | On return the queue is empty, and the attempts are exactly `Deliver` of each former item with its outcome, in FIFO order. |
| DatabaseApp.DrainOrder | main/databaseApp.c:108-136 | The i-th attempt is for the i-th queued sighting and is tried with its full query string. |
| DatabaseApp.RequestFits | main/http.c:46-47 | Against host 159.196.72.33 and port 5000, the request fits the 100-byte buffer iff the path is at most 54 characters. |

## Left out

- Bluetooth controller setup, scan-parameter configuration, Wi-Fi/netif initialisation, credentials and power save: these are driver calls with no logic of their own.
- The internals of `esp_ble_resolve_adv_data`: `Lookup` is the first-match lookup the standard defines. Its library code is not part of this model. A structure whose Length runs past the end of the payload ends the lookup.
- DNS, socket, connect, write and close: their outcomes are the `NetOutcome` parameter.
- Logging, the task delays and cycle periods, and the interleaving of the GAP callback with the reporter: `RxCycle` handles the scan's events in one sequence, and the wait is a guard rather than a blocking call.
- A failed `pvPortMalloc` (the callback then drops the result) is not modelled.
- Heap ownership: records travel through the queue by value, not by pointer. The frees, the double free on the over-long path, and the queue's item size are not modelled.
- DatabaseApp.Deliver: drops a record whose text does not fit the 80-byte buffer. The source instead falls through, frees twice and still sends the truncated text (main/databaseApp.c:120-130). No formatted query is long enough for this (`QueryLength`).
- DatabaseApp.DatabaseContact: does not model the source's fall-through after a failed receive, because its loop condition makes that receive impossible here.
- WiFi.Handle: `s_retry_num` is an unbounded integer; the C `int` would overflow after 2^31 - 1 disconnects.
- WiFi.WiFiStation.EventHandler: the moment between setting FAILED and clearing CONNECTED, when both are set, is not exposed, because the handler runs as one step.
- BeaconBle.IsBeacon: reads only the octets the section holds. The source's `memcmp` over a section longer than 4 octets reads past the tag, and is not modelled.
- BeaconBle.Received.Decode: models TX power as the `uint8_t` the record declares.
- BeaconApp.HeardList.Contains: returns a boolean for `isInList`'s 1 and 0.
- BeaconApp.OnResult: models the inquiry-result branch with the two corrections from "## Findings": an advertisement whose decode fails is dropped (the source at main/beaconApp.c:159 ignores the status and queues the record), and a new id is refused once the list holds 20 (the source at main/beaconApp.c:172 has no bound check). The branch as written is `OnResultAsWritten`. The same holds for `Step`, `OnResultCases`, `EnqueuedRecordsDecoded`, `StepInv`, `RunInv`, `AtMostOncePerCycle`, `FreshBeaconsFill` and `RxCycle`.
- BeaconApp.Scanner.OnGapEvent: is proved against `Step`, and so carries the same two corrections. `BeaconApp.Scanner.OnInquiryResult` checks the decode status and the list's size, which the source does not.
- BeaconApp.Step: narrows the event's `int` rssi to the record's `int8_t` with `ToInt8`. The `int` is taken as 32 bits, because the ESP-IDF GAP header that declares it is not part of this model.
- `vDatabaseContact` is modelled only through its three-field format (`FormatQueryV1`), because `main.c` never starts that task. Its loop matches `databaseContact` apart from the format.
- `vBeaconTXTask` is not part of this model; only its declaration exists.

## Findings

| source | as written | input that shows it | evidently intended | confidence | as-written member | corrected member |
|---|---|---|---|---|---|---|
| main/beaconApp.c:172 | a new id is appended at `list[size++]` with no check against BEACON_LIST_SIZE | 21 distinct beacons in one scan cycle; the 21st is written at index 20 of the 20-slot array | refuse new ids once the list holds 20 | not executed | BeaconApp.AsWrittenOverflowsList | BeaconApp.StepInv |
| main/beaconApp.c:159 | the status returned by `ble_beacon_decode` is ignored | `NoUuidAdv(tx)`: a beacon with no service-data section; the record is queued with uninitialised UUID and TX power | drop the advertisement when decoding fails | not executed | BeaconApp.AsWrittenEnqueuesUndecoded | BeaconApp.EnqueuedRecordsDecoded |
| main/databaseApp.c:120 | `n > HTTP_VAR_BUFF_SIZE` lets `n == 80` through although `snprintf` truncated the text | an 80-character text: n = 80, 79 characters kept | `n >= HTTP_VAR_BUFF_SIZE`, as at main/http.c:47 | not executed | DatabaseApp.AsWrittenMissesTruncation | DatabaseApp.ParamsRejectedIffTruncated |
