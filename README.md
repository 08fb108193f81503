# subterra-acquisition in Dafny

A model of the data-acquisition core of subterra-acquisition. This mobile
app connects to a GPS receiver and to an electromagnetic-locator (EML)
instrument over Bluetooth, keeps each link alive across drops, and turns
the byte streams into records. The model covers these parts, one Dafny
module per source file:

- **Stream parsers.**
  - `NmeaParser`: the NMEA 0183 GGA sentence. It covers the XOR checksum and its hexadecimal comparison, coordinates in degrees and minutes, fixed-index field decoding, and line framing.
  - `EmlParser`: the comma-separated EML reading, the frequency read from the leading digits of its token, and the frequency display.
  - `JsonStream`: recovery of JSON objects (RFC 8259 section 4) from a stream that may be corrupted. It covers the `}{` split, the brace scan that knows about strings and escapes (RFC 8259 section 7), the leading-garbage cut and the 200 KiB cap. `JsonStreamExamples` restates the repository's own test cases as lemmas.
- **Connection lifecycle managers.** `GpsService` and `EmlService` are classes holding:
  - the connection state machine;
  - the capped backoff schedule and the reconnection timers;
  - the newline-delimited receive buffer;
  - the subscriber registry, which isolates errors per handler.

  Every Vue watcher callback and every timer firing is a method, and every transport outcome is a parameter. `Lifecycle` holds what both managers share: the delay schedule, the subscriber map, and the delivery of records to subscribers.
- **Transports and Bluetooth connections.** `GpsTransport`, `EmlTransport` (server first, client as the fallback), `ServerConnection`, `SppConnection`, `BleConnection` (service and characteristic selection, scan de-duplication) and `SimulatedConnection` (the injection interval and the sentences it generates). Each is a class over its flags; the native plugin's answers are parameters.
- **Stores and utilities.** `UserSettings` (setters that roll back when storage fails), `MultiSelect`, `ActiveLayer`, `Toast`, `SystemLogger` (bounded buffers, sampling of 1 in 1000), `Debounce`, `Permissions`, `ProjectFields`, `ObjectUtils`, `ProjectUtils`, `ProjectsStorage`, `DebugFileManager`, `Base64` (RFC 4648 section 4), `FixQuality`, `EmlLogger` and `EmlRecorder`.
- **Shared helpers.** `Text` models the JavaScript string and number built-ins the code relies on (`trim`, `split`, `indexOf`, `substring`, `parseInt`, `parseFloat` on decimal notation). `Sorting` models `sort` with a key comparator. `Bluetooth` and `ProjectTypes` hold the shared records.

Four behaviours of the managers are worth knowing when reading the model:

- `cancelReconnection` resets the attempt count to 0 whenever it clears a pending timer (src/services/gps/useGpsService.ts:169-177, src/services/eml/useEmlService.ts:169-177).
- The GPS manager has no guard against a second reconnection timer; the EML manager's `isReconnecting` flag is that guard (see Findings).
- The GPS and EML line buffers grow without a cap (src/services/gps/useGpsService.ts:57-61, src/services/eml/useEmlService.ts:63-70). Only the JSON recovery parser caps its buffer, at 200 KiB (src/generic/utils/jsonStreamParser.ts:30-50).
- `disconnect` empties the line buffer only after the transport's disconnect resolves; when it rejects, the buffer keeps its text while the state still becomes DISCONNECTED (src/services/gps/useGpsService.ts:139-156, src/services/eml/useEmlService.ts:139-155).

## Model

| member | source | states |
|---|---|---|
| JsonStream.DecodeObject | src/generic/utils/jsonStreamParser.ts:14-17 | a decode is kept exactly when it yields an object (not null, not an array, not a primitive) |
| JsonStream.CloseBrace | src/generic/utils/jsonStreamParser.ts:202-240 | the inner scan returns -1 or the index of a `}` at or after its start |
| JsonStream.CloseBraceBalanced | src/generic/utils/jsonStreamParser.ts:197-240 | from an open brace, the close found is the first point where the depth counted outside strings returns to zero; without a close the depth stays positive to the end |
| JsonStream.QuotedBracesIgnored | src/generic/utils/jsonStreamParser.ts:218-239 | inside a string, text without quotes or backslashes leaves the scan state unchanged, so braces there do not count |
| JsonStream.EscapeSkipsNext | src/generic/utils/jsonStreamParser.ts:206-216 | a backslash makes the scan skip the next character, so an escaped quote does not toggle string mode |
| JsonStream.FindCloseBrace | src/generic/utils/jsonStreamParser.ts:197-240 | the loop with its `continue` and `break` computes the inner scan's close index |
| JsonStream.NextRound | src/generic/utils/jsonStreamParser.ts:194-270 | a round either stops, moves strictly forward within the text, or takes an object decoded from the text between a `{` and a `}` at or after the index |
| JsonStream.EmbeddedInText | src/generic/utils/jsonStreamParser.ts:242-256 | every recovered object is the object its own brace-delimited text decodes to, at or after the start index |
| JsonStream.EmbeddedOrdered | src/generic/utils/jsonStreamParser.ts:255-269 | recovered objects come left to right and do not overlap |
| JsonStream.EmbeddedObjects | src/generic/utils/jsonStreamParser.ts:250-253 | every record the scan recovers is an object |
| JsonStream.ScanRound | src/generic/utils/jsonStreamParser.ts:194-270 | one round of the outer loop as written computes the round function |
| JsonStream.EmbeddedIntoStep | src/generic/utils/jsonStreamParser.ts:192-271 | how each kind of round advances the pushed list: stop keeps it, skip moves on, take appends the record and resumes after its close |
| JsonStream.ExtractEmbeddedJson | src/generic/utils/jsonStreamParser.ts:181-274 | the list gains exactly the recovered objects, in order, and the count returned is their number |
| JsonStream.TryParseObjects | src/generic/utils/jsonStreamParser.ts:149-179 | whatever a piece adds is an object |
| JsonStream.TryParseDecoded | src/generic/utils/jsonStreamParser.ts:153-164 | a piece that decodes is added as that one record when it is an object, and adds nothing otherwise, without recovery |
| JsonStream.TryParseAndAdd | src/generic/utils/jsonStreamParser.ts:149-179 | the list gains the piece's records and the result is true exactly when it gained any |
| JsonStream.IndexOfBoundary | src/generic/utils/jsonStreamParser.ts:111 | the search returns the first `}{` at or after its start, or -1 when there is none |
| JsonStream.IndexOfBoundaryIsIndexOf | src/generic/utils/jsonStreamParser.ts:111 | the pair search agrees with the general substring search for `}{` |
| JsonStream.HasBoundaryIsIncludes | src/generic/utils/jsonStreamParser.ts:88 | the pattern test agrees with `includes('}{')` |
| JsonStream.BoundaryIsPair | src/generic/utils/jsonStreamParser.ts:106-115 | every boundary collected is a `}{` pair at or after the start |
| JsonStream.PairIsBoundary | src/generic/utils/jsonStreamParser.ts:106-115 | every `}{` pair at or after the start is collected, overlapping ones included |
| JsonStream.BoundariesExact | src/generic/utils/jsonStreamParser.ts:106-115 | the boundaries are exactly the `}{` pairs |
| JsonStream.BoundariesIncreasing | src/generic/utils/jsonStreamParser.ts:106-115 | the boundaries come in strictly increasing order |
| JsonStream.FindBoundaries | src/generic/utils/jsonStreamParser.ts:106-115 | the `while` loop collects the boundary list |
| JsonStream.PieceRecordsObjects | src/generic/utils/jsonStreamParser.ts:121-132 | whatever the pieces between boundaries yield is an object |
| JsonStream.ParsePiece | src/generic/utils/jsonStreamParser.ts:123-131 | one round tries the piece up to the boundary and moves the cursor past it whether or not it yielded a record |
| JsonStream.ParseBetweenBoundaries | src/generic/utils/jsonStreamParser.ts:117-132 | the `for` loop yields the records of every piece and leaves the cursor after the last boundary |
| JsonStream.CompleteObjectsAreObjects | src/generic/utils/jsonStreamParser.ts:83-147 | every record of the final parse is an object |
| JsonStream.CompleteObjectsSuffix | src/generic/utils/jsonStreamParser.ts:99-103 | the remaining buffer is a suffix of the input |
| JsonStream.NoPatternAllOrNothing | src/generic/utils/jsonStreamParser.ts:92-104 | without a `}{` and a final `}`, the buffer is either consumed whole by the recovery scan or kept whole |
| JsonStream.UnopenedBufferKept | src/generic/utils/jsonStreamParser.ts:117-144 | a buffer that reaches the splitting stage without a leading `{` yields no record and is kept as it is |
| JsonStream.TryParseCompleteObjects | src/generic/utils/jsonStreamParser.ts:83-147 | the method as written computes the records and the remainder of the final parse |
| JsonStream.CleanupSuffix | src/generic/utils/jsonStreamParser.ts:53-72 | cleanup only drops a prefix |
| JsonStream.CleanupStartsWithBrace | src/generic/utils/jsonStreamParser.ts:53-72 | after cleanup a buffer holding a `{` starts with one, and a buffer without one is unchanged |
| JsonStream.ShrinkBounds | src/generic/utils/jsonStreamParser.ts:38-50 | the overflow strategy leaves a suffix within the cap |
| JsonStream.ReduceOverflowBounds | src/generic/utils/jsonStreamParser.ts:34-51 | after the overflow strategy the buffer is within the cap and a suffix of what it was |
| JsonStream.PreparedBounds | src/generic/utils/jsonStreamParser.ts:30-72 | the buffer handed to the final parse is a suffix of the input and within the cap |
| JsonStream.PreparedObjects | src/generic/utils/jsonStreamParser.ts:38-44 | the records the overflow strategy recovers are objects |
| JsonStream.ParseStreamBounds | src/generic/utils/jsonStreamParser.ts:28-81 | every record is an object, and the remainder is a suffix of the input no longer than 200 * 1024 |
| JsonStream.ReduceBufferOverflow | src/generic/utils/jsonStreamParser.ts:34-51 | the overflow block as written computes the overflow strategy |
| JsonStream.CleanupBuffer | src/generic/utils/jsonStreamParser.ts:53-72 | the leading-garbage block as written computes the cleanup |
| JsonStream.ParseJsonStream | src/generic/utils/jsonStreamParser.ts:28-81 | the function as written computes the stream parse |
| JsonStreamExamples.PlainRun | src/generic/utils/jsonStreamParser.ts:224-239 | outside a string, text without braces, quotes or backslashes leaves the scan where it was |
| JsonStreamExamples.QuotedRun | src/generic/utils/jsonStreamParser.ts:218-222 | a quoted string without escapes is passed over, braces inside it included |
| JsonStreamExamples.PairScan | src/generic/utils/jsonStreamParser.ts:202-240 | the scan over a one-member object closes at its end from depth 0 and passes over it at the same depth from deeper levels |
| JsonStreamExamples.GarbagePrefix | src/generic/utils/jsonStreamParser.ts:53-72 | a prefix without braces before an object is cut at the object's `{` |
| JsonStreamExamples.OnePiece | src/generic/utils/jsonStreamParser.ts:117-144 | a buffer from `{` to `}` without `}{` is tried whole and consumed whole when that yields a record |
| JsonStreamExamples.SplitOnce | src/generic/utils/jsonStreamParser.ts:117-144 | with a single `}{`, the two sides are tried; the second only when the buffer ends in `}` and it is kept otherwise |
| JsonStreamExamples.SingleCompleteObject | src/generic/utils/jsonStreamParser.test.ts:13-18 | one object: it is taken and nothing is left |
| JsonStreamExamples.EmptyBuffer | src/generic/utils/jsonStreamParser.test.ts:34-39 | the empty buffer yields no records and leaves nothing, whatever the decoder |
| JsonStreamExamples.TwoCompleteObjects | src/generic/utils/jsonStreamParser.test.ts:20-25 | two adjacent objects: both are taken, in order, and nothing is left |
| JsonStreamExamples.IncompleteKept | src/generic/utils/jsonStreamParser.test.ts:41-46 | an open object without `}` yields nothing and stays whole, whatever the decoder |
| JsonStreamExamples.CorruptedPrefix | src/generic/utils/jsonStreamParser.test.ts:51-56 | leading garbage is dropped and the object taken |
| JsonStreamExamples.DeeplyNestedEmbedded | src/generic/utils/jsonStreamParser.test.ts:89-94 | the buffer does not decode; the recovery scan takes the two well-formed objects, in order, and nothing is left |
| JsonStreamExamples.PartialObjectKept | src/generic/utils/jsonStreamParser.test.ts:181-186 | the complete object is taken and the partial one kept |
| NmeaParser.CalculateChecksum | src/services/gps/utils/nmeaParser.ts:57-67 | the XOR of the UTF-16 code units of the whole sentence, as upper-case hexadecimal padded to two digits |
| NmeaParser.XorCodes | src/services/gps/utils/nmeaParser.ts:59-64 | the loop's accumulator is the XOR of the UTF-16 code units of the characters read so far, so it ends as the XOR over the whole sentence |
| NmeaParser.Hex | src/services/gps/utils/nmeaParser.ts:66 | `toString(16).toUpperCase()` is a non-empty string of upper-case hexadecimal digits |
| NmeaParser.HexValueOf | src/services/gps/utils/nmeaParser.ts:66 | the hexadecimal rendering of a number reads back as that number |
| NmeaParser.ChecksumConcat | src/services/gps/utils/nmeaParser.ts:59-64 | the checksum of a concatenation is the XOR of the two checksums |
| NmeaParser.ChecksumBelow256 | src/services/gps/utils/nmeaParser.ts:59-64 | text whose codes are all below 256 has a checksum below 256 |
| NmeaParser.ChecksumTextTwoDigits | src/services/gps/utils/nmeaParser.ts:57-67 | for codes below 256 the checksum text is exactly two upper-case hexadecimal digits whose value is the XOR |
| NmeaParser.VerifyWithoutStar | src/services/gps/utils/nmeaParser.ts:77-82 | a sentence without '*' never verifies |
| NmeaParser.VerifyFramed | src/services/gps/utils/nmeaParser.ts:75-89 | `'$' + d + '*' + p + tail` (no '*' in d, two characters in p) verifies exactly when p, upper-cased as `toUpperCase` does it, is the checksum text of d, whatever its width |
| NmeaParser.VerifyFramedShort | src/services/gps/utils/nmeaParser.ts:75-89 | `'$' + d + '*' + c` (no '*' in d) verifies exactly when the one character c, upper-cased as `toUpperCase` does it, is the checksum text of d |
| NmeaParser.LigatureChecksumAccepted | src/services/gps/utils/nmeaParser.ts:85-88 | a lone 'ﬀ' after the '*' is accepted for a checksum of FF, since `toUpperCase` turns it into "FF" |
| NmeaParser.WideChecksumLigature | src/services/gps/utils/nmeaParser.ts:84-88 | beside a three- or four-digit checksum the window "aﬀ" passes for AFF and "ﬀﬀ" for FFFF, since the whole upper case is compared |
| NmeaParser.HexWindowCharacters | src/services/gps/utils/nmeaParser.ts:88 | a window whose upper case is hexadecimal holds only hexadecimal digits of either case and 'ﬀ' |
| Text.UpperCase | src/services/gps/utils/nmeaParser.ts:88 | `toUpperCase` concatenates the characters' full upper cases: the simple mapping on text without 'ﬀ', at most twice as long |
| NmeaParser.VerifyRoundTrip | src/services/gps/utils/nmeaParser.ts:75-89 | data framed with its own checksum verifies, in upper or lower case, whatever follows the two digits |
| NmeaParser.VerifyMismatch | src/services/gps/utils/nmeaParser.ts:75-89 | two hexadecimal digits of any other value are rejected |
| NmeaParser.ParseCoordinate | src/services/gps/utils/nmeaParser.ts:35-49 | an empty coordinate, or one no longer than its degree digits (the minutes are then empty and do not parse), gives null |
| NmeaParser.CoordinateDecimalDegrees | src/services/gps/utils/nmeaParser.ts:35-49 | two (latitude) or three (longitude) degree digits plus minutes/60; minutes in [0, 60) keep the value in [degrees, degrees + 1) |
| NmeaParser.WithoutChecksum | src/services/gps/utils/nmeaParser.ts:147-150 | the text before the first '*', a prefix of the sentence without '*' |
| NmeaParser.OptionalFloat | src/services/gps/utils/nmeaParser.ts:178-181 | an empty field gives null, any other is parsed |
| NmeaParser.DecodeFields | src/services/gps/utils/nmeaParser.ts:159-229 | the record keeps the trimmed sentence and its checksum verdict; isValid holds exactly when the checksum is valid, the fix quality is above 0 and both coordinates are present |
| NmeaParser.ParseNmeaGga | src/services/gps/utils/nmeaParser.ts:136-230 | the not-GGA error exactly when the trimmed sentence lacks a leading '$' or "GGA"; the field-count error exactly when a GGA sentence has fewer than 15 fields before '*'; otherwise the decoded record, with isValid as above |
| NmeaParser.ChecksumMismatchInvalid | src/services/gps/utils/nmeaParser.ts:204-207 | a failed checksum always yields isValid = false |
| NmeaParser.GgaCoordinates | src/services/gps/utils/nmeaParser.ts:183-202 | latitude from fields 2 and 3, negated exactly for "S"; longitude from fields 4 and 5, negated exactly for "W"; absent when a field is empty or does not parse |
| NmeaParser.GgaEmptyOptionalFields | src/services/gps/utils/nmeaParser.ts:160-181 | HDOP, altitude, geoidal separation and DGPS age are null exactly when their fields are empty; utcTime is field 1 |
| NmeaParser.GgaMessageId | src/services/gps/utils/nmeaParser.ts:159 | the message id is field 0 without its leading '$' |
| NmeaParser.Extract | src/services/gps/utils/nmeaParser.ts:241-259 | the remainder holds no '\n' |
| NmeaParser.ExtractNmeaSentences | src/services/gps/utils/nmeaParser.ts:241-259 | the while loop returns exactly the sentences and remainder of `Extract` |
| NmeaParser.Candidates | src/services/gps/utils/nmeaParser.ts:249-255 | every kept line starts with '$' and contains '*' |
| NmeaParser.ExtractBySplit | src/services/gps/utils/nmeaParser.ts:241-259 | the remainder is the text after the last '\n' and the sentences are the candidate lines among the complete lines, in order |
| EmlParser.ParseFrequency | src/services/eml/utils/emlParser.ts:25-29 | no leading digit gives 0 |
| EmlParser.ParseFrequencyPrefix | src/services/eml/utils/emlParser.ts:25-29 | a decimal rendering followed by a suffix that does not start with a digit reads back as the number |
| EmlParser.DigitPrefixStops | src/services/eml/utils/emlParser.ts:27 | the leading digit run of digits followed by a non-digit is exactly those digits |
| EmlParser.ParseFrequencyExample | src/services/eml/utils/emlParser.ts:22-29 | "200000Hz" gives 200000 |
| EmlParser.FormatUnit | src/services/eml/utils/emlParser.ts:34-45 | " MHz" from 1 000 000 Hz, " kHz" from 1000 Hz, otherwise the number and " Hz" |
| EmlParser.FormatWholeUnits | src/services/eml/utils/emlParser.ts:38-42 | whole multiples of the unit are shown without a decimal |
| EmlParser.FormatExamples | src/services/eml/utils/emlParser.ts:31-45 | 200000 is "200 kHz", 1500000 is "1.5 MHz", 999 is "999 Hz", 33000 is "33 kHz" |
| EmlParser.TenthsNearestMega | src/services/eml/utils/emlParser.ts:38 | the one-decimal MHz value lies within half a tenth of hz / 1 000 000 |
| EmlParser.TenthsNearestKilo | src/services/eml/utils/emlParser.ts:42 | the one-decimal kHz value lies within half a tenth of hz / 1000 |
| EmlParser.OneDecimalDigits | src/services/eml/utils/emlParser.ts:38-42 | the one-decimal text is the integer part, '.', and the last digit of the tenths |
| EmlParser.ParseEmlString | src/services/eml/utils/emlParser.ts:53-102 | valid exactly for non-empty text with at least 14 comma fields; otherwise the invalid record (numbers 0, strings '', display '-'); a valid record's display is the formatted frequency |
| EmlParser.ValidFields | src/services/eml/utils/emlParser.ts:9-20 | mode is field 2, the frequency comes from field 3, the units from fields 8, 10 and 12; depth, current and signal are the numbers their fields parse to, and 0 when a field is not numeric |
| EmlParser.ShortInputInvalid | src/services/eml/utils/emlParser.ts:73-78 | text with fewer than 13 commas gives the invalid record |
| SimulatedConnection.GeneratedSentenceVerifies | src/services/bluetooth/implementations/SimulatedBluetoothConnection.ts:130-173 | every generated GGA sentence is `$`, its data, `*`, a two-digit upper-case hexadecimal checksum and CRLF, and the GGA parser's checksum test accepts it |
| SimulatedConnection.FramedSentenceVerifies | src/services/bluetooth/implementations/SimulatedBluetoothConnection.ts:157-172 | any data without `*` and with codes below 256, framed with its own checksum, passes the checksum test |
| SimulatedConnection.SentenceDataPlain | src/services/bluetooth/implementations/SimulatedBluetoothConnection.ts:154 | the sentence data holds no `*` and only codes below 256 when its fields do |
| SimulatedConnection.Connection.constructor | src/services/bluetooth/implementations/SimulatedBluetoothConnection.ts:13-16 | disconnected, not reading, no interval, no callbacks fired |
| SimulatedConnection.Connection.Connect | src/services/bluetooth/implementations/SimulatedBluetoothConnection.ts:23-34 | a no-op when connected; otherwise connected with `onConnect` fired once |
| SimulatedConnection.Connection.Send | src/services/bluetooth/implementations/SimulatedBluetoothConnection.ts:36-46 | fails with `onError` and the disconnected message while disconnected, succeeds silently otherwise |
| SimulatedConnection.Connection.Read | src/services/bluetooth/implementations/SimulatedBluetoothConnection.ts:48-65 | fails with `onError` while disconnected; a no-op while reading; otherwise reading with a fresh interval; the invariant is kept |
| SimulatedConnection.Connection.StopReading | src/services/bluetooth/implementations/SimulatedBluetoothConnection.ts:67-71 | not reading and no interval |
| SimulatedConnection.Connection.Disconnect | src/services/bluetooth/implementations/SimulatedBluetoothConnection.ts:73-85 | a no-op when not connected; otherwise reading stops, the connection drops, then `onDisconnect` fires |
| SimulatedConnection.Connection.StartDataInjection | src/services/bluetooth/implementations/SimulatedBluetoothConnection.ts:100-111 | arms a fresh interval only when none exists |
| SimulatedConnection.Connection.StopDataInjection | src/services/bluetooth/implementations/SimulatedBluetoothConnection.ts:113-120 | no interval afterwards |
| SimulatedConnection.Connection.InjectionTick | src/services/bluetooth/implementations/SimulatedBluetoothConnection.ts:104-110 | a firing sends the encoded sentence to `onData` only while connected and reading, and in every reachable state it does |
| SimulatedConnection.Connection.ListAvailableDevices | src/services/bluetooth/implementations/SimulatedBluetoothConnection.ts:87-98 | the three simulated devices, each with a name and an address, with distinct ids |
| SppConnection.ToBluetoothDevice | src/services/bluetooth/implementations/CapacitorBluetoothSPPConnection.ts:208-212 | a listed device takes its id, or its address when the id is empty, keeps its name and carries its address |
| SppConnection.MapDevices | src/services/bluetooth/implementations/CapacitorBluetoothSPPConnection.ts:208-212 | the mapped list has one listed device per plugin device, in order |
| SppConnection.ListAvailableDevices | src/services/bluetooth/implementations/CapacitorBluetoothSPPConnection.ts:193-219 | fails when Bluetooth is off or either listing fails, with that error; otherwise the paired devices then the unpaired ones, each mapped |
| SppConnection.Connection.constructor | src/services/bluetooth/implementations/CapacitorBluetoothSPPConnection.ts:14-17 | disconnected, no device, not subscribed, no callbacks fired |
| SppConnection.Connection.Connect | src/services/bluetooth/implementations/CapacitorBluetoothSPPConnection.ts:24-66 | succeeds exactly when Bluetooth is on and the plugin connects, then connected to that id with `onConnect`; Bluetooth off fires `onError` twice and clears the state; a plugin error clears the state and fires `onError` once |
| SppConnection.Connection.Send | src/services/bluetooth/implementations/CapacitorBluetoothSPPConnection.ts:68-92 | refused with `onError` unless connected with a device id; otherwise the plugin's answer, a write error firing `onError` |
| SppConnection.Connection.Read | src/services/bluetooth/implementations/CapacitorBluetoothSPPConnection.ts:94-125 | refused with `onError` unless connected with a device id; otherwise subscribed, and a no-op when already subscribed |
| SppConnection.Connection.RawDataReceived | src/services/bluetooth/implementations/CapacitorBluetoothSPPConnection.ts:114-118 | a data chunk goes to `onData` |
| SppConnection.Connection.SubscriptionFailed | src/services/bluetooth/implementations/CapacitorBluetoothSPPConnection.ts:119-123 | a subscription error unsubscribes and fires `onError` |
| SppConnection.Connection.StopReading | src/services/bluetooth/implementations/CapacitorBluetoothSPPConnection.ts:127-147 | unsubscribed when subscribed with a device id, whichever way the plugin answers; otherwise unchanged |
| SppConnection.Connection.Disconnect | src/services/bluetooth/implementations/CapacitorBluetoothSPPConnection.ts:149-191 | a no-op unless connected with a device id; otherwise unsubscribed and cleared whatever the plugin answers, with `onDisconnect` on success and `onError` twice on failure |
| BleConnection.FindFirst | src/services/bluetooth/implementations/CapacitorBluetoothBLEConnection.ts:43-56 | `find` returns the first element satisfying the test, and none exactly when no element does |
| BleConnection.SelectServiceChoice | src/services/bluetooth/implementations/CapacitorBluetoothBLEConnection.ts:43-50 | a service is found exactly when some service has a write-and-notify characteristic or the preferred UUID; the first capable service wins, and the UUID match is only a fallback |
| BleConnection.SelectCharacteristicChoice | src/services/bluetooth/implementations/CapacitorBluetoothBLEConnection.ts:54-61 | no characteristic only for a service without any; a write-and-notify one is chosen exactly when the service has one |
| BleConnection.ScanListProperties | src/services/bluetooth/implementations/CapacitorBluetoothBLEConnection.ts:204-223 | the scan list has no duplicate ids, lists every named result's id, and holds only entries made from named results |
| BleConnection.Connection.constructor | src/services/bluetooth/implementations/CapacitorBluetoothBLEConnection.ts:16-20 | disconnected, no device id, the default service and characteristic UUIDs |
| BleConnection.Connection.Connect | src/services/bluetooth/implementations/CapacitorBluetoothBLEConnection.ts:27-78 | succeeds exactly when the plugin connects and a service and characteristic are found, then records them, sets the flag and fires `onConnect`; each failure (connect, service listing, no service, no characteristic) clears the flag and the id and fires `onError` once with its message |
| BleConnection.Connection.PeripheralDisconnected | src/services/bluetooth/implementations/CapacitorBluetoothBLEConnection.ts:31-36 | the plugin's disconnect callback clears the state and fires `onDisconnect` |
| BleConnection.Connection.Guard | src/services/bluetooth/implementations/CapacitorBluetoothBLEConnection.ts:82-94 | no error exactly when connected with a device id; the disconnected message takes precedence over the missing-device message |
| BleConnection.Connection.Send | src/services/bluetooth/implementations/CapacitorBluetoothBLEConnection.ts:80-111 | a guard failure fires `onError` and is returned; otherwise the write's answer, an error firing `onError` |
| BleConnection.Connection.Read | src/services/bluetooth/implementations/CapacitorBluetoothBLEConnection.ts:113-147 | a guard failure fires `onError` and is returned; otherwise the notification start's answer, an error firing `onError` |
| BleConnection.Connection.NotificationReceived | src/services/bluetooth/implementations/CapacitorBluetoothBLEConnection.ts:135-139 | a notification's bytes go to `onData` |
| BleConnection.Connection.Disconnect | src/services/bluetooth/implementations/CapacitorBluetoothBLEConnection.ts:171-198 | a no-op unless connected with a device id; success clears the state and fires `onDisconnect`; an error fires `onError` and leaves the state as it was |
| BleConnection.Connection.ListAvailableDevices | src/services/bluetooth/implementations/CapacitorBluetoothBLEConnection.ts:200-241 | a failure to start or to stop the scan is returned; otherwise the de-duplicated list of named results |
| ServerConnection.ToBluetoothDevice | src/services/bluetooth/implementations/CapacitorBluetoothServerConnection.ts:240-244 | a paired device is listed under its address as id, and an empty name becomes no name |
| ServerConnection.MapDevices | src/services/bluetooth/implementations/CapacitorBluetoothServerConnection.ts:240-244 | one listed device per paired device, in order |
| ServerConnection.Connection.constructor | src/services/bluetooth/implementations/CapacitorBluetoothServerConnection.ts:26-34 | not running, not connected, no listeners, not initialised, no chunks counted, not restarting, no timer |
| ServerConnection.Connection.EnsureInitialized | src/services/bluetooth/implementations/CapacitorBluetoothServerConnection.ts:44-66 | once initialised nothing is called again; otherwise initialise then enable, the flag set only when both succeed and the first error returned |
| ServerConnection.Connection.SetupDataListener | src/services/bluetooth/implementations/CapacitorBluetoothServerConnection.ts:254-317 | a data listener exists afterwards; a no-op when one existed; the connection-state listener is added only when the plugin accepts it |
| ServerConnection.Connection.RemoveListeners | src/services/bluetooth/implementations/CapacitorBluetoothServerConnection.ts:389-404 | neither listener exists afterwards, and each existing one was removed |
| ServerConnection.Connection.StartServer | src/services/bluetooth/implementations/CapacitorBluetoothServerConnection.ts:71-97 | success after initialisation, listener set-up and start sets the running flag and fires `onConnect`; a failure at any step fires `onError` with its message and leaves the flag as it was |
| ServerConnection.Connection.StopServer | src/services/bluetooth/implementations/CapacitorBluetoothServerConnection.ts:102-130 | a no-op when not running; otherwise the timer is cleared, and only a successful stop clears the flag, removes the listeners and fires `onDisconnect`; errors are swallowed |
| ServerConnection.Connection.Connect | src/services/bluetooth/implementations/CapacitorBluetoothServerConnection.ts:135-159 | success connects the client to that address and fires `onConnect`; a failure fires `onError` with its message |
| ServerConnection.Connection.Disconnect | src/services/bluetooth/implementations/CapacitorBluetoothServerConnection.ts:161-187 | a running server is stopped, a client disconnected, the listeners removed and `onDisconnect` fired, twice when the server stopped; a client disconnect error ends it early without firing; nothing is thrown |
| ServerConnection.Connection.Send | src/services/bluetooth/implementations/CapacitorBluetoothServerConnection.ts:189-212 | refused with "Not connected" unless a server runs or a client is connected; otherwise the decoded text goes to the plugin and its answer is returned |
| ServerConnection.Connection.ListAvailableDevices | src/services/bluetooth/implementations/CapacitorBluetoothServerConnection.ts:226-252 | an initialisation or scan failure is returned; otherwise the paired devices keyed by address |
| ServerConnection.Connection.DataReceived | src/services/bluetooth/implementations/CapacitorBluetoothServerConnection.ts:265-278 | one more chunk is counted, its encoding goes to `onData`, and a single fresh message-complete timer is pending |
| ServerConnection.Connection.ScheduleMessageComplete | src/services/bluetooth/implementations/CapacitorBluetoothServerConnection.ts:323-337 | the pending timer is cancelled before a fresh one is armed, so exactly one is pending |
| ServerConnection.Connection.MessageCompleteFires | src/services/bluetooth/implementations/CapacitorBluetoothServerConnection.ts:331-336 | the firing clears the handle, leaves no timer pending and requests a restart |
| ServerConnection.Connection.RestartServer | src/services/bluetooth/implementations/CapacitorBluetoothServerConnection.ts:342-387 | a restart begins only when none is in progress and the server runs |
| ServerConnection.Connection.RestartCompletes | src/services/bluetooth/implementations/CapacitorBluetoothServerConnection.ts:359-386 | the restart stops the server, ignoring an error, starts it again, and clears the restart flag either way |
| GpsTransport.Transport.constructor | src/services/gps/transports/BluetoothGpsTransport.ts:13-24 | no device connected and no calls made |
| GpsTransport.Transport.Connect | src/services/gps/transports/BluetoothGpsTransport.ts:26-48 | a missing device is refused with no change; otherwise the connection is asked for that id, its answer returned, and the device kept only when it connects |
| GpsTransport.Transport.Disconnect | src/services/gps/transports/BluetoothGpsTransport.ts:50-64 | a no-op without a device; otherwise the connection is asked and the device cleared only when it disconnects |
| GpsTransport.Transport.Read | src/services/gps/transports/BluetoothGpsTransport.ts:66-74 | forwarded to the connection only while a device is connected |
| GpsTransport.Transport.ListAvailableDevices | src/services/gps/transports/BluetoothGpsTransport.ts:76-84 | the connection's list, unchanged |
| GpsTransport.NewTransport | src/services/gps/transports/BluetoothGpsTransport.ts:16-24 | construction fails with "Bluetooth service must be provided" exactly when no connection is given; otherwise a fresh transport without a device |
| EmlTransport.Transport.constructor | src/services/eml/transports/BluetoothEmlTransport.ts:24-42 | keeps the two connections given; no device, not in server mode, no server started, no calls made |
| EmlTransport.Transport.Connect | src/services/eml/transports/BluetoothEmlTransport.ts:44-112 | a missing device is refused with no change; a running server only switches server mode on; otherwise the server is started with the flags set and all reset with the device on failure; without a startable server the client connects, keeping the device only on success; with neither, "No connection method available" and no device |
| EmlTransport.Transport.Disconnect | src/services/eml/transports/BluetoothEmlTransport.ts:114-144 | a no-op with no device and no server; otherwise the server is stopped in server mode, else the client disconnected, the server counts as stopped only after a successful stop, and the device and mode are always cleared |
| EmlTransport.Transport.Read | src/services/eml/transports/BluetoothEmlTransport.ts:154-163 | nothing without a device; otherwise forwarded to the connection of the current mode, if that connection exists |
| EmlTransport.Transport.ListAvailableDevices | src/services/eml/transports/BluetoothEmlTransport.ts:165-179 | the client's list, else the server's, else the empty list |
| EmlTransport.NewTransport | src/services/eml/transports/BluetoothEmlTransport.ts:30-42 | construction fails with "At least one Bluetooth service must be provided" exactly when neither connection is given; otherwise a fresh transport in the initial state |
| Permissions.State.constructor | src/services/bluetooth/initializeBluetoothPermissions.ts:4-5 | not initialised, not denied, the plugin not yet asked |
| Permissions.State.InitializeBluetoothPermissions | src/services/bluetooth/initializeBluetoothPermissions.ts:12-38 | off Android and iOS, or once initialised, nothing happens; otherwise the plugin is asked once, a success marks initialised and not denied, a failure marks denied and not initialised and is passed on; the two flags are never both set |
| Permissions.State.WasPermissionDenied | src/services/bluetooth/initializeBluetoothPermissions.ts:43-46 | the denial flag, which is never set while initialised |
| Permissions.InitializeOnce | src/services/bluetooth/initializeBluetoothPermissions.ts:19-29 | after one success on a mobile platform a second call asks nothing and no denial is reported, whatever the plugin would answer |
| GpsService.AcceptedFrom | src/services/gps/useGpsService.ts:63-85 | every fix handed to subscribers has a valid fix and a matching checksum, and is the parse of one of the framed GGA sentences |
| GpsService.AcceptedComplete | src/services/gps/useGpsService.ts:63-77 | every framed sentence that contains "GGA" and parses with a valid fix and checksum is handed to subscribers |
| GpsService.Service.constructor | src/services/gps/useGpsService.ts:22-32 | no timer, attempt 0, no transport, empty buffer, DISCONNECTED with no device, no subscribers |
| GpsService.Service.AtMostOneTimer | src/services/gps/useGpsService.ts:169-199 | while the service is consistent at most one reconnection timer is pending |
| GpsService.Service.DistributeGpsData | src/services/gps/useGpsService.ts:45-48 | every subscriber, in registration order, gets the fix once |
| GpsService.Service.DistributeFixes | src/services/gps/useGpsService.ts:63-91 | the accepted fixes of the sentences, in sentence order, each to every subscriber |
| GpsService.Service.HandleDataReceived | src/services/gps/useGpsService.ts:50-92 | the buffer keeps exactly the unterminated rest of the old buffer plus the new text, holds no newline, and the complete lines' accepted fixes go to all subscribers |
| GpsService.Service.HandleConnect | src/services/gps/useGpsService.ts:95-99 | CONNECTED, and reading is started exactly when a transport exists |
| GpsService.Service.HandleDisconnect | src/services/gps/useGpsService.ts:101-108 | from CONNECTED the state becomes DISCONNECTED with no device; in any other state nothing changes |
| GpsService.Service.HandleError | src/services/gps/useGpsService.ts:110-115 | always DISCONNECTED with no device |
| GpsService.Service.CreateTransportIfMissing | src/services/gps/useGpsService.ts:39-42 | a transport exists afterwards and is created only when there was none |
| GpsService.Service.ConnectToDevice | src/services/gps/useGpsService.ts:118-138 | the transport is created if missing and asked to connect; success records the device and resets the attempt count; failure leaves DISCONNECTED, the old device and the attempt count, and is reported |
| GpsService.Service.Disconnect | src/services/gps/useGpsService.ts:140-157 | always DISCONNECTED with no device; the transport, if any, is asked to disconnect, and the buffer is cleared only when that succeeds |
| GpsService.Service.CancelReconnection | src/services/gps/useGpsService.ts:169-177 | no timer is pending afterwards; the attempt count is reset only when a timer was pending |
| GpsService.Service.ScheduleReconnection | src/services/gps/useGpsService.ts:179-199 | a new timer for the device with the delay of the current attempt, under a fresh handle that replaces the old one without clearing it |
| GpsService.Service.ConnectOrRetry | src/services/gps/useGpsService.ts:257-267 | a failed connect leaves exactly one timer pending, for the same device with the current attempt's delay; a successful one none |
| GpsService.Service.FireReconnectionTimer | src/services/gps/useGpsService.ts:185-198 | the corrected firing: the attempt count rises by one, and a failure leaves exactly one timer, for the captured device with the next delay |
| GpsService.Service.FireReconnectionTimerInterleaved | src/services/gps/useGpsService.ts:127-136 | the firing as the code runs it: after a failed connect two timers are pending, both with the first delay, and the attempt count is back at 0 |
| GpsService.Service.OnConnectionTypeChange | src/services/gps/useGpsService.ts:232-273 | any pending reconnection is cancelled, which resets the attempt count only when a timer was pending; disabling disconnects a connected device and otherwise leaves the connection as it was; a selected device is connected with the count at 0, or on failure keeps the previous device and leaves exactly one timer for the new one |
| GpsService.Service.OnDeviceChange | src/services/gps/useGpsService.ts:276-326 | nothing changes while GPS is disabled; otherwise reconnection is cancelled (the attempt count reset only when a timer was pending) and the device switched as SwitchDevice states |
| GpsService.Service.SwitchDevice | src/services/gps/useGpsService.ts:286-323 | a connected old device is dropped; a new device is connected with the attempt count at 0, or on failure exactly one timer is left for it; with no new device the state is DISCONNECTED and no timer is pending; short of a successful connect, the attempt count is kept and the device is None if an old device was defined, unchanged otherwise |
| GpsService.Service.OnStateChange | src/services/gps/useGpsService.ts:329-344 | a reconnection from attempt 0 is scheduled exactly when the state becomes DISCONNECTED, GPS is enabled, a device is selected, no timer is pending and no device change is in progress; otherwise the timers are unchanged |
| GpsService.Service.OnlyTimer | src/services/gps/useGpsService.ts:169-199 | with the handle set, the pending timers are that one timer |
| GpsService.Service.ListAvailableDevices | src/services/gps/useGpsService.ts:389-397 | the transport is created if missing and its list returned unchanged |
| GpsService.Service.SubscribeToLocationData | src/services/gps/useGpsService.ts:355-377 | the registry gets the listener under the generated id, ids stay unique, and the id is returned |
| GpsService.Service.Unsubscribe | src/services/gps/useGpsService.ts:379-382 | exactly that id is removed and the ids stay unique |
| EmlService.Line | src/services/eml/useEmlService.ts:74-78 | a piece contributes its trimmed form, never empty, and nothing exactly when it is blank |
| EmlService.Frame | src/services/eml/useEmlService.ts:67-79 | the text kept in the buffer never holds a newline |
| EmlService.FrameNoNewline | src/services/eml/useEmlService.ts:61-70 | text without a newline is all kept and nothing is distributed |
| EmlService.FrameRemainder | src/services/eml/useEmlService.ts:67-70 | once a newline has arrived, the buffer keeps exactly the text after the last one |
| EmlService.FramedLinesFrom | src/services/eml/useEmlService.ts:72-79 | every distributed line is non-empty and is the trimmed form of a complete piece |
| EmlService.FramedLinesComplete | src/services/eml/useEmlService.ts:72-79 | every complete piece that is not blank is distributed, trimmed |
| EmlService.Service.constructor | src/services/eml/useEmlService.ts:26-38 | no timer, attempt 0, no reconnection in flight, no transport, empty buffer, DISCONNECTED with no device, no subscribers |
| EmlService.Service.AtMostOneTimer | src/services/eml/useEmlService.ts:181-220 | at most one reconnection timer is pending, and only while a reconnection is in flight |
| EmlService.Service.OnlyTimer | src/services/eml/useEmlService.ts:181-220 | with the handle set, the pending timers are that one timer |
| EmlService.Service.DistributeEmlData | src/services/eml/useEmlService.ts:51-54 | every subscriber, in registration order, gets the line once |
| EmlService.Service.DistributeLines | src/services/eml/useEmlService.ts:72-79 | the trimmed non-blank pieces, in order, each to every subscriber |
| EmlService.Service.HandleDataReceived | src/services/eml/useEmlService.ts:56-80 | the buffer keeps the text after the last newline of the old buffer plus the new text, and the framed lines go to every subscriber |
| EmlService.Service.HandleConnect | src/services/eml/useEmlService.ts:83-89 | the reconnection in flight is over, the state is CONNECTED, and reading starts exactly when a transport exists |
| EmlService.Service.CreateTransportIfMissing | src/services/eml/useEmlService.ts:45-48 | a transport exists afterwards and is created only when there was none |
| EmlService.Service.ConnectToDevice | src/services/eml/useEmlService.ts:110-135 | the transport is created if missing and asked to connect; success records the device and resets the attempt count; failure leaves DISCONNECTED, the old device and the attempt count, and is reported |
| EmlService.Service.Disconnect | src/services/eml/useEmlService.ts:137-157 | always DISCONNECTED with no device; the transport, if any, is asked to disconnect, and the buffer is cleared only when that succeeds |
| EmlService.Service.CancelReconnection | src/services/eml/useEmlService.ts:169-179 | no timer pending and no reconnection in flight afterwards; the attempt count is reset only when one of them was there |
| EmlService.Service.ScheduleReconnection | src/services/eml/useEmlService.ts:181-220 | skipped while a reconnection is in flight; otherwise the flag is raised and exactly one timer is pending, for the device with the current attempt's delay |
| EmlService.Service.FireReconnectionTimer | src/services/eml/useEmlService.ts:201-219 | the attempt count rises by one and the device captured by the timer is connected; on failure exactly one timer is pending, with the next delay, so the back-off grows |
| EmlService.Service.RetryAfterFailure | src/services/eml/useEmlService.ts:213-218 | after a failed timer attempt the state watcher stays idle and exactly one new timer is armed for the captured device with the current delay |
| EmlService.Service.ConnectOrRetry | src/services/eml/useEmlService.ts:298-309 | a failed connect leaves one reconnection in flight with exactly one timer for the same device; a successful one none |
| EmlService.Service.OnConnectionTypeChange | src/services/eml/useEmlService.ts:271-319 | any reconnection is cancelled, which resets the attempt count only when a timer was pending or a reconnection was in flight; disabling disconnects a connected device and otherwise leaves the connection as it was; a selected device is connected with the count at 0, or on failure keeps the previous device and leaves exactly one timer for the new one |
| EmlService.Service.OnDeviceChange | src/services/eml/useEmlService.ts:322-379 | nothing changes while EML is disabled; otherwise reconnection is cancelled (the attempt count reset only when a timer was pending or a reconnection in flight) and the device switched as SwitchDevice states |
| EmlService.Service.SwitchDevice | src/services/eml/useEmlService.ts:338-374 | a connected old device is dropped; a new device is connected with the attempt count at 0, or on failure exactly one timer is left for it; with no new device the state is DISCONNECTED with nothing in flight; short of a successful connect, the attempt count is kept and the device is None if an old device was defined, unchanged otherwise |
| EmlService.Service.OnStateChange | src/services/eml/useEmlService.ts:382-402 | a reconnection from attempt 0 is scheduled exactly when the state becomes DISCONNECTED, EML is enabled, a device is selected, no reconnection is in flight and no device change is in progress; otherwise the timers are unchanged |
| EmlService.Service.ListAvailableDevices | src/services/eml/useEmlService.ts:447-455 | the transport is created if missing and its list returned unchanged |
| EmlService.Service.SubscribeToData | src/services/eml/useEmlService.ts:413-435 | the registry gets the listener under the generated id, ids stay unique, and the id is returned |
| EmlService.Service.Unsubscribe | src/services/eml/useEmlService.ts:437-440 | exactly that id is removed and the ids stay unique |
| Lifecycle.DelayBounds | src/services/gps/useGpsService.ts:35-36 | every reconnection delay lies between one second and the ten-second maximum |
| Lifecycle.DelayMonotone | src/services/gps/useGpsService.ts:160-167 | a later attempt never waits less than an earlier one |
| Lifecycle.DelaySchedule | src/services/gps/useGpsService.ts:35-36 | the first delay is one second, it doubles over the first attempts, and from the fifth attempt on it is the maximum |
| Lifecycle.Put | src/services/gps/useGpsService.ts:377 | the callback map's set: an existing id keeps its place and gets the new listener, a new id goes last, and ids stay unique |
| Lifecycle.Remove | src/services/gps/useGpsService.ts:381 | the callback map's delete: no entry with that id remains, and nothing is added |
| Lifecycle.RemoveAbsent | src/services/gps/useGpsService.ts:381 | deleting an id that is not registered changes nothing |
| Lifecycle.RemoveKeepsOthers | src/services/gps/useGpsService.ts:381 | every entry with another id is kept, and only those |
| Lifecycle.RemoveSubset | src/services/gps/useGpsService.ts:381 | every entry left after a delete was registered before it |
| Lifecycle.RemoveUnique | src/services/gps/useGpsService.ts:381 | a delete keeps the ids unique |
| Lifecycle.DeliverEach | src/services/gps/useGpsService.ts:45-48 | every subscriber gets the datum, in registration order, with its own handler's outcome, whatever the other handlers do |
| Lifecycle.DeliverLength | src/services/gps/useGpsService.ts:45-48 | one outcome per subscriber |
| Lifecycle.DeliverAllConcat | src/services/gps/useGpsService.ts:63-91 | handing over one batch of data and then another is the same as handing over both in one go |
| Lifecycle.DeliverAllLength | src/services/gps/useGpsService.ts:63-91 | every datum reaches every subscriber once |
| Base64.DecodeDigit | src/services/files/utils/base64.ts:29 | a character's digit value, when it has one, is below 64 and encodes back to that character |
| Base64.DigitRoundTrip | src/services/files/utils/base64.ts:21 | every digit value decodes back from its character |
| Base64.Encode | src/services/files/utils/base64.ts:21 | the encoding of n bytes is 4 times the ceiling of n divided by 3 characters long |
| Base64.SextetsLength | src/services/files/utils/base64.ts:21 | whole groups of three bytes give four digits, a last one or two bytes two or three, and the padding fills up to a multiple of four |
| Base64.Btoa | src/services/files/utils/base64.ts:21 | encoding fails exactly when some character is above U+00FF |
| Base64.BinaryString | src/services/files/utils/base64.ts:16-19 | one character per byte, whose code is that byte |
| Base64.BytesOfSextets | src/services/files/utils/base64.ts:29 | reading the 6-bit groups back as bytes gives the bytes they came from |
| Base64.ValuesOfDigits | src/services/files/utils/base64.ts:29 | reading the digits back gives their values |
| Base64.StripEncoding | src/services/files/utils/base64.ts:29 | dropping an encoding's padding leaves exactly its digits |
| Base64.DecodeEncode | src/services/files/utils/base64.ts:21-29 | decoding an encoding gives back the bytes |
| Base64.AtobBtoa | src/services/files/utils/base64.ts:11-38 | the binary string of any bytes survives btoa then atob |
| Base64.Uint8ArrayToBase64 | src/services/files/utils/base64.ts:11-22 | the RFC 4648 encoding of the array's bytes |
| Base64.Base64ToUint8Array | src/services/files/utils/base64.ts:27-38 | fails exactly when the text is not valid forgiving base64; otherwise a fresh array holding the decoded bytes |
| DebugFileManager.ReadFile | src/services/files/implementations/DebugFileManager.ts:67-79 | a read fails only on stored text that is not base64, never for files this manager wrote; a file it reads is stored and its text decodes to those bytes |
| DebugFileManager.ReadAfterSave | src/services/files/implementations/DebugFileManager.ts:27-33 | reading a saved file gives back its bytes, an empty file reading as missing, and saving keeps every stored text decodable |
| DebugFileManager.AppendAddsText | src/services/files/implementations/DebugFileManager.ts:41-58 | after an append the file's text is its old text followed by the new data, whenever the text codecs undo each other on that content |
| DebugFileManager.AppendAloneAdds | src/services/files/implementations/DebugFileManager.ts:41-58 | an append that reads and writes the same state adds its data at the end and keeps every stored text decodable |
| DebugFileManager.OverlappedKeepsLast | src/services/files/implementations/DebugFileManager.ts:47-58 | appends started together all read the old text, so the file ends holding the old text and the last piece only |
| DebugFileManager.OverlappedLosesFirst | src/services/files/implementations/DebugFileManager.ts:47-58 | two overlapping appends of a non-empty first line and a second line leave the old text and the second line, without the first |
| DebugFileManager.SequentialKeepsAll | src/services/files/implementations/DebugFileManager.ts:41-58 | appends that each finish before the next begins leave the old text followed by every piece in order, and the store decodable |
| DebugFileManager.PathPrefix | src/services/files/implementations/DebugFileManager.ts:99 | the path with a trailing slash |
| DebugFileManager.FirstSegment | src/services/files/implementations/DebugFileManager.ts:115-116 | the first segment holds no slash |
| DebugFileManager.Directories | src/services/files/implementations/DebugFileManager.ts:109-125 | each non-empty first segment below the prefix appears once, and nothing else appears |
| DebugFileManager.FileManager.constructor | src/services/files/implementations/DebugFileManager.ts:16-20 | no files stored |
| DebugFileManager.FileManager.Save | src/services/files/implementations/DebugFileManager.ts:27-39 | the file holds the base64 text of the bytes and no other file changes |
| DebugFileManager.FileManager.Append | src/services/files/implementations/DebugFileManager.ts:41-65 | fails, writing nothing, exactly when the stored text does not decode; otherwise the file holds the encoding of its old text followed by the data; never fails on files this manager wrote |
| DebugFileManager.FileManager.Read | src/services/files/implementations/DebugFileManager.ts:67-79 | the bytes ReadFile gives, in a fresh array, nothing for a missing or empty file, and the read error with its message |
| DebugFileManager.FileManager.Delete | src/services/files/implementations/DebugFileManager.ts:81-92 | the file is gone and every other file is unchanged |
| DebugFileManager.FileManager.ListDirectory | src/services/files/implementations/DebugFileManager.ts:94-136 | the folder-missing error exactly when no key lies below the path; otherwise the distinct non-empty first segments below it, in key order |
| EmlLogger.GetLogFilePath | src/services/eml/useEmlLogger.ts:25-33 | a path exactly when a project is open, of the form projects/ id /eml.txt |
| EmlLogger.LineBodyFields | src/services/eml/useEmlLogger.ts:14 | in a record the first comma ends the timestamp, which reads back as the number, and the rest is the data |
| EmlLogger.Bodies | src/services/eml/useEmlLogger.ts:45 | one record text per record, in order |
| EmlLogger.LogTextSplits | src/services/eml/useEmlLogger.ts:14 | a log of lines without newlines splits at newlines back into its records, with an empty piece after the last newline |
| EmlLogger.LogLinesText | src/services/eml/useEmlLogger.ts:44-45 | the records' log lines one after another are the log text |
| EmlLogger.ChunkLogged | src/services/eml/useEmlLogger.ts:35-55 | a chunk's records logged one after another reach the log whole and in order, after the text it held |
| EmlLogger.Logger.constructor | src/services/eml/useEmlLogger.ts:18-23 | not subscribed |
| EmlLogger.Logger.HandleEmlData | src/services/eml/useEmlLogger.ts:35-55 | without a project nothing is written; otherwise the stamped record is appended to the project's log, and a failed append leaves the files as they were |
| EmlLogger.Logger.HandleEmlDataEach | src/services/eml/useEmlLogger.ts:35-55 | the corrected half of the Findings row: a chunk's records, each append finishing before the next, leave the log as the appends in order |
| EmlLogger.Logger.StartLogging | src/services/eml/useEmlLogger.ts:57-73 | a no-op while subscribed or without a project; otherwise the logger subscribes once and keeps the subscription |
| EmlLogger.Logger.StopLogging | src/services/eml/useEmlLogger.ts:75-83 | the subscription, if any, is removed from the service and forgotten |
| EmlLogger.Logger.ProjectChanged | src/services/eml/useEmlLogger.ts:86-100 | a project means logging, with the existing subscription kept; no project means not subscribed |
| EmlRecorder.GpsNmea | src/services/eml/useEmlRecorder.ts:70-72 | the last GPS sentence when it is under five seconds old, otherwise empty, and empty when there is none |
| EmlRecorder.AddReading | src/services/eml/useEmlRecorder.ts:93-103 | the reading is appended to every layer with the active id; every other layer, and every layer's id, name and visibility, are unchanged |
| EmlRecorder.AddReadingCount | src/services/eml/useEmlRecorder.ts:93-103 | recording adds exactly one reading per layer with the active id, and no other |
| EmlRecorder.AddReadingKeepsActiveLayer | src/services/eml/useEmlRecorder.ts:93-109 | the updated project keeps the same active layer, because no layer id changes |
| EmlRecorder.Recorder.constructor | src/services/eml/useEmlRecorder.ts:29-41 | not subscribed, no warning shown, no dialog opened, nothing saved |
| EmlRecorder.Recorder.HandleEmlData | src/services/eml/useEmlRecorder.ts:43-117 | without a project nothing happens; without an active layer the warning toast is shown once until a layer exists; otherwise the flag resets, the dialog shows the line, the GPS sentence and the layer name, and only a confirmed reading reaches the save callback, added to the active layer |
| EmlRecorder.Recorder.StartRecording | src/services/eml/useEmlRecorder.ts:119-135 | a no-op while subscribed or without a project; otherwise the recorder subscribes once and keeps the subscription |
| EmlRecorder.Recorder.StopRecording | src/services/eml/useEmlRecorder.ts:137-145 | the subscription, if any, is removed from the service and forgotten |
| EmlRecorder.Recorder.ProjectChanged | src/services/eml/useEmlRecorder.ts:148-162 | a project means recording, with the existing subscription kept; no project means not subscribed |
| UserSettings.UnitFromValue | src/common/stores/useUserSettingsStore.ts:6-12 | a text names a unit exactly when it is that unit's value |
| UserSettings.UnitRoundTrip | src/common/stores/useUserSettingsStore.ts:29-31 | every unit's stored value loads back as that unit |
| UserSettings.LoadDevice | src/common/stores/useUserSettingsStore.ts:35-39 | a missing or empty key gives no device |
| UserSettings.Load | src/common/stores/useUserSettingsStore.ts:23-59 | a stored unit is taken when it is a unit's value; a stored device replaces the current one; a device that fails to parse ends the load with the later settings unchanged; the connection type changes only to one of the enum's values |
| UserSettings.LoadEmpty | src/common/stores/useUserSettingsStore.ts:17-20 | empty storage loads the defaults |
| UserSettings.CorruptGpsDeviceHidesRest | src/common/stores/useUserSettingsStore.ts:25-58 | a stored GPS device that does not parse hides the EML device and the connection type stored after it |
| UserSettings.LoadTwice | src/common/stores/useUserSettingsStore.ts:23-59 | loading is idempotent |
| UserSettings.Store.constructor | src/common/stores/useUserSettingsStore.ts:14-20 | the defaults, then the load; what is stored then loads back as the current settings |
| UserSettings.Store.LoadFromStorage | src/common/stores/useUserSettingsStore.ts:23-59 | the settings become the load over them |
| UserSettings.Store.SetUnits | src/common/stores/useUserSettingsStore.ts:62-78 | a successful write sets the unit and its stored value; a failed one reverts the unit, stores nothing and is passed on; the stored settings still load back as the current ones |
| UserSettings.Store.SetSelectedBluetoothGpsDevice | src/common/stores/useUserSettingsStore.ts:80-104 | no device removes the key, a device stores its JSON; a failed write reverts and is passed on; the stored settings still load back when parsing undoes stringifying |
| UserSettings.Store.SetSelectedBluetoothEmlDevice | src/common/stores/useUserSettingsStore.ts:106-130 | as for the GPS device, under the EML key |
| UserSettings.Store.SetEmlConnectionType | src/common/stores/useUserSettingsStore.ts:132-148 | a successful write sets the type and its stored value; a failed one reverts and is passed on; a non-empty type still loads back |
| ProjectsStorage.LoadProject | src/features/projects/useProjectsStorage.ts:32-52 | one project folder never fails on files the manager wrote |
| ProjectsStorage.LoadAll | src/features/projects/useProjectsStorage.ts:32-54 | every listed project is the readable metadata of one of the folders, and every folder's readable metadata is listed; a read error fails the whole listing, which never happens to files the manager wrote |
| ProjectsStorage.SliceTo | src/features/projects/useProjectsStorage.ts:58 | slice from 0: a prefix of the list, the whole list without a limit, at most the limit, and a negative limit counting from the end |
| ProjectsStorage.PrefixSorted | src/features/projects/useProjectsStorage.ts:56-58 | a prefix of a list ordered newest first is still ordered newest first |
| ProjectsStorage.SaveProject | src/features/projects/useProjectsStorage.ts:9-24 | the project's metadata file holds the encoded JSON, no other file changes, and stored texts stay decodable |
| ProjectsStorage.GetProjects | src/features/projects/useProjectsStorage.ts:26-70 | no projects folder gives no projects; otherwise the readable projects of all folders ordered newest first and cut to the limit, or the read error with its prefix; never fails on files the manager wrote |
| ProjectsStorage.GetProject | src/features/projects/useProjectsStorage.ts:72-94 | nothing for a missing or empty metadata file; a read error or metadata that does not parse fails with its prefix; otherwise the parsed metadata |
| ProjectsStorage.DeleteProject | src/features/projects/useProjectsStorage.ts:96-110 | only the metadata file is removed; the folder's other files stay |
| ProjectsStorage.LoadAfterSave | src/features/projects/useProjectsStorage.ts:9-52 | a saved project reads back as itself when JSON and the text codecs undo each other |
| ProjectsStorage.SavedProjectListed | src/features/projects/useProjectsStorage.ts:30-34 | a saved project with a non-empty id without a slash is one of the folders the listing reads |
| Toast.FindByComponent | src/common/composables/useToast.ts:31 | the position of the toast for the component, exactly when there is one |
| Toast.FindById | src/common/composables/useToast.ts:20 | the position of the toast with the id, exactly when there is one |
| Toast.Dismissed | src/common/composables/useToast.ts:25 | the filter keeps exactly the toasts with other ids, changes nothing when the id is not shown, and keeps components and ids distinct |
| Toast.DismissKeepsQueue | src/common/composables/useToast.ts:18-26 | removing a toast after clearing its timer keeps one toast per component, every toast's timer pending for it and every pending timer owned |
| Toast.ReplaceKeepsQueue | src/common/composables/useToast.ts:33-48 | updating a component's toast with a freshly armed timer keeps the queue valid |
| Toast.AppendKeepsQueue | src/common/composables/useToast.ts:50-58 | adding a toast for a new component with a new id keeps the queue valid |
| Toast.OwnerFound | src/common/composables/useToast.ts:41-55 | a pending timer belongs to the toast its id finds |
| Toast.Toaster.constructor | src/common/composables/useToast.ts:14 | no toasts |
| Toast.Toaster.Dismiss | src/common/composables/useToast.ts:18-26 | the toast with the id is gone with its timer, every other toast stays, and an id not shown changes nothing |
| Toast.Toaster.Show | src/common/composables/useToast.ts:28-59 | a component on screen keeps its toast and id, takes the new props and delay and loses its old timer; otherwise a toast with the fresh id joins the end; the toast has a timer exactly when the delay is truthy, and each component has one toast |
| Toast.Toaster.ShowWithDefaults | src/common/composables/useToast.ts:28 | `show(component)` gives the toast empty props and the 5000 ms default, so it always gets a timer |
| Toast.Toaster.Fire | src/common/composables/useToast.ts:41-55 | a timer firing dismisses the toast it was armed for, and that timer is gone |
| Toast.FindByComponentReplaced | src/common/composables/useToast.ts:37-47 | after an update the component still finds its toast at the same place |
| Toast.FindByComponentAppended | src/common/composables/useToast.ts:57 | after a push the new component's toast is found at the end |
| MultiSelect.Without | src/common/composables/useMultiSelect.ts:31 | Set.delete: the id is gone, every other id stays in its order, and ids stay distinct |
| MultiSelect.Toggle | src/common/composables/useMultiSelect.ts:29-36 | the id becomes selected exactly when it was not, no other id changes, a new id joins at the end, and ids stay distinct |
| MultiSelect.WithoutLast | src/common/composables/useMultiSelect.ts:31-35 | deleting an id just added restores the selection |
| MultiSelect.ToggleTwice | src/common/composables/useMultiSelect.ts:48-58 | toggling twice restores the selected set, and for an unselected id its order too |
| MultiSelect.State.constructor | src/common/composables/useMultiSelect.ts:10-11 | nothing selected, not in multi-select mode |
| MultiSelect.State.IsItemSelected | src/common/composables/useMultiSelect.ts:16-19 | Set.has on the selection |
| MultiSelect.State.HandleItemClick | src/common/composables/useMultiSelect.ts:24-43 | in multi-select mode the id is toggled and nothing navigates; otherwise the selection is unchanged and the navigation callback runs once when given |
| MultiSelect.State.HandleCheckboxClick | src/common/composables/useMultiSelect.ts:48-58 | the id is toggled whatever the mode |
| MultiSelect.State.HandleItemLongPress | src/common/composables/useMultiSelect.ts:63-81 | the mode flips; entering it leaves the item selected, added at the end if new; leaving it clears the selection |
| MultiSelect.State.ClearSelection | src/common/composables/useMultiSelect.ts:86-90 | nothing selected and out of multi-select mode |
| MultiSelect.State.GetSelectedIds | src/common/composables/useMultiSelect.ts:95-98 | the selected ids without repeats, in the order they were selected, and exactly those for which IsItemSelected holds |
| ActiveLayer.FindLayer | src/features/projects/stores/useActiveLayerStore.ts:40 | the first layer with the id, exactly when some layer has it |
| ActiveLayer.ValidatedId | src/features/projects/stores/useActiveLayerStore.ts:48-78 | no selection without a project or without layers; the current id while it names a layer; otherwise the first layer's id, so some layer always carries the result |
| ActiveLayer.ValidatedIdStable | src/features/projects/stores/useActiveLayerStore.ts:48-78 | validating twice is validating once, and after validation the active layer is found unless the chosen id is empty |
| ActiveLayer.Store.constructor | src/features/projects/stores/useActiveLayerStore.ts:15 | no layer selected |
| ActiveLayer.Store.SetActiveLayer | src/features/projects/stores/useActiveLayerStore.ts:18-21 | the selection is the given id |
| ActiveLayer.Store.ClearActiveLayer | src/features/projects/stores/useActiveLayerStore.ts:23-26 | nothing selected |
| ActiveLayer.Store.GetActiveLayer | src/features/projects/stores/useActiveLayerStore.ts:33-41 | nothing without a project or with no or an empty id; otherwise a layer of the project with the selected id, found exactly when one exists |
| ActiveLayer.Store.ValidateActiveLayer | src/features/projects/stores/useActiveLayerStore.ts:48-78 | the selection becomes the validated id |
| SystemLogger.GenerateLogEntry | src/services/logging/stores/useSystemLoggerStore.ts:52-62 | the entry carries the current time and the type, and its message is the text itself or the serialised object |
| SystemLogger.PushBounded | src/services/logging/stores/useSystemLoggerStore.ts:29-34 | one more entry, and a buffer within its bound stays within it by dropping its oldest entry |
| SystemLogger.Latest | src/services/logging/stores/useSystemLoggerStore.ts:43-48 | the latest entries kept number the bound or everything there is, whichever is fewer |
| SystemLogger.PushAllKeepsLatest | src/services/logging/stores/useSystemLoggerStore.ts:43-48 | a bounded buffer fed any entries in turn holds exactly the last entries up to its bound, in order |
| SystemLogger.LatestTwice | src/services/logging/stores/useSystemLoggerStore.ts:43-48 | trimming before more entries arrive keeps the same latest entries as trimming once at the end |
| SystemLogger.SamplingRate | src/services/logging/stores/useSystemLoggerStore.ts:11-37 | one radar scan in every 1000 is kept: further scans keep the whole thousands of the counter plus the scans and leave the remainder as the counter |
| SystemLogger.SamplingArithmetic | src/services/logging/stores/useSystemLoggerStore.ts:23-36 | one scan step moves a unit from the pending scans into the counter, or carries a kept scan when the counter wraps |
| SystemLogger.Store.constructor | src/services/logging/stores/useSystemLoggerStore.ts:15-17 | both buffers empty and the scan counter at zero |
| SystemLogger.Store.AddLog | src/services/logging/stores/useSystemLoggerStore.ts:19-50 | a radar scan advances the counter and is pushed into the bounded scan buffer only when the counter reaches the rate; any other entry goes to the bounded main buffer; the bounds and the counter limit hold afterwards |
| SystemLogger.Store.GetAllLogs | src/services/logging/stores/useSystemLoggerStore.ts:64-67 | every entry of both buffers, a permutation of them, in ascending timestamp order; for each timestamp its entries keep their order in the general buffer followed by the scan buffer |
| Debounce.Debouncer.constructor | src/generic/composables/useDebounce.ts:12-17 | the delay given and no timeout pending |
| Debounce.Debouncer.WithDefaultDelay | src/generic/composables/useDebounce.ts:14 | without a delay argument the delay is 500 ms, and no timeout is pending |
| Debounce.Debouncer.Call | src/generic/composables/useDebounce.ts:19-31 | the previous timeout is cleared and exactly one fresh timeout, carrying these arguments, is pending |
| Debounce.Debouncer.Fire | src/generic/composables/useDebounce.ts:26-30 | the callback runs once with the timeout's arguments and nothing is pending afterwards |
| Debounce.Debouncer.Cleanup | src/generic/composables/useDebounce.ts:33-40 | no timeout pending and no invocation |
| Debounce.Burst | src/generic/composables/useDebounce.ts:19-31 | for a burst of any number of calls, after each call exactly one timeout is pending with that call's arguments, so the firing invokes the callback once, with the last call's arguments |
| ProjectFields.ValidateProjectName | src/features/projects/projectFieldsValidation.ts:1-17 | valid exactly when the trimmed name is 3 to 100 UTF-16 code units long; otherwise required, too short with its minimum, or too long with its maximum |
| ProjectFields.ValidateClientName | src/features/projects/projectFieldsValidation.ts:19-23 | valid exactly when the trimmed client name is at most 100 UTF-16 code units long; otherwise too long with its maximum |
| ProjectFields.ValidateJobCode | src/features/projects/projectFieldsValidation.ts:25-29 | valid exactly when the trimmed job code is at most 50 UTF-16 code units long; otherwise too long with its maximum |
| ProjectFields.TrimIdempotent | src/features/projects/projectFieldsValidation.ts:12 | trimming a trimmed value changes nothing |
| ProjectFields.ValidationIgnoresSurroundingWhitespace | src/features/projects/projectFieldsValidation.ts:10-29 | each validator gives a value and its trimmed form the same verdict |
| ProjectFields.AstralCharactersCountTwice | src/features/projects/projectFieldsValidation.ts:10-29 | for text made of characters above U+FFFF, each counts twice: 2 to 50 of them make a valid project name, the job code fails exactly above 25 and the client name exactly above 50 |
| ProjectFields.LimitsNest | src/features/projects/projectFieldsValidation.ts:1-6 | a valid job code or a valid project name also passes the client-name limit |
| ProjectUtils.CreateDefaultAoi | src/features/projects/projectUtils.ts:4-11 | an area with the given id and name and no results |
| ProjectUtils.EnsureAreasExist | src/features/projects/projectUtils.ts:13-23 | the result always has at least one area; a project with areas comes back unchanged, one without gets the single area "AOI 1" |
| ProjectUtils.EnsureAreasExistIdempotent | src/features/projects/projectUtils.ts:13-23 | ensuring twice is ensuring once, whatever id the second call draws, and nothing but the areas changes |
| ObjectUtils.CreateEmlTrace | src/features/projects/objects/objectUtils.ts:3-12 | a visible trace of kind `emlTrace` with the given id and name and no points |
| ObjectUtils.OfKind | src/features/projects/objects/objectUtils.ts:22 | exactly the objects of the kind, and no more of them than there are objects |
| ObjectUtils.OfKindAppend | src/features/projects/objects/objectUtils.ts:22 | filtering a list with one more object adds that object when its kind matches, and nothing otherwise |
| ObjectUtils.KindCountAppend | src/features/projects/objects/objectUtils.ts:22-23 | adding an object raises the count of its own kind by one and leaves other kinds' counts alone |
| ObjectUtils.NextNameCounts | src/features/projects/objects/objectUtils.ts:14-26 | the next name is "Layer " and the number of objects of the kind plus one, counting the object just added |
| ObjectUtils.FirstObjectName | src/features/projects/objects/objectUtils.ts:14-26 | with no objects the next name is "Layer 1" |
| ObjectUtils.NatToStringInjective | src/features/projects/objects/objectUtils.ts:25 | distinct numbers are written differently |
| ObjectUtils.SuccessiveTraceNamesDiffer | src/features/projects/objects/objectUtils.ts:3-26 | a trace named by the rule and added makes the rule's next name a different one |
| FixQuality.Value | src/services/gps/types/GpsFixQuality.enum.ts:5-16 | every member's value lies in 0 to 8 |
| FixQuality.ValueInjective | src/services/gps/types/GpsFixQuality.enum.ts:5-16 | distinct members have distinct values |
| FixQuality.GetFixQualityLabel | src/services/gps/utils/fixQualityLabels.ts:21-24 | the table's label for a whole number that is a key, and "Unknown" for any other number |
| FixQuality.TableCoversEnum | src/services/gps/utils/fixQualityLabels.ts:6-16 | every member has a label and every label belongs to a member |
| FixQuality.LabelOfMember | src/services/gps/utils/fixQualityLabels.ts:6-24 | a member's label is its table entry, never "Unknown" |
| FixQuality.SomeLabels | src/services/gps/utils/fixQualityLabels.ts:7-15 | 0 reads "Invalid", 4 "RTK FIX", 5 "Float" and 8 "Sim" |
| FixQuality.UnknownOutsideTable | src/services/gps/utils/fixQualityLabels.ts:21-24 | NaN, fractions and values outside 0 to 8 read "Unknown" |
| Sorting.Insert | src/services/logging/stores/useSystemLoggerStore.ts:66 | inserting into a sorted list keeps it sorted and adds exactly the one element |
| Sorting.SortBy | src/services/logging/stores/useSystemLoggerStore.ts:66 | `sort` with a key-difference comparator: the result is in ascending key order and a permutation of the input |
| Sorting.InsertWithKey | src/services/logging/stores/useSystemLoggerStore.ts:66 | inserting an element places it ahead of the elements of its own key and reorders no other element |
| Sorting.SortByStable | src/services/logging/stores/useSystemLoggerStore.ts:66 | the sort is stable, as `Array.prototype.sort` is: for every key, the elements with that key come out in their input order |
| Text.Trim | src/features/projects/projectFieldsValidation.ts:12 | `trim`: no longer than the input, with no whitespace left at either end |
| Text.TrimIsMiddleSlice | src/features/projects/projectFieldsValidation.ts:12 | `trim` keeps a contiguous middle slice of the input and removes only whitespace before and after it |
| Text.Utf16Length | src/features/projects/projectFieldsValidation.ts:13-15 | `length`: between one and two code units per character, exactly one each when all lie in the basic plane and two each when none does |
| Text.Utf16LengthConcat | src/features/projects/projectFieldsValidation.ts:13-15 | the code-unit length of a concatenation is the sum of the lengths |
| Text.TrimUnchanged | src/services/gps/utils/nmeaParser.ts:138 | a string without whitespace at its ends trims to itself |
| Text.IndexOf | src/services/gps/utils/nmeaParser.ts:77 | `indexOf` of a character: -1 exactly when it is absent, otherwise its first position |
| Text.IndexOfStr | src/generic/utils/jsonStreamParser.ts:55 | `indexOf` of a string: -1 when it never occurs, otherwise the first position where it does |
| Text.SubstringSlice | src/services/gps/utils/nmeaParser.ts:40-41 | `substring` with bounds in range selects the slice between them, in either order |
| Text.SubstringFromSuffix | src/services/gps/utils/nmeaParser.ts:41 | `substring(a)` always leaves a suffix |
| Text.Split | src/services/gps/utils/nmeaParser.ts:152 | `split` on a character yields at least one piece and no piece holds the separator |
| Text.SplitJoin | src/services/gps/utils/nmeaParser.ts:152 | joining the pieces with the separator gives back the input |
| Text.SplitLength | src/services/eml/utils/emlParser.ts:73 | there is one more piece than occurrences of the separator |
| Text.NatToStringValue | src/features/projects/objects/objectUtils.ts:25 | a number's decimal rendering reads back as that number |
| Text.ParseNatToString | src/services/gps/utils/nmeaParser.ts:176-177 | `parseInt` and `parseFloat` read a natural's decimal rendering back as that natural |
| Text.ParseNonNumeric | src/services/eml/utils/emlParser.ts:84-88 | text that cannot start a number is NaN to both parsers |
| Text.ParseEmpty | src/services/gps/utils/nmeaParser.ts:176-181 | the empty string is NaN to both parsers |
| Text.ParseFloatDigits | src/services/eml/utils/emlParser.ts:84-88 | a digit string reads as its decimal value |
| Text.OrZero | src/services/eml/utils/emlParser.ts:84-88 | the or-zero fallback on a number: NaN and zero give zero, any other number itself |

## Left out

- JsonStream.ReduceBufferOverflow, JsonStream.ParseStreamBounds, JsonStream.ParseJsonStream: the 200 KiB cap and the halving `slice` count characters, while the source counts UTF-16 code units. A slice in code units can split a surrogate pair, and a Dafny string cannot hold half of one. The two counts agree on text in the basic plane. Every other position and length in `Text` (`indexOf`, `substring`, `split`) is per character as well. Only the project-field validators measure code units, through `Text.Utf16Length`, and the NMEA checksum XORs both surrogate halves. Its loop takes the two halves of a pair in one step.
- Text.UpperCase: maps the ASCII letters and the ligature 'ﬀ' (U+FB00, upper case "FF") and leaves every other character as it is, while `toUpperCase` also maps other letters (é to É, ß to SS). Its one user is the checksum comparison, whose right side is upper-case hexadecimal. There the difference does not change the outcome: `NmeaParser.HexWindowCharacters` proves that a window the model accepts holds only 0-9, a-f, A-F and 'ﬀ', whose full upper cases are Unicode's too, and no other Unicode character has a full upper case made of hexadecimal digits alone, so no window the model rejects is accepted by `toUpperCase`.
- Native I/O: the Bluetooth plugins, IndexedDB, local storage and the file system. Their answers and outcomes are parameters or abstract maps, and calls on them are recorded in order.
- Oracles: `JSON.parse`, `JSON.stringify`, `TextEncoder`, `TextDecoder`, `crypto.randomUUID` and `Date.now` are parameters. The models of the test cases assume a decoder that agrees with `JSON.parse` on the texts it is handed.
- The JSON text `null`, and other JSON that is not an object, stored as project metadata are not modelled: a parse yields a record or an error.
- Real time: timers and intervals are handles in a pending map, and each firing is a method; no clock is modelled. The 5-second BLE scan wait, the server's 500 ms message-complete timer and restart delay, and the simulator's 500 ms connect and listing wait and 1000 ms injection period are not timed.
- Concurrency and Vue scheduling: each watcher callback and each `await` continuation runs atomically, except in `GpsService.Service.FireReconnectionTimerInterleaved`, which models the one interleaving the first Findings row needs, and `DebugFileManager.OverlappedAppends`, which models the overlapping appends of the second. An await continuation that runs after the device changed in between is not modelled.
- Connection wiring: the `provideOptions` registration inside the managers' `initialize` is not a method of the model. Neither are the watchers' first runs with `immediate: true`; the device watcher's first run is its `On*` method with no previous device.
- Creating a GPS or EML transport never fails in the managers: the plugins always hand a service. `GpsTransport.NewTransport` and `EmlTransport.NewTransport` still model the constructor's throw.
- The GPS transport's branches for a missing service after construction are unreachable and left out.
- `parseUtcTime` depends on the wall-clock date and is left out. The fix keeps the raw UTC text.
- Floating point: `parseFloat` is modelled on decimal notation (sign, digits, optional fraction), without exponents or `Infinity`.
- `toFixed(1)` in the frequency display is modelled as rounding half up on exact values. Binary floating-point ties may round differently.
- The simulator's random coordinates and fix quality are parameters. Its checksum is computed by the same function as the GGA parser's (`NmeaParser.ChecksumText`), which is what the simulator's own XOR loop computes.
- `DebugFileManager`: the message of the error `atob` throws is a constant stand-in (`DecodeErrorMessage`). The store's own save and delete errors are not modelled; its calls succeed.
- ProjectsStorage.SaveProject: cannot fail, because the in-memory file manager's save always succeeds. When several metadata reads fail, the error `Promise.all` surfaces is taken to be the first in folder order, not the first in time.
- EmlRecorder.Recorder.HandleEmlData: the confirmation dialog's `await` is atomic, so the project reference is read once.
- EmlRecorder.Recorder.HandleEmlData: the reading's id and epoch come from `createEmlReading`, which is not part of this model; they are parameters.
- The recorder's `lastRawNmea` and `lastGpsUpdateTime` are parameters, because the GPS service (src/services/gps/useGpsService.ts:399-405) does not return them.
- `EmlConnectionType.enum.ts` is not part of this model: the settings store receives the enum's member strings as a parameter.
- The GPS connection type, which the settings store does not declare, is a parameter of the GPS manager's watchers.
- UserSettings.Store.SetEmlConnectionType: requires a member of the enum, as the parameter's TypeScript type does.
- UserSettings.Store.LoadFromStorage: the invariant that every value matches storage holds only for readable storage (every stored device parses). A stored empty connection type is written but not loaded back, because it is falsy.
- `getItem` throwing is not modelled; only a device entry that fails to parse aborts the load.
- Toast.Toaster.Show: requires a fresh random id for a new component. This stands for `randomUUID` never repeating.
- Toast delays are integers, so a `NaN` delay (falsy in the code) is not modelled.
- BleConnection.ScanDevice: a listed device keeps only its id and name, and its address is None. The source's entry also carries `connectionType: 'BLE'`, the advertised UUIDs, and every field of the scan result spread into it. `BluetoothDevice` has no place for these, and nothing in this model reads them.
- `BleConnection`: `stopReading` sends a stop request to the plugin and ignores the result; it changes no state of the connection and is not modelled.
- `ServerConnection`: `read` and `stopReading` only log, and `isServerActive` only reads a field, so none of them is modelled. The same holds for `EmlTransport`'s `isServerRunning`.
- `EmlService`: `handleDisconnect` and `handleError` only log; they change no state and are not modelled.
- Lifecycle.DeliverEach: an `onError` handler that itself throws is not modelled. In the source such an exception escapes the wrapper and ends the `forEach`, so the later subscribers get nothing.
- Logging and toasts of errors that the code only reports are not modelled, except where they are part of a store's state.

## Findings

| source | as written | input that shows it | evidently intended | confidence | as-written member | corrected member |
|---|---|---|---|---|---|---|
| src/services/gps/useGpsService.ts:185-198 | when a reconnection attempt fails, `connectToDevice` sets DISCONNECTED and rethrows. The connection-state watcher runs before the timer callback's `catch`, finds no pending handle, resets the attempt count to 0 and schedules a timer. The `catch` then schedules a second one and overwrites the handle. | a selected device and GPS enabled; the pending reconnection timer fires and the transport's connect rejects | one pending timer after each failure, with the attempt count one higher, so the delay follows the backoff schedule. The EML manager's `isReconnecting` guard (src/services/eml/useEmlService.ts:189-194) does exactly this. | not executed | GpsService.Service.FireReconnectionTimerInterleaved | GpsService.Service.FireReconnectionTimer |
| src/services/eml/useEmlLogger.ts:35-55 | `distributeEmlData` calls the async `handleEmlData` for each complete line of a chunk without awaiting it (src/services/eml/useEmlService.ts:53, 72-79). In debug and web-preview builds `append` awaits a read and then a write in separate IndexedDB transactions (src/services/files/implementations/DebugFileManager.ts:47-58). Both reads of two lines from one chunk see the old text, so the second write drops the first line. | while logging, the EML service receives the chunk `"a\nb\n"` in a debug build | every line reaches `eml.txt`, in order, as one append after another would leave it | not executed | DebugFileManager.OverlappedLosesFirst | EmlLogger.Logger.HandleEmlDataEach |
