# syringe-filler-single, the verified core

A Dafny model of the firmware core of a single-station syringe filler. The firmware runs on an ESP32. The model covers five pieces:

- **Metadata store** (`Storage`). One JSON file per RFID tag id sits under `/bases/<%08X>.json`. Each file holds four fixed-capacity text fields of a base syringe: paint name, recipe name, recipe id and notes. Tag id 0 is refused by every operation. Base ids are listed by parsing file names.
- **RFID tag tracker** (`Rfid`). A card UID is folded into a 32-bit tag id from its last four bytes, read big-endian. The reader latches the most recent non-zero tag.
- **Stepper control** (`Stepper`). This is a STEP/DIR driver that emits at most one 3 us pulse per `update()` call. It pulses once 800 us have passed on the wrapping `micros()` counter.
- **Main loop** (`Console`, `Firmware`):
  - the serial line framer and command splitter;
  - the 200 ms RFID poll cadence on the wrapping `millis()` counter;
  - the two-button withdraw/dispense arbitration.
- **Web UI** (`WebUi`). This covers the route table and the handlers for `/api/bases`, `/api/bases/<hex>` and `/api/rfid`, with their status codes. It also covers `toHex` (`%08X`) and `parseHex` (`strtoul` base 16, as in section 7.22.1.4 of ISO/IEC 9899).

Some parts are modelled as objects whose fields change in place: the store, the reader, the stepper, the console buffer, the web UI's current tag and the loop itself. Each is a class whose methods are proved against specification functions: `Stored`, `AfterSave`, `Latch`, `Pulses`, `Frame`/`Commands`, `RouteOf`/`ItemEffect`. The properties are lemmas about those functions.

The environment enters as parameters:

| parameter | what it stands for |
|---|---|
| `Files` | the flash file system, a map from path to content |
| `Codec` | the JSON library, a pair of functions; its round trip is stated by `RoundTrips` and required where it is used |
| `DirHandle` | the `/bases` directory in enumeration order |
| `WriteResult` | the outcome of opening a file and writing into it |
| `Option<Uid>` | the PN532 read |
| clock readings and button levels | `millis()`, `micros()` and the two buttons |

Pin writes and the pulse's busy wait are recorded as an event trace.

Three behaviours of the code are easy to miss:

- `loadBase` returns a plain `bool`, so "absent" and "unreadable" look the same to callers.
- A path under `/api/bases/` whose id text is not valid hex gets 400, not 404. A path such as `/api/bases/1A2B3C4D/x` reaches record `1A2B3C4D`, because `strtoul` stops at the first non-hex character.
- A save truncates the file before writing, so a short write leaves a cut-off record behind. The model follows the code for the file's contents, but reports a save as successful only when the whole record was written (see Findings). `Storage.SaveReportedAsWritten` and `WebUi.PutResponseAsWritten` give the results as the code computes them.

## Model

| member | source | states |
|---|---|---|
| Uint32.Elapsed | src/main.cpp:41 | `now - since` in `uint32_t` is the difference modulo 2^32, and the plain difference when no wrap occurred |
| Cadence.ElapsedAtMostRealGap | src/main.cpp:207 | the wrapped difference of two clock readings never exceeds the real time between them |
| Cadence.ElapsedIsRealGap | src/main.cpp:41 | below one full wrap, the wrapped difference equals the real time between the readings |
| Cadence.DueIffRealGap | src/main.cpp:207 | below one wrap, the wrapped guard `now - last >= interval` holds exactly when the interval has really passed |
| Cadence.Due | src/main.cpp:207 | defines the guard `now - last >= interval` in `uint32_t` arithmetic |
| Cadence.Fired | src/main.cpp:207-208 | defines the times at which a gate evaluated at the given times fires, each firing resetting `last` to that reading |
| Cadence.FiredFromTimes | src/main.cpp:207-208 | a gate fires only at times when it was evaluated |
| Cadence.FirstFiringAfter | src/main.cpp:41-42 | after a gate fires at time t, its next firing is at least one interval after t |
| Cadence.FiredSpaced | src/main.cpp:41-42 | over time-ordered evaluations, consecutive firings of a wrap-around gate are at least one interval apart in real time |
| Text.TrimStart | src/main.cpp:131 | the result is a suffix of the input and starts with a non-space; `strtoul` skips leading white space the same way (src/WebUI.cpp:193) |
| Text.TrimEnd | src/main.cpp:131 | the result is a prefix of the input and ends with a non-space |
| Text.Trim | src/main.cpp:131-132 | `String::trim()` leaves text that neither starts nor ends with white space |
| Text.TrimStartDropsSpace | src/main.cpp:158 | every character dropped from the front is white space |
| Text.TrimEndDropsSpace | src/main.cpp:158 | every character dropped from the back is white space |
| Text.TrimBounds | src/main.cpp:131-132 | the trimmed text is a contiguous slice of the input, with only white space outside it |
| Text.TrimUnchanged | src/main.cpp:131 | text without white space at either end is left unchanged |
| Text.IndexOf | src/main.cpp:128 | `indexOf(' ')` is the first occurrence of the character, and -1 exactly when it is absent |
| Text.LastIndexOf | src/Storage.cpp:77 | `lastIndexOf('/')` is the last occurrence of the character, and -1 exactly when it is absent |
| Text.CStr | src/Storage.cpp:40 | a C string is a NUL-free prefix of its buffer, and the whole buffer when it has no NUL |
| Text.Strlcpy | src/Storage.cpp:40-43 | `strlcpy` leaves a NUL-free prefix of the source shorter than the buffer size, of length min(source length, size - 1), and the whole source when it fits |
| Text.HexDigits | src/Storage.cpp:14 | a zero-padded rendering has exactly the requested width, only upper-case hex digits, and the value that was printed |
| Text.Format08X | src/WebUI.cpp:185-189 | `%08X` gives exactly 8 upper-case hex digits whose value is the id |
| Text.Format08XInjective | src/Storage.cpp:14 | distinct ids print differently |
| Text.HexRun | src/WebUI.cpp:193 | the digits `strtoul` reads are the longest prefix made of hex digits |
| Text.HexRunStopsAt | src/WebUI.cpp:193 | the hex run ends at the first non-hex character |
| Text.Strtoul16OfFormatted | src/WebUI.cpp:185-195 | `strtoul` base 16 reads back the value of eight `%08X` digits, also when a non-hex character follows them |
| Text.IsSpace | src/main.cpp:131 | defines the white space of `isspace` in the "C" locale (space, \t, \n, \v, \f, \r), which `trim()` and `strtoul` skip |
| Text.EndsWith | src/Storage.cpp:79 | defines `endsWith(suffix)`: the suffix is no longer than the text and equals its tail |
| Text.Strtoul16 | src/WebUI.cpp:193 | defines `strtoul(s, nullptr, 16)` with a 32-bit `unsigned long`: leading white space skipped (`TrimStart`), one sign (`SignSkipped`), a `0x` prefix only before a hex digit (`PrefixSkipped`), the longest hex run, saturation to `ULONG_MAX` and a minus negating modulo 2^32 (`Signed`), and 0 without digits; `Text.Strtoul16OfDigits` and `Text.Strtoul16OfFormatted` state its results |
| Text.Strtoul16OfDigits | src/WebUI.cpp:193 | a run of hex digits without a `0x` prefix, followed by nothing or by a non-hex character, is read as the run's value when that fits in 32 bits |
| Text.DigitsReadFromStart | src/WebUI.cpp:193 | before text that starts with a hex digit and has no `0x` prefix, `strtoul` skips nothing: no white space, no sign and no prefix |
| Json.Member | src/Storage.cpp:40-43 | defines `doc[key] \| ""`: the member's string, or "" when the member is missing or not a string; `Storage.DecodeFields` states the loaded fields through it |
| Storage.EmptyInfo | include/Storage.hpp:17-22 | a default-constructed `BaseInfo` has all four fields empty, and each fits its array |
| Storage.CopyInto | include/Storage.hpp:11-16 | a bounded copy into one field gives it the `strlcpy` of the source, leaves the other three unchanged, and keeps every field within its capacity |
| Storage.DecodeFields | src/Storage.cpp:40-43 | whatever the document holds, each loaded field is its member's string (or "" when absent or not a string) cut to capacity minus one, and the record is valid (at most 31/31/23/95 characters) |
| Storage.Decode | src/Storage.cpp:40-43 | defines the four `strlcpy` copies from a parsed document into a fresh record; `Storage.DecodeFields` states their result |
| Storage.CopiesOverwriteAll | src/Storage.cpp:40-43 | the four copies overwrite every field, so the record's earlier contents do not matter |
| Storage.Encode | src/Storage.cpp:52-56 | defines the document `saveBase` builds: one string member per field, under the keys `paint_name`, `recipe_name`, `recipe_id` and `notes` |
| Storage.DecodeEncode | src/Storage.cpp:52-56 | decoding the document `saveBase` builds gives back every valid record |
| Storage.BasePath | src/Storage.cpp:12-19 | the path is "/bases/", then the 8 `%08X` digits of the id, then ".json": 20 characters |
| Storage.BasePathInjective | src/Storage.cpp:12-19 | distinct ids have distinct files |
| Storage.Stored | src/Storage.cpp:30-45 | defines what `loadBase` delivers: nothing for id 0, a missing file or unparsable text, else the decoded record |
| Storage.AfterSave | src/Storage.cpp:47-61 | defines the files after `saveBase`: unchanged for id 0 or a failed open, else the id's file holds the prefix of the serialized text the medium accepted |
| Storage.SaveReportedAsWritten | src/Storage.cpp:58 | defines the result `saveBase` returns as written: true once one byte of the record was accepted |
| Storage.SaveSucceeded | src/Storage.cpp:58 | defines the evidently intended result: true when the whole serialized record was accepted |
| Storage.ShortWriteReportedAsSaved | src/Storage.cpp:58 | as written, a write that accepts 1 byte of a longer record is reported as saved although the file holds only a prefix |
| Storage.SaveThenLoad | src/Storage.cpp:47-61 | with a round-tripping codec, a successful save of a valid record followed by a load returns the same four fields |
| Storage.SaveKeepsOthers | src/Storage.cpp:49 | a save, successful or not, leaves every other id's record unchanged |
| Storage.DeleteThenLoad | src/Storage.cpp:63-66 | after a delete the record no longer loads, and other ids are unaffected |
| Storage.Store.LoadBase | src/Storage.cpp:30-45 | fails for id 0, a missing file or unparsable text, leaving `out` unchanged; otherwise returns the decoded record, which is valid and is what `Stored` reports |
| Storage.Store.SaveBase | src/Storage.cpp:47-61 | id 0 fails and changes nothing; otherwise the id's single file is truncated and receives what the medium accepted; success means the whole record was written |
| Storage.Store.DeleteBase | src/Storage.cpp:63-66 | succeeds exactly when the id is non-zero and its file existed, and then only that file is removed; otherwise nothing changes |
| Storage.ParsedIds | src/Storage.cpp:73-84 | defines the ids the loop would store given unlimited room: the non-zero entry ids in enumeration order |
| Storage.Take | src/Storage.cpp:82 | defines the cap `count < max`: the first `max` elements, or all when fewer |
| Storage.ListStep | src/Storage.cpp:82-84 | visiting one more entry appends its id exactly when the id is non-zero and fewer than `max` are stored |
| Storage.Basename | src/Storage.cpp:76-78 | defines the name after the last '/', or the whole name without one |
| Storage.EntryId | src/Storage.cpp:75-81 | defines the id an entry yields: 0 for a directory or a name not ending in ".json", else `strtoul` base 16 of the base name before ".json" |
| Storage.ParseEntryId | src/Storage.cpp:75-81 | the loop body's parse of an entry (skip directories, base name after the last '/', hex before ".json") is that entry's id |
| Storage.Keep | src/Storage.cpp:82-84 | `out[count++] = val` happens exactly for a non-zero id with room left; the rest of the array is untouched |
| Storage.StoredIdsTake | src/Storage.cpp:73-89 | storing one id at a time keeps the first `max` non-zero ids seen so far |
| Storage.StoredAll | src/Storage.cpp:73-89 | after every entry is visited, the first `max` parsed ids are stored |
| Storage.ListBaseIds | src/Storage.cpp:68-91 | count 0 and false unless `/bases` is a directory; otherwise true, with `out[..count]` the first `max` non-zero ids parsed from non-directory `*.json` names in enumeration order; slots past `count` are untouched |
| Storage.NonZeroExact | src/Storage.cpp:82 | the filter keeps exactly the non-zero ids |
| Storage.ListedIds | src/Storage.cpp:73-89 | listing is sound (every stored id is non-zero and is some entry's id), complete when there is room (every entry's non-zero id is among the parsed ids), and stores at most `max` |
| Storage.FileNameHasNoSlash | src/Storage.cpp:12-19 | a record's file name contains no '/' |
| Storage.BasenameOfBasePath | src/Storage.cpp:76-78 | the base name of a record's path is its `%08X` file name |
| Storage.FileNameYieldsId | src/Storage.cpp:79-81 | a file name of any id's eight digits and ".json" parses back to that id |
| Storage.SavedFileIsListed | src/Storage.cpp:73-89 | the file `saveBase` would write for any id yields that id, whether the entry is named by full path or by file name |
| Storage.BasePathInBases | src/Storage.cpp:12-19 | a record's path lies directly in `/bases` |
| Storage.EntryPath | src/Storage.cpp:76-78 | defines the file an entry names: the name itself when it starts with '/', else the name under `/bases/` |
| Storage.Lists | src/Storage.cpp:70-76 | defines when a directory handle enumerates `/bases` over the file map: each file entry names, by full path or by file name, a file directly under `/bases`, and each such file has an entry |
| Storage.EntryPathYieldsId | src/Storage.cpp:75-81 | an entry naming a record's file, by full path or by file name, yields that record's id |
| Storage.BareNameLists | src/Storage.cpp:70-76 | a directory whose one entry is a record's bare file name lists the file map holding just that record |
| Storage.SavedIdListed | src/Storage.cpp:47-61 | after a save of a non-zero id that opened the file, any listing of `/bases` that shows the files (`Lists`) reports that id |
| Storage.DeletedIdNotListed | src/Storage.cpp:63-66 | after a delete, a listing of files that are all named as `saveBase` names them no longer reports that id |
| Storage.SaveKeepsCanonical | src/Storage.cpp:47-61 | a save keeps every file in `/bases` named as `saveBase` names them |
| Storage.NonCanonicalNameListed | src/Storage.cpp:79-81 | a file `/bases/1.json`, which `saveBase` never writes, is listed as id 1, so deleting `/bases/00000001.json` does not hide it |
| Storage.BasenameOfShortName | src/Storage.cpp:77-78 | the base name of `/bases/1.json` is `1.json` |
| Storage.StrtoulOfOne | src/Storage.cpp:81 | `strtoul` base 16 reads "1" as 1 |
| Rfid.BigEndianBound | src/RfidReader.cpp:18-23 | n bytes read big-endian give a value below 256^n |
| Rfid.LastFour | src/RfidReader.cpp:19 | at most four bytes take part in the tag |
| Rfid.ShiftIn | src/RfidReader.cpp:21 | with at most three bytes accumulated, `(value << 8) \| b` neither wraps nor loses bits |
| Rfid.ShiftStep | src/RfidReader.cpp:20-22 | one loop turn extends the big-endian value by the next byte and stays within 32 bits |
| Rfid.UidToRfid | src/RfidReader.cpp:16-24 | the loop computes the big-endian value of the last (up to) four bytes; an empty UID gives 0 |
| Rfid.TagOf | src/RfidReader.cpp:16-24 | defines the tag of a UID: its last (up to) four bytes read big-endian; `Rfid.UidToRfid` computes it |
| Rfid.ShortUidTag | src/RfidReader.cpp:18-23 | a UID of at most four bytes counts entirely, and its tag is below 2^(8·len) |
| Rfid.LeadingBytesIgnored | src/RfidReader.cpp:19-22 | with more than four bytes, changing any byte before the last four does not change the tag |
| Rfid.LatchCases | src/RfidReader.cpp:48-55 | a failed read or a zero tag keeps the latch, a non-zero tag is latched, and a non-zero latch never returns to 0 |
| Rfid.LatchIdempotent | src/RfidReader.cpp:52 | reading the same card again changes nothing |
| Rfid.Latch | src/RfidReader.cpp:45-56 | defines the latch after one poll: unchanged for a failed read, a zero tag or the current tag, else the new tag |
| Rfid.LatchTrace | src/RfidReader.cpp:45-56 | a series of polls yields one latched value per poll |
| Rfid.LatchTraceExample | src/RfidReader.cpp:48-55 | the reads [fail, A, A, zero, B] latch [prev, A, A, A, B] |
| Rfid.LatchTraceStaysNonZero | src/RfidReader.cpp:52-53 | once a tag is latched, no later poll returns the latch to 0 |
| Rfid.LatchTraceFromReads | src/RfidReader.cpp:51-53 | every latched value is the starting value or the tag of an earlier read |
| Rfid.RfidReader.constructor | include/RfidReader.hpp:17 | a new reader has `currentTag() == 0` and `hasTag()` false |
| Rfid.RfidReader.CurrentTag | include/RfidReader.hpp:13 | defines `currentTag()` as a read of the latch; it reads the reader and changes nothing; `Rfid.RfidReader.HasTag` and `Rfid.RfidReader.Poll` state its properties |
| Rfid.RfidReader.HasTag | include/RfidReader.hpp:14 | `hasTag()` holds exactly when `currentTag()` is non-zero |
| Rfid.RfidReader.Poll | src/RfidReader.cpp:45-56 | the new latch is `Latch(old latch, read)`: unchanged on a failed read, a zero tag or the current tag, the new tag otherwise |
| Stepper.Pulses | src/main.cpp:39-41 | defines when `update()` pulses: while moving, once the 800 us guard is due |
| Stepper.PulseTimes | src/main.cpp:38-46 | defines the real times at which a series of `update()` calls pulse, each pulse moving the last-step reading to that call |
| Stepper.PulsesFollowGate | src/main.cpp:38-46 | a series of `update()` calls pulses exactly where the 800 us wrap-around gate fires over the calls made while moving |
| Stepper.MovingTimesSorted | src/main.cpp:38-46 | time-ordered calls give time-ordered moving times |
| Stepper.PulsesSpaced | src/main.cpp:38-46 | consecutive step pulses are at least 800 us apart in real time, however `micros()` wraps and however the motor is started and stopped |
| Stepper.StoppedNeverPulses | src/main.cpp:39 | while the motor is stopped, no call pulses |
| Stepper.SteadyRate | src/main.cpp:41 | called `n` us after the last step, with `n` below one wrap, `update()` is due exactly when `n` is at least 800 |
| Stepper.SteadyPulses | src/main.cpp:38-46 | with `update()` called every microsecond while moving, the pulses are exactly the times `last + 800`, `last + 1600`, ... up to the time of the last call |
| Stepper.StepTimesAt | src/main.cpp:16 | the `k`-th of those times is `last + 800 * (k + 1)` |
| Stepper.SteadyStepping | src/main.cpp:38-46 | called every microsecond while moving, the motor steps exactly every 800 us: the `k`-th pulse after a step at `last` is at `last + 800 * (k + 1)` |
| Stepper.StepperControl.constructor | src/main.cpp:49-50 | starts not moving, with last step 0 and no pin driven |
| Stepper.StepperControl.Begin | src/main.cpp:25-30 | drives STEP and DIR low and changes no other state |
| Stepper.StepperControl.SetDirection | src/main.cpp:32-34 | drives DIR high exactly when withdrawing; nothing else changes |
| Stepper.StepperControl.SetMoving | src/main.cpp:36 | only the moving flag changes |
| Stepper.StepperControl.Update | src/main.cpp:38-46 | at most one pulse (STEP high, 3 us wait, STEP low), emitted exactly when moving and 800 us are due; the last-step time moves to `now` exactly then |
| Console.SplitLine | src/main.cpp:128-132 | defines the split at the first space: command word before it and arguments after it, both trimmed; without a space the whole line is the word |
| Console.Dispatch | src/main.cpp:134-148 | defines the handler chosen by the command word, with the arguments only for `wifi.set` |
| Console.HandleCommand | src/main.cpp:127-149 | defines `handleCommand(line)` as the split followed by the dispatch |
| Console.SplitJoined | src/main.cpp:127-132 | a trimmed word without spaces, a space and arguments split back into the word and the trimmed arguments |
| Console.SplitNoSpace | src/main.cpp:128-130 | a line without a space is all command word, with empty arguments |
| Console.DispatchCases | src/main.cpp:134-148 | the handler is nothing exactly for an empty word, "unknown command" exactly for a non-empty unrecognised word, and only `wifi.set` receives the arguments |
| Console.SetReceivesArgs | src/main.cpp:136-137 | `wifi.set <args>` hands the trimmed arguments to the set handler |
| Console.NonBlankLineHasCommand | src/main.cpp:128-131 | a line starting with a non-space has a non-empty command word |
| Console.NonBlankLineHandled | src/main.cpp:146 | a line starting with a non-space always reaches a handler |
| Console.DropCR | src/main.cpp:154 | the buffered characters never include '\r' |
| Console.FeedChar | src/main.cpp:153-162 | defines one character read: '\r' is dropped, '\n' dispatches the trimmed buffer when it is non-empty and empties it, anything else is appended |
| Console.Frame | src/main.cpp:151-164 | defines the framer state after a run of characters as `FeedChar` applied to each in turn |
| Console.Commands | src/main.cpp:159 | one handler runs per dispatched line |
| Console.PartialLineSurvives | src/main.cpp:154-162 | without a newline nothing is dispatched and the characters (minus '\r') are appended to the buffer |
| Console.LineCompleted | src/main.cpp:155-160 | at a newline the buffer is emptied and its trimmed text is dispatched only if non-empty |
| Console.FrameChunks | src/main.cpp:151-164 | input split across calls frames exactly as if it had arrived at once, because the partial line is kept in `g_input` |
| Console.FeedCharClean | src/main.cpp:154-162 | one character keeps the buffer free of line breaks and dispatches only clean lines |
| Console.FramedLinesClean | src/main.cpp:151-164 | every dispatched line is non-empty, trimmed and free of line breaks |
| Console.CommandsNeverIgnored | src/main.cpp:146 | clean lines never meet an empty command word |
| Console.FramedLinesHandled | src/main.cpp:158-159 | every line the framer dispatches reaches a handler |
| Console.SerialConsole.constructor | src/main.cpp:55 | the buffer starts empty |
| Console.SerialConsole.ReadSerialCommands | src/main.cpp:151-164 | the handlers run are those for the lines `Frame` dispatches, in order, and the buffer keeps the unfinished line |
| Firmware.Arbitrate | src/main.cpp:216-224 | defines the motion the buttons ask for: withdraw or dispense for one button alone, stop for both or neither |
| Firmware.DirectionWrites | src/main.cpp:216-224 | defines the DIR writes of a motion: HIGH for withdraw, LOW for dispense, none for stop |
| Firmware.ArbitrateCases | src/main.cpp:213-224 | the motor moves exactly when one button is pressed alone; DIR goes HIGH for withdraw and LOW for dispense; both or neither stop it with no DIR write |
| Firmware.PollsSpaced | src/main.cpp:205-211 | RFID polls are at least 200 ms apart in real time, however `millis()` wraps |
| Firmware.NextPoll | src/main.cpp:207 | below one wrap after a poll, the next pass polls exactly when 200 ms have passed |
| Firmware.Firmware.Synced | src/main.cpp:208-210 | defines the invariant that the web UI's tag equals the reader's tag, which the constructor establishes and `Firmware.Firmware.Loop` keeps |
| Firmware.Firmware.constructor | src/main.cpp:21-55 | the globals start idle: no tag, nothing buffered, stepper stopped, web UI in sync with the reader |
| Firmware.Firmware.Loop | src/main.cpp:202-226 | one pass frames the serial input; it polls and pushes the tag to the web UI exactly when 200 ms are due, keeping them in sync; it sets motion from the arbitration and steps as `update()` does |
| WebUi.ParseHex | src/WebUI.cpp:191-195 | empty text and text that `strtoul` reads as 0 are refused; any other text gives its non-zero `strtoul` value |
| WebUi.ParseHexOfToHex | src/WebUI.cpp:185-195 | for a non-zero id, `parseHex(toHex(id))` succeeds with the id, also when a non-hex sub-path follows |
| WebUi.ParseHexRejectsZero | src/WebUI.cpp:191-195 | "00000000" is refused, so id 0 never reaches the store |
| WebUi.ParseHexRejectsNonHex | src/WebUI.cpp:193-194 | text that starts with none of a hex digit, a sign or white space is refused |
| WebUi.ParseHexRejectsZZ | src/WebUI.cpp:193-194 | "ZZ" is refused |
| WebUi.HexList | src/WebUI.cpp:213-215 | the k-th name is `toHex` of the k-th id |
| WebUi.ListedNames | src/WebUI.cpp:203-217 | defines the names a successful listing reports: `toHex` of the first 64 ids parsed from the directory |
| WebUi.ListedNamesUsable | src/WebUI.cpp:203-217 | a listing has at most 64 names, each eight characters that parse to a non-zero id some file in the directory yields |
| WebUi.RfidText | src/WebUI.cpp:302-310 | the reported text is "" exactly when no tag is latched, else 8 characters that parse back to the tag |
| WebUi.RecordBody | src/WebUI.cpp:226-231 | defines the GET body: the id in `toHex` and the four stored fields |
| WebUi.RouteOf | src/WebUI.cpp:316-325 | defines the route table: the registered paths first, then the record handler's prefix and id checks, then the method |
| WebUi.ItemRouteOf | src/WebUI.cpp:286-299 | defines the record handler's choice: an invalid id first, then GET, PUT, DELETE or 405 |
| WebUi.ItemId | src/WebUI.cpp:284 | defines the id text as what follows `/api/bases/` |
| WebUi.FixedRoute | src/WebUI.cpp:316-325 | the registered paths lead only to the page, the list handler or the tag report |
| WebUi.ItemRouteIds | src/WebUI.cpp:286-296 | a record handler is given only the parsed non-zero id |
| WebUi.RoutedIdsNonZero | src/WebUI.cpp:276-300 | no request reaches the GET, PUT or DELETE handler with id 0 |
| WebUi.ItemPathNotFixed | src/WebUI.cpp:316-325 | a path under `/api/bases/` matches none of the registered paths, so it falls through to the record handler |
| WebUi.InvalidIdBeforeMethod | src/WebUI.cpp:284-289 | an invalid id under `/api/bases/` gives 400 whatever the method |
| WebUi.ItemRoute | src/WebUI.cpp:276-300 | the path built from a listed id, optionally with a non-hex sub-path, routes to that id's GET, PUT or DELETE handler; other methods get 405 |
| WebUi.UnknownPathNotFound | src/WebUI.cpp:279-282 | a path outside the table and outside `/api/bases/` gives 404 |
| WebUi.ListOnlyByGet | src/WebUI.cpp:268-274 | only GET reaches the list; any other method on `/api/bases` gets 405 |
| WebUi.HexNames | src/WebUI.cpp:213-215 | the loop renders the first `count` ids with `toHex`, in order |
| WebUi.WebUi.constructor | src/WebUI.cpp:15 | no tag is set at start |
| WebUi.WebUi.SetCurrentRfid | src/WebUI.cpp:335-337 | the reported tag becomes the given one |
| WebUi.WebUi.HandleRfid | src/WebUI.cpp:302-310 | 200 with "" when no tag is set, else `toHex` of the tag |
| WebUi.WebUi.HandleListBases | src/WebUI.cpp:203-217 | 500 when `/bases` cannot be listed, else 200 with the first 64 parsed ids in `toHex` |
| WebUi.WebUi.HandleGetBase | src/WebUI.cpp:219-233 | 404 unless the record loads, else 200 with `toHex(id)` and the four stored fields |
| WebUi.WebUi.HandlePutBase | src/WebUI.cpp:235-258 | 400 for a missing body or invalid JSON, with the files unchanged; otherwise the decoded fields are saved, with 500 if the save fails and 200 "OK" if it succeeds |
| WebUi.WebUi.HandleDeleteBase | src/WebUI.cpp:260-266 | 200 "OK" exactly when the id's file existed and was removed, else 404 |
| WebUi.WebUi.HandleApiBases | src/WebUI.cpp:268-274 | a non-GET method gets 405; GET gets 500 for a listing failure and 200 with the list otherwise |
| WebUi.WebUi.HandleApiBaseItem | src/WebUI.cpp:276-300 | 404 without the `/api/bases/` prefix and 400 for an invalid id, both with the files unchanged; a valid id then goes by method to GET, PUT or DELETE, and any other method gets 405 |
| WebUi.ItemEffect | src/WebUI.cpp:291-299 | defines what a record request does to the files and what it answers: GET reads, PUT saves the decoded body (400 without a body or for invalid JSON, 500 when the save fails), DELETE removes the file (404 when it did not), other methods get 405 |
| WebUi.WebUi.DispatchItem | src/WebUI.cpp:291-299 | the method switch has the effect `ItemEffect` describes for each method |
| WebUi.Served | src/WebUI.cpp:316-325 | defines what serving a request does, by its route: page 200, list 200 or 500, 405, tag report 200, 404, 400, or the record effect; the files stay unchanged except for PUT and DELETE |
| WebUi.ItemRequestServed | src/WebUI.cpp:276-300 | a request that no registered path takes is served as `handleApiBaseItem` answers it |
| WebUi.WebUi.Serve | src/WebUI.cpp:316-325 | every request is answered as `Served` describes for its route, and only PUT and DELETE change the files |
| WebUi.PutThenGet | src/WebUI.cpp:235-258 | with a round-tripping codec, a PUT answered 200 "OK" makes a following GET find the record its body decodes to |
| WebUi.PutResponseAsWritten | src/WebUI.cpp:253-257 | defines the PUT answer as the code computes it, from `saveBase`'s as-written result |
| WebUi.ShortWritePutAnsweredOk | src/WebUI.cpp:253-257 | as written, a PUT whose write accepts 1 byte of a longer record is answered 200 "OK" although the file holds only a prefix; the model answers 500 |

## Left out

- The HTML/JS page `kIndexHtml` (src/WebUI.cpp:19-183) is markup. The routes that serve it are modelled only as a 200 `IndexPage` response.
- The WebServer transport is replaced by a request value in and a `Response` value out. This covers `server.on`, `handleClient`, `send`, `hasArg`, `arg`, the JSON response serialisation in `sendJson` and content types. `WebUI::handle()` at the end of `loop()` is therefore not part of `Firmware.Firmware.Loop`; a request is served by `WebUi.WebUi.Serve`.
- ArduinoJson is a foreign library, and `Json.Codec` stands in for it. A document is a map of members that are strings or something else. A parse error is `None`. A document that is not an object is represented as one with no members. The codec's round trip is a precondition (`RoundTrips`), never an axiom.
- `Storage::init` (LittleFS mount, format and `mkdir`) is hardware setup, so the store starts from a given file map. The enumeration order of `/bases` is an input (`DirHandle`); it is not derived from the file map. Where a lemma relates a listing to the files, it requires `Lists`: every file entry names a file directly under `/bases`, and every such file appears. An entry may carry the full path or only the file name, since `File::name()` returns either depending on the ESP32 core version; `Storage.EntryPath` resolves both. `Storage.DeletedIdNotListed` also requires every such file to be named as `saveBase` names it, since a file such as `/bases/1.json` yields id 1 too (`Storage.NonCanonicalNameListed`).
- The PN532 and I2C driver (`begin`, `getFirmwareVersion`, `SAMConfig`, `readPassiveTargetID` and its 120 ms timeout) is foreign hardware code. A read is an input: `None` for a failed or timed-out read, else the UID.
- Wi-Fi and credential handling (`handleWifi*`, `startWiFi`, the Wi-Fi manager and credential store) is network I/O in code that is not part of this model. `handleCommand` yields a `Command` value naming the handler and its arguments instead of running it. The split inside `handleWifiSet` is not modelled.
- `printStructured`, the `Serial` log lines and `setup()` are console output and hardware initialisation. The "unknown command" reply is the `Unknown` command value.
- `millis()`, `micros()`, `digitalRead` and `digitalWrite` are parameters or recorded events. The 3 us `delayMicroseconds` busy wait is recorded as a `DelayUs` event, not waited out.
- include/Pins.hpp holds only pin constants, which become the `StepPin`/`DirPin` names. include/WebUI.hpp holds only declarations.
- `String` allocation failure and heap exhaustion are not modelled: strings are unbounded sequences.
- Multi-byte UTF-8 characters are not modelled. A `char` stands for one byte of a C string, and the field capacities count bytes, as `sizeof` does.
- Storage.Store.SaveBase: reports success only when the whole serialized record was accepted, which is the corrected behaviour (see Findings). As written, a partial write that accepted at least one byte also reports success. `Storage.SaveReportedAsWritten` states that result and `Storage.ShortWriteReportedAsSaved` exhibits it. The file contents after a save are the same in both readings.
- WebUi.WebUi.HandlePutBase: answers 200 only when `Storage.Store.SaveBase` reports the whole record written, so a short write answers 500 here where the code answers 200 (see Findings); `WebUi.PutResponseAsWritten` gives the code's answer and `WebUi.ShortWritePutAnsweredOk` exhibits the difference.
- WebUi.ItemEffect: its PUT case uses the corrected success test `Storage.SaveSucceeded`, so a short write answers 500 where the code answers 200.
- WebUi.WebUi.DispatchItem: inherits the corrected PUT answer from `WebUi.ItemEffect`.
- WebUi.Served: inherits the corrected PUT answer from `WebUi.ItemEffect`.
- WebUi.WebUi.Serve: inherits the corrected PUT answer from `WebUi.ItemEffect`.
- WebUi.PutThenGet: a PUT answered 200 here wrote the whole record; as written, a 200 can also follow a short write, after which the GET reads only a cut-off record.
- Storage.SaveThenLoad: holds only for a codec that reads back what it writes (`RoundTrips`), since ArduinoJson is not modelled. A failed save truncates the file, so nothing is claimed about the prior record surviving one.

## Findings

| source | as written | input that shows it | evidently intended | confidence | as-written member | corrected member |
|---|---|---|---|---|---|---|
| src/Storage.cpp:58 | `saveBase` reports success when `serializeJson` wrote any non-zero number of bytes. The file was opened with "w" and truncated, so a short write leaves a cut-off record while the web UI answers 200 "OK". | a non-zero id, a record whose serialized text has at least 2 characters, and a file system that accepts 1 byte (`Wrote(1)`) | success only when the whole serialized record was written | medium, not executed | Storage.ShortWriteReportedAsSaved | Storage.Store.SaveBase |
| src/WebUI.cpp:253-257 | `handlePutBase` answers 200 "OK" whenever `saveBase` returns true, which as written includes a short write (the row above). | a valid id, a body that parses to a record whose serialized text has at least 2 characters, and `Wrote(1)` | 500 "Save failed" unless the whole record was written | medium, not executed | WebUi.ShortWritePutAnsweredOk | WebUi.WebUi.HandlePutBase |
