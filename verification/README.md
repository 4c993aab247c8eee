# Input logger core: a Dafny model

ConfusionDetectionSandbox records the discrete input transitions a user makes in one chosen application:
- key presses;
- mouse button presses;
- wheel scrolls.

Two low-level Windows hooks feed a queue. A drain loop hands queued entries to subscribers. The logger page then shows each entry in a list capped at 200 items and writes it through a channel to an append-only CSV file. The worker task behind that channel flushes the file after a write once ten seconds have passed since its last flush, and once more when it exits.

This project models that core as pure Dafny functions and small methods and proves properties of them. The modules follow the program:

- `Primitives`: option values, 32- and 16-bit integer ranges, the cast between `uint` and `int`, UTC date-times.
- `Decimal`: invariant-culture decimal text of integers and zero-padded digits, each with the parser that inverts it.
- `Rfc4180`: a reader for one comma-separated record as section 2 of RFC 4180 describes it. The writer's escaping and row layout are proved to read back through it.
- `HookService` (`InputHookService.cs`). It covers:
  - the foreground/PID filter;
  - the keyboard and mouse callbacks;
  - entry construction;
  - the message-to-operation map and the signed wheel delta;
  - `Start`/`Stop` on the running flag and hook handles;
  - one pass of the drain loop with multicast delivery.
- `CsvLog` (`CsvLogWriter.cs`). It covers:
  - `EscapeCsv` and the eight-field row;
  - the timestamp and file-name formats;
  - the header written only into an empty file;
  - the file as a sequence of records with a flushed prefix.
- `RunningApps` (`LoggerPage.xaml.cs`): reconciling the running-application list. Vanished processes are removed and new ones are inserted in ordinal name order.
- `LoggerPage` (`LoggerPage.xaml.cs`). It covers:
  - the recent-log cap;
  - the log worker's flush rule;
  - the `OnLog` forwarding guard;
  - the start/stop/toggle session machine, with its construction order and its full reset.

Win32 calls, clocks and thread interleavings are parameters of the model. Each of the following is an input:
- what `SetWindowsHookEx` returns;
- the foreground window;
- the converted point;
- the clock readings;
- which subscriber throws;
- how far the worker got before it saw the cancellation.

In four places the code does less than a reader might expect; the model follows the code:

- **Failed `Start`.** If either hook registration fails, `Start` throws after setting the running flag. The handle that did register stays registered, and the page keeps every session object it had created. `HookService.PartialStartKeepsHook` and `LoggerPage.StartLogging` state this.
- **Throwing subscriber.** The drain loop's `try` wraps the whole multicast invoke. A subscriber that throws therefore stops the subscribers after it from receiving that entry. `HookService.InvokeFromReaches` states this.
- **Shutdown order.** `StopLoggingIfNeededAsync` cancels the worker before completing the channel. The file then holds the rows of a prefix of the queued entries, not necessarily all of them. `LoggerPage.StopLoggingIfNeeded` states this.
- **A click during a stop.** The stop awaits its worker while the UI thread stays free, and the toggle handler is not guarded against re-entry. A Start clicked during that await is torn down by the first stop when it resumes, leaving the new hook registered and unreachable. `LoggerPage.ReentrantStartIsOrphaned` states this, and "## Findings" gives the corrected finish.

## Model

| member | source | states |
|---|---|---|
| Primitives.UInt32ToInt32 | ConfusionDetectionSandbox/Services/InputHookService.cs:178 | The `(int)pid` cast keeps values below 2^31 and maps larger ones to value minus 2^32 |
| Primitives.Int32ToUInt32 | ConfusionDetectionSandbox/Services/InputHookService.cs:173-178 | The unsigned reading of a signed pid casts back to the same signed pid |
| Decimal.NatToDigitsRoundTrip | ConfusionDetectionSandbox/Services/CsvLogWriter.cs:39 | Reading back the decimal digits of a natural number gives that number |
| Decimal.FormatIntRoundTrip | ConfusionDetectionSandbox/Services/CsvLogWriter.cs:39-46 | Invariant-culture integer text parses back to the same integer, negative values included |
| Decimal.PadDigits | ConfusionDetectionSandbox/Services/CsvLogWriter.cs:37 | Zero-padded fields have exactly the requested width, only digits, and the given value |
| HookService.KeyboardDown | ConfusionDetectionSandbox/Services/InputHookService.cs:195-196 | A keyboard entry carries the context's pid, the virtual key and the current time, and no coordinates or delta |
| HookService.MouseDown | ConfusionDetectionSandbox/Services/InputHookService.cs:198-199 | Never a key code and never a keyboard entry; a mouse entry whenever it is given a mouse operation, a position, and a delta exactly for the wheel operations |
| HookService.MapMouseOperation | ConfusionDetectionSandbox/Services/InputHookService.cs:154-162 | A captured mouse message gets a named operation, any other gets "mouse", and wheel messages exactly get wheel names |
| HookService.MapMouseOperationInverse | ConfusionDetectionSandbox/Services/InputHookService.cs:154-162 | The operation name determines the captured message it came from: the map is injective on captured messages |
| HookService.WheelDelta | ConfusionDetectionSandbox/Services/InputHookService.cs:134-139 | The delta is the high word of mouseData read as a signed 16-bit value: same bits mod 2^16, negative iff the top bit is set |
| HookService.WheelDeltaExamples | ConfusionDetectionSandbox/Services/InputHookService.cs:137-138 | One notch up is 120, one notch down is -120, and the low word is ignored |
| HookService.TryGetTargetForeground | ConfusionDetectionSandbox/Services/InputHookService.cs:165-182 | A context exists iff a target is set, a foreground window exists, its pid is not this process's and casts to the target; the context then holds that window and pid |
| HookService.NewHookService | ConfusionDetectionSandbox/Services/InputHookService.cs:90-95 | A new service is idle with an empty queue and the given target |
| HookService.Start | ConfusionDetectionSandbox/Services/InputHookService.cs:21-38 | No-op when running; otherwise marks running, stores both handles, fails with the last error iff either handle is zero, and is installed on success |
| HookService.StartTwiceIsNoOp | ConfusionDetectionSandbox/Services/InputHookService.cs:23-24 | A second Start after a first, successful or not, changes nothing and reports no error |
| HookService.PartialStartKeepsHook | ConfusionDetectionSandbox/Services/InputHookService.cs:24-34 | When only the mouse registration fails, Start reports the error yet leaves the service running with the keyboard handle held |
| HookService.Stop | ConfusionDetectionSandbox/Services/InputHookService.cs:40-57 | No-op when not running; otherwise idle afterwards, unhooks exactly the non-zero handles, cancels the loop iff one was live, and keeps the queue |
| HookService.StopIdempotent | ConfusionDetectionSandbox/Services/InputHookService.cs:40-43 | Stopping twice equals stopping once and the second stop unhooks nothing |
| HookService.KeyboardHookCallback | ConfusionDetectionSandbox/Services/InputHookService.cs:97-109 | Always returns the next hook's result; appends at most one entry and nothing else changes; appends iff nCode >= 0, a key-down message and the filter passes; the entry is a keyboard entry for the target with the key code |
| HookService.MouseHookCallback | ConfusionDetectionSandbox/Services/InputHookService.cs:111-152 | Always returns the next hook's result; appends iff nCode >= 0, a captured mouse message and the filter passes; the entry's operation names that message, its point is the converted one or the screen one, and only wheel messages carry a delta |
| HookService.CallbacksKeepQueueWellShaped | ConfusionDetectionSandbox/Services/InputHookService.cs:97-152 | Neither callback queues an entry with both or neither of a key code and a position: a queue of well-shaped entries stays well shaped |
| HookService.InvokeFromReaches | ConfusionDetectionSandbox/Services/InputHookService.cs:69-72 | Subscriber j receives an entry iff no subscriber before it threw on that entry |
| HookService.InvokeFromFirstOnly | ConfusionDetectionSandbox/Services/InputHookService.cs:71 | Delivery of one entry starting after the first subscriber never reaches the first subscriber |
| HookService.FirstSubscriberGetsQueueInOrder | ConfusionDetectionSandbox/Services/InputHookService.cs:69-72 | The first subscriber receives every queued entry exactly once, in queue order, whatever the others throw |
| HookService.InvokeSubscribers | ConfusionDetectionSandbox/Services/InputHookService.cs:71 | Invoking the subscribers for one entry performs exactly the deliveries of the reference multicast definition: in order, stopping after the first that throws |
| HookService.DrainTick | ConfusionDetectionSandbox/Services/InputHookService.cs:67-72 | One pass empties the queue, changes nothing else, and performs exactly the deliveries of the reference multicast definition |
| CsvLog.DoubleQuotes | ConfusionDetectionSandbox/Services/CsvLogWriter.cs:81 | Doubling quotes lengthens the text by its number of quotes |
| CsvLog.EscapeCsv | ConfusionDetectionSandbox/Services/CsvLogWriter.cs:77-82 | Empty text stays empty; text without comma, quote, CR or LF is unchanged; other text is enclosed in quotes with every quote doubled |
| CsvLog.EscapeCsvRoundTrip | ConfusionDetectionSandbox/Services/CsvLogWriter.cs:77-82 | An RFC 4180 reader gets back exactly the original text from an escaped field, whatever follows the field's comma |
| CsvLog.RecordRoundTrip | ConfusionDetectionSandbox/Services/CsvLogWriter.cs:50 | Joining escaped fields with commas gives a record an RFC 4180 reader splits back into those fields |
| CsvLog.FormatTimestamp | ConfusionDetectionSandbox/Services/CsvLogWriter.cs:37 | The timestamp is 23 characters with '-', '-', 'T', ':', ':', '.' at the positions of the `yyyy-MM-ddTHH:mm:ss.fff` pattern |
| CsvLog.TimestampIsTextData | ConfusionDetectionSandbox/Services/CsvLogWriter.cs:37 | A timestamp starts with a digit and never needs CSV quoting |
| CsvLog.TimestampRoundTrip | ConfusionDetectionSandbox/Services/CsvLogWriter.cs:37 | The timestamp text parses back to the same date-time to the millisecond |
| CsvLog.FileStamp | ConfusionDetectionSandbox/Services/CsvLogWriter.cs:18 | The file stamp is 15 characters with '_' between date and time |
| CsvLog.FileStampRoundTrip | ConfusionDetectionSandbox/Services/CsvLogWriter.cs:18 | The file stamp parses back to the date-time truncated to the second |
| CsvLog.LogFileName | ConfusionDetectionSandbox/Services/CsvLogWriter.cs:18 | The name is the prefix, '_', the stamp of the creation second and "_utc.csv" |
| CsvLog.LogFileNameSameSecond | ConfusionDetectionSandbox/Services/CsvLogWriter.cs:18 | Two sessions get the same file name iff they start in the same UTC second |
| CsvLog.FormatOptInt | ConfusionDetectionSandbox/Services/CsvLogWriter.cs:43-46 | A missing value is the empty field and only it; a present value never needs quoting |
| CsvLog.OptIntRoundTrip | ConfusionDetectionSandbox/Services/CsvLogWriter.cs:43-46 | An optional integer field reads back as the same optional value |
| CsvLog.RowHasHeaderLayout | ConfusionDetectionSandbox/Services/CsvLogWriter.cs:35-52 | A row reads back, with an RFC 4180 reader, as its eight unescaped fields in header order |
| CsvLog.RowFieldsLayout | ConfusionDetectionSandbox/Services/CsvLogWriter.cs:40-46 | The app name and operation fields are the values themselves, and each optional field is empty iff its value is absent |
| CsvLog.FieldsRoundTrip | ConfusionDetectionSandbox/Services/CsvLogWriter.cs:37-46 | The eight unescaped fields decode back to the entry and the app name |
| CsvLog.RowRoundTrip | ConfusionDetectionSandbox/Services/CsvLogWriter.cs:35-52 | Decoding a written row gives back the entry and the application name |
| CsvLog.HeaderLayout | ConfusionDetectionSandbox/Services/CsvLogWriter.cs:31 | The header reads back as the eight column names |
| CsvLog.Open | ConfusionDetectionSandbox/Services/CsvLogWriter.cs:15-33 | Opening appends to the existing records and keeps them durable; the header is added iff the file was empty |
| CsvLog.Write | ConfusionDetectionSandbox/Services/CsvLogWriter.cs:35-52 | Writing appends exactly one record, the entry's row, keeps the path, and makes nothing newly durable |
| CsvLog.Flush | ConfusionDetectionSandbox/Services/CsvLogWriter.cs:54-67 | A flush writes no record and leaves the path alone; afterwards every record written so far is durable |
| CsvLog.RowIsDataRow | ConfusionDetectionSandbox/Services/CsvLogWriter.cs:37 | Every row starts with a timestamp digit, so no row can be mistaken for the header |
| CsvLog.SingleHeader | ConfusionDetectionSandbox/Services/CsvLogWriter.cs:29-32 | A header followed by data rows contains the header exactly once |
| CsvLog.AppendKeepsWellFormed | ConfusionDetectionSandbox/Services/CsvLogWriter.cs:29-32 | Appending a row keeps a header-then-rows file in that shape |
| CsvLog.HeaderWrittenOnce | ConfusionDetectionSandbox/Services/CsvLogWriter.cs:29-32 | Starting from an empty or well-formed file, sessions that follow one another (each writer disposed before the next open) and their writes leave exactly one header |
| CsvLog.OpenedLogStaysSingleHeader | ConfusionDetectionSandbox/Services/CsvLogWriter.cs:29-32 | Reopening a non-empty log any number of times never adds a second header |
| RunningApps.OrdinalIrreflexive | ConfusionDetectionSandbox/Pages/LoggerPage.xaml.cs:202 | No name compares ordinal-greater than itself |
| RunningApps.OrdinalTransitive | ConfusionDetectionSandbox/Pages/LoggerPage.xaml.cs:202 | The ordinal order is transitive |
| RunningApps.OrdinalTotal | ConfusionDetectionSandbox/Pages/LoggerPage.xaml.cs:202 | Any two different names are ordinal-ordered one way or the other |
| RunningApps.KeepListedContents | ConfusionDetectionSandbox/Pages/LoggerPage.xaml.cs:185-191 | The reference filter keeps exactly the apps whose pid is still running |
| RunningApps.KeepListedKeepsSorted | ConfusionDetectionSandbox/Pages/LoggerPage.xaml.cs:185-191 | Removing vanished apps keeps a name-sorted list sorted |
| RunningApps.KeepListedKeepsUnique | ConfusionDetectionSandbox/Pages/LoggerPage.xaml.cs:185-191 | Removing vanished apps keeps a pid-unique list unique |
| RunningApps.RemoveVanished | ConfusionDetectionSandbox/Pages/LoggerPage.xaml.cs:185-191 | The backward removal loop equals the reference filter: an app stays iff its pid is still running |
| RunningApps.InsertIndex | ConfusionDetectionSandbox/Pages/LoggerPage.xaml.cs:199-210 | The index is past every name ordinal-less than the new name and before the first that is not |
| RunningApps.InsertKeepsSorted | ConfusionDetectionSandbox/Pages/LoggerPage.xaml.cs:199-211 | Inserting at that index keeps the list sorted by name |
| RunningApps.InsertContents | ConfusionDetectionSandbox/Pages/LoggerPage.xaml.cs:211 | Insertion adds the app and its pid and keeps everything else |
| RunningApps.InsertKeepsUnique | ConfusionDetectionSandbox/Pages/LoggerPage.xaml.cs:196-211 | Inserting an app whose pid is not listed keeps pids unique |
| RunningApps.AddNew | ConfusionDetectionSandbox/Pages/LoggerPage.xaml.cs:194-213 | The listed pids become the old ones plus the current ones; existing apps stay; sortedness and pid uniqueness are kept |
| RunningApps.Reconcile | ConfusionDetectionSandbox/Pages/LoggerPage.xaml.cs:184-213 | Afterwards the list's pids are exactly the running pids; surviving apps stay; every app comes from either list; order and uniqueness are kept |
| LoggerPage.ToViewItem | ConfusionDetectionSandbox/Pages/LoggerPage.xaml.cs:347-357 | Formatted with invariant-culture rules, the list item shows the same eight values as the CSV row, unescaped |
| LoggerPage.AppendRecent | ConfusionDetectionSandbox/Pages/LoggerPage.xaml.cs:347-362 | The list keeps the newest min(n+1, 200) items in arrival order, ending with the new one |
| LoggerPage.FlushesAreSpaced | ConfusionDetectionSandbox/Pages/LoggerPage.xaml.cs:282-286 | Between two consecutive periodic flushes at least ten seconds pass on the worker's clock |
| LoggerPage.LastFlushAfterFlush | ConfusionDetectionSandbox/Pages/LoggerPage.xaml.cs:282-286 | Until the next flush, the elapsed-time test measures from the reading stored at the last flush |
| LoggerPage.ProcessLogQueue | ConfusionDetectionSandbox/Pages/LoggerPage.xaml.cs:271-297 | The worker appends one row per entry in order; after each row the file's flushed count is all records so far when the ten-second schedule flushes and unchanged otherwise; every row is durable on exit |
| LoggerPage.DurableCountsTrace | ConfusionDetectionSandbox/Pages/LoggerPage.xaml.cs:279-290 | The flushed counts built row by row take every record after a flush and keep the previous count otherwise |
| LoggerPage.WorkerStep | ConfusionDetectionSandbox/Pages/LoggerPage.xaml.cs:279-286 | One loop turn appends the entry's row; the writer is flushed iff ten seconds passed since the last flush, restarting the interval, and its flushed count is unchanged otherwise |
| LoggerPage.TryWrite | ConfusionDetectionSandbox/Pages/LoggerPage.xaml.cs:372 | A completed channel refuses the entry; an open one appends it |
| LoggerPage.OnLog | ConfusionDetectionSandbox/Pages/LoggerPage.xaml.cs:337-373 | Without an app name or a channel nothing changes; otherwise only the capped recent list and the channel change, and the channel gets the entry unless completed |
| LoggerPage.StartLogging | ConfusionDetectionSandbox/Pages/LoggerPage.xaml.cs:247-269 | The session gets the target, a writer for the time-stamped file, a live channel, worker and running hook; a registration failure is reported with everything kept in place |
| LoggerPage.StartLoggingOrdering | ConfusionDetectionSandbox/Pages/LoggerPage.xaml.cs:259-268 | No intermediate state has a running hook until the last, and whenever the hook runs, writer, channel, worker and subscription are in place |
| LoggerPage.StopBegin | ConfusionDetectionSandbox/Pages/LoggerPage.xaml.cs:301-310 | Before the await the hook service is dropped, the worker's cancellation source is cancelled and the channel completed with its items kept; writer, worker and target stay; the steps come in shutdown order |
| LoggerPage.HookStopSteps | ConfusionDetectionSandbox/Pages/LoggerPage.xaml.cs:301-305 | Stopping the page's hook always detaches the handler, and cancels the drain loop and unhooks exactly the non-zero handles iff the service runs |
| LoggerPage.StopBeginSteps | ConfusionDetectionSandbox/Pages/LoggerPage.xaml.cs:301-310 | Before the await the page detaches its hook iff it has one, unhooks its handles iff it runs, cancels the worker iff a source exists and completes the channel iff one exists |
| LoggerPage.StopFinish | ConfusionDetectionSandbox/Pages/LoggerPage.xaml.cs:316-334 | After the await every session field is dropped whoever set it, the writer then held is disposed, and the rest of the page is kept |
| LoggerPage.ReentrantStartIsOrphaned | ConfusionDetectionSandbox/Pages/LoggerPage.xaml.cs:216-334 | A Start clicked during the stop's await installs a hook that the resuming stop drops without unhooking or unsubscribing, leaving the page marked as logging with no session |
| LoggerPage.StopFinishOwned | ConfusionDetectionSandbox/Pages/LoggerPage.xaml.cs:316-334 | The corrected finish clears the session only while it still holds the awaited worker and otherwise leaves the page alone; it disposes the captured writer |
| LoggerPage.StopFinishOwnedSequential | ConfusionDetectionSandbox/Pages/LoggerPage.xaml.cs:316-334 | Without an interleaved click the corrected finish equals the program's |
| LoggerPage.ReentrantStartSurvivesOwnedFinish | ConfusionDetectionSandbox/Pages/LoggerPage.xaml.cs:216-334 | With the corrected finish, a session started during the await survives whole with its hook running and its consumer ready |
| LoggerPage.StopLoggingIfNeeded | ConfusionDetectionSandbox/Pages/LoggerPage.xaml.cs:299-335 | Every session field is cleared; the handler is detached iff a hook service exists and its non-zero handles are unhooked iff it ran, before the worker is cancelled (iff a source exists) and the channel completed (iff one exists); the file is returned iff a writer existed and holds its earlier records plus the rows of a prefix of the queued entries; stopping a cleared page changes nothing and takes no step |
| LoggerPage.ToggleLogging | ConfusionDetectionSandbox/Pages/LoggerPage.xaml.cs:216-245 | With no selection nothing starts and nothing changes; with one a session starts on that pid; when logging, the session is stopped and cleared and the running hook's handles unhooked; starting takes no stop step |

## Findings

| source | as written | input that shows it | evidently intended | confidence | as-written member | corrected member |
|---|---|---|---|---|---|---|
| ConfusionDetectionSandbox/Pages/LoggerPage.xaml.cs:316-334 | after `await _loggingTask` the stop nulls and disposes whatever session the page then holds, including `hookService = null` without `Stop()` | click Stop, then Start with a selected process before the worker has exited: the second click installs a hook, the first stop resumes and drops it without `Stop()`; lines 241-243 then show "Start" while `isLogging` stays true, and the orphaned hook stays subscribed to `HookService_OnLog`, so its entries reach the channel of any later session | only the session that this stop began tearing down is released; a session started meanwhile keeps running and stays reachable | not executed; high, both clicks run on the UI thread and the handler has no re-entry guard | LoggerPage.ReentrantStartIsOrphaned | LoggerPage.StopFinishOwned |

## Left out

- Win32 interop: `SetWindowsHookEx`, `CallNextHookEx`, `GetForegroundWindow`, `ScreenToClient` and the rest are inputs to the model: their results are parameters.
- `wParam` is modelled as a 32-bit message number. The mouse callback's `ToInt32` is a checked conversion on 64-bit systems, and the `OverflowException` it throws for a value outside the 32-bit range is not modelled.
- Concurrency: the model has no thread interleavings. Its gaps:
  - it does not model hook callbacks enqueuing while a drain pass runs;
  - the worker's progress at shutdown is a parameter;
  - the recent-list update runs at once instead of on the UI dispatcher, and reads the app name at that moment rather than when the dispatcher runs it.
- The drain loop's outer `while`, its 10 ms delay and its cancellation: only one pass over the queue is modelled.
- HookService.DrainTick: the model's pass delivers the entries queued when it starts. The program's `TryDequeue` loop also delivers entries the callbacks enqueue during the pass; the model leaves those to the next pass and does not state eventual delivery.
- `StreamWriter` buffering, UTF-8 encoding, the byte-order mark, and the `CRLF` line ending: the file is a sequence of records, each with a flushed-or-not mark.
- I/O failures:
  - directory creation or opening the file failing in the writer's constructor;
  - a `Write` that throws and ends the worker;
  - the exception `Flush` swallows.
- `Dispose` on the hook service and the page's `Unloaded` handler: both reduce to the modelled `Stop` and stop path.
- Enumerating processes, window titles and icons, the refresh timer, and the error placeholder row: only the reconciliation of the two lists is modelled.
- RunningApps.OrdinalLess: compares Dafny characters, i.e. code points. .NET ordinal comparison uses UTF-16 code units, and the two differ for characters outside the Basic Multilingual Plane.
- Status text, button caption and style, and scrolling the list view: UI presentation only.
- LoggerPage.StopLoggingIfNeeded: does not promise that every queued entry reaches the file. The worker is cancelled before the channel is completed, so it may stop early.
- LoggerPage.StopLoggingIfNeeded: runs without an interleaved click. The UI thread is free during the program's `await _loggingTask`, so a second click can run the toggle handler inside the stop. That interleaving is modelled separately by `StopBegin`, `StartLogging` and `StopFinish`; the method itself uses the corrected finish, which coincides with the program's when nothing interleaves.
- LoggerPage.StopFinishOwned: tells the awaited worker from a new one by value, standing in for the reference comparison the corrected program would make; `ReentrantStartSurvivesOwnedFinish` therefore requires the new worker to have started at a different clock reading from the awaited one.
- CsvLog.HeaderWrittenOnce: covers sessions that follow one another, each writer disposed before the next open. The program decides on the header from the length on disk, so two writers open on one file at once, e.g. two sessions started in the same UTC second while the first header is still buffered (the re-entrant Start of "## Findings" is one way), can each write a header; the model does not cover that.
- CsvLog.Open: the writer's path is the file name alone. The program combines it with the `ConfusionDetectionLogs` folder under the user's documents; the directory part of the path is not modelled.
- LoggerPage.ToggleLogging: reports a failed hook registration as an `error` value. In the program the `Win32Exception` escapes the `async void` click handler unhandled, so the status text and button updates after `StartLogging` are skipped; the page state is the same, and the unhandled exception on the UI thread is not modelled.
- LoggerPage.ToViewItem: formats the list item with invariant-culture rules. The program formats the item's timestamp and numbers with the current culture, so under another culture the list can differ from the CSV row: fi-FI writes the time with '.' separators, and a culture whose negative sign is U+2212 writes negative coordinates with that sign.
- CsvLog.LogFileName: formats the file-name stamp with invariant-culture rules. The program builds it by string interpolation, i.e. with the current culture, whose calendar can change the year digits (a Buddhist-calendar culture writes 2569 for 2026).
- CsvLog.RowRoundTrip: the row keeps the timestamp only to the millisecond; `fff` drops the sub-millisecond ticks of `DateTime.UtcNow`. The model's time has millisecond resolution, so the round trip is exact there and says nothing about the dropped ticks.
- LoggerPage.StartLogging: does not release the hook handle that did register when `Start` throws, because the code does not.
