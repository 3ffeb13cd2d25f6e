# Watcher, modelled in Dafny

Watcher is a small Discord bot that watches a host's TCP connections. Every
few seconds it reads the host's inet connection table. It keeps the
connections that are `ESTABLISHED` on one of the watched local ports: 7 (SSH),
25565 (Minecraft) and 7777 (SSH-Chat). Each kept connection is identified by
the key (local port, remote IP, remote port). A key the previous cycle did not
see is new: for each entry whose key is new, the bot sends the operator a direct message and
appends a line to the day's log file, `YYYY-MM-DD-watcher.log`. At the end of
the cycle the set of known keys is replaced by this cycle's keys.

This project models that loop (`check_connections`), the log writer
(`log2file`) and the three message formats. It proves:

- which connections are reported and how they are classified;
- that the known set is fully replaced each cycle;
- that each message and log line decodes back to exactly the fields it was
  built from;
- that the log files only grow.

Modules, one file each:

- `Options`: the `Option` type.
- `Text`: prefix, suffix and separator splitting, used by the decoders.
- `Decimal`: decimal rendering of ports, zero-padded fields, and parsing back.
- `Clock`: a clock reading (`Instant`), rendered as `%Y-%m-%d` and
  `%Y-%m-%d %H:%M:%S`, with parsers.
- `Policy`: the watched ports, the service on each port, and its severity.
- `Formats`: the direct message, the log line, the log file name, and a
  decoder with a round-trip lemma for each.
- `Watcher`: connection entries and keys, the cycle's snapshot and alerts as
  functions, the trace of effects, and the class `ConnectionWatcher`. The class
  holds `known` and the effect trace. Its methods are `Step`, which is the loop
  body, and `CheckConnections`, which runs several cycles.

The side effects are recorded in `effects`, in the order they happen. Each
effect is either `Notify(notice)`, a direct message, or `Log(entry)`, a
`log2file` call. `Notifications` and `FileLines` turn this trace into the
message texts and the lines of each log file.

The defining functions have no row of their own; the lemmas about them do.
`Formats.Message` is the f-string of main.py:44-60, proved in `MessageRoundTrip`
and `PortMessages`. `Formats.LogLine` and `Formats.LogFileName` are the line and
file name of main.py:28-29, proved in `LogLineRoundTrip`, `LogLineIsOneLine` and
`LogFileNameRoundTrip`. `Watcher.Snapshot` is the set comprehension of
main.py:36-39, proved in `SnapshotMembers`. `Watcher.EntryAlerts` is the test of
main.py:41 for one entry, proved in `AlertsOfEntry`. `Watcher.AlertEffects` is
the message and log call of main.py:42-63, proved in `AlertEffectsOutputs` and
`ReportOutputs`. `Watcher.RunEffects` is the loop of main.py:35-70 over a run,
proved in `ScenarioTrace` and tied to `CheckConnections`.

## Model

| member | source | states |
|---|---|---|
| Policy.Classify | main.py:42-63 | The branch on the local port is defined exactly on the watched ports `[7, 25565, 7777]`, and maps each port to the service watched on it |
| Policy.LevelOf | main.py:48-63 | A report is logged at level ALERT exactly when it is for SSH; the chat and Minecraft servers log INFO |
| Formats.ServicePrefix | main.py:44-60 | The SSH message carries the `[ALERT] ` tag and the other two carry `[Info] ` |
| Formats.PortMessages | main.py:42-63 | Port 7 opens its message with `[ALERT] New SSH connection on port ` and logs `ALERT`; port 7777 opens with `[Info] New SSH-Chat connection on port ` and logs `INFO`; port 25565 opens with `[Info] New Minecraft connection on port ` and logs `INFO` |
| Formats.MessageRoundTrip | main.py:44-60 | A message decodes to exactly the service, local port, remote IP, remote port and time it was built from, for any remote IP text |
| Formats.LogLineRoundTrip | main.py:29 | A log line decodes to exactly its time, level, remote IP, remote port and local port, for any remote IP text |
| Formats.LogLineIsOneLine | main.py:29 | A log line ends in its only newline, provided the IP text has none |
| Formats.LogLineDatedLikeFile | main.py:28-29 | `log2file` reads the clock once for the file name and again for the line: the line's date matches the file's name exactly when both readings fall on the same day, so a call that straddles midnight puts a line dated one day into the previous day's file |
| Formats.LogFileNameRoundTrip | main.py:28 | The log file's name is the date followed by `-watcher.log`, and the year, month and day can be read back from it |
| Clock.TimeStampRoundTrip | main.py:29 | For any instant a `datetime` can hold (a day the month has, leap years included), `%Y-%m-%d %H:%M:%S` is 19 characters, begins with the `%Y-%m-%d` date, and parses back to the reading |
| Clock.DateStampRoundTrip | main.py:28 | `%Y-%m-%d` is 10 characters and parses back to the year, month and day |
| Decimal.ParseDigits | main.py:44-45 | A port rendered in decimal reads back as the same number |
| Decimal.ZeroPadRoundTrip | main.py:28-29 | A zero-padded clock field has exactly its width and reads back as the same number |
| Watcher.SnapshotMembers | main.py:36-39 | A key is in the cycle's `current_connections` exactly when some entry of the table is established, on a watched port and has that key |
| Watcher.Alerts | main.py:37-41 | No more alerts than table entries; every alert is for a key of this cycle's snapshot that the previous cycle lacked, and names the service of its port (that each entry raises at most one alert, in table order, is `AlertsOfEntry` with `AlertsInOrder`) |
| Watcher.AlertedKeysAreNew | main.py:38-41 | As a set, the alerted keys are exactly the snapshot minus the previous cycle's keys |
| Watcher.AlertsOfEntry | main.py:38-41 | A single entry raises one alert, carrying its own key, exactly when it passes the filter and its key was not known; otherwise none |
| Watcher.AlertsAppend | main.py:37 | Alerts are raised entry by entry: the alerts of two tables in a row are the alerts of the first followed by those of the second |
| Watcher.AlertsInOrder | main.py:37 | The alerts of entry `i` come after those of the entries before it and before those of the entries after it |
| Watcher.DuplicateEntryAlertsTwice | main.py:39-41 | An entry listed twice in one table enters the snapshot once but alerts twice, because the test looks only at the previous cycle's keys |
| Watcher.FirstCycleAlertsAll | main.py:33-41 | Starting from no known keys, the first cycle alerts on every key of its snapshot |
| Watcher.RepeatedCycleIsSilent | main.py:36-67 | The same table seen twice in a row raises nothing the second time |
| Watcher.ForgottenKeyRealerts | main.py:36-67 | A key missing from one cycle's snapshot is alerted by the next cycle that has it, whatever came before (the full seen, gone, back run is `ReappearanceScenario`) |
| Watcher.ScenarioTrace | main.py:32-70 | The seen, seen, gone, back run reports the connection on the first and the last cycle and on no other |
| Watcher.ReappearanceScenario | main.py:32-70 | Over four cycles (seen, seen, gone, back) the operator gets exactly two messages, for the first and the last cycle, and the log gains exactly the two matching entries, each in the file named for its cycle's reading |
| Watcher.ReportOutputs | main.py:42-63 | Each report yields exactly one direct message and one entry in the log file named for the cycle's reading, in report order; the message carries the report's service, key and time, and the entry its level, remote IP, remote port and local port. With one reading per cycle no other file is touched |
| Watcher.CycleFileLines | main.py:27-63 | The lines one cycle appends to the file named for its reading are, one per alert and in table order, the `log2file` lines for the alert's remote IP, remote port, local port and level, and each decodes back to exactly those fields |
| Watcher.CycleNotifications | main.py:42-62 | The direct messages of one cycle are, one per alert and in table order, the message for the alert's service and key, and each decodes back to exactly those fields |
| Watcher.EffectsOfTimely | main.py:45-60 | Every effect a cycle records carries the cycle's clock reading, so a valid reading gives a trace whose every time stamp is valid |
| Watcher.CycleExtendsTrace | main.py:28-29 | A cycle only appends to the trace: no file loses or changes a line, and a timely trace stays timely |
| Watcher.AlertEffectsOutputs | main.py:47-48 | One report sends one message and writes one entry to the file of its day |
| Watcher.NotificationsDecode | main.py:44-47 | Every direct message in the trace decodes to the notice it reports |
| Watcher.FileLinesDecode | main.py:28-29 | Every line appended to a log file decodes to the entry it was written for |
| Watcher.NotificationsRender | main.py:44-47 | The trace's messages are its notices, rendered one by one in order, and each notice of a timely trace has a valid time |
| Watcher.NoticesTimely | main.py:44-60 | Every notice in a timely trace carries a valid clock reading |
| Watcher.FileLinesRender | main.py:28-29 | The lines appended to a file are the trace's entries for that file's day, rendered one by one in order |
| Watcher.FileLinesAppend | main.py:28 | Files are opened for appending: a later trace adds lines after the earlier ones and changes none of them |
| Watcher.NoticesAppend | main.py:47 | The messages of two traces in a row are those of the first followed by those of the second |
| Watcher.EntriesAppend | main.py:48 | The log entries of two traces in a row are those of the first followed by those of the second |
| Watcher.EffectsOfConcat | main.py:37-63 | The effects of a run of reports are those of its parts, in order |
| Watcher.CycleStep | main.py:37-41 | One more table entry adds its key to the snapshot if it passes the filter, and its effects after those already produced |
| Watcher.ConnectionWatcher.constructor | main.py:33 | Monitoring starts with no known keys and no effects |
| Watcher.ConnectionWatcher.SendDmNotification | main.py:73-76 | Sending a message appends it to the trace and changes nothing else |
| Watcher.ConnectionWatcher.Log2File | main.py:27-29 | Logging appends one entry to the trace and changes nothing else |
| Watcher.ConnectionWatcher.ReportIfNew | main.py:41-63 | For an entry that passes the filter: if its key is not known, send the message for its service and then log at that service's level; otherwise do nothing. The known keys stay the same |
| Watcher.ConnectionWatcher.Step | main.py:36-67 | For a valid clock reading: after a cycle the known set is exactly this cycle's snapshot, a replacement and not a merge. The trace gains exactly the cycle's effects, in table order, no file loses or changes a line, and a timely trace stays timely |
| Watcher.ConnectionWatcher.CheckConnections | main.py:35-70 | Over a run of cycles with valid readings, each cycle starts from the keys the previous one left. The trace gains every cycle's effects in order and stays timely |

## Left out

- The Discord bot is left out: `bot`, `on_ready`, `fetch_user` and `send` (main.py:24-25, 73-86). A direct message is modelled as a `Notify` effect in the trace. The "user not found" branch and its console message are not modelled.
- `psutil.net_connections` is an input. A cycle receives the table as a `seq<Conn>` that holds only the fields the watcher reads. For a non-established socket the source's `raddr` may be empty; the filter discards such entries before `raddr` is read, so the model always gives an address.
- Async scheduling is left out: `asyncio.sleep`, `CHECK_INTERVAL`, `create_task` and the endless `while True`. One cycle is one `Step`. A run of cycles is `CheckConnections` over a finite sequence of polls.
- `datetime.now()` is a parameter. Each cycle receives one clock reading, `Instant`, which is used for every message, log line and file name of that cycle. The source reads the clock separately for the message, the log line and the file name, so its readings can differ by a second, or even by a day around midnight.
- Formats.LogLineDatedLikeFile: the model proves when a line's date agrees with its file's name, but the rest of the model uses a single reading per cycle, so inside the watcher's trace the two always agree; the source's separate readings can disagree around midnight.
- Watcher.ReportOutputs: its clause that a cycle's entries all go to one file, and `CycleFileLines`, hold because the model uses one reading per cycle; the source reads the clock for every file name and line, so a cycle that crosses midnight appends to two files.
- `%Y` is modelled as a four-digit zero-padded year, for years 1 to 9999.
- Opening and writing files is left out. The lines a run appends to a log file are `FileLines` for its name; what the file held before the run (lines of earlier processes, kept by append mode) is not modelled.
- Console output (`print`) is left out.
- Process setup is left out: the `.env` loading, `DISCORD_TOKEN`/`USER_ID`, `bot.run` and the `KeyboardInterrupt` handling.
- maths.py is not part of this model. It is a separate plotting script that does not touch the watcher.
- Failure handling is left out. The source has none: an exception from enumeration, delivery or file writing simply ends the loop. The model assumes every effect succeeds. The direct message comes before the log write, as in the source.
- Severity levels other than INFO and ALERT are not modelled, and neither is a configurable port map. The code hard-codes the three ports and these two levels, with no fallback level, so the model follows the code.
- Watcher.ConnectionWatcher.Step: the trace records structured effects. The text a message or log line carries is given by `Message` and `LogLine`, through `Notifications` and `FileLines`; the trace does not store that text itself.
