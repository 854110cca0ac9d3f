# Home dashboard: a verified model

The home dashboard is a small Python server and an e-ink client.

- **The server.** It keeps the last value fetched from four data sources: the date, live bus arrivals, the weather, and the next bin collection. It formats them afresh each time the client asks for a snapshot.
- **The client.** It wakes once a minute. It does a full refresh (fetching the snapshot and redrawing everything) every tenth wake and on a button press. On the other wakes it only redraws the clock.

This project models the core logic of both halves in Dafny and proves properties of the model.

| module | file | models |
|---|---|---|
| `Dashboard` | `dashboard.dfy` | The source registry, the cache of raw values and its update on fetch success or failure. Also cold-start population, snapshot assembly, the bus "due" text and the sunrise/sunset choice. |
| `Recycling` | `recycling.dfy` | Choosing the next bin collection from calendar events: keep the all-day events, classify each by keyword, stable-sort by date, take the first. |
| `Config` | `config.dfy` | Settings resolved from the command line, then the environment, then a default or an error. Covers the comma and `=` splitting and the log-level table. |
| `Unifi` | `unifi.dfy` | The map from a person's name to whether their phone is seen online. |
| `ClientState` | `client_state.dfy` | The client's fixed-size `State` struct and `fetchState`, which copies the JSON into it with `strcpy` and in-place array writes. |
| `ClientMain` | `client_main.dfy` | One wake of the client: the wake counter kept in RTC memory, the boot guard, full versus partial refresh, the `getState` guard and the sleep length. |
| `Text` | `text.dfy` | The Python string operations the server uses: `str(n)`, `int(s)`, `split`, `join`, `in` and `strip`. |
| `Wrappers` | `wrappers.dfy` | `Option` and `Result`. |

Conventions:

- Instants are whole seconds of naive local time counted from a local midnight. Dates are day numbers.
- A source fetch is a `Result`: a raised exception is a `Failure`.
- The clock, the network, the calendar library, the UniFi controller, the display and the RTC hardware are parameters of the operations that use them.
- Two renderings depend on the locale and on float formatting: the long date (`%A %d %B`) and `:.0f` of a float. They are passed in as functions (`Dashboard.Renderers`).

## Model

| member | source | states |
|---|---|---|
| `Dashboard.ClockText` | server/dashboard/__init__.py:85 | `%-H:%M` gives the hour with no leading zero (4 characters before 10:00, 5 after), a colon and two-digit minutes. It reads back as the instant's hour and minute. The sun event's time at line 128 uses the same text. |
| `Dashboard.CeilMinutes` | server/dashboard/__init__.py:80 | The rounded-up minute count m satisfies (m-1)·60 < seconds ≤ m·60. |
| `Dashboard.FormatDue` | server/dashboard/__init__.py:69-85 | The text is one of four forms: "due", "1 min", a text ending " mins", or a clock time that reads back as the due time's hour and minute. |
| `Dashboard.FormatDueIsDue` | server/dashboard/__init__.py:74-75 | The text is "due" exactly when the bus is due now or overdue. |
| `Dashboard.FormatDueIsOneMinute` | server/dashboard/__init__.py:77-78 | The text is "1 min" exactly when the bus is 1 to 60 seconds away. |
| `Dashboard.FormatDueIsMinutes` | server/dashboard/__init__.py:80-83 | The text is "N mins" exactly when 2 ≤ N ≤ 60 and the wait is more than N-1 and at most N minutes. |
| `Dashboard.FormatDueIsClockTime` | server/dashboard/__init__.py:82-85 | The text is the due clock time exactly when the bus is more than an hour away. |
| `Dashboard.FormatDueIsTimeRelative` | server/dashboard/__init__.py:93 | The text depends on the time of the read. One cached due time read five minutes apart shows different texts whenever the first read shows 6 to 60 minutes. |
| `Dashboard.FormatDueExamples` | server/dashboard/__init__.py:69-85 | Sample values with the clock at 10:00:00: 0 s → "due", 30 s and 45 s → "1 min", 300 s → "5 mins", 11:10 → "11:10". |
| `Dashboard.FormatArrivals` | server/dashboard/__init__.py:93 | One view per arrival, in order. Each keeps its route and destination; only the due time becomes text. |
| `Dashboard.FormatBusStops` | server/dashboard/__init__.py:87-96 | The append loop keeps the number and order of stops and of buses per stop. It keeps names, routes and destinations and replaces only the due times. |
| `Dashboard.SunEvent` | server/dashboard/__init__.py:116-128 | "Sunset" with the sunset clock time exactly when sunrise < now < sunset, both strict. Otherwise "Sunrise" with the sunrise time. |
| `Dashboard.SourceNamed` | server/dashboard/__init__.py:155-160 | A name identifies a registered source whose name it is, or no registered source has that name. |
| `Dashboard.NamesIdentifySources` | server/dashboard/__init__.py:155-160 | Distinct sources have distinct names, and looking a source up by its name finds it. |
| `Dashboard.RegisteredNamesAre` | server/dashboard/__init__.py:155-160 | The registry holds exactly "date", "bus_stops", "weather" and "recycling". |
| `Dashboard.NamesDistinct` | server/dashboard/__init__.py:155-160 | Different registry slots have different names, so each source owns one cache key. |
| `Dashboard.WellTypedKeys` | server/dashboard/__init__.py:161-169 | A cache written only by source updates has keys for registered sources only. |
| `Dashboard.FormatData` | server/dashboard/__init__.py:47-149 | The `format_data` of each source. The date is passed through. Bus stops are formatted as above. The weather gives two whole-number texts (rain with "%") and the sun event. The recycling entry gives the long date and the type. |
| `Dashboard.Updated` | server/dashboard/__init__.py:164-169 | A success sets only the source's own key to the fetched value. A failure leaves the cache equal to what it was. No other key changes in either case. |
| `Dashboard.ApplyAll` | server/dashboard/__init__.py:164-169 | A run of fetches never removes a cache key. A key it adds belongs to a source that succeeded in that run. |
| `Dashboard.ApplyAllAppend` | server/dashboard/__init__.py:164-169 | Applying two runs of fetches in turn is applying their concatenation. |
| `Dashboard.EntryUntouched` | server/dashboard/__init__.py:164-169 | Fetches that never succeed for a source leave its entry, or its absence, as it was. |
| `Dashboard.LastSuccessKept` | server/dashboard/__init__.py:164-169 | Stale data survives failures: after a source's last success, its entry holds that value whatever later failures or other sources do. |
| `Dashboard.InitialUpdates` | server/dashboard/__init__.py:182-186 | The cold-start round is one fetch per source in registry order, with the outcomes given. |
| `Dashboard.InitialisedEntries` | server/dashboard/__init__.py:179-186 | After the cold-start round, each source whose fetch succeeded has an entry equal to what it fetched. Each source whose fetch failed has the entry it had before, so none at start-up. |
| `Dashboard.Cache.constructor` | server/dashboard/__init__.py:161 | The cache starts empty. |
| `Dashboard.Cache.UpdateDataSource` | server/dashboard/__init__.py:164-169 | The cache becomes `Updated` of the old cache with this outcome, and stays well typed. |
| `Dashboard.Cache.InitialiseDataFetching` | server/dashboard/__init__.py:182-186 | The loop leaves the cache equal to the old cache with the cold-start fetches applied in registry order. |
| `Dashboard.Cache.GetData` | server/dashboard/__init__.py:193-201 | Succeeds exactly when every registered source has an entry. The result then has exactly the four registered keys, each the source's `format_data` of its entry at read time. Otherwise it fails with KeyError for the first missing source in registry order; no key is omitted. |
| `Recycling.Classify` | server/dashboard/recycling.py:28-29 | The type is always "Recycling" or "General Waste". |
| `Recycling.ClassifyByKeyword` | server/dashboard/recycling.py:28-29 | The type is "Recycling" exactly when the summary contains "RECYCLING" (case-sensitive), else "General Waste". Stripping never changes the outcome. |
| `Recycling.Candidates` | server/dashboard/recycling.py:23-34 | The loop keeps at most one collection per event, and one per event when every event is all-day. |
| `Recycling.CandidatesAreAllDayEvents` | server/dashboard/recycling.py:23-34 | Every candidate comes from an all-day event, every all-day event gives a candidate, and there are none exactly when no event is all-day. |
| `Recycling.Insert` | server/dashboard/recycling.py:36 | Insertion adds exactly the one element: the length grows by one and the multiset gains that element. |
| `Recycling.SortByDate` | server/dashboard/recycling.py:36 | The sorted list holds exactly the input's elements, each as often as in the input. |
| `Recycling.SortByDateCorrect` | server/dashboard/recycling.py:36 | The sort's result is ordered by date and is a permutation of its input. |
| `Recycling.SortedHeadIsFirstEarliest` | server/dashboard/recycling.py:36-37 | The first element after the stable sort has the earliest date. Among equal earliest dates it is the first in input order. |
| `Recycling.NextCollection` | server/dashboard/recycling.py:13-37 | Queries today to today + 30 days. Fails exactly when there is no all-day event in the window. Otherwise returns a candidate with the earliest date, the first such in calendar order, its date and type from the same event. |
| `Config.Setting` | server/dashboard/config.py:60-66 | A string setting comes from the command line if given and non-empty, else from the environment, else it fails with the setting's ValueError. |
| `Config.Port` | server/dashboard/config.py:36-42 | The port is the command-line value if non-zero. Else `int()` of DASHBOARD_PORT, which fails when that is not an integer. Else 8000. |
| `Config.PortFromEnvironment` | server/dashboard/config.py:39-40 | A port written in DASHBOARD_PORT in decimal is the port used. |
| `Config.PortZeroIsNotGiven` | server/dashboard/config.py:36 | `-p 0` behaves exactly as if no port were given. |
| `Config.BusStopIds` | server/dashboard/config.py:48-54 | The `-b` list if given, else BUS_STOP_IDS split on commas (never empty), else a ValueError. |
| `Config.BusStopIdsFromEnvironment` | server/dashboard/config.py:51-52 | The environment list has one more ID than the variable has commas, and joining it with commas gives back the variable. |
| `Config.BusStopIdsJoined` | server/dashboard/config.py:51-52 | A variable written as the comma-join of comma-free IDs gives back exactly those IDs. |
| `Config.LatLong` | server/dashboard/config.py:60-66 | Command line, then LAT_LONG, then a ValueError. |
| `Config.PirateApiKey` | server/dashboard/config.py:84-90 | Command line, then PIRATE_API_KEY, then a ValueError. |
| `Config.UnifiHostname` | server/dashboard/config.py:108-114 | Command line, then UNIFI_HOST, then a ValueError. |
| `Config.UnifiUsername` | server/dashboard/config.py:120-126 | Command line, then UNIFI_USERNAME, then a ValueError. |
| `Config.UnifiPassword` | server/dashboard/config.py:132-138 | Command line, then UNIFI_PASSWORD, then a ValueError. |
| `Config.RecyclingCalendarUrlAsWritten` | server/dashboard/config.py:72-78 | As written: when `-l` is given, the result is the `-r` value, possibly absent. Otherwise it is RECYCLING_CALENDAR_URL when set, whatever `-r` says, and else ValueError("No recycling calendar provided"). |
| `Config.RecyclingCalendarUrl` | server/dashboard/config.py:72-78 | Corrected: command line `-r`, then RECYCLING_CALENDAR_URL, then a ValueError. |
| `Config.RecyclingCalendarUrlAgreement` | server/dashboard/config.py:72-78 | The two versions agree whenever `-l` and `-r` are both given or both absent. |
| `Config.RecyclingCalendarUrlLostWithLatLong` | server/dashboard/config.py:72-73 | With `-l` given and the URL only in the environment, the version as written yields no URL and the corrected one yields the environment URL. |
| `Config.RecyclingCalendarUrlRefusedWithoutLatLong` | server/dashboard/config.py:72-78 | With `-r` given, no `-l` and no environment, the version as written fails and the corrected one yields the `-r` URL. |
| `Config.RecyclingCalendarUrlIgnoredWithoutLatLong` | server/dashboard/config.py:72-76 | With `-r` given, no `-l` and the variable set, the version as written yields the environment URL and the corrected one yields the `-r` URL. |
| `Config.LevelNumber` | server/dashboard/config.py:97 | Every registered level name maps to one of 0, 10, 20, 30, 40, 50. |
| `Config.LogLevel` | server/dashboard/config.py:96-102 | LOG_LEVEL defaults to INFO (20). A registered name gives its number. Any other name fails with "Invalid LOG_LEVEL: name". |
| `Config.LogLevelCaseSensitive` | server/dashboard/config.py:96-100 | "debug" is refused and "DEBUG" gives 10. |
| `Config.SplitPair` | server/dashboard/config.py:148 | Succeeds exactly when the pair has exactly one `=`. Name, `=` and MAC then rebuild the pair, and neither part contains `=`. |
| `Config.MacTableSucceeds` | server/dashboard/config.py:147-149 | The table is built exactly when every pair has exactly one `=`. |
| `Config.MacTable` | server/dashboard/config.py:145-151 | A built table has no `=` in any name or MAC. |
| `Config.MacTableKeys` | server/dashboard/config.py:145-151 | For pairs that each hold one `=`, the table is built, and a name is a key exactly when some pair carries it. |
| `Config.MacTableLastWins` | server/dashboard/config.py:147-149 | A name maps to the MAC of the last pair that names it. |
| `Config.MacTablePrefixFailure` | server/dashboard/config.py:147-149 | The first bad pair's error is the error of the whole list. |
| `Config.BuildMacs` | server/dashboard/config.py:145-151 | The loop returns exactly the table of the pairs, or the first pair's error. |
| `Config.UnifiMacs` | server/dashboard/config.py:144-162 | The `-m` pairs if given, else UNIFI_MACS split on commas, else a ValueError. |
| `Config.EmptyMacListFails` | server/dashboard/config.py:156-157 | An empty UNIFI_MACS is one empty pair, and it is refused. |
| `Unifi.LastSeenByMac` | server/dashboard/unifi.py:13 | The keys are exactly the clients' MACs. |
| `Unifi.LastSightingUsed` | server/dashboard/unifi.py:13 | For a MAC listed several times, the last record's last-seen time is used. |
| `Unifi.OnlineStatus` | server/dashboard/unifi.py:14 | The keys are exactly the configured names. A name whose MAC no client has is offline. Two names with the same MAC always get the same status. |
| `Unifi.OnlineStatusByLastSighting` | server/dashboard/unifi.py:12-14 | A name is online exactly when the last record of its MAC has last-seen minus now below 60, with the sign as written. |
| `Unifi.OnlineStatusIgnoresAge` | server/dashboard/unifi.py:14 | With every last-seen time at or before now, the status as written is just "the MAC is among the clients": the age never matters. |
| `Unifi.OnlineStatusAnyPastSighting` | server/dashboard/unifi.py:14 | A device last seen an hour ago counts as online. |
| `Unifi.RecentOnlineStatus` | server/dashboard/unifi.py:14 | The corrected status has exactly the configured names as keys. |
| `Unifi.RecentOnlineStatusByAge` | server/dashboard/unifi.py:12-14 | Corrected: online exactly when the MAC's last record was seen less than 60 seconds before now. A sighting an hour old is offline. |
| `ClientState.CString` | client/lib/State/State.h:12 | A buffer's C string is its longest NUL-free prefix, followed by a NUL unless it fills the buffer. |
| `ClientState.StrCpy` | client/lib/State/State.cpp:7 | `strcpy` keeps the buffer size, makes the buffer's C string the source's, and keeps the bytes after the terminator. It needs the source shorter than the buffer. |
| `ClientState.ZeroSnapshot` | client/lib/State/State.h:48-54 | The zeroed struct is well shaped, with every text empty, GENERAL_WASTE as the type, no buses and no one at home. |
| `ClientState.TypeOf` | client/lib/State/State.cpp:18-23 | GENERAL_WASTE exactly when the C string compared equals "General Waste" (`strcmp` stops at the NUL), else RECYCLING. |
| `ClientState.Decode` | client/lib/State/State.cpp:7-48 | The state after `fetchState` keeps every buffer and array at its declared size. |
| `ClientState.DecodeReadsBack` | client/lib/State/State.cpp:7-48 | After decoding: the date, weather texts and recycling date read back as the document's. The type is GENERAL_WASTE exactly for "General Waste". The first two stops are filled in order with their bus counts and bus texts. People are filled from slot 0 in document order. |
| `ClientState.DecodeKeepsUnusedSlots` | client/lib/State/State.cpp:33-47 | Time slots at or beyond a stop's bus count, and person slots beyond the number of pairs, keep their previous contents. |
| `ClientState.DecodeKeepsTrailingBytes` | client/lib/State/State.cpp:7-45 | Every buffer the decoder copies into (date, weather texts, recycling date, stop names, the route, destination and due of each bus read, each person's name) reads back as its document text and keeps its bytes after the new terminator. |
| `ClientState.DecodeReadsTwoStops` | client/lib/State/State.cpp:26-28 | Exactly two stops are read: stops after the second never affect the result. |
| `ClientState.CopyStop` | client/lib/State/State.cpp:28-37 | The inner loop gives exactly the decoded stop: its name, `timeCount` = the bus array size, and the first `timeCount` slots copied in order. |
| `ClientState.State.constructor` | client/src/main.cpp:32 | The RTC `State` global starts as the zeroed struct. |
| `ClientState.State.FetchState` | client/lib/State/State.cpp:3-56 | Returns true exactly when the document was fetched. On failure the state is unchanged. On success the state becomes `Decode` of the old state and the document. |
| `ClientState.State.CopyTexts` | client/lib/State/State.cpp:7-23 | The date, the four weather texts and the recycling date become what `Decode` gives for them. The collection type becomes `Decode`'s type: GENERAL_WASTE for "General Waste" and RECYCLING otherwise. |
| `ClientState.State.FillBusStops` | client/lib/State/State.cpp:26-38 | Stop i of the document is decoded into `busStops[i]` for both slots. |
| `ClientState.State.FillPeople` | client/lib/State/State.cpp:41-48 | Pair k is decoded into `people[k]` through the running index. Later slots are untouched. |
| `ClientMain.NextCount` | client/src/main.cpp:52-71 | An alarm advances the count and wraps it to 0 at 10. A button or a cold start resets it to 0. A count in 0..9 stays in 0..9. |
| `ClientMain.AlarmsCount` | client/src/main.cpp:55-62 | After k alarm wakes from count c, the count is (c + k) mod 10. |
| `ClientMain.TenthAlarmIsFull` | client/src/main.cpp:55-74 | From count 0, the next nine alarm wakes are partial and the tenth is full. |
| `ClientMain.SleepSeconds` | client/src/main.cpp:109-110 | Sleeps 60 - second, which is 1..60 for seconds 0..59. Beyond 60 the 16-bit result wraps. |
| `ClientMain.Device.constructor` | client/src/main.cpp:24-32 | The RTC globals start with count 0, not booted, no SD card, no network, temperature and voltage 0, an empty clock and the zeroed state. |
| `ClientMain.Device.Advance` | client/src/main.cpp:52-71 | The RTC counter becomes `NextCount` of its old value and the wake reason. No other global changes. |
| `ClientMain.Device.Boot` | client/src/main.cpp:120-134 | `boot()` sets `booted` and changes no other global. |
| `ClientMain.Device.GetState` | client/src/main.cpp:173-188 | Records the readings. Decodes the response into `state` only when connected. Otherwise `state` is unchanged. |
| `ClientMain.Device.Setup` | client/src/main.cpp:42-112 | Boot runs exactly when not yet booted. The count follows the wake reason. The refresh is full exactly when the count is then 0. A partial refresh changes only the clock text, leaving `state` and the sensor globals untouched. The sleep length is `SleepSeconds(second)`. |
| `Text.Decimal` | server/dashboard/__init__.py:83 | `str(n)` is a non-empty run of digits, one digit exactly for n < 10, with no leading zero except for 0 itself. |
| `Text.DecimalValue` | server/dashboard/__init__.py:83 | The decimal text of n reads back as n. |
| `Text.ParseInt` | server/dashboard/config.py:40 | `int(s)` succeeds exactly when s is digits, or a sign followed by digits. |
| `Text.ParseIntText` | server/dashboard/config.py:40 | `int(str(i)) == i` for every integer. |
| `Text.Split` | server/dashboard/config.py:52 | A split has at least one piece and no piece holds the separator. |
| `Text.Join` | server/dashboard/config.py:52 | A join starts with its first piece, followed by the separator when there are more. The inverse of `Split` below. |
| `Text.SplitCount` | server/dashboard/config.py:52 | A split has one more piece than the string has separators. |
| `Text.JoinSplit` | server/dashboard/config.py:52 | Joining the pieces of a split gives back the string. |
| `Text.SplitJoin` | server/dashboard/config.py:52 | Splitting a join of separator-free pieces gives back the pieces. |
| `Text.ContainsBounds` | server/dashboard/recycling.py:29 | A needle found by `in` is no longer than the text; the empty needle and the text itself are always found. |
| `Text.Strip` | server/dashboard/recycling.py:28 | `strip()` never lengthens, and its result is empty or starts and ends with a non-white-space character. |
| `Text.StripInside` | server/dashboard/recycling.py:28 | The stripped text is the original from the end of its leading white space, with only white space before and after it. |
| `Text.ContainsStrip` | server/dashboard/recycling.py:28-29 | Stripping white space never changes whether a needle that neither starts nor ends with white space occurs. |

## Left out

- The background scheduler, its thread and the `schedule` library's cadences. Cache updates are modelled as a sequence of fetches applied in order, which is all the sequential code does.
- The HTTP server, the logging set-up and the log messages.
- The network fetches: the bus API, the weather API, the calendar download and its iCalendar parsing and recurrence expansion, and the UniFi controller query. Their results are inputs: a `Result` per fetch, a `between` function for the calendar, a client list for the controller.
- `argparse` and `os.environ`. They become an `Args` record of optional values and a string map.
- The float formatting `:.0f` of temperature and rain, and the locale-dependent long date. They are the `Renderers` functions; the model does not fix their output.
- Dashboard.FormatDue: works on whole seconds. The code subtracts two `datetime`s and uses `total_seconds()`, a float with microseconds, so a due time a fraction of a second away is not modelled.
- Dashboard.Cache.GetData: one `now` stands for the separate `datetime.now()` calls the formatters make while one snapshot is built.
- Dashboard.Cache.InitialiseDataFetching: models the first fetch of each source, not the registration of its schedule.
- Text.ParseInt: accepts an optional sign and ASCII digits. Python's `int()` also accepts surrounding white space, underscores between digits and non-ASCII digits.
- Config.Port: the ValueError message quotes the text between plain single quotes; Python's `repr` would escape quotes and control characters inside it.
- Text.Strip: removes the ASCII white space `str.isspace` accepts (space, \t, \n, \v, \f, \r and 0x1C to 0x1F) only; non-ASCII white space such as U+0085 or U+00A0 is kept.
- Recycling.Classify: works on the summary text as given. The UTF-8 encoding and decoding of the iCalendar value is not modelled.
- ClientState.State.FetchState: the document is a typed datatype. ArduinoJson's lookups of missing keys or wrong types (a null string handed to `strcpy`) are not modelled. A missing `at_home` object is an empty pair list. A JSON string with an embedded NUL is copied up to that NUL, as `strcpy` would.
- ClientState.State.FetchState: overflowing a buffer or array is undefined behaviour. The document is required to satisfy `Fits` instead of modelling what an overflow would overwrite.
- ClientMain.Device.Setup: the display drawing, Wi-Fi start and stop, SD card and battery logging, RTC reads and deep sleep are left out. The clock text and the RTC second are inputs. `insideTemperature` is an unbounded integer rather than an `int8_t`, and `batteryVoltage` a real rather than a `double`.
- The server and the client disagree about the JSON shape: the server sends bus entries as arrays and no `at_home` object. Each side is modelled from its own code.

## Findings

| source | as written | input that shows it | evidently intended | confidence | as-written member | corrected member |
|---|---|---|---|---|---|---|
| server/dashboard/config.py:72-73 | The recycling URL's guard tests the lat-long option: `if self._args.lat_long: return self._args.recycling_calendar_url`. | `-l 51.75,-1.25` with RECYCLING_CALENDAR_URL set and no `-r` gives None. `-r URL` without `-l` and without the variable raises ValueError. `-r URL` without `-l` and with the variable set gives the variable's URL, not `-r`'s. | Test its own option, like every other setting: `-r`, then RECYCLING_CALENDAR_URL, then ValueError. | high; not executed | `Config.RecyclingCalendarUrlAsWritten` (counterexamples `Config.RecyclingCalendarUrlLostWithLatLong`, `Config.RecyclingCalendarUrlRefusedWithoutLatLong`, `Config.RecyclingCalendarUrlIgnoredWithoutLatLong`) | `Config.RecyclingCalendarUrl` (agreement `Config.RecyclingCalendarUrlAgreement`) |
| server/dashboard/unifi.py:14 | `online[mac] - now < 60`: a last-seen time is never later than now, so the difference is never positive and the test always holds. | A client last seen at t = 1000 with now = 4600, an hour later, is reported online. | `now - online[mac] < 60`: seen within the last minute. | medium; not executed | `Unifi.OnlineStatus` (counterexamples `Unifi.OnlineStatusAnyPastSighting`, `Unifi.OnlineStatusIgnoresAge`) | `Unifi.RecentOnlineStatus` (property `Unifi.RecentOnlineStatusByAge`) |

Two behaviours of the code worth stating outright:

- `get_data` raises KeyError for a source with no cache entry; it does not omit that source.
- A bus due 30 seconds after the read shows "1 min": only a due time at or before the read shows "due".
