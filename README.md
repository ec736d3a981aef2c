# Server monitor bot: the logic inside the glue

The server monitor bot (`server_monitor_bot.py`) samples host metrics and posts them to a Discord channel. It keeps one status message there and edits it on a timer. It also answers `!stats`, `!cpu`, `!memory` and similar commands. Most of the file calls the Discord API, `psutil` and `subprocess`. This project models, in Dafny, the parts of it that are logic:

- **Publisher** (`publisher.dfy`): the `update_stats` timer task. It is a two-state machine over the tracked message id `monitor_message_id`. The chat service appears as the outcome each call would have in a tick: the channel lookup, `fetch_message`, `edit` and `send`. A call either succeeds, raises `NotFound`, `Forbidden` or another `HTTPException`, or fails at the connection level (`aiohttp.ClientError`, `asyncio.TimeoutError`). The library does not wrap the last kind in an `HTTPException`, so no `except` clause of the tick catches it. Building the embed (`create_stats_embed()`) can fail too, for example when a `psutil` read raises or `get_server_uptime` does; the tick then leaves before any chat call. The pure function `Step` is the transition. The class `Monitor` holds `channelId` (`MONITOR_CHANNEL_ID`) and `monitorMessageId`. Its method `UpdateStats` is the imperative tick, and it is proved to make exactly `Step`'s transition. `Run` chains ticks together.
- **Uptime** (`uptime.dfy`, using `text.dfy`): `get_server_uptime`'s chain of fallbacks. What `neofetch --stdout`, `uptime -p` and `uptime` print, and what `platform.system()` returns, are inputs. The three regular expressions are written as string searches. Each one is proved against a declarative statement of what the regex engine matches: the leftmost match, greedy or lazy. `Text` models Python's `str.strip()` (with Python's `isspace` set of characters) and `str.replace(p, '')`.
- **Gauge** (`gauge.dfy`): `create_progress_bar`. The fill count is `int(length * percent / 100)`, with `int` truncating toward zero. Python's string repetition yields nothing for a negative count.
- **Units and Network** (`units.dfy`, `network.dfy`): the `// (1024**2)` and `// (1024**3)` conversions of the embeds, and the count of `ESTABLISHED` connections.
- **Temperatures** (`temperatures.dfy`): the nested loops that build `temp_text`, as a method proved against a fold. Lemmas state which lines the field holds and when it is added.

Notes on the code:

- The fallback pattern after `Uptime: (.+)` is `up (.+?)(,|\n)`. It ends the capture at a comma or at a newline.
- When neofetch runs but neither pattern matches, the result is a fixed text. The platform commands are not tried.
- There are two fixed texts: "Unknown (neofetch available but format not recognized)" when neofetch ran, and "Unknown (neofetch not available)" when it did not.
- The first `except` catches only `SubprocessError` and `FileNotFoundError`. Any other exception from running neofetch (a `PermissionError`, say) leaves `get_server_uptime`. In the model, `ServerUptime` then returns `None`.
- A tracked id of `0` counts as "no message", because `if monitor_message_id:` is a truthiness test.
- `create_stats_embed()` (line 110) is outside every `try`. An exception from it leaves the tick before any chat call, with the tracked id kept.
- The `channel.send` that replaces a deleted message (line 120) is outside any `try`. If it fails, its exception leaves the tick with the old id still tracked. `discord.ext.tasks`, with its default `reconnect=True`, retries a body that raises one of a fixed set of classes: `OSError`, `aiohttp.ClientError`, `asyncio.TimeoutError`, `discord.GatewayNotFound` and `discord.ConnectionClosed`. It ends the task on any other exception. So `Run` goes on after a transport failure of any chat call, and after an embed failure of those classes (a `PermissionError` from neofetch is an `OSError`). It stops after any other embed failure, and after an `HTTPException` from the resend, because `HTTPException` is not retried. That library code is not part of this model; `Run` states this behaviour as an assumption about it.

## Model

| member | source | states |
|---|---|---|
| `Text.Strip` | server_monitor_bot.py:63 | the result is a slice of the input with only whitespace (Python's `isspace`) before and after it, and it neither starts nor ends with whitespace |
| `Text.StripUnique` | server_monitor_bot.py:63 | whitespace + a part with no whitespace at its ends + whitespace always strips to exactly that part |
| `Text.StripTrimmed` | server_monitor_bot.py:68 | a string without whitespace at its ends is unchanged by `strip()` |
| `Text.StripIdempotent` | server_monitor_bot.py:225 | stripping twice equals stripping once |
| `Text.StripKeepsNonSpace` | server_monitor_bot.py:225 | a string holding any non-whitespace character never strips to the empty string |
| `Text.RemoveAll` | server_monitor_bot.py:78 | `replace(p, '')` never lengthens the string |
| `Text.RemoveAllFixedPoint` | server_monitor_bot.py:78 | `replace(p, '')` leaves the string unchanged if and only if `p` does not occur in it |
| `Text.RemoveAllSinglePass` | server_monitor_bot.py:78 | the replacement is one pass: `"uup p ".replace("up ", "")` is `"up "`, which still contains `up ` |
| `Uptime.SearchLabel` | server_monitor_bot.py:61 | the search for `Uptime: (.+)` returns a match with no match starting earlier, or reports that no match exists |
| `Uptime.SearchUp` | server_monitor_bot.py:66 | the search for `up (.+?)` followed by a stop character returns the leftmost match, whose capture is the shortest one, or reports that no match exists |
| `Uptime.LabelGroupLeftmost` | server_monitor_bot.py:61-63 | group 1 of `Uptime: (.+)` is the rest of the line of the leftmost match |
| `Uptime.LabelGroupNone` | server_monitor_bot.py:61-62 | the label search finds nothing if and only if no position matches |
| `Uptime.LabelGroup` | server_monitor_bot.py:61-63 | group 1 of the label search is non-empty and contains no newline |
| `Uptime.UpGroup` | server_monitor_bot.py:66-68 | group 1 of the `up` search is non-empty, contains no newline, and holds a stop character at most as its first character |
| `Uptime.UpGroupLeftmost` | server_monitor_bot.py:66-68 | group 1 of `up (.+?)(,\|\n)` (or of `up (.+?),`) is the shortest capture of the leftmost match |
| `Uptime.UpGroupNone` | server_monitor_bot.py:66-67 | the `up` search finds nothing if and only if no position matches |
| `Uptime.UpMatchEnd` | server_monitor_bot.py:66 | a lazy match starting at a given position can end in only one place, so its capture is unique |
| `Uptime.LabelWins` | server_monitor_bot.py:61-63 | if neofetch output has a labelled uptime line, the result is the stripped rest of the first such line |
| `Uptime.UpWins` | server_monitor_bot.py:65-68 | with no label match, the result is the stripped leftmost shortest `up` capture that ends before a comma or newline |
| `Uptime.NeitherPattern` | server_monitor_bot.py:70 | neofetch ran but neither pattern matches: the "format not recognized" sentinel |
| `Uptime.FromNeofetch` | server_monitor_bot.py:61-70 | whatever neofetch prints, the text it yields neither starts nor ends with whitespace |
| `Uptime.FromPlatform` | server_monitor_bot.py:74-88 | off Linux, the fallback text neither starts nor ends with whitespace (on Linux the removal of `up ` can expose inner whitespace) |
| `Uptime.ServerUptime` | server_monitor_bot.py:53-88 | the function yields a text unless running neofetch raises an exception the first handler does not catch; a text from neofetch has no whitespace at its ends |
| `Uptime.LinuxFallback` | server_monitor_bot.py:75-78 | neofetch missing on Linux: the stripped output of `uptime -p` with `up ` replaced by nothing; output without `up ` is shown as stripped |
| `Uptime.DarwinFallback` | server_monitor_bot.py:79-83 | neofetch missing on macOS: the stripped capture of the first `up (.+?),` in the `uptime` output |
| `Uptime.UnavailableOtherwise` | server_monitor_bot.py:84-88 | every other way without neofetch ends in the "neofetch not available" sentinel |
| `Uptime.ExampleLabel` | server_monitor_bot.py:61-63 | the output `Uptime: 3 days` gives `3 days` |
| `Uptime.ExampleUp` | server_monitor_bot.py:66-68 | the output `up 2 hours,` gives `2 hours` |
| `Uptime.ExampleUnavailable` | server_monitor_bot.py:88 | no neofetch, on a system that is neither Linux nor macOS, gives the "not available" sentinel |
| `Gauge.Trunc` | server_monitor_bot.py:234 | `int()` truncates toward zero: the result is within one of its argument, on the side of zero |
| `Gauge.Repeat` | server_monitor_bot.py:235 | `c * n` is `n` copies of `c`, or nothing when `n <= 0` |
| `Gauge.FilledCount` | server_monitor_bot.py:234 | the fill count is never negative for a non-negative percentage, and never above `length` for a percentage up to 100 |
| `Gauge.ProgressBar` | server_monitor_bot.py:232-236 | the bar is never shorter than `length` and holds only `█` and `░` cells |
| `Gauge.FilledCountInRange` | server_monitor_bot.py:234 | for a percentage in [0, 100], the fill count is `floor(length * percent / 100)` and lies in [0, length] |
| `Gauge.ProgressBarShape` | server_monitor_bot.py:232-236 | for a percentage in [0, 100], the bar has exactly `length` cells; cell k is `█` if and only if k < floor(length * percent / 100), and `░` otherwise |
| `Gauge.FilledBeforeEmpty` | server_monitor_bot.py:235 | whatever the percentage, no `░` comes before a `█` |
| `Gauge.FilledCountMonotone` | server_monitor_bot.py:234 | a larger percentage never fills fewer cells |
| `Gauge.ProgressBarOverflow` | server_monitor_bot.py:234-235 | when the fill count exceeds `length` (a percentage above 100) the bar is that many cells long; when it is negative the bar is `length` minus the count cells, so it is longer than `length` |
| `Gauge.ExampleOverflow` | server_monitor_bot.py:232-236 | 150 % with the default length draws 15 cells |
| `Gauge.ExampleDefault` | server_monitor_bot.py:232-236 | 45 % with the default length is four `█` and six `░` |
| `Units.ToMB` | server_monitor_bot.py:189 | the MB figure is the largest whole number of 1024² blocks that fits in the byte count |
| `Units.ToGB` | server_monitor_bot.py:198 | the GB figure is the largest whole number of 1024³ blocks that fits in the byte count |
| `Units.ToMBUnique` | server_monitor_bot.py:205 | those two bounds determine the MB figure: truncation, not rounding |
| `Units.ToGBUnique` | server_monitor_bot.py:347 | those two bounds determine the GB figure |
| `Units.UsedNotAboveTotal` | server_monitor_bot.py:189-198 | a used byte count no larger than the total is never displayed larger than the total, in MB or in GB |
| `Units.GBFromMB` | server_monitor_bot.py:198 | the GB figure is the MB figure divided by 1024, truncated |
| `Units.ExampleTruncates` | server_monitor_bot.py:189 | one byte short of 1 MB shows as 0 MB; 3.5 GB shows as 3 GB |
| `Network.EstablishedOnly` | server_monitor_bot.py:391 | the filter keeps every connection whose status is `ESTABLISHED`, as many times as it occurs, and no other connection |
| `Network.EstablishedCount` | server_monitor_bot.py:391 | the "Established" number never exceeds the "Total" number |
| `Network.EstablishedCountAppend` | server_monitor_bot.py:391 | the count over two lists joined is the sum of their counts |
| `Network.AllEstablished` | server_monitor_bot.py:391 | the two numbers are equal if and only if every connection is established |
| `Network.NoneEstablished` | server_monitor_bot.py:391 | the "Established" number is 0 if and only if no connection is established |
| `Temperatures.Line` | server_monitor_bot.py:223 | each reading's line ends in `°C` and a newline |
| `Temperatures.SensorText` | server_monitor_bot.py:222-223 | one sensor's text is empty if and only if the sensor has no readings |
| `Temperatures.TempText` | server_monitor_bot.py:220-223 | the accumulated text is empty if and only if no sensor has a reading |
| `Temperatures.TempField` | server_monitor_bot.py:217-227 | a field is added only when the sensor read succeeds, and its value has no whitespace at its ends |
| `Temperatures.AppendSensor` | server_monitor_bot.py:222-223 | the inner loop appends exactly one sensor's text: its readings' lines in order |
| `Temperatures.TemperatureField` | server_monitor_bot.py:217-227 | the nested loops produce the field that the fold `TempField` specifies: no field when the sensor read raises or returns nothing, otherwise the stripped accumulated text if it is non-empty |
| `Temperatures.TempTextIsLines` | server_monitor_bot.py:220-223 | the accumulated text is one `label-or-name: current°C` line per reading, sensors and readings in iteration order |
| `Temperatures.SensorTextIsLines` | server_monitor_bot.py:222-223 | one sensor's text is its readings' lines in order, each line headed by the reading's label, or by the sensor's name when the label is empty |
| `Temperatures.TempTextEmpty` | server_monitor_bot.py:224 | the accumulated text is empty if and only if there are no readings at all |
| `Temperatures.FieldPresent` | server_monitor_bot.py:219-225 | the field is added if and only if the sensor read succeeds and some sensor has a reading |
| `Temperatures.FieldNotEmpty` | server_monitor_bot.py:224-225 | a field that is added is never empty |
| `Publisher.Monitor.constructor` | server_monitor_bot.py:50 | the bot starts with no tracked message |
| `Publisher.Step` | server_monitor_bot.py:98-138 | a tick makes at most three calls; an escaping exception keeps the tracked id; the id changes only in a tick that sends |
| `Publisher.Monitor.UpdateStats` | server_monitor_bot.py:98-138 | one tick sets the tracked id, and returns the calls made and the escaping exception, exactly as `Step` prescribes |
| `Publisher.NoChannelNoCalls` | server_monitor_bot.py:101-108 | with channel id 0, or no channel found, a tick makes no call and keeps the tracked id |
| `Publisher.UntrackedSends` | server_monitor_bot.py:128-138 | with no message tracked, a tick makes one send; success tracks the new id; `Forbidden` or any other `HTTPException` keeps the old id and is handled; a transport failure keeps the old id and escapes |
| `Publisher.TrackedEdits` | server_monitor_bot.py:113-117 | with a message tracked, a successful fetch and edit keeps the same id and makes no send |
| `Publisher.EmbedFailureEscapes` | server_monitor_bot.py:110 | when building the embed raises, the tick makes no call, keeps the id, and the exception escapes, marked as one the loop retries or not |
| `Publisher.TrackedNotFoundResends` | server_monitor_bot.py:118-121 | `NotFound` on fetch or edit leads to exactly one send; success tracks the new id; a failed send escapes the tick with its exception and keeps the old id |
| `Publisher.TrackedOtherErrorKeeps` | server_monitor_bot.py:122-127 | `Forbidden` or another `HTTPException` on fetch or edit keeps the id and sends nothing |
| `Publisher.TrackedTransportEscapes` | server_monitor_bot.py:113-127 | a transport failure of the fetch or the edit escapes right after that call, with the id kept and nothing sent |
| `Publisher.StepInvariant` | server_monitor_bot.py:98-138 | in every tick: at most one send; every fetch and edit is of the tracked id; the id changes only to the id a send of this tick returned; an escape comes either before any call, exactly when the embed cannot be built, or from the last call made, carrying the error that call raised; an `HTTPException` escapes only from the resend that follows a fetch; either way the id is kept; every call before the last one returned or raised `NotFound` |
| `Publisher.Run` | server_monitor_bot.py:98-138 | consecutive ticks make at most three calls each, and without a send the tracked id is the same at the end as at the start |
| `Publisher.EmbedFailureEndsRun` | server_monitor_bot.py:110 | an embed failure that the loop does not retry ends the task: that tick and every later one makes no call |
| `Publisher.TransientEmbedFailureRetries` | server_monitor_bot.py:110 | an embed failure that the loop retries (an `OSError`, say) costs one tick: the later ticks run just as they would have from the same tracked id |
| `Publisher.TransportFailureRetries` | server_monitor_bot.py:98-138 | a tick that a transport failure ends is followed by the later ticks just as they would run from the same tracked id |
| `Publisher.TrackedStaysTracked` | server_monitor_bot.py:113-117 | ticks whose edits succeed all fetch and edit the one tracked message and never send |
| `Publisher.FailedSendRetries` | server_monitor_bot.py:128-138 | a failed first send, whether handled or retried by the loop, leaves nothing tracked, so the next tick sends again |
| `Publisher.SendThenEdits` | server_monitor_bot.py:113-132 | after a first send returns id n, every later call is a fetch or an edit of n |
| `Publisher.ThreeTicks` | server_monitor_bot.py:113-132 | a send on tick 1, then edits on ticks 2 and 3: calls `[Send, Fetch(n), Edit(n), Fetch(n), Edit(n)]`, with n tracked throughout |
| `Publisher.ClientTicks` | server_monitor_bot.py:113-132 | three calls of the class method, a send and then two successful edits: the calls are `[Send, Fetch(n), Edit(n), Fetch(n), Edit(n)]` and n stays tracked |
| `Publisher.ZeroIdIsUntracked` | server_monitor_bot.py:113 | a tracked id of 0 is never fetched: the tick sends a new message instead |

## Left out

- Discord itself is not modelled. This covers `bot`, `on_ready`, `before_loop`/`wait_until_ready`, the commands (`!stats`, `!uptime`, `!cpu`, `!memory`, `!disk`, `!network`, `!help_monitor`) and `ctx.send`. It also covers embed objects, titles, colours, fields, footers and timestamps. All of these are calls into a foreign library. The tick sees the chat service only through the outcome of each call.
- The text of the embed fields is not modelled. This includes the "used MB / total MB" lines, the CPU figures and the help text. It is presentation built by foreign calls. What is modelled is the numbers shown (`Units`, `Network`), the gauge, the uptime text and the text of the Temperatures field (`Temperatures`).
- `psutil` reads, `platform.*` and `subprocess.run` are not modelled. They are OS calls, and their results are inputs. Decoding process output as text (`text=True`) is left out.
- The `tasks.loop` timer, the update interval and the shared asyncio event loop are not modelled. They are runtime machinery. `Run` states as an assumption which escaped exceptions end the task and which are retried; it is not proved. The back-off delay before a retry is not modelled either: a retried tick is just the next tick.
- Floating point is replaced by exact arithmetic. `Gauge` takes `percent` as an exact `real`, where Python computes `length * percent / 100` in double precision. The two can differ when that number is within rounding error of an integer. A sensor's `current` reading is taken as its printed text.
- The bot's own uptime (`time.time()` and `datetime.timedelta` formatting), and the `:.2f` formatting of CPU frequency and times, are not modelled. They use a clock and float formatting.
- Loading `.env`, parsing `MONITOR_CHANNEL_ID` and `UPDATE_INTERVAL` with `int()`, and the token check before `bot.run` are not modelled. They are startup plumbing. The channel id is a parameter of `Monitor`.
- The `print` logging in every error branch is not modelled. It is output only.
- `Gauge.ProgressBar` takes `length` as a natural number. The only caller uses the default of 10.
- `Text.RemoveAll`: its contract says only that the result is no longer than the input. The lemmas say when it changes nothing. How many characters it removes is not stated.
