# powermon in Dafny

A model of the three scripts of powermon, which records the readings of an
Owl CM180 energy sensor received by `rtl_433` and serves them as graphs:

- `powermon.py` reads the text output of `rtl_433`. It recognises the lines of
  the CM180 sensor and extracts the power and the timestamp with two regular
  expression searches. It turns each reading into an `rrdtool update` command,
  and with `--init` it builds the `rrdtool create` command for the round-robin
  database instead (module `PowerMon`, file `powermon.dfy`).
- `powermon2.py` reads the JSON output of `rtl_433`. It decides for each line
  whether to publish it to the MQTT topic `homeassistant/sensor/<model>/<id>`,
  skip it or drop it with an error. It relaunches `rtl_433` 60 seconds after
  its output ends (module `PowerMon2`, file `powermon2.dfy`).
- `powermon_web.py` answers GET requests. Without a `graph` query parameter it
  sends an HTML page of five graphs. With one it sends the PNG that
  `rrdtool graph` draws for the named window (module `PowerMonWeb`, file
  `powermon_web.dfy`).

`text.dfy` (module `Text`) holds what the three share: ASCII digits,
prefixes and occurrences of text, and the decimal rendering of numbers with its
inverse. `wrappers.dfy` holds the `Option` type.

Each script's pure logic is a set of functions: the search, the command texts,
the forwarding decision, the window table and the page. The step-by-step code
is methods proved against those functions:

- the reading loop of `run` (`PowerMon.Run`);
- the per-line body and the restart loop of powermon2's `main`
  (`PowerMon2.HandleLine`, `PowerMon2.Supervise`);
- the request handler, which sends its status, headers and body one by one
  (`PowerMonWeb.Handler`).

The external programs, the network and the clock are parameters or outputs:

- a process's output is a sequence of lines or events;
- a command that would be run is returned as a string;
- whether the MQTT broker accepted a message is a flag on the event;
- the PNG that rrdtool leaves in the temporary file is an argument.

Points where the code does something other than what its comments or names
suggest, which the model follows as written:

- The comment at powermon2.py:28 says "cap to a sensible max", but
  `max(int(p), 5000)` raises every reading to at least 5000. The adjusted
  value is never published anyway, because the payload is the raw line.
- A graph request for an unknown window answers 200 with the `image/png` type
  and an empty body.
- The single-step MIN and MAX archives keep 3600 rows, that is 10 hours.
- In powermon2.py, launching `rtl_433` (line 15) and reading its output
  (line 18) are outside the per-line `try`. An exception there leaves `main`
  and ends the program instead of being retried after 60 seconds.

## Model

| member | source | states |
|---|---|---|
| PowerMon.Search | powermon.py:63-66 | The search fails exactly when no occurrence of the marker is followed by a digit; a found group is a non-empty string of ASCII digits |
| PowerMon.DigitRun | powermon.py:63 | The greedy `\d+`: the digits read are the text at that position, and the character after them, if any, is not a digit |
| PowerMon.SearchFinds | powermon.py:63-66 | At the leftmost place where the marker is followed by a digit, the search returns the maximal digit run after the marker |
| PowerMon.ParseLine | powermon.py:62-66 | What the loop body makes of one line: skipped without the sensor prefix, a crash naming the field whose search fails, or the power and timestamp read. Its contract is `ParseLineCases` |
| PowerMon.ParseLineCases | powermon.py:62-66 | A line without the `Energy Sensor CM180` prefix is skipped. A prefixed line misses the power exactly when `power: ` is never followed by a digit. It misses the time exactly when the power is there and `Time: ` is never followed by a digit. Otherwise both fields are non-empty digit strings found by the two searches |
| PowerMon.ExampleLine | powermon.py:61-66 | The example line `Energy Sensor CM180, Id: 62a1, power: 577W, Time: 1452027145 ` gives power `577` and timestamp `1452027145` |
| PowerMon.UpdateCommand | powermon.py:51-52 | The update command starts with `rrdtool update <file> ` |
| PowerMon.UpdateCommandRoundTrip | powermon.py:51-52 | From an update command one reads back the timestamp before the colon and the power after it, so the order is `ts:power` |
| PowerMon.CreateCommand | powermon.py:30-42 | `rrdtool create <file>` followed by the words of the script's literal and its trailing space. Its contract is `CreateCommandRendersSchema` and `ArchiveRetentions` |
| PowerMon.CreateCommandRendersSchema | powermon.py:30-42 | The words of the create command are `--step 10`, the data source `DS:watts:GAUGE:300:0:5000`, and the ten archives LAST 1:60480, AVERAGE 1:4320, 6:1440, 60:1008, MIN and MAX each 1:3600, 6:1440, 60:1008, in order |
| PowerMon.ArchiveRetentions | powermon.py:26-41 | With a 10 s step the averages keep 12 h, 24 h and 7 days, as the comment says. The 6-step archives keep 24 h, the 60-step ones and the LAST archive 7 days, and the single-step MIN and MAX archives 10 h |
| PowerMon.RunFrom | powermon.py:57-68 | What `run` does from a given line on: the update command of each reading, until the stream ends or a missing field crashes it. Its contract is `RunIssuesReadings`, `CrashAtFirstMissing`, `CompletesWithoutMissing` and `NothingAfterCrash` |
| PowerMon.Run | powermon.py:57-68 | The loop issues exactly the commands of `RunFrom` and ends as it does |
| PowerMon.RunIssuesReadings | powermon.py:59-68 | The commands issued are the update commands of the accepted lines before the crash (or the end), one per line, in input order |
| PowerMon.CrashAtFirstMissing | powermon.py:62-66 | When `run` crashes, it is on the first prefixed line that lacks a field, and for that field |
| PowerMon.CompletesWithoutMissing | powermon.py:59-66 | `run` reaches the end of the stream exactly when no prefixed line lacks a field |
| PowerMon.NothingAfterCrash | powermon.py:63-66 | After a crash no later line is processed: adding lines after it changes neither the commands nor the outcome |
| PowerMon.NoSensorLinesNoUpdates | powermon.py:62 | A stream with no sensor line issues no command and completes |
| PowerMon.RunIssuesOnlyUpdates | powermon.py:68 | Every command `run` issues is an update of the given file |
| PowerMon.Launch | powermon.py:96-99 | With `--init` only the create command is issued. Otherwise only `run` executes, and all its commands are updates |
| PowerMon2.Truncate | powermon2.py:29 | `int()` of a float truncates toward zero |
| PowerMon2.PyIntReadsPyStr | powermon2.py:29-30 | `int` of the `str` of an integer is that integer again |
| PowerMon2.PyStrDistinguishesInts | powermon2.py:30 | Distinct integer ids render as distinct texts |
| PowerMon2.Decide | powermon2.py:21-30 | The decision for one line: drop with an error, skip, or publish on a topic. Its contract is `DecideCases`, `PayloadIsRawLine` and `PowerAdjustment` |
| PowerMon2.HandleLine | powermon2.py:21-30 | The per-line body is the same step by step: the id is reassigned, and the decoded object is updated in place. It takes the decision `Decide` describes |
| PowerMon2.DecideCases | powermon2.py:21-30 | A line is dropped as undecodable, without `model`, without `id` (checked before the model), or with a CM180 power `int()` rejects. It is skipped silently when the model is neither `CM180` nor `WG-PB12V1`. Otherwise it is published with the raw line as payload, on topic `homeassistant/sensor/<model>/<id>`, where the id is `1` for CM180 and `str(id)` otherwise |
| PowerMon2.PayloadIsRawLine | powermon2.py:29-33 | The payload is the line as read. The only change to the decoded object, its `power_W` entry, never reaches the broker |
| PowerMon2.Cm180TopicIgnoresId | powermon2.py:25-30 | Every published CM180 line goes to `homeassistant/sensor/CM180/1`, whatever id it carries |
| PowerMon2.IdRequiredEvenForCm180 | powermon2.py:23-26 | A CM180 line without `id` is dropped even though its id would be replaced |
| PowerMon2.PowerAdjustment | powermon2.py:27-29 | The adjusted `power_W` is always at least 5000. It equals the reading exactly when the reading is 5000 or more |
| PowerMon2.TopicDeterminesSensor | powermon2.py:30 | For the two known models the topic determines both the model and the rendered id |
| PowerMon2.Trace | powermon2.py:13-42 | The actions of the program over its events: a launch, then per line a publish, an error or nothing, at each end of output a 60 s sleep and a relaunch, and after an exception outside the per-line `try` the end of the program. Its contract is `LaunchCount`, `SleepThenLaunch`, `ExitEndsTrace`, `NothingAfterExit`, `PublishedOnlyForwardedLines` and `EveryForwardedLinePublished` |
| PowerMon2.Supervise | powermon2.py:13-42 | The loop produces exactly the actions of `Trace`, and stops at the first exception raised outside the per-line `try` |
| PowerMon2.LaunchCount | powermon2.py:13-42 | `rtl_433` is launched once at the start and once after every end of its output that comes before an exception ends the program |
| PowerMon2.SleepThenLaunch | powermon2.py:41-42 | The trace begins with a launch. Every sleep lasts 60 seconds and is followed at once by a launch |
| PowerMon2.ExitEndsTrace | powermon2.py:13-52 | The trace ends with the end of the program exactly when an exception was raised outside the per-line `try`, and nothing follows that end |
| PowerMon2.NothingAfterExit | powermon2.py:46-52 | Once an exception has left `main`, later events add no action |
| PowerMon2.PublishedOnlyForwardedLines | powermon2.py:30-36 | Every published message is the raw text of an accepted line, on the topic that line's decision names |
| PowerMon2.EveryForwardedLinePublished | powermon2.py:18-40 | Every line whose decision is to publish, which the broker accepts and which comes before any exception outside the per-line `try`, is published. No error on another line stops the loop |
| PowerMonWeb.WindowFor | powermon_web.py:89-101 | The if/elif table: `6h`, `1h`, `1h_raw`, `24h` and `7d` with their template, span and step, and no window for any other name. Its contract is `PageMatchesWindowTable` and `RespondCases` |
| PowerMonWeb.GraphCommand | powermon_web.py:66-98 | The `rrdtool graph` command of a window, formatted from its template. Its contract is `GraphCommandShape` and `DefReadsFile` |
| PowerMonWeb.DefReadsFile | powermon_web.py:70-72 | Each `DEF:` reads data source `watts` of the database file, with its consolidation function and the window's step |
| PowerMonWeb.GraphCommandShape | powermon_web.py:66-86 | The graph command starts with `rrdtool graph <tmpfile> --width 1200 --height 480` and holds `--start end-<duration> --end now`. It contains the template's DEFs, three (MIN, MAX, AVERAGE) or one (LAST), each reading the database file |
| PowerMonWeb.Page | powermon_web.py:38-56 | The HTML page of five titled graphs. Its contract is `PageShowsEveryWindow` and `PageMatchesWindowTable` |
| PowerMonWeb.PageShowsEveryWindow | powermon_web.py:38-56 | The page holds the `<img src="?graph=<w>" ...>` element of each of its five sections |
| PowerMonWeb.PageMatchesWindowTable | powermon_web.py:44-101 | The page asks for five distinct windows, and a name has a graph window exactly when the page asks for it |
| PowerMonWeb.Respond | powermon_web.py:25-32 | The reply to a GET: status, content type, body and the command run. Its contract is `RespondCases`, `FirstGraphValueSelects` and `GraphReplyCommand` |
| PowerMonWeb.RespondCases | powermon_web.py:25-32 | Every GET answers 200. The content type is `text/html` exactly when there is no `graph` parameter and `image/png` otherwise. The page is the body without one. No body is written and no command is run exactly when the window is unknown |
| PowerMonWeb.FirstGraphValueSelects | powermon_web.py:28-32 | Only the first `graph` value matters: later values and other parameters change nothing |
| PowerMonWeb.GraphReplyCommand | powermon_web.py:60-110 | For a known window the reply runs that window's command, drawing into the temporary file, and sends the bytes rrdtool left there |
| PowerMonWeb.Handler.DoGet | powermon_web.py:25-32 | The handler sends the status, then the headers and body of `Respond`, and runs its command |
| PowerMonWeb.Handler.RenderHtml | powermon_web.py:34-56 | The HTML content type, the end of the headers and the page are sent, in that order |
| PowerMonWeb.Handler.RenderGraphImage | powermon_web.py:60-110 | The PNG content type and the end of the headers are always sent. For a known window the command is run and the image written; for an unknown one nothing more is sent |

## Left out

- Launching `rtl_433`, running `rrdtool` through a shell, the temporary file
  and reading the PNG back are process and file I/O. The model has line and
  event sequences, command strings and the image as an argument.
- PowerMon.Run: a failing `rrdtool update` also raises out of `run` through
  `check_output` and ends it. The model treats every issued command as run,
  because the outcome of a command is outside the model.
- PowerMon.Launch: a failing `rrdtool create` raises in `init`. The model
  stops at issuing the command.
- `json.loads` is an input. A decoded value is `Option<map<string, Value>>`,
  and `None` stands for both a decoding error and a JSON value that is not an
  object, since indexing either raises.
- PowerMon2.PyInt: `int()` of a string is an optional sign and ASCII digits.
  Surrounding whitespace, underscores and non-ASCII digits, which Python also
  accepts, are not modelled.
- PowerMon2.PyStr: for floats, lists and objects, `str()` text is carried in
  the value rather than computed.
- The MQTT client, its host, protocol and credentials are network I/O. A
  publish is an action, and whether the broker took it is a flag on the event.
- `time.sleep(60)` is a `Sleep(60)` action, not real time.
- PowerMon2.Supervise: the `while True` loop ends only when an exception
  escapes it, so the model runs over any finite prefix of its events.
- The HTTP server loop, `do_HEAD`, `run_http`, argument parsing, logging,
  `print`, tracebacks and `KeyboardInterrupt` are plumbing with no logic to
  state.
- `urlparse`/`parse_qs` are an input. The query is a map from names to
  non-empty lists of values, which is what `parse_qs` returns.
- Python 2 byte strings and Python 3 text are both modelled as `seq<char>`.
