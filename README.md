# sysmon-agent core, modelled in Dafny

This project models `core.py` of the sysmon-agent. The agent is a websocket
client. It reports the machine's hardware and usage to a collector. It
lists systemd or Windows services, reports on the ones it is told to
watch, and restarts services on request.

The model keeps the agent's decision and parsing rules. The subprocess
calls, `psutil`, the websocket and the clock become parameters:

- a subprocess call is a `Proc`: it completed with its output, it failed
  with `CalledProcessError` and its output, or it raised with a message;
- the hardware and usage snapshots are decoded JSON values;
- every reading of `time.time()` is a `real` parameter;
- an inbound message is a `Frame`: text on which `json.loads` raises
  `JSONDecodeError`, a message on which it raises anything else
  (`UnicodeDecodeError` on a binary frame that is not UTF-8,
  `RecursionError` on very deep nesting) with that exception's text, or
  the JSON value it decodes to.

Modules:

| module | models | form |
|---|---|---|
| `Outcomes` (outcomes.dfy) | `Option` and `Call`, a value returned or an exception raised | datatypes |
| `Text` (text.dfy) | the Python `str` operations the parsers use: `strip`, `splitlines`, `split(None, n)`, `split(sep)`, `split(sep, 1)`, `startswith`, `in` | functions and lemmas |
| `Json` (json.dfy) | decoded JSON values, `dict.get`, truthiness, iteration, `str()` | functions |
| `Services` (services.dfy) | `ensure_platform_supported`, `list_services` and its two parsers, `get_service_status`, `restart_service` | functions; the parser loops are methods |
| `Watch` (watch.dfy) | `get_watched_services_status` | function plus the loop as a method |
| `Messages` (messages.dfy) | the outbound envelopes, `send_error`, `send_success` | datatypes and functions |
| `Dispatch` (dispatch.dfy) | `handle_message` | functions and lemmas |
| `Config` (config.dfy) | the checks of `load_config` | function and lemmas |
| `Connection` (connection.dfy) | `transmit`: the clamped reconnect delay, fatal versus transient endings, and the order of one connection's messages | functions, lemmas and the retry loop as a method |
| `Client` (client.dfy) | class `Agent`: the global `WATCH_SERVICES` as a mutable field, `handle_message`, one `send_loop` tick, and one connection's session | class with methods, plus specification functions |

Each imperative part of `core.py` is a method proved against a function:

- `Services.ParseUnits` and `Services.ParseScQuery` are the two `list_services` loops;
- `Watch.WatchedServicesStatus` is the append loop of `get_watched_services_status`;
- `Connection.Transmit` is the retry loop;
- `Client.Agent` holds `WATCH_SERVICES` as its field `watch`; its method `HandleMessage` reassigns it.

A record from `get_service_status` keeps the unused keys `running` and
`status`, set to `None`. This is part of `Services.StatusJson`.

## Model

| member | source | states |
|---|---|---|
| Services.Gate | core.py:157-163 | The gate passes exactly the OS names `Linux` and `Windows`. Every other name gets the text `<os> is not supported yet.` |
| Services.GateFirst | core.py:157-163 | On an unsupported OS, `list_services`, `get_service_status` and `restart_service` all raise the gate's message, whatever their subprocesses would have done. |
| Text.Strip | core.py:176 | `strip()` leaves no whitespace (Python's `isspace` set) at either end, and never lengthens the text. |
| Text.StripSurrounded | core.py:193 | Stripping removes exactly the surrounding whitespace: whitespace + text + whitespace strips to the text. |
| Text.StripTrimmed | core.py:176 | A text without whitespace at its ends is its own strip. |
| Text.SplitLinesNoBreak | core.py:176 | No line produced by `splitlines()` contains a line boundary. |
| Text.SplitLinesJoin | core.py:176 | Lines without boundaries, joined with `\n`, whose last line is not empty, split back into exactly those lines. |
| Text.SplitWs | core.py:177 | `split(None, n)` yields at most n + 1 parts. |
| Text.SplitWsFields | core.py:177 | Every part of `split(None, n)` is non-empty, and each of the first n parts is whitespace-free. |
| Text.SplitWsJoin | core.py:177 | Round trip: whitespace-free words joined with single spaces split back into the same words; the last word may hold spaces once the split limit is reached. |
| Text.Find | core.py:197 | Returns the first position where the separator occurs, or `None` when it occurs nowhere. |
| Text.ContainsAt | core.py:198 | `t in s` holds exactly when `t` occurs at some position of `s`. |
| Text.SplitOnce | core.py:197 | `split(":", 1)` gives two parts exactly when the separator occurs. The first part has no separator, and part + separator + part rebuilds the text. Otherwise the one part is the text. |
| Text.Split | core.py:199 | `split(sep)` always yields at least one part, so the `[-1]` taken at core.py:199 exists. |
| Text.SplitNoSep | core.py:199 | No part of `split(sep)`, the last one included, contains the separator. |
| Text.LastNoSep | core.py:199 | The `[-1]` part of `split(sep)` contains no separator. |
| Text.SplitLast | core.py:199 | The `[-1]` part of `split(sep)` is a suffix of the text. It is the whole text exactly when the separator does not occur; otherwise it starts right after an occurrence of the separator. |
| Text.SplitAfterLast | core.py:199 | For a one-character separator and a separator-free `rest`, the `[-1]` part of `split(sep)` on `pre + sep + rest` is `rest`, whatever `pre` holds. |
| Text.JoinSplit | core.py:199 | Joining the parts of `split(sep)` with `sep` rebuilds the text. |
| Services.UnitsAppend | core.py:176-184 | The Linux parser works line by line and keeps order: the records of two runs of output are those of the first run, then those of the second. |
| Services.UnitsFromLines | core.py:176-184 | Every record comes from a line with at least four fields and holds that line's first four fields. Each field is non-empty and whitespace-free; shorter lines yield nothing. |
| Services.UnitLineParts | core.py:177-184 | A unit line with four whitespace-free columns, any leading whitespace, any non-empty whitespace padding between the columns, and a tail (the description) that is empty or starts with whitespace, parses back into exactly that unit. |
| Services.UnitLineShape | core.py:176-177 | Such a line has no line boundary, starts with a non-space character when it has no leading whitespace, and ends with one when its tail does. |
| Services.FailedUnitMarker | core.py:177-184 | A line that starts with the `●` marker `systemctl` prints before a failed unit, followed by whitespace, is recorded with `●` as its name and the columns shifted by one: name, load and active become load, active and sub. |
| Services.ParseUnitTable | core.py:176-184 | Round trip: the Linux parser, run on a table of such lines joined with `\n` and surrounded by any whitespace, returns exactly the printed units, one per line, in order. The first line may carry leading whitespace and the last line trailing whitespace, both of which the output's `strip()` removes. |
| Services.ParseUnits | core.py:176-184 | The Linux loop returns the records of the `Units` specification. |
| Services.ServiceName | core.py:197 | The name of a `SERVICE_NAME:` line is the stripped text after the prefix: the first colon is the prefix's own. |
| Services.StateAfterColon | core.py:198-199 | For a colon-free `rest`, the state of `pre + ":" + rest` depends on `rest` alone: the `[-1]` part of its stripped text split on two spaces. |
| Services.StateOfShape | core.py:198-199 | The state is a suffix of the stripped text after the last colon and holds no `"  "`. It is all of that text exactly when the text holds no double space; otherwise it starts right after one. |
| Services.ScBody | core.py:198-200 | Lines without a `SERVICE_NAME:` line change only the current record's `state`, to the value from their last `STATE` line. |
| Services.ScBlockStep | core.py:194-197 | A `SERVICE_NAME:` line flushes the record in progress and starts a new one, which the rest of its block completes. |
| Services.FlushNamed | core.py:195-196 | A record with a name is never dropped when flushed. |
| Services.ScPrelude | core.py:191-202 | Text before the first `SERVICE_NAME:` line yields one nameless record when it holds a `STATE` line, and nothing otherwise. |
| Services.ScRecordsBlocks | core.py:191-202 | Windows parser on block-structured output: one record per block, in order. Each record is named after its block's `SERVICE_NAME:` line and has the state of the block's last `STATE` line. These may be preceded by the nameless prelude record. |
| Services.ScLine | core.py:193-200 | One iteration of the Windows loop, on the mutable `current_service`, matches one step of the `ScFold` specification. |
| Services.ParseScQuery | core.py:191-202 | The Windows loop, including its final flush, returns the records of the `ScRecords` specification. |
| Services.Listing | core.py:166-207 | `list_services` raises exactly when the gate refuses the OS or the subprocess raises something other than `CalledProcessError`. `CalledProcessError` yields an empty list. |
| Services.ListServices | core.py:166-207 | The method with the platform gate, the subprocess outcome and the parser loop for the OS computes `Listing`. |
| Services.ServiceStatus | core.py:210-239 | Raises exactly on an unsupported OS or a raising subprocess. Otherwise returns the output as `status_message`. `is_running` holds exactly when the call completed and its output contains `Active: active (running)` (Linux) or `RUNNING` (Windows). A failed call counts as not running. |
| Services.RestartService | core.py:242-269 | On an unsupported OS it raises the gate's message. Otherwise it raises exactly when a subprocess it runs raises something other than `CalledProcessError` (the Linux call or `sc stop`, then `sc start` after a completed stop), with that exception's message. `success` holds exactly when every subprocess completed, with `Service restarted successfully.`; a `CalledProcessError` of the Linux call, of `sc stop` or of `sc start` gives `success: False` with `Failed to restart service: <its output>`. The record names the service. |
| Services.StopFailureSkipsStart | core.py:260-267 | On Windows a failed `sc stop` ends the restart with `Failed to restart service: <output>`; `sc start` plays no part. |
| Watch.WatchedRecord | core.py:274-280 | The record for a name carries that name. It is the fallback with the exception text exactly when the OS is unsupported or the status subprocess raises; otherwise it is what `get_service_status` returned. |
| Watch.WatchedRecords | core.py:272-282 | One record per watched name. |
| Watch.WatchedRecordsAt | core.py:272-282 | Record i is the record for watched name i, so output order is watch-list order. |
| Watch.WatchedStatus | core.py:272-282 | Raises exactly when the watch list is not iterable; otherwise returns the records for the names that iterating it yields. |
| Watch.WatchedNames | core.py:272-282 | A watch list given as a list of names gets exactly one record per name, carrying that name, in list order. |
| Watch.UnsupportedAllUnavailable | core.py:274-280 | On an unsupported OS every watched name is reported as `{name, is_running: False, status_message: <gate message>}`. |
| Watch.WatchedServicesStatus | core.py:272-282 | The append loop returns the records of the `WatchedRecords` specification. |
| Messages.KeysDistinct | core.py:442-460 | No envelope repeats a key: no payload key is one of `system_id`, `timestamp`, `type`, and no two payload keys coincide, so every entry of the dict literals at core.py:355-360, 377-383, 444-449 and 454-459 is sent. |
| Messages.ErrorEnvelope | core.py:442-450 | `send_error` sends exactly the keys `system_id`, `timestamp`, `type`, `error`, with the agent's identifier, the clock reading, the given type and the error text as the one payload field. |
| Messages.SuccessEnvelope | core.py:452-460 | `send_success` sends exactly the keys `system_id`, `timestamp`, `type`, `ok`, with the agent's identifier, the clock reading, the given type and the `ok` text as the one payload field. |
| Dispatch.Command | core.py:398-437 | Every reply to a decoded object carries the agent's identifier and the reply's timestamp. The watch list changes only when the type is `set_watch_services`. |
| Dispatch.HandleMessage | core.py:392-440 | An exception escapes exactly when `json.loads` raises something other than `JSONDecodeError`, whose text then escapes, or the frame decodes to a non-object, whose text is `'<type>' object has no attribute 'get'`. Then nothing is sent and the watch list is unchanged. A reply is sent exactly when the frame decodes to an object. |
| Dispatch.UndecodableIsSilent | core.py:439-440 | A frame on which `json.loads` raises `JSONDecodeError` gets no reply, leaves the watch list unchanged and raises nothing. |
| Dispatch.UnknownType | core.py:435-437 | An object whose type is not one of the three known kinds gets exactly one reply, `type: "unknown"` with error `Unknown message type`, and changes nothing. |
| Dispatch.MissingType | core.py:396 | A missing `type` defaults to `"unknown"`, which is not a known kind. |
| Dispatch.SetWatch | core.py:416-420 | `set_watch_services` replaces the watch list wholesale with `data["services"]`, or `[]` when absent, and replies with `ok: ""`. |
| Dispatch.WatchOnlySetBySetWatch | core.py:416-418 | A changed watch list implies the frame was a `set_watch_services` object. |
| Dispatch.RestartNeedsName | core.py:422-434 | Without a truthy `service`, the reply is the error `Missing service name`, and the outcome does not depend on the restart helper: it is never called. |
| Dispatch.RestartReplies | core.py:422-431 | With a truthy name, the reply is the success `Service <name> restarted successfully.` exactly when the restart helper returns, even with `success` false. When the helper raises, the reply is an error carrying the exception text. |
| Dispatch.GetServices | core.py:398-414 | `get_services` replies with the listed services, or with the listing's exception text. No other kind depends on the listing. |
| Dispatch.ReplyKind | core.py:398-437 | A reply's `type` is the request's type when that type is known, and `unknown` otherwise. |
| Config.LoadConfig | core.py:289-328 | A returned triple has a non-empty identifier, a non-empty `ws://` or `wss://` url, and a positive interval. |
| Config.Accepts | core.py:302-323 | The configuration is accepted exactly when every check passes. The triple holds the stripped identifier, the stripped url and the interval. |
| Config.FirstFailure | core.py:302-323 | The checks run in source order (identifier, url present, url scheme, interval convertible, interval positive), and the first failing check decides the `SystemExit` text. |
| Config.DefaultsToTen | core.py:296-317 | Without an `interval` key the interval is 10.0. |
| Config.Unreadable | core.py:298-328 | A file that cannot be read or decoded gives `Please fix the configuration file at <path> and try again.` |
| Connection.ReconnectDelay | core.py:340 | The delay lies in [1, 30]. It equals the interval when the interval is already in that range, 1 below it and 30 above it. |
| Connection.RetriesFromShape | core.py:342-373 | From any pass on, every sleep equals the delay. There is one sleep per non-fatal pass before the first fatal one, whose message becomes the exit text. |
| Connection.RetriesShape | core.py:340-373 | `transmit` waits the same clamped delay before every retry. It stops exactly when some pass ends with `InvalidURI` or `InvalidHandshake`, at the first such pass, with `WebSocket configuration error: <message>`. Every other ending is retried. |
| Connection.TransientPass | core.py:371-373 | A pass that ends in any exception other than the two websocket errors adds one sleep of the clamped delay, and the loop then goes on exactly as it would have without that pass. |
| Connection.Transmit | core.py:340-373 | The retry loop, with its delay computed once before the loop, computes `Retries`. |
| Connection.WalkServing | core.py:363-367 | Once the loops run, the state machine accepts exactly the usage ticks and the four reply kinds. |
| Connection.SessionOrderShape | core.py:347-367 | A connection's messages follow the machine exactly when the first is `get_watch_services`, the second `hardware_info`, and the rest are loop messages. |
| Connection.HardwareBeforeUsage | core.py:355-367 | No usage tick precedes the hardware description. |
| Client.UsageReport | core.py:376-384 | A tick raises exactly when the watch list is not iterable. Otherwise it sends a `usage_info` envelope with the agent's identifier, the tick's timestamp, the usage snapshot and the records of the current watch list. |
| Client.ReplayKinds | core.py:375-440 | Everything the two loops send carries the agent's identifier and is a usage tick or one of the four reply kinds. |
| Client.SetWatchThenTick | core.py:375-418 | After `set_watch_services` with a list of names, the next tick reports exactly on those names, one record each, in the list's order. |
| Client.ReplayEnded | core.py:363-373 | What ends a connection's loops is `'<type>' object is not iterable` for a non-iterable value (a tick's `TypeError`), `'<type>' object has no attribute 'get'` for a non-object (a frame's `AttributeError`), or the text of what `json.loads` raised on one of its frames. None of these is a websocket configuration error. |
| Client.RaisingFrameEnds | core.py:387-440 | A frame on which `handle_message` raises, anywhere in the events, ends the connection. |
| Client.QuietFramesRun | core.py:387-440 | A run of messages none of which makes `handle_message` raise never ends the connection. |
| Client.QuietRun | core.py:375-440 | Usage ticks on an iterable watch list, interleaved with frames that neither make `handle_message` raise nor set a watch list that cannot be iterated, never end the connection. With `ReplayEnded` and `RaisingFrameEnds`, a connection ends exactly when one of its events raises. |
| Client.UndecodableKeepsSession | core.py:387-440 | A frame on which `json.loads` raises `JSONDecodeError` leaves the connection running and the watch list unchanged, and sends nothing. |
| Client.Agent.constructor | core.py:334 | The watch list starts empty. |
| Client.Agent.HandleMessage | core.py:392-440 | The imperative handler sends the same reply as `Dispatch.HandleMessage`, raises the same exception, and leaves `WATCH_SERVICES` in the same state. |
| Client.Agent.Tick | core.py:376-384 | One `send_loop` tick, with its loop over the watch list, computes `UsageReport` on the current watch list. |
| Client.Agent.Session | core.py:344-367 | One connection sends `get_watch_services`, then `hardware_info`, then what the events produce, until an event raises. The watch list ends as the events leave it. All messages carry the agent's identifier and follow `SessionOrder`. |

## Left out

- Subprocess execution (`systemctl`, `sc`, `sudo`): each call is replaced by its outcome, a `Proc`.
- `psutil` metrics, `get_hardware_info`, `get_usage_info`, `get_network_info`, `_get_local_ip`, `_get_public_ip` and `_bytes_to_gib`: OS and network queries. Their results are opaque JSON parameters.
- The websocket transport: connecting, sending and receiving. Sends are modelled as always succeeding, and a broken connection is one way a pass of `transmit` ends (`Other`).
- `asyncio` concurrency: the two loops of a connection run in one given interleaving (a sequence of events), and `asyncio.sleep` is not modelled. `asyncio.gather` does not cancel the surviving loop when the other raises; the model ends the session at the first exception and does not model the surviving task.
- Connection.Transmit: the `while True` loop is modelled over a finite sequence of pass endings. When no pass is fatal, the model stops after the last given pass, while the program keeps retrying.
- `time.time()`: every timestamp is a `real` parameter.
- Watch.WatchedRecords: the status subprocess is a function `probe` of the watched name, so a name that appears twice in the watch list gets the same outcome both times, while `get_watched_services_status` runs the subprocess afresh for every entry.
- JSON and TOML decoding: the decoded values are inputs. JSON numbers are integers only, so floats and their `str()` are not modelled. A decoded object is assumed to have distinct keys.
- Json.Str: `repr` of strings inside lists and dicts is written with plain single quotes; Python's escaping and its choice of double quotes are not modelled.
- Config.LoadConfig: `str()` of a TOML value and `float()` of it are inputs (`Setting`). Which TOML values `float()` rejects is not modelled, nor the exception text that is only printed.
- Floating-point behaviour: `interval` is a real number. NaN and infinities in the clamp and in the `> 0` check are not modelled.
- `print` logging, `main`, `SYSTEM_ID` assignment and `KeyboardInterrupt` handling (core.py:466-479). `SYSTEM_ID` is the agent's constant `systemId`.
- `get_os()` is called by the gate and again by each helper; the model reads the OS once, as one value.
- Text.SplitLines and Text.LinesFrom carry no ensures of their own; their properties are the lemmas `SplitLinesNoBreak` and `SplitLinesJoin`. In the same way, `Split`'s separator-free parts are the lemma `SplitNoSep`.

## Behaviour worth noting

- On connecting, the agent first sends `get_watch_services` and only then `hardware_info`.
- A `handle_message` call on a JSON value that is not an object (a list, a number) raises `AttributeError` at `data.get`. Nothing catches it: it ends the receive loop and, through `gather`, the connection, which `transmit` then retries.
- `handle_message` catches only `JSONDecodeError` from `json.loads`. A `UnicodeDecodeError` (a binary frame that is not UTF-8) or a `RecursionError` (very deep nesting) escapes it and ends the connection, like the `AttributeError` above (`Dispatch.HandleMessage`, `Client.RaisingFrameEnds`).
- `restart_service` gets a success reply whenever the helper returns, including when the returned record says `success: False`.
- The watch list is whatever `services` held, not necessarily a list of strings. A watch list that cannot be iterated makes every usage tick raise, so every connection ends at its first tick.
- The surviving loop is not cancelled when one of the two loops ends.
- A failed unit, which `systemctl` prefixes with `●`, is recorded with `●` as its name and its other columns shifted (`Services.FailedUnitMarker`).
