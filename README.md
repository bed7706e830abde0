# ESP32 LED controller: firmware request path and MCP client tools

This project models the two halves of a small LED controller.

- **The MicroPython firmware** (`esp32_firmware_micropython/main.py`) runs on an ESP32 and drives an LED on GPIO 2 through PWM.
  - `handle_request` reads one request.
  - It routes the request by the first `GET /...` pattern it contains.
  - `/led/on` and `/led/off` set the duty and the global `led_state`.
  - `/led/pulse` and `/led/blink` parse their integer parameters with `parse_query_params` and `int()`. Missing parameters take defaults.
  - Those two routes then start `pulse_led` or the nested `blink_led` on a new thread.
- **The MCP server** (`server/esp32_mcp_server.py`) exposes tools that build device endpoints.
  - `blink_led` and `pulse_led` build `led/blink?...` and `led/pulse?...`; `turn_led_on`, `turn_led_off` and `get_esp32_status` build the fixed ones.
  - `call_esp32` requests the endpoint.
  - In mock mode no request is made, and the LED is a flag on the server.
  - `set_esp32_ip` changes the device address.

Modules:

- `PyText`: the Python builtins the code relies on. These are substring `in`, `split(c, 1)`, `split(c)`, `strip()`, `int()` and the f-string rendering of integers.
- `Query`: `parse_query_params`. It is a loop method, proved equal to a fold over the `&`-separated pieces.
- `Hardware`: the PWM channel and the millisecond sleep. A `Board` class records every `duty` and `sleep_ms` call in a trace.
- `Firmware`: routing, parameters with defaults, and the thread bodies.
  - A `Device` class holds the board and `led_state`.
  - Its methods `PulseLed`, `BlinkLed` and `HandleRequest` are proved against trace functions.
  - `HandleRequest` returns the job it would hand to `_thread.start_new_thread`. The thread bodies are the methods `PulseLed` and `BlinkLed`, run on their own.
- `McpServer`: the tools and the mock state, as a `Server` class.
  - The fields are `mockLedState`, `ip` and `port`, plus the list of URLs requested.
  - The device's answer to an HTTP request is a parameter.
- `RoundTrip`: a request line built from a tool's endpoint goes to the handler the tool names, and the firmware reads back the same integers.

## Model

| member | source | states |
|---|---|---|
| PyText.ContainsOccurs | esp32_firmware_micropython/main.py:90 | `p in s` holds exactly when `p` occurs at some position of `s` |
| PyText.SplitPieces | esp32_firmware_micropython/main.py:76 | `split(c)` gives at least one piece, no piece holds `c`, and joining the pieces with `c` gives the text back |
| PyText.SplitJoin | esp32_firmware_micropython/main.py:76 | splitting the `c`-join of `c`-free pieces gives the same pieces back |
| PyText.SplitOnceAt | esp32_firmware_micropython/main.py:78 | `split(c, 1)` of `a + c + b`, with no `c` in `a`, gives `a` and `b` |
| PyText.FormatNat | server/esp32_mcp_server.py:27 | an f-string renders a natural number as non-empty digits, with no leading zero, that spell the number |
| PyText.ParseFormat | esp32_firmware_micropython/main.py:369 | `int()` reads back the f-string text of every integer, negative ones included |
| PyText.ParseDigits | esp32_firmware_micropython/main.py:369 | `int()` of a bare run of digits is the number they spell |
| PyText.ParsePrefixed | esp32_firmware_micropython/main.py:369 | a `0x`, `0o` or `0b` prefix, in either case, makes `int()` read the digits after it in base 16, 8 or 2 |
| PyText.PyStripShape | server/esp32_mcp_server.py:123 | `strip()` leaves a contiguous piece of the text, with only Python white space (Unicode spaces included) before it and after it |
| PyText.PyStripEnds | server/esp32_mcp_server.py:123 | what `strip()` leaves neither starts nor ends with white space |
| PyText.ParseIntBlank | esp32_firmware_micropython/main.py:369 | `int()` of empty or all-whitespace text raises, so a bare `?speed` is not an integer |
| Query.ParseQueryParams | esp32_firmware_micropython/main.py:68-83 | the loop returns exactly the fold of `AddPair` over the `&`-pieces of the query |
| Query.NoQuestionMarkNoParams | esp32_firmware_micropython/main.py:70-72 | a request without `?` has no parameters |
| Query.QueryStringBetween | esp32_firmware_micropython/main.py:71-72 | the query is the text after the first `?` and before the next space |
| Query.SplitAtFirstEquals | esp32_firmware_micropython/main.py:77-79 | a piece splits at its first `=`, so a value may hold `=` |
| Query.BareKey | esp32_firmware_micropython/main.py:80-81 | a non-empty piece without `=` binds its text to `""` |
| Query.AddPairBinds | esp32_firmware_micropython/main.py:77-81 | a non-empty piece binds its key to its value; an empty piece changes nothing |
| Query.LaterKeyOverwrites | esp32_firmware_micropython/main.py:79 | a later piece with the same key overwrites the earlier binding |
| Query.EmptyPiecesIgnored | esp32_firmware_micropython/main.py:80-81 | dropping empty pieces (`a=1&&b=2`, a trailing `&`) gives the same dictionary |
| Query.ParamsOfBindsLastPiece | esp32_firmware_micropython/main.py:76-81 | a key is present iff a non-empty piece names it, and it holds the value of the last such piece |
| Hardware.Board.SetDuty | esp32_firmware_micropython/main.py:14-17 | a `led_pwm.duty(v)` call appends one duty write to the trace |
| Hardware.Board.SleepMs | esp32_firmware_micropython/main.py:34 | a `time.sleep_ms(ms)` call appends one hold to the trace |
| Hardware.LastDutyAfterWrite | esp32_firmware_micropython/main.py:41-44 | the last duty written decides where the LED rests |
| Firmware.RouteOf | esp32_firmware_micropython/main.py:90-466 | the chosen handler's pattern occurs in the request |
| Firmware.RouteOfFirst | esp32_firmware_micropython/main.py:90-466 | no pattern tried before the chosen handler's occurs in the request; the 404 answer comes only when no pattern occurs |
| Firmware.Rank | esp32_firmware_micropython/main.py:90-454 | each handler has its position in the fixed order of the if/elif chain |
| Firmware.Received | esp32_firmware_micropython/main.py:87 | the request handled is a prefix of what the client sent: all of it up to 1024 characters, else the first 1024 |
| Firmware.PulseArgs | esp32_firmware_micropython/main.py:368-372 | the pulse job is started iff every given parameter is an integer; missing ones default to 20, 0, 1023 and 1 |
| Firmware.BlinkArgs | esp32_firmware_micropython/main.py:378-380 | the blink job is started iff every given parameter is an integer; missing ones default to 3 and 200 |
| Firmware.PulseDefaultTexts | esp32_firmware_micropython/main.py:369-372 | the default texts `'20'`, `'0'`, `'1023'` and `'1'` read as 20, 0, 1023 and 1 |
| Firmware.BlinkDefaultTexts | esp32_firmware_micropython/main.py:379-380 | the default texts `'3'` and `'200'` read as 3 and 200 |
| Firmware.HexSpeed | esp32_firmware_micropython/main.py:366-372 | `/led/pulse?speed=0x14` starts the pulse with speed 20 and the other three defaults |
| Firmware.PyRangeShape | esp32_firmware_micropython/main.py:33 | `range(start, stop, step)` starts at `start`, moves by `step`, stays strictly before `stop` in the step's direction, and its next value would reach or pass `stop` |
| Firmware.Device.constructor | esp32_firmware_micropython/main.py:14-18 | at boot the duty 0 is written, `led_state` is false, and the LED rests at its steady duty |
| Firmware.Device.FadeRange | esp32_firmware_micropython/main.py:33-35 | a fade loop writes each value of the range, held 10 ms each, and nothing else |
| Firmware.Device.PulseLed | esp32_firmware_micropython/main.py:19-44 | `pulse_led` writes `times` breathing cycles and then the steady duty; it returns with the LED at its steady duty. With `times < 0` only the restore is written; speed 0 raises on the first turn; `times == 0` never ends |
| Firmware.Device.BlinkLed | esp32_firmware_micropython/main.py:383-394 | `blink_led` writes `count` on/off phases and then the steady duty, and leaves the LED at its steady duty |
| Firmware.Device.HandleRequest | esp32_firmware_micropython/main.py:85-469 | `/led/on` writes 1023 and sets `led_state`; `/led/off` writes 0 and clears it; no other route touches either. The pulse and blink routes hand their job to a thread, or raise (no reply, no change) on a non-integer. Each route's reply is fixed, and the steady-LED invariant is kept |
| Firmware.FadeWritesValues | esp32_firmware_micropython/main.py:33-39 | a fade writes exactly its range values in order, each held 10 ms |
| Firmware.CycleDuties | esp32_firmware_micropython/main.py:33-39 | one cycle writes the rising range from `min` towards `max`, then the falling range from `max` towards `min` |
| Firmware.PulseDuties | esp32_firmware_micropython/main.py:31-44 | a finite pulse writes exactly `times` cycles of ramp duties, then the steady duty (1023 or 0 by `led_state`) |
| Firmware.CycleWithinBounds | esp32_firmware_micropython/main.py:33-39 | every duty of a cycle lies between `min` and `max` |
| Firmware.PulseWithinBounds | esp32_firmware_micropython/main.py:31-44 | every duty of a finite pulse before the last lies between `min` and `max`; the last is the steady duty |
| Firmware.EmptyRampsOnlyRestore | esp32_firmware_micropython/main.py:31-44 | with a positive speed and `min >= max` the pulse writes only the steady duty |
| Firmware.CycleHolds | esp32_firmware_micropython/main.py:33-39 | a breathing cycle holds the LED once for each value of its rising and its falling range |
| Firmware.HigherSpeedNoSlower | esp32_firmware_micropython/main.py:23-39 | for a positive speed, a higher `speed` never gives a cycle more 10 ms holds: a higher speed is never slower |
| Firmware.LowerSpeedIsSlower | esp32_firmware_micropython/main.py:23-39 | from 0 to 40, speed 10 gives 8 holds per cycle and speed 20 gives 4, so a lower speed is slower, not faster |
| Firmware.BlinkDuties | esp32_firmware_micropython/main.py:385-394 | a blink writes `count` pairs (1023, 0), none for `count <= 0`, then the steady duty; every hold is the full interval |
| McpServer.AnswerReply | server/esp32_mcp_server.py:120-126 | the reply succeeds iff the device answered. Its message is the body with Python's white space stripped from both ends, Unicode spaces included; otherwise the error is kept |
| McpServer.AnswerStripsUnicodeSpace | server/esp32_mcp_server.py:123 | a body `OK` followed by a no-break space and a newline is answered as `OK` |
| McpServer.Server.constructor | server/esp32_mcp_server.py:19-22 | start-up takes mode, address and port from the environment, with the mock LED off |
| McpServer.Server.CallEsp32 | server/esp32_mcp_server.py:113-126 | in mock mode no request is made and the reply is `Mock call to <endpoint>`; otherwise the device URL is requested and its answer replied |
| McpServer.Server.BlinkLed | server/esp32_mcp_server.py:24-28 | `blink_led` requests `led/blink?count=<count>&interval=<interval_ms>` (defaults 3 and 200) through `call_esp32` |
| McpServer.Server.PulseLed | server/esp32_mcp_server.py:140-156 | mock `pulse_led` answers locally and changes nothing; otherwise it requests `led/pulse?speed=..&min=..&max=..&times=..` |
| McpServer.Server.TurnLedOn | server/esp32_mcp_server.py:128-138 | mock `turn_led_on` sets the mock LED and makes no request; otherwise it requests `led/on` |
| McpServer.Server.TurnLedOff | server/esp32_mcp_server.py:158-168 | mock `turn_led_off` clears the mock LED and makes no request; otherwise it requests `led/off` |
| McpServer.Server.GetStatus | server/esp32_mcp_server.py:170-186 | mock status reports ON exactly when the mock LED is set, with mode MOCK and the current address; otherwise it requests `status` |
| McpServer.Server.SetIp | server/esp32_mcp_server.py:192-203 | `set_esp32_ip` replaces address and port (default 80), touches nothing else, and always succeeds |
| McpServer.MockStatusAfter | server/esp32_mcp_server.py:128-186 | in mock mode the status after any run of on/off calls reports the last one, OFF when there was none: each switch is idempotent |
| RoundTrip.RoutedTo | esp32_firmware_micropython/main.py:90-466 | the first handler in chain order whose pattern occurs is the handler chosen |
| RoundTrip.ReceivedLine | esp32_firmware_micropython/main.py:87 | a request line that fits in one `recv` arrives whole; what remains of the headers still names no handler |
| RoundTrip.PlainNumber | server/esp32_mcp_server.py:27 | the f-string text of any integer holds none of `&`, `=`, space, `?` or `G`, so it cannot end a query piece or the query, nor spell a route |
| RoundTrip.BlinkQuery | esp32_firmware_micropython/main.py:68-83 | for any two value texts free of `&`, `=`, space, `?` and `G`, the blink tool's query has no space and parses to `count` and `interval` bound to exactly those texts |
| RoundTrip.PulseQuery | esp32_firmware_micropython/main.py:68-83 | for any four such value texts, the pulse tool's query has no space and parses to `speed`, `min`, `max` and `times` bound to exactly those texts |
| RoundTrip.BlinkRoute | esp32_firmware_micropython/main.py:377 | for any two such value texts, the blink tool's request line, followed by headers that name no handler, reaches the blink handler |
| RoundTrip.BlinkParams | esp32_firmware_micropython/main.py:68-83 | `parse_query_params` of the whole blink request, headers included, gives back exactly the two value texts |
| RoundTrip.BlinkArgsOfParsed | esp32_firmware_micropython/main.py:378-380 | when `int()` reads the two texts as `count` and `interval`, the handler starts the blink job with exactly those integers |
| RoundTrip.PulseRoute | esp32_firmware_micropython/main.py:366 | for any four such value texts, the pulse tool's request line, followed by headers that name no handler, reaches the pulse handler |
| RoundTrip.PulseParams | esp32_firmware_micropython/main.py:68-83 | `parse_query_params` of the whole pulse request, headers included, gives back exactly the four value texts |
| RoundTrip.PulseArgsOfParsed | esp32_firmware_micropython/main.py:368-372 | when `int()` reads the four texts as the four integers, the handler starts the pulse job with exactly those integers |
| RoundTrip.BlinkRoundTrip | server/esp32_mcp_server.py:25-28 | the firmware routes the blink tool's request to blink, parses the same two texts, and starts `blink_led` with the same integers |
| RoundTrip.PulseRoundTrip | server/esp32_mcp_server.py:155-156 | the firmware routes the pulse tool's request to pulse, parses the same four texts, and starts `pulse_led` with the same integers |
| RoundTrip.OnRoute | server/esp32_mcp_server.py:138 | the `led/on` request of `turn_led_on` reaches the firmware's on handler |
| RoundTrip.OffRoute | server/esp32_mcp_server.py:168 | the `led/off` request of `turn_led_off` reaches the firmware's off handler |
| RoundTrip.StatusRoute | server/esp32_mcp_server.py:186 | the `status` request of `get_esp32_status` reaches the firmware's status handler |

## Left out

- WiFi bring-up, the socket accept loop and sending the response bytes (esp32_firmware_micropython/main.py:46-66, 468-488) are network I/O. Replies are values, and the text a client receives is not built.
- An `int()` error inside `handle_request` makes it raise before `conn.send` and `conn.close`. The accept loop catches and prints the error. The model shows this as `NoReply`; the connection left open is not modelled.
- The HTML page, the JSON documents, `/memory`, `/storage` and the reset done by `/restart` are presentation or depend on `gc`, `os.statvfs`, floats and `machine.reset`. Their routes are modelled; what they produce is not.
- `_thread.start_new_thread`: a started job is returned, not run. The thread bodies are separate methods run on their own. Threads that overlap each other, or overlap a later `/led/on`, are not modelled. `led_state` is read once when a thread body ends, as in the code, but nothing can change it while the body runs.
- Firmware.Device.PulseLed: with `times == 0` the loop never ends. The method takes `limit`, the number of turns begun so far, and describes the trace up to that point as `StillRunning`.
- `time.sleep_ms` is recorded as a hold with its requested length. Real timing, and how negative lengths behave, are not modelled.
- `led_pwm.duty(v)` is recorded with the requested value. How the PWM driver treats values outside 0 to 1023 is not modelled.
- PyText.ParseInt models MicroPython's one-argument `int()`: ASCII white space around the number, an optional sign, an optional `0x`, `0o` or `0b` prefix, then digits of that base. Underscores between digits are not accepted, nor are non-ASCII digits. Characters stand for bytes: `decode('utf-8')` of non-ASCII input is not modelled, nor a multi-byte character cut by `recv`.
- Firmware.Received assumes one `recv(1024)` returns the first 1024 bytes sent, or all of them. A shorter first read is not modelled.
- The round-trip lemmas take the request line an HTTP client sends for a URL to be `GET /<endpoint> HTTP/1.1`, followed by header lines that name no handler pattern. The `requests` library is not part of this model.
- Outside mock mode, the device's answer (body or exception text) is a parameter of each tool. `restart_device`, `get_memory_usage` and `get_storage_info` (with `format_bytes`, which uses floats) are HTTP client plumbing and are not modelled.
- Reading `ESP32_IP`, `ESP32_PORT` and `MOCK_MODE` from the environment (including `.lower()`) is not modelled. The values are constructor arguments; only the default port, which `set_esp32_ip` also uses, is a constant. Logging and the FastMCP registration are not modelled.

## Findings

| source | as written | input that shows it | evidently intended | confidence | as-written member | corrected member |
|---|---|---|---|---|---|---|
| esp32_firmware_micropython/main.py:23-39 | The docstring says a lower `speed` is faster. The code uses `speed` as the step of both ramps and holds each value 10 ms, so a lower speed writes more values and is slower. The server's `pulse_led` docstring (server/esp32_mcp_server.py:145) repeats the claim. | `min_duty=0`, `max_duty=40`: speed 10 holds 8 times per cycle (80 ms), speed 20 holds 4 times (40 ms) | the code's behaviour, with the docstrings saying that a higher speed is faster; the model keeps the code | not executed; the disagreement is proved, which side the authors meant is a judgement | Firmware.LowerSpeedIsSlower | Firmware.HigherSpeedNoSlower |
