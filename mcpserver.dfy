/**
 * The client side: the MCP tools that drive the device over HTTP. The
 * endpoint texts of the blink and pulse tools, the device address the tools
 * use, and the mock mode in which no request is made and the LED is a
 * single flag on the server.
 */
module McpServer {
  import opened PyText

  /** The device port used when `ESP32_PORT` is not set, and the default of `set_esp32_ip`. */
  const DefaultPort: int := 80

  /** The endpoint `blink_led(count, interval_ms)` asks for. */
  function BlinkEndpoint(count: int, intervalMs: int): string
  {
    "led/blink?count=" + FormatInt(count) + "&interval=" + FormatInt(intervalMs)
  }

  /** The endpoint `pulse_led(speed, min_duty, max_duty, times)` asks for outside mock mode. */
  function PulseEndpoint(speed: int, minDuty: int, maxDuty: int, times: int): string
  {
    "led/pulse?speed=" + FormatInt(speed) + "&min=" + FormatInt(minDuty)
      + "&max=" + FormatInt(maxDuty) + "&times=" + FormatInt(times)
  }

  /** The URL of an endpoint on the device at `ip:port`. */
  function Url(ip: string, port: int, endpoint: string): string
  {
    "http://" + ip + ":" + FormatInt(port) + "/" + endpoint
  }

  /**
   * What the HTTP GET to the device gave: the body of a successful answer,
   * or the text of the exception (a connection error, a timeout or an error
   * status).
   */
  datatype DeviceAnswer = Answered(body: string) | Failed(error: string)

  /** The dictionary a tool returns. */
  datatype ToolReply =
    | Success(message: string)                                  // {"success": True, "message": ...}
    | Failure(error: string)                                    // {"success": False, "error": ...}
    | MockStatus(ledState: string, mode: string, ip: string, port: int)  // the mock `/status` answer

  /** The reply `call_esp32` makes of the device's answer. */
  function AnswerReply(answer: DeviceAnswer): (reply: ToolReply)
    ensures reply.Success? <==> answer.Answered?
    ensures answer.Answered? ==> reply.message == PyStrip(answer.body)
    ensures answer.Failed? ==> reply == Failure(answer.error)
  {
    match answer
    case Answered(body) => Success(PyStrip(body))
    case Failed(error) => Failure(error)
  }

  /** The body's Unicode white space goes too: a no-break space and a newline after `OK` leave `OK`. */
  lemma AnswerStripsUnicodeSpace()
    ensures AnswerReply(Answered("OK\U{A0}\n")) == Success("OK")
  {
    var body := "OK\U{A0}\n";
    assert body[..|body| - 1] == "OK\U{A0}";
    assert "OK\U{A0}"[..2] == "OK";
  }

  /** The module-level state of the MCP server. */
  class Server {
    /** `MOCK_MODE`, read once from the environment. */
    const mockMode: bool
    /** `mock_led_state`. */
    var mockLedState: bool
    /** `ESP32_IP`. */
    var ip: string
    /** `ESP32_PORT`. */
    var port: int
    /** The URLs requested from the device so far, in order. */
    var sent: seq<string>

    /** Start-up, with the mode and the address taken from the environment. */
    constructor (mockMode: bool, ip: string, port: int)
      ensures this.mockMode == mockMode && this.ip == ip && this.port == port
      ensures !mockLedState && sent == []
    {
      this.mockMode := mockMode;
      this.ip := ip;
      this.port := port;
      mockLedState := false;
      sent := [];
    }

    /**
     * `call_esp32(endpoint)`: in mock mode no request is made and the call
     * succeeds; otherwise the device URL is requested and its answer, given
     * here as `answer`, becomes the reply.
     */
    method CallEsp32(endpoint: string, answer: DeviceAnswer) returns (reply: ToolReply)
      modifies this
      ensures mockMode ==> reply == Success("Mock call to " + endpoint) && sent == old(sent)
      ensures !mockMode ==> reply == AnswerReply(answer) && sent == old(sent) + [Url(ip, port, endpoint)]
      ensures mockLedState == old(mockLedState) && ip == old(ip) && port == old(port)
    {
      if mockMode {
        return Success("Mock call to " + endpoint);
      }
      sent := sent + [Url(ip, port, endpoint)];
      reply := AnswerReply(answer);
    }

    /** `blink_led(count, interval_ms)`: always goes through `call_esp32`. */
    method BlinkLed(answer: DeviceAnswer, count: int := 3, intervalMs: int := 200) returns (reply: ToolReply)
      modifies this
      ensures mockMode ==> reply == Success("Mock call to " + BlinkEndpoint(count, intervalMs)) && sent == old(sent)
      ensures !mockMode ==> reply == AnswerReply(answer) && sent == old(sent) + [Url(ip, port, BlinkEndpoint(count, intervalMs))]
      ensures mockLedState == old(mockLedState) && ip == old(ip) && port == old(port)
    {
      reply := CallEsp32(BlinkEndpoint(count, intervalMs), answer);
    }

    /** `pulse_led(speed, min_duty, max_duty, times)`: answered locally in mock mode. */
    method PulseLed(answer: DeviceAnswer, speed: int := 20, minDuty: int := 0, maxDuty: int := 1023, times: int := 1) returns (reply: ToolReply)
      modifies this
      ensures mockMode ==> reply == Success("LED pulsing with speed " + FormatInt(speed) + " (mock mode)") && sent == old(sent)
      ensures !mockMode ==> reply == AnswerReply(answer) && sent == old(sent) + [Url(ip, port, PulseEndpoint(speed, minDuty, maxDuty, times))]
      ensures mockLedState == old(mockLedState) && ip == old(ip) && port == old(port)
    {
      if mockMode {
        return Success("LED pulsing with speed " + FormatInt(speed) + " (mock mode)");
      }
      reply := CallEsp32(PulseEndpoint(speed, minDuty, maxDuty, times), answer);
    }

    /** `turn_led_on()`: in mock mode the flag is set and no request is made. */
    method TurnLedOn(answer: DeviceAnswer) returns (reply: ToolReply)
      modifies this
      ensures mockMode ==> mockLedState && sent == old(sent) && reply == Success("LED turned ON (mock mode)")
      ensures !mockMode ==> mockLedState == old(mockLedState) && reply == AnswerReply(answer)
                            && sent == old(sent) + [Url(ip, port, "led/on")]
      ensures ip == old(ip) && port == old(port)
    {
      if mockMode {
        mockLedState := true;
        return Success("LED turned ON (mock mode)");
      }
      reply := CallEsp32("led/on", answer);
    }

    /** `turn_led_off()`: in mock mode the flag is cleared and no request is made. */
    method TurnLedOff(answer: DeviceAnswer) returns (reply: ToolReply)
      modifies this
      ensures mockMode ==> !mockLedState && sent == old(sent) && reply == Success("LED turned OFF (mock mode)")
      ensures !mockMode ==> mockLedState == old(mockLedState) && reply == AnswerReply(answer)
                            && sent == old(sent) + [Url(ip, port, "led/off")]
      ensures ip == old(ip) && port == old(port)
    {
      if mockMode {
        mockLedState := false;
        return Success("LED turned OFF (mock mode)");
      }
      reply := CallEsp32("led/off", answer);
    }

    /** `get_esp32_status()`: in mock mode the flag, the mode and the address. */
    method GetStatus(answer: DeviceAnswer) returns (reply: ToolReply)
      modifies this
      ensures mockMode ==> reply == MockStatus(if mockLedState then "ON" else "OFF", "MOCK", ip, port) && sent == old(sent)
      ensures !mockMode ==> reply == AnswerReply(answer) && sent == old(sent) + [Url(ip, port, "status")]
      ensures mockLedState == old(mockLedState) && ip == old(ip) && port == old(port)
    {
      if mockMode {
        return MockStatus(if mockLedState then "ON" else "OFF", "MOCK", ip, port);
      }
      reply := CallEsp32("status", answer);
    }

    /** `set_esp32_ip(ip, port)`: the new address is used from the next call on. */
    method SetIp(newIp: string, newPort: int := DefaultPort) returns (reply: ToolReply)
      modifies this
      ensures ip == newIp && port == newPort
      ensures mockLedState == old(mockLedState) && sent == old(sent)
      ensures reply == Success("ESP32 IP address set to " + newIp + ":" + FormatInt(newPort))
    {
      ip := newIp;
      port := newPort;
      reply := Success("ESP32 IP address set to " + ip + ":" + FormatInt(port));
    }
  }

  /**
   * A mock-mode session: from start-up, `turn_led_on` (true) or
   * `turn_led_off` (false) for each entry of `switches`, then
   * `get_esp32_status`. The status reports the last switch, or OFF when there
   * was none: repeating a switch changes nothing.
   */
  method MockStatusAfter(ip: string, port: int, switches: seq<bool>) returns (status: ToolReply)
    ensures status == MockStatus(if switches != [] && switches[|switches| - 1] then "ON" else "OFF", "MOCK", ip, port)
  {
    var server := new Server(true, ip, port);
    var i := 0;
    while i < |switches|
      invariant 0 <= i <= |switches|
      invariant server.mockMode && server.ip == ip && server.port == port
      invariant server.mockLedState == (i > 0 && switches[i - 1])
    {
      var reply;
      if switches[i] {
        reply := server.TurnLedOn(Failed(""));
      } else {
        reply := server.TurnLedOff(Failed(""));
      }
      i := i + 1;
    }
    status := server.GetStatus(Failed(""));
  }
}
