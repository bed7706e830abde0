/**
 * The request-to-LED path of the MicroPython firmware: the routing of a
 * request line to a handler, the parameters of the timed effects with their
 * defaults, the two effect bodies (breathing pulse and blink) that run on
 * their own thread, and the global steady LED state they restore.
 */
module Firmware {
  import opened Wrappers
  import opened PyText
  import opened Query
  import opened Hardware

  // -----------------------------------------------------------------------
  // Routing.
  // -----------------------------------------------------------------------

  /** The handlers of `handle_request`, and the 404 answer for anything else. */
  datatype Route = Home | LedOn | LedOff | LedPulse | LedBlink | Status | Memory | Storage | Restart | NotFound

  /** The text a request must contain to reach a handler. */
  function Pattern(route: Route): string
    requires route != NotFound
  {
    match route
    case Home => "GET / HTTP"
    case LedOn => "GET /led/on"
    case LedOff => "GET /led/off"
    case LedPulse => "GET /led/pulse"
    case LedBlink => "GET /led/blink"
    case Status => "GET /status"
    case Memory => "GET /memory"
    case Storage => "GET /storage"
    case Restart => "GET /restart"
  }

  /** The position of a handler in the if/elif chain: its pattern is tried after those of lower rank. */
  function Rank(route: Route): nat
    requires route != NotFound
  {
    match route
    case Home => 0
    case LedOn => 1
    case LedOff => 2
    case LedPulse => 3
    case LedBlink => 4
    case Status => 5
    case Memory => 6
    case Storage => 7
    case Restart => 8
  }

  /**
   * The if/elif chain of `handle_request`: the FIRST handler whose pattern
   * occurs in the request wins; with none, the request gets the 404 answer.
   */
  function RouteOf(request: string): (route: Route)
    ensures route != NotFound ==> Contains(request, Pattern(route))
  {
    if Contains(request, "GET / HTTP") then Home
    else if Contains(request, "GET /led/on") then LedOn
    else if Contains(request, "GET /led/off") then LedOff
    else if Contains(request, "GET /led/pulse") then LedPulse
    else if Contains(request, "GET /led/blink") then LedBlink
    else if Contains(request, "GET /status") then Status
    else if Contains(request, "GET /memory") then Memory
    else if Contains(request, "GET /storage") then Storage
    else if Contains(request, "GET /restart") then Restart
    else NotFound
  }

  /** No handler tried before the chosen one (before any, for the 404 answer) matches the request. */
  lemma RouteOfFirst(request: string)
    ensures var route := RouteOf(request);
      forall r :: r != NotFound && (route == NotFound || Rank(r) < Rank(route)) ==> !Contains(request, Pattern(r))
  {
  }

  // -----------------------------------------------------------------------
  // Parameters of the timed effects.
  // -----------------------------------------------------------------------

  /** A timed effect, with the arguments its thread is started with. */
  datatype Job =
    | PulseJob(speed: int, minDuty: int, maxDuty: int, times: int)
    | BlinkJob(count: int, intervalMs: int)

  /**
   * `int(params.get(key, default))`: `None` when `int()` raises. The default
   * is given here as the integer its text spells (see `PulseDefaultTexts`
   * and `BlinkDefaultTexts`).
   */
  function IntParam(params: Params, key: string, default: int): Option<int>
  {
    if key in params then ParseInt(params[key]) else Some(default)
  }

  /** The parameter is missing, or present and an integer. */
  predicate Usable(params: Params, key: string)
  {
    key !in params || ParseInt(params[key]).Some?
  }

  /** The integer a usable parameter gives, or the default when it is missing. */
  function ValueOr(params: Params, key: string, default: int): int
    requires Usable(params, key)
  {
    if key in params then ParseInt(params[key]).value else default
  }

  lemma ZeroText()
    ensures ParseInt("0") == Some(0)
  {
    ParseValue("0", 0);
  }

  lemma OneText()
    ensures ParseInt("1") == Some(1)
  {
    ParseValue("1", 1);
  }

  lemma ThreeText()
    ensures ParseInt("3") == Some(3)
  {
    ParseValue("3", 3);
  }

  lemma TwentyText()
    ensures ParseInt("20") == Some(20)
  {
    DigitsSnoc("2", '0');
    assert "2" + ['0'] == "20";
    ParseValue("20", 20);
  }

  lemma TwoHundredText()
    ensures ParseInt("200") == Some(200)
  {
    DigitsSnoc("2", '0');
    assert "2" + ['0'] == "20";
    DigitsSnoc("20", '0');
    assert "20" + ['0'] == "200";
    ParseValue("200", 200);
  }

  lemma MaxDutyText()
    ensures ParseInt("1023") == Some(1023)
  {
    DigitsSnoc("1", '0');
    assert "1" + ['0'] == "10";
    DigitsSnoc("10", '2');
    assert "10" + ['2'] == "102";
    DigitsSnoc("102", '3');
    assert "102" + ['3'] == "1023";
    ParseValue("1023", 1023);
  }

  /** The default texts of the `/led/pulse` parameters spell 20, 0, 1023 and 1. */
  lemma PulseDefaultTexts()
    ensures ParseInt("20") == Some(20) && ParseInt("0") == Some(0)
    ensures ParseInt("1023") == Some(1023) && ParseInt("1") == Some(1)
  {
    TwentyText();
    ZeroText();
    MaxDutyText();
    OneText();
  }

  /** The default texts of the `/led/blink` parameters spell 3 and 200. */
  lemma BlinkDefaultTexts()
    ensures ParseInt("3") == Some(3) && ParseInt("200") == Some(200)
  {
    ThreeText();
    TwoHundredText();
  }

  /**
   * The `/led/pulse` arguments: `speed`, `min`, `max` and `times`, with the
   * defaults 20, 0, 1023 and 1; `None` when a given value is not an integer.
   */
  function PulseArgs(params: Params): (job: Option<Job>)
    ensures job.Some? <==> Usable(params, "speed") && Usable(params, "min") && Usable(params, "max") && Usable(params, "times")
    ensures job.Some? ==> job.value == PulseJob(ValueOr(params, "speed", 20), ValueOr(params, "min", 0),
                                                ValueOr(params, "max", 1023), ValueOr(params, "times", 1))
  {
    var speed := IntParam(params, "speed", 20);
    var minDuty := IntParam(params, "min", 0);
    var maxDuty := IntParam(params, "max", 1023);
    var times := IntParam(params, "times", 1);
    if speed.Some? && minDuty.Some? && maxDuty.Some? && times.Some? then
      Some(PulseJob(speed.value, minDuty.value, maxDuty.value, times.value))
    else None
  }

  /**
   * The `/led/blink` arguments: `count` and `interval`, with the defaults 3
   * and 200; `None` when a given value is not an integer.
   */
  function BlinkArgs(params: Params): (job: Option<Job>)
    ensures job.Some? <==> Usable(params, "count") && Usable(params, "interval")
    ensures job.Some? ==> job.value == BlinkJob(ValueOr(params, "count", 3), ValueOr(params, "interval", 200))
  {
    var count := IntParam(params, "count", 3);
    var interval := IntParam(params, "interval", 200);
    if count.Some? && interval.Some? then Some(BlinkJob(count.value, interval.value)) else None
  }

  /**
   * `int()` takes a base prefix, so `GET /led/pulse?speed=0x14` pulses at
   * speed 20 with the other parameters at their defaults.
   */
  lemma HexSpeed()
    ensures PulseArgs(map["speed" := "0x14"]) == Some(PulseJob(20, 0, 1023, 1))
  {
    assert "14"[..1] == "1" && "1"[..0] == [];
    assert DigitsValue("14", 16) == 20;
    ParsePrefixed('x', "14", 16);
    assert ['0', 'x'] + "14" == "0x14";
  }

  // -----------------------------------------------------------------------
  // What the effect threads write.
  // -----------------------------------------------------------------------

  /** The duty that matches the steady LED state. */
  function SteadyDuty(ledState: bool): int
  {
    if ledState then MaxDuty else 0
  }

  /**
   * Python's `range(start, stop, step)` for a non-zero step: the values
   * start, start + step, ... that lie strictly before `stop`, counted in the
   * step's direction; the next value would reach or pass `stop`.
   */
  function PyRange(start: int, stop: int, step: int): seq<int>
    requires step != 0
    decreases if step > 0 then stop - start else start - stop
  {
    if (step > 0 && start < stop) || (step < 0 && start > stop) then
      [start] + PyRange(start + step, stop, step)
    else []
  }

  /**
   * `range(start, stop, step)` starts at `start`, moves by `step` each time,
   * stays strictly on the near side of `stop`, and its next value would reach
   * or pass `stop`.
   */
  lemma {:induction false} PyRangeShape(start: int, stop: int, step: int)
    requires step != 0
    ensures var r := PyRange(start, stop, step);
      && (|r| > 0 ==> r[0] == start)
      && (forall k :: 0 <= k < |r| - 1 ==> r[k + 1] == r[k] + step)
      && (step > 0 ==> forall k :: 0 <= k < |r| ==> start <= r[k] < stop)
      && (step < 0 ==> forall k :: 0 <= k < |r| ==> stop < r[k] <= start)
      && (step > 0 ==> if |r| == 0 then start >= stop else r[|r| - 1] + step >= stop)
      && (step < 0 ==> if |r| == 0 then start <= stop else r[|r| - 1] + step <= stop)
    decreases if step > 0 then stop - start else start - stop
  {
    if (step > 0 && start < stop) || (step < 0 && start > stop) {
      PyRangeShape(start + step, stop, step);
      var rest := PyRange(start + step, stop, step);
      var r := [start] + rest;
      assert forall k :: 0 < k < |r| ==> r[k] == rest[k - 1];
    }
  }

  /** One pass of a fade loop: each value written, then held for 10 ms. */
  function Fade(values: seq<int>): seq<Event>
  {
    if values == [] then [] else [Duty(values[0]), Sleep(10)] + Fade(values[1..])
  }

  /**
   * A fade loop that has not reached `stop` writes `i`, holds it, and goes
   * on from `i + step`; written before `done`, it still owes the rest.
   */
  lemma FadeStep(done: seq<Event>, i: int, stop: int, step: int)
    requires step != 0
    requires if step > 0 then i < stop else i > stop
    ensures done + Fade(PyRange(i, stop, step)) == (done + [Duty(i), Sleep(10)]) + Fade(PyRange(i + step, stop, step))
  {
    var rest := PyRange(i + step, stop, step);
    assert PyRange(i, stop, step) == [i] + rest;
    assert ([i] + rest)[1..] == rest;
  }

  /** One breathing cycle: fade in from `minDuty` towards `maxDuty`, then back out. */
  function PulseCycle(speed: int, minDuty: int, maxDuty: int): seq<Event>
    requires speed != 0
  {
    Fade(PyRange(minDuty, maxDuty, speed)) + Fade(PyRange(maxDuty, minDuty, -speed))
  }

  /** How an effect thread ends. */
  datatype ThreadEnd =
    | Returned      // the body ran to its end
    | Raised        // `range()` raised ValueError (a zero speed); the thread dies
    | StillRunning  // `times == 0`: the loop never ends; the trace so far is shown

  /**
   * How the pulse thread ends. For `times == 0` the loop is endless and
   * `limit` is the number of its turns that have begun.
   */
  function PulseEnd(speed: int, times: int, limit: nat): ThreadEnd
  {
    if times < 0 then Returned
    else if speed == 0 && (times > 0 || limit > 0) then Raised
    else if times == 0 then StillRunning
    else Returned
  }

  /** What the pulse thread writes, in order. */
  function PulseWrites(speed: int, minDuty: int, maxDuty: int, times: int, limit: nat, ledState: bool): seq<Event>
  {
    if times < 0 then [Duty(SteadyDuty(ledState))]
    else if speed == 0 then []
    else if times == 0 then Repeat(PulseCycle(speed, minDuty, maxDuty), limit)
    else Repeat(PulseCycle(speed, minDuty, maxDuty), times) + [Duty(SteadyDuty(ledState))]
  }

  /** A zero speed raises on the first turn, before anything is written. */
  lemma PulseRaises(speed: int, minDuty: int, maxDuty: int, times: int, limit: nat, ledState: bool)
    requires speed == 0 && ((times == 0 && 0 < limit) || 0 < times)
    ensures PulseEnd(speed, times, limit) == Raised
    ensures PulseWrites(speed, minDuty, maxDuty, times, limit, ledState) == []
  {
  }

  /** The trace and the ending once the pulse loop has run its `count` turns. */
  lemma PulseLoopDone(speed: int, minDuty: int, maxDuty: int, times: int, limit: nat, ledState: bool, count: nat)
    requires speed == 0 ==> count == 0
    requires times == 0 ==> count == limit
    requires times > 0 ==> count == times
    requires times < 0 ==> count == 0
    ensures times == 0 ==> PulseEnd(speed, times, limit) == StillRunning
    ensures times != 0 ==> PulseEnd(speed, times, limit) == Returned
    ensures speed == 0 && times == 0 ==> PulseWrites(speed, minDuty, maxDuty, times, limit, ledState) == []
    ensures speed == 0 && times != 0 ==> PulseWrites(speed, minDuty, maxDuty, times, limit, ledState) == [Duty(SteadyDuty(ledState))]
    ensures speed != 0 && times == 0 ==> PulseWrites(speed, minDuty, maxDuty, times, limit, ledState) == Repeat(PulseCycle(speed, minDuty, maxDuty), count)
    ensures speed != 0 && times != 0 ==> PulseWrites(speed, minDuty, maxDuty, times, limit, ledState) == Repeat(PulseCycle(speed, minDuty, maxDuty), count) + [Duty(SteadyDuty(ledState))]
  {
  }

  /** One blink: on for the whole interval, then off for the whole interval. */
  function BlinkPhase(intervalMs: int): seq<Event>
  {
    [Duty(MaxDuty), Sleep(intervalMs), Duty(0), Sleep(intervalMs)]
  }

  /** What the blink thread writes, in order. */
  function BlinkWrites(count: int, intervalMs: int, ledState: bool): seq<Event>
  {
    Repeat(BlinkPhase(intervalMs), if count > 0 then count else 0) + [Duty(SteadyDuty(ledState))]
  }

  // -----------------------------------------------------------------------
  // The device: its board and its global steady state.
  // -----------------------------------------------------------------------

  /** What `handle_request` sends back. */
  datatype Reply =
    | Page(ledState: string)            // the HTML control page, showing the LED as ON or OFF
    | Text(status: int, body: string)   // a text/plain answer with its HTTP status
    | StatusJson(ledState: string)      // the `/status` JSON document
    | MemoryJson                        // the `/memory` JSON document
    | StorageJson                       // the `/storage` JSON document or its error answer
    | NoReply                           // the handler raised; nothing is sent

  /** How many bytes `conn.recv` is asked for. */
  const RecvSize: nat := 1024

  /**
   * The request text `handle_request` works on: what one `conn.recv(1024)`
   * returns, at most the first 1024 characters the client sent.
   */
  function Received(data: string): (request: string)
    ensures request <= data && |request| <= RecvSize
    ensures |data| <= RecvSize ==> request == data
    ensures |data| > RecvSize ==> |request| == RecvSize
  {
    if |data| <= RecvSize then data else data[..RecvSize]
  }

  function OnOff(ledState: bool): string
  {
    if ledState then "ON" else "OFF"
  }

  class Device {
    /** `led_pwm` and the clock. */
    const board: Board
    /** The global `led_state`: the steady level last set by `/led/on` or `/led/off`. */
    var ledState: bool

    /** The LED rests at the duty that matches the steady state. */
    ghost predicate Steady()
      reads this, board
    {
      LastDuty(board.trace) == Some(SteadyDuty(ledState))
    }

    /** Boot: the LED starts off, its duty written as 0. */
    constructor ()
      ensures fresh(board)
      ensures board.trace == [Duty(0)] && !ledState
      ensures Steady()
    {
      board := new Board();
      ledState := false;
      new;
      board.SetDuty(0);
      LastDutyAfterWrite([], [], 0);
    }

    /** `for i in range(start, stop, step)`: write each value and hold it 10 ms. */
    method FadeRange(start: int, stop: int, step: int)
      requires step != 0
      modifies board
      ensures board.trace == old(board.trace) + Fade(PyRange(start, stop, step))
    {
      var i := start;
      while if step > 0 then i < stop else i > stop
        invariant old(board.trace) + Fade(PyRange(start, stop, step)) == board.trace + Fade(PyRange(i, stop, step))
        decreases if step > 0 then stop - i else i - stop
      {
        FadeStep(board.trace, i, stop, step);
        board.SetDuty(i);
        board.SleepMs(10);
        i := i + step;
      }
    }

    /**
     * `pulse_led`, the body of the pulse thread: `times` breathing cycles
     * (endless for `times == 0`), then the duty of the steady state.
     */
    method PulseLed(speed: int, minDuty: int, maxDuty: int, times: int, limit: nat) returns (end: ThreadEnd)
      modifies board
      ensures end == PulseEnd(speed, times, limit)
      ensures board.trace == old(board.trace) + PulseWrites(speed, minDuty, maxDuty, times, limit, ledState)
      ensures end == Returned ==> Steady()
    {
      ghost var start := board.trace;
      ghost var turns: nat := if times == 0 then limit else if times > 0 then times else 0;
      var count := 0;
      while (times == 0 && count < limit) || (times != 0 && count < times)
        invariant count <= turns
        invariant speed == 0 ==> count == 0 && board.trace == start
        invariant speed != 0 ==> board.trace == start + Repeat(PulseCycle(speed, minDuty, maxDuty), count)
        decreases turns - count
      {
        if speed == 0 {
          PulseRaises(speed, minDuty, maxDuty, times, limit, ledState);
          return Raised;
        }
        ghost var mid := board.trace;
        FadeRange(minDuty, maxDuty, speed);
        FadeRange(maxDuty, minDuty, -speed);
        RepeatMore(start, mid, board.trace, PulseCycle(speed, minDuty, maxDuty),
                   Fade(PyRange(minDuty, maxDuty, speed)), Fade(PyRange(maxDuty, minDuty, -speed)), count);
        count := count + 1;
      }
      PulseLoopDone(speed, minDuty, maxDuty, times, limit, ledState, count);
      if times == 0 {
        return StillRunning;
      }
      ghost var before := board.trace;
      board.SetDuty(SteadyDuty(ledState));
      LastDutyAfterWrite(before, [], SteadyDuty(ledState));
      return Returned;
    }

    /**
     * `blink_led`, the body of the blink thread: `count` blinks, each phase
     * held for the whole interval, then the duty of the steady state.
     */
    method BlinkLed(count: int, intervalMs: int)
      modifies board
      ensures board.trace == old(board.trace) + BlinkWrites(count, intervalMs, ledState)
      ensures Steady()
    {
      var k := 0;
      while k < count
        invariant 0 <= k <= if count > 0 then count else 0
        invariant board.trace == old(board.trace) + Repeat(BlinkPhase(intervalMs), k)
      {
        board.SetDuty(MaxDuty);
        board.SleepMs(intervalMs);
        board.SetDuty(0);
        board.SleepMs(intervalMs);
        k := k + 1;
      }
      ghost var before := board.trace;
      board.SetDuty(SteadyDuty(ledState));
      LastDutyAfterWrite(before, [], SteadyDuty(ledState));
    }

    /**
     * `handle_request` for the bytes a client sent. `/led/on` and `/led/off`
     * set the duty and the steady state; `/led/pulse` and `/led/blink` hand a
     * job to a new thread (returned here, see `PulseLed` and `BlinkLed`), or
     * raise before starting it when a parameter is not an integer.
     */
    method HandleRequest(data: string) returns (reply: Reply, spawned: Option<Job>)
      modifies this, board
      ensures RouteOf(Received(data)) == LedOn ==> ledState && board.trace == old(board.trace) + [Duty(MaxDuty)]
      ensures RouteOf(Received(data)) == LedOff ==> !ledState && board.trace == old(board.trace) + [Duty(0)]
      ensures RouteOf(Received(data)) != LedOn && RouteOf(Received(data)) != LedOff ==>
                ledState == old(ledState) && board.trace == old(board.trace)
      ensures spawned == match RouteOf(Received(data))
                         case LedPulse => PulseArgs(QueryParams(Received(data)))
                         case LedBlink => BlinkArgs(QueryParams(Received(data)))
                         case _ => None
      ensures reply == match RouteOf(Received(data))
                       case Home => Page(OnOff(ledState))
                       case LedOn => Text(200, "LED ON")
                       case LedOff => Text(200, "LED OFF")
                       case LedPulse => if spawned.Some? then Text(200, "LED PULSING") else NoReply
                       case LedBlink => if spawned.Some? then Text(200, "LED BLINKING") else NoReply
                       case Status => StatusJson(OnOff(ledState))
                       case Memory => MemoryJson
                       case Storage => StorageJson
                       case Restart => Text(200, "Restarting ESP32...")
                       case NotFound => Text(404, "Endpoint not found")
      ensures old(Steady()) ==> Steady()
    {
      var request := Received(data);
      spawned := None;
      match RouteOf(request)
      case Home =>
        reply := Page(OnOff(ledState));
      case LedOn =>
        ghost var before := board.trace;
        board.SetDuty(MaxDuty);
        ledState := true;
        LastDutyAfterWrite(before, [], MaxDuty);
        reply := Text(200, "LED ON");
      case LedOff =>
        ghost var before := board.trace;
        board.SetDuty(0);
        ledState := false;
        LastDutyAfterWrite(before, [], 0);
        reply := Text(200, "LED OFF");
      case LedPulse =>
        var params := ParseQueryParams(request);
        spawned := PulseArgs(params);
        reply := if spawned.Some? then Text(200, "LED PULSING") else NoReply;
      case LedBlink =>
        var params := ParseQueryParams(request);
        spawned := BlinkArgs(params);
        reply := if spawned.Some? then Text(200, "LED BLINKING") else NoReply;
      case Status =>
        reply := StatusJson(OnOff(ledState));
      case Memory =>
        reply := MemoryJson;
      case Storage =>
        reply := StorageJson;
      case Restart =>
        reply := Text(200, "Restarting ESP32...");
      case NotFound =>
        reply := Text(404, "Endpoint not found");
    }
  }

  // -----------------------------------------------------------------------
  // Properties of the effect traces.
  // -----------------------------------------------------------------------

  /** The duty and the hold events of one write-and-hold step. */
  lemma WriteHold(v: int, ms: int)
    ensures Duties([Duty(v), Sleep(ms)]) == [v]
    ensures Holds([Duty(v), Sleep(ms)]) == [ms]
  {
    var e := [Duty(v), Sleep(ms)];
    assert e[..|e| - 1] == [Duty(v)];
    assert [Duty(v)][..0] == [];
    assert Duties([Duty(v)]) == [v] && Holds([Duty(v)]) == [];
    assert Duties(e) == Duties([Duty(v)]) + [];
    assert Holds(e) == Holds([Duty(v)]) + [ms];
  }

  /** A fade writes exactly its values, in order, each held for 10 ms. */
  lemma {:induction false} FadeWritesValues(values: seq<int>)
    ensures Duties(Fade(values)) == values
    ensures |Holds(Fade(values))| == |values|
    ensures forall k :: 0 <= k < |values| ==> Holds(Fade(values))[k] == 10
  {
    if values != [] {
      var head := [Duty(values[0]), Sleep(10)];
      FadeWritesValues(values[1..]);
      WriteHold(values[0], 10);
      DutiesAppend(head, Fade(values[1..]));
      HoldsAppend(head, Fade(values[1..]));
      assert values == [values[0]] + values[1..];
    }
  }

  /** The duties of one breathing cycle: the rising ramp, then the falling one. */
  lemma CycleDuties(speed: int, minDuty: int, maxDuty: int)
    requires speed != 0
    ensures Duties(PulseCycle(speed, minDuty, maxDuty)) == PyRange(minDuty, maxDuty, speed) + PyRange(maxDuty, minDuty, -speed)
  {
    DutiesAppend(Fade(PyRange(minDuty, maxDuty, speed)), Fade(PyRange(maxDuty, minDuty, -speed)));
    FadeWritesValues(PyRange(minDuty, maxDuty, speed));
    FadeWritesValues(PyRange(maxDuty, minDuty, -speed));
  }

  /**
   * A finite pulse (`times = n > 0`, non-zero speed) writes exactly n
   * breathing cycles and then the duty of the steady state.
   */
  lemma PulseDuties(speed: int, minDuty: int, maxDuty: int, times: int, ledState: bool)
    requires speed != 0 && times > 0
    ensures Duties(PulseWrites(speed, minDuty, maxDuty, times, 0, ledState))
         == Repeat(PyRange(minDuty, maxDuty, speed) + PyRange(maxDuty, minDuty, -speed), times) + [SteadyDuty(ledState)]
  {
    var cycle := PulseCycle(speed, minDuty, maxDuty);
    DutiesAppend(Repeat(cycle, times), [Duty(SteadyDuty(ledState))]);
    DutiesRepeat(cycle, times);
    CycleDuties(speed, minDuty, maxDuty);
    WriteHold(SteadyDuty(ledState), 0);
    assert [Duty(SteadyDuty(ledState))][..0] == [];
  }

  /**
   * Every duty of a breathing cycle lies between `minDuty` and `maxDuty`:
   * the rising ramp stays below `maxDuty`, the falling one above `minDuty`.
   */
  lemma CycleWithinBounds(speed: int, minDuty: int, maxDuty: int)
    requires speed != 0
    ensures forall x :: x in Duties(PulseCycle(speed, minDuty, maxDuty)) ==>
              (minDuty <= x <= maxDuty) || (maxDuty <= x <= minDuty)
  {
    CycleDuties(speed, minDuty, maxDuty);
    PyRangeShape(minDuty, maxDuty, speed);
    PyRangeShape(maxDuty, minDuty, -speed);
  }

  /**
   * Every duty a pulse thread writes before its final one is a ramp value
   * between `minDuty` and `maxDuty`; the final one is the steady duty.
   */
  lemma PulseWithinBounds(speed: int, minDuty: int, maxDuty: int, times: int, ledState: bool)
    requires speed != 0 && times > 0
    ensures var ds := Duties(PulseWrites(speed, minDuty, maxDuty, times, 0, ledState));
      && ds != [] && ds[|ds| - 1] == SteadyDuty(ledState)
      && forall k :: 0 <= k < |ds| - 1 ==> (minDuty <= ds[k] <= maxDuty) || (maxDuty <= ds[k] <= minDuty)
  {
    var ramps := PyRange(minDuty, maxDuty, speed) + PyRange(maxDuty, minDuty, -speed);
    var ds := Duties(PulseWrites(speed, minDuty, maxDuty, times, 0, ledState));
    PulseDuties(speed, minDuty, maxDuty, times, ledState);
    CycleWithinBounds(speed, minDuty, maxDuty);
    CycleDuties(speed, minDuty, maxDuty);
    forall k | 0 <= k < |ds| - 1
      ensures (minDuty <= ds[k] <= maxDuty) || (maxDuty <= ds[k] <= minDuty)
    {
      assert ds[k] in Repeat(ramps, times);
      InRepeat(ramps, times, ds[k]);
    }
  }

  /**
   * A pulse whose floor is not below its ceiling (`min >= max`, positive
   * speed) has empty ramps: it writes only the steady duty.
   */
  lemma EmptyRampsOnlyRestore(speed: int, minDuty: int, maxDuty: int, times: int, ledState: bool)
    requires speed > 0 && minDuty >= maxDuty && times > 0
    ensures PulseWrites(speed, minDuty, maxDuty, times, 0, ledState) == [Duty(SteadyDuty(ledState))]
  {
    RepeatEmpty(PulseCycle(speed, minDuty, maxDuty), times);
  }

  // -----------------------------------------------------------------------
  // How long a breathing cycle takes: every ramp value is held 10 ms.
  // -----------------------------------------------------------------------

  /** A range started further from `stop` (in the step's direction) has at least as many values. */
  lemma {:induction false} RangeLengthByStart(near: int, far: int, stop: int, step: int)
    requires step != 0
    requires if step > 0 then far <= near else far >= near
    ensures |PyRange(near, stop, step)| <= |PyRange(far, stop, step)|
    decreases if step > 0 then stop - far else far - stop
  {
    if (step > 0 && near < stop) || (step < 0 && near > stop) {
      RangeLengthByStart(near + step, far + step, stop, step);
    }
  }

  /** A longer step in the same direction never gives a range more values. */
  lemma {:induction false} RangeLengthByStep(start: int, stop: int, short: int, long: int)
    requires (0 < short <= long) || (long <= short < 0)
    ensures |PyRange(start, stop, long)| <= |PyRange(start, stop, short)|
    decreases if long > 0 then stop - start else start - stop
  {
    if (long > 0 && start < stop) || (long < 0 && start > stop) {
      RangeLengthByStep(start + long, stop, short, long);
      RangeLengthByStart(start + long, start + short, stop, short);
    }
  }

  /** A cycle holds the LED once for each value of its two ramps. */
  lemma CycleHolds(speed: int, minDuty: int, maxDuty: int)
    requires speed != 0
    ensures |Holds(PulseCycle(speed, minDuty, maxDuty))| == |PyRange(minDuty, maxDuty, speed)| + |PyRange(maxDuty, minDuty, -speed)|
  {
    HoldsAppend(Fade(PyRange(minDuty, maxDuty, speed)), Fade(PyRange(maxDuty, minDuty, -speed)));
    FadeWritesValues(PyRange(minDuty, maxDuty, speed));
    FadeWritesValues(PyRange(maxDuty, minDuty, -speed));
  }

  /**
   * A higher speed never makes a breathing cycle longer: `speed` is the
   * step of both ramps, so a larger one leaves fewer 10 ms holds.
   */
  lemma HigherSpeedNoSlower(slow: int, fast: int, minDuty: int, maxDuty: int)
    requires 0 < slow <= fast
    ensures |Holds(PulseCycle(fast, minDuty, maxDuty))| <= |Holds(PulseCycle(slow, minDuty, maxDuty))|
  {
    CycleHolds(slow, minDuty, maxDuty);
    CycleHolds(fast, minDuty, maxDuty);
    RangeLengthByStep(minDuty, maxDuty, slow, fast);
    RangeLengthByStep(maxDuty, minDuty, -slow, -fast);
  }

  /**
   * Lowering the speed slows the cycle down: from 0 to 40, speed 10 holds
   * the LED 8 times per cycle and speed 20 only 4 times.
   */
  lemma LowerSpeedIsSlower()
    ensures |Holds(PulseCycle(10, 0, 40))| == 8
    ensures |Holds(PulseCycle(20, 0, 40))| == 4
  {
    CycleHolds(10, 0, 40);
    CycleHolds(20, 0, 40);
    assert PyRange(0, 40, 10) == [0, 10, 20, 30];
    assert PyRange(40, 0, -10) == [40, 30, 20, 10];
    assert PyRange(0, 40, 20) == [0, 20];
    assert PyRange(40, 0, -20) == [40, 20];
  }

  /** One blink writes 1023 then 0, each held for the interval. */
  lemma PhaseEvents(intervalMs: int)
    ensures Duties(BlinkPhase(intervalMs)) == [MaxDuty, 0]
    ensures Holds(BlinkPhase(intervalMs)) == [intervalMs, intervalMs]
  {
    var on, off := [Duty(MaxDuty), Sleep(intervalMs)], [Duty(0), Sleep(intervalMs)];
    assert BlinkPhase(intervalMs) == on + off;
    WriteHold(MaxDuty, intervalMs);
    WriteHold(0, intervalMs);
    DutiesAppend(on, off);
    HoldsAppend(on, off);
  }

  /** A single duty write, with no hold after it. */
  lemma WriteOnly(v: int)
    ensures Duties([Duty(v)]) == [v] && Holds([Duty(v)]) == []
  {
    assert [Duty(v)][..0] == [];
  }

  /**
   * A blink thread writes `count` pairs (1023, 0), none for `count <= 0`,
   * then the duty of the steady state; every hold is the full interval.
   */
  lemma BlinkDuties(count: int, intervalMs: int, ledState: bool)
    ensures Duties(BlinkWrites(count, intervalMs, ledState))
         == Repeat([MaxDuty, 0], if count > 0 then count else 0) + [SteadyDuty(ledState)]
    ensures Holds(BlinkWrites(count, intervalMs, ledState)) == Repeat([intervalMs, intervalMs], if count > 0 then count else 0)
  {
    var n := if count > 0 then count else 0;
    var phase := BlinkPhase(intervalMs);
    var restore := [Duty(SteadyDuty(ledState))];
    DutiesAppend(Repeat(phase, n), restore);
    HoldsAppend(Repeat(phase, n), restore);
    DutiesRepeat(phase, n);
    HoldsRepeat(phase, n);
    PhaseEvents(intervalMs);
    WriteOnly(SteadyDuty(ledState));
  }
}
