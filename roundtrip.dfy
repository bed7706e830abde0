/**
 * The two halves together: the request the MCP server's tools send reaches
 * the firmware handler they name, and the firmware reads back exactly the
 * integers the tool was given.
 */
module RoundTrip {
  import opened Wrappers
  import opened PyText
  import opened Query
  import opened Firmware
  import opened McpServer

  /** The request line an HTTP client sends when it GETs `/<endpoint>`. */
  function RequestLine(endpoint: string): string
  {
    "GET /" + endpoint + " HTTP/1.1"
  }

  /** Header lines after the request line: they start a new line and name no handler. */
  predicate PlainHeaders(headers: string)
  {
    && (headers == [] || headers[0] == '\r')
    && forall r :: r != NotFound ==> !Contains(headers, Pattern(r))
  }

  /** What is left of the headers once `conn.recv(1024)` has cut the request short is still plain. */
  lemma ReceivedLine(line: string, headers: string)
    requires |line| <= RecvSize
    requires PlainHeaders(headers)
    ensures exists k :: 0 <= k <= |headers| && Received(line + headers) == line + headers[..k] && PlainHeaders(headers[..k])
  {
    var data := line + headers;
    var k := if |data| <= RecvSize then |headers| else RecvSize - |line|;
    assert Received(data) == line + headers[..k];
    forall r | r != NotFound
      ensures !Contains(headers[..k], Pattern(r))
    {
      PrefixNotContains(headers, k, Pattern(r));
    }
  }

  /**
   * The first handler, in the order of the if/elif chain, whose pattern
   * occurs in the request is the one that handles it.
   */
  lemma RoutedTo(request: string, route: Route)
    requires route != NotFound
    requires Contains(request, Pattern(route))
    requires forall r :: r != NotFound && Rank(r) < Rank(route) ==> !Contains(request, Pattern(r))
    ensures RouteOf(request) == route
  {
    var chosen := RouteOf(request);
    RouteOfFirst(request);
    assert chosen != NotFound;
    assert Rank(chosen) == Rank(route);
  }

  /**
   * A pattern starting with `G` that the request line does not start with
   * does not occur in the line, when the endpoint has no `G`; nor in the
   * headers after it, when it has no carriage return and they lack it.
   */
  lemma NotInRequest(endpoint: string, headers: string, p: string)
    requires 'G' !in endpoint
    requires headers == [] || headers[0] == '\r'
    requires p != [] && p[0] == 'G' && '\r' !in p
    requires !Contains(headers, p)
    requires !(p <= RequestLine(endpoint))
    ensures !Contains(RequestLine(endpoint) + headers, p)
  {
    var line := RequestLine(endpoint);
    var tail := "ET /" + endpoint + " HTTP/1.1";
    assert line[1..] == tail;
    assert 'G' !in tail;
    NotContainsByHead(line, p);
    NotContainsAcrossLineBreak(line, headers, p);
  }

  /** A request line for `/<endpoint>` contains the pattern of a handler the endpoint starts with. */
  lemma InRequest(endpoint: string, headers: string, route: Route)
    requires route != NotFound
    requires Pattern(route) <= RequestLine(endpoint)
    ensures Contains(RequestLine(endpoint) + headers, Pattern(route))
  {
    var request := RequestLine(endpoint) + headers;
    var p := Pattern(route);
    assert request[..|p|] == RequestLine(endpoint)[..|p|];
    assert OccursAt(request, p, 0);
    ContainsOccurs(request, p);
  }

  /** Every handler pattern is a `GET /` request-line prefix, all on one line. */
  lemma PatternShape(route: Route)
    requires route != NotFound
    ensures |Pattern(route)| > 5 && Pattern(route)[..5] == "GET /" && '\r' !in Pattern(route)
  {
  }

  /**
   * A request line that starts with a handler's pattern, and with none of
   * the patterns tried before it, goes to that handler, whatever plain
   * headers follow it.
   */
  lemma LineRoutedTo(endpoint: string, headers: string, route: Route)
    requires route != NotFound
    requires 'G' !in endpoint
    requires PlainHeaders(headers)
    requires Pattern(route) <= RequestLine(endpoint)
    requires forall r :: r != NotFound && Rank(r) < Rank(route) ==> !(Pattern(r) <= RequestLine(endpoint))
    ensures RouteOf(RequestLine(endpoint) + headers) == route
  {
    var request := RequestLine(endpoint) + headers;
    forall r | r != NotFound && Rank(r) < Rank(route)
      ensures !Contains(request, Pattern(r))
    {
      PatternShape(r);
      assert Pattern(r)[0] == 'G';
      NotInRequest(endpoint, headers, Pattern(r));
    }
    InRequest(endpoint, headers, route);
    RoutedTo(request, route);
  }

  // -----------------------------------------------------------------------
  // The query strings the tools build.
  // -----------------------------------------------------------------------

  /** A value text with none of the characters the request line and the parser treat specially. */
  predicate PlainText(t: string)
  {
    '&' !in t && '=' !in t && ' ' !in t && '?' !in t && 'G' !in t
  }

  /** Every integer's text is plain. */
  lemma PlainNumber(n: int)
    ensures PlainText(FormatInt(n))
  {
    FormatIntLacks(n, '&');
    FormatIntLacks(n, '=');
    FormatIntLacks(n, ' ');
    FormatIntLacks(n, '?');
    FormatIntLacks(n, 'G');
  }

  /** Two `key=value` pieces parse to the two bindings. */
  lemma TwoPieces(k1: string, v1: string, k2: string, v2: string)
    requires '=' !in k1 && '=' !in k2
    ensures ParamsOf([k1 + "=" + v1, k2 + "=" + v2]) == map[k1 := v1, k2 := v2]
  {
    LaterKeyOverwrites([], k1, v1);
    assert [] + [k1 + "=" + v1] == [k1 + "=" + v1];
    LaterKeyOverwrites([k1 + "=" + v1], k2, v2);
  }

  /** Two pieces without `c`, joined by `c`, split back into the two. */
  lemma SplitTwo(p1: string, p2: string, c: char)
    requires c !in p1 && c !in p2
    ensures Split(p1 + [c] + p2, c) == [p1, p2]
  {
    assert Join([p1, p2], c) == p1 + [c] + p2 by {
      assert [p1, p2][1..] == [p2];
    }
    SplitJoin([p1, p2], c);
  }

  /** The blink tool's query, for any two value texts without `&`, splits into its two pieces. */
  lemma BlinkPieces(a: string, b: string)
    requires '&' !in a && '&' !in b
    ensures Split("count=" + a + "&interval=" + b, '&') == ["count" + "=" + a, "interval" + "=" + b]
  {
    var p1 := "count" + "=" + a;
    var p2 := "interval" + "=" + b;
    assert "count=" + a + "&interval=" + b == p1 + ['&'] + p2;
    SplitTwo(p1, p2, '&');
  }

  /** The blink tool's query has no space when its value texts have none. */
  lemma BlinkQueryUnbroken(a: string, b: string)
    requires ' ' !in a && ' ' !in b
    ensures ' ' !in "count=" + a + "&interval=" + b
  {
  }

  /** The query of the blink tool, as the firmware parses it, for any plain value texts. */
  lemma BlinkQuery(a: string, b: string)
    requires PlainText(a) && PlainText(b)
    ensures ' ' !in "count=" + a + "&interval=" + b
    ensures ParamsOf(Split("count=" + a + "&interval=" + b, '&')) == map["count" := a, "interval" := b]
  {
    BlinkQueryUnbroken(a, b);
    BlinkPieces(a, b);
    TwoPieces("count", a, "interval", b);
  }

  /** The query of a request line is the text after `?` in its endpoint. */
  lemma QueryOfLine(path: string, query: string, headers: string)
    requires '?' !in path && ' ' !in query
    ensures QueryString(RequestLine(path + "?" + query) + headers) == query
  {
    assert RequestLine(path + "?" + query) + headers == ("GET /" + path) + "?" + query + (" HTTP/1.1" + headers);
    QueryStringBetween("GET /" + path, query, " HTTP/1.1" + headers);
  }

  /** A request line for a path and a query starts with `GET /` and the path. */
  lemma LineOfPath(path: string, query: string)
    ensures "GET /" + path <= RequestLine(path + "?" + query)
    ensures |path| > 4 ==> RequestLine(path + "?" + query)[5] == path[0] && RequestLine(path + "?" + query)[9] == path[4]
  {
    var line := RequestLine(path + "?" + query);
    assert line == ("GET /" + path) + ("?" + query + " HTTP/1.1");
  }

  // -----------------------------------------------------------------------
  // blink_led: the tool, the request, the firmware's reading of it.
  // -----------------------------------------------------------------------

  /** The shape of a blink endpoint, for any value texts without `G`. */
  lemma BlinkLine(a: string, b: string)
    requires 'G' !in a && 'G' !in b
    ensures var e := "led/blink?count=" + a + "&interval=" + b;
      && 'G' !in e
      && e == "led/blink" + "?" + ("count=" + a + "&interval=" + b)
  {
  }

  /** A request line with `l` at 5 and `b` at 9 starts with none of the patterns tried before the blink handler's. */
  lemma BlinkFirst(line: string)
    requires |line| > 9 && line[5] == 'l' && line[9] == 'b'
    ensures forall r :: r != NotFound && Rank(r) < Rank(LedBlink) ==> !(Pattern(r) <= line)
  {
    forall r | r != NotFound && Rank(r) < Rank(LedBlink)
      ensures !(Pattern(r) <= line)
    {
    }
  }

  /** The blink tool's request, for any plain value texts, goes to the firmware's blink handler. */
  lemma BlinkRoute(a: string, b: string, headers: string)
    requires PlainText(a) && PlainText(b)
    requires PlainHeaders(headers)
    ensures RouteOf(RequestLine("led/blink?count=" + a + "&interval=" + b) + headers) == LedBlink
  {
    var e := "led/blink?count=" + a + "&interval=" + b;
    BlinkLine(a, b);
    LineOfPath("led/blink", "count=" + a + "&interval=" + b);
    assert Pattern(LedBlink) == "GET /" + "led/blink";
    BlinkFirst(RequestLine(e));
    LineRoutedTo(e, headers, LedBlink);
  }

  /** The firmware parses the blink tool's request, for any plain value texts, into those texts. */
  lemma BlinkParams(a: string, b: string, headers: string)
    requires PlainText(a) && PlainText(b)
    ensures QueryParams(RequestLine("led/blink?count=" + a + "&interval=" + b) + headers) == map["count" := a, "interval" := b]
  {
    BlinkLine(a, b);
    BlinkQuery(a, b);
    QueryOfLine("led/blink", "count=" + a + "&interval=" + b, headers);
  }

  /** The blink handler reads the two integers back from their texts. */
  lemma BlinkArgsOfTexts(count: int, intervalMs: int)
    ensures BlinkArgs(map["count" := FormatInt(count), "interval" := FormatInt(intervalMs)]) == Some(BlinkJob(count, intervalMs))
  {
    ParseFormat(count);
    ParseFormat(intervalMs);
    BlinkArgsOfParsed(FormatInt(count), FormatInt(intervalMs), count, intervalMs);
  }

  /** Two texts that `int()` reads as two integers give the blink handler those integers. */
  lemma BlinkArgsOfParsed(a: string, b: string, count: int, intervalMs: int)
    requires ParseInt(a) == Some(count) && ParseInt(b) == Some(intervalMs)
    ensures BlinkArgs(map["count" := a, "interval" := b]) == Some(BlinkJob(count, intervalMs))
  {
    var params := map["count" := a, "interval" := b];
    assert params["count"] == a && params["interval"] == b;
  }

  /**
   * The round trip of `blink_led(count, interval_ms)`: the request the tool
   * sends, once received by the firmware, reaches the blink handler, and the
   * handler starts the blink thread with the same two integers.
   */
  lemma BlinkRoundTrip(count: int, intervalMs: int, headers: string)
    requires PlainHeaders(headers)
    requires |RequestLine(BlinkEndpoint(count, intervalMs))| <= RecvSize
    ensures var request := Received(RequestLine(BlinkEndpoint(count, intervalMs)) + headers);
      && RouteOf(request) == LedBlink
      && QueryParams(request) == map["count" := FormatInt(count), "interval" := FormatInt(intervalMs)]
      && BlinkArgs(QueryParams(request)) == Some(BlinkJob(count, intervalMs))
  {
    var line := RequestLine(BlinkEndpoint(count, intervalMs));
    ReceivedLine(line, headers);
    var k :| 0 <= k <= |headers| && Received(line + headers) == line + headers[..k] && PlainHeaders(headers[..k]);
    PlainNumber(count);
    PlainNumber(intervalMs);
    BlinkRoute(FormatInt(count), FormatInt(intervalMs), headers[..k]);
    BlinkParams(FormatInt(count), FormatInt(intervalMs), headers[..k]);
    BlinkArgsOfTexts(count, intervalMs);
  }

  // -----------------------------------------------------------------------
  // pulse_led: the tool, the request, the firmware's reading of it.
  // -----------------------------------------------------------------------

  /** Four `key=value` pieces with distinct keys parse to the four bindings. */
  lemma FourPieces(k1: string, v1: string, k2: string, v2: string, k3: string, v3: string, k4: string, v4: string)
    requires '=' !in k1 && '=' !in k2 && '=' !in k3 && '=' !in k4
    ensures ParamsOf([k1 + "=" + v1, k2 + "=" + v2, k3 + "=" + v3, k4 + "=" + v4])
         == map[k1 := v1, k2 := v2, k3 := v3, k4 := v4]
  {
    var p1, p2, p3, p4 := k1 + "=" + v1, k2 + "=" + v2, k3 + "=" + v3, k4 + "=" + v4;
    TwoPieces(k1, v1, k2, v2);
    assert [p1, p2] + [p3] == [p1, p2, p3];
    LaterKeyOverwrites([p1, p2], k3, v3);
    assert [p1, p2, p3] + [p4] == [p1, p2, p3, p4];
    LaterKeyOverwrites([p1, p2, p3], k4, v4);
  }

  /** Four pieces joined by `c`, each after the first led by `c`. */
  lemma JoinFour(p1: string, p2: string, p3: string, p4: string, c: char)
    ensures Join([p1, p2, p3, p4], c) == p1 + (([c] + p2) + (([c] + p3) + ([c] + p4)))
  {
    assert [p3, p4][1..] == [p4];
    assert Join([p3, p4], c) == p3 + [c] + p4;
    assert [p2, p3, p4][1..] == [p3, p4];
    assert Join([p2, p3, p4], c) == p2 + [c] + (p3 + [c] + p4);
    assert [p1, p2, p3, p4][1..] == [p2, p3, p4];
    assert Join([p1, p2, p3, p4], c) == p1 + [c] + (p2 + [c] + (p3 + [c] + p4));
  }

  /** Eight texts joined left to right, regrouped as four pairs joined from the right. */
  lemma Regroup(x1: string, x2: string, x3: string, x4: string, x5: string, x6: string, x7: string, x8: string)
    ensures x1 + x2 + x3 + x4 + x5 + x6 + x7 + x8 == (x1 + x2) + ((x3 + x4) + ((x5 + x6) + (x7 + x8)))
  {
  }

  /** A piece led by the separator, regrouped. */
  lemma Led(head: string, key: string, value: string, c: char)
    requires head == [c] + key + "="
    ensures head + value == [c] + (key + "=" + value)
  {
  }

  /** Four pieces without `c`, each after the first led by `c`, split back into the four. */
  lemma SplitFourLed(p1: string, p2: string, p3: string, p4: string, c: char)
    requires c !in p1 && c !in p2 && c !in p3 && c !in p4
    ensures Split(p1 + (([c] + p2) + (([c] + p3) + ([c] + p4))), c) == [p1, p2, p3, p4]
  {
    JoinFour(p1, p2, p3, p4, c);
    SplitJoin([p1, p2, p3, p4], c);
  }

  /** The pulse tool's query, for any value texts without `&`, splits into its four pieces. */
  lemma PulsePieces(a: string, b: string, c: string, d: string)
    requires '&' !in a && '&' !in b && '&' !in c && '&' !in d
    ensures Split("speed=" + a + "&min=" + b + "&max=" + c + "&times=" + d, '&')
         == ["speed" + "=" + a, "min" + "=" + b, "max" + "=" + c, "times" + "=" + d]
  {
    Regroup("speed=", a, "&min=", b, "&max=", c, "&times=", d);
    assert "speed=" + a == "speed" + "=" + a;
    Led("&min=", "min", b, '&');
    Led("&max=", "max", c, '&');
    Led("&times=", "times", d, '&');
    SplitFourLed("speed" + "=" + a, "min" + "=" + b, "max" + "=" + c, "times" + "=" + d, '&');
  }

  /** The pulse tool's query has no space when its value texts have none. */
  lemma PulseQueryUnbroken(a: string, b: string, c: string, d: string)
    requires ' ' !in a && ' ' !in b && ' ' !in c && ' ' !in d
    ensures ' ' !in "speed=" + a + "&min=" + b + "&max=" + c + "&times=" + d
  {
  }

  /** The query of the pulse tool, as the firmware parses it, for any plain value texts. */
  lemma PulseQuery(a: string, b: string, c: string, d: string)
    requires PlainText(a) && PlainText(b) && PlainText(c) && PlainText(d)
    ensures ' ' !in "speed=" + a + "&min=" + b + "&max=" + c + "&times=" + d
    ensures ParamsOf(Split("speed=" + a + "&min=" + b + "&max=" + c + "&times=" + d, '&'))
         == map["speed" := a, "min" := b, "max" := c, "times" := d]
  {
    PulseQueryUnbroken(a, b, c, d);
    PulsePieces(a, b, c, d);
    FourPieces("speed", a, "min", b, "max", c, "times", d);
  }

  /** The shape of a pulse endpoint, for any value texts without `G`. */
  lemma PulseLine(a: string, b: string, c: string, d: string)
    requires 'G' !in a && 'G' !in b && 'G' !in c && 'G' !in d
    ensures var e := "led/pulse?speed=" + a + "&min=" + b + "&max=" + c + "&times=" + d;
      && 'G' !in e
      && e == "led/pulse" + "?" + ("speed=" + a + "&min=" + b + "&max=" + c + "&times=" + d)
  {
  }

  /** A request line with `l` at 5 and `p` at 9 starts with none of the patterns tried before the pulse handler's. */
  lemma PulseFirst(line: string)
    requires |line| > 9 && line[5] == 'l' && line[9] == 'p'
    ensures forall r :: r != NotFound && Rank(r) < Rank(LedPulse) ==> !(Pattern(r) <= line)
  {
    forall r | r != NotFound && Rank(r) < Rank(LedPulse)
      ensures !(Pattern(r) <= line)
    {
    }
  }

  /** The pulse tool's request, for any plain value texts, goes to the firmware's pulse handler. */
  lemma PulseRoute(a: string, b: string, c: string, d: string, headers: string)
    requires PlainText(a) && PlainText(b) && PlainText(c) && PlainText(d)
    requires PlainHeaders(headers)
    ensures RouteOf(RequestLine("led/pulse?speed=" + a + "&min=" + b + "&max=" + c + "&times=" + d) + headers) == LedPulse
  {
    var e := "led/pulse?speed=" + a + "&min=" + b + "&max=" + c + "&times=" + d;
    PulseLine(a, b, c, d);
    LineOfPath("led/pulse", "speed=" + a + "&min=" + b + "&max=" + c + "&times=" + d);
    assert Pattern(LedPulse) == "GET /" + "led/pulse";
    PulseFirst(RequestLine(e));
    LineRoutedTo(e, headers, LedPulse);
  }

  /** The firmware parses the pulse tool's request, for any plain value texts, into those texts. */
  lemma PulseParams(a: string, b: string, c: string, d: string, headers: string)
    requires PlainText(a) && PlainText(b) && PlainText(c) && PlainText(d)
    ensures QueryParams(RequestLine("led/pulse?speed=" + a + "&min=" + b + "&max=" + c + "&times=" + d) + headers)
         == map["speed" := a, "min" := b, "max" := c, "times" := d]
  {
    PulseLine(a, b, c, d);
    PulseQuery(a, b, c, d);
    QueryOfLine("led/pulse", "speed=" + a + "&min=" + b + "&max=" + c + "&times=" + d, headers);
  }

  /** The pulse handler reads the four integers back from their texts. */
  lemma PulseArgsOfTexts(speed: int, minDuty: int, maxDuty: int, times: int)
    ensures PulseArgs(map["speed" := FormatInt(speed), "min" := FormatInt(minDuty), "max" := FormatInt(maxDuty), "times" := FormatInt(times)])
         == Some(PulseJob(speed, minDuty, maxDuty, times))
  {
    ParseFormat(speed);
    ParseFormat(minDuty);
    ParseFormat(maxDuty);
    ParseFormat(times);
    PulseArgsOfParsed(FormatInt(speed), FormatInt(minDuty), FormatInt(maxDuty), FormatInt(times), speed, minDuty, maxDuty, times);
  }

  /** Four texts that `int()` reads as four integers give the pulse handler those integers. */
  lemma PulseArgsOfParsed(a: string, b: string, c: string, d: string, speed: int, minDuty: int, maxDuty: int, times: int)
    requires ParseInt(a) == Some(speed) && ParseInt(b) == Some(minDuty)
    requires ParseInt(c) == Some(maxDuty) && ParseInt(d) == Some(times)
    ensures PulseArgs(map["speed" := a, "min" := b, "max" := c, "times" := d]) == Some(PulseJob(speed, minDuty, maxDuty, times))
  {
    var params := map["speed" := a, "min" := b, "max" := c, "times" := d];
    assert params["speed"] == a && params["min"] == b && params["max"] == c && params["times"] == d;
  }

  /**
   * The round trip of `pulse_led(speed, min_duty, max_duty, times)` outside
   * mock mode: the request reaches the pulse handler, and the handler starts
   * the pulse thread with the same four integers.
   */
  lemma PulseRoundTrip(speed: int, minDuty: int, maxDuty: int, times: int, headers: string)
    requires PlainHeaders(headers)
    requires |RequestLine(PulseEndpoint(speed, minDuty, maxDuty, times))| <= RecvSize
    ensures var request := Received(RequestLine(PulseEndpoint(speed, minDuty, maxDuty, times)) + headers);
      && RouteOf(request) == LedPulse
      && QueryParams(request) == map["speed" := FormatInt(speed), "min" := FormatInt(minDuty), "max" := FormatInt(maxDuty), "times" := FormatInt(times)]
      && PulseArgs(QueryParams(request)) == Some(PulseJob(speed, minDuty, maxDuty, times))
  {
    var line := RequestLine(PulseEndpoint(speed, minDuty, maxDuty, times));
    ReceivedLine(line, headers);
    var k :| 0 <= k <= |headers| && Received(line + headers) == line + headers[..k] && PlainHeaders(headers[..k]);
    PlainNumber(speed);
    PlainNumber(minDuty);
    PlainNumber(maxDuty);
    PlainNumber(times);
    var a, b, c, d := FormatInt(speed), FormatInt(minDuty), FormatInt(maxDuty), FormatInt(times);
    PulseRoute(a, b, c, d, headers[..k]);
    PulseParams(a, b, c, d, headers[..k]);
    PulseArgsOfTexts(speed, minDuty, maxDuty, times);
  }

  // -----------------------------------------------------------------------
  // turn_led_on, turn_led_off, get_esp32_status outside mock mode.
  // -----------------------------------------------------------------------

  /** `turn_led_on` asks for `led/on`, which the firmware's on handler answers. */
  lemma OnRoute(headers: string)
    requires PlainHeaders(headers)
    ensures RouteOf(Received(RequestLine("led/on") + headers)) == LedOn
  {
    var line := RequestLine("led/on");
    ReceivedLine(line, headers);
    var k :| 0 <= k <= |headers| && Received(line + headers) == line + headers[..k] && PlainHeaders(headers[..k]);
    assert line == "GET /led/on HTTP/1.1";
    assert line[5] == 'l';
    forall r | r != NotFound && Rank(r) < Rank(LedOn)
      ensures !(Pattern(r) <= line)
    {
    }
    LineRoutedTo("led/on", headers[..k], LedOn);
  }

  /** `turn_led_off` asks for `led/off`, which the firmware's off handler answers. */
  lemma OffRoute(headers: string)
    requires PlainHeaders(headers)
    ensures RouteOf(Received(RequestLine("led/off") + headers)) == LedOff
  {
    var line := RequestLine("led/off");
    ReceivedLine(line, headers);
    var k :| 0 <= k <= |headers| && Received(line + headers) == line + headers[..k] && PlainHeaders(headers[..k]);
    assert line == "GET /led/off HTTP/1.1";
    assert line[5] == 'l' && line[10] == 'f';
    forall r | r != NotFound && Rank(r) < Rank(LedOff)
      ensures !(Pattern(r) <= line)
    {
    }
    LineRoutedTo("led/off", headers[..k], LedOff);
  }

  /** `get_esp32_status` asks for `status`, which the firmware's status handler answers. */
  lemma StatusRoute(headers: string)
    requires PlainHeaders(headers)
    ensures RouteOf(Received(RequestLine("status") + headers)) == Status
  {
    var line := RequestLine("status");
    ReceivedLine(line, headers);
    var k :| 0 <= k <= |headers| && Received(line + headers) == line + headers[..k] && PlainHeaders(headers[..k]);
    assert line == "GET /status HTTP/1.1";
    assert line[5] == 's';
    forall r | r != NotFound && Rank(r) < Rank(Status)
      ensures !(Pattern(r) <= line)
    {
    }
    LineRoutedTo("status", headers[..k], Status);
  }
}
