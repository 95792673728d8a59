/**
 * The ESP8266 click web server of lab 6 (src/main.c): the request line is read
 * character by character into a 32-character buffer until it holds a newline, the
 * LED is switched by the `ledoff` / `ledon` tags in it, and the page is sent back
 * as a fixed sequence of strings.  The USART and SPI transport is a parameter (the
 * characters `readChar` would deliver) and two traces (the levels written to the
 * LED pin, the strings handed to `sendString`).
 */
module WebServer {

  /** `BUFF_LEN`, the size of `request[]`. */
  const BUFF_LEN: nat := 32
  /** Length of the blank string `request[]` is initialised with. */
  const BLANKS: nat := 18

  const WEBPAGE_START: string :=
    "<!DOCTYPE html><html><head><title>E155 Web Server Demo Webpage</title>\t<meta name=\"viewport\" content=\"width=device-width, initial-scale=1.0\">\t</head>\t<body><h1>E155 Web Server Demo Webpage</h1>"
  const LED_STR: string :=
    "<p>LED Control:</p><form action=\"ledon\"><input type=\"submit\" value=\"Turn the LED on!\"></form>\t<form action=\"ledoff\"><input type=\"submit\" value=\"Turn the LED off!\"></form>"
  const WEBPAGE_END: string := "</body></html>"
  const STATUS_HEADER: string := "<h2>LED Status</h2>"
  /** `sprintf("Temp (c): %.3f", 109.0)`. */
  const TEMPERATURE_TEXT: string := "Temp (c): 109.000"
  const LED_ON_TEXT: string := "LED is on!"
  const LED_OFF_TEXT: string := "LED is off!"

  // ---------------------------------------------------------------------------
  // C strings and `strstr`
  // ---------------------------------------------------------------------------

  /** `pat` occurs in `s` starting at index `i`. */
  predicate Occurs(s: seq<char>, pat: seq<char>, i: int) {
    0 <= i && i + |pat| <= |s| && s[i..i + |pat|] == pat
  }

  /** `pat` is a substring of `s`. */
  ghost predicate Contains(s: seq<char>, pat: seq<char>) {
    exists i :: Occurs(s, pat, i)
  }

  /** The C string held by a `char` buffer: its characters up to the first NUL. */
  function CString(buf: seq<char>): (s: seq<char>)
    ensures s <= buf && '\0' !in s
    ensures |s| < |buf| ==> buf[|s|] == '\0'
  {
    if buf == [] || buf[0] == '\0' then [] else [buf[0]] + CString(buf[1..])
  }

  /** The search of `strstr` from position `i` on. */
  function FindFrom(h: seq<char>, n: seq<char>, i: nat): int
    decreases |h| - i
  {
    if i + |n| > |h| then -1
    else if h[i..i + |n|] == n then i
    else FindFrom(h, n, i + 1)
  }

  /** `strstr(h, n)` as an index into `h`, with -1 standing for NULL. */
  function Strstr(h: seq<char>, n: seq<char>): int {
    FindFrom(h, n, 0)
  }

  lemma {:induction false} FindFromFirst(h: seq<char>, n: seq<char>, i: nat)
    ensures var p := FindFrom(h, n, i);
      && (p == -1 ==> forall j :: i <= j ==> !Occurs(h, n, j))
      && (p != -1 ==> i <= p && Occurs(h, n, p) && forall j :: i <= j < p ==> !Occurs(h, n, j))
    decreases |h| - i
  {
    if i + |n| > |h| {
    } else if h[i..i + |n|] == n {
    } else {
      FindFromFirst(h, n, i + 1);
    }
  }

  /** `strstr` finds a needle exactly when it occurs, and then its first occurrence. */
  lemma StrstrFindsFirst(h: seq<char>, n: seq<char>)
    ensures Strstr(h, n) != -1 <==> Contains(h, n)
    ensures Strstr(h, n) != -1 ==>
      Occurs(h, n, Strstr(h, n)) && forall j :: 0 <= j < Strstr(h, n) ==> !Occurs(h, n, j)
  {
    FindFromFirst(h, n, 0);
  }

  /** `inString`: 1 when `des` occurs in the C string held by `request`, -1 otherwise. */
  function InString(request: seq<char>, des: seq<char>): int {
    if Strstr(CString(request), des) != -1 then 1 else -1
  }

  /** `inString` answers 1 exactly for a substring and -1 exactly for a non-substring;
      it never answers anything else. */
  lemma InStringMeans(request: seq<char>, des: seq<char>)
    ensures InString(request, des) == 1 <==> Contains(CString(request), des)
    ensures InString(request, des) == -1 <==> !Contains(CString(request), des)
  {
    StrstrFindsFirst(CString(request), des);
  }

  /** A one-character needle is found exactly when the character is present. */
  lemma ContainsChar(s: seq<char>, c: char)
    ensures Contains(s, [c]) <==> c in s
  {
    if c in s {
      var i :| 0 <= i < |s| && s[i] == c;
      assert Occurs(s, [c], i);
    }
    if Contains(s, [c]) {
      var i :| Occurs(s, [c], i);
      assert s[i] == s[i..i + 1][0];
    }
  }

  /** A prefix without NUL survives into the C string of the whole buffer. */
  lemma {:induction false} CStringAppend(a: seq<char>, b: seq<char>)
    requires '\0' !in a
    ensures CString(a + b) == a + CString(b)
  {
    if a != [] {
      assert (a + b)[0] == a[0] && (a + b)[1..] == a[1..] + b;
      CStringAppend(a[1..], b);
      assert CString(a + b) == [a[0]] + (a[1..] + CString(b));
      assert [a[0]] + (a[1..] + CString(b)) == ([a[0]] + a[1..]) + CString(b);
      assert a == [a[0]] + a[1..];
    } else {
      assert a + b == b;
    }
  }

  // ---------------------------------------------------------------------------
  // Reading the request line
  // ---------------------------------------------------------------------------

  /** `request[]` before the read loop: 18 blanks, the rest zero-filled. */
  function InitialRequest(): (r: seq<char>)
    ensures |r| == BUFF_LEN
  {
    seq(BLANKS, _ => ' ') + seq(BUFF_LEN - BLANKS, _ => '\0')
  }

  /** The index of the first newline of `input`, or |input| when there is none. */
  function LineEnd(input: seq<char>): (k: nat)
    ensures k <= |input| && '\n' !in input[..k]
    ensures k < |input| ==> input[k] == '\n'
  {
    if input == [] || input[0] == '\n' then 0
    else
      assert input[..1 + LineEnd(input[1..])] == [input[0]] + input[1..][..LineEnd(input[1..])];
      1 + LineEnd(input[1..])
  }

  /** The read loop has no bound check, so the request line, newline included, must
      leave the buffer NUL-terminated, and a NUL before the newline would hide it from
      `strstr`. */
  predicate WellFormedRequest(input: seq<char>) {
    LineEnd(input) < |input| && LineEnd(input) < BUFF_LEN - 1 && '\0' !in input[..LineEnd(input)]
  }

  /** `request[]` once its first `n` characters have been received. */
  function Received(input: seq<char>, n: nat): seq<char>
    requires n <= |input| && n <= BUFF_LEN
  {
    input[..n] + InitialRequest()[n..]
  }

  /** The blanks of the initial value that the received characters leave in place. */
  function Blanks(n: nat): seq<char> {
    if n < BLANKS then seq(BLANKS - n, _ => ' ') else []
  }

  /** The C string of the buffer after `n` received characters without NUL: those
      characters followed by the blanks not yet overwritten. */
  lemma ReceivedText(input: seq<char>, n: nat)
    requires n <= |input| && n < BUFF_LEN && '\0' !in input[..n]
    ensures CString(Received(input, n)) == input[..n] + Blanks(n)
  {
    var blank, zero := seq(BLANKS, _ => ' '), seq(BUFF_LEN - BLANKS, _ => '\0');
    var rest := InitialRequest()[n..];
    CStringAppend(input[..n], rest);
    if n < BLANKS {
      assert rest == blank[n..] + zero;
      assert blank[n..] == Blanks(n);
      CStringAppend(Blanks(n), zero);
      assert CString(zero) == [];
    } else {
      assert rest[0] == '\0';
      assert input[..n] + Blanks(n) == input[..n];
    }
  }

  /** The loop guard `inString(request, "\n") == -1` holds until the newline has been
      stored, and fails right after. */
  lemma GuardStopsAtNewline(input: seq<char>, n: nat)
    requires WellFormedRequest(input) && n <= LineEnd(input) + 1
    ensures InString(Received(input, n), "\n") == 1 <==> n == LineEnd(input) + 1
  {
    var k := LineEnd(input);
    assert '\0' !in input[..n] by {
      assert n == k + 1 ==> input[..n] == input[..k] + [input[k]];
    }
    ReceivedText(input, n);
    InStringMeans(Received(input, n), "\n");
    ContainsChar(input[..n] + Blanks(n), '\n');
    if n == k + 1 {
      assert input[..n][k] == '\n';
    } else {
      assert input[..n] <= input[..k];
    }
  }

  /** Storing the next character turns the buffer after n characters into the buffer
      after n + 1. */
  lemma ReceivedStep(input: seq<char>, n: nat)
    requires n < |input| && n < BUFF_LEN
    ensures Received(input, n)[n := input[n]] == Received(input, n + 1)
  {
    assert input[..n + 1] == input[..n] + [input[n]];
  }

  /** The read loop of `main`: store the characters `readChar` delivers at
      consecutive indices until the buffer's C string holds a newline.  Returns the
      buffer's contents and the number of characters consumed. */
  method ReadRequest(input: seq<char>) returns (request: seq<char>, consumed: nat)
    requires WellFormedRequest(input)
    ensures consumed == LineEnd(input) + 1 && consumed < BUFF_LEN
    ensures request == Received(input, consumed)
    ensures CString(request) == input[..consumed] + Blanks(consumed)
  {
    var buf := new char[BUFF_LEN](i requires 0 <= i < BUFF_LEN => InitialRequest()[i]);
    var charIndex := 0;
    assert buf[..] == Received(input, 0);
    GuardStopsAtNewline(input, 0);
    while InString(buf[..], "\n") == -1
      invariant 0 <= charIndex <= LineEnd(input) + 1
      invariant buf[..] == Received(input, charIndex)
      invariant InString(buf[..], "\n") == 1 <==> charIndex == LineEnd(input) + 1
      decreases LineEnd(input) + 1 - charIndex
    {
      ReceivedStep(input, charIndex);
      buf[charIndex] := input[charIndex];
      charIndex := charIndex + 1;
      GuardStopsAtNewline(input, charIndex);
    }
    request, consumed := buf[..], charIndex;
    assert input[..consumed] == input[..consumed - 1] + [input[consumed - 1]];
    ReceivedText(input, consumed);
  }

  // ---------------------------------------------------------------------------
  // The LED, the status text and the page
  // ---------------------------------------------------------------------------

  /** The status paragraph: "LED is on!" for status 1, "LED is off!" for status 0
      (any other status would leave `ledStatusStr` unset). */
  function StatusText(ledStatus: int): (s: string)
    requires ledStatus == 0 || ledStatus == 1
  {
    if ledStatus == 1 then LED_ON_TEXT else LED_OFF_TEXT
  }

  /** The two status texts are different, so the page tells the states apart. */
  lemma StatusTextDistinguishes(ledStatus: int)
    requires ledStatus == 0 || ledStatus == 1
    ensures StatusText(ledStatus) == LED_ON_TEXT <==> ledStatus == 1
    ensures StatusText(ledStatus) == LED_OFF_TEXT <==> ledStatus == 0
  {
    assert |LED_ON_TEXT| != |LED_OFF_TEXT|;
  }

  /** The strings `sendString` is handed for one response, in order. */
  function Page(status: string): seq<string> {
    [WEBPAGE_START, LED_STR, STATUS_HEADER, "<p>", status, "</p>",
     "<p>", TEMPERATURE_TEXT, "</p>", WEBPAGE_END]
  }

  /** The LED the request asks for: off wins over on, and no tag leaves it alone. */
  ghost function Requested(line: seq<char>): (level: seq<bool>)
    ensures |level| <= 1
  {
    if Contains(line, "ledoff") then [false]
    else if Contains(line, "ledon") then [true]
    else []
  }

  /** A needle with a character the haystack lacks does not occur in it. */
  lemma MissingChar(s: seq<char>, pat: seq<char>, k: nat)
    requires k < |pat| && pat[k] !in s
    ensures !Contains(s, pat)
  {
    forall i | 0 <= i && i + |pat| <= |s|
      ensures !Occurs(s, pat, i)
    {
      assert s[i..i + |pat|][k] == s[i + k];
    }
  }

  /** The requests the page's two forms produce, `/REQ:ledon` and `/REQ:ledoff` with
      the initial blanks behind them, ask for the LED on and off. */
  lemma FormRequests()
    ensures Requested("/REQ:ledon\n       ") == [true]
    ensures Requested("/REQ:ledoff\n      ") == [false]
  {
    var on, off := "/REQ:ledon\n       ", "/REQ:ledoff\n      ";
    MissingChar(on, "ledoff", 4);
    assert Occurs(on, "ledon", 5);
    assert Occurs(off, "ledoff", 5);
  }

  class Board {
    /** Every level written with `digitalWrite(LED_PIN, ·)`, oldest first. */
    var ledWrites: seq<bool>
    /** Every string handed to `sendString(USART, ·)`, oldest first. */
    var sent: seq<string>

    /** The start of `main` after the peripherals: the LED pin driven low. */
    constructor ()
      ensures ledWrites == [false] && sent == []
    {
      ledWrites := [false];
      sent := [];
    }

    /** `updateLEDStatus`: "ledoff" switches the LED off and gives 0 whether or not
        "ledon" is present too; "ledon" alone switches it on and gives 1; with neither
        the pin is not written and the result is 0. */
    method UpdateLedStatus(request: seq<char>) returns (ledStatus: int)
      modifies this`ledWrites
      ensures Contains(CString(request), "ledoff") ==>
        ledStatus == 0 && ledWrites == old(ledWrites) + [false]
      ensures !Contains(CString(request), "ledoff") && Contains(CString(request), "ledon") ==>
        ledStatus == 1 && ledWrites == old(ledWrites) + [true]
      ensures !Contains(CString(request), "ledoff") && !Contains(CString(request), "ledon") ==>
        ledStatus == 0 && ledWrites == old(ledWrites)
    {
      InStringMeans(request, "ledoff");
      InStringMeans(request, "ledon");
      ledStatus := 0;
      if InString(request, "ledoff") == 1 {
        ledWrites := ledWrites + [false];
        ledStatus := 0;
      } else if InString(request, "ledon") == 1 {
        ledWrites := ledWrites + [true];
        ledStatus := 1;
      }
    }

    /** One round of `while(1)`: read the request line, update the LED, and send the
        page whose status paragraph reports the LED as the request left it. */
    method ServeRequest(input: seq<char>) returns (consumed: nat)
      requires WellFormedRequest(input)
      modifies this
      ensures consumed == LineEnd(input) + 1
      ensures var line := input[..consumed] + Blanks(consumed);
        && ledWrites == old(ledWrites) + Requested(line)
        && sent == old(sent) + Page(if Requested(line) == [true] then LED_ON_TEXT else LED_OFF_TEXT)
    {
      var request;
      request, consumed := ReadRequest(input);
      var ledStatus := UpdateLedStatus(request);
      var ledStatusStr := StatusText(ledStatus);
      assert ledStatusStr == if Requested(CString(request)) == [true] then LED_ON_TEXT else LED_OFF_TEXT;
      SendPage(ledStatusStr);
    }

    /** The ten `sendString` calls of the response, in order. */
    method SendPage(ledStatusStr: string)
      modifies this`sent
      ensures sent == old(sent) + Page(ledStatusStr)
    {
      SendString(WEBPAGE_START);
      SendString(LED_STR);
      SendString(STATUS_HEADER);
      SendString("<p>");
      SendString(ledStatusStr);
      SendString("</p>");
      SendString("<p>");
      SendString(TEMPERATURE_TEXT);
      SendString("</p>");
      SendString(WEBPAGE_END);
    }

    /** `sendString(USART, str)`: the string joins the output trace. */
    method SendString(str: string)
      modifies this`sent
      ensures sent == old(sent) + [str]
    {
      sent := sent + [str];
    }
  }
}
