/** server_socket: the five steps that set up the loopback listening socket,
  * with the shared failure path that reports, releases the socket and
  * clears the out-parameters.
  */
module Server {
  import opened Host
  import opened Report

  /** The decimal text of `n`, as the `%d` conversion produces it. */
  function Decimal(n: int): string
  {
    if n < 0 then "-" + Digits(-n) else Digits(n)
  }

  function Digits(n: nat): string
  {
    if n < 10 then [DigitChar(n)] else Digits(n / 10) + [DigitChar(n % 10)]
  }

  function DigitChar(d: nat): char
    requires d < 10
  {
    ('0' as int + d) as char
  }

  /** The value of a string of decimal digits, most significant first. */
  function DigitsValue(s: string): int
  {
    if s == [] then 0 else DigitsValue(s[..|s| - 1]) * 10 + (s[|s| - 1] as int - '0' as int)
  }

  /** The integer a `%d` text denotes: an optional minus sign, then digits. */
  function DecimalValue(s: string): int
  {
    if |s| > 0 && s[0] == '-' then -DigitsValue(s[1..]) else DigitsValue(s)
  }

  predicate IsDigit(c: char) { '0' <= c <= '9' }

  /** `Digits(n)` is a non-empty run of decimal digits, with no leading zero, denoting `n`. */
  lemma {:induction false} DigitsRoundTrip(n: nat)
    ensures var d := Digits(n);
      |d| > 0 && (forall i :: 0 <= i < |d| ==> IsDigit(d[i])) && (|d| > 1 ==> d[0] != '0') &&
      DigitsValue(d) == n
  {
    var d := Digits(n);
    if n >= 10 {
      DigitsRoundTrip(n / 10);
      assert d[..|d| - 1] == Digits(n / 10);
    }
  }

  /** The `%d` text of `n` reads back as `n`: a minus sign exactly for a negative number, then
    * its digits. */
  lemma DecimalRoundTrip(n: int)
    ensures var t := Decimal(n);
      DecimalValue(t) == n && (t[0] == '-' <==> n < 0) &&
      forall i :: 0 < i < |t| ==> IsDigit(t[i])
  {
    if n < 0 {
      DigitsRoundTrip(-n);
      assert Decimal(n)[1..] == Digits(-n);
    } else {
      DigitsRoundTrip(n);
    }
  }

  /** The formatted detail `"<call>: %d\n"` that a failing step passes to err. */
  function StepDetail(call: string, errno: int): string
  {
    call + ": " + Decimal(errno) + "\n"
  }

  /** The names the five steps report under. */
  const STEP_NAMES: seq<string> := ["socket", "socket_nonblock", "bind", "listen", "getsockname"]

  /** What server_socket returns and leaves behind: its result, the two out-parameters and the
    * OS calls it made. */
  datatype Setup = Setup(result: int, socket: int, port: int, events: seq<Event>)

  /** The five calls, in order, on socket `s` bound to `port`. */
  function StepEvents(s: int, port: int): seq<Event>
  {
    [SocketCall, NonblockCall(s), BindCall(s, port % 0x1_0000), ListenCall(s, 1), GetSockNameCall(s)]
  }

  /** The reply to step `k`. */
  function StepReply(os: ServerOs, k: nat): Reply
    requires k < 5
  {
    if k == 0 then os.socket
    else if k == 1 then os.nonblock
    else if k == 2 then os.bind
    else if k == 3 then os.listen
    else os.getsockname
  }

  /** Whether step `k` fails: socket() returning INVALID_SOCKET, the others returning SOCKET_ERROR. */
  predicate StepFails(os: ServerOs, k: nat)
    requires k < 5
  {
    StepReply(os, k).status == (if k == 0 then INVALID_SOCKET else SOCKET_ERROR)
  }

  /** The index of the first failing step, or 5 when all five succeed. */
  function FirstFailure(os: ServerOs): (k: nat)
    ensures k <= 5
    ensures forall j :: 0 <= j < k ==> !StepFails(os, j)
    ensures k < 5 ==> StepFails(os, k)
  {
    if StepFails(os, 0) then 0
    else if StepFails(os, 1) then 1
    else if StepFails(os, 2) then 2
    else if StepFails(os, 3) then 3
    else if StepFails(os, 4) then 4
    else 5
  }

  /** The line a failing step writes to standard error. */
  ghost function StepDiagnostic(os: ServerOs, k: nat): string
    requires k < 5
  {
    DiagnosticText(E_SERVER, StepDetail(STEP_NAMES[k], StepReply(os, k).errno))
  }

  /** The failure path after `done`: the diagnostic was written by the failing step, then the
    * socket `s` is closed if it exists, and both out-parameters are cleared. */
  function FailAfter(s: int, done: seq<Event>, diagnostic: string): Setup
  {
    Setup(E_SERVER, INVALID_SOCKET, 0,
          done + [Event.Write(Stderr, diagnostic)] + (if s != INVALID_SOCKET then [CloseCall(s)] else []))
  }

  /** server_socket(port, &socket, &port) as a function of the replies the OS gives: the calls
    * up to the first failing step and the failure path, or all five calls and success. */
  ghost function ServerSocketRun(port: int, os: ServerOs): Setup
  {
    var s := os.socket.status;
    var k := FirstFailure(os);
    if k < 5 then FailAfter(s, StepEvents(s, port)[..k + 1], StepDiagnostic(os, k))
    else Setup(0, s, os.boundPort, StepEvents(s, port))
  }

  /** The err call of a failing step: an E_SERVER diagnostic naming the call and its errno. */
  method ReportStep(h: Process, os: ServerOs, k: nat)
    requires k < 5
    modifies h
    ensures h.trace == old(h.trace) + [Event.Write(Stderr, StepDiagnostic(os, k))]
  {
    Err(h, E_SERVER, StepDetail(STEP_NAMES[k], StepReply(os, k).errno));
  }

  /** server_socket: each step is tried only if every earlier one succeeded. */
  method ServerSocket(h: Process, port: int, os: ServerOs) returns (result: int, psocket: int, pport: int)
    modifies h
    ensures var r := ServerSocketRun(port, os);
      result == r.result && psocket == r.socket && pport == r.port
    ensures h.trace == old(h.trace) + ServerSocketRun(port, os).events
  {
    ghost var t0 := h.trace;
    ghost var steps := StepEvents(os.socket.status, port);
    var failed: nat;  // the step that failed, for its err call
    result := E_SERVER;
    var s := INVALID_SOCKET;
    var status: int;

    label fail: {
      s := h.Socket(os.socket);
      if s == INVALID_SOCKET {
        failed := 0;  // err(result, "socket: %d\n", socket_errno()) is made at fail
        assert h.trace == t0 + steps[..1];
        break fail;
      }

      status := h.Nonblock(s, os.nonblock);
      if status == SOCKET_ERROR {
        failed := 1;  // err(result, "socket_nonblock: %d\n", socket_errno()) is made at fail
        assert h.trace == t0 + steps[..2];
        break fail;
      }

      // the address is 127.0.0.1 with htons(port)
      status := h.Bind(s, port % 0x1_0000, os.bind);
      if status == SOCKET_ERROR {
        failed := 2;  // err(result, "bind: %d\n", socket_errno()) is made at fail
        assert h.trace == t0 + steps[..3];
        break fail;
      }

      status := h.Listen(s, 1, os.listen);
      if status == SOCKET_ERROR {
        failed := 3;  // err(result, "listen: %d\n", socket_errno()) is made at fail
        assert h.trace == t0 + steps[..4];
        break fail;
      }

      status := h.GetSockName(s, os.getsockname);
      if status == SOCKET_ERROR {
        failed := 4;  // err(result, "getsockname: %d\n", socket_errno()) is made at fail
        assert h.trace == t0 + steps[..5];
        break fail;
      }

      assert FirstFailure(os) == 5;
      result := 0;
      psocket := s;
      pport := os.boundPort;
      return;
    }

    // fail: the err call of the failing step, then the release of the socket
    assert FirstFailure(os) == failed;
    ReportStep(h, os, failed);
    if s != INVALID_SOCKET {
      h.Close(s);
    }
    FailureTrace(t0, port, os);
    psocket := INVALID_SOCKET;
    pport := 0;
  }

  /** The trace that the failure path leaves: `t0`, the calls up to the failing one, its
    * diagnostic and the close of a created socket, is `t0` followed by the run's events. */
  lemma FailureTrace(t0: seq<Event>, port: int, os: ServerOs)
    requires FirstFailure(os) < 5
    ensures var s := os.socket.status; var k := FirstFailure(os);
      t0 + StepEvents(s, port)[..k + 1] + [Event.Write(Stderr, StepDiagnostic(os, k))] +
        (if s != INVALID_SOCKET then [CloseCall(s)] else []) ==
      t0 + ServerSocketRun(port, os).events
  {
    var s := os.socket.status;
    var k := FirstFailure(os);
    var done := StepEvents(s, port)[..k + 1];
    var w := [Event.Write(Stderr, StepDiagnostic(os, k))];
    var tail := if s != INVALID_SOCKET then [CloseCall(s)] else [];
    assert ServerSocketRun(port, os).events == done + w + tail;
    assert t0 + done + w + tail == t0 + (done + w + tail);
  }

  /** On success server_socket made all five calls on the socket it created, in order, wrote
    * nothing and closed nothing, and hands back that socket and the port the OS reported. */
  lemma ServerSocketSuccess(port: int, os: ServerOs)
    ensures var r := ServerSocketRun(port, os);
      r.result == 0 <==> forall k :: 0 <= k < 5 ==> !StepFails(os, k)
    ensures var r := ServerSocketRun(port, os);
      r.result == 0 ==>
        r.socket == os.socket.status != INVALID_SOCKET && r.port == os.boundPort &&
        r.events == [SocketCall, NonblockCall(r.socket), BindCall(r.socket, port % 0x1_0000),
                     ListenCall(r.socket, 1), GetSockNameCall(r.socket)] &&
        Writes(r.events, Stdout) == [] && Writes(r.events, Stderr) == [] && Closed(r.events) == []
  {
    var r := ServerSocketRun(port, os);
    if r.result == 0 {
      NoOutputInSteps(r.socket, port, 5);
      assert StepEvents(r.socket, port)[..5] == r.events;
    }
  }

  /** The failure path after calls that wrote nothing writes only the diagnostic, to standard
    * error. */
  lemma FailAfterWrites(s: int, done: seq<Event>, diagnostic: string)
    requires Writes(done, Stdout) == [] && Writes(done, Stderr) == []
    ensures var e := FailAfter(s, done, diagnostic).events;
      Writes(e, Stdout) == [] && Writes(e, Stderr) == [diagnostic]
  {
    var w := [Event.Write(Stderr, diagnostic)];
    var tail := if s != INVALID_SOCKET then [CloseCall(s)] else [];
    assert w[1..] == [];
    assert Writes(tail, Stdout) == [] && Writes(tail, Stderr) == [] by {
      if s != INVALID_SOCKET {
        assert tail[1..] == [];
      }
    }
    WritesAppend(done, w, Stdout);
    WritesAppend(done + w, tail, Stdout);
    WritesAppend(done, w, Stderr);
    WritesAppend(done + w, tail, Stderr);
  }

  /** The failure path keeps the calls made so far and, after calls that closed nothing, closes
    * `s` exactly when it is a socket. */
  lemma FailAfterCloses(s: int, done: seq<Event>, diagnostic: string)
    requires Closed(done) == []
    ensures var e := FailAfter(s, done, diagnostic).events;
      e[..|done|] == done && Closed(e) == if s != INVALID_SOCKET then [s] else []
  {
    var w := [Event.Write(Stderr, diagnostic)];
    var tail := if s != INVALID_SOCKET then [CloseCall(s)] else [];
    assert FailAfter(s, done, diagnostic).events[..|done|] == done;
    assert w[1..] == [];
    ClosedAppend(done, w);
    ClosedAppend(done + w, tail);
  }

  /** On failure server_socket made the calls up to and including the first failing one and no
    * more setup calls: after them come only the diagnostic and, exactly when the socket had
    * been created, its close. Both out-parameters are cleared. */
  lemma ServerSocketFailure(port: int, os: ServerOs)
    requires ServerSocketRun(port, os).result != 0
    ensures var r := ServerSocketRun(port, os); var k := FirstFailure(os);
      k < 5 && r.result == E_SERVER && r.socket == INVALID_SOCKET && r.port == 0 &&
      r.events[..k + 1] == StepEvents(os.socket.status, port)[..k + 1]
    ensures var r := ServerSocketRun(port, os); var s := os.socket.status; var k := FirstFailure(os);
      r.events[k + 1..] ==
        [Event.Write(Stderr, StepDiagnostic(os, k))] + (if s != INVALID_SOCKET then [CloseCall(s)] else [])
    ensures Closed(ServerSocketRun(port, os).events) ==
      if os.socket.status != INVALID_SOCKET then [os.socket.status] else []
  {
    var s := os.socket.status;
    var k := FirstFailure(os);
    assert |StepEvents(s, port)[..k + 1]| == k + 1;
    NoOutputInSteps(s, port, k + 1);
    FailAfterCloses(s, StepEvents(s, port)[..k + 1], StepDiagnostic(os, k));
  }

  /** On failure server_socket wrote nothing to standard output and exactly one diagnostic to
    * standard error: the E_SERVER line naming the first failing call and its errno. */
  lemma ServerSocketFailureReport(port: int, os: ServerOs)
    requires ServerSocketRun(port, os).result != 0
    ensures var r := ServerSocketRun(port, os); var k := FirstFailure(os);
      k < 5 && Writes(r.events, Stdout) == [] &&
      Writes(r.events, Stderr) == [DiagnosticText(E_SERVER, StepDetail(STEP_NAMES[k], StepReply(os, k).errno))]
    ensures var d := Output(ServerSocketRun(port, os).events, Stderr);
      |d| < ERR_BUF_SIZE && d[..|"E_SERVER: "|] == "E_SERVER: "
  {
    var s := os.socket.status;
    var k := FirstFailure(os);
    var diag := StepDiagnostic(os, k);
    var e := ServerSocketRun(port, os).events;
    NoOutputInSteps(s, port, k + 1);
    FailAfterWrites(s, StepEvents(s, port)[..k + 1], diag);
    assert Output(e, Stderr) == diag by {
      assert Concat([diag]) == diag + Concat([]);
    }
    DiagnosticShape(E_SERVER, StepDetail(STEP_NAMES[k], StepReply(os, k).errno));
    PrefixShape(E_SERVER);
  }

  /** server_socket never launches a browser, and every bind it makes is to the requested port
    * taken modulo 2^16. */
  lemma ServerSocketCalls(port: int, os: ServerOs)
    ensures var r := ServerSocketRun(port, os);
      forall e :: e in r.events ==> !e.OpenUrlCall? && (e.BindCall? ==> e.port == port % 0x1_0000)
  {
    var s := os.socket.status;
    var k := FirstFailure(os);
    var steps := StepEvents(s, port);
    forall e | e in steps
      ensures !e.OpenUrlCall? && (e.BindCall? ==> e.port == port % 0x1_0000)
    {
    }
    if k < 5 {
      var w := [Event.Write(Stderr, StepDiagnostic(os, k))];
      var tail := if s != INVALID_SOCKET then [CloseCall(s)] else [];
      assert ServerSocketRun(port, os).events == steps[..k + 1] + w + tail;
    }
  }

  /** The setup calls themselves write nothing and close nothing. */
  lemma NoOutputInSteps(s: int, port: int, n: nat)
    requires n <= 5
    ensures var done := StepEvents(s, port)[..n];
      Writes(done, Stdout) == [] && Writes(done, Stderr) == [] && Closed(done) == []
  {
    var done := StepEvents(s, port)[..n];
    if n > 0 {
      assert done == StepEvents(s, port)[..n - 1] + [done[n - 1]];
      NoOutputInSteps(s, port, n - 1);
      WritesAppend(StepEvents(s, port)[..n - 1], [done[n - 1]], Stdout);
      WritesAppend(StepEvents(s, port)[..n - 1], [done[n - 1]], Stderr);
      ClosedAppend(StepEvents(s, port)[..n - 1], [done[n - 1]]);
    }
  }
}
