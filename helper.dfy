/** main: the argument check, then server_socket, then browser, with one
  * status marker per run and the exit status that goes with it.
  */
module Helper {
  import opened Host
  import opened Report
  import opened Cli
  import opened Server

  /** What the platform's browser launcher did with the URL. On failure it has formatted
    * `detail` (the name of the failing platform call and its error number) for err. */
  datatype BrowserOutcome = Opened | LaunchFailed(detail: string)

  /** Everything the OS answers during one run. */
  datatype Os = Os(server: ServerOs, browser: BrowserOutcome)

  /** browser(url)'s return value: 0 or E_BROWSER. */
  function BrowserResult(outcome: BrowserOutcome): int
  {
    if outcome.Opened? then 0 else E_BROWSER
  }

  /** The calls browser(url) makes: the launch itself, then the E_BROWSER diagnostic if it failed. */
  ghost function BrowserEvents(url: string, outcome: BrowserOutcome): seq<Event>
  {
    [OpenUrlCall(url)] +
    match outcome
    case Opened => []
    case LaunchFailed(detail) => [Event.Write(Stderr, DiagnosticText(E_BROWSER, detail))]
  }

  /** browser(url) with the platform launcher abstracted to its outcome. */
  method Browser(h: Process, url: string, outcome: BrowserOutcome) returns (result: int)
    modifies h
    ensures result == BrowserResult(outcome)
    ensures h.trace == old(h.trace) + BrowserEvents(url, outcome)
  {
    result := E_BROWSER;
    h.OpenUrl(url);
    if outcome.LaunchFailed? {
      Err(h, result, outcome.detail);
      return;
    }
    result := 0;
  }

  /** browser writes nothing to standard output and closes nothing; on failure it writes its one
    * diagnostic to standard error. */
  lemma BrowserEventsOutput(url: string, outcome: BrowserOutcome)
    ensures var e := BrowserEvents(url, outcome);
      Writes(e, Stdout) == [] && Closed(e) == [] &&
      Writes(e, Stderr) == if outcome.Opened? then [] else [DiagnosticText(E_BROWSER, outcome.detail)]
  {
    var e := BrowserEvents(url, outcome);
    if outcome.Opened? {
      assert e[1..] == [];
    } else {
      var d := DiagnosticText(E_BROWSER, outcome.detail);
      var w := [Event.Write(Stderr, d)];
      assert e[1..] == w && w[1..] == [];
      assert w[0] == Event.Write(Stderr, d);
      assert Writes(w, Stderr) == [d] + Writes(w[1..], Stderr) && Writes(w[1..], Stderr) == [];
      assert Writes(w, Stdout) == Writes(w[1..], Stdout) && Writes(w[1..], Stdout) == [];
      assert Closed(w) == Closed(w[1..]) && Closed(w[1..]) == [];
    }
  }

  /** How a run ends: its exit status and the OS calls it made. */
  datatype Exit = Exit(code: int, events: seq<Event>)

  /** main(argc, argv) as a function of the arguments (`argv`, so `argc == |args|`) and the
    * OS's answers. */
  ghost function MainRun(args: seq<string>, os: Os): Exit
  {
    if |args| < 2 || !SchemeOk(args[1]) then
      Exit(2, [Event.Write(Stderr, USAGE_LINE)])
    else
      var setup := ServerSocketRun(0, os.server);
      if setup.result != 0 then
        Exit(1, setup.events + [Event.Write(Stdout, ResultMarker(setup.result))])
      else
        var launch := BrowserEvents(args[1], os.browser);
        var result := BrowserResult(os.browser);
        Exit(if result == 0 then 0 else 1,
             setup.events + launch + [Event.Write(Stdout, ResultMarker(result))])
  }

  /** main: stops at the first failing step and reports its result exactly once. */
  method Run(h: Process, args: seq<string>, os: Os) returns (exitCode: int)
    modifies h
    ensures exitCode == MainRun(args, os).code
    ensures h.trace == old(h.trace) + MainRun(args, os).events
  {
    if 2 > |args| {
      exitCode := Usage(h);
      return;
    }

    var url := args[1];
    if !SchemeOk(url) {
      exitCode := Usage(h);
      return;
    }

    var result, s, port;
    label fail: {
      result, s, port := ServerSocket(h, 0, os.server);
      if result != 0 {
        break fail;
      }

      result := Browser(h, url, os.browser);
      if result != 0 {
        break fail;
      }

      WriteResult(h, result);
      RunTrace(old(h.trace), args, os);
      exitCode := 0;
      return;
    }

    // fail:
    WriteResult(h, result);
    RunTrace(old(h.trace), args, os);
    exitCode := 1;
  }

  /** The trace a run past the argument check leaves: server_socket's calls, browser's calls when
    * the setup succeeded, and the marker of the result. */
  lemma RunTrace(t0: seq<Event>, args: seq<string>, os: Os)
    requires |args| >= 2 && SchemeOk(args[1])
    ensures var setup := ServerSocketRun(0, os.server);
      var launch := if setup.result != 0 then [] else BrowserEvents(args[1], os.browser);
      var result := if setup.result != 0 then setup.result else BrowserResult(os.browser);
      t0 + setup.events + launch + [Event.Write(Stdout, ResultMarker(result))] ==
      t0 + MainRun(args, os).events
  {
    var setup := ServerSocketRun(0, os.server);
    var launch := if setup.result != 0 then [] else BrowserEvents(args[1], os.browser);
    var marker := [Event.Write(Stdout, ResultMarker(if setup.result != 0 then setup.result else BrowserResult(os.browser)))];
    assert MainRun(args, os).events == setup.events + launch + marker;
    assert t0 + setup.events + launch + marker == t0 + (setup.events + launch + marker);
  }

  /** The run ends through usage, with status 2 and only the usage line written, exactly when
    * there is no URL argument or it does not begin with `http:` or `https:`. */
  lemma UsageExactlyOnBadArguments(args: seq<string>, os: Os)
    ensures var r := MainRun(args, os);
      r.code == 2 <==> |args| < 2 || !(StartsWith(args[1], "http:") || StartsWith(args[1], "https:"))
    ensures var r := MainRun(args, os);
      r.code == 2 ==>
        r.events == [Event.Write(Stderr, USAGE_LINE)] && Output(r.events, Stdout) == [] &&
        Output(r.events, Stderr) == USAGE_LINE
  {
    if |args| >= 2 {
      SchemeOkMeans(args[1]);
    }
    if |args| < 2 || !SchemeOk(args[1]) {
      var e := [Event.Write(Stderr, USAGE_LINE)];
      assert Writes(e, Stdout) == [] by {
        assert e[1..] == [];
      }
      assert Writes(e, Stderr) == [USAGE_LINE] by {
        assert e[1..] == [];
      }
      assert Concat([USAGE_LINE]) == USAGE_LINE + Concat([]);
    }
  }

  /** A run that reaches the pipeline writes exactly one status marker, as its last call, after
    * every other call including the cleanup; the marker is "+\n" exactly when the exit status
    * is 0, and otherwise names the failing stage with status 1. */
  lemma ReportsExactlyOnce(args: seq<string>, os: Os)
    requires |args| >= 2 && SchemeOk(args[1])
    ensures var r := MainRun(args, os);
      |r.events| > 0 && r.events[|r.events| - 1].Write? && r.events[|r.events| - 1].fd == Stdout &&
      |Writes(r.events, Stdout)| == 1
    ensures var r := MainRun(args, os); var out := Output(r.events, Stdout);
      (r.code == 0 || r.code == 1) &&
      (r.code == 0 <==> out == "+\n") &&
      (r.code == 1 <==> out == ResultMarker(E_SERVER) || out == ResultMarker(E_BROWSER))
    ensures var r := MainRun(args, os);
      DecodeMarker(Output(r.events, Stdout)) == if r.code == 0 then Succeeded else Failed(CodeByte(
        if ServerSocketRun(0, os.server).result != 0 then E_SERVER else E_BROWSER))
  {
    var setup := ServerSocketRun(0, os.server);
    var r := MainRun(args, os);
    var result := if setup.result != 0 then setup.result else BrowserResult(os.browser);
    var pre := if setup.result != 0 then setup.events else setup.events + BrowserEvents(args[1], os.browser);
    assert r.events == pre + [Event.Write(Stdout, ResultMarker(result))];
    assert Writes(setup.events, Stdout) == [] by {
      if setup.result == 0 {
        ServerSocketSuccess(0, os.server);
      } else {
        ServerSocketFailure(0, os.server);
        ServerSocketFailureReport(0, os.server);
      }
    }
    if setup.result == 0 {
      ServerSocketSuccess(0, os.server);
      WritesAppend(setup.events, BrowserEvents(args[1], os.browser), Stdout);
      BrowserEventsOutput(args[1], os.browser);
    } else {
      ServerSocketFailure(0, os.server);
    }
    WritesAppend(pre, [Event.Write(Stdout, ResultMarker(result))], Stdout);
    assert Writes(r.events, Stdout) == [ResultMarker(result)];
    assert Output(r.events, Stdout) == ResultMarker(result) by {
      assert Concat([ResultMarker(result)]) == ResultMarker(result) + Concat([]);
    }
  }

  /** Past the argument check, main exits with 0 exactly when server_socket succeeded and the
    * browser opened, and with 1 otherwise; its calls begin with server_socket's. */
  lemma ExitStatusMeans(args: seq<string>, os: Os)
    requires |args| >= 2 && SchemeOk(args[1])
    ensures MainRun(args, os).code ==
      if ServerSocketRun(0, os.server).result == 0 && os.browser.Opened? then 0 else 1
    ensures var setup := ServerSocketRun(0, os.server);
      |setup.events| <= |MainRun(args, os).events| &&
      MainRun(args, os).events[..|setup.events|] == setup.events
  {
  }

  /** A run past the argument check writes nothing to standard error when it succeeds; when it
    * fails, it writes exactly one diagnostic there: the E_SERVER line of the first failing setup
    * step, or the E_BROWSER line of the launch. */
  lemma DiagnosticExactlyOnFailure(args: seq<string>, os: Os)
    requires |args| >= 2 && SchemeOk(args[1])
    ensures var r := MainRun(args, os); r.code == 0 ==> Writes(r.events, Stderr) == []
    ensures var r := MainRun(args, os); var setup := ServerSocketRun(0, os.server);
      r.code == 1 && setup.result != 0 ==>
        Writes(r.events, Stderr) == [StepDiagnostic(os.server, FirstFailure(os.server))]
    ensures var r := MainRun(args, os); var setup := ServerSocketRun(0, os.server);
      r.code == 1 && setup.result == 0 ==>
        os.browser.LaunchFailed? && Writes(r.events, Stderr) == [DiagnosticText(E_BROWSER, os.browser.detail)]
  {
    var setup := ServerSocketRun(0, os.server);
    var r := MainRun(args, os);
    var marker := [Event.Write(Stdout, ResultMarker(if setup.result != 0 then setup.result else BrowserResult(os.browser)))];
    assert marker[1..] == [];
    assert Writes(marker, Stderr) == [];
    if setup.result != 0 {
      ServerSocketFailureReport(0, os.server);
      assert r.events == setup.events + marker;
      WritesAppend(setup.events, marker, Stderr);
    } else {
      ServerSocketSuccess(0, os.server);
      var launch := BrowserEvents(args[1], os.browser);
      BrowserEventsOutput(args[1], os.browser);
      assert r.events == setup.events + launch + marker;
      WritesAppend(setup.events, launch, Stderr);
      WritesAppend(setup.events + launch, marker, Stderr);
    }
  }

  /** browser is invoked, once and on the URL argument, exactly when server_socket succeeded. */
  lemma BrowserOnlyAfterServer(args: seq<string>, os: Os)
    requires |args| >= 2 && SchemeOk(args[1])
    ensures var r := MainRun(args, os);
      ServerSocketRun(0, os.server).result != 0 ==>
        forall i :: 0 <= i < |r.events| ==> !r.events[i].OpenUrlCall?
    ensures var r := MainRun(args, os); var n := |ServerSocketRun(0, os.server).events|;
      ServerSocketRun(0, os.server).result == 0 ==>
        n < |r.events| && r.events[n] == OpenUrlCall(args[1]) &&
        forall i :: 0 <= i < |r.events| && i != n ==> !r.events[i].OpenUrlCall?
  {
    var setup := ServerSocketRun(0, os.server);
    var r := MainRun(args, os);
    var n := |setup.events|;
    ServerSocketCalls(0, os.server);
    if setup.result != 0 {
      assert r.events == setup.events + [Event.Write(Stdout, ResultMarker(setup.result))];
      forall i | 0 <= i < |r.events|
        ensures !r.events[i].OpenUrlCall?
      {
        if i < n {
          assert r.events[i] == setup.events[i];
        }
      }
    } else {
      var launch := BrowserEvents(args[1], os.browser);
      var marker := [Event.Write(Stdout, ResultMarker(BrowserResult(os.browser)))];
      assert r.events == setup.events + launch + marker;
      forall i | 0 <= i < |r.events| && i != n
        ensures !r.events[i].OpenUrlCall?
      {
        if i < n {
          assert r.events[i] == setup.events[i];
        } else if i < n + |launch| {
          assert r.events[i] == launch[i - n];
        }
      }
    }
  }

  /** main asks for port 0, so the OS chooses the port: every bind the run makes is to port 0. */
  lemma RequestsAnyPort(args: seq<string>, os: Os)
    ensures var r := MainRun(args, os);
      forall i :: 0 <= i < |r.events| && r.events[i].BindCall? ==> r.events[i].port == 0
  {
    var r := MainRun(args, os);
    if |args| >= 2 && SchemeOk(args[1]) {
      var setup := ServerSocketRun(0, os.server);
      var n := |setup.events|;
      var rest := if setup.result != 0 then [] else BrowserEvents(args[1], os.browser);
      var result := if setup.result != 0 then setup.result else BrowserResult(os.browser);
      ServerSocketCalls(0, os.server);
      assert r.events == setup.events + rest + [Event.Write(Stdout, ResultMarker(result))];
      forall i | 0 <= i < |r.events| && r.events[i].BindCall?
        ensures r.events[i].port == 0
      {
        if i < n {
          assert r.events[i] == setup.events[i];
        }
      }
    }
  }

  /** The listening socket is released only on server_socket's own failure path, and only if it
    * was created; once server_socket succeeded main leaves it open until the process exits,
    * also when browser then fails. */
  lemma SocketReleaseInRun(args: seq<string>, os: Os)
    requires |args| >= 2 && SchemeOk(args[1])
    ensures var r := MainRun(args, os); var s := os.server.socket.status;
      Closed(r.events) ==
        if ServerSocketRun(0, os.server).result != 0 && s != INVALID_SOCKET then [s] else []
  {
    var setup := ServerSocketRun(0, os.server);
    var r := MainRun(args, os);
    var result := if setup.result != 0 then setup.result else BrowserResult(os.browser);
    var pre := if setup.result != 0 then setup.events else setup.events + BrowserEvents(args[1], os.browser);
    assert r.events == pre + [Event.Write(Stdout, ResultMarker(result))];
    ClosedAppend(pre, [Event.Write(Stdout, ResultMarker(result))]);
    if setup.result == 0 {
      ServerSocketSuccess(0, os.server);
      ClosedAppend(setup.events, BrowserEvents(args[1], os.browser));
      BrowserEventsOutput(args[1], os.browser);
    } else {
      ServerSocketFailure(0, os.server);
    }
  }
}
