# oauth2-helper: a verified model of the helper's control and reporting logic

`oauth2-helper` is a small one-shot program that a larger application starts to
open the user's browser on an authorization URL. This file of the program does the
following:

- checks that its first argument is an `http:` or `https:` URL (further arguments are
  ignored); if there is none, or it has another scheme, it writes a usage line to standard
  error and exits with 2;
- sets up a non-blocking listening TCP socket on the loopback interface, on a port
  the OS chooses;
- opens the browser on the URL;
- writes one status marker to standard output and exits with 0 or 1.

Every failure after the argument check (status 1) also writes a one-line diagnostic of the
form `E_<CODE>: <detail>` to standard error.

The model covers that control flow and the exact bytes the helper itself writes. Each OS call is
an event recorded on the trace of a `Host.Process`. What the OS answers is an input:
a `Host.Reply` (return value and `errno`) per socket call, and a
`Helper.BrowserOutcome` for the whole browser launch. A run is therefore a function of
its arguments and those answers. It is stated twice:

- as code: the methods follow the C functions step by step.
  - `goto fail` becomes a labelled block left with `break fail`.
  - In `server_socket` each failing step calls `err` right before its `goto`. The model
    makes that one `err` call just after the jump, for the step that failed. No OS call
    happens between the two points, so the trace is the same.
  - `write_result` fills a three-byte array.
  - `err` copies into a 1088-byte array with `strcpy`, `vsnprintf`-style capping and
    `strlen` loops.
- as specification functions:
  `Report.ResultMarker`, `Report.DiagnosticText`, `Server.ServerSocketRun`, `Helper.MainRun`.

Each method's postcondition ties its outputs and its new trace to the specification
function. The protocol's properties are then proved as lemmas about those functions.

Strings are `seq<char>`. Every byte the program itself produces in `write_result` and `err`
(the status markers and the prefixes) is proved to be a `char` below 256. Inputs (the URL,
`argv`, the formatted details) are any `string`: the model places no byte bound on them, and
nothing it proves depends on one.
`buf[1] = result` stores `result % 256`, the two's-complement low byte.

Modules: `Host` (events, OS answers, the process trace), `Report` (`write_result`,
`err`, `usage`), `Cli` (the URL scheme test), `Server` (`server_socket`), `Helper`
(`browser` as an outcome, and `main`).

## Model

| member | source | states |
|---|---|---|
| Report.CodeByte | oauth2-helper.c:297 | the code byte of the marker is a byte, and a code in 0..255 is stored unchanged |
| Report.ResultMarker | oauth2-helper.c:284-301 | `ResultMarker` is write_result's bytes as a function; `DecodeMarker` is how the invoker reads them back. Result 0 gives the 2 bytes `+`,`\n`; any other result gives the 3 bytes `-`, its code byte, `\n`; the invoker's decoding reads back success or exactly that code byte |
| Report.MarkerIdentifiesCode | oauth2-helper.c:294-299 | two codes in 0..255 with the same marker are the same code, so every failure code can be told apart on standard output |
| Report.ResultBytes | oauth2-helper.c:286-299 | filling the local three-byte buffer element by element and taking its first 2 or 3 bytes yields exactly the marker |
| Report.WriteResult | oauth2-helper.c:284-301 | write_result makes one write to standard output, of exactly the marker |
| Report.PrefixShape | oauth2-helper.c:102-119 | about `Prefix`, which is the switch itself: B, S, N and T select `E_BROWSER: `, `E_SERVER: `, `E_NETWORK: `, `E_TIMEOUT: ` (whose name starts with the code's own letter); every other value selects `E_UNKNOWN: `; a prefix holds no NUL and fits the buffer |
| Report.CStringShape | oauth2-helper.c:120 | the C string in a buffer is the NUL-free part before the first NUL |
| Report.CStringAt | oauth2-helper.c:130 | a NUL-free stretch ended by a NUL or by the end of the buffer is the buffer's C string |
| Report.Strcpy | oauth2-helper.c:105-117 | strcpy leaves the string and its NUL at the start of the buffer and the rest of the buffer unchanged |
| Report.Strlen | oauth2-helper.c:120 | strlen returns the index of the first NUL, so the bytes before it are the buffer's C string |
| Report.StoreCapped | oauth2-helper.c:126 | at most `sizeof buf - len - 1` bytes of the detail are stored after the prefix, followed by a NUL, and the prefix is left as it was |
| Report.Compose | oauth2-helper.c:120-130 | after the prefix is copied, strlen, the capped store of the detail and the final strlen hand to write exactly the C string of the prefix followed by as much of the detail as the buffer holds |
| Report.FormatDiagnostic | oauth2-helper.c:96-130 | the bytes err hands to write are DiagnosticText: the C string of the code's prefix plus the capped detail |
| Report.DiagnosticShape | oauth2-helper.c:99-130 | the diagnostic always starts with the code's prefix and is shorter than the 64+1024-byte buffer; a NUL-free detail that fits is written whole; a longer one is cut so that exactly 1087 bytes are written |
| Report.Err | oauth2-helper.c:96-131 | err makes one write to standard error, of exactly the diagnostic |
| Report.Usage | oauth2-helper.c:303-309 | usage writes `usage: oauth2-helper http-url` and a newline to standard error and ends the run with status 2 |
| Cli.SchemeOkMeans | oauth2-helper.c:321-323 | the byte-by-byte short-circuit test accepts a URL exactly when it begins with `http:` or `https:` |
| Cli.SchemeReadsWithinString | oauth2-helper.c:321-323 | the short-circuit test reads at most up to the URL's terminating NUL: every byte before the last one compared matched a letter of `https`, and an accepted URL is read only within its characters |
| Server.DecimalRoundTrip | oauth2-helper.c:231-265 | the `%d` text of an errno (`Decimal`) reads back as that number: a minus sign exactly for a negative value, then decimal digits |
| Server.DigitsRoundTrip | oauth2-helper.c:231-265 | the digits of a natural number are a non-empty run of decimal digits with no leading zero, denoting that number |
| Server.FirstFailure | oauth2-helper.c:228-267 | the index of the first of the five setup steps that fails, or 5 when none does |
| Server.ReportStep | oauth2-helper.c:229-266 | a failing step writes one E_SERVER diagnostic naming that call and its errno |
| Server.FailAfterWrites | oauth2-helper.c:275-281 | the failure path adds no write beyond the diagnostic: after calls that wrote nothing, standard output is empty and standard error holds that one line |
| Server.FailAfterCloses | oauth2-helper.c:275-277 | the failure path keeps the calls made so far and closes the socket exactly when it is not INVALID_SOCKET |
| Server.ServerSocket | oauth2-helper.c:220-282 | the outputs and the trace are those of the specification function `ServerSocketRun`: socket, nonblock, bind to 127.0.0.1 on the requested port taken modulo 2^16 (the htons cast), listen with backlog 1, getsockname, in that order; the first failure stops the sequence; the failing step's err call, then the close of a created socket, then the cleared out-parameters |
| Server.ServerSocketSuccess | oauth2-helper.c:228-273 | the result is 0 exactly when no step fails, and then the created socket and the reported port come back, after exactly the five calls with nothing written or closed |
| Server.ServerSocketFailure | oauth2-helper.c:275-281 | on failure the result is E_SERVER, `*psocket` is INVALID_SOCKET, `*pport` is 0, the calls made are those up to the failing one, followed only by its diagnostic and, exactly when the socket had been created, its close |
| Server.ServerSocketCalls | oauth2-helper.c:226-266 | server_socket never launches a browser, and every bind it makes is to the requested port taken modulo 2^16 |
| Server.ServerSocketFailureReport | oauth2-helper.c:229-267 | on failure nothing goes to standard output, and exactly one diagnostic goes to standard error: an `E_SERVER: ` line for the failing call, shorter than the buffer |
| Helper.Browser | oauth2-helper.c:133-218 | browser returns 0 or E_BROWSER, and on failure writes one E_BROWSER diagnostic |
| Helper.Run | oauth2-helper.c:311-342 | the exit status and the trace are those of the specification function `MainRun`: main checks the arguments, then runs server_socket on port 0 and then browser, halting at the first failure, and reports the result once |
| Helper.UsageExactlyOnBadArguments | oauth2-helper.c:318-324 | status 2 happens exactly when there are fewer than 2 arguments or the URL does not begin with `http:`/`https:`, and then only the usage line is written |
| Helper.ReportsExactlyOnce | oauth2-helper.c:326-341 | a run past the argument check writes exactly one marker, as its last call; status 0 comes exactly with `+\n`; status 1 comes exactly with `-S\n` or `-B\n`, naming the stage that failed |
| Helper.ExitStatusMeans | oauth2-helper.c:326-341 | past the argument check the exit status is 0 exactly when server_socket returned 0 and the browser opened, and 1 otherwise; the run's calls begin with server_socket's |
| Helper.DiagnosticExactlyOnFailure | oauth2-helper.c:326-341 | a successful run writes nothing to standard error; a failed one writes exactly one diagnostic there, the E_SERVER line of the first failing setup step or the E_BROWSER line of the launch |
| Helper.BrowserOnlyAfterServer | oauth2-helper.c:326-332 | if server_socket fails, browser is never invoked; otherwise it is invoked exactly once, on the URL argument, right after the socket setup |
| Helper.RequestsAnyPort | oauth2-helper.c:326 | every bind in a run asks for port 0, so the OS chooses the port |
| Helper.SocketReleaseInRun | oauth2-helper.c:326-341 | a run closes a socket only on server_socket's failure path, and only one that had been created; after a successful setup the listening socket stays open until the process exits, also when browser fails |

## Left out

- `browser` and its platform branches (ShellExecuteA, CoreFoundation/LaunchServices, posix_spawn with xdg-open and waitpid) are foreign OS calls. The whole call is an `OpenUrlCall` event plus an outcome: success, or failure with a formatted detail that goes to an E_BROWSER diagnostic. The Apple branch tests `urlstr` again where it should test `urlref` (oauth2-helper.c:155). That check is inside the abstracted launcher and is not modelled.
- Output of the launched browser process is not modelled. On the posix_spawn branch the child `xdg-open` gets `/dev/null` as its standard output (oauth2-helper.c:189-190), which keeps the status marker alone on the helper's standard output. The child inherits the helper's standard error, and whatever it prints there is not part of the trace. `Helper.DiagnosticExactlyOnFailure`, `Server.ServerSocketFailureReport` and `Server.FailAfterWrites` therefore count only the helper's own writes to standard error. A failed launch may show `xdg-open`'s own message before the E_BROWSER line.
- The socket system calls (`socket`, `fcntl`/`ioctlsocket`, `bind`, `listen`, `getsockname`) are OS plumbing. Each is an event whose return value and `errno` are inputs. `ntohs` is left out: the port that getsockname reports is an input in host byte order, 0..65535. `htons` appears only as the modulo-2^16 cast of the requested port.
- `printf`-style formatting inside `err` (`vsnprintf`, `wvsprintf`) is left out: the formatted detail is an input string, and only the size cap is modelled. The `%d` of the socket diagnostics is written out as plain decimal text of the errno.
- The Windows branch of `err` (`wvsprintf` with no length bound) is left out. The model follows the bounded `vsnprintf` path.
- `mainCRTStartup` (wide-character command-line conversion on Windows) depends on Win32 calls and the Win32 heap, so it is left out. `Helper.Run` takes `argv` as a sequence of strings, with `argc` its length.
- Platform shims (`write` over WriteFile, `socket_close`, `socket_nonblock`, `socket_errno`, the `exit`/`strcpy`/`strlen`/`malloc` macros) are thin wrappers. Each is one event or one loop of the model.
- `write` may write fewer bytes than asked or fail. The program ignores its return value, so every write is modelled as writing all its bytes.
- `exit(2)` inside `usage` ends the process. In the model, `Helper.Run` returns status 2 right after the usage line is written.
- Waiting for, accepting or reading a redirect, timeouts, URL port templating, custom response pages, the options `-p`/`-t`/`-F` and the failure codes `F`, `N` and `T` in use: this source file has none of them, so the model has none. `E_NETWORK` and `E_TIMEOUT` appear only in err's prefix table.
