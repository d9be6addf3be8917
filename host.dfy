/** The operating system as the helper sees it.
  *
  * Every call the program makes into the OS is recorded as an `Event` on the
  * trace of a `Process`; what the OS answers is not computed here but handed
  * in as a `Reply` (a status word and the `errno` read right after it), so a
  * single run is determined by its arguments and the replies drawn for it.
  * Every write the helper itself makes to standard output or standard error
  * is a `Write` event; the helper's share of each stream is the concatenation
  * of those writes. What a launched browser process writes is not recorded.
  */
module Host {

  /** The socket handle value the program treats as "no socket". */
  const INVALID_SOCKET: int := -1
  /** The status value the program treats as a failed socket call. */
  const SOCKET_ERROR: int := -1

  /** A TCP port number, as `ntohs` returns it. */
  type Port = p: int | 0 <= p < 0x1_0000

  /** A byte is modelled as a character below 256. */
  predicate IsByte(c: char) { c as int < 256 }

  predicate IsBytes(s: string) { forall i :: 0 <= i < |s| ==> IsByte(s[i]) }

  /** The two output channels the program writes to. */
  datatype Fd = Stdout | Stderr

  /** One call into the OS, with the arguments the program passed. */
  datatype Event =
    | SocketCall                              // socket(AF_INET, SOCK_STREAM, 0)
    | NonblockCall(s: int)                    // switch s to non-blocking mode
    | BindCall(s: int, port: int)             // bind s to 127.0.0.1:port
    | ListenCall(s: int, backlog: int)
    | GetSockNameCall(s: int)
    | CloseCall(s: int)
    | OpenUrlCall(url: string)                // hand the URL to the platform's browser launcher
    | Write(fd: Fd, bytes: string)

  /** What the OS answered to one call: its return value and the error number read after it. */
  datatype Reply = Reply(status: int, errno: int)

  /** The answers the OS gives, one per step of setting up the listening socket.
    * `socket.status` is the handle `socket()` returns; `boundPort` is the port
    * that `getsockname` reports, already in host byte order. */
  datatype ServerOs = ServerOs(
    socket: Reply,
    nonblock: Reply,
    bind: Reply,
    listen: Reply,
    getsockname: Reply,
    boundPort: Port)

  /** The bytes written to `fd`, one entry per write, in order. */
  function Writes(events: seq<Event>, fd: Fd): seq<string>
  {
    if events == [] then []
    else
      var rest := Writes(events[1..], fd);
      match events[0]
      case Write(f, bytes) => if f == fd then [bytes] + rest else rest
      case _ => rest
  }

  function Concat(w: seq<string>): string
  {
    if w == [] then [] else w[0] + Concat(w[1..])
  }

  /** Everything the events wrote to `fd`. */
  function Output(events: seq<Event>, fd: Fd): string
  {
    Concat(Writes(events, fd))
  }

  /** The handles the events closed, in order. */
  function Closed(events: seq<Event>): seq<int>
  {
    if events == [] then []
    else
      var rest := Closed(events[1..]);
      match events[0]
      case CloseCall(s) => [s] + rest
      case _ => rest
  }

  lemma {:induction false} WritesAppend(a: seq<Event>, b: seq<Event>, fd: Fd)
    ensures Writes(a + b, fd) == Writes(a, fd) + Writes(b, fd)
  {
    if a == [] {
      assert a + b == b;
    } else {
      assert (a + b)[1..] == a[1..] + b;
      WritesAppend(a[1..], b, fd);
    }
  }

  lemma {:induction false} ClosedAppend(a: seq<Event>, b: seq<Event>)
    ensures Closed(a + b) == Closed(a) + Closed(b)
  {
    if a == [] {
      assert a + b == b;
    } else {
      assert (a + b)[1..] == a[1..] + b;
      ClosedAppend(a[1..], b);
    }
  }

  /** The running helper process: the OS calls it has made so far. */
  class Process {
    var trace: seq<Event>

    constructor ()
      ensures trace == []
    {
      trace := [];
    }

    /** write(fd, bytes, |bytes|); the number of bytes written is ignored by every caller. */
    method Write(fd: Fd, bytes: string)
      modifies this
      ensures trace == old(trace) + [Event.Write(fd, bytes)]
    {
      trace := trace + [Event.Write(fd, bytes)];
    }

    method Socket(reply: Reply) returns (s: int)
      modifies this
      ensures s == reply.status
      ensures trace == old(trace) + [SocketCall]
    {
      trace := trace + [SocketCall];
      s := reply.status;
    }

    method Nonblock(s: int, reply: Reply) returns (status: int)
      modifies this
      ensures status == reply.status
      ensures trace == old(trace) + [NonblockCall(s)]
    {
      trace := trace + [NonblockCall(s)];
      status := reply.status;
    }

    method Bind(s: int, port: int, reply: Reply) returns (status: int)
      modifies this
      ensures status == reply.status
      ensures trace == old(trace) + [BindCall(s, port)]
    {
      trace := trace + [BindCall(s, port)];
      status := reply.status;
    }

    method Listen(s: int, backlog: int, reply: Reply) returns (status: int)
      modifies this
      ensures status == reply.status
      ensures trace == old(trace) + [ListenCall(s, backlog)]
    {
      trace := trace + [ListenCall(s, backlog)];
      status := reply.status;
    }

    method GetSockName(s: int, reply: Reply) returns (status: int)
      modifies this
      ensures status == reply.status
      ensures trace == old(trace) + [GetSockNameCall(s)]
    {
      trace := trace + [GetSockNameCall(s)];
      status := reply.status;
    }

    method Close(s: int)
      modifies this
      ensures trace == old(trace) + [CloseCall(s)]
    {
      trace := trace + [CloseCall(s)];
    }

    method OpenUrl(url: string)
      modifies this
      ensures trace == old(trace) + [OpenUrlCall(url)]
    {
      trace := trace + [OpenUrlCall(url)];
    }
  }
}
