/**
 An HTTP transport over Unix domain sockets (httpunix.go).

 A request addressed to `http+unix://unix` carries the socket file and the
 path inside the socket in its URL path, as `SOCKET:PATH`. `RoundTrip` checks
 the URL, splits the path at its only colon, rewrites the request's path to the
 in-socket path while it dials the socket and exchanges the request and the
 response, and puts the original path back before it returns.
 */
module HttpUnix {
  import opened Wrappers
  import opened Strings
  import opened Http

  /** The URL scheme served by this transport. */
  const Scheme: string := "http+unix"

  /** The placeholder host every request must name. */
  const UnixHost: string := "unix"

  /** What separates the socket file from the in-socket path. */
  const Separator: char := ':'

  /** The start of the message for an unsupported scheme. */
  const UnsupportedPrefix: string := "unsupported protocol scheme: "

  /** The ways a round trip can fail. */
  datatype Error =
    | NilURL
    | UnsupportedScheme(scheme: string)
    | InvalidHost
    | InvalidFormat
      /** A dial, write or read error, returned exactly as the step produced it. */
    | IoFailure(cause: IoError)

  /** The text of each error, as the caller sees it. */
  function Message(e: Error): string
  {
    match e
    case NilURL => "http+unix: nil Request.URL"
    case UnsupportedScheme(s) => UnsupportedPrefix + s
    case InvalidHost => "http+unix: invalid Host in request URL"
    case InvalidFormat => "http+unix: Invalid URL format"
    case IoFailure(cause) => cause.message
  }

  /** The fields of a request URL that the checks read, or `None` for a nil URL. */
  datatype UrlFields = UrlFields(scheme: string, host: string, path: string)

  /** Where an accepted request goes: the socket file and the path inside it. */
  datatype Target = Target(socket: string, path: string)

  /** The three durations of a transport (Go's `time.Duration`); zero or less means unset. */
  datatype Timeouts = Timeouts(dial: int, request: int, responseHeader: int)

  /** The value a round trip returns, and the steps it took on the network in order. */
  datatype Run = Run(result: Result<Response, Error>, events: seq<Event>)

  /**
   The checks of `RoundTrip` before any I/O, in the order they run: a nil URL,
   then the scheme, then the host, then the colon split of the path. A request
   gets through exactly when its path holds exactly one colon.
   */
  function Validate(u: Option<UrlFields>): (r: Result<Target, Error>)
    ensures r.Ok? <==> u.Some? && u.value.scheme == Scheme && u.value.host == UnixHost
                       && Count(u.value.path, Separator) == 1
  {
    if u.None? then Err(NilURL)
    else if u.value.scheme != Scheme then Err(UnsupportedScheme(u.value.scheme))
    else if u.value.host != UnixHost then Err(InvalidHost)
    else
      var parts := Split(u.value.path, Separator);
      if |parts| != 2 then Err(InvalidFormat)
      else Ok(Target(parts[0], parts[1]))
  }

  /** The write deadline step, taken only when a request timeout is set. */
  function WriteDeadline(c: Timeouts, path: string): seq<Event>
  {
    if c.request > 0 then [Event(SetWriteDeadline(c.request), path)] else []
  }

  /** The read deadline step, taken only when a response-header timeout is set. */
  function ReadDeadline(c: Timeouts, path: string): seq<Event>
  {
    if c.responseHeader > 0 then [Event(SetReadDeadline(c.responseHeader), path)] else []
  }

  /**
   The exchange after the split: dial the socket, write the request, read the
   response, stopping at the first step that fails. Every step sees the
   in-socket path.
   */
  function Exchange(c: Timeouts, t: Target, o: Outcomes): Run
  {
    var dialled := [Event(Dial("unix", t.socket, c.dial), t.path)];
    if o.dial.Some? then Run(Err(IoFailure(o.dial.value)), dialled)
    else
      var written := dialled + WriteDeadline(c, t.path) + [Event(WriteRequest, t.path)];
      if o.write.Some? then Run(Err(IoFailure(o.write.value)), written)
      else
        var read := written + ReadDeadline(c, t.path) + [Event(ReadResponse, t.path)];
        match o.read
        case Ok(resp) => Run(Ok(resp), read)
        case Err(e) => Run(Err(IoFailure(e)), read)
  }

  /** A whole round trip: the checks, then, if they pass, the exchange. */
  function Expected(c: Timeouts, u: Option<UrlFields>, o: Outcomes): Run
  {
    match Validate(u)
    case Err(e) => Run(Err(e), [])
    case Ok(t) => Exchange(c, t, o)
  }

  /** The fields of a request URL, read from the heap. */
  function Fields(url: URL?): Option<UrlFields>
    reads url
  {
    if url == null then None else Some(UrlFields(url.scheme, url.host, url.path))
  }

  /** The place of each step in the fixed dial, write, read sequence. */
  function Rank(s: Step): nat
  {
    match s
    case Dial(_, _, _) => 0
    case SetWriteDeadline(_) => 1
    case WriteRequest => 2
    case SetReadDeadline(_) => 3
    case ReadResponse => 4
  }

  /** A `net/http` round tripper whose connections are Unix domain sockets. */
  class Transport {
    const dialTimeout: int
    const requestTimeout: int
    const responseHeaderTimeout: int

    constructor (dialTimeout: int, requestTimeout: int, responseHeaderTimeout: int)
      ensures this.dialTimeout == dialTimeout && this.requestTimeout == requestTimeout
      ensures this.responseHeaderTimeout == responseHeaderTimeout
    {
      this.dialTimeout := dialTimeout;
      this.requestTimeout := requestTimeout;
      this.responseHeaderTimeout := responseHeaderTimeout;
    }

    function Config(): Timeouts
    {
      Timeouts(dialTimeout, requestTimeout, responseHeaderTimeout)
    }

    /**
     Executes one HTTP transaction. The request's URL path is the in-socket path
     for every network step and is back to its value on entry when this returns,
     whichever way it returns.
     */
    method RoundTrip(req: Request, net: Network) returns (r: Result<Response, Error>)
      modifies req.url, net
      ensures r == Expected(Config(), old(Fields(req.url)), net.outcomes).result
      ensures net.trace == old(net.trace) + Expected(Config(), old(Fields(req.url)), net.outcomes).events
      ensures req.url != null ==> req.url.path == old(req.url.path)
    {
      var target := Validate(Fields(req.url));
      if target.Err? {
        return Err(target.error);
      }
      var url := req.url;
      // change the path during the request; the restore below plays the deferred closure
      var path := url.path;
      url.path := target.value.path;
      r := Send(req, net, target.value.socket);
      url.path := path;
    }

    /**
     The body of `RoundTrip` after the deferred restore is registered: every
     early return of the source is a return from here. It cannot touch the
     request, so its path stays the in-socket path throughout.
     */
    method Send(req: Request, net: Network, socket: string) returns (r: Result<Response, Error>)
      requires req.url != null
      modifies net
      ensures r == Exchange(Config(), Target(socket, req.url.path), net.outcomes).result
      ensures net.trace == old(net.trace) + Exchange(Config(), Target(socket, req.url.path), net.outcomes).events
    {
      var url := req.url;
      var err := net.DialTimeout("unix", socket, dialTimeout, url);
      if err.Some? {
        return Err(IoFailure(err.value));
      }
      if requestTimeout > 0 {
        net.SetWriteDeadline(requestTimeout, url);
      }
      err := net.Write(req);
      if err.Some? {
        return Err(IoFailure(err.value));
      }
      if responseHeaderTimeout > 0 {
        net.SetReadDeadline(responseHeaderTimeout, url);
      }
      var resp := net.Read(req);
      r := match resp case Ok(v) => Ok(v) case Err(e) => Err(IoFailure(e));
    }
  }

  /** A nil URL is reported as such, before anything else is looked at. */
  lemma NilUrlFirst(c: Timeouts, o: Outcomes)
    ensures Expected(c, None, o) == Run(Err(NilURL), [])
  {
  }

  /**
   Which check rejects a request, in the order the checks run; each error
   happens exactly when every earlier check passed and its own one failed.
   */
  lemma ChecksInOrder(u: Option<UrlFields>)
    ensures Validate(u) == Err(NilURL) <==> u.None?
    ensures Validate(u).Err? && Validate(u).error.UnsupportedScheme?
            <==> u.Some? && u.value.scheme != Scheme
    ensures Validate(u).Err? && Validate(u).error.UnsupportedScheme?
            ==> Validate(u).error.scheme == u.value.scheme
    ensures Validate(u) == Err(InvalidHost)
            <==> u.Some? && u.value.scheme == Scheme && u.value.host != UnixHost
    ensures Validate(u) == Err(InvalidFormat)
            <==> u.Some? && u.value.scheme == Scheme && u.value.host == UnixHost
                 && Count(u.value.path, Separator) != 1
    ensures !(Validate(u).Err? && Validate(u).error.IoFailure?)
  {
  }

  /**
   An accepted path is the socket file, a colon and the in-socket path, and
   neither part holds a colon: the split loses nothing.
   */
  lemma AcceptedPathRejoins(u: Option<UrlFields>)
    requires Validate(u).Ok?
    ensures u.value.path == Validate(u).value.socket + [Separator] + Validate(u).value.path
    ensures Separator !in Validate(u).value.socket && Separator !in Validate(u).value.path
  {
    var parts := Split(u.value.path, Separator);
    JoinSplit(u.value.path, Separator);
    assert parts[1..] == [parts[1]];
  }

  /**
   Conversely, every socket file and in-socket path without a colon is reached
   by exactly the request that joins them with a colon.
   */
  lemma EveryTargetIsAccepted(socket: string, path: string)
    requires Separator !in socket && Separator !in path
    ensures Validate(Some(UrlFields(Scheme, UnixHost, socket + [Separator] + path))) == Ok(Target(socket, path))
  {
    SplitJoin([socket, path], Separator);
    assert [socket, path][1..] == [path];
  }

  /** The message for an unsupported scheme is the fixed prefix followed by the scheme. */
  lemma UnsupportedMessage(scheme: string)
    ensures |Message(UnsupportedScheme(scheme))| == |UnsupportedPrefix| + |scheme|
    ensures Message(UnsupportedScheme(scheme))[..|UnsupportedPrefix|] == UnsupportedPrefix
    ensures Message(UnsupportedScheme(scheme))[|UnsupportedPrefix|..] == scheme
  {
  }

  /** Different check failures never read the same, so a caller can tell them apart. */
  lemma ValidationMessagesDistinct(a: Error, b: Error)
    requires !a.IoFailure? && !b.IoFailure?
    requires Message(a) == Message(b)
    ensures a == b
  {
    if a.UnsupportedScheme? || b.UnsupportedScheme? {
      assert Message(a)[0] == Message(b)[0];
      if a.UnsupportedScheme? && b.UnsupportedScheme? {
        UnsupportedMessage(a.scheme);
        UnsupportedMessage(b.scheme);
      }
    } else {
      assert |Message(a)| == |Message(b)|;
    }
  }

  /** A request the checks reject fails with that error and takes no network step. */
  lemma RejectedRequestDoesNoIo(c: Timeouts, u: Option<UrlFields>, o: Outcomes)
    requires Validate(u).Err?
    ensures Expected(c, u, o) == Run(Err(Validate(u).error), [])
  {
  }

  /**
   An accepted request first dials the socket file named before the colon, with
   the dial timeout, and every network step sees the path after the colon.
   */
  lemma StepsSeeInSocketPath(c: Timeouts, u: Option<UrlFields>, o: Outcomes)
    requires Validate(u).Ok?
    ensures var ev := Expected(c, u, o).events;
            |ev| > 0 && ev[0].step == Dial("unix", Validate(u).value.socket, c.dial)
            && forall i :: 0 <= i < |ev| ==> ev[i].path == Validate(u).value.path
  {
  }

  /** Steps happen in the fixed order dial, write deadline, write, read deadline, read; none twice. */
  lemma StepsInOrder(c: Timeouts, u: Option<UrlFields>, o: Outcomes)
    ensures var ev := Expected(c, u, o).events;
            forall i, j :: 0 <= i < j < |ev| ==> Rank(ev[i].step) < Rank(ev[j].step)
  {
  }

  /**
   A write deadline is set exactly when the dial succeeded and the request
   timeout is positive, and a read deadline exactly when the write succeeded
   too and the response-header timeout is positive; each uses its own timeout.
   */
  lemma DeadlinesOnlyWhenSet(c: Timeouts, u: Option<UrlFields>, o: Outcomes)
    ensures var ev := Expected(c, u, o).events;
            (exists i :: 0 <= i < |ev| && ev[i].step.SetWriteDeadline?)
            <==> Validate(u).Ok? && o.dial.None? && c.request > 0
    ensures var ev := Expected(c, u, o).events;
            (exists i :: 0 <= i < |ev| && ev[i].step.SetReadDeadline?)
            <==> Validate(u).Ok? && o.dial.None? && o.write.None? && c.responseHeader > 0
    ensures var ev := Expected(c, u, o).events;
            forall i :: 0 <= i < |ev| && ev[i].step.SetWriteDeadline? ==> ev[i].step.timeout == c.request
    ensures var ev := Expected(c, u, o).events;
            forall i :: 0 <= i < |ev| && ev[i].step.SetReadDeadline? ==> ev[i].step.timeout == c.responseHeader
  {
    var ev := Expected(c, u, o).events;
    if Validate(u).Ok? && o.dial.None? {
      var t := Validate(u).value;
      if c.request > 0 {
        assert ev[1].step.SetWriteDeadline?;
      }
      var w := |WriteDeadline(c, t.path)|;
      if o.write.None? && c.responseHeader > 0 {
        assert ev[w + 2].step.SetReadDeadline?;
      }
    }
  }

  /** A failed dial is the result, unchanged, and nothing is written or read after it. */
  lemma DialErrorPassedThrough(c: Timeouts, u: Option<UrlFields>, o: Outcomes)
    requires Validate(u).Ok? && o.dial.Some?
    ensures Expected(c, u, o).result == Err(IoFailure(o.dial.value))
    ensures |Expected(c, u, o).events| == 1
  {
  }

  /** A failed write is the result, unchanged, and no response is read after it. */
  lemma WriteErrorPassedThrough(c: Timeouts, u: Option<UrlFields>, o: Outcomes)
    requires Validate(u).Ok? && o.dial.None? && o.write.Some?
    ensures Expected(c, u, o).result == Err(IoFailure(o.write.value))
    ensures var ev := Expected(c, u, o).events;
            |ev| > 0 && ev[|ev| - 1].step == WriteRequest
            && forall i :: 0 <= i < |ev| ==> !ev[i].step.ReadResponse? && !ev[i].step.SetReadDeadline?
  {
  }

  /** Once dial and write succeed, the response read, or its error, is what the round trip returns. */
  lemma ReadOutcomePassedThrough(c: Timeouts, u: Option<UrlFields>, o: Outcomes)
    requires Validate(u).Ok? && o.dial.None? && o.write.None?
    ensures Expected(c, u, o).result == match o.read case Ok(resp) => Ok(resp) case Err(e) => Err(IoFailure(e))
    ensures var ev := Expected(c, u, o).events;
            |ev| > 0 && ev[|ev| - 1].step == ReadResponse
  {
  }
}
