/**
 What `RoundTrip` receives from Go's standard library: the request and its
 already-parsed URL (`net/http`, `net/url`), and the connection it dials and
 talks over (`net`, `bufio`, `http.Request.Write`, `http.ReadResponse`).

 The wire is abstract. A `Network` is fixed in advance to let each of the three
 I/O steps succeed or fail, and it keeps a (ghost) trace of every step taken,
 together with the request's URL path as it stood at that moment.
 */
module Http {
  import opened Wrappers

  /** An error produced by the socket or by HTTP wire encoding/decoding; returned unchanged. */
  datatype IoError = IoError(message: string)

  /** A parsed HTTP response. */
  datatype Response = Response(status: int, body: string)

  /** The parsed target of a request. Only `path` may be changed by a transport. */
  class URL {
    const scheme: string
    const host: string
    var path: string
    const rawQuery: string

    constructor (scheme: string, host: string, path: string, rawQuery: string)
      ensures this.scheme == scheme && this.host == host
      ensures this.path == path && this.rawQuery == rawQuery
    {
      this.scheme := scheme;
      this.host := host;
      this.path := path;
      this.rawQuery := rawQuery;
    }
  }

  /** An outgoing request; its URL may be nil. */
  class Request {
    const verb: string
    const url: URL?

    constructor (verb: string, url: URL?)
      ensures this.verb == verb && this.url == url
    {
      this.verb := verb;
      this.url := url;
    }
  }

  /** One step a round trip takes on the connection. */
  datatype Step =
    | Dial(network: string, address: string, timeout: int)
    | SetWriteDeadline(timeout: int)
    | WriteRequest
    | SetReadDeadline(timeout: int)
    | ReadResponse

  /** A step, with the path of the request's URL at the moment it was taken. */
  datatype Event = Event(step: Step, path: string)

  /** How each of the three I/O steps will end: `None` is success for dial and write. */
  datatype Outcomes = Outcomes(dial: Option<IoError>, write: Option<IoError>, read: Result<Response, IoError>)

  /**
   The socket layer and the HTTP wire codec, seen from the transport. The
   connection a dial opens is not a separate object: deadlines, the request
   write and the response read all act on the most recent dial.
   */
  class Network {
    const outcomes: Outcomes
    ghost var trace: seq<Event>

    constructor (outcomes: Outcomes)
      ensures this.outcomes == outcomes && trace == []
    {
      this.outcomes := outcomes;
      trace := [];
    }

    /** `net.DialTimeout(network, address, timeout)`; `seen` is the URL of the request in flight. */
    method DialTimeout(network: string, address: string, timeout: int, ghost seen: URL) returns (err: Option<IoError>)
      modifies this
      ensures err == outcomes.dial
      ensures trace == old(trace) + [Event(Dial(network, address, timeout), seen.path)]
    {
      err := outcomes.dial;
      trace := trace + [Event(Dial(network, address, timeout), seen.path)];
    }

    /** `c.SetWriteDeadline(time.Now().Add(timeout))`; the clock is not modelled. */
    method SetWriteDeadline(timeout: int, ghost seen: URL)
      modifies this
      ensures trace == old(trace) + [Event(Step.SetWriteDeadline(timeout), seen.path)]
    {
      trace := trace + [Event(Step.SetWriteDeadline(timeout), seen.path)];
    }

    /** `req.Write(c)`: serialises `req`, so it observes the request's current path. */
    method Write(req: Request) returns (err: Option<IoError>)
      requires req.url != null
      modifies this
      ensures err == outcomes.write
      ensures trace == old(trace) + [Event(WriteRequest, req.url.path)]
    {
      err := outcomes.write;
      trace := trace + [Event(WriteRequest, req.url.path)];
    }

    /** `c.SetReadDeadline(time.Now().Add(timeout))`; the clock is not modelled. */
    method SetReadDeadline(timeout: int, ghost seen: URL)
      modifies this
      ensures trace == old(trace) + [Event(Step.SetReadDeadline(timeout), seen.path)]
    {
      trace := trace + [Event(Step.SetReadDeadline(timeout), seen.path)];
    }

    /** `http.ReadResponse(bufio.NewReader(c), req)`. */
    method Read(req: Request) returns (r: Result<Response, IoError>)
      requires req.url != null
      modifies this
      ensures r == outcomes.read
      ensures trace == old(trace) + [Event(ReadResponse, req.url.path)]
    {
      r := outcomes.read;
      trace := trace + [Event(ReadResponse, req.url.path)];
    }
  }
}
