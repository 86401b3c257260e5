# httpunix: HTTP over Unix domain sockets, modelled in Dafny

`httpunix` is a Go `http.RoundTripper` that sends HTTP requests over Unix
domain sockets instead of TCP. A request uses the scheme `http+unix` and the
placeholder host `unix`. Its URL path has the form `SOCKET:PATH`: the socket
file to dial, a colon, and the path the server inside the socket should see.

`Transport.RoundTrip` does its work in two halves, and the model follows both.

- **The checks and the split** are pure. `HttpUnix.Validate` checks, in this
  order, that the URL is not nil, that the scheme is `http+unix`, that the host
  is `unix`, and that `strings.Split(path, ":")` gives exactly two parts. It
  returns the first failing check as an `Error` variant, or the
  `Target(socket, path)` pair. `strings.Split` and `strings.Join` are modelled
  in module `Strings`.
- **The exchange** is imperative. `HttpUnix.Transport.RoundTrip` saves the
  request's `URL.Path` and overwrites it with the in-socket path. It then calls
  `Send`, which dials, optionally sets a write deadline, writes the request,
  optionally sets a read deadline and reads the response. `Send` returns early
  on the first failure, as the Go code does. `RoundTrip` then puts the saved
  path back. Because every early return leaves `Send`, the restore after the
  call plays the part of the deferred closure. `Send` may modify only the
  network, so the request's path cannot change during any step.

The network is abstract (module `Http`). A `Network` object is fixed in
advance to make each of dial, write and read succeed or fail with a given
error. It keeps a ghost trace of the steps taken. Each entry records the step
and its arguments, and the request's URL path at that moment. `RoundTrip` is
proved against the pure function `HttpUnix.Expected`. That function gives the
result and the exact trace for any transport timeouts, any URL and any
outcomes of the three steps. The properties of a round trip are then lemmas
about `Expected`.

The three durations of `Transport` are `int`s. Only their sign is tested.

## Model

| member | source | states |
|---|---|---|
| `Strings.Split` | httpunix.go:49 | `strings.Split` on `:` yields one more part than the path has colons, and no part contains a colon |
| `Strings.JoinSplit` | httpunix.go:49-55 | joining the parts of any split with the separator gives back the original string |
| `Strings.SplitJoin` | httpunix.go:49-55 | splitting a join of colon-free parts gives back exactly those parts |
| `Strings.SplitWithoutSeparator` | httpunix.go:49-52 | a path with no colon (the empty path included) splits into a single part, itself |
| `HttpUnix.Validate` | httpunix.go:39-55 | a request passes the checks exactly when its URL is non-nil, the scheme is `http+unix`, the host is `unix` and the path holds exactly one colon |
| `HttpUnix.ChecksInOrder` | httpunix.go:39-52 | nil URL, then wrong scheme (carrying the offending scheme), then wrong host, then a colon count other than one: each error occurs exactly when all earlier checks passed and its own failed; no check yields an I/O error |
| `HttpUnix.NilUrlFirst` | httpunix.go:39-41 | a nil URL gives the nil-URL error and no network step |
| `HttpUnix.UnsupportedMessage` | httpunix.go:42-44 | the unsupported-scheme message is `unsupported protocol scheme: ` followed by the offending scheme |
| `HttpUnix.ValidationMessagesDistinct` | httpunix.go:39-52 | two check failures with the same message are the same failure |
| `HttpUnix.AcceptedPathRejoins` | httpunix.go:49-55 | on acceptance the path equals socket file + `:` + in-socket path, and neither part holds a colon |
| `HttpUnix.EveryTargetIsAccepted` | httpunix.go:49-55 | every colon-free socket file and in-socket path is accepted from the path that joins them with a colon, and split back into the same pair |
| `HttpUnix.RejectedRequestDoesNoIo` | httpunix.go:39-52 | a request rejected by a check fails with that error and takes no network step |
| `HttpUnix.StepsSeeInSocketPath` | httpunix.go:58-78 | an accepted request first dials network `unix` at the socket file with the dial timeout, and every network step sees the in-socket path as the request's URL path |
| `HttpUnix.StepsInOrder` | httpunix.go:64-79 | steps occur in the order dial, write deadline, write, read deadline, read, and none occurs twice |
| `HttpUnix.DeadlinesOnlyWhenSet` | httpunix.go:69-77 | a write deadline is set exactly when the dial succeeded and `RequestTimeout > 0`, a read deadline exactly when the write also succeeded and `ResponseHeaderTimeout > 0`; each deadline uses its own timeout |
| `HttpUnix.DialErrorPassedThrough` | httpunix.go:64-67 | a dial error is returned unchanged and is the only step taken |
| `HttpUnix.WriteErrorPassedThrough` | httpunix.go:72-74 | a write error is returned unchanged, the write is the last step, and no read deadline or read follows |
| `HttpUnix.ReadOutcomePassedThrough` | httpunix.go:78-79 | after a successful dial and write, the response read, or its error unchanged, is the result, and the read is the last step |
| `HttpUnix.Transport.RoundTrip` | httpunix.go:38-80 | the result and the steps taken are those of `Expected` for the transport's timeouts and the request URL on entry; on return the URL path equals its value on entry, on every path out; only the URL's path may be written |
| `HttpUnix.Transport.Send` | httpunix.go:64-79 | dial, deadlines, write and read with an early return on each failure give the result and trace of `Exchange`; the request is not modified |
| `HttpUnix.Transport.constructor` | httpunix.go:30-34 | a transport holds the three durations it is given |
| `Http.Network.DialTimeout` | httpunix.go:64 | the dial returns the network's dial outcome and logs the address and timeout |
| `Http.Network.SetWriteDeadline` | httpunix.go:70 | logs a write deadline with its duration |
| `Http.Network.Write` | httpunix.go:72 | returns the network's write outcome and logs the request path it serialised |
| `Http.Network.SetReadDeadline` | httpunix.go:76 | logs a read deadline with its duration |
| `Http.Network.Read` | httpunix.go:78 | returns the network's read outcome and logs the request path it saw |

## Left out

- Socket I/O and HTTP wire encoding (`net.DialTimeout`, `bufio.NewReader`, `req.Write`, `http.ReadResponse`) are foreign code. Each is a step whose success or failure is fixed in advance by the `Network` object. Its error is passed through opaquely.
- The opened connection is not a separate object. The deadline, write and read steps act on the network object, and nothing is closed, as in the source.
- Wall-clock time: a deadline step records the duration it was given, not `time.Now().Add(...)`. How a deadline expires is part of the step's outcome.
- `IoFailure` does not record which step failed, because the Go code returns the step's error value unchanged. The trace shows which step was last.
- The step outcomes are constants of the `Network`, so a write or read outcome cannot depend on the bytes written. Every property holds for every choice of outcomes.
- Parsing the URL text into `Scheme`, `Host` and `Path` is done by `net/url` before `RoundTrip` runs. `net/url` is not part of this model; the fields are taken as already parsed.
- Only `scheme`, `host`, `path` and `rawQuery` of the URL and the method of the request are modelled. All except `path` are `const`, which is how the model states that nothing else is written.
- A panic during the exchange, which the `defer` would also cover, is not modelled, because the model's steps cannot panic.
- Concurrent calls on one `Transport` are not modelled. Its durations are `const`, so a call cannot change them.
- The durations are unbounded `int`s rather than 64-bit `time.Duration`, because they are only compared with zero.
