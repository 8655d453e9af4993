# Tunnel data plane, verified

A Dafny model of the data plane of a tunnel service: a server that takes visitors' HTTP requests
and multiplexes them over control connections, and a light client that answers them from local
services. The modules follow the program's components.

- **Streams** (`Streams`, `StreamRuns`, `StreamServes`): visitors, control connections and worker jobs as a step
  machine over FIFO queues, in any interleaving, with lost connections, timeouts and frames that
  cannot be decoded. Proved over all runs: what visitors can get, and that they can be served.
  `EndToEnd` joins its runs with those of the jobs that
  answer the streams.
- **Local HTTP** (`Net`, `HttpBody`, `Chunked`, `HttpHead`, `WrittenHead`, `HttpRequest`,
  `HttpExchange`, `HttpStream`, `LocalPool`, `PoolRuns`, `PoolServes`): the byte-level response reader under any short reads,
  the decision to reuse a connection, the job that forwards one stream, and the keep-alive pool
  shared by any number of jobs.
- **Routes** (`Text`, `Registry`, `RegistryFacts`, `Prepare`, `RegistryRuns`,
  `Registration`, `PortPool`, `Takeover`, `Slug`): the route table, namespaces, ports and slugs, over all runs of register
  messages and closed connections.
- **Wire formats** (`Bits`, `Varint`, `Utf8`, `Wire`, `WireReader`, `WireIO`, `Protocol`, `BinProto`, `Codec`,
  `WireTheorems`, `FrameBytes`, `WebSocket`, `Json`, `JsonSyntax`, `JsonTheorems`, `Base64`, `Decimals`): binary v3 frames in
  their Rust and C++ halves, WebSocket framing, JSON and base64.
- **Quota** (`RateLimiter`, `Usage`): the token bucket and the usage counters.

Loops and updates in place are methods proved against functions; what the components promise is
proved about those functions. `dafny verify dfyconfig.toml` checks everything.

## How the outside world enters

- A socket is the byte string that the peer will deliver before it closes or fails, with the set of
  positions at which reads stop early and, for the control connection, the number of timeouts at
  each position. Every run of short reads is such a set, so a claim for all sets is a claim for all
  read schedules.
- The clock, the random masks, the traversal order of a hash map, the outcome of connecting and of
  a database statement are parameters.
- The libraries the code calls (`strtol`, `atoll`, `stod`, `trim`, `sort_by`) are modelled by what
  they compute. `atoll` and the status number saturate where C leaves overflow undefined.
- In the stream machine clients send frames only for streams that were opened on them, and a job
  sends what `HttpStream.HandleHttpStream` is proved to send. In the pool machine services say any
  bytes at any time; a claim about an answer names what the service has to have sent.
- A byte string is at most 2^63 - 1 bytes long, which both languages guarantee.

## Where the code falls short of what it is for

These are proved, each with its exact condition.

- The two-byte read behind a chunk's data may be short. The connection then goes back to the pool
  with unread bytes, and the next request gets a wrong answer: `HttpExchange.ReuseIsSafe` gives
  the condition, `HttpExchange.SplitMixes` the failing family.
- A chunked response that the service breaks off is forwarded as if it were complete, and its dead
  connection is offered for reuse iff its head allows that (`HttpExchange.BrokenOffIsKept`). The
  forwarded body is the whole one iff its data had come and no CRLF read before the last chunk was
  split (`Chunked.BodyIsRead`).
- A response header that is not UTF-8 makes the server skip the head frame, and the visitor gets a
  protocol error (`StreamRuns.HeadMissing`).
- A visitor whose connection is closed in the middle of its response waits for good unless the last
  frame had arrived: the channel stays in `pending` with nobody to end it (`StreamServes.StrandedIff`).
- More than 65535 headers or tunnels do not survive a binary frame (`WireTheorems.ClientRoundTrip`,
  `WireTheorems.ServerRoundTrip`).
- A length prefix near 2^64 wraps around when it is added to the index and passes the test for
  truncation. The server then panics, and the client takes all bytes that are left
  (`WireTheorems.ClientDecodesIff`, `WireTheorems.ServerDecodes`, `WireReader.ReadExtends`; failing
  families `WireTheorems.LongAbortPanics`, `WireTheorems.LongChunkIsRead`).
- Routes are removed by key, so closing a connection also removes a key that another connection has
  taken over (`Takeover.CloseSpares`). Over a run, every listed key routes to its connection iff no
  message takes over a key (`Takeover.RoutesBackIff`, `Takeover.RegisterKeepsRoutes`; reachable by
  `Takeover.TwoListers`).
- Two users' subdomain names can coincide (`Takeover.SubdomainsMeet`, `Takeover.SubdomainTaken`).
- A character above 0xFFFF in a `\u` escape pair is read as two invalid ones
  (`JsonSyntax.SurrogateIff`), which the server refuses in a frame (`WireTheorems.ClientRoundTrip`).
- Naming a TCP tunnel twice in one message loses a port for good (`PortPool.PoolExact`).
- `normalize_prefix` is not idempotent (`Text.NormalizeTwice`).
- Clock readings are taken before the lock, so a window may admit more than the plain bound when
  they come out of order (`RateLimiter.ClimbBound`, `RateLimiter.OutOfOrder`).

## Model

| member | source | states |
|---|---|---|
| StreamRuns.ReadsOwnFrames | tunnel-server/src/routes_visitor.rs:188-250 | for every interleaving of visitors, connections, worker jobs, timeouts and lost connections: what a visitor has read is a prefix of its own stream's decodable frames, and its channel never closes under it |
| StreamRuns.WholeResponse | tunnel-server/src/routes_visitor.rs:237-250 | a response that ended normally carries the local service's head and all its chunks, put together in order, and the server has handled the whole script |
| StreamRuns.FailureIsOwn | tunnel-server/src/routes_visitor.rs:206-210 | "local service error" is told only to the visitor whose own job sent exactly that Abort |
| StreamRuns.HeadMissing | tunnel-server/src/routes_visitor.rs:211-221 | the two branches for a missing head ("End first", "Chunk first") are taken iff the first frame of the stream has a string that is not UTF-8; otherwise they are unreachable |
| StreamRuns.NeverClosedEarly | tunnel-server/src/routes_visitor.rs:191-195 | the branch for a channel that closes before a head, and a body that ends without End, are unreachable: a sender is dropped only after the End or Abort went in |
| StreamRuns.HandleKeeps | tunnel-server/src/routes_ws.rs:328-353 | routing one frame off a connection keeps the invariant: handled frames are a prefix of what was sent, a parked channel holds exactly the decodable handled frames not yet read |
| StreamRuns.TakeKeeps | tunnel-server/src/registry.rs:246-253 | removing a stream from `pending` after its last frame keeps the invariant |
| StreamRuns.SendOpenKeeps | tunnel-server/src/routes_visitor.rs:168-185 | parking a channel and sending OpenStream, or finding the client gone from the table or its writer task ended, keeps the invariant; an id is on the wire at most once. What sending is good for is in `StreamServes.VisitorServed` and `StreamServes.OfflineIff` |
| StreamRuns.OpensKeep | tunnel-server/src/routes_ws.rs:213-236 | a writer task that ends with messages unwritten, and an OpenStream that the client cannot decode, keep the invariant |
| StreamRuns.DispatchKeeps | tunnel-lite/src/main.cpp:583-605 | taking an OpenStream off the connection starts at most one job for its id |
| StreamRuns.EmitKeeps | tunnel-lite/src/main.cpp:156-161 | a job's frames reach the wire in order, or are lost together with everything after them |
| StreamRuns.BesideKeeps | tunnel-server/src/registry.rs:236-253 | a step of one stream leaves every other stream and its frames on the wire as they are |
| StreamRuns.SiftData | tunnel-server/src/routes_ws.rs:246-256 | chunks and ends can always be decoded, so skipping undecodable frames never loses a body byte |
| Streams.ScriptIsShaped | tunnel-lite/src/main.cpp:470-491 | what a worker job sends is one Abort, or a head whose headers a 16-bit count can say, chunks and an end |
| StreamServes.VisitorServed | tunnel-server/src/routes_visitor.rs:168-250 | after any run: while a connection is registered and neither closed, lost nor without its writer task, a new visitor can be served on it whatever decodable script its job sends; some continuation of the run ends with exactly that script's outcome, head and all data put together, and with the channel gone from `pending` |
| StreamServes.OfflineIff | tunnel-server/src/routes_visitor.rs:181-185 | over all runs, on the event list: a visitor that has not left is told that the client is offline iff its OpenStream was to be sent when the connection had not been registered, or had been closed or had lost its writer task |
| StreamServes.TimedOutIff | tunnel-server/src/routes_visitor.rs:190-205 | over all runs: a visitor that has not left is told that the client took too long iff its thirty seconds ended while it waited for a head |
| StreamServes.LiveIff | tunnel-server/src/registry.rs:228-234 | the tables and queues of a connection say that it can carry a request iff the run registered it and did not close or lose it or end its writer task |
| StreamServes.NoLeak | tunnel-server/src/registry.rs:246-253 | in every run a channel whose last frame was handled is removed from `pending` in the same handler's next step |
| StreamServes.ErrorsRemoved | tunnel-server/src/routes_visitor.rs:181-221 | in every run a visitor that was told an error has no channel in `pending` any more |
| StreamServes.StrandedIff | tunnel-server/src/routes_visitor.rs:237-250 | a response whose connection the server closes under it: it can still end iff its last frame had arrived in the channel by then; otherwise no continuation of the run ends it, short of the visitor leaving |
| Net.Socket.ReadSome | tunnel-lite/src/net.cpp:168-193 | a read returns between one and n bytes that follow, stopping where the schedule cuts, or reports a timeout or the end of the stream |
| HttpBody.ReadLine | tunnel-lite/src/main.cpp:390-400 | the size line up to its line feed without carriage returns, whatever cuts the reads |
| HttpBody.ReadTail | tunnel-lite/src/main.cpp:406-417 | the trailer loop stops at the first empty line |
| HttpBody.ReadData | tunnel-lite/src/main.cpp:420-427 | as many bytes as asked for or as the peer still sends, in non-empty pieces that concatenate to them |
| HttpBody.ReadChunked | tunnel-lite/src/main.cpp:388-430 | the chunked reader against its meaning as a function of the bytes and the cuts: what is forwarded and where it stops |
| HttpBody.ReadUntilClose | tunnel-lite/src/main.cpp:442-447 | everything up to the close |
| Chunked.SizeIsRead | tunnel-lite/src/main.cpp:403 | `strtol` in base 16 finds the chunk size in any size line, extension or not, leading zeros or not (RFC 9112, section 7.1) |
| Chunked.HexDigitsAre | tunnel-lite/src/main.cpp:403 | the hexadecimal digits of either case, and their values |
| Chunked.TailFrom | tunnel-lite/src/main.cpp:406-417 | for any trailer section the loop stops exactly behind its empty line, or at the end of a stream that was cut off |
| Chunked.BodyIsRead | tunnel-lite/src/main.cpp:388-430 | for every well-formed chunked body, complete or cut off, and every read schedule: a complete one is left exactly at its end iff no CRLF read is split; the forwarded bytes are a prefix of the body, and the whole body iff its data came completely and no CRLF read before the last chunk is split; a body that was cut off is read to the end of the stream if no CRLF read is split |
| HttpHead.ReadHttpHead | tunnel-lite/src/main.cpp:287-299 | finds the first empty line within 65536 bytes, iff there is one |
| HttpHead.ParseHead | tunnel-lite/src/main.cpp:330-370 | the loop computes the parsed record, whose meaning on a written head is in `WrittenHead.HeadMeans` |
| HttpHead.AbsorbLine | tunnel-lite/src/main.cpp:348-368 | what one header line changes: framing, connection persistence, and the forwarded headers without hop-by-hop ones |
| HttpHead.HeadFound | tunnel-lite/src/main.cpp:287-299 | a head as a sender writes it is found whole; one that was cut off is not found |
| HttpHead.HeadParsed | tunnel-lite/src/main.cpp:330-370 | parsing a written head gives back the start line and the header lines it was written from |
| HttpHead.MetaMeans | tunnel-lite/src/main.cpp:355-367 | chunked iff some Transfer-Encoding line says so, close iff some Connection line says so; forwarded headers exclude the three framing ones |
| HttpHead.LengthMeans | tunnel-lite/src/main.cpp:358-359 | the length is the last Content-Length line's, -1 without one |
| HttpHead.FewHeaders | tunnel-lite/src/main.cpp:287-299 | a head within 65536 bytes has fewer than 65536 headers, so their count is never cut |
| WrittenHead.HeadMeans | tunnel-lite/src/main.cpp:330-370 | for any written head, on its text: the version word and the status number are those of the start line, saturated at 2^31 - 1; the headers are exactly the written names other than the three framing ones, in lower case, each with its last value without surrounding blanks; length, chunked, close and keep-alive are what the lines say |
| HttpExchange.ResponseIsRead | tunnel-lite/src/main.cpp:326-452 | for every well-formed response (chunked, sized, close-delimited), complete or cut off, under any read schedule: the head, when the whole body is forwarded (iff), when the connection is kept (iff), and where reading stops |
| HttpExchange.WrittenIsRead | tunnel-lite/src/main.cpp:326-452 | the same exchange on a response written as start line and header lines: the status, the headers and the decision to keep the connection are those of the text; kept iff no line says close, the body does not end with the connection, and the start line begins with HTTP/1.1 or a line says keep-alive |
| HttpExchange.WrittenOk | tunnel-lite/src/main.cpp:326-452 | every such text that announces its body and stays within the 65536 bytes of a head is a response that the other theorems speak of |
| HttpExchange.BrokenOffIsKept | tunnel-lite/src/main.cpp:387-430 | a chunked response broken off anywhere behind its head is forwarded as complete, and its connection is put back iff the head allows it; the next request finds nothing there, if no CRLF read was split |
| HttpExchange.ReuseIsSafe | tunnel-lite/src/main.cpp:372-375 | a connection put back after a complete response stands exactly behind it iff no CRLF read of it was split |
| HttpExchange.SplitMixes | tunnel-lite/src/main.cpp:428-429 | the failing family: after a one-chunk response with a split CRLF read, the next request on the connection is answered with status 0 and with the following bytes, the next head included, as its body |
| HttpRequest.BuildRequest | tunnel-lite/src/main.cpp:308-323 | the loop writes the bytes of the request, whose meaning for the service is in `HttpRequest.RequestMeans` |
| HttpRequest.RequestMeans | tunnel-lite/src/main.cpp:308-323 | what the service reads back: up to the first blank the verb, up to the next the path, then HTTP/1.1; exactly the visitor's headers but the replaced ones, each with its last value, `Host` with the address; a wish to keep the connection; the body's length, or none |
| HttpRequest.RequestIsFramed | tunnel-lite/src/main.cpp:308-323 | whatever headers the visitor sent, a service that frames messages as this client does takes exactly the visitor's body for the body |
| HttpStream.ReadBody | tunnel-lite/src/main.cpp:386-447 | the three body readers and the keep-alive decision against the meaning of the exchange |
| HttpStream.RunHttpOnce | tunnel-lite/src/main.cpp:303-461 | no frame and no release on Retry; otherwise head, chunks and end forward what the connection delivers, it stands where the exchange stops, and it goes back to the pool iff it may be reused |
| HttpStream.HandleHttpStream | tunnel-lite/src/main.cpp:463-492 | the whole outcome, pool included: a second attempt iff the first failed on a pooled connection; Abort iff nothing could be connected or the last attempt failed; otherwise head, chunks and end of one exchange on a connection that got the request, put back iff it may be reused |
| HttpStream.JobIsScript | tunnel-lite/src/main.cpp:463-492 | every such outcome is one Abort, or head, chunks and end |
| LocalPool.LocalPool.Acquire | tunnel-lite/src/main.cpp:188-205 | takes the freshest idle connection, dropping the stale ones behind it |
| LocalPool.LocalPool.Release | tunnel-lite/src/main.cpp:206-212 | puts a connection back unless eight are idle |
| LocalPool.LocalPool.Purge | tunnel-lite/src/main.cpp:213-223 | drops the stale connections of every address |
| LocalPool.AcquireTakes | tunnel-lite/src/main.cpp:188-205 | the connection handed out was idle under that address, fresh, and is gone from the pool; only stale ones went with it |
| LocalPool.ReleasePuts | tunnel-lite/src/main.cpp:206-212 | a released connection goes behind the others of its address unless eight are there, other addresses are untouched, and for the next thirty seconds it is the one that is handed out |
| LocalPool.UnstaleKeeps | tunnel-lite/src/main.cpp:217-222 | purging keeps exactly the connections idle for at most thirty seconds |
| LocalPool.UnstaleOrder | tunnel-lite/src/main.cpp:217-222 | in their order |
| LocalPool.PurgeKeeps | tunnel-lite/src/main.cpp:213-223 | under every address |
| PoolRuns.OwnResponse | tunnel-lite/src/main.cpp:463-492 | in every run, whatever happens on other connections: a job answered by a response, or the beginning of one, on a connection that nothing had spoilt before, got the head of the answer to its own request and a prefix of its body, all of it iff its data came completely and no CRLF read before the last chunk was split |
| PoolRuns.SpoiltMeans | tunnel-lite/src/main.cpp:372-430 | a connection is spoilt iff in the run the service said something there unasked or malformed, broke off without closing, or a CRLF read was split |
| PoolRuns.AnsweredOnce | tunnel-lite/src/main.cpp:303-461 | a job that got an answer got it in exactly one exchange |
| PoolRuns.OnePlace | tunnel-lite/src/main.cpp:186-231 | in every run, whatever the services say: a connection is idle at most once, not while a job holds it, held by one job only, and at most eight are idle under an address |
| PoolRuns.StepKeeps | tunnel-lite/src/main.cpp:186-231 | every step keeps: idle and held connections that nothing spoilt have been read exactly to the end of what they delivered |
| PoolRuns.ServeOne | tunnel-lite/src/main.cpp:372-452 | one exchange on such a connection forwards the own response, and leaves a kept connection so if no CRLF read was split |
| PoolServes.DialServes | tunnel-lite/src/main.cpp:463-492 | from any state: a job that finds no idle connection, dials, and is answered in full by a service that nothing splits ends with that answer, and the connection goes back to the pool iff it may be reused |
| PoolServes.ReuseServes | tunnel-lite/src/main.cpp:463-492 | the same on an idle connection that nothing has spoilt |
| PoolServes.RetryServes | tunnel-lite/src/main.cpp:482-488 | a job whose pooled connection turns out to be closed dials a new one and is served there |
| PoolServes.AbortedIff | tunnel-lite/src/main.cpp:470-491 | in every run a job has given up iff the run shows the event that made it: a failed dial, or a failed exchange that allows no second attempt |
| EndToEnd.VisitorGetsOwnAnswer | tunnel-lite/src/main.cpp:583-605 | streams and jobs together, in every joint run: a normal response that a visitor got is what the service answered to that visitor's own request; the job was answered in exactly one exchange, and if that was on a connection nothing had spoilt, the visitor has the head and a prefix of the body, all of it iff the data came completely and no CRLF read before the last chunk was split; status and headers of the head frame are those of the answer's start line and header lines, the status cut to 16 bits |
| EndToEnd.FailureIsTheJobs | tunnel-server/src/routes_visitor.rs:206-210 | "local service error" is told only if the visitor's own job gave up or the tunnel has no local address |
| Registry.Registry.RegisterClient | tunnel-server/src/registry.rs:83-136 | the whole new table: the connection's old keys go, the inputs are added in order, the path list is sorted. What stands under each key is in `Registration.MessageRoutes` |
| Registry.Registry.RemoveClient | tunnel-server/src/registry.rs:138-165 | the whole new table without the connection's keys, ports, client and user entries |
| Registry.Registry.NewConnId | tunnel-server/src/registry.rs:66-70 | the next connection number |
| Registry.Registry.Retain | tunnel-server/src/registry.rs:128 | `retain` on the path list |
| Registry.Registry.SortByLength | tunnel-server/src/registry.rs:133 | the stable sort by decreasing byte length |
| Registry.Registry.Lookup | tunnel-server/src/registry.rs:200-225 | the subdomain's route, or the longest registered prefix on a segment boundary with the rest of the path, none iff none matches |
| Registry.FirstIsLongest | tunnel-server/src/registry.rs:213-222 | in a list sorted by byte length the first match is the longest |
| RegistryFacts.SortedIs | tunnel-server/src/registry.rs:133 | sorting permutes the routes into non-increasing length |
| RegistryFacts.RegisteredView | tunnel-server/src/registry.rs:83-136 | the path list refines a plain map: registering removes the connection's keys and adds the inputs in order, and the list stays sorted without repetition |
| RegistryFacts.DisownView | tunnel-server/src/registry.rs:92-103 | dropping a connection's routes, on the plain maps |
| RegistryRuns.NoDangling | tunnel-server/src/registry.rs:83-165 | in every run the path list has distinct prefixes in non-increasing length, every route is listed by its connection, which is a known client and user; after a close no table mentions the connection |
| RegistryRuns.OneLongest | tunnel-server/src/registry.rs:213-222 | the longest match is unique; the rest is "/" if the path is the prefix, otherwise prefix and rest rebuild the path |
| RegistryRuns.RemovedOk | tunnel-server/src/registry.rs:138-165 | after a removal nothing mentions the connection and nothing else dangles |
| Registration.MessageRoutes | tunnel-server/src/routes_ws.rs:258-326 | a register message, on every key: within the quota, the connection lists exactly the keys its enabled definitions ask for; each is routed to the last definition that asks for it, with the account's id and slug, the trimmed tunnel id, its protocol, the stored visitor credentials, and the prefix to strip for a path and none for a subdomain; its other keys are gone and foreign ones stay. Above the quota nothing changes |
| Registration.RunRoutes | tunnel-server/src/registry.rs:83-136 | the same after any run, for a key that no later definition of the message repeats |
| Registration.AddressReaches | tunnel-server/src/registry.rs:200-225 | after any run, right after the message: a visitor whose `Host` header, in any case and with or without a port, names the host told for a subdomain, or the base domain with the registered path, is answered by that tunnel |
| Registration.UrlIs | tunnel-server/src/routes_ws.rs:113-143 | the address that is told: relay host and port, own subdomain, or base domain and path |
| Registration.RefusedIff | tunnel-server/src/routes_ws.rs:74-119 | a definition is refused iff it has no name, or is a TCP tunnel and the server relays none or has every port of its range in use; a TCP tunnel that is not refused gets a free port of the range |
| Registration.EachIsTold | tunnel-server/src/routes_ws.rs:61-165 | the acknowledgement accounts for every definition once, in order, with its address or among the problems |
| Takeover.RegisterKeepsRoutes | tunnel-server/src/registry.rs:83-136 | while every listed key routes to the connection that lists it, registering keeps that so iff it takes over no key that another connection lists |
| Takeover.CloseDeletesTaken | tunnel-server/src/registry.rs:138-151 | the failing case: closing a connection also deletes a key that another connection took over, which then lists it in vain |
| Takeover.CloseSpares | tunnel-server/src/registry.rs:138-151 | a close leaves a key of another connection routed iff the closing connection does not list it too |
| Takeover.CloseKeepsRoutes | tunnel-server/src/registry.rs:138-151 | while every listed key routes to the connection that lists it, closing a connection keeps that so |
| Takeover.RoutesBackIff | tunnel-server/src/registry.rs:83-151 | over whole runs: every listed key routes to its connection at every point iff no message registers a key that another connection lists |
| Takeover.TwoListers | tunnel-server/src/routes_ws.rs:269-300 | reachable: two messages on two connections with tunnels of the same key; both list it, the second has it, and after the first closes nobody has |
| Text.Normalize | tunnel-server/src/registry.rs:72-81 | the loop computes the normal form: rooted, without trailing slashes |
| Text.NormalizeTwice | tunnel-server/src/registry.rs:72-81 | normalising twice changes nothing iff the trimmed text is empty or has no white space before the slashes it ends with |
| Text.NormalizeTwiceFails | tunnel-server/src/registry.rs:72-81 | the input `a /`, for which it does |
| Text.StripAllMeans | tunnel-server/src/registry.rs:206 | `trim_end_matches` takes off every copy of the base domain: the host is the rest followed by that many copies |
| Prepare.Sanitize | tunnel-server/src/routes_ws.rs:41-52 | the loop computes the cleaned subdomain name |
| Prepare.SanitizedIs | tunnel-server/src/routes_ws.rs:41-52 | lower-case letters, digits and inner dashes only |
| Prepare.CleanMeans | tunnel-server/src/routes_ws.rs:41-50 | character by character: capitals become small, underscores and dots become dashes, everything but letters, digits and dashes goes |
| Prepare.SanitizedMeans | tunnel-server/src/routes_ws.rs:51 | the cleaned name is the whole of that, without the dashes at both ends |
| Prepare.DecimalTextIs | tunnel-server/src/routes_ws.rs:111-113 | a port is told in decimal digits without a leading zero, whose value it is |
| Prepare.EffectivePath | tunnel-server/src/routes_ws.rs:129-140 | the path of a definition, inside or moved into the user's namespace |
| Prepare.PrepareDef | tunnel-server/src/routes_ws.rs:71-163 | one definition: refused for an empty id, a TCP tunnel on a non-relay or a full pool, else its route input and public address |
| Prepare.PrepareDefs | tunnel-server/src/routes_ws.rs:61-165 | all definitions in order, with the ports they bind |
| Prepare.HandleRegister | tunnel-server/src/routes_ws.rs:258-326 | a register message: refused over quota, else ports released, definitions prepared, enabled routes registered, and the acknowledgement |
| RegistryRuns.EffPathStays | tunnel-server/src/routes_ws.rs:129-140 | the path a definition gets lies in the user's namespace, also after the table normalises it again |
| RegistryRuns.NamespacesApart | tunnel-server/src/routes_ws.rs:129 | namespaces of different slugs have no path in common |
| RegistryRuns.Isolation | tunnel-server/src/routes_ws.rs:129-144 | in every run every path route lies in its user's namespace, and a request below one user's namespace is never answered by another user's route |
| RegistryRuns.OthersUntouched | tunnel-server/src/registry.rs:83-165 | in every run no register or close by one user changes another user's path routes |
| Takeover.SubdomainsMeet | tunnel-server/src/routes_ws.rs:124 | two users' tunnels get the same subdomain name iff slug and name agree, or one slug is the other, a dash and what the other name is longer by |
| Takeover.SubdomainTaken | tunnel-server/src/routes_ws.rs:124 | the users `a` and `a-x` with the names `x-y` and `y`: the second takes over the first one's subdomain, and loses it when the first leaves |
| Registry.Registry.AllocatePort | tunnel-server/src/registry.rs:167-183 | binds the least free port of the range, or nothing iff all are used |
| Registry.Registry.ReleasePorts | tunnel-server/src/registry.rs:185-198 | exactly the connection's bindings go, and their ports are free |
| PortPool.PoolExact | tunnel-server/src/registry.rs:167-198 | in every run bound ports are distinct and marked used, and the marked ports are exactly the bound ones iff no key was given a second port |
| PortPool.NoPortLost | tunnel-server/src/routes_ws.rs:271-275 | in every run of messages that name no TCP tunnel twice, no port is lost |
| PortPool.DoLeaks | tunnel-server/src/registry.rs:167-198 | one operation never frees a lost port, and loses one iff it rebinds a bound key |
| PortPool.OthersSpare | tunnel-server/src/registry.rs:167-198 | in every run, operations of other connections leave a bound port bound and marked as used |
| PortPool.OtherEventsSpare | tunnel-server/src/registry.rs:138-198 | the same over register messages and closes of other connections |
| PortPool.ToldIsBound | tunnel-server/src/routes_ws.rs:92-114 | a port that a message tells is in the configured range and bound to the tunnel when the message is done, if no two of its TCP tunnels share a name |
| Slug.Slugify | tunnel-server/src/util.rs:43-63 | the loop computes the slug |
| Slug.SlugifiedIs | tunnel-server/src/util.rs:43-63 | one to thirty-two letters, digits and single dashes, not starting with a dash |
| Slug.SlugKeeps | tunnel-server/src/util.rs:43-63 | every letter and digit before the `@` is in the slug, in order and in lower case, up to 32 characters; `user` if there are none |
| Slug.DashedMeans | tunnel-server/src/util.rs:46-56 | character by character: a letter or digit is kept in lower case, and a run of others becomes one dash |
| Slug.FreeSlug | tunnel-server/src/db.rs:125-138 | the first free candidate, found within one more look-up than the table has entries |
| Slug.SomeFree | tunnel-server/src/db.rs:125-138 | pigeonhole: a table cannot take more candidates than it has entries |
| Slug.CandidateOk | tunnel-server/src/db.rs:125-138 | every candidate can serve as a namespace |
| Slug.CandidateMeans | tunnel-server/src/db.rs:125-138 | the first candidate is the slug, the n-th the slug, a dash and n in decimal |
| WireTheorems.ClientRoundTrip | tunnel-server/src/binproto.rs:227-296 | whatever bytes follow, a client frame is read back up to normalisation iff its count fits in 16 bits and its strings are UTF-8; otherwise it is refused for its strings or misread |
| WireTheorems.ServerRoundTrip | tunnel-lite/src/codec.hpp:289-344 | whatever bytes follow, a server frame is read as the intended record iff its count fits in 16 bits, for every traversal order of the header map |
| WireTheorems.ClientPrefixFree | tunnel-server/src/binproto.rs:103-167 | no strict prefix of a readable client frame is readable, and none makes the server panic |
| WireTheorems.ServerPrefixFree | tunnel-lite/src/codec.hpp:83-133 | no strict prefix of a readable server frame is readable |
| WireTheorems.ClientOverflow | tunnel-server/src/binproto.rs:83-89 | a count that is cut to 16 bits is never read back |
| WireTheorems.ServerOverflow | tunnel-lite/src/codec.hpp:74-81 | the same from server to client |
| WireTheorems.NormIdempotent | tunnel-server/src/binproto.rs:29-43 | normalising twice is normalising once, and the frame depends on the normal form only |
| WireTheorems.StatusArrives | tunnel-lite/src/codec.hpp:203-212 | the client's int status reaches the server unchanged iff it is a 16-bit number |
| WireTheorems.ClientDecodesIff | tunnel-server/src/binproto.rs:112-157 | for every byte string: the server decodes what the frame layout says iff no length prefix wraps around when added to the index, and panics iff one does |
| WireTheorems.ServerDecodes | tunnel-lite/src/codec.hpp:87-121 | for every byte string: the client decodes what the layout says if no length prefix wraps; if one does, the layout calls the frame truncated |
| WireTheorems.LongAbortPanics | tunnel-server/src/binproto.rs:112-150 | the failing family: an abort with a wrapping length |
| WireTheorems.LongChunkIsRead | tunnel-lite/src/codec.hpp:87-121 | the failing family: a chunk with a wrapping length is read as all the bytes that are left |
| WireTheorems.HeadersReadBack | tunnel-server/src/binproto.rs:158-167 | reading back any traversal of a header map gives the map |
| Utf8.ValidIff | tunnel-server/src/binproto.rs:142-150 | the test of `from_utf8`: a byte string is well-formed iff it is the encoding of a sequence of Unicode scalar values (RFC 3629, section 3) |
| FrameBytes.ClientBytes | tunnel-server/src/binproto.rs:1-43 | the bytes of every client frame, written out: type byte, fields in order, 16-bit numbers low byte first, counted strings |
| FrameBytes.ServerBytes | tunnel-server/src/binproto.rs:172-225 | the bytes of every server frame, written out |
| Wire.FrameRoundTrip | tunnel-server/src/binproto.rs:172-354 | for every frame layout decoding inverts encoding, whatever follows; a checking reader refuses it iff some text is not UTF-8 |
| WireReader.FrameAgrees | tunnel-server/src/binproto.rs:103-167 | reading with an index agrees with the layout of every frame as long as no length wraps; otherwise the layout says truncated and the Rust half panics |
| WireReader.CheckedAgreesIff | tunnel-server/src/binproto.rs:103-167 | the Rust half agrees with the layout iff no length wraps |
| WireReader.FrameReadBack | tunnel-server/src/binproto.rs:172-354 | what was encoded is read back, whatever follows, and meets no length that wraps |
| WireReader.ReadExtends | tunnel-lite/src/codec.hpp:83-133 | a frame that was read stays the same when bytes are added iff none are added or no length wraps |
| WireReader.ReadPrefixFree | tunnel-server/src/binproto.rs:103-167 | the frame code of every layout is prefix-free |
| Varint.VarintRoundTrip | tunnel-server/src/binproto.rs:66-72 | for every 64-bit value decode(encode(v) + rest) gives v, in at most ten bytes |
| Varint.VarintMinimal | tunnel-server/src/binproto.rs:125-141 | no byte string that decodes to a value is shorter than the encoder's |
| Varint.VarintDigit | tunnel-server/src/binproto.rs:125-141 | or-ing in the next shifted digit adds it modulo 2^64 |
| WireIO.W.Varint | tunnel-server/src/binproto.rs:66-72 | the loop appends the base-128 digits |
| WireIO.W.Headers | tunnel-server/src/binproto.rs:83-89 | the 16-bit count and then every entry in the order of the traversal |
| WireIO.R.Varint | tunnel-server/src/binproto.rs:125-141 | reads at most ten bytes and computes the base-128 sum modulo 2^64, or reports truncation or overflow |
| WireIO.R.Str | tunnel-server/src/binproto.rs:142-150 | a length-prefixed string, refused if truncated or, in the Rust half, not UTF-8; a length that wraps panics there, and takes the rest in the C++ half |
| WireIO.R.Bytes | tunnel-server/src/binproto.rs:151-157 | length-prefixed bytes, the same |
| BinProto.EncodeServer | tunnel-server/src/binproto.rs:172-225 | writes the frame of the message |
| BinProto.EncodeClient | tunnel-server/src/binproto.rs:300-354 | writes the frame of the message |
| BinProto.DecodeClient | tunnel-server/src/binproto.rs:227-296 | answers what reading the frame of the type byte with wrapping index sums makes of the bytes |
| BinProto.ReadHeaders | tunnel-server/src/binproto.rs:158-167 | counted pairs into a map, the last of equal keys winning |
| BinProto.ReadRegister | tunnel-server/src/binproto.rs:231-257 | the register frame |
| BinProto.ReadResponseHead | tunnel-server/src/binproto.rs:259-268 | the response head frame |
| Codec.EncRegister | tunnel-lite/src/codec.hpp:156-171 | writes the register frame; an empty protocol is sent as http |
| Codec.EncHead | tunnel-lite/src/codec.hpp:203-212 | writes the response head with the status cut to 16 bits |
| Codec.EncChunk | tunnel-lite/src/codec.hpp:224-231 | writes the chunk frame |
| Codec.EncEnd | tunnel-lite/src/codec.hpp:239-249 | writes the end frame |
| Codec.EncPong | tunnel-lite/src/codec.hpp:192-200 | writes the pong frame |
| Codec.EncAbort | tunnel-lite/src/codec.hpp:252-259 | writes the abort frame |
| Codec.EncMgmt | tunnel-lite/src/codec.hpp:267-277 | writes the management frame |
| Codec.DecServer | tunnel-lite/src/codec.hpp:289-344 | the record a frame stands for; an unknown type byte is not an error |
| Codec.ReadOpenStream | tunnel-lite/src/codec.hpp:313-324 | the OpenStream frame |
| Codec.ReadRegisterAck | tunnel-lite/src/codec.hpp:295-310 | the acknowledgement frame |
| WebSocket.WebSocket.ReadExact | tunnel-lite/src/net.cpp:271-286 | fills the buffer whatever the reads bring; without a stop it fails only at the end of the stream |
| WebSocket.WebSocket.Unmask | tunnel-lite/src/net.cpp:417-420 | masks the buffer in place |
| WebSocket.WebSocket.ReadFrame | tunnel-lite/src/net.cpp:386-420 | one frame in any length form, masked or not; exactly its bytes are counted once it is whole |
| WebSocket.WebSocket.SendFrame | tunnel-lite/src/net.cpp:334-358 | writes the final, masked frame in the shortest length form, for every payload and mask, and counts its bytes |
| WebSocket.WebSocket.RecvMessage | tunnel-lite/src/net.cpp:381-449 | under any read schedule: the message the bytes mean, one pong of equal payload per ping in order, and the bytes of whole frames counted |
| WebSocket.ReceivesMessage | tunnel-lite/src/net.cpp:381-449 | for every well-formed message (fragments, pings and pongs between them, any length form, masked or not): payloads put together, kind of the first frame that says, pings in order, all its bytes (RFC 6455, sections 5.2 to 5.5) |
| WebSocket.FrameBack | tunnel-lite/src/net.cpp:386-420 | a whole frame is read as what was written |
| WebSocket.SentIsRead | tunnel-lite/src/net.cpp:334-358 | what is sent is read by a peer as the opcode and payload, and no masked frame of the payload is shorter |
| WebSocket.MaskedTwice | tunnel-lite/src/net.cpp:354-355 | masking twice gives the payload back |
| WebSocket.MaskedBit | tunnel-lite/src/net.cpp:354-355 | masking flips exactly the bits that the mask byte at that position modulo four has (RFC 6455, section 5.3) |
| WebSocket.LayoutIs | tunnel-lite/src/net.cpp:334-358 | where every field of a frame stands: final bit and opcode, mask bit and length, length in network order, mask, payload (RFC 6455, section 5.2) |
| WebSocket.PongsAre | tunnel-lite/src/net.cpp:440-442 | every ping is answered by one final masked pong with its payload, in order (RFC 6455, section 5.5) |
| WebSocket.ClosedIs | tunnel-lite/src/net.cpp:437-439 | a close frame ends the connection, whatever unfinished message and pings stand before it |
| Bits.OrDisjoint | tunnel-lite/src/net.cpp:394-408 | or-ing words without a common bit adds them |
| Bits.OrXorBit | tunnel-lite/src/net.cpp:354-355 | `|` and `^` digit by digit |
| JsonSyntax.ReadsAnySpelling | tunnel-lite/src/json.hpp:131-261 | every JSON text is read as the value it spells, whatever the white space around its tokens and whether a character of a string stands for itself, behind a backslash or as four hexadecimal digits (RFC 8259, sections 2 to 7) |
| JsonSyntax.ReadsLastKey | tunnel-lite/src/json.hpp:222-245 | an object is read as a sorted map in which the last of equal keys counts |
| JsonSyntax.Utf8Is | tunnel-lite/src/json.hpp:197-210 | a `\u` escape below 0x10000 is the UTF-8 of its code point (RFC 3629, section 3) |
| JsonSyntax.SurrogateIff | tunnel-lite/src/json.hpp:197-210 | those bytes are well-formed UTF-8 iff the code point is no surrogate |
| JsonTheorems.SpellingIs | tunnel-lite/src/json.hpp:62-129 | the writer prints a spelling of the value |
| JsonTheorems.RoundTrip | tunnel-lite/src/json.hpp:56-261 | parse(dump(v)) is v for every nesting of strings and keys of arbitrary bytes, sorted objects and integers below 2^63 that a double holds (RFC 8259, sections 2 to 7) |
| JsonTheorems.ValueBack | tunnel-lite/src/json.hpp:142-173 | a printed value is read back whole wherever it stands, up to exactly its end |
| JsonTheorems.EscapeBack | tunnel-lite/src/json.hpp:174-221 | every escape, the \u00xx ones included, is read back as its byte |
| JsonTheorems.StodBack | tunnel-lite/src/json.hpp:70-78 | an integer that a double holds is printed and read back exactly |
| JsonTheorems.DoubleIff | tunnel-lite/src/json.hpp:70-78 | the integers a double holds are those with at most 53 significant bits |
| Json.Write | tunnel-lite/src/json.hpp:62-107 | the writer appends the value's text |
| Json.WriteText | tunnel-lite/src/json.hpp:109-129 | the writer appends the escaped string |
| Json.ParseValue | tunnel-lite/src/json.hpp:142-173 | the parser computes its meaning as a function of text and index, on every byte string |
| Json.ParseText | tunnel-lite/src/json.hpp:174-221 | the string loop |
| Json.ParseObj | tunnel-lite/src/json.hpp:222-245 | the object loop, a repeated key keeping its last value |
| Json.ParseArr | tunnel-lite/src/json.hpp:246-260 | the array loop |
| Json.ReadValue | tunnel-lite/src/json.hpp:138-261 | total on every byte string: the index never falls and ends at most at size + 1, by a measure on the remaining input |
| RateLimiter.RateLimiter.Allow | tunnel-server/src/quota.rs:99-115 | one call's bucket and answer; other users' buckets stay |
| RateLimiter.WindowBound | tunnel-server/src/quota.rs:99-115 | with clock readings in order, every window of a user's calls admits at most burst + rate * length |
| RateLimiter.ClimbBound | tunnel-server/src/quota.rs:99-115 | in any order, at most burst + rate * (how far the readings rose) |
| RateLimiter.ClimbIsLength | tunnel-server/src/quota.rs:106-107 | which is the window's length iff the readings are in order |
| RateLimiter.OutOfOrder | tunnel-server/src/quota.rs:100-107 | readings out of order, for which the plain window bound fails |
| RateLimiter.RefusedIffSpent | tunnel-server/src/quota.rs:108-114 | a call is refused iff some window ending at it has admitted more than burst + refill - 1 |
| RateLimiter.OwnCallsOnly | tunnel-server/src/quota.rs:99-115 | in any mix of calls a user is treated as if it were alone |
| Usage.UsageMeter.Add | tunnel-server/src/quota.rs:23-28 | the pending counters grow by the non-negative parts; what that counts is in `Usage.Conservation` |
| Usage.UsageMeter.TakeAll | tunnel-server/src/quota.rs:32-37 | the snapshot lists every pending entry once, and nothing is left |
| Usage.UsageMeter.WriteRows | tunnel-server/src/quota.rs:41-53 | one upsert per row whose statement succeeds |
| Usage.UsageMeter.AddPending | tunnel-server/src/quota.rs:66-72 | what today answers, from the row read before and the counters read now |
| Usage.Conservation | tunnel-server/src/quota.rs:23-54 | at every point of every interleaving of adds, snapshots and row writes: the sum of the positive bytes of the user's adds in the run, and that of the positive requests, is what is stored, in flight, pending and lost with failed statements; stored rows are exact sums |
| Usage.NeverOverCounts | tunnel-server/src/quota.rs:56-73 | what today tells of a day, and what is stored for the user's other days, is at most the sum of the positive parts of the user's adds in the run by the time it answers, for bytes and for requests |
| Usage.FlushIsSteps | tunnel-server/src/quota.rs:41-53 | writing a snapshot's rows one by one is a run of the machine's row steps |
| Usage.SumSnapshot | tunnel-server/src/quota.rs:32-37 | a snapshot adds up to the counters it was taken from |
| Base64.RoundTrip | tunnel-lite/src/util.hpp:10-66 | decode(encode(x)) is x for every byte string, although the 32-bit accumulator is never masked (RFC 4648, section 4) |
| Base64.LengthLaw | tunnel-lite/src/util.hpp:10-37 | four characters for every three bytes begun |
| Base64.CharactersAre | tunnel-lite/src/util.hpp:10-37 | which characters of the alphabet, given as text, stand for each three bytes, and the padding of the last group |
| Base64.ValIff | tunnel-lite/src/util.hpp:43-50 | exactly the characters of the alphabet have a value |
| Base64.JunkIgnored | tunnel-lite/src/util.hpp:43-66 | texts with the same alphabet characters decode alike, whatever stands between them |
| Base64.OnlyLow | tunnel-lite/src/util.hpp:52-64 | bits above the unread ones never matter |
| Base64.EncodeBytes | tunnel-lite/src/util.hpp:10-37 | the encoding loop |
| Base64.DecodeBytes | tunnel-lite/src/util.hpp:43-66 | the decoding loop on a 32-bit accumulator |

## Left out

- Sockets as such, TLS, DNS, timers, tokio, axum and Qt: see "How the outside world enters".
- GUI, command line, logging, benchmarks, SQL, OIDC, sessions, token hashing and the management
  routes: thin layers over libraries.
- tunnel-server/src/control.rs and tunnel-server/src/visitor.rs: not in the server's module list.
- The last touches to a visitor's response: header names and values that axum refuses are dropped, and a status outside 100 to 999 becomes 502.
- TCP streams and the relay's listeners: no framing to get wrong, and listeners compare ports only.
- The per-user count of live streams: a release can happen twice, so only its range holds.
- Several connection groups of one client: ending a group clears the stream map they share.
- JSON mode between the two languages: serde_json is not part of this model.
- JSON numbers that are not integers below 2^63: the writer prints six digits, so they do not round-trip; the parser keeps their text.
- HTTP responses without a body by their status or method (HEAD, 1xx, 204, 304): the code does not treat them specially either.
- A thread's `panic` beyond the reader: that it also skips the clean-up of its connection.
- Overlap in time of an exchange with steps of other jobs: in the pool machine an exchange is one step on its own connection.
- Lower-casing beyond ASCII, and the wrap-around of stream and connection numbers.
- WebSocket frames too long for memory: `resize` would throw; the model waits for the bytes.
- WireIO.R.Str: one reader stands for both languages; the flag `checked` says whether it is the Rust one.
- HttpBody.ReadData: returns the pieces that the code sends one by one; `HttpStream.RunHttpOnce` sends them in that order.
- StreamRuns.ReadsOwnFrames: an open_stream reaches one job with an arbitrary script of the proved shape; `EndToEnd` ties the script to the exchange.
- EndToEnd.VisitorGetsOwnAnswer: jobs and streams are matched by number; that the job writes this stream's request is in `HttpStream.HandleHttpStream`.
- RateLimiter.RateLimiter.Allow: reals stand for floating-point numbers.
