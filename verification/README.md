# Zicade verification

Zicade is a local forwarding proxy. It keeps connections to an upstream proxy, authenticates on
them, relays tunnels, and shows what it does in a small interface. This project models the parts
of it whose correctness depends on many steps or on arbitrary outside input, and proves what each
of them guarantees over every input, every run or every interleaving.

`dafny verify dfyconfig.toml` checks everything. The modules follow the program:

- `Text`, `Base64`, `Results` and `Sums` hold the library operations that the rest relies on.
- `Discovery` is the bypass list: a greedy wildcard matcher, proved to decide the declarative
  meaning of a pattern, with the exchange argument for searching leftmost.
- `AuthHeader`, `Handshake`, `UpstreamAuth` and `ChallengePrinter` are the authentication driver.
  The authenticator is an arbitrary stateful step function: any function of the challenges that it
  has been fed. `ChallengePrinter` renders the `Proxy-Authenticate` grammar of sections 11.3 and
  11.7.1 of RFC 9110, and the reader is proved to invert it.
- `Wire`, `Framing` and `Connect` are the upstream `CONNECT` conversation. A socket is an arbitrary
  byte stream, delivered in pieces of any size, that ends in a close or an error. Each imperative
  reader is proved equal to a function of the bytes still to come; `Framing` renders responses
  (sections 6.3 and 7.1 of RFC 9112) and proves what is consumed of them; `Connect` composes this
  over the legs of a handshake and over the one retry on a fresh socket.
- `Negotiation` joins the two: from challenges printed in the upstream's responses, through the
  authenticator, to the tokens in the requests and the bytes of the tunnel.
- `Pool` and `Prewarm` are the prewarmed sockets: the imperative pool, and a state machine in which
  requests, the prewarm task, the clock and the peers take steps in any order.
- `Tunnel` is the splice: two pumps as interleaved steps, the close policy and the close report.
- `Tracker` is the connection book and the proxy-wide counters, with every call split into the
  atomic steps that other calls can come between.
- `Netmon`, `Config`, `FormModel`, `LogReplay` and `ChartModel` are the state machines and inverse
  pairs around the proxy: the corporate-network gate, the settings form, the log view and the
  chart's scale.

Four things that a reader might expect are false of the code, and the exact condition is proved:

- A chunked body is drained to its end if and only if it has no trailer fields, because one line is
  read after the zero chunk, though section 7.1 of RFC 9112 allows trailer fields
  (`Framing.SynchronisedIffNoTrailers`, `Framing.ResponseIsConsumed`). A 407 with trailer fields then
  ends the handshake without a tunnel, since the next head starts at the second of them, or at the
  empty line after the only one, and takes its status from that line, unless the line happens to
  read as a status of 200 or 407 (`Connect.TrailersEndTheHandshake`).
- A readable declared length is used even beside a chunked coding, where section 6.3 of RFC 9112 lets
  the coding win; such a response is consumed to its end if and only if the length is unreadable or
  is that of the chunked text, within the budget (`Framing.LengthWinsOverChunks`). With a length of 0
  beside one chunk the next head is read out of the chunk (`Framing.ChunkIsTakenForAHead`).
- A log push takes its number before it takes the lock on the ring. If pushes are not single steps,
  an event that is overtaken on the way to the ring may never appear in the view
  (`LogReplay.OvertakenEventIsLost`). A view loses nothing of what it is fed if and only if each event
  is a repeat of an earlier one or is numbered above all earlier ones, and the different events fit
  the capacity (`LogReplay.NothingIsLostIffInOrder`). The capacity of a view is a bound if and only if
  it is positive (`LogReplay.CapacityHoldsIffPositive`).
- Saving an unedited form does not preserve every configuration; it is the identity if and only if
  the configuration has the shape that the form can show (`FormModel.UneditedSaveIsIdentity`).

Reading a head or a line tests the terminator before the size limit, so up to 65537 bytes are read;
the model keeps that.

## Model

| member | source | states |
|---|---|---|
| Discovery.WildcardMatch | crates/zicade-win/src/winhttp/discovery.rs:158-183 | for every pattern and text, true exactly when the text is the pattern with each `*` replaced by some string |
| Discovery.LeftmostLosesNothing | crates/zicade-win/src/winhttp/discovery.rs:176-179 | the exchange argument: taking a segment at its leftmost occurrence neither loses nor gains a match of the remaining segments |
| Discovery.AbsentIsNotCovered | crates/zicade-win/src/winhttp/discovery.rs:176-179 | if the segment occurs nowhere in the rest, no replacement of the stars matches |
| Discovery.HostBypassed | crates/zicade-win/src/winhttp/discovery.rs:146-154 | a host is bypassed exactly when some entry admits it: `<local>` a host without dots, any other entry what its pattern matches |
| Base64.DecodeEncode | crates/zicade-auth/src/header.rs:89-91 | every byte string survives encoding and decoding (section 4 of RFC 4648) |
| Base64.EncodeDecode | crates/zicade-auth/src/header.rs:82-85 | only canonical encodings decode: encoding what was decoded gives back the text |
| Base64.AlphabetIs | crates/zicade-auth/src/header.rs:82-91 | the alphabet, in its order (section 4 of RFC 4648) |
| Base64.PackKeepsTheNumber | crates/zicade-auth/src/header.rs:89-91 | three bytes and their four characters read, most significant first, as the same number |
| AuthHeader.TokenIsRecovered | crates/zicade-auth/src/header.rs:67-91 | parsing a rendered value gives back its scheme and its token; an empty token reads as a bare offer |
| AuthHeader.RenderingIsInjective | crates/zicade-auth/src/header.rs:89-91 | two equal rendered values have the same scheme and the same token |
| AuthHeader.NamesInAnyCase | crates/zicade-auth/src/header.rs:67-86 | a word names Negotiate or NTLM in any letter case, and no other word names a scheme |
| AuthHeader.TrimmedValueParses | crates/zicade-auth/src/header.rs:67-86 | stripping the white space around a value does not change what is read from it |
| Handshake.NegotiateHandshake.constructor | crates/zicade-auth/src/handshake.rs:44-52 | a machine that has produced nothing, with a cap of ten tokens |
| Handshake.NegotiateHandshake.OnResponse | crates/zicade-auth/src/handshake.rs:72-83 | the whole new state and the step, as a function of the old state and the response |
| Handshake.NegotiateHandshake.Advance | crates/zicade-auth/src/handshake.rs:85-97 | the same for one challenge: rejection, the cap, a failing or a succeeding authenticator |
| Handshake.TokensAreCapped | crates/zicade-auth/src/handshake.rs:72-97 | over every run of responses and every authenticator, `legs` counts the tokens sent, never beyond the cap, and nothing is sent after the first token without a challenge or once done |
| UpstreamAuth.AuthState.constructor | crates/zicade-proxy/src/upstream/auth.rs:46-58 | the driver's state for each authentication mode |
| UpstreamAuth.AuthState.InitialHeader | crates/zicade-proxy/src/upstream/auth.rs:62-70 | only Basic opens with a credential, which it then has sent |
| UpstreamAuth.AuthState.OnChallenge | crates/zicade-proxy/src/upstream/auth.rs:76-93 | the answer to a 407 and the whole new state, in every mode, errors included |
| UpstreamAuth.AuthState.NegotiateLeg | crates/zicade-proxy/src/upstream/auth.rs:99-120 | the same for a Negotiate leg: the keyword learned once, the machine fed the challenge of this 407 |
| UpstreamAuth.TokenCharactersAre | crates/zicade-proxy/src/upstream/auth.rs:179-181 | a token character is a letter, a digit or one of fifteen marks (section 5.6.2 of RFC 9110) |
| UpstreamAuth.FieldIsProxyAuthenticate | crates/zicade-proxy/src/upstream/auth.rs:162-172 | the field read for challenges is `Proxy-Authenticate`, lower-cased |
| UpstreamAuth.KeywordIsKept | crates/zicade-proxy/src/upstream/auth.rs:99-144 | only the first 407 chooses the keyword; the answers to a run depend on the later ones through their tokens alone |
| UpstreamAuth.NegotiateRun | crates/zicade-proxy/src/upstream/auth.rs:99-144 | for every authenticator, a run of 407s is answered if and only if the first offers Negotiate or NTLM or no challenge at all, there are at most ten, each later one carries a challenge and each step succeeds; answer k then carries the scheme offered first, Negotiate if none was, and the token of step k |
| UpstreamAuth.AnswersAreBounded | crates/zicade-proxy/src/upstream/auth.rs:76-120 | no driver state answers more 407s than its remaining bound: none, one, or the tokens left |
| UpstreamAuth.AnswersOneMore | crates/zicade-proxy/src/upstream/auth.rs:76-93 | a run with one more 407 is answered if and only if the shorter run is and then that 407, by the state reached |
| ChallengePrinter.ReaderInvertsPrinter | crates/zicade-proxy/src/upstream/auth.rs:162-181 | for any challenges printed over any number of fields, among other fields, with any white space at each comma and empty elements anywhere, the reader yields one piece for each challenge, in order |
| ChallengePrinter.FirstUsableIsOffered | crates/zicade-proxy/src/upstream/auth.rs:150-155 | the offer is that of the first Negotiate or NTLM challenge, wherever it stands |
| ChallengePrinter.ContinuationTokenArrives | crates/zicade-auth/src/header.rs:67-86 | what the printed fields offer first, a scheme in any letter case and a non-empty token or none, is the offer parsed from the fields and the token fed on |
| ChallengePrinter.FirstAnswer | crates/zicade-proxy/src/upstream/auth.rs:129-144 | over printed fields: the first 407 is answered under the keyword offered first, or under Negotiate if no challenge was printed; where only other schemes were printed the authenticator takes no step and the error lists exactly those, in order |
| Text.ParseHex | crates/zicade-proxy/src/upstream/wire.rs:102-120 | a number printed in hexadecimal, in either letter case, is parsed back, and one too large for its type is refused |
| Text.DigitsAre | crates/zicade-proxy/src/upstream/wire.rs:102-120 | the value of each hexadecimal digit is its place in the table, in both letter cases |
| Text.OnlyDigits | crates/zicade-proxy/src/upstream/wire.rs:102-120 | no other character is a digit |
| Text.ParseSigned | crates/zicade-proxy/src/upstream/wire.rs:64-66 | a plus sign before a number does not matter |
| Text.LettersAreLowered | crates/zicade-proxy/src/upstream/wire.rs:43-61 | each upper-case letter is lowered to its own lower-case letter |
| Text.OthersAreKept | crates/zicade-proxy/src/upstream/wire.rs:43-61 | no other character is changed |
| Text.SpaceIs | crates/zicade-proxy/src/upstream/wire.rs:43-61 | the white space that is trimmed, of ASCII |
| Text.FirstWordAfterSpace | crates/zicade-proxy/src/upstream/wire.rs:43-61 | white space before a word of the status line does not matter |
| Wire.ReadHead | crates/zicade-proxy/src/upstream/wire.rs:21-41 | for every stream and every way it is cut into reads: the head, its error, and the bytes left, with the terminator tested before the limit |
| Wire.ParseHead | crates/zicade-proxy/src/upstream/wire.rs:43-61 | the status and the named fields of the lines, in order |
| Wire.ReadLine | crates/zicade-proxy/src/upstream/wire.rs:147-164 | the line up to its first line feed, its error, and the bytes left |
| Wire.Discard | crates/zicade-proxy/src/upstream/wire.rs:123-141 | exactly the declared bytes are consumed, whatever the reads return, or the error |
| Wire.DrainChunked | crates/zicade-proxy/src/upstream/wire.rs:102-120 | the loop's result and the bytes left equal the recursive meaning of chunk draining |
| Wire.DrainBody | crates/zicade-proxy/src/upstream/wire.rs:89-100 | which framing is used, and its result and the bytes left |
| Wire.DrainIsBounded | crates/zicade-proxy/src/upstream/wire.rs:102-164 | on any stream whatsoever a drain discards at most its budget of chunk data, reads at most two lines to a byte of that data and two more, and consumes nothing but that data and those lines, each of at most 65537 bytes |
| Wire.Socket.AwaitResponse | crates/zicade-proxy/src/upstream/wire.rs:185-194 | succeeds exactly when a byte is to come, and consumes none |
| Framing.HeadIsRead | crates/zicade-proxy/src/upstream/wire.rs:21-61 | a printed head is read to its end and no further, whatever follows, and reported with its status and fields |
| Framing.FramingIsSeen | crates/zicade-proxy/src/upstream/wire.rs:64-79 | the one framing field is found among any others, in any letter case, and a length in any spelling that parses |
| Framing.DrainUndoesChunking | crates/zicade-proxy/src/upstream/wire.rs:102-120 | for every chunk list, spelling of sizes, white space after them and extensions: the drain goes past them and reads one more line, or fails if the data exceeds the budget |
| Framing.EncodedIsDrained | crates/zicade-proxy/src/upstream/wire.rs:102-120 | for any pieces of data within the budget, written as ordinary chunks with hexadecimal sizes in either letter case, exactly the encoded text is drained |
| Framing.SynchronisedIffNoTrailers | crates/zicade-proxy/src/upstream/wire.rs:102-120 | the drain of a valid chunked body ends exactly after it if and only if it has no trailer fields; otherwise the trailers after the first are left |
| Framing.LengthWinsOverChunks | crates/zicade-proxy/src/upstream/wire.rs:89-100 | a chunked response with a Content-Length among its fields, of any value: head and drain leave exactly what follows if and only if the length is unreadable or is that of the chunked text, within the budget |
| Framing.ChunkIsTakenForAHead | crates/zicade-proxy/src/upstream/wire.rs:89-100 | a length of 0 beside one chunk: nothing is drained, and the next head is read out of the chunk, with status 0 |
| Framing.BodyIsDrained | crates/zicade-proxy/src/upstream/wire.rs:89-141 | the body of any response with one framing is consumed exactly, but for trailer fields after the first |
| Framing.ResponseIsConsumed | crates/zicade-proxy/src/upstream/wire.rs:21-141 | a response with one framing is read as itself and nothing after it is consumed; nothing of it is left if and only if it has no trailer fields |
| Connect.GatewayReads | crates/zicade-proxy/src/upstream/connect.rs:151-163 | a request is one head to its end, whatever follows; its first line asks for the destination, and its fields read as host, proxy-connection and, exactly when a value is given, proxy-authorization with that value |
| Connect.CredentialsAreRead | crates/zicade-proxy/src/upstream/connect.rs:151-163 | a gateway finds credentials in a request exactly when a value is given, and then that value |
| Connect.LegMeans | crates/zicade-proxy/src/upstream/connect.rs:90-119 | a tunnel is granted exactly by a status of 200, from the byte after its head; only a 407 is a challenge; other statuses are refusals |
| Connect.SendLeg | crates/zicade-proxy/src/upstream/connect.rs:128-149 | one request written and the head read, and when a reused socket counts as stale |
| Connect.RunHandshake | crates/zicade-proxy/src/upstream/connect.rs:71-123 | the loop's result, the bytes left and every request written equal the recursive conversation of a new driver |
| Connect.ConnectVia | crates/zicade-proxy/src/upstream/connect.rs:35-50 | the pooled socket's result stands unless it is stale; then, or without one, the fresh dial decides; what each socket was sent and has left |
| Connect.StaleMeansUnanswered | crates/zicade-proxy/src/upstream/connect.rs:128-149 | a pooled socket is given up if and only if its write failed or no byte came; then nothing of it was consumed and it took one request; a fresh socket is never given up |
| Connect.LegsAreBounded | crates/zicade-proxy/src/upstream/connect.rs:90-122 | a driver with n answers left writes at most n + 1 requests and never exhausts the legs |
| Connect.RequestsPerSocket | crates/zicade-proxy/src/upstream/connect.rs:71-123 | for every upstream and authenticator: at most one request for no authentication or Basic, at most eleven for Negotiate, and the "exhausted legs" exit is unreachable |
| Connect.RequestsPerConnect | crates/zicade-proxy/src/upstream/connect.rs:35-50 | one `CONNECT` writes at most twelve requests over both its sockets |
| Connect.RequestsAreAnswers | crates/zicade-proxy/src/upstream/connect.rs:71-123 | over any upstream, the requests are the opening one and the driver's answers to the 407s met, in order |
| Connect.OpeningCredentials | crates/zicade-proxy/src/upstream/auth.rs:62-70 | the first request carries the configured credentials with Basic, and none otherwise |
| Connect.NegotiateRequests | crates/zicade-proxy/src/upstream/connect.rs:71-123 | in Negotiate mode the first request carries no value and the later ones the keyword fixed by the first 407 with the token of step k, fed with the challenge of the k-th 407 |
| Connect.LegsStaySynchronised | crates/zicade-proxy/src/upstream/connect.rs:90-119 | after any run of well-framed 407s that the driver answers, whatever follows: leg k read exactly the k-th response, the requests are the answers, and the conversation goes on with exactly what follows |
| Connect.TunnelIsReached | crates/zicade-proxy/src/upstream/connect.rs:71-123 | for a whole handshake in every mode: after such a run and a grant, the requests are the opening one and the answers, and the bytes left are exactly the tunnel's |
| Connect.UnansweredHandshakeFails | crates/zicade-proxy/src/upstream/connect.rs:71-123 | if the driver does not answer every 407 of a run, the handshake fails, whatever follows the run |
| Connect.LeftLineGivesStatus | crates/zicade-proxy/src/upstream/wire.rs:43-61 | a head read from the middle of a body takes its status from the line at which the stream was left |
| Connect.LeftLineEndsTheLegs | crates/zicade-proxy/src/upstream/connect.rs:90-119 | such a leg grants a tunnel if and only if the head is read and that line reads as a status of 200, and is taken for a challenge only if it reads as 407 |
| Connect.TrailersEndTheHandshake | crates/zicade-proxy/src/upstream/connect.rs:90-119 | a 407 with trailer fields anywhere in a run ends the handshake without a tunnel, for every driver and whatever follows, unless the line left over reads as a status of 200 or 407 |
| Connect.OneTrailerEndsTheHandshake | crates/zicade-proxy/src/upstream/connect.rs:71-123 | one trailer field is always enough |
| Connect.ChunkBesideLengthIsRefused | crates/zicade-proxy/src/upstream/connect.rs:90-119 | after a 407 with a length of 0 beside one chunk, the next response is refused with status 0 |
| Connect.ForwardHandshake | crates/zicade-proxy/src/upstream.rs:172-190 | on the HTTP path the values sent are the opening one and the answers to the 407s before; the last leg alone decides the status or which failure is returned; within the same bound on requests and never by exhausting the legs |
| Negotiation.TokensAreFed | crates/zicade-proxy/src/upstream/auth.rs:99-120 | for any run of well-framed 407s with printed challenges, the authenticator is fed exactly the printed tokens |
| Negotiation.TokensTravel | crates/zicade-proxy/src/upstream/connect.rs:71-123 | for every authenticator, such a run followed by a grant reaches the tunnel if and only if the first 407 prints a Negotiate or NTLM challenge or none at all, there are at most ten 407s, each after the first brings a token and every step succeeds; a gateway then reads from the text of each request the token of its step, under the keyword offered first, and the bytes left are exactly the tunnel's |
| Negotiation.OtherSchemesAreReported | crates/zicade-proxy/src/upstream/auth.rs:129-144 | where the first 407 prints only other schemes the handshake ends after one request without credentials, with an error that lists exactly the printed schemes |
| Pool.UpstreamPool.Take | crates/zicade-proxy/src/upstream/pool.rs:95-100 | what taking hands out and leaves, and that it starts and wakes the prewarm task |
| Pool.UpstreamPool.TakeIdle | crates/zicade-proxy/src/upstream/pool.rs:104-112 | while time passes and peers close: the newest socket usable by the end is handed out and every older one left, or none was usable |
| Pool.UpstreamPool.Refresh | crates/zicade-proxy/src/upstream/pool.rs:115-130 | a subsequence is kept, only unusable sockets are removed, what is kept was usable, a dial is asked for exactly below the watermark, and the report counts exactly the in-time sockets lost to their peers |
| Pool.ReportMeans | crates/zicade-proxy/src/upstream/pool.rs:59-63 | no report means that everything removed had expired; a report means that some removed socket was closed or written to |
| Pool.UpstreamPool.Put | crates/zicade-proxy/src/upstream/pool.rs:133-141 | a socket is parked at the newest end exactly below the watermark |
| Pool.UpstreamPools.Get | crates/zicade-proxy/src/upstream/pool.rs:218-233 | the pool of an address, a new empty one with the registry's settings if fewer than eight exist, else none; no pool is shared between addresses |
| Prewarm.Backoff.constructor | crates/zicade-proxy/src/upstream/pool/prewarm.rs:98-102 | nothing waited yet |
| Prewarm.Backoff.NextDelay | crates/zicade-proxy/src/upstream/pool/prewarm.rs:86-90 | the k-th wait since the pool was last full takes min(500·2^k, 30000) ms |
| Prewarm.Backoff.Reset | crates/zicade-proxy/src/upstream/pool/prewarm.rs:93-95 | the count of waits starts again |
| Prewarm.KeepWarm | crates/zicade-proxy/src/upstream/pool/prewarm.rs:23-51 | the loop over the pool itself, with requests taking at every await: its record of looks, sleeps, waits, dials and parkings follows the discipline, one round to a look, and the pool never exceeds its watermark |
| Prewarm.SetbacksAreWaitedOut | crates/zicade-proxy/src/upstream/pool/prewarm.rs:23-61 | in such a record, exactly the failed dials and the looks that lost sockets to their peers are followed by a wait, of the next delay since the pool was last full; and exactly the successful dials by a parking of that socket at the newest end |
| Prewarm.DelayDoubles | crates/zicade-proxy/src/upstream/pool/prewarm.rs:86-90 | repeated doubling gives min(500·2^k, 30000) ms |
| Prewarm.TotalDelayIs | crates/zicade-proxy/src/upstream/pool/prewarm.rs:74-96 | n waits, for n of six or more, take 31500 + 30000(n - 6) ms |
| Prewarm.NextKeeps | crates/zicade-proxy/src/upstream/pool/prewarm.rs:23-71 | every step of a request, the prewarm task, the clock or a peer keeps the invariant |
| Prewarm.EveryStateIsGood | crates/zicade-proxy/src/upstream/pool.rs:104-145 | in every run: parked sockets and the dial in flight never exceed the watermark, each dialed socket is in exactly one place so none is handed out twice or parked again, the list is in parking order, and the waits follow the backoff |
| Prewarm.HostilePeerDelaysTheDial | crates/zicade-proxy/src/upstream/pool.rs:59-63 | in every run, a look that loses an in-time socket to its peer is followed by a wait of the next delay before the dial, unless the pool is at its watermark all the same |
| Prewarm.FailedDialIsWaitedOut | crates/zicade-proxy/src/upstream/pool/prewarm.rs:42-48 | in every run of the system, a failed dial is followed by one wait of the next delay |
| Prewarm.OnlySetbacksAreWaitedOut | crates/zicade-proxy/src/upstream/pool/prewarm.rs:23-51 | in every run of the system, a wait starts only after a failed dial or a look that lost a socket to its peer |
| Prewarm.WaitEndsInItsCause | crates/zicade-proxy/src/upstream/pool/prewarm.rs:23-51 | the wait for a hostile peer ends in the dial that it put off, any other wait in another look |
| Prewarm.DialedIsParked | crates/zicade-proxy/src/upstream/pool.rs:133-141 | in every run a dialed socket is parked and never discarded |
| Prewarm.WaitsAddUp | crates/zicade-proxy/src/upstream/pool/prewarm.rs:23-61 | in every run the waits since the pool was last full add up to the closed form |
| Tunnel.RunPump | crates/zicade-proxy/src/tunnel.rs:325-371 | what the sink receives, the count, the result and the one shutdown, for every source and every amount the sink accepts |
| Tunnel.EveryStateIsGood | crates/zicade-proxy/src/tunnel.rs:94-245 | the invariant of both pumps and of the close policy holds in every state of every interleaving |
| Tunnel.SinksReceivePrefixes | crates/zicade-proxy/src/tunnel.rs:325-371 | at any moment, even with a pump dropped in the middle of a write or of a shutdown, the sink has a prefix of what the source produced, at most one buffer ahead of the count |
| Tunnel.EofRelaysEverything | crates/zicade-proxy/src/tunnel.rs:325-371 | the sink is shut down once, after everything was relayed and counted, if the outcome is clean; never if it failed; and in a dropped direction only if the source had ended |
| Tunnel.ReachableOutcomes | crates/zicade-proxy/src/tunnel.rs:258-311 | a direction is dropped only beside one that failed |
| Tunnel.CompletedExactly | crates/zicade-proxy/src/tunnel.rs:150-189 | a tunnel is reported completed if and only if the download's outcome is a clean end and the upload did not fail to write; the catch-all never decides |
| Tunnel.ReportIs | crates/zicade-proxy/src/tunnel.rs:174-189 | over closed runs, in terms of the pumps: a failed write of the upload is reported; otherwise a failed download, whatever the upload did; and a failed read of the upload only if the download was dropped |
| Tunnel.BlameIsRight | crates/zicade-proxy/src/tunnel.rs:386-393 | the endpoint named is the one whose socket operation produced the reported error |
| Tunnel.ClientFailureDropsTheOther | crates/zicade-proxy/src/tunnel.rs:258-266 | the other direction is dropped at once exactly when the client failed, and is waited for without limit exactly after a clean end |
| Tracker.Book.Start | crates/zicade-proxy/src/tracker.rs:119-126 | a new connection gets the next id and is open; nothing else changes |
| Tracker.Book.Close | crates/zicade-proxy/src/tracker.rs:128-141 | a connection moves from open to the end of the history, closed unless failed, the oldest being evicted from a full history |
| Tracker.Book.TakeSnapshot | crates/zicade-proxy/src/tracker.rs:144-152 | the open connections once each by strictly descending id, then the history newest first |
| Tracker.Book.OpenDescending | crates/zicade-proxy/src/tracker.rs:146-150 | every open connection once, as it is now, by strictly descending id |
| Tracker.FilingKeepsRecent | crates/zicade-proxy/src/tracker.rs:128-141 | bounded filing keeps exactly the last 200 of all ever filed |
| Tracker.ChangeMeans | crates/zicade-proxy/src/tracker.rs:209-242 | each locked update touches one thing: the route; the status, of an HTTP exchange alone; or the state, which opens only from connecting and closes unless it failed |
| Tracker.NextKeeps | crates/zicade-proxy/src/tracker.rs:165-248 | every atomic step of every call keeps the three invariants: who may be running, one place each, conservation |
| Tracker.EveryStateIsGood | crates/zicade-proxy/src/tracker.rs:119-249 | the invariants hold in every state of every interleaving |
| Tracker.Conservation | crates/zicade-proxy/src/metrics.rs:49-75 | once all calls have returned, the bytes of all connections ever started sum to the totals modulo 2^64, requests are the ids issued, and failures the connections ever failed |
| Tracker.OnePlaceEach | crates/zicade-proxy/src/tracker.rs:119-141 | every registered connection is open or on the record, never both and once, with its final bytes and state; the history is the last 200 of the record |
| Tracker.RouteIsSet | crates/zicade-proxy/src/tracker.rs:209-212 | deciding a route changes the route alone, in one step |
| Tracker.StatusOpens | crates/zicade-proxy/src/tracker.rs:224-231 | recording a status sets it on an HTTP exchange and leaves the connection past connecting, in two steps |
| Tracker.FailuresShow | crates/zicade-proxy/src/tracker.rs:234-242 | once all calls have returned, the connections counted as failed are exactly those that show a failure |
| Tracker.StateAdvances | crates/zicade-proxy/src/tracker.rs:209-248 | a step only moves a connection on, from connecting to open to closed or failed, and changes neither end |
| Tracker.EndIsFinal | crates/zicade-proxy/src/tracker.rs:209-248 | in every run a closed or failed connection stays as it is, with the same reason |
| Netmon.MatchesByLabels | apps/zicade/src/netmon/mod.rs:44-46 | a suffix matches exactly when its dot-separated labels are the last labels of the other |
| Netmon.NormalizeMeans | apps/zicade/src/netmon/mod.rs:38-41 | a suffix is what stands between white space and then dots, in lower case; nothing is no suffix |
| Netmon.MatchingIsAChainOrder | apps/zicade/src/netmon/mod.rs:44-46 | matching is a partial order, and any two suffixes that match one name are comparable |
| Netmon.OnCorpByLabels | apps/zicade/src/netmon/mod.rs:25-46 | on the corporate network exactly when some adapter suffix lies, label by label, at or below some configured one, both normalised |
| Netmon.Gate.constructor | apps/zicade/src/netmon/gate.rs:129-151 | a gate that has decided nothing, with the configuration's parameters |
| Netmon.Gate.Evaluate | apps/zicade/src/netmon/gate.rs:68-78 | the whole new state after an evaluation |
| Netmon.Gate.Apply | apps/zicade/src/netmon/gate.rs:81-94 | the routing swapped in and what is reported |
| Netmon.Gate.Reconfigure | apps/zicade/src/netmon/gate.rs:98-114 | the whole new state after a reconfiguration |
| Netmon.EventGoverns | apps/zicade/src/netmon/gate.rs:68-114 | every evaluation and reconfiguration keeps what the live routing and the reports owe to the configuration and the decision |
| Netmon.GateGoverns | apps/zicade/src/netmon/gate.rs:68-114 | over any sequence of events, the gate is on with the configured suffixes and interval exactly when the configuration says so; one that decided c has the rebuilt routing live if c and Direct otherwise and last reported c; a disabled one keeps the rebuilt routing |
| Netmon.DecisionIsCurrent | apps/zicade/src/netmon/gate.rs:68-114 | after any event an enabled gate has decided by what was just detected; an evaluation does not move a disabled one |
| Netmon.SwapsFollowChanges | apps/zicade/src/netmon/gate.rs:68-78 | between reconfigurations the routing is swapped and reported exactly as often as the decision changes |
| FormModel.Control.ConfigRedacted | crates/zicade-control/src/control.rs:133-138 | no slot shows a password and nothing but passwords is withheld |
| FormModel.Control.Apply | crates/zicade-control/src/control.rs:174-196 | nothing changes unless the merged configuration is valid and saved; then it is stored and handed to the hook |
| FormModel.RejectedIffInvalid | crates/zicade-config/src/validate.rs:34-129 | a configuration is rejected if and only if it breaks a rule: ports, the section of its mode, credentials, the gate, the pool |
| FormModel.FirstViolation | crates/zicade-config/src/validate.rs:34-65 | which violation is reported: the listen port, then a missing section, then the upstream's port and authentication, then the PAC's |
| FormModel.GateBeforePool | crates/zicade-config/src/validate.rs:70-104 | the gate is reported before the pool, and each only for itself |
| FormModel.FormErrorIs | crates/zicade-ui/src/form_model.rs:111-180 | the first unreadable number that the mode uses is reported: the listen port, the upstream's, the interval; otherwise the form is read |
| FormModel.PortIsRead | crates/zicade-ui/src/form_model.rs:201-206 | a port is read from between white space exactly if it fits |
| FormModel.BlankIntervalMeansThirty | crates/zicade-ui/src/form_model.rs:167-173 | a gate whose interval is left blank is checked every 30 seconds |
| FormModel.TypedPasswordIsStored | crates/zicade-ui/src/form_model.rs:36-45 | a typed password is stored, whatever was saved |
| FormModel.SwitchingModes | crates/zicade-ui/src/form_model.rs:82-106 | a section that was never configured is shown blank: no upstream until a port is given, and an automatic PAC without authentication |
| FormModel.SuffixesRoundTrip | crates/zicade-ui/src/form_model.rs:155-180 | a suffix list survives the text field if and only if each is trimmed, not blank and free of separators |
| FormModel.AuthRoundTrip | crates/zicade-config/src/model.rs:300-308 | redacting, editing nothing and merging restores an authentication slot if and only if it is normal |
| FormModel.CorpRoundTrip | crates/zicade-ui/src/form_model.rs:155-180 | the gate's section survives the form if and only if it is absent or normal |
| FormModel.UpstreamRoundTrip | crates/zicade-ui/src/form_model.rs:135-141 | the upstream section survives if and only if its host is trimmed, its port set and its slot normal |
| FormModel.PacRoundTrip | crates/zicade-ui/src/form_model.rs:143-151 | the PAC section survives if and only if its texts and its slot are normal |
| FormModel.UneditedSaveIsIdentity | crates/zicade-ui/src/form_model.rs:82-180 | redact, fill the form, read it back, merge: the original configuration, passwords included, if and only if it is in form-normal shape |
| FormModel.SaveUnedited | crates/zicade-control/src/control.rs:133-196 | through the control handle a form-normal configuration is left as it was, and the save succeeds exactly when it is valid and written |
| FormModel.PasswordsStayBehind | crates/zicade-config/src/model.rs:20-40 | a redacted copy differs from the configuration in its passwords alone, which are gone; merging changes passwords alone, and in both slots a typed one wins and an untyped one is the saved one exactly for the same Basic user |
| LogReplay.LogStore.constructor | crates/zicade-observe/src/store.rs:33-44 | an empty store whose ring holds at least one event |
| LogReplay.LogStore.Push | crates/zicade-observe/src/store.rs:50-60 | the event is numbered next and broadcast, and the ring stays the end of the broadcast |
| LogReplay.LogStore.RecentEvents | crates/zicade-observe/src/store.rs:63-69 | the last events of the broadcast, as many as the ring holds |
| LogReplay.LogBuffer.Push | crates/zicade-ui/src/log_buffer.rs:28-37 | the whole new state after a push, seen events being dropped |
| LogReplay.LogBuffer.Follow | crates/zicade-ui/src/views/logs.rs:60-75 | the whole new state after a feed of events |
| LogReplay.ViewIsContiguous | crates/zicade-ui/src/views/logs.rs:57-75 | wherever pushes fall between subscribing, replaying and following, the view holds the newest events of an unbroken run of the log, each once, up to its capacity |
| LogReplay.OpenView | crates/zicade-ui/src/views/logs.rs:57-75 | the same through the store and the buffer themselves |
| LogReplay.ViewAlwaysAscends | crates/zicade-ui/src/log_buffer.rs:28-37 | in whatever order stamped events arrive, the numbers in the view strictly increase and its positive capacity is kept |
| LogReplay.CapacityHoldsIffPositive | crates/zicade-ui/src/log_buffer.rs:28-37 | the capacity bounds the view over every feed if and only if it is positive |
| LogReplay.ViewIsRecords | crates/zicade-ui/src/log_buffer.rs:28-37 | of any stamped feed in any order, the view shows the newest of the events that outnumbered all before them |
| LogReplay.RecordedIff | crates/zicade-ui/src/log_buffer.rs:28-37 | an event is one of these if and only if it outnumbered, when it first arrived, all before it |
| LogReplay.NothingIsLostIffInOrder | crates/zicade-ui/src/log_buffer.rs:28-37 | every event of a feed is in the view if and only if each is a repeat or is numbered above all earlier ones, and the different events fit the capacity |
| LogReplay.EveryStateIsGood | crates/zicade-observe/src/store.rs:50-60 | in every run of pushes split into their steps: the ring is the end of what was appended, every event sent had been appended, and all sent before a view subscribed had been appended when it replayed |
| LogReplay.SplitPushesAreShown | crates/zicade-ui/src/views/logs.rs:57-75 | in every such run, nothing falls between subscribing and replaying, the view strictly ascends, and it loses nothing of its feed if and only if the feed is in order and fits |
| LogReplay.OvertakenEventIsLost | crates/zicade-observe/src/store.rs:50-60 | a run of two split pushes, one overtaking the other, whose events are both in the ring that a view replays and of which it shows one |
| ChartModel.FindScale | crates/zicade-ui/src/chart_model.rs:30-46 | the nested search returns the first step of the 1-2-5 ladder of which at most four cover the peak |
| ChartModel.SizesAre125 | crates/zicade-ui/src/chart_model.rs:30-46 | the ladder is 1, 2 and 5 times powers of ten, in units of 1024 to the one before |
| ChartModel.ScaleCovers | crates/zicade-ui/src/chart_model.rs:26-46 | two to four steps that cover the peak, with the smallest ladder step that can; past four of the 45th step the top is the peak |
| ChartModel.ScaleIsMonotone | crates/zicade-ui/src/chart_model.rs:26-46 | a higher peak never gets a lower top |
| ChartModel.ScaleIsTight | crates/zicade-ui/src/chart_model.rs:26-46 | above 4 KB/s the top is less than one and a half times the peak |
| ChartModel.WobbleNeverRescales | crates/zicade-ui/src/chart_model.rs:48-57 | a scale fitted above 4 KB/s is kept while the peak stays between three fifths of the fitted one and that peak |
| ChartModel.RescaledFits | crates/zicade-ui/src/chart_model.rs:48-57 | whatever is on screen, the next scale covers the peak, and above 4 KB/s its top is at most two and a half times the peak |

## Left out

- ChallengePrinter.ReaderInvertsPrinter: no commas inside parameter values and no spaces before `=`, because the reader splits at every comma and takes the first word as the scheme; one space after the scheme.
- Framing.BodyIsDrained: responses with exactly one framing; those with two are the subject of `Framing.LengthWinsOverChunks`. Sizes with a plus sign or white space before them, which the parser also accepts, are not printed.
- LogReplay.ViewIsContiguous: pushes as single steps and no lag in the broadcast; a lagging receiver skips events by design.
- Tracker.Conservation: the byte totals modulo 2^64, as the counters wrap; ids and request counts are unbounded.
- Connect.ForwardHandshake: the legs of the HTTP path are arbitrary outcomes; header parsing and body streaming belong to the HTTP library.
- Connect.GatewayReads: destinations and values without line ends, which is what header values and authorities are; the source writes them unchecked.
- ChartModel.FindScale: real numbers instead of 64-bit floating point; axis labels, the series and the slide are not modelled.
- Prewarm.EveryStateIsGood: how long the prewarmer sleeps beside a full pool is left open, so it may wake at any time.
- Text is ASCII, one character to a byte; lossy UTF-8 decoding of heads is not modelled. `usize` is taken to be 64 bits wide.
- Timeouts of dials and handshakes, and task scheduling: a handshake cut short by its timeout is a prefix of a modelled one.
- Differences between operating systems in how a reset shows up on a peeked socket; the model has a stream end that is either a close or an error.
- Windows calls: SSPI, WinHTTP, adapters, the tray. The authenticator and the detected suffixes are arbitrary inputs.
- Error texts, log output, and the warning about SPNEGO under NTLM.
- The override of the handshake's leg cap, which the proxy does not use.
- Aborting the prewarm task when a pool is dropped.
- Client addresses, opening times and durations of tracked connections, and the count of active connections. In `Tracker.System` an entry is named by its position, one below its id.
- Writing passwords in place in the configuration; redaction and merging are functions on values.
- The gate's polling thread, its lock, and the status shown beside the configuration.
- The choice among WPAD, PAC and static proxies, PAC evaluation and its cache, host extraction from URLs: easy members.
- Configuration files, the command line, views, packaging.
