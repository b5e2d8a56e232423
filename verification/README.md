# simple-http-proxy: the accounting handler and the proxy's decisions, in Dafny

This project models the part of the `simple-http-proxy` forwarding proxy
that can be stated as sequential logic:

- **The accounting handler** (`accounting.go`). It is a class that holds the
  configured users and one downstream byte counter per user, updated in
  place. Its methods are:
  - `SendUpstream`: parses the `Proxy-Authorization` value, authenticates
    the user and refuses an over-quota user before delegating to the
    pass-through copy.
  - `SendDownstream`: authenticates the user, then runs the metered copy
    `copyAndAccount`. The copy reads into a 5120-byte buffer and, for every
    read, writes the chunk until the reported counts cover it. It adds each
    reported count to the user's counter.
- **The credential parser** `userPassFromBearer`. It cuts at the first
  `"Basic "`, decodes the rest as padded standard base64 (RFC 4648
  section 4) and cuts the decoded text at its first `:`.
- **The proxy's per-connection decisions** (`proxy.go`):
  - the pass-through handler, whose two directions are each an `io.Copy`;
  - the CONNECT-versus-relay dispatch and the `ConnContext` built in
    `handle`;
  - the target URL built by `fmtURL`;
  - the host/port defaulting of `produceHostPort`, over concrete models of
    `net.SplitHostPort` and `net.JoinHostPort`;
  - how a tunnel's two directions combine into one error.

Peers are finite scripts:

- A reader's script lists runs of bytes. Each run carries the status of the
  read that delivers its last byte: nil, `io.EOF` or an error. A read never
  returns more than the buffer holds, so a longer run is handed out over
  several reads. A used-up script reads as `io.EOF`.
- A writer's script lists, call by call, how many bytes the destination
  takes and whether that write fails. A used-up script takes everything.
- The bytes a destination takes collect in its `sink`.

Go errors are the `Error` datatype: `Unauthorized`, `UserExceedingQuota`,
`CorruptBase64` (the decoder's error), `ShortWrite` (`io.ErrShortWrite`) and
`IoFailure(code)`. A Go string is a Dafny `string` whose characters each
stand for one byte.

Modules, one file each: `Common` (byte and uint64 types, `Option`, `Result`,
errors), `Strs` (`strings.Index`/`Contains`/`Cut`, `IndexByte`/`LastIndexByte`),
`Base64`, `Streams` (readers, writers, `io.Copy`), `Config` (`UserConfig`),
`Proxy` and `Accounting`.

Where the design description and the code disagree, the model follows the
code:

- The credential value need not start with `"Basic "`. The code cuts at its
  first occurrence anywhere and ignores what comes before
  (`BearerIgnoresLeadingText`).
- A value that is not valid base64 fails with the decoder's own error
  (`CorruptBase64`), not with `Unauthorized`.
- The quota test is `counter >= int64(quotaBytes)`. A quota of 2^63 or more
  turns negative in that conversion, so such a user is always over quota
  (`OverQuota`).
- A short write without an error makes the next write start again from the
  chunk's first byte. Bytes can therefore reach the destination twice, and
  all of them are counted (`ShortWriteResendsFromStart`).
- `produceHostPort` is called nowhere in `proxy.go`: both dials use the
  `Host` value as it is (`proxy.go:166`, `proxy.go:208`). Its test is also
  inverted. A target that is already a valid `host:port` is treated as a
  bare host: it is bracketed and given port 80 (`ProduceHostPortDropsPort`).
- In the tunnel (`proxy.go:219`, `proxy.go:223`), `SendUpstream` copies from
  the upstream server to the client and `SendDownstream` from the client to
  the server. The model states each handler method's own contract and does
  not name a direction for tunnels.

## Model

| member | source | states |
|---|---|---|
| Accounting.AccountingHandler.constructor | accounting.go:18-23 | one counter per configured user, every counter zero, in a fresh array |
| Accounting.UserPassFromBearer | accounting.go:71-89 | a value without `"Basic "` is `Unauthorized`; the decoder's error exactly when the text after the first `"Basic "` does not decode; success exactly when it decodes to text holding a `:`, and then username + `:` + password is that text and the username holds no `:`; every other case is `Unauthorized` |
| Accounting.SchemeAtStart | accounting.go:72-75 | for a value starting with `"Basic "` the cut finds it there and hands on all that follows |
| Accounting.SameCut | accounting.go:72-88 | the result depends only on the text after the first `"Basic "` |
| Accounting.BearerIgnoresLeadingText | accounting.go:72-75 | any text before the first `"Basic "` is ignored: the result equals that of the value starting at `"Basic "` |
| Accounting.BearerRoundTrip | accounting.go:77-88 | `Basic ` + base64(`username:password`) yields exactly that pair whenever the username holds no `:`; the password may hold `:` |
| Accounting.BearerWithoutColon | accounting.go:83-86 | decoded text without a `:` is `Unauthorized` |
| Accounting.BearerCorruptCharacter | accounting.go:77-81 | after `"Basic "`, any character outside the base64 alphabet other than `=`, CR and LF, anywhere in the value, yields the decoder's error, not `Unauthorized` |
| Accounting.BearerCorruptLength | accounting.go:77-81 | after `"Basic "`, any text whose length without CR and LF is not a multiple of four yields the decoder's error |
| Accounting.BytesToString | accounting.go:83 | `string(decoded)` keeps the length and maps each byte to the character of the same code |
| Accounting.StringToBytes | accounting.go:83 | converting a byte string to bytes is undone by `string(...)` |
| Accounting.FirstMatchFrom | accounting.go:62-67 | from a position on, the first user whose name and password both match, or none at all |
| Accounting.FirstMatch | accounting.go:61-69 | `(i, true)` for the smallest index whose name and password both match exactly; `(0, false)` exactly when no user matches |
| Accounting.AccountingHandler.Authenticate | accounting.go:61-69 | the scan with early return yields exactly `FirstMatch` of the handler's users |
| Accounting.AuthenticateConfigured | accounting.go:61-69 | each configured user is found at its own index unless an earlier user has the same name |
| Accounting.Identify | accounting.go:48-58 | a parse error is passed through; parsed credentials that authenticate give exactly the index authentication finds, and any index returned is that one; parsed credentials that do not authenticate give `Unauthorized` |
| Accounting.Int64OfUint | accounting.go:39 | `int64(quota)` lies in the int64 range and is congruent to the quota modulo 2^64 |
| Accounting.OverQuota | accounting.go:39 | for a non-negative counter: below 2^63 the test is `counter >= quota`; from 2^63 on every counter is over quota |
| Accounting.UpstreamGate | accounting.go:32-46 | admits an identified user exactly when the counter passes the quota test, with that user's index; identification errors pass through; `UserExceedingQuota` exactly for an identified user over quota |
| Accounting.AccountingHandler.SendUpstream | accounting.go:32-46 | on refusal the error is returned and neither side is touched; an admitted user is served exactly as the pass-through copy would; no counter changes |
| Accounting.AccountingHandler.SendDownstream | accounting.go:48-59 | on refusal nothing changes; otherwise the result is the metered copy, the user's counter rises by the bytes the destination took, and every other counter is unchanged |
| Accounting.WriteAll | accounting.go:103-112 | the counts reported by the inner loop's writes add up to the bytes the destination took |
| Accounting.WriteChunk | accounting.go:103-112 | the inner write loop leaves the sink, writer and counter as `WriteAll` says, and no other counter changes |
| Accounting.MeteredRoundOf | accounting.go:101-117 | one outer pass counts what was sent; a pass that does not stop has consumed part of the stream and has no error |
| Accounting.MeteredOnce | accounting.go:101-117 | one read into the 5120-byte buffer followed by the inner loop, matched to `MeteredRoundOf` |
| Accounting.CopyAndAccountSpec | accounting.go:91-120 | the metered copy counts exactly the bytes the destination took |
| Accounting.CopyAndAccount | accounting.go:91-120 | the loop's sink, scripts, result and counter are those of `CopyAndAccountSpec`; only the user's counter changes |
| Accounting.CopyAndAccountToAcceptingWriter | accounting.go:92-118 | with a destination that takes whole chunks, the sink receives the stream in order, each byte is counted once, and the result is nil at EOF or the read error |
| Accounting.ShortWriteResendsFromStart | accounting.go:103-112 | for any one-chunk stream, a short write of k bytes followed by a write that takes everything leaves the first k bytes and then the whole chunk at the destination, k + length counted, no error |
| Accounting.FailedWriteCountsPartial | accounting.go:101-111 | for any stream whose first read gives bytes, a first write that takes k of them and fails ends the copy at once: the first min(k, read) bytes are sent and counted, the error is returned, the rest of the stream is unread and the remaining writes unused |
| Proxy.SimpleHandler.SendUpstream | proxy.go:54-57 | the result is `io.Copy`'s; on success the sink has received the whole stream unchanged |
| Proxy.SimpleHandler.SendDownstream | proxy.go:59-63 | the same pass-through contract in the other direction |
| Proxy.HeaderGet | proxy.go:123-124 | the first value stored under the name, or `""` when the name is absent or has no values |
| Proxy.Handle | proxy.go:121-135 | tunnel if and only if the method is exactly `CONNECT`; one context from the `Host` and the two proxy headers |
| Proxy.FmtURL | proxy.go:146-150 | `http://` + host + path + `?` + query, with the `?` present even for an empty query |
| Proxy.FmtURLRoundTrip | proxy.go:146-150 | host, path and query can be read back from the target when none of them holds the separators |
| Proxy.SplitHostPort | proxy.go:241 | `net.SplitHostPort` accepts only text that holds a `:` |
| Proxy.JoinHostPort | proxy.go:245 | `net.JoinHostPort` brackets a host that holds a `:` and joins any other host plainly |
| Proxy.ProduceHostPort | proxy.go:239-246 | no `:` gives `target:80`; a `:` that `SplitHostPort` rejects leaves the target alone; a valid `host:port` becomes `[target]:80` |
| Proxy.ProduceHostPortBareHost | proxy.go:239-246 | a bare host comes out as that host on port 80 |
| Proxy.ProduceHostPortDropsPort | proxy.go:239-246 | a valid unbracketed `host:port` comes out as a host named after the whole target, on port 80 |
| Proxy.SplitOfBracketed | proxy.go:241 | `[host]:80` splits back into the host and port 80 |
| Proxy.TunnelResult | proxy.go:226-236 | nil exactly when both directions succeed; with one failure that failure; with two, the first finisher's |
| Streams.ReadInto | accounting.go:101 | a read returns at most the buffer's size and consumes part of a non-empty script |
| Streams.ReadIntoKeepsStream | accounting.go:101 | reads never lose, duplicate or reorder bytes, and never hide how the stream ends |
| Streams.Reader.Read | accounting.go:101 | the buffer's front holds the read's bytes; the count, status and rest of the script match `ReadInto` |
| Streams.WriteOnce | accounting.go:104 | a write never reports more than it was given |
| Streams.Writer.Write | accounting.go:104 | the destination takes the reported prefix of the bytes |
| Streams.CopyRound | proxy.go:55 | a round of `io.Copy` that does not stop has consumed input and has no error |
| Streams.CopyOnce | proxy.go:55 | one read and one write of `io.Copy`'s loop, matched to `CopyRound` |
| Streams.Copy | proxy.go:55 | `io.Copy`'s loop leaves sink, scripts and result as `CopySpec` says |
| Streams.CopyToAcceptingWriter | proxy.go:54-63 | with a destination that takes everything, `io.Copy` delivers the whole stream in order and ends as it ends |
| Streams.CopyRoundPrefix | proxy.go:55 | one round sends a prefix of the stream; a round that goes on sends the whole read, and the stream continues with the rest |
| Streams.CopySpec | proxy.go:55 | what `io.Copy`'s destination takes is always a prefix of the stream |
| Streams.CopySuccessIsComplete | proxy.go:55 | a copy without error has delivered the whole stream, which ended with EOF |
| Strs.Index | accounting.go:72 | the first occurrence of the separator, or none |
| Strs.Contains | proxy.go:240 | true exactly when the separator occurs somewhere |
| Strs.ContainsChar | proxy.go:240 | a one-character separator is contained exactly when it is an element |
| Strs.Cut | accounting.go:72 | found exactly when the separator occurs; the parts rebuild the input around its first occurrence; otherwise all of it is `before` |
| Strs.CutAtFirst | accounting.go:83 | cutting at a character is decided by its first occurrence |
| Strs.CutSingleBefore | accounting.go:83-86 | a one-character cut succeeds exactly when the character occurs, and the part before it never holds it |
| Strs.IndexByte | proxy.go:241 | the first position of a character, with none before it |
| Strs.LastIndexByte | proxy.go:241 | the last position of a character, with none after it |
| Base64.StripNewlines | accounting.go:77 | the decoder's input with CR and LF removed; text without them is unchanged |
| Base64.StripNewlinesAppend | accounting.go:77 | stripping distributes over concatenation, so every other character survives in order |
| Base64.StripNewlinesChar | accounting.go:77 | CR and LF are dropped, every other character kept |
| Base64.Decode | accounting.go:77-81 | success needs whole quanta once CR and LF are skipped, and yields at most three bytes per four characters |
| Base64.DecodeSkipsNewline | accounting.go:77-81 | a CR or LF anywhere in the input leaves the decoded result unchanged |
| Base64.DecodeQuantumRejects | accounting.go:77-81 | a quantum holding a character outside the alphabet, other than `=`, does not decode |
| Base64.DecodeQuantaRejects | accounting.go:77-81 | such a character anywhere in the filtered text makes decoding fail |
| Base64.DecodeRejectsForeign | accounting.go:77-81 | any character outside the alphabet other than `=`, CR and LF, anywhere in the input, makes decoding fail |
| Base64.DecodeQuantum | accounting.go:77-78 | a quantum gives one to three bytes, and fewer than three only when it is the last |
| Base64.DecodeQuanta | accounting.go:77-78 | decoding succeeds only on whole quanta and yields three bytes per quantum, less up to two |
| Base64.Encode | accounting.go:77 | the padded encoding has four characters per started triple, all from the alphabet or `=` |
| Base64.DecodeEncode | accounting.go:77-78 | decoding undoes encoding for every byte sequence |

## Left out

- The proxy's accept loop, close signal, WaitGroup, `serve`/`close` and
  per-connection goroutines (`proxy.go:67-144`). They are concurrency and
  lifecycle.
- The atomicity of the counters: they are a plain array under sequential
  execution. Interleaving between goroutines is not modelled.
- Network and HTTP I/O: `net.Dial`, `http.ReadRequest`/`ReadResponse`,
  request and response serialisation and cookie copying in `httpHandler`
  and `httpsHandler`, and the `200 Connection Established` response. These
  are library calls over sockets. A parsed request enters `Handle` as a
  value, and its header names are assumed already in canonical form.
- The order in which a tunnel's two directions finish is nondeterministic.
  It enters `TunnelResult` as a parameter.
- The nil dereference in `handle` after a failed `ReadRequest`: it is a
  runtime panic, not a contract.
- `main.go`, an older draft whose helpers repeat those of `proxy.go`, and
  `loadConfig` (file I/O and JSON decoding). Only the `UserConfig` record is
  modelled.
- Logging.
- `Accounting.AccountingHandler.SendDownstream`: the counter is an
  unbounded integer, so int64 overflow of `counter.Add` is not modelled.
- `Base64.Decode`: the whole filtered text is decoded as one block. The
  streaming decoder's chunk boundaries and the error's byte offset are not
  modelled.
- `Streams.Copy`: only the generic loop of `io.Copy` (32 KiB buffer) is
  modelled. The `WriterTo`/`ReaderFrom` shortcuts that concrete network
  types may take are not.
- Peers are finite scripts, so a writer that never takes a byte and never
  fails forever is not modelled. It would keep the inner write loop of
  `copyAndAccount` going.
- `Proxy.SplitHostPort`: the error messages of Go's `net.SplitHostPort`
  are not modelled; a failure is `None`.
