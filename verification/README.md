# A verified model of the Console's protocols and transformations

The Console talks to its engine over a hand-written binary protocol, keeps a few bounded stores of its
own, runs small loopback services in a sidecar, and turns what operators author into what the engine
signs. This project models the parts of that where a mistake is hardest to see, and proves what they
promise. All of it is Dafny 4.11; `dafny verify dfyconfig.toml` checks it.

| modules | what they model |
|---|---|
| `Bytes`, `Utf8`, `Doubles`, `Halves`, `Decimal`, `Semver` | byte strings, big-endian numbers, UTF-8, double- and half-precision numbers, numerals, versions |
| `Cbor`, `CborRoundTrip`, `CborDecode`, `CborWire`, `CborCodec` | the CBOR codec: its functions, its laws, its bytes head by head, and the writer and reader that compute it in place |
| `Frame`, `Transport`, `Protocol`, `Dialogue` | 16-byte frame headers, reassembly and first-come pairing, handshake and one-in-flight calls over byte pipes, what callers asked for against what is sent |
| `LineServer`, `SecretFile`, `Registry` | the sidecar's bounded line readers, the atomic secret file, the tunnel registry |
| `Cache`, `ZoneReads`, `ZoneCache`, `Login`, `LoginLife` | the ephemeral cache, cached zone reads against zone writes, device login and how long logins and sessions live |
| `Policies`, `Forge`, `Lists` | a policy draft to the wire and back, and policies to a signed bundle |
| `ModelAccess`, `Spend`, `Listing` | spend rows to per-agent, per-day totals |
| `Classifier` | the destination classifier |

State that the source updates in place (`Writer`, `Reader`, `StreamFrameTransport`, `BufferedReader`,
`SecretDir`, `SessionRegistry`, `EphemeralCache`, `TtlStore`, `Carrier`) is a class whose methods are
proved equal to a function on values; the laws are then lemmas about that function. Concurrency is a
state machine: each `await` is a point where any other action may come next, and the lemmas named
`EveryRun`, `RunKeeps` or `KthReceive` speak of every sequence of actions.

## Where the code and its promises differ

- A text that begins with U+FEFF loses it on decoding (the decoder does not ask to keep it), so the
  round trip holds exactly without such texts (`CborRoundTrip.RoundTrip`), decode-then-encode is not
  stable on a doubled mark (`CborDecode.DoubleBomIsNotStable`), and a policy draft returns unchanged
  exactly when no free text begins with one, its whole times fit 64 bits and none is -0
  (`Policies.DraftReturns`).
- The codec's header comment lists byte strings in its subset, but a byte array is encoded as a record
  with index keys (`Cbor.EncodeIndexed`), so it does not survive a round trip.
- An integer of 2^64 or more keeps its low 64 bits. A decoded float that is an integer is written again
  as one, so a float of 2^64 comes back as 0 (`CborDecode.WideIntegerIsNotStable`) and -0 as 0
  (`CborDecode.NegativeZeroIsNotStable`). A half or single float that is no small integer grows when
  written again (`CborDecode.FitsWidthExactly`, `CborDecode.SingleFloatGrows`).
- A record key `__proto__` sets the prototype instead of a property
  (`CborRoundTrip.FirstProtoIsNoProperty`). After `__proto__: null` a second one
  becomes a property, and is lost by writing and reading the record again
  (`CborDecode.RepeatedProtoIsNotStable`).
- A cache bound of zero still keeps one entry (`Cache.BoundIsKept`).
- "The operator must never be shown a pre-write tree" fails when a read takes its engine snapshot before
  a write and stores it after that write's invalidation: `ZoneReads.StaleReadHappens` builds such a run,
  `ZoneReads.FreshExactly` proves that this is exactly when anything stale is stored or answered.
- "Never served across tenants" and "a write must never evict another tenant's cache" fail for tenants such
  as `a` and `a:detail`, which a global admin can name in a header: `ZoneReads.TenantsStayExactly` proves that
  both hold exactly when no tenant's key prefix is a prefix of another's, and
  `ZoneReads.ColonFreeSeparate` that tenants without a colon are safe.
- The two line readers treat a short unterminated tail differently: one refuses it, the other answers it
  (`LineServer.ReadersAgree`).
- A login mints two sessions exactly when two of its polls are completed and verified
  (`Login.MintsTwiceExactly`); every live login can, if the provider completes its code for two
  overlapping polls (`Login.LiveLoginCanMintTwice`).
- The classifier's documentation puts local and private addresses before data-store ports; the code
  decides by a data-store port first (`Classifier.StorePortDecides`, `Classifier.LocalIsPrivateExactly`).
- A spend row for a day after the last date JavaScript can name makes the model-access view throw rather
  than be refused (`ModelAccess.ToModelAccessView`).

## Model

| member | source | states |
|---|---|---|
| `Utf8.TextReadBack` | packages/wire/src/cbor.ts:16-19 | decoding encoded text gives the text without one leading byte order mark, for every text |
| `Utf8.EncodeDecodedScalars` | packages/wire/src/cbor.ts:16-19 | UTF-8 has one form: whatever decodes is the encoding of its result |
| `Utf8.CharForm` | packages/wire/src/cbor.ts:16-19 | every character is written as one to four bytes of the form RFC 3629 gives, which spell its value six bits at a time |
| `Doubles.IntegralIsExact` | packages/wire/src/cbor.ts:94-98 | which finite doubles are integers, and which ones: exactly those whose fraction equals one |
| `Halves.WidenedIsExact` | packages/wire/src/cbor.ts:246-254 | `decodeFloat16` is exact for all 65536 halves: the double it gives has the value the half's sign, exponent and mantissa denote, subnormals, infinities and NaN included |
| `CborCodec.Writer.Head` | packages/wire/src/cbor.ts:45-63 | the branches and shift loops append exactly the shortest head of the argument's low 64 bits |
| `CborCodec.Writer.EncodeInto` | packages/wire/src/cbor.ts:77-122 | appends the encoding of the value, integral numbers as integers, and changes nothing before it |
| `CborCodec.Writer.EncodeInt` | packages/wire/src/cbor.ts:124-127 | appends the major type 0 or 1 encoding of any integer |
| `CborCodec.EncodeValue` | packages/wire/src/cbor.ts:130-134 | `encode` computes the function the round-trip laws are about |
| `CborCodec.Reader.Arg` | packages/wire/src/cbor.ts:161-176 | reads the argument or fails exactly as parsing the unread bytes does, and moves the position to where that parse stops |
| `CborCodec.Reader.Simple` | packages/wire/src/cbor.ts:186-204 | the same for simple values and floats |
| `CborCodec.Reader.Read` | packages/wire/src/cbor.ts:206-239 | the recursive reader with its loops agrees with the parser on value, error and position, stays inside the buffer, and terminates for every declared length |
| `CborCodec.Reader.Entries` | packages/wire/src/cbor.ts:225-233 | the map loop assigns properties as JavaScript does on a record, prototypes and throwing assignments included |
| `CborCodec.DecodeBytes` | packages/wire/src/cbor.ts:257-262 | `decode` gives the parsed value, the parse error, or the trailing-bytes error |
| `CborRoundTrip.HeadReadBack` | packages/wire/src/cbor.ts:45-63 | every head is read back as its major type and low 64 bits, with what follows untouched |
| `CborRoundTrip.ItemReadBack` | packages/wire/src/cbor.ts:77-239 | for every value and every trailing bytes, reading the encoding gives the read-back of the value and stops exactly at the trailing bytes |
| `CborRoundTrip.AssignAllRebuilds` | packages/wire/src/cbor.ts:227-231 | assigning a record's properties in its own order rebuilds the record, index keys first included |
| `CborRoundTrip.PutOrdered` | packages/wire/src/cbor.ts:230 | property assignment keeps keys distinct and in property order |
| `CborRoundTrip.FirstProtoIsNoProperty` | packages/wire/src/cbor.ts:230 | the first `__proto__` assigned to a record adds and changes no property, and sets the prototype to the value if it is an object, to nothing if it is null, and otherwise leaves it |
| `CborRoundTrip.ReadBackFixed` | packages/wire/src/cbor.ts:77-239 | a value reads back as itself, unwrapped, if and only if it is in the domain: integers of 64 bits, no bare -0, no leading byte order mark, no byte arrays, standard prototypes and no `__proto__` key |
| `CborRoundTrip.RoundTrip` | packages/wire/src/cbor.ts:130-134 | `decode(encode(v))` never fails, and is `v` with its float wrappers removed if and only if `v` is in the domain |
| `CborRoundTrip.PrefixFree` | packages/wire/src/cbor.ts:77-122 | no encoding is a proper prefix of another, and on the domain encoding is injective on unwrapped values |
| `CborDecode.ItemSettled` | packages/wire/src/cbor.ts:186-239 | every decoded value is free of float wrappers, holds its numbers as they are, and has records with distinct keys in property order |
| `CborDecode.HeadShortest` | packages/wire/src/cbor.ts:44-63 | the written head is no longer than any head the reader accepts for that argument |
| `CborDecode.ItemSized` | packages/wire/src/cbor.ts:206-239 | an item has no more nodes than the bytes it was read from; read with text keys and no half or single float that would grow, its shortest encoding is no longer than those bytes |
| `CborDecode.NarrowAgrees` | packages/wire/src/cbor.ts:206-239 | whatever the reader limited to text keys and to half and single floats that do not grow accepts, the reader reads the same |
| `CborDecode.DecodedNodes` | packages/wire/src/cbor.ts:257-262 | a decoded value has no more nodes than the input has bytes |
| `CborDecode.Reencode` | packages/wire/src/cbor.ts:257-262 | re-encoding a decoded value gives bytes that decode to the same value if and only if the value is in the round-trip domain |
| `CborDecode.NeverLonger` | packages/wire/src/cbor.ts:44-63 | for every host: bytes with text keys and no half or single float that would grow, decoding to a value without byte arrays, are at least as long as what that value is written as |
| `CborDecode.FitsWidthExactly` | packages/wire/src/cbor.ts:94-98 | a half float does not grow if and only if it is an integer from -2^16 up to 2^16, a single float if and only if it is one from -2^32 up to 2^32 |
| `CborDecode.SingleFloatGrows` | packages/wire/src/cbor.ts:195-198 | the five bytes of the single float 2^40, which are written again as nine |
| `CborDecode.WideIntegerIsNotStable` | packages/wire/src/cbor.ts:94-98 | the bytes of the float 2^64, which come back as 0 |
| `CborDecode.NegativeZeroIsNotStable` | packages/wire/src/cbor.ts:94-98 | the bytes of -0, which come back as 0 |
| `CborDecode.RepeatedProtoIsNotStable` | packages/wire/src/cbor.ts:228-231 | a map with `__proto__` null and then 5, whose own `__proto__` property is lost |
| `CborDecode.DoubleBomIsNotStable` | packages/wire/src/cbor.ts:19 | a concrete text on which decode-then-encode is not a fixed point |
| `CborDecode.RoundingInvisible` | packages/wire/src/cbor.ts:178-180 | however the host rounds lengths above 2^53, every read gives the same value or the same error |
| `CborDecode.ItemSuffix` | packages/wire/src/cbor.ts:146-158 | what is left unread is a suffix of the input |
| `CborWire.IntegerIsRead` | packages/wire/src/cbor.ts:161-212 | whatever follows, initial bytes 00 to 1B and 20 to 3B read as the number their next 0, 1, 2, 4 or 8 bytes spell most significant first, or as -1 minus it |
| `CborWire.StringIsRead` | packages/wire/src/cbor.ts:153-218 | 40 to 5B read as the next bytes unchanged and 60 to 7B as the text they decode to; too few bytes and ill-formed text are refused |
| `CborWire.FloatIsRead` | packages/wire/src/cbor.ts:186-204 | F9, FA and FB followed by any 2, 4 or 8 bytes read as the number those bytes in that order denote, and leave what follows |
| `CborWire.FloatIsRefused` | packages/wire/src/cbor.ts:153-204 | a float whose bytes run out is the end-of-input error |
| `CborWire.HalfIsRead` | packages/wire/src/cbor.ts:195-196 | a half is read as the number `decodeFloat16` computes |
| `CborWire.SimpleIsRead` | packages/wire/src/cbor.ts:186-194 | F4, F5, F6 and F7 read as false, true, null and null |
| `CborWire.HeadIsRefused` | packages/wire/src/cbor.ts:161-237 | every other initial byte is refused by its own error: tags, other simple values, reserved and indefinite lengths, and heads cut short |
| `CborWire.PairIsRead` | packages/wire/src/cbor.ts:225-233 | a map key that is not text names its property as the host prints it, and one it cannot print is an error |
| `CborWire.PutSets` | packages/wire/src/cbor.ts:230 | assigning a property gives it the new value, adds no second one and changes no other, so of repeated keys the last value wins |
| `Frame.HeaderArray` | packages/wire/src/frame.ts:114-124 | the in-place writes give the header's 16 big-endian bytes |
| `Frame.EncodeFrame` | packages/wire/src/frame.ts:150-160 | the frame's bytes are its header with the payload's own length, then the payload |
| `Frame.HeaderReadBack` | packages/wire/src/frame.ts:114-147 | decoding an encoded header gives its fields cut to their widths, and refuses exactly an unknown flag or an oversized payload |
| `Frame.AcceptedHeader` | packages/wire/src/frame.ts:130-147 | an accepted header is in range and is the only header with those bytes |
| `Frame.HeaderLayout` | packages/wire/src/frame.ts:114-124 | the sixteen bytes one by one: version, type, stream id, flags, two zeros and payload length, most significant byte first |
| `Frame.HeaderRefusal` | packages/wire/src/frame.ts:130-147 | which bytes are refused and by which error, in order: fewer than sixteen, a non-zero reserved byte, a flag bit above the third, a length over the bound; all others are accepted |
| `Transport.ParseMore` | packages/wire/src/socket-transport.ts:47-67 | parsing chunk by chunk, keeping only the leftover, gives what parsing everything at once gives |
| `Transport.ParseFrames` | packages/wire/src/socket-transport.ts:55-67 | every list of valid frames is recovered from its concatenated bytes |
| `Transport.ParsedBytes` | packages/wire/src/socket-transport.ts:55-67 | parsed frames are valid and, with the leftover, are exactly the bytes received |
| `Transport.ParsePrefix` | packages/wire/src/socket-transport.ts:55-67 | any cut of a frame sequence yields its leading frames and a proper prefix of the next |
| `Transport.ParseStops` | packages/wire/src/socket-transport.ts:55-67 | parsing stops exactly on fewer than sixteen bytes, on a header that is refused, which it reports, or on a payload that is not all there |
| `Transport.StreamFrameTransport.OnData` | packages/wire/src/socket-transport.ts:47-67 | the parse loop hands out exactly the parsed frames in order and throws exactly on a refused header |
| `Transport.StreamFrameTransport.OnFailure` | packages/wire/src/socket-transport.ts:69-73 | the first failure rejects every waiter and later ones change nothing |
| `Transport.StreamFrameTransport.OnRecv` | packages/wire/src/socket-transport.ts:86-93 | a receive takes the queue's head, else the failure, else waits |
| `Transport.RunKeeps` | packages/wire/src/socket-transport.ts:47-93 | over every interleaving of chunks, receives and failures, frames and receives are paired in order, `ready` and `waiters` are never both non-empty, and after a failure nothing is pending |
| `Transport.KthReceive` | packages/wire/src/socket-transport.ts:47-93 | for every frame list, every cut into chunks and every interleaving, the k-th receive has exactly the k-th frame once it is complete and waits until then, and the buffer is a proper prefix of the next frame |
| `Transport.CallOutcome` | packages/wire/src/socket-transport.ts:86-93 | in every run, failures included, a receive gets the next frame if more are complete than were handed out, else the first failure, else it waits |
| `Transport.NoFrameIsLost` | packages/wire/src/socket-transport.ts:69-93 | frames complete when the stream fails are handed to the next receives, in order, before any of them is rejected |
| `Transport.FailureRejectsWaiters` | packages/wire/src/socket-transport.ts:69-73 | the first failure rejects every waiting receive with its cause and changes no other |
| `Transport.FirstCauseRejects` | packages/wire/src/socket-transport.ts:69-93 | in every run the failure kept, and that of every rejected receive, is the first one |
| `Transport.SettledStays` | packages/wire/src/socket-transport.ts:47-93 | a receive that has its frame or its rejection keeps it in every continuation |
| `Protocol.ReplyIsOwn` | packages/wire/src/dispatch.ts:175-187 | the frame an awaiting call receives is the engine's answer to that call's request |
| `Protocol.QuietBetweenCalls` | packages/wire/src/dispatch.ts:171-187 | between calls both pipes, the reassembly buffer and the ready queue are empty |
| `Protocol.StepKeeps` | packages/wire/src/handshake.ts:71-145 | every client, pipe, engine and failure step keeps the invariant on bytes in flight, counts and handshake order |
| `Protocol.EveryRun` | packages/wire/src/dispatch.ts:171-209 | in every run, stream failures included, each finished call has the reply to its own request, at most one frame is outstanding, nothing is left between calls, calls happen only after the handshake frames named one by one with their types and versions, every heartbeat gone past was answered by PONG, and a call is rejected only on a failed stream, where none stays pending |
| `Protocol.FailedCallEnds` | packages/wire/src/socket-transport.ts:69-93 | on a failed stream the awaiting call ends at its next step: rejected, or with the reply to its own request |
| `Protocol.EveryCallCanFinish` | packages/wire/src/dispatch.ts:171-187 | no call is ever stuck: from every reachable state in which one awaits its reply on an unfailed stream, pipes and engine can move so that it finishes |
| `Dialogue.RequestsAreCalls` | packages/wire/src/dispatch.ts:175-202 | in every run the frames sent after the handshake are exactly those of the accepted calls, in call order: each dispatch's own type and payload on stream 0 with END_STREAM at version 1.0, each heartbeat an empty PING; and the exchanges finish in that order |
| `Dialogue.CallSends` | packages/wire/src/dispatch.ts:175-202 | an accepted call puts exactly that frame on the pipe |
| `Dialogue.CallCanBeMade` | packages/wire/src/dispatch.ts:171-209 | from every state between calls of every run on an unfailed stream, any call can be made and finishes with the engine's reply to its own frame; a dispatch then leaves the client ready, a heartbeat exactly on PONG |
| `Dialogue.OpensExactly` | packages/wire/src/handshake.ts:71-145 | some run opens the connection if and only if the engine answers HELLO with READY or, on the agent plane, with a NEGOTIATE that decodes and then AUTHENTICATE at that version with READY |
| `Dialogue.LostNamesFirstFailure` | packages/wire/src/socket-transport.ts:69-93 | in every run a lost call carries the cause of the first failure of the stream |
| `LineServer.BufferedReader.ReadRequestLine` | sidecar/src/sign_service.rs:193-226 | for every buffering, reads one line of at most the cap, the end, or a refusal, as the unread bytes alone determine, and never holds more than the cap |
| `LineServer.ServedIsResponses` | sidecar/src/sign_service.rs:132-175 | serving a stream is answering its lines in order, skipping blank ones and stopping with one refusal at the first line over the cap or a tail |
| `LineServer.SplitExists` | sidecar/src/sign_service.rs:193-226 | every stream is some lines ended by a newline and a tail, so the law covers every stream |
| `LineServer.Serve` | sidecar/src/sign_service.rs:124-176 | the connection loop gives those responses whatever the buffer boundaries |
| `LineServer.ServeStream` | sidecar/src/secret_service.rs:125-149 | the same loop against the stream itself, for services with state |
| `LineServer.BufferedReader.ReadUntilNewline` | sidecar/src/session_service.rs:173-177 | the limited read takes up to a newline, the limit or the end, for every buffering |
| `LineServer.TakeServe` | sidecar/src/session_service.rs:164-208 | the second loop handles the requests its trace function names |
| `LineServer.FillBufTraces` | sidecar/src/sign_service.rs:132-175 | line by line: a line within the cap is answered if it has a byte that is not ASCII whitespace and skipped otherwise, the first line over the cap is refused and ends it, and so does a tail |
| `LineServer.TakeTraces` | sidecar/src/session_service.rs:164-208 | the same for the second reader, whose tail within the cap is one last request |
| `LineServer.ServedByTrace` | sidecar/src/sign_service.rs:132-175 | the responses are the answers to the answered lines, in order, with the state threaded through, and the refusal |
| `LineServer.ReadersAgree` | sidecar/src/session_service.rs:164-208 | the two readers accept, skip and refuse the same requests if and only if there is no short unterminated tail, or an oversized line comes before it |
| `SecretFile.SecretDir.WriteSecretFile` | sidecar/src/secret_service.rs:184-214 | with an error or stop at any step, the target is the new secret at mode 0640 if the write succeeded and is untouched otherwise, and a temp file never holds any of the secret at another mode |
| `SecretFile.SecretDir.HandleRequest` | sidecar/src/secret_service.rs:153-179 | a request that is not accepted writes nothing, and the answer tells what happened |
| `SecretFile.SecretDir.HandleAll` | sidecar/src/secret_service.rs:125-149 | a serial sequence of requests, across stops, leaves what the abstract cell says |
| `SecretFile.TargetIsWhole` | sidecar/src/secret_service.rs:181-214 | after any sequence of requests and faults the target is the old file or one complete accepted secret, that of the last rename that happened |
| `SecretFile.AnswerIsTrue` | sidecar/src/secret_service.rs:172-178 | `Ok` means the target holds the secret sent, `Refused` means it is unchanged |
| `SecretFile.AnswersExactly` | sidecar/src/secret_service.rs:153-179 | a request is answered `Ok` if and only if it parses, names the provider auth0, has a secret and meets no fault, and the target changes if and only if such a request got as far as the rename |
| `Registry.Drive` | sidecar/src/admin.rs:96-130 | interleaved tunnels driving the shared registry reach the states of the machine |
| `Registry.RunKeeps` | sidecar/src/admin.rs:109-125 | in every reachable state the registry is exactly the map from ports of registered open tunnels to their groups |
| `Registry.LookupNamesOwnSession` | sidecar/src/session_service.rs:71-92 | a lookup while a tunnel forwards names that tunnel's group, and dropping one guard leaves every other tunnel's entry |
| `Registry.AbsentMeansNoTunnel` | sidecar/src/session_service.rs:69-76 | a port is listed if and only if a registered tunnel is open on it |
| `Registry.ListedExactly` | sidecar/src/admin.rs:109-125 | from the history alone: a port is listed for a group if and only if a tunnel was connected on it for that group, then registered, and its guard has not been dropped since |
| `Cache.EphemeralCache.Get` | apps/bff/src/cache.ts:31-39 | a hit needs the key, the version and a live entry, and an outdated entry is dropped |
| `Cache.EphemeralCache.Set` | apps/bff/src/cache.ts:42-49 | replaces the key's entry at the end, evicting the oldest at capacity, and keeps the bound |
| `Cache.EphemeralCache.DeletePrefix` | apps/bff/src/cache.ts:56-60 | the deleting loop keeps exactly the entries whose key does not start with the prefix |
| `Cache.EntriesAreLastSets` | apps/bff/src/cache.ts:31-60 | in every run each entry is the last value set for its key, with no replacing set, matching deletion, clear or outdating read since |
| `Cache.LiveExactly` | apps/bff/src/cache.ts:31-60 | the live entries, those of an unbounded cache, are exactly the ones stored and not killed since |
| `Cache.RunIsYoungest` | apps/bff/src/cache.ts:41-49 | in every run the bounded cache holds the youngest of the live entries, in store order |
| `Cache.HoldsExactly` | apps/bff/src/cache.ts:31-60 | from the log alone, for every bound: an entry is held if and only if it was stored, has not been killed since, and at no later set did it and the younger live entries already number the room there is |
| `Cache.HitExactly` | apps/bff/src/cache.ts:27-39 | a read hits with a value if and only if such an entry of that key, version and value has not expired |
| `Cache.HitIsLastSet` | apps/bff/src/cache.ts:27-39 | a hit is the last value set, at that version, less than one TTL ago |
| `Cache.BoundIsKept` | apps/bff/src/cache.ts:42-49 | the size bound holds in every run if and only if it is at least one |
| `Cache.RunByExpiry` | apps/bff/src/cache.ts:41-49 | with a clock that never runs backwards, insertion order is expiry order |
| `Cache.EvictedExpiresFirst` | apps/bff/src/cache.ts:44-47 | an entry lost without being killed was evicted by a set at capacity, and expires no later than anything left |
| `ZoneReads.KeysMeetExactly` | apps/bff/src/server.ts:818-821 | for any two tenants, some view of one has the cache key of some view of the other if and only if one tenant's prefix is a prefix of the other's |
| `ZoneReads.AnswersStayExactly` | apps/bff/src/server.ts:813-845 | for any set of tenants and views: in every run each answer is a view of the asking tenant if and only if no two of the tenants share a key; otherwise there is a run that answers one with the other's view |
| `ZoneReads.WritesStayExactly` | apps/bff/src/server.ts:860-867 | for any set of tenants and views: in every run each invalidation drops exactly its own tenant's zone views if and only if no tenant's prefix begins another's key |
| `ZoneReads.TenantsStayExactly` | apps/bff/src/server.ts:813-867 | both promises together hold in every run of a set of tenants, whatever non-empty set of views they ask for, if and only if no tenant's prefix is a prefix of another's |
| `ZoneReads.ColonFreeSeparate` | apps/bff/src/server.ts:865-867 | tenants whose names have no colon meet that condition |
| `ZoneReads.ColonTenantsCollide` | apps/bff/src/server.ts:818-821 | two tenants with colons whose keys coincide |
| `ZoneReads.EveryRun` | apps/bff/src/server.ts:813-845 | in every interleaving of reads and writes of any tenants, a cached view is one its key names at a commit that happened, and every answer came from the engine or was stored less than one TTL before |
| `ZoneReads.InvalidationIsExact` | apps/bff/src/server.ts:1077-1078 | among tenants none of whose prefixes begins another's key, an invalidation removes exactly the zone entries of its own tenant (the condition is exact by `WritesStayExactly`) |
| `ZoneReads.FreshRun` | apps/bff/src/server.ts:860-864 | for any tenants: if no read stores a snapshot older than an acknowledged write, every answer with the asking tenant's view reflects every write acknowledged before it was asked for |
| `ZoneReads.FreshExactly` | apps/bff/src/server.ts:860-864 | for every run: nothing stored or answered is ever older than an acknowledged write if and only if no read is overtaken by one |
| `ZoneReads.OvertakenReadIsServedStale` | apps/bff/src/server.ts:840-845 | from any state, a read so overtaken makes the next ask stale: the condition is needed |
| `ZoneReads.StaleReadHappens` | apps/bff/src/server.ts:860-864 | for every tenant there is a run with a stale answer |
| `ZoneCache.EntriesAreCache` | apps/bff/src/server.ts:813-845 | in every run the cache is that of one operation per action: a read looks up its key, a read that comes back stores its view, a write that comes back drops its tenant's prefix, and nothing else, failures included, touches it |
| `ZoneCache.ReadHitsExactly` | apps/bff/src/server.ts:822-826 | a read is answered from the cache if and only if its key is held and has not expired, with the view held; otherwise it goes to the engine |
| `ZoneCache.SnapshotIsCount` | apps/bff/src/server.ts:840-845 | what a read has from the engine is its tenant's commits at the moment the engine answered it |
| `Login.TtlStore.Create` | apps/bff/src/auth/login-store.ts:40-54 | stores under a fresh id, evicting the oldest at capacity |
| `Login.TtlStore.Get` | apps/bff/src/auth/session.ts:80-88 | gives a live value and drops an expired one |
| `Login.TtlStore.Destroy` | apps/bff/src/auth/session.ts:91-93 | removes exactly that id |
| `Login.StepKeeps` | apps/bff/src/auth/router.ts:116-211 | every login, poll step, logout and tick keeps the invariant on the log, the stores and the polls between their awaits |
| `Login.EveryRun` | apps/bff/src/auth/router.ts:139-205 | in every interleaving each session was minted by a poll that began while its login was live, was then completed, and then verified to its identity; and a finished login starts no further poll |
| `Login.EndedLoginStartsNoPoll` | apps/bff/src/auth/router.ts:158-193 | once a poll's login has ended, by a provider error or any verdict on its token, no poll of it begins in any continuation |
| `Login.OneSessionPerLogin` | apps/bff/src/auth/router.ts:152-193 | if the provider completes each device code at most once, each login mints at most one session |
| `Login.TwinVerdictsMintTwice` | apps/bff/src/auth/router.ts:172-193 | in every state with two polls of one login awaiting verdicts, two identities mint two sessions for it |
| `Login.LiveLoginCanMintTwice` | apps/bff/src/auth/router.ts:152-193 | from every run, every live login has a continuation in which it mints two sessions |
| `Login.NewLoginIsLive` | apps/bff/src/auth/router.ts:126-130 | after any run, a login just created under a fresh id with a positive lifetime is live, so such logins exist |
| `Login.MintsTwiceExactly` | apps/bff/src/auth/router.ts:152-193 | in every run a login mints twice if and only if two of its polls were completed and verified to an identity |
| `LoginLife.StoresAreCaches` | apps/bff/src/auth/router.ts:116-205 | in every run the two stores are the caches of one operation per action; a poll that is still pending does nothing to them |
| `LoginLife.PollFindsExactly` | apps/bff/src/auth/router.ts:126-193 | from the actions alone: a poll finds its login if and only if the login was created, has not expired, none of its polls has failed or been verified, and no later login was created when it and the newer open ones filled the store |
| `LoginLife.SessionResolvesExactly` | apps/bff/src/auth/router.ts:107-211 | a session id resolves to an identity if and only if a verdict minted it for that identity less than one session lifetime ago, it has not been logged out, and newer sessions have not filled the store |
| `Policies.ToWirePolicySpec` | packages/contracts/src/policies.ts:425-476 | the spec carries the draft field by field, with empty axes and null times left out |
| `Policies.PolicySpecToCbor` | packages/wire/src/payload.ts:929-958 | the assigned record has every field of the spec under the engine's name for it, nested rules, members and default postures included, in the engine's field order |
| `Policies.SpecIsNamed` | packages/wire/src/payload.ts:900-958 | the same of the record as a function of the spec, name by name |
| `Policies.AssignFields` | packages/wire/src/payload.ts:929-958 | assigning distinct names one by one gives a record of exactly the present fields, in order |
| `Policies.ToPolicyRow` | packages/contracts/src/policies.ts:320-365 | fail closed: a row if and only if the lifecycle is draft or published and every other tag is in its named set, and then the row shows the record field by field with the omitted axes restored |
| `Policies.RowExactly` | packages/contracts/src/policies.ts:320-365 | the same of the projection the bundle is built from |
| `Policies.RuleReturns` | packages/wire/src/payload.ts:900-910 | every wire rule survives the record, the codec and the read by name, up to leading byte order marks |
| `Policies.SpecReturns` | packages/wire/src/payload.ts:929-958 | every spec with no present-but-empty axis does too |
| `Policies.AuthoredReturns` | packages/contracts/src/policies.ts:343-365 | restoring undoes leaving out, for every typed draft |
| `Policies.DraftFixed` | packages/contracts/src/policies.ts:425-476 | the draft that returns is the draft sent if and only if its whole times fit 64 bits, no time is -0 and no free text begins with a byte order mark |
| `Policies.DraftReturns` | packages/contracts/src/policies.ts:320-476 | for every draft, with whole, fractional or no times, compile, encode, decode and project gives a row; its authored fields equal the draft under exactly that condition |
| `Semver.ParseExact` | packages/contracts/src/forge.ts:190-194 | a version parses if and only if it is three dotted numbers |
| `Semver.SemverReads` | packages/contracts/src/forge.ts:190-194 | three dotted numerals read as major, minor and patch, in this order |
| `Semver.PrintParse` | packages/contracts/src/forge.ts:190-194 | a printed version parses to itself |
| `Forge.ComposeBundleRules` | packages/contracts/src/forge.ts:216-243 | the nested loops compute the composition, stopping at a version that does not parse |
| `Forge.ComposeFails` | packages/contracts/src/forge.ts:219-223 | composition fails if and only if some version is not three dotted numbers |
| `Forge.ComposeConcat` | packages/contracts/src/forge.ts:216-243 | composing a concatenation is the concatenation of the compositions |
| `Forge.RuleAt` | packages/contracts/src/forge.ts:225-240 | rule j of policy i is the flat rule at that policy's offset plus j, field by field |
| `Forge.RulesKeepOrder` | packages/contracts/src/forge.ts:198-243 | flat rules are in policy order, then rule order, and no two pairs share a place |
| `Forge.RuleOrigin` | packages/contracts/src/forge.ts:224-240 | every flat rule comes, field by field, from a policy's rule and names that policy's contributor entry |
| `Forge.OpenNeedsPermit` | packages/contracts/src/forge.ts:148-161 | ordinary internet opens if and only if the last posture listed for it is the explicit permit |
| `Forge.AllOrNothing` | apps/bff/src/engine/distribute.ts:122-149 | there is a draft if and only if every effective record has known tags and a version of three numbers, and then it carries all of them |
| `Forge.RefusedExactly` | apps/bff/src/engine/distribute.ts:113-149 | which refusal: an unknown zone, then a record with an unknown tag, then a version that is not three numbers, each if and only if |
| `Forge.BundleCarries` | apps/bff/src/engine/distribute.ts:125-149 | from the engine's record to the signed rule: rule j of record i is in the draft after all rules of the records before it, with every field that record gives it, and the record is its contributor |
| `Forge.Carrier.Distribute` | apps/bff/src/engine/distribute.ts:106-169 | commits one signed bundle over that draft, or changes nothing and says why, a refusing signer or engine included |
| `ModelAccess.ParseDoorExact` | packages/contracts/src/model-access.ts:107-118 | a session that reads as an agent-door session in some way parses to that agent and day |
| `ModelAccess.ParseDoorSound` | packages/contracts/src/model-access.ts:107-118 | whatever parses is such a session |
| `ModelAccess.PrintParse` | packages/contracts/src/model-access.ts:107-118 | a printed session parses to its agent and day if and only if the agent is non-empty and on one line, even when it contains `:d` and digits |
| `ModelAccess.Gather` | packages/contracts/src/model-access.ts:200-226 | the loop tallies exactly the agents and days of the rows with their totals, keeps other rows in order, and stops exactly on a day without a date |
| `ModelAccess.CollectGrants` | packages/contracts/src/model-access.ts:192-199 | the last grant listed for an agent wins, and an unknown classification refuses |
| `ModelAccess.ToModelAccessView` | packages/contracts/src/model-access.ts:160-243 | refused if and only if the reply is refused or a tag is unknown; otherwise each agent with a grant or spend appears once, by name, with each of its days once, newest first, and the totals of its rows |
| `ModelAccess.DoorSpendConserved` | packages/contracts/src/model-access.ts:214-225 | every column of the agent-door rows equals its sum over all agents and days of the view |
| `ModelAccess.SpendConserved` | packages/contracts/src/model-access.ts:200-226 | calls and cost of all agent-days and other spend together equal those of the wire rows |
| `ModelAccess.ColumnsConserved` | packages/contracts/src/model-access.ts:214-225 | every column, tokens included, summed over the view equals its sum over the wire's agent-door rows |
| `ModelAccess.ShownTotalsAreRows` | packages/contracts/src/model-access.ts:216-224 | each total shown is the sum of its named wire fields over the rows of that agent and day |
| `ModelAccess.DaysNewestFirst` | packages/contracts/src/model-access.ts:237 | days descend, and each has a row |
| `ModelAccess.LastGrantExactly` | packages/contracts/src/model-access.ts:192-199 | the grant shown is the last listed for the agent, list by list |
| `ModelAccess.AgentsIgnoreRowOrder` | packages/contracts/src/model-access.ts:200-238 | the agents of the view are the same for every order of the spend rows |
| `Listing.AscendingIsUnique` | packages/contracts/src/model-access.ts:227-238 | a set has one ascending listing, so the sorts determine the view |
| `Listing.NameLessExactly` | packages/contracts/src/model-access.ts:227 | names sort as JavaScript strings do: a proper prefix first, else by the first differing character in UTF-16 order |
| `Listing.RankIsByUnits` | packages/contracts/src/model-access.ts:227 | that order of characters is by first and then second code unit |
| `Classifier.BrandOf` | apps/bff/src/engine/destination-classifier.ts:114-127 | the loop computes the search function |
| `Classifier.BrandIsLongest` | apps/bff/src/engine/destination-classifier.ts:113-127 | the search finds the first of the longest suffixes matching at a label boundary, and nothing only if none matches |
| `Classifier.OrderMatters` | apps/bff/src/engine/destination-classifier.ts:114-127 | a table with two different rules for one suffix has an order that changes an answer |
| `Classifier.OrderFreeExactly` | apps/bff/src/engine/destination-classifier.ts:46-51 | the answers are independent of table order if and only if rules with one suffix are one rule |
| `Classifier.ShippedTableIsConsistent` | apps/bff/src/engine/destination-classifier.ts:51-90 | the shipped table meets that condition |
| `Classifier.SplitReads` | apps/bff/src/engine/destination-classifier.ts:92-99 | an IPv4 address and port are split back into themselves |
| `Classifier.StorePortDecides` | apps/bff/src/engine/destination-classifier.ts:160-163 | a data-store port names the destination on any IPv4 address, local and private ones included |
| `Classifier.LocalIsPrivateExactly` | apps/bff/src/engine/destination-classifier.ts:160-174 | a metadata, loopback or private IPv4 endpoint is a private app if and only if its port is no data store's |
| `Classifier.BrandOutranksAppPort` | apps/bff/src/engine/destination-classifier.ts:176-180 | on a public address the brand found in any order of a consistent table outranks a private-app port |
| `Classifier.PortIsNoise` | apps/bff/src/engine/destination-classifier.ts:156-190 | on a port in neither table every IPv4 endpoint classifies as its bare address does, whatever its name |
| `Classifier.PortIsNoiseExactly` | apps/bff/src/engine/destination-classifier.ts:156-190 | for an unresolved public address that holds if and only if the port is in neither table |
| `Classifier.PrivateExactly` | apps/bff/src/engine/destination-classifier.ts:101-111 | by number: an address is private if and only if it is in 10/8, 127/8, 172.16/12, 192.168/16 or 169.254/16 |
| `Classifier.PublicExactly` | apps/bff/src/engine/destination-classifier.ts:164-170 | and public if and only if it is in none of them |
| `Classifier.PortsAreNamed` | apps/bff/src/engine/destination-classifier.ts:25-44 | the ports of the two tables and their names |
| `Classifier.NameIsShown` | apps/bff/src/engine/destination-classifier.ts:128-150 | a name is shown as the label before its public suffix, two labels wide after co, com, net, org, ac and gov, with its first letter raised |
| `Classifier.EndpointExactly` | apps/bff/src/engine/destination-classifier.ts:156-190 | the whole decision for every IPv4 endpoint and name, in the source's order with its categories and fallbacks |
| `Classifier.AddressExactly` | apps/bff/src/engine/destination-classifier.ts:156-190 | and for every bare IPv4 address |

## Left out

- Lone surrogates in JavaScript strings: text is a sequence of Unicode scalar values.
- Floats are 8-byte patterns, and every NaN is one NaN. The widening of single floats, the host's use of `Halves.Widened` for half ones, `Number` of a 64-bit length, `String` of a map key that is not text, and the names a byte array guards as a prototype are parameters of the decoder; of the second only exactness up to 2^53 is used.
- Decoded integers are mathematical integers: whether JavaScript holds one as a number or a bigint is not modelled, so an integral float beyond 2^53 that is written again and comes back as a bigint counts as the same value. Sums and versions are exact where JavaScript rounds above 2^53.
- Inputs longer than 2^53 bytes, and the call-stack depth of nested CBOR items.
- Data arriving after a refused frame header: `Transport.StreamFrameTransport.OnData` reports the refusal, and what the stream does with the thrown error is not part of this model.
- A READY payload that does not decode after a single-trip handshake, and calls made on a connection after one of its calls has failed.
- The HELLO payload, the profile decoded from NEGOTIATE and the engine are parameters; the opcode table, request payloads other than a policy spec and reply decoding are left out as finite case tables.
- TLS, bundle signing, token verification and JSON parsing are uninterpreted functions; socket read and write errors end a connection and are left out of the line servers.
- Concurrent secret writers, directory fsync and power loss; a process stop keeps what the file system already has. A secret path without a parent or a name is left out.
- Lock poisoning of the tunnel registry, and terminators run without a registry.
- Random ids and device codes are new when drawn, and open connections have distinct local ports: the machines step only then.
- The HTTP handlers around the cached reads and the login: session checks, status codes, cookies, and reading the request body.
- The request envelope around a spec; the form parser `toPolicyDraftInput`; and engine replies of another shape than their declared type, which the TypeScript code casts without a check.
- The fields of the endpoint policy that are constants, the list of domains a bundle cannot express, and the convergence view.
- The date text of a day, the catalogue columns copied from the wire, and the grant-change requests.
- String case, trimming and `Number` of an address label are parameters of the classifier.
- React surfaces, configuration, routing tables and access-control maps: static data or one-step projections.
