# ws-net: a verified model

ws-net carries TCP and HTTP connections from an access client through encrypted WebSocket tunnels to a gateway. This
project models its stateful core and proves what each part promises. Every property is about all inputs, all runs of a
state machine, or all reachable states; a concrete run is given where a natural expectation turns out false.

Code that updates state in place is a class whose methods are proved against functions on values; what the source
promises is then proved about those functions. Code that runs as several tasks is a state machine whose steps may
interleave in any order; its invariant is proved for each step and lifted to whole runs.

| module | what it models |
|---|---|
| `AccessRules`, `GatewayConfig` | access rules and when one list covers another; gateway configuration and the credential table |
| `SessionAuthority`, `SessionRuntime`, `SessionRuns`, `SignalReasons` | who may register, takeover by another instance, reload with its election, two-phase target authorisation: the specification, the class that implements it, and whole runs |
| `DataFrames`, `WriteBatch` | data frames, merging, filling a frame from a socket; the writer's batches |
| `TunnelCipher`, `TunnelPipeline`, `TunnelQueue`, `TunnelProgress` | sealing and opening frames in place under a symbolic AEAD; one direction of the tunnel from queue to dispatch over a hostile wire; that direction as a queue; what it can still deliver |
| `StreamTables`, `HalfClose`, `RelayProgress`, `StreamTeardown`, `Wakeup` | stream tasks and their cancellation; one TCP stream with half-close both ways, how it can be completed and who is told of its end; waiting for a flag without losing the wakeup |
| `IdentityBlocking`, `ConnectionWaiters` | blocking an identity against opening connections; waiters against closing connections |
| `AccessRouting`, `ConnectionPool`, `ConfigReload` | which gateway a listener reaches; which connection of a pool; reload of the access configuration |

`dafny verify dfyconfig.toml` verifies the whole project.

## Where the code differs from what one might expect

Each of these is kept as the code has it, shown by a concrete case, and bounded by an exact statement beside it.

- The 256 KiB batch limit is not the bound: merging skips the check, and a batch can reach 320 KiB
  (`WriteBatch.BatchLimitIsOvershot`, `WriteBatch.OrdinaryTrafficOvershoots`, `WriteBatch.BatchBound`). Frames without
  data would even keep the fill loop busy for as long as they come, and nothing else would
  (`WriteBatch.EmptyFramesNeverFill`, `WriteBatch.FillConsumptionBound`).
- The pool scan adds the counter and the offset in 64 bits. Where the counter wraps inside the scan and the pool size
  does not divide 2^64, one connection is left out, and a closed connection can be chosen although another is open
  (`ConnectionPool.ScanCoversExactly`, `ConnectionPool.WrappedScanCanChooseClosed`). A debug build would stop at the
  overflow; the model follows the wrapping build.
- The reload test on rules is containment, except where `IP:*` is replaced by one rule for each of its ports
  (`AccessRules.ListCoversIsContainment`, `AccessRules.EnumeratedPortsFailTheTest`).
- An ending TCP task removes the stream's sender even if it is a newer task's; only fresh stream ids prevent it
  (`StreamTables.UnregisterSparesOthers`, `StreamTables.ReusedIdLosesTheSender`).
- Half-close is not symmetric: a broken target connection reaches the local peer as an orderly end of stream, and if the
  read that failed had already taken bytes, they are lost (`HalfClose.BrokenTargetLooksLikeEof`,
  `HalfClose.DownstreamHalfCloseIsComplete`, `DataFrames.FailingReadLoses`).
- A listener that stops aborts its handlers, which then send no Close. Where the tunnel lives on, the gateway's task stays
  until the next data of its target (`StreamTeardown.AbortLeavesTheTask`, `StreamTeardown.NobodyIsLeftWaiting`).
- The check before the name lookup lets calls go on that no answer could let through: those of users whose rules are all
  for other ports (`SessionAuthority.EarlyRefusalIsExact`).
- A stopped connection can still open between the checks and the store; a blocked one cannot
  (`IdentityBlocking.StoppedConnectionCanOpen`, `IdentityBlocking.StoppedOpensExactly`,
  `IdentityBlocking.BlockedForGood`).
- Registration overwrites a signal, reload does not; so a session's reason to stop may change, but not that it must
  (`SignalReasons.ReasonCanChange`, `SessionAuthority.ReloadReasons`, `SessionRuns.SignalledForGood`).

## Model

| member | source | states |
|---|---|---|
| `AccessRules.CoveringKeepsAccess` | crates/ws-net-common/src/config.rs:103-124 | If every old rule is covered by some new rule, every address the old list allows the new list allows (all ports). |
| `AccessRules.ListCoversItself` | crates/ws-net-common/src/config.rs:112-124 | Every rule list covers itself. |
| `AccessRules.ReachesExactly` | crates/ws-net-common/src/config.rs:102-125 | A list reaches everything one rule reaches if and only if one of its rules covers that rule, or the rule is `IP:*` and the list spells out all of its 65535 ports (for lists of any 64-bit length). |
| `AccessRules.UncoveredRuleLosesReach` | crates/ws-net-common/src/config.rs:112-124 | A rule that is neither covered nor spelled out port by port has a target the list does not allow. |
| `AccessRules.ListCoversIsContainment` | crates/ws-net-gateway/src/app.rs:316-321 | The reload test on rules is exact: for new lists of fewer than 65535 rules it passes if and only if no target is lost; for longer ones the only difference is an `IP:*` rule replaced by all its ports. |
| `AccessRules.EnumeratedPortsFailTheTest` | crates/ws-net-gateway/src/app.rs:316-321 | That difference is real: replacing `IP:*` by its 65535 single-port rules loses no target but fails the test. |
| `GatewayConfig.AnyPrevious` | crates/ws-net-common/src/config.rs:266-277 | Whether an earlier user has the same name, and whether one has the same token, both directions. |
| `GatewayConfig.Validate` | crates/ws-net-common/src/config.rs:247-282 | The checks in order accept exactly the configurations with a usable shared token, listen address and path, valid users, and pairwise different names and tokens. |
| `GatewayConfig.ValidExactly` | crates/ws-net-common/src/config.rs:127-132 | What validation comes to, by the texts: some character of the shared token and of each name and token is not white space, the path begins with / and has neither ? nor #, no name has a control character, names and tokens differ. |
| `GatewayConfig.Credentials` | crates/ws-net-gateway/src/app.rs:109-141 | Building the table succeeds exactly for valid configurations without a credential-id collision, and gives one entry for each user under the hash of that user's token, or only the shared entry. |
| `GatewayConfig.CredentialTableUnique` | crates/ws-net-gateway/src/app.rs:109-141 | A configuration determines its credential table. |
| `GatewayConfig.CredentialTableSound` | crates/ws-net-gateway/src/app.rs:109-141 | Every entry is filed under the hash of its own token, no user entry holds the shared token, and names are unique. |
| `GatewayConfig.UserEntryHolds` | crates/ws-net-gateway/src/app.rs:112-128 | With users on, the entry of each user has the user's token, name and rules, and is single-access exactly if the user's own setting says so or, where there is none, the common one does (config.rs:48-50). |
| `GatewayConfig.SharedEntryHolds` | crates/ws-net-gateway/src/app.rs:129-139 | With users off there is one entry, for the shared token, not single-access, that allows every address. |
| `SessionAuthority.RegistersExactly` | crates/ws-net-gateway/src/app.rs:198-221 | A registration is admitted under an id if and only if the gateway token is right, the instance id is well formed and not retired, and the id is that of a current user's token (or of the shared token when users are off; legacy peers only then). |
| `SessionAuthority.RefusedRegistrationsAreTold` | crates/ws-net-gateway/src/app.rs:198-221 | A refusal is Replaced exactly for a holder of the right tokens with a proper, retired instance, and Unauthorized for everyone else. |
| `SessionAuthority.ValidIdsAreHex` | crates/ws-net-common/src/tunnel_crypto.rs:30-67 | The instance ids let through are exactly the hexadecimal texts of 32 bytes, in either case; so every id made by `random_id` is one. |
| `SessionAuthority.RegistrationTakesOver` | crates/ws-net-gateway/src/app.rs:222-255 | What an admitted registration does to every session, every order and every retired instance, single-access or not, and to nobody else. |
| `SessionAuthority.RegisterKeepsInv` | crates/ws-net-gateway/src/app.rs:218-266 | Registration keeps the invariant: orders injective and bounded by the counter, retired instances known, live sessions filed, not retired and, where single-access, alone. |
| `SessionAuthority.SingleAccessIsExclusive` | crates/ws-net-gateway/src/app.rs:222-237 | Two live sessions of a single-access credential belong to one instance. |
| `SessionAuthority.ElectionIsUnique` | crates/ws-net-gateway/src/app.rs:282-297 | Only one instance can hold the highest order among the live sessions of a credential. |
| `SessionAuthority.WinnersAreUnique` | crates/ws-net-gateway/src/app.rs:282-297 | Any two counts, in whatever order the session map is visited, give the same winners. |
| `SessionAuthority.ElectionDecides` | crates/ws-net-gateway/src/app.rs:282-297 | There always is a complete set of winners. |
| `SessionAuthority.ReloadSurvivors` | crates/ws-net-gateway/src/app.rs:307-340 | A session is live after a reload if and only if it was live, the gateway token stayed, its user kept its name and reach, and its instance won where the credential is now single-access. |
| `SessionAuthority.NewestInstanceWins` | crates/ws-net-gateway/src/app.rs:238-297 | A reload right after a new instance registered stops its session only for its user's name or reach, never for another instance, and stops every other instance where the credential is single-access. |
| `SessionAuthority.ReloadReasons` | crates/ws-net-gateway/src/app.rs:307-340 | A session stopped by a reload is told Replaced exactly when only the election went against it and Changed otherwise; an earlier signal stands; nothing else of a session changes. |
| `SessionAuthority.ReloadBars` | crates/ws-net-gateway/src/app.rs:298-306 | With the gateway token unchanged a reload retires exactly the known instances that lost an election, keeps all orders and the counter. |
| `SessionAuthority.ReloadKeepsInv` | crates/ws-net-gateway/src/app.rs:268-344 | Reload keeps the invariant, also across a gateway-token change that clears the history. |
| `SessionAuthority.ReloadOfCurrentIsNoop` | crates/ws-net-gateway/src/app.rs:268-344 | Reloading the configuration in force changes nothing at all. |
| `SessionAuthority.DropKeepsInv` | crates/ws-net-gateway/src/app.rs:67-77 | Dropping a lease keeps the invariant. |
| `SessionAuthority.DropTakesOne` | crates/ws-net-gateway/src/app.rs:67-77 | A dropped session is gone, and every other one stands as it was. |
| `SessionAuthority.EarlyRefusalIsFinal` | crates/ws-net-gateway/src/app.rs:351-365 | What the check before the name lookup refuses (port 0 aside), the check after it would refuse with the same error, whatever the lookup answers. |
| `SessionAuthority.EarlyRefusalIsExact` | crates/ws-net-gateway/src/app.rs:351-398 | The check before the name lookup refuses, port 0 aside, only calls no answer could let through; the hopeless calls it lets go on are exactly those of a live session whose user has rules, all of them for other ports. |
| `SessionAuthority.LookupSucceedsExactly` | crates/ws-net-gateway/src/app.rs:366-398 | Some answer of the lookup, all on the asked port, can be let through if and only if the session stands and one of its rules is `*`, `IP:*` or for that port. |
| `SessionAuthority.AuthorizedAddressesAreAllowed` | crates/ws-net-gateway/src/app.rs:385-398 | The second lock hands out exactly the resolved addresses today's rules allow, and fails exactly when there are none or the session is stopped or its user gone. |
| `SessionAuthority.AllowedInOrder` | crates/ws-net-gateway/src/app.rs:391-394 | The allowed addresses come in the order of the answers, each as often as there, none left out. |
| `SessionAuthority.LateRefusalsAreTold` | crates/ws-net-gateway/src/app.rs:385-397 | After the lookup the error is the session's own signal, Unauthorized for a vanished user, Forbidden where nothing is allowed. |
| `SessionAuthority.BootstrapLeadsToAdmission` | crates/ws-net-gateway/src/app.rs:166-221 | The tokens looked up for a handshake admit it under the id it asked for, unless its instance is retired. |
| `SessionAuthority.BootstrapExactly` | crates/ws-net-gateway/src/app.rs:166-187 | The lookup succeeds if and only if the gateway id belongs to the gateway token and, with users on, the user id to a current user's token; it yields exactly those tokens. |
| `SessionRuntime.Runtime.constructor` | crates/ws-net-gateway/src/app.rs:144-156 | A new runtime is valid, with no sessions, no history and a counter of zero. |
| `SessionRuntime.Runtime.BootstrapTokens` | crates/ws-net-gateway/src/app.rs:166-187 | Computes the specified lookup of the handshake's tokens. |
| `SessionRuntime.Runtime.Register` | crates/ws-net-gateway/src/app.rs:189-266 | In place: either fails with the first failing check's error and changes nothing, or moves the whole state to the specified one and returns a lease bound to the new entry's own signal; every other entry keeps its signal object. |
| `SessionRuntime.Runtime.Enroll` | crates/ws-net-gateway/src/app.rs:222-255 | The state-changing half of registration: takeover, order, new entry. |
| `SessionRuntime.Runtime.Kick` | crates/ws-net-gateway/src/app.rs:232-236 | The loop over the session map signals exactly the other instances of the credential, whatever the map order, overwriting an earlier signal. |
| `SessionRuntime.CollectOthers` | crates/ws-net-gateway/src/app.rs:223-228 | Collects exactly the known other instances of a credential. |
| `SessionRuntime.Runtime.OrderOf` | crates/ws-net-gateway/src/app.rs:238-245 | A known instance keeps its order; a new one gets the next number. |
| `SessionRuntime.Runtime.Reload` | crates/ws-net-gateway/src/app.rs:268-344 | Succeeds if and only if the configuration is loadable and keeps the gateway section; a failed reload changes nothing; a successful one moves the whole state to the specified one for the elected winners. |
| `SessionRuntime.Runtime.Elect` | crates/ws-net-gateway/src/app.rs:282-297 | The counting loop yields the elected instance for each credential with a contending session, and for no other. |
| `SessionRuntime.Runtime.Judge` | crates/ws-net-gateway/src/app.rs:308-334 | Computes the verdict on one session. |
| `SessionRuntime.Runtime.SignalVerdicts` | crates/ws-net-gateway/src/app.rs:307-340 | Sends each session its verdict, only where nothing was sent before. |
| `SessionRuntime.Runtime.RetireLosers` | crates/ws-net-gateway/src/app.rs:298-306 | Retires exactly the known instances of elected credentials that did not win. |
| `SessionRuntime.Runtime.DropLease` | crates/ws-net-gateway/src/app.rs:67-77 | Removes the lease's entry and nothing else. |
| `SessionRuntime.Runtime.BeginAuthorize` | crates/ws-net-gateway/src/app.rs:351-365 | Computes the specified check before the name lookup. |
| `SessionRuntime.Runtime.FinishAuthorize` | crates/ws-net-gateway/src/app.rs:385-398 | The filter loop yields the allowed addresses in order, or the specified error. |
| `SessionRuns.StepKeepsSystemInv` | crates/ws-net-gateway/src/app.rs:143-400 | Register, reload, drop and either half of an authorisation keep the invariant over sessions, names and everything ever granted. |
| `SessionRuns.ReachableInv` | crates/ws-net-gateway/src/app.rs:143-400 | The invariant holds at every point of every run. |
| `SessionRuns.GrantsNeverGoStale` | crates/ws-net-gateway/src/app.rs:307-398 | In every run, an address ever granted to a session is allowed by today's rules of its credential, unless the session is gone or has been told to stop; reloads may fall between the two halves of the granting call. |
| `SessionRuns.LiveSessionsKeepTheirName` | crates/ws-net-gateway/src/app.rs:307-340 | In every run a live session's user still has the name the session was told. |
| `SessionRuns.SingleAccessHolds` | crates/ws-net-gateway/src/app.rs:222-340 | In every run, two live sessions of one credential have a credential in force and, where it is single-access, the same instance. |
| `SessionRuns.SignalledForGood` | crates/ws-net-gateway/src/app.rs:232-236 | In every run, a session told to stop, or dropped, is never live again. |
| `SessionRuns.ReloadInPlaceIsNoop` | crates/ws-net-gateway/src/app.rs:268-344 | In every reachable state, a reload of the current configuration leaves the whole system as it is. |
| `SessionRuns.HistoryGrows` | crates/ws-net-gateway/src/app.rs:276-306 | While the gateway token stays, no instance is forgotten and no retirement is lifted. |
| `SessionRuns.TakeoverIsFinal` | crates/ws-net-gateway/src/app.rs:218-245 | If a registered, then another instance of the single-access credential did, a is retired and never admitted under it again while the gateway token stays; tokens that would admit some other instance get it Replaced. |
| `SessionRuns.TokenChangeForgetsHistory` | crates/ws-net-gateway/src/app.rs:276-281 | A gateway-token change clears orders and retired instances, keeps the counter, and stops every session. |
| `SessionRuns.OrdersCountRegistrations` | crates/ws-net-gateway/src/app.rs:238-245 | The order counter never exceeds the number of events so far, so a 64-bit counter does not wrap before 2^64 of them. |
| `SessionRuns.RegistrationStands` | crates/ws-net-gateway/src/app.rs:189-266 | An admitted registration is live under its new id with its credential, instance and name; a refused one changes nothing. |
| `SessionRuns.BeginAsksExactly` | crates/ws-net-gateway/src/app.rs:351-365 | The first half of an authorisation opens a request exactly where its check passes, and changes nothing else. |
| `SessionRuns.FinishGrantsExactly` | crates/ws-net-gateway/src/app.rs:385-398 | The second half closes that request and grants exactly the answers that the rules of the moment allow a live session. |
| `SessionRuns.EveryReloadRuns` | crates/ws-net-gateway/src/app.rs:268-344 | Every loadable configuration that keeps the gateway section can be reloaded in any state, and is then in force. |
| `SignalReasons.ReasonCanChange` | crates/ws-net-gateway/src/app.rs:232-236 | A concrete run in which a session told Changed by a reload is told Replaced by a registration. |
| `DataFrames.BigEndianRoundTrip` | crates/ws-net-common/src/message.rs:150-155 | Decoding the big-endian bytes of a number gives the number back. |
| `DataFrames.FromBigEndianRoundTrip` | crates/ws-net-common/src/message.rs:185-196 | Encoding the number read from bytes gives the bytes back. |
| `DataFrames.BigEndianOrder` | crates/ws-net-common/src/message.rs:150-155 | The most significant byte comes first: the smaller number has the smaller byte at the first difference. |
| `DataFrames.DataFrameRoundTrip` | crates/ws-net-common/src/message.rs:150-213 | Frames of at least 8 bytes and (stream, payload) pairs correspond one to one; shorter frames are refused. |
| `DataFrames.MergeAppendsPayloads` | crates/ws-net-common/src/message.rs:163-183 | Frames merge exactly when both are well formed, of one stream, and fit the limit; the result decodes to the payloads in order. |
| `DataFrames.NewDataFrameBuffer` | crates/ws-net-common/src/message.rs:157-161 | A fresh buffer of header plus capacity, starting with the stream id. |
| `DataFrames.ReadDataFrame` | crates/ws-net-gateway/src/tcp.rs:220-241 | For every sequence of reads, failing ones included: what is taken off the socket is exactly what the reads before the first failure, block or end took, at most 65536 bytes; it is all in the frame, in order, or, if a read failed, in nothing; None exactly at end of stream. |
| `DataFrames.FillFrame` | crates/ws-net-gateway/src/tcp.rs:227-237 | The `try_read` loop takes what it is specified to take, and frames it unless a read fails. |
| `DataFrames.FailingReadLoses` | crates/ws-net-gateway/src/tcp.rs:222-237 | A call ends in an error only by a failing read before the frame is full, and then it has lost bytes if and only if that was not its first read. |
| `DataFrames.ReachedFailureFails` | crates/ws-net-gateway/src/tcp.rs:227-237 | Conversely, a failing read that is reached with room left and before the end is seen always fails the call, and what was taken before is lost. |
| `DataFrames.UnfailingReadsTake` | crates/ws-net-gateway/src/tcp.rs:222-237 | Reads that do not fail take at least one byte each up to the room and what there is, and all of it where the first asks for it. |
| `DataFrames.ReadMore` | crates/ws-net-access/src/tcp.rs:301-311 | One further read appends in place behind the bytes already framed; a failing one takes nothing itself. |
| `WriteBatch.MergedEvents` | crates/ws-net-gateway/src/ws.rs:551-561 | Merging two frames keeps the byte events of both, in order. |
| `WriteBatch.PushKeepsEvents` | crates/ws-net-gateway/src/ws.rs:573-595 | Pushing a message, merged, appended or deferred, neither loses, duplicates nor reorders events. |
| `WriteBatch.PushExactly` | crates/ws-net-gateway/src/ws.rs:573-595 | By the message and the bytes themselves: a data frame of the last one's stream that fits is merged whatever the batch weighs; else it is deferred exactly beyond 256 KiB; else appended, ending the batch unless binary. |
| `WriteBatch.PushKeepsAccounts` | crates/ws-net-gateway/src/ws.rs:573-595 | A push keeps `batch_bytes` equal to the summed sizes and the batch within its true bound. |
| `WriteBatch.BatchBound` | crates/ws-net-gateway/src/ws.rs:331-349 | At most 64 messages; `batch_bytes` is their total size and at most the larger of the first message and 320 KiB. |
| `WriteBatch.BatchWeighsItsBytes` | crates/ws-net-gateway/src/ws.rs:563-571 | The account is the length of the messages' bytes, and no text or frame is longer. |
| `WriteBatch.BatchLimitIsOvershot` | crates/ws-net-gateway/src/ws.rs:579-589 | The 256 KiB constant is not the bound: three frames fill a batch to 320 KiB. |
| `WriteBatch.OrdinaryTrafficOvershoots` | crates/ws-net-gateway/src/ws.rs:579-589 | Frames as the relays make them, none empty, reach 320 KiB minus one byte. |
| `WriteBatch.FillKeepsEvents` | crates/ws-net-gateway/src/ws.rs:329-349 | Batch, deferred message and remaining queue together carry the events that were in batch and queue. |
| `WriteBatch.FillConsumptionBound` | crates/ws-net-gateway/src/ws.rs:331-348 | The fill loop ends even if producers never pause, although merges do not lengthen the batch: for any queue, the messages consumed are bounded by the byte and message limits plus the number of consumed frames without data. |
| `WriteBatch.FillStopsForCause` | crates/ws-net-gateway/src/ws.rs:331-348 | The fill stops only because nothing more has arrived, the batch has 64 messages, a message did not fit, or the last was no data frame. |
| `WriteBatch.EmptyFramesNeverFill` | crates/ws-net-gateway/src/ws.rs:331-348 | That last term is needed: any number of empty frames of one stream is consumed and the batch stays as it was. |
| `WriteBatch.ComposeIsFaithful` | crates/ws-net-gateway/src/ws.rs:299-349 | One composed batch with its deferred message and the rest of the queue carries exactly the events of its input, and is accounted for. |
| `WriteBatch.TextEndsItsBatch` | crates/ws-net-gateway/src/ws.rs:324-345 | A control text is always the last message of its batch, and never has data collected behind it. |
| `WriteBatch.BatchWriter.PushWsMessage` | crates/ws-net-access/src/gateway.rs:505-527 | In place: the batch, the byte count and the outcome are those specified. |
| `WriteBatch.BatchWriter.ComposeBatch` | crates/ws-net-access/src/gateway.rs:389-424 | In place: takes the deferred message or the queue's head, fills behind binary only, leaves batch, deferral and queue as specified, and keeps all events in order. |
| `WriteBatch.BatchWriter.OpenBatch` | crates/ws-net-access/src/gateway.rs:399-424 | In place: the batch is opened by one message and filled behind a binary one only. |
| `WriteBatch.BatchWriter.FillBatch` | crates/ws-net-access/src/gateway.rs:406-423 | The loop computes the specified fill. |
| `TunnelCipher.Open` | crates/ws-net-common/src/tunnel_crypto.rs:160-168 | The symbolic AEAD opens a box if and only if it is what was sealed under the same key, nonce and associated data, and then yields that plaintext. |
| `TunnelCipher.NonceInjective` | crates/ws-net-common/src/tunnel_crypto.rs:329-334 | Different prefixes or sequence numbers give different nonces. |
| `TunnelCipher.NonceLayout` | crates/ws-net-common/src/tunnel_crypto.rs:329-334 | The nonce is the prefix followed by the number, most significant byte first. |
| `TunnelCipher.NoncesDistinct` | crates/ws-net-common/src/tunnel_crypto.rs:109-115 | No two sealings of a direction share a nonce. |
| `TunnelCipher.SealingExtendsTheLog` | crates/ws-net-common/src/tunnel_crypto.rs:106-134 | The next sealing keeps the sender's log well formed and uses a nonce no earlier one used. |
| `TunnelCipher.SendsExactly` | crates/ws-net-common/src/tunnel_crypto.rs:106-114 | At every counter a payload is taken if and only if it fits 16 MiB minus 29 bytes and the counter is below 2^64 - 1; at that value a payload that fits finds the numbers exhausted. |
| `TunnelCipher.AcceptsOnlyTheNextFrame` | crates/ws-net-common/src/tunnel_crypto.rs:137-186 | Any frame whatsoever is accepted if and only if it is, byte for byte, the sender's frame with the next expected number; then it yields what was sealed and the counter moves by one; otherwise the counter stays. |
| `TunnelCipher.RoundTrip` | crates/ws-net-common/src/tunnel_crypto.rs:100-186 | At every counter below 2^64 - 1, every payload of at most 16 MiB minus 29 bytes is taken; its frame is 29 bytes longer, within the receiver's limit, and opens to the same kind and payload; a longer one is refused for its size. |
| `TunnelCipher.ReflectionIsRefused` | crates/ws-net-common/src/tunnel_crypto.rs:278-314 | A frame of one direction is refused in the other without moving its counter, even under one key. |
| `TunnelCipher.OwnFramesAreRefused` | crates/ws-net-common/src/tunnel_crypto.rs:282-293 | With the two real prefixes: neither end accepts a frame of its own direction as its peer's. |
| `TunnelCipher.AeadKey.SealInPlace` | crates/ws-net-common/src/tunnel_crypto.rs:125-132 | Seals a slice of the buffer in place, records it, touches nothing else; the caller owes a nonce never used before. |
| `TunnelCipher.AeadKey.OpenInPlace` | crates/ws-net-common/src/tunnel_crypto.rs:160-170 | Opens the buffer's tail in place exactly when the symbolic AEAD does. |
| `TunnelCipher.DirectionCipher.Encrypt` | crates/ws-net-common/src/tunnel_crypto.rs:100-135 | In place: succeeds if and only if the payload fits and the counter is below 2^64 - 1, and is exhausted exactly at that value; then the counter moves by one, the log grows by the new sealing, and the frame is magic, number and box; else nothing moves. The fresh-nonce obligation is discharged. |
| `TunnelCipher.DirectionCipher.LayOut` | crates/ws-net-common/src/tunnel_crypto.rs:116-124 | The buffer before sealing: magic, big-endian number, kind byte, payload. |
| `TunnelCipher.DirectionCipher.DecryptInPlace` | crates/ws-net-common/src/tunnel_crypto.rs:137-186 | Opening, shifting down and truncating in the frame's own buffer yields the specified result and counter for every frame; the counter moves after authentication, before the kind is looked at. |
| `TunnelPipeline.StepKeepsInv` | crates/ws-net-gateway/src/ws.rs:295-399 | Enqueueing, composing, sealing, stopping, the closing notice and any delivery keep the invariant that ties queue, batch, sealed log and receiver together. |
| `TunnelPipeline.ReachableInv` | crates/ws-net-gateway/src/ws.rs:295-399 | The invariant holds at every point of every run. |
| `TunnelPipeline.ComposeKeepsInv` | crates/ws-net-gateway/src/ws.rs:298-349 | A turn of the writer keeps it, whatever part of the queue has arrived. |
| `TunnelPipeline.DispatchIsPrefixOfEnqueued` | crates/ws-net-gateway/src/ws.rs:293-511 | In every run over a wire that drops, repeats, reorders and alters frames, what the receiver has dispatched is byte by byte and text by text a prefix of what was enqueued; only the closing notice may follow, last, after everything sealed before it. |
| `TunnelPipeline.NoticeComesLast` | crates/ws-net-gateway/src/ws.rs:364-386 | Once the closing notice is accepted, the receiver has everything that was sealed, the notice last. |
| `TunnelPipeline.DrainedDeliveryIsComplete` | crates/ws-net-gateway/src/ws.rs:293-511 | With the backlog drained and every frame accepted, dispatched equals enqueued. |
| `TunnelPipeline.ReceiverNeverOverruns` | crates/ws-net-common/src/tunnel_crypto.rs:150-176 | Against a sender of this program the receiver never runs past the sender's numbers, never exhausts its counter and never meets an unknown kind; it advances exactly on success. |
| `TunnelPipeline.StreamsArriveInOrder` | crates/ws-net-access/src/gateway.rs:529-613 | Each stream's receiver has a prefix of that stream's bytes, whatever else shares the tunnel. |
| `TunnelProgress.SendNextExactly` | crates/ws-net-gateway/src/ws.rs:353-386 | Sending a text or binary message that fits, with a number left, seals exactly that message and goes on; a close without a reason is passed by; the writer stops for anything else and nothing else. |
| `TunnelProgress.NextFrameIsTaken` | crates/ws-net-access/src/gateway.rs:539-545 | Delivering the frame with the next number hands over exactly the next sealed message. |
| `TunnelProgress.OtherFramesEndTheSession` | crates/ws-net-access/src/gateway.rs:534-611 | Any other frame, a plain one and the end of the connection hand over nothing and stop the reader. |
| `TunnelProgress.CancelSendsTheNotice` | crates/ws-net-gateway/src/ws.rs:364-386 | A cancelled writer stops, having sealed the closing notice exactly if it fits and a number is left. |
| `TunnelProgress.EverythingCanArrive` | crates/ws-net-gateway/src/ws.rs:293-511 | From every reachable open state whose waiting messages fit, with numbers enough left, some continuation hands over everything that was enqueued. |
| `TunnelQueue.StartIsEmpty` | crates/ws-net-gateway/src/ws.rs:267-296 | A new direction is the empty queue. |
| `TunnelQueue.PipeRefinesQueue` | crates/ws-net-gateway/src/ws.rs:293-511 | Every step of a direction is a step of a queue of events: enqueueing puts a message in at the end, a successful delivery takes one out in front, anything else is invisible; the only other delivery is that of the closing notice. |
| `StreamTables.StepKeepsInv` | crates/ws-net-gateway/src/ws.rs:635-900 | Spawning, connecting, closing, ending and session end, in any interleaving, keep the invariant over cancel tokens, senders and tasks. |
| `StreamTables.ReachableInv` | crates/ws-net-gateway/src/ws.rs:635-900 | The invariant holds at every point of every run. |
| `StreamTables.UncancelledTaskIsTheEntry` | crates/ws-net-gateway/src/ws.rs:651-654 | A task that runs uncancelled is the current cancel entry of its id, the only such task of that id, and the session is not closing; under any reuse of ids and any late cleanup. |
| `StreamTables.CloseCancelsTheStream` | crates/ws-net-gateway/src/ws.rs:891-897 | A Close cancels every task of its stream and leaves it no receiver; the end of the session does so for every stream. |
| `StreamTables.DataReachesItsOwnTask` | crates/ws-net-gateway/src/ws.rs:462-487 | Data only reaches a task spawned for its stream id; with fresh ids, the only one there ever was. |
| `StreamTables.EndOfOneDirection` | crates/ws-net-gateway/src/ws.rs:888-900 | TcpEof and HttpRequestEnd take one sender of one stream and leave every task, every token and every other stream's receiver. |
| `StreamTables.TasksAreReached` | crates/ws-net-gateway/src/ws.rs:803-813 | A new task is the uncancelled entry of its id, the displaced token cancelled; data reaches it at once if it streams a body, else from when it has connected. |
| `StreamTables.FinishTakesItsOwn` | crates/ws-net-gateway/src/ws.rs:882-883 | An ending task takes its own cancel entry with it and nobody else's. |
| `StreamTables.FailedSendersGo` | crates/ws-net-gateway/src/ws.rs:463-476 | A sender that failed is dropped, and that one only. |
| `StreamTables.UnregisterSparesOthers` | crates/ws-net-gateway/src/tcp.rs:96-97 | An ending TCP task, and a streamed HTTP task at either of its two removals (crates/ws-net-gateway/src/ws.rs:857 and 881), removes another task's sender if and only if that sender is stored under its id, and never while ids are fresh. |
| `StreamTables.ReusedIdLosesTheSender` | crates/ws-net-gateway/src/tcp.rs:96-97 | With a reused id it happens: a concrete run in which the old task's cleanup removes the running new task's sender. |
| `StreamTables.SessionTables.SpawnTask` | crates/ws-net-gateway/src/ws.rs:803-813 | In place: a fresh flag object becomes the entry of its id, and the flag it displaces is set. |
| `StreamTables.SessionTables.HandleClose` | crates/ws-net-gateway/src/ws.rs:891-897 | In place: sets the flag of the entry and removes it, removes both senders. |
| `StreamTables.SessionTables.FinishTask` | crates/ws-net-gateway/src/ws.rs:882-883 | In place: removes the cancel entry only if it is still the task's own flag object. |
| `StreamTables.SessionTables.CleanUp` | crates/ws-net-gateway/src/ws.rs:49-63 | In place: the loop sets every flag in the table, whatever its order, then all tables are empty. |
| `HalfClose.DispatchKeepsLink` | crates/ws-net-gateway/src/ws.rs:462-487 | Taking any message off the tunnel keeps a direction's invariant: order, conservation of bytes, and the reason its sender is gone. |
| `HalfClose.StepKeepsInv` | crates/ws-net-access/src/tcp.rs:27-289 | Every step keeps the invariant: the open handshake, both relays with partial writes and failing reads, both dispatchers, an aborted access handler, session end. |
| `HalfClose.ReachableInv` | crates/ws-net-gateway/src/tcp.rs:108-218 | The invariant holds at every point of every run. |
| `HalfClose.UpstreamHalfCloseIsComplete` | crates/ws-net-gateway/src/tcp.rs:170-179 | In every run, when the gateway relay is about to shut the target's write half uncancelled, it is because of TcpEof, the local side has read to the end, and every byte read locally has been written. |
| `HalfClose.DownstreamHalfCloseIsComplete` | crates/ws-net-access/src/tcp.rs:212-221 | In every run, when the access relay is about to shut the local socket while the session lives, all that the gateway passed on is written; that is every byte read from the target if and only if no failing read ended the gateway's relay with bytes in hand, and always after TcpEof; the target had ended if and only if the sender went away by TcpEof. |
| `HalfClose.LostExactlyByFailingRead` | crates/ws-net-gateway/src/tcp.rs:227-237 | In every run, bytes read from the target never reach the tunnel if and only if the relay ended on a read that failed after taking bytes. |
| `HalfClose.HalfCloseIsFinal` | crates/ws-net-access/src/tcp.rs:175-221 | In every run, from the shut of a socket after TcpEof on, the other side has read to its end and all it read is written. |
| `HalfClose.WrittenIsPrefixOfRead` | crates/ws-net-gateway/src/tcp.rs:145-194 | In every run what a side wrote is a prefix of what the other side read, whatever was cancelled or lost. |
| `RelayProgress.WriteMovesExactly` | crates/ws-net-gateway/src/tcp.rs:183-183 | A write of n bytes extends what was written by exactly the next n buffered bytes and removes exactly those from the buffer. |
| `RelayProgress.ReadsGoOut` | crates/ws-net-gateway/src/tcp.rs:145-158 | A relay reads as long as it runs and the end has not come, and what it reads goes into a living tunnel as it is. |
| `RelayProgress.UploadFinishes` | crates/ws-net-gateway/src/tcp.rs:170-194 | From every reachable state in which TcpEof has arrived, steps of the gateway's relay alone lead to the write half shut with every byte read locally written. |
| `RelayProgress.DownloadFinishes` | crates/ws-net-access/src/tcp.rs:212-248 | Likewise the access relay alone, for the local socket. |
| `RelayProgress.UploadCanComplete` | crates/ws-net-access/src/tcp.rs:172-254 | From every reachable state with both relays running on a living session, some continuation completes the upload: end read, all bytes written, write half shut. |
| `RelayProgress.DownloadCanComplete` | crates/ws-net-gateway/src/tcp.rs:138-201 | Likewise the download. |
| `RelayProgress.OpenCanSucceed` | crates/ws-net-access/src/tcp.rs:96-152 | From every reachable state with the stream not begun on a living session, an open can lead to both relays running with both senders in their tables. |
| `HalfClose.BrokenTargetLooksLikeEof` | crates/ws-net-gateway/src/tcp.rs:87-105 | A concrete run in which the target's connection breaks, a byte already read is lost, and the local peer sees an orderly end of stream. |
| `StreamTeardown.StepKeepsAnswering` | crates/ws-net-access/src/tcp.rs:27-289 | Every step, an abort of the access handler included, keeps the invariant that accounts for every side that waits by what is still under way in the queues, or by an abort nothing has followed yet. |
| `StreamTeardown.ReachableAnswering` | crates/ws-net-gateway/src/tcp.rs:67-106 | That invariant holds at every point of every run. |
| `StreamTeardown.SilentExactly` | crates/ws-net-access/src/tcp.rs:35-62 | In every run, an aborted handler whose end has not been told is exactly one that was aborted with no data of the target arriving since. |
| `StreamTeardown.ArrivalTells` | crates/ws-net-access/src/gateway.rs:573-604 | Data that arrives for a stream whose handler is gone has the session answer with Close, for a dead receiver as for an unknown stream. |
| `StreamTeardown.EndedHandlersLeaveNoEntry` | crates/ws-net-access/src/tcp.rs:131-152 | In every run a handler that ended without being aborted has no entry in its session's table. |
| `StreamTeardown.NobodyIsLeftWaiting` | crates/ws-net-gateway/src/tcp.rs:87-105 | In every run, with a living tunnel drained: a waiting open has a task connecting for it; an ended access side has left a gateway task uncancelled if and only if its handler was aborted and nothing of the target has arrived since; an ended gateway side has ended the open or left the access relay at its end. |
| `StreamTeardown.AbortLeavesTheTask` | crates/ws-net-access/src/tcp.rs:43-61 | A concrete run in which an aborted handler leaves the gateway's task in place, uncancelled, on a living tunnel. |
| `StreamTeardown.CancelledOnlyAfterClose` | crates/ws-net-gateway/src/ws.rs:891-897 | In every run of a living session the gateway's task is cancelled only after the access side sent Close, with its handler ended. |
| `StreamTeardown.UploadCompleteWhileAccessRelays` | crates/ws-net-gateway/src/tcp.rs:170-179 | In every run, while the session lives and the access relay goes on, shutting the target's write half means every byte read locally to its end has been written. |
| `Wakeup.StepKeepsInv` | crates/ws-net-gateway/src/tcp.rs:45-64 | Each step of any number of cancellers and waiters keeps the wakeup invariant. |
| `Wakeup.ReachableInv` | crates/ws-net-gateway/src/tcp.rs:45-64 | The invariant holds at every point of every run. |
| `Wakeup.NoLostWakeup` | crates/ws-net-gateway/src/tcp.rs:45-64 | In every run a waiter parked unnotified with the flag set has a notification still to come, and no waiter returns before the flag is set. |
| `Wakeup.CancellersDo` | crates/ws-net-gateway/src/tcp.rs:45-49 | A cancel sets the flag, and exactly the first has to notify; a notification reaches every registered or parked waiter and no other. |
| `Wakeup.WaitersDo` | crates/ws-net-gateway/src/tcp.rs:51-64 | A test returns exactly with the flag set; a registration is not yet notified; only a notified sleeper wakes, to the start of its loop. |
| `Wakeup.WaitersGetOut` | crates/ws-net-access/src/app.rs:75-85 | With the flag set and the notifications out, a waiter can always move and is out after at most three steps of its own in this loop, two in the stream's (crates/ws-net-gateway/src/tcp.rs:51-64). |
| `IdentityBlocking.StepKeepsInv` | crates/ws-net-access/src/gateway.rs:182-206 | Creating, opening, closing, dropping and stopping connections in any interleaving keep the invariant. |
| `IdentityBlocking.ReachableInv` | crates/ws-net-access/src/gateway.rs:182-206 | The invariant holds at every point of every run. |
| `IdentityBlocking.OpenWhileBlockedIsOnTheList` | crates/ws-net-access/src/gateway.rs:192-205 | In every run a connection still open under a blocked identity is one the stop in progress has yet to close. |
| `IdentityBlocking.BlockedForGood` | crates/ws-net-access/src/gateway.rs:362-378 | Once that stop has finished, no connection of the identity is ever open again, those created later included. |
| `IdentityBlocking.StopMakesProgress` | crates/ws-net-access/src/gateway.rs:200-205 | The closing loop always has a next step, and each one shortens its list. |
| `IdentityBlocking.TerminalErrorBlocks` | crates/ws-net-access/src/gateway.rs:182-206 | From every reachable unblocked state with no session just being opened, a terminal error blocks at once and some continuation closes every connection. |
| `IdentityBlocking.SessionsOpen` | crates/ws-net-access/src/gateway.rs:362-378 | A session opens its connection exactly if neither its identity is blocked nor it is stopped when it looks. |
| `IdentityBlocking.ConnectionsDo` | crates/ws-net-access/src/gateway.rs:88-114 | A new connection is closed, not stopped and on the list; closing and stopping set just their flag. |
| `IdentityBlocking.StoppedConnectionCanOpen` | crates/ws-net-access/src/gateway.rs:806-815 | Stopping without blocking is weaker: a concrete run in which a stopped connection opens. |
| `IdentityBlocking.StoppedStaysClosed` | crates/ws-net-access/src/gateway.rs:362-378 | In every run a stopped, closed connection that is not just being opened stays so for as long as it exists. |
| `IdentityBlocking.StoppedOpensExactly` | crates/ws-net-access/src/gateway.rs:362-378 | A stopped, closed connection can be opened by some next step if and only if its session is past the checks and has yet to store; otherwise it is never open before it is dropped. |
| `IdentityBlocking.AccessRuntime.Identity` | crates/ws-net-access/src/app.rs:43-67 | In place: one identity object for each URL and credential, found again with its block by every later reload, distinct for distinct keys; a refused URL adds nothing. |
| `AccessRouting.DigitsInjective` | crates/ws-net-common/src/config.rs:326 | Different numbers have different decimal texts, so generated gateway names differ. |
| `AccessRouting.DigitsAreDecimal` | crates/ws-net-common/src/config.rs:326 | The digits are the decimal ones, without a leading zero. |
| `AccessRouting.LegacyUrlsComplete` | crates/ws-net-common/src/config.rs:302-322 | The collected URLs are trimmed, non-empty and distinct, start with the configured default, and include every listener's. |
| `AccessRouting.LegacyNamesDistinct` | crates/ws-net-common/src/config.rs:323-331 | Generated gateway names are pairwise different. |
| `AccessRouting.LegacyUrlsExactly` | crates/ws-net-common/src/config.rs:302-322 | The list holds exactly the trimmed texts that are not blank of the configuration's URL, its further URLs and its listeners' URLs, in that order, each once, by first occurrence; it is empty exactly if all are blank. |
| `AccessRouting.LegacyAcceptedExactly` | crates/ws-net-common/src/config.rs:294-425 | A configuration without a gateway list is accepted if and only if it has a token that is not blank, some URL of the three kinds that is not, and an acceptable route for every listener. |
| `AccessRouting.GatewaysExactly` | crates/ws-net-common/src/config.rs:323-340 | A generated gateway is named by its place and has its URL and the configured token; a configured one keeps token and user token, name and URL trimmed. |
| `AccessRouting.LegacyUrlListenersRoute` | crates/ws-net-common/src/config.rs:315-322 | There, a listener that names a URL is acceptable if and only if it names no gateway. |
| `AccessRouting.GatewayConfigs` | crates/ws-net-common/src/config.rs:294-425 | The loops accept exactly the acceptable configurations and then return the specified gateway list. |
| `AccessRouting.ListGateways` | crates/ws-net-common/src/config.rs:295-340 | Computes the list: configured gateways trimmed, or one generated gateway for each URL. |
| `AccessRouting.CheckGateways` | crates/ws-net-common/src/config.rs:342-372 | Passes if and only if there is a gateway, all are complete and their names differ. |
| `AccessRouting.CheckListener` | crates/ws-net-common/src/config.rs:382-421 | Passes if and only if the listener's route is acceptable. |
| `AccessRouting.ComputeDefaultUrl` | crates/ws-net-access/src/app.rs:239-267 | Computes the specified default URL. |
| `AccessRouting.FirstNamed` | crates/ws-net-access/src/app.rs:154-158 | The first pool with the name, or none has it. |
| `AccessRouting.FirstWithUrl` | crates/ws-net-access/src/app.rs:166-170 | The first pool with the URL, or none has it. |
| `AccessRouting.DefaultRoutes` | crates/ws-net-access/src/app.rs:239-267 | The default URL, where there is one, leads to the first pool; where there is none, a default route exists exactly with one pool. |
| `AccessRouting.DefaultUrlExactly` | crates/ws-net-access/src/app.rs:239-267 | For an accepted configuration the default URL is the first gateway's exactly where there is one gateway or a legacy default, and else there is none. |
| `AccessRouting.RouteCheckIsExact` | crates/ws-net-access/src/app.rs:128-184 | For an acceptable gateway list, a listener passes the check at load time if and only if the lookup at run time succeeds for it. |
| `AccessRouting.EveryListenerRoutes` | crates/ws-net-access/src/app.rs:128-184 | Every listener of an accepted configuration reaches the pool it names, else the first with its URL, else the first pool; in the new form and the old one. |
| `ConnectionPool.Pool.NextConnection` | crates/ws-net-access/src/app.rs:205-228 | In place: the counter moves by one modulo 2^64; of the readings the loop makes, one at a time and of connections that may be changing, the result is the first open one that no open one beats, or the start slot if none was open. |
| `ConnectionPool.ChosenWasBestSeen` | crates/ws-net-access/src/app.rs:211-225 | However the pool changes during the scan: if any reading was open, the result was read open, with least load, then greatest free capacity, and first among equal readings. |
| `ConnectionPool.ChoiceIsUnique` | crates/ws-net-access/src/app.rs:205-228 | That description determines the choice. |
| `ConnectionPool.ScanCoversExactly` | crates/ws-net-access/src/app.rs:211-212 | The scan visits the whole pool if and only if the counter does not wrap inside it or the pool size divides 2^64. |
| `ConnectionPool.WrappedScanMisses` | crates/ws-net-access/src/app.rs:211-212 | Otherwise it leaves a connection out. |
| `ConnectionPool.ChoosesBestOpen` | crates/ws-net-access/src/app.rs:205-228 | Under that condition, in a pool that does not change meanwhile, an open connection is returned whenever there is one, of least load, and of greatest free capacity among those. |
| `ConnectionPool.WrappedScanCanChooseClosed` | crates/ws-net-access/src/app.rs:227 | Without it a pool exists for every such size and start whose one open connection is passed over for a closed one. |
| `ConnectionPool.EqualConnectionsTakeTurns` | crates/ws-net-access/src/app.rs:205-228 | Of n calls on n equal open connections the k-th gets slot k of the rotation; they get each connection once if and only if the same condition holds. |
| `ConfigReload.PrepareListeners` | crates/ws-net-access/src/listeners.rs:29-44 | Succeeds if and only if names are non-blank and distinct and the TLS set-up of every HTTP listener succeeds. |
| `ConfigReload.CheckIdentities` | crates/ws-net-access/src/config_reload.rs:69-75 | Succeeds if and only if every gateway URL is usable. |
| `ConfigReload.AccessClient.constructor` | crates/ws-net-access/src/main.rs:42-58 | The state after start-up is coherent. |
| `ConfigReload.AccessClient.ConnectAll` | crates/ws-net-access/src/gateway.rs:40-79 | Succeeds if and only if the configuration is accepted and its URLs usable, with fresh running pools for exactly its gateways, of the configured size or 1. |
| `ConfigReload.AccessClient.Precheck` | crates/ws-net-access/src/config_reload.rs:66-75 | Passes if and only if the file parses and would start. |
| `ConfigReload.AccessClient.Reload` | crates/ws-net-access/src/config_reload.rs:60-105 | All or nothing: the file is rejected with nothing touched exactly when a pre-check fails; after that only binding decides between all new, all old restarted, and nothing running; configuration, connections, default URL and listeners always belong together. |
| `ConfigReload.RunningListenersRoute` | crates/ws-net-access/src/main.rs:47-51 | In every state start-up and reloads can reach, each running listener finds a live pool of the configured size, though reload never repeats the start-up check. |
| `ConnectionWaiters.StepKeepsInv` | crates/ws-net-access/src/gateway.rs:833-896 | Registering, sending, answering, withdrawing, closing and reopening in any interleaving keep the invariant. |
| `ConnectionWaiters.ReachableInv` | crates/ws-net-access/src/gateway.rs:833-896 | The invariant holds at every point of every run. |
| `ConnectionWaiters.ConsumedOnce` | crates/ws-net-access/src/gateway.rs:641-717 | In every run a table entry is consumed at most once and never comes back. |
| `ConnectionWaiters.AnswersTakeOne` | crates/ws-net-access/src/gateway.rs:641-717 | An answered, withdrawn or removed entry is out of its table, consumed if it was there, and no other entry is touched. |
| `ConnectionWaiters.HandlersDo` | crates/ws-net-access/src/gateway.rs:738-769 | A registration is in its table; a first send goes through exactly on an open connection that does not refuse it. |
| `ConnectionWaiters.ClosesDo` | crates/ws-net-access/src/gateway.rs:833-847 | Only the close that finds the connection open visits the tables, all of them, and lists every entry of each; a connection reopens exactly from closed. |
| `ConnectionWaiters.ClosesMakeProgress` | crates/ws-net-access/src/gateway.rs:842-896 | A close under way always has a next step, and its steps shorten what is left of it. |
| `ConnectionWaiters.CloseRemovesWhatItFound` | crates/ws-net-access/src/gateway.rs:833-896 | In every run whatever was registered when a close began is gone when that close has ended. |
| `ConnectionWaiters.ClosedConnectionOwesNothing` | crates/ws-net-access/src/gateway.rs:833-896 | On a closed connection with all closes ended, only handlers that have not got their first message through have entries; without such handlers the load is zero. |
| `ConnectionWaiters.HandlersWithdraw` | crates/ws-net-access/src/tcp.rs:98-118 | Those handlers are refused by the send's check and can always remove what they registered. |

## Left out

- SessionRuntime.Runtime.Register: the session id is a parameter, fresh at each registration; a failure of the random source is not modelled, and the order counter is unbounded, with its growth bounded by `SessionRuns.OrdersCountRegistrations`.
- SessionRuntime.Runtime.BeginAuthorize: its two looks at the signal are one; name lookup, IP text and the syntax check of the host are the later answer of `Finish`, on the asked port, which may be a failure.
- SessionRuns.GrantsNeverGoStale: an address of a stopped session may still be in use until its tasks notice the signal; how fast they do is not stated.
- GatewayConfig.Validate: TOML, listen addresses and access-rule text come in parsed; `rules` and `listenValid` carry the outcome. `credential_id` is any function on tokens.
- DataFrames.ReadDataFrame: how much each read moves and whether it fails is an input; which error it is, is not modelled.
- WriteBatch.BatchWriter.ComposeBatch: sizes are unbounded, so the saturating and checked additions on machine sizes are plain ones; the second copy of the code, in the access client, is the same and not repeated.
- TunnelCipher.DirectionCipher.DecryptInPlace: what a failed opening leaves in the buffer is unspecified, and the error for two concurrent receivers of one cipher is not modelled, because each session has one.
- TunnelCipher.RoundTrip: ChaCha20-Poly1305 is symbolic; key agreement, key derivation and the bootstrap exchange that precedes a session are not modelled.
- TunnelPipeline.DispatchIsPrefixOfEnqueued: delivery is a prefix, because cancelling the writer can lose sealed frames; equality is claimed only for a drained writer. What the WebSocket layer does after its close frame is not modelled.
- TunnelPipeline.StepKeepsInv: the writer loops, relays, dispatchers and session opening run as tasks over `select!`, so `TunnelPipeline`, `TunnelProgress`, `HalfClose`, `RelayProgress`, `StreamTeardown`, `StreamTables`, `Wakeup`, `IdentityBlocking` and `ConnectionWaiters` model their steps on values; which ready branch is taken, and fairness, are left open.
- HalfClose.DownstreamHalfCloseIsComplete: only while the session lives, since its end also drops the sender. The tunnel is a queue in each direction, lost as a whole with the session, in which the frames of the stream keep their borders although the writer may merge them; HTTP streams are not part of this module.
- StreamTeardown.NobodyIsLeftWaiting: states what holds once the queues are drained, not that they drain; an open on a lost session is the subject of `ConnectionWaiters`.
- StreamTables.CloseCancelsTheStream: a cancelled task may run on until it notices; only the cancellation is stated.
- StreamTables.DataReachesItsOwnTask: fresh ids are a hypothesis here; the access client numbers a connection's streams 1, 2, 3, ... and wraps only after 2^64.
- ConnectionPool.ChoosesBestOpen: for a pool that does not change during the scan; for one that does, `ConnectionPool.ChosenWasBestSeen` holds of what was read, where the values read of one connection may themselves be of different moments.
- ConnectionWaiters.ClosedConnectionOwesNothing: that a waiting client is told of the close is not stated, because an error sent to a full HTTP body channel may be dropped.
- ConfigReload.AccessClient.Reload: whether sockets can be bound is an input; TLS set-up and URL parsing are functions of the configuration, so they answer the same the second time.
- IdentityBlocking.StopMakesProgress: that the stopping task is scheduled is assumed, not modelled.
- Wakeup.WaitersGetOut: the notifier is modelled by its contract, not by its implementation.
- AccessRouting.GatewayConfigs: which error a rejected configuration gets is not stated, only that it is rejected.
- Real sockets, TLS, certificates, DNS, the HTTP client and server and header rewriting: library calls and short filters.
- JSON message encoding: messages are values.
- `crates/ws-net-gateway/src/control.rs`: file locks, pipes and atomic file replacement are operating-system calls.
- Heartbeats, idle timeouts, retry backoff, logging and statistics: wall-clock behaviour; a timeout is a step that may be taken.
- TunnelProgress.EverythingCanArrive: says that delivery stays possible, not that it comes about; likewise `RelayProgress.UploadCanComplete`, `RelayProgress.DownloadCanComplete`, `RelayProgress.OpenCanSucceed` and `IdentityBlocking.TerminalErrorBlocks`, since scheduling and the network are left open.
