# jimichi in Dafny

A model of jimichi, an onion-routing messaging system, and proofs about it. A client
sends numbered, fixed-size cells through a chain of relays; each relay strips a layer,
shifts the counter by a secret offset modulo 2^62 and takes counters strictly in turn;
the exit answers every cell once and the client takes the replies strictly in turn.
Around that circuit the model has the setup that builds it, the links under it, the
onion keys and their rotation, admission control, the tables of circuits, the encodings
of certificates and transcripts, and the mathematics of choosing paths and measuring
attacks.

`dafny verify dfyconfig.toml` checks the project. Modules follow the source's packages:

| files | what they hold |
|---|---|
| Prelude, Wire, Aead | bytes and big-endian integers; counters, nonces and cells; the cipher as a value with laws |
| Onion, Journeys | sealing, peeling, wrapping and opening a cell; whole journeys outwards and back |
| Replay, Circuits, Pacing, Links | in-turn counters and setup tags; the relay's and the client's records; pacing queues; frames on a link |
| Protocol, NonceUse, Honest | every run of client, relays and exit: against arbitrary cells, for nonces, and on honest links |
| Kdf, Setup, Dial | labels and transcripts; building and opening a setup cell; from a setup to the runs of its circuit |
| Ring, Rotation, AcceptedSetups | the two-slot key ring; the release schedule against descriptor windows; a setup for an accepted descriptor's key |
| Limits, Admission, Forgetting, Rates | buckets, caps and the source table; what every interleaving keeps; forgetting against never forgetting; how often one source passes |
| Tables | the relay's `circuits` and `owners` tables and who closes each hop |
| Auc, Compromise, EveryChain, Mirrors, AllChains, Choose, Uniform | rank-sum AUC and the curve; shares of compromised chains against counting them; drawing a path, and from how many streams |
| Codec, Certificates | writer and reader; certificates, descriptors and requests |

Conventions. The cipher of a suite is a datatype of functions: `Sound` says that opening
undoes sealing and that a ciphertext is longer by the tag; for runs with an adversary
`Guarded` opens nothing that is not in the log of sealings made so far. Random bytes,
clock readings, what a socket does and what the sort does with ties are parameters, so
each theorem is for all of them. Floating-point numbers are reals. Integer widths that
matter are written out: counters modulo 2^62, frame numbers modulo 2^64, epochs modulo
2^32, two's complement times, length bytes modulo 256. A class or a method appears where
the source updates in place or loops, proved equal to a function that the lemmas are about.

One edge case is in the code and not in its comments: an address that ends in a zero byte
does not survive the fixed-size field of a setup layer. `Setup.AddrRoundTrip` gives the
exact condition; the certificate layer's `ValidAddr` excludes such addresses.

## Model

| member | source | states |
|---|---|---|
| Protocol.ExitDeliversPrefix | relay/relay.go:414-475 | In every run, with any cells lost, copied, reordered or injected and any key but the exit's in the adversary's hands, what the exit has delivered is a gap-free, repeat-free prefix of the messages and cover the client sealed |
| Protocol.ClientAcceptsPrefix | client/client.go:228-283 | In every run the replies the client has accepted are a prefix of the exit's answers, the k-th being what the exit owed to the k-th cell sealed, and never more than the cells written |
| Protocol.ExitDelivers | relay/relay.go:435-452 | Whatever cell reaches the exit in a reachable state, it is dropped without effect, breaks the circuit because it is out of turn, or is exactly the next cell sealed and is answered by what is owed |
| Protocol.ClientAcceptsNext | client/client.go:264-283 | A cell that passes the client's checks in a reachable state carries exactly the next answer of the exit |
| Protocol.StepKeeps | relay/relay.go:414-600 | Every action of client, relay, exit or adversary keeps the invariant that ties counters, contents and the log of sealings together |
| Protocol.SentIsLogged | wire/onion.go:104-142 | The layers of a cell the client writes are exactly the sealings the step logs, one inside the other |
| Protocol.AnswerIsLogged | wire/onion.go:291-303 | The cell the exit answers with starts with the sealing the step logs |
| Protocol.WrapIsLogged | wire/onion.go:306-341 | The cell a relay sends back starts with the sealing the step logs |
| Protocol.UnsealedLeavesNoTrace | relay/relay.go:395-475 | Taking a cell that nobody sealed for the hop it reaches out of a run, at the exit or at any relay before it, leaves the rest of the run exactly as it was |
| Protocol.OpenedWasSealed | wire/onion.go:208-233 | What a hop opens in a run was sealed for that hop under the number the cell carries |
| Dialling.Dial | client/client.go:105-144 | Succeeds exactly on chains with keys of the right size that a setup can be built for, and the circuit always follows from the setup |
| Dialling.EveryRelayReady | relay/relay.go:602-676 | After a successful Dial every relay on the chain gets its setup on the circuit's own link and builds exactly the hop, next link and starting sequence that the client's circuit counts on |
| Dialling.DialledChain | client/client.go:134-149 | The keys and offsets of an accepted setup make a circuit with room for payload, which is all the circuit theorems ask |
| Dialling.DialledRuns | client/client.go:105-202 | From any successful Dial on, every run has the delivered and accepted prefixes and reuses no nonce |
| Dialling.DialledRepliesTaken | client/client.go:105-252 | From any successful Dial on, honest lossless links mean no refused reply |
| NonceUse.NeverReused | wire/nonce.go:19-47 | Over the whole life of a circuit no two calls of seal that honest parties make, refused attempts and covers under a taken number included, use one hop key under one direction and counter |
| NonceUse.SealUsesOnce | wire/onion.go:104-142 | The layers of one cell use one nonce under each hop key |
| Honest.NoReplyRefused | client/client.go:228-252 | With honest relays on lossless first-in-first-out links, paced or not, however the moves interleave, the client refuses no reply and has accepted a prefix of the answers |
| Honest.GoKeeps | relay/relay.go:414-600 | Every move keeps each queue holding exactly the cells that the next hop is due, in order and wrapped for it |
| Honest.DrainedMeansAnswered | relay/relay.go:478-516 | When every circuit lives and every queue is empty, every cell sent has been answered and every answer accepted |
| Journeys.ForwardRoundTrip | wire/onion.go:104-277 | For every chain, counter below the cell limit, payload that fits and refill bytes, sealing, peeling and relabelling at each hop and opening at the exit gives back payload and cover flag |
| Journeys.BackwardRoundTrip | wire/onion.go:281-341 | A reply sealed by the exit and wrapped by every hop opens at the client to the same payload and flag, on the client's own link, and its counter gives back the exit's number, across the wrap at 2^62 |
| Journeys.PeelPassesOn | wire/onion.go:208-233 | A hop that peels and relabels a cell on its way leaves it on its way to the next hop, full size and under the next value |
| Journeys.WrapPassesOn | wire/onion.go:306-322 | A hop that wraps a reply on its way leaves it on its way to the hop before |
| Journeys.ValueAtIsBackValue | wire/onion.go:66-71 | valueAt gives at each layer the value that the relay used when it sealed, for every number of the exit |
| Journeys.ReplyNumberRecovers | wire/onion.go:74-76 | ReplyNumber undoes all offsets of the way back |
| Onion.Seal | wire/onion.go:104-142 | The loop over layers computes the nested cell by one call of seal per layer, and a refusal comes before any call: the error exits inside the loop are never taken |
| Onion.SealLayer | wire/onion.go:326-341 | One call of seal, whose ciphertext starts the body, or an error before any |
| Onion.MakeReply | wire/onion.go:291-303 | A reply without room or number left is refused before its key is used |
| Onion.OpeningErrors | wire/onion.go:208-245 | Each error of opening a layer exactly on its own condition |
| Onion.SealingErrors | wire/onion.go:306-341 | Each error of sealing and wrapping a layer exactly on its own condition |
| Onion.ReplyErrors | wire/onion.go:291-303 | A reply is refused exactly for its number, its size or the suite's nonce |
| Onion.WrapCell | wire/onion.go:306-322 | A cell is refused before the key is used, or takes one call of seal |
| Onion.OpenExit | wire/onion.go:145-166 | The loop over layers strips exactly the nested layers, in the client's order, or fails as a whole |
| Onion.NewCircuit | wire/onion.go:35-62 | Accepts exactly matching non-empty lists; each layer holds the sum of the offsets before it and the circuit the total |
| Onion.NewHop | wire/onion.go:184-196 | Accepts exactly an index below MaxHops whose layer has room for its own tag |
| Journeys.HopBuilt | wire/onion.go:184-196 | Every hop of a chain that carries payload is accepted and is the hop the client's circuit counts on |
| Onion.StripNest | wire/onion.go:145-166 | Stripping undoes nesting from any layer on |
| Onion.NestFits | wire/onion.go:170-172 | A nest from layer i on has exactly the length layerLen gives, so every intermediate layer fits its cell |
| Onion.UnframeFramed | wire/onion.go:248-277 | Unframing undoes framing whatever the fill, for messages and for cover |
| Onion.UnframesExactly | wire/onion.go:248-277 | A body reads as a message exactly when framing that message over the body changes nothing, cover being empty |
| Counters.UnshiftShift | wire/counter.go:36-38 | unshift undoes shift and shift undoes unshift on counters below 2^62 |
| Counters.ShiftAssociates | wire/counter.go:36-36 | Shifting twice is shifting by the wrapped sum |
| Nonces.NonceInjective | wire/nonce.go:23-47 | In both layouts a nonce determines direction, circuit and counter |
| Nonces.TopBitClear | wire/nonce.go:37-43 | The 16-byte nonce keeps its top bit clear, as section 4.1 of RFC 9058 requires |
| Cells.HeaderRoundTrip | wire/cell.go:73-103 | A header read from a new cell is the header it was made from |
| Cells.HeaderExactly | wire/cell.go:73-105 | A cell has a header exactly when that header and its own body make the cell |
| Cells.Relabelled | wire/cell.go:127-129 | SetCircuit changes the circuit and nothing else |
| Cells.CellFromParts | wire/cell.go:73-105 | A cell with a readable header is exactly its header and body |
| Ciphers.GuardedOpens | wire/onion.go:208-233 | An ideal cipher opens exactly what was sealed under the same key, nonce and associated data |
| Replay.Sequence.Next | wire/replay.go:28-39 | Takes a counter exactly when it is due, counts it and moves to the next; changes nothing otherwise |
| Replay.Sequence.Expect | wire/replay.go:20-23 | From then on the first counter taken is the one expected |
| Replay.TakesOnce | wire/replay.go:28-39 | In every reachable state a counter that is taken was never taken before |
| Replay.AcceptedConsecutive | wire/replay.go:28-39 | Of any stream of offers, the counters taken are consecutive modulo 2^62 from the first, and at most 2^60 of them |
| Replay.OneMoreOffer | wire/replay.go:28-39 | After any offers, one more is taken exactly when it is a counter, numbers last and it is the one due or the first of all; otherwise nothing changes |
| Replay.InOrderTaken | wire/replay.go:28-39 | A stream in order, across the wrap, is taken whole up to the limit |
| Replay.AcceptedDistinct | wire/replay.go:28-39 | No two of them are the same |
| Replay.SetupCache.Add | wire/replay.go:68-79 | Refuses a known tag and a full cache, remembers every other tag |
| Replay.CacheSize | wire/replay.go:60-65 | A cache has the size asked for, or 65536 |
| RelayCircuits.RelayCircuit.Forward | relay/relay.go:454-475 | Does with a cell what Route says, the function that RoutesExactly pins down |
| RelayCircuits.RoutesExactly | relay/relay.go:414-475 | By what the cipher opens and by the header alone: a cell whose layer does not open changes nothing and the circuit lives; one that opens in turn leaves on the next link, its number moved by the offset, its layer off and the rest refilled; one that opens out of turn ends the circuit |
| RelayCircuits.RelayCircuit.Deliver | relay/relay.go:435-452 | The exit does with a cell what RouteExit says, and reports every call of seal it made over it: one if it answers, none otherwise |
| RelayCircuits.DeliversExactly | relay/relay.go:435-516 | At the exit what does not open, or holds no message, changes nothing; what is read in turn is delivered and answered by one sealed cell under the next reply number; what is read out of turn ends the circuit, as does a number or a frame without room |
| RelayCircuits.AnsweredByOne | relay/relay.go:478-516 | Over both attempts of a reply, an answer that leaves took one call of seal, under its own number, and one that does not leave took none |
| RelayCircuits.RelayCircuit.Reply | relay/relay.go:478-516 | Each reply takes the next number and, over all attempts, calls the cipher's seal exactly once if it leaves and never if it does not; an answer without room is replaced by cover |
| RelayCircuits.RelayCircuit.Backward | relay/relay.go:560-600 | A backward cell that is malformed, of another kind or out of turn ends the circuit with nothing sealed; every other one is wrapped by one call of seal |
| RelayCircuits.ReturnsExactly | relay/relay.go:560-600 | A dead circuit drops what comes back; a data cell in turn goes on inside one more layer, on the inbound link and moved by the offset; any other cell ends the circuit |
| Clients.Client.Send | client/client.go:358-397 | Numbers cells in order and stops at the limit; a closed client sends nothing; the calls of seal are one per layer, or none |
| Clients.Client.Receive | client/client.go:228-252 | Accepts replies while each is the one wanted and was asked for, and stops for good at the first that is not |
| Clients.ChecksExactly | client/client.go:264-283 | Each class of refusal exactly on its own condition: header, layers and frame, number due, a reply to no cell; anything else is taken as read |
| Clients.ReceivesExactly | client/client.go:228-283 | Of the cells that come, exactly those before the first that fails its check under the number due are taken, in order, and that one decides the class reported |
| Clients.NothingAfterRefusal | client/client.go:228-252 | After a refusal nothing that arrives changes anything |
| Pacing.PacedInOrder | relay/pace.go:59-140 | On every schedule of arrivals, ticks, failed writes and closes, one frame leaves per tick while the clock runs, at most the queue's size waits, and what the queue took is, in order, what the far end passes on, the cell of the one failed write, what closing gave up and what waits |
| Pacing.Pacer.Push | relay/pace.go:59-66 | Takes a cell unless the queue is full |
| Pacing.Pacer.Send | relay/pace.go:77-121 | One tick takes up the oldest waiting cell, or padding; a frame the link refuses is gone and stops the loop |
| Pacing.Pacer.Close | relay/pace.go:124-140 | Counts every cell still waiting as lost, once |
| Pacing.StopsExactly | relay/pace.go:77-140 | What a refused write, a close and a push do to the queue, and that a stopped clock stays stopped |
| Pacing.WaitsItsTurn | relay/pace.go:77-121 | While the link takes its frames a cell waiting behind n others leaves with the tick after theirs, whatever is queued meanwhile |
| Pacing.QueueSize | relay/pace.go:38-41 | A queue has the size asked for, or 64 |
| Links.LinkInOrder | link/link.go:285-337 | Whatever bytes arrive and however writes fail, what the far end passes on is a prefix of the cells written that are not padding, while fewer than 2^64 frames are written |
| Links.DueFrameOpens | link/link.go:321-337 | The frame that is due is never refused |
| Links.FailureIsFinal | link/link.go:285-307 | After a write the socket does not take, nothing more is ever written |
| Links.AllDelivered | link/link.go:285-337 | On a link that loses nothing everything written is read, in order |
| Links.FrameNoncesDiffer | link/link.go:270-276 | The first 2^64 frames of a direction all have different nonces |
| Links.Sender.WriteCell | link/link.go:285-307 | Each frame takes the next number whether or not the socket takes it, and after one failure nothing is sealed any more |
| Links.Receiver.ReadCell | link/link.go:310-319 | Skips padding and returns the first other cell, or fails at the first frame that does not open |
| Links.ReadsNext | link/link.go:310-337 | Behind any padding, a read gives the next cell and goes no further; a frame that does not open gives nothing and leaves its number due |
| Links.Receiver.ReadFrame | link/link.go:321-337 | The number moves on only when a frame opens |
| Setup.SetupRoundTrip | wire/setup.go:116-385 | For every chain that is accepted, laid out as Dial does and with addresses that survive their field, opening and forwarding hop by hop gives each relay exactly its next address and circuit, its cell key, offsets and tag as the client holds them, and the exit its first counter |
| Setup.BuildSetup | wire/setup.go:116-245 | Succeeds exactly on chains that fit, and makes the nested layers under the agreed keys |
| Setup.BuildsExactly | wire/setup.go:116-245 | A setup can be built exactly for chains whose layers fit one cell and whose every hop has a key of the suite's size that agrees and an address that fits its field |
| Setup.KeysApart | wire/setup.go:23-30 | The setup's key and the cells' key are derived apart, and each offset from an output of its own |
| Setup.ContextBinds | wire/setup.go:406-410 | The transcript of a hop fixes its number, its link, the relay's key and the one-time key |
| Setup.ContextExists | wire/setup.go:406-410 | For keys of the right size the context of a hop always exists |
| Setup.AcceptedFits | wire/setup.go:62-113 | Any chain that is accepted passes every size and hop-count check of OpenSetup |
| Setup.FirstForward | wire/setup.go:250-256 | The loop computes the sum of the forward offsets before the exit |
| Setup.FirstMatchesCircuit | wire/setup.go:247-256 | That sum is the counter that the client's cell 0 carries into the exit |
| Setup.HopOpens | wire/setup.go:274-374 | A relay on the chain opens its own layer to exactly what is owed to it |
| Setup.OpensSetupsOnly | wire/setup.go:274-374 | A cell opens exactly if it is a control cell within the hop count whose layer has room, agrees, opens and holds a full head, with a counter below 2^62 where the chain ends |
| Setup.HopForwards | wire/setup.go:378-385 | What it forwards is the setup of the next relay, full size whatever the fill |
| Setup.AddrRoundTrip | wire/setup.go:412-422 | An address survives the fixed field exactly when it does not end in a zero byte |
| Kdf.ScanName | crypto/kdf.go:58-74 | The scan accepts exactly the names of the grammar [a-z0-9]+(/[a-z0-9]+)* up to 32 bytes |
| Kdf.CleanIsGrammar | crypto/kdf.go:58-74 | No slash at an end, none doubled and all other bytes alphanumeric is the same as being words joined by slashes |
| Kdf.HeadInjective | crypto/kdf.go:33-38 | A label determines its suite and purpose |
| Kdf.LabelsExactly | crypto/kdf.go:33-51 | There is a label exactly for a known suite and a name of the grammar, and for derivation only if that name is not reserved; and its bytes |
| Kdf.DerivedLabelsApart | crypto/kdf.go:41-51 | No derived label is a label of agree or mix or heads a transcript, and different purposes have different labels |
| Kdf.TranscriptBytes | crypto/kdf.go:120-146 | Fails exactly on an unknown suite, a bad name, too many parts or a part too long, and otherwise appends the parts in order |
| Kdf.TranscriptInjective | crypto/kdf.go:114-146 | Suite, exchange and parts are all determined by the transcript |
| Ring.RingSafety | relay/onion.go:86-188 | In every run in which no key pair is handed in twice, at most two keys with consecutive epochs are live, every key taken is released exactly once when it leaves, none on a refused call, and no tag is let through twice under one key |
| Ring.SetupOnce | relay/onion.go:153-188 | No two accepted setup cells have the same header and layer, whatever refill stands behind it, if a cell opens under one public key only; under one key no two even share header and ephemeral key |
| Ring.SameSetupOpensAlike | wire/setup.go:274-374 | Opening a setup reads its header and its layer and nothing behind it |
| Ring.RunGenuine | relay/onion.go:153-188 | Every setup let through had opened under its key and with its tag |
| Ring.OnionRing.Rotate | relay/onion.go:86-114 | Takes a good pair with the next epoch, moves the current key back and frees the one before; a refused call changes nothing |
| Ring.RotatesTo | relay/onion.go:86-114 | Each of the refusals exactly on its own condition and without effect; success gives the next epoch, both slots and the buffer released |
| Ring.OnionRing.Open | relay/onion.go:153-188 | Does with a cell what Tried says, which OpensExactly pins down, and leaves exactly one cell key unreleased on success and none on failure |
| Ring.OpensExactly | relay/onion.go:153-188 | A cell is refused exactly when the ring is closed, no held key opens it, or the newer key that does has seen its tag or has no room for one more; otherwise it gets just the layer that key opens, and that key alone remembers the tag |
| Ring.OpensTagged | relay/onion.go:153-188 | As the schedule sees it an attempt burns one tag under one held key, or nothing: the event in the runs of Rotation is what Open does |
| AcceptedSetups.AcceptedSetupOpens | cmd/relay/onion.go:144-204 | In every run, while a verifier accepts a descriptor of this node, a setup built for the key it names opens the first time it comes, before and after the rotation, to exactly what its client put there for this hop |
| AcceptedSetups.HeldKeyOpens | relay/onion.go:153-188 | A ring that holds the key in either slot lets such a setup through, if its tag is new and there is room |
| Ring.OnionRing.Retire | relay/onion.go:118-125 | Frees the previous key and only that |
| Ring.OnionRing.Close | relay/onion.go:127-136 | Frees both keys, once |
| Ring.LetGo | relay/onion.go:118-136 | A release frees the older key and nothing else; closing frees both, for good and once |
| Rotation.AcceptedKeyIsHeld | cmd/relay/onion.go:144-204 | Over every run of signings, rotations, failed rotations and releases on one clock, while a verifier at most Skew behind accepts a descriptor the ring still holds the key it names |
| Rotation.RotationsSpaced | cmd/relay/onion.go:84-184 | Rotations are at least the period and, after the first, the grace apart |
| Rotation.TickKeeps | cmd/relay/onion.go:144-184 | Every tick keeps the schedule, and a rotation frees no key: a release is pending exactly while a replaced key is held |
| Rotation.NeverKeptLate | cmd/relay/onion.go:144-184 | Whatever the two clocks do, after a check a replaced key is held only while neither has reached its release |
| Rotation.OnionNode.RotateIfDue | cmd/relay/onion.go:144-184 | Does one check as Due, the function that RotatesExactly, RotationSigns and NoKeyGrowsOld are about |
| Rotation.RotatesExactly | cmd/relay/onion.go:144-204 | In every kept history a check rotates exactly when either clock has run the period since the latest rotation, the replaced key's grace is over, and a consistent, new pair of the right size comes; it then holds that pair under the next epoch, the old key as previous, and both deadlines on both clocks |
| Rotation.RotationSigns | cmd/relay/onion.go:183-226 | The same step signs a descriptor for the new key, exactly while the certificate allows one |
| Rotation.ClosedNodeRests | cmd/relay/onion.go:144-150 | A check after shutdown does nothing |
| Rotation.FailuresCounted | cmd/relay/onion.go:161-182 | A check counts a failure exactly when a rotation was due and no good pair came |
| Rotation.NoKeyGrowsOld | cmd/relay/onion.go:144-184 | In every run, when a good pair comes the current key is that pair or was made less than the period, or less than the grace of its predecessor, ago |
| Rotation.OnionNode.Sign | cmd/relay/admin.go:368-392 | Signs for the ring's current key, if there is a certificate to sign under |
| Rotation.SignsExactly | cmd/relay/admin.go:368-392 | Exactly when a certificate and the lifetime allow one, one more descriptor is signed, for the current key and epoch from this second on; nothing else changes |
| Windows.Refreshed | pki/identity.go:102-149 | Names the given key and epoch, starts now and never ends after its lifetime; RefreshedExactly says the rest |
| Windows.RefreshedExactly | pki/identity.go:102-149 | A descriptor comes about exactly for a lifetime of up to 24 hours under a certificate, both reaching past the second of signing; it ends a lifetime after signing or with the certificate, whichever is sooner |
| Windows.AcceptedExactly | pki/verify.go:242-261 | For every verifier clock, allowance and limit, what was signed is accepted exactly while the signing, the lifetime and the certificate say so |
| Windows.AcceptsInterval | pki/verify.go:242-261 | Any descriptor, whoever made it, is accepted at exactly the instants of one interval, from the allowance before the later beginning to its own end, if it lies within the certificate and the longest life |
| Windows.RefreshedAccepted | pki/verify.go:242-261 | From signing on, a verifier with the node's certificate accepts exactly until the lifetime counted from the signing is over or the certificate ends |
| Admission.BooksAlways | relay/limits.go:181-286 | In every interleaving of connections, handshakes, departures and timers the shared counts are the real ones and the sums over sources, handshakes never exceed links, no cap is exceeded, no source with links is dropped, every entry has a link or a timer, and the table stays within its cap |
| Admission.StepKeeps | relay/limits.go:181-297 | Each of the five events keeps those books |
| Admission.TimerKeeps | relay/limits.go:268-286 | The entry a forget timer was set for is still the one in the table when it fires |
| Admission.ForgetsExactly | relay/limits.go:268-286 | A timer that fires drops its source exactly when that has no link open and both buckets are full by then; a source kept without a link has a timer again |
| Admission.RoomKept | relay/limits.go:230-243 | The table never outgrows its cap |
| Limits.Limiter.AdmitLink | relay/limits.go:181-243 | Does with a connection what Admit says, the function that VerdictExactly, BooksAlways, PassesBounded and RestedPasses are about |
| Limits.VerdictExactly | relay/limits.go:181-228 | Each of the six answers exactly on its own condition, from the table's room and the source's tokens and caps to the shared caps, which refuse only sources within their own allowance |
| Limits.Limiter.LeaveLink | relay/limits.go:254-264 | Counts one link fewer and settles its source |
| Limits.Limiter.SettleSource | relay/limits.go:268-286 | Drops a source without links once both buckets are full, and sets one timer before that |
| Limits.Limiter.TimerFired | relay/limits.go:276-285 | Clears the mark and settles the entry again if it is still the one in the table |
| Limits.Limiter.SetupAllowed | relay/limits.go:288-297 | Does with a setup what AllowSetup says, the function that PassesBounded and RestedPasses are about |
| Forgetting.ForgettingIsUnseen | relay/limits.go:181-297 | While the clock goes forward and there is room, the table that forgets answers every connection and every setup exactly as a table that never forgets and has no timers |
| Forgetting.StepMirrors | relay/limits.go:181-297 | Each event keeps the two tables level, a forgotten source being as good as a new one |
| Buckets.FullIsNew | relay/limits.go:106-133 | A full bucket decides like a new one |
| Buckets.StaysLevel | relay/limits.go:110-113 | Buckets that stand level now stand level ever after |
| Rates.PassesBounded | relay/limits.go:101-157 | In any window a source passes its link or setup rate check at most burst + rate * length times, across forgetting and re-creation |
| Rates.RefusedHasUsed | relay/limits.go:101-243 | The converse: a source is refused for its rate only if there is a window up to that refusal in which it passed more than burst + rate * length - 1 times |
| Rates.RestedPasses | relay/limits.go:101-297 | A source that passed at most min(burst, rate * d) - 1 times in the last d seconds is not refused, whatever it did before: after d quiet seconds it passes min(burst, rate * d) times, rounded down |
| Rates.NoRateNoRefusal | relay/limits.go:117-122 | A rate that is turned off refuses nobody in any run |
| Rates.StepSpends | relay/limits.go:115-157 | Each pass costs one token and nothing but time fills a bucket |
| Tables.NeverTwice | relay/relay.go:602-676 | In every interleaving circuits and owners are inverse, no link carries two circuits, no hop is closed twice or while registered |
| Tables.AllClosedAtTheEnd | relay/relay.go:359-556 | Once every handler has ended both tables are empty and every hop ever built was closed exactly once |
| Tables.NeverReplaced | relay/relay.go:639-676 | A live circuit id or a link's entry is never replaced, and only the link's own handler removes it |
| Tables.LinkTakenUnreachable | relay/relay.go:651-655 | The second look at owners before registering never finds the link taken |
| Tables.CircuitTables.Enter | relay/relay.go:639-659 | Refuses a closed relay, a taken id and a taken link, in that order, and otherwise registers both ways |
| Tables.EntersExactly | relay/relay.go:639-659 | In every interleaving a handler's circuit is entered exactly while the relay is open and the id is free; otherwise the tables stay, and the hop and its link go |
| Tables.ServesExactly | relay/relay.go:602-676 | A setup builds a hop exactly on a link without a circuit; a dialled hop serves, a dropped one is closed once and takes its link along if it must |
| Tables.LeavesExactly | relay/relay.go:532-544 | A failed dial and the end of a link take exactly the two entries of that link's circuit |
| Tables.CircuitTables.ExtendFailed | relay/relay.go:666-673 | Takes both entries out again |
| Tables.CircuitTables.TearDown | relay/relay.go:532-544 | Takes the link's circuit out of both tables and hands it on to be released |
| Auc.RankSumAuc | lab/metrics/correlation.go:101-132 | For every score list, whatever order the sort leaves ties in, the rank sum gives (pairs won + half the pairs tied) over all pairs, and is undefined exactly without both kinds |
| Auc.Roc | lab/metrics/correlation.go:138-171 | One point per group of ties, rising from (0,0) to (1,1), and the trapezoid area under the points is that same number |
| Auc.AverageRanks | lab/metrics/correlation.go:106-117 | The tie walk gives every score its average rank |
| Auc.RankSum | lab/metrics/correlation.go:119-132 | Twice the positives' ranks are the half pairs won plus P * P + P |
| Auc.HalvesGrow | lab/metrics/correlation.go:156-170 | A tie group below all before it adds one trapezoid of pairs |
| Compromise.Memo.From | lab/metrics/compromise.go:125-160 | The memo keyed without the draws left agrees with the plain recursion, because pool and draws keep their distance |
| Compromise.RogueEntryChains | lab/metrics/compromise.go:125-160 | A fresh memo gives the plain recursion's shares |
| Compromise.UpOrFailed | lab/metrics/compromise.go:117-160 | The shares that come up and that fail sum to 1 |
| Compromise.LastLikeFirst | lab/metrics/compromise.go:125-160 | With nobody withholding the exit is rogue in the share of rogue nodes, however many draws come before it |
| EveryChain.SharesCountChains | lab/metrics/compromise.go:119-160 | Over all ordered choices of distinct nodes behind a rogue entry, the number of chains that come up, fail, or come up with a rogue exit is the computed share of them all |
| Mirrors.FullMirrorsAreUniform | lab/metrics/compromise.go:69-106 | With nothing left out or withheld the mirror shares are exactly the uniform ones, and nothing is refused or fails |
| AllChains.MirrorCountsEveryChain | lab/metrics/compromise.go:55-106 | For every list of honest, withholding and other rogue nodes, every chain length and every number left out, the four computed shares are those of counting every entry and every chain its mirror gives |
| AllChains.HonestWays | lab/metrics/compromise.go:82-90 | The chains of honest nodes only behind an honest entry are the choices without replacement among the honest nodes |
| Mirrors.CleanCounts | lab/metrics/compromise.go:32-53 | The product is the share of ordered choices that stay among the honest nodes |
| Mirrors.CompromiseProbability | lab/metrics/compromise.go:39-53 | Undefined exactly where there is no such choice; otherwise both ends and any node of a uniform path |
| Mirrors.MirrorCompromiseProbability | lab/metrics/compromise.go:69-106 | The loops compute the shares that FullMirrorsAreUniform and MirrorCountsEveryChain are about; undefined where there is no such configuration |
| Choose.BelowIsUniform | client/choose.go:94-111 | Every remainder below m is given by exactly the same number of 64-bit words |
| Choose.WholeCycles | client/choose.go:94-98 | Exactly 2^64 mod m words are thrown away, which leaves whole cycles |
| Choose.Source.DrawBelow | client/choose.go:96-111 | Takes the first usable word of at most 128, or says why there is none |
| Choose.BelowFails | client/choose.go:94-113 | A draw fails exactly when its tries are used up on words thrown away, or when the source ends before that |
| Choose.DrawsAndPaths | client/choose.go:33-56 | Draw vectors in range and ordered paths of distinct nodes from the entry correspond one to one |
| Uniform.PathsEquallyLikely | client/choose.go:10-56 | For every stream length, the number of random streams on which Choose returns a path is the same for all ordered paths of different nodes: drawn entry, thrown-away words, streams that run out and a partial last word included |
| Uniform.RestEquallyLikely | client/choose.go:33-56 | The same for ChooseRest behind a given entry |
| Uniform.StreamsCount | client/choose.go:94-111 | The number of streams that give a row of draws follows a recursion that does not mention the draws |
| Uniform.FirstWordGives | client/choose.go:96-111 | A word in front of a stream costs a try if it is thrown away and gives the first draw if it is not |
| Uniform.UsableWordsDealt | client/choose.go:35-56 | Words that are all usable deal the path of their remainders and are used up exactly |
| Uniform.PathsFromLeastWords | client/choose.go:10-56 | Every path is drawn from the product of the cycle counts of streams with as many words as nodes |
| Choose.EveryPathDealt | client/choose.go:47-54 | Every path is dealt by the draws read off it |
| Choose.DealtOnlySo | client/choose.go:47-54 | And by no other draws |
| Choose.ChooseRest | client/choose.go:35-56 | The swaps in place deal exactly the path of the draws, and every error is passed on |
| Choose.ChoosePath | client/choose.go:15-24 | Computes the path of the stream, which has the asked length and no repetition, or an error |
| Choose.JudgeMirror | client/choose.go:58-92 | Takes a mirror exactly when it holds the entry, lacks no more than allowed and still holds enough nodes for the chain |
| Choose.HeldCounts | client/choose.go:77-92 | What the loop counts is the number of listed nodes the mirror holds |
| Certificates.CertRoundTrips | pki/cert.go:60-99 | Exactly the well-formed certificates survive marshal and parse, and exactly their encodings are accepted |
| Certificates.DescriptorRoundTrips | pki/descriptor.go:32-67 | The same for descriptors |
| Certificates.RequestRoundTrips | pki/request.go:29-65 | The same for requests |
| Certificates.CertClasses | pki/cert.go:66-99 | A certificate is refused for its version exactly by its first byte, for its suite exactly by its second, and as malformed otherwise |
| Certificates.DescriptorClasses | pki/descriptor.go:38-67 | The same for descriptors |
| Certificates.RequestClasses | pki/request.go:35-65 | The same for requests |
| Certificates.ParseCertIsDecode | pki/cert.go:66-75 | The closing comparison with the canonical form never refuses a certificate |
| Certificates.ParseDescriptorIsDecode | pki/descriptor.go:38-47 | Nor a descriptor |
| Certificates.ParseRequestIsDecode | pki/request.go:35-44 | Nor a request |
| Certificates.DomainsApart | pki/cert.go:27-103 | No message signed as one kind of object is a message signed as another, whatever the bodies |
| Certificates.CertSignedOnce | pki/cert.go:47-103 | The signed message determines every field of a certificate but the signature |
| Certificates.DescriptorSignedOnce | pki/descriptor.go:20-30 | The same for descriptors |
| Certificates.RequestSignedOnce | pki/request.go:19-27 | The same for requests |
| Certificates.CheckName | pki/cert.go:105-116 | The loop accepts exactly 1 to 32 bytes of a-z, 0-9 and dash |
| Certificates.ReadCert | pki/cert.go:77-99 | Reading field by field with a sticky failure computes the decoded certificate or its error |
| Certificates.ReadDescriptor | pki/descriptor.go:49-67 | The same for descriptors |
| Certificates.ReadRequest | pki/request.go:46-65 | The same for requests |
| Certificates.WriteCert | pki/cert.go:47-64 | Appending field by field gives the encoding |
| Certificates.WriteDescriptor | pki/descriptor.go:20-36 | The same for descriptors |
| Certificates.WriteRequest | pki/request.go:19-33 | The same for requests |
| Codec.AllRead | pki/cert.go:204-267 | A row of fields that was written is read back whole, whatever follows it |
| Codec.AllWritten | pki/cert.go:204-267 | A row of fields that is read without failing is what a writer would have put there |
| Codec.Reader.Next | pki/cert.go:210-218 | Once a read fails every later one does |

## Left out

- Ciphers, curves, key derivation and signatures are values with laws; that a suite meets them is not shown, nor that NewAEAD can fail or that two keys of a suite agree on the overhead.
- Ring.SetupOnce: across keys it assumes that a cell opens under one public key only, which is a property of the suite's key agreement and cipher; under one key it assumes nothing.
- Rotation.AcceptedKeyIsHeld: a ring that is closed at shutdown is outside it, since a closed node keeps no key.
- AcceptedSetups.AcceptedSetupOpens: makes the same assumption, and asks that fewer setups came than one key remembers; with a full cache a setup is refused, as OpensExactly says.
- Links.LinkInOrder: says nothing past 2^64 frames of one direction, where the frame number would wrap.
- Forgetting.ForgettingIsUnseen: needs room in the table, since a full table refuses a source it does not know, and clock readings that do not go back.
- How long a forget timer waits: timers here may fire at any moment, which covers every wait.
- Rounding: buckets, AUC and the compromise shares are on exact numbers.
- The journey of a circuit over Links and Protocol together: the link theorem and the circuit theorem are separate, and the circuit theorem already holds for links that do anything.
- Handshakes, connecting, deadlines, idle and lifetime timers: they only close circuits, which Protocol allows at any moment and at any hop.
- Extending to the next relay: its outcome is a parameter of Tables, and the next link it opens and closes is not followed.
- ValidAddr, host and port syntax, sourceOf: library parsing; an address rule is a parameter of Certificates, an address a number in Limits.
- Statistics counters, logging, flags, HTTP handlers, JSON and base64 layers, enrollment and fetching.
- Locked memory: only whether a key has been released is followed.
- CompromiseFraction, TPRAtFPR, top-one accuracy, Pearson correlation, bootstrap intervals, cost metrics, lab/paths.go and the lab harness.
