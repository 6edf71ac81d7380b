# Verified models of Tailscale's tailnet lock, wire codecs, health tracker and log pipeline

A Dafny model of the parts of the repository with the most intricate logic, and
proofs about it. `dafny verify dfyconfig.toml` checks everything.

* **Tailnet lock** (`tka_*.dfy`). Node-key signatures and their rotation, the
  update log as a tree of signed messages, fork resolution, state replay,
  storage with its parent index, informing an authority of updates, the
  synchronisation exchange, compaction, whole runs of an authority and the
  update builder. Hashes are an ideal digest: a digest determines its message,
  so hash chains are structural; the order of digests used to break ties is a
  parameter.
* **DERP framing and client** (`derp.dfy`), **disco messages** (`disco.dfy`) and
  the addresses both carry (`wire.dfy`). Readers, writers and in-place encoders
  keep their buffers; what they do is stated on the byte stream.
* **Health tracker** (`health_kernel.dfy`, `health_tracker.dfy`). Suppression by
  dependencies as a graph kernel, and the timed publication of changes as a
  state machine over all runs.
* **Log pipeline** (`logtail_*.dfy`), **labelled metrics** (`multilabelmap.dfy`),
  **port ranges** (`ports.dfy`) and the **app connector's domain table**
  (`appc.dfy`).

Where the source works step by step, so does the model: classes with the source's
fields, loops with invariants, each tied to a function of the old state whose
properties are then proved over every run.

Some promises turn out to hold only under a condition. Each has the exact
condition, proved for all inputs, and an input or run on which it fails:

* a node that joined with an auth key can rotate its key 14 more times, not more,
  before its signature is too deep to decode (`DecodableIff`,
  `CredentialRunOverflows`), and its rotations are authorised only if it signs
  them with the auth key (`RunAuthorizedIff`, `JoinedRotationIff`);
* 512 trusted keys are a limit for checkpoints, but an accepted update can add
  the 513th (`KeyLimitKeptIff`, `KeyLimitBroken`);
* a node that compacted its storage can fall so far behind that synchronising
  finds no common update (`Exchange`, `BehindTooFarIff`, `BehindTooFar`);
* compaction can fail on a young oldest update, but only once the clock went back
  or for an authority bootstrapped in mid-history (`CompactsInOrder`, `Live`,
  `ClockWentBack`);
* in storage with several oldest updates, which no run of an authority produces,
  the update that was active before does not always decide (`Open`,
  `RememberedIff`, `ForgottenFork`, `ForgottenGenesis`);
* a zero-key ping with 32 or more bytes of padding and a relay endpoint without
  addresses do not survive the wire (`RoundTripIff`, `PaddedPingLoses`,
  `EmptyEndpointRefused`);
* only root causes are shown exactly for transitively listed dependencies
  (`OnlyRootsIff`, `ChainShowsNonRoot`), which the package's own are;
* the tracker's publication discipline breaks exactly when arguments change
  while a timer is pending or a heal beats an overdue timer (`StepKeepsIff`,
  `ChangedWhileHidden`, `UnownedTimerReportsOldSpell`);
* a domain listed twice loses its addresses without withdrawing them
  (`PartitionIff`, `ListedTwiceLoses`).

## Model

| member | source | states |
|---|---|---|
| NodeKeySig.VerifyAcceptsExactly | tka/sig.go:247-323 | verifySignature accepts a signature if and only if its layers form an authentic chain, said without recursion: a direct or credential leaf that nests nothing and is signed by the verification key, every layer around it a rotation signed by the nearest rotation key declared inside it, the outermost naming the node key and every inner non-credential layer a well-formed one |
| NodeKeySig.OuterSignedByNearest | tka/sig.go:155-170 | the recursive lookup of the wrapping key finds the nearest declared one: the outer signature check is the nearest-key condition |
| NodeKeySig.RotationDetailsLoop | tka/sig.go:326-348 | the loop collecting previous node keys returns the keys of the inner layers in order, the layer the walk ends at, or an error exactly when an inner key is malformed |
| NodeKeySig.DetailsOfAccepted | tka/sig.go:326-348 | for an accepted rotation whose leaf is direct or names no node key, the details list every inner node key newest to oldest, and that leaf as the initial signature |
| NodeKeySig.CollectPrevPubkeys | tka/sig.go:401-412 | the trimmer's first loop collects every named node key, newest first, and ends at the first layer that is no rotation |
| NodeKeySig.MaybeTrimRotationSignatureChain | tka/sig.go:396-437 | the re-wrapping loop builds the chain of the 14 newest keys around the end of the walk, and only when more than 15 keys are named |
| NodeKeySig.TrimPile | tka/sig.go:396-437 | trimming a pile of rotations keeps its 14 newest, signed anew by whoever trims, and its leaf untouched, exactly when it names more than 15 node keys |
| NodeKeySig.ResignPile | tka/sig.go:360-392 | one ResignNKS of a decodable pile, whoever signed its layers: unchanged when the key is the current one, else one more rotation around the trimmed pile |
| NodeKeySig.RotationRun | tka/sig.go:360-392 | after any run of rotations from a leaf that names a node key, each signed with any private key, the signature is the newest 15 rotations around that leaf |
| NodeKeySig.PileVerifiesIff | tka/sig.go:247-323 | a pile of rotations verifies under the leaf's authority key for its newest node key when every layer was signed by a holder of the leaf's wrapping key; only then, if signatures verify under no other key |
| NodeKeySig.PileAuthorized | tka/tka.go:688-711 | such a pile around a leaf of a trusted key decodes, keeps the authorising key ID, is authorised exactly then, and its details list the previous keys down to the original one |
| NodeKeySig.RotationsStayAuthorized | tka/sig.go:360-437 | start from a direct signature that verifies under a trusted key: after any number of rotations to any keys by holders of its rotation key the current signature decodes within 16 levels, is authorised for the current key, keeps the authorising key ID, and its details are the recent rotation history |
| NodeKeySig.KeylessLeafRun | tka/sig.go:401-419 | around a leaf without a node key nothing is trimmed: a run of rotations, each by any signer, succeeds if and only if at most 15 distinct rotations went before its last one, and the result is then one layer for each change of key |
| NodeKeySig.DecodableIff | tka/sig.go:360-392 | the nesting limit holds along a run, whoever signs each rotation, if and only if the leaf names a node key or at most 15 distinct rotations were made |
| NodeKeySig.CredentialIsFirstRotation | tka/sig.go:442-460 | SignByCredential with the auth key is the first rotation of the credential |
| NodeKeySig.CredentialRunOverflows | control/controlclient/direct.go:754-768 | a counterexample to the comment on the limit: a node signed in with any auth key and then rotated 15 or more times with any key of its own, each time to another node key, has a signature that cannot be decoded |
| NodeKeySig.RunAuthorizedIff | tka/tka.go:688-711 | the signature after a run that can still be decoded is authorised for the newest key if and only if everyone whose layer is left holds the rotation key the leaf declares |
| NodeKeySig.JoinedRotationIff | control/controlclient/direct.go:754-768 | a node is authorised when it joins with an auth key, and after it re-signs with its own key to another node key exactly if that key has the auth key's public half |
| TkaState.ApplyVerifiedAUM | tka/state.go:162-254 | applying an update with its loops over the keys equals the replay function Apply, error cases included |
| TkaState.ApplyKeepsGood | tka/state.go:162-254 | a verified update that applies leaves a state with at least one key, valid distinct keys and usable disablement values, and becomes its last update |
| TkaState.ApplyKeepsIDs | tka/state.go:162-254 | the two state identifiers survive every update |
| TkaState.KeyLimitKeptIff | tka/state.go:258-316 | from a state within limits, the result of a verified update passes checkpoint validation if and only if the update does not add a key to 512 existing ones |
| TkaExamples.KeyLimitBroken | tka/state.go:183-196 | a genesis with 512 keys and an update, verified against it, whose result is no longer a valid checkpoint |
| TkaState.Weight | tka/aum.go:324-361 | the loop over signatures computes the vote sum over the set of known signing keys |
| TkaState.VotesOfBound | tka/key.go:107-134 | a weight is at most 4096 votes per trusted key |
| TkaState.VotesOfKnown | tka/aum.go:324-361 | the vote sum depends only on which trusted keys are among the signers |
| TkaState.WeightBySet | tka/aum.go:324-361 | reordering or repeating signatures, or adding ones by unknown keys, leaves the weight as it is |
| TkaChain.RootedGood | tka/tka.go:423-454 | every update in a tree of verified updates below a checkpoint has a good state with the checkpoint's identifiers |
| TkaChain.BeforeIsTotalOrder | tka/tka.go:134-168 | the fork-resolution comparator (weight, then key removal, then lowest hash) is a strict total order on updates with distinct digests |
| TkaChain.NextUnique | tka/tka.go:134-168 | at most one child is chosen |
| TkaChain.ActiveUnique | tka/tka.go:371-419 | the chain in force is determined by the set of stored updates |
| TkaChain.WinnerStays | tka/tka.go:134-168 | adding the losing chain of a fork does not change the chain in force |
| TkaChain.WinnerTakesOver | tka/tka.go:134-168 | adding the winning chain makes it the one in force, whatever side branches are stored |
| TkaChain.SomeoneWins | tka/tka.go:134-168 | of two chains in force below one root one wins at the first fork |
| TkaChain.ExchangeConverges | ipn/ipnlocal/tailnet-lock.go:432-499 | two storages that send each other the chain they have in force end with the same chain head, also when one has forgotten history the other still has |
| TkaChain.ExtendActive | tka/tka.go:645-653 | appending a linked list of new updates to the head extends the chain in force by them |
| TkaStore.Mem.constructor | tka/tailchonk.go:111-115 | new storage is empty and well-formed |
| TkaStore.Mem.AUM | tka/tailchonk.go:156-164 | finds exactly the stored updates |
| TkaStore.Mem.ChildAUMs | tka/tailchonk.go:168-177 | returns exactly the stored updates with that parent, purged or not |
| TkaStore.Mem.Heads | tka/tailchonk.go:141-153 | returns exactly the stored updates without stored children, each once |
| TkaStore.Mem.CommitVerifiedAUMs | tka/tailchonk.go:183-210 | adds the updates, stamps each with the current time, and keeps the parent index right |
| TkaStore.StampedNew | tka/tailchonk.go:194-197 | committing updates that were not stored leaves every other time as it was |
| TkaStore.StampedAt | tka/tailchonk.go:194-197 | after a commit every committed update, known before or not, carries the new time and every other keeps its own |
| TkaStore.Mem.SetLastActiveAncestor | tka/tailchonk.go:126-131 | records the ancestor |
| TkaStore.Mem.PurgeAUMs | tka/tailchonk.go:257-293 | removes exactly the named updates and their times, keeping the parent index right |
| TkaAuthority.PickNextAUM | tka/tka.go:134-168 | returns the one candidate that goes before all others |
| TkaAuthority.AdvanceByPrimary | tka/tka.go:180-191 | advances to the chosen candidate and its state; no candidate means the end; an error means some candidate does not apply |
| TkaAuthority.FastForward | tka/tka.go:200-246 | follows the chosen children to the stop condition or a leaf, with the replayed state, or fails exactly after maxIter steps |
| TkaAuthority.FollowPath | tka/tka.go:301-331 | replays along a given path, and succeeds exactly when it is within the iteration limit |
| TkaAuthority.ComputeStateAt | tka/tka.go:249-331 | gives the replayed state of any stored update, on forks too, if and only if the nearest checkpoint is fewer than maxIter updates back; unknown hashes give not-exist |
| TkaAuthority.InForceUnique | tka/tka.go:385-419 | authorities with the same stored updates and oldest ancestor agree on head and state |
| TkaAuthority.ComputeChainCandidates | tka/tka.go:76-120 | on any storage, with any number of oldest updates: one chain for every update without stored children, ordered by the digests of the heads, each from the oldest stored update behind its head, flagged exactly when the remembered update lies between them and is not the head; fails exactly when some chain reaches the iteration limit |
| TkaAuthority.ComputeActiveAncestor | tka/tka.go:342-369 | the only ancestor, or one whose last listed chain ran through the active one; an error exactly when there is neither |
| TkaAuthority.LastThroughIff | tka/tka.go:346-348 | of the chains from one oldest update the flag that survives is that of the leaf with the largest digest |
| TkaForest.RememberedIff | tka/tka.go:72-75 | the remembered update leads to an oldest update if and only if it is stored below it and the leaf with the largest digest in that tree lies strictly below it; the documented promise asks only that some chain includes it |
| TkaForest.RememberedRoot | tka/tka.go:112-114 | a remembered oldest update is found again exactly when something stored was built on it |
| TkaForest.RootedPlanted | tka/tka.go:55-58 | an authority's own storage has exactly one oldest update |
| TkaExamples.ForgottenFork | tka/tka.go:482-498 | a storage of five updates on which Open fails although the remembered update is stored and has a descendant |
| TkaExamples.ForgottenGenesis | tka/tka.go:482-498 | a storage of two unrelated checkpoints, one of them remembered, on which Open fails |
| TkaAuthority.ComputeActiveChain | tka/tka.go:385-419 | on any storage of verified updates below any number of checkpoints: finds the chain in force below the only oldest update or else the remembered one, and fails exactly when there is neither or some chain reaches the iteration limit |
| TkaAuthority.Open | tka/tka.go:482-498 | an opened authority stands at the head of the chain in force, with the replayed state, below the only or the remembered oldest update; fails exactly when there is neither or a chain reaches 2000 updates |
| TkaAuthority.Bootstrap | tka/tka.go:536-565 | succeeds exactly on empty storage with a checkpoint signed by keys of its own state, and then stands on it, committed now; otherwise storage is unchanged |
| TkaAuthority.CheckUpdate | tka/tka.go:613-632 | a new update passes only if verified against and applied to the state at its parent, stored or earlier in the list, and always then unless a chain is too long |
| TkaAuthority.CheckUpdates | tka/tka.go:605-639 | the loop accepts every list of acceptable updates and accumulates the right states, without storing anything |
| TkaAuthority.InformIdempotent | tka/tka.go:584-665 | accepts exactly the non-empty lists of acceptable updates (chains within the limit), stores them all or none, stamps only the new ones, and ends on the chain in force of the enlarged storage, by the shortcut or by recomputing |
| TkaAuthority.HeadChainInForce | tka/tka.go:645-653 | the shortcut for updates that extend the head gives the authority that recomputing from storage would give |
| TkaSync.MakeSyncOffer | tka/sync.go:87-142 | the offer is the head, the ancestors exactly 4, 16, 64 and 256 updates back as far as they exist, and the oldest update |
| TkaSync.FindRemoteHead | tka/sync.go:173-191 | finds the remote head if and only if it is among the newest 400 updates of the chain |
| TkaSync.IsTailIntersection | tka/sync.go:203-224 | a remote ancestor is an intersection exactly when it is on the chain in force, also when it is stored on a side branch |
| TkaSync.ComputeSyncIntersection | tka/sync.go:147-227 | up to date exactly for equal heads, a head intersection exactly for a recent remote head, else the first listed ancestor on the chain; no intersection only when none is |
| TkaSync.MissingAUMs | tka/sync.go:231-276 | sends the chain after an update the remote named, so the remote has the parent of all it gets; within the iteration limit it fails if and only if the remote's head is neither ours nor one of our newest 400 updates and none of its ancestors is on our chain |
| TkaSync.SendAcceptable | tka/sync.go:231-276 | everything sent after an update the receiver stores is acceptable to it |
| TkaSync.NamesIff | tka/sync.go:87-142 | an offer names an update of a chain exactly when one of its distances or its oldest update falls on it, or its head does |
| TkaSync.BehindTooFarIff | tka/sync.go:87-142 | a node k updates behind finds no intersection if and only if k > 0, it compacted, and none of the distances 4, 16, 64 and 256 falls within what it still stores |
| TkaExamples.BehindTooFar | ipn/ipnlocal/tailnet-lock.go:432-499 | a concrete pair: a node that compacted to two of three updates and a control plane one update ahead fail to synchronise |
| TkaSync.MissingBothWays | ipn/ipnlocal/tailnet-lock.go:454-460 | what either side misses is computed before anything is taken in; it fails if and only if control's offer names nothing the node looks for |
| TkaSync.Exchange | ipn/ipnlocal/tailnet-lock.go:432-499 | after one synchronisation node and control have the same head and state and the union of their chains; it fails, changing nothing, if and only if control's head is not among the node's newest 400 updates and nothing else it offers is on the node's chain, which needs a compacted node |
| TkaCompact.MarkYoungAUMs | tka/tailchonk.go:775-788 | marks exactly the updates committed after the time limit |
| TkaCompact.MarkActiveChain | tka/tailchonk.go:706-771 | cuts the chain at the last compactable checkpoint before its newest minChain updates, or at its beginning when it is short, and fails exactly when there is none |
| TkaCompact.FindCompactionTarget | tka/tailchonk.go:737-754 | walks back to the nearest checkpoint that is old enough or the genesis, and fails exactly when there is none |
| TkaCompact.MarkDescendantAUMs | tka/tailchonk.go:903-933 | marks all descendants of what is marked, and nothing that has no marked parent |
| TkaCompact.LeafIsBase | tka/tailchonk.go:903-933 | the marks are exactly the updates descending from the start |
| TkaCompact.ScanOne | tka/tailchonk.go:815-868 | one work-list item keeps both halves of the scan's invariant (everything kept is connected, nothing is kept without need) and fails only when a young oldest update lies before the cut |
| TkaCompact.MoveTarget | tka/tailchonk.go:835-865 | moving the target back marks the chain between the new and the old target |
| TkaCompact.MarkAncestorIntersection | tka/tailchonk.go:800-900 | the new oldest update is the last checkpoint not after the last chain update above everything that must stay; fails exactly when the oldest update must stay behind the cut |
| TkaCompact.RootStuckIff | tka/tailchonk.go:826-829 | the oldest update must stay behind the cut exactly when it is young, which CompactsInOrder excludes for a clock that does not go back |
| TkaCompact.KeptIffNeeded | tka/tailchonk.go:790-799 | an update is kept if and only if it lies between the new oldest update and something that must stay |
| TkaCompact.KeptStands | tka/tailchonk.go:936-977 | what is kept is an authority's storage in its own right with the same chain in force |
| TkaCompact.KeepsNewestAndYoung | tka/tailchonk.go:674-681 | the newest minChain updates of the chain and everything younger than minAge stay |
| TkaCompact.MarkAll | tka/tailchonk.go:944-964 | the marking phases together mark exactly what compaction must leave, and succeed exactly when compaction is possible |
| TkaCompact.Compact | tka/tailchonk.go:936-977 | succeeds exactly for positive options when the chain can be cut and not behind a young oldest update; then exactly the needed updates remain and head and state are as before; otherwise nothing changes |
| TkaLifetime.CompactsInOrder | tka/tailchonk.go:936-977 | when no update was committed before the one it was made on, compaction is possible if and only if the chain can be cut, which is if and only if the chain has at most minChain updates, nothing before it was forgotten, or its oldest update has aged |
| TkaLifetime.StillInOrder | tka/tailchonk.go:183-210 | taking in verified updates at a later time keeps commit times in that order |
| TkaLifetime.TidyStep | tka/tka.go:737-748 | Authority.Compact keeps head, state and that order; while the oldest update has aged or nothing was forgotten it succeeds, and the new oldest update has aged too |
| TkaLifetime.Live | tka/tka.go:536-748 | every run of bootstrap, Inform and Compact calls with a clock that does not go back: storage stays one tree below the authority's oldest update, committed in that order, with the authority on its chain in force, and from a genesis update no compaction ever fails; a run ends early only at the iteration limit |
| TkaExamples.ClockWentBack | tka/tailchonk.go:826-829 | a run in which the clock is set back after the genesis was committed, and compaction fails |
| TkaBuilder.UpdateBuilder.constructor | tka/builder.go:180-187 | a new builder starts at the authority's state and head |
| TkaBuilder.UpdateBuilder.MkUpdate | tka/builder.go:36-60 | appends the completed update exactly when it is signed, well-formed and applies; the updates stay hash-linked from the head and the state their replay; otherwise nothing changes |
| TkaBuilder.UpdateBuilder.AddKey | tka/builder.go:63-78 | adds the key at the end exactly when it has an ID, is not trusted, there is room and the update can be built |
| TkaBuilder.UpdateBuilder.RemoveKey | tka/builder.go:81-86 | removes the key exactly when it is trusted and the update can be built |
| TkaBuilder.UpdateBuilder.SetKeyVote | tka/builder.go:89-94 | replaces the key's votes exactly when it is trusted and the update can be built |
| TkaBuilder.UpdateBuilder.SetKeyMeta | tka/builder.go:100-105 | replaces the key's metadata exactly when it is trusted and the update can be built |
| TkaBuilder.UpdateBuilder.GenerateCheckpoint | tka/builder.go:107-120 | the checkpoint holds the replayed state without last hash, which for an unchanged authority is the builder's own state |
| TkaBuilder.UpdateBuilder.Finalize | tka/builder.go:126-169 | adds a checkpoint exactly when no checkpoint, genesis or end of storage lies within 50 updates counting the new ones; refuses exactly when it cannot or the head has moved |
| TkaBuilder.NeedsCheckpoint | tka/builder.go:126-154 | the backward walk decides exactly that |
| TkaBuilder.AddThenRemove | tka/builder.go:63-86 | adding a key and removing it leaves the trusted keys as they were |
| TkaBuilder.ReplayIsStateAt | tka/builder.go:36-60 | the builder's state is the state at its last update |
| TkaBuilder.BuiltTakesEffect | tka/builder.go:126-169 | taken in by the authority they were built for, the updates put it in exactly the builder's state |
| TkaBuilder.BuiltAcceptedIff | tka/tka.go:423-454 | the authority accepts what a builder made for it if and only if every update is signed, only by keys trusted before it, and none removes the last key; the builder checks neither |
| Derp.CutEncode | derp/derp.go:206-213 | an encoded frame followed by anything cuts back into the frame and the rest |
| Derp.ParseEncodeAll | derp/derp.go:275-286 | the bytes of any frames parse back to exactly those frames |
| Derp.Writer.WriteUint32 | derp/derp.go:173-186 | the byte-at-a-time loop writes the big-endian bytes |
| Derp.Writer.WriteFrameHeader | derp/derp.go:255-272 | the in-place path and the byte-by-byte path write the same five bytes, whatever room is left |
| Derp.Writer.WriteFrame | derp/derp.go:275-286 | writes one frame and flushes, or nothing when it is over 10 MB |
| Derp.Reader.ReadFrameHeader | derp/derp.go:206-213 | reads type and length exactly when five bytes are left |
| Derp.Reader.ReadFrame | derp/derp.go:225-246 | consumes a complete frame within the limit to its end, returns what fits the buffer and reports a short buffer exactly when the payload exceeds it |
| Derp.Sender.Send | derp/derp_client.go:221-250 | sends exactly one frame with key and packet, nothing when the rate limit drops it, an error for packets over 64 kB; the output stays the frames sent |
| Derp.Sender.ForwardPacket | derp/derp_client.go:252-282 | sends exactly one frame with both keys and the packet, or an error for packets over 64 kB |
| Derp.Sender.SendPingOrPong | derp/derp_client.go:294-304 | sends exactly one frame with the eight bytes |
| Derp.Sender.NotePreferred | derp/derp_client.go:309-330 | sends exactly one frame with one byte |
| Derp.Sender.WatchConnectionChanges | derp/derp_client.go:334-341 | sends exactly one empty frame |
| Derp.Sender.ClosePeer | derp/derp_client.go:345-349 | sends exactly one frame with the key |
| Derp.DecodeFrameOf | derp/derp_client.go:535-645 | for every message type, the frame laid out as the protocol says is delivered as that message |
| Derp.Receiver.DiscardPeeked | derp/derp_client.go:498-505 | drops exactly the bytes peeked for the previous message |
| Derp.Receiver.ReadPayload | derp/derp_client.go:515-533 | peeking and copying give the same payload for every buffer size |
| Derp.Receiver.Recv | derp/derp_client.go:484-647 | one call returns the next message of the stream, whatever the buffer size and however it is split between peeked and buffered bytes; the first error is returned ever after; server info sets the rate |
| Derp.NextStep | derp/derp_client.go:507-537 | the frame at the front is rejected as too large, skipped, delivered or fails the stream, and nothing behind it matters |
| Derp.RecvAllFrames | derp/derp_client.go:484-647 | repeated calls on any frames, with or without an incomplete one behind, return the messages of those not dropped in order, up to the first that fails |
| Wire.AddrRoundTripIff | disco/disco.go:234-240 | an address survives the 16-byte form and Unmap exactly when it is valid and not an IPv4-mapped IPv6 one |
| Wire.AddrPortRoundTripIff | disco/disco.go:218-240 | so does an address with port |
| Disco.AppendMsgHeader | disco/disco.go:125-132 | the buffer holds what was there, type and version, and zeros for the data |
| Disco.FillAddrPorts | disco/disco.go:216-225 | the loop fills in the addresses one after the other and leaves the rest zero |
| Disco.FillCommon | disco/disco.go:369-377 | fills in the common part of the bind handshake |
| Disco.FillEndpoint | disco/disco.go:563-586 | fills in a relay endpoint |
| Disco.AppendPing | disco/disco.go:154-167 | the bytes appended are the layout of the ping, padding included |
| Disco.AppendPong | disco/disco.go:257-264 | the bytes appended are the layout of the pong |
| Disco.AppendCallMeMaybe | disco/disco.go:216-225 | the bytes appended are the layout of the message |
| Disco.AppendBind | disco/disco.go:400-447 | the bytes appended are the layout of the three bind messages |
| Disco.AppendVia | disco/disco.go:639-644 | the bytes appended are the layout of the message |
| Disco.AppendAllocateRequest | disco/disco.go:475-484 | the bytes appended are the layout of the message |
| Disco.AppendAllocateResponse | disco/disco.go:512-519 | the bytes appended are the layout of the message |
| Disco.AppendMarshal | disco/disco.go:112-116 | for all nine types the in-place encoder appends exactly the layout that decoding inverts |
| Disco.TakeAddrPorts | disco/disco.go:609-616 | the shrinking loop decodes every address in order |
| Disco.TakeEndpoint | disco/disco.go:589-618 | the cursor-wise decoder equals decoding at fixed offsets, never slices out of range, and its capacity hint is not negative |
| Disco.PingRoundTrip | disco/disco.go:154-184 | a ping comes back, except that a zero key with 32 or more bytes of padding loses 32 of them |
| Disco.PongRoundTripIff | disco/disco.go:257-279 | a pong comes back exactly when its address is plain |
| Disco.CommonRoundTrip | disco/disco.go:369-392 | the common part of the bind handshake comes back |
| Disco.EndpointRoundTripIff | disco/disco.go:563-618 | a relay endpoint, negative lifetimes included, comes back exactly when it has an address and all are plain; without one it is refused |
| Disco.AllocateResponseRoundTripIff | disco/disco.go:512-532 | an allocation response comes back exactly under the same condition |
| Disco.RoundTripIff | disco/disco.go:81-109 | for all nine types Parse of AppendMarshal returns the message if and only if its addresses are plain, a relay endpoint has one, and it is no zero-key ping padded by 32 or more |
| Disco.PaddedPingLoses | disco/disco.go:154-185 | a zero-key ping padded by 32 or more comes back with 32 bytes of padding less |
| Disco.EmptyEndpointRefused | disco/disco.go:589-618 | a relay endpoint without addresses is refused |
| Disco.MarshalInjective | disco/disco.go:112-116 | messages that survive are told apart by their encoding |
| Disco.DecodedEndpoint | disco/disco.go:589-618 | an accepted relay endpoint of n bytes has exactly (n-124)/18 addresses, at least one, all plain |
| Disco.ReparseIff | disco/disco.go:81-109 | for any packet that parses, encoding the message and parsing again gives the same message exactly for the stable packets |
| HealthKernel.IsEffectivelyHealthy | health/state.go:188-202 | the recursion over DependsOn, which ends on every acyclic graph, decides suppression |
| HealthKernel.ShownIsTheKernel | health/state.go:188-202 | a set is the set of effectively unhealthy warnables if and only if it is a kernel of the broken subgraph: no member depends on another and everything broken outside depends directly on a member |
| HealthKernel.SomethingShown | health/state.go:188-202 | suppression never hides everything that is broken |
| HealthKernel.OnlyRootsIff | health/health.go:301-306 | the documented reading, that an unhealthy dependency makes its dependents irrelevant, holds for every broken set if and only if dependencies are listed transitively |
| HealthKernel.ChainShowsNonRoot | health/health.go:301-306 | a counterexample for every chain of three whose ends are not linked |
| HealthKernel.BuiltinShowsRoots | health/warnings.go:106-248 | the package's own warnables list their dependencies transitively, so only root causes are shown |
| HealthTracker.Tracker.constructor | health/health.go:143-161 | a new tracker has nothing broken, pending or published |
| HealthTracker.Tracker.SetUnhealthyLocked | health/health.go:442-490 | records the state with the spell's start, and on a change publishes at once when visible, else arms a timer |
| HealthTracker.Tracker.SetHealthyLocked | health/health.go:502-539 | forgets the state, stops the pending timer and publishes exactly when the spell was visible |
| HealthTracker.Tracker.TimerFired | health/health.go:477-486 | publishes the change the timer was armed with exactly when the warnable is still broken |
| HealthTracker.Tracker.CurrentState | health/state.go:124-171 | the loop selects exactly the warnables that are broken, visible and not suppressed, with their states; it selects something if and only if some member of the kernel is visible |
| HealthTracker.StepKeepsIff | health/health.go:442-539 | a step keeps the publication discipline if and only if it neither changes arguments while a timer is pending nor heals while one is overdue |
| HealthTracker.ChangedWhileHidden | health/health.go:442-490 | a counterexample: reporting any hidden warnable twice with different arguments |
| HealthTracker.SoundRunIff | health/health.go:442-539 | a run keeps it all along exactly when it has no such step: every pending timer belongs to a broken warnable and no recovery is published of something not published as broken |
| HealthTracker.PromptIsCalm | health/health.go:477-486 | runs in which timers fire when due and arguments stay the same while hidden have no such step |
| HealthTracker.WatchersKnow | health/health.go:408-415 | after every such run the picture a watcher builds from the published changes is exactly the visible part of what is broken, with current arguments |
| HealthTracker.BrokenBegan | health/health.go:447-452 | BrokenSince is the time of the input that began the current spell, read off the inputs alone, on every run |
| HealthTracker.ShortSpellSilent | health/health.go:525-532 | a spell shorter than TimeToVisible publishes nothing, and neither does the heal that ends it |
| HealthTracker.UnownedTimerReportsOldSpell | health/health.go:476-487 | a counterexample from every state with a hidden warnable: change its arguments, heal it, break it again, and the first timer reports the old spell while the new one is still hidden |
| LogtailBuffer.MemBuffer.constructor | logtail/buffer.go:32-36 | a new buffer is empty |
| LogtailBuffer.MemBuffer.TryReadLine | logtail/buffer.go:73-98 | hands out the held-back line, a marker or the next line, and updates every counter |
| LogtailBuffer.MemBuffer.Write | logtail/buffer.go:100-120 | accepts exactly when there is room, taking the drop count along, else counts a drop |
| LogtailBuffer.MarkerInjective | logtail/buffer.go:87 | a marker line tells its count |
| LogtailBuffer.BufferTellsStory | logtail/buffer.go:73-120 | for every interleaving, what was read followed by what is queued is every accepted line in order, each preceded by the number of refusals just before it if any |
| LogtailBuffer.FirstInFirstOut | logtail/buffer.go:73-120 | lines come out first in first out, and every refusal is counted exactly once in a marker read, a marker queued or the current count |
| LogtailBuffer.CountersAgree | logtail/buffer.go:54-61 | after every run bytes written are bytes read plus stored, bytes stored are those of the queued lines, bytes dropped those refused |
| LogtailUpload.TrimCommas | logtail/logtail.go:217 | trims exactly the trailing commas |
| LogtailUpload.Prepare | logtail/logtail.go:247-262 | fills in missing metadata and encodes |
| LogtailUpload.SendBatch | logtail/logtail.go:213-239 | posts the JSON array of exactly the collected entries, compressed when worth it |
| LogtailUpload.Collect | logtail/logtail.go:264-272 | flushes before an entry that would overflow the batch, then appends it |
| LogtailUpload.UploadLogs | logtail/logtail.go:194-276 | entries are posted in order, each in exactly one batch, in greedy batches whose body is at most maxLen+1 bytes unless it is a single entry; on every exit the count is that of entries in successful batches; no error means all were sent |
| LogtailUpload.GreedyUnique | logtail/logtail.go:264-269 | the batches are determined by the encodings: there is only one way to cut greedily |
| MultiLabelMap.Search | metrics/multilabelmap.go:160-162 | binary search finds the first entry whose labels are not below the given ones |
| MultiLabelMap.LabelMap.constructor | metrics/multilabelmap.go:36-45 | a new map is empty |
| MultiLabelMap.LabelMap.Init | metrics/multilabelmap.go:141-150 | removes every key |
| MultiLabelMap.LabelMap.AddKeyLocked | metrics/multilabelmap.go:155-173 | inserts at, or updates, the position found and keeps the list ordered |
| MultiLabelMap.LabelMap.GetOrFill | metrics/multilabelmap.go:187-202 | returns the stored variable, adding it first when missing |
| MultiLabelMap.LabelMap.Set | metrics/multilabelmap.go:208-213 | sets map and list |
| MultiLabelMap.LabelMap.Delete | metrics/multilabelmap.go:259-273 | deletes from list and map when the search finds the key |
| MultiLabelMap.FoundIff | metrics/multilabelmap.go:265-269 | binary search agrees with map lookup as long as no other key of the map has the same labels |
| MultiLabelMap.WriteLabels | metrics/multilabelmap.go:56-91 | the loop over the fields writes the label string |
| MultiLabelMap.LabelsInjective | metrics/multilabelmap.go:56-91 | two keys of one struct type with the same label string are equal, whatever their string, integer and boolean fields hold |
| MultiLabelMap.EveryRunMirrors | metrics/multilabelmap.go:141-273 | after every run of Set, getOrFill, Delete and Init on keys of one struct type the list is strictly increasing by label string and holds exactly the pairs of the map |
| Ports.ServicePortRange | ipn/serve.go:960-992 | outside Tun mode the ranges are in order, disjoint and not adjacent, and cover exactly the non-zero served ports, wrap-around of the last port included |
| Ports.CanonicalUnique | ipn/serve.go:977-990 | there is only one such list |
| Ports.CanonicalShortest | ipn/serve.go:977-990 | no list of ranges that covers the same ports is shorter |
| Ports.ProtoTextReads | types/ipproto/ipproto.go:155-180 | all 256 protocol numbers print to a name or number that parses back |
| Ports.HostPortReads | tailcfg/proto_port_range.go:123-175 | host and printed ports parse back |
| Ports.ParsedPrintable | tailcfg/proto_port_range.go:89-119 | whatever is accepted is in order and non-zero, or all ports, with a protocol of eight bits |
| Ports.PrintParseIff | tailcfg/proto_port_range.go:59-74 | printing and parsing gives a range back if and only if its protocol fits eight bits and its ports are all, or non-zero and in order |
| Ports.AcceptedSurvives | tailcfg/proto_port_range.go:89-119 | whatever is accepted survives being printed and parsed again |
| Ports.ServedSurvive | tailcfg/tailcfg.go:1538-1545 | every range a service reports survives it too |
| AppConnectors.BinarySearch | appc/appconnector.go:501-504 | finds exactly the members of a sorted list |
| AppConnectors.AppConnector.HasDomainAddrLocked | appc/appconnector.go:501-504 | the binary-search lookup is membership |
| AppConnectors.AppConnector.AddDomainAddrLocked | appc/appconnector.go:508-511 | appending and sorting adds exactly the address; the list stays strictly sorted when it is new |
| AppConnectors.AppConnector.IsAddrKnownLocked | appc/appconnector.go:456-469 | known exactly when recorded or inside a control route, and recorded afterwards; lists stay strictly sorted |
| AppConnectors.AppConnector.RecordAdvertised | appc/appconnector.go:482-494 | records exactly the advertised addresses that were missing; lists stay strictly sorted |
| AppConnectors.AppConnector.UpdateDomains | appc/appconnector.go:289-343 | the new table holds the listed domains and those under a wildcard with their old addresses, and exactly the addresses of all other domains are withdrawn |
| AppConnectors.TakeValue | appc/appconnector.go:305-306 | a domain listed once keeps its addresses; listed again it loses them |
| AppConnectors.PartitionIff | appc/appconnector.go:289-343 | every old pair of domain and address is kept or dropped, never both; none is lost if and only if no domain with addresses is listed twice |
| AppConnectors.ListedTwiceLoses | appc/appconnector.go:305-306 | a counterexample: any domain listed twice |

## Left out

- Cryptography and encodings: Ed25519, BLAKE2s, CBOR, JSON, NaCl boxes and zstd are parameters. Assumed are only that a signature verifies under its public key, that public keys have 32 bytes, that the codec round-trips values within the nesting limit of 16 and fails beyond it, that digests do not collide, that a quoted string can be read back from the front of a text, and that JSON objects end in a brace. That a signature verifies under no other key is assumed where it is needed to show that something is refused (RunAuthorizedIff, JoinedRotationIff and the second half of PileVerifiesIff).
- PrevAUMHash is absent or a full digest; byte slices of other lengths there, and nil versus empty slices elsewhere, are not distinguished.
- Storage errors other than a missing update, and the filesystem storage, are not modelled; Open and what it calls take any storage of verified updates below checkpoints, everything else one tree below one checkpoint, which bootstrapping, informing and compacting are shown to keep. Oldest updates that are not checkpoints are not modelled.
- Weights and vote sums are unbounded integers; VotesOfBound shows they stay far below the machine width.
- Key metadata is a list of entries, of which only the total size matters.
- MakeRetroactiveRevocation, Create, disablement secrets and deep links are not part of this model.
- TkaAuthority.PickNextAUM: takes the first element of the source's sorted slice directly; the sort itself is library code.
- TkaSync.Exchange: both sides run the client's code, as the control plane is not in the repository; message loss and concurrent updates are not modelled. Beyond 2000 updates the iteration limits apply and nothing is promised.
- TkaLifetime.Live: a run ends when a stored chain reaches the iteration limit of 2000, because an authority that fails to recompute its chain is left with updates it does not stand on. The compaction options stay the same throughout.
- TkaCompact.Compact: options are not negative, and no commit interleaves with the marking.
- DERP: the handshake, write timers, connection errors in mid-frame, and the rate limiter's own arithmetic are not modelled; whether a send is within the rate is a parameter.
- Derp.DecodeFrameOf: server info is left out of this round trip, because its frame is an encrypted box of a library.
- Disco: the sealed envelope and message summaries are not modelled. Addresses have no zones.
- HealthTracker: each operation happens at one instant, Stop is atomic, and timers never fire early. Control-plane messages, text rendering, ETags, shutdown and the many conditions that set warnables are not modelled.
- LogtailBuffer: lines are non-nil, and each call is atomic.
- LogtailUpload: the background uploader with its retries and waiting is not modelled.
- MultiLabelMap: variables are identities, strings are quoted by a parameter, and struct types with other than string, integer and boolean fields, on which the source panics, are not modelled; nor are lock-free readers between the two updates of Set.
- Ports: lower-casing is ASCII; UnmarshalJSON of protocols and IP sets are not modelled.
- AppConnectors: addresses are numbered in their sort order. Observing DNS responses, updateRoutes, storing routes and the queue are not modelled, and an address withdrawn for one domain while kept for another is not treated specially, as in the source.
- Generated clones and views, platform plumbing, feature hooks and synchronisation wrappers would only add easy members.
