# A model of the bootnode, its mempool, its chain and its clients

A server keeps a transaction pool, produces a signed block every 30-second slot, and gossips
transactions and blocks to the clients connected to it; each client keeps a replica of the
pool, the tip and the finalized height. The project models that node and proves what holds
however its tasks interleave.

How the model is laid out:

- `Bytes`, `Crypto`: bytes, big-endian integers, base16; SHA-256, Ed25519 and base64 as
  parameters. A Rust `String` is its UTF-8 bytes. Of SHA-256 nothing is assumed but 32-byte
  digests (section 6.2 of FIPS 180-4). `Lawful` lists what is assumed of base64 (sections 3.5
  and 4 of RFC 4648) and of Ed25519 (sections 5.1.6 and 5.1.7 of RFC 8032);
  `LawsAreConsistent` shows that the list can be met.
- `Clock`, `Finality`: slots, epochs and the finality rule both sides carry.
- `Transaction`, `Merkle`, `Chain`: encodings, the Merkle root, headers, blocks, chains.
- `Mempool`, `Replica`, `Node`: the classes `TxStore`, `Client` and `State` with the source's
  fields and methods. Each method is proved against a function on the value of those fields.
- `Network`: one state machine made of exactly those functions. Every locked section of the
  server is one event; the producer's round is the events Sleep, Wake, Drain, Build, Commit,
  Snapshot and one SendNext per peer, and any other events may come between them.
- `ChainSafety`, `Accounting`, `Delivery`, `Clients`, `Logs`: what every event keeps.
- `Runs`, `Headers`, `Evictions`, `Inclusions`, `Replies`, `Replicas`, `ReplicaPools`,
  `Lookups`, `Sessions`, `Witnesses`: the theorems, about every `Reachable` state or every `Run`. They rest on `Invariant`, which
  `Runs.RunKeepsInvariant` shows of every state of every run.

Two conventions. Binding results never assume the hash injective and never conclude merely
that a collision exists, which is true of every 32-byte hash: they conclude that one is found
among the strings actually hashed for the two objects compared (`CollisionIn`). Where Merkle
roots of id lists are compared, two more escapes are named, each for its own case: a digest of
base16 digits, and a preimage of zero (`HexDigestIn`, `ZeroPreimageIn`, `SameIds`).
And each connection has a numbered channel whose log is everything ever sent on it, so nothing
depends on node ids being distinct except where `Sessions` says so.

Where the code differs from what its comments or names suggest, the model follows the code:

- The comment at the finality step speaks of the last block of the epoch before the previous
  one; the code yields the first slot of the previous epoch (`BoundaryFinalizes`,
  `GapFreeLag`) and takes slots for heights, so finality can pass the tip
  (`FinalityCanPassTheTip`; exact condition in `FinalityExistsIff`).
- `seen` is written and never read, and equal nonces are accepted, so a transaction can be
  included twice (`SameTransactionInTwoBlocks`; exact condition in `AcceptedAgainIff`), though
  never more often than it was accepted (`InclusionsWithinAcceptances`).
- The Merkle root does not bind the list: whenever the length is an odd number of three or
  more times a power of two, repeating the last entries, as many as that power, keeps the root
  (`RepeatedBlockIsInvisible`). The exact condition is to have one depth and to agree at every
  position of the filled-up tree (`RootsEqualIffTwins`). Block ids are distinct, which is what
  `RootBindsList` needs.
- `canonical_bytes` has no length prefixes (`RecipientRunsIntoData`; exact condition in
  `CanonicalBytesIdentifyIff`). An absent recipient and an empty one, and undecodable data and
  empty data, are encoded alike; `version`, `sig_alg` and `sig_b64` are not encoded
  (`EncodedAlike`).
- A client's pool is contained in the server's, not equal to it (`ReplicaCanMissPending`).
  Whether a client has a pending transaction is settled by the moment of its acceptance: the
  channel must have been open, been told or have had it already, and not have been owed a
  block with it that has arrived since (`PendingOnChannelIff`, `ClientHasPendingIff`).
- Disconnecting removes whichever session registered last under the node id
  (`ReusedIdDropsNewerSession`; exact condition in `RegistrationLostIff`, and over a run in
  `ConnectedIffRegistered`).
- Between draining and committing a transaction is in neither the pool nor a block, and the
  lookups do not find it (`UnbufferedIsAway`).

Assumed about time: the server's clock does not go back, stays below 2^64 - 16 seconds, and a
sleep does not end before its target. A client's clock is arbitrary.

## Model

| member | source | states |
|---|---|---|
| Clock.NewAligned | src/consensus/clock.rs:12-16 | the clock starts on the multiple of 30 at or below the read |
| Clock.NextSlotStartIsLeast | src/consensus/clock.rs:21-25 | the next boundary is the least multiple of 30 strictly above the read |
| Clock.AlignedClocksAgree | src/consensus/clock.rs:12-25 | aligned clocks agree on the next boundary whenever each was started |
| Clock.NextSlotStartFitsIff | src/consensus/clock.rs:21-25 | the computation stays within u64 exactly for reads below 2^64 - 16 |
| Clock.SlotAdvances | src/net/server.rs:1098-1101 | waking at or after the boundary slept for gives a later slot |
| Finality.BoundaryFinalizes | src/net/server.rs:1156-1163 | at a boundary slot of 32 or more the rule gives the slot minus 32, at an earlier one zero |
| Finality.HeightAtMostSlot | src/net/server.rs:1098-1111 | a chain is never taller than its last slot |
| Finality.FinalityMonotone | src/net/server.rs:1156-1163 | finality never goes down and stays 32 below the last slot |
| Finality.FinalizedAtMostIff | src/net/server.rs:1156-1163 | for every m the folded rule yields at most m exactly when no boundary block lies above slot m + 32 |
| Finality.FinalizedExistsIff | src/net/server.rs:1156-1163 | in particular, right after a boundary block finality names an existing height exactly when at most 32 slots were missed |
| Finality.GapFreeLag | src/net/server.rs:1155-1163 | with no slot missed the finalized height is the first block of the epoch before the tip's and lags by 32 to 63 |
| Finality.LateJoinerAgrees | src/net/client.rs:294-303 | folding the rule from any later block agrees with folding it from the start once a boundary block was seen, and is zero before |
| Bytes.BigEndianAt | src/rpc/types.rs:32 | byte i from the left is the low byte of the value shifted right by the bytes after it |
| Bytes.HexAt | src/rpc/types.rs:61 | each byte becomes its two lower-case digits, the high half first |
| Transaction.AppendCanonicalBytes | src/rpc/types.rs:28-57 | the buffer built field by field is the canonical encoding |
| Transaction.TagsInNumbers | src/rpc/types.rs:31 | the encoding begins with the six bytes of the domain tag, and a valid transaction names the seven of ed25519 |
| Transaction.ParseInvertsCanonicalBytes | src/rpc/types.rs:28-57 | for a 32-byte key and a known recipient length a parser recovers every covered field |
| Transaction.EqualIdsEqualFields | src/rpc/types.rs:60-62 | equal ids and equally long recipients mean equal covered fields, or the two encodings collide |
| Transaction.CanonicalBytesIdentifyIff | src/rpc/types.rs:43-45 | among equal encodings the covered fields agree if and only if the recipients are equally long |
| Transaction.EncodedAlike | src/rpc/types.rs:28-57 | version, algorithm name and signature are not encoded; no recipient and an empty one, and undecodable and empty data, are encoded alike |
| Transaction.RecipientRunsIntoData | src/rpc/types.rs:43-53 | moving a zero byte from recipient to data leaves encoding and id unchanged, and either both transactions are validly signed or neither |
| Transaction.EqualIdsEqualSender | src/rpc/types.rs:31-41 | equal ids mean the same sender and nonce whatever the recipients, or the encodings collide |
| Transaction.VerifiesIff | src/rpc/types.rs:97-108 | a transaction verifies exactly when it is validly signed and the clock has not passed its expiry |
| Transaction.RefusedFor | src/rpc/types.rs:97-108 | each error is given exactly when its own check fails and those before it pass |
| Transaction.SignTx | src/rpc/types.rs:64-95 | what is signed carries the given fields and verifies exactly until its expiry, because the signature field is not signed |
| Merkle.ListRootHex | src/chain/types.rs:51-66 | the loop yields the layered root in exactly the rounded-up logarithm of rounds and at most n - 1 plus that many interior hashes |
| Merkle.ListRootIsTreeTop | src/chain/types.rs:51-66 | the layered root is the top of the recursive duplicate-last tree, whose top level is one node wide |
| Merkle.RootSplits | src/chain/types.rs:54-65 | the root of 2^k digests a and at most as many more b is the hash of a's root followed by b's root, the latter paired with itself up to the same height |
| Merkle.EqualHalves | src/chain/types.rs:59-60 | when b's tree is as deep as a's the root is the hash of a's root followed by b's root |
| Merkle.SmallRoots | src/chain/types.rs:51-66 | the root is 64 zeros for no string, the hex of h(x) for one, and of h(h(x) + h(y)) for two |
| Merkle.RootOfThree | src/chain/types.rs:58-60 | for three strings the last digest is hashed with itself and goes on the right |
| Merkle.LayersBuildTheTree | src/chain/types.rs:54-64 | replacing layers until one digest is left climbs that tree level by level |
| Merkle.CeilLog2IsLog | src/chain/types.rs:54-64 | the number of rounds k is the least with n at most 2^k |
| Merkle.PathFoldsToRoot | src/chain/types.rs:53-65 | every leaf has a sibling path as long as the tree is deep that folds to the root |
| Merkle.SameRootSameLeaves | src/chain/types.rs:54-64 | trees of equal depth with one root carry equal digests at every position, or hashing them exhibits a collision |
| Merkle.RootBindsList | src/chain/types.rs:51-66 | duplicate-free id lists with one root are equal, lengths included, or the hashing exhibits a collision, a digest of base16 digits (different depths), or a preimage of zero (empty against non-empty) |
| Merkle.SameDepthRootsIff | src/chain/types.rs:51-66 | lists of any strings with equally deep trees have one root if and only if they agree at every position of the filled-up tree, or the hashing exhibits a collision |
| Merkle.RootsEqualIffTwins | src/chain/types.rs:51-66 | id lists that are both empty or agree in depth and at every position have one root for every hash; and one root means such lists, or the escape that belongs to the case |
| Merkle.RepeatedBlockIsInvisible | src/chain/types.rs:56-58 | for a length of an odd number of three or more times 2^k, repeating the last 2^k entries keeps the root, for every hash |
| Merkle.RepeatedLastIsInvisible | src/chain/types.rs:56-58 | the case k = 0: repeating the last entry of an odd list of three or more |
| Chain.HeaderSigningBytes | src/chain/types.rs:34-45 | the fields fed to the hasher give the digest of the header preimage, whatever the signature field holds |
| Chain.HashOfSignedBytes | src/chain/types.rs:47-49 | the hash is the hex of the digest of the signed bytes, themselves the digest of the fields |
| Chain.ParseInvertsPreimage | src/chain/types.rs:34-45 | the unprefixed preimage determines every header field but the signature |
| Chain.HeaderHashBinds | src/chain/types.rs:47-49 | equal header hashes mean equal headers apart from signatures, or a collision among the strings hashed |
| Chain.BuildBlock | src/net/server.rs:1102-1145 | receipts, roots, header, signature and hash built outside the lock are those of the block for the drained transactions |
| Chain.TipHashBindsHistory | src/net/server.rs:1105-1151 | chains from GENESIS with one tip hash have the same length and headers apart from signatures, or the hashing exhibits a collision; without one, each pair of blocks has the same transaction ids but for the Merkle escapes of that pair |
| Mempool.TxStore.constructor | src/rpc/mempool.rs:13-23 | the default pool is empty with capacity 50000 and minimum fee 0 |
| Mempool.TxStore.InsertIfNew | src/rpc/mempool.rs:26-46 | result, eviction and new state of an insertion, each rejection leaving the pool as it was |
| Mempool.TxStore.DrainBlock | src/rpc/mempool.rs:48-55 | some set of min(max, size) distinct entries is removed and returned |
| Mempool.InsertEffect | src/rpc/mempool.rs:29-45 | an accepted transaction is under its id and never the victim; all but the victim stay; anything not new changes nothing |
| Mempool.EvictsOnlyWhenFull | src/rpc/mempool.rs:38-44 | below capacity a new transaction joins the others; at capacity it takes the place of one of them |
| Mempool.DuplicateIsAccepted | src/rpc/mempool.rs:30 | a valid transaction already in the pool is answered as accepted and not new, whatever its nonce |
| Mempool.FreshMeans | src/rpc/mempool.rs:27-35 | being accepted as new means validly signed, unexpired, paying the fee, absent, and not below the sender's greatest nonce |
| Mempool.InsertKeepsSound | src/rpc/mempool.rs:39-44 | keys stay the ids of their values and in `seen`, and the size stays within capacity |
| Mempool.DrainSplits | src/rpc/mempool.rs:48-55 | drained and remaining ids are disjoint and together all, the count is min(max, n), and the ids drained are distinct |
| Replica.Client.OnNewBlock | src/net/client.rs:264-310 | hash and signature decide; on success ids are pruned, the tip moves and finality steps, otherwise nothing changes |
| Replica.Client.Receive | src/net/client.rs:239-258 | the effect of one message on the replica, a rejected block ending the client |
| Replica.PassesIff | src/net/client.rs:273-283 | a block passes if and only if its hash is its header's and, given a server key, its signature is 64 bytes that verify over the digest of the fields |
| Replica.BlockEffect | src/net/client.rs:275-303 | a rejected block only ends the client; an accepted one takes exactly its own ids out of the pool and moves the tip |
| Replica.ProducedBlockPasses | src/net/client.rs:273-283 | every block a producer builds passes the client's checks with that producer's key |
| Node.State.constructor | src/net/server.rs:1053-1060 | the initial shared state |
| Node.State.Register | src/net/server.rs:1224-1233 | the peer table points the node id at the new channel, which carries the member list |
| Node.State.Disconnect | src/net/server.rs:1308-1312 | the node id leaves the peer table, whichever session holds it |
| Node.State.OnTxSubmit | src/net/server.rs:1259-1284 | the pool takes the insertion, the submitter is answered, and every other registered peer hears of a new transaction |
| Node.State.OnTxAnnounce | src/net/server.rs:1285-1293 | the pool takes the insertion and nobody is told |
| Node.State.SubmitFromHttp | src/net/server.rs:853-876 | the pool takes the insertion and every registered peer hears of a new transaction |
| Node.State.PostTx | src/net/server.rs:806-886 | the response, every field of the transaction made from a message, and the hint to the next slot boundary |
| Node.SlotHint | src/net/server.rs:830-833 | the hint from a clock made on the spot is the time to the boundary of any aligned clock |
| Node.State.DrainForBlock | src/net/server.rs:1105-1111 | drains up to 100 and reads the tip |
| Node.State.CommitBlock | src/net/server.rs:1148-1165 | moves the tip, keeps the last 256 blocks, steps finality |
| Node.State.SnapshotPeers | src/net/server.rs:1173-1176 | collects every registered channel exactly once |
| Node.State.SendBlock | src/net/server.rs:1177-1179 | one channel gets the block, the rest is unchanged |
| Node.State.GetBlockByHeight | src/net/server.rs:920-929 | over consecutive heights the search is indexing by height minus the first buffered height |
| Node.State.GetReceiptById | src/net/server.rs:1006-1017 | the first receipt for the id in the newest block that has one, or none anywhere |
| Node.State.GetTxById | src/net/server.rs:950-1003 | the pool's transaction, else the newest block's receipt, reference and body, else nowhere |
| ChainSafety.SafeKept | src/net/server.rs:1094-1181 | every event keeps peer table, pool index, clock, chain, and the producer's private copies accurate |
| ChainSafety.BuiltBlockExtends | src/net/server.rs:1105-1145 | the block built outside the lock extends the chain, passes the client's check, and overflows no u64 |
| Accounting.ConservedKept | src/rpc/mempool.rs:26-55 | every event conserves accepted ids as a multiset: pool, producer's hands, blocks, evicted |
| Accounting.DisciplinedKept | src/rpc/mempool.rs:33-36 | every event keeps accepted nonces non-decreasing per sender and the nonce table their exact maximum |
| Delivery.DeliveringKept | src/net/server.rs:1173-1179 | every event keeps each channel's blocks a gap-free piece of the chain, complete for registered channels up to a pending block |
| Delivery.AnnouncingKept | src/net/server.rs:1268-1274 | every event keeps each channel's announcements a subsequence of the accepted transactions |
| Delivery.HearingKept | src/net/server.rs:871-875 | every event keeps a registered channel's announcements exactly the accepted transactions due to it |
| Clients.AnnouncementRefusedIff | src/net/client.rs:248-249 | a valid announcement in nonce order is refused exactly when expired by the client's clock |
| Clients.ReplicatingKept | src/net/client.rs:239-258 | every event keeps each replica a function of the messages read |
| Clients.ContainingKept | src/net/server.rs:1105-1179 | every event keeps each registered client's folded pool within the server's pool, what is in transit to it, and what was evicted |
| Runs.RunKeepsInvariant | src/net/server.rs:1076-1181 | the whole invariant holds in every state of every run |
| Runs.CommitExtendsTip | src/net/server.rs:1148-1153 | whatever happened since the tip was read, the committed block is the child of the tip at that moment |
| Runs.BufferIsLinkedSuffix | src/net/server.rs:1152-1153 | the buffer is exactly the last min(height, 256) blocks, with consecutive heights and linked hashes |
| Runs.ServerNeverGoesBack | src/net/server.rs:1148-1165 | over a run committed blocks stay, and tip and finalized height never go down |
| Runs.HeightsWithinSlots | src/net/server.rs:1098-1111 | slots increase along the chain, heights stay within slots, header integers within u64 |
| Runs.EqualTipsEqualHistories | src/net/server.rs:1105-1151 | nodes in any two runs with one tip hash have the same height and headers, or a collision is exhibited; without one, the same transaction ids in each pair of blocks but for the Merkle escapes of that pair |
| Runs.FinalityExistsIff | src/net/server.rs:1156-1163 | in every reachable state the finalized height is at most the tip exactly when no block in the first slot of an epoch lies more than 32 slots above the tip height |
| Runs.GapFreeFinality | src/net/server.rs:1155-1163 | in every reachable state without missed slots finality is the first block of the epoch before the tip's, 32 to 63 behind it, and zero in the first epoch |
| Headers.TimestampsFollowSlots | src/net/server.rs:1126-1136 | in every reachable state timestamps are at or after their slot's start, never go down along the chain and never lie ahead, and every header names the server's key |
| Headers.BlocksHaveOrigins | src/net/server.rs:1098-1133 | over a run every block of the chain carries the clock read at its building, the transactions then held, and the slot the producer had woken in |
| Headers.BlocksAreSigned | src/net/server.rs:1138-1145 | in every reachable state each block's signature verifies under the server's key over the digest of its fields, whose digest is its hash; the first parent is GENESIS |
| Runs.AcceptedAreCounted | src/net/server.rs:1105-1151 | accepted-new insertions number pool plus in flight plus in blocks plus evicted |
| Runs.AcceptedAreLocated | src/net/server.rs:1105-1151 | an accepted, never evicted transaction is in the pool, in flight or in a block |
| Evictions.EvictsExactlyWhenFull | src/rpc/mempool.rs:38-42 | over a run the server evicts, then one pending transaction, exactly when it accepts a new one while holding 50000 |
| Evictions.SeenInRun | src/rpc/mempool.rs:43 | over a run `seen` holds the ids of all accepted transactions and no others |
| Evictions.NothingEvictedEarly | src/rpc/mempool.rs:38 | a reachable state with at most 50000 acceptances has evicted nothing |
| Runs.QuietRunDrains | src/net/server.rs:1097-1111 | with no arrivals each round drains a hundred until none are left |
| Runs.BacklogClearsIff | src/net/server.rs:1097-1153 | with no arrivals n pending transactions are all committed exactly from the ceiling of n/100 rounds on |
| Inclusions.AcceptedAgainIff | src/rpc/mempool.rs:32-44 | an accepted transaction is accepted again exactly when unexpired, out of the pool, and not below its sender's greatest nonce |
| Inclusions.InclusionsWithinAcceptances | src/rpc/mempool.rs:26-55 | no id is in more committed blocks than it was accepted as new |
| Inclusions.TwoBlocksNeedReacceptance | src/rpc/mempool.rs:32-44 | an id in two blocks was accepted twice by one sender and nonce with no higher nonce in between, or encodings collide |
| Replies.EveryoneIsTold | src/net/server.rs:1259-1293 | in every reachable state an incoming transaction is accepted exactly when valid, unexpired, absent and not overtaken by a higher nonce; the submitter's channel grows by one acknowledgement that says so and why not, the other registered ones by one announcement if it is new and no gossip, the rest not at all |
| Replies.NewcomerIsGreeted | src/net/server.rs:1224-1233 | a new channel starts with exactly the registered node ids and names, the newcomer among them, and nobody else is told |
| Replicas.ReplicaAgreesWithServer | src/net/client.rs:286-303 | the blocks processed are a gap-free piece of the chain; tip and finality are the server's at its last block; the client never stopped |
| Replicas.ReplicaFinalityIsServers | src/net/client.rs:294-303 | over a run the client's finality equals the server's in the state right after the same block |
| Replicas.CaughtUpClientIsAtTip | src/net/client.rs:291 | a registered client with nothing unread or pending agrees with the server at its tip |
| Replicas.GossipIsComplete | src/net/server.rs:1268-1274 | a registered channel has carried every transaction accepted since it joined except its own peer's and relayed gossip |
| Replicas.GossipRefusedOnlyWhenExpired | src/net/client.rs:248-249 | the next announcement was accepted by the server and is refused exactly when expired, never for its nonce |
| Replicas.ReplicaPoolContained | src/net/client.rs:286-289 | folding the unread queue leaves only ids in the server's pool, in transit, or evicted |
| ReplicaPools.PendingWasAccepted | src/rpc/mempool.rs:32-45 | every id in the pool has stayed there since some event that accepted it as new |
| ReplicaPools.PendingOnChannelIff | src/net/server.rs:1105-1179 | what a registered channel leaves has a pending id exactly when the channel was open at its acceptance, carried it or had it already, and has not since been sent a block with it that was in transit then |
| ReplicaPools.PoolIsFoldOverRun | src/net/client.rs:239-258 | a client that never refused an expired announcement and never evicted has exactly what the messages read leave |
| ReplicaPools.ClientHasPendingIff | src/net/client.rs:286-289 | such a client, its queue read, has a pending id exactly under that condition |
| Lookups.LookupAnswers | src/net/server.rs:968-1003 | a receipt is found exactly when a buffered block has the id; receipt, index and body agree and the fallback search never runs |
| Lookups.LookupsAgree | src/net/server.rs:920-1017 | found exactly when in the pool or a buffered block; an answer from a block describes the newest block with the id, field by field, finalized exactly when the finalized height has reached it, with success, 21000 gas and the body's fee; an accepted id not found was evicted, is in flight, or is in an older block; both lookups give one receipt; heights index the chain |
| Lookups.FinalizedStays | src/net/server.rs:972 | over a run a block once within the finalized height stays the same block and stays within it |
| Lookups.UnbufferedIsAway | src/net/server.rs:1105-1153 | an accepted, never evicted id out of the pool and every buffered block is drained but uncommitted, or in a block older than the buffer |
| Sessions.RegistrationLostIff | src/net/server.rs:1308-1312 | a channel leaves the peer table exactly when its node id is registered again or any session under it ends |
| Sessions.ConnectedIffRegistered | src/net/server.rs:1224-1312 | throughout a run the peer table holds exactly the connected sessions if and only if no connection reuses a live node id |
| Sessions.ReusedIdDropsNewerSession | src/net/server.rs:1310 | with reuse, the older session's end drops the newer one |
| Witnesses.SameTransactionInTwoBlocks | src/rpc/mempool.rs:32-44 | any valid transaction living a minute can be committed twice |
| Witnesses.ReplicaCanMissPending | src/net/server.rs:1105-1179 | a client can end up without a transaction the server still has |
| Witnesses.FinalityCanPassTheTip | src/net/server.rs:1156-1163 | a reachable state with tip 1 and finalized height 64 |

## Left out

- Sockets, tokio tasks, JSON framing, HTTP routing, the command line and printing: a TCP stream with its mpsc channel is one FIFO log per connection.
- The handshake: a completed one is where a Connect event starts; no attacker is modelled.
- SHA-256, Ed25519, base64 and random number internals: parameters of the model.
- App and Ack chat, MemberUp and MemberDown, `/api/debug`, `/api/mempool`, `/api/blocks`, `ids_recent`, and commented-out code.
- TxIn events may name any submitting peer and come at any time, so the client-to-server direction of a connection is not modelled as a queue.
- Iteration order of the peer table in the member list: the list is a set of members.
- The producer's clock read for the header timestamp is the event's time, not a separate read.
- Height and tip are unbounded integers in the classes; that they stay below 2^64 in every run is part of Runs.HeightsWithinSlots.
- Client eviction in a full client pool is any key, as on the server; ReplicaPools.ClientHasPendingIff is about clients that have not evicted or refused an expired announcement.
