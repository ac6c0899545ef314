# turbopump in Dafny

turbopump is a replicated key-value store in the style of Dynamo: nodes sit on a consistent hash ring, a key's
locations keep all versions of it that no other version supersedes, and nodes compare Merkle digests to find out
what they miss. This project models the parts of it that carry the promises of the whole and proves those
promises.

| module | part of turbopump |
|---|---|
| `VectorClocks` | versions: order, merge, increment |
| `XorFold` | digests, folded with xor over maps |
| `FileStores` | the store: a directory of versions per key; writing, committing, purging, reading, enumerating |
| `WriteCommands`, `Calls` | a chunked write, its windows and its callbacks; what one call can do |
| `DigestAgreement` | any interleaving of chunked writes to a key, and the key's entry in the digest index |
| `Convergence` | replicas that complete the same writes in different orders, and their index entries |
| `HashRings` | the ring, sections, locations |
| `DigestIndexers` | the forest of digest trees of one mirror count |
| `Placement`, `ModifyPeers` | the forest against the ring: keys come and go, nodes join and leave |
| `Conservation` | any run of updates, removals, splits and merges of a forest |
| `KeyRanges` | ranges of keys under a Merkle point, and the narrowing of requests |
| `Frames`, `ConnectionWriters` | frames and the bounded buffer they are sent through |
| `CommandRunners`, `PeerConnections` | taking frames apart again, one command per stream; both ends together |
| `MessagePackers` | packaged requests, which create commands |
| `RunFlags` | the protocol that lets one thread at a time run a peer's commands |
| `MirrorChains` | the replication chain and its acknowledgements |
| `SkewCorrectors` | dropping, sending, offering and acknowledging keys at one node |
| `Clusters`, `ClusterInvariants` | one key on a whole cluster, byte by byte: chain, offers, demands, acknowledgements, drops, broken connections; what every step keeps, and when |
| `ReplicationSafety`, `UniformCopies`, `WholeCopies` | what holds in every run of a cluster, for any numbers of copies and for one; and when all copies are whole |
| `ClusterNodes` | the steps of a cluster are what the classes of its nodes do |
| `FreshVersions` | when the versions that nodes make can be relied upon |
| `LostWrites` | what becomes of a write whose file was dropped |
| `SmallWrites`, `ClusterRuns`, `LostFileRuns`, `LateHopRuns` | runs of a cluster that show what can happen |
| `Texts`, `VersionTexts`, `SyncMessages` | versions and Merkle points as text |

Code that changes state in place is a class whose methods are proved against functions on values; protocols are
state machines over those functions. `System`, `Cluster`, `Node` and the logs in them are states of such machines,
and the main results are lemmas about every state that any run of steps reaches.

## What turned out

These are places where a property holds only under a condition. The condition is part of the lemma, which goes both
ways, and a concrete input shows that the property can fail.

- A node that joins before all others on the ring does not get the keys beyond the last node, which are its own
  from then on (`Placement.JoinIndexes`; `Placement.AJoinThatStrands`). When such a key changes, it comes to be in
  two trees (`Placement.AnUpdateAfterAStranding`).
- Merging a section hands its keys to the next non-empty tree. That is the ring successor's exactly if the
  successor has a tree (`Placement.LeaveIndexes`; `Placement.AMergeThatSkipsTheSuccessor`).
- `ModifyPeer::remove` takes the node off the ring before it merges, and so merges the successor's section
  instead (`Placement.LeaveAsWrittenIndexes`, `ModifyPeers.ModifyPeer.Remove`; `Placement.ALeaveThatMisplaces`).
- A write of no bytes gets no frame when the buffer holds exactly `capacity` bytes
  (`ConnectionWriters.BufferedConnectionWriter.Write`).
- A blocking flush of an empty buffer reports failure, since sending nothing sends 0 bytes
  (`ConnectionWriters.BufferedConnectionWriter.FlushInternal`).
- A side without any keys compares with the null point. It should then ask for the whole outer range, and asks for
  nothing if that range starts at key 0 and is not the range of all keys (`KeyRanges.EmptySideRequests`;
  `KeyRanges.AnEmptySideAsksForNothing`).
- An inner range is taken for a part of the outer one by where it begins in machine order, although it may lie
  elsewhere in key order. Then the requests reach outside the outer range, or, if it comes first in key order and
  ends last in machine order, ask for nothing (`KeyRanges.NarrowingCovers`, `KeyRanges.NarrowingStaysInside`;
  `KeyRanges.ANarrowingInVain`).
- The second-to-last node of a chain acknowledges as well as the last, because its instructions have already
  been moved on to the last hop; and nobody does when the source is the last location or the ring is short of
  nodes (`MirrorChains.LastTwoAcknowledge`; `MirrorChains.TwoAcknowledge`, `MirrorChains.NobodyAcknowledges`).
- A chunk that reaches past the end of the next window leaves a counter above 0x10000, from which the next call
  subtracts, and reads past its chunk (`WriteCommands.CounterStaysInWindow`, `WriteCommands.WriteCommand.Run`;
  `WriteCommands.ALargeChunkThenAnOverrun`).
- A node that drops a key forgets which versions it made, and its clock counts whole seconds. An unversioned write that
  comes in the same second gets a version that was used before. Then one version stands for two writes
  (`ClusterRuns.AVersionUsedTwiceStandsForTwo`), and the second one, which its client was told is committed, can be lost
  (`ClusterRuns.AVersionUsedTwiceLosesAWrite`). The invariant of the cluster holds in all states of a run if and only if
  every file that a step creates agrees with its version (`ClusterInvariants.SoundIffAgreed`): a client that wrote that
  version before wrote the same, for as many copies, and no command at the node is still writing it. All that is said
  below of runs is said of these. A run is one of them if each unversioned write comes in a later second than all
  stamps of its node's id, and the same is seen to for versions that are named (`FreshVersions.CarefulRunsAgree`).
- A drop removes the unfinished files of writes in flight at the node. Every flush opens the file by its name again,
  so from then on such a write passes nothing on, is acknowledged by nobody, and ends failed
  (`ReplicationSafety.DropDefeatsWritesInFlight`, `LostWrites.DroppedWritesStayLost`). The last call of a write commits
  its version exactly if the file is still there (`ReplicationSafety.EndCommitsIffTheFileIsThere`;
  `LostFileRuns.ADropWithAWriteInFlight`, `LostFileRuns.AWriteIsLost`). No committed write is lost by this.
- A command that has lost its file stays without it in a step exactly if that step does not create a file of that
  version at its node (`LostWrites.LostUnlessRecreated`). If another command does, the first one commits what the other
  has written so far, and its client is told that its own bytes are committed
  (`LostFileRuns.AFileIsCreatedAgain`, `LostFileRuns.AFileCreatedAgainLosesAWrite`). Such a step does not agree
  (`LostWrites.RecreatingDisagrees`).
- A hop that cannot be opened for the first window of a write is chosen again for the next one. It then passes on only
  what comes from there, and the store at the other end ignores the offset: that node commits the end of the write as
  if it were all of it. Every copy is whole in all of a run exactly if hops and files are opened for the first bytes
  (`WholeCopies.WholeIffPrompt`; `LateHopRuns.ALateHopTruncates`). A truncated copy is passed on, acknowledged and
  dropped like any other, with no location having more (`LateHopRuns.ATruncatedCopyIsDropped`); in prompt runs what is
  dropped is kept in full (`WholeCopies.PromptDropsAreKept`, `UniformCopies.PromptDropsLeaveItToALocation`). In all
  runs some node has all of each committed write, or a newer version (`ReplicationSafety.NoCommittedWriteIsLost`).

## Model

| member | source | states |
|---|---|---|
| `VectorClocks.MergeIsLeastUpperBound` | src/lib/storage/FileStore.cpp:92-97 | merging two versions gives the least version that has seen both |
| `VectorClocks.IncrementIsAhead` | src/lib/storage/FileStore.cpp:106-109 | a version incremented from a bound of all versions of a key is strictly ahead of each of them |
| `VectorClocks.IncrementIsNext` | src/lib/common/VectorClock.cpp:82-91 | only the stamp of the writer moves, to the first one that is not before its clock and later than the one it had |
| `VectorClocks.SomeMaximalCovers` | src/lib/storage/FileStore.cpp:216-225 | every version is at or behind one that nothing supersedes |
| `VectorClocks.MergedVersionPresent` | src/lib/storage/FileStore.cpp:127-131 | of versions that do not supersede each other, the merged version is one exactly if there is a single one |
| `FileStores.FileStore.MergedVersion` | src/lib/storage/FileStore.cpp:88-99 | the loop over the directory yields the least upper bound of all its versions |
| `FileStores.FileStore.Exists` | src/lib/storage/FileStore.cpp:152-156 | true exactly for committed and unfinished versions |
| `FileStores.FileStore.Versions` | src/lib/storage/FileStore.cpp:158-183 | each version listed once; unfinished ones only on request |
| `FileStores.FileStore.Write` | src/lib/storage/FileStore.cpp:101-122 | a version that is named is refused exactly if it is there, finished or not, or has expired; otherwise the write starts that version, or the next one of this writer ahead of all there are; the new file is empty, and nothing else changes |
| `FileStores.FileStore.Read` | src/lib/storage/FileStore.cpp:124-141 | finds the file of the version that is named, however many others there are, unfinished ones first if asked for; of no named version, the file of the merged one, which without conflicts is the only one |
| `FileStores.FileStore.Remove` | src/lib/storage/FileStore.cpp:194-199 | the whole directory of the key goes, no other key is touched |
| `FileStores.FileStore.Commit` | src/lib/storage/writestream.h:74-93 | reports the digest so far; closing publishes the version, purges, and reports the digests of what it purged as well |
| `FileStores.FileStore.OnWriteComplete` | src/lib/storage/FileStore.cpp:201-209 | the unfinished file becomes the version, superseded versions go, their digests are folded into the reported one |
| `FileStores.FileStore.PurgeObsolete` | src/lib/storage/FileStore.cpp:211-236 | the two loops remove exactly the versions behind the new one, or the new one if it is behind, and fold exactly their digests |
| `FileStores.FileStore.EnumerateDigest` | src/lib/storage/FileStore.cpp:257-273 | the digest reported for a key is the fold over the name and size of every file in its directory |
| `FileStores.CommittedVersions` | src/lib/storage/FileStore.cpp:201-236 | a commit leaves exactly the maximal versions of what was there and the new one, with their contents |
| `FileStores.CommitDigestAgrees` | src/lib/storage/FileStore.cpp:228-234 | the digest a commit reports is exactly the change of the fold over all committed versions |
| `FileStores.UnversionedWriteIsAhead` | src/lib/storage/FileStore.cpp:105-110 | an unversioned write with no other commit before its own leaves exactly one version |
| `FileStores.UnversionedRead` | src/lib/storage/FileStore.cpp:124-141 | an unversioned read succeeds exactly when one committed version exists, and finds that one |
| `WriteCommands.WriteCommand.Run` | src/lib/api/WriteCommand.cpp:72-121 | for any chunk and any counter: exactly when the call reads past its chunk, and otherwise it changes the command, the key's directory and the callbacks as the specification says, and no other key; what becomes of commands that are finished, have no name or are refused |
| `WriteCommands.WriteCommand.Flush` | src/lib/api/WriteCommand.cpp:37-54 | a flush reports the new window and the change of digest, and starts the next window; a failed one changes nothing |
| `WriteCommands.WriteCommand.Commit` | src/lib/api/WriteCommand.cpp:56-65 | the last flush publishes the version; the command is finished whether or not it succeeds |
| `WriteCommands.FirstCall` | src/lib/api/WriteCommand.cpp:77-98 | the first chunk opens the version or is refused and leaves everything as it was |
| `WriteCommands.OverflowingCall` | src/lib/api/WriteCommand.cpp:103-113 | a chunk that overflows the window is taken whole and reports exactly one full window |
| `WriteCommands.CounterStaysInWindow` | src/lib/api/WriteCommand.cpp:103-118 | the counter stays within a window exactly if the chunk does not reach past the next one, or wraps the counter |
| `WriteCommands.ALargeChunkThenAnOverrun` | src/lib/api/WriteCommand.cpp:103-113 | concrete chunks after which the next one is read past its end |
| `Calls.CallDoesOneThing` | src/lib/api/WriteCommand.cpp:72-121 | a call leaves everything outside the command alone, creates the file, adds to it, reports one window that is less than the file then holds, or commits it |
| `Calls.CommitsIffItsFileIsThere` | src/lib/api/WriteCommand.cpp:37-65 | a command whose file is gone calls nobody back and changes no file, and its last call fails; one that has its file commits it |
| `DigestAgreement.EntryAgreesWithStore` | src/lib/callbacks/ComputedOptions.cpp:35-41 | in every state of every interleaving of chunked writes, the key's entry is its hash xor the digests of the committed versions xor what each write in flight last flushed |
| `DigestAgreement.RestartRebuildsEntry` | src/lib/turbopump/Turbopump.h:59-71 | with nothing in flight, rebuilding the index from the store gives the entry there is |
| `DigestAgreement.AWriteBegins` | src/lib/api/WriteCommand.cpp:77-98 | in every state of every interleaving a further write can begin, exactly if its version is not refused, and its file then holds its first chunk |
| `DigestAgreement.AChunkIsTaken` | src/lib/api/WriteCommand.cpp:100-121 | and each further chunk of a write goes to the end of its file |
| `DigestAgreement.ChunksTileTheFile` | src/lib/api/WriteCommand.cpp:37-121 | in every interleaving, the unfinished file is what was fed to its write, the counter stays at most 0x10000, and the windows of a finished write tile its file: full ones, then one complete one |
| `DigestAgreement.CommitPublishesTheBytesFed` | src/lib/api/WriteCommand.cpp:56-65 | the version a write publishes has the bytes fed to it, next to the other maximal versions |
| `Convergence.StoreHoldsMaximalVersions` | src/lib/storage/FileStore.cpp:201-236 | after any sequence of completed writes the store holds exactly the maximal versions of all written, an antichain, each with its contents |
| `Convergence.OrderDoesNotMatter` | src/lib/storage/FileStore.cpp:101-122 | whole writes completed in any order and with repetitions leave the same |
| `Convergence.RunHoldsMaximalVersions` | src/lib/api/WriteCommand.cpp:37-121 | in every state of every interleaving of chunked writes, the store holds exactly the maximal ones of the versions it started with and those finished since, with the bytes fed to their writes |
| `Convergence.ReplicasConverge` | src/lib/callbacks/ComputedOptions.cpp:35-41 | replicas at rest, told of the same versions with the same contents by any interleaved writes, hold the same and have the same index entry, each built by its own xor steps |
| `HashRings.OwnerIsNearest` | src/lib/hashing/ConsistentHashRing.cpp:35-41 | the wrapping lower bound is the nearest node clockwise |
| `HashRings.WalkVisitsNearest` | src/lib/hashing/ConsistentHashRing.cpp:27-33 | the locations are distinct, in order of distance, as many as asked for or all there are, and nearer than all others |
| `HashRings.VisitedIffNear` | src/lib/hashing/ConsistentHashRing.cpp:27-33 | a node is among the locations exactly if fewer nodes than asked for lie nearer ahead |
| `HashRings.ConsistentHashRing.Locations` | src/lib/hashing/ConsistentHashRing.cpp:27-33 | the loop yields the peers of the walk around the ring |
| `HashRings.PeersFollowWalk` | src/lib/hashing/ConsistentHashRing.cpp:27-33 | the i-th location is the peer of the i-th nearest node |
| `HashRings.ConsistentHashRing.Insert` | src/lib/hashing/ConsistentHashRing.cpp:16-20 | one position of the ring gets the peer |
| `HashRings.ConsistentHashRing.Erase` | src/lib/hashing/ConsistentHashRing.cpp:22-25 | one position leaves the ring, and whether it was there is reported |
| `HashRings.SectionLocations` | src/lib/deskew/Synchronizer.cpp:53 | looking up a section by its own id gives the locations of every key in it |
| `HashRings.LocateKeys.KeyIsMineIffNear` | src/lib/hashing/LocateKeys.cpp:27-43 | a key is the node's own exactly if one of its places on the ring has fewer than so many nearer ones ahead of the key, or there are no locations at all |
| `HashRings.LocateKeys.SectionIsMineIffNear` | src/lib/hashing/LocateKeys.cpp:45-51 | so it is with a section, from the place of the node that ends it |
| `HashRings.LocateKeys.SectionIsMineIffItsKeysAre` | src/lib/hashing/LocateKeys.cpp:37-51 | a section is the node's own exactly when each of its keys is |
| `DigestIndexers.DigestIndexer.Update` | src/lib/deskew/DigestIndexer.cpp:19-39 | the key's leaf in the tree of its section changes by the value, or starts from the hash of its name; a section that is new is wanted exactly if each of its keys is the node's own by distance on the ring |
| `DigestIndexers.DigestIndexer.Remove` | src/lib/deskew/DigestIndexer.cpp:41-52 | the key leaves the tree of its section, and an emptied tree leaves the forest and both sets |
| `DigestIndexers.DigestIndexer.SplitSection` | src/lib/deskew/DigestIndexer.cpp:86-125 | the new section takes the keys of the range from the next tree, whatever number is read from an empty id; empty trees are pruned; the index stays well formed; the new section is wanted exactly if its keys are the node's own, and the others stay as they were |
| `DigestIndexers.DigestIndexer.CannibalizeSection` | src/lib/deskew/DigestIndexer.cpp:127-146 | the next tree takes over the section's keys, unless it is the only tree; the index stays well formed |
| `DigestIndexers.SplitWellFormed` | src/lib/deskew/DigestIndexer.cpp:86-125 | after a split every tree is non-empty and under its own id, and the wanted and unwanted sets partition the ids |
| `DigestIndexers.CannibalizedWellFormed` | src/lib/deskew/DigestIndexer.cpp:127-146 | the same after a merge |
| `Conservation.RunStaysWellFormed` | src/lib/deskew/DigestIndexer.cpp:19-146 | over any run of the four operations every tree is non-empty, under its own id, its leaves where their names hash to, and wanted and unwanted partition the ids |
| `Conservation.RunStaysApart` | src/lib/deskew/DigestIndexer.cpp:19-146 | over any run, whatever sections the ring names, no key is ever in two trees exactly if each update finds its key in no tree but its own |
| `Conservation.MovesKeepEveryLeaf` | src/lib/deskew/DigestIndexer.cpp:86-146 | any run of splits and merges leaves the union of all leaves as it is |
| `Placement.SplitConserves` | src/lib/deskew/DigestIndexer.cpp:86-125 | a split loses and changes no leaf and keeps the trees disjoint, whatever the ring looks like |
| `Placement.CannibalizeConserves` | src/lib/deskew/DigestIndexer.cpp:127-146 | so does a merge |
| `Placement.UpdateApart` | src/lib/deskew/DigestIndexer.cpp:34-38 | an update keeps the trees disjoint exactly if no other tree holds the key |
| `Placement.UpdateIndexes` | src/lib/deskew/DigestIndexer.cpp:19-39 | an update keeps every key in its owner's tree, and changes the flat index by the xor rule |
| `Placement.JoinIndexes` | src/lib/callbacks/ModifyPeer.cpp:52-53 | joining the ring and splitting keeps every key in its owner's tree exactly if no key is stranded |
| `Placement.LeaveIndexes` | src/lib/deskew/DigestIndexer.cpp:127-146 | merging and then leaving does exactly if the node has no tree or its successor has one |
| `Placement.LeaveAsWrittenIndexes` | src/lib/callbacks/ModifyPeer.cpp:62-63 | leaving first and merging then does exactly if the node has no tree and its successor none or the only one |
| `Placement.FirstJoinIndexes` | src/lib/deskew/DigestIndexer.cpp:86-125 | the first node of a ring takes over the keys indexed before exactly if they all lie in the range that is split off |
| `Placement.AJoinThatStrands` | src/lib/deskew/DigestIndexer.cpp:101-115 | a concrete join after which a key is in the wrong tree |
| `Placement.AnUpdateAfterAStranding` | src/lib/deskew/DigestIndexer.cpp:19-39 | a concrete run of a join and an update after which a key is in two trees |
| `Placement.AMergeThatSkipsTheSuccessor` | src/lib/deskew/DigestIndexer.cpp:127-146 | a concrete leave after which a key is in the wrong tree, although the section was merged first |
| `Placement.ALeaveThatMisplaces` | src/lib/callbacks/ModifyPeer.cpp:62-63 | a concrete leave after which a tree is named for a node that is gone |
| `Placement.LeaveAndRejoin` | src/lib/deskew/DigestIndexer.cpp:86-146 | merge, leave, join, split restores the forest, for a node that is not the smallest and whose successor has a tree |
| `Placement.RunIndexes` | src/lib/callbacks/ModifyPeer.cpp:39-65 | over any run of updates, removals, joins and leaves, each key is always in exactly the tree its owner names if and only if no join strands a key and no leave misplaces one |
| `Placement.RingRunStaysApart` | src/lib/callbacks/ModifyPeer.cpp:39-65 | in such a run no key is ever in two trees |
| `ModifyPeers.ModifyPeer.Update` | src/lib/callbacks/ModifyPeer.cpp:39-55 | a new peer joins the ring and then the index, where a section that is new is classified by the new ring; keys stay placed exactly if none is stranded; a known one changes neither |
| `ModifyPeers.ModifyPeer.Remove` | src/lib/callbacks/ModifyPeer.cpp:57-65 | the peer leaves the ring and the successor's section is merged; when keys stay placed |
| `KeyRanges.AtMostIsUnsigned` | src/lib/deskew/Synchronizer.cpp:114 | the bitwise order is the order of the unsigned numbers |
| `KeyRanges.RangeHoldsKeysUnder` | src/lib/deskew/KeyRange.cpp:12-33 | the range of a point holds exactly the keys that share its first bits in big-endian order |
| `KeyRanges.KeyRange.FromLocation` | src/lib/deskew/KeyRange.cpp:12-33 | the swaps and shifts compute that range, for every number of bits |
| `KeyRanges.EndsNest` | src/lib/deskew/Synchronizer.cpp:112-119 | for a point below another, machine order and key order agree on where the ends of their ranges lie |
| `KeyRanges.NarrowRange` | src/lib/deskew/Synchronizer.cpp:106-125 | for a point below the other side's, the requests stay inside the outer range and cover every key of it that the inner range lacks; for any two points, exactly when they cover those keys |
| `KeyRanges.NarrowedIsComplete` | src/lib/deskew/Synchronizer.cpp:106-125 | for a point below the other one, the requests stay inside the outer range and cover every key of it that the inner range lacks |
| `KeyRanges.NarrowedIsExact` | src/lib/deskew/Synchronizer.cpp:113-124 | and beyond that only for the keys at which the inner range begins and ends, unless both ranges are the same |
| `KeyRanges.NarrowingCovers` | src/lib/deskew/Synchronizer.cpp:106-125 | for any two points, the requests cover those keys exactly if the inner range is not taken for a part, first in key order and last in machine order; otherwise they ask for no key at all |
| `KeyRanges.NarrowingStaysInside` | src/lib/deskew/Synchronizer.cpp:112 | for any two points, exactly when the requests stay inside the outer range |
| `KeyRanges.ANarrowingInVain` | src/lib/deskew/Synchronizer.cpp:112-120 | two concrete points for which nothing is asked for and everything is missing |
| `KeyRanges.EmptySideRequests` | src/lib/deskew/Synchronizer.cpp:114-123 | exactly when a side without keys asks for nothing |
| `KeyRanges.AnEmptySideAsksForNothing` | src/lib/deskew/Synchronizer.cpp:114-123 | a concrete point for which it does |
| `Frames.ParseEncoded` | src/lib/peer_server/PacketParser.cpp:12-26 | whole frames parse to themselves, and what follows is parsed next |
| `Frames.ParseCut` | src/lib/peer_server/BufferedConnectionWriter.h:152-163 | of frames cut anywhere the parser gets those that are whole and stops at the first that is not |
| `Frames.EncodedBytes` | src/lib/peer_server/BufferedConnectionWriter.h:55-61 | a frame is its length and one, high byte first, its stream and its payload |
| `Frames.FirstFrameIs` | src/lib/peer_server/PacketParser.cpp:12-26 | a frame is there exactly when all is that its first two bytes count, 0 counting as 0x10000 |
| `ConnectionWriters.BufferedConnectionWriter.PushBytes` | src/lib/peer_server/BufferedConnectionWriter.h:55-61 | exactly one frame is appended, and the buffer stays within its bound |
| `ConnectionWriters.BufferedConnectionWriter.FindFirstTruncatedPacket` | src/lib/peer_server/BufferedConnectionWriter.h:152-163 | the sender's retention point is the receiver's stop point |
| `ConnectionWriters.BufferedConnectionWriter.FlushInternal` | src/lib/peer_server/BufferedConnectionWriter.h:126-149 | what is buffered is offered to the socket once, and success means that all of it was taken; whatever the socket takes, the receiver's frames followed by the buffered ones stay the same |
| `ConnectionWriters.BufferedConnectionWriter.Write` | src/lib/peer_server/BufferedConnectionWriter.h:64-114 | what fits is taken whole as one frame; fewer bytes are accepted only if the socket took less than it was offered; exactly the accepted bytes are framed on their stream, in frames as long as may be; when an empty write is framed; a blocking one is taken whole |
| `ConnectionWriters.Converse` | src/lib/peer_server/BufferedConnectionWriter.h:64-163 | over any run of writes and flushes and any partial sends, each stream's parsed and buffered payload is what its writes reported as accepted |
| `CommandRunners.DataBuffer.Skip` | src/lib/common/DataBuffer.cpp:40-46 | skips as much as there is |
| `CommandRunners.DataBuffer.Read` | src/lib/common/DataBuffer.cpp:48-57 | splits the buffer at the size, or takes all there is |
| `CommandRunners.PacketParser.GetNext` | src/lib/peer_server/PacketParser.cpp:12-26 | takes the first frame off the buffer; on failure the payload is untouched and the header lost |
| `CommandRunners.PeerCommandRunner.ParseAndRun` | src/lib/peer_server/PeerCommandRunner.cpp:39-79 | handles exactly the whole frames of the buffer, in order |
| `CommandRunners.PeerCommandRunner.HandleFrame` | src/lib/peer_server/PeerCommandRunner.cpp:51-77 | a command that is not finished is run on the payload; otherwise the payload has to begin with a request, which creates one that is run on the rest, and kept unless it is finished from the start |
| `CommandRunners.PeerCommandRunner.DoWork` | src/lib/peer_server/PeerCommandRunner.cpp:32-37 | empties the queue and handles all its frames, in order |
| `CommandRunners.RunsOnEachPayload` | src/lib/peer_server/PeerCommandRunner.cpp:45-77 | a command that does not finish is run on the payload of each frame of its stream, in order, each run on what the one before left, and nothing else happens |
| `CommandRunners.RunsBehindItsRequest` | src/lib/peer_server/PeerCommandRunner.cpp:51-77 | the request at the start of a stream creates a command that is run on what follows it and then on each payload |
| `CommandRunners.StreamsAreIndependent` | src/lib/peer_server/PeerCommandRunner.cpp:39-79 | each stream's creations and runs, and the command it is left with, are what its own frames alone would give |
| `CommandRunners.MultiplexingIsTransparent` | src/lib/peer_server/PeerCommandRunner.cpp:39-79 | the same for any split of the frames into buffers |
| `PeerConnections.Serve` | src/lib/peer_server/PeerCommandRunner.cpp:32-79 | both ends: commands fare as if their stream's frames had come alone; a command that does not finish is run on exactly the bytes reported as accepted, behind its request if it was created by one, but for what is still buffered |
| `MessagePackers.Pack` | src/lib/peer_client/MessagePacker.cpp:7-13 | header and packet are copied in place, and nothing behind them is touched |
| `MessagePackers.Package` | src/lib/peer_client/MessagePacker.cpp:15-21 | the package is the frame of the packet under the id |
| `MessagePackers.PackageReadsBack` | src/lib/peer_client/MessagePacker.cpp:7-21 | a package parses as one whole frame exactly if the packet is shorter than 0x10000 bytes |
| `MessagePackers.RequestCreatesCommand` | src/lib/peer_server/PeerCommandRunner.cpp:57-77 | a packaged request at the start of a stream creates the command it names, which runs on what follows it |
| `RunFlags.OneThreadWorks` | src/lib/peer_server/PeerCommandRunner.cpp:23-30 | under every interleaving one thread at most is in `doWork`, with the flag set |
| `RunFlags.EverythingIsParsedOnce` | src/lib/peer_server/PeerCommandRunner.cpp:23-37 | when all threads are at rest the queue is empty, the flag clear, and each buffer that was handed over was parsed exactly once, in order for each producer |
| `RunFlags.SomebodyWillLook` | src/lib/peer_server/PeerCommandRunner.cpp:81-85 | while a buffer is queued some thread is on its way to look at the queue |
| `RunFlags.OneProducerKeepsOrder` | src/lib/peer_server/ConcurrentCommandCenter.cpp:19-24 | buffers handed over by one thread are parsed in exactly that order |
| `RunFlags.EnqueuedWereHandedOver` | src/lib/peer_server/PeerCommandRunner.cpp:81-85 | what was queued is what was handed over, in that order |
| `RunFlags.NobodyIsStuck` | src/lib/peer_server/PeerCommandRunner.cpp:23-37 | every thread can take its next step in every state |
| `RunFlags.ARun` | src/lib/peer_server/PeerCommandRunner.cpp:23-37 | a concrete run from a buffer handed over to rest, in which it is parsed |
| `RunFlags.OwnerKept` | src/lib/peer_server/PeerCommandRunner.cpp:23-30 | every step keeps the flag set exactly while one thread owns it, and hands ownership on |
| `MirrorChains.MirrorToPeer.ChooseMirror` | src/lib/callbacks/MirrorToPeer.cpp:17-47 | the hop is the first location from the mirror number on that is neither the source nor this node, and is chosen exactly if it is a member and neither of them; the source that is left behind even if not |
| `MirrorChains.ChainWrite.Run` | src/lib/callbacks/ChainWrite.h:21-34 | a hop is chosen and opened once, and later windows follow it |
| `MirrorChains.ChoiceAdvances` | src/lib/callbacks/MirrorToPeer.cpp:45 | the mirror number strictly increases and is bounded by the number of locations |
| `MirrorChains.ChainVisitsLocations` | src/lib/callbacks/MirrorToPeer.cpp:17-47 | a local write visits its locations other than the source in ring order, each exactly once, and never the source |
| `MirrorChains.NotifyWriteComplete.Run` | src/lib/callbacks/NotifyWriteComplete.cpp:16-24 | the source is sent the size exactly if the mirror number has reached the copies and the source is known |
| `MirrorChains.LastTwoAcknowledge` | src/lib/callbacks/ComputedOptions.cpp:106-116 | exactly which nodes of a chain acknowledge |
| `MirrorChains.TwoAcknowledge` | src/lib/callbacks/ComputedOptions.cpp:106-116 | a concrete chain of which two nodes acknowledge |
| `MirrorChains.NobodyAcknowledges` | src/lib/callbacks/ComputedOptions.cpp:106-116 | a concrete chain of which nobody does |
| `SkewCorrectors.SkewCorrector.DropKey` | src/lib/deskew/SkewCorrector.cpp:34-52 | a key is dropped exactly if it has one committed version: conflicts never are |
| `SkewCorrectors.SkewCorrector.SendKey` | src/lib/deskew/SkewCorrector.cpp:91-112 | a committed version that is named is sent whole, whatever others there are, as a finished write with all mirrors counted, and nothing is sent otherwise |
| `SkewCorrectors.SkewCorrector.PushKeyRange` | src/lib/deskew/SkewCorrector.cpp:59-89 | of each listed key exactly the versions in its directory are offered, finished or not, each once; except that of a key whose only version has expired nothing is, and it is dropped exactly if that version is committed; each drop is reported, and all else stays |
| `SkewCorrectors.SkewCorrector.TakeOffer` | src/lib/api/OfferWriteCommand.cpp:13-22 | a version is demanded exactly if the node has it neither finished nor unfinished |
| `SkewCorrectors.SkewCorrector.TakeAck` | src/lib/api/AckWriteCommand.cpp:16-30 | a node among the nearest of the ring, as many as the version's copies, never drops; any other drops, and reports it, exactly if the acknowledged version is the only committed one and of the acknowledged size |
| `SkewCorrectors.OnlyTheAcknowledgedIsDropped` | src/lib/api/AckWriteCommand.cpp:16-30 | an acknowledgement drops a key exactly if the acknowledged version is the only committed one, of the acknowledged size, at a node that is no location |
| `ClusterInvariants.SoundIffAgreed` | src/lib/storage/FileStore.cpp:101-122 | files, streams, copies and messages fit what is on record for their versions, no command is astray and what clients were told is covered, in every state of a run, if and only if each file that a step creates agrees with its version |
| `ClusterInvariants.NextKeeps` | src/lib/callbacks/ComputedOptions.cpp:90-116 | a step keeps the invariant of the cluster if and only if the file that it creates, if any, agrees with its version |
| `FreshVersions.NextStamp` | src/lib/storage/FileStore.cpp:105-109 | a version made later than all stamps of the node's id has the second of its making |
| `FreshVersions.LaterIsNew` | src/lib/storage/FileStore.cpp:105-109 | an unversioned write that comes later than all stamps of its node's id gets a version that no client has written, so that the step agrees |
| `FreshVersions.AfterADrop` | src/lib/deskew/SkewCorrector.cpp:34-42 | at a node that has nothing of the key, as after a drop, an unversioned write gets the version that has this second only, and the step agrees if and only if that version does |
| `FreshVersions.CarefulRunsAgree` | src/lib/storage/FileStore.cpp:101-122 | if before each call that may create a file the clock, or the version named, is seen to be fit, then every file of the run agrees with its version |
| `ReplicationSafety.NoCommittedWriteIsLost` | src/lib/deskew/SkewCorrector.cpp:34-112 | in every state of every run of chain, offer, demand, send, acknowledge, drop and broken connections in which files agree with their versions, some node has each committed write with all the bytes its client sent, or a newer version in full, whatever numbers of copies writes ask for |
| `ReplicationSafety.EveryCopyIsATail` | src/lib/callbacks/ChainWrite.h:21-34 | in every state of every such run, what a node has committed of a version is the end of a committed write's contents, and all of them exactly if it has their size |
| `ReplicationSafety.CopiesAgreeIffSizesDo` | src/lib/deskew/SkewCorrector.cpp:91-112 | nodes that have committed the same version have the same bytes of it exactly if they have as many |
| `ReplicationSafety.DropsOnlyWhatIsKept` | src/lib/api/AckWriteCommand.cpp:16-30 | a node drops only outside the version's locations, only the acknowledged version in the acknowledged size, acknowledged from nearer to the key; if that is all of it, a node as near as that one has all of it or it is superseded, and the acknowledging node itself has, or has a newer version, if it is a location of all newer versions |
| `ReplicationSafety.FullAcksAreKept` | src/lib/callbacks/NotifyWriteComplete.cpp:16-24 | the same of every acknowledgement of all of a version, however old |
| `ReplicationSafety.LocationsNeverForget` | src/lib/api/AckWriteCommand.cpp:27-28 | what a location of a version and all newer ones has committed in full stays there, or a newer version does, in every continuation of every run |
| `UniformCopies.LocationsKeepWhatTheyAcknowledge` | src/lib/hashing/LocateKeys.cpp:37-43 | if all writes ask for the same number of copies, only locations acknowledge, and they keep, in full, what they acknowledge in full, or a newer version |
| `UniformCopies.DropsLeaveItToALocation` | src/lib/api/AckWriteCommand.cpp:16-30 | then a node that drops the key is no location, and if it drops all of a version, the location that acknowledged it has all of it or a newer one |
| `UniformCopies.PromptDropsLeaveItToALocation` | src/lib/callbacks/ChainWrite.h:21-34 | and if hops and files are opened in time, that location always has |
| `ReplicationSafety.NothingComesOfALostFile` | src/lib/api/WriteCommand.cpp:37-65 | a call of a command whose file is gone passes nothing on, sends nothing and commits nothing, and the last one fails |
| `ReplicationSafety.DropDefeatsWritesInFlight` | src/lib/storage/FileStore.cpp:194-199 | after a drop in any run, the same of the next call of each command in flight at the node |
| `LostWrites.LostUnlessRecreated` | src/lib/storage/writestream.h:74-93 | in every state of every run, a command without its file stays without it in a step, and its hop gets nothing more, if and only if the step does not create a file of that name while it runs |
| `LostWrites.RecreatingDisagrees` | src/lib/storage/FileStore.cpp:101-122 | a step that does so creates a file that does not agree with its version |
| `LostWrites.LostWritesStayLost` | src/lib/api/WriteCommand.cpp:37-121 | so in every continuation in which files agree with their versions, a command without its file stays without it, and the hop it passed its write on with never gets another byte, nor its end |
| `LostWrites.DroppedWritesStayLost` | src/lib/storage/FileStore.cpp:194-199 | so do all commands in flight at a node that drops the key |
| `ReplicationSafety.EndCommitsIffTheFileIsThere` | src/lib/storage/writestream.h:74-93 | the last call of a command commits its version at its node if and only if its file is still in the directory, and otherwise changes nothing anywhere |
| `ClusterNodes.LocationsOfRing` | src/lib/hashing/ConsistentHashRing.cpp:27-33 | if the cluster lists its nodes as a walk around the ring meets them, a write's locations there are the ones the ring gives |
| `ClusterNodes.MineOnRing` | src/lib/hashing/LocateKeys.cpp:37-43 | and a key is a node's own there exactly by distance on the ring |
| `ClusterNodes.TakesOffer` | src/lib/api/OfferWriteCommand.cpp:13-22 | taking an offer at a node sends what the step of the cluster says |
| `ClusterNodes.TakesDemand` | src/lib/api/DemandWriteCommand.cpp:11-19 | so does answering a demand: the stream of the step carries what the node sends |
| `ClusterNodes.TakesAck` | src/lib/api/AckWriteCommand.cpp:16-30 | taking an acknowledgement leaves of the key what the step leaves, by distance on the ring |
| `ClusterNodes.Offers` | src/lib/deskew/SkewCorrector.cpp:59-89 | pushing a key sends exactly the offers that the node can make in the cluster |
| `ClusterNodes.Hops` | src/lib/callbacks/ChainWrite.h:21-34 | the hop that a node chooses is the one of the cluster |
| `ClusterNodes.Acknowledges` | src/lib/callbacks/NotifyWriteComplete.cpp:16-24 | so is the acknowledgement that it sends |
| `ClusterNodes.CallsBack` | src/lib/callbacks/ComputedOptions.cpp:90-116 | the commit callback of a node, which passes the window on before it acknowledges, does to streams and messages what the step does |
| `ClusterNodes.Runs` | src/lib/api/WriteCommand.cpp:72-121 | a call of a command at a node does to its directory, and calls back, what the step says |
| `WholeCopies.WholeIffPrompt` | src/lib/callbacks/ChainWrite.h:21-34 | every copy, file and stream is whole in all states of a run if and only if each step opens files for the first bytes of their streams and hops for the first bytes of their writes |
| `WholeCopies.PromptRunsGiveWholeCopies` | src/lib/callbacks/ChainWrite.h:21-34 | in such a run every node that has committed a version has all its bytes |
| `WholeCopies.PromptDropsAreKept` | src/lib/api/AckWriteCommand.cpp:16-30 | and whatever is dropped is all of its version, which a node as near as the acknowledging one has in full, or which is superseded |
| `ClusterRuns.AVersionUsedTwiceStandsForTwo` | src/lib/common/WallClock.h:12-17 | a concrete run in which two nodes have committed different contents of one size under one version |
| `ClusterRuns.AVersionUsedTwiceLosesAWrite` | src/lib/storage/FileStore.cpp:105-109 | how that run goes on: a write that its client was told is committed is at no node, nor is anything newer |
| `LostFileRuns.ADropWithAWriteInFlight` | src/lib/api/AckWriteCommand.cpp:16-30 | a concrete run that comes to a drop with a write in flight |
| `LostFileRuns.AWriteIsLost` | src/lib/api/WriteCommand.cpp:56-65 | how that run goes on: the write ends, and nothing is left of it at its node |
| `LostFileRuns.AFileIsCreatedAgain` | src/lib/storage/FileStore.cpp:101-122 | another way it goes on, in which all files agree with their versions up to the step that creates the lost one again |
| `LostFileRuns.AFileCreatedAgainLosesAWrite` | src/lib/storage/writestream.h:74-93 | and its end: a client was told that its write is committed, and no node has a byte of it, nor anything newer |
| `LateHopRuns.ALateHopTruncates` | src/lib/callbacks/ChainWrite.h:23-31 | a concrete run in which a location commits the last byte of a write as all of it |
| `LateHopRuns.ATruncatedCopyIsDropped` | src/lib/deskew/Synchronizer.cpp:47-64 | how that run goes on: the last byte is passed on, offloaded and acknowledged, and its drop is due, while no location keeps the version; but for hops opened late the run has all that drops rely on |
| `ClusterInvariants.RunKeeps` | src/lib/callbacks/ComputedOptions.cpp:90-116 | the invariant of the cluster holds in every state of every run in which files agree with their versions |
| `ClusterInvariants.LocatedByRank` | src/lib/hashing/ConsistentHashRing.cpp:27-33 | the locations for a number of copies are the nodes that a walk meets first |
| `ClusterInvariants.DropIsCovered` | src/lib/api/AckWriteCommand.cpp:16-30 | what is dropped was acknowledged from nearer to the key, in the size dropped |
| `ClusterInvariants.DropCovers` | src/lib/deskew/SkewCorrector.cpp:34-52 | after the drop every committed write is still covered |
| `ClusterInvariants.DropRemembersUpTo` | src/lib/deskew/SkewCorrector.cpp:34-52 | and what a node as near as some rank had in full, one as near still has |
| `ClusterInvariants.FeedKeeps` | src/lib/api/WriteCommand.cpp:72-121 | a call of a command and the callback it leads to keep the invariant if and only if the file it creates, if any, agrees with its version |
| `ClusterInvariants.FillKeeps` | src/lib/callbacks/ChainWrite.h:21-34 | so does reporting a window, always, with a hop that is open, opened now, or not to be had |
| `ClusterInvariants.CloseKeeps` | src/lib/storage/FileStore.cpp:201-236 | so does a commit |
| `ClusterInvariants.WindowIsNotAll` | src/lib/api/WriteCommand.cpp:103-113 | a window that is reported before the end is never all of the version |
| `ClusterInvariants.DismissKeeps` | src/lib/peer_server/ConcurrentCommandCenter.cpp:37-41 | a command that is gone with its connection leaves the invariant as it was |
| `ClusterInvariants.DemandTakenKeeps` | src/lib/api/DemandWriteCommand.cpp:11-19 | answering a demand with the node's own file keeps the invariant |
| `ClusterInvariants.OfferKeeps` | src/lib/deskew/Synchronizer.cpp:47-64 | so does an offer, of which only those to locations name a source |
| `VersionTexts.VectorClock.FromString` | src/lib/common/VectorClock.cpp:127-139 | reads the counted clocks word by word, numbers with or without a sign, and changes nothing if the text ends early |
| `VersionTexts.VersionReadsBack` | src/lib/common/VectorClock.cpp:26-80 | every list of clocks whose keys have no dots, commas or spaces reads back as it was written |
| `VersionTexts.ClockReadsBack` | src/lib/common/VectorClock.cpp:43-64 | one clock reads back, with and without a count, although too long a piece is passed to the decoder |
| `VersionTexts.AVersionAsText` | src/lib/common/VectorClock.cpp:26-41 | what the text of a version is, for one of two clocks |
| `VersionTexts.OddClocks` | src/lib/common/VectorClock.cpp:43-64 | a word without a dot leaves an empty clock, and of a count only 32 bits are kept |
| `SyncMessages.PointReadsBack` | src/lib/common/MerklePoint.cpp:6-21 | a Merkle point reads back as it was written, and its text has no separator in it |
| `SyncMessages.PointWithTail` | src/lib/common/MerklePoint.cpp:13-21 | what follows a point is ignored, and a number too large for its field makes it none |
| `SyncMessages.APingAsText` | src/lib/peer_client/MessageSender.cpp:66-77 | what the text of a ping is, for one of two points |
| `SyncMessages.DigestPing` | src/lib/peer_client/MessageSender.cpp:66-77 | the loop joins the texts of the points |
| `SyncMessages.SyncCommand.Run` | src/lib/api/SyncCommand.cpp:14-29 | compares each point up to the first that does not parse, and reports whether all did |
| `SyncMessages.PingReadsBack` | src/lib/api/SyncCommand.cpp:19-27 | splitting and parsing a ping gives its points in order |
| `SyncMessages.Exchange` | src/lib/api/SyncCommand.cpp:14-29 | the receiver of a ping compares the same points in order, as responses exactly from the third on |
| `Texts.SplitsBack` | src/lib/api/SyncCommand.cpp:19 | splitting at the separator undoes joining |

## Assumptions

- A version is the map its list of (key, time, count) entries describes, compared entry by entry. The order of the
  list and its bound of six entries are not modelled: turbolib, which implements it, is not part of this model.
- A hash is any function. Where the ring is concerned, names in use have different positions, which are the first
  eight bytes of their hashes.
- A Merkle tree is the map from key positions to leaves that it stands for; inserting a leaf that is there leaves it.
- Files can be created, renamed and removed, and their sizes read. Names of keys are not prefixes of each other's
  paths.
- The wall clock, this node's id, and whether a version has expired are parameters.
- The concurrent queue is first-in first-out for each producer; its size is exact; taking from it may find nothing
  although something is there. Atomic steps are sequentially consistent.
- A send arrives as one buffer of the bytes reported sent; a blocking send sends everything. Each call of `write`
  and `flush` is atomic.
- `base64` makes twelve characters of a time, none of them a dot, a comma or a space, and reads no more than those.
- In a cluster, writes ask for any numbers of copies below 256, and clients send writes with mirror number 0, all there
  before they are taken in. A command takes in at most one window at a time.
- What is passed to `write` of a connection has a length of 32 bits, so that the `unsigned` sum of it and of what is
  buffered never wraps; its count comes back as an `int`.
- In `Convergence.ReplicasConverge`, replicas keep the key for the same number of copies.

## Left out

- WriteCommands.WriteCommand.Run: says exactly when a call reads past its chunk, and nothing of what is written then, which is whatever lies behind the chunk.
- Placement.LeaveAndRejoin: restores the trees and their entries; the wanted and unwanted sets depend on the locator at each moment and are not compared.
- VersionTexts.VectorClock.FromString: a count without digits, or too large, for which the code throws, gives nothing.
- DigestTree, Merkle leaves and files are values that are written back; aliasing of trees between an index and its callers is not modelled.
- `FileStore::purgeObsolete`, `WriteCommand::run` and the loop of `BufferedConnectionWriter::write` are split into several methods each; the split has no other meaning.
- Commands are values that their stream's slot holds, not shared objects; what they do besides being created and run is an arbitrary function.
- `KeyTabulator`: one forest for each number of mirrors, chosen by that number.
- Convergence of the sync conversation: the diff of Merkle trees lives in turbolib, and `enumerate` stops at 50 keys without a way to go on.
- Resuming short writes (`WriteSupervisor`, `PartialTransfers`), where the reader has already moved on.
- Blocking flushes that give up the buffer lock while other threads write.
- `PeerCommandRunner::shutdown`, which empties the queue without parsing.
- Choosing peers and trees at random, timers, and expiry in cluster runs.
- `SimpleFileStore`, `DataChain`, `KnownPeers`, `Watches`, status reports and the remaining commands: nothing hard is left there.
- Sockets, HTTP, msgpack and logging.
