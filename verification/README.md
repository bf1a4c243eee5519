# A verified model of the SPV client's core

This project models the parts of an Elastos SPV client that decide what a light node believes:

- partial Merkle trees: building a `merkleblock` for a Bloom filter, checking a received one with an
  explicit stack, and extracting one transaction's authentication path (`bloom/`, `interface/iutil/`);
- the header tree, total work, the best chain, reorganisation and the placement of transactions in the
  main store and the fork store (`blockchain/`, `database/`);
- the height-indexed consensus records: fee rates, arbiter lists kept without duplicates, consensus
  modes and the confirmation of proposals (`interface/store/`);
- the peer's block download and the sync manager's in-flight requests (`peer/`, `sync/`).

Code that updates fields or runs loops is modelled by classes and methods with loops, each proved
against a specification function; what is promised is then proved about that function. Hash functions
(the double SHA-256 of a pair, MurmurHash3, the content digest) are parameters: arbitrary functions,
restricted only where a statement says so.

## How the parts fit together

**Partial Merkle trees.** `PartialTree.Parse` is a recursive parser over trees; `Build` is the builder
as a function. `ParseIsSound` and `ParseIsComplete` say that the parser accepts exactly the serialised
forms of well-shaped trees without equal siblings. `StackParser` proves that the stack machine of the
source simulates that parser: a stack is always a path from the root with finished left siblings
(`Kont`, `Simulates`), so the branches "Left child is nil" and "invalid txid node" are never reached, no
index leaves the stack, and the loop ends. `MerkleBlock.CheckMerkleBlock` and
`MerkleBranch.MerkleNodes.GetNodes` are the two loops. Both follow `Decide` on the flag bits they are given;
the extractor may be given fewer of them (`ExtractedIff`). The main results are
`MerkleBlock.CheckAcceptsIff`, `BlockBuilder.RoundTrip`, `BlockBuilder.AcceptedIdsAreRealOrForged`,
`MerkleBranch.BranchGivesRoot` and `BuiltBranch.BuildCheckExtract`.

**Header chain.** `HeaderChain.BestOverEveryRun` is the invariant over every run of commits.
`BlockChain.Chain.CommitBlock` is proved to follow those header rules, and exactly when it keeps
transactions placed is proved as well (`Misfiles`).

**Consensus records.** `HeightList.LookupIsLastWrite` says that looking up a maintained list gives the
last put, in time, below the bound. Fee rates and arbiter slots are instances, and
consensus modes are one for the puts that reach the list.

**Download and requests.** `BlockDownload.RunIsComplete` and `SyncManager.Run` are invariants over every
message sequence, and `BlockDownload.NothingIsLost` accounts for every message.
`BlockDownload.RelevantIsDelivered` joins filter, builder, check and download.

## Where the code does not keep the promise

Five properties fail as stated. The code is modelled as it is, and the exact condition is proved.

- After a reorganisation the stores answer rightly if and only if the new tip is higher than the old one,
  or neither the new tip nor the old block at its height has transactions (`PlacedOnReorg`,
  `Chain.CommitBlock`). The new tip's transactions are stored first, and when the old block at that height
  is disconnected it takes them along. `Placed` speaks of what a reader sees, so a height without an entry
  is one without transactions. The condition depends on a put at an occupied height replacing the list
  there, which the store's documentation leaves open; in a store that adds to it the new tip alone has to
  be empty (`PlacedOnReorgInAddingStore`). `SinkingReplay` is a run of three blocks, one transaction each,
  that files the third one's under the first: the third block has much more work and less height.
- The branch extraction should answer an id with a branch that leads from it to the root, or with an error.
  It looks for the transaction at positions up to and including the number of transactions, and the last of
  these is the parent of the first two leaves of a full tree; and it drops the error "tx index not found", so
  an id the message does not show gets what position 0 gives (`UnknownIdGetsABranch`: a block of one
  transaction answers every other id with an empty branch). For every id, the position picked shows the id and
  has a right branch, whatever the map order, if and only if some leaf shows the id and the position equal to
  the count does not (`BranchIsRightIff`). `ExtraPositionCanCollide` gives a returned id for which it fails,
  for every pair hash: the block of a, b, the hash of a and b, and c. For a block from the builder the
  condition is `BuiltBranch.IsShownParent`, read off the leaves and matches.
- The extractor should accept what the check accepts. It computes eight times the number of flag bytes in 32
  bits, so from 2^29 bytes on it keeps only the first bits. It accepts what the check accepts if and only if the
  bits kept cover the tree, and never accepts anything else (`ExtractedIff`, `ExtractedIsCheck`). A built block
  loses bits exactly when it has more than 2^32 - 8 flags (`BuildCheckExtract`); up to 2^30 transactions there
  are fewer than 2^31 (`FlagsFit`).
- The arbiter tables keep representing the plain map after a put if and only if the height is not one that
  some digest points to (`PutKeepsIff`), that is, its entry is absent or a pointer (`HomesAreFullEntries`);
  a height above all earlier ones always qualifies.
  Otherwise some read is wrong at once, or after the displaced lists are stored again (`PutAtHomeMisleads`).
  `StoringTwiceLosesTheLists`: storing the same lists twice at one height replaces them by a pointer to
  itself, which reads as a single empty key. Entries of at most four bytes can escape: the four bytes of a
  multiple of 2^16 read as two empty lists (`SelfPointerReadsEmptyIff`).
- For fee rates and arbiter slots the last put in time decides (`FeeTable.FeeRate`, `ListGivesSlot`). For
  consensus modes a put at or below the height of the one before it is not listed, so `LowerPutIsForgotten`:
  mode 1 from height 10 and then mode 1 from height 5 leave height 7 in mode 0. The last put decides at every
  height all along a run if and only if each put is above the one before it or changes no mode
  (`ModesAgreeThroughoutIff`).

Two readings need care. A proposal is confirmed by six consecutive heights in DPOS mode if and only if no
record is put after the first of them (`ConfirmedIffUnbroken`); a record that repeats the mode restarts the
count (`RepeatedModeRestartsCount`).
`treeDepth` ends if and only if the count is at most 2^31 (`TreeDepthTerminatesIff`), so every statement
about trees covers the counts from 1 to 2^31, the whole range on which the source's loops end, with the
extractor's lost flag bits counted in.

## Model

| member | source | states |
|---|---|---|
| FlagBits.Pack | bloom/merkleblock.go:133-135 | the packed flag bytes unpack to the builder's bits followed by zeros up to the byte boundary |
| FlagBits.NextFlag | bloom/merkleblock.go:249-283 | reading a flag and advancing the bit cursor yields the bits of the bytes in order, across byte boundaries |
| MerkleTree.CalcTreeWidthIsWidth | bloom/merkleblock.go:25-27 | the shift formula, wrap-around included, is the number of nodes of the level obtained by halving upwards, for every count up to 2^31 |
| MerkleTree.CalcHashIsMerkleRoot | bloom/merkleblock.go:31-44 | the recursive subtree hash at the top is the root obtained by hashing level after level, odd last nodes paired with themselves |
| Position.TreeDepth | bloom/merkleblock.go:151-155 | the shifting loop returns the height of the tree |
| Position.TreeDepthTerminatesIff | bloom/merkleblock.go:151-155 | the loop ends exactly when the count is at most 2^31 |
| Position.NextPowerOfTwo | bloom/merkleblock.go:158-160 | the least power of two that holds the leaves |
| Position.PositionsAreNodes | bloom/merkleblock.go:192-194 | every flat position up to the root is the position of a (level, index) pair |
| Position.LevelOfFlat | bloom/merkleblock.go:163-175 | the level found by stepping down from a flat position is the level it was built from |
| Position.ParentOf | bloom/merkleblock.go:253-254 | `pos>>1 \| msb` is the position of the parent |
| Position.LeftChildOf | bloom/merkleblock.go:259 | `(pos^msb)<<1` is the position of the left child |
| Position.DeadIffBeyondWidth | bloom/merkleblock.go:163-175 | below the root the dead positions are exactly the indices beyond the width of their level |
| Position.InDeadZone | bloom/merkleblock.go:163-175 | the two-bound loop decides whether no node of the tree occupies the position |
| PartialTree.ParseIsSound | bloom/merkleblock.go:181-286 | whatever is accepted is the serialised form of the returned tree, which has the right shape and no equal siblings |
| PartialTree.ParseIsComplete | bloom/merkleblock.go:181-286 | the serialised form of every well-shaped tree is accepted with that tree, whatever follows it, unless two siblings are equal, and then the error is the duplicate |
| PartialTree.BuildHasRealRoot | bloom/merkleblock.go:63-90 | the built tree has the hash of the real subtree |
| PartialTree.BuildMatchesSelected | bloom/merkleblock.go:63-90 | the flagged leaves of the built tree are the matched transactions of its range, in block order |
| PartialTree.TwinlessIffSiblingsDiffer | bloom/merkleblock.go:288-292 | the built tree has no equal siblings exactly when the two children of every node above a match hash differently |
| PartialTree.InjectiveHasNoSecondPreimage | bloom/merkleblock.go:302-308 | an injective pair hash meets the assumption of the soundness theorem for every tree |
| StackParser.Start | bloom/merkleblock.go:189-197 | the empty stack at the root position stands for the start of the recursive parse |
| StackParser.Classify | bloom/merkleblock.go:201-222 | the tests on stack and position tell finished, partial parent, two filled siblings and waiting apart, and never mistake one for another |
| StackParser.Descend | bloom/merkleblock.go:258-261 | a set flag above the leaves pushes an empty node and moves to the left child, as the recursive parser does |
| StackParser.FillPruned | bloom/merkleblock.go:249-257 | a clear flag above the leaves fills the node from the message |
| StackParser.FillLeaf | bloom/merkleblock.go:262-276 | a leaf is filled and reported exactly when flagged |
| StackParser.CombineSingle | bloom/merkleblock.go:211-221 | in the dead zone the parent is the left child hashed with itself; the left child is always there |
| StackParser.CombineBoth | bloom/merkleblock.go:223-237 | two filled siblings become their parent, and equal ones end the parse with the duplicate error |
| StackParser.Conclude | bloom/merkleblock.go:203-209 | a single filled entry is the outcome of the whole parse |
| StackParser.Waiting | bloom/merkleblock.go:249-266 | when no stack operation applies a node is about to be read, the top bit tells leaves from inner nodes, and a leaf position is below the count |
| MerkleBlock.Reduce | bloom/merkleblock.go:210-237 | one stack operation keeps the simulation and shortens the stack; its only failure is the duplicate |
| MerkleBlock.ReadNode | bloom/merkleblock.go:246-276 | reading one node keeps the simulation, the ids found and the nodes recorded |
| MerkleBlock.ReadNext | bloom/merkleblock.go:239-283 | running out of hashes or of flags is reported as the recursive parser reports it; otherwise the flag cursor advances |
| MerkleBlock.CheckMerkleBlock | bloom/merkleblock.go:181-286 | for every message the stack loop ends and answers as the recursive parser: the same ids or the same error |
| MerkleBlock.CheckAcceptsIff | bloom/merkleblock.go:181-286 | the language of the check: it accepts with a tree if and only if that tree is well shaped without equal siblings, its serialised form begins the message and its root is the header's |
| MerkleBlock.RootMismatchIff | bloom/merkleblock.go:203-209 | the root error arises exactly when such a tree with another root begins the message |
| MerkleBlock.CutShort | bloom/merkleblock.go:239-247 | a message that lacks the end of its hashes runs out of hashes, and one that lacks the end of its flags runs out of flags |
| BlockBuilder.MBlock.IsParent | bloom/merkleblock.go:64-68 | the scan decides whether a transaction below the node matched |
| BlockBuilder.MBlock.TraverseAndBuild | bloom/merkleblock.go:63-90 | appends exactly the flags and hashes of the partial tree of the node, in depth-first order |
| BlockBuilder.MatchAll | bloom/merkleblock.go:101-112 | the matching pass yields all ids, the match vector of the self-extending filter and the positions of the matches |
| BlockBuilder.PositionsAreMatches | bloom/merkleblock.go:101-112 | the matched indexes are the positions of the matches, all of them, each once and in order |
| BlockBuilder.RelevantIsIndexed | bloom/merkleblock.go:101-112 | the index of every relevant transaction is among the matched indexes |
| BlockBuilder.TreeHeight | bloom/merkleblock.go:114-118 | the builder's height loop agrees with the parser's depth |
| BlockBuilder.NewMerkleBlock | bloom/merkleblock.go:93-138 | the message carries the partial tree of the block's matches: its hashes, its flags in as few bytes as hold them, and zeros after the last flag; the indexes are those of the matches |
| BlockBuilder.CheckOfBuilt | bloom/merkleblock.go:181-286 | checked against the block's Merkle root, the message is parsed back into the very tree that was built, unless two exposed siblings hash alike |
| BlockBuilder.RoundTrip | bloom/merkleblock.go:93-138 | for every leaf list and match vector: the check returns exactly the matched ids in order if the exposed siblings differ, and the duplicate error otherwise |
| BlockBuilder.SelectIsExact | bloom/merkleblock.go:101-112 | the ids selected are the matched leaves, each once, at strictly increasing positions |
| BlockBuilder.MatchedIsReturned | bloom/merkleblock.go:181-286 | every matched transaction is among the ids returned |
| BlockBuilder.RelevantReachesReceiver | bloom/merkleblock.go:93-138 | a transaction relevant to the watched strings is among the ids the receiver extracts |
| PartialTree.SubtreeIsSoundOrForges | bloom/merkleblock.go:181-309 | with no assumption on the pair hash: a partial tree with the hash of a real node shows real leaves only, or it has a node whose two children hash to a real node without being that node's children |
| BlockBuilder.AcceptedIdsAreRealOrForged | bloom/merkleblock.go:181-309 | on arbitrary hashes and flags and for every pair hash: if the check accepts against a real root, the ids are real leaves at strictly increasing positions, or two siblings of the tree in the message hash to a node of the real tree without being its children |
| BlockBuilder.AcceptedIdsAreReal | bloom/merkleblock.go:181-309 | without second preimages of the real tree's nodes the ids are real leaves at strictly increasing positions |
| BranchPath.ClimbToRoot | bloom/merklebranch.go:174-224 | in an accepted tree every partner on the way up from a shown leaf is recorded, and hashing along it gives the root, unpaired nodes with themselves |
| MerkleBranch.MerkleNodes.SetBits | bloom/merklebranch.go:68-73 | one byte per flag bit, in the order the check consumes them, as many as eight times the number of flag bytes wrapped to 32 bits |
| MerkleBranch.ExtractedIsCheck | bloom/merklebranch.go:68-73 | with fewer than 2^29 flag bytes the extractor decides as the check does |
| MerkleBranch.ExtractedIff | bloom/merklebranch.go:68-73 | what the extractor accepts the check accepts with the same tree, and conversely exactly when the bits kept cover that tree |
| MerkleBranch.MerkleNodes.GetNodes | bloom/merklebranch.go:75-172 | accepts exactly what the check accepts on the bits it is given, with the same errors, and records the hash of every node of the accepted tree |
| MerkleBranch.MerkleNodes.CalcTxIndex | bloom/merklebranch.go:174-186 | whatever the map order, the index is a recorded position up to the count with that id, and is left alone when there is none |
| MerkleBranch.MerkleNodes.CalcNodeIndex | bloom/merklebranch.go:217-224 | the subtraction loop gives the flat position of (height, index) |
| MerkleBranch.MerkleNodes.CalcBranchRoute | bloom/merklebranch.go:188-201 | the route lists, level by level, the partner of the transaction's ancestor |
| MerkleBranch.MerkleNodes.FollowRoute | bloom/merklebranch.go:49-56 | the branch is the hashes along the route, with bit i of the index set when the i-th position is even; a missing node is the nil dereference |
| MerkleBranch.MerkleNodes.GetMerkleBranch | bloom/merklebranch.go:40-59 | the branch of a position that carries the id, or of position 0 when none does; the errors of the check |
| MerkleBranch.GetTxMerkleBranch | bloom/merklebranch.go:17-28 | for every message and id: the error of the parse on the bits kept, or the branch of a position that shows the id, or of position 0 when none does; for an id the check returns, unless the extra position carries it, the branch folds to the header's Merkle root |
| MerkleBranch.BranchGivesRoot | bloom/merklebranch.go:188-224 | for every accepted message, honest or not, and every leaf it shows, the branch is complete and folds to the root |
| MerkleBranch.SidesAre | bloom/merklebranch.go:49-56 | bit g of the index is set exactly when the ancestor of the leaf at level g is a right child or has no sibling |
| MerkleBranch.IndexIsPosition | bloom/merklebranch.go:49-56 | in a full tree the index is the position of the transaction |
| MerkleBranch.FoldIs | bloom/merklebranch_test.go:95-107 | an odd index puts the partner on the left when the branch is folded |
| MerkleBranch.ReturnedIdIsRecorded | bloom/merklebranch.go:154-166 | every id the check returns is the hash of a recorded leaf |
| MerkleBranch.RouteOfExtraPosition | bloom/merklebranch.go:177-179 | if the search picks the position equal to the count, the extraction dereferences a missing node |
| MerkleBranch.RightAtIff | bloom/merklebranch.go:174-186 | the branch of a position the search may pick folds to the root exactly when that position is a leaf |
| MerkleBranch.BranchIsRightIff | bloom/merklebranch.go:40-59 | for an accepted message and every id: whatever the map order, the position picked shows the id and its branch is right, if and only if some leaf shows the id and the position equal to the count does not |
| MerkleBranch.UnknownIdGetsABranch | bloom/merklebranch.go:46 | an id no leaf shows is not refused: a block of one transaction answers every other id with an empty branch that does not lead from it to the root |
| MerkleBranch.ExtraPositionCanCollide | bloom/merklebranch.go:177-183 | for every pair hash: the block of a, b, the hash of a and b, and c has an accepted message that returns the third id and shows it at the extra position as well |
| BuiltBranch.BuiltNode | bloom/merklebranch.go:103-166 | every node recorded from a built block has the hash of the real tree's node |
| BuiltBranch.FirstParentRecorded | bloom/merklebranch.go:140-153 | in a built block the parent of the first two leaves is recorded exactly when the tree has two leaves or one of the first four is matched |
| BuiltBranch.SearchMeetsParentIff | bloom/merklebranch.go:174-186 | in a built block the extra position carries the id exactly when the leaf row is full, that parent is recorded, and the id is its hash |
| BuiltBranch.ExtractedOfBuilt | bloom/merklebranch.go:68-73 | the extractor accepts a built message exactly when it keeps as many bits as the built tree has flags |
| BuiltBranch.FlagsFit | bloom/merklebranch.go:68-73 | a block of up to 2^30 transactions has fewer than 2^31 flags, whatever the matches |
| BuiltBranch.BranchOfBuilt | bloom/merklebranch.go:40-59 | for every block from the builder and every returned id but that hash, the branch folds to the block's Merkle root, if the extractor keeps the flags of the built tree; otherwise there is an error |
| BuiltBranch.BuildCheckExtract | bloom/merklebranch_test.go:44-109 | the repository's round-trip test for all leaves and matches: building, checking and extracting returns the matched ids, or the duplicate error exactly when exposed siblings hash alike; every branch folds to the root up to 2^32 - 8 flags, and beyond that there is none |
| BloomFilter.Filter.Hash | bloom/filter.go:128-137 | the bit addressed is murmur(seed, data) modulo the number of bits, seed and number of bits wrapped at 32 bits, and lies inside the filter's byte array for every size, seed and hash |
| BloomFilter.Filter.Test | bloom/filter.go:143-162 | the scan answers yes exactly when every addressed bit of the byte array is set; an unloaded filter matches nothing |
| BloomFilter.Filter.Put | bloom/filter.go:197-213 | sets exactly the bits of the element, in place, and no others |
| BloomFilter.AddedMatches | bloom/filter.go:128-213 | an added element matches, and nothing that matched stops matching |
| BloomFilter.NoFalseNegatives | bloom/filter.go:128-213 | after any sequence of adds every added element matches, for every hash function and filter size |
| BloomFilter.MatchesAfterIff | bloom/filter.go:143-213 | after any sequence of adds an element matches if and only if each of its bits was set before or is a bit of an added element |
| BloomFilter.EmptyMatchesNothing | bloom/filter.go:143-162 | a filter without bits matches nothing, unless it has no hash function, and then everything |
| BloomFilter.MatchFilter | interface/iutil/tx.go:15-47 | the loop decides the match and extends the filter by the outpoints of the matching outputs; a transaction that does not match leaves the filter as it is |
| BloomFilter.TxMatchesIff | interface/iutil/tx.go:15-47 | a transaction matches exactly when the filter as it came matches its id, an output or a spent outpoint: what is added on the way decides nothing for the same transaction |
| BloomFilter.BitsOfOutputs | interface/iutil/tx.go:21-28 | a bit is set afterwards exactly when it was before or belongs to the outpoint, with its 16-bit index, of an output that matched when its turn came |
| BloomFilter.FirstTouchedMatches | bloom/merkleblock.go:101-112 | while the filter touches no transaction of a block it stays as it is and nothing matches; the first transaction it touches is the first to match |
| BloomFilter.ScanExtends | interface/iutil/tx.go:21-28 | while a block is scanned the filter only grows, and covers the outpoints of earlier matching outputs |
| BloomFilter.RelevantIsMatched | interface/iutil/tx.go:15-47 | a transaction that pays a watched string, spends a watched outpoint, or spends an output that an earlier transaction of the block paid to one, is matched |
| Difficulty.CompactToBig | blockchain/difficulty.go:60-86 | mantissa times 256 to the (exponent - 3), rounded down, negated by the sign bit |
| Difficulty.TargetIs | blockchain/difficulty.go:60-86 | the size of the target is the whole part of the mantissa times 256^(exponent - 3), pinned by two inequalities, and its sign is bit 23 |
| Difficulty.HashToBig | blockchain/difficulty.go:48-58 | reversing in place and reading big-endian gives the little-endian value |
| Difficulty.LittleEndianIs | blockchain/difficulty.go:48-58 | a byte counts for itself, and what follows a prefix counts 256 times for each byte of the prefix |
| Difficulty.CheckProofOfWork | blockchain/difficulty.go:26-46 | accepts exactly targets from 1 to 2^255 - 1 with a hash not above them |
| Difficulty.WorkIsQuotient | blockchain/difficulty.go:12-24 | the work of a positive target is how often the target plus one goes into 2^256, pinned by two inequalities |
| Difficulty.ValidWorkBounds | blockchain/difficulty.go:12-46 | a header that passes has work between 2 and 2^255 |
| Difficulty.WorkIsAntitone | blockchain/difficulty.go:12-24 | a smaller positive target never carries less work |
| HeaderChain.CommitKeepsBest | blockchain/blockchain.go:45-104 | a commit keeps the tree closed under parents, heights and total work exact and the tip of maximal work; the tip moves only to strictly more work; stored headers never change |
| HeaderChain.OutcomeRules | blockchain/blockchain.go:45-104 | an orphan is a block without stored parent, an invalid one has a parent but no proof of work in numbers, a known one is the tip: these change nothing; any other is stored one higher with its work added, and is the tip exactly if it then has more work |
| HeaderChain.BestOverEveryRun | blockchain/blockchain.go:31-104 | the same over every run of commits from genesis; and every stored header but genesis has a target from 1 to 2^255 - 1 that its hash is not above |
| HeaderChain.TotalWorkIsPathWork | blockchain/blockchain.go:79-96 | the stored total work is the sum of the work along the path to genesis |
| HeaderChain.WorkGrows | blockchain/blockchain.go:79-80 | total work grows by at least two per header along every path |
| ChainDB.Store.CommitBlock | database/chaindb.go:22-34 | the header is stored, and the transactions by height on the main chain or by hash off it |
| ChainDB.Store.Disconnect | database/chaindb.go:38-65 | exactly the blocks of the old branch above the ancestor leave the main store for the fork store |
| ChainDB.Store.Reconnect | database/chaindb.go:67-105 | exactly the blocks strictly between ancestor and new tip return from the fork store, or those below the first that is missing there; it succeeds if and only if none is |
| ChainDB.Store.ProcessReorganize | database/chaindb.go:37-109 | both moves in order, headers untouched, the new tip set exactly on success |
| BlockChain.Chain.constructor | blockchain/blockchain.go:31-43 | a database without a tip gets the genesis header with no work, and transactions are placed; one with a tip is opened unchanged |
| BlockChain.Chain.Rollback | blockchain/blockchain.go:150-158 | n parents back is the ancestor n lower; the error exactly when the path is shorter |
| BlockChain.Chain.GetCommonAncestor | blockchain/blockchain.go:148-189 | ends on every pair of stored headers with the highest header that is an ancestor-or-self of both |
| BlockChain.Chain.LatestBlockLocator | blockchain/blockchain.go:203-242 | entry i exists exactly when i < 100 and the i-th gap is at most the height, and is the best-chain header that far below the tip |
| HeaderChain.LocatorGapIs | blockchain/blockchain.go:223-240 | the gaps in closed form: nine entries one apart, nine two apart, nine four apart, and so on |
| BlockChain.Chain.Reorganize | blockchain/blockchain.go:107-124 | the fork store always has what is needed, and what the stores answer afterwards is right if and only if the new tip is higher, or it and the old block at its height have no transactions; otherwise its height reads empty and its list is filed under that old block |
| BlockChain.Chain.CommitBlock | blockchain/blockchain.go:45-125 | outcome, headers and tip by the header rules; a block is stored exactly if its parent is, it is not the tip and its hash meets its target, and otherwise nothing changes; where its transactions go, and for a reorganisation both moves; transactions stay placed if and only if the commit does not reorganise onto a tip that is not higher, with a list at either block of that height |
| BlockChain.PlacedOnExtend | database/chaindb.go:22-34 | extending the best chain keeps transactions placed |
| BlockChain.PlacedOnFork | database/chaindb.go:22-34 | storing a side-chain block keeps transactions placed |
| BlockChain.BranchIsInFork | database/chaindb.go:88-100 | every block to be reconnected is in the fork store |
| BlockChain.PlacedOnReorg | database/chaindb.go:37-109 | after the two moves every answer of the stores is right if and only if the new tip is higher, or it has no transactions and its put left the old block's list at that height |
| BlockChain.PlacedOnReorgInAddingStore | database/chaindb.go:37-109 | if a put adds to an occupied height instead of replacing: right if and only if the new tip is higher or has no transactions |
| BlockChain.OldTipMoved | database/chaindb.go:42-65 | with a tip that is not higher, its height reads empty afterwards and what was stored there is filed under the old block of that height |
| BlockChain.Replay | blockchain/blockchain.go:31-125 | any sequence of commits yields the tree of the header rules, every stored header but genesis has proof of work, and transactions are placed if no commit misfiles |
| BlockChain.SinkingReplay | database/chaindb.go:28-109 | three commits after which the tip's transaction is not found at its height but under the block it replaced, whose own transaction is gone |
| BlockChain.ThirdCommitSinks | blockchain/blockchain.go:84-91 | in that run the first two commits rise and the third reorganises onto a lower tip |
| HeightList.Push | interface/store/arbiters.go:63-70 | the filtering loop drops the entries at or above the height and appends |
| HeightList.ScanBack | interface/store/customid.go:638-642 | the reverse scan finds the last entry below the bound |
| HeightList.PushedIncreasing | interface/store/arbiters.go:63-70 | a put at any height keeps the list strictly increasing |
| HeightList.LookupIsLastWrite | interface/store/customid.go:338-361 | looking up the maintained list gives the last put, in time, below the bound, lower puts included |
| HeightList.LastBelowIsGreatest | interface/store/arbiters.go:348-365 | on an increasing list that is the greatest entry below the bound |
| StoreCodec.U32RoundTrip | interface/store/arbiters.go:249-316 | four little-endian bytes read back as the number |
| StoreCodec.EncodeArray | interface/store/arbiters.go:255-264 | the length, cast to 32 bits, followed by the elements |
| StoreCodec.DecodeArray | interface/store/arbiters.go:318-326 | reads the announced number of elements in order |
| StoreCodec.ArrayRoundTrip | interface/store/arbiters.go:255-326 | what is read back is the array cut to its length modulo 2^32: all of it exactly when it is shorter than 2^32 |
| StoreCodec.SortSorts | interface/store/arbiters.go:328-340 | the keys in ascending order, none lost or added |
| StoreCodec.LeqIsLexicographic | interface/store/arbiters.go:330-332 | the order puts a prefix first and otherwise goes by the first byte that differs |
| StoreCodec.SortedIsUnique | interface/store/arbiters.go:330-340 | a multiset of keys has one sorted arrangement, so the sorting algorithm does not matter |
| StoreCodec.ValueBytes | interface/store/arbiters.go:328-346 | the writing loops produce the encoding of the sorted lists |
| StoreCodec.ParseValue | interface/store/arbiters.go:133-156 | the reading loops parse counts and keys, and fail at the end of the input or on a key above 33 bytes |
| StoreCodec.ListsRoundTrip | interface/store/arbiters.go:121-157 | an encoded pair of lists is read back, whatever follows it, if the counts fit a byte and no key is above 33 bytes |
| StoreCodec.ListsParsed | interface/store/arbiters.go:121-157 | the reader accepts only what begins with the encoding of the lists it returns |
| StoreCodec.ReadsExactly | interface/store/arbiters.go:121-157 | the reader returns given lists if and only if they have at most 255 keys of at most 33 bytes each and their encoding begins the bytes |
| StoreCodec.OneKeyBytes | interface/store/arbiters.go:328-346 | the bytes of a single key in either list: a count for each list, and the key behind its length |
| StoreCodec.SameBytesIffSameKeys | interface/store/arbiters.go:328-346 | two entries are stored as the same bytes exactly when they hold the same keys, in any order |
| FeeRates.FeeTable.Put | interface/store/customid.go:338-361 | the history grows by the put, and the stored list and rates stay in agreement with it |
| FeeRates.FeeTable.FindWorkingHeight | interface/store/customid.go:625-645 | the height of the last put below, position 0 when there is none below, an error when there was no put |
| FeeRates.FeeTable.FeeRate | interface/store/customid.go:616-623 | the rate of the last put, in time, below the height; for height 0 that of the last put at 0; otherwise an error |
| FeeRates.ListGivesRate | interface/store/customid.go:616-645 | reading through list and rate table gives the rate in force by the history |
| ArbiterTable.LookupIsContent | interface/store/arbiters.go:121-132 | reading a height gives the lists of the plain map or nothing, and a pointer leads to full data in one hop |
| ArbiterTable.PutKeepsIff | interface/store/arbiters.go:73-98 | a put keeps the tables representing the plain map exactly when its height is not some digest's home |
| ArbiterTable.PutAtHomeMisleads | interface/store/arbiters.go:73-98 | after a put at a home height, for entries longer than a pointer, that height reads wrong at once, or the displaced lists read wrong when they are stored again at a new height |
| ArbiterTable.SelfPointerReadsEmptyIff | interface/store/arbiters.go:127-132 | a pointer to itself reads as two empty lists exactly at the multiples of 2^16 |
| ArbiterTable.HomesAreFullEntries | interface/store/arbiters.go:82-97 | the heights a digest points to are exactly those whose stored entry is full data and not a 4-byte pointer |
| ArbiterTable.StoringTwiceLosesTheLists | interface/store/arbiters.go:97 | storing the same lists twice at one height loses them |
| ArbiterTable.PublicKeysAreStorable | interface/store/arbiters.go:127-132 | lists of 33-byte keys are never mistaken for a pointer |
| ArbiterTable.FindSlot | interface/store/arbiters.go:348-365 | the slot, 0 when no put is below, an error without puts or beyond the last put plus the arbiter count, with the 32-bit wrap |
| ArbiterTable.ListGivesSlot | interface/store/arbiters.go:348-365 | the maintained list picks the slot that the history of puts picks |
| ArbiterTable.Arbiters.Put | interface/store/arbiters.go:48-99 | new tables, position and list; the tables represent the new plain map exactly when the height is not some digest's home |
| ArbiterTable.Arbiters.Reopen | interface/store/arbiters.go:37-46 | a new store over the same database represents the same map |
| ArbiterTable.Arbiters.Fetch | interface/store/arbiters.go:121-157 | follows at most one pointer and parses |
| ArbiterTable.Arbiters.GetByHeight | interface/store/arbiters.go:159-178 | the lists of the slot, the original arbiters for slot 0, an error out of range |
| ArbiterTable.Arbiters.Get | interface/store/arbiters.go:107-111 | the lists in force at the last put height, those of the put before it |
| ArbiterTable.Arbiters.GetNext | interface/store/arbiters.go:113-119 | the last put height and its lists |
| ArbiterTable.StoreAndAsk | interface/store/arbiters.go:48-178 | over every run at strictly increasing heights, reopened anywhere: every put is read back sorted, and a height is answered with the lists of the greatest put height below it |
| Confirmation.IsProposalConfirmed | interface/store/customid.go:401-459 | true exactly when some DPOS segment, the initial one included, shares at least six heights with (proposal, current] |
| Confirmation.ConfirmedIsMonotone | interface/store/customid.go:401-459 | a confirmed proposal stays confirmed at greater heights, and so do earlier proposals |
| Confirmation.OnlyRecordsBelowDecide | interface/store/customid.go:411-442 | lists with the same records below the current height give the same verdicts |
| Confirmation.LaterRecordChangesNothing | interface/store/customid.go:411-442 | a record put at or above the current height changes no verdict |
| Confirmation.ConfirmedMeansSixInDpos | interface/store/customid.go:420-434 | a confirmed proposal has six heights in a row, between it and the current height, whose mode is DPOS |
| Confirmation.SixInDposConfirms | interface/store/customid.go:420-434 | the converse when every record changes the mode |
| Confirmation.ConfirmedIffUnbroken | interface/store/customid.go:401-459 | for every list of records: confirmed if and only if six heights in a row, from the proposal on and up to the current height, are in DPOS mode with no record after the first of them |
| Confirmation.RepeatedModeRestartsCount | interface/store/customid.go:438-439 | six heights in a row in DPOS mode that do not confirm, because a record repeats the mode |
| Confirmation.RevertStore.BatchPut | interface/store/arbiters.go:415-450 | a put above the stored position is listed, others only move the position; the list stays strictly increasing and no verdict up to the put height changes |
| Confirmation.RevertStore.GetRevertInfo | interface/store/arbiters.go:371-387 | the stored list, cached or not |
| Confirmation.RevertStore.GetConsensusAlgorithmByHeight | interface/store/arbiters.go:389-413 | the mode of the last listed put, in time, at or below the height, and 0 before the first; the mode of the last put of all when the two agree |
| Confirmation.ModeOfLast | interface/store/arbiters.go:404-412 | the forward scan finds that mode |
| Confirmation.ModesAgreeNextIff | interface/store/arbiters.go:415-450 | given that the last put of all decides, one more put keeps it so exactly when it is above the put before it, or its mode is in force from its height on already |
| Confirmation.ModesAgreeThroughoutIff | interface/store/arbiters.go:389-450 | over every run: the last put decides at every height all along exactly when each put is above the one before it or changes no mode |
| Confirmation.LowerPutIsForgotten | interface/store/arbiters.go:420-426 | a put of mode 1 at 10 and then one at 5 leave height 7 in mode 0 |
| Confirmation.ProposalConfirmed | interface/store/customid.go:381-399 | the verdict over the stored records |
| BlockDownload.BlockHandler.Handle | peer/peer.go:219-298 | one message updates header, awaited ids, transactions and notifications as the step function says, whose effect AtMessage spells out |
| BlockDownload.BlockHandler.NotifyBlock | peer/peer.go:200-216 | notifies and clears when connected, keeps everything otherwise |
| BlockDownload.AtMessage | peer/peer.go:219-298 | at every message of every run: a transaction is reported alone exactly when no header is held, refused when one is held and it is not awaited, completes the block when it is the last one and the peer is connected, and is held otherwise; a block is refused when a header is held or the check fails |
| BlockDownload.NothingIsLost | peer/peer.go:193-301 | over every message sequence: exactly the transactions that arrive with no header held are reported alone, exactly the awaited ones are in blocks handed on or held, exactly the blocks taken are handed on or held, all in order, and each other message of a transaction or block is one disconnect |
| BlockDownload.HeldMeansAwaiting | peer/peer.go:267-297 | if the peer is connected at every message, a held block always awaits a transaction |
| BlockDownload.StepKeeps | peer/peer.go:219-298 | one message keeps received and awaited ids a partition of the announced ones |
| BlockDownload.RunIsComplete | peer/peer.go:193-301 | over every message sequence, each block handed on has distinct transactions whose ids are those announced, and in between received and awaited ids partition them |
| BlockDownload.AnyOrderCompletes | peer/peer.go:219-298 | header and then transactions, in any order, hand the block on exactly once and leave the handler idle |
| BlockDownload.RelevantIsDelivered | peer/peer.go:193-301 | when a block built for a filter is handed on, every relevant transaction of the block is among those handed on |
| SyncManager.Manager.PickCandidate | sync/manager.go:158-178 | whatever the map order, some candidate that is not behind, or none if no candidate is left; candidates that are behind may stop being candidates and no other peer changes |
| SyncManager.Manager.StartSync | sync/manager.go:150-190 | without a sync peer: one getblocks to a candidate that is ahead, which becomes the sync peer, or nothing when some candidate is level or none is left; with one, nothing at all |
| SyncManager.SearchFinds | sync/manager.go:150-190 | with a candidate ahead and none level the search ends in a sync, a candidate without rival is the one chosen, and peers that are not behind keep their state |
| SyncManager.Manager.SyncWith | sync/manager.go:192-203 | the global block map is cleared, one getblocks is sent and the peer becomes the sync peer |
| SyncManager.Manager.IsSyncCandidate | sync/manager.go:207-216 | all candidate flags are among the services |
| SyncManager.Manager.HandleNewPeer | sync/manager.go:238-263 | the whole next state: the new peer starts with nothing in flight; a candidate is sent the filter and, without a sync peer, the search is run: a sync peer that is ahead, or a level candidate, or no candidate left; a sole candidate that is ahead is synced from; nothing happens while shutting down |
| SyncManager.Manager.HandleDonePeer | sync/manager.go:270-300 | the whole next state: exactly the peer's requests leave the global maps, and the search is run exactly when the sync peer left: a sync peer that is ahead, or a level candidate, or no candidate left |
| SyncManager.Manager.HandleTx | sync/manager.go:303-331 | a requested transaction leaves both maps, enters the pool and is announced; an unrequested one costs the connection and changes nothing |
| SyncManager.Manager.Consume | sync/manager.go:358-366 | the block leaves both request maps and goes to the chain |
| SyncManager.Manager.CountBadBlock | sync/manager.go:385-392 | the peer is dropped exactly when more than one in a thousand of its blocks were bad |
| SyncManager.Manager.AfterCommit | sync/manager.go:366-446 | the whole next state for each answer of the chain: an orphan while current starts a new sync from its sender with its block requests forgotten, an orphan during a sync counts against it, other errors and known blocks change nothing |
| SyncManager.Manager.NewBlock | sync/manager.go:406-446 | a new block clears the pool; a reorganisation while current forgets block requests; few blocks in flight during a sync make the front of the queue be asked for |
| SyncManager.Manager.HandleBlock | sync/manager.go:335-447 | a block reaches the chain exactly when it was in flight at its sender and the sender is the sync peer or the manager is current; otherwise nothing changes and an unrequested block costs the connection |
| SyncManager.BlockOutcome | sync/manager.go:358-446 | from block in flight to next state and calls, for each answer of the chain, in plain fields and numbers |
| SyncManager.Manager.HandleInv | sync/manager.go:474-527 | unknown entries join the queue and its front is requested; peers other than the sync peer are ignored while syncing |
| SyncManager.UnknownIs | sync/manager.go:455-508 | an advertisement is filtered entry by entry, in order: blocks the chain lacks and transactions the pool lacks |
| SyncManager.LastOfIs | sync/manager.go:484-491 | the last block entry is the one with no block entry after it |
| SyncManager.Manager.RequestQueuedInv | sync/manager.go:529-576 | every entry taken from the queue was pending or is in the one getdata sent, which is full if anything is left, lists only entries of the queue and, while the maps have room, nothing pending and nothing twice; exactly what it lists becomes in flight |
| SyncManager.FrontIsAskedFor | sync/manager.go:529-576 | a queue shorter than the limit is emptied, and each of its blocks and transactions that was not pending is in the one getdata and then in flight |
| SyncManager.RoomKeepsPending | sync/manager.go:537-565 | while the maps have room nothing pending is forgotten, everything asked for is pending, and nothing pending is asked for again |
| SyncManager.LongQueueStays | sync/manager.go:567-576 | what does not fit stays queued in order behind a full getdata |
| SyncManager.LimitMap | sync/manager.go:581-597 | at most one arbitrary entry is dropped, and the map ends below the limit |
| SyncManager.LastBlock | sync/manager.go:484-491 | the last block entry of an announcement |
| SyncManager.ConsumedByCommit | sync/manager.go:348-366 | handing over a block in flight keeps commits within requests |
| SyncManager.SoundDone | sync/manager.go:270-300 | dropping a peer with its requests keeps both global maps covered by the remaining peers |
| SyncManager.SoundRequest | sync/manager.go:537-565 | requests that enter the peer's maps and its getdata keep the invariant, whatever the limit evicts |
| SyncManager.Run | sync/manager.go:602-646 | over every run with a new peer object per connection: both maps below their limit, the sync peer connected, no block committed more often than requested from its sender, and nothing in flight once the last peer is gone |

## Left out

- BloomFilter.Filter.Put: `NewFilter` sizing, `Clear` and the float false-positive rate are not modelled; filters of every size are covered.
- BloomFilter.MatchFilter: the outpoint bytes (id, then a 16-bit little-endian index) and MurmurHash3 come from code that is not part of this model; the hash is an arbitrary total function.
- BlockBuilder.AcceptedIdsAreReal: assumes that no node of the real tree has a second preimage, which every injective pair hash satisfies; a hash has no fixed length here, so injective pair hashes exist.
- MerkleBranch.GetTxMerkleBranch: the fold that recomputes a root (`auxpow.GetMerkleRoot`) is not part of this repository and is written out as `RootFromBranch`.
- HeaderChain.CommitKeepsBest: heights are unbounded, the 32-bit wrap of a height is not modelled; a block hash is taken to determine the block, and no block hashes to what genesis names as its parent.
- ChainDB.Store.CommitBlock: follows the documented contract of the transaction store (`database/txsdb.go`), with a put at an occupied height replacing the list; false-positive counts, LevelDB, SQLite and the wallet's UTXO tables are not modelled.
- FeeRates.FeeTable.Put: every put is committed before the next; a run has fewer than 2^32 puts, because a list of all 2^32 heights would be stored with length 0; rates are integers, their byte form is not part of this model.
- ArbiterTable.Arbiters.Put: every put is committed before the next, and the re-use of one uncleared batch by consecutive direct puts is not modelled; any lists are stored, but what is read back is stated for lists of at most 255 keys of at most 33 bytes, since the count is cast to a byte and the reader rejects longer keys; the variable-length integer before a key is taken to have its usual form, and the reader to reject a first byte above 33.
- ArbiterTable.PutAtHomeMisleads: entries of at most four bytes, such as two empty lists, are left out, because a pointer can happen to read like them.
- ArbiterTable.StoreAndAsk: stored lists do not collide in digest.
- Confirmation.RevertStore.BatchPut: the byte form of the record list uses a variable-length integer that is not part of this model, so the list is stored as a value.
- BlockDownload.BlockHandler.Handle: each message is one atomic step; whether the peer is connected is an argument of the step.
- SyncManager.Manager.HandleBlock: the chain's answer, the heights and the filter's error rate are arguments; the error-rate estimate itself is not modelled.
- SyncManager.Manager.RequestQueuedInv: peer states are values in a map that the handlers replace, so sharing of one inventory entry between messages is not captured.
- The database tables are maps; a failing database, partially applied batches and crashes are not modelled.
- Networking, goroutines, channels, locks, timers, RPC, configuration, the keystore and signing.
- Reserved and received custom ids and the rest of `interface/store`, which only store and load values.
