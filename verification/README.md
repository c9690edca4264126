# Verified models of the civic-participation, validium and money-market-fund prototypes

This project models three components and proves properties of the models.

1. The petition protocol of `pocs/civic-participation/resilient-civic-participation`: the indexed Merkle tree
   (`Imt`, `ImtStore`), the predicate machine, its taint analysis and codec (`Predicate`, `PredicateMeaning`,
   `ClassSearch`, `ClassBinding`, `PredicateCodec`, `CanonicalScalars`), the blob payload and carrier (`Blob`), the byte
   layouts (`Layouts`), the forward-secure ratchet (`Fsrt`, `Ratchet`), the registry (`Petition`, `PetitionInvariant`,
   `DisputeOutcome`, `Registry`, `RegistryRuns`, `RegistryTerms`, `RegistryProofs`) and the two actors that work with it
   (`Relayer`, `RelayerOutcome`, `RelayerFailures`, `Resolver`).
2. The state transition of `pocs/diy-validium` (`Validium`, `ValidiumSoundness`, `ValidiumOverlong`).
3. The transfer agent's planning in `pocs/private-mmf/shielded-notes` (`HandOut`, `Attestation`).

`Merkle` holds the one reference tree all constructions are compared with, `Field` field elements and big-endian
strings, `Wrappers` results and options, and `HashWitness` hashes that meet the hypotheses of the soundness lemmas. `dafny verify dfyconfig.toml` checks everything.

## How the model is built

- Code that works in place is a class or a loop proved against a function of the old state. The properties are proved
  about that function and carry over to every run. Registry entries hold each tree as the list of its leaves, which is
  the value the in-place engine `ImtStore` is proved to maintain; the code clones trees before it changes them.
- Hashes, proof backends, the credential registry, the clock and randomness are parameters. A digest is an unbounded
  integer, so that a hash without collisions exists; absence of collisions is a hypothesis of the soundness lemmas only.
  Tree depth is a parameter; the deployed depth 24 meets the one bound that is needed (`Depth24IsIndexable`).
- A 32-byte big-endian array is identified with the number it encodes, so that array order is number order.
- Block numbers are added modulo 2^64 where the code adds without a check, and compared after a checked addition
  where it checks.
- The carrier a dispute reads from has to be binding (a blob found under a published versioned hash is the blob that
  was hashed). It need not keep the record list that was published: a list padded with zero records is shown to be
  caught by the identity-tag tree.
- Sorting by leaf and binary search are library calls in the code and are written out here. Iteration over an ordered
  map is iteration over its sorted keys. Shuffling is any permutation, and fresh padding values are any values.
- Some error values are told apart or merged: an attribute index out of range is `ClaimOutOfRange` (the code reports
  a malformed predicate), a bounty over 128 bits is `BountyTooLarge` (the code reports a malformed predicate), and the
  messages of malformed drafts are not kept.
- The orders of a hand-out total less than 2^64 units, as the aggregate note that carries the total has to.

## Where the code departs from what it promises

Each of these is stated with the exact condition under which the code does what is expected.

- An empty tree slot hashes like the leaf (0, 0, 0) and brackets every value: non-membership needs an occupied index
  (`BracketedIffUnoccupied`).
- Dispute positions are bounded by the blob's capacity, not by the batch: a dispute against a correct batch succeeds
  exactly at certain positions past its end (`DisputeSucceedsIff`), so every available Active batch can be repudiated
  (`EveryBatchFalls`), and with the first one nothing is left to resolve (`NothingLeftAfterFirstBatch`).
- The design asks that a predicate force the class attribute into the class set. Registration compares only the first
  binding operand with it, which lets other classes in and refuses some class-bound predicates
  (`FirstOperandIsNotEnough`, `FirstOperandIsTooStrict`). A registered predicate keeps the promise exactly when a
  finite search over candidate attribute values finds nobody outside the set (`ClassBoundIff`); a predicate that meets
  the design's rule is registered exactly when its first binding operand is in the set (`DesignRuleRegistersIff`).
- A petition whose credential root is not below the field modulus can never resolve (`UncanonicalNeverResolves`); for
  the resolver's own submission this is the only obstacle in the state checks (`SubmissionMatchesIffCanonical`).
- A failed build is not rolled back: it leaves the relayer diverged from the unchanged petition exactly when it passed
  its checks and its first leaf was new and had room (`FailedBuildDiverges`). Identity tags that differ by the field
  modulus are such an input (`TagsModuloFieldDiverge`, and for a single signer `ReplayedSignerDiverges`).
- After a journal the signer's path is read off wiped values (`PathValidIffUnwiped`). The frontier's path leads to the
  enrolled root only for the last slot (`FrontierRootIsEnrolledIff`).
- A zero record ends the decoding of a blob (`BlobRoundTrip`), and the predicate decoder ignores trailing bytes
  (`DecodesIffEncodingPrefix`).
- A validium transfer whose index vectors are longer than its paths is accepted. Its root is that of no ledger of the
  same depth (`TransferSound`), but of a tree one level higher that holds the ledger twice, once with the sender and
  once with the recipient updated (`OverlongCommits`); on a full ledger this doubles the total (`OverlongDoubles`).
  Runs conserve the total when no such transfer occurs in them (`RunConserves`), and with one can pay out twice what was
  deposited (`UnguardedRunPaysDouble`).

## Model

| member | source | states |
|---|---|---|
| Merkle.FoldPath | pocs/civic-participation/resilient-civic-participation/src/imt.rs:116-131 | a path taken from the padded tree folds its node to the ancestor, for every level, index and padding |
| Merkle.FoldSound | pocs/civic-participation/resilient-civic-participation/src/imt.rs:116-131 | with a collision-free hash, whatever folds to a node of the tree is the node below and its genuine siblings |
| Merkle.FoldTwoReplaced | pocs/diy-validium/host/src/merkle.rs:157-220 | folding two branches to their meeting point and on gives the root of the tree with both leaves replaced |
| Merkle.NodeBinding | pocs/civic-participation/resilient-civic-participation/src/imt.rs:108-115 | equal nodes of two trees have equal leaves below them |
| Imt.LowIsUnique | pocs/civic-participation/resilient-civic-participation/src/imt.rs:133-149 | at most one leaf of a sorted list brackets a value |
| Imt.LowIffAbsent | pocs/civic-participation/resilient-civic-participation/src/imt.rs:133-149 | a value has a bracketing leaf exactly when it is absent, so the scan never ends without one |
| Imt.InsertOutcome | pocs/civic-participation/resilient-civic-participation/src/imt.rs:201-215 | insert reports a full tree, a duplicate or success, each exactly in its case; the missing-low-leaf error is unreachable |
| Imt.SpliceKeepsChain | pocs/civic-participation/resilient-civic-participation/src/imt.rs:216-235 | relinking the low leaf and appending the new one keeps one strictly ascending chain from index 0 through every leaf |
| Imt.InsertKeepsSorted | pocs/civic-participation/resilient-civic-participation/src/imt.rs:201-244 | insertion keeps the list sorted and adds exactly the inserted value |
| Imt.InsertAllOutcome | pocs/civic-participation/resilient-civic-participation/src/imt.rs:201-244 | a row of inserts succeeds exactly when the values are new, pairwise different and fit, and the tree then holds exactly them besides what it held |
| Imt.OwnPathVerifies | pocs/civic-participation/resilient-civic-participation/src/imt.rs:116-131 | every slot, empty ones included, verifies along its own path |
| Imt.VerifiedIsStored | pocs/civic-participation/resilient-civic-participation/src/imt.rs:167-179 | only the stored leaf verifies at an index, along only one path |
| Imt.NonMembershipSound | pocs/civic-participation/resilient-civic-participation/src/imt.rs:181-199 | a verifying bracketing leaf at an occupied index proves the value was never inserted |
| Imt.BracketedIffUnoccupied | pocs/civic-participation/resilient-civic-participation/src/imt.rs:248-261 | an inserted value can be bracketed by a verifying leaf exactly at the unoccupied slots, which hash like the leaf (0, 0, 0) |
| Imt.RootBinds | pocs/civic-participation/resilient-civic-participation/src/imt.rs:108-115 | two sorted trees with one root are the same list of leaves |
| Imt.WitnessIsUpdateProof | pocs/civic-participation/resilient-civic-participation/src/imt.rs:216-244 | the insert witness takes old low leaf to old root, new low leaf and empty leaf to one intermediate root, and new leaf to new root |
| Imt.UpdateProofSound | pocs/civic-participation/resilient-civic-participation/src/imt.rs:216-244 | any such update proof at an occupied low index and the next free index describes exactly an insert |
| ImtStore.LevelRepaired | pocs/civic-participation/resilient-civic-participation/src/imt.rs:84-106 | rewriting one parent repairs its whole level of the sparse table, at every index |
| ImtStore.EmptySubtrees | pocs/civic-participation/resilient-civic-participation/src/imt.rs:248-261 | entry l is the digest of an empty subtree of height l |
| ImtStore.IndexedMerkleTree.constructor | pocs/civic-participation/resilient-civic-participation/src/imt.rs:70-82 | a new tree is valid and holds the zero leaf |
| ImtStore.IndexedMerkleTree.SetLeafHash | pocs/civic-participation/resilient-civic-participation/src/imt.rs:84-106 | after the update the sparse tables are the full padded tree over the changed leaf vector |
| ImtStore.IndexedMerkleTree.RootFr | pocs/civic-participation/resilient-civic-participation/src/imt.rs:108-114 | the stored root is the root of the full padded tree |
| ImtStore.IndexedMerkleTree.PathFor | pocs/civic-participation/resilient-civic-participation/src/imt.rs:116-131 | the siblings collected from the tables are the path in the full padded tree |
| ImtStore.IndexedMerkleTree.FindLowLeafIndex | pocs/civic-participation/resilient-civic-participation/src/imt.rs:133-149 | duplicate, or the last bracketing leaf |
| ImtStore.IndexedMerkleTree.QueryMembership | pocs/civic-participation/resilient-civic-participation/src/imt.rs:167-179 | answers exactly for inserted values, with a proof that verifies against the root |
| ImtStore.IndexedMerkleTree.QueryNonMembership | pocs/civic-participation/resilient-civic-participation/src/imt.rs:181-199 | answers exactly for absent values, with the one bracketing leaf and a proof that verifies |
| ImtStore.IndexedMerkleTree.InsertValue | pocs/civic-participation/resilient-civic-participation/src/imt.rs:201-244 | the in-place insert refines insertion into the sorted list, keeps tables and list in step, returns an update proof and changes nothing on error |
| Validium.HeapIsTree | pocs/diy-validium/host/src/merkle.rs:46-65 | heap slot 2^(depth - level) + i holds node i of that level of the padded tree |
| Validium.MerkleTree.constructor | pocs/diy-validium/host/src/merkle.rs:46-65 | the flat heap is filled bottom-up from the leaves and zero padding |
| Validium.MerkleTree.Root | pocs/diy-validium/host/src/merkle.rs:67-70 | slot 1 is the root of the padded tree |
| Validium.MerkleTree.Prove | pocs/diy-validium/host/src/merkle.rs:77-98 | the proof of an index is its path in the padded tree |
| Validium.ComputeSingleLeafRoot | pocs/diy-validium/host/src/merkle.rs:314-335 | folds the leaf along the shorter of path and indices |
| Validium.DivergenceDiffers | pocs/diy-validium/host/src/merkle.rs:157-185 | the divergence found is the highest position at which the index vectors differ |
| Validium.ComputeNewRoot | pocs/diy-validium/host/src/merkle.rs:157-220 | computes the joint root of two updated branches, or stops where the code panics |
| Validium.VerifyTransfer | pocs/diy-validium/host/src/merkle.rs:230-304 | accepts exactly transfers between two different committed accounts with a payable positive amount and the recomputed root |
| Validium.VerifyWithdrawal | pocs/diy-validium/host/src/merkle.rs:342-381 | accepts exactly withdrawals of a positive covered amount from a committed account with the recomputed root |
| ValidiumSoundness.MemberSound | pocs/diy-validium/host/src/merkle.rs:101-137 | an inclusion proof of any length against the root of a ledger names a slot that holds the account |
| ValidiumSoundness.NewRootOfTwo | pocs/diy-validium/host/src/merkle.rs:157-220 | over genuine branches of two slots the recomputed root is that of the tree with exactly those two leaves replaced |
| ValidiumSoundness.WithdrawalSound | pocs/diy-validium/host/src/merkle.rs:342-381 | an accepted withdrawal takes a positive amount the account has, replaces that one leaf by the lowered account and lowers the total by exactly the amount |
| ValidiumSoundness.TransferSound | pocs/diy-validium/host/src/merkle.rs:230-304 | an accepted transfer moves a positive amount the sender has between two different slots and conserves the total; its new root is that of the ledger with those two leaves replaced if and only if the index vector is no longer than the path, and with a longer one it is the root of no ledger of that depth |
| ValidiumSoundness.OverlongIndicesAccepted | pocs/diy-validium/methods/guest/src/transfer.rs:18-66 | transfers with one extra differing direction are accepted for every ledger and pair of accounts |
| ValidiumOverlong.OverlongCommits | pocs/diy-validium/methods/guest/src/transfer.rs:18-66 | every accepted transfer with over-long indices has exactly one direction too many, and its root is that of a tree one level higher with the recipient's updated ledger, padding written out, beside the sender's |
| ValidiumOverlong.OverlongDoubles | pocs/diy-validium/methods/guest/src/transfer.rs:18-66 | on a full ledger that is the root of a ledger of the next depth that holds twice the total |
| ValidiumSoundness.TransferComplete | pocs/diy-validium/host/src/merkle.rs:230-304 | every payable transfer with genuine paths is accepted and leads to the root of the updated ledger |
| ValidiumSoundness.WithdrawalComplete | pocs/diy-validium/host/src/merkle.rs:342-381 | every withdrawal an account covers, with its genuine path, is accepted and leads to the root of the ledger with that account lowered |
| ValidiumSoundness.RunConserves | pocs/diy-validium/methods/guest/src/transfer.rs:68-122 | over every run of accepted transfers and withdrawals in which no sender index vector is longer than its path, a guard the code lacks, the final total and the withdrawn amounts add up to the first total, and no account changes hands |
| ValidiumOverlong.UnguardedRunPaysDouble | pocs/diy-validium/methods/guest/src/transfer.rs:18-66 | without that guard conservation fails: from every full ledger whose holders can sign the code accepts a run that pays out twice the total |
| Fsrt.ExpandChain | pocs/civic-participation/resilient-civic-participation/src/fsrt.rs:27-39 | the first seed is the given one, and each seed yields its slot's value and the next seed by the PRG |
| Fsrt.NextLayer | pocs/civic-participation/resilient-civic-participation/src/fsrt.rs:42-66 | halving a padded layer gives the next level of the tree |
| Fsrt.AboveSingle | pocs/civic-participation/resilient-civic-participation/src/fsrt.rs:42-66 | above a single node every sibling is an empty subtree |
| Fsrt.EmptySubtrees | pocs/civic-participation/resilient-civic-participation/src/fsrt.rs:182-189 | entry l is the digest of an empty subtree of height l |
| Fsrt.ComputeChainRoot | pocs/civic-participation/resilient-civic-participation/src/fsrt.rs:42-66 | the sparse builder returns the root of the full zero-padded tree, for every list of values |
| Fsrt.ComputePath | pocs/civic-participation/resilient-civic-participation/src/fsrt.rs:69-103 | the path builder returns the path in that tree for every index in range |
| Fsrt.PathFolds | pocs/civic-participation/resilient-civic-participation/src/fsrt.rs:69-103 | each of these paths folds the slot value to the chain root |
| Ratchet.Caterpillar.constructor | pocs/civic-participation/resilient-civic-participation/src/fsrt.rs:116-124 | an empty frontier has absorbed nothing |
| Ratchet.Caterpillar.ToBytes | pocs/civic-participation/resilient-civic-participation/src/fsrt.rs:172-180 | the stored frontier is the complete left sibling at each level, or the empty subtree |
| Ratchet.Caterpillar.Advance | pocs/civic-participation/resilient-civic-participation/src/fsrt.rs:131-150 | the binary carry absorbs exactly the next value and keeps every level the complete left sibling |
| Ratchet.Caterpillar.PathForCurrentSlot | pocs/civic-participation/resilient-civic-participation/src/fsrt.rs:154-169 | for every value of the next slot, the logarithmic frontier yields that slot's path in the tree over what was absorbed and that value |
| Ratchet.FrontierPathFolds | pocs/civic-participation/resilient-civic-participation/src/fsrt.rs:154-169 | that path folds the value to the chain root of the extended list |
| Ratchet.FrontierRootIsEnrolledIff | pocs/civic-participation/resilient-civic-participation/src/fsrt.rs:154-169 | the root that path leads to is the enrolled one exactly for the last slot of the chain |
| Ratchet.NextStep | pocs/civic-participation/resilient-civic-participation/src/fsrt.rs:284-300 | a slot that is not wiped still yields its original value and the next seed, and wiping again is wiping further |
| Ratchet.SignerChainState.Enroll | pocs/civic-participation/resilient-civic-participation/src/fsrt.rs:228-241 | a fresh signer has all secrets, an empty frontier and the chain root of its values |
| Ratchet.SignerChainState.AdvanceTo | pocs/civic-participation/resilient-civic-participation/src/fsrt.rs:243-251 | advancing absorbs the original values of the slots passed over and moves nothing else |
| Ratchet.SignerChainState.MerklePathForCurrentSlot | pocs/civic-participation/resilient-civic-participation/src/fsrt.rs:272-275 | the path read off the possibly wiped values |
| Ratchet.SignerChainState.WipeThrough | pocs/civic-participation/resilient-civic-participation/src/fsrt.rs:343-360 | all seeds and values up to the slot are zero, the later ones untouched |
| Ratchet.SignerChainState.PrepareNext | pocs/civic-participation/resilient-civic-participation/src/fsrt.rs:284-310 | the successor state computed on the side is that of the next slot: its seed and number, the frontier over the values so far, the enrolled root |
| Ratchet.SignerChainState.Commit | pocs/civic-participation/resilient-civic-participation/src/fsrt.rs:336-364 | at the commit point head, frontier and counter move together and past secrets are wiped |
| Ratchet.SignerChainState.JournalFinalizedSigning | pocs/civic-participation/resilient-civic-participation/src/fsrt.rs:284-364 | a durable journal returns and keeps exactly the next slot's seed, number and frontier, wipes the slot and moves the head; a failure before the commit point leaves memory unchanged, and a journal that was only renamed holds the next state all the same |
| Ratchet.PathValidIffUnwiped | pocs/civic-participation/resilient-civic-participation/src/fsrt.rs:272-275 | the path read for the current slot leads to the enrolled root exactly when nothing has been wiped |
| Predicate.ValidParts | pocs/civic-participation/resilient-civic-participation/src/predicate.rs:54-105 | validation passes exactly when counts, operators and tuples are each in order |
| Predicate.Evaluate | pocs/civic-participation/resilient-civic-participation/src/predicate.rs:191-225 | the stack loop computes the run of the postfix program that `EvaluationMeans` and `CodeEvaluates` give the meaning of |
| PredicateMeaning.ValidIff | pocs/civic-participation/resilient-civic-participation/src/predicate.rs:54-105 | validation accepts exactly 1 to the maximum of tuples and of operators, each push naming a tuple and no other operator an operand, each tuple well typed |
| PredicateMeaning.CodeDenotes | pocs/civic-participation/resilient-civic-participation/src/predicate.rs:191-225 | the postfix code of every boolean expression denotes that expression |
| PredicateMeaning.EvaluationMeans | pocs/civic-participation/resilient-civic-participation/src/predicate.rs:191-225 | a valid program evaluates to the truth of the boolean expression over comparisons that it denotes, or reports a missing attribute the expression names; a program that denotes none fails |
| PredicateMeaning.CodeEvaluates | pocs/civic-participation/resilient-civic-participation/src/predicate.rs:191-225 | so the code of any expression evaluates to the truth of that expression |
| PredicateMeaning.StrictAcceptsIff | pocs/civic-participation/resilient-civic-participation/src/predicate.rs:229-257 | a predicate is accepted for a class tag exactly when the expression it denotes is bound, by its structure, by tuples that equate the class attribute with that tag |
| PredicateMeaning.LooseAcceptsIff | pocs/civic-participation/resilient-civic-participation/src/predicate.rs:260-282 | the same for tuples with any 16-bit operand, and the operand handed back is that of the first such tuple |
| Predicate.EvaluateClassBindingTaint | pocs/civic-participation/resilient-civic-participation/src/predicate.rs:294-344 | the tag loop computes the abstract run |
| Predicate.StepLockstep | pocs/civic-participation/resilient-civic-participation/src/predicate.rs:294-344 | one step of both machines: same stack height, Bound tags still cover the goal, same stack errors |
| Predicate.RunLockstep | pocs/civic-participation/resilient-civic-participation/src/predicate.rs:191-225 | the whole runs simulate each other: a true result under a Bound tag forces the goal |
| Predicate.StrictBindingSound | pocs/civic-participation/resilient-civic-participation/src/predicate.rs:229-257 | a predicate accepted for a class tag is true only if the class attribute is that tag |
| Predicate.LooseBindingSound | pocs/civic-participation/resilient-civic-participation/src/predicate.rs:260-282 | an accepted predicate is true only if the class attribute is one of the binding operands |
| Predicate.AcceptedNeverUnderflows | pocs/civic-participation/resilient-civic-participation/src/predicate.rs:191-225 | acceptance rules out stack underflow and a non-singleton result |
| Predicate.FirstBinding | pocs/civic-participation/resilient-civic-participation/src/predicate.rs:260-282 | the operand handed back is that of the first tuple that compares the class attribute for equality, and is missing only when there is none |
| ClassBinding.DesignRuleSound | pocs/civic-participation/resilient-civic-participation/src/predicate.rs:226-262 | the rule of the design, binding operands in the class set, forces the class attribute into the set, for vectors of every length |
| ClassBinding.ClassBoundIff | pocs/civic-participation/resilient-civic-participation/src/registry/core.rs:261-268 | for attribute vectors of each length, a registered predicate keeps the promise exactly when a finite search finds no satisfying signer for any binding operand outside the class set |
| ClassSearch.SatisfiableIff | pocs/civic-participation/resilient-civic-participation/src/predicate.rs:360-391 | the search over finitely many candidate values per claim decides whether a signer of a class can satisfy a predicate, over all attribute vectors of a length, for every length |
| ClassSearch.Representative | pocs/civic-participation/resilient-civic-participation/src/predicate.rs:360-391 | every attribute value has a candidate that no comparison of the predicate tells apart from it |
| ClassBinding.AllOperandsSuffice | pocs/civic-participation/resilient-civic-participation/src/registry/core.rs:261-268 | a class set that holds every binding operand is enough, and meets the design's rule |
| ClassBinding.FirstOperandIsNotEnough | pocs/civic-participation/resilient-civic-participation/src/registry/core.rs:261-268 | a predicate registered for class set {1} that class 2 satisfies, with the deployed number of attributes |
| ClassBinding.DesignRuleRegistersIff | pocs/civic-participation/resilient-civic-participation/src/registry/core.rs:261-268 | a predicate that meets the design's rule has a binding operand, and is registered exactly when the first one is in the class set |
| ClassBinding.BoundIsMonotone | pocs/civic-participation/resilient-civic-participation/src/predicate.rs:294-344 | a larger binding set keeps a Bound result Bound |
| ClassBinding.FirstOperandIsTooStrict | pocs/civic-participation/resilient-civic-participation/src/registry/core.rs:261-268 | a predicate of the refused kind: it meets the design's rule, and its first binding operand, which it never uses, lies outside the set |
| PredicateCodec.EncodeNeverTooLarge | pocs/civic-participation/resilient-civic-participation/src/predicate.rs:107-133 | the size error of the encoder is unreachable: it refuses exactly the invalid predicates |
| PredicateCodec.Encode | pocs/civic-participation/resilient-civic-participation/src/predicate.rs:112-133 | the buffer filled by the loops is the encoding |
| PredicateCodec.Decode | pocs/civic-participation/resilient-civic-participation/src/predicate.rs:135-188 | the cursor loops return the decoding or its first error |
| PredicateCodec.ReadTuplesInverse | pocs/civic-participation/resilient-civic-participation/src/predicate.rs:135-170 | the counted tuple reads are the inverse of writing tuples |
| PredicateCodec.ReadOpsInverse | pocs/civic-participation/resilient-civic-participation/src/predicate.rs:170-188 | the counted operator reads are the inverse of writing operators |
| PredicateCodec.DecodesIffEncodingPrefix | pocs/civic-participation/resilient-civic-participation/src/predicate.rs:135-188 | a buffer decodes to p exactly when p is valid, the buffer is within the cap and starts with the encoding of p |
| PredicateCodec.RoundTrip | pocs/civic-participation/resilient-civic-participation/src/predicate.rs:112-188 | every valid predicate encodes, and decodes back to itself |
| CanonicalScalars.ComputeCanonicalScalars | pocs/civic-participation/resilient-civic-participation/src/predicate.rs:401-429 | the segment loop returns the 34 scalars of the buffer, or refuses a buffer over the cap |
| CanonicalScalars.SegmentUnreduced | pocs/civic-participation/resilient-civic-participation/src/predicate.rs:401-429 | no segment is reduced by the modulus |
| CanonicalScalars.ScalarsInjective | pocs/civic-participation/resilient-civic-participation/src/predicate.rs:401-429 | different buffers within the cap have different scalars |
| Layouts.PredicateLayout | pocs/civic-participation/resilient-civic-participation/src/predicate.rs:107-133 | where each count, claim index, operand, type, comparator and operator code of a valid predicate stands in its encoding, with their byte values |
| Layouts.ScalarLayout | pocs/civic-participation/resilient-civic-participation/src/predicate.rs:401-429 | the first scalar is the length above 29 content bytes as one number, each later one the next 31 content bytes |
| Blob.RecordRoundTrip | pocs/civic-participation/resilient-civic-participation/src/blob.rs:43-64 | decoding an encoded record gives the record |
| Layouts.RecordLayout | pocs/civic-participation/resilient-civic-participation/src/blob.rs:43-64 | nullifier, identity tag, class and zeros at their places in the 96 bytes of a record |
| Layouts.BlobLayout | pocs/civic-participation/resilient-civic-participation/src/blob.rs:66-87 | which byte of which record stands at each byte of each field element of a blob, and that all others are zero |
| Blob.EncodeBlob | pocs/civic-participation/resilient-civic-participation/src/blob.rs:66-87 | the nested loops fill the blob, or refuse more than 1000 records |
| Blob.BlobHoldsRecords | pocs/civic-participation/resilient-civic-participation/src/blob.rs:66-87 | each record position of a blob reads back as its record, or as the zero record past the end |
| Blob.SameBlobSameRecords | pocs/civic-participation/resilient-civic-participation/src/blob.rs:66-87 | lists with the same blob agree up to trailing zero records |
| Blob.DecodeBlob | pocs/civic-participation/resilient-civic-participation/src/blob.rs:90-115 | reads records up to the first zero one, and refuses a wrong length |
| Blob.BlobRoundTrip | pocs/civic-participation/resilient-civic-participation/src/blob.rs:66-115 | decoding an encoded list gives the list cut at its first zero record, so the list itself exactly when it has none |
| Blob.DeriveEvidence | pocs/civic-participation/resilient-civic-participation/src/registry/core.rs:915-946 | the slot loop returns the evidence of the openings, or none |
| Layouts.EvidenceIff | pocs/civic-participation/resilient-civic-participation/src/registry/core.rs:915-946 | evidence exists if and only if the position is one of the 1000 of a blob and each of its four field elements has exactly one opening |
| Blob.EvidenceIsRecord | pocs/civic-participation/resilient-civic-participation/src/registry/core.rs:915-946 | with faithful openings the evidence is exactly the record at the position |
| Blob.InMemoryBlobCarrier.Publish | pocs/civic-participation/resilient-civic-participation/src/adapters/in_memory_blob.rs:57-68 | stores the encoding under its own versioned hash and keeps the carrier faithful |
| Blob.InMemoryBlobCarrier.Open | pocs/civic-participation/resilient-civic-participation/src/adapters/in_memory_blob.rs:70-96 | opens exactly stored positions, with the published value, and what it opens it verifies |
| Layouts.OpeningVerifiesIff | pocs/civic-participation/resilient-civic-participation/src/adapters/in_memory_blob.rs:98-130 | an opening verifies exactly when it is of a stored blob, has the stored value and carries the tag of hash, index and value |
| PetitionInvariant.ReplayIsInsertAll | pocs/civic-participation/resilient-civic-participation/src/registry/core.rs:702-726 | a replay succeeds exactly when both trees take all their values |
| PetitionInvariant.ExecuteIsReplay | pocs/civic-participation/resilient-civic-participation/src/registry/core.rs:505-548 | re-execution accepts exactly replayable records of the petition's classes in strict leaf order, with the replay's trees |
| PetitionInvariant.ReplayedTags | pocs/civic-participation/resilient-civic-participation/src/registry/core.rs:511-548 | replayed records have different, nonzero identity tags |
| PetitionInvariant.SettleMonotone | pocs/civic-participation/resilient-civic-participation/src/registry/core.rs:137-164 | stepping never lowers the lifecycle rank and keeps a petition open only before its close block |
| PetitionInvariant.SettleExact | pocs/civic-participation/resilient-civic-participation/src/registry/core.rs:137-164 | the state a petition settles in, as a table of the stored state and the block |
| PetitionInvariant.BatchIndexFits | pocs/civic-participation/resilient-civic-participation/src/registry/core.rs:560-565 | the batch index never overflows, because each batch puts a leaf into a bounded tree |
| PetitionInvariant.Depth24IsIndexable | pocs/civic-participation/resilient-civic-participation/src/lib.rs:54-54 | the deployed depth satisfies the bound |
| PetitionInvariant.FailedPublishKeepsState | pocs/civic-participation/resilient-civic-participation/src/registry/core.rs:505-572 | a failed publication leaves roots, trees, count and batches unchanged |
| RegistryProofs.PublishIff | pocs/civic-participation/resilient-civic-participation/src/registry/core.rs:427-599 | a batch is accepted if and only if the petition is open, its proof verifies, its public inputs are bound to petition, slot and blob and lead from the stored roots and count to those after its records, and the records are of the petition's classes, in strict leaf order and insertable |
| RegistryProofs.PublishStores | pocs/civic-participation/resilient-civic-participation/src/registry/core.rs:553-599 | what is stored of an accepted batch and in the petition, field by field |
| PetitionInvariant.PublishHolds | pocs/civic-participation/resilient-civic-participation/src/registry/core.rs:427-599 | a successful publication, possible only before close, extends the replayed history by its records |
| PetitionInvariant.FetchedIsHistory | pocs/civic-participation/resilient-civic-participation/src/registry/core.rs:702-726 | records fetched for a rebuild that replay are the published ones, even if the carrier padded them |
| PetitionInvariant.RollBackRoots | pocs/civic-participation/resilient-civic-participation/src/registry/core.rs:948-963 | the predecessor's recorded roots and count are those of the replay up to it |
| PetitionInvariant.DisputeHolds | pocs/civic-participation/resilient-civic-participation/src/registry/core.rs:602-745 | a successful dispute leaves exactly the earlier batches Active, with roots, counts and trees of their replay, and returns these roots and this count |
| PetitionInvariant.DisputeInWindow | pocs/civic-participation/resilient-civic-participation/src/registry/core.rs:606-620 | a dispute succeeds only from cooldown end to before the resolution deadline |
| PetitionInvariant.DisputeExact | pocs/civic-participation/resilient-civic-participation/src/registry/core.rs:636-700 | the violation test, given faithful complete openings of an accepted batch, passes exactly at the named positions past its end |
| PetitionInvariant.ViolationMeans | pocs/civic-participation/resilient-civic-participation/src/registry/core.rs:636-700 | the violation test passes exactly when the opened records show it: a class outside the set, two places with one tag, or neighbours out of strict order |
| DisputeOutcome.DisputeSucceedsIff | pocs/civic-participation/resilient-civic-participation/src/registry/core.rs:602-745 | the operation on a consistent petition with available earlier blobs: it succeeds exactly in time, against an Active batch, with verified openings of what it names, and when that lies past the end of the batch |
| DisputeOutcome.EveryBatchFalls | pocs/civic-participation/resilient-civic-participation/src/registry/core.rs:915-924 | every Active batch, correct as it is, falls in the window to a duplicate-tag dispute about the two positions past its end with the carrier's own eight openings; only earlier batches stay Active |
| PetitionInvariant.AcceptedBatchStands | pocs/civic-participation/resilient-civic-participation/src/registry/core.rs:631-700 | no dispute about positions below the record count of an accepted batch succeeds, for any violation type and any openings |
| PetitionInvariant.ResolveHolds | pocs/civic-participation/resilient-civic-participation/src/registry/core.rs:751-816 | resolution happens only after the deadline, keeps history and root, and pays exactly the bounty |
| RegistryProofs.ResolveIff | pocs/civic-participation/resilient-civic-participation/src/registry/core.rs:751-816 | a resolution is accepted if and only if the petition is in its dispute window past the deadline, the proof verifies, and the claim is about the stored predicate, roots, count, classes and thresholds |
| RegistryProofs.ResolveStores | pocs/civic-participation/resilient-civic-participation/src/registry/core.rs:797-816 | the claimed bits are stored, nothing else changes, and the bounty goes to the resolver |
| PetitionInvariant.UnresolvedHolds | pocs/civic-participation/resilient-civic-participation/src/registry/core.rs:820-870 | expiry happens only after deadline and grace; the organizer gets the bounty less the rebate, and the caller the rebate asked for, up to one percent |
| RegistryProofs.ExpireIff | pocs/civic-participation/resilient-civic-participation/src/registry/core.rs:820-870 | a petition expires if and only if it is in its dispute window past deadline and grace; recipients, amounts and the marked root are those given |
| Registry.ExecuteRecords | pocs/civic-participation/resilient-civic-participation/src/registry/core.rs:505-548 | the loop over scratch trees is the re-execution of the batch |
| Registry.ReplayRecords | pocs/civic-participation/resilient-civic-participation/src/registry/core.rs:702-726 | the loop rebuilds both trees from nothing |
| Registry.VerifyOpenings | pocs/civic-participation/resilient-civic-participation/src/registry/core.rs:631-635 | every opening is checked, the first bad one refuses |
| Registry.FetchRecords | pocs/civic-participation/resilient-civic-participation/src/registry/core.rs:702-717 | the records of the Active batches, in order |
| Registry.RollBackToPredecessor | pocs/civic-participation/resilient-civic-participation/src/registry/core.rs:948-963 | the last Active batch before the disputed one, or the empty petition |
| Registry.MatchesState | pocs/civic-participation/resilient-civic-participation/src/registry/core.rs:773-796 | accepts exactly public inputs equal to the stored petition, class by class |
| Registry.PetitionRegistry.StepState | pocs/civic-participation/resilient-civic-participation/src/registry/core.rs:137-164 | advances one petition as far as the clock allows and touches nothing else |
| Registry.CheckDraft | pocs/civic-participation/resilient-civic-participation/src/registry/core.rs:221-268 | the scans over thresholds and classes and the binding check give exactly the first draft error |
| Registry.NeighboursIncrease | pocs/civic-participation/resilient-civic-participation/src/registry/core.rs:246-252 | the scan of neighbours accepts exactly strictly increasing class sets |
| Registry.CheckedSum | pocs/civic-participation/resilient-civic-participation/src/registry/core.rs:331-342 | the checked sum fails exactly when the whole sum exceeds 128 bits |
| Registry.PetitionRegistry.Identify | pocs/civic-participation/resilient-civic-participation/src/registry/core.rs:294-318 | the derived identifier and encoding, or the first of encoding error, exhausted slots and duplicate |
| Registry.PetitionRegistry.CheckBounty | pocs/civic-participation/resilient-civic-participation/src/registry/core.rs:323-361 | the 128-bit arithmetic refuses exactly an out-of-bounds alpha, an overflowing floor, a bounty over 128 bits or one below the floor |
| Registry.PetitionRegistry.RegisterPetition | pocs/civic-participation/resilient-civic-participation/src/registry/core.rs:217-424 | the checks carried out in order, then slot, storage and stepping, are the registration transition |
| Registry.PetitionRegistry.Publish | pocs/civic-participation/resilient-civic-participation/src/registry/core.rs:427-599 | the new registry state and result are those of the publication transition |
| Registry.PetitionRegistry.DisputeBatch | pocs/civic-participation/resilient-civic-participation/src/registry/core.rs:602-745 | the new registry state and result are those of the dispute transition |
| Registry.PetitionRegistry.ResolvePetition | pocs/civic-participation/resilient-civic-participation/src/registry/core.rs:751-816 | the new registry state and result are those of the resolution transition |
| Registry.PetitionRegistry.MarkUnresolved | pocs/civic-participation/resilient-civic-participation/src/registry/core.rs:820-870 | the new registry state and result are those of the expiry transition |
| RegistryRuns.RegistrationHolds | pocs/civic-participation/resilient-civic-participation/src/registry/core.rs:217-424 | a registered petition is new, open for signing and consistent with the empty history |
| RegistryRuns.OperationKeeps | pocs/civic-participation/resilient-civic-participation/src/registry/core.rs:427-870 | every operation, successful or not, keeps a petition consistent with its history and its payments |
| RegistryRuns.StepKeeps | pocs/civic-participation/resilient-civic-participation/src/registry/core.rs:105-892 | every action keeps the whole registry consistent |
| RegistryRuns.EveryRunConsistent | pocs/civic-participation/resilient-civic-participation/src/registry/core.rs:105-892 | after every run, in any interleaving, roots, counts and trees of every petition are those of the replay of its Active batches, which form a prefix, and it has paid its bounty exactly if it has closed |
| RegistryProofs.EveryRunVouched | pocs/civic-participation/resilient-civic-participation/src/registry/core.rs:105-892 | after every run each stored batch was asked for by a submission whose proof verified against inputs bound to its petition and blob, and each resolved petition carries the bits of a claim about it whose proof verified |
| RegistryProofs.EveryRunFiled | pocs/civic-participation/resilient-civic-participation/src/registry/core.rs:105-892 | and the history whose replay the petition's roots are is that of these submissions |
| RegistryRuns.OperationOrderly | pocs/civic-participation/resilient-civic-participation/src/registry/core.rs:606-616 | no operation moves a lifecycle back or touches a closed petition, and batches, trees and root are frozen once the deadline has passed |
| RegistryTerms.OperationKeepsTerms | pocs/civic-participation/resilient-civic-participation/src/registry/core.rs:427-870 | no operation changes what a petition was registered with |
| RegistryTerms.RegistrationTerms | pocs/civic-participation/resilient-civic-participation/src/registry/core.rs:217-424 | an accepted draft got the next free slot, a signing window within bounds, an old enough root and at least the minimum bounty, and its stored bytes decode to its predicate |
| RegistryTerms.RegistersIff | pocs/civic-participation/resilient-civic-participation/src/registry/core.rs:217-361 | a draft is registered if and only if its own fields, the age of its root, its signing window, its identifier, the slot counter and a bounty of at least alpha times ten times the thresholds' sum times the operators allow it |
| RegistryTerms.RegistrationStores | pocs/civic-participation/resilient-civic-participation/src/registry/core.rs:362-424 | everything a registered petition is stored with, field by field from the draft |
| RegistryTerms.EveryRunRateInBounds | pocs/civic-participation/resilient-civic-participation/src/registry/core.rs:874-891 | over every run the rate stays within its bounds, and no registration is refused for it |
| RegistryTerms.EveryRunDistinguished | pocs/civic-participation/resilient-civic-participation/src/registry/core.rs:298-305 | in every reachable state petitions have different slots below the counter, and predicates that decode and name a class of the set |
| RegistryTerms.EveryRunContinues | pocs/civic-participation/resilient-civic-participation/src/registry/core.rs:137-164 | over every allowed run a petition is never lost, keeps its terms, never goes back and never changes once closed |
| Relayer.SortByLeafSorts | pocs/civic-participation/resilient-civic-participation/src/relayer/core.rs:163-164 | the sort orders by leaf and keeps the number of submissions |
| Relayer.SortByLeafPermutes | pocs/civic-participation/resilient-civic-participation/src/relayer/core.rs:163-164 | the sort permutes |
| Relayer.CheckSubmissions | pocs/civic-participation/resilient-civic-participation/src/relayer/core.rs:89-118 | the first submission with a wrong petition, class or proof refuses the batch |
| Relayer.CheckDuplicates | pocs/civic-participation/resilient-civic-participation/src/relayer/core.rs:148-161 | the first repeated nullifier or identity tag is reported with both places |
| Relayer.RelayerPetitionState.InsertRecords | pocs/civic-participation/resilient-civic-participation/src/relayer/core.rs:170-190 | the replicas take records in order up to the first refusal, and keep what they took; each position holds update proofs for its step of both trees |
| Relayer.RelayerPetitionState.BuildBatch | pocs/civic-participation/resilient-civic-participation/src/relayer/core.rs:120-242 | replicas and result are those of the build transition, the published blob is stored, and the returned positions prove every step from the prior to the new roots |
| Relayer.RootsInSync | pocs/civic-participation/resilient-civic-participation/src/relayer/core.rs:135-139 | equal roots mean equal trees and equal counts |
| Relayer.BuildSuccess | pocs/civic-participation/resilient-civic-participation/src/relayer/core.rs:120-242 | a built batch holds the submissions' records, of the petition's classes, in strict leaf order, replayable on the replicas |
| RelayerOutcome.RefusedIs | pocs/civic-participation/resilient-civic-participation/src/relayer/core.rs:89-118 | the scan reports the first submission of a wrong petition, class or proof, by the first of these faults |
| RelayerOutcome.DuplicateIs | pocs/civic-participation/resilient-civic-participation/src/relayer/core.rs:148-161 | the scan reports the first repetition and the first place of what it repeats, nullifiers before tags, and nothing exactly when all are different |
| RelayerOutcome.CheckedIff | pocs/civic-participation/resilient-civic-participation/src/relayer/core.rs:126-161 | the checks pass if and only if the batch size fits, the roots agree, every submission is of this petition and its classes with a verifying proof, and nullifiers and tags are different |
| RelayerOutcome.BuildsIff | pocs/civic-participation/resilient-civic-participation/src/relayer/core.rs:120-242 | a build succeeds if and only if these checks pass, the leaves and tags of the submissions as they came in are new and different as field elements and fit, and a proof is found |
| RelayerOutcome.BatchHolds | pocs/civic-participation/resilient-civic-participation/src/relayer/core.rs:170-242 | the records of a built batch are a permutation of those of its submissions, each of them checked, with the proof made for them |
| Relayer.BuiltBatchIsAccepted | pocs/civic-participation/resilient-civic-participation/src/relayer/core.rs:120-242 | a batch built from sound replicas against an open petition passes every registry check and leaves both sides with the same trees, roots and counts |
| RelayerFailures.BuildTouchesReplicas | pocs/civic-participation/resilient-civic-participation/src/relayer/core.rs:120-190 | a build changes the replicas exactly when it passes its checks, there is room, and the leaf first in order is new |
| RelayerFailures.FailedBuildDiverges | pocs/civic-participation/resilient-civic-participation/src/relayer/core.rs:120-242 | after a failed build every later build against the unchanged petition reports divergence exactly under that condition on the inputs |
| RelayerFailures.TagsModuloFieldDiverge | pocs/civic-participation/resilient-civic-participation/src/relayer/core.rs:148-190 | two signers whose identity tags differ by the field modulus pass the duplicate check, fail the build and leave the relayer diverged |
| RelayerFailures.ReplayedSignerDiverges | pocs/civic-participation/resilient-civic-participation/src/relayer/core.rs:148-190 | one signer is enough: a submission and its copy with nullifier and tag raised by the field modulus do the same |
| HashWitness.SampleBuildFails | pocs/civic-participation/resilient-civic-participation/src/relayer/core.rs:120-242 | a concrete deployment, view and pair of submissions for which that happens, from empty replicas and with a backend that never fails |
| HashWitness.TreeHashExists | pocs/civic-participation/resilient-civic-participation/src/imt.rs:41-48 | a tree hash without collisions exists, so the soundness hypotheses of the tree can be met |
| HashWitness.AccountHashExists | pocs/diy-validium/host/src/merkle.rs:140-150 | account and pair hashes without collisions, apart from each other and from padding, exist |
| Resolver.Reconstruct | pocs/civic-participation/resilient-civic-participation/src/resolver/core.rs:51-80 | entries or the first error of the batch-by-batch rebuild |
| Resolver.ReconstructionExact | pocs/civic-participation/resilient-civic-participation/src/resolver/core.rs:51-80 | that succeeds exactly when all blobs are there, all leaves can be inserted, and count and root agree; then gives the entries in order |
| Resolver.EntriesOpenLeaves | pocs/civic-participation/resilient-civic-participation/src/resolver/core.rs:58-72 | each entry carries a record's nullifier and class, and its leaf is the hash of the two |
| Resolver.CountsAddUp | pocs/civic-participation/resilient-civic-participation/src/resolver/core.rs:175-194 | per-class counts add up to the entries |
| Resolver.ComputeOutcome | pocs/civic-participation/resilient-civic-participation/src/resolver/core.rs:175-194 | each bit says exactly whether the number of entries of its class is at least its threshold, the overall bit whether all do |
| Resolver.OutcomeMeans | pocs/civic-participation/resilient-civic-participation/src/resolver/core.rs:175-194 | the same for the outcome as a function: a bit compares the size of the set of entries of its class with its threshold |
| Resolver.MembershipPaths | pocs/civic-participation/resilient-civic-participation/src/resolver/core.rs:83-122 | every membership path read from the finished tree verifies against its root |
| Resolver.BuildSubmission | pocs/civic-participation/resilient-civic-participation/src/resolver/core.rs:83-151 | the submission claims exactly the outcome of the entries, the prover gets one path per entry that verifies against the tree of the entries, and each failure is reported as it is |
| Resolver.ClaimFields | pocs/civic-participation/resilient-civic-participation/src/resolver/core.rs:123-151 | the public inputs of the claim, field by field from the registry's view |
| Resolver.Resolve | pocs/civic-participation/resilient-civic-participation/src/resolver/core.rs:154-161 | reconstruction, then the submission for what was reconstructed |
| Resolver.ResolveEntry | pocs/civic-participation/resilient-civic-participation/src/resolver/core.rs:154-161 | on a consistent petition in its dispute window with available blobs it fails only for want of a proof, with one path per counted leaf, each verifying against the registry's running root, and public inputs that claim exactly the outcome of the active records |
| Resolver.ResolverIsAccepted | pocs/civic-participation/resilient-civic-participation/src/registry/core.rs:751-816 | what the resolver submits after the deadline resolves a petition with a canonical credential root, pays it, and stores for each class whether its records in the Active batches are at least its threshold |
| Resolver.NothingLeftAfterFirstBatch | pocs/civic-participation/resilient-civic-participation/src/resolver/core.rs:55-57 | once the first batch has fallen no Active batch and no leaf is left, and reconstruction reports that there are no batches |
| Resolver.ReconstructionSucceeds | pocs/civic-participation/resilient-civic-participation/src/resolver/core.rs:51-80 | for every consistent petition with an Active batch and available blobs, reconstruction meets all its checks with one entry per active record |
| Resolver.PetitionCountsAddUp | pocs/civic-participation/resilient-civic-participation/src/resolver/core.rs:175-194 | the per-class counts of a consistent petition add up to its leaf count |
| Resolver.SubmissionMatchesIffCanonical | pocs/civic-participation/resilient-civic-participation/src/registry/core.rs:773-796 | the submission built from the registry's view passes the state checks exactly when the stored credential root is a canonical field element |
| Resolver.UncanonicalNeverResolves | pocs/civic-participation/resilient-civic-participation/src/registry/core.rs:773-783 | with a credential root of P or more every submission by anyone is refused |
| Resolver.SubmissionResolves | pocs/civic-participation/resilient-civic-participation/src/registry/core.rs:751-816 | with a verifying proof such a submission resolves the petition after the deadline, with the claimed bits and the full bounty |
| HandOut.TotalSplit | pocs/private-mmf/shielded-notes/src/agent.rs:1177-1192 | halving a group splits its units |
| HandOut.QueueStep | pocs/private-mmf/shielded-notes/src/agent.rs:1172-1194 | one turn of the queue keeps the plan funded, its sources distinct, the orders still to pay and the halving of groups, and leaves one transfer less to plan |
| HandOut.HalvedStep | pocs/private-mmf/shielded-notes/src/agent.rs:1176-1192 | after r rounds of halving a group has the rounded-up or rounded-down share of the orders |
| HandOut.PlanHalf | pocs/private-mmf/shielded-notes/src/agent.rs:1177-1190 | a single order is paid, several become a note of the agent that is queued again |
| HandOut.NoteTerms | pocs/private-mmf/shielded-notes/src/agent.rs:1154-1165 | a note pays an order's units to its owner, locked under reason 2 until the given epoch or not at all; the agent's own notes are free |
| HandOut.PlanHandOut | pocs/private-mmf/shielded-notes/src/agent.rs:1153-1197 | N orders take N - 1 transfers and one order takes one; sources come from earlier transfers, are the agent's, unlocked and spent once; units are handed on in full; what stays unspent is exactly the orders' notes with their holds; rounds are at most log2 N rounded up and notes are paid in the last two |
| Attestation.CapRefusal | pocs/private-mmf/shielded-notes/src/agent.rs:879-903 | refuses exactly when a cap is passed, naming the overall cap or the first jurisdiction passed |
| Attestation.PassesIffOutside | pocs/private-mmf/shielded-notes/src/agent.rs:879-903 | from a count within the overall and every jurisdiction's cap, the refusal is exactly that the new count is not within them |
| Attestation.InvestorsOfIs | pocs/private-mmf/shielded-notes/src/agent.rs:855-878 | counted for a batch are exactly the investors recorded for one of its owners, the agent's own value apart |
| Attestation.RefusalIsMonotone | pocs/private-mmf/shielded-notes/src/agent.rs:879-903 | counting more investors never undoes a refusal |
| Attestation.Admit | pocs/private-mmf/shielded-notes/src/agent.rs:475-496 | every due owner is in exactly one list in order, nobody admitted passes a cap, and everybody left out would pass one even at the end |
| Attestation.PartitionCounts | pocs/private-mmf/shielded-notes/src/agent.rs:475-496 | the two lists together are the due owners |
| Attestation.AdmissionIsExact | pocs/private-mmf/shielded-notes/src/agent.rs:846-878 | the admitted pass the batch-wide cap check, and fail it with any left-out owner added; owners of investors already counted and the agent's own value are admitted |
| Attestation.IsAttested | pocs/private-mmf/shielded-notes/src/agent.rs:810-820 | finds an accepted attestation that covers the epoch |
| Attestation.RaisedGeneration | pocs/private-mmf/shielded-notes/src/agent.rs:820-822 | raising the least accepted generation withdraws exactly the attestations of earlier generations |
| Attestation.Ends | pocs/private-mmf/shielded-notes/src/agent.rs:456-464 | the latest end of the owner's accepted attestations |
| Attestation.ExpiryWithinBounds | pocs/private-mmf/shielded-notes/src/agent.rs:1282-1291 | a batch's expiry lies after the epoch and within the registry's bound |
| Attestation.RenewedInOverlap | pocs/private-mmf/shielded-notes/src/agent.rs:1282-1291 | the expiry moves on exactly from the overlap before the period's end |
| Attestation.DueAgainInOverlap | pocs/private-mmf/shielded-notes/src/agent.rs:465-473 | an attested owner is due again exactly from the overlap on, and attested exactly until its end |
| Attestation.DueAmongIs | pocs/private-mmf/shielded-notes/src/agent.rs:465-473 | due are the listed owners not given up whose attestations end before the expiry |
| Attestation.DueAmongOnce | pocs/private-mmf/shielded-notes/src/agent.rs:465-473 | no owner is due more often than listed |
| Attestation.IntoParts | pocs/private-mmf/shielded-notes/src/agent.rs:498-506 | parts hold the owners in order and are full when the count is a multiple of the part size |
| Attestation.TransferAgent.CountedInvestors | pocs/private-mmf/shielded-notes/src/agent.rs:807-845 | counts exactly the investors attested, holding units or holding publicly, and fails exactly on an unattributed public holding |
| Attestation.TransferAgent.CheckCap | pocs/private-mmf/shielded-notes/src/agent.rs:855-878 | refuses a batch exactly when an owner is unknown or its investors together pass a cap |
| Attestation.TransferAgent.DueOwners | pocs/private-mmf/shielded-notes/src/agent.rs:465-473 | the agent's own value first, then the recorded ones in order, none more often than listed; all of them known |
| Attestation.TransferAgent.FreshPadding | pocs/private-mmf/shielded-notes/src/agent.rs:512-527 | new values are recorded as padding and nothing else changes |
| Attestation.TransferAgent.AttestationBatch | pocs/private-mmf/shielded-notes/src/agent.rs:446-510 | one round: the due owners, in order and each as often as listed, split into a maximal admission and the rest, batch padded by less than a part, every part full, state changed only by the padding and the period's start |
| Attestation.Remainder | pocs/private-mmf/shielded-notes/src/agent.rs:772-787 | balance less what each unspent note can withdraw, or nothing when the notes exceed it |
| Attestation.RemainderBounds | pocs/private-mmf/shielded-notes/src/agent.rs:772-787 | under the multiplier rule the notes never exceed the balance, and the remainder is at least the pool-level one and less than one share a note above it |

## Left out

- Poseidon, SHA-256, KZG, signatures and curve arithmetic: function parameters; the points of `canonical_eval_points`, `record_to_bls_fields` and `signer_vk_hash` are not part of this model.
- Proof generation and verification: abstract predicates; only "a generated batch proof verifies" is used.
- The network adapters (`bb_prover.rs`, `blob_4844.rs`, `chain_registry.rs`), file durability, volatile wipes and `Drop`: persistence is a step that fails, is renamed only, or is durable.
- Fields without influence on the modelled behaviour: salts, resolution proofs, events, registration block, the caterpillar's write-only `frontier` array, viewing keys beyond their identity.
- Relayer.RelayerPetitionState.BuildBatch: the public inputs `bls_fields` and `signer_vk_hash` are not modelled, because they only feed the proof; the prover is given the submissions without their insert witnesses.
- Attestation.TransferAgent.AttestationBatch: reading the register feed, the first step of the round, is not modelled; the round works on the register as it stands.
- Relayer: the overflow of its 64-bit leaf count, unreachable for trees of any real depth, is not modelled.
- `update_alpha` occurs only as an action of a run; the disclosure proof of the validium and the off-chain organizer, signer and disputant actors are not modelled.
- Reading the register feed, onboarding, redemptions, seizure, reconciliation beyond the remainder, and 256-bit overflow in the remainder's products.
- Attestation.ExpiryWithinBounds: epochs are unbounded numbers, so overflow of epoch arithmetic is not modelled.
