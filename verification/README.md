# Verified model of the orchestrator's core

The orchestrator settles the blocks of a Starknet appchain on Ethereum. For every block it runs the
Starknet OS, has the run proved, publishes the state diff as an EIP-4844 blob, and finally updates the
state on the settlement layer. This project models the four parts of it where a mistake would be hardest
to notice, and proves what they promise.

**The blob pipeline.** `StateDiffBlob`, `DaWord`, `BlobTransform`, `Bytes`: a state diff is serialised into
field elements, padded to 4096, evaluated at the bit-reversed powers of a root of unity, and stored as
32-byte words. `DiffMeaning` says, from the lists of a diff alone, which class, nonce and writes each contract
has; `DiffEncoding`, `CanonicalBlob`, `FftTransform` and `BlobRoundTrip` prove that the stored bytes determine
exactly that, for every diff that fits, and exactly for those. The constants are those of the section "Parameters" of EIP-4844.

**Fact trees and calldata.** `FactTopology`, `FactTree`, `FactInfo`: the pages of a program's output are
checked to tile it, and a stack machine rebuilds a Merkle tree over them. `PageTrees` and `FactTheorems`
prove that the machine accepts exactly the post-orders of trees and that the root binds tree and output up
to the hash function, which stays uninterpreted; `FactShape` says byte by byte what each hash is the digest of. `Calldata` and `PointWords` treat the hand-written
Solidity encoding and the split 256-bit numbers.

**The life of a job.** `JobProtocol` is a state machine: one job document with a version, its queues, and any
number of workers, each with a program counter and a copy of the item it read. Messages may be delivered
again, workers may stop anywhere, operators and failure messages may intervene at any time. `JobSafety`,
`JobWrites`, `JobOutcomes` and `JobWork` prove what holds over every run. `JobService` is the code in its own form, a
class whose methods read, change a local copy and commit, with arbitrary steps of others at every await;
each method is shown to be a run of the protocol. The functions touch only the document whose id they are
given, so one document is enough; the limit on parallel SNOS runs appears as a message that goes back to
the queue.

**The settlement chain.** `Pipeline` is the state machine of the four workers that create jobs, block by block,
in any number of orchestrators; each database query is a step of its own, so stale reads are included.
`SettlementChain` and `SettlementRuns` prove that the state transition jobs form a gap-free and overlap-free
chain whose file paths belong to their blocks, `SnosGaps` when a block can never be settled any more.
`PipelineService` holds the workers' methods themselves.
`StateUpdateJob` models the handler that sends one transaction per block and later verifies them.

## Conventions

Results of calls that leave the orchestrator (the node's nonce query, storage, the settlement layer, a
job's handler inside the job protocol) are parameters. Timestamps, failure texts and metrics are not
modelled. Integers are unbounded except where the code's arithmetic is the point: field elements, the
modulus, 64- and 128-bit fields, the overflow of digest plus one. A field element read from a decimal
numeral is taken to be reduced when the numeral is below 2^256 and refused otherwise, as the library's
own code is not part of this model. A run of a worker or of a job is a list of labels; `Run` gives the
state it leads to, and a statement about every run is a statement about every list of labels. A handler's
limit of process attempts is taken to be at least one, as it is for every handler.

## Where the code departs from its descriptions

- A completed job is described as done, but `queue_job_for_verification` has no status check and reopens
  it (crates/orchestrator/src/jobs/mod.rs:977). `JobOutcomes.CompletedIsFinalIff` gives the exact condition.
- The failure queue may fail a job whose handler is still running; after a retry two handlers of one job
  run at once (`JobOutcomes.HandlersMayOverlap`). A handler can store its result exactly when no failure
  message and no request to verify again was written on top of its lock (`JobOutcomes.RunIsCurrentIff`),
  and of two handlers at once one was overtaken in this way (`JobOutcomes.OverlapMeansOvertaken`).
- An error inside a job's verification leaves it pending verification with no message queued
  (crates/orchestrator/src/jobs/mod.rs:535). Together with workers that stop half-way it is the only thing
  that leaves a job unsettled in a quiet run (`JobWork.SettledIff`).
- The creation of a SNOS job that fails is only logged. Once a later SNOS job exists and no running worker
  is on its way, the block is never settled (`SnosGaps.FillableIff`, `SnosGaps.SettlementStops`).
- `da_word` documents 64 bits for the nonce and does not enforce them (`DaWord.PackRoundTripIff`); it only fails
  for nonces of 2^192 or more, or 2^191 behind a class flag (`DaWord.PackFits`).
- A state diff whose encoding exceeds 4096 elements is cut without an error
  (`BlobRoundTrip.StoredDiffRecoveredIff`).
- Contracts that appear only in the replaced classes are not emitted
  (crates/orchestrator/src/jobs/da_job/mod.rs:453); the canonical diff is defined without them.
- A resumed state update fails the gap check once a block of it has landed
  (`StateUpdateJob.ValidateBlockNumbers`), and pairs hashes with the wrong blocks
  (`StateUpdateJob.HashesLineUpIff`; `StateUpdateJob.ResumedRunMispairs` is a job that is verified although
  nobody asked about the transaction of its first block).
- The verification of a state update notes the failed block on a local copy of the metadata that is then
  dropped (crates/orchestrator/src/jobs/state_update_job/mod.rs:257); the model's verification changes nothing.

## Model

| member | source | states |
|---|---|---|
| `BinaryStrings.BitReverseStep` | crates/orchestrator/src/jobs/da_job/mod.rs:263-268 | The least significant digit of an index becomes the most significant one: reversing 2i + b gives b * 2^(width-1) plus the reversal of i. |
| `BinaryStrings.BitReverseInvolution` | crates/orchestrator/src/jobs/da_job/mod.rs:263-268 | Reversing the twelve binary digits of an index twice gives the index back, so the evaluation order is a permutation. |
| `BinaryStrings.SumReversed` | crates/orchestrator/src/jobs/da_job/mod.rs:263-268 | A sum over all indices is unchanged when the indices are bit-reversed: the reversal is a bijection on [0, 2^width). |
| `FftTransform.TransformIsEvaluation` | crates/orchestrator/src/jobs/da_job/mod.rs:275-279 | For every element list, generator, modulus and width, entry i of the transform is below the modulus and congruent to the polynomial with those coefficients at g^rev(i). |
| `FftTransform.GeometricVanishes` | crates/orchestrator/src/jobs/da_job/mod.rs:260-281 | If g^(n/2) = -1 modulo p with n = 2^width, the powers of g^d sum to zero unless n divides d; no primality is needed. |
| `FftTransform.InverseSum` | crates/orchestrator/src/jobs/da_job/mod.rs:260-281 | The sum of the entries weighted by the inverse powers is n times the wanted coefficient, modulo p. |
| `FftTransform.TransformInverts` | crates/orchestrator/src/jobs/da_job/mod.rs:260-281 | For every width and every modulus in which n is invertible, the inverse transform returns every list of residues exactly. |
| `BlobTransform.GeneratorHalfOrder` | crates/orchestrator/src/jobs/da_job/mod.rs:26-44 | The generator of the code raised to 2048 is -1 modulo the modulus of the code. |
| `BlobTransform.BlobLenInvertible` | crates/orchestrator/src/jobs/da_job/mod.rs:26-44 | 4096 has an inverse modulo the modulus of the code. |
| `BlobTransform.EvaluationPoints` | crates/orchestrator/src/jobs/da_job/mod.rs:261-270 | The points built from reversed binary numerals are the powers of the generator at the bit-reversed indices. |
| `BlobTransform.EvaluateAll` | crates/orchestrator/src/jobs/da_job/mod.rs:275-279 | The two nested loops leave in every position the Horner value of the elements at that position's point. |
| `BlobTransform.FftTransformation` | crates/orchestrator/src/jobs/da_job/mod.rs:260-281 | The function computes the transform for every list of at most 4096 elements. |
| `BlobTransform.ConvertToBigUint` | crates/orchestrator/src/jobs/da_job/mod.rs:283-300 | The result is the list cut or zero-filled to 4096 numbers, each surviving its trip through 32 bytes. |
| `BlobTransform.BlobTransformInverts` | crates/orchestrator/src/jobs/da_job/mod.rs:260-281 | With the constants of the code, every blob of 4096 residues is recovered from its transform. |
| `BlobTransform.TransformBelowModulus` | crates/orchestrator/src/jobs/da_job/mod.rs:275-279 | Every entry of the transform is below the modulus. |
| `Bytes.BigUintTo32Bytes` | crates/orchestrator/src/jobs/state_update_job/utils.rs:168-181 | The 32 bytes are the big-endian form of the number; a number below 2^256 reads back unchanged. |
| `Bytes.FirstByteCountsMost` | crates/orchestrator/src/jobs/state_update_job/utils.rs:168-181 | In a byte string read as a number the first byte has the weight 256^(length - 1), so the most significant byte comes first. |
| `Bytes.BigUintVecToU8Vec` | crates/orchestrator/src/jobs/state_update_job/utils.rs:158-166 | The bytes are the 32-byte words of the numbers one after the other, 32 bytes per number. |
| `Bytes.SplitStored` | crates/orchestrator/src/jobs/state_update_job/utils.rs:158-166 | Cutting the stored bytes into 32-byte words returns every number, in order. |
| `DaWord.DaWord` | crates/orchestrator/src/jobs/da_job/mod.rs:414-451 | The method that appends digits returns what packing the digit string gives, and its parsing cannot fail. |
| `DaWord.PackIsSum` | crates/orchestrator/src/jobs/da_job/mod.rs:411-451 | For nonces below 2^64 the word is flag * 2^128 + nonce * 2^64 + count, and the documented bit positions give all three back. |
| `DaWord.PackRoundTripIff` | crates/orchestrator/src/jobs/da_job/mod.rs:411-451 | The documented layout is respected exactly for nonces below 2^64. |
| `DaWord.PackFits` | crates/orchestrator/src/jobs/da_job/mod.rs:411-451 | The word is a 256-bit number exactly for nonces below 2^192, or below 2^191 behind a class flag, whatever the number of writes. |
| `DaWord.WideNonceSetsFlag` | crates/orchestrator/src/jobs/da_job/mod.rs:425-429 | The input that shows where the layout stops: a nonce of 2^64 is accepted and reads back as a set class flag. |
| `StateDiffBlob.RefactorStateUpdate` | crates/orchestrator/src/jobs/da_job/mod.rs:453-468 | The state diff gains one empty storage diff for every address that only appears in nonces or deployments, in the order the hash set yields them, and nothing else changes. |
| `StateDiffBlob.PushContract` | crates/orchestrator/src/jobs/da_job/mod.rs:350-379 | One turn of the loop appends address, packed word, the class hash of the deployment or else of the replacement, if any, and the sorted writes; it fails with the lookup error exactly when a needed nonce is not given, or with the word error. |
| `StateDiffBlob.StateUpdateToBlobData` | crates/orchestrator/src/jobs/da_job/mod.rs:329-393 | The whole function, loops included, returns the specified words or the first error, for every iteration order of the hash set. |
| `DiffEncoding.EncodedLaidOut` | crates/orchestrator/src/jobs/da_job/mod.rs:329-393 | Every word of an encoding has its place: the count; for each contract its address, flag * 2^128 + nonce * 2^64 + writes, its class hash if any, and key and value of each write in turn; the number of classes; and the classes. |
| `DiffEncoding.ParseEncoded` | crates/orchestrator/src/jobs/da_job/mod.rs:329-393 | The encoding is self-delimiting: whatever follows it, a parser driven by the counts and flags inside returns the contracts and classes and stops there. |
| `DiffEncoding.CutEncodingRejected` | crates/orchestrator/src/jobs/da_job/mod.rs:329-393 | No proper prefix of an encoding parses. |
| `DiffEncoding.EncodedSize` | crates/orchestrator/src/jobs/da_job/mod.rs:329-393 | The length is 1 + sum of (2 + flag + 2 * writes) + 1 + 2 * classes. |
| `CanonicalBlob.EmitEncodes` | crates/orchestrator/src/jobs/da_job/mod.rs:350-379 | With distinct addresses, removing nonces from the map as they are used is invisible: the loop emits the encoding of the updates. |
| `CanonicalBlob.RefactoredCovers` | crates/orchestrator/src/jobs/da_job/mod.rs:453-468 | After refactoring, addresses are still distinct and every touched contract is listed with its own writes. |
| `CanonicalBlob.BlobIsCanonical` | crates/orchestrator/src/jobs/da_job/mod.rs:329-393 | The blob words lay out, word by word, every touched contract once, by ascending address: its class is that of its deployment, else of its replacement, else none; its nonce the listed one, else the node's when it has writes and is not address one, else zero; its writes exactly the listed ones by ascending key. The classes follow in ascending order. |
| `CanonicalBlob.BlobFailsIff` | crates/orchestrator/src/jobs/da_job/mod.rs:329-393 | For diffs with distinct keys the conversion succeeds exactly when every touched contract has its nonce and the nonce is below 2^192, or below 2^191 when the contract has a class. |
| `CanonicalBlob.MissingNonceFails` | crates/orchestrator/src/jobs/da_job/mod.rs:353-366 | A nonce that is needed and not given by the node fails the whole conversion; when all nonces have 64 bits the error is that of the lookup. |
| `CanonicalBlob.CanonicalUnique` | crates/orchestrator/src/jobs/da_job/mod.rs:329-393 | Two diffs that agree up to list order have the same canonical updates. |
| `CanonicalBlob.BlobIndependentOfOrder` | crates/orchestrator/src/jobs/da_job/mod.rs:329-393 | For diffs with distinct keys the blob, errors included, is the same for every permutation of all the lists and every iteration order of the hash set, whatever the nonces. |
| `BlobRoundTrip.BuildBlob` | crates/orchestrator/src/jobs/da_job/mod.rs:134-158 | Conversion, padding, transform and storage together give the specified bytes, always 131072 of them; for a diff with distinct keys, 64-bit nonces and at most 4096 words they decode to its canonical updates and classes. |
| `BlobRoundTrip.StoredBlobShape` | crates/orchestrator/src/jobs/da_job/mod.rs:139-158 | Every stored blob has 4096 words below the modulus, so a conversion to a fixed-size blob cannot fail. |
| `BlobRoundTrip.StoredWordsRecovered` | crates/orchestrator/src/jobs/da_job/mod.rs:139-158 | Splitting the stored bytes and inverting the transform returns the words, cut at 4096 and zero-filled. |
| `BlobRoundTrip.StoredDiffRecoveredIff` | crates/orchestrator/src/jobs/da_job/mod.rs:134-158 | The stored bytes decode to the diff exactly when its encoding has at most 4096 words; a longer one is cut silently and no longer parses. |
| `BlobRoundTrip.BlobRoundTrips` | crates/orchestrator/src/jobs/da_job/mod.rs:134-158 | End to end: for every diff with distinct keys and 64-bit nonces that fits, the stored bytes decode to one update per touched contract, with the class, nonce and writes that the lists of the diff give it, and to the sorted classes. |
| `FactTopology.ScanPages` | crates/orchestrator/src/jobs/snos_job/fact_topology.rs:81-133 | The loop over the sorted pages returns the sizes when every page follows the one before it and the last one ends the output; otherwise the error of the first page that does not, or that the output is not covered. |
| `FactTopology.GetPageSizes` | crates/orchestrator/src/jobs/snos_job/fact_topology.rs:69-135 | It succeeds exactly when the page ids are 1..n and the pages tile the output, whatever the map's iteration order, and then returns the sizes in page order; otherwise it returns the error of the pages in ascending order. |
| `FactTopology.ScanErrorMeans` | crates/orchestrator/src/jobs/snos_job/fact_topology.rs:81-133 | Each error names the first page out of order and what is wrong with it first: its id, its start, or its size; or the end of the last page when the output is not covered. |
| `FactTopology.PagesErrorUnique` | crates/orchestrator/src/jobs/snos_job/fact_topology.rs:69-135 | The error is a function of the pages: no two iteration orders of the map give different ones, and pages that tile the output have none. |
| `FactTopology.SizesCoverOutput` | crates/orchestrator/src/jobs/snos_job/fact_topology.rs:69-135 | The sizes returned add up to the output size. |
| `FactTopology.GetFactTopology` | crates/orchestrator/src/jobs/snos_job/fact_topology.rs:25-65 | It succeeds exactly when the attribute has an even, positive number of at most ten entries below 2^31, or is absent together with the pages, and the pages tile the output; the structure is the attribute or the default. Each check of the attribute has its own error, before those of the pages. |
| `FactTopology.TopologyUnique` | crates/orchestrator/src/jobs/snos_job/fact_topology.rs:25-65 | There is at most one topology, and data with one has no error. |
| `FactTree.CalculateNodeHash` | crates/orchestrator/src/jobs/snos_job/fact_node.rs:171-180 | The node hash is the digest plus one as 32 bytes; the digest 2^256 - 1 overflows. |
| `FactTree.GenerateMerkleRoot` | crates/orchestrator/src/jobs/snos_job/fact_node.rs:48-169 | The stack machine of the code, with its in-place stack, page sizes and offsets, computes the specified result and errors for every structure list; in the returned node, at every level, a parent's hash is one more than the digest of the 64-byte entries hash, end offset of its children in order. |
| `PageTrees.OpsOfPair` | crates/orchestrator/src/jobs/snos_job/fact_node.rs:66-146 | A pair (pages, nodes) stands for that many leaves and, unless nodes is zero, one parent of the last nodes nodes. |
| `PageTrees.RunPairsIsOps` | crates/orchestrator/src/jobs/snos_job/fact_node.rs:66-146 | Running (pages, nodes) pairs is running single pushes and groupings, so the pairs denote a post-order. |
| `PageTrees.RunTree` | crates/orchestrator/src/jobs/snos_job/fact_node.rs:66-146 | The post-order of any tree whose inner nodes have children rebuilds exactly that tree's node over the next pages and words, on any stack. |
| `PageTrees.NodeMeasures` | crates/orchestrator/src/jobs/snos_job/fact_node.rs:108-146 | A node's end offset is that of its last leaf and its page size the sum of its leaves. |
| `FactTheorems.TreeIsRebuilt` | crates/orchestrator/src/jobs/snos_job/fact_node.rs:48-169 | Given the post-order of a tree over the whole output, the function returns the node of that tree. |
| `FactTheorems.AcceptedIsTree` | crates/orchestrator/src/jobs/snos_job/fact_node.rs:48-169 | Whenever the function succeeds there is a tree with that post-order whose leaves, in order, are the pages and concatenate to the whole output. |
| `FactTheorems.AcceptedIff` | crates/orchestrator/src/jobs/snos_job/fact_node.rs:48-169 | It succeeds exactly for the structures that are post-orders of trees over the pages and the output and whose node hashes do not overflow. |
| `FactShape.RootIffShown` | crates/orchestrator/src/jobs/snos_job/fact_node.rs:48-180 | For 256-bit words and offsets a node is returned if and only if it shows a tree that the topology describes over the output: leaf hashes are digests of their pages, 32 bytes a word; parent hashes one more than the digest of their children's hashes and end offsets; and the leaves cover the output from left to right. |
| `FactTheorems.RootOffsetAlwaysValid` | crates/orchestrator/src/jobs/snos_job/fact_node.rs:148-158 | The root-offset error is never returned. |
| `FactTheorems.EndOffsetValidForTilings` | crates/orchestrator/src/jobs/snos_job/fact_node.rs:106-158 | When the page sizes add up to the output size the end-offset error is never returned either. |
| `FactTheorems.TreesBind` | crates/orchestrator/src/jobs/snos_job/fact_node.rs:93-180 | Two trees with equal root hash are equal, or the hash is defeated: two different leaf strings or two different inner strings have equal digests, or a leaf string of one tree has the digest of an inner string of the other plus one. The hash is left uninterpreted. |
| `FactTheorems.RootBinds` | crates/orchestrator/src/jobs/snos_job/fact_node.rs:48-180 | Two successful runs with equal roots had equal outputs, pages and tree structures (as lists of steps), or such a pair of strings exists. |
| `FactInfo.GetProgramOutput` | crates/orchestrator/src/jobs/snos_job/fact_info.rs:113-140 | It succeeds exactly when the output segment's cells are the offsets 0..size-1, all field elements, and returns them in order whatever the memory's iteration order; otherwise the error names a bad cell, or a missing one when no cell is bad. |
| `FactInfo.GetFactInfo` | crates/orchestrator/src/jobs/snos_job/fact_info.rs:29-111 | It succeeds exactly when output, topology, program hash and root all exist; the fact is then the digest of 64 bytes, the program hash and the hash of a root that shows the described tree. Otherwise the error is that of the first of these steps that fails. Neither offset error can come out. |
| `FactInfo.FactBinds` | crates/orchestrator/src/jobs/snos_job/fact_info.rs:29-111 | Equal facts mean equal programs, outputs, pages and tree structures (as lists of steps), or a collision of the two fact inputs, or a pair of strings that defeats the hash in the tree. |
| `Calldata.FieldIsHex` | crates/settlement-clients/ethereum/src/conversion.rs:26-38 | A number padded to 64 digits is the hexadecimal text of its 32 bytes. |
| `Calldata.InputIsHex` | crates/settlement-clients/ethereum/src/conversion.rs:45-89 | The concatenated text is the hexadecimal form of selector, offsets, lengths and data. |
| `Calldata.ArgumentsDecode` | crates/settlement-clients/ethereum/src/conversion.rs:45-89 | The bytes behind the selector decode strictly: offsets in bounds, at the right length words, zero padding. |
| `Calldata.CalldataRoundTrip` | crates/settlement-clients/ethereum/src/conversion.rs:45-115 | A strict decoder after "Formal Specification of the Encoding" of the Solidity Contract ABI Specification returns the same numbers and the single proof, for every number of words. |
| `PointWords.BytesBeToU128` | crates/settlement-clients/ethereum/src/types.rs:34-45 | The loop returns the value of the last 16 bytes; no bit is shifted out. |
| `PointWords.HalvesRoundTrip` | crates/settlement-clients/ethereum/src/types.rs:27-45 | A 256-bit number stored as two words, low and high half, is put together again unchanged. |
| `JobSafety.StepKeeps` | crates/orchestrator/src/jobs/mod.rs:313-875 | Every step of every worker, write or not, keeps the invariant: copies are old versions or the current item, writes are justified, attempts within limits. |
| `JobSafety.NoLostUpdates` | crates/orchestrator/src/database/mongodb/mod.rs:138-184 | In every run the stored item is the last of a chain of writes, each computed from the item its predecessor stored, and the version counts the writes. |
| `JobSafety.CommitsIffCurrent` | crates/orchestrator/src/database/mongodb/mod.rs:138-184 | A write is accepted exactly when the item it was computed from is still the stored one: comparing versions is comparing items. |
| `JobSafety.OneWriterPerVersion` | crates/orchestrator/src/database/mongodb/mod.rs:138-184 | Of two workers holding the same version, the second to write changes nothing and stops, whatever happens in between. |
| `JobSafety.LegalTransitions` | crates/orchestrator/src/jobs/mod.rs:298-300 | Every committed write is a documented status change, although the status is checked long before; only the request to verify again is outside the graph. |
| `JobWrites.EveryWrite` | crates/orchestrator/src/jobs/mod.rs:354-1022 | In every run, every committed write of each of the twelve kinds: the statuses it may find, the attempts by which it is due, and every field it stores. A retry resets the process attempts and counts a retry; a request to verify again resets the polls and counts one. |
| `JobWrites.VerdictDecides` | crates/orchestrator/src/jobs/mod.rs:545-660 | In every state, a verdict decides the write: verified completes; rejected retries while attempts are left and fails otherwise; pending polls while polls are left and times out otherwise; an error writes nothing. |
| `JobWrites.WriteOwes` | crates/orchestrator/src/jobs/mod.rs:405-1022 | A committed write is followed by its message: a process message after a rejection or retry, a verification message after processing, a poll or a request to verify again, and none otherwise. |
| `JobSafety.ProcessingIsAtomic` | crates/orchestrator/src/jobs/mod.rs:354-424 | The write that ends a processing run directly follows its own lock, which found the job free, and counts the attempt once. |
| `JobSafety.LockIsHeldOnce` | crates/orchestrator/src/jobs/mod.rs:354-370 | At most one worker of a processing run holds the current item. |
| `JobSafety.BudgetsHold` | crates/orchestrator/src/jobs/mod.rs:405-424 | Attempt counters never pass the handler's limits, and process attempts stay strictly below while the job can still be processed, operators and failure messages included. |
| `JobOutcomes.CompletedIsFinalIff` | crates/orchestrator/src/jobs/mod.rs:977-1022 | After completion the stored item stays exactly as it is if and only if no request to verify again is committed. |
| `JobOutcomes.CompletedStays` | crates/orchestrator/src/jobs/mod.rs:826-835 | Without such requests no step of any worker changes a completed job. |
| `JobOutcomes.CompletedMayReopen` | crates/orchestrator/src/jobs/mod.rs:977-1022 | A concrete run in which a completed job goes back to pending verification. |
| `JobOutcomes.OneHandlerAtATime` | crates/orchestrator/src/jobs/mod.rs:330-424 | Without failure messages and verification requests at most one processing run of a job is under way, and it holds the current item, so its result can be stored. |
| `JobOutcomes.RunIsCurrentIff` | crates/orchestrator/src/jobs/mod.rs:354-424 | In every run, and for every handler under way, the locked item is still the stored one, so that the result can be stored, if and only if the write on top of the lock is not a failure message or a request to verify again. |
| `JobOutcomes.OverlapMeansOvertaken` | crates/orchestrator/src/jobs/mod.rs:693-875 | In every run, of two handlers of one job that run at once, one was overtaken by such a write. |
| `JobOutcomes.HandlersMayOverlap` | crates/orchestrator/src/jobs/mod.rs:693-790 | A concrete run in which a failure message and a retry let two handlers of one job run at once. |
| `JobWork.StepProgress` | crates/orchestrator/src/jobs/mod.rs:405-438 | In a quiet run every step keeps the single live token and strictly decreases a measure. |
| `JobWork.BoundedWork` | crates/orchestrator/src/jobs/mod.rs:576-660 | In every quiet run at most one message or worker is live, at most 2 * max_process_attempts + max_verification_attempts messages are consumed, and the run is finite. |
| `JobWork.SettledIff` | crates/orchestrator/src/jobs/mod.rs:535-660 | A quiet run with no message and no worker left has ended with the job completed, failed or timed out if and only if no worker stopped half-way and no verification handler failed with an error. |
| `JobService.JobService.UpdateDocument` | crates/orchestrator/src/database/mongodb/mod.rs:138-184 | The update happens exactly when the stored version is the caller's, sets only the given fields and advances the version by one. |
| `JobService.JobService.ProcessJob` | crates/orchestrator/src/jobs/mod.rs:313-465 | The function, with others acting at every await, is a run of the protocol whose own steps are exactly those of its outcome; the error cases are decided by the item it read. Undisturbed, it consumes one message and leaves exactly the locked job with its results and one attempt more, and one verification message, or the failed job and none; without a permit the message goes back. |
| `JobService.JobService.VerifyJob` | crates/orchestrator/src/jobs/mod.rs:501-673 | The same for verification. Undisturbed, each verdict leaves exactly its status, counters, specific metadata and version, and a process message, a verification message or none. |
| `JobService.JobService.ActOnVerdict` | crates/orchestrator/src/jobs/mod.rs:535-660 | Each verdict leads to the write the protocol prescribes: complete, retry or fail, poll again or time out; undisturbed, to the document and queues written out for it. |
| `JobService.JobService.RetryJob` | crates/orchestrator/src/jobs/mod.rs:693-762 | Only a failed job is retried: one write, then one process message. Undisturbed, the job is pending retry with zero process attempts and one more retry, all else kept. |
| `JobService.JobService.QueueJobForVerification` | crates/orchestrator/src/jobs/mod.rs:977-1022 | Whatever the status, one write, then one verification message. Undisturbed, the job is pending verification with zero polls and one more verification retry, all else kept. |
| `JobService.JobService.HandleJobFailure` | crates/orchestrator/src/jobs/mod.rs:778-875 | A completed or failed job is left alone; any other is written as failed from the item just read, its metadata kept. |
| `JobService.JobService.MoveJobToFailed` | crates/orchestrator/src/jobs/mod.rs:826-875 | One write; the outcome says whether the version still matched. |
| `Pipeline.FindSuccessive` | crates/orchestrator/src/workers/update_state.rs:185-195 | The result is the longest consecutive beginning of the list. |
| `Pipeline.PlanCorrect` | crates/orchestrator/src/workers/update_state.rs:77-111 | The planned blocks are at most ten consecutive ready blocks from the next one on, and fewer only when the following block is not ready. |
| `Pipeline.PlanHoldsBack` | crates/orchestrator/src/workers/update_state.rs:88-106 | Nothing is planned exactly when the next block is not among the ready ones. |
| `SettlementChain.StepKeeps` | crates/orchestrator/src/workers/update_state.rs:20-182 | Every step of any number of workers, on stale reads, keeps chain, ancestry and path alignment. |
| `SettlementChain.LatestIsLast` | crates/orchestrator/src/workers/update_state.rs:23-76 | A worker that still finds its first block free had read the last job of the chain. |
| `SettlementRuns.ChainIsGapFree` | crates/orchestrator/src/workers/update_state.rs:20-195 | In every run the state transition jobs, by internal id, settle consecutive blocks from the minimum on, in runs of one to ten; each job starts where the one before it ends. |
| `SettlementRuns.NoOverlap` | crates/orchestrator/src/database/mongodb/mod.rs:73-108 | No block is settled by two jobs. |
| `SettlementRuns.NoGap` | crates/orchestrator/src/workers/update_state.rs:88-106 | Every block from the minimum up to a settled one is settled by some job. |
| `SettlementRuns.EarlierJobsAreCompleted` | crates/orchestrator/src/workers/update_state.rs:26-32 | Of two state transition jobs the earlier one is completed, in every run without a request to verify again. |
| `SettlementRuns.ProceedsIffReady` | crates/orchestrator/src/workers/update_state.rs:77-106 | A worker goes on exactly when the data submission job of the block it must start with is completed and, on a first job, that block is not taken. |
| `SettlementRuns.EveryAncestorExists` | crates/orchestrator/src/workers/data_submission_worker.rs:21-69 | Every data submission job has its proving job and its SNOS job, inside the configured block range. |
| `SettlementRuns.JobsNameTheirBlocks` | crates/orchestrator/src/workers/snos.rs:48-64 | In every run each SNOS, proving and data submission job names its own block and that block's own files. |
| `SettlementRuns.PathsMatchBlocks` | crates/orchestrator/src/workers/update_state.rs:113-158 | Every state transition job carries three path lists as long as its blocks, entry i naming a file of block i. |
| `SettlementRuns.LookupsNeverFail` | crates/orchestrator/src/workers/update_state.rs:124-151 | The "job not found" errors never fire. |
| `SettlementRuns.ProtocolWritesAreMoves` | crates/orchestrator/src/jobs/mod.rs:313-875 | Every committed write of the job protocol is a status step of the pipeline model. |
| `PipelineService.Orchestrator.LatestByType` | crates/orchestrator/src/database/mongodb/mod.rs:187-242 | The job of the type with the numerically largest id. |
| `PipelineService.Orchestrator.WithoutSuccessor` | crates/orchestrator/src/database/mongodb/mod.rs:266-367 | The completed jobs of one type with no job of the other type and the same id, each once. |
| `PipelineService.Orchestrator.AfterId` | crates/orchestrator/src/database/mongodb/mod.rs:390-413 | The completed jobs of a type with larger ids, each once. |
| `PipelineService.Orchestrator.RunUpdateState` | crates/orchestrator/src/workers/update_state.rs:20-182 | The worker is a run of the pipeline and never misses a job; undisturbed, it creates a job exactly when the newest one is completed and the next block is ready, as long as it may. |
| `PipelineService.Orchestrator.ChooseBlocks` | crates/orchestrator/src/workers/update_state.rs:77-111 | Sorting, checking the first block and cutting to ten decide as planned. |
| `PipelineService.Orchestrator.Collect` | crates/orchestrator/src/workers/update_state.rs:123-158 | Both lookups of every block succeed and the pushed paths are those of the pipeline's steps. |
| `PipelineService.Orchestrator.CreateTransitionJob` | crates/orchestrator/src/workers/update_state.rs:160-178 | A job is created exactly when there is none under the first block, and extends the chain. |
| `PipelineService.Orchestrator.RunSnos` | crates/orchestrator/src/workers/snos.rs:24-84 | The range starts at the newest SNOS job or the minimum and ends at the tip or the maximum; every creation in it that does not fail leaves its job. |
| `SnosGaps.FillableIff` | crates/orchestrator/src/workers/snos.rs:37-84 | In every state, a missing SNOS job in the configured range can still be created by some continuation if and only if no later SNOS job exists or a running worker has not passed its block yet. |
| `SnosGaps.SettlementStops` | crates/orchestrator/src/workers/snos.rs:37-84 | Otherwise, in every continuation of every run, no state transition job contains that block or any behind it. |
| `SnosGaps.GapMayOpen` | crates/orchestrator/src/workers/snos.rs:66-80 | A concrete run, one failed creation followed by a successful one, that opens such a gap. |
| `PipelineService.Orchestrator.RunProving` | crates/orchestrator/src/workers/proving.rs:21-80 | Every completed SNOS job with a fact has a proving job afterwards, if the creation does not fail; undisturbed, each new job reads its block's Cairo PIE and checks the fact its SNOS job recorded. |
| `PipelineService.Orchestrator.RunDataSubmission` | crates/orchestrator/src/workers/data_submission_worker.rs:21-77 | Every completed proving job has a data submission job afterwards, if the creation does not fail. |
| `Collections.HasDup` | crates/utils/src/collections.rs:1-8 | True exactly when two positions hold equal elements. |
| `Collections.ChecksMeanAscending` | crates/utils/src/collections.rs:10-18 | Together with the neighbour check it accepts exactly the strictly ascending lists. |
| `StateUpdateJob.ValidateBlockNumbers` | crates/orchestrator/src/jobs/state_update_job/mod.rs:373-390 | Accepted exactly: non-empty, strictly ascending lists that start right after the last settled block. Each error is characterised exactly; a job whose first block is already settled gets the gap error. |
| `StateUpdateJob.TodoCorrect` | crates/orchestrator/src/jobs/state_update_job/mod.rs:143-151 | The filtered positions are exactly those of blocks not below the failed one, in ascending order. |
| `StateUpdateJob.ProcessJob` | crates/orchestrator/src/jobs/state_update_job/mod.rs:129-207 | One transaction for each block not below the failed one, in order, made of that position's files, with consecutive nonces, until the first failure; each way to stop is characterised, and the metadata then records the failed block and the hashes so far. Invalid lists send and change nothing. |
| `StateUpdateJob.SendBlock` | crates/orchestrator/src/jobs/state_update_job/mod.rs:162-190 | A block is sent only when its three files are there and its SNOS run used blobs; the other outcomes are told apart. |
| `StateUpdateJob.SentInOrder` | crates/orchestrator/src/jobs/state_update_job/mod.rs:157-195 | The j-th transaction has nonce base + j, carries the files of its own block, which is not below the failed one and above all earlier ones; a run that ends well sends for every such block. |
| `StateUpdateJob.VerifyJob` | crates/orchestrator/src/jobs/state_update_job/mod.rs:215-349 | Verified exactly when every paired transaction is verified at once, or pending, final and then verified, and the last settled block is the job's last; rejected exactly when one is rejected at once or after that wait, behind others that landed, or the block differs; a transaction still pending after the wait and an empty list have their own errors. |
| `StateUpdateJob.FirstRunVerifiesEveryBlock` | crates/orchestrator/src/jobs/state_update_job/mod.rs:192-314 | On a job that was not resumed, a verified result means that every block's own transaction was verified, at once or after it was final. |
| `StateUpdateJob.HashesLineUpIff` | crates/orchestrator/src/jobs/state_update_job/mod.rs:143-151 | Hashes and blocks are paired rightly exactly when the run did not skip a block (or sent nothing): a resumed run pairs hashes with the wrong blocks. |
| `StateUpdateJob.ResumedRunMispairs` | crates/orchestrator/src/jobs/state_update_job/mod.rs:143-207 | Two concrete runs of one job after which the hash of block 6 stands for block 5, the transaction of block 5 is on no list, and the transactions checked have all landed. |
| `StateUpdateJob.PipelineJobsFit` | crates/orchestrator/src/jobs/state_update_job/mod.rs:373-390 | The jobs the pipeline creates have ascending blocks starting at their id, so they are validated whenever they continue the settled blocks. |
| `StateUpdateJob.PipelineJobsSendOwnFiles` | crates/orchestrator/src/jobs/state_update_job/mod.rs:157-181 | What is sent for a block of such a job is made of that block's own files. |

## Left out

- Network, storage, queue, cloud and prover clients, routes, command line, configuration, telemetry: their
  results are parameters where the model needs them.
- KZG commitments and proofs, keccak, and `prove_block`: foreign calls. The hash is an arbitrary function;
  modular exponentiation is exponentiation followed by the remainder.
- `data_to_blobs` and the DA job's own transaction (crates/orchestrator/src/jobs/da_job/mod.rs:302): it joins
  byte strings of varying length, so its output has no fixed layout to recover.
- `prepare_sidecar`, `hex_string_to_u8_vec` and `bytes_to_vec_u8`: conversions that would only add easy members.
- The registration job and worker, whose bodies are not written yet.
- The processing semaphore and its set of active jobs (crates/orchestrator/src/helpers.rs:34): permits are
  conserved by the library's guard object; only the message that goes back to the queue is modelled.
- The mapping of job types to queue names and the acknowledgement of messages: every consumed message is
  acknowledged whatever the outcome, which the protocol's single consumption step states.
- Machine widths that are not the point: the 32-bit version, the conversions of internal ids, sums of sizes.
- JobService.JobService.ProcessJob: the handler is a parameter that says how it ends and what it leaves in
  the job-specific metadata; its own calls are not steps.
- Creation of a job and the endpoint that queues it for processing, in the job protocol, appear only as protocol steps,
  a single insertion and a single message.
- PipelineService.Orchestrator.CreateTransitionJob: the existence check before the insertion is one step with it,
  since the insertion is itself unique by type and id and decides alone.
- PipelineService.Orchestrator.RunSnos: whether a creation fails is a parameter; what a failed one leads to is
  stated in `SnosGaps`.
- Panics as such: an offset behind the output segment's size and the overflow of a node hash, which panic in the
  code, are errors of their own here; more than 4096 elements, which would index past the evaluation points of the
  transform, are excluded, and the only caller passes 4096.
- StateUpdateJob.ProcessJob: a transaction counts as sent when its hash comes back; whether a failed call
  reached the settlement layer is not modelled.
- Liveness beyond the end of quiet runs: no fairness of queues or workers is assumed.
