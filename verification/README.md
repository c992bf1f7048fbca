# Cloudana: a verified model of its checking, transport and settlement core

Cloudana pays untrusted nodes for work that it checks afterwards. This project models the code that does the checking,
carries the traffic and settles the payments, and proves what that code is for:

- **Proof of useful work** (`pouw/src`). A job's matrices are hidden in low-rank noise, multiplied block by block with a
  recorded transcript, decoded through the thin factors and lifted back to signed integers. The user gets exactly `A·B`
  over the integers, and is refused exactly when an entry exceeds the bound. Freivalds' check never rounds, accepts every
  true product, and accepts a wrong one for at most a `1/p` fraction of the vectors per round (by counting).
- **Commit, then open** (`shared/verification.ts`, `shared/work-int8-*.ts`, `node-agent/src/work.ts`). An honest node's
  outputs are the products, activations and residuals of its blocks, entry by entry, and its commitment and openings always
  pass. A commitment to a wrong result leaves a segment that no opening can pass, and with random vectors one that hardly
  any vectors pass, unless the openings exhibit a collision of the hash. An opening that fails is held against the node and
  never put down to the job.
- **Relay streams** (`relay/src/hub.ts`, `node-agent/src/relay.ts`, `shared/relay-protocol.ts`). In every interleaving both
  directions conserve bytes, stay within the window and cannot deadlock; the client receives a prefix of what upstream
  sent, and all of it when the body closes normally. Every stream ends for a client that stays: its body closes once the
  response's end has come, and is aborted after a failure. Slots and stream ids are handed out within their caps.
- **Merkle trees and settlement** (`shared/storage-proof.ts`, `keeper/src/tree.ts`, `keeper/src/run.ts`). A storage proof
  verifies exactly for the right leaf and path; the tree is the one of section 2.1 of RFC 6962; a payout is provable exactly
  when it is listed; and the keeper posts only what it rebuilt and reports settled only what is claimed, however its passes
  are cut short and however late their transactions are mined. Left alone, a pass does what its epoch calls for.
- **GPU reservations and base64** (`node-agent/src/deployments.ts`, `node-agent/src/workstation.ts`, `shared/sealed.ts`).

`dafny verify dfyconfig.toml` checks the whole project.

## How it is modelled

- Code that fills buffers and loops is a method with loops, proved against a specification function; the lemmas are about
  that function. The relay's response side and the hub's slots are classes updated in place. Protocols (relay stream,
  keeper, GPU reservations) are state machines whose steps are the code between two awaits, calls or events; every result
  about them is for every sequence of steps.
- A hash is an arbitrary function. That it does not collide is a hypothesis of the lemma that needs it, over an explicit
  finite set of inputs (those the trees, the chain or the openings name); `Caught` assumes nothing, and has the collision as
  the other outcome. That `p` is prime is a hypothesis of the counting results.
- Doubles: `Freivalds.Dbl` can only be applied to values up to 2^53, so a body that verifies computes without rounding.
  32-bit wrap-around is written out in `Base64.Wrap32`.
- The generator behind the noise is an arbitrary function of (sigma, label, index), `max(4, floor(n^0.3))` any starting
  value of at least 1, and the square root in `maxAbsEntry` the integer one.

Where code and expectation part ways:

- `node-agent/src/deployments.ts:239-248` tears a refused deployment down without marking its id busy. A start of the same
  id that is accepted meanwhile can lose its reservation when the teardown ends, and a later start can then be given a
  device that is in use (`GpuAlloc.RefusedRestartShares`). `GpuAlloc.HeldIffSparing` says exactly which runs keep every
  device in use reserved: those in which no teardown ends while the id holds devices again. The reservations themselves
  stay disjoint in every run (`GpuAlloc.ReservationsDisjoint`).
- `keeper/src/run.ts:119-120` means never to post a vetoed root again. A post whose receipt was never seen
  (`keeper/src/chain.ts:63-68`) can be mined and vetoed after a later pass read the epoch, and that pass posts the root
  again: `LatePosts.RepostRunIff` says when some run does, `LatePosts.LatePostIff` when a given pass still can.
- For the same reason a report to the API can speak of a root the chain no longer holds. A settled report on the root the
  pass read is always paid in full (`Keeper.RunConserves`). A pass can report its job settled on another root exactly when
  the epoch it read can still be vetoed and a lost post of another list is out that lets anyone close every lane of the
  job: by claims of the same accounts, or for lane B by a claw while it vests (`LateSettlements.LateSettleIff`, and
  `LateSettlements.LateSettleRunIff` over whole runs). `LateReports.VetoReportIff` and `LateReports.PostReportIff` say the
  same of reports of a veto and of a post.
- The runs shown to exist there respect the nonces of the keeper's one account (`LatePosts.Orderly`); that no other run
  goes wrong is shown for transactions mined in any order.
- A failed write upstream is never acked (`node-agent/src/relay.ts:328`), so its bytes stay in the hub's count for good. What
  keeps the stream from hanging is that the same failure raises the request's error event (`node-agent/src/relay.ts:317`),
  which ends it; in the model a failed write leaves that event pending.
- `inputHash` joins names and hashes with line breaks, so it binds the record for names without them, which the names of a
  job's inputs are; with them two records can share a text (`InputHash.LineBreaksCollide`).
- An empty copy is one empty leaf for `merkleLevels`, where RFC 6962 hashes the empty list differently; the equality with
  the RFC's tree hash is therefore stated for one leaf or more.

## Model

| member | source | states |
|---|---|---|
| Matrices.MatAdd | pouw/src/matrix.ts:33-39 | every entry is the sum of the two entries reduced modulo p |
| Matrices.MatSub | pouw/src/matrix.ts:41-48 | every entry is the difference reduced modulo p, also when it is negative |
| Matrices.MatMul | pouw/src/matrix.ts:50-67 | every entry is the inner product modulo p, for rectangular operands, although rows with zero entries are skipped |
| Matrices.MatGetBlock | pouw/src/matrix.ts:69-78 | the block holds the entries of the matrix at its offset |
| Matrices.MatSetBlock | pouw/src/matrix.ts:80-87 | in place, exactly the entries of the block change |
| BlockProduct.MatMulWithTranscript | pouw/src/matmul.ts:27-63 | refused exactly when r is 0 or does not divide n; otherwise C is the product entry for entry, there are (n/r)^3 recorded blocks, and block (i, j, l) is the partial product over the first (l+1)r inner indices |
| BlockProduct.BlockDot | pouw/src/matmul.ts:40-52 | the inner product of two blocks continues the one over the indices before them |
| Cupow.ChooseBlockSize | pouw/src/cupow.ts:49-54 | the result divides n and is the first divisor from the starting value on |
| Cupow.GenerateLowRankNoise | pouw/src/cupow.ts:57-70 | the noise is the product of two thin factors drawn in order from the generator |
| Cupow.Encode | pouw/src/cupow.ts:113-130 | A and B plus their noise, modulo p |
| Cupow.DecodeAlgebra | pouw/src/cupow.ts:132-145 | over the integers, the noisy product less the three thin-factor terms is A·B |
| Cupow.Decode | pouw/src/cupow.ts:132-145 | decoding the noisy product gives A·B modulo p |
| Cupow.SolveAssigned | pouw/src/cupow.ts:239-272 | the decoded matrix is A·B modulo p for every sigma, and the transcript records the noisy product's partial sums |
| Cupow.MaxAbsEntry | pouw/src/workload-bridge.ts:33-35 | the largest s with n·s² at most (p-1)/2 |
| Cupow.ToField | pouw/src/workload-bridge.ts:37-47 | refused exactly when an entry exceeds the bound; otherwise the residues |
| Cupow.LiftExactIff | pouw/src/workload-bridge.ts:49-51 | an integer survives reduction and centred lift exactly when it is within (p-1)/2 |
| Cupow.DotWithinLift | pouw/src/workload-bridge.ts:30-35 | within the bound every inner product is within the lift's range |
| Cupow.SolveAssignedJob | pouw/src/workload-bridge.ts:142-152 | for every n, sigma and noise: refused exactly when an entry exceeds the bound, else exactly the integer product of the user's matrices |
| Cupow.BoundIsTight | pouw/src/workload-bridge.ts:30-35 | one more than the bound, and a product no longer lifts back |
| Freivalds.MulModN | pouw/src/freivalds.ts:65-72 | a·r modulo p with every intermediate at most 2^53, for entries below 2^31 |
| Freivalds.RowSum | pouw/src/freivalds.ts:80-95 | the running sum stays exact for any number of columns and is congruent to the row product |
| Freivalds.MatVecRect | pouw/src/freivalds.ts:80-95 | the exact matrix-vector product modulo p |
| Freivalds.MatVec | pouw/src/freivalds.ts:28-40 | the same residues in exact integers, for entries of any size |
| Freivalds.FreivaldsRect | pouw/src/freivalds.ts:102-111 | accepts exactly when the dimensions fit and A·(B·r) and C·r agree modulo p for every vector drawn |
| Freivalds.FreivaldsSquare | pouw/src/freivalds.ts:46-57 | the square check decides by the same condition |
| Freivalds.ApplyAssoc | pouw/src/freivalds.ts:97-111 | (A·B)·r = A·(B·r) |
| Freivalds.Complete | pouw/src/freivalds.ts:97-111 | a true product passes with every vector |
| FreivaldsSound.OneValuePerLine | pouw/src/freivalds.ts:97-111 | with all coordinates but one fixed, at most one value of the last is accepted |
| FreivaldsSound.OneRound | pouw/src/freivalds.ts:97-111 | a wrong product passes one round for at most p^(n-1) of the p^n vectors |
| FreivaldsSound.Sound | pouw/src/freivalds.ts:102-111 | a wrong product passes all rounds for at most a p^-rounds fraction of the choices |
| Tensors.EncodeTensor | shared/verification.ts:78-90 | the bytes hashed: header, then entries in two's complement, little-endian |
| HashedTexts.DataByte | shared/verification.ts:84-88 | byte j of entry i is the entry divided by 256^j, modulo 256: one byte for i8, four for i32, the lowest first |
| HashedTexts.TensorText | shared/verification.ts:74-82 | the header is `cldt1`, the dtype and one to four decimal dimensions joined by x, between bars |
| Text.DecimalReads | shared/verification.ts:81 | decimal notation reads back as the number and has no leading zero |
| Text.JoinSplits | shared/verification.ts:93-100 | fields in order with one separator between two |
| Tensors.TensorBytesInjective | shared/verification.ts:63-90 | different valid tensors have different bytes |
| Assignments.CommitmentBinds | shared/verification.ts:93-173 | one commitment accepted for two assignments means the same sigma, the same plan and the same input tensors, unless two of the things hashed for them collide |
| InputHash.HashIgnoresOrder | shared/verification.ts:93-100 | the input hash does not depend on the order in which the object lists its names |
| InputHash.PrecedesIff | shared/verification.ts:96 | names are ordered by the first character in which they differ, a prefix first |
| InputHash.TextIsLines | shared/verification.ts:93-100 | the text hashed is one line `name:hash` for each name, in the ascending order, joined by line breaks |
| InputHash.InputHashBinds | shared/verification.ts:93-100 | equal input hashes mean the same names with the same tensors, unless two of the texts or tensors hashed collide |
| InputHash.JobNamesPlain | shared/work-int8-model.ts:65-78 | a job's input names hold no line break |
| Assignments.RecordWrittenOut | shared/work-int8-mlp.ts:73-83 | the record of a job holds X, W1, b1, W2, b2, q = [m1, s1, m2, s2] and lut (max(v, 0) if left out), with the block's suffix, as the tensors of their signatures |
| Assignments.NothingElseRecorded | shared/work-int8-model.ts:55-63 | and no other names |
| InputHash.LineBreaksCollide | shared/verification.ts:93-100 | for every hash, two different records with line breaks in a name hash the same text |
| Chain.ChainRoot | shared/verification.ts:103-109 | the loop computes the folded root |
| Chain.RootBinds | shared/verification.ts:103-121 | equal roots imply equal sigma, input hash, plan and segment hashes, also for plans of different length |
| HashedTexts.LinksWrittenOut | shared/work-int8-model.ts:65-78 | the text of every segment of a plan in the chain: index, kind, op and inputs with their block suffixes, for both work types |
| HashedTexts.ChainStarts | shared/verification.ts:103-104 | the chain starts from `cldc1`, sigma and the input hash |
| HashedTexts.ChainGrows | shared/verification.ts:105-109 | each segment adds its text and its output's hash to the link before it |
| Int8Work.RequantDbl | shared/work-int8-mlp.ts:96-97 | in doubles and for every int32 accumulator: v·m/2^s rounded to the nearest integer, halves up, clamped to int8 |
| Int8Work.RequantUnique | shared/work-int8-mlp.ts:96-97 | rounding and clamping leave one value |
| Int8Work.BuildPlan | shared/work-int8-model.ts:65-78 | the plan has four segments per block, each reading the job's tensors and earlier outputs |
| Int8Work.GemmBound | shared/work-int8-mlp.ts:101-113 | every accumulator is within 2^22 + 2^20 |
| Int8Work.ChainIsGood | shared/work-int8-model.ts:91-100 | along all blocks every output is well-formed with its signature, activations are int8 and accumulators within the bound |
| Int8Work.InterpAt | shared/work-int8-model.ts:83-100 | each output of the plan is its segment run on the outputs before it |
| HonestWork.GemmBias | shared/work-int8-mlp.ts:101-113 | the in-place loops compute A·B + bias entry for entry |
| HonestWork.RequantAll | shared/work-int8-mlp.ts:116-143 | the elementwise loops compute what the kernel means |
| HonestWork.RunSegment | shared/work-int8-mlp.ts:116-143 | a segment's kernel as the executor runs it |
| HonestWork.ExecuteMlp | shared/work-int8-mlp.ts:146-160 | the executor's outputs are the plan interpreted segment by segment |
| HonestWork.BlocksCompose | shared/work-int8-model.ts:83-100 | a block run on its own, on the result of the block before, continues the run of the model's plan |
| Semantics.InterpComputes | shared/work-int8-mlp.ts:8-15 | for every block, entry by entry: integer products with bias, the table at the rounded value (or the value cut at 0), and the clamped sum of the rounded value and the block's input |
| HonestWork.Execute | shared/work-int8-model.ts:91-100 | for every number of blocks the executor's outputs are those, and the interpretation of its plan |
| HonestWork.ChallengedSegments | node-agent/src/work.ts:55-60 | refused exactly on an empty, too long or out-of-range draw; otherwise the drawn indices, once each and ascending |
| HonestWork.CommitmentFields | shared/verification.ts:112-121 | a commitment carries the input hash, the chain root and the hash of every output |
| HonestWork.HonestCommitmentAccepted | node-agent/src/work.ts:34-40 | the honest commitment passes the bind check for every sigma |
| HonestWork.OpenedExactly | node-agent/src/work.ts:42-52 | an opening sends the segment's output and exactly the computed outputs it reads |
| HonestWork.HonestOpeningPasses | node-agent/src/work.ts:42-52 | every honest opening passes, with the ideal product check and with every choice of random vectors |
| OpeningCheck.ReadInputs | shared/verification.ts:204-228 | the loop over the inputs stops at the first that does not fit, with its verdict |
| OpeningCheck.SubtractBias | shared/verification.ts:244-252 | refuses exactly on an entry out of range, else the output less the bias |
| OpeningCheck.CheckSegment | shared/verification.ts:204-260 | as it runs, on any opening and commitment for a valid job: accepted exactly when the opening serves what the segment reads and its output as committed, and the output passes; in every other case the node is caught |
| Verdicts.VerdictIs | shared/verification.ts:198-204 | the same of the specification: never a refusal or a fault for a valid job |
| Verdicts.IdealIsExact | shared/verification.ts:243-253 | with the ideal check a product passes exactly when it is the segment's output |
| Verdicts.BindVerdictIs | shared/verification.ts:145-173 | the bind check accepts exactly the commitment with the job's input hash, the plan's indices, the chain root and the result's hash, for a result of the right signature; else it refuses, and catches nobody |
| CommitOpen.InputsAllOk | shared/verification.ts:213-228 | the inputs are accepted exactly when each has its signature and, if served, its committed hash |
| CommitOpen.GemmExact | shared/verification.ts:243-253 | the range check turns the identity modulo p into one over the integers |
| CommitOpen.OpenedIsHonest | shared/verification.ts:204-260 | if every segment's opening passes, the opened outputs are the honest ones |
| CommitOpen.AcceptedRunIsHonest | shared/verification.ts:149-173 | an accepted commitment with a passing opening for every segment has the honest result |
| Caught.WrongResultHasDeadSegment | shared/verification.ts:149-173 | an accepted commitment to a wrong result leaves a segment that no opening at all can pass, or openings of all segments pass and exhibit a collision |
| Caught.FewVectorsPass | shared/verification.ts:243-253 | an opening that fails the ideal check passes for at most a p^-rounds fraction of the random vectors |
| Caught.WrongResultIsCaught | shared/verification.ts:149-260 | a wrong result leaves a segment on which every opening passes for at most that fraction, or openings of all segments pass the ideal check and exhibit a collision |
| Caught.WrongOpeningsAreCaught | shared/verification.ts:149-260 | whatever openings are served for a wrong result, one of them passes for at most that fraction, if no two tensors they name collide |
| RelayFrames.FrameRoundTrip | shared/relay-protocol.ts:138-153 | a frame is the encoding of a stream and payload exactly when it decodes to them; refused exactly for an id outside 1 to 2^32 - 1 or more than 64 KiB |
| RelayFrames.IdBytes | shared/relay-protocol.ts:142 | the id in four bytes, the most significant first |
| RelayFrames.Take | node-agent/src/relay.ts:433-446 | the next n bytes of the queued buffers, and the buffers that remain |
| Batches.ChunkLoop | shared/relay-protocol.ts:156-158 | the slices the loop yields |
| Batches.ChunksPartition | shared/relay-protocol.ts:156-158 | the slices make up the whole, all but the last full, the last not empty |
| RelayStream.FramesFit | node-agent/src/relay.ts:372-381 | the frames sent are a prefix of what is queued, fit the window, and stop only for the window or an incomplete batch |
| RelayStream.FramesFull | node-agent/src/relay.ts:372-381 | every frame sent is full, but for the last one when the batch is due or the response has ended |
| RelayAgent.SendFrames | node-agent/src/relay.ts:372-381 | the loop over buffers sends exactly those frames |
| RelayAgent.AgentStream.PumpOut | node-agent/src/relay.ts:372-394 | the in-place pump is the pump of the protocol model |
| RelayAgent.AgentStream.Queue | node-agent/src/relay.ts:356-370 | one chunk queued is the model's chunk event, with its pause and batch timer |
| RelayAgent.AgentStream.Fire | node-agent/src/relay.ts:362-367 | the batch timer is the model's timer event |
| RelayAgent.AgentStream.Acked | node-agent/src/relay.ts:286-288 | an ack is the model's ack event |
| RelayAgent.AgentStream.UpstreamEnd | node-agent/src/relay.ts:346-349 | the end of the response is the model's end event |
| RelaySafety.StepKeeps | relay/src/hub.ts:144-302 | every event of hub and agent, a lost client and an abort included, keeps the invariant of both directions |
| RelaySafety.FlowIsConserved | relay/src/hub.ts:174-211 | in every interleaving each sender's count is the bytes in the channel, being written, written but not acked, acked in the channel and, for the hub, lost in failed writes, and never exceeds the window |
| RelaySafety.AcksNeverClamp | relay/src/hub.ts:257-260 | on a stream live at both ends no ack exceeds its receiver's count |
| RelayEnds.AcksAreBatched | node-agent/src/relay.ts:321-336 | over every run the agent acks the client's body in batches of at least 64 KiB |
| RelaySafety.BytesArriveInOrder | relay/src/hub.ts:214-253 | the client has a prefix of what upstream sent, all of it when the body closes normally; in every state upstream has a prefix of the client's body, all of it once its end arrived |
| RelayEnds.EndClosesBody | relay/src/hub.ts:250-253 | once the open hub has taken the response's end, and unless the client leaves, the body is closed when the queue is worked off, and the client then has all that upstream sent |
| RelayEnds.NullHeadClosesBody | relay/src/hub.ts:236-248 | the same for a response without a body |
| RelayEnds.FailureAbortsBody | relay/src/hub.ts:289-303 | a failure before the head answers with an error and leaves the body alone, one after it aborts the body once the queue is worked off, and does not close it |
| RelayEnds.EveryStreamEnds | relay/src/hub.ts:228-313 | over every run in which the client stays, a forgotten stream with its queue worked off has answered: an error, a body closed with all that upstream sent, an empty body, or an abort |
| RelayEnds.QueueDrains | relay/src/hub.ts:214-231 | a forgotten stream's queue only shrinks, by one with every operation done |
| RelayEnds.EndsLearn | relay/src/hub.ts:276-287 | neither end waits for one that has left: the end, error or cancel that tells it is on its way |
| RelayEnds.UploadEnds | relay/src/hub.ts:174-204 | over every run: once the client's body has ended and nothing is on its way to a live agent, upstream has got the end, and the whole body before it |
| RelayEnds.HeadsComeFirst | relay/src/hub.ts:236-248 | a request not yet taken is first on its way, and a head sent reaches the hub before any of its body |
| RelaySafety.BlockedHasWork | node-agent/src/relay.ts:321-336 | a window-blocked hub has a frame, write, ack or upstream error event outstanding; queued response bytes have a timer or are due |
| RelaySafety.UpstreamIsPaced | node-agent/src/relay.ts:356-394 | while the response lasts, upstream is paused exactly when a full window is queued or in flight |
| RelaySafety.NoDeadlock | node-agent/src/relay.ts:356-394 | a live stream with nothing outstanding (frames, writes, acks, timers, an upstream error) has delivered every byte both ways and holds nobody back |
| RelayHub.OpenKeeps | relay/src/hub.ts:101-107 | admitting what is not busy keeps at most 64 streams, 60 visitors and 16 visitor streams per deployment |
| RelayHub.CloseKeeps | relay/src/hub.ts:312-320 | forgetting a stream keeps them |
| RelayHub.ProbeIsNeverBusy | shared/relay-protocol.ts:15-21 | a probe that finds fewer than four probes open is never refused as busy |
| RelayHub.StreamHub.FreshId | relay/src/hub.ts:92-98 | terminates, across the wrap-around, with an id not in use |
| RelayHub.StreamHub.IsBusy | relay/src/hub.ts:102-107 | the counting loop decides the caps |
| RelayHub.StreamHub.Proxy | relay/src/hub.ts:101-162 | busy exactly with 64 streams open, or for a visitor 60, or 16 of its deployment; a refused request or failed send leaves the slots as they were |
| RelayHub.StreamHub.Forget | relay/src/hub.ts:312-320 | exactly that stream's slot is freed |
| StorageProof.LeavesPartition | shared/storage-proof.ts:22-26 | the leaves of any copy, in order, are the copy, all but the last full |
| StorageProof.CipherLeaves | shared/storage-proof.ts:16-20 | the ciphertext of any plaintext size has exactly leafCount leaves, each one chunk and one tag |
| StorageProof.MerkleLevels | shared/storage-proof.ts:46-61 | the loops build the levels, and the last one is the root |
| StorageProof.MerklePath | shared/storage-proof.ts:69-79 | the loop collects the siblings, none where the node is carried |
| StorageProof.VerifyLeaf | shared/storage-proof.ts:85-103 | the loop decides whether the leaf climbs to the root |
| StorageProof.OwnLeafVerifies | shared/storage-proof.ts:81-103 | every leaf verifies with its own path, whatever the hash |
| StorageProof.VerifiesExactly | shared/storage-proof.ts:81-103 | against the root of any copy the check passes exactly for the i-th leaf with its own path |
| StorageProof.RootIsTreeHash | shared/storage-proof.ts:40-66 | the root is the Merkle tree hash of section 2.1 of RFC 6962, with its byte 0 before leaves and 1 before nodes, for every number of leaves |
| StorageProof.LeavesAreNotNodes | shared/storage-proof.ts:40-43 | without a collision no leaf's hash is an inner node's |
| StorageProof.ToHexAt | shared/storage-proof.ts:105-107 | a path's hashes are written with two lower-case hexadecimal digits a byte, the high half first |
| KeeperTree.TotalsAgreeIff | keeper/src/run.ts:99-106 | the totals compared in wei agree exactly when the API's totals are the sums of its leaves |
| KeeperTree.SortIndices | keeper/src/tree.ts:54-55 | every leaf index once, by ascending hash |
| KeeperTree.PlaceLeaves | keeper/src/tree.ts:56-63 | each leaf is at the tree index of its ascending position |
| KeeperTree.HashInner | keeper/src/tree.ts:64 | every inner node is the hash of its sorted children |
| KeeperTree.ProcessProof | keeper/src/tree.ts:79-81 | the proof folded onto the leaf |
| KeeperTree.BuildTree | keeper/src/tree.ts:45-76 | refused exactly for no leaves or a refused amount; else the heap over the sorted leaf hashes, its root and every leaf's own proof |
| KeeperTree.RootIsRootOf | keeper/src/tree.ts:41-76 | the root is a function of the leaves alone: any heap over their sorted hashes has it |
| KeeperTree.RootWrittenOut | keeper/src/tree.ts:31-64 | the root written out: keccak of keccak of epoch, account, lane A and lane B for a leaf, ascending leaves filling the tree's end backwards, and the lesser child first |
| KeeperTree.OwnProofProves | keeper/src/tree.ts:66-81 | every leaf's proof folds to the root |
| KeeperTree.ProvableIffLeaf | keeper/src/tree.ts:31-81 | the hash of a word has a proof exactly when it is a leaf hash of the tree |
| KeeperTree.ProvableIffListed | keeper/src/tree.ts:31-81 | an account can prove exactly the amounts listed for it |
| KeeperTree.RootBindsLeaves | keeper/src/tree.ts:41-76 | equal roots mean the same leaves with the same multiplicities, up to order |
| KeeperTree.RootIgnoresOrder | keeper/src/tree.ts:54-64 | the root does not depend on the order of the API's leaves |
| Settlement.ClaimConserves | contract/contracts/v2/CloudanaSettlementV2.sol:310-342 | with one leaf per account a claim mints exactly what its new flags say |
| Settlement.ClaimForStep | contract/contracts/v2/CloudanaSettlementV2.sol:279-291 | a batch settles every entry's lanes as far as vested and closes at least one lane |
| Settlement.MintedWithinTotals | contract/contracts/v2/CloudanaSettlementV2.sol:332-339 | never more is minted or void than was posted |
| Settlement.SettledMintsAll | contract/contracts/v2/CloudanaSettlementV2.sol:310-342 | when every lane is settled all of lane A was minted, and all of lane B but what was voided |
| ChainTiming.RunIsTimely | contract/contracts/v2/CloudanaSettlementV2.sol:193-342 | over every run: a final epoch sat out its veto window, lane B was paid only once vested, and every post, veto, finalizing and clawback came in its own time |
| Keeper.PrepareIff | keeper/src/run.ts:86-111 | a payload goes on, as the job it stands for, exactly when there are leaves or fees, no amount is negative or too large, the root is that of the leaves and the totals are their sums |
| Keeper.AllClawedGoesOn | keeper/src/run.ts:89-93 | an epoch whose every entry was clawed goes on with the root 0 exactly when fees are left |
| Keeper.CollectEntries | keeper/src/run.ts:191-199 | the loop collects exactly the leaves with a claimable lane and counts those still vesting |
| Keeper.StepKeeps | keeper/src/run.ts:86-211 | every step of a pass, of the guardian, of other claimants and of the clock, every interruption, and every transaction of a dead pass mined later, keeps the invariant |
| Keeper.CallsAreGood | keeper/src/run.ts:86-211 | over every run: posted only with the rebuilt root and the leaf sums, only where the epoch is not live, has ended and is not before genesis, and only if the API does not call it posted; reported settled only on a final epoch with every lane of its leaves claimed or void; and, unless a late post was mined since the pass read the epoch, never the root currently vetoed, and reported posted or vetoed only with the root on chain |
| LatePosts.LatePostIff | keeper/src/run.ts:113-147 | a pass that read an epoch it may post can go on to post a vetoed root if and only if a lost post of that root is still out, there is a veto window, and the pass gets to post; then also in nonce order |
| LatePosts.LatePostRun | keeper/src/chain.ts:63-68 | a run from any start, in nonce order, that posts a root the chain holds as vetoed |
| LatePosts.RepostRunIff | keeper/src/run.ts:117-147 | some run posts a vetoed root if and only if there is a veto window and a payload that a pass would post |
| LateReports.VetoReportIff | keeper/src/run.ts:118-127 | a pass about to report a veto can report it of an epoch no longer vetoed with its root if and only if some lost post is still out |
| LateReports.PostReportIff | keeper/src/run.ts:147-159 | a pass about to report its root posted can report it of an epoch of another root if and only if a lost post of another root is still out and the epoch is vetoed or can still be |
| LateSettlements.LateSettleIff | keeper/src/run.ts:113-211 | a pass that has just read the epoch can go on to report its job settled on another root if and only if the epoch is posted with the job's root and can still be vetoed, and a lost post of another root is still out whose list lets every lane of the job be closed; then also in nonce order |
| LateSettlements.LateSettleRun | keeper/src/chain.ts:63-68 | such a run from any start, in nonce order, for any job and any two lists that allow it |
| LateSettlements.LateSettleRunIff | keeper/src/run.ts:113-211 | some run reports a job settled on another root if and only if there is a veto window and two such lists |
| Keeper.PassesAdvance | keeper/src/run.ts:36-44 | a posted, finalized or claimed outcome without a veto since lowers the progress measure |
| Keeper.RealTreeBinds | keeper/src/run.ts:93-97 | with the roots of the real trees, equal roots mean the same leaves, if nothing hashed for the known lists collides |
| Keeper.RunConserves | keeper/src/run.ts:171-176 | with the real trees and one leaf per account, over every run minting matches the flags, and an epoch reported settled on the root the pass read has minted all of lane A, and all of lane B but what the guardian voided |
| Keeper.BatchesAreOneClaim | keeper/src/run.ts:203-207 | claiming in batches claims what one call would |
| PassAlone.PassAloneComesTo | keeper/src/run.ts:113-211 | left alone from its beginning in any run, a pass comes to the end its epoch calls for, with these calls and no others: it posts, waits, skips, tells of a veto or a post, or finalizes, claims all that is due without a revert, and reports settled exactly when nothing is left to vest |
| PassAlone.UndisturbedPassSettles | keeper/src/run.ts:171-211 | so on a final, vested epoch with its job's root it ends by reporting the job settled, with nothing left open |
| GpuAlloc.PickGpus | node-agent/src/workstation.ts:90-100 | the loop finds the choice, or fails exactly when too few devices fit |
| GpuAlloc.ChoiceIsLowest | node-agent/src/workstation.ts:90-100 | the requested count of free devices, with a GPU list only those with the memory and of the class asked for (h100, from 39 GB, or below), and no such lower one left out |
| GpuAlloc.ChoiceFailsIff | node-agent/src/workstation.ts:99 | refused exactly when fewer such devices are free than asked for |
| GpuAlloc.ReservationsDisjoint | node-agent/src/deployments.ts:300-400 | in every interleaving reservations are disjoint, and a start that failed or was stopped keeps none |
| GpuAlloc.StepHeldIff | node-agent/src/deployments.ts:239-371 | every event keeps every device in use reserved, except exactly the end of a refusal whose id holds devices again |
| GpuAlloc.HeldIffSparing | node-agent/src/deployments.ts:239-371 | a run keeps every device in use reserved throughout if and only if no refusal in it ends that way; no device is then shared |
| GpuAlloc.RefusedRestartShares | node-agent/src/deployments.ts:239-248 | a run of accepted commands in which two running deployments share a device |
| Base64.ToBase64 | shared/sealed.ts:119-128 | the loop writes the digits of every group and the padding |
| Base64.AlphabetIs | shared/sealed.ts:117 | the alphabet runs A to Z, a to z, 0 to 9, + and / |
| Base64.EncodedGroup | shared/sealed.ts:121-126 | four characters are the sixths of the same 24 bits as three bytes, with padding for bytes missing at the end |
| Base64.FromDigits | shared/sealed.ts:133-145 | the loop with its wrapping accumulator reads back every whole byte |
| Base64.FromBase64 | shared/sealed.ts:130-146 | invalid exactly on a character outside the alphabet or a length of 1 modulo 4, after whitespace and padding are dropped |
| Base64.DecodeIgnoresSpace | shared/sealed.ts:131 | white space anywhere in the text changes nothing |
| Base64.DecodeIgnoresPadding | shared/sealed.ts:131 | nor does padding at its end |
| Base64.AccStep | shared/sealed.ts:138 | the accumulator's low twelve bits are the last two digits, whatever wrapped around |
| Base64.RoundTrip | shared/sealed.ts:119-146 | decoding what was encoded gives back every byte string |

## Left out

- Sockets, HTTP, Docker, the file system, viem and WebCrypto: only the data and events the core exchanges with them.
- The strength of SHA-256, keccak, secp256k1, HKDF and XChaCha20-Poly1305; hashes are arbitrary functions with stated hypotheses.
- `pouw/src/cupow.ts` solve and verify: the difficulty lottery and the certificate's re-execution; the matrix pipeline they share is modelled.
- The transcript's rolling hash and matrix hashes: the transcript is kept as the sequence of blocks that would be hashed.
- Segments of kind "opaque": neither work type has one, so their check is a fault.
- Malformed JSON and values of the wrong type in openings, payloads and control frames: the model starts from parsed values.
- Socket loss and reconnection, idle and head timers of the relay: a failure at either end can come at any time, but the socket of one stream stays up.
- Reuse of a stream id while the agent still holds the old stream: one stream is followed from its request on.
- The response head, headers, error pages and body caps of the relay: a refusal for any of them is an event.
- Two passes of one keeper at the same time: a pass begins only when the one before has ended or died, as within one isolate of the worker.
- Nonces in the results over all runs: the lost transactions of dead passes may be mined in any order, or never.
- Escrow, allowance and fee-split checks of the settlement contract: a post may be refused at any time, and only its effect on the epoch is modelled.
- A claim chunk of 0: the loop that cuts the batches would not end, so the chunk size is at least 1.
- Epochs whose leaves name an account twice: the flags are per account, so the payment results are stated for one leaf per account; Keeper.CallsAreGood needs no such assumption.
- Host-port choice, volumes, records on disk and boot-time recovery of `DeploymentManager`: the boot state is assumed to have disjoint reservations.
- StorageProof.CipherLeaves: sizes are exact integers; the source divides doubles, which agrees for sizes far beyond any copy.
- Pricing, tokenomics, subgraph, console, wallet and deploy scripts.
