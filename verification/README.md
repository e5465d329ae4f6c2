# Tendermint core, modelled in Dafny

This project models the parts of Tendermint core where a mistake costs safety, and proves
what they are for:

- **The proposer rotation and validator-set updates** (`Arithmetic`, `Int64`, `Common`,
  `Sorting`, `Validators`, `ProposerMath`, `Rotation`, `ChangeSet`, `ValidatorSets`,
  `ValidatorHistory`): a weighted round-robin in clipped int64 arithmetic, with rescaling,
  centring and batches of changes. Main results: the harmonic bound on priorities over any
  number of rounds, fairness, the exact result of an update, exact arithmetic over whole
  histories.
- **Merkle trees and block parts** (`Merkle`, `MerkleProof`, `PartSets`): the recursive and
  the iterative tree agree; proofs are complete, and sound up to an extracted collision;
  parts round-trip.
- **Votes, commits and their verification** (`Votes`, `VoteSets`, `VoteRuns`, `Commits`,
  `Validation`, `TrustLevels`, `Evidence`): the vote set refines a simple count over every
  run, a commit made from it is accepted and gives the set back, the batch and the single
  verifier accept the same and differ in their errors exactly as stated, two quorums share
  more than a third of the power, evidence finds them, and it finds only them exactly when
  the signatures nobody read are valid. The order of arrival does not matter exactly without
  equivocation.
- **The light client** (`Headers`, `LightVerifier`, `LightSafety`, `LightExample`,
  `LightClient`): skipping verification ends, fetches no height twice, and stays on the chain
  whatever the provider answers.
- **The file signer** (`Signer`): no double signing of votes and proposals over any run with
  crashes, and exactly when a failed save that the process survives can lead to it; vote
  extensions, signed anew on every call, are covered by their signatures.

Code that updates objects and slices in place is a class or a method with loops, proved
against a function on values; the properties are lemmas about those functions. Each module
opens with the file it models.

## What the proofs show about the code

- `safeMul` misses the overflow for a left factor MinInt64 and a right factor other than 0
  and 1, and reports one for a product MinInt64 with another left factor
  (`Int64.SafeMulExact`).
- `processChanges` reports an empty address as a duplicate, since it sorts first and the
  previous address starts as nil (`ValidatorSets.ProcessChanges`).
- With several rounds in one call, clipping is excluded while (2 + H_n)T fits in an int64;
  with one round it is excluded always (`Rotation.NoClipping`, `Rotation.OneRound`).
- `NewPartSetFromData` miscounts the parts when length + partSize - 1 reaches 2^32
  (`PartSets.PartCountExact`).
- A trust level with a denominator of 2^63 or more makes the needed power zero or negative
  (`TrustLevels.AsksForAThird`); a commit that nobody of the trusted set signed then passes
  (`Validation.VerifyCommitLightTrustingIff`, `LightSafety.TrustingThirdIff`). Levels parsed
  from text are below that. The comment allows a level of 1, the code does not; and the code
  refuses some levels from 1/3 to 1 whose numerator is large (`TrustLevels.AllowedRange`).
- The two commit verifiers can return different errors for one commit
  (`Validation.ErrorsDiffer`); `Validation.SameErrorIff` says exactly when they do not.
- `GetByzantineValidators` takes every signature for the block in two commits of one round,
  also those no light check has read, so a validator can be returned for a signature that is
  not its own (`Evidence.InnocentConvicted`, `Evidence.OnlyGuiltyIff`). It finds validators by
  addresses that no light check reads (`Evidence.RightOnesIff`, `Evidence.AddressesUnread`).
  After a lunatic attack it can return one validator twice (`Evidence.OnlyLunaticsIff`).
- A canonical vote can lack an entry among the tracked votes, against the comment in
  `types/vote_set.go`, and then does for good (`VoteRuns.UntrackedRunIff`).
- A majority for nil makes an extended commit whose commit VerifyCommit rejects
  (`Commits.CommitAccepted`), although it rebuilds to the same set (`Commits.RoundTrip`).
- `schedule` overflows for gaps above MaxInt64 / 9 (`LightClient.ScheduleBetween`); a pivot
  then can be below the verified height, and the block fetched for it ends the run
  (`LightClient.VerifySkipping`).
- A failed save that the process survives lets the signer release a signature the file does
  not know (`Signer.SyncLostIff`); after a restart from such a file, and only then, it can
  sign twice (`Signer.SafeUnlessForgotten`).
- The rule of one signed message for a height, round and step does not extend to vote
  extensions: each call signs the extension it is given (`Signer.OneExtensionIff`,
  `Signer.ExtensionsDiffer`).

## Model

| member | source | states |
|---|---|---|
| Int64.SafeAddClip | types/validator_set.go:888-897 | Addition of two int64 numbers saturates: the result is the true sum clamped to the int64 range. |
| Int64.SafeSubClip | types/validator_set.go:899-908 | Subtraction likewise. |
| Int64.SafeMulExact | types/validator_set.go:910-930 | The overflow flag of safeMul can be trusted exactly when the left factor is not MinInt64 or the right one is 0 or 1; it is raised exactly when the left factor is not MinInt64 and the product is outside (MinInt64, MaxInt64], so it is a false alarm exactly for a product MinInt64 with another left factor. |
| Sorting.Sort | types/validator_set.go:745-774 | Sorting leaves an ordered rearrangement, for the orders by power and by address. |
| Validators.GetByAddress | types/validator_set.go:267-274 | The search returns the first validator with the address, or -1 and none. |
| ProposerMath.RoundKeepsSubsetBound | types/validator_set.go:166-178 | One round of the rotation keeps, for any set of k validators, the bound k(2T + T(H_n - H_k)) on the sum of their priorities: the heart of the harmonic bound. |
| ProposerMath.RunBounds | types/validator_set.go:116-138 | Over any number of rounds from a centred start: priorities at least -2T, the sum conserved, the harmonic bound for every subset. |
| ProposerMath.Fairness | types/validator_set.go:116-138 | Over any number k of rounds, T times the wins of a validator of power v is between kv - (3 + H_n)T and kv + 4T. |
| Rotation.RescaleSpread | types/validator_set.go:143-164 | Rescaling by truncating division leaves a spread of at most diffMax, keeps the validators and does not panic, whenever spread and diffMax together fit in an int64. |
| Rotation.ShiftCentres | types/validator_set.go:226-234 | Shifting by the floored average leaves a sum from 0 to below n and keeps the spread. |
| Rotation.MostIndexIsMost | types/validator_set.go:218-224 | The scan finds a validator that no other beats. |
| Rotation.MostIsUnique | types/validator.go:103-123 | There is only one such validator when addresses differ. |
| Rotation.NoClipping | types/validator_set.go:18-25 | The bound the source leaves to the reader: in one call, for any number of rounds, no addition or subtraction clips whenever (2 + H_n)T fits in an int64. |
| Rotation.RunPriorities | types/validator_set.go:116-138 | In such a call every priority stays from -2T to (1 + H_n)T and the sum is conserved. |
| Rotation.RunHolding | types/validator_set.go:116-138 | In such a call any k validators together hold at most k(2T + T(H_n - H_k)). |
| Rotation.FairShare | types/validator_set.go:116-138 | T times the wins of a validator is exactly kv plus what its priority lost, so its share of the wins is its share of the power up to 4 wins above and 3 + H_n below. |
| Rotation.SharesAddUp | types/validator_set.go:116-138 | The wins of all validators add up to the number of rounds. |
| Rotation.RoomForManyValidators | types/validator_set.go:18-25 | The room is there for up to 128 validators at the power cap, and for up to 16384 with a fourteenth of the int64 range. |
| Rotation.RescaleFits | types/validator_set.go:143-164 | From any priorities an operation can leave or bring in, diff + diffMax - 1 stays below 8 times the maximum total power and the rescaled spread is at most 2T. |
| Rotation.PrepareCentres | types/validator_set.go:116-138 | Rescaling and shifting never panic and leave centred priorities: spread at most 2T, sum from 0 to below n. |
| Rotation.PrepareIsExact | types/validator_set.go:116-234 | In rescaling and centring, for every list an operation can start from, no int64 operation wraps or clips: not the difference, the ratio, the divided priorities, the average nor the subtraction of the shift. |
| Rotation.OneRound | types/validator_set.go:166-178 | A single round from there is exact for every set, with priorities from -2T to 3T and the sum conserved. |
| ChangeSet.ProperSplit | types/validator_set.go:370-404 | A proper batch of changes is split into updates and removals, each in ascending order of address, together the batch. |
| ChangeSet.MergeMultiset | types/validator_set.go:496-531 | Merging gives the updates and the existing validators whose address is not updated. |
| ChangeSet.WithoutKeeps | types/validator_set.go:554-578 | Removing gives exactly the validators whose address is not removed. |
| ChangeSet.ComputedTotal | types/validator_set.go:421-448 | The running total of deltas ends at the total power of the set after the batch. |
| ChangeSet.SortedRunningTotal | types/validator_set.go:436-446 | With deltas in ascending order a partial sum above the limit means the final sum is above it: no false alarm. |
| ChangeSet.TotalBeforeRemovalsBound | types/validator_set.go:471-490 | The total before removals is at most twice the maximum, and -1.125 times it is an exact int64. |
| ChangeSet.MergedIds | types/validator_set.go:584-634 | The merged list is the old address map overlaid with the positive changes less the zero ones. |
| ChangeSet.MergedPreparable | types/validator_set.go:584-634 | It is not empty and its priorities are within what rescaling can take. |
| ChangeSet.UpdateResult | types/validator_set.go:584-634 | A successful update yields exactly that overlay, with unique addresses, ordered by power then address, with the final total and bounded priorities. |
| ValidatorSets.ComputeMaxMinPriorityDiff | types/validator_set.go:197-216 | The loop computes the int64 difference of the largest and the smallest priority. |
| ValidatorSets.ComputeAvgProposerPriority | types/validator_set.go:181-194 | The loop computes the floored average of the priorities. |
| ValidatorSets.GetValWithMostPriority | types/validator_set.go:218-224 | The loop finds the validator no other beats. |
| ValidatorSets.ProcessChanges | types/validator_set.go:370-404 | Accepts exactly the batches of distinct, non-empty addresses with powers from 0 to the maximum; the result is the split, an error names a fault that is there. An empty address is always reported as a duplicate; of distinct addresses nothing else is; and without a bad power a duplicate is reported exactly when there is one or an empty address. |
| ValidatorSets.NumNewValidators | types/validator_set.go:450-458 | Counts the updates whose address is not in the set. |
| ValidatorSets.VerifyRemovals | types/validator_set.go:535-549 | Accepts exactly when all removed addresses are in the set, with the power they hold. |
| ValidatorSets.VerifyUpdates | types/validator_set.go:421-448 | Rejects exactly when the final total exceeds the maximum; otherwise returns the total before removals. |
| ValidatorSets.ComputeNewPriorities | types/validator_set.go:471-490 | Newcomers get -1.125 times the total, the others keep their priority. |
| ValidatorSets.CheckChanges | types/validator_set.go:584-616 | The checks together accept exactly the batches stated by Acceptable, and an error is justified by the batch. |
| ValidatorSets.MergeInto | types/validator_set.go:496-531 | The in-place merge fills the array with the merge of the two lists. |
| ValidatorSets.RemoveInto | types/validator_set.go:554-578 | The in-place removal fills the array with what is left. |
| ValidatorSets.ValidatorSet.UpdateTotalVotingPower | types/validator_set.go:295-309 | The cached total is the sum of the powers. |
| ValidatorSets.ValidatorSet.RescalePriorities | types/validator_set.go:143-164 | The loop rescales every priority and nothing else. |
| ValidatorSets.ValidatorSet.ShiftByAvgProposerPriority | types/validator_set.go:226-234 | The loop shifts every priority by the average and nothing else. |
| ValidatorSets.ValidatorSet.IncrementOnce | types/validator_set.go:166-178 | One round: everyone is raised by their power, the winner pays the total. |
| ValidatorSets.ValidatorSet.IncrementProposerPriority | types/validator_set.go:116-138 | Rescales, centres and runs the rounds without a panic; the proposer is the last winner; one round, or few enough validators, keeps the set's invariant. |
| ValidatorSets.ValidatorSet.ApplyUpdates | types/validator_set.go:496-531 | The validators become the merge with the updates. |
| ValidatorSets.ValidatorSet.ApplyRemovals | types/validator_set.go:554-578 | The validators become those not removed. |
| ValidatorSets.ValidatorSet.UpdateWithChanges | types/validator_set.go:584-634 | Succeeds exactly on acceptable batches, with the stated result and the cached total right; an error is justified and leaves the validators unchanged; the invariant is kept either way. |
| ValidatorSets.NewValidatorSet | types/validator_set.go:70-80 | Makes a valid set of exactly the given validators, and panics exactly where they are not acceptable. |
| ValidatorSets.RunIsBounded | types/validator_set.go:116-138 | One round, or any number in a bounded run, ends within the bounds of the invariant. |
| ValidatorHistory.HistoryIsSound | types/validator_set.go:584-634 | Over every history of updates and rotations from the empty set, the invariant holds and no int64 operation wraps or clips: running totals of removals and deltas, newcomer priority, rescaling, the shift, the rounds and the total. |
| ValidatorHistory.SingleRoundsWithin | types/validator_set.go:116-138 | Over every history of updates and single rounds, of any size, priorities stay from -2T to 3T and their sum from 0 to below n. |
| ValidatorHistory.UpdateStep | types/validator_set.go:584-634 | An update, accepted or not, keeps the invariant and is exact: the running totals of verifyRemovals and verifyUpdates, the newcomer priority, rescaling and the shift. |
| ValidatorHistory.IncrementIsSound | types/validator_set.go:116-138 | A rotation keeps the invariant and the validators. |
| Merkle.LeafHashOpt | crypto/merkle/hash.go:26-31 | Hashing through a reused state gives the leaf hash with prefix 0. |
| Merkle.InnerHashOpt | crypto/merkle/hash.go:42-48 | Likewise the inner hash with prefix 1. |
| Merkle.SplitPointIsSplit | crypto/merkle/tree.go:101-112 | The split point is the largest power of two below the length, as in section 2.1 of RFC 6962. |
| Merkle.HashFromByteSlices | crypto/merkle/tree.go:11-27 | The recursive form computes the tree hash of the list. |
| Merkle.SplitHalves | crypto/merkle/tree.go:68-98 | Pairing up halves the split point: why a level of pairing keeps the tree's shape. |
| Merkle.PairUpKeepsFold | crypto/merkle/tree.go:68-98 | Pairing up a level, with an odd last node promoted, keeps the tree hash. |
| Merkle.PairUpInPlace | crypto/merkle/tree.go:82-95 | The in-place pass with its read and write positions is one level of pairing. |
| Merkle.HashFromByteSlicesIterative | crypto/merkle/tree.go:68-98 | The iterative form computes the same tree hash for every list. |
| MerkleProof.AuditPathVerifies | crypto/merkle/proof.go:154-184 | Folding the audit path of item i, as in section 2.1.1 of RFC 6962, gives the root. |
| MerkleProof.Completeness | crypto/merkle/proof.go:52-71 | The proof of item i verifies it against the root, for every list and index. |
| MerkleProof.ExtractSound | crypto/merkle/proof.go:154-184 | From a path that leads to the root, either the leaf is in the list at the right place or two different inputs with one checksum are extracted. |
| MerkleProof.Soundness | crypto/merkle/proof.go:52-71 | If a proof verifies a leaf against the root of a list, the leaf is in the list, and is the item at the proof's index when the totals agree, or a collision of the checksum is extracted. |
| MerkleProof.ProofNode.FlattenAunts | crypto/merkle/proof.go:200-218 | Walking parents and siblings collects the aunts from the leaf up. |
| MerkleProof.TrailsFromByteSlices | crypto/merkle/proof.go:222-242 | The linked nodes form, for every item, a trail whose aunts are its audit path, under a root with the tree hash. |
| MerkleProof.ProofsFromByteSlices | crypto/merkle/proof.go:35-48 | Returns the tree hash and, for every item, the proof that verifies it. |
| PartSets.PartCountExact | types/part_set.go:172-176 | For every length the uint32 part count is the ceiling of length over part size exactly when length + partSize - 1 fits in 32 bits. |
| PartSets.PartCountOverflows | types/part_set.go:172-176 | It does not otherwise: two bytes in parts of 2^32 - 1 give no part. |
| PartSets.ChunksCover | types/part_set.go:172-200 | The parts put together are the data. |
| PartSets.AddKeepsConsistent | types/part_set.go:272-300 | Adding any part keeps count, bit array and byte size equal to what is stored. |
| PartSets.AddGenuine | types/part_set.go:272-300 | After genuine parts in any order with repeats, the set holds exactly those delivered. |
| PartSets.CompleteIffDelivered | types/part_set.go:308-310 | The set is complete exactly when every index was delivered; its bytes and byte size are then the data's. |
| PartSets.PartsFromData | types/part_set.go:172-200 | Makes the header and, for each index, the part with its proof. |
| PartSets.PartSet.FromData | types/part_set.go:172-200 | The full set made from data. |
| PartSets.PartSet.FromHeader | types/part_set.go:203-212 | The empty set of a header is consistent. |
| PartSets.PartSet.AddPart | types/part_set.go:272-300 | The method adds exactly when index, absence and proof allow, and keeps the set consistent. |
| PartSets.PartSet.IsComplete | types/part_set.go:308-310 | Complete means every part is there. |
| PartSets.PartSetReader.Read | types/part_set.go:333-352 | A read takes the next bytes across part borders, or what is left with the end reported. |
| PartSets.ReadAll | types/part_set.go:333-352 | Any sequence of positive-size reads returns the parts' bytes in order, and reports the end exactly when more is asked than is left. |
| PartSets.RoundTrip | types/part_set.go:312-352 | The parts of data, delivered in any order with repeats to a set that knows the header, read back as the data. |
| Votes.KeyInjective | types/block.go:1390-1398 | Nil and complete block IDs have equal keys exactly when they are equal. |
| VoteSets.NewInv | types/vote_set.go:75-93 | The empty tally satisfies the invariant. |
| VoteSets.AddVerifiedInv | types/vote_set.go:247-318 | addVerifiedVote keeps the invariant: sums are the power of recorded voters, the majority is there exactly when a tracked key has the quorum, its tracked votes are canonical, tracked keys number at most voters plus claims. |
| VoteSets.AddVoteInv | types/vote_set.go:161-232 | addVote, whatever the vote, keeps the invariant and reaches neither panic. |
| VoteSets.AddedIff | types/vote_set.go:161-232 | A vote is added without conflict exactly when it is its validator's first good vote. |
| VoteSets.ConflictsAre | types/vote_set.go:222-228 | A reported conflict is two good votes of one validator for different blocks; the second is tracked exactly where a peer claimed a majority. |
| VoteSets.ClaimInv | types/vote_set.go:325-358 | SetPeerMaj23, whatever the claim, keeps the invariant. |
| VoteSets.VoteSet.constructor | types/vote_set.go:75-103 | A new vote set is the empty tally. |
| VoteSets.VoteSet.AddVote | types/vote_set.go:150-158 | The method takes the tally where addVote does, with its outcome, and keeps the invariant. |
| VoteSets.VoteSet.CheckAndAdd | types/vote_set.go:161-232 | The chain of checks and its errors, in their order. |
| VoteSets.VoteSet.GetVote | types/vote_set.go:235-243 | A known vote under a key: the canonical one first, else the tracked one. |
| VoteSets.VoteSet.AddVerifiedVote | types/vote_set.go:247-318 | Placing and tracking together, and whether the vote was added. |
| VoteSets.VoteSet.TrackVote | types/vote_set.go:267-317 | Tracking a vote, with the first majority copied over. |
| VoteSets.VoteSet.CopyVotes | types/vote_set.go:307-311 | The loop copies the tracked votes over the canonical ones. |
| VoteSets.VoteSet.SetPeerMaj23 | types/vote_set.go:325-358 | The method records the claim as stated and keeps the invariant. |
| VoteRuns.RunInv | types/vote_set.go:161-358 | The invariant holds after every sequence of votes and claims. |
| VoteRuns.RefinesCount | types/vote_set.go:161-358 | After every sequence: sums are the power of recorded voters and at most the total, a majority is there exactly when a tracked block has floor(2T/3) + 1, its tracked votes are canonical, tracked blocks number at most voters plus claims. |
| VoteRuns.MajorityIsFinal | types/vote_set.go:300-313 | A majority once found never changes, whatever comes after. |
| VoteRuns.RunRegistered | types/vote_set.go:161-358 | Without equivocation, that is without good votes of one validator for two blocks or two claims of one peer, every canonical vote is a good vote cast, everyone who cast one has one, the claims are those made, and everything else derives from them. |
| VoteRuns.RunLedger | types/vote_set.go:161-358 | Where, besides, no vote comes in two forms, the canonical votes are exactly the good votes cast and the claims exactly those made. |
| VoteRuns.OrderIndependent | types/vote_set.go:161-358 | Without equivocation the same events in any order, with any repetition, lead to the same voters with the same blocks, bits, sums, majority, claims and tracked votes, also when a validator's vote comes with several timestamps or signatures; and to the same tally outright when it does not. |
| VoteRuns.OrderIndependentIff | types/vote_set.go:161-358 | Exactly then: the count is the same in every order exactly without equivocation, and the tally is exactly when, besides, no vote comes in two forms. |
| VoteRuns.UntrackedIff | types/vote_set.go:260-275 | A vote leaves a canonical vote without a tracked entry exactly when it is a good second vote that replaces one for the majority's block, which no peer claimed; the comment at lines 44-45 says this never happens. |
| VoteRuns.UntrackedRunIff | types/vote_set.go:44-45 | Over every run: all canonical votes have a tracked entry exactly when no vote of the run was of that kind when it came; an entry once missing stays missing. |
| VoteRuns.UntrackedHappens | types/vote_set.go:44-45 | It does happen: for every scheme and three valid signatures, a sequence of three votes of two validators. |
| Commits.MakeExtendedCommit | types/vote_set.go:629-659 | The loop keeps the votes for the majority's block and for nil and leaves the others out. |
| Commits.KeptVote | types/block.go:1150-1164 | A vote that the commit keeps is rebuilt from it exactly. |
| Commits.SignatureValid | types/block.go:848-874 | Every signature that is there is valid on the sign bytes rebuilt from the commit. |
| Commits.ForBlockPower | types/vote_set.go:629-659 | The signatures for the block have more than two thirds exactly when the majority is for a complete block ID. |
| Commits.CommitAccepted | types/vote_set.go:629-659 | The commit made from any reachable precommit set with a majority is accepted by VerifyCommit exactly when the majority is for a complete block ID, conflicts and replacements included. |
| Commits.AddSigsToVoteSet | types/block.go:1069-1083 | The loop adds the rebuilt votes and stops where the source panics. |
| Commits.ToVoteSet | types/block.go:1053-1066 | A new set of the right extension mode is filled. |
| Commits.RoundTrip | types/block.go:1053-1083 | From any reachable precommit set with a majority of basically valid votes, rebuilding never panics, reaches the same majority and makes the same extended commit. |
| Validation.VerifyCommitSingle | types/validation.go:267-334 | The loop with its early exit and its errors. |
| Validation.VerifyCommitBatch | types/validation.go:154-258 | The loop that tallies first and checks signatures last. |
| Validation.BatchIsSingle | types/validation.go:154-334 | The batch form accepts exactly what the single form accepts, in every mode. |
| Validation.SameErrorIff | types/validation.go:154-334 | The two forms return the same result, error and all, exactly when every signature that the pass comes to is valid or the pass without signature checks finds no fault of its own. |
| Validation.NotEnoughEither | types/validation.go:154-334 | Where the single form finds too little power, the batch form says the same. |
| Validation.ErrorsDiffer | types/validation.go:154-334 | They do not always: two validators of power 1 and a commit with one signature, whenever that signature is not valid. |
| Validation.AcceptMeans | types/validation.go:267-334 | Acceptance in any mode means distinct validators with valid counted signatures hold more than the needed power. |
| Validation.VerifyCommitIff | types/validation.go:27-53 | VerifyCommit accepts exactly the commits of the right size, height and block in which every signature there is valid and those for the block have more than two thirds. |
| Validation.VerifyCommitLightIff | types/validation.go:61-86 | VerifyCommitLight accepts exactly when some prefix of the signatures for the block is valid and has more than two thirds. |
| Validation.LightLooksAt | types/validation.go:61-86 | The prefix is the shortest one with enough power: VerifyCommitLight reads the signatures for the block up to there and no others. |
| Validation.FullImpliesLight | types/validation.go:27-86 | What VerifyCommit accepts, VerifyCommitLight accepts, whichever form either uses. |
| Validation.LightSigners | types/validation.go:61-86 | What VerifyCommitLight accepts has valid signatures for the block of more than two thirds. |
| Validation.TrustingSigners | types/validation.go:96-132 | What VerifyCommitLightTrusting accepts has valid signatures, found by address, of distinct validators with more than the needed power. |
| Validation.VerifyCommitLightTrustingIff | types/validation.go:96-132 | For every level: accepts exactly when some prefix of signatures by validators of the set is valid, by different validators, and has more than the needed power; and where that power is negative, exactly when the first signature by a validator of the set is valid or there is none. |
| TrustLevels.AllowedRange | light/verifier.go:179-186 | A level n/d is allowed exactly when n < d <= 3n and either 3n fits in 64 bits or d is at most what 3n wraps to; so what is allowed lies in [1/3, 1), whose upper end 1 the comment includes and the code does not. |
| TrustLevels.SixSeventhsRefused | light/verifier.go:179-186 | Not all of that range is allowed: 6/7 is, and is refused when written with larger numbers. |
| TrustLevels.AsksForAThird | types/validation.go:96-132 | The needed power guarantees more than a third of the total exactly when the denominator is below 2^63, or both numbers are not, or the total is too small for the negative quotient to show; in all other cases it is negative. |
| TrustLevels.AsksForNothing | types/validation.go:96-132 | An allowed level for which the needed power comes out negative. |
| Evidence.CommonSigners | types/validation.go:61-86 | Two commits accepted by VerifyCommitLight against one set have common signers, valid in both, of more than a third of the power. |
| Evidence.GetByzantineValidators | types/evidence.go:305-351 | The two loops and the sort compute the lunatics, the equivocators or nobody. |
| Evidence.EquivocatorsPower | types/evidence.go:323-345 | For every pair of commits the equivocators found have at least the power of the validators named by the signatures for the block in both, and just that, each once, when these are as many as the signatures. |
| Evidence.RightOnesIff | types/evidence.go:323-345 | The validators returned are just those the signatures for the block in both commits are counted for, and no lookup fails, exactly when the signatures carry the addresses of those validators, in whatever order. |
| Evidence.AddressesUnread | types/validation.go:61-86 | Nothing ensures that they do: VerifyCommitLight accepts the same whatever the addresses are. |
| Evidence.Accountable | types/evidence.go:305-364 | Two commits of one round accepted by VerifyCommitLight, with the right addresses in whatever order: the validators returned have at least the power of all those with valid signatures in both commits, which is more than a third. |
| Evidence.SignedTwoVotes | types/evidence.go:323-345 | Such a validator's key has valid signatures on two different precommits of one height and round, where the commits are for different blocks. |
| Evidence.OnlyGuiltyIff | types/evidence.go:305-364 | Everyone returned has valid signatures in both commits exactly when the signatures for the block that each light check leaves unread, where the other commit has one too, are valid. |
| Evidence.FullChecksConvictTheGuilty | types/evidence.go:305-364 | So they do where both commits also pass VerifyCommit. |
| Evidence.InnocentConvicted | types/evidence.go:323-345 | And not always: in any scheme, four validators of power 1, both commits accepted on three valid signatures each, the fourth returned for a signature that is not valid. |
| Evidence.LunaticsConvicted | types/evidence.go:311-326 | In the lunatic case the validators returned have at least the power of those of the common set with valid signatures. |
| Evidence.LunaticsOutweigh | types/evidence.go:311-326 | Which is more than VerifyCommitLightTrusting asks for, where it accepts the conflicting commit for the common set. |
| Evidence.OnlyLunaticsIff | types/evidence.go:311-326 | Each is returned once exactly when no address of the common set has two signatures for the block, and besides everyone returned has a valid one exactly when all those signatures are valid, read by a check or not. |
| LightVerifier.VerifyMeans | light/verifier.go:158-174 | Acceptance, and being left for later, need a greater height, a later time inside the trusting period and the clock drift; only a non-adjacent header is left for later. |
| LightSafety.TrustingThird | light/verifier.go:68-78 | The signers the trusting check counts have more than a third of the trusted set's power. |
| LightSafety.TrustingThirdIff | light/verifier.go:68-78 | Every commit the trusting check accepts has valid signers of more than a third of the set exactly when the level is read as it is meant for the set's total, or the check fails on the level. |
| LightSafety.UnsafeLevel | light/verifier.go:33-91 | For any other level a non-adjacent header that nobody of the trusted set signed is accepted, once its own set signed it; where the trusted set is verified in a batch, an empty batch is taken to verify. |
| LightSafety.NonAdjacentSafe | light/verifier.go:33-91 | From a block on the chain, a non-adjacent header that is accepted is on the chain, with its validator set, for every level that is read as it is meant for the trusted set's total. |
| LightSafety.AdjacentSafe | light/verifier.go:106-155 | Likewise an adjacent one, through the next validators' hash, whatever the level. |
| LightSafety.StepSafe | light/verifier.go:158-174 | A header that Verify accepts from a block on the chain is on the chain, when every set of the chain up to the height in question has at most a third of its power with keys that sign off the chain. |
| LightSafety.NextBlockAccepted | light/verifier.go:106-155 | And the chain's next block is accepted, once a prefix of its commit's signatures is valid and has more than two thirds. |
| LightExample.SecureExists | light/verifier.go:33-91 | The assumptions of safety can be met, up to every height, by a chain of one validator. |
| LightExample.ExampleAccepted | light/verifier.go:106-155 | And there Verify accepts every next block. |
| LightClient.ScheduleBetween | light/client.go:731-734 | The pivot lies strictly between the heights exactly when nine times their distance, as a 64-bit pattern, is from 16 to MaxInt64; always when it fits. |
| LightClient.ScheduleBelow | light/client.go:731-734 | The pivot is below the failed height always, overflow or not. |
| LightClient.ScheduleOverflows | light/client.go:731-734 | Heights for which the pivot falls below the verified one. |
| LightClient.Skip | light/client.go:656-728 | The loop ends under the lexicographic measure, for any check that only moves up, any schedule below the failed height and any answers; the trace is a chain of accepted steps, every way to end is accounted for, no height is fetched twice and none outside the gap, but for a last one that a schedule not strictly between names and the next check rejects. |
| LightClient.VerifySkipping | light/client.go:656-728 | The same with the verifier's check and the int64 schedule, for every pair of heights; up to a gap of MaxInt64 / 9 the exception does not arise and at most target - trusted - 1 blocks are fetched, beyond it at most one more. |
| LightClient.TraceAdvances | light/client.go:656-728 | Along a trace heights and times strictly increase, inside the trusting period and the clock drift. |
| LightClient.TraceSafe | light/client.go:656-728 | If the trusted block is on the chain, every block of every trace up to the height the chain is secure to is, whatever the provider answers. |
| Signer.CheckIsOrder | privval/file.go:136-168 | checkHRS is the order on height, round and step, with reuse exactly at equality. |
| Signer.VoteReturnedIff | privval/file.go:360-432 | When signVote succeeds; that it changes nothing of the vote but signatures and a restored timestamp; and that the extension signature is the one made for this call's extension, or empty with the extension where the vote is not a precommit for a block. |
| Signer.ProposalReturnedIff | privval/file.go:435-468 | When signProposal succeeds, and that it changes only the signature. |
| Signer.ResignedVote | privval/file.go:392-416 | A vote signed again, with the earlier timestamp restored, is exactly what the saved signature covers, and its extension what the new extension signature covers. |
| Signer.RunIsSafe | privval/file.go:360-502 | Over every run with crashes anywhere and reloads, in which no failed save is survived, memory and file stay together, releases never go back, those for one height, round and step cover the same bytes, each is covered by its signature and the extension of each precommit for a block by its own. |
| Signer.RunKeepsInv | privval/file.go:360-502 | The same over every run, failed saves that the process survives included, in which no restart finds a file behind something released. |
| Signer.RunIsProper | privval/file.go:360-502 | Over every run whatever, each message released is covered by its signature, the extension of each precommit for a block by its own, and no other vote carries an extension or a signature of one. |
| Signer.OneExtensionIff | privval/file.go:376-416 | Over every run whatever, the extension signatures released for one height and round cover the same bytes exactly when the precommits for a block returned for them had one chain and one extension. |
| Signer.ExtensionsDiffer | privval/file.go:376-416 | They need not: the same precommit with another extension is returned too, with the same signature and a second extension signature. |
| Signer.ForgettingIff | privval/file.go:360-502 | After a restart no further call can release a second message for one height, round and step exactly when the file is not behind anything released. |
| Signer.SafeUnlessForgotten | privval/file.go:360-502 | Over runs, whatever the fates of the saves: a run that forgot nothing has not double signed, and at the next restart no call after it can exactly when it has still forgotten nothing. |
| Signer.SyncLostIff | privval/file.go:471-478 | Memory and file come apart exactly when a call for a later height, round and step with a signature and its extension in order fails to save and the process goes on. |
| Signer.SurvivedSavesDoubleSign | privval/file.go:471-478 | Then two different votes can be released for one height, round and step. |
| Signer.FilePV.constructor | privval/file.go:240-275 | Loading gives what was saved, an empty signature as none. |
| Signer.FilePV.Save | privval/file.go:471-478 | saveSigned in memory and on disk, for each fate of the save. |
| Signer.FilePV.SignVote | privval/file.go:360-432 | The method does what is stated of signVote. |
| Signer.FilePV.SignProposal | privval/file.go:435-468 | The method does what is stated of signProposal. |

## Left out

- Rotation.NoClipping: with more than one round in a call the bound needs (2 + H_n)T within MaxInt64; what happens beyond it is not settled here.
- ValidatorHistory.HistoryIsSound: calls with more than one round are taken only with (1 + H_n)T within three times the maximum total, since the next rescaling starts from their result; single rounds are unrestricted.
- ValidatorHistory.IncrementIsSound: the same restriction on calls with more than one round.
- VoteRuns.OrderIndependent: for votes whose block ID is nil or complete, as ValidateBasic demands of a vote before it reaches a vote set.
- Evidence.Accountable: for a conflicting commit whose signatures carry, in some order, the addresses of the validators they are counted for; for others the right validators are not returned, as `Evidence.RightOnesIff` says.
- LightSafety.StepSafe: hashes are assumed free of collisions only for the headers and sets of the chain up to the height in question, and a key that is not faulty to sign precommits for the chain's blocks only.
- LightClient.VerifySkipping: heights are from 0 to MaxInt64.
- Signer: Reset, which deletes the state, is not an operation of a run.
- PartSets.RoundTrip: for genuine parts; a part whose index differs from its proof's index is not followed further.
- Addresses, keys, signatures and checksums are byte strings with abstract functions; the bytes that are signed are represented by the canonical message they encode. The protobuf and JSON encodings are not modelled, except the block ID's key.
- Header and validator-set hashes are abstract functions; that they are Merkle roots of encoded fields is not used.
- Whether a set's keys support batch verification is a parameter; the batch verifier is taken to accept every valid signature of such a set, and an empty batch. The latter is reached only when the needed power is negative, and `LightSafety.UnsafeLevel` rests on it for sets verified in a batch; the library behind that verifier is not part of this model.
- A block ID flag other than absent, commit and nil, on which the source panics, cannot occur.
- Times are integers; their encoding and range are not modelled. The length of a chain ID counts characters.
- Nil receivers and nil arguments, on which the source returns an error or panics, have no counterpart.
- Validator objects shared between a set, its proposer field and copies are values here; the order in which Go's sort leaves equal elements does not matter, since they are identical or only their sum counts.
- The per-block records of a vote set are values in a map, not shared pointers; locking is left out.
- A validator set whose total power exceeds the maximum makes the source panic. A trusted light block with such a set is rejected here; for an untrusted one the check is made with the true total, so that a block the source would panic on may be accepted. Safety is not affected, since a block on the chain has a set within the maximum.
- Looking up the previous proposer, sequential and backwards light verification, witnesses, provider replacement, stores and the network are not modelled.
- Duplicate-vote evidence, the evidence pool, block and transaction handling, and the consensus state machine are not modelled.
