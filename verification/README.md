# Succinct Attestation and the stake contract, verified

A Dafny model of the decision logic of the Dusk node: the Succinct Attestation
consensus (deterministic sortition, vote aggregation, quorum verification, the
attestation registry, the round loop), the stake contract with its undo log, the
note picker of the wallet, the wire encoding of consensus messages, and the
Dusk/Lux text format.

The main results:

- **Agreement.** Any two nodes, whatever votes and Quorums each has received in
  whatever order, send Success quorums for the same block in a normal iteration,
  as long as at most 21 of the 64 ratification credits that sortition handed out
  are faulty, every other key signs through a round loop in which the iterations
  on this tip are contiguous, and no request for committees clashed
  (`Agreement.NetworkAgreement`). Twenty-two faulty credits are enough to break it
  (`Verifiers.AgreementBoundIsTight`).
- **Every Quorum a step returns verifies** against the committees in the node's
  cache, over every run of votes and Quorums, in normal and emergency iterations
  (`RoundRun.EmittedQuorumsVerify`), and against the committees a verifier builds
  when no request clashed (`Agreement.EmittedVerifiesFromScratch`). The registry
  never holds two ready Fail attestations for an iteration
  (`RoundRun.RegistryAfterRun`).
- **Relayed Quorums.** A Quorum found among votes of past steps is relayed. Against
  the node's own committees all of them verify if and only if no event adds, under
  an entry that a received Quorum with a Fail tag on a Valid vote left behind, a
  vote that leaves it short (`Relays.RelayedVerifyIff`): the code does not look at
  the tag. Against committees built from scratch the same holds of the Quorums
  whose step numbers fit eight bits (`Wrapping.RelaysFromScratchIff`), which is all
  of them when no past vote names an iteration above 84. The code does not bound
  that either, and step numbers wrap: `Wrapping.WrappedRelay` is the run, at
  iteration 6, in which votes for iteration 90 are relayed as a Quorum that a
  verifier refuses. `Relays.MistaggedRunExists` gives a run for the tag in every
  emergency iteration but the last.
- **The committee cache is right exactly when no request clashes.** A message
  header names the iteration whose committees are generated, as any byte, and
  step numbers wrap at 256. Requests up to iteration 84 never clash
  (`IterationContext.SmallRequests`); `IterationContext.CacheExact` gives the exact
  condition over all requests, and `IterationContext.SpoiledCache` the request for
  iteration 100 that leaves iteration 14 with a Ratification committee of one
  credit.
- **A normal iteration succeeds** when members with a supermajority of each
  committee vote for a block: the node emits its Success quorum in any order of
  the votes and whatever the other members send, in every iteration that a run
  can open (`Liveness.IterationSucceeds`, `Liveness.NextIterationIsOpen`). In an
  emergency iteration a supermajority of ratifications is enough, from any local
  result (`Emission.EmergencyQuorumIsEmitted`), and a failed iteration is reported
  exactly when it failed (`Failures.FailuresAreReported`).
  Under it lies the exact content of every tally: first votes in normal steps,
  all Valid votes in emergency ones (`Tallies.TallyIsFirstBackers`,
  `Tallies.EveryVoteCounts`).
- **Sortition is total and fair to its definition**: exactly the committee's
  credits are drawn, each by its own hash from what the earlier draws left
  (`Sortition.CommitteeIsFull`, `Sortition.EveryDraw`), and the verifier rebuilds the
  committee of every step (`IterationContext.VerifyStepVotes`).
- **The stake contract conserves every Lux and its undo log is exact** over every
  run of calls (`StakeContract.RunConserves`, `StakeContract.UndoLogIsExact`,
  `StakeContract.PreviousEligibles`); `StakeContract.PreviousMapExact` says when the
  reconstructed provisioner map is the very map of the block's start.
- **Only the owner takes out of an account**, hard slashes aside, and every call
  moves exactly the funds and rewards it names (`StakeContract.FundsAreSafe`,
  `StakeContract.FundsMove`, `StakeContract.RewardsMove`).
- **No normal iteration runs twice** across crashes and restarts when the
  iterations on the tip are contiguous, and only then if the store was on another
  tip (`RoundLoop.OnceIffContiguous`; `RoundLoop.OnceIffStarts` for any store); then
  an honest key votes once (`RoundLoop.OneBallotPerIteration`).
- **A round ends in time** unless a Quorum keeps ending its last iteration: every
  such repetition costs up to 120 seconds, and none means 6000 seconds
  (`Timing.RoundBound`, `Timing.RoundBoundIsMet`).

## How it is laid out

| file | models |
|---|---|
| `Collections.dfy`, `Bitset.dfy` | ordered maps with sums, 64-bit voter sets |
| `Config.dfy`, `Messages.dfy`, `Wire.dfy` | constants, values and their bytes |
| `Sortition.dfy`, `Committees.dfy`, `IterationContext.dfy` | from stakes to the committees of a round |
| `Verifiers.dfy`, `Aggregation.dfy`, `Registry.dfy`, `Handlers.dfy` | votes, tallies, attestations |
| `RoundRun.dfy`, `Relays.dfy`, `RoundLoop.dfy`, `Agreement.dfy` | all runs of one node, its relayed Quorums, restarts, several nodes |
| `Wrapping.dfy` | relayed Quorums for a verifier, and wrapped step numbers |
| `Tallies.dfy`, `Liveness.dfy`, `Emission.dfy` | whose votes are counted, and when a quorum must come out |
| `Failures.dfy` | which failed iterations are reported |
| `StakeContract.dfy` | the contract, its books and its undo log |
| `NotePicker.dfy`, `Lux.dfy`, `Timing.dfy` | the wallet's search, amounts as text, step timeouts |

Where the original updates an object in place the model has a class whose methods
are proved equal to a function on values (`Aggregator.CollectVote` to `Collect`,
`RatificationHandler.Collect` to `RatificationCollect`, `StakeState.SlashStake` to
`Slash`, ...). The theorems about runs are lemmas about those functions.

Conventions:

- A public key is the number its 96 bytes spell in big-endian order, so keys
  compare as in the ordered maps of the original.
- The sortition hash is an arbitrary function of seed, step and counter. The
  multisignature scheme is an arbitrary record of functions (`Verifiers.Bls`);
  two laws are asked of it where needed, and `IdealBlsLaws` shows that a scheme
  meeting both exists.
- Each handler call is one atomic step. A contract panic is a call that changes
  nothing.
- Step numbers wrap at 256 as they do in a build without overflow checks.
- In a stake contract call `ownerOk`, `accountOk` and `chainOk` stand for the
  checks made by the host: signatures and key validity, chain id and, for a
  contract's deposit, the matching amount. `balance` is what the transfer
  contract holds for the stake contract, `received` whatever reached it other
  than through staking.
- The run of a node (`RoundRun.Next`) admits more orders of events than the event
  loop produces, for example a repeated message or a vote after a quorum. What
  is proved therefore holds of the loop's own orders.

Where code and comments disagree the model follows the code:

- `reward` gives an account without a stake an entry of its own; its comment says
  such an account is skipped (`contracts/stake/src/state.rs:478-496`). Neither that
  nor the removal of an entry by `withdraw` (`contracts/stake/src/state.rs:384-386`)
  is logged, so the reconstructed provisioner map may hold an entry too many or
  too few, always one without stake (`StakeContract.PreviousMapExact`); stakes and
  eligible provisioners are reconstructed exactly.
- `slash` locks part of the staked value; its comment speaks of the reward
  (`contracts/stake/src/state.rs:512-571`).
- `parseFromDusk` is described as reading with a fixed precision of nine decimals
  (`w3sper.js/src/lux.js:78-81`). More than nine decimals are not cut off, they
  enlarge the amount; `Lux.ParseIsExact` gives the exact condition.
- Restarting at a saved iteration executes no iteration up to and including 16
  twice, one more than the normal iterations.

## Model

| member | source | states |
|---|---|---|
| Agreement.NetworkAgreement | consensus/src/quorum/verifiers.rs:98-149 | Two nodes, each after any run of votes and Quorums from any starting iteration: Success quorums they emit or relay for the same normal iteration carry the same result, if at most 21 of the 64 credits drawn for that Ratification committee are faulty, other keys sign only through a round loop in which the iterations on this tip are contiguous, and no request for committees made either cache clash |
| Agreement.EmittedVerifiesFromScratch | consensus/src/execution_ctx.rs:530-546 | Over any run and any requests, an emitted Quorum carries this round's header and the result of its vote; when no request clashed it passes verification against committees built from scratch, and none clashes when no header names an iteration above 84 |
| Agreement.SlotFromScratch | consensus/src/iteration_ctx.rs:37-59 | When no request clashed the committee a node uses for any step of the round is the one a verifier builds |
| Agreement.SpoiledRound | consensus/src/execution_ctx.rs:539-546 | A node asked for iteration 100 before iteration 14 uses, for the ratification of iteration 14, a committee of one credit in which one vote reaches every target, where the verifier counts 64 |
| Agreement.NormalIsEmitted | consensus/src/execution_ctx.rs:440-515 | Whatever a node sends out for a normal iteration comes from a step of its own |
| Agreement.RoundOfValid | consensus/src/iteration_ctx.rs:247-262 | Whatever was requested, the committees in a node's cache are well formed: positive credits, at most 64 members, thresholds of the credit total |
| Agreement.HonestKeysVoteOnce | consensus/src/ratification/step.rs:120-158 | A key that signs only what its round loop casts signs at most one ratification vote per normal iteration |
| Verifiers.PerIterationAgreement | consensus/src/quorum/verifiers.rs:98-149 | Two ratification sets for Valid(h1) and Valid(h2) that both pass verification for one header have h1 = h2, with at most 21 of 64 credits faulty |
| Verifiers.AgreementBoundIsTight | consensus/src/quorum/verifiers.rs:98-149 | For any two hashes there is a committee of 64 credits, 22 of them faulty, in which both are ratified |
| Verifiers.QuorumsAgree | consensus/src/quorum/verifiers.rs:98-149 | For any committee and any two votes of a step: accepted sets are for the same vote when the faulty credits are fewer than the two targets must share |
| Verifiers.AcceptedQuorum | consensus/src/quorum/verifiers.rs:98-183 | An accepted set decodes to committee members that weigh at least the target, each of which signed the header, step and vote |
| Verifiers.RefusedIffTooFew | consensus/src/quorum/verifiers.rs:105-133 | Any votes are refused as too few if and only if the members they name hold less than the vote needs of the committee's credits: a supermajority for Valid, a majority for any other, nothing for the validation of a NoQuorum |
| Verifiers.NeededOf64 | consensus/src/config.rs:65-74 | Of 64 credits a Valid vote needs 43 and any other 33 |
| Verifiers.IdealBlsLaws | consensus/src/quorum/verifiers.rs:151-183 | The laws assumed of the signature scheme are met by the ideal scheme over any record of signers |
| RoundRun.EmittedQuorumsVerify | consensus/src/ratification/handler.rs:97-226 | Over any run, every Quorum a step returns carries this round's header, a ratification set that passes verification for its vote against the committees the node uses and, unless the vote is NoQuorum, a validation set that passes for the same vote; received Quorums are not trusted for their tag |
| RoundRun.RelayedQuorumsVerify | consensus/src/execution_ctx.rs:491-506 | Over any run, with votes of any iteration a header can name: a relayed Quorum is for a Valid vote of an emergency iteration, and passes verification on both sides against the committees the node uses if no received Quorum put a Fail tag on that vote |
| Wrapping.RelaysFromScratchIff | consensus/src/quorum/verifiers.rs:27-85 | When no request clashed, the relayed Quorums whose step numbers fit eight bits all verify against committees built from scratch if and only if no event is a short relay |
| Wrapping.SmallVotesFromScratch | node-data/src/message.rs:114-120 | When moreover no past vote names an iteration above 84, all relayed Quorums verify from scratch if and only if no event is a short relay |
| Wrapping.WrappedRelay | consensus/src/execution_ctx.rs:456-506 | At iteration 6, with a right cache and no Quorum received: one validation vote of the generator of iteration 5 for iteration 90, and ratifications of it by a supermajority of the Validation committee of iteration 5, are relayed as a Quorum whose validation votes a verifier refuses as too few, unless the first member of the committee it draws weighs a supermajority |
| Wrapping.NinetyCommittees | node-data/src/lib.rs:27-31 | For the validation of iteration 90 the node uses the one-credit Proposal committee of iteration 5, and for its ratification the Validation committee of iteration 5, where a verifier draws 64 credits |
| Wrapping.NoHarm | consensus/src/iteration_ctx.rs:151-165 | After iterations 0 to 6 a request for iteration 90 does not clash |
| Wrapping.PastQuorumIsRelayed | consensus/src/ratification/handler.rs:229-270 | Past ratification votes that weigh a supermajority beside a validation quorum are relayed, with the validation tally |
| Relays.RelayedVerifyIff | consensus/src/step_votes_reg.rs:172-241 | Over any run, all relayed Quorums verify if and only if no event adds, to an entry stored under a Fail tag on its Valid vote, a ratification vote that leaves its tally short or stands beside the votes of a short validation tally |
| Relays.RelayExact | consensus/src/ratification/handler.rs:229-270 | A past vote that the aggregator takes is relayed if and only if both tallies reach their target or the entry was stored under such a tag; the relayed ratification set passes when its tally reaches the target and is refused as too small when not |
| Relays.RelayFull | consensus/src/ratification/handler.rs:229-270 | What is relayed verifies on both sides if and only if its entry is not marked, or the ratification tally reaches its target and the validation votes are not those of a short tally |
| Relays.MistaggedRelay | node/src/chain/header_validation.rs:421-485 | After a received Quorum with a Fail tag on its Valid vote, the first past vote of any member that is no quorum by itself is relayed as a Quorum that is refused as too small |
| Relays.MistaggedRunExists | node/src/chain/acceptor.rs:402-443 | Such a run exists in every emergency iteration but the last, whose ratification votes are never past, and for every hash |
| RoundRun.RegistryAfterRun | consensus/src/step_votes_reg.rs:140-202 | Over any run, including received attestations and votes of any iteration a header can name: at most one Fail attestation per iteration is ready; a ready attestation passes verification on both sides if and only if it is not marked or neither of its sides is a tally short of its target; only a received Fail tag on its Valid vote marks it |
| RoundRun.MarkedSide | consensus/src/step_votes_reg.rs:57-77 | A side of a marked entry passes verification if and only if it is not a tally short of its target |
| RoundRun.RegistryMirrorsTallies | consensus/src/step_votes_reg.rs:57-121 | Fed by the aggregators alone, the registry shows exactly the tallies, a flag is set if and only if its tally reaches the target, and in a normal iteration at most one vote is ready |
| RoundRun.NextKeepsInv | consensus/src/execution_ctx.rs:127-369 | Every event keeps the node invariant: sound tallies, entries that show the tallies, are frozen or are marked by a received tag, unique failures, verified local results and verified Quorums |
| RoundRun.RunKeepsInv | consensus/src/execution_ctx.rs:127-369 | The invariant holds after any sequence of events |
| RoundRun.RatificationKeepsInv | consensus/src/ratification/handler.rs:97-226 | Collecting a ratification message of the current iteration keeps the invariant, whichever of the branches on the local result is taken |
| RoundRun.MatchedResult | consensus/src/ratification/handler.rs:115-181 | The local validation result left after a collected vote passes verification and is for that vote, unless the vote is NoQuorum |
| RoundRun.PastRatificationKeepsInv | consensus/src/ratification/handler.rs:229-270 | Collecting a past ratification vote keeps the invariant; what is relayed is for a Valid vote and verifies unless its entry is marked |
| RoundRun.ValidationKeepsInv | consensus/src/validation/handler.rs:152-217 | Collecting a validation message keeps the invariant; the result handed to Ratification passes verification |
| RoundRun.PastValidationKeepsInv | consensus/src/validation/handler.rs:220-303 | Collecting a past validation vote keeps the invariant |
| RoundRun.NetworkQuorumKeepsInv | consensus/src/execution_ctx.rs:217-333 | Storing a received attestation tagged Fail, whatever its vote, gated by the absence of a known Fail attestation, keeps the invariant and failures unique |
| RoundRun.ControlKeepsInv | consensus/src/ratification/step.rs:90-107 | Beginning an iteration or a step, with the handlers reset to the iteration and to the Validation step's result or the default one, keeps the invariant |
| RoundRun.RecordEffect | consensus/src/step_votes_reg.rs:172-202 | Recording a taken vote replaces one side of its attestation by the current tally, raises that side's flag if the tally reaches its target, never lowers it, and leaves the other side alone; a refused vote changes nothing |
| RoundRun.ReadySound | consensus/src/step_votes_reg.rs:102-121 | A ready attestation that is not marked passes verification on both sides, for every vote including NoQuorum |
| RoundRun.MirrorsUnique | consensus/src/step_votes_reg.rs:140-144 | In a normal iteration shown by the tallies at most one attestation is ready |
| Handlers.ValidationHandler.Collect | consensus/src/validation/handler.rs:152-217 | Tallies, registry and outcome after the call, for every branch: NoQuorum vote, other iteration, failed aggregation, pending, quorum with its type |
| Handlers.ValidationHandler.CollectFromPast | consensus/src/validation/handler.rs:253-303 | The same for a past vote: only a Valid quorum is reported, aggregation errors are dropped |
| Handlers.RatificationHandler.Collect | consensus/src/ratification/handler.rs:97-226 | Tallies, local validation result, registry and outcome for every branch: other iteration, mismatch with the message, unverified sets, mismatch with the local result in normal iterations, replacement in emergency ones, quorum |
| Handlers.RatificationHandler.CollectFromPast | consensus/src/ratification/handler.rs:229-270 | A Quorum is returned exactly when the registry reports the attestation ready |
| Registry.AttInfoRegistry.SetStepVotes | consensus/src/step_votes_reg.rs:172-202 | The whole new registry, and the attestation when ready; default votes change nothing |
| Registry.AttInfoRegistry.SetAttestation | consensus/src/step_votes_reg.rs:214-241 | The whole new registry after a received attestation |
| Registry.AttInfoRegistry.GetOrInsert | consensus/src/step_votes_reg.rs:146-212 | The entry of an iteration and vote, created empty with the generator if missing |
| Registry.AttInfoRegistry.Failed | consensus/src/step_votes_reg.rs:140-144 | The search finds a ready Fail attestation if and only if there is one, and when failures are unique the result does not depend on the map's order |
| Registry.AttInfoRegistry.GetFailedAtts | consensus/src/step_votes_reg.rs:259-275 | One entry per iteration, the failed attestation with its generator, independent of the maps' order when failures are unique |
| Failures.FailuresAreReported | consensus/src/step_votes_reg.rs:99-144 | After any run fed by the aggregators, an iteration is reported as failed if and only if NoCandidate or Invalid has both tallies at the credits it needs, or NoQuorum its ratification tally, and then with that vote's two tallies and the iteration's generator |
| Failures.ReceivedIsReported | consensus/src/execution_ctx.rs:275-315 | A received Fail attestation is reported from then on, with its own votes and the iteration's generator, when no failure was known |
| Registry.InfoOfPut | consensus/src/step_votes_reg.rs:204-212 | Writing one attestation leaves those of all other iterations and votes unchanged |
| Aggregation.Aggregator.CollectVote | consensus/src/aggregator.rs:81-193 | Both maps and the result after the call, for every branch, the voter noted before the signature is added |
| Aggregation.Aggregator.AddToTally | consensus/src/aggregator.rs:139-232 | The tally with the signature aggregated and the voter added, or unchanged when the signature does not parse; the votes returned in published form |
| Aggregation.CollectEffect | consensus/src/aggregator.rs:81-193 | A call touches the tally of its own step and vote only and that only on success; a noted voter is never forgotten or overwritten |
| Aggregation.CollectSound | consensus/src/aggregator.rs:81-193 | Every call keeps all tallies inside their committees with committee weights, under a verifying aggregate of all voters, and contained in the noted voters of a normal step |
| Aggregation.AtMostOneQuorum | consensus/src/aggregator.rs:126-176 | In a normal step tallies of different votes are disjoint and no two reach their target, for every credit total |
| Aggregation.FeedSound | consensus/src/aggregator.rs:81-193 | The tallies stay sound over any run of messages |
| Aggregation.OneQuorumPerStep | consensus/src/aggregator.rs:81-193 | Over any run of messages in any order a normal step reaches at most one quorum |
| Aggregation.AggregatorMeetsVerifier | consensus/src/aggregator.rs:139-192 | Decoding published votes gives exactly the tally with its weights; the verifier accepts them with that total when the aggregator reports a quorum and answers "vote set too small" when it does not |
| Aggregation.ReportedIffEnough | consensus/src/aggregator.rs:149-192 | A taken vote is reported as a quorum, and its published votes accepted, if and only if its tally then weighs what the vote needs of the committee's credits; of 64, 43 for Valid and 33 for any other |
| Tallies.FirstVoteWins | consensus/src/aggregator.rs:122-137 | From any sound state and over any run, a member of a normal step is tallied under a vote if and only if it already was, or it was not noted and its first vote of the run is a usable one for it |
| Tallies.TallyIsFirstBackers | consensus/src/aggregator.rs:81-193 | After any run a normal step's tally is exactly the members whose first vote backs it, and a quorum is reached if and only if they weigh the target |
| Tallies.NormalVote | consensus/src/aggregator.rs:107-147 | One vote of a normal step tallies and notes its member if new, and affects nobody else |
| Tallies.NormalOutcome | consensus/src/aggregator.rs:107-140 | A normal vote is taken if and only if its signer is a member, not tallied, not noted, and the signature parses; a new signer is noted even when it does not |
| Tallies.RefusedVote | consensus/src/aggregator.rs:107-140 | Each refusal is given if and only if its reason holds and no earlier one does; a conflict names the vote noted |
| Tallies.FirstIsNoted | consensus/src/aggregator.rs:126-137 | After any run what is noted of a member of a normal step is its first vote |
| Tallies.EveryVoteCounts | consensus/src/aggregator.rs:90-147 | In an emergency step a member is tallied under a Valid vote if and only if one of its messages backs it, so it may back several |
| Tallies.QuorumIsReached | consensus/src/aggregator.rs:171-176 | Members that weigh the target and vote for one thing reach it, in any order and whatever else arrives, in normal and emergency steps |
| Liveness.QuorumIsEmitted | consensus/src/ratification/handler.rs:97-226 | A node whose local result is Valid(h) and that hears ratifications weighing a supermajority emits the Success quorum, whatever others send |
| Liveness.ResultIsReached | consensus/src/validation/handler.rs:152-217 | From any sound state in a Validation step without votes, members with a supermajority that validate h make it the result handed to Ratification, and nothing replaces it |
| Liveness.IterationSucceeds | consensus/src/consensus.rs:218-271 | From any state that keeps the invariant, in an open normal iteration without votes: when supermajorities of both committees vote for h, the node emits a Success quorum for h that passes verification on both sides |
| Liveness.NextIterationIsOpen | consensus/src/consensus.rs:207-280 | After any run from any start, the next normal iteration is such a one |
| Liveness.AllRatifications | consensus/src/ratification/handler.rs:97-226 | Over a run of ratification messages the aggregator holds exactly the ones the checks let through, and a quorum reached was emitted |
| Liveness.AllValidations | consensus/src/validation/handler.rs:152-217 | Over a run of validation messages the aggregator holds exactly the ones the checks let through, and a quorum reached is the pending result |
| Emission.EmergencyQuorumIsEmitted | consensus/src/ratification/handler.rs:129-223 | In an emergency iteration, from any local result: members with a supermajority of the credits that ratify h with validation votes that pass make the node emit a Success quorum for h that verifies, whatever else is sent |
| Emission.NormalQuorumIsEmitted | consensus/src/ratification/handler.rs:129-223 | In a normal iteration, while the local result is NoQuorum: members that weigh what a vote needs, vote for nothing else and carry validation votes that pass make the node emit its Quorum, unless a message carries votes that pass for another one; for NoQuorum votes without that condition |
| Emission.RatificationIsHeard | consensus/src/ratification/handler.rs:105-198 | The exact condition for a ratification message to be tallied, and the local result it leaves; any other message changes nothing |
| Emission.RefusalIsNamed | consensus/src/ratification/handler.rs:109-180 | A message that is not tallied is refused for the first reason that applies |
| Emission.ValidationIsHeard | consensus/src/validation/handler.rs:160-186 | The exact condition for a validation vote to be tallied, present or past |
| Emission.ResultComesOut | consensus/src/validation/handler.rs:174-303 | A validation result comes out if and only if a vote completes its tally, of a past step only for a Valid vote; it has that vote, its kind of quorum, and votes that pass |
| IterationContext.GenerateAll | consensus/src/iteration_ctx.rs:140-262 | After any sequence of requests, for any iterations a header can name, before, at or after the running one: the cache holds every requested committee, and all its committees are the from-scratch ones if and only if no request clashes |
| IterationContext.CacheExact | consensus/src/iteration_ctx.rs:151-262 | From a right cache, any requests leave a right cache if and only if none clashes |
| IterationContext.RequestExact | consensus/src/iteration_ctx.rs:247-262 | One request keeps the cache right if and only if none of its three steps clashes |
| IterationContext.StepExact | consensus/src/iteration_ctx.rs:151-245 | One step keeps it right if and only if it does not wrap onto a step number that is not cached with another kind of committee or another exclusion |
| IterationContext.ClashBelow49 | consensus/src/iteration_ctx.rs:158-165 | For step numbers of iterations below 49 a step clashes if and only if it wraps onto one that is not cached |
| IterationContext.SmallRequests | node-data/src/lib.rs:27-31 | Requests up to iteration 84 never clash, from any cache |
| IterationContext.SpoiledCache | consensus/src/execution_ctx.rs:539-546 | A request for iteration 100 before any for iteration 14 or later leaves, whatever is requested afterwards, a committee of one credit and threshold one as the Ratification committee of iteration 14 |
| IterationContext.IterationCtx.GenerateCommittee | consensus/src/iteration_ctx.rs:151-245 | The whole cache after the call, for every iteration: a cached committee is kept, otherwise the next Proposal committee is fetched where needed and the step's is drawn with the generators read off the cache |
| IterationContext.IterationCtx.GenerateIterationCommittees | consensus/src/iteration_ctx.rs:247-262 | The whole cache after the three steps, for every iteration; no lookup on the way can fail |
| IterationContext.IterationCtx.Insert | consensus/src/iteration_ctx.rs:226-245 | The committee stored does not depend on the running iteration that the configuration starts from |
| IterationContext.CachedLeader | consensus/src/iteration_ctx.rs:264-270 | In a right cache the first member of a cached Proposal committee is the generator the verifier computes |
| IterationContext.VerifyStepVotes | consensus/src/quorum/verifiers.rs:27-85 | Verification through the committee set answers as verification against the from-scratch committee of the step, and leaves the set consistent |
| IterationContext.StepCommitteeValid | consensus/src/user/committee.rs:36-58 | Every committee of a round is well formed and distributes exactly its credits |
| IterationContext.GeneratorsDoNotVote | consensus/src/iteration_ctx.rs:197-224 | The generators of this and, below iteration 49, of the next iteration are not in a voting committee when somebody else is eligible; from 49 on only the own one is excluded |
| IterationContext.ProposalLeader | consensus/src/user/provisioners.rs:235-256 | A Proposal committee has a first member and it is the generator |
| IterationContext.ExpectedAt | node-data/src/lib.rs:27-31 | As long as a step number fits eight bits it identifies iteration and step, so the cache keeps their committees apart |
| Committees.CreateNew | consensus/src/user/committee.rs:36-58 | The committee of the extracted keys, counted in a loop |
| Committees.OccurrencesCount | consensus/src/user/committee.rs:53-55 | Every key's credits are its multiplicity among the extractions and all credits add up to their number |
| Committees.NewCommitteeValid | consensus/src/user/committee.rs:36-58 | With an eligible provisioner and 1 to 64 credits: credits are positive, fit 64 bits, and sum to the committee's credits |
| Committees.GeneratorIsDrawn | consensus/src/user/provisioners.rs:235-256 | The generator is the key that the first hash of the Proposal step draws from all eligible stakes |
| Committees.BitsLoop | consensus/src/user/committee.rs:97-109 | The loop computes the bits of the members found among the voters |
| Committees.IntersectLoop | consensus/src/user/committee.rs:113-125 | The loop computes the members whose position's bit is set, with their credits |
| Committees.BitsOfIntersect | consensus/src/user/committee.rs:97-125 | For every bitset, encoding what it selects gives it back modulo two to the number of members |
| Committees.IntersectOfBits | consensus/src/user/committee.rs:97-125 | For every voter set, decoding its encoding gives its committee members with the committee's credits |
| Committees.BitsFit | consensus/src/user/committee.rs:97-109 | At most 64 members always fit the 64-bit set |
| Committees.OccurrencesOfSubmap | consensus/src/user/committee.rs:127-132 | Part of a committee is counted with exactly its own weights |
| Committees.CommitteeSet.GetOrCreate | consensus/src/user/committee.rs:160-166 | A cached committee is always the one a fresh construction gives |
| Sortition.CreateCommittee | consensus/src/user/provisioners.rs:193-233 | The loop extracts the specified keys; the running total weight equals the sum of the remaining stakes at every draw |
| Sortition.CommitteeGenerator.ExtractAndSubtractMember | consensus/src/user/provisioners.rs:309-331 | The outer loop terminates; the key drawn is the least whose prefix sum reaches the score, within the first pass when the score is at most the total; it loses at most one DUSK |
| Sortition.Pass | consensus/src/user/provisioners.rs:318-329 | One pass stops at the first member whose prefix sum reaches the score if and only if the score is at most the total, and otherwise leaves the score reduced by the total |
| Sortition.DrawFrom | consensus/src/user/provisioners.rs:318-329 | The position found is the first whose prefix sum reaches the score |
| Sortition.EveryDraw | consensus/src/user/provisioners.rs:209-229 | The j-th key is drawn by the hash of counter j, modulo their total, from the stakes that the earlier draws left |
| Sortition.FullExtraction | consensus/src/user/provisioners.rs:225-229 | With one DUSK of stake per credit the extraction never breaks off |
| Sortition.CommitteeIsFull | consensus/src/user/provisioners.rs:193-302 | With one eligible provisioner and at most 1000 credits exactly the credits are drawn, from eligible keys, and from excluded ones only when all eligible keys are excluded |
| Sortition.Candidates | consensus/src/user/provisioners.rs:265-302 | The stakes drawn from are all eligible ones that are not excluded, with their values, or all eligible ones when every one is excluded |
| Sortition.DrawsCost | consensus/src/user/stake.rs:37-50 | Every draw of a key costs its stake one DUSK, down to nothing |
| Config.ToStep | node-data/src/lib.rs:27-31 | An eight-bit step number from which iteration and step can be read back for iterations below 85 |
| Config.SameStep | node-data/src/lib.rs:27-31 | For one kind of step, the numbers of any two iterations differ, wrapped or not |
| RoundLoop.Restore | consensus/src/consensus.rs:184-204 | The loop restores the iteration after the saved one, capped at the emergency threshold, with the committees of all skipped iterations requested again in order; a right cache stays right |
| RoundLoop.NoIterationTwice | consensus/src/consensus.rs:184-279 | Over any crashes and restarts, on any tips and from any store, no iteration exceeds 49, and iterations of a tip up to 16 are executed at most once when they are contiguous |
| RoundLoop.OnceIffContiguous | consensus/src/consensus.rs:184-279 | From a store on another tip they are executed at most once if and only if no iteration of another tip is executed in between |
| RoundLoop.OnceIffStarts | consensus/src/consensus.rs:184-279 | From any store they are executed at most once if and only if the two iterations a round can start at are: zero and the one restored from that store |
| RoundLoop.IterationsInOrder | consensus/src/consensus.rs:194-279 | Over any run no iteration is skipped: each one executed on a tip is one more than the one before, the last one again, or one that a round starts at |
| RoundLoop.RestoredIter | consensus/src/consensus.rs:184-204 | On the saved tip a round starts one after the saved iteration, and at 17 when that was above 16; on any other tip at zero |
| RoundLoop.OneBallotPerIteration | consensus/src/ratification/step.rs:120-158 | When the iterations of a tip are contiguous at most one ratification vote is signed per normal iteration of it |
| RoundLoop.StepKeepsInv | consensus/src/consensus.rs:207-280 | Every spawn, crash, iteration start, vote and iteration end that keeps the tip contiguous keeps its executed iterations and signed votes behind the stored iteration |
| RoundLoop.RunLoopInv | consensus/src/consensus.rs:207-280 | The same over any sequence of events |
| RoundLoop.OtherTipRunsTwice | consensus/src/consensus.rs:184-208 | The shortest such failure: a round on another tip in between erases the record and iteration zero runs twice |
| StakeContract.UndoLogIsExact | contracts/stake/src/state.rs:60-634 | After any calls since the start of a block, current amounts overlaid with the log are exactly the amounts at that start, for every account |
| StakeContract.OverlayKept | contracts/stake/src/state.rs:88-634 | No call other than the start of a block changes the overlay of any account, logged or not |
| StakeContract.PreviousStakes | consensus/src/user/provisioners.rs:90-103 | Applying the logged changes to the current provisioners gives every key the stake it had at the block's start |
| StakeContract.PreviousEligibles | consensus/src/user/provisioners.rs:90-103 | Hence the eligible provisioners of any round are those of the block's start |
| StakeContract.ApplyIsOverlay | rusk/src/lib/node/vm.rs:298-338 | The first n changes put exactly the logged amounts over the current ones |
| StakeContract.PreviousMapExact | consensus/src/user/provisioners.rs:90-103 | After any calls of a block, applying the logged changes gives exactly the provisioner map of the block's start if and only if every key was moved an even number of times by calls that add or remove an entry without logging it |
| StakeContract.HeldChanges | contracts/stake/src/state.rs:343-500 | A call moves a key in or out of the reconstructed map if and only if the key is not logged and the call rewards an account without an entry or withdraws the last reward of an entry without an amount |
| StakeContract.HeldAfterRun | contracts/stake/src/state.rs:60-634 | Over a run a key ends up where it started if and only if it was moved an even number of times |
| StakeContract.PreviousMapCanDiffer | contracts/stake/src/state.rs:384-496 | One such reward, or one such withdrawal, makes the reconstructed map differ |
| StakeContract.ContextProvisioners.ApplyChanges | consensus/src/user/provisioners.rs:90-103 | The previous provisioners are the current ones with all changes applied in order, also when there are none |
| StakeContract.WeightIsValue | rusk/src/lib/node/vm.rs:298-338 | Sortition gets exactly the accounts whose value, without what is locked, is at least the minimum and whose eligibility has come, each with that value as weight |
| StakeContract.PreviousWeights | consensus/src/user/provisioners.rs:90-103 | The reconstructed provisioners give sortition exactly the amounts ripe at the block's start, with their values |
| StakeContract.RunConserves | contracts/stake/src/state.rs:88-661 | Over any run: balance = stakes + other receipts, deposits = stakes + unstaked + burnt, rewards issued = rewards owed + minted; so the balance covers the stakes |
| StakeContract.CallConserves | contracts/stake/src/state.rs:88-661 | Every call, accepted or rejected, keeps the three equations |
| StakeContract.StakeConserves | contracts/stake/src/state.rs:88-205 | A stake or top-up keeps the three equations, whatever part of it is locked |
| StakeContract.UnstakeConserves | contracts/stake/src/state.rs:207-341 | An unstake keeps them, whether it leaves value, locked funds or nothing |
| StakeContract.WithdrawConserves | contracts/stake/src/state.rs:343-432 | A withdrawal keeps them |
| StakeContract.RewardConserves | contracts/stake/src/state.rs:481-500 | A list of rewards keeps them, for known and unknown accounts |
| StakeContract.SlashConserves | contracts/stake/src/state.rs:517-571 | A slash moves value to locked and keeps them |
| StakeContract.HardSlashConserves | contracts/stake/src/state.rs:577-634 | A hard slash burns out of stake and balance alike and keeps them |
| StakeContract.BalanceNeverShort | contracts/stake/src/state.rs:652-661 | In an accounted state the balance covers every account and a hard slash never fails for lack of it |
| StakeContract.FullUnstake | contracts/stake/src/state.rs:207-341 | In an accounted state an owner can take out all funds; none stay behind and the reward is untouched |
| StakeContract.StakeThenUnstake | contracts/stake/src/state.rs:88-271 | Staking on a fresh account and unstaking all of it restores every stake, the balance and the overlay |
| StakeContract.PenaltySuspends | contracts/stake/src/state.rs:535-604 | After a hard slash, or a slash past the warnings, the account is not eligible for the rest of the epoch and one more |
| StakeContract.TenPercentPerFault | contracts/stake/src/state.rs:546-550 | Each fault costs ten percent of the value up to rounding to hundreds, eleven cost all of it |
| StakeContract.PenaltyIsCapped | contracts/stake/src/state.rs:546-550 | A given penalty is taken as far as the value goes |
| StakeContract.SlashExact | contracts/stake/src/state.rs:517-571 | A slash adds one fault up to 255, moves exactly the penalty of the faults beyond the warnings from value, and so from weight, to locked, suspends by that many epochs if there are any, and changes nothing else of the account |
| StakeContract.HardSlashExact | contracts/stake/src/state.rs:577-634 | A hard slash adds the severity up to 255, burns exactly the penalty of the hard faults out of the value, suspends by that many epochs, and changes nothing else of the account |
| StakeContract.NothingToSlash | contracts/stake/src/state.rs:524-590 | Penalties of an account without an amount change nothing |
| StakeContract.FaultsChange | contracts/stake/src/state.rs:481-496 | A reward clears both fault counters; nothing but slashes, rewards and the removal of the entry changes them |
| StakeContract.StakeAccepted | contracts/stake/src/state.rs:88-177 | A stake is accepted if and only if the chain and the keys are right, a first deposit reaches the minimum, and the owner asks: both signatures of an account owner, or the owning contract, with the account's signature for a first deposit |
| StakeContract.UnstakeAccepted | contracts/stake/src/state.rs:207-341 | An unstake is accepted if and only if the funds and the balance suffice, the owner asks, and an account owner leaves nothing or at least the minimum |
| StakeContract.WithdrawAccepted | contracts/stake/src/state.rs:343-432 | A withdrawal is accepted if and only if it is of some of the reward and the owner asks |
| StakeContract.FundsMove | contracts/stake/src/state.rs:88-634 | Every call changes the funds of every account by exactly what it stakes, unstakes or burns there |
| StakeContract.RewardsMove | contracts/stake/src/state.rs:343-500 | Every call changes the reward of every account by exactly what it adds or withdraws there |
| StakeContract.OnlyTheOwnerTakes | contracts/stake/src/state.rs:207-432 | If a call lowers the funds or the reward of an account it is a hard slash of it, or an unstake or withdrawal asked for by its owner |
| StakeContract.FundsAreSafe | contracts/stake/src/state.rs:88-634 | Over any run without such calls an account keeps its keys and loses neither funds nor reward |
| StakeContract.KeysKept | contracts/stake/src/state.rs:464-496 | An account keeps the keys of its first stake, or its own for a first reward, as long as it has an entry |
| StakeContract.AddFunds | contracts/stake/src/state.rs:120-139 | All of a deposit ends up as value or locked funds, a tenth of a top-up locked once the stake is eligible and nothing before; a top-up keeps the eligibility, a new stake becomes eligible one epoch after the next begins |
| StakeContract.RemoveFunds | contracts/stake/src/state.rs:245-262 | Exactly the asked amount leaves, locked funds only once the value is used up, and nothing remains exactly when all was asked |
| StakeContract.NextEpoch | core/src/stake.rs:71-76 | The next multiple of the epoch length strictly after the height |
| StakeContract.StakeState.OnNewBlock | contracts/stake/src/state.rs:60-62 | The log is cleared and nothing else changes |
| StakeContract.StakeState.StakeFunds | contracts/stake/src/state.rs:88-205 | The whole state after `stake` and `stake_from_contract`, and when they are rejected |
| StakeContract.StakeState.UnstakeFunds | contracts/stake/src/state.rs:207-341 | The whole state after `unstake` and `unstake_from_contract`, and when they are rejected |
| StakeContract.StakeState.WithdrawReward | contracts/stake/src/state.rs:343-432 | The whole state after `withdraw` and `withdraw_from_contract`, and when they are rejected |
| StakeContract.StakeState.RewardAll | contracts/stake/src/state.rs:481-500 | The whole state after the loop over all rewards |
| StakeContract.StakeState.SlashStake | contracts/stake/src/state.rs:517-571 | The whole state after `slash`, and when it is rejected |
| StakeContract.StakeState.HardSlashStake | contracts/stake/src/state.rs:577-634 | The whole state after `hard_slash`, and when it is rejected |
| NotePicker.PickLexicographic | test-wallet/src/imp.rs:1131-1167 | Terminates and returns the lexicographically first valid strictly increasing 4-tuple, or none if and only if there is none, for every length from 4 on and every predicate |
| NotePicker.Advance | test-wallet/src/imp.rs:1146-1159 | In place: the last index that can grow is advanced, the ones after it follow, those before it stay |
| NotePicker.NothingBetween | test-wallet/src/imp.rs:1146-1159 | A step skips no combination |
| NotePicker.NothingAfter | test-wallet/src/imp.rs:1161-1163 | When a step runs past the end no combination is left |
| NotePicker.PickNotes | test-wallet/src/imp.rs:1094-1129 | Up to four notes are all taken; of more, the first covering combination of the sorted notes, and none if and only if the four largest do not cover the value |
| NotePicker.LastFourAreLargest | test-wallet/src/imp.rs:1108-1117 | No combination of sorted notes is worth more than the last four |
| NotePicker.SortIsCorrect | test-wallet/src/imp.rs:1108-1109 | Sorting keeps the notes and orders them by value |
| Wire.VoteRoundTrip | node-data/src/message.rs:581-614 | Reading a written vote before any suffix gives the vote and the suffix |
| Wire.VoteCanonical | node-data/src/message.rs:581-614 | Whatever is read as a vote is exactly what writing it gives |
| Wire.HeaderRoundTrip | node-data/src/message.rs:357-380 | The same round trip for consensus headers |
| Wire.HeaderCanonical | node-data/src/message.rs:357-380 | Whatever is read as a header is what writing it gives |
| Wire.U64RoundTrip | node-data/src/lib.rs:56-59 | Eight little-endian bytes carry every 64-bit number |
| Wire.StepVotesRoundTrip | node-data/src/encoding.rs:201-221 | Round trip for step votes |
| Wire.StepVotesCanonical | node-data/src/encoding.rs:201-221 | Step votes read are what writing them gives |
| Wire.RatificationResultRoundTrip | node-data/src/encoding.rs:223-260 | Round trip for ratification results |
| Wire.AttestationRoundTrip | node-data/src/encoding.rs:176-199 | Round trip for attestations |
| Wire.AttestationCanonical | node-data/src/encoding.rs:176-199 | Attestations read are what writing them gives |
| Wire.IterationsInfoRoundTrip | node-data/src/encoding.rs:262-319 | The list of failed iterations survives the trip if and only if it has at most eight entries |
| Wire.IterationsCanonical | node-data/src/encoding.rs:281-318 | Entries read are what writing them gives |
| Wire.WriteIterationsInfoLoop | node-data/src/encoding.rs:263-279 | The appending loop writes the specified bytes, with the count cut to eight bits |
| Wire.ReadIterationsInfoLoop | node-data/src/encoding.rs:281-318 | The consuming loop reads what the specified reader reads and leaves the same rest |
| Wire.ValidationResultRoundTrip | node-data/src/encoding.rs:397-416 | Round trip for validation results |
| Wire.ValidationResultCanonical | node-data/src/message.rs:699-708 | Re-encoding a validation result read gives the same bytes if and only if the quorum byte is 0, 1, 2 or 255 |
| Wire.SignInfoRoundTrip | node-data/src/message.rs:1588-1610 | Round trip for signer and signature, for keys that decode |
| Wire.ValidationRoundTrip | node-data/src/message.rs:616-639 | Round trip for Validation messages |
| Wire.RatificationRoundTrip | node-data/src/encoding.rs:365-395 | Round trip for Ratification messages |
| Wire.QuorumRoundTrip | node-data/src/message.rs:796-813 | Round trip for Quorum messages |
| Wire.QuorumCanonical | node-data/src/message.rs:796-813 | Quorum messages read are what writing them gives |
| Wire.InvRoundTrip | node-data/src/message.rs:1065-1139 | An inventory survives the trip if and only if every entry's parameter has the kind of its type and the entries number less than two to the 32 |
| Wire.WriteInvLoop | node-data/src/message.rs:1066-1086 | The appending loop writes the specified bytes |
| Wire.ReadInvLoop | node-data/src/message.rs:1088-1138 | The consuming loop reads what the specified reader reads and leaves the same rest |
| Wire.LittleEndian | node-data/src/lib.rs:51-63 | Byte i of a written number holds its digit of weight 256 to the i |
| Wire.SignedLayout | node-data/src/message.rs:1492-1535 | The signed bytes place by place: hash, round, iteration, seed of the step, tag and hash of the vote |
| Wire.AttestationLayout | node-data/src/encoding.rs:176-260 | An attestation's bytes place by place |
| Wire.ValidationResultLayout | node-data/src/encoding.rs:397-416 | A validation result's bytes place by place |
| Wire.RatificationLayout | node-data/src/encoding.rs:365-375 | A Ratification message's bytes place by place |
| Wire.ItemLayout | node-data/src/message.rs:1070-1082 | An inventory entry is the number of its type and its parameter |
| Wire.SignableInjective | consensus/src/quorum/verifiers.rs:163-183 | Equal verified bytes mean the same header, step and vote |
| Wire.SignedBytesDetermine | node-data/src/message.rs:1492-1535 | The verifier rebuilds exactly the bytes each message signed; these bind the kind of message, the header and the vote, and neither timestamp nor validation result |
| Lux.ParseOfFormat | w3sper.js/src/lux.js:54-103 | Parsing the formatted text of any amount gives the amount back |
| Lux.FormatOfParse | w3sper.js/src/lux.js:54-103 | Parsing any accepted text of at most nine decimals and formatting gives the text without superfluous zeros |
| Lux.ParseIsExact | w3sper.js/src/lux.js:95-103 | The parsed amount is the number written if and only if there are at most nine decimals or the fraction is zero |
| Lux.DecimalIsStripped | w3sper.js/src/lux.js:65-72 | Writing the value of a digit string drops exactly its leading zeros |
| Lux.PaddedDecimal | w3sper.js/src/lux.js:69-69 | Padding the written value of a digit string to its length gives the string back |
| Timing.RoundBound | consensus/src/consensus.rs:207-280 | A round from any iteration, however its steps end, is over or in Open Consensus within 6000 seconds of its start or first slot, plus 120 for each time a Quorum ends the last iteration; 6000 seconds is less than the emergency block time |
| Timing.StepsBound | consensus/src/execution_ctx.rs:344-366 | The steps executed plus those left are at most those there were plus three for each repetition of the last iteration |
| Timing.RunBound | consensus/src/execution_ctx.rs:138-150 | Any n steps are over n maximal timeouts after the start or the first slot, and no timeout grows past the maximum |
| Timing.RoundBoundIsMet | consensus/src/config.rs:31-46 | For every number of repetitions a round attains the bound, including the 999 milliseconds a clock of whole seconds costs; so all rounds with that many repetitions are over within 150 steps if and only if there are none |
| Timing.NeverOpens | consensus/src/consensus.rs:252-279 | A round whose every step ends by a Quorum never enters Open Consensus |
| Timing.TimeoutSet.OnTimeoutEvent | consensus/src/iteration_ctx.rs:124-138 | Only the timeout of the step grows, and none past the maximum |
| Timing.TimeoutsGrow | consensus/src/iteration_ctx.rs:124-130 | After n timeouts of a step its timeout is two seconds longer for each, up to forty, and the others are unchanged |
| Timing.StepEnds | consensus/src/proposal/step.rs:125-156 | A Proposal step never ends before its slot; a message ends a step when it comes, otherwise the deadline does; only a timeout changes the timeouts |

## Left out

- The internals of BLS, SHA3 and the proof systems, and signature parsing beyond a yes or no.
- Overflow of 64-bit sums (stakes, rewards, the slash percentage, note values): amounts are unbounded; the total supply is far below the limit.
- The 32-bit floating point of `supermajority`: the integer formula gives the same value for the credits in use, 1 and 64, and the true ceiling for all others.
- Agreement across iterations or in emergency iterations: the code keeps running after a Success quorum and lets one member back several hashes there.
- The validation votes inside a NoQuorum attestation a node emits: by design they are the local ones, of whatever result.
- RoundRun.RegistryAfterRun: received vote sets are checked against the committees the node uses, where the code builds them afresh (`node/src/chain/acceptor.rs:402-443`); after a clash the code admits Quorums that these runs drop. What steps emit does not depend on them.
- RoundRun.NetworkQuorumKeepsInv: the same check; nothing else of a received Quorum, its tag included, is looked at.
- The `CommitteeNotGenerated` error and the choice of the moment at which a committee is generated: a cached committee is never replaced, so a node's round is given the committees in its cache at the end.
- `ValidationQuorum` messages, stored validation results and the candidate held by the validation handler: they feed the database and the network, not the tallies.
- Open Consensus rebroadcast, queues of future messages, networking, block acceptance and the mempool.
- Streams as shared objects: readers are functions of the bytes that remain and writers of the bytes written; update in place is kept in the four loops over lists only.
- Encodings of blocks, block headers, transactions, candidates, labels and the message envelope, which would add only similar members; `SpentTransaction`, whose reader and writer disagree on the width of an absent error (`node-data/src/encoding.rs:118-134`).
- Balances and notes inside the transfer contract, re-entrant calls and emitted contract events.
- Genesis and administrative calls of the stake contract (`insert_stake`, `set_burnt_amount`, `configure`): they may build the initial state of a run.
- The sort of the standard library: a stable insertion sort stands for it.
- The remark that `pick_notes` minimises the value employed: what is proved is the search order that its documentation describes.
- Type errors on arguments that are not big integers or strings in `lux.js`.
- Processing time and clock drift in the time bound.
