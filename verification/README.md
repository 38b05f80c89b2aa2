# Escrow verification

A Dafny model of a zero-knowledge escrow: the upgradeable contract that holds
the money, the Groth16 verifier that gates its releases, the fuzz harness that
samples its claims, and the off-chain arbiter that rules on disputes. What the
fuzzers sample is proved here for every run.

`dafny verify dfyconfig.toml` checks the whole project.

## What is modelled

**The contract** (`EscrowMachine`, `EscrowContract`, `CallTree`). `EscrowMachine`
is the contract as a step function on values: guards in source order, checked
256-bit arithmetic, emitted events, and the ETH that moves. `EscrowContract.Escrows`
is the same contract as the mutable object it is, with its mappings, its running
total and its reentrancy flag; every method is proved to do what the step
function says, and to leave nothing behind when it fails. `Calls` says outright,
argument by argument, what each call leaves and with which error it is refused. `CallTree` adds what
makes the contract hard: `withdraw` hands control to the payee, whose code may
make any calls, nested to any depth, before the transfer is accepted or rejected,
and foreign code may catch a failure and carry on. A transaction is a tree of
calls; `Observed` lists every state that any code could look at while the tree
runs, rolled-back states and the moment a callback starts included. Trees are
proved to serialise, so a property of all flat runs is a property of all trees.

**Theorems about all runs of the contract** (`Solvency`, `EventLog`, `Lifecycle`,
`Rotation`, `Payout`). Conservation of ETH; who can call what, exactly; from any
state a run that settles and pays everything, if the parties cooperate, even
where arbiters never act; the event log as a complete
account; credits as exactly the escrows won; one nullifier per release; bounded
life of an escrow; the arbiter never paid; and V2's rotation reaching no storage
that V1 could not.

**The verifier** (`Groth16Verifier`, `PairingAlgebra`, `Delivery`). The generated
program over word memory: accumulator, pairing buffer, scratch past the free
pointer, early returns. It is proved equal to a check without memory, and that
check, over abstract groups with the precompiles read as the Specification
sections of EIP-196 and EIP-197 have them, is the Groth16 equation.
`Groth16Verifier.DELIVERY_KEY` holds the generated constants. `Delivery` states
the circuit's constraints and carries them, with the verifier's range checks, to
releases over every run.

**The fuzz harness** (`Harness`, `HarnessMeaning`, `Properties`, `Selection`). A second state machine
around the first. `Properties` is the harness object with its counters and sticky
flags; `Harness` its entry points as a function, for which all seven properties
are proved after any sequence of entry points, together with an exact ledger.
`HarnessMeaning` says which calls the entry points make, what each flag would
notice of any contract, and that the counters are the storage's own numbers.

**The off-chain arbiter** (`ArbiterLoop`, `RulingRuns`, `DisputeLog`,
`EvidenceTrail`, `Executor`).
The scan cursor, the grouping of logs by escrow, the rulings a whole run sends,
and the rendering of the command line that is logged before a ruling is
broadcast.

## Assumptions

They are hypotheses of the lemmas that use them, never axioms.

- The ETH in the world fits in 256 bits (`IsGenesis`), and no ETH is created.
- Every call carries its true sender.
- `Lawful`, `ReadsNegation`, `Implements`, `KeyReads`: the group laws used, left
  linearity of the pairing, and the precompiles' specifications.
- `ReleasedWithSecrets`: each release of the run at hand was made by someone who
  knew a secret for its nullifier. `RangeChecked`: the verifier accepts no signal
  outside the field, which the modelled one does not. `Complete`: who knows a
  secret can make a proof. Nothing is assumed of Poseidon; where a collision
  would matter, the lemma says so.
- `Cooperative`: the parties of live escrows settle and payees accept, and where
  some arbiter never acts the owner and a stand-in do. The runs that empty the
  contract start from the top level, since a withdrawal inside another is refused.
- `Faithful`, `InBlockOrder`: up to the safe head the node serves one unchanging
  log in block order.

## Where comments and code differ

The model follows the code.

- src/EscrowUpgradeable.sol:208-209 and 439-440 say the credits alone equal the
  contract's ETH. `Solvency.CreditsAloneFails` gives a run of two calls where they
  do not, `CreditsAloneExactly` says exactly when they do, and
  `ConservationUnderReentrancy` is the equation that always holds: credits plus
  live escrows plus ETH forced in. `ForcedOnlyByForcing` says when the last term
  is zero.
- README.md:290 says the agent gathers every submission for an escrow. The code
  groups per scan window: `ArbiterLoop.EvidenceCanSplit` is a run in which two
  prompts get half of the evidence each, and `OnePromptHoldsAll` says of any run
  exactly when one prompt holds all that the log has for an escrow.
- agent/internal/arbiter/arbiter.go:137-143 passes over failed settlements:
  `ArbiterLoop.Arbiter.PollOnce` moves the cursor whatever the replies are.
  `RulingRuns.RuledInItsWindowOrNever` says exactly when a dispute seen in one
  window is ruled on, and `RunSends` what is sent in general.
- src/EscrowUpgradeable.sol:460-465 says no upgrade can repoint the verifier. That
  holds of the two implementations modelled, V1 and V2, which never write it.
- src/Verifier.sol:121 negates A.y without a range check. `AcceptsIsGroth16` needs
  A.y below q; `AcceptsReducedGroth16` says what is decided for every other A.y.
- A credit can be withdrawn only by a payee that accepts ETH: `PaidIffAccepted`.

## Model

| member | source | states |
|---|---|---|
| EscrowMachine.Check | src/EscrowUpgradeable.sol:449-458 | the entry checks pass exactly when the escrow exists and is in the wanted state, and then hand out that escrow |
| EscrowMachine.StepDoes | src/EscrowUpgradeable.sol:255-447 | every successful call has exactly one of seven effects, each pinning down the whole new storage, the events in order and the ETH; and it is the effect the caller asked for, with the call's own arguments in it |
| EscrowMachine.EffectTouchesOne | src/EscrowUpgradeable.sol:265-393 | a call changes at most the one escrow it is about, never an existing escrow's buyer, seller, amount or commitment, and only creation adds an escrow |
| Calls.CreationStores | src/EscrowUpgradeable.sol:265-277 | creation appends exactly the escrow asked for, by this buyer, with this seller, arbiter, amount and commitment, and logs it |
| Calls.FundingPays | src/EscrowUpgradeable.sol:283-292 | the whole new world after funding: the buyer's exact payment, state and event |
| Calls.ReleasePaysSeller | src/EscrowUpgradeable.sol:318-325 | the whole new world after a release: the seller's credit, nullifier, state and both events |
| Calls.RefundPaysBuyer | src/EscrowUpgradeable.sol:335-341 | the whole new world after a refund: the buyer's credit, state and both events |
| Calls.DisputeIsRaised | src/EscrowUpgradeable.sol:353-358 | a party's dispute moves the state and logs its own name and words, nothing else |
| Calls.EvidenceIsLogged | src/EscrowUpgradeable.sol:367-370 | further evidence logs its author and words, nothing else |
| Calls.RulingPaysWinner | src/EscrowUpgradeable.sol:386-392 | BuyerWins credits the buyer and SellerWins the seller, in full, with the rationale logged and nothing else changed |
| Calls.WithdrawalEmptiesCredit | src/EscrowUpgradeable.sol:403-412 | the whole new world after a withdrawal: all of the caller's credit, out of total and balance, into its hands |
| Calls.RotationNamesArbiter | src/EscrowUpgradeableV2.sol:53-56 | rotation installs the named arbiter, logs the old and the new, and changes nothing else |
| Calls.OutsideMoves | src/EscrowUpgradeable.sol:469-471 | an upgrade changes the implementation alone, by the owner alone; other ETH moves as sent |
| Calls.RefusedByState | src/EscrowUpgradeable.sol:449-458 | on an unknown escrow, or one in another state than the call needs, exactly that error |
| Calls.RefusedByRole | src/EscrowUpgradeable.sol:286-383 | in the right state, a caller without the role is refused as not authorised, whatever else is wrong |
| Calls.RefusedByInput | src/EscrowUpgradeable.sol:287-384 | with state and role right, a wrong amount, a spent nullifier, a refused proof, empty evidence or an empty rationale gives its own error |
| Calls.CreationRefused | src/EscrowUpgradeable.sol:259-263 | zero addresses, then repeated parties, then a zero amount |
| Calls.WithdrawalRefused | src/EscrowUpgradeable.sol:403-404 | without credit there is nothing to withdraw |
| Calls.RotationRefused | src/EscrowUpgradeableV2.sol:46-51 | the guards of rotation in order, each with its error |
| Calls.TableIsSixEdges | test/Properties.sol:716-738 | a transition is legal if and only if it stays put or is one of the six edges |
| Calls.EveryEdgeHappens | src/EscrowUpgradeable.sol:255-393 | every edge of the table is taken by some call in some reachable state, so the table permits nothing it need not |
| CallTree.Serialisation | src/EscrowUpgradeable.sol:402-413 | any nest of calls, callbacks and rollbacks leaves exactly what its committed calls leave when made one after another |
| CallTree.ObservedReachable | src/EscrowUpgradeable.sol:402-413 | every state any code can see inside a nest, the callback's entry and rolled-back states included, is one that a flat run can reach |
| CallTree.ExecConcat | src/EscrowUpgradeable.sol:402-413 | actions run one after another |
| CallTree.CallAllOrNothing | src/EscrowUpgradeable.sol:402-413 | a call takes the machine's step or leaves the world as it was, and inside a withdrawal another leaves it as it was |
| CallTree.FrameAllOrNothing | src/EscrowUpgradeable.sol:402-413 | foreign code that reverts leaves nothing, code that returns leaves all it did, and its inside is seen either way |
| CallTree.NoneWhileEntered | src/EscrowUpgradeable.sol:402 | while a withdrawal runs no other goes through, however deep it is nested |
| CallTree.OneWithdrawalEach | src/EscrowUpgradeable.sol:402-413 | an accepted withdrawal pays once and first, a rejected one commits nothing |
| CallTree.NothingUnseen | src/EscrowUpgradeable.sol:402-413 | the state each action starts from, and all seen inside it, is among the observed states |
| EscrowContract.Deploy | src/EscrowUpgradeable.sol:235-243 | a zero verifier or owner is refused; otherwise the fresh contract is the machine's genesis |
| EscrowContract.Escrows.Require | src/EscrowUpgradeable.sol:449-458 | the two checks on the stored map agree with the machine's, errors included |
| EscrowContract.Escrows.CreditPayee | src/EscrowUpgradeable.sol:441-447 | balance, running total and event move together, or the addition overflows |
| EscrowContract.Escrows.CreateEscrow | src/EscrowUpgradeable.sol:255-278 | takes the machine's step or fails with its error and changes nothing; the mapping gains exactly the escrow asked for, under the id returned |
| EscrowContract.Escrows.Fund | src/EscrowUpgradeable.sol:283-292 | as the machine's step, value moved from buyer to contract; unchanged on failure |
| EscrowContract.Escrows.Release | src/EscrowUpgradeable.sol:304-326 | as the machine's step: nullifier spent, state, credit and events; all undone if the credit overflows |
| EscrowContract.Escrows.Refund | src/EscrowUpgradeable.sol:330-342 | as the machine's step; all undone if the credit overflows |
| EscrowContract.Escrows.RaiseDispute | src/EscrowUpgradeable.sol:350-359 | as the machine's step; unchanged on failure |
| EscrowContract.Escrows.SubmitEvidence | src/EscrowUpgradeable.sol:364-371 | as the machine's step; no storage changes, the event is logged |
| EscrowContract.Escrows.ResolveDispute | src/EscrowUpgradeable.sol:380-393 | as the machine's step, all undone if the credit overflows; the buyer's balance grows by the amount on BuyerWins and the seller's on SellerWins |
| EscrowContract.Escrows.SetArbiter | src/EscrowUpgradeableV2.sol:46-57 | as the machine's step, absent from V1; unchanged on failure |
| EscrowContract.Escrows.DebitPayee | src/EscrowUpgradeable.sol:406-409 | balance zeroed, total reduced and event logged, or the subtraction underflows |
| EscrowContract.Escrows.PayOut | src/EscrowUpgradeable.sol:402-411 | refuses reentry; otherwise balance, total, event and ETH as the machine's step, or nothing |
| EscrowContract.Escrows.Withdraw | src/EscrowUpgradeable.sol:402-413 | with arbitrary code running inside it, leaves what the call tree semantics says, releases the guard, and undoes everything when the payee rejects |
| EscrowContract.Escrows.Outside | src/EscrowUpgradeable.sol:469-471 | only the owner swaps the implementation, never for the zero address, and storage stays; other ETH moves are those of the machine |
| EscrowContract.Escrows.Dispatch | src/EscrowUpgradeable.sol:255-413 | whichever function is called, the object takes the machine's guarded step |
| EscrowContract.Escrows.ExecuteOne | src/EscrowUpgradeable.sol:402-413 | one node of a call tree leaves the object as the tree semantics says |
| EscrowContract.Escrows.Execute | src/EscrowUpgradeable.sol:402-413 | any list of trees does; with the theorems on trees, they hold of the object |
| Solvency.CreditFits | src/EscrowUpgradeable.sol:441-447 | while the contract's own ETH fits in 256 bits, crediting a live escrow's amount to anyone can overflow neither the balance nor the total |
| Solvency.BalanceCovers | src/EscrowUpgradeable.sol:403-412 | no credit exceeds the running total, nor the total the ETH held |
| Solvency.StepKeepsSolvency | src/EscrowUpgradeable.sol:255-447 | one call keeps the books balanced and the world's ETH constant; while the contract's own ETH fits in 256 bits it fails for arithmetic only on creating the last id |
| Solvency.ReachableIsSolvent | src/EscrowUpgradeable.sol:255-447 | so does every run |
| Solvency.ConservationUnderReentrancy | src/EscrowUpgradeable.sol:283-447 | in every state visible inside any nest: total = sum of credits; ETH = credits + amounts of Funded or Disputed escrows + forced ETH; each credit covered; no arithmetic failure |
| Solvency.ForcedOnlyByForcing | test/Properties.sol:625-656 | without forced ETH the equality is exact; with it, the surplus only grows |
| Solvency.CreditsAloneExactly | src/EscrowUpgradeable.sol:208-210 | the commented equality holds if and only if no escrow is live and nothing was forced in |
| Solvency.CreditsAloneFails | src/EscrowUpgradeable.sol:439-440 | a run of two calls after which it does not |
| Solvency.PaidIffAccepted | src/EscrowUpgradeable.sol:402-413 | the payee's code runs with its credit gone and the ETH sent; accepting keeps that, rejecting restores everything |
| Solvency.SucceedsIffEntitled | src/EscrowUpgradeable.sol:255-413 | in every state visible inside any nest a call succeeds if and only if its caller is entitled to it by state, role and inputs and it is not a withdrawal inside another, which alone is refused as reentrant; overflow, underflow and an uncovered balance never decide |
| Solvency.ExitsStayOpen | src/EscrowUpgradeable.sol:304-413 | in every reachable state refund, dispute, proven release, ruling and withdrawal succeed for whoever is entitled to them |
| Payout.ExitSettles | src/EscrowUpgradeable.sol:330-393 | in a balanced state the seller's refund or an acting arbiter's ruling settles a live escrow, moves no ETH, and brings nobody but its parties into credit |
| Payout.RotationReplaces | src/EscrowUpgradeableV2.sol:46-57 | on V2 the owner puts the stand-in in an absent arbiter's place and changes nothing else |
| Payout.WithdrawalPays | src/EscrowUpgradeable.sol:402-413 | a payee in credit is paid all of it and nobody else's standing changes |
| Payout.CanBeEmptiedFromEither | src/EscrowUpgradeable.sol:330-413 | from a balanced state, V1 or V2, with the parties of live escrows and everyone in credit acting, a run without a call by anyone absent, each call succeeding, settles every live escrow, pays every credit and leaves only forced ETH |
| Payout.EmptiedIsPaidInFull | src/EscrowUpgradeable.sol:304-413 | then every address has been paid, over the contract's life, the full amount of each escrow it won |
| Payout.PlanIsFollowed | src/EscrowUpgradeable.sol:380-393 | over such a run the log gives every dispute that was open the planned ruling, and those rulings decide the prizes |
| Payout.AbsentArbitersStrandNothing | src/EscrowUpgradeableV2.sol:6-10 | from every state visible inside any nest, whichever arbiters never act: emptied, everyone paid in full, every dispute ruled as planned, by rotations to a stand-in (and the upgrade, from V1) |
| Payout.EverythingCanBePaidOut | src/EscrowUpgradeable.sol:304-413 | with nobody absent, refunds, rulings and withdrawals alone do it, whatever the arbiters rule |
| Payout.DisputeWaitsForItsArbiter | src/EscrowUpgradeable.sol:380-386 | without rotation, a dispute stays exactly as it is through any run in which its arbiter makes no call |
| EventLog.EffectRecorded | src/EscrowUpgradeable.sol:106-170 | folding a call's events onto the replayed view gives the new storage, and announced balances are right |
| EventLog.PrizeClaimed | src/EscrowUpgradeable.sol:304-393 | settling an escrow adds its full amount to exactly one address's winnings: the seller's on release, the buyer's on refund, the ruled side's on a ruling |
| EventLog.EffectKeepsNullifiers | src/EscrowUpgradeable.sol:311-325 | every call keeps nullifiers and releases in bijection, each accepted by the verifier for that escrow's own signals |
| EventLog.EffectKeepsWinnings | src/EscrowUpgradeable.sol:304-413 | every call keeps credit plus withdrawals equal to winnings, for every address |
| EventLog.ReachableJournal | src/EscrowUpgradeable.sol:255-447 | all of that in every reachable state |
| EventLog.JournalUnderReentrancy | src/EscrowUpgradeable.sol:255-447 | and in every state visible inside any nest, rolled-back calls taking their events with them |
| Lifecycle.EffectIsLegal | test/Properties.sol:716-738 | every escrow moves only along the transition table, only the subject of the call moves, and settled escrows are frozen |
| Lifecycle.TermsAreFixed | src/EscrowUpgradeable.sol:268-275 | over any run an escrow's terms never change, and nothing of it does once settled |
| Lifecycle.AtMostThreeMoves | src/EscrowUpgradeable.sol:283-393 | state changes of an existing escrow equal the ranks it climbed, so at most three in any run |
| Lifecycle.SuccessesAreStored | src/EscrowUpgradeable.sol:255-413 | successful creations, fundings and settlements are exactly what the storage shows; withdrawals so far plus addresses in credit never exceed settlements |
| Lifecycle.CountingBound | src/EscrowUpgradeable.sol:255-413 | withdrawals <= settlements <= fundings <= creations over any run |
| Lifecycle.ArbiterNeverProfits | src/EscrowUpgradeable.sol:373-393 | a settlement credits the whole amount to one party, who is not the escrow's arbiter, and changes no other credit; rulings come from the arbiter alone |
| Lifecycle.FormerArbiterCannotRule | src/EscrowUpgradeableV2.sol:47-54 | through any run that does not rotate the office to them, a non-arbiter's ruling fails |
| Lifecycle.ArbiterOnlyByRotation | src/EscrowUpgradeableV2.sol:46-57 | nothing but setArbiter changes an arbiter, and only to the address it names |
| Rotation.CreationFixesLast | src/EscrowUpgradeable.sol:259-275 | the arbiter an escrow ends up with would have been accepted at its creation |
| Rotation.RulingFixesLast | src/EscrowUpgradeableV2.sol:51-54 | whoever rules is the last arbiter, since nothing rotates a settled escrow |
| Rotation.RotationAddsNothing | src/EscrowUpgradeableV2.sol:46-57 | for every V2 run, the run with rotations and upgrades removed and each creation naming its last arbiter reaches the same storage |
| Rotation.RotationAddsNothingToTrees | src/EscrowUpgradeableV2.sol:46-57 | the same for every nest of calls |
| Groth16Verifier.Evm.CheckField | src/Verifier.sol:70-75 | halts with zero in the return word exactly when the signal is not below r |
| Groth16Verifier.Evm.ScratchMul | src/Verifier.sol:79-90 | leaves the product at the scratch area, or halts with zero; memory below the scratch area survives |
| Groth16Verifier.Evm.ScratchAdd | src/Verifier.sol:92-100 | adds the product to the accumulator in place, or halts with zero; nothing else below the scratch area changes |
| Groth16Verifier.Evm.G1MulAccC | src/Verifier.sol:78-101 | the accumulator gains s times the point, or the call halts exactly when a precompile fails; the free pointer survives |
| Groth16Verifier.Evm.LayOutPairs | src/Verifier.sol:119-158 | the 24 buffer words are the four pairs with -A and the accumulator in their places |
| Groth16Verifier.Evm.CheckPairing | src/Verifier.sol:103-164 | halts exactly when the linear combination fails, and otherwise returns 1 exactly when the pairing precompile answers true |
| Groth16Verifier.Evm.VerifyProof | src/Verifier.sol:68-184 | for all inputs the program returns what the memory-free check decides |
| PairingAlgebra.MulAccAdds | src/Verifier.sol:78-101 | read in the group, one accumulation adds s times the point |
| PairingAlgebra.CombinationIsPublicPoint | src/Verifier.sol:107-116 | three of them give IC0 + n IC1 + c IC2 + id IC3, and never fail on a good key |
| PairingAlgebra.PairingInputReads | src/Verifier.sol:119-158 | which of the 24 words is which point |
| PairingAlgebra.ProductOfFourPairs | src/Verifier.sol:119-163 | what the precompile multiplies, and when it fails |
| PairingAlgebra.AcceptsIsGroth16 | src/Verifier.sol:68-184 | for A.y below q, acceptance is exactly: nullifier, commitment and escrow id each below r and nothing more asked of them, points well formed, and e(A,B) = e(alpha,beta) e(X,gamma) e(C,delta) |
| PairingAlgebra.NegateTwice | src/Verifier.sol:121 | the unchecked negation always lands below q, and is an involution there |
| PairingAlgebra.NegationIsEvm | src/Verifier.sol:121 | the negation is subtraction modulo 2^256 and then modulo q |
| PairingAlgebra.JudgedByReducedY | src/Verifier.sol:121 | every proof is judged exactly as the one with its A.y reduced |
| PairingAlgebra.AcceptsReducedGroth16 | src/Verifier.sol:68-184 | so acceptance of any proof is the three comparisons and the equation for the reduced one |
| Delivery.CircuitMeansOpening | circuits/delivery.circom:22-43 | the wires can be assigned if and only if some secret opens the commitment and gives the nullifier for that escrow |
| Delivery.NullifierNamesEscrow | circuits/delivery.circom:17-21 | if one nullifier is assignable for two escrow ids, the two assignments show a Poseidon collision |
| Delivery.ProvenReleaseSucceedsUnlessCollision | src/EscrowUpgradeable.sol:311-325 | releasing a Funded escrow with an accepted proof fails if and only if a Released escrow's secret gives the same nullifier, and then as already used |
| Delivery.HonestReleaseSucceeds | src/EscrowUpgradeable.sol:311-325 | for whoever knows the escrow's secret it fails if and only if their secret and id collide under Poseidon with those of a Released escrow, whatever shares the commitment |
| Delivery.HonestProverReleases | src/EscrowUpgradeable.sol:311-325 | with a complete proof system and no such collision, they have a proof that releases the escrow |
| Delivery.DeployedChecksRange | src/Verifier.sol:169-175 | the modelled verifier accepts no signal outside the scalar field |
| Delivery.ReleasedWasProven | src/EscrowUpgradeable.sol:315-319 | a Released escrow has a proof for its own commitment and id |
| Delivery.OversizedCommitment | src/EscrowUpgradeable.sol:255-278 | with the real verifier, a commitment not below r is never released in any run, while refund, dispute and ruling stay open |
| Delivery.OversizedForDeliveryKey | src/Verifier.sol:25-60 | in particular under the generated key, for every escrow of every run |
| Harness.CallSucceeds | test/Properties.sol:287-571 | every call the harness registers as one that must succeed does |
| Harness.SuccessWasOpportunity | test/Properties.sol:680-690 | every success it counts was registered first, and exactly once |
| Harness.UnauthorizedFails | test/Properties.sol:577-598 | a buyer's ruling on its own escrow always fails |
| Harness.FlagsStayDown | test/Properties.sol:287-599 | no successful call raises any of the five sticky flags |
| Harness.PoolHoldsAll | test/Properties.sol:638-644 | summing over the pool gives the sum of all credits |
| Harness.WalkLocksAll | test/Properties.sol:646-655 | walking the created escrows gives everything locked |
| Harness.EnterKeepsSound | test/Properties.sol:287-605 | every entry point, whatever its arguments, keeps the harness and the contract in step |
| Harness.SoundMeansAll | test/Properties.sol:638-699 | in step, harness and contract meet all seven properties and the exact ledger |
| Harness.AllPropertiesHold | test/Properties.sol:638-699 | after any sequence of entry points all seven properties hold and the ledger is exact: creates = attempts, funds = opportunities, rotations = opportunities, releases + refunds + resolutions = opportunities |
| HarnessMeaning.CreationCall | test/Properties.sol:287-309 | the creation an entry point makes: buyer and seller by the role arithmetic, a third member as arbiter, 1 wei to 10 ether, the given commitment |
| HarnessMeaning.CallOnEscrow | test/Properties.sol:329-596 | the call each other entry point makes: which escrow the seed picks, which party calls, with what arguments |
| HarnessMeaning.WithdrawalCall | test/Properties.sol:602-605 | the pool member the seed picks withdraws |
| HarnessMeaning.FlagsNotice | test/Properties.sol:398-402 | whatever the contract might answer, nullifier reuse, a credited arbiter and an unauthorised ruling raise their flags, and nothing else does |
| HarnessMeaning.TransitionNoticed | test/Properties.sol:706-713 | whatever the contract might answer, a move off the six edges raises the flag, and only that does |
| HarnessMeaning.RotationNoticed | test/Properties.sol:498-514 | whatever the contract might answer, a rotation past any of its guards raises the flag, and only that does |
| HarnessMeaning.PropertiesSay | test/Properties.sol:638-699 | the seven properties are the two sums, the bound and the five flags |
| HarnessMeaning.BooksMove | test/Properties.sol:311-571 | each success moves its own counter by one and no other |
| HarnessMeaning.CountersAreTheStorage | test/Properties.sol:287-605 | after any sequence of entry points, creations, fundings, releases, refunds and rulings counted are exactly the escrows that show them, and the total funded is what was deposited |
| Properties.Properties.constructor | test/Properties.sol:191-216 | a new harness is in the state from which the seven properties are proved |
| Properties.Properties.Exec | test/Properties.sol:300-309 | a reverting call is reported and leaves the contract as it was |
| Properties.Properties.Observe | test/Properties.sol:705-713 | the observation is recorded and an illegal transition flagged |
| Properties.Properties.CreateEscrow | test/Properties.sol:287-318 | roles, bounded amount, call, counters and flags: the object becomes what the machine's entry gives |
| Properties.Properties.Fund | test/Properties.sol:329-368 | cyclic or uniform selection, guards, opportunity or probe, call and books: the object becomes what the machine's entry gives |
| Properties.Properties.Release | test/Properties.sol:376-413 | the object becomes what the machine's entry gives: opportunity judged before the call, nullifier count, arbiter's credit before and after |
| Properties.Properties.SetVerifierVerdict | test/Properties.sol:416-418 | flips the verdict and nothing else |
| Properties.Properties.Refund | test/Properties.sol:421-445 | the object becomes what the machine's entry gives for refunds, by the escrow's seller |
| Properties.Properties.RaiseDispute | test/Properties.sol:448-459 | the object becomes what the machine's entry gives for disputes, by either side |
| Properties.Properties.RotateArbiter | test/Properties.sol:476-521 | the object becomes what the machine's entry gives for rotations; the checks after a refused one never raise the flag |
| Properties.Properties.SubmitEvidence | test/Properties.sol:524-535 | the object becomes what the machine's entry gives for evidence, by either side |
| Properties.Properties.ResolveDispute | test/Properties.sol:542-574 | the object becomes what the machine's entry gives for rulings, by the escrow's arbiter |
| Properties.Properties.ResolveDisputeUnauthorized | test/Properties.sol:579-599 | the object becomes what the machine's entry gives for a ruling by the buyer, flag included if it went through |
| Properties.Properties.Withdraw | test/Properties.sol:602-605 | the object becomes what the machine's entry gives for a pool member's withdrawal |
| Selection.Bound | test/Properties.sol:794-797 | the bounded value lies in the range whenever the range is not empty |
| Selection.BoundReaches | test/Properties.sol:794-797 | every value of the range is reached, by its distance from the start and again one range further |
| Selection.SellerIsNotBuyer | test/Properties.sol:265-267 | the offset never lands back on the buyer, for any pool of at least three |
| Selection.RolesFor | test/Properties.sol:258-280 | for any pool of at least three, three distinct indices in range, the arbiter the one with exactly k remaining indices before it |
| Selection.ArbiterIsUnique | test/Properties.sol:269-279 | that describes only one index |
| Selection.PickInState | test/Properties.sol:756-770 | the loop computes the cyclic search |
| Selection.PickGoesRound | test/Properties.sol:741-745 | the uniform pick goes round the created escrows by the seed, each in its turn |
| Selection.PickIsFirstMatch | test/Properties.sol:756-770 | the search returns the first match in the list turned to start at the seed's place |
| Selection.NobodyMeansNone | test/Properties.sol:756-770 | it returns nothing if and only if no created escrow is in the wanted state |
| DisputeLog.Gather | agent/internal/chain/chain.go:127-143 | the loop succeeds exactly when every log decodes, and then map and order list hold each escrow's submissions; otherwise the first undecodable log's error |
| DisputeLog.LogsReadBack | agent/internal/chain/chain.go:153-177 | a logged DisputeRaised reads back as who raised it, over which escrow, with what words, where; short or unreadable logs give their error |
| DisputeLog.Disputes | agent/internal/chain/chain.go:114-150 | read failure and undecodable logs yield their error and no partial result; otherwise the grouping of all entries |
| DisputeLog.IdsAreFirstOccurrences | agent/internal/chain/chain.go:135-148 | the groups are exactly the ids that occur, once each, in order of first occurrence |
| DisputeLog.GroupingIsAFilter | agent/internal/chain/chain.go:130-143 | each group is the order-preserving filter of the log by its id |
| DisputeLog.GroupingIsAPermutation | agent/internal/chain/chain.go:127-149 | the groups together are a permutation of the log |
| EvidenceTrail.ServedReadsBack | agent/internal/chain/chain.go:127-150 | the contract's whole log, as served, decodes, and what the agent has for an escrow is what was submitted about it, in order |
| EvidenceTrail.PartySpeaks | src/EscrowUpgradeable.sol:350-371 | disputing or submitting evidence adds exactly the caller's words under the caller's name to that escrow's trail, and to no other |
| EvidenceTrail.DisputedIsFive | agent/internal/config/constants.go:108-111 | the number the agent compares a state with is the contract's Disputed and no other |
| ArbiterLoop.Arbiter.Settle | agent/internal/arbiter/arbiter.go:149-179 | sends a ruling exactly when the escrow reads as Disputed and a decision parses; which failures are reported |
| ArbiterLoop.Arbiter.SettleAll | agent/internal/arbiter/arbiter.go:137-141 | each dispute is settled in order, failures or not |
| ArbiterLoop.Arbiter.PollOnce | agent/internal/arbiter/arbiter.go:100-145 | cursor and window as the step function says, whatever the settlements do |
| ArbiterLoop.Arbiter.Work | agent/internal/arbiter/arbiter.go:84-97 | over any ticks from cold, cursor and windows are those of the run, and the rulings sent are those of its windows in order |
| ArbiterLoop.RulingsAreCalledFor | agent/internal/arbiter/arbiter.go:149-179 | a window sends at most one ruling per escrow, and only for one that reads as Disputed with that decision |
| RulingRuns.WindowSends | agent/internal/arbiter/arbiter.go:137-179 | a window sends an escrow at most one decision, the one made on exactly the submissions it has for it |
| RulingRuns.RunSends | agent/internal/arbiter/arbiter.go:84-145 | over any run the rulings sent for an escrow are, in order, the decisions its windows called for, at most one for each window naming it |
| RulingRuns.RuledInItsWindowOrNever | agent/internal/arbiter/arbiter.go:137-143 | a dispute all of whose entries lie in one window is judged on all its evidence, and gets a ruling in the whole run if and only if that window's reply reads Disputed and carries a decision |
| ArbiterLoop.WindowProperUnlessItWraps | agent/internal/arbiter/arbiter.go:128-129 | a window is 1 to 500 blocks within the safe head if and only if its end does not wrap |
| ArbiterLoop.CursorIsSafe | agent/internal/arbiter/arbiter.go:100-145 | for any heads and failures the windows are consecutive and disjoint, tile the blocks from the once-chosen start block to the cursor, and zero never recurs |
| ArbiterLoop.NeverPastSafeHead | agent/internal/arbiter/arbiter.go:106-129 | no scan goes past head minus two |
| ArbiterLoop.StartOfRun | agent/internal/arbiter/arbiter.go:112-122 | over any run the start block is the lookback, or 5000, behind the first head past the confirmations less two, or block 1, whatever comes later |
| ArbiterLoop.Progress | agent/internal/arbiter/arbiter.go:128-143 | at a steady head, whichever polls fail, k scans leave the cursor at min(start + 500k, safe + 1) |
| ArbiterLoop.ColdProgress | agent/internal/arbiter/arbiter.go:112-143 | the same of a whole run from an unset cursor, which stays unset until a head is read |
| ArbiterLoop.StepMoves | agent/internal/arbiter/arbiter.go:100-145 | a poll scans if and only if a head is read, the cursor is not past the safe head and the window's logs are read and decode; only then does the cursor move past it |
| ArbiterLoop.DeliveryIsTheLog | agent/internal/arbiter/arbiter.go:100-145 | over any run and any log, all from the start block to the cursor has decoded, and an escrow's delivered submissions are the log's projection on it there: none lost, doubled or reordered |
| ArbiterLoop.EntryIsDelivered | agent/internal/arbiter/arbiter.go:112-145 | every log entry from that block on has been delivered to its escrow once the cursor has passed it |
| ArbiterLoop.UndecodableHoldsTheCursor | agent/internal/arbiter/arbiter.go:132-135 | an entry that does not decode keeps the cursor at its block or before, in every run |
| ArbiterLoop.WindowsShowTheLog | agent/internal/chain/chain.go:112-150 | every window a run scans holds the grouping of exactly the log of its blocks |
| ArbiterLoop.OnePromptHoldsAll | agent/internal/chain/chain.go:112-150 | for a window of a run and any enclosing stretch of blocks: its submissions for an escrow are all there are if and only if no entry for that escrow lies outside the window's blocks |
| ArbiterLoop.EvidenceCanSplit | agent/internal/chain/chain.go:112-150 | a run, with its log, in which two windows hold one of an escrow's two submissions each |
| Executor.EscapeReadsBack | agent/internal/executor/executor.go:105-110 | every character's escape reads back as that character and no more text |
| Executor.TokenReadsBack | agent/internal/executor/executor.go:105-110 | every argument, quoted or bare, is taken back whole from the front of a line |
| Executor.RenderingReadsBack | agent/internal/executor/executor.go:93-101 | tokenising a rendered command gives back its arguments |
| Executor.RenderingIsInjective | agent/internal/executor/executor.go:93-101 | two argument lists render alike if and only if they are the same |
| Executor.Render | agent/internal/executor/executor.go:96-100 | the quoting loop's line reads back as its input |
| Executor.OnlyTheKeyIsRedacted | agent/internal/executor/executor.go:77-89 | the logged arguments are those that run, except for the last |
| Executor.DecimalReadsBack | agent/internal/executor/executor.go:82-83 | a rendered number reads back, digit by digit, as itself |
| Executor.ArgsEncode | agent/internal/executor/executor.go:77-89 | the arguments are the send of resolveDispute to this contract with this escrow id, then this ruling, then this rationale, on this endpoint and chain with this key |
| Executor.QuotedOnlyIfNeeded | agent/internal/executor/executor.go:105-110 | an argument is rendered bare if and only if it is not empty and holds none of the six characters |
| Executor.EscapesAsDocumented | agent/internal/executor/executor.go:105-107 | the escapes of control characters, quotes and backslashes are those the library documents |
| Executor.RedactedCommand | agent/internal/executor/executor.go:93-101 | the logged line reads back as the binary and the arguments that run, up to the placeholder, for every key and rationale, and as the ruling it is for |
| Executor.LineNamesTheRuling | agent/internal/executor/executor.go:77-101 | two lines agree if and only if escrow, ruling, rationale, binary, endpoint, chain and contract all do |

## Left out

- Gas: `sub(gas(), 2000)`, the 63/64 rule and out-of-gas reverts; a precompile call succeeds or fails.
- Elliptic-curve and pairing arithmetic, Poseidon, the soundness of Groth16 and the trusted setup: uninterpreted functions, with what is needed of them as stated hypotheses.
- Proxy and UUPS mechanics, initialisers, storage slots, ownership transfer, upgrade calldata: only the owner swapping V1 and V2 over unchanged storage.
- The contract's own address as a party to an escrow, and the zero address as a caller: callers are other accounts.
- The contract calling the verifier: a view, modelled as a function of proof and signals.
- Groth16Verifier.Evm.VerifyProof: asks for a word-aligned free pointer past 0x40 whose 1024 bytes do not wrap, which the compiler's prologue establishes.
- ArbiterLoop.CursorIsSafe: for heads up to 2^64 - 498, beyond which `from + 499` wraps; WindowProperUnlessItWraps is the exact condition.
- Selection.Bound: gives a value for the range 0 to 2^256 - 1, where the source's checked addition reverts; the harness never asks for it.
- Properties.Properties.constructor: takes the pool and its endowment as given; deploying actors and splitting the stake is left out.
- Harness.AllPropertiesHold: the pool members take ETH without calling back, as the harness's actors do; all counters but `ghost_createAttempts` are unbounded, and keccak256 is any function.
- The harness's description, property count and pool accessors: constants and single lookups.
- JSON and ABI decoding, prompts, decision parsing, model providers, HTTP, the ticker, signals and running `cast`: inputs to `Settle`, `PollOnce` and `Work`.
- Executor.RenderingReadsBack: on strings of Unicode scalar values, with the library's choice of printable characters arbitrary; invalid UTF-8 bytes, and what a shell would make of `$` or parentheses, are left out.
- Getters and views of the contract: single reads.
