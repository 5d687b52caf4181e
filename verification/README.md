# Hyperlane on Aleo, and the ISM artifact trees: a verified model

This project models the on-chain Hyperlane programs for Aleo, whose text is embedded in
`typescript/aleo-sdk/src/artifacts.ts` (one program per line), together with the recursive ISM
artifact code of `typescript/provider-sdk/src/ism.ts` and the fee arithmetic of
`typescript/provider-sdk/src/fee.ts`. It proves what these programs keep over every run, that the
optimized algorithms compute what their simple references say, and that the transformations of
configurations preserve meaning.

`dafny verify dfyconfig.toml` checks everything.

## How it is organised

| modules | subject |
|---|---|
| `Prelude`, `Sums`, `Bytes` | checked arithmetic and failure, sums over finite maps, positional notation |
| `Credits`, `Staking`, `Conservation`, `Unbonding`, `CreditMoves`, `CreditsProgram` | `credits.aleo`: the staking machine, accounts and records |
| `MerkleTree`, `Hooks`, `Paymaster`, `GasPayments`, `HookProgram` | `hook_manager.aleo`: the incremental tree and the gas paymasters |
| `Messages`, `Mailbox`, `MailboxProgram`, `DispatchProxy` | `mailbox.aleo` and `dispatch_proxy.aleo` |
| `Amounts`, `RouterAmounts` | the amount arithmetic of `hyp_native.aleo`, `hyp_collateral.aleo`, `hyp_synthetic.aleo` |
| `TokenRegistry`, `TokenSupply`, `TokenAuthorization`, `TokenMoves`, `TokenProgram` | `token_registry.aleo` |
| `IsmRouting` | `ism_manager.aleo` |
| `Bridge`, `BridgeSolvency`, `BridgeDelivery`, `BridgeWitness` | two chains, two routers, two mailboxes, one token: the whole bridge |
| `IsmArtifacts`, `IsmMerge`, `IsmConversion`, `IsmPaths`, `IsmRecipients`, `IsmResolution` | `ism.ts` |
| `Fee` | `fee.ts` |

Each Aleo program is a state machine on values: a `State`, a `Tx`, an `Apply` that returns `None`
when the transaction reverts, and `Run` over a sequence of transactions (with block heights where
they matter). The finalize blocks with gotos or loops are also written as methods on mutable
mappings (the `...Program` modules), each proved equal to the state machine; a revert leaves the
object as it was. Unrolled code is folded back into loops.

## What is assumed

- A transaction is atomic; a failed assert, a missing `get`, and an `add`, `sub`, `mul`, `pow` or
  `cast` out of range revert it. `shl` is kept as a checked operation: no bit is ever lost, so the
  results do not depend on what `shl` does on overflow. An `or` of disjoint words is an addition.
- keccak256 and bhp256 are functions of which nothing is known. Collision freedom is a hypothesis
  of exactly the lemmas that need it. A mapping keyed by a hash is keyed by the preimage, and an
  address derived by hashing comes from an abstract function of its preimage.
- The literal Merkle constants are the zero tower `Z[0] = 0`, `Z[i+1] = H(Z[i], Z[i])`.
- An address is a number, its 32 bytes are an abstract function of it. Private records are named by
  a serial number and are spent once.
- Program addresses never sign. What the signature checks of an ISM say is an input.
- For the bridge: both mailboxes use `dispatch_proxy.aleo`, the routers are enrolled with each
  other only, the configuration stays fixed, and each ISM accepts only ids that the other mailbox
  dispatched (it may refuse any of them).
- In `ism.ts`, `deepEquals` of normalized configurations is an arbitrary relation (reflexive where
  that is needed); a JavaScript record is a finite map, and loops over its entries go in any order.
  The chain lookups invert each other. Basis points in `fee.ts` are scaled integers.

## What turned out differently from what one might expect

- `ism_manager.aleo/verify` follows at most four routes and checks the first four ISMs only. An
  ISM that is reached after exactly four hops is looked up but not asked: `DeepChainDiffers` has
  such a graph, `DeepChainReachable` the transactions that build it, and `VerifyIsResolutionIff`
  the exact condition on the graph under which `verify` agrees with unbounded resolution.
- `hyp_native.aleo/process` of a message worth nothing fails while the router has never been
  credited, because the debit reads the account. `RedemptionPayable` has the exact condition,
  `WorthlessRedemptionFails` the instance.
- Locked credits can be stranded: if the synthetic token has more decimals than the wire, a lock
  can be worth more than a `u128` of it. `LockMintableIff` has the exact condition, `RoomForLocks`
  the decimals for which it cannot happen, `StrandedLock` an instance.
- `computeBps` can return more than the basis points that `bpsToRawFeeParams` was given, never
  less. `FeeRoundTrip` has the exact condition for equality, `FeeCanBeOverstated` an instance.
- A chain whose name is the empty string is dropped on the way back from artifacts to
  configurations, although the way there keeps it: `EmptyNameIsDropped`. `IsKnown` in
  `IsmConversion`, which says what pruning keeps, excludes it.

## Model

| member | source | states |
|---|---|---|
| `MerkleTree.InsertLeaf` | typescript/aleo-sdk/src/artifacts.ts:7 | the branch update of `post_dispatch`: a branch and count that represent the leaves represent them with the new leaf appended |
| `MerkleTree.FoldRoot` | typescript/aleo-sdk/src/artifacts.ts:7 | the root fold of `post_dispatch` yields the root of the complete tree over all leaves padded with zero leaves |
| `MerkleTree.EmptyTreeRepresents` | typescript/aleo-sdk/src/artifacts.ts:7 | the branch and root that `init_merkle_tree` stores are right for no leaves |
| `MerkleTree.AppendKeepsNode` | typescript/aleo-sdk/src/artifacts.ts:7 | a new leaf leaves every complete subtree alone |
| `MerkleTree.BeyondIsZero` | typescript/aleo-sdk/src/artifacts.ts:7 | a subtree past the last leaf is the constant of its level |
| `HookProgram.Program.InitTree` | typescript/aleo-sdk/src/artifacts.ts:7 | a new tree hook stores the empty tree and its root; fails exactly like the state machine |
| `HookProgram.Program.PostDispatchTree` | typescript/aleo-sdk/src/artifacts.ts:7 | after every insertion the stored root of depth 32 is the root of the full tree over all inserted ids, and the id is logged at its index |
| `HookProgram.Program.PostDispatch` | typescript/aleo-sdk/src/artifacts.ts:7 | the whole block, with its tree, paymaster and noop branches, implements the state machine and keeps every root right |
| `Paymaster.PaymasterInvariant` | typescript/aleo-sdk/src/artifacts.ts:7 | over every run: payment logs are dense on 0..count-1, insertion logs are exactly the leaves, and the credits of `hook_manager` cover all IGP balances together |
| `Paymaster.IgpLedger` | typescript/aleo-sdk/src/artifacts.ts:7 | over every run the balance of each IGP is the sum of its logged payments less its claims |
| `Paymaster.ClaimSucceedsIff` | typescript/aleo-sdk/src/artifacts.ts:7 | a claim goes through iff the caller owns the IGP, its balance covers the amount, the caller's account has room and, for a claim of nothing, the program has an account |
| `GasPayments.QuoteIff` | typescript/aleo-sdk/src/artifacts.ts:7 | a quote is the price iff `amount * 10^10 <= gas * gasPrice * exchangeRate < (amount + 1) * 10^10` with all products below 2^128 |
| `GasPayments.PostDispatchPrice` | typescript/aleo-sdk/src/artifacts.ts:7 | `post_dispatch` on an IGP succeeds iff the payment is exactly that price for the limit or 50,000 plus the overhead; it logs id, destination, gas and amount |
| `GasPayments.PayForGasPrice` | typescript/aleo-sdk/src/artifacts.ts:7 | `pay_for_gas` succeeds iff a configuration exists, the payment is the price of the given gas and the signer has it; it logs the same |
| `GasPayments.DispatchIsPaid` | typescript/aleo-sdk/src/artifacts.ts:6-7 | one dispatch pays both hooks their allowances from the signer, and each that is an IGP logs the exact price under the id and destination of the dispatched message |
| `GasPayments.DispatchCosts` | typescript/aleo-sdk/src/artifacts.ts:6-7 | a dispatch takes the allowances of the chosen and the required hook from the signer to `hook_manager`; no other account changes |
| `GasPayments.LastAllowance` | typescript/aleo-sdk/src/artifacts.ts:7 | the allowance of a hook is its last entry in the list, zero without one |
| `GasPayments.ClaimPays` | typescript/aleo-sdk/src/artifacts.ts:7 | a claim moves the amount from the program to the owner, off that IGP only |
| `GasPayments.FreeHooks` | typescript/aleo-sdk/src/artifacts.ts:7 | tree and noop hooks take no payment; a tree hook serves its parent only and appends and logs the id |
| `GasPayments.OwnerConfigures` | typescript/aleo-sdk/src/artifacts.ts:7 | only the owner of an IGP sets or removes a price or hands it over, with just that effect |
| `GasPayments.NewHook` | typescript/aleo-sdk/src/artifacts.ts:7 | a new hook gets a fresh address, its kind, and empty data of its creator |
| `Staking.StakingInvariant` | typescript/aleo-sdk/src/artifacts.ts:5 | over every run from no stake: delegated sums, both counters, committee = self-bonded, all minimum stakes, and withdraw's domain = bonded plus unbonding |
| `Staking.UnbondKeeps` | typescript/aleo-sdk/src/artifacts.ts:5 | unbonding keeps the invariant in all its branches, including the delegator who takes the validator out of the committee |
| `Unbonding.UnbondSucceedsIff` | typescript/aleo-sdk/src/artifacts.ts:5 | an unbond goes through iff the staker is bonded, the caller entitled and the amount covered; nothing on the way can fail |
| `Unbonding.ClaimSucceedsIff` | typescript/aleo-sdk/src/artifacts.ts:5 | a matured unbonding entry can always be claimed |
| `Unbonding.WithdrawFixed` | typescript/aleo-sdk/src/artifacts.ts:5 | the withdrawal address of a staker is fixed as long as anything is bonded or unbonding |
| `CreditMoves.UnbondTakes` | typescript/aleo-sdk/src/artifacts.ts:5 | an unbond moves exactly the amount, or the whole bond where too little would stay or the validator asks, into an entry that matures 360 blocks later; a toppled validator loses its seat and self-bond; nobody else is touched |
| `CreditMoves.ClaimPays` | typescript/aleo-sdk/src/artifacts.ts:5 | a claim pays the whole entry to the withdrawal address on record and to nobody else |
| `CreditMoves.BondSelfMoves` | typescript/aleo-sdk/src/artifacts.ts:5 | a validator bond moves the amount from the own account to the self-bond and the tally, with seat and counter |
| `CreditMoves.BondToMoves` | typescript/aleo-sdk/src/artifacts.ts:5 | a delegation moves the amount from the own account to the bond and the tally of that validator |
| `CreditMoves.ClosedToDelegators` | typescript/aleo-sdk/src/artifacts.ts:5 | a closed validator gets no new delegator, and one that is unbonding no stake of delegators |
| `CreditMoves.BondTerms` | typescript/aleo-sdk/src/artifacts.ts:5 | the limits on bonding, validator state, fees and upgrades |
| `Conservation.CreditsConserved` | typescript/aleo-sdk/src/artifacts.ts:5 | over every run accounts, bonds, unbonding entries and records together lose exactly what fees and `split` burned |
| `Conservation.UnbondTotal` | typescript/aleo-sdk/src/artifacts.ts:5 | the delegator path that falls through into validator removal conserves credits |
| `Credits.OnlySpenderDebits` | typescript/aleo-sdk/src/artifacts.ts:5 | only a transaction of its owner lowers an account |
| `Credits.TransferMoves` | typescript/aleo-sdk/src/artifacts.ts:5 | a transfer moves exactly the amount, and nothing if sender and receiver coincide |
| `CreditMoves.MoneyMoves` | typescript/aleo-sdk/src/artifacts.ts:5 | every transaction on accounts and records changes the public and private holdings of everybody by exactly what it names |
| `CreditMoves.RecordsMade` | typescript/aleo-sdk/src/artifacts.ts:5 | the records that a private transfer and a split leave |
| `CreditsProgram.UnbondDelegatorPart` | typescript/aleo-sdk/src/artifacts.ts:5 | the delegator half of `unbond_public`, with its positions, computes the structured form |
| `CreditsProgram.UnbondValidatorPart` | typescript/aleo-sdk/src/artifacts.ts:5 | the validator half, reached directly or by falling through, computes the structured form |
| `CreditsProgram.Program.BondValidator` | typescript/aleo-sdk/src/artifacts.ts:5 | `bond_validator` succeeds exactly under the stated guard and has the stated effect |
| `CreditsProgram.Program.BondPublic` | typescript/aleo-sdk/src/artifacts.ts:5 | `bond_public` succeeds exactly under the stated guard and has the stated effect |
| `CreditsProgram.Program.UnbondPublic` | typescript/aleo-sdk/src/artifacts.ts:5 | the goto program of `unbond_public` equals the structured unbond, reverts included |
| `CreditsProgram.Program.ClaimUnbondPublic` | typescript/aleo-sdk/src/artifacts.ts:5 | `claim_unbond_public` pays the withdrawal address and forgets it when nothing is bonded |
| `CreditsProgram.Program.TransferPublic` | typescript/aleo-sdk/src/artifacts.ts:5 | `transfer_public` equals the transfer of the state machine, self-transfers included |
| `Messages.SelectId` | typescript/aleo-sdk/src/artifacts.ts:12 | for every admitted length the select ladder returns the hash of exactly that prefix |
| `Messages.PrefixDetermines` | typescript/aleo-sdk/src/artifacts.ts:12 | a prefix of the encoding determines every header field and each body word it covers |
| `Messages.EncodeInjective` | typescript/aleo-sdk/src/artifacts.ts:12 | the 333-byte encoding is injective |
| `Messages.EncodeLayout` | typescript/aleo-sdk/src/artifacts.ts:12 | which of the 333 bytes hold which field, big-endian integers and little-endian body words |
| `Messages.AdmittedLengths` | typescript/aleo-sdk/src/artifacts.ts:12 | the twenty lengths that `process` admits |
| `Messages.IdIdentifies` | typescript/aleo-sdk/src/artifacts.ts:12 | under a collision-free hash a received message with the id of a sent one is that message at full length |
| `Mailbox.LogsInvariant` | typescript/aleo-sdk/src/artifacts.ts:12 | over every run: dispatch events dense on 0..nonce-1 with their nonce, the local origin and the id of their encoding; process events dense, duplicate-free and exactly the delivered ids |
| `Mailbox.RunExtends` | typescript/aleo-sdk/src/artifacts.ts:12 | no run ever changes or removes a logged dispatch, delivery or process event |
| `Mailbox.AtMostOnce` | typescript/aleo-sdk/src/artifacts.ts:12 | no two deliveries of a run have the same id |
| `Mailbox.DispatchIdsDistinct` | typescript/aleo-sdk/src/artifacts.ts:12 | different dispatches have different ids under a collision-free hash |
| `Mailbox.DeliveredIsDispatched` | typescript/aleo-sdk/src/artifacts.ts:12 | a delivery whose id is in some dispatch log is the logged message field for field |
| `Mailbox.OnlyAddressedIsDelivered` | typescript/aleo-sdk/src/artifacts.ts:12 | over every run a message is delivered only on the chain, in the version and by the program that it names, with approval |
| `Mailbox.StepDelivers` | typescript/aleo-sdk/src/artifacts.ts:12 | a step delivers a message only as a delivery of just that message, recorded with its processor and height |
| `Mailbox.FullRelayIff` | typescript/aleo-sdk/src/artifacts.ts:12 | a full relay goes through iff the message is addressed here, approved and not yet delivered |
| `Mailbox.DispatchLogs` | typescript/aleo-sdk/src/artifacts.ts:12 | the logged message has the given sender, destination, recipient and body; only the proxy dispatches |
| `Mailbox.SettersSet` | typescript/aleo-sdk/src/artifacts.ts:12 | only the owner configures, and each setter sets what it names |
| `Mailbox.InitTerms` | typescript/aleo-sdk/src/artifacts.ts:12 | a mailbox is set up once and belongs to whoever did it |
| `MailboxProgram.Program.Dispatch` | typescript/aleo-sdk/src/artifacts.ts:12 | the `dispatch` block implements the state machine |
| `MailboxProgram.Program.Process` | typescript/aleo-sdk/src/artifacts.ts:12 | the `process` block, with its length checks and select ladder, implements the state machine |
| `DispatchProxy.LeavesAreDispatches` | typescript/aleo-sdk/src/artifacts.ts:6-7 | if a tree hook is the required hook from the start and never also the selected one, its leaf k is the id of nonce k over every run |
| `Amounts.SwapSerializesBigEndian` | typescript/aleo-sdk/src/artifacts.ts:8-10 | the byte swap never overflows and serializes to the big-endian form |
| `Amounts.MulLimbsExact` | typescript/aleo-sdk/src/artifacts.ts:8-10 | limb multiplication never overflows and is exact |
| `Amounts.DivLimbsExact` | typescript/aleo-sdk/src/artifacts.ts:8-10 | limb long division never overflows and yields the exact quotient and remainder |
| `RouterAmounts.OutboundExact` | typescript/aleo-sdk/src/artifacts.ts:8-10 | `transfer_remote` never fails on its arithmetic and its words spell the scaled amount |
| `RouterAmounts.InboundExact` | typescript/aleo-sdk/src/artifacts.ts:8-10 | `process` yields the floor-scaled amount if it is a `u128` and fails otherwise |
| `RouterAmounts.AmountRoundTrip` | typescript/aleo-sdk/src/artifacts.ts:8-10 | sending x and processing it yields x less x mod 10^max(0, local-remote); both directions succeed |
| `RouterAmounts.NativeOutboundExact` | typescript/aleo-sdk/src/artifacts.ts:9 | `transfer_remote` of the native router sends exactly x times the scale |
| `RouterAmounts.NativeInboundExact` | typescript/aleo-sdk/src/artifacts.ts:9 | `process` of the native router pays the floor of the wire amount over the scale, if that is a `u64` |
| `RouterAmounts.NativeRoundTrip` | typescript/aleo-sdk/src/artifacts.ts:9 | the native round trip is exact for every `u64` |
| `TokenSupply.SupplyInvariant` | typescript/aleo-sdk/src/artifacts.ts:13 | over every run each supply equals balances plus authorized balances plus live records, is at most its maximum, tokens without external authorization have no `balances` entry, and records carry their token's flag |
| `TokenSupply.ApplyKeeps` | typescript/aleo-sdk/src/artifacts.ts:13 | every one of the twenty-one transactions keeps that invariant |
| `TokenSupply.EmptyInv` | typescript/aleo-sdk/src/artifacts.ts:13 | the empty registry satisfies it |
| `TokenAuthorization.TransfersSucceedIff` | typescript/aleo-sdk/src/artifacts.ts:13 | each of the six transfers goes through iff the sender has what it sends (authorized balance or record, not expired, and the allowance): no credit ever overflows, whoever receives it |
| `TokenAuthorization.TransferSucceedsIff` | typescript/aleo-sdk/src/artifacts.ts:13 | the public transfer goes through iff the sender can be debited, self-transfers included |
| `TokenAuthorization.PrivateToPublicSucceedsIff` | typescript/aleo-sdk/src/artifacts.ts:13 | `transfer_private_to_public` goes through iff the record exists, covers the amount and has not expired |
| `TokenAuthorization.SelfTransferIsNeutral` | typescript/aleo-sdk/src/artifacts.ts:13 | a self-transfer of a token without external authorization changes nothing |
| `TokenAuthorization.OutflowIsAuthorized` | typescript/aleo-sdk/src/artifacts.ts:13 | for a token with external authorization, cumulative public outflow never exceeds what `prehook_public` authorized |
| `TokenMoves.EveryMove` | typescript/aleo-sdk/src/artifacts.ts:13 | each of the twenty-one transactions changes the balance, authorized balance and records of every holder by exactly what it names: what leaves the sender reaches the receiver, where the token flag says |
| `TokenMoves.TermsMove` | typescript/aleo-sdk/src/artifacts.ts:13 | allowances fall by what their spender transfers, supplies change by mint and burn only |
| `TokenMoves.ReceivedRecord` | typescript/aleo-sdk/src/artifacts.ts:13 | the record that the receiver of a private transfer gets, expired at once if the token asks for authorization |
| `TokenMoves.JoinedRecord` | typescript/aleo-sdk/src/artifacts.ts:13 | joined records add up and expire with the earlier one |
| `TokenMoves.SplitRecords` | typescript/aleo-sdk/src/artifacts.ts:13 | the parts of a split keep everything but the amount |
| `TokenMoves.MintPublicIff` | typescript/aleo-sdk/src/artifacts.ts:13 | minting needs admin, minter or supply manager and room below the maximum |
| `TokenMoves.BurnPublicIff` | typescript/aleo-sdk/src/artifacts.ts:13 | burning needs admin, burner or supply manager and holdings that cover the amount |
| `TokenMoves.PrehookPublicIff` | typescript/aleo-sdk/src/artifacts.ts:13 | only the external party authorizes, up to what is left or has lapsed |
| `TokenMoves.PrehookPrivateIff` | typescript/aleo-sdk/src/artifacts.ts:13 | only the external party authorizes a record, and dates the authorized part |
| `TokenMoves.ManagementTerms` | typescript/aleo-sdk/src/artifacts.ts:13 | who registers, manages and gives roles, and what that changes |
| `TokenProgram.Program.TransferPublic` | typescript/aleo-sdk/src/artifacts.ts:13 | the transfer block implements the state machine |
| `TokenProgram.Program.BurnPublic` | typescript/aleo-sdk/src/artifacts.ts:13 | the burn block, its role check and its split over both balances implement the state machine |
| `TokenProgram.Program.PrehookPublic` | typescript/aleo-sdk/src/artifacts.ts:13 | the prehook block, with the reflow of expired authorizations, implements the state machine |
| `IsmRouting.ReachableKinds` | typescript/aleo-sdk/src/artifacts.ts:11 | in every reachable state each ISM has one kind, data of that kind, and routes only if it routes |
| `IsmRouting.Verify` | typescript/aleo-sdk/src/artifacts.ts:11 | the loop form of `verify` accepts iff the first four nodes accept or route and the next one is a registered non-routing ISM |
| `IsmRouting.VerifyAlongRoute` | typescript/aleo-sdk/src/artifacts.ts:11 | along a route of any length: up to three hops `verify` accepts iff the last ISM is a noop or a multisig with at least threshold of its six slots signed; at four iff it is registered; beyond never |
| `IsmRouting.SignaturesCountSlots` | typescript/aleo-sdk/src/artifacts.ts:11 | the count is the number of different slots that verify |
| `IsmRouting.OwnerRoutes` | typescript/aleo-sdk/src/artifacts.ts:11 | only the owner of a routing ISM changes its routes or hands it over, with just that effect |
| `IsmRouting.NewIsm` | typescript/aleo-sdk/src/artifacts.ts:11 | a new ISM is registered under its kind with its own data; 1 <= threshold <= count <= 6 |
| `IsmRouting.WithinThreeHops` | typescript/aleo-sdk/src/artifacts.ts:11 | if resolution ends after at most three hops, `verify` accepts iff the resolved ISM accepts |
| `IsmRouting.AtFourHops` | typescript/aleo-sdk/src/artifacts.ts:11 | at four hops `verify` accepts iff the ISM is registered |
| `IsmRouting.BeyondFourHops` | typescript/aleo-sdk/src/artifacts.ts:11 | beyond four hops `verify` rejects |
| `IsmRouting.NeverResolved` | typescript/aleo-sdk/src/artifacts.ts:11 | if resolution never leaves routing ISMs, `verify` rejects |
| `IsmRouting.MissingRouteRejects` | typescript/aleo-sdk/src/artifacts.ts:11 | a missing route is rejected |
| `IsmRouting.VerifyIsResolutionIff` | typescript/aleo-sdk/src/artifacts.ts:11 | `verify` agrees with unbounded resolution whatever is signed, iff resolution does not end at a registered ISM beyond four hops or at a multisig at four |
| `IsmRouting.DeepDiffers` | typescript/aleo-sdk/src/artifacts.ts:11 | on every other graph, metadata without signatures or with all of them makes the difference |
| `IsmRouting.DeepChainDiffers` | typescript/aleo-sdk/src/artifacts.ts:11 | a graph on which `verify` accepts and the resolved ISM does not |
| `IsmRouting.DeepChainReachable` | typescript/aleo-sdk/src/artifacts.ts:11 | nine transactions build that graph from the empty program |
| `BridgeSolvency.BridgeSolvent` | typescript/aleo-sdk/src/artifacts.ts:9-13 | over every run of both chains: in wire units the credits of the native router cover the synthetic supply and everything in flight both ways, and whatever arrived at a router had been dispatched by the other chain |
| `BridgeDelivery.RedemptionPayable` | typescript/aleo-sdk/src/artifacts.ts:9-12 | an undelivered redemption can be delivered iff its recipient decodes, the process counter is free and, if it is worth nothing, the router has an account; its worth is never the obstacle, and exactly the floor of its wire amount over the scale is paid |
| `BridgeWitness.WorthlessRedemptionFails` | typescript/aleo-sdk/src/artifacts.ts:9-12 | on a fresh bridge a burn of zero succeeds and the release of its message reverts |
| `BridgeDelivery.RedemptionCovered` | typescript/aleo-sdk/src/artifacts.ts:9-12 | no undelivered redemption is worth more than the router holds |
| `BridgeDelivery.BurnIsRedeemable` | typescript/aleo-sdk/src/artifacts.ts:10 | every burn opens an undelivered redemption with the chosen recipient, worth the burned amount rounded down |
| `BridgeDelivery.LockIsMintable` | typescript/aleo-sdk/src/artifacts.ts:9 | every lock sends an undelivered message with the chosen recipient and exactly the locked value |
| `BridgeDelivery.LockTakes` | typescript/aleo-sdk/src/artifacts.ts:9 | a lock takes the amount and the price of the chosen hooks from the signer; the router gets exactly the amount; no other account changes |
| `BridgeDelivery.BurnTakes` | typescript/aleo-sdk/src/artifacts.ts:10 | a burn takes the amount from the signer's holdings of the token and from nobody else's |
| `BridgeDelivery.LockMintableIff` | typescript/aleo-sdk/src/artifacts.ts:10-13 | an undelivered lock can be minted iff its recipient decodes, the process counter is free and the maximum supply leaves room; then exactly its value is minted for that recipient |
| `BridgeDelivery.RoomForLocks` | typescript/aleo-sdk/src/artifacts.ts:9-13 | if the token has no more decimals than the wire and the maximum supply that `init` registers, the supply always leaves room for every undelivered lock |
| `BridgeDelivery.TooLargeNeverMints` | typescript/aleo-sdk/src/artifacts.ts:10 | a lock worth 2^128 or more units of the token is never minted, by any relay in any state |
| `BridgeWitness.StrandedLock` | typescript/aleo-sdk/src/artifacts.ts:9-10 | 100 microcredits locked at scale 19 for a token with 18 more decimals than the wire are stranded |
| `BridgeDelivery.OpenIsReceived` | typescript/aleo-sdk/src/artifacts.ts:9-12 | the mailbox takes every undelivered router message iff its process counter is free |
| `BridgeDelivery.MintSucceedsIff` | typescript/aleo-sdk/src/artifacts.ts:13 | minting by the admin fails for the maximum supply only |
| `BridgeSolvency.UnusedIsSolvent` | typescript/aleo-sdk/src/artifacts.ts:9-13 | a bridge that was set up and not used satisfies the invariant |
| `BridgeWitness.BridgeExists` | typescript/aleo-sdk/src/artifacts.ts:9-13 | for every admitted scale and decimals a collision-free hash and a fresh bridge meet the hypotheses of the bridge theorems |
| `BridgeWitness.RoundTripSucceeds` | typescript/aleo-sdk/src/artifacts.ts:9-13 | on it lock, mint, burn and release of any amount that the user has all succeed in turn |
| `BridgeSolvency.LockKeeps` | typescript/aleo-sdk/src/artifacts.ts:9 | `transfer_remote` of `hyp_native`, hooks and their payment included, keeps the bridge invariant |
| `BridgeSolvency.MintKeeps` | typescript/aleo-sdk/src/artifacts.ts:10 | `process` of `hyp_synthetic` keeps it |
| `BridgeSolvency.BurnKeeps` | typescript/aleo-sdk/src/artifacts.ts:10 | `transfer_remote` of `hyp_synthetic` keeps it |
| `BridgeSolvency.ReleaseKeeps` | typescript/aleo-sdk/src/artifacts.ts:9 | `process` of `hyp_native` keeps it |
| `BridgeSolvency.LedgerFrame` | typescript/aleo-sdk/src/artifacts.ts:13 | nobody but the router changes the supply, the admin or the roles of the synthetic token |
| `BridgeSolvency.OtherQuiet` | typescript/aleo-sdk/src/artifacts.ts:5-12 | steps of others leave the router's messages, arrivals and funds alone |
| `IsmMerge.MergeIsmArtifacts` | typescript/provider-sdk/src/ism.ts:362-478 | the recursive merge with its loop over domains computes the merge function, read-only ISM types refused |
| `IsmMerge.MergePreservesMeaning` | typescript/provider-sdk/src/ism.ts:362-478 | erasing states and addresses, the merged tree is the expected tree |
| `IsmMerge.MergeIdempotent` | typescript/provider-sdk/src/ism.ts:362-478 | merging the merged tree again changes nothing |
| `IsmMerge.AddressProvenance` | typescript/provider-sdk/src/ism.ts:362-478 | a node that was wanted new is deployed in the merge iff the nodes along its path are all reusable; then a deployed node of the same type, equal if static, sits at the same path on chain and its address is taken |
| `IsmMerge.DeployedKeepTheirAddress` | typescript/provider-sdk/src/ism.ts:362-478 | a node that was wanted deployed becomes new iff the merge comes to it, finds a deployed node there and that one has another type or another static configuration; otherwise it keeps its own address; bare addresses and nodes not come to stay as they are |
| `IsmMerge.MergeWithOwnCopy` | typescript/provider-sdk/src/ism.ts:326-478 | a supported tree without new nodes, merged with a new copy of itself, is returned unchanged |
| `IsmMerge.MergeFailsIff` | typescript/provider-sdk/src/ism.ts:362-478 | the merge fails iff it comes, through reused routing nodes, to an aggregation or pausable node; such nodes elsewhere do not matter |
| `IsmMerge.SupportedMerges` | typescript/provider-sdk/src/ism.ts:362-478 | in particular a tree without such nodes always merges |
| `IsmMerge.WritableTypes` | typescript/provider-sdk/src/ism.ts:330-333 | the two types that the merge refuses |
| `IsmArtifacts.TypesByName` | typescript/provider-sdk/src/ism.ts:33-62 | types compare by name, and which are static |
| `IsmArtifacts.NoNewByPath` | typescript/provider-sdk/src/ism.ts:873-908 | a tree passes the no-new-descendants check iff no path leads to a new node |
| `IsmConversion.ConvertDomains` | typescript/provider-sdk/src/ism.ts:511-598 | the loop over the domains of a composite node, in either direction, computes the conversion of the table and skips unknown keys |
| `IsmConversion.CompositeRoundTrip` | typescript/provider-sdk/src/ism.ts:511-598 | on every composite tree, converting there and back is exactly pruning of unknown chains, in both orders |
| `IsmPaths.ConvertAlongPath` | typescript/provider-sdk/src/ism.ts:511-598 | one way: along every path of known chains the converted composite tree has a node iff the original has, of the same type and with the same own fields |
| `IsmPaths.ConvertedComesFrom` | typescript/provider-sdk/src/ism.ts:511-598 | and every node of the converted tree comes from such a path |
| `IsmPaths.ArtifactAlongPath` | typescript/provider-sdk/src/ism.ts:1295-1371 | one way: along every path of known chains the artifact has a node iff the configuration has, bare addresses underived, all else new, of the same type and with the same own fields |
| `IsmPaths.ArtifactComesFrom` | typescript/provider-sdk/src/ism.ts:1295-1371 | and every node of the artifact comes from such a path |
| `IsmConversion.ConvertChains` | typescript/provider-sdk/src/ism.ts:1295-1371 | the loop over the chains of a routing configuration computes its artifact |
| `IsmConversion.DeriveChains` | typescript/provider-sdk/src/ism.ts:1172-1260 | the loop over the domains of a routing artifact computes its derived configuration, or fails on a new nested ISM |
| `IsmConversion.ConversionRoundTrip` | typescript/provider-sdk/src/ism.ts:1172-1371 | after any address-assigning deployment of a converted configuration, the derived configuration is the original one, pruned, and carries the deployed address |
| `IsmConversion.EmptyNameIsDropped` | typescript/provider-sdk/src/ism.ts:1172-1371 | a chain with an empty name is kept on the way there and dropped on the way back |
| `IsmRecipients.NormalizeTwice` | typescript/provider-sdk/src/ism.ts:776-789 | a normalized recipient is its own normal form |
| `IsmRecipients.NormalForm` | typescript/provider-sdk/src/ism.ts:776-789 | exactly 0x and 64 hexadecimal digits have a normal form, with the same value and no capital letter |
| `IsmRecipients.NormalizeIsValue` | typescript/provider-sdk/src/ism.ts:776-789 | two recipients normalize alike iff they are the same 32-byte value |
| `IsmRecipients.ResolveNode` | typescript/provider-sdk/src/ism.ts:796-1008 | for a well-formed router: resolution succeeds iff every explicit recipient normalizes to it, changes recipients only, is idempotent, and passes the matching traversal; a tree matches iff it resolves and misses no recipient |
| `IsmRecipients.ResolveDomainRecipients` | typescript/provider-sdk/src/ism.ts:993-1008 | the loop over the domains of a composite node computes the resolution of the table |
| `IsmResolution.ResolutionOfConfig` | typescript/provider-sdk/src/ism.ts:840-1170 | the same for whole configurations, through aggregations, routing ISMs and composite trees |
| `IsmResolution.ResolveRoutes` | typescript/provider-sdk/src/ism.ts:1126-1170 | the loop over the domains of a routing ISM computes its resolution |
| `IsmResolution.ResolutionOfNew` | typescript/provider-sdk/src/ism.ts:1026-1059 | a new ISM resolves iff no recipient is foreign and none is missing behind a deployed routing descendant |
| `IsmResolution.ResolveNewRoutes` | typescript/provider-sdk/src/ism.ts:1026-1059 | the loop over the domains of a new routing ISM computes its resolution |
| `IsmResolution.ResolvedArtifact` | typescript/provider-sdk/src/ism.ts:1081-1124 | for create and update: state and address stay, only recipients differ, the result matches the router and resolving it again changes nothing |
| `IsmResolution.ResolvesIff` | typescript/provider-sdk/src/ism.ts:1081-1110 | when a new or deployed artifact resolves on create and on update |
| `IsmResolution.ReferencesArePreserved` | typescript/provider-sdk/src/ism.ts:1026-1059 | deployed descendants on routing paths of new ISMs are preserved verbatim |
| `Fee.FeeRoundTrip` | typescript/provider-sdk/src/fee.ts:280-310 | the basis points read back are never below those set, equal iff maxFee * 10^8 < 2 * halfAmount * (bps + 1), and equal whenever halfAmount >= bps + 5 * 10^7 |
| `Fee.RawFeeIs` | typescript/provider-sdk/src/fee.ts:295-310 | the raw parameters are the largest that fit, and when they are refused |
| `Fee.FeeCanBeOverstated` | typescript/provider-sdk/src/fee.ts:280-310 | an instance where 100% comes back as 150% |

## Left out

- `validator_announce.aleo`: one replay guard and a counter, easy next to the rest.
- The `*_iter` lists and `*_length` counters of the Aleo programs, `last_event_index`, and the
  address-by-nonce mappings: bookkeeping for indexers that no other block reads.
- Token names and symbols, and the `Metadata` and `RemoteRouter` setters of the routers: the bridge
  theorem is about a fixed configuration.
- Finalize blocks of `credits.aleo`, `token_registry.aleo`, `hook_manager.aleo` and
  `mailbox.aleo` other than those in the `...Program` modules are modelled on values only; they are
  short and without branches, so nothing about update in place or order is lost but the form.
- The `function` blocks that only pass their inputs to a future, and `hyp_collateral.aleo` beyond
  its amount arithmetic: its token moves are those of `token_registry.aleo`.
- keccak256, bhp256 and ECDSA, the EIP-191 digest, the layout of the ISM metadata, and the numeric
  value of the Merkle constants.
- Whether a 253-bit string is an address on the curve: an input of the bridge.
- Staking rewards, genesis balances and other changes that the ledger makes outside the programs.
- In `ism.ts`: the mailbox-default check, the unset-recipient check on create, the error messages,
  and extra properties that JavaScript objects may carry along. The conversions and resolutions
  recurse through functions; their loops over domains are methods.
- In `fee.ts`: floating-point rounding, route conversion, and the merge of fee artifacts, which is
  the non-recursive case of the ISM merge.
- Servers, command line, infrastructure scripts, metrics, registries and everything else in the
  repository.
