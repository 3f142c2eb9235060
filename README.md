# Blood-transfer ledger, modelled in Dafny

This project models the ledger engine of a blood-transfer blockchain: hospitals
holding typed blood inventories, blood credits and a trust state (tampering
credits, reputation, blacklist); a smart contract that validates a transfer
against an ordered list of rules and, once the transfer is mined, moves units and
credits; a pool of pending transaction records; and a hash-linked chain of blocks
sealed with a Merkle root and a proof of work, with the chain-validation walk
and the statistics over store and chain. The blood-type compatibility matrix and
the per-environment configuration switch are modelled too.

Layout (one module per component):

- `records.dfy` (`Records`): hospital records, the four transaction kinds, blocks with an optional
  stored hash, and the uninterpreted primitives (SHA-256, JSON serialisation of blocks and records).
- `decimal.dfy` (`Decimal`): Python's `str` of an integer, with its parsing inverse.
- `contract.dfy` (`Contract`): `validate_blood_transfer` and `execute_blood_transfer`.
- `trust.dfy` (`Trust`): the tampering penalty and the trust invariant.
- `work.dfy` (`Work`): the proof-of-work predicate.
- `merkle.dfy` (`Merkle`): the Merkle root as a recursive definition.
- `chain.dfy` (`Chain`): block hashing, genesis, well-formed chains, and the chain check.
- `mining.dfy` (`Mining`): batching of the pool, and applying a block's transfers.
- `stats.dfy` (`Stats`): unit totals, active/blacklisted counts, mention counts.
- `ledger.dfy` (`Ledger`): the `BloodTransferBlockchain` class, whose methods change the chain,
  the pool and the hospital map in place, each proved against the functions above.
- `config.dfy` (`BloodConfig`): the compatibility table and the environment switch of `config.py`.
- `scenario.dfy` (`Scenario`): register, stock, propose, pool and mine, end to end.

Hospital records are values (`HospitalNode`) in the ledger's `hospitals` map; a
transfer is two sequential map updates, the receiver being read back after the
sender's update, so a transfer from a hospital to itself behaves as in the
source. Inventories, credits and counters are unbounded `int`: nothing in the
source keeps them non-negative, and a mined transfer is not re-validated, so a
stock can go negative (`Contract.StaleValidationOverdraws`).

The ledger hard-codes its own constants (minimum 10 credits, maximum 100.0 km,
cost 5, reward 2, 10 transactions per block, difficulty 4); the model uses
those, not the values of the configuration classes.

## Model

| member | source | states |
|---|---|---|
| `Decimal.DecimalRoundTrip` | blood_transfer_blockchain.py:337 | the decimal text of an integer used in the proof-of-work guess parses back to that integer |
| `Decimal.DecimalInjective` | blood_transfer_blockchain.py:337 | distinct integers give distinct decimal texts |
| `Decimal.NatStringRoundTrip` | blood_transfer_blockchain.py:337 | a natural number's digits start with a digit and parse back to the number |
| `BloodConfig.GetCompatibleRecipients` | config.py:73-76 | the list is non-empty exactly for the eight known donor types; an unknown donor gets the empty list |
| `BloodConfig.IsCompatible` | config.py:78-81 | `is_compatible(d, r)` holds exactly when r is in `get_compatible_recipients(d)`, so never for an unknown donor |
| `BloodConfig.UniversalDonor` | config.py:53 | O- lists 8 recipients and is compatible with exactly the eight known types |
| `BloodConfig.DonatesToSelfAndToABPositive` | config.py:52-61 | every listed type can give to itself and to AB+ |
| `BloodConfig.KnownIncompatibilities` | config.py:56-60 | A+ cannot give to B+ and AB+ cannot give to O+ |
| `BloodConfig.CompatibilityIsAntigenInclusion` | config.py:52-61 | the table is exactly "the recipient carries every A, B and RhD antigen the donor carries", over the eight types |
| `BloodConfig.RowsListKnownTypes` | config.py:52-61 | every recipient a row lists is one of the eight known types |
| `BloodConfig.RowIsAntigenInclusion` | config.py:52-61 | a known donor's row lists exactly the known types carrying every antigen of the donor |
| `BloodConfig.GroupORowsAndA` | config.py:53-56 | the O-, O+, A- and A+ rows list exactly the types carrying the donor's antigens |
| `BloodConfig.GroupBRowsAndAB` | config.py:57-60 | the B-, B+, AB- and AB+ rows list exactly the types carrying the donor's antigens |
| `BloodConfig.GetConfig` | config.py:116-125 | the result is always one of the three environment configurations |
| `BloodConfig.EnvironmentSwitch` | config.py:96-125 | "production" gives difficulty 6 with TLS, "testing" difficulty 1 without, any other non-empty name the development settings (difficulty 2) |
| `BloodConfig.DefaultIsDevelopment` | config.py:118 | an empty name with FLASK_ENV unset falls back to development, difficulty 2 |
| `Contract.ValidateBloodTransfer` | blood_transfer_blockchain.py:63-88 | accepts exactly when neither hospital is blacklisted, the sender has at least 10 credits and an entry of the type holding at least the quantity, and the distance is at most 100.0 km; a rejection names a violated rule |
| `Contract.Debit` | blood_transfer_blockchain.py:95-98 | the sender keeps its inventory keys, loses the quantity of the type, 5 credits and counts one more sent; every other field and entry is unchanged |
| `Contract.Credit` | blood_transfer_blockchain.py:100-105 | the receiver's inventory gains the type as a key if absent and the quantity on top of its units (0 if absent), 2 credits and one more received; every other field and entry is unchanged |
| `Contract.ExecuteTransfer` | blood_transfer_blockchain.py:91-110 | succeeds exactly when the sender has an entry for the type; then no hospital is added or removed and every hospital other than sender and receiver is unchanged |
| `Contract.FirstViolated` | blood_transfer_blockchain.py:63-88 | the position of the first violated rule in a list: none exactly when no rule is violated, otherwise a violated rule with none before it |
| `Contract.VerdictIsFirstViolation` | blood_transfer_blockchain.py:63-88 | validation accepts exactly when none of the five rules (sender blacklisted, receiver blacklisted, credits < 10, type missing or stock < quantity, distance > 100.0) is violated, and otherwise rejects with the first violated one in that order |
| `Contract.BlacklistedSenderTakesPrecedence` | blood_transfer_blockchain.py:67-76 | a blacklisted sender is rejected for the blacklist whatever else is wrong, low credits included |
| `Contract.TransferBetweenDistinct` | blood_transfer_blockchain.py:91-110 | between distinct hospitals the sender loses q units, 5 credits and counts one more sent; the receiver gains q units (entry created at 0), 2 credits and counts one more received; other types and other hospitals are unchanged; the sender's inventory keys stay, the receiver's gain the type, and no other field of either changes |
| `Contract.TransferToSelf` | blood_transfer_blockchain.py:91-110 | a transfer from a hospital to itself leaves its inventory as it was, costs 3 credits net and counts as both sent and received, its other fields unchanged |
| `Contract.TransferWithoutEntryFails` | blood_transfer_blockchain.py:94-96 | the transfer fails (and changes nothing) exactly when the sender has no entry for the type |
| `Contract.DebitUnits` | blood_transfer_blockchain.py:95-98 | the sender's update lowers the system's total units by the quantity |
| `Contract.CreditUnits` | blood_transfer_blockchain.py:100-105 | the receiver's update raises the system's total units by the quantity |
| `Contract.TransferConservesUnits` | blood_transfer_blockchain.py:96-103 | a successful transfer leaves the total units over all hospitals unchanged |
| `Contract.AcceptedTransferExecutes` | blood_transfer_blockchain.py:63-110 | a transfer accepted against a state executes on that state, sender and receiver distinct or not, and leaves the sender with at least 5 credits; its stock of the type stays non-negative unless it sends a negative quantity to itself |
| `Contract.AcceptedSelfTransferKeepsNegativeStock` | blood_transfer_blockchain.py:63-110 | a self-transfer of -5 units on a stock of -3 is accepted and leaves the stock at -3 |
| `Contract.StaleValidationOverdraws` | blood_transfer_blockchain.py:373-380 | two transfers of 6 units each accepted against a stock of 10 both execute when mined, leaving the sender at -2 |
| `Records.NewHospitalNode` | blood_transfer_blockchain.py:31-43 | a new record carries the given id, name, location and credits, an empty inventory, no blacklist, reputation 100, 2 tampering credits and zero transfer counts |
| `Trust.Penalized` | blood_transfer_blockchain.py:305-311 | one tampering credit is lost; reputation drops by 15 or to 0, never below 0 and never up from a non-negative score; blacklisted exactly when it was or the credits reach 0 or below; no other field changes |
| `Trust.PenaltyKeepsInvariant` | blood_transfer_blockchain.py:305-311 | a penalty keeps reputation in [0, 100] and "credits exhausted implies blacklisted" |
| `Trust.NewNodeKeepsInvariant` | blood_transfer_blockchain.py:31-43 | a fresh hospital record satisfies the trust invariant |
| `Trust.PenalizedTimesEffect` | blood_transfer_blockchain.py:305-311 | after k penalties: k tampering credits gone, reputation max(0, r - 15k), blacklisted exactly when it was or the credits reached 0 or below; inventory and blood credits untouched |
| `Trust.SecondPenaltyBlacklists` | blood_transfer_blockchain.py:31-43 | with the default 2 tampering credits a hospital is not blacklisted after one penalty and is blacklisted, at 0 credits, after the second |
| `Trust.BlacklistIsPermanent` | blood_transfer_blockchain.py:309-310 | any number of further penalties keeps a blacklisted hospital blacklisted |
| `Work.Guess` | blood_transfer_blockchain.py:337 | the guess opens with the previous proof's decimal text and closes with the previous hash |
| `Work.GuessPinsNonce` | blood_transfer_blockchain.py:337 | with the previous proof and hash fixed, two different nonces never give the same guess |
| `Work.GuessSharedAcrossSplits` | blood_transfer_blockchain.py:337 | without a separator, previous proof 1 with nonce 23 and previous proof 12 with nonce 3 give the same guess |
| `Work.ValidProof` | blood_transfer_blockchain.py:335-339 | a nonce is valid exactly when the digest of its guess has at least `difficulty` characters and the first `difficulty` are all '0' |
| `Work.LeadingZerosIff` | blood_transfer_blockchain.py:339 | the slice comparison holds exactly when the digest has at least `difficulty` characters and the first `difficulty` are all '0' |
| `Merkle.Padded` | blood_transfer_blockchain.py:161-162 | a padded level has even length |
| `Merkle.NextLevel` | blood_transfer_blockchain.py:164-169 | the next level has ceil(n/2) hashes |
| `Merkle.LevelShape` | blood_transfer_blockchain.py:160-169 | on an odd level the last parent hashes the last hash with itself |
| `Merkle.MerkleRoot` | blood_transfer_blockchain.py:150-171 | no transactions give the digest of the empty text; one transaction gives its own leaf hash |
| `Merkle.MerkleOfThree` | blood_transfer_blockchain.py:160-171 | three transactions give H(H(a+b) + H(c+c)): the third leaf is duplicated |
| `Merkle.NextLevelSplit` | blood_transfer_blockchain.py:164-169 | pairing an even level distributes over splitting it into two even halves |
| `Merkle.NextLevelOfHalves` | blood_transfer_blockchain.py:164-169 | on a level of 4q hashes the halves of the next level are the next levels of the halves |
| `Merkle.ReducePair` | blood_transfer_blockchain.py:160-171 | a level of two hashes reduces to the hash of the pair |
| `Merkle.ReduceIsBinaryTree` | blood_transfer_blockchain.py:160-171 | on 2^k leaves the root hashes the roots of the two halves: the reduction is the binary Merkle tree |
| `Chain.GenesisBlock` | blood_transfer_blockchain.py:130-142 | genesis has the given timestamp, index 0, no transactions, proof 0, previous hash "0", the empty Merkle root, validator "system" and the hash of its own record taken before the hash key |
| `Chain.AppendKeepsWellFormed` | blood_transfer_blockchain.py:354-368 | appending a sealed block mined on the tail, with the next index, keeps the chain well formed |
| `Chain.GenesisOnlyValidates` | blood_transfer_blockchain.py:385-404 | a chain holding only genesis passes the chain check |
| `Chain.WellFormedPassesIntended` | blood_transfer_blockchain.py:385-404 | every chain the ledger builds passes the check when hashes are recomputed without the hash key |
| `Chain.AsWrittenNeedsFixpoint` | blood_transfer_blockchain.py:392 | on a chain the ledger builds, the check as written passes exactly when each mined block's hash equals the hash of the record that already holds it |
| `Chain.TamperedHashFails` | blood_transfer_blockchain.py:391-393 | overwriting a mined block's stored hash with a value other than the recomputed one makes the check fail |
| `Chain.FreshlyMinedChainFailsAsWritten` | blood_transfer_blockchain.py:365-392 | a freshly mined, well-formed chain that passes the intended check is rejected by the check as written |
| `Mining.Batch` | blood_transfer_blockchain.py:347-348 | the batch is the first min(10, n) records of the pool, and a non-empty pool gives a non-empty batch |
| `Mining.Remainder` | blood_transfer_blockchain.py:370-371 | batch followed by remainder is the pool: nothing lost, duplicated or reordered |
| `Mining.ApplyTransfers` | blood_transfer_blockchain.py:373-380 | applying a block's transfers adds and removes no hospital, and a failed lookup names an id that is not registered |
| `Mining.ExecuteKeepsInvariant` | blood_transfer_blockchain.py:91-110 | a transfer keeps the set of hospitals, the trust invariant and every blacklist flag |
| `Mining.ApplyKeepsInvariant` | blood_transfer_blockchain.py:373-380 | applying a block's transfers keeps the trust invariant and every blacklist flag |
| `Mining.ApplyConservesUnits` | blood_transfer_blockchain.py:373-380 | applying a block's transfers leaves the total units unchanged |
| `Mining.RecordsOnlyBatchIsInert` | blood_transfer_blockchain.py:374-375 | a block without transfers leaves the store unchanged |
| `Stats.SumMapRemove` | blood_transfer_blockchain.py:436 | the sum of an inventory is one entry plus the sum of the rest, whichever entry is taken |
| `Stats.SumMapUpdate` | blood_transfer_blockchain.py:436 | changing one entry changes the sum by the difference |
| `Stats.InventoryAdd` | blood_transfer_blockchain.py:215-218 | adding q units of one type adds q to the inventory's sum |
| `Stats.TotalUnitsRemove` | blood_transfer_blockchain.py:435-438 | the total is one hospital's units plus the total of the others |
| `Stats.TotalUnitsUpdate` | blood_transfer_blockchain.py:435-438 | replacing one hospital's record changes the total by the change in its units |
| `Stats.AddedUnitsEffect` | blood_transfer_blockchain.py:214-218 | adding units raises only that type's entry, by the quantity, and the system total by the same |
| `Stats.SumValues` | blood_transfer_blockchain.py:436 | the loop's total is the sum of the inventory's values |
| `Stats.ActivePlusBlacklisted` | blood_transfer_blockchain.py:431-433 | active plus blacklisted hospitals is the number of hospitals |
| `Stats.MentionCountAppend` | blood_transfer_blockchain.py:415-420 | the mention count of a concatenation is the sum of the counts |
| `Stats.ChainCountIsFlatCount` | blood_transfer_blockchain.py:415-420 | the per-block count equals the count over all chain transactions in order |
| `Stats.MentionCountBound` | blood_transfer_blockchain.py:416-420 | a list's mention count is at most its length |
| `Stats.ChainMentionCountBound` | blood_transfer_blockchain.py:414-420 | each chain transaction is counted at most once |
| `Stats.SelfTransferCountedOnce` | blood_transfer_blockchain.py:417-420 | a transfer from a hospital to itself counts once |
| `Ledger.BloodTransferBlockchain.constructor` | blood_transfer_blockchain.py:117-128 | a new ledger holds only the genesis block, an empty pool and no hospitals |
| `Ledger.BloodTransferBlockchain.CreateGenesisBlock` | blood_transfer_blockchain.py:130-142 | appends the genesis block and changes nothing else |
| `Ledger.BloodTransferBlockchain.CalculateMerkleRoot` | blood_transfer_blockchain.py:150-171 | the level-by-level loop returns the Merkle root of the recursive definition |
| `Ledger.VerificationHashIgnoresBoundaries` | blood_transfer_blockchain.py:294-298 | the fields are joined without separators, so sender "H1" with receiver "2" and sender "H" with receiver "12" share a verification digest |
| `Ledger.BloodTransferBlockchain.VerifyLocationProximity` | blood_transfer_blockchain.py:234-248 | true only when both ids are registered |
| `Ledger.BloodTransferBlockchain.HashPairs` | blood_transfer_blockchain.py:164-167 | the inner loop hashes each adjacent pair, in order |
| `Ledger.BloodTransferBlockchain.RegisterHospital` | blood_transfer_blockchain.py:184-207 | succeeds exactly for a new id; then adds the default record and appends one registration record; otherwise hospitals and pool are unchanged; the chain is never touched |
| `Ledger.BloodTransferBlockchain.AddBloodToInventory` | blood_transfer_blockchain.py:209-232 | succeeds exactly for a known id; then raises that type by the quantity and appends one update record carrying the new total; otherwise nothing changes |
| `Ledger.BloodTransferBlockchain.CreateBloodTransferTransaction` | blood_transfer_blockchain.py:250-292 | a transfer record exists exactly when both ids are registered and the contract accepts at their distance; it carries the request's ids, type, quantity, urgency, transaction id and timestamp, the distance, status "pending" and the verification digest |
| `Ledger.BloodTransferBlockchain.SubmitTransaction` | blood_transfer_blockchain.py:469-475 | a caller's append of a created record to the pool |
| `Ledger.BloodTransferBlockchain.PenalizeTampering` | blood_transfer_blockchain.py:300-326 | succeeds exactly for a known id; then applies one penalty, keeps an existing blacklist and appends one penalty record with the new values; otherwise nothing changes |
| `Ledger.BloodTransferBlockchain.ProofOfWork` | blood_transfer_blockchain.py:328-333 | returns the least nonce that solves the puzzle |
| `Ledger.BloodTransferBlockchain.ExecuteBloodTransfer` | blood_transfer_blockchain.py:91-110 | the in-place transfer yields the state of the transfer function, changes nothing when the sender lacks the type, and keeps the store invariant |
| `Ledger.BloodTransferBlockchain.MinePendingTransactions` | blood_transfer_blockchain.py:341-383 | an empty pool returns nothing and changes nothing; otherwise one block is appended with the next index, the tail's hash, the first min(10, n) records, their Merkle root, the least solving proof and its own seal; the pool becomes the rest, and the block's transfers are applied in order afterwards |
| `Ledger.BloodTransferBlockchain.ApplyBlockTransfers` | blood_transfer_blockchain.py:373-380 | the loop over a block's records reaches the store of the in-order application, stopping at and reporting the first unregistered id |
| `Ledger.BloodTransferBlockchain.ValidateChain` | blood_transfer_blockchain.py:385-404 | true exactly when every block after genesis passes the hash, link and proof checks against its predecessor |
| `Ledger.BloodTransferBlockchain.GetHospitalStats` | blood_transfer_blockchain.py:406-427 | none exactly for an unknown id; otherwise the record, the number of chain transactions mentioning the id, the chain length and the pool size |
| `Ledger.BloodTransferBlockchain.GetSystemStats` | blood_transfer_blockchain.py:429-448 | active + blacklisted == total hospitals, total units is the sum over all inventories, and chain validity is the chain check |
| `Scenario.ScenarioBatchEffect` | blood_transfer_blockchain.py:373-380 | a mined batch of three bookkeeping records and one 2-unit O+ transfer leaves 8 and 2 units and 95 and 152 credits |
| `Scenario.StockedLedger` | test_blood_transfer.py:25-34 | two registrations and one stocking leave a valid ledger with the genesis block, the stocked store and three non-transfer records pending |
| `Scenario.TransferScenario` | test_blood_transfer.py:156-175 | register, stock 10 O+, propose 2 units, pool and mine: 8 and 2 units, 95 and 152 credits, two blocks, an empty pool |

## Findings

| source | as written | input that shows it | evidently intended | confidence | as-written member | corrected member |
|---|---|---|---|---|---|---|
| blood_transfer_blockchain.py:365-392 | a block's hash is computed before the `hash` key is inserted, but `validate_chain` recomputes it on the stored record, which holds the key | any chain with one mined block, whenever the serialisation of a record depends on its `hash` key (as sorted-key JSON does); test_blood_transfer.py:189 expects such a chain to validate | recompute the hash on the record without its `hash` key | high (not executed) | `Chain.FreshlyMinedChainFailsAsWritten` | `Chain.WellFormedPassesIntended` |

The ledger class keeps the check as written (`Ledger.BloodTransferBlockchain.ValidateChain`,
and through it `GetSystemStats`), since that is what callers observe; the
class invariant `Valid()` is the well-formed chain shape, which passes the
corrected check.

## Left out

- SHA-256 and `json.dumps` are uninterpreted function values (`Records.Hashing`): the model proves the structure of hashing, not its cryptography, nor the exact JSON text.
- `time.time()` and `uuid.uuid4()` are parameters (`now`, `transactionId`); the clock text mixed into `generate_verification_hash` is the `clockText` parameter.
- `calculate_distance` (haversine, floating point) is the uninterpreted `calculateDistance` of the ledger, so no property of distances themselves (non-negative, symmetric, zero to itself) is proved; `verify_location_proximity` is stated over it.
- Default arguments are not modelled as defaults: callers pass `initial_credits` (100 in the source), `urgency_level` ("normal"), `max_distance` (100.0) and the penalty's `reason` ("Data tampering detected") explicitly.
- `get_hospital_stats` returns a dictionary whose `blood_inventory` is the live inventory of the hospital record (blood_transfer_blockchain.py:52, :423), so a later transfer changes a statistics result already returned; the model returns a value copy and does not capture that aliasing.
- The ledger constants of `config.py` (blocks of 10, 100.0 km, 10 credits, cost 5, reward 2, 2 tampering credits, penalty 15, reputation in [0, 100]) are never read by the ledger, which hard-codes the same values; the model keeps the ledger's own constants and not a second copy of them.
- Floating point: distances, coordinates and timestamps are `real`; no rounding is modelled.
- Ledger.BloodTransferBlockchain.ProofOfWork: the source's search is unbounded; the model takes a ghost nonce known to solve the puzzle, so it says nothing when no nonce exists (the search would then not terminate).
- Ledger.BloodTransferBlockchain.MinePendingTransactions: takes the same ghost solving nonce; a `KeyError` from a transfer naming an unknown hospital, which the source raises after the block is appended and the pool shrunk, becomes the `UnknownHospital` result with the earlier transfers applied.
- The `transaction_history` list of a hospital is never used by the ledger and is not modelled.
- Logging, the unused `BloodUnit` dataclass and `mining_reward`, `to_dict` formatting.
- `Config.load_from_env` and the other configuration constants (network, TLS paths, database URL, logging, expiry periods) are not modelled; `get_config` takes the FLASK_ENV value as a parameter.
- The RPC server and client, the demo driver and the tests are not part of this model; the tests only inform the properties.
