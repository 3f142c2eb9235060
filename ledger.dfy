/** The ledger: one object holding the chain, the pool of pending transaction
    records and the registered hospitals, whose methods extend the chain,
    grow and drain the pool, and update the hospital records in place. */
module Ledger {
  import opened Records
  import opened Decimal
  import opened Merkle
  import opened Work
  import opened Contract
  import opened Trust
  import opened Stats
  import opened Mining
  import opened Chain

  /** How a call to mine ended: nothing pending; a block appended and its
      transfers applied; or a block appended and a transfer naming an
      unregistered hospital, where the lookup fails and the later transfers
      of the block are not applied. */
  datatype MineResult =
    | NothingToMine
    | Mined(block: Block)
    | UnknownHospital(block: Block, hospitalId: string)

  /** `get_hospital_stats`: the record, the number of chain transactions that
      mention the hospital, the chain length and the pool size. */
  datatype HospitalStats = HospitalStats(
    hospital: HospitalNode,
    totalTransactions: nat,
    blockchainBlocks: nat,
    pendingTransactions: nat)

  datatype SystemStats = SystemStats(
    totalHospitals: nat,
    activeHospitals: nat,
    blacklistedHospitals: nat,
    totalBloodUnits: int,
    blockchainLength: nat,
    pendingTransactions: nat,
    isChainValid: bool)

  /** The digest recorded with a transfer: sender, receiver, type, quantity and
      the clock reading, concatenated as text. */
  function VerificationHash(hg: Hashing, senderId: string, receiverId: string, bloodType: string,
                            quantity: int, clockText: string): string
  {
    hg.sha256(senderId + receiverId + bloodType + DecimalString(quantity) + clockText)
  }

  /** The fields are joined without separators, so the digest does not tell
      where the sender id ends and the receiver id begins: sender "H1" with
      receiver "2" and sender "H" with receiver "12" share it. */
  lemma VerificationHashIgnoresBoundaries(hg: Hashing, bloodType: string, quantity: int, clockText: string)
    ensures VerificationHash(hg, "H1", "2", bloodType, quantity, clockText)
            == VerificationHash(hg, "H", "12", bloodType, quantity, clockText)
  {
    assert "H1" + "2" == "H" + "12";
  }

  class BloodTransferBlockchain {
    /** SHA-256 and the JSON serialisation of records. */
    const hashing: Hashing
    /** The great-circle distance in kilometres between two locations. */
    const calculateDistance: (Location, Location) -> real
    const miningDifficulty: nat := 4
    const maxTransactionsPerBlock: nat := MaxTransactionsPerBlock

    var chain: seq<Block>
    var pendingTransactions: seq<Transaction>
    var hospitals: Store

    /** The chain starts at its genesis block and every later block was mined
        on its predecessor; every stored hospital satisfies the trust invariant. */
    ghost predicate Valid()
      reads this
    {
      WellFormedChain(hashing, miningDifficulty, maxTransactionsPerBlock, chain)
      && StoreInvariant(hospitals)
    }

    /** A ledger holding only the genesis block, created at time `now`. */
    constructor (hashing: Hashing, calculateDistance: (Location, Location) -> real, now: real)
      ensures Valid()
      ensures this.hashing == hashing && this.calculateDistance == calculateDistance
      ensures chain == [GenesisBlock(hashing, now)]
      ensures pendingTransactions == [] && hospitals == map[]
    {
      this.hashing := hashing;
      this.calculateDistance := calculateDistance;
      chain := [];
      pendingTransactions := [];
      hospitals := map[];
      new;
      CreateGenesisBlock(now);
    }

    method CreateGenesisBlock(now: real)
      modifies this
      ensures chain == old(chain) + [GenesisBlock(hashing, now)]
      ensures pendingTransactions == old(pendingTransactions) && hospitals == old(hospitals)
    {
      var merkleRoot := CalculateMerkleRoot([]);
      var genesis := Block(0, now, [], 0, "0", merkleRoot, "system", None);
      genesis := genesis.(hash := Some(BlockHash(hashing, genesis)));
      chain := chain + [genesis];
    }

    function LastBlock(): Block
      reads this
      requires chain != []
    {
      chain[|chain| - 1]
    }

    /** The Merkle root computed level by level, padding each odd level with
        its last hash; it equals the recursive definition. */
    method CalculateMerkleRoot(transactions: seq<Transaction>) returns (root: string)
      ensures root == MerkleRoot(hashing, transactions)
    {
      if transactions == [] {
        return hashing.sha256("");
      }
      var sha := hashing.sha256;
      var transactionHashes := Leaves(hashing, transactions);
      while |transactionHashes| > 1
        invariant |transactionHashes| >= 1
        invariant Reduce(sha, transactionHashes) == MerkleRoot(hashing, transactions)
        decreases |transactionHashes|
      {
        ghost var level := transactionHashes;
        if |transactionHashes| % 2 != 0 {
          transactionHashes := transactionHashes + [transactionHashes[|transactionHashes| - 1]];
        }
        var newHashes := HashPairs(sha, transactionHashes);
        assert transactionHashes == Padded(level);
        PairHashesAreNextLevel(sha, level, newHashes);
        ReduceStep(sha, level);
        transactionHashes := newHashes;
      }
      return transactionHashes[0];
    }

    /** The hash of each adjacent pair of an even-length level, in order. */
    static method HashPairs(sha: string -> string, hashes: seq<string>) returns (newHashes: seq<string>)
      requires |hashes| % 2 == 0
      ensures |newHashes| == |hashes| / 2
      ensures forall k :: 0 <= k < |newHashes| ==> newHashes[k] == sha(hashes[2 * k] + hashes[2 * k + 1])
    {
      ghost var pairs := |hashes| / 2;
      newHashes := [];
      var i := 0;
      while i < |hashes|
        invariant i == 2 * |newHashes| && |newHashes| <= pairs
        invariant forall k :: 0 <= k < |newHashes| ==> newHashes[k] == sha(hashes[2 * k] + hashes[2 * k + 1])
      {
        newHashes := newHashes + [sha(hashes[i] + hashes[i + 1])];
        i := i + 2;
      }
    }

    /** The hospitals' distance, within the limit; false when either is unregistered. */
    predicate VerifyLocationProximity(senderId: string, receiverId: string, maxDistance: real)
      reads this
      ensures VerifyLocationProximity(senderId, receiverId, maxDistance)
              ==> senderId in hospitals && receiverId in hospitals
    {
      senderId in hospitals && receiverId in hospitals
      && calculateDistance(hospitals[senderId].location, hospitals[receiverId].location) <= maxDistance
    }

    /** Adds a hospital and a registration record; refuses an id already registered. */
    method RegisterHospital(hospitalId: string, name: string, location: Location, initialCredits: int,
                            now: real, transactionId: string) returns (ok: bool)
      requires Valid()
      modifies this
      ensures Valid()
      ensures ok <==> hospitalId !in old(hospitals)
      ensures chain == old(chain)
      ensures ok ==> hospitals == old(hospitals)[hospitalId := NewHospitalNode(hospitalId, name, location, initialCredits)]
      ensures ok ==> pendingTransactions == old(pendingTransactions)
                       + [HospitalRegistration(hospitalId, name, location, initialCredits, now, transactionId)]
      ensures !ok ==> hospitals == old(hospitals) && pendingTransactions == old(pendingTransactions)
    {
      if hospitalId in hospitals {
        return false;
      }
      NewNodeKeepsInvariant(hospitalId, name, location, initialCredits);
      hospitals := hospitals[hospitalId := NewHospitalNode(hospitalId, name, location, initialCredits)];
      pendingTransactions := pendingTransactions
        + [HospitalRegistration(hospitalId, name, location, initialCredits, now, transactionId)];
      return true;
    }

    /** Adds units of one type to a hospital (creating the entry at 0) and an
        inventory-update record carrying the new total; refuses an unknown id. */
    method AddBloodToInventory(hospitalId: string, bloodType: string, quantity: int,
                               now: real, transactionId: string) returns (ok: bool)
      requires Valid()
      modifies this
      ensures Valid()
      ensures ok <==> hospitalId in old(hospitals)
      ensures chain == old(chain)
      ensures ok ==> hospitals == old(hospitals)[hospitalId := AddedUnits(old(hospitals)[hospitalId], bloodType, quantity)]
      ensures ok ==> pendingTransactions == old(pendingTransactions)
                       + [InventoryUpdate(hospitalId, bloodType, quantity,
                                          Units(old(hospitals)[hospitalId].bloodInventory, bloodType) + quantity,
                                          now, transactionId)]
      ensures !ok ==> hospitals == old(hospitals) && pendingTransactions == old(pendingTransactions)
    {
      if hospitalId !in hospitals {
        return false;
      }
      var hospital := hospitals[hospitalId];
      ghost var original := hospital;
      if bloodType !in hospital.bloodInventory {
        hospital := hospital.(bloodInventory := hospital.bloodInventory[bloodType := 0]);
      }
      hospital := hospital.(bloodInventory := hospital.bloodInventory[bloodType := hospital.bloodInventory[bloodType] + quantity]);
      assert hospital.bloodInventory == original.bloodInventory[bloodType := Units(original.bloodInventory, bloodType) + quantity];
      assert hospital == AddedUnits(original, bloodType, quantity);
      hospitals := hospitals[hospitalId := hospital];
      pendingTransactions := pendingTransactions
        + [InventoryUpdate(hospitalId, bloodType, quantity, hospital.bloodInventory[bloodType], now, transactionId)];
      return true;
    }

    /** A pending transfer record, when both hospitals are registered and the
        contract accepts the transfer at their distance; None otherwise. */
    function CreateBloodTransferTransaction(senderId: string, receiverId: string, bloodType: string,
                                            quantity: int, urgencyLevel: string, transactionId: string,
                                            now: real, clockText: string): (r: Option<Transaction>)
      reads this
      ensures r.Some? <==>
                senderId in hospitals && receiverId in hospitals
                && ValidateBloodTransfer(hospitals[senderId], hospitals[receiverId], bloodType, quantity,
                                         calculateDistance(hospitals[senderId].location, hospitals[receiverId].location))
                   == Accepted
      ensures r.Some? ==>
                r.value.BloodTransfer? && r.value.senderId == senderId && r.value.receiverId == receiverId
                && r.value.bloodType == bloodType && r.value.quantity == quantity
                && r.value.status == "pending" && r.value.urgencyLevel == urgencyLevel
                && r.value.transactionId == transactionId && r.value.timestamp == now
                && r.value.distanceKm == calculateDistance(hospitals[senderId].location, hospitals[receiverId].location)
                && r.value.verificationHash == VerificationHash(hashing, senderId, receiverId, bloodType, quantity, clockText)
    {
      if senderId !in hospitals || receiverId !in hospitals then None
      else
        var sender := hospitals[senderId];
        var receiver := hospitals[receiverId];
        var distance := calculateDistance(sender.location, receiver.location);
        if ValidateBloodTransfer(sender, receiver, bloodType, quantity, distance).Rejected? then None
        else
          Some(BloodTransfer(transactionId, senderId, receiverId, bloodType, quantity, urgencyLevel, distance,
                             now, "pending", VerificationHash(hashing, senderId, receiverId, bloodType, quantity, clockText)))
    }

    /** A caller appends a transaction record to the pool. */
    method SubmitTransaction(tx: Transaction)
      requires Valid()
      modifies this
      ensures Valid()
      ensures pendingTransactions == old(pendingTransactions) + [tx]
      ensures chain == old(chain) && hospitals == old(hospitals)
    {
      pendingTransactions := pendingTransactions + [tx];
    }

    /** One tampering penalty and a penalty record; refuses an unknown id. */
    method PenalizeTampering(hospitalId: string, reason: string, now: real, transactionId: string) returns (ok: bool)
      requires Valid()
      modifies this
      ensures Valid()
      ensures ok <==> hospitalId in old(hospitals)
      ensures chain == old(chain)
      ensures ok ==> hospitals == old(hospitals)[hospitalId := Penalized(old(hospitals)[hospitalId])]
      ensures ok ==> var h := Penalized(old(hospitals)[hospitalId]);
                     pendingTransactions == old(pendingTransactions)
                       + [TamperingPenalty(hospitalId, reason, h.tamperingCredits, h.reputationScore,
                                           h.isBlacklisted, now, transactionId)]
      ensures ok ==> (old(hospitals)[hospitalId].isBlacklisted ==> hospitals[hospitalId].isBlacklisted)
      ensures !ok ==> hospitals == old(hospitals) && pendingTransactions == old(pendingTransactions)
    {
      if hospitalId !in hospitals {
        return false;
      }
      var hospital := hospitals[hospitalId];
      PenaltyKeepsInvariant(hospital);
      hospital := hospital.(tamperingCredits := hospital.tamperingCredits - 1);
      hospital := hospital.(reputationScore := Max0(hospital.reputationScore - ReputationPenalty));
      if hospital.tamperingCredits <= 0 {
        hospital := hospital.(isBlacklisted := true);
      }
      hospitals := hospitals[hospitalId := hospital];
      pendingTransactions := pendingTransactions
        + [TamperingPenalty(hospitalId, reason, hospital.tamperingCredits, hospital.reputationScore,
                            hospital.isBlacklisted, now, transactionId)];
      return true;
    }

    /** The first nonce, counting up from 0, that solves the puzzle. The ghost
        `solution` is a nonce known to solve it, which bounds the search. */
    method ProofOfWork(lastProof: int, lastHash: string, ghost solution: nat) returns (proof: nat)
      requires ValidProof(hashing, miningDifficulty, lastProof, solution, lastHash)
      ensures ValidProof(hashing, miningDifficulty, lastProof, proof, lastHash)
      ensures proof <= solution
      ensures forall q :: 0 <= q < proof ==> !ValidProof(hashing, miningDifficulty, lastProof, q, lastHash)
    {
      proof := 0;
      while !ValidProof(hashing, miningDifficulty, lastProof, proof, lastHash)
        invariant proof <= solution
        invariant forall q :: 0 <= q < proof ==> !ValidProof(hashing, miningDifficulty, lastProof, q, lastHash)
        decreases solution - proof
      {
        proof := proof + 1;
      }
    }

    /** The sender's, then the receiver's update, the receiver read after the
        sender's update is in place; nothing changes when the sender has no
        entry for the type. */
    method ExecuteBloodTransfer(senderId: string, receiverId: string, bloodType: string, quantity: int)
      returns (ok: bool)
      requires senderId in hospitals && receiverId in hospitals
      modifies this
      ensures ok <==> ExecuteTransfer(old(hospitals), senderId, receiverId, bloodType, quantity).Some?
      ensures ok ==> hospitals == ExecuteTransfer(old(hospitals), senderId, receiverId, bloodType, quantity).value
      ensures !ok ==> hospitals == old(hospitals)
      ensures chain == old(chain) && pendingTransactions == old(pendingTransactions)
      ensures StoreInvariant(old(hospitals)) ==> StoreInvariant(hospitals)
    {
      var sender := hospitals[senderId];
      if bloodType !in sender.bloodInventory {
        return false;
      }
      ghost var debited := Debit(sender, bloodType, quantity);
      sender := sender.(bloodInventory := sender.bloodInventory[bloodType := sender.bloodInventory[bloodType] - quantity]);
      sender := sender.(bloodCredits := sender.bloodCredits - TransferCost);
      sender := sender.(totalTransfersSent := sender.totalTransfersSent + 1);
      assert sender == debited;
      hospitals := hospitals[senderId := sender];
      var receiver := hospitals[receiverId];
      ghost var credited := Credit(receiver, bloodType, quantity);
      if bloodType !in receiver.bloodInventory {
        receiver := receiver.(bloodInventory := receiver.bloodInventory[bloodType := 0]);
      }
      receiver := receiver.(bloodInventory := receiver.bloodInventory[bloodType := receiver.bloodInventory[bloodType] + quantity]);
      receiver := receiver.(bloodCredits := receiver.bloodCredits + ReceptionReward);
      receiver := receiver.(totalTransfersReceived := receiver.totalTransfersReceived + 1);
      assert receiver.bloodInventory == credited.bloodInventory;
      assert receiver == credited;
      hospitals := hospitals[receiverId := receiver];
      if StoreInvariant(old(hospitals)) {
        ExecuteKeepsInvariant(old(hospitals), senderId, receiverId, bloodType, quantity);
      }
      return true;
    }

    /** Seals the first (at most 10) pending records into a new block on the
        chain, removes them from the pool, then applies the block's transfers
        in order. The ghost `solution` is a nonce known to solve the puzzle. */
    method MinePendingTransactions(minerId: string, now: real, ghost solution: nat) returns (result: MineResult)
      requires Valid()
      requires pendingTransactions != [] ==>
                 ValidProof(hashing, miningDifficulty, LastBlock().proof, solution, HashOf(LastBlock()))
      modifies this
      ensures Valid()
      ensures old(pendingTransactions) == [] ==>
                result == NothingToMine && chain == old(chain)
                && pendingTransactions == old(pendingTransactions) && hospitals == old(hospitals)
      ensures old(pendingTransactions) != [] ==>
                var batch := Batch(old(pendingTransactions));
                var last := old(chain)[|old(chain)| - 1];
                var applied := ApplyTransfers(old(hospitals), batch);
                |chain| == |old(chain)| + 1 && chain[..|old(chain)|] == old(chain)
                && var b := chain[|old(chain)|];
                   b.index == |old(chain)| && b.timestamp == now && b.transactions == batch
                   && b.previousHash == HashOf(last) && b.merkleRoot == MerkleRoot(hashing, batch)
                   && b.validator == minerId && Sealed(hashing, b)
                   && ValidProof(hashing, miningDifficulty, last.proof, b.proof, HashOf(last))
                   && (forall q :: 0 <= q < b.proof ==> !ValidProof(hashing, miningDifficulty, last.proof, q, HashOf(last)))
                   && pendingTransactions == Remainder(old(pendingTransactions))
                   && hospitals == applied.store
                   && result == (if applied.missing.Some? then UnknownHospital(b, applied.missing.value) else Mined(b))
    {
      if pendingTransactions == [] {
        return NothingToMine;
      }
      var transactionsToMine := Batch(pendingTransactions);
      var lastBlock := chain[|chain| - 1];
      var merkleRoot := CalculateMerkleRoot(transactionsToMine);
      var newBlock := Block(|chain|, now, transactionsToMine, 0, HashOf(lastBlock), merkleRoot, minerId, None);
      var proof := ProofOfWork(lastBlock.proof, HashOf(lastBlock), solution);
      newBlock := newBlock.(proof := proof);
      newBlock := newBlock.(hash := Some(BlockHash(hashing, newBlock)));
      AppendKeepsWellFormed(hashing, miningDifficulty, maxTransactionsPerBlock, chain, newBlock);
      chain := chain + [newBlock];
      pendingTransactions := Remainder(pendingTransactions);

      ApplyKeepsInvariant(hospitals, transactionsToMine);
      var missing := ApplyBlockTransfers(transactionsToMine);
      if missing.Some? {
        return UnknownHospital(newBlock, missing.value);
      }
      return Mined(newBlock);
    }

    /** The mining loop over a block's records: each transfer executed in
        order, its sender looked up before its receiver; the loop stops at the
        first id that is not registered and reports it. */
    method ApplyBlockTransfers(transactions: seq<Transaction>) returns (missing: Option<string>)
      modifies this
      ensures hospitals == ApplyTransfers(old(hospitals), transactions).store
      ensures missing == ApplyTransfers(old(hospitals), transactions).missing
      ensures chain == old(chain) && pendingTransactions == old(pendingTransactions)
    {
      ghost var applied := ApplyTransfers(hospitals, transactions);
      var i := 0;
      while i < |transactions|
        invariant 0 <= i <= |transactions|
        invariant ApplyTransfers(hospitals, transactions[i..]) == applied
        invariant chain == old(chain) && pendingTransactions == old(pendingTransactions)
      {
        var tx := transactions[i];
        assert transactions[i..][0] == tx && transactions[i..][1..] == transactions[i + 1..];
        if tx.BloodTransfer? {
          if tx.senderId !in hospitals {
            return Some(tx.senderId);
          }
          if tx.receiverId !in hospitals {
            return Some(tx.receiverId);
          }
          var executed := ExecuteBloodTransfer(tx.senderId, tx.receiverId, tx.bloodType, tx.quantity);
        }
        i := i + 1;
      }
      return None;
    }

    /** Walks the chain checking each block against its predecessor: the hash
        recomputed from the stored record, the link, the proof. */
    method ValidateChain() returns (valid: bool)
      ensures valid == ValidChainAsWritten(hashing, miningDifficulty, chain)
    {
      var i := 1;
      while i < |chain|
        invariant 1 <= i
        invariant forall j :: 1 <= j < i && j < |chain| ==> BlockPassesAsWritten(hashing, miningDifficulty, chain[j - 1], chain[j])
      {
        var currentBlock := chain[i];
        var previousBlock := chain[i - 1];
        if HashOf(currentBlock) != BlockHash(hashing, currentBlock) {
          return false;
        }
        if currentBlock.previousHash != HashOf(previousBlock) {
          return false;
        }
        if !ValidProof(hashing, miningDifficulty, previousBlock.proof, currentBlock.proof, HashOf(previousBlock)) {
          return false;
        }
        i := i + 1;
      }
      return true;
    }

    /** The record of a registered hospital with the number of chain records
        that mention it; None for an unknown id. */
    method GetHospitalStats(hospitalId: string) returns (stats: Option<HospitalStats>)
      ensures stats.None? <==> hospitalId !in hospitals
      ensures stats.Some? ==>
                stats.value == HospitalStats(hospitals[hospitalId], ChainMentionCount(chain, hospitalId),
                                             |chain|, |pendingTransactions|)
    {
      if hospitalId !in hospitals {
        return None;
      }
      var txCount := 0;
      var b := 0;
      while b < |chain|
        invariant 0 <= b <= |chain|
        invariant txCount == ChainMentionCount(chain[..b], hospitalId)
      {
        var transactions := chain[b].transactions;
        var t := 0;
        while t < |transactions|
          invariant 0 <= t <= |transactions|
          invariant txCount == ChainMentionCount(chain[..b], hospitalId) + MentionCount(transactions[..t], hospitalId)
        {
          if Mentions(transactions[t], hospitalId) {
            txCount := txCount + 1;
          }
          assert transactions[..t + 1][..t] == transactions[..t];
          t := t + 1;
        }
        assert transactions[..t] == transactions;
        assert chain[..b + 1][..b] == chain[..b];
        b := b + 1;
      }
      assert chain[..b] == chain;
      return Some(HospitalStats(hospitals[hospitalId], txCount, |chain|, |pendingTransactions|));
    }

    /** Counts of hospitals, the total units held, the chain and pool sizes and
        the chain check. */
    method GetSystemStats() returns (stats: SystemStats)
      ensures stats.totalHospitals == |hospitals|
      ensures stats.activeHospitals == |ActiveIds(hospitals)|
      ensures stats.blacklistedHospitals == |BlacklistedIds(hospitals)|
      ensures stats.activeHospitals + stats.blacklistedHospitals == stats.totalHospitals
      ensures stats.totalBloodUnits == TotalUnits(hospitals)
      ensures stats.blockchainLength == |chain| && stats.pendingTransactions == |pendingTransactions|
      ensures stats.isChainValid == ValidChainAsWritten(hashing, miningDifficulty, chain)
    {
      var totalHospitals := |hospitals|;
      var activeHospitals := |ActiveIds(hospitals)|;
      ActivePlusBlacklisted(hospitals);
      var blacklistedHospitals := totalHospitals - activeHospitals;
      var totalBloodUnits := 0;
      var rest := hospitals;
      while rest != map[]
        invariant totalBloodUnits + TotalUnits(rest) == TotalUnits(hospitals)
        decreases |rest|
      {
        var id :| id in rest;
        TotalUnitsRemove(rest, id);
        var units := SumValues(rest[id].bloodInventory);
        totalBloodUnits := totalBloodUnits + units;
        rest := rest - {id};
      }
      var isChainValid := ValidateChain();
      return SystemStats(totalHospitals, activeHospitals, blacklistedHospitals, totalBloodUnits,
                         |chain|, |pendingTransactions|, isChainValid);
    }
  }
}
