/** A client of the ledger: the flow of registering hospitals, stocking
    blood, proposing a transfer the contract accepts, and mining it. */
module Scenario {
  import opened Records
  import opened Work
  import opened Contract
  import opened Mining
  import opened Chain
  import opened Ledger

  /** The store after the two registrations and the stocking of ten O+ units. */
  function StockedStore(): Store
  {
    map["TEST001" := AddedUnits(NewHospitalNode("TEST001", "Test Hospital 1", (40.7128, -74.0060), 100), "O+", 10),
        "TEST002" := NewHospitalNode("TEST002", "Test Hospital 2", (40.7589, -73.9851), 150)]
  }

  /** Mining a batch of three bookkeeping records followed by one transfer of
      two O+ units applies exactly that transfer. */
  lemma ScenarioBatchEffect(batch: seq<Transaction>)
    requires |batch| == 4
    requires !batch[0].BloodTransfer? && !batch[1].BloodTransfer? && !batch[2].BloodTransfer?
    requires batch[3].BloodTransfer? && batch[3].senderId == "TEST001" && batch[3].receiverId == "TEST002"
    requires batch[3].bloodType == "O+" && batch[3].quantity == 2
    ensures var a := ApplyTransfers(StockedStore(), batch);
            a.missing.None? && "TEST001" in a.store && "TEST002" in a.store
            && "O+" in a.store["TEST001"].bloodInventory && "O+" in a.store["TEST002"].bloodInventory
            && a.store["TEST001"].bloodInventory["O+"] == 8 && a.store["TEST002"].bloodInventory["O+"] == 2
            && a.store["TEST001"].bloodCredits == 95 && a.store["TEST002"].bloodCredits == 152
  {
    var store := StockedStore();
    assert batch[1..] == batch[1..4];
    assert batch[2..][1..] == batch[3..];
    assert batch[3..][1..] == [];
    assert ApplyTransfers(store, batch) == ApplyTransfers(store, batch[1..]);
    assert ApplyTransfers(store, batch[1..]) == ApplyTransfers(store, batch[2..]);
    assert ApplyTransfers(store, batch[2..]) == ApplyTransfers(store, batch[3..]);
    var next := ExecuteTransfer(store, "TEST001", "TEST002", "O+", 2);
    assert next.Some?;
    assert ApplyTransfers(store, batch[3..]) == Applied(next.value, None);
  }

  /** A fresh ledger with two hospitals registered with 100 and 150 credits
      and ten O+ units stocked at the first; the three records wait in the pool. */
  method StockedLedger(hashing: Hashing, distance: (Location, Location) -> real, now: real)
    returns (ledger: BloodTransferBlockchain)
    ensures fresh(ledger) && ledger.Valid()
    ensures ledger.hashing == hashing && ledger.calculateDistance == distance
    ensures ledger.chain == [GenesisBlock(hashing, now)]
    ensures ledger.hospitals == StockedStore()
    ensures |ledger.pendingTransactions| == 3
    ensures forall i :: 0 <= i < 3 ==> !ledger.pendingTransactions[i].BloodTransfer?
  {
    ledger := new BloodTransferBlockchain(hashing, distance, now);
    var ok := ledger.RegisterHospital("TEST001", "Test Hospital 1", (40.7128, -74.0060), 100, now, "tx-1");
    assert ok;
    ok := ledger.RegisterHospital("TEST002", "Test Hospital 2", (40.7589, -73.9851), 150, now, "tx-2");
    assert ok;
    ok := ledger.AddBloodToInventory("TEST001", "O+", 10, now, "tx-3");
    assert ok;
  }

  /** Two hospitals registered with 100 and 150 credits, ten O+ units stocked at
      the first, a transfer of two units to the second created, pooled and
      mined: the units and credits move, and the pool drains into one block.
      `solution` is a nonce that solves the puzzle on the genesis block. */
  method TransferScenario(hashing: Hashing, distance: (Location, Location) -> real, now: real, ghost solution: nat)
    returns (senderUnits: int, receiverUnits: int, senderCredits: int, receiverCredits: int,
             blocks: nat, pending: nat, minedCleanly: bool)
    requires distance((40.7128, -74.0060), (40.7589, -73.9851)) <= 100.0
    requires ValidProof(hashing, 4, 0, solution, HashOf(GenesisBlock(hashing, now)))
    ensures senderUnits == 8 && receiverUnits == 2
    ensures senderCredits == 95 && receiverCredits == 152
    ensures blocks == 2 && pending == 0 && minedCleanly
  {
    var ledger := StockedLedger(hashing, distance, now);
    var tx := ledger.CreateBloodTransferTransaction("TEST001", "TEST002", "O+", 2, "normal", "tx-4", now, "0");
    assert tx.Some?;
    ledger.SubmitTransaction(tx.value);
    ghost var pool := ledger.pendingTransactions;
    assert |pool| == 4 && pool[3] == tx.value;
    assert Batch(pool) == pool && Remainder(pool) == [];
    ScenarioBatchEffect(pool);
    var result := ledger.MinePendingTransactions("TEST001", now, solution);
    senderUnits := ledger.hospitals["TEST001"].bloodInventory["O+"];
    receiverUnits := ledger.hospitals["TEST002"].bloodInventory["O+"];
    senderCredits := ledger.hospitals["TEST001"].bloodCredits;
    receiverCredits := ledger.hospitals["TEST002"].bloodCredits;
    blocks := |ledger.chain|;
    pending := |ledger.pendingTransactions|;
    minedCleanly := result.Mined?;
  }
}
