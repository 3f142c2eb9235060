/** What mining does to the pool and the store: the batch taken from the front
    of the pool, the remainder left behind, and the in-order application of the
    batch's transfers. */
module Mining {
  import opened Records
  import opened Contract
  import opened Trust
  import opened Stats

  const MaxTransactionsPerBlock: nat := 10

  /** `pending[:10]`: the first min(10, n) records of the pool, in order; a
      non-empty pool gives a non-empty batch. */
  function Batch(pool: seq<Transaction>): (r: seq<Transaction>)
    ensures |r| == if |pool| < MaxTransactionsPerBlock then |pool| else MaxTransactionsPerBlock
    ensures r == pool[..|r|]
    ensures pool != [] ==> r != []
  {
    if |pool| <= MaxTransactionsPerBlock then pool else pool[..MaxTransactionsPerBlock]
  }

  /** `pending[10:]`: what follows the batch, so that nothing is lost,
      duplicated or reordered. */
  function Remainder(pool: seq<Transaction>): (r: seq<Transaction>)
    ensures Batch(pool) + r == pool
  {
    if |pool| <= MaxTransactionsPerBlock then [] else pool[MaxTransactionsPerBlock..]
  }

  /** How applying a block's transfers ended: the store reached, and the id
      whose lookup failed, if one did (the later transfers are then not applied). */
  datatype Applied = Applied(store: Store, missing: Option<string>)

  /** The mining loop: each transfer in block order, sender looked up before
      receiver; a transfer whose sender lacks the type changes nothing; the
      other kinds of record have no effect. Nobody is registered or removed,
      and a failed lookup names an id that is not registered. */
  function ApplyTransfers(store: Store, txs: seq<Transaction>): (r: Applied)
    ensures r.store.Keys == store.Keys
    ensures r.missing.Some? ==> r.missing.value !in r.store
    decreases |txs|
  {
    if txs == [] then Applied(store, None)
    else match txs[0]
      case BloodTransfer(_, senderId, receiverId, bloodType, quantity, _, _, _, _, _) =>
        if senderId !in store then Applied(store, Some(senderId))
        else if receiverId !in store then Applied(store, Some(receiverId))
        else
          var next := ExecuteTransfer(store, senderId, receiverId, bloodType, quantity);
          ApplyTransfers(if next.Some? then next.value else store, txs[1..])
      case _ => ApplyTransfers(store, txs[1..])
  }

  lemma ExecuteKeepsInvariant(store: Store, senderId: string, receiverId: string, bloodType: string, quantity: int)
    requires senderId in store && receiverId in store && StoreInvariant(store)
    requires ExecuteTransfer(store, senderId, receiverId, bloodType, quantity).Some?
    ensures var r := ExecuteTransfer(store, senderId, receiverId, bloodType, quantity).value;
            r.Keys == store.Keys && StoreInvariant(r)
            && forall id :: id in store ==> r[id].isBlacklisted == store[id].isBlacklisted
  {
  }

  /** Applying transfers leaves every trust field alone. */
  lemma {:induction false} ApplyKeepsInvariant(store: Store, txs: seq<Transaction>)
    requires StoreInvariant(store)
    ensures StoreInvariant(ApplyTransfers(store, txs).store)
    ensures forall id :: id in store ==> ApplyTransfers(store, txs).store[id].isBlacklisted == store[id].isBlacklisted
    decreases |txs|
  {
    if txs != [] {
      match txs[0]
      case BloodTransfer(_, senderId, receiverId, bloodType, quantity, _, _, _, _, _) =>
        if senderId in store && receiverId in store {
          var next := ExecuteTransfer(store, senderId, receiverId, bloodType, quantity);
          if next.Some? {
            ExecuteKeepsInvariant(store, senderId, receiverId, bloodType, quantity);
            ApplyKeepsInvariant(next.value, txs[1..]);
          } else {
            ApplyKeepsInvariant(store, txs[1..]);
          }
        }
      case _ => ApplyKeepsInvariant(store, txs[1..]);
    }
  }

  /** Mining moves units between hospitals but never changes their total. */
  lemma {:induction false} ApplyConservesUnits(store: Store, txs: seq<Transaction>)
    ensures TotalUnits(ApplyTransfers(store, txs).store) == TotalUnits(store)
    decreases |txs|
  {
    if txs != [] {
      match txs[0]
      case BloodTransfer(_, senderId, receiverId, bloodType, quantity, _, _, _, _, _) =>
        if senderId in store && receiverId in store {
          var next := ExecuteTransfer(store, senderId, receiverId, bloodType, quantity);
          if next.Some? {
            TransferConservesUnits(store, senderId, receiverId, bloodType, quantity);
            ApplyConservesUnits(next.value, txs[1..]);
          } else {
            ApplyConservesUnits(store, txs[1..]);
          }
        }
      case _ => ApplyConservesUnits(store, txs[1..]);
    }
  }

  /** A batch without transfers leaves the store as it was. */
  lemma {:induction false} RecordsOnlyBatchIsInert(store: Store, txs: seq<Transaction>)
    requires forall i :: 0 <= i < |txs| ==> !txs[i].BloodTransfer?
    ensures ApplyTransfers(store, txs) == Applied(store, None)
    decreases |txs|
  {
    if txs != [] {
      RecordsOnlyBatchIsInert(store, txs[1..]);
    }
  }
}
