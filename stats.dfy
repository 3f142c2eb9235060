/** The statistics over the store and the chain: unit totals summed over
    inventories, active and blacklisted counts, and the number of chain
    transactions that mention a hospital. */
module Stats {
  import opened Records

  /** The sum of a map's values, in no particular order. */
  ghost function SumMap(m: map<string, int>): int
    decreases |m|
  {
    if |m| == 0 then 0
    else
      var k :| k in m;
      assert |m - {k}| == |m| - 1;
      m[k] + SumMap(m - {k})
  }

  /** The key the definition takes out first. */
  lemma SumMapFirstKey(m: map<string, int>) returns (j: string)
    requires |m| > 0
    ensures j in m && SumMap(m) == m[j] + SumMap(m - {j})
  {
    j :| j in m && SumMap(m) == m[j] + SumMap(m - {j});
  }

  /** The sum does not depend on which key is taken out first. */
  lemma {:induction false} SumMapRemove(m: map<string, int>, k: string)
    requires k in m
    ensures SumMap(m) == m[k] + SumMap(m - {k})
    decreases |m|
  {
    var j := SumMapFirstKey(m);
    if j != k {
      var withoutJ, withoutK := m - {j}, m - {k};
      assert |withoutJ| == |m| - 1 && k in withoutJ && withoutJ[k] == m[k];
      assert |withoutK| == |m| - 1 && j in withoutK && withoutK[j] == m[j];
      var withoutBoth := withoutJ - {k};
      assert withoutK - {j} == withoutBoth;
      SumMapRemove(withoutJ, k);
      SumMapRemove(withoutK, j);
    }
  }

  /** Changing one entry changes the sum by the difference. */
  lemma SumMapUpdate(m: map<string, int>, k: string, v: int)
    ensures SumMap(m[k := v]) == SumMap(m) - Units(m, k) + v
  {
    var m' := m[k := v];
    SumMapRemove(m', k);
    assert m' - {k} == m - {k};
    if k in m {
      SumMapRemove(m, k);
    } else {
      assert m - {k} == m;
    }
  }

  /** Units held per hospital. */
  ghost function UnitsPerHospital(store: Store): map<string, int>
  {
    map id | id in store :: SumMap(store[id].bloodInventory)
  }

  /** `total_blood_units`: the sum, over hospitals, of the sum of their inventory. */
  ghost function TotalUnits(store: Store): int
  {
    SumMap(UnitsPerHospital(store))
  }

  lemma TotalUnitsRemove(store: Store, id: string)
    requires id in store
    ensures TotalUnits(store) == SumMap(store[id].bloodInventory) + TotalUnits(store - {id})
  {
    SumMapRemove(UnitsPerHospital(store), id);
    assert UnitsPerHospital(store) - {id} == UnitsPerHospital(store - {id});
  }

  /** Replacing one hospital's record changes the total by the change in its own units. */
  lemma TotalUnitsUpdate(store: Store, id: string, h: HospitalNode)
    requires id in store
    ensures TotalUnits(store[id := h])
         == TotalUnits(store) - SumMap(store[id].bloodInventory) + SumMap(h.bloodInventory)
  {
    assert UnitsPerHospital(store[id := h]) == UnitsPerHospital(store)[id := SumMap(h.bloodInventory)];
    SumMapUpdate(UnitsPerHospital(store), id, SumMap(h.bloodInventory));
  }

  /** Adding q units of one type adds q to the inventory's total. */
  lemma InventoryAdd(inventory: map<string, int>, bloodType: string, q: int)
    ensures SumMap(inventory[bloodType := Units(inventory, bloodType) + q]) == SumMap(inventory) + q
  {
    SumMapUpdate(inventory, bloodType, Units(inventory, bloodType) + q);
  }

  /** Adding units to one hospital raises only that entry, and the total by the quantity. */
  lemma AddedUnitsEffect(store: Store, id: string, bloodType: string, quantity: int)
    requires id in store
    ensures var h := store[id];
            var h' := AddedUnits(h, bloodType, quantity);
            Units(h'.bloodInventory, bloodType) == Units(h.bloodInventory, bloodType) + quantity
            && (forall b :: b != bloodType ==> Units(h'.bloodInventory, b) == Units(h.bloodInventory, b))
            && TotalUnits(store[id := h']) == TotalUnits(store) + quantity
  {
    var h := store[id];
    var h' := AddedUnits(h, bloodType, quantity);
    InventoryAdd(h.bloodInventory, bloodType, quantity);
    assert SumMap(h'.bloodInventory) == SumMap(h.bloodInventory) + quantity;
    TotalUnitsUpdate(store, id, h');
  }

  /** `sum(m.values())`, accumulated one entry at a time. */
  method SumValues(m: map<string, int>) returns (total: int)
    ensures total == SumMap(m)
  {
    total := 0;
    var rest := m;
    while rest != map[]
      invariant total + SumMap(rest) == SumMap(m)
      decreases |rest|
    {
      var k :| k in rest;
      SumMapRemove(rest, k);
      total := total + rest[k];
      rest := rest - {k};
    }
  }

  function ActiveIds(store: Store): set<string>
  {
    set id | id in store && !store[id].isBlacklisted
  }

  function BlacklistedIds(store: Store): set<string>
  {
    set id | id in store && store[id].isBlacklisted
  }

  /** Every hospital is either active or blacklisted, never both: the two
      counts add up to the number of hospitals. */
  lemma ActivePlusBlacklisted(store: Store)
    ensures |ActiveIds(store)| + |BlacklistedIds(store)| == |store|
  {
    assert ActiveIds(store) + BlacklistedIds(store) == store.Keys;
    assert ActiveIds(store) * BlacklistedIds(store) == {};
  }

  /** Whether a transaction mentions a hospital through its sender, receiver or hospital field. */
  predicate Mentions(tx: Transaction, id: string)
  {
    match tx
    case BloodTransfer(_, senderId, receiverId, _, _, _, _, _, _, _) => senderId == id || receiverId == id
    case HospitalRegistration(hospitalId, _, _, _, _, _) => hospitalId == id
    case InventoryUpdate(hospitalId, _, _, _, _, _) => hospitalId == id
    case TamperingPenalty(hospitalId, _, _, _, _, _, _) => hospitalId == id
  }

  /** Transactions in a list that mention the hospital, each counted once. */
  function MentionCount(txs: seq<Transaction>, id: string): nat
    decreases |txs|
  {
    if txs == [] then 0
    else MentionCount(txs[..|txs| - 1], id) + (if Mentions(txs[|txs| - 1], id) then 1 else 0)
  }

  /** Over a chain, block by block. */
  function ChainMentionCount(chain: seq<Block>, id: string): nat
    decreases |chain|
  {
    if chain == [] then 0
    else ChainMentionCount(chain[..|chain| - 1], id) + MentionCount(chain[|chain| - 1].transactions, id)
  }

  /** Every transaction of the chain, in block order. */
  function Flatten(chain: seq<Block>): seq<Transaction>
    decreases |chain|
  {
    if chain == [] then [] else Flatten(chain[..|chain| - 1]) + chain[|chain| - 1].transactions
  }

  lemma {:induction false} MentionCountAppend(a: seq<Transaction>, b: seq<Transaction>, id: string)
    ensures MentionCount(a + b, id) == MentionCount(a, id) + MentionCount(b, id)
    decreases |b|
  {
    if b != [] {
      var b' := b[..|b| - 1];
      assert (a + b)[..|a + b| - 1] == a + b';
      MentionCountAppend(a, b', id);
    } else {
      assert a + b == a;
    }
  }

  /** The count is a property of the list of all chain transactions: it does
      not depend on how they are grouped into blocks. */
  lemma {:induction false} ChainCountIsFlatCount(chain: seq<Block>, id: string)
    ensures ChainMentionCount(chain, id) == MentionCount(Flatten(chain), id)
    decreases |chain|
  {
    if chain != [] {
      ChainCountIsFlatCount(chain[..|chain| - 1], id);
      MentionCountAppend(Flatten(chain[..|chain| - 1]), chain[|chain| - 1].transactions, id);
    }
  }

  /** No transaction is counted twice: the count never exceeds the number of transactions. */
  lemma {:induction false} MentionCountBound(txs: seq<Transaction>, id: string)
    ensures MentionCount(txs, id) <= |txs|
    decreases |txs|
  {
    if txs != [] {
      MentionCountBound(txs[..|txs| - 1], id);
    }
  }

  lemma ChainMentionCountBound(chain: seq<Block>, id: string)
    ensures ChainMentionCount(chain, id) <= |Flatten(chain)|
  {
    ChainCountIsFlatCount(chain, id);
    MentionCountBound(Flatten(chain), id);
  }

  /** A transfer from a hospital to itself is still one transaction. */
  lemma SelfTransferCountedOnce(tx: Transaction, id: string)
    requires tx.BloodTransfer? && tx.senderId == id && tx.receiverId == id
    ensures MentionCount([tx], id) == 1
  {
    assert [tx][..0] == [];
  }
}
