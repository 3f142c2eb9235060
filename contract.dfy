/** The smart contract: the ordered, short-circuiting transfer rules and the
    economic effect of a committed transfer on the store. */
module Contract {
  import opened Records
  import opened Stats

  const MinCredits: int := 10
  const MaxDistanceKm: real := 100.0
  const TransferCost: int := 5
  const ReceptionReward: int := 2

  /** Why a transfer was refused; each carries what its message reports. */
  datatype Rejection =
    | SenderBlacklisted(senderId: string)
    | ReceiverBlacklisted(receiverId: string)
    | InsufficientCredits(credits: int, required: int)
    | InsufficientInventory(bloodType: string)
    | DistanceExceeded(distanceKm: real, maxKm: real)

  datatype Verdict = Accepted | Rejected(reason: Rejection)

  /** `validate_blood_transfer`: the first rule that fails decides. A transfer
      is accepted exactly when both hospitals are in good standing, the sender
      holds at least 10 credits and enough units of an existing entry, and the
      distance is at most 100 km; a rejection names a rule that is violated. */
  function ValidateBloodTransfer(sender: HospitalNode, receiver: HospitalNode, bloodType: string,
                                 quantity: int, distanceKm: real): (v: Verdict)
    ensures v == Accepted
            <==> !sender.isBlacklisted && !receiver.isBlacklisted && sender.bloodCredits >= MinCredits
                 && bloodType in sender.bloodInventory && sender.bloodInventory[bloodType] >= quantity
                 && distanceKm <= MaxDistanceKm
    ensures v.Rejected? ==> Violations(sender, receiver, bloodType, quantity, distanceKm)[RuleIndex(v.reason)]
  {
    if sender.isBlacklisted then Rejected(SenderBlacklisted(sender.hospitalId))
    else if receiver.isBlacklisted then Rejected(ReceiverBlacklisted(receiver.hospitalId))
    else if sender.bloodCredits < MinCredits then Rejected(InsufficientCredits(sender.bloodCredits, MinCredits))
    else if bloodType !in sender.bloodInventory || sender.bloodInventory[bloodType] < quantity
    then Rejected(InsufficientInventory(bloodType))
    else if distanceKm > MaxDistanceKm then Rejected(DistanceExceeded(distanceKm, MaxDistanceKm))
    else Accepted
  }

  // An independent statement of the rule list: the rules as an ordered list
  // of violations, and the position of the first one violated.

  /** Rule i is violated when entry i is true, in the order the contract checks them. */
  function Violations(sender: HospitalNode, receiver: HospitalNode, bloodType: string,
                      quantity: int, distanceKm: real): seq<bool>
  {
    [ sender.isBlacklisted,
      receiver.isBlacklisted,
      sender.bloodCredits < MinCredits,
      bloodType !in sender.bloodInventory || sender.bloodInventory[bloodType] < quantity,
      distanceKm > MaxDistanceKm ]
  }

  function FirstViolated(v: seq<bool>): (r: Option<nat>)
    ensures r.None? <==> forall i :: 0 <= i < |v| ==> !v[i]
    ensures r.Some? ==> r.value < |v| && v[r.value] && forall i :: 0 <= i < r.value ==> !v[i]
    decreases |v|
  {
    if v == [] then None
    else if v[0] then Some(0)
    else match FirstViolated(v[1..])
      case None => None
      case Some(k) => Some(k + 1)
  }

  function RuleIndex(r: Rejection): nat
  {
    match r
    case SenderBlacklisted(_) => 0
    case ReceiverBlacklisted(_) => 1
    case InsufficientCredits(_, _) => 2
    case InsufficientInventory(_) => 3
    case DistanceExceeded(_, _) => 4
  }

  /** The verdict is acceptance exactly when no rule is violated, and otherwise
      names the first violated rule. */
  lemma VerdictIsFirstViolation(sender: HospitalNode, receiver: HospitalNode, bloodType: string,
                                quantity: int, distanceKm: real)
    ensures var v := Violations(sender, receiver, bloodType, quantity, distanceKm);
            var verdict := ValidateBloodTransfer(sender, receiver, bloodType, quantity, distanceKm);
            (verdict == Accepted <==> FirstViolated(v) == None)
            && (verdict.Rejected? ==> FirstViolated(v) == Some(RuleIndex(verdict.reason)))
  {
    var v := Violations(sender, receiver, bloodType, quantity, distanceKm);
    var f := FirstViolated(v);
    var verdict := ValidateBloodTransfer(sender, receiver, bloodType, quantity, distanceKm);
    if verdict.Rejected? {
      var k := RuleIndex(verdict.reason);
      assert v[k] && forall i :: 0 <= i < k ==> !v[i];
      assert f.Some? && f.value == k;
    }
  }

  /** A blacklisted sender is refused for that reason, whatever else is wrong. */
  lemma BlacklistedSenderTakesPrecedence(sender: HospitalNode, receiver: HospitalNode, bloodType: string,
                                         quantity: int, distanceKm: real)
    requires sender.isBlacklisted
    ensures ValidateBloodTransfer(sender, receiver, bloodType, quantity, distanceKm)
            == Rejected(SenderBlacklisted(sender.hospitalId))
  {
  }

  /** The sender's part of a transfer: the units out, the cost, one more transfer sent. */
  function Debit(h: HospitalNode, bloodType: string, quantity: int): (r: HospitalNode)
    requires bloodType in h.bloodInventory
    ensures r.bloodInventory.Keys == h.bloodInventory.Keys
    ensures r.bloodInventory[bloodType] == h.bloodInventory[bloodType] - quantity
    ensures forall b :: b in h.bloodInventory && b != bloodType ==> r.bloodInventory[b] == h.bloodInventory[b]
    ensures r.bloodCredits == h.bloodCredits - 5 && r.totalTransfersSent == h.totalTransfersSent + 1
    ensures r.(bloodInventory := h.bloodInventory, bloodCredits := h.bloodCredits,
               totalTransfersSent := h.totalTransfersSent) == h
  {
    h.(bloodInventory := h.bloodInventory[bloodType := h.bloodInventory[bloodType] - quantity],
       bloodCredits := h.bloodCredits - TransferCost,
       totalTransfersSent := h.totalTransfersSent + 1)
  }

  /** The receiver's part: the units in (an absent entry starting at 0), the reward, one more received. */
  function Credit(h: HospitalNode, bloodType: string, quantity: int): (r: HospitalNode)
    ensures r.bloodInventory.Keys == h.bloodInventory.Keys + {bloodType}
    ensures r.bloodInventory[bloodType] == Units(h.bloodInventory, bloodType) + quantity
    ensures forall b :: b in h.bloodInventory && b != bloodType ==> r.bloodInventory[b] == h.bloodInventory[b]
    ensures r.bloodCredits == h.bloodCredits + 2 && r.totalTransfersReceived == h.totalTransfersReceived + 1
    ensures r.(bloodInventory := h.bloodInventory, bloodCredits := h.bloodCredits,
               totalTransfersReceived := h.totalTransfersReceived) == h
  {
    h.(bloodInventory := h.bloodInventory[bloodType := Units(h.bloodInventory, bloodType) + quantity],
       bloodCredits := h.bloodCredits + ReceptionReward,
       totalTransfersReceived := h.totalTransfersReceived + 1)
  }

  /** `execute_blood_transfer` on the store: None when the sender has no entry
      for the type (the lookup fails before anything changes); otherwise the
      sender's update followed by the receiver's, the receiver being read from
      the store that already carries the sender's update. */
  function ExecuteTransfer(store: Store, senderId: string, receiverId: string,
                           bloodType: string, quantity: int): (r: Option<Store>)
    requires senderId in store && receiverId in store
    ensures r.Some? <==> bloodType in store[senderId].bloodInventory
    ensures r.Some? ==> r.value.Keys == store.Keys
    ensures r.Some? ==> forall id :: id in store && id != senderId && id != receiverId ==> r.value[id] == store[id]
  {
    if bloodType !in store[senderId].bloodInventory then None
    else
      var afterSender := store[senderId := Debit(store[senderId], bloodType, quantity)];
      Some(afterSender[receiverId := Credit(afterSender[receiverId], bloodType, quantity)])
  }

  /** Between two distinct hospitals: the sender loses the units and 5 credits
      and counts one more sent; the receiver gains the units and 2 credits and
      counts one more received; nobody else changes. */
  lemma TransferBetweenDistinct(store: Store, senderId: string, receiverId: string,
                                bloodType: string, quantity: int)
    requires senderId in store && receiverId in store && senderId != receiverId
    requires bloodType in store[senderId].bloodInventory
    ensures var r := ExecuteTransfer(store, senderId, receiverId, bloodType, quantity);
            var s, t := store[senderId], store[receiverId];
            r.Some? && r.value.Keys == store.Keys
            && r.value[senderId].bloodInventory[bloodType] == s.bloodInventory[bloodType] - quantity
            && r.value[senderId].bloodCredits == s.bloodCredits - 5
            && r.value[senderId].totalTransfersSent == s.totalTransfersSent + 1
            && r.value[senderId].totalTransfersReceived == s.totalTransfersReceived
            && r.value[receiverId].bloodInventory[bloodType] == Units(t.bloodInventory, bloodType) + quantity
            && r.value[receiverId].bloodCredits == t.bloodCredits + 2
            && r.value[receiverId].totalTransfersReceived == t.totalTransfersReceived + 1
            && r.value[receiverId].totalTransfersSent == t.totalTransfersSent
            && (forall b :: b != bloodType && b in s.bloodInventory ==>
                  b in r.value[senderId].bloodInventory && r.value[senderId].bloodInventory[b] == s.bloodInventory[b])
            && (forall b :: b != bloodType ==>
                  Units(r.value[receiverId].bloodInventory, b) == Units(t.bloodInventory, b))
            && r.value[senderId].bloodInventory.Keys == s.bloodInventory.Keys
            && r.value[receiverId].bloodInventory.Keys == t.bloodInventory.Keys + {bloodType}
            && r.value[senderId].(bloodInventory := s.bloodInventory, bloodCredits := s.bloodCredits,
                                  totalTransfersSent := s.totalTransfersSent) == s
            && r.value[receiverId].(bloodInventory := t.bloodInventory, bloodCredits := t.bloodCredits,
                                    totalTransfersReceived := t.totalTransfersReceived) == t
            && (forall id :: id in store && id != senderId && id != receiverId ==> r.value[id] == store[id])
  {
  }

  /** A transfer to oneself leaves the inventory as it was, costs 3 credits
      net and counts both as sent and as received. */
  lemma TransferToSelf(store: Store, id: string, bloodType: string, quantity: int)
    requires id in store && bloodType in store[id].bloodInventory
    ensures var r := ExecuteTransfer(store, id, id, bloodType, quantity);
            var h := store[id];
            r.Some? && r.value == store[id := r.value[id]]
            && r.value[id].bloodInventory == h.bloodInventory
            && r.value[id].bloodCredits == h.bloodCredits - 3
            && r.value[id].totalTransfersSent == h.totalTransfersSent + 1
            && r.value[id].totalTransfersReceived == h.totalTransfersReceived + 1
            && r.value[id].(bloodCredits := h.bloodCredits, totalTransfersSent := h.totalTransfersSent,
                            totalTransfersReceived := h.totalTransfersReceived) == h
  {
    var h := store[id];
    var d := Debit(h, bloodType, quantity);
    assert Credit(d, bloodType, quantity).bloodInventory == h.bloodInventory;
  }

  /** Without an inventory entry for the type the transfer fails and changes nothing. */
  lemma TransferWithoutEntryFails(store: Store, senderId: string, receiverId: string,
                                  bloodType: string, quantity: int)
    requires senderId in store && receiverId in store
    ensures ExecuteTransfer(store, senderId, receiverId, bloodType, quantity).None?
            <==> bloodType !in store[senderId].bloodInventory
  {
  }

  /** The sender's update removes the quantity from the total. */
  lemma DebitUnits(store: Store, senderId: string, bloodType: string, quantity: int)
    requires senderId in store && bloodType in store[senderId].bloodInventory
    ensures TotalUnits(store[senderId := Debit(store[senderId], bloodType, quantity)]) == TotalUnits(store) - quantity
  {
    var s := store[senderId];
    var d := Debit(s, bloodType, quantity);
    assert d.bloodInventory == s.bloodInventory[bloodType := Units(s.bloodInventory, bloodType) + -quantity];
    InventoryAdd(s.bloodInventory, bloodType, -quantity);
    assert SumMap(d.bloodInventory) == SumMap(s.bloodInventory) - quantity;
    TotalUnitsUpdate(store, senderId, d);
  }

  /** The receiver's update adds the quantity to the total. */
  lemma CreditUnits(store: Store, receiverId: string, bloodType: string, quantity: int)
    requires receiverId in store
    ensures TotalUnits(store[receiverId := Credit(store[receiverId], bloodType, quantity)]) == TotalUnits(store) + quantity
  {
    var t := store[receiverId];
    var c := Credit(t, bloodType, quantity);
    assert c.bloodInventory == t.bloodInventory[bloodType := Units(t.bloodInventory, bloodType) + quantity];
    InventoryAdd(t.bloodInventory, bloodType, quantity);
    assert SumMap(c.bloodInventory) == SumMap(t.bloodInventory) + quantity;
    TotalUnitsUpdate(store, receiverId, c);
  }

  /** Units move, they are neither created nor destroyed. */
  lemma TransferConservesUnits(store: Store, senderId: string, receiverId: string,
                               bloodType: string, quantity: int)
    requires senderId in store && receiverId in store
    requires ExecuteTransfer(store, senderId, receiverId, bloodType, quantity).Some?
    ensures TotalUnits(ExecuteTransfer(store, senderId, receiverId, bloodType, quantity).value)
            == TotalUnits(store)
  {
    var afterSender := store[senderId := Debit(store[senderId], bloodType, quantity)];
    DebitUnits(store, senderId, bloodType, quantity);
    CreditUnits(afterSender, receiverId, bloodType, quantity);
  }

  /** A transfer the contract accepts can be executed on the state it was
      validated against, and leaves the sender with at least 5 credits. Its
      stock of the type stays non-negative when the transfer goes to another
      hospital or moves a non-negative quantity; a transfer to itself of a
      negative quantity can be accepted on a negative stock and leave it so. */
  lemma AcceptedTransferExecutes(store: Store, senderId: string, receiverId: string,
                                 bloodType: string, quantity: int, distanceKm: real)
    requires senderId in store && receiverId in store
    requires ValidateBloodTransfer(store[senderId], store[receiverId], bloodType, quantity, distanceKm) == Accepted
    ensures var r := ExecuteTransfer(store, senderId, receiverId, bloodType, quantity);
            r.Some? && r.value[senderId].bloodCredits >= MinCredits - TransferCost
            && (senderId != receiverId || quantity >= 0 ==> r.value[senderId].bloodInventory[bloodType] >= 0)
  {
    if senderId == receiverId {
      TransferToSelf(store, senderId, bloodType, quantity);
    }
  }

  /** The case the guard above leaves out: a self-transfer of -5 units on a
      stock of -3 is accepted and leaves the stock at -3. */
  lemma AcceptedSelfTransferKeepsNegativeStock(h: HospitalNode)
    requires h.hospitalId == "A" && h.bloodInventory == map["O+" := -3] && h.bloodCredits == 100
    requires !h.isBlacklisted
    ensures ValidateBloodTransfer(h, h, "O+", -5, 0.0) == Accepted
    ensures ExecuteTransfer(map["A" := h], "A", "A", "O+", -5).value["A"].bloodInventory["O+"] == -3
  {
    TransferToSelf(map["A" := h], "A", "O+", -5);
  }

  /** Validation is not repeated when transfers are applied: two transfers,
      each accepted against the same state, overdraw the sender once both are
      applied. */
  lemma StaleValidationOverdraws(h: HospitalNode, other: HospitalNode)
    requires h.hospitalId == "A" && other.hospitalId == "B"
    requires h.bloodInventory == map["O+" := 10] && h.bloodCredits == 100 && !h.isBlacklisted
    requires !other.isBlacklisted
    ensures var store := map["A" := h, "B" := other];
            ValidateBloodTransfer(store["A"], store["B"], "O+", 6, 5.0) == Accepted
            && ExecuteTransfer(store, "A", "B", "O+", 6).Some?
            && var once := ExecuteTransfer(store, "A", "B", "O+", 6).value;
               ExecuteTransfer(once, "A", "B", "O+", 6).Some?
               && ExecuteTransfer(once, "A", "B", "O+", 6).value["A"].bloodInventory["O+"] == -2
  {
  }
}
