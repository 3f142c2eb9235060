/** The trust scorer: the tampering penalty, its effect on reputation and the
    irreversible blacklist, and the invariant every stored hospital keeps. */
module Trust {
  import opened Records

  const ReputationPenalty: int := 15

  /** What every stored record satisfies: it sits under its own id, its
      reputation lies in [0, 100], and exhausted tampering credits mean it is
      blacklisted. */
  predicate TrustInvariant(h: HospitalNode)
  {
    0 <= h.reputationScore <= 100 && (h.tamperingCredits <= 0 ==> h.isBlacklisted)
  }

  predicate StoreInvariant(store: Store)
  {
    forall id :: id in store ==> store[id].hospitalId == id && TrustInvariant(store[id])
  }

  /** One penalty: a tampering credit lost, reputation down by 15 but not
      below 0, blacklisted once the credits are exhausted (never cleared). */
  function Penalized(h: HospitalNode): (r: HospitalNode)
    ensures r.tamperingCredits == h.tamperingCredits - 1
    ensures r.reputationScore >= 0 && (h.reputationScore >= 0 ==> r.reputationScore <= h.reputationScore)
    ensures r.reputationScore == 0 || r.reputationScore == h.reputationScore - ReputationPenalty
    ensures r.isBlacklisted <==> h.isBlacklisted || r.tamperingCredits <= 0
    ensures r.(tamperingCredits := h.tamperingCredits, reputationScore := h.reputationScore,
               isBlacklisted := h.isBlacklisted) == h
  {
    var credits := h.tamperingCredits - 1;
    var reputation := if h.reputationScore - ReputationPenalty > 0 then h.reputationScore - ReputationPenalty else 0;
    h.(tamperingCredits := credits,
       reputationScore := reputation,
       isBlacklisted := if credits <= 0 then true else h.isBlacklisted)
  }

  lemma PenaltyKeepsInvariant(h: HospitalNode)
    requires TrustInvariant(h)
    ensures TrustInvariant(Penalized(h))
  {
  }

  /** A fresh record passes the invariant. */
  lemma NewNodeKeepsInvariant(id: string, name: string, location: Location, credits: int)
    ensures TrustInvariant(NewHospitalNode(id, name, location, credits))
  {
  }

  /** `k` penalties in a row. */
  function PenalizedTimes(h: HospitalNode, k: nat): HospitalNode
    decreases k
  {
    if k == 0 then h else Penalized(PenalizedTimes(h, k - 1))
  }

  function Max0(x: int): int
  {
    if x > 0 then x else 0
  }

  /** After k penalties: k credits gone, reputation max(0, r - 15k), and the
      record blacklisted exactly when it already was or the credits ran out;
      the rest of the record is untouched. */
  lemma {:induction false} PenalizedTimesEffect(h: HospitalNode, k: nat)
    requires h.reputationScore >= 0
    ensures PenalizedTimes(h, k).tamperingCredits == h.tamperingCredits - k
    ensures PenalizedTimes(h, k).reputationScore == Max0(h.reputationScore - ReputationPenalty * k)
    ensures PenalizedTimes(h, k).isBlacklisted
            == (h.isBlacklisted || (k >= 1 && h.tamperingCredits - k <= 0))
    ensures PenalizedTimes(h, k).bloodInventory == h.bloodInventory
    ensures PenalizedTimes(h, k).bloodCredits == h.bloodCredits
    decreases k
  {
    if k > 0 {
      PenalizedTimesEffect(h, k - 1);
    }
  }

  /** With the default two tampering credits a fresh hospital survives one
      penalty and is blacklisted by the second. */
  lemma SecondPenaltyBlacklists(id: string, name: string, location: Location, credits: int)
    ensures !PenalizedTimes(NewHospitalNode(id, name, location, credits), 1).isBlacklisted
    ensures PenalizedTimes(NewHospitalNode(id, name, location, credits), 2).isBlacklisted
    ensures PenalizedTimes(NewHospitalNode(id, name, location, credits), 2).tamperingCredits == 0
  {
    PenalizedTimesEffect(NewHospitalNode(id, name, location, credits), 1);
    PenalizedTimesEffect(NewHospitalNode(id, name, location, credits), 2);
  }

  /** The blacklist is never lifted by further penalties. */
  lemma {:induction false} BlacklistIsPermanent(h: HospitalNode, k: nat)
    requires h.isBlacklisted
    ensures PenalizedTimes(h, k).isBlacklisted
    decreases k
  {
    if k > 0 {
      BlacklistIsPermanent(h, k - 1);
    }
  }
}
