/** The ledger's data model: hospital records, the four kinds of transaction
    record, blocks, and the primitives (SHA-256, JSON serialisation) that the
    ledger treats as given. */
module Records {

  datatype Option<T> = None | Some(value: T)

  /** (latitude, longitude) in degrees. */
  type Location = (real, real)

  /** One registered hospital. `bloodInventory` maps a blood-type code to a unit
      count; nothing keeps it non-negative. */
  datatype HospitalNode = HospitalNode(
    hospitalId: string,
    name: string,
    location: Location,
    bloodCredits: int,
    tamperingCredits: int,
    bloodInventory: map<string, int>,
    isBlacklisted: bool,
    reputationScore: int,
    totalTransfersSent: int,
    totalTransfersReceived: int)

  /** The participants, keyed by hospital id. */
  type Store = map<string, HospitalNode>

  const DefaultTamperingCredits: int := 2
  const InitialReputation: int := 100

  /** A freshly constructed hospital record: the given identity, place and
      credits, an empty inventory, not blacklisted, full reputation, two
      tampering credits and no transfers yet. */
  function NewHospitalNode(hospitalId: string, name: string, location: Location, initialCredits: int): (h: HospitalNode)
    ensures h.hospitalId == hospitalId && h.name == name && h.location == location
    ensures h.bloodCredits == initialCredits && h.bloodInventory == map[]
    ensures !h.isBlacklisted && h.reputationScore == InitialReputation && h.tamperingCredits == DefaultTamperingCredits
    ensures h.totalTransfersSent == 0 && h.totalTransfersReceived == 0
  {
    HospitalNode(hospitalId, name, location, initialCredits, DefaultTamperingCredits, map[],
                 false, InitialReputation, 0, 0)
  }

  /** Units of `bloodType` held, a missing entry counting as zero. */
  function Units(inventory: map<string, int>, bloodType: string): int
  {
    if bloodType in inventory then inventory[bloodType] else 0
  }

  /** The record with `quantity` more units of `bloodType`, the entry created at 0 if absent. */
  function AddedUnits(h: HospitalNode, bloodType: string, quantity: int): HospitalNode
  {
    h.(bloodInventory := h.bloodInventory[bloodType := Units(h.bloodInventory, bloodType) + quantity])
  }

  /** The pending-transaction records, one constructor per `type` tag. */
  datatype Transaction =
    | HospitalRegistration(hospitalId: string, name: string, location: Location,
                           initialCredits: int, timestamp: real, transactionId: string)
    | InventoryUpdate(hospitalId: string, bloodType: string, quantityAdded: int,
                      newTotal: int, timestamp: real, transactionId: string)
    | BloodTransfer(transactionId: string, senderId: string, receiverId: string,
                    bloodType: string, quantity: int, urgencyLevel: string,
                    distanceKm: real, timestamp: real, status: string,
                    verificationHash: string)
    | TamperingPenalty(hospitalId: string, reason: string, remainingTamperingCredits: int,
                       newReputationScore: int, isBlacklisted: bool,
                       timestamp: real, transactionId: string)

  /** A block as the ledger stores it. `hash` is None while the block is being
      built and hashed, and Some once the hash key has been inserted. */
  datatype Block = Block(
    index: int,
    timestamp: real,
    transactions: seq<Transaction>,
    proof: int,
    previousHash: string,
    merkleRoot: string,
    validator: string,
    hash: Option<string>)

  /** The stored hash of a block; blocks on the chain always carry one. */
  function HashOf(b: Block): string
  {
    if b.hash.Some? then b.hash.value else ""
  }

  /** The foreign primitives the ledger relies on, left uninterpreted: the
      SHA-256 hex digest of a string, and the canonical (sorted-key) JSON text
      of a block record and of a transaction record. */
  datatype Hashing = Hashing(
    sha256: string -> string,
    blockJson: Block -> string,
    txJson: Transaction -> string)
}
