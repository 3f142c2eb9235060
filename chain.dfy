/** Chain integrity: block hashing, the genesis block, the shape every mined
    block has, and the chain-validation check, as the code performs it and as
    it is evidently meant. */
module Chain {
  import opened Records
  import opened Merkle
  import opened Work

  /** `calculate_hash`: the digest of the block record's JSON text, with
      whatever keys the record has at the time. */
  function BlockHash(hg: Hashing, b: Block): string
  {
    hg.sha256(hg.blockJson(b))
  }

  /** The stored hash is the hash of the record taken before the hash key was inserted. */
  predicate Sealed(hg: Hashing, b: Block)
  {
    b.hash == Some(BlockHash(hg, b.(hash := None)))
  }

  /** `create_genesis_block`. */
  function GenesisBlock(hg: Hashing, timestamp: real): (b: Block)
    ensures IsGenesis(hg, b) && b.timestamp == timestamp
  {
    var open := Block(0, timestamp, [], 0, "0", MerkleRoot(hg, []), "system", None);
    open.(hash := Some(BlockHash(hg, open)))
  }

  predicate IsGenesis(hg: Hashing, b: Block)
  {
    b.index == 0 && b.transactions == [] && b.proof == 0 && b.previousHash == "0"
    && b.merkleRoot == hg.sha256("") && b.validator == "system" && Sealed(hg, b)
  }

  /** What mining establishes between a block and its predecessor. */
  predicate MinedAfter(hg: Hashing, difficulty: nat, maxTxs: nat, prev: Block, b: Block)
  {
    b.previousHash == HashOf(prev)
    && ValidProof(hg, difficulty, prev.proof, b.proof, HashOf(prev))
    && b.merkleRoot == MerkleRoot(hg, b.transactions)
    && 1 <= |b.transactions| <= maxTxs
  }

  /** The shape of every chain the ledger builds. */
  predicate WellFormedChain(hg: Hashing, difficulty: nat, maxTxs: nat, chain: seq<Block>)
  {
    |chain| >= 1 && IsGenesis(hg, chain[0])
    && (forall i :: 0 <= i < |chain| ==> chain[i].index == i && Sealed(hg, chain[i]))
    && (forall i :: 1 <= i < |chain| ==> MinedAfter(hg, difficulty, maxTxs, chain[i - 1], chain[i]))
  }

  lemma AppendKeepsWellFormed(hg: Hashing, difficulty: nat, maxTxs: nat, chain: seq<Block>, b: Block)
    requires WellFormedChain(hg, difficulty, maxTxs, chain)
    requires b.index == |chain| && Sealed(hg, b)
    requires MinedAfter(hg, difficulty, maxTxs, chain[|chain| - 1], b)
    ensures WellFormedChain(hg, difficulty, maxTxs, chain + [b])
  {
    var c := chain + [b];
    forall i | 1 <= i < |c| ensures MinedAfter(hg, difficulty, maxTxs, c[i - 1], c[i]) {
      if i < |chain| {
        assert c[i - 1] == chain[i - 1] && c[i] == chain[i];
      }
    }
  }

  /** The checks `validate_chain` makes of block b against its predecessor,
      in its order: the hash recomputed from the stored record (which by then
      holds the hash key), the link, the proof. */
  predicate BlockPassesAsWritten(hg: Hashing, difficulty: nat, prev: Block, b: Block)
  {
    HashOf(b) == BlockHash(hg, b)
    && b.previousHash == HashOf(prev)
    && ValidProof(hg, difficulty, prev.proof, b.proof, HashOf(prev))
  }

  predicate ValidChainAsWritten(hg: Hashing, difficulty: nat, chain: seq<Block>)
  {
    forall i :: 1 <= i < |chain| ==> BlockPassesAsWritten(hg, difficulty, chain[i - 1], chain[i])
  }

  /** The same checks with the hash recomputed from the record without its hash key. */
  predicate BlockPassesIntended(hg: Hashing, difficulty: nat, prev: Block, b: Block)
  {
    HashOf(b) == BlockHash(hg, b.(hash := None))
    && b.previousHash == HashOf(prev)
    && ValidProof(hg, difficulty, prev.proof, b.proof, HashOf(prev))
  }

  predicate ValidChainIntended(hg: Hashing, difficulty: nat, chain: seq<Block>)
  {
    forall i :: 1 <= i < |chain| ==> BlockPassesIntended(hg, difficulty, chain[i - 1], chain[i])
  }

  /** A chain holding only its genesis block validates. */
  lemma GenesisOnlyValidates(hg: Hashing, difficulty: nat, timestamp: real)
    ensures ValidChainAsWritten(hg, difficulty, [GenesisBlock(hg, timestamp)])
    ensures ValidChainIntended(hg, difficulty, [GenesisBlock(hg, timestamp)])
  {
  }

  /** Every chain the ledger builds passes the intended check. */
  lemma WellFormedPassesIntended(hg: Hashing, difficulty: nat, maxTxs: nat, chain: seq<Block>)
    requires WellFormedChain(hg, difficulty, maxTxs, chain)
    ensures ValidChainIntended(hg, difficulty, chain)
  {
    forall i | 1 <= i < |chain| ensures BlockPassesIntended(hg, difficulty, chain[i - 1], chain[i]) {
      assert Sealed(hg, chain[i]);
      assert MinedAfter(hg, difficulty, maxTxs, chain[i - 1], chain[i]);
    }
  }

  /** On such a chain the check as written passes exactly when every mined
      block's hash is also the hash of the record that contains it, which
      nothing in the code arranges. */
  lemma AsWrittenNeedsFixpoint(hg: Hashing, difficulty: nat, maxTxs: nat, chain: seq<Block>)
    requires WellFormedChain(hg, difficulty, maxTxs, chain)
    ensures ValidChainAsWritten(hg, difficulty, chain)
            <==> forall i :: 1 <= i < |chain| ==> BlockHash(hg, chain[i]) == BlockHash(hg, chain[i].(hash := None))
  {
    forall i | 1 <= i < |chain|
      ensures BlockPassesAsWritten(hg, difficulty, chain[i - 1], chain[i])
              <==> BlockHash(hg, chain[i]) == BlockHash(hg, chain[i].(hash := None))
    {
      assert Sealed(hg, chain[i]);
      assert MinedAfter(hg, difficulty, maxTxs, chain[i - 1], chain[i]);
    }
    if ValidChainAsWritten(hg, difficulty, chain) {
      forall i | 1 <= i < |chain| ensures BlockHash(hg, chain[i]) == BlockHash(hg, chain[i].(hash := None)) {
        assert BlockPassesAsWritten(hg, difficulty, chain[i - 1], chain[i]);
      }
    }
  }

  /** Altering the stored hash of a mined block to a value other than the
      recomputed one makes the check fail. */
  lemma TamperedHashFails(hg: Hashing, difficulty: nat, chain: seq<Block>, i: nat, forged: string)
    requires 1 <= i < |chain|
    requires forged != BlockHash(hg, chain[i].(hash := Some(forged)))
    ensures !ValidChainAsWritten(hg, difficulty, chain[i := chain[i].(hash := Some(forged))])
  {
    var c := chain[i := chain[i].(hash := Some(forged))];
    assert !BlockPassesAsWritten(hg, difficulty, c[i - 1], c[i]);
  }

  /** Primitives under which the effect is visible: the digest of any text
      starts with four zeros (so every nonce solves the puzzle), and the JSON
      text of a block record depends on whether it holds the hash key. */
  function WitnessHashing(): Hashing
  {
    Hashing((s: string) => "0000" + s, (b: Block) => if b.hash.Some? then "sealed" else "open",
            (tx: Transaction) => "tx")
  }

  /** A registration, the only transaction of the witness block. */
  function WitnessTransaction(): Transaction
  {
    HospitalRegistration("H1", "Hospital", (0.0, 0.0), 100, 1.0, "t1")
  }

  /** The chain mining produces from a fresh ledger with one pending
      registration, under the witness primitives: genesis, then block 1. */
  function FreshlyMinedChain(): seq<Block>
  {
    var hg := WitnessHashing();
    var g := GenesisBlock(hg, 0.0);
    var open := Block(1, 1.0, [WitnessTransaction()], 0, HashOf(g),
                      MerkleRoot(hg, [WitnessTransaction()]), "H1", None);
    [g, open.(hash := Some(BlockHash(hg, open)))]
  }

  /** Finding, as written: the freshly mined chain is well-formed and passes
      the intended check, yet `validate_chain` as written rejects it. */
  lemma FreshlyMinedChainFailsAsWritten()
    ensures WellFormedChain(WitnessHashing(), 4, 10, FreshlyMinedChain())
    ensures ValidChainIntended(WitnessHashing(), 4, FreshlyMinedChain())
    ensures !ValidChainAsWritten(WitnessHashing(), 4, FreshlyMinedChain())
  {
    var hg := WitnessHashing();
    var c := FreshlyMinedChain();
    assert MerkleRoot(hg, [WitnessTransaction()]) == hg.sha256(hg.txJson(WitnessTransaction()));
    assert Sealed(hg, c[0]) && Sealed(hg, c[1]);
    assert ValidProof(hg, 4, c[0].proof, c[1].proof, HashOf(c[0]));
    assert MinedAfter(hg, 4, 10, c[0], c[1]);
    WellFormedPassesIntended(hg, 4, 10, c);
    assert BlockHash(hg, c[1]) == "0000sealed";
    assert HashOf(c[1]) == "0000open";
    assert !BlockPassesAsWritten(hg, 4, c[0], c[1]);
  }
}
