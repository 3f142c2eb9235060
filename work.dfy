/** The proof-of-work puzzle: a nonce is valid against the previous block when
    the digest of previous proof, nonce and previous hash starts with
    `difficulty` hexadecimal zeros. */
module Work {
  import opened Records
  import opened Decimal

  function Repeat(c: char, n: nat): (r: string)
    ensures |r| == n && forall i :: 0 <= i < n ==> r[i] == c
  {
    if n == 0 then [] else Repeat(c, n - 1) + [c]
  }

  /** Python's `s[:n]` for a non-negative n: a prefix, or the whole string when it is shorter. */
  function SlicePrefix(s: string, n: nat): string
  {
    if n <= |s| then s[..n] else s
  }

  /** `digest[:difficulty] == "0" * difficulty`. */
  predicate HasLeadingZeros(digest: string, difficulty: nat)
  {
    SlicePrefix(digest, difficulty) == Repeat('0', difficulty)
  }

  /** The string the puzzle hashes: f'{last_proof}{proof}{last_hash}', which
      opens with the previous proof's decimal text and closes with the previous hash. */
  function Guess(lastProof: int, proof: int, lastHash: string): (r: string)
    ensures |r| >= |DecimalString(lastProof)| + |lastHash|
    ensures r[..|DecimalString(lastProof)|] == DecimalString(lastProof)
    ensures r[|r| - |lastHash|..] == lastHash
  {
    DecimalString(lastProof) + DecimalString(proof) + lastHash
  }

  /** `valid_proof`: the digest of the guess has at least `difficulty`
      characters and the first `difficulty` of them are all '0'. */
  predicate ValidProof(hg: Hashing, difficulty: nat, lastProof: int, proof: int, lastHash: string)
    ensures var digest := hg.sha256(Guess(lastProof, proof, lastHash));
            ValidProof(hg, difficulty, lastProof, proof, lastHash)
            <==> difficulty <= |digest| && forall i :: 0 <= i < difficulty ==> digest[i] == '0'
  {
    var digest := hg.sha256(Guess(lastProof, proof, lastHash));
    LeadingZerosIff(digest, difficulty);
    HasLeadingZeros(digest, difficulty)
  }

  /** With the previous proof and hash fixed, the guess determines the nonce:
      two different nonces never hash the same text. */
  lemma GuessPinsNonce(lastProof: int, p: int, q: int, lastHash: string)
    requires Guess(lastProof, p, lastHash) == Guess(lastProof, q, lastHash)
    ensures p == q
  {
    var prefix := DecimalString(lastProof);
    var g := Guess(lastProof, p, lastHash);
    assert |DecimalString(p)| == |DecimalString(q)|;
    var start, stop := |prefix|, |prefix| + |DecimalString(p)|;
    assert g[start..stop] == DecimalString(p);
    assert Guess(lastProof, q, lastHash)[start..stop] == DecimalString(q);
    DecimalInjective(p, q);
  }

  /** Without the previous proof fixed the text is ambiguous: previous proof 1
      with nonce 23 and previous proof 12 with nonce 3 hash the same guess. */
  lemma GuessSharedAcrossSplits(lastHash: string)
    ensures Guess(1, 23, lastHash) == Guess(12, 3, lastHash)
  {
    assert DecimalString(1) == "1" && DecimalString(23) == "23";
    assert DecimalString(12) == "12" && DecimalString(3) == "3";
  }

  /** The slicing comparison says exactly: the digest is long enough and its
      first `difficulty` characters are all '0'. */
  lemma LeadingZerosIff(digest: string, difficulty: nat)
    ensures HasLeadingZeros(digest, difficulty)
        <==> difficulty <= |digest| && forall i :: 0 <= i < difficulty ==> digest[i] == '0'
  {
    var z := Repeat('0', difficulty);
    if difficulty <= |digest| && forall i :: 0 <= i < difficulty ==> digest[i] == '0' {
      assert digest[..difficulty] == z;
    }
    if HasLeadingZeros(digest, difficulty) {
      assert |SlicePrefix(digest, difficulty)| == difficulty;
      forall i | 0 <= i < difficulty ensures digest[i] == '0' {
        assert digest[..difficulty][i] == z[i];
      }
    }
  }
}
