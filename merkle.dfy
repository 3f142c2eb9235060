/** The Merkle root of a block's transactions: leaf hashes of the serialised
    transactions, reduced level by level, pairing neighbours and duplicating
    the last hash of an odd level. */
module Merkle {
  import opened Records

  /** One leaf hash per transaction, in order. */
  function Leaves(hg: Hashing, txs: seq<Transaction>): (r: seq<string>)
    ensures |r| == |txs|
    ensures forall i :: 0 <= i < |txs| ==> r[i] == hg.sha256(hg.txJson(txs[i]))
  {
    seq(|txs|, i requires 0 <= i < |txs| => hg.sha256(hg.txJson(txs[i])))
  }

  /** A level made even by repeating its last hash. */
  function Padded(hs: seq<string>): (p: seq<string>)
    ensures |p| % 2 == 0
  {
    if |hs| % 2 != 0 then hs + [hs[|hs| - 1]] else hs
  }

  /** The next level up: the hash of each adjacent pair of the padded level. */
  function NextLevel(sha: string -> string, hs: seq<string>): (r: seq<string>)
    ensures |r| == (|hs| + 1) / 2
  {
    var p := Padded(hs);
    seq(|p| / 2, k requires 0 <= k < |p| / 2 => sha(p[2 * k] + p[2 * k + 1]))
  }

  /** Reduce a non-empty level to the single hash at the top. */
  function Reduce(sha: string -> string, hs: seq<string>): string
    requires |hs| >= 1
    decreases |hs|
  {
    if |hs| == 1 then hs[0] else Reduce(sha, NextLevel(sha, hs))
  }

  /** `calculate_merkle_root`: the digest of the empty text for no
      transactions, the leaf hash itself for one. */
  function MerkleRoot(hg: Hashing, txs: seq<Transaction>): (r: string)
    ensures txs == [] ==> r == hg.sha256("")
    ensures |txs| == 1 ==> r == hg.sha256(hg.txJson(txs[0]))
  {
    if txs == [] then hg.sha256("") else Reduce(hg.sha256, Leaves(hg, txs))
  }

  /** Level containment: each level has ceil(n/2) hashes, and on an odd level
      the last one pairs the last hash with itself. */
  lemma NextLevelAt(sha: string -> string, hs: seq<string>, k: nat)
    requires k < (|hs| + 1) / 2
    ensures NextLevel(sha, hs)[k] == sha(Padded(hs)[2 * k] + Padded(hs)[2 * k + 1])
  {
  }

  /** A list holding the hash of each adjacent pair of the padded level is the next level. */
  lemma PairHashesAreNextLevel(sha: string -> string, hs: seq<string>, pairs: seq<string>)
    requires |pairs| == |Padded(hs)| / 2
    requires forall k :: 0 <= k < |pairs| ==> pairs[k] == sha(Padded(hs)[2 * k] + Padded(hs)[2 * k + 1])
    ensures pairs == NextLevel(sha, hs)
  {
    forall k | 0 <= k < |pairs| ensures pairs[k] == NextLevel(sha, hs)[k] {
      NextLevelAt(sha, hs, k);
    }
  }

  lemma LevelShape(sha: string -> string, hs: seq<string>)
    requires |hs| % 2 == 1
    ensures |NextLevel(sha, hs)| == |hs| / 2 + 1
    ensures NextLevel(sha, hs)[|hs| / 2] == sha(hs[|hs| - 1] + hs[|hs| - 1])
  {
    NextLevelAt(sha, hs, |hs| / 2);
  }

  /** Three transactions: the third leaf is paired with itself. */
  lemma MerkleOfThree(hg: Hashing, a: Transaction, b: Transaction, c: Transaction)
    ensures var la, lb, lc := hg.sha256(hg.txJson(a)), hg.sha256(hg.txJson(b)), hg.sha256(hg.txJson(c));
            MerkleRoot(hg, [a, b, c]) == hg.sha256(hg.sha256(la + lb) + hg.sha256(lc + lc))
  {
    var sha := hg.sha256;
    var la, lb, lc := sha(hg.txJson(a)), sha(hg.txJson(b)), sha(hg.txJson(c));
    var leaves := Leaves(hg, [a, b, c]);
    assert leaves == [la, lb, lc];
    assert Padded(leaves) == [la, lb, lc, lc];
    var up := NextLevel(sha, leaves);
    NextLevelAt(sha, leaves, 0);
    NextLevelAt(sha, leaves, 1);
    assert up == [sha(la + lb), sha(lc + lc)];
    var top := NextLevel(sha, up);
    NextLevelAt(sha, up, 0);
    assert top == [sha(up[0] + up[1])];
    calc {
      MerkleRoot(hg, [a, b, c]);
      Reduce(sha, leaves);
      Reduce(sha, up);
      Reduce(sha, top);
      sha(sha(la + lb) + sha(lc + lc));
    }
  }

  function Pow2(k: nat): (p: nat)
    ensures p >= 1
  {
    if k == 0 then 1 else 2 * Pow2(k - 1)
  }

  /** Pairing distributes over the split of an even-length level. */
  lemma NextLevelSplit(sha: string -> string, l: seq<string>, r: seq<string>)
    requires |l| % 2 == 0 && |r| % 2 == 0
    ensures NextLevel(sha, l + r) == NextLevel(sha, l) + NextLevel(sha, r)
  {
    var lr := l + r;
    assert Padded(lr) == lr && Padded(l) == l && Padded(r) == r;
    var a, b, c := NextLevel(sha, lr), NextLevel(sha, l), NextLevel(sha, r);
    assert |a| == |b| + |c|;
    forall k | 0 <= k < |a| ensures a[k] == (b + c)[k] {
      NextLevelAt(sha, lr, k);
      if k < |b| {
        NextLevelAt(sha, l, k);
        assert lr[2 * k] == l[2 * k] && lr[2 * k + 1] == l[2 * k + 1];
      } else {
        var j := k - |b|;
        NextLevelAt(sha, r, j);
        assert lr[2 * k] == r[2 * j] && lr[2 * k + 1] == r[2 * j + 1];
      }
    }
  }

  /** A level of two hashes reduces to the hash of the pair. */
  lemma ReducePair(sha: string -> string, hs: seq<string>)
    requires |hs| == 2
    ensures Reduce(sha, hs) == sha(hs[0] + hs[1])
  {
    assert Padded(hs) == hs;
    var up := NextLevel(sha, hs);
    NextLevelAt(sha, hs, 0);
    assert up == [sha(hs[0] + hs[1])];
  }

  /** On a level of 4q hashes, the two halves of the next level are the next
      levels of the two halves. */
  lemma NextLevelOfHalves(sha: string -> string, hs: seq<string>, q: nat)
    requires |hs| == 4 * q
    ensures var up := NextLevel(sha, hs);
            |up| == 2 * q && up[..q] == NextLevel(sha, hs[..2 * q]) && up[q..] == NextLevel(sha, hs[2 * q..])
  {
    var l, r := hs[..2 * q], hs[2 * q..];
    assert hs == l + r;
    NextLevelSplit(sha, l, r);
  }

  /** On a level of 2^k hashes the reduction is the usual binary Merkle tree:
      the root hashes the roots of the two halves. */
  lemma {:induction false} ReduceIsBinaryTree(sha: string -> string, hs: seq<string>, k: nat)
    requires k >= 1 && |hs| == Pow2(k)
    decreases k
    ensures var h := |hs| / 2;
            Reduce(sha, hs) == sha(Reduce(sha, hs[..h]) + Reduce(sha, hs[h..]))
  {
    if k == 1 {
      ReducePair(sha, hs);
    } else {
      var q := Pow2(k - 2);
      assert Pow2(k - 1) == 2 * q;
      assert |hs| == 4 * q;
      var h := 2 * q;
      assert |hs| / 2 == h;
      var l, r := hs[..h], hs[h..];
      NextLevelOfHalves(sha, hs, q);
      var up := NextLevel(sha, hs);
      assert |up| == Pow2(k - 1) && |up| / 2 == q;
      ReduceIsBinaryTree(sha, up, k - 1);
      ReduceStep(sha, hs);
      ReduceStep(sha, l);
      ReduceStep(sha, r);
    }
  }

  lemma ReduceStep(sha: string -> string, hs: seq<string>)
    requires |hs| >= 2
    ensures Reduce(sha, hs) == Reduce(sha, NextLevel(sha, hs))
  {
  }
}
