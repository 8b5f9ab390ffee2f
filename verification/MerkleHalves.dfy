/** The same tree built from halves: what its root hashes, with no positions and no levels. */
module MerkleHalves {
  import opened Merkle
  import opened Outcome
  import opened Sums

  /**
    The hash of both halves of a list of at most two to the depth leaves. A right
    half with no leaves counts as 0; the left one is hashed whether it has any or not.
   */
  function Halved(h: Hash, leaves: seq<nat>, depth: nat): nat {
    if depth == 0 then (if |leaves| == 0 then 0 else leaves[0])
    else
      var half := Pow2(depth - 1);
      if |leaves| <= half then h(Halved(h, leaves, depth - 1), 0)
      else h(Halved(h, leaves[..half], depth - 1), Halved(h, leaves[half..], depth - 1))
  }

  lemma {:induction false} Pow2Positive(n: nat)
    ensures Pow2(n) > 0
  {
    if n > 0 { Pow2Positive(n - 1); }
  }

  /** The leaves below a node: those from its position on, in blocks of two to the level. */
  lemma {:induction false} PresentAbove(n: nat, level: nat, j: nat)
    ensures Present(n, level, j) <==> (level > 0 && j == 0) || j * Pow2(level) < n
  {
    if level > 0 {
      PresentAbove(n, level - 1, 2 * j);
      Regroup(j, Pow2(level - 1));
    }
  }

  lemma Regroup(j: nat, block: nat)
    ensures 2 * j * block == j * (2 * block) && (2 * j + 1) * block == j * (2 * block) + block
  {
    MulAssociates(2, j, block);
    MulDistributes(2 * j, 1, block);
  }

  function Upto(n: nat, m: nat): nat { if n < m then n else m }

  /** The block of leaves below the node at this level that starts at a position. */
  function Block(leaves: seq<nat>, start: nat, size: nat): seq<nat>
    requires start <= |leaves|
  {
    leaves[start..Upto(|leaves|, start + size)]
  }

  lemma SplitBlock(leaves: seq<nat>, start: nat, half: nat)
    requires start <= |leaves| && half > 0
    ensures var block := Block(leaves, start, 2 * half);
            if start + half < |leaves| then
              && |block| > half && block[..half] == Block(leaves, start, half)
              && block[half..] == Block(leaves, start + half, half)
            else |block| <= half && block == Block(leaves, start, half)
  {
  }

  lemma {:induction false} NodeIsHalved(h: Hash, leaves: seq<nat>, level: nat, j: nat, start: nat)
    requires start == j * Pow2(level)
    ensures start < |leaves| || j == 0 ==>
              start <= |leaves| && Node(h, leaves, level, j) == Halved(h, Block(leaves, start, Pow2(level)), level)
    ensures start >= |leaves| && j > 0 ==> Node(h, leaves, level, j) == 0
  {
    hide Block;
    PresentAbove(|leaves|, level, j);
    if level == 0 {
      OneLeaf(leaves, start);
    } else if start < |leaves| || j == 0 {
      var half := Pow2(level - 1);
      Regroup(j, half);
      Pow2Positive(level - 1);
      NodeIsHalved(h, leaves, level - 1, 2 * j, start);
      NodeIsHalved(h, leaves, level - 1, 2 * j + 1, start + half);
      if start <= |leaves| { SplitBlock(leaves, start, half); }
    }
  }

  lemma OneLeaf(leaves: seq<nat>, start: nat)
    ensures start < |leaves| ==> Block(leaves, start, 1) == [leaves[start]]
    ensures start == |leaves| ==> Block(leaves, start, 1) == []
  {
  }

  /** For any list within capacity the root is the hash of the two halves, each in turn that of its own. */
  lemma {:induction false} RootIsHalved(h: Hash, leaves: seq<nat>, depth: nat)
    requires |leaves| <= Pow2(depth)
    ensures Root(h, leaves, depth) == Halved(h, leaves, depth)
  {
    NodeIsHalved(h, leaves, depth, 0, 0);
    assert Block(leaves, 0, Pow2(depth)) == leaves;
  }

  /** The tree of no leaves hashes the node below it with 0 at every level; so it is not 0 from there on. */
  lemma {:induction false} EmptyRootIsHashed(h: Hash, depth: nat)
    ensures Root(h, [], 0) == 0
    ensures Root(h, [], depth + 1) == h(Root(h, [], depth), 0)
  {
    RootIsHalved(h, [], 0);
    RootIsHalved(h, [], depth);
    RootIsHalved(h, [], depth + 1);
  }
}
