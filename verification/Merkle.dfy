/**
  The zero-padded Merkle tree over note commitments, and the inclusion proofs
  that the withdrawal circuit folds. Field elements are naturals and Poseidon is
  an arbitrary two-input function; where a result needs the hash to be injective
  or never zero, that is a hypothesis of the lemma.
 */
module Merkle {
  import opened Outcome

  type Hash = (nat, nat) -> nat

  ghost predicate Injective(h: Hash) {
    forall a, b, c, d :: h(a, b) == h(c, d) ==> a == c && b == d
  }

  ghost predicate NeverZero(h: Hash) {
    forall a, b :: h(a, b) != 0
  }

  /** `nodes[i] ?? 0n`. */
  function At(nodes: seq<nat>, i: nat): nat {
    if i < |nodes| then nodes[i] else 0
  }

  // ----- What the tree means: a recursion from the top, with no level lists -----

  /** Whether the tree over n leaves has a node at this level and position. */
  predicate Present(n: nat, level: nat, j: nat) {
    if level == 0 then j < n else j == 0 || Present(n, level - 1, 2 * j)
  }

  /** The node at a level and position; an absent one is the literal 0. */
  function Node(h: Hash, leaves: seq<nat>, level: nat, j: nat): nat {
    if level == 0 then At(leaves, j)
    else if Present(|leaves|, level, j) then
      h(Node(h, leaves, level - 1, 2 * j), Node(h, leaves, level - 1, 2 * j + 1))
    else 0
  }

  function Root(h: Hash, leaves: seq<nat>, depth: nat): nat {
    Node(h, leaves, depth, 0)
  }

  /** The position, `up` levels higher, of the ancestor of position j. */
  function Ancestor(j: nat, up: nat): nat {
    if up == 0 then j else Ancestor(j / 2, up - 1)
  }

  function Sibling(j: nat): nat {
    if j % 2 == 1 then j - 1 else j + 1
  }

  function Pow2(n: nat): nat {
    if n == 0 then 1 else 2 * Pow2(n - 1)
  }

  /** The siblings met when climbing `up` levels from a node. */
  function PathFrom(h: Hash, leaves: seq<nat>, level: nat, j: nat, up: nat): (path: seq<nat>)
    ensures |path| == up
    decreases up
  {
    if up == 0 then []
    else [Node(h, leaves, level, Sibling(j))] + PathFrom(h, leaves, level + 1, j / 2, up - 1)
  }

  /** 1 where the climbing node is a right child, 0 where it is a left child. */
  function Directions(j: nat, up: nat): (dirs: seq<nat>)
    ensures |dirs| == up
  {
    if up == 0 then [] else [j % 2] + Directions(j / 2, up - 1)
  }

  /** What the withdrawal circuit computes from a leaf and a path. */
  function Fold(h: Hash, x: nat, path: seq<nat>, dirs: seq<nat>): nat
    requires |path| == |dirs|
    decreases |path|
  {
    if |path| == 0 then x
    else Fold(h, if dirs[0] == 1 then h(path[0], x) else h(x, path[0]), path[1..], dirs[1..])
  }

  // ----- The two loops of the source -----

  /** `Math.max(1, Math.ceil(n / 2))`. */
  function PairCount(n: nat): nat {
    if n <= 2 then 1 else (n + 1) / 2
  }

  /** The level lists hold exactly the tree's nodes. */
  ghost predicate IsLevel(h: Hash, leaves: seq<nat>, level: nat, nodes: seq<nat>) {
    forall j: nat :: (j < |nodes| <==> Present(|leaves|, level, j)) && At(nodes, j) == Node(h, leaves, level, j)
  }

  method BuildMerkleTree(h: Hash, leaves: seq<nat>, depth: nat) returns (root: nat, levels: seq<seq<nat>>)
    ensures root == Root(h, leaves, depth)
    ensures |levels| == depth + 1
    ensures forall l: nat :: l <= depth ==> IsLevel(h, leaves, l, levels[l])
  {
    levels := [leaves];
    var current := leaves;
    for level := 0 to depth
      invariant |levels| == level + 1 && current == levels[level]
      invariant forall l: nat :: l <= level ==> IsLevel(h, leaves, l, levels[l])
    {
      var next: seq<nat> := [];
      var pairCount := PairCount(|current|);
      for pairIndex := 0 to pairCount
        invariant |next| == pairIndex
        invariant forall j: nat :: j < pairIndex ==> next[j] == h(At(current, 2 * j), At(current, 2 * j + 1))
      {
        var left := At(current, pairIndex * 2);
        var right := At(current, pairIndex * 2 + 1);
        next := next + [h(left, right)];
      }
      assert IsLevel(h, leaves, level, levels[level]);
      NextLevelIsLevel(h, leaves, level, level + 1, current, next);
      current := next;
      levels := levels + [current];
    }
    assert IsLevel(h, leaves, depth, current);
    root := At(current, 0);
  }

  lemma {:induction false} LevelAt(h: Hash, leaves: seq<nat>, level: nat, nodes: seq<nat>, j: nat)
    requires IsLevel(h, leaves, level, nodes)
    ensures j < |nodes| <==> Present(|leaves|, level, j)
    ensures At(nodes, j) == Node(h, leaves, level, j)
  {
  }

  lemma NextLevelIsLevel(h: Hash, leaves: seq<nat>, level: nat, upper: nat, current: seq<nat>, next: seq<nat>)
    requires IsLevel(h, leaves, level, current) && upper == level + 1
    requires |next| == PairCount(|current|)
    requires forall j: nat :: j < |next| ==> next[j] == h(At(current, 2 * j), At(current, 2 * j + 1))
    ensures IsLevel(h, leaves, upper, next)
  {
    forall j: nat
      ensures (j < |next| <==> Present(|leaves|, upper, j)) && At(next, j) == Node(h, leaves, upper, j)
    {
      hide IsLevel;
      LevelAt(h, leaves, level, current, 2 * j);
      LevelAt(h, leaves, level, current, 2 * j + 1);
      assert j < |next| <==> j == 0 || 2 * j < |current|;
    }
  }

  datatype Proof = Proof(root: nat, pathElements: seq<nat>, pathIndices: seq<nat>)

  method BuildMerkleProof(h: Hash, leaves: seq<nat>, leafIndex: int, depth: nat) returns (r: Result<Proof>)
    ensures r.Ok? <==> 0 <= leafIndex < |leaves|
    ensures r.Ok? ==> r.value == Proof(Root(h, leaves, depth), PathFrom(h, leaves, 0, leafIndex, depth),
                                       Directions(leafIndex, depth))
  {
    hide Present, Node, IsLevel, PathFrom, Directions;
    if leafIndex < 0 || leafIndex >= |leaves| {
      return Err("Leaf index is out of range");
    }
    var root, levels := BuildMerkleTree(h, leaves, depth);
    var pathElements: seq<nat>, pathIndices: seq<nat> := [], [];
    var currentIndex: nat := leafIndex;
    for level := 0 to depth
      invariant pathElements + PathFrom(h, leaves, level, currentIndex, depth - level)
             == PathFrom(h, leaves, 0, leafIndex, depth)
      invariant pathIndices + Directions(currentIndex, depth - level) == Directions(leafIndex, depth)
    {
      var nodes := levels[level];
      var isRightNode := currentIndex % 2 == 1;
      var siblingIndex := if isRightNode then currentIndex - 1 else currentIndex + 1;
      ghost var path, dirs := pathElements, pathIndices;
      pathElements := pathElements + [At(nodes, siblingIndex)];
      pathIndices := pathIndices + [if isRightNode then 1 else 0];
      PathStep(h, leaves, level, currentIndex, depth - level, nodes, path, dirs);
      currentIndex := currentIndex / 2;
    }
    PathEnds(h, leaves, depth, currentIndex);
    r := Ok(Proof(root, pathElements, pathIndices));
  }

  lemma {:induction false} PathEnds(h: Hash, leaves: seq<nat>, level: nat, j: nat)
    ensures PathFrom(h, leaves, level, j, 0) == [] && Directions(j, 0) == []
  {
  }

  /** One turn of the proof loop moves one entry from the path still to climb to the path climbed. */
  lemma PathStep(h: Hash, leaves: seq<nat>, level: nat, j: nat, up: nat, nodes: seq<nat>, path: seq<nat>,
                 dirs: seq<nat>)
    requires up > 0 && IsLevel(h, leaves, level, nodes)
    ensures path + PathFrom(h, leaves, level, j, up)
         == path + [At(nodes, Sibling(j))] + PathFrom(h, leaves, level + 1, j / 2, up - 1)
    ensures dirs + Directions(j, up) == dirs + [if j % 2 == 1 then 1 else 0] + Directions(j / 2, up - 1)
  {
  }

  // ----- Shape of the tree -----

  lemma {:induction false} PresentDownward(n: nat, level: nat, i: nat, j: nat)
    requires i <= j && Present(n, level, j)
    ensures Present(n, level, i)
  {
    if level > 0 && i > 0 {
      PresentDownward(n, level - 1, 2 * i, 2 * j);
    }
  }

  /** A node's parent is there whenever the node is. */
  lemma ParentPresent(n: nat, level: nat, j: nat)
    requires Present(n, level, j)
    ensures Present(n, level + 1, j / 2)
  {
    PresentDownward(n, level, 2 * (j / 2), j);
  }

  lemma {:induction false} AncestorPresent(n: nat, i: nat, level: nat)
    requires i < n
    ensures Present(n, level, Ancestor(i, level))
  {
    if level > 0 {
      AncestorPresent(n, i, level - 1);
      AncestorStep(i, level - 1);
      ParentPresent(n, level - 1, Ancestor(i, level - 1));
    }
  }

  lemma {:induction false} AncestorStep(i: nat, up: nat)
    ensures Ancestor(i, up + 1) == Ancestor(i, up) / 2
  {
    if up > 0 {
      AncestorStep(i / 2, up - 1);
    }
  }

  /** Climbing `depth` levels from a position reaches the leftmost node exactly below capacity. */
  lemma {:induction false} AncestorIsRoot(i: nat, depth: nat)
    ensures Ancestor(i, depth) == 0 <==> i < Pow2(depth)
  {
    if depth > 0 {
      AncestorIsRoot(i / 2, depth - 1);
    }
  }

  // ----- Proofs and roots agree -----

  lemma {:induction false} PresentParentIsHash(h: Hash, leaves: seq<nat>, level: nat, j: nat)
    requires Present(|leaves|, level + 1, j / 2)
    ensures Node(h, leaves, level + 1, j / 2) ==
            if j % 2 == 1 then h(Node(h, leaves, level, Sibling(j)), Node(h, leaves, level, j))
            else h(Node(h, leaves, level, j), Node(h, leaves, level, Sibling(j)))
  {
    hide Present;
    assert j == 2 * (j / 2) + j % 2;
  }

  /** Folding any present node along its own path gives its ancestor. */
  lemma {:induction false} PathFoldsToAncestor(h: Hash, leaves: seq<nat>, level: nat, j: nat, up: nat)
    requires Present(|leaves|, level, j)
    ensures Fold(h, Node(h, leaves, level, j), PathFrom(h, leaves, level, j, up), Directions(j, up))
         == Node(h, leaves, level + up, Ancestor(j, up))
    decreases up
  {
    hide Present, Node;
    if up > 0 {
      ParentPresent(|leaves|, level, j);
      PresentParentIsHash(h, leaves, level, j);
      PathFoldsToAncestor(h, leaves, level + 1, j / 2, up - 1);
      var path := PathFrom(h, leaves, level, j, up);
      assert path[1..] == PathFrom(h, leaves, level + 1, j / 2, up - 1);
      assert Directions(j, up)[1..] == Directions(j / 2, up - 1);
    }
  }

  /**
    Every proof the service hands out folds to the root it hands out, for every
    leaf below the tree's capacity; a leaf at or beyond capacity folds to the top
    level node above it, which is not the root's.
   */
  lemma {:induction false} ProofFoldsToRoot(h: Hash, leaves: seq<nat>, i: nat, depth: nat)
    requires i < |leaves|
    ensures Fold(h, leaves[i], PathFrom(h, leaves, 0, i, depth), Directions(i, depth))
         == Node(h, leaves, depth, Ancestor(i, depth))
    ensures i < Pow2(depth) ==>
              Fold(h, leaves[i], PathFrom(h, leaves, 0, i, depth), Directions(i, depth)) == Root(h, leaves, depth)
  {
    PathFoldsToAncestor(h, leaves, 0, i, depth);
    AncestorIsRoot(i, depth);
  }

  // ----- A root commits to its leaves -----

  /** An odd number doubled some times: a two-input function that loses nothing and is never 0. */
  function Doubled(times: nat, b: nat): (n: nat)
    ensures n > 0
    ensures n % 2 == 1 <==> times == 0
  {
    if times == 0 then 2 * b + 1 else 2 * Doubled(times - 1, b)
  }

  lemma {:induction false} DoubledApart(a: nat, b: nat, c: nat, d: nat)
    requires Doubled(a, b) == Doubled(c, d)
    ensures a == c && b == d
  {
    if a > 0 && c > 0 {
      DoubledApart(a - 1, b, c - 1, d);
    }
  }

  /** The two hypotheses about the hash can be met together. */
  lemma HashExists()
    ensures exists h: Hash :: Injective(h) && NeverZero(h)
  {
    var h: Hash := (a, b) => Doubled(a, b);
    forall a, b, c, d | h(a, b) == h(c, d) ensures a == c && b == d {
      DoubledApart(a, b, c, d);
    }
    assert Injective(h) && NeverZero(h);
  }

  /** The pair that a node is the hash of. */
  function Children(h: Hash, leaves: seq<nat>, level: nat, j: nat): (nat, nat)
    requires level > 0
  {
    (Node(h, leaves, level - 1, 2 * j), Node(h, leaves, level - 1, 2 * j + 1))
  }

  /** Two trees that hash different pairs to one value at a node, or hash some pair to 0. */
  ghost predicate Breaks(h: Hash, a: seq<nat>, b: seq<nat>, level: nat, j: nat) {
    && level > 0
    && var inA, inB := Present(|a|, level, j), Present(|b|, level, j);
       var pairA, pairB := Children(h, a, level, j), Children(h, b, level, j);
       || (inA && h(pairA.0, pairA.1) == 0)
       || (inB && h(pairB.0, pairB.1) == 0)
       || (inA && inB && pairA != pairB && h(pairA.0, pairA.1) == h(pairB.0, pairB.1))
  }

  lemma {:induction false} NothingBreaks(h: Hash, a: seq<nat>, b: seq<nat>, level: nat, j: nat)
    requires Injective(h) && NeverZero(h)
    ensures !Breaks(h, a, b, level, j)
  {
    hide Node, Present;
  }

  lemma {:induction false} EqualNodesEqualPairs(h: Hash, a: seq<nat>, b: seq<nat>, level: nat, j: nat)
    requires level > 0 && Node(h, a, level, j) == Node(h, b, level, j) && !Breaks(h, a, b, level, j)
    ensures Present(|a|, level, j) == Present(|b|, level, j)
    ensures Present(|a|, level, j) ==> Children(h, a, level, j) == Children(h, b, level, j)
  {
    hide Present;
  }

  /** Equal nodes have equal leaves below them, or some node on the way shows a weakness of the hash. */
  lemma {:induction false} EqualNodesEqualLeaves(h: Hash, a: seq<nat>, b: seq<nat>, level: nat, i: nat)
    requires Node(h, a, level, Ancestor(i, level)) == Node(h, b, level, Ancestor(i, level))
    ensures At(a, i) == At(b, i) || exists l :: 0 < l <= level && Breaks(h, a, b, l, Ancestor(i, l))
  {
    hide Present, Breaks;
    if level > 0 && !Breaks(h, a, b, level, Ancestor(i, level)) {
      var j := Ancestor(i, level);
      AncestorStep(i, level - 1);
      EqualNodesEqualPairs(h, a, b, level, j);
      if Present(|a|, level, j) {
        assert Node(h, a, level - 1, Ancestor(i, level - 1)) == Node(h, b, level - 1, Ancestor(i, level - 1)) by {
          assert Ancestor(i, level - 1) == 2 * j || Ancestor(i, level - 1) == 2 * j + 1;
        }
        EqualNodesEqualLeaves(h, a, b, level - 1, i);
      } else {
        if i < |a| { AncestorPresent(|a|, i, level); }
        if i < |b| { AncestorPresent(|b|, i, level); }
      }
    }
  }

  lemma NoLonger(a: seq<nat>, b: seq<nat>, cap: nat)
    requires |a| <= cap && 0 !in a
    requires forall i: nat :: i < cap ==> At(a, i) == At(b, i)
    ensures |a| <= |b|
  {
    assert |b| < |a| ==> a[|b|] == At(a, |b|) == At(b, |b|);
  }

  lemma SameLeavesSameList(a: seq<nat>, b: seq<nat>, cap: nat)
    requires |a| <= cap && |b| <= cap && 0 !in a && 0 !in b
    requires forall i: nat :: i < cap ==> At(a, i) == At(b, i)
    ensures a == b
  {
    NoLonger(a, b, cap);
    NoLonger(b, a, cap);
    assert forall i: nat :: i < |a| ==> At(a, i) == a[i] && At(b, i) == b[i];
  }

  /**
    Whatever the hash: two different lists of non-zero leaves within capacity with
    one root show, at some node, two pairs with one hash or a pair hashed to 0.
   */
  lemma {:induction false} EqualRootsBreakTheHash(h: Hash, a: seq<nat>, b: seq<nat>, depth: nat)
    requires |a| <= Pow2(depth) && |b| <= Pow2(depth)
    requires 0 !in a && 0 !in b
    requires a != b && Root(h, a, depth) == Root(h, b, depth)
    ensures exists level, j :: 0 < level <= depth && Breaks(h, a, b, level, j)
  {
    hide Node, Breaks, At, Pow2;
    if forall i: nat :: i < Pow2(depth) ==> At(a, i) == At(b, i) {
      SameLeavesSameList(a, b, Pow2(depth));
    } else {
      var i: nat :| i < Pow2(depth) && At(a, i) != At(b, i);
      AncestorIsRoot(i, depth);
      EqualNodesEqualLeaves(h, a, b, depth, i);
    }
  }

  /** Two lists of non-zero leaves within capacity have the same root only if they are the same list. */
  lemma {:induction false} RootBindsLeaves(h: Hash, a: seq<nat>, b: seq<nat>, depth: nat)
    requires Injective(h) && NeverZero(h)
    requires |a| <= Pow2(depth) && |b| <= Pow2(depth)
    requires 0 !in a && 0 !in b
    ensures Root(h, a, depth) == Root(h, b, depth) <==> a == b
  {
    hide Node, Breaks, Pow2;
    if Root(h, a, depth) == Root(h, b, depth) && a != b {
      EqualRootsBreakTheHash(h, a, b, depth);
      var level, j :| 0 < level <= depth && Breaks(h, a, b, level, j);
      NothingBreaks(h, a, b, level, j);
    }
  }

  /** What a path is hashed with at its first level. */
  function FirstPair(j: nat, x: nat, sibling: nat): (nat, nat) {
    if j % 2 == 1 then (sibling, x) else (x, sibling)
  }

  /** A path that somewhere hashes to 0, or hashes to a node of the tree another pair than the tree does. */
  ghost predicate PathBreaks(h: Hash, leaves: seq<nat>, level: nat, j: nat, x: nat, path: seq<nat>)
    decreases |path|
  {
    && |path| > 0
    && var pair := FirstPair(j, x, path[0]);
       var y := h(pair.0, pair.1);
       || y == 0
       || (Present(|leaves|, level + 1, j / 2) && pair != Children(h, leaves, level + 1, j / 2)
           && y == Node(h, leaves, level + 1, j / 2))
       || PathBreaks(h, leaves, level + 1, j / 2, y, path[1..])
  }

  lemma {:induction false} NoPathBreaks(h: Hash, leaves: seq<nat>, level: nat, j: nat, x: nat, path: seq<nat>)
    requires Injective(h) && NeverZero(h)
    ensures !PathBreaks(h, leaves, level, j, x, path)
    decreases |path|
  {
    hide Present, Children;
    if |path| > 0 {
      var pair := FirstPair(j, x, path[0]);
      NoPathBreaks(h, leaves, level + 1, j / 2, h(pair.0, pair.1), path[1..]);
      if Present(|leaves|, level + 1, j / 2) {
        PresentIsHash(h, leaves, level + 1, j / 2);
      }
    }
  }

  lemma {:induction false} PresentIsHash(h: Hash, leaves: seq<nat>, level: nat, j: nat)
    requires level > 0 && Present(|leaves|, level, j)
    ensures Node(h, leaves, level, j) == h(Children(h, leaves, level, j).0, Children(h, leaves, level, j).1)
  {
    hide Present;
  }

  lemma {:induction false} ChildrenAreFirstPair(h: Hash, leaves: seq<nat>, level: nat, j: nat)
    ensures Children(h, leaves, level + 1, j / 2) ==
            FirstPair(j, Node(h, leaves, level, j), Node(h, leaves, level, Sibling(j)))
  {
    hide Node;
    assert j == 2 * (j / 2) + j % 2;
  }

  /** A path that folds to an ancestor is the real path, from the real node, or shows a weakness of the hash. */
  lemma {:induction false} FoldIsUnique(h: Hash, leaves: seq<nat>, level: nat, j: nat, x: nat, path: seq<nat>)
    requires Fold(h, x, path, Directions(j, |path|)) == Node(h, leaves, level + |path|, Ancestor(j, |path|))
    requires !PathBreaks(h, leaves, level, j, x, path)
    ensures x == Node(h, leaves, level, j)
    ensures path == PathFrom(h, leaves, level, j, |path|)
    decreases |path|
  {
    hide Present, Node, Children;
    if |path| > 0 {
      var tail := path[1..];
      var pair := FirstPair(j, x, path[0]);
      assert Directions(j, |path|)[1..] == Directions(j / 2, |tail|);
      FoldIsUnique(h, leaves, level + 1, j / 2, h(pair.0, pair.1), tail);
      AbsentIsZero(h, leaves, level + 1, j / 2);
      ChildrenAreFirstPair(h, leaves, level, j);
      assert path == [path[0]] + tail;
    }
  }

  lemma {:induction false} AbsentIsZero(h: Hash, leaves: seq<nat>, level: nat, j: nat)
    requires level > 0
    ensures !Present(|leaves|, level, j) ==> Node(h, leaves, level, j) == 0
  {
    hide Present;
  }

  /**
    Whatever the hash: a path from a non-zero value to the root is the one the
    service hands out for the leaf at that position, or shows a weakness.
   */
  lemma {:induction false} ForgedPathBreaksTheHash(h: Hash, leaves: seq<nat>, depth: nat, i: nat, x: nat,
                                                  path: seq<nat>)
    requires i < Pow2(depth) && x != 0 && |path| == depth
    requires Fold(h, x, path, Directions(i, depth)) == Root(h, leaves, depth)
    ensures || PathBreaks(h, leaves, 0, i, x, path)
            || (i < |leaves| && leaves[i] == x && path == PathFrom(h, leaves, 0, i, depth))
  {
    hide PathBreaks, Pow2;
    AncestorIsRoot(i, depth);
    if !PathBreaks(h, leaves, 0, i, x, path) {
      FoldIsUnique(h, leaves, 0, i, x, path);
    }
  }

  /**
    A non-zero value has a path to the root at position i exactly when it is leaf
    i, and then the path is the one the service hands out.
   */
  lemma ProvableExactlyWhenCommitted(h: Hash, leaves: seq<nat>, depth: nat, i: nat, x: nat)
    requires Injective(h) && NeverZero(h)
    requires i < Pow2(depth) && x != 0
    ensures (exists path :: |path| == depth && Fold(h, x, path, Directions(i, depth)) == Root(h, leaves, depth))
       <==> i < |leaves| && leaves[i] == x
    ensures forall path :: |path| == depth && Fold(h, x, path, Directions(i, depth)) == Root(h, leaves, depth)
              ==> path == PathFrom(h, leaves, 0, i, depth)
  {
    hide PathBreaks, Pow2, Node;
    forall path | |path| == depth && Fold(h, x, path, Directions(i, depth)) == Root(h, leaves, depth)
      ensures i < |leaves| && leaves[i] == x && path == PathFrom(h, leaves, 0, i, depth)
    {
      NoPathBreaks(h, leaves, 0, i, x, path);
      ForgedPathBreaksTheHash(h, leaves, depth, i, x, path);
    }
    if i < |leaves| && leaves[i] == x {
      ProofFoldsToRoot(h, leaves, i, depth);
      assert |PathFrom(h, leaves, 0, i, depth)| == depth;
    }
  }

  // ----- Appending a leaf -----

  lemma {:induction false} AppendKeepsPresence(n: nat, level: nat, j: nat)
    requires j != Ancestor(n, level)
    ensures Present(n + 1, level, j) <==> Present(n, level, j)
  {
    if level > 0 {
      AncestorStep(n, level - 1);
      if j > 0 {
        AppendKeepsPresence(n, level - 1, 2 * j);
      }
    }
  }

  /** A new leaf changes no node but its own ancestors: one per level. */
  lemma {:induction false} AppendChangesOnlyAncestors(h: Hash, leaves: seq<nat>, x: nat, level: nat, j: nat)
    requires j != Ancestor(|leaves|, level)
    ensures Node(h, leaves + [x], level, j) == Node(h, leaves, level, j)
  {
    if level > 0 {
      AncestorStep(|leaves|, level - 1);
      AppendKeepsPresence(|leaves|, level, j);
      AppendChangesOnlyAncestors(h, leaves, x, level - 1, 2 * j);
      AppendChangesOnlyAncestors(h, leaves, x, level - 1, 2 * j + 1);
    }
  }

  /** Leaves beyond the capacity leave no trace in the root. */
  lemma {:induction false} AppendBeyondCapacityKeepsRoot(h: Hash, leaves: seq<nat>, x: nat, depth: nat)
    requires |leaves| >= Pow2(depth)
    ensures Root(h, leaves + [x], depth) == Root(h, leaves, depth)
  {
    AncestorIsRoot(|leaves|, depth);
    AppendChangesOnlyAncestors(h, leaves, x, depth, 0);
  }

  /** The number of levels the two positions' climbs stay more than siblings apart. */
  function SplitLevel(i: nat, n: nat): nat
    requires i != n
    decreases i + n
  {
    if i / 2 == n / 2 then 0 else 1 + SplitLevel(i / 2, n / 2)
  }

  lemma {:induction false} SiblingsMeetOnce(i: nat, n: nat, level: nat)
    requires i != n
    ensures Sibling(Ancestor(i, level)) == Ancestor(n, level) <==> level == SplitLevel(i, n)
    decreases level
  {
    if level > 0 {
      if i / 2 == n / 2 {
        var a := Ancestor(i, level);
        assert Ancestor(i, level) == Ancestor(n, level);
      } else {
        SiblingsMeetOnce(i / 2, n / 2, level - 1);
      }
    }
  }

  lemma {:induction false} PathEntry(h: Hash, leaves: seq<nat>, level: nat, j: nat, up: nat, k: nat)
    requires k < up
    ensures PathFrom(h, leaves, level, j, up)[k] == Node(h, leaves, level + k, Sibling(Ancestor(j, k)))
    decreases up
  {
    hide Node, Present;
    if k > 0 {
      PathEntry(h, leaves, level + 1, j / 2, up - 1, k - 1);
    }
  }

  /** Appending a leaf can change an older leaf's proof in one known entry, and in no other. */
  lemma {:induction false} AppendChangesOneProofEntry(h: Hash, leaves: seq<nat>, x: nat, i: nat, depth: nat, k: nat)
    requires i < |leaves| && k < depth
    requires k != SplitLevel(i, |leaves|)
    ensures PathFrom(h, leaves + [x], 0, i, depth)[k] == PathFrom(h, leaves, 0, i, depth)[k]
  {
    PathEntry(h, leaves, 0, i, depth, k);
    PathEntry(h, leaves + [x], 0, i, depth, k);
    SiblingsMeetOnce(i, |leaves|, k);
    AppendChangesOnlyAncestors(h, leaves, x, k, Sibling(Ancestor(i, k)));
  }
}
