/**
  The two-level records of atomic amounts (`balances`, `locked`) and the helpers
  that read and add to them. Addresses stand for their lower-cased form, and a
  missing entry reads as zero.
 */
module Ledger {
  type Address = string

  datatype Key = Key(user: Address, token: Address)

  type Bucket = map<Key, int>

  function Get(root: Bucket, k: Key): int {
    if k in root then root[k] else 0
  }

  /** Adds to one entry and leaves every other entry as it was. */
  function Add(root: Bucket, k: Key, delta: int): (next: Bucket)
    ensures forall other :: Get(next, other) == Get(root, other) + if other == k then delta else 0
  {
    root[k := Get(root, k) + delta]
  }

  /** All users' amounts of one token. */
  ghost function Total(root: Bucket, token: Address): int {
    if root == map[] then 0
    else var k :| k in root; Entry(root, k, token) + Total(root - {k}, token)
  }

  ghost function Entry(root: Bucket, k: Key, token: Address): int {
    if k in root && k.token == token then root[k] else 0
  }

  /** The total does not depend on which entry is counted first. */
  lemma {:induction false} TotalWithout(root: Bucket, k: Key, token: Address)
    ensures Total(root, token) == Entry(root, k, token) + Total(root - {k}, token)
    decreases |root|
  {
    if k !in root {
      assert root - {k} == root;
    } else {
      var first :| first in root && Total(root, token) == Entry(root, first, token) + Total(root - {first}, token);
      if first != k {
        TotalWithout(root - {first}, k, token);
        TotalWithout(root - {k}, first, token);
        assert root - {first} - {k} == root - {k} - {first};
        assert Entry(root - {first}, k, token) == Entry(root, k, token);
        assert Entry(root - {k}, first, token) == Entry(root, first, token);
      }
    }
  }

  /** Adding to one entry moves the total of its token, and of no other. */
  lemma {:induction false} TotalAfterAdd(root: Bucket, k: Key, delta: int, token: Address)
    ensures Total(Add(root, k, delta), token) == Total(root, token) + if k.token == token then delta else 0
  {
    TotalWithout(root, k, token);
    TotalWithout(Add(root, k, delta), k, token);
    assert Add(root, k, delta) - {k} == root - {k};
  }
}
