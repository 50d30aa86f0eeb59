/**
 * Reference counting over a chain of blob references.
 *
 * A chain is a sequence of blob keys, possibly with repeats; a blob may be deleted only
 * when the last entry that refers to it is popped. Popping a chain from its end down to
 * length `k` therefore deletes exactly `Dropped(hs, k)`: the keys of the popped suffix that
 * the kept prefix does not also hold.
 */
module Chains {
  import opened Primitives

  function Dropped(hs: seq<u64>, k: nat): (d: set<u64>)
    requires k <= |hs|
    ensures forall h :: h in d ==> h in hs && h !in hs[..k]
  {
    set h | h in hs[k..] && h !in hs[..k]
  }

  /**
   * Popping one more entry, the one at position `k`, deletes its blob exactly when no entry
   * before it refers to the same blob.
   */
  lemma DroppedStep(hs: seq<u64>, k: nat)
    requires k < |hs|
    ensures Dropped(hs, k) == Dropped(hs, k + 1) + (if hs[k] in hs[..k] then {} else {hs[k]})
  {
    assert hs[..k + 1] == hs[..k] + [hs[k]];
    assert hs[k..] == [hs[k]] + hs[k + 1..];
    var extra: set<u64> := if hs[k] in hs[..k] then {} else {hs[k]};
    forall h | h in Dropped(hs, k)
      ensures h in Dropped(hs, k + 1) + extra
    {
      if h != hs[k] {
        assert h in hs[k + 1..];
      }
    }
  }

  /** Popping nothing deletes nothing. */
  lemma DroppedNothing(hs: seq<u64>)
    ensures Dropped(hs, |hs|) == {}
  {
  }

  /** Popping everything deletes the blob of every entry. */
  lemma DroppedEverything(hs: seq<u64>)
    ensures Dropped(hs, 0) == set h | h in hs
  {
    assert hs[0..] == hs;
  }
}
