/** Tipsets as the chain syncer sees them: the identifiers of their blocks, a
    link to their parents, a height and the weight of the chain below them. */
module Tipsets {

  datatype Option<+T> = None | Some(value: T)

  /** A block identifier; only its identity matters here. */
  datatype Cid = Cid(hash: nat)

  /** A tipset key is an ordered list of block identifiers. */
  type Key = seq<Cid>

  /** Order-ignoring comparison: equal lengths, and every identifier of `b` occurs in `a`. */
  predicate CidArrsEqual(a: Key, b: Key) {
    |a| == |b| && forall c :: c in b ==> c in a
  }

  datatype TipSet = TipSet(key: Key, parents: Key, height: int, weight: int) {

    /** Same height and the same identifiers in the same order. */
    predicate Equals(other: TipSet) {
      height == other.height && key == other.key
    }

    predicate HeavierThan(other: TipSet) {
      weight > other.weight
    }

    predicate IsChildOf(parent: TipSet) {
      CidArrsEqual(parents, parent.key) && height > parent.height
    }
  }

  lemma {:induction false} Fewer<T>(a: set<T>, b: set<T>)
    requires a <= b
    ensures |a| <= |b|
  {
    assert b == a + (b - a);
  }
}
