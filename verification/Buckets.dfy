/** What the sync manager's bucket operations compute, on values: a bucket is a
    list of related tipsets, a bucket set is a list of buckets. */
module Buckets {
  import opened Tipsets

  type Bucket = seq<TipSet>

  predicate Related(t: TipSet, ts: TipSet) {
    ts.Equals(t) || ts.key == t.parents || ts.parents == t.key
  }

  predicate SameChainAs(b: Bucket, ts: TipSet) {
    exists i :: 0 <= i < |b| && Related(b[i], ts)
  }

  predicate Holds(b: Bucket, ts: TipSet) {
    exists i :: 0 <= i < |b| && b[i].Equals(ts)
  }

  function Add(b: Bucket, ts: TipSet): (r: Bucket)
    ensures b <= r && r != []
  {
    if Holds(b, ts) then b else b + [ts]
  }

  /** The first tipset of maximum weight. */
  function Heaviest(b: Bucket): (t: TipSet)
    requires b != []
  {
    var last := b[|b| - 1];
    if |b| == 1 then last
    else
      var best := Heaviest(b[..|b| - 1]);
      if last.HeavierThan(best) then last else best
  }

  lemma {:induction false} HeaviestIsMax(b: Bucket)
    requires b != []
    ensures Heaviest(b) in b
    ensures forall t :: t in b ==> t.weight <= Heaviest(b).weight
  {
    if |b| > 1 {
      var n := |b| - 1;
      HeaviestIsMax(b[..n]);
      assert b == b[..n] + [b[n]];
    }
  }

  /** It is the first of that weight. */
  lemma {:induction false} HeaviestIsFirst(b: Bucket) returns (k: nat)
    requires b != []
    ensures k < |b| && b[k] == Heaviest(b) && forall i :: 0 <= i < k ==> b[i].weight < b[k].weight
  {
    var n := |b| - 1;
    k := n;
    if n > 0 {
      HeaviestIsMax(b[..n]);
      assert forall i :: 0 <= i < n ==> b[i] in b[..n];
      if !b[n].HeavierThan(Heaviest(b[..n])) { k := HeaviestIsFirst(b[..n]); }
    }
  }

  predicate NonEmpty(bs: seq<Bucket>) {
    forall i :: 0 <= i < |bs| ==> bs[i] != []
  }

  predicate RelatedToAny(bs: seq<Bucket>, ts: TipSet) {
    exists i :: 0 <= i < |bs| && SameChainAs(bs[i], ts)
  }

  /** Index of the first bucket on the chain of `ts`, or the length of the list. */
  function FirstRelated(bs: seq<Bucket>, ts: TipSet): (k: nat)
    ensures k <= |bs|
    ensures forall i :: 0 <= i < k ==> !SameChainAs(bs[i], ts)
    ensures k < |bs| ==> SameChainAs(bs[k], ts)
  {
    if bs == [] then 0
    else
      var k := FirstRelated(bs[..|bs| - 1], ts);
      if k < |bs| - 1 || SameChainAs(bs[k], ts) then k else |bs|
  }

  function Insert(bs: seq<Bucket>, ts: TipSet): (r: seq<Bucket>)
    ensures NonEmpty(bs) ==> NonEmpty(r)
    ensures |bs| <= |r| && r != []
    ensures forall i :: 0 <= i < |bs| ==> bs[i] <= r[i]
    ensures |r| > |bs| ==> r == bs + [[ts]]
    ensures RelatedToAny(bs, ts) ==> |r| == |bs|
  {
    var k := FirstRelated(bs, ts);
    if k < |bs| then bs[k := Add(bs[k], ts)] else bs + [[ts]]
  }

  /** The tipset is held by the first related bucket, or by a new last one, and no other bucket changes. */
  lemma InsertPlaces(bs: seq<Bucket>, ts: TipSet)
    ensures var k, r := FirstRelated(bs, ts), Insert(bs, ts);
      && k < |r| && Holds(r[k], ts) && (|r| == |bs| <==> RelatedToAny(bs, ts))
      && forall i :: 0 <= i < |bs| && i != k ==> r[i] == bs[i]
  {
    var k, r := FirstRelated(bs, ts), Insert(bs, ts);
    if !(k < |bs| && Holds(bs[k], ts)) {
      assert r[k][|r[k]| - 1] == ts;
    }
  }

  /** No two tipsets of the bucket are equal. */
  ghost predicate NoTwins(b: Bucket) {
    forall i, j :: 0 <= i < j < |b| ==> !b[i].Equals(b[j])
  }

  /** A tipset is held once, however often it is inserted. */
  lemma InsertNoTwins(bs: seq<Bucket>, ts: TipSet)
    requires forall i :: 0 <= i < |bs| ==> NoTwins(bs[i])
    ensures forall i :: 0 <= i < |Insert(bs, ts)| ==> NoTwins(Insert(bs, ts)[i])
  {
    var k := FirstRelated(bs, ts);
    if k < |bs| && !Holds(bs[k], ts) {
      assert forall i :: 0 <= i < |bs[k]| ==> !bs[k][i].Equals(ts);
    }
  }

  function RemoveAt<T>(s: seq<T>, i: nat): (r: seq<T>)
    requires i < |s|
  {
    s[..i] + s[i + 1..]
  }

  /** Index of the first bucket whose heaviest tipset is of maximum weight. */
  function BestIndex(bs: seq<Bucket>): (k: nat)
    requires bs != [] && NonEmpty(bs)
    ensures k < |bs|
  {
    var n := |bs| - 1;
    if n == 0 then 0
    else
      var k := BestIndex(bs[..n]);
      if Heaviest(bs[n]).HeavierThan(Heaviest(bs[k])) then n else k
  }

  lemma {:induction false} BestIndexIsMax(bs: seq<Bucket>, i: nat)
    requires bs != [] && NonEmpty(bs) && i < |bs|
    ensures Heaviest(bs[i]).weight <= Heaviest(bs[BestIndex(bs)]).weight
  {
    var n := |bs| - 1;
    if i < n {
      BestIndexIsMax(bs[..n], i);
    }
  }

  /** It is the first with such a tipset. */
  lemma {:induction false} BestIndexIsFirst(bs: seq<Bucket>, i: nat)
    requires bs != [] && NonEmpty(bs) && i < BestIndex(bs)
    ensures Heaviest(bs[i]).weight < Heaviest(bs[BestIndex(bs)]).weight
  {
    var n := |bs| - 1;
    if BestIndex(bs) < n {
      BestIndexIsFirst(bs[..n], i);
    } else {
      BestIndexIsMax(bs[..n], i);
    }
  }

  function HeaviestOf(bs: seq<Bucket>): (t: Option<TipSet>)
    requires NonEmpty(bs)
  {
    if bs == [] then None else Some(Heaviest(bs[BestIndex(bs)]))
  }

  /** The tipsets of all buckets on the chain of `ts`, in order. */
  function RelatedTips(bs: seq<Bucket>, ts: TipSet): (r: Bucket) {
    if bs == [] then []
    else
      var n := |bs| - 1;
      RelatedTips(bs[..n], ts) + if SameChainAs(bs[n], ts) then bs[n] else []
  }

  /** The indices of the buckets not on the chain of `ts`. */
  function KeptAt(bs: seq<Bucket>, ts: TipSet): (at: seq<nat>)
    ensures forall k :: 0 <= k < |at| ==> at[k] < |bs|
  {
    if bs == [] then []
    else
      var n := |bs| - 1;
      KeptAt(bs[..n], ts) + if SameChainAs(bs[n], ts) then [] else [n]
  }

  /** They are in increasing order and exactly those not on the chain. */
  lemma {:induction false} KeptAtIsUnrelated(bs: seq<Bucket>, ts: TipSet)
    ensures forall k, l :: 0 <= k < l < |KeptAt(bs, ts)| ==> KeptAt(bs, ts)[k] < KeptAt(bs, ts)[l]
    ensures forall i :: 0 <= i < |bs| ==> (i in KeptAt(bs, ts) <==> !SameChainAs(bs[i], ts))
  {
    if bs != [] {
      KeptAtIsUnrelated(bs[..|bs| - 1], ts);
    }
  }

  /** The buckets not on the chain of `ts`, untouched and in their order. */
  function Unrelated(bs: seq<Bucket>, ts: TipSet): (r: seq<Bucket>)
    ensures NonEmpty(bs) ==> NonEmpty(r)
  {
    var at := KeptAt(bs, ts);
    seq(|at|, k requires 0 <= k < |at| => bs[at[k]])
  }

  /** A tipset is among the popped tips exactly when a bucket on the chain of `ts` held it. */
  lemma {:induction false} RelatedTipsMembers(bs: seq<Bucket>, ts: TipSet)
    ensures forall t :: t in RelatedTips(bs, ts) <==> exists i :: 0 <= i < |bs| && SameChainAs(bs[i], ts) && t in bs[i]
    ensures NonEmpty(bs) ==> (RelatedTips(bs, ts) != [] <==> RelatedToAny(bs, ts))
  {
    if bs != [] {
      var n := |bs| - 1;
      RelatedTipsMembers(bs[..n], ts);
      forall t ensures t in RelatedTips(bs, ts) <==> exists i :: 0 <= i < |bs| && SameChainAs(bs[i], ts) && t in bs[i] {
        if SameChainAs(bs[n], ts) && t in bs[n] {
        } else if t in RelatedTips(bs[..n], ts) {
          var i :| 0 <= i < n && SameChainAs(bs[..n][i], ts) && t in bs[..n][i];
          assert SameChainAs(bs[i], ts) && t in bs[i];
        }
      }
      if RelatedToAny(bs, ts) {
        var i :| 0 <= i < |bs| && SameChainAs(bs[i], ts);
        assert i < n ==> SameChainAs(bs[..n][i], ts);
      } else {
        assert forall i :: 0 <= i < n ==> bs[..n][i] == bs[i];
      }
    }
  }
}
