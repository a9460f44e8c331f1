/** The bucket set and the ring of recent successes as the sync manager keeps them,
    changed in place by loops and proved against the functions on values. */
module SyncBuckets {
  import opened Tipsets
  import opened Buckets
  import opened Scheduler

  method BucketSameChainAs(tips: Bucket, ts: TipSet) returns (r: bool)
    ensures r == SameChainAs(tips, ts)
  {
    for i := 0 to |tips|
      invariant forall j :: 0 <= j < i ==> !Related(tips[j], ts)
    {
      var t := tips[i];
      if ts.Equals(t) { return true; }
      if ts.key == t.parents { return true; }
      if ts.parents == t.key { return true; }
    }
    return false;
  }

  method BucketAdd(tips: Bucket, ts: TipSet) returns (r: Bucket)
    ensures r == Add(tips, ts)
  {
    for i := 0 to |tips|
      invariant forall j :: 0 <= j < i ==> !tips[j].Equals(ts)
    {
      if tips[i].Equals(ts) { return tips; }
    }
    return tips + [ts];
  }

  method BucketHeaviest(tips: Bucket) returns (best: Option<TipSet>)
    ensures best == if tips == [] then None else Some(Heaviest(tips))
  {
    best := None;
    for i := 0 to |tips|
      invariant best == if i == 0 then None else Some(Heaviest(tips[..i]))
    {
      assert tips[..i + 1][..i] == tips[..i];
      if best == None || tips[i].HeavierThan(best.value) {
        best := Some(tips[i]);
      }
    }
    assert tips[..|tips|] == tips;
  }

  class SyncBucketSet {
    var buckets: seq<Bucket>

    constructor ()
      ensures buckets == []
    {
      buckets := [];
    }

    method IsRelatedToAny(ts: TipSet) returns (r: bool)
      ensures r == RelatedToAny(buckets, ts)
    {
      for i := 0 to |buckets|
        invariant forall j :: 0 <= j < i ==> !SameChainAs(buckets[j], ts)
      {
        var same := BucketSameChainAs(buckets[i], ts);
        if same { return true; }
      }
      return false;
    }

    method InsertTipSet(ts: TipSet)
      modifies this
      ensures buckets == Insert(old(buckets), ts)
    {
      for i := 0 to |buckets|
        invariant buckets == old(buckets)
        invariant forall j :: 0 <= j < i ==> !SameChainAs(buckets[j], ts)
      {
        var same := BucketSameChainAs(buckets[i], ts);
        if same {
          var b := BucketAdd(buckets[i], ts);
          buckets := buckets[i := b];
          return;
        }
      }
      var b := BucketAdd([], ts);
      assert b == [ts];
      buckets := buckets + [b];
    }

    /** Rebuilds the list without the bucket at `toremove`. */
    method RemoveBucket(toremove: nat)
      requires toremove < |buckets|
      modifies this
      ensures buckets == RemoveAt(old(buckets), toremove)
    {
      var nbuckets := [];
      for i := 0 to |buckets|
        invariant buckets == old(buckets)
        invariant nbuckets == if i <= toremove then buckets[..i] else buckets[..toremove] + buckets[toremove + 1..i]
      {
        if i != toremove {
          nbuckets := nbuckets + [buckets[i]];
        }
      }
      buckets := nbuckets;
    }

    method Pop() returns (best: Bucket)
      requires NonEmpty(buckets) && buckets != []
      modifies this
      ensures var k := BestIndex(old(buckets)); best == old(buckets)[k] && buckets == RemoveAt(old(buckets), k)
    {
      var k := 0;
      var bestTs := BucketHeaviest(buckets[0]);
      for i := 1 to |buckets|
        invariant buckets == old(buckets)
        invariant k == BestIndex(buckets[..i]) && bestTs == Some(Heaviest(buckets[k]))
      {
        assert buckets[..i + 1][..i] == buckets[..i];
        var hts := BucketHeaviest(buckets[i]);
        if bestTs.value.weight < hts.value.weight {
          k, bestTs := i, hts;
        }
      }
      assert buckets[..|buckets|] == buckets;
      best := buckets[k];
      RemoveBucket(k);
    }

    method HeaviestTipSet() returns (best: Option<TipSet>)
      requires NonEmpty(buckets)
      ensures best == HeaviestOf(buckets)
    {
      best := None;
      for i := 0 to |buckets|
        invariant best == HeaviestOf(buckets[..i])
      {
        assert buckets[..i + 1][..i] == buckets[..i];
        var bhts := BucketHeaviest(buckets[i]);
        if best == None || bhts.value.HeavierThan(best.value) {
          best := bhts;
        }
      }
      assert buckets[..|buckets|] == buckets;
    }

    /** The walk is over the list as it was on entry while the field is replaced under it. */
    method PopRelated(ts: TipSet) returns (out: Option<Bucket>)
      requires NonEmpty(buckets)
      modifies this
      ensures buckets == Unrelated(old(buckets), ts)
      ensures out == var tips := RelatedTips(old(buckets), ts); if tips == [] then None else Some(tips)
    {
      out := None;
      var all := buckets;
      var kept := 0;
      for i := 0 to |all|
        invariant kept == |KeptAt(all[..i], ts)|
        invariant buckets == Unrelated(all[..i], ts) + all[i..]
        invariant out == var tips := RelatedTips(all[..i], ts); if tips == [] then None else Some(tips)
      {
        PopRelatedStep(all, ts, i);
        var same := BucketSameChainAs(all[i], ts);
        if same {
          RemoveBucket(kept);
          out := if out == None then Some(all[i]) else Some(out.value + all[i]);
        } else {
          kept := kept + 1;
        }
      }
      assert all[..|all|] == all;
    }
  }

  /** Walking past position `i` either drops that bucket or leaves it where it stands. */
  lemma PopRelatedStep(all: seq<Bucket>, ts: TipSet, i: nat)
    requires i < |all|
    ensures var tips := RelatedTips(all[..i], ts);
      RelatedTips(all[..i + 1], ts) ==
      if !SameChainAs(all[i], ts) then tips else if tips == [] then all[i] else tips + all[i]
    ensures |KeptAt(all[..i + 1], ts)| == |KeptAt(all[..i], ts)| + if SameChainAs(all[i], ts) then 0 else 1
    ensures var now := Unrelated(all[..i], ts) + all[i..];
      Unrelated(all[..i + 1], ts) + all[i + 1..] ==
      if SameChainAs(all[i], ts) then RemoveAt(now, |KeptAt(all[..i], ts)|) else now
  {
    assert all[..i + 1][..i] == all[..i];
  }

  /** The circular buffer of recently synced tipsets. */
  class SyncBuffer {
    const buf: array<Option<TipSet>>
    var next: nat
    ghost var recent: seq<TipSet>

    /** Where the k-th newest entry lies. */
    ghost function Slot(k: nat): int
      reads this
    {
      if k < next then next - 1 - k else next - 1 - k + RECENT_SYNC_BUFFER_SIZE
    }

    ghost predicate Valid()
      reads this, buf
    {
      && buf.Length == RECENT_SYNC_BUFFER_SIZE && next < RECENT_SYNC_BUFFER_SIZE
      && |recent| <= RECENT_SYNC_BUFFER_SIZE
      && (forall k :: 0 <= k < |recent| ==> buf[Slot(k)] == Some(recent[k]))
      && (forall k :: |recent| <= k < RECENT_SYNC_BUFFER_SIZE ==> buf[Slot(k)] == None)
    }

    constructor ()
      ensures Valid() && recent == [] && fresh(buf)
    {
      buf := new Option<TipSet>[RECENT_SYNC_BUFFER_SIZE](_ => None);
      next := 0;
      recent := [];
    }

    method Push(ts: TipSet)
      requires Valid()
      modifies this, buf
      ensures Valid() && recent == Remember(old(recent), ts)
    {
      buf[next] := Some(ts);
      next := (next + 1) % buf.Length;
      recent := Remember(recent, ts);
      assert forall k :: 1 <= k < |recent| ==> recent[k] == old(recent)[k - 1];
      assert forall k :: 1 <= k < RECENT_SYNC_BUFFER_SIZE ==> Slot(k) == old(Slot(k - 1));
    }

    method WasSynced(ts: TipSet) returns (r: bool)
      requires Valid()
      ensures r == Synced(recent, ts)
    {
      for i := 0 to buf.Length
        invariant forall j :: 0 <= j < i ==>
          buf[j] == None || !(buf[j].value.Equals(ts) || buf[j].value.HeavierThan(ts))
      {
        if buf[i] != None && (buf[i].value.Equals(ts) || buf[i].value.HeavierThan(ts)) {
          ghost var k := if i < next then next - 1 - i else next - 1 - i + RECENT_SYNC_BUFFER_SIZE;
          assert Slot(k) == i && recent[k] == buf[i].value;
          return true;
        }
      }
      forall k | 0 <= k < |recent| ensures !(recent[k].Equals(ts) || recent[k].HeavierThan(ts)) {
        assert buf[Slot(k)] == Some(recent[k]);
      }
      return false;
    }
  }
}
