/** The sync manager's mutable state and its handlers. Each handler is proved to
    take one step of the scheduler's state machine. */
module SyncManagers {
  import opened Tipsets
  import opened SyncBuckets
  import opened Buckets
  import opened Scheduler

  class SyncManager {
    const threshold: int
    var nextWorker: nat
    var heads: map<Peer, TipSet>
    var state: map<nat, TipSet>
    const pend: SyncBucketSet
    const deferred: SyncBucketSet
    const recent: SyncBuffer
    var initialSyncDone: bool
    var rampedUp: bool

    ghost const Repr: set<object> := {this, pend, deferred, recent, recent.buf}

    ghost predicate Valid()
      reads Repr
    {
      && NonEmpty(pend.buckets) && NonEmpty(deferred.buckets) && recent.Valid()
      && pend != deferred
    }

    ghost function View(): State
      reads Repr
    {
      State(nextWorker, heads, state, pend.buckets, deferred.buckets, recent.recent, initialSyncDone, rampedUp)
    }

    constructor (threshold: int)
      ensures Valid() && View() == INIT && this.threshold == threshold && fresh(Repr)
    {
      this.threshold := threshold;
      nextWorker, heads, state, initialSyncDone, rampedUp := 0, map[], map[], false, false;
      pend := new SyncBucketSet();
      deferred := new SyncBucketSet();
      recent := new SyncBuffer();
    }

    method SpawnWorker(target: TipSet)
      modifies this
      ensures View() == Spawn(old(View()), target)
    {
      var id := nextWorker;
      nextWorker := nextWorker + 1;
      state := state[id := target];
    }

    /** Decides one deferred target, consulting the first active worker in map order. */
    method Judge(target: TipSet) returns (v: Verdict)
      requires Valid()
      ensures Judges(View(), target, v)
    {
      var synced := recent.WasSynced(target);
      if synced { return Skip; }
      var related := pend.IsRelatedToAny(target);
      if related { return Pend; }
      if state.Keys == {} { return Skip; }
      var id :| id in state.Keys;
      var ws := state[id];
      if ws.Equals(target) || ws.HeavierThan(target) {
        v := Skip;
      } else if target.parents == ws.key {
        v := Pend;
      } else {
        v := Take;
      }
      assert v == VerdictBy(state[id], target);
    }

    /** The heaviest tipset of the bucket with the heaviest tipset, which goes. */
    method PopHeaviest() returns (target: TipSet)
      requires Valid() && deferred.buckets != []
      modifies deferred
      ensures Valid() && View() == PopDeferred(old(View())) && Some(target) == HeaviestOf(old(deferred.buckets))
    {
      var bucket := deferred.Pop();
      var best := BucketHeaviest(bucket);
      target := best.value;
    }

    method SelectDeferredSyncTarget() returns (out: Option<TipSet>)
      requires Valid()
      modifies Repr
      ensures Valid() && SelectDeferred(old(View()), View(), out)
    {
      while |deferred.buckets| > 0
        invariant Valid()
        invariant forall s', o :: SelectDeferred(View(), s', o) ==> SelectDeferred(old(View()), s', o)
        decreases |deferred.buckets|
      {
        var target := PopHeaviest();
        var v := Judge(target);
        match v
        case Skip =>
        case Pend => pend.InsertTipSet(target);
        case Take => return Some(target);
      }
      return None;
    }

    /** Walks the workers in map order: the target itself is skipped, a child of one is pended. */
    method MeetWorkers(ts: TipSet) returns (v: Verdict)
      ensures v == Skip ==> exists id :: id in state && ts.Equals(state[id])
      ensures v == Pend ==> exists id :: id in state && !ts.Equals(state[id]) && ts.parents == state[id].key
      ensures v == Take ==> forall id :: id in state ==> !ts.Equals(state[id]) && ts.parents != state[id].key
    {
      var todo := state.Keys;
      while todo != {}
        invariant todo <= state.Keys
        invariant forall id :: id in state && id !in todo ==> !ts.Equals(state[id]) && ts.parents != state[id].key
      {
        var id :| id in todo;
        todo := todo - {id};
        if ts.Equals(state[id]) { return Skip; }
        if ts.parents == state[id].key { return Pend; }
      }
      return Take;
    }

    method AnyHeavierWorker(ts: TipSet) returns (r: bool)
      ensures r <==> exists id :: id in state && state[id].HeavierThan(ts)
    {
      var todo := state.Keys;
      while todo != {}
        invariant todo <= state.Keys
        invariant forall id :: id in state && id !in todo ==> !state[id].HeavierThan(ts)
      {
        var id :| id in todo;
        todo := todo - {id};
        if state[id].HeavierThan(ts) { return true; }
      }
      return false;
    }

    method AddTarget(ts: TipSet) returns (out: Option<TipSet>)
      requires Valid()
      modifies Repr
      ensures Valid() && AddSyncTarget(old(View()), ts, View(), out)
    {
      var synced := recent.WasSynced(ts);
      if synced { return None; }
      if state == map[] { return Some(ts); }
      var v := MeetWorkers(ts);
      match v {
        case Skip => return None;
        case Pend => pend.InsertTipSet(ts); return None;
        case Take =>
      }
      var related := pend.IsRelatedToAny(ts);
      if related {
        pend.InsertTipSet(ts);
        return None;
      }
      var heavier := AnyHeavierWorker(ts);
      if heavier { return None; }
      var pendHeaviest := pend.HeaviestTipSet();
      if pendHeaviest != None && pendHeaviest.value.HeavierThan(ts) { return None; }
      if !initialSyncDone || |state| >= MAX_SYNC_WORKERS {
        deferred.InsertTipSet(ts);
        return None;
      }
      return Some(ts);
    }

    method SelectSyncTarget(done: TipSet) returns (out: Option<TipSet>)
      requires Valid()
      modifies Repr
      ensures Valid() && SelectSync(old(View()), done, View(), out)
    {
      var related := pend.PopRelated(done);
      if related == None {
        out := SelectDeferredSyncTarget();
        return;
      }
      var heaviest := BucketHeaviest(related.value);
      var target := heaviest.value;
      if done.HeavierThan(target) {
        out := SelectDeferredSyncTarget();
        return;
      }
      var heavier := AnyHeavierWorker(target);
      if heavier {
        out := SelectDeferredSyncTarget();
        return;
      }
      var synced := recent.WasSynced(target);
      if synced {
        out := SelectDeferredSyncTarget();
        return;
      }
      return Some(target);
    }

    method SelectInitialSyncTarget() returns (target: TipSet)
      requires heads != map[]
      modifies this
      ensures View() == old(View()).(heads := map[])
      ensures InitialTarget(old(heads), target)
    {
      ghost var peers;
      var peerHeads;
      peerHeads, peers := HeadsByHeight(heads);
      HeadsListed(heads, peers, peerHeads);
      heads := map[];
      target := HeaviestHead(peerHeads);
      assert ChosenFrom(old(heads), peerHeads, target);
    }

    method HandleHead(peer: Peer, ts: TipSet)
      requires Valid()
      modifies Repr
      ensures Valid() && Next(threshold, old(View()), PeerHead(peer, ts), View())
    {
      if nextWorker == 0 {
        heads := heads[peer := ts];
        if |heads| < threshold { return; }
        ghost var now := heads;
        var target := SelectInitialSyncTarget();
        SpawnWorker(target);
        assert InitialTarget(now, target);
        return;
      }
      var out := AddTarget(ts);
      ghost var s1 := View();
      if out != None {
        SpawnWorker(out.value);
      }
      assert View() == SpawnIf(s1, out);
    }

    /** A worker reports once, so its identifier is still active. */
    method RetireWorker(id: nat, ok: bool, fast: bool) returns (ts: TipSet)
      requires Valid() && id in state
      modifies this, recent, recent.buf
      ensures Valid() && View() == Retire(old(View()), id, ok, fast) && ts == old(state)[id]
    {
      ts := state[id];
      state := state - {id};
      if ok {
        recent.Push(ts);
        if !initialSyncDone && fast {
          initialSyncDone := true;
        }
      }
    }

    method HandleStatus(id: nat, ok: bool, fast: bool)
      requires Valid() && id in state
      modifies Repr
      ensures Valid() && Next(threshold, old(View()), Report(id, ok, fast), View())
    {
      var ts := RetireWorker(id, ok, fast);
      var out := SelectSyncTarget(ts);
      ghost var s1 := View();
      if out != None {
        SpawnWorker(out.value);
      }
      assert View() == SpawnIf(s1, out);
    }

    method HandleInitialSyncDone()
      requires Valid()
      modifies Repr
      ensures Valid() && RampUp(old(View()), View())
    {
      while |state| < MAX_SYNC_WORKERS
        invariant Valid()
        invariant forall s' :: RampUp(View(), s') ==> RampUp(old(View()), s')
        decreases |deferred.buckets|
      {
        ghost var s := View();
        var out := SelectDeferredSyncTarget();
        ghost var s1 := View();
        if out == None {
          assert RampUp(s, s1);
          return;
        }
        SpawnWorker(out.value);
      }
    }

    /** The ticker fires until the initial sync is done, then once more and never again. */
    method HandleTicker()
      requires Valid() && !rampedUp
      modifies Repr
      ensures Valid() && Next(threshold, old(View()), Tick, View())
    {
      if initialSyncDone {
        rampedUp := true;
        HandleInitialSyncDone();
      }
    }
  }

  method PlaceByHeight(order: seq<TipSet>, ts: TipSet) returns (k: nat)
    requires SortedByHeight(order)
    ensures k <= |order|
    ensures forall i :: 0 <= i < k ==> order[i].height <= ts.height
    ensures forall i :: k <= i < |order| ==> ts.height <= order[i].height
  {
    k := 0;
    while k < |order| && order[k].height <= ts.height
      invariant k <= |order|
      invariant forall i :: 0 <= i < k ==> order[i].height <= ts.height
    {
      k := k + 1;
    }
  }

  /** Groups the heads into buckets and picks the heaviest tipset of them all. */
  method HeaviestHead(peerHeads: seq<TipSet>) returns (target: TipSet)
    requires peerHeads != []
    ensures HeaviestOf(InsertAll(peerHeads)) == Some(target)
  {
    var buckets := new SyncBucketSet();
    for i := 0 to |peerHeads|
      invariant buckets.buckets == InsertAll(peerHeads[..i])
    {
      assert peerHeads[..i + 1][..i] == peerHeads[..i];
      buckets.InsertTipSet(peerHeads[i]);
    }
    assert peerHeads[..|peerHeads|] == peerHeads;
    var best := buckets.HeaviestTipSet();
    target := best.value;
  }

  function InsertAt<T>(s: seq<T>, k: nat, x: T): (r: seq<T>)
    requires k <= |s|
    ensures |r| == |s| + 1 && r[k] == x
    ensures forall i :: 0 <= i < k ==> r[i] == s[i]
    ensures forall i :: k < i < |r| ==> r[i] == s[i - 1]
  {
    s[..k] + [x] + s[k..]
  }

  lemma InsertedMembers<T>(s: seq<T>, k: nat, x: T, y: T)
    requires k <= |s|
    ensures y in InsertAt(s, k, x) <==> y in s || y == x
  {
    var r := InsertAt(s, k, x);
    if y in s {
      var i :| 0 <= i < |s| && s[i] == y;
      assert r[if i < k then i else i + 1] == y;
    }
    assert r[k] == x;
  }

  lemma RecordOne(heads: map<Peer, TipSet>, todo: set<Peer>, peers: seq<Peer>, order: seq<TipSet>, p: Peer, k: nat)
    requires Recorded(heads, todo, peers, order) && p in todo && p in heads && k <= |order|
    ensures Recorded(heads, todo - {p}, InsertAt(peers, k, p), InsertAt(order, k, heads[p]))
  {
    forall q ensures q in InsertAt(peers, k, p) <==> q in heads && q !in todo - {p} { InsertedMembers(peers, k, p, q); }
  }

  lemma StaysSorted(order: seq<TipSet>, k: nat, ts: TipSet)
    requires SortedByHeight(order) && k <= |order|
    requires forall i :: 0 <= i < k ==> order[i].height <= ts.height
    requires forall i :: k <= i < |order| ==> ts.height <= order[i].height
    ensures SortedByHeight(InsertAt(order, k, ts))
  {
  }

  /** Lists the recorded heads by height; peers are met in map order. */
  method HeadsByHeight(heads: map<Peer, TipSet>) returns (order: seq<TipSet>, ghost peers: seq<Peer>)
    ensures Recorded(heads, {}, peers, order) && SortedByHeight(order)
  {
    order, peers := [], [];
    var todo := heads.Keys;
    while todo != {}
      invariant todo <= heads.Keys && SortedByHeight(order) && Recorded(heads, todo, peers, order)
    {
      var p :| p in todo;
      var k := PlaceByHeight(order, heads[p]);
      RecordOne(heads, todo, peers, order, p, k);
      StaysSorted(order, k, heads[p]);
      todo, order, peers := todo - {p}, InsertAt(order, k, heads[p]), InsertAt(peers, k, p);
    }
  }

  lemma HeadsListed(heads: map<Peer, TipSet>, peers: seq<Peer>, order: seq<TipSet>)
    requires Recorded(heads, {}, peers, order) && heads != map[]
    ensures order != []
  {
    var p :| p in heads;
    assert p in peers;
  }
}
