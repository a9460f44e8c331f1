/** What becomes of a head a peer sends, of a deferred target and of a finished worker, said in terms
    of weights, keys and workers; and that over every run no head is forgotten, or exactly when. */
module SchedulerFates {
  import opened Tipsets
  import opened Buckets
  import opened Scheduler
  import opened SchedulerProperties

  // ---------------------------------------------------------------- what a head meets

  predicate Same(t: TipSet, u: TipSet) {
    t.height == u.height && t.key == u.key
  }

  /** A remembered success is the head or outweighs it. */
  ghost predicate Remembered(s: State, ts: TipSet) {
    exists r :: r in s.recent && (Same(r, ts) || r.weight > ts.weight)
  }

  ghost predicate Running(s: State, ts: TipSet) {
    exists id :: id in s.active && Same(s.active[id], ts)
  }

  /** A worker is on the head's parent, and is not on the head. */
  ghost predicate Extends(s: State, ts: TipSet) {
    exists id :: id in s.active && ts.parents == s.active[id].key && !Same(s.active[id], ts)
  }

  /** A pending tipset is the head, its parent or its child. */
  ghost predicate Converges(s: State, ts: TipSet) {
    exists t :: Contains(s.pend, t) && (Same(t, ts) || t.key == ts.parents || t.parents == ts.key)
  }

  ghost predicate Outweighed(s: State, ts: TipSet) {
    || (exists id :: id in s.active && s.active[id].weight > ts.weight)
    || (exists t :: Contains(s.pend, t) && t.weight > ts.weight)
  }

  /** A worker may be started beside the ones that run. */
  ghost predicate HasRoom(s: State) {
    s.initialSyncDone && |s.active| < MAX_SYNC_WORKERS
  }

  /** No remembered, active or pending tipset is the head, next to it or heavier. */
  ghost predicate IsNews(s: State, ts: TipSet) {
    !Remembered(s, ts) && !Running(s, ts) && !Extends(s, ts) && !Converges(s, ts) && !Outweighed(s, ts)
  }

  // ---------------------------------------------------------------- what becomes of it

  ghost predicate Started(s: State, ts: TipSet, s': State) {
    s' == s.(active := s.active[s.nextWorker := ts], nextWorker := s.nextWorker + 1)
  }

  /** The buckets hold the tipset besides what they held. */
  ghost predicate Joined(bs: seq<Bucket>, ts: TipSet, bs': seq<Bucket>) {
    && ContainsEqual(bs', ts)
    && (forall t :: Contains(bs, t) ==> Contains(bs', t))
    && (forall t :: Contains(bs', t) ==> t == ts || Contains(bs, t))
  }

  ghost predicate Pended(s: State, ts: TipSet, s': State) {
    s' == s.(pend := s'.pend) && Joined(s.pend, ts, s'.pend)
  }

  ghost predicate Deferred(s: State, ts: TipSet, s': State) {
    s' == s.(deferred := s'.deferred) && Joined(s.deferred, ts, s'.deferred)
  }

  lemma InsertJoins(bs: seq<Bucket>, ts: TipSet)
    ensures Joined(bs, ts, Insert(bs, ts))
  {
    InsertedIsMember(bs, ts);
    forall t ensures Contains(bs, t) ==> Contains(Insert(bs, ts), t) { InsertMember(bs, ts, t); }
    forall t ensures Contains(Insert(bs, ts), t) ==> t == ts || Contains(bs, t) { InsertMember(bs, ts, t); }
  }

  lemma SyncedIsRemembered(s: State, ts: TipSet)
    ensures Synced(s.recent, ts) <==> Remembered(s, ts)
  {
    if Remembered(s, ts) {
      var r :| r in s.recent && (Same(r, ts) || r.weight > ts.weight);
      var i :| 0 <= i < |s.recent| && s.recent[i] == r;
    }
  }

  lemma RelatedIsConverging(s: State, ts: TipSet)
    ensures RelatedToAny(s.pend, ts) <==> Converges(s, ts)
  {
    if RelatedToAny(s.pend, ts) {
      var i :| 0 <= i < |s.pend| && SameChainAs(s.pend[i], ts);
      var k :| 0 <= k < |s.pend[i]| && Related(s.pend[i][k], ts);
      assert Contains(s.pend, s.pend[i][k]);
    }
    if Converges(s, ts) {
      var t :| Contains(s.pend, t) && (Same(t, ts) || t.key == ts.parents || t.parents == ts.key);
      var i :| 0 <= i < |s.pend| && t in s.pend[i];
      var k :| 0 <= k < |s.pend[i]| && s.pend[i][k] == t;
      assert Related(s.pend[i][k], ts) && SameChainAs(s.pend[i], ts);
    }
  }

  lemma OutweighedMeans(s: State, ts: TipSet)
    requires NonEmpty(s.pend)
    ensures Outweighed(s, ts) <==>
      || (exists id :: id in s.active && s.active[id].HeavierThan(ts))
      || (s.pend != [] && HeaviestOf(s.pend).value.HeavierThan(ts))
  {
    if t :| Contains(s.pend, t) && t.weight > ts.weight { HeaviestOfAll(s.pend, t); }
    if s.pend != [] {
      assert s.pend[0][0] in s.pend[0] && Contains(s.pend, s.pend[0][0]);
      HeaviestOfAll(s.pend, s.pend[0][0]);
    }
  }

  /** Which of its steps the scheduler takes with a head. */
  lemma HeadStep(s: State, ts: TipSet, s1: State, out: Option<TipSet>)
    requires NonEmpty(s.pend) && AddSyncTarget(s, ts, s1, out)
    ensures Remembered(s, ts) ==> s1 == s && out.None?
    ensures !Remembered(s, ts) && s.active == map[] ==> s1 == s && out == Some(ts)
    ensures !Remembered(s, ts) && s.active != map[] && (Running(s, ts) || Extends(s, ts)) ==>
      && out.None?
      && ((Running(s, ts) && s1 == s) || (Extends(s, ts) && s1 == s.(pend := Insert(s.pend, ts))))
    ensures !Remembered(s, ts) && s.active != map[] && !Running(s, ts) && !Extends(s, ts) ==>
      if Converges(s, ts) then s1 == s.(pend := Insert(s.pend, ts)) && out.None?
      else if Outweighed(s, ts) then s1 == s && out.None?
      else if HasRoom(s) then s1 == s && out == Some(ts)
      else s1 == s.(deferred := Insert(s.deferred, ts)) && out.None?
  {
    SyncedIsRemembered(s, ts);
    RelatedIsConverging(s, ts);
    OutweighedMeans(s, ts);
  }

  /** The fate of a head once syncing has started. A head that a worker is on and that extends the
      target of another meets one of its two fates, as the workers are met in map order. */
  lemma HeadFate(threshold: int, s: State, p: Peer, ts: TipSet, s': State)
    requires s.nextWorker > 0 && Next(threshold, s, PeerHead(p, ts), s')
    ensures Remembered(s, ts) ==> s' == s
    ensures !Remembered(s, ts) && s.active == map[] ==> Started(s, ts, s') && s'.active == map[s.nextWorker := ts]
    ensures !Remembered(s, ts) && s.active != map[] ==>
      && (Running(s, ts) && Extends(s, ts) ==> s' == s || Pended(s, ts, s'))
      && (Running(s, ts) && !Extends(s, ts) ==> s' == s)
      && (!Running(s, ts) && (Extends(s, ts) || Converges(s, ts)) ==> Pended(s, ts, s'))
      && (!Running(s, ts) && !Extends(s, ts) && !Converges(s, ts) && Outweighed(s, ts) ==> s' == s)
    ensures IsNews(s, ts) && s.active != map[] ==>
      if HasRoom(s) then Started(s, ts, s') else Deferred(s, ts, s')
  {
    var s1, out :| AddSyncTarget(s, ts, s1, out) && s' == SpawnIf(s1, out);
    HeadStep(s, ts, s1, out);
    InsertJoins(s.pend, ts);
    InsertJoins(s.deferred, ts);
    if s.active == map[] { assert s.active[s.nextWorker := ts] == map[s.nextWorker := ts]; }
  }

  /** A head changes nothing only when a remembered, active, pending or deferred tipset is the head, or a
      remembered, active or pending one outweighs it. */
  lemma IgnoredOnlyIfCovered(threshold: int, s: State, p: Peer, ts: TipSet)
    requires s.nextWorker > 0 && Next(threshold, s, PeerHead(p, ts), s)
    ensures
      || Remembered(s, ts) || Running(s, ts) || Outweighed(s, ts)
      || ContainsEqual(s.pend, ts) || ContainsEqual(s.deferred, ts)
  {
    HeadFate(threshold, s, p, ts, s);
  }

  /** Before syncing has started a head is recorded, and once enough peers have sent one a single worker
      starts, on a heaviest recorded head. */
  lemma SyncStarts(threshold: int, s: State, p: Peer, ts: TipSet, heads: map<Peer, TipSet>, s': State)
    requires s.nextWorker == 0 && s.active == map[] && Next(threshold, s, PeerHead(p, ts), s')
    requires heads == s.heads[p := ts]
    requires forall q, r :: q in heads && r in heads && heads[q].Equals(heads[r]) ==> heads[q] == heads[r]
    ensures |heads| < threshold ==> s' == s.(heads := heads)
    ensures |heads| >= threshold ==>
      exists q :: q in heads && s' == s.(heads := map[], nextWorker := 1, active := map[0 := heads[q]]) &&
        forall r :: r in heads ==> heads[r].weight <= heads[q].weight
  {
    if |heads| >= threshold {
      var target :| InitialTarget(heads, target) && s' == Spawn(s.(heads := map[]), target);
      InitialTargetIsHeaviest(heads, target);
      assert p in heads;
      var q :| q in heads && heads[q] == target;
      assert s'.active == map[0 := heads[q]];
    }
  }

  // ---------------------------------------------------------------- what becomes of deferred targets

  /** The worker lets the target be started: it is not on it, not on its parent and not on a heavier one. */
  predicate Lets(worker: TipSet, t: TipSet) {
    !Same(worker, t) && t.parents != worker.key && worker.weight <= t.weight
  }

  /** A deferred target that is started was deferred, is news to the remembered and the pending ones,
      and some worker lets it be. */
  lemma {:induction false} TakenMeans(s: State, s': State, out: Option<TipSet>)
    requires NonEmpty(s.deferred) && SelectDeferred(s, s', out) && out.Some?
    ensures Contains(s.deferred, out.value) && !Remembered(s', out.value) && !Converges(s', out.value)
    ensures exists id :: id in s.active && Lets(s.active[id], out.value)
    ensures s'.active == s.active && s'.recent == s.recent
    decreases |s.deferred|
  {
    var target, s1 := HeaviestOf(s.deferred).value, PopDeferred(s);
    Popped(s);
    if Judges(s1, target, Skip) && SelectDeferred(s1, s', out) {
      TakenMeans(s1, s', out);
    } else if Judges(s1, target, Pend) && SelectDeferred(s1.(pend := Insert(s1.pend, target)), s', out) {
      TakenMeans(s1.(pend := Insert(s1.pend, target)), s', out);
    } else {
      SyncedIsRemembered(s1, target);
      RelatedIsConverging(s1, target);
      var id :| id in s1.active && Take == VerdictBy(s1.active[id], target);
      assert Lets(s1.active[id], target);
    }
  }

  /** A pop takes out a bucket, whose heaviest tipset no deferred one outweighs. */
  lemma Popped(s: State)
    requires NonEmpty(s.deferred) && s.deferred != []
    ensures var target := HeaviestOf(s.deferred).value;
      && Contains(s.deferred, target)
      && (forall t :: Contains(s.deferred, t) ==> t.weight <= target.weight)
      && (forall t :: Contains(PopDeferred(s).deferred, t) ==> Contains(s.deferred, t))
      && (forall t :: Contains(s.deferred, t) ==> Contains(PopDeferred(s).deferred, t) || t.weight <= target.weight)
  {
    assert s.deferred[0][0] in s.deferred[0] && Contains(s.deferred, s.deferred[0][0]);
    HeaviestOfAll(s.deferred, s.deferred[0][0]);
    forall t | Contains(s.deferred, t) ensures t.weight <= HeaviestOf(s.deferred).value.weight {
      HeaviestOfAll(s.deferred, t);
    }
    var k := BestIndex(s.deferred);
    forall t | Contains(PopDeferred(s).deferred, t) ensures Contains(s.deferred, t) {
      var i :| 0 <= i < |s.deferred| - 1 && t in PopDeferred(s).deferred[i];
      assert t in s.deferred[if i < k then i else i + 1];
    }
  }

  /** A heaviest deferred tipset is started when all of that weight are news to the remembered and the pending
      ones, and some worker runs and all let them be. */
  lemma HeaviestDeferredIsTaken(s: State, s': State, out: Option<TipSet>, t: TipSet)
    requires NonEmpty(s.deferred) && SelectDeferred(s, s', out) && s.active != map[]
    requires Contains(s.deferred, t) && forall u :: Contains(s.deferred, u) ==> u.weight <= t.weight
    requires forall u :: Contains(s.deferred, u) && u.weight == t.weight ==>
      !Remembered(s, u) && !Converges(s, u) && forall id :: id in s.active ==> Lets(s.active[id], u)
    ensures out.Some? && Contains(s.deferred, out.value) && out.value.weight == t.weight
    ensures s' == s.(deferred := s'.deferred)
  {
    var i :| 0 <= i < |s.deferred| && t in s.deferred[i];
    var target, s1 := HeaviestOf(s.deferred).value, PopDeferred(s);
    Popped(s);
    SyncedIsRemembered(s1, target);
    RelatedIsConverging(s1, target);
    assert !Remembered(s, target) && !Converges(s, target);
    assert forall id :: id in s1.active ==> Lets(s1.active[id], target);
  }

  // ---------------------------------------------------------------- where targets come from

  /** The scheduler has the tipset somewhere. */
  ghost predicate Occurs(s: State, t: TipSet) {
    || (exists p :: p in s.heads && s.heads[p] == t)
    || (exists id :: id in s.active && s.active[id] == t)
    || Contains(s.pend, t) || Contains(s.deferred, t) || t in s.recent
  }

  lemma {:induction false} SelectDeferredInvents(s: State, s': State, out: Option<TipSet>, t: TipSet)
    requires NonEmpty(s.deferred) && SelectDeferred(s, s', out) && (Occurs(s', t) || out == Some(t))
    ensures Occurs(s, t)
    decreases |s.deferred|
  {
    if s.deferred != [] {
      var target, s1 := HeaviestOf(s.deferred).value, PopDeferred(s);
      Popped(s);
      if Judges(s1, target, Skip) && SelectDeferred(s1, s', out) {
        SelectDeferredInvents(s1, s', out, t);
      } else if Judges(s1, target, Pend) && SelectDeferred(s1.(pend := Insert(s1.pend, target)), s', out) {
        SelectDeferredInvents(s1.(pend := Insert(s1.pend, target)), s', out, t);
        InsertMember(s1.pend, target, t);
      }
    }
  }

  lemma SelectSyncInvents(s: State, done: TipSet, s': State, out: Option<TipSet>, t: TipSet)
    requires NonEmpty(s.deferred) && SelectSync(s, done, s', out) && (Occurs(s', t) || out == Some(t))
    ensures Occurs(s, t)
  {
    var related, s1 := RelatedTips(s.pend, done), s.(pend := Unrelated(s.pend, done));
    UnrelatedStay(s.pend, done);
    RelatedTipsMembers(s.pend, done);
    if related != [] { HeaviestIsMax(related); }
    if SelectDeferred(s1, s', out) { SelectDeferredInvents(s1, s', out, t); }
  }

  /** Popping the related buckets parts the tipsets into those popped and those kept. */
  lemma UnrelatedStay(bs: seq<Bucket>, done: TipSet)
    ensures forall t :: Contains(Unrelated(bs, done), t) ==> Contains(bs, t)
    ensures forall t :: Contains(bs, t) ==> t in RelatedTips(bs, done) || Contains(Unrelated(bs, done), t)
  {
    var at, rest := KeptAt(bs, done), Unrelated(bs, done);
    KeptAtIsUnrelated(bs, done);
    RelatedTipsMembers(bs, done);
    forall t | Contains(rest, t) ensures Contains(bs, t) {
      var k :| 0 <= k < |rest| && t in rest[k];
      assert t in bs[at[k]];
    }
    forall t | Contains(bs, t) && t !in RelatedTips(bs, done) ensures Contains(rest, t) {
      var i :| 0 <= i < |bs| && t in bs[i];
      assert i in at;
      var k :| 0 <= k < |at| && at[k] == i;
      assert t in rest[k];
    }
  }

  lemma {:induction false} RampUpInvents(s: State, s': State, t: TipSet)
    requires NonEmpty(s.deferred) && RampUp(s, s') && Occurs(s', t)
    ensures Occurs(s, t)
    decreases |s.deferred|
  {
    if |s.active| < MAX_SYNC_WORKERS {
      var s1, out :| SelectDeferred(s, s1, out) &&
        (if out.Some? then RampUp(Spawn(s1, out.value), s') else s' == s1);
      if out.Some? {
        RampUpInvents(Spawn(s1, out.value), s', t);
        SpawnInvents(s1, out.value, t);
      }
      SelectDeferredInvents(s, s1, out, t);
    }
  }

  lemma SpawnInvents(s: State, target: TipSet, t: TipSet)
    requires Occurs(Spawn(s, target), t)
    ensures t == target || Occurs(s, t)
  {
    if id :| id in Spawn(s, target).active && Spawn(s, target).active[id] == t && t != target {
      assert id in s.active && s.active[id] == t;
    }
  }

  lemma HeadInvents(threshold: int, s: State, p: Peer, ts: TipSet, s': State, t: TipSet)
    requires Next(threshold, s, PeerHead(p, ts), s') && Occurs(s', t)
    ensures Occurs(s, t) || t == ts
  {
    if s.nextWorker == 0 {
      FirstHeadInvents(threshold, s, p, ts, s', t);
    } else {
      HeadOutcome(threshold, s, p, ts, s');
      if Started(s, ts, s') { SpawnInvents(s, ts, t); }
    }
  }

  /** A head after the start has one of four outcomes. */
  lemma HeadOutcome(threshold: int, s: State, p: Peer, ts: TipSet, s': State)
    requires s.nextWorker > 0 && Next(threshold, s, PeerHead(p, ts), s')
    ensures s' == s || Started(s, ts, s') || Pended(s, ts, s') || Deferred(s, ts, s')
  {
    HeadFate(threshold, s, p, ts, s');
  }

  lemma FirstHeadInvents(threshold: int, s: State, p: Peer, ts: TipSet, s': State, t: TipSet)
    requires NonEmpty(s.pend) && s.nextWorker == 0 && HandlePeerHead(threshold, s, p, ts, s') && Occurs(s', t)
    ensures Occurs(s, t) || t == ts
  {
    var recorded := s.(heads := s.heads[p := ts]);
    if |recorded.heads| >= threshold {
      var target :| InitialTarget(recorded.heads, target) && s' == Spawn(recorded.(heads := map[]), target);
      StartInvents(recorded, target, t);
    }
    assert Occurs(recorded, t);
    RecordInvents(s, p, ts, t);
  }

  lemma RecordInvents(s: State, p: Peer, ts: TipSet, t: TipSet)
    requires Occurs(s.(heads := s.heads[p := ts]), t)
    ensures Occurs(s, t) || t == ts
  {
    var heads := s.heads[p := ts];
    if q :| q in heads && heads[q] == t && q != p { assert s.heads[q] == t; }
  }

  lemma StartInvents(s: State, target: TipSet, t: TipSet)
    requires InitialTarget(s.heads, target) && Occurs(Spawn(s.(heads := map[]), target), t)
    ensures Occurs(s, t)
  {
    SpawnInvents(s.(heads := map[]), target, t);
    var q := TargetIsHead(s.heads, target);
  }

  lemma TargetIsHead(heads: map<Peer, TipSet>, target: TipSet) returns (p: Peer)
    requires InitialTarget(heads, target)
    ensures p in heads && heads[p] == target
  {
    var order: seq<TipSet> :| ChosenFrom(heads, order, target);
    var peers: seq<Peer> :| Recorded(heads, {}, peers, order);
    var bs := InsertAll(order);
    assert bs[0][0] in bs[0] && Contains(bs, bs[0][0]);
    HeaviestOfAll(bs, bs[0][0]);
    InsertAllOnlyHeads(order, target);
    p := ListedIsHead(heads, peers, order, target);
  }

  lemma NextInvents(threshold: int, s: State, e: Event, s': State, t: TipSet)
    requires Next(threshold, s, e, s') && Occurs(s', t)
    ensures Occurs(s, t) || (e.PeerHead? && e.ts == t)
  {
    match e
    case PeerHead(p, ts) => HeadInvents(threshold, s, p, ts, s', t);
    case Report(id, ok, fast) =>
      var r := Retire(s, id, ok, fast);
      var s1, out :| SelectSync(r, s.active[id], s1, out) && s' == SpawnIf(s1, out);
      if out.Some? { SpawnInvents(s1, out.value, t); }
      SelectSyncInvents(r, s.active[id], s1, out, t);
    case Tick => if s.initialSyncDone { RampUpInvents(s.(rampedUp := true), s', t); }
  }

  ghost predicate Received(es: seq<Event>, n: nat, t: TipSet)
    requires n <= |es|
  {
    exists i :: 0 <= i < n && es[i].PeerHead? && es[i].ts == t
  }

  /** Over every run: the scheduler works on, keeps and remembers only heads that peers have sent. */
  lemma {:induction false} OnlyReceivedHeads(threshold: int, ss: seq<State>, es: seq<Event>, n: nat, t: TipSet)
    requires Run(threshold, ss, es) && n < |ss| && Occurs(ss[n], t)
    ensures Received(es, n, t)
  {
    if n > 0 {
      assert StepAt(threshold, ss, es, n - 1);
      NextInvents(threshold, ss[n - 1], es[n - 1], ss[n], t);
      if Occurs(ss[n - 1], t) { OnlyReceivedHeads(threshold, ss, es, n - 1, t); }
    }
  }

  // ---------------------------------------------------------------- no head is forgotten

  ghost predicate Works(active: map<nat, TipSet>, w: int) {
    exists id :: id in active && active[id].weight >= w
  }

  ghost predicate Waits(bs: seq<Bucket>, w: int) {
    exists t :: Contains(bs, t) && t.weight >= w
  }

  /** A tipset of weight `w` or more is remembered for good, worked on, pending or deferred. */
  ghost predicate Keeps(s: State, w: int) {
    Guarded(s, w) || Works(s.active, w) || Waits(s.pend, w) || Waits(s.deferred, w)
  }

  /** A key stands for its content, so for its weight. */
  ghost predicate Weighed(weightOf: Key -> int, s: State) {
    forall t :: Occurs(s, t) ==> t.weight == weightOf(t.key)
  }

  /** What is remembered is remembered for good. */
  ghost predicate RingGuards(s: State) {
    forall r :: r in s.recent ==> Guarded(s, r.weight)
  }

  /** A worker on weight `w` or more fails. */
  ghost predicate Fails(s: State, e: Event, w: int) {
    e.Report? && !e.ok && e.id in s.active && s.active[e.id].weight >= w
  }

  /** The step ends the last worker while targets are deferred. */
  ghost predicate Strands(s: State, s': State) {
    s.deferred != [] && s'.active == map[]
  }

  lemma RememberedIsGuarded(s: State, weightOf: Key -> int, t: TipSet)
    requires RingGuards(s) && Weighed(weightOf, s) && t.weight == weightOf(t.key) && Remembered(s, t)
    ensures forall w :: w <= t.weight ==> Guarded(s, w)
  {
    var r :| r in s.recent && (Same(r, t) || r.weight > t.weight);
    assert Occurs(s, r) && r.weight >= t.weight;
    forall w | w <= t.weight ensures Guarded(s, w) { LowerGuard(s, r.weight, w); }
  }

  lemma LowerGuard(s: State, v: int, w: int)
    requires Guarded(s, v) && w <= v
    ensures Guarded(s, w)
  {
    var k :| 0 <= k < |s.recent| && s.recent[k].weight >= v && k + |Lighter(s.active, v)| <= MAX_SYNC_WORKERS - 1;
    Fewer(Lighter(s.active, w), Lighter(s.active, v));
  }

  lemma NextKeepsRing(threshold: int, s: State, e: Event, s': State)
    requires Inv(s) && RingGuards(s) && Next(threshold, s, e, s')
    ensures RingGuards(s')
  {
    forall r | r in s'.recent ensures Guarded(s', r.weight) {
      RecentFrom(threshold, s, e, s', r);
      if r in s.recent {
        NextKeepsGuard(threshold, s, e, s', r.weight);
      } else {
        SuccessStartsNoLighter(threshold, s, e, s');
      }
    }
  }

  /** Only a success enters the ring. */
  lemma RecentFrom(threshold: int, s: State, e: Event, s': State, r: TipSet)
    requires Inv(s) && Next(threshold, s, e, s') && r in s'.recent
    ensures r in s.recent || (e.Report? && e.ok && e.id in s.active && s.active[e.id] == r)
  {
    match e
    case PeerHead(p, ts) => if s.nextWorker > 0 { HeadOutcome(threshold, s, p, ts, s'); }
    case Report(id, ok, fast) => ReportRecent(s, id, ok, fast, s');
    case Tick => if s.initialSyncDone { RampUpOnlyAdds(s.(rampedUp := true), s'); }
  }

  lemma ReportRecent(s: State, id: nat, ok: bool, fast: bool, s': State)
    requires Inv(s) && HandleWorkerStatus(s, id, ok, fast, s')
    ensures s'.recent == if ok then Remember(s.recent, s.active[id]) else s.recent
  {
    var s1, out :| SelectSync(Retire(s, id, ok, fast), s.active[id], s1, out) && s' == SpawnIf(s1, out);
    SelectSyncSelects(s, id, ok, fast, s1, out);
  }

  ghost predicate OnlyAdds(s: State, s': State) {
    && s'.recent == s.recent && s'.rampedUp == s.rampedUp && s.nextWorker <= s'.nextWorker
    && forall id :: id in s.active ==> id in s'.active && s'.active[id] == s.active[id]
  }

  lemma {:induction false} RampUpOnlyAdds(s: State, s': State)
    requires Sound(s) && s.initialSyncDone && RampUp(s, s')
    ensures OnlyAdds(s, s')
    decreases |s.deferred|
  {
    if |s.active| < MAX_SYNC_WORKERS {
      var s1, out :| SelectDeferred(s, s1, out) &&
        (if out.Some? then RampUp(Spawn(s1, out.value), s') else s' == s1);
      SelectDeferredKeeps(s, s1, out);
      if out.Some? {
        SpawnKeepsSound(s1, out.value);
        assert OnlyAdds(s, Spawn(s1, out.value));
        RampUpOnlyAdds(Spawn(s1, out.value), s');
      }
    }
  }

  /** The tick does nothing before the initial sync is done. After it the deferred targets are used up, or the
      pool is filled beside the workers that ran. */
  lemma TickRampsUp(threshold: int, s: State, s': State)
    requires Inv(s) && Next(threshold, s, Tick, s')
    ensures !s.initialSyncDone ==> s' == s
    ensures s.initialSyncDone ==>
      && s'.rampedUp && (s'.deferred == [] || |s'.active| == MAX_SYNC_WORKERS)
      && forall id :: id in s.active ==> id in s'.active && s'.active[id] == s.active[id]
  {
    NextKeepsInv(threshold, s, Tick, s');
    if s.initialSyncDone { RampUpOnlyAdds(s.(rampedUp := true), s'); }
  }

  /** A report ends that worker and no other, at most one worker follows it, on a pending or deferred
      tipset, a success is remembered, and a fast one ends the initial sync. */
  lemma ReportRetires(threshold: int, s: State, id: nat, ok: bool, fast: bool, s': State)
    requires Inv(s) && Next(threshold, s, Report(id, ok, fast), s')
    ensures id in s.active
    ensures s'.active == s.active - {id} ||
      (s.nextWorker in s'.active && s'.active == (s.active - {id})[s.nextWorker := s'.active[s.nextWorker]] &&
       (Contains(s.pend, s'.active[s.nextWorker]) || Contains(s.deferred, s'.active[s.nextWorker])))
    ensures s'.recent == if ok then Remember(s.recent, s.active[id]) else s.recent
    ensures s'.initialSyncDone <==> s.initialSyncDone || (ok && fast)
  {
    var r, done := Retire(s, id, ok, fast), s.active[id];
    var s1, out :| SelectSync(r, done, s1, out) && s' == SpawnIf(s1, out);
    SelectSyncSelects(s, id, ok, fast, s1, out);
    if out.Some? { ChosenIsWaiting(r, done, s1, out); }
  }

  lemma ChosenIsWaiting(s: State, done: TipSet, s1: State, out: Option<TipSet>)
    requires NonEmpty(s.deferred) && SelectSync(s, done, s1, out) && out.Some?
    ensures Contains(s.pend, out.value) || Contains(s.deferred, out.value)
  {
    var related, rest := RelatedTips(s.pend, done), s.(pend := Unrelated(s.pend, done));
    RelatedTipsMembers(s.pend, done);
    if related != [] && MayContinue(s, done, Heaviest(related)) {
      HeaviestIsMax(related);
    } else {
      TakenMeans(rest, s1, out);
    }
  }

  /** The tipset chosen keeps the weight too. */
  ghost predicate KeepsWith(s: State, out: Option<TipSet>, w: int) {
    Keeps(s, w) || (out.Some? && out.value.weight >= w)
  }

  /** What a selection relies on between two deferred targets, and a ramp-up between two starts. */
  ghost predicate Fit(weightOf: Key -> int, s: State) {
    Sound(s) && Weighed(weightOf, s) && RingGuards(s) && (s.deferred != [] ==> s.active != map[])
  }

  lemma {:induction false} SelectDeferredKeepsWeight(
    weightOf: Key -> int, s: State, s': State, out: Option<TipSet>, w: int)
    requires Fit(weightOf, s) && Keeps(s, w) && SelectDeferred(s, s', out)
    ensures KeepsWith(s', out, w)
    decreases |s.deferred|
  {
    if s.deferred != [] {
      var target, s1 := HeaviestOf(s.deferred).value, PopDeferred(s);
      if Judges(s1, target, Skip) && SelectDeferred(s1, s', out) {
        PopIsFit(weightOf, s);
        SkipKeeps(weightOf, s, w);
        SelectDeferredKeepsWeight(weightOf, s1, s', out, w);
      } else if Judges(s1, target, Pend) && SelectDeferred(s1.(pend := Insert(s1.pend, target)), s', out) {
        PopIsFit(weightOf, s);
        PendedHasPlace(s1, target);
        HeaviestDeferredWeighed(weightOf, s);
        PendIsFit(weightOf, s1, target);
        PendKeeps(weightOf, s, w);
        SelectDeferredKeepsWeight(weightOf, s1.(pend := Insert(s1.pend, target)), s', out, w);
      } else {
        TakeKeeps(s, w);
      }
    }
  }

  lemma TakeKeeps(s: State, w: int)
    requires NonEmpty(s.deferred) && s.deferred != [] && Keeps(s, w)
    ensures Keeps(PopDeferred(s), w) || HeaviestOf(s.deferred).value.weight >= w
  {
    Popped(s);
    assert Guarded(s, w) ==> Guarded(PopDeferred(s), w);
  }

  lemma PopIsFit(weightOf: Key -> int, s: State)
    requires Fit(weightOf, s) && s.deferred != []
    ensures Fit(weightOf, PopDeferred(s))
  {
    var s1 := PopDeferred(s);
    PopWeighed(weightOf, s);
    forall r | r in s1.recent ensures Guarded(s1, r.weight) { assert Guarded(s, r.weight); }
  }

  /** A target with a place among the pending ones may be put there. */
  lemma PendIsFit(weightOf: Key -> int, s: State, target: TipSet)
    requires Fit(weightOf, s) && target.weight == weightOf(target.key)
    requires RelatedToAny(s.pend, target) || exists id :: id in s.active && target.parents == s.active[id].key
    ensures Fit(weightOf, s.(pend := Insert(s.pend, target)))
  {
    var s2 := s.(pend := Insert(s.pend, target));
    InsertKeepsAnchors(s.pend, target, s.active);
    forall t | Occurs(s2, t) ensures Occurs(s, t) || t == target { InsertMember(s.pend, target, t); }
    forall r | r in s2.recent ensures Guarded(s2, r.weight) { assert Guarded(s, r.weight); }
  }

  lemma PendedHasPlace(s: State, target: TipSet)
    requires Judges(s, target, Pend)
    ensures RelatedToAny(s.pend, target) || exists id :: id in s.active && target.parents == s.active[id].key
  {
  }

  lemma HeaviestDeferredWeighed(weightOf: Key -> int, s: State)
    requires NonEmpty(s.deferred) && s.deferred != [] && Weighed(weightOf, s)
    ensures var target := HeaviestOf(s.deferred).value; target.weight == weightOf(target.key)
  {
    Popped(s);
    assert Occurs(s, HeaviestOf(s.deferred).value);
  }

  lemma PopWeighed(weightOf: Key -> int, s: State)
    requires NonEmpty(s.deferred) && s.deferred != [] && Weighed(weightOf, s)
    ensures Weighed(weightOf, PopDeferred(s))
  {
    Popped(s);
    forall t | Occurs(PopDeferred(s), t) ensures Occurs(s, t) {}
  }

  /** A target is skipped only when one as heavy is remembered or worked on. */
  lemma SkippedIsCovered(weightOf: Key -> int, s: State, target: TipSet, w: int)
    requires s.active != map[] && Weighed(weightOf, s) && RingGuards(s)
    requires target.weight == weightOf(target.key) && target.weight >= w && Judges(s, target, Skip)
    ensures Guarded(s, w) || Works(s.active, w)
  {
    SyncedIsRemembered(s, target);
    if Remembered(s, target) {
      RememberedIsGuarded(s, weightOf, target);
    } else {
      var id :| id in s.active && Skip == VerdictBy(s.active[id], target);
      assert Occurs(s, s.active[id]);
    }
  }

  lemma SkipKeeps(weightOf: Key -> int, s: State, w: int)
    requires NonEmpty(s.deferred) && s.deferred != [] && s.active != map[]
    requires Weighed(weightOf, s) && RingGuards(s) && Keeps(s, w)
    requires Judges(PopDeferred(s), HeaviestOf(s.deferred).value, Skip)
    ensures Keeps(PopDeferred(s), w)
  {
    var target := HeaviestOf(s.deferred).value;
    Popped(s);
    assert Guarded(s, w) ==> Guarded(PopDeferred(s), w);
    if target.weight >= w {
      assert Occurs(s, target);
      assert Judges(s, target, Skip);
      SkippedIsCovered(weightOf, s, target, w);
    }
  }

  lemma PendKeeps(weightOf: Key -> int, s: State, w: int)
    requires NonEmpty(s.deferred) && s.deferred != [] && Weighed(weightOf, s) && Keeps(s, w)
    ensures var target, s1 := HeaviestOf(s.deferred).value, PopDeferred(s);
      var s2 := s1.(pend := Insert(s1.pend, target));
      Keeps(s2, w)
  {
    var target, s1 := HeaviestOf(s.deferred).value, PopDeferred(s);
    var s2 := s1.(pend := Insert(s1.pend, target));
    Popped(s);
    InsertJoins(s.pend, target);
    assert Occurs(s, target);
    assert Guarded(s, w) ==> Guarded(s2, w);
    var u :| Contains(s2.pend, u) && u.Equals(target);
    assert u == target || Occurs(s, u);
  }

  lemma SpawnKeepsWeight(s: State, s1: State, out: Option<TipSet>, w: int)
    requires Sound(s1) && OnlyBuckets(s, s1) && KeepsWith(s1, out, w)
    requires out.Some? ==> !Synced(s.recent, out.value)
    ensures Keeps(SpawnIf(s1, out), w)
  {
    if Guarded(s, w) {
      StartOne(s, s1, out, w);
    } else if out.Some? {
      var s' := Spawn(s1, out.value);
      assert s'.active[s1.nextWorker] == out.value;
      assert forall id :: id in s1.active ==> s'.active[id] == s1.active[id];
    }
  }

  lemma StartKeepsFit(weightOf: Key -> int, s: State, s1: State, out: Option<TipSet>)
    requires Fit(weightOf, s) && s.initialSyncDone && |s.active| < MAX_SYNC_WORKERS
    requires SelectDeferred(s, s1, out) && out.Some?
    ensures Fit(weightOf, Spawn(s1, out.value))
  {
    SelectDeferredKeeps(s, s1, out);
    SpawnKeepsSound(s1, out.value);
    forall t | Occurs(Spawn(s1, out.value), t) ensures t.weight == weightOf(t.key) {
      SpawnInvents(s1, out.value, t);
      SelectDeferredInvents(s, s1, out, t);
    }
    forall r | r in s1.recent ensures Guarded(Spawn(s1, out.value), r.weight) { StartOne(s, s1, out, r.weight); }
  }

  lemma {:induction false} RampUpKeepsWeight(weightOf: Key -> int, s: State, s': State, w: int)
    requires Fit(weightOf, s) && s.initialSyncDone && RampUp(s, s') && Keeps(s, w)
    ensures Keeps(s', w)
    decreases |s.deferred|
  {
    if |s.active| < MAX_SYNC_WORKERS {
      var s1, out :| SelectDeferred(s, s1, out) &&
        (if out.Some? then RampUp(Spawn(s1, out.value), s') else s' == s1);
      SelectDeferredKeeps(s, s1, out);
      SelectDeferredKeepsWeight(weightOf, s, s1, out, w);
      if out.Some? {
        SpawnKeepsWeight(s, s1, out, w);
        StartKeepsFit(weightOf, s, s1, out);
        RampUpKeepsWeight(weightOf, Spawn(s1, out.value), s', w);
      }
    }
  }

  lemma HeadKeepsWeight(threshold: int, s: State, p: Peer, ts: TipSet, s': State, w: int)
    requires Inv(s) && s.nextWorker > 0 && Next(threshold, s, PeerHead(p, ts), s') && Keeps(s, w)
    ensures Keeps(s', w)
  {
    HeadOutcome(threshold, s, p, ts, s');
    if Guarded(s, w) {
      NextKeepsGuard(threshold, s, PeerHead(p, ts), s', w);
    } else if Works(s.active, w) {
      var id :| id in s.active && s.active[id].weight >= w;
      assert id in s'.active && s'.active[id] == s.active[id];
    }
  }

  /** A head that arrives is kept, or something as heavy is. */
  lemma HeadIsKept(threshold: int, weightOf: Key -> int, s: State, p: Peer, ts: TipSet, s': State)
    requires Inv(s) && Weighed(weightOf, s) && RingGuards(s) && ts.weight == weightOf(ts.key)
    requires s.nextWorker > 0 && Next(threshold, s, PeerHead(p, ts), s')
    ensures Keeps(s', ts.weight)
  {
    HeadFate(threshold, s, p, ts, s');
    if Remembered(s, ts) {
      RememberedIsGuarded(s, weightOf, ts);
    } else if s' == s && Running(s, ts) {
      var id :| id in s.active && Same(s.active[id], ts);
      assert Occurs(s, s.active[id]);
    } else if s' == s && s.active != map[] && Outweighed(s, ts) {
    } else if Started(s, ts, s') {
      assert s'.active[s.nextWorker] == ts;
    } else {
      JoinedWaits(weightOf, s, ts, s');
    }
  }

  lemma JoinedWaits(weightOf: Key -> int, s: State, ts: TipSet, s': State)
    requires Weighed(weightOf, s) && ts.weight == weightOf(ts.key) && (Pended(s, ts, s') || Deferred(s, ts, s'))
    ensures Waits(s'.pend, ts.weight) || Waits(s'.deferred, ts.weight)
  {
    var bs, bs' := if Pended(s, ts, s') then s.pend else s.deferred, if Pended(s, ts, s') then s'.pend else s'.deferred;
    var u :| Contains(bs', u) && u.Equals(ts);
    assert u == ts || Occurs(s, u);
  }

  /** After a report, unless a worker as heavy failed: the related pending tipsets are continued by one as
      heavy, or something as heavy is remembered or worked on. */
  lemma PoppedIsCovered(weightOf: Key -> int, s: State, done: TipSet, w: int)
    requires NonEmpty(s.pend) && Weighed(weightOf, s) && RingGuards(s)
    requires done.weight >= w ==> Guarded(s, w)
    requires var related := RelatedTips(s.pend, done);
      related != [] && Heaviest(related).weight >= w && !MayContinue(s, done, Heaviest(related))
    ensures Guarded(s, w) || Works(s.active, w)
  {
    var related := RelatedTips(s.pend, done);
    HeaviestIsMax(related);
    RelatedTipsMembers(s.pend, done);
    var target := Heaviest(related);
    assert Contains(s.pend, target) && Occurs(s, target);
    SyncedIsRemembered(s, target);
    if Remembered(s, target) { RememberedIsGuarded(s, weightOf, target); }
  }

  lemma RetireIsFit(weightOf: Key -> int, s: State, id: nat, ok: bool, fast: bool)
    requires Inv(s) && Weighed(weightOf, s) && RingGuards(s) && id in s.active
    ensures var r := Retire(s, id, ok, fast); Weighed(weightOf, r) && RingGuards(r)
  {
    var r := Retire(s, id, ok, fast);
    assert Occurs(s, s.active[id]);
    forall t | Occurs(r, t) ensures Occurs(s, t) {}
    forall t | t in r.recent ensures Guarded(r, t.weight) {
      if t in s.recent {
        RetireKeepsGuard(s, t.weight, id, ok, fast);
      } else {
        SuccessSetsGuard(s, t.weight, id, fast);
      }
    }
  }

  lemma RetireKeepsWeight(s: State, id: nat, ok: bool, fast: bool, w: int)
    requires Inv(s) && Keeps(s, w) && id in s.active && (ok || s.active[id].weight < w)
    ensures var r := Retire(s, id, ok, fast); Keeps(r, w) && (s.active[id].weight >= w ==> Guarded(r, w))
  {
    var r := Retire(s, id, ok, fast);
    if s.active[id].weight >= w {
      SuccessSetsGuard(s, w, id, fast);
    } else if Guarded(s, w) {
      RetireKeepsGuard(s, w, id, ok, fast);
    } else if Works(s.active, w) {
      var v :| v in s.active && s.active[v].weight >= w;
      assert v in r.active && r.active[v] == s.active[v];
    }
  }

  lemma SelectSyncKeepsWeight(weightOf: Key -> int, s: State, done: TipSet, s1: State, out: Option<TipSet>, w: int)
    requires NonEmpty(s.pend) && Sound(s.(pend := Unrelated(s.pend, done)))
    requires Weighed(weightOf, s) && RingGuards(s) && Keeps(s, w) && (done.weight >= w ==> Guarded(s, w))
    requires SelectSync(s, done, s1, out) && (s.deferred != [] ==> s.active != map[] || out.Some?)
    ensures KeepsWith(s1, out, w)
  {
    var related, rest := RelatedTips(s.pend, done), s.(pend := Unrelated(s.pend, done));
    PoppedOrKept(s, done, w);
    if !(related != [] && MayContinue(s, done, Heaviest(related))) {
      if !Keeps(rest, w) { PoppedIsCovered(weightOf, s, done, w); }
      RestIsFit(weightOf, s, done);
      FallBackKeepsWeight(weightOf, rest, s1, out, w);
    }
  }

  lemma FallBackKeepsWeight(weightOf: Key -> int, s: State, s1: State, out: Option<TipSet>, w: int)
    requires Sound(s) && Weighed(weightOf, s) && RingGuards(s) && Keeps(s, w) && SelectDeferred(s, s1, out)
    requires s.deferred != [] ==> s.active != map[] || out.Some?
    ensures KeepsWith(s1, out, w)
  {
    SelectDeferredKeeps(s, s1, out);
    assert Fit(weightOf, s);
    SelectDeferredKeepsWeight(weightOf, s, s1, out, w);
  }

  lemma PoppedOrKept(s: State, done: TipSet, w: int)
    requires Keeps(s, w)
    ensures var related, rest := RelatedTips(s.pend, done), s.(pend := Unrelated(s.pend, done));
      || Keeps(rest, w)
      || (related != [] && Heaviest(related).weight >= w && !Guarded(s, w) && !Works(s.active, w))
  {
    var related, rest := RelatedTips(s.pend, done), s.(pend := Unrelated(s.pend, done));
    assert Guarded(s, w) ==> Guarded(rest, w);
    if t :| Contains(s.pend, t) && t.weight >= w {
      UnrelatedStay(s.pend, done);
      if t in related { HeaviestIsMax(related); }
    }
  }

  lemma RestIsFit(weightOf: Key -> int, s: State, done: TipSet)
    requires Weighed(weightOf, s) && RingGuards(s)
    ensures var rest := s.(pend := Unrelated(s.pend, done)); Weighed(weightOf, rest) && RingGuards(rest)
  {
    var rest := s.(pend := Unrelated(s.pend, done));
    UnrelatedStay(s.pend, done);
    forall t | Occurs(rest, t) ensures Occurs(s, t) {}
    forall r | r in rest.recent ensures Guarded(rest, r.weight) { assert Guarded(s, r.weight); }
  }

  lemma ReportKeepsWeight(weightOf: Key -> int, s: State, id: nat, ok: bool, fast: bool, s': State, w: int)
    requires Inv(s) && Weighed(weightOf, s) && RingGuards(s) && Keeps(s, w)
    requires HandleWorkerStatus(s, id, ok, fast, s') && (ok || s.active[id].weight < w) && !Strands(s, s')
    ensures Keeps(s', w)
  {
    var r := Retire(s, id, ok, fast);
    var s1, out :| SelectSync(r, s.active[id], s1, out) && s' == SpawnIf(s1, out);
    RetireIsFit(weightOf, s, id, ok, fast);
    RetireKeepsWeight(s, id, ok, fast, w);
    RetireKeepsSound(s, id, ok, fast);
    SelectSyncSelects(s, id, ok, fast, s1, out);
    SelectSyncKeepsWeight(weightOf, r, s.active[id], s1, out, w);
    SpawnKeepsWeight(r, s1, out, w);
  }

  /** A step loses hold of a weight only when a worker as heavy fails, or when the last worker ends while
      targets are deferred. */
  lemma NextKeepsWeight(threshold: int, weightOf: Key -> int, s: State, e: Event, s': State, w: int)
    requires Inv(s) && Weighed(weightOf, s) && RingGuards(s) && Keeps(s, w) && s.nextWorker > 0
    requires Next(threshold, s, e, s') && !Fails(s, e, w) && !Strands(s, s')
    ensures Keeps(s', w)
  {
    match e
    case PeerHead(p, ts) => HeadKeepsWeight(threshold, s, p, ts, s', w);
    case Report(id, ok, fast) => ReportKeepsWeight(weightOf, s, id, ok, fast, s', w);
    case Tick =>
      if s.initialSyncDone {
        TickFit(weightOf, s, w);
        RampUpKeepsWeight(weightOf, s.(rampedUp := true), s', w);
      }
  }

  lemma TickFit(weightOf: Key -> int, s: State, w: int)
    requires Inv(s) && Weighed(weightOf, s) && RingGuards(s) && Keeps(s, w) && s.initialSyncDone
    ensures Fit(weightOf, s.(rampedUp := true)) && Keeps(s.(rampedUp := true), w)
  {
    var s1 := s.(rampedUp := true);
    forall t | Occurs(s1, t) ensures Occurs(s, t) {}
    forall r | r in s1.recent ensures Guarded(s1, r.weight) { assert Guarded(s, r.weight); }
    assert Guarded(s, w) ==> Guarded(s1, w);
  }

  // ---------------------------------------------------------------- over whole runs

  ghost predicate HeadsWeighed(weightOf: Key -> int, es: seq<Event>) {
    forall i :: 0 <= i < |es| && es[i].PeerHead? ==> es[i].ts.weight == weightOf(es[i].ts.key)
  }

  lemma {:induction false} ReachableRing(
    threshold: int, weightOf: Key -> int, ss: seq<State>, es: seq<Event>, n: nat)
    requires Run(threshold, ss, es) && HeadsWeighed(weightOf, es) && n < |ss|
    ensures RingGuards(ss[n]) && Weighed(weightOf, ss[n])
  {
    forall t | Occurs(ss[n], t) ensures t.weight == weightOf(t.key) { OnlyReceivedHeads(threshold, ss, es, n, t); }
    if n > 0 {
      ReachableRing(threshold, weightOf, ss, es, n - 1);
      ReachableInv(threshold, ss, es, n - 1);
      assert StepAt(threshold, ss, es, n - 1);
      NextKeepsRing(threshold, ss[n - 1], es[n - 1], ss[n]);
    }
  }

  /** A tipset of weight `w` or more is remembered, worked on, pending or deferred. */
  ghost predicate Holding(s: State, w: int) {
    || (exists r :: r in s.recent && r.weight >= w)
    || (exists id :: id in s.active && s.active[id].weight >= w)
    || (exists t :: (Contains(s.pend, t) || Contains(s.deferred, t)) && t.weight >= w)
  }

  lemma HoldingIsKeeping(s: State, w: int)
    requires RingGuards(s)
    ensures Holding(s, w) <==> Keeps(s, w)
  {
    if r :| r in s.recent && r.weight >= w { LowerGuard(s, r.weight, w); }
    if Guarded(s, w) {
      var k :| 0 <= k < |s.recent| && s.recent[k].weight >= w && k + |Lighter(s.active, w)| <= MAX_SYNC_WORKERS - 1;
      assert s.recent[k] in s.recent;
    }
  }

  /** Neither loss happens in the step. */
  ghost predicate Safe(ss: seq<State>, es: seq<Event>, k: nat, w: int)
    requires k < |es| < |ss|
  {
    !Fails(ss[k], es[k], w) && !Strands(ss[k], ss[k + 1])
  }

  /** Over every run: what the scheduler holds of some weight, it holds on to, in the same or a heavier tipset,
      as long as no worker that heavy fails and the last worker does not end while targets are deferred. */
  lemma {:induction false} HoldingPersists(
    threshold: int, weightOf: Key -> int, ss: seq<State>, es: seq<Event>, i: nat, j: nat, w: int)
    requires Run(threshold, ss, es) && HeadsWeighed(weightOf, es) && i <= j < |ss| && ss[i].nextWorker > 0
    requires Holding(ss[i], w) && forall k :: i <= k < j ==> Safe(ss, es, k, w)
    ensures Holding(ss[j], w) && ss[j].nextWorker > 0
  {
    if i < j {
      HoldingPersists(threshold, weightOf, ss, es, i, j - 1, w);
      HoldingStep(threshold, weightOf, ss, es, j - 1, w);
    }
  }

  lemma HoldingStep(threshold: int, weightOf: Key -> int, ss: seq<State>, es: seq<Event>, j: nat, w: int)
    requires Run(threshold, ss, es) && HeadsWeighed(weightOf, es) && j < |es| && ss[j].nextWorker > 0
    requires Holding(ss[j], w) && Safe(ss, es, j, w)
    ensures Holding(ss[j + 1], w) && ss[j + 1].nextWorker > 0
  {
    ReachableInv(threshold, ss, es, j);
    ReachableRing(threshold, weightOf, ss, es, j);
    ReachableRing(threshold, weightOf, ss, es, j + 1);
    HoldingIsKeeping(ss[j], w);
    HoldingIsKeeping(ss[j + 1], w);
    assert StepAt(threshold, ss, es, j);
    NextKeepsWeight(threshold, weightOf, ss[j], es[j], ss[j + 1], w);
    WorkersCount(threshold, ss[j], es[j], ss[j + 1]);
  }

  lemma WorkersCount(threshold: int, s: State, e: Event, s': State)
    requires Inv(s) && Next(threshold, s, e, s')
    ensures s.nextWorker <= s'.nextWorker
  {
    match e
    case PeerHead(p, ts) => if s.nextWorker > 0 { HeadOutcome(threshold, s, p, ts, s'); }
    case Report(id, ok, fast) =>
      var s1, out :| SelectSync(Retire(s, id, ok, fast), s.active[id], s1, out) && s' == SpawnIf(s1, out);
      SelectSyncSelects(s, id, ok, fast, s1, out);
    case Tick => if s.initialSyncDone { RampUpOnlyAdds(s.(rampedUp := true), s'); }
  }

  lemma HeadIsHeld(threshold: int, weightOf: Key -> int, ss: seq<State>, es: seq<Event>, i: nat)
    requires Run(threshold, ss, es) && HeadsWeighed(weightOf, es) && i < |es|
    requires es[i].PeerHead? && ss[i].nextWorker > 0
    ensures Holding(ss[i + 1], es[i].ts.weight) && ss[i + 1].nextWorker > 0
  {
    ReachableInv(threshold, ss, es, i);
    ReachableRing(threshold, weightOf, ss, es, i);
    ReachableRing(threshold, weightOf, ss, es, i + 1);
    assert StepAt(threshold, ss, es, i);
    HeadIsKept(threshold, weightOf, ss[i], es[i].peer, es[i].ts, ss[i + 1]);
    HoldingIsKeeping(ss[i + 1], es[i].ts.weight);
    WorkersCount(threshold, ss[i], es[i], ss[i + 1]);
  }

  /** Over every run: a head that arrives once syncing has started is not forgotten. A tipset as heavy is
      remembered, worked on, pending or deferred ever after, as long as neither loss happens. */
  lemma NoHeadIsForgotten(threshold: int, weightOf: Key -> int, ss: seq<State>, es: seq<Event>, i: nat, j: nat)
    requires Run(threshold, ss, es) && HeadsWeighed(weightOf, es) && i < j < |ss|
    requires es[i].PeerHead? && ss[i].nextWorker > 0
    requires forall k :: i < k < j ==> Safe(ss, es, k, es[i].ts.weight)
    ensures Holding(ss[j], es[i].ts.weight)
  {
    HeadIsHeld(threshold, weightOf, ss, es, i);
    HoldingPersists(threshold, weightOf, ss, es, i + 1, j, es[i].ts.weight);
  }

  /** Without workers, all that is held is what is remembered: when the last one ended without a successor the
      deferred targets were dropped, however heavy. */
  lemma IdleHoldsOnlyRecent(threshold: int, ss: seq<State>, es: seq<Event>, k: nat, w: int)
    requires Run(threshold, ss, es) && k < |ss| && ss[k].active == map[]
    ensures ss[k].pend == [] && ss[k].deferred == []
    ensures Holding(ss[k], w) <==> exists r :: r in ss[k].recent && r.weight >= w
  {
    ReachableInv(threshold, ss, es, k);
    PendingNeverOrphaned(threshold, ss, es, k);
  }

  /** The smallest run that forgets a head: it is deferred during the initial sync, and the report of the only
      worker drops it. */
  lemma DeferredHeadIsLost(a: TipSet, b: TipSet) returns (ss: seq<State>, es: seq<Event>)
    requires a.weight < b.weight && a.key != b.key && b.parents != a.key
    ensures Run(1, ss, es) && es == [PeerHead(0, a), PeerHead(1, b), Report(0, true, false)]
    ensures Contains(ss[2].deferred, b) && !Holding(ss[3], b.weight)
  {
    var s1 := State(1, map[], map[0 := a], [], [], [], false, false);
    var s2, s3 := s1.(deferred := [[b]]), State(1, map[], map[], [], [], [a], false, false);
    ss, es := [INIT, s1, s2, s3], [PeerHead(0, a), PeerHead(1, b), Report(0, true, false)];
    RunOfLoss(a, b);
    NothingHeld(a, b.weight);
    assert b in ss[2].deferred[0];
  }

  lemma NothingHeld(a: TipSet, w: int)
    requires a.weight < w
    ensures !Holding(State(1, map[], map[], [], [], [a], false, false), w)
  {
  }

  lemma RunOfLoss(a: TipSet, b: TipSet)
    requires a.weight < b.weight && a.key != b.key && b.parents != a.key
    ensures var s1 := State(1, map[], map[0 := a], [], [], [], false, false);
      var s2, s3 := s1.(deferred := [[b]]), State(1, map[], map[], [], [], [a], false, false);
      Run(1, [INIT, s1, s2, s3], [PeerHead(0, a), PeerHead(1, b), Report(0, true, false)])
  {
    var s1 := State(1, map[], map[0 := a], [], [], [], false, false);
    var s2, s3 := s1.(deferred := [[b]]), State(1, map[], map[], [], [], [a], false, false);
    FirstHead(a);
    LaterHead(a, b);
    LastReport(a, b);
    ThreeSteps(1, s1, s2, s3, PeerHead(0, a), PeerHead(1, b), Report(0, true, false));
  }

  lemma ThreeSteps(threshold: int, s1: State, s2: State, s3: State, e0: Event, e1: Event, e2: Event)
    requires Next(threshold, INIT, e0, s1) && Next(threshold, s1, e1, s2) && Next(threshold, s2, e2, s3)
    ensures Run(threshold, [INIT, s1, s2, s3], [e0, e1, e2])
  {
    var ss, es := [INIT, s1, s2, s3], [e0, e1, e2];
    assert StepAt(threshold, ss, es, 0) && StepAt(threshold, ss, es, 1) && StepAt(threshold, ss, es, 2);
  }

  lemma FirstHead(a: TipSet)
    ensures Next(1, INIT, PeerHead(0, a), State(1, map[], map[0 := a], [], [], [], false, false))
  {
    FirstTarget(a);
    assert INIT.heads[0 := a] == map[0 := a] && |map[0 := a].Keys| == 1;
    assert Spawn(INIT.(heads := map[]), a) == State(1, map[], map[0 := a], [], [], [], false, false);
  }

  lemma FirstTarget(a: TipSet)
    ensures InitialTarget(map[0 := a], a)
  {
    assert Recorded(map[0 := a], {}, [0], [a]);
    assert InsertAll([a][..0]) == [];
    assert InsertAll([a]) == [[a]];
    assert ChosenFrom(map[0 := a], [a], a);
  }

  lemma LaterHead(a: TipSet, b: TipSet)
    requires a.weight < b.weight && a.key != b.key && b.parents != a.key
    ensures var s1 := State(1, map[], map[0 := a], [], [], [], false, false);
      Next(1, s1, PeerHead(1, b), s1.(deferred := [[b]]))
  {
    var s1 := State(1, map[], map[0 := a], [], [], [], false, false);
    var s2 := s1.(deferred := [[b]]);
    assert 0 in s1.active;
    assert Insert([], b) == [[b]];
    assert AddSyncTarget(s1, b, s2, None) && s2 == SpawnIf(s2, None);
  }

  lemma LastReport(a: TipSet, b: TipSet)
    requires a.weight < b.weight && a.key != b.key && b.parents != a.key
    ensures var s2 := State(1, map[], map[0 := a], [], [[b]], [], false, false);
      Next(1, s2, Report(0, true, false), State(1, map[], map[], [], [], [a], false, false))
  {
    var s2 := State(1, map[], map[0 := a], [], [[b]], [], false, false);
    var r := Retire(s2, 0, true, false);
    var s3 := State(1, map[], map[], [], [], [a], false, false);
    var out: Option<TipSet> := None;
    assert SpawnIf(s3, out) == s3;
    assert s2.active - {0} == map[];
    assert r == s3.(deferred := [[b]]);
    assert BestIndex(r.deferred) == 0 && RemoveAt(r.deferred, 0) == [];
    assert HeaviestOf(r.deferred) == Some(b) && PopDeferred(r) == s3;
    assert Judges(s3, b, Skip) && SelectDeferred(s3, s3, out);
    assert SelectSync(r, a, s3, out);
  }
}
