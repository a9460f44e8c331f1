/** What holds in every reachable state of the scheduler, and over whole runs. */
module SchedulerProperties {
  import opened Tipsets
  import opened Buckets
  import opened Scheduler

  // ---------------------------------------------------------------- the state invariant

  /** Some tipset of the bucket extends the target of an active worker. */
  ghost predicate Anchored(b: Bucket, active: map<nat, TipSet>) {
    exists i, id :: 0 <= i < |b| && id in active && b[i].parents == active[id].key
  }

  ghost predicate AllAnchored(bs: seq<Bucket>, active: map<nat, TipSet>) {
    forall i :: 0 <= i < |bs| ==> Anchored(bs[i], active)
  }

  /** Everything but the promises about deferred work, which a handler restores last. */
  ghost predicate Sound(s: State) {
    && NonEmpty(s.pend) && NonEmpty(s.deferred)
    && AllAnchored(s.pend, s.active)
    && (forall id :: id in s.active ==> id < s.nextWorker)
    && |s.active| <= MAX_SYNC_WORKERS
    && (!s.initialSyncDone ==> |s.active| <= 1)
    && (s.nextWorker == 0 ==> s.recent == [] && s.deferred == [] && !s.initialSyncDone)
    && (s.rampedUp ==> s.initialSyncDone)
    && |s.recent| <= RECENT_SYNC_BUFFER_SIZE
  }

  ghost predicate Inv(s: State) {
    && Sound(s)
    && (s.deferred != [] ==> s.active != map[])
    && (s.rampedUp && s.deferred != [] ==> |s.active| == MAX_SYNC_WORKERS)
  }

  lemma InsertKeepsAnchors(bs: seq<Bucket>, ts: TipSet, active: map<nat, TipSet>)
    requires AllAnchored(bs, active)
    requires RelatedToAny(bs, ts) || exists id :: id in active && ts.parents == active[id].key
    ensures AllAnchored(Insert(bs, ts), active)
  {
    var r := Insert(bs, ts);
    forall i | 0 <= i < |r| ensures Anchored(r[i], active) {
      if i < |bs| {
        var k, id :| 0 <= k < |bs[i]| && id in active && bs[i][k].parents == active[id].key;
        assert bs[i] <= r[i] && r[i][k] == bs[i][k];
      } else {
        var id :| id in active && ts.parents == active[id].key;
        assert r[i] == [ts] && r[i][0].parents == active[id].key;
      }
    }
  }

  lemma SpawnKeepsAnchors(s: State, target: TipSet)
    requires AllAnchored(s.pend, s.active) && s.nextWorker !in s.active
    ensures AllAnchored(s.pend, Spawn(s, target).active)
  {
    forall i | 0 <= i < |s.pend| ensures Anchored(s.pend[i], Spawn(s, target).active) {
      var k, id :| 0 <= k < |s.pend[i]| && id in s.active && s.pend[i][k].parents == s.active[id].key;
      assert id in Spawn(s, target).active && Spawn(s, target).active[id] == s.active[id];
    }
  }

  lemma SpawnKeepsSound(s: State, target: TipSet)
    requires Sound(s)
    requires |s.active| < MAX_SYNC_WORKERS && (!s.initialSyncDone ==> s.active == map[])
    ensures Sound(Spawn(s, target))
    ensures |Spawn(s, target).active| == |s.active| + 1
  {
    SpawnKeepsAnchors(s, target);
    assert Spawn(s, target).active.Keys == s.active.Keys + {s.nextWorker};
  }

  /** What a selection may change: only the two bucket sets. */
  ghost predicate OnlyBuckets(s: State, s': State) {
    s' == s.(pend := s'.pend, deferred := s'.deferred)
  }

  lemma {:induction false} SelectDeferredKeeps(s: State, s': State, out: Option<TipSet>)
    requires Sound(s) && SelectDeferred(s, s', out)
    ensures Sound(s') && OnlyBuckets(s, s')
    ensures out.Some? ==> !Synced(s.recent, out.value) && s.active != map[]
    ensures out.None? ==> s'.deferred == []
    decreases |s.deferred|
  {
    if s.deferred != [] {
      var target := HeaviestOf(s.deferred).value;
      var s1 := PopDeferred(s);
      if Judges(s1, target, Skip) && SelectDeferred(s1, s', out) {
        SelectDeferredKeeps(s1, s', out);
      } else if Judges(s1, target, Pend) && SelectDeferred(s1.(pend := Insert(s1.pend, target)), s', out) {
        InsertKeepsAnchors(s1.pend, target, s1.active);
        SelectDeferredKeeps(s1.(pend := Insert(s1.pend, target)), s', out);
      }
    }
  }

  /** Removing the finished worker together with every bucket on its chain orphans nothing. */
  lemma RetireKeepsSound(s: State, id: nat, ok: bool, fast: bool)
    requires Inv(s) && id in s.active
    ensures var r := Retire(s, id, ok, fast); Sound(r.(pend := Unrelated(s.pend, s.active[id])))
    ensures |Retire(s, id, ok, fast).active| == |s.active| - 1
  {
    var done := s.active[id];
    var active := s.active - {id};
    assert active.Keys == s.active.Keys - {id};
    var rest := Unrelated(s.pend, done);
    KeptAtIsUnrelated(s.pend, done);
    forall i | 0 <= i < |rest| ensures Anchored(rest[i], active) && rest[i] != [] {
      var at := KeptAt(s.pend, done)[i];
      assert at in KeptAt(s.pend, done) && Anchored(s.pend[at], s.active);
      var k, w :| 0 <= k < |rest[i]| && w in s.active && rest[i][k].parents == s.active[w].key;
      if w == id {
        assert false;
      }
      assert w in active && rest[i][k].parents == active[w].key;
    }
  }

  /** What a handler may count on after a selection, before it spawns the worker. */
  ghost predicate Selected(s: State, s1: State, out: Option<TipSet>) {
    && Sound(s1) && OnlyBuckets(s, s1)
    && (out.Some? ==>
        && !Synced(s.recent, out.value)
        && |s.active| < MAX_SYNC_WORKERS && (!s.initialSyncDone ==> s.active == map[])
        && (s.rampedUp && s1.deferred != [] ==> |s.active| == MAX_SYNC_WORKERS - 1))
    && (out.None? ==> Inv(s1))
  }

  lemma AddSyncTargetSelects(s: State, ts: TipSet, s1: State, out: Option<TipSet>)
    requires Inv(s) && s.nextWorker != 0 && AddSyncTarget(s, ts, s1, out)
    ensures Selected(s, s1, out)
  {
    if s1.pend != s.pend {
      InsertKeepsAnchors(s.pend, ts, s.active);
    }
  }

  lemma SelectSyncSelects(s: State, id: nat, ok: bool, fast: bool, s1: State, out: Option<TipSet>)
    requires Inv(s) && id in s.active && SelectSync(Retire(s, id, ok, fast), s.active[id], s1, out)
    ensures Selected(Retire(s, id, ok, fast), s1, out)
  {
    var r, done := Retire(s, id, ok, fast), s.active[id];
    var r1 := r.(pend := Unrelated(r.pend, done));
    RetireKeepsSound(s, id, ok, fast);
    if SelectDeferred(r1, s1, out) {
      SelectDeferredKeeps(r1, s1, out);
    }
  }

  lemma SpawnSelected(s: State, s1: State, out: Option<TipSet>)
    requires Selected(s, s1, out)
    ensures Inv(SpawnIf(s1, out))
  {
    if out.Some? {
      SpawnKeepsSound(s1, out.value);
    }
  }

  lemma PeerHeadKeepsInv(threshold: int, s: State, peer: Peer, ts: TipSet, s': State)
    requires Inv(s) && HandlePeerHead(threshold, s, peer, ts, s')
    ensures Inv(s')
  {
    if s.nextWorker == 0 {
      assert s.active.Keys == {};
      var s1 := s.(heads := map[]);
      if s'.nextWorker != 0 {
        var target :| s' == Spawn(s1, target);
        SpawnKeepsSound(s1, target);
      }
    } else {
      var s1, out :| AddSyncTarget(s, ts, s1, out) && s' == SpawnIf(s1, out);
      AddSyncTargetSelects(s, ts, s1, out);
      SpawnSelected(s, s1, out);
    }
  }

  lemma WorkerStatusKeepsInv(s: State, id: nat, ok: bool, fast: bool, s': State)
    requires Inv(s) && HandleWorkerStatus(s, id, ok, fast, s')
    ensures Inv(s')
  {
    var s1, out :| SelectSync(Retire(s, id, ok, fast), s.active[id], s1, out) && s' == SpawnIf(s1, out);
    SelectSyncSelects(s, id, ok, fast, s1, out);
    SpawnSelected(Retire(s, id, ok, fast), s1, out);
  }

  lemma {:induction false} RampUpKeeps(s: State, s': State)
    requires Sound(s) && s.initialSyncDone && s.rampedUp && RampUp(s, s')
    requires s.deferred != [] ==> s.active != map[]
    ensures Inv(s')
    decreases |s.deferred|
  {
    if |s.active| < MAX_SYNC_WORKERS {
      var s1, out :| SelectDeferred(s, s1, out) &&
        (if out.Some? then RampUp(Spawn(s1, out.value), s') else s' == s1);
      SelectDeferredKeeps(s, s1, out);
      if out.Some? {
        SpawnKeepsSound(s1, out.value);
        RampUpKeeps(Spawn(s1, out.value), s');
      }
    }
  }

  lemma NextKeepsInv(threshold: int, s: State, e: Event, s': State)
    requires Inv(s) && Next(threshold, s, e, s')
    ensures Inv(s')
  {
    match e
    case PeerHead(peer, ts) => PeerHeadKeepsInv(threshold, s, peer, ts, s');
    case Report(id, ok, fast) => WorkerStatusKeepsInv(s, id, ok, fast, s');
    case Tick => if s.initialSyncDone { RampUpKeeps(s.(rampedUp := true), s'); }
  }

  lemma {:induction false} ReachableInv(threshold: int, ss: seq<State>, es: seq<Event>, n: nat)
    requires Run(threshold, ss, es) && n < |ss|
    ensures Inv(ss[n])
  {
    if n > 0 {
      ReachableInv(threshold, ss, es, n - 1);
      assert StepAt(threshold, ss, es, n - 1);
      NextKeepsInv(threshold, ss[n - 1], es[n - 1], ss[n]);
    }
  }

  /** Pending work is never orphaned: each bucket waits for an active worker, and
      without workers nothing is pending. */
  lemma PendingNeverOrphaned(threshold: int, ss: seq<State>, es: seq<Event>, n: nat)
    requires Run(threshold, ss, es) && n < |ss|
    ensures forall b :: b in ss[n].pend ==>
      exists t, id :: t in b && id in ss[n].active && t.parents == ss[n].active[id].key
    ensures ss[n].active == map[] ==> ss[n].pend == []
  {
    var s := ss[n];
    ReachableInv(threshold, ss, es, n);
    forall b | b in s.pend ensures exists t, id :: t in b && id in s.active && t.parents == s.active[id].key {
      var j :| 0 <= j < |s.pend| && s.pend[j] == b;
      assert Anchored(s.pend[j], s.active);
      var k, id :| 0 <= k < |b| && id in s.active && b[k].parents == s.active[id].key;
      assert b[k] in b;
    }
    if s.pend != [] {
      assert Anchored(s.pend[0], s.active);
    }
  }

  /** The worker pool is bounded, and deferred work waits only while a worker runs;
      after the ramp-up tick it waits only while the pool is full. */
  lemma BoundedAndWorkConserving(threshold: int, ss: seq<State>, es: seq<Event>, n: nat)
    requires Run(threshold, ss, es) && n < |ss|
    ensures |ss[n].active| <= MAX_SYNC_WORKERS
    ensures !ss[n].initialSyncDone ==> |ss[n].active| <= 1
    ensures ss[n].deferred != [] ==> ss[n].active != map[]
    ensures ss[n].rampedUp && ss[n].deferred != [] ==> |ss[n].active| == MAX_SYNC_WORKERS
  {
    ReachableInv(threshold, ss, es, n);
  }

  // ---------------------------------------------------------------- no lighter restart

  ghost function Lighter(active: map<nat, TipSet>, w: int): set<nat> {
    set id | id in active && active[id].weight < w
  }

  /** The ring still holds an entry of weight `w` or more, and it cannot be pushed
      out by the lighter workers that are still running. */
  ghost predicate Guards(recent: seq<TipSet>, active: map<nat, TipSet>, w: int) {
    exists k :: 0 <= k < |recent| && recent[k].weight >= w &&
      k + |Lighter(active, w)| <= MAX_SYNC_WORKERS - 1
  }

  ghost predicate Guarded(s: State, w: int) {
    Guards(s.recent, s.active, w)
  }

  lemma GuardBlocksLighter(s: State, w: int, target: TipSet)
    requires Guarded(s, w) && !Synced(s.recent, target)
    ensures target.weight >= w
  {
    var k :| 0 <= k < |s.recent| && s.recent[k].weight >= w;
    assert !s.recent[k].HeavierThan(target);
  }

  lemma SpawnKeepsGuard(s: State, w: int, target: TipSet)
    requires Guarded(s, w) && s.nextWorker !in s.active && target.weight >= w
    ensures Guarded(Spawn(s, target), w)
  {
    assert Lighter(Spawn(s, target).active, w) == Lighter(s.active, w);
  }

  lemma FailureKeepsGuard(s: State, w: int, id: nat, fast: bool)
    requires Guarded(s, w) && id in s.active
    ensures Guarded(Retire(s, id, false, fast), w)
  {
    var k :| 0 <= k < |s.recent| && s.recent[k].weight >= w && k + |Lighter(s.active, w)| <= MAX_SYNC_WORKERS - 1;
    var r := Retire(s, id, false, fast);
    Fewer(Lighter(r.active, w), Lighter(s.active, w));
    assert r.recent[k].weight >= w;
  }

  /** A success at least as heavy as `w` renews the guard, whatever it was before. */
  lemma SuccessSetsGuard(s: State, w: int, id: nat, fast: bool)
    requires Inv(s) && id in s.active && s.active[id].weight >= w
    ensures Guarded(Retire(s, id, true, fast), w)
  {
    var r := Retire(s, id, true, fast);
    assert s.active.Keys == r.active.Keys + {id};
    Fewer(Lighter(r.active, w), r.active.Keys);
    assert r.recent[0] == s.active[id];
  }

  /** A lighter success ages the guarding entry by one but uses up one lighter worker. */
  lemma LighterSuccessKeepsGuard(s: State, w: int, id: nat, fast: bool)
    requires Guarded(s, w) && id in s.active && s.active[id].weight < w && |s.recent| <= RECENT_SYNC_BUFFER_SIZE
    ensures Guarded(Retire(s, id, true, fast), w)
  {
    var k :| 0 <= k < |s.recent| && s.recent[k].weight >= w && k + |Lighter(s.active, w)| <= MAX_SYNC_WORKERS - 1;
    var r := Retire(s, id, true, fast);
    assert Lighter(r.active, w) == Lighter(s.active, w) - {id};
    assert k + 1 < RECENT_SYNC_BUFFER_SIZE;
    assert r.recent[k + 1] == s.recent[k];
  }

  lemma RetireKeepsGuard(s: State, w: int, id: nat, ok: bool, fast: bool)
    requires Inv(s) && Guarded(s, w) && id in s.active
    ensures Guarded(Retire(s, id, ok, fast), w)
  {
    if !ok {
      FailureKeepsGuard(s, w, id, fast);
    } else if s.active[id].weight >= w {
      SuccessSetsGuard(s, w, id, fast);
    } else {
      LighterSuccessKeepsGuard(s, w, id, fast);
    }
  }

  /** Every worker started between the two states works on weight `w` or more. */
  ghost predicate StartsAtLeast(s: State, s': State, w: int) {
    forall id :: id in s'.active ==>
      (id in s.active && s'.active[id] == s.active[id]) || s'.active[id].weight >= w
  }

  lemma StartOne(s: State, s1: State, out: Option<TipSet>, w: int)
    requires Sound(s1) && OnlyBuckets(s, s1) && Guarded(s, w)
    requires out.Some? ==> !Synced(s.recent, out.value)
    ensures Guarded(SpawnIf(s1, out), w) && StartsAtLeast(s, SpawnIf(s1, out), w)
  {
    if out.Some? {
      GuardBlocksLighter(s1, w, out.value);
      SpawnKeepsGuard(s1, w, out.value);
    }
  }

  /** Once the finished worker is retired, a guarded state starts no lighter worker. */
  lemma SelectAfterRetire(s: State, id: nat, ok: bool, fast: bool, s': State, w: int)
    requires Inv(s) && HandleWorkerStatus(s, id, ok, fast, s')
    requires Guarded(Retire(s, id, ok, fast), w)
    ensures Guarded(s', w) && StartsAtLeast(s, s', w)
  {
    var r := Retire(s, id, ok, fast);
    var s1, out :| SelectSync(r, s.active[id], s1, out) && s' == SpawnIf(s1, out);
    SelectSyncSelects(s, id, ok, fast, s1, out);
    StartOne(r, s1, out, w);
  }

  lemma {:induction false} RampUpKeepsGuard(s: State, s': State, w: int)
    requires Sound(s) && s.initialSyncDone && RampUp(s, s') && Guarded(s, w)
    ensures Guarded(s', w) && StartsAtLeast(s, s', w)
    decreases |s.deferred|
  {
    if |s.active| < MAX_SYNC_WORKERS {
      var s1, out :| SelectDeferred(s, s1, out) &&
        (if out.Some? then RampUp(Spawn(s1, out.value), s') else s' == s1);
      SelectDeferredKeeps(s, s1, out);
      StartOne(s, s1, out, w);
      if out.Some? {
        SpawnKeepsSound(s1, out.value);
        RampUpKeepsGuard(Spawn(s1, out.value), s', w);
      }
    }
  }

  lemma NextKeepsGuard(threshold: int, s: State, e: Event, s': State, w: int)
    requires Inv(s) && Guarded(s, w) && Next(threshold, s, e, s')
    ensures Guarded(s', w) && StartsAtLeast(s, s', w)
  {
    match e
    case PeerHead(peer, ts) =>
      var s1, out :| AddSyncTarget(s, ts, s1, out) && s' == SpawnIf(s1, out);
      AddSyncTargetSelects(s, ts, s1, out);
      StartOne(s, s1, out, w);
    case Report(id, ok, fast) =>
      RetireKeepsGuard(s, w, id, ok, fast);
      SelectAfterRetire(s, id, ok, fast, s', w);
    case Tick =>
      if s.initialSyncDone { RampUpKeepsGuard(s.(rampedUp := true), s', w); }
  }

  lemma SuccessStartsNoLighter(threshold: int, s: State, e: Event, s': State)
    requires Inv(s) && Next(threshold, s, e, s') && e.Report? && e.ok
    ensures e.id in s.active
    ensures var w := s.active[e.id].weight; Guarded(s', w) && StartsAtLeast(s, s', w)
  {
    var w := s.active[e.id].weight;
    SuccessSetsGuard(s, w, e.id, e.fast);
    SelectAfterRetire(s, e.id, e.ok, e.fast, s', w);
  }

  lemma {:induction false} GuardPersists(threshold: int, ss: seq<State>, es: seq<Event>, i: nat, j: nat, w: int)
    requires Run(threshold, ss, es) && i <= j < |ss|
    requires Guarded(ss[i], w)
    ensures Guarded(ss[j], w)
  {
    if i < j {
      GuardPersists(threshold, ss, es, i, j - 1, w);
      GuardStep(threshold, ss, es, j - 1, w);
    }
  }

  lemma GuardStep(threshold: int, ss: seq<State>, es: seq<Event>, j: nat, w: int)
    requires Run(threshold, ss, es) && j < |es| && Guarded(ss[j], w)
    ensures Guarded(ss[j + 1], w)
  {
    ReachableInv(threshold, ss, es, j);
    assert StepAt(threshold, ss, es, j);
    NextKeepsGuard(threshold, ss[j], es[j], ss[j + 1], w);
  }

  /** Over every run: once a target has synced, no worker is started on a lighter
      one, in that very step or in any later one, although the ring forgets. */
  lemma NoLighterRestart(threshold: int, ss: seq<State>, es: seq<Event>, i: nat, j: nat)
    requires Run(threshold, ss, es) && i <= j < |es|
    requires es[i].Report? && es[i].ok
    ensures es[i].id in ss[i].active
    ensures forall id :: id in ss[j + 1].active && id !in ss[j].active ==>
      ss[j + 1].active[id].weight >= ss[i].active[es[i].id].weight
  {
    ReachableInv(threshold, ss, es, i);
    assert StepAt(threshold, ss, es, i);
    SuccessStartsNoLighter(threshold, ss[i], es[i], ss[i + 1]);
    if i < j {
      var w := ss[i].active[es[i].id].weight;
      GuardPersists(threshold, ss, es, i + 1, j, w);
      ReachableInv(threshold, ss, es, j);
      assert StepAt(threshold, ss, es, j);
      NextKeepsGuard(threshold, ss[j], es[j], ss[j + 1], w);
    }
  }

  // ---------------------------------------------------------------- hand-over and initial target

  /** The tipset is no lighter than the finished, an active or a remembered target, and not a remembered one. */
  ghost predicate NotBehind(s: State, done: TipSet, t: TipSet) {
    && done.weight <= t.weight
    && (forall id :: id in s.active ==> s.active[id].weight <= t.weight)
    && (forall r :: r in s.recent ==> r.weight <= t.weight && !(r.height == t.height && r.key == t.key))
  }

  lemma MayContinueMeans(s: State, done: TipSet, t: TipSet)
    ensures MayContinue(s, done, t) <==> NotBehind(s, done, t)
  {
    if MayContinue(s, done, t) {
      forall r | r in s.recent ensures r.weight <= t.weight && !(r.height == t.height && r.key == t.key) {
        var i :| 0 <= i < |s.recent| && s.recent[i] == r;
      }
    }
  }

  /** A worker started without taking anything from the deferred set continues the
      finished chain: on a heaviest tipset of all pending buckets related to it, no
      lighter than the finished, an active or a remembered target, and exactly those
      buckets are gone. It is started whenever every such heaviest tipset qualifies. */
  lemma HandOver(s: State, done: TipSet, s': State, out: Option<TipSet>)
    requires NonEmpty(s.pend) && NonEmpty(s.deferred) && SelectSync(s, done, s', out)
    ensures var union := set b, t | b in s.pend && SameChainAs(b, done) && t in b :: t;
      var best := set t | t in union && forall u :: u in union ==> u.weight <= t.weight;
      && (out.Some? && s'.deferred == s.deferred ==>
          && s' == s.(pend := Unrelated(s.pend, done))
          && out.value in best
          && NotBehind(s, done, out.value))
      && (union != {} && (forall t :: t in best ==> NotBehind(s, done, t)) ==>
          out.Some? && s'.deferred == s.deferred)
  {
    RelatedTipsMembers(s.pend, done);
    var union := set b, t | b in s.pend && SameChainAs(b, done) && t in b :: t;
    var related := RelatedTips(s.pend, done);
    assert forall t :: t in related <==> t in union;
    if related != [] {
      HeaviestIsMax(related);
      assert Heaviest(related) in union;
      MayContinueMeans(s, done, Heaviest(related));
    }
  }

  ghost predicate Contains(bs: seq<Bucket>, t: TipSet) {
    exists i :: 0 <= i < |bs| && t in bs[i]
  }

  ghost predicate ContainsEqual(bs: seq<Bucket>, t: TipSet) {
    exists u :: Contains(bs, u) && u.Equals(t)
  }

  lemma InsertMember(bs: seq<Bucket>, ts: TipSet, t: TipSet)
    ensures Contains(Insert(bs, ts), t) ==> t == ts || Contains(bs, t)
    ensures Contains(bs, t) ==> Contains(Insert(bs, ts), t)
  {
    if Contains(bs, t) {
      var i :| 0 <= i < |bs| && t in bs[i];
      assert bs[i] <= Insert(bs, ts)[i];
    }
  }

  lemma InsertedIsMember(bs: seq<Bucket>, ts: TipSet)
    ensures ContainsEqual(Insert(bs, ts), ts)
  {
    var r: seq<Bucket>, k := Insert(bs, ts), FirstRelated(bs, ts);
    var u := if k < |bs| && Holds(bs[k], ts) then var i :| 0 <= i < |bs[k]| && bs[k][i].Equals(ts); bs[k][i] else ts;
    assert u in r[k];
    assert Contains(r, u) && u.Equals(ts);
  }

  lemma {:induction false} InsertAllOnlyHeads(order: seq<TipSet>, t: TipSet)
    requires Contains(InsertAll(order), t)
    ensures t in order
  {
    var n := |order| - 1;
    InsertMember(InsertAll(order[..n]), order[n], t);
    if t != order[n] {
      InsertAllOnlyHeads(order[..n], t);
    }
  }

  lemma {:induction false} InsertAllEveryHead(order: seq<TipSet>, i: nat)
    requires i < |order|
    ensures ContainsEqual(InsertAll(order), order[i])
  {
    var n := |order| - 1;
    var bs := InsertAll(order[..n]);
    if i == n {
      InsertedIsMember(bs, order[n]);
    } else {
      InsertAllEveryHead(order[..n], i);
      var u :| Contains(bs, u) && u.Equals(order[i]);
      InsertMember(bs, order[n], u);
    }
  }

  lemma HeaviestOfAll(bs: seq<Bucket>, u: TipSet)
    requires NonEmpty(bs) && Contains(bs, u)
    ensures HeaviestOf(bs).Some? && Contains(bs, HeaviestOf(bs).value)
    ensures u.weight <= HeaviestOf(bs).value.weight
  {
    var i :| 0 <= i < |bs| && u in bs[i];
    HeaviestIsMax(bs[i]);
    BestIndexIsMax(bs, i);
    HeaviestIsMax(bs[BestIndex(bs)]);
  }

  /** Syncing starts on a heaviest recorded peer head. Tipsets that compare equal are
      the same tipset, identifiers being content hashes. */
  lemma InitialTargetIsHeaviest(heads: map<Peer, TipSet>, target: TipSet)
    requires InitialTarget(heads, target)
    requires forall p, q :: p in heads && q in heads && heads[p].Equals(heads[q]) ==> heads[p] == heads[q]
    ensures heads != map[] ==> exists p :: p in heads && heads[p] == target
    ensures forall p :: p in heads ==> heads[p].weight <= target.weight
  {
    var order: seq<TipSet> :| ChosenFrom(heads, order, target);
    var peers: seq<Peer> :| Recorded(heads, {}, peers, order);
    forall p | p in heads
      ensures heads[p].weight <= target.weight && exists q :: q in heads && heads[q] == target
    {
      var i := HeadIsListed(heads, peers, order, p);
      InsertAllEveryHead(order, i);
      var u :| Contains(InsertAll(order), u) && u.Equals(order[i]);
      InsertAllOnlyHeads(order, u);
      var uPeer := ListedIsHead(heads, peers, order, u);
      HeaviestOfAll(InsertAll(order), u);
      InsertAllOnlyHeads(order, target);
      var targetPeer := ListedIsHead(heads, peers, order, target);
    }
  }

  lemma HeadIsListed(heads: map<Peer, TipSet>, peers: seq<Peer>, order: seq<TipSet>, p: Peer) returns (i: nat)
    requires Recorded(heads, {}, peers, order) && p in heads
    ensures i < |order| && order[i] == heads[p]
  {
    assert p in peers;
    i :| 0 <= i < |peers| && peers[i] == p;
  }

  lemma ListedIsHead(heads: map<Peer, TipSet>, peers: seq<Peer>, order: seq<TipSet>, t: TipSet) returns (p: Peer)
    requires Recorded(heads, {}, peers, order) && t in order
    ensures p in heads && heads[p] == t
  {
    var i :| 0 <= i < |order| && order[i] == t;
    p := peers[i];
  }
}
