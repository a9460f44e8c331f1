/** The sync scheduler as a state machine. Each handler is one atomic step; the
    environment chooses the peer heads, every worker's outcome and duration, and
    the order in which a map of workers is walked. */
module Scheduler {
  import opened Tipsets
  import opened Buckets

  const RECENT_SYNC_BUFFER_SIZE := 10
  const MAX_SYNC_WORKERS := 5

  type Peer = nat

  /** `recent` lists the remembered successes, newest first. `rampedUp` says that
      the ticker has been stopped after its one effective tick. */
  datatype State = State(
    nextWorker: nat,
    heads: map<Peer, TipSet>,
    active: map<nat, TipSet>,
    pend: seq<Bucket>,
    deferred: seq<Bucket>,
    recent: seq<TipSet>,
    initialSyncDone: bool,
    rampedUp: bool)

  const INIT := State(0, map[], map[], [], [], [], false, false)

  datatype Event =
    | PeerHead(peer: Peer, ts: TipSet)
    | Report(id: nat, ok: bool, fast: bool)
    | Tick

  // ---------------------------------------------------------------- helpers

  function Remember(recent: seq<TipSet>, ts: TipSet): (r: seq<TipSet>)
    ensures |r| == if |recent| < RECENT_SYNC_BUFFER_SIZE then |recent| + 1 else RECENT_SYNC_BUFFER_SIZE
    ensures r[0] == ts
    ensures forall k :: 0 < k < |r| ==> r[k] == recent[k - 1]
  {
    if |recent| < RECENT_SYNC_BUFFER_SIZE then [ts] + recent
    else [ts] + recent[..RECENT_SYNC_BUFFER_SIZE - 1]
  }

  predicate Synced(recent: seq<TipSet>, ts: TipSet) {
    exists i :: 0 <= i < |recent| && (recent[i].Equals(ts) || recent[i].HeavierThan(ts))
  }

  function Spawn(s: State, target: TipSet): (s': State) {
    s.(active := s.active[s.nextWorker := target], nextWorker := s.nextWorker + 1)
  }

  function SpawnIf(s: State, target: Option<TipSet>): (s': State) {
    if target.Some? then Spawn(s, target.value) else s
  }

  // ---------------------------------------------------------------- initial target

  predicate SortedByHeight(order: seq<TipSet>) {
    forall i, j :: 0 <= i < j < |order| ==> order[i].height <= order[j].height
  }

  /** `order` lists the heads of `peers`, who are all but the ones still to do. */
  ghost predicate Recorded(heads: map<Peer, TipSet>, todo: set<Peer>, peers: seq<Peer>, order: seq<TipSet>) {
    && |peers| == |order|
    && (forall p :: p in peers <==> p in heads && p !in todo)
    && (forall i, j :: 0 <= i < j < |peers| ==> peers[i] != peers[j])
    && (forall i :: 0 <= i < |peers| ==> peers[i] in heads && heads[peers[i]] == order[i])
  }

  /** `order` lists the recorded head of every peer once. */
  ghost predicate ListsHeads(heads: map<Peer, TipSet>, order: seq<TipSet>) {
    exists peers: seq<Peer> :: Recorded(heads, {}, peers, order)
  }

  function InsertAll(order: seq<TipSet>): (bs: seq<Bucket>)
    ensures NonEmpty(bs)
    ensures order != [] ==> bs != []
  {
    if order == [] then []
    else Insert(InsertAll(order[..|order| - 1]), order[|order| - 1])
  }

  ghost predicate InitialTarget(heads: map<Peer, TipSet>, target: TipSet) {
    exists order: seq<TipSet> :: ChosenFrom(heads, order, target)
  }

  ghost predicate ChosenFrom(heads: map<Peer, TipSet>, order: seq<TipSet>, target: TipSet) {
    ListsHeads(heads, order) && SortedByHeight(order) && HeaviestOf(InsertAll(order)) == Some(target)
  }

  // ---------------------------------------------------------------- target selection

  /** A new peer head, once syncing has started. */
  ghost predicate AddSyncTarget(s: State, ts: TipSet, s': State, out: Option<TipSet>)
    requires NonEmpty(s.pend)
  {
    if Synced(s.recent, ts) then
      s' == s && out == None
    else if s.active == map[] then
      s' == s && out == Some(ts)
    else if exists id :: id in s.active && (ts.Equals(s.active[id]) || ts.parents == s.active[id].key) then
      // the first worker met in map order that is `ts` or its parent decides
      && out == None
      && (|| (s' == s && exists id :: id in s.active && ts.Equals(s.active[id]))
          || (s' == s.(pend := Insert(s.pend, ts)) &&
              exists id :: id in s.active && !ts.Equals(s.active[id]) && ts.parents == s.active[id].key))
    else if RelatedToAny(s.pend, ts) then
      s' == s.(pend := Insert(s.pend, ts)) && out == None
    else if exists id :: id in s.active && s.active[id].HeavierThan(ts) then
      s' == s && out == None
    else if s.pend != [] && HeaviestOf(s.pend).value.HeavierThan(ts) then
      s' == s && out == None
    else if !s.initialSyncDone || |s.active| >= MAX_SYNC_WORKERS then
      s' == s.(deferred := Insert(s.deferred, ts)) && out == None
    else
      s' == s && out == Some(ts)
  }

  datatype Verdict = Skip | Pend | Take

  function VerdictBy(worker: TipSet, target: TipSet): Verdict {
    if worker.Equals(target) || worker.HeavierThan(target) then Skip
    else if target.parents == worker.key then Pend
    else Take
  }

  /** One deferred target: only one active worker is consulted, whichever comes first. */
  ghost predicate Judges(s: State, target: TipSet, v: Verdict) {
    if Synced(s.recent, target) then v == Skip
    else if RelatedToAny(s.pend, target) then v == Pend
    else if s.active == map[] then v == Skip
    else exists id :: id in s.active && v == VerdictBy(s.active[id], target)
  }

  function PopDeferred(s: State): (s': State)
    requires s.deferred != [] && NonEmpty(s.deferred)
    ensures NonEmpty(s'.deferred) && |s'.deferred| == |s.deferred| - 1
  {
    s.(deferred := RemoveAt(s.deferred, BestIndex(s.deferred)))
  }

  ghost predicate SelectDeferred(s: State, s': State, out: Option<TipSet>)
    requires NonEmpty(s.deferred)
    ensures SelectDeferred(s, s', out) ==>
      && |s'.deferred| <= |s.deferred|
      && (out.Some? ==> |s'.deferred| < |s.deferred|)
      && NonEmpty(s'.deferred)
    decreases |s.deferred|
  {
    if s.deferred == [] then s' == s && out == None
    else
      var target := HeaviestOf(s.deferred).value;
      var s1 := PopDeferred(s);
      || (Judges(s1, target, Skip) && SelectDeferred(s1, s', out))
      || (Judges(s1, target, Pend) && SelectDeferred(s1.(pend := Insert(s1.pend, target)), s', out))
      || (Judges(s1, target, Take) && s' == s1 && out == Some(target))
  }

  /** The finished chain may continue on `target`: nothing finished, active or remembered is heavier. */
  ghost predicate MayContinue(s: State, done: TipSet, target: TipSet) {
    && !done.HeavierThan(target)
    && (forall id :: id in s.active ==> !s.active[id].HeavierThan(target))
    && !Synced(s.recent, target)
  }

  ghost predicate SelectSync(s: State, done: TipSet, s': State, out: Option<TipSet>)
    requires NonEmpty(s.deferred)
  {
    var related := RelatedTips(s.pend, done);
    var s1 := s.(pend := Unrelated(s.pend, done));
    if related != [] && MayContinue(s, done, Heaviest(related)) then
      s' == s1 && out == Some(Heaviest(related))
    else
      SelectDeferred(s1, s', out)
  }

  // ---------------------------------------------------------------- handlers

  ghost predicate HandlePeerHead(threshold: int, s: State, peer: Peer, ts: TipSet, s': State)
    requires NonEmpty(s.pend)
  {
    if s.nextWorker == 0 then
      var heads := s.heads[peer := ts];
      if |heads| < threshold then s' == s.(heads := heads)
      else exists target :: InitialTarget(heads, target) && s' == Spawn(s.(heads := map[]), target)
    else
      exists s1, out :: AddSyncTarget(s, ts, s1, out) && s' == SpawnIf(s1, out)
  }

  function Retire(s: State, id: nat, ok: bool, fast: bool): (s': State)
    requires id in s.active
  {
    var s1 := s.(active := s.active - {id});
    if ok then s1.(recent := Remember(s.recent, s.active[id]), initialSyncDone := s.initialSyncDone || fast)
    else s1
  }

  ghost predicate HandleWorkerStatus(s: State, id: nat, ok: bool, fast: bool, s': State)
    requires NonEmpty(s.pend) && NonEmpty(s.deferred)
  {
    && id in s.active
    && exists s1, out :: SelectSync(Retire(s, id, ok, fast), s.active[id], s1, out) && s' == SpawnIf(s1, out)
  }

  /** Spawns workers on deferred targets until the pool is full or nothing is left. */
  ghost predicate RampUp(s: State, s': State)
    requires NonEmpty(s.deferred)
    decreases |s.deferred|
  {
    if |s.active| >= MAX_SYNC_WORKERS then s' == s
    else
      exists s1, out ::
        && SelectDeferred(s, s1, out)
        && (if out.Some? then RampUp(Spawn(s1, out.value), s') else s' == s1)
  }

  ghost predicate HandleTick(s: State, s': State)
    requires NonEmpty(s.deferred)
  {
    && !s.rampedUp
    && (if s.initialSyncDone then RampUp(s.(rampedUp := true), s') else s' == s)
  }

  ghost predicate Next(threshold: int, s: State, e: Event, s': State) {
    && NonEmpty(s.pend) && NonEmpty(s.deferred)
    && match e
       case PeerHead(peer, ts) => HandlePeerHead(threshold, s, peer, ts, s')
       case Report(id, ok, fast) => HandleWorkerStatus(s, id, ok, fast, s')
       case Tick => HandleTick(s, s')
  }

  /** A run: the states passed through and the events between them. */
  ghost predicate Run(threshold: int, ss: seq<State>, es: seq<Event>) {
    && |ss| == |es| + 1
    && ss[0] == INIT
    && forall i :: 0 <= i < |es| ==> StepAt(threshold, ss, es, i)
  }

  ghost predicate StepAt(threshold: int, ss: seq<State>, es: seq<Event>, i: nat)
    requires i < |es| < |ss|
  {
    Next(threshold, ss[i], es[i], ss[i + 1])
  }
}
