/** Finding where a fetched chain joins the local one. The local store maps a tipset
    key to the tipset it loads; the fetched fragment is what the exchange returns. */
module ForkResolution {
  import opened Tipsets

  const FORK_LENGTH_THRESHOLD := 900

  type ChainStore = map<Key, TipSet>

  datatype SyncError =
    | ForkTooLong | ForkCheckpoint | LoadFailed | FetchFailed | BadGenesis | ForkedAtGenesis
    | NotConnected | LinkedToBad | BeaconOrder | BeaconMismatch

  datatype Result<+T> = Ok(value: T) | Err(error: SyncError)

  // ---------------------------------------------------------------- the local chain

  /** Parents are strictly lower than their children, in the store and below `known`. */
  ghost predicate HeightsDrop(store: ChainStore, known: TipSet) {
    && (known.parents in store ==> store[known.parents].height < known.height)
    && (forall k :: k in store && store[k].parents in store ==> store[store[k].parents].height < store[k].height)
  }

  /** The k-th tipset below `known` on the local chain, as far as it can be loaded. */
  ghost function Ancestor(store: ChainStore, known: TipSet, k: nat): Option<TipSet> {
    if k == 0 then Some(known)
    else
      match Ancestor(store, known, k - 1)
      case None => None
      case Some(t) => if t.parents in store then Some(store[t.parents]) else None
  }

  lemma {:induction false} AncestorsInStore(store: ChainStore, known: TipSet, k: nat)
    requires k > 0 && Ancestor(store, known, k).Some?
    ensures exists key :: key in store && store[key] == Ancestor(store, known, k).value
  {
    var t := Ancestor(store, known, k - 1).value;
    assert t.parents in store;
  }

  lemma {:induction false} AncestorsDrop(store: ChainStore, known: TipSet, j: nat, k: nat)
    requires HeightsDrop(store, known) && j < k && Ancestor(store, known, k).Some?
    ensures Ancestor(store, known, j).Some?
    ensures Ancestor(store, known, k).value.height < Ancestor(store, known, j).value.height
  {
    if k > 1 {
      AncestorsInStore(store, known, k - 1);
    }
    if j < k - 1 {
      AncestorsDrop(store, known, j, k - 1);
    }
  }

  // ---------------------------------------------------------------- the fetched chain

  /** What a successful exchange guarantees: a non-empty chain of at most `count`
      tipsets that starts at the requested key and is linked child to parent. */
  ghost predicate Fetched(key: Key, count: nat, tips: seq<TipSet>) {
    && 0 < |tips| <= count
    && CidArrsEqual(tips[0].key, key)
    && forall i :: 0 <= i < |tips| - 1 ==> tips[i].IsChildOf(tips[i + 1])
  }

  lemma {:induction false} FetchedDrop(tips: seq<TipSet>, i: nat, j: nat)
    requires forall i :: 0 <= i < |tips| - 1 ==> tips[i].IsChildOf(tips[i + 1])
    requires i < j < |tips|
    ensures tips[j].height < tips[i].height
  {
    assert tips[j - 1].IsChildOf(tips[j]);
    if i < j - 1 {
      FetchedDrop(tips, i, j - 1);
    }
  }

  // ---------------------------------------------------------------- common tipsets

  /** The i-th fetched tipset is the k-th proper ancestor of `known`. */
  ghost predicate Common(store: ChainStore, known: TipSet, tips: seq<TipSet>, i: nat, k: nat) {
    i < |tips| && 0 < k && Ancestor(store, known, k).Some? && Ancestor(store, known, k).value.Equals(tips[i])
  }

  ghost predicate Highest(store: ChainStore, known: TipSet, tips: seq<TipSet>, i: nat, k: nat) {
    && Common(store, known, tips, i, k)
    && forall i': nat, k': nat :: Common(store, known, tips, i', k') ==> i <= i' && k <= k'
  }

  predicate IsCheckpoint(chkpt: Option<TipSet>, t: TipSet) {
    chkpt.Some? && t.Equals(chkpt.value)
  }

  /** Forking to depth `k` is allowed: within the length limit, above genesis height,
      and abandoning no checkpoint. */
  ghost predicate Allowed(store: ChainStore, known: TipSet, chkpt: Option<TipSet>, k: nat) {
    && k <= FORK_LENGTH_THRESHOLD
    && Ancestor(store, known, k).Some?
    && (forall j :: 0 < j <= k && Ancestor(store, known, j).Some? ==> Ancestor(store, known, j).value.height != 0)
    && (forall j :: 0 <= j < k && Ancestor(store, known, j).Some? ==>
          !IsCheckpoint(chkpt, Ancestor(store, known, j).value))
  }

  /** Nothing shared lies before the two positions of the walk. */
  ghost predicate NothingAbove(store: ChainStore, known: TipSet, tips: seq<TipSet>, cur: nat, depth: nat) {
    forall i: nat, k: nat :: Common(store, known, tips, i, k) ==> cur <= i && depth <= k
  }

  lemma SkipFetched(store: ChainStore, known: TipSet, tips: seq<TipSet>, cur: nat, depth: nat)
    requires HeightsDrop(store, known) && NothingAbove(store, known, tips, cur, depth)
    requires cur < |tips| && Ancestor(store, known, depth).Some?
    requires Ancestor(store, known, depth).value.height < tips[cur].height
    ensures NothingAbove(store, known, tips, cur + 1, depth)
  {
    forall i: nat, k: nat | Common(store, known, tips, i, k) ensures cur + 1 <= i && depth <= k {
      if i == cur && k > depth {
        AncestorsDrop(store, known, depth, k);
      }
    }
  }

  lemma SkipLocal(store: ChainStore, known: TipSet, tips: seq<TipSet>, cur: nat, depth: nat)
    requires NothingAbove(store, known, tips, cur, depth)
    requires forall i :: 0 <= i < |tips| - 1 ==> tips[i].IsChildOf(tips[i + 1])
    requires cur < |tips| && Ancestor(store, known, depth).Some?
    requires Ancestor(store, known, depth).value.height >= tips[cur].height
    requires !Ancestor(store, known, depth).value.Equals(tips[cur])
    ensures NothingAbove(store, known, tips, cur, depth + 1)
  {
    forall i: nat, k: nat | Common(store, known, tips, i, k) ensures cur <= i && depth + 1 <= k {
      if k == depth && i > cur {
        FetchedDrop(tips, cur, i);
      }
    }
  }

  /** How the walk may stop without a link: the reason given is the true one. */
  ghost predicate Justified(store: ChainStore, known: TipSet, chkpt: Option<TipSet>, tips: seq<TipSet>, e: SyncError) {
    match e
    case ForkTooLong => forall i: nat, k: nat :: Common(store, known, tips, i, k) ==> k > FORK_LENGTH_THRESHOLD
    case ForkCheckpoint =>
      exists j :: 0 <= j < FORK_LENGTH_THRESHOLD && Ancestor(store, known, j).Some? &&
        IsCheckpoint(chkpt, Ancestor(store, known, j).value) && NothingAbove(store, known, tips, 0, j + 1)
    case LoadFailed => exists j :: 0 <= j && Ancestor(store, known, j) == None && NothingAbove(store, known, tips, 0, j)
    case BadGenesis => AtGenesis(store, known, tips)
    case ForkedAtGenesis => AtGenesis(store, known, tips)
    case _ => false
  }

  ghost predicate AtGenesis(store: ChainStore, known: TipSet, tips: seq<TipSet>) {
    exists j :: 0 < j && Ancestor(store, known, j).Some? && Ancestor(store, known, j).value.height == 0 &&
      NothingAbove(store, known, tips, 0, j)
  }

  /** A justified refusal rules out every allowed link. */
  lemma RefusalRulesOut(
    store: ChainStore, known: TipSet, chkpt: Option<TipSet>, tips: seq<TipSet>, e: SyncError, i: nat, k: nat)
    requires Justified(store, known, chkpt, tips, e) && Common(store, known, tips, i, k)
    ensures !Allowed(store, known, chkpt, k)
  {
    if e.LoadFailed? {
      var j :| 0 <= j && Ancestor(store, known, j) == None && NothingAbove(store, known, tips, 0, j);
      NoneBelowNone(store, known, j, k);
    }
  }

  lemma {:induction false} NoneBelowNone(store: ChainStore, known: TipSet, j: nat, k: nat)
    requires Ancestor(store, known, j) == None && j <= k
    ensures Ancestor(store, known, k) == None
  {
    if j < k {
      NoneBelowNone(store, known, j, k - 1);
    }
  }

  /** `r` is what a fork search over the fetched tipsets may answer: on success the
      fetched chain down to the highest tipset shared with the proper ancestors of
      `known`, which may be forked to; otherwise a reason that rules every such link out. */
  ghost predicate Resolves(
    store: ChainStore, known: TipSet, chkpt: Option<TipSet>, tips: seq<TipSet>, r: Result<seq<TipSet>>)
  {
    match r
    case Ok(fork) =>
      exists i: nat, k: nat ::
        Highest(store, known, tips, i, k) && Allowed(store, known, chkpt, k) && fork == tips[..i + 1]
    case Err(e) => Justified(store, known, chkpt, tips, e)
  }

  /** Soundness and completeness: the search succeeds exactly when some shared tipset may be forked to. */
  lemma ResolvesIffAllowed(
    store: ChainStore, known: TipSet, chkpt: Option<TipSet>, tips: seq<TipSet>, r: Result<seq<TipSet>>)
    requires Resolves(store, known, chkpt, tips, r)
    ensures r.Ok? <==> exists i: nat, k: nat :: Common(store, known, tips, i, k) && Allowed(store, known, chkpt, k)
  {
    if r.Err? {
      forall i: nat, k: nat | Common(store, known, tips, i, k) ensures !Allowed(store, known, chkpt, k) {
        RefusalRulesOut(store, known, chkpt, tips, r.error, i, k);
      }
    }
  }

  /** A chain that shares only the genesis tipset with the local one is refused. */
  lemma SharedGenesisIsRefused(genesis: TipSet, known: TipSet, chkpt: Option<TipSet>, r: Result<seq<TipSet>>)
    requires genesis.height == 0 && known.parents == genesis.key
    requires Resolves(map[genesis.key := genesis], known, chkpt, [genesis], r)
    ensures Common(map[genesis.key := genesis], known, [genesis], 0, 1) && r.Err?
  {
    var store := map[genesis.key := genesis];
    assert Ancestor(store, known, 0) == Some(known) && Ancestor(store, known, 1) == Some(genesis);
    assert Common(store, known, [genesis], 0, 1);
    ResolvesIffAllowed(store, known, chkpt, [genesis], r);
  }

  // ---------------------------------------------------------------- which error it is

  /** The local tipset at depth `j` is on no fetched chain, and some fetched tipset is not above it. */
  ghost predicate Apart(store: ChainStore, known: TipSet, tips: seq<TipSet>, j: nat)
    requires tips != []
  {
    && Ancestor(store, known, j).Some? && Ancestor(store, known, j).value.height >= tips[|tips| - 1].height
    && forall i: nat :: !Common(store, known, tips, i, j)
  }

  /** The search goes on below depth `j`: the tipset there is loaded, apart, above genesis height, not the
      checkpoint, and the length limit is not reached. */
  ghost predicate Passes(store: ChainStore, known: TipSet, chkpt: Option<TipSet>, tips: seq<TipSet>, j: nat)
    requires tips != []
  {
    && Ancestor(store, known, j).Some? && !IsCheckpoint(chkpt, Ancestor(store, known, j).value)
    && (j > 0 ==>
        Apart(store, known, tips, j) && Ancestor(store, known, j).value.height != 0 && j < FORK_LENGTH_THRESHOLD)
  }

  ghost predicate Arrives(store: ChainStore, known: TipSet, chkpt: Option<TipSet>, tips: seq<TipSet>, k: nat)
    requires tips != []
  {
    forall j :: 0 <= j < k ==> Passes(store, known, chkpt, tips, j)
  }

  /** The search ends at depth `k` of the local chain with the error. */
  ghost predicate StopsAt(
    store: ChainStore, genesis: TipSet, known: TipSet, chkpt: Option<TipSet>, tips: seq<TipSet>, k: nat, e: SyncError)
    requires tips != []
  {
    && Arrives(store, known, chkpt, tips, k)
    && var at := Ancestor(store, known, k);
    match e
    case LoadFailed => at.None?
    case BadGenesis => k > 0 && at.Some? && at.value.height == 0 && !genesis.Equals(at.value)
    case ForkedAtGenesis => k > 0 && at.Some? && at.value.height == 0 && genesis.Equals(at.value)
    case ForkCheckpoint =>
      && at.Some? && IsCheckpoint(chkpt, at.value)
      && (k > 0 ==> at.value.height != 0 && Apart(store, known, tips, k) && k < FORK_LENGTH_THRESHOLD)
    case ForkTooLong =>
      && k > 0 && at.Some? && at.value.height != 0 && (forall i: nat :: !Common(store, known, tips, i, k))
      && (at.value.height < tips[|tips| - 1].height || k == FORK_LENGTH_THRESHOLD)
    case _ => false
  }

  ghost predicate Stops(
    store: ChainStore, genesis: TipSet, known: TipSet, chkpt: Option<TipSet>, tips: seq<TipSet>, e: SyncError)
    requires tips != []
  {
    exists k: nat :: StopsAt(store, genesis, known, chkpt, tips, k, e)
  }

  /** There is one place to stop at and one error to stop with. */
  lemma OneStop(
    store: ChainStore, genesis: TipSet, known: TipSet, chkpt: Option<TipSet>, tips: seq<TipSet>,
    k: nat, e: SyncError, k': nat, e': SyncError)
    requires tips != [] && StopsAt(store, genesis, known, chkpt, tips, k, e)
    requires StopsAt(store, genesis, known, chkpt, tips, k', e')
    ensures k == k' && e == e'
  {
    StopPassesNot(store, genesis, known, chkpt, tips, k, e);
    StopPassesNot(store, genesis, known, chkpt, tips, k', e');
  }

  lemma StopPassesNot(
    store: ChainStore, genesis: TipSet, known: TipSet, chkpt: Option<TipSet>, tips: seq<TipSet>, k: nat, e: SyncError)
    requires tips != [] && StopsAt(store, genesis, known, chkpt, tips, k, e)
    ensures !Passes(store, known, chkpt, tips, k)
  {
  }

  lemma AllowedHere(store: ChainStore, known: TipSet, chkpt: Option<TipSet>, tips: seq<TipSet>, k: nat)
    requires tips != [] && Arrives(store, known, chkpt, tips, k) && 0 < k <= FORK_LENGTH_THRESHOLD
    requires Ancestor(store, known, k).Some? && Ancestor(store, known, k).value.height != 0
    ensures Allowed(store, known, chkpt, k)
  {
    forall j | 0 <= j < k
      ensures j > 0 ==> Ancestor(store, known, j).Some? && Ancestor(store, known, j).value.height != 0
      ensures Ancestor(store, known, j).Some? && !IsCheckpoint(chkpt, Ancestor(store, known, j).value)
    {
      assert Passes(store, known, chkpt, tips, j);
    }
  }

  lemma PassOne(
    store: ChainStore, known: TipSet, chkpt: Option<TipSet>, tips: seq<TipSet>, cur: nat, depth: nat)
    requires cur < |tips| && forall i :: 0 <= i < |tips| - 1 ==> tips[i].IsChildOf(tips[i + 1])
    requires NothingAbove(store, known, tips, cur, depth + 1) && Ancestor(store, known, depth).Some?
    requires Ancestor(store, known, depth).value.height >= tips[cur].height
    ensures Apart(store, known, tips, depth)
  {
    if cur < |tips| - 1 { FetchedDrop(tips, cur, |tips| - 1); }
  }

  /** The two-pointer walk. */
  method SyncFork(
    store: ChainStore, genesis: TipSet, checkpoint: Option<TipSet>, ignoreCheckpoint: bool,
    fetched: Option<seq<TipSet>>, incoming: TipSet, known: TipSet) returns (r: Result<seq<TipSet>>)
    requires HeightsDrop(store, known)
    requires fetched.Some? ==> Fetched(incoming.parents, FORK_LENGTH_THRESHOLD, fetched.value)
    ensures var chkpt := if ignoreCheckpoint then None else checkpoint;
      if fetched.None? then r == Err(if IsCheckpoint(chkpt, known) then ForkCheckpoint else FetchFailed)
      else
        && Resolves(store, known, chkpt, fetched.value, r)
        && (r.Err? ==> Stops(store, genesis, known, chkpt, fetched.value, r.error))
  {
    var chkpt := None;
    if !ignoreCheckpoint {
      chkpt := checkpoint;
      if chkpt.Some? && known.Equals(chkpt.value) {
        assert Ancestor(store, known, 0) == Some(known);
        assert fetched.Some? ==> StopsAt(store, genesis, known, chkpt, fetched.value, 0, ForkCheckpoint);
        return Err(ForkCheckpoint);
      }
    }
    if fetched == None { return Err(FetchFailed); }
    var tips := fetched.value;
    if known.parents !in store {
      assert Ancestor(store, known, 1) == None;
      assert StopsAt(store, genesis, known, chkpt, tips, 1, LoadFailed);
      return Err(LoadFailed);
    }
    var nts := store[known.parents];
    var forkLengthInHead := 1;
    var cur := 0;
    while cur < |tips|
      invariant 1 <= forkLengthInHead <= FORK_LENGTH_THRESHOLD && cur <= |tips|
      invariant Ancestor(store, known, forkLengthInHead) == Some(nts)
      invariant NothingAbove(store, known, tips, cur, forkLengthInHead)
      invariant Arrives(store, known, chkpt, tips, forkLengthInHead)
      invariant cur == |tips| ==> 0 != nts.height < tips[|tips| - 1].height
      decreases FORK_LENGTH_THRESHOLD - forkLengthInHead, |tips| - cur
    {
      if nts.height == 0 {
        assert AtGenesis(store, known, tips);
        r := Err(if !genesis.Equals(nts) then BadGenesis else ForkedAtGenesis);
        assert StopsAt(store, genesis, known, chkpt, tips, forkLengthInHead, r.error);
        return;
      }
      if nts.Equals(tips[cur]) {
        assert Highest(store, known, tips, cur, forkLengthInHead);
        AllowedHere(store, known, chkpt, tips, forkLengthInHead);
        return Ok(tips[..cur + 1]);
      }
      if nts.height < tips[cur].height {
        SkipFetched(store, known, tips, cur, forkLengthInHead);
        cur := cur + 1;
      } else {
        ghost var k := forkLengthInHead;
        SkipLocal(store, known, tips, cur, k);
        PassOne(store, known, chkpt, tips, cur, k);
        forkLengthInHead := forkLengthInHead + 1;
        if forkLengthInHead > FORK_LENGTH_THRESHOLD {
          assert StopsAt(store, genesis, known, chkpt, tips, k, ForkTooLong);
          return Err(ForkTooLong);
        }
        if IsCheckpoint(chkpt, nts) {
          assert StopsAt(store, genesis, known, chkpt, tips, k, ForkCheckpoint);
          return Err(ForkCheckpoint);
        }
        assert Passes(store, known, chkpt, tips, k);
        if nts.parents !in store {
          assert StopsAt(store, genesis, known, chkpt, tips, k + 1, LoadFailed);
          return Err(LoadFailed);
        }
        nts := store[nts.parents];
      }
    }
    assert StopsAt(store, genesis, known, chkpt, tips, forkLengthInHead, ForkTooLong);
    return Err(ForkTooLong);
  }
}
