/** Collecting the headers between a new head and the chain we know, from the local
    store and from peers, while keeping the cache of bad blocks. */
module HeaderCollection {
  import opened Tipsets
  import opened ForkResolution

  const MAX_WINDOW := 500

  // ---------------------------------------------------------------- bad blocks

  datatype Why =
    | LinkedTo(cid: Cid) | ChainContained(cid: Cid) | WrongBeaconOrder | ForkPastFinality | Given(text: string)

  datatype Reason = Reason(why: Why, tipset: seq<Cid>, original: Option<Reason>) {
    /** The reason this one goes back to. */
    function Root(): Reason {
      if original.Some? then original.value else this
    }

    function Linked(why: Why): (r: Reason)
      ensures Shallow(this) ==> Shallow(r)
      ensures r.original == Some(Root())
    {
      Reason(why, [], Some(Root()))
    }
  }

  function NewReason(tipset: seq<Cid>, why: Why): (r: Reason)
    ensures Shallow(r)
  {
    Reason(why, tipset, None)
  }

  /** A reason is a root cause or points straight at one. */
  ghost predicate Shallow(r: Reason) {
    r.original.Some? ==> r.original.value.original.None?
  }

  type BadCache = map<Cid, Reason>

  ghost predicate AllShallow(bad: BadCache) {
    forall c :: c in bad ==> Shallow(bad[c])
  }

  ghost function Mark(bad: BadCache, cs: seq<Cid>, r: Reason): BadCache {
    bad + map c | c in cs :: r
  }

  lemma MarkOne(bad: BadCache, cs: seq<Cid>, i: nat, r: Reason)
    requires i < |cs|
    ensures Mark(bad, cs[..i + 1], r) == Mark(bad, cs[..i], r)[cs[i] := r]
  {
    assert cs[..i + 1] == cs[..i] + [cs[i]];
  }

  // ---------------------------------------------------------------- chains

  ghost predicate Chained(ts: seq<TipSet>) {
    forall i :: 0 <= i < |ts| - 1 ==> ts[i].IsChildOf(ts[i + 1])
  }

  ghost predicate Clean(bad: BadCache, t: TipSet) {
    forall c :: c in t.key ==> c !in bad
  }

  ghost predicate NoDuplicates(key: Key) {
    forall i, j :: 0 <= i < j < |key| ==> key[i] != key[j]
  }

  /** What an identifier stands for, being the hash of its block. */
  datatype Header = Header(height: int, parents: Key)

  /** The blocks of a tipset share one height, above that of their parents, and one list of parents. */
  ghost predicate WellFormed(headerOf: Cid -> Header, t: TipSet) {
    && t.key != []
    && (forall c :: c in t.key ==> headerOf(c) == Header(t.height, t.parents))
    && (forall p :: p in t.parents ==> headerOf(p).height < t.height)
  }

  /** Loading a key yields a tipset of just those blocks, perhaps reordered. */
  ghost predicate StoreOk(headerOf: Cid -> Header, store: ChainStore) {
    forall k :: k in store ==> WellFormed(headerOf, store[k]) && multiset(store[k].key) == multiset(k)
  }

  ghost predicate ExchangeOk(headerOf: Cid -> Header, fetch: Fetch) {
    forall k: Key, n: nat :: fetch(k, n).Some? ==>
      Fetched(k, n, fetch(k, n).value) && forall t :: t in fetch(k, n).value ==> WellFormed(headerOf, t)
  }

  lemma LoadedIsParent(headerOf: Cid -> Header, store: ChainStore, t: TipSet)
    requires StoreOk(headerOf, store) && WellFormed(headerOf, t) && t.parents in store
    ensures t.IsChildOf(store[t.parents])
    ensures forall c :: c in t.parents <==> c in store[t.parents].key
  {
    var p := store[t.parents];
    SameElements(p.key, t.parents);
    assert p.key[0] in p.key;
  }

  lemma SameElements(a: Key, b: Key)
    requires multiset(a) == multiset(b)
    ensures |a| == |b| && forall c :: c in a <==> c in b
  {
    assert |multiset(a)| == |a| && |multiset(b)| == |b|;
    assert forall c :: c in a <==> c in multiset(a);
    assert forall c :: c in b <==> c in multiset(b);
  }

  /** For a key of distinct blocks the order-ignoring comparison works both ways. */
  lemma {:induction false} SubsetIsAll(a: Key, b: Key)
    requires CidArrsEqual(a, b) && NoDuplicates(b)
    ensures CidArrsEqual(b, a)
  {
    var sa, sb := set c | c in a, set c | c in b;
    CountDistinct(b);
    CountAtMost(a);
    if exists c :: c in a && c !in b {
      var c :| c in a && c !in b;
      assert sb <= sa - {c};
      Fewer(sb, sa - {c});
    }
  }

  lemma {:induction false} CountAtMost(a: Key)
    ensures |set c | c in a| <= |a|
  {
    if a != [] {
      var n := |a| - 1;
      CountAtMost(a[..n]);
      assert (set c | c in a) == (set c | c in a[..n]) + {a[n]};
    }
  }

  lemma {:induction false} CountDistinct(a: Key)
    requires NoDuplicates(a)
    ensures |set c | c in a| == |a|
  {
    if a != [] {
      var n := |a| - 1;
      CountDistinct(a[..n]);
      assert (set c | c in a) == (set c | c in a[..n]) + {a[n]};
    }
  }

  /** A fragment fetched for the parents of `base` is linked in itself, and continues the chain below
      `base` exactly when its first tipset holds parents of it only, as it does if none is listed twice. */
  lemma FetchedContinues(headerOf: Cid -> Header, base: TipSet, tips: seq<TipSet>, count: nat, n: nat)
    requires Fetched(base.parents, count, tips) && WellFormed(headerOf, base) && WellFormed(headerOf, tips[0])
    requires 0 < n <= |tips|
    ensures Chained(tips[..n])
    ensures base.IsChildOf(tips[0]) <==> forall c :: c in tips[0].key ==> c in base.parents
    ensures NoDuplicates(base.parents) ==> base.IsChildOf(tips[0])
  {
    assert base.parents[0] in base.parents;
    if NoDuplicates(base.parents) { SubsetIsAll(tips[0].key, base.parents); }
  }

  /** Two linked lists make one exactly when the first hangs on the second. */
  lemma JoinChains(a: seq<TipSet>, b: seq<TipSet>)
    requires Chained(a) && Chained(b) && a != [] && b != []
    ensures Chained(a + b) <==> a[|a| - 1].IsChildOf(b[0])
  {
    var ab := a + b;
    assert ab[|a| - 1] == a[|a| - 1] && ab[|a|] == b[0];
    forall i | 0 <= i < |ab| - 1 && i != |a| - 1 ensures ab[i].IsChildOf(ab[i + 1]) {
      if i < |a| - 1 {
        assert a[i].IsChildOf(a[i + 1]);
      } else {
        assert b[i - |a|].IsChildOf(b[i - |a| + 1]);
      }
    }
  }

  /** Both parts of a joined list are linked, and so is the whole unless the fork's first tipset holds a
      block that is no parent of the part above; that takes a parent listed twice. */
  ghost predicate LinkedParts(list: seq<TipSet>, m: nat)
    requires 0 < m <= |list|
  {
    && Chained(list[..m]) && Chained(list[m..])
    && (Chained(list) <==> m == |list| || list[m - 1].IsChildOf(list[m]))
    && (NoDuplicates(list[m - 1].parents) ==> Chained(list))
  }

  lemma StoreHeightsDrop(headerOf: Cid -> Header, store: ChainStore, known: TipSet)
    requires StoreOk(headerOf, store) && WellFormed(headerOf, known)
    ensures HeightsDrop(store, known)
  {
    if known.parents in store {
      LoadedIsParent(headerOf, store, known);
    }
    forall k | k in store && store[k].parents in store ensures store[store[k].parents].height < store[k].height {
      LoadedIsParent(headerOf, store, store[k]);
    }
  }

  // ---------------------------------------------------------------- blame

  /** A path of blocks, each a parent of the one before it. */
  ghost predicate Lineage(headerOf: Cid -> Header, path: seq<Cid>) {
    forall i :: 0 <= i < |path| - 1 ==> path[i + 1] in headerOf(path[i]).parents
  }

  /** The block has `culprit` among its proper ancestors. */
  ghost predicate Descends(headerOf: Cid -> Header, c: Cid, culprit: Cid) {
    exists path: seq<Cid> ::
      |path| > 1 && path[0] == c && path[|path| - 1] == culprit && Lineage(headerOf, path)
  }

  /** Every block of a linked list descends from every parent of its last tipset. */
  lemma {:induction false} SuffixDescends(headerOf: Cid -> Header, ts: seq<TipSet>, i: nat, c: Cid, culprit: Cid)
    requires Chained(ts) && forall j :: 0 <= j < |ts| ==> WellFormed(headerOf, ts[j])
    requires i < |ts| && c in ts[i].key && culprit in ts[|ts| - 1].parents
    ensures Descends(headerOf, c, culprit)
    decreases |ts| - i
  {
    if i == |ts| - 1 {
      assert Lineage(headerOf, [c, culprit]);
    } else {
      var next := ts[i + 1].key[0];
      assert ts[i].IsChildOf(ts[i + 1]);
      SuffixDescends(headerOf, ts, i + 1, next, culprit);
      var path :| |path| > 1 && path[0] == next && path[|path| - 1] == culprit && Lineage(headerOf, path);
      assert Lineage(headerOf, [c] + path);
    }
  }

  /** A linked mark rests on an already bad block below it and points at that block's root cause. */
  ghost predicate Blamed(headerOf: Cid -> Header, bad: BadCache, c: Cid, r: Reason) {
    exists culprit :: culprit in bad && Descends(headerOf, c, culprit) && r.original == Some(bad[culprit].Root())
  }

  /** How a failed collection may have changed the cache. */
  ghost predicate FairMarks(headerOf: Cid -> Header, before: BadCache, after: BadCache, incoming: TipSet) {
    && before.Keys <= after.Keys
    && forall c :: c in after && (c in before ==> after[c] != before[c]) ==>
         if after[c].original.Some? then Blamed(headerOf, before, c, after[c]) else c in incoming.key
  }

  lemma MarkedFairly(
    headerOf: Cid -> Header, bad: BadCache, cs: seq<Cid>, culprit: Cid, why: Why, incoming: TipSet)
    requires culprit in bad && AllShallow(bad)
    requires forall c :: c in cs ==> Descends(headerOf, c, culprit)
    ensures FairMarks(headerOf, bad, Mark(bad, cs, bad[culprit].Linked(why)), incoming)
    ensures AllShallow(Mark(bad, cs, bad[culprit].Linked(why)))
  {
  }

  // ---------------------------------------------------------------- results

  /** How the collected list joins the local chain; `m` tipsets came from the walk. */
  ghost predicate Joins(
    store: ChainStore, known: TipSet, chkpt: Option<TipSet>,
    fetch: Fetch, list: seq<TipSet>, m: nat)
  {
    && 0 < m <= |list|
    && var base := list[m - 1];
       || (m == |list| && base.IsChildOf(known))
       || (m == |list| && known.parents in store && base.IsChildOf(store[known.parents]))
       || (var tips := fetch(base.parents, FORK_LENGTH_THRESHOLD);
           tips.Some? && Resolves(store, known, chkpt, tips.value, Ok(list[m..])))
  }

  /** `t` is the k-th proper ancestor of `known`, within the fork limit, above genesis
      height, and no tipset from `known` down to just above it is the checkpoint. */
  ghost predicate ForkPoint(store: ChainStore, known: TipSet, chkpt: Option<TipSet>, t: TipSet, k: nat) {
    && 0 < k <= FORK_LENGTH_THRESHOLD && t.height != 0
    && Ancestor(store, known, k).Some? && Ancestor(store, known, k).value.Equals(t)
    && forall j :: 0 <= j < k ==>
         Ancestor(store, known, j).Some? && !IsCheckpoint(chkpt, Ancestor(store, known, j).value)
  }

  /** The bottom of a joined list is a child of `known`, a sibling of it, or a fork point
      that abandons no checkpoint. */
  lemma BottomIsLocal(
    store: ChainStore, known: TipSet, chkpt: Option<TipSet>,
    fetch: Fetch, list: seq<TipSet>, m: nat)
    requires Joins(store, known, chkpt, fetch, list, m)
    ensures var bottom := list[|list| - 1];
      || bottom.IsChildOf(known)
      || (known.parents in store && bottom.IsChildOf(store[known.parents]))
      || exists k: nat :: ForkPoint(store, known, chkpt, bottom, k)
  {
    var base, bottom := list[m - 1], list[|list| - 1];
    if !(m == |list| && (base.IsChildOf(known) || (known.parents in store && base.IsChildOf(store[known.parents])))) {
      var tips := fetch(base.parents, FORK_LENGTH_THRESHOLD).value;
      var i: nat, k: nat :|
        Highest(store, known, tips, i, k) && Allowed(store, known, chkpt, k) && list[m..] == tips[..i + 1];
      assert |list[m..]| == i + 1 && list[m..][i] == tips[i];
      assert |list| - 1 == m + i && bottom.height != 0;
      forall j | 0 <= j < k
        ensures Ancestor(store, known, j).Some? && !IsCheckpoint(chkpt, Ancestor(store, known, j).value)
      {
        if Ancestor(store, known, j).None? {
          NoneBelowNone(store, known, j, k);
        }
      }
      assert ForkPoint(store, known, chkpt, bottom, k);
    }
  }

  /** Peers that know one tipset and answer with it whenever its blocks are asked for. */
  function OnlyKnows(t: TipSet): Fetch {
    (k: Key, n: nat) => if n > 0 && CidArrsEqual(t.key, k) then Some([t]) else None
  }

  /** A parent listed twice: the fetched fork may be taken although the list does not hang on it. */
  lemma RepeatedParentBreaksLink(a: Cid, b: Cid, c: Cid, d: Cid, height: int)
    requires a != b && height > 0
    ensures var shared, known := TipSet([a, b], [], height, 0), TipSet([c], [a, b], height + 1, 1);
      var base := TipSet([d], [a, a], height + 1, 1);
      var store: ChainStore := map[[a, b] := shared];
      && OnlyKnows(shared)(base.parents, FORK_LENGTH_THRESHOLD) == Some([shared])
      && Fetched(base.parents, FORK_LENGTH_THRESHOLD, [shared])
      && Common(store, known, [shared], 0, 1) && Allowed(store, known, None, 1)
      && Joins(store, known, None, OnlyKnows(shared), [base, shared], 1) && !Chained([base, shared])
  {
    var shared, known := TipSet([a, b], [], height, 0), TipSet([c], [a, b], height + 1, 1);
    var base, list := TipSet([d], [a, a], height + 1, 1), [TipSet([d], [a, a], height + 1, 1), shared];
    var store: ChainStore := map[[a, b] := shared];
    assert a in shared.key && b in shared.key && b !in base.parents;
    assert list[1..] == [shared] == [shared][..1] && !list[0].IsChildOf(list[1]);
    assert Ancestor(store, known, 0) == Some(known) && Ancestor(store, known, 1) == Some(shared);
    assert Common(store, known, [shared], 0, 1) && Highest(store, known, [shared], 0, 1);
    assert Allowed(store, known, None, 1);
    assert Resolves(store, known, None, [shared], Ok(list[1..]));
    assert CidArrsEqual(shared.key, base.parents);
  }

  /** The local tipset at depth `k` is the bottom of the list or the tipset below it. */
  ghost predicate Touches(store: ChainStore, known: TipSet, bottom: TipSet, k: nat) {
    && Ancestor(store, known, k).Some?
    && (bottom.Equals(Ancestor(store, known, k).value) || bottom.IsChildOf(Ancestor(store, known, k).value))
  }

  /** The local tipset at depth `j` is left behind: the list touches the local chain only below it. */
  ghost predicate LeftBehind(store: ChainStore, known: TipSet, bottom: TipSet, j: nat) {
    Ancestor(store, known, j).Some? && forall k: nat :: k <= j ==> !Touches(store, known, bottom, k)
  }

  /** Following the list gives up the checkpoint. */
  ghost predicate GivesUp(store: ChainStore, known: TipSet, chkpt: Option<TipSet>, bottom: TipSet) {
    exists j: nat ::
      LeftBehind(store, known, bottom, j) && IsCheckpoint(chkpt, Ancestor(store, known, j).value)
  }

  /** The list hangs beside the head, on its parent. */
  predicate BesideHead(store: ChainStore, known: TipSet, bottom: TipSet) {
    && !bottom.Equals(known) && !bottom.IsChildOf(known)
    && known.parents in store && bottom.IsChildOf(store[known.parents])
  }

  ghost predicate GivesUpOnlyBeside(store: ChainStore, known: TipSet, chkpt: Option<TipSet>, bottom: TipSet) {
    GivesUp(store, known, chkpt, bottom) <==> IsCheckpoint(chkpt, known) && BesideHead(store, known, bottom)
  }

  /** A collected list gives up the checkpoint exactly when the head is the checkpoint and the
      list hangs beside it; a fork below the head never does. */
  lemma GivesUpIff(
    store: ChainStore, known: TipSet, chkpt: Option<TipSet>,
    fetch: Fetch, list: seq<TipSet>, m: nat)
    requires Joins(store, known, chkpt, fetch, list, m)
    ensures GivesUpOnlyBeside(store, known, chkpt, list[|list| - 1])
  {
    var base, bottom := list[m - 1], list[|list| - 1];
    if m == |list| && base.IsChildOf(known) {
      assert Touches(store, known, bottom, 0);
    } else if m == |list| && known.parents in store && base.IsChildOf(store[known.parents]) {
      assert Ancestor(store, known, 0) == Some(known) && Touches(store, known, bottom, 1);
      assert Touches(store, known, bottom, 0) <==> bottom.Equals(known) || bottom.IsChildOf(known);
      assert BesideHead(store, known, bottom) ==> LeftBehind(store, known, bottom, 0);
    } else {
      var tips := fetch(base.parents, FORK_LENGTH_THRESHOLD).value;
      var i: nat, k: nat :|
        Highest(store, known, tips, i, k) && Allowed(store, known, chkpt, k) && list[m..] == tips[..i + 1];
      assert |list[m..]| == i + 1 && list[m..][i] == tips[i] && |list| - 1 == m + i;
      assert Touches(store, known, bottom, k) && Ancestor(store, known, 0) == Some(known);
    }
  }

  /** The smallest case: the head is the checkpoint and the list is one tipset beside it. */
  lemma SiblingGivesUpCheckpoint(fetch: Fetch, parent: TipSet, known: TipSet, sibling: TipSet)
    requires known.parents == sibling.parents == parent.key && known.key != sibling.key
    requires known.height == sibling.height > parent.height
    ensures var store := map[parent.key := parent];
      && Joins(store, known, Some(known), fetch, [sibling], 1)
      && GivesUp(store, known, Some(known), sibling)
  {
    var store := map[parent.key := parent];
    assert [sibling][|[sibling]| - 1] == sibling;
    GivesUpIff(store, known, Some(known), fetch, [sibling], 1);
  }

  /** A parent block of the last tipset is below the height limit. */
  ghost predicate EndsBelow(headerOf: Cid -> Header, list: seq<TipSet>, until: int) {
    list != [] && exists p :: p in list[|list| - 1].parents && headerOf(p).height < until
  }

  ghost predicate AllAbove(list: seq<TipSet>, until: int) {
    forall i :: 0 <= i < |list| - 1 ==> list[i].height > until
  }

  lemma StaysAbove(list: seq<TipSet>, out: seq<TipSet>, until: int)
    requires list != [] && list <= out && Chained(out) && AllAbove(list, until)
    requires list[|list| - 1].height > until && forall j :: |list| <= j < |out| ==> out[j].height >= until
    ensures AllAbove(out, until)
  {
    forall i | 0 <= i < |out| - 1 ensures out[i].height > until {
      assert i < |list| ==> out[i] == list[i];
      assert out[i].IsChildOf(out[i + 1]);
    }
  }

  /** The walk went down to the height limit and no further. */
  ghost predicate Spans(headerOf: Cid -> Header, list: seq<TipSet>, until: int) {
    list != [] && AllAbove(list, until) && (list[|list| - 1].height <= until || EndsBelow(headerOf, list, until))
  }

  /** Every accepted block lies in a gathered tipset. */
  ghost predicate Accepted(cs: seq<Cid>, list: seq<TipSet>) {
    forall c :: c in cs ==> exists i :: 0 <= i < |list| && c in list[i].key
  }

  lemma AcceptMore(cs: seq<Cid>, list: seq<TipSet>, at: Key, list': seq<TipSet>)
    requires Accepted(cs, list) && list <= list'
    requires forall c :: c in at ==> |list| < |list'| && c in list'[|list|].key
    ensures Accepted(cs + at, list')
  {
    forall c | c in cs + at ensures exists i :: 0 <= i < |list'| && c in list'[i].key {
      if c in cs {
        var i :| 0 <= i < |list| && c in list[i].key;
        assert list'[i] == list[i];
      }
    }
  }

  /** What the walk gathers: linked headers under `incoming`, none of them known to be bad. */
  ghost predicate Gathered(bad: BadCache, headerOf: Cid -> Header, list: seq<TipSet>, incoming: TipSet) {
    && list != [] && list[0] == incoming && Chained(list)
    && (forall i :: 0 <= i < |list| ==> WellFormed(headerOf, list[i]))
    && (forall i :: 0 < i < |list| ==> Clean(bad, list[i]))
  }

  lemma GatherMore(bad: BadCache, headerOf: Cid -> Header, list: seq<TipSet>, tips: seq<TipSet>, incoming: TipSet)
    requires Gathered(bad, headerOf, list, incoming) && Chained(list + tips)
    requires forall i :: 0 <= i < |tips| ==> WellFormed(headerOf, tips[i]) && Clean(bad, tips[i])
    ensures Gathered(bad, headerOf, list + tips, incoming)
  {
    var all := list + tips;
    assert forall i :: 0 <= i < |all| ==> all[i] == if i < |list| then list[i] else tips[i - |list|];
  }

  /** What a turn that does not fail leaves: the list is longer, and lower unless the walk ends there. */
  ghost predicate TurnOk(
    bad: BadCache, headerOf: Cid -> Header, incoming: TipSet,
    list: seq<TipSet>, cs: seq<Cid>, until: int, out: seq<TipSet>, stop: bool)
    requires list != []
  {
    && Gathered(bad, headerOf, out, incoming) && AllAbove(out, until)
    && (stop ==> EndsBelow(headerOf, out, until))
    && (!stop ==>
        out[|out| - 1].height < list[|list| - 1].height && Accepted(cs + list[|list| - 1].parents, out))
  }

  datatype BeaconEntry = BeaconEntry(round: nat, data: seq<nat>)

  // ---------------------------------------------------------------- when a collection succeeds

  /** A collected list: its first `m` tipsets are gathered from `incoming` down to the height limit or onto
      the head, the rest is a fork, both are linked, and the bottom joins the local chain, which gives
      a checkpoint up only beside the head. */
  ghost predicate Collected(
    bad: BadCache, store: ChainStore, known: TipSet, chkpt: Option<TipSet>, fetch: Fetch, headerOf: Cid -> Header,
    incoming: TipSet, list: seq<TipSet>, m: nat)
  {
    && 0 < m <= |list| && Gathered(bad, headerOf, list[..m], incoming)
    && (list[m - 1].IsChildOf(known) || Spans(headerOf, list[..m], known.height + 1))
    && LinkedParts(list, m) && Joins(store, known, chkpt, fetch, list, m)
    && GivesUpOnlyBeside(store, known, chkpt, list[|list| - 1])
  }

  ghost predicate HasBad(bad: BadCache, key: Key) {
    exists c :: c in key && c in bad
  }

  type Fetch = (Key, nat) -> Option<seq<TipSet>>

  /** The tipsets that one turn of the walk adds, and whether it ends there. */
  datatype Segment = Segment(tips: seq<TipSet>, stop: bool)

  /** How many tipsets from the front are clean and not below the height limit. */
  ghost function Usable(bad: BadCache, blks: seq<TipSet>, until: int): (k: nat)
    ensures k <= |blks|
  {
    if blks == [] || !Fine(bad, blks[0], until) then 0 else 1 + Usable(bad, blks[1..], until)
  }

  ghost predicate Fine(bad: BadCache, t: TipSet, until: int) {
    t.height >= until && Clean(bad, t)
  }

  lemma {:induction false} UsableIs(bad: BadCache, blks: seq<TipSet>, until: int, k: nat)
    requires k <= |blks| && (forall i :: 0 <= i < k ==> Fine(bad, blks[i], until))
    requires k < |blks| ==> !Fine(bad, blks[k], until)
    ensures Usable(bad, blks, until) == k
  {
    if k > 0 { UsableIs(bad, blks[1..], until, k - 1); }
  }

  /** As many tipsets as are missing, and no more than one request may ask for. */
  function Window(gap: nat): (n: nat)
    ensures n <= gap && n <= MAX_WINDOW && (n == gap || n == MAX_WINDOW)
  {
    if gap < MAX_WINDOW then gap else MAX_WINDOW
  }

  /** What the peers' answer adds below `last`. */
  ghost function Answered(bad: BadCache, fetch: Fetch, last: TipSet, until: int): Result<Segment>
    requires last.height > until
  {
    match fetch(last.parents, Window(last.height - until))
    case None => Err(FetchFailed)
    case Some(blks) =>
      if blks == [] || !last.IsChildOf(blks[0]) then Err(NotConnected) else Digested(bad, blks, until)
  }

  /** What is taken of an answer that links. */
  ghost function Digested(bad: BadCache, blks: seq<TipSet>, until: int): Result<Segment> {
    var k := Usable(bad, blks, until);
    if k == |blks| then Ok(Segment(blks, false))
    else if blks[k].height < until then Ok(Segment(blks[..k], true))
    else Err(LinkedToBad)
  }

  /** The segment is appended, or its error given. */
  ghost predicate Adds(
    next: Result<Segment>, list: seq<TipSet>, out: seq<TipSet>, stop: bool, err: Option<SyncError>)
  {
    match err
    case Some(e) => next == Err(e)
    case None => next.Ok? && out == list + next.value.tips && stop == next.value.stop
  }

  /** One turn below `last`: bad parents end it, stored parents are taken, others are asked for. */
  ghost function Turn(bad: BadCache, store: ChainStore, fetch: Fetch, last: TipSet, until: int): Result<Segment>
    requires last.height > until
  {
    if HasBad(bad, last.parents) then Err(LinkedToBad)
    else if last.parents in store then Ok(Segment([store[last.parents]], false))
    else Answered(bad, fetch, last, until)
  }

  /** The walk from `list` on. Heights drop along it, so the last case never arises. */
  ghost function Walk(
    bad: BadCache, store: ChainStore, fetch: Fetch, list: seq<TipSet>, until: int): Result<seq<TipSet>>
    requires list != []
    decreases if list[|list| - 1].height > until then list[|list| - 1].height - until else 0
  {
    var last := list[|list| - 1];
    if last.height <= until then Ok(list)
    else
      match Turn(bad, store, fetch, last, until)
      case Err(e) => Err(e)
      case Ok(seg) =>
        var out := list + seg.tips;
        if seg.stop then Ok(out)
        else if out[|out| - 1].height < last.height then Walk(bad, store, fetch, out, until)
        else Err(NotConnected)
  }

  lemma {:induction false} WalkErrors(
    bad: BadCache, store: ChainStore, fetch: Fetch, list: seq<TipSet>, until: int)
    requires list != []
    ensures var r := Walk(bad, store, fetch, list, until);
      r.Ok? || r.error == LinkedToBad || r.error == FetchFailed || r.error == NotConnected
    decreases if list[|list| - 1].height > until then list[|list| - 1].height - until else 0
  {
    var last := list[|list| - 1];
    if last.height > until && Turn(bad, store, fetch, last, until).Ok? {
      var out := list + Turn(bad, store, fetch, last, until).value.tips;
      if out[|out| - 1].height < last.height { WalkErrors(bad, store, fetch, out, until); }
    }
  }

  /** The walked list without the head itself at its bottom. */
  function Trimmed(list: seq<TipSet>, known: TipSet): seq<TipSet>
    requires list != []
  {
    if list[|list| - 1].Equals(known) then list[..|list| - 1] else list
  }

  predicate Ordered(entries: seq<BeaconEntry>) {
    forall i :: 0 < i < |entries| ==> entries[i - 1].round <= entries[i].round
  }

  /** What is wrong with the beacon entries of the blocks, if anything. */
  function BeaconFault(beacons: seq<seq<BeaconEntry>>): Option<SyncError>
    requires beacons != []
  {
    if !Ordered(beacons[0]) then Some(BeaconOrder)
    else if forall b :: 0 < b < |beacons| ==> beacons[b] == beacons[0] then None
    else Some(BeaconMismatch)
  }

  /** The rounds never fall from an entry to a later one. */
  ghost predicate Ascending(entries: seq<BeaconEntry>) {
    forall i, j :: 0 <= i < j < |entries| ==> entries[i].round <= entries[j].round
  }

  /** Entries are in order exactly when the rounds ascend in the first block, and beyond reproach exactly when all
      blocks carry the same ones. */
  lemma BeaconFaultMeans(beacons: seq<seq<BeaconEntry>>)
    requires beacons != []
    ensures BeaconFault(beacons) == Some(BeaconOrder) <==> !Ascending(beacons[0])
    ensures BeaconFault(beacons).None? <==> Ascending(beacons[0]) && forall b :: b in beacons ==> b == beacons[0]
    ensures BeaconFault(beacons) == Some(BeaconMismatch) <==>
      Ascending(beacons[0]) && exists b :: b in beacons && b != beacons[0]
  {
    assert forall b :: 0 <= b < |beacons| ==> beacons[b] in beacons;
    assert (forall b :: b in beacons ==> b == beacons[0]) <==>
      forall b :: 0 < b < |beacons| ==> beacons[b] == beacons[0];
    if Ordered(beacons[0]) {
      forall i, j | 0 <= i < j < |beacons[0]| ensures beacons[0][i].round <= beacons[0][j].round {
        OrderedAscends(beacons[0], i, j);
      }
    } else {
      var i :| 0 < i < |beacons[0]| && beacons[0][i - 1].round > beacons[0][i].round;
    }
  }

  lemma {:induction false} OrderedAscends(entries: seq<BeaconEntry>, i: nat, j: nat)
    requires Ordered(entries) && i < j < |entries|
    ensures entries[i].round <= entries[j].round
  {
    if i < j - 1 { OrderedAscends(entries, i, j - 1); }
  }

  /** What joining the gathered headers to the local chain yields. */
  ghost predicate JoinsAs(
    store: ChainStore, genesis: TipSet, known: TipSet, chkpt: Option<TipSet>, fetch: Fetch,
    gathered: seq<TipSet>, r: Result<seq<TipSet>>)
    requires gathered != []
  {
    var base := gathered[|gathered| - 1];
    if base.IsChildOf(known) then r == Ok(gathered)
    else if known.parents !in store then r == Err(LoadFailed)
    else if base.IsChildOf(store[known.parents]) then r == Ok(gathered)
    else ForksAs(store, genesis, known, chkpt, fetch, gathered, r)
  }

  /** What asking for a fork below the gathered headers and joining it yields. */
  ghost predicate ForksAs(
    store: ChainStore, genesis: TipSet, known: TipSet, chkpt: Option<TipSet>, fetch: Fetch,
    gathered: seq<TipSet>, r: Result<seq<TipSet>>)
    requires gathered != []
  {
    match fetch(gathered[|gathered| - 1].parents, FORK_LENGTH_THRESHOLD)
    case None => r == Err(if IsCheckpoint(chkpt, known) then ForkCheckpoint else FetchFailed)
    case Some(tips) =>
      if r.Ok? then gathered <= r.value && Resolves(store, known, chkpt, tips, Ok(r.value[|gathered|..]))
      else Resolves(store, known, chkpt, tips, r) && tips != [] && Stops(store, genesis, known, chkpt, tips, r.error)
  }

  /** What walking down from `incoming` and joining what that gathers yields. */
  ghost predicate WalksAs(
    bad: BadCache, store: ChainStore, genesis: TipSet, known: TipSet, chkpt: Option<TipSet>, fetch: Fetch,
    incoming: TipSet, r: Result<seq<TipSet>>)
  {
    WalkedAs(Walk(bad, store, fetch, [incoming], known.height + 1), store, genesis, known, chkpt, fetch, r)
  }

  /** The same, of the outcome of the walk. */
  ghost predicate WalkedAs(
    walk: Result<seq<TipSet>>, store: ChainStore, genesis: TipSet, known: TipSet, chkpt: Option<TipSet>, fetch: Fetch,
    r: Result<seq<TipSet>>)
  {
    match walk
    case Err(e) => r == Err(e)
    case Ok(list) =>
      && list != [] && Trimmed(list, known) != []
      && JoinsAs(store, genesis, known, chkpt, fetch, Trimmed(list, known), r)
  }

  /** What collecting the headers under `incoming` yields, and which error it gives when it fails. */
  ghost predicate CollectsAs(
    bad: BadCache, store: ChainStore, genesis: TipSet, known: TipSet, chkpt: Option<TipSet>, fetch: Fetch,
    incoming: TipSet, beacons: seq<seq<BeaconEntry>>, r: Result<seq<TipSet>>)
    requires beacons != []
  {
    if HasBad(bad, incoming.parents) then r == Err(LinkedToBad)
    else if BeaconFault(beacons).Some? then r == Err(BeaconFault(beacons).value)
    else WalksAs(bad, store, genesis, known, chkpt, fetch, incoming, r)
  }

  /** The gathered headers hang on the head, on its parent, or on a fetched fork that shares a tipset
      that may be forked to. */
  ghost predicate Joinable(
    store: ChainStore, known: TipSet, chkpt: Option<TipSet>, fetch: Fetch, base: TipSet)
  {
    || base.IsChildOf(known)
    || (known.parents in store &&
        (base.IsChildOf(store[known.parents]) ||
         (fetch(base.parents, FORK_LENGTH_THRESHOLD).Some? &&
          exists i: nat, k: nat ::
            && Common(store, known, fetch(base.parents, FORK_LENGTH_THRESHOLD).value, i, k)
            && Allowed(store, known, chkpt, k))))
  }

  /** A collection succeeds exactly when no parent of the new head is bad, the beacon entries agree, the
      walk finds every segment stored or answered, linked and clean, and its bottom can be joined. */
  lemma CollectsIff(
    bad: BadCache, store: ChainStore, genesis: TipSet, known: TipSet, chkpt: Option<TipSet>, fetch: Fetch,
    incoming: TipSet, beacons: seq<seq<BeaconEntry>>, r: Result<seq<TipSet>>)
    requires beacons != [] && CollectsAs(bad, store, genesis, known, chkpt, fetch, incoming, beacons, r)
    ensures r.Ok? <==>
      && !HasBad(bad, incoming.parents) && BeaconFault(beacons).None?
      && WalkJoins(bad, store, known, chkpt, fetch, incoming)
  {
    if !HasBad(bad, incoming.parents) && BeaconFault(beacons).None? {
      WalksIff(bad, store, genesis, known, chkpt, fetch, incoming, r);
    }
  }

  /** The walk down from `incoming` succeeds and the bottom of what it gathers can be joined. */
  ghost predicate WalkJoins(
    bad: BadCache, store: ChainStore, known: TipSet, chkpt: Option<TipSet>, fetch: Fetch, incoming: TipSet)
  {
    WalkedJoins(Walk(bad, store, fetch, [incoming], known.height + 1), store, known, chkpt, fetch)
  }

  ghost predicate WalkedJoins(
    walk: Result<seq<TipSet>>, store: ChainStore, known: TipSet, chkpt: Option<TipSet>, fetch: Fetch)
  {
    match walk
    case Err(_) => false
    case Ok(list) =>
      && list != [] && Trimmed(list, known) != []
      && var gathered := Trimmed(list, known);
      Joinable(store, known, chkpt, fetch, gathered[|gathered| - 1])
  }

  lemma WalksIff(
    bad: BadCache, store: ChainStore, genesis: TipSet, known: TipSet, chkpt: Option<TipSet>, fetch: Fetch,
    incoming: TipSet, r: Result<seq<TipSet>>)
    requires WalksAs(bad, store, genesis, known, chkpt, fetch, incoming, r)
    ensures r.Ok? <==> WalkJoins(bad, store, known, chkpt, fetch, incoming)
  {
    WalkedIff(Walk(bad, store, fetch, [incoming], known.height + 1), store, genesis, known, chkpt, fetch, r);
  }

  lemma WalkedIff(
    walk: Result<seq<TipSet>>, store: ChainStore, genesis: TipSet, known: TipSet, chkpt: Option<TipSet>, fetch: Fetch,
    r: Result<seq<TipSet>>)
    requires WalkedAs(walk, store, genesis, known, chkpt, fetch, r)
    ensures r.Ok? <==> WalkedJoins(walk, store, known, chkpt, fetch)
  {
    match walk
    case Err(_) =>
    case Ok(list) => JoinsIff(store, genesis, known, chkpt, fetch, Trimmed(list, known), r);
  }

  lemma JoinsIff(
    store: ChainStore, genesis: TipSet, known: TipSet, chkpt: Option<TipSet>, fetch: Fetch,
    gathered: seq<TipSet>, r: Result<seq<TipSet>>)
    requires gathered != [] && JoinsAs(store, genesis, known, chkpt, fetch, gathered, r)
    ensures r.Ok? <==> Joinable(store, known, chkpt, fetch, gathered[|gathered| - 1])
  {
    var base := gathered[|gathered| - 1];
    var tips := fetch(base.parents, FORK_LENGTH_THRESHOLD);
    if !base.IsChildOf(known) && known.parents in store && !base.IsChildOf(store[known.parents]) && tips.Some? {
      var fork := if r.Ok? then Ok(r.value[|gathered|..]) else r;
      ResolvesIffAllowed(store, known, chkpt, tips.value, fork);
    }
  }

  /** The list of a repeated parent is the one collected, and no error is. */
  lemma RepeatedParentIsCollected(a: Cid, b: Cid, c: Cid, d: Cid, height: int, r: Result<seq<TipSet>>)
    requires a != b && height > 0
    requires var shared, known := TipSet([a, b], [], height, 0), TipSet([c], [a, b], height + 1, 1);
      var base := TipSet([d], [a, a], height + 1, 1);
      CollectsAs(map[], map[[a, b] := shared], shared, known, None, OnlyKnows(shared), base, [[]], r)
    ensures r == Ok([TipSet([d], [a, a], height + 1, 1), TipSet([a, b], [], height, 0)])
  {
    var shared, known := TipSet([a, b], [], height, 0), TipSet([c], [a, b], height + 1, 1);
    var base := TipSet([d], [a, a], height + 1, 1);
    var store: ChainStore := map[[a, b] := shared];
    RepeatedParentBreaksLink(a, b, c, d, height);
    assert b in shared.key && b !in base.parents;
    assert JoinsAs(store, shared, known, None, OnlyKnows(shared), [base], r);
    JoinsIff(store, shared, known, None, OnlyKnows(shared), [base], r);
    assert [shared][..1] == [shared] == r.value[1..];
    assert r.value == [base, shared];
  }

  /** A walk that fails has come to an obstacle: below a list it gathered, linked to the end, there is a
      bad block, no answer, or an answer that does not link. */
  ghost predicate Obstacle(bad: BadCache, store: ChainStore, fetch: Fetch, until: int, got: seq<TipSet>, e: SyncError) {
    && got != [] && got[|got| - 1].height > until
    && var last := got[|got| - 1];
    match e
    case LinkedToBad =>
      || HasBad(bad, last.parents)
      || (last.parents !in store && BadAnswer(bad, fetch, last, until))
    case FetchFailed => last.parents !in store && fetch(last.parents, Window(last.height - until)).None?
    case NotConnected =>
      && last.parents !in store && fetch(last.parents, Window(last.height - until)).Some?
      && var blks := fetch(last.parents, Window(last.height - until)).value;
      blks != [] ==> !last.IsChildOf(blks[0])
    case _ => false
  }

  /** The answer holds a bad block at or above the height limit, under clean tipsets only. */
  ghost predicate BadAnswer(bad: BadCache, fetch: Fetch, last: TipSet, until: int)
    requires last.height > until
  {
    && fetch(last.parents, Window(last.height - until)).Some?
    && var blks := fetch(last.parents, Window(last.height - until)).value;
    exists k :: 0 <= k < |blks| && blks[k].height >= until && !Clean(bad, blks[k]) && Usable(bad, blks, until) == k
  }

  lemma {:induction false} UsableMeans(bad: BadCache, blks: seq<TipSet>, until: int)
    ensures Usable(bad, blks, until) < |blks| ==> !Fine(bad, blks[Usable(bad, blks, until)], until)
  {
    if blks != [] && Fine(bad, blks[0], until) {
      UsableMeans(bad, blks[1..], until);
    }
  }

  /** A turn that goes on ends lower. */
  lemma TurnDrops(headerOf: Cid -> Header, bad: BadCache, store: ChainStore, fetch: Fetch, last: TipSet, until: int)
    requires StoreOk(headerOf, store) && ExchangeOk(headerOf, fetch)
    requires WellFormed(headerOf, last) && last.height > until
    requires Turn(bad, store, fetch, last, until).Ok? && !Turn(bad, store, fetch, last, until).value.stop
    ensures var tips := Turn(bad, store, fetch, last, until).value.tips;
      && tips != [] && WellFormed(headerOf, tips[|tips| - 1]) && tips[|tips| - 1].height < last.height
  {
    if last.parents in store {
      LoadedIsParent(headerOf, store, last);
    } else {
      var blks := fetch(last.parents, Window(last.height - until)).value;
      assert blks[|blks| - 1] in blks;
      if |blks| > 1 { FetchedDrop(blks, 0, |blks| - 1); }
    }
  }

  lemma TurnFailsAtObstacle(
    bad: BadCache, store: ChainStore, fetch: Fetch, list: seq<TipSet>, until: int, e: SyncError)
    requires list != [] && list[|list| - 1].height > until
    requires Turn(bad, store, fetch, list[|list| - 1], until) == Err(e)
    ensures Obstacle(bad, store, fetch, until, list, e)
  {
    var last := list[|list| - 1];
    var answer := fetch(last.parents, Window(last.height - until));
    if answer.Some? { UsableMeans(bad, answer.value, until); }
  }

  /** The turn below `last` goes on, from a lower tipset. */
  ghost predicate GoesOn(bad: BadCache, store: ChainStore, fetch: Fetch, until: int, last: TipSet) {
    && last.height > until && Turn(bad, store, fetch, last, until).Ok?
    && var seg := Turn(bad, store, fetch, last, until).value;
    !seg.stop && seg.tips != [] && seg.tips[|seg.tips| - 1].height < last.height
  }

  /** The lists a walk from `list` passes through, turn by turn. */
  ghost function Trail(
    bad: BadCache, store: ChainStore, fetch: Fetch, until: int, list: seq<TipSet>): (path: seq<seq<TipSet>>)
    requires list != []
    ensures path != [] && path[0] == list
    decreases if list[|list| - 1].height > until then list[|list| - 1].height - until else 0
  {
    var last := list[|list| - 1];
    if GoesOn(bad, store, fetch, until, last) then
      [list] + Trail(bad, store, fetch, until, list + Turn(bad, store, fetch, last, until).value.tips)
    else [list]
  }

  /** The blocks asked for below the lists: what a walk accepts as it leaves them. */
  ghost function AskedBelow(path: seq<seq<TipSet>>): seq<Cid> {
    if path == [] then []
    else
      var list := path[|path| - 1];
      AskedBelow(path[..|path| - 1]) + if list == [] then [] else list[|list| - 1].parents
  }

  lemma AskedOneMore(path: seq<seq<TipSet>>, list: seq<TipSet>)
    requires list != []
    ensures AskedBelow(path + [list]) == AskedBelow(path) + list[|list| - 1].parents
  {
    assert (path + [list])[..|path|] == path;
  }

  lemma WalkTurn(bad: BadCache, store: ChainStore, fetch: Fetch, until: int, list: seq<TipSet>)
    requires list != [] && GoesOn(bad, store, fetch, until, list[|list| - 1])
    ensures var out := list + Turn(bad, store, fetch, list[|list| - 1], until).value.tips;
      Walk(bad, store, fetch, list, until) == Walk(bad, store, fetch, out, until)
  {
  }

  /** A walk has the same outcome from every list of its trail. */
  lemma {:induction false} SameWalk(
    bad: BadCache, store: ChainStore, fetch: Fetch, until: int, list: seq<TipSet>, k: nat)
    requires list != [] && k < |Trail(bad, store, fetch, until, list)|
    ensures var l := Trail(bad, store, fetch, until, list)[k];
      l != [] && Walk(bad, store, fetch, l, until) == Walk(bad, store, fetch, list, until)
    decreases k
  {
    if k > 0 {
      WalkTurn(bad, store, fetch, until, list);
      SameWalk(
        bad, store, fetch, until, list + Turn(bad, store, fetch, list[|list| - 1], until).value.tips, k - 1);
    }
  }

  lemma EndOfTrail(
    bad: BadCache, store: ChainStore, fetch: Fetch, until: int,
    list: seq<TipSet>, before: seq<seq<TipSet>>, got: seq<TipSet>)
    requires list != [] && got != [] && !GoesOn(bad, store, fetch, until, got[|got| - 1])
    requires Trail(bad, store, fetch, until, list) == before + Trail(bad, store, fetch, until, got)
    ensures var path := Trail(bad, store, fetch, until, list); path[..|path| - 1] == before && path[|path| - 1] == got
  {
    assert Trail(bad, store, fetch, until, got) == [got];
  }

  /** The error of the turn below the list, if it is one. */
  ghost function ErrorAt(
    bad: BadCache, store: ChainStore, fetch: Fetch, until: int, got: seq<TipSet>): Option<SyncError>
  {
    if got != [] && got[|got| - 1].height > until && Turn(bad, store, fetch, got[|got| - 1], until).Err? then
      Some(Turn(bad, store, fetch, got[|got| - 1], until).error)
    else None
  }

  lemma {:induction false} FailsAtEnd(
    headerOf: Cid -> Header, bad: BadCache, store: ChainStore, fetch: Fetch, until: int,
    list: seq<TipSet>, e: SyncError)
    returns (got: seq<TipSet>)
    requires StoreOk(headerOf, store) && ExchangeOk(headerOf, fetch) && list != []
    requires WellFormed(headerOf, list[|list| - 1]) && Walk(bad, store, fetch, list, until) == Err(e)
    ensures var path := Trail(bad, store, fetch, until, list); got == path[|path| - 1]
    ensures list <= got && ErrorAt(bad, store, fetch, until, got) == Some(e)
    decreases list[|list| - 1].height - until
  {
    var last := list[|list| - 1];
    if GoesOn(bad, store, fetch, until, last) {
      TurnDrops(headerOf, bad, store, fetch, last, until);
      WalkTurn(bad, store, fetch, until, list);
      var out := list + Turn(bad, store, fetch, last, until).value.tips;
      TrailTurn(bad, store, fetch, until, list);
      got := FailsAtEnd(headerOf, bad, store, fetch, until, out, e);
    } else {
      got := list;
      FailsHere(headerOf, bad, store, fetch, until, list, e);
    }
  }

  /** A walk that fails does so at the end of its trail, where there is an obstacle of that kind. */
  lemma WalkFailsAtObstacle(
    headerOf: Cid -> Header, bad: BadCache, store: ChainStore, fetch: Fetch, until: int,
    list: seq<TipSet>, e: SyncError)
    returns (got: seq<TipSet>)
    requires StoreOk(headerOf, store) && ExchangeOk(headerOf, fetch) && list != []
    requires WellFormed(headerOf, list[|list| - 1]) && Walk(bad, store, fetch, list, until) == Err(e)
    ensures var path := Trail(bad, store, fetch, until, list); got == path[|path| - 1]
    ensures list <= got && Obstacle(bad, store, fetch, until, got, e)
  {
    got := FailsAtEnd(headerOf, bad, store, fetch, until, list, e);
    TurnFailsAtObstacle(bad, store, fetch, got, until, e);
  }

  lemma FailsHere(
    headerOf: Cid -> Header, bad: BadCache, store: ChainStore, fetch: Fetch, until: int,
    list: seq<TipSet>, e: SyncError)
    requires StoreOk(headerOf, store) && ExchangeOk(headerOf, fetch) && list != []
    requires WellFormed(headerOf, list[|list| - 1]) && Walk(bad, store, fetch, list, until) == Err(e)
    requires !GoesOn(bad, store, fetch, until, list[|list| - 1])
    ensures list[|list| - 1].height > until && Turn(bad, store, fetch, list[|list| - 1], until) == Err(e)
  {
    var last := list[|list| - 1];
    if Turn(bad, store, fetch, last, until).Ok? { TurnDrops(headerOf, bad, store, fetch, last, until); }
  }

  // ---------------------------------------------------------------- what a collection marks

  /** `c` is the first bad block of the key. */
  ghost predicate FirstIn(bad: BadCache, key: Key, c: Cid) {
    c in bad && exists i :: 0 <= i < |key| && key[i] == c && forall j :: 0 <= j < i ==> key[j] !in bad
  }

  /** The bad block the turn below `last` comes to: a parent, or one of the first bad tipset of the answer. */
  ghost predicate Culprit(bad: BadCache, fetch: Fetch, last: TipSet, until: int, c: Cid)
    requires last.height > until
  {
    if HasBad(bad, last.parents) then FirstIn(bad, last.parents, c) else AnswerCulprit(bad, fetch, last, until, c)
  }

  ghost predicate AnswerCulprit(bad: BadCache, fetch: Fetch, last: TipSet, until: int, c: Cid)
    requires last.height > until
  {
    && BadAnswer(bad, fetch, last, until)
    && var blks := fetch(last.parents, Window(last.height - until)).value;
    FirstIn(bad, blks[Usable(bad, blks, until)].key, c)
  }

  lemma AnswerIsBad(bad: BadCache, fetch: Fetch, last: TipSet, until: int)
    requires last.height > until && Answered(bad, fetch, last, until) == Err(LinkedToBad)
    ensures BadAnswer(bad, fetch, last, until)
  {
    UsableMeans(bad, fetch(last.parents, Window(last.height - until)).value, until);
  }

  ghost predicate AnswerMarks(
    bad: BadCache, fetch: Fetch, last: TipSet, until: int, cs: seq<Cid>, err: Option<SyncError>, after: BadCache)
    requires last.height > until
  {
    if err == Some(LinkedToBad) then
      exists c :: AnswerCulprit(bad, fetch, last, until, c) &&
        after == Mark(bad, cs, bad[c].Linked(ChainContained(c)))
    else after == bad
  }

  lemma AnswerMarksTurn(
    bad: BadCache, fetch: Fetch, last: TipSet, until: int, cs: seq<Cid>, err: Option<SyncError>, after: BadCache)
    requires last.height > until && !HasBad(bad, last.parents)
    requires AnswerMarks(bad, fetch, last, until, cs, err, after)
    ensures TurnMarks(bad, fetch, last, until, cs, err, after)
  {
    if err == Some(LinkedToBad) {
      var c :| AnswerCulprit(bad, fetch, last, until, c) && after == Mark(bad, cs, bad[c].Linked(ChainContained(c)));
      assert Culprit(bad, fetch, last, until, c);
    }
  }

  /** What a turn marks: the accepted blocks if it comes to a bad one, and otherwise nothing. */
  ghost predicate TurnMarks(
    bad: BadCache, fetch: Fetch, last: TipSet, until: int, cs: seq<Cid>, err: Option<SyncError>, after: BadCache)
    requires last.height > until
  {
    if err == Some(LinkedToBad) then
      exists c :: Culprit(bad, fetch, last, until, c) && after == Mark(bad, cs, bad[c].Linked(ChainContained(c)))
    else after == bad
  }

  /** What a walk marks: the blocks it has accepted when it comes to a bad one, and otherwise nothing. */
  ghost predicate WalkMarks(
    bad: BadCache, store: ChainStore, fetch: Fetch, incoming: TipSet, until: int,
    r: Result<seq<TipSet>>, after: BadCache)
  {
    if r == Err(LinkedToBad) then
      var path := Trail(bad, store, fetch, until, [incoming]);
      MarksAtEnd(bad, fetch, until, path[..|path| - 1], path[|path| - 1], after)
    else after == bad
  }

  /** The turn below `got` marks the blocks accepted before it. */
  ghost predicate MarksAtEnd(
    bad: BadCache, fetch: Fetch, until: int, before: seq<seq<TipSet>>, got: seq<TipSet>, after: BadCache)
  {
    && got != [] && got[|got| - 1].height > until
    && TurnMarks(bad, fetch, got[|got| - 1], until, AskedBelow(before), Some(LinkedToBad), after)
  }

  /** The walk from `incoming` has left the lists `before` and stands at `list`. */
  ghost predicate OnTrail(
    bad: BadCache, store: ChainStore, fetch: Fetch, until: int, incoming: TipSet,
    before: seq<seq<TipSet>>, list: seq<TipSet>, cs: seq<Cid>)
  {
    && list != [] && cs == AskedBelow(before)
    && Walk(bad, store, fetch, [incoming], until) == Walk(bad, store, fetch, list, until)
    && Trail(bad, store, fetch, until, [incoming]) == before + Trail(bad, store, fetch, until, list)
  }

  lemma TrailGoesOn(
    bad: BadCache, store: ChainStore, fetch: Fetch, until: int, incoming: TipSet,
    before: seq<seq<TipSet>>, list: seq<TipSet>, cs: seq<Cid>, out: seq<TipSet>)
    requires OnTrail(bad, store, fetch, until, incoming, before, list, cs) && list[|list| - 1].height > until
    requires Adds(Turn(bad, store, fetch, list[|list| - 1], until), list, out, false, None)
    requires out != [] && out[|out| - 1].height < list[|list| - 1].height
    ensures OnTrail(
      bad, store, fetch, until, incoming, before + [list], out, cs + list[|list| - 1].parents)
  {
    var tips := Turn(bad, store, fetch, list[|list| - 1], until).value.tips;
    assert tips == [] ==> out == list;
    assert GoesOn(bad, store, fetch, until, list[|list| - 1]);
    WalkTurn(bad, store, fetch, until, list);
    AskedOneMore(before, list);
    TrailTurn(bad, store, fetch, until, list);
    assert before + ([list] + Trail(bad, store, fetch, until, out)) ==
      (before + [list]) + Trail(bad, store, fetch, until, out);
  }

  lemma TrailTurn(bad: BadCache, store: ChainStore, fetch: Fetch, until: int, list: seq<TipSet>)
    requires list != [] && GoesOn(bad, store, fetch, until, list[|list| - 1])
    ensures var out := list + Turn(bad, store, fetch, list[|list| - 1], until).value.tips;
      Trail(bad, store, fetch, until, list) == [list] + Trail(bad, store, fetch, until, out)
  {
  }

  lemma TrailEnds(
    bad: BadCache, store: ChainStore, fetch: Fetch, until: int, incoming: TipSet,
    before: seq<seq<TipSet>>, list: seq<TipSet>, cs: seq<Cid>, out: seq<TipSet>)
    requires OnTrail(bad, store, fetch, until, incoming, before, list, cs) && list[|list| - 1].height > until
    requires Adds(Turn(bad, store, fetch, list[|list| - 1], until), list, out, true, None)
    ensures Walk(bad, store, fetch, [incoming], until) == Ok(out)
  {
  }

  lemma TrailFails(
    bad: BadCache, store: ChainStore, fetch: Fetch, until: int, incoming: TipSet,
    before: seq<seq<TipSet>>, list: seq<TipSet>, cs: seq<Cid>, e: SyncError, after: BadCache)
    requires OnTrail(bad, store, fetch, until, incoming, before, list, cs) && list[|list| - 1].height > until
    requires Turn(bad, store, fetch, list[|list| - 1], until) == Err(e)
    requires TurnMarks(bad, fetch, list[|list| - 1], until, cs, Some(e), after)
    ensures Walk(bad, store, fetch, [incoming], until) == Err(e)
    ensures WalkMarks(bad, store, fetch, incoming, until, Err(e), after)
  {
    EndOfTrail(bad, store, fetch, until, [incoming], before, list);
  }

  ghost predicate JoinMarks(bad: BadCache, incoming: TipSet, r: Result<seq<TipSet>>, after: BadCache) {
    after ==
    if r == Err(ForkTooLong) || r == Err(ForkCheckpoint) then
      Mark(bad, incoming.key, NewReason(incoming.key, ForkPastFinality))
    else bad
  }

  /** The cache after the walk and the join. */
  ghost predicate BelowMarks(
    bad: BadCache, store: ChainStore, fetch: Fetch, known: TipSet, incoming: TipSet,
    r: Result<seq<TipSet>>, after: BadCache)
  {
    if r == Err(LinkedToBad) then WalkMarks(bad, store, fetch, incoming, known.height + 1, r, after)
    else JoinMarks(bad, incoming, r, after)
  }

  /** The cache after a collection, in terms of its outcome. A bad parent marks the blocks of the new head, as
      linked to it; a bad block further down marks the accepted ones; wrong beacon order marks the first block;
      a fork that is too long or would give up the checkpoint marks all blocks of the head; nothing else marks. */
  ghost predicate CollectMarks(
    bad: BadCache, store: ChainStore, known: TipSet, fetch: Fetch, incoming: TipSet,
    r: Result<seq<TipSet>>, after: BadCache)
  {
    if HasBad(bad, incoming.parents) then
      exists c :: FirstIn(bad, incoming.parents, c) &&
        after == Mark(bad, incoming.key, bad[c].Linked(LinkedTo(c)))
    else if r == Err(BeaconOrder) then
      incoming.key != [] && after == Mark(bad, [incoming.key[0]], NewReason(incoming.key, WrongBeaconOrder))
    else BelowMarks(bad, store, fetch, known, incoming, r, after)
  }

  /** The accepted blocks lie below the head, so a bad block further down leaves the head's own blocks unmarked. */
  lemma AcceptedLieBelow(
    headerOf: Cid -> Header, bad: BadCache, store: ChainStore, fetch: Fetch, until: int, incoming: TipSet)
    requires StoreOk(headerOf, store) && ExchangeOk(headerOf, fetch) && WellFormed(headerOf, incoming)
    ensures forall c :: c in AskedBelow(Trail(bad, store, fetch, until, [incoming])) ==>
      headerOf(c).height < incoming.height && c !in incoming.key
  {
    var path := Trail(bad, store, fetch, until, [incoming]);
    TrailDrops(headerOf, bad, store, fetch, until, [incoming], incoming);
    forall c | c in AskedBelow(path) ensures headerOf(c).height < incoming.height && c !in incoming.key {
      var list := AskedFor(path, c);
    }
  }

  lemma {:induction false} TrailDrops(
    headerOf: Cid -> Header, bad: BadCache, store: ChainStore, fetch: Fetch, until: int, list: seq<TipSet>, top: TipSet)
    requires StoreOk(headerOf, store) && ExchangeOk(headerOf, fetch)
    requires list != [] && WellFormed(headerOf, list[|list| - 1]) && list[|list| - 1].height <= top.height
    ensures forall l: seq<TipSet> :: l in Trail(bad, store, fetch, until, list) ==>
      l != [] && WellFormed(headerOf, l[|l| - 1]) && l[|l| - 1].height <= top.height
    decreases if list[|list| - 1].height > until then list[|list| - 1].height - until else 0
  {
    var last := list[|list| - 1];
    if GoesOn(bad, store, fetch, until, last) {
      TurnDrops(headerOf, bad, store, fetch, last, until);
      TrailDrops(
        headerOf, bad, store, fetch, until, list + Turn(bad, store, fetch, last, until).value.tips, top);
    }
  }

  lemma {:induction false} AskedFor(path: seq<seq<TipSet>>, c: Cid) returns (list: seq<TipSet>)
    requires c in AskedBelow(path)
    ensures list in path && list != [] && c in list[|list| - 1].parents
  {
    list := path[|path| - 1];
    if !(list != [] && c in list[|list| - 1].parents) {
      list := AskedFor(path[..|path| - 1], c);
    }
  }

  class Syncer {
    var bad: BadCache
    const store: ChainStore
    const genesis: TipSet
    const checkpoint: Option<TipSet>
    const fetch: Fetch

    constructor (
      store: ChainStore, genesis: TipSet, checkpoint: Option<TipSet>, fetch: Fetch)
      ensures bad == map[] && this.store == store && this.genesis == genesis
      ensures this.checkpoint == checkpoint && this.fetch == fetch
    {
      bad := map[];
      this.store, this.genesis, this.checkpoint, this.fetch := store, genesis, checkpoint, fetch;
    }

    /** The first bad block of a key, in order. */
    method FirstBad(key: Key) returns (r: Option<Cid>)
      ensures r.None? ==> forall c :: c in key ==> c !in bad
      ensures r.Some? ==> r.value in key && FirstIn(bad, key, r.value)
    {
      for i := 0 to |key|
        invariant forall j :: 0 <= j < i ==> key[j] !in bad
      {
        if key[i] in bad { return Some(key[i]); }
      }
      return None;
    }

    method MarkAll(cs: seq<Cid>, reason: Reason)
      modifies this`bad
      ensures bad == Mark(old(bad), cs, reason)
    {
      for i := 0 to |cs|
        invariant bad == Mark(old(bad), cs[..i], reason)
      {
        MarkOne(old(bad), cs, i, reason);
        bad := bad[cs[i] := reason];
      }
      assert cs[..|cs|] == cs;
    }

    /** The beacon entries must be ordered in the first block and equal in all blocks. */
    method CheckBeacons(incoming: TipSet, beacons: seq<seq<BeaconEntry>>) returns (r: Option<SyncError>)
      requires |beacons| == |incoming.key| > 0
      modifies this`bad
      ensures r == BeaconFault(beacons)
      ensures bad == if r != Some(BeaconOrder) then old(bad)
        else Mark(old(bad), [incoming.key[0]], NewReason(incoming.key, WrongBeaconOrder))
    {
      var target := beacons[0];
      for i := 0 to |target|
        invariant forall j :: 0 < j < i ==> target[j - 1].round <= target[j].round
        invariant bad == old(bad)
      {
        if i > 0 && target[i].round < target[i - 1].round {
          bad := bad[incoming.key[0] := NewReason(incoming.key, WrongBeaconOrder)];
          return Some(BeaconOrder);
        }
      }
      assert Ordered(target);
      for b := 1 to |beacons|
        invariant forall j :: 0 < j < b ==> beacons[j] == target
        invariant bad == old(bad)
      {
        if |target| != |beacons[b]| { return Some(BeaconMismatch); }
        for i := 0 to |target|
          invariant forall j :: 0 <= j < i ==> beacons[b][j] == target[j]
          invariant bad == old(bad)
        {
          if target[i].round != beacons[b][i].round || target[i].data != beacons[b][i].data {
            return Some(BeaconMismatch);
          }
        }
      }
      return None;
    }

    /** Appends fetched tipsets until one is below `until` or holds a bad block. */
    method TakeFetched(soFar: seq<TipSet>, blks: seq<TipSet>, until: int, ghost headerOf: Cid -> Header)
      returns (out: seq<TipSet>, stop: bool, culprit: Option<Cid>)
      requires soFar != [] && blks != [] && Chained(soFar) && Chained(blks)
      requires soFar[|soFar| - 1].IsChildOf(blks[0])
      requires forall i :: 0 <= i < |blks| ==> WellFormed(headerOf, blks[i])
      ensures soFar <= out && Chained(out)
      ensures forall i :: |soFar| <= i < |out| ==> Clean(bad, out[i]) && out[i].height >= until
      ensures stop ==> EndsBelow(headerOf, out, until)
      ensures culprit.Some? ==> culprit.value in bad && culprit.value in out[|out| - 1].parents
      ensures var k := Usable(bad, blks, until);
        && out == soFar + blks[..k] && (stop <==> k < |blks| && blks[k].height < until)
        && (culprit.Some? <==> k < |blks| && blks[k].height >= until)
        && (culprit.Some? ==> FirstIn(bad, blks[k].key, culprit.value))
    {
      var k;
      k, culprit := CountUsable(blks, until);
      stop := k < |blks| && culprit.None?;
      out := soFar + blks[..k];
      assert forall j :: |soFar| <= j < |out| ==> out[j] == blks[j - |soFar|] && Fine(bad, blks[j - |soFar|], until);
      if k > 0 {
        JoinChains(soFar, blks[..k]);
        assert k < |blks| ==> blks[k - 1].IsChildOf(blks[k]);
      }
      assert k < |blks| ==> out[|out| - 1].IsChildOf(blks[k]) && blks[k].key[0] in blks[k].key;
    }

    /** Goes through fetched tipsets to the first that is below `until` or holds a bad block. */
    method CountUsable(blks: seq<TipSet>, until: int) returns (k: nat, culprit: Option<Cid>)
      ensures k == Usable(bad, blks, until) <= |blks| && forall i :: 0 <= i < k ==> Fine(bad, blks[i], until)
      ensures culprit.Some? <==> k < |blks| && blks[k].height >= until
      ensures culprit.Some? ==> culprit.value in blks[k].key && FirstIn(bad, blks[k].key, culprit.value)
    {
      k, culprit := 0, None;
      while k < |blks| && blks[k].height >= until
        invariant k <= |blks| && culprit.None? && forall i :: 0 <= i < k ==> Fine(bad, blks[i], until)
      {
        culprit := FirstBad(blks[k].key);
        if culprit.Some? { break; }
        k := k + 1;
      }
      UsableIs(bad, blks, until, k);
    }

    method BlameAccepted(
      cs: seq<Cid>, ghost list: seq<TipSet>, culprit: Cid, ghost incoming: TipSet, ghost headerOf: Cid -> Header)
      requires AllShallow(bad) && culprit in bad && forall i :: 0 <= i < |list| ==> WellFormed(headerOf, list[i])
      requires list != [] && Chained(list) && Accepted(cs, list) && culprit in list[|list| - 1].parents
      modifies this`bad
      ensures FairMarks(headerOf, old(bad), bad, incoming) && AllShallow(bad)
      ensures bad == Mark(old(bad), cs, old(bad)[culprit].Linked(ChainContained(culprit)))
    {
      forall c | c in cs ensures Descends(headerOf, c, culprit) {
        var i :| 0 <= i < |list| && c in list[i].key;
        SuffixDescends(headerOf, list, i, c, culprit);
      }
      MarkedFairly(headerOf, bad, cs, culprit, ChainContained(culprit), incoming);
      MarkAll(cs, bad[culprit].Linked(ChainContained(culprit)));
    }

    method BlameIncoming(incoming: TipSet, culprit: Cid, ghost headerOf: Cid -> Header)
      requires WellFormed(headerOf, incoming) && AllShallow(bad) && culprit in bad && culprit in incoming.parents
      modifies this`bad
      ensures FairMarks(headerOf, old(bad), bad, incoming) && AllShallow(bad)
      ensures bad == Mark(old(bad), incoming.key, old(bad)[culprit].Linked(LinkedTo(culprit)))
    {
      forall c | c in incoming.key ensures Descends(headerOf, c, culprit) {
        SuffixDescends(headerOf, [incoming], 0, c, culprit);
      }
      MarkedFairly(headerOf, bad, incoming.key, culprit, LinkedTo(culprit), incoming);
      MarkAll(incoming.key, bad[culprit].Linked(LinkedTo(culprit)));
    }

    /** Appends what is usable of an answer to the gathered headers. */
    method Extend(
      blockSet: seq<TipSet>, blks: seq<TipSet>, until: int, ghost incoming: TipSet, ghost headerOf: Cid -> Header)
      returns (out: seq<TipSet>, stop: bool, culprit: Option<Cid>)
      requires Gathered(bad, headerOf, blockSet, incoming) && AllAbove(blockSet, until)
      requires blks != [] && Chained(blks) && forall i :: 0 <= i < |blks| ==> WellFormed(headerOf, blks[i])
      requires blockSet[|blockSet| - 1].height > until && blockSet[|blockSet| - 1].IsChildOf(blks[0])
      ensures Gathered(bad, headerOf, out, incoming) && AllAbove(out, until)
      ensures stop ==> EndsBelow(headerOf, out, until)
      ensures culprit.Some? ==> culprit.value in bad && culprit.value in out[|out| - 1].parents
      ensures var k := Usable(bad, blks, until);
        && out == blockSet + blks[..k] && (stop <==> k < |blks| && blks[k].height < until)
        && (culprit.Some? <==> k < |blks| && blks[k].height >= until)
        && (culprit.Some? ==> FirstIn(bad, blks[k].key, culprit.value))
    {
      out, stop, culprit := TakeFetched(blockSet, blks, until, headerOf);
      ghost var tips := blks[..Usable(bad, blks, until)];
      assert forall i :: 0 <= i < |tips| ==> tips[i] == out[|blockSet| + i];
      GatherMore(bad, headerOf, blockSet, tips, incoming);
      StaysAbove(blockSet, out, until);
    }

    /** Appends what is usable of an answer that links; a bad block in it taints the accepted ones. */
    method Digest(
      blockSet: seq<TipSet>, accepted: seq<Cid>, blks: seq<TipSet>, until: int,
      ghost incoming: TipSet, ghost headerOf: Cid -> Header)
      returns (out: seq<TipSet>, stop: bool, err: Option<SyncError>)
      requires AllShallow(bad) && Gathered(bad, headerOf, blockSet, incoming) && Accepted(accepted, blockSet)
      requires blockSet[|blockSet| - 1].height > until && AllAbove(blockSet, until)
      requires Fetched(blockSet[|blockSet| - 1].parents, |blks|, blks) && blockSet[|blockSet| - 1].IsChildOf(blks[0])
      requires forall i :: 0 <= i < |blks| ==> WellFormed(headerOf, blks[i])
      modifies this`bad
      ensures AllShallow(bad) && FairMarks(headerOf, old(bad), bad, incoming)
      ensures err.None? ==> bad == old(bad) && TurnOk(bad, headerOf, incoming, blockSet, accepted, until, out, stop)
      ensures Adds(Digested(old(bad), blks, until), blockSet, out, stop, err)
      ensures err.Some? ==>
        exists c :: FirstIn(old(bad), blks[Usable(old(bad), blks, until)].key, c) &&
          bad == Mark(old(bad), accepted, old(bad)[c].Linked(ChainContained(c)))
    {
      var last := blockSet[|blockSet| - 1];
      var found;
      out, stop, found := Extend(blockSet, blks, until, incoming, headerOf);
      AcceptMore(accepted, blockSet, [], out);
      assert accepted + [] == accepted;
      err := None;
      if found.Some? {
        BlameAccepted(accepted, out, found.value, incoming, headerOf);
        err := Some(LinkedToBad);
      } else if !stop {
        AcceptMore(accepted, blockSet, last.parents, out);
        FetchedDrop(out, |blockSet| - 1, |out| - 1);
      }
    }

    /** Asks the peers for the next segment and appends what is usable of it. */
    method FetchMore(
      blockSet: seq<TipSet>, accepted: seq<Cid>, until: int, ghost incoming: TipSet, ghost headerOf: Cid -> Header)
      returns (out: seq<TipSet>, stop: bool, err: Option<SyncError>)
      requires ExchangeOk(headerOf, fetch) && AllShallow(bad)
      requires Gathered(bad, headerOf, blockSet, incoming) && Accepted(accepted, blockSet)
      requires blockSet[|blockSet| - 1].height > until && AllAbove(blockSet, until)
      modifies this`bad
      ensures AllShallow(bad) && FairMarks(headerOf, old(bad), bad, incoming)
      ensures err.None? ==> bad == old(bad) && TurnOk(bad, headerOf, incoming, blockSet, accepted, until, out, stop)
      ensures Adds(Answered(old(bad), fetch, blockSet[|blockSet| - 1], until), blockSet, out, stop, err)
      ensures AnswerMarks(old(bad), fetch, blockSet[|blockSet| - 1], until, accepted, err, bad)
    {
      out, stop, err := blockSet, false, None;
      var last := blockSet[|blockSet| - 1];
      var got := fetch(last.parents, Window(last.height - until));
      if got.None? { err := Some(FetchFailed); return; }
      var blks := got.value;
      if !last.IsChildOf(blks[0]) { err := Some(NotConnected); return; }
      assert forall i :: 0 <= i < |blks| ==> blks[i] in blks;
      out, stop, err := Digest(blockSet, accepted, blks, until, incoming, headerOf);
      if err.Some? { AnswerIsBad(old(bad), fetch, last, until); }
    }

    /** One turn of the walk below the last gathered tipset. */
    method TakeTurn(
      blockSet: seq<TipSet>, accepted: seq<Cid>, until: int, ghost incoming: TipSet, ghost headerOf: Cid -> Header)
      returns (out: seq<TipSet>, stop: bool, err: Option<SyncError>)
      requires StoreOk(headerOf, store) && ExchangeOk(headerOf, fetch) && AllShallow(bad)
      requires Gathered(bad, headerOf, blockSet, incoming) && Accepted(accepted, blockSet)
      requires blockSet[|blockSet| - 1].height > until && AllAbove(blockSet, until)
      modifies this`bad
      ensures AllShallow(bad) && FairMarks(headerOf, old(bad), bad, incoming)
      ensures err.None? ==> bad == old(bad) && TurnOk(bad, headerOf, incoming, blockSet, accepted, until, out, stop)
      ensures Adds(Turn(old(bad), store, fetch, blockSet[|blockSet| - 1], until), blockSet, out, stop, err)
      ensures TurnMarks(old(bad), fetch, blockSet[|blockSet| - 1], until, accepted, err, bad)
    {
      var at := blockSet[|blockSet| - 1].parents;
      var culprit := FirstBad(at);
      if culprit.Some? {
        assert Culprit(bad, fetch, blockSet[|blockSet| - 1], until, culprit.value);
        BlameAccepted(accepted, blockSet, culprit.value, incoming, headerOf);
        return blockSet, false, Some(LinkedToBad);
      }
      if at in store {
        LoadedIsParent(headerOf, store, blockSet[|blockSet| - 1]);
        AcceptMore(accepted, blockSet, at, blockSet + [store[at]]);
        return blockSet + [store[at]], false, None;
      }
      out, stop, err := FetchMore(blockSet, accepted, until, incoming, headerOf);
      AnswerMarksTurn(old(bad), fetch, blockSet[|blockSet| - 1], until, accepted, err, bad);
    }

    method Gather(incoming: TipSet, known: TipSet, ghost headerOf: Cid -> Header) returns (r: Result<seq<TipSet>>)
      requires StoreOk(headerOf, store) && ExchangeOk(headerOf, fetch) && WellFormed(headerOf, incoming)
      requires AllShallow(bad)
      modifies this`bad
      ensures AllShallow(bad) && FairMarks(headerOf, old(bad), bad, incoming)
      ensures r.Ok? ==>
        && bad == old(bad) && Gathered(bad, headerOf, r.value, incoming) && Spans(headerOf, r.value, known.height + 1)
      ensures r == Walk(old(bad), store, fetch, [incoming], known.height + 1)
      ensures WalkMarks(old(bad), store, fetch, incoming, known.height + 1, r, bad)
    {
      var blockSet := [incoming];
      var until := known.height + 1;
      var accepted: seq<Cid> := [];
      ghost var before: seq<seq<TipSet>> := [];
      while blockSet[|blockSet| - 1].height > until
        invariant bad == old(bad) && Gathered(bad, headerOf, blockSet, incoming)
        invariant Accepted(accepted, blockSet) && AllAbove(blockSet, until)
        invariant OnTrail(bad, store, fetch, until, incoming, before, blockSet, accepted)
        decreases blockSet[|blockSet| - 1].height - until
      {
        var at := blockSet[|blockSet| - 1].parents;
        var out, stop, err := TakeTurn(blockSet, accepted, until, incoming, headerOf);
        if err.Some? {
          TrailFails(old(bad), store, fetch, until, incoming, before, blockSet, accepted, err.value, bad);
          return Err(err.value);
        }
        if stop {
          TrailEnds(bad, store, fetch, until, incoming, before, blockSet, accepted, out);
          return Ok(out);
        }
        TrailGoesOn(bad, store, fetch, until, incoming, before, blockSet, accepted, out);
        before := before + [blockSet];
        blockSet := out;
        accepted := accepted + at;
      }
      return Ok(blockSet);
    }

    /** Ties the gathered headers to the local chain, searching for the fork point if need be. */
    method Connect(
      gathered: seq<TipSet>, incoming: TipSet, known: TipSet, ignoreCheckpoint: bool, ghost headerOf: Cid -> Header)
      returns (r: Result<seq<TipSet>>)
      requires StoreOk(headerOf, store) && ExchangeOk(headerOf, fetch) && WellFormed(headerOf, known)
      requires Gathered(bad, headerOf, gathered, incoming) && AllShallow(bad)
      modifies this`bad
      ensures AllShallow(bad) && FairMarks(headerOf, old(bad), bad, incoming)
      ensures r.Ok? ==>
        && bad == old(bad) && gathered <= r.value && LinkedParts(r.value, |gathered|)
        && Joins(store, known, if ignoreCheckpoint then None else checkpoint, fetch, r.value, |gathered|)
      ensures JoinsAs(store, genesis, known, if ignoreCheckpoint then None else checkpoint, fetch, gathered, r)
      ensures JoinMarks(old(bad), incoming, r, bad) && r != Err(LinkedToBad) && r != Err(BeaconOrder)
    {
      var base := gathered[|gathered| - 1];
      if base.IsChildOf(known) { return Ok(gathered); }
      if known.parents !in store { return Err(LoadFailed); }
      if base.IsChildOf(store[known.parents]) { return Ok(gathered); }
      r := Fork(gathered, incoming, known, ignoreCheckpoint, headerOf);
    }

    /** Searches for the fork point and appends the fork. */
    method Fork(
      gathered: seq<TipSet>, incoming: TipSet, known: TipSet, ignoreCheckpoint: bool, ghost headerOf: Cid -> Header)
      returns (r: Result<seq<TipSet>>)
      requires StoreOk(headerOf, store) && ExchangeOk(headerOf, fetch) && WellFormed(headerOf, known)
      requires Gathered(bad, headerOf, gathered, incoming) && AllShallow(bad)
      modifies this`bad
      ensures AllShallow(bad) && FairMarks(headerOf, old(bad), bad, incoming)
      ensures r.Ok? ==>
        && gathered <= r.value && LinkedParts(r.value, |gathered|)
        && Joins(store, known, if ignoreCheckpoint then None else checkpoint, fetch, r.value, |gathered|)
      ensures ForksAs(store, genesis, known, if ignoreCheckpoint then None else checkpoint, fetch, gathered, r)
      ensures JoinMarks(old(bad), incoming, r, bad) && r != Err(LinkedToBad) && r != Err(BeaconOrder)
    {
      var base := gathered[|gathered| - 1];
      StoreHeightsDrop(headerOf, store, known);
      var tips := fetch(base.parents, FORK_LENGTH_THRESHOLD);
      var fork := SyncFork(store, genesis, checkpoint, ignoreCheckpoint, tips, base, known);
      if fork.Err? {
        if fork.error == ForkTooLong || fork.error == ForkCheckpoint {
          MarkAll(incoming.key, NewReason(incoming.key, ForkPastFinality));
        }
        return fork;
      }
      assert tips.value[0] in tips.value;
      FetchedContinues(headerOf, base, tips.value, FORK_LENGTH_THRESHOLD, |fork.value|);
      JoinChains(gathered, fork.value);
      r := Ok(gathered + fork.value);
      assert r.value[|gathered|..] == fork.value;
    }

    /** A join gives the checkpoint up only beside the head. */
    method Join(
      gathered: seq<TipSet>, incoming: TipSet, known: TipSet, ignoreCheckpoint: bool, ghost headerOf: Cid -> Header)
      returns (r: Result<seq<TipSet>>)
      requires StoreOk(headerOf, store) && ExchangeOk(headerOf, fetch) && WellFormed(headerOf, known)
      requires Gathered(bad, headerOf, gathered, incoming) && AllShallow(bad)
      modifies this`bad
      ensures AllShallow(bad) && FairMarks(headerOf, old(bad), bad, incoming)
      ensures r.Ok? ==>
        && bad == old(bad) && |gathered| <= |r.value| && r.value[..|gathered|] == gathered
        && LinkedParts(r.value, |gathered|)
        && Joins(store, known, if ignoreCheckpoint then None else checkpoint, fetch, r.value, |gathered|)
        && GivesUpOnlyBeside(store, known, if ignoreCheckpoint then None else checkpoint, r.value[|r.value| - 1])
      ensures JoinsAs(store, genesis, known, if ignoreCheckpoint then None else checkpoint, fetch, gathered, r)
      ensures JoinMarks(old(bad), incoming, r, bad) && r != Err(LinkedToBad) && r != Err(BeaconOrder)
    {
      r := Connect(gathered, incoming, known, ignoreCheckpoint, headerOf);
      if r.Ok? {
        GivesUpIff(store, known, if ignoreCheckpoint then None else checkpoint, fetch, r.value, |gathered|);
      }
    }

    /** Drops the head itself from the bottom, which never empties the list. */
    method Trim(list: seq<TipSet>, incoming: TipSet, known: TipSet, ghost headerOf: Cid -> Header)
      returns (out: seq<TipSet>)
      requires Gathered(bad, headerOf, list, incoming) && Spans(headerOf, list, known.height + 1)
      requires !incoming.Equals(known)
      ensures Gathered(bad, headerOf, out, incoming) && !out[|out| - 1].Equals(known)
      ensures out == Trimmed(list, known)
      ensures out[|out| - 1].IsChildOf(known) || (out == list && Spans(headerOf, out, known.height + 1))
    {
      out := list;
      if list[|list| - 1].Equals(known) {
        assert list[|list| - 2].IsChildOf(list[|list| - 1]);
        out := list[..|list| - 1];
      }
    }

    /** Collects the chain from `incoming` down to where it joins the one ending in `known`. */
    method CollectHeaders(
      incoming: TipSet, known: TipSet, beacons: seq<seq<BeaconEntry>>, ignoreCheckpoint: bool,
      ghost headerOf: Cid -> Header)
      returns (r: Result<seq<TipSet>>, ghost m: nat)
      requires !incoming.Equals(known) && |beacons| == |incoming.key|
      requires StoreOk(headerOf, store) && ExchangeOk(headerOf, fetch)
      requires WellFormed(headerOf, incoming) && WellFormed(headerOf, known)
      requires AllShallow(bad)
      modifies this`bad
      ensures AllShallow(bad) && FairMarks(headerOf, old(bad), bad, incoming)
      ensures r.Ok? ==>
        && bad == old(bad) && (forall c :: c in incoming.parents ==> c !in bad)
        && Collected(
             bad, store, known, if ignoreCheckpoint then None else checkpoint, fetch, headerOf, incoming, r.value, m)
      ensures CollectsAs(
        old(bad), store, genesis, known, if ignoreCheckpoint then None else checkpoint, fetch, incoming, beacons, r)
      ensures CollectMarks(old(bad), store, known, fetch, incoming, r, bad)
    {
      m := 0;
      var err := CheckIncoming(incoming, known, beacons, headerOf);
      if err.Some? { return Err(err.value), m; }
      r, m := CollectBelow(incoming, known, ignoreCheckpoint, headerOf);
    }

    /** The checks of the new head itself: its parents and its beacon entries. */
    method CheckIncoming(
      incoming: TipSet, ghost known: TipSet, beacons: seq<seq<BeaconEntry>>, ghost headerOf: Cid -> Header)
      returns (err: Option<SyncError>)
      requires |beacons| == |incoming.key| > 0 && WellFormed(headerOf, incoming) && AllShallow(bad)
      modifies this`bad
      ensures AllShallow(bad) && FairMarks(headerOf, old(bad), bad, incoming) && (err.None? ==> bad == old(bad))
      ensures err == if HasBad(old(bad), incoming.parents) then Some(LinkedToBad) else BeaconFault(beacons)
      ensures err.Some? ==> CollectMarks(old(bad), store, known, fetch, incoming, Err(err.value), bad)
    {
      var culprit := FirstBad(incoming.parents);
      if culprit.Some? {
        BlameIncoming(incoming, culprit.value, headerOf);
        return Some(LinkedToBad);
      }
      err := CheckBeacons(incoming, beacons);
    }

    /** The walk and the join, once the new head itself is found in order. */
    method CollectBelow(incoming: TipSet, known: TipSet, ignoreCheckpoint: bool, ghost headerOf: Cid -> Header)
      returns (r: Result<seq<TipSet>>, ghost m: nat)
      requires !incoming.Equals(known) && StoreOk(headerOf, store) && ExchangeOk(headerOf, fetch)
      requires WellFormed(headerOf, incoming) && WellFormed(headerOf, known) && AllShallow(bad)
      modifies this`bad
      ensures AllShallow(bad) && FairMarks(headerOf, old(bad), bad, incoming)
      ensures r.Ok? ==>
        && bad == old(bad)
        && Collected(
             bad, store, known, if ignoreCheckpoint then None else checkpoint, fetch, headerOf, incoming, r.value, m)
      ensures WalksAs(
        old(bad), store, genesis, known, if ignoreCheckpoint then None else checkpoint, fetch, incoming, r)
      ensures r != Err(BeaconOrder) && BelowMarks(old(bad), store, fetch, known, incoming, r, bad)
    {
      m := 0;
      var got := Gather(incoming, known, headerOf);
      WalkErrors(old(bad), store, fetch, [incoming], known.height + 1);
      if got.Err? {
        return got, m;
      }
      var blockSet := Trim(got.value, incoming, known, headerOf);
      m := |blockSet|;
      r := Join(blockSet, incoming, known, ignoreCheckpoint, headerOf);
    }
  }

  /** The code at the smallest case: with the head checkpointed, its sibling is accepted. */
  method AcceptSibling() returns (syncer: Syncer, known: TipSet, sibling: TipSet, r: Result<seq<TipSet>>)
    ensures syncer.checkpoint == Some(known) && r == Ok([sibling])
    ensures GivesUp(syncer.store, known, syncer.checkpoint, sibling)
  {
    var a, b, c := Cid(1), Cid(2), Cid(3);
    var parent := TipSet([a], [], 1, 0);
    known, sibling := TipSet([b], [a], 2, 1), TipSet([c], [a], 2, 1);
    var none := (k: Key, n: nat) => None;
    syncer := new Syncer(map[[a] := parent], parent, Some(known), none);
    ghost var headerOf := (x: Cid) => if x == a then Header(1, []) else Header(2, [a]);
    ghost var m;
    r, m := syncer.CollectHeaders(sibling, known, [[]], false, headerOf);
    SiblingGivesUpCheckpoint(none, parent, known, sibling);
  }

  /** What the identifiers of the case of a repeated parent stand for. */
  ghost function RepeatedHeaders(a: Cid, b: Cid, c: Cid, d: Cid): Cid -> Header {
    (x: Cid) => if x == d then Header(2, [a, a]) else if x == c then Header(2, [a, b]) else Header(1, [])
  }

  lemma RepeatedIsWellFormed(a: Cid, b: Cid, c: Cid, d: Cid)
    requires a != b && a != c && a != d && b != c && b != d && c != d
    ensures var headerOf, shared := RepeatedHeaders(a, b, c, d), TipSet([a, b], [], 1, 0);
      && StoreOk(headerOf, map[[a, b] := shared]) && ExchangeOk(headerOf, OnlyKnows(shared))
      && WellFormed(headerOf, TipSet([d], [a, a], 2, 1)) && WellFormed(headerOf, TipSet([c], [a, b], 2, 1))
  {
    var headerOf, shared := RepeatedHeaders(a, b, c, d), TipSet([a, b], [], 1, 0);
    assert WellFormed(headerOf, shared);
  }

  /** The code at the case of a repeated parent: a list is collected that is not linked. */
  method CollectUnlinked() returns (syncer: Syncer, r: Result<seq<TipSet>>)
    ensures r.Ok? && |r.value| == 2 && !Chained(r.value)
  {
    var a, b, c, d := Cid(1), Cid(2), Cid(3), Cid(4);
    var shared, known := TipSet([a, b], [], 1, 0), TipSet([c], [a, b], 2, 1);
    var base := TipSet([d], [a, a], 2, 1);
    var store: ChainStore := map[[a, b] := shared];
    syncer := new Syncer(store, shared, None, OnlyKnows(shared));
    RepeatedIsWellFormed(a, b, c, d);
    ghost var m;
    r, m := syncer.CollectHeaders(base, known, [[]], false, RepeatedHeaders(a, b, c, d));
    RepeatedParentIsCollected(a, b, c, d, 1, r);
    RepeatedParentBreaksLink(a, b, c, d, 1);
  }
}
