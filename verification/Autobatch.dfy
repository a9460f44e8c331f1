/** The autobatching blockstore as a concurrent machine. `Put` runs under the state
    lock and is one step. A flush holds the flush lock and is split at the points
    where the state lock is taken or the backing store is called; a `Get` is split at
    its two backing reads and its one locked look-up. Steps interleave freely, and a
    batch write to the backing store may stop at any block and fail. */
module Autobatch {
  import opened Tipsets

  datatype Block = Block(cid: Cid, data: seq<nat>)

  /** The same blocks twice: in order for flushing, by identifier for reading. */
  datatype Batch = Batch(list: seq<Block>, blocks: map<Cid, Block>)

  const EMPTY_BATCH := Batch([], map[])

  datatype Store = Store(
    addedCids: set<Cid>,
    buffered: Batch,
    flushing: Batch,
    flushErr: bool,
    backing: map<Cid, Block>,
    bufferSize: nat,
    flushSignal: bool)

  type Tid = nat

  /** Where the holder of the flush lock stands in `doFlush`. */
  datatype FlushPoint =
    | Retrying   // writing the batch that failed last time
    | Taking     // about to take the buffered batch
    | Writing    // writing the batch just taken
    | Clearing   // about to drop the batch just written

  /** `before` are the identifiers put before the flush began. */
  datatype Flusher = Flusher(retryOnly: bool, at: FlushPoint, before: set<Cid>)

  /** `promised` says that a put of the identifier had returned when the read began. */
  datatype Reader =
    | FirstRead(cid: Cid, promised: bool)
    | LookUp(cid: Cid, promised: bool)
    | SecondRead(cid: Cid, promised: bool)
    | Answered(cid: Cid, promised: bool, found: Option<Block>)

  /** `puts` lists the first-time puts, `taken` the batches taken so far. */
  datatype System = System(
    store: Store,
    flusher: Option<Flusher>,
    readers: map<Tid, Reader>,
    puts: seq<Block>,
    taken: seq<seq<Block>>)

  datatype Event =
    | Put(block: Block)
    | BeginFlush(retryOnly: bool)
    | WriteBlock(index: nat)
    | EndWrite(ok: bool)
    | TakeBatch
    | ClearBatch
    | ReceiveSignal
    | BeginGet(tid: Tid, cid: Cid)
    | StepGet(tid: Tid)

  function Initial(backing: map<Cid, Block>): System {
    System(Store({}, EMPTY_BATCH, EMPTY_BATCH, false, backing, 0, false), None, map[], [], [])
  }

  // ---------------------------------------------------------------- critical sections

  function PutBlock(s: Store, b: Block, capacity: int): Store {
    if b.cid in s.addedCids then s
    else
      var size := s.bufferSize + |b.data|;
      s.(addedCids := s.addedCids + {b.cid},
         buffered := Batch(s.buffered.list + [b], s.buffered.blocks[b.cid := b]),
         bufferSize := size,
         flushSignal := s.flushSignal || size >= capacity)
  }

  function Take(s: Store): Store {
    s.(flushing := s.buffered, buffered := EMPTY_BATCH)
  }

  function Clear(s: Store): Store {
    s.(flushing := EMPTY_BATCH)
  }

  function WriteOne(s: Store, b: Block): Store {
    s.(backing := s.backing[b.cid := b])
  }

  predicate Holds(m: map<Cid, Block>, bs: seq<Block>) {
    forall i :: 0 <= i < |bs| ==> bs[i].cid in m
  }

  function Find(m: map<Cid, Block>, c: Cid): Option<Block> {
    if c in m then Some(m[c]) else None
  }

  /** The look-up under the state lock: the batch being flushed, then the buffer. */
  function FindPending(s: Store, c: Cid): Option<Block> {
    if c in s.flushing.blocks then Some(s.flushing.blocks[c]) else Find(s.buffered.blocks, c)
  }

  // ---------------------------------------------------------------- steps

  predicate InWrite(sys: System) {
    sys.flusher.Some? && sys.flusher.value.at in {Retrying, Writing}
  }

  predicate Enabled(sys: System, e: Event) {
    match e
    case Put(_) => true
    case BeginFlush(_) => sys.flusher == None
    case WriteBlock(i) => InWrite(sys) && i < |sys.store.flushing.list|
    // a batch write reports success only when every block is in the store
    case EndWrite(ok) => InWrite(sys) && (ok ==> Holds(sys.store.backing, sys.store.flushing.list))
    case TakeBatch => sys.flusher.Some? && sys.flusher.value.at == Taking
    case ClearBatch => sys.flusher.Some? && sys.flusher.value.at == Clearing
    case ReceiveSignal => sys.store.flushSignal
    case BeginGet(t, _) => t in sys.readers ==> sys.readers[t].Answered?
    case StepGet(t) => t in sys.readers && !sys.readers[t].Answered?
  }

  function StepReader(s: Store, r: Reader): Reader
    requires !r.Answered?
  {
    match r
    case FirstRead(c, p) => if c in s.backing then Answered(c, p, Some(s.backing[c])) else LookUp(c, p)
    case LookUp(c, p) =>
      var hit := FindPending(s, c);
      if hit.Some? then Answered(c, p, hit) else SecondRead(c, p)
    case SecondRead(c, p) => Answered(c, p, Find(s.backing, c))
  }

  /** After a batch write: whether the flush goes on, and from where. */
  function AfterWrite(f: Flusher, ok: bool): Option<Flusher> {
    if !ok then None
    else if f.at == Writing then Some(f.(at := Clearing))
    else if f.retryOnly then None
    else Some(f.(at := Taking))
  }

  function Step(sys: System, e: Event, capacity: int): System
    requires Enabled(sys, e)
  {
    var s := sys.store;
    match e
    case Put(b) =>
      sys.(store := PutBlock(s, b, capacity), puts := if b.cid in s.addedCids then sys.puts else sys.puts + [b])
    case BeginFlush(retryOnly) =>
      if s.flushErr then sys.(flusher := Some(Flusher(retryOnly, Retrying, s.addedCids)))
      else if retryOnly then sys
      else sys.(flusher := Some(Flusher(retryOnly, Taking, s.addedCids)))
    case WriteBlock(i) => sys.(store := WriteOne(s, s.flushing.list[i]))
    case EndWrite(ok) => sys.(store := s.(flushErr := !ok), flusher := AfterWrite(sys.flusher.value, ok))
    case TakeBatch =>
      sys.(store := Take(s), flusher := Some(sys.flusher.value.(at := Writing)), taken := sys.taken + [s.buffered.list])
    case ClearBatch => sys.(store := Clear(s), flusher := None)
    case ReceiveSignal => sys.(store := s.(flushSignal := false))
    case BeginGet(t, c) => sys.(readers := sys.readers[t := FirstRead(c, c in s.addedCids)])
    case StepGet(t) => sys.(readers := sys.readers[t := StepReader(s, sys.readers[t])])
  }

  ghost predicate Run(initial: map<Cid, Block>, capacity: int, ss: seq<System>, es: seq<Event>) {
    && |ss| == |es| + 1
    && ss[0] == Initial(initial)
    && forall i :: 0 <= i < |es| ==> Enabled(ss[i], es[i]) && ss[i + 1] == Step(ss[i], es[i], capacity)
  }

  // ---------------------------------------------------------------- invariant

  function Flatten(bss: seq<seq<Block>>): seq<Block> {
    if bss == [] then [] else Flatten(bss[..|bss| - 1]) + bss[|bss| - 1]
  }

  /** The map of a batch holds exactly the blocks of its list. */
  ghost predicate Coherent(b: Batch) {
    && (forall i :: 0 <= i < |b.list| ==> b.list[i].cid in b.blocks && b.blocks[b.list[i].cid] == b.list[i])
    && (forall c :: c in b.blocks ==> b.blocks[c] in b.list && b.blocks[c].cid == c)
  }

  ghost predicate Present(s: Store, c: Cid) {
    c in s.backing || c in s.flushing.blocks || c in s.buffered.blocks
  }

  /** Every stored block came from the initial store or from a put, under its own identifier. */
  ghost predicate Genuine(initial: map<Cid, Block>, puts: seq<Block>, c: Cid, b: Block) {
    (b in puts && b.cid == c) || (c in initial && initial[c] == b)
  }

  ghost predicate FlushInv(s: Store, flusher: Option<Flusher>) {
    match flusher
    case None => !s.flushErr ==> Holds(s.backing, s.flushing.list)
    case Some(f) =>
      && f.before <= s.addedCids
      && match f.at
         case Retrying => s.flushErr
         case Taking => !s.flushErr && !f.retryOnly && Holds(s.backing, s.flushing.list)
         case Writing =>
           && !s.flushErr && !f.retryOnly
           && forall c :: c in f.before ==> c in s.backing || c in s.flushing.blocks
         case Clearing =>
           && !s.flushErr && !f.retryOnly && Holds(s.backing, s.flushing.list)
           && forall c :: c in f.before ==> c in s.backing
  }

  ghost predicate ReaderInv(initial: map<Cid, Block>, sys: System, r: Reader) {
    && (r.promised ==> r.cid in sys.store.addedCids)
    && (r.SecondRead? && r.promised ==> r.cid in sys.store.backing)
    && (r.Answered? && r.promised ==> r.found.Some?)
    && (r.Answered? && r.found.Some? ==> Genuine(initial, sys.puts, r.cid, r.found.value))
  }

  function TotalSize(bs: seq<Block>): nat {
    if bs == [] then 0 else TotalSize(bs[..|bs| - 1]) + |bs[|bs| - 1].data|
  }

  ghost predicate StoreInv(initial: map<Cid, Block>, sys: System) {
    var s := sys.store;
    && Coherent(s.buffered) && Coherent(s.flushing)
    && (forall c :: c in s.addedCids ==> Present(s, c))
    && (forall b :: b in s.buffered.list || b in s.flushing.list ==> b in sys.puts)
    && (forall c :: c in s.backing ==> Genuine(initial, sys.puts, c, s.backing[c]))
    && (forall b :: b in sys.puts ==> b.cid in s.addedCids)
  }

  ghost predicate Accounts(sys: System) {
    && Flatten(sys.taken) + sys.store.buffered.list == sys.puts
    && sys.store.bufferSize == TotalSize(sys.puts)
  }

  ghost predicate Inv(initial: map<Cid, Block>, sys: System) {
    && StoreInv(initial, sys)
    && Accounts(sys)
    && FlushInv(sys.store, sys.flusher)
    && forall t :: t in sys.readers ==> ReaderInv(initial, sys, sys.readers[t])
  }

  lemma AppendKeepsCoherent(bt: Batch, b: Block)
    requires Coherent(bt) && b.cid !in bt.blocks
    ensures Coherent(Batch(bt.list + [b], bt.blocks[b.cid := b]))
  {
  }

  lemma PutKeepsStore(initial: map<Cid, Block>, sys: System, b: Block, capacity: int)
    requires StoreInv(initial, sys) && b.cid !in sys.store.addedCids
    ensures StoreInv(initial, Step(sys, Put(b), capacity))
  {
    var s, s' := sys.store, Step(sys, Put(b), capacity).store;
    AppendKeepsCoherent(s.buffered, b);
    assert forall c :: Present(s, c) ==> Present(s', c);
  }

  lemma TotalSizeSnoc(bs: seq<Block>, b: Block)
    ensures TotalSize(bs + [b]) == TotalSize(bs) + |b.data|
  {
    assert (bs + [b])[..|bs|] == bs;
  }

  lemma FlattenSnoc(bss: seq<seq<Block>>, bs: seq<Block>)
    ensures Flatten(bss + [bs]) == Flatten(bss) + bs
  {
    assert (bss + [bs])[..|bss|] == bss;
  }

  lemma PutKeepsAccounts(sys: System, b: Block, capacity: int)
    requires Accounts(sys) && b.cid !in sys.store.addedCids
    ensures Accounts(Step(sys, Put(b), capacity))
  {
    var list := sys.store.buffered.list;
    TotalSizeSnoc(sys.puts, b);
    assert Flatten(sys.taken) + (list + [b]) == (Flatten(sys.taken) + list) + [b];
  }

  lemma PutKeeps(initial: map<Cid, Block>, sys: System, b: Block, capacity: int)
    requires Inv(initial, sys)
    ensures Inv(initial, Step(sys, Put(b), capacity))
  {
    var sys' := Step(sys, Put(b), capacity);
    if b.cid !in sys.store.addedCids {
      PutKeepsStore(initial, sys, b, capacity);
      PutKeepsAccounts(sys, b, capacity);
      forall t | t in sys.readers ensures ReaderInv(initial, sys', sys.readers[t]) {
        assert ReaderInv(initial, sys, sys.readers[t]);
      }
    }
  }

  lemma WriteKeeps(initial: map<Cid, Block>, sys: System, i: nat, capacity: int)
    requires Inv(initial, sys) && Enabled(sys, WriteBlock(i))
    ensures Inv(initial, Step(sys, WriteBlock(i), capacity))
  {
    var s, s' := sys.store, Step(sys, WriteBlock(i), capacity).store;
    assert s.flushing.list[i] in sys.puts;
    assert forall c :: Present(s, c) ==> Present(s', c);
  }

  /** Nothing that was there has gone, and nothing was added. */
  ghost predicate SameBlocks(s: Store, s': Store) {
    s'.addedCids == s.addedCids && s'.buffered == s.buffered && s'.flushing == s.flushing && s'.backing == s.backing
  }

  lemma SameBlocksKeep(initial: map<Cid, Block>, sys: System, sys': System)
    requires Inv(initial, sys) && SameBlocks(sys.store, sys'.store)
    requires sys'.puts == sys.puts && sys'.taken == sys.taken && sys'.readers == sys.readers
    requires sys'.store.bufferSize == sys.store.bufferSize && FlushInv(sys'.store, sys'.flusher)
    ensures Inv(initial, sys')
  {
    forall c | c in sys'.store.addedCids ensures Present(sys'.store, c) { assert Present(sys.store, c); }
    forall t | t in sys'.readers
      ensures ReaderInv(initial, sys', sys'.readers[t])
    {
      assert ReaderInv(initial, sys, sys.readers[t]);
    }
  }

  lemma FlushKeeps(initial: map<Cid, Block>, sys: System, e: Event, capacity: int)
    requires Inv(initial, sys) && Enabled(sys, e) && (e.BeginFlush? || e.EndWrite? || e.ReceiveSignal?)
    ensures Inv(initial, Step(sys, e, capacity))
  {
    var sys' := Step(sys, e, capacity);
    FlushMoves(sys, e, capacity);
    SameBlocksKeep(initial, sys, sys');
  }

  lemma FlushMoves(sys: System, e: Event, capacity: int)
    requires Coherent(sys.store.flushing) && FlushInv(sys.store, sys.flusher)
    requires Enabled(sys, e) && (e.BeginFlush? || e.EndWrite? || e.ReceiveSignal?)
    ensures FlushInv(Step(sys, e, capacity).store, Step(sys, e, capacity).flusher)
  {
    if e.EndWrite? && e.ok { FlushedIsStored(sys.store); }
  }

  lemma TakeKeeps(initial: map<Cid, Block>, sys: System, capacity: int)
    requires Inv(initial, sys) && Enabled(sys, TakeBatch)
    ensures Inv(initial, Step(sys, TakeBatch, capacity))
  {
    var s, sys' := sys.store, Step(sys, TakeBatch, capacity);
    FlushedIsStored(s);
    FlattenSnoc(sys.taken, s.buffered.list);
    assert Flatten(sys'.taken) + [] == sys.puts;
    forall c | c in s.addedCids ensures Present(sys'.store, c) { assert Present(s, c); }
    forall t | t in sys'.readers
      ensures ReaderInv(initial, sys', sys'.readers[t])
    {
      assert ReaderInv(initial, sys, sys.readers[t]);
    }
  }

  lemma ClearKeeps(initial: map<Cid, Block>, sys: System, capacity: int)
    requires Inv(initial, sys) && Enabled(sys, ClearBatch)
    ensures Inv(initial, Step(sys, ClearBatch, capacity))
  {
    var s, sys' := sys.store, Step(sys, ClearBatch, capacity);
    FlushedIsStored(s);
    forall c | c in s.addedCids ensures Present(sys'.store, c) { assert Present(s, c); }
    forall t | t in sys'.readers
      ensures ReaderInv(initial, sys', sys'.readers[t])
    {
      assert ReaderInv(initial, sys, sys.readers[t]);
    }
  }

  lemma FlushedIsStored(s: Store)
    requires Coherent(s.flushing) && Holds(s.backing, s.flushing.list)
    ensures forall c :: c in s.flushing.blocks ==> c in s.backing
  {
  }

  lemma GetKeeps(initial: map<Cid, Block>, sys: System, e: Event, capacity: int)
    requires Inv(initial, sys) && Enabled(sys, e) && (e.BeginGet? || e.StepGet?)
    ensures Inv(initial, Step(sys, e, capacity))
  {
    if e.StepGet? {
      var r := sys.readers[e.tid];
      assert r.LookUp? && r.promised ==> Present(sys.store, r.cid);
    }
  }

  lemma StepKeeps(initial: map<Cid, Block>, sys: System, e: Event, capacity: int)
    requires Inv(initial, sys) && Enabled(sys, e)
    ensures Inv(initial, Step(sys, e, capacity))
  {
    match e
    case Put(b) => PutKeeps(initial, sys, b, capacity);
    case BeginFlush(_) => FlushKeeps(initial, sys, e, capacity);
    case WriteBlock(i) => WriteKeeps(initial, sys, i, capacity);
    case EndWrite(_) => FlushKeeps(initial, sys, e, capacity);
    case TakeBatch => TakeKeeps(initial, sys, capacity);
    case ClearBatch => ClearKeeps(initial, sys, capacity);
    case ReceiveSignal => FlushKeeps(initial, sys, e, capacity);
    case BeginGet(_, _) => GetKeeps(initial, sys, e, capacity);
    case StepGet(_) => GetKeeps(initial, sys, e, capacity);
  }

  lemma {:induction false} Reachable(initial: map<Cid, Block>, capacity: int, ss: seq<System>, es: seq<Event>, n: nat)
    requires Run(initial, capacity, ss, es) && n < |ss|
    ensures Inv(initial, ss[n])
  {
    if n > 0 {
      Reachable(initial, capacity, ss, es, n - 1);
      StepKeeps(initial, ss[n - 1], es[n - 1], capacity);
    }
  }

  // ---------------------------------------------------------------- what callers may rely on

  lemma {:induction false} PutStaysAdded(
    initial: map<Cid, Block>, capacity: int, ss: seq<System>, es: seq<Event>, h: nat, n: nat)
    requires Run(initial, capacity, ss, es) && h < n < |ss| && es[h].Put?
    ensures es[h].block.cid in ss[n].store.addedCids
  {
    if h < n - 1 {
      PutStaysAdded(initial, capacity, ss, es, h, n - 1);
    }
    assert ss[n] == Step(ss[n - 1], es[n - 1], capacity);
  }

  /** No other read is begun by thread `t` strictly between the two positions. */
  ghost predicate SameGet(es: seq<Event>, t: Tid, i: nat, n: nat) {
    forall k :: i < k < n < |es| + 1 && es[k].BeginGet? ==> es[k].tid != t
  }

  lemma {:induction false} GetRemembers(
    initial: map<Cid, Block>, capacity: int, ss: seq<System>, es: seq<Event>, t: Tid, c: Cid, i: nat, n: nat)
    requires Run(initial, capacity, ss, es) && i < n < |ss| && es[i] == BeginGet(t, c) && SameGet(es, t, i, n)
    ensures t in ss[n].readers
    ensures ss[n].readers[t].cid == c && ss[n].readers[t].promised == (c in ss[i].store.addedCids)
  {
    if i < n - 1 {
      GetRemembers(initial, capacity, ss, es, t, c, i, n - 1);
    }
    assert Enabled(ss[n - 1], es[n - 1]) && ss[n] == Step(ss[n - 1], es[n - 1], capacity);
  }

  /** A `Get` begun after a `Put` of the identifier has returned finds a block, whatever
      flushes, failures and retries run beside it; and any block a `Get` finds was put
      under that identifier or was in the backing store from the start. */
  lemma GetAfterPut(
    initial: map<Cid, Block>, capacity: int, ss: seq<System>, es: seq<Event>, t: Tid, c: Cid, i: nat, n: nat)
    requires Run(initial, capacity, ss, es) && i < n < |ss| && es[i] == BeginGet(t, c) && SameGet(es, t, i, n)
    ensures t in ss[n].readers
    ensures (exists h :: 0 <= h < i && es[h].Put? && es[h].block.cid == c) && ss[n].readers[t].Answered? ==>
      ss[n].readers[t].found.Some?
    ensures ss[n].readers[t].Answered? && ss[n].readers[t].found.Some? ==>
      Genuine(initial, ss[n].puts, c, ss[n].readers[t].found.value)
  {
    GetRemembers(initial, capacity, ss, es, t, c, i, n);
    Reachable(initial, capacity, ss, es, n);
    assert ReaderInv(initial, ss[n], ss[n].readers[t]);
    if h :| 0 <= h < i && es[h].Put? && es[h].block.cid == c {
      PutStaysAdded(initial, capacity, ss, es, h, i);
    }
  }

  /** Nothing that can be found is lost, and the backing store only grows. */
  lemma StepKeepsPresent(initial: map<Cid, Block>, sys: System, e: Event, capacity: int, c: Cid)
    requires Inv(initial, sys) && Enabled(sys, e)
    ensures Present(sys.store, c) ==> Present(Step(sys, e, capacity).store, c)
    ensures c in sys.store.backing ==> c in Step(sys, e, capacity).store.backing
  {
    if e.TakeBatch? || e.ClearBatch? { FlushedIsStored(sys.store); }
  }

  /** The block is held under the identifier in one of the three places. */
  ghost predicate Held(s: Store, c: Cid, b: Block) {
    Find(s.backing, c) == Some(b) || Find(s.flushing.blocks, c) == Some(b) || Find(s.buffered.blocks, c) == Some(b)
  }

  /** What a `Get` of `c` that began in state `i` knows: if the identifier could be found then, it still
      can be, and the second read will find it. */
  ghost predicate GetFinds(ss: seq<System>, t: Tid, c: Cid, i: nat, n: nat)
    requires i < n < |ss| && t in ss[n].readers
  {
    var r := ss[n].readers[t];
    && (Present(ss[i].store, c) ==>
        && Present(ss[n].store, c)
        && (r.SecondRead? ==> c in ss[n].store.backing)
        && (r.Answered? ==> r.found.Some?))
    && (c in ss[i].store.backing ==> c in ss[n].store.backing && (r.FirstRead? || r.Answered?))
  }

  /** What it found was held while it ran. */
  ghost predicate FoundWasHeld(ss: seq<System>, t: Tid, c: Cid, i: nat, n: nat)
    requires i < n < |ss| && t in ss[n].readers
  {
    var r := ss[n].readers[t];
    r.Answered? && r.found.Some? ==> exists k :: i < k < n && Held(ss[k].store, c, r.found.value)
  }

  lemma FindsStep(
    initial: map<Cid, Block>, capacity: int, ss: seq<System>, es: seq<Event>, t: Tid, c: Cid, i: nat, n: nat)
    requires Run(initial, capacity, ss, es) && i < n < |es| && Inv(initial, ss[n])
    requires t in ss[n].readers && ss[n].readers[t].cid == c && GetFinds(ss, t, c, i, n)
    requires es[n].BeginGet? ==> es[n].tid != t
    ensures t in ss[n + 1].readers && GetFinds(ss, t, c, i, n + 1)
  {
    assert Enabled(ss[n], es[n]) && ss[n + 1] == Step(ss[n], es[n], capacity);
    StepKeepsPresent(initial, ss[n], es[n], capacity, c);
  }

  lemma HeldStep(
    initial: map<Cid, Block>, capacity: int, ss: seq<System>, es: seq<Event>, t: Tid, c: Cid, i: nat, n: nat)
    requires Run(initial, capacity, ss, es) && i < n < |es|
    requires t in ss[n].readers && ss[n].readers[t].cid == c && FoundWasHeld(ss, t, c, i, n)
    requires es[n].BeginGet? ==> es[n].tid != t
    ensures t in ss[n + 1].readers && FoundWasHeld(ss, t, c, i, n + 1)
  {
    assert Enabled(ss[n], es[n]) && ss[n + 1] == Step(ss[n], es[n], capacity);
    var r, r' := ss[n].readers[t], ss[n + 1].readers[t];
    if r'.Answered? && r'.found.Some? && !r.Answered? { assert Held(ss[n].store, c, r'.found.value); }
  }

  lemma GetStep(
    initial: map<Cid, Block>, capacity: int, ss: seq<System>, es: seq<Event>, t: Tid, c: Cid, i: nat, n: nat)
    requires Run(initial, capacity, ss, es) && i < n < |es| && es[i] == BeginGet(t, c) && SameGet(es, t, i, n + 1)
    requires t in ss[n].readers && GetFinds(ss, t, c, i, n) && FoundWasHeld(ss, t, c, i, n)
    ensures t in ss[n + 1].readers && GetFinds(ss, t, c, i, n + 1) && FoundWasHeld(ss, t, c, i, n + 1)
  {
    GetRemembers(initial, capacity, ss, es, t, c, i, n);
    Reachable(initial, capacity, ss, es, n);
    FindsStep(initial, capacity, ss, es, t, c, i, n);
    HeldStep(initial, capacity, ss, es, t, c, i, n);
  }

  /** A `Get` finds the identifier if it was in the backing store or in a batch when it began, however it
      got there, and what it finds was held under the identifier at some moment while it ran. So one that
      reports not-found began when there was nothing to find. */
  lemma {:induction false} GetFindsPresent(
    initial: map<Cid, Block>, capacity: int, ss: seq<System>, es: seq<Event>, t: Tid, c: Cid, i: nat, n: nat)
    requires Run(initial, capacity, ss, es) && i < n < |ss| && es[i] == BeginGet(t, c) && SameGet(es, t, i, n)
    ensures t in ss[n].readers && GetFinds(ss, t, c, i, n) && FoundWasHeld(ss, t, c, i, n)
  {
    if i < n - 1 {
      GetFindsPresent(initial, capacity, ss, es, t, c, i, n - 1);
      GetStep(initial, capacity, ss, es, t, c, i, n - 1);
    } else {
      GetBegins(initial, capacity, ss, es, t, c, i);
    }
  }

  lemma GetBegins(initial: map<Cid, Block>, capacity: int, ss: seq<System>, es: seq<Event>, t: Tid, c: Cid, i: nat)
    requires Run(initial, capacity, ss, es) && i < |es| && es[i] == BeginGet(t, c)
    ensures t in ss[i + 1].readers && GetFinds(ss, t, c, i, i + 1) && FoundWasHeld(ss, t, c, i, i + 1)
  {
    assert ss[i + 1] == Step(ss[i], es[i], capacity);
    assert ss[i + 1].readers[t].FirstRead? && ss[i + 1].store == ss[i].store;
  }

  /** The steps a `Get` still has to take at most. */
  function StepsLeft(r: Reader): nat {
    match r
    case FirstRead(_, _) => 3
    case LookUp(_, _) => 2
    case SecondRead(_, _) => 1
    case Answered(_, _, _) => 0
  }

  /** Every step brings a `Get` nearer to its answer, and undisturbed it answers with what the three places hold:
      the backing store's block before a pending one. */
  lemma GetEnds(s: Store, r: Reader)
    requires !r.Answered?
    ensures StepsLeft(StepReader(s, r)) < StepsLeft(r) && StepReader(s, r).cid == r.cid
    ensures r.FirstRead? ==>
      var r1 := StepReader(s, r);
      var r2 := if r1.Answered? then r1 else StepReader(s, r1);
      var r3 := if r2.Answered? then r2 else StepReader(s, r2);
      && r3.Answered?
      && (r3.found == None <==> !Present(s, r.cid))
      && (r3.found.Some? ==> Held(s, r.cid, r3.found.value))
      && (r.cid in s.backing ==> r3.found == Some(s.backing[r.cid]))
  {
  }

  /** A flush is over in a step exactly when it returns there, it returns the error it leaves, and one that does more
      than retry succeeds only by dropping its batch. */
  lemma FlushReturns(sys: System, e: Event, capacity: int)
    requires Enabled(sys, e)
    ensures var sys' := Step(sys, e, capacity);
      && (Returned(sys, e).Some? <==> sys'.flusher == None && (sys.flusher.Some? || e.BeginFlush?))
      && (e.EndWrite? && Returned(sys, e).Some? ==> Returned(sys, e).value == sys'.store.flushErr)
      && (Returned(sys, e) == Some(false) && sys.flusher.Some? && !sys.flusher.value.retryOnly ==>
          sys'.store.flushing == EMPTY_BATCH)
  {
  }

  /** What a flush returns in this step, if it returns: whether it failed. */
  function Returned(sys: System, e: Event): Option<bool>
    requires Enabled(sys, e)
  {
    match e
    case BeginFlush(retryOnly) => if !sys.store.flushErr && retryOnly then Some(false) else None
    case EndWrite(ok) => if AfterWrite(sys.flusher.value, ok) == None then Some(!ok) else None
    case ClearBatch => Some(false)
    case _ => None
  }

  lemma {:induction false} FlushRemembers(
    initial: map<Cid, Block>, capacity: int, ss: seq<System>, es: seq<Event>, i: nat, n: nat)
    requires Run(initial, capacity, ss, es) && i < n < |ss| && es[i] == BeginFlush(false)
    requires forall k :: i < k < n ==> !es[k].BeginFlush?
    ensures ss[n].flusher.Some? ==>
      !ss[n].flusher.value.retryOnly && ss[n].flusher.value.before == ss[i].store.addedCids
  {
    if i < n - 1 {
      FlushRemembers(initial, capacity, ss, es, i, n - 1);
    }
    assert Enabled(ss[n - 1], es[n - 1]) && ss[n] == Step(ss[n - 1], es[n - 1], capacity);
  }

  /** When `Flush` returns without error, every block put before it is in the backing store. */
  lemma FlushStoresEarlierPuts(
    initial: map<Cid, Block>, capacity: int, ss: seq<System>, es: seq<Event>, h: nat, i: nat, n: nat)
    requires Run(initial, capacity, ss, es) && h < i < n < |es|
    requires es[h].Put? && es[i] == BeginFlush(false)
    requires forall k :: i < k <= n ==> !es[k].BeginFlush?
    requires Enabled(ss[n], es[n]) && Returned(ss[n], es[n]) == Some(false)
    ensures es[h].block.cid in ss[n + 1].store.backing
  {
    PutStaysAdded(initial, capacity, ss, es, h, i);
    FlushRemembers(initial, capacity, ss, es, i, n);
    Reachable(initial, capacity, ss, es, n);
    assert ss[n + 1] == Step(ss[n], es[n], capacity);
  }

  /** Conservation: the batches taken so far and the buffer together are the first-time
      puts in order, and a batch is replaced or dropped only when it is all stored. */
  lemma BatchesAreConserved(initial: map<Cid, Block>, capacity: int, ss: seq<System>, es: seq<Event>, n: nat)
    requires Run(initial, capacity, ss, es) && n < |es|
    ensures Flatten(ss[n].taken) + ss[n].store.buffered.list == ss[n].puts
    ensures ss[n + 1].store.flushing != ss[n].store.flushing ==> Holds(ss[n].store.backing, ss[n].store.flushing.list)
  {
    Reachable(initial, capacity, ss, es, n);
    assert Enabled(ss[n], es[n]) && ss[n + 1] == Step(ss[n], es[n], capacity);
  }

  /** Flushing never gives buffer space back: a first-time put asks for a flush exactly when all
      bytes ever put reach the capacity, whatever has been flushed since. */
  lemma PutSignalsIff(initial: map<Cid, Block>, capacity: int, ss: seq<System>, es: seq<Event>, n: nat)
    requires Run(initial, capacity, ss, es) && n < |es| && es[n].Put? && es[n].block.cid !in ss[n].store.addedCids
    ensures ss[n + 1].store.flushSignal <==>
      ss[n].store.flushSignal || TotalSize(ss[n].puts) + |es[n].block.data| >= capacity
  {
    Reachable(initial, capacity, ss, es, n);
    assert ss[n + 1] == Step(ss[n], es[n], capacity);
  }

  lemma OneMore(initial: map<Cid, Block>, capacity: int, ss: seq<System>, es: seq<Event>, s: System, e: Event)
    returns (s': System, ss': seq<System>, es': seq<Event>)
    requires Run(initial, capacity, ss, es) && s == ss[|es|] && Enabled(s, e)
    ensures s' == Step(s, e, capacity) && ss' == ss + [s'] && es' == es + [e] && Run(initial, capacity, ss', es')
  {
    s', es' := Step(s, e, capacity), es + [e];
    ss' := ss + [s'];
  }

  /** Two bytes put and flushed fill a buffer of two for good: the next byte signals at once. */
  lemma EmptyBufferSignals(c: Cid, d: Cid) returns (ss: seq<System>, es: seq<Event>, n: nat)
    requires c != d
    ensures Run(map[], 2, ss, es) && n + 1 == |es| && es[n] == Put(Block(d, [0]))
    ensures ss[n].store.buffered == ss[n].store.flushing == EMPTY_BATCH && !ss[n].store.flushSignal
    ensures ss[n + 1].store.flushSignal
  {
    var s := Initial(map[]);
    ss, es := [s], [];
    s, ss, es := OneMore(map[], 2, ss, es, s, Put(Block(c, [0, 0])));
    s, ss, es := OneMore(map[], 2, ss, es, s, ReceiveSignal);
    s, ss, es := OneMore(map[], 2, ss, es, s, BeginFlush(false));
    s, ss, es := OneMore(map[], 2, ss, es, s, TakeBatch);
    s, ss, es := OneMore(map[], 2, ss, es, s, WriteBlock(0));
    s, ss, es := OneMore(map[], 2, ss, es, s, EndWrite(true));
    s, ss, es := OneMore(map[], 2, ss, es, s, ClearBatch);
    n := |es|;
    s, ss, es := OneMore(map[], 2, ss, es, s, Put(Block(d, [0])));
  }
}
