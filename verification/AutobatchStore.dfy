/** The autobatching blockstore as an object. The sections run under the state lock
    are the machine's own transition functions; a flush here runs without interference. */
module AutobatchStore {
  import opened Tipsets
  import opened Autobatch

  /** Nothing put is lost, and a batch that needs no retry is stored. */
  ghost predicate Sound(s: Store) {
    && Coherent(s.buffered) && Coherent(s.flushing)
    && (forall c :: c in s.addedCids ==> Present(s, c))
    && (forall c :: c in s.buffered.blocks ==> c in s.addedCids)
    && FlushInv(s, None)
  }

  lemma PutKeepsSound(s: Store, b: Block, capacity: int)
    requires Sound(s)
    ensures Sound(PutBlock(s, b, capacity))
  {
    var s' := PutBlock(s, b, capacity);
    if b.cid !in s.addedCids {
      AppendKeepsCoherent(s.buffered, b);
      forall c | c in s'.addedCids ensures Present(s', c) {
        if c != b.cid { assert Present(s, c); }
      }
    }
  }

  /** The machine's writes of the first `n` blocks of the batch being flushed, one after the other. */
  ghost function WriteFirst(s: Store, n: nat): Store
    requires n <= |s.flushing.list|
  {
    if n == 0 then s else WriteOne(WriteFirst(s, n - 1), s.flushing.list[n - 1])
  }

  /** They change the backing store only, lose nothing from it and store what they write. */
  lemma {:induction false} WriteFirstWrites(s: Store, n: nat)
    requires n <= |s.flushing.list|
    ensures WriteFirst(s, n) == s.(backing := WriteFirst(s, n).backing)
    ensures s.backing.Keys <= WriteFirst(s, n).backing.Keys && Holds(WriteFirst(s, n).backing, s.flushing.list[..n])
  {
    if n > 0 {
      WriteFirstWrites(s, n - 1);
      assert s.flushing.list[..n] == s.flushing.list[..n - 1] + [s.flushing.list[n - 1]];
    }
  }

  /** A whole batch written is the batch's map laid over the backing store. */
  lemma WriteAllStores(s: Store)
    requires Coherent(s.flushing)
    ensures WriteFirst(s, |s.flushing.list|).backing == s.backing + s.flushing.blocks
  {
    var n := |s.flushing.list|;
    forall c ensures Find(WriteFirst(s, n).backing, c) == Find(s.backing + s.flushing.blocks, c) {
      WrittenAt(s, n, c);
      if c in s.flushing.blocks {
        var i :| 0 <= i < n && s.flushing.list[i] == s.flushing.blocks[c];
      }
    }
    SameFinds(WriteFirst(s, n).backing, s.backing + s.flushing.blocks);
  }

  lemma SameFinds(m: map<Cid, Block>, m': map<Cid, Block>)
    requires forall c :: Find(m, c) == Find(m', c)
    ensures m == m'
  {
    forall c ensures c in m <==> c in m' { assert Find(m, c) == Find(m', c); }
    forall c | c in m ensures m[c] == m'[c] { assert Find(m, c) == Find(m', c); }
  }

  lemma {:induction false} WrittenAt(s: Store, n: nat, c: Cid)
    requires n <= |s.flushing.list| && Coherent(s.flushing)
    ensures Find(WriteFirst(s, n).backing, c) ==
      if exists i :: 0 <= i < n && s.flushing.list[i].cid == c then Some(s.flushing.blocks[c]) else Find(s.backing, c)
  {
    if n > 0 { WrittenAt(s, n - 1, c); }
  }

  /** A batch write that reports what it did leaves the store sound, whatever it wrote. */
  lemma WriteKeepsSound(s: Store, backing: map<Cid, Block>, err: bool)
    requires Sound(s) && s.backing.Keys <= backing.Keys && (!err ==> Holds(backing, s.flushing.list))
    ensures Sound(s.(backing := backing, flushErr := err))
  {
    forall c | c in s.addedCids ensures Present(s.(backing := backing, flushErr := err), c) { assert Present(s, c); }
  }

  /** A batch may be taken once the one before it is stored, if it counts as failed until written. */
  lemma TakeKeepsSound(s: Store)
    requires Sound(s) && !s.flushErr
    ensures Sound(Take(s).(flushErr := true))
  {
    FlushedIsStored(s);
    forall c | c in s.addedCids ensures Present(Take(s), c) { assert Present(s, c); }
  }

  lemma ClearKeepsSound(s: Store)
    requires Sound(s) && !s.flushErr
    ensures Sound(Clear(s))
    ensures s.buffered == EMPTY_BATCH ==> forall c :: c in s.addedCids ==> c in s.backing
  {
    FlushedIsStored(s);
    forall c | c in s.addedCids
      ensures Present(Clear(s), c) && (s.buffered == EMPTY_BATCH ==> c in s.backing)
    {
      assert Present(s, c);
    }
  }

  class AutobatchBlockstore {
    const bufferCapacity: int
    var addedCids: set<Cid>
    var bufferedList: seq<Block>
    var bufferedMap: map<Cid, Block>
    var flushingList: seq<Block>
    var flushingMap: map<Cid, Block>
    var flushErr: bool
    var backing: map<Cid, Block>
    var bufferSize: nat
    var flushCh: bool

    ghost function View(): Store
      reads this
    {
      Store(addedCids, Batch(bufferedList, bufferedMap), Batch(flushingList, flushingMap),
            flushErr, backing, bufferSize, flushCh)
    }

    ghost predicate Valid()
      reads this
    {
      Sound(View())
    }

    constructor (backing: map<Cid, Block>, bufferCapacity: int)
      ensures Valid() && View() == Initial(backing).store && this.bufferCapacity == bufferCapacity
    {
      this.bufferCapacity := bufferCapacity;
      this.backing := backing;
      addedCids, bufferedList, bufferedMap, flushingList, flushingMap := {}, [], map[], [], map[];
      flushErr, bufferSize, flushCh := false, 0, false;
    }

    method PutOne(blk: Block)
      requires Valid()
      modifies this
      ensures Valid() && View() == PutBlock(old(View()), blk, bufferCapacity)
    {
      ghost var s' := PutBlock(View(), blk, bufferCapacity);
      PutKeepsSound(View(), blk, bufferCapacity);
      if blk.cid !in addedCids {
        addedCids := addedCids + {blk.cid};
        bufferedList := bufferedList + [blk];
        bufferedMap := bufferedMap[blk.cid := blk];
        bufferSize := bufferSize + |blk.data|;
        if bufferSize >= bufferCapacity {
          flushCh := true;
        }
        assert View() == s';
      }
    }

    method PutMany(blks: seq<Block>)
      requires Valid()
      modifies this
      ensures Valid() && View() == PutAll(old(View()), blks, bufferCapacity)
    {
      for i := 0 to |blks|
        invariant Valid() && View() == PutAll(old(View()), blks[..i], bufferCapacity)
      {
        assert blks[..i + 1][..i] == blks[..i];
        PutOne(blks[i]);
      }
      assert blks[..|blks|] == blks;
    }

    method DoFlush(retryOnly: bool, retryBudget: nat, budget: nat) returns (err: bool)
      requires Valid()
      modifies this
      ensures Valid() && err == flushErr && addedCids == old(addedCids)
      ensures !err && !retryOnly ==> View().buffered == View().flushing == EMPTY_BATCH
      ensures !err && !retryOnly ==> forall c :: c in addedCids ==> c in backing
      ensures retryOnly ==> View().buffered == old(View()).buffered
      ensures err ==>
        || (View().buffered == old(View()).buffered && View().flushing == old(View()).flushing)
        || (View().buffered == EMPTY_BATCH && View().flushing == old(View()).buffered)
      ensures var again := old(flushErr) && retryBudget < old(|flushingList|);
        err <==> again || (!retryOnly && budget < old(|bufferedList|))
      ensures !err ==> backing == Flushed(old(View()), retryOnly)
    {
      WriteAllStores(View());
      if flushErr { Write(retryBudget); }
      if retryOnly || flushErr {
        return flushErr;
      }
      TakeBatch();
      WriteAllStores(View());
      Write(budget);
      if !flushErr { ClearBatch(); }
      return flushErr;
    }

    /** The section of a flush that takes the buffered batch: the machine's own step. */
    method TakeBatch()
      requires Valid() && !flushErr
      modifies this
      ensures View() == Take(old(View())) && Sound(View().(flushErr := true))
    {
      TakeKeepsSound(View());
      flushingList, flushingMap := bufferedList, bufferedMap;
      bufferedList, bufferedMap := [], map[];
    }

    /** The section of a flush that drops the batch once it is written: the machine's own step. */
    method ClearBatch()
      requires Valid() && !flushErr
      modifies this
      ensures Valid() && View() == Clear(old(View()))
      ensures bufferedList == [] && bufferedMap == map[] ==> forall c :: c in addedCids ==> c in backing
    {
      ClearKeepsSound(View());
      flushingList, flushingMap := [], map[];
    }

    /** Writes the batch being flushed, block by block, stopping with an error after `budget` of
        them, and notes whether that failed: the machine's writes and the end of the writing. */
    method Write(budget: nat)
      requires Sound(View().(flushErr := true))
      modifies this`backing, this`flushErr
      ensures Valid() && flushErr == (budget < |flushingList|)
      ensures View() ==
        WriteFirst(old(View()), if flushErr then budget else |flushingList|).(flushErr := budget < |flushingList|)
    {
      ghost var s := View();
      var n := if budget < |flushingList| then budget else |flushingList|;
      for i := 0 to n
        invariant View() == WriteFirst(s, i)
      {
        var b := flushingList[i];
        backing := backing[b.cid := b];
      }
      WriteFirstWrites(s, n);
      assert n == |flushingList| ==> flushingList[..n] == flushingList;
      flushErr := budget < |flushingList|;
      WriteKeepsSound(s.(flushErr := true), backing, flushErr);
    }

    method Flush(retryBudget: nat, budget: nat) returns (err: bool)
      requires Valid()
      modifies this
      ensures Valid() && addedCids == old(addedCids)
      ensures !err ==> forall c :: c in addedCids ==> c in backing
      ensures !err ==>
        View().buffered == View().flushing == EMPTY_BATCH && backing == Flushed(old(View()), false)
      ensures err <==> (old(flushErr) && retryBudget < old(|flushingList|)) || budget < old(|bufferedList|)
    {
      err := DoFlush(false, retryBudget, budget);
    }

    method BackingGet(c: Cid) returns (r: Option<Block>)
      ensures r == Find(backing, c)
    {
      r := if c in backing then Some(backing[c]) else None;
    }

    /** The section of `Get` run under the state lock. */
    method GetPending(c: Cid) returns (r: Option<Block>)
      ensures r == FindPending(View(), c)
    {
      if c in flushingMap { return Some(flushingMap[c]); }
      if c in bufferedMap { return Some(bufferedMap[c]); }
      return None;
    }

    method Get(c: Cid) returns (r: Option<Block>)
      requires Valid()
      ensures r == Visible(View(), c)
      ensures c in addedCids ==> r.Some?
    {
      r := BackingGet(c);
      if r == None {
        r := GetPending(c);
        if r == None {
          r := BackingGet(c);
        }
      }
      assert c in addedCids ==> Present(View(), c);
    }

    method Has(c: Cid) returns (r: bool)
      requires Valid()
      ensures r <==> Present(View(), c)
    {
      var got := Get(c);
      r := got.Some?;
    }

    method GetSize(c: Cid) returns (r: Option<nat>)
      requires Valid()
      ensures r == match Visible(View(), c) case None => None case Some(b) => Some(|b.data|)
    {
      var got := Get(c);
      r := if got.Some? then Some(|got.value.data|) else None;
    }
  }

  /** The backing store after a flush that succeeds: the batch that had failed is laid over it, and then
      the buffered one. */
  ghost function Flushed(s: Store, retryOnly: bool): map<Cid, Block> {
    var retried := if s.flushErr then s.backing + s.flushing.blocks else s.backing;
    if retryOnly then retried else retried + s.buffered.blocks
  }

  /** What an undisturbed read returns. */
  ghost function Visible(s: Store, c: Cid): Option<Block> {
    if c in s.backing then Some(s.backing[c]) else FindPending(s, c)
  }

  /** It is what the machine's read comes to when nothing happens in between. */
  lemma VisibleIsRead(s: Store, c: Cid, promised: bool)
    ensures var r1 := StepReader(s, FirstRead(c, promised));
      var r2 := if r1.Answered? then r1 else StepReader(s, r1);
      var r3 := if r2.Answered? then r2 else StepReader(s, r2);
      r3 == Answered(c, promised, Visible(s, c))
  {
  }

  /** New blocks are buffered in the order in which they are put, after those that were. */
  lemma {:induction false} PutAllBuffers(s: Store, blks: seq<Block>, capacity: int)
    requires forall b :: b in blks ==> b.cid !in s.addedCids
    requires forall i, j :: 0 <= i < j < |blks| ==> blks[i].cid != blks[j].cid
    ensures PutAll(s, blks, capacity).buffered.list == s.buffered.list + blks
  {
    if blks != [] {
      var n := |blks| - 1;
      PutAllBuffers(s, blks[..n], capacity);
      PutAllAdds(s, blks[..n], capacity, blks[n].cid);
      assert blks == blks[..n] + [blks[n]];
    }
  }

  lemma {:induction false} PutAllAdds(s: Store, blks: seq<Block>, capacity: int, c: Cid)
    ensures c in PutAll(s, blks, capacity).addedCids <==>
      c in s.addedCids || exists i :: 0 <= i < |blks| && blks[i].cid == c
  {
    if blks != [] {
      var n := |blks| - 1;
      PutAllAdds(s, blks[..n], capacity, c);
      assert forall i :: 0 <= i < n ==> blks[..n][i] == blks[i];
    }
  }

  /** Blocks put before change nothing. */
  lemma {:induction false} PutAllAgain(s: Store, blks: seq<Block>, capacity: int)
    requires forall b :: b in blks ==> b.cid in s.addedCids
    ensures PutAll(s, blks, capacity) == s
  {
    if blks != [] { PutAllAgain(s, blks[..|blks| - 1], capacity); }
  }

  ghost function PutAll(s: Store, blks: seq<Block>, capacity: int): Store {
    if blks == [] then s
    else PutBlock(PutAll(s, blks[..|blks| - 1], capacity), blks[|blks| - 1], capacity)
  }
}
