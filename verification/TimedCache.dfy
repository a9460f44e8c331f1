/** The two-generation cache over in-memory blockstores keyed by multihash. */
module TimedCache {
  import opened Tipsets

  /** The parts of an identifier the stores look at. */
  datatype BlockId = BlockId(version: nat, codec: nat, hash: nat)

  /** A block, and whether it is of the store's own block type. */
  datatype Block = Block(id: BlockId, data: seq<nat>, basic: bool)

  // ---------------------------------------------------------------- the in-memory store

  type Memory = map<nat, Block>

  ghost predicate Keyed(m: Memory) {
    forall h :: h in m ==> m[h].id.hash == h
  }

  /** A block of a foreign type never replaces one that is there. */
  function MemPut(m: Memory, b: Block): Memory {
    if !b.basic && b.id.hash in m then m else m[b.id.hash := b.(basic := true)]
  }

  function MemPutMany(m: Memory, bs: seq<Block>): Memory {
    if bs == [] then m else MemPut(MemPutMany(m, bs[..|bs| - 1]), bs[|bs| - 1])
  }

  function MemDeleteMany(m: Memory, ks: seq<BlockId>): Memory {
    if ks == [] then m else MemDeleteMany(m, ks[..|ks| - 1]) - {ks[|ks| - 1].hash}
  }

  /** A block asked for under another codec is handed out under the identifier asked for. */
  function MemGet(m: Memory, k: BlockId): Option<Block> {
    if k.hash !in m then None
    else if m[k.hash].id.codec != k.codec then Some(Block(k, m[k.hash].data, true))
    else Some(m[k.hash])
  }

  // ---------------------------------------------------------------- the cache

  datatype Cache = Cache(active: Memory, inactive: Memory)

  datatype Event = PutMany(blocks: seq<Block>) | DeleteMany(ids: seq<BlockId>) | Rotate

  function Apply(c: Cache, e: Event): Cache {
    match e
    case PutMany(bs) => c.(active := MemPutMany(c.active, bs))
    case DeleteMany(ks) => Cache(MemDeleteMany(c.active, ks), MemDeleteMany(c.inactive, ks))
    case Rotate => Cache(map[], c.active)
  }

  function After(events: seq<Event>): Cache {
    if events == [] then Cache(map[], map[]) else Apply(After(events[..|events| - 1]), events[|events| - 1])
  }

  function Lookup(c: Cache, k: BlockId): Option<Block> {
    var r := MemGet(c.active, k);
    if r.None? then MemGet(c.inactive, k) else r
  }

  // ---------------------------------------------------------------- what is visible

  predicate Puts(e: Event, h: nat) {
    e.PutMany? && exists i :: 0 <= i < |e.blocks| && e.blocks[i].id.hash == h
  }

  /** The event puts a block with that identifier and that data. */
  predicate PutsBlock(e: Event, id: BlockId, data: seq<nat>) {
    e.PutMany? && exists i :: 0 <= i < |e.blocks| && e.blocks[i].id == id && e.blocks[i].data == data
  }

  predicate Deletes(e: Event, h: nat) {
    e.DeleteMany? && exists i :: 0 <= i < |e.ids| && e.ids[i].hash == h
  }

  function Rotations(events: seq<Event>): nat {
    if events == [] then 0 else Rotations(events[..|events| - 1]) + if events[|events| - 1].Rotate? then 1 else 0
  }

  /** The put at place `i` has not been undone since, and `n` rotations followed it. */
  predicate PutSince(events: seq<Event>, h: nat, i: int, n: nat) {
    && 0 <= i < |events| && Puts(events[i], h) && Rotations(events[i..]) == n
    && forall j :: i < j < |events| ==> !Deletes(events[j], h)
  }

  ghost predicate Kept(events: seq<Event>, h: nat, n: nat) {
    exists i :: PutSince(events, h, i, n)
  }

  lemma {:induction false} MemPutManyKeys(m: Memory, bs: seq<Block>, h: nat)
    ensures h in MemPutMany(m, bs) <==> h in m || Puts(PutMany(bs), h)
    ensures h in MemPutMany(m, bs) ==>
      var b := MemPutMany(m, bs)[h]; (h in m && b == m[h]) || (b.id.hash == h && PutsBlock(PutMany(bs), b.id, b.data))
    ensures Keyed(m) ==> Keyed(MemPutMany(m, bs))
  {
    if bs != [] {
      var n := |bs| - 1;
      MemPutManyKeys(m, bs[..n], h);
      assert bs[n] in bs;
      assert forall i :: 0 <= i < n ==> bs[..n][i] == bs[i];
    }
  }

  /** Which block is kept under a multihash: the last of the store's own type that is put, or else the one
      that was there, or else the first that is put. */
  ghost predicate Wins(m: Memory, bs: seq<Block>, h: nat, b: Block) {
    if exists i :: LastOwn(bs, h, i) then exists i :: LastOwn(bs, h, i) && b == bs[i]
    else if h in m then b == m[h]
    else exists i :: FirstPut(bs, h, i) && b == bs[i].(basic := true)
  }

  ghost predicate LastOwn(bs: seq<Block>, h: nat, i: int) {
    && 0 <= i < |bs| && bs[i].id.hash == h && bs[i].basic
    && forall j :: i < j < |bs| ==> bs[j].id.hash != h || !bs[j].basic
  }

  ghost predicate FirstPut(bs: seq<Block>, h: nat, i: int) {
    0 <= i < |bs| && bs[i].id.hash == h && forall j :: 0 <= j < i ==> bs[j].id.hash != h
  }

  lemma {:induction false} MemPutManyWinner(m: Memory, bs: seq<Block>, h: nat)
    requires h in MemPutMany(m, bs)
    ensures Wins(m, bs, h, MemPutMany(m, bs)[h])
  {
    if bs != [] {
      var n := |bs| - 1;
      var front := bs[..n];
      assert forall i :: 0 <= i < n ==> front[i] == bs[i];
      MemPutManyKeys(m, front, h);
      if bs[n].id.hash == h && bs[n].basic {
        assert LastOwn(bs, h, n);
      } else {
        assert forall i :: 0 <= i < n ==> (LastOwn(bs, h, i) <==> LastOwn(front, h, i));
        assert forall i :: 0 <= i < n ==> (FirstPut(bs, h, i) <==> FirstPut(front, h, i));
        if h in MemPutMany(m, front) {
          MemPutManyWinner(m, front, h);
        } else {
          assert FirstPut(bs, h, n);
        }
      }
    }
  }

  lemma {:induction false} MemDeleteManyKeys(m: Memory, ks: seq<BlockId>, h: nat)
    ensures h in MemDeleteMany(m, ks) <==> h in m && !Deletes(DeleteMany(ks), h)
    ensures h in MemDeleteMany(m, ks) ==> MemDeleteMany(m, ks)[h] == m[h]
    ensures Keyed(m) ==> Keyed(MemDeleteMany(m, ks))
  {
    if ks != [] {
      var n := |ks| - 1;
      MemDeleteManyKeys(m, ks[..n], h);
      assert forall i :: 0 <= i < n ==> ks[..n][i] == ks[i];
    }
  }

  lemma PutSinceStep(events: seq<Event>, e: Event, h: nat, i: int, n: nat)
    requires PutSince(events, h, i, n) && !Deletes(e, h)
    ensures PutSince(events + [e], h, i, if e.Rotate? then n + 1 else n)
  {
    var all := events + [e];
    assert all[i..][..|all[i..]| - 1] == events[i..];
  }

  lemma PutNow(events: seq<Event>, e: Event, h: nat)
    requires Puts(e, h)
    ensures PutSince(events + [e], h, |events|, 0)
  {
    assert (events + [e])[|events|..] == [e] && Rotations([e]) == Rotations([e][..0]);
  }

  /** One more event: what it takes for a put to count among `n` rotations. */
  lemma KeptStep(events: seq<Event>, e: Event, h: nat, n: nat)
    ensures Kept(events + [e], h, n) <==>
      || (n == 0 && Puts(e, h))
      || (!Deletes(e, h) && (if e.Rotate? then n > 0 && Kept(events, h, n - 1) else Kept(events, h, n)))
  {
    var all, k := events + [e], if e.Rotate? then 1 else 0;
    if Kept(all, h, n) {
      var i :| PutSince(all, h, i, n);
      if i < |events| {
        assert all[i..][..|all[i..]| - 1] == events[i..];
        assert forall j :: i < j < |events| ==> !Deletes(all[j], h);
        assert PutSince(events, h, i, n - k);
      } else {
        assert all[i..] == [e] && Rotations([e]) == k + Rotations([e][..0]);
      }
    }
    if n == 0 && Puts(e, h) { PutNow(events, e, h); }
    if !Deletes(e, h) && n >= k && Kept(events, h, n - k) {
      var i :| PutSince(events, h, i, n - k);
      PutSinceStep(events, e, h, i, n - k);
    }
  }

  /** The generations hold exactly the multihashes put since the latest and since the
      second latest rotation and not deleted after. */
  lemma {:induction false} GenerationsHold(events: seq<Event>, h: nat)
    ensures h in After(events).active <==> Kept(events, h, 0)
    ensures h in After(events).inactive <==> Kept(events, h, 1)
  {
    if events != [] {
      var n := |events| - 1;
      var c, e := After(events[..n]), events[n];
      assert events == events[..n] + [e];
      GenerationsHold(events[..n], h);
      KeptStep(events[..n], e, h, 0);
      KeptStep(events[..n], e, h, 1);
      match e
      case PutMany(bs) => MemPutManyKeys(c.active, bs, h);
      case DeleteMany(ks) =>
        MemDeleteManyKeys(c.active, ks, h);
        MemDeleteManyKeys(c.inactive, ks, h);
      case Rotate =>
    }
  }

  /** The block was put, with that identifier and that data, by a put that still counts. */
  ghost predicate Genuine(events: seq<Event>, id: BlockId, data: seq<nat>, n: nat) {
    exists i :: PutSince(events, id.hash, i, n) && PutsBlock(events[i], id, data)
  }

  lemma GenuineStep(events: seq<Event>, e: Event, id: BlockId, data: seq<nat>, n: nat)
    ensures Genuine(events, id, data, n) && !Deletes(e, id.hash) ==>
      Genuine(events + [e], id, data, if e.Rotate? then n + 1 else n)
    ensures PutsBlock(e, id, data) ==> Genuine(events + [e], id, data, 0)
  {
    var all := events + [e];
    if Genuine(events, id, data, n) && !Deletes(e, id.hash) {
      var i :| PutSince(events, id.hash, i, n) && PutsBlock(events[i], id, data);
      PutSinceStep(events, e, id.hash, i, n);
      assert all[i] == events[i];
    }
    if PutsBlock(e, id, data) {
      PutNow(events, e, id.hash);
      assert all[|events|] == e;
    }
  }

  lemma {:induction false} StoredIsGenuine(events: seq<Event>, h: nat)
    ensures Keyed(After(events).active) && Keyed(After(events).inactive)
    ensures h in After(events).active ==>
      var b := After(events).active[h]; Genuine(events, b.id, b.data, 0)
    ensures h in After(events).inactive ==>
      var b := After(events).inactive[h]; Genuine(events, b.id, b.data, 1)
  {
    if events != [] {
      var n := |events| - 1;
      var c, e, c' := After(events[..n]), events[n], After(events);
      StoredIsGenuine(events[..n], h);
      assert events == events[..n] + [e];
      if e.PutMany? { MemPutManyKeys(c.active, e.blocks, h); }
      if e.DeleteMany? {
        MemDeleteManyKeys(c.active, e.ids, h);
        MemDeleteManyKeys(c.inactive, e.ids, h);
      }
      if h in c'.active { GenuineStep(events[..n], e, c'.active[h].id, c'.active[h].data, 0); }
      if h in c'.inactive {
        GenuineStep(events[..n], e, c'.inactive[h].id, c'.inactive[h].data, if e.Rotate? then 0 else 1);
      }
    }
  }

  /** What a lookup hands out: a block put under that multihash, as it was put if the codec is the one asked for, and
      otherwise under the identifier asked for. */
  ghost predicate Handed(events: seq<Event>, k: BlockId, b: Block, n: nat) {
    exists id: BlockId ::
      id.hash == k.hash && Genuine(events, id, b.data, n) && b.id == if id.codec == k.codec then id else k
  }

  /** A lookup finds a block exactly when one was put under that multihash after the second latest
      rotation and not deleted since; it is of a put after the latest rotation if there is one. */
  lemma LookupFinds(events: seq<Event>, k: BlockId)
    ensures Lookup(After(events), k).Some? <==> Kept(events, k.hash, 0) || Kept(events, k.hash, 1)
    ensures var r := Lookup(After(events), k);
      r.Some? ==>
        && r.value.id.hash == k.hash && r.value.id.codec == k.codec
        && Handed(events, k, r.value, if Kept(events, k.hash, 0) then 0 else 1)
  {
    GenerationsHold(events, k.hash);
    StoredIsGenuine(events, k.hash);
    var c := After(events);
    if k.hash in c.active {
      assert Genuine(events, c.active[k.hash].id, c.active[k.hash].data, 0);
    } else if k.hash in c.inactive {
      assert Genuine(events, c.inactive[k.hash].id, c.inactive[k.hash].data, 1);
    }
  }

  // ---------------------------------------------------------------- the cache as an object

  predicate Shows(c: Cache, h: nat) {
    h in c.active || h in c.inactive
  }

  /** Each visible multihash is listed once. */
  ghost predicate Lists(c: Cache, keys: seq<BlockId>) {
    && (forall i, j :: 0 <= i < j < |keys| ==> keys[i].hash != keys[j].hash)
    && (forall i :: 0 <= i < |keys| ==> Shows(c, keys[i].hash))
    && (forall h :: Shows(c, h) ==> exists i :: 0 <= i < |keys| && keys[i].hash == h)
  }

  /** Each listed identifier is that of a visible block that was put. */
  ghost predicate ListsPut(events: seq<Event>, keys: seq<BlockId>) {
    forall i :: 0 <= i < |keys| ==> WasPut(events, keys[i], if Kept(events, keys[i].hash, 0) then 0 else 1)
  }

  ghost predicate WasPut(events: seq<Event>, id: BlockId, n: nat) {
    exists data :: Genuine(events, id, data, n)
  }

  method ListKeys(m: Memory, hidden: Memory) returns (keys: seq<BlockId>)
    requires Keyed(m)
    ensures forall i, j :: 0 <= i < j < |keys| ==> keys[i].hash != keys[j].hash
    ensures forall i :: 0 <= i < |keys| ==>
      keys[i].hash in m && keys[i].hash !in hidden && keys[i] == m[keys[i].hash].id
    ensures forall h :: h in m && h !in hidden ==> exists i :: 0 <= i < |keys| && keys[i].hash == h
  {
    keys := [];
    var left := m.Keys;
    while left != {}
      invariant left <= m.Keys
      invariant forall i, j :: 0 <= i < j < |keys| ==> keys[i].hash != keys[j].hash
      invariant forall i :: 0 <= i < |keys| ==> keys[i].hash in m && keys[i].hash !in hidden && keys[i].hash !in left
      invariant forall i :: 0 <= i < |keys| ==> keys[i] == m[keys[i].hash].id
      invariant forall h :: h in m && h !in hidden && h !in left ==> exists i :: 0 <= i < |keys| && keys[i].hash == h
    {
      var h :| h in left;
      ghost var before := keys;
      if h !in hidden {
        keys := keys + [m[h].id];
        assert keys[|before|].hash == h;
      }
      left := left - {h};
      assert forall i :: 0 <= i < |before| ==> keys[i] == before[i];
    }
  }

  class TimedCacheBlockstore {
    var active: Memory
    var inactive: Memory
    ghost var events: seq<Event>

    ghost predicate Valid()
      reads this
    {
      Cache(active, inactive) == After(events)
    }

    constructor ()
      ensures Valid() && events == []
    {
      active, inactive, events := map[], map[], [];
    }

    method PutMany(bs: seq<Block>)
      requires Valid()
      modifies this
      ensures Valid() && events == old(events) + [Event.PutMany(bs)]
    {
      ghost var m := active;
      for i := 0 to |bs|
        invariant active == MemPutMany(m, bs[..i]) && inactive == old(inactive) && events == old(events)
      {
        var b := bs[i];
        assert bs[..i + 1][..i] == bs[..i];
        if b.basic || b.id.hash !in active {
          active := active[b.id.hash := b.(basic := true)];
        }
      }
      assert bs[..|bs|] == bs;
      events := events + [Event.PutMany(bs)];
      assert events[..|events| - 1] == old(events);
    }

    method DeleteMany(ks: seq<BlockId>)
      requires Valid()
      modifies this
      ensures Valid() && events == old(events) + [Event.DeleteMany(ks)]
    {
      active := Remove(active, ks);
      inactive := Remove(inactive, ks);
      events := events + [Event.DeleteMany(ks)];
      assert events[..|events| - 1] == old(events);
    }

    static method Remove(m: Memory, ks: seq<BlockId>) returns (r: Memory)
      ensures r == MemDeleteMany(m, ks)
    {
      r := m;
      for i := 0 to |ks|
        invariant r == MemDeleteMany(m, ks[..i])
      {
        assert ks[..i + 1][..i] == ks[..i];
        r := r - {ks[i].hash};
      }
      assert ks[..|ks|] == ks;
    }

    method Rotate()
      requires Valid()
      modifies this
      ensures Valid() && events == old(events) + [Event.Rotate]
    {
      inactive, active := active, map[];
      events := events + [Event.Rotate];
      assert events[..|events| - 1] == old(events);
    }

    /** Get, Has and GetSize give the same verdict on the same multihash. */
    method Get(k: BlockId) returns (r: Option<Block>)
      requires Valid()
      ensures r.Some? <==> Kept(events, k.hash, 0) || Kept(events, k.hash, 1)
      ensures r.Some? ==> r.value.id.hash == k.hash && r.value.id.codec == k.codec
      ensures r.Some? ==> Handed(events, k, r.value, if Kept(events, k.hash, 0) then 0 else 1)
      ensures r == Lookup(After(events), k)
    {
      LookupFinds(events, k);
      r := MemGet(active, k);
      if r.None? { r := MemGet(inactive, k); }
    }

    method Has(k: BlockId) returns (r: bool)
      requires Valid()
      ensures r == Lookup(After(events), k).Some?
    {
      if k.hash in active { return true; }
      return k.hash in inactive;
    }

    method GetSize(k: BlockId) returns (r: Option<nat>)
      requires Valid()
      ensures r == match Lookup(After(events), k) case None => None case Some(b) => Some(|b.data|)
    {
      if k.hash in active { return Some(|active[k.hash].data|); }
      if k.hash in inactive { return Some(|inactive[k.hash].data|); }
      return None;
    }

    method AllKeys() returns (keys: seq<BlockId>)
      requires Valid()
      ensures Lists(After(events), keys) && ListsPut(events, keys)
    {
      StoredIsGenuine(events, 0);
      var newer := ListKeys(active, map[]);
      var older := ListKeys(inactive, active);
      keys := newer + older;
      forall h | Shows(After(events), h) ensures exists i :: 0 <= i < |keys| && keys[i].hash == h {
        if h in active {
          var i :| 0 <= i < |newer| && newer[i].hash == h;
          assert keys[i].hash == h;
        } else {
          var i :| 0 <= i < |older| && older[i].hash == h;
          assert keys[|newer| + i].hash == h;
        }
      }
      forall i | 0 <= i < |keys|
        ensures WasPut(events, keys[i], if Kept(events, keys[i].hash, 0) then 0 else 1)
      {
        GenerationsHold(events, keys[i].hash);
        StoredIsGenuine(events, keys[i].hash);
        var m := if i < |newer| then active else inactive;
        assert keys[i] == m[keys[i].hash].id;
        assert Genuine(events, keys[i], m[keys[i].hash].data, if i < |newer| then 0 else 1);
      }
    }
  }
}
