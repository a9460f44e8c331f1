/** The wire form of the sector and deal records: maps from field names to values,
    accepted with their fields in any order. Fields of other names are skipped by a
    scanner of the CBOR library, given here as a function on the stream. */
module SectorCodec {
  import opened Cbor
  import opened Tipsets

  type Skip = seq<Byte> -> seq<Byte>

  // ---------------------------------------------------------------- map entries

  datatype Entry = Entry(name: seq<Byte>, payload: seq<Byte>)

  /** How a record takes in the value that follows a field name. */
  type Field<!T> = (seq<Byte>, seq<Byte>, T) -> Parsed<T>

  function WriteEntry(e: Entry): seq<Byte>
    requires |e.name| <= MAX_LENGTH
  {
    WriteString(MAJ_TEXT, e.name) + e.payload
  }

  function WriteEntries(es: seq<Entry>): seq<Byte>
    requires forall e :: e in es ==> |e.name| <= MAX_LENGTH
  {
    WriteMany(WriteEntry, es)
  }

  function ReadEntries<T>(field: Field<T>, n: nat, bs: seq<Byte>, v: T): Parsed<T> {
    if n == 0 then Ok(v, bs)
    else
      match ReadString(MAJ_TEXT, MAX_LENGTH, bs)
      case Bad => Bad
      case Ok(name, rest) =>
        match field(name, rest, v)
        case Bad => Bad
        case Ok(v', rest') => ReadEntries(field, n - 1, rest', v')
  }

  function DecodeMap<T>(field: Field<T>, bs: seq<Byte>, v: T): Parsed<T> {
    match ReadLimited(MAJ_MAP, MAX_LENGTH, bs)
    case Bad => Bad
    case Ok(n, rest) => ReadEntries(field, n, rest, v)
  }

  function EncodeMap(es: seq<Entry>): seq<Byte>
    requires |es| <= MAX_LENGTH && forall e :: e in es ==> |e.name| <= MAX_LENGTH
  {
    WriteHead(Head(MAJ_MAP, |es|)) + WriteEntries(es)
  }

  /** The loop of the generated readers. */
  method DecodeMapLoop<T>(field: Field<T>, bs: seq<Byte>, init: T) returns (r: Parsed<T>)
    ensures r == DecodeMap(field, bs, init)
  {
    var head := ReadLimited(MAJ_MAP, MAX_LENGTH, bs);
    if head.Bad? { return Bad; }
    var v, stream := init, head.rest;
    for i := 0 to head.value
      invariant ReadEntries(field, head.value, head.rest, init) == ReadEntries(field, head.value - i, stream, v)
    {
      var name := ReadString(MAJ_TEXT, MAX_LENGTH, stream);
      if name.Bad? { return Bad; }
      var next := field(name.value, name.rest, v);
      if next.Bad? { return Bad; }
      v, stream := next.value, next.rest;
    }
    return Ok(v, stream);
  }

  /** Entries that each take the record one step along `vs` take it all the way. */
  lemma {:induction false} ReadEntriesAlong<T>(field: Field<T>, es: seq<Entry>, vs: seq<T>, rest: seq<Byte>)
    requires |vs| == |es| + 1 && forall e :: e in es ==> |e.name| <= MAX_LENGTH
    requires forall i, r :: 0 <= i < |es| ==> field(es[i].name, es[i].payload + r, vs[i]) == Ok(vs[i + 1], r)
    ensures ReadEntries(field, |es|, WriteEntries(es) + rest, vs[0]) == Ok(vs[|es|], rest)
  {
    if es == [] {
      assert WriteEntries(es) + rest == rest;
    } else {
      var tail := WriteEntries(es[1..]) + rest;
      ReadEntriesAlong(field, es[1..], vs[1..], rest);
      ReadWriteString(MAJ_TEXT, MAX_LENGTH, es[0].name, es[0].payload + tail);
      Regroup(WriteEntry(es[0]), WriteEntries(es[1..]), rest);
      Regroup(WriteString(MAJ_TEXT, es[0].name), es[0].payload, tail);
      assert field(es[0].name, es[0].payload + tail, vs[0]) == Ok(vs[1], tail);
    }
  }

  lemma DecodeEncodeMap<T>(field: Field<T>, es: seq<Entry>, vs: seq<T>, rest: seq<Byte>)
    requires |vs| == |es| + 1 && |es| <= MAX_LENGTH && forall e :: e in es ==> |e.name| <= MAX_LENGTH
    requires forall i, r :: 0 <= i < |es| ==> field(es[i].name, es[i].payload + r, vs[i]) == Ok(vs[i + 1], r)
    ensures DecodeMap(field, EncodeMap(es) + rest, vs[0]) == Ok(vs[|es|], rest)
  {
    ReadEntriesAlong(field, es, vs, rest);
    ReadWriteLimited(MAJ_MAP, MAX_LENGTH, |es|, WriteEntries(es) + rest);
    Regroup(WriteHead(Head(MAJ_MAP, |es|)), WriteEntries(es), rest);
  }

  /** The entries are the given ones in any order; repeating one changes nothing. */
  ghost predicate Arranges(es: seq<Entry>, own: seq<Entry>) {
    && |es| <= MAX_LENGTH && (forall e :: e in es ==> e in own && |e.name| <= MAX_LENGTH)
    && forall e :: e in own ==> e in es
  }

  // ---------------------------------------------------------------- 64-bit numbers

  const TWO_63 := 0x8000_0000_0000_0000

  /** Two's complement wrap-around to 64 bits. */
  function Wrap64(x: int): int {
    (x + TWO_63) % TWO_64 - TWO_63
  }

  predicate IsInt64(x: int) {
    -TWO_63 <= x < TWO_63
  }

  /** The header that stands for a signed number: its negation and the decrement both wrap. */
  function IntHead(x: int): Head
    requires IsInt64(x)
  {
    if x >= 0 then Head(MAJ_UINT, x) else Head(MAJ_NEGATIVE, Wrap64(Wrap64(-x) - 1) % TWO_64)
  }

  function IntOf(h: Head): Option<int> {
    var extra := Wrap64(h.extra);
    if extra < 0 then None
    else if h.major == MAJ_UINT then Some(extra)
    else if h.major == MAJ_NEGATIVE then Some(-1 - extra)
    else None
  }

  /** Every 64-bit number is read back from its header, the minimum included although its negation wraps. */
  lemma IntOfHead(x: int)
    requires IsInt64(x)
    ensures IsHead(IntHead(x)) && IntOf(IntHead(x)) == Some(x)
  {
    if x < 0 {
      assert Wrap64(Wrap64(-x) - 1) == -x - 1;
      WrapSmall(-x - 1);
    } else {
      WrapSmall(x);
    }
  }

  lemma WrapSmall(x: int)
    requires IsInt64(x)
    ensures Wrap64(x) == x
  {
  }

  /** A header that is accepted is the one its number is written with. */
  lemma HeadOfInt(h: Head)
    requires IsHead(h) && IntOf(h).Some?
    ensures IsInt64(IntOf(h).value) && IntHead(IntOf(h).value) == h
  {
    assert h.extra < TWO_63;
    if h.major == MAJ_NEGATIVE {
      assert Wrap64(Wrap64(h.extra + 1) - 1) == h.extra;
    }
  }

  function WriteInt64(x: int): seq<Byte>
    requires IsInt64(x)
  {
    IntOfHead(x);
    WriteHead(IntHead(x))
  }

  function ReadInt64(bs: seq<Byte>): Parsed<int> {
    match ReadHead(bs)
    case Bad => Bad
    case Ok(h, rest) => match IntOf(h) case None => Bad case Some(x) => Ok(x, rest)
  }

  lemma ReadWriteInt64(x: int, rest: seq<Byte>)
    requires IsInt64(x)
    ensures ReadInt64(WriteInt64(x) + rest) == Ok(x, rest)
  {
    IntOfHead(x);
    ReadWriteHead(IntHead(x), rest);
  }

  lemma WriteReadInt64(bs: seq<Byte>)
    requires ReadInt64(bs).Ok?
    ensures IsInt64(ReadInt64(bs).value) && bs == WriteInt64(ReadInt64(bs).value) + ReadInt64(bs).rest
  {
    WriteReadHead(bs);
    HeadOfInt(ReadHead(bs).value);
  }

  function ReadUint64(bs: seq<Byte>): Parsed<nat> {
    ReadLimited(MAJ_UINT, TWO_64 - 1, bs)
  }

  function WriteUint64(x: nat): seq<Byte>
    requires x < TWO_64
  {
    WriteHead(Head(MAJ_UINT, x))
  }

  // ---------------------------------------------------------------- tickets and seeds

  /** A seal ticket; a seal seed has the same fields and the same form. */
  datatype Ticket = Ticket(epoch: int, value: seq<Byte>)

  const EPOCH: seq<Byte> := [69, 112, 111, 99, 104]
  const VALUE: seq<Byte> := [86, 97, 108, 117, 101]

  /** Reading bytes into the slice `current`, which is replaced unless the length is zero. */
  function ReadInto(bs: seq<Byte>, current: seq<Byte>): Parsed<seq<Byte>> {
    match ReadLimited(MAJ_BYTES, BYTE_ARRAY_MAX_LEN, bs)
    case Bad => Bad
    case Ok(n, rest) =>
      var want := if n > 0 then n else |current|;
      if |rest| < want then Bad else Ok(rest[..want], rest[want..])
  }

  /** Bytes are read back exactly when they are not empty or nothing was in their place. */
  lemma ReadIntoWritten(d: seq<Byte>, current: seq<Byte>, rest: seq<Byte>)
    requires |d| <= BYTE_ARRAY_MAX_LEN
    ensures ReadInto(WriteString(MAJ_BYTES, d) + rest, current) == Ok(d, rest) <==> d != [] || current == []
  {
    ReadWriteLimited(MAJ_BYTES, BYTE_ARRAY_MAX_LEN, |d|, d + rest);
    Regroup(WriteHead(Head(MAJ_BYTES, |d|)), d, rest);
    assert (d + rest)[..|d|] == d && (d + rest)[|d|..] == rest;
  }

  function TicketField(skip: Skip): Field<Ticket> {
    (name: seq<Byte>, bs: seq<Byte>, t: Ticket) =>
      if name == EPOCH then
        (match ReadInt64(bs) case Bad => Bad case Ok(x, rest) => Ok(t.(epoch := x), rest))
      else if name == VALUE then
        (match ReadInto(bs, t.value) case Bad => Bad case Ok(d, rest) => Ok(t.(value := d), rest))
      else Ok(t, skip(bs))
  }

  predicate IsTicket(t: Ticket) {
    IsInt64(t.epoch) && |t.value| <= BYTE_ARRAY_MAX_LEN
  }

  function EpochEntry(x: int): Entry
    requires IsInt64(x)
  {
    Entry(EPOCH, WriteInt64(x))
  }

  function ValueEntry(d: seq<Byte>): Entry
    requires |d| <= BYTE_ARRAY_MAX_LEN
  {
    Entry(VALUE, WriteString(MAJ_BYTES, d))
  }

  /** The order in which the fields are written. */
  function EncodeTicket(t: Ticket): seq<Byte>
    requires IsTicket(t)
  {
    EncodeMap([EpochEntry(t.epoch), ValueEntry(t.value)])
  }

  function DecodeTicket(skip: Skip, bs: seq<Byte>): Parsed<Ticket> {
    DecodeMap(TicketField(skip), bs, Ticket(0, []))
  }

  lemma TicketStep(skip: Skip, t: Ticket, e: Entry, before: Ticket, rest: seq<Byte>)
    requires IsTicket(t) && (e == EpochEntry(t.epoch) || e == ValueEntry(t.value))
    requires before.value == [] || before.value == t.value
    ensures TicketField(skip)(e.name, e.payload + rest, before) ==
      Ok(if e.name == EPOCH then before.(epoch := t.epoch) else before.(value := t.value), rest)
  {
    if e == EpochEntry(t.epoch) {
      ReadWriteInt64(t.epoch, rest);
    } else {
      ReadIntoWritten(t.value, before.value, rest);
    }
  }

  /** The fields of a ticket decode to the same ticket in every order. */
  lemma DecodeTicketAnyOrder(skip: Skip, t: Ticket, es: seq<Entry>, rest: seq<Byte>)
    requires IsTicket(t) && Arranges(es, [EpochEntry(t.epoch), ValueEntry(t.value)])
    ensures DecodeTicket(skip, EncodeMap(es) + rest) == Ok(t, rest)
  {
    var e1, e2 := EpochEntry(t.epoch), ValueEntry(t.value);
    var vs := seq(|es| + 1, i requires 0 <= i <= |es| =>
      Ticket(if e1 in es[..i] then t.epoch else 0, if e2 in es[..i] then t.value else []));
    forall i, r | 0 <= i < |es|
      ensures TicketField(skip)(es[i].name, es[i].payload + r, vs[i]) == Ok(vs[i + 1], r)
    {
      assert es[..i + 1] == es[..i] + [es[i]] && es[i] in es;
      TicketStep(skip, t, es[i], vs[i], r);
    }
    DecodeEncodeMap(TicketField(skip), es, vs, rest);
    assert es[..|es|] == es;
  }

  lemma DecodeEncodeTicket(skip: Skip, t: Ticket, rest: seq<Byte>)
    requires IsTicket(t)
    ensures DecodeTicket(skip, EncodeTicket(t) + rest) == Ok(t, rest)
  {
    DecodeTicketAnyOrder(skip, t, [EpochEntry(t.epoch), ValueEntry(t.value)], rest);
  }

  /** A `Value` entry with no bytes after one that had some takes as many bytes from whatever follows. */
  lemma RepeatedValueReadsOn(skip: Skip, d: seq<Byte>, rest: seq<Byte>)
    requires 0 < |d| <= BYTE_ARRAY_MAX_LEN
    ensures DecodeTicket(skip, EncodeMap([ValueEntry(d), ValueEntry([])]) + rest) ==
      if |rest| < |d| then Bad else Ok(Ticket(0, rest[..|d|]), rest[|d|..])
  {
    var first, second := ValueEntry(d), ValueEntry([]);
    var field := TicketField(skip);
    EncodePair(first, second, rest);
    ReadWriteLimited(MAJ_MAP, MAX_LENGTH, 2, WriteEntry(first) + (WriteEntry(second) + rest));
    ReadFirst(field, first, WriteEntry(second) + rest, 2, Ticket(0, []));
    ReadIntoWritten(d, [], WriteEntry(second) + rest);
    ReadFirst(field, second, rest, 1, Ticket(0, d));
    ReadNothingInto(d, rest);
  }

  lemma EncodePair(first: Entry, second: Entry, rest: seq<Byte>)
    requires |first.name| <= MAX_LENGTH && |second.name| <= MAX_LENGTH
    ensures EncodeMap([first, second]) + rest ==
      WriteHead(Head(MAJ_MAP, 2)) + (WriteEntry(first) + (WriteEntry(second) + rest))
  {
    var es := [first, second];
    assert WriteEntries(es) == WriteEntry(first) + WriteEntry(second) by {
      assert es[1..] == [second] && [second][1..] == [];
      assert WriteMany(WriteEntry, [second]) == WriteEntry(second) + WriteMany(WriteEntry, []) == WriteEntry(second);
    }
  }

  lemma ReadNothingInto(current: seq<Byte>, rest: seq<Byte>)
    ensures ReadInto(WriteString(MAJ_BYTES, []) + rest, current) ==
      if |rest| < |current| then Bad else Ok(rest[..|current|], rest[|current|..])
  {
    ReadWriteLimited(MAJ_BYTES, BYTE_ARRAY_MAX_LEN, 0, rest);
    assert WriteString(MAJ_BYTES, []) == WriteHead(Head(MAJ_BYTES, 0));
  }

  lemma ReadFirst<T>(field: Field<T>, e: Entry, rest: seq<Byte>, n: nat, v: T)
    requires n > 0 && |e.name| <= MAX_LENGTH
    ensures ReadEntries(field, n, WriteEntry(e) + rest, v) ==
      match field(e.name, e.payload + rest, v)
      case Bad => Bad
      case Ok(v', rest') => ReadEntries(field, n - 1, rest', v')
  {
    ReadWriteString(MAJ_TEXT, MAX_LENGTH, e.name, e.payload + rest);
    Regroup(WriteString(MAJ_TEXT, e.name), e.payload, rest);
  }

  // ---------------------------------------------------------------- deal schedules

  datatype Schedule = Schedule(startEpoch: int, endEpoch: int)

  const START_EPOCH: seq<Byte> := [83, 116, 97, 114, 116, 69, 112, 111, 99, 104]
  const END_EPOCH: seq<Byte> := [69, 110, 100, 69, 112, 111, 99, 104]

  function ScheduleField(skip: Skip): Field<Schedule> {
    (name: seq<Byte>, bs: seq<Byte>, t: Schedule) =>
      if name == END_EPOCH then
        (match ReadInt64(bs) case Bad => Bad case Ok(x, rest) => Ok(t.(endEpoch := x), rest))
      else if name == START_EPOCH then
        (match ReadInt64(bs) case Bad => Bad case Ok(x, rest) => Ok(t.(startEpoch := x), rest))
      else Ok(t, skip(bs))
  }

  predicate IsSchedule(t: Schedule) {
    IsInt64(t.startEpoch) && IsInt64(t.endEpoch)
  }

  function StartEntry(x: int): Entry
    requires IsInt64(x)
  {
    Entry(START_EPOCH, WriteInt64(x))
  }

  function EndEntry(x: int): Entry
    requires IsInt64(x)
  {
    Entry(END_EPOCH, WriteInt64(x))
  }

  function EncodeSchedule(t: Schedule): seq<Byte>
    requires IsSchedule(t)
  {
    EncodeMap([EndEntry(t.endEpoch), StartEntry(t.startEpoch)])
  }

  function DecodeSchedule(skip: Skip, bs: seq<Byte>): Parsed<Schedule> {
    DecodeMap(ScheduleField(skip), bs, Schedule(0, 0))
  }

  /** The fields of a schedule decode to the same schedule in every order. */
  lemma DecodeScheduleAnyOrder(skip: Skip, t: Schedule, es: seq<Entry>, rest: seq<Byte>)
    requires IsSchedule(t) && Arranges(es, [StartEntry(t.startEpoch), EndEntry(t.endEpoch)])
    ensures DecodeSchedule(skip, EncodeMap(es) + rest) == Ok(t, rest)
  {
    var e1, e2 := StartEntry(t.startEpoch), EndEntry(t.endEpoch);
    var vs := seq(|es| + 1, i requires 0 <= i <= |es| =>
      Schedule(if e1 in es[..i] then t.startEpoch else 0, if e2 in es[..i] then t.endEpoch else 0));
    forall i, r | 0 <= i < |es|
      ensures ScheduleField(skip)(es[i].name, es[i].payload + r, vs[i]) == Ok(vs[i + 1], r)
    {
      assert es[..i + 1] == es[..i] + [es[i]] && es[i] in es;
      ReadWriteInt64(t.startEpoch, r);
      ReadWriteInt64(t.endEpoch, r);
    }
    DecodeEncodeMap(ScheduleField(skip), es, vs, rest);
    assert es[..|es|] == es;
  }

  lemma DecodeEncodeSchedule(skip: Skip, t: Schedule, rest: seq<Byte>)
    requires IsSchedule(t)
    ensures DecodeSchedule(skip, EncodeSchedule(t) + rest) == Ok(t, rest)
  {
    DecodeScheduleAnyOrder(skip, t, [EndEntry(t.endEpoch), StartEntry(t.startEpoch)], rest);
  }

  // ---------------------------------------------------------------- sealed references

  datatype Ref = Ref(sectorId: nat, offset: nat, size: nat)

  const SIZE: seq<Byte> := [83, 105, 122, 101]
  const OFFSET: seq<Byte> := [79, 102, 102, 115, 101, 116]
  const SECTOR_ID: seq<Byte> := [83, 101, 99, 116, 111, 114, 73, 68]

  function RefField(skip: Skip): Field<Ref> {
    (name: seq<Byte>, bs: seq<Byte>, t: Ref) =>
      if name == SIZE then
        (match ReadUint64(bs) case Bad => Bad case Ok(x, rest) => Ok(t.(size := x), rest))
      else if name == OFFSET then
        (match ReadUint64(bs) case Bad => Bad case Ok(x, rest) => Ok(t.(offset := x), rest))
      else if name == SECTOR_ID then
        (match ReadUint64(bs) case Bad => Bad case Ok(x, rest) => Ok(t.(sectorId := x), rest))
      else Ok(t, skip(bs))
  }

  predicate IsRef(t: Ref) {
    t.sectorId < TWO_64 && t.offset < TWO_64 && t.size < TWO_64
  }

  function NumberEntry(name: seq<Byte>, x: nat): Entry
    requires x < TWO_64
  {
    Entry(name, WriteUint64(x))
  }

  function RefEntries(t: Ref): seq<Entry>
    requires IsRef(t)
  {
    [NumberEntry(SIZE, t.size), NumberEntry(OFFSET, t.offset), NumberEntry(SECTOR_ID, t.sectorId)]
  }

  function EncodeRef(t: Ref): seq<Byte>
    requires IsRef(t)
  {
    EncodeMap(RefEntries(t))
  }

  function DecodeRef(skip: Skip, bs: seq<Byte>): Parsed<Ref> {
    DecodeMap(RefField(skip), bs, Ref(0, 0, 0))
  }

  /** What has been read once the given entries have. */
  function RefSoFar(t: Ref, seen: seq<Entry>): Ref
    requires IsRef(t)
  {
    Ref(if NumberEntry(SECTOR_ID, t.sectorId) in seen then t.sectorId else 0,
        if NumberEntry(OFFSET, t.offset) in seen then t.offset else 0,
        if NumberEntry(SIZE, t.size) in seen then t.size else 0)
  }

  lemma RefFieldReads(skip: Skip, x: nat, before: Ref, rest: seq<Byte>)
    requires x < TWO_64
    ensures RefField(skip)(SIZE, WriteUint64(x) + rest, before) == Ok(before.(size := x), rest)
    ensures RefField(skip)(OFFSET, WriteUint64(x) + rest, before) == Ok(before.(offset := x), rest)
    ensures RefField(skip)(SECTOR_ID, WriteUint64(x) + rest, before) == Ok(before.(sectorId := x), rest)
  {
    ReadWriteLimited(MAJ_UINT, TWO_64 - 1, x, rest);
    assert ReadUint64(WriteUint64(x) + rest) == Ok(x, rest);
    assert |SIZE| == 4 && |OFFSET| == 6 && |SECTOR_ID| == 8;
  }

  lemma RefStep(skip: Skip, t: Ref, seen: seq<Entry>, e: Entry, rest: seq<Byte>)
    requires IsRef(t) && e in RefEntries(t)
    ensures RefField(skip)(e.name, e.payload + rest, RefSoFar(t, seen)) == Ok(RefSoFar(t, seen + [e]), rest)
  {
    var a, b, c := NumberEntry(SIZE, t.size), NumberEntry(OFFSET, t.offset), NumberEntry(SECTOR_ID, t.sectorId);
    assert |a.name| == 4 && |b.name| == 6 && |c.name| == 8;
    var before := RefSoFar(t, seen);
    if e == a {
      RefFieldReads(skip, t.size, before, rest);
      assert RefSoFar(t, seen + [e]) == before.(size := t.size);
    } else if e == b {
      RefFieldReads(skip, t.offset, before, rest);
      assert RefSoFar(t, seen + [e]) == before.(offset := t.offset);
    } else {
      RefFieldReads(skip, t.sectorId, before, rest);
      assert RefSoFar(t, seen + [e]) == before.(sectorId := t.sectorId);
    }
  }

  /** The fields of a reference decode to the same reference in every order. */
  lemma DecodeRefAnyOrder(skip: Skip, t: Ref, es: seq<Entry>, rest: seq<Byte>)
    requires IsRef(t) && Arranges(es, RefEntries(t))
    ensures DecodeRef(skip, EncodeMap(es) + rest) == Ok(t, rest)
  {
    var vs := seq(|es| + 1, i requires 0 <= i <= |es| => RefSoFar(t, es[..i]));
    forall i, r | 0 <= i < |es|
      ensures RefField(skip)(es[i].name, es[i].payload + r, vs[i]) == Ok(vs[i + 1], r)
    {
      assert es[..i + 1] == es[..i] + [es[i]] && es[i] in es;
      RefStep(skip, t, es[..i], es[i], r);
    }
    DecodeEncodeMap(RefField(skip), es, vs, rest);
    assert es[..|es|] == es;
    assert RefEntries(t)[0] in es && RefEntries(t)[1] in es && RefEntries(t)[2] in es;
  }

  lemma DecodeEncodeRef(skip: Skip, t: Ref, rest: seq<Byte>)
    requires IsRef(t)
    ensures DecodeRef(skip, EncodeRef(t) + rest) == Ok(t, rest)
  {
    DecodeRefAnyOrder(skip, t, RefEntries(t), rest);
  }

  // ---------------------------------------------------------------- lists of references

  const REFS: seq<Byte> := [82, 101, 102, 115]

  /** An empty list leaves the references read before it in place. */
  function RefsField(skip: Skip): Field<seq<Ref>> {
    (name: seq<Byte>, bs: seq<Byte>, refs: seq<Ref>) =>
      if name == REFS then
        match ReadList((s: seq<Byte>) => DecodeRef(skip, s), bs)
        case Bad => Bad
        case Ok(more, rest) => Ok(if more == [] then refs else more, rest)
      else Ok(refs, skip(bs))
  }

  predicate IsRefs(refs: seq<Ref>) {
    |refs| <= MAX_LENGTH && forall t :: t in refs ==> IsRef(t)
  }

  function RefsEntry(refs: seq<Ref>): Entry
    requires IsRefs(refs)
  {
    Entry(REFS, WriteList(EncodeRef, refs))
  }

  function EncodeRefs(refs: seq<Ref>): seq<Byte>
    requires IsRefs(refs)
  {
    EncodeMap([RefsEntry(refs)])
  }

  function DecodeRefs(skip: Skip, bs: seq<Byte>): Parsed<seq<Ref>> {
    DecodeMap(RefsField(skip), bs, [])
  }

  lemma ReadWriteRefs(skip: Skip, refs: seq<Ref>, rest: seq<Byte>)
    requires IsRefs(refs)
    ensures ReadList((s: seq<Byte>) => DecodeRef(skip, s), WriteList(EncodeRef, refs) + rest) == Ok(refs, rest)
  {
    var read := (s: seq<Byte>) => DecodeRef(skip, s);
    forall t, r | t in refs ensures read(EncodeRef(t) + r) == Ok(t, r) { DecodeEncodeRef(skip, t, r); }
    ReadWriteMany(read, EncodeRef, refs, rest);
    ReadWriteLimited(MAJ_ARRAY, MAX_LENGTH, |refs|, WriteMany(EncodeRef, refs) + rest);
    Regroup(WriteHead(Head(MAJ_ARRAY, |refs|)), WriteMany(EncodeRef, refs), rest);
  }

  lemma DecodeEncodeRefs(skip: Skip, refs: seq<Ref>, rest: seq<Byte>)
    requires IsRefs(refs)
    ensures DecodeRefs(skip, EncodeRefs(refs) + rest) == Ok(refs, rest)
  {
    var e := RefsEntry(refs);
    forall i, r | 0 <= i < |[e]|
      ensures RefsField(skip)([e][i].name, [e][i].payload + r, [[], refs][i]) == Ok([[], refs][i + 1], r)
    {
      ReadWriteRefs(skip, refs, r);
    }
    DecodeEncodeMap(RefsField(skip), [e], [[], refs], rest);
  }

  // ---------------------------------------------------------------- the bytes on the wire

  /** Two entries, one after the other. */
  lemma TwoEntries(a: Entry, b: Entry)
    requires |a.name| <= MAX_LENGTH && |b.name| <= MAX_LENGTH
    ensures EncodeMap([a, b]) == [0xa2] + (WriteEntry(a) + WriteEntry(b))
  {
    ShortHead(MAJ_MAP, 2);
    assert [a, b][1..] == [b] && [b][1..] == [];
    assert WriteEntries([b]) == WriteEntry(b) + WriteEntries([b][1..]);
    assert WriteEntries([a, b]) == WriteEntry(a) + WriteEntries([a, b][1..]);
  }

  /** A small signed number: its value, or what it falls short of minus one. */
  lemma Int64Bytes(x: int)
    requires -24 <= x < 24
    ensures WriteInt64(x) == [if x >= 0 then x else 0x20 + (-1 - x)]
  {
    if x >= 0 {
      ShortHead(MAJ_UINT, x);
    } else {
      assert Wrap64(-x) == -x && Wrap64(-x - 1) == -x - 1;
      ShortHead(MAJ_NEGATIVE, -1 - x);
    }
  }

  lemma EntryBytes(e: Entry)
    requires |e.name| < 24
    ensures WriteEntry(e) == [0x60 + |e.name|] + e.name + e.payload
  {
    ShortHead(MAJ_TEXT, |e.name|);
  }

  /** A small ticket, byte by byte: the fields `Epoch` and `Value`, in that order. */
  lemma TicketBytes(x: int, d: seq<Byte>)
    requires -24 <= x < 24 && |d| < 24
    ensures EncodeTicket(Ticket(x, d)) ==
      [0xa2] + (([0x65] + EPOCH + [if x >= 0 then x else 0x20 + (-1 - x)]) + ([0x65] + VALUE + ([0x40 + |d|] + d)))
  {
    Int64Bytes(x);
    ShortHead(MAJ_BYTES, |d|);
    EntryBytes(EpochEntry(x));
    EntryBytes(ValueEntry(d));
    TwoEntries(EpochEntry(x), ValueEntry(d));
  }

  /** A small schedule, byte by byte: the fields `EndEpoch` and `StartEpoch`, in that order. */
  lemma ScheduleBytes(start: int, end: int)
    requires 0 <= start < 24 && 0 <= end < 24
    ensures EncodeSchedule(Schedule(start, end)) ==
      [0xa2] + (([0x68] + END_EPOCH + [end]) + ([0x6a] + START_EPOCH + [start]))
  {
    Int64Bytes(start);
    Int64Bytes(end);
    EntryBytes(EndEntry(end));
    EntryBytes(StartEntry(start));
    TwoEntries(EndEntry(end), StartEntry(start));
  }

  /** A small reference, byte by byte: the fields `Size`, `Offset` and `SectorID`, in that order. */
  lemma RefBytes(sector: nat, offset: nat, size: nat)
    requires sector < 24 && offset < 24 && size < 24
    ensures EncodeRef(Ref(sector, offset, size)) ==
      [0xa3] + (([0x64] + SIZE + [size]) + (([0x66] + OFFSET + [offset]) + ([0x68] + SECTOR_ID + [sector])))
  {
    NumberEntryBytes(SIZE, size);
    NumberEntryBytes(OFFSET, offset);
    NumberEntryBytes(SECTOR_ID, sector);
    ThreeEntries(NumberEntry(SIZE, size), NumberEntry(OFFSET, offset), NumberEntry(SECTOR_ID, sector));
  }

  lemma NumberEntryBytes(name: seq<Byte>, x: nat)
    requires |name| < 24 && x < 24
    ensures WriteEntry(NumberEntry(name, x)) == [0x60 + |name|] + name + [x]
  {
    ShortHead(MAJ_UINT, x);
    EntryBytes(NumberEntry(name, x));
  }

  lemma ThreeEntries(a: Entry, b: Entry, c: Entry)
    requires |a.name| <= MAX_LENGTH && |b.name| <= MAX_LENGTH && |c.name| <= MAX_LENGTH
    ensures EncodeMap([a, b, c]) == [0xa3] + (WriteEntry(a) + (WriteEntry(b) + WriteEntry(c)))
  {
    ShortHead(MAJ_MAP, 3);
    assert [a, b, c][1..] == [b, c] && [b, c][1..] == [c] && [c][1..] == [];
    assert WriteEntries([c]) == WriteEntry(c) + WriteEntries([c][1..]);
    assert WriteEntries([b, c]) == WriteEntry(b) + WriteEntries([b, c][1..]);
    assert WriteEntries([a, b, c]) == WriteEntry(a) + WriteEntries([a, b, c][1..]);
  }
}
