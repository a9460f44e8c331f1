/** The wire form of the networked blockstore's messages: fixed-length arrays. */
module NetCodec {
  import opened Tipsets
  import opened Cbor

  datatype Request = Request(kind: nat, id: nat, cids: seq<CidBytes>, data: seq<seq<Byte>>)
  datatype Response = Response(kind: nat, id: nat, data: seq<Byte>)
  datatype RpcError = RpcError(kind: nat, msg: seq<Byte>, cid: Option<CidBytes>)

  const U8_MAX := 255

  // ---------------------------------------------------------------- lists

  function WriteBlob(d: seq<Byte>): seq<Byte>
    requires |d| <= BYTE_ARRAY_MAX_LEN
  {
    WriteString(MAJ_BYTES, d)
  }

  function ReadBlob(bs: seq<Byte>): Parsed<seq<Byte>> {
    ReadString(MAJ_BYTES, BYTE_ARRAY_MAX_LEN, bs)
  }

  lemma ReadWriteCids(cs: seq<CidBytes>, rest: seq<Byte>)
    requires |cs| <= MAX_LENGTH && forall c :: c in cs ==> Writable(c) && Readable(c)
    ensures ReadList(ReadCid, WriteList(WriteCid, cs) + rest) == Ok(cs, rest)
  {
    forall c, r | c in cs ensures ReadCid(WriteCid(c) + r) == Ok(c, r) { ReadWriteCid(c, r); }
    var body := WriteMany(WriteCid, cs);
    ReadWriteMany(ReadCid, WriteCid, cs, rest);
    ReadWriteLimited(MAJ_ARRAY, MAX_LENGTH, |cs|, body + rest);
    Regroup(WriteHead(Head(MAJ_ARRAY, |cs|)), body, rest);
  }

  lemma ReadLongCids(cs: seq<CidBytes>, rest: seq<Byte>)
    requires |cs| <= MAX_LENGTH && (forall c :: c in cs ==> Writable(c)) && exists c :: c in cs && !Readable(c)
    ensures ReadList(ReadCid, WriteList(WriteCid, cs) + rest) == Bad
  {
    forall c, r | c in cs
      ensures ReadCid(WriteCid(c) + r) == if Readable(c) then Ok(c, r) else Bad
    {
      if Readable(c) { ReadWriteCid(c, r); } else { ReadLongCid(c, r); }
    }
    var body := WriteMany(WriteCid, cs);
    ReadManySpoilt(ReadCid, WriteCid, Readable, cs, rest);
    ReadWriteLimited(MAJ_ARRAY, MAX_LENGTH, |cs|, body + rest);
    Regroup(WriteHead(Head(MAJ_ARRAY, |cs|)), body, rest);
  }

  lemma WriteReadCids(bs: seq<Byte>)
    requires ReadList(ReadCid, bs).Ok?
    ensures var r := ReadList(ReadCid, bs);
      && |r.value| <= MAX_LENGTH && (forall c :: c in r.value ==> Writable(c) && Readable(c))
      && bs == WriteList(WriteCid, r.value) + r.rest
  {
    forall s | ReadCid(s).Ok?
      ensures WriteCid.requires(ReadCid(s).value) && Readable(ReadCid(s).value)
      ensures s == WriteCid(ReadCid(s).value) + ReadCid(s).rest
    {
      WriteReadCid(s);
    }
    var head, r := ReadLimited(MAJ_ARRAY, MAX_LENGTH, bs), ReadList(ReadCid, bs);
    WriteReadLimited(MAJ_ARRAY, MAX_LENGTH, bs);
    WriteReadMany(ReadCid, WriteCid, head.value, head.rest);
    ReadManyAll(ReadCid, Readable, head.value, head.rest);
    Regroup(WriteHead(Head(MAJ_ARRAY, head.value)), WriteMany(WriteCid, r.value), r.rest);
  }

  lemma ReadWriteBlobs(ds: seq<seq<Byte>>, rest: seq<Byte>)
    requires |ds| <= MAX_LENGTH && forall d :: d in ds ==> |d| <= BYTE_ARRAY_MAX_LEN
    ensures ReadList(ReadBlob, WriteList(WriteBlob, ds) + rest) == Ok(ds, rest)
  {
    forall d, r | d in ds
      ensures ReadBlob(WriteBlob(d) + r) == Ok(d, r)
    {
      ReadWriteString(MAJ_BYTES, BYTE_ARRAY_MAX_LEN, d, r);
    }
    var body := WriteMany(WriteBlob, ds);
    ReadWriteMany(ReadBlob, WriteBlob, ds, rest);
    ReadWriteLimited(MAJ_ARRAY, MAX_LENGTH, |ds|, body + rest);
    Regroup(WriteHead(Head(MAJ_ARRAY, |ds|)), body, rest);
  }

  lemma WriteReadBlobs(bs: seq<Byte>)
    requires ReadList(ReadBlob, bs).Ok?
    ensures var r := ReadList(ReadBlob, bs);
      && |r.value| <= MAX_LENGTH && (forall d :: d in r.value ==> |d| <= BYTE_ARRAY_MAX_LEN)
      && bs == WriteList(WriteBlob, r.value) + r.rest
  {
    forall s | ReadBlob(s).Ok?
      ensures |ReadBlob(s).value| <= BYTE_ARRAY_MAX_LEN && s == WriteBlob(ReadBlob(s).value) + ReadBlob(s).rest
    {
      WriteReadString(MAJ_BYTES, BYTE_ARRAY_MAX_LEN, s);
    }
    var head, r := ReadLimited(MAJ_ARRAY, MAX_LENGTH, bs), ReadList(ReadBlob, bs);
    WriteReadLimited(MAJ_ARRAY, MAX_LENGTH, bs);
    WriteReadMany(ReadBlob, WriteBlob, head.value, head.rest);
    Regroup(WriteHead(Head(MAJ_ARRAY, head.value)), WriteMany(WriteBlob, r.value), r.rest);
  }

  // ---------------------------------------------------------------- requests

  predicate IsRequest(q: Request) {
    && q.kind <= U8_MAX && q.id < TWO_64
    && |q.cids| <= MAX_LENGTH && (forall c :: c in q.cids ==> Writable(c))
    && |q.data| <= MAX_LENGTH && (forall d :: d in q.data ==> |d| <= BYTE_ARRAY_MAX_LEN)
  }

  predicate ReadableRequest(q: Request) {
    IsRequest(q) && forall c :: c in q.cids ==> Readable(c)
  }

  function EncodeRequest(q: Request): seq<Byte>
    requires IsRequest(q)
  {
    WriteHead(Head(MAJ_ARRAY, 4)) + (WriteHead(Head(MAJ_UINT, q.kind)) + (WriteHead(Head(MAJ_UINT, q.id)) +
    (WriteList(WriteCid, q.cids) + WriteList(WriteBlob, q.data))))
  }

  function DecodeRequest(bs: seq<Byte>): Parsed<Request> {
    var a := ReadHead(bs);
    if a.Bad? || a.value != Head(MAJ_ARRAY, 4) then Bad
    else
      var k := ReadLimited(MAJ_UINT, U8_MAX, a.rest);
      if k.Bad? then Bad
      else
        var i := ReadLimited(MAJ_UINT, TWO_64 - 1, k.rest);
        if i.Bad? then Bad
        else
          var cs := ReadList(ReadCid, i.rest);
          if cs.Bad? then Bad
          else
            var ds := ReadList(ReadBlob, cs.rest);
            if ds.Bad? then Bad else Ok(Request(k.value, i.value, cs.value, ds.value), ds.rest)
  }

  /** The encoding in front of a stream, field by field. */
  lemma RequestFields(q: Request, rest: seq<Byte>)
    requires IsRequest(q)
    ensures EncodeRequest(q) + rest ==
      WriteHead(Head(MAJ_ARRAY, 4)) + (WriteHead(Head(MAJ_UINT, q.kind)) + (WriteHead(Head(MAJ_UINT, q.id)) +
      (WriteList(WriteCid, q.cids) + (WriteList(WriteBlob, q.data) + rest))))
  {
    var a, k, i := WriteHead(Head(MAJ_ARRAY, 4)), WriteHead(Head(MAJ_UINT, q.kind)), WriteHead(Head(MAJ_UINT, q.id));
    var cs, ds := WriteList(WriteCid, q.cids), WriteList(WriteBlob, q.data);
    Regroup(a, k + (i + (cs + ds)), rest);
    Regroup(k, i + (cs + ds), rest);
    Regroup(i, cs + ds, rest);
    Regroup(cs, ds, rest);
  }

  lemma DecodeEncodeRequest(q: Request, rest: seq<Byte>)
    requires ReadableRequest(q)
    ensures DecodeRequest(EncodeRequest(q) + rest) == Ok(q, rest)
  {
    var s4 := WriteList(WriteBlob, q.data) + rest;
    var s3 := WriteList(WriteCid, q.cids) + s4;
    var s2 := WriteHead(Head(MAJ_UINT, q.id)) + s3;
    var s1 := WriteHead(Head(MAJ_UINT, q.kind)) + s2;
    RequestFields(q, rest);
    ReadWriteHead(Head(MAJ_ARRAY, 4), s1);
    ReadWriteLimited(MAJ_UINT, U8_MAX, q.kind, s2);
    ReadWriteLimited(MAJ_UINT, TWO_64 - 1, q.id, s3);
    ReadWriteCids(q.cids, s4);
    ReadWriteBlobs(q.data, rest);
  }

  /** A request with an identifier too long to be read is written and not decoded. */
  lemma DecodeLongRequest(q: Request, rest: seq<Byte>)
    requires IsRequest(q) && !ReadableRequest(q)
    ensures DecodeRequest(EncodeRequest(q) + rest) == Bad
  {
    var s4 := WriteList(WriteBlob, q.data) + rest;
    var s3 := WriteList(WriteCid, q.cids) + s4;
    var s2 := WriteHead(Head(MAJ_UINT, q.id)) + s3;
    var s1 := WriteHead(Head(MAJ_UINT, q.kind)) + s2;
    RequestFields(q, rest);
    ReadWriteHead(Head(MAJ_ARRAY, 4), s1);
    ReadWriteLimited(MAJ_UINT, U8_MAX, q.kind, s2);
    ReadWriteLimited(MAJ_UINT, TWO_64 - 1, q.id, s3);
    ReadLongCids(q.cids, s4);
  }

  /** Only the canonical encoding of a request is accepted. */
  lemma EncodeDecodeRequest(bs: seq<Byte>)
    requires DecodeRequest(bs).Ok?
    ensures ReadableRequest(DecodeRequest(bs).value)
    ensures bs == EncodeRequest(DecodeRequest(bs).value) + DecodeRequest(bs).rest
  {
    var a := ReadHead(bs);
    WriteReadHead(bs);
    var k := ReadLimited(MAJ_UINT, U8_MAX, a.rest);
    WriteReadLimited(MAJ_UINT, U8_MAX, a.rest);
    var i := ReadLimited(MAJ_UINT, TWO_64 - 1, k.rest);
    WriteReadLimited(MAJ_UINT, TWO_64 - 1, k.rest);
    WriteReadCids(i.rest);
    WriteReadBlobs(ReadList(ReadCid, i.rest).rest);
    RequestFields(DecodeRequest(bs).value, DecodeRequest(bs).rest);
  }

  // ---------------------------------------------------------------- responses

  predicate IsResponse(p: Response) {
    p.kind <= U8_MAX && p.id < TWO_64 && |p.data| <= BYTE_ARRAY_MAX_LEN
  }

  function EncodeResponse(p: Response): seq<Byte>
    requires IsResponse(p)
  {
    WriteHead(Head(MAJ_ARRAY, 3)) + (WriteHead(Head(MAJ_UINT, p.kind)) + (WriteHead(Head(MAJ_UINT, p.id)) +
    WriteString(MAJ_BYTES, p.data)))
  }

  function DecodeResponse(bs: seq<Byte>): Parsed<Response> {
    var a := ReadHead(bs);
    if a.Bad? || a.value != Head(MAJ_ARRAY, 3) then Bad
    else
      var k := ReadLimited(MAJ_UINT, U8_MAX, a.rest);
      if k.Bad? then Bad
      else
        var i := ReadLimited(MAJ_UINT, TWO_64 - 1, k.rest);
        if i.Bad? then Bad
        else
          var d := ReadString(MAJ_BYTES, BYTE_ARRAY_MAX_LEN, i.rest);
          if d.Bad? then Bad else Ok(Response(k.value, i.value, d.value), d.rest)
  }

  lemma ResponseFields(p: Response, rest: seq<Byte>)
    requires IsResponse(p)
    ensures EncodeResponse(p) + rest ==
      WriteHead(Head(MAJ_ARRAY, 3)) + (WriteHead(Head(MAJ_UINT, p.kind)) +
      (WriteHead(Head(MAJ_UINT, p.id)) + (WriteString(MAJ_BYTES, p.data) + rest)))
  {
    var a, k, i := WriteHead(Head(MAJ_ARRAY, 3)), WriteHead(Head(MAJ_UINT, p.kind)), WriteHead(Head(MAJ_UINT, p.id));
    var d := WriteString(MAJ_BYTES, p.data);
    Regroup(a, k + (i + d), rest);
    Regroup(k, i + d, rest);
    Regroup(i, d, rest);
  }

  lemma DecodeEncodeResponse(p: Response, rest: seq<Byte>)
    requires IsResponse(p)
    ensures DecodeResponse(EncodeResponse(p) + rest) == Ok(p, rest)
  {
    var s3 := WriteString(MAJ_BYTES, p.data) + rest;
    var s2 := WriteHead(Head(MAJ_UINT, p.id)) + s3;
    ResponseFields(p, rest);
    ReadWriteHead(Head(MAJ_ARRAY, 3), WriteHead(Head(MAJ_UINT, p.kind)) + s2);
    ReadWriteLimited(MAJ_UINT, U8_MAX, p.kind, s2);
    ReadWriteLimited(MAJ_UINT, TWO_64 - 1, p.id, s3);
    ReadWriteString(MAJ_BYTES, BYTE_ARRAY_MAX_LEN, p.data, rest);
  }

  /** Only the canonical encoding of a response is accepted. */
  lemma EncodeDecodeResponse(bs: seq<Byte>)
    requires DecodeResponse(bs).Ok?
    ensures IsResponse(DecodeResponse(bs).value)
    ensures bs == EncodeResponse(DecodeResponse(bs).value) + DecodeResponse(bs).rest
  {
    var a := ReadHead(bs);
    WriteReadHead(bs);
    var k := ReadLimited(MAJ_UINT, U8_MAX, a.rest);
    WriteReadLimited(MAJ_UINT, U8_MAX, a.rest);
    var i := ReadLimited(MAJ_UINT, TWO_64 - 1, k.rest);
    WriteReadLimited(MAJ_UINT, TWO_64 - 1, k.rest);
    WriteReadString(MAJ_BYTES, BYTE_ARRAY_MAX_LEN, i.rest);
    ResponseFields(DecodeResponse(bs).value, DecodeResponse(bs).rest);
  }

  // ---------------------------------------------------------------- errors

  predicate IsError(e: RpcError) {
    e.kind <= U8_MAX && |e.msg| <= MAX_LENGTH && (e.cid.Some? ==> Writable(e.cid.value))
  }

  function WriteOptionalCid(c: Option<CidBytes>): seq<Byte>
    requires c.Some? ==> Writable(c.value)
  {
    if c.None? then [NULL_BYTE] else WriteCid(c.value)
  }

  /** A null byte stands for no identifier; any other byte is put back. */
  function ReadOptionalCid(bs: seq<Byte>): Parsed<Option<CidBytes>> {
    if bs == [] then Bad
    else if bs[0] == NULL_BYTE then Ok(None, bs[1..])
    else
      match ReadCid(bs)
      case Bad => Bad
      case Ok(c, rest) => Ok(Some(c), rest)
  }

  lemma ReadWriteOptionalCid(c: Option<CidBytes>, rest: seq<Byte>)
    requires c.Some? ==> Readable(c.value)
    ensures ReadOptionalCid(WriteOptionalCid(c) + rest) == Ok(c, rest)
  {
    if c.Some? {
      ReadWriteCid(c.value, rest);
      assert WriteCid(c.value)[0] == 216;
    }
  }

  function EncodeError(e: RpcError): seq<Byte>
    requires IsError(e)
  {
    WriteHead(Head(MAJ_ARRAY, 3)) + (WriteHead(Head(MAJ_UINT, e.kind)) +
    (WriteString(MAJ_TEXT, e.msg) + WriteOptionalCid(e.cid)))
  }

  function DecodeError(bs: seq<Byte>): Parsed<RpcError> {
    var a := ReadHead(bs);
    if a.Bad? || a.value != Head(MAJ_ARRAY, 3) then Bad
    else
      var k := ReadLimited(MAJ_UINT, U8_MAX, a.rest);
      if k.Bad? then Bad
      else
        var m := ReadString(MAJ_TEXT, MAX_LENGTH, k.rest);
        if m.Bad? then Bad
        else
          var c := ReadOptionalCid(m.rest);
          if c.Bad? then Bad else Ok(RpcError(k.value, m.value, c.value), c.rest)
  }

  lemma ErrorFields(e: RpcError, rest: seq<Byte>)
    requires IsError(e)
    ensures EncodeError(e) + rest ==
      WriteHead(Head(MAJ_ARRAY, 3)) + (WriteHead(Head(MAJ_UINT, e.kind)) +
      (WriteString(MAJ_TEXT, e.msg) + (WriteOptionalCid(e.cid) + rest)))
  {
    var a, k := WriteHead(Head(MAJ_ARRAY, 3)), WriteHead(Head(MAJ_UINT, e.kind));
    var m, c := WriteString(MAJ_TEXT, e.msg), WriteOptionalCid(e.cid);
    Regroup(a, k + (m + c), rest);
    Regroup(k, m + c, rest);
    Regroup(m, c, rest);
  }

  lemma DecodeEncodeError(e: RpcError, rest: seq<Byte>)
    requires IsError(e) && (e.cid.Some? ==> Readable(e.cid.value))
    ensures DecodeError(EncodeError(e) + rest) == Ok(e, rest)
  {
    var s3 := WriteOptionalCid(e.cid) + rest;
    var s2 := WriteString(MAJ_TEXT, e.msg) + s3;
    ErrorFields(e, rest);
    ReadWriteHead(Head(MAJ_ARRAY, 3), WriteHead(Head(MAJ_UINT, e.kind)) + s2);
    ReadWriteLimited(MAJ_UINT, U8_MAX, e.kind, s2);
    ReadWriteString(MAJ_TEXT, MAX_LENGTH, e.msg, s3);
    ReadWriteOptionalCid(e.cid, rest);
  }

  lemma WriteReadOptionalCid(bs: seq<Byte>)
    requires ReadOptionalCid(bs).Ok?
    ensures var r := ReadOptionalCid(bs);
      (r.value.Some? ==> Readable(r.value.value)) && bs == WriteOptionalCid(r.value) + r.rest
  {
    if bs[0] == NULL_BYTE {
      assert bs == [NULL_BYTE] + bs[1..];
    } else {
      WriteReadCid(bs);
    }
  }

  /** Only the canonical encoding of an error is accepted. */
  lemma EncodeDecodeError(bs: seq<Byte>)
    requires DecodeError(bs).Ok?
    ensures IsError(DecodeError(bs).value)
    ensures bs == EncodeError(DecodeError(bs).value) + DecodeError(bs).rest
  {
    var a := ReadHead(bs);
    WriteReadHead(bs);
    var k := ReadLimited(MAJ_UINT, U8_MAX, a.rest);
    WriteReadLimited(MAJ_UINT, U8_MAX, a.rest);
    var m := ReadString(MAJ_TEXT, MAX_LENGTH, k.rest);
    WriteReadString(MAJ_TEXT, MAX_LENGTH, k.rest);
    WriteReadOptionalCid(m.rest);
    ErrorFields(DecodeError(bs).value, DecodeError(bs).rest);
  }

  // ---------------------------------------------------------------- the bytes on the wire

  /** A small request, byte by byte: an array of its type, its number, its identifiers and its data. */
  lemma RequestBytes(kind: Byte, id: Byte, c: CidBytes, d: seq<Byte>)
    requires kind < 24 && id < 24 && 0 < |c| < 23 && |d| < 24
    ensures EncodeRequest(Request(kind, id, [c], [d])) ==
      [0x84] + ([kind] + ([id] + (([0x81] + ([0xd8, 42, 0x41 + |c|, 0] + c)) + ([0x81] + ([0x40 + |d|] + d)))))
  {
    ShortHead(MAJ_ARRAY, 4);
    ShortHead(MAJ_UINT, kind);
    ShortHead(MAJ_UINT, id);
    OneCid(c);
    OneBlob(d);
  }

  lemma OneCid(c: CidBytes)
    requires Writable(c) && |c| < 23
    ensures WriteList(WriteCid, [c]) == [0x81] + ([0xd8, 42, 0x41 + |c|, 0] + c)
  {
    ShortHead(MAJ_ARRAY, 1);
    WrittenCid(c);
    assert WriteMany(WriteCid, [c]) == WriteCid(c) + WriteMany(WriteCid, [c][1..]);
  }

  lemma OneBlob(d: seq<Byte>)
    requires |d| < 24
    ensures WriteList(WriteBlob, [d]) == [0x81] + ([0x40 + |d|] + d)
  {
    ShortHead(MAJ_ARRAY, 1);
    ShortHead(MAJ_BYTES, |d|);
    assert WriteMany(WriteBlob, [d]) == WriteBlob(d) + WriteMany(WriteBlob, [d][1..]);
  }

  /** A small response and a small error, byte by byte. */
  lemma ResponseBytes(kind: Byte, id: Byte, d: seq<Byte>)
    requires kind < 24 && id < 24 && |d| < 24
    ensures EncodeResponse(Response(kind, id, d)) == [0x83, kind, id, 0x40 + |d|] + d
    ensures EncodeError(RpcError(kind, d, None)) == [0x83, kind, 0x60 + |d|] + d + [0xf6]
  {
    ShortHead(MAJ_ARRAY, 3);
    ShortHead(MAJ_UINT, kind);
    ShortHead(MAJ_UINT, id);
    ShortHead(MAJ_BYTES, |d|);
    ShortHead(MAJ_TEXT, |d|);
  }

  // ---------------------------------------------------------------- the stream code

  predicate Defined(c: CidBytes) {
    |c| > 0
  }

  /** Writes a request field by field, giving up where a length limit is exceeded. */
  method MarshalRequest(q: Request) returns (r: Option<seq<Byte>>)
    requires q.kind <= U8_MAX && q.id < TWO_64 && forall c :: c in q.cids ==> |c| < TWO_64 - 1
    ensures r == if IsRequest(q) then Some(EncodeRequest(q)) else None
  {
    if |q.cids| > MAX_LENGTH { return None; }
    assert forall c :: c in q.cids && Defined(c) ==> Writable(c) && WriteCid.requires(c);
    var cids := WriteLoop(Defined, WriteCid, q.cids);
    if cids.None? { return None; }
    if |q.data| > MAX_LENGTH { return None; }
    var blobs := WriteLoop((d: seq<Byte>) => |d| <= BYTE_ARRAY_MAX_LEN, WriteBlob, q.data);
    if blobs.None? { return None; }
    return Some(WriteHead(Head(MAJ_ARRAY, 4)) + (WriteHead(Head(MAJ_UINT, q.kind)) + (WriteHead(Head(MAJ_UINT, q.id)) +
      ((WriteHead(Head(MAJ_ARRAY, |q.cids|)) + cids.value) + (WriteHead(Head(MAJ_ARRAY, |q.data|)) + blobs.value)))));
  }

  /** Reads a request field by field from a stream consumed as it goes. */
  method UnmarshalRequest(bs: seq<Byte>) returns (r: Parsed<Request>)
    ensures r == DecodeRequest(bs)
  {
    var a := ReadHead(bs);
    if a.Bad? || a.value != Head(MAJ_ARRAY, 4) { return Bad; }
    var kind := ReadLimited(MAJ_UINT, U8_MAX, a.rest);
    if kind.Bad? { return Bad; }
    var id := ReadLimited(MAJ_UINT, TWO_64 - 1, kind.rest);
    if id.Bad? { return Bad; }
    var n := ReadLimited(MAJ_ARRAY, MAX_LENGTH, id.rest);
    if n.Bad? { return Bad; }
    var cids := ReadLoop(ReadCid, n.value, n.rest);
    if cids.Bad? { return Bad; }
    var m := ReadLimited(MAJ_ARRAY, MAX_LENGTH, cids.rest);
    if m.Bad? { return Bad; }
    var data := ReadLoop(ReadBlob, m.value, m.rest);
    if data.Bad? { return Bad; }
    return Ok(Request(kind.value, id.value, cids.value, data.value), data.rest);
  }
}
