/** The part of CBOR the codecs use (sections 3, 3.1, 3.3 and 3.4 of RFC 8949): item
    headers in their shortest form, byte and text strings, and tagged identifiers. */
module Cbor {
  import opened Tipsets

  type Byte = b: nat | b < 256

  /** A value read from the front of a stream, and what is left of it. */
  datatype Parsed<+T> = Ok(value: T, rest: seq<Byte>) | Bad

  datatype Head = Head(major: nat, extra: nat)

  const MAJ_UINT := 0
  const MAJ_NEGATIVE := 1
  const MAJ_BYTES := 2
  const MAJ_TEXT := 3
  const MAJ_ARRAY := 4
  const MAJ_MAP := 5
  const MAJ_TAG := 6
  const NULL_BYTE: Byte := 0xf6

  const MAX_LENGTH := 8192
  const BYTE_ARRAY_MAX_LEN := 2097152
  const CID_MAX_LEN := 512
  const CID_TAG := 42

  const TWO_32 := 0x1_0000_0000
  const TWO_64 := 0x1_0000_0000_0000_0000

  // ---------------------------------------------------------------- big-endian numbers

  function Pow256(n: nat): nat {
    if n == 0 then 1 else 256 * Pow256(n - 1)
  }

  function ToBytes(x: nat, n: nat): (r: seq<Byte>)
    ensures |r| == n
  {
    if n == 0 then [] else ToBytes(x / 256, n - 1) + [x % 256]
  }

  function FromBytes(bs: seq<Byte>): nat {
    if bs == [] then 0 else 256 * FromBytes(bs[..|bs| - 1]) + bs[|bs| - 1]
  }

  lemma {:induction false} FromToBytes(x: nat, n: nat)
    requires x < Pow256(n)
    ensures FromBytes(ToBytes(x, n)) == x
  {
    if n > 0 {
      FromToBytes(x / 256, n - 1);
      assert ToBytes(x, n)[..n - 1] == ToBytes(x / 256, n - 1);
    }
  }

  lemma {:induction false} ToFromBytes(bs: seq<Byte>)
    ensures FromBytes(bs) < Pow256(|bs|) && ToBytes(FromBytes(bs), |bs|) == bs
  {
    if bs != [] {
      ToFromBytes(bs[..|bs| - 1]);
    }
  }

  lemma Powers()
    ensures Pow256(1) == 256 && Pow256(2) == 65536 && Pow256(4) == TWO_32 && Pow256(8) == TWO_64
  {
    assert Pow256(3) == 256 * Pow256(2);
    assert Pow256(5) == 256 * Pow256(4);
    assert Pow256(6) == 256 * Pow256(5);
    assert Pow256(7) == 256 * Pow256(6);
  }

  // ---------------------------------------------------------------- item headers

  predicate IsHead(h: Head) {
    h.major < 8 && h.extra < TWO_64
  }

  /** How many bytes follow the initial byte. */
  function Width(extra: nat): nat {
    if extra < 24 then 0 else if extra < 256 then 1 else if extra < 65536 then 2 else if extra < TWO_32 then 4 else 8
  }

  /** The low five bits of the initial byte that announce that many bytes. */
  function WidthCode(n: nat): Byte {
    if n == 1 then 24 else if n == 2 then 25 else if n == 4 then 26 else 27
  }

  function WriteHead(h: Head): seq<Byte>
    requires IsHead(h)
  {
    var n := Width(h.extra);
    if n == 0 then [(h.major * 32 + h.extra) as Byte]
    else [(h.major * 32 + WidthCode(n)) as Byte] + ToBytes(h.extra, n)
  }

  function CodeWidth(code: nat): nat {
    if code == 24 then 1 else if code == 25 then 2 else if code == 26 then 4 else 8
  }

  /** The argument in `n` bytes; one that fits a shorter form is not canonical. */
  function ReadWide(major: nat, n: nat, bs: seq<Byte>): Parsed<Head> {
    if |bs| < n then Bad
    else
      var extra := FromBytes(bs[..n]);
      if Width(extra) != n then Bad else Ok(Head(major, extra), bs[n..])
  }

  function ReadHead(bs: seq<Byte>): (r: Parsed<Head>)
    ensures r.Ok? ==> |r.rest| < |bs|
  {
    if bs == [] then Bad
    else
      var major, code := bs[0] / 32, bs[0] % 32;
      if code < 24 then Ok(Head(major, code), bs[1..])
      else if code > 27 then Bad
      else ReadWide(major, CodeWidth(code), bs[1..])
  }

  lemma WideEnough(extra: nat)
    requires 24 <= extra < TWO_64
    ensures extra < Pow256(Width(extra))
  {
    Powers();
  }

  lemma ReadWideWritten(major: nat, extra: nat, rest: seq<Byte>)
    requires 24 <= extra < TWO_64
    ensures ReadWide(major, Width(extra), ToBytes(extra, Width(extra)) + rest) == Ok(Head(major, extra), rest)
  {
    var n := Width(extra);
    WideEnough(extra);
    FromToBytes(extra, n);
    assert (ToBytes(extra, n) + rest)[..n] == ToBytes(extra, n);
    assert (ToBytes(extra, n) + rest)[n..] == rest;
  }

  lemma FirstByte(major: nat, code: nat)
    requires major < 8 && code < 32
    ensures (major * 32 + code) / 32 == major && (major * 32 + code) % 32 == code
  {
  }

  lemma ReadWriteHead(h: Head, rest: seq<Byte>)
    requires IsHead(h)
    ensures ReadHead(WriteHead(h) + rest) == Ok(h, rest)
  {
    var bs := WriteHead(h) + rest;
    if h.extra < 24 {
      FirstByte(h.major, h.extra);
      assert bs[1..] == rest;
    } else {
      var n := Width(h.extra);
      FirstByte(h.major, WidthCode(n));
      ReadWideWritten(h.major, h.extra, rest);
      assert bs[1..] == ToBytes(h.extra, n) + rest;
    }
  }

  /** A number in `n` bytes that needs all of them is written back the same way. */
  lemma RewriteWide(first: Byte, wide: seq<Byte>, code: nat)
    requires 24 <= code <= 27 && first % 32 == code && |wide| == CodeWidth(code) == Width(FromBytes(wide))
    ensures FromBytes(wide) < TWO_64
    ensures WriteHead(Head(first / 32, FromBytes(wide))) == [first] + wide
  {
    Powers();
    ToFromBytes(wide);
    assert WidthCode(CodeWidth(code)) == code;
    assert first == first / 32 * 32 + code;
  }

  /** Only the canonical encoding of a header is accepted. */
  lemma WriteReadHead(bs: seq<Byte>)
    requires ReadHead(bs).Ok?
    ensures IsHead(ReadHead(bs).value)
    ensures bs == WriteHead(ReadHead(bs).value) + ReadHead(bs).rest
  {
    var code := bs[0] % 32;
    if code < 24 {
      assert bs == [bs[0]] + bs[1..];
    } else {
      var n := CodeWidth(code);
      RewriteWide(bs[0], bs[1..][..n], code);
      assert bs == ([bs[0]] + bs[1..][..n]) + bs[1..][n..];
    }
  }

  /** A header whose argument is below 24: the major type in the top three bits of its one byte. */
  lemma ShortHead(major: nat, x: nat)
    requires major < 8 && x < 24
    ensures WriteHead(Head(major, x)) == [major * 32 + x]
  {
  }

  /** The bytes of a header with a longer argument: the major type and a code for the width, and then the bytes of
      the argument, the most significant first. */
  lemma LongHead(major: nat, x: nat)
    requires major < 8 && 24 <= x < TWO_64
    ensures var m, x1 := major * 32, x / 256;
      var x2 := x1 / 256;
      var x3 := x2 / 256;
      && (x < 256 ==> WriteHead(Head(major, x)) == [m + 24, x])
      && (256 <= x < 65536 ==> WriteHead(Head(major, x)) == [m + 25, x1, x % 256])
      && (65536 <= x < TWO_32 ==> WriteHead(Head(major, x)) == [m + 26, x3, x2 % 256, x1 % 256, x % 256])
      && (TWO_32 <= x ==>
          WriteHead(Head(major, x)) == [m + 27] + ToBytes(x3 / 256, 4) + [x3 % 256, x2 % 256, x1 % 256, x % 256])
  {
    var n := Width(x);
    LastTwo(x, n);
    if n > 2 { LastTwo(x / 256 / 256, n - 2); }
  }

  lemma LastTwo(x: nat, n: nat)
    ensures n == 1 ==> ToBytes(x, n) == [x % 256]
    ensures n >= 2 ==> ToBytes(x, n) == ToBytes(x / 256 / 256, n - 2) + [x / 256 % 256, x % 256]
  {
    if n == 1 {
      assert ToBytes(x, 1) == ToBytes(x / 256, 0) + [x % 256];
    } else if n >= 2 {
      assert ToBytes(x, n) == ToBytes(x / 256, n - 1) + [x % 256];
      assert ToBytes(x / 256, n - 1) == ToBytes(x / 256 / 256, n - 2) + [x / 256 % 256];
    }
  }

  // ---------------------------------------------------------------- strings

  /** A header of the given major type whose argument is at most `limit`. */
  function ReadLimited(major: nat, limit: nat, bs: seq<Byte>): (r: Parsed<nat>)
    ensures r.Ok? ==> |r.rest| < |bs|
  {
    match ReadHead(bs)
    case Bad => Bad
    case Ok(h, rest) => if h.major != major || h.extra > limit then Bad else Ok(h.extra, rest)
  }

  lemma ReadWriteLimited(major: nat, limit: nat, x: nat, rest: seq<Byte>)
    requires major < 8 && x < TWO_64
    ensures ReadLimited(major, limit, WriteHead(Head(major, x)) + rest) == if x <= limit then Ok(x, rest) else Bad
  {
    ReadWriteHead(Head(major, x), rest);
  }

  lemma WriteReadLimited(major: nat, limit: nat, bs: seq<Byte>)
    requires ReadLimited(major, limit, bs).Ok?
    ensures var r := ReadLimited(major, limit, bs);
      major < 8 && r.value < TWO_64 && r.value <= limit && bs == WriteHead(Head(major, r.value)) + r.rest
  {
    WriteReadHead(bs);
  }

  function WriteString(major: nat, s: seq<Byte>): seq<Byte>
    requires major < 8 && |s| < TWO_64
  {
    WriteHead(Head(major, |s|)) + s
  }

  function ReadString(major: nat, limit: nat, bs: seq<Byte>): (r: Parsed<seq<Byte>>)
    ensures r.Ok? ==> |r.rest| < |bs|
  {
    match ReadLimited(major, limit, bs)
    case Bad => Bad
    case Ok(n, rest) => if |rest| < n then Bad else Ok(rest[..n], rest[n..])
  }

  lemma ReadWriteString(major: nat, limit: nat, s: seq<Byte>, rest: seq<Byte>)
    requires major < 8 && |s| <= limit < TWO_64
    ensures ReadString(major, limit, WriteString(major, s) + rest) == Ok(s, rest)
  {
    ReadWriteLimited(major, limit, |s|, s + rest);
    assert WriteString(major, s) + rest == WriteHead(Head(major, |s|)) + (s + rest);
  }

  lemma WriteReadString(major: nat, limit: nat, bs: seq<Byte>)
    requires ReadString(major, limit, bs).Ok?
    ensures var r := ReadString(major, limit, bs);
      major < 8 && |r.value| <= limit && |r.value| < TWO_64 && bs == WriteString(major, r.value) + r.rest
  {
    WriteReadLimited(major, limit, bs);
    var head := ReadLimited(major, limit, bs);
    assert head.rest == head.rest[..head.value] + head.rest[head.value..];
  }

  // ---------------------------------------------------------------- identifiers

  /** An identifier is its binary form; the undefined one is empty. */
  type CidBytes = seq<Byte>

  /** Any defined identifier can be written (its length is a machine number). */
  predicate Writable(c: CidBytes) {
    0 < |c| < TWO_64 - 1
  }

  /** Reading accepts only identifiers below a length limit. */
  predicate Readable(c: CidBytes) {
    Writable(c) && |c| < CID_MAX_LEN
  }

  /** The byte string under the tag starts with a zero byte. */
  function WriteTagged(c: CidBytes): seq<Byte>
    requires Writable(c)
  {
    WriteString(MAJ_BYTES, [0] + c)
  }

  function ReadTagged(bs: seq<Byte>): (r: Parsed<CidBytes>)
    ensures r.Ok? ==> |r.rest| < |bs|
  {
    match ReadString(MAJ_BYTES, CID_MAX_LEN, bs)
    case Bad => Bad
    case Ok(buf, rest) => if |buf| < 2 || buf[0] != 0 then Bad else Ok(buf[1..], rest)
  }

  function WriteCid(c: CidBytes): seq<Byte>
    requires Writable(c)
  {
    WriteHead(Head(MAJ_TAG, CID_TAG)) + WriteTagged(c)
  }

  function ReadCid(bs: seq<Byte>): (r: Parsed<CidBytes>)
    ensures r.Ok? ==> |r.rest| < |bs|
  {
    match ReadHead(bs)
    case Bad => Bad
    case Ok(h, rest) => if h != Head(MAJ_TAG, CID_TAG) then Bad else ReadTagged(rest)
  }

  lemma ReadWriteTagged(c: CidBytes, rest: seq<Byte>)
    requires Readable(c)
    ensures ReadTagged(WriteTagged(c) + rest) == Ok(c, rest)
  {
    ReadWriteString(MAJ_BYTES, CID_MAX_LEN, [0] + c, rest);
  }

  /** An identifier at the reader's limit or beyond can be written and not read. */
  lemma ReadLongTagged(c: CidBytes, rest: seq<Byte>)
    requires Writable(c) && !Readable(c)
    ensures ReadTagged(WriteTagged(c) + rest) == Bad
  {
    var d := [0] + c;
    ReadWriteLimited(MAJ_BYTES, CID_MAX_LEN, |d|, d + rest);
    Regroup(WriteHead(Head(MAJ_BYTES, |d|)), d, rest);
  }

  lemma WriteReadTagged(bs: seq<Byte>)
    requires ReadTagged(bs).Ok?
    ensures Readable(ReadTagged(bs).value) && bs == WriteTagged(ReadTagged(bs).value) + ReadTagged(bs).rest
  {
    WriteReadString(MAJ_BYTES, CID_MAX_LEN, bs);
    var buf := ReadString(MAJ_BYTES, CID_MAX_LEN, bs).value;
    assert buf == [0] + buf[1..];
  }

  lemma ReadWriteCid(c: CidBytes, rest: seq<Byte>)
    requires Readable(c)
    ensures ReadCid(WriteCid(c) + rest) == Ok(c, rest)
  {
    ReadWriteHead(Head(MAJ_TAG, CID_TAG), WriteTagged(c) + rest);
    ReadWriteTagged(c, rest);
    Regroup(WriteHead(Head(MAJ_TAG, CID_TAG)), WriteTagged(c), rest);
  }

  lemma ReadLongCid(c: CidBytes, rest: seq<Byte>)
    requires Writable(c) && !Readable(c)
    ensures ReadCid(WriteCid(c) + rest) == Bad
  {
    ReadWriteHead(Head(MAJ_TAG, CID_TAG), WriteTagged(c) + rest);
    ReadLongTagged(c, rest);
    Regroup(WriteHead(Head(MAJ_TAG, CID_TAG)), WriteTagged(c), rest);
  }

  lemma WriteReadCid(bs: seq<Byte>)
    requires ReadCid(bs).Ok?
    ensures Readable(ReadCid(bs).value) && bs == WriteCid(ReadCid(bs).value) + ReadCid(bs).rest
  {
    WriteReadHead(bs);
    var tagged, r := ReadHead(bs).rest, ReadCid(bs);
    WriteReadTagged(tagged);
    Regroup(WriteHead(Head(MAJ_TAG, CID_TAG)), WriteTagged(r.value), r.rest);
  }

  /** An identifier of common length on the wire: tag 42, then a byte string that starts with a zero byte. */
  lemma WrittenCid(c: CidBytes)
    requires 0 < |c| < 255
    ensures WriteCid(c) == [0xd8, 42] + (if |c| < 23 then [0x41 + |c|, 0] else [0x58, |c| + 1, 0]) + c
  {
    LongHead(MAJ_TAG, CID_TAG);
    if |c| < 23 { ShortHead(MAJ_BYTES, |c| + 1); } else { LongHead(MAJ_BYTES, |c| + 1); }
  }

  // ---------------------------------------------------------------- lists

  lemma Regroup(a: seq<Byte>, b: seq<Byte>, c: seq<Byte>)
    ensures (a + b) + c == a + (b + c)
  {
  }

  function WriteMany<T>(write: T --> seq<Byte>, xs: seq<T>): seq<Byte>
    requires forall x :: x in xs ==> write.requires(x)
  {
    if xs == [] then [] else write(xs[0]) + WriteMany(write, xs[1..])
  }

  function ReadMany<T>(read: seq<Byte> -> Parsed<T>, n: nat, bs: seq<Byte>): (r: Parsed<seq<T>>)
    ensures r.Ok? ==> |r.value| == n
  {
    if n == 0 then Ok([], bs)
    else
      match read(bs)
      case Bad => Bad
      case Ok(x, rest) =>
        match ReadMany(read, n - 1, rest)
        case Bad => Bad
        case Ok(xs, rest') => Ok([x] + xs, rest')
  }

  lemma {:induction false} ReadWriteMany<T>(
    read: seq<Byte> -> Parsed<T>, write: T --> seq<Byte>, xs: seq<T>, rest: seq<Byte>)
    requires forall x :: x in xs ==> write.requires(x)
    requires forall x, r :: x in xs ==> read(write(x) + r) == Ok(x, r)
    ensures ReadMany(read, |xs|, WriteMany(write, xs) + rest) == Ok(xs, rest)
  {
    if xs == [] {
      assert WriteMany(write, xs) + rest == rest;
    } else {
      var tail := WriteMany(write, xs[1..]);
      ReadWriteMany(read, write, xs[1..], rest);
      Regroup(write(xs[0]), tail, rest);
      assert read(write(xs[0]) + (tail + rest)) == Ok(xs[0], tail + rest);
      assert [xs[0]] + xs[1..] == xs;
    }
  }

  /** One entry that cannot be read back spoils the list. */
  lemma {:induction false} ReadManySpoilt<T>(
    read: seq<Byte> -> Parsed<T>, write: T --> seq<Byte>, good: T -> bool, xs: seq<T>, rest: seq<Byte>)
    requires (forall x :: x in xs ==> write.requires(x)) && exists x :: x in xs && !good(x)
    requires forall x, r :: x in xs ==> read(write(x) + r) == if good(x) then Ok(x, r) else Bad
    ensures ReadMany(read, |xs|, WriteMany(write, xs) + rest) == Bad
  {
    var tail := WriteMany(write, xs[1..]);
    Regroup(write(xs[0]), tail, rest);
    assert read(write(xs[0]) + (tail + rest)) == if good(xs[0]) then Ok(xs[0], tail + rest) else Bad;
    if good(xs[0]) {
      var x :| x in xs && !good(x);
      assert x in xs[1..];
      ReadManySpoilt(read, write, good, xs[1..], rest);
    }
  }

  lemma {:induction false} WriteReadMany<T>(read: seq<Byte> -> Parsed<T>, write: T --> seq<Byte>, n: nat, bs: seq<Byte>)
    requires ReadMany(read, n, bs).Ok?
    requires forall s :: read(s).Ok? ==> write.requires(read(s).value) && s == write(read(s).value) + read(s).rest
    ensures forall x :: x in ReadMany(read, n, bs).value ==> write.requires(x)
    ensures bs == WriteMany(write, ReadMany(read, n, bs).value) + ReadMany(read, n, bs).rest
  {
    var r := ReadMany(read, n, bs);
    if n == 0 {
      assert [] + bs == bs;
    } else {
      var first := read(bs);
      WriteReadMany(read, write, n - 1, first.rest);
      var more := ReadMany(read, n - 1, first.rest);
      assert r.value[1..] == more.value;
      Regroup(write(first.value), WriteMany(write, more.value), more.rest);
    }
  }

  lemma {:induction false} ReadManyAll<T>(read: seq<Byte> -> Parsed<T>, good: T -> bool, n: nat, bs: seq<Byte>)
    requires ReadMany(read, n, bs).Ok? && forall s :: read(s).Ok? ==> good(read(s).value)
    ensures forall x :: x in ReadMany(read, n, bs).value ==> good(x)
  {
    if n > 0 {
      ReadManyAll(read, good, n - 1, read(bs).rest);
    }
  }

  function WriteList<T>(write: T --> seq<Byte>, xs: seq<T>): seq<Byte>
    requires |xs| <= MAX_LENGTH && forall x :: x in xs ==> write.requires(x)
  {
    WriteHead(Head(MAJ_ARRAY, |xs|)) + WriteMany(write, xs)
  }

  function ReadList<T>(read: seq<Byte> -> Parsed<T>, bs: seq<Byte>): Parsed<seq<T>> {
    match ReadLimited(MAJ_ARRAY, MAX_LENGTH, bs)
    case Bad => Bad
    case Ok(n, rest) => ReadMany(read, n, rest)
  }

  lemma {:induction false} WriteManySnoc<T>(write: T --> seq<Byte>, xs: seq<T>, x: T)
    requires forall y :: y in xs + [x] ==> write.requires(y)
    ensures forall y :: y in xs ==> write.requires(y)
    ensures write.requires(x)
    ensures WriteMany(write, xs + [x]) == WriteMany(write, xs) + write(x)
  {
    assert forall y :: y in xs ==> y in xs + [x];
    assert x in xs + [x];
    if xs == [] {
      assert xs + [x] == [x];
      assert WriteMany(write, [x]) == write(x) + WriteMany(write, []);
    } else {
      assert (xs + [x])[1..] == xs[1..] + [x];
      WriteManySnoc(write, xs[1..], x);
      Regroup(write(xs[0]), WriteMany(write, xs[1..]), write(x));
    }
  }

  /** A list written entry by entry, given up at the first entry that does not fit. */
  method WriteLoop<T>(fits: T -> bool, write: T --> seq<Byte>, xs: seq<T>) returns (r: Option<seq<Byte>>)
    requires forall x :: x in xs && fits(x) ==> write.requires(x)
    ensures r.Some? <==> forall x :: x in xs ==> fits(x)
    ensures r.Some? ==> r.value == WriteMany(write, xs)
  {
    var w := [];
    for i := 0 to |xs|
      invariant forall j :: 0 <= j < i ==> fits(xs[j])
      invariant w == WriteMany(write, xs[..i])
    {
      if !fits(xs[i]) { return None; }
      assert xs[..i + 1] == xs[..i] + [xs[i]];
      WriteManySnoc(write, xs[..i], xs[i]);
      w := w + write(xs[i]);
    }
    assert xs[..|xs|] == xs;
    return Some(w);
  }

  /** A list read entry by entry from a stream that is consumed as it goes. */
  method ReadLoop<T>(read: seq<Byte> -> Parsed<T>, n: nat, bs: seq<Byte>) returns (r: Parsed<seq<T>>)
    ensures r == ReadMany(read, n, bs)
  {
    var xs, stream := [], bs;
    assert Prepend([], ReadMany(read, n, bs)) == ReadMany(read, n, bs) by {
      var all := ReadMany(read, n, bs);
      assert all.Ok? ==> [] + all.value == all.value;
    }
    for i := 0 to n
      invariant ReadMany(read, n, bs) == Prepend(xs, ReadMany(read, n - i, stream))
    {
      var x := read(stream);
      if x.Bad? { return Bad; }
      PrependOne(read, xs, n - i, stream);
      xs, stream := xs + [x.value], x.rest;
    }
    assert xs + [] == xs;
    return Ok(xs, stream);
  }

  ghost function Prepend<T>(xs: seq<T>, r: Parsed<seq<T>>): Parsed<seq<T>> {
    match r case Bad => Bad case Ok(more, rest) => Ok(xs + more, rest)
  }

  lemma PrependOne<T>(read: seq<Byte> -> Parsed<T>, xs: seq<T>, n: nat, bs: seq<Byte>)
    requires n > 0 && read(bs).Ok?
    ensures Prepend(xs, ReadMany(read, n, bs)) == Prepend(xs + [read(bs).value], ReadMany(read, n - 1, read(bs).rest))
  {
    var more := ReadMany(read, n - 1, read(bs).rest);
    if more.Ok? {
      assert xs + ([read(bs).value] + more.value) == (xs + [read(bs).value]) + more.value;
    }
  }
}
