/** The serving half of the networked blockstore, and what a remote caller gets to see of
    the store behind it. */
module NetServe {
  import opened Tipsets
  import opened Cbor
  import opened NetCodec
  import opened NetClient
  import opened NetStore

  const REQ_HAS := 0
  const REQ_GET := 1
  const REQ_GET_SIZE := 2
  const REQ_PUT := 3
  const REQ_DELETE := 4

  const CBOR_TRUE: Byte := 0xf5
  const CBOR_FALSE: Byte := 0xf4

  /** The identifier that stands for none. */
  const UNDEF: CidBytes := []

  datatype Block = Block(cid: CidBytes, data: seq<Byte>)

  /** What a blockstore operation returns: a value or an error, which may be that of a missing block. */
  datatype Answer<+T> = Value(value: T) | Fails(missing: bool, msg: seq<Byte>)

  datatype Unit = Unit

  /** Any blockstore with states of type `S`. */
  datatype Backend<!S> = Backend(
    has: (S, CidBytes) -> Answer<bool>,
    view: (S, CidBytes) -> Answer<seq<Byte>>,
    getSize: (S, CidBytes) -> Answer<nat>,
    putMany: (S, seq<Block>) -> (S, Answer<Unit>),
    deleteMany: (S, seq<CidBytes>) -> (S, Answer<Unit>))

  /** What a response carries: data, or an error marshalled into its data. */
  datatype Body = Data(data: seq<Byte>) | Err(error: RpcError)

  /** A response to write, if there is one, and whether the connection goes on. */
  datatype Reply = Reply(body: Option<Body>, alive: bool)

  // ---------------------------------------------------------------- the server

  /** A response, if its data fits the codec. */
  function Respond(data: seq<Byte>): Reply {
    if |data| <= BYTE_ARRAY_MAX_LEN then Reply(Some(Data(data)), true) else Reply(None, false)
  }

  /** A not-found error names the identifier asked for, which must be a defined one. */
  function WireError(missing: bool, msg: seq<Byte>, c: CidBytes): RpcError {
    if missing then RpcError(ERR_NOT_FOUND, msg, Some(c)) else RpcError(ERR_GENERIC, msg, None)
  }

  function RespondError(missing: bool, msg: seq<Byte>, c: CidBytes): Reply {
    var e := WireError(missing, msg, c);
    if IsError(e) then Reply(Some(Err(e)), true) else Reply(None, false)
  }

  function ReplyTo<T>(a: Answer<T>, c: CidBytes, write: T -> seq<Byte>): Reply {
    if a.Value? then Respond(write(a.value)) else RespondError(a.missing, a.msg, c)
  }

  function Complain(): Reply {
    RespondError(false, COMPLAINT, UNDEF)
  }

  // "bad request", standing for the several texts of the server
  const COMPLAINT: seq<Byte> := [98, 97, 100, 32, 114, 101, 113, 117, 101, 115, 116]
  // "response too long", standing for the codec's text
  const TOO_LONG: seq<Byte> := [114, 101, 115, 112, 111, 110, 115, 101, 32, 116, 111, 111, 32, 108, 111, 110, 103]

  function BoolBytes(b: bool): seq<Byte> {
    [if b then CBOR_TRUE else CBOR_FALSE]
  }

  function LowFirst(x: nat, n: nat): seq<Byte> {
    if n == 0 then [] else [(x % 256) as Byte] + LowFirst(x / 256, n - 1)
  }

  function FromLowFirst(bs: seq<Byte>): nat {
    if bs == [] then 0 else bs[0] as nat + 256 * FromLowFirst(bs[1..])
  }

  /** Four bytes, low byte first; higher bits are lost. */
  function SizeBytes(n: nat): seq<Byte> {
    LowFirst(n % TWO_32, 4)
  }

  function NoBytes(u: Unit): seq<Byte> {
    []
  }

  function Zip(cids: seq<CidBytes>, data: seq<seq<Byte>>): seq<Block>
    requires |cids| == |data|
  {
    seq(|cids|, i requires 0 <= i < |cids| => Block(cids[i], data[i]))
  }

  /** A view that finds more than a response can carry fails in its callback. */
  function Sendable(a: Answer<seq<Byte>>): Answer<seq<Byte>> {
    if a.Value? && |a.value| > BYTE_ARRAY_MAX_LEN then Fails(false, TOO_LONG) else a
  }

  function Serve<S>(b: Backend<S>, s: S, q: Request): (S, Reply) {
    if q.kind == REQ_PUT then
      if |q.cids| != |q.data| then (s, Complain().(alive := false))
      else
        var (s', a) := b.putMany(s, Zip(q.cids, q.data));
        (s', ReplyTo(a, UNDEF, NoBytes))
    else if q.kind == REQ_DELETE then
      var (s', a) := b.deleteMany(s, q.cids);
      (s', ReplyTo(a, UNDEF, NoBytes))
    else if q.kind > REQ_DELETE || |q.cids| != 1 then (s, Complain())
    else
      var c := q.cids[0];
      if q.kind == REQ_HAS then (s, ReplyTo(b.has(s, c), c, BoolBytes))
      else if q.kind == REQ_GET then (s, ReplyTo(Sendable(b.view(s, c)), c, (d: seq<Byte>) => d))
      else (s, ReplyTo(b.getSize(s, c), c, SizeBytes))
  }

  function ToResponse(id: nat, body: Body): Response
    requires body.Err? ==> IsError(body.error)
  {
    match body
    case Data(d) => Response(RESP_OK, id, d)
    case Err(e) => Response(RESP_ERR, id, EncodeError(e))
  }

  predicate Marshals(id: nat, body: Option<Body>) {
    body.Some? && (body.value.Err? ==> IsError(body.value.error)) && IsResponse(ToResponse(id, body.value))
  }

  /** One turn of the serving loop on the bytes of a message. */
  function Handle<S>(b: Backend<S>, s: S, msg: seq<Byte>): (S, Option<seq<Byte>>, bool) {
    match DecodeRequest(msg)
    case Bad => (s, None, false)
    case Ok(q, _) =>
      var (s', r, alive) := ServeRequest(b, s, q);
      (s', if r.Some? then Some(EncodeResponse(r.value)) else None, alive)
  }

  /** The same on messages: a response that does not marshal is not written and ends the connection. */
  function ServeRequest<S>(b: Backend<S>, s: S, q: Request): (r: (S, Option<Response>, bool))
    ensures r.1.Some? ==> IsResponse(r.1.value) && r.1.value.id == q.id
  {
    var (s', reply) := Serve(b, s, q);
    if Marshals(q.id, reply.body) then (s', Some(ToResponse(q.id, reply.body.value)), reply.alive)
    else (s', None, false)
  }

  // ---------------------------------------------------------------- the client's reading

  /** What a remote caller gets. */
  datatype Result<+T> =
    | Got(value: T)
    | NotFound(cid: CidBytes)
    | Error(msg: seq<Byte>)
    | Malformed
    | Unsent          // the request does not fit the codec
    | Dropped         // the server closed the connection without an answer

  /** How a caller reads an error. */
  function Classify(e: RpcError): Result<seq<Byte>> {
    if e.kind == ERR_NOT_FOUND && e.cid.Some? then NotFound(e.cid.value) else Error(e.msg)
  }

  function Interpret(r: Response): Result<seq<Byte>> {
    if r.kind != RESP_ERR then Got(r.data)
    else match DecodeError(r.data) case Bad => Malformed case Ok(e, _) => Classify(e)
  }

  /** One call over a stream that loses nothing. */
  function Ask<S>(b: Backend<S>, s: S, q: Request): (S, Result<seq<Byte>>) {
    if !IsRequest(q) then (s, Unsent)
    else
      var (s', bytes, _) := Handle(b, s, EncodeRequest(q));
      (s', if bytes.None? then Dropped else Receive(bytes.value))
  }

  function Receive(msg: seq<Byte>): Result<seq<Byte>> {
    match DecodeResponse(msg) case Bad => Malformed case Ok(r, _) => Interpret(r)
  }

  function Then<T, U>(r: Result<T>, f: T -> Result<U>): Result<U> {
    match r
    case Got(v) => f(v)
    case NotFound(c) => NotFound(c)
    case Error(m) => Error(m)
    case Malformed => Malformed
    case Unsent => Unsent
    case Dropped => Dropped
  }

  function ReadBool(d: seq<Byte>): Result<bool> {
    if |d| != 1 then Malformed
    else if d[0] == CBOR_TRUE then Got(true)
    else if d[0] == CBOR_FALSE then Got(false)
    else Malformed
  }

  function ReadSize(d: seq<Byte>): Result<nat> {
    if |d| != 4 then Malformed else Got(FromLowFirst(d))
  }

  function Cids(blocks: seq<Block>): seq<CidBytes> {
    seq(|blocks|, i requires 0 <= i < |blocks| => blocks[i].cid)
  }

  function Datas(blocks: seq<Block>): seq<seq<Byte>> {
    seq(|blocks|, i requires 0 <= i < |blocks| => blocks[i].data)
  }

  // ---------------------------------------------------------------- the remote store refines the local one

  /** What the local answer looks like from afar. Texts too long for the codec, and a not-found
      error of an operation on many blocks, end the connection instead. */
  function FromAfar<T>(a: Answer<T>, c: CidBytes): Result<T> {
    match a
    case Value(v) => Got(v)
    case Fails(missing, msg) => FaultFromAfar(missing, msg, c)
  }

  function FaultFromAfar<T>(missing: bool, msg: seq<Byte>, c: CidBytes): Result<T> {
    if |msg| > MAX_LENGTH || (missing && c == UNDEF) then Dropped
    else if missing then NotFound(c)
    else Error(msg)
  }

  lemma HeadLength(h: Head)
    requires IsHead(h)
    ensures |WriteHead(h)| <= 9
  {
  }

  lemma ErrorFits(e: RpcError)
    requires IsError(e) && (e.cid.Some? ==> Readable(e.cid.value))
    ensures |EncodeError(e)| <= BYTE_ARRAY_MAX_LEN
  {
    HeadLength(Head(MAJ_ARRAY, 3));
    HeadLength(Head(MAJ_UINT, e.kind));
    HeadLength(Head(MAJ_TEXT, |e.msg|));
    if e.cid.Some? {
      HeadLength(Head(MAJ_TAG, CID_TAG));
      HeadLength(Head(MAJ_BYTES, 1 + |e.cid.value|));
    }
  }

  /** The same reading without the wire in between. */
  function ReadBody(body: Option<Body>): Result<seq<Byte>> {
    match body
    case None => Dropped
    case Some(Data(d)) => Got(d)
    case Some(Err(e)) => Classify(e)
  }

  predicate Sound(body: Body) {
    match body
    case Data(d) => |d| <= BYTE_ARRAY_MAX_LEN
    case Err(e) => IsError(e) && (e.cid.Some? ==> Readable(e.cid.value))
  }

  lemma ReceiveResponse(r: Response)
    requires IsResponse(r)
    ensures Receive(EncodeResponse(r)) == Interpret(r)
  {
    DecodeEncodeResponse(r, []);
    assert EncodeResponse(r) + [] == EncodeResponse(r);
  }

  lemma InterpretBody(id: nat, body: Body)
    requires Sound(body)
    ensures Interpret(ToResponse(id, body)) == ReadBody(Some(body))
  {
    if body.Err? {
      DecodeEncodeError(body.error, []);
      assert EncodeError(body.error) + [] == EncodeError(body.error);
    }
  }

  lemma SoundMarshals(id: nat, body: Body)
    requires id < TWO_64 && Sound(body)
    ensures Marshals(id, Some(body))
  {
    if body.Err? { ErrorFits(body.error); }
  }

  lemma ServeIsSound<S>(b: Backend<S>, s: S, q: Request)
    requires forall c :: c in q.cids ==> Readable(c)
    ensures var body := Serve(b, s, q).1.body; body.Some? ==> Sound(body.value)
  {
  }

  /** What becomes of a request that is answered with `there`: one outside the codec's limits is not
      sent, one that can be written and not read makes the server hang up, and neither is served. */
  function Delivered<S, T>(q: Request, s: S, there: (S, Result<T>)): (S, Result<T>) {
    if !IsRequest(q) then (s, Unsent) else if !ReadableRequest(q) then (s, Dropped) else there
  }

  /** Requests and responses cross the wire unharmed. */
  lemma AskServes<S>(b: Backend<S>, s: S, q: Request)
    ensures Ask(b, s, q) == Delivered(q, s, (Serve(b, s, q).0, ReadBody(Serve(b, s, q).1.body)))
  {
    if ReadableRequest(q) {
      ReadableIsServed(b, s, q);
    } else if IsRequest(q) {
      DecodeLongRequest(q, []);
      assert EncodeRequest(q) + [] == EncodeRequest(q);
    }
  }

  lemma HandleDecodes<S>(b: Backend<S>, s: S, q: Request)
    requires ReadableRequest(q)
    ensures var (s', r, alive) := ServeRequest(b, s, q);
      Handle(b, s, EncodeRequest(q)) == (s', if r.Some? then Some(EncodeResponse(r.value)) else None, alive)
  {
    DecodeEncodeRequest(q, []);
    assert EncodeRequest(q) + [] == EncodeRequest(q);
  }

  lemma ReadableIsServed<S>(b: Backend<S>, s: S, q: Request)
    requires ReadableRequest(q)
    ensures Ask(b, s, q) == (Serve(b, s, q).0, ReadBody(Serve(b, s, q).1.body))
  {
    HandleDecodes(b, s, q);
    ServeIsSound(b, s, q);
    var body := Serve(b, s, q).1.body;
    if body.Some? { BodyArrives(q.id, body.value); }
  }

  lemma BodyArrives(id: nat, body: Body)
    requires id < TWO_64 && Sound(body)
    ensures Marshals(id, Some(body)) && Receive(EncodeResponse(ToResponse(id, body))) == ReadBody(Some(body))
  {
    SoundMarshals(id, body);
    ReceiveResponse(ToResponse(id, body));
    InterpretBody(id, body);
  }

  /** A response to a request that fits the codec is read as a call made alone would read it. */
  lemma ResponseReadsAsAsked<S>(b: Backend<S>, s: S, q: Request, r: Response)
    requires ReadableRequest(q) && ServeRequest(b, s, q).1 == Some(r)
    ensures Interpret(r) == Ask(b, s, q).1
  {
    ReadableIsServed(b, s, q);
    ServeIsSound(b, s, q);
    InterpretBody(q.id, Serve(b, s, q).1.body.value);
  }

  /** Whatever the server replies is read as the local answer, seen from afar. */
  lemma ReadReplyTo<T>(a: Answer<T>, c: CidBytes, write: T -> seq<Byte>)
    requires (c == UNDEF || Readable(c)) && (a.Value? ==> |write(a.value)| <= BYTE_ARRAY_MAX_LEN)
    ensures ReadBody(ReplyTo(a, c, write).body) == Then(FromAfar(a, c), (v: T) => Got(write(v)))
  {
  }

  /** A way to put a request to a served store and get its result back. */
  type Transport<!S> = Request -> (S, Result<seq<Byte>>)

  ghost predicate Faithful<S(!new)>(ask: Transport<S>, b: Backend<S>, s: S) {
    forall q :: ask(q) == Delivered(q, s, (Serve(b, s, q).0, ReadBody(Serve(b, s, q).1.body)))
  }

  lemma WireIsFaithful<S(!new)>(b: Backend<S>, s: S)
    ensures Faithful(q => Ask(b, s, q), b, s)
  {
    forall q
      ensures Ask(b, s, q) == Delivered(q, s, (Serve(b, s, q).0, ReadBody(Serve(b, s, q).1.body)))
    {
      AskServes(b, s, q);
    }
  }

  function RemoteHas<S>(ask: Transport<S>, id: nat, c: CidBytes): (S, Result<bool>) {
    var (s, r) := ask(Request(REQ_HAS, id, [c], []));
    (s, Then(r, ReadBool))
  }

  function RemoteGet<S>(ask: Transport<S>, id: nat, c: CidBytes): (S, Result<Block>) {
    var (s, r) := ask(Request(REQ_GET, id, [c], []));
    (s, Then(r, (d: seq<Byte>) => Got(Block(c, d))))
  }

  function RemoteGetSize<S>(ask: Transport<S>, id: nat, c: CidBytes): (S, Result<nat>) {
    var (s, r) := ask(Request(REQ_GET_SIZE, id, [c], []));
    (s, Then(r, ReadSize))
  }

  function RemotePutMany<S>(ask: Transport<S>, id: nat, blocks: seq<Block>): (S, Result<Unit>) {
    var (s, r) := ask(Request(REQ_PUT, id, Cids(blocks), Datas(blocks)));
    (s, Then(r, Ignore))
  }

  function RemoteDeleteMany<S>(ask: Transport<S>, id: nat, cids: seq<CidBytes>): (S, Result<Unit>) {
    var (s, r) := ask(Request(REQ_DELETE, id, cids, []));
    (s, Then(r, Ignore))
  }

  function Ignore(d: seq<Byte>): Result<Unit> {
    Got(Unit)
  }

  lemma RemoteHasIsLocal<S(!new)>(ask: Transport<S>, b: Backend<S>, s: S, id: nat, c: CidBytes)
    requires Faithful(ask, b, s)
    ensures RemoteHas(ask, id, c) == Delivered(Request(REQ_HAS, id, [c], []), s, (s, FromAfar(b.has(s, c), c)))
  {
    if ReadableRequest(Request(REQ_HAS, id, [c], [])) {
      assert c in [c];
      ReadReplyTo(b.has(s, c), c, BoolBytes);
    }
  }

  /** A block larger than a response can carry comes back as an error. */
  lemma RemoteGetIsLocal<S(!new)>(ask: Transport<S>, b: Backend<S>, s: S, id: nat, c: CidBytes)
    requires Faithful(ask, b, s)
    ensures RemoteGet(ask, id, c) == Delivered(Request(REQ_GET, id, [c], []), s,
      (s, Then(FromAfar(Sendable(b.view(s, c)), c), (d: seq<Byte>) => Got(Block(c, d)))))
  {
    if ReadableRequest(Request(REQ_GET, id, [c], [])) {
      assert c in [c];
      ReadReplyTo(Sendable(b.view(s, c)), c, (d: seq<Byte>) => d);
    }
  }

  lemma {:induction false} FromToLowFirst(x: nat, n: nat)
    requires x < Pow256(n)
    ensures |LowFirst(x, n)| == n && FromLowFirst(LowFirst(x, n)) == x
  {
    if n > 0 {
      FromToLowFirst(x / 256, n - 1);
      assert LowFirst(x, n)[1..] == LowFirst(x / 256, n - 1);
    }
  }

  lemma ReadWriteSize(n: nat)
    ensures |SizeBytes(n)| == 4 && ReadSize(SizeBytes(n)) == Got(n % TWO_32)
  {
    Powers();
    FromToLowFirst(n % TWO_32, 4);
  }

  /** Sizes travel modulo 2^32. */
  lemma RemoteGetSizeIsLocal<S(!new)>(ask: Transport<S>, b: Backend<S>, s: S, id: nat, c: CidBytes)
    requires Faithful(ask, b, s)
    ensures RemoteGetSize(ask, id, c) == Delivered(Request(REQ_GET_SIZE, id, [c], []), s,
      (s, Then(FromAfar(b.getSize(s, c), c), (n: nat) => Got(n % TWO_32))))
  {
    if ReadableRequest(Request(REQ_GET_SIZE, id, [c], [])) {
      assert c in [c];
      var a := b.getSize(s, c);
      if a.Value? { ReadWriteSize(a.value); }
      ReadReplyTo(a, c, SizeBytes);
    }
  }

  lemma OneUnit(a: Answer<Unit>)
    ensures a.Value? ==> a == Value(Unit)
  {
    if a.Value? { match a.value case Unit => {} }
  }

  lemma RemotePutManyIsLocal<S(!new)>(ask: Transport<S>, b: Backend<S>, s: S, id: nat, blocks: seq<Block>)
    requires Faithful(ask, b, s)
    ensures RemotePutMany(ask, id, blocks) == Delivered(Request(REQ_PUT, id, Cids(blocks), Datas(blocks)), s,
      (b.putMany(s, blocks).0, FromAfar(b.putMany(s, blocks).1, UNDEF)))
  {
    assert Zip(Cids(blocks), Datas(blocks)) == blocks;
    ReadReplyTo(b.putMany(s, blocks).1, UNDEF, NoBytes);
    OneUnit(b.putMany(s, blocks).1);
  }

  lemma RemoteDeleteManyIsLocal<S(!new)>(ask: Transport<S>, b: Backend<S>, s: S, id: nat, cids: seq<CidBytes>)
    requires Faithful(ask, b, s)
    ensures RemoteDeleteMany(ask, id, cids) == Delivered(Request(REQ_DELETE, id, cids, []), s,
      (b.deleteMany(s, cids).0, FromAfar(b.deleteMany(s, cids).1, UNDEF)))
  {
    ReadReplyTo(b.deleteMany(s, cids).1, UNDEF, NoBytes);
    OneUnit(b.deleteMany(s, cids).1);
  }

  // ---------------------------------------------------------------- the serving loop

  /** One turn of a serving loop: the new state, what it writes and whether to go on. */
  type Turn<!S> = (S, seq<Byte>) -> (S, Option<seq<Byte>>, bool)

  function Listed(out: Option<seq<Byte>>): seq<seq<Byte>> {
    if out.Some? then [out.value] else []
  }

  function TurnOf<S>(b: Backend<S>): Turn<S> {
    (s: S, msg: seq<Byte>) => Handle(b, s, msg)
  }

  /** All messages of a connection in turn, until one ends it. */
  function HandleAll<S>(turn: Turn<S>, s: S, msgs: seq<seq<Byte>>): (S, seq<seq<Byte>>) {
    if msgs == [] then (s, [])
    else
      var (s', out, alive) := turn(s, msgs[0]);
      if !alive then (s', Listed(out))
      else var (s'', more) := HandleAll(turn, s', msgs[1..]); (s'', Listed(out) + more)
  }

  lemma AliveIff<S>(b: Backend<S>, s: S, q: Request)
    ensures var reply := Serve(b, s, q).1;
      reply.alive <==> reply.body.Some? && !(q.kind == REQ_PUT && |q.cids| != |q.data|)
  {
  }

  lemma RespondsIff<S>(b: Backend<S>, s: S, q: Request)
    requires ReadableRequest(q)
    ensures Marshals(q.id, Serve(b, s, q).1.body) <==> Serve(b, s, q).1.body.Some?
    ensures Ask(b, s, q).1 == Dropped <==> Serve(b, s, q).1.body.None?
  {
    ReadableIsServed(b, s, q);
    ServeIsSound(b, s, q);
    var body := Serve(b, s, q).1.body;
    if body.Some? { SoundMarshals(q.id, body.value); }
  }

  /** The server hangs up exactly on a request it has no response to, and on a put whose identifiers and data differ in
      number, after it has complained. */
  lemma ServerGoesOn<S>(b: Backend<S>, s: S, q: Request)
    requires ReadableRequest(q)
    ensures ServeRequest(b, s, q).1.None? <==> Ask(b, s, q).1 == Dropped
    ensures ServeRequest(b, s, q).2 <==>
      ServeRequest(b, s, q).1.Some? && !(q.kind == REQ_PUT && |q.cids| != |q.data|)
  {
    AliveIff(b, s, q);
    RespondsIff(b, s, q);
  }

  /** The state after the messages, one by one. */
  function StateAfter<S>(turn: Turn<S>, s: S, msgs: seq<seq<Byte>>): S {
    if msgs == [] then s else StateAfter(turn, turn(s, msgs[0]).0, msgs[1..])
  }

  /** What the i-th message is answered, in the state that those before it leave. */
  function AnswerAt<S>(turn: Turn<S>, s: S, msgs: seq<seq<Byte>>, i: nat): Option<seq<Byte>>
    requires i < |msgs|
  {
    turn(StateAfter(turn, s, msgs[..i]), msgs[i]).1
  }

  predicate GoesOnAfter<S>(turn: Turn<S>, s: S, msgs: seq<seq<Byte>>, i: nat)
    requires i < |msgs|
  {
    turn(StateAfter(turn, s, msgs[..i]), msgs[i]).2
  }

  /** A connection serves its messages one after the other: as long as the server goes on, each is answered in turn,
      in the state that those before it left. */
  lemma {:induction false} AllAreServed<S>(turn: Turn<S>, s: S, msgs: seq<seq<Byte>>)
    requires forall i :: 0 <= i < |msgs| ==> GoesOnAfter(turn, s, msgs, i) && AnswerAt(turn, s, msgs, i).Some?
    ensures HandleAll(turn, s, msgs).0 == StateAfter(turn, s, msgs)
    ensures |HandleAll(turn, s, msgs).1| == |msgs|
    ensures forall i :: 0 <= i < |msgs| ==> Some(HandleAll(turn, s, msgs).1[i]) == AnswerAt(turn, s, msgs, i)
  {
    if msgs != [] {
      var s1, rest := turn(s, msgs[0]).0, msgs[1..];
      assert GoesOnAfter(turn, s, msgs, 0) && AnswerAt(turn, s, msgs, 0).Some? && msgs[..0] == [];
      forall i | 0 <= i < |rest|
        ensures GoesOnAfter(turn, s1, rest, i) && AnswerAt(turn, s1, rest, i) == AnswerAt(turn, s, msgs, i + 1)
        ensures AnswerAt(turn, s1, rest, i).Some?
      {
        assert GoesOnAfter(turn, s, msgs, i + 1) && msgs[..i + 1][1..] == rest[..i];
      }
      AllAreServed(turn, s1, rest);
    }
  }

  /** What `outs` written and `msgs` to come add up to. */
  function Onward<S>(turn: Turn<S>, s: S, outs: seq<seq<Byte>>, msgs: seq<seq<Byte>>): (S, seq<seq<Byte>>) {
    var (s', more) := HandleAll(turn, s, msgs);
    (s', outs + more)
  }

  lemma OneTurn<S>(turn: Turn<S>, s: S, outs: seq<seq<Byte>>, msgs: seq<seq<Byte>>)
    requires msgs != []
    ensures var (s', out, alive) := turn(s, msgs[0]);
      Onward(turn, s, outs, msgs) ==
      if alive then Onward(turn, s', outs + Listed(out), msgs[1..]) else (s', outs + Listed(out))
  {
    var (s', out, _) := turn(s, msgs[0]);
    var more := HandleAll(turn, s', msgs[1..]).1;
    assert outs + (Listed(out) + more) == (outs + Listed(out)) + more;
  }

  lemma Ends<S>(turn: Turn<S>, s: S, outs: seq<seq<Byte>>, msgs: seq<seq<Byte>>)
    ensures Onward(turn, s, [], msgs) == HandleAll(turn, s, msgs)
    ensures Onward(turn, s, outs, []) == (s, outs)
  {
    assert [] + HandleAll(turn, s, msgs).1 == HandleAll(turn, s, msgs).1;
    assert outs + [] == outs;
  }

  method BuildBlocks(cids: seq<CidBytes>, data: seq<seq<Byte>>) returns (blocks: seq<Block>)
    requires |cids| == |data|
    ensures blocks == Zip(cids, data)
  {
    blocks := [];
    for i := 0 to |cids|
      invariant blocks == Zip(cids[..i], data[..i])
    {
      blocks := blocks + [Block(cids[i], data[i])];
    }
    assert cids[..|cids|] == cids && data[..|cids|] == data;
  }

  class NetworkStoreHandler<!S> {
    const backend: Backend<S>
    var store: S

    constructor (b: Backend<S>, s: S)
      ensures backend == b && store == s
    {
      backend, store := b, s;
    }

    /** The answer to one decoded request. */
    method Dispatch(q: Request) returns (reply: Reply)
      modifies this
      ensures (store, reply) == Serve(backend, old(store), q)
    {
      if q.kind == REQ_PUT {
        if |q.cids| != |q.data| { return Complain().(alive := false); }
        var blocks := BuildBlocks(q.cids, q.data);
        var (s', a) := backend.putMany(store, blocks);
        store := s';
        return ReplyTo(a, UNDEF, NoBytes);
      }
      if q.kind == REQ_DELETE {
        var (s', a) := backend.deleteMany(store, q.cids);
        store := s';
        return ReplyTo(a, UNDEF, NoBytes);
      }
      if q.kind > REQ_DELETE || |q.cids| != 1 { return Complain(); }
      var c := q.cids[0];
      if q.kind == REQ_HAS {
        return ReplyTo(backend.has(store, c), c, BoolBytes);
      } else if q.kind == REQ_GET {
        return ReplyTo(Sendable(backend.view(store, c)), c, (d: seq<Byte>) => d);
      } else {
        return ReplyTo(backend.getSize(store, c), c, SizeBytes);
      }
    }

    method HandleOne(msg: seq<Byte>) returns (out: Option<seq<Byte>>, alive: bool)
      modifies this
      ensures (store, out, alive) == TurnOf(backend)(old(store), msg)
    {
      var q := DecodeRequest(msg);
      if q.Bad? { return None, false; }
      var reply := Dispatch(q.value);
      if !Marshals(q.value.id, reply.body) { return None, false; }
      return Some(EncodeResponse(ToResponse(q.value.id, reply.body.value))), reply.alive;
    }

    /** The endless loop, over the messages the peer sends before it hangs up. */
    method Serving(msgs: seq<seq<Byte>>) returns (outs: seq<seq<Byte>>)
      modifies this
      ensures (store, outs) == HandleAll(TurnOf(backend), old(store), msgs)
    {
      ghost var turn := TurnOf(backend);
      outs := [];
      var left, alive := msgs, true;
      Ends(turn, store, [], msgs);
      while left != [] && alive
        invariant HandleAll(turn, old(store), msgs) == if alive then Onward(turn, store, outs, left) else (store, outs)
      {
        OneTurn(turn, store, outs, left);
        outs, alive := HandleNext(left[0], outs);
        left := left[1..];
      }
      Ends(turn, store, outs, msgs);
    }

    method HandleNext(msg: seq<Byte>, before: seq<seq<Byte>>) returns (outs: seq<seq<Byte>>, alive: bool)
      modifies this
      ensures var (s', out, go) := TurnOf(backend)(old(store), msg);
        store == s' && outs == before + Listed(out) && alive == go
    {
      var out;
      out, alive := HandleOne(msg);
      outs := if out.Some? then before + [out.value] else before;
      assert before + [] == before;
    }
  }
}
