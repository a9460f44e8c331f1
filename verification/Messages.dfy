/** Fetching the messages of a run of headers in chunks, checking them against the
    message roots, and handing complete tipsets on, oldest first. */
module Messages {
  import opened Tipsets

  const BLOCK_MESSAGE_LIMIT := 10000
  const SYNC_REQUEST_BATCH_SIZE := 8
  const SYNC_REQUEST_RETRIES := 5

  datatype Header = Header(cid: Cid, messages: Cid)

  /** The blocks of a tipset. */
  type Headers = seq<Header>

  /** Messages are known by their identifiers; each block lists which ones it includes. The decoder
      lets a null pass for a message. A null unsigned message has the identifier of the null byte; a
      null signed message has none, and asking for it panics. */
  datatype Compacted = Compacted(
    bls: seq<Cid>, secpk: seq<Option<Cid>>, blsIncludes: seq<seq<nat>>, secpkIncludes: seq<seq<nat>>)

  datatype FullBlock = FullBlock(header: Header, bls: seq<Cid>, secpk: seq<Cid>)

  /** Computes the root of the combined message trie. */
  type Root = (seq<Cid>, seq<Cid>) -> Cid

  // ---------------------------------------------------------------- checking and zipping

  predicate InRange<T>(idx: seq<nat>, all: seq<T>) {
    forall i :: 0 <= i < |idx| ==> idx[i] < |all|
  }

  /** Every index names a signed message that is there. */
  predicate Named(idx: seq<nat>, all: seq<Option<Cid>>) {
    forall i :: 0 <= i < |idx| ==> idx[i] < |all| && all[idx[i]].Some?
  }

  predicate SameShape(ts: Headers, cm: Compacted) {
    |ts| == |cm.blsIncludes| == |cm.secpkIncludes|
  }

  /** Every index of the block names a message with an identifier. */
  predicate Indexed(ts: Headers, cm: Compacted, b: nat)
    requires SameShape(ts, cm) && b < |ts|
  {
    InRange(cm.blsIncludes[b], cm.bls) && Named(cm.secpkIncludes[b], cm.secpk)
  }

  function Pick(all: seq<Cid>, idx: seq<nat>): (r: seq<Cid>)
    requires InRange(idx, all)
    ensures |r| == |idx|
  {
    seq(|idx|, i requires 0 <= i < |idx| => all[idx[i]])
  }

  function PickSigned(all: seq<Option<Cid>>, idx: seq<nat>): (r: seq<Cid>)
    requires Named(idx, all)
    ensures |r| == |idx|
  {
    seq(|idx|, i requires 0 <= i < |idx| => all[idx[i]].value)
  }

  function Zip(ts: Headers, cm: Compacted, b: nat): FullBlock
    requires SameShape(ts, cm) && b < |ts| && Indexed(ts, cm, b)
  {
    FullBlock(ts[b], Pick(cm.bls, cm.blsIncludes[b]), PickSigned(cm.secpk, cm.secpkIncludes[b]))
  }

  function Zipped(ts: Headers, cm: Compacted): (r: seq<FullBlock>)
    requires SameShape(ts, cm) && forall b :: 0 <= b < |ts| ==> Indexed(ts, cm, b)
    ensures |r| == |ts|
  {
    seq(|ts|, b requires 0 <= b < |ts| => Zip(ts, cm, b))
  }

  /** The message limit and the root check of a complete block. */
  predicate ValidMsgMeta(root: Root, fb: FullBlock) {
    |fb.bls| + |fb.secpk| <= BLOCK_MESSAGE_LIMIT && fb.header.messages == root(fb.bls, fb.secpk)
  }

  predicate KeepsLimit(ts: Headers, cm: Compacted, b: nat)
    requires SameShape(ts, cm) && b < |ts|
  {
    |cm.blsIncludes[b]| + |cm.secpkIncludes[b]| <= BLOCK_MESSAGE_LIMIT
  }

  predicate Good(root: Root, ts: Headers, cm: Compacted, b: nat)
    requires SameShape(ts, cm) && b < |ts|
  {
    Indexed(ts, cm, b) && ValidMsgMeta(root, Zip(ts, cm, b))
  }

  /** The messages fit the tipset: zipped together they make valid blocks. */
  predicate Fits(root: Root, ts: Headers, cm: Compacted) {
    && SameShape(ts, cm) && (forall b :: 0 <= b < |ts| ==> Indexed(ts, cm, b))
    && forall b :: 0 <= b < |ts| ==> ValidMsgMeta(root, Zip(ts, cm, b))
  }

  /** The check gets to a block with an index that names no message, or a null signed one: the block
      keeps the limit and all before it are good. */
  predicate StraysAt(root: Root, ts: Headers, cm: Compacted, b: nat)
    requires SameShape(ts, cm) && b < |ts|
  {
    && KeepsLimit(ts, cm, b) && !Indexed(ts, cm, b)
    && forall j :: 0 <= j < b ==> Good(root, ts, cm, j)
  }

  predicate Strays(root: Root, ts: Headers, cm: Compacted) {
    SameShape(ts, cm) && exists b :: 0 <= b < |ts| && StraysAt(root, ts, cm, b)
  }

  lemma AllGoodFits(root: Root, ts: Headers, cm: Compacted)
    requires SameShape(ts, cm) && forall b :: 0 <= b < |ts| ==> Good(root, ts, cm, b)
    ensures Fits(root, ts, cm)
  {
    forall b | 0 <= b < |ts| ensures Indexed(ts, cm, b) { assert Good(root, ts, cm, b); }
    forall b | 0 <= b < |ts| ensures ValidMsgMeta(root, Zip(ts, cm, b)) { assert Good(root, ts, cm, b); }
  }

  lemma FitsIsNoStray(root: Root, ts: Headers, cm: Compacted)
    requires Fits(root, ts, cm)
    ensures !Strays(root, ts, cm)
  {
    forall b | 0 <= b < |ts| ensures !StraysAt(root, ts, cm, b) { assert Indexed(ts, cm, b); }
  }

  /** The list names the messages at the indices, one by one and in their order. */
  ghost predicate Names(all: seq<Cid>, idx: seq<nat>, list: seq<Cid>) {
    |list| == |idx| && forall k :: 0 <= k < |idx| ==> idx[k] < |all| && list[k] == all[idx[k]]
  }

  ghost predicate NamesSigned(all: seq<Option<Cid>>, idx: seq<nat>, list: seq<Cid>) {
    |list| == |idx| && forall k :: 0 <= k < |idx| ==> idx[k] < |all| && all[idx[k]] == Some(list[k])
  }

  /** A zipped block is the header with the messages its indices name, in their order. */
  ghost predicate ZipsTo(ts: Headers, cm: Compacted, b: nat, fb: FullBlock)
    requires SameShape(ts, cm) && b < |ts|
  {
    && fb.header == ts[b]
    && Names(cm.bls, cm.blsIncludes[b], fb.bls) && NamesSigned(cm.secpk, cm.secpkIncludes[b], fb.secpk)
  }

  /** Zipping is the one way to put a block together from its indices. */
  lemma ZipIs(ts: Headers, cm: Compacted, b: nat, fb: FullBlock)
    requires SameShape(ts, cm) && b < |ts|
    ensures ZipsTo(ts, cm, b, fb) <==> Indexed(ts, cm, b) && fb == Zip(ts, cm, b)
  {
    if ZipsTo(ts, cm, b, fb) {
      assert fb.bls == Pick(cm.bls, cm.blsIncludes[b]);
      assert fb.secpk == PickSigned(cm.secpk, cm.secpkIncludes[b]);
    }
  }

  /** The indices of the block name messages, within the limit, whose root, taken over the unsigned and
      the signed ones in the order of the indices, is the header's. */
  ghost predicate Rooted(root: Root, ts: Headers, cm: Compacted, b: nat)
    requires SameShape(ts, cm) && b < |ts|
  {
    exists fb ::
      && ZipsTo(ts, cm, b, fb) && |fb.bls| + |fb.secpk| <= BLOCK_MESSAGE_LIMIT
      && ts[b].messages == root(fb.bls, fb.secpk)
  }

  lemma GoodIsRooted(root: Root, ts: Headers, cm: Compacted, b: nat)
    requires SameShape(ts, cm) && b < |ts|
    ensures Good(root, ts, cm, b) <==> Rooted(root, ts, cm, b)
  {
    if Good(root, ts, cm, b) { ZipIs(ts, cm, b, Zip(ts, cm, b)); }
    if Rooted(root, ts, cm, b) {
      var fb :| ZipsTo(ts, cm, b, fb) && |fb.bls| + |fb.secpk| <= BLOCK_MESSAGE_LIMIT &&
        ts[b].messages == root(fb.bls, fb.secpk);
      ZipIs(ts, cm, b, fb);
    }
  }

  /** Messages fit a tipset exactly when they are rooted in each of its blocks. */
  lemma FitsMeans(root: Root, ts: Headers, cm: Compacted)
    requires SameShape(ts, cm)
    ensures Fits(root, ts, cm) <==> forall b :: 0 <= b < |ts| ==> Rooted(root, ts, cm, b)
  {
    if Fits(root, ts, cm) {
      forall b | 0 <= b < |ts| ensures Rooted(root, ts, cm, b) {
        assert Indexed(ts, cm, b) && ValidMsgMeta(root, Zip(ts, cm, b));
        GoodIsRooted(root, ts, cm, b);
      }
    }
    if forall b :: 0 <= b < |ts| ==> Rooted(root, ts, cm, b) {
      forall b | 0 <= b < |ts| ensures Good(root, ts, cm, b) { GoodIsRooted(root, ts, cm, b); }
      AllGoodFits(root, ts, cm);
    }
  }

  // ---------------------------------------------------------------- what the exchange client lets through

  const TWO_63 := 0x8000_0000_0000_0000

  /** The conversion of an unsigned index to a signed number. */
  function ToInt(x: nat): int
    requires x < 2 * TWO_63
  {
    if x < TWO_63 then x else x - 2 * TWO_63
  }

  /** The client's test of the indices; it does not look at the messages. */
  predicate PassesClient<T>(idx: seq<nat>, all: seq<T>) {
    forall i :: 0 <= i < |idx| ==> idx[i] < 2 * TWO_63 && ToInt(idx[i]) < |all|
  }

  /** Indices that pass the client all name messages exactly when none turns negative there. */
  lemma PassesClientIff<T>(idx: seq<nat>, all: seq<T>)
    requires PassesClient(idx, all) && |all| < TWO_63
    ensures InRange(idx, all) <==> forall i :: 0 <= i < |idx| ==> idx[i] < TWO_63
  {
  }

  // ---------------------------------------------------------------- the check and the zip

  datatype Outcome<T> = Done(value: T) | Failed | Panicked

  /** Looks the indices up one by one; one that names no message panics. */
  method PickAll(all: seq<Cid>, idx: seq<nat>) returns (r: Option<seq<Cid>>)
    ensures r == if InRange(idx, all) then Some(Pick(all, idx)) else None
  {
    var out := [];
    for i := 0 to |idx|
      invariant InRange(idx[..i], all) && out == Pick(all, idx[..i])
    {
      if idx[i] >= |all| { return None; }
      out := out + [all[idx[i]]];
      assert idx[..i + 1] == idx[..i] + [idx[i]];
    }
    assert idx[..|idx|] == idx;
    return Some(out);
  }

  /** The same for signed messages; a null one panics too. */
  method PickAllSigned(all: seq<Option<Cid>>, idx: seq<nat>) returns (r: Option<seq<Cid>>)
    ensures r == if Named(idx, all) then Some(PickSigned(all, idx)) else None
  {
    var out := [];
    for i := 0 to |idx|
      invariant Named(idx[..i], all) && out == PickSigned(all, idx[..i])
    {
      if idx[i] >= |all| || all[idx[i]].None? { return None; }
      out := out + [all[idx[i]].value];
      assert idx[..i + 1] == idx[..i] + [idx[i]];
    }
    assert idx[..|idx|] == idx;
    return Some(out);
  }

  method CheckMsgMeta(root: Root, ts: Headers, cm: Compacted) returns (r: Outcome<()>)
    requires SameShape(ts, cm)
    ensures r.Done? <==> Fits(root, ts, cm)
    ensures r.Panicked? <==> Strays(root, ts, cm)
    ensures r.Done? <==> forall b :: 0 <= b < |ts| ==> Rooted(root, ts, cm, b)
  {
    FitsMeans(root, ts, cm);
    for b := 0 to |ts|
      invariant forall j :: 0 <= j < b ==> Good(root, ts, cm, j)
    {
      if |cm.blsIncludes[b]| + |cm.secpkIncludes[b]| > BLOCK_MESSAGE_LIMIT {
        StopsAt(root, ts, cm, b);
        return Failed;
      }
      var smsgCids := PickAllSigned(cm.secpk, cm.secpkIncludes[b]);
      var bmsgCids := PickAll(cm.bls, cm.blsIncludes[b]);
      if smsgCids.None? || bmsgCids.None? {
        StopsAt(root, ts, cm, b);
        return Panicked;
      }
      if ts[b].messages != root(bmsgCids.value, smsgCids.value) {
        StopsAt(root, ts, cm, b);
        return Failed;
      }
    }
    AllGoodFits(root, ts, cm);
    FitsIsNoStray(root, ts, cm);
    return Done(());
  }

  /** The first block that is not good decides. */
  lemma StopsAt(root: Root, ts: Headers, cm: Compacted, b: nat)
    requires SameShape(ts, cm) && b < |ts| && !Good(root, ts, cm, b)
    requires forall j :: 0 <= j < b ==> Good(root, ts, cm, j)
    ensures !Fits(root, ts, cm)
    ensures Strays(root, ts, cm) <==> KeepsLimit(ts, cm, b) && !Indexed(ts, cm, b)
  {
    forall k | 0 <= k < |ts| && k != b ensures !StraysAt(root, ts, cm, k) {
      if k < b { assert Good(root, ts, cm, k); }
    }
    assert StraysAt(root, ts, cm, b) <==> KeepsLimit(ts, cm, b) && !Indexed(ts, cm, b);
  }

  /** Zipping succeeds exactly when the messages fit, and then yields blocks that validate; it
      panics exactly when the check strays. */
  method ZipTipSetAndMessages(root: Root, ts: Headers, cm: Compacted) returns (r: Outcome<seq<FullBlock>>)
    ensures r.Done? <==> Fits(root, ts, cm)
    ensures r.Panicked? <==> Strays(root, ts, cm)
    ensures r.Done? ==> r.value == Zipped(ts, cm) && forall b :: 0 <= b < |r.value| ==> ValidMsgMeta(root, r.value[b])
    ensures r.Done? ==> |r.value| == |ts| && forall b :: 0 <= b < |ts| ==> ZipsTo(ts, cm, b, r.value[b])
  {
    if |ts| != |cm.secpkIncludes| || |ts| != |cm.blsIncludes| { return Failed; }
    var checked := CheckMsgMeta(root, ts, cm);
    if checked.Panicked? { return Panicked; }
    if checked.Failed? { return Failed; }
    var fts := [];
    for b := 0 to |ts|
      invariant fts == Zipped(ts, cm)[..b]
    {
      assert Indexed(ts, cm, b);
      var smsgs := PickAllSigned(cm.secpk, cm.secpkIncludes[b]);
      var bmsgs := PickAll(cm.bls, cm.blsIncludes[b]);
      fts := fts + [FullBlock(ts[b], bmsgs.value, smsgs.value)];
    }
    forall b | 0 <= b < |ts| ensures ZipsTo(ts, cm, b, fts[b]) {
      assert Indexed(ts, cm, b);
      ZipIs(ts, cm, b, fts[b]);
    }
    return Done(fts);
  }

  // ---------------------------------------------------------------- fetching in chunks

  /** What the exchange answers to the request for `count` tipsets starting at a header
      index, at the given attempt. It may answer with fewer, but never with none or more, and
      nothing is assumed of the message indices. */
  type Exchange = (nat, nat, nat) -> Option<seq<Compacted>>

  ghost predicate ExchangeOk(headers: seq<Headers>, ask: Exchange) {
    forall start: nat, count: nat, retry: nat :: ask(start, count, retry).Some? && start + count <= |headers| ==>
      && 0 < |ask(start, count, retry).value| <= count
      && forall i :: 0 <= i < |ask(start, count, retry).value| ==>
           SameShape(headers[start + i], ask(start, count, retry).value[i])
  }

  /** What one answer amounts to. The check panics past the end of an answer that is too short but fits
      as far as it goes, and at an index that names no message with an identifier. */
  datatype Verdict = Usable(msgs: seq<Compacted>) | Unusable | Panics

  predicate FitAll(root: Root, headers: seq<Headers>, start: nat, msgs: seq<Compacted>)
    requires start + |msgs| <= |headers|
  {
    FitUpTo(root, headers, start, msgs, |msgs|)
  }

  /** The check of the answer gets to an entry that strays. */
  ghost predicate AnswerStrays(root: Root, headers: seq<Headers>, start: nat, msgs: seq<Compacted>)
    requires start + |msgs| <= |headers|
  {
    exists i :: 0 <= i < |msgs| && Strays(root, headers[start + i], msgs[i]) && FitUpTo(root, headers, start, msgs, i)
  }

  predicate FitUpTo(root: Root, headers: seq<Headers>, start: nat, msgs: seq<Compacted>, n: nat)
    requires n <= |msgs| && start + |msgs| <= |headers|
  {
    forall i :: 0 <= i < n ==> Fits(root, headers[start + i], msgs[i])
  }

  ghost function Judge(
    root: Root, headers: seq<Headers>, start: nat, count: nat, answer: Option<seq<Compacted>>): Verdict
    requires start + count <= |headers| && (answer.Some? ==> |answer.value| <= count)
  {
    if answer.None? then Unusable
    else if AnswerStrays(root, headers, start, answer.value) then Panics
    else if !FitAll(root, headers, start, answer.value) then Unusable
    else if |answer.value| < count then Panics
    else Usable(answer.value)
  }

  /** The first decisive answer among the attempts from `retry` on. */
  ghost function Attempts(root: Root, headers: seq<Headers>, ask: Exchange, start: nat, count: nat, retry: nat): Verdict
    requires start + count <= |headers| && ExchangeOk(headers, ask)
    decreases SYNC_REQUEST_RETRIES - retry
  {
    if retry >= SYNC_REQUEST_RETRIES then Unusable
    else
      var v := Judge(root, headers, start, count, ask(start, count, retry));
      if v.Unusable? then Attempts(root, headers, ask, start, count, retry + 1) else v
  }

  lemma {:induction false} AttemptsFit(
    root: Root, headers: seq<Headers>, ask: Exchange, start: nat, count: nat, retry: nat)
    requires start + count <= |headers| && ExchangeOk(headers, ask)
    requires Attempts(root, headers, ask, start, count, retry).Usable?
    ensures |Attempts(root, headers, ask, start, count, retry).msgs| == count
    ensures FitAll(root, headers, start, Attempts(root, headers, ask, start, count, retry).msgs)
    decreases SYNC_REQUEST_RETRIES - retry
  {
    if Judge(root, headers, start, count, ask(start, count, retry)).Unusable? {
      AttemptsFit(root, headers, ask, start, count, retry + 1);
    }
  }

  /** An answer whose check panics: it covers fewer tipsets than were asked for and fits as far as it
      goes, or the check of it gets to a stray message index. */
  ghost predicate Overrun(root: Root, headers: seq<Headers>, start: nat, count: nat, answer: Option<seq<Compacted>>)
    requires start + count <= |headers| && (answer.Some? ==> |answer.value| <= count)
  {
    && answer.Some?
    && ((|answer.value| < count && FitAll(root, headers, start, answer.value))
        || AnswerStrays(root, headers, start, answer.value))
  }

  /** An answer that is passed over: none, or one that fails its check. */
  ghost predicate Useless(root: Root, headers: seq<Headers>, start: nat, count: nat, answer: Option<seq<Compacted>>)
    requires start + count <= |headers| && (answer.Some? ==> |answer.value| <= count)
  {
    || answer.None?
    || (!FitAll(root, headers, start, answer.value) && !AnswerStrays(root, headers, start, answer.value))
  }

  /** A chunk panics exactly when the first answer that is not useless overruns. */
  lemma {:induction false} ChunkPanicsIff(
    root: Root, headers: seq<Headers>, ask: Exchange, start: nat, count: nat, retry: nat)
    requires start + count <= |headers| && ExchangeOk(headers, ask) && retry <= SYNC_REQUEST_RETRIES
    ensures Attempts(root, headers, ask, start, count, retry).Panics? <==>
      exists a ::
        && retry <= a < SYNC_REQUEST_RETRIES && Overrun(root, headers, start, count, ask(start, count, a))
        && forall b :: retry <= b < a ==> Useless(root, headers, start, count, ask(start, count, b))
    decreases SYNC_REQUEST_RETRIES - retry
  {
    if retry < SYNC_REQUEST_RETRIES {
      var answer := ask(start, count, retry);
      JudgeMeans(root, headers, start, count, answer);
      if Useless(root, headers, start, count, answer) {
        ChunkPanicsIff(root, headers, ask, start, count, retry + 1);
      }
    }
  }

  /** An answer that is taken: one for every tipset asked about, and all of them fit. */
  ghost predicate Complete(
    root: Root, headers: seq<Headers>, start: nat, count: nat, answer: Option<seq<Compacted>>, msgs: seq<Compacted>)
    requires start + count <= |headers|
  {
    answer == Some(msgs) && |msgs| == count && FitAll(root, headers, start, msgs)
  }

  /** A chunk is answered exactly with the first answer that is not useless, if that is complete. */
  lemma {:induction false} ChunkUsableIff(
    root: Root, headers: seq<Headers>, ask: Exchange, start: nat, count: nat, retry: nat, msgs: seq<Compacted>)
    requires start + count <= |headers| && ExchangeOk(headers, ask) && retry <= SYNC_REQUEST_RETRIES
    ensures Attempts(root, headers, ask, start, count, retry) == Usable(msgs) <==>
      exists a ::
        && retry <= a < SYNC_REQUEST_RETRIES && Complete(root, headers, start, count, ask(start, count, a), msgs)
        && forall b :: retry <= b < a ==> Useless(root, headers, start, count, ask(start, count, b))
    decreases SYNC_REQUEST_RETRIES - retry
  {
    if retry < SYNC_REQUEST_RETRIES {
      var answer := ask(start, count, retry);
      JudgeMeans(root, headers, start, count, answer);
      JudgeUsable(root, headers, start, count, answer, msgs);
      if Useless(root, headers, start, count, answer) {
        ChunkUsableIff(root, headers, ask, start, count, retry + 1, msgs);
      }
    }
  }

  lemma JudgeUsable(
    root: Root, headers: seq<Headers>, start: nat, count: nat, answer: Option<seq<Compacted>>, msgs: seq<Compacted>)
    requires start + count <= |headers| && (answer.Some? ==> |answer.value| <= count)
    ensures Judge(root, headers, start, count, answer) == Usable(msgs) <==>
      Complete(root, headers, start, count, answer, msgs)
    ensures Complete(root, headers, start, count, answer, msgs) ==> !Useless(root, headers, start, count, answer)
  {
    if Complete(root, headers, start, count, answer, msgs) { FitAllIsNoStray(root, headers, start, msgs); }
  }

  lemma JudgeMeans(root: Root, headers: seq<Headers>, start: nat, count: nat, answer: Option<seq<Compacted>>)
    requires start + count <= |headers| && (answer.Some? ==> |answer.value| <= count)
    ensures Judge(root, headers, start, count, answer).Unusable? <==> Useless(root, headers, start, count, answer)
    ensures Judge(root, headers, start, count, answer).Panics? <==> Overrun(root, headers, start, count, answer)
    ensures Judge(root, headers, start, count, answer).Usable? ==> FitAll(root, headers, start, answer.value)
  {
  }

  /** One tipset's messages in answer to a request for two. */
  lemma ShortAnswerPanics(root: Root, cid: Cid)
    ensures var headers := [[Header(cid, root([], []))], [Header(cid, root([], []))]];
      var ask := (start: nat, count: nat, retry: nat) =>
        if count == 0 then None else Some([Compacted([], [], [[]], [[]])]);
      Attempts(root, headers, ask, 0, 2, 0).Panics?
  {
    var h := Header(cid, root([], []));
    var cm := Compacted([], [], [[]], [[]]);
    assert Pick([], []) == [];
    assert Fits(root, [h], cm);
  }

  /** A full answer with an index from 2^63 on, which the client takes for a negative number. */
  lemma StrayIndexPanics(root: Root, h: Header)
    ensures var cm := Compacted([], [], [[TWO_63]], [[]]);
      var ask := (start: nat, count: nat, retry: nat) => if count == 0 then None else Some([cm]);
      && PassesClient(cm.blsIncludes[0], cm.bls) && PassesClient(cm.secpkIncludes[0], cm.secpk)
      && Attempts(root, [[h]], ask, 0, 1, 0).Panics?
  {
    var cm := Compacted([], [], [[TWO_63]], [[]]);
    assert cm.blsIncludes[0][0] >= |cm.bls|;
    assert StraysAt(root, [h], cm, 0);
    assert [[h]][0 + 0] == [h] && FitUpTo(root, [[h]], 0, [cm], 0);
    assert AnswerStrays(root, [[h]], 0, [cm]);
  }

  /** A full answer whose only index names a null signed message. */
  lemma NullMessagePanics(root: Root, h: Header)
    ensures var cm := Compacted([], [None], [[]], [[0]]);
      var ask := (start: nat, count: nat, retry: nat) => if count == 0 then None else Some([cm]);
      && PassesClient(cm.blsIncludes[0], cm.bls) && PassesClient(cm.secpkIncludes[0], cm.secpk)
      && Attempts(root, [[h]], ask, 0, 1, 0).Panics?
  {
    var cm := Compacted([], [None], [[]], [[0]]);
    assert cm.secpk[cm.secpkIncludes[0][0]].None?;
    assert StraysAt(root, [h], cm, 0);
    assert [[h]][0 + 0] == [h] && FitUpTo(root, [[h]], 0, [cm], 0);
    assert AnswerStrays(root, [[h]], 0, [cm]);
  }

  /** The check of one answer: entry by entry, in the order of the request. */
  method CheckAnswer(
    root: Root, headers: seq<Headers>, start: nat, count: nat, answer: seq<Compacted>) returns (v: Verdict)
    requires start + count <= |headers| && |answer| <= count
    requires forall i :: 0 <= i < |answer| ==> SameShape(headers[start + i], answer[i])
    ensures v == Judge(root, headers, start, count, Some(answer))
  {
    for i := 0 to count
      invariant i <= |answer| && FitUpTo(root, headers, start, answer, i)
    {
      if i >= |answer| {
        FitAllIsNoStray(root, headers, start, answer);
        return Panics;
      }
      var checked := CheckMsgMeta(root, headers[start + i], answer[i]);
      if !checked.Done? {
        EntryDecides(root, headers, start, answer, i);
        return if checked.Panicked? then Panics else Unusable;
      }
    }
    FitAllIsNoStray(root, headers, start, answer);
    return Usable(answer);
  }

  lemma FitAllIsNoStray(root: Root, headers: seq<Headers>, start: nat, msgs: seq<Compacted>)
    requires start + |msgs| <= |headers| && FitAll(root, headers, start, msgs)
    ensures !AnswerStrays(root, headers, start, msgs)
  {
    forall i | 0 <= i < |msgs| ensures !Strays(root, headers[start + i], msgs[i]) {
      FitsIsNoStray(root, headers[start + i], msgs[i]);
    }
  }

  /** The first entry that does not fit decides. */
  lemma EntryDecides(root: Root, headers: seq<Headers>, start: nat, msgs: seq<Compacted>, i: nat)
    requires start + |msgs| <= |headers| && i < |msgs| && FitUpTo(root, headers, start, msgs, i)
    requires !Fits(root, headers[start + i], msgs[i])
    ensures !FitAll(root, headers, start, msgs)
    ensures AnswerStrays(root, headers, start, msgs) <==> Strays(root, headers[start + i], msgs[i])
  {
    forall k | 0 <= k < |msgs| && k != i && FitUpTo(root, headers, start, msgs, k)
      ensures !Strays(root, headers[start + k], msgs[k])
    {
      if k < i { FitsIsNoStray(root, headers[start + k], msgs[k]); }
    }
  }

  method FetchChunk(root: Root, headers: seq<Headers>, ask: Exchange, start: nat, count: nat) returns (v: Verdict)
    requires start + count <= |headers| && ExchangeOk(headers, ask)
    ensures v == Attempts(root, headers, ask, start, count, 0)
  {
    v := Unusable;
    var retry := 0;
    while v.Unusable? && retry < SYNC_REQUEST_RETRIES
      invariant retry <= SYNC_REQUEST_RETRIES
      invariant Attempts(root, headers, ask, start, count, 0) ==
        if v.Unusable? then Attempts(root, headers, ask, start, count, retry) else v
    {
      var answer := ask(start, count, retry);
      if answer.Some? {
        v := CheckAnswer(root, headers, start, count, answer.value);
      }
      retry := retry + 1;
    }
  }

  predicate IsChunkStart(lo: nat, j: nat) {
    (j - lo) % SYNC_REQUEST_BATCH_SIZE == 0
  }

  /** The header indices at which the chunks of a batch begin. */
  function ChunkStarts(lo: nat, n: nat): set<nat> {
    set j: nat | lo <= j < lo + n && IsChunkStart(lo, j)
  }

  function ChunkLength(j: nat, end: nat): nat
    requires j <= end
  {
    if j + SYNC_REQUEST_BATCH_SIZE > end then end - j else SYNC_REQUEST_BATCH_SIZE
  }

  ghost function Chunk(root: Root, headers: seq<Headers>, ask: Exchange, lo: nat, end: nat, j: nat): Verdict
    requires lo <= j <= end <= |headers| && ExchangeOk(headers, ask)
  {
    Attempts(root, headers, ask, j, ChunkLength(j, end), 0)
  }

  /** The chunk a slot belongs to. */
  function ChunkOf(lo: nat, i: nat): nat {
    lo + i - i % SYNC_REQUEST_BATCH_SIZE
  }

  ghost predicate Filled(root: Root, headers: seq<Headers>, lo: nat, batch: seq<Option<Compacted>>, i: nat)
    requires lo + |batch| <= |headers| && i < |batch|
  {
    batch[i].Some? && Fits(root, headers[lo + i], batch[i].value)
  }

  /** Works through the chunks in any order, filling the shared batch; a chunk without a
      usable answer only fails the batch, an answer whose check panics ends it. */
  method FillBatch(root: Root, headers: seq<Headers>, ask: Exchange, lo: nat, end: nat, batch: array<Option<Compacted>>)
    returns (failed: bool, panicked: bool)
    requires lo <= end <= |headers| && ExchangeOk(headers, ask) && batch.Length == end - lo
    modifies batch
    ensures panicked <==>
      exists j :: j in ChunkStarts(lo, end - lo) && Chunk(root, headers, ask, lo, end, j).Panics?
    ensures !panicked ==>
      (failed <==> exists j :: j in ChunkStarts(lo, end - lo) && Chunk(root, headers, ask, lo, end, j).Unusable?)
    ensures !panicked && !failed ==> forall i :: 0 <= i < end - lo ==> Filled(root, headers, lo, batch[..], i)
  {
    var n := end - lo;
    failed, panicked := false, false;
    SlotsOwned(lo, n);
    var pending := ChunkStarts(lo, n);
    while pending != {}
      invariant pending <= ChunkStarts(lo, n) && !panicked
      invariant failed <==>
        exists j :: j in ChunkStarts(lo, n) && j !in pending && Chunk(root, headers, ask, lo, end, j).Unusable?
      invariant forall j :: j in ChunkStarts(lo, n) && j !in pending ==>
        !Chunk(root, headers, ask, lo, end, j).Panics?
      invariant !failed ==> forall i :: 0 <= i < n && ChunkOf(lo, i) !in pending ==>
        Filled(root, headers, lo, batch[..], i)
    {
      var j :| j in pending;
      pending := pending - {j};
      var v := FetchChunk(root, headers, ask, j, ChunkLength(j, end));
      assert v == Chunk(root, headers, ask, lo, end, j);
      match v {
        case Panics => panicked := true; return;
        case Unusable => failed := true;
        case Usable(msgs) =>
          AttemptsFit(root, headers, ask, j, ChunkLength(j, end), 0);
          StoreChunk(root, headers, lo, batch, j, msgs);
      }
    }
  }

  /** Fetches the messages of the headers from `lo` to `end`. It succeeds exactly when
      every chunk gets a usable answer, and then every slot fits its own header. */
  method FetchMessages(
    root: Root, headers: seq<Headers>, ask: Exchange, lo: nat, end: nat) returns (r: Outcome<seq<Compacted>>)
    requires lo <= end <= |headers| && ExchangeOk(headers, ask)
    ensures r.Done? <==> forall j :: j in ChunkStarts(lo, end - lo) ==> Chunk(root, headers, ask, lo, end, j).Usable?
    ensures r.Panicked? <==>
      exists j :: j in ChunkStarts(lo, end - lo) && Chunk(root, headers, ask, lo, end, j).Panics?
    ensures r.Done? ==> |r.value| == end - lo && FitAll(root, headers, lo, r.value)
  {
    var n := end - lo;
    var batch := new Option<Compacted>[n](_ => None);
    var failed, panicked := FillBatch(root, headers, ask, lo, end, batch);
    if panicked { return Panicked; }
    if failed { return Failed; }
    var out := [];
    for i := 0 to n
      invariant |out| == i && FitAll(root, headers, lo, out)
    {
      assert Filled(root, headers, lo, batch[..], i);
      out := out + [batch[i].value];
    }
    return Done(out);
  }

  /** Copies the answer to one chunk into its own slots and no others. */
  method StoreChunk(
    ghost root: Root, ghost headers: seq<Headers>, lo: nat, batch: array<Option<Compacted>>,
    j: nat, msgs: seq<Compacted>)
    requires lo + batch.Length <= |headers| && j in ChunkStarts(lo, batch.Length)
    requires |msgs| == ChunkLength(j, lo + batch.Length) && FitAll(root, headers, j, msgs)
    modifies batch
    ensures forall i :: 0 <= i < batch.Length && ChunkOf(lo, i) == j ==> Filled(root, headers, lo, batch[..], i)
    ensures forall i :: 0 <= i < batch.Length && ChunkOf(lo, i) != j ==> batch[i] == old(batch[i])
  {
    OwnSlots(lo, batch.Length, j);
    CopyInto(batch, j - lo, msgs);
    forall i | 0 <= i < batch.Length && ChunkOf(lo, i) == j ensures Filled(root, headers, lo, batch[..], i) {
      assert Fits(root, headers[j + (i - (j - lo))], msgs[i - (j - lo)]);
    }
  }

  method CopyInto(batch: array<Option<Compacted>>, at: nat, msgs: seq<Compacted>)
    requires at + |msgs| <= batch.Length
    modifies batch
    ensures forall i :: 0 <= i < batch.Length ==>
      batch[i] == if at <= i < at + |msgs| then Some(msgs[i - at]) else old(batch[i])
  {
    for k := 0 to |msgs|
      invariant forall i :: 0 <= i < batch.Length ==>
        batch[i] == if at <= i < at + k then Some(msgs[i - at]) else old(batch[i])
    {
      batch[at + k] := Some(msgs[k]);
    }
  }

  lemma SlotsOwned(lo: nat, n: nat)
    ensures forall i :: 0 <= i < n ==> ChunkOf(lo, i) in ChunkStarts(lo, n)
  {
    forall i | 0 <= i < n ensures ChunkOf(lo, i) in ChunkStarts(lo, n) {
      assert IsChunkStart(lo, ChunkOf(lo, i));
    }
  }

  lemma OwnSlots(lo: nat, n: nat, j: nat)
    requires j in ChunkStarts(lo, n)
    ensures forall i :: 0 <= i < n ==> (ChunkOf(lo, i) == j <==> j - lo <= i < j - lo + ChunkLength(j, lo + n))
  {
  }

  // ---------------------------------------------------------------- handing tipsets on

  /** The local store's attempt to complete a tipset. */
  type Fill = Headers -> Option<seq<FullBlock>>

  ghost predicate FillOk(fill: Fill) {
    forall ts: Headers :: fill(ts).Some? ==>
      |fill(ts).value| == |ts| && forall b :: 0 <= b < |ts| ==> fill(ts).value[b].header == ts[b]
  }

  /** `full` completes the tipset with its own messages, stored or fetched. */
  ghost predicate Completes(root: Root, fill: Fill, ts: Headers, full: seq<FullBlock>) {
    && |full| == |ts| && (forall b :: 0 <= b < |ts| ==> full[b].header == ts[b])
    && (fill(ts) == Some(full) || exists cm :: Fits(root, ts, cm) && full == Zipped(ts, cm))
  }

  /** The tipsets handed on so far are the oldest ones, oldest first, each once. */
  ghost predicate InOrder(root: Root, fill: Fill, headers: seq<Headers>, calls: seq<seq<FullBlock>>) {
    |calls| <= |headers| && forall k :: 0 <= k < |calls| ==> Completes(root, fill, headers[|headers| - 1 - k], calls[k])
  }

  lemma OneMore(root: Root, fill: Fill, headers: seq<Headers>, calls: seq<seq<FullBlock>>, full: seq<FullBlock>)
    requires InOrder(root, fill, headers, calls) && |calls| < |headers|
    requires Completes(root, fill, headers[|headers| - 1 - |calls|], full)
    ensures InOrder(root, fill, headers, calls + [full])
  {
  }

  /** What becomes of the k-th hand-over: taking it, or storing its messages. */
  type Callback = nat -> Outcome<()>

  /** The callback succeeds on all hand-overs of the range. */
  predicate All(callback: Callback, first: nat, end: nat) {
    forall k :: first <= k < end ==> callback(k).Done?
  }

  /** A fetched tipset is handed on and then its messages are stored. */
  function Both(accept: Callback, persist: Callback): Callback {
    (k: nat) => if accept(k).Done? then persist(k) else accept(k)
  }

  /** The callback on the range in turn, up to the first that does not succeed. */
  function Calls(callback: Callback, first: nat, end: nat): Outcome<()>
    requires first <= end
    decreases end - first
  {
    if first == end then Done(())
    else if callback(first).Done? then Calls(callback, first + 1, end)
    else callback(first)
  }

  lemma {:induction false} CallsDoneIff(callback: Callback, first: nat, end: nat)
    requires first <= end
    ensures Calls(callback, first, end).Done? <==> All(callback, first, end)
    decreases end - first
  {
    if first < end { CallsDoneIff(callback, first + 1, end); }
  }

  predicate PanicsFirst(callback: Callback, first: nat, k: nat) {
    first <= k && callback(k).Panicked? && All(callback, first, k)
  }

  /** The first call of the range that does not succeed panics. */
  ghost predicate PanicsWithin(callback: Callback, first: nat, end: nat) {
    exists k: nat :: k < end && PanicsFirst(callback, first, k)
  }

  lemma CallsOne(callback: Callback, k: nat)
    ensures Calls(callback, k, k + 1) == callback(k)
  {
    if callback(k).Done? {
      match callback(k).value
      case () => assert Calls(callback, k + 1, k + 1) == Done(());
    }
  }

  lemma {:induction false} CallsPanickedIff(callback: Callback, first: nat, end: nat)
    requires first <= end
    ensures Calls(callback, first, end).Panicked? <==> PanicsWithin(callback, first, end)
    decreases end - first
  {
    if first < end {
      CallsPanickedIff(callback, first + 1, end);
      if callback(first).Panicked? { assert PanicsFirst(callback, first, first); }
      if callback(first).Done? && PanicsWithin(callback, first + 1, end) {
        var k: nat :| k < end && PanicsFirst(callback, first + 1, k);
        assert PanicsFirst(callback, first, k);
      }
      if PanicsWithin(callback, first, end) {
        var k: nat :| k < end && PanicsFirst(callback, first, k);
        if k != first { assert PanicsFirst(callback, first + 1, k); }
      }
    }
  }

  /** Storing the messages of a fetched tipset: the unsigned ones, then the signed ones, each of a
      known signature type. A null signed message panics although no block includes it. */
  method PersistMessages(cm: Compacted, known: Cid -> bool, put: Cid -> bool) returns (r: Outcome<()>)
    ensures r.Done? <==> (forall c :: c in cm.bls ==> put(c)) && StoredUpTo(cm.secpk, known, put, |cm.secpk|)
    ensures r.Panicked? <==>
      && (forall c :: c in cm.bls ==> put(c))
      && exists i :: 0 <= i < |cm.secpk| && cm.secpk[i].None? && StoredUpTo(cm.secpk, known, put, i)
  {
    for i := 0 to |cm.bls|
      invariant forall j :: 0 <= j < i ==> put(cm.bls[j])
    {
      if !put(cm.bls[i]) { return Failed; }
    }
    for i := 0 to |cm.secpk|
      invariant StoredUpTo(cm.secpk, known, put, i)
    {
      if cm.secpk[i].None? { return Panicked; }
      if !known(cm.secpk[i].value) || !put(cm.secpk[i].value) { return Failed; }
    }
    return Done(());
  }

  predicate StoredUpTo(secpk: seq<Option<Cid>>, known: Cid -> bool, put: Cid -> bool, n: nat)
    requires n <= |secpk|
  {
    forall i :: 0 <= i < n ==> secpk[i].Some? && known(secpk[i].value) && put(secpk[i].value)
  }

  /** Hands on a fetched batch, oldest header first; the first hand-over that does not go well ends it. */
  method HandOnBatch(
    root: Root, ghost fill: Fill, headers: seq<Headers>, top: nat, msgs: seq<Compacted>,
    accept: Callback, persist: Callback, soFar: seq<seq<FullBlock>>)
    returns (r: Outcome<()>, calls: seq<seq<FullBlock>>)
    requires |msgs| <= top <= |headers| && FitAll(root, headers, top - |msgs|, msgs)
    requires InOrder(root, fill, headers, soFar) && |soFar| == |headers| - top && All(accept, 0, |soFar|)
    ensures soFar <= calls && InOrder(root, fill, headers, calls)
    ensures r.Done? ==> |calls| == |soFar| + |msgs| && All(accept, 0, |calls|)
    ensures r == Calls(Both(accept, persist), |soFar|, |soFar| + |msgs|)
  {
    ghost var end := |soFar| + |msgs|;
    calls := soFar;
    for bsi := 0 to |msgs|
      invariant soFar <= calls && |calls| == |soFar| + bsi && InOrder(root, fill, headers, calls)
      invariant All(accept, 0, |calls|)
      invariant Calls(Both(accept, persist), |soFar|, end) == Calls(Both(accept, persist), |calls|, end)
    {
      var header := headers[top - 1 - bsi];
      var bstip := msgs[|msgs| - (bsi + 1)];
      assert Fits(root, headers[top - |msgs| + (|msgs| - (bsi + 1))], bstip);
      var fts := ZipTipSetAndMessages(root, header, bstip);
      assert fts.Done?;
      OneMore(root, fill, headers, calls, fts.value);
      calls := calls + [fts.value];
      var taken := accept(|calls| - 1);
      if !taken.Done? { return taken, calls; }
      var stored := persist(|calls| - 1);
      if !stored.Done? { return stored, calls; }
    }
    r := Done(());
  }

  /** Every chunk of the batch gets a usable answer. */
  ghost predicate Fetches(root: Root, headers: seq<Headers>, ask: Exchange, lo: nat, top: nat)
    requires lo <= top <= |headers| && ExchangeOk(headers, ask)
  {
    forall j :: j in ChunkStarts(lo, top - lo) ==> Chunk(root, headers, ask, lo, top, j).Usable?
  }

  /** The fetch of some chunk of the batch panics. */
  ghost predicate Overruns(root: Root, headers: seq<Headers>, ask: Exchange, lo: nat, top: nat)
    requires lo <= top <= |headers| && ExchangeOk(headers, ask)
  {
    exists j :: j in ChunkStarts(lo, top - lo) && Chunk(root, headers, ask, lo, top, j).Panics?
  }

  /** Where the batch that ends below header `top` begins. */
  function Low(limit: nat, top: nat): (low: nat)
    ensures low <= top && top - low <= limit && (low > 0 ==> top - low == limit)
  {
    if top <= limit then 0 else top - limit
  }

  /** All that the course of an iteration depends on: which headers the store completes, how the
      batch below each header fares, and which hand-overs are accepted and stored. */
  datatype Course = Course(
    count: nat, limit: nat, stored: nat -> bool, fetches: nat -> bool, overruns: nat -> bool,
    accept: Callback, persist: Callback)

  ghost function CourseOf(
    root: Root, fill: Fill, headers: seq<Headers>, ask: Exchange, limit: nat,
    accept: Callback, persist: Callback): Course
    requires ExchangeOk(headers, ask)
  {
    Course(
      |headers|, limit,
      (i: nat) => i < |headers| && fill(headers[i]).Some?,
      (top: nat) => top <= |headers| && Fetches(root, headers, ask, Low(limit, top), top),
      (top: nat) => top <= |headers| && Overruns(root, headers, ask, Low(limit, top), top),
      accept, persist)
  }

  lemma CourseMeans(
    root: Root, fill: Fill, headers: seq<Headers>, ask: Exchange, limit: nat,
    accept: Callback, persist: Callback, top: nat)
    requires ExchangeOk(headers, ask) && 0 < top <= |headers|
    ensures var c := CourseOf(root, fill, headers, ask, limit, accept, persist);
      && (c.stored(top - 1) <==> fill(headers[top - 1]).Some?)
      && (c.overruns(top) <==> Overruns(root, headers, ask, Low(limit, top), top))
      && (c.fetches(top) <==> Fetches(root, headers, ask, Low(limit, top), top))
  {
  }

  /** Where the turns of the iteration over the headers below `top` are taken while they go well: at every
      header that no batch covers. A turn at a header that the store cannot complete fetches a batch. */
  function Turns(c: Course, top: nat): set<nat>
    requires c.limit > 0
  {
    if top == 0 then {} else {top} + Turns(c, Next(c, top))
  }

  function Next(c: Course, top: nat): (next: nat)
    requires c.limit > 0 && top > 0
    ensures next < top
  {
    if c.stored(top - 1) then top - 1 else Low(c.limit, top)
  }

  /** How the iteration ends once only the headers below `top` are left. */
  function Ending(c: Course, top: nat): Outcome<()>
    requires c.limit > 0 && top <= c.count
  {
    if top == 0 then Done(())
    else
      match Turn(c, top)
      case Done(next) => Ending(c, next)
      case Failed => Failed
      case Panicked => Panicked
  }

  /** What the header or the batch below `top` makes of the iteration, before the rest of it. */
  function Turn(c: Course, top: nat): (r: Outcome<nat>)
    requires c.limit > 0 && 0 < top <= c.count
    ensures r.Done? ==> r.value == Next(c, top)
  {
    var first, end := c.count - top, c.count - Next(c, top);
    if c.stored(top - 1) then Onward(Calls(c.accept, first, end), top - 1)
    else if c.overruns(top) then Panicked
    else if !c.fetches(top) then Failed
    else Onward(Calls(Both(c.accept, c.persist), first, end), Low(c.limit, top))
  }

  function Onward(r: Outcome<()>, next: nat): Outcome<nat> {
    match r
    case Done(_) => Done(next)
    case Failed => Failed
    case Panicked => Panicked
  }

  /** The callback succeeds on the hand-overs of the headers below `top` and not below `low`. */
  predicate Below(c: Course, callback: Callback, top: nat, low: nat)
    requires low <= top <= c.count
  {
    All(callback, c.count - top, c.count - low)
  }

  /** The batch is fetched and its messages are stored. */
  predicate BatchOk(c: Course, top: nat) {
    top <= c.count && c.fetches(top) && Below(c, c.persist, top, Low(c.limit, top))
  }

  /** The turn at `top` needs no batch, or its batch is fetched and stored. */
  predicate Supplied(c: Course, top: nat) {
    top > 0 && (c.stored(top - 1) || BatchOk(c, top))
  }

  /** A turn goes well exactly when its hand-overs are accepted and a batch it needs is fetched and stored. */
  lemma TurnDoneIff(c: Course, top: nat)
    requires c.limit > 0 && 0 < top <= c.count && (c.fetches(top) ==> !c.overruns(top))
    ensures Turn(c, top).Done? <==> Below(c, c.accept, top, Next(c, top)) && Supplied(c, top)
  {
    var first, end := c.count - top, c.count - Next(c, top);
    CallsDoneIff(c.accept, first, end);
    CallsDoneIff(Both(c.accept, c.persist), first, end);
    assert All(Both(c.accept, c.persist), first, end) <==> All(c.accept, first, end) && All(c.persist, first, end) by {
      assert forall k :: Both(c.accept, c.persist)(k).Done? <==> c.accept(k).Done? && c.persist(k).Done?;
    }
  }

  /** A turn panics exactly when the fetch of its batch does, or the first of its hand-overs that does not
      go well panics. */
  lemma TurnPanicsIff(c: Course, top: nat)
    requires c.limit > 0 && 0 < top <= c.count
    ensures var first, end := c.count - top, c.count - Next(c, top);
      Turn(c, top).Panicked? <==>
      if c.stored(top - 1) then c.accept(first).Panicked?
      else c.overruns(top) || (c.fetches(top) && PanicsWithin(Both(c.accept, c.persist), first, end))
  {
    var first, end := c.count - top, c.count - Next(c, top);
    CallsPanickedIff(Both(c.accept, c.persist), first, end);
    if c.stored(top - 1) { CallsOne(c.accept, first); }
  }

  lemma {:induction false} TurnsBelow(c: Course, top: nat, t: nat)
    requires c.limit > 0 && t in Turns(c, top)
    ensures 0 < t <= top
  {
    if t != top { TurnsBelow(c, Next(c, top), t); }
  }

  /** The iteration completes exactly when every hand-over is accepted and every batch is
      fetched and stored. */
  lemma {:induction false} EndsDoneIff(c: Course, top: nat)
    requires c.limit > 0 && top <= c.count && forall t :: c.fetches(t) ==> !c.overruns(t)
    ensures Ending(c, top).Done? <==>
      Below(c, c.accept, top, 0) && forall t :: t in Turns(c, top) ==> Supplied(c, t)
  {
    if top > 0 {
      var next := Next(c, top);
      EndsDoneIff(c, next);
      TurnDoneIff(c, top);
      assert Below(c, c.accept, top, 0) <==> Below(c, c.accept, top, next) && Below(c, c.accept, next, 0);
      assert top in Turns(c, top);
    }
  }

  /** The turn at `t` panics after all before it went well. */
  predicate PanicsAt(c: Course, top: nat, t: nat)
    requires c.limit > 0 && top <= c.count
  {
    && t in Turns(c, top) && 0 < t <= c.count && Turn(c, t).Panicked?
    && forall newer :: newer in Turns(c, top) && t < newer ==> newer <= c.count && Turn(c, newer).Done?
  }

  /** The iteration panics exactly when some turn does so. */
  lemma {:induction false} EndsPanickedIff(c: Course, top: nat)
    requires c.limit > 0 && top <= c.count
    ensures Ending(c, top).Panicked? <==> exists t :: PanicsAt(c, top, t)
  {
    if top > 0 {
      var next := Next(c, top);
      EndsPanickedIff(c, next);
      NoneNewer(c, top);
      NoneNewer(c, next);
      if Turn(c, top).Panicked? { assert PanicsAt(c, top, top); }
      if t :| Turn(c, top).Done? && PanicsAt(c, next, t) { assert PanicsAt(c, top, t); }
      if t :| PanicsAt(c, top, t) && t != top { assert PanicsAt(c, next, t); }
    }
  }

  lemma NoneNewer(c: Course, top: nat)
    requires c.limit > 0
    ensures forall t :: t in Turns(c, top) ==> 0 < t <= top
  {
    forall t | t in Turns(c, top) ensures 0 < t <= top { TurnsBelow(c, top, t); }
  }

  lemma FetchedIsNoOverrun(
    root: Root, fill: Fill, headers: seq<Headers>, ask: Exchange, limit: nat,
    accept: Callback, persist: Callback, t: nat)
    requires ExchangeOk(headers, ask)
    ensures var c := CourseOf(root, fill, headers, ask, limit, accept, persist); c.fetches(t) ==> !c.overruns(t)
  {
  }

  /** When the iteration over the given headers completes, and when it panics. */
  lemma IterationEndsIff(
    root: Root, fill: Fill, headers: seq<Headers>, ask: Exchange, limit: nat,
    accept: Callback, persist: Callback)
    requires limit > 0 && ExchangeOk(headers, ask)
    ensures var c := CourseOf(root, fill, headers, ask, limit, accept, persist);
      && (Ending(c, |headers|).Done? <==>
          && Below(c, c.accept, |headers|, 0)
          && forall t :: t in Turns(c, |headers|) ==> Supplied(c, t))
      && (Ending(c, |headers|).Panicked? <==> exists t :: PanicsAt(c, |headers|, t))
  {
    var c := CourseOf(root, fill, headers, ask, limit, accept, persist);
    forall t ensures c.fetches(t) ==> !c.overruns(t) {
      FetchedIsNoOverrun(root, fill, headers, ask, limit, accept, persist, t);
    }
    EndsDoneIff(c, |headers|);
    EndsPanickedIff(c, |headers|);
  }

  /** Fetches what is missing for the headers from `lo` up to `top` and hands them on. */
  method CompleteBatch(
    root: Root, ghost fill: Fill, headers: seq<Headers>, ask: Exchange, lo: nat, top: nat,
    accept: Callback, persist: Callback, soFar: seq<seq<FullBlock>>)
    returns (r: Outcome<()>, calls: seq<seq<FullBlock>>)
    requires lo <= top <= |headers| && ExchangeOk(headers, ask)
    requires InOrder(root, fill, headers, soFar) && |soFar| == |headers| - top && All(accept, 0, |soFar|)
    ensures soFar <= calls && InOrder(root, fill, headers, calls)
    ensures r.Done? ==> |calls| == |headers| - lo && All(accept, 0, |calls|)
    ensures r ==
      if Overruns(root, headers, ask, lo, top) then Panicked
      else if !Fetches(root, headers, ask, lo, top) then Failed
      else Calls(Both(accept, persist), |soFar|, |headers| - lo)
  {
    var got := FetchMessages(root, headers, ask, lo, top);
    match got
    case Panicked => return Panicked, soFar;
    case Failed => return Failed, soFar;
    case Done(msgs) =>
      r, calls := HandOnBatch(root, fill, headers, top, msgs, accept, persist, soFar);
  }

  /** Completes the batch below header `top`. */
  method CompleteBelow(
    root: Root, ghost fill: Fill, headers: seq<Headers>, ask: Exchange, limit: nat, top: nat,
    accept: Callback, persist: Callback, soFar: seq<seq<FullBlock>>)
    returns (r: Outcome<nat>, calls: seq<seq<FullBlock>>)
    requires 0 < top <= |headers| && limit > 0 && ExchangeOk(headers, ask)
    requires InOrder(root, fill, headers, soFar) && |soFar| == |headers| - top && All(accept, 0, |soFar|)
    ensures InOrder(root, fill, headers, calls)
    ensures r.Done? ==> r.value == Low(limit, top) && |calls| == |headers| - r.value && All(accept, 0, |calls|)
    ensures r ==
      if Overruns(root, headers, ask, Low(limit, top), top) then Panicked
      else if !Fetches(root, headers, ask, Low(limit, top), top) then Failed
      else Onward(Calls(Both(accept, persist), |headers| - top, |headers| - Low(limit, top)), Low(limit, top))
  {
    var batchSize := if top - 1 < limit then top else limit;
    var lo := top - batchSize;
    var done;
    done, calls := CompleteBatch(root, fill, headers, ask, lo, top, accept, persist, soFar);
    match done
    case Panicked => r := Panicked;
    case Failed => r := Failed;
    case Done(_) => r := Done(lo);
  }

  /** The turn of a course, in terms of what the course is of. */
  lemma TurnOfCourse(
    root: Root, fill: Fill, headers: seq<Headers>, ask: Exchange, limit: nat,
    accept: Callback, persist: Callback, top: nat)
    requires limit > 0 && ExchangeOk(headers, ask) && 0 < top <= |headers|
    ensures Turn(CourseOf(root, fill, headers, ask, limit, accept, persist), top) ==
      if fill(headers[top - 1]).Some? then Onward(accept(|headers| - top), top - 1)
      else if Overruns(root, headers, ask, Low(limit, top), top) then Panicked
      else if !Fetches(root, headers, ask, Low(limit, top), top) then Failed
      else Onward(Calls(Both(accept, persist), |headers| - top, |headers| - Low(limit, top)), Low(limit, top))
  {
    CourseMeans(root, fill, headers, ask, limit, accept, persist, top);
    CallsOne(accept, |headers| - top);
  }

  /** Completes the header below `top`, or the batch below it, and hands on what that yields:
      the next turn of the course. */
  method TakeTurn(
    root: Root, fill: Fill, headers: seq<Headers>, ask: Exchange, limit: nat, top: nat,
    accept: Callback, persist: Callback, soFar: seq<seq<FullBlock>>)
    returns (r: Outcome<nat>, calls: seq<seq<FullBlock>>)
    requires 0 < top <= |headers| && limit > 0 && FillOk(fill) && ExchangeOk(headers, ask)
    requires InOrder(root, fill, headers, soFar) && |soFar| == |headers| - top && All(accept, 0, |soFar|)
    ensures InOrder(root, fill, headers, calls)
    ensures r.Done? ==> r.value < top && |calls| == |headers| - r.value && All(accept, 0, |calls|)
    ensures r == Turn(CourseOf(root, fill, headers, ask, limit, accept, persist), top)
  {
    TurnOfCourse(root, fill, headers, ask, limit, accept, persist, top);
    var fts := fill(headers[top - 1]);
    if fts.Some? {
      OneMore(root, fill, headers, soFar, fts.value);
      calls := soFar + [fts.value];
      var taken := accept(|soFar|);
      r := Onward(taken, top - 1);
    } else {
      r, calls := CompleteBelow(root, fill, headers, ask, limit, top, accept, persist, soFar);
    }
  }

  /** Completes each header and hands it on. Whatever happens, what was handed on is the
      oldest headers, oldest first, each once with its own messages; on success, all of them. */
  method IterFullTipsets(
    root: Root, fill: Fill, headers: seq<Headers>, ask: Exchange, batchLimit: nat,
    accept: Callback, persist: Callback) returns (r: Outcome<()>, calls: seq<seq<FullBlock>>)
    requires batchLimit > 0 && FillOk(fill) && ExchangeOk(headers, ask)
    ensures InOrder(root, fill, headers, calls)
    ensures r.Done? ==> |calls| == |headers| && All(accept, 0, |calls|)
    ensures r == Ending(CourseOf(root, fill, headers, ask, batchLimit, accept, persist), |headers|)
  {
    ghost var course := CourseOf(root, fill, headers, ask, batchLimit, accept, persist);
    calls := [];
    var top := |headers|;
    while top > 0
      invariant top <= |headers| && |calls| == |headers| - top
      invariant InOrder(root, fill, headers, calls) && All(accept, 0, |calls|)
      invariant Ending(course, |headers|) == Ending(course, top)
    {
      var turn;
      turn, calls := TakeTurn(root, fill, headers, ask, batchLimit, top, accept, persist, calls);
      match turn {
        case Panicked => return Panicked, calls;
        case Failed => return Failed, calls;
        case Done(next) => top := next;
      }
    }
    return Done(()), calls;
  }
}
