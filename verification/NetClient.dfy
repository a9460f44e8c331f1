/** The client half of the networked blockstore: request ids, the response map and the
    one-slot channels on which callers wait, as a state machine over its locked sections. */
module NetClient {
  import opened Tipsets
  import opened NetCodec
  import Cbor

  const RESP_OK := 0
  const RESP_ERR := 1
  const RESP_MORE := 2

  /** A channel with one slot: the request it was made for, all that was ever sent on it
      and what has not been taken off it yet. */
  datatype Channel = Channel(owner: nat, sent: seq<Response>, buffer: seq<Response>)

  datatype Outcome =
    | Refused                      // the store was closed
    | SendFailed                   // the request could not be marshalled or written
    | Cancelled
    | Answered(resp: Response)

  /** How far a call has come. */
  datatype Phase = Allocated(chan: nat) | Registered(chan: nat) | Waiting(chan: nat) | Done(outcome: Outcome)

  /** The response map is absent once the store has shut down. */
  datatype State = State(
    reqCount: nat,
    respMap: Option<map<nat, nat>>,
    channels: seq<Channel>,
    calls: map<nat, Phase>)

  function Init(): State {
    State(0, Some(map[]), [], map[])
  }

  datatype Event =
    | Allocate
    | Register(id: nat)
    | Write(id: nat, ok: bool)
    | Receive(resp: Response)
    | Take(id: nat)
    | Cancel(id: nat)
    | Shutdown(data: seq<Cbor.Byte>)

  function Push(c: Channel, r: Response): Channel {
    c.(sent := c.sent + [r], buffer := c.buffer + [r])
  }

  function Forget(s: State, id: nat): State {
    if s.respMap.Some? then s.(respMap := Some(s.respMap.value - {id})) else s
  }

  function Finish(s: State, id: nat, o: Outcome): State {
    s.(calls := s.calls[id := Done(o)])
  }

  function DoAllocate(s: State): State {
    var id := s.reqCount + 1;
    s.(reqCount := id, channels := s.channels + [Channel(id, [], [])], calls := s.calls[id := Allocated(|s.channels|)])
  }

  function DoRegister(s: State, id: nat): State
    requires id in s.calls && s.calls[id].Allocated?
  {
    if s.respMap.None? then Finish(s, id, Refused)
    else
      var ch := s.calls[id].chan;
      s.(respMap := Some(s.respMap.value[id := ch]), calls := s.calls[id := Registered(ch)])
  }

  function DoWrite(s: State, id: nat, ok: bool): State
    requires id in s.calls && s.calls[id].Registered?
  {
    if ok then s.(calls := s.calls[id := Waiting(s.calls[id].chan)])
    else Finish(Forget(s, id), id, if s.respMap.None? then Refused else SendFailed)
  }

  /** A response for an id that is not in the map is dropped; one that announces more
      leaves a fresh channel in its place. */
  function DoReceive(s: State, r: Response): State
    requires s.respMap.Some? && forall id :: id in s.respMap.value ==> s.respMap.value[id] < |s.channels|
  {
    var m := s.respMap.value;
    if r.id !in m then s
    else
      var sent := s.channels[m[r.id] := Push(s.channels[m[r.id]], r)];
      if r.kind == RESP_MORE then
        s.(respMap := Some(m[r.id := |sent|]), channels := sent + [Channel(r.id, [], [])])
      else s.(respMap := Some(m - {r.id}), channels := sent)
  }

  predicate CanTake(s: State, id: nat) {
    && id in s.calls && s.calls[id].Waiting?
    && s.calls[id].chan < |s.channels| && s.channels[s.calls[id].chan].buffer != []
  }

  function DoTake(s: State, id: nat): State
    requires CanTake(s, id)
  {
    var ch := s.calls[id].chan;
    var c := s.channels[ch];
    Finish(s, id, Answered(c.buffer[0])).(channels := s.channels[ch := c.(buffer := c.buffer[1..])])
  }

  function DoCancel(s: State, id: nat): State {
    Finish(Forget(s, id), id, Cancelled)
  }

  function ShutdownError(id: nat, data: seq<Cbor.Byte>): Response {
    Response(RESP_ERR, id, data)
  }

  /** Every channel in the map is sent the error under its id, and the map goes. */
  ghost predicate ShutsDown(s: State, data: seq<Cbor.Byte>, s': State) {
    && s.respMap.Some? && s'.respMap.None? && s'.reqCount == s.reqCount && s'.calls == s.calls
    && |s'.channels| == |s.channels|
    && (forall id :: id in s.respMap.value && s.respMap.value[id] < |s.channels| ==>
          s'.channels[s.respMap.value[id]] == Push(s.channels[s.respMap.value[id]], ShutdownError(id, data)))
    && (forall ch :: 0 <= ch < |s.channels| && ch !in s.respMap.value.Values ==> s'.channels[ch] == s.channels[ch])
  }

  ghost predicate Next(s: State, e: Event, s': State) {
    match e
    case Allocate => s' == DoAllocate(s)
    case Register(id) => id in s.calls && s.calls[id].Allocated? && s' == DoRegister(s, id)
    case Write(id, ok) => id in s.calls && s.calls[id].Registered? && s' == DoWrite(s, id, ok)
    case Receive(r) =>
      && s.respMap.Some? && (forall id :: id in s.respMap.value ==> s.respMap.value[id] < |s.channels|)
      && s' == DoReceive(s, r)
    case Take(id) => CanTake(s, id) && s' == DoTake(s, id)
    case Cancel(id) => id in s.calls && s.calls[id].Waiting? && s' == DoCancel(s, id)
    case Shutdown(data) => ShutsDown(s, data, s')
  }

  /** `run[i]` is the state before `events[i]`. */
  ghost predicate Run(run: seq<State>, events: seq<Event>) {
    && |run| == |events| + 1 && run[0] == Init()
    && forall i :: 0 <= i < |events| ==> StepAt(run, events, i)
  }

  ghost predicate StepAt(run: seq<State>, events: seq<Event>, i: nat)
    requires i < |events| < |run|
  {
    Next(run[i], events[i], run[i + 1])
  }

  // ---------------------------------------------------------------- the invariant

  /** A channel carries at most one response, and only one for its own request. */
  ghost predicate ChannelOk(c: Channel) {
    |c.sent| <= 1 && (c.buffer == [] || c.buffer == c.sent) && forall r :: r in c.sent ==> r.id == c.owner
  }

  /** An entry of the map leads to an unused channel made for that id. */
  predicate Unused(s: State, id: nat, ch: nat) {
    ch < |s.channels| && s.channels[ch] == Channel(id, [], [])
  }

  predicate InMap(s: State, id: nat) {
    s.respMap.Some? && id in s.respMap.value
  }

  /** A call that waits is in the map under its channel or has its response in hand. */
  predicate CallOk(s: State, id: nat, p: Phase) {
    match p
    case Allocated(ch) => Unused(s, id, ch) && !InMap(s, id)
    case Registered(ch) => Attended(s, id, ch)
    case Waiting(ch) => Attended(s, id, ch)
    case Done(Answered(r)) => r.id == id && (InMap(s, id) ==> r.kind == RESP_MORE)
    case Done(_) => !InMap(s, id)
  }

  predicate Attended(s: State, id: nat, ch: nat) {
    && ch < |s.channels| && s.channels[ch].owner == id
    && if InMap(s, id) && s.respMap.value[id] == ch then true
       else |s.channels[ch].buffer| == 1 && (InMap(s, id) ==> s.channels[ch].buffer[0].kind == RESP_MORE)
  }

  ghost predicate Inv(s: State) {
    && (forall ch :: 0 <= ch < |s.channels| ==> ChannelOk(s.channels[ch]))
    && (forall id :: InMap(s, id) ==> id in s.calls && Unused(s, id, s.respMap.value[id]))
    && (forall id :: id in s.calls ==> 0 < id <= s.reqCount && CallOk(s, id, s.calls[id]))
  }

  lemma AllocateKeeps(s: State)
    requires Inv(s)
    ensures Inv(DoAllocate(s))
  {
  }

  lemma RegisterKeeps(s: State, id: nat)
    requires Inv(s) && id in s.calls && s.calls[id].Allocated?
    ensures Inv(DoRegister(s, id))
  {
  }

  lemma WriteKeeps(s: State, id: nat, ok: bool)
    requires Inv(s) && id in s.calls && s.calls[id].Registered?
    ensures Inv(DoWrite(s, id, ok))
  {
  }

  lemma ReceiveKeepsCall(s: State, r: Response, id: nat)
    requires Inv(s) && InMap(s, r.id) && id in s.calls
    ensures CallOk(DoReceive(s, r), id, s.calls[id])
  {
    var s' := DoReceive(s, r);
    assert s'.channels[s.respMap.value[r.id]] == Channel(r.id, [r], [r]);
    assert CallOk(s, id, s.calls[id]);
  }

  lemma ReceiveKeeps(s: State, r: Response)
    requires Inv(s) && s.respMap.Some?
    ensures Inv(DoReceive(s, r))
  {
    var s' := DoReceive(s, r);
    if InMap(s, r.id) {
      assert s'.channels[s.respMap.value[r.id]] == Channel(r.id, [r], [r]);
      forall id | id in s'.calls ensures CallOk(s', id, s'.calls[id]) { ReceiveKeepsCall(s, r, id); }
      assert forall id :: InMap(s', id) && id != r.id ==> Unused(s, id, s.respMap.value[id]);
    }
  }

  lemma TakeKeeps(s: State, id: nat)
    requires Inv(s) && CanTake(s, id)
    ensures Inv(DoTake(s, id))
  {
  }

  lemma CancelKeeps(s: State, id: nat)
    requires Inv(s) && id in s.calls && s.calls[id].Waiting?
    ensures Inv(DoCancel(s, id))
  {
  }

  lemma ShutdownKeeps(s: State, data: seq<Cbor.Byte>, s': State)
    requires Inv(s) && ShutsDown(s, data, s')
    ensures Inv(s')
  {
  }

  lemma NextKeeps(s: State, e: Event, s': State)
    requires Inv(s) && Next(s, e, s')
    ensures Inv(s')
  {
    match e
    case Allocate => AllocateKeeps(s);
    case Register(id) => RegisterKeeps(s, id);
    case Write(id, ok) => WriteKeeps(s, id, ok);
    case Receive(r) => ReceiveKeeps(s, r);
    case Take(id) => TakeKeeps(s, id);
    case Cancel(id) => CancelKeeps(s, id);
    case Shutdown(data) => ShutdownKeeps(s, data, s');
  }

  lemma {:induction false} ReachableInv(run: seq<State>, events: seq<Event>, i: nat)
    requires Run(run, events) && i < |run|
    ensures Inv(run[i])
  {
    if i > 0 {
      ReachableInv(run, events, i - 1);
      assert StepAt(run, events, i - 1);
      NextKeeps(run[i - 1], events[i - 1], run[i]);
    }
  }

  // ---------------------------------------------------------------- what every run promises

  /** The channels in the map are distinct and empty and no channel ever holds two responses,
      so no send waits. */
  lemma NoSendBlocks(run: seq<State>, events: seq<Event>, i: nat)
    requires Run(run, events) && i < |run|
    ensures forall id :: InMap(run[i], id) ==> Unused(run[i], id, run[i].respMap.value[id])
    ensures forall id, id' :: InMap(run[i], id) && InMap(run[i], id') && id != id' ==>
      run[i].respMap.value[id] != run[i].respMap.value[id']
    ensures forall c :: c in run[i].channels ==> |c.sent| <= 1 && |c.buffer| <= 1
  {
    ReachableInv(run, events, i);
  }

  /** A response reaches no channel and no call but those of its own id, and a call only ever
      ends with a response under its own id. */
  lemma ResponseReachesOnlyItsRequest(run: seq<State>, events: seq<Event>, i: nat, r: Response, ch: nat, id: nat)
    requires Run(run, events) && i < |events| && events[i] == Receive(r)
    requires ch < |run[i].channels| && run[i].channels[ch].owner != r.id
    ensures ch < |run[i + 1].channels| && run[i + 1].channels[ch] == run[i].channels[ch]
    ensures run[i + 1].calls == run[i].calls
    ensures id in run[i].calls && run[i].calls[id].Done? && run[i].calls[id].outcome.Answered? ==>
      run[i].calls[id].outcome.resp.id == id
  {
    ReachableInv(run, events, i);
    assert StepAt(run, events, i);
  }

  /** A response under an id in the map arrives: it is put on the channel that the map names, a waiting
      call of that channel can take it, and the id leaves the map exactly when no more is announced; then
      a fresh channel stands in its place. One under any other id is dropped. */
  lemma ResponseArrives(s: State, r: Response, s': State)
    requires Inv(s) && Next(s, Receive(r), s')
    ensures !InMap(s, r.id) ==> s' == s
    ensures InMap(s, r.id) ==>
      && var ch := s.respMap.value[r.id];
      && ch < |s'.channels| && s'.channels[ch].sent == s'.channels[ch].buffer == [r]
      && (r.id in s.calls && s.calls[r.id] == Waiting(ch) ==> CanTake(s', r.id))
      && (InMap(s', r.id) <==> r.kind == RESP_MORE)
      && (InMap(s', r.id) ==> Unused(s', r.id, s'.respMap.value[r.id]) && s'.respMap.value[r.id] != ch)
    ensures forall id :: id != r.id ==>
      (InMap(s', id) <==> InMap(s, id)) && (InMap(s, id) ==> s'.respMap.value[id] == s.respMap.value[id])
    ensures s'.calls == s.calls && s'.reqCount == s.reqCount
  {
    if InMap(s, r.id) { assert Unused(s, r.id, s.respMap.value[r.id]); }
  }

  /** A call with its response on its channel: it keeps it there until it takes it or is cancelled; one
      whose request is not known to be written may also fail or be refused. */
  predicate Holds(s: State, id: nat, ch: nat, r: Response, written: bool) {
    && id in s.calls && ch < |s.channels| && s.channels[ch].sent == [r]
    && match s.calls[id]
       case Registered(c) => !written && c == ch && s.channels[ch].buffer == [r]
       case Waiting(c) => c == ch && s.channels[ch].buffer == [r]
       case Done(Answered(r')) => r' == r
       case Done(Cancelled) => true
       case Done(_) => !written
       case Allocated(_) => false
  }

  lemma HoldsStays(s: State, e: Event, s': State, id: nat, ch: nat, r: Response, written: bool)
    requires Inv(s) && Next(s, e, s') && Holds(s, id, ch, r, written)
    ensures Holds(s', id, ch, r, written)
  {
    assert forall other :: InMap(s, other) ==> s.respMap.value[other] != ch;
    if e.Take? && e.id != id && Outstanding(s.calls[id]) {
      assert CallOk(s, id, s.calls[id]) && CallOk(s, e.id, s.calls[e.id]);
    }
  }

  /** A response delivered to a call that is out for it is what that call ends with, unless it is cancelled. */
  lemma {:induction false} DeliveredIsTaken(
    run: seq<State>, events: seq<Event>, i: nat, j: nat, r: Response, ch: nat)
    requires Run(run, events) && i < j < |run| && events[i] == Receive(r) && InMap(run[i], r.id)
    requires r.id in run[i].calls && Outstanding(run[i].calls[r.id])
    requires run[i].respMap.value[r.id] == run[i].calls[r.id].chan == ch
    ensures Holds(run[j], r.id, ch, r, run[i].calls[r.id].Waiting?)
  {
    ReachableInv(run, events, j - 1);
    assert StepAt(run, events, j - 1);
    if j == i + 1 {
      ResponseArrives(run[i], r, run[j]);
    } else {
      DeliveredIsTaken(run, events, i, j - 1, r, ch);
      HoldsStays(run[j - 1], events[j - 1], run[j], r.id, ch, r, run[i].calls[r.id].Waiting?);
    }
  }

  /** A take ends the call with the response on its channel and a cancel ends it without one, for good out of the
      map; neither touches another call, its entry or its channel. */
  lemma WaitEnds(s: State, e: Event, s': State)
    requires Inv(s) && (e.Take? || e.Cancel?) && Next(s, e, s')
    ensures var ch := s.calls[e.id].chan;
      && (e.Take? ==> |s.channels[ch].buffer| == 1 && s'.calls[e.id] == Done(Answered(s.channels[ch].buffer[0])))
      && (e.Cancel? ==> s'.calls[e.id] == Done(Cancelled) && !InMap(s', e.id))
      && (forall other :: other in s.calls && other != e.id ==>
          && other in s'.calls && s'.calls[other] == s.calls[other]
          && (InMap(s', other) <==> InMap(s, other))
          && (InMap(s, other) ==> s'.respMap.value[other] == s.respMap.value[other]))
      && |s'.channels| == |s.channels|
      && forall c :: 0 <= c < |s.channels| && c != ch ==> s'.channels[c] == s.channels[c]
  {
    assert CallOk(s, e.id, s.calls[e.id]);
  }

  /** A call that is written waits in the map under its own channel until something is sent to it. */
  lemma SentCallIsInMap(s: State, id: nat, s1: State, s2: State)
    requires Inv(s) && id in s.calls && s.calls[id].Allocated? && s.respMap.Some?
    requires Next(s, Register(id), s1) && Next(s1, Write(id, true), s2)
    ensures s2.calls[id] == Waiting(s.calls[id].chan) && InMap(s2, id) && s2.respMap.value[id] == s.calls[id].chan
    ensures Unused(s2, id, s.calls[id].chan)
  {
  }

  predicate Over(p: Phase) {
    p.Done? && !(p.outcome.Answered? && p.outcome.resp.kind == RESP_MORE)
  }

  lemma OutcomeStays(s: State, e: Event, s': State, id: nat)
    requires Inv(s) && Next(s, e, s') && id in s.calls && s.calls[id].Done?
    ensures id in s'.calls && s'.calls[id] == s.calls[id]
  {
  }

  /** A call has one outcome for good. Once it is cancelled, refused, failed or answered
      in full, its id leads nowhere: a later response under it changes nothing. */
  lemma {:induction false} FinishedCallsHearNothing(run: seq<State>, events: seq<Event>, i: nat, j: nat, id: nat)
    requires Run(run, events) && i <= j < |run|
    requires id in run[i].calls && run[i].calls[id].Done?
    ensures id in run[j].calls && run[j].calls[id] == run[i].calls[id]
    ensures Over(run[i].calls[id]) ==> !InMap(run[j], id)
    ensures Over(run[i].calls[id]) && j < |events| && events[j].Receive? && events[j].resp.id == id ==>
      run[j + 1] == run[j]
  {
    if i < j {
      FinishedCallsHearNothing(run, events, i, j - 1, id);
      ReachableInv(run, events, j - 1);
      assert StepAt(run, events, j - 1);
      OutcomeStays(run[j - 1], events[j - 1], run[j], id);
    }
    ReachableInv(run, events, j);
    assert CallOk(run[j], id, run[j].calls[id]);
    if j < |events| {
      assert StepAt(run, events, j);
    }
  }

  lemma ClosedSendsNothing(s: State, e: Event, s': State, ch: nat)
    requires Inv(s) && Next(s, e, s') && s.respMap.None? && ch < |s'.channels|
    ensures s'.respMap.None? && |s.channels| <= |s'.channels|
    ensures s'.channels[ch].sent == if ch < |s.channels| then s.channels[ch].sent else []
  {
  }

  /** Shutdown puts exactly one error, under its own id, on the channel of every request
      outstanding then, and nothing is sent on any channel afterwards. */
  lemma {:induction false} ShutdownGivesOneError(run: seq<State>, events: seq<Event>, k: nat, j: nat, ch: nat)
    requires Run(run, events) && k < j < |run| && events[k].Shutdown? && ch < |run[j].channels|
    ensures run[k].respMap.Some? && run[j].respMap.None? && |run[k].channels| <= |run[j].channels|
    ensures forall id :: InMap(run[k], id) && run[k].respMap.value[id] == ch ==>
      run[j].channels[ch].sent == [ShutdownError(id, events[k].data)]
    ensures ch < |run[k].channels| && ch !in run[k].respMap.value.Values ==>
      run[j].channels[ch].sent == run[k].channels[ch].sent
    ensures ch >= |run[k].channels| ==> run[j].channels[ch].sent == []
  {
    ReachableInv(run, events, k);
    assert StepAt(run, events, k);
    if j > k + 1 {
      var s, e, s' := run[j - 1], events[j - 1], run[j];
      assert StepAt(run, events, j - 1);
      ReachableInv(run, events, j - 1);
      ShutdownStays(run, events, k, j - 1);
      ClosedSendsNothing(s, e, s', ch);
      if ch < |s.channels| {
        ShutdownGivesOneError(run, events, k, j - 1, ch);
      }
    }
  }

  lemma {:induction false} ShutdownStays(run: seq<State>, events: seq<Event>, k: nat, j: nat)
    requires Run(run, events) && k < j < |run| && events[k].Shutdown?
    ensures run[j].respMap.None? && |run[k].channels| <= |run[j].channels|
  {
    assert StepAt(run, events, j - 1);
    if j > k + 1 {
      ShutdownStays(run, events, k, j - 1);
    }
  }

  /** Nobody is left hanging: a waiting call is still in the map or can take a response of
      its own, and after shutdown it can take one. */
  lemma WaitersAreServed(run: seq<State>, events: seq<Event>, i: nat, id: nat)
    requires Run(run, events) && i < |run| && id in run[i].calls && run[i].calls[id].Waiting?
    ensures InMap(run[i], id) || CanTake(run[i], id)
    ensures CanTake(run[i], id) ==> run[i].channels[run[i].calls[id].chan].buffer[0].id == id
  {
    ReachableInv(run, events, i);
    assert CallOk(run[i], id, run[i].calls[id]);
  }

  predicate Outstanding(p: Phase) {
    p.Registered? || p.Waiting?
  }

  /** What may become of a call that shutdown finds in the map: it keeps its channel, with that one
      error on it, until it ends with the error or is cancelled; one not yet written may also be
      refused. */
  predicate EndsWith(s: State, id: nat, ch: nat, r: Response, written: bool) {
    && id in s.calls && ch < |s.channels|
    && match s.calls[id]
       case Registered(c) => !written && c == ch && s.channels[ch].sent == s.channels[ch].buffer == [r]
       case Waiting(c) => c == ch && s.channels[ch].sent == s.channels[ch].buffer == [r]
       case Done(Refused) => !written
       case Done(Cancelled) => true
       case Done(Answered(r')) => r' == r
       case _ => false
  }

  lemma EndsWithStays(s: State, e: Event, s': State, id: nat, ch: nat, r: Response, written: bool)
    requires Inv(s) && Next(s, e, s') && s.respMap.None? && EndsWith(s, id, ch, r, written)
    ensures EndsWith(s', id, ch, r, written)
  {
    if e.Take? && Outstanding(s.calls[id]) && e.id != id {
      assert CallOk(s, id, s.calls[id]) && CallOk(s, e.id, s.calls[e.id]);
    }
  }

  lemma ShutdownAnswers(s: State, data: seq<Cbor.Byte>, s': State, id: nat)
    requires Inv(s) && ShutsDown(s, data, s') && InMap(s, id)
    requires id in s.calls && Outstanding(s.calls[id]) && s.respMap.value[id] == s.calls[id].chan
    ensures EndsWith(s', id, s.calls[id].chan, ShutdownError(id, data), s.calls[id].Waiting?)
  {
    assert Unused(s, id, s.respMap.value[id]);
  }

  lemma {:induction false} OutstandingCallGetsTheError(run: seq<State>, events: seq<Event>, k: nat, j: nat, id: nat)
    requires Run(run, events) && k < j < |run| && events[k].Shutdown?
    requires id in run[k].calls && Outstanding(run[k].calls[id])
    requires InMap(run[k], id) && run[k].respMap.value[id] == run[k].calls[id].chan
    ensures var call := run[k].calls[id];
      EndsWith(run[j], id, call.chan, ShutdownError(id, events[k].data), call.Waiting?)
  {
    var call, r := run[k].calls[id], ShutdownError(id, events[k].data);
    if j == k + 1 {
      ReachableInv(run, events, k);
      assert StepAt(run, events, k);
      ShutdownAnswers(run[k], events[k].data, run[k + 1], id);
    } else {
      OutstandingCallGetsTheError(run, events, k, j - 1, id);
      ShutdownStays(run, events, k, j - 1);
      EndsWithOneMore(run, events, j - 1, id, call.chan, r, call.Waiting?);
    }
  }

  lemma EndsWithOneMore(run: seq<State>, events: seq<Event>, i: nat, id: nat, ch: nat, r: Response, written: bool)
    requires Run(run, events) && i < |events| && run[i].respMap.None? && EndsWith(run[i], id, ch, r, written)
    ensures EndsWith(run[i + 1], id, ch, r, written)
  {
    ReachableInv(run, events, i);
    assert StepAt(run, events, i);
    EndsWithStays(run[i], events[i], run[i + 1], id, ch, r, written);
  }
}
