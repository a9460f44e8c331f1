/** The networked blockstore client as an object: each locked section of its methods takes
    one step of the client state machine. */
module NetStore {
  import opened Tipsets
  import opened Cbor
  import opened NetCodec
  import opened NetClient

  const ERR_GENERIC := 0
  const ERR_NOT_FOUND := 1

  /** The error sent at shutdown, cut short where a reason too long for the codec stops it. */
  function ShutdownData(reason: seq<Byte>): seq<Byte> {
    if |reason| <= MAX_LENGTH then EncodeError(RpcError(ERR_GENERIC, reason, None))
    else WriteHead(Head(MAJ_ARRAY, 3)) + WriteHead(Head(MAJ_UINT, ERR_GENERIC))
  }

  /** The loop over the response map at shutdown. */
  method SendToAll(before: seq<Channel>, m: map<nat, nat>, data: seq<Byte>) returns (channels: seq<Channel>)
    requires forall id :: id in m ==> m[id] < |before| && before[m[id]].owner == id
    ensures |channels| == |before|
    ensures forall id :: id in m ==> channels[m[id]] == Push(before[m[id]], ShutdownError(id, data))
    ensures forall ch :: 0 <= ch < |before| && ch !in m.Values ==> channels[ch] == before[ch]
  {
    channels := before;
    var left := m.Keys;
    while left != {}
      invariant left <= m.Keys && |channels| == |before|
      invariant forall id :: id in m && id !in left ==> channels[m[id]] == Push(before[m[id]], ShutdownError(id, data))
      invariant forall id :: id in left ==> channels[m[id]] == before[m[id]]
      invariant forall ch :: 0 <= ch < |channels| && ch !in m.Values ==> channels[ch] == before[ch]
    {
      var id :| id in left;
      assert m[id] in m.Values;
      channels := channels[m[id] := Push(channels[m[id]], ShutdownError(id, data))];
      left := left - {id};
    }
  }

  lemma EntriesAreOwned(s: State)
    requires Inv(s) && s.respMap.Some?
    ensures forall id :: id in s.respMap.value ==>
      s.respMap.value[id] < |s.channels| && s.channels[s.respMap.value[id]].owner == id
  {
    assert forall id :: id in s.respMap.value ==> InMap(s, id);
  }

  class NetworkStore {
    var reqCount: nat
    var respMap: Option<map<nat, nat>>
    var channels: seq<Channel>
    ghost var calls: map<nat, Phase>

    ghost function View(): State
      reads this
    {
      State(reqCount, respMap, channels, calls)
    }

    constructor ()
      ensures View() == Init() && Inv(View())
    {
      reqCount, respMap, channels, calls := 0, Some(map[]), [], map[];
    }

    method Begin() returns (id: nat, ch: nat)
      modifies this
      ensures Next(old(View()), Allocate, View())
      ensures id == reqCount && ch == old(|channels|) && calls[id] == Allocated(ch)
    {
      reqCount := reqCount + 1;
      id, ch := reqCount, |channels|;
      channels := channels + [Channel(id, [], [])];
      calls := calls[id := Allocated(ch)];
    }

    method Enroll(id: nat, ch: nat) returns (open: bool)
      requires id in calls && calls[id] == Allocated(ch)
      modifies this
      ensures Next(old(View()), Register(id), View())
      ensures open == old(respMap).Some? && (open ==> calls[id] == Registered(ch))
    {
      open := respMap.Some?;
      if open {
        respMap := Some(respMap.value[id := ch]);
        calls := calls[id := Registered(ch)];
      } else {
        calls := calls[id := Done(Refused)];
      }
    }

    /** After the request was written, or could not be marshalled or written. */
    method Written(id: nat, ch: nat, ok: bool)
      requires id in calls && calls[id] == Registered(ch)
      modifies this
      ensures Next(old(View()), Write(id, ok), View())
    {
      if ok {
        calls := calls[id := Waiting(ch)];
      } else if respMap.None? {
        calls := calls[id := Done(Refused)];
      } else {
        respMap := Some(respMap.value - {id});
        calls := calls[id := Done(SendFailed)];
      }
    }

    /** Sending with nothing in between: three steps. `written` says whether the stream took the message. */
    method SendRpc(kind: nat, cids: seq<CidBytes>, data: seq<seq<Byte>>, written: bool)
      returns (id: nat, ch: nat, msg: Option<seq<Byte>>)
      requires Inv(View())
      requires kind <= U8_MAX && reqCount + 1 < TWO_64 && forall c :: c in cids ==> |c| < TWO_64 - 1
      modifies this
      ensures Inv(View()) && id == old(reqCount) + 1 && id in calls
      ensures var q := Request(kind, id, cids, data);
        if old(respMap).None? then msg.None? && calls[id] == Done(Refused)
        else if !IsRequest(q) || !written then msg.None? && calls[id] == Done(SendFailed)
        else msg == Some(EncodeRequest(q)) && calls[id] == Waiting(ch) && InMap(View(), id) && respMap.value[id] == ch
      ensures forall other :: other in old(calls) ==> other in calls && calls[other] == old(calls)[other]
    {
      ghost var s0 := View();
      id, ch := Begin();
      ghost var s1 := View();
      NextKeeps(s0, Allocate, s1);
      var open := Enroll(id, ch);
      NextKeeps(s1, Register(id), View());
      if !open { return id, ch, None; }
      ghost var s2 := View();
      msg := MarshalRequest(Request(kind, id, cids, data));
      var ok := msg.Some? && written;
      if !ok { msg := None; }
      Written(id, ch, ok);
      NextKeeps(s2, Write(id, ok), View());
    }

    method OnResponse(r: Response)
      requires Inv(View()) && respMap.Some?
      modifies this
      ensures Next(old(View()), Receive(r), View()) && Inv(View())
      ensures r.id in old(respMap).value ==>
        var ch := old(respMap).value[r.id]; ch < |channels| && channels[ch].buffer == [r]
      ensures r.id !in old(respMap).value ==> View() == old(View())
    {
      ghost var s := View();
      var m := respMap.value;
      if r.id in m {
        var ch := m[r.id];
        assert InMap(s, r.id);
        if r.kind == RESP_MORE {
          respMap := Some(m[r.id := |channels|]);
          channels := channels[ch := Push(channels[ch], r)] + [Channel(r.id, [], [])];
        } else {
          respMap := Some(m - {r.id});
          channels := channels[ch := Push(channels[ch], r)];
        }
      }
      assert forall id :: id in m ==> InMap(s, id);
      NextKeeps(s, Receive(r), View());
      ResponseArrives(s, r, View());
    }

    method Shut(data: seq<Byte>)
      requires Inv(View()) && respMap.Some?
      modifies this
      ensures Next(old(View()), Shutdown(data), View()) && Inv(View())
    {
      ghost var s := View();
      EntriesAreOwned(s);
      channels := SendToAll(channels, respMap.value, data);
      respMap := None;
      assert ShutsDown(s, data, View());
      NextKeeps(s, Shutdown(data), View());
    }

    /** One turn of the receiving loop: a stop request, a failed read and a message that does
        not decode each end it with a shutdown. */
    method ReceiveOne(stopping: bool, msg: Option<seq<Byte>>, reason: seq<Byte>) returns (running: bool)
      requires Inv(View()) && respMap.Some?
      modifies this
      ensures Inv(View()) && running == (!stopping && msg.Some? && DecodeResponse(msg.value).Ok?)
      ensures if running then Next(old(View()), Receive(DecodeResponse(msg.value).value), View())
        else Next(old(View()), Shutdown(ShutdownData(reason)), View())
    {
      if stopping || msg.None? {
        Shut(ShutdownData(reason));
        return false;
      }
      var resp := DecodeResponse(msg.value);
      if resp.Bad? {
        Shut(ShutdownData(reason));
        return false;
      }
      OnResponse(resp.value);
      return true;
    }

    /** The wait for a response: `cancelled` says which ready alternative the caller took. */
    method WaitResp(id: nat, ch: nat, cancelled: bool) returns (resp: Option<Response>)
      requires Inv(View()) && id in calls && calls[id] == Waiting(ch)
      requires cancelled || CanTake(View(), id)
      modifies this
      ensures Inv(View())
      ensures Next(old(View()), if cancelled then Cancel(id) else Take(id), View())
      ensures resp.Some? == !cancelled
      ensures resp.Some? ==>
        calls[id] == Done(Answered(resp.value)) && resp.value.id == id && [resp.value] == old(channels)[ch].buffer
      ensures resp.None? ==> calls[id] == Done(Cancelled) && !InMap(View(), id)
    {
      ghost var s := View();
      if cancelled {
        if respMap.Some? { respMap := Some(respMap.value - {id}); }
        calls := calls[id := Done(Cancelled)];
        NextKeeps(s, Cancel(id), View());
        return None;
      }
      assert CallOk(s, id, s.calls[id]);
      var c := channels[ch];
      resp := Some(c.buffer[0]);
      channels := channels[ch := c.(buffer := c.buffer[1..])];
      calls := calls[id := Done(Answered(resp.value))];
      NextKeeps(s, Take(id), View());
    }
  }
}
