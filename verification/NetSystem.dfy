/** Client and server joined by two streams that neither lose nor reorder: every run is
    explained by the served store executing the answered requests one at a time. */
module NetSystem {
  import opened Tipsets
  import Cbor
  import opened NetCodec
  import Client = NetClient
  import Server = NetServe

  /** A store that turns a request into a response, perhaps none, and goes on or stops. */
  type Serving<!S> = (S, Request) -> (S, Option<Response>, bool)

  datatype Asked = Asked(request: Request, at: nat)
  datatype Served<S> = Served(request: Request, before: S, resp: Option<Response>)

  /** `asked` records what was written, and how many requests had been served by then. */
  datatype World<S> = World(
    client: Client.State,
    asked: map<nat, Asked>,
    toServer: seq<Request>,
    store: S,
    served: seq<Served<S>>,
    serving: bool,
    fromServer: seq<Response>,
    closing: Option<seq<Cbor.Byte>>)

  datatype Step =
    | Local(event: Client.Event)      // a step of the client alone
    | Write(request: Request)         // a registered call's request reaches the stream
    | Serve
    | Deliver

  function Start<S>(s: S): World<S> {
    World(Client.Init(), map[], [], s, [], true, [], None)
  }

  ghost predicate Next<S>(serve: Serving<S>, w: World<S>, step: Step, w': World<S>) {
    match step
    case Local(e) =>
      && !e.Receive? && (e.Write? && e.ok ==> e.id in w.asked)
      && Client.Next(w.client, e, w'.client)
      && w' == w.(client := w'.client, closing := if e.Shutdown? then Some(e.data) else w.closing)
    case Write(q) =>
      && q.id in w.client.calls && w.client.calls[q.id].Registered? && q.id !in w.asked
      && w' == w.(asked := w.asked[q.id := Asked(q, |w.served|)], toServer := w.toServer + [q])
    case Serve =>
      && w.serving && w.toServer != []
      && var q := w.toServer[0];
      var (s', r, alive) := serve(w.store, q);
      w' == w.(toServer := w.toServer[1..], store := s', served := w.served + [Served(q, w.store, r)], serving := alive,
               fromServer := if r.Some? then w.fromServer + [r.value] else w.fromServer)
    case Deliver =>
      && w.fromServer != []
      && Client.Next(w.client, Client.Receive(w.fromServer[0]), w'.client)
      && w' == w.(client := w'.client, fromServer := w.fromServer[1..])
  }

  ghost predicate Run<S>(serve: Serving<S>, init: S, run: seq<World<S>>, steps: seq<Step>) {
    && |run| == |steps| + 1 && run[0] == Start(init)
    && forall i :: 0 <= i < |steps| ==> Next(serve, run[i], steps[i], run[i + 1])
  }

  // ---------------------------------------------------------------- the invariant

  /** The store's state before the request served at place `i`. */
  function StateAt<S>(w: World<S>, i: nat): S
    requires i <= |w.served|
  {
    if i < |w.served| then w.served[i].before else w.store
  }

  /** The store ran the served requests one after the other. */
  ghost predicate Sequential<S>(serve: Serving<S>, init: S, w: World<S>) {
    && StateAt(w, 0) == init
    && forall i :: 0 <= i < |w.served| ==>
      && StateAt(w, i + 1) == serve(w.served[i].before, w.served[i].request).0
      && w.served[i].resp == serve(w.served[i].before, w.served[i].request).1
  }

  /** The same request was asked, no later than at place `i`. */
  predicate AskedBy(asked: map<nat, Asked>, q: Request, i: nat) {
    q.id in asked && asked[q.id].request == q && asked[q.id].at <= i
  }

  /** Every request on its way or served was asked, and none is there twice. */
  ghost predicate Traced<S>(w: World<S>) {
    && (forall i :: 0 <= i < |w.served| ==> AskedBy(w.asked, w.served[i].request, i))
    && (forall i :: 0 <= i < |w.toServer| ==> AskedBy(w.asked, w.toServer[i], |w.served|))
    && (forall i, j :: 0 <= i < j < |w.served| ==> w.served[i].request.id != w.served[j].request.id)
    && (forall i, j :: 0 <= i < j < |w.toServer| ==> w.toServer[i].id != w.toServer[j].id)
    && (forall i, j :: 0 <= i < |w.served| && 0 <= j < |w.toServer| ==> w.served[i].request.id != w.toServer[j].id)
  }

  predicate ServedAt<S>(w: World<S>, i: int, r: Response) {
    0 <= i < |w.served| && w.served[i].resp == Some(r)
  }

  ghost predicate FromServer<S>(w: World<S>, r: Response) {
    exists i :: ServedAt(w, i, r)
  }

  /** A response a caller may see: the server's, or the error of the shutdown. */
  ghost predicate Known<S>(w: World<S>, r: Response) {
    FromServer(w, r) || (w.closing.Some? && r == Client.ShutdownError(r.id, w.closing.value))
  }

  ghost predicate AllKnown<S>(w: World<S>) {
    && (forall r :: r in w.fromServer ==> FromServer(w, r))
    && (forall ch, r :: 0 <= ch < |w.client.channels| && r in w.client.channels[ch].sent ==> Known(w, r))
    && (forall id :: id in w.client.calls && AnsweredCall(w, id) ==> Known(w, w.client.calls[id].outcome.resp))
  }

  predicate AnsweredCall<S>(w: World<S>, id: nat) {
    id in w.client.calls && w.client.calls[id].Done? && w.client.calls[id].outcome.Answered?
  }

  ghost predicate Inv<S>(serve: Serving<S>, init: S, w: World<S>) {
    && Client.Inv(w.client) && Sequential(serve, init, w) && Traced(w) && AllKnown(w)
    && (w.closing.Some? <==> w.client.respMap.None?)
    && (forall id :: id in w.asked ==> id in w.client.calls && !w.client.calls[id].Allocated?)
  }

  /** Responses carry the id of the request. */
  ghost predicate Replies<S(!new)>(serve: Serving<S>) {
    forall s, q :: serve(s, q).1.Some? ==> serve(s, q).1.value.id == q.id
  }

  /** What the server has said stays known. */
  lemma StillKnown<S>(w: World<S>, w': World<S>, r: Response)
    requires w.served <= w'.served && (w.closing.Some? ==> w'.closing == w.closing) && Known(w, r)
    ensures Known(w', r)
  {
    if FromServer(w, r) {
      var i :| ServedAt(w, i, r);
      assert ServedAt(w', i, r);
    }
  }

  lemma ClientNextKnown(s: Client.State, e: Client.Event, s': Client.State, ch: nat, r: Response)
    requires Client.Inv(s) && Client.Next(s, e, s') && ch < |s'.channels| && r in s'.channels[ch].sent
    ensures (ch < |s.channels| && r in s.channels[ch].sent) || (e.Receive? && r == e.resp)
      || (e.Shutdown? && r == Client.ShutdownError(r.id, e.data))
  {
  }

  lemma ClientNextAnswered(s: Client.State, e: Client.Event, s': Client.State, id: nat)
    requires Client.Inv(s) && Client.Next(s, e, s')
    requires id in s'.calls && s'.calls[id].Done? && s'.calls[id].outcome.Answered?
    ensures (id in s.calls && s.calls[id] == s'.calls[id])
      || (e == Client.Take(id) && Client.CanTake(s, id)
          && s'.calls[id].outcome.resp in s.channels[s.calls[id].chan].sent)
  {
  }

  lemma ClientKeepsKnown<S>(w: World<S>, e: Client.Event, w': World<S>)
    requires Client.Inv(w.client) && Client.Next(w.client, e, w'.client) && AllKnown(w) && w'.served == w.served
    requires e.Receive? ==> FromServer(w, e.resp)
    requires if e.Shutdown? then w.closing.None? && w'.closing == Some(e.data) else w'.closing == w.closing
    ensures forall ch, r :: 0 <= ch < |w'.client.channels| && r in w'.client.channels[ch].sent ==> Known(w', r)
    ensures forall id :: id in w'.client.calls && AnsweredCall(w', id) ==> Known(w', w'.client.calls[id].outcome.resp)
  {
    forall ch, r | 0 <= ch < |w'.client.channels| && r in w'.client.channels[ch].sent ensures Known(w', r) {
      ClientNextKnown(w.client, e, w'.client, ch, r);
      if !(e.Shutdown? && r == Client.ShutdownError(r.id, e.data)) { StillKnown(w, w', r); }
    }
    forall id | id in w'.client.calls && AnsweredCall(w', id) ensures Known(w', w'.client.calls[id].outcome.resp) {
      ClientNextAnswered(w.client, e, w'.client, id);
      assert AnsweredCall(w, id) || e == Client.Take(id);
      StillKnown(w, w', w'.client.calls[id].outcome.resp);
    }
  }

  lemma LocalKeeps<S>(serve: Serving<S>, init: S, w: World<S>, e: Client.Event, w': World<S>)
    requires Inv(serve, init, w) && Next(serve, w, Local(e), w')
    ensures Inv(serve, init, w')
  {
    Client.NextKeeps(w.client, e, w'.client);
    ClientKeepsKnown(w, e, w');
    forall r | r in w'.fromServer ensures FromServer(w', r) { Carried(w, w', r); }
    AskedStaysCalled(w, e, w');
  }

  lemma AskedStaysCalled<S>(w: World<S>, e: Client.Event, w': World<S>)
    requires Client.Inv(w.client) && Client.Next(w.client, e, w'.client) && w'.asked == w.asked
    requires forall id :: id in w.asked ==> id in w.client.calls && !w.client.calls[id].Allocated?
    ensures forall id :: id in w.asked ==> id in w'.client.calls && !w'.client.calls[id].Allocated?
  {
  }

  lemma Carried<S>(w: World<S>, w': World<S>, r: Response)
    requires w.served <= w'.served && FromServer(w, r)
    ensures FromServer(w', r)
  {
    var i :| ServedAt(w, i, r);
    assert ServedAt(w', i, r);
  }

  lemma WriteTraced<S>(w: World<S>, q: Request, w': World<S>)
    requires Traced(w) && q.id !in w.asked
    requires w'.asked == w.asked[q.id := Asked(q, |w.served|)]
    requires w'.toServer == w.toServer + [q] && w'.served == w.served
    ensures Traced(w')
  {
    forall i | 0 <= i < |w'.toServer| ensures AskedBy(w'.asked, w'.toServer[i], |w'.served|) {
      if i < |w.toServer| { assert AskedBy(w.asked, w.toServer[i], |w.served|); }
    }
  }

  lemma WriteKeeps<S>(serve: Serving<S>, init: S, w: World<S>, q: Request, w': World<S>)
    requires Inv(serve, init, w) && Next(serve, w, Write(q), w')
    ensures Inv(serve, init, w')
  {
    KeepsKnown(w, w');
    WriteTraced(w, q, w');
    assert forall i :: 0 <= i <= |w.served| ==> StateAt(w', i) == StateAt(w, i);
  }

  /** More served requests and more responses in flight leave every response known. */
  lemma KeepsKnown<S>(w: World<S>, w': World<S>)
    requires AllKnown(w) && w'.client == w.client && w.served <= w'.served && w'.closing == w.closing
    requires forall r :: r in w'.fromServer ==> r in w.fromServer || FromServer(w', r)
    ensures AllKnown(w')
  {
    forall r | r in w'.fromServer ensures FromServer(w', r) {
      if r in w.fromServer { Carried(w, w', r); }
    }
    forall ch, r | 0 <= ch < |w'.client.channels| && r in w'.client.channels[ch].sent
      ensures Known(w', r)
    {
      StillKnown(w, w', r);
    }
    forall id | id in w'.client.calls && AnsweredCall(w', id) ensures Known(w', w'.client.calls[id].outcome.resp) {
      assert AnsweredCall(w, id);
      StillKnown(w, w', w'.client.calls[id].outcome.resp);
    }
  }

  lemma ServeTraced<S>(w: World<S>, last: Served<S>, w': World<S>)
    requires Traced(w) && w.toServer != [] && last.request == w.toServer[0]
    requires w'.asked == w.asked && w'.toServer == w.toServer[1..] && w'.served == w.served + [last]
    ensures Traced(w')
  {
    forall i | 0 <= i < |w'.toServer| ensures AskedBy(w'.asked, w'.toServer[i], |w'.served|) {
      assert AskedBy(w.asked, w.toServer[i + 1], |w.served|);
    }
    assert AskedBy(w.asked, w.toServer[0], |w.served|);
  }

  lemma ServeSequential<S>(serve: Serving<S>, init: S, w: World<S>, q: Request, w': World<S>)
    requires Sequential(serve, init, w)
    requires w'.served == w.served + [Served(q, w.store, serve(w.store, q).1)] && w'.store == serve(w.store, q).0
    ensures Sequential(serve, init, w')
  {
    assert forall i :: 0 <= i <= |w.served| ==> StateAt(w', i) == StateAt(w, i);
  }

  lemma ServeKeeps<S>(serve: Serving<S>, init: S, w: World<S>, w': World<S>)
    requires Inv(serve, init, w) && Next(serve, w, Serve, w')
    ensures Inv(serve, init, w')
  {
    var r := serve(w.store, w.toServer[0]).1;
    if r.Some? { assert ServedAt(w', |w.served|, r.value); }
    KeepsKnown(w, w');
    ServeTraced(w, Served(w.toServer[0], w.store, r), w');
    ServeSequential(serve, init, w, w.toServer[0], w');
  }

  lemma DeliverKeeps<S>(serve: Serving<S>, init: S, w: World<S>, w': World<S>)
    requires Inv(serve, init, w) && Next(serve, w, Deliver, w')
    ensures Inv(serve, init, w')
  {
    var e := Client.Receive(w.fromServer[0]);
    Client.NextKeeps(w.client, e, w'.client);
    ClientKeepsKnown(w, e, w');
    forall r | r in w'.fromServer ensures FromServer(w', r) { Carried(w, w', r); }
    AskedStaysCalled(w, e, w');
  }

  lemma StartInv<S>(serve: Serving<S>, init: S)
    ensures Inv(serve, init, Start(init))
  {
  }

  lemma NextKeeps<S>(serve: Serving<S>, init: S, w: World<S>, step: Step, w': World<S>)
    requires Inv(serve, init, w) && Next(serve, w, step, w')
    ensures Inv(serve, init, w')
  {
    match step
    case Local(e) => LocalKeeps(serve, init, w, e, w');
    case Write(q) => WriteKeeps(serve, init, w, q, w');
    case Serve => ServeKeeps(serve, init, w, w');
    case Deliver => DeliverKeeps(serve, init, w, w');
  }

  lemma {:induction false} ReachableInv<S>(serve: Serving<S>, init: S, run: seq<World<S>>, steps: seq<Step>, i: nat)
    requires Run(serve, init, run, steps) && i < |run|
    ensures Inv(serve, init, run[i])
  {
    if i > 0 {
      ReachableInv(serve, init, run, steps, i - 1);
      NextKeeps(serve, init, run[i - 1], steps[i - 1], run[i]);
    } else {
      StartInv(serve, init);
    }
  }

  // ---------------------------------------------------------------- what callers can rely on

  /** The caller's response is what the store answered to the caller's own request, executed once,
      in the state left by the requests served before it and not before it was asked. */
  ghost predicate Explained<S>(serve: Serving<S>, w: World<S>, id: nat, r: Response, k: int) {
    && 0 <= k < |w.served| && id in w.asked && w.asked[id].at <= k
    && w.served[k].request == w.asked[id].request
    && serve(StateAt(w, k), w.asked[id].request).1 == Some(r)
    && (forall j :: 0 <= j < |w.served| && w.served[j].request.id == id ==> j == k)
  }

  lemma AnswersAreExplained<S(!new)>(serve: Serving<S>, init: S, run: seq<World<S>>, steps: seq<Step>, i: nat, id: nat)
    returns (k: int)
    requires Replies(serve) && Run(serve, init, run, steps) && i < |run| && AnsweredCall(run[i], id)
    ensures Sequential(serve, init, run[i])
    ensures var w, r := run[i], run[i].client.calls[id].outcome.resp;
      Explained(serve, w, id, r, k) || (w.closing.Some? && r == Client.ShutdownError(id, w.closing.value))
  {
    ReachableInv(serve, init, run, steps, i);
    var w := run[i];
    var r := w.client.calls[id].outcome.resp;
    assert Client.CallOk(w.client, id, w.client.calls[id]);
    k := 0;
    if FromServer(w, r) {
      k :| ServedAt(w, k, r);
      assert w.served[k].request.id == r.id == id;
      assert AskedBy(w.asked, w.served[k].request, k);
    }
  }

  /** History only grows: what was served stays served in that order, what was asked stays asked,
      and a request asked later is placed after everything served before. */
  lemma {:induction false} LaterIsServedLater<S>(
    serve: Serving<S>, init: S, run: seq<World<S>>, steps: seq<Step>, i: nat, j: nat)
    requires Run(serve, init, run, steps) && i <= j < |run|
    ensures run[i].served <= run[j].served
    ensures forall id :: id in run[i].asked ==> id in run[j].asked && run[j].asked[id] == run[i].asked[id]
    ensures forall id :: id in run[j].asked && id !in run[i].asked ==> run[j].asked[id].at >= |run[i].served|
  {
    if i < j {
      LaterIsServedLater(serve, init, run, steps, i, j - 1);
      assert Next(serve, run[j - 1], steps[j - 1], run[j]);
    }
  }

  /** Real time is respected: a call asked after another was answered is executed after it. */
  lemma RealTimeOrder<S(!new)>(
    serve: Serving<S>, init: S, run: seq<World<S>>, steps: seq<Step>, i: nat, j: nat, a: nat, b: nat)
    requires Replies(serve) && Run(serve, init, run, steps) && i <= j < |run|
    requires AnsweredCall(run[i], a) && run[i].closing.None? && b !in run[i].asked
    requires AnsweredCall(run[j], b) && run[j].closing.None?
    ensures exists k, l ::
      && k < l && Explained(serve, run[i], a, run[i].client.calls[a].outcome.resp, k)
      && Explained(serve, run[j], b, run[j].client.calls[b].outcome.resp, l)
  {
    var k := AnswersAreExplained(serve, init, run, steps, i, a);
    var l := AnswersAreExplained(serve, init, run, steps, j, b);
    LaterIsServedLater(serve, init, run, steps, i, j);
  }

  // ---------------------------------------------------------------- nothing is lost on the way

  function Requests<S>(served: seq<Served<S>>): (qs: seq<Request>)
    ensures |qs| == |served|
  {
    seq(|served|, i requires 0 <= i < |served| => served[i].request)
  }

  function Responses<S>(served: seq<Served<S>>): seq<Response> {
    if served == [] then []
    else
      var last := served[|served| - 1].resp;
      Responses(served[..|served| - 1]) + if last.Some? then [last.value] else []
  }

  /** The requests the steps write, in order. */
  function Written(steps: seq<Step>): seq<Request> {
    if steps == [] then []
    else
      var last := steps[|steps| - 1];
      Written(steps[..|steps| - 1]) + if last.Write? then [last.request] else []
  }

  /** The responses the first `n` steps deliver, in order. */
  ghost function Delivered<S>(run: seq<World<S>>, steps: seq<Step>, n: nat): seq<Response>
    requires n <= |steps| < |run|
  {
    if n == 0 then []
    else
      Delivered(run, steps, n - 1) +
      if steps[n - 1].Deliver? && run[n - 1].fromServer != [] then [run[n - 1].fromServer[0]] else []
  }

  /** Conservation on both streams: what was written is served or on its way, and what the server answered
      is delivered or on its way, all in order. */
  lemma {:induction false} StreamsConserve<S>(
    serve: Serving<S>, init: S, run: seq<World<S>>, steps: seq<Step>, n: nat)
    requires Run(serve, init, run, steps) && n < |run|
    ensures Requests(run[n].served) + run[n].toServer == Written(steps[..n])
    ensures Responses(run[n].served) == Delivered(run, steps, n) + run[n].fromServer
  {
    if n > 0 {
      StreamsConserve(serve, init, run, steps, n - 1);
      assert Next(serve, run[n - 1], steps[n - 1], run[n]);
      var more := StreamStep(serve, run[n - 1], steps[n - 1], run[n]);
      OneMoreStep(run, steps, n, more);
    }
  }

  /** The books still balance after the step. */
  lemma OneMoreStep<S>(run: seq<World<S>>, steps: seq<Step>, n: nat, more: seq<Response>)
    requires 0 < n <= |steps| < |run|
    requires Requests(run[n - 1].served) + run[n - 1].toServer == Written(steps[..n - 1])
    requires Responses(run[n - 1].served) == Delivered(run, steps, n - 1) + run[n - 1].fromServer
    requires Balances(run[n - 1], steps[n - 1], run[n], more)
    ensures Requests(run[n].served) + run[n].toServer == Written(steps[..n])
    ensures Responses(run[n].served) == Delivered(run, steps, n) + run[n].fromServer
  {
    assert steps[..n][..n - 1] == steps[..n - 1];
  }

  ghost predicate Balances<S>(w: World<S>, step: Step, w': World<S>, more: seq<Response>) {
    && Requests(w'.served) + w'.toServer ==
       Requests(w.served) + w.toServer + (if step.Write? then [step.request] else [])
    && Responses(w'.served) == Responses(w.served) + more
    && if step.Deliver? then w.fromServer != [] && more == [] && w.fromServer == [w.fromServer[0]] + w'.fromServer
       else w'.fromServer == w.fromServer + more
  }

  lemma StreamStep<S>(serve: Serving<S>, w: World<S>, step: Step, w': World<S>) returns (more: seq<Response>)
    requires Next(serve, w, step, w')
    ensures Balances(w, step, w', more)
  {
    more := [];
    if step.Serve? {
      assert w'.served[..|w.served|] == w.served;
      assert Requests(w'.served) == Requests(w.served) + [w.toServer[0]];
      var r := w'.served[|w.served|].resp;
      more := if r.Some? then [r.value] else [];
    }
  }

  /** A delivered response waits on the channel of its call for as long as the call is out. */
  ghost predicate InHand<S>(w: World<S>, r: Response) {
    r.id in w.client.calls && Client.Outstanding(w.client.calls[r.id]) ==>
      var ch := w.client.calls[r.id].chan; ch < |w.client.channels| && w.client.channels[ch].buffer == [r]
  }

  /** Every answer of the server is on its way, or in the hands of its call if that is still out. */
  ghost predicate NoneLost<S>(w: World<S>) {
    forall k :: 0 <= k < |w.served| && w.served[k].resp.Some? && w.served[k].resp.value !in w.fromServer ==>
      InHand(w, w.served[k].resp.value)
  }

  lemma OneAnswer<S(!new)>(serve: Serving<S>, init: S, w: World<S>, r: Response, r': Response)
    requires Replies(serve) && Inv(serve, init, w) && FromServer(w, r) && FromServer(w, r') && r.id == r'.id
    ensures r == r'
  {
    var i :| ServedAt(w, i, r);
    var j :| ServedAt(w, j, r');
    assert w.served[i].request.id == r.id && w.served[j].request.id == r'.id;
  }

  lemma DeliverInHand<S(!new)>(serve: Serving<S>, init: S, w: World<S>, w': World<S>)
    requires Replies(serve) && Inv(serve, init, w) && Next(serve, w, Deliver, w') && w.closing.None?
    ensures InHand(w', w.fromServer[0])
  {
    var r := w.fromServer[0];
    Client.ResponseArrives(w.client, r, w'.client);
    if r.id in w.client.calls && Client.Outstanding(w.client.calls[r.id]) {
      assert Client.CallOk(w.client, r.id, w.client.calls[r.id]);
      if !(Client.InMap(w.client, r.id) && w.client.respMap.value[r.id] == w.client.calls[r.id].chan) {
        InHandAlready(serve, init, w, r);
        StaysInHand(w, Client.Receive(r), w', r);
      }
    }
  }

  /** A call that is out and not in the map under its channel has the answer to its request already. */
  lemma InHandAlready<S(!new)>(serve: Serving<S>, init: S, w: World<S>, r: Response)
    requires Replies(serve) && Inv(serve, init, w) && w.closing.None? && FromServer(w, r)
    requires r.id in w.client.calls && Client.Outstanding(w.client.calls[r.id])
    requires !(Client.InMap(w.client, r.id) && w.client.respMap.value[r.id] == w.client.calls[r.id].chan)
    ensures InHand(w, r)
  {
    var ch := w.client.calls[r.id].chan;
    assert Client.CallOk(w.client, r.id, w.client.calls[r.id]);
    var r' := w.client.channels[ch].buffer[0];
    assert Client.ChannelOk(w.client.channels[ch]);
    assert r' in w.client.channels[ch].sent && Known(w, r');
    OneAnswer(serve, init, w, r, r');
  }

  /** What is in hand stays there as long as the call is out. */
  lemma StaysInHand<S>(w: World<S>, e: Client.Event, w': World<S>, r: Response)
    requires Client.Inv(w.client) && Client.Next(w.client, e, w'.client) && InHand(w, r)
    requires r.id in w.client.calls && !w.client.calls[r.id].Allocated?
    ensures InHand(w', r)
  {
    var call := w.client.calls[r.id];
    if Client.Outstanding(call) {
      assert Client.ChannelOk(w.client.channels[call.chan]);
      Client.HoldsStays(w.client, e, w'.client, r.id, call.chan, r, call.Waiting?);
    } else {
      Client.OutcomeStays(w.client, e, w'.client, r.id);
    }
  }

  lemma ServedWasCalled<S(!new)>(serve: Serving<S>, init: S, w: World<S>, k: nat)
    requires Replies(serve) && Inv(serve, init, w) && k < |w.served| && w.served[k].resp.Some?
    ensures var id := w.served[k].resp.value.id; id in w.client.calls && !w.client.calls[id].Allocated?
  {
    assert AskedBy(w.asked, w.served[k].request, k);
  }

  lemma NextLosesNone<S(!new)>(serve: Serving<S>, init: S, w: World<S>, step: Step, w': World<S>)
    requires Replies(serve) && Inv(serve, init, w) && Next(serve, w, step, w') && w.closing.None? && NoneLost(w)
    ensures NoneLost(w')
  {
    forall k | 0 <= k < |w'.served| && w'.served[k].resp.Some? && w'.served[k].resp.value !in w'.fromServer
      ensures InHand(w', w'.served[k].resp.value)
    {
      StepLosesNot(serve, init, w, step, w', k);
    }
  }

  lemma StepLosesNot<S(!new)>(serve: Serving<S>, init: S, w: World<S>, step: Step, w': World<S>, k: nat)
    requires Replies(serve) && Inv(serve, init, w) && Next(serve, w, step, w') && w.closing.None? && NoneLost(w)
    requires k < |w'.served| && w'.served[k].resp.Some? && w'.served[k].resp.value !in w'.fromServer
    ensures InHand(w', w'.served[k].resp.value)
  {
    var r := w'.served[k].resp.value;
    if step.Deliver? && r == w.fromServer[0] {
      DeliverInHand(serve, init, w, w');
    } else {
      OldAnswer(serve, w, step, w', k);
      ServedWasCalled(serve, init, w, k);
      match step
      case Local(e) => StaysInHand(w, e, w', r);
      case Deliver => StaysInHand(w, Client.Receive(w.fromServer[0]), w', r);
      case _ =>
    }
  }

  lemma OldAnswer<S>(serve: Serving<S>, w: World<S>, step: Step, w': World<S>, k: nat)
    requires Next(serve, w, step, w') && k < |w'.served| && w'.served[k].resp.Some?
    requires w'.served[k].resp.value !in w'.fromServer
    requires !(step.Deliver? && w'.served[k].resp.value == w.fromServer[0])
    ensures k < |w.served| && w.served[k] == w'.served[k] && w.served[k].resp.value !in w.fromServer
  {
    if step.Deliver? { assert w.fromServer == [w.fromServer[0]] + w'.fromServer; }
  }

  lemma {:induction false} ReachableNoneLost<S(!new)>(
    serve: Serving<S>, init: S, run: seq<World<S>>, steps: seq<Step>, i: nat)
    requires Replies(serve) && Run(serve, init, run, steps) && i < |run| && run[i].closing.None?
    ensures NoneLost(run[i])
  {
    if i > 0 {
      OpenBefore(serve, init, run, steps, i - 1);
      ReachableNoneLost(serve, init, run, steps, i - 1);
      NoneLostStep(serve, init, run, steps, i - 1);
    }
  }

  lemma NoneLostStep<S(!new)>(serve: Serving<S>, init: S, run: seq<World<S>>, steps: seq<Step>, i: nat)
    requires Replies(serve) && Run(serve, init, run, steps) && i < |steps| && run[i].closing.None? && NoneLost(run[i])
    ensures NoneLost(run[i + 1])
  {
    ReachableInv(serve, init, run, steps, i);
    NextLosesNone(serve, init, run[i], steps[i], run[i + 1]);
  }

  lemma OpenBefore<S>(serve: Serving<S>, init: S, run: seq<World<S>>, steps: seq<Step>, i: nat)
    requires Run(serve, init, run, steps) && i < |steps| && run[i + 1].closing.None?
    ensures run[i].closing.None?
  {
    assert Next(serve, run[i], steps[i], run[i + 1]);
  }

  /** Over every run: a waiting caller whose request has been served and whose response is no longer on its way
      can take exactly that response. */
  lemma DeliveredCanBeTaken<S(!new)>(
    serve: Serving<S>, init: S, run: seq<World<S>>, steps: seq<Step>, i: nat, k: nat)
    requires Replies(serve) && Run(serve, init, run, steps) && i < |run| && run[i].closing.None?
    requires k < |run[i].served| && run[i].served[k].resp.Some?
    requires run[i].served[k].resp.value !in run[i].fromServer
    requires var id := run[i].served[k].request.id;
      id in run[i].client.calls && run[i].client.calls[id].Waiting?
    ensures var s, r := run[i].client, run[i].served[k].resp.value;
      && r.id == run[i].served[k].request.id && Client.CanTake(s, r.id)
      && s.channels[s.calls[r.id].chan].buffer == [r]
  {
    ReachableInv(serve, init, run, steps, i);
    ReachableNoneLost(serve, init, run, steps, i);
    assert InHand(run[i], run[i].served[k].resp.value);
  }

  /** The server hangs up on a request it cannot decode. */
  function ServerOf<S>(b: Server.Backend<S>): Serving<S> {
    (s: S, q: Request) => if ReadableRequest(q) then Server.ServeRequest(b, s, q) else (s, None, false)
  }

  /** However the calls of many callers interleave, an answer is the one the same request gets
      alone from the store in the state where it was served. */
  lemma ConcurrentAnswersAreLocal<S(!new)>(
    b: Server.Backend<S>, init: S, run: seq<World<S>>, steps: seq<Step>, i: nat, id: nat)
    returns (k: int)
    requires Run(ServerOf(b), init, run, steps) && i < |run| && AnsweredCall(run[i], id) && run[i].closing.None?
    ensures Sequential(ServerOf(b), init, run[i]) && id in run[i].asked && run[i].asked[id].at <= k < |run[i].served|
    ensures Server.Interpret(run[i].client.calls[id].outcome.resp) ==
      Server.Ask(b, StateAt(run[i], k), run[i].asked[id].request).1
  {
    k := AnswersAreExplained(ServerOf(b), init, run, steps, i, id);
    Server.ResponseReadsAsAsked(b, StateAt(run[i], k), run[i].asked[id].request, run[i].client.calls[id].outcome.resp);
  }
}
