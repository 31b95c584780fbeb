/** What the server answers, as functions of the store: one request
    (Respond) and a run of requests handed over in order (ServeAll). The
    server's methods are proved against these. */
module Dispatch {
  import opened Messages

  /** The unit data of the server context, by unit identifier. */
  type Store = map<UnitId, SlaveContext>

  datatype Handled = Handled(response: Response, store: Store)

  /** Serving one request: look the unit up, run the request on its data,
      turn a missing unit or a failed run into the Server Device Failure
      exception, then stamp the request's correlation fields on the answer. */
  function Respond(store: Store, request: Request): (h: Handled)
    ensures Correlated(h.response, request)
    ensures request.unitId !in store ==>
      h.response.pdu == ExceptionPdu(request.functionCode, SlaveFailure) && h.store == store
    ensures request.unitId in store && request.execute(store[request.unitId]).Failed? ==>
      h.response.pdu == ExceptionPdu(request.functionCode, SlaveFailure) && h.store == store
    ensures request.unitId in store && request.execute(store[request.unitId]).Executed? ==>
      var o := request.execute(store[request.unitId]);
      h.response.pdu == o.response.pdu && h.store == store[request.unitId := o.after]
    ensures h.store.Keys == store.Keys
    ensures forall u :: u in store && u != request.unitId ==> h.store[u] == store[u]
  {
    var outcome := if request.unitId in store then request.execute(store[request.unitId]) else Failed;
    var answered :=
      match outcome
      case Executed(r, c) => Handled(r, store[request.unitId := c])
      case Failed => Handled(request.DoException(SlaveFailure), store);
    answered.(response := answered.response.(transactionId := request.transactionId, unitId := request.unitId))
  }

  datatype Served = Served(responses: seq<Response>, store: Store)

  /** Serving requests one after another, each against the store the ones
      before it left: one response per request, in request order. */
  function ServeAll(store: Store, requests: seq<Request>): (s: Served)
    ensures |s.responses| == |requests|
    ensures forall k :: 0 <= k < |requests| ==> Correlated(s.responses[k], requests[k])
    ensures s.store.Keys == store.Keys
    decreases |requests|
  {
    if requests == [] then Served([], store)
    else
      var before := ServeAll(store, requests[..|requests| - 1]);
      var h := Respond(before.store, requests[|requests| - 1]);
      Served(before.responses + [h.response], h.store)
  }

  /** The packets a framer builds for a run of responses, in order. */
  function Packets(build: Response -> seq<Byte>, responses: seq<Response>): (packets: seq<seq<Byte>>) {
    seq(|responses|, k requires 0 <= k < |responses| => build(responses[k]))
  }

  lemma PacketsSnoc(build: Response -> seq<Byte>, responses: seq<Response>, r: Response)
    ensures Packets(build, responses + [r]) == Packets(build, responses) + [build(r)]
  {
  }

  /** Requests delivered in two batches are answered exactly as when
      delivered in one: the second batch sees the store the first left. */
  lemma {:induction false} ServeAllAppend(store: Store, a: seq<Request>, b: seq<Request>)
    ensures var first := ServeAll(store, a);
      var second := ServeAll(first.store, b);
      ServeAll(store, a + b) == Served(first.responses + second.responses, second.store)
    decreases |b|
  {
    var first := ServeAll(store, a);
    if b == [] {
      assert a + b == a;
    } else {
      var b' := b[..|b| - 1];
      ServeAllAppend(store, a, b');
      assert (a + b)[..|a + b| - 1] == a + b';
      assert (a + b)[|a + b| - 1] == b[|b| - 1];
    }
  }

  /** The k-th response answers the k-th request, run against the store as
      the k requests before it left it. */
  lemma {:induction false} ServeAllAt(store: Store, requests: seq<Request>, k: nat)
    requires k < |requests|
    ensures ServeAll(store, requests).responses[k]
         == Respond(ServeAll(store, requests[..k]).store, requests[k]).response
    decreases |requests|
  {
    var n := |requests|;
    if k < n - 1 {
      var front := requests[..n - 1];
      ServeAllAt(store, front, k);
      assert front[..k] == requests[..k];
      assert front[k] == requests[k];
    } else {
      assert requests[..n - 1] == requests[..k];
    }
  }

  /** A unit no request addresses keeps its data. */
  lemma {:induction false} ServeAllOtherUnits(store: Store, requests: seq<Request>, u: UnitId)
    requires u in store
    requires forall k :: 0 <= k < |requests| ==> requests[k].unitId != u
    ensures u in ServeAll(store, requests).store && ServeAll(store, requests).store[u] == store[u]
    decreases |requests|
  {
    if requests != [] {
      ServeAllOtherUnits(store, requests[..|requests| - 1], u);
    }
  }

  /** Sending the same request twice gives the same answer twice, when the
      first run leaves the store as it was. */
  lemma ResendSameAnswer(store: Store, request: Request)
    requires Respond(store, request).store == store
    ensures var r := Respond(store, request).response;
      ServeAll(store, [request, request]) == Served([r, r], store)
  {
    var h := Respond(store, request);
    assert [request][..0] == [];
    assert ServeAll(store, [request]) == Served([h.response], store);
    assert [request, request][..1] == [request];
  }
}
