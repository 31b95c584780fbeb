/** The asynchronous server: one factory holding the shared configuration,
    and one protocol object per connection that dispatches the requests its
    framer assembles. */
module AsyncServer {
  import opened Messages
  import opened Datastore
  import opened Device
  import opened Transaction
  import opened Dispatch

  /** Configuration shared by every connection. */
  class ServerFactory {
    const decoder: ServerDecoder
    const framer: FramerType
    const store: ServerContext
    const control: ControlBlock

    /** `socketFramer` is the socket framer class the name ModbusSocketFramer
        refers to; its wire format is not part of this model. */
    constructor (store: ServerContext?, framer: Option<FramerType>, identity: IdentityArg,
                 socketFramer: FramerType)
      requires socketFramer.name == SocketFramer
      ensures fresh(decoder) && fresh(control)
      ensures this.framer == (if framer.Some? then framer.value else socketFramer)
      ensures store != null && store.truthy ==> this.store == store
      ensures !(store != null && store.truthy) ==> fresh(this.store) && this.store.slaves == map[]
      ensures identity.Identification? ==> control.identity == DefaultIdentity + identity.objects
      ensures !identity.Identification? ==> control.identity == DefaultIdentity
    {
      decoder := new ServerDecoder();
      this.framer := if framer.Some? then framer.value else socketFramer;
      if store != null && store.truthy {
        this.store := store;
      } else {
        this.store := new ServerContext.Empty();
      }
      control := new ControlBlock();
      new;
      if identity.Identification? {
        control.UpdateIdentity(identity.objects);
      }
    }
  }

  /** One connection. `sent` is what has been written to the transport, in
      order; the ghost logs record the requests handled and the responses
      sent for them. */
  class ModbusProtocol {
    const factory: ServerFactory
    var framer: Framer?
    var sent: seq<seq<Byte>>
    ghost var handled: seq<Request>
    ghost var responses: seq<Response>

    /** Every packet on the wire is the framing of a response that answers
        the request handled at the same position. */
    ghost predicate Consistent()
      reads this
    {
      && |handled| == |responses| == |sent|
      && forall k :: 0 <= k < |sent| ==>
           sent[k] == factory.framer.build(responses[k]) && Correlated(responses[k], handled[k])
    }

    /** A connected protocol: its own framer, of the factory's type and
        bound to the factory's decoder. */
    ghost predicate Valid()
      reads this, framer
    {
      && Consistent()
      && framer != null
      && framer.kind == factory.framer
      && framer.decoder == factory.decoder
    }

    /** The protocol object the factory builds for a new connection. */
    constructor (factory: ServerFactory)
      ensures this.factory == factory && framer == null
      ensures sent == [] && handled == [] && responses == []
    {
      this.factory := factory;
      framer := null;
      sent := [];
      handled := [];
      responses := [];
    }

    /** A connection gets a framer of its own, built with the shared
        decoder and holding no bytes yet. */
    method ConnectionMade()
      requires Consistent()
      modifies this`framer
      ensures Valid() && fresh(framer) && framer.buffer == []
    {
      framer := new Framer(factory.framer, factory.decoder);
    }

    /** Bytes from the transport go to this connection's framer; every
        request it completes is executed, in order. */
    method DataReceived(data: seq<Byte>)
      requires Valid()
      modifies this`sent, this`handled, this`responses, framer, factory.store
      ensures Valid() && framer == old(framer)
      ensures var x := framer.kind.split(old(framer.buffer) + data);
        var s := ServeAll(old(factory.store.slaves), x.requests);
        && framer.buffer == x.rest
        && factory.store.slaves == s.store
        && handled == old(handled) + x.requests
        && responses == old(responses) + s.responses
        && sent == old(sent) + Packets(factory.framer.build, s.responses)
    {
      var requests := framer.ProcessIncomingPacket(data);
      ghost var store0, handled0, responses0, sent0 := factory.store.slaves, handled, responses, sent;
      ghost var buffer := framer.buffer;
      var i := 0;
      while i < |requests|
        invariant 0 <= i <= |requests|
        invariant Valid() && framer.buffer == buffer
        invariant var s := ServeAll(store0, requests[..i]);
          && factory.store.slaves == s.store
          && handled == handled0 + requests[..i]
          && responses == responses0 + s.responses
          && sent == sent0 + Packets(factory.framer.build, s.responses)
      {
        ghost var before := ServeAll(store0, requests[..i]);
        Execute(requests[i]);
        assert requests[..i + 1][..i] == requests[..i];
        assert requests[..i + 1] == requests[..i] + [requests[i]];
        PacketsSnoc(factory.framer.build, before.responses, Respond(before.store, requests[i]).response);
        i := i + 1;
      }
      assert requests[..i] == requests;
    }

    /** Answers one request: exactly one packet leaves, carrying the
        store's answer or the Server Device Failure exception, stamped with
        the request's correlation fields. */
    method Execute(request: Request)
      requires Valid()
      modifies this`sent, this`handled, this`responses, factory.store
      ensures Valid()
      ensures var h := Respond(old(factory.store.slaves), request);
        && factory.store.slaves == h.store
        && handled == old(handled) + [request]
        && responses == old(responses) + [h.response]
        && sent == old(sent) + [factory.framer.build(h.response)]
    {
      var store := factory.store;
      var outcome := Failed;
      if request.unitId in store.slaves {
        outcome := request.execute(store.slaves[request.unitId]);
      }
      var response;
      match outcome {
        case Executed(r, after) =>
          store.slaves := store.slaves[request.unitId := after];
          response := r;
        case Failed =>
          response := request.DoException(SlaveFailure);
      }
      response := response.(transactionId := request.transactionId);
      response := response.(unitId := request.unitId);
      handled := handled + [request];
      Send(response);
    }

    /** Frames a response with this connection's framer and writes it. */
    method Send(message: Response)
      requires framer != null
      modifies this`sent, this`responses
      ensures sent == old(sent) + [framer.kind.build(message)]
      ensures responses == old(responses) + [message]
    {
      var packet := framer.kind.build(message);
      sent := sent + [packet];
      responses := responses + [message];
    }
  }
}
