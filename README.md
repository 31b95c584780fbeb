# Twisted Modbus server: request dispatch

A Dafny model of the request-dispatch core of pymodbus's Twisted server
(`pymodbus/server/async.py`). It covers:

- `ModbusServerFactory`, which holds the configuration that every connection
  shares: the decoder, the framer type, the datastore and the control block.
- `ModbusProtocol`, one object per connection. It builds its own framer when
  the connection opens. It feeds received bytes to that framer. For each
  request the framer completes, it looks up the addressed unit in the store
  and runs the request there. A missing unit or a failed run becomes the
  exception response with code 04, Server Device Failure (section 7 of the
  Modbus Application Protocol Specification V1.1b). The request's MBAP
  transaction and unit identifiers are always copied onto the response
  (section 3.1.3 of the Modbus Messaging on TCP/IP Implementation Guide).
  Exactly one framed packet is then written to the transport.

Layout:

- `messages.dfy` (`Messages`): requests, responses, unit data, execution
  outcomes, and the correlation predicate.
- `datastore.dfy` (`Datastore`): the shared server context, a unit-id to
  unit-data map held in one object.
- `device.dfy` (`Device`): the control block's identity and the factory's
  identity argument.
- `framer.dfy` (`Transaction`): framer types and per-connection framer
  objects.
- `dispatch.dfy` (`Dispatch`): what the server answers, as functions.
  `Respond` covers one request and `ServeAll` covers a run of requests. The
  lemmas about them are here too.
- `server.dfy` (`AsyncServer`): the factory and protocol classes. Their
  methods are proved against `Respond` and `ServeAll`.
- `scenarios.dfy` (`Scenarios`): client code showing what callers can prove.
  This includes the two-register read, the read of an undefined unit, two
  connections with separate framers, and a write on one connection that the
  other connection can read.

Collaborators whose code is not part of this model are parameters or fields:

- A request carries its own `execute`, a function from unit data to
  `Executed(response, data afterwards) | Failed`. `Failed` stands for any
  exception it raises. The data afterwards carries any write the request made.
- A framer type carries `split` (bytes to complete requests plus leftover
  bytes) and `build` (response to packet).
- The default socket framer class is the factory constructor's
  `socketFramer` argument.
- Python's truth value of a store object is the context's `truthy` field.
- The transport is the protocol's `sent` sequence.

## Model

| member | source | states |
|---|---|---|
| `Dispatch.Respond` | pymodbus/server/async.py:66-79 | The response echoes the request's transaction and unit ids on every path. A missing unit gives the SlaveFailure exception for the request's function code and leaves the store alone. A failed execution gives the same exception and also leaves the store alone. A successful execution gives its own PDU unchanged and stores its updated unit data. No unit is added or removed, and no other unit is touched. |
| `Dispatch.ServeAll` | pymodbus/server/async.py:54-80 | A run of N requests produces exactly N responses. The k-th response carries the k-th request's transaction and unit ids. The store keeps its set of units. |
| `Dispatch.ServeAllAppend` | pymodbus/server/async.py:54-61 | Serving requests in two batches gives the same responses, in the same order, and the same final store as serving them in one batch. Requests handed over in several batches, as pipelined or fragmented deliveries produce, are answered as one batch would be. |
| `Dispatch.ServeAllAt` | pymodbus/server/async.py:61-80 | The k-th response is the answer to the k-th request, run against the store exactly as the k earlier requests left it. Responses leave in request order. |
| `Dispatch.ServeAllOtherUnits` | pymodbus/server/async.py:71-73 | The data of a unit that no request addresses is unchanged. |
| `Dispatch.ResendSameAnswer` | pymodbus/server/async.py:66-80 | If a request leaves the store unchanged, sending it twice gives the identical response twice. |
| `AsyncServer.ServerFactory.constructor` | pymodbus/server/async.py:103-120 | The factory has a fresh decoder. The framer type is the given one, or the socket framer when none is given. The store is the caller's object, kept by reference, when it is present and truthy; otherwise it is a fresh empty context. The control block is fresh. Its identity is the default merged with the supplied identification only when a device identification record is given; in every other case it is the default. |
| `AsyncServer.ModbusProtocol.constructor` | pymodbus/server/async.py:101 | A new protocol belongs to its factory, has no framer yet, and has sent nothing. |
| `AsyncServer.ModbusProtocol.ConnectionMade` | pymodbus/server/async.py:36-45 | The connection gets a freshly allocated framer. Its type is the factory's framer type, it is bound to the factory's decoder, and it holds no bytes, so no framer state is shared between connections. |
| `AsyncServer.ModbusProtocol.DataReceived` | pymodbus/server/async.py:54-61 | The framer keeps the leftover bytes. The requests it completes are handled in order. The store, the responses and the packets sent are exactly those of `ServeAll` on those requests, with one packet per request built by the connection's framer. The connection invariant is kept. |
| `AsyncServer.ModbusProtocol.Execute` | pymodbus/server/async.py:66-80 | Exactly one packet is appended to the transport, and it is the framing of `Respond`'s response. The store becomes `Respond`'s store. The invariant holds afterwards: every packet sent frames a response correlated with the request handled at its position. |
| `AsyncServer.ModbusProtocol.Send` | pymodbus/server/async.py:82-90 | Appends the packet the connection's framer builds for the message to the transport, and nothing else. |
| `Transaction.Framer.ProcessIncomingPacket` | pymodbus/server/async.py:61 | The framer is an abstract stand-in. The delivered bytes join its buffer, the complete requests are handed back, and the remainder stays buffered. |
| `Device.ControlBlock.UpdateIdentity` | pymodbus/server/async.py:119-120 | The supplied identification objects are merged into the control block's identity, and supplied values win. |
| `Datastore.ServerContext.Empty` | pymodbus/server/async.py:116 | The default context holds no units. |

## Left out

- `StartTcpServer`, `StartUdpServer`, `StartSerialServer` and `install_specialized_reactor` are left out. They bind ports, open devices and run the event loop, which is I/O bootstrap.
- `connectionLost` is left out because it only logs, so the framer is not released on close. A new connection gets a new protocol with a new framer.
- Logging and hex dumps are left out; they have no behavioural content.
- Framer internals are not modelled: buffering, resynchronisation after corrupt bytes, and the byte layout of packets. Each framer type's `split` and `build` are abstract functions. Because of that, malformed frames simply never appear as requests.
- Transaction.Framer.ProcessIncomingPacket: the framer calls `execute` from inside its own loop. The model hands the complete requests back and `DataReceived` executes them in the same order. This assumes `execute` does not touch the framer's buffer, and the only framer call it makes is `buildPacket`.
- Transaction.FramerName only names the socket and ASCII framers imported by this file. Other framer classes would need their own names.
- The decoder is not modelled. `ServerDecoder` is an empty object, and decoding is part of each framer type's `split`.
- Register and coil semantics are not modelled. A request's effect on unit data is its own `execute` function, and a failing execution is assumed to leave the unit data unchanged.
- Messages.Request.DoException only records the request's function code and the exception code. The wire function code (request code plus 0x80) belongs to the exception response's encoding, which is not modelled.
- Device.ControlBlock: only the identity is modelled. Counters, listen-only mode and the class's process-wide single instance are left out. The default identity is empty. Merging with supplied values winning is assumed to be the behaviour of the identity's `update`.
- Dispatch.ServeAllOtherUnits and Dispatch.Respond hold each unit's data in the store by value. In the source, the lookup returns a context object by reference and the request's execute changes that object in place. Nothing stops one context object from being stored under two unit ids, and then a write to one unit also changes the other. The "no other unit is touched" results assume no two unit ids share one context object.
- AsyncServer.ModbusProtocol.Execute treats the response as a value. In Python the overwrite of `transaction_id` and `unit_id` happens in place on the object `execute` returned. If that object is also held elsewhere, the holder would see the change; the model does not capture this aliasing.
- Concurrency between connections is left out. The server runs on a single-threaded cooperative reactor, so connections are separate objects whose callbacks run one at a time.
