/** What a caller of the server can prove from the contracts alone. */
module Scenarios {
  import opened Messages
  import opened Datastore
  import opened Device
  import opened Transaction
  import opened Dispatch
  import opened AsyncServer

  /** Read Holding Registers (function code 3) of the first two registers. */
  function ReadTwoHolding(transactionId: TransactionId, unitId: UnitId): (r: Request) {
    Request(transactionId, unitId, 3,
      (c: SlaveContext) => if |c.holdingRegisters| >= 2
           then Executed(Response(0, 0, Normal(3, c.holdingRegisters[..2])), c)
           else Failed)
  }

  /** Write Single Register (function code 6) of register 0. */
  function WriteFirstHolding(transactionId: TransactionId, unitId: UnitId, value: int): (r: Request) {
    Request(transactionId, unitId, 6,
      (c: SlaveContext) => if |c.holdingRegisters| >= 1
           then Executed(Response(0, 0, Normal(6, [value])),
                         c.(holdingRegisters := c.holdingRegisters[0 := value]))
           else Failed)
  }

  /** Unit 1 holds registers 10 and 20. A read from unit 1 answers with
      both values; the same read addressed to the undefined unit 2 answers
      with Server Device Failure; both keep transaction id 5. */
  method ReadScenario(socketFramer: FramerType)
    requires socketFramer.name == SocketFramer
  {
    var context := new ServerContext(map[1 := SlaveContext([], [], [10, 20], [])], true);
    var factory := new ServerFactory(context, None, NoIdentity, socketFramer);
    assert factory.store == context;
    var p := new ModbusProtocol(factory);
    p.ConnectionMade();

    var unit1 := SlaveContext([], [], [10, 20], []);
    assert unit1.holdingRegisters[..2] == [10, 20];
    assert ReadTwoHolding(5, 1).execute(unit1) == Executed(Response(0, 0, Normal(3, [10, 20])), unit1);
    p.Execute(ReadTwoHolding(5, 1));
    assert p.responses == [Response(5, 1, Normal(3, [10, 20]))];

    p.Execute(ReadTwoHolding(5, 2));
    assert p.responses[1] == Response(5, 2, ExceptionPdu(3, SlaveFailure));
    assert |p.sent| == 2;
  }

  /** Two connections to one factory: each has its own framer, so bytes
      delivered to one never reach the other's buffer. */
  method SeparateFramers(socketFramer: FramerType, partial: seq<Byte>)
    requires socketFramer.name == SocketFramer
  {
    var factory := new ServerFactory(null, None, NoIdentity, socketFramer);
    var a := new ModbusProtocol(factory);
    a.ConnectionMade();
    var b := new ModbusProtocol(factory);
    b.ConnectionMade();
    assert a.framer != b.framer;
    a.DataReceived(partial);
    assert b.framer.buffer == [];
  }

  /** Two connections share the caller's store: a write made through one
      is seen by a read through the other. */
  method SharedStore(socketFramer: FramerType)
    requires socketFramer.name == SocketFramer
  {
    var context := new ServerContext(map[1 := SlaveContext([], [], [10, 20], [])], true);
    var factory := new ServerFactory(context, None, NoIdentity, socketFramer);
    var a := new ModbusProtocol(factory);
    a.ConnectionMade();
    var b := new ModbusProtocol(factory);
    b.ConnectionMade();

    a.Execute(WriteFirstHolding(6, 1, 7));
    var written := SlaveContext([], [], [7, 20], []);
    assert context.slaves[1] == written;
    assert written.holdingRegisters[..2] == [7, 20];
    assert ReadTwoHolding(9, 1).execute(written) == Executed(Response(0, 0, Normal(3, [7, 20])), written);
    b.Execute(ReadTwoHolding(9, 1));
    assert b.responses == [Response(9, 1, Normal(3, [7, 20]))];
  }
}
