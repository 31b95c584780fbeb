/** Framers: per-connection objects that turn bytes into requests and
    responses into bytes. Their wire formats are not modelled; a framer type
    carries them as two functions. */
module Transaction {
  import opened Messages

  datatype FramerName = SocketFramer | AsciiFramer

  /** What one delivery of bytes yields: the complete requests, in arrival
      order, and the bytes of a partial frame kept for later. */
  datatype Extraction = Extraction(requests: seq<Request>, rest: seq<Byte>)

  /** A framer class: its name, how it splits and decodes a buffer into
      requests, and how it builds the packet of a response. */
  datatype FramerType = FramerType(
    name: FramerName,
    split: seq<Byte> -> Extraction,
    build: Response -> seq<Byte>)

  /** The server-side function-code decoder; shared, stateless. */
  class ServerDecoder {
    constructor () {}
  }

  /** One framer instance: its type, the decoder it was built with, and the
      bytes of a frame not yet complete. */
  class Framer {
    const kind: FramerType
    const decoder: ServerDecoder
    var buffer: seq<Byte>

    constructor (kind: FramerType, decoder: ServerDecoder)
      ensures this.kind == kind && this.decoder == decoder && buffer == []
    {
      this.kind := kind;
      this.decoder := decoder;
      buffer := [];
    }

    /** Appends the delivered bytes to the buffer, hands back the complete
        requests and keeps the remainder. */
    method ProcessIncomingPacket(data: seq<Byte>) returns (requests: seq<Request>)
      modifies this
      ensures var x := kind.split(old(buffer) + data);
        requests == x.requests && buffer == x.rest
    {
      var x := kind.split(buffer + data);
      requests := x.requests;
      buffer := x.rest;
    }
  }
}
