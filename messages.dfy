/** Protocol messages as the dispatch core sees them: decoded requests,
    responses, the per-unit data an execution works on, and the outcome of
    running a request against that data. */
module Messages {

  datatype Option<T> = None | Some(value: T)

  /** One octet on the wire. */
  type Byte = x: int | 0 <= x < 0x100

  /** The MBAP transaction identifier, a 16-bit field. */
  type TransactionId = x: int | 0 <= x < 0x1_0000

  /** The MBAP unit identifier, one octet. */
  type UnitId = Byte

  type FunctionCode = Byte

  /** Exception code 04, "Server Device Failure" (section 7 of the Modbus
      Application Protocol Specification V1.1b); the source names it
      SlaveFailure. */
  const SlaveFailure: Byte := 0x04

  /** The protocol data unit of a response: a normal answer, or an exception
      answer that remembers the function code of the request it refuses. */
  datatype Pdu =
    | Normal(functionCode: FunctionCode, data: seq<int>)
    | ExceptionPdu(originalCode: FunctionCode, exceptionCode: Byte)

  datatype Response = Response(transactionId: TransactionId, unitId: UnitId, pdu: Pdu)

  /** The data of one unit: its four addressable blocks (discrete inputs,
      coils, holding registers, input registers). */
  datatype SlaveContext = SlaveContext(
    discreteInputs: seq<bool>,
    coils: seq<bool>,
    holdingRegisters: seq<int>,
    inputRegisters: seq<int>)

  /** What running a request against a unit's data gives: a response together
      with the unit's data afterwards (a write changes it), or a failure (the
      exception the request's own code raises). */
  datatype Outcome = Executed(response: Response, after: SlaveContext) | Failed

  /** A decoded request. Its behaviour against a unit's data belongs to the
      request itself, as each request class carries its own execute. */
  datatype Request = Request(
    transactionId: TransactionId,
    unitId: UnitId,
    functionCode: FunctionCode,
    execute: SlaveContext -> Outcome)
  {
    /** The exception response this request answers with when it cannot be
        served; its correlation fields are left at their defaults (zero). */
    function DoException(code: Byte): (r: Response) {
      Response(0, 0, ExceptionPdu(functionCode, code))
    }
  }

  /** A response answers a request when it echoes the request's MBAP
      correlation fields (section 3.1.3 of the Modbus Messaging on TCP/IP
      Implementation Guide). */
  predicate Correlated(response: Response, request: Request) {
    response.transactionId == request.transactionId && response.unitId == request.unitId
  }
}
