/** The transport-neutral downstream request and its validation. */
module DownstreamExecutor {
  import opened Words
  import opened IngressWork

  datatype DownstreamOperation =
    | ReadCoils | ReadDiscreteInputs | ReadHoldingRegisters | ReadInputRegisters
    | WriteSingleCoil | WriteSingleHoldingRegister | WriteMultipleCoils | WriteMultipleHoldingRegisters
    | UnknownOperation(code: u8)

  datatype DownstreamRequest = DownstreamRequest(
    sequence: u32,
    operation: DownstreamOperation,
    endpointId: u8,
    startAddress: u16,
    quantity: u16,
    coilBuffer: Buffer,
    registerBuffer: Buffer,
    coilValue: Value,
    registerValue: Value,
    consistencyContext: Handle)

  const NO_REQUEST: DownstreamRequest :=
    DownstreamRequest(0, ReadCoils, 0, 0, 0, Null, Null, Bit(false), Register(0), NULL_HANDLE)

  datatype DownstreamRequestStatus = ValidRequest | InvalidQuantity | InvalidBuffer | InvalidOperation

  function ValidateDownstreamRequest(request: DownstreamRequest): DownstreamRequestStatus {
    match request.operation
    case ReadCoils | ReadDiscreteInputs | WriteMultipleCoils =>
      if request.quantity == 0 then InvalidQuantity
      else if request.coilBuffer.Null? then InvalidBuffer else ValidRequest
    case ReadHoldingRegisters | ReadInputRegisters | WriteMultipleHoldingRegisters =>
      if request.quantity == 0 then InvalidQuantity
      else if request.registerBuffer.Null? then InvalidBuffer else ValidRequest
    case WriteSingleCoil | WriteSingleHoldingRegister => ValidRequest
    case UnknownOperation(_) => InvalidOperation
  }

  predicate IsPollOperation(operation: DownstreamOperation) {
    operation in {ReadCoils, ReadDiscreteInputs, ReadHoldingRegisters, ReadInputRegisters}
  }

  predicate IsCoilOperation(operation: DownstreamOperation) {
    operation in {ReadCoils, ReadDiscreteInputs, WriteSingleCoil, WriteMultipleCoils}
  }

  predicate IsSingleWrite(operation: DownstreamOperation) {
    operation in {WriteSingleCoil, WriteSingleHoldingRegister}
  }

  /** A single write carries its value; every other known operation needs a quantity and the buffer of
      its own register size. */
  lemma {:induction false} ValidExactly(request: DownstreamRequest)
    ensures var status, operation := ValidateDownstreamRequest(request), request.operation;
            var transfers := !operation.UnknownOperation? && !IsSingleWrite(operation);
            var buffer := if IsCoilOperation(operation) then request.coilBuffer else request.registerBuffer;
            && (status.InvalidOperation? <==> operation.UnknownOperation?)
            && (status.InvalidQuantity? <==> transfers && request.quantity == 0)
            && (status.InvalidBuffer? <==> transfers && request.quantity != 0 && buffer.Null?)
  {}
}
