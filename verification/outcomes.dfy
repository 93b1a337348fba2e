/** Optional values and the results of operations that the interpreter would
    abort on. Every `Fault` stands for a panic of the Rust interpreter. */
module Outcomes {

  datatype Option<+T> = None | Some(value: T)

  datatype Fault =
    | UnknownOpcode(opcode: int)
      // the catch-all arm of the instruction dispatch
    | FetchOutOfRange(pc: int)
      // the second opcode byte lies past the end of memory
    | RamOutOfRange(start: int, length: int)
      // a read or write of `length` bytes at `start` leaves memory
    | StackOverflow
      // a CALL with all sixteen stack slots in use
    | StackUnderflow
      // a RET with an empty stack
    | KeyOutOfRange(key: int)
      // a key test on a register value that names no key
    | IndexOverflow
      // the 16-bit index register overflows on ADD I, Vx
    | TimerUnderflow
      // the delay counter is decremented below zero

  datatype Result<+T> = Ok(value: T) | Err(fault: Fault) {
    predicate IsFailure() {
      Err?
    }

    function PropagateFailure<U>(): Result<U>
      requires Err?
    {
      Err(fault)
    }

    function Extract(): T
      requires Ok?
    {
      value
    }
  }
}
