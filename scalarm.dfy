/** Definitions shared by the two experiment clients. */
module Scalarm {

  /** The exceptions the modelled code raises, one constructor per exception class. */
  datatype Error =
    | NoActiveSimulationManagers   // NoActiveSimulationManagersException
    | Timeout                      // System.TimeoutException
    | NotProxyCertClient           // the plain Exception thrown when the client holds no proxy certificate
    | NullReference                // a member access on a null argument
    | ArgumentNull                 // ArgumentNullException (only in the corrected builders)
    | ArgumentOutOfRange           // ArgumentOutOfRangeException from Thread.Sleep on a negative time
    | DuplicateKey                 // ArgumentException from Dictionary.Add on a key already present
    | SchedulePointFailed          // SchedulePointException
    | InvalidResponse              // InvalidResponseException
    | MarkAsCompleteFailed         // the plain Exception thrown by MarkAsComplete
    | Transport(message: string)   // whatever the HTTP layer raises; that layer is not part of this model

  const MinInt32: int := -0x8000_0000
  const MaxInt32: int := 0x7fff_ffff

  /** The C# `int` type. */
  type Int32 = x: int | MinInt32 <= x <= MaxInt32

  /** Two's-complement truncation of an unbounded integer to 32 bits, as unchecked C# arithmetic does. */
  function Wrap32(x: int): (r: Int32)
    ensures MinInt32 <= x <= MaxInt32 ==> r == x
    ensures (r - x) % 0x1_0000_0000 == 0
  {
    (x - MinInt32) % 0x1_0000_0000 + MinInt32
  }

  /** C# integer division, which truncates toward zero (Dafny's `/` is Euclidean). */
  function TruncatedDiv(a: int, b: int): int
    requires b > 0
  {
    if a >= 0 then a / b else -((-a) / b)
  }
}
