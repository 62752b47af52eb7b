/** The configuration values of anyserial and the small types every component shares. */
module Types {

  datatype Option<+T> = None | Some(value: T)

  type Byte = bv8

  datatype ByteSize = Five | Six | Seven | Eight

  datatype Parity = NoParity | Odd | Even | Mark | Space

  datatype StopBits = One | OnePointFive | Two

  datatype UnsupportedPolicy = Raise | Warn | Ignore

  datatype FlowControl = FlowControl(xonXoff: bool, rtsCts: bool, dtrDsr: bool)

  /** What passes for a non-negative float: seconds kept as a real, or a value that is no number of them. */
  datatype Delay = Seconds(seconds: real) | Infinite | NotANumber

  /** Kernel RS-485 request. */
  datatype RS485Config = RS485Config(
    enabled: bool,
    rtsOnSend: bool,
    rtsAfterSend: bool,
    delayBeforeSend: Delay,
    delayAfterSend: Delay,
    rxDuringTx: bool)
  {
    predicate FiniteDelays() {
      delayBeforeSend.Seconds? && delayAfterSend.Seconds?
    }
  }

  datatype SerialConfig = SerialConfig(
    baudrate: int,
    byteSize: ByteSize,
    parity: Parity,
    stopBits: StopBits,
    flow: FlowControl,
    exclusive: bool,
    hangupOnClose: bool,
    lowLatency: bool,
    readChunkSize: int,
    rs485: Option<RS485Config>,
    policy: UnsupportedPolicy)
  {
    /** What the constructor of SerialConfig validates. */
    predicate Valid() {
      baudrate > 0 && 64 <= readChunkSize <= 0x100_0000
    }
  }
}
