/** Shared Modbus vocabulary: the crates `mb-types` and `mb-proto`, plus the raw
    value types that the poller's cache stores. */
module MbTypes {

  datatype Option<+T> = None | Some(value: T)

  /** A tag's dense index (`TagId.0`). */
  type TagId = nat

  /** A 16-bit register value. */
  type Word = w: int | 0 <= w < 0x1_0000

  type Byte = b: int | 0 <= b < 0x100

  /** The number of addresses in each Modbus area. */
  const ADDRESS_SPACE: nat := 0x1_0000

  /** Rust's `as u16`. */
  function TruncU16(n: nat): Word {
    n % 0x1_0000
  }

  /** Rust's `saturating_sub` on unsigned integers. */
  function SatSub(a: nat, b: nat): nat {
    if a >= b then a - b else 0
  }

  function Max(a: nat, b: nat): nat {
    if a >= b then a else b
  }

  function Min(a: nat, b: nat): nat {
    if a <= b then a else b
  }

  function Pow2(k: nat): (p: nat)
    ensures p > 0
  {
    if k == 0 then 1 else 2 * Pow2(k - 1)
  }

  // ----- Lists of numbers -----

  ghost predicate Distinct(s: seq<nat>) {
    forall i, j :: 0 <= i < j < |s| ==> s[i] != s[j]
  }

  ghost predicate StrictlyAscending(s: seq<nat>) {
    forall i, j :: 0 <= i < j < |s| ==> s[i] < s[j]
  }

  datatype Area = Coils | DiscreteInputs | Holding | Input {
    predicate IsBitDomain() {
      Coils? || DiscreteInputs?
    }

    /** Response cap in this area's own units, sections 6.1 to 6.4 of the MODBUS
        Application Protocol Specification V1.1b3. */
    function MaxQty(): nat {
      if IsBitDomain() then 2000 else 125
    }
  }

  datatype Quality = Good | Uncertain | Bad

  datatype RawValue =
    | Bits(bits: seq<bool>)
    | Registers(words: seq<Word>)
    | Raw(bytes: seq<Byte>)
    | Absent

  /** The kind of raw value that a tag's one read function answers with. */
  datatype RawKind = OfBits | OfRegisters | OfBytes {
    predicate Admits(raw: RawValue) {
      match raw
      case Absent => true
      case Bits(_) => OfBits?
      case Registers(_) => OfRegisters?
      case Raw(_) => OfBytes?
    }
  }

  /** One cache slot; `seq` counts value writes only. */
  datatype Snapshot = Snapshot(value: RawValue, quality: Quality, seqNo: nat)

  /** One value on its way into the cache. */
  type Update = (TagId, RawValue)

  /** The content of a slot that no poll has filled yet. */
  const NEVER_READ: Snapshot := Snapshot(Absent, Bad, 0)
}

/** Requests and replies on the wire. */
module MbProto {
  import opened MbTypes

  /** The four read functions differ only in the area they address. */
  datatype Request =
    | Read(area: Area, addr: Word, qty: Word)
    | WriteSingleCoil(coil: Word, on: bool)
    | WriteSingleRegister(register: Word, word: Word)
    | WriteMultipleCoils(firstCoil: Word, coils: seq<bool>)
    | WriteMultipleRegisters(firstRegister: Word, words: seq<Word>)
    | Custom(code: Byte, data: seq<Byte>, expectLen: Option<Word>)

  datatype Response =
    | BitReply(bits: seq<bool>)
    | RegisterReply(words: seq<Word>)
    | RawReply(bytes: seq<Byte>)
    | WriteAck

  /** The exception codes the poller tells apart; section 7 of the MODBUS
      Application Protocol Specification V1.1b3. */
  datatype ExceptionCode =
    | IllegalDataAddress
    | ServerDeviceBusy
    | GatewayTargetDevice
    | OtherException

  datatype ProtoError =
    | Io
    | Timeout
    | Exception(code: ExceptionCode)
    | Protocol
    | Resolve
    | NotConnected
  {
    predicate IsFatal() {
      Io? || Protocol? || Resolve? || NotConnected?
    }
  }

  datatype Reply = Ok(resp: Response) | Err(error: ProtoError) {
    predicate IsTimeout() {
      Err? && error.Timeout?
    }

    predicate IsFatal() {
      Err? && error.IsFatal()
    }

    /** The slave answered: with data, or with an exception. */
    predicate IsAnswer() {
      Ok? || error.Exception?
    }
  }
}
