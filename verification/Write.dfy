/** From an engineering value to register words: `opcua-gateway/src/write.rs`, over
    the reals. */
module Write {
  import opened MbTypes
  import opened MbProto
  import opened Typed
  import opened Formula
  import opened Decode

  datatype Inverse = NoInverse | LinearInverse(scale: real, offset: real) | ExprInverse(eval: real -> Option<real>)

  datatype WriteFn = SingleCoil | MultipleCoils | SingleRegister | MultipleRegisters | AutoRegisters

  datatype WritePlan = WritePlan(address: Word, writeFn: WriteFn, decode: DecodeMeta, inverse: Inverse)

  datatype Status = BadTypeMismatch | BadOutOfRange | BadInvalidArgument

  datatype Converted = Accepted(req: Request) | Refused(status: Status)

  /** Rust's `round`: to the nearest integer, halves away from zero. */
  function Round(x: real): int {
    if x >= 0.0 then (x + 0.5).Floor else -((-x + 0.5).Floor)
  }

  /** The engineering value of `n` is off by at most half a step. */
  lemma RoundIsNear(x: real)
    ensures -0.5 <= x - Round(x) as real <= 0.5
    ensures x == x.Floor as real ==> Round(x) == x.Floor
  {
  }

  /** `raw_to_typed`, for the integer types. The bounds are the floats nearest to
      the 64-bit limits, so the upper one admits one integer too many, which the
      cast then cuts. */
  function RawToTyped(raw: real, dt: DataType): Option<TypedValue>
    requires dt.IsUnsigned() || dt.IsSigned()
  {
    var n := Round(raw);
    if dt.IsUnsigned() then
      if n < 0 || n > TWO_64 then None else Some(UInt(Saturate(n, 0, TWO_64 - 1)))
    else
      if n < -(TWO_64 / 2) || n > TWO_64 / 2 then None
      else Some(Int(Saturate(n, -(TWO_64 / 2), TWO_64 / 2 - 1)))
  }

  function Unscaled(scale: real, offset: real, engineering: real): real
    requires scale != 0.0
  {
    (engineering - offset) / scale
  }

  function RawOf(inverse: Inverse, engineering: real): Option<real>
    requires inverse.LinearInverse? ==> inverse.scale != 0.0
  {
    match inverse
    case NoInverse => Some(engineering)
    case LinearInverse(scale, offset) => Some(Unscaled(scale, offset, engineering))
    case ExprInverse(eval) => eval(engineering)
  }

  function RegisterRequest(plan: WritePlan, words: seq<Word>): Converted {
    match plan.writeFn
    case SingleRegister =>
      if |words| != 1 then Refused(BadTypeMismatch) else Accepted(WriteSingleRegister(plan.address, words[0]))
    case MultipleRegisters => Accepted(WriteMultipleRegisters(plan.address, words))
    case _ =>
      if |words| == 1 then Accepted(WriteSingleRegister(plan.address, words[0]))
      else Accepted(WriteMultipleRegisters(plan.address, words))
  }

  /** `to_request` for a finite number and an integer or coil target. Validation
      excludes a zero scale. */
  function ToRequest(plan: WritePlan, engineering: real): Converted
    requires plan.inverse.LinearInverse? ==> plan.inverse.scale != 0.0
    requires plan.decode.dataType.IsUnsigned() || plan.decode.dataType.IsSigned()
             || plan.writeFn.SingleCoil? || plan.writeFn.MultipleCoils?
  {
    match RawOf(plan.inverse, engineering)
    case None => Refused(BadInvalidArgument)
    case Some(raw) =>
      match plan.writeFn
      case SingleCoil => Accepted(WriteSingleCoil(plan.address, raw != 0.0))
      case MultipleCoils => Accepted(WriteMultipleCoils(plan.address, [raw != 0.0]))
      case _ =>
        match RawToTyped(raw, plan.decode.dataType)
        case None => Refused(BadOutOfRange)
        case Some(typed) =>
          match Encode(typed, plan.decode)
          case Err(_) => Refused(BadTypeMismatch)
          case Ok(words) => RegisterRequest(plan, words)
  }

  /** The words a register write carries. */
  function WordsOf(req: Request): seq<Word>
    requires req.WriteSingleRegister? || req.WriteMultipleRegisters?
  {
    if req.WriteSingleRegister? then [req.word] else req.words
  }

  predicate IsRegisterPlan(plan: WritePlan) {
    && (plan.decode.dataType.IsUnsigned() || plan.decode.dataType.IsSigned())
    && !plan.writeFn.SingleCoil? && !plan.writeFn.MultipleCoils?
    && (plan.inverse.LinearInverse? ==> plan.inverse.scale != 0.0)
    && (plan.writeFn.SingleRegister? ==> plan.decode.dataType.RegisterCount() == Some(1))
  }

  /** The top of a 64-bit type, which the range check misses by one. */
  predicate OneTooMany(raw: real, dt: DataType) {
    dt.Span() == TWO_64 && Round(raw) == if dt.IsUnsigned() then TWO_64 else TWO_64 / 2
  }

  /** The first register of a request. */
  function AddressOf(req: Request): Word
    requires req.WriteSingleRegister? || req.WriteMultipleRegisters?
  {
    if req.WriteSingleRegister? then req.register else req.firstRegister
  }

  /** A register write is accepted exactly when the rounded raw value fits the type
      (or is the one integer too many of a 64-bit type), and then carries exactly
      that integer, cut in the latter case, to the plan's address with the plan's
      function: it never wraps. */
  lemma AcceptedWritesCarryTheValue(plan: WritePlan, engineering: real)
    requires IsRegisterPlan(plan) && RawOf(plan.inverse, engineering).Some?
    ensures var dt := plan.decode.dataType; var raw := RawOf(plan.inverse, engineering).value;
            var r := ToRequest(plan, engineering);
            && (r.Accepted? <==> dt.Fits(Round(raw)) || OneTooMany(raw, dt))
            && (r.Accepted? ==>
                  var n := Kept(raw, dt);
                  && (r.req.WriteSingleRegister? || r.req.WriteMultipleRegisters?)
                  && (r.req.WriteSingleRegister? <==>
                        plan.writeFn.SingleRegister? || (plan.writeFn.AutoRegisters? && (dt.U16? || dt.I16?)))
                  && AddressOf(r.req) == plan.address
                  && dt.Fits(n)
                  && DecodeInteger(WordsOf(r.req), plan.decode) == Result.Ok(Value(Native(dt, n))))
  {
    var dt := plan.decode.dataType;
    var raw := RawOf(plan.inverse, engineering).value;
    if RawToTyped(raw, dt).Some? {
      var typed := RawToTyped(raw, dt).value;
      EncodeThenDecode(typed, plan.decode);
      if Encode(typed, plan.decode).Ok? {
        var words := Encode(typed, plan.decode).value;
        assert |words| == 1 ==> [words[0]] == words;
      }
    }
  }

  /** A refused register write tells whether the value is beyond 64 bits, or only
      beyond its type, or has no raw value at all. */
  lemma RefusalTellsWhy(plan: WritePlan, engineering: real)
    requires IsRegisterPlan(plan) && ToRequest(plan, engineering).Refused?
    ensures var raw := RawOf(plan.inverse, engineering); var dt := plan.decode.dataType;
            var least := if dt.IsUnsigned() then 0 else -0x8000_0000_0000_0000;
            var most := if dt.IsUnsigned() then 0x1_0000_0000_0000_0000 else 0x8000_0000_0000_0000;
            ToRequest(plan, engineering)
            == Refused(if raw.None? then BadInvalidArgument
                       else if least <= Round(raw.value) <= most then BadTypeMismatch else BadOutOfRange)
  {
    if RawOf(plan.inverse, engineering).Some? {
      var dt, raw := plan.decode.dataType, RawOf(plan.inverse, engineering).value;
      if RawToTyped(raw, dt).Some? {
        EncodeThenDecode(RawToTyped(raw, dt).value, plan.decode);
      }
    }
  }

  /** A coil is switched on by every raw value but zero, at the plan's address. */
  lemma CoilIsNotZero(plan: WritePlan, engineering: real, raw: real)
    requires plan.writeFn.SingleCoil? || plan.writeFn.MultipleCoils?
    requires match plan.inverse
             case NoInverse => raw == engineering
             case LinearInverse(scale, offset) => scale != 0.0 && raw * scale == engineering - offset
             case ExprInverse(eval) => eval(engineering) == Some(raw)
    ensures ToRequest(plan, engineering)
         == Accepted(if plan.writeFn.SingleCoil? then WriteSingleCoil(plan.address, raw != 0.0)
                     else WriteMultipleCoils(plan.address, [raw != 0.0]))
  {
    if plan.inverse.LinearInverse? {
      DivideBack(engineering - plan.inverse.offset, plan.inverse.scale);
      MultiplyOut(raw, Unscaled(plan.inverse.scale, plan.inverse.offset, engineering), plan.inverse.scale);
    }
  }

  lemma MultiplyOut(a: real, b: real, scale: real)
    requires scale != 0.0 && a * scale == b * scale
    ensures a == b
  {
    assert (a - b) * scale == 0.0;
  }

  function Distance(a: real, b: real): real {
    if a >= b then a - b else b - a
  }

  /** What the tag's linear transform reads back when its register holds `n`. */
  function ReadBack(scale: real, offset: real, n: int, dt: DataType): Option<real>
    requires dt.Fits(n)
  {
    match Linear(scale, offset).Apply(Native(dt, n), [])
    case Some(v) => v.Number()
    case None => None
  }

  lemma ReadBackIsLinear(scale: real, offset: real, n: int, dt: DataType)
    requires dt.Fits(n)
    ensures ReadBack(scale, offset, n, dt) == Some(Scaled(n as real, scale, offset))
  {
    if scale == 1.0 && offset == 0.0 {
      ScaledByOne(n as real);
    }
  }

  lemma ScaledByOne(x: real)
    ensures Scaled(x, 1.0, 0.0) == x
  {
  }

  lemma DivideBack(x: real, scale: real)
    requires scale != 0.0
    ensures x / scale * scale == x
  {
  }

  lemma ScaleGrows(a: real, b: real, scale: real)
    requires scale > 0.0
    ensures a <= b <==> a * scale <= b * scale
  {
    if a <= b {
      assert (b - a) * scale >= 0.0;
    } else {
      assert (a - b) * scale > 0.0;
    }
  }

  lemma MulSigns(x: real, y: real)
    requires x >= 0.0 && y >= 0.0
    ensures x * y >= 0.0
  {
  }

  lemma Negated(x: real, y: real)
    ensures (0.0 - x) * y == 0.0 - x * y
    ensures x * (0.0 - y) == 0.0 - x * y
    ensures (0.0 - x) * (0.0 - y) == x * y
  {
  }

  lemma ScaleDifference(a: real, b: real, scale: real)
    ensures a * scale - b * scale == (a - b) * scale
  {
  }

  lemma ScaleDistance(a: real, b: real, scale: real)
    ensures Distance(a * scale, b * scale) == Distance(a, b) * Distance(scale, 0.0)
  {
    ScaleDifference(a, b, scale);
    var d := a - b;
    if d >= 0.0 && scale >= 0.0 {
      MulSigns(d, scale);
    } else if d >= 0.0 {
      MulSigns(d, 0.0 - scale);
      Negated(d, scale);
    } else if scale >= 0.0 {
      MulSigns(0.0 - d, scale);
      Negated(d, scale);
    } else {
      MulSigns(0.0 - d, 0.0 - scale);
      Negated(d, scale);
    }
  }

  /** An error in the register is an error of as many steps in the value. */
  lemma ErrorInSteps(raw: real, n: int, scale: real)
    requires scale != 0.0
    ensures Distance(n as real * scale, raw * scale) <= Distance(scale, 0.0) / 2.0 <==> Distance(raw, n as real) <= 0.5
  {
    ScaleDistance(n as real, raw, scale);
    HalfStep(Distance(n as real, raw), Distance(scale, 0.0), Distance(n as real * scale, raw * scale));
  }

  lemma HalfStep(gap: real, step: real, error: real)
    requires step > 0.0 && error == gap * step
    ensures error <= step / 2.0 <==> gap <= 0.5
  {
    ScaleGrows(gap, 0.5, step);
  }

  /** The integer an accepted write leaves in the register. */
  function Kept(raw: real, dt: DataType): int {
    if OneTooMany(raw, dt) then Round(raw) - 1 else Round(raw)
  }

  /** Whether the register is close to the raw value can be told before the write. */
  lemma KeptIsClose(raw: real, dt: DataType)
    requires dt.IsUnsigned() || dt.IsSigned()
    requires dt.Fits(Round(raw)) || OneTooMany(raw, dt)
    ensures Distance(raw, Kept(raw, dt) as real) <= 0.5 <==> raw <= dt.Top() as real + 0.5
    ensures dt.Span() < TWO_64 ==> raw <= dt.Top() as real + 0.5
  {
    RoundIsNear(raw);
  }

  /** The scale and offset of a tag's linear transform; a plan has no inverse just
      when they are one and zero. */
  function ScaleOf(inverse: Inverse): real {
    if inverse.LinearInverse? then inverse.scale else 1.0
  }

  function OffsetOf(inverse: Inverse): real {
    if inverse.LinearInverse? then inverse.offset else 0.0
  }

  lemma RawIsUnscaled(inverse: Inverse, engineering: real)
    requires !inverse.ExprInverse? && ScaleOf(inverse) != 0.0
    ensures RawOf(inverse, engineering) == Some(Unscaled(ScaleOf(inverse), OffsetOf(inverse), engineering))
  {
  }

  /** The register that an accepted write of a linear tag leaves, read back through
      the tag's transform, is within half a step of the request if and only if the
      raw value is at most one half above the type's largest integer. For 16 and 32
      bits it always is. */
  lemma WrittenValueReadsBack(plan: WritePlan, engineering: real)
    requires IsRegisterPlan(plan) && !plan.inverse.ExprInverse? && ToRequest(plan, engineering).Accepted?
    ensures var scale, offset := ScaleOf(plan.inverse), OffsetOf(plan.inverse); var dt := plan.decode.dataType;
            var raw := Unscaled(scale, offset, engineering);
            var n := Kept(raw, dt); var r := ToRequest(plan, engineering);
            && dt.Fits(n) && (r.req.WriteSingleRegister? || r.req.WriteMultipleRegisters?)
            && DecodeInteger(WordsOf(r.req), plan.decode) == Result.Ok(Value(Native(dt, n)))
            && ReadBack(scale, offset, n, dt).Some?
            && (Distance(ReadBack(scale, offset, n, dt).value, engineering) <= Distance(scale, 0.0) / 2.0
                <==> raw <= dt.Top() as real + 0.5)
            && (dt.Span() < TWO_64 ==> raw <= dt.Top() as real + 0.5)
  {
    var scale, offset, dt := ScaleOf(plan.inverse), OffsetOf(plan.inverse), plan.decode.dataType;
    RawIsUnscaled(plan.inverse, engineering);
    AcceptedWritesCarryTheValue(plan, engineering);
    var raw := Unscaled(scale, offset, engineering);
    KeptIsClose(raw, dt);
    var y := ReadBackValue(scale, offset, engineering, Kept(raw, dt), dt);
  }

  /** An unsigned 64-bit tag accepts the request, holds its largest integer, and
      reads back a full step off. */
  predicate OffByAStep(inverse: Inverse, engineering: real)
    requires !inverse.ExprInverse? && ScaleOf(inverse) != 0.0
  {
    var plan := WritePlan(0, AutoRegisters, DecodeMeta(U64, BigEndian, BigEndian, None), inverse);
    var r := ToRequest(plan, engineering);
    && r.Accepted? && r.req.WriteMultipleRegisters?
    && DecodeInteger(r.req.words, plan.decode) == Result.Ok(Value(UInt(TWO_64 - 1)))
    && ReadBack(ScaleOf(inverse), OffsetOf(inverse), TWO_64 - 1, U64) == Some(engineering - ScaleOf(inverse))
  }

  /** Above that guard it fails: for 2^64 without an inverse, and for 2^65 with a
      scale of two. Both requests are exact double-precision numbers. */
  lemma TopOfSixtyFourBitsIsOff()
    ensures OffByAStep(NoInverse, TWO_64 as real)
    ensures OffByAStep(LinearInverse(2.0, 0.0), 2.0 * TWO_64 as real)
  {
    TopIsOff(NoInverse, TWO_64 as real);
    TopIsOff(LinearInverse(2.0, 0.0), 2.0 * TWO_64 as real);
  }

  lemma TopIsOff(inverse: Inverse, engineering: real)
    requires !inverse.ExprInverse? && ScaleOf(inverse) != 0.0
    requires Unscaled(ScaleOf(inverse), OffsetOf(inverse), engineering) == TWO_64 as real
    requires engineering == TWO_64 as real * ScaleOf(inverse) + OffsetOf(inverse)
    ensures OffByAStep(inverse, engineering)
  {
    var plan := WritePlan(0, AutoRegisters, DecodeMeta(U64, BigEndian, BigEndian, None), inverse);
    RawIsUnscaled(inverse, engineering);
    assert OneTooMany(TWO_64 as real, U64);
    AcceptedWritesCarryTheValue(plan, engineering);
    ReadBackIsLinear(ScaleOf(inverse), OffsetOf(inverse), TWO_64 - 1, U64);
    ScaleDifference(TWO_64 as real, 1.0, ScaleOf(inverse));
    ScaledByOne(ScaleOf(inverse));
  }

  lemma ReadBackValue(scale: real, offset: real, engineering: real, n: int, dt: DataType) returns (y: real)
    requires scale != 0.0 && dt.Fits(n)
    ensures ReadBack(scale, offset, n, dt) == Some(y)
    ensures Distance(y, engineering) <= Distance(scale, 0.0) / 2.0
            <==> Distance(Unscaled(scale, offset, engineering), n as real) <= 0.5
  {
    y := Scaled(n as real, scale, offset);
    ReadBackIsLinear(scale, offset, n, dt);
    CloseValueMeansCloseRegister(scale, offset, engineering, n);
  }

  lemma CloseValueMeansCloseRegister(scale: real, offset: real, engineering: real, n: int)
    requires scale != 0.0
    ensures Distance(Scaled(n as real, scale, offset), engineering) <= Distance(scale, 0.0) / 2.0
            <==> Distance(Unscaled(scale, offset, engineering), n as real) <= 0.5
  {
    var raw := Unscaled(scale, offset, engineering);
    DivideBack(engineering - offset, scale);
    ErrorInSteps(raw, n, scale);
    Shift(n as real * scale, raw * scale, offset, engineering);
  }

  lemma Shift(a: real, b: real, offset: real, engineering: real)
    requires b == engineering - offset
    ensures Distance(a + offset, engineering) == Distance(a, b)
  {
  }
}
