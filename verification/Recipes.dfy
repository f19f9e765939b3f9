/** A register's decode settings and transform as the engine's recipe: how
    `TagMeta` is compiled in `tags-core/src/engine.rs`. */
module Recipes {
  import opened MbTypes
  import opened Typed
  import opened Formula
  import opened Decode
  import opened Waves

  /** What the model does not look into: float bit patterns and text. */
  datatype Codecs = Codecs(toFloat: nat -> Option<real>, toText: seq<Byte> -> string)

  function TypedOf(r: Result<Decoded>, codecs: Codecs): Option<TypedValue> {
    match r
    case Err(_) => None
    case Ok(Value(v)) => Some(v)
    case Ok(FloatBits(bits)) =>
      (match codecs.toFloat(bits)
       case Some(x) => Some(Float(x))
       case None => Some(NotFinite))
    case Ok(Characters(bytes)) => Some(Text(codecs.toText(bytes)))
  }

  function Compile(meta: DecodeMeta, transform: Transform, deadband: Option<real>, codecs: Codecs): TagMeta {
    TagMeta(raw => TypedOf(DecodeRaw(raw, meta), codecs), transform, deadband)
  }

  /** A compiled recipe decodes registers as their data type says, a bit area as its
      first bit and a vendor reply as its bytes; what was never read, not at all. */
  lemma CompiledDecodes(meta: DecodeMeta, transform: Transform, deadband: Option<real>, codecs: Codecs, regs: seq<Word>,
                        bits: seq<bool>, bytes: seq<Byte>)
    ensures var decode := Compile(meta, transform, deadband, codecs).decode;
            && Compile(meta, transform, deadband, codecs).transform == transform
            && Compile(meta, transform, deadband, codecs).deadband == deadband
            && (match DecodeRegisters(regs, meta)
                case Ok(Value(v)) => decode(Registers(regs)) == Some(v)
                case Ok(FloatBits(pattern)) =>
                  decode(Registers(regs)) == (if codecs.toFloat(pattern).Some?
                                              then Some(Float(codecs.toFloat(pattern).value)) else Some(NotFinite))
                case Ok(Characters(text)) => decode(Registers(regs)) == Some(Text(codecs.toText(text)))
                case Err(_) => decode(Registers(regs)) == None)
            && decode(Bits(bits)) == (if bits == [] then None else Some(Bool(bits[0])))
            && decode(Raw(bytes)) == Some(TypedValue.Bytes(bytes)) && decode(Absent) == None
  {
  }

  lemma DecodesToOneKind(raw: RawValue, kind: RawKind, meta: DecodeMeta, codecs: Codecs)
    requires kind.Admits(raw)
    ensures var v := TypedOf(DecodeRaw(raw, meta), codecs);
            v.Some? ==>
              if kind.OfBytes? then v.value.Bytes?
              else if kind.OfRegisters? && meta.dataType.Ascii? then v.value.Text?
              else v.value.NotFinite? || v.value.Number().Some?
  {
  }

  /** A compiled recipe yields numbers only, or none: text from an ascii register,
      or the bytes of a vendor reply, unless a formula leaves them unread. */
  lemma CompiledIsStable(meta: DecodeMeta, transform: Transform, deadband: Option<real>, codecs: Codecs, kind: RawKind)
    ensures var others := transform.UsesRaw() && (kind.OfBytes? || (kind.OfRegisters? && meta.dataType.Ascii?));
            var recipe := Compile(meta, transform, deadband, codecs);
            && StableRecipe(recipe, kind)
            && (if others then YieldsOthers(recipe, kind) else YieldsNumbers(recipe, kind))
  {
    var recipe := Compile(meta, transform, deadband, codecs);
    var others := transform.UsesRaw() && (kind.OfBytes? || (kind.OfRegisters? && meta.dataType.Ascii?));
    forall raw: RawValue, numbers: seq<Option<real>> | kind.Admits(raw) && Formula.Value(recipe, raw, numbers).Usable?
      ensures Formula.Value(recipe, raw, numbers).value.Number().Some? <==> !others
    {
      DecodesToOneKind(raw, kind, meta, codecs);
    }
  }
}
