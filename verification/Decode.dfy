/** Register words to typed values and back: `tags-core/src/decode.rs`. Floats stay
    bit patterns, text stays bytes. */
module Decode {
  import opened MbTypes
  import opened Typed

  const BASE: nat := 0x1_0000
  const TWO_32: nat := 0x1_0000_0000
  const TWO_64: nat := 0x1_0000_0000_0000_0000

  datatype DataType = Bit | U16 | I16 | U32 | I32 | U64 | I64 | F32 | F64 | Bcd | Ascii | Bitfield {
    /** Register span of the fixed-width types. */
    function RegisterCount(): Option<nat> {
      match this
      case Bit => Some(1)
      case U16 => Some(1)
      case I16 => Some(1)
      case Bitfield => Some(1)
      case U32 => Some(2)
      case I32 => Some(2)
      case F32 => Some(2)
      case U64 => Some(4)
      case I64 => Some(4)
      case F64 => Some(4)
      case _ => None
    }

    predicate IsUnsigned() {
      U16? || U32? || U64?
    }

    predicate IsSigned() {
      I16? || I32? || I64?
    }

    /** The number of values of an integer type. */
    function Span(): nat {
      match RegisterCount()
      case Some(1) => BASE
      case Some(2) => TWO_32
      case _ => TWO_64
    }

    /** The largest integer of an integer type. */
    function Top(): int {
      if IsUnsigned() then Span() - 1 else Span() / 2 - 1
    }

    /** The integers a type can hold. */
    predicate Fits(n: int) {
      (IsUnsigned() && 0 <= n < Span()) || (IsSigned() && -(Span() / 2) <= n < Span() / 2)
    }
  }

  datatype Endian = BigEndian | LittleEndian

  datatype DecodeMeta = DecodeMeta(dataType: DataType, wordOrder: Endian, byteOrder: Endian, bit: Option<Byte>)

  datatype DecodeError = TooShort | NoBits | BadBcd(word: Word) | BadBitIndex | NotRead | Unsupported

  datatype Result<T> = Ok(value: T) | Err(error: DecodeError)

  /** What one tag's payload decodes to. */
  datatype Decoded = Value(v: TypedValue) | FloatBits(bits: nat) | Characters(bytes: seq<Byte>)

  // ----- Word and byte order -----

  function SwapBytes(w: Word): Word {
    w % 0x100 * 0x100 + w / 0x100
  }

  function Reversed(ws: seq<Word>): (out: seq<Word>)
    ensures |out| == |ws| && forall i :: 0 <= i < |ws| ==> out[i] == ws[|ws| - 1 - i]
  {
    seq(|ws|, i requires 0 <= i < |ws| => ws[|ws| - 1 - i])
  }

  function Swapped(ws: seq<Word>): (out: seq<Word>)
    ensures |out| == |ws| && forall i :: 0 <= i < |ws| ==> out[i] == SwapBytes(ws[i])
  {
    seq(|ws|, i requires 0 <= i < |ws| => SwapBytes(ws[i]))
  }

  /** `ordered_words`: the first `need` registers, most significant word first. */
  function OrderedWords(regs: seq<Word>, need: nat, meta: DecodeMeta): (r: Result<seq<Word>>)
    ensures r.Ok? <==> |regs| >= need
    ensures r.Ok? ==> |r.value| == need
  {
    if |regs| < need then Err(TooShort)
    else
      var words := if meta.byteOrder == LittleEndian then Swapped(regs[..need]) else regs[..need];
      Ok(if meta.wordOrder == LittleEndian then Reversed(words) else words)
  }

  /** The same arrangement undone: word order first, then bytes. */
  function WireWords(words: seq<Word>, meta: DecodeMeta): (out: seq<Word>)
    ensures |out| == |words|
  {
    var ws := if meta.wordOrder == LittleEndian then Reversed(words) else words;
    if meta.byteOrder == LittleEndian then Swapped(ws) else ws
  }

  lemma SwapTwice(w: Word)
    ensures SwapBytes(SwapBytes(w)) == w
  {
    var hi, lo := w / 0x100, w % 0x100;
    assert w == hi * 0x100 + lo;
    assert (lo * 0x100 + hi) / 0x100 == lo && (lo * 0x100 + hi) % 0x100 == hi;
  }

  lemma ArrangeInverse(ws: seq<Word>, meta: DecodeMeta)
    ensures OrderedWords(WireWords(ws, meta), |ws|, meta) == Ok(ws)
    ensures WireWords(OrderedWords(ws, |ws|, meta).value, meta) == ws
  {
    forall w: Word
      ensures SwapBytes(SwapBytes(w)) == w
    {
      SwapTwice(w);
    }
    var wire := WireWords(ws, meta);
    assert wire[..|ws|] == wire && ws[..|ws|] == ws;
    assert Reversed(Reversed(ws)) == ws && Swapped(Swapped(ws)) == ws;
    assert Swapped(Swapped(Reversed(ws))) == Reversed(ws);
    assert Reversed(Swapped(Swapped(Reversed(ws)))) == ws;
    assert Swapped(Reversed(Reversed(Swapped(ws)))) == ws by {
      assert Reversed(Reversed(Swapped(ws))) == Swapped(ws);
    }
  }

  /** The `k`-th most significant word: the k-th register if the most significant one
      comes first, else the k-th from the end; its halves exchanged if the less
      significant byte comes first. Fewer registers than needed are refused. */
  lemma OrderedWordAt(regs: seq<Word>, need: nat, meta: DecodeMeta, k: nat)
    requires k < need
    ensures |regs| < need ==> OrderedWords(regs, need, meta) == Err(TooShort)
    ensures |regs| >= need ==>
              var w := regs[if meta.wordOrder.BigEndian? then k else need - 1 - k];
              OrderedWords(regs, need, meta).value[k]
              == if meta.byteOrder.BigEndian? then w else w % 0x100 * 0x100 + w / 0x100
  {
  }

  // ----- Numbers from words, most significant first -----

  function Combine(ws: seq<Word>): nat {
    if ws == [] then 0 else Combine(ws[..|ws| - 1]) * BASE + ws[|ws| - 1]
  }

  function Split(n: nat, k: nat): (ws: seq<Word>)
    ensures |ws| == k
  {
    if k == 0 then [] else Split(n / BASE, k - 1) + [n % BASE]
  }

  function PowBase(k: nat): nat {
    if k == 0 then 1 else PowBase(k - 1) * BASE
  }

  lemma {:induction false} CombineSplit(n: nat, k: nat)
    requires n < PowBase(k)
    ensures Combine(Split(n, k)) == n
  {
    if k > 0 {
      assert n / BASE < PowBase(k - 1);
      CombineSplit(n / BASE, k - 1);
      assert Split(n, k)[..k - 1] == Split(n / BASE, k - 1);
    }
  }

  lemma {:induction false} SplitCombine(ws: seq<Word>)
    ensures Combine(ws) < PowBase(|ws|)
    ensures Split(Combine(ws), |ws|) == ws
  {
    if ws != [] {
      var n := |ws| - 1;
      SplitCombine(ws[..n]);
      assert Combine(ws) / BASE == Combine(ws[..n]) && Combine(ws) % BASE == ws[n];
    }
  }

  /** `combine_u32` and `combine_u64` by shifts. */
  function Shifted(ws: seq<Word>): nat
    requires |ws| == 1 || |ws| == 2 || |ws| == 4
  {
    if |ws| == 1 then ws[0]
    else if |ws| == 2 then ws[0] * BASE + ws[1]
    else ws[0] * (BASE * TWO_32) + ws[1] * TWO_32 + ws[2] * BASE + ws[3]
  }

  /** Shifting words to their places and joining their bits is adding them there. */
  lemma ShiftsArePlaces32(a: bv32, b: bv32)
    requires a < 0x1_0000 && b < 0x1_0000
    ensures (a << 16) | b == a * 0x1_0000 + b
  {
  }

  lemma ShiftsArePlaces64(a: bv64, b: bv64, c: bv64, d: bv64)
    requires a < 0x1_0000 && b < 0x1_0000 && c < 0x1_0000 && d < 0x1_0000
    ensures (a << 48) | (b << 32) | (c << 16) | d
         == a * 0x1_0000_0000_0000 + b * 0x1_0000_0000 + c * 0x1_0000 + d
  {
  }

  lemma ShiftedIsCombine(ws: seq<Word>)
    requires |ws| == 1 || |ws| == 2 || |ws| == 4
    ensures Shifted(ws) == Combine(ws)
  {
    if |ws| == 1 {
      assert ws[..0] == [];
    } else if |ws| == 2 {
      assert ws[..1][..0] == [];
      assert Combine(ws[..1]) == ws[0];
    } else {
      assert ws[..3][..2] == ws[..2] && ws[..2][..1] == ws[..1] && ws[..1][..0] == [];
      assert Combine(ws[..1]) == ws[0];
      assert Combine(ws[..2]) == ws[0] * BASE + ws[1];
      assert Combine(ws[..3]) == (ws[0] * BASE + ws[1]) * BASE + ws[2];
    }
  }

  lemma SpanIsPower(dt: DataType)
    requires dt.IsUnsigned() || dt.IsSigned()
    ensures dt.RegisterCount().Some? && dt.Span() == PowBase(dt.RegisterCount().value)
  {
    assert PowBase(1) == BASE;
    assert PowBase(2) == TWO_32;
    assert PowBase(3) == TWO_32 * BASE;
    assert PowBase(4) == TWO_64;
  }

  /** Two's complement: Rust's cast from an unsigned to a signed integer. */
  function ToSigned(n: nat, span: nat): int {
    if n < span / 2 then n else n - span
  }

  /** ... and back. */
  function ToUnsigned(i: int, span: nat): int {
    if i >= 0 then i else i + span
  }

  // ----- decode -----

  function DecodeInteger(regs: seq<Word>, meta: DecodeMeta): Result<Decoded>
    requires meta.dataType.IsUnsigned() || meta.dataType.IsSigned()
  {
    var dt := meta.dataType;
    match OrderedWords(regs, dt.RegisterCount().value, meta)
    case Err(e) => Err(e)
    case Ok(ws) => Ok(Value(if dt.IsUnsigned() then UInt(Shifted(ws)) else Int(ToSigned(Shifted(ws), dt.Span()))))
  }

  function BitOf(w: Word, bit: nat): bool
    requires bit < 16
  {
    w / Pow2(bit) % 2 == 1
  }

  function DecodeBit(regs: seq<Word>, meta: DecodeMeta): Result<Decoded> {
    match meta.bit
    case None => Err(BadBitIndex)
    case Some(bit) =>
      if bit >= 16 then Err(BadBitIndex)
      else
        match OrderedWords(regs, 1, meta)
        case Err(e) => Err(e)
        case Ok(ws) => Ok(Value(Bool(BitOf(ws[0], bit))))
  }

  function DecodeBitfield(regs: seq<Word>, meta: DecodeMeta): Result<Decoded> {
    match OrderedWords(regs, 1, meta)
    case Err(e) => Err(e)
    case Ok(ws) =>
      match meta.bit
      case None => Ok(Value(UInt(ws[0])))
      case Some(bit) => if bit >= 16 then Err(BadBitIndex) else Ok(Value(Bool(BitOf(ws[0], bit))))
  }

  /** The integer types, spelled out from the ordered words: two's complement, the
      most significant word first. */
  lemma IntegerIsSpelled(regs: seq<Word>, meta: DecodeMeta, ws: seq<Word>)
    requires ws != [] && OrderedWords(regs, |ws|, meta) == Ok(ws)
    ensures var dt := meta.dataType; var decoded := DecodeRegisters(regs, meta);
            && (dt.U16? && |ws| == 1 ==> decoded == Ok(Value(UInt(ws[0]))))
            && (dt.I16? && |ws| == 1 ==>
                  decoded == Ok(Value(Int(if ws[0] < 0x8000 then ws[0] as int else ws[0] as int - 0x1_0000))))
            && (dt.U32? && |ws| == 2 ==> decoded == Ok(Value(UInt(ws[0] as int * 0x1_0000 + ws[1]))))
            && (dt.I32? && |ws| == 2 ==>
                  decoded == Ok(Value(Int(ws[0] as int * 0x1_0000 + ws[1]
                                          - if ws[0] < 0x8000 then 0 else 0x1_0000_0000))))
            && (dt.U64? && |ws| == 4 ==>
                  decoded == Ok(Value(UInt(ws[0] as int * 0x1_0000_0000_0000 + ws[1] as int * 0x1_0000_0000
                                           + ws[2] as int * 0x1_0000 + ws[3]))))
            && (dt.I64? && |ws| == 4 ==>
                  decoded == Ok(Value(Int(ws[0] as int * 0x1_0000_0000_0000 + ws[1] as int * 0x1_0000_0000
                                          + ws[2] as int * 0x1_0000 + ws[3]
                                          - if ws[0] < 0x8000 then 0 else 0x1_0000_0000_0000_0000))))
  {
  }

  /** A bit tag needs its bit, a bitfield without one is the whole word. */
  lemma BitsAreRead(regs: seq<Word>, meta: DecodeMeta, w: Word)
    requires OrderedWords(regs, 1, meta) == Ok([w]) && (meta.dataType.Bit? || meta.dataType.Bitfield?)
    ensures DecodeRegisters(regs, meta)
         == if meta.bit.None? then if meta.dataType.Bit? then Err(BadBitIndex) else Ok(Value(UInt(w)))
            else if meta.bit.value >= 16 then Err(BadBitIndex)
            else Ok(Value(Bool(BitOf(w, meta.bit.value))))
  {
  }

  /** Bit `bit` is the binary digit at that place. */
  lemma BitIsPlace(w: Word, bit: nat, above: nat, digit: nat, below: nat)
    requires bit < 16 && digit <= 1 && below < Pow2(bit)
    requires w == (above * 2 + digit) * Pow2(bit) + below
    ensures BitOf(w, bit) <==> digit == 1
  {
    QuotientOf(above * 2 + digit, Pow2(bit), below);
  }

  lemma QuotientOf(q: nat, m: nat, r: nat)
    requires r < m
    ensures (q * m + r) / m == q
  {
    var n := q * m + r;
    var p, s := n / m, n % m;
    assert n == m * p + s && 0 <= s < m;
    NoMultipleBetween(p - q, m, r - s);
  }

  lemma NoMultipleBetween(k: int, m: int, d: int)
    requires -m < d < m && k * m == d
    ensures k == 0
  {
    MultipleIsFar(k, m);
  }

  lemma MultipleIsFar(k: int, m: int)
    requires m >= 0
    ensures k >= 1 ==> k * m >= m
    ensures k <= -1 ==> k * m <= -m
  {
    if k >= 1 {
      assert (k - 1) * m >= 0;
    } else if k <= -1 {
      assert (k + 1) * m <= 0;
    }
  }

  /** Text is the bytes of the ordered words, the more significant byte first. */
  lemma {:induction false} BytesAt(ws: seq<Word>, k: nat)
    requires k < |ws|
    ensures |BytesOf(ws)| == 2 * |ws|
    ensures BytesOf(ws)[2 * k] == ws[k] / 0x100 && BytesOf(ws)[2 * k + 1] == ws[k] % 0x100
  {
    var n := |ws| - 1;
    if n > 0 {
      BytesAt(ws[..n], if k < n then k else 0);
    }
  }

  function BytesOf(ws: seq<Word>): seq<Byte> {
    if ws == [] then [] else BytesOf(ws[..|ws| - 1]) + [ws[|ws| - 1] / 0x100, ws[|ws| - 1] % 0x100]
  }

  function DecodePattern(regs: seq<Word>, count: nat, meta: DecodeMeta): Result<Decoded>
    requires count == 2 || count == 4
  {
    match OrderedWords(regs, count, meta)
    case Err(e) => Err(e)
    case Ok(ws) => Ok(FloatBits(Shifted(ws)))
  }

  function DecodeRegisters(regs: seq<Word>, meta: DecodeMeta): Result<Decoded> {
    match meta.dataType
    case Bit => DecodeBit(regs, meta)
    case Bitfield => DecodeBitfield(regs, meta)
    case F32 => DecodePattern(regs, 2, meta)
    case F64 => DecodePattern(regs, 4, meta)
    case Bcd =>
      (match OrderedWords(regs, Max(|regs|, 1), meta)
       case Err(e) => Err(e)
       case Ok(ws) =>
         match BcdValue(ws)
         case Err(e) => Err(e)
         case Ok(n) => Ok(Value(UInt(n))))
    case Ascii =>
      (match OrderedWords(regs, Max(|regs|, 1), meta)
       case Err(e) => Err(e)
       case Ok(ws) => Ok(Characters(BytesOf(ws))))
    case _ => DecodeInteger(regs, meta)
  }

  function DecodeRaw(raw: RawValue, meta: DecodeMeta): Result<Decoded> {
    match raw
    case Absent => Err(NotRead)
    case Bits(bits) => if bits == [] then Err(NoBits) else Ok(Value(Bool(bits[0])))
    case Raw(bytes) => Ok(Value(Bytes(bytes)))
    case Registers(regs) => DecodeRegisters(regs, meta)
  }

  // ----- BCD -----

  /** The four decimal digits of a word, most significant first. */
  function Nibble(w: Word, i: nat): nat
    requires i < 4
  {
    if i == 0 then w / 0x1000 else if i == 1 then w / 0x100 % 0x10 else if i == 2 then w / 0x10 % 0x10 else w % 0x10
  }

  predicate DecimalWord(w: Word) {
    forall i :: 0 <= i < 4 ==> Nibble(w, i) <= 9
  }

  lemma NibblesOf(a: nat, b: nat, c: nat, d: nat)
    requires a < 16 && b < 16 && c < 16 && d < 16
    ensures var w := a * 0x1000 + b * 0x100 + c * 0x10 + d;
            Nibble(w, 0) == a && Nibble(w, 1) == b && Nibble(w, 2) == c && Nibble(w, 3) == d
  {
    var w := a * 0x1000 + b * 0x100 + c * 0x10 + d;
    assert w / 0x1000 == a;
    assert w / 0x100 == a * 0x10 + b;
    assert w / 0x10 == (a * 0x10 + b) * 0x10 + c;
  }

  /** A word of four hexadecimal digits is decimal if they all are, and then spells
      the same digits in base ten. */
  lemma DigitsSpellWord(a: nat, b: nat, c: nat, d: nat)
    requires a < 16 && b < 16 && c < 16 && d < 16
    ensures var w := a * 0x1000 + b * 0x100 + c * 0x10 + d;
            && (DecimalWord(w) <==> a <= 9 && b <= 9 && c <= 9 && d <= 9)
            && WordDecimal(w) == a * 1000 + b * 100 + c * 10 + d
            && (forall v: Word :: Decimal([w, v]) == WordDecimal(w) * 10000 + WordDecimal(v))
  {
    var w := a * 0x1000 + b * 0x100 + c * 0x10 + d;
    NibblesOf(a, b, c, d);
    forall v: Word
      ensures Decimal([w, v]) == WordDecimal(w) * 10000 + WordDecimal(v)
    {
      assert [w, v][..1] == [w] && [w][..0] == [];
      assert Decimal([]) == 0;
      assert Decimal([w]) == WordDecimal(w);
    }
  }

  predicate AllDecimal(ws: seq<Word>) {
    forall i :: 0 <= i < |ws| ==> DecimalWord(ws[i])
  }

  /** The exact decimal number that the digits spell. */
  function Decimal(ws: seq<Word>): nat {
    if ws == [] then 0 else Decimal(ws[..|ws| - 1]) * 10000 + WordDecimal(ws[|ws| - 1])
  }

  function WordDecimal(w: Word): nat {
    Nibble(w, 0) * 1000 + Nibble(w, 1) * 100 + Nibble(w, 2) * 10 + Nibble(w, 3)
  }

  function FirstBad(ws: seq<Word>): Option<Word> {
    if ws == [] then None
    else if !DecimalWord(ws[0]) then Some(ws[0])
    else FirstBad(ws[1..])
  }

  /** The accumulator is 64 bits wide and wraps. */
  function BcdValue(ws: seq<Word>): Result<nat> {
    match FirstBad(ws)
    case Some(w) => Err(BadBcd(w))
    case None => Ok(Decimal(ws) % TWO_64)
  }

  lemma {:induction false} FirstBadFinds(ws: seq<Word>)
    ensures FirstBad(ws).None? <==> AllDecimal(ws)
  {
    if ws != [] {
      FirstBadFinds(ws[1..]);
      if AllDecimal(ws[1..]) && DecimalWord(ws[0]) {
        forall i | 0 <= i < |ws|
          ensures DecimalWord(ws[i])
        {
          assert i > 0 ==> ws[i] == ws[1..][i - 1];
        }
      }
      if AllDecimal(ws) {
        forall i | 0 <= i < |ws[1..]|
          ensures DecimalWord(ws[1..][i])
        {
          assert ws[1..][i] == ws[i + 1];
        }
      }
    }
  }

  lemma {:induction false} FirstBadStops(ws: seq<Word>, k: nat)
    requires k < |ws| && AllDecimal(ws[..k]) && !DecimalWord(ws[k])
    ensures FirstBad(ws) == Some(ws[k])
  {
    if k > 0 {
      assert ws[..k][0] == ws[0] && DecimalWord(ws[..k][0]);
      var rest, init := ws[1..], ws[1..][..k - 1];
      forall i | 0 <= i < |init|
        ensures DecimalWord(init[i])
      {
        assert init[i] == ws[..k][i + 1];
      }
      FirstBadStops(rest, k - 1);
    }
  }

  /** The digit loop of `decode_registers`. */
  method AccumulateDigits(acc: nat, w: Word) returns (acc': nat, ok: bool)
    requires acc < TWO_64
    ensures ok <==> DecimalWord(w)
    ensures ok ==> acc' == (acc * 10000 + WordDecimal(w)) % TWO_64
  {
    acc' := acc;
    ghost var exact := acc;
    for i := 0 to 4
      invariant acc' == exact % TWO_64
      invariant forall j :: 0 <= j < i ==> Nibble(w, j) <= 9
      invariant i == 0 ==> exact == acc
      invariant i == 1 ==> exact == acc * 10 + Nibble(w, 0)
      invariant i == 2 ==> exact == acc * 100 + Nibble(w, 0) * 10 + Nibble(w, 1)
      invariant i == 3 ==> exact == acc * 1000 + Nibble(w, 0) * 100 + Nibble(w, 1) * 10 + Nibble(w, 2)
      invariant i == 4 ==> exact == acc * 10000 + WordDecimal(w)
    {
      var digit := Nibble(w, i);
      if digit > 9 {
        return acc', false;
      }
      WrapStep(exact, digit);
      acc' := (acc' * 10 + digit) % TWO_64;
      exact := exact * 10 + digit;
    }
    ok := true;
  }

  lemma WrapStep(n: nat, digit: nat)
    ensures (n % TWO_64 * 10 + digit) % TWO_64 == (n * 10 + digit) % TWO_64
  {
    var q, r := n / TWO_64, n % TWO_64;
    assert n * 10 + digit == TWO_64 * (q * 10) + (r * 10 + digit);
    ModDrops(r * 10 + digit, q * 10);
  }

  lemma ModDrops(r: nat, q: nat)
    ensures (TWO_64 * q + r) % TWO_64 == r % TWO_64
  {
  }

  lemma WrapWord(n: nat, v: nat)
    ensures (n % TWO_64 * 10000 + v) % TWO_64 == (n * 10000 + v) % TWO_64
  {
    var q, r := n / TWO_64, n % TWO_64;
    assert n * 10000 + v == TWO_64 * (q * 10000) + (r * 10000 + v);
    ModDrops(r * 10000 + v, q * 10000);
  }

  method DecodeBcd(ws: seq<Word>) returns (r: Result<nat>)
    ensures r == BcdValue(ws)
  {
    var acc := 0;
    for k := 0 to |ws|
      invariant AllDecimal(ws[..k]) && acc == Decimal(ws[..k]) % TWO_64
    {
      var ok;
      ghost var before := acc;
      acc, ok := AccumulateDigits(acc, ws[k]);
      if !ok {
        FirstBadStops(ws, k);
        return Err(BadBcd(ws[k]));
      }
      assert ws[..k + 1][..k] == ws[..k];
      WrapWord(Decimal(ws[..k]), WordDecimal(ws[k]));
    }
    assert ws[..|ws|] == ws;
    FirstBadFinds(ws);
    r := Ok(acc);
  }

  function Pow10000(k: nat): nat {
    if k == 0 then 1 else Pow10000(k - 1) * 10000
  }

  lemma {:induction false} DecimalBound(ws: seq<Word>)
    requires AllDecimal(ws)
    ensures Decimal(ws) < Pow10000(|ws|)
  {
    if ws != [] {
      DecimalBound(ws[..|ws| - 1]);
      assert DecimalWord(ws[|ws| - 1]);
    }
  }

  lemma ModIsSelf(n: nat)
    ensures n % TWO_64 == n <==> n < TWO_64
  {
  }

  lemma FourRegistersFit(k: nat)
    requires k <= 4
    ensures Pow10000(k) <= 10000_0000_0000_0000 < TWO_64
  {
    assert Pow10000(1) == 10000 && Pow10000(2) == 10000_0000;
    assert Pow10000(3) == 10000_0000_0000 && Pow10000(4) == 10000_0000_0000_0000;
  }

  /** Refused exactly when a nibble exceeds 9; else the exact decimal value if and
      only if that fits 64 bits, which four registers always do. */
  lemma BcdIsExact(ws: seq<Word>)
    ensures BcdValue(ws).Ok? <==> AllDecimal(ws)
    ensures AllDecimal(ws) ==> (BcdValue(ws) == Ok(Decimal(ws)) <==> Decimal(ws) < TWO_64)
    ensures AllDecimal(ws) && |ws| <= 4 ==> Decimal(ws) < TWO_64
  {
    FirstBadFinds(ws);
    ModIsSelf(Decimal(ws));
    if AllDecimal(ws) && |ws| <= 4 {
      DecimalBound(ws);
      FourRegistersFit(|ws|);
    }
  }

  lemma DecimalOneMore(ws: seq<Word>, w: Word)
    ensures Decimal(ws + [w]) == Decimal(ws) * 10000 + WordDecimal(w)
    ensures AllDecimal(ws) && DecimalWord(w) ==> AllDecimal(ws + [w])
  {
    assert (ws + [w])[..|ws|] == ws;
  }

  lemma ZeroWord()
    ensures DecimalWord(0) && WordDecimal(0) == 0
  {
  }

  lemma LeadingWord()
    ensures DecimalWord(0x2000) && WordDecimal(0x2000) == 2000
    ensures AllDecimal([0x2000]) && Decimal([0x2000]) == 2000
  {
    DecimalOneMore([], 0x2000);
    assert [] + [0x2000] == [0x2000];
  }

  /** Five registers can overflow: 20000000000000000000 does. */
  lemma FiveRegistersOverflow()
    ensures var ws := [0x2000, 0, 0, 0, 0]; AllDecimal(ws) && BcdValue(ws) != Ok(Decimal(ws))
  {
    LeadingWord();
    ZeroWord();
    DecimalOneMore([0x2000], 0);
    assert [0x2000] + [0] == [0x2000, 0];
    DecimalOneMore([0x2000, 0], 0);
    assert [0x2000, 0] + [0] == [0x2000, 0, 0];
    DecimalOneMore([0x2000, 0, 0], 0);
    assert [0x2000, 0, 0] + [0] == [0x2000, 0, 0, 0];
    DecimalOneMore([0x2000, 0, 0, 0], 0);
    assert [0x2000, 0, 0, 0] + [0] == [0x2000, 0, 0, 0, 0];
    BcdIsExact([0x2000, 0, 0, 0, 0]);
  }

  // ----- encode -----

  /** `f as u64` and `f as i64` saturate. */
  function Saturate(n: int, lo: int, hi: int): int
    requires lo <= hi
  {
    if n < lo then lo else if n > hi then hi else n
  }

  function ToU64(v: TypedValue): Option<nat> {
    match v
    case UInt(n) => Some(n)
    case Int(i) => if i >= 0 then Some(i) else None
    case Float(x) =>
      if x == x.Floor as real && x >= 0.0 then Some(Saturate(x.Floor, 0, TWO_64 - 1)) else None
    case _ => None
  }

  function ToI64(v: TypedValue): Option<int> {
    match v
    case Int(i) => Some(i)
    case UInt(n) => if n < TWO_64 / 2 then Some(n) else None
    case Float(x) =>
      if x == x.Floor as real then Some(Saturate(x.Floor, -(TWO_64 / 2), TWO_64 / 2 - 1)) else None
    case _ => None
  }

  /** `encode`, for the integer types; other types refuse or stay bit patterns. */
  function Encode(v: TypedValue, meta: DecodeMeta): Result<seq<Word>>
    requires meta.dataType.IsUnsigned() || meta.dataType.IsSigned()
  {
    var dt := meta.dataType;
    match if dt.IsUnsigned() then ToU64(v) else ToI64(v)
    case None => Err(Unsupported)
    case Some(n) =>
      if !dt.Fits(n) then Err(Unsupported)
      else Ok(WireWords(Split(ToUnsigned(n, dt.Span()), dt.RegisterCount().value), meta))
  }

  /** A 64-bit value, as the program holds it. */
  predicate Machine(v: TypedValue) {
    match v
    case UInt(n) => n < TWO_64
    case Int(i) => -(TWO_64 / 2) <= i < TWO_64 / 2
    case _ => true
  }

  /** The integer a value stands for. */
  function Integer(v: TypedValue): Option<int> {
    match v
    case UInt(n) => Some(n)
    case Int(i) => Some(i)
    case Float(x) => if x == x.Floor as real then Some(x.Floor) else None
    case _ => None
  }

  /** The type's own form of an integer. */
  function Native(dt: DataType, n: int): TypedValue
    requires dt.Fits(n)
  {
    if dt.IsUnsigned() then UInt(n) else Int(n)
  }

  lemma DecodeOfWire(n: nat, meta: DecodeMeta)
    requires meta.dataType.IsUnsigned() || meta.dataType.IsSigned()
    requires n < meta.dataType.Span()
    ensures var dt := meta.dataType;
            DecodeInteger(WireWords(Split(n, dt.RegisterCount().value), meta), meta)
            == Ok(Value(if dt.IsUnsigned() then UInt(n) else Int(ToSigned(n, dt.Span()))))
  {
    var dt := meta.dataType;
    var ws := Split(n, dt.RegisterCount().value);
    SpanIsPower(dt);
    CombineSplit(n, dt.RegisterCount().value);
    ArrangeInverse(ws, meta);
    ShiftedIsCombine(ws);
  }

  /** A float past the range of a 64-bit type is cut, not refused. */
  predicate Cut(v: TypedValue, dt: DataType) {
    && v.Float? && Integer(v).Some? && dt.Span() == TWO_64 && !dt.Fits(Integer(v).value)
    && (dt.IsUnsigned() ==> Integer(v).value >= 0)
  }

  function CutTo(n: int, dt: DataType): int {
    if dt.IsUnsigned() then Saturate(n, 0, TWO_64 - 1) else Saturate(n, -(TWO_64 / 2), TWO_64 / 2 - 1)
  }

  /** The integer an accepted value is held as. */
  function Held(v: TypedValue, dt: DataType): int
    requires Integer(v).Some?
  {
    if Cut(v, dt) then CutTo(Integer(v).value, dt) else Integer(v).value
  }

  /** Nothing wraps. A value is accepted if and only if it is an integer that the
      type holds, or a float cut to a 64-bit type; the words then decode to that
      integer, whatever the orderings, and in the second case to the nearest one
      the type holds. */
  lemma EncodeThenDecode(v: TypedValue, meta: DecodeMeta)
    requires meta.dataType.IsUnsigned() || meta.dataType.IsSigned()
    requires Machine(v)
    ensures Encode(v, meta).Ok?
            <==> (Integer(v).Some? && meta.dataType.Fits(Integer(v).value)) || Cut(v, meta.dataType)
    ensures Encode(v, meta).Ok? ==>
              && meta.dataType.Fits(Held(v, meta.dataType))
              && DecodeInteger(Encode(v, meta).value, meta)
                 == Ok(Value(Native(meta.dataType, Held(v, meta.dataType))))
  {
    EncodeAccepts(v, meta);
    if Encode(v, meta).Ok? {
      EncodedDecodes(v, meta);
    }
  }

  lemma EncodeAccepts(v: TypedValue, meta: DecodeMeta)
    requires meta.dataType.IsUnsigned() || meta.dataType.IsSigned()
    requires Machine(v)
    ensures Encode(v, meta).Ok?
            <==> (Integer(v).Some? && meta.dataType.Fits(Integer(v).value)) || Cut(v, meta.dataType)
    ensures Encode(v, meta).Ok? ==> Encode(v, meta).value == WireOf(Held(v, meta.dataType), meta)
  {
  }

  function WireOf(n: int, meta: DecodeMeta): seq<Word>
    requires meta.dataType.Fits(n)
  {
    WireWords(Split(ToUnsigned(n, meta.dataType.Span()), meta.dataType.RegisterCount().value), meta)
  }

  lemma EncodedDecodes(v: TypedValue, meta: DecodeMeta)
    requires meta.dataType.IsUnsigned() || meta.dataType.IsSigned()
    requires Integer(v).Some? && meta.dataType.Fits(Held(v, meta.dataType))
    ensures DecodeInteger(WireOf(Held(v, meta.dataType), meta), meta)
         == Ok(Value(Native(meta.dataType, Held(v, meta.dataType))))
  {
    var n, span := Held(v, meta.dataType), meta.dataType.Span();
    DecodeOfWire(ToUnsigned(n, span), meta);
    if meta.dataType.IsSigned() {
      PatternReads(n, span);
    }
  }

  lemma PatternReads(n: int, span: nat)
    requires span % 2 == 0 && -(span / 2) <= n < span / 2
    ensures 0 <= ToUnsigned(n, span) < span && ToSigned(ToUnsigned(n, span), span) == n
  {
  }

  lemma SignedRoundTrip(n: nat, span: nat)
    requires n < span && span % 2 == 0
    ensures ToUnsigned(ToSigned(n, span), span) == n && -(span / 2) <= ToSigned(n, span) < span / 2
  {
  }

  /** A type's own form of an unsigned pattern encodes to the pattern's words. */
  lemma EncodeOfPattern(n: nat, meta: DecodeMeta)
    requires meta.dataType.IsUnsigned() || meta.dataType.IsSigned()
    requires n < meta.dataType.Span()
    ensures var dt := meta.dataType;
            Encode(if dt.IsUnsigned() then UInt(n) else Int(ToSigned(n, dt.Span())), meta)
            == Ok(WireWords(Split(n, dt.RegisterCount().value), meta))
  {
    SignedRoundTrip(n, meta.dataType.Span());
  }

  lemma PrefixDecodes(regs: seq<Word>, count: nat, meta: DecodeMeta)
    requires count <= |regs|
    ensures OrderedWords(regs[..count], count, meta) == OrderedWords(regs, count, meta)
  {
    assert regs[..count][..count] == regs[..count];
  }

  /** Every payload of an integer type survives decoding and encoding. */
  lemma DecodeThenEncode(regs: seq<Word>, meta: DecodeMeta)
    requires meta.dataType.IsUnsigned() || meta.dataType.IsSigned()
    requires |regs| >= meta.dataType.RegisterCount().value
    ensures var decoded := DecodeInteger(regs, meta);
            && decoded.Ok? && decoded.value.Value?
            && Encode(decoded.value.v, meta) == Ok(regs[..meta.dataType.RegisterCount().value])
  {
    var count := meta.dataType.RegisterCount().value;
    var ws := OrderedWords(regs, count, meta).value;
    PrefixDecodes(regs, count, meta);
    ArrangeInverse(regs[..count], meta);
    ShiftedIsCombine(ws);
    SplitCombine(ws);
    SpanIsPower(meta.dataType);
    EncodeOfPattern(Shifted(ws), meta);
  }
}
