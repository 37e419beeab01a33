/** The LEB128 encoders of the WebAssembly writer, against the decoders of section 5.2.2 of the
    WebAssembly Core Specification. */
module Leb128 {
  import opened Bits

  type Byte = x: int | 0 <= x < 0x100

  const U32 := 0x1_0000_0000
  const U64 := 0x1_0000_0000_0000_0000
  const MAX_SIZE := 10
  const OBJ_SIZE := 5

  // ---------- the encodings as sequences ----------

  /** Seven bits at a time, low ones first; all bytes but the last carry the continuation bit. */
  function Unsigned(v: nat): (s: seq<Byte>)
    ensures |s| > 0
  {
    if v < 128 then [v] else [v % 128 + 128] + Unsigned(v / 128)
  }

  /** The same on a two's complement value: `/` rounds down, as an arithmetic shift does. */
  function Signed(v: int): (s: seq<Byte>)
    ensures |s| > 0
    decreases if v < 0 then -v else v
  {
    if -64 <= v < 64 then [v % 128] else [v % 128 + 128] + Signed(v / 128)
  }

  /** Exactly `size` bytes, the high ones of which may be empty groups. */
  function Padded(v: nat, size: nat): (s: seq<Byte>)
    requires size > 0 && v < Pow128(size)
    ensures |s| == size
  {
    if size == 1 then [v] else [v % 128 + 128] + Padded(v / 128, size - 1)
  }

  function Pow128(k: nat): (p: nat)
    ensures p >= 1
  {
    if k == 0 then 1 else 128 * Pow128(k - 1)
  }

  // ---------- the decodings ----------

  /** The value read at the front of some bytes, and how many bytes it takes. */
  datatype Reading = Truncated | Reading(value: int, length: nat)

  function ReadUnsigned(s: seq<Byte>): Reading {
    if s == [] then Truncated
    else if s[0] < 128 then Reading(s[0], 1)
    else match ReadUnsigned(s[1..])
      case Truncated => Truncated
      case Reading(v, n) => Reading(s[0] - 128 + 128 * v, n + 1)
  }

  function ReadSigned(s: seq<Byte>): Reading {
    if s == [] then Truncated
    else if s[0] < 128 then
      var low: int := s[0];
      Reading(if low < 64 then low else low - 128, 1)
    else match ReadSigned(s[1..])
      case Truncated => Truncated
      case Reading(v, n) => Reading(s[0] - 128 + 128 * v, n + 1)
  }

  // ---------- round trips ----------

  /** Decoding inverts encoding, whatever bytes follow. */
  lemma {:induction false} UnsignedReadsBack(v: nat, rest: seq<Byte>)
    ensures ReadUnsigned(Unsigned(v) + rest) == Reading(v, |Unsigned(v)|)
  {
    if v >= 128 {
      UnsignedReadsBack(v / 128, rest);
      assert (Unsigned(v) + rest)[1..] == Unsigned(v / 128) + rest;
    }
  }

  lemma {:induction false} SignedReadsBack(v: int, rest: seq<Byte>)
    ensures ReadSigned(Signed(v) + rest) == Reading(v, |Signed(v)|)
    decreases if v < 0 then -v else v
  {
    if !(-64 <= v < 64) {
      SignedReadsBack(v / 128, rest);
      assert (Signed(v) + rest)[1..] == Signed(v / 128) + rest;
    }
  }

  lemma {:induction false} PaddedReadsBack(v: nat, size: nat, rest: seq<Byte>)
    requires size > 0 && v < Pow128(size)
    ensures ReadUnsigned(Padded(v, size) + rest) == Reading(v, size)
  {
    if size > 1 {
      PaddedReadsBack(v / 128, size - 1, rest);
      assert (Padded(v, size) + rest)[1..] == Padded(v / 128, size - 1) + rest;
    }
  }

  /** A value takes at most `k` bytes exactly when it has at most `7 * k` bits. */
  lemma {:induction false} UnsignedFits(v: nat, k: nat)
    requires k > 0
    ensures |Unsigned(v)| <= k <==> v < Pow128(k)
  {
    if k == 1 {
      assert Pow128(1) == 128 * Pow128(0);
    } else if v >= 128 {
      UnsignedFits(v / 128, k - 1);
    } else {
      PowGrows(k);
    }
  }

  lemma {:induction false} PowGrows(k: nat)
    requires k > 0
    ensures Pow128(k) >= 128
  {
    if k > 1 {
      PowGrows(k - 1);
    } else {
      assert Pow128(1) == 128 * Pow128(0);
    }
  }

  /** The same for signed values, one bit of which is the sign. */
  lemma {:induction false} SignedFits(v: int, k: nat)
    requires k > 0
    ensures |Signed(v)| <= k <==> -64 * Pow128(k - 1) <= v < 64 * Pow128(k - 1)
    decreases k
  {
    if k == 1 {
      assert Pow128(0) == 1;
    } else if !(-64 <= v < 64) {
      SignedFits(v / 128, k - 1);
      assert Pow128(k - 1) == 128 * Pow128(k - 2);
    } else {
      PowGrows(k - 1);
    }
  }

  lemma Widths()
    ensures U32 <= Pow128(OBJ_SIZE) && Pow128(0) == 1
    ensures U64 <= Pow128(MAX_SIZE) && U64 / 2 <= 64 * Pow128(MAX_SIZE - 1)
  {
    assert Pow128(2) == 128 * Pow128(1) && Pow128(1) == 128 * Pow128(0);
    assert Pow128(4) == 128 * Pow128(3) && Pow128(3) == 128 * Pow128(2);
    assert Pow128(6) == 128 * Pow128(5) && Pow128(5) == 128 * Pow128(4);
    assert Pow128(8) == 128 * Pow128(7) && Pow128(7) == 128 * Pow128(6);
    assert Pow128(10) == 128 * Pow128(9) && Pow128(9) == 128 * Pow128(8);
  }

  // ---------- the encoders ----------

  /** The bytes of `encoded` merged into those of `initial`. */
  predicate Merged(bytes: seq<Byte>, initial: seq<Byte>, encoded: seq<Byte>) {
    && |bytes| == |initial| >= |encoded|
    && (forall i :: 0 <= i < |encoded| ==> bytes[i] == BitOr(initial[i], encoded[i]))
    && (forall i :: |encoded| <= i < |bytes| ==> bytes[i] == initial[i])
  }

  lemma Powers()
    ensures Pow2(6) == 64 && Pow2(7) == 128
  {
    assert Pow2(7) == 2 * Pow2(6) && Pow2(6) == 2 * Pow2(5) && Pow2(5) == 2 * Pow2(4);
    assert Pow2(4) == 2 * Pow2(3) && Pow2(3) == 2 * Pow2(2) && Pow2(2) == 2 * Pow2(1) && Pow2(1) == 2;
  }

  lemma HighBit(b: Byte)
    ensures BitOr(128, b) == if b < 128 then 128 + b else b
  {
    Powers();
    OrHighBit(7, b);
  }

  lemma OrIsByte(a: Byte, b: Byte)
    requires a == 0 || a == 128
    ensures 0 <= BitOr(a, b) < 0x100
  {
    OrNothing(b);
    HighBit(b);
  }

  lemma LowSeven(v: nat)
    ensures BitAnd(v, 0x7F) == v % 128
  {
    Powers();
    MaskIsModulo(v, 7);
  }

  lemma SignBit(b: nat)
    requires b < 128
    ensures BitAnd(b, 0x40) == 0 <==> b < 64
  {
    Powers();
    AndHighBit(6, b);
  }

  /** The low seven bits of an integer are those of its two's complement on 64 bits. */
  lemma SevenOfWord(v: int)
    ensures v % U64 % 128 == v % 128
  {
  }

  /** `bytes[size++] |= byte` until nothing is left of the value. */
  method InitUnsigned(value: nat, bytes: array<Byte>) returns (size: nat)
    requires |Unsigned(value)| <= bytes.Length
    requires forall i :: 0 <= i < bytes.Length ==> bytes[i] == 0 || bytes[i] == 128
    modifies bytes
    ensures size == |Unsigned(value)| && Merged(bytes[..], old(bytes[..]), Unsigned(value))
  {
    var rest := value;
    size := 0;
    ghost var before := bytes[..];
    ghost var encoded := Unsigned(value);
    var more := true;
    while more
      invariant 0 <= size <= |encoded|
      invariant more ==> rest >= 0 && size < |encoded| && Unsigned(rest) == encoded[size..]
      invariant !more ==> size == |encoded|
      invariant forall i :: 0 <= i < size ==> bytes[i] == BitOr(before[i], encoded[i])
      invariant forall i :: size <= i < bytes.Length ==> bytes[i] == before[i]
      decreases |encoded| - size
    {
      LowSeven(rest);
      var byte: Byte := BitAnd(rest, 0x7F);
      rest := rest / 128;
      if rest != 0 {
        HighBit(byte);
        byte := BitOr(0x80, byte);
      }
      assert byte == encoded[size];
      OrIsByte(bytes[size], byte);
      bytes[size] := BitOr(bytes[size], byte);
      size := size + 1;
      more := rest != 0;
    }
  }

  method InitSigned(value: int, bytes: array<Byte>) returns (size: nat)
    requires |Signed(value)| <= bytes.Length
    requires forall i :: 0 <= i < bytes.Length ==> bytes[i] == 0 || bytes[i] == 128
    modifies bytes
    ensures size == |Signed(value)| && Merged(bytes[..], old(bytes[..]), Signed(value))
  {
    var rest := value;
    size := 0;
    ghost var before := bytes[..];
    ghost var encoded := Signed(value);
    var more := true;
    while more
      invariant 0 <= size <= |encoded|
      invariant more ==> size < |encoded| && Signed(rest) == encoded[size..]
      invariant !more ==> size == |encoded|
      invariant forall i :: 0 <= i < size ==> bytes[i] == BitOr(before[i], encoded[i])
      invariant forall i :: size <= i < bytes.Length ==> bytes[i] == before[i]
      decreases |encoded| - size
    {
      LowSeven(rest % U64);
      SevenOfWord(rest);
      var byte: Byte := BitAnd(rest % U64, 0x7F);
      SignBit(byte);
      rest := rest / 128;
      more := !((rest == 0 && BitAnd(byte, 0x40) == 0) || (rest == -1 && BitAnd(byte, 0x40) != 0));
      if more {
        HighBit(byte);
        byte := BitOr(0x80, byte);
      }
      assert byte == encoded[size];
      OrIsByte(bytes[size], byte);
      bytes[size] := BitOr(bytes[size], byte);
      size := size + 1;
    }
  }

  /** Merging into zeros leaves the encoding. */
  lemma MergedWithZeros(bytes: seq<Byte>, initial: seq<Byte>, encoded: seq<Byte>)
    requires Merged(bytes, initial, encoded)
    requires forall i :: 0 <= i < |initial| ==> initial[i] == 0
    ensures bytes[..|encoded|] == encoded
  {
    forall i | 0 <= i < |encoded| ensures bytes[i] == encoded[i] {
      OrNothing(encoded[i]);
    }
  }

  /** Merging into continuation bits and a final zero leaves the padded encoding. */
  lemma {:induction false} MergedWithPadding(bytes: seq<Byte>, initial: seq<Byte>, v: nat)
    requires |initial| > 0 && v < Pow128(|initial|) && Merged(bytes, initial, Unsigned(v))
    requires forall i :: 0 <= i < |initial| - 1 ==> initial[i] == 128
    requires initial[|initial| - 1] == 0
    ensures bytes == Padded(v, |initial|)
    decreases |initial|
  {
    hide BitOr;
    var encoded := Unsigned(v);
    var size := |initial|;
    if size == 1 {
      OrNothing(v);
    } else {
      HighBit(encoded[0]);
      if v < 128 {
        EmptyPadding(bytes[1..]);
        assert bytes[1..] == Padded(v / 128, size - 1);
      } else {
        assert encoded[1..] == Unsigned(v / 128);
        assert Merged(bytes[1..], initial[1..], encoded[1..]);
        MergedWithPadding(bytes[1..], initial[1..], v / 128);
      }
      assert bytes == [bytes[0]] + bytes[1..];
    }
  }

  lemma {:induction false} EmptyPadding(bytes: seq<Byte>)
    requires |bytes| > 0 && bytes[|bytes| - 1] == 0
    requires forall i :: 0 <= i < |bytes| - 1 ==> bytes[i] == 128
    ensures bytes == Padded(0, |bytes|)
    decreases |bytes|
  {
    if |bytes| > 1 {
      EmptyPadding(bytes[1..]);
      assert bytes == [bytes[0]] + bytes[1..];
    }
  }

  /** The bytes that a writer copies: as many as the value needs, or all five of the padded form, which has no room for
      a value of more than 35 bits (`UnsignedFits`). */
  method MakeUnsigned(value: nat, isObject: bool) returns (written: seq<Byte>)
    requires value < U64 && (isObject ==> value < Pow128(OBJ_SIZE))
    ensures written == if isObject then Padded(value, OBJ_SIZE) else Unsigned(value)
    ensures |written| <= (if isObject then OBJ_SIZE else MAX_SIZE)
    ensures forall rest :: ReadUnsigned(written + rest) == Reading(value, |written|)
  {
    Widths();
    UnsignedFits(value, if isObject then OBJ_SIZE else MAX_SIZE);
    forall rest ensures ReadUnsigned(Unsigned(value) + rest) == Reading(value, |Unsigned(value)|) {
      UnsignedReadsBack(value, rest);
    }
    if isObject {
      var asBytes := new Byte[OBJ_SIZE][0x80, 0x80, 0x80, 0x80, 0x00];
      ghost var initial := asBytes[..];
      var _ := InitUnsigned(value, asBytes);
      MergedWithPadding(asBytes[..], initial, value);
      forall rest ensures ReadUnsigned(Padded(value, OBJ_SIZE) + rest) == Reading(value, OBJ_SIZE) {
        PaddedReadsBack(value, OBJ_SIZE, rest);
      }
      written := asBytes[..];
    } else {
      var asBytes := new Byte[MAX_SIZE](_ => 0);
      ghost var initial := asBytes[..];
      var size := InitUnsigned(value, asBytes);
      MergedWithZeros(asBytes[..], initial, Unsigned(value));
      written := asBytes[..size];
    }
  }

  method MakeSigned(value: int) returns (written: seq<Byte>)
    requires -(U64 / 2) <= value < U64 / 2
    ensures written == Signed(value) && |written| <= MAX_SIZE
    ensures forall rest :: ReadSigned(written + rest) == Reading(value, |written|)
  {
    Widths();
    SignedFits(value, MAX_SIZE);
    var asBytes := new Byte[MAX_SIZE](_ => 0);
    ghost var initial := asBytes[..];
    var size := InitSigned(value, asBytes);
    MergedWithZeros(asBytes[..], initial, Signed(value));
    written := asBytes[..size];
    forall rest ensures ReadSigned(written + rest) == Reading(value, |written|) {
      SignedReadsBack(value, rest);
    }
  }

  // ---------- 32-bit signed values ----------

  /** The 32-bit constructor casts to 64 unsigned bits before it encodes. */
  function FromInt32(v: int): seq<Byte> {
    Unsigned(v % U64)
  }

  /** The highest group of seven bits in use leaves its own top bit clear. */
  predicate TopBitClear(v: nat) {
    if v < 128 then v < 64 else TopBitClear(v / 128)
  }

  lemma {:induction false} UnsignedReadAsSigned(v: nat)
    ensures ReadSigned(Unsigned(v)).Reading?
    ensures ReadSigned(Unsigned(v)).value == v <==> TopBitClear(v)
    ensures TopBitClear(v) || ReadSigned(Unsigned(v)).value < 0
  {
    if v >= 128 {
      UnsignedReadAsSigned(v / 128);
      assert Unsigned(v)[1..] == Unsigned(v / 128);
    }
  }

  /** An i32 constant is read back as itself exactly when it is not negative and the top bit of its highest
      group of seven bits is clear: 63 is, 64 is not. */
  lemma Int32ReadsBackIff(v: int)
    requires -(U32 / 2) <= v < U32 / 2
    ensures ReadSigned(FromInt32(v)).Reading?
    ensures ReadSigned(FromInt32(v)).value == v <==> v >= 0 && TopBitClear(v)
  {
    UnsignedReadAsSigned(v % U64);
    if v < 0 {
      NegativeTop(v % U64);
    }
  }

  /** A negative value fills 64 bits, and the highest of its ten groups is 1. */
  lemma NegativeTop(v: nat)
    requires U64 / 2 <= v < U64
    ensures TopBitClear(v)
  {
    var a := v / 128; var b := a / 128; var c := b / 128;
    var d := c / 128; var e := d / 128; var f := e / 128;
    var g := f / 128; var h := g / 128; var i := h / 128;
    assert i == 1;
    assert TopBitClear(i) && TopBitClear(h) && TopBitClear(g);
    assert TopBitClear(f) && TopBitClear(e) && TopBitClear(d);
    assert TopBitClear(c) && TopBitClear(b) && TopBitClear(a);
  }
}
