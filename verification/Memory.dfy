/** The linear memory shared by Go and JavaScript, as `web/wasm_exec.js` reads and
    writes it through a little-endian DataView: bytes, 32-bit words, the split
    64-bit integer codec and the bit patterns of doubles. */
module Memory {

  const TWO20: int := 0x10_0000
  const TWO31: int := 0x8000_0000
  const TWO32: int := 0x1_0000_0000
  const TWO63: int := 0x8000_0000_0000_0000

  type Byte = b: int | 0 <= b < 256
  type Bytes = seq<Byte>
  type U32 = w: int | 0 <= w < TWO32

  /** The concatenation of chunks of a stream. */
  function Flat(chunks: seq<Bytes>): Bytes {
    if chunks == [] then [] else chunks[0] + Flat(chunks[1..])
  }

  // ---- 32-bit words ----

  /** ToUint32 of an integer: its low 32 bits (section 7.1.7 of ECMA-262). */
  function ToUint32(v: int): (w: U32)
    ensures 0 <= v < TWO32 ==> w == v
  {
    v % TWO32
  }

  function U32Bytes(w: U32): (bytes: seq<Byte>)
    ensures |bytes| == 4
  {
    [w % 256, w / 256 % 256, w / 65536 % 256, w / 16777216]
  }

  function BytesU32(bytes: seq<Byte>): U32
    requires |bytes| == 4
  {
    var b0: int, b1: int, b2: int, b3: int := bytes[0], bytes[1], bytes[2], bytes[3];
    b0 + 256 * b1 + 65536 * b2 + 16777216 * b3
  }

  lemma U32RoundTrip(w: U32)
    ensures BytesU32(U32Bytes(w)) == w
  {
    var a, b := w / 256, w / 65536;
    assert b == a / 256 && w / 16777216 == b / 256;
  }

  /** Little-endian: the first byte is the least. */
  lemma BytesAddUp(w: U32)
    ensures var b := U32Bytes(w); b[0] as int + b[1] as int * 256 + b[2] as int * 65536 + b[3] as int * 16777216 == w
  {
    var a, b := w / 256, w / 65536;
    assert b == a / 256 && w / 16777216 == b / 256;
  }

  /** The memory `m` with `bytes` written at `addr`. */
  function Patch(m: seq<Byte>, addr: nat, bytes: seq<Byte>): (r: seq<Byte>)
    requires addr + |bytes| <= |m|
    ensures |r| == |m|
    ensures r[addr..addr + |bytes|] == bytes
    ensures forall i :: 0 <= i < |m| && !(addr <= i < addr + |bytes|) ==> r[i] == m[i]
  {
    m[..addr] + bytes + m[addr + |bytes|..]
  }

  lemma PatchTwice(m: seq<Byte>, addr: nat, low: seq<Byte>, high: seq<Byte>)
    requires addr + |low| + |high| <= |m|
    ensures Patch(Patch(m, addr, low), addr + |low|, high) == Patch(m, addr, low + high)
  {
    var once := Patch(m, addr, low);
    assert once[..addr + |low|] == m[..addr] + low;
    assert once[addr + |low| + |high|..] == m[addr + |low| + |high|..];
  }

  /** DataView.setUint32(addr, v, true). */
  method SetUint32(mem: array<Byte>, addr: nat, v: int)
    requires addr + 4 <= mem.Length
    modifies mem
    ensures mem[..] == Patch(old(mem[..]), addr, U32Bytes(ToUint32(v)))
    ensures mem[addr] as int + mem[addr + 1] as int * 256 + mem[addr + 2] as int * 65536 + mem[addr + 3] as int * 16777216
            == v % 0x1_0000_0000
  {
    BytesAddUp(ToUint32(v));
    var bytes := U32Bytes(ToUint32(v));
    mem[addr], mem[addr + 1], mem[addr + 2], mem[addr + 3] := bytes[0], bytes[1], bytes[2], bytes[3];
  }

  /** Two consecutive setUint32 calls, low word first. */
  method SetWords(mem: array<Byte>, addr: nat, low: int, high: int)
    requires addr + 8 <= mem.Length
    modifies mem
    ensures mem[..] == Patch(old(mem[..]), addr, U32Bytes(ToUint32(low)) + U32Bytes(ToUint32(high)))
  {
    SetUint32(mem, addr, low);
    SetUint32(mem, addr + 4, high);
    PatchTwice(old(mem[..]), addr, U32Bytes(ToUint32(low)), U32Bytes(ToUint32(high)));
  }

  function WordAt(m: seq<Byte>, addr: nat): U32
    requires addr + 4 <= |m|
  {
    BytesU32(m[addr..addr + 4])
  }

  /** Two's-complement reading of a word (DataView.getInt32). */
  function Signed(w: U32): int {
    if w < TWO31 then w else w - TWO32
  }

  // ---- The split 64-bit integer codec ----

  /** Truncation toward zero, the first step of ToUint32 on a double. */
  function Trunc(v: real): int {
    if v >= 0.0 then v.Floor else -((-v).Floor)
  }

  function Int64Low(v: real): U32 { ToUint32(Trunc(v)) }

  const TWO261: int := 0x20_0000_0000_0000_0000_0000_0000_0000_0000_0000_0000_0000_0000_0000_0000_0000_0000

  /** 2^-1043: a double of at most this magnitude, divided by 2^32, rounds to zero. */
  const TINY: real := 2.0 / (TWO261 * TWO261 * TWO261 * TWO261) as real

  /** Math.floor(v / 4294967296): exact on doubles, but for the underflow to -0 of tiny negatives. */
  function HighWord(v: real): int {
    if -TINY <= v < 0.0 then 0 else (v / (TWO32 as real)).Floor
  }

  function Int64High(v: real): U32 { ToUint32(HighWord(v)) }

  function Int64Bytes(v: real): seq<Byte> {
    U32Bytes(Int64Low(v)) + U32Bytes(Int64High(v))
  }

  function Int64At(m: seq<Byte>, addr: nat): int
    requires addr + 8 <= |m|
  {
    WordAt(m, addr) + Signed(WordAt(m, addr + 4)) * TWO32
  }

  method SetInt64(mem: array<Byte>, addr: nat, v: real)
    requires addr + 8 <= mem.Length
    modifies mem
    ensures mem[..] == Patch(old(mem[..]), addr, Int64Bytes(v))
  {
    SetWords(mem, addr, Trunc(v), HighWord(v));
  }

  /** Two adjacent words written together are read back separately. */
  lemma PairAt(m: seq<Byte>, addr: nat, low: U32, high: U32)
    requires addr + 8 <= |m|
    ensures var r := Patch(m, addr, U32Bytes(low) + U32Bytes(high));
            WordAt(r, addr) == low && WordAt(r, addr + 4) == high
  {
    var r := Patch(m, addr, U32Bytes(low) + U32Bytes(high));
    assert r[addr..addr + 8] == U32Bytes(low) + U32Bytes(high);
    assert r[addr..addr + 4] == r[addr..addr + 8][..4] == U32Bytes(low);
    assert r[addr + 4..addr + 8] == r[addr..addr + 8][4..] == U32Bytes(high);
    U32RoundTrip(low);
    U32RoundTrip(high);
  }

  lemma FloorIs(v: real, n: int)
    requires n as real <= v < n as real + 1.0
    ensures v.Floor == n
  {
  }

  /** Dividing by 2^32 and flooring loses only what the floor of `v` loses. */
  lemma FloorOfQuotient(v: real)
    ensures (v / (TWO32 as real)).Floor == v.Floor / TWO32
  {
    var q := v.Floor / TWO32;
    var c := TWO32 as real;
    assert q * TWO32 <= v.Floor < (q + 1) * TWO32;
    assert v.Floor + 1 <= q * TWO32 + TWO32;
    assert (q * TWO32) as real <= v < (q * TWO32 + TWO32) as real;
    assert q as real * c <= v < (q as real + 1.0) * c;
    assert (v / c) * c == v;
    FloorIs(v / c, q);
  }

  lemma HighWordIsSigned(q: int)
    requires -TWO31 <= q < TWO31
    ensures Signed(ToUint32(q)) == q
  {
  }

  lemma TruncOf(v: real)
    ensures Trunc(v) == if v >= 0.0 || v.Floor as real == v then v.Floor else v.Floor + 1
  {
    if v < 0.0 {
      FloorIs(-v, if v.Floor as real == v then -v.Floor else -v.Floor - 1);
    }
  }

  lemma TinyIsSmall()
    ensures 0.0 < TINY < 0.5
  {
  }

  /** Low word and high word put together, when both come from one integer, or the high word from
      the integer below. */
  lemma WordsOf(t: int)
    ensures t % TWO32 + t / TWO32 * TWO32 == t
    ensures (t - 1) / TWO32 == if t % TWO32 == 0 then t / TWO32 - 1 else t / TWO32
  {
  }

  lemma Int64AtIs(m: seq<Byte>, addr: nat, v: real)
    requires addr + 8 <= |m| && -TWO31 <= HighWord(v) < TWO31
    ensures Int64At(Patch(m, addr, Int64Bytes(v)), addr) == Trunc(v) % TWO32 + HighWord(v) * TWO32
  {
    PairAt(m, addr, Int64Low(v), Int64High(v));
    HighWordIsSigned(HighWord(v));
  }

  /** The value that the two words stand for. */
  function ReadBack(v: real): int {
    if v >= 0.0 || v.Floor as real == v then v.Floor
    else if Trunc(v) % TWO32 != 0 || v >= -TINY then v.Floor + 1
    else v.Floor + 1 - TWO32
  }

  lemma TinyReadsZero(v: real)
    requires -TINY <= v < 0.0
    ensures Trunc(v) == 0 && HighWord(v) == 0 && ReadBack(v) == 0
  {
    TinyIsSmall();
    FloorIs(v, -1);
    FloorIs(-v, 0);
  }

  lemma WordsAre(v: real)
    requires v >= 0.0 || v < -TINY
    ensures HighWord(v) == v.Floor / TWO32
    ensures Trunc(v) % TWO32 + HighWord(v) * TWO32 == ReadBack(v)
  {
    FloorOfQuotient(v);
    TruncOf(v);
    WordsOf(Trunc(v));
  }

  /** What `getInt64` reads after `setInt64(v)`, for every real in the int64 range. The
      low word truncates toward zero while the high word floors, so a negative
      fraction comes back one too high, or 2^32 - 1 too low when the truncated value
      is a multiple of 2^32; but if it is so small that the quotient underflows, it comes back
      as 0. Every other operand on the way is exact as a double. */
  lemma Int64ReadBack(m: seq<Byte>, addr: nat, v: real)
    requires addr + 8 <= |m|
    requires -(TWO63 as real) <= v < TWO63 as real
    ensures Int64At(Patch(m, addr, Int64Bytes(v)), addr) == ReadBack(v)
  {
    if -TINY <= v < 0.0 {
      TinyReadsZero(v);
    } else {
      WordsAre(v);
      HighWordFits(v);
    }
    Int64AtIs(m, addr, v);
  }

  /** The eight bytes that `setInt64` writes for an integer are its two's complement, least byte first. */
  lemma Int64IsTwosComplement(n: int)
    requires -0x8000_0000_0000_0000 <= n < 0x8000_0000_0000_0000
    ensures var b := Int64Bytes(n as real);
            && |b| == 8
            && b[0] as int + b[1] as int * 256 + b[2] as int * 65536 + b[3] as int * 16777216
               + (b[4] as int + b[5] as int * 256 + b[6] as int * 65536 + b[7] as int * 16777216) * 0x1_0000_0000
               == if n >= 0 then n else n + 0x1_0000_0000_0000_0000
  {
    IntegerWords(n);
    BytesAddUp(Int64Low(n as real));
    BytesAddUp(Int64High(n as real));
  }

  lemma IntegerWords(n: int)
    requires -TWO63 <= n < TWO63
    ensures Int64Low(n as real) + TWO32 * Int64High(n as real) == if n >= 0 then n else n + TWO32 * TWO32
  {
    TinyIsSmall();
    WordsAre(n as real);
    HighWordFits(n as real);
  }

  lemma HighWordFits(v: real)
    requires -(TWO63 as real) <= v < TWO63 as real
    ensures -TWO31 <= v.Floor / TWO32 < TWO31
  {
    assert -TWO63 <= v.Floor < TWO63;
  }

  /** The round trip of `setInt64`/`getInt64`: the identity on every integer of the int64
      range (so on every safe integer), the floor on non-negative fractions, and not
      the floor on any negative fraction. */
  lemma Int64RoundTrip(m: seq<Byte>, addr: nat, v: real)
    requires addr + 8 <= |m|
    requires -(TWO63 as real) <= v < TWO63 as real
    ensures Int64At(Patch(m, addr, Int64Bytes(v)), addr) == v.Floor <==> v >= 0.0 || v.Floor as real == v
  {
    Int64ReadBack(m, addr, v);
  }

  /** `setInt64(-0.5)` is read back as -2^32. */
  lemma NegativeFractionIsMisread(m: seq<Byte>, addr: nat)
    requires addr + 8 <= |m|
    ensures Int64At(Patch(m, addr, Int64Bytes(-0.5)), addr) == -TWO32
  {
    FloorIs(-0.5, -1);
    FloorIs(0.5, 0);
    TinyIsSmall();
    Int64ReadBack(m, addr, -0.5);
  }

  // ---- Doubles ----

  /** A double is its bit pattern (section 3.4 of IEEE 754-2008): sign, eleven exponent
      bits and the top twenty fraction bits in `hi`, the rest of the fraction in `lo`. */
  datatype Double = Double(hi: U32, lo: U32)

  predicate IsNaN(d: Double) {
    d.hi / TWO20 % 2048 == 2047 && (d.hi % TWO20 != 0 || d.lo != 0)
  }

  /** The patterns that are no number: above either infinity, which is the pattern without fraction bits. */
  lemma NaNPatterns(d: Double)
    ensures IsNaN(d) <==>
            || 0x7FF0_0000 < d.hi < 0x8000_0000 || 0xFFF0_0000 < d.hi
            || ((d.hi == 0x7FF0_0000 || d.hi == 0xFFF0_0000) && d.lo != 0)
  {
    var top := d.hi / TWO20;
    assert d.hi == top * TWO20 + d.hi % TWO20;
  }

  predicate IsZero(d: Double) {
    (d.hi == 0 || d.hi == TWO31) && d.lo == 0
  }

  function DoubleBytes(d: Double): (bytes: seq<Byte>)
    ensures |bytes| == 8
  {
    U32Bytes(d.lo) + U32Bytes(d.hi)
  }

  function DoubleAt(m: seq<Byte>, addr: nat): Double
    requires addr + 8 <= |m|
  {
    Double(WordAt(m, addr + 4), WordAt(m, addr))
  }

  /** DataView.setFloat64(addr, v, true). */
  method SetFloat64(mem: array<Byte>, addr: nat, d: Double)
    requires addr + 8 <= mem.Length
    modifies mem
    ensures mem[..] == Patch(old(mem[..]), addr, DoubleBytes(d))
  {
    SetWords(mem, addr, d.lo, d.hi);
  }

  lemma DoubleReadBack(m: seq<Byte>, addr: nat, d: Double)
    requires addr + 8 <= |m|
    ensures var r := Patch(m, addr, DoubleBytes(d));
            DoubleAt(r, addr) == d && WordAt(r, addr) == d.lo && WordAt(r, addr + 4) == d.hi
  {
    PairAt(m, addr, d.lo, d.hi);
  }
}
