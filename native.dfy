/** Values that cross the cgo boundary between the Go binding and the native
    Allegro library: opaque handles, the Go error convention, and the fixed-width
    integer conversions the binding performs (C.int(...), uint32(...), uint8(...),
    >> and & on unsigned words). */
module Native {

  /** An opaque native pointer (ALLEGRO_FONT*, ALLEGRO_BITMAP*, ALLEGRO_FILE*, ...).
      The binding never looks inside one; it only compares it with nil. */
  datatype Handle = Null | Ptr(addr: nat)

  /** Go's `(T, error)` return pair: either a value and a nil error, or a nil
      value and an error carrying its message. */
  datatype Result<T> = Ok(value: T) | Err(msg: string)

  datatype Option<T> = None | Some(value: T)

  newtype uint8 = x: int | 0 <= x < 0x100
  newtype uint32 = x: int | 0 <= x < 0x1_0000_0000
  newtype int32 = x: int | -0x8000_0000 <= x < 0x8000_0000

  /** Go's conversion C.int(x) from a Go int: keeps the low 32 bits and reads
      them as a two's-complement number. */
  function CInt(x: int): (r: int32)
    ensures (x - r as int) % 0x1_0000_0000 == 0
  {
    ((x + 0x8000_0000) % 0x1_0000_0000 - 0x8000_0000) as int32
  }

  /** A value that already fits a C int passes through C.int unchanged. */
  lemma CIntFits(x: int)
    requires -0x8000_0000 <= x < 0x8000_0000
    ensures CInt(x) as int == x
  {
  }

  /** Go's conversion uint8(v) of an unsigned word: keeps the low eight bits,
      which MaskIsMod shows is the remainder modulo 256. */
  function ToUint8(v: uint32): uint8
  {
    (v % 0x100) as uint8
  }

  /** Go's `v >> n` on a uint32 (a logical shift): the quotient by 2^n, as
      ShrIsDiv shows for the shifts the binding uses. */
  function Shr(v: uint32, n: nat): uint32
  {
    var q := v as int / Pow2(n);
    DivShrinks(v as int, Pow2(n));
    q as uint32
  }

  lemma DivShrinks(a: nat, b: nat)
    requires b >= 1
    ensures 0 <= a / b <= a
  {
    var q, m := a / b, a % b;
    assert a == q * b + m && 0 <= m;
    MulGrows(q, b);
  }

  lemma MulGrows(q: nat, b: nat)
    requires b >= 1
    ensures q <= q * b
  {
    if b > 1 {
      MulGrows(q, b - 1);
      assert q * b == q * (b - 1) + q;
    }
  }

  /** Go's `v & 255` on a uint32: the low eight bits, still as a uint32; by
      MaskIsMod, the remainder modulo 256. */
  function And255(v: uint32): uint32
  {
    v % 0x100
  }

  /** On a 32-bit word, masking with 255 (and so keeping the low byte, as
      uint8(v) does) is the remainder modulo 256. */
  lemma MaskIsMod(x: bv32)
    ensures x & 0xFF == x % 0x100
  {
  }

  /** On a 32-bit word, the logical shifts right by 24, 16 and 8 are the
      divisions by 2^24, 2^16 and 2^8 that Shr computes. */
  lemma ShrIsDiv(x: bv32)
    ensures x >> 24 == x / 0x100_0000
    ensures x >> 16 == x / 0x1_0000
    ensures x >> 8 == x / 0x100
  {
  }

  function Pow2(n: nat): (r: nat)
    ensures r >= 1
  {
    if n == 0 then 1 else 2 * Pow2(n - 1)
  }

  /** The nil check every loader in the binding ends with: a nil handle becomes
      the given error, any other handle is returned as it is. */
  function FromNative(h: Handle, msg: string): (r: Result<Handle>)
    ensures r.Err? <==> h == Null
    ensures r.Ok? ==> r.value == h
    ensures r.Err? ==> r.msg == msg
  {
    if h == Null then Err(msg) else Ok(h)
  }
}
