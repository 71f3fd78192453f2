/** The font addon binding (package font): the packed version word, the
    loaders that turn a nil native handle into an error, and the flattening of
    glyph ranges handed to al_grab_font_from_bitmap. */
module Font {
  import opened Native

  /** The four components of a packed Allegro version word. */
  datatype VersionInfo = VersionInfo(major: uint8, minor: uint8, revision: uint8, release: uint8)

  /** The word a version is packed into: major in the top byte, release in the
      bottom one (the format of al_get_allegro_version). */
  function Pack(i: VersionInfo): (v: uint32)
    ensures v as int / 0x100_0000 == i.major as int
  {
    (i.major as int * 0x100_0000 + i.minor as int * 0x1_0000
      + i.revision as int * 0x100 + i.release as int) as uint32
  }

  /** The three shifts Version uses are divisions by 2^24, 2^16 and 2^8. */
  lemma ShiftsAreDivisions(v: uint32)
    ensures Shr(v, 24) as int == v as int / 0x100_0000
    ensures Shr(v, 16) as int == v as int / 0x1_0000
    ensures Shr(v, 8) as int == v as int / 0x100
  {
    assert Pow2(8) == 0x100;
    assert Pow2(16) == 0x1_0000;
    assert Pow2(24) == 0x100_0000;
  }

  /** The four shift-and-mask expressions of Version pick bytes 3, 2, 1 and 0. */
  lemma ByteExtraction(v: uint32)
    ensures ToUint8(Shr(v, 24)) as int == v as int / 0x100_0000
    ensures ToUint8(And255(Shr(v, 16))) as int == v as int / 0x1_0000 % 0x100
    ensures ToUint8(And255(Shr(v, 8))) as int == v as int / 0x100 % 0x100
    ensures ToUint8(And255(v)) as int == v as int % 0x100
  {
    ShiftsAreDivisions(v);
    assert v as int / 0x100_0000 < 0x100;
  }

  /** Version(): decodes the word al_get_allegro_font_version returned by
      shifting and masking; no information is lost. */
  function Version(packed: uint32): (r: VersionInfo)
    ensures Pack(r) == packed
  {
    ByteExtraction(packed);
    DigitsRecombine(packed as int);
    VersionInfo(
      ToUint8(Shr(packed, 24)),
      ToUint8(And255(Shr(packed, 16))),
      ToUint8(And255(Shr(packed, 8))),
      ToUint8(And255(packed)))
  }

  /** Base-256 digits of a 32-bit word, high to low, add back up to the word. */
  lemma DigitsRecombine(v: int)
    requires 0 <= v < 0x1_0000_0000
    ensures v == (v / 0x100_0000) * 0x100_0000 + (v / 0x1_0000 % 0x100) * 0x1_0000
                 + (v / 0x100 % 0x100) * 0x100 + v % 0x100
  {
    var q1 := v / 0x100;
    var q2 := q1 / 0x100;
    var q3 := q2 / 0x100;
    assert v == q1 * 0x100 + v % 0x100;
    assert q1 == q2 * 0x100 + q1 % 0x100;
    assert q2 == q3 * 0x100 + q2 % 0x100;
    assert q2 == v / 0x1_0000;
    assert q3 == v / 0x100_0000;
  }

  /** The components are exactly bytes 3, 2, 1 and 0 of the word. */
  lemma VersionBytes(packed: uint32)
    ensures Version(packed).major as int == packed as int / 0x100_0000
    ensures Version(packed).minor as int == packed as int / 0x1_0000 % 0x100
    ensures Version(packed).revision as int == packed as int / 0x100 % 0x100
    ensures Version(packed).release as int == packed as int % 0x100
  {
    ByteExtraction(packed);
  }

  /** The other direction of the round trip: decoding a packed version gives
      back its four components. */
  lemma VersionOfPack(i: VersionInfo)
    ensures Version(Pack(i)) == i
  {
    var v := Pack(i);
    var r := Version(v);
    VersionBytes(v);
    var low := i.minor as int * 0x1_0000 + i.revision as int * 0x100 + i.release as int;
    assert v as int == i.major as int * 0x100_0000 + low && 0 <= low < 0x100_0000;
    assert r.major == i.major;
    var low2 := i.revision as int * 0x100 + i.release as int;
    assert v as int / 0x1_0000 == i.major as int * 0x100 + i.minor as int;
    assert r.minor == i.minor;
    assert v as int / 0x100 == i.major as int * 0x1_0000 + i.minor as int * 0x100 + i.revision as int;
    assert r.revision == i.revision;
  }

  // ---------------------------------------------------------------------------
  // Loaders. Each native loader is a parameter: either the handle it returned
  // or a function standing for the native routine, applied to the arguments the
  // binding passes it (C.int(...) of the Go ints).

  /** Builtin(): the handle al_create_builtin_font returned, or an error when it is nil. */
  function Builtin(native: Handle): (r: Result<Handle>)
    ensures r.Err? <==> native == Null
    ensures r.Ok? ==> r.value == native
    ensures r.Err? ==> r.msg == "failed to create builtin font"
  {
    FromNative(native, "failed to create builtin font")
  }

  /** LoadFont(filename, size, flags): al_load_font's handle, or an error naming the file. */
  function LoadFont(filename: string, size: int, flags: int,
                    alLoadFont: (string, int32, int32) -> Handle): (r: Result<Handle>)
    ensures var h := alLoadFont(filename, CInt(size), CInt(flags));
            (r.Err? <==> h == Null) && (r.Ok? ==> r.value == h)
    ensures r.Err? ==> r.msg == "failed to load font '" + filename + "'"
  {
    FromNative(alLoadFont(filename, CInt(size), CInt(flags)), "failed to load font '" + filename + "'")
  }

  /** LoadBitmapFont(filename): al_load_bitmap_font's handle, or an error naming the file. */
  function LoadBitmapFont(filename: string, alLoadBitmapFont: string -> Handle): (r: Result<Handle>)
    ensures (r.Err? <==> alLoadBitmapFont(filename) == Null)
    ensures r.Ok? ==> r.value == alLoadBitmapFont(filename)
    ensures r.Err? ==> r.msg == "failed to load bitmap font '" + filename + "'"
  {
    FromNative(alLoadBitmapFont(filename), "failed to load bitmap font '" + filename + "'")
  }

  // ---------------------------------------------------------------------------
  // Glyph ranges.

  /** The Go type [2]int: one code-point range, {first, last}. */
  type Pair = s: seq<int> | |s| == 2 witness [0, 0]

  /** The C int buffer the ranges are handed over in: the pairs one after the
      other, each value converted with C.int. */
  function Flatten(ranges: seq<Pair>): (flat: seq<int32>)
    ensures |flat| == 2 * |ranges|
  {
    if ranges == [] then [] else [CInt(ranges[0][0]), CInt(ranges[0][1])] + Flatten(ranges[1..])
  }

  /** Slot 2i of the buffer holds the first value of range i, slot 2i+1 its second. */
  lemma {:induction false} FlattenAt(ranges: seq<Pair>, i: nat)
    requires i < |ranges|
    ensures Flatten(ranges)[2 * i] == CInt(ranges[i][0])
    ensures Flatten(ranges)[2 * i + 1] == CInt(ranges[i][1])
  {
    if i > 0 {
      FlattenAt(ranges[1..], i - 1);
      assert Flatten(ranges)[2..] == Flatten(ranges[1..]);
    }
  }

  /** How the native side reads the buffer back: consecutive pairs. */
  function Unflatten(flat: seq<int32>): (ranges: seq<Pair>)
    requires |flat| % 2 == 0
    ensures 2 * |ranges| == |flat|
  {
    if flat == [] then [] else [[flat[0] as int, flat[1] as int]] + Unflatten(flat[2..])
  }

  /** Every value of the range is representable as a C int. */
  predicate FitsCInt(ranges: seq<Pair>)
  {
    forall i :: 0 <= i < |ranges| ==>
      -0x8000_0000 <= ranges[i][0] < 0x8000_0000 && -0x8000_0000 <= ranges[i][1] < 0x8000_0000
  }

  /** When every value fits a C int, reading the buffer back pair by pair gives
      the ranges exactly: no range is lost, reordered or split. */
  lemma {:induction false} FlattenRoundTrip(ranges: seq<Pair>)
    requires FitsCInt(ranges)
    ensures Unflatten(Flatten(ranges)) == ranges
  {
    if ranges != [] {
      var flat := Flatten(ranges);
      CIntFits(ranges[0][0]);
      CIntFits(ranges[0][1]);
      assert flat[2..] == Flatten(ranges[1..]);
      FlattenRoundTrip(ranges[1..]);
      assert [flat[0] as int, flat[1] as int] == ranges[0];
      assert ranges == [ranges[0]] + ranges[1..];
    }
  }

  /** GrabFontFromBitmap(bmp, ranges): refuses an empty range list before any
      native call; otherwise fills a fresh C int buffer pair by pair and passes
      it, with the number of PAIRS, to al_grab_font_from_bitmap. */
  method GrabFontFromBitmap(bmp: Handle, ranges: seq<Pair>,
                            alGrabFontFromBitmap: (Handle, int32, seq<int32>) -> Handle)
    returns (r: Result<Handle>)
    ensures |ranges| == 0 ==> r == Err("no ranges specified")
    ensures |ranges| > 0 ==>
      r == FromNative(alGrabFontFromBitmap(bmp, CInt(|ranges|), Flatten(ranges)),
                      "failed to grab font from bitmap")
  {
    var nRanges := |ranges|;
    var nInts := nRanges * 2;
    if nInts == 0 {
      return Err("no ranges specified");
    }
    var cRanges := new int32[nInts];
    for i := 0 to |ranges|
      invariant forall p :: 0 <= p < i ==>
        cRanges[2 * p] == CInt(ranges[p][0]) && cRanges[2 * p + 1] == CInt(ranges[p][1])
    {
      for j := 0 to 2
        invariant forall p :: 0 <= p < i ==>
          cRanges[2 * p] == CInt(ranges[p][0]) && cRanges[2 * p + 1] == CInt(ranges[p][1])
        invariant forall q :: 0 <= q < j ==> cRanges[2 * i + q] == CInt(ranges[i][q])
      {
        cRanges[2 * i + j] := CInt(ranges[i][j]);
      }
    }
    forall k | 0 <= k < nInts
      ensures cRanges[k] == Flatten(ranges)[k]
    {
      FlattenAt(ranges, k / 2);
    }
    assert cRanges[..] == Flatten(ranges);
    r := FromNative(alGrabFontFromBitmap(bmp, CInt(nRanges), cRanges[..]),
                    "failed to grab font from bitmap");
  }
}
