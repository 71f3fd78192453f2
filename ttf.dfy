/** The TTF addon binding (package ttf): its own copy of the version decoding,
    and four loaders that return the native TTF font handle viewed as a font of
    the font addon, or an error when the handle is nil. */
module Ttf {
  import opened Native
  import Font

  /** Version(): decodes the word al_get_allegro_ttf_version returned, with
      the same shifts and masks as the font addon; it is the same function of
      the word, so it inherits that decoding's round trip. */
  function Version(packed: uint32): (r: Font.VersionInfo)
    ensures r == Font.Version(packed)
  {
    Font.VersionInfo(
      ToUint8(Shr(packed, 24)),
      ToUint8(And255(Shr(packed, 16))),
      ToUint8(And255(Shr(packed, 8))),
      ToUint8(And255(packed)))
  }

  /** Re-packing the four components reproduces the word, and every word of
      four components decodes back to them. */
  lemma VersionRoundTrip(packed: uint32, i: Font.VersionInfo)
    ensures Font.Pack(Version(packed)) == packed
    ensures Version(Font.Pack(i)) == i
  {
    Font.VersionOfPack(i);
  }

  /** The components are bytes 3, 2, 1 and 0 of the word. */
  lemma VersionBytes(packed: uint32)
    ensures Version(packed).major as int == packed as int / 0x100_0000
    ensures Version(packed).minor as int == packed as int / 0x1_0000 % 0x100
    ensures Version(packed).revision as int == packed as int / 0x100 % 0x100
    ensures Version(packed).release as int == packed as int % 0x100
  {
    Font.VersionBytes(packed);
  }

  /** LoadFont(filename, size, flags): al_load_ttf_font's handle, or an error. */
  function LoadFont(filename: string, size: int, flags: int,
                    alLoadTtfFont: (string, int32, int32) -> Handle): (r: Result<Handle>)
    ensures var h := alLoadTtfFont(filename, CInt(size), CInt(flags));
            (r.Err? <==> h == Null) && (r.Ok? ==> r.value == h)
    ensures r.Err? ==> r.msg == "failed to load ttf font at '" + filename + "'"
  {
    FromNative(alLoadTtfFont(filename, CInt(size), CInt(flags)),
               "failed to load ttf font at '" + filename + "'")
  }

  /** LoadFontF(file, filename, size, flags): al_load_ttf_font_f's handle, or an error. */
  function LoadFontF(file: Handle, filename: string, size: int, flags: int,
                     alLoadTtfFontF: (Handle, string, int32, int32) -> Handle): (r: Result<Handle>)
    ensures var h := alLoadTtfFontF(file, filename, CInt(size), CInt(flags));
            (r.Err? <==> h == Null) && (r.Ok? ==> r.value == h)
    ensures r.Err? ==> r.msg == "failed to load font from file"
  {
    FromNative(alLoadTtfFontF(file, filename, CInt(size), CInt(flags)),
               "failed to load font from file")
  }

  /** LoadFontStretch(filename, w, h, flags): al_load_ttf_font_stretch's handle, or an error. */
  function LoadFontStretch(filename: string, w: int, h: int, flags: int,
                           alLoadTtfFontStretch: (string, int32, int32, int32) -> Handle)
    : (r: Result<Handle>)
    ensures var f := alLoadTtfFontStretch(filename, CInt(w), CInt(h), CInt(flags));
            (r.Err? <==> f == Null) && (r.Ok? ==> r.value == f)
    ensures r.Err? ==> r.msg == "failed to load ttf font at '" + filename + "'"
  {
    FromNative(alLoadTtfFontStretch(filename, CInt(w), CInt(h), CInt(flags)),
               "failed to load ttf font at '" + filename + "'")
  }

  /** LoadFontStretchF(file, filename, w, h, flags): al_load_ttf_font_stretch_f's handle, or an error. */
  function LoadFontStretchF(file: Handle, filename: string, w: int, h: int, flags: int,
                            alLoadTtfFontStretchF: (Handle, string, int32, int32, int32) -> Handle)
    : (r: Result<Handle>)
    ensures var f := alLoadTtfFontStretchF(file, filename, CInt(w), CInt(h), CInt(flags));
            (r.Err? <==> f == Null) && (r.Ok? ==> r.value == f)
    ensures r.Err? ==> r.msg == "failed to load font from file"
  {
    FromNative(alLoadTtfFontStretchF(file, filename, CInt(w), CInt(h), CInt(flags)),
               "failed to load font from file")
  }
}
