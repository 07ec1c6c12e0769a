/**
 * `png_to_ico` of `app/scripts/create_bagholder_icon.py`: wraps a PNG image
 * unchanged in a one-image ICO container. The PNG signature and the IHDR
 * width and height are read as section 5.2 and section 11.2.2 of the PNG
 * specification (W3C, second edition) lay them out; the ICO header and
 * directory entry are written little-endian with Python's `struct`.
 */
module Icon {

  import opened Common

  newtype byte = x: int | 0 <= x < 256

  /** The eight-byte PNG signature: 137 'P' 'N' 'G' CR LF SUB LF. */
  const PngSignature: seq<byte> := [0x89, 0x50, 0x4E, 0x47, 0x0D, 0x0A, 0x1A, 0x0A]

  /** Size of the ICO header (6 bytes) plus one directory entry (16 bytes). */
  const ImageOffset: nat := 6 + 16

  datatype IconError =
    | NotPng        // `ValueError`: the first eight bytes are not the signature
    | ShortHeader   // `struct.error`: fewer than 24 bytes to unpack width and height from
    | TooLarge      // `struct.error`: the length does not fit the entry's unsigned 32-bit size field

  // ----- struct packing -------------------------------------------------

  /** `struct.pack("<H", n)`. */
  function U16LE(n: nat): (b: seq<byte>)
    requires n < 0x1_0000
    ensures |b| == 2
  {
    [(n % 256) as byte, (n / 256) as byte]
  }

  /** `struct.pack("<I", n)`. */
  function U32LE(n: nat): (b: seq<byte>)
    requires n < 0x1_0000_0000
    ensures |b| == 4
  {
    U16LE(n % 0x1_0000) + U16LE(n / 0x1_0000)
  }

  function ReadU16LE(b: seq<byte>): nat
    requires |b| == 2
  {
    b[0] as nat + 256 * b[1] as nat
  }

  function ReadU32LE(b: seq<byte>): nat
    requires |b| == 4
  {
    ReadU16LE(b[..2]) + 0x1_0000 * ReadU16LE(b[2..])
  }

  /** `struct.unpack(">I", b)`: the first byte is the most significant. */
  function ReadU32BE(b: seq<byte>): (v: nat)
    requires |b| == 4
    ensures v < 0x1_0000_0000
    ensures v == ((b[0] as nat * 256 + b[1] as nat) * 256 + b[2] as nat) * 256 + b[3] as nat
  {
    b[0] as nat * 0x100_0000 + b[1] as nat * 0x1_0000 + b[2] as nat * 0x100 + b[3] as nat
  }

  lemma U16RoundTrip(n: nat)
    requires n < 0x1_0000
    ensures ReadU16LE(U16LE(n)) == n
  {
  }

  /** Reading back a packed unsigned 32-bit value gives the value. */
  lemma U32RoundTrip(n: nat)
    requires n < 0x1_0000_0000
    ensures ReadU32LE(U32LE(n)) == n
  {
    var b := U32LE(n);
    assert b[..2] == U16LE(n % 0x1_0000) && b[2..] == U16LE(n / 0x1_0000);
    U16RoundTrip(n % 0x1_0000);
    U16RoundTrip(n / 0x1_0000);
  }

  // ----- png_to_ico -----------------------------------------------------

  /** The entry's width or height byte: the size itself below 256, else 0 (which ICO reads as 256). */
  function DimensionByte(v: nat): (b: byte)
    ensures 0 < v < 256 ==> b as nat == v
    ensures v == 0 || v >= 256 ==> b == 0
  {
    if 0 < v < 256 then v as byte else 0
  }

  function Header(): (h: seq<byte>)
    ensures |h| == 6
  {
    U16LE(0) + U16LE(1) + U16LE(1)
  }

  function Entry(width: nat, height: nat, size: nat): (e: seq<byte>)
    requires size < 0x1_0000_0000
    ensures |e| == 16
  {
    [DimensionByte(width), DimensionByte(height), 0, 0] + U16LE(1) + U16LE(32) + U32LE(size) + U32LE(ImageOffset)
  }

  /** `png_to_ico`, on the file's bytes. */
  function PngToIco(data: seq<byte>): (r: Result<seq<byte>, IconError>)
    ensures r.Err? && r.error == NotPng <==> |data| < 8 || data[..8] != PngSignature
    ensures r.Ok? <==> 24 <= |data| < 0x1_0000_0000 && data[..8] == PngSignature
    ensures r.Ok? ==> |r.value| == ImageOffset + |data| && r.value[ImageOffset..] == data
  {
    if |data| < 8 || data[..8] != PngSignature then Err(NotPng)
    else if |data| < 24 then Err(ShortHeader)
    else if |data| >= 0x1_0000_0000 then Err(TooLarge)
    else
      var width := ReadU32BE(data[16..20]);
      var height := ReadU32BE(data[20..24]);
      Ok(Header() + Entry(width, height, |data|) + data)
  }

  /**
   * Parsing the written icon back: reserved 0, type 1 (icon), one image;
   * the entry holds the width and height bytes, no palette, planes 1,
   * 32 bits per pixel, the image size and the offset 22; the image follows.
   */
  lemma IcoLayout(data: seq<byte>)
    requires PngToIco(data).Ok?
    ensures var ico := PngToIco(data).value;
      && ReadU16LE(ico[0..2]) == 0 && ReadU16LE(ico[2..4]) == 1 && ReadU16LE(ico[4..6]) == 1
      && ico[6] == DimensionByte(ReadU32BE(data[16..20]))
      && ico[7] == DimensionByte(ReadU32BE(data[20..24]))
      && ico[8] == 0 && ico[9] == 0
      && ReadU16LE(ico[10..12]) == 1 && ReadU16LE(ico[12..14]) == 32
      && ReadU32LE(ico[14..18]) == |data| && ReadU32LE(ico[18..22]) == ImageOffset
      && ico[22..] == data
  {
    var ico := PngToIco(data).value;
    var e := Entry(ReadU32BE(data[16..20]), ReadU32BE(data[20..24]), |data|);
    assert ico == Header() + e + data;
    assert ico[0..2] == U16LE(0) && ico[2..4] == U16LE(1) && ico[4..6] == U16LE(1);
    U16RoundTrip(0);
    U16RoundTrip(1);
    assert ico[6..22] == e;
    assert ico[6] == e[0] && ico[7] == e[1] && ico[8] == e[2] && ico[9] == e[3];
    assert ico[10..12] == e[4..6] && ico[12..14] == e[6..8];
    assert ico[14..18] == e[8..12] && ico[18..22] == e[12..16];
    EntryFields(ReadU32BE(data[16..20]), ReadU32BE(data[20..24]), |data|);
  }

  lemma EntryFields(width: nat, height: nat, size: nat)
    requires size < 0x1_0000_0000
    ensures var e := Entry(width, height, size);
      && e[0] == DimensionByte(width) && e[1] == DimensionByte(height) && e[2] == 0 && e[3] == 0
      && ReadU16LE(e[4..6]) == 1 && ReadU16LE(e[6..8]) == 32
      && ReadU32LE(e[8..12]) == size && ReadU32LE(e[12..16]) == ImageOffset
  {
    var e := Entry(width, height, size);
    assert e[4..6] == U16LE(1) && e[6..8] == U16LE(32);
    assert e[8..12] == U32LE(size) && e[12..16] == U32LE(ImageOffset);
    U16RoundTrip(1);
    U16RoundTrip(32);
    U32RoundTrip(size);
    U32RoundTrip(ImageOffset);
  }

  /** The stored width and height depend only on the IHDR bytes 16 to 24 of the image. */
  lemma IcoDependsOnIhdr(a: seq<byte>, b: seq<byte>)
    requires PngToIco(a).Ok? && PngToIco(b).Ok? && |a| == |b| && a[16..24] == b[16..24]
    ensures PngToIco(a).value[..ImageOffset] == PngToIco(b).value[..ImageOffset]
  {
    assert a[16..20] == a[16..24][..4] && b[16..20] == b[16..24][..4];
    assert a[20..24] == a[16..24][4..] && b[20..24] == b[16..24][4..];
  }
}
