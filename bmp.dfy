/**
 * LoadBMP of objLoader.cpp, up to the texture upload: the 54-byte Windows
 * bitmap header (a BITMAPFILEHEADER followed by a BITMAPINFOHEADER) is
 * checked and four of its fields are read, missing ones get defaults, and
 * the pixel bytes are read into a zero-filled buffer of the image size.
 *
 * The file arrives as a byte sequence (`None` when it cannot be opened).
 */
module Bmp {
  import opened Wrappers

  newtype byte = x: int | 0 <= x < 256

  /** Size of the two headers together: the bytes LoadBMP insists on reading first. */
  const HeaderSize: nat := 54
  /** 2^32: the range of the `unsigned int` fields and of the size arithmetic. */
  const Word: nat := 0x1_0000_0000
  /** The signature "BM". */
  const SignatureB: byte := 66
  const SignatureM: byte := 77
  /** Byte offsets of the fields read: bfOffBits, biWidth, biHeight, biSizeImage. */
  const DataPosAt: nat := 0x0A
  const WidthAt: nat := 0x12
  const HeightAt: nat := 0x16
  const ImageSizeAt: nat := 0x22

  /** The four bytes at `at`, little-endian, as an unsigned 32-bit number. */
  function Le32(b: seq<byte>, at: nat): (n: nat)
    requires at + 4 <= |b|
    ensures n < Word
  {
    b[at] as nat + 256 * (b[at + 1] as nat + 256 * (b[at + 2] as nat + 256 * (b[at + 3] as nat)))
  }

  /** The little-endian bytes of an unsigned 32-bit number; Le32 reads it back. */
  function Le32Bytes(n: nat): (b: seq<byte>)
    requires n < Word
    ensures |b| == 4 && Le32(b, 0) == n
  {
    var n1 := n / 256;
    var n2 := n1 / 256;
    var n3 := n2 / 256;
    [(n % 256) as byte, (n1 % 256) as byte, (n2 % 256) as byte, n3 as byte]
  }

  /** Le32 only looks at its four bytes. */
  lemma Le32Within(b: seq<byte>, at: nat, c: seq<byte>)
    requires at + 4 <= |b|
    requires c == b[at .. at + 4]
    ensures Le32(b, at) == Le32(c, 0)
  {
  }

  /** The header fields LoadBMP keeps, after defaults. */
  datatype BmpHeader = BmpHeader(dataPos: nat, imageSize: nat, width: nat, height: nat)

  /**
   * The header check and field reads. A file shorter than the header or not
   * starting with "BM" is rejected. A zero image size becomes
   * width * height * 3, computed in 32-bit unsigned arithmetic; a zero data
   * offset becomes 54.
   */
  function DecodeHeader(file: seq<byte>): (r: Option<BmpHeader>)
    ensures r.None? <==> |file| < HeaderSize || file[0] != SignatureB || file[1] != SignatureM
    ensures r.Some? ==> r.value.width < Word && r.value.height < Word
    ensures r.Some? ==> 0 < r.value.dataPos < Word && r.value.imageSize < Word
  {
    if |file| < HeaderSize || file[0] != SignatureB || file[1] != SignatureM then None
    else
      var dataPos := Le32(file, DataPosAt);
      var imageSize := Le32(file, ImageSizeAt);
      var width := Le32(file, WidthAt);
      var height := Le32(file, HeightAt);
      var imageSize' := if imageSize == 0 then width * height * 3 % Word else imageSize;
      var dataPos' := if dataPos == 0 then HeaderSize else dataPos;
      Some(BmpHeader(dataPos', imageSize', width, height))
  }

  function Zeros(n: nat): (z: seq<byte>)
    ensures |z| == n && forall i :: 0 <= i < n ==> z[i] == 0
  {
    seq(n, _ => 0)
  }

  /** The 14-byte BITMAPFILEHEADER: "BM", file size and reserved words left zero, the data offset. */
  function FileHeader(dataPos: nat): (b: seq<byte>)
    requires dataPos < Word
    ensures |b| == 14 && b[0] == SignatureB && b[1] == SignatureM
    ensures b[DataPosAt .. DataPosAt + 4] == Le32Bytes(dataPos)
  {
    var front := [SignatureB, SignatureM] + Zeros(8);
    assert (front + Le32Bytes(dataPos))[|front| .. |front| + 4] == Le32Bytes(dataPos);
    front + Le32Bytes(dataPos)
  }

  /**
   * The 40-byte BITMAPINFOHEADER of a 24-bit image: its own size, width,
   * height, one plane, 24 bits per pixel, no compression, the image size,
   * and zeros in the resolution and palette fields.
   */
  function InfoHeader(width: nat, height: nat, imageSize: nat): (b: seq<byte>)
    requires width < Word && height < Word && imageSize < Word
    ensures |b| == 40
    ensures b[WidthAt - 14 .. WidthAt - 10] == Le32Bytes(width)
    ensures b[HeightAt - 14 .. HeightAt - 10] == Le32Bytes(height)
    ensures b[ImageSizeAt - 14 .. ImageSizeAt - 10] == Le32Bytes(imageSize)
  {
    var sizes := Le32Bytes(40) + Le32Bytes(width) + Le32Bytes(height);
    var format := [1, 0, 24, 0] + Zeros(4) + Le32Bytes(imageSize);
    var b := sizes + format + Zeros(16);
    assert b[4 .. 8] == sizes[4 .. 8] == Le32Bytes(width);
    assert b[8 .. 12] == sizes[8 .. 12] == Le32Bytes(height);
    assert b[20 .. 24] == format[8 .. 12] == Le32Bytes(imageSize);
    b
  }

  /** A header as a writer of 24-bit bitmaps lays it out: the file header, then the info header. */
  function EncodeHeader(h: BmpHeader): (b: seq<byte>)
    requires h.dataPos < Word && h.imageSize < Word && h.width < Word && h.height < Word
    ensures |b| == HeaderSize && b[0] == SignatureB && b[1] == SignatureM
    ensures b[DataPosAt .. DataPosAt + 4] == Le32Bytes(h.dataPos)
    ensures b[WidthAt .. WidthAt + 4] == Le32Bytes(h.width)
    ensures b[HeightAt .. HeightAt + 4] == Le32Bytes(h.height)
    ensures b[ImageSizeAt .. ImageSizeAt + 4] == Le32Bytes(h.imageSize)
  {
    var fh := FileHeader(h.dataPos);
    var ih := InfoHeader(h.width, h.height, h.imageSize);
    SliceLeft(fh, ih, DataPosAt, DataPosAt + 4);
    SliceRight(fh, ih, WidthAt - 14, WidthAt - 10);
    SliceRight(fh, ih, HeightAt - 14, HeightAt - 10);
    SliceRight(fh, ih, ImageSizeAt - 14, ImageSizeAt - 10);
    fh + ih
  }

  /** `(a + b)[lo..hi]` is a slice of `a` when it lies in `a`. */
  lemma SliceLeft(a: seq<byte>, b: seq<byte>, lo: nat, hi: nat)
    requires lo <= hi <= |a|
    ensures (a + b)[lo .. hi] == a[lo .. hi]
  {
  }

  /** `(a + b)[|a| + lo .. |a| + hi]` is a slice of `b`. */
  lemma SliceRight(a: seq<byte>, b: seq<byte>, lo: nat, hi: nat)
    requires lo <= hi <= |b|
    ensures (a + b)[|a| + lo .. |a| + hi] == b[lo .. hi]
  {
  }

  /** Where each field of an encoded header sits. */
  lemma EncodedFieldsAt(h: BmpHeader, rest: seq<byte>)
    requires h.dataPos < Word && h.imageSize < Word && h.width < Word && h.height < Word
    ensures var file := EncodeHeader(h) + rest;
      |file| >= HeaderSize && file[0] == SignatureB && file[1] == SignatureM &&
      file[DataPosAt .. DataPosAt + 4] == Le32Bytes(h.dataPos) &&
      file[WidthAt .. WidthAt + 4] == Le32Bytes(h.width) &&
      file[HeightAt .. HeightAt + 4] == Le32Bytes(h.height) &&
      file[ImageSizeAt .. ImageSizeAt + 4] == Le32Bytes(h.imageSize)
  {
    var header := EncodeHeader(h);
    SliceLeft(header, rest, DataPosAt, DataPosAt + 4);
    SliceLeft(header, rest, WidthAt, WidthAt + 4);
    SliceLeft(header, rest, HeightAt, HeightAt + 4);
    SliceLeft(header, rest, ImageSizeAt, ImageSizeAt + 4);
  }

  /**
   * Decoding an encoded header gives its fields back, with the defaults
   * applied to a zero data offset or image size, whatever follows the header.
   */
  lemma DecodeEncoded(h: BmpHeader, rest: seq<byte>)
    requires h.dataPos < Word && h.imageSize < Word && h.width < Word && h.height < Word
    ensures DecodeHeader(EncodeHeader(h) + rest) == Some(BmpHeader(
      if h.dataPos == 0 then HeaderSize else h.dataPos,
      if h.imageSize == 0 then h.width * h.height * 3 % Word else h.imageSize,
      h.width, h.height))
  {
    var file := EncodeHeader(h) + rest;
    EncodedFieldsAt(h, rest);
    Le32Within(file, DataPosAt, Le32Bytes(h.dataPos));
    Le32Within(file, WidthAt, Le32Bytes(h.width));
    Le32Within(file, HeightAt, Le32Bytes(h.height));
    Le32Within(file, ImageSizeAt, Le32Bytes(h.imageSize));
  }

  /** Splitting off the low byte of `lo + 256 * hi`. */
  lemma LowByte(lo: nat, hi: nat)
    requires lo < 256
    ensures (lo + 256 * hi) % 256 == lo && (lo + 256 * hi) / 256 == hi
  {
  }

  /** Any four bytes are the encoding of the number Le32 reads from them. */
  lemma Le32BytesOf(b: seq<byte>, at: nat)
    requires at + 4 <= |b|
    ensures Le32Bytes(Le32(b, at)) == b[at .. at + 4]
  {
    var b0, b1, b2, b3 := b[at] as nat, b[at + 1] as nat, b[at + 2] as nat, b[at + 3] as nat;
    var n2 := b2 + 256 * b3;
    var n1 := b1 + 256 * n2;
    LowByte(b0, n1);
    LowByte(b1, n2);
    LowByte(b2, b3);
  }

  /**
   * The decoder looks only at the signature and the four fields: two files of
   * header length that agree there decode alike, whatever else they hold.
   */
  lemma DecodeReadsOnlyFields(f: seq<byte>, g: seq<byte>)
    requires |f| >= HeaderSize && |g| >= HeaderSize && f[..2] == g[..2]
    requires f[DataPosAt .. DataPosAt + 4] == g[DataPosAt .. DataPosAt + 4]
    requires f[WidthAt .. HeightAt + 4] == g[WidthAt .. HeightAt + 4]
    requires f[ImageSizeAt .. ImageSizeAt + 4] == g[ImageSizeAt .. ImageSizeAt + 4]
    ensures DecodeHeader(f) == DecodeHeader(g)
  {
    assert f[0] == f[..2][0] == g[..2][0] == g[0];
    assert f[1] == f[..2][1] == g[..2][1] == g[1];
    assert f[WidthAt .. WidthAt + 4] == f[WidthAt .. HeightAt + 4][..4] == g[WidthAt .. WidthAt + 4];
    assert f[HeightAt .. HeightAt + 4] == f[WidthAt .. HeightAt + 4][4..] == g[HeightAt .. HeightAt + 4];
    Le32Within(f, DataPosAt, f[DataPosAt .. DataPosAt + 4]);
    Le32Within(g, DataPosAt, f[DataPosAt .. DataPosAt + 4]);
    Le32Within(f, WidthAt, f[WidthAt .. WidthAt + 4]);
    Le32Within(g, WidthAt, f[WidthAt .. WidthAt + 4]);
    Le32Within(f, HeightAt, f[HeightAt .. HeightAt + 4]);
    Le32Within(g, HeightAt, f[HeightAt .. HeightAt + 4]);
    Le32Within(f, ImageSizeAt, f[ImageSizeAt .. ImageSizeAt + 4]);
    Le32Within(g, ImageSizeAt, f[ImageSizeAt .. ImageSizeAt + 4]);
  }

  /**
   * Every accepted file decodes as the header built from its own four raw
   * fields (bytes 0x0A, 0x22, 0x12 and 0x16, little-endian) followed by the
   * rest of the file, so `DecodeEncoded` gives its fields and defaults.
   */
  lemma DecodeAsEncoded(f: seq<byte>)
    requires DecodeHeader(f).Some?
    ensures var h := BmpHeader(Le32(f, DataPosAt), Le32(f, ImageSizeAt), Le32(f, WidthAt), Le32(f, HeightAt));
      DecodeHeader(f) == DecodeHeader(EncodeHeader(h) + f[HeaderSize..]) &&
      DecodeHeader(f) == Some(BmpHeader(
        if h.dataPos == 0 then HeaderSize else h.dataPos,
        if h.imageSize == 0 then h.width * h.height * 3 % Word else h.imageSize,
        h.width, h.height))
  {
    var h := BmpHeader(Le32(f, DataPosAt), Le32(f, ImageSizeAt), Le32(f, WidthAt), Le32(f, HeightAt));
    var g := EncodeHeader(h) + f[HeaderSize..];
    EncodedFieldsAt(h, f[HeaderSize..]);
    Le32BytesOf(f, DataPosAt);
    Le32BytesOf(f, WidthAt);
    Le32BytesOf(f, HeightAt);
    Le32BytesOf(f, ImageSizeAt);
    assert f[..2] == g[..2];
    assert f[WidthAt .. HeightAt + 4] == f[WidthAt .. WidthAt + 4] + f[HeightAt .. HeightAt + 4];
    assert g[WidthAt .. HeightAt + 4] == g[WidthAt .. WidthAt + 4] + g[HeightAt .. HeightAt + 4];
    DecodeReadsOnlyFields(f, g);
    DecodeEncoded(h, f[HeaderSize..]);
  }

  /** The 32-bit size arithmetic wraps: a 65536 x 65536 image without a size field gets size 0. */
  lemma ImageSizeWraps()
    ensures DecodeHeader(EncodeHeader(BmpHeader(54, 0, 65536, 65536))).value.imageSize == 0
  {
    DecodeEncoded(BmpHeader(54, 0, 65536, 65536), []);
    assert EncodeHeader(BmpHeader(54, 0, 65536, 65536)) + [] == EncodeHeader(BmpHeader(54, 0, 65536, 65536));
  }

  function Min(a: nat, b: nat): nat { if a <= b then a else b }

  /**
   * `fread` of `size` bytes starting at offset `from` into a buffer of
   * `size` zero bytes: what the file does not have stays zero.
   */
  function ReadFrom(file: seq<byte>, from: nat, size: nat): (data: seq<byte>)
    ensures |data| == size
    ensures forall i :: 0 <= i < size ==> data[i] == if from + i < |file| then file[from + i] else 0
  {
    if from < |file| then
      var n := Min(|file| - from, size);
      file[from .. from + n] + Zeros(size - n)
    else Zeros(size)
  }

  /** A decoded bitmap: its dimensions and its pixel bytes. */
  datatype Image = Image(width: nat, height: nat, data: seq<byte>)

  /**
   * LoadBMP as written: the pixel bytes are read straight after the 54-byte
   * header; the data offset is computed but never used to seek.
   */
  function LoadBmpAsWritten(file: Option<seq<byte>>): (r: Option<Image>)
    ensures r.Some? <==> file.Some? && DecodeHeader(file.value).Some?
    ensures r.Some? ==> |r.value.data| == DecodeHeader(file.value).value.imageSize
    ensures r.Some? ==> var h := DecodeHeader(file.value).value;
      r.value.width == h.width && r.value.height == h.height &&
      forall i :: 0 <= i < h.imageSize ==>
        r.value.data[i] == if HeaderSize + i < |file.value| then file.value[HeaderSize + i] else 0
  {
    if file.None? then None
    else match DecodeHeader(file.value)
      case None => None
      case Some(h) => Some(Image(h.width, h.height, ReadFrom(file.value, HeaderSize, h.imageSize)))
  }

  /** LoadBMP reading the pixel bytes at the data offset the header gives. */
  function LoadBmp(file: Option<seq<byte>>): (r: Option<Image>)
    ensures r.Some? <==> file.Some? && DecodeHeader(file.value).Some?
    ensures r.Some? ==> |r.value.data| == DecodeHeader(file.value).value.imageSize
    ensures r.Some? ==> var h := DecodeHeader(file.value).value;
      r.value.width == h.width && r.value.height == h.height &&
      forall i :: 0 <= i < h.imageSize ==>
        r.value.data[i] == if h.dataPos + i < |file.value| then file.value[h.dataPos + i] else 0
  {
    if file.None? then None
    else match DecodeHeader(file.value)
      case None => None
      case Some(h) => Some(Image(h.width, h.height, ReadFrom(file.value, h.dataPos, h.imageSize)))
  }

  /**
   * A file made of a header, any gap up to the data offset and then the
   * pixel bytes loads back as exactly those pixels.
   */
  lemma LoadBmpRoundTrip(width: nat, height: nat, gap: seq<byte>, pixels: seq<byte>)
    requires width < Word && height < Word && 0 < |pixels| < Word
    requires HeaderSize + |gap| < Word
    ensures LoadBmp(Some(EncodeHeader(BmpHeader(HeaderSize + |gap|, |pixels|, width, height)) + gap + pixels))
            == Some(Image(width, height, pixels))
  {
    var h := BmpHeader(HeaderSize + |gap|, |pixels|, width, height);
    var file := EncodeHeader(h) + gap + pixels;
    assert file == EncodeHeader(h) + (gap + pixels);
    DecodeEncoded(h, gap + pixels);
    var data := ReadFrom(file, h.dataPos, h.imageSize);
    assert data == pixels by {
      forall i | 0 <= i < |pixels| ensures data[i] == pixels[i] {
        assert file[HeaderSize + |gap| + i] == pixels[i];
      }
    }
  }

  /** When the pixels start right after the header both readings agree. */
  lemma AgreeWithoutGap(file: seq<byte>)
    requires DecodeHeader(file).Some? && DecodeHeader(file).value.dataPos == HeaderSize
    ensures LoadBmpAsWritten(Some(file)) == LoadBmp(Some(file))
  {
  }

  /**
   * As written, a file whose pixels follow a gap after the header loads the
   * gap as the first pixel bytes and loses as many bytes at the end.
   */
  lemma AsWrittenShiftsPixels(width: nat, height: nat, gap: seq<byte>, pixels: seq<byte>)
    requires width < Word && height < Word && 0 < |pixels| < Word
    requires HeaderSize + |gap| < Word && |gap| <= |pixels|
    ensures LoadBmpAsWritten(Some(EncodeHeader(BmpHeader(HeaderSize + |gap|, |pixels|, width, height)) + gap + pixels))
            == Some(Image(width, height, gap + pixels[..|pixels| - |gap|]))
  {
    var h := BmpHeader(HeaderSize + |gap|, |pixels|, width, height);
    var header := EncodeHeader(h);
    var file := header + gap + pixels;
    assert file == header + (gap + pixels);
    DecodeEncoded(h, gap + pixels);
    var data := ReadFrom(file, HeaderSize, h.imageSize);
    var expected := gap + pixels[..|pixels| - |gap|];
    assert data == expected by {
      forall i | 0 <= i < |pixels| ensures data[i] == expected[i] {
        assert file[HeaderSize + i] == (gap + pixels)[i];
      }
    }
  }

  /**
   * A one-pixel bitmap whose pixel bytes follow a 4-byte gap (data offset 58):
   * as written, the gap is returned as the pixel data; reading at the data
   * offset returns the pixels.
   */
  lemma AsWrittenReadsGap()
    ensures var file := EncodeHeader(BmpHeader(58, 4, 1, 1)) + [9, 9, 9, 9] + [1, 2, 3, 4];
      LoadBmpAsWritten(Some(file)) == Some(Image(1, 1, [9, 9, 9, 9])) &&
      LoadBmp(Some(file)) == Some(Image(1, 1, [1, 2, 3, 4]))
  {
    AsWrittenShiftsPixels(1, 1, [9, 9, 9, 9], [1, 2, 3, 4]);
    LoadBmpRoundTrip(1, 1, [9, 9, 9, 9], [1, 2, 3, 4]);
    assert [9, 9, 9, 9] + [1, 2, 3, 4][..0] == [9, 9, 9, 9];
  }
}
