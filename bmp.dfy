/**
 * The 24-bit Windows bitmap reader: the packed 54-byte header
 * (BITMAPFILEHEADER followed by BITMAPINFOHEADER, little-endian), the
 * `checkType` signature test, the 4-byte row stride of 24-bpp pixel rows,
 * and the row loop of `readBMP` that drops the row padding while copying.
 * The file is given as its bytes; opening, seeking and reading are
 * modelled by slicing that sequence.
 */
module Bmp {

  newtype byte = x: int | 0 <= x < 0x100
  newtype u16 = x: int | 0 <= x < 0x1_0000
  newtype u32 = x: int | 0 <= x < 0x1_0000_0000

  /** The packed `BMP::Header`, field by field in file order. */
  datatype Header = Header(
    id0: byte, id1: byte,
    fileSize: u32, reserved: u32, dataOffset: u32,
    headerSize: u32, width: u32, height: u32,
    planeNum: u16, bitsPerPixel: u16,
    compressionMethod: u32, dataSize: u32,
    verticalPixelsPerMeter: u32, horizontalPixelsPerMeter: u32,
    colorNum: u32, importantColorNum: u32)

  const HeaderSize: nat := 54

  // ---------------------------------------------------------------------
  // Little-endian fields

  function U16At(b: seq<byte>, i: nat): (x: u16)
    requires i + 2 <= |b|
  {
    (b[i] as int + 0x100 * b[i + 1] as int) as u16
  }

  function U32At(b: seq<byte>, i: nat): (x: u32)
    requires i + 4 <= |b|
  {
    (b[i] as int + 0x100 * b[i + 1] as int + 0x1_0000 * b[i + 2] as int
      + 0x100_0000 * b[i + 3] as int) as u32
  }

  function U16Bytes(x: u16): (r: seq<byte>)
    ensures |r| == 2 && U16At(r, 0) == x
  {
    [(x as int % 0x100) as byte, (x as int / 0x100) as byte]
  }

  function U32Bytes(x: u32): (r: seq<byte>)
    ensures |r| == 4 && U32At(r, 0) == x
  {
    var n := x as int;
    var q1 := n / 0x100;
    var q2 := q1 / 0x100;
    [(n % 0x100) as byte, (q1 % 0x100) as byte, (q2 % 0x100) as byte, (q2 / 0x100) as byte]
  }

  /** Reading two bytes as a field and writing the field back gives the same bytes. */
  lemma U16BytesOfRead(b: seq<byte>, i: nat)
    requires i + 2 <= |b|
    ensures U16Bytes(U16At(b, i)) == b[i..i + 2]
  {
  }

  /** Reading four bytes as a field and writing the field back gives the same bytes. */
  lemma U32BytesOfRead(b: seq<byte>, i: nat)
    requires i + 4 <= |b|
    ensures U32Bytes(U32At(b, i)) == b[i..i + 4]
  {
    var b0, b1, b2, b3 := b[i] as int, b[i + 1] as int, b[i + 2] as int, b[i + 3] as int;
    var q2 := b2 + 0x100 * b3;
    var q1 := b1 + 0x100 * q2;
    assert U32At(b, i) as int == b0 + 0x100 * q1;
    SplitByte(b0, q1);
    SplitByte(b1, q2);
    SplitByte(b2, b3);
  }

  /** Dividing `lo + 256 * hi` by 256 separates the low byte from the rest. */
  lemma SplitByte(lo: int, hi: int)
    requires 0 <= lo < 0x100 && 0 <= hi
    ensures (lo + 0x100 * hi) / 0x100 == hi && (lo + 0x100 * hi) % 0x100 == lo
  {
  }

  // ---------------------------------------------------------------------
  // The 54-byte header

  /**
   * `fread(&header, 1, 54, file)` into the packed struct: the identifier
   * at 0, the file header's three words at 2, 6 and 10, the info header's
   * words at 14..22, its two shorts at 26 and 28 and its six words at
   * 30..50.
   */
  function ParseHeader(b: seq<byte>): (h: Header)
    requires |b| >= HeaderSize
  {
    Header(b[0], b[1],
      U32At(b, 2), U32At(b, 6), U32At(b, 10),
      U32At(b, 14), U32At(b, 18), U32At(b, 22),
      U16At(b, 26), U16At(b, 28),
      U32At(b, 30), U32At(b, 34), U32At(b, 38), U32At(b, 42),
      U32At(b, 46), U32At(b, 50))
  }

  /** Consecutive little-endian words. */
  function Words(xs: seq<u32>): (r: seq<byte>)
    ensures |r| == 4 * |xs|
  {
    if xs == [] then [] else U32Bytes(xs[0]) + Words(xs[1..])
  }

  /** Word `k` of `Words(xs)` sits at byte `4 * k`. */
  lemma {:induction false} WordsAt(xs: seq<u32>, k: nat)
    requires k < |xs|
    ensures Words(xs)[4 * k..4 * k + 4] == U32Bytes(xs[k])
  {
    if k > 0 {
      WordsAt(xs[1..], k - 1);
      assert Words(xs)[4 * k..4 * k + 4] == Words(xs[1..])[4 * (k - 1)..4 * (k - 1) + 4];
    }
  }

  /** Words read from `b` at `i`, `i + 4`, ... are written back as the same bytes. */
  lemma {:induction false} WordsOfRead(b: seq<byte>, i: nat, xs: seq<u32>)
    requires i + 4 * |xs| <= |b|
    requires forall k :: 0 <= k < |xs| ==> xs[k] == U32At(b, i + 4 * k)
    ensures Words(xs) == b[i..i + 4 * |xs|]
    decreases |xs|
  {
    if xs != [] {
      forall k | 0 <= k < |xs| - 1 ensures xs[1..][k] == U32At(b, i + 4 + 4 * k) {
        assert xs[1..][k] == xs[k + 1];
      }
      WordsOfRead(b, i + 4, xs[1..]);
      U32BytesOfRead(b, i);
      assert b[i..i + 4 * |xs|] == b[i..i + 4] + b[i + 4..i + 4 * |xs|];
    }
  }

  /** A slice of the middle part of `pre + mid + post`. */
  lemma SliceOfMiddle(pre: seq<byte>, mid: seq<byte>, post: seq<byte>, i: nat, n: nat)
    requires i + n <= |mid|
    ensures (pre + mid + post)[|pre| + i..|pre| + i + n] == mid[i..i + n]
  {
  }

  /** The six words from `fileSize` to `height`, at offsets 2..22. */
  function LeadingWords(h: Header): (ws: seq<u32>)
    ensures |ws| == 6
  {
    [h.fileSize, h.reserved, h.dataOffset, h.headerSize, h.width, h.height]
  }

  /** The six words from `compressionMethod` to `importantColorNum`, at offsets 30..50. */
  function TrailingWords(h: Header): (ws: seq<u32>)
    ensures |ws| == 6
  {
    [h.compressionMethod, h.dataSize, h.verticalPixelsPerMeter,
     h.horizontalPixelsPerMeter, h.colorNum, h.importantColorNum]
  }

  /** The header's bytes as the packed struct lays them out. */
  function EncodeHeader(h: Header): (r: seq<byte>)
    ensures |r| == HeaderSize
  {
    [h.id0, h.id1] + Words(LeadingWords(h))
    + (U16Bytes(h.planeNum) + U16Bytes(h.bitsPerPixel) + Words(TrailingWords(h)))
  }

  /** The word at `2 + 4 * k` of an encoded header is leading word `k`. */
  lemma LeadingWordAt(h: Header, k: nat)
    requires k < 6
    ensures U32At(EncodeHeader(h), 2 + 4 * k) == LeadingWords(h)[k]
  {
    var e := EncodeHeader(h);
    SliceOfMiddle([h.id0, h.id1], Words(LeadingWords(h)),
      U16Bytes(h.planeNum) + U16Bytes(h.bitsPerPixel) + Words(TrailingWords(h)), 4 * k, 4);
    WordsAt(LeadingWords(h), k);
    assert e[2 + 4 * k..6 + 4 * k] == U32Bytes(LeadingWords(h)[k]);
  }

  /** The word at `30 + 4 * k` of an encoded header is trailing word `k`. */
  lemma TrailingWordAt(h: Header, k: nat)
    requires k < 6
    ensures U32At(EncodeHeader(h), 30 + 4 * k) == TrailingWords(h)[k]
  {
    var e := EncodeHeader(h);
    var pre := [h.id0, h.id1] + Words(LeadingWords(h)) + (U16Bytes(h.planeNum) + U16Bytes(h.bitsPerPixel));
    assert e == pre + Words(TrailingWords(h)) + [];
    SliceOfMiddle(pre, Words(TrailingWords(h)), [], 4 * k, 4);
    WordsAt(TrailingWords(h), k);
    assert e[30 + 4 * k..34 + 4 * k] == U32Bytes(TrailingWords(h)[k]);
  }

  /** Every field of a header survives being written out and read back. */
  lemma ParseEncodeHeader(h: Header)
    ensures ParseHeader(EncodeHeader(h)) == h
  {
    var e := EncodeHeader(h);
    LeadingWordAt(h, 0); LeadingWordAt(h, 1); LeadingWordAt(h, 2);
    LeadingWordAt(h, 3); LeadingWordAt(h, 4); LeadingWordAt(h, 5);
    TrailingWordAt(h, 0); TrailingWordAt(h, 1); TrailingWordAt(h, 2);
    TrailingWordAt(h, 3); TrailingWordAt(h, 4); TrailingWordAt(h, 5);
    assert e[26..28] == U16Bytes(h.planeNum);
    assert e[28..30] == U16Bytes(h.bitsPerPixel);
  }

  /** Every 54-byte header image is the encoding of the header read from it. */
  lemma EncodeParseHeader(b: seq<byte>)
    requires |b| >= HeaderSize
    ensures EncodeHeader(ParseHeader(b)) == b[..HeaderSize]
  {
    var h := ParseHeader(b);
    WordsOfRead(b, 2, LeadingWords(h));
    WordsOfRead(b, 30, TrailingWords(h));
    U16BytesOfRead(b, 26);
    U16BytesOfRead(b, 28);
    assert b[..HeaderSize] == [b[0], b[1]] + b[2..26] + (b[26..28] + b[28..30] + b[30..54]);
  }

  /** `checkType`: the identifier is "BM". */
  function CheckType(h: Header): (ok: bool)
  {
    h.id0 == 'B' as int as byte && h.id1 == 'M' as int as byte
  }

  /** A header read from a file passes `checkType` iff the file starts with the bytes 'B', 'M'. */
  lemma CheckTypeOfFile(b: seq<byte>)
    requires |b| >= HeaderSize
    ensures CheckType(ParseHeader(b)) <==> b[..2] == [66, 77]
  {
    if CheckType(ParseHeader(b)) {
      assert b[..2] == [b[0], b[1]];
    }
  }

  // ---------------------------------------------------------------------
  // Row stride and the pixel rows

  /** The stride of a 24-bpp row of `width` pixels in the file: `lineWidth`. */
  function LineWidth(width: nat): (lw: nat)
  {
    if width % 4 != 0 then 4 * (1 + width * 3 / 4) else width * 3
  }

  /** How many 4-byte items `readBMP` asks `fread` for per row. */
  function RowItems(width: nat): (n: nat)
  {
    if width % 4 != 0 then 1 + width * 3 / 4 else width * 3 / 4
  }

  /**
   * The stride is the pixel bytes rounded up to a multiple of 4: the least
   * such multiple, equal to `3 * width` exactly when `width` is a multiple
   * of 4; `readBMP`'s item count covers exactly one stride.
   */
  lemma LineWidthIsPadding(width: nat)
    ensures LineWidth(width) % 4 == 0
    ensures 3 * width <= LineWidth(width) < 3 * width + 4
    ensures LineWidth(width) == 3 * width <==> width % 4 == 0
    ensures forall m: nat :: m % 4 == 0 && 3 * width <= m ==> LineWidth(width) <= m
    ensures 4 * RowItems(width) == LineWidth(width)
  {
    var t := width * 3;
    var q := t / 4;
    DivMod4(t);
    ThreeTimesMod4(width);
    forall m: nat | m % 4 == 0 && t <= m ensures LineWidth(width) <= m {
      DivMod4(m);
      if t % 4 != 0 {
        assert q < m / 4;
      }
    }
  }

  lemma DivMod4(n: nat)
    ensures n == 4 * (n / 4) + n % 4 && 0 <= n % 4 < 4
  {
  }

  /** `3 * width` is a multiple of 4 exactly when `width` is. */
  lemma ThreeTimesMod4(width: nat)
    ensures (width * 3) % 4 == 0 <==> width % 4 == 0
  {
    var q, r := width / 4, width % 4;
    DivMod4(width);
    assert width * 3 == 4 * (3 * q) + 3 * r;
    ModOfMultiplePlus(3 * q, 3 * r);
  }

  lemma ModOfMultiplePlus(a: nat, r: nat)
    ensures (4 * a + r) % 4 == r % 4
  {
  }

  /**
   * `a * n` as repeated addition. Row offsets are written with it, so that
   * the proofs about rows stay linear.
   */
  function Times(a: nat, n: nat): nat
  {
    if n == 0 then 0 else Times(a, n - 1) + a
  }

  lemma {:induction false} TimesIsProduct(a: nat, n: nat)
    ensures Times(a, n) == a * n
  {
    if n > 0 {
      TimesIsProduct(a, n - 1);
    }
  }

  lemma {:induction false} TimesMonotone(a: nat, m: nat, n: nat)
    requires m <= n
    ensures Times(a, m) <= Times(a, n)
    decreases n
  {
    if m < n {
      TimesMonotone(a, m, n - 1);
    }
  }

  /** The last row written by `readBMP` ends inside the `3 * width * height + 4` allocation. */
  lemma RowWriteInBounds(width: nat, height: nat, row: nat)
    requires row < height
    ensures Times(3 * width, row) + LineWidth(width) <= Times(3 * width, height) + 4
  {
    LineWidthIsPadding(width);
    TimesMonotone(3 * width, row + 1, height);
  }

  /** File row `r` is present in full among the pixel bytes. */
  ghost predicate RowInFile(width: nat, pixels: seq<byte>, r: nat)
  {
    Times(LineWidth(width), r) + LineWidth(width) <= |pixels|
  }

  /** The pixel bytes of file row `r` sit, unpadded, at `3 * width * r` of `image`. */
  ghost predicate RowCopied(image: seq<byte>, pixels: seq<byte>, width: nat, r: nat)
  {
    SameBytes(image, Times(3 * width, r), pixels, Times(LineWidth(width), r), 3 * width)
  }

  /** `n` bytes of `a` from `i` equal `n` bytes of `b` from `j`. */
  ghost predicate SameBytes(a: seq<byte>, i: nat, b: seq<byte>, j: nat, n: nat)
  {
    i + n <= |a| && j + n <= |b| && a[i..i + n] == b[j..j + n]
  }

  /**
   * The bytes `fread` delivers for file row `r`: whole 4-byte items from
   * the row's start, as many as the row asks for and the file still holds.
   */
  function RowRead(width: nat, pixels: seq<byte>, r: nat): (s: seq<byte>)
    ensures |s| <= LineWidth(width)
    ensures RowInFile(width, pixels, r) ==> |s| == LineWidth(width)
    ensures |s| > 0 ==>
      (Times(LineWidth(width), r) + |s| <= |pixels| &&
       s == pixels[Times(LineWidth(width), r)..Times(LineWidth(width), r) + |s|])
  {
    LineWidthIsPadding(width);
    var lw := LineWidth(width);
    var start := Times(lw, r);
    if start >= |pixels| then []
    else
      var items := if RowItems(width) <= (|pixels| - start) / 4 then RowItems(width)
        else (|pixels| - start) / 4;
      pixels[start..start + 4 * items]
  }

  /**
   * The row loop of `readBMP` on the pixel bytes after `dataOffset`: each
   * file row lands at `3 * width * c0`, and its padding is overwritten by
   * the next row, so every row present in the file is left unpadded.
   */
  method ReadRows(width: nat, height: nat, pixels: seq<byte>) returns (image: seq<byte>)
    ensures |image| == 3 * width * height + 4
    ensures forall r :: 0 <= r < height && RowInFile(width, pixels, r) ==>
      RowCopied(image, pixels, width, r)
  {
    var buf := new byte[3 * width * height + 4];
    TimesIsProduct(3 * width, height);
    FillRows(buf, width, height, pixels);
    image := buf[..];
  }

  /** The loop of `ReadRows` on the allocated buffer. */
  method FillRows(buf: array<byte>, width: nat, height: nat, pixels: seq<byte>)
    requires buf.Length == Times(3 * width, height) + 4
    modifies buf
    ensures forall r :: 0 <= r < height && RowInFile(width, pixels, r) ==>
      RowCopied(buf[..], pixels, width, r)
  {
    for c0 := 0 to height
      invariant forall r :: 0 <= r < c0 && RowInFile(width, pixels, r) ==>
        RowCopied(buf[..], pixels, width, r)
    {
      var row := RowRead(width, pixels, c0);
      var o := Times(3 * width, c0);
      RowWriteInBounds(width, height, c0);
      ghost var before := buf[..];
      CopyInto(buf, o, row);
      RowStep(before, buf[..], pixels, width, c0);
    }
  }

  /** Writing row `c0` keeps every earlier row unpadded and adds row `c0` when it is in the file. */
  lemma RowStep(before: seq<byte>, after: seq<byte>, pixels: seq<byte>, width: nat, c0: nat)
    requires Times(3 * width, c0) + |RowRead(width, pixels, c0)| <= |before|
    requires after == before[..Times(3 * width, c0)] + RowRead(width, pixels, c0)
      + before[Times(3 * width, c0) + |RowRead(width, pixels, c0)|..]
    requires forall r :: 0 <= r < c0 && RowInFile(width, pixels, r) ==>
      RowCopied(before, pixels, width, r)
    ensures forall r :: 0 <= r < c0 + 1 && RowInFile(width, pixels, r) ==>
      RowCopied(after, pixels, width, r)
  {
    var row, o := RowRead(width, pixels, c0), Times(3 * width, c0);
    SpliceFacts(before, row, after, o);
    forall r | 0 <= r < c0 && RowInFile(width, pixels, r)
      ensures RowCopied(after, pixels, width, r)
    {
      EarlierRowUntouched(before, after, pixels, width, r, c0);
    }
    if RowInFile(width, pixels, c0) {
      NewRowCopied(after, pixels, width, c0);
    }
  }

  /** Splicing `row` into `before` at `o` keeps the length and the bytes before `o`. */
  lemma SpliceFacts(before: seq<byte>, row: seq<byte>, after: seq<byte>, o: nat)
    requires o + |row| <= |before|
    requires after == before[..o] + row + before[o + |row|..]
    ensures |after| == |before|
    ensures forall i :: 0 <= i < o ==> after[i] == before[i]
    ensures after[o..o + |row|] == row
  {
  }

  /** A full file row spliced in at `3 * width * c0` leaves that row unpadded there. */
  lemma NewRowCopied(after: seq<byte>, pixels: seq<byte>, width: nat, c0: nat)
    requires RowInFile(width, pixels, c0)
    requires Times(3 * width, c0) + |RowRead(width, pixels, c0)| <= |after|
    requires after[Times(3 * width, c0)..Times(3 * width, c0) + |RowRead(width, pixels, c0)|] ==
      RowRead(width, pixels, c0)
    ensures RowCopied(after, pixels, width, c0)
  {
    StrideCoversPixels(width);
    SpliceCopies(after, Times(3 * width, c0), RowRead(width, pixels, c0), pixels,
                 Times(LineWidth(width), c0), 3 * width);
  }

  lemma SpliceCopies(a: seq<byte>, i: nat, row: seq<byte>, b: seq<byte>, j: nat, n: nat)
    requires i + |row| <= |a| && a[i..i + |row|] == row
    requires j + |row| <= |b| && b[j..j + |row|] == row
    requires n <= |row|
    ensures SameBytes(a, i, b, j, n)
  {
    SlicePrefix(a, row, i, n);
    SlicePrefix(b, row, j, n);
  }

  /** A prefix of a slice that equals `b` equals the same prefix of `b`. */
  lemma SlicePrefix(a: seq<byte>, b: seq<byte>, i: nat, n: nat)
    requires i + |b| <= |a| && a[i..i + |b|] == b && n <= |b|
    ensures i + n <= |a| && a[i..i + n] == b[..n]
  {
    assert a[i..i + n] == a[i..i + |b|][..n];
  }

  lemma StrideCoversPixels(width: nat)
    ensures 3 * width <= LineWidth(width)
  {
    DivMod4(width * 3);
  }

  /** Writing row `c0` leaves the unpadded pixels of an earlier row alone. */
  lemma EarlierRowUntouched(before: seq<byte>, after: seq<byte>, pixels: seq<byte>,
                            width: nat, r: nat, c0: nat)
    requires r < c0 && |after| == |before| && Times(3 * width, c0) <= |before|
    requires forall i :: 0 <= i < Times(3 * width, c0) ==> after[i] == before[i]
    requires RowCopied(before, pixels, width, r)
    ensures RowCopied(after, pixels, width, r)
  {
    var o := Times(3 * width, r);
    TimesMonotone(3 * width, r + 1, c0);
    assert after[o..o + 3 * width] == before[o..o + 3 * width];
  }

  /** `memcpy(buf + o, src, |src|)`. */
  method CopyInto(buf: array<byte>, o: nat, src: seq<byte>)
    requires o + |src| <= buf.Length
    modifies buf
    ensures buf[..] == old(buf[..o]) + src + old(buf[o + |src|..])
  {
    for j := 0 to |src|
      invariant buf[..] == old(buf[..o]) + src[..j] + old(buf[o + j..])
    {
      buf[o + j] := src[j];
      assert src[..j + 1] == src[..j] + [src[j]];
    }
  }

  /**
   * `readBMP`: the header from the first 54 bytes, then the pixel rows from
   * `dataOffset` on (nothing when the offset lies past the end).
   */
  method ReadBmp(file: seq<byte>) returns (h: Header, image: seq<byte>)
    requires |file| >= HeaderSize
    ensures h == ParseHeader(file)
    ensures |image| == 3 * h.width as int * h.height as int + 4
    ensures var w, p := h.width as int, PixelBytes(file, h);
      forall r :: 0 <= r < h.height as int && RowInFile(w, p, r) ==> RowCopied(image, p, w, r)
  {
    h := ParseHeader(file);
    image := ReadRows(h.width as int, h.height as int, PixelBytes(file, h));
  }

  /** The bytes from `dataOffset` to the end of the file, where `fseek` leaves the reader. */
  function PixelBytes(file: seq<byte>, h: Header): (p: seq<byte>)
    ensures h.dataOffset as int <= |file| ==> p == file[h.dataOffset..]
    ensures h.dataOffset as int > |file| ==> p == []
  {
    if h.dataOffset as int <= |file| then file[h.dataOffset..] else []
  }

  /**
   * The `BMP(path)` constructor's `textureData`: `lineWidth * height`
   * bytes read straight from `dataOffset`, padding kept.
   */
  function TextureData(width: nat, height: nat, pixels: seq<byte>): (t: seq<byte>)
    ensures |t| <= LineWidth(width) * height
    ensures LineWidth(width) * height <= |pixels| ==> |t| == LineWidth(width) * height
    ensures |t| <= |pixels| && t == pixels[..|t|]
  {
    var n := LineWidth(width) * height;
    if n <= |pixels| then pixels[..n] else pixels
  }

  /** A full texture holds exactly `height` padded rows, row `r` at `lineWidth * r`. */
  lemma TextureHoldsPaddedRows(width: nat, height: nat, pixels: seq<byte>, r: nat)
    requires LineWidth(width) * height <= |pixels| && r < height
    ensures RowInFile(width, pixels, r)
    ensures var t, lw := TextureData(width, height, pixels), LineWidth(width);
      Times(lw, r) + lw <= |t| && t[Times(lw, r)..Times(lw, r) + lw] == RowRead(width, pixels, r)
  {
    var lw := LineWidth(width);
    TimesMonotone(lw, r + 1, height);
    TimesIsProduct(lw, height);
  }
}
