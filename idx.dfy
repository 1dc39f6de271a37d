/**
 * The IDX reader of the MNIST files: an image stream and a label stream, both
 * starting with a big-endian 32-bit magic number, read through two cursors.
 * The streams are byte sequences; a read past the end is the `EndOfFile` error
 * (Java's EOFException), a negative pixel count is `NegativeArraySize`.
 */
module IdxFormat {
  import opened Wrappers
  import opened Collections

  /** An unsigned byte as stored in the files. */
  newtype Byte = x: int | 0 <= x < 256

  const NumbersMagicNumber: int := 2051
  const LabelMagicNumber: int := 2049

  /** The four bytes each magic number is stored as. */
  const NumbersMagicBytes: seq<Byte> := [0x00, 0x00, 0x08, 0x03]
  const LabelMagicBytes: seq<Byte> := [0x00, 0x00, 0x08, 0x01]

  const TwoTo31: int := 0x8000_0000
  const TwoTo32: int := 0x1_0000_0000

  datatype IdxError = IncorrectMagicNumber | EndOfFile | NegativeArraySize

  // ---------------------------------------------------------------------------
  // Bytes and 32-bit integers
  // ---------------------------------------------------------------------------

  /** `readByte`: the byte as a signed 8-bit value. */
  function Signed(b: Byte): (v: int)
    ensures -128 <= v < 128
    ensures v % 256 == b as int
  {
    if b < 128 then b as int else b as int - 256
  }

  /** `ubyte`: `toInt() and 0xFF` on a sign-extended byte, i.e. the value modulo 256. */
  function UByte(v: int): (u: int)
    requires -128 <= v < 128
    ensures 0 <= u < 256
    ensures v >= 0 ==> u == v
    ensures v < 0 ==> u == v + 256
  {
    v % 256
  }

  /** Reading a byte signed and passing it through `ubyte` gives back its unsigned value. */
  lemma UByteOfSigned(b: Byte)
    ensures UByte(Signed(b)) == b as int
  {
  }

  /** Java `Int` arithmetic: the value reduced into [-2^31, 2^31). */
  function Wrap32(x: int): (w: int)
    ensures -TwoTo31 <= w < TwoTo31
    ensures (x - w) % TwoTo32 == 0
    ensures -TwoTo31 <= x < TwoTo31 ==> w == x
  {
    (x + TwoTo31) % TwoTo32 - TwoTo31
  }

  function BigEndian(a: Byte, b: Byte, c: Byte, d: Byte): (u: int)
    ensures 0 <= u < TwoTo32
  {
    a as int * 0x100_0000 + b as int * 0x1_0000 + c as int * 0x100 + d as int
  }

  /** `readInt`: four bytes, most significant first, as a signed 32-bit value; `None` at end of stream. */
  function ReadInt(s: seq<Byte>, pos: nat): (r: Option<int>)
    ensures r.Some? <==> pos + 4 <= |s|
    ensures r.Some? ==> -TwoTo31 <= r.value < TwoTo31
  {
    if pos + 4 > |s| then None
    else Some(Wrap32(BigEndian(s[pos], s[pos + 1], s[pos + 2], s[pos + 3])))
  }

  /** The four bytes `writeInt` would produce for `v`. */
  function EncodeInt(v: int): (bytes: seq<Byte>)
    requires -TwoTo31 <= v < TwoTo31
    ensures |bytes| == 4
  {
    var u := if v < 0 then v + TwoTo32 else v;
    var q1 := u / 0x100;
    var q2 := q1 / 0x100;
    [(q2 / 0x100) as Byte, (q2 % 0x100) as Byte, (q1 % 0x100) as Byte, (u % 0x100) as Byte]
  }

  /** The digits base 256 of a big-endian value are its bytes. */
  lemma BigEndianDigits(a: Byte, b: Byte, c: Byte, d: Byte)
    ensures var u := BigEndian(a, b, c, d);
      var q1 := u / 0x100;
      var q2 := q1 / 0x100;
      q2 / 0x100 == a as int && q2 % 0x100 == b as int && q1 % 0x100 == c as int && u % 0x100 == d as int
  {
    var u := BigEndian(a, b, c, d);
    var (a, b, c, d) := (a as int, b as int, c as int, d as int);
    DivMod(u, 0x100, (a * 0x100 + b) * 0x100 + c, d);
    DivMod((a * 0x100 + b) * 0x100 + c, 0x100, a * 0x100 + b, c);
    DivMod(a * 0x100 + b, 0x100, a, b);
  }

  /** Writing an int and reading it back gives the int. */
  lemma ReadEncoded(v: int)
    requires -TwoTo31 <= v < TwoTo31
    ensures ReadInt(EncodeInt(v), 0) == Some(v)
  {
    var u := if v < 0 then v + TwoTo32 else v;
    var bytes := EncodeInt(v);
    var q1 := u / 0x100;
    var q2 := q1 / 0x100;
    assert u == q1 * 0x100 + u % 0x100;
    assert q1 == q2 * 0x100 + q1 % 0x100;
    assert q2 == q2 / 0x100 * 0x100 + q2 % 0x100;
    assert BigEndian(bytes[0], bytes[1], bytes[2], bytes[3]) == u;
  }

  /** Reading four bytes as an int and writing it back gives the four bytes. */
  lemma EncodeRead(s: seq<Byte>, pos: nat)
    requires pos + 4 <= |s|
    ensures EncodeInt(ReadInt(s, pos).value) == s[pos..pos + 4]
  {
    var u := BigEndian(s[pos], s[pos + 1], s[pos + 2], s[pos + 3]);
    var v := ReadInt(s, pos).value;
    assert (if v < 0 then v + TwoTo32 else v) == u;
    BigEndianDigits(s[pos], s[pos + 1], s[pos + 2], s[pos + 3]);
  }

  /** A stream starts with a given int exactly when it starts with that int's four bytes. */
  lemma ReadIntIs(s: seq<Byte>, pos: nat, v: int)
    requires -TwoTo31 <= v < TwoTo31
    ensures ReadInt(s, pos) == Some(v) <==> pos + 4 <= |s| && s[pos..pos + 4] == EncodeInt(v)
  {
    if pos + 4 <= |s| {
      EncodeRead(s, pos);
      if s[pos..pos + 4] == EncodeInt(v) {
        ReadEncoded(v);
        assert s[pos..pos + 4] == EncodeInt(v)[0..4];
        assert forall i :: 0 <= i < 4 ==> s[pos + i] == EncodeInt(v)[i];
      }
    }
  }

  /** The magic numbers are stored as the bytes 00 00 08 03 and 00 00 08 01. */
  lemma MagicBytes()
    ensures EncodeInt(NumbersMagicNumber) == NumbersMagicBytes
    ensures EncodeInt(LabelMagicNumber) == LabelMagicBytes
  {
  }

  // ---------------------------------------------------------------------------
  // Header
  // ---------------------------------------------------------------------------

  datatype Header = Header(numbersCount: int, numberOfRows: int, numberOfCols: int)

  /** `checkMagicNumber`: reads an int at `pos` and compares it with the expected value. */
  function CheckMagicNumber(s: seq<Byte>, pos: nat, magicNumber: int): (r: Option<IdxError>)
    requires -TwoTo31 <= magicNumber < TwoTo31
    ensures r == None <==> pos + 4 <= |s| && s[pos..pos + 4] == EncodeInt(magicNumber)
    ensures r == Some(EndOfFile) <==> pos + 4 > |s|
  {
    ReadIntIs(s, pos, magicNumber);
    match ReadInt(s, pos)
    case None => Some(EndOfFile)
    case Some(v) => if v != magicNumber then Some(IncorrectMagicNumber) else None
  }

  /**
   * `init`: the image magic number, then the label magic number, then count,
   * rows and columns from the image stream. The label stream's own count field
   * is never read.
   */
  function ParseHeader(images: seq<Byte>, labels: seq<Byte>): (r: Result<Header, IdxError>)
    ensures |images| < 4 ==> r == Failure(EndOfFile)
    ensures |images| >= 4 && images[..4] != NumbersMagicBytes ==> r == Failure(IncorrectMagicNumber)
    ensures |images| >= 4 && images[..4] == NumbersMagicBytes ==>
      (|labels| < 4 ==> r == Failure(EndOfFile)) &&
      (|labels| >= 4 && labels[..4] != LabelMagicBytes ==> r == Failure(IncorrectMagicNumber))
    ensures r.Success? <==>
      |images| >= 16 && images[..4] == NumbersMagicBytes && |labels| >= 4 && labels[..4] == LabelMagicBytes
    ensures r.Failure? ==> r.error != NegativeArraySize
    ensures r.Success? ==>
      -TwoTo31 <= r.value.numbersCount < TwoTo31 && -TwoTo31 <= r.value.numberOfRows < TwoTo31 &&
      -TwoTo31 <= r.value.numberOfCols < TwoTo31 &&
      EncodeInt(r.value.numbersCount) == images[4..8] &&
      EncodeInt(r.value.numberOfRows) == images[8..12] &&
      EncodeInt(r.value.numberOfCols) == images[12..16]
  {
    MagicBytes();
    match CheckMagicNumber(images, 0, NumbersMagicNumber)
    case Some(e) => Failure(e)
    case None =>
      match CheckMagicNumber(labels, 0, LabelMagicNumber)
      case Some(e) => Failure(e)
      case None =>
        if |images| < 16 then Failure(EndOfFile)
        else
          EncodeRead(images, 4);
          EncodeRead(images, 8);
          EncodeRead(images, 12);
          Success(Header(ReadInt(images, 4).value, ReadInt(images, 8).value, ReadInt(images, 12).value))
  }

  /** The image magic number is checked before the label stream is touched. */
  lemma ImageMagicFirst(images: seq<Byte>, labels: seq<Byte>, otherLabels: seq<Byte>)
    requires |images| < 4 || images[..4] != NumbersMagicBytes
    ensures ParseHeader(images, labels) == ParseHeader(images, otherLabels)
    ensures ParseHeader(images, labels).Failure?
  {
  }

  // ---------------------------------------------------------------------------
  // Records
  // ---------------------------------------------------------------------------

  datatype Record = Record(digit: int, pixels: seq<int>)

  /** The unsigned values of `n` bytes of `s` from `pos`. */
  function Unsigned(s: seq<Byte>, pos: nat, n: nat): (u: seq<int>)
    requires pos + n <= |s|
    ensures |u| == n
    ensures forall i :: 0 <= i < n ==> 0 <= u[i] < 256 && u[i] == s[pos + i] as int
  {
    seq(n, i requires 0 <= i < n => s[pos + i] as int)
  }

  /** The record the k-th `next` returns: label byte 4 + k, pixel bytes 16 + k*n up to 16 + (k+1)*n. */
  function RecordAt(images: seq<Byte>, labels: seq<Byte>, n: nat, k: nat): (r: Record)
    requires 4 + k < |labels| && 16 + (k + 1) * n <= |images|
    ensures 0 <= r.digit < 256 && |r.pixels| == n
    ensures forall i :: 0 <= i < n ==> 0 <= r.pixels[i] < 256
  {
    Record(labels[4 + k] as int, Unsigned(images, 16 + k * n, n))
  }

  /**
   * Iterating the reader to the end from cursors `imagePos` and `labelPos` with
   * `n` pixels per record: records while image bytes remain, or the error of the
   * first `next` that fails.
   */
  function ReadAll(images: seq<Byte>, labels: seq<Byte>, n: int, imagePos: nat, labelPos: nat): (r: Result<seq<Record>, IdxError>)
    requires imagePos <= |images| && labelPos <= |labels|
    ensures r.Success? ==> |r.value| <= |labels| - labelPos
    decreases |images| - imagePos + |labels| - labelPos
  {
    if imagePos == |images| then Success([])
    else if labelPos == |labels| then Failure(EndOfFile)
    else if n < 0 then Failure(NegativeArraySize)
    else if imagePos + n > |images| then Failure(EndOfFile)
    else
      var first := Record(labels[labelPos] as int, Unsigned(images, imagePos, n));
      match ReadAll(images, labels, n, imagePos + n, labelPos + 1)
      case Failure(e) => Failure(e)
      case Success(rest) => Success([first] + rest)
  }

  /**
   * How many records reading to the end returns from the cursors before it runs
   * out of image bytes or a `next` fails: on success, every record it returns.
   */
  function ReadCount(images: seq<Byte>, labels: seq<Byte>, n: int, imagePos: nat, labelPos: nat): (c: nat)
    requires imagePos <= |images| && labelPos <= |labels|
    ensures c <= |labels| - labelPos
    ensures ReadAll(images, labels, n, imagePos, labelPos).Success? ==>
      c == |ReadAll(images, labels, n, imagePos, labelPos).value|
    decreases |images| - imagePos + |labels| - labelPos
  {
    if imagePos == |images| || labelPos == |labels| || n < 0 || imagePos + n > |images| then 0
    else 1 + ReadCount(images, labels, n, imagePos + n, labelPos + 1)
  }

  /**
   * After `m` records, the records counted are the ones the files hold in full,
   * and counting stops exactly where the next record cannot be read: at the end
   * of the images, at the end of the labels, or with too few pixel bytes left.
   */
  lemma {:induction false} ReadCountStops(images: seq<Byte>, labels: seq<Byte>, n: nat, m: nat)
    requires 16 + m * n <= |images| && 4 + m <= |labels|
    ensures var c := ReadCount(images, labels, n, 16 + m * n, 4 + m);
      4 + m + c <= |labels| && 16 + (m + c) * n <= |images|
    ensures var c := ReadCount(images, labels, n, 16 + m * n, 4 + m);
      16 + (m + c) * n == |images| || 4 + m + c == |labels| || 16 + (m + c + 1) * n > |images|
    decreases |labels| - m
  {
    var ip := 16 + m * n;
    NextOffset(m, n);
    if ip < |images| && 4 + m < |labels| && ip + n <= |images| {
      ReadCountStops(images, labels, n, m + 1);
      assert ReadCount(images, labels, n, ip, 4 + m) == 1 + ReadCount(images, labels, n, 16 + (m + 1) * n, 4 + m + 1);
    }
  }

  /**
   * Reading to the end after `m` records returns, as its k-th record, the
   * (m + k)-th record of the files.
   */
  lemma {:induction false} ReadAllRecord(images: seq<Byte>, labels: seq<Byte>, n: nat, m: nat, k: nat)
    requires 16 + m * n <= |images| && 4 + m <= |labels|
    requires ReadAll(images, labels, n, 16 + m * n, 4 + m).Success?
    requires k < |ReadAll(images, labels, n, 16 + m * n, 4 + m).value|
    ensures 4 + m + k < |labels| && 16 + (m + k + 1) * n <= |images|
    ensures ReadAll(images, labels, n, 16 + m * n, 4 + m).value[k] == RecordAt(images, labels, n, m + k)
    decreases k
  {
    var ip := 16 + m * n;
    NextOffset(m, n);
    if k > 0 {
      ReadAllRecord(images, labels, n, m + 1, k - 1);
      assert m + 1 + (k - 1) == m + k;
    }
  }

  /** With a positive pixel count, reading to the end after `m` records uses up the image bytes exactly. */
  lemma {:induction false} ReadAllExhausts(images: seq<Byte>, labels: seq<Byte>, n: nat, m: nat)
    requires n > 0 && 16 + m * n <= |images| && 4 + m <= |labels|
    requires ReadAll(images, labels, n, 16 + m * n, 4 + m).Success?
    ensures 16 + (m + |ReadAll(images, labels, n, 16 + m * n, 4 + m).value|) * n == |images|
    decreases |images| - (16 + m * n)
  {
    var ip := 16 + m * n;
    if ip < |images| {
      NextOffset(m, n);
      ReadAllExhausts(images, labels, n, m + 1);
    }
  }

  lemma NextOffset(m: nat, n: nat)
    ensures 16 + m * n + n == 16 + (m + 1) * n
  {
  }

  // ---------------------------------------------------------------------------
  // The reader
  // ---------------------------------------------------------------------------

  class Idx {
    const images: seq<Byte>
    const labels: seq<Byte>
    const numbersCount: int
    const numberOfRows: int
    const numberOfCols: int
    /** Cursor into `images`: the number of bytes consumed. */
    var imagePos: nat
    /** Cursor into `labels`: the number of bytes consumed. */
    var labelPos: nat
    /** Records returned so far. */
    ghost var served: nat

    ghost predicate Valid()
      reads this
    {
      imagePos <= |images| && labelPos <= |labels|
    }

    /** `numberOfCols * numberOfRows` in 32-bit arithmetic. */
    function PixelCount(): (n: int)
      ensures -TwoTo31 <= n < TwoTo31
      ensures (numberOfCols * numberOfRows - n) % TwoTo32 == 0
    {
      Wrap32(numberOfCols * numberOfRows)
    }

    /** The cursors sit where `served` full records after the header put them. */
    ghost predicate InLockstep()
      reads this
    {
      labelPos == 4 + served && imagePos == 16 + served * PixelCount()
    }

    constructor FromHeader(images: seq<Byte>, labels: seq<Byte>, h: Header)
      requires |images| >= 16 && |labels| >= 4
      ensures this.images == images && this.labels == labels
      ensures numbersCount == h.numbersCount && numberOfRows == h.numberOfRows && numberOfCols == h.numberOfCols
      ensures imagePos == 16 && labelPos == 4 && served == 0
      ensures Valid() && InLockstep()
    {
      this.images := images;
      this.labels := labels;
      numbersCount := h.numbersCount;
      numberOfRows := h.numberOfRows;
      numberOfCols := h.numberOfCols;
      imagePos := 16;
      labelPos := 4;
      served := 0;
    }

    /** Construction: the header checks of `init`, leaving the cursors after the bytes they consumed. */
    static method Open(images: seq<Byte>, labels: seq<Byte>) returns (r: Result<Idx, IdxError>)
      ensures r.Failure? <==> ParseHeader(images, labels).Failure?
      ensures r.Failure? ==> r.error == ParseHeader(images, labels).error
      ensures r.Success? ==>
        var h := ParseHeader(images, labels).value;
        fresh(r.value) && r.value.Valid() && r.value.InLockstep() &&
        r.value.images == images && r.value.labels == labels &&
        r.value.numbersCount == h.numbersCount && r.value.numberOfRows == h.numberOfRows &&
        r.value.numberOfCols == h.numberOfCols &&
        r.value.imagePos == 16 && r.value.labelPos == 4 && r.value.served == 0
    {
      var imagePos, labelPos := 0, 0;
      var check := CheckMagicNumber(images, imagePos, NumbersMagicNumber);
      if check.Some? {
        return Failure(check.value);
      }
      imagePos := imagePos + 4;
      check := CheckMagicNumber(labels, labelPos, LabelMagicNumber);
      if check.Some? {
        return Failure(check.value);
      }
      labelPos := labelPos + 4;
      var numbersCount := ReadInt(images, imagePos);
      var numberOfRows := ReadInt(images, imagePos + 4);
      var numberOfCols := ReadInt(images, imagePos + 8);
      if numbersCount.None? || numberOfRows.None? || numberOfCols.None? {
        return Failure(EndOfFile);
      }
      imagePos := imagePos + 12;
      var idx := new Idx.FromHeader(images, labels, Header(numbersCount.value, numberOfRows.value, numberOfCols.value));
      r := Success(idx);
    }

    /**
     * `hasNext`: unread image bytes remain; the label stream and the header count
     * play no part. The source asks the stream for `available() > 0`; for a file
     * read to the end that is whether bytes remain, which is what this states.
     */
    function HasNext(): (b: bool)
      reads this
      ensures b <==> imagePos < |images|
    {
      imagePos < |images|
    }

    /**
     * `next`: one label byte, then `PixelCount()` pixel bytes, each through `ubyte`.
     * A label read at the end of its stream fails before anything is consumed; a
     * negative pixel count fails after the label is consumed; running out of image
     * bytes part way fails with the image stream read to its end.
     */
    method Next() returns (r: Result<Record, IdxError>)
      requires Valid()
      modifies this`imagePos, this`labelPos, this`served
      ensures Valid()
      ensures old(labelPos) == |labels| ==>
        r == Failure(EndOfFile) && labelPos == old(labelPos) && imagePos == old(imagePos)
      ensures old(labelPos) < |labels| ==> labelPos == old(labelPos) + 1
      ensures old(labelPos) < |labels| && PixelCount() < 0 ==>
        r == Failure(NegativeArraySize) && imagePos == old(imagePos)
      ensures old(labelPos) < |labels| && 0 <= PixelCount() && old(imagePos) + PixelCount() > |images| ==>
        r == Failure(EndOfFile) && imagePos == |images|
      ensures r.Success? <==>
        old(labelPos) < |labels| && 0 <= PixelCount() && old(imagePos) + PixelCount() <= |images|
      ensures r.Success? ==>
        imagePos == old(imagePos) + PixelCount() && served == old(served) + 1 &&
        r.value == Record(labels[old(labelPos)] as int, Unsigned(images, old(imagePos), PixelCount()))
      ensures r.Failure? ==> served == old(served)
      ensures old(InLockstep()) && r.Success? ==>
        InLockstep() && r.value == RecordAt(images, labels, PixelCount(), old(served))
    {
      if labelPos == |labels| {
        return Failure(EndOfFile);
      }
      UByteOfSigned(labels[labelPos]);
      var digit := UByte(Signed(labels[labelPos]));
      labelPos := labelPos + 1;
      var n := PixelCount();
      if n < 0 {
        return Failure(NegativeArraySize);
      }
      var pixels := new int[n];
      var start := imagePos;
      var i := 0;
      while i < n
        invariant 0 <= i <= n && imagePos == start + i && imagePos <= |images|
        invariant forall j :: 0 <= j < i ==> pixels[j] == images[start + j] as int
        modifies pixels, this`imagePos
      {
        if imagePos == |images| {
          return Failure(EndOfFile);
        }
        UByteOfSigned(images[imagePos]);
        pixels[i] := UByte(Signed(images[imagePos]));
        imagePos := imagePos + 1;
        i := i + 1;
      }
      r := Success(Record(digit, pixels[..]));
      served := served + 1;
    }
  }
}
