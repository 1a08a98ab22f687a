/**
 * The helpers of `Internal.java`: Base64 over UTF-8 text, and the `.md5` and
 * `.sha1` checksum files written beside an artifact as lowercase hex.
 */
module Internal {
  import opened Wrappers
  import opened Text
  import opened Exceptions
  import Base64

  /** `base64Encode`: the basic encoding of the text's UTF-8 bytes, read back as (ASCII) text. */
  function Base64Encode(text: Text): Text {
    Base64.Encode(text)
  }

  /** `base64Decode`: `None` where the decoder throws `IllegalArgumentException`. */
  function Base64Decode(text: Text): Option<Text> {
    Base64.Decode(text)
  }

  // ---------------------------------------------------------------------------
  // Hex rendering of digests

  /** Java's `byte`: signed, eight bits. */
  newtype int8 = x: int | -128 <= x < 128

  /** The value `%x` prints for a byte: a negative byte is printed as `b + 2^8`. */
  function Unsigned(b: int8): (u: nat)
    ensures u < 256 && (u - b as int) % 256 == 0
  {
    if b < 0 then (b as int + 256) as nat else b as nat
  }

  function HexDigit(v: nat): (c: byte)
    requires v < 16
  {
    if v < 10 then (48 + v) as byte else (87 + v) as byte
  }

  /** The digits `0-9` and `a-f`. */
  predicate IsLowerHex(c: byte) {
    (48 <= c <= 57) || (97 <= c <= 102)
  }

  /** `String.format("%02x", b)`: two lowercase hex digits, high nibble first. */
  function HexByte(b: int8): Text {
    [HexDigit(Unsigned(b) / 16), HexDigit(Unsigned(b) % 16)]
  }

  /** The text `writeDigestBytes` builds: the hex of each digest byte, in byte order. */
  function Hex(digest: seq<int8>): Text {
    if digest == [] then [] else Hex(digest[..|digest| - 1]) + HexByte(digest[|digest| - 1])
  }

  /** `writeDigestBytes` up to the file write: appends each byte's two digits to a builder. */
  method WriteDigestBytes(digestBytes: array<int8>) returns (contents: Text)
    ensures contents == Hex(digestBytes[..])
  {
    var builder: Text := [];
    for i := 0 to digestBytes.Length
      invariant builder == Hex(digestBytes[..i])
    {
      assert digestBytes[..i + 1][..i] == digestBytes[..i];
      builder := builder + HexByte(digestBytes[i]);
    }
    assert digestBytes[..] == digestBytes[..digestBytes.Length];
    contents := builder;
  }

  /** Two digits per byte: the hex of a digest is exactly twice as long as the digest. */
  lemma {:induction false} HexLength(digest: seq<int8>)
    ensures |Hex(digest)| == 2 * |digest|
  {
    if digest != [] {
      HexLength(digest[..|digest| - 1]);
    }
  }

  /** Byte `k` of the digest is rendered at positions `2k` and `2k + 1`, as lowercase hex digits. */
  lemma {:induction false} HexAt(digest: seq<int8>, k: nat)
    requires k < |digest|
    ensures |Hex(digest)| == 2 * |digest|
    ensures Hex(digest)[2 * k..2 * k + 2] == HexByte(digest[k])
    ensures IsLowerHex(Hex(digest)[2 * k]) && IsLowerHex(Hex(digest)[2 * k + 1])
  {
    HexLength(digest);
    var front := digest[..|digest| - 1];
    HexLength(front);
    if k < |digest| - 1 {
      HexAt(front, k);
      assert Hex(digest)[2 * k..2 * k + 2] == Hex(front)[2 * k..2 * k + 2];
    } else {
      assert Hex(digest)[2 * k..2 * k + 2] == HexByte(digest[k]);
    }
  }

  function HexValue(c: byte): Option<nat> {
    if 48 <= c <= 57 then Some((c - 48) as nat)
    else if 97 <= c <= 102 then Some((c - 87) as nat)
    else None
  }

  function Signed(u: nat): int8
    requires u < 256
  {
    if u < 128 then u as int8 else (u as int - 256) as int8
  }

  /** Reads lowercase hex back into Java bytes, two digits per byte: the inverse of `Hex`. */
  function ParseHex(h: Text): Option<seq<int8>> {
    if |h| == 0 then Some([])
    else if |h| == 1 then None
    else
      match (ParseHex(h[..|h| - 2]), HexValue(h[|h| - 2]), HexValue(h[|h| - 1]))
      case (Some(front), Some(hi), Some(lo)) =>
        if hi < 16 && lo < 16 then Some(front + [Signed(hi * 16 + lo)]) else None
      case _ => None
  }

  /** The hex file content identifies the digest exactly: reading it back gives the digest's bytes. */
  lemma {:induction false} HexRoundTrip(digest: seq<int8>)
    ensures ParseHex(Hex(digest)) == Some(digest)
  {
    if digest != [] {
      var front, last := digest[..|digest| - 1], digest[|digest| - 1];
      HexRoundTrip(front);
      var h := Hex(digest);
      assert h[..|h| - 2] == Hex(front);
      assert h[|h| - 2..] == HexByte(last);
      var u := Unsigned(last);
      assert HexValue(h[|h| - 2]) == Some(u / 16);
      assert HexValue(h[|h| - 1]) == Some(u % 16);
      assert Signed(u / 16 * 16 + u % 16) == last;
      assert digest == front + [last];
    }
  }

  // ---------------------------------------------------------------------------
  // Checksum files

  datatype File = File(absolutePath: Text)

  datatype Algorithm = MD5 | SHA1

  /** A file the run wrote, and what it wrote into it. */
  datatype Written = Written(path: Text, contents: Text)

  /** The files a run wrote, in order, and the exception it ended with, if any. */
  datatype ChecksumRun = ChecksumRun(written: seq<Written>, thrown: Option<Exception>)

  /** `<path>.md5` or `<path>.sha1` next to the input. */
  function ChecksumFile(file: File, algorithm: Algorithm): File {
    File(file.absolutePath + Ascii(if algorithm == MD5 then ".md5" else ".sha1"))
  }

  const UnableToGenerate: Exception := Thrown(Gradle, "Unable to generate checksums.")

  /**
   * `generateChecksum`: reading the digest (`digestOf` is `None` when the file
   * cannot be read or the algorithm is unknown) or writing the output
   * (`canWrite`) may fail; every failure becomes the same `GradleException`.
   */
  function GenerateChecksum(input: File, output: File, algorithm: Algorithm,
                            digestOf: (File, Algorithm) -> Option<seq<int8>>,
                            canWrite: File -> bool): ChecksumRun
  {
    match digestOf(input, algorithm)
    case None => ChecksumRun([], Some(UnableToGenerate))
    case Some(digest) =>
      if canWrite(output) then ChecksumRun([Written(output.absolutePath, Hex(digest))], None)
      else ChecksumRun([], Some(UnableToGenerate))
  }

  /** `createChecksums`: the null check, then the MD5 file, then the SHA-1 file. */
  function CreateChecksums(file: Option<File>,
                           digestOf: (File, Algorithm) -> Option<seq<int8>>,
                           canWrite: File -> bool): ChecksumRun
  {
    match file
    case None => ChecksumRun([], Some(Thrown(IllegalArgument, "File must be present.")))
    case Some(f) =>
      var md5 := GenerateChecksum(f, ChecksumFile(f, MD5), MD5, digestOf, canWrite);
      if md5.thrown.Some? then md5
      else
        var sha1 := GenerateChecksum(f, ChecksumFile(f, SHA1), SHA1, digestOf, canWrite);
        ChecksumRun(md5.written + sha1.written, sha1.thrown)
  }

  /** A null file fails with "File must be present." before any digest is read or file written. */
  lemma CreateChecksumsNull(digestOf: (File, Algorithm) -> Option<seq<int8>>, canWrite: File -> bool)
    ensures CreateChecksums(None, digestOf, canWrite).written == []
    ensures CreateChecksums(None, digestOf, canWrite).thrown == Some(Thrown(IllegalArgument, "File must be present."))
  {
  }

  /**
   * For a present file the run succeeds exactly when both digests can be read
   * and both files written; it then writes `<path>.md5` and then `<path>.sha1`,
   * each holding its digest in hex. Otherwise it throws "Unable to generate
   * checksums.", having written at most the MD5 file.
   */
  lemma CreateChecksumsOutcome(f: File, digestOf: (File, Algorithm) -> Option<seq<int8>>, canWrite: File -> bool)
    ensures var run := CreateChecksums(Some(f), digestOf, canWrite);
      var md5, sha1 := ChecksumFile(f, MD5), ChecksumFile(f, SHA1);
      && (run.thrown.None? <==>
           digestOf(f, MD5).Some? && canWrite(md5) && digestOf(f, SHA1).Some? && canWrite(sha1))
      && (run.thrown.None? ==>
            run.written == [Written(md5.absolutePath, Hex(digestOf(f, MD5).value)),
                            Written(sha1.absolutePath, Hex(digestOf(f, SHA1).value))])
      && (run.thrown.Some? ==>
            && run.thrown == Some(UnableToGenerate)
            && (run.written == [] || run.written == [Written(md5.absolutePath, Hex(digestOf(f, MD5).value))]))
  {
  }

  /** A file that cannot be read (e.g. one that does not exist) yields "Unable to generate checksums." and no files. */
  lemma CreateChecksumsUnreadable(f: File, digestOf: (File, Algorithm) -> Option<seq<int8>>, canWrite: File -> bool)
    requires digestOf(f, MD5).None?
    ensures CreateChecksums(Some(f), digestOf, canWrite) == ChecksumRun([], Some(UnableToGenerate))
  {
  }
}
