/** The image in which the plugin hands a network to the compiler in the driver: how it is written, what its
    documented layout says, and how the driver reads it. */
module ModelImage {
  import opened Numbers
  import opened Wrappers

  const MAX_ELEMENTS: nat := 10
  const MAX_XML: nat := 0xFFFF_FFFF_FFFF_FFFF / 3
  const MAX_WEIGHTS: nat := MAX_XML * 2
  const TWO_32: nat := 0x1_0000_0000
  const TWO_64: nat := 0x1_0000_0000_0000_0000

  datatype Version = Version(major: nat, minor: nat)

  predicate IsVersion(v: Version) {
    v.major < 0x1_0000 && v.minor < 0x1_0000
  }

  // ---- numbers in bytes, least significant first ----

  function Pow256(width: nat): (p: nat)
    ensures 0 < p
  {
    if width == 0 then 1 else 256 * Pow256(width - 1)
  }

  function Bytes(n: nat, width: nat): (bs: seq<byte>)
    ensures |bs| == width
  {
    if width == 0 then [] else [n % 256] + Bytes(n / 256, width - 1)
  }

  function Value(bs: seq<byte>): nat {
    if bs == [] then 0 else bs[0] + 256 * Value(bs[1..])
  }

  lemma {:induction false} ValueOfBytes(n: nat, width: nat)
    requires n < Pow256(width)
    ensures Value(Bytes(n, width)) == n
  {
    if width > 0 {
      ValueOfBytes(n / 256, width - 1);
      assert Bytes(n, width)[1..] == Bytes(n / 256, width - 1);
    }
  }

  lemma {:induction false} BytesOfValue(bs: seq<byte>)
    ensures Value(bs) < Pow256(|bs|) && Bytes(Value(bs), |bs|) == bs
  {
    if bs != [] {
      BytesOfValue(bs[1..]);
      LowByte(bs[0], Value(bs[1..]), Pow256(|bs| - 1));
    }
  }

  lemma LowByte(low: byte, rest: nat, bound: nat)
    requires rest < bound
    ensures low + 256 * rest < 256 * bound && (low + 256 * rest) % 256 == low && (low + 256 * rest) / 256 == rest
  {
  }

  lemma Widths()
    ensures Pow256(2) == 0x1_0000 && Pow256(4) == TWO_32 && Pow256(8) == TWO_64
  {
    assert Pow256(2) == 256 * (256 * Pow256(0));
    assert Pow256(4) == 256 * (256 * Pow256(2));
    assert Pow256(6) == 256 * (256 * Pow256(4));
    assert Pow256(8) == 256 * (256 * Pow256(6));
  }

  // ---- the layout ----

  /** Version, number of elements, and twice a size with that many bytes. */
  function Image(version: Version, xml: seq<byte>, weights: seq<byte>): seq<byte> {
    Header(version, |xml|) + xml + Bytes(|weights|, 8) + weights
  }

  function VersionBytes(version: Version): (bs: seq<byte>)
    ensures |bs| == 4
  {
    Bytes(version.major, 2) + Bytes(version.minor, 2)
  }

  function Header(version: Version, xmlSize: nat): (bs: seq<byte>)
    ensures |bs| == 16
  {
    VersionBytes(version) + Bytes(2, 4) + Bytes(xmlSize, 8)
  }

  datatype Contents = Contents(version: Version, count: nat, xml: seq<byte>, weights: seq<byte>)

  /** Reads an image the way its layout is documented; nothing where the image is too short for it. */
  function Decode(image: seq<byte>): Option<Contents> {
    if |image| < 16 then None else
    var xmlSize := Value(image[8..16]);
    if |image| < 24 + xmlSize then None else
    var weightsSize := Value(image[16 + xmlSize..24 + xmlSize]);
    if |image| < 24 + xmlSize + weightsSize then None else
    Some(Contents(Version(Value(image[..2]), Value(image[2..4])), Value(image[4..8]),
                  image[16..16 + xmlSize], image[24 + xmlSize..24 + xmlSize + weightsSize]))
  }

  lemma HeaderFields(version: Version, xmlSize: nat)
    requires IsVersion(version) && xmlSize < TWO_64
    ensures var h := Header(version, xmlSize);
            && Value(h[..2]) == version.major && Value(h[2..4]) == version.minor && Value(h[4..8]) == 2
            && Value(h[8..16]) == xmlSize
  {
    Widths();
    ValueOfBytes(version.major, 2);
    ValueOfBytes(version.minor, 2);
    ValueOfBytes(2, 4);
    ValueOfBytes(xmlSize, 8);
    var h := Header(version, xmlSize);
    assert h[..2] == Bytes(version.major, 2) && h[2..4] == Bytes(version.minor, 2);
    assert h[4..8] == Bytes(2, 4) && h[8..16] == Bytes(xmlSize, 8);
  }

  lemma ImageParts(version: Version, xml: seq<byte>, weights: seq<byte>)
    ensures var image, x := Image(version, xml, weights), |xml|;
            && |image| == 24 + x + |weights| && image[..16] == Header(version, x)
            && image[16..16 + x] == xml && image[16 + x..24 + x] == Bytes(|weights|, 8)
            && image[24 + x..24 + x + |weights|] == weights
  {
  }

  lemma ImageFields(version: Version, xml: seq<byte>, weights: seq<byte>)
    requires IsVersion(version) && |xml| < TWO_64 && |weights| < TWO_64
    ensures var image, x := Image(version, xml, weights), |xml|;
            && Value(image[..2]) == version.major && Value(image[2..4]) == version.minor && Value(image[4..8]) == 2
            && Value(image[8..16]) == x && Value(image[16 + x..24 + x]) == |weights|
  {
    var image := Image(version, xml, weights);
    ImageParts(version, xml, weights);
    HeaderFields(version, |xml|);
    Widths();
    ValueOfBytes(|weights|, 8);
    assert image[..16][..2] == image[..2] && image[..16][2..4] == image[2..4];
    assert image[..16][4..8] == image[4..8] && image[..16][8..16] == image[8..16];
  }

  /** What is written is what the documented layout reads. */
  lemma DecodeReadsImage(version: Version, xml: seq<byte>, weights: seq<byte>)
    requires IsVersion(version) && |xml| < TWO_64 && |weights| < TWO_64
    ensures Decode(Image(version, xml, weights)) == Some(Contents(version, 2, xml, weights))
  {
    ImageParts(version, xml, weights);
    ImageFields(version, xml, weights);
  }

  lemma HeaderOfFields(h: seq<byte>)
    requires |h| >= 16 && Value(h[4..8]) == 2
    ensures var version := Version(Value(h[..2]), Value(h[2..4]));
            IsVersion(version) && Header(version, Value(h[8..16])) == h[..16]
  {
    Widths();
    BytesOfValue(h[..2]);
    BytesOfValue(h[2..4]);
    BytesOfValue(h[4..8]);
    BytesOfValue(h[8..16]);
    assert h[..16] == h[..2] + h[2..4] + h[4..8] + h[8..16];
  }

  lemma SplitImage(image: seq<byte>, x: nat)
    requires 24 + x <= |image|
    ensures image == image[..16] + image[16..16 + x] + image[16 + x..24 + x] + image[24 + x..]
  {
  }

  lemma ImageFromParts(image: seq<byte>, x: nat, version: Version)
    requires 24 + x <= |image| && Header(version, x) == image[..16]
    requires Bytes(|image| - 24 - x, 8) == image[16 + x..24 + x]
    ensures Image(version, image[16..16 + x], image[24 + x..]) == image
  {
    SplitImage(image, x);
  }

  lemma DecodedFields(image: seq<byte>, c: Contents)
    requires Decode(image) == Some(c)
    ensures var x := |c.xml|;
            && |image| >= 24 + x + |c.weights|
            && c.version == Version(Value(image[..2]), Value(image[2..4])) && c.count == Value(image[4..8])
            && x == Value(image[8..16]) && c.xml == image[16..16 + x]
            && |c.weights| == Value(image[16 + x..24 + x]) && c.weights == image[24 + x..24 + x + |c.weights|]
  {
  }

  lemma FieldsMakeImage(image: seq<byte>, version: Version, x: nat)
    requires 24 + x <= |image| && version == Version(Value(image[..2]), Value(image[2..4])) && Value(image[4..8]) == 2
    requires x == Value(image[8..16]) && |image| - 24 - x == Value(image[16 + x..24 + x])
    ensures IsVersion(version) && Image(version, image[16..16 + x], image[24 + x..]) == image
  {
    HeaderOfFields(image);
    BytesOfValue(image[16 + x..24 + x]);
    ImageFromParts(image, x, version);
  }

  /** Conversely, bytes that the layout reads as two elements, with nothing left over, are the image of what is read. */
  lemma DecodedBytesAreAnImage(image: seq<byte>, c: Contents)
    requires Decode(image) == Some(c) && c.count == 2 && |image| == 24 + |c.xml| + |c.weights|
    ensures IsVersion(c.version) && Image(c.version, c.xml, c.weights) == image
  {
    DecodedFields(image, c);
    FieldsMakeImage(image, c.version, |c.xml|);
    assert image[24 + |c.xml|..] == c.weights;
  }

  // ---- writing ----

  /** `WritesOutside` stands for a write outside the image, which the original does not check for. */
  datatype SerializeError = XmlTooBig | WeightsTooBig | WritesOutside

  method CopyBytes(dest: array<byte>, offset: nat, src: seq<byte>)
    requires offset + |src| <= dest.Length
    modifies dest
    ensures dest[..offset + |src|] == old(dest[..offset]) + src
  {
    for i := 0 to |src|
      invariant dest[..offset + i] == old(dest[..offset]) + src[..i]
    {
      dest[offset + i] := src[i];
    }
  }

  /** Puts the network in memory one part after the other.  When the total wraps 64 bits the image is too small for
      its parts. */
  method SerializeIR(xml: seq<byte>, weights: seq<byte>, version: Version)
      returns (r: Result<array<byte>, SerializeError>)
    requires IsVersion(version) && |xml| < TWO_64 && |weights| < TWO_64
    ensures r.Ok? <==> |xml| < MAX_XML && |weights| < MAX_WEIGHTS && 24 + |xml| + |weights| < TWO_64
    ensures r.Err? ==> r.error == if |xml| >= MAX_XML then XmlTooBig
                                  else if |weights| >= MAX_WEIGHTS then WeightsTooBig else WritesOutside
    ensures r.Ok? ==> r.value[..] == Image(version, xml, weights)
  {
    if MAX_XML <= |xml| {
      return Err(XmlTooBig);
    }
    if MAX_WEIGHTS <= |weights| {
      return Err(WeightsTooBig);
    }
    var size := (4 + 4 + 8 + |xml| + 8 + |weights|) % TWO_64;
    if size < 4 + 4 + 8 + |xml| + 8 + |weights| {
      return Err(WritesOutside);
    }
    var image := new byte[size](_ => 0);
    var offset := 0;
    CopyBytes(image, offset, VersionBytes(version));
    offset := offset + 4;
    CopyBytes(image, offset, Bytes(2, 4));
    offset := offset + 4;
    CopyBytes(image, offset, Bytes(|xml|, 8));
    offset := offset + 8;
    assert image[..offset] == Header(version, |xml|);
    CopyBytes(image, offset, xml);
    offset := offset + |xml|;
    CopyBytes(image, offset, Bytes(|weights|, 8));
    offset := offset + 8;
    CopyBytes(image, offset, weights);
    offset := offset + |weights|;
    assert offset == size && image[..offset] == image[..];
    return Ok(image);
  }

  /** The guards on the sizes do not by themselves keep the total within 64 bits: just under them it wraps, and it
      does exactly for the largest 22 sums. */
  lemma GuardsLeaveSomeTotalsTooLarge(xmlSize: nat, weightsSize: nat)
    requires xmlSize < MAX_XML && weightsSize < MAX_WEIGHTS
    ensures (24 + xmlSize + weightsSize) % TWO_64 == 24 + xmlSize + weightsSize <==>
            xmlSize + weightsSize <= MAX_XML + MAX_WEIGHTS - 24
    ensures 24 + (MAX_XML - 1) + (MAX_WEIGHTS - 1) == TWO_64 + 21
  {
    assert MAX_XML + MAX_WEIGHTS == TWO_64 - 1;
  }

  // ---- reading, in the driver ----

  datatype PrepareError =
    | UnsupportedVersion
    | BadElementCount
    | BadBufferSize
    | BadWeightsSize
    | SizeMismatch
    | ReadsOutside

  /** Where the driver looks for the weights: its offset has 32 bits. */
  function OffsetAfter(offset: nat, size: nat): nat {
    (offset + size) % TWO_32
  }

  /** `ReadsOutside` stands for a read beyond the image, which the original does not check for. */
  function PrepareModel(image: seq<byte>, current: Version): Result<(seq<byte>, seq<byte>), PrepareError> {
    if |image| < 16 then Err(ReadsOutside)
    else if Version(Value(image[..2]), Value(image[2..4])) != current then Err(UnsupportedVersion)
    else if MAX_ELEMENTS <= Value(image[4..8]) then Err(BadElementCount)
    else
      var xmlSize := Value(image[8..16]);
      if xmlSize == 0 || MAX_XML <= xmlSize then Err(BadBufferSize)
      else
        var sizeOffset := OffsetAfter(16, xmlSize);
        if |image| < sizeOffset + 8 then Err(ReadsOutside)
        else
          var weightsSize := Value(image[sizeOffset..sizeOffset + 8]);
          if MAX_WEIGHTS <= weightsSize then Err(BadWeightsSize)
          else
            var offset := OffsetAfter(sizeOffset, 8);
            if |image| < offset + weightsSize then Err(SizeMismatch)
            else if |image| < 16 + xmlSize then Err(ReadsOutside)
            else Ok((image[16..16 + xmlSize], image[offset..offset + weightsSize]))
  }

  /** The driver looks for the weights where they are exactly when header and xml take less than 4 GB. */
  lemma WeightsAreWhereTheyAreSought(xmlSize: nat)
    ensures OffsetAfter(OffsetAfter(16, xmlSize), 8) == 24 + xmlSize <==> 24 + xmlSize < TWO_32
  {
  }

  /** An image whose fields say how long its parts are is taken apart accordingly. */
  lemma DriverReadsParts(
      image: seq<byte>, current: Version, version: Version, xml: seq<byte>, weights: seq<byte>, x: nat, w: nat)
    requires |image| == 24 + x + w && 24 + x < TWO_32 && w < MAX_WEIGHTS && |xml| == x && |weights| == w
    requires Value(image[..2]) == version.major && Value(image[2..4]) == version.minor && Value(image[4..8]) == 2
    requires Value(image[8..16]) == x && Value(image[16 + x..24 + x]) == w
    requires image[16..16 + x] == xml && image[24 + x..24 + x + w] == weights
    ensures PrepareModel(image, current) ==
            if version != current then Err(UnsupportedVersion)
            else if xml == [] then Err(BadBufferSize)
            else Ok((xml, weights))
  {
    OffsetsFit(x);
  }

  /** Then the driver gets what the plugin sent, unless the versions differ or there is no xml. */
  lemma DriverGetsWhatWasSent(version: Version, current: Version, xml: seq<byte>, weights: seq<byte>)
    requires IsVersion(version) && 24 + |xml| < TWO_32 && |weights| < MAX_WEIGHTS
    ensures PrepareModel(Image(version, xml, weights), current) ==
            if version != current then Err(UnsupportedVersion)
            else if xml == [] then Err(BadBufferSize)
            else Ok((xml, weights))
  {
    ImageParts(version, xml, weights);
    ImageFields(version, xml, weights);
    DriverReadsParts(Image(version, xml, weights), current, version, xml, weights, |xml|, |weights|);
  }

  lemma Limits()
    ensures MAX_ELEMENTS == 10 && TWO_32 == 4294967296 && TWO_64 == TWO_32 * TWO_32
    ensures MAX_XML == 6148914691236517205 && MAX_WEIGHTS == 12297829382473034410
  {
  }

  /** Of any bytes whose size field keeps the weights below 4 GB, the driver accepts exactly those with its own version,
      fewer than ten elements, an xml, and room for xml and weights; it then takes the two as their sizes say. */
  lemma DriverAcceptsExactly(image: seq<byte>, current: Version, x: nat, w: nat)
    requires 24 <= |image| && x == Value(image[8..16]) && 24 + x <= |image| && 24 + x < TWO_32
    requires w == Value(image[16 + x..24 + x])
    ensures PrepareModel(image, current).Ok? <==>
            && Value(image[..2]) == current.major && Value(image[2..4]) == current.minor
            && Value(image[4..8]) < 10 && x > 0 && w < 12297829382473034410 && 24 + x + w <= |image|
    ensures PrepareModel(image, current).Ok? ==>
            PrepareModel(image, current).value == (image[16..16 + x], image[24 + x..24 + x + w])
  {
    OffsetsFit(x);
  }

  lemma OffsetsFit(xmlSize: nat)
    requires 24 + xmlSize < TWO_32
    ensures OffsetAfter(16, xmlSize) == 16 + xmlSize && OffsetAfter(16 + xmlSize, 8) == 24 + xmlSize
  {
  }

  lemma {:induction false} ValueOfConcat(a: seq<byte>, b: seq<byte>)
    ensures Value(a + b) == Value(a) + Pow256(|a|) * Value(b)
  {
    if a == [] {
      assert a + b == b;
    } else {
      ValueOfConcat(a[1..], b);
      assert (a + b)[1..] == a[1..] + b;
      assert 256 * (Pow256(|a| - 1) * Value(b)) == Pow256(|a|) * Value(b);
    }
  }

  /** At 4 GB it does not: the weights' size is then read from the version and the number of elements, and the
      image is refused. */
  lemma WrappedOffsetIsRefused(version: Version, xml: seq<byte>, weights: seq<byte>)
    requires IsVersion(version) && |xml| == TWO_32 - 16 && |weights| < TWO_32
    ensures PrepareModel(Image(version, xml, weights), version) == Err(SizeMismatch)
  {
    var image := Image(version, xml, weights);
    ImageParts(version, xml, weights);
    ImageFields(version, xml, weights);
    assert OffsetAfter(16, |xml|) == 0 && OffsetAfter(0, 8) == 8;
    assert image[0..8] == image[..4] + image[4..8];
    ValueOfConcat(image[..4], image[4..8]);
    Widths();
    BytesOfValue(image[..4]);
    assert Value(image[0..8]) == Value(image[..4]) + TWO_32 * 2;
  }
}
