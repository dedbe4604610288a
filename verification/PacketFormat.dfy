/**
 The packet format of a point cloud: a 32-byte header followed by 16 bytes per point, all numbers
 little-endian.  Floating-point fields are kept as their 32-bit patterns.
 */
module PacketFormat {
  import opened Options
  import BitTricks

  type Byte = b: nat | b < 0x100
  type Word32 = w: nat | w < 0x1_0000_0000
  type Word64 = w: nat | w < 0x1_0000_0000_0000_0000

  const SIZE_MODULUS: nat := 0x1_0000_0000_0000_0000
  const HEADER_SIZE: nat := 32
  const POINT_SIZE: nat := 16
  const MAGIC: Word32 := 0x20210208
  const TAG: seq<Byte> := [0x63, 0x70, 0x63, 0x64]  // "cpcd"

  datatype Point = Point(x: Word32, y: Word32, z: Word32, r: Byte, g: Byte, b: Byte, tile: Byte)

  // ----- numbers

  function LittleEndian(v: nat, n: nat): (bs: seq<Byte>)
    ensures |bs| == n
  {
    if n == 0 then [] else [v % 0x100] + LittleEndian(v / 0x100, n - 1)
  }

  function Number(bs: seq<Byte>): nat {
    if bs == [] then 0 else bs[0] + 0x100 * Number(bs[1..])
  }

  function Bound(n: nat): (b: nat)
    ensures 0 < b
  {
    if n == 0 then 1 else 0x100 * Bound(n - 1)
  }

  lemma {:induction false} NumberOfLittleEndian(v: nat, n: nat)
    requires v < Bound(n)
    ensures Number(LittleEndian(v, n)) == v
  {
    if n != 0 {
      NumberOfLittleEndian(v / 0x100, n - 1);
      assert LittleEndian(v, n)[1..] == LittleEndian(v / 0x100, n - 1);
    }
  }

  lemma {:induction false} LittleEndianOfNumber(bs: seq<Byte>)
    ensures LittleEndian(Number(bs), |bs|) == bs && Number(bs) < Bound(|bs|)
  {
    if bs != [] {
      LittleEndianOfNumber(bs[1..]);
    }
  }

  /** The least significant byte comes first. */
  lemma {:induction false} LittleEndianAt(v: nat, n: nat, k: nat)
    requires k < n
    ensures LittleEndian(v, n)[k] == (v / Bound(k)) % 0x100
  {
    if 0 < k {
      LittleEndianAt(v / 0x100, n - 1, k - 1);
      assert LittleEndian(v, n)[1..] == LittleEndian(v / 0x100, n - 1);
      DivTwice(v, Bound(k - 1));
    }
  }

  lemma DivTwice(v: nat, b: nat)
    requires 0 < b
    ensures (v / 0x100) / b == v / (0x100 * b)
  {
    var q := (v / 0x100) / b;
    var r := (v / 0x100) % b;
    assert v / 0x100 == q * b + r;
    assert v == 0x100 * (q * b + r) + v % 0x100;
    assert v == q * (0x100 * b) + (0x100 * r + v % 0x100);
    BitTricks.DivModUnique(v, 0x100 * b, q, 0x100 * r + v % 0x100);
  }

  lemma Bounds()
    ensures Bound(4) == 0x1_0000_0000 && Bound(8) == 0x1_0000_0000_0000_0000
  {
    assert Bound(2) == 0x1_0000;
    assert Bound(4) == 0x1_0000_0000;
    assert Bound(6) == 0x1_0000_0000_0000;
  }

  function Read32(bs: seq<Byte>, i: nat): Word32
    requires i + 4 <= |bs|
  {
    Bounds();
    LittleEndianOfNumber(bs[i..i + 4]);
    Number(bs[i..i + 4])
  }

  function Read64(bs: seq<Byte>, i: nat): Word64
    requires i + 8 <= |bs|
  {
    Bounds();
    LittleEndianOfNumber(bs[i..i + 8]);
    Number(bs[i..i + 8])
  }

  lemma Read32At(bs: seq<Byte>, i: nat, v: Word32)
    requires i + 4 <= |bs| && bs[i..i + 4] == LittleEndian(v, 4)
    ensures Read32(bs, i) == v
  {
    Bounds();
    NumberOfLittleEndian(v, 4);
  }

  lemma Read64At(bs: seq<Byte>, i: nat, v: Word64)
    requires i + 8 <= |bs| && bs[i..i + 8] == LittleEndian(v, 8)
    ensures Read64(bs, i) == v
  {
    Bounds();
    NumberOfLittleEndian(v, 8);
  }

  // ----- points

  function EncodePoint(p: Point): (bs: seq<Byte>)
    ensures |bs| == POINT_SIZE
  {
    LittleEndian(p.x, 4) + LittleEndian(p.y, 4) + LittleEndian(p.z, 4) + [p.r, p.g, p.b, p.tile]
  }

  function DecodePoint(bs: seq<Byte>): Point
    requires |bs| == POINT_SIZE
  {
    Point(Read32(bs, 0), Read32(bs, 4), Read32(bs, 8), bs[12], bs[13], bs[14], bs[15])
  }

  /** The fields of a point are where the struct has them. */
  lemma PointFields(p: Point, before: seq<Byte>, after: seq<Byte>)
    ensures var bs, i := before + EncodePoint(p) + after, |before|;
      && Read32(bs, i) == p.x && Read32(bs, i + 4) == p.y && Read32(bs, i + 8) == p.z
      && bs[i + 12] == p.r && bs[i + 13] == p.g && bs[i + 14] == p.b && bs[i + 15] == p.tile
  {
    hide LittleEndian, Read32;
    var bs, i := before + EncodePoint(p) + after, |before|;
    assert bs[i..i + POINT_SIZE] == EncodePoint(p);
    assert bs[i..i + 4] == EncodePoint(p)[..4];
    assert bs[i + 4..i + 8] == EncodePoint(p)[4..8];
    assert bs[i + 8..i + 12] == EncodePoint(p)[8..12];
    Read32At(bs, i, p.x);
    Read32At(bs, i + 4, p.y);
    Read32At(bs, i + 8, p.z);
  }

  lemma DecodeEncodedPoint(p: Point)
    ensures DecodePoint(EncodePoint(p)) == p
  {
    hide LittleEndian, Read32;
    Read32At(EncodePoint(p), 0, p.x);
    Read32At(EncodePoint(p), 4, p.y);
    Read32At(EncodePoint(p), 8, p.z);
  }

  lemma EncodeDecodedPoint(bs: seq<Byte>)
    requires |bs| == POINT_SIZE
    ensures EncodePoint(DecodePoint(bs)) == bs
  {
    hide LittleEndian, Number;
    LittleEndianOfNumber(bs[0..4]);
    LittleEndianOfNumber(bs[4..8]);
    LittleEndianOfNumber(bs[8..12]);
    assert bs == bs[0..4] + bs[4..8] + bs[8..12] + [bs[12], bs[13], bs[14], bs[15]];
  }

  function EncodePoints(ps: seq<Point>): (bs: seq<Byte>)
    ensures |bs| == POINT_SIZE * |ps|
  {
    if ps == [] then [] else EncodePoints(ps[..|ps| - 1]) + EncodePoint(ps[|ps| - 1])
  }

  lemma {:induction false} EncodePointsPrefix(ps: seq<Point>, k: nat)
    requires k <= |ps|
    ensures EncodePoints(ps)[..POINT_SIZE * k] == EncodePoints(ps[..k])
  {
    hide EncodePoint;
    if k < |ps| {
      var n := |ps| - 1;
      EncodePointsPrefix(ps[..n], k);
      assert ps[..n][..k] == ps[..k];
    } else {
      assert ps[..k] == ps;
    }
  }

  /** Point k starts at byte 16 * k. */
  lemma PointPlace(ps: seq<Point>, k: nat)
    requires k < |ps|
    ensures EncodePoints(ps)
      == EncodePoints(ps[..k]) + EncodePoint(ps[k]) + EncodePoints(ps)[POINT_SIZE * (k + 1)..]
  {
    hide EncodePoint;
    EncodePointsPrefix(ps, k + 1);
    assert ps[..k + 1][..k] == ps[..k];
  }

  function DecodePoints(bs: seq<Byte>, n: nat): (ps: seq<Point>)
    requires |bs| == POINT_SIZE * n
    ensures |ps| == n
  {
    if n == 0 then []
    else DecodePoints(bs[..POINT_SIZE * (n - 1)], n - 1) + [DecodePoint(bs[POINT_SIZE * (n - 1)..])]
  }

  lemma {:induction false} DecodeEncodedPoints(ps: seq<Point>)
    ensures DecodePoints(EncodePoints(ps), |ps|) == ps
  {
    hide EncodePoint, DecodePoint;
    if ps != [] {
      var n := |ps| - 1;
      DecodeEncodedPoints(ps[..n]);
      DecodeEncodedPoint(ps[n]);
      assert EncodePoints(ps)[..POINT_SIZE * n] == EncodePoints(ps[..n]);
      assert EncodePoints(ps)[POINT_SIZE * n..] == EncodePoint(ps[n]);
    }
  }

  lemma {:induction false} EncodeDecodedPoints(bs: seq<Byte>, n: nat)
    requires |bs| == POINT_SIZE * n
    ensures EncodePoints(DecodePoints(bs, n)) == bs
  {
    hide EncodePoint, DecodePoint;
    if n != 0 {
      EncodeDecodedPoints(bs[..POINT_SIZE * (n - 1)], n - 1);
      EncodeDecodedPoint(bs[POINT_SIZE * (n - 1)..]);
      var ps := DecodePoints(bs, n);
      assert ps[..n - 1] == DecodePoints(bs[..POINT_SIZE * (n - 1)], n - 1);
    }
  }

  // ----- packets

  function EncodeHeader(timestamp: Word64, cellsize: Word32, size: Word64): (bs: seq<Byte>)
    ensures |bs| == HEADER_SIZE
  {
    TAG + LittleEndian(MAGIC, 4) + LittleEndian(timestamp, 8) + LittleEndian(cellsize, 4)
    + LittleEndian(0, 4) + LittleEndian(size, 8)
  }

  /** What `copy_packet` writes. */
  function Packet(ps: seq<Point>, timestamp: Word64, cellsize: Word32): (bs: seq<Byte>)
    requires POINT_SIZE * |ps| < SIZE_MODULUS
    ensures |bs| == HEADER_SIZE + POINT_SIZE * |ps|
  {
    EncodeHeader(timestamp, cellsize, POINT_SIZE * |ps|) + EncodePoints(ps)
  }

  /** The conversion of a size to a 32-bit signed integer. */
  function ToInt32(n: nat): int {
    var m := n % 0x1_0000_0000;
    if m < 0x8000_0000 then m else m - 0x1_0000_0000
  }

  datatype Contents = Contents(points: seq<Point>, timestamp: Word64, cellsize: Word32)

  /** What `cwipc_from_packet` reads: the number of points is taken from the header, truncated to a
      32-bit integer, and has to agree with the length of the data. */
  function Parse(packet: seq<Byte>): Option<Contents>
    requires HEADER_SIZE <= |packet| < 0x8000_0000_0000_0000
  {
    if packet[..4] != TAG || Read32(packet, 4) != MAGIC then None
    else
      var dataSize := |packet| - HEADER_SIZE;
      var npoint := ToInt32(Read64(packet, 24) / POINT_SIZE);
      if (npoint * POINT_SIZE) % SIZE_MODULUS != dataSize then None
      else Some(Contents(DecodePoints(packet[HEADER_SIZE..], npoint), Read64(packet, 8), Read32(packet, 16)))
  }

  lemma HeaderFields(h: seq<Byte>, rest: seq<Byte>, timestamp: Word64, cellsize: Word32, size: Word64)
    requires h == EncodeHeader(timestamp, cellsize, size)
    ensures var packet := h + rest;
      && packet[..4] == TAG && Read32(packet, 4) == MAGIC && Read64(packet, 8) == timestamp
      && Read32(packet, 16) == cellsize && Read64(packet, 24) == size
  {
    hide LittleEndian, Read32, Read64;
    var packet := h + rest;
    Read32At(packet, 4, MAGIC);
    Read64At(packet, 8, timestamp);
    Read32At(packet, 16, cellsize);
    Read64At(packet, 24, size);
  }

  /** A packet byte by byte: the tag and the magic number, and after the header the fields of every point
      where the struct has them. */
  lemma PacketLayout(ps: seq<Point>, timestamp: Word64, cellsize: Word32, k: nat)
    requires HEADER_SIZE + POINT_SIZE * |ps| < 0x8000_0000_0000_0000 && k < |ps|
    ensures var bs, i := Packet(ps, timestamp, cellsize), HEADER_SIZE + POINT_SIZE * k;
      && bs[..8] == [0x63, 0x70, 0x63, 0x64, 0x08, 0x02, 0x21, 0x20]
      && Read32(bs, i) == ps[k].x && Read32(bs, i + 4) == ps[k].y && Read32(bs, i + 8) == ps[k].z
      && bs[i + 12] == ps[k].r && bs[i + 13] == ps[k].g && bs[i + 14] == ps[k].b && bs[i + 15] == ps[k].tile
  {
    TagAndMagic();
    hide LittleEndian, Read32, EncodePoint, EncodePoints;
    PointPlace(ps, k);
    var h := EncodeHeader(timestamp, cellsize, POINT_SIZE * |ps|);
    assert h[..8] == TAG + LittleEndian(MAGIC, 4);
    hide EncodeHeader;
    var before, after := h + EncodePoints(ps[..k]), EncodePoints(ps)[POINT_SIZE * (k + 1)..];
    PointFields(ps[k], before, after);
    assert Packet(ps, timestamp, cellsize) == before + EncodePoint(ps[k]) + after;
  }

  lemma TagAndMagic()
    ensures TAG + LittleEndian(MAGIC, 4) == [0x63, 0x70, 0x63, 0x64, 0x08, 0x02, 0x21, 0x20]
  {
    LittleEndianAt(MAGIC, 4, 0);
    LittleEndianAt(MAGIC, 4, 1);
    LittleEndianAt(MAGIC, 4, 2);
    LittleEndianAt(MAGIC, 4, 3);
  }

  /** The truncation is harmless exactly below 2^31 points. */
  lemma TruncationCaught(n: nat)
    requires POINT_SIZE * n < 0x8000_0000_0000_0000
    ensures (ToInt32(n) * POINT_SIZE) % SIZE_MODULUS == POINT_SIZE * n <==> n < 0x8000_0000
    ensures n < 0x8000_0000 ==> ToInt32(n) == n
  {
    var m := ToInt32(n);
    if m < 0 {
      assert (m * POINT_SIZE) % SIZE_MODULUS == m * POINT_SIZE + SIZE_MODULUS;
    }
  }

  /** Round trip: a packet read back gives the points in order, the timestamp and the cell size it
      was written from, if and only if there are fewer than 2^31 points; otherwise it is refused. */
  lemma ParsePacket(ps: seq<Point>, timestamp: Word64, cellsize: Word32)
    requires HEADER_SIZE + POINT_SIZE * |ps| < 0x8000_0000_0000_0000
    ensures Parse(Packet(ps, timestamp, cellsize))
      == if |ps| < 0x8000_0000 then Some(Contents(ps, timestamp, cellsize)) else None
  {
    hide EncodePoints, DecodePoints, EncodeHeader, Read32, Read64, ToInt32, LittleEndian, Number;
    var h, n := EncodeHeader(timestamp, cellsize, POINT_SIZE * |ps|), |ps|;
    var packet := h + EncodePoints(ps);
    HeaderFields(h, EncodePoints(ps), timestamp, cellsize, POINT_SIZE * n);
    TruncationCaught(n);
    assert Read64(packet, 24) / POINT_SIZE == n;
    if n < 0x8000_0000 {
      DecodeEncodedPoints(ps);
      assert packet[HEADER_SIZE..] == EncodePoints(ps);
    }
  }

  /** Whatever follows it, a header that announces 2^31 points or more is refused. */
  lemma HeaderRefused(packet: seq<Byte>, n: nat, timestamp: Word64, cellsize: Word32)
    requires HEADER_SIZE + POINT_SIZE * n == |packet| < 0x8000_0000_0000_0000 && 0x8000_0000 <= n
    requires packet[..HEADER_SIZE] == EncodeHeader(timestamp, cellsize, POINT_SIZE * n)
    ensures Parse(packet) == None
  {
    hide DecodePoints, EncodeHeader, Read32, Read64, ToInt32, LittleEndian, Number;
    assert packet == packet[..HEADER_SIZE] + packet[HEADER_SIZE..];
    HeaderFields(packet[..HEADER_SIZE], packet[HEADER_SIZE..], timestamp, cellsize, POINT_SIZE * n);
    TruncationCaught(n);
    assert Read64(packet, 24) / POINT_SIZE == n;
  }

  /** And only packets are read: one that is accepted starts like a packet, and its data are the
      encoding of the points read.  Bytes 20 to 24 and the last bits of the size are not looked at. */
  lemma ParsedIsPacket(packet: seq<Byte>)
    requires HEADER_SIZE <= |packet| < 0x8000_0000_0000_0000 && Parse(packet).Some?
    ensures var c := Parse(packet).value;
      && |c.points| < 0x8000_0000 && |packet| == HEADER_SIZE + POINT_SIZE * |c.points|
      && packet[..20] == Packet(c.points, c.timestamp, c.cellsize)[..20]
      && packet[HEADER_SIZE..] == Packet(c.points, c.timestamp, c.cellsize)[HEADER_SIZE..]
  {
    hide EncodePoints, DecodePoints, LittleEndian, Number;
    var c := Parse(packet).value;
    var n := |c.points|;
    EncodeDecodedPoints(packet[HEADER_SIZE..], n);
    LittleEndianOfNumber(packet[4..8]);
    LittleEndianOfNumber(packet[8..16]);
    LittleEndianOfNumber(packet[16..20]);
    assert packet[..20] == packet[..4] + packet[4..8] + packet[8..16] + packet[16..20];
    assert packet[..20] == TAG + LittleEndian(MAGIC, 4) + LittleEndian(c.timestamp, 8) + LittleEndian(c.cellsize, 4);
  }
}
