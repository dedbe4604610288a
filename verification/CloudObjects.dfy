/**
 The point cloud objects and the global counters they update in place.  Each method is proved to
 compute what module PointCloud says of the values; the mallocs' outcomes are parameters.
 */
module CloudObjects {
  import opened Options
  import opened PacketFormat
  import V = PointCloud

  /** The global allocation counters. */
  class Counters {
    var pcAlloc: nat
    var pcFreed: nat
    var rawAlloc: nat
    var rawFreed: nat

    ghost function State(): V.Counts
      reads this
    {
      V.Counts(pcAlloc, pcFreed, rawAlloc, rawFreed)
    }

    constructor ()
      ensures State() == V.Counts(0, 0, 0, 0)
    {
      pcAlloc, pcFreed, rawAlloc, rawFreed := 0, 0, 0, 0;
    }
  }

  // ----- writing into a caller's buffer

  method WriteBytes(buffer: array<Byte>, offset: nat, bs: seq<Byte>)
    requires offset + |bs| <= buffer.Length
    modifies buffer
    ensures buffer[..offset] == old(buffer[..offset])
    ensures buffer[offset..offset + |bs|] == bs
    ensures buffer[offset + |bs|..] == old(buffer[offset + |bs|..])
  {
    for k := 0 to |bs|
      invariant buffer[..offset] == old(buffer[..offset])
      invariant buffer[offset..offset + k] == bs[..k]
      invariant buffer[offset + |bs|..] == old(buffer[offset + |bs|..])
    {
      buffer[offset + k] := bs[k];
    }
  }

  /** Copies the points one by one. */
  method WritePoints(buffer: array<Byte>, offset: nat, ps: seq<Point>)
    requires offset + POINT_SIZE * |ps| <= buffer.Length
    modifies buffer
    ensures buffer[..offset] == old(buffer[..offset])
    ensures buffer[offset..offset + POINT_SIZE * |ps|] == EncodePoints(ps)
    ensures buffer[offset + POINT_SIZE * |ps|..] == old(buffer[offset + POINT_SIZE * |ps|..])
  {
    hide EncodePoint;
    ghost var end := offset + POINT_SIZE * |ps|;
    for i := 0 to |ps|
      invariant buffer[..offset] == old(buffer[..offset])
      invariant buffer[offset..offset + POINT_SIZE * i] == EncodePoints(ps[..i])
      invariant buffer[end..] == old(buffer[end..])
    {
      var at := offset + POINT_SIZE * i;
      ghost var before := buffer[..at];
      ghost var rest := buffer[at + POINT_SIZE..];
      WriteBytes(buffer, at, EncodePoint(ps[i]));
      assert buffer[..offset] == before[..offset];
      assert buffer[offset..at + POINT_SIZE] == before[offset..at] + buffer[at..at + POINT_SIZE];
      assert buffer[end..] == rest[end - at - POINT_SIZE..];
      assert ps[..i + 1][..i] == ps[..i];
    }
    assert ps[..|ps|] == ps;
  }

  class PointCloud {
    const raw: bool
    const counters: Counters
    var timestamp: Word64
    var cellsize: Word32
    var pc: Option<seq<V.PclPoint>>
    var points: Option<seq<Point>>
    var size: nat

    ghost function State(): V.Cloud
      reads this
    {
      V.Cloud(raw, timestamp, cellsize, pc, points, size)
    }

    /** A cloud around a PCL cloud. */
    constructor Pcl(counters: Counters, pc: Option<seq<V.PclPoint>>, timestamp: Word64)
      modifies counters
      ensures this.counters == counters
      ensures (State(), counters.State()) == V.NewFromPcl(pc, timestamp, old(counters.State()))
    {
      this.counters := counters;
      raw, cellsize, points, size := false, 0, None, 0;
      this.pc, this.timestamp := pc, timestamp;
      new;
      if pc.Some? {
        counters.pcAlloc := counters.pcAlloc + 1;
      }
    }

    /** An uncompressed cloud without points. */
    constructor Raw(counters: Counters)
      ensures this.counters == counters && State() == V.NEW_RAW
    {
      this.counters := counters;
      raw, timestamp, cellsize, pc, points, size := true, 0, 0, None, None, 0;
    }

    /** `cwipc_impl::from_points`, which the conversion uses. */
    method Convert(data: seq<Point>, size: nat, npoint: int, timestamp: Word64) returns (r: int)
      requires size <= POINT_SIZE * |data| && size < 0x8000_0000_0000_0000 && -0x8000_0000 <= npoint < 0x8000_0000
      modifies this, counters
      ensures (npoint * POINT_SIZE) % SIZE_MODULUS != size ==>
        r == -1 && State() == old(State()) && counters.State() == old(counters.State())
      ensures (npoint * POINT_SIZE) % SIZE_MODULUS == size ==>
        && r == npoint && 0 <= npoint <= |data|
        && State() == old(State()).(timestamp := timestamp, pc := Some(V.AllToPcl(data[..npoint])))
        && counters.State() == old(counters.State()).(pcAlloc := old(counters.State()).pcAlloc + 1)
    {
      if (npoint * POINT_SIZE) % SIZE_MODULUS != size {
        return -1;
      }
      this.timestamp := timestamp;
      var converted: seq<V.PclPoint> := [];
      for i := 0 to npoint
        invariant converted == V.AllToPcl(data[..i])
      {
        converted := converted + [V.ToPcl(data[i])];
      }
      pc := Some(converted);
      counters.pcAlloc := counters.pcAlloc + 1;
      return npoint;
    }

    /** `from_points` of an uncompressed cloud: takes a copy of the caller's points, unless the sizes
        disagree or there is no memory.  No allocation of 2^63 bytes or more succeeds. */
    method FromPoints(data: seq<Point>, size: Word64, npoint: int, timestamp: Word64, mallocOk: bool) returns (r: int)
      requires raw && size <= POINT_SIZE * |data| && -0x8000_0000 <= npoint < 0x8000_0000
      requires mallocOk ==> size < 0x8000_0000_0000_0000
      modifies this, counters
      ensures !V.SizesAgree(npoint, size) ==>
        r == -1 && State() == old(State()) && counters.State() == old(counters.State())
      ensures V.SizesAgree(npoint, size) && !mallocOk ==>
        && r == -1 && counters.State() == old(counters.State())
        && State() == old(State()).(timestamp := timestamp, points := None)
      ensures V.SizesAgree(npoint, size) && mallocOk ==>
        && r == npoint && 0 <= npoint <= |data|
        && (State(), counters.State()) == V.Load(old(State()), old(counters.State()), data[..npoint], timestamp)
    {
      if npoint * POINT_SIZE % SIZE_MODULUS != size {
        return -1;
      }
      this.timestamp := timestamp;
      points := None;
      if !mallocOk {
        return -1;
      }
      counters.rawAlloc := counters.rawAlloc + 1;
      this.size := size;
      if pc.Some? {
        pc := None;
        counters.pcFreed := counters.pcFreed + 1;
      }
      points := Some(data[..npoint]);
      return npoint;
    }

    method AccessPcl() returns (cloud: Option<seq<V.PclPoint>>)
      requires V.ValidCloud(State())
      modifies this, counters
      ensures (State(), counters.State()) == V.Access(old(State()), old(counters.State())) && cloud == pc
    {
      if raw && pc.None? {
        var data := if points.Some? then points.value else [];
        TruncationCaught(|data|);
        assert size / POINT_SIZE == |data|;
        var _ := Convert(data, size, ToInt32(size / POINT_SIZE), timestamp);
        assert data[..|data|] == data;
      }
      cloud := pc;
    }

    method SetCellsize(cellsize: Word32, guess: V.Guess)
      requires V.ValidCloud(State())
      modifies this, counters
      ensures (State(), counters.State()) == V.SetCellsize(old(State()), old(counters.State()), cellsize, guess)
    {
      var cloud := AccessPcl();
      this.cellsize := if V.Negative(cellsize) && cloud.Some? then guess(cloud.value) else cellsize;
    }

    method ShallowCopy(guess: V.Guess) returns (copy: PointCloud)
      requires V.ValidCloud(State())
      modifies this, counters
      ensures fresh(copy) && copy.counters == counters
      ensures (copy.State(), State(), counters.State()) == V.ShallowCopy(old(State()), old(counters.State()), guess)
      ensures V.Points(copy.State()) == V.Points(State()) == old(V.Points(State()))
      ensures copy.timestamp == timestamp == old(timestamp) && copy.cellsize == cellsize == old(cellsize)
    {
      V.CopyKeeps(State(), counters.State(), guess);
      hide V.Points;
      var cloud := AccessPcl();
      copy := new PointCloud.Pcl(counters, cloud, timestamp);
      copy.SetCellsize(cellsize, guess);
    }

    /** Safe to call more than once. */
    method Free()
      modifies this, counters
      ensures (State(), counters.State()) == V.Free(old(State()), old(counters.State()))
    {
      if pc.Some? {
        counters.pcFreed := counters.pcFreed + 1;
      }
      pc := None;
      if points.Some? {
        counters.rawFreed := counters.rawFreed + 1;
        points := None;
      }
      size := 0;
    }

    method GetUncompressedSize() returns (n: nat)
      requires V.ValidCloud(State())
      ensures n == POINT_SIZE * |V.Points(State())|
    {
      if raw {
        n := size;
      } else {
        n := if pc.Some? then |pc.value| * POINT_SIZE else 0;
      }
    }

    /** `copy_uncompressed` into a buffer at an offset; an uncompressed cloud wants the exact size.  The
        number of points written, and returned, is a 32-bit integer. */
    method CopyUncompressed(buffer: array<Byte>, offset: nat, space: nat) returns (r: int)
      requires V.ValidCloud(State()) && offset + space <= buffer.Length
      modifies buffer
      ensures var ps, k := V.Points(State()), V.Copied(State()); var n := POINT_SIZE * |ps|;
        if !raw && pc.None? then r == 0 && buffer[..] == old(buffer[..])
        else if (raw && space != n) || space < n then r == -1 && buffer[..] == old(buffer[..])
        else
          && r == ToInt32(|ps|)
          && buffer[..offset] == old(buffer[..offset])
          && buffer[offset..offset + POINT_SIZE * k] == EncodePoints(ps[..k])
          && buffer[offset + POINT_SIZE * k..] == old(buffer[offset + POINT_SIZE * k..])
    {
      hide EncodePoints;
      if raw {
        if space != size {
          return -1;
        }
        ghost var ps := V.RawPoints(State());
        TruncationCaught(|ps|);
        assert ps[..|ps|] == ps;
        WritePoints(buffer, offset, if points.Some? then points.value else []);
        return size / POINT_SIZE;
      }
      if pc.None? {
        return 0;
      }
      if space < |pc.value| * POINT_SIZE {
        return -1;
      }
      var npoint := ToInt32(|pc.value|);
      WritePoints(buffer, offset, V.AllFromPcl(pc.value)[..if npoint < 0 then 0 else npoint]);
      return npoint;
    }

    /** `copy_packet`: gives the size a packet needs when there is no buffer, nothing when the buffer
        has another size, and otherwise writes the header and as many points as `copy_uncompressed`
        does: the whole packet if and only if there are fewer than 2^31. */
    method CopyPacket(packet: array?<Byte>, space: nat) returns (n: nat)
      requires V.ValidCloud(State()) && (packet != null ==> space <= packet.Length)
      modifies this, counters, if packet == null then {} else {packet}
      ensures (State(), counters.State()) == V.Access(old(State()), old(counters.State()))
      ensures n == if State().pc.None? || (packet != null && space != |V.PacketOf(State())|) then 0
                   else |V.PacketOf(State())|
      ensures packet != null && n == 0 ==> packet[..] == old(packet[..])
      ensures packet != null && 0 < n ==>
        var w := HEADER_SIZE + POINT_SIZE * V.Copied(State());
        && packet[..w] == V.PacketOf(State())[..w] && packet[w..] == old(packet[w..])
        && (w == n <==> |V.Points(State())| < V.MAX_POINTS)
    {
      hide EncodePoints, EncodeHeader, ToInt32, Packet, V.Copied;
      var cloud := AccessPcl();
      if cloud.None? {
        return 0;
      }
      var dataSize: Word64 := GetUncompressedSize();
      n := HEADER_SIZE + dataSize;
      if packet == null {
        return n;
      }
      if space != n {
        return 0;
      }
      ghost var k := V.Copied(State());
      V.PacketPrefix(State(), k);
      V.CopiedAll(State(), []);
      hide V.PacketOf, V.Points, V.ValidCloud;
      WriteHeaderAndPoints(packet, dataSize, k);
    }

    /** Fills a buffer of the right size. */
    method WriteHeaderAndPoints(packet: array<Byte>, dataSize: Word64, ghost k: nat)
      requires V.ValidCloud(State()) && (raw || pc.Some?) && k == V.Copied(State())
      requires dataSize == POINT_SIZE * |V.Points(State())| && HEADER_SIZE + dataSize <= packet.Length
      modifies packet
      ensures var w := HEADER_SIZE + POINT_SIZE * k;
        && packet[..w] == EncodeHeader(timestamp, cellsize, dataSize) + EncodePoints(V.Points(State())[..k])
        && packet[w..] == old(packet[w..])
    {
      hide EncodePoints, EncodeHeader, ToInt32, V.Copied, V.Points, V.ValidCloud;
      ghost var w := HEADER_SIZE + POINT_SIZE * k;
      ghost var was := packet[HEADER_SIZE..];
      WriteBytes(packet, 0, EncodeHeader(timestamp, cellsize, dataSize));
      assert packet[HEADER_SIZE..] == was;
      var _ := CopyUncompressed(packet, HEADER_SIZE, dataSize);
      assert packet[..w] == packet[..HEADER_SIZE] + packet[HEADER_SIZE..w];
      assert old(packet[w..]) == was[POINT_SIZE * k..];
    }
  }
}
