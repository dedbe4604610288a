/**
 The exported functions of the point cloud library, over all the objects that share the global
 counters.  Every call is a step of the value `PointCloud.Library`, so what is proved of its runs
 holds of the objects.
 */
module CloudLibrary {
  import opened Options
  import opened PacketFormat
  import opened CloudObjects
  import V = PointCloud

  class Library {
    const counters: Counters
    const guess: V.Guess
    ghost var clouds: seq<PointCloud>  // every object handed out, freed or not

    ghost function States(): (cs: seq<V.Cloud>)
      reads this, clouds
      ensures |cs| == |clouds| && forall i :: 0 <= i < |cs| ==> cs[i] == clouds[i].State()
    {
      seq(|clouds|, i requires 0 <= i < |clouds| reads this, clouds => clouds[i].State())
    }

    ghost function State(): V.Library
      reads this, counters, clouds
    {
      V.Library(States(), counters.State())
    }

    ghost predicate Apart()
      reads this
    {
      && (forall i, j :: 0 <= i < j < |clouds| ==> clouds[i] != clouds[j])
      && (forall i :: 0 <= i < |clouds| ==> clouds[i].counters == counters)
    }

    ghost predicate Valid()
      reads this, counters, clouds
    {
      Apart() && V.Balanced(State())
    }

    constructor (guess: V.Guess)
      ensures Valid() && State() == V.Library([], V.Counts(0, 0, 0, 0)) && this.guess == guess
      ensures fresh(counters)
    {
      counters := new Counters();
      this.guess := guess;
      clouds := [];
    }

    /** `cwipc_dangling_allocations`: zero exactly when every object handed out has been freed of its
        PCL cloud and of its raw points, and otherwise how many still hold one or the other. */
    method DanglingAllocations() returns (n: nat)
      requires Valid()
      ensures n == V.PclHolders(States()) + V.RawHolders(States())
      ensures n == 0 <==> forall i :: 0 <= i < |clouds| ==> clouds[i].pc.None? && clouds[i].points.None?
    {
      var d, r := counters.pcAlloc - counters.pcFreed, counters.rawAlloc - counters.rawFreed;
      n := (if d < 0 then -d else d) + (if r < 0 then -r else r);
      V.NoHolders(States());
    }

    // ----- creating

    /** `cwipc_from_pcl`. */
    method FromPcl(pc: Option<seq<V.PclPoint>>, timestamp: Word64) returns (cloud: PointCloud)
      requires Valid() && (pc.Some? ==> HEADER_SIZE + POINT_SIZE * |pc.value| < 0x8000_0000_0000_0000)
      modifies this`clouds, counters
      ensures Valid() && fresh(cloud) && clouds == old(clouds) + [cloud]
      ensures V.Next(guess, old(State()), V.FromPcl(pc, timestamp), State())
    {
      hide V.Balanced;
      ghost var was := State();
      cloud := new PointCloud.Pcl(counters, pc, timestamp);
      HandOut(cloud, was);
      V.NextBalanced(guess, was, V.FromPcl(pc, timestamp), State());
    }

    /** `cwipc_from_points`: nothing is handed out when the sizes disagree or there is no memory, and
        then nothing has changed. */
    method FromPoints(data: seq<Point>, size: Word64, npoint: int, timestamp: Word64, mallocOk: bool)
      returns (rv: Option<PointCloud>)
      requires Valid() && size <= POINT_SIZE * |data| && -0x8000_0000 <= npoint < 0x8000_0000
      requires mallocOk ==> size < 0x8000_0000_0000_0000
      modifies this`clouds, counters
      ensures Valid()
      ensures rv.Some? <==> V.SizesAgree(npoint, size) && mallocOk
      ensures rv.None? ==> clouds == old(clouds) && State() == old(State())
      ensures rv.Some? ==>
        && fresh(rv.value) && clouds == old(clouds) + [rv.value] && 0 <= npoint <= |data|
        && V.Next(guess, old(State()), V.FromPoints(data[..npoint], timestamp), State())
    {
      hide V.Balanced;
      ghost var was := State();
      var cloud := new PointCloud.Raw(counters);
      var r := cloud.FromPoints(data, size, npoint, timestamp, mallocOk);
      if r < 0 {
        assert State() == was;
        return None;
      }
      HandOut(cloud, was);
      V.NextBalanced(guess, was, V.FromPoints(data[..npoint], timestamp), State());
      rv := Some(cloud);
    }

    /** Records an object that is being handed out. */
    ghost method HandOut(cloud: PointCloud, was: V.Library)
      requires Apart() && cloud !in clouds && cloud.counters == counters && was.clouds == States()
      modifies this`clouds
      ensures Apart() && clouds == old(clouds) + [cloud]
      ensures State() == V.Add(was, (cloud.State(), counters.State()))
    {
      clouds := clouds + [cloud];
    }

    /** `cwipc_from_packet`. */
    method FromPacket(packet: seq<Byte>, mallocOk: bool) returns (rv: Option<PointCloud>)
      requires Valid() && HEADER_SIZE <= |packet| < 0x8000_0000_0000_0000
      modifies this`clouds, counters
      ensures Valid()
      ensures rv.Some? <==> Parse(packet).Some? && mallocOk
      ensures rv.None? ==> clouds == old(clouds) && State() == old(State())
      ensures rv.Some? ==>
        && fresh(rv.value) && clouds == old(clouds) + [rv.value]
        && V.Next(guess, old(State()), V.FromPacket(packet), State())
    {
      hide V.Balanced;
      ghost var was := State();
      var r := ReadPacket(packet, mallocOk);
      if r.None? {
        assert State() == was;
        return None;
      }
      HandOut(r.value, was);
      V.NextBalanced(guess, was, V.FromPacket(packet), State());
      rv := r;
    }

    /** Makes the object of a packet. */
    method ReadPacket(packet: seq<Byte>, mallocOk: bool) returns (rv: Option<PointCloud>)
      requires HEADER_SIZE <= |packet| < 0x8000_0000_0000_0000
      modifies counters
      ensures rv.Some? <==> Parse(packet).Some? && mallocOk
      ensures rv.None? ==> counters.State() == old(counters.State())
      ensures rv.Some? ==>
        && fresh(rv.value) && rv.value.counters == counters
        && V.FromPacketSpec(packet, old(counters.State()), guess) == Some((rv.value.State(), counters.State()))
    {
      hide Read32, Read64, DecodePoints;
      if packet[..4] != TAG || Read32(packet, 4) != MAGIC {
        return None;
      }
      var dataSize := |packet| - HEADER_SIZE;
      var npoint := ToInt32(Read64(packet, 24) / POINT_SIZE);
      if (npoint * POINT_SIZE) % SIZE_MODULUS != dataSize {
        return None;
      }
      var points := DecodePoints(packet[HEADER_SIZE..], npoint);
      assert points[..npoint] == points;
      var cloud := new PointCloud.Raw(counters);
      var r := cloud.FromPoints(points, dataSize, npoint, Read64(packet, 8), mallocOk);
      if r < 0 {
        return None;
      }
      cloud.SetCellsize(Read32(packet, 16), guess);
      rv := Some(cloud);
    }

    /** `cwipc_pointcloud__shallowcopy`. */
    method ShallowCopy(ghost i: nat, cloud: PointCloud) returns (copy: PointCloud)
      requires Valid() && i < |clouds| && clouds[i] == cloud
      modifies this`clouds, cloud, counters
      ensures Valid() && fresh(copy) && clouds == old(clouds) + [copy]
      ensures V.Next(guess, old(State()), V.ShallowCopyOf(i), State())
      ensures V.Points(copy.State()) == V.Points(cloud.State()) == old(V.Points(cloud.State()))
      ensures copy.timestamp == cloud.timestamp == old(cloud.timestamp)
      ensures copy.cellsize == cloud.cellsize == old(cloud.cellsize)
    {
      V.BalancedValid(State());
      hide V.Balanced, V.ShallowCopy, V.Points;
      ghost var was := State();
      copy := cloud.ShallowCopy(guess);
      Others(i);
      ghost var now := V.Replace(was, i, (cloud.State(), counters.State()));
      HandOut(copy, now);
      V.NextBalanced(guess, was, V.ShallowCopyOf(i), State());
    }

    // ----- using

    /** An operation on one object leaves the others as they are. */
    twostate lemma Others(i: nat)
      requires Apart() && clouds == old(clouds) && i < |clouds|
      requires forall j :: 0 <= j < |clouds| && clouds[j] != clouds[i] ==> unchanged(clouds[j])
      ensures States() == old(States())[i := clouds[i].State()]
    {
    }

    /** `cwipc_pointcloud_free`. */
    method Free(ghost i: nat, cloud: PointCloud)
      requires Valid() && i < |clouds| && clouds[i] == cloud
      modifies cloud, counters
      ensures Valid() && cloud.pc.None? && cloud.points.None?
      ensures V.Next(guess, old(State()), V.FreeCloud(i), State())
    {
      hide V.Balanced;
      ghost var was := State();
      cloud.Free();
      Others(i);
      V.NextBalanced(guess, was, V.FreeCloud(i), State());
    }

    /** `cwipc_pointcloud__set_cellsize`. */
    method SetCellsize(ghost i: nat, cloud: PointCloud, cellsize: Word32)
      requires Valid() && i < |clouds| && clouds[i] == cloud
      modifies cloud, counters
      ensures Valid()
      ensures V.Next(guess, old(State()), V.ChangeCellsize(i, cellsize), State())
    {
      V.BalancedValid(State());
      hide V.Balanced, V.SetCellsize;
      ghost var was := State();
      cloud.SetCellsize(cellsize, guess);
      Others(i);
      V.NextBalanced(guess, was, V.ChangeCellsize(i, cellsize), State());
    }

    /** `cwipc_pointcloud_copy_packet`, which may convert the cloud; it writes the whole packet if and
        only if there are fewer than 2^31 points. */
    method CopyPacket(ghost i: nat, cloud: PointCloud, packet: array?<Byte>, space: nat) returns (n: nat)
      requires Valid() && i < |clouds| && clouds[i] == cloud && (packet != null ==> space <= packet.Length)
      modifies cloud, counters, if packet == null then {} else {packet}
      ensures Valid() && V.ValidCloud(cloud.State())
      ensures V.Next(guess, old(State()), V.AccessPcl(i), State())
      ensures packet != null && 0 < n ==>
        var w := HEADER_SIZE + POINT_SIZE * V.Copied(cloud.State());
        && w <= n == |V.PacketOf(cloud.State())| <= packet.Length
        && packet[..w] == V.PacketOf(cloud.State())[..w] && packet[w..] == old(packet[w..])
        && (w == n <==> |V.Points(cloud.State())| < V.MAX_POINTS)
    {
      V.BalancedValid(State());
      hide V.Balanced;
      ghost var was := State();
      n := cloud.CopyPacket(packet, space);
      Others(i);
      V.NextBalanced(guess, was, V.AccessPcl(i), State());
      V.BalancedValid(State());
    }
  }
}
