/**
 The two representations of a point cloud, raw points and a PCL cloud, with the global counters of
 what has been allocated and freed, and the packets written from and read into them.  A PCL cloud is
 shared by pointer in the program; here it is a value.
 */
module PointCloud {
  import opened Options
  import opened PacketFormat

  /** A point of a PCL cloud; the tile number is its `a` field. */
  datatype PclPoint = PclPoint(x: Word32, y: Word32, z: Word32, r: Byte, g: Byte, b: Byte, a: Byte)

  function ToPcl(p: Point): PclPoint {
    PclPoint(p.x, p.y, p.z, p.r, p.g, p.b, p.tile)
  }

  function FromPcl(q: PclPoint): Point {
    Point(q.x, q.y, q.z, q.r, q.g, q.b, q.a)
  }

  function AllToPcl(ps: seq<Point>): (qs: seq<PclPoint>)
    ensures |qs| == |ps| && forall i :: 0 <= i < |ps| ==> qs[i] == ToPcl(ps[i])
  {
    seq(|ps|, i requires 0 <= i < |ps| => ToPcl(ps[i]))
  }

  function AllFromPcl(qs: seq<PclPoint>): (ps: seq<Point>)
    ensures |ps| == |qs| && forall i :: 0 <= i < |qs| ==> ps[i] == FromPcl(qs[i])
  {
    seq(|qs|, i requires 0 <= i < |qs| => FromPcl(qs[i]))
  }

  /** Whether the float with this bit pattern is below zero. */
  predicate Negative(f: Word32) {
    0x8000_0000 < f <= 0xFF80_0000
  }

  /** That is: its sign bit is set, and it is neither a zero nor not a number (IEEE 754, binary32). */
  lemma NegativeMeans(f: Word32)
    ensures var sign, exponent, fraction := f / 0x8000_0000, (f / 0x80_0000) % 0x100, f % 0x80_0000;
      Negative(f) <==> sign == 1 && (exponent, fraction) != (0, 0) && !(exponent == 0xFF && fraction != 0)
  {
    var top := f / 0x80_0000;
    assert f == 0x80_0000 * top + f % 0x80_0000;
  }

  /** How a cell size is guessed from the points; never a negative one. */
  type Guess = g: seq<PclPoint> -> Word32 | forall qs :: !Negative(g(qs)) witness qs => 0

  // ----- clouds and counters as values

  datatype Cloud = Cloud(
    raw: bool,                   // an uncompressed point cloud
    timestamp: Word64, cellsize: Word32,
    pc: Option<seq<PclPoint>>,   // m_pc
    points: Option<seq<Point>>,  // m_points
    size: nat)                   // m_points_size

  datatype Counts = Counts(pcAlloc: nat, pcFreed: nat, rawAlloc: nat, rawFreed: nat)

  const MAX_POINTS: nat := 0x8000_0000

  predicate ValidCloud(c: Cloud) {
    && (c.pc.Some? ==> HEADER_SIZE + POINT_SIZE * |c.pc.value| < 0x8000_0000_0000_0000)
    && (!c.raw ==> c.points.None?)
    && c.size == (if c.points.Some? then POINT_SIZE * |c.points.value| else 0)
    && (c.points.Some? ==> |c.points.value| < MAX_POINTS)
    && (c.raw && c.pc.Some? ==> c.pc.value == AllToPcl(RawPoints(c)))
    && (c.raw || c.pc.Some? ==> !Negative(c.cellsize))
  }

  function RawPoints(c: Cloud): seq<Point> {
    if c.points.Some? then c.points.value else []
  }

  /** The points a cloud gives out. */
  function Points(c: Cloud): seq<Point> {
    if c.raw then RawPoints(c) else if c.pc.Some? then AllFromPcl(c.pc.value) else []
  }

  // ----- what the operations compute

  function NewFromPcl(pc: Option<seq<PclPoint>>, timestamp: Word64, n: Counts): (Cloud, Counts) {
    (Cloud(false, timestamp, 0, pc, None, 0), if pc.Some? then n.(pcAlloc := n.pcAlloc + 1) else n)
  }

  /** `access_pcl_pointcloud`: a raw cloud without a PCL cloud converts its points. */
  function Access(c: Cloud, n: Counts): (r: (Cloud, Counts))
    ensures ValidCloud(c) ==> ValidCloud(r.0) && Points(r.0) == Points(c)
    ensures r.0 == c.(pc := r.0.pc) && (c.pc.Some? ==> r == (c, n)) && (r.0.pc.Some? <==> c.raw || c.pc.Some?)
  {
    if c.raw && c.pc.None? then (c.(pc := Some(AllToPcl(RawPoints(c)))), n.(pcAlloc := n.pcAlloc + 1))
    else (c, n)
  }

  function SetCellsize(c: Cloud, n: Counts, cellsize: Word32, guess: Guess): (Cloud, Counts) {
    var (c1, n1) := Access(c, n);
    (c1.(cellsize := if Negative(cellsize) && c1.pc.Some? then guess(c1.pc.value) else cellsize), n1)
  }

  /** The copy, the original, and the counts. */
  function ShallowCopy(c: Cloud, n: Counts, guess: Guess): (Cloud, Cloud, Counts) {
    var (c1, n1) := Access(c, n);
    var (d, n2) := NewFromPcl(c1.pc, c1.timestamp, n1);
    var (d1, n3) := SetCellsize(d, n2, c1.cellsize, guess);
    (d1, c1, n3)
  }

  /** `from_points` of a raw cloud, once the memory has been had. */
  function Load(c: Cloud, n: Counts, ps: seq<Point>, timestamp: Word64): (Cloud, Counts) {
    (c.(timestamp := timestamp, points := Some(ps), size := POINT_SIZE * |ps|, pc := None),
     n.(rawAlloc := n.rawAlloc + 1, pcFreed := n.pcFreed + if c.pc.Some? then 1 else 0))
  }

  /** The check of a point count, a 32-bit integer, against the size of the data, in 64-bit words. */
  predicate SizesAgree(npoint: int, size: nat) {
    (npoint * POINT_SIZE) % SIZE_MODULUS == size
  }

  function Free(c: Cloud, n: Counts): (Cloud, Counts) {
    (c.(pc := None, points := None, size := 0),
     n.(pcFreed := n.pcFreed + (if c.pc.Some? then 1 else 0),
        rawFreed := n.rawFreed + (if c.points.Some? then 1 else 0)))
  }

  const NEW_RAW: Cloud := Cloud(true, 0, 0, None, None, 0)

  // ----- packets

  /** What `copy_packet` of this cloud writes. */
  function PacketOf(c: Cloud): seq<Byte>
    requires ValidCloud(c)
  {
    Packet(Points(c), c.timestamp, c.cellsize)
  }

  /** What `cwipc_from_packet` makes, given the memory. */
  function FromPacketSpec(packet: seq<Byte>, n: Counts, guess: Guess): Option<(Cloud, Counts)>
    requires HEADER_SIZE <= |packet| < 0x8000_0000_0000_0000
  {
    match Parse(packet)
    case None => None
    case Some(contents) =>
      var (c, n1) := Load(NEW_RAW, n, contents.points, contents.timestamp);
      Some(SetCellsize(c, n1, contents.cellsize, guess))
  }

  /** A packet read back is the cloud it was written from: the same points in the same order, the
      same timestamp and, unless it was negative, the same cell size.  Too many points, and the packet
      is refused. */
  lemma PacketRoundTrip(c: Cloud, n: Counts, guess: Guess)
    requires ValidCloud(c)
    ensures FromPacketSpec(PacketOf(c), n, guess).Some? <==> |Points(c)| < MAX_POINTS
    ensures |Points(c)| < MAX_POINTS ==>
      var d := FromPacketSpec(PacketOf(c), n, guess).value.0;
      && ValidCloud(d) && Points(d) == Points(c) && d.timestamp == c.timestamp
      && (d.cellsize == c.cellsize <==> !Negative(c.cellsize))
  {
    hide Parse, Packet;
    ParsePacket(Points(c), c.timestamp, c.cellsize);
  }

  /** How many points `copy_uncompressed` writes: the number of points as a 32-bit integer, and none if
      that is negative. */
  function Copied(c: Cloud): (k: nat)
    ensures k <= |Points(c)|
  {
    var npoint := ToInt32(|Points(c)|);
    if npoint < 0 then 0 else npoint
  }

  /** All points are written exactly below 2^31 of them.  A packet with fewer points than its header
      announces is refused when it is read. */
  lemma CopiedAll(c: Cloud, packet: seq<Byte>)
    requires ValidCloud(c)
    ensures Copied(c) == |Points(c)| <==> |Points(c)| < MAX_POINTS
    ensures Copied(c) < |Points(c)| && |packet| == |PacketOf(c)| && packet[..HEADER_SIZE] == PacketOf(c)[..HEADER_SIZE]
      ==> Parse(packet) == None
  {
    hide Parse, EncodePoints, EncodeHeader;
    TruncationCaught(|Points(c)|);
    if MAX_POINTS <= |Points(c)| && |packet| == |PacketOf(c)| && packet[..HEADER_SIZE] == PacketOf(c)[..HEADER_SIZE] {
      HeaderRefused(packet, |Points(c)|, c.timestamp, c.cellsize);
    }
  }

  /** The start of a packet, up to a number of points. */
  lemma PacketPrefix(c: Cloud, k: nat)
    requires ValidCloud(c) && k <= |Points(c)|
    ensures PacketOf(c)[..HEADER_SIZE + POINT_SIZE * k]
      == EncodeHeader(c.timestamp, c.cellsize, POINT_SIZE * |Points(c)|) + EncodePoints(Points(c)[..k])
  {
    EncodePointsPrefix(Points(c), k);
    hide EncodePoints, EncodeHeader;
  }

  /** Conversion keeps every field of every point; the tile number becomes the `a` field. */
  lemma ConversionKeeps(c: Cloud, n: Counts, i: nat)
    requires ValidCloud(c) && c.raw && i < |RawPoints(c)|
    ensures Access(c, n).0.pc.Some? && |Access(c, n).0.pc.value| == |RawPoints(c)|
    ensures var p, q := RawPoints(c)[i], Access(c, n).0.pc.value[i];
      && (q.x, q.y, q.z) == (p.x, p.y, p.z) && (q.r, q.g, q.b, q.a) == (p.r, p.g, p.b, p.tile)
      && FromPcl(q) == p
  {
    if c.pc.Some? {
      assert c.pc.value == AllToPcl(RawPoints(c));
    }
  }

  /** A shallow copy has the points, the timestamp and the cell size of the original, raw or not, and so
      the same packet; it holds the original's PCL cloud and nothing else.  The original has been
      converted and is otherwise as it was. */
  lemma CopyKeeps(c: Cloud, n: Counts, guess: Guess)
    requires ValidCloud(c)
    ensures var (copy, c', _) := ShallowCopy(c, n, guess);
      && ValidCloud(copy) && !copy.raw && copy.points == None && copy.pc == c'.pc
      && Points(copy) == Points(c) && copy.timestamp == c.timestamp && copy.cellsize == c.cellsize
      && ValidCloud(c') && c' == c.(pc := c'.pc) && Points(c') == Points(c)
      && (c.pc.Some? ==> c' == c) && (c'.pc.Some? <==> c.raw || c.pc.Some?)
  {
    if c.raw {
      assert AllFromPcl(AllToPcl(RawPoints(c))) == RawPoints(c);
    }
  }

  /** All representations give the same packet: a cloud, the same after its conversion, and a copy that
      has only the PCL cloud. */
  lemma RepresentationsAgree(c: Cloud, n: Counts, guess: Guess)
    requires ValidCloud(c)
    ensures var (copy, c', _) := ShallowCopy(c, n, guess);
      && ValidCloud(c') && PacketOf(c') == PacketOf(c)
      && ValidCloud(copy) && PacketOf(copy) == PacketOf(c)
  {
    hide Packet, ShallowCopy, Points, ValidCloud;
    CopyKeeps(c, n, guess);
  }

  /** A new cloud has the points of its PCL cloud, its timestamp, and cell size zero; a new raw one has
      no points. */
  lemma NewCloud(pc: Option<seq<PclPoint>>, timestamp: Word64, n: Counts)
    ensures var c := NewFromPcl(pc, timestamp, n).0;
      && c.timestamp == timestamp && c.cellsize == 0 && !c.raw && c.pc == pc
      && Points(c) == if pc.Some? then AllFromPcl(pc.value) else []
    ensures NEW_RAW.raw && NEW_RAW.cellsize == 0 && NEW_RAW.timestamp == 0 && Points(NEW_RAW) == []
  {
  }

  /** Setting the cell size twice is setting it the second time; a size that is not negative is kept as
      it is, and a negative one only where there is no PCL cloud to guess from.  Nothing else of the
      cloud changes, except that a raw one is converted. */
  lemma CellsizeReplaced(c: Cloud, n: Counts, first: Word32, second: Word32, guess: Guess)
    requires ValidCloud(c)
    ensures var (c1, n1) := SetCellsize(c, n, first, guess);
      && SetCellsize(c1, n1, second, guess) == SetCellsize(c, n, second, guess)
      && (c1.cellsize == first <==> !Negative(first) || c1.pc.None? )
      && (Negative(c1.cellsize) ==> !c.raw && c.pc.None?)
      && c1 == c.(pc := c1.pc, cellsize := c1.cellsize) && Points(c1) == Points(c)
  {
  }

  // ----- what the counters count

  function HoldsPcl(c: Cloud): int {
    if c.pc.Some? then 1 else 0
  }

  function HoldsRaw(c: Cloud): int {
    if c.points.Some? then 1 else 0
  }

  function PclHolders(cs: seq<Cloud>): nat {
    if cs == [] then 0 else PclHolders(cs[..|cs| - 1]) + HoldsPcl(cs[|cs| - 1])
  }

  function RawHolders(cs: seq<Cloud>): nat {
    if cs == [] then 0 else RawHolders(cs[..|cs| - 1]) + HoldsRaw(cs[|cs| - 1])
  }

  lemma {:induction false} HoldersUpdate(cs: seq<Cloud>, i: nat, c: Cloud)
    requires i < |cs|
    ensures PclHolders(cs[i := c]) == PclHolders(cs) - HoldsPcl(cs[i]) + HoldsPcl(c)
    ensures RawHolders(cs[i := c]) == RawHolders(cs) - HoldsRaw(cs[i]) + HoldsRaw(c)
  {
    var m := |cs| - 1;
    if i < m {
      HoldersUpdate(cs[..m], i, c);
      assert cs[i := c][..m] == cs[..m][i := c];
    } else {
      assert cs[i := c][..m] == cs[..m];
    }
  }

  lemma HoldersAppend(cs: seq<Cloud>, c: Cloud)
    ensures PclHolders(cs + [c]) == PclHolders(cs) + HoldsPcl(c)
    ensures RawHolders(cs + [c]) == RawHolders(cs) + HoldsRaw(c)
  {
    assert (cs + [c])[..|cs|] == cs;
  }

  lemma {:induction false} NoHolders(cs: seq<Cloud>)
    ensures PclHolders(cs) == 0 <==> forall i :: 0 <= i < |cs| ==> cs[i].pc.None?
    ensures RawHolders(cs) == 0 <==> forall i :: 0 <= i < |cs| ==> cs[i].points.None?
  {
    if cs != [] {
      NoHolders(cs[..|cs| - 1]);
    }
  }

  /** The library's state: every cloud object ever handed out, freed or not, and the counters. */
  datatype Library = Library(clouds: seq<Cloud>, counts: Counts)

  datatype Action =
    | FromPcl(pc: Option<seq<PclPoint>>, timestamp: Word64)
    | FromPoints(points: seq<Point>, timestamp: Word64)
    | FromPacket(packet: seq<Byte>)
    | ShallowCopyOf(i: nat)
    | AccessPcl(i: nat)
    | ChangeCellsize(i: nat, cellsize: Word32)
    | FreeCloud(i: nat)

  function Replace(l: Library, i: nat, r: (Cloud, Counts)): Library
    requires i < |l.clouds|
  {
    Library(l.clouds[i := r.0], r.1)
  }

  function Add(l: Library, r: (Cloud, Counts)): Library {
    Library(l.clouds + [r.0], r.1)
  }

  /** A failed creation hands out nothing and leaves the counters alone. */
  ghost predicate Next(guess: Guess, l: Library, a: Action, l': Library) {
    match a
    case FromPcl(pc, timestamp) =>
      && (pc.Some? ==> HEADER_SIZE + POINT_SIZE * |pc.value| < 0x8000_0000_0000_0000)
      && l' == Add(l, NewFromPcl(pc, timestamp, l.counts))
    case FromPoints(points, timestamp) =>
      |points| < MAX_POINTS && l' == Add(l, Load(NEW_RAW, l.counts, points, timestamp))
    case FromPacket(packet) =>
      && HEADER_SIZE <= |packet| < 0x8000_0000_0000_0000
      && var r := FromPacketSpec(packet, l.counts, guess);
         l' == if r.Some? then Add(l, r.value) else l
    case ShallowCopyOf(i) =>
      && i < |l.clouds|
      && var (copy, c, n) := ShallowCopy(l.clouds[i], l.counts, guess);
         l' == Add(Replace(l, i, (c, n)), (copy, n))
    case AccessPcl(i) => i < |l.clouds| && l' == Replace(l, i, Access(l.clouds[i], l.counts))
    case ChangeCellsize(i, cellsize) =>
      i < |l.clouds| && l' == Replace(l, i, SetCellsize(l.clouds[i], l.counts, cellsize, guess))
    case FreeCloud(i) => i < |l.clouds| && l' == Replace(l, i, Free(l.clouds[i], l.counts))
  }

  ghost predicate Run(guess: Guess, ls: seq<Library>, acts: seq<Action>) {
    && |ls| == |acts| + 1
    && ls[0] == Library([], Counts(0, 0, 0, 0))
    && forall i :: 0 <= i < |acts| ==> Next(guess, ls[i], acts[i], ls[i + 1])
  }

  function PclBalance(n: Counts): int {
    n.pcAlloc - n.pcFreed
  }

  function RawBalance(n: Counts): int {
    n.rawAlloc - n.rawFreed
  }

  /** `cwipc_dangling_allocations`. */
  function Dangling(n: Counts): (d: nat) {
    (if PclBalance(n) < 0 then -PclBalance(n) else PclBalance(n))
    + (if RawBalance(n) < 0 then -RawBalance(n) else RawBalance(n))
  }

  /** What an operation on one object adds to the holders it adds to the balances. */
  predicate KeepsStep(c: Cloud, n: Counts, c': Cloud, n': Counts) {
    && PclBalance(n') - PclBalance(n) == HoldsPcl(c') - HoldsPcl(c)
    && RawBalance(n') - RawBalance(n) == HoldsRaw(c') - HoldsRaw(c)
  }

  ghost predicate Balanced(l: Library) {
    && PclBalance(l.counts) == PclHolders(l.clouds) && RawBalance(l.counts) == RawHolders(l.clouds)
    && forall i :: 0 <= i < |l.clouds| ==> ValidCloud(l.clouds[i])
  }

  lemma ReplaceBalanced(l: Library, i: nat, r: (Cloud, Counts))
    requires Balanced(l) && i < |l.clouds| && KeepsStep(l.clouds[i], l.counts, r.0, r.1) && ValidCloud(r.0)
    ensures Balanced(Replace(l, i, r))
  {
    hide ValidCloud;
    HoldersUpdate(l.clouds, i, r.0);
  }

  lemma AddBalanced(l: Library, r: (Cloud, Counts))
    requires Balanced(l) && ValidCloud(r.0)
    requires PclBalance(r.1) - PclBalance(l.counts) == HoldsPcl(r.0)
    requires RawBalance(r.1) - RawBalance(l.counts) == HoldsRaw(r.0)
    ensures Balanced(Add(l, r))
  {
    hide ValidCloud;
    HoldersAppend(l.clouds, r.0);
  }

  lemma CellsizeKeeps(c: Cloud, n: Counts, cellsize: Word32, guess: Guess)
    requires ValidCloud(c)
    ensures var (c', n') := SetCellsize(c, n, cellsize, guess);
      KeepsStep(c, n, c', n') && ValidCloud(c') && Points(c') == Points(c)
  {
  }

  lemma CopyBalanced(guess: Guess, l: Library, i: nat)
    requires Balanced(l) && i < |l.clouds|
    ensures var (copy, c, n) := ShallowCopy(l.clouds[i], l.counts, guess);
      Balanced(Add(Replace(l, i, (c, n)), (copy, n)))
  {
    var (c, n1) := Access(l.clouds[i], l.counts);
    ReplaceBalanced(l, i, (c, n1));
    var (d, n2) := NewFromPcl(c.pc, c.timestamp, n1);
    CellsizeKeeps(d, n2, c.cellsize, guess);
    var (copy, n) := SetCellsize(d, n2, c.cellsize, guess);
    AddBalanced(Replace(l, i, (c, n1)), (copy, n));
  }

  lemma PacketBalanced(guess: Guess, l: Library, packet: seq<Byte>)
    requires Balanced(l) && HEADER_SIZE <= |packet| < 0x8000_0000_0000_0000
    requires FromPacketSpec(packet, l.counts, guess).Some?
    ensures Balanced(Add(l, FromPacketSpec(packet, l.counts, guess).value))
  {
    ParsedIsPacket(packet);
    hide Parse, Packet;
    var contents := Parse(packet).value;
    var (c, n) := Load(NEW_RAW, l.counts, contents.points, contents.timestamp);
    CellsizeKeeps(c, n, contents.cellsize, guess);
    AddBalanced(l, SetCellsize(c, n, contents.cellsize, guess));
  }

  lemma NextBalanced(guess: Guess, l: Library, a: Action, l': Library)
    requires Balanced(l) && Next(guess, l, a, l')
    ensures Balanced(l')
  {
    hide Balanced, Parse, ShallowCopy, SetCellsize, Replace, Add, FromPacketSpec;
    assert forall i :: 0 <= i < |l.clouds| ==> ValidCloud(l.clouds[i]) by { BalancedValid(l); }
    match a
    case FromPcl(pc, timestamp) => AddBalanced(l, NewFromPcl(pc, timestamp, l.counts));
    case FromPoints(points, timestamp) => AddBalanced(l, Load(NEW_RAW, l.counts, points, timestamp));
    case FromPacket(packet) =>
      if FromPacketSpec(packet, l.counts, guess).Some? {
        PacketBalanced(guess, l, packet);
      }
    case ShallowCopyOf(i) => CopyBalanced(guess, l, i);
    case AccessPcl(i) => ReplaceBalanced(l, i, Access(l.clouds[i], l.counts));
    case ChangeCellsize(i, cellsize) =>
      CellsizeKeeps(l.clouds[i], l.counts, cellsize, guess);
      ReplaceBalanced(l, i, SetCellsize(l.clouds[i], l.counts, cellsize, guess));
    case FreeCloud(i) => ReplaceBalanced(l, i, Free(l.clouds[i], l.counts));
  }

  lemma BalancedValid(l: Library)
    requires Balanced(l)
    ensures forall i :: 0 <= i < |l.clouds| ==> ValidCloud(l.clouds[i])
  {
  }

  lemma {:induction false} RunBalanced(guess: Guess, ls: seq<Library>, acts: seq<Action>, i: nat)
    requires Run(guess, ls, acts) && i < |ls|
    ensures Balanced(ls[i])
  {
    hide Next;
    if i != 0 {
      RunBalanced(guess, ls, acts, i - 1);
      NextBalanced(guess, ls[i - 1], acts[i - 1], ls[i]);
    }
  }

  /** Conservation, over any sequence of operations: allocations minus deallocations are the number
      of objects that hold a PCL cloud, respectively a raw buffer; so nothing dangles exactly when no
      object holds either. */
  lemma AllocationsBalance(guess: Guess, ls: seq<Library>, acts: seq<Action>, i: nat)
    requires Run(guess, ls, acts) && i < |ls|
    ensures PclBalance(ls[i].counts) == PclHolders(ls[i].clouds)
    ensures RawBalance(ls[i].counts) == RawHolders(ls[i].clouds)
    ensures Dangling(ls[i].counts) == 0
      <==> forall k :: 0 <= k < |ls[i].clouds| ==> ls[i].clouds[k].pc.None? && ls[i].clouds[k].points.None?
  {
    RunBalanced(guess, ls, acts, i);
    NoHolders(ls[i].clouds);
  }

  /** Freeing twice is freeing once: the cloud has no points left, and keeps its timestamp and its cell
      size. */
  lemma FreeIdempotent(c: Cloud, n: Counts)
    ensures var (c1, n1) := Free(c, n);
      && Free(c1, n1) == (c1, n1)
      && Points(c1) == [] && c1.timestamp == c.timestamp && c1.cellsize == c.cellsize && c1.raw == c.raw
  {
  }

  /** Loading points into an object keeps the raw balance in step exactly when the object holds none:
      a second call overwrites the buffer of the first without counting it as freed. */
  lemma LoadBalances(c: Cloud, n: Counts, ps: seq<Point>, timestamp: Word64)
    ensures var (c', n') := Load(c, n, ps, timestamp);
      && PclBalance(n') - PclBalance(n) == HoldsPcl(c') - HoldsPcl(c)
      && (RawBalance(n') - RawBalance(n) == HoldsRaw(c') - HoldsRaw(c) <==> c.points.None?)
  {
  }
}
