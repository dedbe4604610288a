/**
 Eroding a depth image in place: every zero pixel clears its neighbours in its row and in its
 column.  The zeros are looked up in a copy, so that cleared pixels do not spread further.
 */
module DepthErosion {
  import BitTricks

  /** A pixel of a 16-bit depth image. */
  type Depth = d: nat | d < 0x1_0000

  /** The place of pixel (x, y) in an image of width w. */
  function At(x: nat, y: nat, w: nat): nat {
    x + y * w
  }

  lemma AtInRange(x: nat, y: nat, w: nat, h: nat)
    requires x < w && y < h
    ensures At(x, y, w) < w * h
  {
    assert (y + 1) * w <= h * w by { BitTricks.MulMono(y + 1, h, w); }
    assert (y + 1) * w == y * w + w;
  }

  lemma AtDistinct(x: nat, y: nat, u: nat, v: nat, w: nat)
    requires x < w && u < w && At(x, y, w) == At(u, v, w)
    ensures x == u && y == v
  {
    if y < v {
      assert (y + 1) * w == y * w + w;
      BitTricks.MulMono(y + 1, v, w);
    } else if v < y {
      assert (v + 1) * w == v * w + w;
      BitTricks.MulMono(v + 1, y, w);
    }
  }

  lemma AllInRange(w: nat, h: nat)
    ensures forall u: nat, v: nat :: u < w && v < h ==> At(u, v, w) < w * h
  {
    forall u: nat, v: nat | u < w && v < h
      ensures At(u, v, w) < w * h
    {
      AtInRange(u, v, w, h);
    }
  }

  lemma AllDistinct(x: nat, y: nat, w: nat)
    requires x < w
    ensures forall u: nat, v: nat :: u < w && At(u, v, w) == At(x, y, w) ==> u == x && v == y
  {
    forall u: nat, v: nat | u < w && At(u, v, w) == At(x, y, w)
      ensures u == x && v == y
    {
      AtDistinct(u, v, x, y, w);
    }
  }

  predicate Near(a: int, b: int, delta: int) {
    -delta <= a - b <= delta
  }

  /** Pixel (a, b) is zero and close enough to clear pixel (u, v). */
  ghost predicate Clears(z: seq<Depth>, w: nat, dx: int, dy: int, a: nat, b: nat, u: nat, v: nat)
    requires At(a, b, w) < |z|
  {
    && z[At(a, b, w)] == 0
    && ((b == v && Near(a, u, dx)) || (a == u && Near(b, v, dy)))
  }

  /** Some pixel that comes before (x, y), column by column, clears (u, v). */
  ghost predicate ClearedBefore(z: seq<Depth>, w: nat, h: nat, dx: int, dy: int, x: nat, y: nat, u: nat, v: nat)
    requires |z| == w * h
  {
    exists a: nat, b: nat :: a < w && b < h && (a < x || (a == x && b < y))
      && At(a, b, w) < |z| && Clears(z, w, dx, dy, a, b, u, v)
  }

  /** `d` is `z` with the pixels cleared that pixels before (x, y) clear. */
  ghost predicate Progress(d: seq<Depth>, z: seq<Depth>, w: nat, h: nat, dx: int, dy: int, x: nat, y: nat) {
    && |d| == |z| == w * h
    && forall u: nat, v: nat :: u < w && v < h ==>
         && At(u, v, w) < |z|
         && d[At(u, v, w)] == if ClearedBefore(z, w, h, dx, dy, x, y, u, v) then 0 else z[At(u, v, w)]
  }

  /** The inner loop over the row of a zero pixel. */
  method ClearRow(depth: array<Depth>, w: nat, h: nat, x: nat, y: nat, dx: int)
    requires depth.Length == w * h && x < w && y < h
    modifies depth
    ensures forall u: nat, v: nat :: u < w && v < h ==>
      && At(u, v, w) < depth.Length
      && depth[At(u, v, w)] == if v == y && Near(u, x, dx) then 0 else old(depth[..])[At(u, v, w)]
  {
    AllInRange(w, h);
    hide At;
    ghost var z := depth[..];
    var ix := x - dx;
    while ix <= x + dx
      invariant x - dx <= ix
      invariant forall u: nat, v: nat :: u < w && v < h ==>
        depth[At(u, v, w)] == if v == y && x - dx <= u < ix && u <= x + dx then 0 else z[At(u, v, w)]
    {
      if 0 <= ix < w {
        AllDistinct(ix, y, w);
        depth[At(ix, y, w)] := 0;
      }
      ix := ix + 1;
    }
  }

  /** The inner loop over the column of a zero pixel. */
  method ClearColumn(depth: array<Depth>, w: nat, h: nat, x: nat, y: nat, dy: int)
    requires depth.Length == w * h && x < w && y < h
    modifies depth
    ensures forall u: nat, v: nat :: u < w && v < h ==>
      && At(u, v, w) < depth.Length
      && depth[At(u, v, w)] == if u == x && Near(v, y, dy) then 0 else old(depth[..])[At(u, v, w)]
  {
    AllInRange(w, h);
    hide At;
    ghost var z := depth[..];
    var iy := y - dy;
    while iy <= y + dy
      invariant y - dy <= iy
      invariant forall u: nat, v: nat :: u < w && v < h ==>
        depth[At(u, v, w)] == if u == x && y - dy <= v < iy && v <= y + dy then 0 else z[At(u, v, w)]
    {
      if 0 <= iy < h {
        AllDistinct(x, iy, w);
        depth[At(x, iy, w)] := 0;
      }
      iy := iy + 1;
    }
  }

  /** Handling one pixel extends the progress by it. */
  lemma OneMore(d: seq<Depth>, d': seq<Depth>, z: seq<Depth>, w: nat, h: nat, dx: int, dy: int, x: nat, y: nat)
    requires Progress(d, z, w, h, dx, dy, x, y) && x < w && y < h && |d'| == |d| && At(x, y, w) < |z|
    requires z[At(x, y, w)] != 0 ==> d' == d
    requires z[At(x, y, w)] == 0 ==> forall u: nat, v: nat :: u < w && v < h ==>
      d'[At(u, v, w)] == if (v == y && Near(u, x, dx)) || (u == x && Near(v, y, dy)) then 0 else d[At(u, v, w)]
    ensures Progress(d', z, w, h, dx, dy, x, y + 1)
  {
    hide At;
    forall u: nat, v: nat | u < w && v < h
      ensures ClearedBefore(z, w, h, dx, dy, x, y + 1, u, v)
        <==> ClearedBefore(z, w, h, dx, dy, x, y, u, v) || Clears(z, w, dx, dy, x, y, u, v)
    {
      if Clears(z, w, dx, dy, x, y, u, v) {
        assert ClearedBefore(z, w, h, dx, dy, x, y + 1, u, v);
      }
    }
  }

  lemma NextColumn(d: seq<Depth>, z: seq<Depth>, w: nat, h: nat, dx: int, dy: int, x: nat)
    requires Progress(d, z, w, h, dx, dy, x, h)
    ensures Progress(d, z, w, h, dx, dy, x + 1, 0)
  {
    hide At;
    forall u: nat, v: nat | u < w && v < h
      ensures ClearedBefore(z, w, h, dx, dy, x + 1, 0, u, v) <==> ClearedBefore(z, w, h, dx, dy, x, h, u, v)
    {
    }
  }

  /** Some zero of the original is in the pixel's row within dx or in its column within dy. */
  ghost predicate Eroded(z: seq<Depth>, w: nat, h: nat, dx: int, dy: int, u: nat, v: nat)
    requires |z| == w * h
  {
    || (exists a: nat :: a < w && At(a, v, w) < |z| && Near(a, u, dx) && z[At(a, v, w)] == 0)
    || (exists b: nat :: b < h && At(u, b, w) < |z| && Near(b, v, dy) && z[At(u, b, w)] == 0)
  }

  lemma AllDone(d: seq<Depth>, z: seq<Depth>, w: nat, h: nat, dx: int, dy: int)
    requires Progress(d, z, w, h, dx, dy, w, 0)
    ensures forall u: nat, v: nat :: u < w && v < h ==>
      && At(u, v, w) < |z|
      && d[At(u, v, w)] == if Eroded(z, w, h, dx, dy, u, v) then 0 else z[At(u, v, w)]
  {
    hide At;
    forall u: nat, v: nat | u < w && v < h
      ensures ClearedBefore(z, w, h, dx, dy, w, 0, u, v) <==> Eroded(z, w, h, dx, dy, u, v)
    {
      if a: nat :| a < w && At(a, v, w) < |z| && Near(a, u, dx) && z[At(a, v, w)] == 0 {
        assert Clears(z, w, dx, dy, a, v, u, v);
      }
      if b: nat :| b < h && At(u, b, w) < |z| && Near(b, v, dy) && z[At(u, b, w)] == 0 {
        assert Clears(z, w, dx, dy, u, b, u, v);
      }
    }
  }

  /** A pixel is zero afterwards exactly when it was, or when the original had a zero in its row
      within xDelta or in its column within yDelta; every other pixel keeps its value. */
  method ErodeDepth(depth: array<Depth>, width: nat, height: nat, xDelta: int, yDelta: int)
    requires depth.Length == width * height
    modifies depth
    ensures forall x: nat, y: nat :: x < width && y < height ==>
      && At(x, y, width) < depth.Length
      && var was := old(depth[..])[At(x, y, width)];
         depth[At(x, y, width)]
         == if was == 0 || Eroded(old(depth[..]), width, height, xDelta, yDelta, x, y) then 0 else was
  {
    hide Progress, At, Eroded;
    AllInRange(width, height);
    ghost var was := depth[..];
    var z := new Depth[depth.Length](i requires 0 <= i < depth.Length reads depth => depth[i]);
    assert z[..] == was;
    NothingYet(was, width, height, xDelta, yDelta);
    for x := 0 to width
      invariant z[..] == was && Progress(depth[..], was, width, height, xDelta, yDelta, x, 0)
    {
      for y := 0 to height
        invariant z[..] == was && Progress(depth[..], was, width, height, xDelta, yDelta, x, y)
      {
        ghost var before := depth[..];
        if z[At(x, y, width)] == 0 {
          ClearRow(depth, width, height, x, y, xDelta);
          ClearColumn(depth, width, height, x, y, yDelta);
        }
        OneMore(before, depth[..], was, width, height, xDelta, yDelta, x, y);
      }
      NextColumn(depth[..], was, width, height, xDelta, yDelta, x);
    }
    AllDone(depth[..], was, width, height, xDelta, yDelta);
  }

  lemma NothingYet(z: seq<Depth>, w: nat, h: nat, dx: int, dy: int)
    requires |z| == w * h
    ensures Progress(z, z, w, h, dx, dy, 0, 0)
  {
    AllInRange(w, h);
    hide At;
  }
}
