/** The two coordinate transforms of the point picker: from a pointer
    location in the widget to the picked position (an offset from the
    allocation's centre, in image pixels), and from a position back to the
    widget point where the crosshair is drawn. */
module Transform {

  /** A point with integer coordinates: a pointer location or a position. */
  datatype Point = Point(x: int, y: int)

  /** Width and height, of the widget's allocation or of the image. */
  datatype Size = Size(width: nat, height: nat)

  /** What the transforms read besides their argument: the allocation, its
      centre (computed by the host application) and the image size (held by the
      workspace). */
  datatype Geometry = Geometry(alloc: Size, centre: Point, image: Size)

  /** The transforms divide by the allocation's width and height as integers,
      which throws on zero; an allocated widget is never empty. */
  predicate ValidGeometry(g: Geometry)
  {
    g.alloc.width > 0 && g.alloc.height > 0
  }

  /** Image pixels per allocation pixel on one axis, computed by integer
      division and therefore rounded down. */
  function Scale(imageDim: nat, allocDim: nat): (s: nat)
    requires allocDim > 0
    ensures s * allocDim <= imageDim < s * allocDim + allocDim
    ensures s == 0 <==> imageDim < allocDim
  {
    imageDim / allocDim
  }

  /** One axis of the forward transform: the pointer's offset from the centre
      times the integer scale. The source truncates this product to an int;
      for an integer pointer coordinate the product is already integral. */
  function AxisToPosition(client: int, centre: int, s: nat): (r: int)
    ensures r > 0 <==> client > centre && s > 0
    ensures r < 0 <==> client < centre && s > 0
    ensures r == 0 <==> client == centre || s == 0
  {
    ProductSign(client - centre, s);
    (client - centre) * s
  }

  /** The position picked by the pointer at `client`. A coordinate of the
      position is zero exactly when the pointer is level with the centre on
      that axis or the image is smaller than the allocation there. */
  function MousePtToPosition(client: Point, g: Geometry): (p: Point)
    requires ValidGeometry(g)
    ensures p.x == 0 <==> client.x == g.centre.x || g.image.width < g.alloc.width
    ensures p.y == 0 <==> client.y == g.centre.y || g.image.height < g.alloc.height
  {
    Point(AxisToPosition(client.x, g.centre.x, Scale(g.image.width, g.alloc.width)),
          AxisToPosition(client.y, g.centre.y, Scale(g.image.height, g.alloc.height)))
  }

  /** A coordinate of type double: a finite value, or the infinity or NaN
      that dividing by a zero scale yields. */
  datatype Coord = Finite(value: real) | NonFinite

  /** A widget point with double coordinates. */
  datatype ClientPoint = ClientPoint(x: Coord, y: Coord)

  /** One axis of the inverse transform: the centre plus the position
      divided by the scale. The result is finite exactly when the scale is
      not zero, and then it is the point whose offset from the centre,
      scaled up, is the position. */
  function AxisToClient(pos: int, centre: int, s: nat): (c: Coord)
    ensures c.Finite? <==> s > 0
    ensures c.Finite? ==> (c.value - centre as real) * s as real == pos as real
  {
    if s == 0 then NonFinite else Finite(centre as real + pos as real / s as real)
  }

  /** The widget point at which the crosshair for `pos` is drawn. A
      coordinate is finite exactly when the image is at least as large as
      the allocation on that axis. */
  function PositionToClientPt(pos: Point, g: Geometry): (c: ClientPoint)
    requires ValidGeometry(g)
    ensures c.x.Finite? <==> g.image.width >= g.alloc.width
    ensures c.y.Finite? <==> g.image.height >= g.alloc.height
  {
    ClientPoint(AxisToClient(pos.x, g.centre.x, Scale(g.image.width, g.alloc.width)),
                AxisToClient(pos.y, g.centre.y, Scale(g.image.height, g.alloc.height)))
  }

  /** The centre of the allocation picks position (0, 0). */
  lemma CentreIsOrigin(g: Geometry)
    requires ValidGeometry(g)
    ensures MousePtToPosition(g.centre, g) == Point(0, 0)
  {
  }

  /** The sign of a product with a non-negative factor. */
  lemma {:induction false} ProductSign(d: int, s: nat)
    ensures d * s > 0 <==> d > 0 && s > 0
    ensures d * s < 0 <==> d < 0 && s > 0
    ensures d * s == 0 <==> d == 0 || s == 0
  {
    if s > 0 {
      if d > 0 {
        assert d * s >= s by { MulMonotone(1, d, s); }
      } else if d < 0 {
        assert -d * s >= s by { MulMonotone(1, -d, s); }
      }
    }
  }

  /** Multiplying by a non-negative factor keeps order. */
  lemma {:induction false} MulMonotone(a: int, b: int, s: nat)
    requires a <= b
    ensures a * s <= b * s
  {
    assert b * s - a * s == (b - a) * s;
  }

  /** The forward transform preserves the sign of the pointer's offset from
      the centre on each axis whose scale is at least one. */
  lemma PositionSign(client: Point, g: Geometry)
    requires ValidGeometry(g)
    ensures g.image.width >= g.alloc.width ==>
      (MousePtToPosition(client, g).x > 0 <==> client.x > g.centre.x) &&
      (MousePtToPosition(client, g).x < 0 <==> client.x < g.centre.x)
    ensures g.image.height >= g.alloc.height ==>
      (MousePtToPosition(client, g).y > 0 <==> client.y > g.centre.y) &&
      (MousePtToPosition(client, g).y < 0 <==> client.y < g.centre.y)
  {
  }

  /** An image narrower (shorter) than the allocation has an integer scale
      of zero, so every pointer picks 0 on that axis. */
  lemma SmallImageCollapses(client: Point, g: Geometry)
    requires ValidGeometry(g)
    ensures g.image.width < g.alloc.width ==> MousePtToPosition(client, g).x == 0
    ensures g.image.height < g.alloc.height ==> MousePtToPosition(client, g).y == 0
  {
  }

  /** Mapping an integer pointer location to a position and back gives the
      pointer location again, provided neither scale is zero. */
  lemma {:induction false} ClientRoundTrip(client: Point, g: Geometry)
    requires ValidGeometry(g)
    requires g.image.width >= g.alloc.width && g.image.height >= g.alloc.height
    ensures PositionToClientPt(MousePtToPosition(client, g), g)
         == ClientPoint(Finite(client.x as real), Finite(client.y as real))
  {
    AxisRoundTrip(client.x, g.centre.x, Scale(g.image.width, g.alloc.width));
    AxisRoundTrip(client.y, g.centre.y, Scale(g.image.height, g.alloc.height));
  }

  /** One axis of ClientRoundTrip. */
  lemma {:induction false} AxisRoundTrip(client: int, centre: int, s: nat)
    requires s > 0
    ensures AxisToClient(AxisToPosition(client, centre, s), centre, s) == Finite(client as real)
  {
    var c := AxisToClient(AxisToPosition(client, centre, s), centre, s);
    assert (c.value - centre as real) * s as real == ((client - centre) * s) as real;
    assert ((client - centre) * s) as real == (client - centre) as real * s as real;
    assert c.value - centre as real == (client - centre) as real;
  }

  /** Position (0, 0) is drawn at the centre on each axis with a non-zero
      scale, and at a non-finite coordinate on an axis whose scale is zero. */
  lemma OriginIsCentre(g: Geometry)
    requires ValidGeometry(g)
    ensures PositionToClientPt(Point(0, 0), g).x
         == if g.image.width >= g.alloc.width then Finite(g.centre.x as real) else NonFinite
    ensures PositionToClientPt(Point(0, 0), g).y
         == if g.image.height >= g.alloc.height then Finite(g.centre.y as real) else NonFinite
  {
  }

  /** With non-zero scales, a position is picked by some integer pointer
      location exactly when each coordinate is a multiple of its axis's
      scale; the pointer is then the one the inverse transform draws it at. */
  lemma {:induction false} PositionRoundTrip(pos: Point, g: Geometry)
    requires ValidGeometry(g)
    requires g.image.width >= g.alloc.width && g.image.height >= g.alloc.height
    ensures (exists client :: MousePtToPosition(client, g) == pos)
        <==> (pos.x % Scale(g.image.width, g.alloc.width) == 0
              && pos.y % Scale(g.image.height, g.alloc.height) == 0)
    ensures pos.x % Scale(g.image.width, g.alloc.width) == 0
         && pos.y % Scale(g.image.height, g.alloc.height) == 0
        ==> var client := Point(g.centre.x + pos.x / Scale(g.image.width, g.alloc.width),
                                g.centre.y + pos.y / Scale(g.image.height, g.alloc.height));
            MousePtToPosition(client, g) == pos
            && PositionToClientPt(pos, g) == ClientPoint(Finite(client.x as real), Finite(client.y as real))
  {
    var sx, sy := Scale(g.image.width, g.alloc.width), Scale(g.image.height, g.alloc.height);
    if pos.x % sx == 0 && pos.y % sy == 0 {
      var client := Point(g.centre.x + pos.x / sx, g.centre.y + pos.y / sy);
      assert MousePtToPosition(client, g) == pos;
      ClientRoundTrip(client, g);
    }
    if client :| MousePtToPosition(client, g) == pos {
      AxisMultiple(client.x - g.centre.x, sx);
      AxisMultiple(client.y - g.centre.y, sy);
    }
  }

  /** A multiple of `s` leaves no remainder. */
  lemma {:induction false} AxisMultiple(d: int, s: nat)
    requires s > 0
    ensures (d * s) % s == 0
  {
    var q, r := (d * s) / s, (d * s) % s;
    assert d * s == q * s + r && 0 <= r < s;
    assert (d - q) * s == r;
    if d - q >= 1 {
      MulMonotone(1, d - q, s);
    } else if d - q <= -1 {
      MulMonotone(d - q, -1, s);
    }
  }
}
