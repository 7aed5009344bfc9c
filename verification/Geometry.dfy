/**
  The plane the quadtree divides: positions, entities, the integer distance the
  query filter uses, and the closed squares a tree node is responsible for.
*/
module Geometry {

  datatype Option<+T> = None | Some(value: T)

  datatype Point = Point(x: int, y: int)

  datatype Kind = Player | Monster | Npc | Loot

  /** A container files a character under its kind and then under its id. */
  datatype Key = Key(kind: Kind, id: nat)

  /** A character as the tree sees it: an identity and the position it was stored at. */
  datatype Entity = Entity(key: Key, pos: Point)

  // ---------------------------------------------------------------- distance

  /** Integer square root: the truncation of the exact root. */
  function Isqrt(n: nat): (r: nat)
    ensures r * r <= n < (r + 1) * (r + 1)
  {
    if n == 0 then 0
    else
      var s := Isqrt(n - 1);
      if (s + 1) * (s + 1) <= n then s + 1 else s
  }

  function Square(a: int): nat {
    SquareNonNegative(a);
    a * a
  }

  lemma SquareNonNegative(a: int)
    ensures 0 <= a * a
  {
  }

  function Distance(p: Point, q: Point): nat {
    Isqrt(Square(p.x - q.x) + Square(p.y - q.y))
  }

  /** The distance is the exact root of the sum of the squared offsets, rounded down. */
  lemma DistanceIsRounded(p: Point, q: Point)
    ensures var d := Distance(p, q);
      d * d <= (p.x - q.x) * (p.x - q.x) + (p.y - q.y) * (p.y - q.y) < (d + 1) * (d + 1)
  {
  }

  /** So a circle holds the points whose squared offsets add up to less than the next square. */
  lemma WithinRadiusIff(p: Point, q: Point, radius: nat)
    ensures Distance(p, q) <= radius <==>
            (p.x - q.x) * (p.x - q.x) + (p.y - q.y) * (p.y - q.y) < (radius + 1) * (radius + 1)
  {
    var d := Distance(p, q);
    DistanceIsRounded(p, q);
    if d <= radius {
      SquareMonotone(d + 1, radius + 1);
    } else {
      SquareMonotone(radius + 1, d);
    }
  }

  lemma SquareGrows(d: int, r: int)
    requires r >= 0 && (d > r || d < -r)
    ensures Square(d) >= (r + 1) * (r + 1)
  {
    if d > r {
      assert (r + 1) * (r + 1) <= d * d;
    } else {
      assert (r + 1) * (r + 1) <= (-d) * (-d);
    }
  }

  lemma OffsetBound(d: int, radius: int, n: nat)
    requires radius >= 0 && Square(d) <= n < (radius + 1) * (radius + 1)
    ensures -radius <= d <= radius
  {
    if d > radius || d < -radius {
      SquareGrows(d, radius);
    }
  }

  lemma SquareMonotone(a: nat, b: nat)
    requires a <= b
    ensures a * a <= b * b
  {
  }

  /** Whoever is within a radius is inside the square the query searches. */
  lemma DistanceBoundsOffsets(p: Point, q: Point, radius: int)
    requires radius >= 0 && Distance(p, q) <= radius
    ensures -radius <= p.x - q.x <= radius
    ensures -radius <= p.y - q.y <= radius
  {
    var n := Square(p.x - q.x) + Square(p.y - q.y);
    SquareMonotone(Isqrt(n) + 1, radius + 1);
    OffsetBound(p.x - q.x, radius, n);
    OffsetBound(p.y - q.y, radius, n);
  }

  /** Distance does not depend on who is asking. */
  lemma DistanceSymmetric(p: Point, q: Point)
    ensures Distance(p, q) == Distance(q, p)
  {
    assert (p.x - q.x) * (p.x - q.x) == (q.x - p.x) * (q.x - p.x);
    assert (p.y - q.y) * (p.y - q.y) == (q.y - p.y) * (q.y - p.y);
  }

  // ----------------------------------------------------------------- squares

  /** A closed square given by its bottom left corner. */
  datatype Box = Box(left: int, bottom: int, width: int) {
    function Right(): int { left + width }
    function Top(): int { bottom + width }

    /** All four edges belong to the square. */
    predicate Contains(p: Point) {
      left <= p.x <= Right() && bottom <= p.y <= Top()
    }

    predicate Meets(b: Box) {
      b.left <= Right() && b.Right() >= left && b.Top() >= bottom && b.bottom <= Top()
    }

    /** The coarse test a query prunes with: the square around the circle. */
    predicate InReach(p: Point, radius: int) {
      Meets(Box(p.x - radius, p.y - radius, radius * 2))
    }

    predicate CanSubdivide() {
      Right() - left > 1
    }

    function Child(c: Corner): Box {
      match c
      case TopLeft => Box(left, width / 2 + bottom, width / 2)
      case TopRight => Box(width / 2 + left, width / 2 + bottom, width / 2)
      case BottomLeft => Box(left, bottom, width / 2)
      case BottomRight => Box(width / 2 + left, bottom, width / 2)
    }

    /** The children share edges; the first one that contains the point gets it. */
    function Inner(p: Point): Option<Corner> {
      if Child(TopLeft).Contains(p) then Some(TopLeft)
      else if Child(TopRight).Contains(p) then Some(TopRight)
      else if Child(BottomLeft).Contains(p) then Some(BottomLeft)
      else if Child(BottomRight).Contains(p) then Some(BottomRight)
      else None
    }
  }

  datatype Corner = TopLeft | TopRight | BottomLeft | BottomRight

  /** A square is in reach exactly when it has a point whose offsets are at most the radius. */
  lemma InReachIff(b: Box, p: Point, radius: int)
    requires b.width >= 0 && radius >= 0
    ensures b.InReach(p, radius) <==>
            exists q: Point :: b.Contains(q) && -radius <= q.x - p.x <= radius && -radius <= q.y - p.y <= radius
  {
    if b.InReach(p, radius) {
      var q := Point(if p.x < b.left then b.left else if p.x > b.Right() then b.Right() else p.x,
                     if p.y < b.bottom then b.bottom else if p.y > b.Top() then b.Top() else p.y);
      assert b.Contains(q);
    }
  }

  /**
    Squares more than one wide are halved. The left and the upper children own the lines
    between; the last column and the last row of a square of odd width belong to no child.
  */
  lemma InnerByCoordinates(b: Box, p: Point)
    requires b.Contains(p)
    ensures b.CanSubdivide() <==> b.width > 1
    ensures b.Inner(p) ==
      if b.width % 2 == 1 && (p.x == b.left + b.width || p.y == b.bottom + b.width) then None
      else if p.y >= b.bottom + b.width / 2 then Some(if p.x <= b.left + b.width / 2 then TopLeft else TopRight)
      else Some(if p.x <= b.left + b.width / 2 then BottomLeft else BottomRight)
  {
  }

  /** A point in reach of the query is never pruned away. */
  lemma PruningIsSafe(b: Box, p: Point, q: Point, radius: nat)
    requires b.Contains(p) && Distance(p, q) <= radius
    ensures b.InReach(q, radius)
  {
    DistanceBoundsOffsets(p, q, radius);
  }

  // ---------------------------------------------------- which widths can split

  predicate PowerOfTwo(w: int)
    decreases w
  {
    w == 1 || (w > 1 && w % 2 == 0 && PowerOfTwo(w / 2))
  }

  /** Subdividing as far as the code ever does, does the point always find a child? */
  predicate Descends(b: Box, p: Point)
    decreases b.width
  {
    !b.CanSubdivide() ||
    match b.Inner(p)
    case None => false
    case Some(c) => Descends(b.Child(c), p)
  }

  /** A position a tree over the square can store, however far it is subdivided. */
  predicate Routes(b: Box, p: Point) {
    b.Contains(p) && Descends(b, p)
  }

  lemma InnerIsInside(b: Box, p: Point)
    requires b.CanSubdivide() && b.Inner(p).Some?
    ensures b.Contains(p) && b.Child(b.Inner(p).value).Contains(p)
  {
  }

  lemma RoutesBelow(b: Box, p: Point)
    requires Routes(b, p) && b.CanSubdivide()
    ensures b.Inner(p).Some? && Routes(b.Child(b.Inner(p).value), p)
  {
  }

  lemma {:induction false} PowerOfTwoDescends(b: Box, p: Point)
    requires PowerOfTwo(b.width) && b.Contains(p)
    ensures Descends(b, p)
    ensures b.CanSubdivide() ==> b.Inner(p).Some?
    decreases b.width
  {
    if b.CanSubdivide() {
      PowerOfTwoDescends(b.Child(b.Inner(p).value), p);
    }
  }

  lemma PowerOfTwoRoutes(b: Box, p: Point)
    requires PowerOfTwo(b.width) && b.Contains(p)
    ensures Routes(b, p)
  {
    PowerOfTwoDescends(b, p);
  }

  /** A width that is not a power of two leaves an in-bounds point without a home. */
  lemma {:induction false} OtherWidthLosesPoint(b: Box) returns (p: Point)
    requires b.width >= 1 && !PowerOfTwo(b.width)
    ensures b.Contains(p) && !Descends(b, p)
    decreases b.width
  {
    if b.width % 2 == 1 {
      p := Point(b.Right(), b.Top());
    } else {
      p := OtherWidthLosesPoint(b.Child(TopLeft));
    }
  }

  /** Every in-bounds point can be routed at every split exactly when the width is a power of two. */
  lemma RoutingIsTotalIff(b: Box)
    requires b.width >= 1
    ensures (forall p: Point :: b.Contains(p) ==> Descends(b, p)) <==> PowerOfTwo(b.width)
  {
    if PowerOfTwo(b.width) {
      forall p: Point | b.Contains(p) ensures Descends(b, p) {
        PowerOfTwoDescends(b, p);
      }
    } else {
      var p := OtherWidthLosesPoint(b);
    }
  }

  const MAP_WIDTH := 50 * 8192

  /** The width the game server gives its maps is 25 times a power of two. */
  lemma MapWidthLosesPoint() returns (p: Point)
    ensures !PowerOfTwo(MAP_WIDTH)
    ensures Box(0, 0, MAP_WIDTH).Contains(p) && !Descends(Box(0, 0, MAP_WIDTH), p)
  {
    assert !PowerOfTwo(25);
    assert !PowerOfTwo(400);
    assert !PowerOfTwo(6400);
    assert !PowerOfTwo(102400);
    p := OtherWidthLosesPoint(Box(0, 0, MAP_WIDTH));
  }

  /** A square of width 4 sends its corner (0, 0) and its corner (4, 4) to different children. */
  lemma SmallBox(box: Box, p: Point, q: Point)
    requires box.left == 0 && box.bottom == 0 && box.width == 4
    requires p.x == 0 && p.y == 0 && q.x == 4 && q.y == 4
    ensures box.Inner(p) == Some(BottomLeft)
    ensures box.Inner(q) == Some(TopRight)
    ensures box.CanSubdivide() && box.Child(BottomLeft).CanSubdivide()
  {
    assert box.Child(TopLeft) == Box(0, 2, 2) && box.Child(TopRight) == Box(2, 2, 2);
    assert box.Child(BottomLeft) == Box(0, 0, 2);
  }
}
