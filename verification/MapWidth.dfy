/**
  Which positions a map of the game server can store: its width is 25 times a power of
  two, so that halving it leaves squares of width 25, 12, 6, 3 and 1.
*/
module MapWidths {
  import opened Geometry

  /** A column, as halving sees it: the border between two halves belongs to the left one. */
  predicate KeepsColumn(w: int, u: int)
    decreases w
  {
    w <= 1 || if u <= w / 2 then KeepsColumn(w / 2, u) else u <= 2 * (w / 2) && KeepsColumn(w / 2, u - w / 2)
  }

  /** A row: the border between two halves belongs to the upper one. */
  predicate KeepsRow(w: int, v: int)
    decreases w
  {
    w <= 1 || if v < w / 2 then KeepsRow(w / 2, v) else v <= 2 * (w / 2) && KeepsRow(w / 2, v - w / 2)
  }

  /** The quarter first-match routing picks, if it picks one. */
  lemma InnerByCoordinate(b: Box, p: Point)
    requires b.Contains(p) && b.CanSubdivide()
    ensures var h, u, v := b.width / 2, p.x - b.left, p.y - b.bottom;
      b.Inner(p) == if u > 2 * h || v > 2 * h then None
                    else if v >= h then Some(if u <= h then TopLeft else TopRight)
                    else Some(if u <= h then BottomLeft else BottomRight)
  {
  }

  /** Routing looks at the column and at the row, never at both together. */
  lemma {:induction false} DescendsByCoordinate(b: Box, p: Point)
    requires b.Contains(p)
    ensures Descends(b, p) <==> KeepsColumn(b.width, p.x - b.left) && KeepsRow(b.width, p.y - b.bottom)
    decreases b.width
  {
    if b.CanSubdivide() {
      InnerByCoordinate(b, p);
      if b.Inner(p).Some? {
        hide Box.Inner;
        DescendsByCoordinate(b.Child(b.Inner(p).value), p);
      }
    }
  }

  function PowerOf2(k: nat): nat {
    if k == 0 then 1 else 2 * PowerOf2(k - 1)
  }

  /** Where a column lies in its square of width 25. */
  function InColumn(u: int): int { (u - 1) % 25 + 1 }

  lemma SameRemainder(x: int, m: int)
    ensures (x - 25 * m) % 25 == x % 25
  {
    assert x - 25 * m == 25 * (x / 25 - m) + x % 25;
  }

  lemma ColumnHalves(m: nat, u: int)
    requires 0 < u <= 25 * (2 * m)
    ensures var u' := if u <= 25 * m then u else u - 25 * m;
      && 0 < u' <= 25 * m && InColumn(u') == InColumn(u)
      && (KeepsColumn(25 * (2 * m), u) <==> KeepsColumn(25 * m, u'))
  {
    SameRemainder(u - 1, m);
    assert 25 * (2 * m) / 2 == 25 * m;
  }

  lemma {:induction false} ColumnsRepeat(k: nat, u: int)
    requires 0 < u <= 25 * PowerOf2(k)
    ensures KeepsColumn(25 * PowerOf2(k), u) <==> KeepsColumn(25, InColumn(u))
  {
    if k > 0 {
      hide KeepsColumn, InColumn;
      var m := PowerOf2(k - 1);
      ColumnHalves(m, u);
      ColumnsRepeat(k - 1, if u <= 25 * m then u else u - 25 * m);
    } else {
      assert InColumn(u) == u;
    }
  }

  lemma {:induction false} FirstColumnKept(w: int)
    ensures KeepsColumn(w, 0)
    decreases w
  {
    if w > 1 {
      FirstColumnKept(w / 2);
    }
  }

  /** Where a row lies in its square of width 25; only the top edge of the map lies on a top edge. */
  function InRow(v: int, w: int): int {
    if v == w then 25 else v % 25
  }

  lemma RowHalves(m: nat, v: int)
    requires m > 0 && 0 <= v <= 25 * (2 * m)
    ensures var v' := if v < 25 * m then v else v - 25 * m;
      && 0 <= v' <= 25 * m && InRow(v', 25 * m) == InRow(v, 25 * (2 * m))
      && (KeepsRow(25 * (2 * m), v) <==> KeepsRow(25 * m, v'))
  {
    assert 25 * (2 * m) / 2 == 25 * m;
  }

  lemma {:induction false} RowsRepeat(k: nat, v: int)
    requires 0 <= v <= 25 * PowerOf2(k)
    ensures PowerOf2(k) > 0
    ensures KeepsRow(25 * PowerOf2(k), v) <==> KeepsRow(25, InRow(v, 25 * PowerOf2(k)))
  {
    if k > 0 {
      hide KeepsRow, InRow;
      var m := PowerOf2(k - 1);
      RowsRepeat(k - 1, 0);
      RowHalves(m, v);
      RowsRepeat(k - 1, if v < 25 * m then v else v - 25 * m);
    } else {
      assert InRow(v, 25) == v;
    }
  }

  lemma ColumnStep(w: nat, u: nat)
    requires w > 1
    ensures KeepsColumn(w, u) <==> u <= 2 * (w / 2) && KeepsColumn(w / 2, if u <= w / 2 then u else u - w / 2)
  {
  }

  lemma ColumnsOf3(u: int)
    requires 0 < u <= 3
    ensures KeepsColumn(3, u) <==> u != 3
  {
  }

  lemma ColumnsOf12(u: int)
    requires 0 < u <= 12
    ensures KeepsColumn(12, u) <==> u % 3 != 0
  {
    hide KeepsColumn;
    var u' := if u <= 6 then u else u - 6;
    ColumnStep(12, u);
    ColumnStep(6, u');
    ColumnsOf3(if u' <= 3 then u' else u' - 3);
  }

  lemma ColumnsOf25(u: int)
    requires 0 < u <= 25
    ensures KeepsColumn(25, u) <==> u % 3 != 0 && u != 25
  {
    hide KeepsColumn;
    ColumnStep(25, u);
    if u <= 24 {
      ColumnsOf12(if u <= 12 then u else u - 12);
    }
  }

  lemma RowStep(w: nat, v: nat)
    requires w > 1
    ensures KeepsRow(w, v) <==> v <= 2 * (w / 2) && KeepsRow(w / 2, if v < w / 2 then v else v - w / 2)
  {
  }

  lemma RowsOf3(v: int)
    requires 0 <= v <= 3
    ensures KeepsRow(3, v) <==> v != 3
  {
  }

  lemma RowsOf12(v: int)
    requires 0 <= v <= 12
    ensures KeepsRow(12, v) <==> v != 12
  {
    hide KeepsRow;
    var v' := if v < 6 then v else v - 6;
    RowStep(12, v);
    RowStep(6, v');
    RowsOf3(if v' < 3 then v' else v' - 3);
  }

  lemma RowsOf25(v: int)
    requires 0 <= v <= 25
    ensures KeepsRow(25, v) <==> v < 24
  {
    hide KeepsRow;
    RowStep(25, v);
    if v <= 24 {
      RowsOf12(if v < 12 then v else v - 12);
    }
  }

  lemma MapWidthIs25Times()
    ensures MAP_WIDTH == 25 * PowerOf2(14)
  {
    assert PowerOf2(4) == 16;
    assert PowerOf2(8) == 256;
    assert PowerOf2(12) == 4096;
  }

  lemma ColumnIsKeptIff(u: int)
    requires 0 < u <= MAP_WIDTH
    ensures KeepsColumn(MAP_WIDTH, u) <==> InColumn(u) % 3 != 0 && InColumn(u) != 25
  {
    hide KeepsColumn;
    MapWidthIs25Times();
    ColumnsRepeat(14, u);
    ColumnsOf25(InColumn(u));
  }

  lemma RowIsKeptIff(v: int)
    requires 0 <= v <= MAP_WIDTH
    ensures KeepsRow(MAP_WIDTH, v) <==> InRow(v, MAP_WIDTH) < 24
  {
    hide KeepsRow;
    MapWidthIs25Times();
    RowsRepeat(14, v);
    RowsOf25(InRow(v, MAP_WIDTH));
  }

  /**
    The positions a map of the game server can store however far it is subdivided: of
    every 25 rows the last is lost, and of every 25 columns nine are.
  */
  lemma MapRoutesIff(p: Point)
    ensures Routes(Box(0, 0, MAP_WIDTH), p) <==>
            && 0 <= p.x <= MAP_WIDTH && 0 <= p.y < MAP_WIDTH && p.y % 25 != 24
            && (p.x == 0 || (InColumn(p.x) % 3 != 0 && InColumn(p.x) != 25))
  {
    hide Descends, KeepsColumn, KeepsRow, InColumn;
    var b := Box(0, 0, MAP_WIDTH);
    if b.Contains(p) {
      DescendsByCoordinate(b, p);
      RowIsKeptIff(p.y);
      if p.x == 0 {
        FirstColumnKept(MAP_WIDTH);
      } else {
        ColumnIsKeptIff(p.x);
      }
    }
  }

  /** Where the commands of the game server teleport a player. */
  const TARGETS := [
    Point(258039, 259336), Point(264975, 262548), Point(266044, 285024), Point(267590, 242885),
    Point(255856, 288742), Point(232899, 294628), Point(265500, 238054), Point(255680, 229056)
  ]

  /** Only the first and the last of them can be stored however crowded the place is. */
  lemma TargetsRouteIff(i: nat)
    requires i < |TARGETS|
    ensures Routes(Box(0, 0, MAP_WIDTH), TARGETS[i]) <==> i == 0 || i == 7
  {
    hide Routes;
    MapRoutesIff(TARGETS[i]);
  }
}
