/** Boxes around the points a CLP holds, and how they keep range queries away. */
module Ranges {
  import opened Filters
  import opened RangeTrackers
  import opened Timelines
  import opened WritePeriods

  const INT_MAX: int := 0x7FFF_FFFF

  /** A box given by its least and its greatest corner, both included. */
  datatype Range = Range(low: Point, high: Point) {
    predicate Contains(p: Point) {
      low.x <= p.x <= high.x && low.y <= p.y <= high.y
    }

    predicate IsBox() {
      low.x <= high.x && low.y <= high.y
    }
  }

  // ---- The overlap test ----

  function Corners(r: Range): seq<Point> {
    [r.low, Point(r.high.x, r.low.y), Point(r.low.x, r.high.y), r.high]
  }

  /** Some corner of one lies in the other. */
  predicate IsRangeOverlapping(a: Range, b: Range) {
    (exists c :: c in Corners(b) && a.Contains(c)) || (exists c :: c in Corners(a) && b.Contains(c))
  }

  ghost predicate Meets(a: Range, b: Range) {
    exists p :: a.Contains(p) && b.Contains(p)
  }

  /** One is wider, the other is taller, on both sides. */
  predicate Crosses(a: Range, b: Range) {
    || (a.low.x < b.low.x && b.high.x < a.high.x && b.low.y < a.low.y && a.high.y < b.high.y)
    || (b.low.x < a.low.x && a.high.x < b.high.x && a.low.y < b.low.y && b.high.y < a.high.y)
  }

  lemma CornersOfBox(a: Range, b: Range)
    ensures IsRangeOverlapping(a, b) <==>
            || a.Contains(Corners(b)[0]) || a.Contains(Corners(b)[1]) || a.Contains(Corners(b)[2]) || a.Contains(Corners(b)[3])
            || b.Contains(Corners(a)[0]) || b.Contains(Corners(a)[1]) || b.Contains(Corners(a)[2]) || b.Contains(Corners(a)[3])
  {
    forall i | 0 <= i < 4 ensures Corners(a)[i] in Corners(a) && Corners(b)[i] in Corners(b) {
    }
  }

  lemma MeetsIff(a: Range, b: Range)
    requires a.IsBox() && b.IsBox()
    ensures Meets(a, b) <==> a.low.x <= b.high.x && b.low.x <= a.high.x && a.low.y <= b.high.y && b.low.y <= a.high.y
  {
    var p := Point(if a.low.x > b.low.x then a.low.x else b.low.x, if a.low.y > b.low.y then a.low.y else b.low.y);
    if a.low.x <= b.high.x && b.low.x <= a.high.x && a.low.y <= b.high.y && b.low.y <= a.high.y {
      assert a.Contains(p) && b.Contains(p);
    }
  }

  /** The test fails exactly for boxes that are apart or cross. */
  lemma OverlapTestFailsIff(a: Range, b: Range)
    requires a.IsBox() && b.IsBox()
    ensures !IsRangeOverlapping(a, b) <==> !Meets(a, b) || Crosses(a, b)
    ensures Crosses(a, b) ==> Meets(a, b)
  {
    CornersOfBox(a, b);
    MeetsIff(a, b);
    hide IsRangeOverlapping, Meets;
  }

  // ---- The box around the points ----

  /** A point with both coordinates at the maximum stands for none. */
  predicate IsNone(p: Point) {
    p.x == INT_MAX && p.y == INT_MAX
  }

  /** A point whose coordinates shrink or grow in place. */
  class Corner {
    var x: int
    var y: int

    constructor (p: Point)
      ensures View() == p
    {
      x, y := p.x, p.y;
    }

    function View(): Point
      reads this
    {
      Point(x, y)
    }

    method Min(p: Point)
      modifies this
      ensures View() == MinOf(old(View()), p)
      ensures if p == Point(INT_MAX, INT_MAX) then x == old(x) && y == old(y)
              else if old(x) == INT_MAX && old(y) == INT_MAX then x == p.x && y == p.y
              else x == (if p.x < old(x) then p.x else old(x)) && y == (if p.y < old(y) then p.y else old(y))
    {
      if p.x == INT_MAX && p.y == INT_MAX {
        return;
      }
      if x == INT_MAX && y == INT_MAX {
        x, y := p.x, p.y;
        return;
      }
      if p.x < x {
        x := p.x;
      }
      if p.y < y {
        y := p.y;
      }
    }

    method Max(p: Point)
      modifies this
      ensures View() == MaxOf(old(View()), p)
      ensures if p == Point(INT_MAX, INT_MAX) then x == old(x) && y == old(y)
              else if old(x) == INT_MAX && old(y) == INT_MAX then x == p.x && y == p.y
              else x == (if p.x > old(x) then p.x else old(x)) && y == (if p.y > old(y) then p.y else old(y))
    {
      if p.x == INT_MAX && p.y == INT_MAX {
        return;
      }
      if x == INT_MAX && y == INT_MAX {
        x, y := p.x, p.y;
        return;
      }
      if p.x > x {
        x := p.x;
      }
      if p.y > y {
        y := p.y;
      }
    }
  }

  function MinOf(a: Point, b: Point): Point {
    if IsNone(b) then a else if IsNone(a) then b
    else Point(if b.x < a.x then b.x else a.x, if b.y < a.y then b.y else a.y)
  }

  function MaxOf(a: Point, b: Point): Point {
    if IsNone(b) then a else if IsNone(a) then b
    else Point(if b.x > a.x then b.x else a.x, if b.y > a.y then b.y else a.y)
  }

  function PointsOf(values: seq<Value>): seq<Point> {
    if values == [] then []
    else
      var v := values[|values| - 1];
      PointsOf(values[..|values| - 1]) + if v.PointValue? then [v.point] else []
  }

  lemma PointsOfAdd(values: seq<Value>, v: Value)
    ensures PointsOf(values + [v]) == if v.PointValue? then PointsOf(values) + [v.point] else PointsOf(values)
  {
    assert (values + [v])[..|values|] == values;
  }

  /** The least and the greatest corner as the points are taken in one by one. */
  function BoxOf(points: seq<Point>): (r: Option<Range>)
    ensures r == None <==> points == []
  {
    if points == [] then None
    else
      var p, before := points[|points| - 1], BoxOf(points[..|points| - 1]);
      if before == None then Some(Range(p, p)) else Some(Range(MinOf(before.value.low, p), MaxOf(before.value.high, p)))
  }

  lemma BoxOfAdd(points: seq<Point>, p: Point)
    ensures BoxOf(points + [p]) == if points == [] then Some(Range(p, p))
                                   else Some(Range(MinOf(BoxOf(points).value.low, p), MaxOf(BoxOf(points).value.high, p)))
  {
    assert (points + [p])[..|points|] == points;
  }

  // ---- Whether that box is the tight one ----

  /** Some point lies on the side. */
  ghost predicate Touches(points: seq<Point>, x: int, isX: bool) {
    exists p :: p in points && !IsNone(p) && (if isX then p.x else p.y) == x
  }

  ghost predicate LowIsTight(c: Point, points: seq<Point>) {
    && (forall p :: p in points && !IsNone(p) ==> c.x <= p.x && c.y <= p.y)
    && Touches(points, c.x, true) && Touches(points, c.y, false)
  }

  ghost predicate HighIsTight(c: Point, points: seq<Point>) {
    && (forall p :: p in points && !IsNone(p) ==> p.x <= c.x && p.y <= c.y)
    && Touches(points, c.x, true) && Touches(points, c.y, false)
  }

  /** The box contains the points and touches them on all four sides; points that stand for none do not matter. */
  ghost predicate IsTight(r: Range, points: seq<Point>) {
    LowIsTight(r.low, points) && HighIsTight(r.high, points)
  }

  ghost predicate SomePoint(points: seq<Point>) {
    exists p :: p in points && !IsNone(p)
  }

  /** On one axis no point reaches the maximum. */
  ghost predicate OneAxisFree(points: seq<Point>) {
    !Touches(points, INT_MAX, true) || !Touches(points, INT_MAX, false)
  }

  ghost predicate AreInts(points: seq<Point>) {
    forall p :: p in points ==> p.x <= INT_MAX && p.y <= INT_MAX
  }

  /** What holds of the corners whatever the points: the low one is tight, the high one lies on points and is
      tight if an axis is free. */
  ghost predicate CornersFit(r: Range, points: seq<Point>) {
    if SomePoint(points) then
      && LowIsTight(r.low, points) && Touches(points, r.high.x, true) && Touches(points, r.high.y, false)
      && (OneAxisFree(points) ==> HighIsTight(r.high, points))
    else IsNone(r.low) && IsNone(r.high)
  }

  lemma TouchesAdd(points: seq<Point>, p: Point, x: int, isX: bool)
    ensures Touches(points + [p], x, isX) <==> Touches(points, x, isX) || (!IsNone(p) && (if isX then p.x else p.y) == x)
  {
    if Touches(points, x, isX) {
      var q :| q in points && !IsNone(q) && (if isX then q.x else q.y) == x;
      assert q in points + [p];
    }
    assert p in points + [p];
  }

  lemma SomePointAdd(points: seq<Point>, p: Point)
    ensures SomePoint(points + [p]) <==> SomePoint(points) || !IsNone(p)
  {
    if SomePoint(points) {
      var q :| q in points && !IsNone(q);
      assert q in points + [p];
    }
    assert p in points + [p];
  }

  lemma LowStaysTight(c: Point, points: seq<Point>, p: Point)
    requires LowIsTight(c, points) && AreInts(points)
    ensures LowIsTight(MinOf(c, p), points + [p])
  {
    var d := MinOf(c, p);
    TouchesAdd(points, p, d.x, true);
    TouchesAdd(points, p, d.y, false);
    TouchesAdd(points, p, c.x, true);
    TouchesAdd(points, p, c.y, false);
  }

  lemma HighStaysTight(c: Point, points: seq<Point>, p: Point)
    requires HighIsTight(c, points) && AreInts(points + [p]) && OneAxisFree(points)
    ensures HighIsTight(MaxOf(c, p), points + [p])
  {
    var d := MaxOf(c, p);
    TouchesAdd(points, p, d.x, true);
    TouchesAdd(points, p, d.y, false);
    TouchesAdd(points, p, c.x, true);
    TouchesAdd(points, p, c.y, false);
    assert !IsNone(c);
  }

  lemma CornersStayFit(r: Range, points: seq<Point>, p: Point)
    requires CornersFit(r, points) && AreInts(points + [p])
    ensures CornersFit(Range(MinOf(r.low, p), MaxOf(r.high, p)), points + [p])
  {
    var s := Range(MinOf(r.low, p), MaxOf(r.high, p));
    SomePointAdd(points, p);
    TouchesAdd(points, p, INT_MAX, true);
    TouchesAdd(points, p, INT_MAX, false);
    forall x ensures Touches(points, x, true) ==> Touches(points + [p], x, true)
      ensures Touches(points, x, false) ==> Touches(points + [p], x, false)
      ensures !IsNone(p) && p.x == x ==> Touches(points + [p], x, true)
      ensures !IsNone(p) && p.y == x ==> Touches(points + [p], x, false)
    {
      TouchesAdd(points, p, x, true);
      TouchesAdd(points, p, x, false);
    }
    assert forall q :: q in points ==> q in points + [p];
    if SomePoint(points) {
      LowStaysTight(r.low, points, p);
      if OneAxisFree(points + [p]) {
        HighStaysTight(r.high, points, p);
      }
      hide LowIsTight, HighIsTight, Touches;
    } else {
      assert LowIsTight(s.low, points + [p]) || IsNone(p);
      assert HighIsTight(s.high, points + [p]) || IsNone(p);
    }
  }

  lemma CornersOfOne(p: Point)
    ensures CornersFit(Range(p, p), [p])
  {
    assert p in [p];
    if !IsNone(p) {
      assert Touches([p], p.x, true) && Touches([p], p.y, false);
    }
  }

  lemma {:induction false} CornersOfTheBox(points: seq<Point>)
    requires points != [] && AreInts(points)
    ensures CornersFit(BoxOf(points).value, points)
  {
    var init, p := points[..|points| - 1], points[|points| - 1];
    assert points == init + [p] && p in points;
    BoxOfAdd(init, p);
    hide BoxOf, CornersFit;
    if init == [] {
      assert points == [p];
      CornersOfOne(p);
    } else {
      assert forall q :: q in init ==> q in points;
      CornersOfTheBox(init);
      CornersStayFit(BoxOf(init).value, init, p);
    }
  }

  lemma TightAtTheEnd(points: seq<Point>)
    requires SomePoint(points) && AreInts(points)
    ensures points != []
    ensures IsTight(BoxOf(points).value, points) <==> OneAxisFree(points) || IsNone(BoxOf(points).value.high)
  {
    CornersOfTheBox(points);
    hide BoxOf;
  }

  // ---- Exactly when the box is tight in whatever order the points come ----

  predicate IsOrderOf(q: seq<Point>, points: seq<Point>) {
    multiset(q) == multiset(points)
  }

  ghost predicate AlwaysTight(points: seq<Point>) {
    forall q :: IsOrderOf(q, points) ==> q != [] && IsTight(BoxOf(q).value, q)
  }

  function Real(points: seq<Point>): seq<Point> {
    Filter(points, p => !IsNone(p))
  }

  lemma RealAdd(points: seq<Point>, p: Point)
    ensures Real(points + [p]) == if IsNone(p) then Real(points) else Real(points) + [p]
  {
    FilterAppend(points, [p], (q: Point) => !IsNone(q));
    assert [p][1..] == [];
  }

  lemma RealMembers(points: seq<Point>)
    ensures forall p :: p in Real(points) <==> p in points && !IsNone(p)
  {
    FilterMembers(points, (q: Point) => !IsNone(q));
  }

  /** With two points at most the high corner is theirs, the maximum on both axes included. */
  lemma {:induction false} HighOfFew(points: seq<Point>)
    requires points != [] && |Real(points)| <= 2
    ensures var high, few := BoxOf(points).value.high, Real(points);
            high == if few == [] then Point(INT_MAX, INT_MAX) else if |few| == 1 then few[0] else MaxOf(few[0], few[1])
  {
    var init, p := points[..|points| - 1], points[|points| - 1];
    assert points == init + [p];
    BoxOfAdd(init, p);
    RealAdd(init, p);
    RealMembers(init);
    if init != [] {
      hide BoxOf, Real;
      HighOfFew(init);
      assert forall i :: 0 <= i < |Real(init)| ==> Real(init)[i] in Real(init);
    }
  }

  lemma FewAreTight(points: seq<Point>)
    requires SomePoint(points) && AreInts(points) && |Real(points)| <= 2
    ensures points != [] && IsTight(BoxOf(points).value, points)
  {
    TightAtTheEnd(points);
    HighOfFew(points);
    RealMembers(points);
    hide BoxOf, Real;
    var few, high := Real(points), BoxOf(points).value.high;
    assert forall i :: 0 <= i < |few| ==> few[i] in few;
    if !IsNone(high) {
      forall p | p in points && !IsNone(p) ensures p.x <= high.x && p.y <= high.y {
        assert p in few;
      }
    }
  }

  lemma SamePoints(q: seq<Point>, points: seq<Point>)
    requires IsOrderOf(q, points)
    ensures forall p :: p in q <==> p in points
    ensures OneAxisFree(q) <==> OneAxisFree(points)
    ensures |Real(q)| == |Real(points)|
  {
    forall p ensures p in q <==> p in points {
      assert p in multiset(q) <==> p in multiset(points);
    }
    var a, b := multiset(Real(q)), multiset(Real(points));
    forall p ensures a[p] == b[p] {
      FilterCount(q, (r: Point) => !IsNone(r), p);
      FilterCount(points, (r: Point) => !IsNone(r), p);
    }
    assert a == b;
    assert |a| == |Real(q)| && |b| == |Real(points)|;
  }

  lemma TakenOut(points: seq<Point>, p: Point) returns (rest: seq<Point>)
    requires p in points && !IsNone(p)
    ensures multiset(rest + [p]) == multiset(points) && |Real(rest)| == |Real(points)| - 1
    ensures forall r :: r in rest ==> r in points
  {
    var i :| 0 <= i < |points| && points[i] == p;
    rest := points[..i] + points[i + 1..];
    assert points == (points[..i] + [p]) + points[i + 1..];
    RealAdd(points[..i], p);
    FilterAppend(points[..i] + [p], points[i + 1..], (q: Point) => !IsNone(q));
    FilterAppend(points[..i], points[i + 1..], (q: Point) => !IsNone(q));
    hide Real;
  }

  /** The high corner after the points; none for no points at all. */
  function High(points: seq<Point>): Point {
    if points == [] then Point(INT_MAX, INT_MAX) else BoxOf(points).value.high
  }

  lemma HighAdd(points: seq<Point>, p: Point)
    ensures High(points + [p]) == MaxOf(High(points), p)
  {
    BoxOfAdd(points, p);
  }

  lemma {:induction false} HighIsBounded(points: seq<Point>)
    requires AreInts(points)
    ensures High(points).x <= INT_MAX && High(points).y <= INT_MAX
  {
    if points != [] {
      var init, p := points[..|points| - 1], points[|points| - 1];
      assert points == init + [p] && p in points;
      HighAdd(init, p);
      HighIsBounded(init);
    }
  }

  predicate OnlyYIsFull(high: Point) {
    high.x < INT_MAX && high.y == INT_MAX
  }

  /** A point on the maximum of either axis makes the high corner the maximum on both; the next point replaces it. */
  lemma ThreeMore(high: Point, p: Point, q: Point, r: Point)
    requires high.x <= INT_MAX && high.y <= INT_MAX
    requires p.x == INT_MAX && p.y < INT_MAX && q.x < INT_MAX && q.y == INT_MAX && !IsNone(r)
    ensures !OnlyYIsFull(high) ==> !IsNone(MaxOf(MaxOf(MaxOf(high, p), q), r))
    ensures OnlyYIsFull(high) ==> !IsNone(MaxOf(MaxOf(MaxOf(high, q), p), r))
  {
    assert !OnlyYIsFull(high) ==> MaxOf(MaxOf(high, p), q) == Point(INT_MAX, INT_MAX);
    assert OnlyYIsFull(high) ==> MaxOf(MaxOf(high, q), p) == Point(INT_MAX, INT_MAX);
  }

  lemma HighOfThreeMore(start: seq<Point>, p: Point, q: Point, r: Point)
    ensures High(start + [p] + [q] + [r]) == MaxOf(MaxOf(MaxOf(High(start), p), q), r)
  {
    hide High, MaxOf;
    HighAdd(start, p);
    HighAdd(start + [p], q);
    HighAdd(start + [p] + [q], r);
  }

  lemma Overwritten(start: seq<Point>, p: Point, q: Point, r: Point) returns (order: seq<Point>)
    requires AreInts(start) && p.x == INT_MAX && p.y < INT_MAX && q.x < INT_MAX && q.y == INT_MAX && !IsNone(r)
    ensures multiset(order) == multiset(start + [r] + [q] + [p]) && order != []
    ensures !IsNone(BoxOf(order).value.high)
  {
    hide MaxOf, BoxOf, AreInts;
    HighIsBounded(start);
    ThreeMore(High(start), p, q, r);
    if OnlyYIsFull(High(start)) {
      order := start + [q] + [p] + [r];
      HighOfThreeMore(start, q, p, r);
    } else {
      order := start + [p] + [q] + [r];
      HighOfThreeMore(start, p, q, r);
    }
  }

  /** Points on the maximum of both axes and a third one can come in an order that loses the high corner. */
  lemma SomeOrderIsNotTight(points: seq<Point>) returns (order: seq<Point>)
    requires AreInts(points) && !OneAxisFree(points) && |Real(points)| > 2
    ensures IsOrderOf(order, points) && order != [] && !IsTight(BoxOf(order).value, order)
  {
    var p :| p in points && !IsNone(p) && p.x == INT_MAX;
    var q :| q in points && !IsNone(q) && q.y == INT_MAX;
    var withoutP := TakenOut(points, p);
    assert q in multiset(withoutP + [p]) && q != p;
    var withoutQ := TakenOut(withoutP, q);
    RealMembers(withoutQ);
    var r := Real(withoutQ)[0];
    assert r in Real(withoutQ);
    var start := TakenOut(withoutQ, r);
    hide BoxOf, Real, IsTight, OneAxisFree;
    order := Overwritten(start, p, q, r);
    assert multiset(start + [r] + [q] + [p]) == multiset(points) by {
      assert multiset(start + [r] + [q] + [p]) == multiset(start + [r]) + multiset{q} + multiset{p};
      assert multiset(withoutQ + [q]) == multiset(withoutQ) + multiset{q};
      assert multiset(withoutP + [p]) == multiset(withoutP) + multiset{p};
    }
    SamePoints(order, points);
    assert p in order;
    TightAtTheEnd(order);
  }

  /** The box is tight in every order of the points if and only if they leave one axis below the maximum or are two
      at most. */
  lemma TightInEveryOrderIff(points: seq<Point>)
    requires SomePoint(points) && AreInts(points)
    ensures AlwaysTight(points) <==> OneAxisFree(points) || |Real(points)| <= 2
  {
    if OneAxisFree(points) || |Real(points)| <= 2 {
      forall q | IsOrderOf(q, points) ensures q != [] && IsTight(BoxOf(q).value, q) {
        SamePoints(q, points);
        var p :| p in points && !IsNone(p);
        assert p in q;
        hide BoxOf, Real, IsTight, OneAxisFree;
        if |Real(q)| <= 2 {
          FewAreTight(q);
        } else {
          TightAtTheEnd(q);
        }
      }
    } else {
      var order := SomeOrderIsNotTight(points);
    }
  }

  /** The high corner at the maximum on both axes is taken for none, and the next point replaces it. */
  lemma HighCornerIsLost()
    ensures var points := [Point(INT_MAX, 0), Point(0, INT_MAX), Point(0, 0)];
            && AreInts(points) && (forall p :: p in points ==> !IsNone(p))
            && BoxOf(points) == Some(Range(Point(0, 0), Point(0, 0))) && !IsTight(BoxOf(points).value, points)
  {
    var points := [Point(INT_MAX, 0), Point(0, INT_MAX), Point(0, 0)];
    assert points[..2] == [Point(INT_MAX, 0), Point(0, INT_MAX)] && points[..2][..1] == [Point(INT_MAX, 0)];
    assert BoxOf(points[..1]) == Some(Range(Point(INT_MAX, 0), Point(INT_MAX, 0)));
    assert BoxOf(points[..2]) == Some(Range(Point(0, 0), Point(INT_MAX, INT_MAX)));
    assert points[0] in points;
  }

  /** The range of the variables, given what each holds at the time asked for. */
  method RecalculateRange(values: seq<Value>) returns (r: Option<Range>)
    ensures r == BoxOf(PointsOf(values))
  {
    var low: Corner?, high: Corner? := null, null;
    for i := 0 to |values|
      invariant low == null <==> BoxOf(PointsOf(values[..i])) == None
      invariant (low == null <==> high == null) && (low != null ==> low != high && fresh(low) && fresh(high))
      invariant low != null ==> BoxOf(PointsOf(values[..i])) == Some(Range(low.View(), high.View()))
    {
      assert values[..i + 1] == values[..i] + [values[i]];
      PointsOfAdd(values[..i], values[i]);
      if values[i].PointValue? {
        var p := values[i].point;
        BoxOfAdd(PointsOf(values[..i]), p);
        if low == null {
          low := new Corner(p);
          high := new Corner(p);
        } else {
          low.Min(p);
          high.Max(p);
        }
      }
    }
    assert values[..|values|] == values;
    r := if low != null then Some(Range(low.View(), high.View())) else None;
  }

  // ---- What a range query loses ----

  /** The variables that hold a point in the range. */
  method RangeRead(range: Range, values: map<SsvId, Value>) returns (found: Values)
    ensures forall v :: v in found <==>
              && v in values && values[v].PointValue?
              && range.low.x <= values[v].point.x <= range.high.x && range.low.y <= values[v].point.y <= range.high.y
    ensures forall v :: v in found ==> found[v] == values[v].point
    ensures found == ReadIn(range, values)
  {
    found := map[];
    var todo: set<SsvId> := values.Keys;
    while todo != {}
      invariant todo <= values.Keys
      invariant found == map v: SsvId | v in values && v !in todo && values[v].PointValue? && range.Contains(values[v].point) :: values[v].point
      decreases todo
    {
      var v: SsvId :| v in todo;
      todo := todo - {v};
      if values[v].PointValue? && range.Contains(values[v].point) {
        found := found[v := values[v].point];
      }
    }
  }

  function ReadIn(range: Range, values: map<SsvId, Value>): Values {
    map v: SsvId | v in values && values[v].PointValue? && range.Contains(values[v].point) :: values[v].point
  }

  /** The list holds the values of the map in some order. */
  ghost predicate Lists(values: map<SsvId, Value>, list: seq<Value>) {
    (forall v :: v in values ==> values[v] in list) && (forall x :: x in list ==> exists v :: v in values && values[v] == x)
  }

  lemma {:induction false} PointsOfMembers(values: seq<Value>, p: Point)
    ensures p in PointsOf(values) <==> PointValue(p) in values
  {
    if values != [] {
      var init := values[..|values| - 1];
      PointsOfMembers(init, p);
      assert values == init + [values[|values| - 1]];
    }
  }

  /** A query turned away by the box of points that are two at most or leave an axis below the maximum finds nothing,
      unless the two cross. */
  lemma PrunedQueryFindsNothing(query: Range, values: map<SsvId, Value>, list: seq<Value>)
    requires query.IsBox() && Lists(values, list) && AreInts(PointsOf(list))
    requires OneAxisFree(PointsOf(list)) || |Real(PointsOf(list))| <= 2
    requires forall p :: p in PointsOf(list) ==> !IsNone(p)
    requires var box := BoxOf(PointsOf(list)); box == None || (!IsRangeOverlapping(box.value, query) && !Crosses(box.value, query))
    ensures ReadIn(query, values) == map[]
  {
    var points := PointsOf(list);
    forall v | v in values && values[v].PointValue? ensures !query.Contains(values[v].point) {
      var p := values[v].point;
      PointsOfMembers(list, p);
      assert p in points && !IsNone(p);
      if OneAxisFree(points) {
        TightAtTheEnd(points);
      } else {
        FewAreTight(points);
      }
      var box := BoxOf(points).value;
      assert box.Contains(p) && (query.Contains(p) ==> Meets(box, query));
      OverlapTestFailsIff(box, query);
      hide BoxOf, IsRangeOverlapping;
    }
  }

  /** The variables are points below the maximum, and the box is theirs. */
  ghost predicate HaveBox(values: map<SsvId, Value>, list: seq<Value>, box: Range) {
    && Lists(values, list) && BoxOf(PointsOf(list)) == Some(box)
    && forall p :: p in PointsOf(list) ==> p.x < INT_MAX && p.y < INT_MAX
  }

  ghost predicate LosesAPoint(box: Range, query: Range) {
    exists values: map<SsvId, Value>, list :: HaveBox(values, list, box) && ReadIn(query, values) != map[]
  }

  /** A box that turns a query away loses a point the query should find, for some variables with that box,
      exactly if the two cross. */
  lemma PruningLosesAPointIff(box: Range, query: Range)
    requires box.IsBox() && query.IsBox() && !IsRangeOverlapping(box, query)
    requires box.high.x < INT_MAX && box.high.y < INT_MAX
    ensures LosesAPoint(box, query) <==> Crosses(box, query)
  {
    if Crosses(box, query) {
      LosesTheCrossing(box, query);
    } else if LosesAPoint(box, query) {
      var values: map<SsvId, Value>, list :| HaveBox(values, list, box) && ReadIn(query, values) != map[];
      BelowMaximum(PointsOf(list));
      PrunedQueryFindsNothing(query, values, list);
    }
  }

  lemma BelowMaximum(points: seq<Point>)
    requires forall p :: p in points ==> p.x < INT_MAX && p.y < INT_MAX
    ensures AreInts(points) && OneAxisFree(points) && forall p :: p in points ==> !IsNone(p)
  {
  }

  lemma LosesTheCrossing(box: Range, query: Range)
    requires box.IsBox() && query.IsBox() && Crosses(box, query)
    requires box.high.x < INT_MAX && box.high.y < INT_MAX
    ensures LosesAPoint(box, query)
  {
    var p := if box.low.x < query.low.x then Point(query.low.x, box.low.y) else Point(box.low.x, query.low.y);
    assert box.Contains(p) && query.Contains(p);
    var list := [PointValue(box.low), PointValue(box.high), PointValue(p)];
    var values: map<SsvId, Value> := map[0 := list[0], 1 := list[1], 2 := list[2]];
    assert values[0] == list[0] && values[1] == list[1] && values[2] == list[2];
    BoxOfThree(box.low, box.high, p);
    hide BoxOf, PointsOf, Crosses;
    assert forall x :: x in list ==> x == list[0] || x == list[1] || x == list[2];
    assert 2 in ReadIn(query, values);
    assert HaveBox(values, list, box);
  }

  lemma BoxOfThree(low: Point, high: Point, p: Point)
    ensures PointsOf([PointValue(low), PointValue(high), PointValue(p)]) == [low, high, p]
    ensures BoxOf([low, high, p]) == Some(Range(MinOf(MinOf(low, high), p), MaxOf(MaxOf(low, high), p)))
  {
    PointsOfAdd([], PointValue(low));
    PointsOfAdd([PointValue(low)], PointValue(high));
    PointsOfAdd([PointValue(low), PointValue(high)], PointValue(p));
    BoxOfAdd([], low);
    BoxOfAdd([low], high);
    BoxOfAdd([low, high], p);
    hide PointsOf, BoxOf, MinOf, MaxOf;
    assert [] + [low] == [low] && [low] + [high] == [low, high] && [low, high] + [p] == [low, high, p];
    assert [] + [PointValue(low)] == [PointValue(low)] && [PointValue(low)] + [PointValue(high)] == [PointValue(low), PointValue(high)];
    assert [PointValue(low), PointValue(high)] + [PointValue(p)] == [PointValue(low), PointValue(high), PointValue(p)];
    assert PointsOf([]) == [] by {
      NoPoints();
    }
  }

  lemma NoPoints()
    ensures PointsOf([]) == []
  {
  }
}
