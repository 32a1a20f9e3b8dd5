/**
 * `findTouchedShape` (src/App.tsx:48-55): keep the shapes the pointer hits,
 * then reduce them to the one with the largest `index`, the later one
 * winning among equal indices.
 */
module Picking {
  import opened Wrappers
  import opened Shapes

  /** The filter's predicate: a body hit, or also a resize-handle hit when asked for. */
  predicate Touched(s: Shape, p: Point, withResizePoint: bool, hits: HitTests)
  {
    hits.isTouchedIn(s, p) || (withResizePoint && hits.isTouchedResizePoint(s, p))
  }

  /** The `filter` step, in collection order. */
  function Candidates(shapes: seq<Shape>, p: Point, withResizePoint: bool, hits: HitTests): (r: seq<Shape>)
    ensures forall s :: s in r <==> s in shapes && Touched(s, p, withResizePoint, hits)
  {
    if shapes == [] then []
    else
      var init := Candidates(shapes[..|shapes| - 1], p, withResizePoint, hits);
      var last := shapes[|shapes| - 1];
      assert shapes == shapes[..|shapes| - 1] + [last];
      if Touched(last, p, withResizePoint, hits) then init + [last] else init
  }

  /** The reducer: keep the accumulated shape unless the next one's index is at least as large. */
  function KeepTopmost(touched: Option<Shape>, box: Shape): Option<Shape>
  {
    match touched
    case None => Some(box)
    case Some(t) => if t.index <= box.index then Some(box) else Some(t)
  }

  /** The `reduce` step, a left fold of `KeepTopmost` starting from `undefined`. */
  function Topmost(candidates: seq<Shape>): (r: Option<Shape>)
    ensures r.None? <==> candidates == []
    ensures r.Some? ==> r.value in candidates
    ensures r.Some? ==> forall c :: c in candidates ==> c.index <= r.value.index
  {
    if candidates == [] then None
    else
      var init := candidates[..|candidates| - 1];
      assert candidates == init + [candidates[|candidates| - 1]];
      KeepTopmost(Topmost(init), candidates[|candidates| - 1])
  }

  function FindTouchedShape(shapes: seq<Shape>, p: Point, withResizePoint: bool, hits: HitTests): (r: Option<Shape>)
    ensures r.None? <==> forall s :: s in shapes ==> !Touched(s, p, withResizePoint, hits)
    ensures r.Some? ==> r.value in shapes && Touched(r.value, p, withResizePoint, hits)
    ensures r.Some? ==> forall s :: s in shapes && Touched(s, p, withResizePoint, hits) ==> s.index <= r.value.index
  {
    Topmost(Candidates(shapes, p, withResizePoint, hits))
  }

  /**
   * Position `k` holds the shape the picking policy must return: it is hit,
   * no hit shape has a larger index, and every hit shape after it has a
   * strictly smaller one (so it is the last of the hit shapes of maximal index).
   */
  ghost predicate IsTopmostAt(shapes: seq<Shape>, p: Point, withResizePoint: bool, hits: HitTests, k: int)
  {
    && 0 <= k < |shapes|
    && Touched(shapes[k], p, withResizePoint, hits)
    && (forall j :: 0 <= j < k && Touched(shapes[j], p, withResizePoint, hits) ==> shapes[j].index <= shapes[k].index)
    && (forall j :: k < j < |shapes| && Touched(shapes[j], p, withResizePoint, hits) ==> shapes[j].index < shapes[k].index)
  }

  /** Filtering a longer collection appends the new last shape exactly when it is hit. */
  lemma CandidatesSnoc(init: seq<Shape>, last: Shape, p: Point, withResizePoint: bool, hits: HitTests)
    ensures Candidates(init + [last], p, withResizePoint, hits)
         == if Touched(last, p, withResizePoint, hits)
            then Candidates(init, p, withResizePoint, hits) + [last]
            else Candidates(init, p, withResizePoint, hits)
  {
  }

  /** Reducing a longer candidate list applies the reducer once more. */
  lemma TopmostSnoc(init: seq<Shape>, last: Shape)
    ensures Topmost(init + [last]) == KeepTopmost(Topmost(init), last)
  {
  }

  /** A topmost position stays topmost when a shape that does not beat it is appended. */
  lemma TopmostAtExtend(init: seq<Shape>, last: Shape, p: Point, withResizePoint: bool, hits: HitTests, k: int)
    requires IsTopmostAt(init, p, withResizePoint, hits, k)
    requires Touched(last, p, withResizePoint, hits) ==> last.index < init[k].index
    ensures IsTopmostAt(init + [last], p, withResizePoint, hits, k)
  {
  }

  /** An appended hit shape whose index is at least every earlier hit's is topmost. */
  lemma TopmostAtLast(init: seq<Shape>, last: Shape, p: Point, withResizePoint: bool, hits: HitTests)
    requires Touched(last, p, withResizePoint, hits)
    requires forall s :: s in init && Touched(s, p, withResizePoint, hits) ==> s.index <= last.index
    ensures IsTopmostAt(init + [last], p, withResizePoint, hits, |init|)
  {
    var shapes := init + [last];
    forall j | 0 <= j < |init| && Touched(shapes[j], p, withResizePoint, hits)
      ensures shapes[j].index <= last.index
    {
      assert shapes[j] == init[j] && init[j] in init;
    }
  }

  /** The returned shape sits at a position satisfying `IsTopmostAt`: the tie-break is "last wins". */
  lemma {:induction false} FindTouchedShapeIsLastTopmost(shapes: seq<Shape>, p: Point, withResizePoint: bool, hits: HitTests)
    ensures FindTouchedShape(shapes, p, withResizePoint, hits).Some? ==>
      exists k :: IsTopmostAt(shapes, p, withResizePoint, hits, k)
                  && shapes[k] == FindTouchedShape(shapes, p, withResizePoint, hits).value
  {
    if shapes != [] {
      var n := |shapes|;
      var init, last := shapes[..n - 1], shapes[n - 1];
      assert shapes == init + [last];
      var before := FindTouchedShape(init, p, withResizePoint, hits);
      var r := FindTouchedShape(shapes, p, withResizePoint, hits);
      FindTouchedShapeIsLastTopmost(init, p, withResizePoint, hits);
      CandidatesSnoc(init, last, p, withResizePoint, hits);
      var touched := Touched(last, p, withResizePoint, hits);
      if touched {
        TopmostSnoc(Candidates(init, p, withResizePoint, hits), last);
      }
      assert r == if touched then KeepTopmost(before, last) else before;
      if touched && (before.None? || before.value.index <= last.index) {
        TopmostAtLast(init, last, p, withResizePoint, hits);
        assert shapes[n - 1] == r.value;
      } else if r.Some? {
        var k :| IsTopmostAt(init, p, withResizePoint, hits, k) && init[k] == before.value;
        TopmostAtExtend(init, last, p, withResizePoint, hits, k);
        assert shapes[k] == r.value;
      }
    }
  }

  /** `IsTopmostAt` singles out at most one position. */
  lemma TopmostPositionUnique(shapes: seq<Shape>, p: Point, withResizePoint: bool, hits: HitTests, k1: int, k2: int)
    requires IsTopmostAt(shapes, p, withResizePoint, hits, k1)
    requires IsTopmostAt(shapes, p, withResizePoint, hits, k2)
    ensures k1 == k2
  {
  }

  /** Conversely, whatever position satisfies `IsTopmostAt` is the one returned. */
  lemma FindTouchedShapeAt(shapes: seq<Shape>, p: Point, withResizePoint: bool, hits: HitTests, k: int)
    requires IsTopmostAt(shapes, p, withResizePoint, hits, k)
    ensures FindTouchedShape(shapes, p, withResizePoint, hits) == Some(shapes[k])
  {
    assert shapes[k] in shapes;
    FindTouchedShapeIsLastTopmost(shapes, p, withResizePoint, hits);
    var k' :| IsTopmostAt(shapes, p, withResizePoint, hits, k')
              && shapes[k'] == FindTouchedShape(shapes, p, withResizePoint, hits).value;
    TopmostPositionUnique(shapes, p, withResizePoint, hits, k, k');
  }

  /** Two overlapping shapes with indices 1 and 2: index 2 wins in either collection order. */
  lemma HigherIndexWins(a: Shape, b: Shape, p: Point, withResizePoint: bool, hits: HitTests)
    requires Touched(a, p, withResizePoint, hits) && Touched(b, p, withResizePoint, hits)
    requires a.index == 1 && b.index == 2
    ensures FindTouchedShape([a, b], p, withResizePoint, hits) == Some(b)
    ensures FindTouchedShape([b, a], p, withResizePoint, hits) == Some(b)
  {
    FindTouchedShapeAt([a, b], p, withResizePoint, hits, 1);
    FindTouchedShapeAt([b, a], p, withResizePoint, hits, 0);
  }

  /** Two overlapping shapes with equal indices: the later one in collection order wins. */
  lemma EqualIndexLaterWins(a: Shape, b: Shape, p: Point, withResizePoint: bool, hits: HitTests)
    requires Touched(a, p, withResizePoint, hits) && Touched(b, p, withResizePoint, hits)
    requires a.index == b.index
    ensures FindTouchedShape([a, b], p, withResizePoint, hits) == Some(b)
  {
    FindTouchedShapeAt([a, b], p, withResizePoint, hits, 1);
  }

  /** A body-only pick is also a candidate of the resize-aware pick; with no resize hits the two agree. */
  lemma BodyPickWithoutResizeHits(shapes: seq<Shape>, p: Point, hits: HitTests)
    requires forall s :: s in shapes ==> !hits.isTouchedResizePoint(s, p)
    ensures FindTouchedShape(shapes, p, true, hits) == FindTouchedShape(shapes, p, false, hits)
  {
    var r := FindTouchedShape(shapes, p, false, hits);
    FindTouchedShapeIsLastTopmost(shapes, p, false, hits);
    FindTouchedShapeIsLastTopmost(shapes, p, true, hits);
    if r.Some? {
      var k :| IsTopmostAt(shapes, p, false, hits, k) && shapes[k] == r.value;
      forall j | 0 <= j < |shapes|
        ensures Touched(shapes[j], p, true, hits) == Touched(shapes[j], p, false, hits)
      {
        assert shapes[j] in shapes;
      }
      assert IsTopmostAt(shapes, p, true, hits, k);
      FindTouchedShapeAt(shapes, p, true, hits, k);
    }
  }
}
