/** The state carried from one drawing command to the next. */
module Context {
  import opened Geometry

  /** Either only the last anchor point is known, or the anchor together
      with the last control point. Both variants expose the anchor as
      `point`. */
  datatype PriorContext =
    | Last(point: Point)
    | LastAndControlPoint(point: Point, controlPoint: Point)
  {
    /** The anchor and the control point; with no recorded control point
        the control point coincides with the anchor. */
    function PointAndControlPoint(): (pc: (Point, Point))
      ensures pc.0 == point
      ensures Last? ==> pc.1 == point
      ensures LastAndControlPoint? ==> pc.1 == controlPoint
    {
      match this
      case Last(p) => (p, p)
      case LastAndControlPoint(p, c) => (p, c)
    }
  }

  /** The initial context: the anchor sits at the origin. */
  const Zero: PriorContext := Last(Origin)

  /** A point viewed as a context that records no control point. */
  function AsPriorContext(p: Point): (c: PriorContext)
    ensures c.Last?
    ensures c.point == p
    ensures c.PointAndControlPoint() == (p, p)
  {
    Last(p)
  }

  /** The control point reported by a context equals its anchor exactly
      when none is recorded or the recorded one coincides with it. */
  lemma ControlPointDefault(c: PriorContext)
    ensures c.PointAndControlPoint().0 == c.point
    ensures c.PointAndControlPoint().1 == c.point
            <==> (c.Last? || c.controlPoint == c.point)
  {
  }

  /** The initial context is anchored at the origin with no control point. */
  lemma ZeroIsOrigin()
    ensures Zero.Last? && Zero.point == Origin
    ensures Zero.PointAndControlPoint() == (Origin, Origin)
  {
  }
}
