/** The segment builders: each turns already-parsed arguments, the prior
    context and the viewport size into the path operations it appends and
    the context handed to the next command. The mutable path object is
    replaced by the trace of operations appended to it. */
module Segments {
  import opened Geometry
  import opened Context
  import opened Resolve

  /** The four operations a builder performs on the path. */
  datatype SinkOp =
    | MoveTo(to: Point)
    | LineTo(to: Point)
    | CurveTo(control1: Point, control2: Point, end: Point)
    | Close

  /** What one builder produces: the appended operations, in order, and the
      new prior context. */
  datatype Emitted = Emitted(ops: seq<SinkOp>, next: PriorContext)

  /** The argument shape of both curve commands: groups of exactly three
      coordinate pairs (control 1, control 2, end). */
  predicate CurveGroups(groups: seq<seq<Point>>) {
    forall i :: 0 <= i < |groups| ==> |groups[i]| == 3
  }

  /** The curve drawn for one group: its three pairs resolved in a chain
      from `base`, so the second control point is relative to the first and
      the end point relative to the second. */
  function GroupCurve(group: seq<Point>, base: Point, size: Size): (op: SinkOp)
    requires |group| == 3
    ensures op.CurveTo?
    ensures op.control1 == Step(group[0], base, size)
    ensures op.control2 == Step(group[1], op.control1, size)
    ensures op.end == Step(group[2], op.control2, size)
  {
    var pts := MakeAbsolute(group, base, size);
    CurveTo(pts[0], pts[1], pts[2])
  }

  /** The fold over curve groups. The accumulated context is never read:
      every group is resolved from the same `base`, and the accumulator only
      survives when there are no groups at all. */
  function CurveReduce(groups: seq<seq<Point>>, base: Point, size: Size, acc: PriorContext): (e: Emitted)
    requires CurveGroups(groups)
    ensures |e.ops| == |groups|
    ensures forall i :: 0 <= i < |groups| ==> e.ops[i] == GroupCurve(groups[i], base, size)
    ensures |groups| == 0 ==> e.next == acc
    ensures |groups| > 0 ==> e.next == Last(GroupCurve(groups[|groups| - 1], base, size).end)
    decreases |groups|
  {
    if |groups| == 0 then Emitted([], acc)
    else
      var op := GroupCurve(groups[0], base, size);
      var rest := CurveReduce(groups[1..], base, size, AsPriorContext(op.end));
      Emitted([op] + rest.ops, rest.next)
  }

  /** Relative cubic curve: every group resolved from the prior anchor. */
  function DrawCurve(groups: seq<seq<Point>>, prior: PriorContext, size: Size): (e: Emitted)
    requires CurveGroups(groups)
    ensures |e.ops| == |groups|
    ensures forall i :: 0 <= i < |groups| ==> e.ops[i] == GroupCurve(groups[i], prior.point, size)
    ensures e.next.Last?
    ensures |groups| == 0 ==> e.next == Zero
    ensures |groups| > 0 ==> e.next.point == GroupCurve(groups[|groups| - 1], prior.point, size).end
  {
    CurveReduce(groups, prior.point, size, Zero)
  }

  /** Absolute cubic curve: every group resolved from the origin. */
  function DrawAbsoluteCurve(groups: seq<seq<Point>>, prior: PriorContext, size: Size): (e: Emitted)
    requires CurveGroups(groups)
    ensures |e.ops| == |groups|
    ensures forall i :: 0 <= i < |groups| ==> e.ops[i] == GroupCurve(groups[i], Origin, size)
    ensures e.next.Last?
    ensures |groups| == 0 ==> e.next == Zero
    ensures |groups| > 0 ==> e.next.point == GroupCurve(groups[|groups| - 1], Origin, size).end
  {
    CurveReduce(groups, Origin, size, Zero)
  }

  /** Absolute move. The parsed pair is shadowed by the prior context, so
      the move goes to the prior anchor scaled by the size. */
  function DrawMoveAbsolute(pair: Point, prior: PriorContext, size: Size): (e: Emitted)
    ensures e.ops == [MoveTo(Point(prior.point.x * size.width, prior.point.y * size.height))]
    ensures e.next == Last(e.ops[0].to)
  {
    var point := Times(prior.point, size.width, size.height);
    assert point == Point(prior.point.x * size.width, prior.point.y * size.height);
    Emitted([MoveTo(point)], AsPriorContext(point))
  }

  /** The fold over already-resolved line points: one line per point, and
      the context of the last point (the accumulator when there is none). */
  function LineReduce(resolved: seq<Point>, acc: PriorContext): (e: Emitted)
    ensures |e.ops| == |resolved|
    ensures forall i :: 0 <= i < |resolved| ==> e.ops[i] == LineTo(resolved[i])
    ensures |resolved| == 0 ==> e.next == acc
    ensures |resolved| > 0 ==> e.next == Last(resolved[|resolved| - 1])
    decreases |resolved|
  {
    if |resolved| == 0 then Emitted([], acc)
    else
      var rest := LineReduce(resolved[1..], AsPriorContext(resolved[0]));
      Emitted([LineTo(resolved[0])] + rest.ops, rest.next)
  }

  /** Relative line: the pairs resolved in a chain from the prior anchor,
      one line to each resolved point. */
  function DrawLine(points: seq<Point>, prior: PriorContext, size: Size): (e: Emitted)
    ensures |e.ops| == |points|
    ensures forall i :: 0 <= i < |points| ==> e.ops[i].LineTo?
    ensures |points| > 0 ==> e.ops[0].to == Step(points[0], prior.point, size)
    ensures forall i :: 0 < i < |points| ==> e.ops[i].to == Step(points[i], e.ops[i - 1].to, size)
    ensures |points| == 0 ==> e.next == Last(Origin)
    ensures |points| > 0 ==> e.next == Last(e.ops[|points| - 1].to)
  {
    LineReduce(MakeAbsolute(points, prior.point, size), AsPriorContext(Origin))
  }

  /** Close path (either case of the token): one close, context unchanged. */
  function DrawClosePath(prior: PriorContext, size: Size): (e: Emitted)
    ensures e.ops == [Close]
    ensures e.next == prior
  {
    Emitted([Close], prior)
  }

  /** A parsed command with its arguments: the function value the parser
      hands back, before it is applied to a context, a path and a size. */
  datatype Segment =
    | Curve(groups: seq<seq<Point>>)
    | AbsoluteCurve(groups: seq<seq<Point>>)
    | MoveAbsolute(pair: Point)
    | Line(points: seq<Point>)
    | ClosePath
    | ClosePathAbsolute
  {
    /** The argument shapes the parsers guarantee. */
    predicate WellFormed() {
      (Curve? || AbsoluteCurve?) ==> CurveGroups(groups)
    }
  }

  /** Applies a parsed segment. Only closing can hand on a recorded control
      point, and only by passing the prior context through unchanged. */
  function Apply(seg: Segment, prior: PriorContext, size: Size): (e: Emitted)
    requires seg.WellFormed()
    ensures (seg.ClosePath? || seg.ClosePathAbsolute?) ==> e.ops == [Close] && e.next == prior
    ensures !(seg.ClosePath? || seg.ClosePathAbsolute?) ==> e.next.Last?
    ensures (seg.Curve? || seg.AbsoluteCurve?) ==> |e.ops| == |seg.groups|
    ensures (seg.Curve? || seg.AbsoluteCurve?) && |seg.groups| == 0 ==> e.next == Zero
    ensures seg.Curve? ==> forall i :: 0 <= i < |seg.groups| ==>
      e.ops[i] == GroupCurve(seg.groups[i], prior.point, size)
    ensures seg.Curve? && |seg.groups| > 0 ==>
      e.next.point == GroupCurve(seg.groups[|seg.groups| - 1], prior.point, size).end
    ensures seg.AbsoluteCurve? ==> forall i :: 0 <= i < |seg.groups| ==>
      e.ops[i] == GroupCurve(seg.groups[i], Origin, size)
    ensures seg.AbsoluteCurve? && |seg.groups| > 0 ==>
      e.next.point == GroupCurve(seg.groups[|seg.groups| - 1], Origin, size).end
    ensures seg.MoveAbsolute? ==>
      e.ops == [MoveTo(Times(prior.point, size.width, size.height))]
      && e.next == Last(Times(prior.point, size.width, size.height))
    ensures seg.Line? ==> |e.ops| == |seg.points|
    ensures seg.Line? ==> forall i :: 0 <= i < |seg.points| ==>
      e.ops[i] == LineTo(MakeAbsolute(seg.points, prior.point, size)[i])
    ensures seg.Line? && |seg.points| == 0 ==> e.next == Last(Origin)
    ensures seg.Line? && |seg.points| > 0 ==>
      e.next == Last(End(seg.points, prior.point, size))
  {
    match seg
    case Curve(groups) => DrawCurve(groups, prior, size)
    case AbsoluteCurve(groups) => DrawAbsoluteCurve(groups, prior, size)
    case MoveAbsolute(pair) => DrawMoveAbsolute(pair, prior, size)
    case Line(points) => DrawLine(points, prior, size)
    case ClosePath => DrawClosePath(prior, size)
    case ClosePathAbsolute => DrawClosePath(prior, size)
  }

  /** The curve fold over a concatenation is the fold over each part,
      both from the same base. */
  lemma CurveReduceAppend(g1: seq<seq<Point>>, g2: seq<seq<Point>>, base: Point, size: Size, acc: PriorContext)
    requires CurveGroups(g1) && CurveGroups(g2)
    ensures CurveGroups(g1 + g2)
    ensures CurveReduce(g1 + g2, base, size, acc).ops
         == CurveReduce(g1, base, size, acc).ops + CurveReduce(g2, base, size, acc).ops
  {
  }

  /** The accumulator of the curve fold only matters for an empty fold. */
  lemma CurveReduceIgnoresAcc(groups: seq<seq<Point>>, base: Point, size: Size, acc1: PriorContext, acc2: PriorContext)
    requires CurveGroups(groups)
    ensures CurveReduce(groups, base, size, acc1).ops == CurveReduce(groups, base, size, acc2).ops
    ensures |groups| > 0 ==> CurveReduce(groups, base, size, acc1) == CurveReduce(groups, base, size, acc2)
  {
  }

  /** Repeated curve groups do not chain: drawing two runs of groups in one
      command draws each run as if it were a command of its own from the
      same prior context. */
  lemma CurveRepetitionsRestart(g1: seq<seq<Point>>, g2: seq<seq<Point>>, prior: PriorContext, size: Size)
    requires CurveGroups(g1) && CurveGroups(g2)
    ensures CurveGroups(g1 + g2)
    ensures DrawCurve(g1 + g2, prior, size).ops == DrawCurve(g1, prior, size).ops + DrawCurve(g2, prior, size).ops
    ensures DrawAbsoluteCurve(g1 + g2, prior, size).ops
         == DrawAbsoluteCurve(g1, prior, size).ops + DrawAbsoluteCurve(g2, prior, size).ops
  {
    CurveReduceAppend(g1, g2, prior.point, size, Zero);
    CurveReduceAppend(g1, g2, Origin, size, Zero);
  }

  /** Lines do chain: a line command over two runs of pairs draws the first
      run and then the second from where the first ended. */
  lemma LineChains(a: seq<Point>, b: seq<Point>, prior: PriorContext, size: Size)
    requires |a| > 0
    ensures DrawLine(a + b, prior, size).ops
         == DrawLine(a, prior, size).ops + DrawLine(b, DrawLine(a, prior, size).next, size).ops
  {
    var ra := MakeAbsolute(a, prior.point, size);
    MakeAbsoluteAppend(a, b, prior.point, size);
    var lab := DrawLine(a + b, prior, size).ops;
    var la := DrawLine(a, prior, size).ops;
    var lb := DrawLine(b, DrawLine(a, prior, size).next, size).ops;
    assert DrawLine(a, prior, size).next.point == ra[|a| - 1];
    var rb := MakeAbsolute(b, ra[|a| - 1], size);
    assert |lab| == |la + lb|;
    forall i | 0 <= i < |lab| ensures lab[i] == (la + lb)[i] {
      if i < |a| {
        assert lab[i] == LineTo((ra + rb)[i]);
      } else {
        assert lab[i] == LineTo((ra + rb)[i]);
        assert lb[i - |a|] == LineTo(rb[i - |a|]);
      }
    }
  }

  /** The absolute curve ignores the prior context entirely, and coincides
      with the relative curve drawn from a context anchored at the origin. */
  lemma AbsoluteCurveIgnoresPrior(groups: seq<seq<Point>>, prior: PriorContext, size: Size)
    requires CurveGroups(groups)
    ensures DrawAbsoluteCurve(groups, prior, size) == DrawAbsoluteCurve(groups, Zero, size)
    ensures DrawAbsoluteCurve(groups, prior, size) == DrawCurve(groups, Zero, size)
  {
  }

  /** The parsed pair of an absolute move has no effect on what is drawn. */
  lemma MoveAbsoluteIgnoresPair(p1: Point, p2: Point, prior: PriorContext, size: Size)
    ensures DrawMoveAbsolute(p1, prior, size) == DrawMoveAbsolute(p2, prior, size)
  {
  }

  /** "c 0.1,0 0.2,0.1 0.2,0.2" from the origin in a 100 by 100 viewport:
      the second control point and the end chain from the first control
      point, and no control point is recorded afterwards. */
  lemma CurveExample()
    ensures DrawCurve([[Point(0.1, 0.0), Point(0.2, 0.1), Point(0.2, 0.2)]], Zero, Size(100.0, 100.0))
         == Emitted([CurveTo(Point(10.0, 0.0), Point(30.0, 10.0), Point(50.0, 30.0))], Last(Point(50.0, 30.0)))
  {
    var e := DrawCurve([[Point(0.1, 0.0), Point(0.2, 0.1), Point(0.2, 0.2)]], Zero, Size(100.0, 100.0));
    assert e.ops[0] == GroupCurve([Point(0.1, 0.0), Point(0.2, 0.1), Point(0.2, 0.2)], Origin, Size(100.0, 100.0));
  }

  /** "l 0.1,0 0,0.1" from (10, 10) in a 100 by 100 viewport. */
  lemma LineExample()
    ensures DrawLine([Point(0.1, 0.0), Point(0.0, 0.1)], Last(Point(10.0, 10.0)), Size(100.0, 100.0))
         == Emitted([LineTo(Point(20.0, 10.0)), LineTo(Point(20.0, 20.0))], Last(Point(20.0, 20.0)))
  {
    var e := DrawLine([Point(0.1, 0.0), Point(0.0, 0.1)], Last(Point(10.0, 10.0)), Size(100.0, 100.0));
    assert e.ops[0].to == Point(20.0, 10.0);
    assert e.ops[1].to == Point(20.0, 20.0);
  }

  /** "M 0.5,0.5" from the initial context in a 100 by 100 viewport moves
      to the origin, not to (50, 50). */
  lemma MoveAbsoluteExample()
    ensures DrawMoveAbsolute(Point(0.5, 0.5), Zero, Size(100.0, 100.0))
         == Emitted([MoveTo(Origin)], Last(Origin))
  {
  }
}
