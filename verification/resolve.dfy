/** The coordinate resolver: raw coordinate pairs, each a fraction of the
    viewport, become absolute points. Each pair is scaled by the size and
    added to a running point, and the running point then becomes the
    result, so successive points chain. */
module Resolve {
  import opened Geometry

  /** One resolution step: `next` scaled by the size, plus `current`. */
  function Step(next: Point, current: Point, size: Size): Point {
    Add(Times(next, size.width, size.height), current)
  }

  /** The absolute points for `pts`, resolved from `start`. */
  function MakeAbsolute(pts: seq<Point>, start: Point, size: Size): (r: seq<Point>)
    ensures |r| == |pts|
    ensures |pts| > 0 ==> r[0] == Step(pts[0], start, size)
    ensures forall i :: 0 < i < |pts| ==> r[i] == Step(pts[i], r[i - 1], size)
    decreases |pts|
  {
    if |pts| == 0 then []
    else
      var first := Step(pts[0], start, size);
      [first] + MakeAbsolute(pts[1..], first, size)
  }

  /** The running point once every pair of `pts` has been resolved. */
  function End(pts: seq<Point>, start: Point, size: Size): Point {
    if |pts| == 0 then start else MakeAbsolute(pts, start, size)[|pts| - 1]
  }

  /** Reference definition: the sum of all scaled pairs. */
  function Offset(pts: seq<Point>, size: Size): Point
    decreases |pts|
  {
    if |pts| == 0 then Origin
    else Add(Offset(pts[..|pts| - 1], size),
             Times(pts[|pts| - 1], size.width, size.height))
  }

  /** Closed form of one resolved point: the start plus the scaled sum of
      the pairs up to and including that position. */
  lemma {:induction false} ClosedFormAt(pts: seq<Point>, start: Point, size: Size, i: nat)
    requires i < |pts|
    ensures MakeAbsolute(pts, start, size)[i] == Add(start, Offset(pts[..i + 1], size))
    decreases i
  {
    var r := MakeAbsolute(pts, start, size);
    if i == 0 {
      assert pts[..1][..0] == [];
    } else {
      ClosedFormAt(pts, start, size, i - 1);
      assert pts[..i + 1][..i] == pts[..i];
      assert r[i] == Step(pts[i], r[i - 1], size);
    }
  }

  /** Every resolved point agrees with the closed form. */
  lemma ClosedForm(pts: seq<Point>, start: Point, size: Size)
    ensures forall i :: 0 <= i < |pts| ==>
      MakeAbsolute(pts, start, size)[i] == Add(start, Offset(pts[..i + 1], size))
  {
    forall i | 0 <= i < |pts|
      ensures MakeAbsolute(pts, start, size)[i] == Add(start, Offset(pts[..i + 1], size))
    {
      ClosedFormAt(pts, start, size, i);
    }
  }

  /** A single zero pair resolves to the start point itself. */
  lemma ZeroPairIsStart(start: Point, size: Size)
    ensures MakeAbsolute([Origin], start, size) == [start]
  {
  }

  /** Resolving a concatenation from `start` resolves the first part from
      `start` and the second from the last point of the first part. */
  lemma {:induction false} MakeAbsoluteAppend(a: seq<Point>, b: seq<Point>, start: Point, size: Size)
    requires |a| > 0
    ensures MakeAbsolute(a + b, start, size)
         == MakeAbsolute(a, start, size) + MakeAbsolute(b, MakeAbsolute(a, start, size)[|a| - 1], size)
    decreases |a|
  {
    var first := Step(a[0], start, size);
    assert (a + b)[0] == a[0];
    assert (a + b)[1..] == a[1..] + b;
    if |a| == 1 {
      assert a[1..] + b == b;
    } else {
      MakeAbsoluteAppend(a[1..], b, first, size);
      assert MakeAbsolute(a, start, size)[|a| - 1] == MakeAbsolute(a[1..], first, size)[|a| - 2];
    }
  }

  /** The general chaining law, with `End` standing for the last point
      (the start itself when the first part is empty). */
  lemma MakeAbsoluteChains(a: seq<Point>, b: seq<Point>, start: Point, size: Size)
    ensures MakeAbsolute(a + b, start, size)
         == MakeAbsolute(a, start, size) + MakeAbsolute(b, End(a, start, size), size)
    ensures End(a + b, start, size) == End(b, End(a, start, size), size)
  {
    if |a| == 0 {
      assert a + b == b;
    } else {
      MakeAbsoluteAppend(a, b, start, size);
    }
  }

  /** The resolver as the source writes it: a map over the pairs whose
      closure updates a captured running point. */
  method ResolveWithRunningPoint(pts: seq<Point>, start: Point, size: Size) returns (r: seq<Point>)
    ensures r == MakeAbsolute(pts, start, size)
    ensures |r| == |pts|
    ensures forall i :: 0 <= i < |pts| ==>
      r[i] == Step(pts[i], if i == 0 then start else r[i - 1], size)
  {
    var current := start;
    r := [];
    var k := 0;
    while k < |pts|
      invariant 0 <= k <= |pts|
      invariant r == MakeAbsolute(pts[..k], start, size)
      invariant current == End(pts[..k], start, size)
    {
      var result := Step(pts[k], current, size);
      MakeAbsoluteChains(pts[..k], [pts[k]], start, size);
      assert pts[..k] + [pts[k]] == pts[..k + 1];
      current := result;
      r := r + [result];
      k := k + 1;
    }
    assert pts[..k] == pts;
  }
}
