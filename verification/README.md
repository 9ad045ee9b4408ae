# Path-data interpreter model

A Dafny model of the interpreter core of Cyborg's path-data mini-language, the
`d` attribute grammar of section 8.3 of SVG 1.1 ("Path data"). It covers what
happens after parsing:

- the prior context threaded from one command to the next (`Context`);
- the coordinate resolver `makeAbsolute` (`Resolve`);
- the six segment builders that exist (`Segments`);
- the command table of tokens, arities, parser presence and the list of all
  commands (`Commands`).

Coordinates are exact `real`s (`Geometry`). The mutable path object is
replaced by the trace of operations appended to it: `MoveTo`, `LineTo`,
`CurveTo(control1, control2, end)` and `Close`. Each builder is then a pure
function returning that trace and the next prior context (`Emitted`).

The model follows the code wherever the code and the SVG path semantics
differ:

- Within one curve group the three pairs chain through the resolver. So the
  second control point is relative to the first, and the end point is
  relative to the second (`GroupCurve`, `CurveExample`).
- Every repetition of a curve restarts from the same base, because the fold
  never reads its accumulator (`CurveRepetitionsRestart`).
- Lines, by contrast, chain across their pairs (`LineChains`).
- Curves hand on `Last(end)` and never record a control point. Only closing
  can pass a recorded control point on, and only unchanged (`Apply`).
- The absolute curve resolves every group from the origin and ignores the
  prior context (`AbsoluteCurveIgnoresPrior`).
- Its parser matches the token `c`, not `C` (`ParserAgreesWithTable`).
- The absolute move ignores its parsed pair, because the closure parameter
  shadows it. It moves to the prior anchor scaled by the size
  (`MoveAbsoluteIgnoresPair`, `MoveAbsoluteExample`).
- A curve command with no groups returns the initial context. A line with no
  pairs returns a context at the origin. The parsers never produce either
  input, but the builders define them, so the model does too.

## Model

| member | source | states |
|---|---|---|
| Context.PriorContext.PointAndControlPoint | Cyborg/DrawingCommand.swift:22-29 | the first component is the anchor; with no recorded control point the control point is the anchor itself, otherwise the recorded one |
| Context.ControlPointDefault | Cyborg/DrawingCommand.swift:11-29 | `point` is the anchor for both variants, and the reported control point equals the anchor exactly when none is recorded or the recorded one coincides |
| Context.ZeroIsOrigin | Cyborg/DrawingCommand.swift:31 | the initial context is `Last` of the origin, so its anchor and its control point are both the origin |
| Context.AsPriorContext | Cyborg/DrawingCommand.swift:37-39 | a point becomes a context anchored there, with no control point recorded |
| Resolve.MakeAbsolute | Cyborg/DrawingCommand.swift:321-342 | the output has the input's length; the first point is the start plus the first pair scaled by the size; every later point is the previous output plus its scaled pair |
| Resolve.ClosedFormAt | Cyborg/DrawingCommand.swift:333-342 | a single resolved point, at position `i`, equals the start plus the scaled sum of the pairs up to and including position `i`; proved by induction on `i` |
| Resolve.ClosedForm | Cyborg/DrawingCommand.swift:333-342 | each resolved point equals the start plus the sum of all scaled pairs up to and including it, which is an independent reference definition |
| Resolve.ZeroPairIsStart | Cyborg/DrawingCommand.swift:333-342 | a single zero pair resolves to exactly the start point |
| Resolve.MakeAbsoluteAppend | Cyborg/DrawingCommand.swift:334-340 | for a nonempty first part, resolving `a + b` equals resolving `a`, followed by resolving `b` from the last point of `a` |
| Resolve.MakeAbsoluteChains | Cyborg/DrawingCommand.swift:334-340 | the same chaining law for any first part, with the start taking the place of the last point when `a` is empty; the final running point also chains |
| Resolve.ResolveWithRunningPoint | Cyborg/DrawingCommand.swift:333-342 | the loop with a running point returns the functional resolver's result and meets its recurrence |
| Segments.GroupCurve | Cyborg/DrawingCommand.swift:70-74 | one group draws a curve: control 1 is the base plus the first scaled pair, control 2 is control 1 plus the second, and the end is control 2 plus the third |
| Segments.CurveReduce | Cyborg/DrawingCommand.swift:69-76 | one curve per group, in order, each resolved from the same base; the result is `Last` of the final group's end, and the accumulator survives only when there are no groups |
| Segments.CurveReduceIgnoresAcc | Cyborg/DrawingCommand.swift:69 | the fold's accumulator never affects the drawn curves, nor the result once there is at least one group |
| Segments.CurveReduceAppend | Cyborg/DrawingCommand.swift:69-76 | folding over concatenated groups draws the curves of each part, both from the same base |
| Segments.DrawCurve | Cyborg/DrawingCommand.swift:63-79 | relative curve: one `CurveTo` per group from the prior anchor; the next context records no control point and is the initial context when there are no groups |
| Segments.DrawAbsoluteCurve | Cyborg/DrawingCommand.swift:81-97 | absolute curve: one `CurveTo` per group, resolved from the origin; the next context records no control point |
| Segments.CurveRepetitionsRestart | Cyborg/DrawingCommand.swift:63-97 | repetitions do not chain: a curve over `g1 + g2` draws what separate curves over `g1` and `g2` from the same prior context draw |
| Segments.AbsoluteCurveIgnoresPrior | Cyborg/DrawingCommand.swift:86-88 | the absolute curve is the same for every prior context, and equals the relative curve drawn from the initial context |
| Segments.DrawMoveAbsolute | Cyborg/DrawingCommand.swift:99-109 | exactly one move, to the prior anchor scaled component-wise by the size; the next context is `Last` of that point |
| Segments.MoveAbsoluteIgnoresPair | Cyborg/DrawingCommand.swift:102-104 | the parsed pair does not affect the absolute move's output |
| Segments.LineReduce | Cyborg/DrawingCommand.swift:117-120 | one `LineTo` per resolved point, in order; the result is `Last` of the final point, or the initial accumulator when there are none |
| Segments.DrawLine | Cyborg/DrawingCommand.swift:111-123 | one line per pair; the first goes to the prior anchor plus the scaled pair, each later one to the previous line's end plus its scaled pair; the result is `Last` of the last end, or the origin for no pairs |
| Segments.LineChains | Cyborg/DrawingCommand.swift:111-123 | a line over `a + b` draws the line over `a`, then the line over `b` from the context the first part hands on |
| Segments.DrawClosePath | Cyborg/DrawingCommand.swift:125-145 | closing appends exactly one `Close` and returns the prior context unchanged |
| Segments.Apply | Cyborg/DrawingCommand.swift:63-145 | a parsed segment runs its own builder: a relative curve draws each group from the prior anchor, an absolute curve from the origin, an absolute move goes to the scaled prior anchor, a line draws to each point resolved from the prior anchor, and closing appends one `Close` and passes the context through; every non-closing segment hands on a context with no control point |
| Segments.CurveExample | Cyborg/DrawingCommand.swift:63-79 | `c 0.1,0 0.2,0.1 0.2,0.2` from the origin in a 100 by 100 viewport draws a curve with control points (10,0) and (30,10), ending at (50,30), and hands on `Last((50,30))` |
| Segments.LineExample | Cyborg/DrawingCommand.swift:111-123 | `l 0.1,0 0,0.1` from (10,10) in a 100 by 100 viewport draws lines to (20,10) and then (20,20), ending in `Last((20,20))` |
| Segments.MoveAbsoluteExample | Cyborg/DrawingCommand.swift:99-109 | `M 0.5,0.5` from the initial context moves to the origin |
| Commands.FromRawValue | Cyborg/DrawingCommand.swift:148-168 | a token that is recognised names a command whose token it is |
| Commands.RawValueRoundTrip | Cyborg/DrawingCommand.swift:148-168 | each command's one-letter token maps back to that command; tokens are pairwise distinct; no command has the token `L` |
| Commands.Consumed | Cyborg/DrawingCommand.swift:170-180 | the arity is total, at most 7, and zero exactly for the two close commands |
| Commands.ConsumedTable | Cyborg/DrawingCommand.swift:170-180 | the arity is 0 for z/Z; 2 for m/M/l/s/S; 1 for h/H/v/V; 6 for c/C; 4 for q/Q/t/T; 7 for a/A |
| Commands.ParserOf | Cyborg/DrawingCommand.swift:283-294 | a parser exists exactly for the relative and absolute curve, the absolute move, the line and both close commands; it is absent for the other thirteen |
| Commands.ParserAgreesWithTable | Cyborg/DrawingCommand.swift:82 | each parser reads twice as many numbers per repetition as it has pairs, which is the command's arity; it matches its command's token except for the absolute curve, which matches `c` |
| Commands.ParsersDrawTheirCommands | Cyborg/DrawingCommand.swift:283-290 | the parser registered for `c` creates segments whose groups resolve from the prior anchor; the one registered for `C` matches `c` and creates segments whose groups resolve from the origin; `M` moves to the scaled prior anchor, `l` draws to the resolved points, and `z`/`Z` close and keep the context |
| Commands.IndexInAll | Cyborg/DrawingCommand.swift:296-316 | every command has a position in `All` that holds it |
| Commands.AllListsEachOnce | Cyborg/DrawingCommand.swift:296-316 | `All` has 19 entries, contains every command, and lists none twice |

## Left out

- The parser-combinator substrate is not part of this model: literal matching, trivia skipping, repetition, coordinate-pair parsing and result chaining (`consumeTrivia(before:)`, `parseCommand`, lines 45-61). Builders take arguments that are already parsed. The exactly-three-pairs shape of a curve group that the parser guarantees is the `CurveGroups` precondition. Parse failure is therefore not modelled.
- The mutable path object from CoreGraphics is replaced by the returned trace of operations. The order of the calls on the path is the order of the trace.
- Floating-point behaviour of the coordinate type (rounding, overflow, NaN) is not modelled. Arithmetic is exact over `real`.
- The commented-out `createSegment` (lines 182-281) is dead code and has no counterpart in the model.
- The thirteen commands without a parser (m, h, H, v, V, s, S, q, Q, t, T, a, A) are modelled only by their token, arity and absent parser. They have no drawing behaviour.
- Folding a whole sequence of parsed segments over one path lives outside this file. Only single-segment application (`Apply`) is modelled.
