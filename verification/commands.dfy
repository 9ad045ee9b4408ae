/** The command table: the closed set of path-data commands, their
    one-letter tokens, how many numbers each consumes per repetition, and
    which of them have a parser. */
module Commands {
  import opened Wrappers
  import opened Geometry
  import Context
  import Resolve
  import Segments

  datatype Command =
    | ClosePath
    | ClosePathAbsolute
    | Move
    | MoveAbsolute
    | Line
    | Vertical
    | VerticalAbsolute
    | Horizontal
    | HorizontalAbsolute
    | Curve
    | CurveAbsolute
    | SmoothCurve
    | SmoothCurveAbsolute
    | Quadratic
    | QuadraticAbsolute
    | ReflectedQuadratic
    | ReflectedQuadraticAbsolute
    | Arc
    | ArcAbsolute

  /** The command's token. */
  function RawValue(c: Command): string {
    match c
    case ClosePath => "z"
    case ClosePathAbsolute => "Z"
    case Move => "m"
    case MoveAbsolute => "M"
    case Line => "l"
    case Vertical => "v"
    case VerticalAbsolute => "V"
    case Horizontal => "h"
    case HorizontalAbsolute => "H"
    case Curve => "c"
    case CurveAbsolute => "C"
    case SmoothCurve => "s"
    case SmoothCurveAbsolute => "S"
    case Quadratic => "q"
    case QuadraticAbsolute => "Q"
    case ReflectedQuadratic => "t"
    case ReflectedQuadraticAbsolute => "T"
    case Arc => "a"
    case ArcAbsolute => "A"
  }

  /** The command whose token is `s`, if any. */
  function FromRawValue(s: string): (r: Option<Command>)
    ensures r.Some? ==> RawValue(r.value) == s
  {
    if s == "z" then Some(ClosePath)
    else if s == "Z" then Some(ClosePathAbsolute)
    else if s == "m" then Some(Move)
    else if s == "M" then Some(MoveAbsolute)
    else if s == "l" then Some(Line)
    else if s == "v" then Some(Vertical)
    else if s == "V" then Some(VerticalAbsolute)
    else if s == "h" then Some(Horizontal)
    else if s == "H" then Some(HorizontalAbsolute)
    else if s == "c" then Some(Curve)
    else if s == "C" then Some(CurveAbsolute)
    else if s == "s" then Some(SmoothCurve)
    else if s == "S" then Some(SmoothCurveAbsolute)
    else if s == "q" then Some(Quadratic)
    else if s == "Q" then Some(QuadraticAbsolute)
    else if s == "t" then Some(ReflectedQuadratic)
    else if s == "T" then Some(ReflectedQuadraticAbsolute)
    else if s == "a" then Some(Arc)
    else if s == "A" then Some(ArcAbsolute)
    else None
  }

  /** Every token names its command, so tokens are pairwise distinct; and
      there is no upper-case line token. */
  lemma RawValueRoundTrip(c: Command)
    ensures FromRawValue(RawValue(c)) == Some(c)
    ensures forall d :: RawValue(d) == RawValue(c) ==> d == c
    ensures |RawValue(c)| == 1
    ensures RawValue(c) != "L"
  {
    forall d | RawValue(d) == RawValue(c) ensures d == c {
      assert FromRawValue(RawValue(d)) == Some(d);
    }
  }

  /** Numbers consumed by one repetition of the command. */
  function Consumed(c: Command): (n: nat)
    ensures n <= 7
    ensures n == 0 <==> c == ClosePath || c == ClosePathAbsolute
  {
    match c
    case ClosePathAbsolute | ClosePath => 0
    case Move | Line | MoveAbsolute => 2
    case Horizontal | HorizontalAbsolute | Vertical | VerticalAbsolute => 1
    case Curve | CurveAbsolute => 6
    case ReflectedQuadratic | ReflectedQuadraticAbsolute | Quadratic | QuadraticAbsolute => 4
    case Arc | ArcAbsolute => 7
    case SmoothCurve | SmoothCurveAbsolute => 2
  }

  /** The arity, command by command, grouped as the relative and absolute
      forms share it. */
  lemma ConsumedTable(c: Command)
    ensures c == ClosePath || c == ClosePathAbsolute ==> Consumed(c) == 0
    ensures c == Move || c == MoveAbsolute || c == Line || c == SmoothCurve || c == SmoothCurveAbsolute
            ==> Consumed(c) == 2
    ensures c == Horizontal || c == HorizontalAbsolute || c == Vertical || c == VerticalAbsolute
            ==> Consumed(c) == 1
    ensures c == Curve || c == CurveAbsolute ==> Consumed(c) == 6
    ensures c == Quadratic || c == QuadraticAbsolute || c == ReflectedQuadratic || c == ReflectedQuadraticAbsolute
            ==> Consumed(c) == 4
    ensures c == Arc || c == ArcAbsolute ==> Consumed(c) == 7
  {
  }

  /** The six parsers that exist. */
  datatype ParserKind =
    | CurveParser
    | AbsoluteCurveParser
    | MoveAbsoluteParser
    | LineParser
    | ClosePathParser
    | ClosePathAbsoluteParser
  {
    /** The token the parser matches. The absolute curve parser is
        registered under the relative curve's token. */
    function Token(): string {
      match this
      case CurveParser => RawValue(Curve)
      case AbsoluteCurveParser => RawValue(Curve)
      case MoveAbsoluteParser => RawValue(MoveAbsolute)
      case LineParser => RawValue(Line)
      case ClosePathParser => RawValue(ClosePath)
      case ClosePathAbsoluteParser => RawValue(ClosePathAbsolute)
    }

    /** The segments this parser's builder creates: each parser builds
        exactly one kind of segment. */
    predicate Creates(seg: Segments.Segment) {
      match this
      case CurveParser => seg.Curve?
      case AbsoluteCurveParser => seg.AbsoluteCurve?
      case MoveAbsoluteParser => seg.MoveAbsolute?
      case LineParser => seg.Line?
      case ClosePathParser => seg.ClosePath?
      case ClosePathAbsoluteParser => seg.ClosePathAbsolute?
    }

    /** Coordinate pairs in one repetition of the parsed arguments. */
    function PairsPerRepetition(): nat {
      match this
      case CurveParser | AbsoluteCurveParser => 3
      case MoveAbsoluteParser | LineParser => 1
      case ClosePathParser | ClosePathAbsoluteParser => 0
    }
  }

  /** The parser of a command; absent for the commands not implemented. */
  function ParserOf(c: Command): (r: Option<ParserKind>)
    ensures r.Some? <==> c in {Curve, CurveAbsolute, MoveAbsolute, Line, ClosePath, ClosePathAbsolute}
    ensures r.None? <==> c in {Move, Vertical, VerticalAbsolute, Horizontal, HorizontalAbsolute,
                               SmoothCurve, SmoothCurveAbsolute, Quadratic, QuadraticAbsolute,
                               ReflectedQuadratic, ReflectedQuadraticAbsolute, Arc, ArcAbsolute}
  {
    match c
    case Curve => Some(CurveParser)
    case CurveAbsolute => Some(AbsoluteCurveParser)
    case MoveAbsolute => Some(MoveAbsoluteParser)
    case Line => Some(LineParser)
    case ClosePath => Some(ClosePathParser)
    case ClosePathAbsolute => Some(ClosePathAbsoluteParser)
    case _ => None
  }

  /** Each parser reads as many numbers per repetition as the table says
      its command consumes, and matches its command's own token, except
      the absolute curve parser, which matches "c". */
  lemma ParserAgreesWithTable(c: Command)
    requires ParserOf(c).Some?
    ensures 2 * ParserOf(c).value.PairsPerRepetition() == Consumed(c)
    ensures ParserOf(c).value.Token() == RawValue(c) <==> c != CurveAbsolute
    ensures c == CurveAbsolute ==> ParserOf(c).value.Token() == "c"
  {
  }

  /** What each command's parser draws once its segment is applied: the
      relative curve resolves every group from the prior anchor, the
      absolute curve (matched by "c") from the origin, the absolute move goes
      to the scaled prior anchor, the line chains from the prior anchor, and
      both closes append one close and keep the context. */
  lemma ParsersDrawTheirCommands(c: Command, seg: Segments.Segment, prior: Context.PriorContext, size: Size)
    requires ParserOf(c).Some? && ParserOf(c).value.Creates(seg) && seg.WellFormed()
    ensures c == Curve ==> (seg.Curve? && forall i :: 0 <= i < |seg.groups| ==>
      Segments.Apply(seg, prior, size).ops[i] == Segments.GroupCurve(seg.groups[i], prior.point, size))
    ensures c == CurveAbsolute ==> (ParserOf(c).value.Token() == "c" && seg.AbsoluteCurve?
      && forall i :: 0 <= i < |seg.groups| ==>
           Segments.Apply(seg, prior, size).ops[i] == Segments.GroupCurve(seg.groups[i], Origin, size))
    ensures c == MoveAbsolute ==>
      Segments.Apply(seg, prior, size).ops == [Segments.MoveTo(Times(prior.point, size.width, size.height))]
    ensures c == Line ==> (seg.Line? && |Segments.Apply(seg, prior, size).ops| == |seg.points|
      && forall i :: 0 <= i < |seg.points| ==>
           Segments.Apply(seg, prior, size).ops[i]
           == Segments.LineTo(Resolve.MakeAbsolute(seg.points, prior.point, size)[i]))
    ensures c == ClosePath || c == ClosePathAbsolute ==>
      Segments.Apply(seg, prior, size) == Segments.Emitted([Segments.Close], prior)
  {
  }

  /** Every command, in the order the source lists them. */
  const All: seq<Command> := [
    Move, MoveAbsolute, Line, Vertical, VerticalAbsolute,
    Horizontal, HorizontalAbsolute, Curve, CurveAbsolute,
    SmoothCurve, SmoothCurveAbsolute, Quadratic, QuadraticAbsolute,
    ReflectedQuadratic, ReflectedQuadraticAbsolute, Arc, ArcAbsolute,
    ClosePath, ClosePathAbsolute
  ]

  /** The position of a command in `All`. */
  function IndexInAll(c: Command): (i: nat)
    ensures i < |All| && All[i] == c
  {
    match c
    case Move => 0
    case MoveAbsolute => 1
    case Line => 2
    case Vertical => 3
    case VerticalAbsolute => 4
    case Horizontal => 5
    case HorizontalAbsolute => 6
    case Curve => 7
    case CurveAbsolute => 8
    case SmoothCurve => 9
    case SmoothCurveAbsolute => 10
    case Quadratic => 11
    case QuadraticAbsolute => 12
    case ReflectedQuadratic => 13
    case ReflectedQuadraticAbsolute => 14
    case Arc => 15
    case ArcAbsolute => 16
    case ClosePath => 17
    case ClosePathAbsolute => 18
  }

  /** `All` lists every command exactly once. */
  lemma AllListsEachOnce()
    ensures |All| == 19
    ensures forall c: Command :: c in All
    ensures forall i, j :: 0 <= i < j < |All| ==> All[i] != All[j]
  {
    forall c: Command ensures c in All {
      assert All[IndexInAll(c)] == c;
    }
    forall i, j | 0 <= i < j < |All| ensures All[i] != All[j] {
      assert IndexInAll(All[i]) == i;
    }
  }
}
