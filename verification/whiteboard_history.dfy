/**
 * A description of the drawing page in terms of the events it has seen,
 * independent of the handler code: which strokes were begun, by which
 * presses and with which settings, and which moves each stroke absorbed.
 * `RunMatchesHistory` proves that the handlers build exactly this.
 */
module WhiteboardHistory {
  import opened Whiteboard

  /** All events but the last. */
  function Before(es: seq<Event>): seq<Event>
    requires |es| > 0
  {
    es[..|es| - 1]
  }

  /** The most recent event. */
  function Last(es: seq<Event>): Event
    requires |es| > 0
  {
    es[|es| - 1]
  }

  /** The number of presses in the history. */
  function CountDowns(es: seq<Event>): nat
    decreases |es|
  {
    if es == [] then 0
    else CountDowns(Before(es)) + (if Last(es).Down? then 1 else 0)
  }

  /** The tool most recently chosen, or the pen. */
  function ToolAfter(es: seq<Event>): string
    decreases |es|
  {
    if es == [] then PenTool
    else if Last(es).ChooseTool? then Last(es).tool
    else ToolAfter(Before(es))
  }

  /** The colour most recently chosen, or black. */
  function ColorAfter(es: seq<Event>): string
    decreases |es|
  {
    if es == [] then InitialColor
    else if Last(es).ChooseColor? then Last(es).color
    else ColorAfter(Before(es))
  }

  /** The width most recently chosen, or 5. */
  function WidthAfter(es: seq<Event>): int
    decreases |es|
  {
    if es == [] then InitialWidth
    else if Last(es).ChooseWidth? then Last(es).width
    else WidthAfter(Before(es))
  }

  /** Drawing is on when the most recent press or release was a press. */
  predicate DrawingAfter(es: seq<Event>)
    decreases |es|
  {
    if es == [] then false
    else if Last(es).Down? then true
    else if Last(es).Up? then false
    else DrawingAfter(Before(es))
  }

  /** One stroke per press, as it was begun: the settings at that moment and the pressed point. */
  function Begun(es: seq<Event>): (r: seq<Stroke>)
    ensures |r| == CountDowns(es)
    decreases |es|
  {
    if es == [] then []
    else
      var pre := Before(es);
      match Last(es)
      case Down(p) => Begun(pre) + [Stroke(ToolAfter(pre), ColorAfter(pre), WidthAfter(pre), [p.x, p.y])]
      case _ => Begun(pre)
  }

  /**
   * Whether the last event is a move that lands on stroke `i`: drawing was
   * on and stroke `i` was the most recent one.
   */
  predicate MovesStroke(es: seq<Event>, i: nat)
    requires |es| > 0
  {
    Last(es).Move? && DrawingAfter(Before(es)) && CountDowns(Before(es)) == i + 1
  }

  /** The flat coordinates of the moves that landed on stroke `i`, in order. */
  function Trail(es: seq<Event>, i: nat): seq<int>
    decreases |es|
  {
    if es == [] then []
    else Trail(Before(es), i) + (if MovesStroke(es, i) then [Last(es).at.x, Last(es).at.y] else [])
  }

  /** The number of moves that landed on stroke `i`. */
  function MovesOn(es: seq<Event>, i: nat): nat
    decreases |es|
  {
    if es == [] then 0
    else MovesOn(Before(es), i) + (if MovesStroke(es, i) then 1 else 0)
  }

  /** Stroke `i` as the history says it should look now. */
  function Expected(es: seq<Event>, i: nat): Stroke
    requires i < CountDowns(es)
  {
    Extended(Begun(es)[i], Trail(es, i))
  }

  /** The board the history describes. */
  predicate Describes(b: Board, es: seq<Event>) {
    && b.isDrawing == DrawingAfter(es)
    && b.tool == ToolAfter(es) && b.color == ColorAfter(es) && b.lineWidth == WidthAfter(es)
    && |b.lines| == CountDowns(es)
    && forall i :: 0 <= i < |b.lines| ==> b.lines[i] == Expected(es, i)
  }

  /** A stroke not yet begun has absorbed no moves. */
  lemma {:induction false} TrailEmptyBeyond(es: seq<Event>, i: nat)
    requires i >= CountDowns(es)
    ensures Trail(es, i) == []
    decreases |es|
  {
    if es != [] {
      TrailEmptyBeyond(Before(es), i);
    }
  }

  /** The trail of a stroke holds two coordinates per move it absorbed. */
  lemma {:induction false} TrailLength(es: seq<Event>, i: nat)
    ensures |Trail(es, i)| == 2 * MovesOn(es, i)
    decreases |es|
  {
    if es != [] {
      TrailLength(Before(es), i);
    }
  }

  /** A press begins a stroke from the current settings and extends no trail. */
  lemma StepDownMatches(b: Board, es: seq<Event>, p: Point)
    requires Describes(b, es)
    ensures Describes(MouseDown(b, p), es + [Down(p)])
  {
    var es' := es + [Down(p)];
    assert Before(es') == es;
    var r := MouseDown(b, p);
    var n := |b.lines|;
    forall i | 0 <= i < |r.lines|
      ensures r.lines[i] == Expected(es', i)
    {
      assert Trail(es', i) == Trail(es, i);
      if i == n {
        TrailEmptyBeyond(es, i);
      }
    }
  }

  /** A move extends the trail of the last stroke exactly when drawing is on. */
  lemma StepMoveMatches(b: Board, es: seq<Event>, p: Point)
    requires Valid(b) && Describes(b, es)
    ensures MouseMove(b, p).Ok? && Describes(MouseMove(b, p).value, es + [Move(p)])
  {
    var es' := es + [Move(p)];
    assert Before(es') == es;
    var r := MouseMove(b, p).value;
    var n := |b.lines|;
    forall i | 0 <= i < |r.lines|
      ensures r.lines[i] == Expected(es', i)
    {
      if b.isDrawing && i == n - 1 {
        assert Trail(es', i) == Trail(es, i) + [p.x, p.y];
      } else {
        assert Trail(es', i) == Trail(es, i);
      }
    }
  }

  /** A release or a settings change leaves every stroke and its trail alone. */
  lemma StepOtherMatches(b: Board, es: seq<Event>, e: Event)
    requires !e.Down? && !e.Move?
    requires Describes(b, es)
    ensures Step(b, e).Ok? && Describes(Step(b, e).value, es + [e])
  {
  }

  /** One event keeps the description in step with the handlers. */
  lemma StepMatchesHistory(b: Board, es: seq<Event>, e: Event)
    requires Valid(b) && Describes(b, es)
    ensures Step(b, e).Ok? && Describes(Step(b, e).value, es + [e])
  {
    match e
    case Down(p) => StepDownMatches(b, es, p);
    case Move(p) => StepMoveMatches(b, es, p);
    case _ => StepOtherMatches(b, es, e);
  }

  /**
   * From the initial board, the handlers never fault and produce exactly the
   * board the history describes: one stroke per press, each carrying the
   * settings current at its press and the pressed point followed by the
   * moves it absorbed.
   */
  lemma {:induction false} RunMatchesHistory(es: seq<Event>)
    ensures Run(Initial, es).Ok?
    ensures Valid(Run(Initial, es).value) && Describes(Run(Initial, es).value, es)
    decreases |es|
  {
    if es != [] {
      var pre := Before(es);
      RunMatchesHistory(pre);
      StepMatchesHistory(Run(Initial, pre).value, pre, Last(es));
      assert pre + [Last(es)] == es;
    }
  }

  /**
   * The stroke count is the number of presses, and a stroke's point list has
   * length 2 + 2 * (moves applied while it was last and drawing was on).
   */
  lemma CountsFromHistory(es: seq<Event>)
    ensures Run(Initial, es).Ok?
    ensures var b := Run(Initial, es).value;
      && |b.lines| == CountDowns(es)
      && forall i :: 0 <= i < |b.lines| ==> |b.lines[i].points| == 2 + 2 * MovesOn(es, i)
  {
    RunMatchesHistory(es);
    var b := Run(Initial, es).value;
    forall i | 0 <= i < |b.lines|
      ensures |b.lines[i].points| == 2 + 2 * MovesOn(es, i)
    {
      TrailLength(es, i);
    }
  }
}
