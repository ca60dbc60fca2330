/**
 * The drawing page of the whiteboard: a list of strokes built up by three
 * pointer handlers, plus the per-stroke render style.
 *
 * Each handler is a pure transition on an immutable `Board`. The page's
 * React state (`lines`, `isDrawing`, `tool`, `color`, `lineWidth`) is the
 * board; handlers are applied one at a time.
 */
module Whiteboard {
  import opened Wrappers

  /** A pointer position on the stage. No arithmetic is done on coordinates. */
  datatype Point = Point(x: int, y: int)

  /**
   * One stroke. `points` is the flat coordinate list `[x0, y0, x1, y1, ...]`.
   * `tool` is the free string the page stores ('pen' or 'eraser' from the buttons).
   */
  datatype Stroke = Stroke(tool: string, color: string, lineWidth: int, points: seq<int>)

  /** The page state: the strokes, the drawing flag and the current settings. */
  datatype Board = Board(lines: seq<Stroke>, isDrawing: bool, tool: string, color: string, lineWidth: int)

  /** What a handler throws: reading `.points` of the missing last line. */
  datatype Fault = NoLastLine

  const PenTool: string := "pen"
  const EraserTool: string := "eraser"
  const InitialColor: string := "#000000"
  const InitialWidth: int := 5

  /** The board when the page mounts. */
  const Initial: Board := Board([], false, PenTool, InitialColor, InitialWidth)

  /** A flat point list holds whole (x, y) pairs, at least one of them. */
  predicate WellFormed(s: Stroke) {
    |s.points| >= 2 && |s.points| % 2 == 0
  }

  /** The invariant every handler keeps. */
  predicate Valid(b: Board) {
    && (b.isDrawing ==> |b.lines| > 0)
    && forall i :: 0 <= i < |b.lines| ==> WellFormed(b.lines[i])
  }

  /** `s` with `coords` added to the end of its point list; nothing else of `s` changes. */
  function Extended(s: Stroke, coords: seq<int>): Stroke {
    s.(points := s.points + coords)
  }

  /** Two boards carry the same tool, colour and width settings. */
  predicate SameSettings(a: Board, b: Board) {
    a.tool == b.tool && a.color == b.color && a.lineWidth == b.lineWidth
  }

  /**
   * Mouse-down: start drawing and append a fresh stroke made from the current
   * settings whose points are exactly the pointer position. It is not guarded
   * by `isDrawing`: a press while drawing still appends a new stroke.
   */
  function MouseDown(b: Board, p: Point): (r: Board)
    ensures r.isDrawing
    ensures SameSettings(r, b)
    ensures |r.lines| == |b.lines| + 1
    ensures r.lines[..|b.lines|] == b.lines
    ensures r.lines[|b.lines|] == Stroke(b.tool, b.color, b.lineWidth, [p.x, p.y])
    ensures Valid(b) ==> Valid(r)
  {
    b.(isDrawing := true, lines := b.lines + [Stroke(b.tool, b.color, b.lineWidth, [p.x, p.y])])
  }

  /**
   * Mouse-move: ignored unless drawing; otherwise the pointer position is
   * added to the end of the last stroke. With no last stroke the page
   * reads a property of `undefined` and throws, which is `Err(NoLastLine)`.
   */
  function MouseMove(b: Board, p: Point): (r: Result<Board, Fault>)
    ensures r.Err? <==> b.isDrawing && |b.lines| == 0
    ensures !b.isDrawing ==> r == Ok(b)
    ensures r.Ok? ==> r.value.isDrawing == b.isDrawing && SameSettings(r.value, b)
    ensures r.Ok? ==> |r.value.lines| == |b.lines|
    ensures r.Ok? ==> forall i :: 0 <= i < |b.lines| - 1 ==> r.value.lines[i] == b.lines[i]
    ensures r.Ok? && b.isDrawing ==>
      var last := b.lines[|b.lines| - 1];
      var last' := r.value.lines[|b.lines| - 1];
      && last'.points == last.points + [p.x, p.y]
      && last'.tool == last.tool && last'.color == last.color && last'.lineWidth == last.lineWidth
    ensures Valid(b) ==> r.Ok? && Valid(r.value)
  {
    if !b.isDrawing then Ok(b)
    else if |b.lines| == 0 then Err(NoLastLine)
    else
      var n := |b.lines|;
      Ok(b.(lines := b.lines[..n - 1] + [Extended(b.lines[n - 1], [p.x, p.y])]))
  }

  /** Mouse-up: stop drawing; the strokes stay as they are. */
  function MouseUp(b: Board): (r: Board)
    ensures !r.isDrawing
    ensures r.lines == b.lines && SameSettings(r, b)
    ensures Valid(b) ==> Valid(r)
  {
    b.(isDrawing := false)
  }

  /** Pen / Eraser buttons, colour picker and width slider: they change a setting only. */
  function PickTool(b: Board, tool: string): (r: Board)
    ensures r.tool == tool && r.color == b.color && r.lineWidth == b.lineWidth
    ensures r.lines == b.lines && r.isDrawing == b.isDrawing
  {
    b.(tool := tool)
  }

  function PickColor(b: Board, color: string): (r: Board)
    ensures r.color == color && r.tool == b.tool && r.lineWidth == b.lineWidth
    ensures r.lines == b.lines && r.isDrawing == b.isDrawing
  {
    b.(color := color)
  }

  function PickWidth(b: Board, width: int): (r: Board)
    ensures r.lineWidth == width && r.tool == b.tool && r.color == b.color
    ensures r.lines == b.lines && r.isDrawing == b.isDrawing
  {
    b.(lineWidth := width)
  }

  /** Every input the page reacts to. */
  datatype Event =
    | Down(at: Point)
    | Move(at: Point)
    | Up
    | ChooseTool(tool: string)
    | ChooseColor(color: string)
    | ChooseWidth(width: int)

  /** Apply one event. */
  function Step(b: Board, e: Event): (r: Result<Board, Fault>)
    ensures Valid(b) ==> r.Ok? && Valid(r.value)
    ensures r.Ok? ==> |b.lines| <= |r.value.lines| <= |b.lines| + 1
  {
    match e
    case Down(p) => Ok(MouseDown(b, p))
    case Move(p) => MouseMove(b, p)
    case Up => Ok(MouseUp(b))
    case ChooseTool(t) => Ok(PickTool(b, t))
    case ChooseColor(c) => Ok(PickColor(b, c))
    case ChooseWidth(w) => Ok(PickWidth(b, w))
  }

  /**
   * Apply the events in order. Stopping at the first fault is a modelling
   * choice: in the page a throwing handler leaves the state as it was and
   * later events are still handled. `RunPreservesValid` shows no fault occurs
   * from a valid board, so the difference never arises.
   */
  function Run(b: Board, es: seq<Event>): Result<Board, Fault>
    decreases |es|
  {
    if es == [] then Ok(b)
    else
      match Run(b, es[..|es| - 1])
      case Ok(b') => Step(b', es[|es| - 1])
      case Err(f) => Err(f)
  }

  /** The invariant holds after any run that starts from a valid board, and no handler faults. */
  lemma {:induction false} RunPreservesValid(b: Board, es: seq<Event>)
    requires Valid(b)
    ensures Run(b, es).Ok? && Valid(Run(b, es).value)
    decreases |es|
  {
    if es != [] {
      RunPreservesValid(b, es[..|es| - 1]);
    }
  }

  /**
   * A press while already drawing leaves the stroke in progress intact, and
   * a following move extends only the new stroke.
   */
  lemma DownWhileDrawingAbandonsStroke(b: Board, p: Point, q: Point)
    requires Valid(b) && b.isDrawing
    ensures var n := |b.lines|;
      var b1 := MouseDown(b, p);
      var b2 := MouseMove(b1, q);
      && b2.Ok?
      && b2.value.lines[..n] == b.lines
      && b2.value.lines[n].points == [p.x, p.y, q.x, q.y]
  {
  }

  /**
   * Changing a setting in the middle of a stroke does not restyle it: the
   * next move still extends it with the tool, colour and width it began with.
   */
  lemma SettingsChangeKeepsStrokeStyle(b: Board, e: Event, q: Point)
    requires Valid(b) && b.isDrawing
    requires e.ChooseTool? || e.ChooseColor? || e.ChooseWidth?
    ensures Step(b, e).Ok?
    ensures var b2 := MouseMove(Step(b, e).value, q);
      var n := |b.lines|;
      && b2.Ok?
      && b2.value.lines[n - 1] == Extended(b.lines[n - 1], [q.x, q.y])
  {
  }

  /** The composite operations the stage uses. */
  datatype Composite = SourceOver | DestinationOut {
    function Name(): string {
      match this
      case SourceOver => "source-over"
      case DestinationOut => "destination-out"
    }
  }

  /** The attributes a stroke is rendered with. */
  datatype LineStyle = LineStyle(points: seq<int>, stroke: string, strokeWidth: int, composite: Composite)

  const EraserColor: string := "white"

  /** The render style of one stroke: an eraser paints white and cuts out; any other tool paints its colour over. */
  function Style(s: Stroke): (r: LineStyle)
    ensures r.points == s.points && r.strokeWidth == s.lineWidth
    ensures r.composite == DestinationOut <==> s.tool == EraserTool
    ensures r.composite.Name() == "destination-out" <==> s.tool == EraserTool
    ensures r.composite.Name() == "source-over" <==> s.tool != EraserTool
    ensures s.tool == EraserTool ==> r.stroke == EraserColor
    ensures s.tool != EraserTool ==> r.stroke == s.color
  {
    if s.tool == EraserTool then LineStyle(s.points, EraserColor, s.lineWidth, DestinationOut)
    else LineStyle(s.points, s.color, s.lineWidth, SourceOver)
  }

  /** The layer: one styled line per stroke, in stroke order. */
  function Render(lines: seq<Stroke>): (r: seq<LineStyle>)
    ensures |r| == |lines|
    ensures forall i :: 0 <= i < |lines| ==> r[i] == Style(lines[i])
  {
    seq(|lines|, i requires 0 <= i < |lines| => Style(lines[i]))
  }

  /** An eraser stroke's look does not depend on its colour. */
  lemma EraserIgnoresColor(s: Stroke, c: string)
    requires s.tool == EraserTool
    ensures Style(s.(color := c)) == Style(s)
  {
  }

  /** Any tool string other than 'eraser' renders exactly like the pen. */
  lemma UnknownToolRendersAsPen(s: Stroke)
    requires s.tool != EraserTool
    ensures Style(s) == Style(s.(tool := PenTool))
  {
  }

  /** A move redraws only the last line of the layer. */
  lemma MoveRestylesOnlyLastLine(b: Board, p: Point)
    requires Valid(b) && b.isDrawing
    ensures var r := MouseMove(b, p).value;
      var n := |b.lines|;
      && Render(r.lines)[..n - 1] == Render(b.lines)[..n - 1]
      && Render(r.lines)[n - 1] == Style(b.lines[n - 1]).(points := b.lines[n - 1].points + [p.x, p.y])
  {
  }
}
