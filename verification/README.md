# Real-time whiteboard: a Dafny model of its client-side logic

The whiteboard is a React application. A signed-in user enters a username and
a room on the entry page and is sent to a drawing page. There, pressing,
moving and releasing the mouse builds strokes that are drawn on a canvas. The
logic that can be modelled sits in three pure pieces inside its components:

- **Drawing page** (`Whiteboard`, `WhiteboardHistory`). The state is the
  sequence of strokes (`lines`), the `isDrawing` flag and the current tool,
  colour and width. Each stroke is `{tool, color, lineWidth, points}`, where
  `points` is a flat list `[x0, y0, x1, y1, ...]`. Mouse-down, mouse-move and
  mouse-up are total transitions on an immutable `Board`. The tool, colour and
  width controls are transitions as well. The source mutates the last stroke
  in place and then copies the array; the model instead replaces the last
  element of the sequence. `Style` is the mapping from a stroke to how it is
  drawn: an eraser draws white with `destination-out`, and any other tool
  draws its own colour with `source-over`.
  `WhiteboardHistory` describes the page from the events alone: one stroke per
  press, carrying the settings current at that press and the pressed point,
  followed by every move made while that stroke was the last one and drawing
  was on. `RunMatchesHistory` proves that the handlers, starting from the
  initial board, build exactly that board and never fault.
- **Entry page** (`Home`). Join and Create each decide whether to navigate.
  They build `/whiteboard?username=<name>&roomId=<id>` by concatenation,
  with no escaping. Create uses a generated room id, which is a parameter
  here.
- **Route guard** (`PrivateRoute`). A three-way decision: redirect to `/`,
  access denied, or render the page. It is made from `authenticated`, an
  optional required role, and the realm-role predicate. The identity
  provider's answers are parameters.

Handlers are applied one at a time. Pointer coordinates are `int`, because
the code does no arithmetic on them.

### Behaviour worth noting

- A stroke is appended to `lines` on mouse-down, not on release. Mouse-up
  only clears the flag.
- A press while already drawing is not rejected. It appends a new stroke and
  leaves the earlier one as it was (`DownWhileDrawingAbandonsStroke`).
- The tool is a free string. Any value other than `'eraser'` renders like the
  pen (`UnknownToolRendersAsPen`).
- A mouse-move while drawing with no stroke would throw, because the last
  line is `undefined`. The model returns `Err(NoLastLine)` in that case, and
  `RunPreservesValid` and `RunMatchesHistory` show it cannot happen from the
  initial board.

## Model

| member | source | states |
|---|---|---|
| Whiteboard.MouseDown | src/pages/Whiteboard.tsx:23-28 | appends exactly one stroke made from the current tool, colour and width with points exactly `[x, y]`; every earlier stroke is unchanged; drawing becomes true even if it already was; the settings are untouched; the invariant is kept |
| Whiteboard.MouseMove | src/pages/Whiteboard.tsx:30-38 | faults exactly when drawing with no stroke; when not drawing the board is unchanged; when drawing, only the last stroke's points change, by `x, y` added at the end; its tool, colour and width, the stroke count and every other stroke stay the same; the invariant is kept |
| Whiteboard.MouseUp | src/pages/Whiteboard.tsx:40-42 | drawing becomes false, and the strokes and settings are unchanged |
| Whiteboard.PickTool | src/pages/Whiteboard.tsx:50-51 | the Pen and Eraser buttons change only the tool setting; the strokes and the flag are untouched |
| Whiteboard.PickColor | src/pages/Whiteboard.tsx:52 | the colour picker changes only the colour setting |
| Whiteboard.PickWidth | src/pages/Whiteboard.tsx:53-59 | the width slider changes only the width setting |
| Whiteboard.Step | src/pages/Whiteboard.tsx:23-42 | on a valid board no event faults and the invariant (drawing implies a stroke exists; every point list has even length of at least 2) is kept; the stroke count grows by at most one |
| Whiteboard.RunPreservesValid | src/pages/Whiteboard.tsx:12-42 | any sequence of events from a valid board runs without fault and ends valid |
| Whiteboard.DownWhileDrawingAbandonsStroke | src/pages/Whiteboard.tsx:23-37 | a press while drawing keeps the stroke in progress intact, and the next move extends only the new stroke |
| Whiteboard.SettingsChangeKeepsStrokeStyle | src/pages/Whiteboard.tsx:23-58 | changing the tool, colour or width mid-stroke does not restyle the stroke; the next move extends it with its original tool, colour and width |
| Whiteboard.Style | src/pages/Whiteboard.tsx:73-78 | the composite is `'destination-out'` exactly for tool `'eraser'`, which is drawn white; every other tool draws the stroke's own colour with `source-over`; points and width pass through |
| Whiteboard.Render | src/pages/Whiteboard.tsx:70-80 | one styled line per stroke, in stroke order |
| Whiteboard.EraserIgnoresColor | src/pages/Whiteboard.tsx:74-78 | an eraser stroke looks the same whatever colour it recorded |
| Whiteboard.UnknownToolRendersAsPen | src/pages/Whiteboard.tsx:74-78 | any tool string other than `'eraser'` renders exactly like `'pen'` |
| Whiteboard.MoveRestylesOnlyLastLine | src/pages/Whiteboard.tsx:30-37 | after a move only the last rendered line changes, gaining the new point |
| WhiteboardHistory.Begun | src/pages/Whiteboard.tsx:23-27 | there is one begun stroke per press in the history |
| WhiteboardHistory.StepDownMatches | src/pages/Whiteboard.tsx:23-27 | a press adds the stroke the history begins for it, built from the settings at that moment, and lengthens no earlier stroke |
| WhiteboardHistory.StepMoveMatches | src/pages/Whiteboard.tsx:30-37 | a move lands on the last stroke exactly when drawing is on, and on no other stroke |
| WhiteboardHistory.StepOtherMatches | src/pages/Whiteboard.tsx:40-58 | a release or a change of tool, colour or width changes no stroke |
| WhiteboardHistory.StepMatchesHistory | src/pages/Whiteboard.tsx:23-58 | each handler takes a board described by a history to the board described by that history plus the event |
| WhiteboardHistory.RunMatchesHistory | src/pages/Whiteboard.tsx:12-58 | from the initial board, every event sequence runs without fault. Stroke i is the i-th press's settings and point, followed by the moves made while it was last and drawing was on. Drawing is on exactly when the last press or release was a press. The settings are the last ones chosen |
| WhiteboardHistory.CountsFromHistory | src/pages/Whiteboard.tsx:27-35 | the stroke count equals the number of presses. Each stroke's point list has length 2 + 2 × the moves applied while it was last and drawing was on |
| Home.WhiteboardTarget | src/pages/Home.tsx:14 | the address is the `/whiteboard?username=` prefix, the username verbatim, `&roomId=`, and the room id verbatim at the end |
| Home.HandleJoin | src/pages/Home.tsx:11-16 | navigates if and only if both username and room id are non-empty, to the address built from exactly those two |
| Home.HandleCreate | src/pages/Home.tsx:18-24 | navigates if and only if the username is non-empty, to the address built from the username and the generated id |
| Home.JoinEnabled | src/pages/Home.tsx:58-63 | the Join button is enabled exactly when the join guard lets navigation happen |
| Home.CreateEnabled | src/pages/Home.tsx:69-74 | for every generated room id, the Create button is enabled exactly when the create guard lets navigation happen |
| Home.HomeStep | src/pages/Home.tsx:11-24 | typing changes only its own field and never navigates; clicking Join or Create never changes username or room id, navigates exactly when that button is enabled, and goes where the Join or Create handler sends it |
| Home.CreateIgnoresTypedRoom | src/pages/Home.tsx:18-24 | Create's result does not depend on the typed room id |
| Home.SplitTargetRoundTrip | src/pages/Home.tsx:14 | when the username has no '&', the username and room id can be read back from the address |
| Home.TargetInjective | src/pages/Home.tsx:14 | for usernames without '&', different (username, room id) pairs give different addresses |
| Home.TargetAmbiguousWithAmpersand | src/pages/Home.tsx:14 | because nothing is escaped, the pair ("a&roomId=b", "c") gives the same address, and the same Join navigation, as ("a", "b&roomId=c") |
| PrivateRoute.Decide | src/components/PrivateRoute.tsx:5-15 | redirects to `/` exactly when not authenticated, whatever the role. Access is denied exactly when authenticated and a non-empty role is required that the user lacks. Otherwise the page is rendered |
| PrivateRoute.RoleCheckNotConsulted | src/components/PrivateRoute.tsx:6-10 | when signed out or when no role (absent or empty) is required, the role predicate does not affect the outcome |
| PrivateRoute.MoreRolesNeverDeny | src/components/PrivateRoute.tsx:10-14 | a user holding more realm roles is never refused where one holding fewer was admitted |

## Left out

- Reading `username` and `roomId` back from the query string with `URLSearchParams` (src/pages/Whiteboard.tsx:7-9, 19-21): it is a library call. `SplitTarget` recovers the pair by splitting at the first '&'; it is not a model of that library's decoding.
- Pointer position (`stage.getPointerPosition()`): it is an event parameter. The case where it returns null is not modelled.
- Konva rendering (Stage, Layer, `tension`, `lineCap`, window size): it belongs to a foreign UI library. Only the attributes that depend on a stroke are in `LineStyle`.
- Room-id generation with `Math.random().toString(36).substring(2, 10)` (src/pages/Home.tsx:20): it is nondeterministic and based on floats, so the id is a parameter. The id is left unconstrained; it is empty in the unlikely case that the random value is 0.
- Browser limits on the inputs (the slider's 1–30 range, the colour picker's format): these are enforced by the browser, so `PickWidth` and `PickColor` accept any value.
- React state batching and stale closures: handlers are applied one at a time against the latest state.
- Keycloak initialisation and router wiring (src/App.tsx, src/keycloak.ts): this is promise plumbing around an external library. `authenticated` and the role predicate are inputs to `Decide`. An `undefined` `authenticated` is the same as `false`.
- Room synchronisation, stroke broadcast, cursor presence and undo/redo: no source file implements them.
