/** The design panel as a state machine over values: its state, one transition per event
    handler, the bounds invariant and the properties of event sequences. Component.DesignPanel
    implements each transition as a method over mutable fields. */
module Panel {
  import opened Wrappers
  import opened Geometry

  /** An opaque reference to a DOM element (the dragged or the edited element). */
  datatype Handle = Handle(id: nat)

  /** A pointer position in viewport coordinates. */
  datatype Point = Point(x: int, y: int)

  /** The block's offset inside the panel. */
  datatype Position = Position(left: int, top: int)

  /** A width and a height: the panel's configured size or a block's measured size. */
  datatype Size = Size(width: nat, height: nat)

  /** A displacement along both axes. */
  datatype Offset = Offset(dx: int, dy: int)

  /** The component state: last recorded pointer point, block position, and the element
      being dragged and the element being edited, if any. */
  datatype State = State(lastMouse: Point, pos: Position, dragging: Option<Handle>, editing: Option<Handle>)

  /** Where a click lands: on the block (whose element is h) or anywhere else. */
  datatype ClickTarget = Elsewhere | OnBlock(h: Handle)

  /** The four arrow keys the panel reacts to. */
  datatype ArrowKey = ArrowLeft | ArrowRight | ArrowUp | ArrowDown
  {
    /** The key identifier a keyboard event reports for this key. */
    function Name(): string
    {
      match this
      case ArrowLeft => "ArrowLeft"
      case ArrowRight => "ArrowRight"
      case ArrowUp => "ArrowUp"
      case ArrowDown => "ArrowDown"
    }
  }

  /** Distinct arrow keys report distinct identifiers, so a key string names at most one of
      them. */
  lemma ArrowNamesDistinct()
    ensures forall a: ArrowKey, b: ArrowKey :: a.Name() == b.Name() ==> a == b
  {
  }

  const Origin := Point(0, 0)

  predicate IsArrow(key: string)
  {
    key == ArrowLeft.Name() || key == ArrowRight.Name() || key == ArrowUp.Name() || key == ArrowDown.Name()
  }

  /** The one-unit nudge an arrow key asks for; any other key asks for none. */
  function ArrowDelta(key: string): (d: Offset)
    ensures -1 <= d.dx <= 1 && -1 <= d.dy <= 1
    ensures d.dx == 0 || d.dy == 0
    ensures d == Offset(0, 0) <==> !IsArrow(key)
    ensures key == ArrowRight.Name() ==> d.dx == 1
    ensures key == ArrowLeft.Name() ==> d.dx == -1
    ensures key == ArrowDown.Name() ==> d.dy == 1
    ensures key == ArrowUp.Name() ==> d.dy == -1
  {
    if key == ArrowLeft.Name() then Offset(-1, 0)
    else if key == ArrowRight.Name() then Offset(1, 0)
    else if key == ArrowUp.Name() then Offset(0, -1)
    else if key == ArrowDown.Name() then Offset(0, 1)
    else Offset(0, 0)
  }

  function Shift(pos: Position, d: Offset): Position
  {
    Position(pos.left + d.dx, pos.top + d.dy)
  }

  /** Pointer displacement from one point to another. */
  function Displacement(from: Point, to: Point): Offset
  {
    Offset(to.x - from.x, to.y - from.y)
  }

  /** Largest left offset at which a block of this size is still inside the panel. */
  function RightLimit(panel: Size, block: Size): int
  {
    panel.width - block.width
  }

  /** Largest top offset at which a block of this size is still inside the panel. */
  function BottomLimit(panel: Size, block: Size): int
  {
    panel.height - block.height
  }

  predicate Fits(block: Size, panel: Size)
  {
    block.width <= panel.width && block.height <= panel.height
  }

  /** The bounds invariant: the block lies wholly inside the panel. */
  predicate Within(pos: Position, panel: Size, block: Size)
  {
    0 <= pos.left <= RightLimit(panel, block) && 0 <= pos.top <= BottomLimit(panel, block)
  }

  /** r is v clamped on its own to [0, limit]: kept when in range, 0 when below it, the
      limit when above it. */
  predicate AxisClamped(v: int, limit: int, r: int)
  {
    (0 <= v <= limit ==> r == v) && (v < 0 ==> r == 0) && (0 <= v && limit < v ==> r == limit)
  }

  /** Each axis clamped to the room the panel leaves for the block. */
  function ClampInto(pos: Position, panel: Size, block: Size): (r: Position)
    ensures Fits(block, panel) ==> Within(r, panel, block)
    ensures r == pos <==> Within(pos, panel, block)
    ensures AxisClamped(pos.left, RightLimit(panel, block), r.left)
    ensures AxisClamped(pos.top, BottomLimit(panel, block), r.top)
  {
    Position(Clamp(pos.left, 0, RightLimit(panel, block)), Clamp(pos.top, 0, BottomLimit(panel, block)))
  }

  /** State at construction: pointer and block at the origin, nothing dragged or edited. */
  function Initial(): (s: State)
    ensures s.pos == Position(0, 0) && s.lastMouse == Origin
    ensures s.dragging == None && s.editing == None
  {
    State(Origin, Position(0, 0), None, None)
  }

  /** Pointer pressed on the block at p: start dragging element h from p. */
  function MouseDown(s: State, h: Handle, p: Point): (r: State)
    ensures r.lastMouse == p && r.dragging == Some(h)
    ensures r.pos == s.pos && r.editing == s.editing
  {
    s.(lastMouse := p, dragging := Some(h))
  }

  /** A pointer move is acted on only while dragging and while the pointer is inside the
      panel, both ends included. */
  predicate MoveApplies(s: State, panel: Size, p: Point)
  {
    s.dragging.Some? && InRange(p.x, 0, panel.width) && InRange(p.y, 0, panel.height)
  }

  /** Pointer moved to p: the block follows the pointer displacement, clamped to the panel,
      and p (not clamped) becomes the last recorded point. */
  function MouseMove(s: State, panel: Size, block: Size, p: Point): (r: State)
    ensures !MoveApplies(s, panel, p) ==> r == s
    ensures MoveApplies(s, panel, p) ==> r.lastMouse == p
    ensures r.dragging == s.dragging && r.editing == s.editing
    ensures Fits(block, panel) && (MoveApplies(s, panel, p) || Within(s.pos, panel, block)) ==>
              Within(r.pos, panel, block)
    ensures MoveApplies(s, panel, p) && Within(Shift(s.pos, Displacement(s.lastMouse, p)), panel, block) ==>
              r.pos == Shift(s.pos, Displacement(s.lastMouse, p))
    ensures MoveApplies(s, panel, p) ==>
              AxisClamped(s.pos.left + p.x - s.lastMouse.x, RightLimit(panel, block), r.pos.left) &&
              AxisClamped(s.pos.top + p.y - s.lastMouse.y, BottomLimit(panel, block), r.pos.top)
  {
    if MoveApplies(s, panel, p) then
      var follow := Shift(s.pos, Displacement(s.lastMouse, p));
      s.(lastMouse := p, pos := ClampInto(follow, panel, block))
    else
      s
  }

  /** Pointer released anywhere: forget the pointer point and stop dragging. */
  function MouseUp(s: State): (r: State)
    ensures r.lastMouse == Origin && r.dragging == None
    ensures r.pos == s.pos && r.editing == s.editing
  {
    s.(lastMouse := Origin, dragging := None)
  }

  /** Capture-phase document click: deselect. */
  function ClearEditing(s: State): (r: State)
    ensures r.editing == None
    ensures r.lastMouse == s.lastMouse && r.pos == s.pos && r.dragging == s.dragging
  {
    s.(editing := None)
  }

  /** Bubble-phase click on the block: select element h for editing. */
  function SelectBlock(s: State, h: Handle): (r: State)
    ensures r.editing == Some(h)
    ensures r.lastMouse == s.lastMouse && r.pos == s.pos && r.dragging == s.dragging
  {
    s.(editing := Some(h))
  }

  /** One click, dispatched in DOM order: the document's capture listener first, then the
      block's own handler when the click lands on the block. */
  function Click(s: State, target: ClickTarget): (r: State)
    ensures target.OnBlock? ==> r.editing == Some(target.h)
    ensures target == Elsewhere ==> r.editing == None
    ensures r.lastMouse == s.lastMouse && r.pos == s.pos && r.dragging == s.dragging
  {
    var cleared := ClearEditing(s);
    match target
    case OnBlock(h) => SelectBlock(cleared, h)
    case Elsewhere => cleared
  }

  /** Key pressed: while an element is being edited, nudge the block one unit per arrow key
      and re-clamp both axes; a nudge that would leave the panel is not taken. */
  function KeyDown(s: State, panel: Size, block: Size, key: string): (r: State)
    ensures s.editing == None ==> r == s
    ensures r.lastMouse == s.lastMouse && r.dragging == s.dragging && r.editing == s.editing
    ensures s.editing.Some? && Fits(block, panel) ==> Within(r.pos, panel, block)
    ensures s.editing.Some? ==>
              AxisClamped(s.pos.left + ArrowDelta(key).dx, RightLimit(panel, block), r.pos.left) &&
              AxisClamped(s.pos.top + ArrowDelta(key).dy, BottomLimit(panel, block), r.pos.top)
    ensures s.editing.Some? && Within(s.pos, panel, block) ==>
              r.pos == (if Within(Shift(s.pos, ArrowDelta(key)), panel, block)
                        then Shift(s.pos, ArrowDelta(key)) else s.pos)
  {
    if s.editing.Some? then
      s.(pos := ClampInto(Shift(s.pos, ArrowDelta(key)), panel, block))
    else
      s
  }

  /** The events the component listens to. */
  datatype Event =
    | Press(h: Handle, p: Point)
    | Move(p: Point)
    | Release
    | ClickOn(target: ClickTarget)
    | Key(key: string)

  /** The invariant of every reachable state: the block is inside the panel, and when nothing
      is dragged the last pointer point is the origin. */
  predicate Inv(s: State, panel: Size, block: Size)
  {
    Within(s.pos, panel, block) && (s.dragging == None ==> s.lastMouse == Origin)
  }

  /** Dispatch one event to its handler; the block is measured at the given size. */
  function Step(s: State, panel: Size, block: Size, e: Event): (r: State)
    ensures Inv(s, panel, block) ==> Inv(r, panel, block)
  {
    match e
    case Press(h, p) => MouseDown(s, h, p)
    case Move(p) => MouseMove(s, panel, block, p)
    case Release => MouseUp(s)
    case ClickOn(target) => Click(s, target)
    case Key(key) => KeyDown(s, panel, block, key)
  }

  /** Dispatch a sequence of events in order. */
  function Run(s: State, panel: Size, block: Size, events: seq<Event>): State
    decreases |events|
  {
    if events == [] then s else Run(Step(s, panel, block, events[0]), panel, block, events[1..])
  }
}
