/** Properties that relate several transitions of the panel, and properties of whole event
    sequences. */
module PanelProperties {
  import opened Wrappers
  import opened Geometry
  import opened Panel

  /** The initial state satisfies the invariant whenever the block fits in the panel. */
  lemma InitialInv(panel: Size, block: Size)
    requires Fits(block, panel)
    ensures Inv(Initial(), panel, block)
  {
  }

  /** Running events one after another is running their concatenation. */
  lemma {:induction false} RunAppend(s: State, panel: Size, block: Size, a: seq<Event>, b: seq<Event>)
    ensures Run(s, panel, block, a + b) == Run(Run(s, panel, block, a), panel, block, b)
    decreases |a|
  {
    if a != [] {
      assert (a + b)[0] == a[0];
      assert (a + b)[1..] == a[1..] + b;
      RunAppend(Step(s, panel, block, a[0]), panel, block, a[1..], b);
    } else {
      assert a + b == b;
    }
  }

  /** Every event sequence preserves the invariant. */
  lemma {:induction false} RunPreservesInv(s: State, panel: Size, block: Size, events: seq<Event>)
    requires Inv(s, panel, block)
    ensures Inv(Run(s, panel, block, events), panel, block)
    decreases |events|
  {
    if events != [] {
      RunPreservesInv(Step(s, panel, block, events[0]), panel, block, events[1..]);
    }
  }

  /** Whatever the user does, a block that fits the panel never leaves it. */
  lemma ReachableWithin(panel: Size, block: Size, events: seq<Event>)
    requires Fits(block, panel)
    ensures Within(Run(Initial(), panel, block, events).pos, panel, block)
  {
    InitialInv(panel, block);
    RunPreservesInv(Initial(), panel, block, events);
  }

  /** Releasing the pointer twice is releasing it once. */
  lemma MouseUpIdempotent(s: State)
    ensures MouseUp(MouseUp(s)) == MouseUp(s)
  {
  }

  /** In a reachable state, releasing while nothing is dragged changes nothing. */
  lemma ReleaseWhenIdleIsNoop(s: State, panel: Size, block: Size)
    requires Inv(s, panel, block) && s.dragging == None
    ensures MouseUp(s) == s
  {
  }

  /** Pressing at p and then moving to p leaves an in-bounds block where it was. */
  lemma PressThenMoveSamePoint(s: State, panel: Size, block: Size, h: Handle, p: Point)
    requires Within(s.pos, panel, block)
    ensures MouseMove(MouseDown(s, h, p), panel, block, p).pos == s.pos
  {
  }

  /** A pointer outside the panel is ignored even while dragging. */
  lemma MoveOutsideIgnored(s: State, panel: Size, block: Size, p: Point)
    requires !InRange(p.x, 0, panel.width) || !InRange(p.y, 0, panel.height)
    ensures MouseMove(s, panel, block, p) == s
  {
  }

  /** The capture listener must run first: with the block's handler first, a click on the
      block would end with nothing selected. */
  lemma ClickOrderMatters(s: State, h: Handle)
    ensures Click(s, OnBlock(h)).editing == Some(h)
    ensures ClearEditing(SelectBlock(s, h)).editing == None
  {
  }

  /** Horizontal distance from the block's left edge to the recorded pointer point. */
  function GrabOffsetX(s: State): int
  {
    s.lastMouse.x - s.pos.left
  }

  /** Vertical distance from the block's top edge to the recorded pointer point. */
  function GrabOffsetY(s: State): int
  {
    s.lastMouse.y - s.pos.top
  }

  /** Because a move stores the pointer point unclamped, on each axis the grab offset is kept
      exactly when the block can follow the pointer on that axis; a move past the far limit
      widens it by the overshoot, and a move past 0 narrows it by the overshoot. */
  lemma MoveGrabOffset(s: State, panel: Size, block: Size, p: Point)
    requires MoveApplies(s, panel, p)
    ensures var r, followX := MouseMove(s, panel, block, p), s.pos.left + p.x - s.lastMouse.x;
      && (GrabOffsetX(r) == GrabOffsetX(s) <==> 0 <= followX <= RightLimit(panel, block))
      && (0 <= RightLimit(panel, block) < followX ==>
            GrabOffsetX(r) == GrabOffsetX(s) + (followX - RightLimit(panel, block)))
      && (followX < 0 ==> GrabOffsetX(r) == GrabOffsetX(s) + followX)
    ensures var r, followY := MouseMove(s, panel, block, p), s.pos.top + p.y - s.lastMouse.y;
      && (GrabOffsetY(r) == GrabOffsetY(s) <==> 0 <= followY <= BottomLimit(panel, block))
      && (0 <= BottomLimit(panel, block) < followY ==>
            GrabOffsetY(r) == GrabOffsetY(s) + (followY - BottomLimit(panel, block)))
      && (followY < 0 ==> GrabOffsetY(r) == GrabOffsetY(s) + followY)
  {
  }

  /** After any history, a second release changes nothing. */
  lemma ReleaseTwiceAfterAnyHistory(s: State, panel: Size, block: Size, events: seq<Event>)
    ensures Run(s, panel, block, events + [Release, Release]) == Run(s, panel, block, events + [Release])
  {
    var t := Run(s, panel, block, events);
    RunAppend(s, panel, block, events, [Release, Release]);
    RunAppend(s, panel, block, events, [Release]);
    assert Run(t, panel, block, [Release, Release]) == MouseUp(MouseUp(t)) by {
      assert [Release, Release][1..] == [Release];
    }
  }

  /** After any history, a pointer move outside the panel changes nothing. */
  lemma MoveOutsideAfterAnyHistory(s: State, panel: Size, block: Size, events: seq<Event>, p: Point)
    requires !InRange(p.x, 0, panel.width) || !InRange(p.y, 0, panel.height)
    ensures Run(s, panel, block, events + [Move(p)]) == Run(s, panel, block, events)
  {
    RunAppend(s, panel, block, events, [Move(p)]);
  }

  /** A move stores the pointer point as given even when the block is held at a limit: in a
      500 x 500 panel a 80 x 30 block at the right limit stays there while the pointer goes 30
      past it, and moves 30 back to left 390 when the pointer returns, so the grab offset grew. */
  lemma OvershootShiftsGrabPoint()
    ensures
      var panel, block := Size(500, 500), Size(80, 30);
      var s := State(Point(450, 100), Position(420, 0), Some(Handle(0)), None);
      var out := MouseMove(s, panel, block, Point(480, 100));
      var back := MouseMove(out, panel, block, Point(450, 100));
      out.pos == s.pos && out.lastMouse == Point(480, 100) && back.pos == Position(390, 0)
  {
    var panel, block := Size(500, 500), Size(80, 30);
    var s := State(Point(450, 100), Position(420, 0), Some(Handle(0)), None);
    assert MoveApplies(s, panel, Point(480, 100));
    var out := MouseMove(s, panel, block, Point(480, 100));
    assert out.pos == ClampInto(Position(450, 0), panel, block) == Position(420, 0);
    assert MoveApplies(out, panel, Point(450, 100));
    assert MouseMove(out, panel, block, Point(450, 100)).pos == ClampInto(Position(390, 0), panel, block);
  }

  /** Dragging a 80 x 30 block in a 500 x 500 panel from (100, 100) to x = 499 and then past the
      panel edge: the move past the edge is ignored and the block stays at left 399. */
  lemma DragPastEdgeScenario()
    ensures
      var panel, block := Size(500, 500), Size(80, 30);
      var events := [Press(Handle(0), Point(100, 100)), Move(Point(499, 100)), Move(Point(600, 100))];
      Run(Initial(), panel, block, events).pos == Position(399, 0)
  {
  }

  /** A selected block at (10, 10) moves to left 11 on ArrowRight and to top 11 on ArrowDown,
      and a block at the right limit stays there on ArrowRight. */
  lemma NudgeScenario(h: Handle)
    ensures
      var panel, block := Size(500, 500), Size(80, 30);
      var s := State(Origin, Position(10, 10), None, Some(h));
      KeyDown(s, panel, block, "ArrowRight").pos == Position(11, 10)
      && KeyDown(s, panel, block, "ArrowDown").pos == Position(10, 11)
      && KeyDown(s.(pos := Position(420, 10)), panel, block, "ArrowRight").pos == Position(420, 10)
  {
    assert ArrowDelta("ArrowRight") == Offset(1, 0) by {
      assert "ArrowRight" == ArrowRight.Name();
    }
    assert ArrowDelta("ArrowDown") == Offset(0, 1) by {
      assert "ArrowDown" == ArrowDown.Name();
    }
  }
}
