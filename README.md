# DesignPanel: a draggable, keyboard-nudgeable block in a bounded panel

This project models the `DesignPanel` React component of L-Designer
(`src/renderer/DesignPanel.tsx`). A panel of fixed size holds one block. The user presses
on the block and drags it with the pointer, releases it, clicks it to select it for
editing, and nudges the selected block with the arrow keys. Press, release and click never
touch the block's position; pointer moves and arrow keys set it and clamp each axis to the
panel. So a block that fits the panel always stays inside
`[0, panelWidth - blockWidth] x [0, panelHeight - blockHeight]`.

The project has five modules:

- `Geometry` (`geometry.dfy`): the component's helpers `clamp` and `inRange`.
- `Panel` (`panel.dfy`): the component state as a value. It has one transition function
  per handler, each with a contract that says what the handler promises. It also has the
  bounds invariant `Inv` and a dispatcher `Step`/`Run` over sequences of events.
- `PanelProperties` (`panel_properties.dfy`): lemmas that relate several transitions. The
  main one is that the invariant holds after every event sequence that starts in the
  initial state. The rest relate pairs of transitions (release twice, press then move, click
  order, grab offset) or check concrete drags and nudges in a 500 x 500 panel.
- `Component` (`component.dfy`): class `DesignPanel`. It keeps the component's state
  fields (`lastX`, `lastY`, `left`, `top`, `dragging`, `editing`) and has one method per
  handler that updates them in place. `DocumentKeyDown` follows the source step by step,
  with local `newLeft`/`newTop` that it increments, decrements and re-clamps. Each method is
  proved to perform its `Panel` transition on `Snapshot()`.
- `Wrappers` (`wrappers.dfy`) holds the `Option` type. It stands for `HTMLElement | null`.

Inputs that come from the host are parameters:

- pointer coordinates (`clientX`, `clientY`);
- the key identifier string;
- the element handle (`e.target` / `e.currentTarget`);
- the block's measured size (`getBoundingClientRect`). It is passed on every move and key
  event, because the source measures it again on each one.

Panel width and height are constructor parameters and never change.

Behaviour of the code worth knowing:

- Releasing the pointer always resets the last pointer point to (0, 0). So release is a
  no-op only in reachable states, where no drag means the point is already (0, 0)
  (`ReleaseWhenIdleIsNoop`). The model follows the code.
- After the pointer overshoots a clamp limit and comes back, the block does not stay stuck
  at the limit. It moves back at once, because the recorded pointer point is not clamped.
  What drifts is the offset between the pointer and the grab point: a move past the right
  limit widens it by the overshoot, and a move past 0 narrows it (`PanelProperties.MoveGrabOffset`,
  `OvershootShiftsGrabPoint`).
- The document's click listener is registered for the capture phase. So it runs before the
  block's own click handler, and a click on the block ends with the block selected.
- `e.key` is compared to the four arrow names one `if` at a time. A key string equals at
  most one of them (`Panel.ArrowNamesDistinct`), so one event nudges at most one axis.

## Model

| member | source | states |
|---|---|---|
| `Geometry.Clamp` | src/renderer/DesignPanel.tsx:213-221 | on a non-empty interval the result lies in it and is the nearest point of it to the input; a value in range is returned unchanged; below the low limit gives the low limit, above the high limit gives the high limit |
| `Geometry.InRange` | src/renderer/DesignPanel.tsx:223-229 | true exactly when lo <= n <= hi, inclusive at both ends, which is exactly when clamping leaves n unchanged |
| `Geometry.ClampIdempotent` | src/renderer/DesignPanel.tsx:213-221 | on a non-empty interval, clamping an already clamped value changes nothing |
| `Geometry.ClampMonotone` | src/renderer/DesignPanel.tsx:213-221 | on a non-empty interval, clamping keeps the order of two values |
| `Panel.ArrowNamesDistinct` | src/renderer/DesignPanel.tsx:26-31 | the four members of the arrow-key enum carry four distinct key identifiers, so a key string equals at most one of them |
| `Panel.ArrowDelta` | src/renderer/DesignPanel.tsx:182-193 | each arrow key asks for a one-unit step on one axis (right and down +1, left and up -1); every other key asks for no step |
| `Panel.ClampInto` | src/renderer/DesignPanel.tsx:199-202 | each axis is clamped on its own: kept when in [0, limit], 0 when below 0, the limit when above it; so the result is inside the panel when the block fits, and it equals the input exactly when the input was already inside |
| `Panel.Initial` | src/renderer/DesignPanel.tsx:39-50 | the initial state has the block and the pointer point at the origin, with no dragging and no editing element |
| `Panel.MouseDown` | src/renderer/DesignPanel.tsx:107-115 | a press records the pointer point and the dragged element; position and editing are unchanged |
| `Panel.MouseMove` | src/renderer/DesignPanel.tsx:117-154 | nothing changes unless dragging and the pointer is in [0,width] x [0,height]; when the move applies, the pointer point is stored unclamped; each axis of the new position is the old position plus the pointer displacement, clamped on its own to [0, limit]; so the block ends inside the panel and follows the pointer exactly when that keeps it inside; dragging and editing are untouched |
| `Panel.MouseUp` | src/renderer/DesignPanel.tsx:156-164 | a release clears dragging and resets the pointer point to (0,0); position and editing are unchanged |
| `Panel.ClearEditing` | src/renderer/DesignPanel.tsx:166-170 | the capture-phase click handler clears editing and changes nothing else |
| `Panel.SelectBlock` | src/renderer/DesignPanel.tsx:172-176 | the block's click handler sets editing to the block and changes nothing else |
| `Panel.Click` | src/renderer/DesignPanel.tsx:71-75 | with the capture handler first, a click on the block ends with that block selected and a click elsewhere ends with nothing selected; position, dragging and pointer point are unchanged |
| `Panel.KeyDown` | src/renderer/DesignPanel.tsx:178-211 | without an editing element nothing changes; with one, each axis of the position plus the arrow step is clamped on its own to [0, limit], so the block ends inside the panel; from an in-bounds position the arrow step is taken exactly when it stays inside, otherwise the block stays put, and a non-arrow key leaves it where it is; pointer point, dragging and editing are untouched |
| `Panel.Step` | src/renderer/DesignPanel.tsx:61-80 | dispatching any one event to its handler preserves the invariant: the block is inside the panel, and with no dragging the pointer point is the origin |
| `PanelProperties.InitialInv` | src/renderer/DesignPanel.tsx:39-50 | the initial state satisfies the invariant when the block fits in the panel |
| `PanelProperties.RunPreservesInv` | src/renderer/DesignPanel.tsx:107-211 | every sequence of events preserves the invariant |
| `PanelProperties.ReachableWithin` | src/renderer/DesignPanel.tsx:33-230 | from the initial state, after any sequence of events, a block that fits stays within [0, panelWidth-blockW] x [0, panelHeight-blockH] |
| `PanelProperties.RunAppend` | src/renderer/DesignPanel.tsx:61-80 | events are handled one at a time in dispatch order: running two event sequences one after the other equals running their concatenation |
| `PanelProperties.ReleaseTwiceAfterAnyHistory` | src/renderer/DesignPanel.tsx:156-164 | after any sequence of events, a second mouse-up changes nothing |
| `PanelProperties.MoveOutsideAfterAnyHistory` | src/renderer/DesignPanel.tsx:126-130 | after any sequence of events, a pointer move outside the panel changes nothing |
| `PanelProperties.MoveGrabOffset` | src/renderer/DesignPanel.tsx:137-152 | for every applicable move and on each axis, the grab offset (pointer coordinate minus block edge) is kept exactly when the pointer-following position is in [0, limit]; a move past the limit widens it by the overshoot and a move below 0 narrows it by the overshoot |
| `PanelProperties.MouseUpIdempotent` | src/renderer/DesignPanel.tsx:156-164 | releasing twice equals releasing once |
| `PanelProperties.ReleaseWhenIdleIsNoop` | src/renderer/DesignPanel.tsx:156-164 | in a reachable state with nothing dragged, a release changes nothing |
| `PanelProperties.PressThenMoveSamePoint` | src/renderer/DesignPanel.tsx:107-152 | pressing at a point and moving to the same point leaves an in-bounds block where it was |
| `PanelProperties.MoveOutsideIgnored` | src/renderer/DesignPanel.tsx:126-130 | a pointer outside the panel leaves the whole state unchanged, even while dragging |
| `PanelProperties.ClickOrderMatters` | src/renderer/DesignPanel.tsx:71-75 | capture-then-bubble selects the block; the opposite order would leave nothing selected |
| `PanelProperties.OvershootShiftsGrabPoint` | src/renderer/DesignPanel.tsx:137-152 | a move clamped at the right limit still stores the pointer point unclamped; when the pointer comes back 30, the block moves 30 back to left 390 instead of staying at the limit, so the grab offset grows by 30 |
| `PanelProperties.DragPastEdgeScenario` | src/renderer/DesignPanel.tsx:117-154 | 500x500 panel, 80x30 block: dragging from (100,100) to x=499 puts the block at left 399, and a further move to x=600 is ignored |
| `PanelProperties.NudgeScenario` | src/renderer/DesignPanel.tsx:178-211 | a selected block at (10,10) goes to left 11 on ArrowRight and to top 11 on ArrowDown; at the right limit ArrowRight leaves it in place |
| `Component.DesignPanel.constructor` | src/renderer/DesignPanel.tsx:37-50 | stores the panel size; the fields hold the initial state, and the block is in bounds for every block size that fits |
| `Component.DesignPanel.DraggableMouseDown` | src/renderer/DesignPanel.tsx:107-115 | the fields after the call are the MouseDown transition of the fields before it |
| `Component.DesignPanel.DocumentMouseMove` | src/renderer/DesignPanel.tsx:117-154 | the fields after the call are the MouseMove transition of the fields before it; an in-bounds block stays in bounds |
| `Component.DesignPanel.DocumentMouseUp` | src/renderer/DesignPanel.tsx:156-164 | the fields after the call are the MouseUp transition of the fields before it |
| `Component.DesignPanel.DocumentClickCapturing` | src/renderer/DesignPanel.tsx:166-170 | the fields after the call are the ClearEditing transition of the fields before it |
| `Component.DesignPanel.DraggableElementClick` | src/renderer/DesignPanel.tsx:172-176 | the fields after the call are the SelectBlock transition of the fields before it |
| `Component.DesignPanel.DispatchClick` | src/renderer/DesignPanel.tsx:71-75 | running the capture handler and then, on the block, the block handler gives the Click transition: selected on the block, cleared elsewhere |
| `Component.DesignPanel.DocumentKeyDown` | src/renderer/DesignPanel.tsx:178-211 | the source's four separate ifs on local newLeft/newTop, followed by the re-clamp, give the KeyDown transition; with an editing element the block ends in bounds |

## Left out

- Rendering: the JSX tree and the `'px'` style strings (src/renderer/DesignPanel.tsx:83-105) are presentation.
- Position as strings: the source stores `"Npx"` and reads it back with `parseInt`. The model keeps the position as an integer and does not model that round trip.
- Geometry is integer only. `getBoundingClientRect` returns fractional sizes, and pointer coordinates are JavaScript numbers. The model takes whole-number sizes and coordinates, so it has no fractional clamp limits and no `parseInt` truncation.
- The block's measured size is an input and is not tied to the handle it measures. `Panel.Run` uses one block size for the whole event sequence. A block that changes size between events is covered by each transition's own contract, not by the sequence lemmas: the move and key-down contracts say how each axis is re-clamped against the size measured at that event.
- Listener registration (`addEventListener`) and the missing detachment on unmount are host plumbing. Only the capture-before-bubble order of a click is kept, as `DispatchClick` / `Panel.Click`.
- `setState` batching and React's asynchronous state updates are not modelled. Each handler is one atomic update.
- Which DOM node `e.target` is: the model takes the handle it is given.
- src/renderer/App.tsx and src/renderer/index.tsx only mount the component with a 500 x 500 panel. They have no logic to model.
