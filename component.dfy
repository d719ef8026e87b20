/** The design panel component: its state in mutable fields and one method per event
    handler. Each handler is proved to perform the matching transition of module Panel, so
    everything proved there (the bounds invariant above all) holds of the component. */
module Component {
  import opened Wrappers
  import opened Geometry
  import opened Panel

  class DesignPanel {
    /** Panel size, fixed at construction. */
    const panelWidth: nat
    const panelHeight: nat

    /** Last recorded pointer point. */
    var lastX: int
    var lastY: int

    /** Block position. */
    var left: int
    var top: int

    /** The element being dragged and the element selected for editing, if any. */
    var dragging: Option<Handle>
    var editing: Option<Handle>

    /** The component state as a value. */
    function Snapshot(): State
      reads this
    {
      State(Point(lastX, lastY), Position(left, top), dragging, editing)
    }

    function VisibleRect(): Size
    {
      Size(panelWidth, panelHeight)
    }

    /** The block is inside the panel for a block measured at blockW x blockH. */
    predicate InBounds(blockW: nat, blockH: nat)
      reads this
    {
      Within(Snapshot().pos, VisibleRect(), Size(blockW, blockH))
    }

    constructor (panelWidth: nat, panelHeight: nat)
      ensures this.panelWidth == panelWidth && this.panelHeight == panelHeight
      ensures Snapshot() == Initial()
      ensures forall blockW: nat, blockH: nat ::
                blockW <= panelWidth && blockH <= panelHeight ==> InBounds(blockW, blockH)
    {
      this.panelWidth := panelWidth;
      this.panelHeight := panelHeight;
      lastX, lastY := 0, 0;
      left, top := 0, 0;
      dragging := None;
      editing := None;
    }

    /** Pointer pressed on the block element target at (clientX, clientY). */
    method DraggableMouseDown(target: Handle, clientX: int, clientY: int)
      modifies this
      ensures Snapshot() == MouseDown(old(Snapshot()), target, Point(clientX, clientY))
    {
      lastX, lastY := clientX, clientY;
      dragging := Some(target);
    }

    /** Pointer moved to (clientX, clientY) anywhere in the document; the dragged element
        currently measures blockW x blockH. */
    method DocumentMouseMove(clientX: int, clientY: int, blockW: nat, blockH: nat)
      modifies this
      ensures Snapshot() == MouseMove(old(Snapshot()), VisibleRect(), Size(blockW, blockH), Point(clientX, clientY))
      ensures blockW <= panelWidth && blockH <= panelHeight && old(InBounds(blockW, blockH)) ==>
                InBounds(blockW, blockH)
    {
      if dragging.Some? && InRange(clientX, 0, panelWidth) && InRange(clientY, 0, panelHeight) {
        var rightLimit := panelWidth - blockW;
        var bottomLimit := panelHeight - blockH;
        var offsetX := clientX - lastX;
        var offsetY := clientY - lastY;
        var newX := left + offsetX;
        var newY := top + offsetY;
        newX := Clamp(newX, 0, rightLimit);
        newY := Clamp(newY, 0, bottomLimit);
        lastX, lastY := clientX, clientY;
        left, top := newX, newY;
      }
    }

    /** Pointer released anywhere in the document. */
    method DocumentMouseUp()
      modifies this
      ensures Snapshot() == MouseUp(old(Snapshot()))
    {
      lastX, lastY := 0, 0;
      dragging := None;
    }

    /** Capture-phase listener for every click in the document. */
    method DocumentClickCapturing()
      modifies this
      ensures Snapshot() == ClearEditing(old(Snapshot()))
    {
      editing := None;
    }

    /** The block's own click handler; target is the block element. */
    method DraggableElementClick(target: Handle)
      modifies this
      ensures Snapshot() == SelectBlock(old(Snapshot()), target)
    {
      editing := Some(target);
    }

    /** One click: the capture-phase document listener runs before the block's handler. */
    method DispatchClick(target: ClickTarget)
      modifies this
      ensures Snapshot() == Click(old(Snapshot()), target)
      ensures editing == (if target.OnBlock? then Some(target.h) else None)
    {
      DocumentClickCapturing();
      if target.OnBlock? {
        DraggableElementClick(target.h);
      }
    }

    /** Key pressed in the document; the edited element currently measures blockW x blockH. */
    method DocumentKeyDown(key: string, blockW: nat, blockH: nat)
      modifies this
      ensures Snapshot() == KeyDown(old(Snapshot()), VisibleRect(), Size(blockW, blockH), key)
      ensures old(editing).Some? && blockW <= panelWidth && blockH <= panelHeight ==>
                InBounds(blockW, blockH)
    {
      if editing.Some? {
        var newTop := top;
        var newLeft := left;
        if key == ArrowLeft.Name() {
          newLeft := newLeft - 1;
        }
        if key == ArrowRight.Name() {
          newLeft := newLeft + 1;
        }
        if key == ArrowUp.Name() {
          newTop := newTop - 1;
        }
        if key == ArrowDown.Name() {
          newTop := newTop + 1;
        }
        var rightLimit := panelWidth - blockW;
        var bottomLimit := panelHeight - blockH;
        newLeft := Clamp(newLeft, 0, rightLimit);
        newTop := Clamp(newTop, 0, bottomLimit);
        top, left := newTop, newLeft;
      }
    }
  }
}
