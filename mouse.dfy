/** Cursor tracking: the current cursor position, sampled from this frame's cursor-moved events
    before the frame's logic, and the previous one, copied from the current one after it. */
module MouseManagement {
  import opened Common

  /** The current cursor position, with the frame in which it was last written (the change
      tick that change detection compares against). */
  class MousePosition {
    var pos: Vec2
    var changedAt: int

    /** Inserted at start-up, before the first frame (frame 0), at the origin. */
    constructor ()
      ensures pos == ZERO && changedAt == 0
    {
      pos := ZERO;
      changedAt := 0;
    }
  }

  /** The cursor position as it was at the end of the previous frame. */
  class PreviousMousePosition {
    var pos: Vec2

    constructor ()
      ensures pos == ZERO
    {
      pos := ZERO;
    }
  }

  /** The last of this frame's cursor-moved events, found by walking them all in order;
      None when no event arrived. */
  method LastEvent(events: seq<Vec2>) returns (last: Option<Vec2>)
    ensures last.None? <==> |events| == 0
    ensures last.Some? ==> last.value == events[|events| - 1]
  {
    last := None;
    var i := 0;
    while i < |events|
      invariant 0 <= i <= |events|
      invariant last.None? <==> i == 0
      invariant last.Some? ==> last.value == events[i - 1]
    {
      last := Some(events[i]);
      i := i + 1;
    }
  }

  /** Pre-update: the current position becomes the position of the frame's last cursor-moved
      event, and is marked as written in this frame; with no event it is neither changed nor
      written. */
  method UpdateMousePos(cur: MousePosition, events: seq<Vec2>, frame: int)
    modifies cur
    ensures |events| == 0 ==> cur.pos == old(cur.pos) && cur.changedAt == old(cur.changedAt)
    ensures |events| > 0 ==> cur.pos == events[|events| - 1] && cur.changedAt == frame
  {
    var last := LastEvent(events);
    if last.None? {
      return;
    }
    cur.pos := last.value;
    cur.changedAt := frame;
  }

  /** Post-update: the previous position takes the current one; the current one is only read. */
  method UpdatePrevMousePos(cur: MousePosition, prev: PreviousMousePosition)
    modifies prev
    ensures prev.pos == cur.pos
  {
    prev.pos := cur.pos;
  }
}
