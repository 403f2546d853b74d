/** The editor's frame schedule: pre-update samples the cursor, update runs the paint step when
    its run condition holds, post-update copies the current cursor position to the previous one;
    entering the editing state installs an empty chunk index and creates the chunk at (0, 0). */
module App {
  import opened Common
  import opened Tiles
  import opened ChunkStore
  import opened Editor
  import opened MouseManagement

  /** The left mouse button and left shift key, as the input collaborator reports them for one frame. */
  datatype Buttons = Buttons(leftJustPressed: bool, leftPressed: bool, shiftPressed: bool)

  /** The resources of the editor, the application state, the frame counter and the state of the
      cursor-changed run condition. */
  class EditorApp {
    const cursor: MousePosition
    const previous: PreviousMousePosition
    const chunks: Chunks
    const materials: Materials
    const images: Images
    var state: AppState
    /** Number of frames run so far. */
    var frame: nat
    /** The frame in which the cursor-changed condition last ran; a write is reported as a
        change when it happened after that. */
    var changeSeenAt: int

    /** Between frames: the previous cursor position equals the current one, no change tick lies
        in the future, and the stores are consistent. */
    ghost predicate Valid()
      reads this, cursor, previous, chunks, materials, images
    {
      && previous.pos == cursor.pos
      && cursor.changedAt <= frame
      && changeSeenAt <= frame
      && StoresConsistent(chunks, materials, images)
    }

    /** Start-up: both cursor positions at the origin, no chunk index entries, main menu. */
    constructor ()
      ensures Valid()
      ensures fresh(cursor) && fresh(previous) && fresh(chunks) && fresh(materials) && fresh(images)
      ensures cursor.pos == ZERO && previous.pos == ZERO
      ensures state == MainMenu && frame == 0
      ensures chunks.chunks == map[] && materials.materials == map[] && images.rasters == map[]
    {
      cursor := new MousePosition();
      previous := new PreviousMousePosition();
      chunks := new Chunks();
      materials := new Materials();
      images := new Images();
      state := MainMenu;
      frame := 0;
      // a condition that never ran reports every earlier write as a change
      changeSeenAt := -1;
    }

    /** Entering the editing state: install an empty chunk index, then create the chunk at
        (0, 0), whose raster is the fresh i mod 9 pattern. */
    method EnterEditing() returns (centre: Vec2)
      requires Valid()
      modifies this, chunks, materials, images
      ensures Valid()
      ensures state == Editing && frame == old(frame) && changeSeenAt == old(changeSeenAt)
      ensures chunks.chunks.Keys == {ChunkPos(0, 0)}
      ensures chunks.chunks[ChunkPos(0, 0)] == MaterialId(old(materials.nextIndex))
      ensures chunks.chunks[ChunkPos(0, 0)] !in old(materials.materials)
      ensures materials.nextIndex == old(materials.nextIndex) + 1
      ensures materials.materials == old(materials.materials)[chunks.chunks[ChunkPos(0, 0)] :=
                ChunkMaterial(Chunk(ImageId(old(images.nextIndex))))]
      ensures ImageId(old(images.nextIndex)) !in old(images.rasters)
      ensures images.nextIndex == old(images.nextIndex) + 1
      ensures images.rasters == old(images.rasters)[ImageId(old(images.nextIndex)) := EmptyRaster()]
      ensures images.rasters[materials.materials[chunks.chunks[ChunkPos(0, 0)]].tileData.image] == EmptyRaster()
      ensures centre == Vec2(16.0, 16.0)
    {
      state := Editing;
      CreateChunksResource(chunks);
      centre := CreateBall(materials, chunks, images);
    }

    /** One frame. `events` are this frame's cursor-moved positions in order; `toWorld` is the
        camera's viewport-to-world mapping for this frame. Returns whether the cursor-changed
        condition ran and reported a change, whether the paint step ran, and the previous cursor
        position as the update phase saw it. */
    method Frame(events: seq<Vec2>, buttons: Buttons, toWorld: Vec2 -> Vec2)
      returns (cursorChanged: bool, painted: bool, seenPrevious: Vec2)
      requires Valid()
      modifies this, cursor, previous, images
      ensures Valid()
      ensures frame == old(frame) + 1 && state == old(state)
      ensures |events| == 0 ==> cursor.pos == old(cursor.pos)
      ensures |events| > 0 ==> cursor.pos == events[|events| - 1] && cursor.changedAt == frame
      ensures |events| == 0 ==> cursor.changedAt == old(cursor.changedAt)
      ensures seenPrevious == old(cursor.pos)
      ensures previous.pos == cursor.pos
      ensures cursorChanged == (!buttons.leftJustPressed && cursor.changedAt > old(changeSeenAt))
      ensures changeSeenAt == if buttons.leftJustPressed then old(changeSeenAt) else frame
      ensures |events| > 0 && !buttons.leftJustPressed ==> cursorChanged
      ensures |events| == 0 && old(changeSeenAt) == old(frame) ==> !cursorChanged
      ensures painted == PaintFires(buttons.leftJustPressed, cursorChanged, buttons.leftPressed,
                                    buttons.shiftPressed, state)
      ensures chunks.chunks == old(chunks.chunks) && materials.materials == old(materials.materials)
      ensures images.nextIndex == old(images.nextIndex)
      ensures images.rasters == if painted
                                then Paint(chunks.chunks, materials.materials, old(images.rasters), toWorld(cursor.pos))
                                else old(images.rasters)
    {
      frame := frame + 1;

      // pre-update
      UpdateMousePos(cursor, events, frame);

      // update: every run condition of the paint step is evaluated, but inside the `or` the
      // cursor-changed test runs only when the just-pressed test was false
      cursorChanged := false;
      if !buttons.leftJustPressed {
        cursorChanged := cursor.changedAt > changeSeenAt;
        changeSeenAt := frame;
      }
      seenPrevious := previous.pos;
      painted := PaintFires(buttons.leftJustPressed, cursorChanged, buttons.leftPressed,
                            buttons.shiftPressed, state);
      if painted {
        ChangeTile(toWorld(cursor.pos), chunks, materials, images);
      }

      // post-update
      UpdatePrevMousePos(cursor, previous);
    }
  }

  /** A press that comes with a cursor move hides that move from the cursor-changed condition,
      so on the next frame, with the button held and the cursor still, the paint step runs again. */
  method StaleChangeRepaints(p: Vec2, toWorld: Vec2 -> Vec2) returns (first: bool, second: bool)
    ensures first && second
  {
    var app := new EditorApp();
    var _ := app.EnterEditing();
    // frame 1: no click, no move; the condition runs and sees the start-up write
    var _, _, _ := app.Frame([], Buttons(false, false, false), toWorld);
    // frame 2: click together with a move
    var _, painted1, _ := app.Frame([p], Buttons(true, true, false), toWorld);
    // frame 3: button held, no move
    var changed2, painted2, _ := app.Frame([], Buttons(false, true, false), toWorld);
    first, second := painted1, painted2 && changed2;
  }
}
