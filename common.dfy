/** Small value types shared by the chunk store, the editor and the cursor tracking. */
module Common {

  datatype Option<+T> = None | Some(value: T)

  /** A two-component vector: a cursor position in viewport pixels or a point in world space.
      The source uses 32-bit floats; the model uses exact reals. */
  datatype Vec2 = Vec2(x: real, y: real)

  const ZERO: Vec2 := Vec2(0.0, 0.0)
}
