/** The plain records shared by the generator: platforms, entity positions and small real helpers. */
module Geometry {

  /** An axis-aligned platform; `y` grows downwards, as on the canvas. */
  datatype Platform = Platform(x: real, y: real, width: real, height: real)

  /** Spawn position of a meme, a troll, a flying monster or the finish. */
  datatype Pos = Pos(x: real, y: real)

  datatype Option<T> = None | Some(value: T)

  function Min(a: real, b: real): real { if a <= b then a else b }

  function Max(a: real, b: real): real { if a >= b then a else b }

  function Abs(r: real): real { if r < 0.0 then -r else r }

  /** How far the player can jump: it spaces the builders' platforms and sets the repair pass's bridge threshold. */
  const JUMP_DISTANCE: real := 120.0
}
