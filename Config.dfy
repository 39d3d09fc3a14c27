/** The fixed dimensions and physics constants of the game (board, bird, pipes). */
module Config {
  // Board
  const BoardWidth: real := 480.0
  const BoardHeight: real := 720.0

  // Bird: x is fixed for the whole session, y starts in the middle of the board
  const BirdWidth: real := 68.0
  const BirdHeight: real := 48.0
  const BirdX: real := BoardWidth / 8.0
  const BirdStartY: real := BoardHeight / 2.0

  // Pipes
  const PipeWidth: real := 64.0
  const PipeHeight: real := 512.0
  const PipeX: real := BoardWidth  // spawned at the right edge
  const PipeY: real := 0.0

  // Physics
  const VelocityX: real := -4.0
  const Gravity: real := 0.3
  const JumpVelocity: real := -6.0

  /** Name recorded on the leaderboard when the player gives none. */
  const DefaultName: string := "Player"

  /** `Math.min` and `Math.max` on reals. */
  function Min(a: real, b: real): real { if a <= b then a else b }
  function Max(a: real, b: real): real { if a >= b then a else b }
}
