/** The fixed dimensions and tuning constants that the FlappyBird constructor sets once. */
module Config {
  /** Playfield (canvas) size. */
  const CanvasWidth: real := 400.0
  const CanvasHeight: real := 600.0
  /** Height of the ground strip drawn along the bottom of the playfield. */
  const GroundHeight: real := 50.0

  /** The bird's fixed horizontal position, its size, start height and kinematics. */
  const BirdX: real := 80.0
  const BirdStartY: real := 250.0
  const BirdWidth: real := 30.0
  const BirdHeight: real := 30.0
  const Gravity: real := 0.5
  const Jump: real := -5.0

  /** Pipe width, vertical gap, leftward speed per frame, and frames between spawns. */
  const PipeWidth: real := 60.0
  const PipeGap: real := 150.0
  const PipeSpeed: real := 3.0
  const PipeSpawnRate: nat := 90
}
