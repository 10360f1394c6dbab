/**
 * The game session as a value, and every transition of the game-state machine as a pure
 * function of it: what handleInput, startGame, restart, gameOver and update do to the fields.
 */
module Rules {
  import opened Config
  import opened Geometry
  import opened Pipes

  datatype Phase = Start | Playing | GameOver

  /** The bird's changing fields; x, size, gravity and jump are constants. */
  datatype Bird = Bird(y: real, velocity: real, rotation: real)

  datatype Session = Session(
    gameState: Phase,
    score: nat,
    highScore: int,
    bird: Bird,
    pipes: seq<Pipe>,
    frameCount: nat)

  const StartBird: Bird := Bird(BirdStartY, 0.0, 0.0)

  function BirdRect(b: Bird): Rect { Rect(BirdX, b.y, BirdWidth, BirdHeight) }

  /** The display angle for a velocity: three degrees per unit, clamped to [-30, 90]. */
  function Tilt(velocity: real): (r: real)
    ensures -30.0 <= r <= 90.0
    ensures -30.0 <= velocity * 3.0 <= 90.0 ==> r == velocity * 3.0
    ensures velocity * 3.0 < -30.0 ==> r == -30.0
    ensures velocity * 3.0 > 90.0 ==> r == 90.0
  {
    Min(Max(velocity * 3.0, -30.0), 90.0)
  }

  /** The bird overlaps the top or the bottom segment of this pipe. */
  predicate PipeHit(b: Bird, p: Pipe)
  {
    IsColliding(BirdRect(b), TopRect(p)) || IsColliding(BirdRect(b), BottomRect(p))
  }

  /** The bird overlaps some live pipe. */
  predicate Collides(b: Bird, ps: seq<Pipe>)
  {
    exists j :: 0 <= j < |ps| && PipeHit(b, ps[j])
  }

  /** The bird's bottom edge is below the ground line, or its top edge above the playfield. */
  predicate OutOfBounds(b: Bird)
  {
    b.y + BirdHeight > CanvasHeight - GroundHeight || b.y < 0.0
  }

  /** The session as constructed, with the best score read from storage. */
  function Initial(storedHighScore: int): Session
  {
    Session(Start, 0, storedHighScore, StartBird, [], 0)
  }

  /** startGame: playing, with one upward impulse. */
  function Started(s: Session): Session
  {
    s.(gameState := Playing, bird := s.bird.(velocity := Jump))
  }

  /** A jump while playing. */
  function Flapped(s: Session): Session
  {
    s.(bird := s.bird.(velocity := Jump))
  }

  /** restart: a fresh round; only the best score survives. */
  function Restarted(s: Session): Session
  {
    s.(gameState := Playing, score := 0, bird := StartBird, pipes := [], frameCount := 0)
  }

  /** gameOver: the round ends and the score is folded into the best score. */
  function Ended(s: Session): Session
  {
    s.(gameState := GameOver, highScore := if s.score > s.highScore then s.score else s.highScore)
  }

  /** handleInput: what a key press, click or touch does in each state. */
  function AfterInput(s: Session): Session
  {
    match s.gameState
    case Start => Started(s)
    case Playing => Flapped(s)
    case GameOver => Restarted(s)
  }

  /** The bird after one frame of semi-implicit Euler integration. */
  function Fallen(b: Bird): Bird
  {
    var velocity := b.velocity + Gravity;
    Bird(b.y + velocity, velocity, Tilt(velocity))
  }

  /** The first part of a frame in play: count the frame and move the bird. */
  function Ticked(s: Session): Session
  {
    s.(frameCount := s.frameCount + 1, bird := Fallen(s.bird))
  }

  /** spawnPipe, on the frames whose count is a multiple of the spawn rate. */
  function WithSpawn(s: Session, r: real): Session
    requires 0.0 <= r < 1.0
  {
    if s.frameCount % PipeSpawnRate == 0 then s.(pipes := s.pipes + [Spawned(r)]) else s
  }

  /** updatePipes: advance the pipes and add the points they earn. */
  function Scrolled(s: Session): Session
  {
    s.(pipes := Advance(s.pipes), score := s.score + Passes(s.pipes))
  }

  /** checkCollisions: the round ends if the bird overlaps a pipe. */
  function Checked(s: Session): Session
  {
    if Collides(s.bird, s.pipes) then Ended(s) else s
  }

  /** The bounds check: the round ends if the bird left the playfield. */
  function Bounded(s: Session): Session
  {
    if OutOfBounds(s.bird) then Ended(s) else s
  }

  /** update: one frame, given the random fraction a spawn in this frame would use. */
  function Stepped(s: Session, r: real): Session
    requires 0.0 <= r < 1.0
  {
    if s.gameState != Playing then s
    else Bounded(Checked(Scrolled(WithSpawn(Ticked(s), r))))
  }

  /** What holds of every reachable session between frames and inputs. */
  ghost predicate Inv(s: Session)
  {
    PipesValid(s.pipes) &&
    -30.0 <= s.bird.rotation <= 90.0 &&
    (s.gameState == Start ==> s.score == 0 && s.bird == StartBird && s.pipes == [] && s.frameCount == 0) &&
    (s.gameState == GameOver ==> s.highScore >= s.score)
  }

  /** Ending the round twice is the same as ending it once. */
  lemma EndedIsIdempotent(s: Session)
    ensures Ended(Ended(s)) == Ended(s)
    ensures Ended(s).gameState == GameOver
    ensures Ended(s).highScore >= s.highScore && Ended(s).highScore >= s.score
    ensures Ended(s).highScore == s.highScore || Ended(s).highScore == s.score
    ensures Ended(s) == s.(gameState := GameOver, highScore := Ended(s).highScore)
  {
  }

  /** The three input transitions. */
  lemma InputTransitions(s: Session)
    ensures s.gameState == Start ==>
      AfterInput(s).gameState == Playing && AfterInput(s).bird.velocity == Jump &&
      AfterInput(s) == s.(gameState := Playing, bird := s.bird.(velocity := Jump))
    ensures s.gameState == Playing ==>
      AfterInput(s) == s.(bird := Bird(s.bird.y, Jump, s.bird.rotation))
    ensures s.gameState == GameOver ==> AfterInput(s) == Restarted(s)
  {
  }

  /** Restart yields a fresh round whatever the state, keeping only the best score. */
  lemma RestartResets(s: Session)
    ensures Restarted(s).gameState == Playing && Restarted(s).score == 0
    ensures Restarted(s).bird == Bird(250.0, 0.0, 0.0)
    ensures Restarted(s).pipes == [] && Restarted(s).frameCount == 0
    ensures Restarted(s).highScore == s.highScore
  {
  }

  /** A frame outside play changes nothing. */
  lemma StepIdleUnlessPlaying(s: Session, r: real)
    requires 0.0 <= r < 1.0
    requires s.gameState != Playing
    ensures Stepped(s, r) == s
  {
  }

  /** The semi-implicit Euler step, the clamped rotation and the frame counter. */
  lemma StepPhysics(s: Session, r: real)
    requires 0.0 <= r < 1.0
    requires s.gameState == Playing
    ensures Stepped(s, r).bird.velocity == s.bird.velocity + 0.5
    ensures Stepped(s, r).bird.y == s.bird.y + Stepped(s, r).bird.velocity
    ensures -30.0 <= Stepped(s, r).bird.rotation <= 90.0
    ensures Stepped(s, r).bird.rotation == Tilt(s.bird.velocity + 0.5)
    ensures Stepped(s, r).frameCount == s.frameCount + 1
  {
  }

  /** From rest at the start height, one frame falls half a unit. */
  lemma FirstFrameFromRest(s: Session, r: real)
    requires 0.0 <= r < 1.0
    requires s.gameState == Playing && s.bird == StartBird
    ensures Stepped(s, r).bird == Bird(250.5, 0.5, 1.5)
  {
  }

  /**
   * The pipe list and score after a frame: the old pipes advanced, with a new pipe appended
   * exactly when the new frame count is a multiple of 90; the score rises by the old pipes'
   * newly passed count (the new pipe cannot score in its first frame).
   */
  lemma StepPipes(s: Session, r: real)
    requires 0.0 <= r < 1.0
    requires s.gameState == Playing
    ensures var spawn := (s.frameCount + 1) % PipeSpawnRate == 0;
      Stepped(s, r).pipes == Advance(s.pipes) + (if spawn then [Moved(Spawned(r))] else [])
    ensures Stepped(s, r).score == s.score + Passes(s.pipes)
  {
    if (s.frameCount + 1) % PipeSpawnRate == 0 {
      AdvanceAppend(s.pipes, [Spawned(r)]);
      assert Advance([Spawned(r)]) == [Moved(Spawned(r))] + Advance([]);
    }
  }

  /**
   * A frame in play ends the round exactly when the bird, after moving, overlaps a pipe or
   * leaves the playfield; the best score then absorbs the round's score, once.
   */
  lemma StepEndsRound(s: Session, r: real)
    requires 0.0 <= r < 1.0
    requires s.gameState == Playing
    ensures var t := Stepped(s, r);
      (t.gameState == GameOver <==> Collides(t.bird, t.pipes) || OutOfBounds(t.bird)) &&
      (t.gameState != GameOver ==> t.gameState == Playing && t.highScore == s.highScore) &&
      (t.gameState == GameOver ==> t.highScore == if t.score > s.highScore then t.score else s.highScore)
  {
  }

  /** Within a round the score never decreases, and the best score never decreases at all. */
  lemma StepMonotone(s: Session, r: real)
    requires 0.0 <= r < 1.0
    ensures Stepped(s, r).score >= s.score
    ensures Stepped(s, r).highScore >= s.highScore
    ensures AfterInput(s).highScore == s.highScore
  {
  }

  lemma InitialIsValid(storedHighScore: int)
    ensures Inv(Initial(storedHighScore))
  {
  }

  lemma TransitionsKeepInv(s: Session)
    requires Inv(s)
    ensures Inv(Started(s)) && Inv(Restarted(s)) && Inv(Ended(s))
    ensures s.gameState == Playing ==> Inv(Flapped(s))
    ensures Inv(AfterInput(s))
  {
  }

  /**
   * A frame keeps the session invariant: t is the session one frame after s. The after-state
   * is a parameter rather than Stepped(s, r) in the ensures only to keep the caller's proof
   * small: FlappyBird.Update passes its own snapshot, so the solver need not unfold Stepped
   * under the invariant's quantifiers there.
   */
  lemma StepKeepsInv(s: Session, r: real, t: Session)
    requires 0.0 <= r < 1.0
    requires Inv(s) && t == Stepped(s, r)
    ensures Inv(t)
  {
    if s.gameState == Playing {
      var pipes := if (s.frameCount + 1) % PipeSpawnRate == 0 then s.pipes + [Spawned(r)] else s.pipes;
      if (s.frameCount + 1) % PipeSpawnRate == 0 {
        SpawnKeepsValid(s.pipes, r);
      }
      assert WithSpawn(Ticked(s), r).pipes == pipes;
      AdvanceKeepsValid(pipes);
    }
  }
}
