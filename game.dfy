/**
 * The FlappyBird object: its fields and the methods that change them in place. Each method is
 * proved to leave the object in the session its transition function in Rules prescribes.
 */
module Game {
  import opened Config
  import opened Geometry
  import opened Pipes
  import opened Rules

  /** The pipe the backward walk reaches at i has not been touched yet. */
  lemma WalkReadsOriginal(walked: seq<Pipe>, i: int, cur: seq<Pipe>)
    requires 0 <= i < |walked|
    requires cur == walked[..i + 1] + Advance(walked[i + 1..])
    ensures i < |cur| && cur[i] == walked[i]
  {
    assert cur[i] == walked[..i + 1][i];
  }

  /** One iteration of the backward walk extends the processed suffix by one pipe. */
  lemma WalkStep(walked: seq<Pipe>, i: int, cur: seq<Pipe>, next: seq<Pipe>)
    requires 0 <= i < |walked|
    requires cur == walked[..i + 1] + Advance(walked[i + 1..])
    requires var written := cur[i := Moved(walked[i])];
      next == if OnScreen(Moved(walked[i])) then written else written[..i] + written[i + 1..]
    ensures next == walked[..i] + Advance(walked[i..])
  {
    AdvanceAt(walked, i);
    var written := cur[i := Moved(walked[i])];
    assert written == walked[..i] + [Moved(walked[i])] + Advance(walked[i + 1..]);
    if !OnScreen(Moved(walked[i])) {
      assert written[..i] == walked[..i];
      assert written[i + 1..] == Advance(walked[i + 1..]);
    }
  }

  class FlappyBird {
    var gameState: Phase
    var score: nat
    var highScore: int
    var bird: Bird
    var pipes: seq<Pipe>
    var frameCount: nat

    /** The object's fields as a session value. */
    ghost function State(): Session
      reads this
    {
      Session(gameState, score, highScore, bird, pipes, frameCount)
    }

    ghost predicate Valid()
      reads this
    {
      Inv(State())
    }

    /** A new game in the start state; the best score is whatever storage held. */
    constructor (storedHighScore: int)
      ensures Valid()
      ensures State() == Initial(storedHighScore)
    {
      gameState := Start;
      score := 0;
      highScore := storedHighScore;
      bird := Bird(BirdStartY, 0.0, 0.0);
      pipes := [];
      frameCount := 0;
    }

    method HandleInput()
      modifies this
      ensures old(Valid()) ==> Valid()
      ensures State() == AfterInput(old(State()))
    {
      if gameState == Start {
        StartGame();
      } else if gameState == Playing {
        bird := bird.(velocity := Jump);
      } else if gameState == Phase.GameOver {
        Restart();
      }
      if old(Valid()) {
        TransitionsKeepInv(old(State()));
      }
    }

    method StartGame()
      modifies this
      ensures old(Valid()) ==> Valid()
      ensures State() == Started(old(State()))
    {
      gameState := Playing;
      bird := bird.(velocity := Jump);
      if old(Valid()) {
        TransitionsKeepInv(old(State()));
      }
    }

    method Restart()
      modifies this
      ensures old(Valid()) ==> Valid()
      ensures State() == Restarted(old(State()))
    {
      gameState := Playing;
      score := 0;
      bird := bird.(y := BirdStartY);
      bird := bird.(velocity := 0.0);
      bird := bird.(rotation := 0.0);
      pipes := [];
      frameCount := 0;
      if old(Valid()) {
        TransitionsKeepInv(old(State()));
      }
    }

    /** One frame; r is the random fraction a spawn in this frame draws. */
    method Update(r: real)
      requires 0.0 <= r < 1.0
      modifies this
      ensures old(Valid()) ==> Valid()
      ensures State() == Stepped(old(State()), r)
    {
      if gameState != Playing {
        return;
      }
      ghost var s := State();
      frameCount := frameCount + 1;

      bird := bird.(velocity := bird.velocity + Gravity);
      bird := bird.(y := bird.y + bird.velocity);
      bird := bird.(rotation := Min(Max(bird.velocity * 3.0, -30.0), 90.0));
      assert State() == Ticked(s);

      if frameCount % PipeSpawnRate == 0 {
        SpawnPipe(r);
      }
      assert State() == WithSpawn(Ticked(s), r);
      UpdatePipes();
      CheckCollisions();
      if bird.y + BirdHeight > CanvasHeight - GroundHeight || bird.y < 0.0 {
        GameOver();
      }
      ghost var t := State();
      if Inv(s) {
        StepKeepsInv(s, r, t);
      }
    }

    method SpawnPipe(r: real)
      requires 0.0 <= r < 1.0
      modifies this
      ensures State() == old(State()).(pipes := old(pipes) + [Spawned(r)])
    {
      var minHeight := MinTopHeight;
      var maxHeight := CanvasHeight - PipeGap - 100.0;
      var topHeight := r * (maxHeight - minHeight) + minHeight;
      pipes := pipes + [Pipe(CanvasWidth, topHeight, topHeight + PipeGap,
                             CanvasHeight - (topHeight + PipeGap) - GroundHeight, false)];
    }

    /**
     * Walks the pipes from last to first: shifts each left, scores it if the bird has just
     * passed it, and splices it out if it has left the playfield.
     */
    method UpdatePipes()
      modifies this
      ensures State() == Scrolled(old(State()))
    {
      var i := |pipes| - 1;
      while i >= 0
        invariant -1 <= i < |old(pipes)|
        invariant pipes == old(pipes)[..i + 1] + Advance(old(pipes)[i + 1..])
        invariant score == old(score) + Passes(old(pipes)[i + 1..])
        invariant gameState == old(gameState) && highScore == old(highScore)
        invariant bird == old(bird) && frameCount == old(frameCount)
      {
        ghost var before := pipes;
        var pipe := pipes[i];
        WalkReadsOriginal(old(pipes), i, before);
        pipe := pipe.(x := pipe.x - PipeSpeed);
        if !pipe.passed && pipe.x + PipeWidth < BirdX {
          pipe := pipe.(passed := true);
          score := score + 1;
        }
        pipes := pipes[i := pipe];
        if pipe.x + PipeWidth < 0.0 {
          pipes := pipes[..i] + pipes[i + 1..];
        }
        WalkStep(old(pipes), i, before, pipes);
        i := i - 1;
      }
      assert old(pipes)[0..] == old(pipes);
    }

    /** Ends the round at the first pipe the bird overlaps, top segment before bottom. */
    method CheckCollisions()
      modifies this
      ensures State() == Checked(old(State()))
    {
      var i := 0;
      while i < |pipes|
        invariant 0 <= i <= |pipes|
        invariant State() == old(State())
        invariant forall j :: 0 <= j < i ==> !PipeHit(bird, pipes[j])
      {
        var pipe := pipes[i];
        if IsColliding(BirdRect(bird), Rect(pipe.x, 0.0, PipeWidth, pipe.topHeight)) {
          GameOver();
          return;
        }
        if IsColliding(BirdRect(bird), Rect(pipe.x, pipe.bottomY, PipeWidth, pipe.bottomHeight)) {
          GameOver();
          return;
        }
        i := i + 1;
      }
    }

    method GameOver()
      modifies this
      ensures old(Valid()) ==> Valid()
      ensures State() == Ended(old(State()))
    {
      gameState := Phase.GameOver;
      if score > highScore {
        highScore := score;
      }
      if old(Valid()) {
        TransitionsKeepInv(old(State()));
      }
    }
  }
}
