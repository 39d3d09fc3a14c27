/** The game session: the bird, the pipes, the score and the leaderboard as
    the fields of one object, and the handlers that the frame scheduler, the
    spawn timer and the keyboard call on it. */
module FlappyBird {
  import opened Config
  import opened Geometry
  import opened Leaderboard
  import opened Pipes
  import opened Tick

  /** Key codes that make the bird jump. */
  predicate IsJumpKey(code: string): (r: bool)
    // no jump key is the retry key, so one key press never both jumps and retries
    ensures r ==> code != "Enter"
  {
    code == "Space" || code == "ArrowUp" || code == "KeyX"
  }

  class Game {
    var birdY: real
    var velocityY: real
    var pipes: seq<Pipe>
    var halfPoints: nat       // the score is halfPoints / 2
    var highScore: int
    var leaderboard: seq<Entry>
    var gameOver: bool
    var gameStarted: bool
    var playerName: string

    /** The fields that a frame changes, as one value. */
    function State(): Round
      reads this
    {
      Round(birdY, velocityY, pipes, Counts())
    }

    function Counts(): Tally
      reads this
    {
      Tally(halfPoints, gameOver, highScore, leaderboard)
    }

    /** The session invariant, RoundValid on the current state. */
    ghost predicate Valid()
      reads this
    {
      RoundValid(State())
    }

    /** Ticks and spawns have an effect only in this state. */
    predicate Running()
      reads this
    {
      gameStarted && !gameOver
    }

    function Score(): real
      reads this
    {
      halfPoints as real / 2.0
    }

    /** The state that a retry leaves behind. */
    ghost predicate IsFreshRound()
      reads this
    {
      birdY == BirdStartY && velocityY == 0.0 && pipes == [] && halfPoints == 0 && !gameOver
    }

    /** The module's initial values, before the player has started. */
    constructor ()
      ensures Valid() && IsFreshRound()
      ensures highScore == 0 && leaderboard == [] && !gameStarted && playerName == DefaultName
    {
      birdY := BirdStartY;
      velocityY := 0.0;
      pipes := [];
      halfPoints := 0;
      highScore := 0;
      leaderboard := [];
      gameOver := false;
      gameStarted := false;
      playerName := DefaultName;
    }

    /** The name field's change handler. */
    method SetPlayerName(value: string)
      modifies this`playerName
      ensures playerName == NameOrDefault(value)
    {
      playerName := if value == [] then DefaultName else value;
    }

    /** The start control: latches gameStarted; a second press changes nothing. */
    method StartGame()
      modifies this`gameStarted
      ensures gameStarted
      ensures old(gameStarted) ==> unchanged(this)
    {
      if !gameStarted {
        gameStarted := true;
      }
    }

    /** The state part of the game-over path: raise the high score if beaten,
        then push the entry, sort by descending score and keep five. */
    method ShowGameOver()
      modifies this`highScore, this`leaderboard
      ensures highScore == HighScoreAfter(old(highScore), halfPoints)
      ensures leaderboard == Record(old(leaderboard), Entry(playerName, FloorScore(halfPoints)))
    {
      if Score() > highScore as real {
        highScore := FloorScore(halfPoints);
      }
      leaderboard := leaderboard + [Entry(playerName, FloorScore(halfPoints))];
      leaderboard := SortByScore(leaderboard);
      leaderboard := Truncate(leaderboard, MaxEntries);
    }

    /** The spawn timer's handler, with r the random draw in [0, 1). */
    method PlacePipes(r: real)
      requires Valid() && 0.0 <= r < 1.0
      modifies this`pipes
      ensures Valid()
      ensures pipes == if old(Running()) then old(pipes) + SpawnPair(r) else old(pipes)
    {
      if gameOver || !gameStarted {
        return;
      }
      var randomPipeY := PipeY - PipeHeight / 4.0 - r * (PipeHeight / 2.0);
      var openingSpace := BoardHeight / 4.0;
      var topPipe := Pipe(PipeX, randomPipeY, PipeWidth, PipeHeight, false);
      pipes := pipes + [topPipe];
      var bottomPipe := Pipe(PipeX, randomPipeY + PipeHeight + openingSpace, PipeWidth, PipeHeight, false);
      pipes := pipes + [bottomPipe];
      SpawnKeepsValid(old(pipes), r);
    }

    /** The frame callback: nothing happens unless the game is running;
        otherwise the state moves on as Frame says. */
    method Update()
      requires Valid()
      modifies this`birdY, this`velocityY, this`pipes, this`halfPoints, this`gameOver, this`highScore, this`leaderboard
      ensures Valid()
      ensures if old(Running()) then State() == Frame(old(State()), playerName) else unchanged(this)
    {
      if gameOver || !gameStarted {
        return;
      }
      ghost var s := State();
      FrameKeepsValid(s, playerName);
      MoveBird();
      AdvancePipes();
      PruneExpired();
    }

    /** The bird part of a frame. */
    method MoveBird()
      modifies this`velocityY, this`birdY, this`gameOver, this`highScore, this`leaderboard
      ensures State() == Fall(old(State()), playerName)
    {
      velocityY := velocityY + Gravity;
      birdY := Max(birdY + velocityY, 0.0);
      if birdY > BoardHeight {
        gameOver := true;
        ShowGameOver();
      }
    }

    /** The pipe loop of a frame: each pipe in order moves, scores once when
        passed, and runs the game-over path when it hits the bird. */
    method AdvancePipes()
      modifies this`pipes, this`halfPoints, this`gameOver, this`highScore, this`leaderboard
      ensures State() == Sweep(old(State()), playerName)
    {
      ghost var start := Counts();
      ghost var before := pipes;
      var i := 0;
      while i < |pipes|
        invariant 0 <= i <= |pipes| == |before|
        invariant forall k :: 0 <= k < i ==> pipes[k] == Advance(before[k])
        invariant forall k :: i <= k < |pipes| ==> pipes[k] == before[k]
        invariant Counts() == Scan(birdY, playerName, before[..i], start)
      {
        VisitPipe(i);
        assert before[..i + 1][..i] == before[..i];
        i := i + 1;
      }
      assert before[..i] == before;
    }

    /** One iteration of the pipe loop, on the pipe at index i. */
    method VisitPipe(i: nat)
      requires i < |pipes|
      modifies this`pipes, this`halfPoints, this`gameOver, this`highScore, this`leaderboard
      ensures pipes == old(pipes)[i := Advance(old(pipes)[i])]
      ensures Counts() == Visit(old(Counts()), birdY, playerName, old(pipes)[i])
    {
      var pipe := pipes[i];
      pipe := pipe.(x := pipe.x + VelocityX);
      pipes := pipes[i := pipe];
      if !pipe.passed && BirdX > pipe.x + pipe.width {
        halfPoints := halfPoints + 1;
        pipe := pipe.(passed := true);
        pipes := pipes[i := pipe];
      }
      if DetectCollision(BirdBox(birdY), PipeBox(pipe)) {
        gameOver := true;
        ShowGameOver();
      }
    }

    /** Removes expired pipes from the front of the sequence, one at a time. */
    method PruneExpired()
      modifies this`pipes
      ensures State() == Prune(old(State()))
    {
      while |pipes| > 0 && pipes[0].x < -PipeWidth
        invariant DropExpired(pipes) == DropExpired(old(pipes))
      {
        pipes := pipes[1..];
      }
    }

    /** The retry action: a fresh round; the latch, the high score, the
        leaderboard and the name stay. */
    method ResetGame()
      requires Valid()
      modifies this`birdY, this`velocityY, this`pipes, this`halfPoints, this`gameOver
      ensures Valid() && IsFreshRound()
    {
      birdY := BirdStartY;
      velocityY := 0.0;
      pipes := [];
      halfPoints := 0;
      gameOver := false;
    }

    /** The keyboard handler: a jump key while running sets the velocity to
        the jump impulse (not added to it); Enter after a game over retries;
        every other key, or a key in the wrong state, changes nothing. */
    method HandleKey(code: string)
      requires Valid()
      modifies this`birdY, this`velocityY, this`pipes, this`halfPoints, this`gameOver
      ensures Valid()
      ensures IsJumpKey(code) && old(Running()) ==>
                velocityY == JumpVelocity && unchanged(this`birdY, this`pipes, this`halfPoints, this`gameOver)
      ensures old(gameOver) && code == "Enter" ==> IsFreshRound()
      ensures !(IsJumpKey(code) && old(Running())) && !(old(gameOver) && code == "Enter") ==> unchanged(this)
    {
      if IsJumpKey(code) && gameStarted && !gameOver {
        velocityY := JumpVelocity;
      }
      if gameOver && code == "Enter" {
        ResetGame();
      }
    }
  }
}
