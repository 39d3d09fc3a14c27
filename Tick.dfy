/** The pipe loop of one tick, on values: for each pipe in order, advance it,
    award half a point when its flag flips, and run the game-over path when
    it collides with the bird.  The loop does not stop at the first game
    over, so one tick can record several leaderboard entries. */
module Tick {
  import opened Config
  import opened Geometry
  import opened Leaderboard
  import opened Pipes

  function BirdBox(birdY: real): Rect
  {
    Rect(BirdX, birdY, BirdWidth, BirdHeight)
  }

  function PipeBox(p: Pipe): Rect
  {
    Rect(p.x, p.y, p.width, p.height)
  }

  predicate Hits(birdY: real, p: Pipe): (r: bool)
    // only a pipe overlapping the bird's columns hits it, so a passed pipe never does
    ensures r ==> p.x < BirdX + BirdWidth && !Passes(p)
  {
    DetectCollision(BirdBox(birdY), PipeBox(p))
  }

  /** The bird has fallen below the bottom of the board. */
  predicate OutOfBounds(birdY: real): (r: bool)
    // the test is on the bird's top edge, so an out-of-bounds bird is wholly below the board
    ensures r ==> !DetectCollision(BirdBox(birdY), Rect(0.0, 0.0, BoardWidth, BoardHeight))
  {
    birdY > BoardHeight
  }

  /** The part of the game state that the pipe loop and the game-over path change:
      the score (in half points), the game-over flag, the high score and the leaderboard. */
  datatype Tally = Tally(halfPoints: nat, gameOver: bool, highScore: int, leaderboard: seq<Entry>)

  /** The game-over path: set the flag, then record floor(score) for the player. */
  function EndGame(t: Tally, name: string): (u: Tally)
    ensures u.gameOver && u.halfPoints == t.halfPoints
    ensures u.highScore >= t.highScore && u.highScore >= FloorScore(t.halfPoints)
  {
    Tally(t.halfPoints, true, HighScoreAfter(t.highScore, t.halfPoints),
          Record(t.leaderboard, Entry(name, FloorScore(t.halfPoints))))
  }

  /** The game-over path keeps the high score and the leaderboard consistent. */
  lemma EndGameKeepsConsistent(t: Tally, name: string)
    requires Consistent(t.highScore, t.leaderboard)
    ensures Consistent(EndGame(t, name).highScore, EndGame(t, name).leaderboard)
  {
    GameOverKeepsConsistent(t.highScore, t.leaderboard, name, t.halfPoints);
  }

  /** One iteration of the pipe loop, for the pipe p as it was before the tick. */
  function Visit(t: Tally, birdY: real, name: string, p: Pipe): (u: Tally)
    ensures u.halfPoints == t.halfPoints + (if Flips(p) then 1 else 0)
    ensures u.gameOver <==> t.gameOver || Hits(birdY, Advance(p))
    ensures u.highScore >= t.highScore
    ensures !Hits(birdY, Advance(p)) ==> u.highScore == t.highScore && u.leaderboard == t.leaderboard
  {
    var moved := p.(x := p.x + VelocityX);
    var scored := if !moved.passed && Passes(moved) then t.(halfPoints := t.halfPoints + 1) else t;
    if Hits(birdY, Advance(p)) then EndGame(scored, name) else scored
  }

  /** The pipe loop over ps, left to right, starting from t. */
  function Scan(birdY: real, name: string, ps: seq<Pipe>, t: Tally): (u: Tally)
    ensures u.halfPoints >= t.halfPoints && u.highScore >= t.highScore
    ensures t.gameOver ==> u.gameOver
  {
    if ps == [] then t else Visit(Scan(birdY, name, ps[..|ps| - 1], t), birdY, name, ps[|ps| - 1])
  }

  /** How many pipes of ps the bird collides with once they have advanced. */
  function HitCount(birdY: real, ps: seq<Pipe>): (n: nat)
    ensures n <= |ps|
  {
    if ps == [] then 0 else HitCount(birdY, ps[..|ps| - 1]) + (if Hits(birdY, Advance(ps[|ps| - 1])) then 1 else 0)
  }

  /** The score rises by half a point exactly for each flag that flips. */
  lemma {:induction false} ScanScore(birdY: real, name: string, ps: seq<Pipe>, t: Tally)
    ensures Scan(birdY, name, ps, t).halfPoints == t.halfPoints + NewlyPassed(ps)
  {
    if ps != [] {
      ScanScore(birdY, name, ps[..|ps| - 1], t);
    }
  }

  /** The game-over flag at the end of the loop, in terms of the hit count. */
  lemma {:induction false} ScanGameOverCount(birdY: real, name: string, ps: seq<Pipe>, t: Tally)
    ensures Scan(birdY, name, ps, t).gameOver <==> t.gameOver || HitCount(birdY, ps) > 0
  {
    if ps != [] {
      ScanGameOverCount(birdY, name, ps[..|ps| - 1], t);
    }
  }

  /** The hit count is positive exactly when some advanced pipe hits the bird. */
  lemma {:induction false} HitCountPositive(birdY: real, ps: seq<Pipe>)
    ensures HitCount(birdY, ps) > 0 <==> exists i :: 0 <= i < |ps| && Hits(birdY, Advance(ps[i]))
  {
    if ps != [] {
      var init := ps[..|ps| - 1];
      HitCountPositive(birdY, init);
      if HitCount(birdY, init) > 0 {
        var i :| 0 <= i < |init| && Hits(birdY, Advance(init[i]));
        assert ps[i] == init[i];
      } else if exists i :: 0 <= i < |ps| && Hits(birdY, Advance(ps[i])) {
        var i :| 0 <= i < |ps| && Hits(birdY, Advance(ps[i]));
        if i < |init| {
          assert init[i] == ps[i];
        }
      }
    }
  }

  /** The tick ends in game over exactly when it started so or some advanced
      pipe collides with the bird. */
  lemma ScanGameOver(birdY: real, name: string, ps: seq<Pipe>, t: Tally)
    ensures Scan(birdY, name, ps, t).gameOver <==>
            t.gameOver || exists i :: 0 <= i < |ps| && Hits(birdY, Advance(ps[i]))
  {
    ScanGameOverCount(birdY, name, ps, t);
    HitCountPositive(birdY, ps);
  }

  /** Every collision records one entry (until the leaderboard is full), and
      the high score never goes down; with no collision neither changes. */
  lemma {:induction false} ScanRecords(birdY: real, name: string, ps: seq<Pipe>, t: Tally)
    requires |t.leaderboard| <= MaxEntries
    ensures |Scan(birdY, name, ps, t).leaderboard| ==
            if |t.leaderboard| + HitCount(birdY, ps) < MaxEntries then |t.leaderboard| + HitCount(birdY, ps) else MaxEntries
    ensures Scan(birdY, name, ps, t).highScore >= t.highScore
    ensures HitCount(birdY, ps) == 0 ==>
              Scan(birdY, name, ps, t).highScore == t.highScore && Scan(birdY, name, ps, t).leaderboard == t.leaderboard
  {
    if ps != [] {
      ScanRecords(birdY, name, ps[..|ps| - 1], t);
    }
  }

  /** The pipe loop keeps the high score and the leaderboard consistent. */
  lemma {:induction false} ScanKeepsConsistent(birdY: real, name: string, ps: seq<Pipe>, t: Tally)
    requires Consistent(t.highScore, t.leaderboard)
    ensures Consistent(Scan(birdY, name, ps, t).highScore, Scan(birdY, name, ps, t).leaderboard)
  {
    if ps != [] {
      var prev := Scan(birdY, name, ps[..|ps| - 1], t);
      ScanKeepsConsistent(birdY, name, ps[..|ps| - 1], t);
      var p := ps[|ps| - 1];
      var moved := p.(x := p.x + VelocityX);
      var scored := if !moved.passed && Passes(moved) then prev.(halfPoints := prev.halfPoints + 1) else prev;
      EndGameKeepsConsistent(scored, name);
    }
  }

  /** The part of the game state that one frame changes: the bird, the pipes
      and the tally. */
  datatype Round = Round(birdY: real, velocityY: real, pipes: seq<Pipe>, tally: Tally)

  /** The bird is never above the board, the pipes are well formed and in
      order, and the high score is the top of a sorted leaderboard of at most
      five entries. */
  predicate RoundValid(s: Round)
  {
    s.birdY >= 0.0 && PipesValid(s.pipes) && Consistent(s.tally.highScore, s.tally.leaderboard)
  }

  /** The bird part of a frame: gravity, the ceiling clamp (which leaves the
      velocity alone), and the game-over path when the bird leaves the bottom. */
  function Fall(s: Round, name: string): (u: Round)
    ensures u.birdY >= 0.0 && u.pipes == s.pipes
  {
    var v := s.velocityY + Gravity;
    var y := Max(s.birdY + v, 0.0);
    Round(y, v, s.pipes, if OutOfBounds(y) then EndGame(s.tally, name) else s.tally)
  }

  /** The pipe loop of a frame. */
  function Sweep(s: Round, name: string): (u: Round)
    ensures u.birdY == s.birdY && u.velocityY == s.velocityY
    ensures |u.pipes| == |s.pipes|
    ensures forall i :: 0 <= i < |s.pipes| ==> u.pipes[i].x == s.pipes[i].x + VelocityX
    ensures u.tally.halfPoints >= s.tally.halfPoints && (s.tally.gameOver ==> u.tally.gameOver)
  {
    s.(pipes := AdvanceAll(s.pipes), tally := Scan(s.birdY, name, s.pipes, s.tally))
  }

  /** The pruning of expired pipes at the end of a frame. */
  function Prune(s: Round): (u: Round)
    ensures u.birdY == s.birdY && u.velocityY == s.velocityY && u.tally == s.tally
    ensures |u.pipes| <= |s.pipes| && u.pipes == s.pipes[|s.pipes| - |u.pipes|..]
    ensures u.pipes == [] || !Expired(u.pipes[0])
  {
    s.(pipes := DropExpired(s.pipes))
  }

  /** One running frame, in the source's order. */
  function Frame(s: Round, name: string): (u: Round)
    ensures u.velocityY == s.velocityY + Gravity
    ensures u.birdY >= 0.0 && (s.birdY + u.velocityY >= 0.0 ==> u.birdY == s.birdY + u.velocityY)
    ensures s.birdY + u.velocityY < 0.0 ==> u.birdY == 0.0
    ensures u.pipes == DropExpired(AdvanceAll(s.pipes))
  {
    Prune(Sweep(Fall(s, name), name))
  }

  /** A frame keeps the session invariant. */
  lemma FrameKeepsValid(s: Round, name: string)
    requires RoundValid(s)
    ensures RoundValid(Frame(s, name))
  {
    var f := Fall(s, name);
    if OutOfBounds(f.birdY) {
      EndGameKeepsConsistent(s.tally, name);
    }
    TickKeepsValid(s.pipes);
    ScanKeepsConsistent(f.birdY, name, s.pipes, f.tally);
  }

  /** A frame adds half a point for each flag that flips, and nothing else. */
  lemma FrameScore(s: Round, name: string)
    ensures Frame(s, name).tally.halfPoints == s.tally.halfPoints + NewlyPassed(s.pipes)
  {
    ScanScore(Fall(s, name).birdY, name, s.pipes, Fall(s, name).tally);
  }

  /** A frame from a running state ends the game exactly when the bird fell
      out of the board or collides with some advanced pipe. */
  lemma FrameGameOver(s: Round, name: string)
    requires !s.tally.gameOver
    ensures Frame(s, name).tally.gameOver <==>
            OutOfBounds(Frame(s, name).birdY) ||
            exists i :: 0 <= i < |s.pipes| && Hits(Frame(s, name).birdY, Advance(s.pipes[i]))
  {
    ScanGameOver(Fall(s, name).birdY, name, s.pipes, Fall(s, name).tally);
  }

  /** Each game over in a frame records one entry until the board is full;
      the high score never drops; a frame without game over keeps both. */
  lemma FrameRecords(s: Round, name: string)
    requires |s.tally.leaderboard| <= MaxEntries
    ensures var u := Frame(s, name);
            var n := |s.tally.leaderboard| + (if OutOfBounds(u.birdY) then 1 else 0) + HitCount(u.birdY, s.pipes);
            |u.tally.leaderboard| == (if n < MaxEntries then n else MaxEntries)
    ensures Frame(s, name).tally.highScore >= s.tally.highScore
    ensures !OutOfBounds(Frame(s, name).birdY) && HitCount(Frame(s, name).birdY, s.pipes) == 0 ==>
              Frame(s, name).tally.highScore == s.tally.highScore &&
              Frame(s, name).tally.leaderboard == s.tally.leaderboard
  {
    var f := Fall(s, name);
    var u := Frame(s, name);
    assert u.birdY == f.birdY && u.tally == Scan(f.birdY, name, s.pipes, f.tally);
    ScanRecords(f.birdY, name, s.pipes, f.tally);
  }

  /** A game over at 4.5 points with no high score yet: the high score
      becomes 4 and the leaderboard holds the single entry 4. */
  lemma GameOverAtFourAndAHalf(name: string)
    ensures EndGame(Tally(9, false, 0, []), name) == Tally(9, true, 4, [Entry(name, 4)])
  {
    RecordIsInsertion([], Entry(name, 4));
  }

  /** A bird that falls out of the board beside a bottom pipe ends the game
      twice in the same frame, so the leaderboard gets two entries. */
  lemma FallAndCollideRecordsTwice(name: string)
    ensures |Frame(Round(715.0, 14.7, [Pipe(100.0, 500.0, PipeWidth, PipeHeight, false)], Tally(3, false, 0, [])),
                   name).tally.leaderboard| == 2
  {
    var p := Pipe(100.0, 500.0, PipeWidth, PipeHeight, false);
    var s := Round(715.0, 14.7, [p], Tally(3, false, 0, []));
    assert Fall(s, name).birdY == 730.0;
    assert Hits(730.0, Advance(p));
    assert [p][..0] == [];
    assert HitCount(730.0, [p]) == 1;
    FrameRecords(s, name);
  }
}
