/** Pipe records: how a pair is spawned, how a pipe moves and is scored on a
    tick, how expired pipes leave the front, and the invariant the pipe
    sequence keeps. */
module Pipes {
  import opened Config

  datatype Pipe = Pipe(x: real, y: real, width: real, height: real, passed: bool)

  /** The top pipe's y for a random draw r in [0, 1): a quarter to three
      quarters of a pipe height above the board. */
  function TopPipeY(r: real): (y: real)
    requires 0.0 <= r < 1.0
    ensures -384.0 < y <= -128.0
  {
    PipeY - PipeHeight / 4.0 - r * (PipeHeight / 2.0)
  }

  /** The pair appended by one spawn: top pipe first, then the bottom one
      below an opening of a quarter of the board height. */
  function SpawnPair(r: real): (pair: seq<Pipe>)
    requires 0.0 <= r < 1.0
    ensures |pair| == 2
    ensures pair[0].x == PipeX && pair[1].x == PipeX
    ensures !pair[0].passed && !pair[1].passed
    ensures pair[1].y - (pair[0].y + PipeHeight) == BoardHeight / 4.0
    ensures -384.0 < pair[0].y <= -128.0
    ensures forall i :: 0 <= i < 2 ==> pair[i].width == PipeWidth && pair[i].height == PipeHeight
  {
    var top := TopPipeY(r);
    var openingSpace := BoardHeight / 4.0;
    [Pipe(PipeX, top, PipeWidth, PipeHeight, false),
     Pipe(PipeX, top + PipeHeight + openingSpace, PipeWidth, PipeHeight, false)]
  }

  /** The bird's x is beyond the pipe's trailing edge. */
  predicate Passes(p: Pipe): (r: bool)
    // for a standard-width pipe: its left edge is more than 4 left of the board
    ensures p.width == PipeWidth ==> (r <==> p.x < -4.0)
  {
    BirdX > p.x + p.width
  }

  /** One tick for one pipe: it moves left by VelocityX, then it is marked
      passed if it was not and the bird is now beyond it. */
  function Advance(p: Pipe): (q: Pipe)
    ensures q.x == p.x - 4.0 && q.y == p.y && q.width == p.width && q.height == p.height
    ensures p.passed ==> q.passed
    ensures q.passed <==> p.passed || Passes(q)
  {
    var moved := p.(x := p.x + VelocityX);
    if !moved.passed && Passes(moved) then moved.(passed := true) else moved
  }

  /** The pipe's passed flag goes from false to true on this tick. */
  predicate Flips(p: Pipe)
  {
    !p.passed && Advance(p).passed
  }

  /** Every pipe of the sequence advanced, in place and in order. */
  function AdvanceAll(ps: seq<Pipe>): (r: seq<Pipe>)
    ensures |r| == |ps|
    ensures forall i :: 0 <= i < |ps| ==> r[i] == Advance(ps[i])
  {
    seq(|ps|, i requires 0 <= i < |ps| => Advance(ps[i]))
  }

  /** How many flags of ps flip on one tick. */
  function NewlyPassed(ps: seq<Pipe>): (n: nat)
    ensures n <= |ps|
  {
    if ps == [] then 0 else NewlyPassed(ps[..|ps| - 1]) + (if Flips(ps[|ps| - 1]) then 1 else 0)
  }

  /** A pipe that has scrolled fully past the left edge. */
  predicate Expired(p: Pipe): (r: bool)
    // an expired pipe of standard width is entirely left of the board and behind the bird
    ensures r && p.width == PipeWidth ==> p.x + p.width < 0.0 && Passes(p)
  {
    p.x < -PipeWidth
  }

  /** Removes expired pipes from the front only, stopping at the first
      pipe that is still on the board. */
  function DropExpired(ps: seq<Pipe>): (r: seq<Pipe>)
    ensures |r| <= |ps| && r == ps[|ps| - |r|..]
    ensures r == [] || !Expired(r[0])
    ensures forall i :: 0 <= i < |ps| - |r| ==> Expired(ps[i])
  {
    if ps != [] && Expired(ps[0]) then DropExpired(ps[1..]) else ps
  }

  /** A pipe as the game makes it: standard size, never right of the spawn
      point, and its flag says exactly whether the bird is beyond it. */
  predicate Shaped(p: Pipe)
  {
    p.width == PipeWidth && p.height == PipeHeight && p.x <= PipeX && p.passed == Passes(p)
  }

  /** Older pipes are further left: x never decreases along the sequence. */
  predicate Ascending(ps: seq<Pipe>)
  {
    forall i, j :: 0 <= i < j < |ps| ==> ps[i].x <= ps[j].x
  }

  predicate OnBoard(ps: seq<Pipe>)
  {
    forall i :: 0 <= i < |ps| ==> !Expired(ps[i])
  }

  /** The invariant of the pipe sequence between ticks. */
  predicate PipesValid(ps: seq<Pipe>)
  {
    AllShaped(ps) && Ascending(ps) && OnBoard(ps)
  }

  /** Spawning a pair at the right edge keeps the invariant. */
  lemma SpawnKeepsValid(ps: seq<Pipe>, r: real)
    requires PipesValid(ps) && 0.0 <= r < 1.0
    ensures PipesValid(ps + SpawnPair(r))
  {
    var pair := SpawnPair(r);
    var qs := ps + pair;
    forall i | 0 <= i < |qs| ensures Shaped(qs[i]) {
      if i >= |ps| {
        assert qs[i] == pair[i - |ps|];
      }
    }
  }

  /** Advancing keeps each pipe's shape, including the meaning of its flag. */
  lemma AdvanceKeepsShape(p: Pipe)
    requires Shaped(p)
    ensures Shaped(Advance(p))
  {}

  /** When the sequence is ordered, a front pipe still on the board means
      every pipe is on the board. */
  lemma FrontBoundsAll(ps: seq<Pipe>)
    requires Ascending(ps) && (ps == [] || !Expired(ps[0]))
    ensures OnBoard(ps)
  {
    forall i | 0 <= i < |ps| ensures !Expired(ps[i]) {
      if i > 0 {
        assert ps[0].x <= ps[i].x;
      }
    }
  }

  predicate AllShaped(ps: seq<Pipe>)
  {
    forall i :: 0 <= i < |ps| ==> Shaped(ps[i])
  }

  lemma AdvanceAllKeepsOrder(ps: seq<Pipe>)
    requires AllShaped(ps) && Ascending(ps)
    ensures AllShaped(AdvanceAll(ps)) && Ascending(AdvanceAll(ps))
  {
    var moved := AdvanceAll(ps);
    forall i | 0 <= i < |moved| ensures Shaped(moved[i]) {
      AdvanceKeepsShape(ps[i]);
    }
  }

  lemma SuffixKeepsOrder(ps: seq<Pipe>, k: nat)
    requires AllShaped(ps) && Ascending(ps) && k <= |ps|
    ensures AllShaped(ps[k..]) && Ascending(ps[k..])
  {
    var rest := ps[k..];
    forall i | 0 <= i < |rest| ensures Shaped(rest[i]) {
      assert rest[i] == ps[k + i];
    }
    forall i, j | 0 <= i < j < |rest| ensures rest[i].x <= rest[j].x {
      assert rest[i] == ps[k + i] && rest[j] == ps[k + j];
    }
  }

  /** A tick's advance followed by front pruning keeps the invariant. */
  lemma TickKeepsValid(ps: seq<Pipe>)
    requires PipesValid(ps)
    ensures PipesValid(DropExpired(AdvanceAll(ps)))
  {
    var moved := AdvanceAll(ps);
    AdvanceAllKeepsOrder(ps);
    var rest := DropExpired(moved);
    SuffixKeepsOrder(moved, |moved| - |rest|);
    FrontBoundsAll(rest);
  }

  /** Pruning never throws away a pipe whose point has not been scored. */
  lemma DroppedWerePassed(ps: seq<Pipe>)
    requires PipesValid(ps)
    ensures forall i :: 0 <= i < |ps| - |DropExpired(AdvanceAll(ps))| ==> AdvanceAll(ps)[i].passed
  {
    var moved := AdvanceAll(ps);
    forall i | 0 <= i < |ps| - |DropExpired(moved)| ensures moved[i].passed {
      AdvanceKeepsShape(ps[i]);
    }
  }

  /** A well-formed pipe scores on exactly one tick: the one whose advance
      carries its trailing edge past the bird's x. */
  lemma FlipWindow(p: Pipe)
    requires Shaped(p)
    ensures Flips(p) <==> BirdX - PipeWidth <= p.x < BirdX - PipeWidth - VelocityX
  {}

  /** The two pipes of a pair move together, so they score on the same tick:
      a pair adds a whole point (two halves) or nothing. */
  lemma {:induction false} PairScoresTogether(top: Pipe, bottom: Pipe)
    requires top.x == bottom.x && top.width == bottom.width && top.passed == bottom.passed
    ensures NewlyPassed([top, bottom]) == if Flips(top) then 2 else 0
  {
    assert [top, bottom][..1] == [top];
    assert [top][..0] == [];
  }
}
