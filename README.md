# Flappy Bird gameplay core in Dafny

This project models the game logic of a browser Flappy Bird clone (`flappybird.js`), without its drawing and page wiring.

The session is one `Game` object whose fields are the script's globals:
- the bird's height `birdY` and vertical velocity `velocityY`;
- the pipe array;
- the score (in half points), the high score and the top-five leaderboard;
- the `gameOver` and `gameStarted` flags and the player name.

The handlers that the page wires to timers, keys and buttons are methods on that object:
- `Update`: the animation frame;
- `PlacePipes`: the spawn timer;
- `HandleKey`, `StartGame`, `ResetGame`: the keyboard and buttons;
- `SetPlayerName`: the name field.

Each method may change only the fields in its modifies clause.

Pure logic is written as functions on values:
- the box overlap test;
- the spawned pipe pair;
- one pipe's advance;
- front pruning;
- the stable descending sort with truncation to five that every game over performs.

One running frame is also given as a value function, `Tick.Frame`, over a `Round`: the bird, the pipes and a `Tally` of score, flag, high score and leaderboard. `Game.Update` is proved to move the object's state exactly as `Frame` says. The frame's properties are lemmas about `Frame`:
- the score rises by half a point per flipped flag;
- the game ends exactly on a fall-out or a hit;
- one entry is recorded per game over;
- the invariant is kept.

Modules:
- `Config`: the constants.
- `Geometry`: boxes and `DetectCollision`.
- `Pipes`: pipe records, spawning, advancing, pruning and the pipe-sequence invariant.
- `Leaderboard`: entries, the stable sort, `Record`, the high score.
- `Tick`: the value-level frame.
- `FlappyBird`: the `Game` class.

Representation:
- Coordinates and velocities are `real`, so `gravity = 0.3` is exact.
- The score is a natural count of half points, so `Math.floor(score)` is `halfPoints / 2`.
- `Math.random()` is the parameter `r` of `PlacePipes`, with `0 <= r < 1`.

The session invariant `Valid()` states four things:
- the bird is never above the board;
- every pipe has the standard size, spawned at or left of x = 480, with its `passed` flag true exactly when the bird is beyond it;
- pipe x never decreases along the array, and every pipe has x >= -64;
- the high score is the top score of a sorted leaderboard of at most five entries.

The constructor establishes it, and every handler keeps it.

The game-over path is not idempotent within a frame. The pipe loop keeps running after `gameOver = true`, so a bird that falls out and also hits pipes records several leaderboard entries in one frame. `Tick.Scan` models one entry per firing. `Tick.FallAndCollideRecordsTwice` gives a concrete frame that records two entries.

About degenerate boxes: with four strict comparisons a zero-size box can still collide. A zero-size box strictly inside a larger box does collide with it (`Geometry.FlatBoxInsideWideBoxCollides`). What does hold:
- a flat box never collides with itself (`Geometry.FlatBoxMissesItself`);
- two boxes both flat in the same direction never collide (the contract of `Geometry.DetectCollision`);
- boxes that only share an edge never collide.

The model follows the code. In the game itself every box has positive size. For such boxes the test is exactly "the open boxes share a point" (`Geometry.CollisionIffCommonPoint`).

## Model

| member | source | states |
|---|---|---|
| Geometry.DetectCollision | flappybird.js:149-154 | the strict four-way overlap test; a collision needs positive combined width and height, so two boxes flat in the same direction never collide |
| Geometry.CollisionSymmetric | flappybird.js:149-154 | the test does not depend on the order of its arguments |
| Geometry.EdgeContactIsNoCollision | flappybird.js:149-154 | boxes that only touch along an edge do not collide |
| Geometry.FlatBoxMissesItself | flappybird.js:149-154 | a box of zero width or zero height does not collide with itself |
| Geometry.FlatBoxInsideWideBoxCollides | flappybird.js:149-154 | a zero-size box strictly inside a larger box does collide with it |
| Geometry.CollisionIffCommonPoint | flappybird.js:149-154 | for boxes of positive size, collision holds exactly when the open boxes share a point |
| Geometry.CollisionExamples | flappybird.js:149-154 | overlapping 20x20 boxes collide; boxes meeting only at a corner do not |
| Pipes.TopPipeY | flappybird.js:129 | for a draw in [0, 1) the top pipe's y lies in (-384, -128] |
| Pipes.SpawnPair | flappybird.js:129-136 | exactly two pipes, top then bottom, both at x = 480, unpassed and 64x512, with a gap of 720/4 between them |
| Pipes.Advance | flappybird.js:99-105 | a pipe moves exactly 4 left and keeps its other fields; a passed flag never resets; the new flag is set exactly when it was set or the bird is now beyond the pipe |
| Pipes.AdvanceAll | flappybird.js:97-105 | every pipe is advanced in place, in order, and none is added or removed |
| Pipes.Passes | flappybird.js:102 | the scoring condition "bird x beyond the trailing edge"; for a standard-width pipe it holds exactly when the pipe's x is below -4 |
| Pipes.Expired | flappybird.js:113 | the pruning condition x < -64; an expired standard pipe is wholly left of the board and already passed by the bird |
| Pipes.NewlyPassed | flappybird.js:102-105 | the number of flags that flip in a frame is at most the number of pipes |
| Pipes.DropExpired | flappybird.js:113-115 | pruning keeps a suffix, so the rest stay in order; the result is empty or starts with a pipe at x >= -64; every removed pipe had x < -64 |
| Pipes.SpawnKeepsValid | flappybird.js:126-137 | appending a spawned pair keeps the pipe invariant (shape, non-decreasing x, on board) |
| Pipes.AdvanceKeepsShape | flappybird.js:99-105 | after advancing, a pipe still has the standard shape and its flag still means "the bird is beyond it" |
| Pipes.AdvanceAllKeepsOrder | flappybird.js:97-105 | advancing every pipe keeps all pipes well formed and x non-decreasing |
| Pipes.SuffixKeepsOrder | flappybird.js:113-115 | removing a prefix keeps all pipes well formed and x non-decreasing |
| Pipes.FrontBoundsAll | flappybird.js:113-115 | in an x-ordered sequence, a front pipe at x >= -64 puts every pipe at x >= -64 |
| Pipes.TickKeepsValid | flappybird.js:97-115 | advancing and then pruning keeps the whole pipe invariant |
| Pipes.DroppedWerePassed | flappybird.js:102-115 | every pruned pipe had already been scored |
| Pipes.FlipWindow | flappybird.js:99-105 | a well-formed pipe scores on exactly one frame: the one where its x is in [-4, 0) before the move |
| Pipes.PairScoresTogether | flappybird.js:102-105 | the two pipes of a pair flip on the same frame, so a pair adds two half points or none |
| Leaderboard.InsertByScore | flappybird.js:160 | inserting into a list makes it exactly one longer |
| Leaderboard.InsertPermutes | flappybird.js:160 | inserting adds exactly the new entry to the multiset of entries |
| Leaderboard.InsertKeepsSorted | flappybird.js:160 | inserting into a list sorted by descending score keeps it sorted |
| Leaderboard.InsertLowest | flappybird.js:160 | an entry scoring no more than every other entry goes last |
| Leaderboard.InsertWithScore | flappybird.js:160 | in a sorted list the new entry goes behind every earlier entry with the same score |
| Leaderboard.SortByScore | flappybird.js:160 | sorting keeps the length |
| Leaderboard.SortByScorePermutes | flappybird.js:160 | the sort is a permutation |
| Leaderboard.SortByScoreIsStable | flappybird.js:160 | the result is sorted by non-increasing score, and for every score value the entries with that score keep their order (stability) |
| Leaderboard.SortSortedIsIdentity | flappybird.js:160 | sorting an already sorted list changes nothing |
| Leaderboard.Truncate | flappybird.js:161 | `slice(0, n)`: the first min(length, n) entries |
| Leaderboard.Record | flappybird.js:159-161 | after push, sort and slice, the leaderboard has min(old length + 1, 5) entries and is sorted by non-increasing score |
| Leaderboard.RecordDrawsFrom | flappybird.js:159-161 | every recorded entry comes from the old leaderboard or is the new entry |
| Leaderboard.RecordIsInsertion | flappybird.js:159-161 | on a sorted leaderboard, recording is stable insertion followed by truncation to five |
| Leaderboard.RecordKeepsAhead | flappybird.js:159-161 | entries scoring at least the new score keep their positions |
| Leaderboard.InsertKeepsLast | flappybird.js:160 | an entry that beats the lowest entry is sorted in front of it, so the old lowest entry is the new list's last |
| Leaderboard.RecordReplacesLast | flappybird.js:159-161 | on a full leaderboard, an entry beating the lowest one displaces exactly that one: the new entry now occurs one more time than before |
| Leaderboard.RecordAdmits | flappybird.js:159-161 | when there is room or the new entry beats the lowest one, the new entry occurs exactly one more time than before (so an equal older entry does not count for it); otherwise a full leaderboard stays unchanged |
| Leaderboard.RecordTop | flappybird.js:159-161 | the new top score is the new entry's score if the leaderboard was empty or the entry beats the old top, and the old top otherwise |
| Leaderboard.FloorScore | flappybird.js:157-159 | `Math.floor(score)`: the greatest integer not above halfPoints / 2 |
| Leaderboard.HighScoreAfter | flappybird.js:157 | the high score becomes floor(score) exactly when the score beats it, so it ends as the larger of the old high score and floor(score) and never drops |
| Leaderboard.GameOverKeepsConsistent | flappybird.js:157-161 | a game over keeps the high score equal to the top of a sorted leaderboard of at most five entries |
| Leaderboard.NameOrDefault | flappybird.js:67 | the recorded name is never empty: it is the typed value whenever that value is non-empty, and exactly "Player" when it is empty |
| Leaderboard.SixGameOvers | flappybird.js:159-161 | game overs scoring 3, 7, 1, 9, 5, 2 in turn leave the scores 9, 7, 5, 3, 2 |
| Tick.EndGame | flappybird.js:156-161 | the game-over path sets the flag, keeps the score, and leaves the high score at least its old value and at least floor(score) |
| Tick.EndGameKeepsConsistent | flappybird.js:156-161 | the game-over path keeps the high score and the leaderboard consistent |
| Tick.Hits | flappybird.js:107 | the collision test between the bird and a pipe; a hit needs the pipe to overlap the bird's columns, so a passed pipe never hits |
| Tick.OutOfBounds | flappybird.js:91 | the bird's top edge is below the board, so the whole bird box is off the board |
| Tick.Visit | flappybird.js:98-110 | one loop iteration adds one half point exactly when the pipe's flag flips, ends the game exactly when it was over or the advanced pipe hits the bird, and changes the high score and leaderboard only on a hit, never lowering the high score |
| Tick.Scan | flappybird.js:97-111 | the whole pipe loop, left to right; the score and the high score never drop, and a game that was over stays over |
| Tick.HitCount | flappybird.js:107-110 | the number of game overs that the pipe loop fires is at most the number of pipes |
| Tick.ScanScore | flappybird.js:97-105 | after the pipe loop, the score has risen by exactly half a point per flipped flag |
| Tick.ScanGameOverCount | flappybird.js:97-111 | after the loop, the game is over exactly when it already was or the loop made at least one hit |
| Tick.HitCountPositive | flappybird.js:107-110 | there is at least one hit exactly when some advanced pipe collides with the bird |
| Tick.ScanGameOver | flappybird.js:97-111 | after the loop, the game is over exactly when it already was or some advanced pipe collides with the bird |
| Tick.ScanRecords | flappybird.js:97-111 | every collision records one entry until the leaderboard is full; the high score never drops; with no collision neither the high score nor the leaderboard changes |
| Tick.ScanKeepsConsistent | flappybird.js:97-111 | the loop keeps the high score and the leaderboard consistent |
| Tick.Fall | flappybird.js:86-94 | after gravity and the clamp the bird is never above the board, and the pipes are untouched |
| Tick.Sweep | flappybird.js:97-111 | the pipe loop on a round: the bird is untouched, every pipe moves exactly 4 left and none is added or removed, the score never drops and a game over stays |
| Tick.Prune | flappybird.js:113-115 | pruning on a round: only a prefix of the pipes goes, the rest keep their order, the front pipe is not expired, and nothing else changes |
| Tick.Frame | flappybird.js:86-115 | one running frame, gravity then the pipe loop then pruning: the velocity grows by exactly the gravity, the bird moves to old y + new velocity when that is at least 0 and to exactly 0 otherwise (`Math.max`), and the pipes become the advanced ones with the expired front removed |
| Tick.FrameKeepsValid | flappybird.js:80-115 | a running frame keeps the session invariant: bird at or below the ceiling, pipes well formed, ordered and on board, high score consistent with the leaderboard |
| Tick.FrameScore | flappybird.js:97-105 | a frame adds exactly one half point per flag that flips, so the score never drops |
| Tick.FrameGameOver | flappybird.js:91-111 | a frame from a running state ends the game exactly when the bird fell out of the board or an advanced pipe hits it |
| Tick.FrameRecords | flappybird.js:91-111 | the leaderboard grows by one per game over (the fall-out counts as one, each hit as one) up to five; the high score never drops; a frame with no game over keeps both |
| Tick.GameOverAtFourAndAHalf | flappybird.js:157-159 | a game over at 4.5 points with no high score yet sets the high score to 4 and records a single entry of 4 |
| Tick.FallAndCollideRecordsTwice | flappybird.js:86-111 | a frame from y = 715 with velocity 14.7 takes the bird below the board beside a pipe it hits, so that one frame ends the game twice and records two leaderboard entries |
| FlappyBird.IsJumpKey | flappybird.js:140 | the jump keys Space, ArrowUp and KeyX; none is Enter, so one key press never both jumps and retries |
| FlappyBird.Game.constructor | flappybird.js:18-43 | the initial globals: bird at mid-height, no velocity or pipes, zero scores, empty leaderboard, not started, name "Player"; the invariant holds |
| FlappyBird.Game.SetPlayerName | flappybird.js:66-68 | the name becomes the typed value, or "Player" when it is empty |
| FlappyBird.Game.StartGame | flappybird.js:71-76 | sets the started latch; when it was already set nothing changes |
| FlappyBird.Game.ShowGameOver | flappybird.js:156-161 | the high score becomes HighScoreAfter, and the leaderboard becomes Record of the old one and the entry (name, floor(score)) |
| FlappyBird.Game.PlacePipes | flappybird.js:126-137 | when not running, the pipes are unchanged; otherwise exactly SpawnPair(r) is appended; the invariant holds |
| FlappyBird.Game.Update | flappybird.js:80-124 | when not running, no field changes; otherwise the state becomes Frame of the old state; the invariant holds |
| FlappyBird.Game.MoveBird | flappybird.js:86-94 | gravity, the clamp at 0, and the game-over path when the bird is below the board, as Fall |
| FlappyBird.Game.AdvancePipes | flappybird.js:97-111 | the in-place pipe loop leaves every pipe advanced and the tally as Scan computes it |
| FlappyBird.Game.VisitPipe | flappybird.js:98-110 | one loop iteration writes the advanced pipe back at its index, and updates the tally as Visit says |
| FlappyBird.Game.PruneExpired | flappybird.js:113-115 | the shift loop leaves exactly DropExpired of the pipes and touches nothing else |
| FlappyBird.Game.ResetGame | flappybird.js:175-180 | bird at 360, velocity 0, no pipes, score 0, not over; the latch, high score, leaderboard and name are untouched by its frame |
| FlappyBird.Game.HandleKey | flappybird.js:139-147 | while running, a jump key overwrites the velocity with -6 and touches nothing else of the round; Enter after a game over resets; every other key or state changes nothing |

## Left out

- Canvas drawing is not modelled, because it is rendering only. This covers clearing, sprites, score text, the game-over text and fonts (flappybird.js:84, 89, 100, 117-123, 164-170).
- Page wiring is not modelled, because it is plumbing. This covers `window.onload`, the event listener registration, the buttons' `style.display` and the `updateLeaderboard` HTML table (flappybird.js:45-69, 77, 162, 172, 181, 184-192). The name field's handler is kept as `SetPlayerName`. The retry button calls `resetGame` with no guard; that is `ResetGame`, which may be called in any reachable state.
- Scheduling is not modelled. `requestAnimationFrame` and the 1.5 s `setInterval` registration in `startGame` and `update` become methods the environment calls in any order. `StartGame` models only the latch, not the timer registration.
- Image loading is not modelled, nor the `img` field of a pipe record.
- `Math.random()` is the parameter `r` of `PlacePipes`.
- IEEE-754 double rounding is not modelled. Positions and velocities are exact reals, so repeated `+= 0.3` does not drift as in the browser.
- `FlappyBird.Game.ResetGame`: it requires `Valid()` only so that it can ensure the invariant. The source's `resetGame` has no precondition, and the invariant holds in every reachable state.
- `Leaderboard.SortByScore`: it assumes a stable `Array.prototype.sort`, as required by ECMAScript 2019 and later. Engines before that were free to reorder entries with equal scores.
