/** The top-five ranking that every game over records into, and the high score. */
module Leaderboard {
  import opened Config

  /** At most this many entries are kept after a game over. */
  const MaxEntries: nat := 5

  datatype Entry = Entry(name: string, score: int)

  /** Scores never increase along the list. */
  predicate SortedDesc(s: seq<Entry>)
  {
    forall i, j :: 0 <= i < j < |s| ==> s[i].score >= s[j].score
  }

  /** The entries of s carrying score v, in their order in s.  A sort is stable
      exactly when it leaves each of these subsequences as it was. */
  function WithScore(s: seq<Entry>, v: int): seq<Entry>
  {
    if s == [] then [] else (if s[0].score == v then [s[0]] else []) + WithScore(s[1..], v)
  }

  lemma {:induction false} WithScoreAppend(a: seq<Entry>, b: seq<Entry>, v: int)
    ensures WithScore(a + b, v) == WithScore(a, v) + WithScore(b, v)
  {
    if a == [] {
      assert a + b == b;
    } else {
      assert (a + b)[0] == a[0];
      assert (a + b)[1..] == a[1..] + b;
      WithScoreAppend(a[1..], b, v);
    }
  }

  lemma {:induction false} WithScoreAbsent(s: seq<Entry>, v: int)
    requires forall i :: 0 <= i < |s| ==> s[i].score != v
    ensures WithScore(s, v) == []
  {
    if s != [] {
      WithScoreAbsent(s[1..], v);
    }
  }

  /** Places e after every entry whose score is at least e.score: where a stable
      descending sort puts an entry that arrives last into a sorted list. */
  function InsertByScore(s: seq<Entry>, e: Entry): (r: seq<Entry>)
    ensures |r| == |s| + 1
  {
    if s == [] then [e]
    else if s[0].score >= e.score then [s[0]] + InsertByScore(s[1..], e)
    else [e] + s
  }

  lemma {:induction false} InsertPermutes(s: seq<Entry>, e: Entry)
    ensures multiset(InsertByScore(s, e)) == multiset(s) + multiset{e}
  {
    if s != [] && s[0].score >= e.score {
      InsertPermutes(s[1..], e);
      assert s == [s[0]] + s[1..];
    }
  }

  /** Stable sort by descending score, as `sort((a, b) => b.score - a.score)`
      does in a JavaScript engine whose sort is stable: an insertion sort that
      takes the entries in order. */
  function SortByScore(s: seq<Entry>): (r: seq<Entry>)
    ensures |r| == |s|
  {
    if s == [] then [] else InsertByScore(SortByScore(s[..|s| - 1]), s[|s| - 1])
  }

  lemma {:induction false} SortByScorePermutes(s: seq<Entry>)
    ensures multiset(SortByScore(s)) == multiset(s)
  {
    if s != [] {
      assert s == s[..|s| - 1] + [s[|s| - 1]];
      SortByScorePermutes(s[..|s| - 1]);
      InsertPermutes(SortByScore(s[..|s| - 1]), s[|s| - 1]);
    }
  }

  function Truncate(s: seq<Entry>, n: nat): (r: seq<Entry>)
    ensures |r| == if |s| <= n then |s| else n
    ensures r == s[..|r|]
  {
    if |s| <= n then s else s[..n]
  }

  /** No entry of s scores above m. */
  predicate AtMost(s: seq<Entry>, m: int)
  {
    forall i :: 0 <= i < |s| ==> s[i].score <= m
  }

  lemma {:induction false} InsertKeepsAtMost(s: seq<Entry>, e: Entry, m: int)
    requires AtMost(s, m) && e.score <= m
    ensures AtMost(InsertByScore(s, e), m)
  {
    if s != [] && s[0].score >= e.score {
      InsertKeepsAtMost(s[1..], e, m);
    }
  }

  lemma {:induction false} InsertKeepsSorted(s: seq<Entry>, e: Entry)
    requires SortedDesc(s)
    ensures SortedDesc(InsertByScore(s, e))
  {
    if s != [] && s[0].score >= e.score {
      var rest := InsertByScore(s[1..], e);
      InsertKeepsSorted(s[1..], e);
      InsertKeepsAtMost(s[1..], e, s[0].score);
      var r := [s[0]] + rest;
      forall i, j | 0 <= i < j < |r| ensures r[i].score >= r[j].score {
        if i > 0 {
          assert r[i] == rest[i - 1] && r[j] == rest[j - 1];
        } else {
          assert r[j] == rest[j - 1];
        }
      }
    }
  }

  /** An entry no higher than everything in the list goes to its end. */
  lemma {:induction false} InsertLowest(s: seq<Entry>, e: Entry)
    requires forall i :: 0 <= i < |s| ==> s[i].score >= e.score
    ensures InsertByScore(s, e) == s + [e]
  {
    if s != [] {
      InsertLowest(s[1..], e);
      assert s == [s[0]] + s[1..];
    }
  }

  lemma WithScoreCons(x: Entry, s: seq<Entry>, v: int)
    ensures WithScore([x] + s, v) == (if x.score == v then [x] else []) + WithScore(s, v)
  {
    assert ([x] + s)[1..] == s;
  }

  /** The step of InsertWithScore where e goes past the head of s. */
  lemma InsertPastHead(s: seq<Entry>, e: Entry, v: int)
    requires s != [] && s[0].score >= e.score
    requires WithScore(InsertByScore(s[1..], e), v) == WithScore(s[1..], v) + (if e.score == v then [e] else [])
    ensures WithScore(InsertByScore(s, e), v) == WithScore(s, v) + (if e.score == v then [e] else [])
  {
    var head := if s[0].score == v then [s[0]] else [];
    var tail := if e.score == v then [e] else [];
    WithScoreCons(s[0], InsertByScore(s[1..], e), v);
    WithScoreCons(s[0], s[1..], v);
    assert [s[0]] + s[1..] == s;
    assert head + (WithScore(s[1..], v) + tail) == (head + WithScore(s[1..], v)) + tail;
  }

  /** The step of InsertWithScore where e goes in front of s. */
  lemma InsertAtHead(s: seq<Entry>, e: Entry, v: int)
    requires SortedDesc(s) && s != [] && s[0].score < e.score
    ensures WithScore(InsertByScore(s, e), v) == WithScore(s, v) + (if e.score == v then [e] else [])
  {
    WithScoreCons(e, s, v);
    if e.score == v {
      WithScoreAbsent(s, v);
    }
  }

  lemma {:induction false} InsertWithScore(s: seq<Entry>, e: Entry, v: int)
    requires SortedDesc(s)
    ensures WithScore(InsertByScore(s, e), v) == WithScore(s, v) + (if e.score == v then [e] else [])
  {
    if s == [] {
      WithScoreCons(e, [], v);
    } else if s[0].score >= e.score {
      InsertWithScore(s[1..], e, v);
      InsertPastHead(s, e, v);
    } else {
      InsertAtHead(s, e, v);
    }
  }

  /** SortByScore is a stable descending sort: the result is sorted, and for
      every score the entries carrying it keep their relative order (which
      also makes the result a permutation of the input). */
  lemma {:induction false} SortByScoreIsStable(s: seq<Entry>)
    ensures SortedDesc(SortByScore(s))
    ensures forall v :: WithScore(SortByScore(s), v) == WithScore(s, v)
  {
    if s != [] {
      var init, last := s[..|s| - 1], s[|s| - 1];
      assert s == init + [last];
      SortByScoreIsStable(init);
      InsertKeepsSorted(SortByScore(init), last);
      forall v ensures WithScore(SortByScore(s), v) == WithScore(s, v) {
        InsertWithScore(SortByScore(init), last, v);
        WithScoreAppend(init, [last], v);
        assert WithScore([last], v) == (if last.score == v then [last] else []) + WithScore([], v);
      }
    }
  }

  /** Sorting a list that is already sorted changes nothing. */
  lemma {:induction false} SortSortedIsIdentity(s: seq<Entry>)
    requires SortedDesc(s)
    ensures SortByScore(s) == s
  {
    if s != [] {
      var init, last := s[..|s| - 1], s[|s| - 1];
      assert s == init + [last];
      SortSortedIsIdentity(init);
      InsertLowest(init, last);
    }
  }

  /** The leaderboard after one game over: push the new entry, sort by
      descending score, keep the first MaxEntries. */
  function Record(board: seq<Entry>, e: Entry): (r: seq<Entry>)
    ensures |r| == if |board| < MaxEntries then |board| + 1 else MaxEntries
    ensures SortedDesc(r)
  {
    SortByScoreIsStable(board + [e]);
    Truncate(SortByScore(board + [e]), MaxEntries)
  }

  /** Recording takes its entries from the old leaderboard and the new entry. */
  lemma RecordDrawsFrom(board: seq<Entry>, e: Entry)
    ensures multiset(Record(board, e)) <= multiset(board) + multiset{e}
  {
    var sorted := SortByScore(board + [e]);
    SortByScorePermutes(board + [e]);
    var r := Record(board, e);
    assert sorted == r + sorted[|r|..];
  }

  /** On a sorted leaderboard, recording is insertion at the stable position. */
  lemma RecordIsInsertion(board: seq<Entry>, e: Entry)
    requires SortedDesc(board)
    ensures Record(board, e) == Truncate(InsertByScore(board, e), MaxEntries)
  {
    assert (board + [e])[..|board|] == board;
    SortSortedIsIdentity(board);
  }

  lemma {:induction false} InsertKeepsAhead(s: seq<Entry>, e: Entry, i: nat)
    requires SortedDesc(s)
    requires i < |s| && s[i].score >= e.score
    ensures InsertByScore(s, e)[i] == s[i]
  {
    if i > 0 {
      InsertKeepsAhead(s[1..], e, i - 1);
    }
  }

  /** Entries scoring at least as much as the new one keep their place: a lower
      new score never displaces them, and an equal one goes behind them. */
  lemma RecordKeepsAhead(board: seq<Entry>, e: Entry)
    requires SortedDesc(board) && |board| <= MaxEntries
    ensures forall i :: 0 <= i < |board| && board[i].score >= e.score ==>
              i < |Record(board, e)| && Record(board, e)[i] == board[i]
  {
    RecordIsInsertion(board, e);
    forall i | 0 <= i < |board| && board[i].score >= e.score
      ensures i < |Record(board, e)| && Record(board, e)[i] == board[i]
    {
      InsertKeepsAhead(board, e, i);
    }
  }

  /** An entry that beats the last one is inserted before it, so the last
      entry of s is still the last of the result. */
  lemma {:induction false} InsertKeepsLast(s: seq<Entry>, e: Entry)
    requires s != [] && s[|s| - 1].score < e.score
    ensures InsertByScore(s, e)[|s|] == s[|s| - 1]
  {
    if s[0].score >= e.score {
      InsertKeepsLast(s[1..], e);
    }
  }

  /** The case of RecordAdmits where the full leaderboard's lowest entry is beaten:
      that entry is the one truncation drops. */
  lemma RecordReplacesLast(board: seq<Entry>, e: Entry)
    requires SortedDesc(board) && |board| == MaxEntries && board[|board| - 1].score < e.score
    ensures multiset(Record(board, e))[e] == multiset(board)[e] + 1
  {
    var ins := InsertByScore(board, e);
    RecordIsInsertion(board, e);
    InsertPermutes(board, e);
    InsertKeepsLast(board, e);
    var last := board[|board| - 1];
    assert last != e;
    assert ins == ins[..MaxEntries] + [last];
    assert multiset(ins) == multiset(ins[..MaxEntries]) + multiset{last};
    assert multiset(ins)[e] == multiset(board)[e] + 1;
    assert Record(board, e) == ins[..MaxEntries];
  }

  /** The new entry gets onto the leaderboard exactly when there is room or it
      beats the lowest entry, counted so that an older entry equal to it does
      not stand in for it; otherwise the leaderboard is unchanged. */
  lemma RecordAdmits(board: seq<Entry>, e: Entry)
    requires SortedDesc(board) && |board| <= MaxEntries
    ensures |board| < MaxEntries || board[|board| - 1].score < e.score ==>
              multiset(Record(board, e))[e] == multiset(board)[e] + 1
    ensures |board| == MaxEntries && e.score <= board[|board| - 1].score ==> Record(board, e) == board
  {
    RecordIsInsertion(board, e);
    if |board| < MaxEntries {
      InsertPermutes(board, e);
    } else if board[|board| - 1].score < e.score {
      RecordReplacesLast(board, e);
    } else {
      InsertLowest(board, e);
      assert (board + [e])[..MaxEntries] == board;
    }
  }

  /** The score shown at the head of a leaderboard, 0 when it is empty. */
  function TopScore(board: seq<Entry>): int
  {
    if board == [] then 0 else board[0].score
  }

  lemma RecordTop(board: seq<Entry>, e: Entry)
    requires SortedDesc(board)
    ensures TopScore(Record(board, e)) == if board == [] || e.score > board[0].score then e.score else board[0].score
  {
    RecordIsInsertion(board, e);
  }

  /** Math.floor of a score kept as a count of half points. */
  function FloorScore(halfPoints: nat): (n: nat)
    ensures n as real <= halfPoints as real / 2.0 < n as real + 1.0
  {
    halfPoints / 2
  }

  /** The larger of two integers: Config.Max for the integer high score. */
  function MaxInt(a: int, b: int): int { if a >= b then a else b }

  /** The high score after a game over: replaced by floor(score) when the
      score beats it, and so the larger of the two. */
  function HighScoreAfter(highScore: int, halfPoints: nat): (r: int)
    ensures r == MaxInt(highScore, FloorScore(halfPoints))
  {
    if halfPoints as real / 2.0 > highScore as real then FloorScore(halfPoints) else highScore
  }

  /** The high score and the leaderboard agree: the leaderboard is sorted and
      bounded, and the high score is its top score. */
  predicate Consistent(highScore: int, board: seq<Entry>)
  {
    SortedDesc(board) && |board| <= MaxEntries && highScore == TopScore(board)
  }

  /** A game over (high-score update, then recording) keeps the two consistent. */
  lemma GameOverKeepsConsistent(highScore: int, board: seq<Entry>, name: string, halfPoints: nat)
    requires Consistent(highScore, board)
    ensures Consistent(HighScoreAfter(highScore, halfPoints), Record(board, Entry(name, FloorScore(halfPoints))))
  {
    RecordTop(board, Entry(name, FloorScore(halfPoints)));
  }

  /** The player name as set from the name field: an empty value falls back to the default. */
  function NameOrDefault(value: string): (name: string)
    ensures name != []
    ensures value != [] ==> name == value
    ensures value == [] ==> name == DefaultName
  {
    if value == [] then DefaultName else value
  }

  function Scores(board: seq<Entry>): seq<int>
  {
    seq(|board|, i requires 0 <= i < |board| => board[i].score)
  }

  /** Game overs scoring 3, 7, 1, 9, 5, 2 leave 9, 7, 5, 3, 2 on the leaderboard. */
  lemma SixGameOvers(n: string)
    ensures Scores(Record(Record(Record(Record(Record(Record([], Entry(n, 3)), Entry(n, 7)),
              Entry(n, 1)), Entry(n, 9)), Entry(n, 5)), Entry(n, 2))) == [9, 7, 5, 3, 2]
  {
    var e3, e7, e1, e9, e5, e2 := Entry(n, 3), Entry(n, 7), Entry(n, 1), Entry(n, 9), Entry(n, 5), Entry(n, 2);
    RecordStep([], e3, [e3]);
    RecordStep([e3], e7, [e7, e3]);
    InsertLowest([e7, e3], e1);
    RecordStep([e7, e3], e1, [e7, e3, e1]);
    RecordStep([e7, e3, e1], e9, [e9, e7, e3, e1]);
    InsertFive(n);
    RecordStep([e9, e7, e3, e1], e5, [e9, e7, e5, e3, e1]);
    InsertTwo(n);
    RecordIsInsertion([e9, e7, e5, e3, e1], e2);
    assert Scores([e9, e7, e5, e3, e2]) == [9, 7, 5, 3, 2];
  }

  lemma InsertFive(n: string)
    ensures InsertByScore([Entry(n, 9), Entry(n, 7), Entry(n, 3), Entry(n, 1)], Entry(n, 5))
            == [Entry(n, 9), Entry(n, 7), Entry(n, 5), Entry(n, 3), Entry(n, 1)]
  {
    assert InsertByScore([Entry(n, 7), Entry(n, 3), Entry(n, 1)], Entry(n, 5))
           == [Entry(n, 7)] + InsertByScore([Entry(n, 3), Entry(n, 1)], Entry(n, 5));
  }

  lemma InsertTwo(n: string)
    ensures Truncate(InsertByScore([Entry(n, 9), Entry(n, 7), Entry(n, 5), Entry(n, 3), Entry(n, 1)], Entry(n, 2)), MaxEntries)
            == [Entry(n, 9), Entry(n, 7), Entry(n, 5), Entry(n, 3), Entry(n, 2)]
  {
    var e3, e7, e1, e9, e5, e2 := Entry(n, 3), Entry(n, 7), Entry(n, 1), Entry(n, 9), Entry(n, 5), Entry(n, 2);
    assert InsertByScore([e3, e1], e2) == [e3] + InsertByScore([e1], e2);
    assert InsertByScore([e5, e3, e1], e2) == [e5] + InsertByScore([e3, e1], e2);
    assert InsertByScore([e7, e5, e3, e1], e2) == [e7] + InsertByScore([e5, e3, e1], e2);
  }

  lemma RecordStep(board: seq<Entry>, e: Entry, expected: seq<Entry>)
    requires SortedDesc(board) && InsertByScore(board, e) == expected && |expected| <= MaxEntries
    ensures Record(board, e) == expected
  {
    RecordIsInsertion(board, e);
  }
}
