/** Win streaks: counted round by round in a game (recordRoundResult in statistics.go) and merged into
    lifetime totals by one SQL expression (addLifetimeStatistics in database/statistics.go). */
module Streaks {
  import opened RoundScoring

  // ---------------------------------------------------------------- streaks of a history

  /** Wins at the end of the history. */
  function Trailing(h: seq<bool>): (n: nat)
    ensures n <= |h|
  {
    if h == [] || !h[|h| - 1] then 0 else Trailing(h[..|h| - 1]) + 1
  }

  /** Wins at its beginning. */
  function Leading(h: seq<bool>): (n: nat)
    ensures n <= |h|
  {
    if h == [] then 0
    else
      var k := |h| - 1;
      var n := Leading(h[..k]);
      if n == k && h[k] then k + 1 else n
  }

  function Longest(h: seq<bool>): (n: nat)
    ensures Trailing(h) <= n
  {
    if h == [] then 0
    else
      var m := Longest(h[..|h| - 1]);
      if Trailing(h) > m then Trailing(h) else m
  }

  function Wins(h: seq<bool>): (n: nat)
    ensures n <= |h|
  {
    if h == [] then 0 else Wins(h[..|h| - 1]) + if h[|h| - 1] then 1 else 0
  }

  predicate AllWon(h: seq<bool>) {
    forall i :: 0 <= i < |h| ==> h[i]
  }

  lemma {:induction false} TrailingMeans(h: seq<bool>)
    ensures AllWon(h[|h| - Trailing(h)..]) && (Trailing(h) < |h| ==> !h[|h| - Trailing(h) - 1])
  {
    if h != [] && h[|h| - 1] {
      var front := h[..|h| - 1];
      TrailingMeans(front);
      assert h[|h| - Trailing(h)..] == front[|front| - Trailing(front)..] + [true];
    }
  }

  lemma {:induction false} LeadingMeans(h: seq<bool>)
    ensures AllWon(h[..Leading(h)]) && (Leading(h) < |h| ==> !h[Leading(h)])
  {
    if h != [] {
      LeadingMeans(h[..|h| - 1]);
      assert h[..|h| - 1][..Leading(h[..|h| - 1])] == h[..Leading(h[..|h| - 1])];
    }
  }

  lemma {:induction false} NoTrailingLonger(h: seq<bool>, i: nat)
    requires i <= |h| && AllWon(h[i..])
    ensures |h| - i <= Trailing(h)
  {
    if i < |h| {
      var front := h[..|h| - 1];
      assert h[i..][|h| - 1 - i];
      assert front[i..] == h[i..][..|h| - 1 - i];
      NoTrailingLonger(front, i);
    }
  }

  /** No stretch of wins is longer, and one is as long. */
  lemma {:induction false} LongestIsMaximum(h: seq<bool>)
    ensures forall i, j :: 0 <= i <= j <= |h| && AllWon(h[i..j]) ==> j - i <= Longest(h)
    ensures exists i, j :: 0 <= i <= j <= |h| && AllWon(h[i..j]) && j - i == Longest(h)
  {
    if h == [] {
      assert AllWon(h[0..0]);
    } else {
      var k := |h| - 1;
      LongestIsMaximum(h[..k]);
      forall i, j | 0 <= i <= j <= |h| && AllWon(h[i..j])
        ensures j - i <= Longest(h)
      {
        if j < |h| {
          assert h[..k][i..j] == h[i..j];
        } else {
          assert h[i..] == h[i..j];
          NoTrailingLonger(h, i);
        }
      }
      if Longest(h) == Trailing(h) {
        TrailingMeans(h);
        assert h[|h| - Trailing(h)..|h|] == h[|h| - Trailing(h)..];
      } else {
        var i, j :| 0 <= i <= j <= k && AllWon(h[..k][i..j]) && j - i == Longest(h[..k]);
        assert h[i..j] == h[..k][i..j];
      }
    }
  }

  // ---------------------------------------------------------------- counting in a game

  /** The counters after the rounds of a game, numbered from one. */
  function Counted(h: seq<bool>): Statistics {
    if h == [] then NO_STATISTICS else Recorded(Counted(h[..|h| - 1]), |h|, h[|h| - 1])
  }

  lemma {:induction false} CountersAreStreaks(h: seq<bool>)
    ensures var s := Counted(h);
            && s.roundsWon == Wins(h) && s.currentStreak == Trailing(h) && s.longestStreak == Longest(h)
            && s.startingStreak == Leading(h) && (s.streakBroken <==> !AllWon(h)) && s.lastRecordedRound == |h|
  {
    if h != [] {
      var k := |h| - 1;
      CountersAreStreaks(h[..k]);
      LeadingMeans(h[..k]);
      if AllWon(h[..k]) {
        AllWonLeading(h[..k]);
      }
    }
  }

  lemma {:induction false} AllWonLeading(h: seq<bool>)
    requires AllWon(h)
    ensures Leading(h) == |h| && Trailing(h) == |h| && Wins(h) == |h|
  {
    if h != [] {
      AllWonLeading(h[..|h| - 1]);
    }
  }

  lemma {:induction false} WinsAll(h: seq<bool>)
    ensures Wins(h) == |h| <==> AllWon(h)
  {
    if h != [] {
      WinsAll(h[..|h| - 1]);
    }
  }

  // ---------------------------------------------------------------- the lifetime totals

  /** The summary of one game, as the database receives it. */
  datatype Summary = Summary(played: int, won: int, starting: int, ending: int, longest: int)

  function SummaryOf(h: seq<bool>): Summary {
    var s := Counted(h);
    Summary(|h|, s.roundsWon, s.startingStreak, s.currentStreak, s.longestStreak)
  }

  datatype Lifetime = NoRow | Row(current: int, longest: int)

  function Max(a: int, b: int): int {
    if a >= b then a else b
  }

  /** Insert the first game's streaks, else update the row. */
  function Merged(l: Lifetime, g: Summary): Lifetime {
    match l
    case NoRow => Row(g.ending, g.longest)
    case Row(current, longest) =>
      Row(if g.ending == 0 then 0 else if g.won == g.played then current + g.ending else g.ending,
          Max(Max(longest, g.longest), current + g.starting))
  }

  lemma {:induction false} TrailingConcat(a: seq<bool>, b: seq<bool>)
    ensures Trailing(a + b) == if AllWon(b) then Trailing(a) + |b| else Trailing(b)
  {
    if b == [] {
      assert a + b == a;
    } else {
      var k := |b| - 1;
      assert (a + b)[..|a + b| - 1] == a + b[..k];
      TrailingConcat(a, b[..k]);
    }
  }

  lemma {:induction false} LongestConcat(a: seq<bool>, b: seq<bool>)
    ensures Longest(a + b) == Max(Max(Longest(a), Longest(b)), Trailing(a) + Leading(b))
  {
    if b == [] {
      assert a + b == a;
    } else {
      var k := |b| - 1;
      assert (a + b)[..|a + b| - 1] == a + b[..k];
      LongestConcat(a, b[..k]);
      TrailingConcat(a, b);
      LeadingMeans(b[..k]);
      if AllWon(b) {
        AllWonLeading(b);
        AllWonLeading(b[..k]);
      }
      LeadingGrows(b);
    }
  }

  lemma FrontAllWon(b: seq<bool>)
    requires b != [] && Leading(b[..|b| - 1]) == |b| - 1 && b[|b| - 1]
    ensures AllWon(b)
  {
    var front := b[..|b| - 1];
    LeadingMeans(front);
    hide Leading;
    assert front[..|front|] == front;
  }

  lemma LeadingGrows(b: seq<bool>)
    requires b != []
    ensures Leading(b) == if AllWon(b) then |b| else Leading(b[..|b| - 1])
  {
    if AllWon(b) {
      AllWonLeading(b);
    } else if Leading(b[..|b| - 1]) == |b| - 1 && b[|b| - 1] {
      FrontAllWon(b);
    }
  }

  /** Merging a game's summary into the totals of a history gives the totals of the longer history. */
  lemma MergeExtends(h: seq<bool>, g: seq<bool>)
    requires g != []
    ensures Merged(Row(Trailing(h), Longest(h)), SummaryOf(g)) == Row(Trailing(h + g), Longest(h + g))
  {
    CountersAreStreaks(g);
    WinsAll(g);
    TrailingConcat(h, g);
    LongestConcat(h, g);
    if AllWon(g) {
      AllWonLeading(g);
    }
  }

  function Flat(games: seq<seq<bool>>): seq<bool> {
    if games == [] then [] else Flat(games[..|games| - 1]) + games[|games| - 1]
  }

  function MergedAll(games: seq<seq<bool>>): Lifetime {
    if games == [] then NoRow else Merged(MergedAll(games[..|games| - 1]), SummaryOf(games[|games| - 1]))
  }

  /** After any number of games, each of at least one round, the stored streaks are those of the whole
      history of rounds played one after the other. */
  lemma {:induction false} LifetimeIsWholeHistory(games: seq<seq<bool>>)
    requires games != [] && forall i :: 0 <= i < |games| ==> games[i] != []
    ensures MergedAll(games) == Row(Trailing(Flat(games)), Longest(Flat(games)))
  {
    var k := |games| - 1;
    if k == 0 {
      assert games[..0] == [] && Flat(games) == games[0];
      CountersAreStreaks(games[0]);
    } else {
      LifetimeIsWholeHistory(games[..k]);
      MergeExtends(Flat(games[..k]), games[k]);
    }
  }
}
