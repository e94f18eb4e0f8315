/** Final placements of a finished game (CompletedPlayerStatistics in statistics.go): the winner first,
    then the other active players by total with ties sharing a place, then forfeits, the last one first. */
module Placements {
  import opened NumberLists
  import opened RoundScoring

  // ---------------------------------------------------------------- sorting seats by a key

  /** `keys[i]` is the key of seat i. */
  predicate SeatsOf(s: seq<int>, n: nat) {
    forall k :: 0 <= k < |s| ==> 0 <= s[k] < n
  }

  predicate Sorted(s: seq<int>, keys: seq<int>)
    requires SeatsOf(s, |keys|)
  {
    forall a, b :: 0 <= a < b < |s| ==> keys[s[a]] <= keys[s[b]]
  }

  /** How many seats of `s` have a smaller key. */
  function Below(s: seq<int>, keys: seq<int>, x: int): (r: nat)
    requires SeatsOf(s, |keys|)
    ensures r <= |s|
  {
    if s == [] then 0 else Below(s[..|s| - 1], keys, x) + if keys[s[|s| - 1]] < x then 1 else 0
  }

  lemma BelowSnoc(s: seq<int>, seat: int, keys: seq<int>, x: int)
    requires SeatsOf(s, |keys|) && 0 <= seat < |keys|
    ensures SeatsOf(s + [seat], |keys|) && Below(s + [seat], keys, x) == Below(s, keys,
                    x) + if keys[seat] < x then 1 else 0
  {
    assert (s + [seat])[..|s + [seat]| - 1] == s;
  }

  lemma {:induction false} BelowInsert(s: seq<int>, k: nat, seat: int, keys: seq<int>, x: int)
    requires k <= |s| && SeatsOf(s, |keys|) && 0 <= seat < |keys|
    ensures SeatsOf(s[..k] + [seat] + s[k..], |keys|)
    ensures Below(s[..k] + [seat] + s[k..], keys, x) == Below(s, keys, x) + if keys[seat] < x then 1 else 0
    decreases |s|
  {
    hide Below;
    if k == |s| {
      assert s[..k] + [seat] + s[k..] == s + [seat];
      BelowSnoc(s, seat, keys, x);
    } else {
      var front, last := s[..|s| - 1], s[|s| - 1];
      BelowInsert(front, k, seat, keys, x);
      assert s == front + [last] && s[..k] + [seat] + s[k..] == front[..k] + [seat] + front[k..] + [last];
      BelowSnoc(front, last, keys, x);
      BelowSnoc(front[..k] + [seat] + front[k..], last, keys, x);
    }
  }

  /** In sorted order the first seat with a key stands behind exactly those with smaller keys. */
  lemma {:induction false} FirstOfItsKey(s: seq<int>, keys: seq<int>, k: nat)
    requires SeatsOf(s, |keys|) && Sorted(s, keys) && k < |s| && (k > 0 ==> keys[s[k - 1]] < keys[s[k]])
    ensures Below(s, keys, keys[s[k]]) == k
  {
    BelowPrefix(s, keys, keys[s[k]], k);
    BelowRest(s, keys, keys[s[k]], k);
  }

  lemma {:induction false} BelowPrefix(s: seq<int>, keys: seq<int>, x: int, k: nat)
    requires SeatsOf(s, |keys|) && k <= |s| && forall a :: 0 <= a < k ==> keys[s[a]] < x
    ensures Below(s[..k], keys, x) == k
    decreases k
  {
    if k > 0 {
      BelowPrefix(s, keys, x, k - 1);
      assert s[..k][..k - 1] == s[..k - 1];
    }
  }

  lemma {:induction false} BelowRest(s: seq<int>, keys: seq<int>, x: int, k: nat)
    requires SeatsOf(s, |keys|) && k <= |s| && forall a :: k <= a < |s| ==> keys[s[a]] >= x
    ensures Below(s, keys, x) == Below(s[..k], keys, x)
    decreases |s|
  {
    if k < |s| {
      BelowRest(s[..|s| - 1], keys, x, k);
      assert s[..|s| - 1][..k] == s[..k];
    } else {
      assert s[..k] == s;
    }
  }

  lemma InsertedSorted(s: seq<int>, k: nat, seat: int, keys: seq<int>)
    requires SeatsOf(s, |keys|) && 0 <= seat < |keys| && Sorted(s, keys) && k <= |s|
    requires (k > 0 ==> keys[s[k - 1]] <= keys[seat]) && forall a :: k <= a < |s| ==> keys[s[a]] > keys[seat]
    ensures SeatsOf(s[..k] + [seat] + s[k..], |keys|) && Sorted(s[..k] + [seat] + s[k..], keys)
  {
  }

  lemma InsertedMembers(s: seq<int>, k: nat, seat: int)
    requires Distinct(s) && seat !in s && k <= |s|
    ensures Distinct(s[..k] + [seat] + s[k..])
    ensures forall x :: x in s[..k] + [seat] + s[k..] <==> x == seat || x in s
  {
    assert s == s[..k] + s[k..];
  }

  /** Behind every seat whose key is not larger. */
  method InsertSeat(s: seq<int>, seat: int, keys: seq<int>) returns (t: seq<int>)
    requires SeatsOf(s, |keys|) && 0 <= seat < |keys| && Sorted(s, keys) && Distinct(s) && seat !in s
    ensures SeatsOf(t, |keys|) && Sorted(t, keys) && Distinct(t) && |t| == |s| + 1
    ensures forall x :: x in t <==> x == seat || x in s
    ensures forall x :: Below(t, keys, x) == Below(s, keys, x) + if keys[seat] < x then 1 else 0
  {
    hide Below, Sorted, Distinct;
    var k := |s|;
    while k > 0 && keys[s[k - 1]] > keys[seat]
      invariant 0 <= k <= |s| && forall a :: k <= a < |s| ==> keys[s[a]] > keys[seat]
    {
      k := k - 1;
    }
    t := s[..k] + [seat] + s[k..];
    InsertedSorted(s, k, seat, keys);
    InsertedMembers(s, k, seat);
    forall x
      ensures Below(t, keys, x) == Below(s, keys, x) + if keys[seat] < x then 1 else 0
    {
      BelowInsert(s, k, seat, keys, x);
    }
  }

  method StableSort(s: seq<int>, keys: seq<int>) returns (t: seq<int>)
    requires SeatsOf(s, |keys|) && Distinct(s)
    ensures SeatsOf(t, |keys|) && Sorted(t, keys) && Distinct(t) && |t| == |s| && forall x :: x in t <==> x in s
    ensures forall x :: Below(t, keys, x) == Below(s, keys, x)
  {
    t := [];
    for k := 0 to |s|
      invariant SeatsOf(t, |keys|) && Sorted(t, keys) && Distinct(t) && |t| == k && forall x :: x in t <==> x in s[..k]
      invariant forall x :: Below(t, keys, x) == Below(s[..k], keys, x)
    {
      assert s[..k + 1][..k] == s[..k];
      assert forall x :: x in s[..k + 1] <==> x == s[k] || x in s[..k];
      t := InsertSeat(t, s[k], keys);
    }
    assert s[..|s|] == s;
  }

  // ---------------------------------------------------------------- placements

  predicate Other(players: seq<Player>, winner: int, i: int, forfeited: bool) {
    0 <= i < |players| && i != winner && players[i].forfeited == forfeited
  }

  /** Active players other than the winner with fewer points. */
  function Better(players: seq<Player>, winner: int, x: int): nat {
    if players == [] then 0
    else
      var k := |players| - 1;
      Better(players[..k], winner,
             x) + if k != winner && !players[k].forfeited && players[k].totalPoints < x then 1 else 0
  }

  method OtherSeats(players: seq<Player>, winner: int, forfeited: bool) returns (seats: seq<int>)
    ensures Distinct(seats) && forall x :: x in seats <==> Other(players, winner, x, forfeited)
    ensures SeatsOf(seats, |players|)
    ensures !forfeited ==> forall x :: Below(seats, Totals(players), x) == Better(players, winner, x)
  {
    seats := [];
    var totals := Totals(players);
    for i := 0 to |players|
      invariant Distinct(seats) && SeatsOf(seats, |players|)
      invariant forall x :: x in seats <==> x < i && Other(players, winner, x, forfeited)
      invariant !forfeited ==> forall x :: Below(seats, totals, x) == Better(players[..i], winner, x)
    {
      assert players[..i + 1][..i] == players[..i];
      if i == winner || players[i].forfeited != forfeited {
        assert !Other(players, winner, i, forfeited);
        continue;
      }
      assert Other(players, winner, i, forfeited);
      assert (seats + [i])[..|seats|] == seats;
      assert forall x :: x in seats + [i] <==> x == i || x in seats;
      seats := seats + [i];
    }
    assert players[..|players|] == players;
  }

  function Totals(players: seq<Player>): (r: seq<int>)
    ensures |r| == |players| && forall i :: 0 <= i < |r| ==> r[i] == players[i].totalPoints
  {
    seq(|players|, i requires 0 <= i < |players| => players[i].totalPoints)
  }

  /** The later the forfeit, the smaller. */
  function ForfeitKeys(players: seq<Player>): (r: seq<int>)
    ensures |r| == |players| && forall i :: 0 <= i < |r| ==> r[i] == -players[i].statistics.forfeitOrder
  {
    seq(|players|, i requires 0 <= i < |players| => -players[i].statistics.forfeitOrder)
  }

  /** The place at one position of the sorted list, given the one before it. */
  method NextPlace(players: seq<Player>, ghost winner: int, active: seq<int>, offset: nat, previousPoints: int,
                   previousPlace: nat)
    returns (place: nat)
    requires SeatsOf(active, |players|) && Sorted(active, Totals(players)) && offset < |active|
    requires forall x :: Below(active, Totals(players), x) == Better(players, winner, x)
    requires offset > 0 ==> previousPoints == players[active[offset - 1]].totalPoints &&
                            previousPlace == 2 + Better(players, winner, previousPoints)
    ensures place == 2 + Better(players, winner, players[active[offset]].totalPoints)
  {
    hide Below, Better;
    place := offset + 2;
    if offset > 0 && players[active[offset]].totalPoints == previousPoints {
      place := previousPlace;
    } else {
      FirstOfItsKey(active, Totals(players), offset);
    }
  }

  /** Places of the other active players: two plus the number of better ones, so ties share a place. */
  method PlaceActive(players: seq<Player>, ghost winner: int, active: seq<int>, start: map<int,
                     nat>) returns (placements: map<int, nat>)
    requires SeatsOf(active, |players|) && Sorted(active, Totals(players))
    requires forall x :: Below(active, Totals(players), x) == Better(players, winner, x)
    ensures forall i :: i in active ==>
              i in placements && placements[i] == 2 + Better(players, winner, players[i].totalPoints)
    ensures forall i :: i !in active ==> (i in placements <==> i in start) && (i in start ==> placements[i] == start[i])
  {
    hide Below, Better, Sorted, Totals;
    placements := start;
    var previousPoints, previousPlace := -1, 0;
    for offset := 0 to |active|
      invariant offset > 0 ==> previousPoints == players[active[offset - 1]].totalPoints &&
                               previousPlace == 2 + Better(players, winner, previousPoints)
      invariant forall i :: i in active[..offset] ==>
                  i in placements && placements[i] == 2 + Better(players, winner, players[i].totalPoints)
      invariant forall i :: i !in active[..offset] ==>
                  (i in placements <==> i in start) && (i in start ==> placements[i] == start[i])
    {
      var i := active[offset];
      assert active[..offset + 1] == active[..offset] + [i];
      var place := NextPlace(players, winner, active, offset, previousPoints, previousPlace);
      placements := placements[i := place];
      previousPoints, previousPlace := players[i].totalPoints, place;
    }
    assert active[..|active|] == active;
  }

  /** Places of the forfeited players, behind everybody else. */
  method PlaceForfeited(forfeited: seq<int>, first: nat, start: map<int, nat>) returns (placements: map<int, nat>)
    requires Distinct(forfeited)
    ensures forall k :: 0 <= k < |forfeited| ==> forfeited[k] in placements && placements[forfeited[k]] == first + k
    ensures forall i :: i !in forfeited ==>
              (i in placements <==> i in start) && (i in start ==> placements[i] == start[i])
  {
    placements := start;
    for offset := 0 to |forfeited|
      invariant forall k :: 0 <= k < offset ==> forfeited[k] in placements && placements[forfeited[k]] == first + k
      invariant forall i :: i !in forfeited[..offset] ==>
                  (i in placements <==> i in start) && (i in start ==> placements[i] == start[i])
    {
      placements := placements[forfeited[offset] := first + offset];
      assert forfeited[..offset + 1] == forfeited[..offset] + [forfeited[offset]];
    }
    assert forfeited[..|forfeited|] == forfeited;
  }

  /** What a table of placements has to say. */
  ghost predicate Placed(players: seq<Player>, winner: int, p: map<int, nat>) {
    && (forall i :: 0 <= i < |players| ==> i in p && 1 <= p[i] <= |players|)
    && (forall i :: 0 <= i < |players| ==> (p[i] == 1 <==> i == winner))
    && (forall i :: Other(players, winner, i, false) ==> p[i] == 2 + Better(players, winner, players[i].totalPoints))
    && (forall i, j :: Other(players, winner, i, false) && Other(players, winner, j, true) ==> p[i] < p[j])
    && (forall i, j :: Other(players, winner, i, true) && Other(players, winner, j, true) ==>
          (players[i].statistics.forfeitOrder > players[j].statistics.forfeitOrder ==> p[i] < p[j]) &&
          (i != j ==> p[i] != p[j]))
  }

  lemma BetterSeats(players: seq<Player>, winner: int, active: seq<int>, k: nat)
    requires SeatsOf(active, |players|) && k < |active|
    requires var x := players[active[k]].totalPoints; Below(active, Totals(players), x) == Better(players, winner, x)
    ensures Better(players, winner, players[active[k]].totalPoints) < |active|
  {
    NotAllBelow(active, Totals(players), players[active[k]].totalPoints, k);
  }

  lemma {:induction false} NotAllBelow(s: seq<int>, keys: seq<int>, x: int, k: nat)
    requires SeatsOf(s, |keys|) && k < |s| && keys[s[k]] >= x
    ensures Below(s, keys, x) < |s|
  {
    if k < |s| - 1 {
      NotAllBelow(s[..|s| - 1], keys, x, k);
    }
  }

  function Range(n: nat): (r: set<int>)
    ensures forall i :: i in r <==> 0 <= i < n
  {
    if n == 0 then {} else Range(n - 1) + {n - 1}
  }

  lemma {:induction false} RangeSize(n: nat)
    ensures |Range(n)| == n
  {
    if n > 0 {
      RangeSize(n - 1);
    }
  }

  lemma SetSum(r: set<int>, a: set<int>, f: set<int>, w: int)
    requires r == a + f + {w} && a !! f && w !in a && w !in f
    ensures |r| == |a| + |f| + 1
  {
    assert |a + f| == |a| + |f|;
  }

  /** Winner, other active players and forfeited players are everybody. */
  lemma SeatsAddUp(players: seq<Player>, winner: int, active: seq<int>, forfeited: seq<int>)
    requires 0 <= winner < |players| && Distinct(active) && Distinct(forfeited)
    requires forall x :: x in active <==> Other(players, winner, x, false)
    requires forall x :: x in forfeited <==> Other(players, winner, x, true)
    ensures |active| + |forfeited| + 1 == |players|
  {
    hide Distinct, Range;
    RangeSize(|players|);
    DistinctByCount(active);
    DistinctByCount(forfeited);
    var r, a, f := Range(|players|), Elements(active), Elements(forfeited);
    forall x
      ensures x in r <==> x in a || x in f || x == winner
    {
      assert Other(players, winner, x, false) || Other(players, winner, x, true) <==> 0 <= x < |players| && x != winner;
    }
    SetSum(r, a, f, winner);
  }

  method FinalPlacements(players: seq<Player>, winner: int) returns (placements: map<int, nat>)
    requires 0 <= winner < |players|
    ensures Placed(players, winner, placements)
  {
    placements := map[winner := 1];
    var active := OtherSeats(players, winner, false);
    var forfeited := OtherSeats(players, winner, true);
    SeatsAddUp(players, winner, active, forfeited);
    active := StableSort(active, Totals(players));
    forfeited := StableSort(forfeited, ForfeitKeys(players));
    placements := PlaceActive(players, winner, active, placements);
    ghost var before := placements;
    placements := PlaceForfeited(forfeited, |active| + 2, placements);
    AllPlaced(players, winner, active, forfeited, placements);
  }

  lemma AllPlaced(players: seq<Player>, winner: int, active: seq<int>, forfeited: seq<int>, p: map<int, nat>)
    requires 0 <= winner < |players| && |active| + |forfeited| + 1 == |players|
    requires Distinct(active) && Distinct(forfeited) && SeatsOf(active, |players|) && SeatsOf(forfeited, |players|)
    requires forall x :: x in active <==> Other(players, winner, x, false)
    requires forall x :: x in forfeited <==> Other(players, winner, x, true)
    requires Sorted(forfeited, ForfeitKeys(players))
    requires forall x :: Below(active, Totals(players), x) == Better(players, winner, x)
    requires winner in p && p[winner] == 1
    requires forall i :: i in active ==> i in p && p[i] == 2 + Better(players, winner, players[i].totalPoints)
    requires forall k :: 0 <= k < |forfeited| ==> forfeited[k] in p && p[forfeited[k]] == |active| + 2 + k
    ensures Placed(players, winner, p)
  {
    forall i | 0 <= i < |players|
      ensures i == winner || Other(players, winner, i, false) || Other(players, winner, i, true)
    {
    }
    forall i | Other(players, winner, i, false)
      ensures i in p && 2 <= p[i] < |active| + 2
    {
      var k :| 0 <= k < |active| && active[k] == i;
      BetterSeats(players, winner, active, k);
    }
    forall i | Other(players, winner, i, true)
      ensures i in p && |active| + 2 <= p[i] <= |players|
    {
      var k :| 0 <= k < |forfeited| && forfeited[k] == i;
    }
    forall i, j | Other(players, winner, i, true) && Other(players, winner, j, true)
      ensures (players[i].statistics.forfeitOrder > players[j].statistics.forfeitOrder ==> p[i] < p[j]) &&
              (i != j ==> p[i] != p[j])
    {
      var a :| 0 <= a < |forfeited| && forfeited[a] == i;
      var b :| 0 <= b < |forfeited| && forfeited[b] == j;
    }
  }
}
