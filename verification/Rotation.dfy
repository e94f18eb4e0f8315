/** Whose turn comes next (nextActivePlayerIndex and previousActivePlayerIndex of state.go):
    seats lie in a circle and forfeited seats are passed over. */
module Rotation {

  predicate IsActive(active: seq<bool>, index: int) {
    0 <= index < |active| && active[index]
  }

  /** The seat `k` places further round the table of `n`. */
  function Forward(index: int, k: nat, n: nat): (r: nat)
    requires 0 <= index < n && k <= n
    ensures r < n
  {
    if index + k < n then index + k else index + k - n
  }

  function Backward(index: int, k: nat, n: nat): (r: nat)
    requires 0 <= index < n && k <= n
    ensures r < n
  {
    if index >= k then index - k else index - k + n
  }

  lemma WrapsAround(index: int, k: nat, n: nat)
    requires 0 <= index < n && k <= n
    ensures (index + k) % n == Forward(index, k, n)
    ensures (index - k + n) % n == Backward(index, k, n)
  {
    Wrap(index + k, n);
    Wrap(index - k + n, n);
  }

  lemma Wrap(x: int, n: nat)
    requires 0 <= x < 2 * n
    ensures x % n == if x < n then x else x - n
  {
    if x >= n {
      assert x == 1 * n + (x - n);
    }
  }

  /** The distance to the first active seat ahead; a full circle when there is none. */
  ghost predicate FirstAhead(active: seq<bool>, index: int, k: nat)
    requires 0 <= index < |active|
  {
    1 <= k <= |active| && (k < |active| ==> IsActive(active, Forward(index, k, |active|))) &&
    forall j: nat :: 1 <= j < k ==> !IsActive(active, Forward(index, j, |active|))
  }

  ghost predicate FirstBehind(active: seq<bool>, index: int, k: nat)
    requires 0 <= index < |active|
  {
    1 <= k <= |active| && (k < |active| ==> IsActive(active, Backward(index, k, |active|))) &&
    forall j: nat :: 1 <= j < k ==> !IsActive(active, Backward(index, j, |active|))
  }

  /** The next active seat, and `index` itself if no other is active. */
  ghost predicate IsNext(active: seq<bool>, index: int, next: int)
    requires 0 <= index < |active|
  {
    exists k: nat :: FirstAhead(active, index, k) && next == Forward(index, k, |active|)
  }

  ghost predicate IsPrevious(active: seq<bool>, index: int, previous: int)
    requires 0 <= index < |active|
  {
    exists k: nat :: FirstBehind(active, index, k) && previous == Backward(index, k, |active|)
  }

  /** The next active seat as a value. */
  ghost function NextFrom(active: seq<bool>, index: int, k: nat): (next: int)
    requires 0 <= index < |active| && 1 <= k <= |active|
    requires forall j: nat :: 1 <= j < k ==> !IsActive(active, Forward(index, j, |active|))
    ensures IsNext(active, index, next)
    decreases |active| - k
  {
    if k == |active| || active[Forward(index, k, |active|)] then
      assert FirstAhead(active, index, k);
      Forward(index, k, |active|)
    else NextFrom(active, index, k + 1)
  }

  ghost function NextOf(active: seq<bool>, index: int): (next: int)
    requires |active| > 0 ==> 0 <= index < |active|
    ensures |active| > 0 ==> IsNext(active, index, next)
  {
    if |active| == 0 then 0 else NextFrom(active, index, 1)
  }

  ghost function PreviousFrom(active: seq<bool>, index: int, k: nat): (previous: int)
    requires 0 <= index < |active| && 1 <= k <= |active|
    requires forall j: nat :: 1 <= j < k ==> !IsActive(active, Backward(index, j, |active|))
    ensures IsPrevious(active, index, previous)
    decreases |active| - k
  {
    if k == |active| || active[Backward(index, k, |active|)] then
      assert FirstBehind(active, index, k);
      Backward(index, k, |active|)
    else PreviousFrom(active, index, k + 1)
  }

  ghost function PreviousOf(active: seq<bool>, index: int): (previous: int)
    requires |active| > 0 ==> 0 <= index < |active|
    ensures |active| > 0 ==> IsPrevious(active, index, previous)
  {
    if |active| == 0 then 0 else PreviousFrom(active, index, 1)
  }

  lemma NextUnique(active: seq<bool>, index: int, a: int, b: int)
    requires 0 <= index < |active| && IsNext(active, index, a) && IsNext(active, index, b)
    ensures a == b
  {
    var j: nat :| FirstAhead(active, index, j) && a == Forward(index, j, |active|);
    var k: nat :| FirstAhead(active, index, k) && b == Forward(index, k, |active|);
    assert j == k;
  }

  lemma PreviousUnique(active: seq<bool>, index: int, a: int, b: int)
    requires 0 <= index < |active| && IsPrevious(active, index, a) && IsPrevious(active, index, b)
    ensures a == b
  {
    var j: nat :| FirstBehind(active, index, j) && a == Backward(index, j, |active|);
    var k: nat :| FirstBehind(active, index, k) && b == Backward(index, k, |active|);
    assert j == k;
  }

  /** Look one seat further at a time. */
  method NextActiveIndex(active: seq<bool>, index: int) returns (next: int)
    requires |active| > 0 ==> 0 <= index < |active|
    ensures next == NextOf(active, index)
  {
    if |active| == 0 {
      return 0;
    }
    for offset := 1 to |active| + 1
      invariant forall j: nat :: 1 <= j < offset ==> !IsActive(active, Forward(index, j, |active|))
    {
      WrapsAround(index, offset, |active|);
      var candidate := (index + offset) % |active|;
      if IsActive(active, candidate) {
        assert FirstAhead(active, index, offset);
        NextUnique(active, index, candidate, NextOf(active, index));
        return candidate;
      }
    }
    assert FirstAhead(active, index, |active|);
    NextUnique(active, index, index, NextOf(active, index));
    return index;
  }

  method PreviousActiveIndex(active: seq<bool>, index: int) returns (previous: int)
    requires |active| > 0 ==> 0 <= index < |active|
    ensures previous == PreviousOf(active, index)
  {
    if |active| == 0 {
      return 0;
    }
    for offset := 1 to |active| + 1
      invariant forall j: nat :: 1 <= j < offset ==> !IsActive(active, Backward(index, j, |active|))
    {
      WrapsAround(index, offset, |active|);
      var candidate := (index - offset + |active|) % |active|;
      if IsActive(active, candidate) {
        assert FirstBehind(active, index, offset);
        PreviousUnique(active, index, candidate, PreviousOf(active, index));
        return candidate;
      }
    }
    assert FirstBehind(active, index, |active|);
    PreviousUnique(active, index, index, PreviousOf(active, index));
    return index;
  }

  // ---------------------------------------------------------------- one next, one previous

  /** Going on from an active seat and coming back from the next one undo each other. */
  lemma PreviousUndoesNext(active: seq<bool>, index: int, next: int)
    requires 0 <= index < |active| && 0 <= next < |active| && active[index] && active[next]
    ensures IsNext(active, index, next) <==> IsPrevious(active, next, index)
  {
    var n := |active|;
    if IsNext(active, index, next) {
      var k: nat :| FirstAhead(active, index, k) && next == Forward(index, k, n);
      forall j: nat | 1 <= j < k
        ensures !IsActive(active, Backward(next, j, n))
      {
        assert Backward(next, j, n) == Forward(index, k - j, n);
      }
      assert Backward(next, k, n) == index;
      assert FirstBehind(active, next, k);
    }
    if IsPrevious(active, next, index) {
      var k: nat :| FirstBehind(active, next, k) && index == Backward(next, k, n);
      forall j: nat | 1 <= j < k
        ensures !IsActive(active, Forward(index, j, n))
      {
        assert Forward(index, j, n) == Backward(next, k - j, n);
      }
      assert Forward(index, k, n) == next;
      assert FirstAhead(active, index, k);
    }
  }

  lemma NextIsActive(active: seq<bool>, index: int, next: int)
    requires 0 <= index < |active| && IsNext(active, index, next)
    requires exists i :: 0 <= i < |active| && i != index && active[i]
    ensures 0 <= next < |active| && active[next] && next != index
  {
    var n := |active|;
    var k: nat :| FirstAhead(active, index, k) && next == Forward(index, k, n);
    var i :| 0 <= i < n && i != index && active[i];
    var d := if i > index then i - index else i - index + n;
    assert Forward(index, d, n) == i;
  }

  // ---------------------------------------------------------------- a full round of turns

  /** Seats visited by successive turns, starting at the current one. */
  ghost predicate Turns(active: seq<bool>, seats: seq<int>) {
    && |seats| > 0
    && (forall i :: 0 <= i < |seats| ==> IsActive(active, seats[i]))
    && (forall i :: 0 <= i < |seats| - 1 ==> IsNext(active, seats[i], seats[i + 1]))
  }

  /** How many seats after `from`, up to `k` places on, are active. */
  ghost function ActiveWithin(active: seq<bool>, from: int, k: nat): nat
    requires 0 <= from < |active| && k <= |active|
  {
    if k == 0 then 0
    else ActiveWithin(active, from, k - 1) + (if active[Forward(from, k, |active|)] then 1 else 0)
  }

  function ActiveCount(active: seq<bool>): nat {
    if active == [] then 0 else ActiveCount(active[..|active| - 1]) + (if active[|active| - 1] then 1 else 0)
  }

  lemma CountStep(active: seq<bool>, i: nat)
    requires i < |active|
    ensures ActiveCount(active[..i + 1]) == ActiveCount(active[..i]) + (if active[i] then 1 else 0)
  {
    assert active[..i + 1][..i] == active[..i];
  }

  lemma {:induction false} WithinIsCount(active: seq<bool>, from: int, k: nat)
    requires 0 <= from < |active| && k <= |active|
    ensures var n := |active|;
            ActiveWithin(active, from, k) ==
            if from + k < n then ActiveCount(active[..from + k + 1]) - ActiveCount(active[..from + 1])
            else ActiveCount(active) - ActiveCount(active[..from + 1]) + ActiveCount(active[..from + k - n + 1])
  {
    assert active[..|active|] == active;
    if k > 0 {
      WithinIsCount(active, from, k - 1);
      CountStep(active, Forward(from, k, |active|));
      assert active[..0] == [];
    }
  }

  lemma {:induction false} NoneBetween(active: seq<bool>, from: int, low: nat, high: nat)
    requires 0 <= from < |active| && low <= high <= |active|
    requires forall d: nat :: low < d <= high ==> !active[Forward(from, d, |active|)]
    ensures ActiveWithin(active, from, high) == ActiveWithin(active, from, low)
  {
    if low < high {
      NoneBetween(active, from, low, high - 1);
    }
  }

  /** The i-th turn sits at the i-th active seat after the first, less than a full circle away. */
  lemma {:induction false} TurnDistance(active: seq<bool>, seats: seq<int>, i: nat) returns (d: nat)
    requires Turns(active, seats) && i < |seats| && i <= ActiveCount(active)
    ensures d <= |active| && ActiveWithin(active, seats[0], d) == i && seats[i] == Forward(seats[0], d, |active|)
    ensures i < ActiveCount(active) ==> d < |active|
  {
    var n, s := |active|, seats[0];
    WithinIsCount(active, s, n);
    if i == 0 {
      d := 0;
      assert ActiveCount(active) > 0 by {
        CountStep(active, s);
        CountGrows(active, s + 1);
      }
    } else {
      var e := TurnDistance(active, seats, i - 1);
      var k: nat :| FirstAhead(active, seats[i - 1], k) && seats[i] == Forward(seats[i - 1], k, n);
      d := e + k;
      assert Forward(seats[i - 1], n - e, n) == s;
      forall j: nat | e < j <= d - 1
        ensures !active[Forward(s, j, n)]
      {
        assert Forward(seats[i - 1], j - e, n) == Forward(s, j, n);
      }
      NoneBetween(active, s, e, d - 1);
      assert Forward(s, d, n) == seats[i];
    }
  }

  lemma {:induction false} CountGrows(active: seq<bool>, i: nat)
    requires i <= |active|
    ensures ActiveCount(active[..i]) <= ActiveCount(active)
    decreases |active| - i
  {
    if i < |active| {
      CountStep(active, i);
      CountGrows(active, i + 1);
    } else {
      assert active[..i] == active;
    }
  }

  lemma {:induction false} WithinGrows(active: seq<bool>, from: int, low: nat, high: nat)
    requires 0 <= from < |active| && low <= high <= |active|
    ensures ActiveWithin(active, from, low) <= ActiveWithin(active, from, high)
  {
    if low < high {
      WithinGrows(active, from, low, high - 1);
    }
  }

  lemma TurnsDiffer(active: seq<bool>, seats: seq<int>, i: nat, j: nat)
    requires Turns(active, seats) && i < j < |seats| && j < ActiveCount(active)
    ensures seats[i] != seats[j]
  {
    var d := TurnDistance(active, seats, i);
    var e := TurnDistance(active, seats, j);
    if e <= d {
      WithinGrows(active, seats[0], e, d);
      assert false;
    }
  }

  function ActiveSeats(active: seq<bool>): set<int> {
    set i | 0 <= i < |active| && active[i]
  }

  lemma {:induction false} CountOfSeats(active: seq<bool>)
    ensures |ActiveSeats(active)| == ActiveCount(active)
  {
    if active != [] {
      var k := |active| - 1;
      CountOfSeats(active[..k]);
      assert ActiveSeats(active) == ActiveSeats(active[..k]) + (if active[k] then {k} else {});
    }
  }

  function Visited(seats: seq<int>): set<int> {
    set i | i in seats
  }

  lemma {:induction false} DistinctVisits(seats: seq<int>)
    requires forall i, j :: 0 <= i < j < |seats| ==> seats[i] != seats[j]
    ensures |Visited(seats)| == |seats|
  {
    if seats != [] {
      var k := |seats| - 1;
      DistinctVisits(seats[..k]);
      assert Visited(seats) == Visited(seats[..k]) + {seats[k]};
    }
  }

  lemma SameSize(a: set<int>, b: set<int>)
    requires a <= b && |a| == |b|
    ensures a == b
  {
    assert |b - a| == |b| - |a|;
    assert b - a == {};
  }

  /** As many turns as there are active players visit every active player exactly once,
      and one more turn returns to the first. */
  lemma EveryoneTakesATurn(active: seq<bool>, seats: seq<int>)
    requires Turns(active, seats) && |seats| == ActiveCount(active)
    ensures Visited(seats) == ActiveSeats(active)
    ensures forall i, j :: 0 <= i < j < |seats| ==> seats[i] != seats[j]
    ensures IsNext(active, seats[|seats| - 1], seats[0])
  {
    forall i, j | 0 <= i < j < |seats|
      ensures seats[i] != seats[j]
    {
      TurnsDiffer(active, seats, i, j);
    }
    DistinctVisits(seats);
    CountOfSeats(active);
    SameSize(Visited(seats), ActiveSeats(active));
    ReturnsToFirst(active, seats);
  }

  lemma SomeNext(active: seq<bool>, index: int) returns (next: int)
    requires IsActive(active, index)
    ensures IsNext(active, index, next) && IsActive(active, next)
  {
    var n, k := |active|, 1;
    while k < n && !active[Forward(index, k, n)]
      invariant 1 <= k <= n && forall j: nat :: 1 <= j < k ==> !active[Forward(index, j, n)]
    {
      k := k + 1;
    }
    next := Forward(index, k, n);
    assert FirstAhead(active, index, k);
  }

  lemma ReturnsToFirst(active: seq<bool>, seats: seq<int>)
    requires Turns(active, seats) && |seats| == ActiveCount(active)
    ensures IsNext(active, seats[|seats| - 1], seats[0])
  {
    var next := SomeNext(active, seats[|seats| - 1]);
    var more := seats + [next];
    assert Turns(active, more) by {
      forall i | 0 <= i < |more| - 1
        ensures IsNext(active, more[i], more[i + 1])
      {
        if i < |seats| - 1 {
          assert more[i] == seats[i] && more[i + 1] == seats[i + 1];
        }
      }
    }
    var d := TurnDistance(active, more, |seats|);
    WithinIsCount(active, seats[0], |active|);
    if d < |active| {
      WithinGrows(active, seats[0], d, |active| - 1);
      assert false;
    }
  }
}
