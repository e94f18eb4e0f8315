/** Placement-based Elo (rating/elo.go) over the reals. The expected score is any function of the rating
    difference with values between 0 and 1 that gives two opponents one point together. */
module Elo {

  datatype Rated = Rated(rating: int, placement: int)

  datatype Rules = Rules(version: string, initial: int, kFactor: int, scale: int)

  /** Expected score of a player whose rating exceeds the opponent's by the argument. */
  type Expectation = int -> real

  ghost predicate Fair(e: Expectation) {
    forall d: int :: 0.0 < e(d) < 1.0 && e(d) + e(-d) == 1.0
  }

  function Actual(a: int, b: int): real {
    if a < b then 1.0 else if a > b then 0.0 else 0.5
  }

  /** Points gained against one opponent. */
  function Gain(p: Rated, o: Rated, e: Expectation): real {
    Actual(p.placement, o.placement) - e(p.rating - o.rating)
  }

  /** Points gained against the first n players, oneself excepted. */
  function Delta(players: seq<Rated>, i: nat, n: nat, e: Expectation): real
    requires i < |players| && n <= |players|
  {
    if n == 0 then 0.0
    else Delta(players, i, n - 1, e) + if n - 1 == i then 0.0 else Gain(players[i], players[n - 1], e)
  }

  /** Nearest integer, halves away from zero. */
  function Round(x: real): int {
    if x >= 0.0 then (x + 0.5).Floor else -((-x + 0.5).Floor)
  }

  function Change(rules: Rules, players: seq<Rated>, i: nat, e: Expectation): real
    requires i < |players| && |players| >= 2
  {
    rules.kFactor as real * Delta(players, i, |players|, e) / (|players| - 1) as real
  }

  function NewRating(rules: Rules, players: seq<Rated>, i: nat, e: Expectation): int
    requires i < |players| && |players| >= 2
  {
    var r := players[i].rating + Round(Change(rules, players, i, e));
    if r < 0 then 0 else r
  }

  predicate ValidRules(r: Rules) {
    r.version != "" && r.initial >= 0 && r.kFactor > 0 && r.scale > 0
  }

  predicate ValidPlayers(players: seq<Rated>) {
    2 <= |players| <= 4 && forall i :: 0 <= i < |players| ==>
      players[i].rating >= 0 && 1 <= players[i].placement <= |players|
  }

  /** The inner loop: gains against everyone else, scaled, rounded and floored. */
  method RateOne(rules: Rules, players: seq<Rated>, i: nat, e: Expectation) returns (rating: int)
    requires i < |players| && |players| >= 2
    ensures rating == NewRating(rules, players, i, e)
  {
    hide Round, Gain;
    var delta := 0.0;
    for j := 0 to |players|
      invariant delta == Delta(players, i, j, e)
    {
      if i == j {
        continue;
      }
      delta := delta + Gain(players[i], players[j], e);
    }
    assert delta == Delta(players, i, |players|, e);
    var change := rules.kFactor as real * delta / (|players| - 1) as real;
    assert change == Change(rules, players, i, e);
    rating := players[i].rating + Round(change);
    if rating < 0 {
      rating := 0;
    }
  }

  method Calculate(rules: Rules, players: seq<Rated>, e: Expectation) returns (ok: bool, ratings: seq<int>)
    ensures ok <==> ValidRules(rules) && ValidPlayers(players)
    ensures ok ==> |ratings| == |players| && forall i :: 0 <= i < |players| ==>
              ratings[i] == NewRating(rules, players, i, e)
  {
    hide NewRating;
    ratings := [];
    if rules.version == "" || rules.initial < 0 || rules.kFactor <= 0 || rules.scale <= 0 ||
       |players| < 2 || |players| > 4 {
      return false, [];
    }
    for i := 0 to |players|
      invariant forall k :: 0 <= k < i ==> players[k].rating >= 0 && 1 <= players[k].placement <= |players|
    {
      if players[i].rating < 0 || players[i].placement < 1 || players[i].placement > |players| {
        return false, [];
      }
    }
    for i := 0 to |players|
      invariant |ratings| == i && forall k :: 0 <= k < i ==> ratings[k] == NewRating(rules, players, k, e)
    {
      var rating := RateOne(rules, players, i, e);
      ratings := ratings + [rating];
    }
    return true, ratings;
  }

  // ---------------------------------------------------------------- gains cancel

  lemma GainsCancel(p: Rated, o: Rated, e: Expectation)
    requires Fair(e)
    ensures Gain(p, o, e) + Gain(o, p, e) == 0.0
    ensures -1.0 < Gain(p, o, e) < 1.0
  {
    assert e(p.rating - o.rating) + e(-(p.rating - o.rating)) == 1.0;
    assert -(p.rating - o.rating) == o.rating - p.rating;
  }

  /** The deltas of the first k players against the first n. */
  function Total(players: seq<Rated>, k: nat, n: nat, e: Expectation): real
    requires k <= |players| && n <= |players|
  {
    if k == 0 then 0.0 else Total(players, k - 1, n, e) + Delta(players, k - 1, n, e)
  }

  lemma {:induction false} OneMoreOpponent(players: seq<Rated>, k: nat, n: nat, e: Expectation)
    requires Fair(e) && k <= n < |players|
    ensures Total(players, k, n + 1, e) - Total(players, k, n, e) == -Delta(players, n, k, e)
  {
    if k > 0 {
      OneMoreOpponent(players, k - 1, n, e);
      GainsCancel(players[k - 1], players[n], e);
    }
  }

  lemma {:induction false} TotalsCancel(players: seq<Rated>, n: nat, e: Expectation)
    requires Fair(e) && n <= |players|
    ensures Total(players, n, n, e) == 0.0
  {
    if n > 0 {
      TotalsCancel(players, n - 1, e);
      OneMoreOpponent(players, n - 1, n - 1, e);
    }
  }

  lemma {:induction false} DeltaBound(players: seq<Rated>, i: nat, n: nat, e: Expectation)
    requires Fair(e) && i < |players| && n <= |players|
    ensures var others := if i < n then n - 1 else n;
            -(others as real) <= Delta(players, i, n, e) <= others as real
  {
    if n > 0 {
      DeltaBound(players, i, n - 1, e);
      GainsCancel(players[i], players[n - 1], e);
    }
  }

  lemma Product(k: real, a: real, b: real)
    requires k > 0.0 && a <= b
    ensures k * a <= k * b
  {
  }

  lemma Cancel(k: real, m: real)
    requires m > 0.0
    ensures k * m / m == k && k * (-m) / m == -k
  {
  }

  lemma Scaled(k: real, d: real, m: real)
    requires k > 0.0 && m > 0.0 && -m <= d <= m
    ensures -k <= k * d / m <= k
  {
    Product(k, d, m);
    Product(k, -m, d);
    Quotient(k * d, k * m, m);
    Quotient(k * (-m), k * d, m);
    Cancel(k, m);
  }

  lemma Quotient(a: real, b: real, m: real)
    requires m > 0.0 && a <= b
    ensures a / m <= b / m
  {
  }

  lemma RoundWithin(x: real)
    ensures -0.5 <= Round(x) as real - x <= 0.5
  {
  }

  lemma RoundBounded(x: real, k: int)
    requires -(k as real) <= x <= k as real
    ensures -k <= Round(x) <= k
  {
  }

  lemma RoundMonotone(x: real, y: real)
    requires x <= y
    ensures Round(x) <= Round(y)
  {
  }

  /** No rating moves by more than the K factor. */
  lemma ChangeBounded(rules: Rules, players: seq<Rated>, i: nat, e: Expectation)
    requires Fair(e) && ValidRules(rules) && i < |players| && |players| >= 2
    ensures -rules.kFactor <= Round(Change(rules, players, i, e)) <= rules.kFactor
  {
    hide Delta, Round, Fair;
    DeltaBound(players, i, |players|, e);
    var k, m := rules.kFactor as real, (|players| - 1) as real;
    assert k > 0.0 && m > 0.0;
    Scaled(k, Delta(players, i, |players|, e), m);
    assert Change(rules, players, i, e) == k * Delta(players, i, |players|, e) / m;
    RoundBounded(Change(rules, players, i, e), rules.kFactor);
  }

  // ---------------------------------------------------------------- sums over all players

  function ChangeSum(rules: Rules, players: seq<Rated>, k: nat, e: Expectation): real
    requires k <= |players| && |players| >= 2
  {
    if k == 0 then 0.0 else ChangeSum(rules, players, k - 1, e) + Change(rules, players, k - 1, e)
  }

  function RoundedSum(rules: Rules, players: seq<Rated>, k: nat, e: Expectation): int
    requires k <= |players| && |players| >= 2
  {
    if k == 0 then 0 else RoundedSum(rules, players, k - 1, e) + Round(Change(rules, players, k - 1, e))
  }

  lemma Distribute(k: real, a: real, b: real, m: real)
    requires m > 0.0
    ensures k * (a + b) / m == k * a / m + k * b / m
  {
  }

  lemma {:induction false} ChangesAreScaledTotals(rules: Rules, players: seq<Rated>, k: nat, e: Expectation)
    requires k <= |players| && |players| >= 2
    ensures ChangeSum(rules, players, k, e) ==
            rules.kFactor as real * Total(players, k, |players|, e) / (|players| - 1) as real
  {
    if k > 0 {
      ChangesAreScaledTotals(rules, players, k - 1, e);
      Distribute(rules.kFactor as real, Total(players, k - 1, |players|, e), Delta(players, k - 1, |players|, e),
                 (|players| - 1) as real);
    }
  }

  lemma {:induction false} RoundingDrift(rules: Rules, players: seq<Rated>, k: nat, e: Expectation)
    requires k <= |players| && |players| >= 2
    ensures -(k as real) / 2.0 <=
            RoundedSum(rules, players, k, e) as real - ChangeSum(rules, players, k, e) <= k as real / 2.0
  {
    if k > 0 {
      RoundingDrift(rules, players, k - 1, e);
      RoundWithin(Change(rules, players, k - 1, e));
    }
  }

  /** Before rounding the changes sum to zero; rounding adds at most half a point per player. */
  lemma ChangesBalance(rules: Rules, players: seq<Rated>, e: Expectation)
    requires Fair(e) && |players| >= 2
    ensures ChangeSum(rules, players, |players|, e) == 0.0
    ensures -(|players| as real) / 2.0 <= RoundedSum(rules, players, |players|, e) as real <= |players| as real / 2.0
  {
    TotalsCancel(players, |players|, e);
    ChangesAreScaledTotals(rules, players, |players|, e);
    RoundingDrift(rules, players, |players|, e);
  }

  // ---------------------------------------------------------------- better placement, better rating

  lemma {:induction false} BetterDelta(players: seq<Rated>, i: nat, j: nat, n: nat, e: Expectation)
    requires Fair(e) && i < |players| && j < |players| && i != j && n <= |players|
    requires players[i].rating == players[j].rating && players[i].placement <= players[j].placement
    ensures var gi := if n > j then Gain(players[i], players[j], e) else 0.0;
            var gj := if n > i then Gain(players[j], players[i], e) else 0.0;
            Delta(players, i, n, e) - gi >= Delta(players, j, n, e) - gj
  {
    if n > 0 {
      BetterDelta(players, i, j, n - 1, e);
    }
  }

  lemma ChangeFollowsDelta(rules: Rules, p: seq<Rated>, i: nat, q: seq<Rated>, j: nat, e: Expectation)
    requires ValidRules(rules) && |p| == |q| >= 2 && i < |p| && j < |q|
    requires Delta(p, i, |p|, e) <= Delta(q, j, |q|, e)
    ensures Round(Change(rules, p, i, e)) <= Round(Change(rules, q, j, e))
  {
    hide Delta, Round;
    var k, m := rules.kFactor as real, (|p| - 1) as real;
    var a, b := Delta(p, i, |p|, e), Delta(q, j, |q|, e);
    Product(k, a, b);
    Quotient(k * a, k * b, m);
    RoundMonotone(Change(rules, p, i, e), Change(rules, q, j, e));
  }

  /** Of two players with the same rating the better placed one does not end up below the other. */
  lemma PlacementOrderKept(rules: Rules, players: seq<Rated>, i: nat, j: nat, e: Expectation)
    requires Fair(e) && ValidRules(rules) && |players| >= 2 && i < |players| && j < |players| && i != j
    requires players[i].rating == players[j].rating && players[i].placement <= players[j].placement
    ensures NewRating(rules, players, i, e) >= NewRating(rules, players, j, e)
  {
    BetterDelta(players, i, j, |players|, e);
    ChangeFollowsDelta(rules, players, j, players, i, e);
  }

  // ---------------------------------------------------------------- the favourite gains less

  /** A larger rating lead is worth a larger expected score. */
  ghost predicate Rising(e: Expectation) {
    forall a: int, b: int :: a <= b ==> e(a) <= e(b)
  }

  /** Player i with another rating before the game. */
  function Rerated(players: seq<Rated>, i: nat, rating: int): (r: seq<Rated>)
    requires i < |players|
    ensures |r| == |players|
  {
    players[i := players[i].(rating := rating)]
  }

  lemma {:induction false} LeadLowersDelta(players: seq<Rated>, i: nat, rating: int, j: nat, n: nat, e: Expectation)
    requires Rising(e) && i < |players| && j < |players| && n <= |players| && players[i].rating <= rating
    ensures j == i ==> Delta(Rerated(players, i, rating), j, n, e) <= Delta(players, j, n, e)
    ensures j != i ==> Delta(Rerated(players, i, rating), j, n, e) >= Delta(players, j, n, e)
  {
    if n > 0 {
      LeadLowersDelta(players, i, rating, j, n - 1, e);
      var q := Rerated(players, i, rating);
      assert forall k :: 0 <= k < |players| && k != i ==> q[k] == players[k];
      if n - 1 != j {
        if j == i {
          assert players[i].rating - players[n - 1].rating <= q[i].rating - q[n - 1].rating;
        } else {
          assert q[j].rating - q[n - 1].rating <= players[j].rating - players[n - 1].rating;
        }
      }
    }
  }

  /** Had player i been rated higher before the game, the same placements would change that rating no more and
      everybody else's no less. */
  lemma StrongerGainsLess(rules: Rules, players: seq<Rated>, i: nat, rating: int, j: nat, e: Expectation)
    requires Rising(e) && ValidRules(rules) && |players| >= 2 && i < |players| && j < |players|
    requires players[i].rating <= rating
    ensures var was, now := Round(Change(rules, players, j, e)),
                            Round(Change(rules, Rerated(players, i, rating), j, e));
            if j == i then now <= was else now >= was
  {
    hide Delta, Round, Change;
    var q := Rerated(players, i, rating);
    LeadLowersDelta(players, i, rating, j, |players|, e);
    if j == i {
      ChangeFollowsDelta(rules, q, i, players, i, e);
    } else {
      ChangeFollowsDelta(rules, players, j, q, j, e);
    }
  }

  lemma WinnerOfTwo(p: Rated, o: Rated, e: Expectation)
    requires Fair(e) && Rising(e) && p.placement < o.placement
    ensures 0.0 < Gain(p, o, e) && 0.0 > Gain(o, p, e)
    ensures p.rating >= o.rating ==> Gain(p, o, e) <= 0.5
    ensures p.rating <= o.rating ==> Gain(p, o, e) >= 0.5
  {
    GainsCancel(p, o, e);
    assert e(0) + e(-0) == 1.0;
    assert e(p.rating - o.rating) < 1.0;
    if p.rating >= o.rating {
      assert e(0) <= e(p.rating - o.rating);
    }
    if p.rating <= o.rating {
      assert e(p.rating - o.rating) <= e(0);
    }
  }

  lemma {:induction false} DuelDelta(players: seq<Rated>, i: nat, e: Expectation)
    requires |players| == 2 && i < 2
    ensures Delta(players, i, 2, e) == Gain(players[i], players[1 - i], e)
  {
    assert Delta(players, i, 1, e) == Delta(players, i, 0, e) + if i == 0 then 0.0 else Gain(players[i], players[0], e);
  }

  lemma Stake(k: real, g: real)
    requires k > 0.0 && g > 0.0
    ensures k * g / 1.0 > 0.0 && k * (-g) / 1.0 == -(k * g / 1.0)
    ensures g <= 0.5 ==> k * g / 1.0 <= k / 2.0
    ensures g >= 0.5 ==> k * g / 1.0 >= k / 2.0
  {
    if g <= 0.5 {
      Product(k, g, 0.5);
    }
    if g >= 0.5 {
      Product(k, 0.5, g);
    }
  }

  /** In a game of two the winner does not lose, the loser does not gain, and what they exchange is at most half the
      K factor for a favourite's win and at least half of it for an upset. */
  lemma DuelFavoursUpsets(rules: Rules, players: seq<Rated>, w: nat, e: Expectation)
    requires Fair(e) && Rising(e) && ValidRules(rules) && |players| == 2 && w < 2
    requires players[w].placement < players[1 - w].placement
    ensures var k, c := rules.kFactor as real, Change(rules, players, w, e);
            && Change(rules, players, 1 - w, e) == -c && 0.0 < c
            && (players[w].rating >= players[1 - w].rating ==> c <= k / 2.0)
            && (players[w].rating <= players[1 - w].rating ==> c >= k / 2.0)
    ensures NewRating(rules, players, w, e) >= players[w].rating
    ensures NewRating(rules, players, 1 - w, e) <= players[1 - w].rating || NewRating(rules, players, 1 - w, e) == 0
  {
    hide Delta, Gain, Fair, Rising;
    var p, o, k := players[w], players[1 - w], rules.kFactor as real;
    DuelDelta(players, w, e);
    DuelDelta(players, 1 - w, e);
    WinnerOfTwo(p, o, e);
    GainsCancel(p, o, e);
    var g := Gain(p, o, e);
    assert Gain(o, p, e) == -g;
    Stake(k, g);
    assert Change(rules, players, w, e) == k * g / 1.0;
    assert Change(rules, players, 1 - w, e) == k * (-g) / 1.0;
    RoundMonotone(0.0, k * g / 1.0);
    RoundMonotone(k * (-g) / 1.0, 0.0);
  }
}
