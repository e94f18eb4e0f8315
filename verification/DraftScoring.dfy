/** The browser's draft scoring (game-card-utils.ts), written independently of the server's
    and proved to give the same verdicts and the same totals. */
module DraftScoring {
  import opened Cards
  import opened RunSpec
  import opened RunFitting
  import opened RunFilling
  import opened RunScoring
  import opened Compositions
  import opened CompositionObjects

  method FilterNaturals(cards: seq<Card>) returns (nats: seq<Card>)
    ensures NaturalPart(nats, cards)
  {
    var jokers;
    nats, jokers := SplitJokers(cards);
  }

  // ---------------------------------------------------------------- sets

  /** The set scan gives up at the first card of another rank or of a suit seen before. */
  method DraftSetPointTotal(cards: seq<Card>) returns (r: Option<nat>)
    ensures r == if IsSet(cards) then Some(Points(Set, cards)) else None
  {
    SetIffShape(cards);
    if |cards| < 3 || |cards| > 4 {
      return None;
    }
    var setRank := SetRank(cards);
    if SetShape(cards) {
      SetRankOf(cards);
    }
    var seenSuits: set<Suit> := {};
    for i := 0 to |cards|
      invariant forall j :: 0 <= j < i && cards[j].Natural? ==> cards[j].rank == setRank && cards[j].suit in seenSuits
      invariant forall suit :: suit in seenSuits ==>
                  exists j :: 0 <= j < i && cards[j].Natural? && cards[j].suit == suit
      invariant forall j, k :: 0 <= j < k < i && cards[j].Natural? && cards[k].Natural? ==>
                  cards[j].suit != cards[k].suit
    {
      if cards[i].Joker? {
        continue;
      }
      assert cards[i] in cards;
      if cards[i].rank != setRank || cards[i].suit in seenSuits {
        return None;
      }
      seenSuits := seenSuits + {cards[i].suit};
    }
    return Some(|cards| * RankPoints(setRank, false));
  }

  // ---------------------------------------------------------------- runs

  /** The positions the greedy search has taken for the naturals seen so far. */
  ghost predicate UsedBy(used: set<int>, m: multiset<Card>, suit: Suit, start: int, n: int) {
    var ace := Natural(ACE, suit);
    && (forall p :: p in used ==> start <= p < start + n)
    && (forall p :: 2 <= p <= 13 ==> (p in used <==> m[Natural(p, suit)] > 0))
    && (1 in used <==> start == 1 && m[ace] >= 1)
    && (14 in used <==> start + n == 15 && m[ace] >= AceSlots(start, n))
  }

  lemma AdmitsOneMore(m: multiset<Card>, suit: Suit, start: int, n: int, c: Card)
    requires Admits(m, suit, start, n) && c.Natural? && c.suit == suit
    ensures Admits(m + multiset{c}, suit, start, n) <==>
            if c.rank == ACE then m[c] < AceSlots(start, n) else start <= c.rank < start + n && m[c] == 0
  {
    var m' := m + multiset{c};
    assert c in m';
    assert forall x :: m'[x] == m[x] + (if x == c then 1 else 0);
  }

  lemma AdmitsLess(m: multiset<Card>, more: multiset<Card>, suit: Suit, start: int, n: int)
    requires Admits(m + more, suit, start, n)
    ensures Admits(m, suit, start, n)
  {
    assert forall c :: c in m ==> c in m + more && m[c] <= (m + more)[c];
  }

  function FreePosition(rank: Rank, used: set<int>, start: int, n: int): int {
    if rank == ACE then
      (if start <= 1 < start + n && 1 !in used then 1 else if start <= 14 < start + n && 14 !in used then 14 else 0)
    else if start <= rank < start + n && rank !in used then rank else 0
  }

  /** Taking the free position keeps track of what is used; there is none exactly when the card does not fit. */
  lemma GreedyStep(used: set<int>, m: multiset<Card>, suit: Suit, start: int, n: int, c: Card)
    requires Admits(m, suit, start, n) && UsedBy(used, m, suit, start, n) && c.Natural? && c.suit == suit
    ensures var p := FreePosition(c.rank, used, start, n);
            (p != 0 <==> Admits(m + multiset{c}, suit, start, n)) &&
            (p != 0 ==> UsedBy(used + {p}, m + multiset{c}, suit, start, n))
  {
    AdmitsOneMore(m, suit, start, n, c);
    assert forall x :: (m + multiset{c})[x] == m[x] + (if x == c then 1 else 0);
  }

  lemma PrefixFails(nats: seq<Card>, i: nat, suit: Suit, start: int, n: int)
    requires i <= |nats| && !Admits(multiset(nats[..i]), suit, start, n)
    ensures !Admits(multiset(nats), suit, start, n)
  {
    if Admits(multiset(nats), suit, start, n) {
      assert nats == nats[..i] + nats[i..];
      AdmitsLess(multiset(nats[..i]), multiset(nats[i..]), suit, start, n);
    }
  }

  /** The greedy placement of one window: an ace takes position 1 if it can, else 14. */
  method GreedyFits(nats: seq<Card>, suit: Suit, start: int, n: int) returns (fits: bool)
    requires SameSuit(nats, suit) && Window(start, n)
    ensures fits <==> Admits(multiset(nats), suit, start, n)
  {
    var used: set<int> := {};
    for i := 0 to |nats|
      invariant Admits(multiset(nats[..i]), suit, start, n)
      invariant UsedBy(used, multiset(nats[..i]), suit, start, n)
    {
      assert multiset(nats[..i + 1]) == multiset(nats[..i]) + multiset{nats[i]} by {
        assert nats[..i + 1] == nats[..i] + [nats[i]];
      }
      GreedyStep(used, multiset(nats[..i]), suit, start, n, nats[i]);
      var position := GreedyPosition(nats[i].rank, used, start, n);
      if position == 0 {
        PrefixFails(nats, i + 1, suit, start, n);
        return false;
      }
      used := used + {position};
    }
    assert nats[..|nats|] == nats;
    return true;
  }

  /** The first possible position that lies in the window and is free, or 0. */
  method GreedyPosition(rank: Rank, used: set<int>, start: int, n: int) returns (position: int)
    requires Window(start, n)
    ensures position == FreePosition(rank, used, start, n)
  {
    var own: int := rank;
    var possiblePositions: seq<int> := if rank == ACE then [1, 14] else [own];
    for k := 0 to |possiblePositions|
      invariant forall j :: 0 <= j < k ==> !(start <= possiblePositions[j] < start + n && possiblePositions[j] !in used)
    {
      var candidate := possiblePositions[k];
      if candidate >= start && candidate <= start + n - 1 && candidate !in used {
        return candidate;
      }
    }
    assert rank == ACE ==> possiblePositions[0] == 1 && possiblePositions[1] == 14;
    assert rank != ACE ==> possiblePositions[0] == own;
    return 0;
  }

  method WindowTotalOf(start: int, n: nat) returns (total: nat)
    requires Window(start, n)
    ensures total == WindowValue(start, n)
  {
    total := 0;
    for rank := start to start + n
      invariant total == WindowValue(start, rank - start)
    {
      total := total + RankPoints(if rank == 14 then 1 else rank, rank == 1);
    }
  }

  /** `best` is the most any admissible window below `bound` is worth. */
  ghost predicate BestBelow(best: Option<nat>, m: multiset<Card>, suit: Suit, n: nat, bound: int)
    requires n <= 14 && bound + n <= 16
  {
    match best
    case None => forall s :: s < bound ==> !Admits(m, suit, s, n)
    case Some(v) =>
      (exists s :: s < bound && Admits(m, suit, s, n) && v == WindowValue(s, n)) &&
      (forall s :: s < bound && Admits(m, suit, s, n) ==> WindowValue(s, n) <= v)
  }

  /** The loop over windows. */
  method BestWindow(nats: seq<Card>, suit: Suit, n: nat) returns (best: Option<nat>)
    requires SameSuit(nats, suit) && 3 <= n <= 14
    ensures BestBelow(best, multiset(nats), suit, n, 16 - n)
  {
    best := None;
    for start := 1 to 16 - n
      invariant BestBelow(best, multiset(nats), suit, n, start)
    {
      var fits := GreedyFits(nats, suit, start, n);
      if !fits {
        continue;
      }
      var total := WindowTotalOf(start, n);
      best := Some(if best.Some? && best.value > total then best.value else total);
    }
  }

  /** Which suit admits a window does not matter beyond the one the naturals share. */
  lemma AdmissibleIffAdmits(cards: seq<Card>, nats: seq<Card>, suit: Suit, s: int)
    requires NaturalPart(nats, cards) && SameSuit(nats, suit)
    ensures Admissible(multiset(cards), s, |cards|) <==> Admits(multiset(nats), suit, s, |cards|)
  {
    AdmitsNaturals(cards, nats, suit, s, |cards|);
    if suit' :| Admits(multiset(cards), suit', s, |cards|) {
      AdmitsSameSuit(cards, nats, suit', s, |cards|);
      AdmitsNaturals(cards, nats, suit', s, |cards|);
      AnySuitWhenEmpty(multiset(nats), suit', suit, s, |cards|, nats);
    }
  }

  lemma BestWindowIsBestTotal(cards: seq<Card>, nats: seq<Card>, suit: Suit, best: Option<nat>)
    requires 3 <= |cards| <= 14 && NaturalPart(nats, cards) && SameSuit(nats, suit)
    requires BestBelow(best, multiset(nats), suit, |cards|, 16 - |cards|)
    ensures best == if IsRun(cards) then Some(BestTotal(cards)) else None
  {
    var m, m', n := multiset(cards), multiset(nats), |cards|;
    forall s
      ensures Admissible(m, s, n) <==> Admits(m', suit, s, n)
    {
      AdmissibleIffAdmits(cards, nats, suit, s);
    }
    RunIffAdmissible(cards);
    if best.Some? {
      var s :| s < 16 - n && Admits(m', suit, s, n) && best.value == WindowValue(s, n);
      assert Admissible(m, s, n);
      BestOfIsMaximum(m, n, s);
      var top :| Admissible(m, top, n) && WindowValue(top, n) == BestOf(m, n);
      assert Admits(m', suit, top, n);
    }
  }

  lemma AnySuitWhenEmpty(m: multiset<Card>, suit: Suit, other: Suit, s: int, n: int, nats: seq<Card>)
    requires m == multiset(nats) && SameSuit(nats, suit) && SameSuit(nats, other) && Admits(m, suit, s, n)
    ensures Admits(m, other, s, n)
  {
    if nats != [] {
      assert nats[0].suit == suit == other;
    }
  }

  method DraftRunPointTotal(cards: seq<Card>) returns (r: Option<nat>)
    ensures r == if IsRun(cards) then Some(BestTotal(cards)) else None
  {
    if |cards| < 3 || |cards| > 14 {
      return None;
    }
    var nats := FilterNaturals(cards);
    var runSuit := if |nats| > 0 then nats[0].suit else Hearts;
    for i := 0 to |nats|
      invariant forall j :: 0 <= j < i ==> nats[j].suit == runSuit
    {
      if nats[i].suit != runSuit {
        MixedSuitsNeverRun(cards, nats, 0, i);
        return None;
      }
    }
    r := BestWindow(nats, runSuit, |cards|);
    BestWindowIsBestTotal(cards, nats, runSuit, r);
  }

  // ---------------------------------------------------------------- drafts

  /** The server's reading of a draft of undeclared kind: a set if it is one, else a run. */
  ghost function InferredVariant(cards: seq<Card>, kind: Option<Variant>): Variant {
    if kind.Some? then kind.value else if IsSet(cards) then Set else Run
  }

  function FaceTotal(cards: seq<Card>): nat {
    if cards == [] then 0 else FaceTotal(cards[..|cards| - 1]) + RankPoints(RankField(cards[|cards| - 1]), false)
  }

  method ResolvedPoints(cards: seq<Card>, kind: Option<Variant>) returns (r: Option<nat>)
    ensures var variant := InferredVariant(cards, kind);
            if ValidCards(variant, cards)
            then r == Some(if variant == Run then BestTotal(cards) else Points(Set, cards)) else r == None
  {
    if kind == Some(Set) {
      r := DraftSetPointTotal(cards);
    } else if kind == Some(Run) {
      r := DraftRunPointTotal(cards);
    } else {
      r := DraftSetPointTotal(cards);
      if r.None? {
        r := DraftRunPointTotal(cards);
      }
    }
  }

  /** A draft with at least one natural shows exactly the points the server will give it. */
  method DraftCompositionPointTotal(cards: seq<Card>, kind: Option<Variant>) returns (r: Option<nat>)
    ensures var variant := InferredVariant(cards, kind);
            if JokerCount(cards) == |cards| then r == None
            else if ValidCards(variant, cards) then r == Some(Points(variant, cards))
            else r == if AllNatural(cards) then Some(FaceTotal(cards)) else None
  {
    var nats := FilterNaturals(cards);
    if nats == [] {
      return None;
    }
    var resolved := ResolvedPoints(cards, kind);
    if resolved.Some? {
      return resolved;
    }
    if |nats| != |cards| {
      JokerAmong(cards);
      return None;
    }
    NoJokerAmong(cards);
    var total := 0;
    for i := 0 to |cards|
      invariant total == FaceTotal(cards[..i])
    {
      assert cards[..i + 1][..i] == cards[..i];
      total := total + RankPoints(RankField(cards[i]), false);
    }
    assert cards[..|cards|] == cards;
    return Some(total);
  }

  lemma JokerAmong(cards: seq<Card>)
    requires JokerCount(cards) > 0
    ensures !AllNatural(cards)
  {
    assert Joker in multiset(cards);
  }

  lemma NoJokerAmong(cards: seq<Card>)
    requires JokerCount(cards) == 0
    ensures AllNatural(cards)
  {
    forall i | 0 <= i < |cards|
      ensures cards[i].Natural?
    {
      assert cards[i] in multiset(cards);
    }
  }

  method IsValidDraftComposition(cards: seq<Card>, kind: Option<Variant>) returns (valid: bool)
    ensures valid <==> ValidCards(InferredVariant(cards, kind), cards)
  {
    var resolved := ResolvedPoints(cards, kind);
    return resolved.Some?;
  }

  /** The browser marks a draft complete exactly when the server would clear it off the table. */
  method IsCompleteDraftComposition(cards: seq<Card>, kind: Option<Variant>) returns (complete: bool)
    ensures complete <==> Complete(InferredVariant(cards, kind), cards)
  {
    for i := 0 to |cards|
      invariant forall j :: 0 <= j < i ==> cards[j].Natural?
    {
      if cards[i].Joker? {
        return false;
      }
    }
    var setTotal := DraftSetPointTotal(cards);
    if kind == Some(Set) || (kind.None? && setTotal.Some?) {
      return |cards| == 4 && setTotal.Some?;
    }
    var runTotal := DraftRunPointTotal(cards);
    return |cards| == 14 && runTotal.Some?;
  }
}
