/** Properties of the game rules: what drawFromPile delivers and loses, how a
    play or a draw changes a game, and the layout of a new game. */
module GameProperties {
  import opened Wrappers
  import opened Cards
  import opened Deck
  import opened GameRules

  function Min(a: int, b: int): int
  {
    if a <= b then a else b
  }

  /** Drawing `count` cards runs the draw pile dry with more than one card on the
      discard pile, so the discard pile is recycled. */
  predicate Recycles(p: Piles, count: nat)
  {
    |p.draw| < count && |p.discard| >= 2
  }

  lemma {:induction false} DrawWithoutRecycle(p: Piles, count: nat, picks: seq<nat>)
    requires !Recycles(p, count)
    ensures var m := Min(count, |p.draw|);
      DrawLoop(p, count, picks) == Piles(p.hand + p.draw[..m], p.draw[m..], p.discard)
    decreases count
  {
    var m := Min(count, |p.draw|);
    if count == 0 || |p.draw| == 0 {
      assert p.hand + p.draw[..m] == p.hand;
      assert p.draw[m..] == p.draw;
    } else {
      var p1 := Piles(p.hand + [p.draw[0]], p.draw[1..], p.discard);
      assert DrawStep(p, picks) == Some(p1);
      DrawWithoutRecycle(p1, count - 1, picks);
      assert p1.hand + p1.draw[..m - 1] == p.hand + p.draw[..m];
      assert p1.draw[m - 1..] == p.draw[m..];
    }
  }

  /** With the draw pile empty and two or more discard cards, the loop behaves
      as if it had started on the recycled piles. */
  lemma RecycleFirst(p: Piles, count: nat, picks: seq<nat>)
    requires Recycles(p, count) && |p.draw| == 0
    ensures DrawLoop(p, count, picks) == DrawLoop(Recycle(p, picks), count, picks)
  {
    var q := Recycle(p, picks);
    assert |q.discard| == 1;
    if |q.draw| == 0 {
      assert DrawStep(p, picks) == Some(q);
      assert DrawStep(q, picks) == None;
      if count - 1 > 0 {
        assert DrawLoop(q, count - 1, picks) == q;
      }
    } else {
      assert DrawStep(p, picks) == DrawStep(q, picks);
    }
  }

  /** The recycling case when the draw pile is already empty. */
  lemma RecycleAtOnce(p: Piles, count: nat, picks: seq<nat>)
    requires Recycles(p, count) && |p.draw| == 0
    ensures var d := p.discard;
      var renewed := Shuffled(d[..|d| - 2], picks);
      var m := Min(count, |d| - 2);
      DrawLoop(p, count, picks) == Piles(p.hand + renewed[..m], renewed[m..], [d[|d| - 1]])
  {
    var q := Recycle(p, picks);
    RecycleFirst(p, count, picks);
    DrawWithoutRecycle(q, count, picks);
  }

  lemma {:induction false} DrawWithRecycle(p: Piles, count: nat, picks: seq<nat>)
    requires Recycles(p, count)
    ensures var d := p.discard;
      var renewed := Shuffled(d[..|d| - 2], picks);
      var m := Min(count - |p.draw|, |d| - 2);
      DrawLoop(p, count, picks) == Piles(p.hand + p.draw + renewed[..m], renewed[m..], [d[|d| - 1]])
    decreases count
  {
    if |p.draw| > 0 {
      var p1 := Piles(p.hand + [p.draw[0]], p.draw[1..], p.discard);
      assert DrawStep(p, picks) == Some(p1);
      DrawWithRecycle(p1, count - 1, picks);
      assert p1.hand + p1.draw == p.hand + p.draw;
    } else {
      RecycleAtOnce(p, count, picks);
      assert p.hand + p.draw == p.hand;
    }
  }

  /** drawFromPile's loop in closed form: the hand takes the front of the draw
      pile; if that runs out while the discard pile has two or more cards, the
      discard pile is recycled (its top stays, the card under it is lost, the
      rest is shuffled into a new draw pile) and the hand goes on drawing from
      the new pile. */
  lemma DrawLoopClosedForm(p: Piles, count: nat, picks: seq<nat>)
    ensures var r := DrawLoop(p, count, picks);
      var d := p.discard;
      if Recycles(p, count) then
        var renewed := Shuffled(d[..|d| - 2], picks);
        var m := Min(count - |p.draw|, |d| - 2);
        r == Piles(p.hand + p.draw + renewed[..m], renewed[m..], [d[|d| - 1]])
      else
        var m := Min(count, |p.draw|);
        r == Piles(p.hand + p.draw[..m], p.draw[m..], p.discard)
  {
    if Recycles(p, count) {
      DrawWithRecycle(p, count, picks);
    } else {
      DrawWithoutRecycle(p, count, picks);
    }
  }

  /** The cards held in a set of piles. */
  function PileCards(p: Piles): multiset<Card>
  {
    multiset(p.hand) + multiset(p.draw) + multiset(p.discard)
  }

  /** Multiset bookkeeping for a recycle: the hand takes the old draw pile and a
      prefix of the reshuffled discard cards, the rest become the draw pile and
      the old top stays; only the card under the top is missing. */
  lemma RecycledCards(p: Piles, renewed: seq<Card>, m: nat)
    requires |p.discard| >= 2 && m <= |renewed|
    requires multiset(renewed) == multiset(p.discard[..|p.discard| - 2])
    ensures var d := p.discard;
      PileCards(Piles(p.hand + p.draw + renewed[..m], renewed[m..], [d[|d| - 1]]))
        + multiset{d[|d| - 2]} == PileCards(p)
  {
    var d := p.discard;
    assert renewed == renewed[..m] + renewed[m..];
    assert d == d[..|d| - 2] + [d[|d| - 2]] + [d[|d| - 1]];
  }

  /** drawFromPile's loop only appends to the hand, at most `count` cards; it
      keeps a non-empty discard pile non-empty; and it loses exactly one card,
      the one under the discard top, when it recycles, and none otherwise. */
  lemma DrawLoopConserves(p: Piles, count: nat, picks: seq<nat>)
    ensures var r := DrawLoop(p, count, picks);
      && |p.hand| <= |r.hand| <= |p.hand| + count
      && r.hand[..|p.hand|] == p.hand
      && (|p.discard| > 0 ==> |r.discard| > 0)
      && (!Recycles(p, count) ==> PileCards(r) == PileCards(p))
      && (Recycles(p, count) ==>
            PileCards(r) + multiset{p.discard[|p.discard| - 2]} == PileCards(p))
  {
    DrawLoopClosedForm(p, count, picks);
    var d := p.discard;
    if Recycles(p, count) {
      var renewed := Shuffled(d[..|d| - 2], picks);
      var m := Min(count - |p.draw|, |d| - 2);
      RecycleConserves(p, count, renewed, m);
    } else {
      PlainDrawConserves(p, count, Min(count, |p.draw|));
    }
  }

  /** The recycling case of DrawLoopConserves, on the loop's closed form. */
  lemma RecycleConserves(p: Piles, count: nat, renewed: seq<Card>, m: nat)
    requires |p.discard| >= 2 && m <= |renewed| && |p.draw| + m <= count
    requires multiset(renewed) == multiset(p.discard[..|p.discard| - 2])
    ensures var d := p.discard;
      var r := Piles(p.hand + p.draw + renewed[..m], renewed[m..], [d[|d| - 1]]);
      && |p.hand| <= |r.hand| <= |p.hand| + count
      && r.hand[..|p.hand|] == p.hand
      && PileCards(r) + multiset{d[|d| - 2]} == PileCards(p)
  {
    var d := p.discard;
    var r := Piles(p.hand + p.draw + renewed[..m], renewed[m..], [d[|d| - 1]]);
    assert r.hand[..|p.hand|] == p.hand;
    RecycledCards(p, renewed, m);
  }

  /** The case of DrawLoopConserves without a recycle, on the loop's closed form. */
  lemma PlainDrawConserves(p: Piles, count: nat, m: nat)
    requires m <= count && m <= |p.draw|
    ensures var r := Piles(p.hand + p.draw[..m], p.draw[m..], p.discard);
      && |p.hand| <= |r.hand| <= |p.hand| + count
      && r.hand[..|p.hand|] == p.hand
      && PileCards(r) == PileCards(p)
  {
    var r := Piles(p.hand + p.draw[..m], p.draw[m..], p.discard);
    assert r.hand[..|p.hand|] == p.hand;
    assert p.draw == p.draw[..m] + p.draw[m..];
  }

  /** The cards in play, counted through the hand of `id` and of its opponent. */
  lemma CardsByHand(s: GameState, id: string)
    ensures AllCards(s) == multiset(HandOf(s, id)) + multiset(HandOf(s, Opponent(id)))
                           + multiset(s.drawPile) + multiset(s.discardPile)
    ensures Total(s) == |HandOf(s, id)| + |HandOf(s, Opponent(id))| + |s.drawPile| + |s.discardPile|
  {
  }

  /** The fields no draw changes. */
  predicate SameSettings(r: GameState, s: GameState)
  {
    r.gameId == s.gameId && r.gameMode == s.gameMode && r.currentPlayerId == s.currentPlayerId &&
    r.winner == s.winner && r.requestedShape == s.requestedShape
  }

  /** The state drawFromPile leaves: the target's hand and both piles are the
      loop's, everything else is as it was. */
  lemma DrawFromPileFields(s: GameState, target: string, count: nat, picks: seq<nat>)
    ensures var r := DrawFromPile(s, target, count, picks);
      var q := DrawLoop(PilesOf(s, target), count, picks);
      && HandOf(r, target) == q.hand && r.drawPile == q.draw && r.discardPile == q.discard
      && HandOf(r, Opponent(target)) == HandOf(s, Opponent(target))
      && SameSettings(r, s)
      && AllCards(r) == PileCards(q) + multiset(HandOf(s, Opponent(target)))
      && AllCards(s) == PileCards(PilesOf(s, target)) + multiset(HandOf(s, Opponent(target)))
  {
  }

  /** drawFromPile on a game: the target's hand gets at most `count` cards at its
      end, the other hand and the game's settings stay, a non-empty discard pile
      stays non-empty, and the total number of cards drops by one exactly when
      the discard pile is recycled, the lost card being the one under the top. */
  lemma DrawFromPileConserves(s: GameState, target: string, count: nat, picks: seq<nat>)
    ensures var r := DrawFromPile(s, target, count, picks);
      && HandOf(r, Opponent(target)) == HandOf(s, Opponent(target))
      && |HandOf(s, target)| <= |HandOf(r, target)| <= |HandOf(s, target)| + count
      && HandOf(r, target)[..|HandOf(s, target)|] == HandOf(s, target)
      && SameSettings(r, s)
      && (|s.discardPile| > 0 ==> |r.discardPile| > 0)
      && (!Recycles(PilesOf(s, target), count) ==> AllCards(r) == AllCards(s))
      && (Recycles(PilesOf(s, target), count) ==>
            AllCards(r) + multiset{s.discardPile[|s.discardPile| - 2]} == AllCards(s))
  {
    DrawLoopConserves(PilesOf(s, target), count, picks);
    DrawFromPileFields(s, target, count, picks);
  }

  /** The card count behind DrawFromPileConserves: one card fewer after a
      recycle, the same otherwise. */
  lemma DrawFromPileTotal(s: GameState, target: string, count: nat, picks: seq<nat>)
    ensures Total(DrawFromPile(s, target, count, picks))
              == Total(s) - (if Recycles(PilesOf(s, target), count) then 1 else 0)
  {
    var r := DrawFromPile(s, target, count, picks);
    DrawFromPileConserves(s, target, count, picks);
    assert |AllCards(r)| == Total(r) && |AllCards(s)| == Total(s);
  }

  // playCard

  /** isValidMove: a whot card may always be played; any other card must have
      the requested shape when one is set, and otherwise share the top card's
      shape or number, so without a request matching is symmetric. */
  lemma ValidMoveCases(played: Card, top: Card, requested: Option<Shape>)
    ensures played.shape == Whot ==> IsValidMove(played, top, requested)
    ensures played.shape != Whot && requested.Some? ==>
      (IsValidMove(played, top, requested) <==> played.shape == requested.value)
    ensures played.shape != Whot && requested.None? ==>
      (IsValidMove(played, top, requested) <==> played.shape == top.shape || played.number == top.number)
    ensures played.shape != Whot && top.shape != Whot ==>
      IsValidMove(played, top, None) == IsValidMove(top, played, None)
  {
  }

  /** switchPlayer's mapping is a toggle exactly on the two seat ids, and an id
      and its opponent always play from different hands. */
  lemma OpponentToggle(s: GameState, id: string, hand: seq<Card>)
    ensures Opponent(Opponent(id)) == id <==> id == AiId || id == HumanId
    ensures HandOf(WithHand(s, id, hand), id) == hand
    ensures HandOf(WithHand(s, id, hand), Opponent(id)) == HandOf(s, Opponent(id))
  {
  }

  /** Moving a hand card onto the discard pile loses no card. */
  lemma MoveToDiscardFields(s: GameState, p: string, idx: nat)
    requires idx < |HandOf(s, p)|
    ensures var m := MoveToDiscard(s, p, idx);
      && HandOf(m, p) == RemoveAt(HandOf(s, p), idx)
      && HandOf(m, Opponent(p)) == HandOf(s, Opponent(p))
      && m.drawPile == s.drawPile
      && m.discardPile == s.discardPile + [HandOf(s, p)[idx]]
      && m.requestedShape == None
      && m.gameId == s.gameId && m.gameMode == s.gameMode
      && m.currentPlayerId == s.currentPlayerId && m.winner == s.winner
      && AllCards(m) == AllCards(s)
  {
    var m := MoveToDiscard(s, p, idx);
    var hand := HandOf(s, p);
    assert hand == hand[..idx] + [hand[idx]] + hand[idx + 1..];
    CardsByHand(s, p);
    CardsByHand(m, p);
  }

  /** The special effects as a table: the opponent draws Penalty(number) cards,
      the turn passes unless KeepsTurn(number), and a whot card sets the
      requested shape or, when none is given, throws ShapeRequired after the
      card has already been played. */
  lemma EffectTable(s: GameState, p: string, number: int, requested: Option<Shape>, picks: seq<nat>)
    ensures var o := ApplyEffect(s, p, number, requested, picks);
      var drawn := DrawFromPile(s, Opponent(p), Penalty(number), picks);
      && o.state == drawn.(currentPlayerId := if KeepsTurn(number) then s.currentPlayerId else Opponent(p),
                           requestedShape := if number == 20 && requested.Some? then requested else s.requestedShape)
      && o.error == (if number == 20 && requested.None? then Some(ShapeRequired) else None)
  {
    if Penalty(number) == 0 {
      assert DrawLoop(PilesOf(s, Opponent(p)), 0, picks) == PilesOf(s, Opponent(p));
      assert DrawFromPile(s, Opponent(p), 0, picks) == s;
    }
  }

  /** playCard rejects exactly when one of its checks fails, with the error of
      the first failing check, and a rejected play leaves the game as it was. */
  lemma PlayRejects(s: GameState, p: string, card: Card, requested: Option<Shape>, picks: seq<nat>)
    requires |s.discardPile| > 0
    ensures var o := PlayCard(s, p, card, requested, picks);
      var inHand := exists k :: 0 <= k < |HandOf(s, p)| && HandOf(s, p)[k].id == card.id;
      && (o.state == s <==> !Accepts(s, p, card))
      && (HasWinner(s) ==> o.error == Some(GameNotFoundOrEnded))
      && (!HasWinner(s) && s.currentPlayerId != p ==> o.error == Some(NotYourTurn))
      && (!HasWinner(s) && s.currentPlayerId == p && !inHand ==> o.error == Some(CardNotInHand))
      && ((!HasWinner(s) && s.currentPlayerId == p && inHand && !IsValidMove(card, Top(s), s.requestedShape))
            ==> o.error == Some(InvalidMove))
  {
    var o := PlayCard(s, p, card, requested, picks);
    var hand := HandOf(s, p);
    var idx := FindIndex(hand, card.id);
    if Accepts(s, p, card) {
      var m := MoveToDiscard(s, p, idx);
      MoveToDiscardFields(s, p, idx);
      if HandOf(m, p) != [] {
        EffectTable(m, p, hand[idx].number, requested, picks);
        DrawFromPileConserves(m, Opponent(p), Penalty(hand[idx].number), picks);
      }
      assert |o.state.discardPile| > 0;
      assert HandOf(o.state, p) == HandOf(m, p);
      assert |HandOf(o.state, p)| < |hand|;
    }
  }

  /** The hand card an accepted play moves: the one with the caller's card id. */
  function Played(s: GameState, p: string, card: Card): Card
    requires |s.discardPile| > 0 && Accepts(s, p, card)
  {
    HandOf(s, p)[FindIndex(HandOf(s, p), card.id)]
  }

  /** The state an accepted play builds before its outcome is decided. */
  function Moved(s: GameState, p: string, card: Card): GameState
    requires |s.discardPile| > 0 && Accepts(s, p, card)
  {
    MoveToDiscard(s, p, FindIndex(HandOf(s, p), card.id))
  }

  /** An accepted play is the card move followed either by the win or by the
      card's effect. */
  lemma PlaySteps(s: GameState, p: string, card: Card, requested: Option<Shape>, picks: seq<nat>)
    requires |s.discardPile| > 0 && Accepts(s, p, card)
    ensures PlayCard(s, p, card, requested, picks)
      == if |HandOf(s, p)| == 1 then Outcome(Moved(s, p, card).(winner := Some(p)), None)
         else ApplyEffect(Moved(s, p, card), p, Played(s, p, card).number, requested, picks)
  {
    var idx := FindIndex(HandOf(s, p), card.id);
    MoveToDiscardFields(s, p, idx);
  }

  /** An accepted play of the last card wins: the player is the winner, keeps the
      turn, and no effect runs. */
  lemma PlayWins(s: GameState, p: string, card: Card, requested: Option<Shape>, picks: seq<nat>)
    requires |s.discardPile| > 0 && Accepts(s, p, card) && |HandOf(s, p)| == 1
    ensures var o := PlayCard(s, p, card, requested, picks);
      && o.error == None
      && o.state.winner == Some(p)
      && (HasWinner(o.state) <==> p != "")
    ensures var o := PlayCard(s, p, card, requested, picks);
      && HandOf(o.state, p) == []
      && o.state.discardPile == s.discardPile + [Played(s, p, card)]
      && o.state.currentPlayerId == p
      && o.state.requestedShape == None
      && HandOf(o.state, Opponent(p)) == HandOf(s, Opponent(p))
      && o.state.drawPile == s.drawPile
  {
    PlaySteps(s, p, card, requested, picks);
    MoveToDiscardFields(s, p, FindIndex(HandOf(s, p), card.id));
  }

  /** Any accepted play moves the hand's card with the caller's id from the hand
      to the top of the discard pile. */
  lemma PlayMovesCard(s: GameState, p: string, card: Card, requested: Option<Shape>, picks: seq<nat>)
    requires |s.discardPile| > 0 && Accepts(s, p, card)
    ensures var o := PlayCard(s, p, card, requested, picks);
      && HandOf(o.state, p) == RemoveAt(HandOf(s, p), FindIndex(HandOf(s, p), card.id))
      && |o.state.discardPile| > 0 && Top(o.state) == Played(s, p, card)
      && o.state.gameId == s.gameId && o.state.gameMode == s.gameMode
  {
    var m := Moved(s, p, card);
    MoveToDiscardFields(s, p, FindIndex(HandOf(s, p), card.id));
    PlaySteps(s, p, card, requested, picks);
    if |HandOf(s, p)| > 1 {
      var n := Played(s, p, card).number;
      EffectTable(m, p, n, requested, picks);
      DrawFromPileFields(m, Opponent(p), Penalty(n), picks);
      var q := DrawLoop(PilesOf(m, Opponent(p)), Penalty(n), picks);
      DrawLoopClosedForm(PilesOf(m, Opponent(p)), Penalty(n), picks);
      assert q.discard[|q.discard| - 1] == Played(s, p, card);
    }
  }

  /** After an accepted play that is not the last card, the turn passes unless
      the card is a 1, 8 or 20; a 20 sets the requested shape, or throws
      ShapeRequired when none is given; any other card clears the request. No
      winner is declared. */
  lemma PlayTurn(s: GameState, p: string, card: Card, requested: Option<Shape>, picks: seq<nat>)
    requires |s.discardPile| > 0 && Accepts(s, p, card) && |HandOf(s, p)| > 1
    ensures var o := PlayCard(s, p, card, requested, picks);
      var n := Played(s, p, card).number;
      && o.state.winner == s.winner
      && o.state.currentPlayerId == (if KeepsTurn(n) then p else Opponent(p))
      && o.state.requestedShape == (if n == 20 && requested.Some? then requested else None)
      && o.error == (if n == 20 && requested.None? then Some(ShapeRequired) else None)
  {
    var m := Moved(s, p, card);
    var n := Played(s, p, card).number;
    MoveToDiscardFields(s, p, FindIndex(HandOf(s, p), card.id));
    PlaySteps(s, p, card, requested, picks);
    EffectTable(m, p, n, requested, picks);
    DrawFromPileFields(m, Opponent(p), Penalty(n), picks);
  }

  /** After an accepted play that is not the last card, the opponent's hand gets
      at most Penalty(number) cards at its end: 2 for a 2, 3 for a 5, 1 for a 14,
      none otherwise; exactly the top of the draw pile when it holds enough. */
  lemma PlayPenalty(s: GameState, p: string, card: Card, requested: Option<Shape>, picks: seq<nat>)
    requires |s.discardPile| > 0 && Accepts(s, p, card) && |HandOf(s, p)| > 1
    ensures var o := PlayCard(s, p, card, requested, picks);
      var k := Penalty(Played(s, p, card).number);
      var other := HandOf(s, Opponent(p));
      var after := HandOf(o.state, Opponent(p));
      && |other| <= |after| <= |other| + k
      && after[..|other|] == other
      && (|s.drawPile| >= k ==> after == other + s.drawPile[..k])
  {
    var m := Moved(s, p, card);
    var n := Played(s, p, card).number;
    MoveToDiscardFields(s, p, FindIndex(HandOf(s, p), card.id));
    PlaySteps(s, p, card, requested, picks);
    EffectTable(m, p, n, requested, picks);
    DrawFromPileConserves(m, Opponent(p), Penalty(n), picks);
    DrawFromPileFields(m, Opponent(p), Penalty(n), picks);
    DrawLoopClosedForm(PilesOf(m, Opponent(p)), Penalty(n), picks);
  }

  /** The card count of an accepted play that is not the last card: only the
      opponent's penalty draw can lose a card. */
  lemma EffectConserves(s: GameState, p: string, card: Card, requested: Option<Shape>, picks: seq<nat>)
    requires |s.discardPile| > 0 && Accepts(s, p, card) && |HandOf(s, p)| > 1
    ensures var o := PlayCard(s, p, card, requested, picks);
      var m := Moved(s, p, card);
      var drawn := DrawFromPile(m, Opponent(p), Penalty(Played(s, p, card).number), picks);
      && o.state.discardPile == drawn.discardPile
      && AllCards(o.state) == AllCards(drawn) && Total(o.state) == Total(drawn)
  {
    var m := Moved(s, p, card);
    var n := Played(s, p, card).number;
    PlaySteps(s, p, card, requested, picks);
    EffectTable(m, p, n, requested, picks);
  }

  /** The cards in play after a play: the same cards, except one lost when the
      opponent's penalty draw has to recycle the discard pile, which happens
      exactly when the play is accepted, is not the last card, and the draw pile
      holds fewer cards than the penalty. The discard pile never runs empty. */
  lemma PlayConserves(s: GameState, p: string, card: Card, requested: Option<Shape>, picks: seq<nat>)
    requires |s.discardPile| > 0
    ensures var o := PlayCard(s, p, card, requested, picks);
      var loses := Accepts(s, p, card) && |HandOf(s, p)| > 1
                   && |s.drawPile| < Penalty(Played(s, p, card).number);
      && |o.state.discardPile| > 0
      && AllCards(o.state) <= AllCards(s)
      && Total(o.state) == Total(s) - (if loses then 1 else 0)
  {
    if Accepts(s, p, card) {
      var m := Moved(s, p, card);
      MoveToDiscardFields(s, p, FindIndex(HandOf(s, p), card.id));
      assert |AllCards(m)| == Total(m) && |AllCards(s)| == Total(s);
      if |HandOf(s, p)| > 1 {
        var n := Played(s, p, card).number;
        EffectConserves(s, p, card, requested, picks);
        DrawFromPileConserves(m, Opponent(p), Penalty(n), picks);
        DrawFromPileTotal(m, Opponent(p), Penalty(n), picks);
      } else {
        PlaySteps(s, p, card, requested, picks);
      }
    }
  }

  /** While a shape is requested, the top card no longer matters: a non-whot
      card must have the requested shape, and any such card (or a whot card) in
      the player's hand is accepted on their turn. */
  lemma RequestedShapeGoverns(s: GameState, p: string, card: Card, requested: Option<Shape>, picks: seq<nat>)
    requires |s.discardPile| > 0 && s.requestedShape.Some?
    requires !HasWinner(s) && s.currentPlayerId == p && FindIndex(HandOf(s, p), card.id) != -1
    ensures (card.shape != Whot && card.shape != s.requestedShape.value)
              ==> PlayCard(s, p, card, requested, picks) == Outcome(s, Some(InvalidMove))
    ensures (card.shape == Whot || card.shape == s.requestedShape.value) ==> Accepts(s, p, card)
    ensures forall top: Card :: IsValidMove(card, top, s.requestedShape) == IsValidMove(card, Top(s), s.requestedShape)
  {
  }

  /** Legality is judged on the caller's card value, while the card moved is the
      hand's card with the same id: a caller claiming that a circle 1 in hand is
      a whot card gets it played onto a square 7, which the circle 1 itself may
      not cover. */
  lemma ForgedCardPlay()
    ensures var s := GameState("g", Practice, [Card(1, Circle, 1), Card(2, Circle, 3)], [],
                               [], [Card(10, Square, 7)], HumanId, None, None);
      var forged := Card(1, Whot, 20);
      && Accepts(s, HumanId, forged)
      && Played(s, HumanId, forged) == Card(1, Circle, 1)
      && !IsValidMove(Card(1, Circle, 1), Top(s), None)
      && PlayCard(s, HumanId, forged, None, []).error == None
      && Top(PlayCard(s, HumanId, forged, None, []).state) == Card(1, Circle, 1)
  {
    var s := GameState("g", Practice, [Card(1, Circle, 1), Card(2, Circle, 3)], [],
                       [], [Card(10, Square, 7)], HumanId, None, None);
    var forged := Card(1, Whot, 20);
    assert FindIndex(HandOf(s, HumanId), 1) == 0;
    PlayMovesCard(s, HumanId, forged, None, []);
    PlayTurn(s, HumanId, forged, None, []);
  }

  // drawCard

  /** drawCard: on the wrong player's turn nothing changes; otherwise the player
      draws at most one card onto the end of their hand (the top of the draw
      pile when there is one), the turn passes, and no winner check is made, so a
      finished game still accepts draws. */
  lemma DrawCardEffect(s: GameState, p: string, picks: seq<nat>)
    ensures var o := DrawCard(s, p, picks);
      s.currentPlayerId != p ==> o == Outcome(s, Some(NotYourTurnToDraw))
    ensures var o := DrawCard(s, p, picks);
      var hand := HandOf(s, p);
      s.currentPlayerId == p ==>
        && o.error == None
        && o.state.currentPlayerId == Opponent(p)
        && o.state.winner == s.winner && o.state.requestedShape == s.requestedShape
        && HandOf(o.state, Opponent(p)) == HandOf(s, Opponent(p))
        && |hand| <= |HandOf(o.state, p)| <= |hand| + 1
        && HandOf(o.state, p)[..|hand|] == hand
        && (|s.discardPile| > 0 ==> |o.state.discardPile| > 0)
        && AllCards(o.state) <= AllCards(s)
  {
    if s.currentPlayerId == p {
      DrawFromPileConserves(s, p, 1, picks);
      var d := DrawFromPile(s, p, 1, picks);
      assert DrawCard(s, p, picks).state == d.(currentPlayerId := Opponent(p));
    }
  }

  /** With a non-empty draw pile, drawCard moves its top card to the end of the
      player's hand. */
  lemma DrawCardTakesTop(s: GameState, p: string, picks: seq<nat>)
    requires s.currentPlayerId == p && |s.drawPile| > 0
    ensures var o := DrawCard(s, p, picks);
      HandOf(o.state, p) == HandOf(s, p) + [s.drawPile[0]] && o.state.drawPile == s.drawPile[1..]
      && o.state.discardPile == s.discardPile
  {
    DrawFromPileFields(s, p, 1, picks);
    DrawWithoutRecycle(PilesOf(s, p), 1, picks);
    var d := DrawFromPile(s, p, 1, picks);
    assert DrawCard(s, p, picks).state == d.(currentPlayerId := Opponent(p));
  }

  // createGame

  /** The cards of `s` that carry a special number, in order. */
  function Specials(s: seq<Card>): (r: seq<Card>)
    ensures |r| <= |s|
  {
    if s == [] then []
    else (if IsSpecialNumber(s[0].number) then [s[0]] else []) + Specials(s[1..])
  }

  lemma {:induction false} SpecialsAppend(a: seq<Card>, b: seq<Card>)
    ensures Specials(a + b) == Specials(a) + Specials(b)
    decreases |a|
  {
    if a == [] {
      assert a + b == b;
    } else {
      var head := if IsSpecialNumber(a[0].number) then [a[0]] else [];
      assert (a + b)[0] == a[0];
      assert (a + b)[1..] == a[1..] + b;
      assert Specials(a + b) == head + Specials(a[1..] + b);
      SpecialsAppend(a[1..], b);
      assert Specials(a) == head + Specials(a[1..]);
    }
  }

  lemma {:induction false} SpecialsCount(s: seq<Card>, c: Card)
    ensures multiset(Specials(s))[c] == if IsSpecialNumber(c.number) then multiset(s)[c] else 0
    decreases |s|
  {
    if s != [] {
      SpecialsCount(s[1..], c);
      assert s == [s[0]] + s[1..];
    }
  }

  // The special cards of each catalog section.

  lemma CirclesSpecials() ensures |Specials(Circles)| == 5 {}
  lemma TrianglesSpecials() ensures |Specials(Triangles)| == 5 {}
  lemma CrossesSpecials() ensures |Specials(Crosses)| == 4 {}
  lemma SquaresSpecials() ensures |Specials(Squares)| == 4 {}
  lemma StarsSpecials() ensures |Specials(Stars)| == 4 {}
  lemma WhotCardsSpecials() ensures |Specials(WhotCards)| == 5 {}

  /** Half of the 54 catalog cards carry a special number. */
  lemma CatalogSpecials()
    ensures |Specials(FullDeck)| == 27
  {
    SpecialsAppend(Circles, Triangles);
    SpecialsAppend(Circles + Triangles, Crosses);
    SpecialsAppend(Circles + Triangles + Crosses, Squares);
    SpecialsAppend(Circles + Triangles + Crosses + Squares, Stars);
    SpecialsAppend(Circles + Triangles + Crosses + Squares + Stars, WhotCards);
    CirclesSpecials();
    TrianglesSpecials();
    CrossesSpecials();
    SquaresSpecials();
    StarsSpecials();
    WhotCardsSpecials();
  }

  /** Cards taken from `d` that all carry special numbers are no more than the
      special cards of `d`. */
  lemma SpecialRunBound(x: seq<Card>, d: seq<Card>)
    requires multiset(x) <= multiset(d)
    requires forall k :: 0 <= k < |x| ==> IsSpecialNumber(x[k].number)
    ensures |x| <= |Specials(d)|
  {
    var specials := multiset(Specials(d));
    forall c | true
      ensures multiset(x)[c] <= specials[c]
    {
      SpecialsCount(d, c);
      if multiset(x)[c] > 0 {
        assert c in x;
      }
    }
    assert multiset(x) <= specials;
    assert specials == multiset(x) + (specials - multiset(x));
  }

  /** The deal: the two hands are the first ten cards, the rest goes on. */
  lemma NewGameDeal(gameId: string, gameMode: GameMode, playerId: string, deck: seq<Card>)
    requires |deck| > 10
    ensures var g := NewGame(gameId, gameMode, playerId, deck);
      && g.playerHand == deck[..5] && g.aiHand == deck[5..10]
      && (g.drawPile, g.discardPile[0]) == SeedDiscard(deck[10..]) && |g.discardPile| == 1
      && g.currentPlayerId == playerId && g.winner == None && g.requestedShape == None
      && g.gameId == gameId && g.gameMode == gameMode
  {
    assert deck[5..][..5] == deck[5..10] && deck[5..][5..] == deck[10..];
  }

  /** The game createGame builds from any deck of more than ten cards: the
      player's hand is the first five cards, the ai's the next five, the discard
      pile one card and the draw pile the rest; no card is lost and the creator
      has the first turn. */
  lemma NewGameLayout(gameId: string, gameMode: GameMode, playerId: string, deck: seq<Card>)
    requires |deck| > 10
    ensures var g := NewGame(gameId, gameMode, playerId, deck);
      && g.playerHand == deck[..5] && g.aiHand == deck[5..10]
      && |g.discardPile| == 1 && |g.drawPile| == |deck| - 11
      && AllCards(g) == multiset(deck) && Total(g) == |deck|
      && g.currentPlayerId == playerId && g.winner == None && g.requestedShape == None
      && g.gameId == gameId && g.gameMode == gameMode
  {
    var g := NewGame(gameId, gameMode, playerId, deck);
    var rest := deck[10..];
    NewGameDeal(gameId, gameMode, playerId, deck);
    SeedDiscardChoice(rest);
    assert deck == deck[..5] + deck[5..10] + rest;
    SplitCards(g, deck[..5], deck[5..10], rest, deck);
  }

  lemma SplitCards(g: GameState, h1: seq<Card>, h2: seq<Card>, rest: seq<Card>, deck: seq<Card>)
    requires deck == h1 + h2 + rest && g.playerHand == h1 && g.aiHand == h2
    requires |g.discardPile| == 1 && multiset(g.drawPile) + multiset{g.discardPile[0]} == multiset(rest)
    ensures AllCards(g) == multiset(deck) && Total(g) == |deck|
  {
    assert g.discardPile == [g.discardPile[0]];
    assert |AllCards(g)| == Total(g);
  }

  /** The discard pile createGame seeds: the first plain card after the two
      hands, or the last card when all of them are special, with the other
      cards left in the draw pile in their order. */
  lemma NewGameSeed(gameId: string, gameMode: GameMode, playerId: string, deck: seq<Card>)
    requires |deck| > 10
    ensures var g := NewGame(gameId, gameMode, playerId, deck);
      var rest := deck[10..];
      var i := FirstPlain(rest);
      && |g.discardPile| == 1
      && (i != -1 ==> Top(g) == rest[i] && g.drawPile == rest[..i] + rest[i + 1..])
      && (i == -1 ==> Top(g) == rest[|rest| - 1] && g.drawPile == rest[..|rest| - 1])
  {
    NewGameDeal(gameId, gameMode, playerId, deck);
  }

  /** createGame seeds the discard pile with a plain card whenever the cards
      left after dealing outnumber the deck's special cards. */
  lemma NewGameSeedsPlain(gameId: string, gameMode: GameMode, playerId: string, deck: seq<Card>)
    requires |deck| > 10 && |deck| - 10 > |Specials(deck)|
    ensures !IsSpecialNumber(Top(NewGame(gameId, gameMode, playerId, deck)).number)
  {
    var g := NewGame(gameId, gameMode, playerId, deck);
    var rest := deck[10..];
    NewGameSeed(gameId, gameMode, playerId, deck);
    if FirstPlain(rest) == -1 {
      assert deck == deck[..10] + rest;
      assert multiset(rest) <= multiset(deck);
      SpecialRunBound(rest, deck);
      assert false;
    }
  }

  /** The special cards of two decks with the same cards are equally many. */
  lemma SpecialsOfPermutation(a: seq<Card>, b: seq<Card>)
    requires multiset(a) == multiset(b)
    ensures |Specials(a)| == |Specials(b)|
  {
    forall c | true
      ensures multiset(Specials(a))[c] == multiset(Specials(b))[c]
    {
      SpecialsCount(a, c);
      SpecialsCount(b, c);
    }
    assert multiset(Specials(a)) == multiset(Specials(b));
  }

  /** createGame on the catalog: 54 cards in play, hands of five, a draw pile of
      43, and the discard pile always seeded with a plain card, since only 27 of
      the catalog cards are special and 44 remain after dealing. */
  lemma CreateGameFromCatalog(gameId: string, gameMode: GameMode, playerId: string, picks: seq<nat>)
    ensures var g := CreatedGame(gameId, gameMode, playerId, picks);
      && AllCards(g) == multiset(FullDeck) && Total(g) == 54
      && |g.playerHand| == 5 && |g.aiHand| == 5 && |g.drawPile| == 43
      && |g.discardPile| == 1 && !IsSpecialNumber(Top(g).number)
  {
    CatalogIds();
    CatalogSpecials();
    var deck := Shuffled(FullDeck, picks);
    SpecialsOfPermutation(deck, FullDeck);
    NewGameLayout(gameId, gameMode, playerId, deck);
    NewGameSeedsPlain(gameId, gameMode, playerId, deck);
  }
}
