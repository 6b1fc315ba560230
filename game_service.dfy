/** The game service of src/services/gameService.ts as the source writes it:
    game records whose fields are updated in place, kept in an in-memory store
    keyed by game id. Every operation is proved to follow the value-level rules
    of module GameRules. */
module GameService {
  import opened Wrappers
  import opened Cards
  import opened Deck
  import opened GameRules
  import GameProperties

  /** One game record. playCard, drawCard and drawFromPile change its fields. */
  class Game {
    var gameId: string
    var gameMode: GameMode
    var playerHand: seq<Card>
    var aiHand: seq<Card>
    var drawPile: seq<Card>
    var discardPile: seq<Card>
    var currentPlayerId: string
    var winner: Option<string>
    var requestedShape: Option<Shape>

    /** The record's fields as a value. */
    function Snapshot(): GameState
      reads this
    {
      GameState(gameId, gameMode, playerHand, aiHand, drawPile, discardPile,
                currentPlayerId, winner, requestedShape)
    }

    constructor (s: GameState)
      ensures Snapshot() == s
    {
      gameId := s.gameId;
      gameMode := s.gameMode;
      playerHand := s.playerHand;
      aiHand := s.aiHand;
      drawPile := s.drawPile;
      discardPile := s.discardPile;
      currentPlayerId := s.currentPlayerId;
      winner := s.winner;
      requestedShape := s.requestedShape;
    }

    /** Appends `card` to the hand `id` plays from. */
    method PushToHand(id: string, card: Card)
      modifies this
      ensures Snapshot() == WithHand(old(Snapshot()), id, HandOf(old(Snapshot()), id) + [card])
    {
      if id == AiId {
        aiHand := aiHand + [card];
      } else {
        playerHand := playerHand + [card];
      }
    }

    /** switchPlayer: the turn passes from `id` to its opponent. */
    method SwitchPlayer(id: string)
      modifies this
      ensures Snapshot() == GameRules.SwitchPlayer(old(Snapshot()), id)
    {
      currentPlayerId := if id == AiId then HumanId else AiId;
    }

    /** The reshuffle inside drawFromPile: the top discard card is popped and
        kept as the only discard card, and the rest, less its last card
        (slice(0, -1)), is shuffled into the new draw pile. */
    method RecycleDiscard(playerId: string, picks: seq<nat>)
      requires |discardPile| >= 2
      modifies this
      ensures Snapshot() == WithPiles(old(Snapshot()), playerId, Recycle(PilesOf(old(Snapshot()), playerId), picks))
    {
      ghost var d := discardPile;
      var topCard := discardPile[|discardPile| - 1];
      discardPile := discardPile[..|discardPile| - 1];
      drawPile := ShuffleDeck(discardPile[..|discardPile| - 1], picks);
      discardPile := [topCard];
      assert d[..|d| - 1][..|d| - 2] == d[..|d| - 2];
    }

    /** The draw inside drawFromPile: the top of the draw pile goes onto the end
        of `playerId`'s hand. */
    method TakeTopCard(playerId: string)
      requires |drawPile| > 0
      modifies this
      ensures var p := PilesOf(old(Snapshot()), playerId);
        Snapshot() == WithPiles(old(Snapshot()), playerId, Piles(p.hand + [p.draw[0]], p.draw[1..], p.discard))
    {
      var drawnCard := drawPile[0];
      drawPile := drawPile[1..];
      PushToHand(playerId, drawnCard);
    }

    /** drawFromPile: up to `count` cards from the draw pile onto the end of
        `playerId`'s hand, recycling the discard pile when the draw pile runs dry. */
    method DrawFromPile(playerId: string, count: nat, picks: seq<nat>)
      modifies this
      ensures Snapshot() == GameRules.DrawFromPile(old(Snapshot()), playerId, count, picks)
    {
      ghost var start := Snapshot();
      ghost var cur := PilesOf(start, playerId);
      var i := 0;
      while i < count
        invariant 0 <= i <= count
        invariant Snapshot() == WithPiles(start, playerId, cur)
        invariant DrawLoop(cur, count - i, picks) == DrawLoop(PilesOf(start, playerId), count, picks)
      {
        ghost var before := cur;
        PilesUpdate(start, playerId, cur, cur);
        if |drawPile| == 0 {
          if |discardPile| <= 1 {
            break;
          }
          RecycleDiscard(playerId, picks);
          cur := Recycle(cur, picks);
          PilesUpdate(start, playerId, before, cur);
        }
        if |drawPile| > 0 {
          ghost var mid := cur;
          PilesUpdate(start, playerId, mid, mid);
          TakeTopCard(playerId);
          cur := Piles(mid.hand + [mid.draw[0]], mid.draw[1..], mid.discard);
          PilesUpdate(start, playerId, mid, cur);
        }
        assert DrawStep(before, picks) == Some(cur);
        i := i + 1;
      }
    }

    /** The move of playCard: the hand card at `cardIndex` is spliced out and
        pushed onto the discard pile, and the requested shape is cleared. */
    method MoveCard(playerId: string, cardIndex: nat)
      requires cardIndex < |HandOf(Snapshot(), playerId)|
      modifies this
      ensures Snapshot() == MoveToDiscard(old(Snapshot()), playerId, cardIndex)
    {
      var hand := if playerId == AiId then aiHand else playerHand;
      var playedCard := hand[cardIndex];
      hand := hand[..cardIndex] + hand[cardIndex + 1..];
      if playerId == AiId {
        aiHand := hand;
      } else {
        playerHand := hand;
      }
      discardPile := discardPile + [playedCard];
      requestedShape := None;
    }

    /** The switch of playCard on the played card's number, and the turn
        change after it. */
    method PlayEffect(playerId: string, number: int, requestedShape: Option<Shape>, picks: seq<nat>)
      returns (error: Option<GameError>)
      modifies this
      ensures Outcome(Snapshot(), error) == GameRules.ApplyEffect(old(Snapshot()), playerId, number, requestedShape, picks)
    {
      error := None;
      var nextPlayerGetsTurn := true;
      if number == 1 {
        nextPlayerGetsTurn := false;
      } else if number == 2 {
        DrawFromPile(Opponent(playerId), 2, picks);
      } else if number == 5 {
        DrawFromPile(Opponent(playerId), 3, picks);
      } else if number == 8 {
        nextPlayerGetsTurn := false;
      } else if number == 14 {
        DrawFromPile(Opponent(playerId), 1, picks);
      } else if number == 20 {
        if requestedShape.Some? {
          this.requestedShape := requestedShape;
        } else {
          return Some(ShapeRequired);
        }
        nextPlayerGetsTurn := false;
      }
      if nextPlayerGetsTurn {
        SwitchPlayer(playerId);
      }
    }

    /** The checks of playCard, in the source's order: a game already won, a
        player out of turn, a card not in the hand, a move the top card does
        not allow. */
    method CheckPlay(playerId: string, card: Card, requestedShape: Option<Shape>, picks: seq<nat>)
      returns (error: Option<GameError>)
      requires |discardPile| > 0
      ensures error.None? <==> Accepts(Snapshot(), playerId, card)
      ensures error.Some? ==>
        GameRules.PlayCard(Snapshot(), playerId, card, requestedShape, picks) == Outcome(Snapshot(), error)
    {
      if HasWinner(Snapshot()) {
        return Some(GameNotFoundOrEnded);
      }
      if currentPlayerId != playerId {
        return Some(NotYourTurn);
      }
      var hand := if playerId == AiId then aiHand else playerHand;
      var cardIndex := FindIndex(hand, card.id);
      if cardIndex == -1 {
        return Some(CardNotInHand);
      }
      var topCard := discardPile[|discardPile| - 1];
      if !IsValidMove(card, topCard, this.requestedShape) {
        return Some(InvalidMove);
      }
      return None;
    }

    /** An accepted play: the card moves to the discard pile, then the player
        wins on an empty hand or the card's effect runs. */
    method PlayAccepted(playerId: string, card: Card, requestedShape: Option<Shape>, picks: seq<nat>)
      returns (error: Option<GameError>)
      requires |discardPile| > 0 && Accepts(Snapshot(), playerId, card)
      modifies this
      ensures Outcome(Snapshot(), error) == GameRules.PlayCard(old(Snapshot()), playerId, card, requestedShape, picks)
    {
      GameProperties.PlaySteps(Snapshot(), playerId, card, requestedShape, picks);
      var hand := if playerId == AiId then aiHand else playerHand;
      var cardIndex := FindIndex(hand, card.id);
      var playedCard := hand[cardIndex];
      MoveCard(playerId, cardIndex);
      if |hand| == 1 {
        winner := Some(playerId);
        return None;
      }
      error := PlayEffect(playerId, playedCard.number, requestedShape, picks);
    }

    /** playCard on this record. */
    method Play(playerId: string, card: Card, requestedShape: Option<Shape>, picks: seq<nat>)
      returns (error: Option<GameError>)
      requires |discardPile| > 0
      modifies this
      ensures |discardPile| > 0
      ensures Outcome(Snapshot(), error) == GameRules.PlayCard(old(Snapshot()), playerId, card, requestedShape, picks)
    {
      GameProperties.PlayConserves(Snapshot(), playerId, card, requestedShape, picks);
      error := CheckPlay(playerId, card, requestedShape, picks);
      if error.None? {
        error := PlayAccepted(playerId, card, requestedShape, picks);
      }
    }
  }

  /** Replacing the piles of `t` twice is replacing them once. */
  lemma PilesUpdate(s: GameState, t: string, p: Piles, q: Piles)
    ensures PilesOf(WithPiles(s, t, p), t) == p
    ensures WithPiles(WithPiles(s, t, p), t, q) == WithPiles(s, t, q)
    ensures WithPiles(s, t, p).(drawPile := q.draw, discardPile := q.discard) == WithPiles(s, t, p.(draw := q.draw, discard := q.discard))
    ensures WithPiles(s, t, p).(drawPile := q.draw) == WithPiles(s, t, p.(draw := q.draw))
    ensures WithHand(WithPiles(s, t, p), t, q.hand) == WithPiles(s, t, p.(hand := q.hand))
  {
  }

  /** The body of createGame after the shuffle: five cards to the player, the
      next five to the ai, then the scan for the first plain card, which seeds
      the discard pile (the last card when there is none). */
  method LayOut(gameId: string, gameMode: GameMode, playerId: string, deck: seq<Card>)
    returns (gameState: GameState)
    requires |deck| > 10
    ensures gameState == NewGame(gameId, gameMode, playerId, deck)
  {
    var (playerHand, deckAfterPlayer) := Deal(deck, 5);
    var (aiHand, deckAfterAi) := Deal(deckAfterPlayer, 5);
    var drawPile, discardPile := SeedDiscardPile(deckAfterAi);
    gameState := GameState(gameId, gameMode, playerHand, aiHand, drawPile, discardPile, playerId, None, None);
  }

  /** The start of createGame: shuffle the catalog, then lay the game out. */
  method ShuffleAndLayOut(gameId: string, gameMode: GameMode, playerId: string, picks: seq<nat>)
    returns (gameState: GameState)
    ensures gameState == CreatedGame(gameId, gameMode, playerId, picks)
    ensures gameState.gameId == gameId && |gameState.discardPile| == 1
  {
    CatalogSize();
    var deck := ShuffleDeck(FullDeck, picks);
    gameState := LayOut(gameId, gameMode, playerId, deck);
  }

  /** The in-memory store of games, keyed by game id. */
  class GameStore {
    var games: map<string, Game>

    /** Every stored game has a top card. */
    ghost predicate Valid()
      reads this, games.Values
    {
      forall id :: id in games ==> |games[id].discardPile| > 0
    }

    constructor ()
      ensures games == map[] && Valid()
    {
      games := map[];
    }

    /** createGame: shuffles the catalog, lays the game out and stores it under
        `gameId`, replacing any game stored under that id. */
    method CreateGame(gameId: string, playerId: string, gameMode: GameMode, picks: seq<nat>)
      returns (game: Game)
      requires Valid()
      modifies this
      ensures Valid() && fresh(game)
      ensures games == old(games)[gameId := game]
      ensures game.Snapshot() == CreatedGame(gameId, gameMode, playerId, picks)
    {
      var gameState := ShuffleAndLayOut(gameId, gameMode, playerId, picks);
      game := Store(gameState);
    }

    /** `games[gameId] = gameState`: a new record holding `gameState`. */
    method Store(gameState: GameState) returns (game: Game)
      requires Valid() && |gameState.discardPile| > 0
      modifies this
      ensures Valid() && fresh(game)
      ensures games == old(games)[gameState.gameId := game]
      ensures game.Snapshot() == gameState
    {
      game := new Game(gameState);
      games := games[gameState.gameId := game];
    }

    /** getGameState: the stored game, if any. */
    method GetGameState(gameId: string) returns (r: Option<Game>)
      ensures r.Some? <==> gameId in games
      ensures r.Some? ==> r.value == games[gameId]
    {
      if gameId in games {
        r := Some(games[gameId]);
      } else {
        r := None;
      }
    }

    /** playCard: on success the stored game has moved on as GameRules.PlayCard
        says and is returned; on a thrown error the game is left as that
        function says (unchanged, except after ShapeRequired). */
    method PlayCard(gameId: string, playerId: string, card: Card, requestedShape: Option<Shape>, picks: seq<nat>)
      returns (r: Result<Game, GameError>)
      requires Valid()
      modifies if gameId in games then {games[gameId]} else {}
      ensures Valid() && games == old(games)
      ensures gameId !in games ==> r == Failure(GameNotFoundOrEnded)
      ensures gameId in games ==>
        var o := GameRules.PlayCard(old(games[gameId].Snapshot()), playerId, card, requestedShape, picks);
        && games[gameId].Snapshot() == o.state
        && r == (if o.error.Some? then Failure(o.error.value) else Success(games[gameId]))
    {
      if gameId !in games {
        return Failure(GameNotFoundOrEnded);
      }
      var game := games[gameId];
      var error := game.Play(playerId, card, requestedShape, picks);
      if error.Some? {
        return Failure(error.value);
      }
      return Success(game);
    }

    /** drawCard: the current player draws one card and the turn passes. */
    method DrawCard(gameId: string, playerId: string, picks: seq<nat>)
      returns (r: Result<Game, GameError>)
      requires Valid()
      modifies if gameId in games then {games[gameId]} else {}
      ensures Valid() && games == old(games)
      ensures gameId !in games ==> r == Failure(GameNotFound)
      ensures gameId in games ==>
        var o := GameRules.DrawCard(old(games[gameId].Snapshot()), playerId, picks);
        && games[gameId].Snapshot() == o.state
        && r == (if o.error.Some? then Failure(o.error.value) else Success(games[gameId]))
    {
      if gameId !in games {
        return Failure(GameNotFound);
      }
      var game := games[gameId];
      ghost var s := game.Snapshot();
      GameProperties.DrawCardEffect(s, playerId, picks);
      if game.currentPlayerId != playerId {
        return Failure(NotYourTurnToDraw);
      }
      game.DrawFromPile(playerId, 1, picks);
      game.SwitchPlayer(playerId);
      return Success(game);
    }
  }
}
