/** The rules of the game service (src/services/gameService.ts) stated on
    values: a game's state as a datatype, and what playCard, drawCard,
    drawFromPile and createGame do to it as functions. The in-place class in
    module GameService is proved to follow these functions. */
module GameRules {
  import opened Wrappers
  import opened Cards
  import opened Deck

  datatype GameMode = Practice | Staked | Free

  /** A snapshot of one game: both hands, both piles (the last discard card is
      the top card), whose turn it is, the winner and the shape requested by the
      last whot card. */
  datatype GameState = GameState(
    gameId: string,
    gameMode: GameMode,
    playerHand: seq<Card>,
    aiHand: seq<Card>,
    drawPile: seq<Card>,
    discardPile: seq<Card>,
    currentPlayerId: string,
    winner: Option<string>,
    requestedShape: Option<Shape>)

  /** The errors the service throws, one per distinct message. playCard reports
      a missing and a finished game with one error; drawCard only checks for a
      missing game, and has its own out-of-turn message. */
  datatype GameError =
    | GameNotFoundOrEnded
    | NotYourTurn
    | CardNotInHand
    | InvalidMove
    | ShapeRequired
    | GameNotFound
    | NotYourTurnToDraw

  /** The state after an operation and the error it threw, if any. A thrown
      ShapeRequired comes after the state has changed; every other error leaves
      it as it was. */
  datatype Outcome = Outcome(state: GameState, error: Option<GameError>)

  /** The two seat ids the service knows. */
  const AiId: string := "ai"
  const HumanId: string := "player1"

  /** Whether `played` may go on `top`: a whot card always may; otherwise it must
      have the requested shape if one is set, and else match the top card's
      shape or number. */
  function IsValidMove(played: Card, top: Card, requested: Option<Shape>): bool
  {
    if played.shape == Whot then true
    else if requested.Some? then played.shape == requested.value
    else played.shape == top.shape || played.number == top.number
  }

  /** switchPlayer's mapping: "ai" passes to "player1", every other id to "ai". */
  function Opponent(id: string): string
  {
    if id == AiId then HumanId else AiId
  }

  /** The hand an id plays from: the ai hand for "ai", the player hand for any other id. */
  function HandOf(s: GameState, id: string): seq<Card>
  {
    if id == AiId then s.aiHand else s.playerHand
  }

  function WithHand(s: GameState, id: string, hand: seq<Card>): GameState
  {
    if id == AiId then s.(aiHand := hand) else s.(playerHand := hand)
  }

  /** The game has ended: `winner` is set to a non-empty id (an empty id is
      falsy to the source's `game.winner` test). */
  predicate HasWinner(s: GameState)
  {
    s.winner.Some? && s.winner.value != ""
  }

  function SwitchPlayer(s: GameState, id: string): GameState
  {
    s.(currentPlayerId := Opponent(id))
  }

  /** The top card of the discard pile. */
  function Top(s: GameState): Card
    requires |s.discardPile| > 0
  {
    s.discardPile[|s.discardPile| - 1]
  }

  /** findIndex on a hand: the first index holding a card with `id`, or -1. */
  function FindIndex(hand: seq<Card>, id: int): (idx: int)
    ensures -1 <= idx < |hand|
    ensures idx >= 0 ==> hand[idx].id == id
    ensures forall k :: 0 <= k < |hand| && (idx == -1 || k < idx) ==> hand[k].id != id
  {
    if hand == [] then -1
    else if hand[0].id == id then 0
    else
      var rest := FindIndex(hand[1..], id);
      if rest == -1 then -1 else rest + 1
  }

  function RemoveAt(hand: seq<Card>, i: nat): seq<Card>
    requires i < |hand|
  {
    hand[..i] + hand[i + 1..]
  }

  /** The number of cards in both hands and both piles. */
  function Total(s: GameState): nat
  {
    |s.playerHand| + |s.aiHand| + |s.drawPile| + |s.discardPile|
  }

  /** The cards in both hands and both piles. */
  function AllCards(s: GameState): multiset<Card>
  {
    multiset(s.playerHand) + multiset(s.aiHand) + multiset(s.drawPile) + multiset(s.discardPile)
  }

  // drawFromPile

  /** The three sequences drawFromPile works on: the target's hand, the draw
      pile and the discard pile. */
  datatype Piles = Piles(hand: seq<Card>, draw: seq<Card>, discard: seq<Card>)

  /** The recycle step: the top discard card stays as the only discard card, and
      the rest of the discard pile, less its last card, is shuffled into the new
      draw pile (pop, then slice(0, -1)). */
  function Recycle(p: Piles, picks: seq<nat>): Piles
    requires |p.discard| >= 2
  {
    var d := p.discard;
    Piles(p.hand, Shuffled(d[..|d| - 2], picks), [d[|d| - 1]])
  }

  /** One turn of drawFromPile's loop; None when the loop breaks. */
  function DrawStep(p: Piles, picks: seq<nat>): Option<Piles>
  {
    if |p.draw| == 0 && |p.discard| <= 1 then None
    else
      var q := if |p.draw| == 0 then Recycle(p, picks) else p;
      Some(if |q.draw| > 0 then Piles(q.hand + [q.draw[0]], q.draw[1..], q.discard) else q)
  }

  /** `count` turns of drawFromPile's loop, stopping early when it breaks. */
  function DrawLoop(p: Piles, count: nat, picks: seq<nat>): Piles
    decreases count
  {
    if count == 0 then p
    else
      match DrawStep(p, picks)
      case None => p
      case Some(next) => DrawLoop(next, count - 1, picks)
  }

  /** The piles drawFromPile starts from when `target` draws in `s`. */
  function PilesOf(s: GameState, target: string): Piles
  {
    Piles(HandOf(s, target), s.drawPile, s.discardPile)
  }

  /** `s` with `target`'s hand and the two piles replaced by `p`. */
  function WithPiles(s: GameState, target: string, p: Piles): GameState
  {
    WithHand(s, target, p.hand).(drawPile := p.draw, discardPile := p.discard)
  }

  /** drawFromPile: the loop runs on `target`'s hand and the two piles. */
  function DrawFromPile(s: GameState, target: string, count: nat, picks: seq<nat>): GameState
  {
    WithPiles(s, target, DrawLoop(PilesOf(s, target), count, picks))
  }

  // playCard

  /** The checks playCard makes before it changes anything, all passed. */
  predicate Accepts(s: GameState, playerId: string, card: Card)
    requires |s.discardPile| > 0
  {
    && !HasWinner(s)
    && s.currentPlayerId == playerId
    && FindIndex(HandOf(s, playerId), card.id) != -1
    && IsValidMove(card, Top(s), s.requestedShape)
  }

  /** How many cards the opponent picks for a card of `number`: 2 for a 2,
      3 for a 5 and 1 for a 14 (General Market). */
  function Penalty(number: int): nat
  {
    if number == 2 then 2 else if number == 5 then 3 else if number == 14 then 1 else 0
  }

  /** Whether the player who played a card of `number` keeps the turn: 1 (hold on),
      8 (suspension) and 20 (whot). */
  predicate KeepsTurn(number: int)
  {
    number == 1 || number == 8 || number == 20
  }

  /** The special effect of the card just played by `playerId`, and the turn change. */
  function ApplyEffect(s: GameState, playerId: string, number: int, requested: Option<Shape>, picks: seq<nat>): Outcome
  {
    if number == 1 || number == 8 then Outcome(s, None)
    else if number == 2 then Outcome(SwitchPlayer(DrawFromPile(s, Opponent(playerId), 2, picks), playerId), None)
    else if number == 5 then Outcome(SwitchPlayer(DrawFromPile(s, Opponent(playerId), 3, picks), playerId), None)
    else if number == 14 then Outcome(SwitchPlayer(DrawFromPile(s, Opponent(playerId), 1, picks), playerId), None)
    else if number == 20 then
      if requested.Some? then Outcome(s.(requestedShape := requested), None)
      else Outcome(s, Some(ShapeRequired))
    else Outcome(SwitchPlayer(s, playerId), None)
  }

  /** The hand card at `idx` moves onto the discard pile and the requested
      shape is cleared. */
  function MoveToDiscard(s: GameState, playerId: string, idx: nat): GameState
    requires idx < |HandOf(s, playerId)|
  {
    var hand := HandOf(s, playerId);
    WithHand(s, playerId, RemoveAt(hand, idx)).(discardPile := s.discardPile + [hand[idx]], requestedShape := None)
  }

  /** playCard on an existing game. Legality is judged on the `card` value the
      caller passes; the card moved is the hand's card with the same id. */
  function PlayCard(s: GameState, playerId: string, card: Card, requested: Option<Shape>, picks: seq<nat>): Outcome
    requires |s.discardPile| > 0
  {
    if HasWinner(s) then Outcome(s, Some(GameNotFoundOrEnded))
    else if s.currentPlayerId != playerId then Outcome(s, Some(NotYourTurn))
    else
      var hand := HandOf(s, playerId);
      var idx := FindIndex(hand, card.id);
      if idx == -1 then Outcome(s, Some(CardNotInHand))
      else if !IsValidMove(card, Top(s), s.requestedShape) then Outcome(s, Some(InvalidMove))
      else
        var moved := MoveToDiscard(s, playerId, idx);
        if HandOf(moved, playerId) == [] then Outcome(moved.(winner := Some(playerId)), None)
        else ApplyEffect(moved, playerId, hand[idx].number, requested, picks)
  }

  // drawCard

  /** drawCard on an existing game: no winner check; one card at most, then the
      turn passes. */
  function DrawCard(s: GameState, playerId: string, picks: seq<nat>): Outcome
  {
    if s.currentPlayerId != playerId then Outcome(s, Some(NotYourTurnToDraw))
    else Outcome(SwitchPlayer(DrawFromPile(s, playerId, 1, picks), playerId), None)
  }

  // createGame

  /** The game createGame builds from the shuffled `deck`: five cards to the
      player, the next five to the ai, and the discard pile seeded from the rest. */
  function NewGame(gameId: string, gameMode: GameMode, playerId: string, deck: seq<Card>): GameState
    requires |deck| > 10
  {
    var (playerHand, afterPlayer) := Deal(deck, 5);
    var (aiHand, afterAi) := Deal(afterPlayer, 5);
    var (drawPile, top) := SeedDiscard(afterAi);
    GameState(gameId, gameMode, playerHand, aiHand, drawPile, [top], playerId, None, None)
  }

  /** The game createGame builds: the full catalog shuffled by `picks`, then laid out. */
  function CreatedGame(gameId: string, gameMode: GameMode, playerId: string, picks: seq<nat>): GameState
  {
    CatalogSize();
    NewGame(gameId, gameMode, playerId, Shuffled(FullDeck, picks))
  }
}
