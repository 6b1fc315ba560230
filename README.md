# Whot! game service and lobby, modelled in Dafny

This project models the server-side core of a Whot! card game:

- the card catalog (`src/lib/whot.ts` and the copy in `src/services/gameService.ts`);
- the game service (`src/services/gameService.ts`), which creates a game, lets a player play or draw a card, applies the special cards and keeps the games in an in-memory store;
- the lobby (`src/services/lobbyService.ts`), which keeps rooms in an in-memory record, lets a guest join a waiting room, and deletes stale rooms when the lobby is listed.

The project is written in two layers.

- **Value level.** Module `GameRules` states what each game operation does to a game's state, as functions on a `GameState` datatype. Module `GameProperties` proves what those functions guarantee:
  - the outcome of every check of playCard;
  - the effect table of the special cards;
  - the closed form of drawFromPile's loop, including the recycle of the discard pile;
  - card conservation, and the one card a recycle loses;
  - the layout of a new game.
- **In-place level.** The game service itself works in place. Module `GameService` has a class `Game` whose fields the methods update. Its class `GameStore` holds the `games` record. Each method's postcondition ties the record's new state (`Snapshot()`) to the `GameRules` function for that operation.

The lobby is modelled the same way, in module `Lobby`:

- class `GameRoom` has its fields, with the guest and the status updated in place;
- class `LobbyStore` has the `rooms` record and the order of its keys;
- the sweep loop of getRooms is proved against a filter function, `Unexpired`.

Some behaviours are modelled as the source has them:

- **Judging the caller's card.** playCard checks legality on the card value the caller sends, but moves the hand's card that has the same id (`ForgedCardPlay`).
- **Recycling loses a card.** A recycle of the discard pile keeps only the top card and drops the card under it (`DrawFromPileConserves`).
- **A bad whot play still changes the game.** A whot card played without a requested shape reports its error only after the card has moved to the discard pile (`PlayTurn`).
- **Drawing ignores a finished game.** drawCard makes no winner check (`DrawCardEffect`).

Randomness, ids and the clock are parameters:

- `picks` is the random stream; step `i` of a shuffle swaps with `picks[i] % (i + 1)`.
- `gameId` and `roomId` are the fresh ids.
- `now` is the clock reading.

Files: `wrappers.dfy`, `cards.dfy`, `deck.dfy`, `game_rules.dfy`, `game_properties.dfy`, `game_service.dfy`, `lobby.dfy`.

## Model

| member | source | states |
|---|---|---|
| Cards.Sections | src/lib/whot.ts:11-22 | each section of the catalog has consecutive ids from 1, 13, 25, 34, 43 and 50, one shape, and the listed numbers in order |
| Cards.CatalogSize | src/services/gameService.ts:15-28 | the catalog has 54 cards |
| Cards.CatalogIds | src/lib/whot.ts:10-23 | the catalog's ids are 1..54, in order |
| Cards.CatalogIdsDistinct | src/lib/whot.ts:10-23 | no two catalog cards share an id |
| Cards.CatalogNumbers | src/lib/whot.ts:10-23 | for every shape, the catalog holds exactly that suit's numbers in order: 12 circles, 12 triangles, 9 crosses, 9 squares, 7 stars and 5 whot cards |
| Cards.CatalogWhotCards | src/lib/whot.ts:21-22 | the whot cards are exactly the last five; a card has number 20 iff it is a whot card; every other number is in 1..14 |
| Cards.StarterPackContents | src/lib/whot.ts:25-34 | the starter pack has eight cards with distinct ids; exactly one is a whot card, the seventh, with id 50 |
| Deck.Pick | src/services/gameService.ts:50 | the swap index of step `i` lies in 0..i |
| Deck.Swap | src/services/gameService.ts:51 | the sequence with the cards at `i` and `j` exchanged, of the same length |
| Deck.ShuffleFrom | src/services/gameService.ts:49-52 | the swap loop run from step `i` down to step 1, step `k` swapping positions `k` and `Pick(picks, k)` |
| Deck.SwapExchanges | src/services/gameService.ts:51 | a swap exchanges the two positions and keeps every other position |
| Deck.SwapPermutes | src/services/gameService.ts:51 | a swap permutes the cards |
| Deck.ShuffleFromPermutes | src/services/gameService.ts:49-52 | every run of the swap loop keeps the length and the multiset of cards |
| Deck.Shuffled | src/services/gameService.ts:47-54 | the shuffle returns a permutation of its input (same length, same multiset) |
| Deck.SwapCards | src/services/gameService.ts:51 | the destructuring swap exchanges the two array cells in place |
| Deck.ShuffleDeck | src/services/gameService.ts:47-54 | the swap loop on a fresh copy of the input returns `Shuffled(deck, picks)`, a permutation of the input, and leaves the input untouched |
| Deck.Deal | src/services/gameService.ts:56-60 | `hand ++ remaining == deck`, and the hand has `min(n, |deck|)` cards |
| Deck.IsSpecialNumber | src/services/gameService.ts:76 | the numbers the scan skips: 1, 2, 5, 8, 14 and 20 |
| Deck.FirstPlain | src/services/gameService.ts:73-80 | the first index whose number is not 1, 2, 5, 8, 14 or 20, or -1 when every card is special |
| Deck.FindFirstPlain | src/services/gameService.ts:73-80 | the scan loop returns `FirstPlain(pile)` |
| Deck.SeedDiscardPile | src/services/gameService.ts:82-88 | the seeding step leaves the draw pile and the one-card discard pile of `SeedDiscard` |
| Deck.SeedDiscard | src/services/gameService.ts:82-88 | the first plain card is taken out as the seed, or the last card is popped when none is plain; the rest stays as the draw pile |
| Deck.SeedDiscardChoice | src/services/gameService.ts:82-88 | the seed card is the first plain card, or the last card when all are special; the other cards stay in the draw pile in order, and no card is lost |
| GameRules.FindIndex | src/services/gameService.ts:129 | the first index holding a card with the id, or -1 when no card has it |
| GameRules.IsValidMove | src/services/gameService.ts:112-116 | a whot card is always legal; with a requested shape only that shape is; otherwise the top card's shape or number must match |
| GameRules.Opponent | src/services/gameService.ts:118-121 | "ai" passes to "player1" and every other id to "ai" |
| GameRules.SwitchPlayer | src/services/gameService.ts:118-121 | the turn goes to the opponent of the given id; nothing else changes |
| GameRules.HasWinner | src/services/gameService.ts:125 | a game has ended when its winner is set and not the empty string |
| GameRules.Accepts | src/services/gameService.ts:125-136 | all four checks of playCard pass: no winner, the caller's turn, a hand card with the card's id, and a legal move on the top card |
| GameRules.MoveToDiscard | src/services/gameService.ts:139-141 | the hand card at the index leaves the hand, goes on top of the discard pile, and the requested shape is cleared |
| GameRules.Penalty | src/services/gameService.ts:160-181 | the opponent draws 2 for a 2, 3 for a 5, 1 for a 14 and nothing otherwise |
| GameRules.KeepsTurn | src/services/gameService.ts:153-197 | the player keeps the turn after a 1, an 8 or a 20 |
| GameRules.ApplyEffect | src/services/gameService.ts:153-197 | the switch on the played number: a 1 or 8 keeps the turn; a 2, 5 or 14 makes the opponent draw and passes the turn; a 20 sets the requested shape and keeps the turn, or throws ShapeRequired without one; any other number passes the turn |
| GameRules.PlayCard | src/services/gameService.ts:123-200 | the first failing check's error with the game unchanged; otherwise the move, then the win when the hand is empty, else the played card's effect |
| GameRules.Recycle | src/services/gameService.ts:208-211 | the top discard card stays as the only discard card, and the discard pile less its last two cards, shuffled, becomes the draw pile |
| GameRules.DrawStep | src/services/gameService.ts:206-216 | one turn of the loop: stop when both the draw pile is empty and the discard pile has at most one card; recycle when only the draw pile is empty; then move the first draw card to the end of the hand |
| GameRules.DrawLoop | src/services/gameService.ts:205-217 | `count` turns of the loop, stopping early at the break |
| GameRules.DrawFromPile | src/services/gameService.ts:202-218 | the loop runs on the target's hand and the two piles of the game; everything else stays |
| GameRules.DrawCard | src/services/gameService.ts:221-232 | out of turn, NotYourTurnToDraw with the game unchanged; otherwise one card is drawn and the turn passes, with no winner check |
| GameRules.NewGame | src/services/gameService.ts:66-102 | five cards to the player, the next five to the ai, the discard pile seeded from the rest; the creator moves first; no winner and no request |
| GameRules.CreatedGame | src/services/gameService.ts:62-102 | `NewGame` laid out from the catalog shuffled by the random stream |
| GameProperties.ValidMoveCases | src/services/gameService.ts:112-116 | a whot card is always valid; otherwise a requested shape must be matched, and without one the top card's shape or number must be; without a request, matching is symmetric |
| GameProperties.OpponentToggle | src/services/gameService.ts:118-121 | the opponent of the opponent is the id itself exactly for "ai" and "player1"; an id and its opponent play from different hands |
| GameProperties.DrawWithoutRecycle | src/services/gameService.ts:205-216 | without a recycle, the hand takes the first `min(count, |draw|)` cards of the draw pile, and the discard pile is unchanged |
| GameProperties.DrawWithRecycle | src/services/gameService.ts:205-216 | when the draw pile runs out with two or more discard cards, the hand takes the whole draw pile and then the front of the shuffle of the discard pile less its last two cards; the old top card stays as the only discard card |
| GameProperties.DrawLoopClosedForm | src/services/gameService.ts:202-218 | the loop's result in closed form, in both the recycling case and the other case |
| GameProperties.DrawLoopConserves | src/services/gameService.ts:202-218 | the hand only grows at its end, by at most `count` cards; a non-empty discard pile stays non-empty; the loop loses exactly the card under the discard top when it recycles, and no card otherwise |
| GameProperties.DrawFromPileConserves | src/services/gameService.ts:202-218 | on a game: the other hand and the settings are unchanged, and the conservation facts of the loop hold for the whole game's cards |
| GameProperties.DrawFromPileTotal | src/services/gameService.ts:208-211 | the number of cards in play drops by one exactly when the discard pile is recycled |
| GameProperties.MoveToDiscardFields | src/services/gameService.ts:139-141 | the played card leaves the hand and becomes the top of the discard pile; the request is cleared; no card is lost and nothing else changes |
| GameProperties.EffectTable | src/services/gameService.ts:153-197 | the opponent draws 2 for a 2, 3 for a 5 and 1 for a 14; the turn passes unless the card is 1, 8 or 20; a 20 sets the requested shape, and throws ShapeRequired when none is given |
| GameProperties.PlayRejects | src/services/gameService.ts:124-136 | a play is rejected iff a check fails; the error is that of the first failing check (ended, not your turn, not in hand, invalid move); a rejected play leaves the game unchanged |
| GameProperties.PlaySteps | src/services/gameService.ts:138-197 | an accepted play is the card move, followed by the win when the hand held one card, and by the card's effect otherwise |
| GameProperties.PlayWins | src/services/gameService.ts:146-150 | playing the last card makes the player the winner without an effect or a turn change; the game counts as ended iff the id is not empty |
| GameProperties.PlayMovesCard | src/services/gameService.ts:128-140 | an accepted play removes the hand's card with the caller's id, and that card is the new top of the discard pile |
| GameProperties.PlayTurn | src/services/gameService.ts:153-197 | after an accepted play that is not the last card, the turn passes unless the number is 1, 8 or 20; the request is set only by a 20 with a shape; ShapeRequired comes only from a 20 without one |
| GameProperties.PlayPenalty | src/services/gameService.ts:160-181 | the opponent's hand grows at its end by at most the penalty, and by exactly the top penalty cards of the draw pile when the pile holds enough |
| GameProperties.EffectConserves | src/services/gameService.ts:155-193 | the cards of a non-final accepted play are those of the moved card's state after the opponent's penalty draw |
| GameProperties.PlayConserves | src/services/gameService.ts:123-200 | a play never empties the discard pile and never adds a card; it loses one card exactly when it is accepted, is not the last card, and its penalty exceeds the draw pile |
| GameProperties.RequestedShapeGoverns | src/services/gameService.ts:114 | while a shape is requested the top card does not matter: a non-whot card of another shape is an invalid move, and a card of the requested shape or a whot card is accepted |
| GameProperties.ForgedCardPlay | src/services/gameService.ts:129-140 | a caller claiming that the circle 1 in hand is a whot card gets it played on a square 7, which the circle 1 itself may not cover |
| GameProperties.DrawCardEffect | src/services/gameService.ts:221-232 | out of turn nothing changes (NotYourTurnToDraw); otherwise the hand grows at its end by at most one card, the turn passes, no card is added, and a finished game is not checked |
| GameProperties.DrawCardTakesTop | src/services/gameService.ts:213-216 | with a non-empty draw pile, drawCard moves its top card to the end of the hand |
| GameProperties.SpecialsCount | src/services/gameService.ts:76 | the special cards of a deck are those of its cards whose number is special, counted with multiplicity |
| GameProperties.CatalogSpecials | src/services/gameService.ts:15-28 | 27 of the 54 catalog cards carry a special number |
| GameProperties.NewGameLayout | src/services/gameService.ts:62-106 | the player's hand is the first five cards and the ai's the next five; the discard pile has one card and the draw pile the rest; no card is lost; the creator moves first |
| GameProperties.NewGameSeed | src/services/gameService.ts:72-88 | the discard card is the first plain card after the deal, or the last card when none is plain |
| GameProperties.NewGameSeedsPlain | src/services/gameService.ts:72-88 | the seed is a plain card whenever the cards left after dealing outnumber the special cards |
| GameProperties.CreateGameFromCatalog | src/services/gameService.ts:62-106 | a new game holds the 54 catalog cards: hands of five, a draw pile of 43, and a plain seed card, so the all-special fallback never runs |
| GameService.Game.SwitchPlayer | src/services/gameService.ts:118-121 | the turn goes to the opponent of the given id |
| GameService.Game.RecycleDiscard | src/services/gameService.ts:208-211 | the record's piles become those of `Recycle` |
| GameService.Game.TakeTopCard | src/services/gameService.ts:213-216 | the draw pile's first card moves to the end of the hand |
| GameService.Game.DrawFromPile | src/services/gameService.ts:202-218 | the loop leaves the record equal to `DrawFromPile(old state, target, count, picks)` |
| GameService.Game.MoveCard | src/services/gameService.ts:139-141 | the record becomes `MoveToDiscard` of its old state |
| GameService.Game.PlayEffect | src/services/gameService.ts:152-197 | the switch on the card's number, and the turn change after it, leave the record and the error equal to `ApplyEffect` |
| GameService.Game.CheckPlay | src/services/gameService.ts:125-136 | no error iff the play is accepted; on an error, playCard leaves the game as it was with that error |
| GameService.Game.PlayAccepted | src/services/gameService.ts:138-199 | an accepted play leaves the record and the error equal to `PlayCard` |
| GameService.Game.Play | src/services/gameService.ts:123-200 | playCard on a record: its new state and its error are those of `PlayCard`, and its discard pile stays non-empty |
| GameService.LayOut | src/services/gameService.ts:66-102 | dealing, the scan and the seeding build exactly `NewGame(deck)` |
| GameService.ShuffleAndLayOut | src/services/gameService.ts:63-102 | the shuffled catalog laid out is `CreatedGame`, with one discard card |
| GameService.GameStore.CreateGame | src/services/gameService.ts:62-106 | a fresh record holding `CreatedGame` is stored under the new id; no other key changes |
| GameService.GameStore.Store | src/services/gameService.ts:104 | `games[gameId] = gameState`, keeping the store's invariant |
| GameService.GameStore.GetGameState | src/services/gameService.ts:108-110 | the stored record, or none when the id is unknown |
| GameService.GameStore.PlayCard | src/services/gameService.ts:123-200 | an unknown game gives GameNotFoundOrEnded; otherwise the record's new state and the error are those of `PlayCard`; the store keeps its keys and its invariant |
| GameService.GameStore.DrawCard | src/services/gameService.ts:221-232 | an unknown game gives GameNotFound; otherwise the record's new state and the error are those of `DrawCard` |
| Lobby.HasGuest | src/services/lobbyService.ts:82 | a room has a guest when its guest id is set and not the empty string |
| Lobby.Join | src/services/lobbyService.ts:82-84 | a waiting room without a guest takes the guest and becomes ready; any other room refuses |
| Lobby.Expired | src/services/lobbyService.ts:54-57 | a room is expired when more than one hour has passed since it was created |
| Lobby.Unexpired | src/services/lobbyService.ts:56-60 | the keys, in order, whose rooms are not expired |
| Lobby.WaitingRooms | src/services/lobbyService.ts:62 | the rooms of the keys, in key order, whose status is `waiting` |
| Lobby.JoinExact | src/services/lobbyService.ts:82-84 | a join succeeds iff the room is waiting and its guest is falsy; it then sets only the guest and the status `ready` |
| Lobby.JoinOnce | src/services/lobbyService.ts:82-89 | a room that has been joined refuses every later join |
| Lobby.GameRoom.constructor | src/services/lobbyService.ts:34-41 | a new room has the given host, mode and time, no guest, and status `waiting` |
| Lobby.WithoutMembers | src/services/lobbyService.ts:98 | deleting a key keeps exactly the other keys |
| Lobby.WithoutDistinct | src/services/lobbyService.ts:98 | deleting a key keeps the other keys distinct |
| Lobby.UnexpiredMembers | src/services/lobbyService.ts:56-60 | the sweep keeps exactly the keys whose rooms are at most an hour old |
| Lobby.UnexpiredLater | src/services/lobbyService.ts:53-60 | sweeping at one time and then at a later time is the same as sweeping once at the later time; so a second listing at the same time deletes nothing |
| Lobby.WaitingRoomsMembers | src/services/lobbyService.ts:62 | the listing holds exactly the stored rooms whose status is `waiting` |
| Lobby.LobbyStore.CreateRoom | src/services/lobbyService.ts:32-45 | a fresh waiting room without a guest is stored under the new id; no other room changes |
| Lobby.LobbyStore.Remove | src/services/lobbyService.ts:58 | `delete rooms[roomId]`: only that key goes |
| Lobby.LobbyStore.SweepKey | src/services/lobbyService.ts:57-59 | one turn of the forEach deletes the room iff it is older than an hour |
| Lobby.LobbyStore.SweepStep | src/services/lobbyService.ts:56-60 | one turn of the forEach extends the sweep of the keys it has passed |
| Lobby.LobbyStore.Sweep | src/services/lobbyService.ts:56-60 | the forEach leaves exactly the unexpired rooms, in their order and unchanged |
| Lobby.LobbyStore.GetRooms | src/services/lobbyService.ts:51-63 | deletes exactly the rooms older than an hour; returns the surviving waiting rooms in key order, each waiting and unexpired |
| Lobby.LobbyStore.GetRoom | src/services/lobbyService.ts:70-72 | the room stored under the id, whose own id is that id, or none |
| Lobby.LobbyStore.JoinRoom | src/services/lobbyService.ts:80-90 | on a missing room, a room that is not waiting, or a room with a guest, returns null and changes nothing; otherwise it sets the guest and the status `ready` and returns the room |
| Lobby.LobbyStore.DeleteRoom | src/services/lobbyService.ts:96-101 | removes only the given key; with an absent key nothing changes |

## Left out

- `lastMoveMessage` and its strings (src/services/gameService.ts:41, 101, 142-191) are not modelled. They are display text only.
- `console.log` calls are not modelled.
- Ids and the clock are parameters: `uuidv4()` becomes the `gameId` and `roomId` arguments, and `Date.now()` becomes `now`.
- The `uid` field that the game service's copy of FULL_DECK adds to each card (src/services/gameService.ts:28) is not modelled. The two catalog copies are one constant, `Cards.FullDeck`.
- Deck.Pick: `Math.floor(Math.random() * (i + 1))` is replaced by `picks[i] % (i + 1)` over a caller-supplied stream, so the shuffle covers every swap sequence but not the probabilities.
- Every shuffle follows the random stream its caller passes: createGame's shuffle, and the at most one recycle shuffle of a playCard or drawCard call, each take the `picks` of their own call. Only the probabilities of `Math.random` are lost.
- Thrown errors are returned as a `GameError` value. The caller gets the record and the error together, which also captures the ShapeRequired error that comes after the state changed.
- switchPlayer's `if(!game) return` guard (src/services/gameService.ts:119) is not modelled. Every caller passes a stored game.
- The game store keeps, as an invariant, that every stored game has a non-empty discard pile. playCard's top card read needs it, and every operation is proved to keep it. A game record changed from outside the service, through the object that getGameState or playCard returns, is not modelled.
- JavaScript orders integer-like property keys numerically before other keys. The lobby keeps pure insertion order, which is what the uuid keys get.
- JavaScript numbers are modelled as unbounded integers, with no floating point.
- Concurrency is not modelled. The stores are single and sequential.
- `games` and `rooms` are plain JavaScript objects, and the model treats them as maps. A lookup by a name inherited from `Object.prototype` (such as `constructor` or `toString`) finds a value in the source, but the model treats it as a missing key. For such an id, playCard in the source throws 'Not your turn.' where the model gives GameNotFoundOrEnded, and drawCard throws 'Not your turn to draw.' where the model gives GameNotFound. getGameState and getRoom return a function where the model returns none.
