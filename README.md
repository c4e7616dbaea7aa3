# Strato rules engine, modelled in Dafny

Strato is a card game for two or more players. Each player owns a
3 × 4 spread of face-down cards. The cards come from a 150-card deck: ten sets of
the values -2 to 12. A game shuffles the deck, primes a discard pile with its
top card, then deals twelve face-down cards from the rest to every player. It
then lets every player flip two cards. The player whose two cards
score highest goes first, unless the start options name a first player.

In a turn the current player takes a card from the deck or the discard pile.
The player then either swaps that card into the spread or discards it and
flips a hidden card. A column of three face-up cards of equal value is
cleared, and the turn passes to the next player.

The repository holds two generations of the engine, and both are modelled here.

- **strato** is the main engine:
  - `Cards` covers the card, the deck with its shuffle, and the discard pile.
  - `Spread` covers the player's grid and its queries.
  - `Players` covers the one-card hand.
  - `States` and `Turns` hold the rules on values: the state machine, its ordered error checks and the invariants of a game.
  - `Dealing` describes the row-major deal.
  - `Game` holds the imperative `GameContext` and `StratoGame` classes, whose methods are proved to follow `Turns`.
  - `Events` covers the action-style handlers.
  - `Selector` covers the lookup by id.
- **core** is the earlier snapshot:
  - `CorePlayers` is the player with a name.
  - `CoreRules` holds its rules on values.
  - `CoreGame` is its imperative game.
  - `CoreLib` is the three-state sketch of core/src/lib.rs.
  - core/src/card.rs shares with the strato card file the value conversions, `size`, `draw`, `shuffle` and the discard pile, and core's `Deck::new` builds the deck strato's `Default` builds (`Deck.Full`), so `Cards` models these for both.
  - core/src/card.rs differs from the strato file in four ways. Its derived `Default` deck is empty (`Deck.Empty`). Its `visible` flag is `flipped` in `Cards`. It has no `get_value`. It defines no spread.
  - core/src/card.rs does not define the spread that core imports; the strato `Spread` stands in for it.

The mutable objects of the source are Dafny classes. These are the deck, the
discard pile, the spread, the player, the game context and the game. Each
class carries a ghost `Value()` that abstracts its state to a datatype. Each
method's `ensures` ties its result and its new `Value()` to a function of the
old value. The rules are stated and proved on those functions:
- error priorities;
- what every success changes;
- the game invariant;
- card conservation;
- the shape of a start.

## Model

| member | source | states |
|---|---|---|
| Cards.ToInt | strato/src/card.rs:95-117 | Every card value converts to an integer in [-2, 12] |
| Cards.FromInt | strato/src/card.rs:70-93 | On [-2, 12] the conversion from an integer is inverted by `ToInt`; outside that range the source panics, so the range is required |
| Cards.ToIntRoundTrip | strato/src/card.rs:70-117 | Converting a value to an integer and back gives the same value |
| Cards.Card.GetValue | strato/src/card.rs:19-25 | A card shows its value exactly when it is face-up |
| Cards.Card.Flip | strato/src/card.rs:27-29 | Flipping makes the card face-up and keeps its value |
| Cards.NewCard | strato/src/card.rs:12-17 | A new card has the given value and starts face-down |
| Cards.FlipIdempotent | core/src/card.rs:18-20 | Flipping twice is flipping once, and a face-up card is unchanged by a flip |
| Cards.NewCardInjective | core/src/card.rs:11-16 | Two new cards are equal exactly when their values are |
| Cards.FullDeck | strato/src/card.rs:192-200 | The default deck has 150 cards; `FullDeckIsTenSets` ties it to the source's construction |
| Cards.FullDeckIsTenSets | strato/src/card.rs:195-198 | The card-by-card deck is ten concatenated runs -2..=12 (`Sets(10)`, each `Run(-2, 12)` of new cards), the `(0..10).map(...).flatten()` the source builds, also in core/src/card.rs:104-106 |
| Cards.FullDeckShape | strato/src/card.rs:192-200 | Card j of the default deck has value j mod 15 − 2, so every set ascends from -2 to 12; the top card, drawn first, is 12 and the bottom card is -2 |
| Cards.FullDeckCounts | core/src/card.rs:103-109 | The full deck holds exactly ten cards of each value |
| Cards.FullDeckFaceDown | strato/src/card.rs:192-200 | Every card of the full deck is face-down |
| Cards.Deck.Full | core/src/card.rs:103-109 | `Deck::new` (and strato's `Deck::default`) builds the full deck |
| Cards.Deck.Empty | core/src/card.rs:95-96 | core's derived `Deck::default` is empty |
| Cards.Deck.Draw | strato/src/card.rs:187-189 | Drawing from an empty deck gives nothing and changes nothing; otherwise it gives the top card and removes only that card, so `Size` drops by one |
| Cards.Deck.Shuffle | strato/src/card.rs:132-184 | Shuffling a deck of at least ten cards keeps its size and its multiset of cards |
| Cards.Interleave | strato/src/card.rs:151-171 | Interleaving two halves loses and gains no card, and terminates because every pass pops a card while either hand has one |
| Cards.PopOnto | strato/src/card.rs:158-170 | Popping onto the pile moves cards without loss and shrinks a non-empty hand |
| Cards.Swapped | strato/src/card.rs:176-181 | Swapping two positions exchanges them, keeps every other position and keeps the multiset |
| Cards.DiscardPile.constructor | strato/src/card.rs:208-210 | A new discard pile is empty |
| Cards.DiscardPile.Take | strato/src/card.rs:217-219 | Taking from an empty pile gives nothing and changes nothing; otherwise it gives the top card and removes only that card, so `Size` drops by one |
| Cards.DiscardPile.Put | strato/src/card.rs:222-224 | Putting a card places it on top of the pile, and `Size` grows by one |
| Cards.PutThenTake | strato/src/card.rs:206-225 | A card put on a pile is the next one taken, and taking it restores the pile |
| Spread.EmptyGrid | strato/src/card.rs:249-255 | A new spread is a 3 × 4 grid of empty cells |
| Spread.SetCell | strato/src/card.rs:288-307 | Writing a cell changes that cell and no other |
| Spread.View | strato/src/card.rs:257-274 | The view is always 3 × 4 and shows a cell's value exactly when the cell holds a face-up card |
| Spread.ActiveColumns | strato/src/card.rs:330-338 | At most four columns are active |
| Spread.CardCount | strato/src/card.rs:372-378 | A spread holds at most twelve cards |
| Spread.FlippedCards | strato/src/card.rs:380-382 | At most twelve cards are face-up |
| Spread.CheckBounds | strato/src/card.rs:277-285 | A cell exists exactly when row < 3 and column < 4; the row is checked before the column |
| Spread.TakeFromGrid | strato/src/card.rs:277-285 | Errors in the order row, column, empty cell, each leaving the grid unchanged; it succeeds exactly on an occupied cell of the grid, returning the card that was there and emptying only that cell |
| Spread.PlaceAtGrid | strato/src/card.rs:288-307 | Errors in the order row, column, `SpotTaken`, each leaving the grid unchanged; it succeeds exactly on an empty existing cell and then fills only that cell |
| Spread.FlipAtGrid | strato/src/card.rs:310-327 | Errors in the order row, column, `NoCardFound`, `CardAlreadyFlipped`, each leaving the grid unchanged; it succeeds exactly on a face-down card and then turns only that card face-up, value unchanged |
| Spread.RemoveColumnGrid | strato/src/card.rs:342-370 | A column of three face-up cards of equal value is emptied; otherwise the grid is unchanged; other columns never change |
| Spread.SetCellCounts | strato/src/card.rs:372-396 | Changing one cell changes the card count, the face-up count and the score (`Score`, the sum of face-up values) only by that cell's contribution |
| Spread.ScoreBounds | strato/src/card.rs:388-396 | The score `Score` lies between −2 and 12 times the face-up count, so it is 0 when nothing is face-up |
| Spread.AllFlippedIffCounts | strato/src/card.rs:384-386 | A spread is all flipped (`IsAllFlipped`) exactly when every present card is face-up, which is when the face-up count equals the card count |
| Spread.EmptyGridQueries | strato/src/card.rs:545-557 | An empty spread has no cards, no face-up cards, score 0 and no active column, and is vacuously all flipped |
| Spread.FullGridActiveColumns | strato/src/card.rs:330-338 | A full spread has four active columns |
| Spread.TakeThenPlaceRestores | strato/src/card.rs:277-307 | Putting a taken card back where it was restores the grid |
| Spread.PlaceThenTakeRestores | strato/src/card.rs:277-307 | Taking a placed card back returns it and restores the grid |
| Spread.CellOperationCounts | strato/src/card.rs:277-327 | Take removes one card, place adds one, and flip keeps the count while adding one face-up card and its value to the score |
| Spread.FlipRevealsOneCell | strato/src/card.rs:257-327 | A successful flip reveals exactly the flipped cell in the view |
| Spread.ViewHidesFaceDown | strato/src/card.rs:257-274 | Grids that agree on their face-up cards have the same view, whatever their hidden cards are |
| Spread.RemoveColumnCounts | strato/src/card.rs:342-370 | Clearing a matching column removes three cards, three face-up cards, three times the column's value from the score and one active column |
| Spread.PlayerSpread.constructor | strato/src/card.rs:249-255 | A new spread object holds the empty grid |
| Spread.PlayerSpread.TakeFrom | strato/src/card.rs:277-285 | The object's grid and result follow `TakeFromGrid`, so it succeeds exactly on an occupied cell |
| Spread.PlayerSpread.PlaceAt | strato/src/card.rs:288-307 | The object's grid and result follow `PlaceAtGrid` |
| Spread.PlayerSpread.FlipAt | strato/src/card.rs:310-327 | The object's grid and result follow `FlipAtGrid` |
| Spread.PlayerSpread.RemoveColumnIfMatches | strato/src/card.rs:342-370 | The row loop leaves the grid as `RemoveColumnGrid` says, and the result is `Ok` |
| Players.Player.constructor | strato/src/player.rs:24-30 | A new player has the given id, an empty hand and an empty spread |
| Players.Player.Hold | strato/src/player.rs:43-52 | An empty hand takes the card face-up with its value kept; a full hand refuses with the card it holds and stays as it was |
| Players.Player.Release | strato/src/player.rs:55-57 | Release gives the held card, if any, and empties the hand |
| States.Position | strato/src/game.rs:228-233 | The position found is the first index with that id, and there is none exactly when no player has it |
| States.PositionOfUniqueId | strato/src/game.rs:228-233 | With unique ids the lookup of a player's id finds that player's index |
| States.PlayersCardsUpdate | strato/src/game.rs:339-345 | Replacing one player changes the cards in play by that player's difference only |
| States.FreshPlayersHaveNoCards | strato/src/game.rs:86-101 | Players who have just joined hold no cards |
| Turns.CheckIfPlayerTurn | strato/src/game.rs:317-325 | Only a player who is not the current one is refused, with `NotYourTurn`; with no current player everyone may play |
| Turns.AdvancePlayerTurn | strato/src/game.rs:310-315 | The turn passes to the next index and wraps to 0 after the last; without a current player it stays unset |
| Turns.AdvanceFullRound | strato/src/game.rs:310-315 | Advancing n times from any player of n comes back to that player, passing every later index in order and then 0 |
| Turns.AdvanceTimesCompose | strato/src/game.rs:310-315 | Advancing a + b times is advancing a times then b times |
| Turns.AddPlayer | strato/src/game.rs:86-101 | It succeeds exactly while waiting for players, returning the id; then the old players are kept and one player with that id, an empty hand and an empty spread is added last; otherwise `PlayersListLocked` and nothing changes; the deck, the discard pile and the current player never change |
| Turns.PrimeAndDeal | strato/src/game.rs:127-145 | The top card primes the discard pile; a failed deal stops in `Startup`; success enters `Active` with the given first player or `DetermineFirstPlayer`; the states entered are announced in order |
| Turns.HandleStart | strato/src/game.rs:122-145 | Already `Active` gives `GameAlreadyStarted`, then fewer than two players gives `NotEnoughPlayers`, then any state but waiting succeeds; none of these changes anything; from waiting the game starts as `PrimeAndDeal` says |
| Turns.LastMaxIndex | strato/src/game.rs:197-217 | The index chosen has the highest score, and every later index scores strictly less, so ties go to the last maximal index |
| Turns.FirstPlayer | strato/src/game.rs:197-217 | The first player is known exactly when every player has two face-up cards, and it is the last player with the highest score |
| Turns.PlayerFlipRule | strato/src/game.rs:166-195 | For `PlayerFlipToDetermineWhoIsFirst` and its step `FlipForFirst`: errors in the order wrong phase, unknown id, `TooManyCardsFlipped`, the spread's flip error, each changing nothing; success flips that player's card and, once everyone has two face-up, makes the best scorer current and the game `Active` |
| Turns.StartPlayerTurn | strato/src/game.rs:219-259 | Errors in the order `GameNotStarted`, `PlayerDoesntExist`, `NotYourTurn`, `TurnAlreadyStarted`, empty pile, each changing nothing; success moves the top card of the chosen pile, face-up, into that player's hand and changes nothing else |
| Turns.EndActionOnSpread | strato/src/game.rs:283-293 | A swap puts the held card in the cell and discards the card that was there; a flip turns the cell face-up and discards the held card; spread errors pass through |
| Turns.PlayHeldCard | strato/src/game.rs:283-305 | Applies the end action to the player's spread: a spread error is the result and changes nothing; success replaces only that player's grid by the grid with the column cleared if it matches, discards the card given up and advances the turn |
| Turns.EndPlayerTurn | strato/src/game.rs:261-315 | `GameNotStarted`, `PlayerDoesntExist`, `NotYourTurn`, `TurnNotStarted` change nothing; a spread error drops the held card and changes nothing else; success empties the hand, applies the action, clears a matching column, discards the right card and advances the turn |
| Turns.InitialInv | strato/src/game.rs:59-65 | A new game, with no players, the full deck, an empty discard pile and nobody current, satisfies the game invariant |
| Turns.AddPlayerInv | strato/src/game.rs:86-101 | Adding a player keeps the invariant and the number of cards in play |
| Turns.StartPlayerTurnInv | strato/src/game.rs:219-259 | Starting a turn keeps the invariant (only the current player of an `Active` game holds a card) and the number of cards in play |
| Turns.EndPlayerTurnInv | strato/src/game.rs:261-315 | Ending a turn keeps the invariant and never adds a card; a successful end keeps the number of cards in play, less the three of a cleared column |
| Turns.PlayerFlipInv | strato/src/game.rs:166-217 | Flipping to pick the first player keeps the invariant, including a current player once `Active`, and the number of cards in play |
| Turns.PlayHeldInv | strato/src/game.rs:279-305 | Playing the held card keeps the invariant; the cards in play stay the same, less exactly three when the column is cleared |
| Turns.FlipForFirstInv | strato/src/game.rs:187-192 | The flip and the check for a first player keep the invariant and the number of cards in play |
| Turns.HandleStartInv | strato/src/game.rs:122-164 | Starting a waiting game keeps the invariant and gains no card |
| Turns.HandleStartDeals | strato/src/game.rs:127-164 | With 2 to 12 players a start succeeds with one card on the discard pile, 12 face-down cards in every spread dealt row-major and 150 − 1 − 12n cards left; with 13 or more it fails with `DeckEmpty` in `Startup`, every card having gone to the spreads in order |
| Dealing.Dealt | strato/src/game.rs:147-164 | The deal keeps the players, their ids and their hands, and fails only with `DeckEmpty` or a spread error |
| Dealing.DealtKeepsCards | strato/src/game.rs:147-164 | The deal moves cards from the deck into the spreads and never creates one |
| Dealing.DealtOkIff | strato/src/event.rs:63-74 | A deal succeeds exactly when the deck has a card for every remaining cell and those cells are empty |
| Dealing.DealIntoEmptySpreads | strato/src/game.rs:147-164 | Into empty spreads the deal fills every cell, row-major from the top of the deck, when the deck is long enough, and otherwise runs it dry with `DeckEmpty` |
| Dealing.FullDealIsFaceDown | strato/src/game.rs:147-164 | After a full deal of face-down cards every spread has 12 cards and none face-up |
| Events.HandleStart | strato/src/event.rs:43-61 | With no guard on the state, the handler primes the discard pile and deals; a failed deal is its error; success enters `Active` with the given first player or `DetermineFirstPlayer` with the current player unchanged |
| Events.Execute | strato/src/event.rs:28-88 | The start actions differ only in their options; registering always succeeds, keeps the old players, adds one fresh player with that id last, enters no state and leaves the deck, the discard pile and the current player alone |
| Events.ExecuteIgnoresState | strato/src/event.rs:43-61 | No handler depends on the incoming state |
| Events.HandleStartOkIff | strato/src/event.rs:43-74 | A start succeeds exactly when every spread is empty and the deck, after priming, holds 12 cards per player |
| Events.HandleStartErrors | strato/src/event.rs:63-74 | Too few cards for empty spreads give `DeckEmpty`; an occupied spread with enough cards gives `SpotTaken` |
| Events.HandleStartDeals | strato/src/event.rs:43-74 | A successful start adds one card to the discard pile, removes 1 + 12n from the deck and deals every spread its 12 cards row-major |
| Events.DealCardsToPlayers | strato/src/event.rs:63-74 | The nested loop on the context object deals as `Dealt` says |
| Events.HandleStartOn | strato/src/event.rs:43-61 | On the context object the handler shuffles (a permutation), then primes and deals as `HandleStart` says |
| Events.ShuffleDeck | strato/src/event.rs:47 | Shuffling the context's deck changes only the deck, and only its order |
| Events.DealCardsThen | strato/src/event.rs:51-60 | After the deal the state to enter and the current player follow the options |
| Events.RegisterPlayerOn | strato/src/event.rs:76-88 | Registering appends one fresh player with that id and enters no state |
| Selector.Find | strato/src/selector.rs:3-8 | The `find` over the players: a player found is in the list and has the id, and none is found exactly when no player has it |
| Selector.GetPlayer | strato/src/selector.rs:3-8 | Any player found is in the context and has the id, and none is found exactly when no player has it |
| Selector.FindIsAtPosition | strato/src/selector.rs:3-8 | The player found is the one at the first index with that id, the lookup `start_player_turn` makes |
| Selector.GetPlayerIsFirst | strato/src/selector.rs:3-8 | No earlier player has the id of the player found |
| Selector.GetPlayerUniqueIds | strato/src/selector.rs:3-8 | With unique ids looking up a player's id finds that player |
| Game.PlayerValues | strato/src/game.rs:339-345 | The abstraction of the player objects is position by position |
| Game.GameContext.constructor | strato/src/game.rs:59-65 | A new context has no players, the full deck, an empty discard pile and nobody current |
| Game.GameContext.PositionOf | strato/src/game.rs:228-233 | The search loop finds the first index with the id |
| Game.GameContext.PushPlayer | strato/src/game.rs:94-95 | Exactly one fresh player with that id is appended |
| Game.GameContext.StartTurn | strato/src/game.rs:219-259 | The context changes as `Turns.StartPlayerTurn` says, built on the one-step methods `DrawCard`, `TakeDiscard` and `Hold`, each stating its new value |
| Game.GameContext.DrawIntoHand | strato/src/game.rs:243-256 | The chosen pile's top card goes face-up into the hand; an empty pile is its error and changes nothing |
| Game.GameContext.EndTurn | strato/src/game.rs:261-308 | The context changes as `Turns.EndPlayerTurn` says, built on `Release`, then `PutDiscard` inside `ApplyEndAction` and `SetCurrent` inside `AdvancePlayerTurn` |
| Game.GameContext.PlayHeldCard | strato/src/game.rs:283-305 | After the release, the spread action, the discard, the column check and the advance follow `Turns.PlayHeldCard` |
| Game.GameContext.ApplyEndAction | strato/src/game.rs:283-293 | A swap or a flip changes only that player's grid and the discard pile, as `Turns.EndActionOnSpread` says; a spread error is the result and changes nothing |
| Game.GameContext.AdvancePlayerTurn | strato/src/game.rs:310-315 | Only the current player changes, as `Turns.AdvancePlayerTurn` says |
| Game.GameContext.FlipToDetermineFirst | strato/src/game.rs:166-195 | The context changes as `Turns.PlayerFlipToDetermineWhoIsFirst` says |
| Game.GameContext.FlipForFirst | strato/src/game.rs:187-192 | In `DetermineFirstPlayer` the flip, the first-player check and the state entered follow `Turns.FlipForFirst` |
| Game.GameContext.FirstPlayerDetermined | strato/src/game.rs:197-217 | The query agrees with `Turns.FirstPlayer` |
| Game.GameContext.DealCards | strato/src/game.rs:147-164 | The nested loops deal as `Dealt` says, through `DealPlayer`, `DealRow` and `DealOne`, one method per loop level, each proved against the same function |
| Game.StratoGame.constructor | strato/src/game.rs:59-65 | A new game waits for players with the initial context and no subscriber |
| Game.StratoGame.UpdateState | strato/src/game.rs:67-70 | The state is set and, if someone subscribed, exactly one event carrying it is announced |
| Game.StratoGame.Subscribe | strato/src/game.rs:72-74 | The slot is taken |
| Game.StratoGame.Unsubscribe | strato/src/game.rs:76-78 | The slot is emptied |
| Game.StratoGame.Notify | strato/src/game.rs:80-84 | The event reaches the subscriber only when there is one |
| Game.StratoGame.AddPlayer | strato/src/game.rs:86-101 | The game changes as `Turns.AddPlayer` says and keeps its invariant |
| Game.StratoGame.GetPlayer | strato/src/game.rs:107-112 | The player returned is the first with that id, and none exactly when no player has it |
| Game.StratoGame.HandleStart | strato/src/game.rs:122-145 | The game changes as `Turns.HandleStart` says, announcing each state it enters, and keeps its invariant |
| Game.StratoGame.StartFromWaiting | strato/src/game.rs:127-141 | From waiting, `Startup` is announced, the deck is shuffled (a permutation), and the rest follows `Turns.PrimeAndDeal` on that shuffled deck, announcing each state entered |
| Game.StratoGame.DealAndEnter | strato/src/game.rs:131-141 | Once shuffled, the priming, the deal and the state entered follow `Turns.PrimeAndDeal`; a failed deal announces nothing more |
| Game.StratoGame.PrimeAndDeal | strato/src/game.rs:131-134 | The top card of the deck goes onto the discard pile and the rest of the deck is dealt as `Dealt` says; it uses the context's `DrawCard` and `PutDiscard` |
| Game.StratoGame.EnterFirstTurn | strato/src/game.rs:136-141 | A given first player becomes current and the game `Active`; without one it enters `DetermineFirstPlayer` and nothing else changes; the state is announced |
| Game.StratoGame.ShuffleDeck | strato/src/game.rs:130 | The deck becomes a permutation of itself and nothing else changes |
| Game.StratoGame.DealCardsToPlayers | strato/src/game.rs:147-164 | In `Startup` the cards are dealt as `Dealt` says; in any other state nothing happens |
| Game.StratoGame.PlayerFlipToDetermineWhoIsFirst | strato/src/game.rs:166-217 | The game changes as `Turns.PlayerFlipToDetermineWhoIsFirst` says and announces `Active` when it enters it |
| Game.StratoGame.StartPlayerTurn | strato/src/game.rs:219-259 | The game changes as `Turns.StartPlayerTurn` says and keeps its invariant |
| Game.StratoGame.EndPlayerTurn | strato/src/game.rs:261-315 | The game changes as `Turns.EndPlayerTurn` says and keeps its invariant |
| CorePlayers.Player.constructor | core/src/player.rs:17-24 | A new player has the id and name, an empty hand and an empty spread |
| CorePlayers.Player.Hold | core/src/player.rs:33-42 | An empty hand takes the card, made visible; a full hand refuses, naming the card it holds, and stays as it was |
| CorePlayers.Player.Release | core/src/player.rs:45-47 | Release gives the held card, if any, and empties the hand |
| CorePlayers.HoldThenRelease | core/src/player.rs:33-47 | Hold then release gives back the card, now visible, and a second release gives nothing |
| CoreRules.AddPlayer | core/src/game.rs:51-66 | The id is accepted exactly while waiting for players, and one fresh player is then appended; otherwise `PlayersListLocked` and nothing changes |
| CoreRules.Deal | core/src/game.rs:99-116 | In `Startup` the cards are dealt row-major, keeping ids and hands; in any other state nothing happens |
| CoreRules.Start | core/src/game.rs:79-97 | `GameAlreadyStarted` exactly when `Active`; the game stays in `Startup` exactly when it was there or a deal from waiting failed; it becomes `Active` exactly when it was or a deal from waiting with players succeeded |
| CoreRules.StartWhenActive | core/src/game.rs:80-81 | Starting an active game is refused and changes nothing, the deck included |
| CoreRules.StartIsNoOp | core/src/game.rs:82-96 | Starting with no players, or in `Startup` or `Ended`, succeeds and changes nothing |
| CoreRules.StartDeals | core/src/game.rs:83-116 | With 1 to 12 players, the start replaces the deck with a shuffled full deck, deals 12 face-down cards to every spread, leaves 150 − 12n cards, keeps the discard pile and becomes `Active` |
| CoreRules.StartRunsOut | core/src/game.rs:83-116 | With 13 or more players the deck runs dry, `DeckEmpty`, and the game stays in `Startup` |
| CoreRules.StartPlayerTurn | core/src/game.rs:118-146 | No state or turn check: unknown id and empty pile change nothing; otherwise the pile loses its top card, which the hand takes face-up only when it was empty, so a holder loses it |
| CoreRules.EndPlayerTurn | core/src/game.rs:148-175 | Unknown id changes nothing; an empty hand gives `TurnNotStarted`; otherwise the hand is emptied and only that player changes, with no column removal and no advance |
| CoreRules.EndTurnOf | core/src/game.rs:160-174 | Release comes first, so a spread error drops the card; success applies the action as in strato and discards the right card |
| CoreRules.StartPlayerTurnCards | core/src/game.rs:118-146 | A successful start of a turn keeps the number of cards; a refused hold loses exactly one card |
| CoreRules.EndPlayerTurnCards | core/src/game.rs:148-175 | A successful end keeps the number of cards and the player's spread count; a spread error loses exactly the held card |
| CoreGame.StratoGame.constructor | core/src/game.rs:43-49 | A new game waits for players, with no players, the empty derived default deck and an empty discard pile |
| CoreGame.StratoGame.AddPlayer | core/src/game.rs:51-66 | One fresh player with the id and the name is appended as `CoreRules.AddPlayer` says |
| CoreGame.StratoGame.ListPlayers | core/src/game.rs:68-70 | The players in order |
| CoreGame.StratoGame.GetPlayer | core/src/game.rs:72-77 | A player with that id is returned, and none exactly when no player has it |
| CoreGame.StratoGame.ReplaceDeck | core/src/game.rs:85-87 | The deck becomes a new shuffled full deck |
| CoreGame.StratoGame.Start | core/src/game.rs:79-97 | The game changes as `CoreRules.Start` says, entering states through `SetState` |
| CoreGame.StratoGame.DealCardsToPlayers | core/src/game.rs:99-116 | The nested loops deal as `CoreRules.Deal` says, through `DealPlayer`, `DealRow` and `DealOne`, one method per loop level |
| CoreGame.StratoGame.StartPlayerTurn | core/src/game.rs:118-146 | The game changes as `CoreRules.StartPlayerTurn` says, built on the one-step methods `DrawCard`, `TakeDiscard` and `Hold` |
| CoreGame.StratoGame.PositionOf | core/src/game.rs:153-158 | The search loop finds the first index with the id, the lookup both turn methods make (also at core/src/game.rs:123-128) |
| CoreGame.StratoGame.EndTurnOf | core/src/game.rs:160-174 | Once the player is found, the release and the spread action change the game as `CoreRules.EndTurnOf` says |
| CoreGame.StratoGame.PlayReleasedCard | core/src/game.rs:162-172 | A swap or a flip changes only that player's grid and the discard pile, as `Turns.EndActionOnSpread` says, through `PutDiscard`; a spread error is the result and changes nothing |
| CoreGame.StratoGame.EndPlayerTurn | core/src/game.rs:148-175 | The game changes as `CoreRules.EndPlayerTurn` says |
| CoreGame.OnePlayerStarts | core/src/game.rs:79-116 | One player is enough: the game becomes `Active` with 12 face-down cards dealt and 138 left |
| CoreLib.Joined | core/src/lib.rs:14-18 | A player is appended while waiting and is ignored otherwise |
| CoreLib.Started | core/src/lib.rs:24-28 | The game is `Active` afterwards exactly when it was, or it was waiting with a player; otherwise the state is unchanged |
| CoreLib.StartedIdempotent | core/src/lib.rs:24-28 | Starting again changes nothing |
| CoreLib.NeverEnds | core/src/lib.rs:31-37 | No operation reaches `Ended` |
| CoreLib.StratoGame.constructor | core/src/lib.rs:6-12 | A new game waits for players and has none |
| CoreLib.StratoGame.AddPlayer | core/src/lib.rs:14-18 | The players change as `Joined` says |
| CoreLib.StratoGame.ListPlayers | core/src/lib.rs:20-22 | The players in the order they joined |
| CoreLib.StratoGame.Start | core/src/lib.rs:24-28 | The state changes as `Started` says |
| CoreLib.StartTwiceThenJoin | core/src/lib.rs:59-125 | Two players join, repeated starts leave the game `Active`, and a later player is refused |

## Left out

- Randomness: the ids of strato/src/game.rs:88-92 and core/src/game.rs:53-57 are strings the caller supplies. The random choices of the shuffle are nondeterministic picks within the source's ranges.
- Cards.Deck.Shuffle: it proves that the shuffle is a permutation, not which permutation. Fewer than ten cards make the source panic, so at least ten are required.
- Spread.PlayerSpread.RemoveColumnIfMatches: a column of 4 or more makes the source panic, so a valid column is required.
- Events.HandleStartOn: the source panics when the deck is empty at the priming draw, so a deck of at least ten cards is required, which the shuffle needs anyway.
- The call at strato/src/game.rs:94 passes two arguments to `Player::new`, which takes one (strato/src/player.rs:24); the model uses the one-argument constructor.
- `remaining_cards` is an iterator; the model states it through `Spread.CardCount`.
- `Player::id`, `holding` and `is_flipped` are plain reads of fields and have no members of their own.
- strato/src/subscription.rs: only its effect is modelled, as a subscriber flag and a ghost log of the states announced.
- The `LastRound` and `Ended` transitions and the winner are unimplemented in the source and have no model.
- The `send` dispatcher and the `state()`/`context()` accessors of strato/tests/integration.rs are not part of this model: they are not in the source files modelled.
- `Debug` formatting and error message texts are left out. core's `hold` returns a message string, modelled as `CorePlayers.HoldError`, the held card it names.
- The client, server and UI crates are outside the engine.
- Turns.LastMaxIndex follows the code: ties go to the last maximal index, as `max_by_key` does.
- Turns.PrimeAndDeal follows the code: the priming card goes onto the discard pile face-down.
- CoreRules.Start follows the code: core's `start` (core/src/game.rs:79-97) never primes the discard pile, although core/tests/integration.rs:53-54, :93-99, :113, :128 and :177-198 expect one card there; so `CoreRules.StartDeals` keeps the discard pile and `CoreGame.OnePlayerStarts` leaves 138 cards, not 137.
- CoreGame.StratoGame.constructor follows the code: the derived default deck is empty, although core/tests/integration.rs:12 expects 150 cards.
