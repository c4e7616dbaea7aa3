/**
 * core/src/game.rs, the rules: the earlier engine has four states and no
 * turn order. `start` replaces the deck with a freshly shuffled full deck and
 * deals; `start_player_turn` and `end_player_turn` check only that the player
 * exists and, for the end, that a card is held. Each rule is a function on a
 * snapshot `ContextValue`; module CoreGame proves the game object follows them.
 */
module CoreRules {
  import opened Wrappers
  import opened Cards
  import opened Spread
  import opened Players
  import CorePlayers
  import States
  import Dealing
  import Turns

  datatype GameState = WaitingForPlayers | Startup | Active | Ended

  datatype GameStartupError =
    | GameAlreadyStarted
    | PlayersListLocked
    | PlayerSpreadError(spreadError: SpreadActionError)
    | DeckEmpty

  datatype PlayerTurnError =
    | PlayerDoesntExist
    | TurnNotStarted
    | PlayerActionError(actionError: CorePlayers.HoldError)
    | PlayerSpreadError(spreadError: SpreadActionError)
    | DeckEmpty
    | DiscardPileEmpty

  /** A snapshot of `GameContext`: the players in order, the deck and the discard pile. */
  datatype ContextValue = ContextValue(players: seq<PlayerValue>, deck: seq<Card>, discard: seq<Card>)

  datatype StartOutcome = StartOutcome(result: Result<(), GameStartupError>, context: ContextValue, state: GameState)

  /** All cards of the game: the deck, the discard pile, the spreads and the hands. */
  function Total(c: ContextValue): nat
    requires States.WellFormed(c.players)
  {
    |c.deck| + |c.discard| + States.PlayersCards(c.players)
  }

  // ---------------------------------------------------------------------------
  // The rules
  // ---------------------------------------------------------------------------

  /**
   * `add_player`: only while waiting for players a new player, with an empty
   * hand and spread, joins at the end and its id is returned; otherwise
   * `PlayersListLocked` and nothing changes.
   */
  function AddPlayer(state: GameState, c: ContextValue, id: string): (out: (Result<string, GameStartupError>, ContextValue))
    ensures state == WaitingForPlayers <==> out.0.Ok?
    ensures out.0.Ok? ==> out.0.value == id && out.1.players == c.players + [Turns.NewPlayer(id)]
    ensures out.0.Err? ==> out.0.error == PlayersListLocked && out.1 == c
    ensures out.1.deck == c.deck && out.1.discard == c.discard
  {
    if state == WaitingForPlayers then (Ok(id), c.(players := c.players + [Turns.NewPlayer(id)]))
    else (Err(PlayersListLocked), c)
  }

  /** The deal's error in this engine's terms: an empty deck or a spread error. */
  function DealError(e: States.GameStartupError): GameStartupError
    requires e.DeckEmpty? || e.PlayerSpreadError?
  {
    if e.DeckEmpty? then GameStartupError.DeckEmpty else GameStartupError.PlayerSpreadError(e.spreadError)
  }

  /**
   * `deal_cards_to_players`: in `Startup`, for every player, row and column
   * in turn, the top card of the deck goes to that cell (as `Dealing.Dealt`
   * describes, the first error ends the deal where it stands); in any other
   * state nothing happens. Only the spreads and the deck change.
   */
  function Deal(state: GameState, c: ContextValue): (out: (Result<(), GameStartupError>, ContextValue))
    requires States.WellFormed(c.players)
    ensures States.WellFormed(out.1.players) && |out.1.players| == |c.players| && out.1.discard == c.discard
    ensures forall j :: 0 <= j < |c.players| ==> out.1.players[j].id == c.players[j].id && out.1.players[j].holding == c.players[j].holding
    ensures state != Startup ==> out == (Ok(()), c)
  {
    if state == Startup then
      var d := Dealing.Dealt(c.players, c.deck, 0, 0, 0);
      var r := if d.result.Ok? then Ok(()) else Err(DealError(d.result.error));
      (r, c.(players := d.players, deck := d.deck))
    else (Ok(()), c)
  }

  /**
   * `start`: in `Active` the game refuses with `GameAlreadyStarted`; waiting
   * for players with at least one of them, it enters `Startup`, replaces the
   * deck with `shuffled` (the new full deck as the shuffle left it) and deals,
   * entering `Active` only when the deal succeeds; in every other case it
   * succeeds and changes nothing.
   */
  function Start(state: GameState, c: ContextValue, shuffled: seq<Card>): (out: StartOutcome)
    requires States.WellFormed(c.players)
    ensures States.WellFormed(out.context.players) && |out.context.players| == |c.players|
    ensures out.context.discard == c.discard
    ensures forall j :: 0 <= j < |c.players| ==>
      out.context.players[j].id == c.players[j].id && out.context.players[j].holding == c.players[j].holding
    ensures out.result == Err(GameAlreadyStarted) <==> state == Active
    ensures out.state == Startup <==> state == Startup || (state == WaitingForPlayers && out.result.Err?)
    ensures out.state == Active <==> state == Active || (state == WaitingForPlayers && |c.players| > 0 && out.result.Ok?)
  {
    if state == Active then StartOutcome(Err(GameAlreadyStarted), c, state)
    else if state == WaitingForPlayers && |c.players| > 0 then
      var d := Deal(Startup, c.(deck := shuffled));
      StartOutcome(d.0, d.1, if d.0.Ok? then Active else Startup)
    else StartOutcome(Ok(()), c, state)
  }

  /** The pile `start_player_turn` draws from. */
  function Pile(c: ContextValue, action: StartAction): seq<Card>
  {
    if action == DrawFromDeck then c.deck else c.discard
  }

  /**
   * `start_player_turn`: no check of the state or of whose turn it is. An
   * unknown id gives `PlayerDoesntExist` and an empty pile its own error,
   * both changing nothing. Otherwise the top card is drawn first and then
   * offered to the hand: an empty hand takes it face-up, a full hand refuses
   * it and the drawn card is gone from the game.
   */
  function StartPlayerTurn(c: ContextValue, id: string, action: StartAction): (out: (Result<(), PlayerTurnError>, ContextValue))
    ensures States.Position(c.players, id).None? ==> out == (Err(PlayerDoesntExist), c)
    ensures States.Position(c.players, id).Some? && Pile(c, action) == [] ==>
      out == (Err(if action == DrawFromDeck then PlayerTurnError.DeckEmpty else DiscardPileEmpty), c)
    ensures States.Position(c.players, id).Some? && Pile(c, action) != [] ==>
      && Pile(out.1, action) == DropLast(Pile(c, action))
      && (action == DrawFromDeck ==> out.1.discard == c.discard)
      && (action == TakeFromDiscardPile ==> out.1.deck == c.deck)
    ensures out.0.Ok? <==>
      States.Position(c.players, id).Some? && Pile(c, action) != [] && c.players[States.Position(c.players, id).value].holding.None?
    ensures out.0.Ok? ==>
      var i := States.Position(c.players, id).value;
      out.1.players == c.players[i := c.players[i].(holding := Some(Last(Pile(c, action)).Flip()))]
    ensures out.0.Err? ==> out.1.players == c.players
  {
    match States.Position(c.players, id)
    case None => (Err(PlayerDoesntExist), c)
    case Some(i) =>
      var pile := Pile(c, action);
      if pile == [] then (Err(if action == DrawFromDeck then PlayerTurnError.DeckEmpty else DiscardPileEmpty), c)
      else
        var drawn := if action == DrawFromDeck then c.(deck := DropLast(c.deck)) else c.(discard := DropLast(c.discard));
        var p := c.players[i];
        if p.holding.Some? then (Err(PlayerActionError(CorePlayers.AlreadyHolding(p.holding.value))), drawn)
        else (Ok(()), drawn.(players := c.players[i := p.(holding := Some(Last(pile).Flip()))]))
  }

  /**
   * `end_player_turn`: an unknown id gives `PlayerDoesntExist` and an empty
   * hand `TurnNotStarted`, both changing nothing. Otherwise the hand is
   * emptied first; then a swap or a flip is made on the spread as in module
   * Turns and the card given up is discarded. A spread error leaves the
   * spread alone, but the card released from the hand is gone. There is no
   * column removal and no turn advance.
   */
  function EndPlayerTurn(c: ContextValue, id: string, action: EndAction): (out: (Result<(), PlayerTurnError>, ContextValue))
    requires States.WellFormed(c.players)
    ensures States.WellFormed(out.1.players) && |out.1.players| == |c.players| && out.1.deck == c.deck
    ensures States.Position(c.players, id).None? ==> out == (Err(PlayerDoesntExist), c)
    ensures States.Position(c.players, id).Some? && c.players[States.Position(c.players, id).value].holding.None? ==>
      out == (Err(TurnNotStarted), c)
    ensures States.Position(c.players, id).Some? ==>
      var i := States.Position(c.players, id).value;
      && out.1.players[i].holding.None?
      && forall j :: 0 <= j < |c.players| && j != i ==> out.1.players[j] == c.players[j]
  {
    match States.Position(c.players, id)
    case None => (Err(PlayerDoesntExist), c)
    case Some(i) => EndTurnOf(c, i, action)
  }

  /** `end_player_turn` once player `i` is found. */
  function EndTurnOf(c: ContextValue, i: nat, action: EndAction): (out: (Result<(), PlayerTurnError>, ContextValue))
    requires States.WellFormed(c.players) && i < |c.players|
    ensures States.WellFormed(out.1.players) && |out.1.players| == |c.players| && out.1.deck == c.deck
    ensures c.players[i].holding.None? ==> out == (Err(TurnNotStarted), c)
    ensures out.1.players[i].holding.None? && forall j :: 0 <= j < |c.players| && j != i ==> out.1.players[j] == c.players[j]
  {
    var p := c.players[i];
    if p.holding.None? then (Err(TurnNotStarted), c)
    else
      var released := c.players[i := p.(holding := None)];
      match Turns.EndActionOnSpread(p.grid, p.holding.value, action)
      case Err(e) => (Err(PlayerTurnError.PlayerSpreadError(e)), c.(players := released))
      case Ok(e) => (Ok(()), c.(players := c.players[i := p.(holding := None, grid := e.0)], discard := c.discard + [e.1]))
  }

  // ---------------------------------------------------------------------------
  // What the rules promise
  // ---------------------------------------------------------------------------

  /** `start` on a started game refuses and changes nothing, the deck included. */
  lemma StartWhenActive(c: ContextValue, shuffled: seq<Card>)
    requires States.WellFormed(c.players)
    ensures Start(Active, c, shuffled) == StartOutcome(Err(GameAlreadyStarted), c, Active)
  {
  }

  /**
   * `start` with nobody to deal to, or in `Startup` or `Ended`, succeeds and
   * changes nothing.
   */
  lemma StartIsNoOp(state: GameState, c: ContextValue, shuffled: seq<Card>)
    requires States.WellFormed(c.players)
    requires (state == WaitingForPlayers && c.players == []) || state == Startup || state == Ended
    ensures Start(state, c, shuffled) == StartOutcome(Ok(()), c, state)
  {
  }

  /**
   * `start` with 1 to 12 freshly joined players and the shuffled full deck:
   * the game becomes `Active`, each player gets 12 face-down cards, taken
   * row-major from the top of the deck, 150 - 12n cards stay in the deck and
   * the discard pile is untouched.
   */
  lemma StartDeals(c: ContextValue, shuffled: seq<Card>)
    requires States.WellFormed(c.players) && 0 < |c.players| <= 12
    requires forall i :: 0 <= i < |c.players| ==> c.players[i].grid == EmptyGrid()
    requires multiset(shuffled) == multiset(FullDeck())
    ensures var out := Start(WaitingForPlayers, c, shuffled);
      && |shuffled| == 150 && out.result == Ok(()) && out.state == Active
      && |out.context.deck| == 150 - 12 * |c.players| && out.context.deck == shuffled[..150 - 12 * |c.players|]
      && out.context.discard == c.discard
      && Dealing.Filled(c.players, shuffled, out.context.players, 12 * |c.players|)
      && forall i :: 0 <= i < |c.players| ==>
           CardCount(out.context.players[i].grid) == CELLS && FlippedCards(out.context.players[i].grid) == 0
  {
    FullDeckSize();
    assert |shuffled| == |multiset(shuffled)| == 150;
    Dealing.DealIntoEmptySpreads(c.players, shuffled);
    var out := Start(WaitingForPlayers, c, shuffled);
    FullDeckFaceDown();
    forall x | x in shuffled
      ensures !x.flipped
    {
      assert x in multiset(FullDeck());
    }
    Dealing.FullDealIsFaceDown(c.players, shuffled, out.context.players);
  }

  /**
   * With 13 or more players the full deck runs out: `start` reports
   * `DeckEmpty`, the deck is empty and the game is left in `Startup`.
   */
  lemma StartRunsOut(c: ContextValue, shuffled: seq<Card>)
    requires States.WellFormed(c.players) && |c.players| > 12
    requires forall i :: 0 <= i < |c.players| ==> c.players[i].grid == EmptyGrid()
    requires multiset(shuffled) == multiset(FullDeck())
    ensures var out := Start(WaitingForPlayers, c, shuffled);
      out.result == Err(GameStartupError.DeckEmpty) && out.state == Startup && out.context.deck == []
  {
    FullDeckSize();
    assert |shuffled| == |multiset(shuffled)| == 150;
    Dealing.DealIntoEmptySpreads(c.players, shuffled);
  }

  /**
   * What `start_player_turn` does to the cards in play: a success moves one
   * card from a pile to a hand; a refused hold destroys the drawn card.
   */
  lemma StartPlayerTurnCards(c: ContextValue, id: string, action: StartAction)
    requires States.WellFormed(c.players)
    ensures var out := StartPlayerTurn(c, id, action);
      && States.WellFormed(out.1.players)
      && (out.0.Ok? ==> Total(out.1) == Total(c))
      && (out.0.Err? && out.0.error.PlayerActionError? ==> Total(out.1) == Total(c) - 1)
      && (out.0.Err? && !out.0.error.PlayerActionError? ==> out.1 == c)
  {
    var out := StartPlayerTurn(c, id, action);
    if out.0.Ok? {
      var i := States.Position(c.players, id).value;
      States.PlayersCardsUpdate(c.players, i, c.players[i].(holding := Some(Last(Pile(c, action)).Flip())));
    }
  }

  /**
   * What `end_player_turn` does to the cards in play: a success keeps them
   * all and leaves as many cards in the spread as before (no column is
   * removed); a spread error destroys the released card.
   */
  lemma EndPlayerTurnCards(c: ContextValue, id: string, action: EndAction)
    requires States.WellFormed(c.players)
    ensures var out := EndPlayerTurn(c, id, action);
      && (out.0.Ok? ==> Total(out.1) == Total(c))
      && (out.0.Ok? ==> var i := States.Position(c.players, id).value;
            CardCount(out.1.players[i].grid) == CardCount(c.players[i].grid))
      && (out.0.Err? && out.0.error.PlayerSpreadError? ==> Total(out.1) == Total(c) - 1)
      && (out.0.Err? && !out.0.error.PlayerSpreadError? ==> out.1 == c)
  {
    var out := EndPlayerTurn(c, id, action);
    if States.Position(c.players, id).Some? {
      var i := States.Position(c.players, id).value;
      var p := c.players[i];
      if p.holding.Some? {
        var e := Turns.EndActionOnSpread(p.grid, p.holding.value, action);
        Turns.EndActionKeepsCards(p.grid, p.holding.value, action);
        if e.Ok? {
          States.PlayersCardsUpdate(c.players, i, p.(holding := None, grid := e.value.0));
        } else {
          States.PlayersCardsUpdate(c.players, i, p.(holding := None));
        }
      }
    }
  }
}
