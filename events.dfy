/**
 * strato/src/event.rs: the action-style handlers. Each takes the context and
 * the state by value and gives back the state to enter, if any, and the new
 * context; an error consumes the context. `Execute` states the handlers on
 * values; `HandleStartOn`, `DealCardsToPlayers` and `RegisterPlayerOn`
 * run them on a `Game.GameContext` object, the way the handlers work on the
 * context they own.
 */
module Events {
  import opened Wrappers
  import opened Cards
  import opened Spread
  import opened Players
  import opened States
  import opened Dealing
  import Turns
  import Game

  /** The handlers of `GameEvent`: start, start with options, register a player. */
  datatype Action = GameStart | GameStartWithOptions(options: GameOptions) | RegisterPlayer(id: string)

  /** `(Option<GameState>, Option<GameContext>)`: the state to enter and the new context. */
  datatype ActionOutcome = ActionOutcome(state: Option<GameState>, context: Option<ContextValue>)

  /** `GameOptions::default()`: no first player given. */
  function DefaultOptions(): GameOptions
  {
    GameOptions(None)
  }

  /**
   * `handle_start`, with `shuffled` the deck as the shuffle left it: the top
   * card primes the discard pile, the cards are dealt, and on success the
   * state becomes `Active` with the given first player current, or
   * `DetermineFirstPlayer` with the current player as it was. A failed deal
   * is the error and no context comes back. There is no guard on the
   * incoming state.
   */
  function HandleStart(c: ContextValue, options: GameOptions, shuffled: seq<Card>): (r: Result<ActionOutcome, GameStartupError>)
    requires WellFormed(c.players) && shuffled != []
    ensures var deal := Dealt(c.players, DropLast(shuffled), 0, 0, 0);
      && (r.Err? <==> deal.result.Err?)
      && (r.Err? ==> r.error == deal.result.error)
      && (r.Ok? ==>
            && r.value.context.Some?
            && r.value.context.value.players == deal.players
            && r.value.context.value.deck == deal.deck
            && r.value.context.value.discard == c.discard + [Last(shuffled)])
    ensures r.Ok? && options.firstPlayerIdx.Some? ==>
      r.value.state == Some(Active) && r.value.context.value.current == options.firstPlayerIdx
    ensures r.Ok? && options.firstPlayerIdx.None? ==>
      r.value.state == Some(DetermineFirstPlayer) && r.value.context.value.current == c.current
  {
    Turns.PrimeAndDealFields(c, options, shuffled);
    var out := Turns.PrimeAndDeal(c, options, shuffled);
    if out.result.Err? then Err(out.result.error)
    else Ok(ActionOutcome(Some(out.state), Some(out.context)))
  }

  /**
   * `Action::execute`. The start handlers ignore the incoming state and
   * differ only in the options; registering appends one new player with the
   * given id, enters no state and has no guard.
   */
  function Execute(a: Action, c: ContextValue, state: GameState, shuffled: seq<Card>): (r: Result<ActionOutcome, GameStartupError>)
    requires WellFormed(c.players)
    requires !a.RegisterPlayer? ==> shuffled != []
    ensures a.GameStart? ==> r == HandleStart(c, DefaultOptions(), shuffled)
    ensures a.GameStartWithOptions? ==> r == HandleStart(c, a.options, shuffled)
    ensures a.RegisterPlayer? ==>
      && r.Ok? && r.value.state.None? && r.value.context.Some?
      && var after := r.value.context.value;
      && |after.players| == |c.players| + 1 && after.players[..|c.players|] == c.players
      && after.players[|c.players|] == Turns.NewPlayer(a.id)
      && after.deck == c.deck && after.discard == c.discard && after.current == c.current
  {
    match a
    case GameStart => HandleStart(c, DefaultOptions(), shuffled)
    case GameStartWithOptions(options) => HandleStart(c, options, shuffled)
    case RegisterPlayer(id) => Ok(ActionOutcome(None, Some(c.(players := c.players + [Turns.NewPlayer(id)]))))
  }

  /** The incoming state makes no difference to any handler. */
  lemma ExecuteIgnoresState(a: Action, c: ContextValue, s: GameState, t: GameState, shuffled: seq<Card>)
    requires WellFormed(c.players) && (!a.RegisterPlayer? ==> shuffled != [])
    ensures Execute(a, c, s, shuffled) == Execute(a, c, t, shuffled)
  {
    match a
    case GameStart =>
    case GameStartWithOptions(_) =>
    case RegisterPlayer(_) =>
  }

  /**
   * A start succeeds exactly when, after priming, the deck has 12 cards per
   * player and every spread is empty; a spread that already holds a card
   * therefore makes it fail even with enough cards.
   */
  lemma HandleStartOkIff(c: ContextValue, options: GameOptions, shuffled: seq<Card>)
    requires WellFormed(c.players) && shuffled != []
    ensures HandleStart(c, options, shuffled).Ok? <==>
      12 * |c.players| <= |shuffled| - 1 && forall i :: 0 <= i < |c.players| ==> c.players[i].grid == EmptyGrid()
  {
    DealtOkIff(c.players, DropLast(shuffled), 0, 0, 0);
    EmptySpreadsEmptyFrom(c.players);
  }

  /**
   * A deal that has a card for every remaining cell but meets an occupied
   * one, here the cell `r`, `c` of player `j` at deal position `q`, fails
   * with `SpotTaken`: the first occupied cell from the cursor on stops it.
   */
  lemma {:induction false} DealtSpotTaken(ps: seq<PlayerValue>, deck: seq<Card>, p: nat, i: nat, row: nat, column: nat,
                                          j: nat, r: nat, c: nat)
    requires WellFormed(ps) && Cursor(|ps|, i, row, column) && p == 12 * i + 4 * row + column
    requires 12 * |ps| - p <= |deck|
    requires j < |ps| && r < ROWS && c < COLUMNS && p <= 12 * j + 4 * r + c && ps[j].grid[r][c].Some?
    ensures Dealt(ps, deck, i, row, column).result == Err(GameStartupError.PlayerSpreadError(SpotTaken))
    decreases |ps| - i, ROWS - row, COLUMNS - column
  {
    if row == ROWS {
      DealtSpotTaken(ps, deck, p, i + 1, 0, 0, j, r, c);
    } else if column == COLUMNS {
      DealtSpotTaken(ps, deck, p, i, row + 1, 0, j, r, c);
    } else {
      var placed := PlaceAtGrid(ps[i].grid, Last(deck), row, column);
      if placed.0.Ok? {
        var ps' := ps[i := ps[i].(grid := placed.1)];
        assert Dealt(ps, deck, i, row, column) == Dealt(ps', DropLast(deck), i, row, column + 1);
        assert (j, r, c) != (i, row, column);
        assert ps'[j].grid[r][c] == ps[j].grid[r][c];
        DealtSpotTaken(ps', DropLast(deck), p + 1, i, row, column + 1, j, r, c);
      } else {
        assert placed.0.error == SpotTaken;
      }
    }
  }

  /**
   * The failures of a start: `DeckEmpty` when the deck after priming is
   * short of 12 cards per player and the spreads are empty, `SpotTaken` when
   * the deck is long enough but some spread already holds a card.
   */
  lemma HandleStartErrors(c: ContextValue, options: GameOptions, shuffled: seq<Card>)
    requires WellFormed(c.players) && shuffled != []
    ensures (forall i :: 0 <= i < |c.players| ==> c.players[i].grid == EmptyGrid()) && |shuffled| - 1 < 12 * |c.players| ==>
      HandleStart(c, options, shuffled) == Err(GameStartupError.DeckEmpty)
    ensures (exists i :: 0 <= i < |c.players| && c.players[i].grid != EmptyGrid()) && 12 * |c.players| <= |shuffled| - 1 ==>
      HandleStart(c, options, shuffled) == Err(GameStartupError.PlayerSpreadError(SpotTaken))
  {
    var deck := DropLast(shuffled);
    EmptySpreadsEmptyFrom(c.players);
    if forall i :: 0 <= i < |c.players| ==> c.players[i].grid == EmptyGrid() {
      DealIntoEmptySpreads(c.players, deck);
    } else if 12 * |c.players| <= |deck| {
      var j, r, k :| 0 <= j < |c.players| && 0 <= r < ROWS && 0 <= k < COLUMNS && 12 * j + 4 * r + k >= 0
        && c.players[j].grid[r][k].Some?;
      DealtSpotTaken(c.players, deck, 0, 0, 0, 0, j, r, k);
    }
  }

  /**
   * A start into empty spreads with n players and enough cards: the discard
   * pile gains one card, the deck loses 1 + 12n cards, and every spread gets
   * its 12 cards row-major from the top of the shuffled deck.
   */
  lemma HandleStartDeals(c: ContextValue, options: GameOptions, shuffled: seq<Card>)
    requires WellFormed(c.players) && 12 * |c.players| < |shuffled|
    requires forall i :: 0 <= i < |c.players| ==> c.players[i].grid == EmptyGrid()
    ensures var r := HandleStart(c, options, shuffled);
      && r.Ok?
      && |r.value.context.value.discard| == |c.discard| + 1
      && |r.value.context.value.deck| == |shuffled| - 1 - 12 * |c.players|
      && Filled(c.players, DropLast(shuffled), r.value.context.value.players, 12 * |c.players|)
  {
    DealIntoEmptySpreads(c.players, DropLast(shuffled));
  }

  // ---------------------------------------------------------------------------
  // The handlers on the context object
  // ---------------------------------------------------------------------------

  /** `deal_cards_to_players` in strato/src/event.rs: the deal with no guard on the state. */
  method DealCardsToPlayers(context: Game.GameContext) returns (r: Result<(), GameStartupError>)
    requires context.Valid()
    modifies context.deck, set j | 0 <= j < |context.players| :: context.players[j].spread
    ensures context.Valid()
    ensures var out := Dealt(old(context.Value()).players, old(context.deck.cards), 0, 0, 0);
      r == out.result && context.Value() == old(context.Value()).(players := out.players, deck := out.deck)
  {
    r := context.DealCards();
  }

  /**
   * `handle_start` on the context it owns: shuffle, prime the discard pile
   * with the top card, deal, then set the first player if one is given.
   * `shuffled` is the deck as the shuffle left it. A shuffle needs at least
   * ten cards, so the priming draw always finds one.
   */
  method HandleStartOn(context: Game.GameContext, options: GameOptions) returns (r: Result<GameState, GameStartupError>, ghost shuffled: seq<Card>)
    requires context.Valid() && |context.deck.cards| >= 10
    modifies context, context.deck, context.discardPile, set j | 0 <= j < |context.players| :: context.players[j].spread
    ensures context.Valid()
    ensures |shuffled| == |old(context.deck.cards)| && multiset(shuffled) == multiset(old(context.deck.cards))
    ensures shuffled != []
    ensures var out := HandleStart(old(context.Value()), options, shuffled);
      && (r.Err? <==> out.Err?)
      && (r.Err? ==> r.error == out.error)
      && (r.Ok? ==> out.value == ActionOutcome(Some(r.value), Some(context.Value())))
  {
    ghost var c := context.Value();
    shuffled := ShuffleDeck(context);
    ghost var out := Turns.PrimeAndDeal(c, options, shuffled);
    var topCard := context.DrawCard();
    context.PutDiscard(topCard.value);
    r := DealCardsThen(context, options);
    assert context.Valid();
  }

  /** `context.deck.shuffle()`; gives the shuffled deck. */
  method ShuffleDeck(context: Game.GameContext) returns (ghost shuffled: seq<Card>)
    requires context.Valid() && |context.deck.cards| >= 10
    modifies context.deck
    ensures context.Valid() && shuffled != []
    ensures |shuffled| == |old(context.deck.cards)| && multiset(shuffled) == multiset(old(context.deck.cards))
    ensures context.Value() == old(context.Value()).(deck := shuffled)
  {
    context.deck.Shuffle();
    shuffled := context.deck.cards;
  }

  /** The deal of `handle_start`, and then the first player as the options say. */
  method DealCardsThen(context: Game.GameContext, options: GameOptions) returns (r: Result<GameState, GameStartupError>)
    requires context.Valid()
    modifies context, context.deck, set j | 0 <= j < |context.players| :: context.players[j].spread
    ensures context.Valid()
    ensures var deal := Dealt(old(context.Value()).players, old(context.deck.cards), 0, 0, 0);
      var dealt := old(context.Value()).(players := deal.players, deck := deal.deck);
      && (r.Err? <==> deal.result.Err?)
      && (r.Err? ==> r.error == deal.result.error)
      && (r.Ok? && options.firstPlayerIdx.Some? ==>
            r.value == Active && context.Value() == dealt.(current := options.firstPlayerIdx))
      && (r.Ok? && options.firstPlayerIdx.None? ==> r.value == DetermineFirstPlayer && context.Value() == dealt)
  {
    var dealt := DealCardsToPlayers(context);
    if dealt.Err? {
      return Err(dealt.error);
    }
    match options.firstPlayerIdx {
      case Some(first) =>
        context.SetCurrent(Some(first));
        return Ok(Active);
      case None =>
        return Ok(DetermineFirstPlayer);
    }
  }

  /** `RegisterPlayerAction::execute`: one new player with that id at the end; no state to enter. */
  method RegisterPlayerOn(context: Game.GameContext, id: string) returns (state: Option<GameState>)
    requires context.Valid()
    modifies context
    ensures context.Valid() && fresh(context.Repr() - old(context.Repr()))
    ensures state.None? && context.Value() == old(context.Value()).(players := old(context.Value()).players + [Turns.NewPlayer(id)])
  {
    context.PushPlayer(id);
    return None;
  }
}
