/**
 * strato/src/game.rs: the game object. `GameContext` holds the players, the
 * index of the current player, the deck and the discard pile; `StratoGame`
 * holds the state, the context and the single subscriber slot. Every public
 * operation is proved to change the objects as the corresponding rule in
 * module Turns says and to keep the invariant `Turns.Inv`.
 */
module Game {
  import opened Wrappers
  import opened Cards
  import opened Spread
  import opened Players
  import opened States
  import opened Dealing
  import opened Turns

  /** `GameEvent::StateChange`: the state just entered. */
  datatype GameEvent = StateChange(state: GameState)

  /** The players' snapshots, in order. */
  ghost function PlayerValues(ps: seq<Player>): (vs: seq<PlayerValue>)
    reads set i | 0 <= i < |ps| :: ps[i]
    reads set i | 0 <= i < |ps| :: ps[i].spread
    ensures |vs| == |ps|
    ensures forall i :: 0 <= i < |ps| ==> vs[i] == ps[i].Value()
  {
    seq(|ps|, i requires 0 <= i < |ps| reads set j | 0 <= j < |ps| :: ps[j], set j | 0 <= j < |ps| :: ps[j].spread =>
      ps[i].Value())
  }

  /** Players and spreads are separate objects, and every spread is a grid. */
  ghost predicate DistinctPlayers(ps: seq<Player>)
    reads set i | 0 <= i < |ps| :: ps[i]
    reads set i | 0 <= i < |ps| :: ps[i].spread
  {
    && (forall i, j :: 0 <= i < j < |ps| ==> ps[i] != ps[j] && ps[i].spread != ps[j].spread)
    && (forall i :: 0 <= i < |ps| ==> ps[i].Valid())
  }

  class GameContext {
    var players: seq<Player>
    var currentPlayerIdx: Option<nat>
    const deck: Deck
    const discardPile: DiscardPile

    ghost function Repr(): set<object>
      reads this
    {
      {this, deck, discardPile}
        + (set i | 0 <= i < |players| :: players[i] as object)
        + (set i | 0 <= i < |players| :: players[i].spread as object)
    }

    ghost predicate Valid()
      reads Repr()
      ensures Valid() ==> WellFormed(Value().players)
    {
      DistinctPlayers(players)
    }

    ghost function Value(): ContextValue
      reads Repr()
    {
      ContextValue(PlayerValues(players), currentPlayerIdx, deck.cards, discardPile.cards)
    }

    /** `GameContext::default`: no players, nobody current, the full deck, an empty discard pile. */
    constructor ()
      ensures Valid() && fresh(Repr())
      ensures Value() == InitialContext()
    {
      players := [];
      currentPlayerIdx := None;
      deck := new Deck.Full();
      discardPile := new DiscardPile();
    }

    /** `players.iter().position(|p| p.id() == id)`, which `find` agrees with. */
    method PositionOf(id: string) returns (r: Option<nat>)
      requires Valid()
      ensures r == Position(Value().players, id)
    {
      var i := 0;
      while i < |players|
        invariant 0 <= i <= |players|
        invariant forall j :: 0 <= j < i ==> players[j].id != id
      {
        if players[i].id == id {
          return Some(i);
        }
        i := i + 1;
      }
      return None;
    }

    // The single steps the game's operations are made of, each stated as its
    // effect on the snapshot.

    /** `players.push(Player::new(id))`. */
    method PushPlayer(id: string)
      requires Valid()
      modifies this
      ensures Valid() && fresh(Repr() - old(Repr()))
      ensures Value() == old(Value()).(players := old(Value()).players + [NewPlayer(id)])
    {
      ghost var before := Value();
      ghost var ps := players;
      var player := new Player(id);
      assert PlayerValues(ps) == before.players;
      players := players + [player];
      assert players[..|ps|] == ps;
      assert PlayerValues(players) == before.players + [NewPlayer(id)];
    }

    /** `current_player_idx = idx`. */
    method SetCurrent(idx: Option<nat>)
      requires Valid()
      modifies this
      ensures Valid() && players == old(players)
      ensures Value() == old(Value()).(current := idx)
    {
      currentPlayerIdx := idx;
    }

    /** `deck.draw()`. */
    method DrawCard() returns (card: Option<Card>)
      requires Valid()
      modifies deck
      ensures Valid()
      ensures old(deck.cards) == [] ==> card.None? && Value() == old(Value())
      ensures old(deck.cards) != [] ==>
        card == Some(Last(old(deck.cards))) && Value() == old(Value()).(deck := DropLast(old(deck.cards)))
    {
      card := deck.Draw();
    }

    /** `discard_pile.take()`. */
    method TakeDiscard() returns (card: Option<Card>)
      requires Valid()
      modifies discardPile
      ensures Valid()
      ensures old(discardPile.cards) == [] ==> card.None? && Value() == old(Value())
      ensures old(discardPile.cards) != [] ==>
        card == Some(Last(old(discardPile.cards)))
        && Value() == old(Value()).(discard := DropLast(old(discardPile.cards)))
    {
      card := discardPile.Take();
    }

    /** `discard_pile.put(card)`. */
    method PutDiscard(card: Card)
      requires Valid()
      modifies discardPile
      ensures Valid()
      ensures Value() == old(Value()).(discard := old(discardPile.cards) + [card])
    {
      discardPile.Put(card);
    }

    /** `players[i].hold(card)`. */
    method Hold(i: nat, card: Card) returns (r: Result<(), PlayerActionError>)
      requires Valid() && i < |players|
      modifies players[i]
      ensures Valid()
      ensures var before := old(Value()).players;
        && (before[i].holding.Some? ==>
              r == Err(AlreadyHoldingCard(before[i].holding.value)) && Value() == old(Value()))
        && (before[i].holding.None? ==>
              r == Ok(()) && Value() == old(Value()).(players := before[i := before[i].(holding := Some(card.Flip()))]))
    {
      r := players[i].Hold(card);
    }

    /** `players[i].release()`. */
    method Release(i: nat) returns (card: Option<Card>)
      requires Valid() && i < |players|
      modifies players[i]
      ensures Valid()
      ensures var before := old(Value()).players;
        card == before[i].holding && Value() == old(Value()).(players := before[i := before[i].(holding := None)])
    {
      card := players[i].Release();
    }

    /** `players[i].spread.take_from(row, column)`. */
    method TakeFrom(i: nat, row: nat, column: nat) returns (r: Result<Card, SpreadActionError>)
      requires Valid() && i < |players|
      modifies players[i].spread
      ensures Valid()
      ensures var before := old(Value()).players;
        var out := TakeFromGrid(before[i].grid, row, column);
        r == out.0 && Value() == old(Value()).(players := before[i := before[i].(grid := out.1)])
    {
      r := players[i].spread.TakeFrom(row, column);
    }

    /** `players[i].spread.place_at(card, row, column)`. */
    method PlaceAt(i: nat, card: Card, row: nat, column: nat) returns (r: Result<(), SpreadActionError>)
      requires Valid() && i < |players|
      modifies players[i].spread
      ensures Valid()
      ensures var before := old(Value()).players;
        var out := PlaceAtGrid(before[i].grid, card, row, column);
        r == out.0 && Value() == old(Value()).(players := before[i := before[i].(grid := out.1)])
    {
      r := players[i].spread.PlaceAt(card, row, column);
    }

    /** `players[i].spread.flip_at(row, column)`. */
    method FlipAt(i: nat, row: nat, column: nat) returns (r: Result<(), SpreadActionError>)
      requires Valid() && i < |players|
      modifies players[i].spread
      ensures Valid()
      ensures var before := old(Value()).players;
        var out := FlipAtGrid(before[i].grid, row, column);
        r == out.0 && Value() == old(Value()).(players := before[i := before[i].(grid := out.1)])
    {
      r := players[i].spread.FlipAt(row, column);
    }

    /** `players[i].spread.remove_column_if_matches(column)`. */
    method RemoveColumnIfMatches(i: nat, column: nat) returns (r: Result<(), SpreadActionError>)
      requires Valid() && i < |players| && column < COLUMNS
      modifies players[i].spread
      ensures Valid()
      ensures var before := old(Value()).players;
        r == Ok(()) && Value() == old(Value()).(players := before[i := before[i].(grid := RemoveColumnGrid(before[i].grid, column))])
    {
      r := players[i].spread.RemoveColumnIfMatches(column);
    }

    /** The rule of `start_player_turn`, applied to this context in the given state. */
    method StartTurn(state: GameState, id: string, action: StartAction) returns (r: Result<(), PlayerTurnError>)
      requires Valid()
      modifies deck, discardPile, set j | 0 <= j < |players| :: players[j]
      ensures Valid()
      ensures (r, Value()) == Turns.StartPlayerTurn(state, old(Value()), id, action)
    {
      ghost var c := Value();
      ghost var out := Turns.StartPlayerTurn(state, c, id, action);
      if state != Active {
        return Err(GameNotStarted);
      }
      var idx := PositionOf(id);
      if idx.None? {
        return Err(PlayerDoesntExist);
      }
      var i := idx.value;
      assert Value() == c;
      var check := CheckIfPlayerTurn(currentPlayerIdx, i);
      if check.Err? {
        return Err(check.error);
      }
      if players[i].holding.Some? {
        assert c.players[i].holding.Some?;
        return Err(TurnAlreadyStarted);
      }
      r := DrawIntoHand(i, action);
      assert out == (r, Value());
    }

    /**
     * The last step of `start_player_turn` for player `i`, whose hand is
     * empty: the top card of the chosen pile goes into the hand; an empty
     * pile is an error and changes nothing.
     */
    method DrawIntoHand(i: nat, action: StartAction) returns (r: Result<(), PlayerTurnError>)
      requires Valid() && i < |players| && players[i].holding.None?
      modifies deck, discardPile, players[i]
      ensures Valid()
      ensures var before := old(Value());
        var pile := if action == DrawFromDeck then before.deck else before.discard;
        && (pile == [] ==> Value() == before && r == if action == DrawFromDeck then Err(PlayerTurnError.DeckEmpty) else Err(DiscardPileEmpty))
        && (pile != [] ==>
              && r == Ok(())
              && Value().players == before.players[i := before.players[i].(holding := Some(Last(pile).Flip()))]
              && Value().current == before.current
              && (action == DrawFromDeck ==> Value().deck == DropLast(before.deck) && Value().discard == before.discard)
              && (action == TakeFromDiscardPile ==> Value().deck == before.deck && Value().discard == DropLast(before.discard)))
    {
      var card: Option<Card>;
      if action == DrawFromDeck {
        card := DrawCard();
        if card.None? {
          return Err(PlayerTurnError.DeckEmpty);
        }
      } else {
        card := TakeDiscard();
        if card.None? {
          return Err(DiscardPileEmpty);
        }
      }
      var held := Hold(i, card.value);
      match held {
        case Err(e) =>
          assert false;
          return Err(PlayerActionError(e));
        case Ok(_) =>
      }
      return Ok(());
    }

    /**
     * The rule of `end_player_turn`, applied to this context in the given
     * state; `advance_player_turn` is its last step.
     */
    method EndTurn(state: GameState, id: string, action: EndAction) returns (r: Result<(), PlayerTurnError>)
      requires Valid()
      modifies this, discardPile, set j | 0 <= j < |players| :: players[j], set j | 0 <= j < |players| :: players[j].spread
      ensures Valid() && players == old(players)
      ensures (r, Value()) == Turns.EndPlayerTurn(state, old(Value()), id, action)
    {
      ghost var c := Value();
      ghost var out := Turns.EndPlayerTurn(state, c, id, action);
      if state != Active {
        return Err(GameNotStarted);
      }
      var idx := PositionOf(id);
      if idx.None? {
        return Err(PlayerDoesntExist);
      }
      var i := idx.value;
      assert Value() == c;
      var check := CheckIfPlayerTurn(currentPlayerIdx, i);
      if check.Err? {
        return Err(check.error);
      }
      ghost var p := c.players[i];
      var cardFromHand := Release(i);
      if cardFromHand.None? {
        assert c.players[i := p.(holding := None)] == c.players;
        assert out == (Err(TurnNotStarted), c);
        return Err(TurnNotStarted);
      }
      r := PlayHeldCard(i, cardFromHand.value, action);
    }

    /** `Turns.PlayHeldCard` on the objects. */
    method PlayHeldCard(i: nat, card: Card, action: EndAction) returns (r: Result<(), PlayerTurnError>)
      requires Valid() && i < |players|
      modifies this, discardPile, set j | 0 <= j < |players| :: players[j], set j | 0 <= j < |players| :: players[j].spread
      ensures Valid() && players == old(players)
      ensures (r, Value()) == Turns.PlayHeldCard(old(Value()), i, card, action)
    {
      ghost var before := Value();
      ghost var e := EndActionOnSpread(before.players[i].grid, card, action);
      var applied := ApplyEndAction(i, card, action);
      if applied.Err? {
        return Err(PlayerTurnError.PlayerSpreadError(applied.error));
      }
      ghost var cleared := RemoveColumnGrid(e.value.0, action.Column());
      var removed := RemoveColumnIfMatches(i, action.Column());
      assert Value().players == before.players[i := before.players[i].(grid := cleared)];
      AdvancePlayerTurn();
      return Ok(());
    }

    /**
     * The spread half of a turn's end: a swap takes the chosen card and puts
     * the held one in its place, a flip turns the chosen card face-up; the
     * card given up goes on the discard pile. A spread error changes nothing.
     */
    method ApplyEndAction(i: nat, card: Card, action: EndAction) returns (r: Result<(), SpreadActionError>)
      requires Valid() && i < |players|
      modifies players[i].spread, discardPile
      ensures Valid()
      ensures var before := old(Value());
        var e := EndActionOnSpread(before.players[i].grid, card, action);
        && (e.Err? ==> r == Err(e.error) && Value() == before)
        && (e.Ok? ==> r == Ok(()) && Value() == before.(players := before.players[i := before.players[i].(grid := e.value.0)],
                                                          discard := before.discard + [e.value.1]))
    {
      ghost var before := Value();
      match action {
        case Swap(row, column) =>
          var selected := TakeFrom(i, row, column);
          if selected.Err? {
            assert before.players[i := before.players[i]] == before.players;
            return Err(selected.error);
          }
          var placed := PlaceAt(i, card, row, column);
          match placed {
            case Err(e) =>
              assert false;
              return Err(e);
            case Ok(_) =>
          }
          PutDiscard(selected.value);
        case FlipCard(row, column) =>
          var flipped := FlipAt(i, row, column);
          if flipped.Err? {
            assert before.players[i := before.players[i]] == before.players;
            return Err(flipped.error);
          }
          PutDiscard(card);
      }
      return Ok(());
    }

    /** `advance_player_turn`: the next player in list order, wrapping around. */
    method AdvancePlayerTurn()
      requires Valid()
      requires currentPlayerIdx.Some? ==> |players| > 0
      modifies this
      ensures Valid() && players == old(players)
      ensures Value() == old(Value()).(current := Turns.AdvancePlayerTurn(old(currentPlayerIdx), |players|))
    {
      match currentPlayerIdx {
        case Some(current) =>
          SetCurrent(Some((current + 1) % |players|));
        case None =>
      }
    }

    /**
     * The rule of `player_flip_to_determine_who_is_first`, applied to this
     * context in the given state; `entered` is the state the game moves to,
     * if it moves.
     */
    method FlipToDetermineFirst(state: GameState, id: string, row: nat, column: nat)
      returns (r: Result<(), PlayerTurnError>, entered: Option<GameState>)
      requires Valid()
      modifies this, set j | 0 <= j < |players| :: players[j].spread
      ensures Valid() && players == old(players)
      ensures var out := Turns.PlayerFlipToDetermineWhoIsFirst(state, old(Value()), id, row, column);
        && r == out.result && Value() == out.context
        && (entered.None? <==> out.state == state) && (entered.Some? ==> entered.value == out.state)
    {
      ghost var c := Value();
      ghost var out := Turns.PlayerFlipToDetermineWhoIsFirst(state, c, id, row, column);
      if state != DetermineFirstPlayer {
        assert out == FlipOutcome(Err(NotDeterminingFirstPlayer), c, state);
        return Err(NotDeterminingFirstPlayer), None;
      }
      var idx := PositionOf(id);
      if idx.None? {
        assert out == FlipOutcome(Err(PlayerDoesntExist), c, state);
        return Err(PlayerDoesntExist), None;
      }
      var i := idx.value;
      assert Value() == c;
      assert c.players[i].grid == players[i].spread.grid;
      if FlippedCards(players[i].spread.grid) >= 2 {
        assert out == FlipOutcome(Err(TooManyCardsFlipped), c, state);
        return Err(TooManyCardsFlipped), None;
      }
      assert out == Turns.FlipForFirst(state, c, i, row, column);
      r, entered := FlipForFirst(state, i, row, column);
    }

    /** `Turns.FlipForFirst` on the objects. */
    method FlipForFirst(state: GameState, i: nat, row: nat, column: nat)
      returns (r: Result<(), PlayerTurnError>, entered: Option<GameState>)
      requires Valid() && i < |players| && state == DetermineFirstPlayer
      modifies this, set j | 0 <= j < |players| :: players[j].spread
      ensures Valid() && players == old(players)
      ensures var out := Turns.FlipForFirst(state, old(Value()), i, row, column);
        && r == out.result && Value() == out.context
        && (entered.None? <==> out.state == state) && (entered.Some? ==> entered.value == out.state)
    {
      var flipped := FlipAt(i, row, column);
      if flipped.Err? {
        return Err(PlayerTurnError.PlayerSpreadError(flipped.error)), None;
      }
      var first := FirstPlayerDetermined();
      if first.Some? {
        SetCurrent(first);
        return Ok(()), Some(Active);
      }
      return Ok(()), None;
    }

    /** `check_if_first_player_determined`, on the objects. */
    function FirstPlayerDetermined(): (r: Option<nat>)
      requires Valid() && |players| > 0
      reads Repr()
      ensures r == FirstPlayer(Value().players)
    {
      var ps := players;
      if forall i :: 0 <= i < |ps| ==> FlippedCards(ps[i].spread.grid) == 2 then
        var scores := seq(|ps|, i requires 0 <= i < |ps| && IsGrid(ps[i].spread.grid)
                                  reads set j | 0 <= j < |ps| :: ps[j].spread =>
                                  Score(ps[i].spread.grid));
        assert scores == Scores(Value().players);
        Some(LastMaxIndex(scores))
      else
        None
    }

    /**
     * The three loops of `deal_cards_to_players`: for every player, row and
     * column in turn, the top card of the deck goes to that cell, exactly as
     * `Dealing.Dealt` describes; only the deck and the spreads change.
     */
    method DealCards() returns (r: Result<(), GameStartupError>)
      requires Valid()
      modifies deck, set j | 0 <= j < |players| :: players[j].spread
      ensures Valid()
      ensures var out := Dealt(old(Value()).players, old(deck.cards), 0, 0, 0);
        r == out.result && Value() == old(Value()).(players := out.players, deck := out.deck)
    {
      ghost var start := Value();
      ghost var goal := Dealt(start.players, deck.cards, 0, 0, 0);
      var i := 0;
      while i < |players|
        invariant 0 <= i <= |players|
        invariant Valid()
        invariant Dealt(Value().players, Value().deck, i, 0, 0) == goal
      {
        r := DealPlayer(i);
        if r.Err? {
          assert goal == DealOutcome(r, Value().players, Value().deck);
          return r;
        }
        i := i + 1;
      }
      assert goal == DealOutcome(Ok(()), Value().players, Value().deck);
      return Ok(());
    }

    /** The rows of player `i`'s spread. */
    method DealPlayer(i: nat) returns (r: Result<(), GameStartupError>)
      requires Valid() && i < |players|
      modifies deck, players[i].spread
      ensures Valid()
      ensures Value().current == old(currentPlayerIdx) && Value().discard == old(discardPile.cards)
      ensures r.Err? ==> Dealt(old(Value()).players, old(deck.cards), i, 0, 0) == DealOutcome(r, Value().players, Value().deck)
      ensures r.Ok? ==> Dealt(old(Value()).players, old(deck.cards), i, 0, 0) == Dealt(Value().players, Value().deck, i + 1, 0, 0)
    {
      ghost var goal := Dealt(Value().players, deck.cards, i, 0, 0);
      var row := 0;
      while row < 3
        invariant 0 <= row <= 3
        invariant Valid()
        invariant Value().current == old(currentPlayerIdx) && Value().discard == old(discardPile.cards)
        invariant Dealt(Value().players, Value().deck, i, row, 0) == goal
      {
        r := DealRow(i, row);
        if r.Err? {
          return r;
        }
        row := row + 1;
      }
      return Ok(());
    }

    /** The four cells of row `row` of player `i`'s spread. */
    method DealRow(i: nat, row: nat) returns (r: Result<(), GameStartupError>)
      requires Valid() && i < |players| && row < ROWS
      modifies deck, players[i].spread
      ensures Valid()
      ensures Value().current == old(currentPlayerIdx) && Value().discard == old(discardPile.cards)
      ensures r.Err? ==> Dealt(old(Value()).players, old(deck.cards), i, row, 0) == DealOutcome(r, Value().players, Value().deck)
      ensures r.Ok? ==> Dealt(old(Value()).players, old(deck.cards), i, row, 0) == Dealt(Value().players, Value().deck, i, row + 1, 0)
    {
      ghost var goal := Dealt(Value().players, deck.cards, i, row, 0);
      var column := 0;
      while column < 4
        invariant 0 <= column <= 4
        invariant Valid()
        invariant Value().current == old(currentPlayerIdx) && Value().discard == old(discardPile.cards)
        invariant Dealt(Value().players, Value().deck, i, row, column) == goal
      {
        r := DealOne(i, row, column);
        if r.Err? {
          return r;
        }
        column := column + 1;
      }
      return Ok(());
    }

    /**
     * One step of the deal: the top card of the deck goes to player `i`'s
     * cell at `row`, `column`. An error ends the deal where it stands;
     * otherwise the deal goes on from the next column.
     */
    method DealOne(i: nat, row: nat, column: nat) returns (r: Result<(), GameStartupError>)
      requires Valid() && i < |players| && row < ROWS && column < COLUMNS
      modifies deck, players[i].spread
      ensures Valid()
      ensures Value().current == old(currentPlayerIdx) && Value().discard == old(discardPile.cards)
      ensures r.Err? ==> Dealt(old(Value()).players, old(deck.cards), i, row, column) == DealOutcome(r, Value().players, Value().deck)
      ensures r.Ok? ==> Dealt(old(Value()).players, old(deck.cards), i, row, column) == Dealt(Value().players, Value().deck, i, row, column + 1)
    {
      var card := DrawCard();
      if card.None? {
        return Err(GameStartupError.DeckEmpty);
      }
      ghost var before := Value();
      var placed := PlaceAt(i, card.value, row, column);
      if placed.Err? {
        assert before.players[i := before.players[i]] == before.players;
        return Err(GameStartupError.PlayerSpreadError(placed.error));
      }
      return Ok(());
    }
  }

  class StratoGame {
    var state: GameState
    const context: GameContext
    /** Whether the single subscriber slot is taken. */
    var subscribed: bool
    /** The states announced to the subscriber, oldest first. */
    ghost var notified: seq<GameState>

    ghost function Repr(): set<object>
      reads this, context
    {
      {this} + context.Repr()
    }

    ghost predicate Valid()
      reads Repr()
    {
      this !in context.Repr() && context.Valid() && Inv(state, context.Value())
    }

    /** `StratoGame::new`: waiting for players, with the default context and no subscriber. */
    constructor ()
      ensures Valid() && fresh(Repr())
      ensures state == WaitingForPlayers && context.Value() == InitialContext()
      ensures !subscribed && notified == []
    {
      state := WaitingForPlayers;
      context := new GameContext();
      subscribed := false;
      notified := [];
      InitialInv();
    }

    /** `update_state`: sets the state and announces it. */
    method UpdateState(s: GameState)
      modifies this`state, this`notified
      ensures state == s && subscribed == old(subscribed)
      ensures context.Valid() == old(context.Valid()) && context.Value() == old(context.Value())
      ensures notified == old(notified) + (if subscribed then [s] else [])
    {
      state := s;
      Notify(StateChange(s));
    }

    /** `subscribe`: the new subscriber takes the single slot. */
    method Subscribe()
      modifies this
      ensures subscribed && state == old(state) && notified == old(notified)
    {
      subscribed := true;
    }

    /** `unsubscribe`: empties the slot. */
    method Unsubscribe()
      modifies this
      ensures !subscribed && state == old(state) && notified == old(notified)
    {
      subscribed := false;
    }

    /** `notify`: passes the event to the subscriber, if there is one. */
    method Notify(event: GameEvent)
      modifies this`notified
      ensures state == old(state) && subscribed == old(subscribed)
      ensures notified == old(notified) + (if subscribed then [event.state] else [])
    {
      if subscribed {
        notified := notified + [event.state];
      }
    }

    /** `add_player`, with the generated id supplied by the caller. */
    method AddPlayer(id: string) returns (r: Result<string, GameStartupError>)
      requires Valid()
      modifies context
      ensures Valid() && fresh(context.Repr() - old(context.Repr()))
      ensures (r, context.Value()) == Turns.AddPlayer(state, old(context.Value()), id)
    {
      AddPlayerInv(state, context.Value(), id);
      if state == WaitingForPlayers {
        context.PushPlayer(id);
        return Ok(id);
      }
      return Err(PlayersListLocked);
    }

    /** `get_player`: the first player with this id. */
    method GetPlayer(id: string) returns (p: Option<Player>)
      requires Valid()
      ensures p.None? <==> Position(context.Value().players, id).None?
      ensures p.Some? ==> p.value == context.players[Position(context.Value().players, id).value]
    {
      var idx := context.PositionOf(id);
      if idx.None? {
        return None;
      }
      return Some(context.players[idx.value]);
    }

    /**
     * `handle_start`. The returned `shuffled` is the deck as the shuffle
     * left it; it is a permutation of the deck before.
     */
    method HandleStart(options: GameOptions) returns (r: Result<(), GameStartupError>, ghost shuffled: seq<Card>)
      requires Valid()
      modifies Repr()
      ensures Valid() && context.players == old(context.players)
      ensures |shuffled| == |old(context.deck.cards)| && multiset(shuffled) == multiset(old(context.deck.cards))
      ensures old(state) == WaitingForPlayers && |old(context.players)| >= 2 ==> shuffled != []
      ensures var out := Turns.HandleStart(old(state), old(context.Value()), options, shuffled);
        && r == out.result && state == out.state && context.Value() == out.context
        && subscribed == old(subscribed)
        && notified == old(notified) + (if subscribed then out.emitted else [])
    {
      shuffled := context.deck.cards;
      if state == Active {
        return Err(GameAlreadyStarted), shuffled;
      } else if |context.players| < 2 {
        return Err(NotEnoughPlayers), shuffled;
      } else if state == WaitingForPlayers {
        ghost var c := context.Value();
        FullDeckSize();
        r, shuffled := StartFromWaiting(options);
        HandleStartInv(WaitingForPlayers, c, options, shuffled);
        return r, shuffled;
      }
      return Ok(()), shuffled;
    }

    /**
     * The waiting branch of `handle_start`: announce `Startup`, shuffle the
     * deck, then prime, deal and settle the first turn as
     * `Turns.PrimeAndDeal` says.
     */
    method StartFromWaiting(options: GameOptions) returns (r: Result<(), GameStartupError>, ghost shuffled: seq<Card>)
      requires this !in context.Repr() && context.Valid()
      requires WellFormed(context.Value().players) && |context.deck.cards| >= 10
      modifies Repr()
      ensures this !in context.Repr() && context.Valid() && context.players == old(context.players)
      ensures |shuffled| == |old(context.deck.cards)| && multiset(shuffled) == multiset(old(context.deck.cards))
      ensures shuffled != []
      ensures var out := Turns.PrimeAndDeal(old(context.Value()), options, shuffled);
        && r == out.result && state == out.state && context.Value() == out.context
        && subscribed == old(subscribed)
        && notified == old(notified) + (if subscribed then out.emitted else [])
    {
      ghost var c := context.Value();
      UpdateState(Startup);
      assert context.Valid() && context.Value() == c;
      shuffled := ShuffleDeck();
      r := DealAndEnter(c, options, shuffled);
    }

    /** `StartFromWaiting` once `Startup` is announced and the deck, now `shuffled`, is shuffled. */
    method DealAndEnter(ghost c: ContextValue, options: GameOptions, ghost shuffled: seq<Card>) returns (r: Result<(), GameStartupError>)
      requires this !in context.Repr() && context.Valid() && state == Startup
      requires WellFormed(c.players) && shuffled != [] && context.Value() == c.(deck := shuffled)
      modifies Repr()
      ensures this !in context.Repr() && context.Valid() && context.players == old(context.players)
      ensures var out := Turns.PrimeAndDeal(c, options, shuffled);
        && r == out.result && state == out.state && context.Value() == out.context
        && subscribed == old(subscribed)
        && notified == old(notified) + (if subscribed && r.Ok? then [state] else [])
    {
      ghost var out := Turns.PrimeAndDeal(c, options, shuffled);
      r := PrimeAndDeal(c);
      if r.Err? {
        assert context.Value() == out.context;
        return r;
      }
      EnterFirstTurn(options);
      assert context.Value() == out.context;
      return Ok(());
    }

    /**
     * The middle of `handle_start` once the deck is shuffled: the top card
     * primes the discard pile and the cards are dealt.
     */
    method PrimeAndDeal(ghost c: ContextValue) returns (r: Result<(), GameStartupError>)
      requires this !in context.Repr() && context.Valid() && state == Startup
      requires context.deck.cards != [] && WellFormed(c.players) && context.Value() == c.(deck := context.deck.cards)
      modifies context.Repr()
      ensures context.Valid() && context.players == old(context.players)
      ensures var dealt := Dealt(c.players, DropLast(old(context.deck.cards)), 0, 0, 0);
        && r == dealt.result
        && context.Value() == c.(players := dealt.players, deck := dealt.deck, discard := c.discard + [Last(old(context.deck.cards))])
    {
      var topCard := context.DrawCard();
      context.PutDiscard(topCard.value);
      r := DealCardsToPlayers();
    }

    /**
     * The end of `handle_start`: with a first player given the game becomes
     * `Active` with that player current, otherwise it enters
     * `DetermineFirstPlayer`.
     */
    method EnterFirstTurn(options: GameOptions)
      requires this !in context.Repr() && context.Valid()
      modifies this, context
      ensures context.Valid() && context.players == old(context.players) && subscribed == old(subscribed)
      ensures options.firstPlayerIdx.Some? ==>
        state == Active && context.Value() == old(context.Value()).(current := options.firstPlayerIdx)
      ensures options.firstPlayerIdx.None? ==>
        state == DetermineFirstPlayer && context.Value() == old(context.Value())
      ensures notified == old(notified) + (if subscribed then [state] else [])
    {
      match options.firstPlayerIdx {
        case Some(first) =>
          context.SetCurrent(Some(first));
          UpdateState(Active);
        case None =>
          UpdateState(DetermineFirstPlayer);
      }
    }

    /** `context.deck.shuffle()`; gives the shuffled deck. */
    method ShuffleDeck() returns (ghost shuffled: seq<Card>)
      requires context.Valid() && |context.deck.cards| >= 10
      modifies context.deck
      ensures context.Valid()
      ensures |shuffled| == |old(context.deck.cards)| && multiset(shuffled) == multiset(old(context.deck.cards))
      ensures context.Value() == old(context.Value()).(deck := shuffled)
    {
      context.deck.Shuffle();
      shuffled := context.deck.cards;
    }

    /** `deal_cards_to_players`: deals only in `Startup`, as `GameContext.DealCards` does. */
    method DealCardsToPlayers() returns (r: Result<(), GameStartupError>)
      requires context.Valid()
      modifies context.Repr()
      ensures context.Valid() && context.players == old(context.players)
      ensures state == Startup ==>
        var out := Dealt(old(context.Value()).players, old(context.deck.cards), 0, 0, 0);
        r == out.result && context.Value() == old(context.Value()).(players := out.players, deck := out.deck)
      ensures state != Startup ==> r == Ok(()) && context.Value() == old(context.Value())
    {
      if state == Startup {
        r := context.DealCards();
      } else {
        r := Ok(());
      }
    }

    /** `player_flip_to_determine_who_is_first`. */
    method PlayerFlipToDetermineWhoIsFirst(id: string, row: nat, column: nat) returns (r: Result<(), PlayerTurnError>)
      requires Valid()
      modifies Repr()
      ensures Valid() && context.players == old(context.players)
      ensures var out := Turns.PlayerFlipToDetermineWhoIsFirst(old(state), old(context.Value()), id, row, column);
        && r == out.result && state == out.state && context.Value() == out.context
        && subscribed == old(subscribed)
        && notified == old(notified) + (if state != old(state) && subscribed then [state] else [])
    {
      ghost var out := Turns.PlayerFlipToDetermineWhoIsFirst(state, context.Value(), id, row, column);
      PlayerFlipInv(state, context.Value(), id, row, column);
      var entered: Option<GameState>;
      r, entered := context.FlipToDetermineFirst(state, id, row, column);
      ghost var v := context.Value();
      assert v == out.context && Inv(out.state, v) && context.Valid();
      assert notified == old(notified) && subscribed == old(subscribed);
      if entered.Some? {
        assert entered.value != state;
        UpdateState(entered.value);
        assert context.Value() == v;
        assert context.Valid();
        assert state == out.state;
        assert Inv(state, context.Value());
      } else {
        assert state == out.state;
        assert Inv(state, context.Value());
      }
    }

    /** `start_player_turn`. */
    method StartPlayerTurn(id: string, action: StartAction) returns (r: Result<(), PlayerTurnError>)
      requires Valid()
      modifies context.Repr()
      ensures Valid() && context.players == old(context.players)
      ensures (r, context.Value()) == Turns.StartPlayerTurn(state, old(context.Value()), id, action)
    {
      StartPlayerTurnInv(state, context.Value(), id, action);
      r := context.StartTurn(state, id, action);
    }

    /** `end_player_turn`. */
    method EndPlayerTurn(id: string, action: EndAction) returns (r: Result<(), PlayerTurnError>)
      requires Valid()
      modifies context.Repr()
      ensures Valid() && context.players == old(context.players)
      ensures (r, context.Value()) == Turns.EndPlayerTurn(state, old(context.Value()), id, action)
    {
      EndPlayerTurnInv(state, context.Value(), id, action);
      r := context.EndTurn(state, id, action);
    }

  }
}
