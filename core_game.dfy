/**
 * core/src/game.rs, the game object: its methods are proved to change the
 * players, the deck and the discard pile exactly as the rules of module
 * CoreRules say.
 */
module CoreGame {
  import opened Wrappers
  import opened Cards
  import opened Spread
  import opened Players
  import CorePlayers
  import States
  import Dealing
  import Turns
  import opened CoreRules

  // `PlayerValues`, `DistinctPlayers`, the one-step methods and the deal loops
  // mirror those of `Game`: they differ only in the player class, core's
  // `CorePlayers.Player`, which carries a name.

  /** The players' snapshots, in order. */
  ghost function PlayerValues(ps: seq<CorePlayers.Player>): (vs: seq<PlayerValue>)
    reads set i | 0 <= i < |ps| :: ps[i]
    reads set i | 0 <= i < |ps| :: ps[i].spread
    ensures |vs| == |ps|
    ensures forall i :: 0 <= i < |ps| ==> vs[i] == ps[i].Value()
  {
    seq(|ps|, i requires 0 <= i < |ps| reads set j | 0 <= j < |ps| :: ps[j], set j | 0 <= j < |ps| :: ps[j].spread =>
      ps[i].Value())
  }

  /** Players and spreads are separate objects, and every spread is a grid. */
  ghost predicate DistinctPlayers(ps: seq<CorePlayers.Player>)
    reads set i | 0 <= i < |ps| :: ps[i]
    reads set i | 0 <= i < |ps| :: ps[i].spread
  {
    && (forall i, j :: 0 <= i < j < |ps| ==> ps[i] != ps[j] && ps[i].spread != ps[j].spread)
    && (forall i :: 0 <= i < |ps| ==> ps[i].Valid())
  }

  class StratoGame {
    var state: GameState
    var players: seq<CorePlayers.Player>
    var deck: Deck
    const discardPile: DiscardPile

    ghost function Repr(): set<object>
      reads this
    {
      {this, deck, discardPile}
        + (set i | 0 <= i < |players| :: players[i] as object)
        + (set i | 0 <= i < |players| :: players[i].spread as object)
    }

    ghost predicate Valid()
      reads Repr()
      ensures Valid() ==> States.WellFormed(Value().players)
    {
      DistinctPlayers(players)
    }

    ghost function Value(): ContextValue
      reads Repr()
    {
      ContextValue(PlayerValues(players), deck.cards, discardPile.cards)
    }

    /**
     * `StratoGame::new`: waiting for players, no players, and the derived
     * default deck, which is empty (not the 150 cards of `Deck::new`).
     */
    constructor ()
      ensures Valid() && fresh(Repr())
      ensures state == WaitingForPlayers && Value() == ContextValue([], [], [])
    {
      state := WaitingForPlayers;
      players := [];
      deck := new Deck.Empty();
      discardPile := new DiscardPile();
    }

    /** `add_player`, with the generated id supplied by the caller. */
    method AddPlayer(id: string, name: string) returns (r: Result<string, GameStartupError>)
      requires Valid()
      modifies this`players
      ensures Valid() && state == old(state)
      ensures r.Err? ==> players == old(players)
      ensures r.Ok? ==> |players| == |old(players)| + 1 && players[..|old(players)|] == old(players) &&
                          var p := players[|old(players)|]; p.name == name && fresh(p) && fresh(p.spread)
      ensures (r, Value()) == CoreRules.AddPlayer(state, old(Value()), id)
    {
      if state != WaitingForPlayers {
        return Err(PlayersListLocked);
      }
      ghost var before := Value();
      ghost var ps := players;
      var player := new CorePlayers.Player(id, name);
      assert PlayerValues(ps) == before.players;
      players := players + [player];
      assert players[..|ps|] == ps;
      assert PlayerValues(players) == before.players + [Turns.NewPlayer(id)];
      return Ok(id);
    }

    /** `list_players`: the players in the order they joined. */
    method ListPlayers() returns (ps: seq<CorePlayers.Player>)
      requires Valid()
      ensures |ps| == |Value().players|
      ensures forall i :: 0 <= i < |ps| ==> ps[i].Value() == Value().players[i]
    {
      ps := players;
    }

    /** `players.iter().position(|p| p.id == id)`. */
    method PositionOf(id: string) returns (r: Option<nat>)
      requires Valid()
      ensures r == States.Position(Value().players, id)
    {
      var i := 0;
      while i < |players|
        invariant 0 <= i <= |players|
        invariant forall j :: 0 <= j < i ==> players[j].id != id
      {
        if players[i].id == id {
          return Some(i);
        }
        i := i + 1;
      }
      return None;
    }

    /** `get_player`: the first player, in list order, with this id. */
    method GetPlayer(id: string) returns (p: Option<CorePlayers.Player>)
      requires Valid()
      ensures p.None? <==> forall j :: 0 <= j < |Value().players| ==> Value().players[j].id != id
      ensures p.Some? ==> exists k :: 0 <= k < |players| && p.value == players[k] && p.value.id == id &&
                            (forall j :: 0 <= j < k ==> players[j].id != id)
    {
      var idx := PositionOf(id);
      if idx.None? {
        return None;
      }
      return Some(players[idx.value]);
    }

    // The single steps the operations are made of, each stated as its effect
    // on the snapshot.

    /** `self.state = s`. */
    method SetState(s: GameState)
      requires Valid()
      modifies this`state
      ensures Valid() && state == s && Value() == old(Value())
    {
      state := s;
    }

    /** `deck.shuffle()` on a new `Deck::new`, which then becomes the deck. */
    method ReplaceDeck() returns (ghost shuffled: seq<Card>)
      requires Valid()
      modifies this`deck
      ensures Valid() && players == old(players) && fresh(deck)
      ensures |shuffled| == |FullDeck()| && multiset(shuffled) == multiset(FullDeck())
      ensures Value() == old(Value()).(deck := shuffled)
    {
      var full := new Deck.Full();
      FullDeckSize();
      full.Shuffle();
      shuffled := full.cards;
      deck := full;
    }

    /** `deck.draw()`. */
    method DrawCard() returns (card: Option<Card>)
      requires Valid()
      modifies deck
      ensures Valid()
      ensures old(deck.cards) == [] ==> card.None? && Value() == old(Value())
      ensures old(deck.cards) != [] ==>
        card == Some(Last(old(deck.cards))) && Value() == old(Value()).(deck := DropLast(old(deck.cards)))
    {
      card := deck.Draw();
    }

    /** `discard_pile.take()`. */
    method TakeDiscard() returns (card: Option<Card>)
      requires Valid()
      modifies discardPile
      ensures Valid()
      ensures old(discardPile.cards) == [] ==> card.None? && Value() == old(Value())
      ensures old(discardPile.cards) != [] ==>
        card == Some(Last(old(discardPile.cards)))
        && Value() == old(Value()).(discard := DropLast(old(discardPile.cards)))
    {
      card := discardPile.Take();
    }

    /** `discard_pile.put(card)`. */
    method PutDiscard(card: Card)
      requires Valid()
      modifies discardPile
      ensures Valid()
      ensures Value() == old(Value()).(discard := old(discardPile.cards) + [card])
    {
      discardPile.Put(card);
    }

    /** `players[i].hold(card)`. */
    method Hold(i: nat, card: Card) returns (r: Result<(), CorePlayers.HoldError>)
      requires Valid() && i < |players|
      modifies players[i]
      ensures Valid()
      ensures var before := old(Value()).players;
        && (before[i].holding.Some? ==>
              r == Err(CorePlayers.AlreadyHolding(before[i].holding.value)) && Value() == old(Value()))
        && (before[i].holding.None? ==>
              r == Ok(()) && Value() == old(Value()).(players := before[i := before[i].(holding := Some(card.Flip()))]))
    {
      r := players[i].Hold(card);
    }

    /** `players[i].release()`. */
    method Release(i: nat) returns (card: Option<Card>)
      requires Valid() && i < |players|
      modifies players[i]
      ensures Valid()
      ensures var before := old(Value()).players;
        card == before[i].holding && Value() == old(Value()).(players := before[i := before[i].(holding := None)])
    {
      card := players[i].Release();
    }

    /** `players[i].spread.take_from(row, column)`. */
    method TakeFrom(i: nat, row: nat, column: nat) returns (r: Result<Card, SpreadActionError>)
      requires Valid() && i < |players|
      modifies players[i].spread
      ensures Valid()
      ensures var before := old(Value()).players;
        var out := TakeFromGrid(before[i].grid, row, column);
        r == out.0 && Value() == old(Value()).(players := before[i := before[i].(grid := out.1)])
    {
      r := players[i].spread.TakeFrom(row, column);
    }

    /** `players[i].spread.place_at(card, row, column)`. */
    method PlaceAt(i: nat, card: Card, row: nat, column: nat) returns (r: Result<(), SpreadActionError>)
      requires Valid() && i < |players|
      modifies players[i].spread
      ensures Valid()
      ensures var before := old(Value()).players;
        var out := PlaceAtGrid(before[i].grid, card, row, column);
        r == out.0 && Value() == old(Value()).(players := before[i := before[i].(grid := out.1)])
    {
      r := players[i].spread.PlaceAt(card, row, column);
    }

    /** `players[i].spread.flip_at(row, column)`. */
    method FlipAt(i: nat, row: nat, column: nat) returns (r: Result<(), SpreadActionError>)
      requires Valid() && i < |players|
      modifies players[i].spread
      ensures Valid()
      ensures var before := old(Value()).players;
        var out := FlipAtGrid(before[i].grid, row, column);
        r == out.0 && Value() == old(Value()).(players := before[i := before[i].(grid := out.1)])
    {
      r := players[i].spread.FlipAt(row, column);
    }

    /**
     * `start`. `shuffled` is the new full deck as the shuffle left it: a
     * permutation of the 150 cards of `Deck::new`.
     */
    method Start() returns (r: Result<(), GameStartupError>, ghost shuffled: seq<Card>)
      requires Valid()
      modifies this`state, this`deck, set j | 0 <= j < |players| :: players[j].spread
      ensures Valid() && players == old(players)
      ensures old(state) == WaitingForPlayers && |players| > 0 ==>
        |shuffled| == |FullDeck()| && multiset(shuffled) == multiset(FullDeck())
      ensures var out := CoreRules.Start(old(state), old(Value()), shuffled);
        r == out.result && Value() == out.context && state == out.state
    {
      shuffled := [];
      if state == Active {
        return Err(GameAlreadyStarted), shuffled;
      }
      if state == WaitingForPlayers && |players| > 0 {
        SetState(Startup);
        shuffled := ReplaceDeck();
        r := DealCardsToPlayers();
        if r.Err? {
          return r, shuffled;
        }
        SetState(Active);
        return Ok(()), shuffled;
      }
      return Ok(()), shuffled;
    }

    /** `deal_cards_to_players`: the three loops, run only in `Startup`. */
    method DealCardsToPlayers() returns (r: Result<(), GameStartupError>)
      requires Valid()
      modifies deck, set j | 0 <= j < |players| :: players[j].spread
      ensures Valid()
      ensures (r, Value()) == Deal(state, old(Value()))
    {
      if state != Startup {
        return Ok(());
      }
      ghost var start := Value();
      ghost var goal := Dealing.Dealt(start.players, deck.cards, 0, 0, 0);
      var i := 0;
      while i < |players|
        invariant 0 <= i <= |players|
        invariant Valid()
        invariant Value().discard == start.discard
        invariant Dealing.Dealt(Value().players, Value().deck, i, 0, 0) == goal
      {
        var dealt := DealPlayer(i);
        if dealt.Err? {
          assert goal == Dealing.DealOutcome(dealt, Value().players, Value().deck);
          return Err(DealError(dealt.error));
        }
        i := i + 1;
      }
      assert goal == Dealing.DealOutcome(Ok(()), Value().players, Value().deck);
      return Ok(());
    }

    /** The rows of player `i`'s spread. */
    method DealPlayer(i: nat) returns (r: Result<(), States.GameStartupError>)
      requires Valid() && i < |players|
      modifies deck, players[i].spread
      ensures Valid() && Value().discard == old(discardPile.cards)
      ensures r.Err? ==> Dealing.Dealt(old(Value()).players, old(deck.cards), i, 0, 0) == Dealing.DealOutcome(r, Value().players, Value().deck)
      ensures r.Ok? ==> Dealing.Dealt(old(Value()).players, old(deck.cards), i, 0, 0) == Dealing.Dealt(Value().players, Value().deck, i + 1, 0, 0)
    {
      ghost var goal := Dealing.Dealt(Value().players, deck.cards, i, 0, 0);
      var row := 0;
      while row < 3
        invariant 0 <= row <= 3
        invariant Valid() && Value().discard == old(discardPile.cards)
        invariant Dealing.Dealt(Value().players, Value().deck, i, row, 0) == goal
      {
        r := DealRow(i, row);
        if r.Err? {
          return r;
        }
        row := row + 1;
      }
      return Ok(());
    }

    /** The four cells of row `row` of player `i`'s spread. */
    method DealRow(i: nat, row: nat) returns (r: Result<(), States.GameStartupError>)
      requires Valid() && i < |players| && row < ROWS
      modifies deck, players[i].spread
      ensures Valid() && Value().discard == old(discardPile.cards)
      ensures r.Err? ==> Dealing.Dealt(old(Value()).players, old(deck.cards), i, row, 0) == Dealing.DealOutcome(r, Value().players, Value().deck)
      ensures r.Ok? ==> Dealing.Dealt(old(Value()).players, old(deck.cards), i, row, 0) == Dealing.Dealt(Value().players, Value().deck, i, row + 1, 0)
    {
      ghost var goal := Dealing.Dealt(Value().players, deck.cards, i, row, 0);
      var column := 0;
      while column < 4
        invariant 0 <= column <= 4
        invariant Valid() && Value().discard == old(discardPile.cards)
        invariant Dealing.Dealt(Value().players, Value().deck, i, row, column) == goal
      {
        r := DealOne(i, row, column);
        if r.Err? {
          return r;
        }
        column := column + 1;
      }
      return Ok(());
    }

    /**
     * One step of the deal: the top card of the deck goes to player `i`'s
     * cell at `row`, `column`; an error ends the deal where it stands.
     */
    method DealOne(i: nat, row: nat, column: nat) returns (r: Result<(), States.GameStartupError>)
      requires Valid() && i < |players| && row < ROWS && column < COLUMNS
      modifies deck, players[i].spread
      ensures Valid() && Value().discard == old(discardPile.cards)
      ensures r.Err? ==> Dealing.Dealt(old(Value()).players, old(deck.cards), i, row, column) == Dealing.DealOutcome(r, Value().players, Value().deck)
      ensures r.Ok? ==> Dealing.Dealt(old(Value()).players, old(deck.cards), i, row, column) == Dealing.Dealt(Value().players, Value().deck, i, row, column + 1)
    {
      var card := DrawCard();
      if card.None? {
        return Err(States.GameStartupError.DeckEmpty);
      }
      ghost var before := Value();
      var placed := PlaceAt(i, card.value, row, column);
      if placed.Err? {
        assert before.players[i := before.players[i]] == before.players;
        return Err(States.GameStartupError.PlayerSpreadError(placed.error));
      }
      return Ok(());
    }

    /** `start_player_turn`. */
    method StartPlayerTurn(id: string, action: StartAction) returns (r: Result<(), PlayerTurnError>)
      requires Valid()
      modifies deck, discardPile, set j | 0 <= j < |players| :: players[j]
      ensures Valid()
      ensures (r, Value()) == CoreRules.StartPlayerTurn(old(Value()), id, action)
    {
      ghost var c := Value();
      var idx := PositionOf(id);
      if idx.None? {
        return Err(PlayerDoesntExist);
      }
      var i := idx.value;
      var card: Option<Card>;
      if action == DrawFromDeck {
        card := DrawCard();
        if card.None? {
          return Err(PlayerTurnError.DeckEmpty);
        }
      } else {
        card := TakeDiscard();
        if card.None? {
          return Err(DiscardPileEmpty);
        }
      }
      var held := Hold(i, card.value);
      if held.Err? {
        return Err(PlayerActionError(held.error));
      }
      return Ok(());
    }

    /** `end_player_turn`. */
    method EndPlayerTurn(id: string, action: EndAction) returns (r: Result<(), PlayerTurnError>)
      requires Valid()
      modifies discardPile, set j | 0 <= j < |players| :: players[j], set j | 0 <= j < |players| :: players[j].spread
      ensures Valid()
      ensures (r, Value()) == CoreRules.EndPlayerTurn(old(Value()), id, action)
    {
      var idx := PositionOf(id);
      if idx.None? {
        return Err(PlayerDoesntExist);
      }
      r := EndTurnOf(idx.value, action);
    }

    /** `end_player_turn` once player `i` is found: release, then play the card. */
    method EndTurnOf(i: nat, action: EndAction) returns (r: Result<(), PlayerTurnError>)
      requires Valid() && i < |players|
      modifies discardPile, players[i], players[i].spread
      ensures Valid()
      ensures (r, Value()) == CoreRules.EndTurnOf(old(Value()), i, action)
    {
      ghost var c := Value();
      ghost var p := c.players[i];
      var cardFromHand := Release(i);
      if cardFromHand.None? {
        assert c.players[i := p.(holding := None)] == c.players;
        return Err(TurnNotStarted);
      }
      ghost var released := c.players[i := p.(holding := None)];
      ghost var e := Turns.EndActionOnSpread(p.grid, cardFromHand.value, action);
      r := PlayReleasedCard(i, cardFromHand.value, action);
      if e.Ok? {
        assert released[i := released[i].(grid := e.value.0)] == c.players[i := p.(holding := None, grid := e.value.0)];
      }
    }

    /**
     * The spread half of `end_player_turn` for player `i`, whose hand has just
     * been emptied of `card`: a swap takes the chosen card and puts `card` in
     * its place, a flip turns the chosen card face-up; the card given up goes
     * on the discard pile. A spread error changes nothing more.
     */
    method PlayReleasedCard(i: nat, card: Card, action: EndAction) returns (r: Result<(), PlayerTurnError>)
      requires Valid() && i < |players|
      modifies discardPile, players[i].spread
      ensures Valid()
      ensures var before := old(Value());
        var e := Turns.EndActionOnSpread(before.players[i].grid, card, action);
        && (e.Err? ==> r == Err(PlayerTurnError.PlayerSpreadError(e.error)) && Value() == before)
        && (e.Ok? ==> r == Ok(()) && Value() == before.(players := before.players[i := before.players[i].(grid := e.value.0)],
                                                          discard := before.discard + [e.value.1]))
    {
      ghost var before := Value();
      match action {
        case Swap(row, column) =>
          var selected := TakeFrom(i, row, column);
          if selected.Err? {
            assert before.players[i := before.players[i]] == before.players;
            return Err(PlayerTurnError.PlayerSpreadError(selected.error));
          }
          var placed := PlaceAt(i, card, row, column);
          match placed {
            case Err(e) =>
              assert false;
              return Err(PlayerTurnError.PlayerSpreadError(e));
            case Ok(_) =>
          }
          PutDiscard(selected.value);
        case FlipCard(row, column) =>
          var flipped := FlipAt(i, row, column);
          if flipped.Err? {
            assert before.players[i := before.players[i]] == before.players;
            return Err(PlayerTurnError.PlayerSpreadError(flipped.error));
          }
          PutDiscard(card);
      }
      return Ok(());
    }
  }

  /**
   * A new game with one player who then starts it: the start succeeds, the
   * game is `Active`, the player holds 12 face-down cards and 138 cards stay
   * in the deck.
   */
  method OnePlayerStarts(id: string, name: string) returns (game: StratoGame, r: Result<(), GameStartupError>)
    ensures game.Valid() && r == Ok(()) && game.state == Active
    ensures |game.Value().deck| == 138 && |game.Value().players| == 1
    ensures CardCount(game.Value().players[0].grid) == CELLS && FlippedCards(game.Value().players[0].grid) == 0
  {
    game := new StratoGame();
    var joined := game.AddPlayer(id, name);
    ghost var c := game.Value();
    assert c.players == [Turns.NewPlayer(id)];
    ghost var shuffled;
    r, shuffled := game.Start();
    StartDeals(c, shuffled);
  }
}
