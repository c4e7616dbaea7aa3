/**
 * The rules of the strato turn engine (strato/src/game.rs) as functions from
 * the game state and a snapshot of the context to the result, the new
 * snapshot and, where the state changes, the new state: adding players,
 * starting (priming the discard pile and dealing), the "flip two cards" phase
 * that picks the first player, and the start and end of a turn. The game
 * object in module Game is proved to follow these functions; the invariants
 * of a running game are proved here about them.
 */
module Turns {
  import opened Wrappers
  import opened Cards
  import opened Spread
  import opened Players
  import opened States
  import opened Dealing

  // ---------------------------------------------------------------------------
  // Turn order
  // ---------------------------------------------------------------------------

  /** `check_if_player_turn`: refuses exactly when a current player is set and it is someone else. */
  function CheckIfPlayerTurn(current: Option<nat>, idx: nat): (r: Result<(), PlayerTurnError>)
    ensures r.Err? <==> current.Some? && current.value != idx
    ensures r.Err? ==> r.error == NotYourTurn
  {
    match current
    case Some(c) => if idx != c then Err(NotYourTurn) else Ok(())
    case None => Ok(())
  }

  /**
   * `advance_player_turn`: the turn passes to the next player in list order,
   * wrapping from the last player to the first (`(i + 1) % n`); no current
   * player stays no current player.
   */
  function AdvancePlayerTurn(current: Option<nat>, n: nat): (r: Option<nat>)
    requires current.Some? ==> n > 0
    ensures r.Some? <==> current.Some?
    ensures r.Some? ==> r.value < n
    ensures r.Some? && current.value + 1 < n ==> r.value == current.value + 1
    ensures r.Some? && current.value + 1 == n ==> r.value == 0
  {
    match current
    case Some(c) => Some((c + 1) % n)
    case None => None
  }

  /** The current player after `k` turns have ended. */
  function AdvanceTimes(current: Option<nat>, n: nat, k: nat): Option<nat>
    requires n > 0
    decreases k
  {
    if k == 0 then current else AdvanceTimes(AdvancePlayerTurn(current, n), n, k - 1)
  }

  lemma {:induction false} AdvanceTimesFrom(i: nat, n: nat, k: nat)
    requires i < n && i + k < n
    ensures AdvanceTimes(Some(i), n, k) == Some(i + k)
    decreases k
  {
    if k > 0 {
      AdvanceTimesFrom(i + 1, n, k - 1);
    }
  }

  lemma {:induction false} AdvanceTimesCompose(current: Option<nat>, n: nat, a: nat, b: nat)
    requires n > 0
    ensures AdvanceTimes(current, n, a + b) == AdvanceTimes(AdvanceTimes(current, n, a), n, b)
    decreases a
  {
    if a > 0 {
      AdvanceTimesCompose(AdvancePlayerTurn(current, n), n, a - 1, b);
    }
  }

  /**
   * Turns go round: from player `i`, the next `n - 1 - i` turns go to the
   * following players in order, the turn after that to the first player, and
   * after `n` turns it is player `i`'s turn again.
   */
  lemma AdvanceFullRound(i: nat, n: nat)
    requires i < n
    ensures forall k :: 0 <= k < n - i ==> AdvanceTimes(Some(i), n, k) == Some(i + k)
    ensures AdvanceTimes(Some(i), n, n - i) == Some(0)
    ensures AdvanceTimes(Some(i), n, n) == Some(i)
  {
    forall k | 0 <= k < n - i
      ensures AdvanceTimes(Some(i), n, k) == Some(i + k)
    {
      AdvanceTimesFrom(i, n, k);
    }
    AdvanceTimesFrom(i, n, n - 1 - i);
    AdvanceTimesCompose(Some(i), n, n - 1 - i, 1);
    AdvanceTimesCompose(Some(i), n, n - i, i);
    AdvanceTimesFrom(0, n, i);
  }

  // ---------------------------------------------------------------------------
  // Adding players
  // ---------------------------------------------------------------------------

  /** A new player: the id, an empty hand, an empty spread. */
  function NewPlayer(id: string): PlayerValue
  {
    PlayerValue(id, None, EmptyGrid())
  }

  /**
   * `add_player`: only while waiting for players, one new player joins at the
   * end and its id is returned; otherwise `PlayersListLocked` and nothing changes.
   */
  function AddPlayer(state: GameState, c: ContextValue, id: string): (out: (Result<string, GameStartupError>, ContextValue))
    ensures out.0.Ok? <==> state == WaitingForPlayers
    ensures out.0.Ok? ==>
      && out.0.value == id
      && |out.1.players| == |c.players| + 1 && out.1.players[..|c.players|] == c.players
      && var p := out.1.players[|c.players|]; p.id == id && p.holding.None? && p.grid == EmptyGrid()
    ensures out.0.Err? ==> out.0.error == PlayersListLocked && out.1 == c
    ensures out.1.deck == c.deck && out.1.discard == c.discard && out.1.current == c.current
  {
    if state == WaitingForPlayers then (Ok(id), c.(players := c.players + [NewPlayer(id)]))
    else (Err(PlayersListLocked), c)
  }

  // ---------------------------------------------------------------------------
  // Starting
  // ---------------------------------------------------------------------------

  datatype StartOutcome = StartOutcome(
    result: Result<(), GameStartupError>,
    context: ContextValue,
    state: GameState,
    emitted: seq<GameState>)

  /**
   * The part of starting that `handle_start` in strato/src/game.rs and in
   * strato/src/event.rs share, with `shuffled` the deck as the shuffle left
   * it: the top card primes the discard pile, the cards are dealt, and the
   * game becomes `Active` with the given first player or enters
   * `DetermineFirstPlayer`. A failed deal stops in `Startup` with the cards
   * dealt so far. `emitted` lists the states entered, in order.
   */
  function PrimeAndDeal(c: ContextValue, options: GameOptions, shuffled: seq<Card>): (out: StartOutcome)
    requires WellFormed(c.players) && shuffled != []
    ensures WellFormed(out.context.players) && |out.context.players| == |c.players|
    ensures out.context.discard == c.discard + [Last(shuffled)]
    ensures out.emitted == [Startup] + (if out.result.Ok? then [out.state] else [])
    ensures out.result.Err? ==> out.state == Startup && out.context.current == c.current
    ensures out.result.Ok? && options.firstPlayerIdx.Some? ==>
      out.state == Active && out.context.current == options.firstPlayerIdx
    ensures out.result.Ok? && options.firstPlayerIdx.None? ==>
      out.state == DetermineFirstPlayer && out.context.current == c.current
  {
    var dealt := Dealt(c.players, DropLast(shuffled), 0, 0, 0);
    var c' := c.(players := dealt.players, deck := dealt.deck, discard := c.discard + [Last(shuffled)]);
    if dealt.result.Err? then StartOutcome(dealt.result, c', Startup, [Startup])
    else match options.firstPlayerIdx
      case Some(first) => StartOutcome(Ok(()), c'.(current := Some(first)), Active, [Startup, Active])
      case None => StartOutcome(Ok(()), c', DetermineFirstPlayer, [Startup, DetermineFirstPlayer])
  }

  /**
   * `handle_start` in strato/src/game.rs. The guards come in the order:
   * already active, fewer than two players, not waiting for players (which
   * succeeds without doing anything); none of them changes anything.
   * Otherwise the game starts as `PrimeAndDeal` says.
   */
  function HandleStart(state: GameState, c: ContextValue, options: GameOptions, shuffled: seq<Card>): (out: StartOutcome)
    requires WellFormed(c.players)
    requires state == WaitingForPlayers && |c.players| >= 2 ==> shuffled != []
    ensures WellFormed(out.context.players) && |out.context.players| == |c.players|
    ensures state == Active ==> out == StartOutcome(Err(GameAlreadyStarted), c, state, [])
    ensures state != Active && |c.players| < 2 ==> out == StartOutcome(Err(NotEnoughPlayers), c, state, [])
    ensures state !in {Active, WaitingForPlayers} && |c.players| >= 2 ==> out == StartOutcome(Ok(()), c, state, [])
    ensures state == WaitingForPlayers && |c.players| >= 2 ==> out == PrimeAndDeal(c, options, shuffled)
  {
    if state == Active then StartOutcome(Err(GameAlreadyStarted), c, state, [])
    else if |c.players| < 2 then StartOutcome(Err(NotEnoughPlayers), c, state, [])
    else if state != WaitingForPlayers then StartOutcome(Ok(()), c, state, [])
    else PrimeAndDeal(c, options, shuffled)
  }

  // ---------------------------------------------------------------------------
  // Picking the first player
  // ---------------------------------------------------------------------------

  /**
   * `Iterator::max_by_key` over indices: an index of a maximal element, the
   * last one when several are maximal.
   */
  function LastMaxIndex(s: seq<int>): (r: nat)
    requires |s| > 0
    ensures r < |s|
    ensures forall j :: 0 <= j < |s| ==> s[j] <= s[r]
    ensures forall j :: r < j < |s| ==> s[j] < s[r]
  {
    if |s| == 1 then 0
    else
      var m := LastMaxIndex(s[..|s| - 1]);
      if s[|s| - 1] >= s[m] then |s| - 1 else m
  }

  /** The players' scores, in list order. */
  function Scores(ps: seq<PlayerValue>): (s: seq<int>)
    requires WellFormed(ps)
    ensures |s| == |ps| && forall i :: 0 <= i < |ps| ==> s[i] == Score(ps[i].grid)
  {
    seq(|ps|, i requires 0 <= i < |ps| => Score(ps[i].grid))
  }

  /**
   * `check_if_first_player_determined`: once every player has exactly two
   * face-up cards, the player with the highest score goes first (the last
   * such player on a tie); before that, nobody is picked.
   */
  function FirstPlayer(ps: seq<PlayerValue>): (r: Option<nat>)
    requires WellFormed(ps) && |ps| > 0
    ensures r.Some? <==> forall i :: 0 <= i < |ps| ==> FlippedCards(ps[i].grid) == 2
    ensures r.Some? ==> r.value < |ps|
    ensures r.Some? ==> forall j :: 0 <= j < |ps| ==> Score(ps[j].grid) <= Score(ps[r.value].grid)
    ensures r.Some? ==> forall j :: r.value < j < |ps| ==> Score(ps[j].grid) < Score(ps[r.value].grid)
  {
    if forall i :: 0 <= i < |ps| ==> FlippedCards(ps[i].grid) == 2 then Some(LastMaxIndex(Scores(ps)))
    else None
  }

  datatype FlipOutcome = FlipOutcome(result: Result<(), PlayerTurnError>, context: ContextValue, state: GameState)

  /** `player_flip_to_determine_who_is_first`; `PlayerFlipRule` says what it does. */
  function PlayerFlipToDetermineWhoIsFirst(state: GameState, c: ContextValue, id: string, row: nat, column: nat): (out: FlipOutcome)
    requires WellFormed(c.players)
    ensures WellFormed(out.context.players) && |out.context.players| == |c.players|
  {
    if state != DetermineFirstPlayer then FlipOutcome(Err(NotDeterminingFirstPlayer), c, state)
    else match Position(c.players, id)
      case None => FlipOutcome(Err(PlayerDoesntExist), c, state)
      case Some(i) =>
        if FlippedCards(c.players[i].grid) >= 2 then FlipOutcome(Err(TooManyCardsFlipped), c, state)
        else FlipForFirst(state, c, i, row, column)
  }

  /**
   * The part of `player_flip_to_determine_who_is_first` after the checks,
   * for player `i`: the flip, then the check whether the first player is known.
   */
  function FlipForFirst(state: GameState, c: ContextValue, i: nat, row: nat, column: nat): (out: FlipOutcome)
    requires WellFormed(c.players) && i < |c.players|
    ensures WellFormed(out.context.players) && |out.context.players| == |c.players|
  {
    var f := FlipAtGrid(c.players[i].grid, row, column);
    match f.0
    case Err(e) => FlipOutcome(Err(PlayerTurnError.PlayerSpreadError(e)), c, state)
    case Ok(_) =>
      var c' := c.(players := c.players[i := c.players[i].(grid := f.1)]);
      match FirstPlayer(c'.players)
      case None => FlipOutcome(Ok(()), c', state)
      case Some(first) => FlipOutcome(Ok(()), c'.(current := Some(first)), Active)
  }

  /**
   * What `player_flip_to_determine_who_is_first` does. Errors, in order: not
   * in the first-player phase, unknown id, two cards already face-up, and the
   * spread's own flip errors; none of them changes anything. A successful
   * flip turns exactly one card of that player face-up; once that completes
   * everybody's two cards, the first player is set and the game becomes `Active`.
   */
  lemma PlayerFlipRule(state: GameState, c: ContextValue, id: string, row: nat, column: nat)
    requires WellFormed(c.players)
    ensures var out := PlayerFlipToDetermineWhoIsFirst(state, c, id, row, column);
      out.result.Err? ==> out.context == c && out.state == state
    ensures var out := PlayerFlipToDetermineWhoIsFirst(state, c, id, row, column);
      state != DetermineFirstPlayer ==> out.result == Err(NotDeterminingFirstPlayer)
    ensures var out := PlayerFlipToDetermineWhoIsFirst(state, c, id, row, column);
      state == DetermineFirstPlayer && Position(c.players, id).None? ==> out.result == Err(PlayerDoesntExist)
    ensures var out := PlayerFlipToDetermineWhoIsFirst(state, c, id, row, column);
      state == DetermineFirstPlayer && Position(c.players, id).Some? ==>
      var i := Position(c.players, id).value;
      var f := FlipAtGrid(c.players[i].grid, row, column);
      && (FlippedCards(c.players[i].grid) >= 2 ==> out.result == Err(TooManyCardsFlipped))
      && (FlippedCards(c.players[i].grid) < 2 && f.0.Err? ==> out.result == Err(PlayerTurnError.PlayerSpreadError(f.0.error)))
      && (out.result.Ok? <==> FlippedCards(c.players[i].grid) < 2 && f.0.Ok?)
      && (out.result.Ok? ==>
            && out.context.players == c.players[i := c.players[i].(grid := f.1)]
            && out.context.deck == c.deck && out.context.discard == c.discard
            && var first := FirstPlayer(out.context.players);
               (first.None? ==> out.state == state && out.context.current == c.current)
               && (first.Some? ==> out.state == Active && out.context.current == first))
  {
  }

  // ---------------------------------------------------------------------------
  // A player's turn
  // ---------------------------------------------------------------------------

  /**
   * `start_player_turn`. Errors, in order: the game is not `Active`, unknown
   * id, not this player's turn, a card already in hand, the chosen pile is
   * empty; none of them changes anything. Success moves the top card of the
   * chosen pile, turned face-up, into that player's hand and changes nothing else.
   */
  function StartPlayerTurn(state: GameState, c: ContextValue, id: string, action: StartAction): (out: (Result<(), PlayerTurnError>, ContextValue))
    requires WellFormed(c.players)
    ensures WellFormed(out.1.players) && |out.1.players| == |c.players|
    ensures out.0.Err? ==> out.1 == c
    ensures state != Active ==> out.0 == Err(GameNotStarted)
    ensures state == Active && Position(c.players, id).None? ==> out.0 == Err(PlayerDoesntExist)
    ensures state == Active && Position(c.players, id).Some? ==>
      var i := Position(c.players, id).value;
      var p := c.players[i];
      var pile := if action == DrawFromDeck then c.deck else c.discard;
      && (CheckIfPlayerTurn(c.current, i).Err? ==> out.0 == Err(NotYourTurn))
      && (CheckIfPlayerTurn(c.current, i).Ok? && p.holding.Some? ==> out.0 == Err(TurnAlreadyStarted))
      && (CheckIfPlayerTurn(c.current, i).Ok? && p.holding.None? && pile == [] ==>
            out.0 == if action == DrawFromDeck then Err(PlayerTurnError.DeckEmpty) else Err(DiscardPileEmpty))
      && (out.0.Ok? <==> CheckIfPlayerTurn(c.current, i).Ok? && p.holding.None? && pile != [])
      && (out.0.Ok? ==>
            && out.1.players == c.players[i := p.(holding := Some(Last(pile).Flip()))]
            && out.1.current == c.current
            && (action == DrawFromDeck ==> out.1.deck == DropLast(c.deck) && out.1.discard == c.discard)
            && (action == TakeFromDiscardPile ==> out.1.deck == c.deck && out.1.discard == DropLast(c.discard)))
  {
    if state != Active then (Err(GameNotStarted), c)
    else match Position(c.players, id)
      case None => (Err(PlayerDoesntExist), c)
      case Some(i) =>
        if CheckIfPlayerTurn(c.current, i).Err? then (Err(NotYourTurn), c)
        else if c.players[i].holding.Some? then (Err(TurnAlreadyStarted), c)
        else
          var p := c.players[i];
          match action
          case DrawFromDeck =>
            if c.deck == [] then (Err(PlayerTurnError.DeckEmpty), c)
            else (Ok(()), c.(deck := DropLast(c.deck), players := c.players[i := p.(holding := Some(Last(c.deck).Flip()))]))
          case TakeFromDiscardPile =>
            if c.discard == [] then (Err(DiscardPileEmpty), c)
            else (Ok(()), c.(discard := DropLast(c.discard), players := c.players[i := p.(holding := Some(Last(c.discard).Flip()))]))
  }

  /**
   * The spread change an end action makes with the card from the hand: a
   * swap takes the chosen card out (it is the one discarded) and puts the held
   * card in its place; a flip turns the chosen card face-up and discards
   * the held card. Gives the new grid and the discarded card.
   */
  function EndActionOnSpread(g: Grid, card: Card, action: EndAction): (r: Result<(Grid, Card), SpreadActionError>)
    requires IsGrid(g)
    ensures r.Ok? ==> IsGrid(r.value.0) && action.Column() < COLUMNS
    ensures action.Swap? ==>
      var t := TakeFromGrid(g, action.row, action.column);
      && (t.0.Err? ==> r == Err(t.0.error))
      && (t.0.Ok? ==> r == Ok((SetCell(g, action.row, action.column, Some(card)), t.0.value)))
    ensures action.FlipCard? ==>
      var f := FlipAtGrid(g, action.row, action.column);
      && (f.0.Err? ==> r == Err(f.0.error))
      && (f.0.Ok? ==> r == Ok((f.1, card)))
  {
    match action
    case Swap(row, column) =>
      var t := TakeFromGrid(g, row, column);
      (match t.0
       case Err(e) => Err(e)
       case Ok(selected) =>
         var placed := PlaceAtGrid(t.1, card, row, column);
         match placed.0
         case Err(e) => Err(e)
         case Ok(_) =>
           SetCellTwice(g, row, column, None, Some(card));
           Ok((placed.1, selected)))
    case FlipCard(row, column) =>
      var f := FlipAtGrid(g, row, column);
      match f.0
      case Err(e) => Err(e)
      case Ok(_) => Ok((f.1, card))
  }

  /**
   * `end_player_turn`. Errors, in order: the game is not `Active` (also in
   * `LastRound`), unknown id, not this player's turn, an empty hand; none of
   * them changes anything. After that the card leaves the hand, and a spread
   * error drops it: the hand is empty, the discard pile and the turn stay as they
   * were. On success the discarded card goes on the discard pile, a matching
   * column of the chosen column is cleared and the turn passes to the next player.
   */
  function EndPlayerTurn(state: GameState, c: ContextValue, id: string, action: EndAction): (out: (Result<(), PlayerTurnError>, ContextValue))
    requires WellFormed(c.players)
    ensures WellFormed(out.1.players) && |out.1.players| == |c.players|
    ensures state != Active ==> out == (Err(GameNotStarted), c)
    ensures state == Active && Position(c.players, id).None? ==> out == (Err(PlayerDoesntExist), c)
    ensures state == Active && Position(c.players, id).Some? ==>
      var i := Position(c.players, id).value;
      var p := c.players[i];
      && (CheckIfPlayerTurn(c.current, i).Err? ==> out == (Err(NotYourTurn), c))
      && (CheckIfPlayerTurn(c.current, i).Ok? && p.holding.None? ==> out == (Err(TurnNotStarted), c))
      && (CheckIfPlayerTurn(c.current, i).Ok? && p.holding.Some? ==>
            var e := EndActionOnSpread(p.grid, p.holding.value, action);
            && (e.Err? ==>
                  out == (Err(PlayerTurnError.PlayerSpreadError(e.error)), c.(players := c.players[i := p.(holding := None)])))
            && (e.Ok? ==>
                  && out.0 == Ok(())
                  && out.1.players == c.players[i := p.(holding := None, grid := RemoveColumnGrid(e.value.0, action.Column()))]
                  && out.1.deck == c.deck
                  && out.1.discard == c.discard + [e.value.1]
                  && out.1.current == AdvancePlayerTurn(c.current, |c.players|)))
  {
    if state != Active then (Err(GameNotStarted), c)
    else match Position(c.players, id)
      case None => (Err(PlayerDoesntExist), c)
      case Some(i) =>
        if CheckIfPlayerTurn(c.current, i).Err? then (Err(NotYourTurn), c)
        else if c.players[i].holding.None? then (Err(TurnNotStarted), c)
        else
          var p := c.players[i];
          var released := c.players[i := p.(holding := None)];
          PlayHeldCard(c.(players := released), i, p.holding.value, action)
  }

  /**
   * The part of `end_player_turn` after the checks, in the context `c` where
   * `card` has just left the hand of player `i`: the spread action is
   * applied, and on success the discarded card goes on the pile, a matching
   * column is cleared and the turn advances. A spread error changes nothing
   * more.
   */
  function PlayHeldCard(c: ContextValue, i: nat, card: Card, action: EndAction): (out: (Result<(), PlayerTurnError>, ContextValue))
    requires WellFormed(c.players) && i < |c.players|
    ensures WellFormed(out.1.players) && |out.1.players| == |c.players| && out.1.deck == c.deck
    ensures var e := EndActionOnSpread(c.players[i].grid, card, action);
      && (out.0.Ok? <==> e.Ok?)
      && (e.Err? ==> out == (Err(PlayerTurnError.PlayerSpreadError(e.error)), c))
      && (e.Ok? ==>
            && out.1.players[i] == c.players[i].(grid := RemoveColumnGrid(e.value.0, action.Column()))
            && (forall j :: 0 <= j < |c.players| && j != i ==> out.1.players[j] == c.players[j])
            && out.1.discard == c.discard + [e.value.1]
            && out.1.current == AdvancePlayerTurn(c.current, |c.players|))
  {
    var p := c.players[i];
    match EndActionOnSpread(p.grid, card, action)
    case Err(e) => (Err(PlayerTurnError.PlayerSpreadError(e)), c)
    case Ok((grid, discarded)) =>
      (Ok(()), c.(players := c.players[i := p.(grid := RemoveColumnGrid(grid, action.Column()))],
                  discard := c.discard + [discarded],
                  current := AdvancePlayerTurn(c.current, |c.players|)))
  }

  // ---------------------------------------------------------------------------
  // Invariants of a game
  // ---------------------------------------------------------------------------

  /**
   * What holds of every game the engine can reach:
   * an `Active` game has a current player; only the current player of an
   * `Active` game holds a card; there are never more than the 150 cards of
   * the deck in play; and before the start the deck is the full ordered deck,
   * the discard pile is empty, nobody is current and every player is fresh.
   */
  ghost predicate Inv(state: GameState, c: ContextValue)
  {
    && WellFormed(c.players)
    && (state == Active ==> c.current.Some?)
    && (forall i :: 0 <= i < |c.players| && c.players[i].holding.Some? ==> state == Active && c.current == Some(i))
    && Total(c) <= FULL_SIZE
    && (state == WaitingForPlayers ==>
          && c.deck == FullDeck() && c.discard == [] && c.current.None?
          && forall i :: 0 <= i < |c.players| ==> c.players[i] == NewPlayer(c.players[i].id))
  }

  /** `StratoGame::new`: no players, the full deck, an empty discard pile, nobody current. */
  function InitialContext(): ContextValue
  {
    ContextValue([], None, FullDeck(), [])
  }

  lemma InitialInv()
    ensures Inv(WaitingForPlayers, InitialContext())
  {
    FullDeckShape();
  }

  lemma AddPlayerInv(state: GameState, c: ContextValue, id: string)
    requires Inv(state, c)
    ensures Inv(state, AddPlayer(state, c, id).1)
    ensures WellFormed(AddPlayer(state, c, id).1.players)
    ensures Total(AddPlayer(state, c, id).1) == Total(c)
  {
    if state == WaitingForPlayers {
      var ps := c.players + [NewPlayer(id)];
      EmptyGridQueries();
      PlayersCardsAppend(c.players, NewPlayer(id));
      forall i | 0 <= i < |ps|
        ensures ps[i] == NewPlayer(ps[i].id)
      {
        if i < |c.players| {
          assert ps[i] == c.players[i];
        }
      }
    }
  }

  /** Moving exactly one card keeps the total: start of a turn. */
  lemma StartPlayerTurnInv(state: GameState, c: ContextValue, id: string, action: StartAction)
    requires Inv(state, c)
    ensures Inv(state, StartPlayerTurn(state, c, id, action).1)
    ensures Total(StartPlayerTurn(state, c, id, action).1) == Total(c)
  {
    var out := StartPlayerTurn(state, c, id, action);
    if out.0.Ok? {
      var i := Position(c.players, id).value;
      var pile := if action == DrawFromDeck then c.deck else c.discard;
      var p' := c.players[i].(holding := Some(Last(pile).Flip()));
      PlayersCardsUpdate(c.players, i, p');
      assert Total(out.1) == Total(c);
    }
  }

  /**
   * End of a turn: the cards stay in play, except the three of a cleared
   * column and the card a failed spread action drops; the invariant holds.
   */
  lemma EndPlayerTurnInv(state: GameState, c: ContextValue, id: string, action: EndAction)
    requires Inv(state, c)
    ensures Inv(state, EndPlayerTurn(state, c, id, action).1)
    ensures Total(EndPlayerTurn(state, c, id, action).1) <= Total(c)
    ensures EndPlayerTurn(state, c, id, action).0.Ok? ==>
      var i := Position(c.players, id).value;
      var e := EndActionOnSpread(c.players[i].grid, c.players[i].holding.value, action);
      Total(EndPlayerTurn(state, c, id, action).1) == Total(c) - (if ColumnMatches(e.value.0, action.Column()) then 3 else 0)
  {
    var out := EndPlayerTurn(state, c, id, action);
    if state == Active && Position(c.players, id).Some? {
      var i := Position(c.players, id).value;
      var p := c.players[i];
      if CheckIfPlayerTurn(c.current, i).Ok? && p.holding.Some? {
        var e := EndActionOnSpread(p.grid, p.holding.value, action);
        if e.Err? {
          PlayersCardsUpdate(c.players, i, p.(holding := None));
        } else {
          PlayHeldInv(c, i, action);
        }
      }
    }
  }

  /** A successful end action: nobody holds a card any more, and a cleared column leaves the game. */
  lemma PlayHeldInv(c: ContextValue, i: nat, action: EndAction)
    requires Inv(Active, c) && i < |c.players| && c.players[i].holding.Some?
    requires EndActionOnSpread(c.players[i].grid, c.players[i].holding.value, action).Ok?
    ensures var p := c.players[i];
      var e := EndActionOnSpread(p.grid, p.holding.value, action).value;
      var c' := ContextValue(c.players[i := p.(holding := None, grid := RemoveColumnGrid(e.0, action.Column()))],
                             AdvancePlayerTurn(c.current, |c.players|), c.deck, c.discard + [e.1]);
      && Inv(Active, c')
      && Total(c') == Total(c) - (if ColumnMatches(e.0, action.Column()) then 3 else 0)
  {
    var p := c.players[i];
    var e := EndActionOnSpread(p.grid, p.holding.value, action).value;
    var cleared := RemoveColumnGrid(e.0, action.Column());
    var ps := c.players[i := p.(holding := None, grid := cleared)];
    EndActionKeepsCards(p.grid, p.holding.value, action);
    if ColumnMatches(e.0, action.Column()) {
      RemoveColumnCounts(e.0, action.Column());
    }
    PlayersCardsUpdate(c.players, i, p.(holding := None, grid := cleared));
    assert forall j :: 0 <= j < |ps| ==> ps[j].holding.None?;
  }

  /** A swap or a flip keeps the number of cards in the spread. */
  lemma EndActionKeepsCards(g: Grid, card: Card, action: EndAction)
    requires IsGrid(g)
    ensures EndActionOnSpread(g, card, action).Ok? ==> CardCount(EndActionOnSpread(g, card, action).value.0) == CardCount(g)
  {
    var e := EndActionOnSpread(g, card, action);
    if e.Ok? {
      if action.Swap? {
        SetCellCounts(g, action.row, action.column, Some(card));
      } else {
        FlipCounts(g, action.row, action.column);
      }
    }
  }

  lemma PlayerFlipInv(state: GameState, c: ContextValue, id: string, row: nat, column: nat)
    requires Inv(state, c)
    ensures Inv(PlayerFlipToDetermineWhoIsFirst(state, c, id, row, column).state, PlayerFlipToDetermineWhoIsFirst(state, c, id, row, column).context)
    ensures Total(PlayerFlipToDetermineWhoIsFirst(state, c, id, row, column).context) == Total(c)
  {
    if state == DetermineFirstPlayer && Position(c.players, id).Some? {
      var i := Position(c.players, id).value;
      if FlippedCards(c.players[i].grid) < 2 {
        FlipForFirstInv(c, i, row, column);
      }
    }
  }

  /** The flip itself: nobody holds a card while the first player is determined. */
  lemma FlipForFirstInv(c: ContextValue, i: nat, row: nat, column: nat)
    requires Inv(DetermineFirstPlayer, c) && i < |c.players|
    ensures var out := FlipForFirst(DetermineFirstPlayer, c, i, row, column);
      Inv(out.state, out.context) && Total(out.context) == Total(c)
  {
    var f := FlipAtGrid(c.players[i].grid, row, column);
    if f.0.Ok? {
      var ps := c.players[i := c.players[i].(grid := f.1)];
      FlipCounts(c.players[i].grid, row, column);
      PlayersCardsUpdate(c.players, i, c.players[i].(grid := f.1));
      assert forall j :: 0 <= j < |ps| ==> ps[j].holding.None?;
    }
  }

  /** Priming and dealing, spelled out field by field. */
  lemma PrimeAndDealFields(c: ContextValue, options: GameOptions, shuffled: seq<Card>)
    requires WellFormed(c.players) && shuffled != []
    ensures var out := PrimeAndDeal(c, options, shuffled);
      var dealt := Dealt(c.players, DropLast(shuffled), 0, 0, 0);
      && (out.result.Ok? <==> dealt.result.Ok?) && (dealt.result.Err? ==> out.result == dealt.result)
      && out.context.players == dealt.players
      && out.context.deck == dealt.deck
      && out.state in {Startup, Active, DetermineFirstPlayer}
      && (out.state == Active ==> out.context.current.Some?)
  {
  }

  /** The deal of a start keeps the hands empty and gains no card. */
  lemma StartKeepsInv(c: ContextValue, options: GameOptions, shuffled: seq<Card>)
    requires WellFormed(c.players) && |c.players| >= 2 && shuffled != [] && |shuffled| == |c.deck|
    requires forall i :: 0 <= i < |c.players| ==> c.players[i].holding.None?
    requires Total(c) <= FULL_SIZE
    ensures var out := PrimeAndDeal(c, options, shuffled);
      Inv(out.state, out.context) && Total(out.context) <= Total(c)
  {
    var deck := DropLast(shuffled);
    var dealt := Dealt(c.players, deck, 0, 0, 0);
    PrimeAndDealFields(c, options, shuffled);
    DealtKeepsCards(c.players, deck, 0, 0, 0);
    var out := PrimeAndDeal(c, options, shuffled);
    assert Total(out.context) <= Total(c);
    assert forall i :: 0 <= i < |out.context.players| ==> out.context.players[i].holding.None?;
  }

  /**
   * Starting from a waiting game whose deck was shuffled: the invariant holds
   * afterwards and no card is gained.
   */
  lemma HandleStartInv(state: GameState, c: ContextValue, options: GameOptions, shuffled: seq<Card>)
    requires Inv(state, c)
    requires |shuffled| == |c.deck| && multiset(shuffled) == multiset(c.deck)
    ensures state == WaitingForPlayers && |c.players| >= 2 ==> shuffled != []
    ensures state == WaitingForPlayers && |c.players| >= 2 ==>
      var out := HandleStart(state, c, options, shuffled);
      Inv(out.state, out.context) && Total(out.context) <= Total(c)
  {
    if state == WaitingForPlayers && |c.players| >= 2 {
      FullDeckSize();
      forall i | 0 <= i < |c.players|
        ensures c.players[i].holding.None?
      {
        assert c.players[i] == NewPlayer(c.players[i].id);
      }
      StartKeepsInv(c, options, shuffled);
    }
  }

  /**
   * Priming and dealing face-down cards into empty spreads: when the deck
   * left after priming has 12 cards per player, every spread receives 12
   * face-down cards, row-major from the top of that deck, and the deck keeps
   * the rest; otherwise the deal runs the deck dry and stops with `DeckEmpty`
   * in `Startup`, every card of the deck in a spread.
   */
  lemma PrimeAndDealIntoEmpty(c: ContextValue, options: GameOptions, shuffled: seq<Card>)
    requires WellFormed(c.players) && shuffled != []
    requires forall i :: 0 <= i < |c.players| ==> c.players[i].grid == EmptyGrid()
    requires forall k :: k in shuffled ==> !k.flipped
    ensures var out := PrimeAndDeal(c, options, shuffled);
      var n := 12 * |c.players|;
      var deck := DropLast(shuffled);
      && (n <= |deck| ==>
            && out.result == Ok(())
            && out.context.deck == deck[..|deck| - n]
            && Filled(c.players, deck, out.context.players, n)
            && forall i :: 0 <= i < |c.players| ==>
                 CardCount(out.context.players[i].grid) == CELLS && FlippedCards(out.context.players[i].grid) == 0)
      && (n > |deck| ==>
            && out.result == Err(GameStartupError.DeckEmpty) && out.state == Startup && out.context.deck == []
            && Filled(c.players, deck, out.context.players, |deck|))
  {
    var deck := DropLast(shuffled);
    assert forall k :: k in deck ==> k in shuffled;
    DealIntoEmptySpreads(c.players, deck);
    PrimeAndDealFields(c, options, shuffled);
    var out := PrimeAndDeal(c, options, shuffled);
    if 12 * |c.players| <= |deck| {
      FullDealIsFaceDown(c.players, deck, out.context.players);
    }
  }

  /**
   * A start from a waiting game with n players, 2 <= n <= 12, succeeds:
   * one card on the discard pile, 12 present face-down cards in every spread
   * dealt row-major from the top of the shuffled deck, 150 - 1 - 12n cards
   * left in the deck. With 13 or more players the deal runs the deck dry:
   * `DeckEmpty`, the game stays in `Startup`, and all 149 cards of the deck
   * fill the spreads in order.
   */
  lemma HandleStartDeals(c: ContextValue, options: GameOptions, shuffled: seq<Card>)
    requires Inv(WaitingForPlayers, c) && |c.players| >= 2
    requires |shuffled| == |c.deck| && multiset(shuffled) == multiset(c.deck)
    ensures shuffled != [] && |shuffled| == FULL_SIZE
    ensures var out := HandleStart(WaitingForPlayers, c, options, shuffled);
      && |out.context.discard| == 1
      && (|c.players| <= 12 ==>
            && out.result == Ok(())
            && |out.context.deck| == FULL_SIZE - 1 - 12 * |c.players|
            && Filled(c.players, DropLast(shuffled), out.context.players, 12 * |c.players|)
            && forall i :: 0 <= i < |c.players| ==>
                 CardCount(out.context.players[i].grid) == CELLS && FlippedCards(out.context.players[i].grid) == 0)
      && (|c.players| > 12 ==>
            && out.result == Err(GameStartupError.DeckEmpty) && out.state == Startup && out.context.deck == []
            && Filled(c.players, DropLast(shuffled), out.context.players, |DropLast(shuffled)|))
  {
    WaitingToStart(c, shuffled);
    PrimeAndDealIntoEmpty(c, options, shuffled);
  }

  /** A waiting game has empty spreads and a full, face-down deck, whatever its order. */
  lemma WaitingToStart(c: ContextValue, shuffled: seq<Card>)
    requires Inv(WaitingForPlayers, c)
    requires |shuffled| == |c.deck| && multiset(shuffled) == multiset(c.deck)
    ensures |shuffled| == FULL_SIZE
    ensures forall k :: k in shuffled ==> !k.flipped
    ensures forall i :: 0 <= i < |c.players| ==> c.players[i].grid == EmptyGrid()
  {
    FullDeckSize();
    FullDeckFaceDown();
    forall k | k in shuffled
      ensures !k.flipped
    {
      assert k in multiset(shuffled);
    }
    forall i | 0 <= i < |c.players|
      ensures c.players[i].grid == EmptyGrid()
    {
      assert c.players[i] == NewPlayer(c.players[i].id);
    }
  }
}
