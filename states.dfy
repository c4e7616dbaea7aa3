/**
 * The values the strato turn engine (strato/src/game.rs) works on: the game
 * states, the two error enums, a snapshot of the game context, the
 * first-match lookup of a player by id and the count of cards in play.
 */
module States {
  import opened Wrappers
  import opened Cards
  import opened Spread
  import opened Players

  datatype GameState =
    | WaitingForPlayers
    | Startup
    | DetermineFirstPlayer
    | Active
    | LastRound
    | Ended

  datatype GameStartupError =
    | GameAlreadyStarted
    | PlayersListLocked
    | NotEnoughPlayers
    | PlayerSpreadError(spreadError: SpreadActionError)
    | DeckEmpty

  datatype PlayerTurnError =
    | PlayerDoesntExist
    | NotDeterminingFirstPlayer
    | TooManyCardsFlipped
    | GameNotStarted
    | TurnAlreadyStarted
    | TurnNotStarted
    | NotYourTurn
    | PlayerActionError(actionError: Players.PlayerActionError)
    | PlayerSpreadError(spreadError: SpreadActionError)
    | DeckEmpty
    | DiscardPileEmpty

  /** `GameOptions`: the index of the player who goes first, when known in advance. */
  datatype GameOptions = GameOptions(firstPlayerIdx: Option<nat>)

  /** A snapshot of `GameContext`: the players in order, whose turn it is, the deck and the discard pile. */
  datatype ContextValue = ContextValue(
    players: seq<PlayerValue>,
    current: Option<nat>,
    deck: seq<Card>,
    discard: seq<Card>)

  /** Every player's spread is a 3x4 grid. */
  predicate WellFormed(ps: seq<PlayerValue>)
  {
    forall i :: 0 <= i < |ps| ==> IsGrid(ps[i].grid)
  }

  // ---------------------------------------------------------------------------
  // Looking players up
  // ---------------------------------------------------------------------------

  /**
   * `players.iter().position(|p| p.id() == id)`, which `find` uses too: the
   * first index whose player has this id, and None exactly when no player has it.
   */
  function Position(ps: seq<PlayerValue>, id: string): (r: Option<nat>)
    ensures r.Some? ==> r.value < |ps| && ps[r.value].id == id
    ensures r.Some? ==> forall j :: 0 <= j < r.value ==> ps[j].id != id
    ensures r.None? <==> forall j :: 0 <= j < |ps| ==> ps[j].id != id
  {
    if ps == [] then None
    else if ps[0].id == id then Some(0)
    else match Position(ps[1..], id)
      case None => None
      case Some(k) => Some(k + 1)
  }

  /** With unique ids, the position of a player's id is that player's index. */
  lemma PositionOfUniqueId(ps: seq<PlayerValue>, i: nat)
    requires i < |ps|
    requires forall j, k :: 0 <= j < k < |ps| ==> ps[j].id != ps[k].id
    ensures Position(ps, ps[i].id) == Some(i)
  {
  }

  // ---------------------------------------------------------------------------
  // Counting the cards in play
  // ---------------------------------------------------------------------------

  /** The cards a player has: present cards of the spread and the card in hand. */
  function PlayerCards(p: PlayerValue): nat
    requires IsGrid(p.grid)
  {
    CardCount(p.grid) + Ind(p.holding.Some?)
  }

  function PlayersCards(ps: seq<PlayerValue>): nat
    requires WellFormed(ps)
  {
    if ps == [] then 0 else PlayerCards(ps[0]) + PlayersCards(ps[1..])
  }

  /** All cards of the game: the deck, the discard pile, the spreads and the hands. */
  function Total(c: ContextValue): nat
    requires WellFormed(c.players)
  {
    |c.deck| + |c.discard| + PlayersCards(c.players)
  }

  lemma {:induction false} PlayersCardsUpdate(ps: seq<PlayerValue>, i: nat, p: PlayerValue)
    requires WellFormed(ps) && i < |ps| && IsGrid(p.grid)
    ensures WellFormed(ps[i := p])
    ensures PlayersCards(ps[i := p]) == PlayersCards(ps) - PlayerCards(ps[i]) + PlayerCards(p)
  {
    if i > 0 {
      assert ps[i := p][1..] == ps[1..][i - 1 := p];
      PlayersCardsUpdate(ps[1..], i - 1, p);
    } else {
      assert ps[i := p][1..] == ps[1..];
    }
  }

  lemma {:induction false} PlayersCardsAppend(ps: seq<PlayerValue>, p: PlayerValue)
    requires WellFormed(ps) && IsGrid(p.grid)
    ensures WellFormed(ps + [p])
    ensures PlayersCards(ps + [p]) == PlayersCards(ps) + PlayerCards(p)
  {
    if ps != [] {
      assert (ps + [p])[1..] == ps[1..] + [p];
      PlayersCardsAppend(ps[1..], p);
    } else {
      assert ps + [p] == [p];
      assert [p][1..] == [];
    }
  }

  /** Players who hold nothing and whose spreads are empty have no cards. */
  lemma {:induction false} FreshPlayersHaveNoCards(ps: seq<PlayerValue>)
    requires forall i :: 0 <= i < |ps| ==> ps[i].grid == EmptyGrid() && ps[i].holding.None?
    ensures WellFormed(ps) && PlayersCards(ps) == 0
  {
    EmptyGridQueries();
    if ps != [] {
      FreshPlayersHaveNoCards(ps[1..]);
    }
  }
}
