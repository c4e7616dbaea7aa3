/**
 * strato/src/player.rs: a player with an identifier, a one-card hand and a
 * spread, and the actions a player chooses at the start and end of a turn.
 */
module Players {
  import opened Wrappers
  import opened Cards
  import opened Spread

  datatype PlayerActionError = AlreadyHoldingCard(card: Card)

  /** How a player starts a turn. */
  datatype StartAction = DrawFromDeck | TakeFromDiscardPile

  /** How a player ends a turn; row and column are 0-based. */
  datatype EndAction =
    | Swap(row: nat, column: nat)
    | FlipCard(row: nat, column: nat)
  {
    function Column(): nat
    {
      match this
      case Swap(_, column) => column
      case FlipCard(_, column) => column
    }
  }

  /** A snapshot of a player: identifier, hand and grid. */
  datatype PlayerValue = PlayerValue(id: string, holding: Option<Card>, grid: Grid)

  class Player {
    /** A generated identifier, supplied by the caller here. */
    const id: string
    /** The card in hand after drawing from the deck or taking from the discard pile. */
    var holding: Option<Card>
    /** The grid of cards in front of the player. */
    const spread: PlayerSpread

    ghost predicate Valid()
      reads this, spread
    {
      spread.Valid()
    }

    ghost function Value(): PlayerValue
      reads this, spread
    {
      PlayerValue(id, holding, spread.grid)
    }

    /** `Player::new`: the given id, an empty hand and an empty spread. */
    constructor (id: string)
      ensures Valid() && fresh(spread)
      ensures Value() == PlayerValue(id, None, EmptyGrid())
    {
      this.id := id;
      holding := None;
      spread := new PlayerSpread();
    }

    /**
     * `Player::hold`: an empty hand takes the card face-up; a full hand
     * refuses with the card it already holds and stays as it was.
     */
    method Hold(card: Card) returns (r: Result<(), PlayerActionError>)
      modifies this
      ensures old(holding).Some? ==> r == Err(AlreadyHoldingCard(old(holding).value)) && holding == old(holding)
      ensures old(holding).None? ==> r == Ok(()) && holding == Some(Card(card.value, true))
    {
      if holding.Some? {
        return Err(AlreadyHoldingCard(holding.value));
      }
      var c := card.Flip();
      holding := Some(c);
      return Ok(());
    }

    /** `Player::release`: hands over the held card, if any, and empties the hand. */
    method Release() returns (card: Option<Card>)
      modifies this
      ensures card == old(holding) && holding == None
    {
      card := holding;
      holding := None;
    }
  }
}
