/**
 * core/src/player.rs: the player of the earlier engine. Besides the id it
 * keeps a chosen name; `hold` refuses a second card with a message naming the
 * card already held, which is modelled as the value `AlreadyHolding`. The
 * spread is the one of strato/src/card.rs (core/src/card.rs does not define
 * `PlayerSpread`), and the card is the one of module Cards: core's `visible`
 * is `flipped` there, and `flip` sets it in both.
 */
module CorePlayers {
  import opened Wrappers
  import opened Cards
  import opened Spread
  import opened Players

  /** The `Err` string of `hold`: the hand already holds this card. */
  datatype HoldError = AlreadyHolding(card: Card)

  class Player {
    /** A generated identifier, supplied by the caller here. */
    const id: string
    /** The player's chosen name or alias. */
    const name: string
    /** The card in hand after drawing from the deck or taking from the discard pile. */
    var holding: Option<Card>
    /** The grid of cards in front of the player. */
    const spread: PlayerSpread

    ghost predicate Valid()
      reads this, spread
    {
      spread.Valid()
    }

    /** The player as the game sees it: id, hand and grid (the name plays no part in the rules). */
    ghost function Value(): PlayerValue
      reads this, spread
    {
      PlayerValue(id, holding, spread.grid)
    }

    /** `Player::new`: the given id and name, an empty hand and an empty spread. */
    constructor (id: string, name: string)
      ensures Valid() && fresh(spread) && this.name == name
      ensures Value() == PlayerValue(id, None, EmptyGrid())
    {
      this.id := id;
      this.name := name;
      holding := None;
      spread := new PlayerSpread();
    }

    /**
     * `Player::hold`: an empty hand takes the card, made visible; a full hand
     * refuses, naming the card it holds, and stays as it was.
     */
    method Hold(card: Card) returns (r: Result<(), HoldError>)
      modifies this
      ensures old(holding).Some? ==> r == Err(AlreadyHolding(old(holding).value)) && holding == old(holding)
      ensures old(holding).None? ==> r == Ok(()) && holding == Some(Card(card.value, true))
    {
      if holding.Some? {
        return Err(AlreadyHolding(holding.value));
      }
      var c := card.Flip();
      holding := Some(c);
      return Ok(());
    }

    /** `Player::release`: hands over the held card, if any, and empties the hand. */
    method Release() returns (card: Option<Card>)
      modifies this
      ensures card == old(holding) && holding == None
    {
      card := holding;
      holding := None;
    }
  }

  /**
   * `hold` then `release` on an empty hand gives back the card, now visible,
   * and a second `release` gives nothing.
   */
  method HoldThenRelease(p: Player, card: Card) returns (first: Option<Card>, second: Option<Card>)
    requires p.holding.None?
    modifies p
    ensures first == Some(Card(card.value, true)) && second == None && p.holding == None
  {
    var held := p.Hold(card);
    first := p.Release();
    second := p.Release();
  }
}
