/**
 * The card domain of strato/src/card.rs: card values, cards with a face-up flag,
 * the deck and the discard pile (two LIFO stacks) and a player's 3x4 spread.
 *
 * core/src/card.rs carries the same value conversions, cards, deck and discard
 * pile (its `visible` flag is `flipped` here); the core engine uses this module
 * too, with `Deck.Empty` for the deck that its derived `Default` builds.
 */
module Cards {
  import opened Wrappers

  // ---------------------------------------------------------------------------
  // Card values
  // ---------------------------------------------------------------------------

  datatype CardValue =
    | NegativeTwo | NegativeOne | Zero | One | Two | Three | Four | Five
    | Six | Seven | Eight | Nine | Ten | Eleven | Twelve

  /** `i32::from(CardValue)`: every value lies in -2..=12. */
  function ToInt(v: CardValue): (n: int)
    ensures -2 <= n <= 12
  {
    match v
    case NegativeTwo => -2
    case NegativeOne => -1
    case Zero => 0
    case One => 1
    case Two => 2
    case Three => 3
    case Four => 4
    case Five => 5
    case Six => 6
    case Seven => 7
    case Eight => 8
    case Nine => 9
    case Ten => 10
    case Eleven => 11
    case Twelve => 12
  }

  /**
   * `CardValue::from(i32)`. Any integer outside -2..=12 panics, so the
   * range is the caller's obligation. Converting back gives `n` again.
   */
  function FromInt(n: int): (v: CardValue)
    requires -2 <= n <= 12
    ensures ToInt(v) == n
  {
    if n == -2 then NegativeTwo
    else if n == -1 then NegativeOne
    else if n == 0 then Zero
    else if n == 1 then One
    else if n == 2 then Two
    else if n == 3 then Three
    else if n == 4 then Four
    else if n == 5 then Five
    else if n == 6 then Six
    else if n == 7 then Seven
    else if n == 8 then Eight
    else if n == 9 then Nine
    else if n == 10 then Ten
    else if n == 11 then Eleven
    else Twelve
  }

  /** The other half of the round trip: a value survives going through `i32`. */
  lemma ToIntRoundTrip(v: CardValue)
    ensures FromInt(ToInt(v)) == v
  {
  }

  // ---------------------------------------------------------------------------
  // Cards
  // ---------------------------------------------------------------------------

  datatype Card = Card(value: CardValue, flipped: bool)
  {
    /** `Card::get_value`: the value is revealed only once the card is face-up. */
    function GetValue(): (r: Option<CardValue>)
      ensures r.Some? <==> flipped
      ensures r.Some? ==> r.value == value
    {
      if flipped then Some(value) else None
    }

    /** `Card::flip`: the card is face-up afterwards and keeps its value. */
    function Flip(): (c: Card)
      ensures c.flipped && c.value == value
    {
      Card(value, true)
    }
  }

  /** `Card::new`: a face-down card of value `n`. */
  function NewCard(n: int): (c: Card)
    requires -2 <= n <= 12
    ensures ToInt(c.value) == n && !c.flipped
  {
    Card(FromInt(n), false)
  }

  /** Flipping twice is the same as flipping once (the card stays face-up). */
  lemma FlipIdempotent(c: Card)
    ensures c.Flip().Flip() == c.Flip()
    ensures c.flipped ==> c.Flip() == c
  {
  }

  // ---------------------------------------------------------------------------
  // Stacks (`Vec::pop` / `Vec::push`)
  // ---------------------------------------------------------------------------

  function Last<T>(s: seq<T>): T
    requires |s| > 0
  {
    s[|s| - 1]
  }

  function DropLast<T>(s: seq<T>): seq<T>
    requires |s| > 0
  {
    s[..|s| - 1]
  }

  // ---------------------------------------------------------------------------
  // The canonical deck
  // ---------------------------------------------------------------------------

  const FULL_SIZE: nat := 150
  const EMPTY_SIZE: nat := 0

  /** `(lo..=hi).map(Card::new)`. */
  function Run(lo: int, hi: int): seq<Card>
    requires -2 <= lo && hi <= 12
  {
    seq(if lo > hi then 0 else hi - lo + 1, t requires 0 <= t && lo + t <= hi => NewCard(lo + t))
  }

  /** `k` sets of -2..=12, one after the other. */
  function Sets(k: nat): seq<Card>
  {
    if k == 0 then [] else Sets(k - 1) + Run(-2, 12)
  }

  /**
   * The deck `Deck::default` (strato) and `Deck::new` (core) build, card by
   * card: position `j` holds the value `j % 15 - 2`. `FullDeckIsTenSets`
   * shows that this is the ten sets of -2..=12 the source concatenates.
   */
  function FullDeck(): (d: seq<Card>)
    ensures |d| == FULL_SIZE
  {
    seq(FULL_SIZE, j => NewCard(j % 15 - 2))
  }

  lemma NewCardInjective(m: int, n: int)
    requires -2 <= m <= 12 && -2 <= n <= 12
    ensures NewCard(m) == NewCard(n) <==> m == n
  {
    if NewCard(m) == NewCard(n) {
      assert ToInt(NewCard(m).value) == ToInt(NewCard(n).value);
    }
  }

  /** A non-empty range starts with its lowest card. */
  lemma RunCons(lo: int, hi: int)
    requires -2 <= lo <= hi <= 12
    ensures Run(lo, hi) == [NewCard(lo)] + Run(lo + 1, hi)
  {
    assert forall t :: 0 < t < |Run(lo, hi)| ==> Run(lo, hi)[t] == Run(lo + 1, hi)[t - 1];
  }

  lemma {:induction false} RunCount(lo: int, hi: int, n: int)
    requires -2 <= lo && hi <= 12 && -2 <= n <= 12
    ensures multiset(Run(lo, hi))[NewCard(n)] == if lo <= n <= hi then 1 else 0
    decreases hi - lo + 1
  {
    if lo <= hi {
      RunCount(lo + 1, hi, n);
      RunCons(lo, hi);
      NewCardInjective(lo, n);
      CountCons(NewCard(lo), Run(lo + 1, hi), NewCard(n));
    }
  }

  lemma CountCons(x: Card, s: seq<Card>, y: Card)
    ensures multiset([x] + s)[y] == multiset(s)[y] + (if x == y then 1 else 0)
  {
    assert multiset([x] + s) == multiset{x} + multiset(s);
  }

  lemma {:induction false} SetsShape(k: nat)
    ensures |Sets(k)| == 15 * k
    ensures forall j :: 0 <= j < |Sets(k)| ==> Sets(k)[j] == NewCard(j % 15 - 2)
  {
    if k > 0 {
      SetsShape(k - 1);
      forall j | 0 <= j < |Sets(k)|
        ensures Sets(k)[j] == NewCard(j % 15 - 2)
      {
        if j >= 15 * (k - 1) {
          var t := j - 15 * (k - 1);
          assert j % 15 == t;
        }
      }
    }
  }

  lemma {:induction false} SetsCount(k: nat, n: int)
    requires -2 <= n <= 12
    ensures multiset(Sets(k))[NewCard(n)] == k
  {
    if k > 0 {
      SetsCount(k - 1, n);
      RunCount(-2, 12, n);
      assert multiset(Sets(k)) == multiset(Sets(k - 1)) + multiset(Run(-2, 12));
    }
  }

  lemma {:induction false} SetsFaceDown(k: nat)
    ensures forall c :: c in Sets(k) ==> !c.flipped
  {
    if k > 0 {
      SetsFaceDown(k - 1);
    }
  }

  /**
   * The canonical deck: 150 cards, ascending -2..=12 within each of the ten
   * sets, so the top (last) card is a 12 and the bottom one a -2.
   */
  lemma FullDeckShape()
    ensures |FullDeck()| == FULL_SIZE
    ensures forall j :: 0 <= j < FULL_SIZE ==> FullDeck()[j] == NewCard(j % 15 - 2)
    ensures Last(FullDeck()) == NewCard(12) && FullDeck()[0] == NewCard(-2)
  {
    assert Last(FullDeck()) == FullDeck()[149];
  }

  /** The card-by-card deck is the ten concatenated sets of `Deck::default`. */
  lemma FullDeckIsTenSets()
    ensures FullDeck() == Sets(10)
  {
    SetsShape(10);
  }

  lemma FullDeckSize()
    ensures |FullDeck()| == FULL_SIZE
  {
    FullDeckShape();
  }

  /** Ten cards of every value. */
  lemma FullDeckCounts(n: int)
    requires -2 <= n <= 12
    ensures multiset(FullDeck())[NewCard(n)] == 10
  {
    FullDeckIsTenSets();
    SetsCount(10, n);
  }

  /** Every card of the canonical deck is face-down. */
  lemma FullDeckFaceDown()
    ensures forall c :: c in FullDeck() ==> !c.flipped
  {
    FullDeckIsTenSets();
    SetsFaceDown(10);
  }

  // ---------------------------------------------------------------------------
  // Deck
  // ---------------------------------------------------------------------------

  /** `Deck(Vec<Card>)`: the last element is the top of the deck. */
  class Deck {
    var cards: seq<Card>

    /** strato's `Deck::default` and core's `Deck::new`: the ten ordered sets. */
    constructor Full()
      ensures cards == FullDeck()
    {
      cards := FullDeck();
    }

    /** core's derived `Default`: a deck with no cards. */
    constructor Empty()
      ensures cards == []
    {
      cards := [];
    }

    function Size(): nat
      reads this
    {
      |cards|
    }

    /** `Deck::draw`: pops the top card; an empty deck gives None and stays empty. */
    method Draw() returns (card: Option<Card>)
      modifies this
      ensures old(cards) == [] ==> card == None && cards == []
      ensures old(cards) != [] ==> card == Some(Last(old(cards))) && cards == DropLast(old(cards))
      ensures old(cards) != [] ==> Size() == old(Size()) - 1
    {
      if cards == [] {
        card := None;
      } else {
        card := Some(Last(cards));
        cards := DropLast(cards);
      }
    }

    /**
     * `Deck::shuffle`: 4 to 7 passes that split the deck near the middle and
     * interleave the two hands 1 to 3 cards at a time, then 4 to 11 swaps.
     * The random choices are nondeterministic here, so the contract holds for
     * every outcome of the generator. `gen_range(0..size / 10)` panics on an
     * empty range, hence the precondition.
     */
    method Shuffle()
      requires |cards| >= 10
      modifies this
      ensures |cards| == |old(cards)|
      ensures multiset(cards) == multiset(old(cards))
    {
      var size := |cards|;
      var timesToShuffle: nat :| 4 <= timesToShuffle <= 7;
      var middle := size / 2;
      var maxVarianceFromMiddle := size / 10;

      var original := cards;
      var leftHand := cards;
      var pass := 0;
      while pass < timesToShuffle
        invariant |leftHand| == size
        invariant multiset(leftHand) == multiset(original)
      {
        var varianceFromMiddle: nat :| varianceFromMiddle < maxVarianceFromMiddle;
        var addVariance: bool :| true;
        var guessAtMiddle :=
          if addVariance then middle + varianceFromMiddle
          else if varianceFromMiddle <= middle then middle - varianceFromMiddle
          else middle;

        // Vec::split_off
        ghost var whole := leftHand;
        var rightHand := leftHand[guessAtMiddle..];
        leftHand := leftHand[..guessAtMiddle];
        assert leftHand + rightHand == whole;
        assert multiset(leftHand) + multiset(rightHand) == multiset(whole);

        var shuffled := Interleave(leftHand, rightHand);
        leftHand := shuffled;
        pass := pass + 1;
      }

      var numberOfSwaps: nat :| 4 <= numberOfSwaps < 12;
      var s := 0;
      while s < numberOfSwaps
        invariant |leftHand| == size
        invariant multiset(leftHand) == multiset(original)
      {
        var first: nat :| first < size;
        var second: nat :| second < size;
        leftHand := Swapped(leftHand, first, second);
        s := s + 1;
      }

      cards := leftHand;
    }
  }

  /**
   * The inner loop of `Deck::shuffle`: pops 1 to 3 cards from the left hand,
   * then 1 to 3 from the right hand, onto the shuffled pile, until both are empty.
   */
  method Interleave(left: seq<Card>, right: seq<Card>) returns (shuffled: seq<Card>)
    ensures |shuffled| == |left| + |right|
    ensures multiset(shuffled) == multiset(left) + multiset(right)
  {
    var leftHand, rightHand := left, right;
    shuffled := [];
    while leftHand != [] || rightHand != []
      invariant |leftHand| + |rightHand| + |shuffled| == |left| + |right|
      invariant multiset(leftHand) + multiset(rightHand) + multiset(shuffled) == multiset(left) + multiset(right)
      decreases |leftHand| + |rightHand|
    {
      ghost var before := |leftHand| + |rightHand|;
      var leftCardsToTake: nat :| 1 <= leftCardsToTake <= 3;
      var rightCardsToTake: nat :| 1 <= rightCardsToTake <= 3;
      var leftHand', taken := PopOnto(leftHand, shuffled, leftCardsToTake);
      var rightHand', shuffled' := PopOnto(rightHand, taken, rightCardsToTake);
      calc {
        multiset(leftHand') + multiset(rightHand') + multiset(shuffled');
        multiset(leftHand') + (multiset(rightHand) + multiset(taken));
        (multiset(leftHand') + multiset(taken)) + multiset(rightHand);
        multiset(leftHand) + multiset(shuffled) + multiset(rightHand);
      }
      leftHand, rightHand, shuffled := leftHand', rightHand', shuffled';
    }
  }

  /** Pops up to `n` cards from `hand` onto `pile`, stopping early when the hand runs out. */
  method PopOnto(hand: seq<Card>, pile: seq<Card>, n: nat) returns (hand': seq<Card>, pile': seq<Card>)
    requires n >= 1
    ensures |hand'| + |pile'| == |hand| + |pile|
    ensures multiset(hand') + multiset(pile') == multiset(hand) + multiset(pile)
    ensures |hand'| <= |hand| && (hand != [] ==> |hand'| < |hand|)
  {
    hand', pile' := hand, pile;
    var i := 0;
    while i < n
      invariant |hand'| + |pile'| == |hand| + |pile|
      invariant multiset(hand') + multiset(pile') == multiset(hand) + multiset(pile)
      invariant |hand'| <= |hand| && (i > 0 && hand != [] ==> |hand'| < |hand|)
    {
      if hand' != [] {
        assert hand' == DropLast(hand') + [Last(hand')];
        pile' := pile' + [Last(hand')];
        hand' := DropLast(hand');
      }
      i := i + 1;
    }
  }

  /** `slice::swap`: exchanges two positions and keeps the multiset. */
  function Swapped<T>(s: seq<T>, i: nat, j: nat): (t: seq<T>)
    requires i < |s| && j < |s|
    ensures |t| == |s| && t[i] == s[j] && t[j] == s[i]
    ensures forall k :: 0 <= k < |s| && k != i && k != j ==> t[k] == s[k]
    ensures multiset(t) == multiset(s)
  {
    s[i := s[j]][j := s[i]]
  }

  // ---------------------------------------------------------------------------
  // Discard pile
  // ---------------------------------------------------------------------------

  /** `DiscardPile(Vec<Card>)`: the last element is the top of the pile. */
  class DiscardPile {
    var cards: seq<Card>

    /** `DiscardPile::new`: an empty pile. */
    constructor ()
      ensures cards == []
    {
      cards := [];
    }

    function Size(): nat
      reads this
    {
      |cards|
    }

    /** `DiscardPile::take`: pops the top card; an empty pile gives None and stays empty. */
    method Take() returns (card: Option<Card>)
      modifies this
      ensures old(cards) == [] ==> card == None && cards == []
      ensures old(cards) != [] ==> card == Some(Last(old(cards))) && cards == DropLast(old(cards))
      ensures old(cards) != [] ==> Size() == old(Size()) - 1
    {
      if cards == [] {
        card := None;
      } else {
        card := Some(Last(cards));
        cards := DropLast(cards);
      }
    }

    /** `DiscardPile::put`: the card becomes the new top. */
    method Put(card: Card)
      modifies this
      ensures cards == old(cards) + [card]
      ensures Size() == old(Size()) + 1
    {
      cards := cards + [card];
    }
  }

  /** What `put` pushes, `take` pops again: the pile is LIFO. */
  lemma PutThenTake(pile: seq<Card>, card: Card)
    ensures Last(pile + [card]) == card && DropLast(pile + [card]) == pile
  {
  }
}
