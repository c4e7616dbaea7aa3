/**
 * `deal_cards_to_players`, the same nested loop in strato/src/game.rs,
 * strato/src/event.rs and core/src/game.rs: for every player in order, for
 * every row, for every column, draw the top card of the deck and place it at
 * that cell. A draw from an empty deck stops with `DeckEmpty` and a
 * placement error stops with that error; the cards dealt so far stay where
 * they are.
 *
 * The deal is stated the way the loops run it, from a cursor: player `i`,
 * row `row`, column `column`. A finished row (column 4) goes on with the next
 * row and a finished spread (row 3) with the next player. The deal position
 * `12 * i + 4 * row + column` numbers the cells of all spreads one after
 * another in that order.
 */
module Dealing {
  import opened Wrappers
  import opened Cards
  import opened Spread
  import opened Players
  import opened States

  datatype DealOutcome = DealOutcome(result: Result<(), GameStartupError>, players: seq<PlayerValue>, deck: seq<Card>)

  /** The deal from the cursor on: the result, the players and the deck it leaves. */
  function Dealt(ps: seq<PlayerValue>, deck: seq<Card>, i: nat, row: nat, column: nat): (out: DealOutcome)
    requires WellFormed(ps) && i <= |ps| && row <= ROWS && column <= COLUMNS
    ensures WellFormed(out.players) && |out.players| == |ps|
    ensures forall j :: 0 <= j < |ps| ==> out.players[j].id == ps[j].id && out.players[j].holding == ps[j].holding
    ensures out.result.Err? ==> out.result.error.DeckEmpty? || out.result.error.PlayerSpreadError?
    decreases |ps| - i, ROWS - row, COLUMNS - column
  {
    if i == |ps| then DealOutcome(Ok(()), ps, deck)
    else if row == ROWS then Dealt(ps, deck, i + 1, 0, 0)
    else if column == COLUMNS then Dealt(ps, deck, i, row + 1, 0)
    else if deck == [] then DealOutcome(Err(GameStartupError.DeckEmpty), ps, deck)
    else
      var placed := PlaceAtGrid(ps[i].grid, Last(deck), row, column);
      match placed.0
      case Err(e) => DealOutcome(Err(GameStartupError.PlayerSpreadError(e)), ps, DropLast(deck))
      case Ok(_) => Dealt(ps[i := ps[i].(grid := placed.1)], DropLast(deck), i, row, column + 1)
  }

  /**
   * A cursor the loops can reach among `n` players: inside a spread, at the
   * end of a spread, or past the last player.
   */
  predicate Cursor(n: nat, i: nat, row: nat, column: nat)
  {
    || (i < n && row < ROWS && column <= COLUMNS)
    || (i < n && row == ROWS && column == 0)
    || (i == n && row == 0 && column == 0)
  }

  /**
   * Every dealt card leaves the deck and lands in a spread, except the card a
   * failed placement drops.
   */
  lemma {:induction false} DealtKeepsCards(ps: seq<PlayerValue>, deck: seq<Card>, i: nat, row: nat, column: nat)
    requires WellFormed(ps) && i <= |ps| && row <= ROWS && column <= COLUMNS
    ensures var out := Dealt(ps, deck, i, row, column);
      PlayersCards(out.players) + |out.deck| + Ind(out.result.Err? && out.result.error.PlayerSpreadError?)
        == PlayersCards(ps) + |deck|
    decreases |ps| - i, ROWS - row, COLUMNS - column
  {
    var out := Dealt(ps, deck, i, row, column);
    if i == |ps| {
      assert out == DealOutcome(Ok(()), ps, deck);
    } else if row == ROWS {
      DealtKeepsCards(ps, deck, i + 1, 0, 0);
    } else if column == COLUMNS {
      DealtKeepsCards(ps, deck, i, row + 1, 0);
    } else if deck == [] {
      assert out == DealOutcome(Err(GameStartupError.DeckEmpty), ps, deck);
    } else {
      var placed := PlaceAtGrid(ps[i].grid, Last(deck), row, column);
      if placed.0.Ok? {
        var ps' := ps[i := ps[i].(grid := placed.1)];
        assert out == Dealt(ps', DropLast(deck), i, row, column + 1);
        PlaceCounts(ps[i].grid, Last(deck), row, column);
        assert PlayerCards(ps'[i]) == PlayerCards(ps[i]) + 1;
        PlayersCardsUpdate(ps, i, ps'[i]);
        assert PlayersCards(ps') + |DropLast(deck)| == PlayersCards(ps) + |deck|;
        DealtKeepsCards(ps', DropLast(deck), i, row, column + 1);
      } else {
        assert out == DealOutcome(Err(GameStartupError.PlayerSpreadError(placed.0.error)), ps, DropLast(deck));
      }
    }
  }

  /** Every cell from deal position `p` on is empty. */
  predicate EmptyFrom(ps: seq<PlayerValue>, p: nat)
    requires WellFormed(ps)
  {
    forall i, r, c :: 0 <= i < |ps| && 0 <= r < ROWS && 0 <= c < COLUMNS && 12 * i + 4 * r + c >= p ==>
      ps[i].grid[r][c].None?
  }

  /**
   * The deal succeeds exactly when the deck holds a card for every remaining
   * cell and all those cells are empty; so a deal from the start succeeds
   * exactly when the deck has 12 cards per player and every spread is empty.
   */
  lemma {:induction false} DealtOkIff(ps: seq<PlayerValue>, deck: seq<Card>, i: nat, row: nat, column: nat)
    requires WellFormed(ps) && Cursor(|ps|, i, row, column)
    ensures 12 * i + 4 * row + column <= 12 * |ps|
    ensures Dealt(ps, deck, i, row, column).result.Ok? <==>
      12 * |ps| - (12 * i + 4 * row + column) <= |deck| && EmptyFrom(ps, 12 * i + 4 * row + column)
    decreases |ps| - i, ROWS - row, COLUMNS - column
  {
    var out := Dealt(ps, deck, i, row, column);
    if i == |ps| {
      assert out.result.Ok?;
    } else if row == ROWS {
      DealtOkIff(ps, deck, i + 1, 0, 0);
    } else if column == COLUMNS {
      DealtOkIff(ps, deck, i, row + 1, 0);
    } else if deck == [] {
      assert out.result.Err?;
    } else {
      var placed := PlaceAtGrid(ps[i].grid, Last(deck), row, column);
      if placed.0.Err? {
        assert out.result.Err?;
        assert ps[i].grid[row][column].Some?;
      } else {
        var ps' := ps[i := ps[i].(grid := placed.1)];
        assert out == Dealt(ps', DropLast(deck), i, row, column + 1);
        DealtOkIff(ps', DropLast(deck), i, row, column + 1);
        EmptyFromStep(ps, i, row, column, Some(Last(deck)), ps');
      }
    }
  }

  /** Filling the empty cell at deal position `p` moves the empty region on by one. */
  lemma EmptyFromStep(ps: seq<PlayerValue>, i: nat, row: nat, column: nat, x: Option<Card>, ps': seq<PlayerValue>)
    requires WellFormed(ps) && i < |ps| && row < ROWS && column < COLUMNS
    requires ps[i].grid[row][column].None?
    requires ps' == ps[i := ps[i].(grid := SetCell(ps[i].grid, row, column, x))]
    ensures WellFormed(ps')
    ensures EmptyFrom(ps', 12 * i + 4 * row + column + 1) <==> EmptyFrom(ps, 12 * i + 4 * row + column)
  {
    var p := 12 * i + 4 * row + column;
    if EmptyFrom(ps, p) {
      forall j, r, c | 0 <= j < |ps'| && 0 <= r < ROWS && 0 <= c < COLUMNS && 12 * j + 4 * r + c >= p + 1
        ensures ps'[j].grid[r][c].None?
      {
        if j == i {
          assert (r, c) != (row, column);
        }
      }
    }
    if EmptyFrom(ps', p + 1) {
      forall j, r, c | 0 <= j < |ps| && 0 <= r < ROWS && 0 <= c < COLUMNS && 12 * j + 4 * r + c >= p
        ensures ps[j].grid[r][c].None?
      {
        if 12 * j + 4 * r + c > p {
          if j == i {
            assert (r, c) != (row, column);
            assert ps'[j].grid[r][c] == ps[j].grid[r][c];
          } else {
            assert ps'[j] == ps[j];
          }
        } else {
          assert j == i && r == row && c == column;
        }
      }
    }
  }

  /** Every spread is empty: the deal from the start has all cells to fill. */
  lemma EmptySpreadsEmptyFrom(ps: seq<PlayerValue>)
    requires WellFormed(ps)
    ensures EmptyFrom(ps, 0) <==> forall i :: 0 <= i < |ps| ==> ps[i].grid == EmptyGrid()
  {
    if EmptyFrom(ps, 0) {
      forall i | 0 <= i < |ps|
        ensures ps[i].grid == EmptyGrid()
      {
        GridExtensional(ps[i].grid, EmptyGrid());
      }
    }
  }

  /**
   * The cells before deal position `p` hold the cards drawn from `deck0`
   * (the k-th cell the k-th card from the top); the cells from `p` on are as
   * in `ps0`.
   */
  ghost predicate Filled(ps0: seq<PlayerValue>, deck0: seq<Card>, ps: seq<PlayerValue>, p: nat)
    requires WellFormed(ps0) && WellFormed(ps) && |ps| == |ps0| && p <= |deck0|
  {
    && (forall i, r, c :: 0 <= i < |ps| && 0 <= r < ROWS && 0 <= c < COLUMNS && 12 * i + 4 * r + c < p ==>
          ps[i].grid[r][c] == Some(deck0[|deck0| - 1 - (12 * i + 4 * r + c)]))
    && (forall i, r, c :: 0 <= i < |ps| && 0 <= r < ROWS && 0 <= c < COLUMNS && 12 * i + 4 * r + c >= p ==>
          ps[i].grid[r][c] == ps0[i].grid[r][c])
  }

  /**
   * Dealing into empty spreads, up to deal position `p`: the cells before `p`
   * hold the cards drawn from `deck0`, the cells from `p` on are still empty.
   */
  ghost predicate DealtPrefix(deck0: seq<Card>, ps: seq<PlayerValue>, p: nat)
    requires WellFormed(ps) && p <= |deck0|
  {
    && (forall i, r, c :: 0 <= i < |ps| && 0 <= r < ROWS && 0 <= c < COLUMNS && 12 * i + 4 * r + c < p ==>
          ps[i].grid[r][c] == Some(deck0[|deck0| - 1 - (12 * i + 4 * r + c)]))
    && (forall i, r, c :: 0 <= i < |ps| && 0 <= r < ROWS && 0 <= c < COLUMNS && 12 * i + 4 * r + c >= p ==>
          ps[i].grid[r][c].None?)
  }

  /** Before the first card nothing is dealt: empty spreads, the deck whole. */
  lemma DealtPrefixAtStart(ps: seq<PlayerValue>, deck: seq<Card>)
    requires WellFormed(ps) && forall i :: 0 <= i < |ps| ==> ps[i].grid == EmptyGrid()
    ensures DealtPrefix(deck, ps, 0)
    ensures deck == deck[..|deck| - 0]
  {
    forall i, r, c | 0 <= i < |ps| && 0 <= r < ROWS && 0 <= c < COLUMNS
      ensures ps[i].grid[r][c].None?
    {
      assert ps[i].grid == EmptyGrid();
    }
  }

  /** A prefix dealt into empty spreads is a fill of those spreads. */
  lemma DealtPrefixFilled(ps0: seq<PlayerValue>, deck0: seq<Card>, ps: seq<PlayerValue>, p: nat)
    requires WellFormed(ps0) && forall j :: 0 <= j < |ps0| ==> ps0[j].grid == EmptyGrid()
    requires WellFormed(ps) && |ps| == |ps0| && p <= |deck0| && DealtPrefix(deck0, ps, p)
    ensures Filled(ps0, deck0, ps, p)
  {
    forall i, r, c | 0 <= i < |ps| && 0 <= r < ROWS && 0 <= c < COLUMNS && 12 * i + 4 * r + c >= p
      ensures ps[i].grid[r][c] == ps0[i].grid[r][c]
    {
      assert ps0[i].grid == EmptyGrid();
    }
  }

  /** Dealing from the cursor into empty spreads with enough cards completes the deal. */
  lemma {:induction false} DealtFromEmptyEnough(deck0: seq<Card>, ps: seq<PlayerValue>, p: nat,
                                                deck: seq<Card>, i: nat, row: nat, column: nat)
    requires WellFormed(ps) && Cursor(|ps|, i, row, column) && 12 * |ps| <= |deck0|
    requires p == 12 * i + 4 * row + column && DealtPrefix(deck0, ps, p) && deck == deck0[..|deck0| - p]
    ensures Dealt(ps, deck, i, row, column).result == Ok(())
    ensures Dealt(ps, deck, i, row, column).deck == deck0[..|deck0| - 12 * |ps|]
    ensures DealtPrefix(deck0, Dealt(ps, deck, i, row, column).players, 12 * |ps|)
    decreases |ps| - i, ROWS - row, COLUMNS - column
  {
    if i == |ps| {
      assert Dealt(ps, deck, i, row, column) == DealOutcome(Ok(()), ps, deck);
    } else if row == ROWS {
      DealtFromEmptyEnough(deck0, ps, p, deck, i + 1, 0, 0);
    } else if column == COLUMNS {
      DealtFromEmptyEnough(deck0, ps, p, deck, i, row + 1, 0);
    } else {
      var ps' := DealOneCard(deck0, ps, p, deck, i, row, column);
      DealtFromEmptyEnough(deck0, ps', p + 1, DropLast(deck), i, row, column + 1);
    }
  }

  /** Dealing from the cursor into empty spreads with too few cards runs the deck dry. */
  lemma {:induction false} DealtFromEmptyShort(deck0: seq<Card>, ps: seq<PlayerValue>, p: nat,
                                               deck: seq<Card>, i: nat, row: nat, column: nat)
    requires WellFormed(ps) && Cursor(|ps|, i, row, column)
    requires p == 12 * i + 4 * row + column && p <= |deck0| < 12 * |ps|
    requires DealtPrefix(deck0, ps, p) && deck == deck0[..|deck0| - p]
    ensures Dealt(ps, deck, i, row, column).result == Err(GameStartupError.DeckEmpty)
    ensures Dealt(ps, deck, i, row, column).deck == []
    ensures DealtPrefix(deck0, Dealt(ps, deck, i, row, column).players, |deck0|)
    decreases |ps| - i, ROWS - row, COLUMNS - column
  {
    if row == ROWS {
      DealtFromEmptyShort(deck0, ps, p, deck, i + 1, 0, 0);
    } else if column == COLUMNS {
      DealtFromEmptyShort(deck0, ps, p, deck, i, row + 1, 0);
    } else if p == |deck0| {
      assert deck == [];
      DealtFromEmptyDeck(ps, i, row, column);
    } else {
      var ps' := DealOneCard(deck0, ps, p, deck, i, row, column);
      DealtFromEmptyShort(deck0, ps', p + 1, DropLast(deck), i, row, column + 1);
    }
  }

  /** A deal that still has cells to fill stops at an empty deck. */
  lemma {:induction false} DealtFromEmptyDeck(ps: seq<PlayerValue>, i: nat, row: nat, column: nat)
    requires WellFormed(ps) && Cursor(|ps|, i, row, column) && 12 * i + 4 * row + column < 12 * |ps|
    ensures Dealt(ps, [], i, row, column) == DealOutcome(Err(GameStartupError.DeckEmpty), ps, [])
    decreases |ps| - i, ROWS - row, COLUMNS - column
  {
    if row == ROWS {
      DealtFromEmptyDeck(ps, i + 1, 0, 0);
    } else if column == COLUMNS {
      DealtFromEmptyDeck(ps, i, row + 1, 0);
    }
  }

  /** One step of the deal into empty spreads: the next cell receives the next card. */
  lemma DealOneCard(deck0: seq<Card>, ps: seq<PlayerValue>, p: nat, deck: seq<Card>, i: nat, row: nat, column: nat)
    returns (ps': seq<PlayerValue>)
    requires WellFormed(ps) && i < |ps| && row < ROWS && column < COLUMNS
    requires p == 12 * i + 4 * row + column && p < |deck0|
    requires DealtPrefix(deck0, ps, p) && deck == deck0[..|deck0| - p]
    ensures WellFormed(ps') && |ps'| == |ps| && DealtPrefix(deck0, ps', p + 1)
    ensures DropLast(deck) == deck0[..|deck0| - (p + 1)]
    ensures Dealt(ps, deck, i, row, column) == Dealt(ps', DropLast(deck), i, row, column + 1)
  {
    assert ps[i].grid[row][column] == None;
    var placed := PlaceAtGrid(ps[i].grid, Last(deck), row, column);
    assert placed.0.Ok?;
    assert Last(deck) == deck0[|deck0| - 1 - p];
    ps' := ps[i := ps[i].(grid := placed.1)];
    DealtPrefixStep(deck0, ps, p, i, row, column, ps');
  }

  lemma DealtPrefixStep(deck0: seq<Card>, ps: seq<PlayerValue>, p: nat,
                        i: nat, row: nat, column: nat, ps': seq<PlayerValue>)
    requires WellFormed(ps) && p < |deck0|
    requires i < |ps| && row < ROWS && column < COLUMNS && 12 * i + 4 * row + column == p
    requires DealtPrefix(deck0, ps, p)
    requires ps' == ps[i := ps[i].(grid := SetCell(ps[i].grid, row, column, Some(deck0[|deck0| - 1 - p])))]
    ensures WellFormed(ps') && DealtPrefix(deck0, ps', p + 1)
  {
    forall j, r, c | 0 <= j < |ps'| && 0 <= r < ROWS && 0 <= c < COLUMNS && 12 * j + 4 * r + c < p + 1
      ensures ps'[j].grid[r][c] == Some(deck0[|deck0| - 1 - (12 * j + 4 * r + c)])
    {
      if j != i {
        assert ps'[j] == ps[j];
        assert 12 * j + 4 * r + c != p;
      } else if (r, c) != (row, column) {
        assert 12 * j + 4 * r + c != p;
      }
    }
    forall j, r, c | 0 <= j < |ps'| && 0 <= r < ROWS && 0 <= c < COLUMNS && 12 * j + 4 * r + c >= p + 1
      ensures ps'[j].grid[r][c].None?
    {
      if j != i {
        assert ps'[j] == ps[j];
      } else {
        assert (r, c) != (row, column);
      }
    }
  }

  /**
   * Dealing into empty spreads: with 12 cards per player in the deck every
   * player gets a full spread, the k-th cell from the k-th card off the top,
   * and the deck loses exactly those cards; with fewer, the deal stops with
   * `DeckEmpty` after the deck runs out and the cells dealt so far keep their
   * cards. Ids and hands never change.
   */
  lemma DealIntoEmptySpreads(ps: seq<PlayerValue>, deck: seq<Card>)
    requires WellFormed(ps) && forall i :: 0 <= i < |ps| ==> ps[i].grid == EmptyGrid()
    ensures var n := 12 * |ps|; var out := Dealt(ps, deck, 0, 0, 0);
      && (|deck| >= n ==>
            out.result == Ok(()) && out.deck == deck[..|deck| - n] && Filled(ps, deck, out.players, n))
      && (|deck| < n ==>
            out.result == Err(GameStartupError.DeckEmpty) && out.deck == [] && Filled(ps, deck, out.players, |deck|))
  {
    if |deck| >= 12 * |ps| {
      DealIntoEmptyEnough(ps, deck);
    } else {
      DealIntoEmptyShort(ps, deck);
    }
  }

  lemma DealIntoEmptyEnough(ps: seq<PlayerValue>, deck: seq<Card>)
    requires WellFormed(ps) && forall i :: 0 <= i < |ps| ==> ps[i].grid == EmptyGrid()
    requires |deck| >= 12 * |ps|
    ensures var out := Dealt(ps, deck, 0, 0, 0);
      out.result == Ok(()) && out.deck == deck[..|deck| - 12 * |ps|] && Filled(ps, deck, out.players, 12 * |ps|)
  {
    DealtPrefixAtStart(ps, deck);
    DealtFromEmptyEnough(deck, ps, 0, deck, 0, 0, 0);
    DealtPrefixFilled(ps, deck, Dealt(ps, deck, 0, 0, 0).players, 12 * |ps|);
  }

  lemma DealIntoEmptyShort(ps: seq<PlayerValue>, deck: seq<Card>)
    requires WellFormed(ps) && forall i :: 0 <= i < |ps| ==> ps[i].grid == EmptyGrid()
    requires |deck| < 12 * |ps|
    ensures var out := Dealt(ps, deck, 0, 0, 0);
      out.result == Err(GameStartupError.DeckEmpty) && out.deck == [] && Filled(ps, deck, out.players, |deck|)
  {
    DealtPrefixAtStart(ps, deck);
    DealtFromEmptyShort(deck, ps, 0, deck, 0, 0, 0);
    DealtPrefixFilled(ps, deck, Dealt(ps, deck, 0, 0, 0).players, |deck|);
  }

  /** After a complete deal of face-down cards, every spread holds 12 present, face-down cards. */
  lemma FullDealIsFaceDown(ps0: seq<PlayerValue>, deck0: seq<Card>, ps: seq<PlayerValue>)
    requires WellFormed(ps0) && WellFormed(ps) && |ps| == |ps0| && 12 * |ps| <= |deck0|
    requires forall c :: c in deck0 ==> !c.flipped
    requires Filled(ps0, deck0, ps, 12 * |ps|)
    ensures forall i :: 0 <= i < |ps| ==> CardCount(ps[i].grid) == CELLS && FlippedCards(ps[i].grid) == 0
  {
    forall i | 0 <= i < |ps|
      ensures CardCount(ps[i].grid) == CELLS && FlippedCards(ps[i].grid) == 0
    {
      var s := Cells(ps[i].grid);
      forall k | 0 <= k < CELLS
        ensures Present(s[k]) && !FaceUp(s[k])
      {
        var r, c := k / 4, k % 4;
        assert 12 * i + 4 * r + c < 12 * |ps|;
        assert deck0[|deck0| - 1 - (12 * i + 4 * r + c)] in deck0;
      }
      AllPresentFaceDown(s);
    }
  }

  lemma {:induction false} AllPresentFaceDown(s: seq<Option<Card>>)
    requires forall k :: 0 <= k < |s| ==> Present(s[k]) && !FaceUp(s[k])
    ensures CountIf(s, Present) == |s| && CountIf(s, FaceUp) == 0
  {
    if s != [] {
      AllPresentFaceDown(s[1..]);
    }
  }
}
