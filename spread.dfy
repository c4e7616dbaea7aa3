/**
 * `PlayerSpread` of strato/src/card.rs: the fixed 3x4 grid of optional cards in
 * front of each player, its bounds-checked cell operations, column clearing and
 * its score and visibility queries. core/src/game.rs and core/src/player.rs
 * use the same spread.
 *
 * The grid operations are specified by pure functions on a `Grid` value; the
 * class `PlayerSpread` holds the grid as a field and its methods are proved
 * against those functions.
 */
module Spread {
  import opened Wrappers
  import opened Cards

  const ROWS: nat := 3
  const COLUMNS: nat := 4
  const CELLS: nat := 12

  /** `[[Option<Card>; 4]; 3]`, row-major. */
  type Grid = seq<seq<Option<Card>>>

  predicate IsGrid(g: Grid)
  {
    |g| == ROWS && forall r :: 0 <= r < ROWS ==> |g[r]| == COLUMNS
  }

  /** The name of the operation a bounds error reports (`"take"`, `"place"`, `"flip"`). */
  datatype SpreadOp = TakeOp | PlaceOp | FlipOp

  datatype SpreadActionError =
    | RowDoesntExist(op: SpreadOp)
    | ColumnDoesntExist(op: SpreadOp)
    | NoCardFound
    | SpotTaken
    | CardAlreadyFlipped

  // ---------------------------------------------------------------------------
  // Grid values
  // ---------------------------------------------------------------------------

  /** `PlayerSpread::new`: twelve empty cells. */
  function EmptyGrid(): (g: Grid)
    ensures IsGrid(g)
    ensures forall r, c :: 0 <= r < ROWS && 0 <= c < COLUMNS ==> g[r][c].None?
  {
    seq(ROWS, r => seq(COLUMNS, c => None))
  }

  /** The grid with cell (r, c) replaced by `x` and every other cell kept. */
  function SetCell(g: Grid, r: nat, c: nat, x: Option<Card>): (g': Grid)
    requires IsGrid(g) && r < ROWS && c < COLUMNS
    ensures IsGrid(g') && g'[r][c] == x
    ensures forall r', c' :: 0 <= r' < ROWS && 0 <= c' < COLUMNS && (r', c') != (r, c) ==> g'[r'][c'] == g[r'][c']
  {
    g[r := g[r][c := x]]
  }

  /** The twelve cells in row-major order, as `iter().flatten()` yields them. */
  function Cells(g: Grid): (s: seq<Option<Card>>)
    requires IsGrid(g)
    ensures |s| == CELLS
    ensures forall k :: 0 <= k < CELLS ==> s[k] == g[k / 4][k % 4]
  {
    g[0] + g[1] + g[2]
  }

  predicate Present(x: Option<Card>)
  {
    x.Some?
  }

  predicate FaceUp(x: Option<Card>)
  {
    x.Some? && x.value.flipped
  }

  /** What a cell adds to `score`: a present, face-up card's value, else 0. */
  function CellScore(x: Option<Card>): int
  {
    if FaceUp(x) then ToInt(x.value.value) else 0
  }

  function Ind(b: bool): nat
  {
    if b then 1 else 0
  }

  /** How many cells satisfy `p` (`filter(..).count()`). */
  function CountIf(s: seq<Option<Card>>, p: Option<Card> -> bool): (n: nat)
    ensures n <= |s|
  {
    if s == [] then 0 else Ind(p(s[0])) + CountIf(s[1..], p)
  }

  /** The sum of the cells' scores. */
  function SumScores(s: seq<Option<Card>>): int
  {
    if s == [] then 0 else CellScore(s[0]) + SumScores(s[1..])
  }

  // ---------------------------------------------------------------------------
  // Queries (`view`, `active_columns`, `remaining_cards`, `flipped_cards`,
  // `is_all_flipped`, `score`)
  // ---------------------------------------------------------------------------

  /**
   * `PlayerSpread::view`: always 3x4, and a cell shows a value exactly when
   * it holds a face-up card, and then it shows that card's value.
   */
  function View(g: Grid): (v: seq<seq<Option<CardValue>>>)
    requires IsGrid(g)
    ensures |v| == ROWS && forall r :: 0 <= r < ROWS ==> |v[r]| == COLUMNS
    ensures forall r, c :: 0 <= r < ROWS && 0 <= c < COLUMNS ==>
      (v[r][c].Some? <==> FaceUp(g[r][c])) && (v[r][c].Some? ==> v[r][c].value == g[r][c].value.value)
  {
    seq(ROWS, r requires 0 <= r < ROWS =>
      seq(COLUMNS, c requires 0 <= c < COLUMNS =>
        if g[r][c].Some? then g[r][c].value.GetValue() else None))
  }

  /** `PlayerSpread::active_columns`: the present cards of the first row. */
  function ActiveColumns(g: Grid): (n: nat)
    requires IsGrid(g)
    ensures n <= COLUMNS
  {
    CountIf(g[0], Present)
  }

  /** `remaining_cards().count()`: the present cards. */
  function CardCount(g: Grid): (n: nat)
    requires IsGrid(g)
    ensures n <= CELLS
  {
    CountIf(Cells(g), Present)
  }

  /** `PlayerSpread::flipped_cards`: the present, face-up cards. */
  function FlippedCards(g: Grid): (n: nat)
    requires IsGrid(g)
    ensures n <= CELLS
  {
    CountIf(Cells(g), FaceUp)
  }

  /** `PlayerSpread::is_all_flipped`: every present card is face-up. */
  predicate IsAllFlipped(g: Grid)
    requires IsGrid(g)
  {
    forall r, c :: 0 <= r < ROWS && 0 <= c < COLUMNS && g[r][c].Some? ==> g[r][c].value.flipped
  }

  /** `PlayerSpread::score`: the sum of the values of present, face-up cards. */
  function Score(g: Grid): int
    requires IsGrid(g)
  {
    SumScores(Cells(g))
  }

  // ---------------------------------------------------------------------------
  // Cell operations
  // ---------------------------------------------------------------------------

  /** The bounds checks shared by the three cell operations, in their order. */
  function CheckBounds(row: nat, column: nat, op: SpreadOp): (r: Result<(), SpreadActionError>)
    ensures r.Ok? <==> row < ROWS && column < COLUMNS
    ensures row >= ROWS ==> r == Err(RowDoesntExist(op))
    ensures row < ROWS && column >= COLUMNS ==> r == Err(ColumnDoesntExist(op))
  {
    if row >= ROWS then Err(RowDoesntExist(op))
    else if column >= COLUMNS then Err(ColumnDoesntExist(op))
    else Ok(())
  }

  /**
   * `PlayerSpread::take_from` on a grid value: the result and the new grid.
   * Errors come in the order row, column, empty cell and leave the grid as it
   * was; success hands out the card and leaves the cell empty.
   */
  function TakeFromGrid(g: Grid, row: nat, column: nat): (out: (Result<Card, SpreadActionError>, Grid))
    requires IsGrid(g)
    ensures IsGrid(out.1)
    ensures out.0.Err? ==> out.1 == g
    ensures row >= ROWS ==> out.0 == Err(RowDoesntExist(TakeOp))
    ensures row < ROWS && column >= COLUMNS ==> out.0 == Err(ColumnDoesntExist(TakeOp))
    ensures row < ROWS && column < COLUMNS && g[row][column].None? ==> out.0 == Err(NoCardFound)
    ensures out.0.Ok? <==> row < ROWS && column < COLUMNS && g[row][column].Some?
    ensures out.0.Ok? ==> row < ROWS && column < COLUMNS && g[row][column] == Some(out.0.value)
                          && out.1 == SetCell(g, row, column, None)
  {
    match CheckBounds(row, column, TakeOp)
    case Err(e) => (Err(e), g)
    case Ok(_) =>
      if g[row][column].None? then (Err(NoCardFound), g)
      else (Ok(g[row][column].value), SetCell(g, row, column, None))
  }

  /**
   * `PlayerSpread::place_at` on a grid value. Errors come in the order row,
   * column, occupied cell and leave the grid as it was; success puts the card,
   * unchanged, into the cell and nowhere else.
   */
  function PlaceAtGrid(g: Grid, card: Card, row: nat, column: nat): (out: (Result<(), SpreadActionError>, Grid))
    requires IsGrid(g)
    ensures IsGrid(out.1)
    ensures out.0.Err? ==> out.1 == g
    ensures row >= ROWS ==> out.0 == Err(RowDoesntExist(PlaceOp))
    ensures row < ROWS && column >= COLUMNS ==> out.0 == Err(ColumnDoesntExist(PlaceOp))
    ensures row < ROWS && column < COLUMNS && g[row][column].Some? ==> out.0 == Err(SpotTaken)
    ensures out.0.Ok? <==> row < ROWS && column < COLUMNS && g[row][column].None?
    ensures out.0.Ok? ==> out.1 == SetCell(g, row, column, Some(card))
  {
    match CheckBounds(row, column, PlaceOp)
    case Err(e) => (Err(e), g)
    case Ok(_) =>
      if g[row][column].Some? then (Err(SpotTaken), g)
      else (Ok(()), SetCell(g, row, column, Some(card)))
  }

  /**
   * `PlayerSpread::flip_at` on a grid value. Errors come in the order row,
   * column, empty cell, already face-up and leave the grid as it was; success
   * turns that one card face-up and keeps its value.
   */
  function FlipAtGrid(g: Grid, row: nat, column: nat): (out: (Result<(), SpreadActionError>, Grid))
    requires IsGrid(g)
    ensures IsGrid(out.1)
    ensures out.0.Err? ==> out.1 == g
    ensures row >= ROWS ==> out.0 == Err(RowDoesntExist(FlipOp))
    ensures row < ROWS && column >= COLUMNS ==> out.0 == Err(ColumnDoesntExist(FlipOp))
    ensures row < ROWS && column < COLUMNS && g[row][column].None? ==> out.0 == Err(NoCardFound)
    ensures row < ROWS && column < COLUMNS && FaceUp(g[row][column]) ==> out.0 == Err(CardAlreadyFlipped)
    ensures out.0.Ok? <==> row < ROWS && column < COLUMNS && Present(g[row][column]) && !FaceUp(g[row][column])
    ensures out.0.Ok? ==> out.1 == SetCell(g, row, column, Some(Card(g[row][column].value.value, true)))
  {
    match CheckBounds(row, column, FlipOp)
    case Err(e) => (Err(e), g)
    case Ok(_) =>
      if g[row][column].None? then (Err(NoCardFound), g)
      else if g[row][column].value.flipped then (Err(CardAlreadyFlipped), g)
      else (Ok(()), SetCell(g, row, column, Some(g[row][column].value.Flip())))
  }

  /** All three cards of the column are present and face-up and they are equal. */
  predicate ColumnMatches(g: Grid, column: nat)
    requires IsGrid(g) && column < COLUMNS
  {
    && (forall r :: 0 <= r < ROWS ==> FaceUp(g[r][column]))
    && (forall r :: 0 <= r < ROWS ==> g[r][column] == g[0][column])
  }

  /**
   * `PlayerSpread::remove_column_if_matches` on a grid value: the column is
   * emptied when it matches and the grid is unchanged otherwise; the other
   * columns never change.
   */
  function RemoveColumnGrid(g: Grid, column: nat): (g': Grid)
    requires IsGrid(g) && column < COLUMNS
    ensures IsGrid(g')
    ensures !ColumnMatches(g, column) ==> g' == g
    ensures ColumnMatches(g, column) ==> forall r :: 0 <= r < ROWS ==> g'[r][column].None?
    ensures forall r, c :: 0 <= r < ROWS && 0 <= c < COLUMNS && c != column ==> g'[r][c] == g[r][c]
  {
    if ColumnMatches(g, column) then
      SetCell(SetCell(SetCell(g, 0, column, None), 1, column, None), 2, column, None)
    else g
  }

  // ---------------------------------------------------------------------------
  // Counting lemmas
  // ---------------------------------------------------------------------------

  lemma {:induction false} CountIfUpdate(s: seq<Option<Card>>, k: nat, x: Option<Card>, p: Option<Card> -> bool)
    requires k < |s|
    ensures CountIf(s[k := x], p) == CountIf(s, p) - Ind(p(s[k])) + Ind(p(x))
  {
    if k > 0 {
      assert s[k := x][1..] == s[1..][k - 1 := x];
      CountIfUpdate(s[1..], k - 1, x, p);
    } else {
      assert s[k := x][1..] == s[1..];
    }
  }

  lemma {:induction false} SumScoresUpdate(s: seq<Option<Card>>, k: nat, x: Option<Card>)
    requires k < |s|
    ensures SumScores(s[k := x]) == SumScores(s) - CellScore(s[k]) + CellScore(x)
  {
    if k > 0 {
      assert s[k := x][1..] == s[1..][k - 1 := x];
      SumScoresUpdate(s[1..], k - 1, x);
    } else {
      assert s[k := x][1..] == s[1..];
    }
  }

  /** Writing a cell twice leaves the second value. */
  lemma SetCellTwice(g: Grid, r: nat, c: nat, x: Option<Card>, y: Option<Card>)
    requires IsGrid(g) && r < ROWS && c < COLUMNS
    ensures SetCell(SetCell(g, r, c, x), r, c, y) == SetCell(g, r, c, y)
  {
    assert SetCell(g, r, c, x)[r][c := y] == g[r][c := y];
  }

  lemma CellsSetCell(g: Grid, r: nat, c: nat, x: Option<Card>)
    requires IsGrid(g) && r < ROWS && c < COLUMNS
    ensures Cells(SetCell(g, r, c, x)) == Cells(g)[4 * r + c := x]
  {
    var a, b := Cells(SetCell(g, r, c, x)), Cells(g)[4 * r + c := x];
    forall k | 0 <= k < CELLS
      ensures a[k] == b[k]
    {
      if k == 4 * r + c {
        assert k / 4 == r && k % 4 == c;
      }
    }
  }

  /** Replacing one cell changes the counts and the score by that cell alone. */
  lemma SetCellCounts(g: Grid, r: nat, c: nat, x: Option<Card>)
    requires IsGrid(g) && r < ROWS && c < COLUMNS
    ensures CardCount(SetCell(g, r, c, x)) == CardCount(g) - Ind(Present(g[r][c])) + Ind(Present(x))
    ensures FlippedCards(SetCell(g, r, c, x)) == FlippedCards(g) - Ind(FaceUp(g[r][c])) + Ind(FaceUp(x))
    ensures Score(SetCell(g, r, c, x)) == Score(g) - CellScore(g[r][c]) + CellScore(x)
  {
    CellsSetCell(g, r, c, x);
    var k := 4 * r + c;
    assert Cells(g)[k] == g[r][c] by {
      assert k / 4 == r && k % 4 == c;
    }
    CountIfUpdate(Cells(g), k, x, Present);
    CountIfUpdate(Cells(g), k, x, FaceUp);
    SumScoresUpdate(Cells(g), k, x);
  }

  lemma {:induction false} FaceUpAtMostPresent(s: seq<Option<Card>>)
    ensures CountIf(s, FaceUp) <= CountIf(s, Present)
    ensures CountIf(s, FaceUp) == CountIf(s, Present) <==> forall k :: 0 <= k < |s| && Present(s[k]) ==> FaceUp(s[k])
  {
    if s != [] {
      FaceUpAtMostPresent(s[1..]);
      if forall k :: 0 <= k < |s| && Present(s[k]) ==> FaceUp(s[k]) {
        assert forall k :: 0 <= k < |s[1..]| && Present(s[1..][k]) ==> FaceUp(s[1..][k]) by {
          forall k | 0 <= k < |s[1..]| && Present(s[1..][k])
            ensures FaceUp(s[1..][k])
          {
            assert s[1..][k] == s[k + 1];
          }
        }
      } else {
        var k :| 0 <= k < |s| && Present(s[k]) && !FaceUp(s[k]);
        if k > 0 {
          assert s[1..][k - 1] == s[k];
        }
      }
    }
  }

  lemma {:induction false} SumScoresBounds(s: seq<Option<Card>>)
    ensures -2 * CountIf(s, FaceUp) <= SumScores(s) <= 12 * CountIf(s, FaceUp)
  {
    if s != [] {
      SumScoresBounds(s[1..]);
    }
  }

  /**
   * The score lies between -2 and 12 per face-up card; in particular a spread
   * with nothing face-up scores 0.
   */
  lemma ScoreBounds(g: Grid)
    requires IsGrid(g)
    ensures -2 * FlippedCards(g) <= Score(g) <= 12 * FlippedCards(g)
    ensures FlippedCards(g) == 0 ==> Score(g) == 0
  {
    SumScoresBounds(Cells(g));
  }

  /** `is_all_flipped` holds exactly when every present card is counted by `flipped_cards`. */
  lemma AllFlippedIffCounts(g: Grid)
    requires IsGrid(g)
    ensures FlippedCards(g) <= CardCount(g)
    ensures IsAllFlipped(g) <==> FlippedCards(g) == CardCount(g)
  {
    var s := Cells(g);
    FaceUpAtMostPresent(s);
    if IsAllFlipped(g) {
      forall k | 0 <= k < |s| && Present(s[k])
        ensures FaceUp(s[k])
      {
        assert s[k] == g[k / 4][k % 4];
      }
    }
    if FlippedCards(g) == CardCount(g) {
      forall r, c | 0 <= r < ROWS && 0 <= c < COLUMNS && g[r][c].Some?
        ensures g[r][c].value.flipped
      {
        var k := 4 * r + c;
        assert k / 4 == r && k % 4 == c;
        assert s[k] == g[r][c];
      }
    }
  }

  /** A fresh spread: no cards, score 0, no active columns, and vacuously all flipped. */
  lemma EmptyGridQueries()
    ensures CardCount(EmptyGrid()) == 0 && FlippedCards(EmptyGrid()) == 0
    ensures Score(EmptyGrid()) == 0 && ActiveColumns(EmptyGrid()) == 0
    ensures IsAllFlipped(EmptyGrid())
  {
    NoCardsCounts(Cells(EmptyGrid()));
    NoCardsCounts(EmptyGrid()[0]);
  }

  /** A run of empty cells counts no card and scores nothing. */
  lemma {:induction false} NoCardsCounts(s: seq<Option<Card>>)
    requires forall k :: 0 <= k < |s| ==> s[k].None?
    ensures CountIf(s, Present) == 0 && CountIf(s, FaceUp) == 0 && SumScores(s) == 0
  {
    if s != [] {
      NoCardsCounts(s[1..]);
    }
  }

  /** A full spread has four active columns. */
  lemma FullGridActiveColumns(g: Grid)
    requires IsGrid(g) && CardCount(g) == CELLS
    ensures ActiveColumns(g) == COLUMNS
  {
    var s := Cells(g);
    assert s == g[0] + (g[1] + g[2]);
    CountIfAppend(g[0], g[1] + g[2], Present);
    assert CountIf(g[1] + g[2], Present) <= 8;
  }

  lemma {:induction false} CountIfAppend(a: seq<Option<Card>>, b: seq<Option<Card>>, p: Option<Card> -> bool)
    ensures CountIf(a + b, p) == CountIf(a, p) + CountIf(b, p)
  {
    if a != [] {
      assert (a + b)[1..] == a[1..] + b;
      CountIfAppend(a[1..], b, p);
    } else {
      assert a + b == b;
    }
  }

  // ---------------------------------------------------------------------------
  // Lemmas about the cell operations
  // ---------------------------------------------------------------------------

  /** Taking a card and placing it back where it was restores the grid. */
  lemma TakeThenPlaceRestores(g: Grid, row: nat, column: nat)
    requires IsGrid(g)
    requires TakeFromGrid(g, row, column).0.Ok?
    ensures PlaceAtGrid(TakeFromGrid(g, row, column).1, TakeFromGrid(g, row, column).0.value, row, column) == (Ok(()), g)
  {
    var t := TakeFromGrid(g, row, column);
    GridExtensional(PlaceAtGrid(t.1, t.0.value, row, column).1, g);
  }

  /** Placing into an empty cell and taking from it again gives the card back and the old grid. */
  lemma PlaceThenTakeRestores(g: Grid, card: Card, row: nat, column: nat)
    requires IsGrid(g)
    requires PlaceAtGrid(g, card, row, column).0.Ok?
    ensures TakeFromGrid(PlaceAtGrid(g, card, row, column).1, row, column) == (Ok(card), g)
  {
    var p := PlaceAtGrid(g, card, row, column);
    GridExtensional(TakeFromGrid(p.1, row, column).1, g);
  }

  /**
   * The card counts each operation changes: a take removes one present card,
   * a placement adds one, a flip turns one present card face-up and adds its
   * value to the score.
   */
  lemma CellOperationCounts(g: Grid, card: Card, row: nat, column: nat)
    requires IsGrid(g)
    ensures TakeFromGrid(g, row, column).0.Ok? ==>
      CardCount(TakeFromGrid(g, row, column).1) == CardCount(g) - 1
    ensures PlaceAtGrid(g, card, row, column).0.Ok? ==>
      CardCount(PlaceAtGrid(g, card, row, column).1) == CardCount(g) + 1
    ensures FlipAtGrid(g, row, column).0.Ok? ==>
      && CardCount(FlipAtGrid(g, row, column).1) == CardCount(g)
      && FlippedCards(FlipAtGrid(g, row, column).1) == FlippedCards(g) + 1
      && Score(FlipAtGrid(g, row, column).1) == Score(g) + ToInt(g[row][column].value.value)
  {
    TakeCounts(g, row, column);
    PlaceCounts(g, card, row, column);
    FlipCounts(g, row, column);
  }

  lemma TakeCounts(g: Grid, row: nat, column: nat)
    requires IsGrid(g)
    ensures TakeFromGrid(g, row, column).0.Ok? ==>
      CardCount(TakeFromGrid(g, row, column).1) == CardCount(g) - 1
  {
    if row < ROWS && column < COLUMNS {
      SetCellCounts(g, row, column, None);
    }
  }

  lemma PlaceCounts(g: Grid, card: Card, row: nat, column: nat)
    requires IsGrid(g)
    ensures PlaceAtGrid(g, card, row, column).0.Ok? ==>
      CardCount(PlaceAtGrid(g, card, row, column).1) == CardCount(g) + 1
  {
    if row < ROWS && column < COLUMNS {
      SetCellCounts(g, row, column, Some(card));
    }
  }

  lemma FlipCounts(g: Grid, row: nat, column: nat)
    requires IsGrid(g)
    ensures FlipAtGrid(g, row, column).0.Ok? ==>
      && CardCount(FlipAtGrid(g, row, column).1) == CardCount(g)
      && FlippedCards(FlipAtGrid(g, row, column).1) == FlippedCards(g) + 1
      && Score(FlipAtGrid(g, row, column).1) == Score(g) + ToInt(g[row][column].value.value)
  {
    if row < ROWS && column < COLUMNS && g[row][column].Some? {
      SetCellCounts(g, row, column, Some(g[row][column].value.Flip()));
    }
  }

  /** A successful flip reveals exactly that cell in the view. */
  lemma FlipRevealsOneCell(g: Grid, row: nat, column: nat)
    requires IsGrid(g) && FlipAtGrid(g, row, column).0.Ok?
    ensures View(FlipAtGrid(g, row, column).1)[row][column] == Some(g[row][column].value.value)
    ensures View(g)[row][column] == None
    ensures forall r, c :: 0 <= r < ROWS && 0 <= c < COLUMNS && (r, c) != (row, column) ==>
      View(FlipAtGrid(g, row, column).1)[r][c] == View(g)[r][c]
  {
  }

  /**
   * The view hides face-down cards: two grids with the same face-up cards in
   * the same places look the same, whatever their face-down cards are.
   */
  lemma ViewHidesFaceDown(g: Grid, h: Grid)
    requires IsGrid(g) && IsGrid(h)
    requires forall r, c :: 0 <= r < ROWS && 0 <= c < COLUMNS ==>
      FaceUp(g[r][c]) == FaceUp(h[r][c]) && (FaceUp(g[r][c]) ==> g[r][c] == h[r][c])
    ensures View(g) == View(h)
  {
    var v, w := View(g), View(h);
    forall r | 0 <= r < ROWS
      ensures v[r] == w[r]
    {
      forall c | 0 <= c < COLUMNS
        ensures v[r][c] == w[r][c]
      {
      }
    }
  }

  /**
   * Clearing a matching column removes its three cards, their values from the
   * score and one active column.
   */
  lemma RemoveColumnCounts(g: Grid, column: nat)
    requires IsGrid(g) && column < COLUMNS && ColumnMatches(g, column)
    ensures CardCount(RemoveColumnGrid(g, column)) == CardCount(g) - 3
    ensures FlippedCards(RemoveColumnGrid(g, column)) == FlippedCards(g) - 3
    ensures Score(RemoveColumnGrid(g, column)) == Score(g) - 3 * ToInt(g[0][column].value.value)
    ensures ActiveColumns(RemoveColumnGrid(g, column)) == ActiveColumns(g) - 1
  {
    var g1 := SetCell(g, 0, column, None);
    var g2 := SetCell(g1, 1, column, None);
    SetCellCounts(g, 0, column, None);
    SetCellCounts(g1, 1, column, None);
    SetCellCounts(g2, 2, column, None);
    assert g1[0] == g[0][column := None];
    CountIfUpdate(g[0], column, None, Present);
    assert RemoveColumnGrid(g, column)[0] == g1[0];
  }

  // ---------------------------------------------------------------------------
  // The spread object
  // ---------------------------------------------------------------------------

  /** `PlayerSpread([[Option<Card>; 4]; 3])`, updated in place. */
  class PlayerSpread {
    var grid: Grid

    ghost predicate Valid()
      reads this
    {
      IsGrid(grid)
    }

    /** `PlayerSpread::new`. */
    constructor ()
      ensures Valid() && grid == EmptyGrid()
    {
      grid := EmptyGrid();
    }

    /** `PlayerSpread::take_from`. */
    method TakeFrom(row: nat, column: nat) returns (r: Result<Card, SpreadActionError>)
      requires Valid()
      modifies this
      ensures Valid()
      ensures (r, grid) == TakeFromGrid(old(grid), row, column)
    {
      if row >= ROWS {
        return Err(RowDoesntExist(TakeOp));
      }
      if column >= COLUMNS {
        return Err(ColumnDoesntExist(TakeOp));
      }
      var cell := grid[row][column];
      if cell.None? {
        return Err(NoCardFound);
      }
      grid := grid[row := grid[row][column := None]];
      return Ok(cell.value);
    }

    /** `PlayerSpread::place_at`. */
    method PlaceAt(card: Card, row: nat, column: nat) returns (r: Result<(), SpreadActionError>)
      requires Valid()
      modifies this
      ensures Valid()
      ensures (r, grid) == PlaceAtGrid(old(grid), card, row, column)
    {
      if row >= ROWS {
        return Err(RowDoesntExist(PlaceOp));
      }
      if column >= COLUMNS {
        return Err(ColumnDoesntExist(PlaceOp));
      }
      if grid[row][column].Some? {
        return Err(SpotTaken);
      }
      grid := grid[row := grid[row][column := Some(card)]];
      return Ok(());
    }

    /** `PlayerSpread::flip_at`. */
    method FlipAt(row: nat, column: nat) returns (r: Result<(), SpreadActionError>)
      requires Valid()
      modifies this
      ensures Valid()
      ensures (r, grid) == FlipAtGrid(old(grid), row, column)
    {
      if row >= ROWS {
        return Err(RowDoesntExist(FlipOp));
      }
      if column >= COLUMNS {
        return Err(ColumnDoesntExist(FlipOp));
      }
      var cell := grid[row][column];
      if cell.None? {
        return Err(NoCardFound);
      }
      if cell.value.flipped {
        return Err(CardAlreadyFlipped);
      }
      grid := grid[row := grid[row][column := Some(cell.value.Flip())]];
      return Ok(());
    }

    /**
     * `PlayerSpread::remove_column_if_matches`. A column past the grid
     * panics at the `unwrap` of the first value, hence the precondition.
     */
    method RemoveColumnIfMatches(column: nat) returns (r: Result<(), SpreadActionError>)
      requires Valid() && column < COLUMNS
      modifies this
      ensures Valid() && r == Ok(())
      ensures grid == RemoveColumnGrid(old(grid), column)
    {
      var values := [grid[0][column], grid[1][column], grid[2][column]];
      if exists k :: 0 <= k < ROWS && values[k].None? {
        return Ok(());
      }
      if exists k :: 0 <= k < ROWS && !values[k].value.flipped {
        return Ok(());
      }
      var firstValue := values[0].value;
      var columnMatches := forall k :: 0 <= k < ROWS ==> values[k].value == firstValue;
      if columnMatches {
        ghost var start := grid;
        var row := 0;
        while row < ROWS
          invariant 0 <= row <= ROWS && IsGrid(grid)
          invariant forall r, c :: 0 <= r < ROWS && 0 <= c < COLUMNS ==>
            grid[r][c] == if r < row && c == column then None else start[r][c]
        {
          grid := grid[row := grid[row][column := None]];
          row := row + 1;
        }
        assert ColumnMatches(start, column) by {
          assert forall k :: 0 <= k < ROWS ==> start[k][column] == values[k];
        }
        GridExtensional(grid, RemoveColumnGrid(start, column));
      } else {
        assert !ColumnMatches(grid, column) by {
          var k :| 0 <= k < ROWS && values[k].value != firstValue;
          assert grid[k][column] != grid[0][column];
        }
      }
      return Ok(());
    }
  }

  lemma GridExtensional(g: Grid, h: Grid)
    requires IsGrid(g) && IsGrid(h)
    requires forall r, c :: 0 <= r < ROWS && 0 <= c < COLUMNS ==> g[r][c] == h[r][c]
    ensures g == h
  {
    forall r | 0 <= r < ROWS
      ensures g[r] == h[r]
    {
    }
  }
}
