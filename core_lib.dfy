/**
 * core/src/lib.rs: the first sketch of the game, a three-state machine over a
 * list of players who have only a name. Joining works only while waiting for
 * players; `start` moves to `Active` once someone has joined; nothing ever
 * enters `Ended`.
 */
module CoreLib {
  datatype GameState = WaitingForPlayers | Active | Ended

  /** `Player`: a name, copied by value. */
  datatype Player = Player(name: string)

  /** The players after `add_player`: appended while waiting, ignored otherwise. */
  function Joined(state: GameState, players: seq<Player>, player: Player): (ps: seq<Player>)
    ensures state == WaitingForPlayers ==> |ps| == |players| + 1 && ps[..|players|] == players && ps[|players|] == player
    ensures state != WaitingForPlayers ==> ps == players
  {
    if state == WaitingForPlayers then players + [player] else players
  }

  /** The state after `start`: `Active` from waiting with at least one player, otherwise as it was. */
  function Started(state: GameState, players: seq<Player>): (s: GameState)
    ensures s == Active <==> state == Active || (state == WaitingForPlayers && players != [])
    ensures s != Active ==> s == state
  {
    if state == WaitingForPlayers && |players| > 0 then Active else state
  }

  /** Starting again changes nothing: a started game stays `Active`. */
  lemma StartedIdempotent(state: GameState, players: seq<Player>)
    ensures Started(Started(state, players), players) == Started(state, players)
  {
  }

  /** Neither operation leads to `Ended`. */
  lemma NeverEnds(state: GameState, players: seq<Player>)
    requires state != Ended
    ensures Started(state, players) != Ended
  {
  }

  class StratoGame {
    var state: GameState
    var players: seq<Player>

    /** The states the operations can reach: every one but `Ended`. */
    ghost predicate Valid()
      reads this
    {
      state != Ended
    }

    /** `StratoGame::new`: waiting for players, with none. */
    constructor ()
      ensures Valid() && state == WaitingForPlayers && players == []
    {
      state := WaitingForPlayers;
      players := [];
    }

    /** `add_player`: only while waiting for players; otherwise silently ignored. */
    method AddPlayer(player: Player)
      requires Valid()
      modifies this
      ensures Valid() && state == old(state)
      ensures players == Joined(old(state), old(players), player)
    {
      if state == WaitingForPlayers {
        players := players + [player];
      }
    }

    /** `list_players`: the players, in the order they joined. */
    method ListPlayers() returns (ps: seq<Player>)
      ensures ps == players
    {
      ps := players;
    }

    /** `start`. */
    method Start()
      requires Valid()
      modifies this
      ensures Valid() && players == old(players)
      ensures state == Started(old(state), players)
    {
      if state == WaitingForPlayers && |players| > 0 {
        state := Active;
      }
    }
  }

  /**
   * What the tests of core/src/lib.rs go through: two players join, the game
   * is started several times and stays `Active`, and a third player is then
   * refused; the list keeps the first two, in order.
   */
  method StartTwiceThenJoin(a: Player, b: Player, c: Player) returns (ps: seq<Player>, s: GameState)
    ensures s == Active && ps == [a, b]
  {
    var game := new StratoGame();
    game.AddPlayer(a);
    game.AddPlayer(b);
    game.Start();
    game.Start();
    game.AddPlayer(c);
    ps := game.ListPlayers();
    s := game.state;
  }
}
