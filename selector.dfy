/**
 * strato/src/selector.rs: `get_player`, the first player of the context, in
 * list order, whose id is the given one.
 */
module Selector {
  import opened Wrappers
  import opened Players
  import opened States

  /** `context.players.into_iter().find(|p| p.id() == id)`. */
  function GetPlayer(c: ContextValue, id: string): (r: Option<PlayerValue>)
    ensures r.Some? ==> r.value in c.players && r.value.id == id
    ensures r.None? <==> forall j :: 0 <= j < |c.players| ==> c.players[j].id != id
  {
    Find(c.players, id)
  }

  /** The first player of `ps` with this id. */
  function Find(ps: seq<PlayerValue>, id: string): (r: Option<PlayerValue>)
    ensures r.Some? ==> r.value in ps && r.value.id == id
    ensures r.None? <==> forall j :: 0 <= j < |ps| ==> ps[j].id != id
  {
    if ps == [] then None
    else if ps[0].id == id then Some(ps[0])
    else Find(ps[1..], id)
  }

  /**
   * `find` and `position` agree: the player found is the one at the first
   * index with this id, which is the lookup `get_player` and
   * `start_player_turn` in strato/src/game.rs make.
   */
  lemma {:induction false} FindIsAtPosition(ps: seq<PlayerValue>, id: string)
    ensures Find(ps, id) == if Position(ps, id).Some? then Some(ps[Position(ps, id).value]) else None
  {
    if ps != [] && ps[0].id != id {
      FindIsAtPosition(ps[1..], id);
    }
  }

  /** The first player in list order: no earlier player has the id. */
  lemma GetPlayerIsFirst(c: ContextValue, id: string)
    ensures GetPlayer(c, id).Some? ==>
      exists k :: 0 <= k < |c.players| && c.players[k] == GetPlayer(c, id).value
        && forall j :: 0 <= j < k ==> c.players[j].id != id
  {
    FindIsAtPosition(c.players, id);
  }

  /** With unique ids, looking a player up by its id finds that player. */
  lemma GetPlayerUniqueIds(c: ContextValue, i: nat)
    requires i < |c.players|
    requires forall j, k :: 0 <= j < k < |c.players| ==> c.players[j].id != c.players[k].id
    ensures GetPlayer(c, c.players[i].id) == Some(c.players[i])
  {
    FindIsAtPosition(c.players, c.players[i].id);
    PositionOfUniqueId(c.players, i);
  }
}
