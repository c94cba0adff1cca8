/**
 * `get_game_occupancy`: how many of a game's places are taken. It is derived from the
 * rows every time it is asked for; there is no stored counter.
 */
module OccupancyEngine {
  import opened Records

  /** The place the creator takes: one in mode "self", none in mode "others". */
  function CreatorSlots(mode: CreatorMode): nat {
    if mode == Self then 1 else 0
  }

  predicate AcceptedFor(a: Application, g: GameId) {
    a.game == g && a.status == Accepted
  }

  /** `SELECT COUNT(*) FROM game_applications WHERE game_id = g AND status = 'accepted'`. */
  function CountAccepted(apps: seq<Application>, g: GameId): nat {
    if |apps| == 0 then 0
    else CountAccepted(apps[..|apps| - 1], g) + (if AcceptedFor(apps[|apps| - 1], g) then 1 else 0)
  }

  /** Reference definition of the accepted participants: the accepted rows of game g. */
  ghost function AcceptedRows(apps: seq<Application>, g: GameId): set<int> {
    set i | 0 <= i < |apps| && AcceptedFor(apps[i], g)
  }

  lemma {:induction false} CountIsAcceptedRows(apps: seq<Application>, g: GameId)
    ensures CountAccepted(apps, g) == |AcceptedRows(apps, g)|
  {
    if |apps| == 0 {
      assert AcceptedRows(apps, g) == {};
    } else {
      var n := |apps| - 1;
      CountIsAcceptedRows(apps[..n], g);
      var before := AcceptedRows(apps[..n], g);
      if AcceptedFor(apps[n], g) {
        assert AcceptedRows(apps, g) == before + {n};
      } else {
        assert AcceptedRows(apps, g) == before;
      }
    }
  }

  /**
   * `get_game_occupancy(g)` returns `(occupied, total)`: for an existing game, `occupied`
   * is the creator's place plus the number of accepted applications and `total` is
   * `players_count`; for an unknown id it is `(0, 0)`.
   */
  function Occupancy(games: seq<Game>, apps: seq<Application>, g: GameId): (r: (int, int))
    ensures !IsGame(games, g) ==> r == (0, 0)
    ensures IsGame(games, g) ==>
      r == (CreatorSlots(GameOf(games, g).mode) + |AcceptedRows(apps, g)|, GameOf(games, g).playersCount)
  {
    if IsGame(games, g) then
      CountIsAcceptedRows(apps, g);
      (CreatorSlots(GameOf(games, g).mode) + CountAccepted(apps, g), GameOf(games, g).playersCount)
    else
      (0, 0)
  }

  /** Rewriting one row changes the count only by what the old and new row contribute. */
  lemma {:induction false} CountAfterUpdate(apps: seq<Application>, i: int, a: Application, g: GameId)
    requires 0 <= i < |apps|
    ensures CountAccepted(apps[i := a], g) + (if AcceptedFor(apps[i], g) then 1 else 0)
         == CountAccepted(apps, g) + (if AcceptedFor(a, g) then 1 else 0)
  {
    var n := |apps| - 1;
    var updated := apps[i := a];
    if i == n {
      assert updated[..n] == apps[..n];
    } else {
      assert updated[..n] == apps[..n][i := a];
      CountAfterUpdate(apps[..n], i, a, g);
    }
  }

  /** Appending one row changes the count only by what that row contributes. */
  lemma CountAfterAppend(apps: seq<Application>, a: Application, g: GameId)
    ensures CountAccepted(apps + [a], g) == CountAccepted(apps, g) + (if AcceptedFor(a, g) then 1 else 0)
  {
  }

  /** A game no row refers to has no accepted participants. */
  lemma {:induction false} CountWithoutRows(apps: seq<Application>, g: GameId)
    requires forall i :: 0 <= i < |apps| ==> apps[i].game != g
    ensures CountAccepted(apps, g) == 0
  {
    if |apps| > 0 {
      CountWithoutRows(apps[..|apps| - 1], g);
    }
  }
}
