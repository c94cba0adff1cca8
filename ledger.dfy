/**
 * The two tables the bot writes, held in one object whose methods update them in place
 * the way the handlers' INSERT and UPDATE statements do. Each method's new state is the
 * one the matching function of `Admission` gives, and every method keeps `Valid()`,
 * which includes `occupied <= total` for every game.
 */
module Store {
  import opened Wrappers
  import opened Records
  import opened OccupancyEngine
  import opened CallbackData
  import opened Admission

  class Ledger {
    /** The ids in the `courts` table, which this core reads and never writes. */
    const courts: set<CourtId>
    /** The `games` table; the game with id k is `games[k - 1]`. */
    var games: seq<Game>
    /** The `game_applications` table; the application with id k is `apps[k - 1]`. */
    var apps: seq<Application>

    ghost predicate Valid()
      reads this
    {
      Inv(games, apps)
    }

    constructor (courts: set<CourtId>)
      ensures this.courts == courts && games == [] && apps == [] && Valid()
    {
      this.courts := courts;
      games := [];
      apps := [];
    }

    /**
     * `create_game`: insert a row into `games` and return its new id. A creator or court
     * id outside SQLite's integer range makes the driver raise before anything is
     * written; that is the `None` result.
     */
    method CreateGame(game: Game) returns (id: Option<GameId>)
      requires Valid()
      requires CreatorSlots(game.mode) <= game.playersCount
      modifies this
      ensures Valid() && apps == old(apps)
      ensures id.Some? <==> Storable(game)
      ensures !Storable(game) ==> games == old(games)
      ensures Storable(game) ==>
        && games == old(games) + [game] && id == Some(|games|)
        && Occupancy(games, apps, id.value) == (CreatorSlots(game.mode), game.playersCount)
    {
      if !Storable(game) {
        return None;
      }
      CreatePreservesInv(games, apps, game);
      games := games + [game];
      id := Some(|games|);
    }

    /**
     * `apply_game_callback`: user `applicant` asks to join game `gameId`. Capacity is
     * not looked at: an application can always be filed.
     */
    method Submit(gameId: GameId, applicant: UserId) returns (outcome: SubmitOutcome)
      requires Valid()
      modifies this
      ensures Valid() && games == old(games)
      ensures (outcome, apps) == SubmitResult(courts, old(games), old(apps), gameId, applicant)
    {
      SubmitPreservesInv(courts, games, apps, gameId, applicant);
      if !Listed(courts, games, gameId) {
        return GameNotFound;
      }
      if GameOf(games, gameId).creator == applicant {
        return OwnGame;
      }
      var existing := FindApplication(apps, gameId, applicant);
      if existing.Some? {
        var id := existing.value;
        var status := apps[id - 1].status;
        if status == Pending {
          return AlreadyPending(id);
        } else if status == Accepted {
          return AlreadyAccepted(id);
        }
        apps := apps[id - 1 := apps[id - 1].(status := Pending)];
        outcome := Reapplied(id);
      } else {
        apps := apps + [Application(gameId, applicant, Pending)];
        outcome := Applied(|apps|);
      }
    }

    /**
     * `app_decision_callback`: user `decider` pressed a button carrying `data`. The
     * occupancy is derived afresh from the table before an accept.
     */
    method Decide(data: string, decider: UserId) returns (outcome: DecideOutcome)
      requires Valid() && StartsWith(data, DECISION_ROUTE)
      modifies this
      ensures Valid() && games == old(games)
      ensures (outcome, apps) == DecideResult(old(games), old(apps), data, decider)
    {
      DecideResultPreservesInv(games, apps, data, decider);
      var parsed := ParseDecision(data);
      if parsed.None? {
        return Malformed;
      }
      var id, action := parsed.value.app, parsed.value.action;
      if !(1 <= id <= |apps|) || !IsGame(games, apps[id - 1].game) {
        return NotFound;
      }
      var app := apps[id - 1];
      if decider != GameOf(games, app.game).creator {
        return NotCreator;
      }
      if app.status != Pending {
        return AlreadyDecided;
      }
      if action == ACCEPT {
        var (occupied, total) := Occupancy(games, apps, app.game);
        if occupied >= total {
          return NoPlaces(occupied, total);
        }
        apps := apps[id - 1 := app.(status := Accepted)];
        var (occupiedAfter, totalAfter) := Occupancy(games, apps, app.game);
        outcome := Admitted(occupiedAfter, totalAfter);
      } else if action == REJECT {
        apps := apps[id - 1 := app.(status := Rejected)];
        outcome := Declined;
      } else {
        outcome := UnknownAction;
      }
    }

    /**
     * A button press, dispatched by its data to the handler whose filter it matches;
     * `idle` says whether the presser has no dialogue running.
     */
    method HandleCallback(data: string, user: UserId, idle: bool) returns (outcome: CallbackOutcome)
      requires Valid()
      modifies this
      ensures Valid() && games == old(games)
      ensures (outcome, apps) == Route(courts, old(games), old(apps), data, user, idle)
    {
      if !idle {
        outcome := Unhandled;
      } else if StartsWith(data, APPLY_ROUTE) {
        var gameId := ParseApply(data);
        if gameId.None? {
          return BadGameId;
        }
        var submitted := Submit(gameId.value, user);
        outcome := Submitted(submitted);
      } else if StartsWith(data, DECISION_ROUTE) {
        var decided := Decide(data, user);
        outcome := Decided(decided);
      } else {
        outcome := Unhandled;
      }
    }
  }
}
