/**
 * The two table-changing operations of the bot as functions of the tables: submitting an
 * application (`apply_game_callback`) and deciding on one (`app_decision_callback`),
 * together with the store invariant they keep. `Store.Ledger` performs them in place.
 */
module Admission {
  import opened Wrappers
  import opened Records
  import opened OccupancyEngine
  import opened CallbackData

  // ---------------------------------------------------------------------------
  // The store invariant
  // ---------------------------------------------------------------------------

  /** Row `a` is an application of user `u` to game `g`. */
  predicate SamePair(a: Application, g: GameId, u: UserId) {
    a.game == g && a.applicant == u
  }

  /** Every application belongs to an existing game and none is the creator's own. */
  ghost predicate RowsWellFormed(games: seq<Game>, apps: seq<Application>) {
    forall i :: 0 <= i < |apps| ==>
      IsGame(games, apps[i].game) && apps[i].applicant != GameOf(games, apps[i].game).creator
  }

  /** At most one row per (game, applicant): a re-application reuses the row. */
  ghost predicate OneRowPerPair(apps: seq<Application>) {
    forall i, j :: 0 <= i < j < |apps| ==> !SamePair(apps[i], apps[j].game, apps[j].applicant)
  }

  /** No game has more participants than places. */
  ghost predicate WithinCapacity(games: seq<Game>, apps: seq<Application>) {
    forall g :: Occupancy(games, apps, g).0 <= Occupancy(games, apps, g).1
  }

  ghost predicate Inv(games: seq<Game>, apps: seq<Application>) {
    RowsWellFormed(games, apps) && OneRowPerPair(apps) && WithinCapacity(games, apps)
  }

  /** Tables with the same accepted counts per game show the same occupancy. */
  lemma SameOccupancy(games: seq<Game>, apps: seq<Application>, apps': seq<Application>)
    requires forall h :: CountAccepted(apps', h) == CountAccepted(apps, h)
    ensures forall g :: Occupancy(games, apps', g) == Occupancy(games, apps, g)
  {
  }

  // ---------------------------------------------------------------------------
  // Creating a game (`create_game`)
  // ---------------------------------------------------------------------------

  /**
   * Inserting a game whose creator's place fits in it keeps the invariant; the new game
   * gets the next id and starts with only the creator's place taken.
   */
  lemma {:induction false} CreatePreservesInv(games: seq<Game>, apps: seq<Application>, game: Game)
    requires Inv(games, apps)
    requires CreatorSlots(game.mode) <= game.playersCount
    ensures Inv(games + [game], apps)
    ensures Occupancy(games + [game], apps, |games| + 1) == (CreatorSlots(game.mode), game.playersCount)
  {
    var games' := games + [game];
    var id := |games| + 1;
    forall g | IsGame(games, g) ensures GameOf(games', g) == GameOf(games, g) {
    }
    forall i | 0 <= i < |apps| ensures apps[i].game != id {
    }
    CountWithoutRows(apps, id);
    forall g ensures Occupancy(games', apps, g).0 <= Occupancy(games', apps, g).1 {
      if IsGame(games, g) {
        assert Occupancy(games', apps, g) == Occupancy(games, apps, g);
      }
    }
  }

  // ---------------------------------------------------------------------------
  // Submitting an application (`apply_game_callback`)
  // ---------------------------------------------------------------------------

  datatype SubmitOutcome =
    | GameNotFound              // "Матч не найден."
    | OwnGame                   // the creator applied to their own game
    | AlreadyPending(id: AppId) // a pending row exists: left alone
    | AlreadyAccepted(id: AppId)// an accepted row exists: left alone
    | Reapplied(id: AppId)      // a rejected row was reset to pending
    | Applied(id: AppId)        // a new pending row was inserted

  /**
   * The row `SELECT id, status FROM game_applications WHERE game_id = g AND
   * applicant_id = u` fetches first, if any.
   */
  function FindApplication(apps: seq<Application>, g: GameId, u: UserId): (r: Option<AppId>)
    ensures r.None? ==> forall i :: 0 <= i < |apps| ==> !SamePair(apps[i], g, u)
    ensures r.Some? ==> 1 <= r.value <= |apps| && SamePair(apps[r.value - 1], g, u)
    ensures r.Some? ==> forall i :: 0 <= i < r.value - 1 ==> !SamePair(apps[i], g, u)
  {
    if |apps| == 0 then None
    else if SamePair(apps[0], g, u) then Some(1)
    else match FindApplication(apps[1..], g, u)
      case None => None
      case Some(k) => Some(k + 1)
  }

  /**
   * `get_game_by_id` finds the game: it exists and its court is in the `courts` table
   * (the lookup joins the two).
   */
  predicate Listed(courts: set<CourtId>, games: seq<Game>, g: GameId) {
    IsGame(games, g) && GameOf(games, g).court in courts
  }

  /** The outcome of user `u` applying to game `g`, and the applications table after it. */
  function SubmitResult(courts: set<CourtId>, games: seq<Game>, apps: seq<Application>,
                        g: GameId, u: UserId): (r: (SubmitOutcome, seq<Application>))
    ensures r.0.GameNotFound? <==> !Listed(courts, games, g)
    ensures r.0.OwnGame? <==> Listed(courts, games, g) && GameOf(games, g).creator == u
    ensures r.0.Applied? <==>
      Listed(courts, games, g) && GameOf(games, g).creator != u &&
      forall i :: 0 <= i < |apps| ==> !SamePair(apps[i], g, u)
    ensures r.0.Applied? ==> r.0.id == |apps| + 1 && r.1 == apps + [Application(g, u, Pending)]
    ensures r.0.Reapplied? ==>
      1 <= r.0.id <= |apps| && apps[r.0.id - 1] == Application(g, u, Rejected) &&
      r.1 == apps[r.0.id - 1 := Application(g, u, Pending)]
    ensures r.0.AlreadyPending? ==> 1 <= r.0.id <= |apps| && apps[r.0.id - 1] == Application(g, u, Pending)
    ensures r.0.AlreadyAccepted? ==> 1 <= r.0.id <= |apps| && apps[r.0.id - 1] == Application(g, u, Accepted)
    ensures r.1 != apps <==> r.0.Reapplied? || r.0.Applied?
  {
    if !Listed(courts, games, g) then (GameNotFound, apps)
    else if GameOf(games, g).creator == u then (OwnGame, apps)
    else
      var found := FindApplication(apps, g, u);
      if found.Some? then
        var k := found.value;
        var row := apps[k - 1];
        if row.status == Pending then (AlreadyPending(k), apps)
        else if row.status == Accepted then (AlreadyAccepted(k), apps)
        else
          assert row.status == Rejected && SamePair(row, g, u);
          var after := apps[k - 1 := row.(status := Pending)];
          assert after[k - 1] != row;
          (Reapplied(k), after)
      else
        var after := apps + [Application(g, u, Pending)];
        assert |after| != |apps|;
        (Applied(|apps| + 1), after)
  }

  /** Submission never changes any game's occupancy: it only ever writes pending rows. */
  lemma SubmitKeepsOccupancy(courts: set<CourtId>, games: seq<Game>, apps: seq<Application>,
                             g: GameId, u: UserId)
    ensures var after := SubmitResult(courts, games, apps, g, u).1;
            forall h :: Occupancy(games, after, h) == Occupancy(games, apps, h)
  {
    var (out, after) := SubmitResult(courts, games, apps, g, u);
    forall h ensures CountAccepted(after, h) == CountAccepted(apps, h) {
      match out
      case Reapplied(k) => CountAfterUpdate(apps, k - 1, Application(g, u, Pending), h);
      case Applied(_) => CountAfterAppend(apps, Application(g, u, Pending), h);
      case _ =>
    }
    SameOccupancy(games, apps, after);
  }

  /** Submission keeps every part of the invariant. */
  lemma {:induction false} SubmitPreservesInv(courts: set<CourtId>, games: seq<Game>,
                                              apps: seq<Application>, g: GameId, u: UserId)
    requires Inv(games, apps)
    ensures Inv(games, SubmitResult(courts, games, apps, g, u).1)
  {
    var (out, after) := SubmitResult(courts, games, apps, g, u);
    SubmitKeepsOccupancy(courts, games, apps, g, u);
    match out
    case Reapplied(k) =>
      assert forall i :: 0 <= i < |apps| ==>
        after[i].game == apps[i].game && after[i].applicant == apps[i].applicant;
    case Applied(_) =>
      assert forall i :: 0 <= i < |apps| ==> after[i] == apps[i];
    case _ =>
  }

  // ---------------------------------------------------------------------------
  // Deciding on an application (`app_decision_callback`)
  // ---------------------------------------------------------------------------

  datatype DecideOutcome =
    | Malformed                            // the callback data did not parse
    | NotFound                             // no such application
    | NotCreator                           // the decider is not the game's creator
    | AlreadyDecided                       // the application is no longer pending
    | NoPlaces(occupied: int, total: int)  // accept refused: the game is full
    | Admitted(occupied: int, total: int)  // accepted; occupancy after the update
    | Declined                             // rejected
    | UnknownAction                        // neither "accepted" nor "rejected"

  /**
   * The checks a decision passes before its action is looked at: the application exists
   * (joined with its game), the decider created that game, and it is still pending.
   */
  predicate MayDecide(games: seq<Game>, apps: seq<Application>, id: AppId, decider: UserId) {
    1 <= id <= |apps| && IsGame(games, apps[id - 1].game) &&
    decider == GameOf(games, apps[id - 1].game).creator && apps[id - 1].status == Pending
  }

  /** `UPDATE game_applications SET status = s WHERE id = id`. */
  function WithStatus(apps: seq<Application>, id: AppId, s: Status): seq<Application>
    requires 1 <= id <= |apps|
  {
    apps[id - 1 := apps[id - 1].(status := s)]
  }

  /**
   * A decision on application `id` once its callback data has parsed. Only a decision
   * that passes every check with action "accepted" or "rejected" writes, and then only
   * that application's status.
   */
  function DecideParsed(games: seq<Game>, apps: seq<Application>, id: AppId, action: string,
                        decider: UserId): (r: (DecideOutcome, seq<Application>))
    ensures r.1 != apps <==> r.0.Admitted? || r.0.Declined?
    ensures r.1 != apps ==>
      MayDecide(games, apps, id, decider) && (action == ACCEPT || action == REJECT) &&
      r.1 == WithStatus(apps, id, if action == ACCEPT then Accepted else Rejected)
  {
    if !(1 <= id <= |apps|) || !IsGame(games, apps[id - 1].game) then (NotFound, apps)
    else
      var app := apps[id - 1];
      if decider != GameOf(games, app.game).creator then (NotCreator, apps)
      else if app.status != Pending then (AlreadyDecided, apps)
      else if action == ACCEPT then
        var (occupied, total) := Occupancy(games, apps, app.game);
        if occupied >= total then (NoPlaces(occupied, total), apps)
        else
          var after := WithStatus(apps, id, Accepted);
          assert after[id - 1] != apps[id - 1];
          var (occupiedAfter, totalAfter) := Occupancy(games, after, app.game);
          (Admitted(occupiedAfter, totalAfter), after)
      else if action == REJECT then
        var after := WithStatus(apps, id, Rejected);
        assert after[id - 1] != apps[id - 1];
        (Declined, after)
      else (UnknownAction, apps)
  }

  /** The whole callback: parse `app_decision:{id}:{action}`, then decide. */
  function DecideResult(games: seq<Game>, apps: seq<Application>, data: string,
                        decider: UserId): (r: (DecideOutcome, seq<Application>))
    requires StartsWith(data, DECISION_ROUTE)
    ensures ParseDecision(data).None? ==> r.0.Malformed?
    ensures r.1 != apps ==>
      ParseDecision(data).Some? && MayDecide(games, apps, ParseDecision(data).value.app, decider)
  {
    match ParseDecision(data)
    case None => (Malformed, apps)
    case Some(d) => DecideParsed(games, apps, d.app, d.action, decider)
  }

  /** Accepting into a full game is refused and nothing is written. */
  lemma FullGameRefusesAccept(games: seq<Game>, apps: seq<Application>, id: AppId, decider: UserId)
    requires MayDecide(games, apps, id, decider)
    requires Occupancy(games, apps, apps[id - 1].game).0 >= Occupancy(games, apps, apps[id - 1].game).1
    ensures var o := Occupancy(games, apps, apps[id - 1].game);
            DecideParsed(games, apps, id, ACCEPT, decider) == (NoPlaces(o.0, o.1), apps)
  {
  }

  /**
   * Accepting into a game with a free place turns exactly that application from pending
   * to accepted, raises that game's occupancy by one (still within its places) and
   * leaves every other game's occupancy as it was.
   */
  lemma {:induction false} AcceptTakesOnePlace(games: seq<Game>, apps: seq<Application>,
                                               id: AppId, decider: UserId)
    requires MayDecide(games, apps, id, decider)
    requires Occupancy(games, apps, apps[id - 1].game).0 < Occupancy(games, apps, apps[id - 1].game).1
    ensures var g := apps[id - 1].game;
            var o := Occupancy(games, apps, g);
            var r := DecideParsed(games, apps, id, ACCEPT, decider);
            && r == (Admitted(o.0 + 1, o.1), WithStatus(apps, id, Accepted))
            && Occupancy(games, r.1, g) == (o.0 + 1, o.1)
            && r.0.occupied <= r.0.total
            && forall h :: h != g ==> Occupancy(games, r.1, h) == Occupancy(games, apps, h)
  {
    var g := apps[id - 1].game;
    var after := WithStatus(apps, id, Accepted);
    forall h ensures CountAccepted(after, h) ==
      CountAccepted(apps, h) + (if h == g then 1 else 0)
    {
      CountAfterUpdate(apps, id - 1, apps[id - 1].(status := Accepted), h);
    }
  }

  /**
   * Rejecting a pending application always succeeds, whatever the occupancy (also when
   * the game is full), and changes no game's occupancy.
   */
  lemma {:induction false} RejectAlwaysSucceeds(games: seq<Game>, apps: seq<Application>,
                                                id: AppId, decider: UserId)
    requires MayDecide(games, apps, id, decider)
    ensures var r := DecideParsed(games, apps, id, REJECT, decider);
            && r == (Declined, WithStatus(apps, id, Rejected))
            && forall h :: Occupancy(games, r.1, h) == Occupancy(games, apps, h)
  {
    var after := WithStatus(apps, id, Rejected);
    forall h ensures CountAccepted(after, h) == CountAccepted(apps, h) {
      CountAfterUpdate(apps, id - 1, apps[id - 1].(status := Rejected), h);
    }
    SameOccupancy(games, apps, after);
  }

  /** Every decision keeps the invariant, in particular `occupied <= total` for every game. */
  lemma {:induction false} DecidePreservesInv(games: seq<Game>, apps: seq<Application>, id: AppId,
                                              action: string, decider: UserId)
    requires Inv(games, apps)
    ensures Inv(games, DecideParsed(games, apps, id, action, decider).1)
  {
    var (out, after) := DecideParsed(games, apps, id, action, decider);
    if after != apps {
      assert forall i :: 0 <= i < |apps| ==>
        after[i].game == apps[i].game && after[i].applicant == apps[i].applicant;
      if action == ACCEPT {
        AcceptTakesOnePlace(games, apps, id, decider);
        var g := apps[id - 1].game;
        forall h ensures Occupancy(games, after, h).0 <= Occupancy(games, after, h).1 {
          if h != g {
            assert Occupancy(games, after, h) == Occupancy(games, apps, h);
          }
        }
      } else {
        RejectAlwaysSucceeds(games, apps, id, decider);
      }
    }
  }

  /** The same, for the decision as the callback receives it. */
  lemma DecideResultPreservesInv(games: seq<Game>, apps: seq<Application>, data: string, decider: UserId)
    requires Inv(games, apps) && StartsWith(data, DECISION_ROUTE)
    ensures Inv(games, DecideResult(games, apps, data, decider).1)
  {
    if ParseDecision(data).Some? {
      var d := ParseDecision(data).value;
      DecidePreservesInv(games, apps, d.app, d.action, decider);
    }
  }

  /** Once decided, deciding again (either way) reports AlreadyDecided and writes nothing. */
  lemma DecisionIsFinal(games: seq<Game>, apps: seq<Application>, id: AppId, action: string,
                        again: string, decider: UserId)
    requires DecideParsed(games, apps, id, action, decider).1 != apps
    ensures var after := DecideParsed(games, apps, id, action, decider).1;
            DecideParsed(games, after, id, again, decider) == (AlreadyDecided, after)
  {
  }

  /**
   * Two pending applications to a game with one free place: whichever is accepted first
   * gets it, and accepting the other one afterwards is refused as full.
   */
  lemma {:induction false} LastPlaceGoesToOne(games: seq<Game>, apps: seq<Application>,
                                              first: AppId, second: AppId, decider: UserId)
    requires first != second
    requires MayDecide(games, apps, first, decider) && MayDecide(games, apps, second, decider)
    requires apps[first - 1].game == apps[second - 1].game
    requires var o := Occupancy(games, apps, apps[first - 1].game); o.0 + 1 == o.1
    ensures var o := Occupancy(games, apps, apps[first - 1].game);
            var r1 := DecideParsed(games, apps, first, ACCEPT, decider);
            && r1.0 == Admitted(o.1, o.1)
            && DecideParsed(games, r1.1, second, ACCEPT, decider) == (NoPlaces(o.1, o.1), r1.1)
  {
    AcceptTakesOnePlace(games, apps, first, decider);
    var after := WithStatus(apps, first, Accepted);
    assert after[second - 1] == apps[second - 1];
    assert MayDecide(games, after, second, decider);
  }

  /**
   * A game whose court is not in the catalogue is invisible to `get_game_by_id` (its join
   * on `courts` finds no row): applying to it answers "not found" and writes nothing.
   */
  lemma UncataloguedCourtRefusesApplications(courts: set<CourtId>, games: seq<Game>,
                                             apps: seq<Application>, g: GameId, u: UserId)
    requires IsGame(games, g) && GameOf(games, g).court !in courts
    ensures SubmitResult(courts, games, apps, g, u) == (GameNotFound, apps)
  {
  }

  // ---------------------------------------------------------------------------
  // Dispatching a button press to its handler
  // ---------------------------------------------------------------------------

  datatype CallbackOutcome =
    | Submitted(submitted: SubmitOutcome)  // handled by `apply_game_callback`
    | BadGameId                            // `int(...)` raised on the game id: nothing read or written
    | Decided(decided: DecideOutcome)      // handled by `app_decision_callback`
    | Unhandled                            // no handler's filter matches the data

  /**
   * A button press as the dispatcher routes it. Both callback handlers are registered
   * without a state, so they only fire for a presser with no dialogue running (`idle`).
   * Then data starting with "apply_game:" goes to the application handler, data starting
   * with "app_decision:" to the decision handler, anything else to no handler. Only a
   * routed press can write to `applications`.
   */
  function Route(courts: set<CourtId>, games: seq<Game>, apps: seq<Application>,
                 data: string, user: UserId, idle: bool): (r: (CallbackOutcome, seq<Application>))
    ensures !idle ==> r == (Unhandled, apps)
    ensures r.0.Submitted? || r.0.BadGameId? <==> idle && StartsWith(data, APPLY_ROUTE)
    ensures r.0.Decided? <==> idle && StartsWith(data, DECISION_ROUTE)
    ensures r.0.Unhandled? || r.0.BadGameId? ==> r.1 == apps
    ensures r.0.Submitted? ==>
      ParseApply(data).Some? &&
      (r.0.submitted, r.1) == SubmitResult(courts, games, apps, ParseApply(data).value, user)
    ensures r.0.Decided? ==> (r.0.decided, r.1) == DecideResult(games, apps, data, user)
  {
    assert StartsWith(data, DECISION_ROUTE) ==> !StartsWith(data, APPLY_ROUTE) by {
      if StartsWith(data, DECISION_ROUTE) {
        assert data[3] == DECISION_ROUTE[3];
      }
    }
    if !idle then
      (Unhandled, apps)
    else if StartsWith(data, APPLY_ROUTE) then
      match ParseApply(data)
      case None => (BadGameId, apps)
      case Some(g) =>
        var res := SubmitResult(courts, games, apps, g, user);
        (Submitted(res.0), res.1)
    else if StartsWith(data, DECISION_ROUTE) then
      var res := DecideResult(games, apps, data, user);
      (Decided(res.0), res.1)
    else
      (Unhandled, apps)
  }

  /** Whatever button is pressed, the table invariant survives. */
  lemma RoutePreservesInv(courts: set<CourtId>, games: seq<Game>, apps: seq<Application>,
                          data: string, user: UserId, idle: bool)
    requires Inv(games, apps)
    ensures Inv(games, Route(courts, games, apps, data, user, idle).1)
  {
    if !idle {
    } else if StartsWith(data, APPLY_ROUTE) {
      if ParseApply(data).Some? {
        SubmitPreservesInv(courts, games, apps, ParseApply(data).value, user);
      }
    } else if StartsWith(data, DECISION_ROUTE) {
      DecideResultPreservesInv(games, apps, data, user);
    }
  }
}
