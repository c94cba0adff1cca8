# Tennis match bot: admission and occupancy, in Dafny

This project models the core of a Telegram bot that organises tennis matches. A
creator publishes a game for 2 (singles) or 4 (doubles) players, either playing in
it ("self") or only organising it ("others"). Other users file join applications,
and the creator accepts or rejects them one at a time. An application can always be
filed. An accept is refused once the game is full, so a game never has more
participants than places.

The database tables `games` and `game_applications` are sequences of rows, in rowid
order (row k has id k, ids start at 1 and rows are never deleted).

- `OccupancyEngine` (`occupancy.dfy`): `get_game_occupancy` as a pure function of the
  rows. It is proved equal to the creator's place plus the size of the set of accepted
  rows of the game.
- `Admission` (`admission.dfy`): submission and decision as functions from the tables
  to an outcome and the new applications table. It also holds the store invariant:
  - every row belongs to an existing game and no row is the creator's own;
  - there is at most one row per (game, applicant);
  - `occupied <= total` for every game.
  The lemmas prove each operation keeps the invariant, and prove what each outcome does.
- `Store` (`ledger.dfy`): class `Ledger`, whose methods `CreateGame`, `Submit`,
  `Decide` and `HandleCallback` (the dispatcher in front of the last two) perform the handlers' INSERT and UPDATE statements in place. Each method
  keeps `Valid()` (the invariant) and its new state is the one `Admission` specifies.
- `Wizard` (`wizard.dfy`): the creation dialogue. `Advance` is the pure step function,
  with lemmas about step order, cancelling, validation and game creation. The class
  `Conversation` holds one user's dialogue state, and its `HandleMessage` inserts the
  game into a `Ledger` at the comment step.
- `CallbackData` (`callback_data.dfy`): the button payloads `apply_game:{id}` and
  `app_decision:{id}:{action}`, with Python's `str.split(":")`, `str(n)` and `int(s)`.
  Each payload is proved to parse back to what was encoded.

The code has no game cancellation, no game status, no rating ranges chosen by the
creator, no scheduling horizon, no decision timestamps and no per-game locking of
accepts, so neither does the model. Decisions are modelled one after another.

Looking up a game for an application joins it with the `courts` table, but the dialogue
accepts any numeric court id. So a game whose court is not catalogued cannot be applied
to: such a submission gets `GameNotFound` (`Admission.Listed`,
`Admission.UncataloguedCourtRefusesApplications`).

SQLite stores integers in 64 bits. A creator or court id outside that range makes the
INSERT of `create_game` raise: no game is written and the dialogue stays at the comment
step (`Records.Storable`).

## Model

| member | source | states |
|---|---|---|
| `OccupancyEngine.Occupancy` | bot.py:245-280 | for an existing game: (creator's place if mode is "self" + number of accepted rows of that game, players_count); (0, 0) for an unknown id |
| `OccupancyEngine.CountIsAcceptedRows` | bot.py:267-277 | the COUNT query equals the size of the set of accepted rows of the game |
| `Admission.CreatePreservesInv` | bot.py:140-187 | inserting a game keeps the invariant; the new game gets the next id and starts at (creator's place, players_count) |
| `Admission.FindApplication` | bot.py:604-613 | finds the first row of the (game, applicant) pair, or reports that no row of that pair exists |
| `Admission.SubmitResult` | bot.py:587-641 | outcomes: unknown or uncatalogued game → not found; creator → refused; pending or accepted row → left alone; rejected row → same id reset to pending; no row → new pending row with the next id. Only the last two write. Occupancy is never consulted |
| `Admission.SubmitKeepsOccupancy` | bot.py:616-639 | a submission changes no game's occupancy |
| `Admission.SubmitPreservesInv` | bot.py:597-639 | a submission keeps one row per pair, no creator rows, rows tied to games, and `occupied <= total` |
| `Admission.DecideParsed` | bot.py:708-811 | the table changes iff the outcome is Admitted or Declined. Then all guards passed (application exists, decider is the creator, status pending, action "accepted" or "rejected") and only that row's status changed |
| `Admission.DecideResult` | bot.py:692-706 | for data the decision handler receives (it starts with "app_decision:"): malformed data gives Malformed; any write needs the data to parse and the guards to pass |
| `Admission.FullGameRefusesAccept` | bot.py:742-752 | accept when occupied >= total gives NoPlaces(occupied, total); the table is unchanged |
| `Admission.AcceptTakesOnePlace` | bot.py:754-761 | accept with a free place turns that row to accepted. That game's occupancy rises by exactly one and stays <= total; other games are unchanged |
| `Admission.RejectAlwaysSucceeds` | bot.py:784-789 | reject of a pending application succeeds whatever the occupancy (full included), sets the row to rejected and changes no occupancy |
| `Admission.DecidePreservesInv` | bot.py:692-811 | every decision keeps the invariant, in particular `occupied <= total` |
| `Admission.DecideResultPreservesInv` | bot.py:701-811 | the same for raw callback data |
| `Admission.DecisionIsFinal` | bot.py:737-740 | after a decision, deciding on the same application again gives AlreadyDecided and writes nothing |
| `Admission.UncataloguedCourtRefusesApplications` | bot.py:225-242 | applying to an existing game whose court is not in the `courts` table answers "not found" and writes nothing |
| `Admission.Route` | bot.py:587-589 | a press from a user with a dialogue running reaches no handler (both handlers are registered without a state) and writes nothing; otherwise data starting with "apply_game:" reaches the application handler (as `SubmitResult` of its parsed id, or a raised `int` with no write); data starting with "app_decision:" reaches the decision handler (as `DecideResult`); other data reaches neither and writes nothing |
| `Admission.RoutePreservesInv` | bot.py:587-811 | any button press keeps the invariant |
| `Admission.LastPlaceGoesToOne` | bot.py:742-758 | with one free place and two pending applications, the first accept is admitted and the second accept is then refused as full |
| `Store.Ledger.CreateGame` | bot.py:140-187 | appends the game and returns its id when its integers fit SQLite's 64-bit range; otherwise writes nothing and returns no id. Keeps `Valid()`; the new game starts at (creator's place, players_count) |
| `Store.Ledger.Submit` | bot.py:587-641 | updates the table in place as `SubmitResult` says and keeps `Valid()` |
| `Store.Ledger.HandleCallback` | bot.py:587-589 | drops a press from a user with a dialogue running, otherwise dispatches the button press and updates the table in place as `Route` says, keeping `Valid()` |
| `Store.Ledger.Decide` | bot.py:692-811 | parses the data, re-derives occupancy before an accept, updates in place as `DecideResult` says and keeps `Valid()` |
| `CallbackData.Split` | bot.py:702 | `str.split` gives at least one piece, no piece holds the separator, and joining the pieces gives the input back |
| `CallbackData.SplitJoin` | bot.py:702 | splitting a join of separator-free pieces gives the pieces back |
| `CallbackData.IntRoundTrip` | bot.py:703 | `int(str(n)) == n` for every integer |
| `CallbackData.ParseApply` | bot.py:589 | a game id is only read from data holding a ':' |
| `CallbackData.ParseDecision` | bot.py:702-703 | a decision is only read from data holding a ':', and its action never holds one |
| `CallbackData.ApplyRoundTrip` | bot.py:576 | `apply_game:{id}` parses back to id |
| `CallbackData.DecisionRoundTrip` | bot.py:679-683 | `app_decision:{id}:{action}` parses back to (id, action) for any action without ':' |
| `Wizard.ModeOfLabel` | bot.py:370-376 | "Создаю игру для себя" gives self, "Создаю игру для других" gives others, and no other text gives a mode |
| `Wizard.CommentOf` | bot.py:490 | "-" gives no comment; any other text is the comment itself |
| `Wizard.GameTypeOfLabel` | bot.py:463-471 | text starting with "Одиночка" gives (singles, 2) and text starting with "Пары" gives (doubles, 4); other text is refused |
| `Wizard.GameTypeButtons` | bot.py:321-325 | the two keyboard buttons map to (singles, 2) and (doubles, 4) |
| `Wizard.Advance` | bot.py:351-538 | keeps the session well-formed (it holds exactly the answers of earlier steps). A created game has the sender as creator, integers SQLite can store, and 2 or 4 places, more than the creator takes |
| `Wizard.StepsInOrder` | bot.py:361-538 | each message re-prompts (nothing changes), advances one step in the fixed order, or ends the dialogue with nothing kept. A game is created iff the step is the comment step, the text is not "Отмена" and the game's integers fit SQLite's range |
| `Wizard.CancelDiscards` | bot.py:363-368 | "Отмена" at any step returns to idle with no answers kept and no game |
| `Wizard.CourtMustBeNumber` | bot.py:396-400 | a non-numeric court id re-prompts with nothing changed; a numeral is recorded and the dialogue moves to the date |
| `Wizard.CommentStepCreates` | bot.py:482-537 | the comment step inserts the game built from the collected answers ("-" gives no comment, no rating range, court not booked, "public") and ends the dialogue; if the creator or court id is outside SQLite's integer range the insert raises, nothing is created and the dialogue stays at the comment step |
| `Wizard.AtMostOneGamePerDialogue` | bot.py:351-538 | over any message sequence, no more games are created than dialogues were running at the start or opened by the start button pressed while idle |
| `Wizard.CompleteDialogue` | bot.py:351-538 | a dialogue answered correctly at every step creates exactly one game, with those answers, and ends idle; when an id is outside SQLite's range it creates nothing and waits at the comment step with all answers |
| `Wizard.Conversation.Finish` | bot.py:366 | `state.finish()`: the dialogue is idle with no answers kept |
| `Wizard.Conversation.HandleMessage` | bot.py:361-538 | changes the session as `Advance` says. At the comment step it inserts the game into the ledger and returns its id; otherwise the ledger is unchanged |

## Left out

- Telegram I/O: replies, alerts, keyboards and the notifications to creator and applicant, with their try/except blocks. None of them change the tables.
- SQLite plumbing: connections, the schema (`init_db`), `last_insert_rowid` (ids are positions) and the `created_at` timestamps, including the timestamp refresh on re-application.
- Concurrency: the occupancy check and the UPDATE of an accept are separate, unguarded steps in the code. The model runs decisions one after another, so it does not capture two concurrent accepts overfilling a game.
- Date and time parsing (`datetime.strptime`): passed to the dialogue as the parameters `parseDate` and `parseTime`.
- Text normalisation: messages are taken as already stripped (`str.strip`). `str.isdigit` and `int` are modelled on ASCII digits only. `int` is modelled with an optional sign, without surrounding whitespace or digit-group underscores.
- `Store.Ledger.Submit`: takes the already-parsed game id; `Ledger.HandleCallback` parses it with `CallbackData.ParseApply`. On unparsable data the handler raises before reading or writing anything, which the model reports as `BadGameId`.
- Ids outside SQLite's 64-bit range in button data: binding one in a query raises in the source before anything is written. The model looks such an id up like any other; it matches no row unless a table holds more than 2^63 rows.
- The schema of `games` (bot.py:66) reads `INTEGER PRIMARY PRIMARY KEY AUTOINCREMENT`, with the keyword doubled; the model assumes the evidently intended auto-incrementing id column.
- `Store.Ledger.CreateGame`: requires the creator's place to fit in the game. SQL would accept any count; the dialogue, its only caller, always passes 2 or 4.
- `Admission.FindApplication`: returns the first matching row. The query has no ORDER BY; under the invariant at most one row matches.
- `cmd_start`, `create_user_if_not_exists`, `get_courts`, `get_games_for_listing` and `list_games`: user onboarding and read-only listing. The `courts` table appears only as the constant set `Ledger.courts`.
- The `rating`, `players_count` and `confirm` dialogue states are declared but never entered. Rating range, court booking and visibility are fixed in the code at creation.
