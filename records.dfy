/** Rows of the `games` and `game_applications` tables, as values. */
module Records {
  import opened Wrappers

  /** A Telegram user id: both the creator of a game and its applicants are named by it. */
  type UserId = int
  /** The rowid of a `games` row; SQLite assigns 1, 2, 3, ... and rows are never deleted. */
  type GameId = int
  /** The rowid of a `game_applications` row, assigned the same way. */
  type AppId = int
  type CourtId = int

  /** `creator_mode`: "self" when the creator plays, "others" when they only organise. */
  datatype CreatorMode = Self | Others

  /** `game_type`: "singles" or "doubles". */
  datatype GameType = Singles | Doubles

  /** `status` of an application: "pending", "accepted" or "rejected". */
  datatype Status = Pending | Accepted | Rejected

  /** A calendar date and a time of day, as produced by the date and time parsers. */
  datatype Date = Date(day: int, month: int, year: int)
  datatype Time = Time(hour: int, minute: int)

  /** A `games` row (its `created_at` timestamp is not modelled). */
  datatype Game = Game(
    creator: UserId,
    court: CourtId,
    date: Date,
    time: Time,
    gameType: GameType,
    ratingMin: Option<real>,
    ratingMax: Option<real>,
    playersCount: int,
    comment: Option<string>,
    courtBooked: bool,
    visibility: string,
    mode: CreatorMode)

  /** A `game_applications` row (its `created_at` timestamp is not modelled). */
  datatype Application = Application(game: GameId, applicant: UserId, status: Status)

  /** The range of an SQLite INTEGER; binding a Python int outside it raises OverflowError. */
  predicate FitsInteger(x: int) {
    -0x8000_0000_0000_0000 <= x < 0x8000_0000_0000_0000
  }

  /** The integer columns of the row can be bound into the INSERT of `create_game`. */
  predicate Storable(game: Game) {
    FitsInteger(game.creator) && FitsInteger(game.court) && FitsInteger(game.playersCount)
  }

  /** The `games` table holds a row with this id. */
  predicate IsGame(games: seq<Game>, id: GameId) {
    1 <= id <= |games|
  }

  /** The row with a given id of the `games` table. */
  function GameOf(games: seq<Game>, id: GameId): Game
    requires IsGame(games, id)
  {
    games[id - 1]
  }
}
