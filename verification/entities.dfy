/** The records the backend sends, as the pages read them. */
module Entities {
  import opened Wrappers

  /** A game: `_id`, the two teams, its week, its status ("scheduled", "live", "final")
      and whether it is the Monday Night Football game. */
  datatype Game = Game(
    id: string,
    awayTeam: string,
    homeTeam: string,
    week: int,
    status: string,
    isMondayNight: bool)

  /** The populated `userId` of a pick. In corrupted records `_id` is missing or empty. */
  datatype UserRef = UserRef(id: Option<string>, name: Option<string>)

  /** A pick with its user and game populated, as the admin and view-picks endpoints return
      it. `gameId` holds the game object itself (or nothing), not the game's id. */
  datatype Pick = Pick(
    id: string,
    userId: Option<UserRef>,
    gameId: Option<Game>,
    week: int,
    selectedTeam: string,
    isCorrect: Option<bool>,
    lastEditedBy: Option<string>,
    lastEditedAt: Option<string>,
    editReason: Option<string>)
}
