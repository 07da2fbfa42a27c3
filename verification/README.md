# NFL pick'em client: data shaping, in Dafny

This project models the logic of the React client of an NFL pick'em league. Players pick a
winner for each game of a week and enter a Monday Night Football tiebreaker. They see
everyone's picks for games that are live or final, and they follow a leaderboard. An admin
edits, adds and deletes picks on players' behalf and overrides game scores.

The model covers five parts:

- `WeekUtils` (`week_utils.dfy`): the current NFL week, from a clock reading and the season
  start, both in milliseconds.
- `AdminDashboard` (`admin_dashboard.dfy`): how the admin's local pick list is updated
  after an edit, a creation or a deletion; the week and user filters of the picks grid and
  the content of each grid cell; the score-override form. The dashboard's state is the
  class `AdminDashboard.AdminState`.
- `MakePicks` (`make_picks.dfy`): loading a week's existing picks and the tiebreaker into the
  pick sheet, recording picks and scores, the submit checks and the payload, and the
  deadline lock. The sheet is the class `MakePicks.PickSheet`.
- `ViewPicks` (`view_picks.dfy`): extracting the week's games from the week's picks
  (`ViewPicks.CollectGames`, a loop over the picks that fills a map), keeping live and final
  games, the picks and tallies per game, and the badges. The page's state is the class
  `ViewPicks.PicksView`.
- `Leaderboard` (`leaderboard.dfy`): the endpoint, the rank icons and colours, the ranked
  rows, and the top and lowest scores.

Shared modules:

- `Entities` holds the game, user and pick records as the API returns them. `Pick.userId`
  and `Pick.gameId` are the populated user and game objects, or nothing.
- `Seqs` holds `filter`, `find` and `findIndex` over sequences, with their properties.
- `Strings` holds `startsWith` and the decimal rendering of integers, with its read-back.
- `Wrappers` holds `Option` and `Result`.

The clock, the confirm dialog and the backend's answers are parameters of the operations.
Most requests the page sends (a pick edit, a pick creation, a score override, a submission)
are returned as values. The reloads and navigation that follow some of them are listed under
"Left out".

JavaScript's truthiness is written out where the code relies on it. For example, `x || d`
replaces both a missing value and an empty string (or 0) by `d`.

## Model

| member | source | states |
|---|---|---|
| WeekUtils.WeekFromDays | src/utils/weekUtils.js:22-25 | the week is always between 1 and 18 |
| WeekUtils.CurrentNFLWeek | src/utils/weekUtils.js:5-28 | the week is between 1 and 18, and it is 1 before the season start |
| WeekUtils.WeekDuringSeason | src/utils/weekUtils.js:22-25 | for 0 to 118 elapsed days the week is the number of whole weeks elapsed plus one |
| WeekUtils.WeekAfterSeason | src/utils/weekUtils.js:22-25 | from day 119 on the week is 18 |
| WeekUtils.LowerClampRedundant | src/utils/weekUtils.js:23 | for a non-negative day count the lower clamp to 1 never changes the week |
| WeekUtils.ElapsedDaysMonotone | src/utils/weekUtils.js:19-21 | the floored count of elapsed days never decreases as time passes |
| WeekUtils.WeekFromDaysMonotone | src/utils/weekUtils.js:22-25 | more elapsed days never give an earlier week |
| WeekUtils.CurrentNFLWeekMonotone | src/utils/weekUtils.js:14-25 | for a fixed season start, a later clock reading never gives an earlier week |
| WeekUtils.CurrentNFLWeekFromElapsedDays | src/utils/weekUtils.js:19-25 | after the start, the week is days/7+1 up to day 118, then 18 |
| AdminDashboard.EditReasonFor | src/pages/AdminDashboard.js:69 | the reason is never empty; it is the edited pick's own non-empty reason, else "Admin edit" |
| AdminDashboard.ApplyEdit | src/pages/AdminDashboard.js:77-89 | length and order are kept; picks with the id take the team and the returned edit fields; all others are unchanged |
| AdminDashboard.RemovePick | src/pages/AdminDashboard.js:137 | the result keeps the original order, and keeps every pick whose id differs as often as it occurs, dropping every pick with the id |
| AdminDashboard.ApplyEditIdempotent | src/pages/AdminDashboard.js:77-89 | applying the same edit twice equals applying it once |
| AdminDashboard.RemoveAfterEdit | src/pages/AdminDashboard.js:77-137 | deleting a pick after editing it gives the same list as deleting it unedited |
| AdminDashboard.RemoveAfterAppend | src/pages/AdminDashboard.js:120-137 | deleting a just-created pick restores the other picks exactly |
| AdminDashboard.WeekGames | src/pages/AdminDashboard.js:184-202 | the result keeps the original order, and keeps every game of the selected week as often as it occurs, and no other game |
| AdminDashboard.UserPicksForWeek | src/pages/AdminDashboard.js:204-268 | the result keeps the original order, and keeps every pick with a valid user id equal to the user's and the selected week as often as it occurs, and no other pick |
| AdminDashboard.GameById | src/pages/AdminDashboard.js:270-272 | a found game is in the list with that id, and no earlier game has the id; nothing is found only when no game has the id |
| AdminDashboard.HasUserId | src/pages/AdminDashboard.js:233 | a pick passing the check has a user with a non-empty id, so the second filter can read it; a pick without a user fails |
| AdminDashboard.FirstStop | src/pages/AdminDashboard.js:551-553 | the cell's `find` stops at the first pick with no game object or with the column's game id |
| AdminDashboard.CellFor | src/pages/AdminDashboard.js:551-591 | "Add Pick" exactly when every pick has a game object for another game; a shown pick is the first match; a render error (which takes the whole page down, see `AdminState.Grid`) is a missing game object read first |
| AdminDashboard.CellShowsUsersPick | src/pages/AdminDashboard.js:550-591 | a pick shown in a cell belongs to the row's user, the selected week and the column's game |
| AdminDashboard.ValidateScoreOverride | src/pages/AdminDashboard.js:157-171 | no request exactly when a score is empty; otherwise the request carries the form's game and scores, and the reason defaults to "Admin score override" |
| AdminDashboard.CreateDisabled | src/pages/AdminDashboard.js:766 | "Create Pick" is enabled exactly when a non-empty team has been chosen |
| AdminDashboard.AdminState.constructor | src/pages/AdminDashboard.js:34-57 | the loaded users, games and picks, with every modal closed |
| AdminDashboard.AdminState.BeginEdit | src/pages/AdminDashboard.js:59-61 | the edit form holds the pick |
| AdminDashboard.AdminState.SavePick | src/pages/AdminDashboard.js:67-103 | the request carries the team and the edit reason; on success the list is `ApplyEdit` of the old list and the form closes; on failure nothing changes |
| AdminDashboard.AdminState.EditTeam | src/pages/AdminDashboard.js:656-661 | the open edit form takes the chosen team; its other fields are kept |
| AdminDashboard.AdminState.EditReason | src/pages/AdminDashboard.js:681-686 | the open edit form takes the typed reason, which is what a save then sends unless it is empty |
| AdminDashboard.AdminState.CancelEdit | src/pages/AdminDashboard.js:693 | the edit form closes |
| AdminDashboard.AdminState.BeginAddPick | src/pages/AdminDashboard.js:63-65 | the add form holds the cell's user, game and week |
| AdminDashboard.AdminState.ChooseTeam | src/pages/AdminDashboard.js:739-743 | the open add form takes the chosen team; "Create Pick" stays disabled exactly for the empty placeholder |
| AdminDashboard.AdminState.CancelAdd | src/pages/AdminDashboard.js:759 | the add form closes |
| AdminDashboard.AdminState.SaveNewPick | src/pages/AdminDashboard.js:105-128 | with no open form nothing is sent; otherwise the request carries the form, the season and the fixed reason; the created pick is appended at the end and the form closes |
| AdminDashboard.AdminState.DeletePick | src/pages/AdminDashboard.js:130-143 | a request is made exactly when confirmed; the list is `RemovePick` of the old list after a successful delete, and unchanged otherwise |
| AdminDashboard.AdminState.Grid | src/pages/AdminDashboard.js:516-594 | the page fails to render exactly when some cell of the grid throws; otherwise it shows one row per user and one cell per game of the selected week, each cell being `CellFor` of that user's picks for the week and that game |
| AdminDashboard.AdminState.BeginScoreOverride | src/pages/AdminDashboard.js:145-155 | the form holds the game's id, teams and week, with empty scores and reason |
| AdminDashboard.AdminState.EditScoreForm | src/pages/AdminDashboard.js:799-848 | the form's scores and reason take the new inputs; its game fields are kept |
| AdminDashboard.AdminState.SaveScoreOverride | src/pages/AdminDashboard.js:157-182 | the request is `ValidateScoreOverride` of the form; the form closes only after a request that succeeded |
| MakePicks.ExistingPickMap | src/pages/MakePicks.js:72-75 | every loaded value is a team |
| MakePicks.ExistingPickMapKeys | src/pages/MakePicks.js:72-75 | the keys are exactly the game ids of the existing picks |
| MakePicks.ExistingPickMapLastWins | src/pages/MakePicks.js:73-75 | for a game picked several times, the last pick's team is loaded |
| MakePicks.CollectExistingPicks | src/pages/MakePicks.js:72-75 | the loop builds `ExistingPickMap` of the picks |
| MakePicks.MondayNightPick | src/pages/MakePicks.js:79-83 | none exactly when no pick's game is the Monday-night game; a found pick is the first one whose game is |
| MakePicks.SplitCombinedScore | src/pages/MakePicks.js:113-120 | the halves add up to the total, and home exceeds away by 0 or 1 |
| MakePicks.WithTiebreaker | src/pages/MakePicks.js:88-122 | game keys are untouched; explicit scores load as they are; else a non-zero combined score is split; else nothing changes |
| MakePicks.ScoreInput | src/pages/MakePicks.js:374-382 | non-numeric input stores 0; a number is stored exactly when it lies in 0..100, and unchanged |
| MakePicks.SelectedGames | src/pages/MakePicks.js:146-148 | exactly the sheet's keys other than "mondayNightScore" |
| MakePicks.GameKeys | src/pages/MakePicks.js:172 | exactly the sheet's keys that do not start with "mondayNight"; so neither tiebreaker key nor the combined-score key |
| MakePicks.HasMondayNightGame | src/pages/MakePicks.js:157 | true exactly when a `find` for a Monday-night game succeeds |
| MakePicks.TiebreakerTotal | src/pages/MakePicks.js:177-181 | a total is sent exactly when both scores are present, and it is away plus home |
| MakePicks.ScoreOrNull | src/pages/MakePicks.js:182-183 | a score is sent exactly when it is present and non-zero, and then it is the stored score |
| MakePicks.EndpointFor | src/pages/MakePicks.js:186-197 | update exactly when the user already has picks this week, submit exactly when not |
| MakePicks.PrepareSubmission | src/pages/MakePicks.js:145-206 | "no picks" exactly when no key but the combined score is set; "missing tiebreaker" exactly when there is a Monday-night game and a score is missing; otherwise one entry per non-"mondayNight" key, carrying its team, the week and the tiebreaker fields |
| MakePicks.SubmitDisabled | src/pages/MakePicks.js:434-438 | disabled exactly while submitting or while fewer non-"mondayNight" keys are set than games are shown |
| MakePicks.IsGameLocked | src/pages/MakePicks.js:208-211 | never locked without a deadline; otherwise locked exactly once the clock is past it |
| MakePicks.LockIsPermanent | src/pages/MakePicks.js:208-211 | a locked game stays locked later |
| MakePicks.GameKeysAreSelected | src/pages/MakePicks.js:146-172 | every key sent in the payload also counts for the "no picks" check |
| MakePicks.EnabledSubmitHasEveryGame | src/pages/MakePicks.js:434-438 | with the button enabled and games shown, "no picks" cannot occur, and the payload has at least one entry per game shown |
| MakePicks.TiebreakerOnlySheetSubmitsNothing | src/pages/MakePicks.js:146-172 | every sheet whose keys all start with "mondayNight" and that holds both scores passes the checks with an empty payload; the button is disabled whenever games are shown |
| MakePicks.TiebreakerOnlySheetExample | src/pages/MakePicks.js:146-172 | one such sheet, with one game that is not on Monday night |
| MakePicks.PickSheet.constructor | src/pages/MakePicks.js:8-14 | an empty sheet for week 1, not submitting |
| MakePicks.PickSheet.Load | src/pages/MakePicks.js:56-136 | games and deadline are taken from the response; no existing picks clears the sheet; otherwise the picks are `WithTiebreaker` of the loaded picks, or are kept when the games are missing and the lookup throws |
| MakePicks.PickSheet.HandlePick | src/pages/MakePicks.js:138-143 | the game's key takes the team; every other key is unchanged |
| MakePicks.PickSheet.Submit | src/pages/MakePicks.js:145-206 | the result is `PrepareSubmission` of the current sheet, games, existing picks and week |
| MakePicks.PickSheet.EnterScore | src/pages/MakePicks.js:374-407 | the score key takes `ScoreInput` of the input when that is defined; otherwise nothing changes |
| ViewPicks.UniqueGames | src/pages/ViewPicks.js:30-37 | no more games than picks, and every game is the game object of some pick |
| ViewPicks.CollectGames | src/pages/ViewPicks.js:30-37 | the loop over the picks yields `UniqueGames` of the picks |
| ViewPicks.UniqueGamesDistinct | src/pages/ViewPicks.js:30-37 | no two extracted games share an id |
| ViewPicks.UniqueGamesComplete | src/pages/ViewPicks.js:31-35 | every pick with a game object has its game's id among the extracted games |
| ViewPicks.UniqueGamesFirstPick | src/pages/ViewPicks.js:32-34 | each extracted game is the game object of the first pick with its id |
| ViewPicks.UniqueGamesInFirstPickOrder | src/pages/ViewPicks.js:30-37 | the extracted games are ordered by the position of their first pick |
| ViewPicks.RelevantGames | src/pages/ViewPicks.js:47-49 | the result keeps the original order, and keeps every live or final game as often as it occurs, and no other game |
| ViewPicks.StrictEqualsId | src/pages/ViewPicks.js:73 | strict equality between a pick's game object (or nothing) and an id string never holds |
| ViewPicks.GamePicks | src/pages/ViewPicks.js:72-74 | as written: the result keeps the picks' order |
| ViewPicks.GamePicksAlwaysEmpty | src/pages/ViewPicks.js:72-74 | as written, no pick is ever listed under a game |
| ViewPicks.GamePicksMissesMatchingPick | src/pages/ViewPicks.js:72-74 | a pick for game "g1" is missing from "g1"'s list, and the corrected filter lists it |
| ViewPicks.GamePicksById | src/pages/ViewPicks.js:72-74 | corrected: the picks' order is kept, and the result keeps every pick whose game has the id as often as it occurs, and no other pick |
| ViewPicks.Tally | src/pages/ViewPicks.js:150-155 | each tally is the number of the game's picks that chose that team, and at most the number of picks |
| ViewPicks.TeamCount | src/pages/ViewPicks.js:150-155 | filtering by a team keeps as many picks as chose that team |
| ViewPicks.TallyBound | src/pages/ViewPicks.js:150-155 | when the teams differ, the away and home tallies add up to at most the number of picks |
| ViewPicks.CorrectedTallyCountsPick | src/pages/ViewPicks.js:149-155 | with the corrected filter, a pick for the game counts in the tally of the team it chose |
| ViewPicks.TallyAsWrittenIsZero | src/pages/ViewPicks.js:149-155 | as written, both tallies are always zero |
| ViewPicks.PickStatus | src/pages/ViewPicks.js:76-85 | "Correct" exactly for a final game with a correct pick, "Incorrect" exactly for a final game with an incorrect pick, "Pending" otherwise, each with its colour |
| ViewPicks.GameStatusColor | src/pages/ViewPicks.js:87-96 | final and live have their own colours; every other status gets the yellow default |
| ViewPicks.GameStatusLabel | src/pages/ViewPicks.js:175-179 | "Final" and "Live" for those statuses, "Scheduled" for every other |
| ViewPicks.BadgeAgreesWithLabel | src/pages/ViewPicks.js:175-179 | the badge's colour and label always name the same state |
| ViewPicks.FinalizedCount | src/pages/ViewPicks.js:286 | the count is the number of final games shown: at most the number of games, and 0 exactly when none is final |
| ViewPicks.FinalCount | src/pages/ViewPicks.js:286 | filtering by the "final" status keeps as many games as are final |
| ViewPicks.PicksView.constructor | src/pages/ViewPicks.js:5-6 | no games and no picks |
| ViewPicks.PicksView.Load | src/pages/ViewPicks.js:17-70 | after a response, the picks are its body (empty when missing) and the games are the live or final `UniqueGames` of them; a failed request changes nothing |
| Leaderboard.Endpoint | src/pages/Leaderboard.js:16-19 | the overall endpoint exactly in "overall" mode; otherwise the weekly prefix followed by the week in JavaScript's decimal form (digits, no leading zero, a minus sign only when negative), which reads back as the week |
| Leaderboard.WeeklyEndpointReadsBack | src/pages/Leaderboard.js:19 | a weekly endpoint differs from the overall one and its suffix reads back as the week |
| Leaderboard.EndpointSuffixIsRendering | src/pages/Leaderboard.js:19 | the weekly suffix is exactly the week's decimal rendering |
| Leaderboard.EndpointDistinguishesWeeks | src/pages/Leaderboard.js:16-19 | different weeks are fetched from different endpoints |
| Leaderboard.NextLeaderboard | src/pages/Leaderboard.js:14-32 | a failed request keeps the list; a missing `leaderboard` gives the empty list; otherwise the response's list |
| Leaderboard.RankIcon | src/pages/Leaderboard.js:34-39 | the three medals for ranks 1 to 3; otherwise "#" followed by the rank in JavaScript's decimal form, which reads back as the rank |
| Leaderboard.RankIconInjective | src/pages/Leaderboard.js:34-39 | different ranks have different icons |
| Leaderboard.RankColor | src/pages/Leaderboard.js:41-46 | its own colour for each of ranks 1, 2 and 3, and grey exactly for every other rank |
| Leaderboard.Rows | src/pages/Leaderboard.js:151-157 | one row per entry in response order, with rank index + 1 and that rank's icon and colour |
| Leaderboard.RowsRankedInOrder | src/pages/Leaderboard.js:151-157 | the ranks shown are 1..n, strictly increasing, and no two rows share an icon |
| Leaderboard.TopScore | src/pages/Leaderboard.js:237 | the first entry's points, 0 when missing or when the list is empty |
| Leaderboard.LowestScore | src/pages/Leaderboard.js:244 | the last entry's points, 0 when missing or when the list is empty |
| Leaderboard.ScoresBoundEveryPlayer | src/pages/Leaderboard.js:237-244 | on a list ranked by points, every player's points lie between the lowest and the top score |

## Left out

- `getCurrentSeason` (src/utils/weekUtils.js:33-35) only reads the clock's year; the year is a parameter where it is used.
- `WeekUtils.CurrentNFLWeek` takes the clock reading and the season start (September 4 of the current year, local time) as milliseconds; calendar and time-zone arithmetic is not modelled.
- HTTP requests, toasts, `console.log`, navigation and loading spinners are left out. Responses are parameters.
- Changing the selected week on any page reloads that page's data (src/pages/AdminDashboard.js:28-32, src/pages/MakePicks.js:52-54, src/pages/ViewPicks.js:13-15, src/pages/Leaderboard.js:10-12); the model has no week-selection operation, and each load is modelled on its own.
- `window.confirm` is the boolean parameter `confirmed` of `AdminDashboard.AdminState.DeletePick`.
- `AdminDashboard.AdminState.constructor` models only a `fetchData` whose three requests all succeed. The state after a partial failure is not modelled.
- `AdminDashboard.AdminState.SaveScoreOverride` does not model the reload of users, games and picks that follows a successful override (src/pages/AdminDashboard.js:177); the state keeps the lists it had.
- `MakePicks.PickSheet.Submit` does not model the `submitting` flag, which is true only while the request is in flight (src/pages/MakePicks.js:169, 204), nor the navigation to the dashboard after a successful request (line 199).
- The week's season start comes from the clock's own year (src/utils/weekUtils.js:7, 11), so from 1 January the season start moves to September of the new year and the week falls back to 1, even during weeks 17 and 18 of the season that began the previous September. `WeekUtils.CurrentNFLWeek` takes the season start as a parameter, so this rollover is not captured; `WeekUtils.CurrentNFLWeekMonotone` holds only for a fixed season start.
- `AdminDashboard.AdminState.Grid` returns `None` for a page that throws while rendering the grid (a user's pick without a game object reached before that user's pick for the column, src/pages/AdminDashboard.js:551-553). Nothing in the client catches the exception, so the dashboard unmounts; what the browser then shows is not modelled.
- `AdminDashboard.AdminState.EditScoreForm` sets the two scores and the reason in one step; the page sets them one input at a time.
- Score-override inputs are read as already-parsed integers, with `None` for an empty field. A non-numeric string, which passes the page's check and is sent as `NaN`, is not representable.
- `parseInt` on the week selector and on the score inputs is not modelled: weeks are integers, and a score input is `Some(n)` for a number or `None` for `NaN`.
- Ids are strings, so the `toString()` conversions in `getUserPicksForWeek` are the identity here.
- `MakePicks.PickSheet.Load` and `MakePicks.PickSheet.HandlePick` require that no game id is "mondayNightAwayScore" or "mondayNightHomeScore". Game ids are database ids and never have that form; a clash would mix a team into a score key.
- `MakePicks.PickSheet.Load` assumes the response has a body. A missing body makes the page throw before any state changes, which the model does not represent.
- `MakePicks.ExistingPick` has no representation for `null` tiebreaker scores from the server. `None` is an absent (`undefined`) field.
- `MakePicks.PrepareSubmission` returns the payload as a map keyed by game id, so the key order of the JavaScript object is not modelled.
- The pick-distribution percentages of the ViewPicks page use floating-point division and are left out.
- `Leaderboard.NextLeaderboard` treats a response without a body like a failed request, since reading `leaderboard` from it throws.
- Display-only markup (names' initials, e-mails, win percentages and streaks) is not modelled.

## Findings

| source | as written | input that shows it | evidently intended | confidence | as-written member | corrected member |
|---|---|---|---|---|---|---|
| src/pages/ViewPicks.js:72-74 | `getGamePicks` compares `pick.gameId`, which holds the populated game object, with an id string using `===`, so no pick ever matches and every game shows zero picks and zero tallies | one pick whose game is game "g1", asked for "g1": the as-written filter returns no pick | keep the picks whose game object has the given id | high (not executed) | ViewPicks.GamePicksMissesMatchingPick | ViewPicks.GamePicksById |
