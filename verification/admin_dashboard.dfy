/** The admin dashboard: the local list of picks the admin edits, adds to and deletes from,
    the week and user filters of the picks grid, and the score-override form. Requests to the
    backend are returned as values; the backend's answers come in as parameters. */
module AdminDashboard {
  import opened Wrappers
  import opened Seqs
  import opened Entities

  const DefaultEditReason := "Admin edit"
  const CreateReason := "Admin created pick on user's behalf"
  const DefaultOverrideReason := "Admin score override"

  /** The edit-tracking fields of the pick the backend returns after an edit. */
  datatype EditedPick = EditedPick(
    lastEditedBy: Option<string>,
    lastEditedAt: Option<string>,
    editReason: Option<string>)

  /** Body of `PUT /api/picks/:id`. */
  datatype EditRequest = EditRequest(selectedTeam: string, editReason: string)

  /** The "Add Pick" form: the cell's user, game and week, and the team chosen so far. */
  datatype PickDraft = PickDraft(userId: string, gameId: string, week: int, selectedTeam: Option<string>)

  /** Body of `POST /api/picks/admin-create`. */
  datatype CreateRequest = CreateRequest(
    userId: string,
    gameId: string,
    week: int,
    season: int,
    selectedTeam: Option<string>,
    editReason: string)

  /** The score-override form; an empty score field is `None`. */
  datatype ScoreForm = ScoreForm(
    gameId: string,
    awayTeam: string,
    homeTeam: string,
    week: int,
    awayScore: Option<int>,
    homeScore: Option<int>,
    reason: string)

  /** Body of `PUT /api/picks/admin/override-score`. */
  datatype OverrideRequest = OverrideRequest(gameId: string, awayScore: int, homeScore: int, reason: string)

  /** What rendering one cell of the picks grid yields. `RenderError` is an exception thrown
      during render: nothing catches it, so the whole dashboard unmounts and no grid is shown
      (see `AdminState.Grid`). */
  datatype Cell = ShowPick(pick: Pick) | AddPick | RenderError

  /** The reason sent with an edit: the edited pick's own reason unless it is missing or empty. */
  function EditReasonFor(editing: Option<Pick>): (reason: string)
    ensures reason != ""
    ensures editing.Some? && editing.value.editReason.Some? && editing.value.editReason.value != ""
            ==> reason == editing.value.editReason.value
    ensures editing.None? || editing.value.editReason.None? || editing.value.editReason.value == ""
            ==> reason == DefaultEditReason
  {
    if editing.Some? && editing.value.editReason.Some? && editing.value.editReason.value != "" then
      editing.value.editReason.value
    else
      DefaultEditReason
  }

  function WithEdit(p: Pick, team: string, edited: EditedPick): Pick
  {
    p.(selectedTeam := team,
       lastEditedBy := edited.lastEditedBy,
       lastEditedAt := edited.lastEditedAt,
       editReason := edited.editReason)
  }

  /** The `setPicks` updater of a saved edit: the picks with id `pickId` take the new team and
      the returned edit fields; every other pick is kept, and so are length and order. */
  function ApplyEdit(picks: seq<Pick>, pickId: string, team: string, edited: EditedPick): (r: seq<Pick>)
    ensures |r| == |picks|
    ensures forall i :: 0 <= i < |picks| && picks[i].id == pickId ==>
              r[i] == picks[i].(selectedTeam := team, lastEditedBy := edited.lastEditedBy,
                                lastEditedAt := edited.lastEditedAt, editReason := edited.editReason)
    ensures forall i :: 0 <= i < |picks| && picks[i].id != pickId ==> r[i] == picks[i]
  {
    if |picks| == 0 then []
    else
      [if picks[0].id == pickId then WithEdit(picks[0], team, edited) else picks[0]]
      + ApplyEdit(picks[1..], pickId, team, edited)
  }

  /** The `setPicks` updater of a delete: every pick with id `pickId` goes, the rest stay in order. */
  function RemovePick(picks: seq<Pick>, pickId: string): (r: seq<Pick>)
    ensures IsSubseq(r, picks)
    ensures forall p :: p in r <==> p in picks && p.id != pickId
    ensures forall p :: multiset(r)[p] == if p.id != pickId then multiset(picks)[p] else 0
  {
    Filter(picks, (p: Pick) => p.id != pickId)
  }

  /** Saving the same edit twice leaves the picks as saving it once. */
  lemma ApplyEditIdempotent(picks: seq<Pick>, pickId: string, team: string, edited: EditedPick)
    ensures ApplyEdit(ApplyEdit(picks, pickId, team, edited), pickId, team, edited)
            == ApplyEdit(picks, pickId, team, edited)
  {
  }

  /** Deleting a pick makes any earlier edit of it invisible. */
  lemma {:induction false} RemoveAfterEdit(picks: seq<Pick>, pickId: string, team: string, edited: EditedPick)
    ensures RemovePick(ApplyEdit(picks, pickId, team, edited), pickId) == RemovePick(picks, pickId)
  {
    if |picks| > 0 {
      RemoveAfterEdit(picks[1..], pickId, team, edited);
      var e := ApplyEdit(picks, pickId, team, edited);
      assert e[1..] == ApplyEdit(picks[1..], pickId, team, edited);
    }
  }

  /** Deleting the pick just created leaves the other picks as they were. */
  lemma RemoveAfterAppend(picks: seq<Pick>, created: Pick)
    ensures RemovePick(picks + [created], created.id) == RemovePick(picks, created.id)
  {
    FilterAppend(picks, [created], (p: Pick) => p.id != created.id);
  }

  /** `getWeekGames`: the games of the selected week, in their original order. */
  function WeekGames(games: seq<Game>, selectedWeek: int): (r: seq<Game>)
    ensures IsSubseq(r, games)
    ensures forall g :: g in r <==> g in games && g.week == selectedWeek
    ensures forall g :: multiset(r)[g] == if g.week == selectedWeek then multiset(games)[g] else 0
  {
    Filter(games, (g: Game) => g.week == selectedWeek)
  }

  /** `pick.userId && pick.userId._id`: a populated user whose id is present and non-empty, so
      that reading `pick.userId._id` in the second filter cannot fail. */
  predicate HasUserId(p: Pick)
    ensures HasUserId(p) ==> p.userId.Some? && p.userId.value.id.Some? && p.userId.value.id.value != ""
    ensures p.userId.None? ==> !HasUserId(p)
  {
    p.userId.Some? && p.userId.value.id.Some? && p.userId.value.id.value != ""
  }

  /** `getUserPicksForWeek`: drops picks with a corrupted `userId`, then keeps the user's picks
      of the selected week, in their original order. */
  function UserPicksForWeek(picks: seq<Pick>, userId: string, selectedWeek: int): (r: seq<Pick>)
    ensures IsSubseq(r, picks)
    ensures forall p :: p in r <==>
              p in picks && HasUserId(p) && p.userId.value.id.value == userId && p.week == selectedWeek
    ensures forall p :: multiset(r)[p] ==
              if HasUserId(p) && p.userId.value.id.value == userId && p.week == selectedWeek
              then multiset(picks)[p] else 0
  {
    var validPicks := Filter(picks, HasUserId);
    var userPicks := Filter(validPicks, (p: Pick) => HasUserId(p) && p.userId.value.id.value == userId && p.week == selectedWeek);
    IsSubseqTransitive(userPicks, validPicks, picks);
    userPicks
  }

  /** `getGameById`: the first game with the id, if any. */
  function GameById(games: seq<Game>, gameId: string): (r: Option<Game>)
    ensures r.Some? ==> r.value in games && r.value.id == gameId
    ensures r.None? <==> forall g :: g in games ==> g.id != gameId
    ensures r.Some? ==>
              exists k :: (0 <= k < |games| && games[k] == r.value &&
                           forall j :: 0 <= j < k ==> games[j].id != gameId)
  {
    Find(games, (g: Game) => g.id == gameId)
  }

  /** Where the cell's `find` stops: the first pick whose game is missing (reading its `_id`
      throws) or has the cell's id; `|userPicks|` when there is none. */
  function FirstStop(userPicks: seq<Pick>, gameId: string): (k: nat)
    ensures k <= |userPicks|
    ensures forall j :: 0 <= j < k ==> userPicks[j].gameId.Some? && userPicks[j].gameId.value.id != gameId
    ensures k < |userPicks| ==> userPicks[k].gameId.None? || userPicks[k].gameId.value.id == gameId
  {
    if |userPicks| == 0 then 0
    else if userPicks[0].gameId.None? || userPicks[0].gameId.value.id == gameId then 0
    else 1 + FirstStop(userPicks[1..], gameId)
  }

  /** A cell of the picks grid: the user's first pick for the game, "Add Pick" when there is
      none, and a render error when a pick before any match has no game object. */
  function CellFor(userPicks: seq<Pick>, gameId: string): (c: Cell)
    ensures c.AddPick? <==>
              forall j :: 0 <= j < |userPicks| ==>
                userPicks[j].gameId.Some? && userPicks[j].gameId.value.id != gameId
    ensures c.ShowPick? ==>
              var k := FirstStop(userPicks, gameId);
              k < |userPicks| && c.pick == userPicks[k] &&
              c.pick.gameId.Some? && c.pick.gameId.value.id == gameId
    ensures c.RenderError? ==>
              var k := FirstStop(userPicks, gameId);
              k < |userPicks| && userPicks[k].gameId.None?
  {
    var k := FirstStop(userPicks, gameId);
    if k == |userPicks| then AddPick
    else if userPicks[k].gameId.None? then RenderError
    else ShowPick(userPicks[k])
  }

  /** The cells of the picks grid: row `i` holds `CellFor` of user `i`'s picks for the week, one
      cell per game of the week. */
  function GridCells(users: seq<string>, picks: seq<Pick>, weekGames: seq<Game>, week: int): (cells: seq<seq<Cell>>)
    ensures |cells| == |users|
    ensures forall i :: 0 <= i < |users| ==> |cells[i]| == |weekGames|
    ensures forall i, j :: 0 <= i < |users| && 0 <= j < |weekGames| ==>
              cells[i][j] == CellFor(UserPicksForWeek(picks, users[i], week), weekGames[j].id)
  {
    seq(|users|, i requires 0 <= i < |users| =>
      var userPicks := UserPicksForWeek(picks, users[i], week);
      seq(|weekGames|, j requires 0 <= j < |weekGames| => CellFor(userPicks, weekGames[j].id)))
  }

  /** A pick shown in a cell belongs to the row's user and week and to the column's game. */
  lemma CellShowsUsersPick(picks: seq<Pick>, userId: string, selectedWeek: int, gameId: string)
    ensures var c := CellFor(UserPicksForWeek(picks, userId, selectedWeek), gameId);
            c.ShowPick? ==>
              c.pick in picks && c.pick.userId.value.id.value == userId &&
              c.pick.week == selectedWeek && c.pick.gameId.value.id == gameId
  {
  }

  /** `handleSaveScoreOverride`'s check: both scores must be entered; the reason defaults. */
  function ValidateScoreOverride(form: ScoreForm): (r: Option<OverrideRequest>)
    ensures r.None? <==> form.awayScore.None? || form.homeScore.None?
    ensures r.Some? ==> r.value.gameId == form.gameId &&
                        r.value.awayScore == form.awayScore.value &&
                        r.value.homeScore == form.homeScore.value
    ensures r.Some? ==> r.value.reason == (if form.reason == "" then DefaultOverrideReason else form.reason)
  {
    if form.awayScore.None? || form.homeScore.None? then None
    else
      Some(OverrideRequest(form.gameId, form.awayScore.value, form.homeScore.value,
                           if form.reason == "" then DefaultOverrideReason else form.reason))
  }

  /** The add form's "Create Pick" button is disabled until a team is chosen: `!selectedTeam`
      holds for no choice and for the empty placeholder option. */
  function CreateDisabled(draft: PickDraft): (disabled: bool)
    ensures !disabled <==> draft.selectedTeam.Some? && draft.selectedTeam.value != ""
  {
    draft.selectedTeam.None? || draft.selectedTeam.value == ""
  }

  /** The dashboard's state: the loaded users' ids, games and picks, the selected week, and
      the three modal forms. */
  class AdminState {
    var users: seq<string>
    var games: seq<Game>
    var picks: seq<Pick>
    var selectedWeek: int
    var editingPick: Option<Pick>
    var addingPick: Option<PickDraft>
    var overridingScore: Option<ScoreForm>

    /** The state after `fetchData` has loaded users, games and picks. */
    constructor (users: seq<string>, games: seq<Game>, picks: seq<Pick>, selectedWeek: int)
      ensures this.users == users && this.games == games && this.picks == picks
      ensures this.selectedWeek == selectedWeek
      ensures editingPick.None? && addingPick.None? && overridingScore.None?
    {
      this.users := users;
      this.games := games;
      this.picks := picks;
      this.selectedWeek := selectedWeek;
      editingPick := None;
      addingPick := None;
      overridingScore := None;
    }

    /** `handleEditPick`: opens the edit form on a pick. */
    method BeginEdit(pick: Pick)
      modifies this`editingPick
      ensures editingPick == Some(pick)
    {
      editingPick := Some(pick);
    }

    /** `handleSavePick`: sends the edit; when the backend answers with the edited pick, the
        local list takes the edit and the form closes; on failure nothing changes. */
    method SavePick(pickId: string, selectedTeam: string, response: Option<EditedPick>)
      returns (request: EditRequest)
      modifies this`picks, this`editingPick
      ensures request == EditRequest(selectedTeam, EditReasonFor(old(editingPick)))
      ensures response.None? ==> picks == old(picks) && editingPick == old(editingPick)
      ensures response.Some? ==>
                picks == ApplyEdit(old(picks), pickId, selectedTeam, response.value) &&
                editingPick.None?
    {
      request := EditRequest(selectedTeam, EditReasonFor(editingPick));
      if response.Some? {
        picks := ApplyEdit(picks, pickId, selectedTeam, response.value);
        editingPick := None;
      }
    }

    /** The edit form's team selector. */
    method EditTeam(team: string)
      requires editingPick.Some?
      modifies this`editingPick
      ensures editingPick == Some(old(editingPick).value.(selectedTeam := team))
    {
      editingPick := Some(editingPick.value.(selectedTeam := team));
    }

    /** The edit form's reason input; the typed text becomes the reason `SavePick` sends,
        unless it is empty. */
    method EditReason(reason: string)
      requires editingPick.Some?
      modifies this`editingPick
      ensures editingPick == Some(old(editingPick).value.(editReason := Some(reason)))
      ensures EditReasonFor(editingPick) == if reason == "" then DefaultEditReason else reason
    {
      editingPick := Some(editingPick.value.(editReason := Some(reason)));
    }

    /** The edit form's "Cancel". */
    method CancelEdit()
      modifies this`editingPick
      ensures editingPick.None?
    {
      editingPick := None;
    }

    /** `handleAddPick`: opens the add form for a grid cell. */
    method BeginAddPick(userId: string, gameId: string, week: int)
      modifies this`addingPick
      ensures addingPick == Some(PickDraft(userId, gameId, week, None))
    {
      addingPick := Some(PickDraft(userId, gameId, week, None));
    }

    /** The add form's team selector; its first option, "Select a team...", has the value "". */
    method ChooseTeam(team: string)
      requires addingPick.Some?
      modifies this`addingPick
      ensures addingPick == Some(old(addingPick).value.(selectedTeam := Some(team)))
      ensures CreateDisabled(addingPick.value) <==> team == ""
    {
      addingPick := Some(addingPick.value.(selectedTeam := Some(team)));
    }

    /** The add form's "Cancel". */
    method CancelAdd()
      modifies this`addingPick
      ensures addingPick.None?
    {
      addingPick := None;
    }

    /** `handleSaveNewPick`: with no open add form, destructuring it throws and nothing is
        sent; otherwise the request is sent and the created pick is appended at the end. */
    method SaveNewPick(selectedTeam: Option<string>, season: int, created: Option<Pick>)
      returns (request: Option<CreateRequest>)
      modifies this`picks, this`addingPick
      ensures old(addingPick).None? ==> request.None? && picks == old(picks) && addingPick == old(addingPick)
      ensures old(addingPick).Some? ==>
                var d := old(addingPick).value;
                request == Some(CreateRequest(d.userId, d.gameId, d.week, season, selectedTeam, CreateReason))
      ensures old(addingPick).Some? && created.Some? ==>
                picks == old(picks) + [created.value] && addingPick.None?
      ensures created.None? ==> picks == old(picks) && addingPick == old(addingPick)
    {
      if addingPick.None? {
        return None;
      }
      var d := addingPick.value;
      request := Some(CreateRequest(d.userId, d.gameId, d.week, season, selectedTeam, CreateReason));
      if created.Some? {
        picks := picks + [created.value];
        addingPick := None;
      }
    }

    /** `handleDeletePick`: nothing happens unless the admin confirms; the local list drops the
        pick once the backend has deleted it. */
    method DeletePick(pickId: string, confirmed: bool, deleted: bool) returns (requested: bool)
      modifies this`picks
      ensures requested == confirmed
      ensures picks == if confirmed && deleted then RemovePick(old(picks), pickId) else old(picks)
    {
      requested := confirmed;
      if confirmed && deleted {
        picks := RemovePick(picks, pickId);
      }
    }

    /** The picks grid: one row per user, one cell per game of the selected week. A cell whose
        render throws takes the whole page down, so the grid is shown only when no cell throws. */
    method Grid() returns (page: Option<seq<seq<Cell>>>)
      ensures page.None? <==>
                exists i, j :: 0 <= i < |users| && 0 <= j < |WeekGames(games, selectedWeek)| &&
                  CellFor(UserPicksForWeek(picks, users[i], selectedWeek),
                          WeekGames(games, selectedWeek)[j].id).RenderError?
      ensures page.Some? ==> |page.value| == |users|
      ensures page.Some? ==>
                forall i :: 0 <= i < |users| ==> |page.value[i]| == |WeekGames(games, selectedWeek)|
      ensures page.Some? ==>
                forall i, j :: 0 <= i < |users| && 0 <= j < |WeekGames(games, selectedWeek)| ==>
                  page.value[i][j] == CellFor(UserPicksForWeek(picks, users[i], selectedWeek),
                                              WeekGames(games, selectedWeek)[j].id)
    {
      var weekGames := WeekGames(games, selectedWeek);
      var cells: seq<seq<Cell>> := GridCells(users, picks, weekGames, selectedWeek);
      if exists i: int, j: int :: 0 <= i < |cells| && 0 <= j < |weekGames| && cells[i][j].RenderError? {
        page := None;
      } else {
        page := Some(cells);
      }
    }

    /** `handleScoreOverride`: opens the override form on a game with empty fields. */
    method BeginScoreOverride(game: Game)
      modifies this`overridingScore
      ensures overridingScore == Some(ScoreForm(game.id, game.awayTeam, game.homeTeam, game.week, None, None, ""))
    {
      overridingScore := Some(ScoreForm(game.id, game.awayTeam, game.homeTeam, game.week, None, None, ""));
    }

    /** The override form's inputs; they exist only while the form is open. */
    method EditScoreForm(awayScore: Option<int>, homeScore: Option<int>, reason: string)
      requires overridingScore.Some?
      modifies this`overridingScore
      ensures overridingScore == Some(old(overridingScore).value.(awayScore := awayScore, homeScore := homeScore, reason := reason))
    {
      overridingScore := Some(overridingScore.value.(awayScore := awayScore, homeScore := homeScore, reason := reason));
    }

    /** `handleSaveScoreOverride`: without both scores no request is made and the form stays
        open; after a successful request the form closes. */
    method SaveScoreOverride(succeeded: bool) returns (request: Option<OverrideRequest>)
      modifies this`overridingScore
      ensures old(overridingScore).None? ==> request.None?
      ensures old(overridingScore).Some? ==> request == ValidateScoreOverride(old(overridingScore).value)
      ensures overridingScore == if request.Some? && succeeded then None else old(overridingScore)
    {
      if overridingScore.None? {
        return None;
      }
      request := ValidateScoreOverride(overridingScore.value);
      if request.Some? && succeeded {
        overridingScore := None;
      }
    }
  }
}
