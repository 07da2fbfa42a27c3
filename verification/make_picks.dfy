/** The pick sheet: loading a week's games and the user's existing picks, recording picks and
    the Monday Night Football tiebreaker, and building the submission. The sheet's `picks`
    object mixes team picks, keyed by game id, with the tiebreaker scores, kept under reserved
    keys that start with "mondayNight". */
module MakePicks {
  import opened Wrappers
  import opened Seqs
  import opened Strings
  import opened Entities

  const MondayNightPrefix := "mondayNight"
  const AwayScoreKey := "mondayNightAwayScore"
  const HomeScoreKey := "mondayNightHomeScore"
  const CombinedScoreKey := "mondayNightScore"
  const UpdateEndpoint := "/api/picks/update"
  const SubmitEndpoint := "/api/picks/submit"
  const MinScore := 0
  const MaxScore := 100

  /** A value of the `picks` object: a picked team, or a tiebreaker score. */
  datatype Value = Team(team: string) | Score(score: int)

  /** A pick as `/api/games/week/:n` returns it in `existingPicks`: here `gameId` is the
      game's id, and the Monday-night pick carries the tiebreaker, either as two scores or,
      for older records, as one combined score. */
  datatype ExistingPick = ExistingPick(
    gameId: string,
    selectedTeam: string,
    mondayNightAwayScore: Option<int>,
    mondayNightHomeScore: Option<int>,
    mondayNightScore: Option<int>)

  /** The response of `/api/games/week/:n`. */
  datatype WeekResponse = WeekResponse(
    games: Option<seq<Game>>,
    deadline: Option<int>,
    existingPicks: Option<seq<ExistingPick>>)

  datatype SubmitError = NoPicks | MissingTiebreaker

  /** One entry of the submitted `picks` array. */
  datatype PickEntry = PickEntry(
    gameId: string,
    selectedTeam: Value,
    week: int,
    mondayNightScore: Option<int>,
    mondayNightAwayScore: Option<int>,
    mondayNightHomeScore: Option<int>)

  /** A submission: the endpoint it goes to and its entries, keyed by game id. */
  datatype Submission = Submission(endpoint: string, picks: map<string, PickEntry>)

  predicate IsTiebreakerKey(k: string)
  {
    k == AwayScoreKey || k == HomeScoreKey
  }

  /** The tiebreaker keys, when present, hold scores. */
  predicate ScoresWellTyped(picks: map<string, Value>)
  {
    (AwayScoreKey in picks ==> picks[AwayScoreKey].Score?) &&
    (HomeScoreKey in picks ==> picks[HomeScoreKey].Score?)
  }

  // ---------------------------------------------------------------------------------------
  // Loading existing picks

  /** The `existingPicks` object built by the `forEach`: each game id maps to the team of the
      last pick for that game. */
  function ExistingPickMap(ps: seq<ExistingPick>): (m: map<string, Value>)
    ensures forall k :: k in m ==> m[k].Team?
  {
    if |ps| == 0 then map[]
    else
      var last := ps[|ps| - 1];
      ExistingPickMap(ps[..|ps| - 1])[last.gameId := Team(last.selectedTeam)]
  }

  /** The keys are exactly the game ids of the existing picks. */
  lemma {:induction false} ExistingPickMapKeys(ps: seq<ExistingPick>, g: string)
    ensures g in ExistingPickMap(ps) <==> exists i :: 0 <= i < |ps| && ps[i].gameId == g
  {
    if |ps| > 0 {
      var front := ps[..|ps| - 1];
      ExistingPickMapKeys(front, g);
      if g in ExistingPickMap(front) {
        var i :| 0 <= i < |front| && front[i].gameId == g;
        assert ps[i].gameId == g;
      }
      if exists i :: 0 <= i < |ps| && ps[i].gameId == g {
        var i :| 0 <= i < |ps| && ps[i].gameId == g;
        if i < |ps| - 1 {
          assert front[i].gameId == g;
        }
      }
    }
  }

  /** When two picks share a game, the later one wins. */
  lemma {:induction false} ExistingPickMapLastWins(ps: seq<ExistingPick>, k: nat)
    requires k < |ps|
    requires forall j :: k < j < |ps| ==> ps[j].gameId != ps[k].gameId
    ensures ps[k].gameId in ExistingPickMap(ps)
    ensures ExistingPickMap(ps)[ps[k].gameId] == Team(ps[k].selectedTeam)
  {
    if k < |ps| - 1 {
      var front := ps[..|ps| - 1];
      ExistingPickMapLastWins(front, k);
    }
  }

  /** The `forEach` loop that fills the `existingPicks` object. */
  method CollectExistingPicks(ps: seq<ExistingPick>) returns (m: map<string, Value>)
    ensures m == ExistingPickMap(ps)
  {
    m := map[];
    var i := 0;
    while i < |ps|
      invariant 0 <= i <= |ps|
      invariant m == ExistingPickMap(ps[..i])
    {
      assert ps[..i + 1][..i] == ps[..i];
      m := m[ps[i].gameId := Team(ps[i].selectedTeam)];
      i := i + 1;
    }
    assert ps[..|ps|] == ps;
  }

  /** Whether the game with this id, looked up in `games`, is the Monday-night game. */
  predicate IsMondayNightGameId(games: seq<Game>, gameId: string)
  {
    var g := Find(games, (g: Game) => g.id == gameId);
    g.Some? && g.value.isMondayNight
  }

  /** The first existing pick whose game is the Monday-night game. */
  function MondayNightPick(ps: seq<ExistingPick>, games: seq<Game>): (r: Option<ExistingPick>)
    ensures r.None? <==> forall j :: 0 <= j < |ps| ==> !IsMondayNightGameId(games, ps[j].gameId)
    ensures r.Some? ==> r.value in ps && IsMondayNightGameId(games, r.value.gameId)
    ensures r.Some? ==>
              exists k :: (0 <= k < |ps| && ps[k] == r.value &&
                           forall j :: 0 <= j < k ==> !IsMondayNightGameId(games, ps[j].gameId))
  {
    Find(ps, (p: ExistingPick) => IsMondayNightGameId(games, p.gameId))
  }

  /** A legacy combined tiebreaker split into away and home halves: away is the floor of half
      the total (`Math.floor`, which Dafny's `/` by 2 equals), home the rest. */
  function SplitCombinedScore(total: int): (halves: (int, int))
    ensures halves.0 + halves.1 == total
    ensures 0 <= halves.1 - halves.0 <= 1
  {
    var half := total / 2;
    (half, total - half)
  }

  /** Adds the Monday-night pick's tiebreaker to the loaded picks: both explicit scores when
      present, otherwise a non-zero combined score split in two, otherwise nothing. */
  function WithTiebreaker(m: map<string, Value>, mnf: Option<ExistingPick>): (r: map<string, Value>)
    ensures forall k :: !IsTiebreakerKey(k) ==> (k in r <==> k in m) && (k in m ==> r[k] == m[k])
    ensures ScoresWellTyped(m) ==> ScoresWellTyped(r)
    ensures mnf.Some? && mnf.value.mondayNightAwayScore.Some? && mnf.value.mondayNightHomeScore.Some? ==>
              AwayScoreKey in r && HomeScoreKey in r &&
              r[AwayScoreKey] == Score(mnf.value.mondayNightAwayScore.value) &&
              r[HomeScoreKey] == Score(mnf.value.mondayNightHomeScore.value)
    ensures mnf.Some? && !(mnf.value.mondayNightAwayScore.Some? && mnf.value.mondayNightHomeScore.Some?) &&
            mnf.value.mondayNightScore.Some? && mnf.value.mondayNightScore.value != 0 ==>
              AwayScoreKey in r && HomeScoreKey in r &&
              r[AwayScoreKey].Score? && r[HomeScoreKey].Score? &&
              r[AwayScoreKey].score + r[HomeScoreKey].score == mnf.value.mondayNightScore.value &&
              0 <= r[HomeScoreKey].score - r[AwayScoreKey].score <= 1
    ensures mnf.None? ==> r == m
    ensures mnf.Some? && !(mnf.value.mondayNightAwayScore.Some? && mnf.value.mondayNightHomeScore.Some?) &&
            (mnf.value.mondayNightScore.None? || mnf.value.mondayNightScore.value == 0) ==>
              r == m
  {
    match mnf
    case None => m
    case Some(p) =>
      if p.mondayNightAwayScore.Some? && p.mondayNightHomeScore.Some? then
        m[AwayScoreKey := Score(p.mondayNightAwayScore.value)][HomeScoreKey := Score(p.mondayNightHomeScore.value)]
      else if p.mondayNightScore.Some? && p.mondayNightScore.value != 0 then
        var halves := SplitCombinedScore(p.mondayNightScore.value);
        m[AwayScoreKey := Score(halves.0)][HomeScoreKey := Score(halves.1)]
      else
        m
  }

  // ---------------------------------------------------------------------------------------
  // Editing the sheet

  /** The score inputs' guard: non-numeric input counts as 0, and only 0..100 is stored. */
  function ScoreInput(parsed: Option<int>): (stored: Option<int>)
    ensures stored.Some? ==> MinScore <= stored.value <= MaxScore
    ensures stored.Some? <==> parsed.None? || MinScore <= parsed.value <= MaxScore
    ensures parsed.None? ==> stored == Some(0)
    ensures parsed.Some? && stored.Some? ==> stored.value == parsed.value
  {
    var value := parsed.GetOr(0);
    if MinScore <= value <= MaxScore then Some(value) else None
  }

  // ---------------------------------------------------------------------------------------
  // Submitting

  /** `Object.keys(picks).filter(key => key !== "mondayNightScore")`: what the first check of
      `handleSubmit` counts. */
  function SelectedGames(picks: map<string, Value>): (selected: set<string>)
    ensures selected <= picks.Keys && CombinedScoreKey !in selected
    ensures forall k :: k in picks && k != CombinedScoreKey ==> k in selected
  {
    set k | k in picks && k != CombinedScoreKey
  }

  /** The keys that do not start with "mondayNight": those the payload and the submit button
      count. */
  function GameKeys(picks: map<string, Value>): (keys: set<string>)
    ensures keys <= picks.Keys
    ensures forall k :: k in keys ==> !IsTiebreakerKey(k) && k != CombinedScoreKey
    ensures forall k :: k in picks && !StartsWith(k, MondayNightPrefix) ==> k in keys
  {
    assert AwayScoreKey[..|MondayNightPrefix|] == MondayNightPrefix;
    assert HomeScoreKey[..|MondayNightPrefix|] == MondayNightPrefix;
    assert CombinedScoreKey[..|MondayNightPrefix|] == MondayNightPrefix;
    set k | k in picks && !StartsWith(k, MondayNightPrefix)
  }

  /** `games.some(game => game.isMondayNight)`: the same answer as whether `find` succeeds. */
  predicate HasMondayNightGame(games: seq<Game>)
    ensures HasMondayNightGame(games) <==> Find(games, (g: Game) => g.isMondayNight).Some?
  {
    exists i :: 0 <= i < |games| && games[i].isMondayNight
  }

  /** `away + home` when both tiebreaker scores are defined, `null` otherwise. */
  function TiebreakerTotal(picks: map<string, Value>): (total: Option<int>)
    requires ScoresWellTyped(picks)
    ensures total.Some? <==> AwayScoreKey in picks && HomeScoreKey in picks
    ensures total.Some? ==> total.value == picks[AwayScoreKey].score + picks[HomeScoreKey].score
  {
    if AwayScoreKey in picks && HomeScoreKey in picks then
      Some(picks[AwayScoreKey].score + picks[HomeScoreKey].score)
    else None
  }

  /** `picks[key] || null`: a missing score and a score of 0 are both sent as `null`. */
  function ScoreOrNull(picks: map<string, Value>, key: string): (r: Option<int>)
    requires ScoresWellTyped(picks) && IsTiebreakerKey(key)
    ensures r.Some? <==> key in picks && picks[key].score != 0
    ensures r.Some? ==> r.value == picks[key].score
  {
    if key in picks && picks[key].score != 0 then Some(picks[key].score) else None
  }

  /** The endpoint: update when the user already had picks this week, submit otherwise. */
  function EndpointFor(existingPicks: seq<ExistingPick>): (endpoint: string)
    ensures endpoint == UpdateEndpoint <==> |existingPicks| > 0
    ensures endpoint == SubmitEndpoint <==> |existingPicks| == 0
  {
    if |existingPicks| > 0 then UpdateEndpoint else SubmitEndpoint
  }

  /** `handleSubmit`'s checks and the `picksData` it sends. */
  function PrepareSubmission(picks: map<string, Value>, games: seq<Game>, existingPicks: seq<ExistingPick>,
                             currentWeek: int): (r: Result<Submission, SubmitError>)
    requires ScoresWellTyped(picks)
    ensures r == Err(NoPicks) <==> SelectedGames(picks) == {}
    ensures r == Err(MissingTiebreaker) <==>
              SelectedGames(picks) != {} && HasMondayNightGame(games) &&
              (AwayScoreKey !in picks || HomeScoreKey !in picks)
    ensures r.Ok? ==> r.value.endpoint == EndpointFor(existingPicks)
    ensures r.Ok? ==> r.value.picks.Keys == GameKeys(picks)
    ensures r.Ok? ==> forall k :: k in r.value.picks ==>
              var e := r.value.picks[k];
              e.gameId == k && e.selectedTeam == picks[k] && e.week == currentWeek &&
              e.mondayNightScore == TiebreakerTotal(picks) &&
              e.mondayNightAwayScore == ScoreOrNull(picks, AwayScoreKey) &&
              e.mondayNightHomeScore == ScoreOrNull(picks, HomeScoreKey)
  {
    if SelectedGames(picks) == {} then Err(NoPicks)
    else if HasMondayNightGame(games) && (AwayScoreKey !in picks || HomeScoreKey !in picks) then
      Err(MissingTiebreaker)
    else
      var total := TiebreakerTotal(picks);
      var away := ScoreOrNull(picks, AwayScoreKey);
      var home := ScoreOrNull(picks, HomeScoreKey);
      Ok(Submission(EndpointFor(existingPicks),
                    map k | k in GameKeys(picks) :: PickEntry(k, picks[k], currentWeek, total, away, home)))
  }

  /** The submit button is disabled while submitting or while fewer games are picked than shown. */
  function SubmitDisabled(submitting: bool, picks: map<string, Value>, games: seq<Game>): (disabled: bool)
    ensures !submitting && |GameKeys(picks)| >= |games| ==> !disabled
    ensures !submitting && |GameKeys(picks)| < |games| ==> disabled
    ensures submitting ==> disabled
  {
    submitting || |GameKeys(picks)| < |games|
  }

  /** `isGameLocked`: never without a deadline, otherwise once the clock has passed it. */
  function IsGameLocked(deadline: Option<int>, now: int): (locked: bool)
    ensures deadline.None? ==> !locked
    ensures deadline.Some? ==> (locked <==> now > deadline.value)
  {
    deadline.Some? && now > deadline.value
  }

  /** Once locked, a game stays locked. */
  lemma LockIsPermanent(deadline: Option<int>, now: int, later: int)
    requires now <= later && IsGameLocked(deadline, now)
    ensures IsGameLocked(deadline, later)
  {
  }

  lemma GameKeysAreSelected(picks: map<string, Value>)
    ensures GameKeys(picks) <= SelectedGames(picks)
  {
    forall k | k in GameKeys(picks) ensures k in SelectedGames(picks) {
      assert CombinedScoreKey[..|MondayNightPrefix|] == MondayNightPrefix;
    }
  }

  /** With the button enabled and games on the sheet, the first check cannot reject, and a
      submission carries at least one entry per game shown. */
  lemma EnabledSubmitHasEveryGame(picks: map<string, Value>, games: seq<Game>, existingPicks: seq<ExistingPick>,
                                  currentWeek: int)
    requires ScoresWellTyped(picks)
    requires !SubmitDisabled(false, picks, games) && |games| > 0
    ensures PrepareSubmission(picks, games, existingPicks, currentWeek) != Err(NoPicks)
    ensures var r := PrepareSubmission(picks, games, existingPicks, currentWeek);
            r.Ok? ==> |r.value.picks| >= |games|
  {
    GameKeysAreSelected(picks);
    var k :| k in GameKeys(picks);
    assert k in SelectedGames(picks);
    var r := PrepareSubmission(picks, games, existingPicks, currentWeek);
    if r.Ok? {
      assert |r.value.picks| == |r.value.picks.Keys| == |GameKeys(picks)|;
    }
  }

  /** The two key filters disagree: a sheet holding only "mondayNight" keys, among them both
      scores, passes `handleSubmit`'s checks and yields an empty payload. Only the disabled
      button, whenever games are shown, keeps it from being sent. */
  lemma TiebreakerOnlySheetSubmitsNothing(sheet: map<string, Value>, games: seq<Game>,
                                          existingPicks: seq<ExistingPick>, currentWeek: int)
    requires ScoresWellTyped(sheet)
    requires AwayScoreKey in sheet && HomeScoreKey in sheet
    requires forall k :: k in sheet ==> StartsWith(k, MondayNightPrefix)
    ensures var r := PrepareSubmission(sheet, games, existingPicks, currentWeek);
            r.Ok? && r.value.picks == map[]
    ensures |games| > 0 ==> SubmitDisabled(false, sheet, games)
  {
    assert AwayScoreKey in SelectedGames(sheet);
    assert GameKeys(sheet) == {};
  }

  /** One such sheet: the two scores and a single game that is not on Monday night. */
  lemma TiebreakerOnlySheetExample()
    ensures var sheet := map[AwayScoreKey := Score(3), HomeScoreKey := Score(4)];
            var games := [Game("g1", "Away", "Home", 1, "scheduled", false)];
            PrepareSubmission(sheet, games, [], 1) == Ok(Submission(SubmitEndpoint, map[])) &&
            SubmitDisabled(false, sheet, games)
  {
    var sheet := map[AwayScoreKey := Score(3), HomeScoreKey := Score(4)];
    assert AwayScoreKey[..|MondayNightPrefix|] == MondayNightPrefix;
    assert HomeScoreKey[..|MondayNightPrefix|] == MondayNightPrefix;
    TiebreakerOnlySheetSubmitsNothing(sheet, [Game("g1", "Away", "Home", 1, "scheduled", false)], [], 1);
  }

  // ---------------------------------------------------------------------------------------
  // The page's state

  class PickSheet {
    var games: seq<Game>
    var deadline: Option<int>
    var existingPicks: seq<ExistingPick>
    var picks: map<string, Value>
    var currentWeek: int
    var submitting: bool

    ghost predicate Valid()
      reads this
    {
      ScoresWellTyped(picks)
    }

    constructor ()
      ensures Valid()
      ensures games == [] && deadline.None? && existingPicks == [] && picks == map[]
      ensures currentWeek == 1 && !submitting
    {
      games := [];
      deadline := None;
      existingPicks := [];
      picks := map[];
      currentWeek := 1;
      submitting := false;
    }

    /** `fetchGames` after the response has arrived. Without existing picks the sheet is
        cleared. With existing picks, the picks are rebuilt from them and the Monday-night
        tiebreaker is added; a response without a games array makes the Monday-night lookup
        throw, and then the picks are left as they were. */
    method Load(response: WeekResponse)
      requires Valid()
      requires forall p :: p in response.existingPicks.GetOr([]) ==> !IsTiebreakerKey(p.gameId)
      modifies this`games, this`deadline, this`existingPicks, this`picks
      ensures Valid()
      ensures games == response.games.GetOr([]) && deadline == response.deadline
      ensures var ps := response.existingPicks.GetOr([]);
              if |ps| == 0 then existingPicks == [] && picks == map[]
              else existingPicks == ps &&
                   picks == if response.games.None? then old(picks)
                            else WithTiebreaker(ExistingPickMap(ps), MondayNightPick(ps, response.games.value))
    {
      games := response.games.GetOr([]);
      deadline := response.deadline;
      var ps := response.existingPicks.GetOr([]);
      if |ps| > 0 {
        existingPicks := ps;
        var loaded := CollectExistingPicks(ps);
        if response.games.Some? {
          var mnf := MondayNightPick(ps, response.games.value);
          assert ScoresWellTyped(loaded) by {
            if AwayScoreKey in loaded {
              ExistingPickMapKeys(ps, AwayScoreKey);
            }
            if HomeScoreKey in loaded {
              ExistingPickMapKeys(ps, HomeScoreKey);
            }
          }
          picks := WithTiebreaker(loaded, mnf);
        }
      } else {
        existingPicks := [];
        picks := map[];
      }
    }

    /** `handlePick`: the game's key takes the team; every other key is unchanged. */
    method HandlePick(gameId: string, team: string)
      requires Valid() && !IsTiebreakerKey(gameId)
      modifies this`picks
      ensures Valid()
      ensures gameId in picks && picks[gameId] == Team(team)
      ensures forall k :: k != gameId ==> (k in picks <==> k in old(picks)) && (k in picks ==> picks[k] == old(picks)[k])
    {
      picks := picks[gameId := Team(team)];
    }

    /** `handleSubmit`: the checks and the payload sent for the current sheet. The sheet itself
        is not changed; `submitting` is set only while the request is in flight. */
    method Submit() returns (r: Result<Submission, SubmitError>)
      requires Valid()
      ensures r == PrepareSubmission(picks, games, existingPicks, currentWeek)
    {
      r := PrepareSubmission(picks, games, existingPicks, currentWeek);
    }

    /** The away or home score input: stores the guarded value under its key, or ignores it. */
    method EnterScore(key: string, parsed: Option<int>)
      requires Valid() && IsTiebreakerKey(key)
      modifies this`picks
      ensures Valid()
      ensures var stored := ScoreInput(parsed);
              picks == if stored.Some? then old(picks)[key := Score(stored.value)] else old(picks)
    {
      var stored := ScoreInput(parsed);
      if stored.Some? {
        picks := picks[key := Score(stored.value)];
      }
    }
  }
}
