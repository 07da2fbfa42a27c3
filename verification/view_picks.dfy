/** The "View Picks" page: the games of a week, taken from the week's picks, with everyone's
    picks per game, the away/home tallies and the status badges. */
module ViewPicks {
  import opened Wrappers
  import opened Seqs
  import opened Entities

  const StatusFinal := "final"
  const StatusLive := "live"

  const CorrectText := "\U{2705} Correct"
  const IncorrectText := "\U{274C} Incorrect"
  const PendingText := "\U{23F3} Pending"
  const CorrectColor := "text-green-600"
  const IncorrectColor := "text-red-600"
  const PendingColor := "text-yellow-600"

  const FinalBadge := "bg-green-100 text-green-800"
  const LiveBadge := "bg-red-100 text-red-800"
  const ScheduledBadge := "bg-yellow-100 text-yellow-800"

  function GameIds(games: seq<Game>): set<string>
  {
    set g | g in games :: g.id
  }

  // ---------------------------------------------------------------------------------------
  // The games of the week, taken from the picks

  /** The games in the order the `gamesMap` first sees their ids; picks without a game add
      nothing. */
  function UniqueGames(picks: seq<Pick>): (games: seq<Game>)
    ensures |games| <= |picks|
    ensures forall g :: g in games ==> exists k :: 0 <= k < |picks| && picks[k].gameId == Some(g)
  {
    if |picks| == 0 then []
    else
      var front := picks[..|picks| - 1];
      var prev := UniqueGames(front);
      var last := picks[|picks| - 1];
      assert forall k :: 0 <= k < |front| ==> front[k] == picks[k];
      if last.gameId.Some? && last.gameId.value.id !in GameIds(prev) then prev + [last.gameId.value]
      else prev
  }

  /** The `forEach` that fills `gamesMap`, followed by `Array.from(gamesMap.values())`: a
      JavaScript `Map` keeps its insertion order, which `allGames` records. */
  method CollectGames(weekPicks: seq<Pick>) returns (allGames: seq<Game>)
    ensures allGames == UniqueGames(weekPicks)
  {
    var gamesMap: map<string, Game> := map[];
    allGames := [];
    var i := 0;
    while i < |weekPicks|
      invariant 0 <= i <= |weekPicks|
      invariant allGames == UniqueGames(weekPicks[..i])
      invariant gamesMap.Keys == GameIds(allGames)
    {
      var pick := weekPicks[i];
      UniqueGamesStep(weekPicks, i);
      if pick.gameId.Some? && pick.gameId.value.id !in gamesMap {
        gamesMap := gamesMap[pick.gameId.value.id := pick.gameId.value];
        GameIdsAppend(allGames, pick.gameId.value);
        allGames := allGames + [pick.gameId.value];
      }
      i := i + 1;
    }
    assert weekPicks[..|weekPicks|] == weekPicks;
  }

  /** One more pick: its game is appended when it has one with an id not seen yet. */
  lemma UniqueGamesStep(picks: seq<Pick>, i: nat)
    requires i < |picks|
    ensures var prev := UniqueGames(picks[..i]);
            var g := picks[i].gameId;
            UniqueGames(picks[..i + 1]) == if g.Some? && g.value.id !in GameIds(prev) then prev + [g.value] else prev
  {
    assert picks[..i + 1][..i] == picks[..i];
  }

  lemma GameIdsAppend(games: seq<Game>, g: Game)
    ensures GameIds(games + [g]) == GameIds(games) + {g.id}
  {
    assert forall x :: x in games + [g] <==> x in games || x == g;
  }

  predicate HasGame(p: Pick, id: string)
  {
    p.gameId.Some? && p.gameId.value.id == id
  }

  /** Index of the first pick for the game with this id, or -1. */
  function FirstPickOf(picks: seq<Pick>, id: string): int
  {
    FindIndex(picks, (p: Pick) => HasGame(p, id))
  }

  predicate DistinctIds(games: seq<Game>)
  {
    forall i, j :: 0 <= i < j < |games| ==> games[i].id != games[j].id
  }

  /** No game is listed twice. */
  lemma {:induction false} UniqueGamesDistinct(picks: seq<Pick>)
    ensures DistinctIds(UniqueGames(picks))
  {
    if |picks| > 0 {
      var front := picks[..|picks| - 1];
      UniqueGamesDistinct(front);
      var prev := UniqueGames(front);
      var games := UniqueGames(picks);
      var last := picks[|picks| - 1];
      if last.gameId.Some? && last.gameId.value.id !in GameIds(prev) {
        assert games == prev + [last.gameId.value];
        forall i, j | 0 <= i < j < |games| ensures games[i].id != games[j].id {
          if j == |prev| {
            assert games[i] == prev[i] && prev[i] in prev;
            assert games[i].id in GameIds(prev);
          } else {
            assert games[i] == prev[i] && games[j] == prev[j];
          }
        }
      } else {
        assert games == prev;
      }
    }
  }

  /** Every pick with a game has its game listed. */
  lemma {:induction false} UniqueGamesComplete(picks: seq<Pick>)
    ensures forall k :: 0 <= k < |picks| && picks[k].gameId.Some? ==>
              picks[k].gameId.value.id in GameIds(UniqueGames(picks))
  {
    if |picks| > 0 {
      var front := picks[..|picks| - 1];
      UniqueGamesComplete(front);
      var prev := UniqueGames(front);
      var games := UniqueGames(picks);
      assert GameIds(prev) <= GameIds(games) by {
        forall g | g in prev ensures g in games { }
      }
      var last := picks[|picks| - 1];
      if last.gameId.Some? && last.gameId.value.id !in GameIds(prev) {
        assert last.gameId.value in games;
      }
      forall k | 0 <= k < |picks| - 1 && picks[k].gameId.Some?
        ensures picks[k].gameId.value.id in GameIds(games)
      {
        assert front[k] == picks[k];
      }
    }
  }

  /** Each listed game is the game object of the first pick with its id. */
  lemma {:induction false} UniqueGamesFirstPick(picks: seq<Pick>, i: nat)
    requires i < |UniqueGames(picks)|
    ensures var g := UniqueGames(picks)[i];
            var k := FirstPickOf(picks, g.id);
            0 <= k < |picks| && picks[k].gameId == Some(g)
  {
    var front := picks[..|picks| - 1];
    var prev := UniqueGames(front);
    var g := UniqueGames(picks)[i];
    FindIndexExtend(picks, (p: Pick) => HasGame(p, g.id));
    if i < |prev| {
      UniqueGamesFirstPick(front, i);
    } else {
      UniqueGamesComplete(front);
      assert FirstPickOf(front, g.id) == -1;
    }
  }

  /** The games are listed in the order of their first picks. */
  lemma {:induction false} UniqueGamesInFirstPickOrder(picks: seq<Pick>, i: nat, j: nat)
    requires i < j < |UniqueGames(picks)|
    ensures var games := UniqueGames(picks);
            FirstPickOf(picks, games[i].id) < FirstPickOf(picks, games[j].id)
  {
    var front := picks[..|picks| - 1];
    var prev := UniqueGames(front);
    var games := UniqueGames(picks);
    FindIndexExtend(picks, (p: Pick) => HasGame(p, games[i].id));
    FindIndexExtend(picks, (p: Pick) => HasGame(p, games[j].id));
    UniqueGamesFirstPick(front, i);
    if j < |prev| {
      UniqueGamesInFirstPickOrder(front, i, j);
    } else {
      UniqueGamesComplete(front);
      assert FirstPickOf(front, games[j].id) == -1;
    }
  }

  /** Only games in progress or finished are shown. */
  function RelevantGames(allGames: seq<Game>): (games: seq<Game>)
    ensures IsSubseq(games, allGames)
    ensures forall g :: g in games <==> g in allGames && (g.status == StatusLive || g.status == StatusFinal)
    ensures forall g :: multiset(games)[g] ==
              if g.status == StatusLive || g.status == StatusFinal then multiset(allGames)[g] else 0
  {
    Filter(allGames, (g: Game) => g.status == StatusLive || g.status == StatusFinal)
  }

  // ---------------------------------------------------------------------------------------
  // Picks per game

  /** `getGamePicks` as written: `pick.gameId === gameId` compares the pick's game object (or
      nothing) with an id string, and strict equality never holds between an object or
      `null`/`undefined` and a string. */
  function StrictEqualsId(gameField: Option<Game>, gameId: string): (equal: bool)
    ensures !equal
  {
    false
  }

  function GamePicks(picks: seq<Pick>, gameId: string): (r: seq<Pick>)
    ensures IsSubseq(r, picks)
  {
    Filter(picks, (p: Pick) => StrictEqualsId(p.gameId, gameId))
  }

  /** As written, no game ever has a pick listed. */
  lemma GamePicksAlwaysEmpty(picks: seq<Pick>, gameId: string)
    ensures GamePicks(picks, gameId) == []
  {
    FilterNone(picks, (p: Pick) => StrictEqualsId(p.gameId, gameId));
  }

  /** A pick for game "g1" is not listed under "g1". */
  lemma GamePicksMissesMatchingPick()
    ensures var game := Game("g1", "Away", "Home", 1, StatusFinal, false);
            var pick := Pick("p1", None, Some(game), 1, "Away", Some(true), None, None, None);
            GamePicks([pick], "g1") == [] && GamePicksById([pick], "g1") == [pick]
  {
  }

  /** `getGamePicks` as intended: the picks whose game has the given id, in order. */
  function GamePicksById(picks: seq<Pick>, gameId: string): (r: seq<Pick>)
    ensures IsSubseq(r, picks)
    ensures forall p :: p in r <==> p in picks && HasGame(p, gameId)
    ensures forall p :: multiset(r)[p] == if HasGame(p, gameId) then multiset(picks)[p] else 0
  {
    Filter(picks, (p: Pick) => HasGame(p, gameId))
  }

  /** The away and home tallies of a game's picks. */
  function Tally(gamePicks: seq<Pick>, game: Game): (counts: (nat, nat))
    ensures counts.0 <= |gamePicks| && counts.1 <= |gamePicks|
    ensures counts.0 == multiset(SelectedTeams(gamePicks))[game.awayTeam]
    ensures counts.1 == multiset(SelectedTeams(gamePicks))[game.homeTeam]
  {
    TeamCount(gamePicks, game.awayTeam);
    TeamCount(gamePicks, game.homeTeam);
    (|Filter(gamePicks, (p: Pick) => p.selectedTeam == game.awayTeam)|,
     |Filter(gamePicks, (p: Pick) => p.selectedTeam == game.homeTeam)|)
  }

  /** The teams the picks chose, in order. */
  function SelectedTeams(picks: seq<Pick>): (teams: seq<string>)
    ensures |teams| == |picks|
    ensures forall i :: 0 <= i < |picks| ==> teams[i] == picks[i].selectedTeam
  {
    if |picks| == 0 then [] else [picks[0].selectedTeam] + SelectedTeams(picks[1..])
  }

  /** Filtering by team keeps as many picks as chose that team. */
  lemma {:induction false} TeamCount(picks: seq<Pick>, team: string)
    ensures |Filter(picks, (p: Pick) => p.selectedTeam == team)| == multiset(SelectedTeams(picks))[team]
  {
    if |picks| > 0 {
      TeamCount(picks[1..], team);
      assert SelectedTeams(picks) == [picks[0].selectedTeam] + SelectedTeams(picks[1..]);
    }
  }

  /** When the two teams differ, no pick is counted twice. */
  lemma TallyBound(gamePicks: seq<Pick>, game: Game)
    requires game.awayTeam != game.homeTeam
    ensures var counts := Tally(gamePicks, game);
            counts.0 + counts.1 <= |gamePicks|
  {
    FilterDisjointBound(gamePicks, (p: Pick) => p.selectedTeam == game.awayTeam,
                        (p: Pick) => p.selectedTeam == game.homeTeam);
  }

  /** As written, both tallies are always zero. */
  lemma TallyAsWrittenIsZero(picks: seq<Pick>, game: Game)
    ensures Tally(GamePicks(picks, game.id), game) == (0, 0)
  {
    GamePicksAlwaysEmpty(picks, game.id);
  }

  /** With the corrected filter, a pick for the game on the away (home) team shows up in the
      away (home) tally. */
  lemma CorrectedTallyCountsPick(picks: seq<Pick>, game: Game, p: Pick)
    requires p in picks && HasGame(p, game.id)
    ensures var counts := Tally(GamePicksById(picks, game.id), game);
            (p.selectedTeam == game.awayTeam ==> counts.0 > 0) &&
            (p.selectedTeam == game.homeTeam ==> counts.1 > 0)
  {
    var gamePicks := GamePicksById(picks, game.id);
    assert p in gamePicks;
    if p.selectedTeam == game.awayTeam {
      assert p in Filter(gamePicks, (q: Pick) => q.selectedTeam == game.awayTeam);
    }
    if p.selectedTeam == game.homeTeam {
      assert p in Filter(gamePicks, (q: Pick) => q.selectedTeam == game.homeTeam);
    }
  }

  // ---------------------------------------------------------------------------------------
  // Badges

  datatype Badge = Badge(text: string, color: string)

  /** `getPickStatus`: correct or incorrect only for a final game with a known outcome. */
  function PickStatus(pick: Pick, game: Game): (b: Badge)
    ensures b.text == CorrectText <==> game.status == StatusFinal && pick.isCorrect == Some(true)
    ensures b.text == IncorrectText <==> game.status == StatusFinal && pick.isCorrect == Some(false)
    ensures b.text == PendingText <==> game.status != StatusFinal || pick.isCorrect.None?
    ensures b.color == (if b.text == CorrectText then CorrectColor
                        else if b.text == IncorrectText then IncorrectColor else PendingColor)
  {
    if game.status == StatusFinal && pick.isCorrect.Some? then
      if pick.isCorrect.value then Badge(CorrectText, CorrectColor) else Badge(IncorrectText, IncorrectColor)
    else Badge(PendingText, PendingColor)
  }

  /** `getGameStatusColor`: its own colour for "final" and "live", yellow for anything else. */
  function GameStatusColor(status: string): (color: string)
    ensures color == FinalBadge <==> status == StatusFinal
    ensures color == LiveBadge <==> status == StatusLive
    ensures color == ScheduledBadge <==> status != StatusFinal && status != StatusLive
  {
    if status == StatusFinal then FinalBadge
    else if status == StatusLive then LiveBadge
    else ScheduledBadge
  }

  /** The badge's label. */
  function GameStatusLabel(status: string): (text: string)
    ensures text == "Final" <==> status == StatusFinal
    ensures text == "Live" <==> status == StatusLive
    ensures text == "Scheduled" <==> status != StatusFinal && status != StatusLive
  {
    if status == StatusFinal then "Final"
    else if status == StatusLive then "Live"
    else "Scheduled"
  }

  /** Colour and label always name the same state. */
  lemma BadgeAgreesWithLabel(status: string)
    ensures GameStatusColor(status) == FinalBadge <==> GameStatusLabel(status) == "Final"
    ensures GameStatusColor(status) == LiveBadge <==> GameStatusLabel(status) == "Live"
    ensures GameStatusColor(status) == ScheduledBadge <==> GameStatusLabel(status) == "Scheduled"
  {
  }

  /** The "Finalized Games" figure. */
  function FinalizedCount(games: seq<Game>): (n: nat)
    ensures n <= |games|
    ensures n == 0 <==> forall g :: g in games ==> g.status != StatusFinal
    ensures n == multiset(Statuses(games))[StatusFinal]
  {
    var finals := Filter(games, (g: Game) => g.status == StatusFinal);
    assert |finals| > 0 ==> finals[0] in finals;
    FinalCount(games);
    |finals|
  }

  /** The games' statuses, in order. */
  function Statuses(games: seq<Game>): (statuses: seq<string>)
    ensures |statuses| == |games|
    ensures forall i :: 0 <= i < |games| ==> statuses[i] == games[i].status
  {
    if |games| == 0 then [] else [games[0].status] + Statuses(games[1..])
  }

  /** Filtering by the "final" status keeps as many games as are final. */
  lemma {:induction false} FinalCount(games: seq<Game>)
    ensures |Filter(games, (g: Game) => g.status == StatusFinal)| == multiset(Statuses(games))[StatusFinal]
  {
    if |games| > 0 {
      FinalCount(games[1..]);
      assert Statuses(games) == [games[0].status] + Statuses(games[1..]);
    }
  }

  // ---------------------------------------------------------------------------------------
  // The page's state

  class PicksView {
    var games: seq<Game>
    var picks: seq<Pick>

    constructor ()
      ensures games == [] && picks == []
    {
      games := [];
      picks := [];
    }

    /** `fetchGamesAndPicks` once the request has completed (`None`: it failed, and nothing
        changes). A missing body counts as no picks. */
    method Load(response: Option<Option<seq<Pick>>>)
      modifies this
      ensures response.None? ==> games == old(games) && picks == old(picks)
      ensures response.Some? ==>
                picks == response.value.GetOr([]) &&
                games == RelevantGames(UniqueGames(picks))
    {
      if response.Some? {
        var weekPicks := response.value.GetOr([]);
        var allGames := CollectGames(weekPicks);
        games := RelevantGames(allGames);
        picks := weekPicks;
      }
    }
  }
}
