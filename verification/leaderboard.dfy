/** The leaderboard page: which endpoint to ask, how each position is decorated, and the
    summary figures under the table. */
module Leaderboard {
  import opened Wrappers
  import opened Strings

  const OverallMode := "overall"
  const OverallEndpoint := "/api/leaderboard/overall"
  const WeekEndpointPrefix := "/api/leaderboard/week/"

  const GoldMedal := "\U{1F947}"
  const SilverMedal := "\U{1F948}"
  const BronzeMedal := "\U{1F949}"

  const GoldColor := "text-yellow-600"
  const SilverColor := "text-gray-500"
  const BronzeColor := "text-orange-600"
  const OtherColor := "text-gray-700"

  /** One player's line of the response; only the fields the rules below read. */
  datatype Entry = Entry(id: string, name: string, totalPoints: Option<int>)

  /** The endpoint `fetchLeaderboard` asks: the overall standings in "overall" mode, the given
      week's otherwise. The week can be read back from a weekly endpoint. */
  function Endpoint(viewMode: string, week: int): (path: string)
    ensures path == OverallEndpoint <==> viewMode == OverallMode
    ensures viewMode != OverallMode ==>
              StartsWith(path, WeekEndpointPrefix) &&
              IsCanonicalInt(path[|WeekEndpointPrefix|..]) &&
              ParseDecimal(path[|WeekEndpointPrefix|..]) == week
  {
    if viewMode == OverallMode then OverallEndpoint
    else
      WeeklyEndpointReadsBack(week);
      WeekEndpointPrefix + IntToString(week)
  }

  /** A weekly endpoint is never the overall one, and its suffix is the week's decimal
      rendering, which reads back as the week. */
  lemma WeeklyEndpointReadsBack(week: int)
    ensures var path := WeekEndpointPrefix + IntToString(week);
            path != OverallEndpoint && StartsWith(path, WeekEndpointPrefix) &&
            IsCanonicalInt(path[|WeekEndpointPrefix|..]) &&
            ParseDecimal(path[|WeekEndpointPrefix|..]) == week
  {
    var path := WeekEndpointPrefix + IntToString(week);
    assert path[..|WeekEndpointPrefix|] == WeekEndpointPrefix;
    assert path[|WeekEndpointPrefix|..] == IntToString(week);
    IntToStringRoundTrip(week);
    assert path[17] == 'w' && OverallEndpoint[17] == 'o';
  }

  /** The weekly suffix is pinned down: it is exactly the week's rendering. */
  lemma EndpointSuffixIsRendering(viewMode: string, week: int)
    requires viewMode != OverallMode
    ensures Endpoint(viewMode, week)[|WeekEndpointPrefix|..] == IntToString(week)
  {
    CanonicalIntRoundTrip(Endpoint(viewMode, week)[|WeekEndpointPrefix|..]);
  }

  /** Different weeks are fetched from different endpoints. */
  lemma EndpointDistinguishesWeeks(viewMode: string, week1: int, week2: int)
    requires viewMode != OverallMode && week1 != week2
    ensures Endpoint(viewMode, week1) != Endpoint(viewMode, week2)
  {
  }

  /** The state after `fetchLeaderboard`: `None` when the request failed or had no body (the
      list is kept), otherwise the response's `leaderboard`, an absent one read as empty. */
  function NextLeaderboard(current: seq<Entry>, response: Option<Option<seq<Entry>>>): (next: seq<Entry>)
    ensures response.None? ==> next == current
    ensures response == Some(None) ==> next == []
    ensures response.Some? && response.value.Some? ==> next == response.value.value
  {
    match response
    case None => current
    case Some(leaderboard) => leaderboard.GetOr([])
  }

  /** `getRankIcon`: a medal for the first three places, "#" and the rank after that. */
  function RankIcon(rank: int): (icon: string)
    ensures rank == 1 ==> icon == GoldMedal
    ensures rank == 2 ==> icon == SilverMedal
    ensures rank == 3 ==> icon == BronzeMedal
    ensures rank !in {1, 2, 3} ==>
              |icon| > 1 && icon[0] == '#' && IsCanonicalInt(icon[1..]) && ParseDecimal(icon[1..]) == rank
  {
    if rank == 1 then GoldMedal
    else if rank == 2 then SilverMedal
    else if rank == 3 then BronzeMedal
    else
      var icon := "#" + IntToString(rank);
      assert icon[1..] == IntToString(rank);
      IntToStringRoundTrip(rank);
      icon
  }

  /** No two ranks share an icon. */
  lemma RankIconInjective(r1: int, r2: int)
    requires r1 != r2
    ensures RankIcon(r1) != RankIcon(r2)
  {
    if r1 !in {1, 2, 3} && r2 !in {1, 2, 3} {
      assert RankIcon(r1)[1..] == IntToString(r1);
      assert RankIcon(r2)[1..] == IntToString(r2);
      IntToStringInjective(r1, r2);
    }
  }

  /** `getRankColor`: gold, silver and bronze tones for the podium, grey for everyone else. */
  function RankColor(rank: int): (color: string)
    ensures color == GoldColor <==> rank == 1
    ensures color == SilverColor <==> rank == 2
    ensures color == BronzeColor <==> rank == 3
    ensures color == OtherColor <==> rank !in {1, 2, 3}
  {
    if rank == 1 then GoldColor
    else if rank == 2 then SilverColor
    else if rank == 3 then BronzeColor
    else OtherColor
  }

  /** One rendered table row. */
  datatype Row = Row(rank: int, icon: string, color: string, player: Entry)

  /** The table body: the entries in response order, ranked from 1. */
  function Rows(leaderboard: seq<Entry>): (rows: seq<Row>)
    ensures |rows| == |leaderboard|
    ensures forall i :: 0 <= i < |rows| ==>
              rows[i].player == leaderboard[i] && rows[i].rank == i + 1 &&
              rows[i].icon == RankIcon(i + 1) && rows[i].color == RankColor(i + 1)
  {
    seq(|leaderboard|, i requires 0 <= i < |leaderboard| =>
          Row(i + 1, RankIcon(i + 1), RankColor(i + 1), leaderboard[i]))
  }

  /** The ranks shown are 1..n, and every row carries its own icon. */
  lemma RowsRankedInOrder(leaderboard: seq<Entry>)
    ensures var rows := Rows(leaderboard);
            (forall i :: 0 <= i < |rows| ==> 1 <= rows[i].rank <= |rows|) &&
            (forall i, j :: 0 <= i < j < |rows| ==> rows[i].rank < rows[j].rank && rows[i].icon != rows[j].icon)
  {
    var rows := Rows(leaderboard);
    forall i, j | 0 <= i < j < |rows| ensures rows[i].icon != rows[j].icon {
      RankIconInjective(i + 1, j + 1);
    }
  }

  /** The "Top Score" figure: the first entry's points, 0 when there are none. */
  function TopScore(leaderboard: seq<Entry>): (score: int)
    ensures |leaderboard| == 0 ==> score == 0
    ensures |leaderboard| > 0 ==> score == leaderboard[0].totalPoints.GetOr(0)
  {
    if |leaderboard| == 0 then 0 else leaderboard[0].totalPoints.GetOr(0)
  }

  /** The "Lowest Score" figure: the last entry's points, 0 when there are none. */
  function LowestScore(leaderboard: seq<Entry>): (score: int)
    ensures |leaderboard| == 0 ==> score == 0
    ensures |leaderboard| > 0 ==> score == leaderboard[|leaderboard| - 1].totalPoints.GetOr(0)
  {
    if |leaderboard| == 0 then 0 else leaderboard[|leaderboard| - 1].totalPoints.GetOr(0)
  }

  function Points(e: Entry): int
  {
    e.totalPoints.GetOr(0)
  }

  /** The list is in descending order of points, as the server ranks it. */
  predicate RankedByPoints(leaderboard: seq<Entry>)
  {
    forall i, j :: 0 <= i < j < |leaderboard| ==> Points(leaderboard[i]) >= Points(leaderboard[j])
  }

  /** On a list ranked by points the two figures bound every player's points. */
  lemma ScoresBoundEveryPlayer(leaderboard: seq<Entry>)
    requires RankedByPoints(leaderboard)
    ensures forall e :: e in leaderboard ==>
              LowestScore(leaderboard) <= Points(e) <= TopScore(leaderboard)
  {
    forall e | e in leaderboard
      ensures LowestScore(leaderboard) <= Points(e) <= TopScore(leaderboard)
    {
      var k :| 0 <= k < |leaderboard| && leaderboard[k] == e;
      assert k == 0 || Points(leaderboard[0]) >= Points(leaderboard[k]);
      assert k == |leaderboard| - 1 || Points(leaderboard[k]) >= Points(leaderboard[|leaderboard| - 1]);
    }
  }
}
