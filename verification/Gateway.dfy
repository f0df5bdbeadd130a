/** The pure parts of the football-data.org client (football_api.py):
    the empty-on-failure contract, sort-and-truncate of match lists,
    the standing lookup with its play-off arithmetic, and
    `format_match_info`. HTTP is not modelled: a response is an input. */
module Gateway {
  import opened Wrappers
  import opened Text
  import opened Stamps

  // ---------------------------------------------------------------------
  // Raw API records. `None` stands for a key that is absent (or null).

  datatype RawTeam = RawTeam(id: Option<int>, name: Option<string>)

  /** `score.fullTime`. */
  datatype RawScore = RawScore(home: Option<int>, away: Option<int>)

  /** What `datetime.fromisoformat` and the pytz conversions make of a
      parsable `utcDate`: the kickoff in minutes, and the kickoff as a UTC,
      a Europe/London and an Asia/Seoul wall-clock stamp. */
  datatype Parsed = Parsed(kickoff: int, utc: LocalStamp, uk: LocalStamp, korea: LocalStamp)

  datatype RawMatch = RawMatch(
    id: Option<int>,
    homeTeam: RawTeam,
    awayTeam: RawTeam,
    utcDate: Option<string>,
    parsed: Option<Parsed>,   // None: utcDate missing or unparsable
    venue: Option<string>,
    status: Option<string>,
    fullTime: RawScore)

  /** `_make_request`: a failed request yields `{}`; otherwise the JSON body,
      of which only the one key the caller reads is kept (`None` when
      that key is missing). */
  datatype Response<T> = RequestFailed | Body(field: Option<T>)

  /** `if not data or "matches" not in data: return []`. */
  function MatchesOf(resp: Response<seq<RawMatch>>): (r: seq<RawMatch>)
    ensures resp.RequestFailed? ==> r == []
    ensures resp.Body? && resp.field.None? ==> r == []
    ensures resp.Body? && resp.field.Some? ==> r == resp.field.value
  {
    match resp
    case Body(Some(ms)) => ms
    case _ => []
  }

  /** get_upcoming_matches: the fetched list as is, or empty on failure. */
  function GetUpcomingMatches(resp: Response<seq<RawMatch>>): (r: seq<RawMatch>)
    ensures resp.RequestFailed? || resp.field.None? ==> r == []
    ensures resp.Body? && resp.field.Some? ==> r == resp.field.value
  {
    MatchesOf(resp)
  }

  // ---------------------------------------------------------------------
  // Sorting by the `utcDate` string (`x.get("utcDate", "")`).

  function Key(m: RawMatch): string { m.utcDate.GetOr("") }

  /** `a` may precede `b` in the requested direction. */
  predicate InOrder(a: RawMatch, b: RawMatch, descending: bool)
  {
    if descending then StrLe(Key(b), Key(a)) else StrLe(Key(a), Key(b))
  }

  predicate SortedBy(s: seq<RawMatch>, descending: bool)
  {
    forall i, j :: 0 <= i < j < |s| ==> InOrder(s[i], s[j], descending)
  }

  lemma InOrderTotal(a: RawMatch, b: RawMatch, descending: bool)
    ensures InOrder(a, b, descending) || InOrder(b, a, descending)
  {
    StrLeTotalOrder(Key(a), Key(b), Key(b));
  }

  lemma InOrderTransitive(a: RawMatch, b: RawMatch, c: RawMatch, descending: bool)
    requires InOrder(a, b, descending) && InOrder(b, c, descending)
    ensures InOrder(a, c, descending)
  {
    StrLeTotalOrder(Key(a), Key(b), Key(c));
    StrLeTotalOrder(Key(c), Key(b), Key(a));
  }

  lemma SortedCons(x: RawMatch, s: seq<RawMatch>, descending: bool)
    requires SortedBy(s, descending)
    requires forall j :: 0 <= j < |s| ==> InOrder(x, s[j], descending)
    ensures SortedBy([x] + s, descending)
  {
    var r := [x] + s;
    forall i, j | 0 <= i < j < |r|
      ensures InOrder(r[i], r[j], descending)
    {
      if i == 0 {
        assert r[j] == s[j - 1];
      } else {
        assert r[i] == s[i - 1] && r[j] == s[j - 1];
      }
    }
  }

  lemma BeforeHead(x: RawMatch, s: seq<RawMatch>, descending: bool)
    requires SortedBy(s, descending) && |s| > 0 && InOrder(x, s[0], descending)
    ensures forall j :: 0 <= j < |s| ==> InOrder(x, s[j], descending)
  {
    forall j | 0 < j < |s|
      ensures InOrder(x, s[j], descending)
    {
      InOrderTransitive(x, s[0], s[j], descending);
    }
  }

  lemma HeadBeforeAll(h: RawMatch, x: RawMatch, tail: seq<RawMatch>, rest: seq<RawMatch>, descending: bool)
    requires forall j :: 0 <= j < |tail| ==> InOrder(h, tail[j], descending)
    requires InOrder(h, x, descending)
    requires multiset(rest) == multiset(tail) + multiset{x}
    ensures forall j :: 0 <= j < |rest| ==> InOrder(h, rest[j], descending)
  {
    forall j | 0 <= j < |rest|
      ensures InOrder(h, rest[j], descending)
    {
      assert rest[j] in multiset(rest);
      if rest[j] != x {
        assert rest[j] in multiset(tail);
        var k :| 0 <= k < |tail| && tail[k] == rest[j];
      }
    }
  }

  function Insert(x: RawMatch, s: seq<RawMatch>, descending: bool): (r: seq<RawMatch>)
    requires SortedBy(s, descending)
    ensures multiset(r) == multiset(s) + multiset{x}
    ensures SortedBy(r, descending)
  {
    if |s| == 0 then [x]
    else if InOrder(x, s[0], descending) then
      BeforeHead(x, s, descending);
      SortedCons(x, s, descending);
      [x] + s
    else
      assert s == [s[0]] + s[1..];
      var rest := Insert(x, s[1..], descending);
      InOrderTotal(x, s[0], descending);
      assert forall j :: 0 <= j < |s[1..]| ==> InOrder(s[0], s[1..][j], descending) by {
        forall j | 0 <= j < |s[1..]|
          ensures InOrder(s[0], s[1..][j], descending)
        {
          assert s[1..][j] == s[j + 1];
        }
      }
      HeadBeforeAll(s[0], x, s[1..], rest, descending);
      SortedCons(s[0], rest, descending);
      [s[0]] + rest
  }

  /** Python's `sorted(matches, key=utcDate, reverse=descending)`. */
  function Sort(s: seq<RawMatch>, descending: bool): (r: seq<RawMatch>)
    ensures multiset(r) == multiset(s)
    ensures SortedBy(r, descending)
  {
    if |s| == 0 then []
    else
      assert s == [s[0]] + s[1..];
      Insert(s[0], Sort(s[1..], descending), descending)
  }

  /** `s[:n]`; a negative `n` drops `-n` elements from the end. */
  function Take<T>(s: seq<T>, n: int): (r: seq<T>)
    ensures r <= s
    ensures n >= 0 ==> |r| == Min(n, |s|)
    ensures n < 0 ==> |r| == if |s| + n > 0 then |s| + n else 0
  {
    if n >= 0 then s[..Min(n, |s|)]
    else if |s| + n > 0 then s[..|s| + n] else []
  }

  /** A prefix of a sorted list keeps the extreme elements: whatever copy
      of a match was cut off does not come before any element kept. */
  lemma PrefixKeepsExtremes(s: seq<RawMatch>, k: nat, descending: bool, x: RawMatch)
    requires SortedBy(s, descending) && k <= |s|
    requires multiset(s[..k])[x] < multiset(s)[x]
    ensures forall i :: 0 <= i < k ==> InOrder(s[i], x, descending)
  {
    assert s == s[..k] + s[k..];
    assert multiset(s) == multiset(s[..k]) + multiset(s[k..]);
    assert x in multiset(s[k..]);
    var j :| 0 <= j < |s[k..]| && s[k..][j] == x;
    assert s[k + j] == x;
  }

  /** The first `limit` elements of the sorted list, and what that keeps. */
  function SortTake(ms: seq<RawMatch>, limit: int, descending: bool): (r: seq<RawMatch>)
    ensures SortedBy(r, descending)
    ensures multiset(r) <= multiset(ms)
    ensures limit >= 0 ==> |r| == Min(limit, |ms|)
    ensures forall x :: multiset(r)[x] < multiset(ms)[x] ==>
              forall i :: 0 <= i < |r| ==> InOrder(r[i], x, descending)
  {
    var sorted := Sort(ms, descending);
    var r := Take(sorted, limit);
    TakeOfSorted(sorted, r, descending);
    r
  }

  lemma TakeOfSorted(sorted: seq<RawMatch>, r: seq<RawMatch>, descending: bool)
    requires SortedBy(sorted, descending) && r <= sorted
    ensures SortedBy(r, descending)
    ensures multiset(r) <= multiset(sorted)
    ensures forall x :: multiset(r)[x] < multiset(sorted)[x] ==>
              forall i :: 0 <= i < |r| ==> InOrder(r[i], x, descending)
  {
    assert sorted == r + sorted[|r|..];
    assert multiset(sorted) == multiset(r) + multiset(sorted[|r|..]);
    forall x | multiset(r)[x] < multiset(sorted)[x]
      ensures forall i :: 0 <= i < |r| ==> InOrder(r[i], x, descending)
    {
      assert r == sorted[..|r|];
      PrefixKeepsExtremes(sorted, |r|, descending, x);
    }
  }

  /** get_recent_results: the fetched finished matches, latest first, at
      most `limit` of them; no match left out is later than one kept. */
  function GetRecentResults(resp: Response<seq<RawMatch>>, limit: int): (r: seq<RawMatch>)
    ensures SortedBy(r, true)
    ensures multiset(r) <= multiset(MatchesOf(resp))
    ensures limit >= 0 ==> |r| == Min(limit, |MatchesOf(resp)|)
    ensures forall x :: multiset(r)[x] < multiset(MatchesOf(resp))[x] ==>
              forall i :: 0 <= i < |r| ==> StrLe(Key(x), Key(r[i]))
    ensures resp.RequestFailed? ==> r == []
  {
    SortTake(MatchesOf(resp), limit, true)
  }

  /** get_upcoming_future_matches: the fetched scheduled matches, earliest
      first, at most `limit` of them; no match left out is earlier than one
      kept. */
  function GetUpcomingFutureMatches(resp: Response<seq<RawMatch>>, limit: int): (r: seq<RawMatch>)
    ensures SortedBy(r, false)
    ensures multiset(r) <= multiset(MatchesOf(resp))
    ensures limit >= 0 ==> |r| == Min(limit, |MatchesOf(resp)|)
    ensures forall x :: multiset(r)[x] < multiset(MatchesOf(resp))[x] ==>
              forall i :: 0 <= i < |r| ==> StrLe(Key(r[i]), Key(x))
    ensures resp.RequestFailed? ==> r == []
  {
    SortTake(MatchesOf(resp), limit, false)
  }

  // ---------------------------------------------------------------------
  // League standing.

  datatype RawRow = RawRow(
    teamId: Option<int>, position: Option<int>, playedGames: Option<int>,
    won: Option<int>, draw: Option<int>, lost: Option<int>, points: Option<int>,
    goalsFor: Option<int>, goalsAgainst: Option<int>, goalDifference: Option<int>)

  /** One entry of `standings`: its `type` and its `table`. */
  datatype RawGroup = RawGroup(kind: Option<string>, table: Option<seq<RawRow>>)

  datatype Standing = Standing(
    position: int, played: int, won: int, draw: int, lost: int, points: int,
    goalsFor: int, goalsAgainst: int, goalDifference: int,
    playoffPoints: int, pointsToPlayoff: int)

  const PlayoffPosition: int := 6

  predicate IsTotal(g: RawGroup) { g.kind == Some("TOTAL") }

  /** The first TOTAL group; the loop `break`s after it. */
  function FirstTotal(groups: seq<RawGroup>): (r: Option<nat>)
    ensures r.None? <==> forall i :: 0 <= i < |groups| ==> !IsTotal(groups[i])
    ensures r.Some? ==> r.value < |groups| && IsTotal(groups[r.value])
    ensures r.Some? ==> forall i :: 0 <= i < r.value ==> !IsTotal(groups[i])
  {
    if |groups| == 0 then None
    else if IsTotal(groups[0]) then Some(0)
    else match FirstTotal(groups[1..])
      case None => None
      case Some(i) => Some(i + 1)
  }

  /** The row the team loop leaves behind: it does not break, so the LAST
      row carrying the team id wins. */
  function LastRowOf(table: seq<RawRow>, teamId: int): (r: Option<nat>)
    ensures r.None? <==> forall i :: 0 <= i < |table| ==> table[i].teamId != Some(teamId)
    ensures r.Some? ==> r.value < |table| && table[r.value].teamId == Some(teamId)
    ensures r.Some? ==> forall i :: r.value < i < |table| ==> table[i].teamId != Some(teamId)
  {
    if |table| == 0 then None
    else if table[|table| - 1].teamId == Some(teamId) then Some(|table| - 1)
    else LastRowOf(table[..|table| - 1], teamId)
  }

  /** Points of the first row at position 6 (the loop breaks), else 0. */
  function SixthPlacePoints(table: seq<RawRow>): (r: int)
    ensures (forall i :: 0 <= i < |table| ==> table[i].position != Some(PlayoffPosition)) ==> r == 0
    ensures forall i :: (0 <= i < |table| && table[i].position == Some(PlayoffPosition) &&
                         (forall j :: 0 <= j < i ==> table[j].position != Some(PlayoffPosition)))
                        ==> r == table[i].points.GetOr(0)
  {
    if |table| == 0 then 0
    else if table[0].position == Some(PlayoffPosition) then table[0].points.GetOr(0)
    else
      var r := SixthPlacePoints(table[1..]);
      assert forall i :: 1 <= i < |table| ==> table[i] == table[1..][i - 1];
      r
  }

  /** Points still needed to reach 6th place. */
  function PlayoffGap(sixthPoints: int, points: int, position: int): (r: int)
    ensures r >= 0
    ensures sixthPoints > points ==> r == sixthPoints - points
    ensures sixthPoints < points ==> r == 0
    ensures sixthPoints == points ==> (r == 1 <==> position > PlayoffPosition)
    ensures sixthPoints == points ==> (r == 0 <==> position <= PlayoffPosition)
  {
    var gap := sixthPoints - points;
    if gap < 0 then 0
    else if gap == 0 && position > PlayoffPosition then 1
    else gap
  }

  /** No points are needed exactly when the team is ahead of 6th place on
      points, or level with it and not below 6th. */
  lemma PlayoffGapZeroIff(sixthPoints: int, points: int, position: int)
    ensures PlayoffGap(sixthPoints, points, position) == 0 <==>
            points > sixthPoints || (points == sixthPoints && position <= PlayoffPosition)
  {
  }

  function StandingOf(row: RawRow, sixthPoints: int): (s: Standing)
    ensures s.points == row.points.GetOr(0) && s.position == row.position.GetOr(0)
    ensures s.played == row.playedGames.GetOr(0) && s.won == row.won.GetOr(0)
    ensures s.draw == row.draw.GetOr(0) && s.lost == row.lost.GetOr(0)
    ensures s.goalsFor == row.goalsFor.GetOr(0) && s.goalsAgainst == row.goalsAgainst.GetOr(0)
    ensures s.goalDifference == row.goalDifference.GetOr(0)
    ensures s.playoffPoints == sixthPoints
    ensures s.pointsToPlayoff == PlayoffGap(sixthPoints, s.points, s.position)
  {
    var points := row.points.GetOr(0);
    var position := row.position.GetOr(0);
    Standing(position, row.playedGames.GetOr(0), row.won.GetOr(0), row.draw.GetOr(0),
             row.lost.GetOr(0), points, row.goalsFor.GetOr(0), row.goalsAgainst.GetOr(0),
             row.goalDifference.GetOr(0), sixthPoints,
             PlayoffGap(sixthPoints, points, position))
  }

  function TableOf(g: RawGroup): seq<RawRow> { g.table.GetOr([]) }

  /** get_team_standing: the team's row of the first TOTAL table, with the
      6th-place points and the gap to them; None when the request failed,
      no TOTAL table exists, or the team is not in it. */
  function GetTeamStanding(resp: Response<seq<RawGroup>>, teamId: int): (r: Option<Standing>)
    ensures !(resp.Body? && resp.field.Some?) ==> r.None?
    ensures resp.Body? && resp.field.Some? ==>
      var groups := resp.field.value;
      var total := FirstTotal(groups);
      && (r.Some? <==>
            (total.Some? &&
             exists i :: 0 <= i < |TableOf(groups[total.value])| &&
                         TableOf(groups[total.value])[i].teamId == Some(teamId)))
      && (r.Some? ==>
            var table := TableOf(groups[total.value]);
            && r.value.playoffPoints == SixthPlacePoints(table)
            && exists i :: 0 <= i < |table| && table[i].teamId == Some(teamId) &&
                           r.value.points == table[i].points.GetOr(0))
    ensures resp.Body? && resp.field.Some? && r.Some? ==>
      var groups := resp.field.value;
      var table := TableOf(groups[FirstTotal(groups).value]);
      && LastRowOf(table, teamId).Some?
      && r.value == StandingOf(table[LastRowOf(table, teamId).value], SixthPlacePoints(table))
    ensures r.Some? ==> r.value.pointsToPlayoff == PlayoffGap(r.value.playoffPoints, r.value.points, r.value.position)
    ensures r.Some? ==> r.value.pointsToPlayoff >= 0
  {
    match resp
    case Body(Some(groups)) =>
      (match FirstTotal(groups)
       case None => None
       case Some(g) =>
         var table := TableOf(groups[g]);
         match LastRowOf(table, teamId)
         case None => None
         case Some(i) => Some(StandingOf(table[i], SixthPlacePoints(table))))
    case _ => None
  }

  // ---------------------------------------------------------------------
  // format_match_info.

  datatype MatchInfo = MatchInfo(
    homeTeam: string, awayTeam: string, date: string, ukTime: string,
    koreaTime: string, venue: string, status: string,
    score: Option<(int, int)>)   // home_score / away_score keys

  const Unknown: string := "Unknown"
  const Finished: string := "FINISHED"

  function FormatMatchInfo(m: RawMatch): (r: MatchInfo)
    ensures r.homeTeam == m.homeTeam.name.GetOr("Unknown")
    ensures r.awayTeam == m.awayTeam.name.GetOr("Unknown")
    ensures r.venue == m.venue.GetOr("Unknown")
    ensures r.status == m.status.GetOr("SCHEDULED")
    ensures r.score.Some? <==> r.status == "FINISHED"
    ensures r.score.Some? ==> r.score.value == (m.fullTime.home.GetOr(0), m.fullTime.away.GetOr(0))
    ensures m.parsed.None? ==> r.ukTime == "" && r.koreaTime == "" && r.date == m.utcDate.GetOr("")
    ensures m.parsed.Some? ==> r.koreaTime == FormatStamp(m.parsed.value.korea)
    ensures m.parsed.Some? ==> r.ukTime == FormatStamp(m.parsed.value.uk)
    ensures m.parsed.Some? ==> r.date == FormatStamp(m.parsed.value.utc)
  {
    var status := m.status.GetOr("SCHEDULED");
    var score := if status == Finished
                 then Some((m.fullTime.home.GetOr(0), m.fullTime.away.GetOr(0)))
                 else None;
    match m.parsed
    case None =>
      MatchInfo(m.homeTeam.name.GetOr(Unknown), m.awayTeam.name.GetOr(Unknown),
                m.utcDate.GetOr(""), "", "", m.venue.GetOr(Unknown), status, score)
    case Some(p) =>
      MatchInfo(m.homeTeam.name.GetOr(Unknown), m.awayTeam.name.GetOr(Unknown),
                FormatStamp(p.utc), FormatStamp(p.uk), FormatStamp(p.korea),
                m.venue.GetOr(Unknown), status, score)
  }

  /** Every korea_time the client hands out is either empty or a full
      "YYYY-MM-DD HH:MM" stamp, whose fifth character is the '-' after
      the year. */
  lemma KoreaTimeShape(m: RawMatch)
    ensures var k := FormatMatchInfo(m).koreaTime;
            k == "" || (|k| == 16 && k[4] == '-' && k[..10] == FormatDate(m.parsed.value.korea.date))
  {
    if m.parsed.Some? {
      FormatStampLayout(m.parsed.value.korea);
    }
  }
}
