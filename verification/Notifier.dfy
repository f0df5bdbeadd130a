/** The decisions inside `format_match_notification` (telegram_bot.py):
    which lines the /update message has, how a finished match is judged
    from the club's side, who the opponent of a future match is, and how
    time strings are shortened. The message is modelled as a sequence of
    parts; emoji and Korean wording are not. */
module Notifier {
  import opened Wrappers
  import opened Text
  import opened Stamps
  import opened Gateway

  const ClubNameKo: string := "버밍엄"
  const ClubNameEn: string := "Birmingham"

  /** `"버밍엄" in name or "Birmingham" in name`. */
  predicate IsClub(name: string)
  {
    Contains(name, ClubNameKo) || Contains(name, ClubNameEn)
  }

  datatype Outcome = Win | Draw | Loss | Unrelated

  /** The result text of a recent match, from the club's side. The home
      check comes first, so a match whose both names mention the club is
      judged as a home match. */
  function Classify(home: string, away: string, homeScore: int, awayScore: int): (r: Outcome)
    ensures IsClub(home) ==>
      (r == Win <==> homeScore > awayScore) && (r == Loss <==> homeScore < awayScore) &&
      (r == Draw <==> homeScore == awayScore)
    ensures !IsClub(home) && IsClub(away) ==>
      (r == Win <==> awayScore > homeScore) && (r == Loss <==> awayScore < homeScore) &&
      (r == Draw <==> homeScore == awayScore)
    ensures r == Unrelated <==> !IsClub(home) && !IsClub(away)
  {
    if IsClub(home) then
      if homeScore > awayScore then Win
      else if homeScore < awayScore then Loss
      else Draw
    else if IsClub(away) then
      if awayScore > homeScore then Win
      else if awayScore < homeScore then Loss
      else Draw
    else Unrelated
  }

  /** An away match is judged as the same match seen from the other side:
      swapping the sides and the scores does not change the outcome. */
  lemma ClassifyMirror(home: string, away: string, homeScore: int, awayScore: int)
    requires !IsClub(home) && IsClub(away)
    ensures Classify(home, away, homeScore, awayScore) == Classify(away, home, awayScore, homeScore)
  {
  }

  /** A draw is a draw from either side; a win for one side is a loss when
      the club plays the other side. */
  lemma ClassifyFlipsWithSide(a: string, b: string, x: int, y: int)
    requires IsClub(a) && !IsClub(b)
    ensures Classify(a, b, x, y) == Win <==> Classify(b, a, y, x) == Win
    ensures Classify(a, b, x, y) == Draw <==> x == y
  {
  }

  /** `s[5:] if len(s) > 5 else s`. */
  function Shorten(s: string): (r: string)
    ensures |s| > 5 ==> |r| == |s| - 5
    ensures |s| <= 5 ==> r == s
  {
    if |s| > 5 then s[5..] else s
  }

  /** A longer string is its first five characters followed by its
      shortened form. */
  lemma ShortenKeepsRest(s: string)
    requires |s| > 5
    ensures s == s[..5] + Shorten(s)
  {
  }

  /** On the client's time strings, shortening removes exactly the year:
      "YYYY-MM-DD HH:MM" becomes "MM-DD HH:MM"; an empty time stays empty. */
  lemma ShortenDropsYear(st: LocalStamp)
    ensures Shorten(FormatStamp(st)) ==
            Pad2(st.date.month) + "-" + Pad2(st.date.day) + " " + FormatClock(st)
    ensures Shorten("") == ""
  {
    FormatStampLayout(st);
  }

  /** The opponent and home flag of a future match. */
  function Opponent(home: string, away: string): (r: (string, bool))
    ensures r.1 <==> IsClub(home)
    ensures r.0 == if IsClub(home) then away else home
  {
    var isHome := IsClub(home);
    (if isHome then away else home, isHome)
  }

  /** When exactly one side is the club, the opponent shown is the other
      side, never the club itself. */
  lemma OpponentIsOtherSide(home: string, away: string)
    requires IsClub(home) != IsClub(away)
    ensures !IsClub(Opponent(home, away).0)
  {
  }

  /** The explicit sign of the goal difference: "+" only for a positive one
      (a negative number prints its own "-"). */
  function SignPrefix(goalDiff: int): (r: string)
    ensures r == "+" <==> goalDiff > 0
    ensures r == "" <==> goalDiff <= 0
  {
    if goalDiff > 0 then "+" else ""
  }

  datatype Part =
    | Title
    | StandingLine(position: int, played: int, won: int, draw: int, lost: int,
                   points: int, sign: string, goalDiff: int)
    | Blank
    | UpcomingHeader
    | NoUpcoming
    | Times(korea: string, uk: string)
    | Teams(home: string, away: string)
    | Venue(name: string)
    | FutureHeader
    | Versus(opponent: string, atHome: bool)
    | RecentHeader
    | ResultLine(home: string, homeScore: int, awayScore: int, away: string, outcome: Outcome)
    | NoMatches
    | PleaseWait

  /** The lines one match of the "today/tomorrow" section takes: times,
      teams, the venue when it is known, and a blank line. */
  function BlockLength(m: MatchInfo): nat { if m.venue != Unknown then 4 else 3 }

  /** The line with the Korean and UK kick-off times, each without its year. */
  function TimesOf(m: MatchInfo): Part { Times(Shorten(m.koreaTime), Shorten(m.ukTime)) }

  /** One match of the "today/tomorrow" section. */
  function UpcomingBlock(m: MatchInfo): (r: seq<Part>)
    ensures |r| == BlockLength(m)
    ensures r[0] == TimesOf(m) && r[1] == Teams(m.homeTeam, m.awayTeam)
    ensures r[|r| - 1] == Blank
    ensures Venue(m.venue) in r <==> m.venue != "Unknown"
    ensures m.venue != "Unknown" ==> r[2] == Venue(m.venue)
  {
    [TimesOf(m), Teams(m.homeTeam, m.awayTeam)]
    + (if m.venue != Unknown then [Venue(m.venue)] else [])
    + [Blank]
  }

  /** The only venue line a block can hold is its own match's. */
  lemma UpcomingBlockVenues(m: MatchInfo)
    ensures forall v :: Venue(v) in UpcomingBlock(m) <==> v == m.venue && m.venue != "Unknown"
  {
  }

  /** The "today/tomorrow" section: the blocks of the matches, one after
      another in list order. */
  function UpcomingBlocks(ms: seq<MatchInfo>): (r: seq<Part>)
    ensures 3 * |ms| <= |r| <= 4 * |ms|
    ensures |ms| > 0 ==> r[0] == TimesOf(ms[0])
  {
    if |ms| == 0 then [] else UpcomingBlock(ms[0]) + UpcomingBlocks(ms[1..])
  }

  /** A venue line appears in the section exactly for the venues of its
      matches, except the "Unknown" placeholder. */
  lemma {:induction false} UpcomingVenues(ms: seq<MatchInfo>)
    ensures forall v :: Venue(v) in UpcomingBlocks(ms) <==>
              (v != "Unknown" && exists i :: 0 <= i < |ms| && ms[i].venue == v)
  {
    if |ms| > 0 {
      UpcomingVenues(ms[1..]);
      UpcomingBlockVenues(ms[0]);
      assert forall i :: 1 <= i < |ms| ==> ms[i] == ms[1..][i - 1];
    }
  }

  lemma SplitAt<T>(s: seq<T>, i: nat)
    requires i < |s|
    ensures s == s[..i] + ([s[i]] + s[i + 1..])
    ensures ([s[i]] + s[i + 1..])[0] == s[i] && ([s[i]] + s[i + 1..])[1..] == s[i + 1..]
  {
  }

  lemma AppendAssoc<T>(a: seq<T>, b: seq<T>, c: seq<T>)
    ensures a + (b + c) == (a + b) + c
  {
  }

  /** Indexing into a three-element middle piece of a concatenation. */
  lemma Middle3<T>(a: seq<T>, b: seq<T>, c: seq<T>)
    requires |b| == 3
    ensures (a + b + c)[|a|] == b[0] && (a + b + c)[|a| + 1] == b[1] && (a + b + c)[|a| + 2] == b[2]
  {
  }

  /** The section of two lists of matches is the section of the first
      followed by the section of the second. */
  lemma {:induction false} UpcomingBlocksAppend(a: seq<MatchInfo>, b: seq<MatchInfo>)
    ensures UpcomingBlocks(a + b) == UpcomingBlocks(a) + UpcomingBlocks(b)
  {
    if |a| == 0 {
      assert a + b == b;
    } else {
      var h := UpcomingBlock(a[0]);
      assert (a + b)[0] == a[0] && (a + b)[1..] == a[1..] + b;
      calc {
        UpcomingBlocks(a + b);
        h + UpcomingBlocks(a[1..] + b);
        { UpcomingBlocksAppend(a[1..], b); }
        h + (UpcomingBlocks(a[1..]) + UpcomingBlocks(b));
        { AppendAssoc(h, UpcomingBlocks(a[1..]), UpcomingBlocks(b)); }
        (h + UpcomingBlocks(a[1..])) + UpcomingBlocks(b);
        UpcomingBlocks(a) + UpcomingBlocks(b);
      }
    }
  }

  /** Each match contributes exactly its own block, in list order: the
      section is the blocks of the matches before `ms[i]`, then the block
      of `ms[i]` (times, teams, its venue when known, a blank line), then
      the blocks of the matches after it. */
  lemma UpcomingBlocksPerMatch(ms: seq<MatchInfo>)
    ensures forall i :: 0 <= i < |ms| ==>
              UpcomingBlocks(ms) == UpcomingBlocks(ms[..i]) + UpcomingBlock(ms[i]) + UpcomingBlocks(ms[i + 1..])
  {
    forall i | 0 <= i < |ms|
      ensures UpcomingBlocks(ms) == UpcomingBlocks(ms[..i]) + UpcomingBlock(ms[i]) + UpcomingBlocks(ms[i + 1..])
    {
      UpcomingBlocksSplit(ms, i);
    }
  }

  lemma UpcomingBlocksSplit(ms: seq<MatchInfo>, i: nat)
    requires i < |ms|
    ensures UpcomingBlocks(ms) == UpcomingBlocks(ms[..i]) + UpcomingBlock(ms[i]) + UpcomingBlocks(ms[i + 1..])
  {
    var pre, post := UpcomingBlocks(ms[..i]), UpcomingBlocks(ms[i + 1..]);
    var tail := [ms[i]] + ms[i + 1..];
    SplitAt(ms, i);
    UpcomingBlocksAppend(ms[..i], tail);
    assert UpcomingBlocks(tail) == UpcomingBlock(ms[i]) + post;
    AppendAssoc(pre, UpcomingBlock(ms[i]), post);
  }

  /** One match of the "next matches" section. */
  function FutureBlock(m: MatchInfo): (r: seq<Part>)
    ensures |r| == 3 && r[0] == TimesOf(m) && r[2] == Blank
    ensures r[1] == Versus(Opponent(m.homeTeam, m.awayTeam).0, Opponent(m.homeTeam, m.awayTeam).1)
  {
    var (opponent, isHome) := Opponent(m.homeTeam, m.awayTeam);
    [TimesOf(m), Versus(opponent, isHome), Blank]
  }

  /** The "next matches" section: per match its times, the opponent with
      the home flag, and a blank line. */
  function FutureBlocks(ms: seq<MatchInfo>): (r: seq<Part>)
    ensures |r| == 3 * |ms|
  {
    if |ms| == 0 then [] else FutureBlock(ms[0]) + FutureBlocks(ms[1..])
  }

  /** The "next matches" section of two lists of matches is the section of the
      first followed by the section of the second. */
  lemma {:induction false} FutureBlocksAppend(a: seq<MatchInfo>, b: seq<MatchInfo>)
    ensures FutureBlocks(a + b) == FutureBlocks(a) + FutureBlocks(b)
  {
    if |a| == 0 {
      assert a + b == b;
    } else {
      var h := FutureBlock(a[0]);
      assert (a + b)[0] == a[0] && (a + b)[1..] == a[1..] + b;
      calc {
        FutureBlocks(a + b);
        h + FutureBlocks(a[1..] + b);
        { FutureBlocksAppend(a[1..], b); }
        h + (FutureBlocks(a[1..]) + FutureBlocks(b));
        { AppendAssoc(h, FutureBlocks(a[1..]), FutureBlocks(b)); }
        (h + FutureBlocks(a[1..])) + FutureBlocks(b);
        FutureBlocks(a) + FutureBlocks(b);
      }
    }
  }

  /** Each match contributes exactly its own block, in list order. */
  lemma FutureBlocksSplit(ms: seq<MatchInfo>, i: nat)
    requires i < |ms|
    ensures FutureBlocks(ms) == FutureBlocks(ms[..i]) + FutureBlock(ms[i]) + FutureBlocks(ms[i + 1..])
  {
    var pre, post := FutureBlocks(ms[..i]), FutureBlocks(ms[i + 1..]);
    var tail := [ms[i]] + ms[i + 1..];
    SplitAt(ms, i);
    FutureBlocksAppend(ms[..i], tail);
    assert FutureBlocks(tail) == FutureBlock(ms[i]) + post;
    AppendAssoc(pre, FutureBlock(ms[i]), post);
  }

  /** Block i of the "next matches" section: match i's shortened times,
      its opponent with the home flag, and a blank line. */
  lemma FutureBlockParts(ms: seq<MatchInfo>, i: nat)
    requires i < |ms|
    ensures FutureBlocks(ms)[3 * i] == TimesOf(ms[i])
    ensures FutureBlocks(ms)[3 * i + 1] == Versus(Opponent(ms[i].homeTeam, ms[i].awayTeam).0,
                                                  Opponent(ms[i].homeTeam, ms[i].awayTeam).1)
    ensures FutureBlocks(ms)[3 * i + 2] == Blank
  {
    FutureBlockAt(ms, i);
  }

  /** Block i of the next matches section is the block of match i. */
  lemma FutureBlockAt(ms: seq<MatchInfo>, i: nat)
    requires i < |ms|
    ensures FutureBlocks(ms)[3 * i] == FutureBlock(ms[i])[0]
    ensures FutureBlocks(ms)[3 * i + 1] == FutureBlock(ms[i])[1]
    ensures FutureBlocks(ms)[3 * i + 2] == FutureBlock(ms[i])[2]
  {
    FutureBlocksSplit(ms, i);
    Middle3(FutureBlocks(ms[..i]), FutureBlock(ms[i]), FutureBlocks(ms[i + 1..]));
  }

  function ScoreOf(m: MatchInfo): (int, int) { m.score.GetOr((0, 0)) }

  function ResultOf(m: MatchInfo): Part
  {
    var (hs, as_) := ScoreOf(m);
    ResultLine(m.homeTeam, hs, as_, m.awayTeam, Classify(m.homeTeam, m.awayTeam, hs, as_))
  }

  /** One match of the "recent results" section. */
  function RecentBlock(m: MatchInfo): (r: seq<Part>)
    ensures |r| == 3 && r[0] == TimesOf(m) && r[1] == ResultOf(m) && r[2] == Blank
  {
    [TimesOf(m), ResultOf(m), Blank]
  }

  /** The "recent results" section: per match its times, the score line
      with the classified result, and a blank line. */
  function RecentBlocks(ms: seq<MatchInfo>): (r: seq<Part>)
    ensures |r| == 3 * |ms|
  {
    if |ms| == 0 then [] else RecentBlock(ms[0]) + RecentBlocks(ms[1..])
  }

  /** The "recent results" section of two lists of matches is the section of the
      first followed by the section of the second. */
  lemma {:induction false} RecentBlocksAppend(a: seq<MatchInfo>, b: seq<MatchInfo>)
    ensures RecentBlocks(a + b) == RecentBlocks(a) + RecentBlocks(b)
  {
    if |a| == 0 {
      assert a + b == b;
    } else {
      var h := RecentBlock(a[0]);
      assert (a + b)[0] == a[0] && (a + b)[1..] == a[1..] + b;
      calc {
        RecentBlocks(a + b);
        h + RecentBlocks(a[1..] + b);
        { RecentBlocksAppend(a[1..], b); }
        h + (RecentBlocks(a[1..]) + RecentBlocks(b));
        { AppendAssoc(h, RecentBlocks(a[1..]), RecentBlocks(b)); }
        (h + RecentBlocks(a[1..])) + RecentBlocks(b);
        RecentBlocks(a) + RecentBlocks(b);
      }
    }
  }

  /** Each match contributes exactly its own block, in list order. */
  lemma RecentBlocksSplit(ms: seq<MatchInfo>, i: nat)
    requires i < |ms|
    ensures RecentBlocks(ms) == RecentBlocks(ms[..i]) + RecentBlock(ms[i]) + RecentBlocks(ms[i + 1..])
  {
    var pre, post := RecentBlocks(ms[..i]), RecentBlocks(ms[i + 1..]);
    var tail := [ms[i]] + ms[i + 1..];
    SplitAt(ms, i);
    RecentBlocksAppend(ms[..i], tail);
    assert RecentBlocks(tail) == RecentBlock(ms[i]) + post;
    AppendAssoc(pre, RecentBlock(ms[i]), post);
  }

  /** Block i of the "recent results" section: match i's shortened times,
      its score line with the classified result, and a blank line. */
  lemma RecentBlockParts(ms: seq<MatchInfo>, i: nat)
    requires i < |ms|
    ensures RecentBlocks(ms)[3 * i] == TimesOf(ms[i])
    ensures RecentBlocks(ms)[3 * i + 1] == ResultOf(ms[i])
    ensures RecentBlocks(ms)[3 * i + 2] == Blank
  {
    RecentBlockAt(ms, i);
  }

  /** Block i of the recent results section is the block of match i. */
  lemma RecentBlockAt(ms: seq<MatchInfo>, i: nat)
    requires i < |ms|
    ensures RecentBlocks(ms)[3 * i] == RecentBlock(ms[i])[0]
    ensures RecentBlocks(ms)[3 * i + 1] == RecentBlock(ms[i])[1]
    ensures RecentBlocks(ms)[3 * i + 2] == RecentBlock(ms[i])[2]
  {
    RecentBlocksSplit(ms, i);
    Middle3(RecentBlocks(ms[..i]), RecentBlock(ms[i]), RecentBlocks(ms[i + 1..]));
  }

  /** The standing line of telegram_bot.py for `s`: the position, the
      played, won, drawn and lost counts and the points, then the goal
      difference, signed "+" exactly when it is positive. */
  predicate ShowsStanding(p: Part, s: Standing)
  {
    && p.StandingLine?
    && p.position == s.position && p.played == s.played
    && p.won == s.won && p.draw == s.draw && p.lost == s.lost
    && p.points == s.points && p.goalDiff == s.goalDifference
    && (p.sign == "+" <==> s.goalDifference > 0)
    && (p.sign == "" <==> s.goalDifference <= 0)
  }

  /** A standing determines its line: no two different lines show it. */
  lemma ShowsStandingUnique(p: Part, q: Part, s: Standing)
    requires ShowsStanding(p, s) && ShowsStanding(q, s)
    ensures p == q
  {
  }

  /** The standing line and a blank line, or nothing without a standing. */
  function StandingParts(standing: Option<Standing>): (r: seq<Part>)
    ensures standing.None? ==> r == []
    ensures standing.Some? ==> |r| == 2 && ShowsStanding(r[0], standing.value) && r[1] == Blank
  {
    match standing
    case None => []
    case Some(s) =>
      [StandingLine(s.position, s.played, s.won, s.draw, s.lost, s.points,
                    SignPrefix(s.goalDifference), s.goalDifference), Blank]
  }

  /** The title, then the standing line and a blank line when a standing
      is known. */
  function Head(standing: Option<Standing>): (r: seq<Part>)
    ensures |r| == if standing.Some? then 3 else 1
    ensures r[0] == Title
    ensures standing.Some? ==> ShowsStanding(r[1], standing.value) && r[2] == Blank
  {
    [Title] + StandingParts(standing)
  }

  /** The "today/tomorrow" section: its header, then the match blocks or,
      without matches, the "none scheduled" line. */
  function UpcomingSection(upcoming: seq<MatchInfo>): (r: seq<Part>)
    ensures |r| > 0 && r[0] == UpcomingHeader
    ensures |upcoming| == 0 ==> r == [UpcomingHeader, NoUpcoming]
    ensures |upcoming| > 0 ==> r[1..] == UpcomingBlocks(upcoming)
  {
    [UpcomingHeader] + (if |upcoming| > 0 then UpcomingBlocks(upcoming) else [NoUpcoming])
  }

  /** The "next matches" section, left out entirely when there are none. */
  function FutureSection(future: seq<MatchInfo>): (r: seq<Part>)
    ensures |future| == 0 <==> r == []
    ensures |future| > 0 ==> r[0] == FutureHeader && r[1..] == FutureBlocks(future)
  {
    if |future| > 0 then [FutureHeader] + FutureBlocks(future) else []
  }

  /** The "recent results" section, left out entirely when there are none. */
  function RecentSection(recent: seq<MatchInfo>): (r: seq<Part>)
    ensures |recent| == 0 <==> r == []
    ensures |recent| > 0 ==> r[0] == RecentHeader && r[1..] == RecentBlocks(recent)
  {
    if |recent| > 0 then [RecentHeader] + RecentBlocks(recent) else []
  }

  /** The closing "no matches, please wait" lines, present only when all
      three lists are empty. */
  function Trailer(upcoming: seq<MatchInfo>, future: seq<MatchInfo>, recent: seq<MatchInfo>): (r: seq<Part>)
    ensures r != [] <==> |upcoming| == 0 && |future| == 0 && |recent| == 0
    ensures r != [] ==> r == [NoMatches, PleaseWait]
  {
    if |upcoming| == 0 && |future| == 0 && |recent| == 0 then [NoMatches, PleaseWait] else []
  }

  /** format_match_notification, as the sequence of its parts: the title
      comes first, the "today/tomorrow" header follows the standing, and
      the "next matches" and "recent results" headers, when present, come
      after it in that order, each right after the previous section. */
  function FormatNotification(upcoming: seq<MatchInfo>, future: seq<MatchInfo>,
                              recent: seq<MatchInfo>, standing: Option<Standing>): (r: seq<Part>)
    ensures |r| >= |Head(standing)| + |UpcomingSection(upcoming)| + |FutureSection(future)| +
                   |RecentSection(recent)|
    ensures r[0] == Title
    ensures standing.Some? ==> ShowsStanding(r[1], standing.value)
    ensures r[|Head(standing)|] == UpcomingHeader
    ensures |future| > 0 ==>
              r[|Head(standing)| + |UpcomingSection(upcoming)|] == FutureHeader
    ensures |recent| > 0 ==>
              r[|Head(standing)| + |UpcomingSection(upcoming)| + |FutureSection(future)|] == RecentHeader
  {
    var h, u, f, c, t := Head(standing), UpcomingSection(upcoming), FutureSection(future),
                         RecentSection(recent), Trailer(upcoming, future, recent);
    ConcatStarts(h, u, f, c, t);
    h + u + f + c + t
  }

  /** Where each piece of a five-piece concatenation starts. */
  lemma ConcatStarts<T>(a: seq<T>, b: seq<T>, c: seq<T>, d: seq<T>, e: seq<T>)
    ensures |a + b + c + d + e| == |a| + |b| + |c| + |d| + |e|
    ensures forall k :: 0 <= k < |a| ==> (a + b + c + d + e)[k] == a[k]
    ensures |b| > 0 ==> (a + b + c + d + e)[|a|] == b[0]
    ensures |c| > 0 ==> (a + b + c + d + e)[|a| + |b|] == c[0]
    ensures |d| > 0 ==> (a + b + c + d + e)[|a| + |b| + |c|] == d[0]
  {
  }

  /** A part is in the notification iff it is in one of its sections. */
  lemma NotificationParts(upcoming: seq<MatchInfo>, future: seq<MatchInfo>,
                          recent: seq<MatchInfo>, standing: Option<Standing>, p: Part)
    ensures p in FormatNotification(upcoming, future, recent, standing) <==>
            p in Head(standing) || p in UpcomingSection(upcoming) || p in FutureSection(future) ||
            p in RecentSection(recent) || p in Trailer(upcoming, future, recent)
  {
    var h, u, f, c, t := Head(standing), UpcomingSection(upcoming), FutureSection(future),
                         RecentSection(recent), Trailer(upcoming, future, recent);
    assert FormatNotification(upcoming, future, recent, standing) == h + u + f + c + t;
  }

  /** The parts the blocks of each section are made of. */
  predicate UpcomingPart(p: Part) { p.Times? || p.Teams? || p.Venue? || p.Blank? }
  predicate FuturePart(p: Part) { p.Times? || p.Versus? || p.Blank? }
  predicate RecentPart(p: Part) { p.Times? || p.ResultLine? || p.Blank? }

  lemma UpcomingBlockKind(m: MatchInfo, p: Part)
    ensures p in UpcomingBlock(m) ==> UpcomingPart(p)
  {
  }

  /** Every part of the "today/tomorrow" blocks is a times, teams, venue or blank line. */
  lemma {:induction false} UpcomingKinds(ms: seq<MatchInfo>, p: Part)
    ensures p in UpcomingBlocks(ms) ==> UpcomingPart(p)
  {
    if |ms| > 0 {
      UpcomingKinds(ms[1..], p);
      UpcomingBlockKind(ms[0], p);
    }
  }

  /** Every part of the "next matches" blocks is a times, opponent or blank line. */
  lemma {:induction false} FutureKinds(ms: seq<MatchInfo>, p: Part)
    ensures p in FutureBlocks(ms) ==> FuturePart(p)
  {
    if |ms| > 0 {
      FutureKinds(ms[1..], p);
    }
  }

  /** Every part of the "recent results" blocks is a times, result or blank line. */
  lemma {:induction false} RecentKinds(ms: seq<MatchInfo>, p: Part)
    ensures p in RecentBlocks(ms) ==> RecentPart(p)
  {
    if |ms| > 0 {
      RecentKinds(ms[1..], p);
    }
  }

  /** The parts of the "today/tomorrow" section: its header, then its
      blocks or the "none scheduled" line. */
  lemma UpcomingSectionHas(upcoming: seq<MatchInfo>, p: Part)
    ensures p in UpcomingSection(upcoming) <==>
            p == UpcomingHeader || (|upcoming| == 0 && p == NoUpcoming) || p in UpcomingBlocks(upcoming)
  {
    if |upcoming| == 0 {
      assert UpcomingBlocks(upcoming) == [];
    }
  }

  /** The parts of the "next matches" section: nothing without matches,
      else its header and its blocks. */
  lemma FutureSectionHas(future: seq<MatchInfo>, p: Part)
    ensures p in FutureSection(future) <==> |future| > 0 && (p == FutureHeader || p in FutureBlocks(future))
  {
  }

  /** The parts of the "recent results" section: nothing without matches,
      else its header and its blocks. */
  lemma RecentSectionHas(recent: seq<MatchInfo>, p: Part)
    ensures p in RecentSection(recent) <==> |recent| > 0 && (p == RecentHeader || p in RecentBlocks(recent))
  {
  }

  /** Which headers the "today/tomorrow" section holds. */
  lemma UpcomingSectionParts(upcoming: seq<MatchInfo>)
    ensures NoUpcoming in UpcomingSection(upcoming) <==> |upcoming| == 0
    ensures FutureHeader !in UpcomingSection(upcoming) && RecentHeader !in UpcomingSection(upcoming)
    ensures NoMatches !in UpcomingSection(upcoming)
  {
    UpcomingSectionHas(upcoming, NoUpcoming);
    UpcomingSectionHas(upcoming, FutureHeader);
    UpcomingSectionHas(upcoming, RecentHeader);
    UpcomingSectionHas(upcoming, NoMatches);
    UpcomingKinds(upcoming, NoUpcoming);
    UpcomingKinds(upcoming, FutureHeader);
    UpcomingKinds(upcoming, RecentHeader);
    UpcomingKinds(upcoming, NoMatches);
  }

  /** A venue line is in the "today/tomorrow" section iff it is in its
      blocks. */
  lemma UpcomingSectionVenue(upcoming: seq<MatchInfo>, v: string)
    ensures Venue(v) in UpcomingSection(upcoming) <==> Venue(v) in UpcomingBlocks(upcoming)
  {
    UpcomingSectionHas(upcoming, Venue(v));
  }

  /** The "today/tomorrow" section holds no standing line. */
  lemma UpcomingSectionNoStanding(upcoming: seq<MatchInfo>)
    ensures forall p :: p in UpcomingSection(upcoming) ==> !p.StandingLine?
  {
    forall p | p in UpcomingSection(upcoming)
      ensures !p.StandingLine?
    {
      UpcomingSectionHas(upcoming, p);
      UpcomingKinds(upcoming, p);
    }
  }

  /** Which headers the "next matches" section holds. */
  lemma FutureSectionParts(future: seq<MatchInfo>)
    ensures FutureHeader in FutureSection(future) <==> |future| > 0
    ensures NoUpcoming !in FutureSection(future) && RecentHeader !in FutureSection(future)
    ensures NoMatches !in FutureSection(future)
  {
    FutureSectionHas(future, FutureHeader);
    FutureSectionHas(future, NoUpcoming);
    FutureSectionHas(future, RecentHeader);
    FutureSectionHas(future, NoMatches);
    FutureKinds(future, NoUpcoming);
    FutureKinds(future, RecentHeader);
    FutureKinds(future, NoMatches);
  }

  /** The "next matches" section holds neither a venue nor a standing
      line. */
  lemma FutureSectionLines(future: seq<MatchInfo>)
    ensures forall p :: p in FutureSection(future) ==> !p.Venue? && !p.StandingLine?
  {
    forall p | p in FutureSection(future)
      ensures !p.Venue? && !p.StandingLine?
    {
      FutureSectionHas(future, p);
      FutureKinds(future, p);
    }
  }

  /** Which headers the "recent results" section holds. */
  lemma RecentSectionParts(recent: seq<MatchInfo>)
    ensures RecentHeader in RecentSection(recent) <==> |recent| > 0
    ensures NoUpcoming !in RecentSection(recent) && FutureHeader !in RecentSection(recent)
    ensures NoMatches !in RecentSection(recent)
  {
    RecentSectionHas(recent, RecentHeader);
    RecentSectionHas(recent, NoUpcoming);
    RecentSectionHas(recent, FutureHeader);
    RecentSectionHas(recent, NoMatches);
    RecentKinds(recent, NoUpcoming);
    RecentKinds(recent, FutureHeader);
    RecentKinds(recent, NoMatches);
  }

  /** The "recent results" section holds neither a venue nor a standing
      line. */
  lemma RecentSectionLines(recent: seq<MatchInfo>)
    ensures forall p :: p in RecentSection(recent) ==> !p.Venue? && !p.StandingLine?
  {
    forall p | p in RecentSection(recent)
      ensures !p.Venue? && !p.StandingLine?
    {
      RecentSectionHas(recent, p);
      RecentKinds(recent, p);
    }
  }

  /** The "no matches" trailer appears exactly when all three lists are
      empty. */
  lemma TrailerIffNoMatches(upcoming: seq<MatchInfo>, future: seq<MatchInfo>,
                            recent: seq<MatchInfo>, standing: Option<Standing>)
    ensures NoMatches in FormatNotification(upcoming, future, recent, standing) <==>
            |upcoming| == 0 && |future| == 0 && |recent| == 0
  {
    NotificationParts(upcoming, future, recent, standing, NoMatches);
    UpcomingSectionParts(upcoming);
    FutureSectionParts(future);
    RecentSectionParts(recent);
    assert NoMatches !in Head(standing);
  }

  /** Each section header, and the "none scheduled" line, appears exactly
      when its list decides it does. */
  lemma SectionHeaders(upcoming: seq<MatchInfo>, future: seq<MatchInfo>,
                       recent: seq<MatchInfo>, standing: Option<Standing>)
    ensures UpcomingHeader in FormatNotification(upcoming, future, recent, standing)
    ensures NoUpcoming in FormatNotification(upcoming, future, recent, standing) <==> |upcoming| == 0
    ensures FutureHeader in FormatNotification(upcoming, future, recent, standing) <==> |future| > 0
    ensures RecentHeader in FormatNotification(upcoming, future, recent, standing) <==> |recent| > 0
  {
    var r := FormatNotification(upcoming, future, recent, standing);
    assert r[|Head(standing)|] == UpcomingHeader;
    NoUpcomingIff(upcoming, future, recent, standing);
    FutureHeaderIff(upcoming, future, recent, standing);
    RecentHeaderIff(upcoming, future, recent, standing);
  }

  /** The "none scheduled" line appears exactly without upcoming matches. */
  lemma NoUpcomingIff(upcoming: seq<MatchInfo>, future: seq<MatchInfo>,
                      recent: seq<MatchInfo>, standing: Option<Standing>)
    ensures NoUpcoming in FormatNotification(upcoming, future, recent, standing) <==> |upcoming| == 0
  {
    NotificationParts(upcoming, future, recent, standing, NoUpcoming);
    UpcomingSectionParts(upcoming);
    FutureSectionParts(future);
    RecentSectionParts(recent);
    assert NoUpcoming !in Head(standing);
  }

  /** The "next matches" header appears exactly with future matches. */
  lemma FutureHeaderIff(upcoming: seq<MatchInfo>, future: seq<MatchInfo>,
                        recent: seq<MatchInfo>, standing: Option<Standing>)
    ensures FutureHeader in FormatNotification(upcoming, future, recent, standing) <==> |future| > 0
  {
    NotificationParts(upcoming, future, recent, standing, FutureHeader);
    UpcomingSectionParts(upcoming);
    FutureSectionParts(future);
    RecentSectionParts(recent);
    assert FutureHeader !in Head(standing);
  }

  /** The "recent results" header appears exactly with recent matches. */
  lemma RecentHeaderIff(upcoming: seq<MatchInfo>, future: seq<MatchInfo>,
                        recent: seq<MatchInfo>, standing: Option<Standing>)
    ensures RecentHeader in FormatNotification(upcoming, future, recent, standing) <==> |recent| > 0
  {
    NotificationParts(upcoming, future, recent, standing, RecentHeader);
    UpcomingSectionParts(upcoming);
    FutureSectionParts(future);
    RecentSectionParts(recent);
    assert RecentHeader !in Head(standing);
  }

  /** A venue line appears exactly for each upcoming match whose venue is
      known. */
  lemma VenueLines(upcoming: seq<MatchInfo>, future: seq<MatchInfo>,
                   recent: seq<MatchInfo>, standing: Option<Standing>)
    ensures forall v :: Venue(v) in FormatNotification(upcoming, future, recent, standing) <==>
              (v != "Unknown" && exists i :: 0 <= i < |upcoming| && upcoming[i].venue == v)
  {
    UpcomingVenues(upcoming);
    forall v
      ensures Venue(v) in FormatNotification(upcoming, future, recent, standing) <==>
              Venue(v) in UpcomingBlocks(upcoming)
    {
      VenueIn(upcoming, future, recent, standing, v);
    }
  }

  /** Only the "today/tomorrow" blocks can hold a venue line. */
  lemma VenueIn(upcoming: seq<MatchInfo>, future: seq<MatchInfo>,
                recent: seq<MatchInfo>, standing: Option<Standing>, v: string)
    ensures Venue(v) in FormatNotification(upcoming, future, recent, standing) <==>
            Venue(v) in UpcomingBlocks(upcoming)
  {
    NotificationParts(upcoming, future, recent, standing, Venue(v));
    UpcomingSectionVenue(upcoming, v);
    FutureSectionLines(future);
    RecentSectionLines(recent);
    assert Venue(v) !in Head(standing);
  }

  /** The standing line appears exactly when a standing is given. */
  lemma StandingLineIffStanding(upcoming: seq<MatchInfo>, future: seq<MatchInfo>,
                                recent: seq<MatchInfo>, standing: Option<Standing>)
    ensures (exists p :: p in FormatNotification(upcoming, future, recent, standing) && p.StandingLine?)
            <==> standing.Some?
  {
    var r := FormatNotification(upcoming, future, recent, standing);
    if standing.None? {
      UpcomingSectionNoStanding(upcoming);
      FutureSectionLines(future);
      RecentSectionLines(recent);
      forall p | p in r
        ensures !p.StandingLine?
      {
        NotificationParts(upcoming, future, recent, standing, p);
      }
    } else {
      assert r[1] in r;
    }
  }

  /** Every recent match gets its result line, judged by Classify. */
  lemma ResultLines(upcoming: seq<MatchInfo>, future: seq<MatchInfo>,
                    recent: seq<MatchInfo>, standing: Option<Standing>)
    ensures forall i :: 0 <= i < |recent| ==>
              ResultOf(recent[i]) in FormatNotification(upcoming, future, recent, standing)
  {
    forall i | 0 <= i < |recent|
      ensures ResultOf(recent[i]) in FormatNotification(upcoming, future, recent, standing)
    {
      var c := RecentSection(recent);
      RecentBlockParts(recent, i);
      assert c[1..][3 * i + 1] == ResultOf(recent[i]);
      NotificationParts(upcoming, future, recent, standing, ResultOf(recent[i]));
    }
  }
}
