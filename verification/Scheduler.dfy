/** NotificationScheduler (scheduler.py) as pure step functions. Each
    cycle maps (state, users, gateway snapshot, now) to a new state and the
    messages it sends. Time is in whole minutes; the users are the rows the
    store's query returned; the gateway snapshot is the list the API client
    returned. The in-memory state is never pruned, as in the source. */
module Scheduler {
  import opened Wrappers
  import opened Text
  import opened Stamps
  import opened Store
  import opened Gateway

  /** BIRMINGHAM_TEAM_ID as configured in config.example.py. */
  const ClubTeamId: int := 332

  /** Reminders are scheduled at most this far ahead (`timedelta(hours=2)`). */
  const LookAheadMinutes: int := 120

  /** The lineup check looks at matches kicking off within this many minutes. */
  const LineupWindowMinutes: int := 60

  /** Each printed roster shows at most this many players. */
  const RosterCap: int := 11

  /** `_match_jobs` keys `reminder_{chat_id}_{match_id}`, as the pair they
      are built from. */
  datatype JobKey = JobKey(chatId: string, matchId: int)

  datatype State = State(
    liveScores: map<int, (int, int)>,   // _live_scores
    lineupSent: set<Option<int>>,       // _lineup_sent (keyed by the raw id)
    matchJobs: set<JobKey>)             // _match_jobs

  const Initial: State := State(map[], {}, {})

  datatype RosterLine = RosterLine(position: string, name: string)

  datatype Message =
    | GoalMsg(homeName: string, awayName: string, homeScore: int, awayScore: int,
              scorer: string, clubGoal: bool)
    | LineupMsg(matchId: Option<int>, homeName: string, awayName: string,
                homeRoster: seq<RosterLine>, awayRoster: seq<RosterLine>)
    | MorningMsg(matches: seq<MatchInfo>)
    | ReminderMsg(minutes: int, homeTeam: string, awayTeam: string, koreaTime: string)

  /** One `bot.send_message(chat_id, ...)`. */
  datatype Send = Send(chatId: string, msg: Message)

  // ---------------------------------------------------------------------
  // Sending one message to every user of a query result.

  function Broadcast(users: seq<User>, msg: Message): (r: seq<Send>)
    ensures |r| == |users|
    ensures forall i :: 0 <= i < |users| ==> r[i] == Send(users[i].chatId, msg)
  {
    if |users| == 0 then []
    else [Send(users[0].chatId, msg)] + Broadcast(users[1..], msg)
  }

  /** How many sends of `log` go to `chat`. */
  function SendsTo(log: seq<Send>, chat: string): nat
  {
    if |log| == 0 then 0
    else (if log[0].chatId == chat then 1 else 0) + SendsTo(log[1..], chat)
  }

  lemma {:induction false} SendsToAppend(a: seq<Send>, b: seq<Send>, chat: string)
    ensures SendsTo(a + b, chat) == SendsTo(a, chat) + SendsTo(b, chat)
  {
    if |a| > 0 {
      assert (a + b)[1..] == a[1..] + b;
      SendsToAppend(a[1..], b, chat);
    } else {
      assert a + b == b;
    }
  }

  predicate Listed(users: seq<User>, chat: string)
  {
    exists i :: 0 <= i < |users| && users[i].chatId == chat
  }

  /** A broadcast to users with distinct chat ids reaches each listed chat
      exactly once and no other chat. */
  lemma {:induction false} BroadcastOncePerUser(users: seq<User>, msg: Message, chat: string)
    requires DistinctIds(users)
    ensures SendsTo(Broadcast(users, msg), chat) == if Listed(users, chat) then 1 else 0
  {
    if |users| > 0 {
      var b := Broadcast(users, msg);
      assert b[1..] == Broadcast(users[1..], msg);
      BroadcastOncePerUser(users[1..], msg, chat);
      if users[0].chatId == chat {
        forall i | 0 <= i < |users[1..]|
          ensures users[1..][i].chatId != chat
        {
          assert users[1..][i] == users[i + 1];
        }
      } else if Listed(users, chat) {
        var i :| 0 <= i < |users| && users[i].chatId == chat;
        assert users[1..][i - 1].chatId == chat;
      }
    }
  }

  // ---------------------------------------------------------------------
  // Live scores: goal edge detection (check_live_scores / _process_live_match).

  /** `if not match_id`: a missing id and the id 0 are both skipped. */
  predicate TruthyId(id: Option<int>)
  {
    id.Some? && id.value != 0
  }

  /** `score.get(side, 0) or 0`: a missing or null score reads as 0. */
  function Observed(m: RawMatch): (int, int)
  {
    (m.fullTime.home.GetOr(0), m.fullTime.away.GetOr(0))
  }

  /** The stored score, `(0, 0)` for a match not seen before. */
  function Previous(st: State, id: int): (int, int)
  {
    if id in st.liveScores then st.liveScores[id] else (0, 0)
  }

  datatype Side = Home | Away

  /** A goal is declared when either side's score went up; when both did,
      it is attributed to the home side. */
  function DetectGoal(prev: (int, int), now: (int, int)): (r: Option<Side>)
    ensures r.Some? <==> now.0 > prev.0 || now.1 > prev.1
    ensures r == Some(Home) <==> now.0 > prev.0
    ensures r == Some(Away) <==> now.0 <= prev.0 && now.1 > prev.1
  {
    if now.0 > prev.0 then Some(Home)
    else if now.1 > prev.1 then Some(Away)
    else None
  }

  /** The message of a goal: the scoring side's name, and whether that
      side's team id is the club's. */
  function GoalMessage(m: RawMatch, side: Side): (msg: Message)
    ensures msg.GoalMsg?
    ensures msg.homeName == m.homeTeam.name.GetOr("") && msg.awayName == m.awayTeam.name.GetOr("")
    ensures msg.homeScore == Observed(m).0 && msg.awayScore == Observed(m).1
    ensures msg.scorer == (if side == Home then m.homeTeam.name else m.awayTeam.name).GetOr("")
    ensures msg.clubGoal <==> (if side == Home then m.homeTeam.id else m.awayTeam.id) == Some(ClubTeamId)
  {
    var team := if side == Home then m.homeTeam else m.awayTeam;
    GoalMsg(m.homeTeam.name.GetOr(""), m.awayTeam.name.GetOr(""),
            Observed(m).0, Observed(m).1, team.name.GetOr(""), team.id == Some(ClubTeamId))
  }

  /** _process_live_match for one live match. */
  function ProcessLive(st: State, m: RawMatch, users: seq<User>): (r: (State, seq<Send>))
    ensures r.0.lineupSent == st.lineupSent && r.0.matchJobs == st.matchJobs
    ensures !TruthyId(m.id) ==> r == (st, [])
    ensures TruthyId(m.id) ==>
      && r.0.liveScores.Keys == st.liveScores.Keys + {m.id.value}
      && r.0.liveScores[m.id.value] == Observed(m)
      && (forall k :: k in st.liveScores && k != m.id.value ==> r.0.liveScores[k] == st.liveScores[k])
    ensures TruthyId(m.id) ==>
      match DetectGoal(Previous(st, m.id.value), Observed(m))
      case None => r.1 == []
      case Some(side) => r.1 == Broadcast(users, GoalMessage(m, side))
  {
    if !TruthyId(m.id) then (st, [])
    else
      var id := m.id.value;
      var sends := match DetectGoal(Previous(st, id), Observed(m))
                   case None => []
                   case Some(side) => Broadcast(users, GoalMessage(m, side));
      (st.(liveScores := st.liveScores[id := Observed(m)]), sends)
  }

  /** Polling the same score again right after declares nothing and leaves
      the stored score as it is. */
  lemma RepollSameScoreIsQuiet(st: State, m: RawMatch, users: seq<User>)
    requires TruthyId(m.id)
    ensures var (st1, _) := ProcessLive(st, m, users);
            ProcessLive(st1, m, users) == (st1, [])
  {
    var (st1, _) := ProcessLive(st, m, users);
    assert st1.liveScores[m.id.value := Observed(m)] == st1.liveScores;
  }

  /** The loop over the live matches of one cycle. */
  function LiveFold(st: State, live: seq<RawMatch>, users: seq<User>): (r: (State, seq<Send>))
    ensures r.0.lineupSent == st.lineupSent && r.0.matchJobs == st.matchJobs
    decreases |live|
  {
    if |live| == 0 then (st, [])
    else
      var (st1, s1) := ProcessLive(st, live[0], users);
      var (st2, s2) := LiveFold(st1, live[1..], users);
      (st2, s1 + s2)
  }

  /** Some polled match carries the (truthy) id `k`. */
  predicate Polled(live: seq<RawMatch>, k: int)
  {
    exists i :: 0 <= i < |live| && TruthyId(live[i].id) && live[i].id.value == k
  }

  /** After the loop the stored ids are the old ones plus the polled ones. */
  lemma {:induction false} LiveFoldKeys(st: State, live: seq<RawMatch>, users: seq<User>)
    ensures forall k :: k in LiveFold(st, live, users).0.liveScores <==>
                        k in st.liveScores || Polled(live, k)
    decreases |live|
  {
    if |live| > 0 {
      var (st1, _) := ProcessLive(st, live[0], users);
      LiveFoldKeys(st1, live[1..], users);
      forall k
        ensures Polled(live, k) <==>
                (TruthyId(live[0].id) && live[0].id.value == k) || Polled(live[1..], k)
      {
        if Polled(live, k) {
          var i :| 0 <= i < |live| && TruthyId(live[i].id) && live[i].id.value == k;
          if i > 0 { assert live[1..][i - 1] == live[i]; }
        }
        if Polled(live[1..], k) {
          var i :| 0 <= i < |live[1..]| && TruthyId(live[1..][i].id) && live[1..][i].id.value == k;
          assert live[i + 1] == live[1..][i];
        }
      }
    }
  }

  /** Entries of matches that were not polled keep their stored score. */
  lemma {:induction false} LiveFoldLeavesOthers(st: State, live: seq<RawMatch>, users: seq<User>, k: int)
    requires k in st.liveScores
    requires forall i :: 0 <= i < |live| ==> live[i].id != Some(k)
    ensures k in LiveFold(st, live, users).0.liveScores
    ensures LiveFold(st, live, users).0.liveScores[k] == st.liveScores[k]
    decreases |live|
  {
    if |live| > 0 {
      var (st1, _) := ProcessLive(st, live[0], users);
      assert forall i :: 0 <= i < |live[1..]| ==> live[1..][i] == live[i + 1];
      LiveFoldLeavesOthers(st1, live[1..], users, k);
    }
  }

  /** The stored score of a polled match is the one observed at its last
      occurrence in the poll, whether or not a goal was declared. */
  lemma {:induction false} LiveFoldLastWrite(st: State, live: seq<RawMatch>, users: seq<User>, i: int)
    requires 0 <= i < |live| && TruthyId(live[i].id)
    requires forall j :: i < j < |live| ==> live[j].id != live[i].id
    ensures live[i].id.value in LiveFold(st, live, users).0.liveScores
    ensures LiveFold(st, live, users).0.liveScores[live[i].id.value] == Observed(live[i])
    decreases |live|
  {
    var (st1, _) := ProcessLive(st, live[0], users);
    assert forall j :: 0 <= j < |live[1..]| ==> live[1..][j] == live[j + 1];
    if i == 0 {
      LiveFoldLeavesOthers(st1, live[1..], users, live[0].id.value);
    } else {
      LiveFoldLastWrite(st1, live[1..], users, i - 1);
    }
  }

  /** Everything the loop sends is a goal message to one of the users. */
  lemma {:induction false} LiveFoldSendsGoals(st: State, live: seq<RawMatch>, users: seq<User>)
    ensures forall s :: s in LiveFold(st, live, users).1 ==> s.msg.GoalMsg? && Listed(users, s.chatId)
    decreases |live|
  {
    if |live| > 0 {
      var (st1, s1) := ProcessLive(st, live[0], users);
      LiveFoldSendsGoals(st1, live[1..], users);
      forall s | s in s1
        ensures s.msg.GoalMsg? && Listed(users, s.chatId)
      {
        var k :| 0 <= k < |s1| && s1[k] == s;
      }
    }
  }

  /** check_live_scores: nothing happens, not even a poll, when no user
      has goal notifications on. */
  function LiveCycle(st: State, users: seq<User>, live: seq<RawMatch>): (r: (State, seq<Send>))
    ensures |users| == 0 ==> r == (st, [])
    ensures r.0.lineupSent == st.lineupSent && r.0.matchJobs == st.matchJobs
  {
    if |users| == 0 then (st, [])
    else LiveFold(st, live, users)
  }

  /** What one live cycle does to the stored scores and who it writes to. */
  lemma LiveCycleEffect(st: State, users: seq<User>, live: seq<RawMatch>)
    requires |users| > 0
    ensures var (st1, sends) := LiveCycle(st, users, live);
      && (forall k :: k in st1.liveScores <==> k in st.liveScores || Polled(live, k))
      && (forall k :: k in st.liveScores && (forall i :: 0 <= i < |live| ==> live[i].id != Some(k))
            ==> st1.liveScores[k] == st.liveScores[k])
      && (forall i :: 0 <= i < |live| && TruthyId(live[i].id) &&
            (forall j :: i < j < |live| ==> live[j].id != live[i].id)
            ==> st1.liveScores[live[i].id.value] == Observed(live[i]))
      && (forall s :: s in sends ==> s.msg.GoalMsg? && Listed(users, s.chatId))
  {
    LiveFoldKeys(st, live, users);
    LiveFoldSendsGoals(st, live, users);
    forall k | k in st.liveScores && (forall i :: 0 <= i < |live| ==> live[i].id != Some(k))
      ensures LiveFold(st, live, users).0.liveScores[k] == st.liveScores[k]
    {
      LiveFoldLeavesOthers(st, live, users, k);
    }
    forall i | 0 <= i < |live| && TruthyId(live[i].id) &&
               (forall j :: i < j < |live| ==> live[j].id != live[i].id)
      ensures LiveFold(st, live, users).0.liveScores[live[i].id.value] == Observed(live[i])
    {
      LiveFoldLastWrite(st, live, users, i);
    }
  }

  /** A user id is listed by a query result exactly when the store holds a
      row for it that the query selects. */
  lemma ListedIffSelected(users: seq<User>, db: Db, q: Query, chat: string)
    requires Valid(db) && Enumerates(users, db, q)
    ensures Listed(users, chat) <==> chat in db && Matches(db[chat], q)
  {
    if Listed(users, chat) {
      var i :| 0 <= i < |users| && users[i].chatId == chat;
      EnumeratedRowsAreStored(users, db, q, i);
    }
    if chat in db && Matches(db[chat], q) {
      assert db[chat] in db.Values;
      var i :| 0 <= i < |users| && users[i] == db[chat];
    }
  }

  /** A goal in a live match reaches every user with goal notifications on
      exactly once, and nobody else. */
  lemma GoalReachesGoalUsersOnce(db: Db, users: seq<User>, st: State, m: RawMatch, chat: string)
    requires Valid(db) && Enumerates(users, db, GoalOn)
    requires TruthyId(m.id) && DetectGoal(Previous(st, m.id.value), Observed(m)).Some?
    ensures SendsTo(LiveCycle(st, users, [m]).1, chat) ==
            if chat in db && db[chat].goal == 1 then 1 else 0
  {
    ListedIffSelected(users, db, GoalOn, chat);
    var side := DetectGoal(Previous(st, m.id.value), Observed(m)).value;
    BroadcastOncePerUser(users, GoalMessage(m, side), chat);
    if |users| > 0 {
      var (st1, s1) := ProcessLive(st, m, users);
      assert [m][1..] == [];
      assert LiveFold(st1, [], users) == (st1, []);
      assert LiveFold(st, [m], users).1 == s1 + [];
      assert s1 + [] == s1;
    } else {
      assert !Listed(users, chat);
    }
  }

  /** The goal scenario: with (1, 0) stored, a poll of (1, 0) sends nothing
      and keeps (1, 0); a poll of (2, 0) sends one home-goal message per
      user and stores (2, 0). */
  lemma GoalScenario(st: State, users: seq<User>, id: int, home: RawTeam, away: RawTeam, m: RawMatch)
    requires id != 0 && id in st.liveScores && st.liveScores[id] == (1, 0)
    requires m.id == Some(id) && m.homeTeam == home && m.awayTeam == away
    ensures var same := m.(fullTime := RawScore(Some(1), Some(0)));
            ProcessLive(st, same, users) == (st, [])
    ensures var scored := m.(fullTime := RawScore(Some(2), Some(0)));
            var (st1, sends) := ProcessLive(st, scored, users);
            && st1.liveScores[id] == (2, 0)
            && sends == Broadcast(users, GoalMsg(home.name.GetOr(""), away.name.GetOr(""), 2, 0,
                                                 home.name.GetOr(""), home.id == Some(ClubTeamId)))
  {
    var same := m.(fullTime := RawScore(Some(1), Some(0)));
    assert st.liveScores[id := (1, 0)] == st.liveScores;
  }

  // ---------------------------------------------------------------------
  // Lineups (check_lineups / _process_lineup / _send_lineup_notification).

  datatype Player = Player(name: Option<string>, position: Option<string>)

  /** `homeTeam` / `awayTeam` of the match details: name and lineup. */
  datatype TeamSheet = TeamSheet(name: Option<string>, lineup: Option<seq<Player>>)

  datatype Details = Details(homeTeam: TeamSheet, awayTeam: TeamSheet)

  function LineupOf(t: TeamSheet): seq<Player> { t.lineup.GetOr([]) }

  /** The printed roster: position and name of the first 11 players. */
  function Roster(lineup: seq<Player>): (r: seq<RosterLine>)
    ensures |r| == Min(RosterCap, |lineup|)
    ensures forall i :: 0 <= i < |r| ==>
              r[i] == RosterLine(lineup[i].position.GetOr(""), lineup[i].name.GetOr(""))
  {
    var n := Min(RosterCap, |lineup|);
    seq(n, i requires 0 <= i < n => RosterLine(lineup[i].position.GetOr(""), lineup[i].name.GetOr("")))
  }

  predicate NotStarted(m: RawMatch)
  {
    m.status == Some("TIMED") || m.status == Some("SCHEDULED")
  }

  /** The match is about to start: its kickoff parses and lies 0 to 60
      minutes ahead. */
  predicate AboutToStart(m: RawMatch, now: int)
  {
    m.parsed.Some? && 0 <= m.parsed.value.kickoff - now <= LineupWindowMinutes
  }

  /** The checks made before the details are fetched. */
  predicate LineupDue(st: State, m: RawMatch, now: int)
  {
    NotStarted(m) && m.id !in st.lineupSent && AboutToStart(m, now)
  }

  /** At least one side's lineup has been published. */
  predicate Published(details: map<Option<int>, Details>, id: Option<int>)
  {
    id in details && (|LineupOf(details[id].homeTeam)| > 0 || |LineupOf(details[id].awayTeam)| > 0)
  }

  /** The lineup message: both team names, then each side's roster, one
      line per player up to eleven, in the order the details list them. */
  function LineupMessage(id: Option<int>, d: Details): (r: Message)
    ensures r.LineupMsg? && r.matchId == id
    ensures r.homeName == d.homeTeam.name.GetOr("") && r.awayName == d.awayTeam.name.GetOr("")
    ensures |r.homeRoster| == Min(RosterCap, |LineupOf(d.homeTeam)|)
    ensures |r.awayRoster| == Min(RosterCap, |LineupOf(d.awayTeam)|)
    ensures forall i :: 0 <= i < |r.homeRoster| ==>
              r.homeRoster[i] == RosterLine(LineupOf(d.homeTeam)[i].position.GetOr(""), LineupOf(d.homeTeam)[i].name.GetOr(""))
    ensures forall i :: 0 <= i < |r.awayRoster| ==>
              r.awayRoster[i] == RosterLine(LineupOf(d.awayTeam)[i].position.GetOr(""), LineupOf(d.awayTeam)[i].name.GetOr(""))
  {
    LineupMsg(id, d.homeTeam.name.GetOr(""), d.awayTeam.name.GetOr(""),
              Roster(LineupOf(d.homeTeam)), Roster(LineupOf(d.awayTeam)))
  }

  /** _process_lineup for one of today's matches. `details` holds what
      get_match_details returns; a missing entry is an empty answer. */
  function ProcessLineup(st: State, m: RawMatch, users: seq<User>,
                         details: map<Option<int>, Details>, now: int): (r: (State, seq<Send>))
    ensures r.0.liveScores == st.liveScores && r.0.matchJobs == st.matchJobs
    ensures LineupDue(st, m, now) && Published(details, m.id) ==>
      r == (st.(lineupSent := st.lineupSent + {m.id}), Broadcast(users, LineupMessage(m.id, details[m.id])))
    ensures !(LineupDue(st, m, now) && Published(details, m.id)) ==> r == (st, [])
  {
    if !NotStarted(m) then (st, [])
    else if m.id in st.lineupSent then (st, [])
    else if m.parsed.None? then (st, [])
    else
      var untilKickoff := m.parsed.value.kickoff - now;
      if untilKickoff > LineupWindowMinutes || untilKickoff < 0 then (st, [])
      else if m.id !in details then (st, [])
      else
        var d := details[m.id];
        if |LineupOf(d.homeTeam)| == 0 && |LineupOf(d.awayTeam)| == 0 then (st, [])
        else (st.(lineupSent := st.lineupSent + {m.id}), Broadcast(users, LineupMessage(m.id, d)))
  }

  function LineupFold(st: State, today: seq<RawMatch>, users: seq<User>,
                      details: map<Option<int>, Details>, now: int): (r: (State, seq<Send>))
    ensures r.0.liveScores == st.liveScores && r.0.matchJobs == st.matchJobs
    ensures st.lineupSent <= r.0.lineupSent
    decreases |today|
  {
    if |today| == 0 then (st, [])
    else
      var (st1, s1) := ProcessLineup(st, today[0], users, details, now);
      var (st2, s2) := LineupFold(st1, today[1..], users, details, now);
      (st2, s1 + s2)
  }

  /** check_lineups: nothing happens when no user has lineup notifications on. */
  function LineupCycle(st: State, users: seq<User>, today: seq<RawMatch>,
                       details: map<Option<int>, Details>, now: int): (r: (State, seq<Send>))
    ensures |users| == 0 ==> r == (st, [])
    ensures r.0.liveScores == st.liveScores && r.0.matchJobs == st.matchJobs
    ensures st.lineupSent <= r.0.lineupSent
  {
    if |users| == 0 then (st, [])
    else LineupFold(st, today, users, details, now)
  }

  /** How many lineup messages about match `id` the log sends to `chat`. */
  function LineupCount(log: seq<Send>, chat: string, id: Option<int>): nat
  {
    if |log| == 0 then 0
    else
      (if log[0].chatId == chat && log[0].msg.LineupMsg? && log[0].msg.matchId == id then 1 else 0)
      + LineupCount(log[1..], chat, id)
  }

  lemma {:induction false} LineupCountAppend(a: seq<Send>, b: seq<Send>, chat: string, id: Option<int>)
    ensures LineupCount(a + b, chat, id) == LineupCount(a, chat, id) + LineupCount(b, chat, id)
  {
    if |a| > 0 {
      assert (a + b)[1..] == a[1..] + b;
      LineupCountAppend(a[1..], b, chat, id);
    } else {
      assert a + b == b;
    }
  }

  /** A log without lineup messages about `id` counts none. */
  lemma {:induction false} LineupCountAbsent(log: seq<Send>, chat: string, id: Option<int>)
    requires forall i :: 0 <= i < |log| && log[i].msg.LineupMsg? ==> log[i].msg.matchId != id
    ensures LineupCount(log, chat, id) == 0
  {
    if |log| > 0 {
      assert forall i :: 0 <= i < |log[1..]| ==> log[1..][i] == log[i + 1];
      LineupCountAbsent(log[1..], chat, id);
    }
  }

  /** A lineup broadcast to distinct users tells each chat at most once. */
  lemma {:induction false} LineupBroadcastCount(users: seq<User>, msg: Message, chat: string, id: Option<int>)
    requires DistinctIds(users) && msg.LineupMsg?
    ensures LineupCount(Broadcast(users, msg), chat, id) <= 1
    ensures msg.matchId != id ==> LineupCount(Broadcast(users, msg), chat, id) == 0
  {
    if |users| > 0 {
      var b := Broadcast(users, msg);
      assert b[1..] == Broadcast(users[1..], msg);
      LineupBroadcastCount(users[1..], msg, chat, id);
      if users[0].chatId == chat {
        assert forall i :: 0 <= i < |b[1..]| ==> b[1..][i].chatId != chat by {
          forall i | 0 <= i < |b[1..]|
            ensures b[1..][i].chatId != chat
          {
            assert b[1..][i] == b[i + 1];
          }
        }
        LineupCountNotTo(b[1..], chat, id);
      }
    }
  }

  lemma {:induction false} LineupCountNotTo(log: seq<Send>, chat: string, id: Option<int>)
    requires forall i :: 0 <= i < |log| ==> log[i].chatId != chat
    ensures LineupCount(log, chat, id) == 0
  {
    if |log| > 0 {
      assert forall i :: 0 <= i < |log[1..]| ==> log[1..][i] == log[i + 1];
      LineupCountNotTo(log[1..], chat, id);
    }
  }

  /** The invariant of the lineup log over the process lifetime: every
      lineup message sent so far is about a match marked as sent, and no
      chat has been told about the same match twice. */
  ghost predicate LineupLogOk(st: State, log: seq<Send>)
  {
    && (forall i :: 0 <= i < |log| && log[i].msg.LineupMsg? ==> log[i].msg.matchId in st.lineupSent)
    && (forall chat, id :: LineupCount(log, chat, id) <= 1)
  }

  lemma LineupStepKeepsLog(st: State, log: seq<Send>, m: RawMatch, users: seq<User>,
                           details: map<Option<int>, Details>, now: int)
    requires LineupLogOk(st, log) && DistinctIds(users)
    ensures var (st1, s1) := ProcessLineup(st, m, users, details, now);
            LineupLogOk(st1, log + s1)
  {
    var (st1, s1) := ProcessLineup(st, m, users, details, now);
    if LineupDue(st, m, now) && Published(details, m.id) {
      var msg := LineupMessage(m.id, details[m.id]);
      assert s1 == Broadcast(users, msg);
      forall chat, id
        ensures LineupCount(log + s1, chat, id) <= 1
      {
        LineupCountAppend(log, s1, chat, id);
        LineupBroadcastCount(users, msg, chat, id);
        if id == m.id {
          LineupCountAbsent(log, chat, id);
        }
      }
      forall i | 0 <= i < |log + s1| && (log + s1)[i].msg.LineupMsg?
        ensures (log + s1)[i].msg.matchId in st1.lineupSent
      {
        if i >= |log| {
          assert (log + s1)[i] == s1[i - |log|];
        }
      }
    } else {
      assert log + s1 == log;
    }
  }

  lemma {:induction false} LineupFoldKeepsLog(st: State, log: seq<Send>, today: seq<RawMatch>, users: seq<User>,
                                             details: map<Option<int>, Details>, now: int)
    requires LineupLogOk(st, log) && DistinctIds(users)
    ensures var (st1, s1) := LineupFold(st, today, users, details, now);
            LineupLogOk(st1, log + s1)
    decreases |today|
  {
    if |today| == 0 {
      assert log + [] == log;
    } else {
      var (st1, s1) := ProcessLineup(st, today[0], users, details, now);
      LineupStepKeepsLog(st, log, today[0], users, details, now);
      LineupFoldKeepsLog(st1, log + s1, today[1..], users, details, now);
      var (st2, s2) := LineupFold(st1, today[1..], users, details, now);
      assert log + (s1 + s2) == (log + s1) + s2;
    }
  }

  /** At most one lineup message per match and chat over the whole process
      lifetime: if the log so far is consistent with the state, it stays so
      after any further lineup cycle, however often the details come back
      non-empty. */
  lemma LineupAtMostOnce(st: State, log: seq<Send>, users: seq<User>, today: seq<RawMatch>,
                         details: map<Option<int>, Details>, now: int)
    requires LineupLogOk(st, log) && DistinctIds(users)
    ensures var (st1, s1) := LineupCycle(st, users, today, details, now);
            LineupLogOk(st1, log + s1)
  {
    if |users| == 0 {
      assert log + [] == log;
    } else {
      LineupFoldKeepsLog(st, log, today, users, details, now);
    }
  }

  // ---------------------------------------------------------------------
  // Match reminders (check_and_schedule_match_reminders and friends).

  /** The `_match_jobs` / APScheduler job id of a reminder. */
  function JobId(k: JobKey): string
  {
    "reminder_" + k.chatId + "_" + IntToString(k.matchId)
  }

  /** Different (chat, match) pairs get different job ids, whatever the
      chat id contains: the match id is printed without '_', so the last
      '_' of the id separates the two parts. Keying the state by the pair
      is therefore faithful. */
  lemma JobIdInjective(a: JobKey, b: JobKey)
    ensures JobId(a) == JobId(b) <==> a == b
  {
    if JobId(a) == JobId(b) {
      var da, db := IntToString(a.matchId), IntToString(b.matchId);
      LastSeparatorSplits("reminder_" + a.chatId, da, "reminder_" + b.chatId, db, '_');
      assert a.chatId == ("reminder_" + a.chatId)[9..];
      assert b.chatId == ("reminder_" + b.chatId)[9..];
    }
  }

  /** If the joins agree and the first tail is shorter, the separator
      after the first head falls inside the second tail. */
  lemma SeparatorInLongerTail(h1: string, t1: string, h2: string, t2: string, sep: char)
    requires h1 + [sep] + t1 == h2 + [sep] + t2 && |t1| < |t2|
    ensures sep in t2
  {
    var s := h1 + [sep] + t1;
    var k := |h1|;
    assert s[k] == sep;
    assert s[k] == t2[k - |h2| - 1];
  }

  /** Splitting at the last separator: when the tails hold no separator,
      equal joins have equal heads and equal tails. */
  lemma LastSeparatorSplits(h1: string, t1: string, h2: string, t2: string, sep: char)
    requires sep !in t1 && sep !in t2
    requires h1 + [sep] + t1 == h2 + [sep] + t2
    ensures h1 == h2 && t1 == t2
  {
    var s := h1 + [sep] + t1;
    if |t1| < |t2| {
      SeparatorInLongerTail(h1, t1, h2, t2, sep);
      assert false;
    } else if |t2| < |t1| {
      SeparatorInLongerTail(h2, t2, h1, t1, sep);
      assert false;
    } else {
      assert h1 == s[..|h1|];
      assert t1 == s[|h1| + 1..];
    }
  }

  /** A reminder job: when it runs, for whom, and about which match. The
      source stores the formatted match; formatting is a pure function of
      the match, so the job keeps the match and formats it when it fires. */
  datatype Job = Job(key: JobKey, runAt: int, game: RawMatch, minutes: int)

  /** The match has a truthy id and a kickoff whose reminder time lies
      strictly inside the next two hours. */
  predicate InWindow(u: User, m: RawMatch, now: int)
  {
    && TruthyId(m.id) && m.parsed.Some?
    && now < m.parsed.value.kickoff - u.reminderMinutes < now + LookAheadMinutes
  }

  /** The user wants reminders and the match is due for one. */
  predicate Qualifies(u: User, m: RawMatch, now: int)
  {
    u.reminderMinutes > 0 && InWindow(u, m, now)
  }

  function KeyOf(u: User, m: RawMatch): JobKey
    requires TruthyId(m.id)
  {
    JobKey(u.chatId, m.id.value)
  }

  /** The job a due match gets: it runs `minutes` before kickoff. */
  function JobFor(u: User, m: RawMatch): (j: Job)
    requires TruthyId(m.id) && m.parsed.Some?
    ensures j.key == KeyOf(u, m) && j.runAt + j.minutes == m.parsed.value.kickoff
    ensures j.minutes == u.reminderMinutes && j.game == m
  {
    Job(KeyOf(u, m), m.parsed.value.kickoff - u.reminderMinutes, m, u.reminderMinutes)
  }

  /** One iteration of the loop of _schedule_reminders_for_user. */
  function PlanMatch(st: State, u: User, m: RawMatch, now: int): (r: Option<Job>)
    ensures r.Some? <==> InWindow(u, m, now) && KeyOf(u, m) !in st.matchJobs
    ensures r.Some? ==> r.value == JobFor(u, m) && now < r.value.runAt < now + LookAheadMinutes
  {
    if !TruthyId(m.id) then None
    else if KeyOf(u, m) in st.matchJobs then None
    else if m.parsed.None? then None
    else
      var runAt := m.parsed.value.kickoff - u.reminderMinutes;
      if now < runAt < now + LookAheadMinutes then Some(JobFor(u, m)) else None
  }

  function KeysOf(jobs: seq<Job>): set<JobKey>
  {
    set i | 0 <= i < |jobs| :: jobs[i].key
  }

  /** Every job is for a key not yet scheduled, and no key is scheduled twice. */
  predicate FreshJobs(before: set<JobKey>, jobs: seq<Job>)
  {
    && (forall i :: 0 <= i < |jobs| ==> jobs[i].key !in before)
    && (forall i, k :: 0 <= i < k < |jobs| ==> jobs[i].key != jobs[k].key)
  }

  lemma FreshJobsCons(before: set<JobKey>, j: Job, rest: seq<Job>)
    requires j.key !in before && FreshJobs(before + {j.key}, rest)
    ensures FreshJobs(before, [j] + rest)
    ensures KeysOf([j] + rest) == {j.key} + KeysOf(rest)
  {
    var s := [j] + rest;
    forall i | 0 <= i < |s| ensures s[i].key !in before {
      if i > 0 { assert s[i] == rest[i - 1]; }
    }
    forall i, k | 0 <= i < k < |s| ensures s[i].key != s[k].key {
      assert s[k] == rest[k - 1];
      if i > 0 { assert s[i] == rest[i - 1]; }
    }
    forall key | key in KeysOf(s) ensures key in {j.key} + KeysOf(rest) {
      var i :| 0 <= i < |s| && s[i].key == key;
      if i > 0 { assert s[i] == rest[i - 1]; }
    }
    forall key | key in KeysOf(rest) ensures key in KeysOf(s) {
      var i :| 0 <= i < |rest| && rest[i].key == key;
      assert s[i + 1] == rest[i];
    }
    assert s[0] == j;
  }

  lemma FreshJobsAppend(before: set<JobKey>, a: seq<Job>, b: seq<Job>)
    requires FreshJobs(before, a) && FreshJobs(before + KeysOf(a), b)
    ensures FreshJobs(before, a + b)
    ensures KeysOf(a + b) == KeysOf(a) + KeysOf(b)
  {
    var s := a + b;
    forall i | 0 <= i < |s| ensures s[i].key !in before {
      if i >= |a| { assert s[i] == b[i - |a|]; }
    }
    forall i, k | 0 <= i < k < |s| ensures s[i].key != s[k].key {
      if k >= |a| {
        assert s[k] == b[k - |a|];
        if i >= |a| { assert s[i] == b[i - |a|]; }
        else { assert s[i].key in KeysOf(a); }
      }
    }
    forall key | key in KeysOf(s) ensures key in KeysOf(a) + KeysOf(b) {
      var i :| 0 <= i < |s| && s[i].key == key;
      if i >= |a| { assert s[i] == b[i - |a|]; }
    }
    forall key | key in KeysOf(b) ensures key in KeysOf(s) {
      var i :| 0 <= i < |b| && b[i].key == key;
      assert s[i + |a|] == b[i];
    }
    forall key | key in KeysOf(a) ensures key in KeysOf(s) {
      var i :| 0 <= i < |a| && a[i].key == key;
      assert s[i] == a[i];
    }
  }

  /** The loop of _schedule_reminders_for_user over the upcoming matches;
      each job scheduled is recorded in `_match_jobs` at once. */
  function PlanMatches(st: State, u: User, ms: seq<RawMatch>, now: int): (r: (State, seq<Job>))
    ensures r.0 == st.(matchJobs := st.matchJobs + KeysOf(r.1))
    ensures FreshJobs(st.matchJobs, r.1)
    decreases |ms|
  {
    if |ms| == 0 then (st, [])
    else
      match PlanMatch(st, u, ms[0], now)
      case None => PlanMatches(st, u, ms[1..], now)
      case Some(j) =>
        var st1 := st.(matchJobs := st.matchJobs + {j.key});
        var (st2, js) := PlanMatches(st1, u, ms[1..], now);
        FreshJobsCons(st.matchJobs, j, js);
        (st2, [j] + js)
  }

  /** _schedule_reminders_for_user: nothing for a user whose lead time is
      not positive. */
  function PlanUser(st: State, u: User, ms: seq<RawMatch>, now: int): (r: (State, seq<Job>))
    ensures u.reminderMinutes <= 0 ==> r == (st, [])
    ensures r.0 == st.(matchJobs := st.matchJobs + KeysOf(r.1))
    ensures FreshJobs(st.matchJobs, r.1)
  {
    if u.reminderMinutes <= 0 then (st, []) else PlanMatches(st, u, ms, now)
  }

  /** check_and_schedule_match_reminders: every user, against the upcoming
      matches of the snapshot. */
  function ReminderCycle(st: State, users: seq<User>, ms: seq<RawMatch>, now: int): (r: (State, seq<Job>))
    ensures r.0 == st.(matchJobs := st.matchJobs + KeysOf(r.1))
    ensures FreshJobs(st.matchJobs, r.1)
    decreases |users|
  {
    if |users| == 0 then (st, [])
    else
      var (st1, j1) := PlanUser(st, users[0], ms, now);
      var (st2, j2) := ReminderCycle(st1, users[1..], ms, now);
      FreshJobsAppend(st.matchJobs, j1, j2);
      (st2, j1 + j2)
  }

  /** _send_match_reminder: what a job sends when it runs. */
  function FireReminder(j: Job): (r: Send)
    ensures r.chatId == j.key.chatId
    ensures r.msg.ReminderMsg? && r.msg.minutes == j.minutes
    ensures r.msg.homeTeam == j.game.homeTeam.name.GetOr("Unknown")
    ensures r.msg.awayTeam == j.game.awayTeam.name.GetOr("Unknown")
    ensures r.msg.koreaTime == FormatMatchInfo(j.game).koreaTime
    ensures j.game.parsed.Some? ==> r.msg.koreaTime == FormatStamp(j.game.parsed.value.korea)
    ensures j.game.parsed.None? ==> r.msg.koreaTime == ""
  {
    var info := FormatMatchInfo(j.game);
    Send(j.key.chatId, ReminderMsg(j.minutes, info.homeTeam, info.awayTeam, info.koreaTime))
  }

  /** `j` is the job of some due match of `ms`. */
  ghost predicate DueJob(u: User, ms: seq<RawMatch>, now: int, j: Job)
  {
    exists b :: 0 <= b < |ms| && InWindow(u, ms[b], now) && j == JobFor(u, ms[b])
  }

  /** Every job of `jobs` is the job of a due match of `ms`. */
  ghost predicate AllDue(u: User, ms: seq<RawMatch>, now: int, jobs: seq<Job>)
  {
    forall k :: 0 <= k < |jobs| ==> DueJob(u, ms, now, jobs[k])
  }

  /** Every job of `jobs` is the job of a due match of a listed user with a
      positive lead time. */
  ghost predicate AllFromUsers(users: seq<User>, ms: seq<RawMatch>, now: int, jobs: seq<Job>)
  {
    forall k :: 0 <= k < |jobs| ==> FromSomeUser(users, ms, now, jobs[k])
  }

  /** `j` is the job of a due match of some listed user with a positive
      lead time. */
  ghost predicate FromSomeUser(users: seq<User>, ms: seq<RawMatch>, now: int, j: Job)
  {
    exists a :: 0 <= a < |users| && users[a].reminderMinutes > 0 && DueJob(users[a], ms, now, j)
  }

  lemma DueJobTail(u: User, ms: seq<RawMatch>, now: int, j: Job)
    requires |ms| > 0 && DueJob(u, ms[1..], now, j)
    ensures DueJob(u, ms, now, j)
  {
    var b :| 0 <= b < |ms[1..]| && InWindow(u, ms[1..][b], now) && j == JobFor(u, ms[1..][b]);
    assert ms[1..][b] == ms[b + 1];
  }

  /** Every job the per-user loop schedules is the job of one of the
      matches, and that match is due. */
  lemma {:induction false} PlanMatchesSound(st: State, u: User, ms: seq<RawMatch>, now: int)
    ensures AllDue(u, ms, now, PlanMatches(st, u, ms, now).1)
    decreases |ms|
  {
    if |ms| > 0 {
      var jobs := PlanMatches(st, u, ms, now).1;
      var j := PlanMatch(st, u, ms[0], now);
      var st1 := if j.Some? then st.(matchJobs := st.matchJobs + {j.value.key}) else st;
      var rest := PlanMatches(st1, u, ms[1..], now).1;
      PlanMatchesSound(st1, u, ms[1..], now);
      var head := if j.Some? then [j.value] else [];
      assert jobs == head + rest;
      forall k | 0 <= k < |jobs|
        ensures DueJob(u, ms, now, jobs[k])
      {
        if k < |head| {
          assert jobs[k] == JobFor(u, ms[0]);
        } else {
          assert jobs[k] == rest[k - |head|];
          assert DueJob(u, ms[1..], now, rest[k - |head|]);
          DueJobTail(u, ms, now, jobs[k]);
        }
      }
    }
  }

  /** After the per-user loop every due match of the user is keyed. */
  lemma {:induction false} PlanMatchesComplete(st: State, u: User, ms: seq<RawMatch>, now: int)
    ensures forall b :: 0 <= b < |ms| && InWindow(u, ms[b], now) ==>
              KeyOf(u, ms[b]) in PlanMatches(st, u, ms, now).0.matchJobs
    decreases |ms|
  {
    if |ms| > 0 {
      var j := PlanMatch(st, u, ms[0], now);
      var st1 := if j.Some? then st.(matchJobs := st.matchJobs + {j.value.key}) else st;
      PlanMatchesComplete(st1, u, ms[1..], now);
      var r := PlanMatches(st, u, ms, now);
      assert r.0 == PlanMatches(st1, u, ms[1..], now).0;
      forall b | 0 <= b < |ms| && InWindow(u, ms[b], now)
        ensures KeyOf(u, ms[b]) in r.0.matchJobs
      {
        if b == 0 {
          assert KeyOf(u, ms[0]) in st1.matchJobs;
        } else {
          assert ms[1..][b - 1] == ms[b];
        }
      }
    }
  }

  /** Soundness of a reminder cycle: each job is for a listed user and an
      upcoming match that qualifies, runs `minutes` before kickoff and
      strictly inside the next two hours. */
  lemma {:induction false} ReminderCycleSound(st: State, users: seq<User>, ms: seq<RawMatch>, now: int)
    ensures AllFromUsers(users, ms, now, ReminderCycle(st, users, ms, now).1)
    decreases |users|
  {
    if |users| > 0 {
      var jobs := ReminderCycle(st, users, ms, now).1;
      var (st1, j1) := PlanUser(st, users[0], ms, now);
      var j2 := ReminderCycle(st1, users[1..], ms, now).1;
      ReminderCycleSound(st1, users[1..], ms, now);
      PlanMatchesSound(st, users[0], ms, now);
      assert jobs == j1 + j2;
      forall k | 0 <= k < |jobs|
        ensures FromSomeUser(users, ms, now, jobs[k])
      {
        if k < |j1| {
          assert jobs[k] == j1[k];
          assert DueJob(users[0], ms, now, j1[k]);
          assert users[0].reminderMinutes > 0 && DueJob(users[0], ms, now, jobs[k]);
        } else {
          assert jobs[k] == j2[k - |j1|];
          assert FromSomeUser(users[1..], ms, now, j2[k - |j1|]);
          var a :| 0 <= a < |users[1..]| && users[1..][a].reminderMinutes > 0
                   && DueJob(users[1..][a], ms, now, j2[k - |j1|]);
          assert users[1..][a] == users[a + 1];
        }
      }
    }
  }

  /** Soundness spelled out: each job is for a listed user and an upcoming
      match that qualifies, and so runs `minutes` before kickoff, strictly
      inside the next two hours. */
  lemma ReminderJobQualifies(st: State, users: seq<User>, ms: seq<RawMatch>, now: int, k: int)
    requires 0 <= k < |ReminderCycle(st, users, ms, now).1|
    ensures var j := ReminderCycle(st, users, ms, now).1[k];
            exists a, b :: 0 <= a < |users| && 0 <= b < |ms| && Qualifies(users[a], ms[b], now)
                           && j == JobFor(users[a], ms[b])
  {
    ReminderCycleSound(st, users, ms, now);
    var j := ReminderCycle(st, users, ms, now).1[k];
    assert FromSomeUser(users, ms, now, j);
    var a :| 0 <= a < |users| && users[a].reminderMinutes > 0 && DueJob(users[a], ms, now, j);
    var b :| 0 <= b < |ms| && InWindow(users[a], ms[b], now) && j == JobFor(users[a], ms[b]);
    assert Qualifies(users[a], ms[b], now);
  }

  /** Completeness of a reminder cycle: afterwards every qualifying
      (user, match) pair is keyed in `_match_jobs`. */
  lemma {:induction false} ReminderCycleComplete(st: State, users: seq<User>, ms: seq<RawMatch>, now: int)
    ensures forall a, b :: 0 <= a < |users| && 0 <= b < |ms| && Qualifies(users[a], ms[b], now) ==>
              KeyOf(users[a], ms[b]) in ReminderCycle(st, users, ms, now).0.matchJobs
    decreases |users|
  {
    if |users| > 0 {
      var r := ReminderCycle(st, users, ms, now);
      var (st1, j1) := PlanUser(st, users[0], ms, now);
      var r2 := ReminderCycle(st1, users[1..], ms, now);
      assert r.0 == r2.0;
      ReminderCycleComplete(st1, users[1..], ms, now);
      PlanMatchesComplete(st, users[0], ms, now);
      forall a, b | 0 <= a < |users| && 0 <= b < |ms| && Qualifies(users[a], ms[b], now)
        ensures KeyOf(users[a], ms[b]) in r.0.matchJobs
      {
        if a == 0 {
          assert KeyOf(users[0], ms[b]) in st1.matchJobs;
        } else {
          assert users[1..][a - 1] == users[a];
        }
      }
    }
  }

  /** Jobs for qualifying pairs whose keys are all recorded use recorded keys. */
  lemma JobsAlreadyKeyed(st1: State, users: seq<User>, ms: seq<RawMatch>, now: int, jobs: seq<Job>)
    requires forall a, b :: 0 <= a < |users| && 0 <= b < |ms| && Qualifies(users[a], ms[b], now) ==>
               KeyOf(users[a], ms[b]) in st1.matchJobs
    requires AllFromUsers(users, ms, now, jobs)
    ensures forall k :: 0 <= k < |jobs| ==> jobs[k].key in st1.matchJobs
  {
    forall k | 0 <= k < |jobs| ensures jobs[k].key in st1.matchJobs {
      assert FromSomeUser(users, ms, now, jobs[k]);
      JobKeyed(st1, users, ms, now, jobs[k]);
    }
  }

  /** A job from some listed user is keyed once every qualifying pair is. */
  lemma JobKeyed(st1: State, users: seq<User>, ms: seq<RawMatch>, now: int, j: Job)
    requires forall a, b :: 0 <= a < |users| && 0 <= b < |ms| && Qualifies(users[a], ms[b], now) ==>
               KeyOf(users[a], ms[b]) in st1.matchJobs
    requires FromSomeUser(users, ms, now, j)
    ensures j.key in st1.matchJobs
  {
    var a :| 0 <= a < |users| && users[a].reminderMinutes > 0 && DueJob(users[a], ms, now, j);
    var b :| 0 <= b < |ms| && InWindow(users[a], ms[b], now) && j == JobFor(users[a], ms[b]);
    assert Qualifies(users[a], ms[b], now);
  }

  /** No job can be both fresh and already keyed. */
  lemma FreshAndKeyedIsEmpty(before: set<JobKey>, jobs: seq<Job>)
    requires FreshJobs(before, jobs)
    requires forall k :: 0 <= k < |jobs| ==> jobs[k].key in before
    ensures jobs == []
  {
    if |jobs| > 0 {
      HeadKeyed(before, jobs);
      assert false;
    }
  }

  lemma HeadKeyed(before: set<JobKey>, jobs: seq<Job>)
    requires |jobs| > 0 && forall k :: 0 <= k < |jobs| ==> jobs[k].key in before
    ensures jobs[0].key in before
  {
  }

  /** Running the same reminder check twice schedules nothing new the
      second time: `_match_jobs` already holds every key it would use. */
  lemma ReminderRerunIsQuiet(st: State, users: seq<User>, ms: seq<RawMatch>, now: int)
    ensures var st1 := ReminderCycle(st, users, ms, now).0;
            ReminderCycle(st1, users, ms, now) == (st1, [])
  {
    var st1 := ReminderCycle(st, users, ms, now).0;
    var jobs := ReminderCycle(st1, users, ms, now).1;
    ReminderCycleSound(st1, users, ms, now);
    ReminderCycleComplete(st, users, ms, now);
    JobsAlreadyKeyed(st1, users, ms, now, jobs);
    FreshAndKeyedIsEmpty(st1.matchJobs, jobs);
    assert KeysOf(jobs) == {};
    assert st1.(matchJobs := st1.matchJobs + {}) == st1;
  }

  /** The lifetime invariant of the scheduled jobs: no (chat, match) key is
      ever scheduled twice, and every scheduled key is recorded. */
  predicate JobsLogOk(st: State, log: seq<Job>)
  {
    FreshJobs({}, log) && KeysOf(log) <= st.matchJobs
  }

  /** At most one reminder per (chat, match) over the process lifetime:
      any further reminder cycle keeps the invariant. */
  lemma ReminderAtMostOnce(st: State, log: seq<Job>, users: seq<User>, ms: seq<RawMatch>, now: int)
    requires JobsLogOk(st, log)
    ensures var (st1, jobs) := ReminderCycle(st, users, ms, now);
            JobsLogOk(st1, log + jobs)
  {
    var (st1, jobs) := ReminderCycle(st, users, ms, now);
    assert {} + KeysOf(log) <= st.matchJobs;
    FreshJobsAppend({}, log, jobs);
  }

  /** The reminder scenario: with a 30-minute lead, a match kicking off in
      90 minutes gets one job that runs in 60 minutes and announces 30
      minutes; one kicking off in 240 minutes gets none. */
  lemma ReminderScenario(u: User, m: RawMatch, now: int)
    requires u.reminderMinutes == 30 && TruthyId(m.id) && m.parsed.Some?
    ensures m.parsed.value.kickoff == now + 90 ==>
              ReminderCycle(Initial, [u], [m], now).1 == [Job(KeyOf(u, m), now + 60, m, 30)]
    ensures m.parsed.value.kickoff == now + 240 ==> ReminderCycle(Initial, [u], [m], now).1 == []
  {
    assert [m][1..] == [] && [u][1..] == [];
    var j := PlanMatch(Initial, u, m, now);
    assert PlanMatches(Initial, u, [m], now).1 == (if j.Some? then [j.value] else []) + [];
    var (st1, j1) := PlanUser(Initial, u, [m], now);
    assert ReminderCycle(Initial, [u], [m], now).1 == j1 + [];
  }

  // ---------------------------------------------------------------------
  // Morning digest (send_morning_notifications / _send_morning_notification_to_user).
  // `today` and `tomorrow` are the server's dates `now` and `now + 1 day`.

  /** The selection as written: the first five characters of korea_time
      against "%m/%d", and characters 6..11 against "09:00". */
  predicate DigestSelectsAsWritten(kt: string, today: Date, tomorrow: Date): (r: bool)
    requires ValidDate(today) && ValidDate(tomorrow)
    ensures r ==> |kt| >= 5 && kt[2] == '/'
  {
    var day := Slice(kt, 0, 5);
    var clock := if |kt| >= 11 then Slice(kt, 6, 11) else "";
    day == FormatMonthDay(today) || (day == FormatMonthDay(tomorrow) && StrLess(clock, "09:00"))
  }

  /** The selection as intended: the date part of the "%Y-%m-%d %H:%M"
      korea_time against today's or tomorrow's date, and its clock part
      against "09:00". */
  predicate DigestSelects(kt: string, today: Date, tomorrow: Date): (r: bool)
    requires ValidDate(today) && ValidDate(tomorrow)
    ensures r ==> |kt| >= 10 && (kt[..10] == FormatDate(today) || kt[..10] == FormatDate(tomorrow))
    ensures |kt| >= 10 && kt[..10] == FormatDate(today) ==> r
  {
    var day := Slice(kt, 0, 10);
    day == FormatDate(today) || (day == FormatDate(tomorrow) && StrLess(Slice(kt, 11, 16), "09:00"))
  }

  /** The as-written selection never selects a match the client formatted:
      korea_time is empty or starts "YYYY-", whose fifth character '-' is
      never the last digit of "%m/%d". */
  lemma AsWrittenNeverSelects(m: RawMatch, today: Date, tomorrow: Date)
    requires ValidDate(today) && ValidDate(tomorrow)
    ensures !DigestSelectsAsWritten(FormatMatchInfo(m).koreaTime, today, tomorrow)
  {
    var kt := FormatMatchInfo(m).koreaTime;
    KoreaTimeShape(m);
    if kt != "" {
      var day := Slice(kt, 0, 5);
      assert day[4] == '-';
      assert FormatMonthDay(today)[4] == Pad2(today.day)[1];
      assert FormatMonthDay(tomorrow)[4] == Pad2(tomorrow.day)[1];
    }
  }

  /** The match's Korean kickoff falls on today, or on tomorrow before 09:00. */
  predicate InDigestWindow(m: RawMatch, today: Date, tomorrow: Date)
  {
    m.parsed.Some? &&
    (m.parsed.value.korea.date == today ||
     (m.parsed.value.korea.date == tomorrow && m.parsed.value.korea.hour < 9))
  }

  /** The intended selection picks exactly the matches whose Korean kickoff
      falls on today, or on tomorrow before 09:00. */
  lemma DigestSelectsIff(m: RawMatch, today: Date, tomorrow: Date)
    requires ValidDate(today) && ValidDate(tomorrow)
    ensures DigestSelects(FormatMatchInfo(m).koreaTime, today, tomorrow) <==> InDigestWindow(m, today, tomorrow)
  {
    var kt := FormatMatchInfo(m).koreaTime;
    if m.parsed.Some? {
      var k := m.parsed.value.korea;
      FormatStampLayout(k);
      assert Slice(kt, 0, 10) == kt[..10];
      assert Slice(kt, 11, 16) == kt[11..16];
      FormatDateInjective(k.date, today);
      FormatDateInjective(k.date, tomorrow);
      ClockBeforeNine(k);
    } else {
      assert |Slice(kt, 0, 10)| == 0;
    }
  }

  /** The matches of the snapshot that make the digest, formatted, in order. */
  function Digest(ms: seq<RawMatch>, today: Date, tomorrow: Date): (r: seq<MatchInfo>)
    requires ValidDate(today) && ValidDate(tomorrow)
    ensures |r| <= |ms|
    decreases |ms|
  {
    if |ms| == 0 then []
    else
      var info := FormatMatchInfo(ms[0]);
      (if DigestSelects(info.koreaTime, today, tomorrow) then [info] else [])
      + Digest(ms[1..], today, tomorrow)
  }

  /** The same list under the as-written selection. */
  function DigestAsWritten(ms: seq<RawMatch>, today: Date, tomorrow: Date): (r: seq<MatchInfo>)
    requires ValidDate(today) && ValidDate(tomorrow)
    ensures |r| <= |ms|
    decreases |ms|
  {
    if |ms| == 0 then []
    else
      var info := FormatMatchInfo(ms[0]);
      (if DigestSelectsAsWritten(info.koreaTime, today, tomorrow) then [info] else [])
      + DigestAsWritten(ms[1..], today, tomorrow)
  }

  /** As written, the digest is always empty, so the morning notification
      is never sent. */
  lemma {:induction false} DigestAsWrittenIsEmpty(ms: seq<RawMatch>, today: Date, tomorrow: Date)
    requires ValidDate(today) && ValidDate(tomorrow)
    ensures DigestAsWritten(ms, today, tomorrow) == []
    decreases |ms|
  {
    if |ms| > 0 {
      AsWrittenNeverSelects(ms[0], today, tomorrow);
      DigestAsWrittenIsEmpty(ms[1..], today, tomorrow);
    }
  }

  /** A match is in the digest exactly when its Korean kickoff is today, or
      tomorrow before 09:00. */
  lemma {:induction false} DigestMembership(ms: seq<RawMatch>, today: Date, tomorrow: Date, i: int)
    requires ValidDate(today) && ValidDate(tomorrow) && 0 <= i < |ms|
    ensures InDigestWindow(ms[i], today, tomorrow)
            ==> FormatMatchInfo(ms[i]) in Digest(ms, today, tomorrow)
    decreases |ms|
  {
    DigestSelectsIff(ms[i], today, tomorrow);
    if i > 0 {
      DigestMembership(ms[1..], today, tomorrow, i - 1);
      assert ms[1..][i - 1] == ms[i];
    }
  }

  /** `info` is the formatted form of a match of `ms` in the digest window. */
  ghost predicate FromWindow(ms: seq<RawMatch>, info: MatchInfo, today: Date, tomorrow: Date)
  {
    exists i :: 0 <= i < |ms| && info == FormatMatchInfo(ms[i]) && InDigestWindow(ms[i], today, tomorrow)
  }

  lemma FromWindowTail(ms: seq<RawMatch>, info: MatchInfo, today: Date, tomorrow: Date)
    requires |ms| > 0 && FromWindow(ms[1..], info, today, tomorrow)
    ensures FromWindow(ms, info, today, tomorrow)
  {
    var i :| 0 <= i < |ms[1..]| && info == FormatMatchInfo(ms[1..][i]) && InDigestWindow(ms[1..][i], today, tomorrow);
    var j := i + 1;
    assert ms[1..][i] == ms[j];
    assert 0 <= j < |ms| && info == FormatMatchInfo(ms[j]) && InDigestWindow(ms[j], today, tomorrow);
  }

  /** Every digest entry is the formatted form of a snapshot match whose
      Korean kickoff is today, or tomorrow before 09:00. */
  lemma {:induction false} DigestEntriesQualify(ms: seq<RawMatch>, today: Date, tomorrow: Date, k: int)
    requires ValidDate(today) && ValidDate(tomorrow) && 0 <= k < |Digest(ms, today, tomorrow)|
    ensures FromWindow(ms, Digest(ms, today, tomorrow)[k], today, tomorrow)
    decreases |ms|
  {
    var selected := DigestSelects(FormatMatchInfo(ms[0]).koreaTime, today, tomorrow);
    var rest := Digest(ms[1..], today, tomorrow);
    DigestHead(ms, today, tomorrow);
    if selected && k == 0 {
      DigestSelectsIff(ms[0], today, tomorrow);
      assert InDigestWindow(ms[0], today, tomorrow);
      assert Digest(ms, today, tomorrow)[0] == FormatMatchInfo(ms[0]);
    } else {
      var k' := if selected then k - 1 else k;
      assert Digest(ms, today, tomorrow)[k] == rest[k'];
      DigestEntriesQualify(ms[1..], today, tomorrow, k');
      FromWindowTail(ms, rest[k'], today, tomorrow);
    }
  }

  lemma DigestHead(ms: seq<RawMatch>, today: Date, tomorrow: Date)
    requires ValidDate(today) && ValidDate(tomorrow) && |ms| > 0
    ensures var info := FormatMatchInfo(ms[0]);
            Digest(ms, today, tomorrow) ==
              (if DigestSelects(info.koreaTime, today, tomorrow) then [info] else []) + Digest(ms[1..], today, tomorrow)
  {
  }

  /** send_morning_notifications: the users are those whose morning hour is
      the current hour; each gets the digest when it is not empty. */
  function MorningCycle(users: seq<User>, ms: seq<RawMatch>, today: Date, tomorrow: Date): (r: seq<Send>)
    requires ValidDate(today) && ValidDate(tomorrow)
    ensures |Digest(ms, today, tomorrow)| == 0 ==> r == []
    ensures |Digest(ms, today, tomorrow)| > 0 ==>
              |r| == |users| && forall i :: 0 <= i < |r| ==> r[i].chatId == users[i].chatId
    ensures forall i :: 0 <= i < |r| ==> r[i].msg == MorningMsg(Digest(ms, today, tomorrow))
  {
    var digest := Digest(ms, today, tomorrow);
    if |digest| == 0 then [] else Broadcast(users, MorningMsg(digest))
  }

  /** The same cycle under the as-written selection. */
  function MorningCycleAsWritten(users: seq<User>, ms: seq<RawMatch>, today: Date, tomorrow: Date): (r: seq<Send>)
    requires ValidDate(today) && ValidDate(tomorrow)
    ensures |r| == 0 || |r| == |users|
  {
    var digest := DigestAsWritten(ms, today, tomorrow);
    if |digest| == 0 then [] else Broadcast(users, MorningMsg(digest))
  }

  /** As written, no morning notification is ever sent. */
  lemma MorningAsWrittenSendsNothing(users: seq<User>, ms: seq<RawMatch>, today: Date, tomorrow: Date)
    requires ValidDate(today) && ValidDate(tomorrow)
    ensures MorningCycleAsWritten(users, ms, today, tomorrow) == []
  {
    DigestAsWrittenIsEmpty(ms, today, tomorrow);
  }

  /** Who gets the digest: each user with morning notifications on at this
      hour gets exactly one message when the digest is not empty; nobody
      else gets one. */
  lemma MorningRecipients(db: Db, users: seq<User>, hour: int, ms: seq<RawMatch>,
                          today: Date, tomorrow: Date, chat: string)
    requires Valid(db) && Enumerates(users, db, MorningAt(hour))
    requires ValidDate(today) && ValidDate(tomorrow)
    ensures SendsTo(MorningCycle(users, ms, today, tomorrow), chat) ==
            if chat in db && db[chat].morning == 1 && db[chat].morningHour == hour
               && |Digest(ms, today, tomorrow)| > 0 then 1 else 0
  {
    ListedIffSelected(users, db, MorningAt(hour), chat);
    BroadcastOncePerUser(users, MorningMsg(Digest(ms, today, tomorrow)), chat);
  }

  /** The digest scenario: with the Korean kickoff today at 20:00 or
      tomorrow at 03:00 the match is in; tomorrow at 14:00 it is out. */
  lemma DigestScenario(m: RawMatch, today: Date, tomorrow: Date)
    requires ValidDate(today) && ValidDate(tomorrow) && today != tomorrow && m.parsed.Some?
    ensures m.parsed.value.korea == Stamp(today, 20, 0) ==>
              DigestSelects(FormatMatchInfo(m).koreaTime, today, tomorrow)
    ensures m.parsed.value.korea == Stamp(tomorrow, 3, 0) ==>
              DigestSelects(FormatMatchInfo(m).koreaTime, today, tomorrow)
    ensures m.parsed.value.korea == Stamp(tomorrow, 14, 0) ==>
              !DigestSelects(FormatMatchInfo(m).koreaTime, today, tomorrow)
  {
    DigestSelectsIff(m, today, tomorrow);
  }
}
