/** The preference store of database.py: the `users` table keyed by the
    UNIQUE `chat_id` column, as a finite map. Integer columns keep the
    0/1 encoding the table uses for on/off settings. The `id` and
    `created_at` columns carry no behaviour and are not modelled. */
module Store {
  import opened Wrappers

  datatype User = User(
    chatId: string,
    username: Option<string>,
    morning: int,          // morning_notification
    morningHour: int,      // morning_notification_hour
    reminderMinutes: int,  // match_reminder_minutes
    goal: int,             // goal_notification
    lineup: int)           // lineup_notification

  // Column defaults of the CREATE TABLE statement.
  const DefaultMorning: int := 1
  const DefaultMorningHour: int := 9
  const DefaultReminderMinutes: int := 30
  const DefaultGoal: int := 1
  const DefaultLineup: int := 1

  type Db = map<string, User>

  /** The UNIQUE constraint on chat_id: each record sits under its own id. */
  predicate Valid(db: Db)
  {
    forall k :: k in db ==> db[k].chatId == k
  }

  /** The integer setting columns an UPDATE can address. */
  datatype Column = Morning | MorningHour | ReminderMinutes | Goal | Lineup

  function Get(u: User, c: Column): int
  {
    match c
    case Morning => u.morning
    case MorningHour => u.morningHour
    case ReminderMinutes => u.reminderMinutes
    case Goal => u.goal
    case Lineup => u.lineup
  }

  function With(u: User, c: Column, v: int): User
  {
    match c
    case Morning => u.(morning := v)
    case MorningHour => u.(morningHour := v)
    case ReminderMinutes => u.(reminderMinutes := v)
    case Goal => u.(goal := v)
    case Lineup => u.(lineup := v)
  }

  /** Writing one column changes that column and nothing else of the row. */
  lemma WithChangesOneColumn(u: User, c: Column, v: int)
    ensures Get(With(u, c, v), c) == v
    ensures forall d :: d != c ==> Get(With(u, c, v), d) == Get(u, d)
    ensures With(u, c, v).chatId == u.chatId && With(u, c, v).username == u.username
  {
  }

  /** Python truthiness of the optional username argument. */
  predicate Truthy(name: Option<string>)
  {
    name.Some? && name.value != ""
  }

  /** The row an INSERT of (chat_id, username) creates. */
  function NewUser(chatId: string, username: Option<string>): (u: User)
    ensures u.chatId == chatId && u.username == username
    ensures u.morning == 1 && u.morningHour == 9 && u.reminderMinutes == 30
    ensures u.goal == 1 && u.lineup == 1
  {
    User(chatId, username, DefaultMorning, DefaultMorningHour,
         DefaultReminderMinutes, DefaultGoal, DefaultLineup)
  }

  /** get_or_create_user: returns the stored row (as read BEFORE a possible
      username update) or inserts a row with the column defaults. */
  function GetOrCreate(db: Db, chatId: string, username: Option<string>): (r: (Db, User))
    ensures chatId in r.0 && r.0.Keys == db.Keys + {chatId}
    ensures forall k :: k in db && k != chatId ==> r.0[k] == db[k]
    ensures chatId in db ==>
      && r.1 == db[chatId]
      && r.0.Keys == db.Keys
      && r.0[chatId] == db[chatId].(username :=
           if Truthy(username) && db[chatId].username != username then username
           else db[chatId].username)
    ensures chatId !in db ==>
      && r.1 == r.0[chatId]
      && r.1.chatId == chatId && r.1.username == username
      && r.1.morning == 1 && r.1.morningHour == 9 && r.1.reminderMinutes == 30
      && r.1.goal == 1 && r.1.lineup == 1
    ensures Valid(db) ==> Valid(r.0)
  {
    if chatId in db then
      var user := db[chatId];
      if Truthy(username) && user.username != username then
        (db[chatId := user.(username := username)], user)
      else (db, user)
    else
      var row := NewUser(chatId, username);
      (db[chatId := row], row)
  }

  /** Calling get_or_create_user again with the same arguments changes
      nothing more. */
  lemma GetOrCreateIdempotent(db: Db, chatId: string, username: Option<string>)
    ensures var db1 := GetOrCreate(db, chatId, username).0;
            GetOrCreate(db1, chatId, username).0 == db1
  {
  }

  /** get_user. */
  function GetUser(db: Db, chatId: string): (r: Option<User>)
    ensures r.Some? <==> chatId in db
    ensures r.Some? ==> r.value == db[chatId]
    ensures Valid(db) && r.Some? ==> r.value.chatId == chatId
  {
    if chatId in db then Some(db[chatId]) else None
  }

  /** One `UPDATE users SET <column> = ? WHERE chat_id = ?`; the boolean is
      `rowcount > 0`. */
  function UpdateColumn(db: Db, chatId: string, c: Column, v: int): (r: (Db, bool))
    ensures r.1 <==> chatId in db
    ensures r.0.Keys == db.Keys
    ensures forall k :: k in db && k != chatId ==> r.0[k] == db[k]
    ensures chatId in db ==> Get(r.0[chatId], c) == v
    ensures chatId in db ==> forall d :: d != c ==> Get(r.0[chatId], d) == Get(db[chatId], d)
    ensures chatId in db ==> r.0[chatId].chatId == db[chatId].chatId && r.0[chatId].username == db[chatId].username
    ensures !r.1 ==> r.0 == db
    ensures Valid(db) ==> Valid(r.0)
  {
    if chatId in db then
      WithChangesOneColumn(db[chatId], c, v);
      (db[chatId := With(db[chatId], c, v)], true)
    else (db, false)
  }

  function BoolToInt(b: bool): int { if b then 1 else 0 }

  /** update_morning_notification. */
  function UpdateMorning(db: Db, chatId: string, enabled: bool): (r: (Db, bool))
    ensures r.1 <==> chatId in db
    ensures chatId in db ==> r.0 == db[chatId := db[chatId].(morning := if enabled then 1 else 0)]
    ensures chatId !in db ==> r.0 == db
  {
    UpdateColumn(db, chatId, Morning, BoolToInt(enabled))
  }

  /** update_morning_notification_hour. */
  function UpdateMorningHour(db: Db, chatId: string, hour: int): (r: (Db, bool))
    ensures r.1 <==> chatId in db
    ensures chatId in db ==> r.0 == db[chatId := db[chatId].(morningHour := hour)]
    ensures chatId !in db ==> r.0 == db
  {
    UpdateColumn(db, chatId, MorningHour, hour)
  }

  /** update_match_reminder. */
  function UpdateMatchReminder(db: Db, chatId: string, minutes: int): (r: (Db, bool))
    ensures r.1 <==> chatId in db
    ensures chatId in db ==> r.0 == db[chatId := db[chatId].(reminderMinutes := minutes)]
    ensures chatId !in db ==> r.0 == db
  {
    UpdateColumn(db, chatId, ReminderMinutes, minutes)
  }

  /** update_goal_notification. */
  function UpdateGoal(db: Db, chatId: string, enabled: bool): (r: (Db, bool))
    ensures r.1 <==> chatId in db
    ensures chatId in db ==> r.0 == db[chatId := db[chatId].(goal := if enabled then 1 else 0)]
    ensures chatId !in db ==> r.0 == db
  {
    UpdateColumn(db, chatId, Goal, BoolToInt(enabled))
  }

  /** update_lineup_notification. */
  function UpdateLineup(db: Db, chatId: string, enabled: bool): (r: (Db, bool))
    ensures r.1 <==> chatId in db
    ensures chatId in db ==> r.0 == db[chatId := db[chatId].(lineup := if enabled then 1 else 0)]
    ensures chatId !in db ==> r.0 == db
  {
    UpdateColumn(db, chatId, Lineup, BoolToInt(enabled))
  }

  /** toggle_setting: reads the column, stores `0 if current else 1` and
      returns it as a bool; an unknown chat id yields False and no write. */
  function Toggle(db: Db, chatId: string, c: Column): (r: (Db, bool))
    ensures chatId !in db ==> r == (db, false)
    ensures chatId in db ==> r.1 == (Get(db[chatId], c) == 0)
    ensures chatId in db ==> r.0 == UpdateColumn(db, chatId, c, if r.1 then 1 else 0).0
  {
    match GetUser(db, chatId)
    case None => (db, false)
    case Some(user) =>
      var newValue := if Get(user, c) != 0 then 0 else 1;
      (UpdateColumn(db, chatId, c, newValue).0, newValue != 0)
  }

  /** Toggling a 0/1 column twice restores the store, and the second call
      reports the original setting. */
  lemma ToggleTwice(db: Db, chatId: string, c: Column)
    requires chatId in db && Get(db[chatId], c) in {0, 1}
    ensures var (db1, _) := Toggle(db, chatId, c);
            var (db2, second) := Toggle(db1, chatId, c);
            db2 == db && second == (Get(db[chatId], c) == 1)
  {
    var u := db[chatId];
    var (db1, _) := Toggle(db, chatId, c);
    WithChangesOneColumn(u, c, 1 - Get(u, c));
    var u1 := db1[chatId];
    WithChangesOneColumn(u1, c, Get(u, c));
    var (db2, _) := Toggle(db1, chatId, c);
    assert db2[chatId] == u by {
      match c
      case Morning =>
      case MorningHour =>
      case ReminderMinutes =>
      case Goal =>
      case Lineup =>
    }
    assert db2 == db;
  }

  // ---------------------------------------------------------------------
  // SELECT queries. The table's row order is not part of the contract:
  // a query yields the matching rows, each once, in some order.

  datatype Query = AllUsers | MorningAt(hour: int) | GoalOn | LineupOn

  predicate Matches(u: User, q: Query)
  {
    match q
    case AllUsers => true
    case MorningAt(h) => u.morning == 1 && u.morningHour == h
    case GoalOn => u.goal == 1
    case LineupOn => u.lineup == 1
  }

  predicate DistinctIds(s: seq<User>)
  {
    forall i, j :: 0 <= i < j < |s| ==> s[i].chatId != s[j].chatId
  }

  /** `s` lists exactly the rows of `db` that satisfy `q`, one per chat id. */
  ghost predicate Enumerates(s: seq<User>, db: Db, q: Query)
  {
    DistinctIds(s) && forall u :: u in s <==> u in db.Values && Matches(u, q)
  }

  /** The WHERE clause applied to a row sequence, keeping the order. */
  function Select(s: seq<User>, q: Query): (r: seq<User>)
    ensures |r| <= |s|
    ensures forall u :: u in r <==> u in s && Matches(u, q)
    ensures DistinctIds(s) ==> DistinctIds(r)
  {
    if |s| == 0 then []
    else
      var rest := Select(s[1..], q);
      if Matches(s[0], q) then
        assert DistinctIds(s) ==> DistinctIds([s[0]] + rest) by {
          if DistinctIds(s) {
            forall j | 0 <= j < |rest|
              ensures rest[j].chatId != s[0].chatId
            {
              assert rest[j] in s[1..];
              var k :| 0 <= k < |s| - 1 && s[1..][k] == rest[j];
              assert s[k + 1] == rest[j];
            }
          }
        }
        [s[0]] + rest
      else rest
  }

  /** `SELECT * FROM users`: every row once. */
  method Scan(db: Db) returns (s: seq<User>)
    ensures forall u :: u in s <==> u in db.Values
    ensures Valid(db) ==> DistinctIds(s)
  {
    var keys := db.Keys;
    s := [];
    ghost var ks: seq<string> := [];
    while keys != {}
      invariant keys <= db.Keys
      invariant |ks| == |s|
      invariant forall i :: 0 <= i < |s| ==> ks[i] in db && s[i] == db[ks[i]]
      invariant forall i :: 0 <= i < |ks| ==> ks[i] !in keys
      invariant forall i, j :: 0 <= i < j < |ks| ==> ks[i] != ks[j]
      invariant forall k :: k in db && k !in keys ==> k in ks
      decreases |keys|
    {
      var k :| k in keys;
      s := s + [db[k]];
      ks := ks + [k];
      keys := keys - {k};
    }
    forall u | u in db.Values
      ensures u in s
    {
      var k :| k in db && db[k] == u;
      var i :| 0 <= i < |ks| && ks[i] == k;
      assert s[i] == u;
    }
    if Valid(db) {
      forall i, j | 0 <= i < j < |s|
        ensures s[i].chatId != s[j].chatId
      {
        assert s[i].chatId == ks[i] && s[j].chatId == ks[j];
      }
    }
  }

  method Run(db: Db, q: Query) returns (s: seq<User>)
    requires Valid(db)
    ensures Enumerates(s, db, q)
  {
    var rows := Scan(db);
    s := Select(rows, q);
  }

  /** get_all_users. */
  method GetAllUsers(db: Db) returns (s: seq<User>)
    requires Valid(db)
    ensures DistinctIds(s)
    ensures forall u :: u in s <==> u in db.Values
  {
    s := Run(db, AllUsers);
  }

  /** get_users_for_morning_notification(hour). */
  method UsersForMorning(db: Db, hour: int) returns (s: seq<User>)
    requires Valid(db)
    ensures DistinctIds(s)
    ensures forall u :: u in s <==> u in db.Values && u.morning == 1 && u.morningHour == hour
  {
    s := Run(db, MorningAt(hour));
  }

  /** get_users_for_goal_notification. */
  method UsersForGoal(db: Db) returns (s: seq<User>)
    requires Valid(db)
    ensures DistinctIds(s)
    ensures forall u :: u in s <==> u in db.Values && u.goal == 1
  {
    s := Run(db, GoalOn);
  }

  /** get_users_for_lineup_notification. */
  method UsersForLineup(db: Db) returns (s: seq<User>)
    requires Valid(db)
    ensures DistinctIds(s)
    ensures forall u :: u in s <==> u in db.Values && u.lineup == 1
  {
    s := Run(db, LineupOn);
  }

  /** A chat id listed by a query names a stored row, and the row listed is
      the one stored under it. */
  lemma EnumeratedRowsAreStored(s: seq<User>, db: Db, q: Query, i: int)
    requires Valid(db) && Enumerates(s, db, q) && 0 <= i < |s|
    ensures s[i].chatId in db && db[s[i].chatId] == s[i] && Matches(s[i], q)
  {
    assert s[i] in s;
  }
}
