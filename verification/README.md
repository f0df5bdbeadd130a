# Birmingham City notification bot — a Dafny model of its decision logic

This project models the Telegram bot that follows Birmingham City FC. It covers
the parts that decide something, as pure functions over immutable state:

- **Scheduler** (`scheduler.py`): the notification scheduler.
  - Its in-memory state is three parts: the last seen live scores, the match ids
    whose lineups were already sent, and the reminder keys already scheduled.
  - Each poll cycle is a step function from (state, users, gateway snapshot,
    now) to (new state, sends). The cycles are goal detection, the lineup gate,
    reminder planning with a two-hour look-ahead, and the morning digest.
- **Store** (`database.py`): the SQLite preference store, as a map from chat id
  to a row of 0/1 flags. It covers upsert, field updates, toggle and the filter
  queries.
- **Gateway** (`football_api.py`): the pure parts of the football API client.
  These are empty-on-failure, sort-and-truncate, the playoff-gap arithmetic of
  the standings, and the defaults of `format_match_info`.
- **Notifier** (`telegram_bot.py`): the decisions inside
  `format_match_notification`. These are the win/draw/loss classification,
  home and opponent detection, the time shortening, the goal-difference sign,
  and which optional lines appear.
- **Settings** (`settings.py`): the JSON settings file. The file is `None` when
  it is missing or is not valid JSON. The module covers the default merge, reads, writes
  and toggles.
- **Bot** (`birmingham_bot.py`): the callback data of the hour and reminder
  buttons and how it is parsed back, the reminder label and confirmation,
  setting presses, and the admin check of `/restart`.

Shared helpers:

- **Text**: Python string semantics — lexicographic `<`, slicing, `in`,
  `split`, `str()` on integers, and `int()` on an optional sign followed by
  ASCII digits.
- **Stamps**: the `"%Y-%m-%d %H:%M"` and `"%m/%d"` formats.
- **Wrappers**: `Option`.

How the model represents the original:

- Time is whole minutes.
- A raw match carries the outcome of parsing its kickoff: the kickoff minute
  and the UTC, UK and Korea wall-clock stamps. The parse may have failed.
- Sends are a log of (chat id, message facts). The message facts are the teams,
  scores, minutes and rosters, not the message text.
- The club's team id is the constant `ClubTeamId` = 332. The source reads
  `BIRMINGHAM_TEAM_ID` from its configuration (scheduler.py:301), and 332 is
  the client's default (football_api.py:17).
- A lineup message carries the match id it is about. The sent text does not
  contain it. The tag exists only so that the at-most-once property can name
  the match.
- The /update notification is a sequence of parts, one per line the source
  appends: the title, the standing, section headers, the times, teams, venue,
  opponent and result lines, blank lines and the trailer.

## Model

| member | source | states |
|---|---|---|
| Store.NewUser | database.py:53-65 | A new row has the given chat id and username, and the column defaults: morning on, hour 9, reminder 30 minutes, goal on, lineup on |
| Store.GetOrCreate | database.py:70-103 | For an unknown id, inserts a default row and returns it. For a known id, returns the stored (pre-update) row, keeps the id set, and overwrites the username only when the argument is truthy and differs. Other rows are untouched, and chat ids stay unique |
| Store.GetOrCreateIdempotent | database.py:70-103 | A second identical call changes nothing more |
| Store.GetUser | database.py:105-111 | Finds a row iff the chat id is stored, and that row belongs to the id |
| Store.WithChangesOneColumn | database.py:120-168 | Writing one column leaves every other column, the chat id and the username as they were |
| Store.UpdateColumn | database.py:120-168 | Reports success iff the chat id is stored. Changes exactly the one column of that one row, and nothing at all for an unknown id |
| Store.UpdateMorning | database.py:120-128 | True iff the row exists. Only its morning flag changes, to 1 or 0 |
| Store.UpdateMorningHour | database.py:130-138 | True iff the row exists. Only its morning hour changes |
| Store.UpdateMatchReminder | database.py:140-148 | True iff the row exists. Only its reminder lead changes |
| Store.UpdateGoal | database.py:150-158 | True iff the row exists. Only its goal flag changes |
| Store.UpdateLineup | database.py:160-168 | True iff the row exists. Only its lineup flag changes |
| Store.Toggle | database.py:170-186 | An unknown id gives False and no change. Otherwise the result is True iff the column was 0, and that value is stored as 1/0 |
| Store.ToggleTwice | database.py:170-186 | Toggling a 0/1 column twice restores the store, and the second result is the original value |
| Store.Select | database.py:188-217 | A user is kept iff it was listed and matches the filter. Unique ids stay unique |
| Store.Run | database.py:187-217 | Running a query on a valid store lists each stored row that passes the WHERE filter, and no other row, each once |
| Store.Scan | database.py:113-118 | Enumerates exactly the stored rows, with unique chat ids |
| Store.GetAllUsers | database.py:113-118 | Returns exactly the stored rows, each once |
| Store.UsersForMorning | database.py:188-197 | Returns exactly the rows with morning = 1 and morning hour = h, each once |
| Store.UsersForGoal | database.py:199-207 | Returns exactly the rows with goal = 1, each once |
| Store.UsersForLineup | database.py:209-217 | Returns exactly the rows with lineup = 1, each once |
| Store.EnumeratedRowsAreStored | database.py:188-217 | Every row a query returns is the stored row of its chat id and satisfies the filter |
| Gateway.MatchesOf | football_api.py:43-49 | A failed request, or a body without "matches", yields the empty list. Otherwise the body's list |
| Gateway.GetUpcomingMatches | football_api.py:51-74 | Empty on failure or a missing "matches" field. Otherwise the fetched list |
| Gateway.Insert | football_api.py:102-105 | Inserting into a sorted list keeps it sorted and adds exactly that match |
| Gateway.Sort | football_api.py:102-105 | The result is a permutation of the input, sorted by the utcDate string |
| Gateway.Take | football_api.py:105 | Python's `[:n]`: a prefix of length min(n, len) for n ≥ 0, and len + n (at least 0) for negative n |
| Gateway.SortTake | football_api.py:102-105 | Sorted, a sub-multiset of the input, and exactly min(limit, len) long. No dropped match sorts strictly before a kept one |
| Gateway.TakeOfSorted | football_api.py:102-105 | A prefix of a sorted list is sorted, and every match it leaves out sorts no earlier than the ones kept |
| Gateway.GetRecentResults | football_api.py:76-105 | Results sorted by date descending, drawn from the fetched matches, min(limit, n) long, the most recent first. Empty on failure |
| Gateway.GetUpcomingFutureMatches | football_api.py:167-195 | Matches sorted by date ascending, drawn from the fetched matches, min(limit, n) long, the earliest first. Empty on failure |
| Gateway.FirstTotal | football_api.py:124-126 | Picks the first standings group of type TOTAL, or none when there is no such group |
| Gateway.LastRowOf | football_api.py:129-141 | The team's row is the last row with its id, or none when the team is absent |
| Gateway.SixthPlacePoints | football_api.py:144-147 | The points of the first row at position 6 (the loop breaks there), or 0 when no row has position 6 |
| Gateway.PlayoffGap | football_api.py:151-163 | Never negative. Equal to the points deficit when behind. 0 when ahead. 1 exactly when level on points but below sixth place |
| Gateway.PlayoffGapZeroIff | football_api.py:151-163 | The gap is 0 iff the team has at least the sixth-place points and is not level below sixth place |
| Gateway.StandingOf | football_api.py:129-163 | Points and position default to 0, and the gap is derived from them and the sixth-place points |
| Gateway.GetTeamStanding | football_api.py:107-165 | None without a standings body. Otherwise it comes from the first TOTAL table only, and is None iff the team is absent from that table. When present, it is the standing built from the team's last row in that table and that table's sixth-place points, and the gap is never negative |
| Gateway.FormatMatchInfo | football_api.py:198-251 | Missing names and venue read "Unknown", and a missing status reads "SCHEDULED". A score is present iff the status is FINISHED. An unparsable date gives empty UK/Korea times and the raw date string |
| Gateway.KoreaTimeShape | football_api.py:214-235 | The Korea time is either empty or 16 characters, "YYYY-MM-DD HH:MM", whose first ten characters are the Korea date |
| Notifier.Classify | telegram_bot.py:142-160 | If the home team is the club, win iff home > away and loss iff home < away. Otherwise, if the away team is the club, the mirror rule. Otherwise no result. The home check wins when both names match |
| Notifier.ClassifyMirror | telegram_bot.py:145-160 | When only the away side is the club, the outcome equals the one for the swapped fixture |
| Notifier.ClassifyFlipsWithSide | telegram_bot.py:145-160 | With the club on one side only, it is a win exactly as seen from the club's side. It is a draw iff the scores are equal |
| Notifier.Shorten | telegram_bot.py:97-98 | A string longer than five characters loses exactly five characters, and a shorter one is unchanged |
| Notifier.ShortenKeepsRest | telegram_bot.py:97-98 | A string longer than five characters is its first five characters followed by its shortened form, so `s[5:]` keeps the rest in order |
| Notifier.ShortenDropsYear | telegram_bot.py:97-98 | A formatted stamp loses exactly its "YYYY-" year, and an empty time stays empty |
| Notifier.Opponent | telegram_bot.py:118-120 | The home flag is set iff the club is the home side. The opponent is the away team then, and the home team otherwise |
| Notifier.OpponentIsOtherSide | telegram_bot.py:118-120 | With the club on exactly one side, the chosen opponent is never the club |
| Notifier.SignPrefix | telegram_bot.py:81 | "+" iff the goal difference is positive, and nothing otherwise |
| Notifier.UpcomingBlock | telegram_bot.py:90-104 | A match's block is its shortened Korea and UK times, then home vs away, then its venue exactly when the venue is not "Unknown", then a blank line |
| Notifier.UpcomingBlockVenues | telegram_bot.py:102-103 | The only venue line a block can hold is its own match's venue, and only when that venue is known |
| Notifier.UpcomingBlocks | telegram_bot.py:89-104 | Three or four lines per upcoming match, and the section opens with the first match's shortened times |
| Notifier.UpcomingVenues | telegram_bot.py:88-104 | The blocks hold a venue line iff some match has that venue and it is not "Unknown" |
| Notifier.UpcomingBlocksAppend | telegram_bot.py:89-104 | The blocks of two lists of matches are the blocks of the first list followed by those of the second |
| Notifier.UpcomingBlocksPerMatch | telegram_bot.py:89-104 | Each match contributes exactly its own block, in list order: the blocks of the earlier matches, then its block, then the blocks of the later ones |
| Notifier.UpcomingBlocksSplit | telegram_bot.py:89-104 | For one match of the list: the blocks before it, its own block, the blocks after it |
| Notifier.FutureBlock | telegram_bot.py:112-128 | A future match's block is its shortened times, then its opponent with the home flag, then a blank line |
| Notifier.FutureBlocks | telegram_bot.py:111-128 | Three lines per future match. What each block holds is stated by FutureBlockParts |
| Notifier.FutureBlocksAppend | telegram_bot.py:111-128 | The blocks of two lists of matches are the blocks of the first followed by those of the second |
| Notifier.FutureBlocksSplit | telegram_bot.py:111-128 | Each match contributes exactly its own block, in list order |
| Notifier.FutureBlockAt | telegram_bot.py:111-128 | Lines 3i, 3i+1 and 3i+2 of the section's blocks are the three lines of match i's block |
| Notifier.FutureBlockParts | telegram_bot.py:123-128 | Block i holds match i's shortened Korea and UK times, its opponent with the home flag, and a blank line |
| Notifier.RecentBlock | telegram_bot.py:134-168 | A recent match's block is its shortened times, then its score line with the classified result, then a blank line |
| Notifier.RecentBlocks | telegram_bot.py:133-168 | Three lines per recent match. What each block holds is stated by RecentBlockParts |
| Notifier.RecentBlocksAppend | telegram_bot.py:133-168 | The blocks of two lists of matches are the blocks of the first followed by those of the second |
| Notifier.RecentBlocksSplit | telegram_bot.py:133-168 | Each match contributes exactly its own block, in list order |
| Notifier.RecentBlockAt | telegram_bot.py:133-168 | Lines 3i, 3i+1 and 3i+2 of the section's blocks are the three lines of match i's block |
| Notifier.RecentBlockParts | telegram_bot.py:162-168 | Block i holds match i's shortened Korea and UK times, its score line with the result judged by Classify, and a blank line |
| Notifier.ShowsStandingUnique | telegram_bot.py:73-83 | A standing determines its line: two lines that both show it are equal |
| Notifier.StandingParts | telegram_bot.py:73-84 | With a standing, a standing line with its position, played, won, draw, lost and points, the goal difference signed "+" iff it is positive, and a blank line. Without one, nothing |
| Notifier.Head | telegram_bot.py:69-84 | The title comes first. The standing line showing the standing's figures and signed goal difference, and a blank line, follow exactly when a standing is given |
| Notifier.UpcomingSection | telegram_bot.py:86-106 | Always opens with its header. Then come the match blocks, or, without matches, the "none scheduled" line alone |
| Notifier.FutureSection | telegram_bot.py:108-128 | Absent iff there are no future matches. Otherwise its header, then the blocks |
| Notifier.RecentSection | telegram_bot.py:130-168 | Absent iff there are no recent results. Otherwise its header, then the blocks |
| Notifier.Trailer | telegram_bot.py:170-173 | The "no matches" and "please wait" lines, present iff all three lists are empty |
| Notifier.FormatNotification | telegram_bot.py:48-175 | The title comes first, and the standing line second when a standing is given. The "today/tomorrow" header follows the head. The "next matches" header, when present, starts right after the "today/tomorrow" section. The "recent results" header, when present, starts right after that. The message is at least as long as its sections |
| Notifier.NotificationParts | telegram_bot.py:48-175 | A line is in the notification iff it is in the head, one of the three sections, or the trailer |
| Notifier.UpcomingSectionHas | telegram_bot.py:86-106 | A line is in the "today/tomorrow" section iff it is the header, the "none scheduled" line with no matches, or a line of the blocks |
| Notifier.FutureSectionHas | telegram_bot.py:108-128 | A line is in the "next matches" section iff there are future matches and it is the header or a line of the blocks |
| Notifier.RecentSectionHas | telegram_bot.py:130-168 | A line is in the "recent results" section iff there are recent results and it is the header or a line of the blocks |
| Notifier.UpcomingKinds | telegram_bot.py:100-104 | The "today/tomorrow" blocks hold only times, teams, venue and blank lines |
| Notifier.FutureKinds | telegram_bot.py:126-128 | The "next matches" blocks hold only times, opponent and blank lines |
| Notifier.RecentKinds | telegram_bot.py:166-168 | The "recent results" blocks hold only times, result and blank lines |
| Notifier.UpcomingSectionParts | telegram_bot.py:86-106 | The "today/tomorrow" section holds the "none scheduled" line iff there are no upcoming matches, and never the other headers or the trailer |
| Notifier.UpcomingSectionVenue | telegram_bot.py:102-103 | A venue line is in the "today/tomorrow" section iff it is in its blocks |
| Notifier.UpcomingSectionNoStanding | telegram_bot.py:86-106 | The "today/tomorrow" section never holds a standing line |
| Notifier.FutureSectionParts | telegram_bot.py:108-128 | The "next matches" section holds its header iff there are future matches, and never the "none scheduled" line, the other header or the trailer |
| Notifier.FutureSectionLines | telegram_bot.py:108-128 | The "next matches" section never holds a venue or a standing line |
| Notifier.RecentSectionParts | telegram_bot.py:130-168 | The "recent results" section holds its header iff there are recent results, and never the "none scheduled" line, the other header or the trailer |
| Notifier.RecentSectionLines | telegram_bot.py:130-168 | The "recent results" section never holds a venue or a standing line |
| Notifier.TrailerIffNoMatches | telegram_bot.py:171-173 | The "no matches" trailer appears iff all three match lists are empty |
| Notifier.SectionHeaders | telegram_bot.py:86-132 | The "today/tomorrow" header always appears. The "none scheduled" line appears iff there are no upcoming matches, and the other two headers appear iff their lists are non-empty |
| Notifier.NoUpcomingIff | telegram_bot.py:105-106 | The "none scheduled" line appears in the notification iff there are no upcoming matches |
| Notifier.FutureHeaderIff | telegram_bot.py:109-110 | The "next matches" header appears iff there are future matches |
| Notifier.RecentHeaderIff | telegram_bot.py:131-132 | The "recent results" header appears iff there are recent results |
| Notifier.VenueLines | telegram_bot.py:102-103 | A venue line appears in the notification iff some upcoming match has that venue and it is not "Unknown" |
| Notifier.VenueIn | telegram_bot.py:102-103 | Only the "today/tomorrow" blocks can put a venue line in the notification |
| Notifier.StandingLineIffStanding | telegram_bot.py:73-84 | A standing line appears iff a standing was supplied |
| Notifier.ResultLines | telegram_bot.py:130-168 | Every recent match contributes its classified result to the notification |
| Scheduler.Broadcast | scheduler.py:304-311 | One send per listed user, in list order, each carrying the same message |
| Scheduler.SendsToAppend | scheduler.py:304-311 | Sends to a chat add up over concatenated logs |
| Scheduler.BroadcastOncePerUser | scheduler.py:304-311 | Over users with unique ids, a broadcast reaches each listed chat exactly once and no one else |
| Scheduler.DetectGoal | scheduler.py:283-299 | A goal is declared iff either score rose. It goes to the home side iff the home score rose, so home wins when both rose |
| Scheduler.GoalMessage | scheduler.py:294-311 | The goal message carries both team names, the observed score and the scoring side's name. The own-team flag is set iff that side's id is the club id 332 |
| Scheduler.ProcessLive | scheduler.py:269-314 | A falsy id does nothing. Otherwise the observed score (nulls as 0) is stored for that id, other ids keep theirs, and goal users get a broadcast iff a goal was detected against the stored score (default 0-0) |
| Scheduler.RepollSameScoreIsQuiet | scheduler.py:283-314 | Re-polling the same score declares nothing and keeps the state |
| Scheduler.LiveFold | scheduler.py:262-267 | Processing the live matches never touches the lineup or reminder state |
| Scheduler.LiveFoldKeys | scheduler.py:262-267 | After a pass, the stored ids are the old ones plus every truthy id polled |
| Scheduler.LiveFoldLeavesOthers | scheduler.py:314 | Ids not polled keep their stored scores |
| Scheduler.LiveFoldLastWrite | scheduler.py:314 | A polled id ends with the score of its last occurrence |
| Scheduler.LiveFoldSendsGoals | scheduler.py:304-311 | Every send of a pass is a goal message to a listed user |
| Scheduler.LiveCycle | scheduler.py:252-267 | With no goal-enabled users, nothing is polled and nothing changes |
| Scheduler.LiveCycleEffect | scheduler.py:252-314 | Summarises one live cycle: which ids are stored, untouched ids keep their scores, polled ids hold their last observed score, and only goal messages to listed users go out |
| Scheduler.ListedIffSelected | database.py:199-207 | A chat is among the users a filter query returns iff it is stored and its row passes the filter |
| Scheduler.GoalReachesGoalUsersOnce | scheduler.py:252-311 | On a goal, each chat receives exactly one message if it is stored with goal notifications on, and none otherwise |
| Scheduler.GoalScenario | scheduler.py:283-314 | A stored 1-0 re-polled as 1-0 is quiet. Polled as 2-0, it broadcasts a home goal and stores 2-0 |
| Scheduler.Roster | scheduler.py:421-431 | A printed roster is the first min(11, n) players with their position and name, in order |
| Scheduler.LineupMessage | scheduler.py:404-431 | The lineup message names both teams. Each side's roster is its first min(11, n) players in the listed order, each with its position and name, "" when missing |
| Scheduler.ProcessLineup | scheduler.py:357-402 | Sends and marks the match iff it is TIMED/SCHEDULED, not yet marked, 0 to 60 minutes from kickoff, and one side's lineup is published. Otherwise nothing happens and nothing is marked |
| Scheduler.LineupFold | scheduler.py:350-355 | A pass over today's matches only ever adds marked matches, and leaves scores and reminder keys alone |
| Scheduler.LineupCycle | scheduler.py:341-355 | With no lineup-enabled users, nothing happens |
| Scheduler.LineupCountAppend | scheduler.py:395-402 | Lineup sends to a chat add up over concatenated logs |
| Scheduler.LineupCountAbsent | scheduler.py:395-402 | A log without lineup messages about a match sends none about it |
| Scheduler.LineupBroadcastCount | scheduler.py:395-402 | A lineup broadcast over users with unique ids reaches a chat at most once, and only about its own match |
| Scheduler.LineupCountNotTo | scheduler.py:395-402 | A log with no send to a chat sends it no lineup |
| Scheduler.LineupStepKeepsLog | scheduler.py:357-402 | One lineup step keeps the invariant: every match has gone to a chat at most once, and only marked matches have been sent |
| Scheduler.LineupFoldKeepsLog | scheduler.py:341-402 | A full pass keeps the at-most-once invariant |
| Scheduler.LineupAtMostOnce | scheduler.py:341-402 | Across any number of cycles, each chat receives at most one lineup message per match id |
| Scheduler.JobIdInjective | scheduler.py:192 | The job id "reminder_{chat}_{match}" names exactly one (chat, match) pair |
| Scheduler.LastSeparatorSplits | scheduler.py:192 | Splitting at the last separator recovers both parts |
| Scheduler.JobFor | scheduler.py:198-216 | A reminder job runs `lead` minutes before kickoff for that user and match, and carries the lead |
| Scheduler.PlanMatch | scheduler.py:188-216 | A job is planned iff the key is new and now < kickoff − lead < now + 120. The job is the user's reminder for that match |
| Scheduler.FreshJobsCons | scheduler.py:195-216 | A fresh job followed by jobs fresh after it makes a fresh list |
| Scheduler.FreshJobsAppend | scheduler.py:195-216 | Fresh lists compose, and their key sets add up |
| Scheduler.PlanMatches | scheduler.py:183-216 | Only the planned jobs' keys are recorded. Every planned key is new and distinct |
| Scheduler.PlanUser | scheduler.py:175-216 | A user with lead ≤ 0 gets nothing. Otherwise keys are recorded exactly for the jobs planned |
| Scheduler.ReminderCycle | scheduler.py:163-216 | Over all users, the recorded keys grow exactly by the keys of the planned jobs, and no key is planned twice |
| Scheduler.FireReminder | scheduler.py:222-248 | The reminder goes to the job's chat with its lead and the match's teams ("Unknown" when missing). Its Korea time is the formatted Korea stamp of the kickoff, or empty when the date did not parse |
| Scheduler.PlanMatchesSound | scheduler.py:183-216 | Every job planned for a user belongs to a match in the window |
| Scheduler.PlanMatchesComplete | scheduler.py:183-216 | Every match in the user's window ends up keyed |
| Scheduler.ReminderCycleSound | scheduler.py:163-216 | Every job of a cycle belongs to a listed user and a match that qualifies |
| Scheduler.ReminderJobQualifies | scheduler.py:175-216 | Each planned job is the reminder of some user and match that qualifies |
| Scheduler.ReminderCycleComplete | scheduler.py:163-216 | Every qualifying (user, match) pair ends up keyed |
| Scheduler.FreshAndKeyedIsEmpty | scheduler.py:195-196 | Jobs that are fresh but already keyed cannot exist |
| Scheduler.ReminderRerunIsQuiet | scheduler.py:195-196 | Running the reminder cycle again with the same inputs plans nothing |
| Scheduler.ReminderAtMostOnce | scheduler.py:192-216 | Across cycles, no (chat, match) key is ever scheduled twice |
| Scheduler.ReminderScenario | scheduler.py:198-216 | A 30-minute lead for a kickoff 90 minutes ahead plans one job at now + 60. A kickoff 240 minutes ahead plans none |
| Scheduler.DigestSelectsAsWritten | scheduler.py:123-133 | The literal selector picks only a time string at least five characters long whose third character is "/", that is one starting "MM/DD" |
| Scheduler.DigestSelects | scheduler.py:123-133 | The corrected selector picks only a time whose "YYYY-MM-DD" date part is today's or tomorrow's date, and always picks one dated today |
| Scheduler.DigestAsWritten | scheduler.py:115-133 | The literal digest has at most one entry per snapshot match |
| Scheduler.MorningCycleAsWritten | scheduler.py:110-142 | The literal morning cycle sends nothing or one message per listed user |
| Scheduler.AsWrittenNeverSelects | scheduler.py:123-133 | The literal selector never picks a match whose Korea time was formatted as "YYYY-MM-DD HH:MM" |
| Scheduler.DigestAsWrittenIsEmpty | scheduler.py:115-135 | As written, the digest is always empty |
| Scheduler.MorningAsWrittenSendsNothing | scheduler.py:96-142 | As written, the morning cycle sends nothing |
| Scheduler.DigestSelectsIff | scheduler.py:123-133 | The corrected selector picks a match iff its Korea date is today, or tomorrow before 09:00 |
| Scheduler.Digest | scheduler.py:117-133 | With the corrected selector, the digest has at most one entry per snapshot match |
| Scheduler.DigestMembership | scheduler.py:115-133 | With the corrected selector, every match in the window appears in the digest |
| Scheduler.DigestEntriesQualify | scheduler.py:115-133 | With the corrected selector, every digest entry comes from a match in the window |
| Scheduler.MorningCycle | scheduler.py:110-142 | With the corrected selector: no message for an empty digest, otherwise one digest message per listed user |
| Scheduler.MorningRecipients | scheduler.py:96-142 | With the corrected selector, a chat gets exactly one digest iff it is stored with morning on and this hour, and the digest is non-empty. Otherwise none |
| Scheduler.DigestScenario | scheduler.py:123-133 | With the corrected selector, today 20:00 and tomorrow 03:00 (Korea) are in the digest, and tomorrow 14:00 is not |
| Settings.LoadSettings | settings.py:27-43 | A missing file, or one that is not valid JSON, gives the defaults. Otherwise every stored key keeps its value and every missing default key is added |
| Settings.LoadSettingsIdempotent | settings.py:35-39 | Loading an already merged file changes nothing |
| Settings.GetSetting | settings.py:58-61 | The stored value if present, else the default, else None |
| Settings.SaveSettings | settings.py:46-55 | The file holds the new settings iff the write succeeded, and the result reports it |
| Settings.UpdateSetting | settings.py:64-68 | Reports whether the save succeeded. A failed save leaves the file as it was. A successful one stores the loaded settings with the key set to the value: the key reads back as the value, and every other key reads as before |
| Settings.UpdateChangesOnlyKey | settings.py:64-68 | After a successful update, the key holds the new value and every other loaded key keeps its value |
| Settings.ToggleSetting | settings.py:71-78 | Returns the negation of the current value (default, else False) and stores it as a boolean |
| Settings.ToggleTwice | settings.py:71-78 | Two successful toggles of a boolean restore it, give opposite results, and leave other keys alone |
| Bot.Decode | birmingham_bot.py:260-286 | The hour prefix is checked before the reminder prefix, and any other callback is not a setting |
| Bot.HourCallbackRoundTrip | birmingham_bot.py:97-104 | "set_morning_hour_N" parses via field 3 back to N |
| Bot.ReminderCallbackRoundTrip | birmingham_bot.py:114-121 | "set_reminder_N" parses via field 2 back to N |
| Bot.KeyboardsRoundTrip | birmingham_bot.py:93-125 | Every offered hour (7-11) and lead (5, 10, 15, 30, 60, 0) parses back to itself |
| Bot.ReminderLabel | birmingham_bot.py:85 | The label starts with the reminder prefix. It reads "off" for a lead of 0 or less. For a positive lead, the number between the prefix and "분 전" parses back to the lead |
| Bot.ReminderConfirmation | birmingham_bot.py:286-290 | The confirmation is the "off" sentence iff the lead is 0. Otherwise it starts with "경기 시작 " and the number before the suffix parses back to the lead |
| Bot.ReminderLabelShowsLead | birmingham_bot.py:85 | A positive lead is shown as its number (distinct leads, distinct labels), never as "off" |
| Bot.ReminderOffIffZero | birmingham_bot.py:85 | For every offered lead, the label and the confirmation say "off" iff the lead is 0 |
| Bot.PressSetting | birmingham_bot.py:176-187 | A press creates the user if needed, and touches no other row |
| Bot.HourButtonStoresHour | birmingham_bot.py:260-271 | The hour button for N stores N as the morning hour and confirms N |
| Bot.ReminderButtonStoresLead | birmingham_bot.py:284-298 | The reminder button for N stores N and confirms it. The settings keyboard then reads "off" iff N = 0 |
| Bot.Restart | birmingham_bot.py:389-397 | Any chat other than the admin is refused and nothing else happens. The admin gets the announce, flag and restart effects |
| Bot.OnlyAdminRestarts | birmingham_bot.py:394-397 | A restart happens only for the chat id string of the admin id, and no other admin id would allow it |
| Text.IntToString | scheduler.py:192 | `str()` of an integer parses back to it and contains no "_" |
| Stamps.FormatDateInjective | football_api.py:231 | Distinct dates format to distinct "%Y-%m-%d" strings |
| Stamps.FormatStampLayout | football_api.py:231 | "%Y-%m-%d %H:%M" holds the date in characters 0-9 and the clock in 11-15 |
| Stamps.ClockBeforeNine | scheduler.py:126-128 | An "HH:MM" clock is less than "09:00" as a string iff the hour is before 9 |

## Left out

- **I/O.** SQLite connections, HTTP requests, Telegram sends, APScheduler triggers and the `asyncio` wrappers are I/O. They become map state, input sequences and an output log.
- **Timezone conversion.** Parsing the ISO kickoff and converting it to UK and Korea time (football_api.py:214-233) uses a foreign library. A raw match carries the parse's outcome as input.
- **Message text.** The exact message text, HTML markup and header dates are left out. Only the facts that go into each message are modelled.
- **Unseen gateway methods.** The gateway calls whose bodies are not part of this model (live matches, today's matches, match details, league tables and the formatting helpers) are inputs. Each cycle takes one snapshot, whereas the source re-fetches per user.
- **Restart plumbing.** The flag file, `git pull` and process restart (birmingham_bot.py:398-441) are OS I/O.
- **Entry points.** main.py, bot_server.py and the config file hold no logic.
- **Other callbacks.** Button callbacks other than the hour and reminder settings are left out, as are the menu and notification keyboards apart from the reminder label.
- **Concurrency and eviction.** Concurrency between cron cycles is left out. State is never pruned, as in the source.
- Scheduler.AboutToStart: the minutes until kickoff are whole minutes, while the source compares fractional minutes with 0 and 60.
- **JSON nulls.** Optional JSON fields are `Option` values, so a field that is present but null reads like a missing one and takes the `.get` default. The source would carry `None` in that case.
- Gateway.FormatMatchInfo: a JSON null score of a finished match reads as 0, while the source keeps `None`. Its later comparison in `format_match_notification` would then raise.
- Scheduler.JobFor: the job carries the raw match and formats it when it fires, while the source stores the formatted match. Formatting is pure, so the message facts are the same.
- Scheduler.Digest: its own contract only bounds its length. What it contains is stated by Scheduler.DigestMembership and Scheduler.DigestEntriesQualify.
- Gateway.Sort: the order among matches with equal utcDate strings is left open, while Python's sort is stable.
- Settings.LoadSettings: a file whose top level is valid JSON but not an object, and floating-point values, are not modelled. Neither is a file that is not valid UTF-8: `load_settings` catches only `json.JSONDecodeError` and `IOError` (settings.py:33-41), so such a file raises UnicodeDecodeError instead of giving the defaults. The model has no such file: its `None` file gives the defaults.
- Settings.SaveSettings: whether the write succeeds is an input. On failure the file is assumed unchanged.
- Bot.Restart: the model assumes the configured admin id (`TELEGRAM_CHAT_ID`, birmingham_bot.py:394) is the decimal text of an integer, and takes that integer. A configured value that is not, such as `" 123"`, matches no chat in the source, whereas `Restart(_, 123)` admits chat "123". The configuration source of the id is not modelled.
- Bot.Decode: its `int()` is Text.ParseInt, which accepts only an optional sign followed by ASCII digits. Python's `int()` also strips surrounding whitespace, accepts `_` between digits and accepts non-ASCII decimal digits. So callback data such as `"set_reminder_ 5"` decodes as Malformed here, where the source stores 5 (birmingham_bot.py:285-286). The bot's own keyboards never produce such data: every button's data decodes to its own action (Bot.HourCallbackRoundTrip, Bot.ReminderCallbackRoundTrip, Bot.KeyboardsRoundTrip).
- Scheduler.MorningCycle: `today` and `tomorrow` are parameters. The source takes them from the server's local clock, `datetime.now()` and the day after, formatted "%m/%d" (scheduler.py:114-116). The clock is foreign. The corrected selector compares them with the Korea date of each match, as the source compares them with the start of `korea_time`. On a server not running on Korea time, the local date can differ from the Korea date.
- Scheduler.DigestAsWritten: its own contract only bounds its size. That it is empty is stated by Scheduler.DigestAsWrittenIsEmpty.
- Scheduler.MorningCycleAsWritten: its own contract only bounds its size. That it sends nothing is stated by Scheduler.MorningAsWrittenSendsNothing.
- Notifier.Shorten: its own contract states the length. Which characters remain is stated by Notifier.ShortenKeepsRest.
- Notifier.FutureBlocks: its own contract states the length. The lines of each block, including the shortened times, are stated by Notifier.FutureBlockParts.
- Notifier.RecentBlocks: its own contract states the length. The lines of each block, including the shortened times, are stated by Notifier.RecentBlockParts.
- Notifier.UpcomingBlocks: its own contract states the length and the first line. Its venue lines are stated by Notifier.UpcomingVenues, its line kinds by Notifier.UpcomingKinds, and its per-match layout by Notifier.UpcomingBlocksPerMatch.

## Findings

| source | as written | input that shows it | evidently intended | confidence | as-written member | corrected member |
|---|---|---|---|---|---|---|
| scheduler.py:123-133 with football_api.py:231 | The digest compares `korea_time[:5]` with `"%m/%d"` and `korea_time[6:11]` with "09:00". But `korea_time` is "YYYY-MM-DD HH:MM", so the first slice is "YYYY-" and never a "MM/DD" date | A match at Korea time "2024-03-09 20:00" with today 03/09: the slice is "2024-", not "03/09", so it is not selected and no digest is sent | Select a match whose Korea date is today, or tomorrow before 09:00, comparing the date part and the "HH:MM" part of the formatted time | not executed | Scheduler.AsWrittenNeverSelects, Scheduler.MorningAsWrittenSendsNothing | Scheduler.DigestSelectsIff, Scheduler.MorningRecipients |
