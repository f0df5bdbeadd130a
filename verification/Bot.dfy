/** The command layer of birmingham_bot.py that decides something without
    I/O: the callback data of the hour and reminder buttons and how it is
    parsed back, what the settings keyboard and the confirmation say about
    the reminder lead time, how a settings button press changes the store,
    and the admin check of /restart. */
module Bot {
  import opened Wrappers
  import opened Text
  import opened Store

  /** The hours offered by get_morning_hour_keyboard, in button order. */
  const HourButtons: seq<nat> := [7, 8, 9, 10, 11]

  /** The lead times offered by get_reminder_keyboard; 0 is "off". */
  const ReminderButtons: seq<nat> := [5, 10, 15, 30, 60, 0]

  const HourPrefix: string := "set_morning_hour_"
  const ReminderPrefix: string := "set_reminder_"

  /** The callback data of the hour button for `n`. */
  function HourCallback(n: nat): (r: string)
    ensures StartsWith(r, HourPrefix)
  {
    HourPrefix + NatToString(n)
  }

  /** The callback data of the reminder button for `n`. */
  function ReminderCallback(n: nat): (r: string)
    ensures StartsWith(r, ReminderPrefix)
  {
    ReminderPrefix + NatToString(n)
  }

  /** What button_callback makes of a callback string, as far as the two
      numeric settings go. `Malformed` is the exception the source catches
      and reports; `Other` is any other callback. */
  datatype Action = SetHour(hour: int) | SetReminder(minutes: int) | Malformed | Other

  /** The `set_morning_hour_` branch takes `int(data.split("_")[3])`; the
      `set_reminder_` branch, checked after it, takes `int(data.split("_")[2])`. */
  function Decode(data: string): (r: Action)
    ensures r.SetHour? ==> StartsWith(data, HourPrefix)
    ensures r.SetReminder? ==> StartsWith(data, ReminderPrefix) && !StartsWith(data, HourPrefix)
    ensures r.Other? <==> !StartsWith(data, HourPrefix) && !StartsWith(data, ReminderPrefix)
  {
    if StartsWith(data, HourPrefix) then
      var fields := Split(data, '_');
      if |fields| <= 3 then Malformed
      else
        match ParseInt(fields[3])
        case Some(h) => SetHour(h)
        case None => Malformed
    else if StartsWith(data, ReminderPrefix) then
      var fields := Split(data, '_');
      if |fields| <= 2 then Malformed
      else
        match ParseInt(fields[2])
        case Some(m) => SetReminder(m)
        case None => Malformed
    else Other
  }

  /** The hour button's data parses back to its hour, for every hour. */
  lemma HourCallbackRoundTrip(n: nat)
    ensures Decode(HourCallback(n)) == SetHour(n)
  {
    var digits := NatToString(n);
    assert '_' !in digits;
    assert HourCallback(n) == "set" + ['_'] + ("morning" + ['_'] + ("hour" + ['_'] + digits));
    SplitAfterField("set", '_', "morning" + ['_'] + ("hour" + ['_'] + digits));
    SplitAfterField("morning", '_', "hour" + ['_'] + digits);
    SplitAfterField("hour", '_', digits);
    SplitNoSeparator(digits, '_');
    assert Split(HourCallback(n), '_') == ["set", "morning", "hour", digits];
    ParseIntOfNatToString(n);
  }

  /** The reminder button's data parses back to its lead time, for every
      lead time, and is not mistaken for an hour button. */
  lemma ReminderCallbackRoundTrip(n: nat)
    ensures Decode(ReminderCallback(n)) == SetReminder(n)
  {
    var digits := NatToString(n);
    assert '_' !in digits;
    var data := ReminderCallback(n);
    assert data[4] == 'r' && HourPrefix[4] == 'm';
    assert !StartsWith(data, HourPrefix);
    assert data == "set" + ['_'] + ("reminder" + ['_'] + digits);
    SplitAfterField("set", '_', "reminder" + ['_'] + digits);
    SplitAfterField("reminder", '_', digits);
    SplitNoSeparator(digits, '_');
    assert Split(data, '_') == ["set", "reminder", digits];
    ParseIntOfNatToString(n);
  }

  /** Every button of both keyboards parses back to the value it shows. */
  lemma KeyboardsRoundTrip()
    ensures forall i :: 0 <= i < |HourButtons| ==>
              Decode(HourCallback(HourButtons[i])) == SetHour(HourButtons[i]) && 7 <= HourButtons[i] <= 11
    ensures forall i :: 0 <= i < |ReminderButtons| ==>
              Decode(ReminderCallback(ReminderButtons[i])) == SetReminder(ReminderButtons[i])
  {
    forall i | 0 <= i < |HourButtons|
      ensures Decode(HourCallback(HourButtons[i])) == SetHour(HourButtons[i])
    {
      HourCallbackRoundTrip(HourButtons[i]);
    }
    forall i | 0 <= i < |ReminderButtons|
      ensures Decode(ReminderCallback(ReminderButtons[i])) == SetReminder(ReminderButtons[i])
    {
      ReminderCallbackRoundTrip(ReminderButtons[i]);
    }
  }

  const ReminderLabelPrefix: string := "⏰ 경기 알림: "
  const ReminderLabelSuffix: string := "분 전"
  const ReminderOffLabel: string := "⏰ 경기 알림: 꺼짐"
  const ReminderOffConfirmation: string := "경기 알림이 꺼졌습니다."

  /** The reminder button of get_notification_keyboard: "N분 전" for a
      positive lead, "off" otherwise. */
  function ReminderLabel(minutes: int): (r: string)
    ensures StartsWith(r, ReminderLabelPrefix)
    ensures minutes <= 0 ==> r == ReminderOffLabel
    ensures minutes > 0 ==>
              |r| > |ReminderLabelPrefix| + |ReminderLabelSuffix| &&
              ParseInt(r[|ReminderLabelPrefix|..|r| - |ReminderLabelSuffix|]) == Some(minutes)
  {
    if minutes > 0 then
      var r := ReminderLabelPrefix + IntToString(minutes) + ReminderLabelSuffix;
      assert r[|ReminderLabelPrefix|..|r| - |ReminderLabelSuffix|] == IntToString(minutes);
      r
    else ReminderOffLabel
  }

  const ConfirmationPrefix: string := "경기 시작 "
  const ConfirmationSuffix: string := "분 전에 알림을 보내드립니다."

  /** The confirmation after a reminder button: "off" for 0, otherwise a
      sentence whose number reads back as the lead time. */
  function ReminderConfirmation(minutes: int): (r: string)
    ensures r == ReminderOffConfirmation <==> minutes == 0
    ensures minutes != 0 ==>
              |r| > |ConfirmationPrefix| + |ConfirmationSuffix| && StartsWith(r, ConfirmationPrefix) &&
              ParseInt(r[|ConfirmationPrefix|..|r| - |ConfirmationSuffix|]) == Some(minutes)
  {
    if minutes == 0 then ReminderOffConfirmation
    else
      var r := ConfirmationPrefix + IntToString(minutes) + ConfirmationSuffix;
      assert r[|ConfirmationPrefix|..|r| - |ConfirmationSuffix|] == IntToString(minutes);
      r
  }

  /** A positive lead is shown as its number of minutes: different leads
      give different labels, and none reads as "off". */
  lemma ReminderLabelShowsLead(a: int, b: int)
    requires a > 0 && b > 0
    ensures ReminderLabel(a) != ReminderOffLabel
    ensures ReminderLabel(a) == ReminderLabel(b) <==> a == b
  {
    var tail := ReminderLabelSuffix;
    assert |ReminderLabel(a)| == |ReminderLabelPrefix| + |IntToString(a)| + |tail|;
    assert |ReminderOffLabel| == |ReminderLabelPrefix| + 2;
    if ReminderLabel(a) == ReminderLabel(b) {
      AffixInjective(ReminderLabelPrefix, IntToString(a), IntToString(b), tail);
      assert ParseInt(IntToString(a)) == Some(a) && ParseInt(IntToString(b)) == Some(b);
    }
  }

  /** Two strings framed by the same prefix and suffix are equal when the
      framed strings are. */
  lemma AffixInjective(p: string, x: string, y: string, t: string)
    requires p + x + t == p + y + t
    ensures x == y
  {
    var s := p + x + t;
    assert x == s[|p|..|s| - |t|];
    assert y == (p + y + t)[|p|..|s| - |t|];
  }

  /** For every lead the keyboard offers, the label and the confirmation
      both say "off" exactly when the lead is 0. */
  lemma ReminderOffIffZero(i: int)
    requires 0 <= i < |ReminderButtons|
    ensures var n := ReminderButtons[i];
            && (ReminderLabel(n) == ReminderOffLabel <==> n == 0)
            && (ReminderConfirmation(n) == ReminderOffConfirmation <==> n == 0)
  {
    var n := ReminderButtons[i];
    if n > 0 {
      ReminderLabelShowsLead(n, n);
      assert |ReminderConfirmation(n)| > |ReminderOffConfirmation|;
    }
  }

  /** What the settings press answers with. */
  datatype Reply = HourConfirmed(hour: int) | ReminderConfirmed(text: string) | ErrorReply | NotASetting

  /** button_callback for the two numeric settings: make sure the user
      exists, then store the parsed value and confirm it. */
  function PressSetting(db: Db, chatId: string, username: Option<string>, data: string): (r: (Db, Reply))
    ensures chatId in r.0 && r.0.Keys == db.Keys + {chatId}
    ensures forall k :: k in db && k != chatId ==> r.0[k] == db[k]
    ensures Valid(db) ==> Valid(r.0)
  {
    var db1 := GetOrCreate(db, chatId, username).0;
    match Decode(data)
    case SetHour(h) => (UpdateMorningHour(db1, chatId, h).0, HourConfirmed(h))
    case SetReminder(m) => (UpdateMatchReminder(db1, chatId, m).0, ReminderConfirmed(ReminderConfirmation(m)))
    case Malformed => (db1, ErrorReply)
    case Other => (db1, NotASetting)
  }

  /** Pressing the hour button for `n` stores `n` as the user's morning hour
      and touches nothing else of the row. */
  lemma HourButtonStoresHour(db: Db, chatId: string, username: Option<string>, n: nat)
    ensures var (db2, reply) := PressSetting(db, chatId, username, HourCallback(n));
            var row := GetOrCreate(db, chatId, username).0[chatId];
            && db2[chatId] == row.(morningHour := n)
            && reply == HourConfirmed(n)
  {
    HourCallbackRoundTrip(n);
  }

  /** Pressing the reminder button for `n` stores `n`; afterwards the
      settings keyboard reads "off" exactly when `n` is 0. */
  lemma ReminderButtonStoresLead(db: Db, chatId: string, username: Option<string>, i: int)
    requires 0 <= i < |ReminderButtons|
    ensures var n := ReminderButtons[i];
            var (db2, reply) := PressSetting(db, chatId, username, ReminderCallback(n));
            var row := GetOrCreate(db, chatId, username).0[chatId];
            && db2[chatId] == row.(reminderMinutes := n)
            && reply == ReminderConfirmed(ReminderConfirmation(n))
            && (ReminderLabel(db2[chatId].reminderMinutes) == ReminderOffLabel <==> n == 0)
  {
    ReminderCallbackRoundTrip(ReminderButtons[i]);
    ReminderOffIffZero(i);
  }

  // ---------------------------------------------------------------------
  // /restart

  /** What restart_command does, in order. */
  datatype Effect = Denied | Announce | WriteFlag(chatId: string) | PullAndRestart

  /** restart_command: the chat must be the configured admin chat, compared
      as `str(TELEGRAM_CHAT_ID)`; anyone else gets a refusal and nothing
      more. */
  function Restart(chatId: string, adminId: int): (r: seq<Effect>)
    ensures chatId != IntToString(adminId) ==> r == [Denied]
    ensures chatId == IntToString(adminId) ==> Denied !in r && WriteFlag(chatId) in r && PullAndRestart in r
  {
    if chatId != IntToString(adminId) then [Denied]
    else [Announce, WriteFlag(chatId), PullAndRestart]
  }

  /** Only the admin chat can trigger a restart, and exactly one chat id
      string is the admin's. */
  lemma OnlyAdminRestarts(chatId: string, adminId: int, other: int)
    requires PullAndRestart in Restart(chatId, adminId)
    ensures chatId == IntToString(adminId) && ParseInt(chatId) == Some(adminId)
    ensures other != adminId ==> Restart(chatId, other) == [Denied]
  {
    assert ParseInt(IntToString(other)) == Some(other);
  }
}
