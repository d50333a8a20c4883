/**
 * The participant side of the bot: whether an event is full, which controls an event card
 * offers, signing up (check, then insert) and cancelling (unconditional delete), the log rows
 * both write, and the per-user reminder setting.
 *
 * Each handler that changes the database is a method on `Db` whose new tables are given by a
 * function of the old ones (`SignUp`, `Withdraw`, `SetNotification`); the lemmas about those
 * functions state what the handlers guarantee.
 */
module ParticipantEvents {
  import opened Wrappers
  import opened Calendar
  import opened Store
  import opened Callbacks

  /** The Telegram user behind a callback: id, full name and optional `@username`. */
  datatype Caller = Caller(id: int, fullName: string, username: Option<string>)

  /** `call.from_user.username or ""`. */
  function Nickname(c: Caller): (nick: string)
    ensures c.username.Some? ==> nick == c.username.value
    ensures c.username.None? ==> nick == ""
  {
    c.username.GetOr("")
  }

  /** An event is full when it has a capacity and its registrations have reached it. */
  predicate IsFull(regs: seq<Registration>, e: EventRow) {
    e.maxParticipants.Some? && CountRegistrations(regs, e.id) >= e.maxParticipants.value
  }

  /**
   * `build_event_keyboard`: cancel for a registered user, nothing for a full event, sign-up
   * otherwise; the calendar button always comes last.
   */
  function EventKeyboard(regs: seq<Registration>, eventId: int, userId: int, full: bool): (kb: seq<Button>)
    ensures 1 <= |kb| <= 2 && kb[|kb| - 1] == WithId(UserIcs, eventId)
    ensures WithId(UserCancel, eventId) in kb <==> IsRegistered(regs, eventId, userId)
    ensures WithId(UserRegister, eventId) in kb <==> !IsRegistered(regs, eventId, userId) && !full
    ensures |kb| == 1 <==> !IsRegistered(regs, eventId, userId) && full
  {
    var calendar := WithId(UserIcs, eventId);
    if IsRegistered(regs, eventId, userId) then [WithId(UserCancel, eventId), calendar]
    else if full then [calendar]
    else [WithId(UserRegister, eventId), calendar]
  }

  /** The keyboard of `build_event_card`: fullness recomputed from the current registrations. */
  function CardKeyboard(regs: seq<Registration>, e: EventRow, userId: int): seq<Button> {
    EventKeyboard(regs, e.id, userId, IsFull(regs, e))
  }

  // ---------------------------------------------------------------- notification setting

  /** `get_user_notification_setting`: the stored flag, or on when the user has no row. */
  function NotificationSetting(users: map<int, UserRow>, userId: int): (on: bool)
    ensures userId !in users ==> on
  {
    if userId in users then users[userId].notificationOn else true
  }

  /** `set_user_notification_setting`: an UPDATE, so a user without a row is left without one. */
  function SetNotification(users: map<int, UserRow>, userId: int, enabled: bool): (r: map<int, UserRow>)
    ensures r.Keys == users.Keys
  {
    if userId in users then users[userId := users[userId].(notificationOn := enabled)] else users
  }

  /** Reading the setting back after writing it; nobody else's setting moves. */
  lemma SetThenGetNotification(users: map<int, UserRow>, userId: int, enabled: bool, other: int)
    ensures NotificationSetting(SetNotification(users, userId, enabled), userId) == (enabled || userId !in users)
    ensures other != userId ==>
      NotificationSetting(SetNotification(users, userId, enabled), other) == NotificationSetting(users, other)
  {
  }

  method SetUserNotificationSetting(db: Db, userId: int, enabled: bool)
    modifies db
    ensures db.users == SetNotification(old(db.users), userId, enabled)
    ensures db.events == old(db.events) && db.registrations == old(db.registrations) && db.logs == old(db.logs)
  {
    if userId in db.users {
      db.users := db.users[userId := db.users[userId].(notificationOn := enabled)];
    }
  }

  /** `reminder_disable_notifications`: turns the caller's reminders off. */
  method HandleDisableNotifications(db: Db, caller: Caller)
    modifies db
    ensures db.users == SetNotification(old(db.users), caller.id, false)
    ensures db.events == old(db.events) && db.registrations == old(db.registrations) && db.logs == old(db.logs)
  {
    SetUserNotificationSetting(db, caller.id, false);
  }

  // ---------------------------------------------------------------- registrations

  /** The row `register_user_for_event` inserts; the name is read without the deleted filter. */
  function RegistrationRow(events: seq<EventRow>, eventId: int, caller: Caller): (r: Registration)
    ensures r.eventId == eventId && r.userId == caller.id
  {
    var name := match FindEvent(events, eventId)
      case None => Some("")
      case Some(e) => e.name;
    Registration(eventId, caller.id, name, caller.fullName, Nickname(caller))
  }

  /** `DELETE FROM registrations WHERE event_id = ? AND user_id = ?`. */
  function WithoutPair(regs: seq<Registration>, eventId: int, userId: int): (r: seq<Registration>)
    ensures !IsRegistered(r, eventId, userId)
    ensures forall x: Registration :: x.eventId != eventId || x.userId != userId ==> multiset(r)[x] == multiset(regs)[x]
    ensures !IsRegistered(regs, eventId, userId) ==> r == regs
  {
    if regs == [] then []
    else
      var rest := WithoutPair(regs[1..], eventId, userId);
      assert regs == [regs[0]] + regs[1..];
      if regs[0].eventId == eventId && regs[0].userId == userId then rest
      else
        assert !IsRegistered(regs, eventId, userId) ==> !IsRegistered(regs[1..], eventId, userId);
        [regs[0]] + rest
  }

  /** What a handler answers. */
  datatype Reply =
    | NotFound
    | NoSeats(keyboard: seq<Button>)
    | SignedUp(keyboard: seq<Button>)
    | Withdrawn(keyboard: seq<Button>)

  datatype Outcome = Outcome(tables: Tables, reply: Reply)

  function LogFor(caller: Caller, action: LogAction, now: DateTime): LogEntry {
    LogEntry(caller.id, caller.fullName, Nickname(caller), action, now)
  }

  /**
   * `user_register`: a missing or deleted event changes nothing; a full event changes nothing;
   * an already registered user changes nothing; otherwise one registration and one log row
   * are appended.
   */
  function SignUp(t: Tables, eventId: int, caller: Caller, now: DateTime): (o: Outcome)
    ensures o.tables.events == t.events && o.tables.users == t.users
    ensures GetEvent(t.events, eventId).None? ==> o == Outcome(t, NotFound)
    ensures GetEvent(t.events, eventId).Some? && IsFull(t.registrations, GetEvent(t.events, eventId).value)
      ==> o.tables == t && o.reply.NoSeats?
    ensures IsRegistered(t.registrations, eventId, caller.id) ==> o.tables == t
    ensures o.tables.registrations == t.registrations
      || o.tables.registrations == t.registrations + [RegistrationRow(t.events, eventId, caller)]
    ensures o.tables.registrations != t.registrations <==>
      GetEvent(t.events, eventId).Some? && !IsFull(t.registrations, GetEvent(t.events, eventId).value)
      && !IsRegistered(t.registrations, eventId, caller.id)
    ensures o.tables.registrations == t.registrations ==> o.tables.logs == t.logs
    ensures o.tables.registrations != t.registrations ==>
      o.tables.logs == t.logs + [LogFor(caller, SignedUpFor(GetEvent(t.events, eventId).value.name), now)]
    ensures o.reply.SignedUp? ==> IsRegistered(o.tables.registrations, eventId, caller.id)
    ensures GetEvent(t.events, eventId).Some? && IsFull(t.registrations, GetEvent(t.events, eventId).value)
      ==> o.reply == NoSeats(EventKeyboard(t.registrations, eventId, caller.id, true))
    ensures GetEvent(t.events, eventId).Some? && !IsFull(t.registrations, GetEvent(t.events, eventId).value)
      ==> o.reply == SignedUp(CardKeyboard(o.tables.registrations, GetEvent(t.events, eventId).value, caller.id))
  {
    match GetEvent(t.events, eventId)
    case None => Outcome(t, NotFound)
    case Some(e) =>
      if IsFull(t.registrations, e) then
        Outcome(t, NoSeats(EventKeyboard(t.registrations, eventId, caller.id, true)))
      else if IsRegistered(t.registrations, eventId, caller.id) then
        Outcome(t, SignedUp(CardKeyboard(t.registrations, e, caller.id)))
      else
        var row := RegistrationRow(t.events, eventId, caller);
        var regs := t.registrations + [row];
        assert row in regs;
        var t' := t.(registrations := regs, logs := t.logs + [LogFor(caller, SignedUpFor(e.name), now)]);
        Outcome(t', SignedUp(CardKeyboard(regs, e, caller.id)))
  }

  /**
   * The card re-rendered after a sign-up: a live event with seats left now offers the caller the
   * cancel button; a full one offers the caller no sign-up button.
   */
  lemma SignUpReplyButtons(t: Tables, eventId: int, caller: Caller, now: DateTime)
    requires GetEvent(t.events, eventId).Some?
    ensures var o := SignUp(t, eventId, caller, now);
      && (!IsFull(t.registrations, GetEvent(t.events, eventId).value) ==>
            o.reply.SignedUp? && WithId(UserCancel, eventId) in o.reply.keyboard)
      && (IsFull(t.registrations, GetEvent(t.events, eventId).value) ==>
            o.reply.NoSeats? && WithId(UserRegister, eventId) !in o.reply.keyboard)
  {
  }

  method HandleUserRegister(db: Db, eventId: int, caller: Caller, now: DateTime) returns (reply: Reply)
    modifies db
    ensures db.Snapshot() == SignUp(old(db.Snapshot()), eventId, caller, now).tables
    ensures reply == SignUp(old(db.Snapshot()), eventId, caller, now).reply
  {
    var found := GetEvent(db.events, eventId);
    if found.None? {
      return NotFound;
    }
    var e := found.value;
    if IsFull(db.registrations, e) {
      return NoSeats(EventKeyboard(db.registrations, eventId, caller.id, true));
    }
    if !IsRegistered(db.registrations, eventId, caller.id) {
      db.registrations := db.registrations + [RegistrationRow(db.events, eventId, caller)];
      db.logs := db.logs + [LogFor(caller, SignedUpFor(e.name), now)];
    }
    reply := SignedUp(CardKeyboard(db.registrations, e, caller.id));
  }

  /** Which handler withdraws: the card's cancel button or the reminder's unsubscribe button. */
  datatype Withdrawal = CancelButton | UnsubscribeButton

  /**
   * `user_cancel` / `reminder_unsubscribe`: the caller's rows for the event are deleted first,
   * whatever happens next; a log row is written only if the event is still live.
   */
  function Withdraw(t: Tables, eventId: int, caller: Caller, now: DateTime, via: Withdrawal): (o: Outcome)
    ensures o.tables.events == t.events && o.tables.users == t.users
    ensures o.tables.registrations == WithoutPair(t.registrations, eventId, caller.id)
    ensures GetEvent(t.events, eventId).None? <==> o.reply == NotFound
    ensures o.reply == NotFound ==> o.tables.logs == t.logs
    ensures o.reply != NotFound ==> |o.tables.logs| == |t.logs| + 1 && o.tables.logs[..|t.logs|] == t.logs
    ensures o.reply.Withdrawn? ==> WithId(UserCancel, eventId) !in o.reply.keyboard
    ensures o.reply != NotFound ==> var e := GetEvent(t.events, eventId).value;
      && o.tables.logs == t.logs + [LogFor(caller, if via == CancelButton then CancelledFor(e.name) else UnsubscribedFrom(e.name), now)]
      && o.reply == Withdrawn(CardKeyboard(o.tables.registrations, e, caller.id))
  {
    var regs := WithoutPair(t.registrations, eventId, caller.id);
    match GetEvent(t.events, eventId)
    case None => Outcome(t.(registrations := regs), NotFound)
    case Some(e) =>
      var action := if via == CancelButton then CancelledFor(e.name) else UnsubscribedFrom(e.name);
      var logs := t.logs + [LogFor(caller, action, now)];
      assert logs[..|t.logs|] == t.logs;
      Outcome(t.(registrations := regs, logs := logs), Withdrawn(CardKeyboard(regs, e, caller.id)))
  }

  method HandleUserCancel(db: Db, eventId: int, caller: Caller, now: DateTime) returns (reply: Reply)
    modifies db
    ensures db.Snapshot() == Withdraw(old(db.Snapshot()), eventId, caller, now, CancelButton).tables
    ensures reply == Withdraw(old(db.Snapshot()), eventId, caller, now, CancelButton).reply
  {
    reply := WithdrawRegistration(db, eventId, caller, now, CancelButton);
  }

  method HandleReminderUnsubscribe(db: Db, eventId: int, caller: Caller, now: DateTime) returns (reply: Reply)
    modifies db
    ensures db.Snapshot() == Withdraw(old(db.Snapshot()), eventId, caller, now, UnsubscribeButton).tables
    ensures reply == Withdraw(old(db.Snapshot()), eventId, caller, now, UnsubscribeButton).reply
  {
    reply := WithdrawRegistration(db, eventId, caller, now, UnsubscribeButton);
  }

  method WithdrawRegistration(db: Db, eventId: int, caller: Caller, now: DateTime, via: Withdrawal)
    returns (reply: Reply)
    modifies db
    ensures db.Snapshot() == Withdraw(old(db.Snapshot()), eventId, caller, now, via).tables
    ensures reply == Withdraw(old(db.Snapshot()), eventId, caller, now, via).reply
  {
    db.registrations := WithoutPair(db.registrations, eventId, caller.id);
    var found := GetEvent(db.events, eventId);
    if found.None? {
      return NotFound;
    }
    var e := found.value;
    var action := if via == CancelButton then CancelledFor(e.name) else UnsubscribedFrom(e.name);
    db.logs := db.logs + [LogFor(caller, action, now)];
    reply := Withdrawn(CardKeyboard(db.registrations, e, caller.id));
  }

  // ---------------------------------------------------------------- properties

  /** Signing up twice leaves the tables as the first sign-up left them. */
  lemma SignUpIdempotent(t: Tables, eventId: int, caller: Caller, now: DateTime, later: DateTime)
    ensures var once := SignUp(t, eventId, caller, now).tables;
      SignUp(once, eventId, caller, later).tables == once
  {
    var once := SignUp(t, eventId, caller, now).tables;
    if once.registrations != t.registrations {
      assert RegistrationRow(t.events, eventId, caller) in once.registrations;
    }
  }

  /** A sign-up that inserts found the event below its capacity, so it never overfills it. */
  lemma SignUpRespectsCapacity(t: Tables, eventId: int, caller: Caller, now: DateTime)
    requires var o := SignUp(t, eventId, caller, now); o.tables.registrations != t.registrations
    ensures GetEvent(t.events, eventId).Some?
    ensures var e := GetEvent(t.events, eventId).value;
      e.maxParticipants.Some? ==>
        CountRegistrations(SignUp(t, eventId, caller, now).tables.registrations, eventId) <= e.maxParticipants.value
  {
    var regs := t.registrations + [RegistrationRow(t.events, eventId, caller)];
    CountAppend(t.registrations, RegistrationRow(t.events, eventId, caller), eventId);
  }

  lemma {:induction false} CountAppend(regs: seq<Registration>, x: Registration, eventId: int)
    ensures CountRegistrations(regs + [x], eventId)
      == CountRegistrations(regs, eventId) + (if x.eventId == eventId then 1 else 0)
    decreases |regs|
  {
    if regs == [] {
      assert [x][1..] == [];
    } else {
      assert (regs + [x])[1..] == regs[1..] + [x];
      CountAppend(regs[1..], x, eventId);
    }
  }

  /** No (event, user) pair appears twice in `registrations`. */
  predicate PairsUnique(regs: seq<Registration>) {
    forall i, j :: 0 <= i < j < |regs| ==>
      regs[i].eventId != regs[j].eventId || regs[i].userId != regs[j].userId
  }

  /** Check-then-insert keeps the pairs unique. */
  lemma SignUpKeepsPairsUnique(t: Tables, eventId: int, caller: Caller, now: DateTime)
    requires PairsUnique(t.registrations)
    ensures PairsUnique(SignUp(t, eventId, caller, now).tables.registrations)
  {
    var regs := SignUp(t, eventId, caller, now).tables.registrations;
    if regs != t.registrations {
      forall i, j | 0 <= i < j < |regs|
        ensures regs[i].eventId != regs[j].eventId || regs[i].userId != regs[j].userId
      {
        if j == |t.registrations| {
          assert regs[i] in t.registrations;
        }
      }
    }
  }

  /** Cancelling twice is cancelling once. */
  lemma WithoutPairIdempotent(regs: seq<Registration>, eventId: int, userId: int)
    ensures WithoutPair(WithoutPair(regs, eventId, userId), eventId, userId) == WithoutPair(regs, eventId, userId)
  {
  }

  /** Cancelling after a sign-up gives back the registrations a cancel alone would leave. */
  lemma {:induction false} WithoutPairAfterAppend(regs: seq<Registration>, x: Registration)
    ensures WithoutPair(regs + [x], x.eventId, x.userId) == WithoutPair(regs, x.eventId, x.userId)
    decreases |regs|
  {
    if regs == [] {
      assert [x][1..] == [];
    } else {
      assert (regs + [x])[1..] == regs[1..] + [x];
      WithoutPairAfterAppend(regs[1..], x);
    }
  }

  lemma CancelUndoesSignUp(t: Tables, eventId: int, caller: Caller, now: DateTime)
    ensures WithoutPair(SignUp(t, eventId, caller, now).tables.registrations, eventId, caller.id)
      == WithoutPair(t.registrations, eventId, caller.id)
  {
    var row := RegistrationRow(t.events, eventId, caller);
    if SignUp(t, eventId, caller, now).tables.registrations != t.registrations {
      WithoutPairAfterAppend(t.registrations, row);
    }
  }
}
