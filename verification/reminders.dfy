/**
 * Same-day reminders. Once a minute the reminder loop drops the remembered pairs unless they
 * belong to today, and inside the reminder window sends each (event, user) pair of today's
 * recipients one message, remembering the pair once the send has returned.
 *
 * The clocks and the sending are parameters: `now` is the local clock of one tick, `utcToday`
 * is SQLite's `date('now')`, and `failing` is the set of pairs whose send raises.
 */
module Reminders {
  import opened Wrappers
  import opened Calendar
  import opened Store
  import opened ParticipantEvents

  const ReminderHour := 10
  const ReminderMinute := 0
  const WindowMinutes := 2

  function Max(a: int, b: int): int { if a >= b then a else b }
  function Min(a: int, b: int): int { if a <= b then a else b }

  /** `time(REMINDER_TIME.hour, max(0, REMINDER_TIME.minute - REMINDER_WINDOW_MINUTES))`. */
  function WindowStart(): Time {
    Time(ReminderHour, Max(0, ReminderMinute - WindowMinutes), 0, 0)
  }

  /** `time(REMINDER_TIME.hour, min(59, REMINDER_TIME.minute + REMINDER_WINDOW_MINUTES))`. */
  function WindowEnd(): Time {
    Time(ReminderHour, Min(59, ReminderMinute + WindowMinutes), 0, 0)
  }

  /** `is_time_in_window`: `window_start <= now.time() <= window_end`. */
  predicate InWindow(t: Time) {
    TimeAtMost(WindowStart(), t) && TimeAtMost(t, WindowEnd())
  }

  /**
   * The window is 10:00:00 up to and including 10:02:00.000000: the start minute is clamped at
   * zero and the hour is never moved back, so no time before 10:00 is in it.
   */
  lemma WindowBounds(t: Time)
    requires ValidTime(t)
    ensures InWindow(t) <==>
      t.hour == 10 && (t.minute < 2 || (t.minute == 2 && t.second == 0 && t.micro == 0))
    ensures t.hour < 10 ==> !InWindow(t)
  {
  }

  // ---------------------------------------------------------------- today's recipients

  /** A row of `get_today_event_participants`: the event's columns and the user to remind. */
  datatype ReminderRow = ReminderRow(event: EventRow, userId: int)

  /** `JOIN users u ... AND u.notification_on = 1`: a user without a row is not joined. */
  predicate Subscribed(users: map<int, UserRow>, userId: int) {
    userId in users && users[userId].notificationOn
  }

  /** A row the query returns: a live event dated today, a registration, a subscribed user. */
  predicate Recipient(t: Tables, today: Date, x: ReminderRow) {
    x.event in t.events && !x.event.deleted && x.event.date == today
    && IsRegistered(t.registrations, x.event.id, x.userId) && Subscribed(t.users, x.userId)
  }

  function EventsOn(events: seq<EventRow>, today: Date): (r: seq<EventRow>)
    ensures forall e :: e in r <==> e in events && !e.deleted && e.date == today
  {
    if events == [] then []
    else
      var head := if !events[0].deleted && events[0].date == today then [events[0]] else [];
      head + EventsOn(events[1..], today)
  }

  /** One event joined with its registrations and their users. */
  function RowsForEvent(e: EventRow, regs: seq<Registration>, users: map<int, UserRow>): (r: seq<ReminderRow>)
    ensures forall x :: x in r <==> x.event == e && IsRegistered(regs, e.id, x.userId) && Subscribed(users, x.userId)
  {
    if regs == [] then []
    else
      var rest := RowsForEvent(e, regs[1..], users);
      assert forall u :: IsRegistered(regs, e.id, u) <==>
        (regs[0].eventId == e.id && regs[0].userId == u) || IsRegistered(regs[1..], e.id, u)
      by {
        forall u ensures IsRegistered(regs, e.id, u) ==>
          (regs[0].eventId == e.id && regs[0].userId == u) || IsRegistered(regs[1..], e.id, u)
        {
          if IsRegistered(regs, e.id, u) {
            var x :| x in regs && x.eventId == e.id && x.userId == u;
            if x != regs[0] {
              assert x in regs[1..];
            }
          }
        }
      }
      var head := regs[0];
      (if head.eventId == e.id && Subscribed(users, head.userId) then [ReminderRow(e, head.userId)] else []) + rest
  }

  function RowsForEvents(es: seq<EventRow>, regs: seq<Registration>, users: map<int, UserRow>): (r: seq<ReminderRow>)
    ensures forall x :: x in r <==> x.event in es && IsRegistered(regs, x.event.id, x.userId) && Subscribed(users, x.userId)
  {
    if es == [] then [] else RowsForEvent(es[0], regs, users) + RowsForEvents(es[1..], regs, users)
  }

  /**
   * `get_today_event_participants()`: one row per registration of a live event dated
   * `date('now')` whose user has a row with reminders on, ordered by event time. A pair
   * registered twice comes back twice.
   */
  function TodayRows(t: Tables, utcToday: Date): (r: seq<ReminderRow>)
    ensures forall x :: x in r <==> Recipient(t, utcToday, x)
  {
    var es := SortByStart(EventsOn(t.events, utcToday));
    assert forall e :: e in es <==> e in multiset(EventsOn(t.events, utcToday));
    RowsForEvents(es, t.registrations, t.users)
  }

  /** A user with no `users` row reads as subscribed but is never sent a reminder. */
  lemma UnknownUserNeverReminded(t: Tables, utcToday: Date, x: ReminderRow)
    requires x.userId !in t.users
    ensures NotificationSetting(t.users, x.userId)
    ensures x !in TodayRows(t, utcToday)
  {
  }

  // ---------------------------------------------------------------- one send pass

  /** A reminder key `(event_id, user_id)`. */
  type Pair = (int, int)

  function PairOf(x: ReminderRow): Pair {
    (x.event.id, x.userId)
  }

  function PairsOf(rows: seq<ReminderRow>): (ps: seq<Pair>)
    ensures |ps| == |rows| && forall i :: 0 <= i < |rows| ==> ps[i] == PairOf(rows[i])
  {
    if rows == [] then [] else [PairOf(rows[0])] + PairsOf(rows[1..])
  }

  predicate NoRepeats(s: seq<Pair>) {
    forall i, j :: 0 <= i < j < |s| ==> s[i] != s[j]
  }

  function Elements(s: seq<Pair>): set<Pair> {
    set p | p in s
  }

  /** The sends of one pass and the set of keys remembered afterwards. */
  datatype Delivery = Delivery(sent: seq<Pair>, marked: set<Pair>, raised: bool)

  /**
   * The loop of `send_event_reminders` over the rows: skip a remembered key, otherwise send and
   * then remember it; a send that raises ends the pass with that key not remembered.
   */
  function Deliver(pairs: seq<Pair>, already: set<Pair>, failing: set<Pair>): Delivery
    decreases |pairs|
  {
    if pairs == [] then Delivery([], already, false)
    else if pairs[0] in already then Deliver(pairs[1..], already, failing)
    else if pairs[0] in failing then Delivery([], already, true)
    else
      var rest := Deliver(pairs[1..], already + {pairs[0]}, failing);
      Delivery([pairs[0]] + rest.sent, rest.marked, rest.raised)
  }

  /**
   * A pass sends each key at most once, never a remembered one and never one whose send
   * fails; it remembers exactly what it sent; a pass that does not raise has covered every
   * row, and one that raises stopped at a failing key it did not remember.
   */
  lemma {:induction false} DeliverFacts(pairs: seq<Pair>, already: set<Pair>, failing: set<Pair>)
    ensures var d := Deliver(pairs, already, failing);
      && NoRepeats(d.sent)
      && (forall p :: p in d.sent ==> p in pairs && p !in already && p !in failing)
      && d.marked == already + Elements(d.sent)
      && (!d.raised ==> forall p :: p in pairs ==> p in d.marked)
      && (d.raised ==> exists p :: p in pairs && p in failing && p !in d.marked)
    decreases |pairs|
  {
    if pairs == [] {
    } else if pairs[0] in already {
      DeliverFacts(pairs[1..], already, failing);
      var d := Deliver(pairs[1..], already, failing);
      if d.raised {
        var p :| p in pairs[1..] && p in failing && p !in d.marked;
        assert p in pairs;
      }
    } else if pairs[0] in failing {
    } else {
      var p0 := pairs[0];
      DeliverFacts(pairs[1..], already + {p0}, failing);
      var rest := Deliver(pairs[1..], already + {p0}, failing);
      var d := Deliver(pairs, already, failing);
      assert d.sent == [p0] + rest.sent;
      forall i, j | 0 <= i < j < |d.sent| ensures d.sent[i] != d.sent[j] {
        if i == 0 {
          assert d.sent[j] in rest.sent;
        } else {
          assert d.sent[i] == rest.sent[i - 1] && d.sent[j] == rest.sent[j - 1];
        }
      }
      assert Elements(d.sent) == {p0} + Elements(rest.sent);
      if d.raised {
        var p :| p in pairs[1..] && p in failing && p !in d.marked;
        assert p in pairs;
      }
    }
  }

  /** The result of one reminder-loop tick on the remembered keys. */
  datatype TickResult = TickResult(sent: map<Date, set<Pair>>, delivered: seq<Pair>, raised: bool)

  /** `if list(_sent_reminders.keys()) != [today_key]: _sent_reminders.clear()`. */
  function ResetFor(sent: map<Date, set<Pair>>, today: Date): (r: map<Date, set<Pair>>)
    ensures r == map[] || r.Keys == {today}
    ensures r.Keys == {today} ==> r == sent
  {
    if sent.Keys == {today} then sent else map[]
  }

  /** The keys remembered for `day`, the empty set when there are none. */
  function SentOn(sent: map<Date, set<Pair>>, day: Date): set<Pair> {
    if day in sent then sent[day] else {}
  }

  /** `send_event_reminders` on the remembered keys: nothing outside the window. */
  function SendSpec(sent: map<Date, set<Pair>>, now: DateTime, pairs: seq<Pair>, failing: set<Pair>): (r: TickResult)
    ensures !InWindow(now.time) ==> r == TickResult(sent, [], false)
    ensures InWindow(now.time) ==> r.sent.Keys == sent.Keys + {now.date}
  {
    if !InWindow(now.time) then TickResult(sent, [], false)
    else
      var d := Deliver(pairs, SentOn(sent, now.date), failing);
      TickResult(sent[now.date := d.marked], d.sent, d.raised)
  }

  /** One iteration of `reminder_loop`: the day reset, then a send pass. */
  function TickSpec(sent: map<Date, set<Pair>>, now: DateTime, pairs: seq<Pair>, failing: set<Pair>): TickResult {
    SendSpec(ResetFor(sent, now.date), now, pairs, failing)
  }

  /** One step of `Deliver`, unfolded at position `i`. */
  lemma DeliverStep(pairs: seq<Pair>, i: nat, mark: set<Pair>, failing: set<Pair>)
    requires i < |pairs|
    ensures var p := pairs[i];
      Deliver(pairs[i..], mark, failing) ==
        if p in mark then Deliver(pairs[i + 1..], mark, failing)
        else if p in failing then Delivery([], mark, true)
        else var d := Deliver(pairs[i + 1..], mark + {p}, failing); Delivery([p] + d.sent, d.marked, d.raised)
  {
    assert pairs[i..][1..] == pairs[i + 1..];
  }

  /** A pass that has sent `delivered` so far and still has `rest` to do ends as `whole`. */
  predicate Resumes(whole: Delivery, delivered: seq<Pair>, rest: Delivery) {
    whole == Delivery(delivered + rest.sent, rest.marked, rest.raised)
  }

  lemma SendResumes(whole: Delivery, delivered: seq<Pair>, key: Pair, rest: Delivery)
    requires Resumes(whole, delivered, Delivery([key] + rest.sent, rest.marked, rest.raised))
    ensures Resumes(whole, delivered + [key], rest)
  {
    assert delivered + ([key] + rest.sent) == delivered + [key] + rest.sent;
  }

  /** The process-wide `_sent_reminders` dictionary. */
  class ReminderLog {
    var sent: map<Date, set<Pair>>

    constructor ()
      ensures sent == map[]
    {
      sent := map[];
    }

    /** The reset step of `reminder_loop`. */
    method ResetForDay(today: Date)
      modifies this
      ensures sent == ResetFor(old(sent), today)
      ensures sent == map[] || sent.Keys == {today}
    {
      if sent.Keys != {today} {
        sent := map[];
      }
    }

    /**
     * `send_event_reminders`: outside the window nothing is sent and nothing changes; inside,
     * `setdefault` makes today's entry and each key is remembered right after its send.
     */
    method SendEventReminders(rows: seq<ReminderRow>, now: DateTime, failing: set<Pair>)
      returns (delivered: seq<Pair>, raised: bool)
      modifies this
      ensures TickResult(sent, delivered, raised) == SendSpec(old(sent), now, PairsOf(rows), failing)
    {
      if !InWindow(now.time) {
        return [], false;
      }
      var today := now.date;
      if today !in sent {
        sent := sent[today := {}];
      }
      assert sent[today] == SentOn(old(sent), today);
      delivered, raised := SendPass(PairsOf(rows), today, failing);
    }

    /** The loop over the rows: each key is remembered right after its send returns. */
    method SendPass(pairs: seq<Pair>, today: Date, failing: set<Pair>) returns (delivered: seq<Pair>, raised: bool)
      requires today in sent
      modifies this
      ensures var d := Deliver(pairs, old(sent)[today], failing);
        sent == old(sent)[today := d.marked] && delivered == d.sent && raised == d.raised
    {
      var mark := sent[today];
      ghost var whole := Deliver(pairs, mark, failing);
      assert pairs[0..] == pairs;
      delivered, raised := [], false;
      var i := 0;
      while i < |pairs|
        invariant 0 <= i <= |pairs|
        invariant sent == old(sent)[today := mark]
        invariant Resumes(whole, delivered, Deliver(pairs[i..], mark, failing))
      {
        var key := pairs[i];
        DeliverStep(pairs, i, mark, failing);
        if key in mark {
          i := i + 1;
          continue;
        }
        if key in failing {
          raised := true;
          break;
        }
        SendResumes(whole, delivered, key, Deliver(pairs[i + 1..], mark + {key}, failing));
        mark := mark + {key};
        sent := sent[today := mark];
        delivered := delivered + [key];
        i := i + 1;
      }
      assert !raised ==> pairs[i..] == [];
    }

    /** One iteration of `reminder_loop`; the exception of a failed send is swallowed. */
    method Tick(db: Db, now: DateTime, utcToday: Date, failing: set<Pair>) returns (delivered: seq<Pair>)
      modifies this
      ensures var r := TickSpec(old(sent), now, PairsOf(TodayRows(db.Snapshot(), utcToday)), failing);
        sent == r.sent && delivered == r.delivered
    {
      ResetForDay(now.date);
      var rows := TodayRows(db.Snapshot(), utcToday);
      var raised;
      delivered, raised := SendEventReminders(rows, now, failing);
    }
  }

  // ---------------------------------------------------------------- at most once per day

  /** The clock, the query result and the failing sends of one tick. */
  datatype TickInput = TickInput(now: DateTime, pairs: seq<Pair>, failing: set<Pair>)

  /** Several ticks in a row: the final keys and every send, in order. */
  function Run(sent: map<Date, set<Pair>>, ticks: seq<TickInput>): (r: TickResult)
    decreases |ticks|
  {
    if ticks == [] then TickResult(sent, [], false)
    else
      var first := TickSpec(sent, ticks[0].now, ticks[0].pairs, ticks[0].failing);
      var rest := Run(first.sent, ticks[1..]);
      TickResult(rest.sent, first.delivered + rest.delivered, rest.raised)
  }

  /** The keys a tick on `day` starts from. */
  function Remembered(sent: map<Date, set<Pair>>, day: Date): set<Pair> {
    SentOn(ResetFor(sent, day), day)
  }

  /** A tick on `day` remembers what it sent, forgets nothing of `day`, and keeps no other day. */
  lemma TickRemembers(sent: map<Date, set<Pair>>, t: TickInput)
    ensures var r := TickSpec(sent, t.now, t.pairs, t.failing);
      && (r.sent == map[] || r.sent.Keys == {t.now.date})
      && Remembered(r.sent, t.now.date) == Remembered(sent, t.now.date) + Elements(r.delivered)
      && NoRepeats(r.delivered)
      && forall p :: p in r.delivered ==> p !in Remembered(sent, t.now.date)
  {
    var day := t.now.date;
    var base := ResetFor(sent, day);
    var r := TickSpec(sent, t.now, t.pairs, t.failing);
    if InWindow(t.now.time) {
      DeliverFacts(t.pairs, SentOn(base, day), t.failing);
      assert r.sent.Keys == {day};
      assert ResetFor(r.sent, day) == r.sent;
    }
  }

  lemma NoRepeatsAppend(a: seq<Pair>, b: seq<Pair>)
    requires NoRepeats(a) && NoRepeats(b)
    requires forall p :: p in b ==> p !in a
    ensures NoRepeats(a + b)
  {
    var s := a + b;
    forall i, j | 0 <= i < j < |s| ensures s[i] != s[j] {
      if i < |a| && j >= |a| {
        assert s[j] == b[j - |a|];
        assert s[i] in a;
      }
    }
  }

  /**
   * Within one day, however many ticks run and whatever the queries return (duplicate rows
   * included) and whichever sends fail, no (event, user) pair is sent twice, and none that was
   * already remembered for that day is sent again.
   */
  lemma {:induction false} AtMostOncePerDay(sent: map<Date, set<Pair>>, ticks: seq<TickInput>, day: Date)
    requires forall i :: 0 <= i < |ticks| ==> ticks[i].now.date == day
    ensures NoRepeats(Run(sent, ticks).delivered)
    ensures forall p :: p in Run(sent, ticks).delivered ==> p !in Remembered(sent, day)
    decreases |ticks|
  {
    if ticks != [] {
      var t := ticks[0];
      var first := TickSpec(sent, t.now, t.pairs, t.failing);
      TickRemembers(sent, t);
      AtMostOncePerDay(first.sent, ticks[1..], day);
      var rest := Run(first.sent, ticks[1..]);
      NoRepeatsAppend(first.delivered, rest.delivered);
    }
  }
}
