/**
 * The bot's SQLite database as in-memory tables: `events`, `registrations`, `users` and
 * `logs`, held by one `Db` object whose fields the handlers reassign, and the read-only
 * queries the handlers share (lookup by id, registration counts, the list of upcoming events
 * ordered by date and time, the newest row).
 */
module Store {
  import opened Wrappers
  import opened Calendar

  /**
   * A row of `events`. Columns that SQLite may hold as NULL are options; `event_date` is kept as
   * the calendar date its `%Y-%m-%d` text denotes.
   */
  datatype EventRow = EventRow(
    id: int,
    name: Option<string>,
    description: Option<string>,
    price: Option<real>,
    address: Option<string>,
    maxParticipants: Option<int>,
    date: Date,
    time: Option<string>,
    deleted: bool)

  /** A row of `registrations`; the table has no uniqueness constraint. */
  datatype Registration = Registration(
    eventId: int, userId: int, eventName: Option<string>, userName: string, userNickname: string)

  /** A row of `users`, keyed by `user_id`. */
  datatype UserRow = UserRow(username: Option<string>, nickname: Option<string>, notificationOn: bool)

  /**
   * The `description` of a log row: which action, on the event named (the name column may be
   * NULL, which the text shows as `None`).
   */
  datatype LogAction = SignedUpFor(eventName: Option<string>) | CancelledFor(eventName: Option<string>)
                     | UnsubscribedFrom(eventName: Option<string>)

  /** A row of `logs`: who did what, stamped with the local clock. */
  datatype LogEntry = LogEntry(userId: int, userName: string, userNickname: string, action: LogAction, at: DateTime)

  /** The content of all four tables at one moment. */
  datatype Tables = Tables(
    events: seq<EventRow>, registrations: seq<Registration>, users: map<int, UserRow>, logs: seq<LogEntry>)

  /** Event ids are positive and strictly increasing in insertion order. */
  predicate IdsIncreasing(events: seq<EventRow>) {
    forall i, j :: 0 <= i < j < |events| ==> 0 < events[i].id < events[j].id
  }

  predicate DatesValid(events: seq<EventRow>) {
    forall i :: 0 <= i < |events| ==> ValidDate(events[i].date)
  }

  predicate EventsValid(events: seq<EventRow>) {
    IdsIncreasing(events) && DatesValid(events) && (forall i :: 0 <= i < |events| ==> events[i].id > 0)
  }

  /** The database file: four tables the handlers read and rewrite. */
  class Db {
    var events: seq<EventRow>
    var registrations: seq<Registration>
    var users: map<int, UserRow>
    var logs: seq<LogEntry>

    predicate Valid()
      reads this
    {
      EventsValid(events)
    }

    function Snapshot(): Tables
      reads this
    {
      Tables(events, registrations, users, logs)
    }

    constructor ()
      ensures Valid()
      ensures events == [] && registrations == [] && users == map[] && logs == []
    {
      events := [];
      registrations := [];
      users := map[];
      logs := [];
    }
  }

  // ---------------------------------------------------------------- lookups

  /** `SELECT ... FROM events WHERE event_id = ?` without the `is_deleted` filter. */
  function FindEvent(events: seq<EventRow>, id: int): (r: Option<EventRow>)
    ensures r.Some? ==> r.value in events && r.value.id == id
    ensures r.None? <==> forall e :: e in events ==> e.id != id
  {
    if events == [] then None
    else if events[0].id == id then Some(events[0])
    else FindEvent(events[1..], id)
  }

  /** `... WHERE event_id = ? AND is_deleted = 0`: the live row with this id, if any. */
  function GetEvent(events: seq<EventRow>, id: int): (r: Option<EventRow>)
    ensures r.Some? ==> r.value in events && r.value.id == id && !r.value.deleted
    ensures r.None? <==> forall e :: e in events && e.id == id ==> e.deleted
  {
    if events == [] then None
    else if events[0].id == id && !events[0].deleted then Some(events[0])
    else GetEvent(events[1..], id)
  }

  /** The rows of `registrations` for one event. */
  function RegistrationsFor(regs: seq<Registration>, eventId: int): (r: seq<Registration>)
    ensures forall x :: x in r <==> x in regs && x.eventId == eventId
    ensures |r| <= |regs|
  {
    if regs == [] then []
    else (if regs[0].eventId == eventId then [regs[0]] else []) + RegistrationsFor(regs[1..], eventId)
  }

  /** `SELECT COUNT(*) FROM registrations WHERE event_id = ?`. */
  function CountRegistrations(regs: seq<Registration>, eventId: int): (n: nat)
    ensures n <= |regs|
    ensures n == 0 <==> forall x :: x in regs ==> x.eventId != eventId
  {
    var rows := RegistrationsFor(regs, eventId);
    assert rows != [] ==> rows[0] in rows;
    |rows|
  }

  /** `SELECT 1 FROM registrations WHERE event_id = ? AND user_id = ? LIMIT 1` found a row. */
  predicate IsRegistered(regs: seq<Registration>, eventId: int, userId: int) {
    exists x :: x in regs && x.eventId == eventId && x.userId == userId
  }

  /** `ORDER BY event_id DESC LIMIT 1`: the row with the largest id, deleted or not. */
  function LatestEvent(events: seq<EventRow>): (r: Option<EventRow>)
    ensures r.None? <==> events == []
    ensures r.Some? ==> r.value in events && forall e :: e in events ==> e.id <= r.value.id
  {
    if events == [] then None
    else
      match LatestEvent(events[1..])
      case None => Some(events[0])
      case Some(e) => if e.id > events[0].id then Some(e) else Some(events[0])
  }

  /** The id SQLite gives the next inserted row: one more than the largest id in use. */
  function NextId(events: seq<EventRow>): (id: int)
    ensures id >= 1
    ensures forall e :: e in events ==> e.id < id
  {
    match LatestEvent(events)
    case None => 1
    case Some(e) => if e.id >= 1 then e.id + 1 else 1
  }

  lemma NextIdKeepsValid(events: seq<EventRow>, row: EventRow)
    requires EventsValid(events) && ValidDate(row.date) && row.id == NextId(events)
    ensures EventsValid(events + [row])
  {
    var s := events + [row];
    forall i, j | 0 <= i < j < |s| ensures 0 < s[i].id < s[j].id {
      if j == |events| {
        assert s[i] in events;
      }
    }
  }

  // ---------------------------------------------------------------- ordering

  /** SQLite's BINARY collation: code-point order on text. */
  predicate TextAtMost(a: string, b: string)
    decreases |a|
  {
    a == [] || (b != [] && (a[0] < b[0] || (a[0] == b[0] && TextAtMost(a[1..], b[1..]))))
  }

  /** `ORDER BY event_time`: NULL sorts before every text. */
  predicate TimeTextAtMost(a: Option<string>, b: Option<string>) {
    a.None? || (b.Some? && TextAtMost(a.value, b.value))
  }

  predicate DateAtMost(a: Date, b: Date) {
    Before(a, b) || a == b
  }

  /** `ORDER BY event_date, event_time`. */
  predicate StartsNoLater(a: EventRow, b: EventRow) {
    Before(a.date, b.date) || (a.date == b.date && TimeTextAtMost(a.time, b.time))
  }

  lemma {:induction false} TextAtMostTotal(a: string, b: string)
    ensures TextAtMost(a, b) || TextAtMost(b, a)
    decreases |a|
  {
    if a != [] && b != [] && a[0] == b[0] {
      TextAtMostTotal(a[1..], b[1..]);
    }
  }

  lemma {:induction false} TextAtMostTransitive(a: string, b: string, c: string)
    requires TextAtMost(a, b) && TextAtMost(b, c)
    ensures TextAtMost(a, c)
    decreases |a|
  {
    if a != [] && a[0] == b[0] && b[0] == c[0] {
      TextAtMostTransitive(a[1..], b[1..], c[1..]);
    }
  }

  lemma StartsNoLaterTotal(a: EventRow, b: EventRow)
    ensures StartsNoLater(a, b) || StartsNoLater(b, a)
  {
    if a.time.Some? && b.time.Some? {
      TextAtMostTotal(a.time.value, b.time.value);
    }
  }

  lemma StartsNoLaterTransitive(a: EventRow, b: EventRow, c: EventRow)
    requires StartsNoLater(a, b) && StartsNoLater(b, c)
    ensures StartsNoLater(a, c)
  {
    if a.date == b.date == c.date && a.time.Some? {
      TextAtMostTransitive(a.time.value, b.time.value, c.time.value);
    }
  }

  predicate SortedByStart(s: seq<EventRow>) {
    forall i, j :: 0 <= i < j < |s| ==> StartsNoLater(s[i], s[j])
  }

  function InsertByStart(x: EventRow, s: seq<EventRow>): (r: seq<EventRow>)
    ensures multiset(r) == multiset(s) + multiset{x}
  {
    if s == [] || StartsNoLater(x, s[0]) then [x] + s
    else
      assert s == [s[0]] + s[1..];
      [s[0]] + InsertByStart(x, s[1..])
  }

  lemma {:induction false} InsertKeepsSorted(x: EventRow, s: seq<EventRow>)
    requires SortedByStart(s)
    ensures SortedByStart(InsertByStart(x, s))
    decreases |s|
  {
    var r := InsertByStart(x, s);
    if s == [] {
    } else if StartsNoLater(x, s[0]) {
      forall j | 1 <= j < |r| ensures StartsNoLater(r[0], r[j]) {
        assert r[j] == s[j - 1];
        if j > 1 {
          StartsNoLaterTransitive(x, s[0], s[j - 1]);
        }
      }
    } else {
      StartsNoLaterTotal(x, s[0]);
      var t := InsertByStart(x, s[1..]);
      InsertKeepsSorted(x, s[1..]);
      assert r == [s[0]] + t;
      forall j | 1 <= j < |r| ensures StartsNoLater(r[0], r[j]) {
        assert r[j] in multiset(t);
        assert r[j] == x || r[j] in multiset(s[1..]);
        if r[j] != x {
          var k :| 0 <= k < |s[1..]| && s[1..][k] == r[j];
          assert s[k + 1] == r[j];
        }
      }
    }
  }

  /** Rows in `ORDER BY event_date, event_time` order (ties keep table order). */
  function SortByStart(s: seq<EventRow>): (r: seq<EventRow>)
    ensures multiset(r) == multiset(s)
  {
    if s == [] then []
    else
      assert s == [s[0]] + s[1..];
      InsertByStart(s[0], SortByStart(s[1..]))
  }

  lemma {:induction false} SortByStartSorted(s: seq<EventRow>)
    ensures SortedByStart(SortByStart(s))
  {
    if s != [] {
      SortByStartSorted(s[1..]);
      InsertKeepsSorted(s[0], SortByStart(s[1..]));
    }
  }

  // ---------------------------------------------------------------- upcoming events

  /** `is_deleted = 0 AND date(event_date) >= date('now')`. */
  predicate Upcoming(e: EventRow, today: Date) {
    !e.deleted && !Before(e.date, today)
  }

  function UpcomingRows(events: seq<EventRow>, today: Date): (r: seq<EventRow>)
    ensures forall e :: e in r <==> e in events && Upcoming(e, today)
    ensures multiset(r) <= multiset(events)
  {
    if events == [] then []
    else
      assert events == [events[0]] + events[1..];
      (if Upcoming(events[0], today) then [events[0]] else []) + UpcomingRows(events[1..], today)
  }

  /**
   * `get_future_events()`: the live events dated today or later, ordered by date then time.
   * Every such event appears as often as in the table, and nothing else does.
   */
  function FutureEvents(events: seq<EventRow>, today: Date): (r: seq<EventRow>)
    ensures multiset(r) == multiset(UpcomingRows(events, today))
    ensures SortedByStart(r)
    ensures forall e :: e in r <==> e in events && Upcoming(e, today)
  {
    var up := UpcomingRows(events, today);
    SortByStartSorted(up);
    var r := SortByStart(up);
    assert forall e :: e in r <==> e in multiset(up);
    r
  }

  /**
   * `get_future_events(limit)`: a truthy `limit` appends `LIMIT ?`; SQLite reads a negative
   * limit as no limit.
   */
  function FutureEventsLimited(events: seq<EventRow>, today: Date, limit: Option<int>): (r: seq<EventRow>)
    ensures r <= FutureEvents(events, today)
    ensures limit.Some? && limit.value > 0 ==> |r| == if |FutureEvents(events, today)| < limit.value then |FutureEvents(events, today)| else limit.value
    ensures limit.None? || limit.value <= 0 ==> r == FutureEvents(events, today)
  {
    var all := FutureEvents(events, today);
    if limit.Some? && limit.value > 0 && limit.value < |all| then all[..limit.value] else all
  }

  /**
   * `get_user_events(user_id)`: the upcoming events the user holds a registration for, each
   * once (`SELECT DISTINCT`), ordered by date then time.
   */
  function UserEvents(events: seq<EventRow>, regs: seq<Registration>, userId: int, today: Date): (r: seq<EventRow>)
    ensures forall e :: e in r <==> e in events && Upcoming(e, today) && IsRegistered(regs, e.id, userId)
    ensures SortedByStart(r)
    ensures multiset(r) <= multiset(events)
  {
    var all := FutureEvents(events, today);
    KeepRegisteredSorted(all, regs, userId);
    KeepRegistered(all, regs, userId)
  }

  function KeepRegistered(s: seq<EventRow>, regs: seq<Registration>, userId: int): (r: seq<EventRow>)
    ensures forall e :: e in r <==> e in s && IsRegistered(regs, e.id, userId)
    ensures multiset(r) <= multiset(s)
  {
    if s == [] then []
    else
      assert s == [s[0]] + s[1..];
      (if IsRegistered(regs, s[0].id, userId) then [s[0]] else []) + KeepRegistered(s[1..], regs, userId)
  }

  /** `SELECT DISTINCT`: in a table with unique ids, no event is listed twice. */
  lemma UserEventsOnce(events: seq<EventRow>, regs: seq<Registration>, userId: int, today: Date)
    requires EventsValid(events)
    ensures var r := UserEvents(events, regs, userId, today);
      forall i, j :: 0 <= i < j < |r| ==> r[i].id != r[j].id
  {
    SubTableIdsUnique(UserEvents(events, regs, userId, today), events);
  }

  /** Rows drawn from a table with increasing ids, none more often than the table holds it, have distinct ids. */
  lemma SubTableIdsUnique(r: seq<EventRow>, events: seq<EventRow>)
    requires IdsIncreasing(events) && multiset(r) <= multiset(events)
    ensures forall i, j :: 0 <= i < j < |r| ==> r[i].id != r[j].id
  {
    forall i, j | 0 <= i < j < |r| ensures r[i].id != r[j].id {
      RepeatCounts(r, i, j);
      IncreasingIdsOnce(events, r[i]);
      assert r[i] in multiset(events) && r[j] in multiset(events);
      SameIdSameRow(events, r[i], r[j]);
    }
  }

  lemma RepeatCounts(s: seq<EventRow>, i: nat, j: nat)
    requires i < j < |s|
    ensures s[i] == s[j] ==> multiset(s)[s[i]] >= 2
  {
    assert s == s[..j] + s[j..];
    assert s[i] == s[..j][i] && s[j] == s[j..][0];
  }

  /** Rows of a table with increasing ids occur at most once. */
  lemma {:induction false} IncreasingIdsOnce(events: seq<EventRow>, e: EventRow)
    requires IdsIncreasing(events)
    ensures multiset(events)[e] <= 1
  {
    if events != [] {
      assert events == [events[0]] + events[1..];
      IncreasingIdsOnce(events[1..], e);
      if e == events[0] {
        assert e !in events[1..];
      }
    }
  }

  lemma SameIdSameRow(events: seq<EventRow>, a: EventRow, b: EventRow)
    requires IdsIncreasing(events) && a in events && b in events
    ensures a.id == b.id ==> a == b
  {
    var i :| 0 <= i < |events| && events[i] == a;
    var j :| 0 <= j < |events| && events[j] == b;
    assert i != j ==> a.id != b.id;
  }

  lemma {:induction false} KeepRegisteredSorted(s: seq<EventRow>, regs: seq<Registration>, userId: int)
    requires SortedByStart(s)
    ensures SortedByStart(KeepRegistered(s, regs, userId))
  {
    if s != [] {
      assert SortedByStart(s[1..]) by {
        forall i, j | 0 <= i < j < |s[1..]| ensures StartsNoLater(s[1..][i], s[1..][j]) {
          assert s[1..][i] == s[i + 1] && s[1..][j] == s[j + 1];
        }
      }
      KeepRegisteredSorted(s[1..], regs, userId);
      var t := KeepRegistered(s[1..], regs, userId);
      forall y | y in t ensures StartsNoLater(s[0], y) {
        var k :| 0 <= k < |s[1..]| && s[1..][k] == y;
        assert s[k + 1] == y;
      }
    }
  }
}
