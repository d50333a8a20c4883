/**
 * The admin's view of the events table: soft deletion, single-column updates, the three inline
 * keyboards of an event card, and the callback handlers behind them.
 */
module AdminEvents {
  import opened Wrappers
  import opened Calendar
  import opened Store
  import opened Callbacks

  // ---------------------------------------------------------------- soft delete

  /** `mark_event_deleted`: every row with the id gets the deleted flag; no row is removed. */
  function SoftDelete(events: seq<EventRow>, id: int): (r: seq<EventRow>)
    ensures |r| == |events|
    ensures forall i :: 0 <= i < |r| && events[i].id != id ==> r[i] == events[i]
    ensures forall i :: 0 <= i < |r| && events[i].id == id ==> r[i] == events[i].(deleted := true)
  {
    if events == [] then []
    else
      var head := if events[0].id == id then events[0].(deleted := true) else events[0];
      [head] + SoftDelete(events[1..], id)
  }

  /** After a soft delete the event is hidden from `get_event`, and every other lookup is as before. */
  lemma {:induction false} SoftDeleteHides(events: seq<EventRow>, id: int, other: int)
    ensures GetEvent(SoftDelete(events, id), id).None?
    ensures other != id ==> GetEvent(SoftDelete(events, id), other) == GetEvent(events, other)
  {
    var r := SoftDelete(events, id);
    forall e | e in r && e.id == id ensures e.deleted {
      var i :| 0 <= i < |r| && r[i] == e;
    }
    if other != id && events != [] {
      SoftDeleteHides(events[1..], id, other);
      assert r == [r[0]] + SoftDelete(events[1..], id);
    }
  }

  /** Deleting keeps the row order, the ids and every date, so the table stays well formed. */
  lemma SoftDeleteKeepsValid(events: seq<EventRow>, id: int)
    requires EventsValid(events)
    ensures EventsValid(SoftDelete(events, id))
  {
    var r := SoftDelete(events, id);
    assert forall i :: 0 <= i < |r| ==> r[i].id == events[i].id && r[i].date == events[i].date;
  }

  /** Deleting twice is deleting once. */
  lemma SoftDeleteIdempotent(events: seq<EventRow>, id: int)
    ensures SoftDelete(SoftDelete(events, id), id) == SoftDelete(events, id)
  {
    var r := SoftDelete(events, id);
    var rr := SoftDelete(r, id);
    forall i | 0 <= i < |rr| ensures rr[i] == r[i] {
      assert r[i].id == events[i].id;
    }
  }

  /** A deleted event drops out of the upcoming list. */
  lemma SoftDeleteLeavesUpcoming(events: seq<EventRow>, id: int, today: Date)
    ensures forall e :: e in FutureEvents(SoftDelete(events, id), today) ==> e.id != id
  {
    forall e | e in FutureEvents(SoftDelete(events, id), today) ensures e.id != id {
      var r := SoftDelete(events, id);
      var i :| 0 <= i < |r| && r[i] == e;
    }
  }

  method MarkEventDeleted(db: Db, id: int)
    requires db.Valid()
    modifies db
    ensures db.Valid()
    ensures db.events == SoftDelete(old(db.events), id)
    ensures db.registrations == old(db.registrations) && db.users == old(db.users) && db.logs == old(db.logs)
  {
    SoftDeleteKeepsValid(db.events, id);
    db.events := SoftDelete(db.events, id);
  }

  // ---------------------------------------------------------------- field update

  /** The columns an admin may set. */
  datatype Column = NameColumn | DescriptionColumn | PriceColumn | AddressColumn | MaxColumn | DateColumn | TimeColumn

  /** A value held in one column of a row. */
  datatype Cell = TextCell(text: Option<string>) | PriceCell(price: Option<real>) | CountCell(count: Option<int>) | DateCell(date: Date)

  function Read(e: EventRow, c: Column): Cell {
    match c
    case NameColumn => TextCell(e.name)
    case DescriptionColumn => TextCell(e.description)
    case PriceColumn => PriceCell(e.price)
    case AddressColumn => TextCell(e.address)
    case MaxColumn => CountCell(e.maxParticipants)
    case DateColumn => DateCell(e.date)
    case TimeColumn => TextCell(e.time)
  }

  /** The value has the column's kind (and a date column gets a real calendar day). */
  predicate Fits(c: Column, v: Cell) {
    match c
    case NameColumn => v.TextCell?
    case DescriptionColumn => v.TextCell?
    case PriceColumn => v.PriceCell?
    case AddressColumn => v.TextCell?
    case MaxColumn => v.CountCell?
    case DateColumn => v.DateCell? && ValidDate(v.date)
    case TimeColumn => v.TextCell?
  }

  /** `SET {field} = ?` on one row: that column reads the new value, every other column is unchanged. */
  function Write(e: EventRow, c: Column, v: Cell): (r: EventRow)
    requires Fits(c, v)
    ensures Read(r, c) == v
    ensures forall d :: d != c ==> Read(r, d) == Read(e, d)
    ensures r.id == e.id && r.deleted == e.deleted
  {
    match c
    case NameColumn => e.(name := v.text)
    case DescriptionColumn => e.(description := v.text)
    case PriceColumn => e.(price := v.price)
    case AddressColumn => e.(address := v.text)
    case MaxColumn => e.(maxParticipants := v.count)
    case DateColumn => e.(date := v.date)
    case TimeColumn => e.(time := v.text)
  }

  /** Two rows that agree on the id, the flag and every column are the same row. */
  lemma RowsByColumns(a: EventRow, b: EventRow)
    requires a.id == b.id && a.deleted == b.deleted
    requires forall c :: Read(a, c) == Read(b, c)
    ensures a == b
  {
    assert Read(a, NameColumn) == Read(b, NameColumn);
    assert Read(a, DescriptionColumn) == Read(b, DescriptionColumn);
    assert Read(a, PriceColumn) == Read(b, PriceColumn);
    assert Read(a, AddressColumn) == Read(b, AddressColumn);
    assert Read(a, MaxColumn) == Read(b, MaxColumn);
    assert Read(a, DateColumn) == Read(b, DateColumn);
    assert Read(a, TimeColumn) == Read(b, TimeColumn);
  }

  /** Writing back the value a column already holds changes nothing. */
  lemma WriteSameValue(e: EventRow, c: Column)
    requires Fits(c, Read(e, c))
    ensures Write(e, c, Read(e, c)) == e
  {
    RowsByColumns(Write(e, c, Read(e, c)), e);
  }

  /** `update_event_field`: the rows with the id (deleted or not) get the new value in that column. */
  function UpdateRows(events: seq<EventRow>, id: int, c: Column, v: Cell): (r: seq<EventRow>)
    requires Fits(c, v)
    ensures |r| == |events|
    ensures forall i :: 0 <= i < |r| && events[i].id != id ==> r[i] == events[i]
    ensures forall i :: 0 <= i < |r| && events[i].id == id ==> r[i] == Write(events[i], c, v)
  {
    if events == [] then []
    else
      var head := if events[0].id == id then Write(events[0], c, v) else events[0];
      [head] + UpdateRows(events[1..], id, c, v)
  }

  /**
   * After an update, `get_event` finds the event with the new value in that column and all its
   * other columns as before; lookups of other ids are unaffected.
   */
  lemma UpdateSeenByGetEvent(events: seq<EventRow>, id: int, c: Column, v: Cell, other: int)
    requires Fits(c, v)
    ensures GetEvent(events, id).Some? <==> GetEvent(UpdateRows(events, id, c, v), id).Some?
    ensures GetEvent(events, id).Some? ==> GetEvent(UpdateRows(events, id, c, v), id) == Some(Write(GetEvent(events, id).value, c, v))
    ensures other != id ==> GetEvent(UpdateRows(events, id, c, v), other) == GetEvent(events, other)
  {
    UpdateFound(events, id, c, v);
    if other != id {
      UpdateLeavesOthers(events, id, c, v, other);
    }
  }

  lemma {:induction false} UpdateFound(events: seq<EventRow>, id: int, c: Column, v: Cell)
    requires Fits(c, v)
    ensures GetEvent(events, id).Some? <==> GetEvent(UpdateRows(events, id, c, v), id).Some?
    ensures GetEvent(events, id).Some? ==> GetEvent(UpdateRows(events, id, c, v), id) == Some(Write(GetEvent(events, id).value, c, v))
  {
    if events != [] {
      UpdateFound(events[1..], id, c, v);
      var r := UpdateRows(events, id, c, v);
      assert r[1..] == UpdateRows(events[1..], id, c, v);
      if events[0].id == id {
        assert r[0] == Write(events[0], c, v);
      }
    }
  }

  lemma {:induction false} UpdateLeavesOthers(events: seq<EventRow>, id: int, c: Column, v: Cell, other: int)
    requires Fits(c, v) && other != id
    ensures GetEvent(UpdateRows(events, id, c, v), other) == GetEvent(events, other)
  {
    if events != [] {
      UpdateLeavesOthers(events[1..], id, c, v, other);
      assert UpdateRows(events, id, c, v)[1..] == UpdateRows(events[1..], id, c, v);
    }
  }

  lemma UpdateKeepsValid(events: seq<EventRow>, id: int, c: Column, v: Cell)
    requires EventsValid(events) && Fits(c, v)
    ensures EventsValid(UpdateRows(events, id, c, v))
  {
    var r := UpdateRows(events, id, c, v);
    forall i | 0 <= i < |r| ensures r[i].id == events[i].id && ValidDate(r[i].date) {
      if events[i].id == id && c == DateColumn {
        assert Read(r[i], DateColumn) == v;
      } else {
        assert Read(r[i], DateColumn) == Read(events[i], DateColumn);
      }
    }
  }

  method UpdateEventField(db: Db, id: int, c: Column, v: Cell)
    requires db.Valid() && Fits(c, v)
    modifies db
    ensures db.Valid()
    ensures db.events == UpdateRows(old(db.events), id, c, v)
    ensures db.registrations == old(db.registrations) && db.users == old(db.users) && db.logs == old(db.logs)
  {
    UpdateKeepsValid(db.events, id, c, v);
    db.events := UpdateRows(db.events, id, c, v);
  }

  // ---------------------------------------------------------------- keyboards

  /** `event_main_kb`: edit, participants, delete. */
  function MainKeyboard(id: int): (kb: seq<Button>)
    ensures |kb| == 3 && forall b :: b in kb ==> b.WithId? && b.id == id
  {
    [WithId(EventEdit, id), WithId(EventUsers, id), WithId(EventDelete, id)]
  }

  /** The seven per-field edit actions, in keyboard order. */
  function FieldActions(): (s: seq<Action>)
    ensures |s| == 7
    ensures forall i, j :: 0 <= i < j < |s| ==> s[i] != s[j]
  {
    [EventEditName, EventEditDescription, EventEditPrice, EventEditAddress, EventEditMax, EventEditDate, EventEditTime]
  }

  /** `event_edit_kb`: back, then one button per editable field. */
  function EditKeyboard(id: int): (kb: seq<Button>)
    ensures |kb| == 8 && kb[0] == WithId(EventBack, id)
    ensures forall i :: 1 <= i < |kb| ==> kb[i] == WithId(FieldActions()[i - 1], id)
    ensures forall b :: b in kb ==> b.WithId? && b.id == id
  {
    [WithId(EventBack, id)] + seq(7, i requires 0 <= i < 7 => WithId(FieldActions()[i], id))
  }

  /** `delete_confirm_kb`: yes, no. */
  function DeleteConfirmKeyboard(id: int): (kb: seq<Button>)
    ensures |kb| == 2 && forall b :: b in kb ==> b.WithId? && b.id == id
  {
    [WithId(EventDeleteYes, id), WithId(EventDeleteNo, id)]
  }

  /** The button's handler reads its id back, and the button reaches exactly its own handler. */
  predicate RoutesWithId(b: Button, id: int, h: Handler) {
    EventIdOf(Payload(b)) == Some(id) && (Accepts(h, Payload(b)) <==> Target(b) == Some(h))
  }

  /**
   * Every button with an id carries `<prefix>:<event_id>`, its handler reads that id back, and
   * it reaches exactly its own handler.
   */
  lemma ButtonRoutes(a: Action, id: int, h: Handler)
    ensures RoutesWithId(WithId(a, id), id, h)
  {
    EventIdRoundTrip(a, id);
    RoutedToTarget(WithId(a, id), h);
  }

  /** The buttons of the card and of the confirmation question all have an admin handler. */
  lemma CardButtonsHandled(id: int)
    ensures forall b :: b in MainKeyboard(id) + DeleteConfirmKeyboard(id) ==>
      Target(b).Some? && Target(b).value in AdminHandlers()
  {
  }

  /** The edit keyboard's buttons all route with their id; only the back button has a handler. */
  lemma EditKeyboardRoutes(id: int, h: Handler)
    ensures forall b :: b in EditKeyboard(id) ==> RoutesWithId(b, id, h)
    ensures Target(EditKeyboard(id)[0]).Some?
    ensures forall i :: 1 <= i < 8 ==> Target(EditKeyboard(id)[i]).None?
  {
    forall b | b in EditKeyboard(id) ensures RoutesWithId(b, id, h) {
      ButtonRoutes(b.action, id, h);
    }
  }

  /** `show_future_events`: one card per upcoming event, each with its main keyboard. */
  function EventCards(events: seq<EventRow>, today: Date): (cards: seq<(EventRow, seq<Button>)>)
    ensures |cards| == |FutureEvents(events, today)|
    ensures forall i :: 0 <= i < |cards| ==>
      cards[i].0 == FutureEvents(events, today)[i] && cards[i].1 == MainKeyboard(cards[i].0.id)
  {
    var rows := FutureEvents(events, today);
    seq(|rows|, i requires 0 <= i < |rows| => (rows[i], MainKeyboard(rows[i].id)))
  }

  // ---------------------------------------------------------------- callback handlers

  /** The admin router's callback handlers, in registration order. */
  function AdminHandlers(): seq<Handler> {
    [OnEventEdit, OnEventBack, OnEventUsers, OnEventDelete, OnEventDeleteYes, OnEventDeleteNo]
  }

  /** The first admin handler whose filter takes the payload. */
  function AdminRoute(data: string): (r: Option<Handler>)
    ensures r.Some? ==> r.value in AdminHandlers() && Accepts(r.value, data)
    ensures r.None? ==> forall h :: h in AdminHandlers() ==> !Accepts(h, data)
  {
    FirstAccepting(AdminHandlers(), data)
  }

  function FirstAccepting(hs: seq<Handler>, data: string): (r: Option<Handler>)
    ensures r.Some? ==> r.value in hs && Accepts(r.value, data)
    ensures r.None? ==> forall h :: h in hs ==> !Accepts(h, data)
  {
    if hs == [] then None
    else if Accepts(hs[0], data) then Some(hs[0])
    else FirstAccepting(hs[1..], data)
  }

  /** Registration order does not matter for generated payloads: the router picks the button's own handler. */
  lemma AdminRouteOfButton(b: Button)
    requires Target(b).Some? && Target(b).value in AdminHandlers()
    ensures AdminRoute(Payload(b)) == Target(b)
  {
    var r := AdminRoute(Payload(b));
    RoutedToTarget(b, Target(b).value);
    if r.Some? {
      RoutedToTarget(b, r.value);
    }
  }

  /** What an admin callback does. */
  datatype AdminReply =
    | ShowKeyboard(kb: seq<Button>)  // the card's keyboard is replaced
    | AskToConfirm(kb: seq<Button>)  // a confirmation question is sent
    | ListParticipants(eventId: int)
    | Deleted(eventId: int)
    | DeletionCancelled
    | Raised                         // `int(...)` of the payload failed
    | Unhandled                      // no admin handler takes the payload

  /** The handler's reply given the id read from the payload; all but `event_delete_no` need the id. */
  function Respond(route: Option<Handler>, id: Option<int>): (r: AdminReply)
    ensures r.Unhandled? <==> route.None? || route.value !in AdminHandlers()
    ensures r.Deleted? <==> route == Some(OnEventDeleteYes) && id.Some?
    ensures r.Deleted? ==> id == Some(r.eventId)
    ensures route == Some(OnEventDeleteNo) ==> r == DeletionCancelled
    ensures r.Raised? <==> route.Some? && route.value in AdminHandlers() && route != Some(OnEventDeleteNo) && id.None?
  {
    match route
    case None => Unhandled
    case Some(h) =>
      if h !in AdminHandlers() then Unhandled
      else if h == OnEventDeleteNo then DeletionCancelled
      else match id
        case None => Raised
        case Some(n) =>
          match h
          case OnEventEdit => ShowKeyboard(EditKeyboard(n))
          case OnEventBack => ShowKeyboard(MainKeyboard(n))
          case OnEventUsers => ListParticipants(n)
          case OnEventDelete => AskToConfirm(DeleteConfirmKeyboard(n))
          case OnEventDeleteYes => Deleted(n)
          case _ => Unhandled
  }

  /** The reply to a callback payload: route it, read the id after the first colon, respond. */
  function AdminReplyTo(data: string): AdminReply {
    Respond(AdminRoute(data), EventIdOf(data))
  }

  /** The screen each button of an event card is meant to lead to. */
  function CardReply(a: Action, id: int): AdminReply {
    match a
    case EventEdit => ShowKeyboard(EditKeyboard(id))
    case EventBack => ShowKeyboard(MainKeyboard(id))
    case EventUsers => ListParticipants(id)
    case EventDelete => AskToConfirm(DeleteConfirmKeyboard(id))
    case EventDeleteYes => Deleted(id)
    case EventDeleteNo => DeletionCancelled
    case _ => Unhandled
  }

  /** Each button of the admin keyboards leads to the screen meant for it, for the same event. */
  lemma CardNavigation(a: Action, id: int)
    requires Target(WithId(a, id)).Some? && Target(WithId(a, id)).value in AdminHandlers()
    ensures AdminReplyTo(Payload(WithId(a, id))) == CardReply(a, id)
  {
    var data := Payload(WithId(a, id));
    var route := AdminRoute(data);
    AdminRouteOfButton(WithId(a, id));
    EventIdRoundTrip(a, id);
    assert AdminReplyTo(data) == Respond(route, Some(id));
    RespondToTarget(a, id);
  }

  lemma RespondToTarget(a: Action, id: int)
    requires Target(WithId(a, id)).Some? && Target(WithId(a, id)).value in AdminHandlers()
    ensures Respond(Target(WithId(a, id)), Some(id)) == CardReply(a, id)
  {
  }

  /** The admin router: only a confirmed deletion changes the tables. */
  method OnAdminCallback(db: Db, data: string) returns (r: AdminReply)
    requires db.Valid()
    modifies db
    ensures db.Valid() && r == AdminReplyTo(data)
    ensures r.Deleted? ==> db.events == SoftDelete(old(db.events), r.eventId)
    ensures !r.Deleted? ==> db.events == old(db.events)
    ensures db.registrations == old(db.registrations) && db.users == old(db.users) && db.logs == old(db.logs)
  {
    r := AdminReplyTo(data);
    if r.Deleted? {
      MarkEventDeleted(db, r.eventId);
    }
  }
}
